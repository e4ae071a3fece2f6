/**
 The order in which pandas sorts the distinct values of a column (when it
 builds the categories of a categorical column, and when `mode()` returns the
 most frequent values in sorted order).  Strings compare as Python compares
 them, code point by code point; in a column that mixes kinds of value,
 numbers come before booleans and booleans before strings.
 */
module Ordering {
  import opened Frames

  /** Python's `<` on strings: lexicographic by code point. */
  predicate StrLess(a: string, b: string) {
    if a == [] then b != []
    else b != [] && (a[0] < b[0] || (a[0] == b[0] && StrLess(a[1..], b[1..])))
  }

  predicate CellLess(a: Cell, b: Cell) {
    match (a, b)
    case (Num(x), Num(y)) => x < y
    case (Num(_), _) => true
    case (Bool(p), Bool(q)) => !p && q
    case (Bool(_), Str(_)) => true
    case (Str(s), Str(t)) => StrLess(s, t)
    case _ => false
  }

  lemma {:induction false} StrLessIrreflexive(a: string)
    ensures !StrLess(a, a)
  {
    if a != [] {
      StrLessIrreflexive(a[1..]);
    }
  }

  lemma {:induction false} StrLessTransitive(a: string, b: string, c: string)
    requires StrLess(a, b) && StrLess(b, c)
    ensures StrLess(a, c)
  {
    if a != [] && a[0] == b[0] && b[0] == c[0] {
      StrLessTransitive(a[1..], b[1..], c[1..]);
    }
  }

  lemma {:induction false} StrLessTotal(a: string, b: string)
    requires a != b
    ensures StrLess(a, b) || StrLess(b, a)
  {
    if a != [] && b != [] && a[0] == b[0] {
      StrLessTotal(a[1..], b[1..]);
    }
  }

  /** CellLess is a strict total order on cells. */
  lemma CellLessIsStrictTotalOrder()
    ensures forall a :: !CellLess(a, a)
    ensures forall a, b, c :: CellLess(a, b) && CellLess(b, c) ==> CellLess(a, c)
    ensures forall a, b :: a != b ==> CellLess(a, b) || CellLess(b, a)
  {
    forall a ensures !CellLess(a, a) {
      if a.Str? { StrLessIrreflexive(a.s); }
    }
    forall a, b, c | CellLess(a, b) && CellLess(b, c) ensures CellLess(a, c) {
      if a.Str? && b.Str? && c.Str? { StrLessTransitive(a.s, b.s, c.s); }
    }
    forall a, b | a != b ensures CellLess(a, b) || CellLess(b, a) {
      if a.Str? && b.Str? { StrLessTotal(a.s, b.s); }
    }
  }
}
