/**
 The pandas reductions the helpers rely on, over exact real arithmetic:
 `mean`, `median`, `min`, `max` of the present numbers of a column, `mode` of
 its present cells, and the sorted distinct values (the categories) of a
 column.  Missing entries are skipped, as pandas does by default.
 */
module Stats {
  import opened Frames
  import opened Ordering

  /** Every present cell of a numeric column is a number. */
  predicate NumericValues(x: seq<Value>) {
    forall i :: 0 <= i < |x| && x[i].Some? ==> x[i].value.Num?
  }

  /** The present cells of a column, in order. */
  function PresentCells(x: seq<Value>): (r: seq<Cell>)
    ensures |r| <= |x|
  {
    if x == [] then []
    else (if x[0].Some? then [x[0].value] else []) + PresentCells(x[1..])
  }

  /** The present numbers of a column, in order. */
  function PresentReals(x: seq<Value>): (r: seq<real>)
    ensures |r| <= |PresentCells(x)|
  {
    if x == [] then []
    else (if x[0].Some? && x[0].value.Num? then [x[0].value.x] else []) + PresentReals(x[1..])
  }

  /** In a numeric column every present cell is a number. */
  lemma {:induction false} PresentRealsCount(x: seq<Value>)
    requires NumericValues(x)
    ensures |PresentReals(x)| == |PresentCells(x)|
  {
    if x != [] {
      PresentRealsCount(x[1..]);
    }
  }

  /** The present cells are exactly the cells the column holds. */
  lemma {:induction false} PresentCellsMembers(x: seq<Value>)
    ensures forall c :: c in PresentCells(x) <==> Some(c) in x
  {
    if x != [] {
      PresentCellsMembers(x[1..]);
      assert forall w :: w in x <==> w == x[0] || w in x[1..];
    }
  }

  /** Every number the column holds is among its present numbers. */
  lemma {:induction false} PresentRealsMembers(x: seq<Value>)
    ensures forall i :: 0 <= i < |x| && x[i].Some? && x[i].value.Num? ==> x[i].value.x in PresentReals(x)
  {
    if x != [] {
      PresentRealsMembers(x[1..]);
      assert forall i :: 1 <= i < |x| ==> x[i] == x[1..][i - 1];
    }
  }

  /** pandas `isnull().sum()`: the number of missing entries. */
  function NullCount(x: seq<Value>): (n: nat)
    ensures n + |PresentCells(x)| == |x|
  {
    if x == [] then 0 else (if x[0].None? then 1 else 0) + NullCount(x[1..])
  }

  function Sum(xs: seq<real>): real {
    if xs == [] then 0.0 else xs[0] + Sum(xs[1..])
  }

  function Mean(xs: seq<real>): real
    requires |xs| > 0
  {
    Sum(xs) / (|xs| as real)
  }

  function Min(xs: seq<real>): (m: real)
    requires |xs| > 0
    ensures m in xs && forall i :: 0 <= i < |xs| ==> m <= xs[i]
  {
    if |xs| == 1 then xs[0]
    else
      var rest := Min(xs[1..]);
      if xs[0] <= rest then xs[0] else rest
  }

  function Max(xs: seq<real>): (m: real)
    requires |xs| > 0
    ensures m in xs && forall i :: 0 <= i < |xs| ==> xs[i] <= m
  {
    if |xs| == 1 then xs[0]
    else
      var rest := Max(xs[1..]);
      if xs[0] >= rest then xs[0] else rest
  }

  lemma {:induction false} SumBounds(xs: seq<real>, lo: real, hi: real)
    requires forall x :: x in xs ==> lo <= x <= hi
    ensures (|xs| as real) * lo <= Sum(xs) <= (|xs| as real) * hi
  {
    if xs != [] {
      assert forall x :: x in xs[1..] ==> x in xs;
      assert xs[0] in xs;
      SumBounds(xs[1..], lo, hi);
      var n := |xs[1..]| as real;
      assert Sum(xs) == xs[0] + Sum(xs[1..]);
      assert |xs| as real == n + 1.0;
      assert (n + 1.0) * lo == n * lo + lo && (n + 1.0) * hi == n * hi + hi;
    }
  }

  /** The mean lies between the smallest and the largest value. */
  lemma MeanBounds(xs: seq<real>)
    requires |xs| > 0
    ensures Min(xs) <= Mean(xs) <= Max(xs)
  {
    var lo, hi := Min(xs), Max(xs);
    SumBounds(xs, lo, hi);
    MeanWithin(xs, lo, hi);
  }

  lemma MeanWithin(xs: seq<real>, lo: real, hi: real)
    requires |xs| > 0
    requires (|xs| as real) * lo <= Sum(xs) <= (|xs| as real) * hi
    ensures lo <= Mean(xs) <= hi
  {
    var s, n := Sum(xs), |xs| as real;
    assert s / n - lo == (s - n * lo) / n;
    assert hi - s / n == (n * hi - s) / n;
  }

  /** The sum of two samples put together is the sum of their sums. */
  lemma {:induction false} SumAppend(a: seq<real>, b: seq<real>)
    ensures Sum(a + b) == Sum(a) + Sum(b)
  {
    if a == [] {
      assert a + b == b;
    } else {
      assert (a + b)[0] == a[0];
      assert (a + b)[1..] == a[1..] + b;
      SumAppend(a[1..], b);
    }
  }

  predicate SortedReals(s: seq<real>) {
    forall i, j :: 0 <= i < j < |s| ==> s[i] <= s[j]
  }

  /** `x` inserted into `s` before the first element it does not exceed. */
  function InsertReal(x: real, s: seq<real>): (r: seq<real>)
    ensures |r| == |s| + 1 && multiset(r) == multiset(s) + multiset{x}
  {
    if s == [] || x <= s[0] then [x] + s
    else
      assert s == [s[0]] + s[1..];
      [s[0]] + InsertReal(x, s[1..])
  }

  /** Inserting into a sorted sequence keeps it sorted. */
  lemma {:induction false} InsertRealSorted(x: real, s: seq<real>)
    requires SortedReals(s)
    ensures SortedReals(InsertReal(x, s))
  {
    if s != [] && x > s[0] {
      var rest := InsertReal(x, s[1..]);
      InsertRealSorted(x, s[1..]);
      assert forall k :: 0 <= k < |rest| ==> s[0] <= rest[k] by {
        forall k | 0 <= k < |rest| ensures s[0] <= rest[k] {
          assert rest[k] in multiset(rest);
        }
      }
    }
  }

  /** Insertion sort: the sorted permutation pandas takes the median from. */
  function SortReals(s: seq<real>): (r: seq<real>)
    ensures SortedReals(r) && |r| == |s| && multiset(r) == multiset(s)
  {
    if s == [] then []
    else
      assert s == [s[0]] + s[1..];
      InsertRealSorted(s[0], SortReals(s[1..]));
      InsertReal(s[0], SortReals(s[1..]))
  }

  /** pandas `median`: the middle value, or the mean of the two middle ones. */
  function Median(xs: seq<real>): real
    requires |xs| > 0
  {
    var s := SortReals(xs);
    var n := |s|;
    if n % 2 == 1 then s[n / 2] else (s[n / 2 - 1] + s[n / 2]) / 2.0
  }

  /** The median lies between the smallest and the largest value, and is a
      value of the sample when the sample has odd size. */
  lemma MedianBounds(xs: seq<real>)
    requires |xs| > 0
    ensures Min(xs) <= Median(xs) <= Max(xs)
    ensures |xs| % 2 == 1 ==> Median(xs) in xs
  {
    var s := SortReals(xs);
    var n := |s|;
    forall k | 0 <= k < n ensures s[k] in xs && Min(xs) <= s[k] <= Max(xs) {
      assert s[k] in multiset(s);
    }
  }

  /**
   The mode among the candidates `cands`: a candidate occurring most often in
   `xs`, the least one in CellLess among those that tie.
   */
  function ModeOf(xs: seq<Cell>, cands: seq<Cell>): (m: Cell)
    requires |cands| > 0
    ensures m in cands
    ensures forall v :: v in cands ==> multiset(xs)[v] <= multiset(xs)[m]
    ensures forall v :: v in cands && v != m && multiset(xs)[v] == multiset(xs)[m] ==> CellLess(m, v)
  {
    if |cands| == 1 then cands[0]
    else
      var rest := ModeOf(xs, cands[1..]);
      var c := cands[0];
      CellLessIsStrictTotalOrder();
      assert forall v :: v in cands ==> v == c || v in cands[1..];
      if multiset(xs)[c] > multiset(xs)[rest]
        || (multiset(xs)[c] == multiset(xs)[rest] && CellLess(c, rest))
      then c
      else rest
  }

  /** pandas `mode()[0]`: the smallest of the most frequent present cells. */
  function Mode(xs: seq<Cell>): (m: Cell)
    requires |xs| > 0
    ensures m in xs
    ensures forall v :: v in xs ==> multiset(xs)[v] <= multiset(xs)[m]
    ensures forall v :: v in xs && v != m && multiset(xs)[v] == multiset(xs)[m] ==> CellLess(m, v)
  {
    ModeOf(xs, xs)
  }

  /** Each value is less than the next one (and so, by SortedLeast, than every later one). */
  predicate StrictlySorted(ls: seq<Cell>) {
    |ls| <= 1 || (CellLess(ls[0], ls[1]) && StrictlySorted(ls[1..]))
  }

  /** The head of a strictly sorted sequence is less than every later element. */
  lemma {:induction false} SortedLeast(ls: seq<Cell>)
    requires StrictlySorted(ls) && |ls| > 0
    ensures forall w :: w in ls[1..] ==> CellLess(ls[0], w)
  {
    if |ls| > 1 {
      SortedLeast(ls[1..]);
      CellLessIsStrictTotalOrder();
      assert ls[1..][1..] == ls[2..];
      assert forall w :: w in ls[1..] ==> w == ls[1] || w in ls[2..];
    }
  }

  /** A strictly sorted sequence has no element twice. */
  lemma {:induction false} SortedDistinct(ls: seq<Cell>)
    requires StrictlySorted(ls)
    ensures Distinct(ls)
  {
    if ls != [] {
      SortedLeast(ls);
      CellLessIsStrictTotalOrder();
      SortedDistinct(ls[1..]);
    }
  }

  function InsertLevel(v: Cell, ls: seq<Cell>): (r: seq<Cell>)
    requires StrictlySorted(ls)
    ensures StrictlySorted(r) && |r| > 0
    ensures r[0] == v || (ls != [] && r[0] == ls[0])
    ensures forall w :: w in r <==> w == v || w in ls
  {
    CellLessIsStrictTotalOrder();
    if ls == [] then [v]
    else if v == ls[0] then ls
    else if CellLess(v, ls[0]) then
      assert ([v] + ls)[1..] == ls;
      [v] + ls
    else
      var rest := InsertLevel(v, ls[1..]);
      assert forall w :: w in ls ==> w == ls[0] || w in ls[1..];
      assert ([ls[0]] + rest)[1..] == rest;
      [ls[0]] + rest
  }

  /**
   The categories pandas finds in a column (`astype("category")`, and what
   `get_dummies` encodes): its distinct present values, in sorted order.
   */
  function Levels(x: seq<Value>): (ls: seq<Cell>)
    ensures StrictlySorted(ls)
    ensures forall v :: v in ls <==> Some(v) in x
  {
    if x == [] then []
    else
      var rest := Levels(x[1..]);
      assert forall w :: w in x ==> w == x[0] || w in x[1..];
      if x[0].Some? then InsertLevel(x[0].value, rest) else rest
  }

  /** The first level is the least present value of the column. */
  lemma FirstLevelIsLeast(x: seq<Value>)
    requires |Levels(x)| > 0
    ensures forall v :: Some(v) in x && v != Levels(x)[0] ==> CellLess(Levels(x)[0], v)
  {
    var ls := Levels(x);
    SortedLeast(ls);
    assert forall v :: v in ls ==> v == ls[0] || v in ls[1..];
  }
}
