/**
 A table in the shape the pipeline's pandas code sees it: an ordered list of
 column names and a sequence of rows, each row a map from column name to an
 optional cell.  A missing cell (pandas' NaN) is `None`.
 */
module Frames {

  datatype Option<T> = None | Some(value: T)

  /** The ways the pipeline's stages abort. */
  datatype Error =
    | MissingColumn   // a column the code names is absent (pandas KeyError)
    | NoMode          // mode()[0] of a series without a single present value
    | NoSamples       // the scaler is fitted on a table with no rows
    | NoFeatures      // the scaler is fitted on a table with no columns
    | NotFloat        // astype("float64") meets a string that is not a number

  datatype Result<T> = Ok(value: T) | Err(error: Error)

  /** A present cell: a number, a boolean or a string. */
  datatype Cell = Num(x: real) | Bool(b: bool) | Str(s: string)

  type Value = Option<Cell>

  /**
   A column name.  Indicator columns made by dummy encoding are named by the
   column they came from and the category they indicate (pandas writes this
   name as the string `<prefix>_<level>`).
   */
  datatype ColName = Name(s: string) | Dummy(prefix: ColName, level: Cell)

  /** The dtype pandas gives a column. */
  datatype DType = Float64 | Int64 | Object | Other

  predicate IsNumeric(t: DType) { t == Float64 || t == Int64 }

  type Row = map<ColName, Value>

  datatype Frame = Frame(columns: seq<ColName>, rows: seq<Row>)

  /** No element occurs twice. */
  predicate Distinct<T(==)>(s: seq<T>) {
    s == [] || (s[0] !in s[1..] && Distinct(s[1..]))
  }

  /** Distinct means pairwise different. */
  lemma {:induction false} DistinctPairwise<T>(s: seq<T>)
    ensures Distinct(s) <==> forall i, j :: 0 <= i < j < |s| ==> s[i] != s[j]
  {
    if s != [] {
      DistinctPairwise(s[1..]);
      assert forall i :: 1 <= i < |s| ==> s[i] == s[1..][i - 1];
      if s[0] in s[1..] {
        var k :| 0 <= k < |s[1..]| && s[1..][k] == s[0];
        assert s[k + 1] == s[0];
      }
    }
  }

  /** A prefix of a sequence without repeats has none either. */
  lemma {:induction false} DistinctPrefix<T>(s: seq<T>, k: nat)
    requires Distinct(s) && k <= |s|
    ensures Distinct(s[..k])
  {
    if k > 0 {
      assert s[..k][1..] == s[1..][..k - 1];
      DistinctPrefix(s[1..], k - 1);
      assert s[0] !in s[1..][..k - 1] by {
        assert forall x :: x in s[1..][..k - 1] ==> x in s[1..];
      }
    }
  }

  /** Two distinct sequences without a common element concatenate to a distinct one. */
  lemma {:induction false} DistinctAppend<T>(a: seq<T>, b: seq<T>)
    requires Distinct(a) && Distinct(b) && forall x :: x in a ==> x !in b
    ensures Distinct(a + b)
  {
    if a != [] {
      assert (a + b)[1..] == a[1..] + b;
      DistinctAppend(a[1..], b);
    } else {
      assert a + b == b;
    }
  }

  /** A sequence without members is empty. */
  lemma NoMemberIsEmpty<T>(s: seq<T>)
    ensures (forall x :: x !in s) ==> s == []
  {
    if s != [] {
      assert s[0] in s;
    }
  }

  /** The elements of `s` that satisfy `p`, in their original order. */
  function Filter<T(==,!new)>(s: seq<T>, p: T -> bool): (r: seq<T>)
    ensures |r| <= |s|
    ensures forall x :: x in r <==> x in s && p(x)
  {
    if s == [] then [] else (if p(s[0]) then [s[0]] else []) + Filter(s[1..], p)
  }

  function Both<T>(p: T -> bool, q: T -> bool): T -> bool {
    x => p(x) && q(x)
  }

  /** Filtering distributes over concatenation: relative order is kept. */
  lemma {:induction false} FilterAppend<T(!new)>(a: seq<T>, b: seq<T>, p: T -> bool)
    ensures Filter(a + b, p) == Filter(a, p) + Filter(b, p)
  {
    if a == [] {
      assert a + b == b;
    } else {
      assert (a + b)[0] == a[0];
      assert (a + b)[1..] == a[1..] + b;
      FilterAppend(a[1..], b, p);
    }
  }

  /** Two successive filters are one filter by the conjunction. */
  lemma {:induction false} FilterFilter<T(!new)>(s: seq<T>, p: T -> bool, q: T -> bool)
    ensures Filter(Filter(s, p), q) == Filter(s, Both(p, q))
  {
    if s != [] {
      FilterFilter(s[1..], p, q);
      var head := if p(s[0]) then [s[0]] else [];
      assert Filter(s, p) == head + Filter(s[1..], p);
      FilterAppend(head, Filter(s[1..], p), q);
    }
  }

  /** Hence the order in which filters are applied does not matter. */
  lemma FilterCommutes<T(!new)>(s: seq<T>, p: T -> bool, q: T -> bool)
    ensures Filter(Filter(s, p), q) == Filter(Filter(s, q), p)
  {
    FilterFilter(s, p, q);
    FilterFilter(s, q, p);
    assert Filter(s, Both(p, q)) == Filter(s, Both(q, p)) by {
      FilterSame(s, Both(p, q), Both(q, p));
    }
  }

  lemma {:induction false} FilterSame<T(!new)>(s: seq<T>, p: T -> bool, q: T -> bool)
    requires forall x :: p(x) == q(x)
    ensures Filter(s, p) == Filter(s, q)
  {
    if s != [] {
      FilterSame(s[1..], p, q);
    }
  }

  lemma {:induction false} FilterDistinct<T(!new)>(s: seq<T>, p: T -> bool)
    requires Distinct(s)
    ensures Distinct(Filter(s, p))
  {
    if s != [] {
      var rest := Filter(s[1..], p);
      FilterDistinct(s[1..], p);
      if p(s[0]) {
        assert s[0] !in rest;
        assert Filter(s, p) == [s[0]] + rest;
        assert ([s[0]] + rest)[1..] == rest;
      } else {
        assert Filter(s, p) == rest;
      }
    }
  }

  /** `g` applied to every element of `s`. */
  function MapSeq<T, U>(s: seq<T>, g: T -> U): (r: seq<U>)
    ensures |r| == |s| && forall i :: 0 <= i < |s| ==> r[i] == g(s[i])
  {
    seq(|s|, i requires 0 <= i < |s| => g(s[i]))
  }

  /** Filtering the images is mapping the elements whose image passes. */
  lemma {:induction false} FilterMap<T(!new), U(!new)>(s: seq<T>, g: T -> U, p: U -> bool, q: T -> bool)
    requires forall x :: q(x) == p(g(x))
    ensures Filter(MapSeq(s, g), p) == MapSeq(Filter(s, q), g)
  {
    if s != [] {
      var m, rest := MapSeq(s, g), Filter(s[1..], q);
      FilterMap(s[1..], g, p, q);
      assert m == [g(s[0])] + MapSeq(s[1..], g);
      FilterAppend([g(s[0])], MapSeq(s[1..], g), p);
      assert Filter(m, p) == Filter([g(s[0])], p) + MapSeq(rest, g);
      if q(s[0]) {
        assert Filter(s, q) == [s[0]] + rest;
        assert Filter([g(s[0])], p) == [g(s[0])];
        assert MapSeq([s[0]] + rest, g) == [g(s[0])] + MapSeq(rest, g);
      } else {
        assert Filter(s, q) == rest;
        assert Filter([g(s[0])], p) == [];
      }
    }
  }

  /** A filter every element passes keeps the sequence as it is. */
  lemma {:induction false} FilterAll<T(!new)>(s: seq<T>, p: T -> bool)
    requires forall i :: 0 <= i < |s| ==> p(s[i])
    ensures Filter(s, p) == s
  {
    if s != [] {
      FilterAll(s[1..], p);
    }
  }

  function ColumnSet(f: Frame): set<ColName> {
    set c | c in f.columns
  }

  /** No column name twice, and every row has exactly the frame's columns. */
  predicate WellFormed(f: Frame) {
    && Distinct(f.columns)
    && forall i :: 0 <= i < |f.rows| ==> f.rows[i].Keys == ColumnSet(f)
  }

  predicate HasColumns(f: Frame, cs: set<ColName>) {
    forall c :: c in cs ==> c in f.columns
  }

  function NotIn(cs: set<ColName>): ColName -> bool {
    c => c !in cs
  }

  function NotAmong(cs: seq<ColName>): ColName -> bool {
    c => c !in cs
  }

  /** The values of column `c`, row by row (pandas `df[c]`). */
  function Col(f: Frame, c: ColName): (v: seq<Value>)
    requires WellFormed(f) && c in f.columns
    ensures |v| == |f.rows|
  {
    seq(|f.rows|, i requires 0 <= i < |f.rows| => f.rows[i][c])
  }

  /** pandas `df.drop(cs, axis=1)`, once the names are known to be present. */
  function DropColumns(f: Frame, cs: set<ColName>): (g: Frame)
    requires WellFormed(f)
    ensures WellFormed(g) && |g.rows| == |f.rows|
    ensures g.columns == Filter(f.columns, NotIn(cs))
    ensures forall c :: c in g.columns <==> c in f.columns && c !in cs
    ensures forall i, c :: 0 <= i < |g.rows| && c in g.columns ==> g.rows[i][c] == f.rows[i][c]
    ensures forall i :: 0 <= i < |g.rows| ==> g.rows[i] == f.rows[i] - cs
  {
    FilterDistinct(f.columns, NotIn(cs));
    Frame(Filter(f.columns, NotIn(cs)), seq(|f.rows|, i requires 0 <= i < |f.rows| => f.rows[i] - cs))
  }

  /** No cell of the table is missing. */
  predicate Complete(f: Frame)
    requires WellFormed(f)
  {
    forall i, c :: 0 <= i < |f.rows| && c in f.columns ==> f.rows[i][c].Some?
  }

  /** Dropping `a` and then `b` drops `a + b` at once. */
  lemma DropUnion(f: Frame, a: set<ColName>, b: set<ColName>)
    requires WellFormed(f)
    ensures DropColumns(DropColumns(f, a), b) == DropColumns(f, a + b)
  {
    var g, h := DropColumns(DropColumns(f, a), b), DropColumns(f, a + b);
    FilterFilter(f.columns, NotIn(a), NotIn(b));
    FilterSame(f.columns, Both(NotIn(a), NotIn(b)), NotIn(a + b));
    forall i | 0 <= i < |g.rows| ensures g.rows[i] == h.rows[i] {
      assert f.rows[i] - a - b == f.rows[i] - (a + b);
    }
  }

  /** pandas `df[cs]`: the named columns in the named order. */
  function Select(f: Frame, cs: seq<ColName>): (g: Frame)
    requires WellFormed(f) && Distinct(cs) && forall c :: c in cs ==> c in f.columns
    ensures WellFormed(g) && g.columns == cs && |g.rows| == |f.rows|
    ensures forall i, c :: 0 <= i < |g.rows| && c in cs ==> g.rows[i][c] == f.rows[i][c]
  {
    Frame(cs, seq(|f.rows|, i requires 0 <= i < |f.rows| => map c | c in cs :: f.rows[i][c]))
  }

  /** The rows that satisfy `p`, in order (boolean indexing, `dropna(subset=…)`). */
  function FilterRows(f: Frame, p: Row -> bool): (g: Frame)
    requires WellFormed(f)
    ensures WellFormed(g) && g.columns == f.columns && g.rows == Filter(f.rows, p)
  {
    var g := Frame(f.columns, Filter(f.rows, p));
    assert forall i :: 0 <= i < |g.rows| ==> g.rows[i] in f.rows;
    g
  }

  /** pandas `df[c] = vals`: replaces the column in place, or appends it. */
  function SetCol(f: Frame, c: ColName, vals: seq<Value>): (g: Frame)
    requires WellFormed(f) && |vals| == |f.rows|
    ensures WellFormed(g) && |g.rows| == |f.rows|
    ensures g.columns == if c in f.columns then f.columns else f.columns + [c]
    ensures forall i :: 0 <= i < |g.rows| ==> g.rows[i] == f.rows[i][c := vals[i]]
  {
    assert c !in f.columns ==> Distinct(f.columns + [c]) by {
      if c !in f.columns {
        DistinctAppend(f.columns, [c]);
      }
    }
    Frame(if c in f.columns then f.columns else f.columns + [c],
          seq(|f.rows|, i requires 0 <= i < |f.rows| => f.rows[i][c := vals[i]]))
  }

  /** pandas `concat([f, g], axis=1)` of two frames with the same default index. */
  function ConcatCols(f: Frame, g: Frame): (h: Frame)
    requires WellFormed(f) && WellFormed(g) && |f.rows| == |g.rows|
    requires ColumnSet(f) !! ColumnSet(g)
    ensures WellFormed(h) && h.columns == f.columns + g.columns && |h.rows| == |f.rows|
    ensures forall i, c :: 0 <= i < |h.rows| && c in f.columns ==> h.rows[i][c] == f.rows[i][c]
    ensures forall i, c :: 0 <= i < |h.rows| && c in g.columns ==> h.rows[i][c] == g.rows[i][c]
  {
    var cols := f.columns + g.columns;
    assert Distinct(cols) by {
      assert forall c :: c in f.columns ==> c in ColumnSet(f);
      DistinctAppend(f.columns, g.columns);
    }
    Frame(cols, seq(|f.rows|, i requires 0 <= i < |f.rows| => f.rows[i] + g.rows[i]))
  }

  /** Two well-formed frames with the same columns and the same cells are equal. */
  lemma FrameExt(a: Frame, b: Frame)
    requires WellFormed(a) && WellFormed(b) && a.columns == b.columns && |a.rows| == |b.rows|
    requires forall i, c :: 0 <= i < |a.rows| && c in a.columns ==> a.rows[i][c] == b.rows[i][c]
    ensures a == b
  {
    forall i | 0 <= i < |a.rows| ensures a.rows[i] == b.rows[i] {
      assert a.rows[i].Keys == b.rows[i].Keys;
    }
  }
}
