/**
 The column helpers of itu_sdse_project/helpers.py: missing-value imputation,
 drop-first dummy encoding and a numeric summary.  A pandas Series is a
 sequence of values together with its dtype; a DataFrame is a Frame.
 */
module Helpers {
  import opened Frames
  import opened Ordering
  import opened Stats

  /** pandas `fillna(fill)`: every missing entry becomes `fill`. */
  function FillMissing(x: seq<Value>, fill: Value): (r: seq<Value>)
    ensures |r| == |x|
    ensures forall i :: 0 <= i < |x| ==> r[i] == if x[i].Some? then x[i] else fill
  {
    seq(|x|, i requires 0 <= i < |x| => if x[i].Some? then x[i] else fill)
  }

  /**
   `impute_missing_values(x, strategy)`.  A float64 or int64 column is filled
   with its mean when `strategy` is "mean" and with its median for any other
   strategy string; without a present number both are NaN and the column stays
   as it is.  Any other column is filled with `mode()[0]`, which fails when
   the column has no present value.
   */
  function ImputeMissingValues(x: seq<Value>, dtype: DType, strategy: string): (r: Result<seq<Value>>)
    ensures r.Ok? <==> IsNumeric(dtype) || |PresentCells(x)| > 0
    ensures r.Err? ==> r.error == NoMode
    ensures r.Ok? ==> |r.value| == |x|
    ensures r.Ok? ==> forall i :: 0 <= i < |x| && x[i].Some? ==> r.value[i] == x[i]
    ensures r.Ok? && (if IsNumeric(dtype) then |PresentReals(x)| > 0 else |PresentCells(x)| > 0) ==>
      forall i :: 0 <= i < |x| ==> r.value[i].Some?
  {
    if IsNumeric(dtype) then
      var nums := PresentReals(x);
      var fill := if |nums| == 0 then None
                  else if strategy == "mean" then Some(Num(Mean(nums)))
                  else Some(Num(Median(nums)));
      Ok(FillMissing(x, fill))
    else ModeFill(x)
  }

  /**
   The branch of `impute_missing_values` for any other dtype:
   `x.fillna(x.mode()[0])`, which fails when nothing is present.  Every
   missing entry becomes the mode; present entries stay.
   */
  function ModeFill(x: seq<Value>): (r: Result<seq<Value>>)
    ensures r.Ok? <==> |PresentCells(x)| > 0
    ensures r.Err? ==> r.error == NoMode
    ensures r.Ok? ==> |r.value| == |x| && forall i :: 0 <= i < |x| ==>
      r.value[i] == if x[i].Some? then x[i] else Some(Mode(PresentCells(x)))
  {
    var cells := PresentCells(x);
    if |cells| == 0 then Err(NoMode) else Ok(FillMissing(x, Some(Mode(cells))))
  }

  /** With strategy "mean", every missing entry becomes the mean of the present numbers. */
  lemma MeanImputation(x: seq<Value>, dtype: DType)
    requires IsNumeric(dtype) && |PresentReals(x)| > 0
    ensures ImputeMissingValues(x, dtype, "mean").Ok?
    ensures forall i :: 0 <= i < |x| && x[i].None? ==>
      ImputeMissingValues(x, dtype, "mean").value[i] == Some(Num(Mean(PresentReals(x))))
  {
  }

  /** Any strategy string other than "mean" selects the median; none is rejected. */
  lemma MedianImputation(x: seq<Value>, dtype: DType, strategy: string)
    requires IsNumeric(dtype) && |PresentReals(x)| > 0 && strategy != "mean"
    ensures ImputeMissingValues(x, dtype, strategy).Ok?
    ensures forall i :: 0 <= i < |x| && x[i].None? ==>
      ImputeMissingValues(x, dtype, strategy).value[i] == Some(Num(Median(PresentReals(x))))
  {
  }

  /**
   A column that is not float64/int64 has every missing entry replaced by one
   present value, the most frequent one and, among equally frequent ones, the
   least; the strategy argument plays no part.
   */
  lemma ModeImputation(x: seq<Value>, dtype: DType, strategy: string)
    requires !IsNumeric(dtype) && |PresentCells(x)| > 0
    ensures ImputeMissingValues(x, dtype, strategy).Ok?
    ensures exists m ::
      && Some(m) in x
      && (forall v :: v in PresentCells(x) ==> multiset(PresentCells(x))[v] <= multiset(PresentCells(x))[m])
      && (forall v :: v in PresentCells(x) && v != m && multiset(PresentCells(x))[v] == multiset(PresentCells(x))[m]
            ==> CellLess(m, v))
      && (forall i :: 0 <= i < |x| && x[i].None? ==> ImputeMissingValues(x, dtype, strategy).value[i] == Some(m))
  {
    var m := Mode(PresentCells(x));
    PresentCellsMembers(x);
    assert Some(m) in x;
  }

  /** A numeric column without a single present number comes back unchanged. */
  lemma AllMissingNumericUnchanged(x: seq<Value>, dtype: DType, strategy: string)
    requires IsNumeric(dtype) && NumericValues(x) && |PresentReals(x)| == 0
    ensures ImputeMissingValues(x, dtype, strategy) == Ok(x)
  {
    var r := ImputeMissingValues(x, dtype, strategy).value;
    PresentRealsCount(x);
    PresentCellsMembers(x);
    assert forall i :: 0 <= i < |x| ==> x[i].None? by {
      forall i | 0 <= i < |x| ensures x[i].None? {
        assert x[i] in x;
      }
    }
    assert r == x;
  }

  /** Imputing an imputed column again changes nothing. */
  lemma ImputeIdempotent(x: seq<Value>, dtype: DType, strategy: string)
    requires IsNumeric(dtype) ==> NumericValues(x)
    requires ImputeMissingValues(x, dtype, strategy).Ok?
    ensures var r := ImputeMissingValues(x, dtype, strategy).value;
      (IsNumeric(dtype) ==> NumericValues(r)) && ImputeMissingValues(r, dtype, strategy) == Ok(r)
  {
    var r := ImputeMissingValues(x, dtype, strategy).value;
    if |PresentCells(x)| == 0 {
      if IsNumeric(dtype) {
        AllMissingNumericUnchanged(x, dtype, strategy);
      }
    } else {
      if IsNumeric(dtype) {
        PresentRealsCount(x);
        NumericAfterImpute(x, dtype, strategy);
      }
      ImputeComplete(r, dtype, strategy);
    }
  }

  /** A column without a missing entry is left as it is. */
  lemma ImputeComplete(r: seq<Value>, dtype: DType, strategy: string)
    requires |r| > 0 && forall i :: 0 <= i < |r| ==> r[i].Some?
    ensures ImputeMissingValues(r, dtype, strategy) == Ok(r)
  {
    PresentCellsMembers(r);
    assert r[0].value in PresentCells(r);
    var again := ImputeMissingValues(r, dtype, strategy);
    assert again.Ok?;
    assert |again.value| == |r|;
    assert forall i :: 0 <= i < |r| ==> again.value[i] == r[i];
    assert again.value == r;
    assert again == Ok(again.value);
  }

  /** Mean or median imputation keeps a numeric column numeric. */
  lemma NumericAfterImpute(x: seq<Value>, dtype: DType, strategy: string)
    requires IsNumeric(dtype) && NumericValues(x)
    ensures NumericValues(ImputeMissingValues(x, dtype, strategy).value)
  {
    var nums := PresentReals(x);
    var fill := if |nums| == 0 then None
                else if strategy == "mean" then Some(Num(Mean(nums)))
                else Some(Num(Median(nums)));
    assert ImputeMissingValues(x, dtype, strategy) == Ok(FillMissing(x, fill));
    NumericFill(x, fill);
  }

  lemma NumericFill(x: seq<Value>, fill: Value)
    requires NumericValues(x) && (fill.Some? ==> fill.value.Num?)
    ensures NumericValues(FillMissing(x, fill))
  {
  }

  lemma SumCons(a: real, s: seq<real>)
    ensures Sum([a] + s) == a + Sum(s)
  {
    assert ([a] + s)[1..] == s;
  }

  /** k copies of m added up. */
  function Copies(k: nat, m: real): real {
    if k == 0 then 0.0 else m + Copies(k - 1, m)
  }

  lemma {:induction false} CopiesIsProduct(k: nat, m: real)
    ensures Copies(k, m) == (k as real) * m
  {
    if k > 0 {
      CopiesIsProduct(k - 1, m);
      assert ((k - 1) as real) * m + m == (k as real) * m;
    }
  }

  /** Filling with m adds m once per missing entry to the sum of the present numbers. */
  lemma {:induction false} SumAfterFill(x: seq<Value>, m: real)
    ensures Sum(PresentReals(FillMissing(x, Some(Num(m))))) == Sum(PresentReals(x)) + Copies(NullCount(x), m)
  {
    if x != [] {
      var f := FillMissing(x, Some(Num(m)));
      var tail := FillMissing(x[1..], Some(Num(m)));
      assert f[1..] == tail;
      SumAfterFill(x[1..], m);
      assert f[0] == if x[0].Some? then x[0] else Some(Num(m));
      if x[0].Some? && x[0].value.Num? {
        assert PresentReals(f) == [x[0].value.x] + PresentReals(tail);
        assert PresentReals(x) == [x[0].value.x] + PresentReals(x[1..]);
        SumCons(x[0].value.x, PresentReals(tail));
        SumCons(x[0].value.x, PresentReals(x[1..]));
      } else if x[0].Some? {
        assert PresentReals(f) == PresentReals(tail);
        assert PresentReals(x) == PresentReals(x[1..]);
      } else {
        assert PresentReals(f) == [m] + PresentReals(tail);
        assert PresentReals(x) == PresentReals(x[1..]);
        SumCons(m, PresentReals(tail));
      }
    }
  }

  /** Mean imputation leaves the column's mean as it was. */
  lemma MeanImputationKeepsMean(x: seq<Value>, dtype: DType)
    requires IsNumeric(dtype) && NumericValues(x) && |PresentReals(x)| > 0
    ensures var r := ImputeMissingValues(x, dtype, "mean").value;
      |PresentReals(r)| > 0 && Mean(PresentReals(r)) == Mean(PresentReals(x))
  {
    var m := Mean(PresentReals(x));
    assert ImputeMissingValues(x, dtype, "mean") == Ok(FillMissing(x, Some(Num(m))));
    MeanFillKeepsMean(x);
  }

  lemma MeanFillKeepsMean(x: seq<Value>)
    requires NumericValues(x) && |PresentReals(x)| > 0
    ensures var r := FillMissing(x, Some(Num(Mean(PresentReals(x)))));
      |PresentReals(r)| > 0 && Mean(PresentReals(r)) == Mean(PresentReals(x))
  {
    var xs := PresentReals(x);
    var m := Mean(xs);
    var r := FillMissing(x, Some(Num(m)));
    SumAfterFill(x, m);
    CopiesIsProduct(NullCount(x), m);
    PresentRealsCount(x);
    FilledCount(x, Some(Num(m)));
    var rs := PresentReals(r);
    assert |rs| == |xs| + NullCount(x);
    assert |rs| as real == |xs| as real + NullCount(x) as real;
    MeanOfPadded(rs, Sum(xs), |xs| as real, NullCount(x) as real, m);
  }

  /** A sample of n + k values summing to s + k·m, where m = s / n, has mean m. */
  lemma MeanOfPadded(rs: seq<real>, s: real, n: real, k: real, m: real)
    requires n > 0.0 && k >= 0.0 && m == s / n
    requires |rs| as real == n + k && Sum(rs) == s + k * m
    ensures |rs| > 0 && Mean(rs) == m
  {
    assert s == m * n;
    assert s + k * m == m * (n + k);
  }

  /** After filling with a number, every entry of the column is a present number. */
  lemma {:induction false} FilledCount(x: seq<Value>, fill: Value)
    requires NumericValues(x) && fill.Some? && fill.value.Num?
    ensures |PresentReals(FillMissing(x, fill))| == |x|
  {
    if x != [] {
      var f := FillMissing(x, fill);
      assert f[1..] == FillMissing(x[1..], fill);
      FilledCount(x[1..], fill);
      assert f[0].Some? && f[0].value.Num?;
      assert PresentReals(f) == [f[0].value.x] + PresentReals(f[1..]);
    }
  }

  /** The example of tests/test_utilities.py: [1, 2, NaN, 3, NaN] becomes [1, 2, 2, 3, 2]. */
  lemma MeanImputationExample()
    ensures ImputeMissingValues([Some(Num(1.0)), Some(Num(2.0)), None, Some(Num(3.0)), None], Float64, "mean")
         == Ok([Some(Num(1.0)), Some(Num(2.0)), Some(Num(2.0)), Some(Num(3.0)), Some(Num(2.0))])
  {
    var x := [Some(Num(1.0)), Some(Num(2.0)), None, Some(Num(3.0)), None];
    assert x[1..] == [Some(Num(2.0)), None, Some(Num(3.0)), None];
    assert x[2..] == [None, Some(Num(3.0)), None];
    assert x[3..] == [Some(Num(3.0)), None];
    assert x[4..] == [None];
    assert PresentReals(x) == [1.0, 2.0, 3.0];
    assert Sum([1.0, 2.0, 3.0]) == 6.0 by {
      assert [1.0, 2.0, 3.0][1..] == [2.0, 3.0];
      assert [2.0, 3.0][1..] == [3.0];
    }
    assert Mean([1.0, 2.0, 3.0]) == 2.0;
    var expected := [Some(Num(1.0)), Some(Num(2.0)), Some(Num(2.0)), Some(Num(3.0)), Some(Num(2.0))];
    assert FillMissing(x, Some(Num(2.0))) == expected;
  }

  /** No column of `f` is already an indicator of `col`. */
  predicate NoIndicatorsOf(f: Frame, col: ColName) {
    forall c :: c in f.columns ==> !(c.Dummy? && c.prefix == col)
  }

  /**
   The levels `get_dummies(drop_first=True)` makes an indicator for: every
   present value of the column except the least.
   */
  function EncodedLevels(x: seq<Value>): (ls: seq<Cell>)
    ensures Distinct(ls)
    ensures forall v :: v in ls <==> Some(v) in x && !IsLeast(v, x)
  {
    var all := Levels(x);
    if |all| == 0 then []
    else
      SortedDistinct(all);
      LevelsLeast(x);
      all[1..]
  }

  /** The indicators come in the sorted order of their levels, after the dropped least one. */
  lemma EncodedLevelsSorted(x: seq<Value>)
    ensures StrictlySorted(EncodedLevels(x))
    ensures |Levels(x)| > 0 ==> EncodedLevels(x) == Levels(x)[1..]
  {
  }

  /** Among the present values, the least is the first level. */
  lemma LevelsLeast(x: seq<Value>)
    requires |Levels(x)| > 0
    ensures forall v :: Some(v) in x ==> (IsLeast(v, x) <==> v == Levels(x)[0])
  {
    forall v | Some(v) in x ensures IsLeast(v, x) <==> v == Levels(x)[0] {
      var i :| 0 <= i < |x| && x[i] == Some(v);
      LeastIsFirstLevel(x, i);
    }
  }

  /** A column holding one value in every row gets no indicator column: its only level is the dropped one. */
  lemma ConstantColumnNoLevels(x: seq<Value>, v: Cell)
    requires forall i :: 0 <= i < |x| ==> x[i] == Some(v)
    ensures EncodedLevels(x) == []
  {
    var ls := EncodedLevels(x);
    assert IsLeast(v, x);
    assert forall l :: l !in ls;
    NoMemberIsEmpty(ls);
  }

  /** The names of the indicator columns of `col`, one per level, in level order. */
  function IndicatorNames(col: ColName, ls: seq<Cell>): (names: seq<ColName>)
    requires Distinct(ls)
    ensures |names| == |ls| && Distinct(names)
    ensures forall c :: c in names <==> c.Dummy? && c.prefix == col && c.level in ls
  {
    var names := seq(|ls|, k requires 0 <= k < |ls| => Dummy(col, ls[k]));
    DistinctPairwise(ls);
    DistinctPairwise(names);
    assert forall c :: c in names <==> c.Dummy? && c.prefix == col && c.level in ls by {
      forall c ensures c in names <==> c.Dummy? && c.prefix == col && c.level in ls {
        if c.Dummy? && c.prefix == col && c.level in ls {
          var k :| 0 <= k < |ls| && ls[k] == c.level;
          assert names[k] == c;
        }
      }
    }
    names
  }

  /** The indicator columns for levels `ls` of column `col`, whose values are `x`. */
  function IndicatorFrame(col: ColName, ls: seq<Cell>, x: seq<Value>): (d: Frame)
    requires Distinct(ls)
    ensures WellFormed(d) && d.columns == IndicatorNames(col, ls) && |d.rows| == |x|
    ensures forall i, l :: 0 <= i < |x| && l in ls ==>
      Dummy(col, l) in d.rows[i] && d.rows[i][Dummy(col, l)] == Some(Bool(x[i] == Some(l)))
  {
    var names := IndicatorNames(col, ls);
    Frame(names, seq(|x|, i requires 0 <= i < |x| => map c | c in names :: Some(Bool(x[i] == Some(c.level)))))
  }

  /**
   `create_dummy_cols(df, col)`: `get_dummies(df[col], prefix=col,
   drop_first=True)` appended to `df`, then `col` dropped.
   */
  function CreateDummyCols(f: Frame, col: ColName): (g: Frame)
    requires WellFormed(f) && col in f.columns && NoIndicatorsOf(f, col)
    ensures WellFormed(g) && |g.rows| == |f.rows|
    ensures g.columns == Filter(f.columns, NotIn({col})) + IndicatorNames(col, EncodedLevels(Col(f, col)))
    ensures forall i, c :: 0 <= i < |g.rows| && c in f.columns && c != col ==> g.rows[i][c] == f.rows[i][c]
    ensures forall i, l :: 0 <= i < |g.rows| && l in EncodedLevels(Col(f, col)) ==>
      Dummy(col, l) in g.rows[i] && g.rows[i][Dummy(col, l)] == Some(Bool(f.rows[i][col] == Some(l)))
  {
    var kept := DropColumns(f, {col});
    var x := Col(f, col);
    var dummies := IndicatorFrame(col, EncodedLevels(x), x);
    assert ColumnSet(kept) !! ColumnSet(dummies);
    ConcatCols(kept, dummies)
  }

  /** In every row at most one indicator of `col` is set. */
  lemma DummyAtMostOne(f: Frame, col: ColName, i: nat)
    requires WellFormed(f) && col in f.columns && NoIndicatorsOf(f, col) && i < |f.rows|
    ensures var g := CreateDummyCols(f, col); var ls := EncodedLevels(Col(f, col));
      forall l1, l2 ::
        (l1 in ls && l2 in ls && g.rows[i][Dummy(col, l1)] == Some(Bool(true))
         && g.rows[i][Dummy(col, l2)] == Some(Bool(true))) ==> l1 == l2
  {
  }

  /**
   No indicator of `col` is set in a row exactly when the row holds nothing
   or the least value of the column, the level `drop_first` leaves out.
   */
  lemma DummyNoneSet(f: Frame, col: ColName, i: nat)
    requires WellFormed(f) && col in f.columns && NoIndicatorsOf(f, col) && i < |f.rows|
    ensures var g := CreateDummyCols(f, col); var ls := EncodedLevels(Col(f, col));
      (forall l :: l in ls ==> g.rows[i][Dummy(col, l)] == Some(Bool(false)))
      <==> (f.rows[i][col].None? || IsLeast(f.rows[i][col].value, Col(f, col)))
  {
    var g := CreateDummyCols(f, col);
    var x := Col(f, col);
    var ls := EncodedLevels(x);
    var v := f.rows[i][col];
    assert x[i] == v;
    if v.Some? {
      assert Some(v.value) in x;
      if !IsLeast(v.value, x) {
        assert v.value in ls;
        assert g.rows[i][Dummy(col, v.value)] == Some(Bool(true));
      }
    }
  }

  /** A present value is the least of its column exactly when it is the first level. */
  lemma LeastIsFirstLevel(x: seq<Value>, i: nat)
    requires i < |x| && x[i].Some?
    ensures |Levels(x)| > 0
    ensures IsLeast(x[i].value, x) <==> x[i].value == Levels(x)[0]
  {
    var v := x[i].value;
    assert Some(v) in x;
    var l0 := Levels(x)[0];
    FirstLevelIsLeast(x);
    CellLessIsStrictTotalOrder();
    if v != l0 {
      assert Some(l0) in x;
      var k :| 0 <= k < |x| && x[k] == Some(l0);
      assert CellLess(l0, v);
    } else {
      forall k | 0 <= k < |x| && x[k].Some? && x[k].value != v ensures CellLess(v, x[k].value) {
        assert Some(x[k].value) in x;
      }
    }
  }

  /** `v` is less than every other present value of the column. */
  predicate IsLeast(v: Cell, x: seq<Value>) {
    forall k :: 0 <= k < |x| && x[k].Some? && x[k].value != v ==> CellLess(v, x[k].value)
  }

  /**
   The dummy-encoding example of tests/test_utilities.py: a frame with columns
   ID and Color, Color holding Red, Blue, Red, gets a single indicator
   Color_Red (Blue, the least level, is dropped), set in rows 0 and 2.
   */
  lemma DummyColsExample(f: Frame)
    requires WellFormed(f) && f.columns == [Name("ID"), Name("Color")]
    requires Col(f, Name("Color")) == [Some(Str("Red")), Some(Str("Blue")), Some(Str("Red"))]
    ensures var g := CreateDummyCols(f, Name("Color"));
      && g.columns == [Name("ID"), Dummy(Name("Color"), Str("Red"))]
      && g.rows[0][Dummy(Name("Color"), Str("Red"))] == Some(Bool(true))
      && g.rows[1][Dummy(Name("Color"), Str("Red"))] == Some(Bool(false))
      && g.rows[2][Dummy(Name("Color"), Str("Red"))] == Some(Bool(true))
  {
    ColorLevels(Col(f, Name("Color")));
    ColorColumns(f);
    ColorIndicators(f);
  }

  lemma ColorColumns(f: Frame)
    requires WellFormed(f) && f.columns == [Name("ID"), Name("Color")]
    requires EncodedLevels(Col(f, Name("Color"))) == [Str("Red")]
    ensures CreateDummyCols(f, Name("Color")).columns == [Name("ID"), Dummy(Name("Color"), Str("Red"))]
  {
    ColorDropped();
    RedIndicator();
  }

  lemma ColorDropped()
    ensures Filter([Name("ID"), Name("Color")], NotIn({Name("Color")})) == [Name("ID")]
  {
    var color := Name("Color");
    assert [Name("ID"), color][1..] == [color];
    assert Filter([color], NotIn({color})) == [];
  }

  lemma RedIndicator()
    ensures IndicatorNames(Name("Color"), [Str("Red")]) == [Dummy(Name("Color"), Str("Red"))]
  {
    var names := IndicatorNames(Name("Color"), [Str("Red")]);
    assert names[0] in names;
  }

  lemma ColorIndicators(f: Frame)
    requires WellFormed(f) && f.columns == [Name("ID"), Name("Color")]
    requires Col(f, Name("Color")) == [Some(Str("Red")), Some(Str("Blue")), Some(Str("Red"))]
    requires EncodedLevels(Col(f, Name("Color"))) == [Str("Red")]
    ensures var g := CreateDummyCols(f, Name("Color"));
      && g.rows[0][Dummy(Name("Color"), Str("Red"))] == Some(Bool(true))
      && g.rows[1][Dummy(Name("Color"), Str("Red"))] == Some(Bool(false))
      && g.rows[2][Dummy(Name("Color"), Str("Red"))] == Some(Bool(true))
  {
    var x := Col(f, Name("Color"));
    assert Str("Red") in EncodedLevels(x);
    assert x[0] == f.rows[0][Name("Color")] && x[1] == f.rows[1][Name("Color")] && x[2] == f.rows[2][Name("Color")];
  }

  lemma ColorLevels(x: seq<Value>)
    requires x == [Some(Str("Red")), Some(Str("Blue")), Some(Str("Red"))]
    ensures EncodedLevels(x) == [Str("Red")]
  {
    assert StrLess("Blue", "Red");
    assert x[1..] == [Some(Str("Blue")), Some(Str("Red"))];
    assert x[2..] == [Some(Str("Red"))];
    assert Levels(x[2..]) == [Str("Red")];
    assert Levels(x[1..]) == [Str("Blue"), Str("Red")];
    assert !StrLess("Red", "Blue");
    assert [Str("Blue"), Str("Red")][1..] == [Str("Red")];
    assert InsertLevel(Str("Red"), [Str("Red")]) == [Str("Red")];
    assert Levels(x) == [Str("Blue"), Str("Red")];
  }

  /** The row pandas' `describe_numeric_col` returns. */
  datatype Summary = Summary(count: nat, missing: nat, mean: Option<real>, min: Option<real>, max: Option<real>)

  /**
   `describe_numeric_col(x)`: Count is the number of present entries; Missing
   is `isnull().count()`, the length of the column; Mean, Min and Max are NaN
   when nothing is present.
   */
  function DescribeNumericCol(x: seq<Value>): (s: Summary)
    requires NumericValues(x)
    ensures s.count == |x| - NullCount(x) && s.missing == |x|
    ensures s.count == 0 ==> s.mean.None? && s.min.None? && s.max.None?
    ensures s.count > 0 ==> s.mean.Some? && s.min.Some? && s.max.Some?
    ensures s.count > 0 ==> s.min.value <= s.mean.value <= s.max.value
    ensures s.count > 0 ==> var xs := PresentReals(x);
      |xs| > 0 && s.mean == Some(Mean(xs)) && s.min == Some(Min(xs)) && s.max == Some(Max(xs))
  {
    PresentRealsCount(x);
    var xs := PresentReals(x);
    if |xs| == 0 then Summary(0, |x|, None, None, None)
    else
      MeanBounds(xs);
      Summary(|xs|, |x|, Some(Mean(xs)), Some(Min(xs)), Some(Max(xs)))
  }

  /** As written, Missing counts the missing entries only when every entry is missing. */
  lemma DescribeMissingIsLength(x: seq<Value>)
    requires NumericValues(x)
    ensures DescribeNumericCol(x).missing == NullCount(x) <==> DescribeNumericCol(x).count == 0
    ensures DescribeNumericCol([Some(Num(1.0)), None]).missing == 2
    ensures NullCount([Some(Num(1.0)), None]) == 1
  {
    assert [Some(Num(1.0)), None][1..] == [None];
  }

  /** `describe_numeric_col` with Missing as `isnull().sum()`, the number of missing entries. */
  function DescribeNumericColCorrected(x: seq<Value>): (s: Summary)
    requires NumericValues(x)
    ensures s.count + s.missing == |x|
    ensures s.count == |PresentCells(x)|
    ensures s.count == 0 ==> s.mean.None? && s.min.None? && s.max.None?
    ensures s.count > 0 ==> s.mean.Some? && s.min.Some? && s.max.Some?
    ensures s.count > 0 ==> s.min.value <= s.mean.value <= s.max.value
    ensures s.count > 0 ==> var xs := PresentReals(x);
      |xs| > 0 && s.mean == Some(Mean(xs)) && s.min == Some(Min(xs)) && s.max == Some(Max(xs))
  {
    var d := DescribeNumericCol(x);
    d.(missing := NullCount(x))
  }
}
