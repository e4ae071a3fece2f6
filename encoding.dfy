/**
 The encoding stage: `split_training_data` of itu_sdse_project/dataset.py and
 its copy, `main` of itu_sdse_project/features.py.  It drops lead_id,
 customer_code and date_part, replaces the four categorical columns by their
 drop-first indicator columns, casts every column to float64 and splits the
 result into the label lead_indicator and the feature table.

 `Encode` is the whole stage as one function of the cleaned table; the method
 in module Dataset computes it step by step.
 */
module Encoding {
  import opened Frames
  import opened Stats
  import opened Helpers
  import opened Cleaning

  /** The three columns the stage drops first. */
  const EncodeDropped: set<ColName> := {LeadId, CustomerCode, DatePart}

  /** The columns that are dummy-encoded, in loop order. */
  const CatCols: seq<ColName> := [CustomerGroup, Onboarding, BinSource, Source]

  /** A table read from CSV: every column name is a plain string. */
  predicate NamesOnly(f: Frame) {
    forall c :: c in f.columns ==> c.Name?
  }

  /** The indicator columns of the columns `cs` of `f`, column by column. */
  function DummyNames(f: Frame, cs: seq<ColName>): (names: seq<ColName>)
    requires WellFormed(f) && forall c :: c in cs ==> c in f.columns
    ensures forall n :: n in names ==> n.Dummy? && n.prefix in cs
  {
    if cs == [] then []
    else
      var init, last := cs[..|cs| - 1], cs[|cs| - 1];
      DummyNames(f, init) + IndicatorNames(last, EncodedLevels(Col(f, last)))
  }

  /** The indicator columns are those of the levels each column encodes. */
  lemma {:induction false} DummyNamesMembers(f: Frame, cs: seq<ColName>)
    requires WellFormed(f) && forall c :: c in cs ==> c in f.columns
    ensures forall n :: n in DummyNames(f, cs) <==>
      n.Dummy? && n.prefix in cs && n.level in EncodedLevels(Col(f, n.prefix))
  {
    if cs != [] {
      var init, last := cs[..|cs| - 1], cs[|cs| - 1];
      assert cs == init + [last];
      DummyNamesMembers(f, init);
    }
  }

  /**
   `g` is what the loop makes of `f` after the turns for `cs`: the other
   columns of `f`, untouched and in order, then the indicator columns of
   each of `cs`.
   */
  predicate EncodedAs(f: Frame, cs: seq<ColName>, g: Frame)
    requires WellFormed(f) && forall c :: c in cs ==> c in f.columns
  {
    && WellFormed(g) && |g.rows| == |f.rows|
    && g.columns == Filter(f.columns, NotAmong(cs)) + DummyNames(f, cs)
    && (forall i, c :: 0 <= i < |g.rows| && c in f.columns && c !in cs ==> g.rows[i][c] == f.rows[i][c])
    && (forall i, c :: 0 <= i < |g.rows| && c in DummyNames(f, cs) ==>
          c in g.rows[i] && g.rows[i][c] == Some(Bool(f.rows[i][c.prefix] == Some(c.level))))
  }

  /**
   The loop over the categorical columns: each in turn is replaced by its
   indicator columns with `create_dummy_cols`.
   */
  function DummyEncode(f: Frame, cs: seq<ColName>): (g: Frame)
    requires WellFormed(f) && NamesOnly(f) && Distinct(cs) && forall c :: c in cs ==> c in f.columns
    ensures EncodedAs(f, cs, g)
  {
    if cs == [] then
      FilterAll(f.columns, NotAmong(cs));
      f
    else
      var init, last := cs[..|cs| - 1], cs[|cs| - 1];
      assert cs == init + [last];
      assert last !in init && Distinct(init) by {
        DistinctSnoc(init, last);
      }
      var h := DummyEncode(f, init);
      EncodeStep(f, init, last, h);
      StepColumns(f, init, last, h);
      StepValues(f, init, last, h);
      CreateDummyCols(h, last)
  }

  /**
   Before turn `k` of the loop over `cols`, the turns so far are well defined
   and the column of turn `k` is still there, with no indicators yet.
   */
  lemma DummyEncodeNext(f: Frame, cols: seq<ColName>, k: nat)
    requires WellFormed(f) && NamesOnly(f) && Distinct(cols) && forall c :: c in cols ==> c in f.columns
    requires k < |cols|
    ensures cols[..k + 1] == cols[..k] + [cols[k]]
    ensures Distinct(cols[..k]) && Distinct(cols[..k + 1]) && cols[k] !in cols[..k]
    ensures forall c :: c in cols[..k + 1] ==> c in f.columns
    ensures var h := DummyEncode(f, cols[..k]); cols[k] in h.columns && NoIndicatorsOf(h, cols[k])
  {
    DistinctPrefix(cols, k);
    DistinctPrefix(cols, k + 1);
    assert cols[..k] + [cols[k]] == cols[..k + 1];
    DistinctSnoc(cols[..k], cols[k]);
    EncodeStep(f, cols[..k], cols[k], DummyEncode(f, cols[..k]));
  }

  /** Turn `last` of the loop is `create_dummy_cols` on what the turns before it made. */
  lemma DummyEncodeSnoc(f: Frame, init: seq<ColName>, last: ColName)
    requires WellFormed(f) && NamesOnly(f) && Distinct(init) && Distinct(init + [last])
    requires forall c :: c in init + [last] ==> c in f.columns
    requires var h := DummyEncode(f, init); last in h.columns && NoIndicatorsOf(h, last)
    ensures DummyEncode(f, init + [last]) == CreateDummyCols(DummyEncode(f, init), last)
  {
    var cs := init + [last];
    assert cs[..|cs| - 1] == init && cs[|cs| - 1] == last;
  }

  lemma {:induction false} DistinctSnoc(init: seq<ColName>, last: ColName)
    requires Distinct(init + [last])
    ensures Distinct(init) && last !in init
  {
    if init != [] {
      assert (init + [last])[1..] == init[1..] + [last];
      DistinctSnoc(init[1..], last);
    }
  }

  /** Before the turn for `last`, the column is untouched and has no indicators yet. */
  lemma EncodeStep(f: Frame, init: seq<ColName>, last: ColName, h: Frame)
    requires WellFormed(f) && NamesOnly(f) && last !in init
    requires last in f.columns && forall c :: c in init ==> c in f.columns
    requires EncodedAs(f, init, h)
    ensures last in h.columns && NoIndicatorsOf(h, last) && Col(h, last) == Col(f, last)
  {
    assert last in Filter(f.columns, NotAmong(init));
  }

  lemma DummyNamesSnoc(f: Frame, init: seq<ColName>, last: ColName)
    requires WellFormed(f) && last in f.columns && forall c :: c in init ==> c in f.columns
    ensures DummyNames(f, init + [last]) == DummyNames(f, init) + IndicatorNames(last, EncodedLevels(Col(f, last)))
  {
    var cs := init + [last];
    assert cs[..|cs| - 1] == init && cs[|cs| - 1] == last;
  }

  /** The columns after the turn for `last`. */
  lemma StepColumns(f: Frame, init: seq<ColName>, last: ColName, h: Frame)
    requires WellFormed(f) && NamesOnly(f) && last !in init
    requires last in f.columns && forall c :: c in init ==> c in f.columns
    requires WellFormed(h) && h.columns == Filter(f.columns, NotAmong(init)) + DummyNames(f, init)
    requires last in h.columns && NoIndicatorsOf(h, last) && Col(h, last) == Col(f, last)
    ensures CreateDummyCols(h, last).columns
         == Filter(f.columns, NotAmong(init + [last])) + DummyNames(f, init + [last])
  {
    DummyNamesSnoc(f, init, last);
    DropAfterDummies(f.columns, init, last, DummyNames(f, init), IndicatorNames(last, EncodedLevels(Col(f, last))),
      h.columns, CreateDummyCols(h, last).columns);
  }

  /**
   Dropping `last` after the indicators `dn` of `init` were appended, then
   appending the indicators `ind` of `last`.
   */
  lemma DropAfterDummies(cols: seq<ColName>, init: seq<ColName>, last: ColName, dn: seq<ColName>, ind: seq<ColName>,
                         hcols: seq<ColName>, gcols: seq<ColName>)
    requires last.Name? && forall n :: n in dn ==> n.Dummy?
    requires hcols == Filter(cols, NotAmong(init)) + dn
    requires gcols == Filter(hcols, NotIn({last})) + ind
    ensures gcols == Filter(cols, NotAmong(init + [last])) + (dn + ind)
  {
    var rest := Filter(cols, NotAmong(init + [last]));
    DropLast(cols, init, last, dn);
    assert (rest + dn) + ind == rest + (dn + ind);
  }

  lemma DropLast(cols: seq<ColName>, init: seq<ColName>, last: ColName, dn: seq<ColName>)
    requires last.Name? && forall n :: n in dn ==> n.Dummy?
    ensures Filter(Filter(cols, NotAmong(init)) + dn, NotIn({last})) == Filter(cols, NotAmong(init + [last])) + dn
  {
    FilterAppend(Filter(cols, NotAmong(init)), dn, NotIn({last}));
    NoneIsLast(dn, last);
    FilterFilter(cols, NotAmong(init), NotIn({last}));
    FilterSame(cols, Both(NotAmong(init), NotIn({last})), NotAmong(init + [last]));
  }

  lemma NoneIsLast(dn: seq<ColName>, last: ColName)
    requires last.Name? && forall n :: n in dn ==> n.Dummy?
    ensures Filter(dn, NotIn({last})) == dn
  {
    forall i | 0 <= i < |dn| ensures NotIn({last})(dn[i]) {
      assert dn[i] in dn;
    }
    FilterAll(dn, NotIn({last}));
  }

  /** The turn for `last` keeps the contract of the loop. */
  lemma StepValues(f: Frame, init: seq<ColName>, last: ColName, h: Frame)
    requires WellFormed(f) && NamesOnly(f) && last !in init
    requires last in f.columns && forall c :: c in init ==> c in f.columns
    requires EncodedAs(f, init, h) && last in h.columns && NoIndicatorsOf(h, last) && Col(h, last) == Col(f, last)
    requires CreateDummyCols(h, last).columns
         == Filter(f.columns, NotAmong(init + [last])) + DummyNames(f, init + [last])
    ensures EncodedAs(f, init + [last], CreateDummyCols(h, last))
  {
    StepKept(f, init, last, h);
    StepDummies(f, init, last, h);
  }

  lemma StepKept(f: Frame, init: seq<ColName>, last: ColName, h: Frame)
    requires WellFormed(f) && NamesOnly(f) && last !in init
    requires last in f.columns && forall c :: c in init ==> c in f.columns
    requires EncodedAs(f, init, h) && last in h.columns && NoIndicatorsOf(h, last)
    ensures var g := CreateDummyCols(h, last);
      forall i, c :: 0 <= i < |g.rows| && c in f.columns && c !in init + [last] ==>
        c in g.rows[i] && g.rows[i][c] == f.rows[i][c]
  {
    var g := CreateDummyCols(h, last);
    forall i, c | 0 <= i < |g.rows| && c in f.columns && c !in init + [last]
      ensures c in g.rows[i] && g.rows[i][c] == f.rows[i][c]
    {
      assert c in Filter(f.columns, NotAmong(init));
      assert c in h.columns && c != last;
      assert h.rows[i][c] == f.rows[i][c];
    }
  }

  lemma StepDummies(f: Frame, init: seq<ColName>, last: ColName, h: Frame)
    requires WellFormed(f) && NamesOnly(f) && last !in init
    requires last in f.columns && forall c :: c in init ==> c in f.columns
    requires EncodedAs(f, init, h) && last in h.columns && NoIndicatorsOf(h, last) && Col(h, last) == Col(f, last)
    ensures var g := CreateDummyCols(h, last);
      forall i, c :: 0 <= i < |g.rows| && c in DummyNames(f, init + [last]) ==>
        c in g.rows[i] && g.rows[i][c] == Some(Bool(f.rows[i][c.prefix] == Some(c.level)))
  {
    var g := CreateDummyCols(h, last);
    DummyNamesSnoc(f, init, last);
    forall i, c | 0 <= i < |g.rows| && c in DummyNames(f, init + [last])
      ensures c in g.rows[i] && g.rows[i][c] == Some(Bool(f.rows[i][c.prefix] == Some(c.level)))
    {
      if c.prefix == last {
        assert c in IndicatorNames(last, EncodedLevels(Col(f, last)));
        assert Col(h, last)[i] == h.rows[i][last];
        assert Col(f, last)[i] == f.rows[i][last];
      } else {
        assert c in DummyNames(f, init);
        assert c in h.columns && c != last;
      }
    }
  }

  // ---------------------------------------------------------------------
  // The cast to float64

  /**
   `astype("float64")` of one cell: a number stays, a boolean becomes 1.0 or
   0.0, a string is parsed by `parse` (Python's `float`), which may fail.
   */
  function CastCell(v: Value, parse: string -> Option<real>): (r: Result<Value>)
    ensures r.Err? <==> v.Some? && v.value.Str? && parse(v.value.s).None?
    ensures r.Err? ==> r.error == NotFloat
    ensures r.Ok? ==> (r.value.None? <==> v.None?) && (r.value.Some? ==> r.value.value.Num?)
    ensures v.Some? && v.value.Num? ==> r == Ok(v)
    ensures v.Some? && v.value.Bool? ==> r == Ok(Some(Num(if v.value.b then 1.0 else 0.0)))
  {
    match v
    case None => Ok(None)
    case Some(Num(_)) => Ok(v)
    case Some(Bool(b)) => Ok(Some(Num(if b then 1.0 else 0.0)))
    case Some(Str(s)) => if parse(s).Some? then Ok(Some(Num(parse(s).value))) else Err(NotFloat)
  }

  /** Casting a cast cell again changes nothing. */
  lemma CastIdempotent(v: Value, parse: string -> Option<real>)
    requires CastCell(v, parse).Ok?
    ensures CastCell(CastCell(v, parse).value, parse) == CastCell(v, parse)
  {
  }

  /** `data[col].astype("float64")`: fails when any cell fails. */
  function CastColumn(x: seq<Value>, parse: string -> Option<real>): (r: Result<seq<Value>>)
    ensures r.Err? <==> exists i :: 0 <= i < |x| && CastCell(x[i], parse).Err?
    ensures r.Err? ==> r.error == NotFloat
    ensures r.Ok? ==> |r.value| == |x| && forall i :: 0 <= i < |x| ==> r.value[i] == CastCell(x[i], parse).value
  {
    if exists i :: 0 <= i < |x| && CastCell(x[i], parse).Err? then Err(NotFloat)
    else Ok(seq(|x|, i requires 0 <= i < |x| => CastCell(x[i], parse).value))
  }

  /** Every cell of the frame cast to float64, column by column. */
  function CastFrame(f: Frame, parse: string -> Option<real>): (r: Result<Frame>)
    requires WellFormed(f)
    ensures r.Err? <==> exists i, c :: 0 <= i < |f.rows| && c in f.columns && CastCell(f.rows[i][c], parse).Err?
    ensures r.Err? ==> r.error == NotFloat
    ensures r.Ok? ==> WellFormed(r.value) && r.value.columns == f.columns && |r.value.rows| == |f.rows|
    ensures r.Ok? ==> forall i, c :: 0 <= i < |f.rows| && c in f.columns ==>
      r.value.rows[i][c] == CastCell(f.rows[i][c], parse).value
  {
    if exists i, c :: 0 <= i < |f.rows| && c in f.columns && CastCell(f.rows[i][c], parse).Err? then Err(NotFloat)
    else
      assert forall c :: c in f.columns ==> CastColumn(Col(f, c), parse).Ok? by {
        forall c | c in f.columns ensures CastColumn(Col(f, c), parse).Ok? {
          assert forall i :: 0 <= i < |f.rows| ==> Col(f, c)[i] == f.rows[i][c];
        }
      }
      Ok(WithColumns(f, map c | c in ColumnSet(f) :: CastColumn(Col(f, c), parse).value))
  }

  /** A frame whose every cell is the cast of the same cell of `f` is the cast of `f`. */
  lemma CastFrameOk(f: Frame, g: Frame, parse: string -> Option<real>)
    requires WellFormed(f) && WellFormed(g) && g.columns == f.columns && |g.rows| == |f.rows|
    requires forall i, j :: 0 <= i < |f.rows| && 0 <= j < |f.columns| ==>
      f.columns[j] in g.rows[i] && CastCell(f.rows[i][f.columns[j]], parse) == Ok(g.rows[i][f.columns[j]])
    ensures CastFrame(f, parse) == Ok(g)
  {
    forall i, c | 0 <= i < |f.rows| && c in f.columns
      ensures CastCell(f.rows[i][c], parse) == Ok(g.rows[i][c])
    {
      var j :| 0 <= j < |f.columns| && f.columns[j] == c;
    }
    FrameExt(g, CastFrame(f, parse).value);
  }

  // ---------------------------------------------------------------------
  // The whole stage

  /** The four categorical columns, as a set. */
  const CatSet: set<ColName> := {CustomerGroup, Onboarding, BinSource, Source}

  /** The feature table and the labels. */
  datatype Split = Split(x: Frame, y: seq<Value>)

  /** The columns the stage names before the cast: pandas raises KeyError when one is absent. */
  predicate Named(f: Frame) {
    EncodeDropped <= ColumnSet(f) && CatSet <= ColumnSet(f)
  }

  /** `data[cat_cols]` after the drop. */
  function CatVars(f: Frame): (g: Frame)
    requires WellFormed(f) && Named(f)
    ensures WellFormed(g) && g.columns == CatCols && |g.rows| == |f.rows| && NamesOnly(g)
    ensures forall i, c :: 0 <= i < |g.rows| && c in CatCols ==> g.rows[i][c] == f.rows[i][c]
  {
    CatColsDistinct();
    Select(DropColumns(f, EncodeDropped), CatCols)
  }

  lemma CatColsDistinct()
    ensures Distinct(CatCols)
  {
    DistinctPairwise(CatCols);
  }

  /** `data.drop(cat_cols, axis=1)` after the first drop. */
  function OtherVars(f: Frame): (g: Frame)
    requires WellFormed(f)
    ensures WellFormed(g) && g.columns == Filter(Filter(f.columns, NotIn(EncodeDropped)), NotIn(CatSet))
    ensures |g.rows| == |f.rows|
    ensures forall i, c :: 0 <= i < |g.rows| && c in g.columns ==> g.rows[i][c] == f.rows[i][c]
  {
    DropColumns(DropColumns(f, EncodeDropped), CatSet)
  }

  /** `pd.concat([other_vars, cat_vars], axis=1)` after the dummy loop. */
  function Joined(f: Frame): (g: Frame)
    requires WellFormed(f) && NamesOnly(f) && Named(f)
    ensures WellFormed(g) && |g.rows| == |f.rows|
    ensures g.columns == OtherVars(f).columns + DummyNames(CatVars(f), CatCols)
  {
    var other, cat := OtherVars(f), DummyEncode(CatVars(f), CatCols);
    JoinedParts(f);
    ConcatCols(other, cat)
  }

  /** The dummy loop leaves only indicator columns, none of which is an other column. */
  lemma JoinedParts(f: Frame)
    requires WellFormed(f) && NamesOnly(f) && Named(f)
    ensures DummyEncode(CatVars(f), CatCols).columns == DummyNames(CatVars(f), CatCols)
    ensures ColumnSet(OtherVars(f)) !! ColumnSet(DummyEncode(CatVars(f), CatCols))
  {
    var other, cat := OtherVars(f), DummyEncode(CatVars(f), CatCols);
    FilterNone(CatCols, CatCols);
    assert cat.columns == [] + DummyNames(CatVars(f), CatCols);
    forall c | c in cat.columns ensures c !in other.columns {
      assert c.Dummy?;
    }
  }

  lemma {:induction false} FilterNone(s: seq<ColName>, cs: seq<ColName>)
    requires forall x :: x in s ==> x in cs
    ensures Filter(s, NotAmong(cs)) == []
  {
    if s != [] {
      assert s[0] in cs;
      FilterNone(s[1..], cs);
    }
  }

  /**
   `split_training_data`: from the cleaned table to the feature table X and
   the labels y, or the error pandas raises.
   */
  function Encode(f: Frame, parse: string -> Option<real>): (r: Result<Split>)
    requires WellFormed(f) && NamesOnly(f)
    ensures r.Err? ==> r.error in {MissingColumn, NotFloat}
    ensures r.Ok? ==> WellFormed(r.value.x) && |r.value.x.rows| == |r.value.y| == |f.rows|
  {
    if !Named(f) then Err(MissingColumn) else CastAndSplit(Joined(f), parse)
  }

  /** The cast loop, then `y = data["lead_indicator"]` and `X = data.drop(["lead_indicator"], axis=1)`. */
  function CastAndSplit(j: Frame, parse: string -> Option<real>): (r: Result<Split>)
    requires WellFormed(j)
    ensures r.Err? ==> r.error in {MissingColumn, NotFloat}
    ensures r.Ok? ==> WellFormed(r.value.x) && |r.value.x.rows| == |r.value.y| == |j.rows|
  {
    var cast := CastFrame(j, parse);
    if cast.Err? then Err(NotFloat)
    else if LeadIndicator !in cast.value.columns then Err(MissingColumn)
    else Ok(Split(DropColumns(cast.value, {LeadIndicator}), Col(cast.value, LeadIndicator)))
  }

  // ---------------------------------------------------------------------
  // Properties of the stage

  /** The raw columns that do not reach X as themselves. */
  const NonFeatures: set<ColName> := EncodeDropped + CatSet + {LeadIndicator}

  /** Every cell of the columns that are cast as they are can be cast. */
  predicate Castable(f: Frame, parse: string -> Option<real>)
    requires WellFormed(f)
  {
    forall i, c :: 0 <= i < |f.rows| && c in f.columns && c !in EncodeDropped && c !in CatSet ==>
      CastCell(f.rows[i][c], parse).Ok?
  }

  /** Selecting the categorical columns does not change their levels. */
  lemma CatVarsNames(f: Frame)
    requires WellFormed(f) && Named(f)
    ensures DummyNames(CatVars(f), CatCols) == DummyNames(f, CatCols)
  {
    var g := CatVars(f);
    forall c | c in CatCols ensures Col(g, c) == Col(f, c) {
      assert forall i :: 0 <= i < |f.rows| ==> Col(g, c)[i] == Col(f, c)[i];
    }
    SameDummyNames(g, f, CatCols);
  }

  lemma {:induction false} SameDummyNames(g: Frame, f: Frame, cs: seq<ColName>)
    requires WellFormed(g) && WellFormed(f)
    requires forall c :: c in cs ==> c in g.columns && c in f.columns && Col(g, c) == Col(f, c)
    ensures DummyNames(g, cs) == DummyNames(f, cs)
  {
    if cs != [] {
      SameDummyNames(g, f, cs[..|cs| - 1]);
    }
  }

  /** A cell of an other column passes the concat unchanged. */
  lemma JoinedOther(f: Frame, i: nat, c: ColName)
    requires WellFormed(f) && NamesOnly(f) && Named(f) && i < |f.rows|
    requires c in f.columns && c !in EncodeDropped && c !in CatSet
    ensures c in Joined(f).columns && Joined(f).rows[i][c] == f.rows[i][c]
  {
    JoinedParts(f);
    assert c in OtherVars(f).columns;
  }

  /** An indicator cell says whether the row holds the indicated level. */
  lemma JoinedDummy(f: Frame, i: nat, n: ColName)
    requires WellFormed(f) && NamesOnly(f) && Named(f) && i < |f.rows|
    requires n in DummyNames(f, CatCols)
    ensures n in Joined(f).columns && n.Dummy? && n.prefix in CatCols
    ensures Joined(f).rows[i][n] == Some(Bool(f.rows[i][n.prefix] == Some(n.level)))
  {
    JoinedParts(f);
    CatVarsNames(f);
    var cat := CatVars(f);
    assert cat.rows[i][n.prefix] == f.rows[i][n.prefix];
  }

  /** The columns of the joined table: the other columns, then the indicators. */
  lemma JoinedColumns(f: Frame)
    requires WellFormed(f) && NamesOnly(f) && Named(f)
    ensures forall c :: c in Joined(f).columns <==>
      (c in f.columns && c !in EncodeDropped && c !in CatSet) || c in DummyNames(f, CatCols)
  {
    CatVarsNames(f);
  }

  /**
   `j` is the table the stage builds from `f` before the cast: the other
   columns, unchanged, then the indicators `dn`, each a boolean that says
   whether the row holds the indicated level.
   */
  ghost predicate JoinedShape(f: Frame, j: Frame, dn: seq<ColName>)
    requires WellFormed(f) && Named(f)
  {
    && WellFormed(j) && |j.rows| == |f.rows|
    && (forall n :: n in dn ==> n.Dummy? && n.prefix in CatSet)
    && (forall c :: c in j.columns <==> (c in f.columns && c !in EncodeDropped && c !in CatSet) || c in dn)
    && (forall i, c :: 0 <= i < |j.rows| && c in f.columns && c !in EncodeDropped && c !in CatSet ==> j.rows[i][c] == f.rows[i][c])
    && (forall i, n :: 0 <= i < |j.rows| && n in dn ==> j.rows[i][n] == Some(Bool(f.rows[i][n.prefix] == Some(n.level))))
  }

  lemma JoinedIsShaped(f: Frame)
    requires WellFormed(f) && NamesOnly(f) && Named(f)
    ensures JoinedShape(f, Joined(f), DummyNames(f, CatCols))
  {
    JoinedColumns(f);
    JoinedOthers(f);
    JoinedDummies(f);
  }

  lemma JoinedOthers(f: Frame)
    requires WellFormed(f) && NamesOnly(f) && Named(f)
    ensures forall i, c :: 0 <= i < |f.rows| && c in f.columns && c !in EncodeDropped && c !in CatSet ==>
      c in Joined(f).rows[i] && Joined(f).rows[i][c] == f.rows[i][c]
  {
    forall i, c | 0 <= i < |f.rows| && c in f.columns && c !in EncodeDropped && c !in CatSet
      ensures c in Joined(f).rows[i] && Joined(f).rows[i][c] == f.rows[i][c]
    {
      JoinedOther(f, i, c);
    }
  }

  lemma JoinedDummies(f: Frame)
    requires WellFormed(f) && NamesOnly(f) && Named(f)
    ensures forall n :: n in DummyNames(f, CatCols) ==> n.Dummy? && n.prefix in CatSet
    ensures forall i, n :: 0 <= i < |f.rows| && n in DummyNames(f, CatCols) ==>
      n in Joined(f).rows[i] && Joined(f).rows[i][n] == Some(Bool(f.rows[i][n.prefix] == Some(n.level)))
  {
    forall i, n | 0 <= i < |f.rows| && n in DummyNames(f, CatCols)
      ensures n in Joined(f).rows[i] && Joined(f).rows[i][n] == Some(Bool(f.rows[i][n.prefix] == Some(n.level)))
    {
      JoinedDummy(f, i, n);
    }
  }

  /**
   The stage succeeds exactly when the seven named columns and lead_indicator
   are present and every cell outside the dropped and categorical columns
   casts to float; it fails with NotFloat exactly when the named columns are
   present and some such cell does not cast.
   */
  lemma EncodeOk(f: Frame, parse: string -> Option<real>)
    requires WellFormed(f) && NamesOnly(f)
    ensures Encode(f, parse).Ok? <==> Named(f) && LeadIndicator in f.columns && Castable(f, parse)
    ensures Encode(f, parse) == Err(NotFloat) <==> Named(f) && !Castable(f, parse)
  {
    if Named(f) {
      JoinedIsShaped(f);
      SplitOk(f, Joined(f), DummyNames(f, CatCols), parse);
    }
  }

  lemma SplitOk(f: Frame, j: Frame, dn: seq<ColName>, parse: string -> Option<real>)
    requires WellFormed(f) && Named(f) && JoinedShape(f, j, dn)
    ensures CastAndSplit(j, parse).Ok? <==> LeadIndicator in f.columns && Castable(f, parse)
    ensures CastAndSplit(j, parse) == Err(NotFloat) <==> !Castable(f, parse)
  {
    CastableShaped(f, j, dn, parse);
    CastAndSplitOk(j, parse);
    assert LeadIndicator in j.columns <==> LeadIndicator in f.columns by {
      assert LeadIndicator !in dn;
    }
  }

  /** The cast and split succeed when the cast does and lead_indicator is there; they fail with NotFloat exactly when the cast fails. */
  lemma CastAndSplitOk(j: Frame, parse: string -> Option<real>)
    requires WellFormed(j)
    ensures CastAndSplit(j, parse).Ok? <==> CastFrame(j, parse).Ok? && LeadIndicator in j.columns
    ensures CastAndSplit(j, parse) == Err(NotFloat) <==> CastFrame(j, parse).Err?
  {
  }

  /** The joined table casts exactly when the cells outside the dropped and categorical columns do. */
  lemma CastableShaped(f: Frame, j: Frame, dn: seq<ColName>, parse: string -> Option<real>)
    requires WellFormed(f) && Named(f) && JoinedShape(f, j, dn)
    ensures CastFrame(j, parse).Ok? <==> Castable(f, parse)
  {
    if Castable(f, parse) {
      forall i, c | 0 <= i < |j.rows| && c in j.columns ensures CastCell(j.rows[i][c], parse).Ok? {
        if c !in dn {
          assert j.rows[i][c] == f.rows[i][c];
        }
      }
    } else {
      var i, c :| 0 <= i < |f.rows| && c in f.columns && c !in EncodeDropped && c !in CatSet
        && CastCell(f.rows[i][c], parse).Err?;
      assert c in j.columns && j.rows[i][c] == f.rows[i][c];
    }
  }

  /** X holds the other columns in table order, then the indicator columns. */
  lemma EncodeColumns(f: Frame, parse: string -> Option<real>)
    requires WellFormed(f) && NamesOnly(f) && Encode(f, parse).Ok?
    ensures Encode(f, parse).value.x.columns == Filter(f.columns, NotIn(NonFeatures)) + DummyNames(f, CatCols)
  {
    var j := Joined(f);
    var dn := DummyNames(f, CatCols);
    CatVarsNames(f);
    var other := Filter(Filter(f.columns, NotIn(EncodeDropped)), NotIn(CatSet));
    SplitColumns(j.columns, other, dn);
    ThreeDrops(f.columns);
  }

  lemma SplitColumns(jcols: seq<ColName>, other: seq<ColName>, dn: seq<ColName>)
    requires jcols == other + dn && forall n :: n in dn ==> n.Dummy?
    ensures Filter(jcols, NotIn({LeadIndicator})) == Filter(other, NotIn({LeadIndicator})) + dn
  {
    FilterAppend(other, dn, NotIn({LeadIndicator}));
    NoneIsLast(dn, LeadIndicator);
  }

  lemma ThreeDrops(cols: seq<ColName>)
    ensures Filter(Filter(Filter(cols, NotIn(EncodeDropped)), NotIn(CatSet)), NotIn({LeadIndicator}))
         == Filter(cols, NotIn(NonFeatures))
  {
    FilterFilter(cols, NotIn(EncodeDropped), NotIn(CatSet));
    FilterFilter(cols, Both(NotIn(EncodeDropped), NotIn(CatSet)), NotIn({LeadIndicator}));
    FilterFilter(Filter(cols, NotIn(EncodeDropped)), NotIn(CatSet), NotIn({LeadIndicator}));
    FilterSame(cols, Both(Both(NotIn(EncodeDropped), NotIn(CatSet)), NotIn({LeadIndicator})), NotIn(NonFeatures));
  }

  /**
   Row `i` of X and y: an other column holds its cell cast to float, an
   indicator holds 1.0 when the row has the indicated level and 0.0 otherwise,
   and the label is lead_indicator cast to float.
   */
  lemma EncodeCells(f: Frame, parse: string -> Option<real>, i: nat)
    requires WellFormed(f) && NamesOnly(f) && Encode(f, parse).Ok? && i < |f.rows|
    ensures var s := Encode(f, parse).value;
      && (forall c :: c in f.columns && c !in NonFeatures ==>
            c in s.x.rows[i] && CastCell(f.rows[i][c], parse) == Ok(s.x.rows[i][c]))
      && (forall n :: n in DummyNames(f, CatCols) ==>
            n in s.x.rows[i] && n.prefix in f.rows[i]
            && s.x.rows[i][n] == Some(Num(if f.rows[i][n.prefix] == Some(n.level) then 1.0 else 0.0)))
      && LeadIndicator in f.rows[i] && CastCell(f.rows[i][LeadIndicator], parse) == Ok(s.y[i])
  {
    JoinedIsShaped(f);
    SplitCells(f, Joined(f), DummyNames(f, CatCols), parse, i);
  }

  lemma SplitCells(f: Frame, j: Frame, dn: seq<ColName>, parse: string -> Option<real>, i: nat)
    requires WellFormed(f) && Named(f) && JoinedShape(f, j, dn) && CastAndSplit(j, parse).Ok? && i < |f.rows|
    ensures var s := CastAndSplit(j, parse).value;
      && (forall c :: c in f.columns && c !in NonFeatures ==>
            c in s.x.rows[i] && CastCell(f.rows[i][c], parse) == Ok(s.x.rows[i][c]))
      && (forall n :: n in dn ==>
            n in s.x.rows[i] && n.prefix in f.rows[i]
            && s.x.rows[i][n] == Some(Num(if f.rows[i][n.prefix] == Some(n.level) then 1.0 else 0.0)))
      && LeadIndicator in f.rows[i] && CastCell(f.rows[i][LeadIndicator], parse) == Ok(s.y[i])
  {
    var cast := CastFrame(j, parse).value;
    assert LeadIndicator in f.columns by {
      assert LeadIndicator !in dn;
    }
    assert Col(cast, LeadIndicator)[i] == cast.rows[i][LeadIndicator];
    assert forall n :: n in dn ==> n != LeadIndicator;
  }

  /** Every cell of X and every label is a float or missing. */
  lemma EncodeNumeric(f: Frame, parse: string -> Option<real>)
    requires WellFormed(f) && NamesOnly(f) && Encode(f, parse).Ok?
    ensures var s := Encode(f, parse).value;
      && (forall i, c :: 0 <= i < |s.x.rows| && c in s.x.columns && s.x.rows[i][c].Some? ==> s.x.rows[i][c].value.Num?)
      && (forall i :: 0 <= i < |s.y| && s.y[i].Some? ==> s.y[i].value.Num?)
  {
    SplitNumeric(Joined(f), parse);
  }

  lemma SplitNumeric(j: Frame, parse: string -> Option<real>)
    requires WellFormed(j) && CastAndSplit(j, parse).Ok?
    ensures var s := CastAndSplit(j, parse).value;
      && (forall i, c :: 0 <= i < |s.x.rows| && c in s.x.columns && s.x.rows[i][c].Some? ==> s.x.rows[i][c].value.Num?)
      && (forall i :: 0 <= i < |s.y| && s.y[i].Some? ==> s.y[i].value.Num?)
  {
    var cast := CastFrame(j, parse).value;
    var s := CastAndSplit(j, parse).value;
    assert s.x == DropColumns(cast, {LeadIndicator}) && s.y == Col(cast, LeadIndicator);
    forall i | 0 <= i < |s.y| && s.y[i].Some? ensures s.y[i].value.Num? {
      assert s.y[i] == cast.rows[i][LeadIndicator];
    }
  }

  /** The cast keeps a present cell present. */
  lemma CastComplete(j: Frame, parse: string -> Option<real>)
    requires WellFormed(j) && CastFrame(j, parse).Ok? && Complete(j)
    ensures Complete(CastFrame(j, parse).value)
  {
    var cast := CastFrame(j, parse).value;
    forall i, c | 0 <= i < |cast.rows| && c in cast.columns ensures cast.rows[i][c].Some? {
      assert CastCell(j.rows[i][c], parse).Ok?;
    }
  }

  /** A complete table gives a complete X and y. */
  lemma SplitComplete(j: Frame, parse: string -> Option<real>)
    requires WellFormed(j) && CastAndSplit(j, parse).Ok? && Complete(j)
    ensures var s := CastAndSplit(j, parse).value;
      Complete(s.x) && forall i :: 0 <= i < |s.y| ==> s.y[i].Some?
  {
    CastComplete(j, parse);
    var cast := CastFrame(j, parse).value;
    var s := CastAndSplit(j, parse).value;
    assert s.x == DropColumns(cast, {LeadIndicator}) && s.y == Col(cast, LeadIndicator);
    forall i | 0 <= i < |s.y| ensures s.y[i].Some? {
      assert s.y[i] == cast.rows[i][LeadIndicator];
    }
  }

  /** The indicators are booleans, so the joined table of a complete table is complete. */
  lemma JoinedComplete(f: Frame)
    requires WellFormed(f) && NamesOnly(f) && Named(f) && Complete(f)
    ensures Complete(Joined(f))
  {
    JoinedIsShaped(f);
  }

  /** On a table without missing cells, X and y have no missing value. */
  lemma EncodeComplete(f: Frame, parse: string -> Option<real>)
    requires WellFormed(f) && NamesOnly(f) && Encode(f, parse).Ok? && Complete(f)
    ensures Complete(Encode(f, parse).value.x)
    ensures forall i :: 0 <= i < |Encode(f, parse).value.y| ==> Encode(f, parse).value.y[i].Some?
  {
    JoinedComplete(f);
    SplitComplete(Joined(f), parse);
  }
}
