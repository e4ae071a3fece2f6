/**
 The two commands of itu_sdse_project/dataset.py, step by step as the code
 runs them: `create_training_data` rebinds `data` through the drops, the
 replaces and the filters and sets the dtype of each of the six `Vars` in a
 loop; `split_training_data` rebinds `cat_vars` through `create_dummy_cols`
 in one loop and casts every column in another.  Each method computes
 exactly the function of module Cleaning or Encoding that states the stage.
 */
module Dataset {
  import opened Frames
  import opened Helpers
  import opened Cleaning
  import opened Encoding

  /**
   The dtype map after `date_part` becomes dates and the loop over `vars`
   casts each of them to object.
   */
  method ObjectTypes(ty: map<ColName, DType>) returns (t: map<ColName, DType>)
    requires DatePart in ty && forall c :: c in Vars ==> c in ty
    ensures t == CleanTypes(ty)
  {
    t := ty[DatePart := Object];
    for k := 0 to |Vars|
      invariant t.Keys == ty.Keys
      invariant forall c :: c in t ==> t[c] == if c == DatePart || c in Vars[..k] then Object else ty[c]
    {
      assert forall c :: c in Vars[..k + 1] <==> c in Vars[..k] || c == Vars[k] by {
        assert Vars[..k + 1] == Vars[..k] + [Vars[k]];
      }
      t := t[Vars[k] := Object];
    }
    assert Vars[..|Vars|] == Vars;
  }

  /**
   The two `drop` calls and the three in-place replaces of blank strings by
   NaN, in the order `create_training_data` runs them.
   */
  method DropAndUnblank(f: Frame) returns (data: Frame)
    requires WellFormed(f) && LeadIndicator in f.columns && LeadId in f.columns && CustomerCode in f.columns
    ensures data == Prepare(f)
  {
    data := DropColumns(f, FirstDrop);
    data := DropColumns(data, SecondDrop);
    PrepareSteps(f);
    data := UnblankColumn(data, LeadIndicator);
    data := UnblankColumn(data, LeadId);
    data := UnblankColumn(data, CustomerCode);
  }

  /** `create_training_data`, from the raw table to the cleaned one. */
  method CreateTrainingData(raw: Table, std: seq<real> -> real) returns (r: Result<Frame>)
    requires WellTyped(raw)
    ensures r == Clean(raw, std)
  {
    if !(RequiredColumns <= ColumnSet(raw.frame)) {
      return Err(MissingColumn);
    }
    var data := DropAndUnblank(raw.frame);
    data := FilterRows(data, HasLeadIndicator);
    data := FilterRows(data, HasLeadId);
    data := FilterRows(data, FromSignup);
    var ty := ObjectTypes(raw.dtype);

    var cont := SelectWhere(data, Continuous(ty));
    var cat := SelectWhere(data, Categorical(ty));
    cont := ClipContinuous(cont, std);
    cont := ImputeContinuous(cont, ty);
    VarIsCategorical(raw, CustomerCode);
    cat := FillCustomerCode(cat);
    FilledRows(data, Categorical(ty));
    var filled := ImputeCategorical(cat);
    if filled.Err? {
      return Err(filled.error);
    }
    var scaled := Scale(cont);
    if scaled.Err? {
      return Err(scaled.error);
    }
    DisjointParts(raw, std);
    data := ConcatCols(filled.value, scaled.value);
    r := Ok(AddBinSource(data));
  }

  /**
   The loop over the columns of `cat_vars`: each column in turn replaced by
   its indicators.  The loop runs over the names `cat_vars` had when it
   started, although the body rebinds `cat_vars`.
   */
  method EncodeCategorical(cat: Frame) returns (g: Frame)
    requires WellFormed(cat) && NamesOnly(cat)
    ensures g == DummyEncode(cat, cat.columns)
  {
    var cols := cat.columns;
    g := cat;
    for k := 0 to |cols|
      invariant Distinct(cols[..k]) && g == DummyEncode(cat, cols[..k])
    {
      DummyEncodeNext(cat, cols, k);
      DummyEncodeSnoc(cat, cols[..k], cols[k]);
      g := CreateDummyCols(g, cols[k]);
    }
    assert cols[..|cols|] == cols;
  }

  /** The loop that casts every column to float64, failing at the first column that cannot be cast. */
  method CastColumns(data: Frame, parse: string -> Option<real>) returns (r: Result<Frame>)
    requires WellFormed(data)
    ensures r == CastFrame(data, parse)
  {
    var cols, n := data.columns, |data.rows|;
    DistinctPairwise(cols);
    var cast := data;
    for k := 0 to |cols|
      invariant WellFormed(cast) && cast.columns == cols && |cast.rows| == n
      invariant forall i, j :: 0 <= i < n && 0 <= j < k ==>
        cols[j] in cast.rows[i] && CastCell(data.rows[i][cols[j]], parse) == Ok(cast.rows[i][cols[j]])
      invariant forall i, j :: 0 <= i < n && k <= j < |cols| ==>
        cols[j] in cast.rows[i] && cast.rows[i][cols[j]] == data.rows[i][cols[j]]
    {
      var column := CastColumn(Col(cast, cols[k]), parse);
      if column.Err? {
        var i :| 0 <= i < n && CastCell(Col(cast, cols[k])[i], parse).Err?;
        assert CastCell(data.rows[i][cols[k]], parse).Err?;
        return Err(NotFloat);
      }
      cast := SetCol(cast, cols[k], column.value);
    }
    CastFrameOk(data, cast, parse);
    r := Ok(cast);
  }

  /** `split_training_data`, from the cleaned table to X and y. */
  method SplitTrainingData(f: Frame, parse: string -> Option<real>) returns (r: Result<Split>)
    requires WellFormed(f) && NamesOnly(f)
    ensures r == Encode(f, parse)
  {
    if !Named(f) {
      return Err(MissingColumn);
    }
    var data := DropColumns(f, EncodeDropped);
    CatColsDistinct();
    var catVars := Select(data, CatCols);
    var otherVars := DropColumns(data, CatSet);
    catVars := EncodeCategorical(catVars);
    JoinedParts(f);
    data := ConcatCols(otherVars, catVars);
    var cast := CastColumns(data, parse);
    if cast.Err? {
      return Err(NotFloat);
    }
    if LeadIndicator !in cast.value.columns {
      return Err(MissingColumn);
    }
    var y := Col(cast.value, LeadIndicator);
    var x := DropColumns(cast.value, {LeadIndicator});
    r := Ok(Split(x, y));
  }
}
