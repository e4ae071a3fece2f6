/**
 The row-cleaning stage: `create_training_data` of itu_sdse_project/dataset.py
 and its copy, the `__main__` block of data/interim/make_dataset.py.  The raw
 table comes with the dtype pandas inferred for each column; the stage drops
 nine columns, turns empty strings into missing values, keeps the signup rows
 with a target and an id, splits the columns into continuous and categorical
 ones, clips, imputes and scales, and derives `bin_source` from `source`.

 `Clean` is the whole stage as one function of the raw table; the method in
 module Dataset computes it step by step.
 */
module Cleaning {
  import opened Frames
  import opened Stats
  import opened Helpers

  const DatePart: ColName := Name("date_part")
  const LeadIndicator: ColName := Name("lead_indicator")
  const LeadId: ColName := Name("lead_id")
  const CustomerCode: ColName := Name("customer_code")
  const CustomerGroup: ColName := Name("customer_group")
  const Onboarding: ColName := Name("onboarding")
  const Source: ColName := Name("source")
  const BinSource: ColName := Name("bin_source")

  /** The nine columns the two `drop` calls remove. */
  const DroppedColumns: set<ColName> := {
    Name("is_active"), Name("marketing_consent"), Name("first_booking"),
    Name("existing_customer"), Name("last_seen"), Name("domain"), Name("country"),
    Name("visited_learn_more_before_booking"), Name("visited_faq")
  }

  /** The columns the loop casts to object dtype, in loop order. */
  const Vars: seq<ColName> := [LeadId, LeadIndicator, CustomerGroup, Onboarding, Source, CustomerCode]

  /** The columns of the first `drop` call. */
  const FirstDrop: set<ColName> := {
    Name("is_active"), Name("marketing_consent"), Name("first_booking"),
    Name("existing_customer"), Name("last_seen")
  }

  /** The columns of the second `drop` call. */
  const SecondDrop: set<ColName> := {
    Name("domain"), Name("country"), Name("visited_learn_more_before_booking"), Name("visited_faq")
  }

  /** Every column the stage names; pandas raises KeyError when one is absent. */
  const RequiredColumns: set<ColName> :=
    DroppedColumns + {DatePart, LeadId, LeadIndicator, CustomerGroup, Onboarding, Source, CustomerCode}

  /** A DataFrame together with the dtype pandas gives each column. */
  datatype Table = Table(frame: Frame, dtype: map<ColName, DType>)

  predicate WellTyped(t: Table) {
    WellFormed(t.frame) && t.dtype.Keys == ColumnSet(t.frame)
  }

  // ---------------------------------------------------------------------
  // Dropping columns and blank strings

  /** `replace("", np.nan)` on one cell. */
  function Unblank(v: Value): (w: Value)
    ensures w.None? <==> v.None? || v == Some(Str(""))
    ensures w.Some? ==> w == v
  {
    if v == Some(Str("")) then None else v
  }

  function UnblankIn(r: Row, c: ColName): Row {
    if c in r then r[c := Unblank(r[c])] else r
  }

  /** A raw row after the column drops and the three in-place replaces. */
  function PrepareRow(r: Row): (p: Row)
    ensures p.Keys == r.Keys - DroppedColumns
  {
    UnblankIn(UnblankIn(UnblankIn(r - DroppedColumns, LeadIndicator), LeadId), CustomerCode)
  }

  /** The table after the drops and the replaces, before any row is removed. */
  function Prepare(f: Frame): (g: Frame)
    requires WellFormed(f)
    ensures WellFormed(g) && g.columns == Filter(f.columns, NotIn(DroppedColumns))
    ensures g.rows == MapSeq(f.rows, PrepareRow)
  {
    FilterDistinct(f.columns, NotIn(DroppedColumns));
    Frame(Filter(f.columns, NotIn(DroppedColumns)), MapSeq(f.rows, PrepareRow))
  }

  /** `data[c].replace("", np.nan, inplace=True)`: the blank strings of column `c` become missing. */
  function UnblankColumn(f: Frame, c: ColName): (g: Frame)
    requires WellFormed(f) && c in f.columns
    ensures WellFormed(g) && g.columns == f.columns && |g.rows| == |f.rows|
    ensures forall i :: 0 <= i < |g.rows| ==> g.rows[i] == f.rows[i][c := Unblank(f.rows[i][c])]
  {
    SetCol(f, c, seq(|f.rows|, i requires 0 <= i < |f.rows| => Unblank(f.rows[i][c])))
  }

  /** The two `drop` calls one after the other drop the nine columns at once. */
  lemma DropTwice(f: Frame)
    requires WellFormed(f)
    ensures DropColumns(DropColumns(f, FirstDrop), SecondDrop) == DropColumns(f, DroppedColumns)
  {
    DropUnion(f, FirstDrop, SecondDrop);
    assert FirstDrop + SecondDrop == DroppedColumns;
  }

  /**
   The drops and the three in-place replaces, column by column as the stage
   runs them, give the table `Prepare` states row by row.
   */
  lemma PrepareSteps(f: Frame)
    requires WellFormed(f) && LeadIndicator in f.columns && LeadId in f.columns && CustomerCode in f.columns
    ensures var d := DropColumns(DropColumns(f, FirstDrop), SecondDrop);
      && LeadIndicator in d.columns && LeadId in d.columns && CustomerCode in d.columns
      && UnblankColumn(UnblankColumn(UnblankColumn(d, LeadIndicator), LeadId), CustomerCode) == Prepare(f)
  {
    DropTwice(f);
    var d := DropColumns(f, DroppedColumns);
    var g := UnblankColumn(UnblankColumn(UnblankColumn(d, LeadIndicator), LeadId), CustomerCode);
    var p := Prepare(f);
    forall i | 0 <= i < |g.rows| ensures g.rows[i] == p.rows[i] {
      assert d.rows[i] == f.rows[i] - DroppedColumns;
    }
  }

  // ---------------------------------------------------------------------
  // Row filters

  /** `dropna(subset=["lead_indicator"])` keeps the row. */
  predicate HasLeadIndicator(r: Row) { LeadIndicator in r && r[LeadIndicator].Some? }

  /** `dropna(subset=["lead_id"])` keeps the row. */
  predicate HasLeadId(r: Row) { LeadId in r && r[LeadId].Some? }

  /** `data.source == "signup"` holds for the row. */
  predicate FromSignup(r: Row) { Source in r && r[Source] == Some(Str("signup")) }

  /** The three filters, applied one after the other as the stage does. */
  function FilterKept(f: Frame): (g: Frame)
    requires WellFormed(f)
    ensures WellFormed(g) && g.columns == f.columns
    ensures g.rows == Filter(Filter(Filter(f.rows, HasLeadIndicator), HasLeadId), FromSignup)
  {
    FilterRows(FilterRows(FilterRows(f, HasLeadIndicator), HasLeadId), FromSignup)
  }

  /**
   The condition on a RAW row for it to survive: a lead_indicator and a
   lead_id that are neither missing nor the empty string, and source "signup".
   */
  predicate KeptRaw(r: Row) {
    && LeadIndicator in r && r[LeadIndicator].Some? && r[LeadIndicator] != Some(Str(""))
    && LeadId in r && r[LeadId].Some? && r[LeadId] != Some(Str(""))
    && Source in r && r[Source] == Some(Str("signup"))
  }

  // ---------------------------------------------------------------------
  // Dtypes and the continuous / categorical split

  /** The dtypes after `date_part` is parsed to dates and the six `Vars` are cast to object. */
  function CleanTypes(ty: map<ColName, DType>): (r: map<ColName, DType>)
    ensures r.Keys == ty.Keys
    ensures forall c :: c in r && (c == DatePart || c in Vars) ==> r[c] == Object
    ensures forall c :: c in r && c != DatePart && c !in Vars ==> r[c] == ty[c]
  {
    map c | c in ty :: if c == DatePart || c in Vars then Object else ty[c]
  }

  /** `data.dtypes == "float64" | data.dtypes == "int64"` */
  function Continuous(ty: map<ColName, DType>): ColName -> bool {
    c => c in ty && IsNumeric(ty[c])
  }

  /** `data.dtypes == "object"` */
  function Categorical(ty: map<ColName, DType>): ColName -> bool {
    c => c in ty && ty[c] == Object
  }

  /** `data.loc[:, mask]`: the columns that pass `keep`, in table order. */
  function SelectWhere(f: Frame, keep: ColName -> bool): (g: Frame)
    requires WellFormed(f)
    ensures WellFormed(g) && g.columns == Filter(f.columns, keep) && |g.rows| == |f.rows|
    ensures forall i, c :: 0 <= i < |g.rows| && c in g.columns ==> g.rows[i][c] == f.rows[i][c]
  {
    FilterDistinct(f.columns, keep);
    Select(f, Filter(f.columns, keep))
  }

  // ---------------------------------------------------------------------
  // Column-wise steps (DataFrame.apply over columns)

  /** The frame whose column `c` is `cols[c]`. */
  function WithColumns(f: Frame, cols: map<ColName, seq<Value>>): (g: Frame)
    requires WellFormed(f) && cols.Keys == ColumnSet(f)
    requires forall c :: c in cols ==> |cols[c]| == |f.rows|
    ensures WellFormed(g) && g.columns == f.columns && |g.rows| == |f.rows|
    ensures forall i, c :: 0 <= i < |g.rows| && c in g.columns ==> g.rows[i][c] == cols[c][i]
  {
    Frame(f.columns, seq(|f.rows|, i requires 0 <= i < |f.rows| => map c | c in cols :: cols[c][i]))
  }

  /** Each column of the rebuilt table is the column it was given. */
  lemma WithColumnsCol(f: Frame, cols: map<ColName, seq<Value>>)
    requires WellFormed(f) && cols.Keys == ColumnSet(f)
    requires forall c :: c in cols ==> |cols[c]| == |f.rows|
    ensures forall c :: c in f.columns ==> Col(WithColumns(f, cols), c) == cols[c]
  {
    var g := WithColumns(f, cols);
    forall c | c in f.columns ensures Col(g, c) == cols[c] {
      assert forall i :: 0 <= i < |g.rows| ==> Col(g, c)[i] == g.rows[i][c];
    }
  }

  /** `clip(lower, upper)` of one number. */
  function Clamp(v: real, lo: real, hi: real): (r: real)
    requires lo <= hi
    ensures lo <= r <= hi
    ensures lo <= v <= hi ==> r == v
  {
    if v < lo then lo else if v > hi then hi else v
  }

  /**
   The clip of lines 45-47 on one column: every present number is clipped to
   mean ± 2·std of the column, where `std` gives the sample standard
   deviation.  With fewer than two present numbers the std is NaN, and pandas
   ignores a NaN bound; pandas also swaps bounds given the wrong way round.
   */
  function ClipColumn(x: seq<Value>, std: seq<real> -> real): (r: seq<Value>)
    ensures |r| == |x|
    ensures forall i :: 0 <= i < |x| ==> (r[i].None? <==> x[i].None?)
    ensures forall i :: 0 <= i < |x| && !(x[i].Some? && x[i].value.Num?) ==> r[i] == x[i]
    ensures forall i :: 0 <= i < |x| && x[i].Some? && x[i].value.Num? ==> r[i].Some? && r[i].value.Num?
  {
    var xs := PresentReals(x);
    if |xs| < 2 then x
    else
      var a, b := Mean(xs) - 2.0 * std(xs), Mean(xs) + 2.0 * std(xs);
      var lo, hi := if a <= b then a else b, if a <= b then b else a;
      seq(|x|, i requires 0 <= i < |x| =>
        if x[i].Some? && x[i].value.Num? then Some(Num(Clamp(x[i].value.x, lo, hi))) else x[i])
  }

  function ClipContinuous(f: Frame, std: seq<real> -> real): (g: Frame)
    requires WellFormed(f)
    ensures WellFormed(g) && g.columns == f.columns && |g.rows| == |f.rows|
    ensures forall i, c :: 0 <= i < |g.rows| && c in g.columns ==> g.rows[i][c] == ClipColumn(Col(f, c), std)[i]
    ensures forall c :: c in g.columns ==> Col(g, c) == ClipColumn(Col(f, c), std)
  {
    var cols := map c | c in ColumnSet(f) :: ClipColumn(Col(f, c), std);
    WithColumnsCol(f, cols);
    WithColumns(f, cols)
  }

  /** `cont_vars.apply(impute_missing_values)`: every column gets its mean. */
  function ImputeContinuous(f: Frame, ty: map<ColName, DType>): (g: Frame)
    requires WellFormed(f) && forall c :: c in f.columns ==> c in ty && IsNumeric(ty[c])
    ensures WellFormed(g) && g.columns == f.columns && |g.rows| == |f.rows|
    ensures forall i, c :: 0 <= i < |g.rows| && c in g.columns ==>
      g.rows[i][c] == ImputeMissingValues(Col(f, c), ty[c], "mean").value[i]
  {
    WithColumns(f, map c | c in ColumnSet(f) :: ImputeMissingValues(Col(f, c), ty[c], "mean").value)
  }

  /**
   `cat_vars.apply(impute_missing_values)`: every column gets its mode, which
   fails for a column without a present value.  On a frame without rows
   pandas calls the function once, on an empty float64 Series (which takes
   the numeric branch and cannot fail), and returns a copy of the frame: an
   empty frame cannot fail.
   */
  function ImputeCategorical(f: Frame): (r: Result<Frame>)
    requires WellFormed(f)
    ensures r.Err? <==> |f.rows| > 0 && exists c :: c in f.columns && |PresentCells(Col(f, c))| == 0
    ensures r.Err? ==> r.error == NoMode
    ensures r.Ok? ==> WellFormed(r.value) && r.value.columns == f.columns && |r.value.rows| == |f.rows|
    ensures r.Ok? && |f.rows| > 0 ==> forall c :: c in f.columns ==> ModeFill(Col(f, c)) == Ok(Col(r.value, c))
  {
    if |f.rows| > 0 && exists c :: c in f.columns && |PresentCells(Col(f, c))| == 0 then Err(NoMode)
    else if |f.rows| == 0 then Ok(f)
    else Ok(FillModes(f))
  }

  /** Every column filled with its mode, when every column has a present value. */
  function FillModes(f: Frame): (g: Frame)
    requires WellFormed(f) && forall c :: c in f.columns ==> |PresentCells(Col(f, c))| > 0
    ensures WellFormed(g) && g.columns == f.columns && |g.rows| == |f.rows|
    ensures forall c :: c in f.columns ==> ModeFill(Col(f, c)) == Ok(Col(g, c))
  {
    var cols := map c | c in ColumnSet(f) :: ModeFill(Col(f, c)).value;
    WithColumnsCol(f, cols);
    WithColumns(f, cols)
  }

  /**
   MinMaxScaler on one column: (v - min) / (max - min), and v - min when the
   column is constant; a column without a present number stays missing.
   */
  function MinMaxColumn(x: seq<Value>): (r: seq<Value>)
    ensures |r| == |x|
    ensures forall i :: 0 <= i < |x| ==> (r[i].None? <==> x[i].None?)
  {
    var xs := PresentReals(x);
    if |xs| == 0 then x
    else
      var lo, hi := Min(xs), Max(xs);
      seq(|x|, i requires 0 <= i < |x| =>
        if x[i].Some? && x[i].value.Num? then
          Some(Num(Rescale(x[i].value.x, lo, hi)))
        else x[i])
  }

  /** MinMaxScaler's map of one number, given the column minimum and maximum. */
  function Rescale(v: real, lo: real, hi: real): real {
    if hi == lo then v - lo else (v - lo) / (hi - lo)
  }

  lemma RescaleUnit(v: real, lo: real, hi: real)
    requires lo <= v <= hi
    ensures 0.0 <= Rescale(v, lo, hi) <= 1.0
    ensures v == lo ==> Rescale(v, lo, hi) == 0.0
    ensures v == hi && lo < hi ==> Rescale(v, lo, hi) == 1.0
  {
    if lo < hi {
      var d := hi - lo;
      var r := (v - lo) / d;
      assert r * d == v - lo;
      assert (r - 1.0) * d == v - hi;
      if r > 1.0 {
        assert (r - 1.0) * d > 0.0;
      }
    }
  }

  /** `scaler.fit(cont_vars)` then `scaler.transform(cont_vars)`. */
  function Scale(f: Frame): (r: Result<Frame>)
    requires WellFormed(f)
    ensures r.Err? <==> |f.rows| == 0 || |f.columns| == 0
    ensures r.Err? ==> r.error == (if |f.rows| == 0 then NoSamples else NoFeatures)
    ensures r.Ok? ==> WellFormed(r.value) && r.value.columns == f.columns && |r.value.rows| == |f.rows|
    ensures r.Ok? ==> forall i, c :: 0 <= i < |f.rows| && c in f.columns ==>
      r.value.rows[i][c] == MinMaxColumn(Col(f, c))[i]
  {
    if |f.rows| == 0 then Err(NoSamples)
    else if |f.columns| == 0 then Err(NoFeatures)
    else Ok(WithColumns(f, map c | c in ColumnSet(f) :: MinMaxColumn(Col(f, c))))
  }

  // ---------------------------------------------------------------------
  // customer_code and bin_source

  /** `cat_vars.loc[cat_vars["customer_code"].isna(), "customer_code"] = "None"` */
  function FillCustomerCode(f: Frame): (g: Frame)
    requires WellFormed(f) && CustomerCode in f.columns
    ensures WellFormed(g) && g.columns == f.columns && |g.rows| == |f.rows|
    ensures forall i :: 0 <= i < |g.rows| ==>
      g.rows[i] == f.rows[i][CustomerCode := if f.rows[i][CustomerCode].None? then Some(Str("None")) else f.rows[i][CustomerCode]]
  {
    SetCol(f, CustomerCode, seq(|f.rows|, i requires 0 <= i < |f.rows| =>
      if f.rows[i][CustomerCode].None? then Some(Str("None")) else f.rows[i][CustomerCode]))
  }

  /** The fixed map from source to bin_source; a source outside it maps to NaN. */
  function BinOf(v: Value): (w: Value)
    ensures w == Some(Str("socials")) <==> v == Some(Str("li")) || v == Some(Str("fb"))
    ensures w == Some(Str("group1")) <==> v == Some(Str("organic")) || v == Some(Str("signup"))
    ensures w.Some? ==> w == Some(Str("socials")) || w == Some(Str("group1"))
  {
    match v
    case Some(Str(s)) =>
      if s == "li" || s == "fb" then Some(Str("socials"))
      else if s == "organic" || s == "signup" then Some(Str("group1"))
      else None
    case _ => None
  }

  /** `data["bin_source"] = data["source"].map(mapping)` */
  function AddBinSource(f: Frame): (g: Frame)
    requires WellFormed(f) && Source in f.columns
    ensures WellFormed(g) && |g.rows| == |f.rows|
    ensures g.columns == if BinSource in f.columns then f.columns else f.columns + [BinSource]
    ensures forall i :: 0 <= i < |g.rows| ==> g.rows[i] == f.rows[i][BinSource := BinOf(f.rows[i][Source])]
  {
    SetCol(f, BinSource, seq(|f.rows|, i requires 0 <= i < |f.rows| => BinOf(f.rows[i][Source])))
  }

  // ---------------------------------------------------------------------
  // The whole stage

  /** The rows that survive, after the drops and replaces. */
  function Kept(raw: Table): (g: Frame)
    requires WellTyped(raw)
    ensures WellFormed(g) && g.columns == Filter(raw.frame.columns, NotIn(DroppedColumns))
  {
    FilterKept(Prepare(raw.frame))
  }

  /** The categorical part: object columns, customer_code filled with "None". */
  function CategoricalPart(raw: Table): (g: Frame)
    requires WellTyped(raw) && RequiredColumns <= ColumnSet(raw.frame)
    ensures WellFormed(g) && g.columns == Filter(Kept(raw).columns, Categorical(CleanTypes(raw.dtype)))
    ensures |g.rows| == |Kept(raw).rows|
    ensures forall i, c :: 0 <= i < |g.rows| && c in g.columns ==>
      g.rows[i][c] == if c == CustomerCode && Kept(raw).rows[i][c].None? then Some(Str("None")) else Kept(raw).rows[i][c]
  {
    VarIsCategorical(raw, CustomerCode);
    FilledRows(Kept(raw), Categorical(CleanTypes(raw.dtype)));
    FillCustomerCode(SelectWhere(Kept(raw), Categorical(CleanTypes(raw.dtype))))
  }

  /** Each of the six `Vars` survives the drops and is classed as categorical. */
  lemma VarIsCategorical(raw: Table, c: ColName)
    requires WellTyped(raw) && RequiredColumns <= ColumnSet(raw.frame) && c in Vars
    ensures c in Filter(Kept(raw).columns, Categorical(CleanTypes(raw.dtype)))
    ensures !Continuous(CleanTypes(raw.dtype))(c)
  {
    VarTyped(raw.frame.columns, raw.dtype, c);
  }

  lemma VarTyped(cols: seq<ColName>, ty: map<ColName, DType>, c: ColName)
    requires c in cols && c in ty && c in Vars
    ensures c in Filter(Filter(cols, NotIn(DroppedColumns)), Categorical(CleanTypes(ty)))
    ensures !Continuous(CleanTypes(ty))(c)
  {
    assert c !in DroppedColumns;
    assert c in Filter(cols, NotIn(DroppedColumns));
    assert CleanTypes(ty)[c] == Object;
  }

  lemma FilledRows(data: Frame, keep: ColName -> bool)
    requires WellFormed(data) && CustomerCode in Filter(data.columns, keep)
    ensures var g := FillCustomerCode(SelectWhere(data, keep));
      forall i, c :: 0 <= i < |g.rows| && c in g.columns ==>
        g.rows[i][c] == if c == CustomerCode && data.rows[i][c].None? then Some(Str("None")) else data.rows[i][c]
  {
    var cat := SelectWhere(data, keep);
    var g := FillCustomerCode(cat);
    forall i, c | 0 <= i < |g.rows| && c in g.columns
      ensures g.rows[i][c] == if c == CustomerCode && data.rows[i][c].None? then Some(Str("None")) else data.rows[i][c]
    {
      var v := if cat.rows[i][CustomerCode].None? then Some(Str("None")) else cat.rows[i][CustomerCode];
      assert g.rows[i] == cat.rows[i][CustomerCode := v];
      assert cat.rows[i][c] == data.rows[i][c];
      assert cat.rows[i][CustomerCode] == data.rows[i][CustomerCode];
    }
  }

  /** The continuous part: numeric columns, clipped and mean-imputed. */
  function ContinuousPart(raw: Table, std: seq<real> -> real): (g: Frame)
    requires WellTyped(raw)
    ensures WellFormed(g) && g.columns == Filter(Kept(raw).columns, Continuous(CleanTypes(raw.dtype)))
    ensures |g.rows| == |Kept(raw).rows|
    ensures var ty := CleanTypes(raw.dtype);
      forall i, c :: 0 <= i < |g.rows| && c in g.columns ==>
        && c in ty && IsNumeric(ty[c])
        && g.rows[i][c] == ImputeMissingValues(ClipColumn(Col(SelectWhere(Kept(raw), Continuous(ty)), c), std), ty[c], "mean").value[i]
  {
    var ty := CleanTypes(raw.dtype);
    var cont := SelectWhere(Kept(raw), Continuous(ty));
    ImputeContinuous(ClipContinuous(cont, std), ty)
  }

  /**
   `create_training_data`, from the table `read_csv` returns to the table
   `to_csv` writes.  `std` is pandas' sample standard deviation.
   */
  function Clean(raw: Table, std: seq<real> -> real): (r: Result<Frame>)
    requires WellTyped(raw)
    ensures r == Err(MissingColumn) <==> !(RequiredColumns <= ColumnSet(raw.frame))
    ensures r.Ok? ==> WellFormed(r.value)
  {
    if !(RequiredColumns <= ColumnSet(raw.frame)) then Err(MissingColumn)
    else
      var cat := ImputeCategorical(CategoricalPart(raw));
      if cat.Err? then Err(cat.error)
      else
        var cont := Scale(ContinuousPart(raw, std));
        if cont.Err? then Err(cont.error)
        else
          DisjointParts(raw, std);
          Ok(AddBinSource(ConcatCols(cat.value, cont.value)))
  }

  /** No column is both categorical and continuous. */
  lemma DisjointParts(raw: Table, std: seq<real> -> real)
    requires WellTyped(raw) && RequiredColumns <= ColumnSet(raw.frame)
    ensures ColumnSet(CategoricalPart(raw)) !! ColumnSet(ContinuousPart(raw, std))
    ensures Source in CategoricalPart(raw).columns
  {
    var ty := CleanTypes(raw.dtype);
    var cols := Kept(raw).columns;
    SplitDisjoint(cols, ty);
    assert CategoricalPart(raw).columns == Filter(cols, Categorical(ty));
    assert ContinuousPart(raw, std).columns == Filter(cols, Continuous(ty));
    VarIsCategorical(raw, Source);
  }

  lemma SplitDisjoint(cols: seq<ColName>, ty: map<ColName, DType>)
    ensures (set c | c in Filter(cols, Categorical(ty))) !! (set c | c in Filter(cols, Continuous(ty)))
  {
    forall c | c in Filter(cols, Categorical(ty)) ensures c !in Filter(cols, Continuous(ty)) {
      assert Categorical(ty)(c);
    }
  }



  // ---------------------------------------------------------------------
  // Properties of the stage

  lemma PrepareRowFacts(r: Row)
    ensures forall c :: c in PrepareRow(r) <==> c in r && c !in DroppedColumns
    ensures forall c :: c in r && c in {LeadIndicator, LeadId, CustomerCode} ==> PrepareRow(r)[c] == Unblank(r[c])
    ensures forall c :: c in r && c !in DroppedColumns && c !in {LeadIndicator, LeadId, CustomerCode} ==>
      PrepareRow(r)[c] == r[c]
  {
  }

  /** A raw row survives exactly when its prepared row passes all three filters. */
  lemma KeptRawIsKept(r: Row)
    ensures KeptRaw(r) == (HasLeadIndicator(PrepareRow(r)) && HasLeadId(PrepareRow(r)) && FromSignup(PrepareRow(r)))
  {
    PrepareRowFacts(r);
  }

  /**
   The rows of the cleaned table are exactly the raw rows satisfying
   `KeptRaw`, in their original relative order (each prepared).
   */
  lemma KeptRows(raw: Table)
    requires WellTyped(raw)
    ensures Kept(raw).rows == MapSeq(Filter(raw.frame.rows, KeptRaw), PrepareRow)
  {
    var rows := MapSeq(raw.frame.rows, PrepareRow);
    assert Prepare(raw.frame).rows == rows;
    var all := Both(Both(HasLeadIndicator, HasLeadId), FromSignup);
    FilterFilter(rows, HasLeadIndicator, HasLeadId);
    FilterFilter(Filter(rows, HasLeadIndicator), HasLeadId, FromSignup);
    FilterFilter(rows, Both(HasLeadIndicator, HasLeadId), FromSignup);
    forall r ensures KeptRaw(r) == all(PrepareRow(r)) {
      KeptRawIsKept(r);
    }
    FilterMap(raw.frame.rows, PrepareRow, all, KeptRaw);
  }

  /** The three filters give the same rows in whichever order they are applied. */
  lemma FilterOrderIrrelevant(rows: seq<Row>)
    ensures Filter(Filter(Filter(rows, HasLeadIndicator), HasLeadId), FromSignup)
         == Filter(Filter(Filter(rows, FromSignup), HasLeadId), HasLeadIndicator)
  {
    FilterCommutes(rows, HasLeadIndicator, HasLeadId);
    FilterCommutes(Filter(rows, HasLeadId), HasLeadIndicator, FromSignup);
    FilterCommutes(rows, HasLeadId, FromSignup);
    FilterCommutes(Filter(rows, FromSignup), HasLeadId, HasLeadIndicator);
  }

  /** The raw rows that survive the filters, in order. */
  function Survivors(raw: Table): (ks: seq<Row>)
    requires WellTyped(raw)
    ensures forall j :: 0 <= j < |ks| ==> KeptRaw(ks[j]) && ks[j].Keys == ColumnSet(raw.frame)
  {
    var ks := Filter(raw.frame.rows, KeptRaw);
    assert forall j :: 0 <= j < |ks| ==> ks[j] in raw.frame.rows;
    ks
  }

  /** What a successful run is made of. */
  lemma CleanOk(raw: Table, std: seq<real> -> real)
    requires WellTyped(raw) && Clean(raw, std).Ok?
    ensures RequiredColumns <= ColumnSet(raw.frame)
    ensures ImputeCategorical(CategoricalPart(raw)).Ok? && Scale(ContinuousPart(raw, std)).Ok?
    ensures ColumnSet(CategoricalPart(raw)) !! ColumnSet(ContinuousPart(raw, std))
    ensures Source in CategoricalPart(raw).columns
    ensures Clean(raw, std).value
         == AddBinSource(ConcatCols(ImputeCategorical(CategoricalPart(raw)).value, Scale(ContinuousPart(raw, std)).value))
  {
    DisjointParts(raw, std);
  }

  /** The output has one row per surviving raw row. */
  lemma CleanRowCount(raw: Table, std: seq<real> -> real)
    requires WellTyped(raw) && Clean(raw, std).Ok?
    ensures |Clean(raw, std).value.rows| == |Survivors(raw)| > 0
  {
    CleanOk(raw, std);
    KeptRows(raw);
  }

  /**
   With every named column present, the stage fails for want of samples
   exactly when no raw row survives the filters.
   */
  lemma CleanNoSamples(raw: Table, std: seq<real> -> real)
    requires WellTyped(raw) && RequiredColumns <= ColumnSet(raw.frame)
    ensures Clean(raw, std) == Err(NoSamples) <==> |Survivors(raw)| == 0
  {
    KeptRows(raw);
    var cat := ImputeCategorical(CategoricalPart(raw));
    assert cat.Err? ==> cat.error == NoMode;
  }

  /**
   The output columns: the categorical columns, then the continuous ones,
   each in raw order, then bin_source.
   */
  lemma CleanColumns(raw: Table, std: seq<real> -> real)
    requires WellTyped(raw) && Clean(raw, std).Ok?
    ensures var kept := Filter(raw.frame.columns, NotIn(DroppedColumns));
      var ty := CleanTypes(raw.dtype);
      var cols := Filter(kept, Categorical(ty)) + Filter(kept, Continuous(ty));
      Clean(raw, std).value.columns == if BinSource in cols then cols else cols + [BinSource]
  {
    CleanOk(raw, std);
  }

  /**
   A column is in the output exactly when it is bin_source, or a raw column
   outside the nine dropped ones whose dtype is object, float64 or int64:
   columns of any other dtype vanish.
   */
  lemma CleanColumnSet(raw: Table, std: seq<real> -> real)
    requires WellTyped(raw) && Clean(raw, std).Ok?
    ensures forall c :: c in Clean(raw, std).value.columns <==>
      c == BinSource || (c in raw.frame.columns && c !in DroppedColumns && CleanTypes(raw.dtype)[c] != Other)
  {
    CleanColumns(raw, std);
    SplitColumnSet(raw.frame.columns, CleanTypes(raw.dtype), Clean(raw, std).value.columns);
  }

  lemma SplitColumnSet(raw: seq<ColName>, ty: map<ColName, DType>, out: seq<ColName>)
    requires forall c :: c in raw ==> c in ty
    requires var kept := Filter(raw, NotIn(DroppedColumns));
      var cols := Filter(kept, Categorical(ty)) + Filter(kept, Continuous(ty));
      out == if BinSource in cols then cols else cols + [BinSource]
    ensures forall c :: c in out <==> c == BinSource || (c in raw && c !in DroppedColumns && ty[c] != Other)
  {
    var kept := Filter(raw, NotIn(DroppedColumns));
    SplitCovers(kept, ty);
  }

  /** Splitting by dtype loses exactly the columns of dtype Other. */
  lemma SplitCovers(cols: seq<ColName>, ty: map<ColName, DType>)
    requires forall c :: c in cols ==> c in ty
    ensures forall c :: c in Filter(cols, Categorical(ty)) + Filter(cols, Continuous(ty)) <==> c in cols && ty[c] != Other
  {
    forall c | c in cols && ty[c] != Other
      ensures c in Filter(cols, Categorical(ty)) + Filter(cols, Continuous(ty))
    {
      if ty[c] == Object {
        assert Categorical(ty)(c);
      } else {
        assert Continuous(ty)(c);
      }
    }
  }

  /** None of the nine dropped columns reaches the output. */
  lemma CleanDropsColumns(raw: Table, std: seq<real> -> real)
    requires WellTyped(raw) && Clean(raw, std).Ok?
    ensures forall c :: c in DroppedColumns ==> c !in Clean(raw, std).value.columns
  {
    CleanColumnSet(raw, std);
  }

  /** The kept rows are the prepared survivors, one for one. */
  lemma KeptRow(raw: Table, i: nat)
    requires WellTyped(raw) && i < |Survivors(raw)|
    ensures |Kept(raw).rows| == |Survivors(raw)|
    ensures Kept(raw).rows[i] == PrepareRow(Survivors(raw)[i])
  {
    KeptRows(raw);
  }

  /** Imputing the categorical columns leaves every present cell as it was. */
  lemma ImputedPresent(f: Frame, i: nat, c: ColName)
    requires WellFormed(f) && ImputeCategorical(f).Ok?
    requires i < |f.rows| && c in f.columns && f.rows[i][c].Some?
    ensures ImputeCategorical(f).value.rows[i][c] == f.rows[i][c]
  {
    var g := ImputeCategorical(f).value;
    assert Col(f, c)[i] == f.rows[i][c];
    assert Col(g, c)[i] == g.rows[i][c];
  }

  /** A column of the left part keeps its value through the concat and the bin_source step. */
  lemma OutputCell(a: Frame, b: Frame, i: nat, c: ColName)
    requires WellFormed(a) && WellFormed(b) && |a.rows| == |b.rows| && ColumnSet(a) !! ColumnSet(b)
    requires Source in a.columns && i < |a.rows| && c in a.columns && c != BinSource
    ensures AddBinSource(ConcatCols(a, b)).rows[i][c] == a.rows[i][c]
    ensures AddBinSource(ConcatCols(a, b)).rows[i][BinSource] == BinOf(a.rows[i][Source])
  {
  }

  /** The categorical part of row `i`, after imputation, against the `i`-th survivor. */
  lemma CategoricalRow(raw: Table, i: nat)
    requires WellTyped(raw) && RequiredColumns <= ColumnSet(raw.frame)
    requires ImputeCategorical(CategoricalPart(raw)).Ok? && i < |Survivors(raw)|
    ensures i < |ImputeCategorical(CategoricalPart(raw)).value.rows|
    ensures var k := Survivors(raw)[i]; var o := ImputeCategorical(CategoricalPart(raw)).value.rows[i];
      && NamedCells(o)
      && o[LeadId] == k[LeadId] && o[LeadIndicator] == k[LeadIndicator] && o[Source] == Some(Str("signup"))
      && o[CustomerCode] == if Unblank(k[CustomerCode]).None? then Some(Str("None")) else k[CustomerCode]
  {
    var k := Survivors(raw)[i];
    var cat := CategoricalPart(raw);
    KeptRow(raw, i);
    var p := Kept(raw).rows[i];
    assert LeadId in cat.columns && LeadIndicator in cat.columns && Source in cat.columns && CustomerCode in cat.columns by {
      VarIsCategorical(raw, LeadId);
      VarIsCategorical(raw, LeadIndicator);
      VarIsCategorical(raw, Source);
      VarIsCategorical(raw, CustomerCode);
    }
    assert cat.rows[i][LeadId] == p[LeadId] && cat.rows[i][LeadIndicator] == p[LeadIndicator];
    assert cat.rows[i][Source] == p[Source];
    assert cat.rows[i][CustomerCode] == if p[CustomerCode].None? then Some(Str("None")) else p[CustomerCode];
    PreparedSurvivor(k);
    ImputedPresent(cat, i, LeadId);
    ImputedPresent(cat, i, LeadIndicator);
    ImputedPresent(cat, i, Source);
    ImputedPresent(cat, i, CustomerCode);
  }

  /** The row holds lead_id, lead_indicator, source and customer_code. */
  predicate NamedCells(o: Row) {
    LeadId in o && LeadIndicator in o && Source in o && CustomerCode in o
  }

  /** The four named cells of a prepared surviving row. */
  lemma PreparedSurvivor(k: Row)
    requires KeptRaw(k) && CustomerCode in k
    ensures var p := PrepareRow(k);
      && p[LeadId] == k[LeadId] && p[LeadIndicator] == k[LeadIndicator] && p[Source] == Some(Str("signup"))
      && p[CustomerCode] == Unblank(k[CustomerCode])
  {
    PrepareRowFacts(k);
  }

  /**
   Row `i` of the output against the `i`-th surviving raw row: lead_id and
   lead_indicator pass through untouched, source is "signup", bin_source is
   "group1", and customer_code is the string "None" where the raw code was
   missing or blank and the raw code otherwise.
   */
  lemma CleanRow(raw: Table, std: seq<real> -> real, i: nat)
    requires WellTyped(raw) && Clean(raw, std).Ok? && i < |Clean(raw, std).value.rows|
    ensures i < |Survivors(raw)|
    ensures var k := Survivors(raw)[i]; var o := Clean(raw, std).value.rows[i];
      && NamedCells(o) && BinSource in o
      && o[LeadId] == k[LeadId] && o[LeadIndicator] == k[LeadIndicator]
      && o[Source] == Some(Str("signup")) && o[BinSource] == Some(Str("group1"))
      && o[CustomerCode] == if Unblank(k[CustomerCode]).None? then Some(Str("None")) else k[CustomerCode]
  {
    CleanOk(raw, std);
    CleanRowCount(raw, std);
    var imp := ImputeCategorical(CategoricalPart(raw)).value;
    var cont := Scale(ContinuousPart(raw, std)).value;
    var o := Clean(raw, std).value.rows[i];
    CategoricalRow(raw, i);
    assert imp.columns == CategoricalPart(raw).columns;
    VarIsCategorical(raw, LeadId);
    VarIsCategorical(raw, LeadIndicator);
    VarIsCategorical(raw, CustomerCode);
    OutputCell(imp, cont, i, LeadId);
    OutputCell(imp, cont, i, LeadIndicator);
    OutputCell(imp, cont, i, Source);
    OutputCell(imp, cont, i, CustomerCode);
  }

  /**
   After scaling, a cell holds a number exactly when it held one before, and
   every number lies in [0, 1].
   */
  lemma MinMaxUnitRange(x: seq<Value>)
    ensures forall i :: 0 <= i < |x| ==>
      (MinMaxColumn(x)[i].Some? && MinMaxColumn(x)[i].value.Num? <==> x[i].Some? && x[i].value.Num?)
    ensures forall i :: 0 <= i < |x| && MinMaxColumn(x)[i].Some? && MinMaxColumn(x)[i].value.Num? ==>
      0.0 <= MinMaxColumn(x)[i].value.x <= 1.0
  {
    var xs := PresentReals(x);
    PresentRealsMembers(x);
    if |xs| > 0 {
      var lo, hi := Min(xs), Max(xs);
      forall i | 0 <= i < |x| && x[i].Some? && x[i].value.Num?
        ensures 0.0 <= MinMaxColumn(x)[i].value.x <= 1.0
      {
        RescaleUnit(x[i].value.x, lo, hi);
      }
    }
  }

  /**
   With at least two numbers present, every clipped number lies within two
   standard deviations of the column mean; a number already inside is kept.
   */
  lemma ClipBounds(x: seq<Value>, std: seq<real> -> real)
    requires |PresentReals(x)| >= 2
    ensures var xs := PresentReals(x);
      var a, b := Mean(xs) - 2.0 * std(xs), Mean(xs) + 2.0 * std(xs);
      forall i :: 0 <= i < |x| && x[i].Some? && x[i].value.Num? ==>
        && ClipColumn(x, std)[i].Some? && ClipColumn(x, std)[i].value.Num?
        && (a <= b ==> a <= ClipColumn(x, std)[i].value.x <= b)
        && (b <= a ==> b <= ClipColumn(x, std)[i].value.x <= a)
        && ((a <= x[i].value.x <= b || b <= x[i].value.x <= a) ==> ClipColumn(x, std)[i] == x[i])
  {
  }

  /** A cell of the right part keeps its value through the concat and the bin_source step. */
  lemma OutputCellRight(a: Frame, b: Frame, i: nat, c: ColName)
    requires WellFormed(a) && WellFormed(b) && |a.rows| == |b.rows| && ColumnSet(a) !! ColumnSet(b)
    requires Source in a.columns && i < |a.rows| && c in b.columns && c != BinSource
    ensures c in AddBinSource(ConcatCols(a, b)).rows[i]
    ensures AddBinSource(ConcatCols(a, b)).rows[i][c] == b.rows[i][c]
  {
  }

  /** Every number in a continuous output column lies in [0, 1]. */
  lemma CleanScaled(raw: Table, std: seq<real> -> real, i: nat, c: ColName)
    requires WellTyped(raw) && Clean(raw, std).Ok? && i < |Clean(raw, std).value.rows|
    requires c in ContinuousPart(raw, std).columns && c != BinSource
    ensures var o := Clean(raw, std).value.rows[i];
      c in o && (o[c].Some? && o[c].value.Num? ==> 0.0 <= o[c].value.x <= 1.0)
  {
    CleanOk(raw, std);
    var cont := ContinuousPart(raw, std);
    var imp := ImputeCategorical(CategoricalPart(raw)).value;
    var scaled := Scale(cont).value;
    OutputCellRight(imp, scaled, i, c);
    assert scaled.rows[i][c] == MinMaxColumn(Col(cont, c))[i];
    MinMaxUnitRange(Col(cont, c));
  }

  // ---------------------------------------------------------------------
  // No missing values in the output

  /** Some row holds a number in column `c`. */
  predicate SomeNumber(rows: seq<Row>, c: ColName) {
    exists k :: 0 <= k < |rows| && c in rows[k] && rows[k][c].Some? && rows[k][c].value.Num?
  }

  /** Every float64/int64 column outside the nine dropped holds a number in some surviving row. */
  predicate NumbersSurvive(raw: Table)
    requires WellTyped(raw)
  {
    forall c :: c in raw.frame.columns && c !in DroppedColumns && Continuous(CleanTypes(raw.dtype))(c) ==>
      SomeNumber(Survivors(raw), c)
  }

  /** A column holding a number is left without a gap by the clip and the mean imputation. */
  lemma ClipImputeFills(x: seq<Value>, dtype: DType, std: seq<real> -> real, k: nat)
    requires IsNumeric(dtype) && k < |x| && x[k].Some? && x[k].value.Num?
    ensures var r := ImputeMissingValues(ClipColumn(x, std), dtype, "mean");
      r.Ok? && forall i :: 0 <= i < |x| ==> r.value[i].Some?
  {
    var y := ClipColumn(x, std);
    PresentRealsMembers(y);
    assert y[k].value.x in PresentReals(y);
  }

  /** A column the replaces leave alone keeps its raw cell. */
  lemma PrepareKeeps(r: Row, c: ColName)
    requires c in r && c !in DroppedColumns && c != LeadIndicator && c != LeadId && c != CustomerCode
    ensures c in PrepareRow(r) && PrepareRow(r)[c] == r[c]
  {
  }

  /** A float64/int64 column after the dtype loop is none of the six `Vars`. */
  lemma NumericNotVar(ty: map<ColName, DType>, c: ColName)
    requires Continuous(CleanTypes(ty))(c)
    ensures c != LeadIndicator && c != LeadId && c != CustomerCode
  {
    assert LeadIndicator in Vars && LeadId in Vars && CustomerCode in Vars;
  }

  /** The drops and replaces keep a number in a column they leave alone. */
  lemma PreparedNumber(rows: seq<Row>, c: ColName)
    requires SomeNumber(rows, c) && c !in DroppedColumns && c != LeadIndicator && c != LeadId && c != CustomerCode
    ensures SomeNumber(MapSeq(rows, PrepareRow), c)
  {
    var k :| 0 <= k < |rows| && c in rows[k] && rows[k][c].Some? && rows[k][c].value.Num?;
    PrepareKeeps(rows[k], c);
    assert MapSeq(rows, PrepareRow)[k] == PrepareRow(rows[k]);
  }

  /** Under `NumbersSurvive`, a continuous column of the kept rows holds a number. */
  lemma KeptNumber(raw: Table, c: ColName)
    requires WellTyped(raw) && NumbersSurvive(raw)
    requires c in Kept(raw).columns && Continuous(CleanTypes(raw.dtype))(c)
    ensures SomeNumber(Kept(raw).rows, c)
  {
    assert c in raw.frame.columns && c !in DroppedColumns;
    NumericNotVar(raw.dtype, c);
    KeptRows(raw);
    PreparedNumber(Survivors(raw), c);
  }

  /** Every cell of the continuous part is present. */
  lemma ContinuousComplete(raw: Table, std: seq<real> -> real, i: nat, c: ColName)
    requires WellTyped(raw) && NumbersSurvive(raw)
    requires i < |ContinuousPart(raw, std).rows| && c in ContinuousPart(raw, std).columns
    ensures ContinuousPart(raw, std).rows[i][c].Some?
  {
    var ty := CleanTypes(raw.dtype);
    var kept := Kept(raw);
    var sel := SelectWhere(kept, Continuous(ty));
    assert c in sel.columns && Continuous(ty)(c);
    KeptNumber(raw, c);
    var k :| 0 <= k < |kept.rows| && c in kept.rows[k] && kept.rows[k][c].Some? && kept.rows[k][c].value.Num?;
    assert Col(sel, c)[k] == kept.rows[k][c];
    ClipImputeFills(Col(sel, c), ty[c], std, k);
  }

  /** Every cell of the categorical part is present after the mode imputation. */
  lemma CategoricalComplete(f: Frame)
    requires WellFormed(f) && ImputeCategorical(f).Ok?
    ensures Complete(ImputeCategorical(f).value)
  {
    var g := ImputeCategorical(f).value;
    forall i, c | 0 <= i < |g.rows| && c in g.columns ensures g.rows[i][c].Some? {
      assert Col(g, c)[i] == g.rows[i][c];
    }
  }

  /** Every cell of the continuous part is present. */
  lemma ContinuousPartComplete(raw: Table, std: seq<real> -> real)
    requires WellTyped(raw) && NumbersSurvive(raw)
    ensures Complete(ContinuousPart(raw, std))
  {
    forall i, c | 0 <= i < |ContinuousPart(raw, std).rows| && c in ContinuousPart(raw, std).columns
      ensures ContinuousPart(raw, std).rows[i][c].Some?
    {
      ContinuousComplete(raw, std, i, c);
    }
  }

  /** The scaler keeps every cell of a complete table present. */
  lemma ScaledComplete(f: Frame)
    requires WellFormed(f) && Scale(f).Ok?
    requires Complete(f)
    ensures Complete(Scale(f).value)
  {
    forall i, c | 0 <= i < |f.rows| && c in f.columns ensures Scale(f).value.rows[i][c].Some? {
      assert Col(f, c)[i] == f.rows[i][c];
    }
  }

  /** Adding bin_source to the concat of two complete parts leaves only bin_source to fill. */
  lemma BinComplete(a: Frame, b: Frame)
    requires WellFormed(a) && WellFormed(b) && |a.rows| == |b.rows| && ColumnSet(a) !! ColumnSet(b) && Source in a.columns
    requires Complete(a) && Complete(b)
    ensures var h := AddBinSource(ConcatCols(a, b));
      forall i, c :: 0 <= i < |h.rows| && c in h.columns && c != BinSource ==> h.rows[i][c].Some?
  {
    var h := AddBinSource(ConcatCols(a, b));
    forall i, c | 0 <= i < |h.rows| && c in h.columns && c != BinSource ensures h.rows[i][c].Some? {
      assert c in a.columns || c in b.columns;
    }
  }

  /**
   When every float64/int64 column keeps a number in some surviving row, the
   cleaned table has no missing cell: the categorical columns are mode-filled,
   the continuous ones mean-filled, the scaler keeps every cell present, and
   bin_source is "group1" in every row.
   */
  lemma CleanComplete(raw: Table, std: seq<real> -> real)
    requires WellTyped(raw) && Clean(raw, std).Ok? && NumbersSurvive(raw)
    ensures Complete(Clean(raw, std).value)
  {
    CleanOk(raw, std);
    var cat := CategoricalPart(raw);
    CategoricalComplete(cat);
    ContinuousPartComplete(raw, std);
    ScaledComplete(ContinuousPart(raw, std));
    BinComplete(ImputeCategorical(cat).value, Scale(ContinuousPart(raw, std)).value);
    var out := Clean(raw, std).value;
    forall i | 0 <= i < |out.rows| ensures BinSource in out.rows[i] && out.rows[i][BinSource].Some? {
      CleanRow(raw, std, i);
    }
  }
}
