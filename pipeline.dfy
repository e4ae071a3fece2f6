/**
 The two stages one after the other: what the encoding stage can rely on
 when its input is a table the cleaning stage produced.
 */
module Pipeline {
  import opened Frames
  import opened Helpers
  import opened Cleaning
  import opened Encoding

  /** Cleaning only removes columns and adds bin_source, so plain names stay plain. */
  lemma CleanNamesOnly(raw: Table, std: seq<real> -> real)
    requires WellTyped(raw) && NamesOnly(raw.frame) && Clean(raw, std).Ok?
    ensures NamesOnly(Clean(raw, std).value)
  {
    CleanColumnSet(raw, std);
  }

  /**
   The cleaned table holds every column the encoding stage names: date_part
   and the six `Vars` are cast to object and so kept, and bin_source is added.
   */
  lemma CleanNamed(raw: Table, std: seq<real> -> real)
    requires WellTyped(raw) && Clean(raw, std).Ok?
    ensures Named(Clean(raw, std).value) && LeadIndicator in Clean(raw, std).value.columns
  {
    CleanOk(raw, std);
    CleanColumnSet(raw, std);
    KeptNamed(Clean(raw, std).value, raw);
  }

  lemma KeptNamed(out: Frame, raw: Table)
    requires WellTyped(raw) && RequiredColumns <= ColumnSet(raw.frame)
    requires forall c :: c in out.columns <==>
      c == BinSource || (c in raw.frame.columns && c !in DroppedColumns && CleanTypes(raw.dtype)[c] != Other)
    ensures Named(out) && LeadIndicator in out.columns
  {
    NamedNotDropped();
    var ty := CleanTypes(raw.dtype);
    assert forall c :: c in NamedColumns ==> c in raw.frame.columns && ty[c] == Object;
  }

  /** The seven columns the cleaning stage keeps by name. */
  const NamedColumns: set<ColName> := {DatePart, LeadId, LeadIndicator, CustomerGroup, Onboarding, Source, CustomerCode}

  lemma NamedNotDropped()
    ensures NamedColumns !! DroppedColumns
  {
  }

  /** Every cleaned row has source "signup" and bin_source "group1". */
  lemma CleanSourceColumns(raw: Table, std: seq<real> -> real)
    requires WellTyped(raw) && Clean(raw, std).Ok?
    ensures var out := Clean(raw, std).value;
      && Source in out.columns && BinSource in out.columns
      && (forall i :: 0 <= i < |out.rows| ==> Col(out, Source)[i] == Some(Str("signup")))
      && (forall i :: 0 <= i < |out.rows| ==> Col(out, BinSource)[i] == Some(Str("group1")))
  {
    var out := Clean(raw, std).value;
    CleanNamed(raw, std);
    assert BinSource in out.columns by {
      CleanColumnSet(raw, std);
    }
    forall i | 0 <= i < |out.rows|
      ensures Col(out, Source)[i] == Some(Str("signup")) && Col(out, BinSource)[i] == Some(Str("group1"))
    {
      CleanRow(raw, std, i);
    }
  }

  /**
   Encoding a cleaned table never meets a missing column: it succeeds exactly
   when the cells it casts as they are parse as floats, and otherwise fails
   with NotFloat.
   */
  lemma CleanThenEncode(raw: Table, std: seq<real> -> real, parse: string -> Option<real>)
    requires WellTyped(raw) && NamesOnly(raw.frame) && Clean(raw, std).Ok?
    ensures var out := Clean(raw, std).value;
      && NamesOnly(out)
      && (Encode(out, parse).Ok? <==> Castable(out, parse))
      && (Encode(out, parse).Err? ==> Encode(out, parse).error == NotFloat)
  {
    var out := Clean(raw, std).value;
    CleanNamesOnly(raw, std);
    CleanNamed(raw, std);
    EncodeOk(out, parse);
  }

  /**
   When every float64/int64 column keeps a number in some surviving row, the
   features and the labels built from the cleaned table have no missing
   value.
   */
  lemma CleanThenEncodeComplete(raw: Table, std: seq<real> -> real, parse: string -> Option<real>)
    requires WellTyped(raw) && NamesOnly(raw.frame) && Clean(raw, std).Ok? && NumbersSurvive(raw)
    ensures var out := Clean(raw, std).value;
      && NamesOnly(out)
      && (Encode(out, parse).Ok? ==>
            && Complete(Encode(out, parse).value.x)
            && forall i :: 0 <= i < |Encode(out, parse).value.y| ==> Encode(out, parse).value.y[i].Some?)
  {
    var out := Clean(raw, std).value;
    CleanNamesOnly(raw, std);
    CleanComplete(raw, std);
    if Encode(out, parse).Ok? {
      EncodeComplete(out, parse);
    }
  }

  /**
   On a cleaned table the drop-first encoding of source and bin_source makes
   no column: each holds a single value, the level that is dropped.  Every
   indicator of X belongs to customer_group or onboarding.
   */
  lemma CleanedIndicators(raw: Table, std: seq<real> -> real, parse: string -> Option<real>)
    requires WellTyped(raw) && NamesOnly(raw.frame) && Clean(raw, std).Ok?
    ensures var out := Clean(raw, std).value;
      && NamesOnly(out)
      && (Encode(out, parse).Ok? ==> forall n :: n in Encode(out, parse).value.x.columns && n.Dummy? ==>
            n.prefix == CustomerGroup || n.prefix == Onboarding)
  {
    var out := Clean(raw, std).value;
    CleanNamesOnly(raw, std);
    CleanNamed(raw, std);
    CleanSourceColumns(raw, std);
    ConstantSourceIndicators(out, parse);
  }

  /** With source and bin_source constant, X's indicators are those of customer_group and onboarding. */
  lemma ConstantSourceIndicators(f: Frame, parse: string -> Option<real>)
    requires WellFormed(f) && NamesOnly(f) && Named(f)
    requires forall i :: 0 <= i < |f.rows| ==> Col(f, Source)[i] == Some(Str("signup"))
    requires forall i :: 0 <= i < |f.rows| ==> Col(f, BinSource)[i] == Some(Str("group1"))
    ensures Encode(f, parse).Ok? ==> forall n :: n in Encode(f, parse).value.x.columns && n.Dummy? ==>
      n.prefix == CustomerGroup || n.prefix == Onboarding
  {
    if Encode(f, parse).Ok? {
      var dn := DummyNames(f, CatCols);
      EncodeColumns(f, parse);
      assert forall n :: n in dn ==> n.prefix == CustomerGroup || n.prefix == Onboarding by {
        DummyNamesMembers(f, CatCols);
        ConstantColumnNoLevels(Col(f, Source), Str("signup"));
        ConstantColumnNoLevels(Col(f, BinSource), Str("group1"));
        IndicatorPrefixes(f, dn);
      }
    }
  }

  lemma IndicatorPrefixes(f: Frame, dn: seq<ColName>)
    requires WellFormed(f) && Named(f)
    requires forall n :: n in dn ==>
      (n.Dummy? && n.prefix in CatCols && n.prefix in f.columns && n.level in EncodedLevels(Col(f, n.prefix)))
    requires EncodedLevels(Col(f, Source)) == [] && EncodedLevels(Col(f, BinSource)) == []
    ensures forall n :: n in dn ==> n.prefix == CustomerGroup || n.prefix == Onboarding
  {
  }
}
