/**
 * The seasonal-pattern schema of the exam-preparation pipeline.
 */
module ExamPrepSeasonalSchema {
  import opened Results
  import opened Frames
  import opened Schemas

  /** quarter and category strings, total_sales non-negative. */
  function SeasonalPattern(): Schema {
    Schema([
      Required("quarter", StrType, []),
      Required("category", StrType, []),
      Required("total_sales", FloatType, [Ge(0.0)])], false)
  }

  /** validate_output_seasonal_sales_pattern_schema: the table back when it conforms, SchemaError otherwise. */
  function ValidateSeasonalPattern(t: Frame): (r: Result<Frame>)
    ensures r.Ok? <==> Conforms(SeasonalPattern(), t)
    ensures r.Ok? ==> r.value == t
    ensures r.Err? ==> r.error == SchemaError
  {
    Validate(SeasonalPattern(), t, false)
  }

  /** The three seasonal columns are present. */
  predicate HasSeasonalColumns(t: Frame) {
    && "quarter" in t.columns && "category" in t.columns && "total_sales" in t.columns
  }

  /** One (quarter, category) pair with non-negative sales. */
  predicate GoodSeasonalRow(t: Frame, i: int)
    requires 0 <= i < |t.rows| && HasSeasonalColumns(t)
  {
    && Cell(t, i, "quarter").Str?
    && Cell(t, i, "category").Str?
    && Cell(t, i, "total_sales").Real? && Cell(t, i, "total_sales").r >= 0.0
  }

  lemma SeasonalPresent(t: Frame)
    ensures Present(SeasonalPattern(), t) <==> HasSeasonalColumns(t)
  {
    var s := SeasonalPattern().columns;
    if Present(SeasonalPattern(), t) {
      assert s[0] in s && s[1] in s && s[2] in s;
    }
    if HasSeasonalColumns(t) {
      forall spec | spec in s ensures spec.name in t.columns {
      }
    }
  }

  lemma SeasonalCells0(t: Frame, i: int)
    requires 0 <= i < |t.rows| && HasSeasonalColumns(t)
    ensures CellConforms(SeasonalPattern().columns[0], Cell(t, i, "quarter")) <==> Cell(t, i, "quarter").Str?
    ensures CellConforms(SeasonalPattern().columns[1], Cell(t, i, "category")) <==> Cell(t, i, "category").Str?
    ensures CellConforms(SeasonalPattern().columns[2], Cell(t, i, "total_sales")) <==> Cell(t, i, "total_sales").Real? && Cell(t, i, "total_sales").r >= 0.0
  {
    var s := SeasonalPattern().columns;
    CellConformsPlain(s[0], Cell(t, i, "quarter"));
    CellConformsPlain(s[1], Cell(t, i, "category"));
    CellConformsOne(s[2], Cell(t, i, "total_sales"), Ge(0.0));
  }

  lemma SeasonalGoodCells(t: Frame, i: int)
    requires 0 <= i < |t.rows| && HasSeasonalColumns(t)
    ensures var s := SeasonalPattern().columns;
      GoodSeasonalRow(t, i) <==>
      && CellConforms(s[0], Cell(t, i, "quarter"))
      && CellConforms(s[1], Cell(t, i, "category"))
      && CellConforms(s[2], Cell(t, i, "total_sales"))
  {
    SeasonalCells0(t, i);
  }

  lemma SeasonalCellsOfRow(t: Frame, i: int)
    requires 0 <= i < |t.rows| && HasSeasonalColumns(t) && Present(SeasonalPattern(), t)
    requires RowConforms(SeasonalPattern(), t, i)
    ensures var s := SeasonalPattern().columns;
      && CellConforms(s[0], Cell(t, i, "quarter"))
      && CellConforms(s[1], Cell(t, i, "category"))
      && CellConforms(s[2], Cell(t, i, "total_sales"))
  {
    var s := SeasonalPattern().columns;
    RowConformsAt(SeasonalPattern(), t, i);
    CellOfRow(SeasonalPattern(), t, i, 0);
    CellOfRow(SeasonalPattern(), t, i, 1);
    CellOfRow(SeasonalPattern(), t, i, 2);
  }

  lemma SeasonalRowOfCells(t: Frame, i: int)
    requires 0 <= i < |t.rows| && HasSeasonalColumns(t) && Present(SeasonalPattern(), t)
    requires var s := SeasonalPattern().columns;
      && CellConforms(s[0], Cell(t, i, "quarter"))
      && CellConforms(s[1], Cell(t, i, "category"))
      && CellConforms(s[2], Cell(t, i, "total_sales"))
    ensures RowConforms(SeasonalPattern(), t, i)
  {
    var s := SeasonalPattern().columns;
    forall k | 0 <= k < |s| ensures CellConforms(s[k], Cell(t, i, s[k].name)) {
      if k == 0 {} else if k == 1 {} else {}
    }
    RowConformsAt(SeasonalPattern(), t, i);
  }

  /** Row i passes the schema exactly when GoodSeasonalRow holds of it. */
  lemma SeasonalRowSpec(t: Frame, i: int)
    requires 0 <= i < |t.rows| && HasSeasonalColumns(t)
    ensures Present(SeasonalPattern(), t)
    ensures RowConforms(SeasonalPattern(), t, i) <==> GoodSeasonalRow(t, i)
  {
    SeasonalPresent(t);
    SeasonalGoodCells(t, i);
    if RowConforms(SeasonalPattern(), t, i) {
      SeasonalCellsOfRow(t, i);
    }
    if GoodSeasonalRow(t, i) {
      SeasonalRowOfCells(t, i);
    }
  }

  lemma SeasonalWholeColumns(t: Frame)
    requires HasSeasonalColumns(t)
    ensures Present(SeasonalPattern(), t)
    ensures forall spec :: spec in SeasonalPattern().columns ==> WholeColumnConforms(spec, Col(t, spec.name))
  {
    SeasonalPresent(t);
  }

  /** The schema accepts a table exactly when the three columns are present and every row is a good
      seasonal row. */
  lemma SeasonalSpec(t: Frame)
    ensures Conforms(SeasonalPattern(), t) <==>
      && HasSeasonalColumns(t)
      && (forall i :: 0 <= i < |t.rows| ==> GoodSeasonalRow(t, i))
  {
    ConformsByRows(SeasonalPattern(), t);
    SeasonalPresent(t);
    if HasSeasonalColumns(t) {
      SeasonalWholeColumns(t);
      forall i | 0 <= i < |t.rows| ensures RowConforms(SeasonalPattern(), t, i) <==> GoodSeasonalRow(t, i) {
        SeasonalRowSpec(t, i);
      }
    }
  }
}
