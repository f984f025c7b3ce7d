/**
 * The revenue-concentration schema of the exam-preparation pipeline. The region check `len(s) > 0`
 * looks at the length of the whole column, so it demands at least one row.
 */
module ExamPrepRevenueSchema {
  import opened Results
  import opened Frames
  import opened Schemas

  /** region a string (and at least one row), region_revenue non-negative, both shares in [0, 1]. */
  function RevenueConcentration(): Schema {
    Schema([
      Required("region", StrType, [NonEmpty]),
      Required("region_revenue", FloatType, [Ge(0.0)]),
      Required("revenue_share", FloatType, [InRange(0.0, 1.0)]),
      Required("cumulative_share", FloatType, [InRange(0.0, 1.0)])], false)
  }

  /** validate_revenue_concentration_schema: the table back when it conforms, SchemaError otherwise. */
  function ValidateRevenueConcentration(t: Frame): (r: Result<Frame>)
    ensures r.Ok? <==> Conforms(RevenueConcentration(), t)
    ensures r.Ok? ==> r.value == t
    ensures r.Err? ==> r.error == SchemaError
  {
    Validate(RevenueConcentration(), t, false)
  }

  /** The four revenue-concentration columns are present. */
  predicate HasRevenueColumns(t: Frame) {
    && "region" in t.columns && "region_revenue" in t.columns && "revenue_share" in t.columns
    && "cumulative_share" in t.columns
  }

  /** One region: a name, non-negative revenue, a share and a cumulative share in [0, 1]. */
  predicate GoodRevenueRow(t: Frame, i: int)
    requires 0 <= i < |t.rows| && HasRevenueColumns(t)
  {
    && Cell(t, i, "region").Str?
    && Cell(t, i, "region_revenue").Real? && Cell(t, i, "region_revenue").r >= 0.0
    && Cell(t, i, "revenue_share").Real? && 0.0 <= Cell(t, i, "revenue_share").r <= 1.0
    && Cell(t, i, "cumulative_share").Real? && 0.0 <= Cell(t, i, "cumulative_share").r <= 1.0
  }

  lemma RevenuePresent(t: Frame)
    ensures Present(RevenueConcentration(), t) <==> HasRevenueColumns(t)
  {
    var s := RevenueConcentration().columns;
    if Present(RevenueConcentration(), t) {
      assert s[0] in s && s[1] in s && s[2] in s && s[3] in s;
    }
    if HasRevenueColumns(t) {
      forall spec | spec in s ensures spec.name in t.columns {
      }
    }
  }

  lemma RevenueCells0(t: Frame, i: int)
    requires 0 <= i < |t.rows| && HasRevenueColumns(t)
    ensures CellConforms(RevenueConcentration().columns[0], Cell(t, i, "region")) <==> Cell(t, i, "region").Str?
    ensures CellConforms(RevenueConcentration().columns[1], Cell(t, i, "region_revenue")) <==> Cell(t, i, "region_revenue").Real? && Cell(t, i, "region_revenue").r >= 0.0
    ensures CellConforms(RevenueConcentration().columns[2], Cell(t, i, "revenue_share")) <==> Cell(t, i, "revenue_share").Real? && 0.0 <= Cell(t, i, "revenue_share").r <= 1.0
  {
    var s := RevenueConcentration().columns;
    CellConformsPlain(s[0], Cell(t, i, "region"));
    CellConformsOne(s[1], Cell(t, i, "region_revenue"), Ge(0.0));
    CellConformsOne(s[2], Cell(t, i, "revenue_share"), InRange(0.0, 1.0));
  }

  lemma RevenueCells1(t: Frame, i: int)
    requires 0 <= i < |t.rows| && HasRevenueColumns(t)
    ensures CellConforms(RevenueConcentration().columns[3], Cell(t, i, "cumulative_share")) <==> Cell(t, i, "cumulative_share").Real? && 0.0 <= Cell(t, i, "cumulative_share").r <= 1.0
  {
    var s := RevenueConcentration().columns;
    CellConformsOne(s[3], Cell(t, i, "cumulative_share"), InRange(0.0, 1.0));
  }

  lemma RevenueGoodCells(t: Frame, i: int)
    requires 0 <= i < |t.rows| && HasRevenueColumns(t)
    ensures var s := RevenueConcentration().columns;
      GoodRevenueRow(t, i) <==>
      && CellConforms(s[0], Cell(t, i, "region"))
      && CellConforms(s[1], Cell(t, i, "region_revenue"))
      && CellConforms(s[2], Cell(t, i, "revenue_share"))
      && CellConforms(s[3], Cell(t, i, "cumulative_share"))
  {
    RevenueCells0(t, i);
    RevenueCells1(t, i);
  }

  lemma RevenueCellsOfRow(t: Frame, i: int)
    requires 0 <= i < |t.rows| && HasRevenueColumns(t) && Present(RevenueConcentration(), t)
    requires RowConforms(RevenueConcentration(), t, i)
    ensures var s := RevenueConcentration().columns;
      && CellConforms(s[0], Cell(t, i, "region"))
      && CellConforms(s[1], Cell(t, i, "region_revenue"))
      && CellConforms(s[2], Cell(t, i, "revenue_share"))
      && CellConforms(s[3], Cell(t, i, "cumulative_share"))
  {
    var s := RevenueConcentration().columns;
    RowConformsAt(RevenueConcentration(), t, i);
    CellOfRow(RevenueConcentration(), t, i, 0);
    CellOfRow(RevenueConcentration(), t, i, 1);
    CellOfRow(RevenueConcentration(), t, i, 2);
    CellOfRow(RevenueConcentration(), t, i, 3);
  }

  lemma RevenueRowOfCells(t: Frame, i: int)
    requires 0 <= i < |t.rows| && HasRevenueColumns(t) && Present(RevenueConcentration(), t)
    requires var s := RevenueConcentration().columns;
      && CellConforms(s[0], Cell(t, i, "region"))
      && CellConforms(s[1], Cell(t, i, "region_revenue"))
      && CellConforms(s[2], Cell(t, i, "revenue_share"))
      && CellConforms(s[3], Cell(t, i, "cumulative_share"))
    ensures RowConforms(RevenueConcentration(), t, i)
  {
    var s := RevenueConcentration().columns;
    forall k | 0 <= k < |s| ensures CellConforms(s[k], Cell(t, i, s[k].name)) {
      if k == 0 {} else if k == 1 {} else if k == 2 {} else {}
    }
    RowConformsAt(RevenueConcentration(), t, i);
  }

  /** Row i passes the schema exactly when GoodRevenueRow holds of it. */
  lemma RevenueRowSpec(t: Frame, i: int)
    requires 0 <= i < |t.rows| && HasRevenueColumns(t)
    ensures Present(RevenueConcentration(), t)
    ensures RowConforms(RevenueConcentration(), t, i) <==> GoodRevenueRow(t, i)
  {
    RevenuePresent(t);
    RevenueGoodCells(t, i);
    if RowConforms(RevenueConcentration(), t, i) {
      RevenueCellsOfRow(t, i);
    }
    if GoodRevenueRow(t, i) {
      RevenueRowOfCells(t, i);
    }
  }

  lemma RevenueWholeColumns(t: Frame)
    requires HasRevenueColumns(t)
    ensures Present(RevenueConcentration(), t)
    ensures (forall spec :: spec in RevenueConcentration().columns ==> WholeColumnConforms(spec, Col(t, spec.name)))
      <==> |t.rows| > 0
  {
    RevenuePresent(t);
    var s := RevenueConcentration().columns;
    assert s[0] in s;
  }

  /** The schema accepts a table exactly when the four columns are present, it has at least one row
      and every row is a good revenue row. */
  lemma RevenueSpec(t: Frame)
    ensures Conforms(RevenueConcentration(), t) <==>
      && HasRevenueColumns(t)
      && (forall i :: 0 <= i < |t.rows| ==> GoodRevenueRow(t, i))
      && |t.rows| > 0
  {
    ConformsByRows(RevenueConcentration(), t);
    RevenuePresent(t);
    if HasRevenueColumns(t) {
      RevenueWholeColumns(t);
      forall i | 0 <= i < |t.rows| ensures RowConforms(RevenueConcentration(), t, i) <==> GoodRevenueRow(t, i) {
        RevenueRowSpec(t, i);
      }
    }
  }

  /** A running share above 1 fails the schema. */
  lemma CumulativeShareAboveOneRejected(t: Frame, i: int)
    requires HasRevenueColumns(t) && 0 <= i < |t.rows|
    requires Cell(t, i, "cumulative_share").Real? && Cell(t, i, "cumulative_share").r > 1.0
    ensures ValidateRevenueConcentration(t) == Err(SchemaError)
  {
    RevenueSpec(t);
    assert !GoodRevenueRow(t, i);
  }
}
