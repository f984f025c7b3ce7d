/**
 * The product-ranking schema of the exam-preparation pipeline.
 */
module ExamPrepRankingSchema {
  import opened Results
  import opened Frames
  import opened Schemas

  /** product_id an int, revenue and sales_count non-negative, value_bucket one of three labels. */
  function Ranking(): Schema {
    Schema([
      Required("product_id", IntType, []),
      Required("revenue", FloatType, [Ge(0.0)]),
      Required("sales_count", IntType, [Ge(0.0)]),
      Required("value_bucket", StrType, [IsIn(["Low Performer", "Average", "Bestseller"])])], false)
  }

  /** validate_ranking_product_schema: the table back when it conforms, SchemaError otherwise. */
  function ValidateRanking(t: Frame): (r: Result<Frame>)
    ensures r.Ok? <==> Conforms(Ranking(), t)
    ensures r.Ok? ==> r.value == t
    ensures r.Err? ==> r.error == SchemaError
  {
    Validate(Ranking(), t, false)
  }

  /** The four ranking columns are present. */
  predicate HasRankingColumns(t: Frame) {
    && "product_id" in t.columns && "revenue" in t.columns && "sales_count" in t.columns
    && "value_bucket" in t.columns
  }

  /** One ranked product: non-negative revenue and count, one of the three value buckets. */
  predicate GoodRankingRow(t: Frame, i: int)
    requires 0 <= i < |t.rows| && HasRankingColumns(t)
  {
    && Cell(t, i, "product_id").Int?
    && Cell(t, i, "revenue").Real? && Cell(t, i, "revenue").r >= 0.0
    && Cell(t, i, "sales_count").Int? && Cell(t, i, "sales_count").i >= 0
    && Cell(t, i, "value_bucket").Str? && Cell(t, i, "value_bucket").s in ["Low Performer", "Average", "Bestseller"]
  }

  lemma RankingPresent(t: Frame)
    ensures Present(Ranking(), t) <==> HasRankingColumns(t)
  {
    var s := Ranking().columns;
    if Present(Ranking(), t) {
      assert s[0] in s && s[1] in s && s[2] in s && s[3] in s;
    }
    if HasRankingColumns(t) {
      forall spec | spec in s ensures spec.name in t.columns {
      }
    }
  }

  lemma RankingCells0(t: Frame, i: int)
    requires 0 <= i < |t.rows| && HasRankingColumns(t)
    ensures CellConforms(Ranking().columns[0], Cell(t, i, "product_id")) <==> Cell(t, i, "product_id").Int?
    ensures CellConforms(Ranking().columns[1], Cell(t, i, "revenue")) <==> Cell(t, i, "revenue").Real? && Cell(t, i, "revenue").r >= 0.0
    ensures CellConforms(Ranking().columns[2], Cell(t, i, "sales_count")) <==> Cell(t, i, "sales_count").Int? && Cell(t, i, "sales_count").i >= 0
  {
    var s := Ranking().columns;
    CellConformsPlain(s[0], Cell(t, i, "product_id"));
    CellConformsOne(s[1], Cell(t, i, "revenue"), Ge(0.0));
    CellConformsOne(s[2], Cell(t, i, "sales_count"), Ge(0.0));
  }

  lemma RankingCells1(t: Frame, i: int)
    requires 0 <= i < |t.rows| && HasRankingColumns(t)
    ensures CellConforms(Ranking().columns[3], Cell(t, i, "value_bucket")) <==> Cell(t, i, "value_bucket").Str? && Cell(t, i, "value_bucket").s in ["Low Performer", "Average", "Bestseller"]
  {
    var s := Ranking().columns;
    CellConformsOne(s[3], Cell(t, i, "value_bucket"), IsIn(["Low Performer", "Average", "Bestseller"]));
  }

  lemma RankingGoodCells(t: Frame, i: int)
    requires 0 <= i < |t.rows| && HasRankingColumns(t)
    ensures var s := Ranking().columns;
      GoodRankingRow(t, i) <==>
      && CellConforms(s[0], Cell(t, i, "product_id"))
      && CellConforms(s[1], Cell(t, i, "revenue"))
      && CellConforms(s[2], Cell(t, i, "sales_count"))
      && CellConforms(s[3], Cell(t, i, "value_bucket"))
  {
    RankingCells0(t, i);
    RankingCells1(t, i);
  }

  lemma RankingCellsOfRow(t: Frame, i: int)
    requires 0 <= i < |t.rows| && HasRankingColumns(t) && Present(Ranking(), t)
    requires RowConforms(Ranking(), t, i)
    ensures var s := Ranking().columns;
      && CellConforms(s[0], Cell(t, i, "product_id"))
      && CellConforms(s[1], Cell(t, i, "revenue"))
      && CellConforms(s[2], Cell(t, i, "sales_count"))
      && CellConforms(s[3], Cell(t, i, "value_bucket"))
  {
    var s := Ranking().columns;
    RowConformsAt(Ranking(), t, i);
    CellOfRow(Ranking(), t, i, 0);
    CellOfRow(Ranking(), t, i, 1);
    CellOfRow(Ranking(), t, i, 2);
    CellOfRow(Ranking(), t, i, 3);
  }

  lemma RankingRowOfCells(t: Frame, i: int)
    requires 0 <= i < |t.rows| && HasRankingColumns(t) && Present(Ranking(), t)
    requires var s := Ranking().columns;
      && CellConforms(s[0], Cell(t, i, "product_id"))
      && CellConforms(s[1], Cell(t, i, "revenue"))
      && CellConforms(s[2], Cell(t, i, "sales_count"))
      && CellConforms(s[3], Cell(t, i, "value_bucket"))
    ensures RowConforms(Ranking(), t, i)
  {
    var s := Ranking().columns;
    forall k | 0 <= k < |s| ensures CellConforms(s[k], Cell(t, i, s[k].name)) {
      if k == 0 {} else if k == 1 {} else if k == 2 {} else {}
    }
    RowConformsAt(Ranking(), t, i);
  }

  /** Row i passes the schema exactly when GoodRankingRow holds of it. */
  lemma RankingRowSpec(t: Frame, i: int)
    requires 0 <= i < |t.rows| && HasRankingColumns(t)
    ensures Present(Ranking(), t)
    ensures RowConforms(Ranking(), t, i) <==> GoodRankingRow(t, i)
  {
    RankingPresent(t);
    RankingGoodCells(t, i);
    if RowConforms(Ranking(), t, i) {
      RankingCellsOfRow(t, i);
    }
    if GoodRankingRow(t, i) {
      RankingRowOfCells(t, i);
    }
  }

  lemma RankingWholeColumns(t: Frame)
    requires HasRankingColumns(t)
    ensures Present(Ranking(), t)
    ensures forall spec :: spec in Ranking().columns ==> WholeColumnConforms(spec, Col(t, spec.name))
  {
    RankingPresent(t);
  }

  /** The ranking schema accepts a table exactly when the four columns are present and every row is a
      good ranking row. */
  lemma RankingSpec(t: Frame)
    ensures Conforms(Ranking(), t) <==>
      && HasRankingColumns(t)
      && (forall i :: 0 <= i < |t.rows| ==> GoodRankingRow(t, i))
  {
    ConformsByRows(Ranking(), t);
    RankingPresent(t);
    if HasRankingColumns(t) {
      RankingWholeColumns(t);
      forall i | 0 <= i < |t.rows| ensures RowConforms(Ranking(), t, i) <==> GoodRankingRow(t, i) {
        RankingRowSpec(t, i);
      }
    }
  }
}
