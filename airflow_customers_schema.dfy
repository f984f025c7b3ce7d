/**
 * The customer schemas of the Airflow exercise pipeline: dtypes before cleaning; after it, a positive
 * unique customer_id, a name of at most 100 characters and an email of the form local@domain.tld.
 */
module AirflowCustomersSchema {
  import opened Results
  import opened Frames
  import opened Schemas
  import Patterns

  /** The raw customer columns and their dtypes; customer_id unique. */
  function PreCustomers(): Schema {
    Schema([
      ColumnSpec("customer_id", IntType, false, true, false, []),
      Required("name", StrType, []),
      Required("email", StrType, []),
      Required("signup_date", DateType, [])], false)
  }

  /** The cleaned customer columns with their value checks. */
  function PostCustomers(): Schema {
    Schema([
      ColumnSpec("customer_id", IntType, false, true, false, [Gt(0.0)]),
      Required("name", StrType, [StrLength(Some(0), Some(100))]),
      Required("email", StrType, [Check.Matches(Patterns.EmailStrictTld)]),
      Required("signup_date", DateType, [])], false)
  }

  /** validate_pre_customers_schema: the table back when it conforms; the SchemaError escapes the handler otherwise. */
  function ValidatePreCustomers(t: Frame): (r: Result<Frame>)
    ensures r.Ok? <==> Conforms(PreCustomers(), t)
    ensures r.Ok? ==> r.value == t
    ensures r.Err? ==> r.error == SchemaError
  {
    PreValidate(PreCustomers(), t)
  }

  /** validate_post_customers_schema: the table back when it conforms, SchemaError otherwise. */
  function ValidatePostCustomers(t: Frame): (r: Result<Frame>)
    ensures r.Ok? <==> Conforms(PostCustomers(), t)
    ensures r.Ok? ==> r.value == t
    ensures r.Err? ==> r.error == SchemaError
  {
    Validate(PostCustomers(), t, false)
  }

  /** All four customer columns are present. */
  predicate HasCustomerColumns(t: Frame) {
    && "customer_id" in t.columns && "name" in t.columns && "email" in t.columns
    && "signup_date" in t.columns
  }

  /** One raw customer row with every cell of its column's dtype. */
  predicate TypedCustomerRow(t: Frame, i: int)
    requires 0 <= i < |t.rows| && HasCustomerColumns(t)
  {
    && Cell(t, i, "customer_id").Int?
    && Cell(t, i, "name").Str?
    && Cell(t, i, "email").Str?
    && Cell(t, i, "signup_date").Date?
  }

  lemma PreCustomersPresent(t: Frame)
    ensures Present(PreCustomers(), t) <==> HasCustomerColumns(t)
  {
    var s := PreCustomers().columns;
    if Present(PreCustomers(), t) {
      assert s[0] in s && s[1] in s && s[2] in s && s[3] in s;
    }
    if HasCustomerColumns(t) {
      forall spec | spec in s ensures spec.name in t.columns {
      }
    }
  }

  lemma PreCustomersCells0(t: Frame, i: int)
    requires 0 <= i < |t.rows| && HasCustomerColumns(t)
    ensures CellConforms(PreCustomers().columns[0], Cell(t, i, "customer_id")) <==> Cell(t, i, "customer_id").Int?
    ensures CellConforms(PreCustomers().columns[1], Cell(t, i, "name")) <==> Cell(t, i, "name").Str?
    ensures CellConforms(PreCustomers().columns[2], Cell(t, i, "email")) <==> Cell(t, i, "email").Str?
  {
    var s := PreCustomers().columns;
    CellConformsPlain(s[0], Cell(t, i, "customer_id"));
    CellConformsPlain(s[1], Cell(t, i, "name"));
    CellConformsPlain(s[2], Cell(t, i, "email"));
  }

  lemma PreCustomersCells1(t: Frame, i: int)
    requires 0 <= i < |t.rows| && HasCustomerColumns(t)
    ensures CellConforms(PreCustomers().columns[3], Cell(t, i, "signup_date")) <==> Cell(t, i, "signup_date").Date?
  {
    var s := PreCustomers().columns;
    CellConformsPlain(s[3], Cell(t, i, "signup_date"));
  }

  lemma PreCustomersGoodCells(t: Frame, i: int)
    requires 0 <= i < |t.rows| && HasCustomerColumns(t)
    ensures var s := PreCustomers().columns;
      TypedCustomerRow(t, i) <==>
      && CellConforms(s[0], Cell(t, i, "customer_id"))
      && CellConforms(s[1], Cell(t, i, "name"))
      && CellConforms(s[2], Cell(t, i, "email"))
      && CellConforms(s[3], Cell(t, i, "signup_date"))
  {
    PreCustomersCells0(t, i);
    PreCustomersCells1(t, i);
  }

  lemma PreCustomersCellsOfRow(t: Frame, i: int)
    requires 0 <= i < |t.rows| && HasCustomerColumns(t) && Present(PreCustomers(), t)
    requires RowConforms(PreCustomers(), t, i)
    ensures var s := PreCustomers().columns;
      && CellConforms(s[0], Cell(t, i, "customer_id"))
      && CellConforms(s[1], Cell(t, i, "name"))
      && CellConforms(s[2], Cell(t, i, "email"))
      && CellConforms(s[3], Cell(t, i, "signup_date"))
  {
    var s := PreCustomers().columns;
    RowConformsAt(PreCustomers(), t, i);
    CellOfRow(PreCustomers(), t, i, 0);
    CellOfRow(PreCustomers(), t, i, 1);
    CellOfRow(PreCustomers(), t, i, 2);
    CellOfRow(PreCustomers(), t, i, 3);
  }

  lemma PreCustomersRowOfCells(t: Frame, i: int)
    requires 0 <= i < |t.rows| && HasCustomerColumns(t) && Present(PreCustomers(), t)
    requires var s := PreCustomers().columns;
      && CellConforms(s[0], Cell(t, i, "customer_id"))
      && CellConforms(s[1], Cell(t, i, "name"))
      && CellConforms(s[2], Cell(t, i, "email"))
      && CellConforms(s[3], Cell(t, i, "signup_date"))
    ensures RowConforms(PreCustomers(), t, i)
  {
    var s := PreCustomers().columns;
    forall k | 0 <= k < |s| ensures CellConforms(s[k], Cell(t, i, s[k].name)) {
      if k == 0 {} else if k == 1 {} else if k == 2 {} else {}
    }
    RowConformsAt(PreCustomers(), t, i);
  }

  /** Row i passes the schema exactly when TypedCustomerRow holds of it. */
  lemma PreCustomersRowSpec(t: Frame, i: int)
    requires 0 <= i < |t.rows| && HasCustomerColumns(t)
    ensures Present(PreCustomers(), t)
    ensures RowConforms(PreCustomers(), t, i) <==> TypedCustomerRow(t, i)
  {
    PreCustomersPresent(t);
    PreCustomersGoodCells(t, i);
    if RowConforms(PreCustomers(), t, i) {
      PreCustomersCellsOfRow(t, i);
    }
    if TypedCustomerRow(t, i) {
      PreCustomersRowOfCells(t, i);
    }
  }

  lemma PreCustomersWholeColumns(t: Frame)
    requires HasCustomerColumns(t)
    ensures Present(PreCustomers(), t)
    ensures (forall spec :: spec in PreCustomers().columns ==> WholeColumnConforms(spec, Col(t, spec.name)))
      <==> Distinct(Col(t, "customer_id"))
  {
    PreCustomersPresent(t);
    var s := PreCustomers().columns;
    assert s[0] in s;
  }

  /** The pre schema accepts a table exactly when the four columns are present, every cell has its
      column's dtype and customer_id is unique. */
  lemma PreCustomersSpec(t: Frame)
    ensures Conforms(PreCustomers(), t) <==>
      && HasCustomerColumns(t)
      && (forall i :: 0 <= i < |t.rows| ==> TypedCustomerRow(t, i))
      && Distinct(Col(t, "customer_id"))
  {
    ConformsByRows(PreCustomers(), t);
    PreCustomersPresent(t);
    if HasCustomerColumns(t) {
      PreCustomersWholeColumns(t);
      forall i | 0 <= i < |t.rows| ensures RowConforms(PreCustomers(), t, i) <==> TypedCustomerRow(t, i) {
        PreCustomersRowSpec(t, i);
      }
    }
  }

  /** One cleaned customer row: positive id, a name of at most 100 characters, a well-formed email, a date. */
  predicate GoodCustomerRow(t: Frame, i: int)
    requires 0 <= i < |t.rows| && HasCustomerColumns(t)
  {
    && Cell(t, i, "customer_id").Int? && Cell(t, i, "customer_id").i > 0
    && Cell(t, i, "name").Str? && 0 <= |Cell(t, i, "name").s| <= 100
    && Cell(t, i, "email").Str? && Patterns.Matches(Patterns.EmailStrictTld, Cell(t, i, "email").s)
    && Cell(t, i, "signup_date").Date?
  }

  lemma PostCustomersPresent(t: Frame)
    ensures Present(PostCustomers(), t) <==> HasCustomerColumns(t)
  {
    var s := PostCustomers().columns;
    if Present(PostCustomers(), t) {
      assert s[0] in s && s[1] in s && s[2] in s && s[3] in s;
    }
    if HasCustomerColumns(t) {
      forall spec | spec in s ensures spec.name in t.columns {
      }
    }
  }

  lemma PostCustomersCells0(t: Frame, i: int)
    requires 0 <= i < |t.rows| && HasCustomerColumns(t)
    ensures CellConforms(PostCustomers().columns[0], Cell(t, i, "customer_id")) <==> Cell(t, i, "customer_id").Int? && Cell(t, i, "customer_id").i > 0
    ensures CellConforms(PostCustomers().columns[1], Cell(t, i, "name")) <==> Cell(t, i, "name").Str? && 0 <= |Cell(t, i, "name").s| <= 100
    ensures CellConforms(PostCustomers().columns[2], Cell(t, i, "email")) <==> Cell(t, i, "email").Str? && Patterns.Matches(Patterns.EmailStrictTld, Cell(t, i, "email").s)
  {
    var s := PostCustomers().columns;
    CellConformsOne(s[0], Cell(t, i, "customer_id"), Gt(0.0));
    CellConformsOne(s[1], Cell(t, i, "name"), StrLength(Some(0), Some(100)));
    CellConformsOne(s[2], Cell(t, i, "email"), Check.Matches(Patterns.EmailStrictTld));
  }

  lemma PostCustomersCells1(t: Frame, i: int)
    requires 0 <= i < |t.rows| && HasCustomerColumns(t)
    ensures CellConforms(PostCustomers().columns[3], Cell(t, i, "signup_date")) <==> Cell(t, i, "signup_date").Date?
  {
    var s := PostCustomers().columns;
    CellConformsPlain(s[3], Cell(t, i, "signup_date"));
  }

  lemma PostCustomersGoodCells(t: Frame, i: int)
    requires 0 <= i < |t.rows| && HasCustomerColumns(t)
    ensures var s := PostCustomers().columns;
      GoodCustomerRow(t, i) <==>
      && CellConforms(s[0], Cell(t, i, "customer_id"))
      && CellConforms(s[1], Cell(t, i, "name"))
      && CellConforms(s[2], Cell(t, i, "email"))
      && CellConforms(s[3], Cell(t, i, "signup_date"))
  {
    PostCustomersCells0(t, i);
    PostCustomersCells1(t, i);
  }

  lemma PostCustomersCellsOfRow(t: Frame, i: int)
    requires 0 <= i < |t.rows| && HasCustomerColumns(t) && Present(PostCustomers(), t)
    requires RowConforms(PostCustomers(), t, i)
    ensures var s := PostCustomers().columns;
      && CellConforms(s[0], Cell(t, i, "customer_id"))
      && CellConforms(s[1], Cell(t, i, "name"))
      && CellConforms(s[2], Cell(t, i, "email"))
      && CellConforms(s[3], Cell(t, i, "signup_date"))
  {
    var s := PostCustomers().columns;
    RowConformsAt(PostCustomers(), t, i);
    CellOfRow(PostCustomers(), t, i, 0);
    CellOfRow(PostCustomers(), t, i, 1);
    CellOfRow(PostCustomers(), t, i, 2);
    CellOfRow(PostCustomers(), t, i, 3);
  }

  lemma PostCustomersRowOfCells(t: Frame, i: int)
    requires 0 <= i < |t.rows| && HasCustomerColumns(t) && Present(PostCustomers(), t)
    requires var s := PostCustomers().columns;
      && CellConforms(s[0], Cell(t, i, "customer_id"))
      && CellConforms(s[1], Cell(t, i, "name"))
      && CellConforms(s[2], Cell(t, i, "email"))
      && CellConforms(s[3], Cell(t, i, "signup_date"))
    ensures RowConforms(PostCustomers(), t, i)
  {
    var s := PostCustomers().columns;
    forall k | 0 <= k < |s| ensures CellConforms(s[k], Cell(t, i, s[k].name)) {
      if k == 0 {} else if k == 1 {} else if k == 2 {} else {}
    }
    RowConformsAt(PostCustomers(), t, i);
  }

  /** Row i passes the schema exactly when GoodCustomerRow holds of it. */
  lemma PostCustomersRowSpec(t: Frame, i: int)
    requires 0 <= i < |t.rows| && HasCustomerColumns(t)
    ensures Present(PostCustomers(), t)
    ensures RowConforms(PostCustomers(), t, i) <==> GoodCustomerRow(t, i)
  {
    PostCustomersPresent(t);
    PostCustomersGoodCells(t, i);
    if RowConforms(PostCustomers(), t, i) {
      PostCustomersCellsOfRow(t, i);
    }
    if GoodCustomerRow(t, i) {
      PostCustomersRowOfCells(t, i);
    }
  }

  lemma PostCustomersWholeColumns(t: Frame)
    requires HasCustomerColumns(t)
    ensures Present(PostCustomers(), t)
    ensures (forall spec :: spec in PostCustomers().columns ==> WholeColumnConforms(spec, Col(t, spec.name)))
      <==> Distinct(Col(t, "customer_id"))
  {
    PostCustomersPresent(t);
    var s := PostCustomers().columns;
    assert s[0] in s;
  }

  /** The post schema accepts a table exactly when the four columns are present, every row is a good
      customer row and customer_id is unique. */
  lemma PostCustomersSpec(t: Frame)
    ensures Conforms(PostCustomers(), t) <==>
      && HasCustomerColumns(t)
      && (forall i :: 0 <= i < |t.rows| ==> GoodCustomerRow(t, i))
      && Distinct(Col(t, "customer_id"))
  {
    ConformsByRows(PostCustomers(), t);
    PostCustomersPresent(t);
    if HasCustomerColumns(t) {
      PostCustomersWholeColumns(t);
      forall i | 0 <= i < |t.rows| ensures RowConforms(PostCustomers(), t, i) <==> GoodCustomerRow(t, i) {
        PostCustomersRowSpec(t, i);
      }
    }
  }
}
