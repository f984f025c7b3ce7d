/**
 * The strict customers schema of the file-formats exercise. The id check is `>= 0` (its message says
 * "greater than 0"), so an id of 0 passes; uniqueness is a whole-column check.
 */
module FileFormatsCustomers {
  import opened Results
  import opened Frames
  import opened Schemas
  import Patterns

  /** name and email by pattern, customer_id non-negative and unique; no other columns. */
  function Customers(): Schema {
    Schema([
      Required("name", StrType, [Check.Matches(Patterns.PersonName)]),
      Required("email", StrType, [Check.Matches(Patterns.EmailWordTld)]),
      Required("customer_id", IntType, [Ge(0.0), Unique])], true)
  }

  const CustomerColumns: seq<string> := ["name", "email", "customer_id"]

  /** validate_customers_data(df, lazy): the table back when it conforms; otherwise the error
      validate raises, which the `except SchemaError` handler re-raises or does not catch. */
  function ValidateCustomers(t: Frame, lazy: bool): (r: Result<Frame>)
    ensures r.Ok? <==> Conforms(Customers(), t)
    ensures r.Ok? ==> r.value == t
    ensures r.Err? ==> r.error == (if lazy then SchemaErrors else SchemaError)
  {
    Validate(Customers(), t, lazy)
  }

  /** name, email and customer_id are present. */
  predicate HasCustomerColumns(t: Frame) {
    && "name" in t.columns && "email" in t.columns && "customer_id" in t.columns
  }

  /** One customer: a name of letters, blanks, apostrophes and hyphens, an email, a non-negative id. */
  predicate GoodCustomerRow(t: Frame, i: int)
    requires 0 <= i < |t.rows| && HasCustomerColumns(t)
  {
    && Cell(t, i, "name").Str? && Patterns.Matches(Patterns.PersonName, Cell(t, i, "name").s)
    && Cell(t, i, "email").Str? && Patterns.Matches(Patterns.EmailWordTld, Cell(t, i, "email").s)
    && Cell(t, i, "customer_id").Int? && Cell(t, i, "customer_id").i >= 0
  }

  lemma CustomersPresent(t: Frame)
    ensures Present(Customers(), t) <==> HasCustomerColumns(t)
  {
    var s := Customers().columns;
    if Present(Customers(), t) {
      assert s[0] in s && s[1] in s && s[2] in s;
    }
    if HasCustomerColumns(t) {
      forall spec | spec in s ensures spec.name in t.columns {
      }
    }
  }

  lemma CustomersCells0(t: Frame, i: int)
    requires 0 <= i < |t.rows| && HasCustomerColumns(t)
    ensures CellConforms(Customers().columns[0], Cell(t, i, "name")) <==> Cell(t, i, "name").Str? && Patterns.Matches(Patterns.PersonName, Cell(t, i, "name").s)
    ensures CellConforms(Customers().columns[1], Cell(t, i, "email")) <==> Cell(t, i, "email").Str? && Patterns.Matches(Patterns.EmailWordTld, Cell(t, i, "email").s)
    ensures CellConforms(Customers().columns[2], Cell(t, i, "customer_id")) <==> Cell(t, i, "customer_id").Int? && Cell(t, i, "customer_id").i >= 0
  {
    var s := Customers().columns;
    CellConformsOne(s[0], Cell(t, i, "name"), Check.Matches(Patterns.PersonName));
    CellConformsOne(s[1], Cell(t, i, "email"), Check.Matches(Patterns.EmailWordTld));
    CellConformsOne(s[2], Cell(t, i, "customer_id"), Ge(0.0));
  }

  lemma CustomersGoodCells(t: Frame, i: int)
    requires 0 <= i < |t.rows| && HasCustomerColumns(t)
    ensures var s := Customers().columns;
      GoodCustomerRow(t, i) <==>
      && CellConforms(s[0], Cell(t, i, "name"))
      && CellConforms(s[1], Cell(t, i, "email"))
      && CellConforms(s[2], Cell(t, i, "customer_id"))
  {
    CustomersCells0(t, i);
  }

  lemma CustomersCellsOfRow(t: Frame, i: int)
    requires 0 <= i < |t.rows| && HasCustomerColumns(t) && Present(Customers(), t)
    requires RowConforms(Customers(), t, i)
    ensures var s := Customers().columns;
      && CellConforms(s[0], Cell(t, i, "name"))
      && CellConforms(s[1], Cell(t, i, "email"))
      && CellConforms(s[2], Cell(t, i, "customer_id"))
  {
    var s := Customers().columns;
    RowConformsAt(Customers(), t, i);
    CellOfRow(Customers(), t, i, 0);
    CellOfRow(Customers(), t, i, 1);
    CellOfRow(Customers(), t, i, 2);
  }

  lemma CustomersRowOfCells(t: Frame, i: int)
    requires 0 <= i < |t.rows| && HasCustomerColumns(t) && Present(Customers(), t)
    requires var s := Customers().columns;
      && CellConforms(s[0], Cell(t, i, "name"))
      && CellConforms(s[1], Cell(t, i, "email"))
      && CellConforms(s[2], Cell(t, i, "customer_id"))
    ensures RowConforms(Customers(), t, i)
  {
    var s := Customers().columns;
    forall k | 0 <= k < |s| ensures CellConforms(s[k], Cell(t, i, s[k].name)) {
      if k == 0 {} else if k == 1 {} else {}
    }
    RowConformsAt(Customers(), t, i);
  }

  /** Row i passes the schema exactly when GoodCustomerRow holds of it. */
  lemma CustomersRowSpec(t: Frame, i: int)
    requires 0 <= i < |t.rows| && HasCustomerColumns(t)
    ensures Present(Customers(), t)
    ensures RowConforms(Customers(), t, i) <==> GoodCustomerRow(t, i)
  {
    CustomersPresent(t);
    CustomersGoodCells(t, i);
    if RowConforms(Customers(), t, i) {
      CustomersCellsOfRow(t, i);
    }
    if GoodCustomerRow(t, i) {
      CustomersRowOfCells(t, i);
    }
  }

  lemma CustomersWholeColumns(t: Frame)
    requires HasCustomerColumns(t)
    ensures Present(Customers(), t)
    ensures (forall spec :: spec in Customers().columns ==> WholeColumnConforms(spec, Col(t, spec.name)))
      <==> Distinct(Col(t, "customer_id"))
  {
    CustomersPresent(t);
    var s := Customers().columns;
    assert s[2] in s;
  }

  lemma CustomersDeclared(c: string)
    ensures Declared(Customers(), c) <==> c in CustomerColumns
  {
    var s := Customers().columns;
    if c in CustomerColumns {
      if c == "name" {
        assert s[0] in s;
      } else if c == "email" {
        assert s[1] in s;
      } else if c == "customer_id" {
        assert s[2] in s;
      }
    }
  }

  /** The strict schema accepts a table exactly when its columns are among the three and include all
      three, every row is a good customer row and customer_id is unique. */
  lemma CustomersSpec(t: Frame)
    ensures Conforms(Customers(), t) <==>
      && HasCustomerColumns(t)
      && (forall k :: 0 <= k < |t.columns| ==> t.columns[k] in CustomerColumns)
      && (forall i :: 0 <= i < |t.rows| ==> GoodCustomerRow(t, i))
      && Distinct(Col(t, "customer_id"))
  {
    ConformsByRows(Customers(), t);
    CustomersPresent(t);
    forall k | 0 <= k < |t.columns| ensures Declared(Customers(), t.columns[k]) <==> t.columns[k] in CustomerColumns {
      CustomersDeclared(t.columns[k]);
    }
    if HasCustomerColumns(t) {
      CustomersWholeColumns(t);
      forall i | 0 <= i < |t.rows| ensures RowConforms(Customers(), t, i) <==> GoodCustomerRow(t, i) {
        CustomersRowSpec(t, i);
      }
    }
  }

  /** One customer with id 0. */
  function ZeroIdTable(): Frame {
    Table(["name", "email", "customer_id"], [0], [[Str("Ann Lee"), Str("ann@mail.com"), Int(0)]])
  }

  /** The `>= 0` check admits customer id 0. */
  lemma ZeroIdAccepted()
    ensures ValidateCustomers(ZeroIdTable(), true) == Ok(ZeroIdTable())
  {
    var t := ZeroIdTable();
    ZeroIdRow();
    assert t.columns[0] in CustomerColumns && t.columns[1] in CustomerColumns && t.columns[2] in CustomerColumns;
    CustomersSpec(t);
  }

  /** Every row of ZeroIdTable is a good customer row, and its ids are distinct. */
  lemma ZeroIdRow()
    ensures HasCustomerColumns(ZeroIdTable())
    ensures forall i :: 0 <= i < |ZeroIdTable().rows| ==> GoodCustomerRow(ZeroIdTable(), i)
    ensures Distinct(Col(ZeroIdTable(), "customer_id"))
  {
    var t := ZeroIdTable();
    FirstOccurrence(t.columns, "name", 0);
    FirstOccurrence(t.columns, "email", 1);
    FirstOccurrence(t.columns, "customer_id", 2);
    assert Cell(t, 0, "name") == Str("Ann Lee");
    assert Cell(t, 0, "email") == Str("ann@mail.com");
    assert Cell(t, 0, "customer_id") == Int(0);
    assert Patterns.WordTldSplit("ann@mail.com", 3, 8);
    assert Patterns.Matches(Patterns.PersonName, "Ann Lee");
    assert GoodCustomerRow(t, 0);
    assert Col(t, "customer_id") == [Int(0)];
  }

  /** An extra column fails the strict schema whatever the rows hold. */
  lemma ExtraColumnRejected(t: Frame, lazy: bool)
    requires "phone" in t.columns
    ensures ValidateCustomers(t, lazy) == Err(if lazy then SchemaErrors else SchemaError)
  {
    CustomersSpec(t);
    var k :| 0 <= k < |t.columns| && t.columns[k] == "phone";
    assert t.columns[k] !in CustomerColumns;
  }
}
