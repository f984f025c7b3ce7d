/**
 * The transform of the file-formats lab. It works on the frame it is given, one statement at a
 * time: the labels are lower-cased with blanks turned into underscores, order_date is parsed as
 * day-month-year (an unparsable date becomes missing), the missing ids become the sentinel -1, a
 * missing amount becomes 0.0 and a missing quantity 0, the ids and the quantity are cast to int,
 * and total_revenue = amount * quantity is written.
 */
module FileFormatsLabTransform {
  import opened Results
  import opened Text
  import opened Frames
  import opened DataFrames
  import opened Schemas
  import FileFormatsLabSales

  // ----- cells -----

  /** int(x) for a float: the integer part, rounded toward zero. */
  function Truncate(x: real): (n: int)
    ensures x >= 0.0 ==> 0 <= n && n as real <= x < n as real + 1.0
    ensures x < 0.0 ==> n <= 0 && n as real - 1.0 < x <= n as real
  {
    if x >= 0.0 then x.Floor else -((-x).Floor)
  }

  /** A cell `astype(int)` can convert: a number, a bool, a missing cell (filled first) or text that
      int() reads as an integer; not a date, and not other text. */
  predicate IntConvertible(v: Value) {
    !v.Date? && (v.Str? ==> IntNumeral(v.s))
  }

  /** fillna(d).astype(int) on one convertible cell: a missing cell becomes d, a float is truncated,
      a bool becomes 0 or 1, an int stays, a numeral becomes its value. */
  function FilledInt(v: Value, d: int): (r: Value)
    requires IntConvertible(v)
    ensures r.Int?
  {
    match v
    case Null => Int(d)
    case Int(_) => v
    case Real(x) => Int(Truncate(x))
    case Bool(b) => Int(if b then 1 else 0)
    case Str(s) => Int(NumeralValue(s))
  }

  /** fillna(d).astype(int) on a column: ValueError when some cell is a date or text that is not an
      integer numeral. */
  function FilledInts(xs: seq<Value>, d: int): (r: Result<seq<Value>>)
    ensures r.Ok? <==> forall i :: 0 <= i < |xs| ==> IntConvertible(xs[i])
    ensures r.Ok? ==> |r.value| == |xs|
    ensures r.Err? ==> r.error.ValueError?
  {
    if forall i :: 0 <= i < |xs| ==> IntConvertible(xs[i]) then
      Ok(seq(|xs|, i requires 0 <= i < |xs| => FilledInt(xs[i], d)))
    else Err(ValueError("invalid literal for int()"))
  }

  /** fillna(d) on a column: only the missing cells change. */
  function FilledReals(xs: seq<Value>, d: real): (r: seq<Value>)
    ensures |r| == |xs|
  {
    seq(|xs|, i requires 0 <= i < |xs| => if xs[i].Null? then Real(d) else xs[i])
  }

  // ----- transform_data -----

  /** One id or quantity column with its missing cells filled with d and every cell cast to int. */
  function FillIntColumn(t: Frame, name: string, d: int): (r: Result<Frame>)
  {
    if name !in t.columns then Err(KeyError(name))
    else match FilledInts(Col(t, name), d)
      case Err(e) => Err(e)
      case Ok(vs) => Ok(Assign(t, name, vs))
  }

  /** The date statement, on the relabelled frame: order_date parsed day-month-year. */
  function Dated(u: Frame, parse: Parser): (r: Result<Frame>)
  {
    if "order_date" !in u.columns then Err(KeyError("order_date"))
    else Ok(Assign(u, "order_date", ToDates(Col(u, "order_date"), DayMonthYear, parse)))
  }

  /** The statements after the date one: the four fills and the revenue column. */
  function Filled(u: Frame): (r: Result<Frame>)
  {
    match FillIntColumn(u, "order_id", -1)
    case Err(e) => Err(e)
    case Ok(u2) =>
      match FillIntColumn(u2, "customer_id", -1)
      case Err(e) => Err(e)
      case Ok(u3) =>
        if "amount" !in u3.columns then Err(KeyError("amount"))
        else
          var u4 := Assign(u3, "amount", FilledReals(Col(u3, "amount"), 0.0));
          match FillIntColumn(u4, "quantity", 0)
          case Err(e) => Err(e)
          case Ok(u5) =>
            match MulCols(Col(u5, "amount"), Col(u5, "quantity"))
            case Err(e) => Err(e)
            case Ok(revenue) => Ok(Assign(u5, "total_revenue", revenue))
  }

  /** Every statement after the relabelling one. */
  function Processed(u: Frame, parse: Parser): (r: Result<Frame>)
  {
    match Dated(u, parse)
    case Err(e) => Err(e)
    case Ok(u1) => Filled(u1)
  }

  /** What transform_data leaves in the frame, or the exception it raises. */
  function LabTransformed(t: Frame, parse: Parser): (r: Result<Frame>)
  {
    Processed(Relabel(t, LowerLabel), parse)
  }

  /** FillIntColumn written into the caller's frame. */
  method FillIntInPlace(df: DataFrame, name: string, d: int) returns (r: Result<Frame>)
    requires df.Valid()
    modifies df
    ensures df.Valid()
    ensures r == FillIntColumn(old(df.Snapshot()), name, d)
    ensures r.Ok? ==> df.Snapshot() == r.value
  {
    if name !in df.columns {
      return Err(KeyError(name));
    }
    var vs := FilledInts(Col(df.Snapshot(), name), d);
    if vs.Err? {
      return Err(vs.error);
    }
    df.SetColumn(name, vs.value);
    r := Ok(df.Snapshot());
  }

  /** transform_data(df): rewrites the frame in place and returns it. On an error the frame keeps the steps done
      before the raise (its normalised labels at least); that state is left unspecified here, and only
      validity is promised. */
  method TransformData(df: DataFrame, parse: Parser) returns (r: Result<Frame>)
    requires df.Valid()
    modifies df
    ensures df.Valid()
    ensures r == LabTransformed(old(df.Snapshot()), parse)
    ensures r.Ok? ==> df.Snapshot() == r.value
  {
    df.RelabelWith(LowerLabel);
    if "order_date" !in df.columns {
      return Err(KeyError("order_date"));
    }
    df.SetColumn("order_date", ToDates(Col(df.Snapshot(), "order_date"), DayMonthYear, parse));
    var s := FillIntInPlace(df, "order_id", -1);
    if s.Err? {
      return s;
    }
    s := FillIntInPlace(df, "customer_id", -1);
    if s.Err? {
      return s;
    }
    if "amount" !in df.columns {
      return Err(KeyError("amount"));
    }
    df.SetColumn("amount", FilledReals(Col(df.Snapshot(), "amount"), 0.0));
    s := FillIntInPlace(df, "quantity", 0);
    if s.Err? {
      return s;
    }
    var revenue := MulCols(Col(df.Snapshot(), "amount"), Col(df.Snapshot(), "quantity"));
    if revenue.Err? {
      return Err(revenue.error);
    }
    df.SetColumn("total_revenue", revenue.value);
    r := Ok(df.Snapshot());
  }

  // ----- what transform_data promises -----

  /** One fill: it succeeds exactly when the column is there and every cell of it can be cast; it then
      writes the filled cells and keeps the labels and every other column. */
  lemma FillIntStep(t: Frame, name: string, d: int)
    ensures FillIntColumn(t, name, d).Ok? <==>
      name in t.columns && forall i :: 0 <= i < |t.rows| ==> IntConvertible(Cell(t, i, name))
    ensures FillIntColumn(t, name, d).Ok? ==>
      var r := FillIntColumn(t, name, d).value;
      && r.columns == t.columns && KeepsCells(t, r, name)
      && forall i :: 0 <= i < |t.rows| ==> Cell(r, i, name) == FilledInt(Cell(t, i, name), d)
  {
    if name in t.columns {
      var xs := Col(t, name);
      assert forall i :: 0 <= i < |t.rows| ==> xs[i] == Cell(t, i, name);
      if FilledInts(xs, d).Ok? {
        AssignKeeps(t, name, FilledInts(xs, d).value);
      }
    }
  }

  /** The amount fill keeps the labels and every other column and writes FilledAmount of each cell. */
  lemma FillAmountStep(t: Frame)
    requires "amount" in t.columns
    ensures var r := Assign(t, "amount", FilledReals(Col(t, "amount"), 0.0));
      && r.columns == t.columns && KeepsCells(t, r, "amount")
      && forall i :: 0 <= i < |t.rows| ==> Cell(r, i, "amount") == FilledAmount(Cell(t, i, "amount"))
  {
    var xs := Col(t, "amount");
    assert forall i :: 0 <= i < |t.rows| ==> xs[i] == Cell(t, i, "amount");
    AssignKeeps(t, "amount", FilledReals(xs, 0.0));
  }

  /** fillna(0.0) on one amount cell. */
  function FilledAmount(v: Value): (r: Value)
    ensures !r.Null? && (v.Null? ==> r == Real(0.0)) && (!v.Null? ==> r == v)
  {
    if v.Null? then Real(0.0) else v
  }

  /** The four columns the fills read. */
  predicate HasFillColumns(u: Frame) {
    "order_id" in u.columns && "customer_id" in u.columns && "amount" in u.columns && "quantity" in u.columns
  }

  /** Row i has what the casts and the product need. */
  predicate Castable(u: Frame, i: int)
    requires 0 <= i < |u.rows| && HasFillColumns(u)
  {
    && IntConvertible(Cell(u, i, "order_id"))
    && IntConvertible(Cell(u, i, "customer_id"))
    && NumOrNull(Cell(u, i, "amount"))
    && IntConvertible(Cell(u, i, "quantity"))
  }

  /** The fills and the product succeed exactly when the four columns are there and every row is castable. */
  lemma FilledOk(u: Frame)
    ensures Filled(u).Ok? <==> HasFillColumns(u) && forall i :: 0 <= i < |u.rows| ==> Castable(u, i)
  {
    FillIntStep(u, "order_id", -1);
    if FillIntColumn(u, "order_id", -1).Ok? {
      var u2 := FillIntColumn(u, "order_id", -1).value;
      FillIntStep(u2, "customer_id", -1);
      if FillIntColumn(u2, "customer_id", -1).Ok? {
        var u3 := FillIntColumn(u2, "customer_id", -1).value;
        if "amount" in u3.columns {
          FillAmountStep(u3);
          var u4 := Assign(u3, "amount", FilledReals(Col(u3, "amount"), 0.0));
          FillIntStep(u4, "quantity", 0);
          if FillIntColumn(u4, "quantity", 0).Ok? {
            var u5 := FillIntColumn(u4, "quantity", 0).value;
            FilledProductOk(u, u2, u3, u4, u5);
          } else if "quantity" in u4.columns {
            var i :| 0 <= i < |u4.rows| && !IntConvertible(Cell(u4, i, "quantity"));
            assert Cell(u4, i, "quantity") == Cell(u, i, "quantity");
            assert !Castable(u, i);
          }
        }
      } else if HasFillColumns(u) {
        var i :| 0 <= i < |u2.rows| && !IntConvertible(Cell(u2, i, "customer_id"));
        assert Cell(u2, i, "customer_id") == Cell(u, i, "customer_id");
        assert !Castable(u, i);
      }
    } else if HasFillColumns(u) {
      var i :| 0 <= i < |u.rows| && !IntConvertible(Cell(u, i, "order_id"));
      assert !Castable(u, i);
    }
  }

  /** The last step of FilledOk: the product succeeds exactly when every amount is a number or missing. */
  lemma FilledProductOk(u: Frame, u2: Frame, u3: Frame, u4: Frame, u5: Frame)
    requires HasFillColumns(u)
    requires u2.columns == u.columns && KeepsCells(u, u2, "order_id")
    requires u3.columns == u.columns && KeepsCells(u2, u3, "customer_id")
    requires u4.columns == u.columns && KeepsCells(u3, u4, "amount")
    requires u5.columns == u.columns && KeepsCells(u4, u5, "quantity")
    requires forall i :: 0 <= i < |u.rows| ==> IntConvertible(Cell(u, i, "order_id"))
    requires forall i :: 0 <= i < |u.rows| ==> IntConvertible(Cell(u2, i, "customer_id"))
    requires forall i :: 0 <= i < |u.rows| ==> Cell(u4, i, "amount") == FilledAmount(Cell(u3, i, "amount"))
    requires forall i :: 0 <= i < |u.rows| ==> IntConvertible(Cell(u4, i, "quantity"))
    requires forall i :: 0 <= i < |u.rows| ==> Cell(u5, i, "quantity") == FilledInt(Cell(u4, i, "quantity"), 0)
    ensures MulCols(Col(u5, "amount"), Col(u5, "quantity")).Ok? <==> forall i :: 0 <= i < |u.rows| ==> Castable(u, i)
  {
    var a5, q5 := Col(u5, "amount"), Col(u5, "quantity");
    forall i | 0 <= i < |u.rows|
      ensures a5[i] == FilledAmount(Cell(u, i, "amount")) && q5[i].Int?
      ensures Castable(u, i) <==> NumOrNull(Cell(u, i, "amount"))
    {
      assert a5[i] == Cell(u5, i, "amount") && q5[i] == Cell(u5, i, "quantity");
      assert Cell(u3, i, "amount") == Cell(u2, i, "amount") == Cell(u, i, "amount");
      assert Cell(u2, i, "customer_id") == Cell(u, i, "customer_id");
      assert Cell(u4, i, "quantity") == Cell(u3, i, "quantity") == Cell(u2, i, "quantity") == Cell(u, i, "quantity");
    }
    assert AllNumOrNull(q5);
    assert AllNumOrNull(a5) <==> forall i :: 0 <= i < |u.rows| ==> NumOrNull(Cell(u, i, "amount"));
  }

  /** After the fills and the product: the labels gain total_revenue (unless it was there), the rows keep
      their number and labels, each filled column holds its filled cells, total_revenue the product, and
      every other column its old cells. */
  lemma FilledRow(u: Frame, i: int)
    requires Filled(u).Ok? && 0 <= i < |u.rows|
    ensures HasFillColumns(u) && Castable(u, i)
    ensures var r := Filled(u).value;
      && |r.rows| == |u.rows|
      && (forall c :: c in u.columns ==> c in r.columns) && "total_revenue" in r.columns
      && Cell(r, i, "order_id") == FilledInt(Cell(u, i, "order_id"), -1)
      && Cell(r, i, "customer_id") == FilledInt(Cell(u, i, "customer_id"), -1)
      && Cell(r, i, "amount") == FilledAmount(Cell(u, i, "amount"))
      && Cell(r, i, "quantity") == FilledInt(Cell(u, i, "quantity"), 0)
      && Cell(r, i, "total_revenue") == Times(FilledAmount(Cell(u, i, "amount")), FilledInt(Cell(u, i, "quantity"), 0))
      && forall c :: c in u.columns && c !in FillColumns ==> Cell(r, i, c) == Cell(u, i, c)
  {
    FilledOk(u);
    FillIntStep(u, "order_id", -1);
    var u2 := FillIntColumn(u, "order_id", -1).value;
    FillIntStep(u2, "customer_id", -1);
    var u3 := FillIntColumn(u2, "customer_id", -1).value;
    FillAmountStep(u3);
    var u4 := Assign(u3, "amount", FilledReals(Col(u3, "amount"), 0.0));
    FillIntStep(u4, "quantity", 0);
    var u5 := FillIntColumn(u4, "quantity", 0).value;
    var revenue := MulCols(Col(u5, "amount"), Col(u5, "quantity")).value;
    assert Filled(u).value == Assign(u5, "total_revenue", revenue);
    FilledChain(u, u2, u3, u4, u5, i);
    AssignKeeps(u5, "total_revenue", revenue);
    assert revenue[i] == Times(Cell(u5, i, "amount"), Cell(u5, i, "quantity"));
  }

  /** The fills and the product keep the labels, adding total_revenue last when it is new, and keep the
      rows and their index labels. */
  lemma FilledShape(u: Frame)
    requires Filled(u).Ok?
    ensures var r := Filled(u).value;
      && r.columns == u.columns + (if "total_revenue" in u.columns then [] else ["total_revenue"])
      && |r.rows| == |u.rows| && r.index == u.index
  {
    FilledOk(u);
    FillIntStep(u, "order_id", -1);
    var u2 := FillIntColumn(u, "order_id", -1).value;
    FillIntStep(u2, "customer_id", -1);
    var u3 := FillIntColumn(u2, "customer_id", -1).value;
    FillAmountStep(u3);
    var u4 := Assign(u3, "amount", FilledReals(Col(u3, "amount"), 0.0));
    FillIntStep(u4, "quantity", 0);
    var u5 := FillIntColumn(u4, "quantity", 0).value;
    var revenue := MulCols(Col(u5, "amount"), Col(u5, "quantity")).value;
    assert Filled(u).value == Assign(u5, "total_revenue", revenue);
  }

  /** The cells of row i through the four fills. */
  lemma FilledChain(u: Frame, u2: Frame, u3: Frame, u4: Frame, u5: Frame, i: int)
    requires HasFillColumns(u) && 0 <= i < |u.rows|
    requires u2.columns == u.columns && KeepsCells(u, u2, "order_id")
    requires u3.columns == u.columns && KeepsCells(u2, u3, "customer_id")
    requires u4.columns == u.columns && KeepsCells(u3, u4, "amount")
    requires u5.columns == u.columns && KeepsCells(u4, u5, "quantity")
    requires IntConvertible(Cell(u, i, "order_id")) && Cell(u2, i, "order_id") == FilledInt(Cell(u, i, "order_id"), -1)
    requires IntConvertible(Cell(u2, i, "customer_id")) && Cell(u3, i, "customer_id") == FilledInt(Cell(u2, i, "customer_id"), -1)
    requires Cell(u4, i, "amount") == FilledAmount(Cell(u3, i, "amount"))
    requires IntConvertible(Cell(u4, i, "quantity")) && Cell(u5, i, "quantity") == FilledInt(Cell(u4, i, "quantity"), 0)
    ensures Cell(u5, i, "order_id") == FilledInt(Cell(u, i, "order_id"), -1)
    ensures Cell(u5, i, "customer_id") == FilledInt(Cell(u, i, "customer_id"), -1)
    ensures Cell(u5, i, "amount") == FilledAmount(Cell(u, i, "amount"))
    ensures Cell(u5, i, "quantity") == FilledInt(Cell(u, i, "quantity"), 0)
    ensures forall c :: c in u.columns && c !in FillColumns ==> Cell(u5, i, c) == Cell(u, i, c)
  {
    assert Cell(u2, i, "customer_id") == Cell(u, i, "customer_id");
    assert Cell(u3, i, "amount") == Cell(u2, i, "amount") == Cell(u, i, "amount");
    assert Cell(u4, i, "quantity") == Cell(u3, i, "quantity") == Cell(u2, i, "quantity") == Cell(u, i, "quantity");
  }

  /** The columns the fills write, and the one the product writes. */
  const FillColumns := ["order_id", "customer_id", "amount", "quantity", "total_revenue"]

  /** The date statement keeps the labels, rows and every other column, and parses each order_date. */
  lemma DatedStep(u: Frame, parse: Parser)
    requires "order_date" in u.columns
    ensures var u1 := Dated(u, parse).value;
      && u1.columns == u.columns && KeepsCells(u, u1, "order_date")
      && forall i :: 0 <= i < |u.rows| ==> Cell(u1, i, "order_date") == ToDate(Cell(u, i, "order_date"), DayMonthYear, parse)
  {
    var xs := Col(u, "order_date");
    assert forall i :: 0 <= i < |u.rows| ==> xs[i] == Cell(u, i, "order_date");
    AssignKeeps(u, "order_date", ToDates(xs, DayMonthYear, parse));
  }

  /** The five columns transform_data reads. */
  predicate HasLabColumns(u: Frame) {
    "order_date" in u.columns && HasFillColumns(u)
  }

  // The lemmas below are about Processed(u, parse), where u = Relabel(t, LowerLabel) is the frame
  // after transform_data's first statement, so that LabTransformed(t, parse) == Processed(u, parse).

  /** transform_data succeeds exactly when the five columns it reads are there (after relabelling) and
      every row can be cast and multiplied: ids and quantity neither text nor a date, amount a number or
      missing. It then keeps the rows, their order and index labels, and the relabelled columns, adding
      total_revenue last when it is new. */
  lemma LabTransformedOk(u: Frame, parse: Parser)
    ensures Processed(u, parse).Ok? <==> HasLabColumns(u) && forall i :: 0 <= i < |u.rows| ==> Castable(u, i)
    ensures Processed(u, parse).Ok? ==>
      var r := Processed(u, parse).value;
      && |r.rows| == |u.rows| && r.index == u.index
      && r.columns == u.columns + (if "total_revenue" in u.columns then [] else ["total_revenue"])
  {
    if "order_date" in u.columns {
      DatedStep(u, parse);
      var u1 := Dated(u, parse).value;
      assert Processed(u, parse) == Filled(u1);
      DatedFilledOk(u, u1);
    }
  }

  /** LabTransformedOk once order_date has been parsed. */
  lemma DatedFilledOk(u: Frame, u1: Frame)
    requires u1.columns == u.columns && KeepsCells(u, u1, "order_date") && "order_date" in u.columns
    ensures Filled(u1).Ok? <==> HasLabColumns(u) && forall i :: 0 <= i < |u.rows| ==> Castable(u, i)
    ensures Filled(u1).Ok? ==>
      var r := Filled(u1).value;
      && |r.rows| == |u.rows| && r.index == u.index
      && r.columns == u.columns + (if "total_revenue" in u.columns then [] else ["total_revenue"])
  {
    FilledOk(u1);
    if HasFillColumns(u) {
      CastableKept(u, u1);
    }
    if Filled(u1).Ok? {
      FilledShape(u1);
    }
  }

  /** Parsing order_date changes none of the cells the casts read. */
  lemma CastableKept(u: Frame, u1: Frame)
    requires HasFillColumns(u) && u1.columns == u.columns && KeepsCells(u, u1, "order_date")
    ensures HasFillColumns(u1)
    ensures forall i :: 0 <= i < |u.rows| ==> (Castable(u1, i) <==> Castable(u, i))
  {
    forall i | 0 <= i < |u.rows| ensures Castable(u1, i) <==> Castable(u, i) {
      assert Cell(u1, i, "order_id") == Cell(u, i, "order_id");
      assert Cell(u1, i, "customer_id") == Cell(u, i, "customer_id");
      assert Cell(u1, i, "amount") == Cell(u, i, "amount");
      assert Cell(u1, i, "quantity") == Cell(u, i, "quantity");
    }
  }

  /** Row i of what transform_data leaves, against row i of the relabelled input: order_date parsed
      day-month-year (missing when it does not parse); a missing id becomes -1 and a missing quantity 0,
      an int stays and a float is truncated; a missing amount becomes 0.0 and any other amount stays;
      none of the four is missing afterwards; every other column is untouched. */
  lemma LabRow(u: Frame, parse: Parser, i: int)
    requires Processed(u, parse).Ok? && 0 <= i < |u.rows|
    ensures var r := Processed(u, parse).value;
      && HasLabColumns(u) && Castable(u, i) && HasLabColumns(r) && "total_revenue" in r.columns && |r.rows| == |u.rows|
      && Cell(r, i, "order_date") == ToDate(Cell(u, i, "order_date"), DayMonthYear, parse)
      && IdFilled(Cell(u, i, "order_id"), Cell(r, i, "order_id"), -1)
      && IdFilled(Cell(u, i, "customer_id"), Cell(r, i, "customer_id"), -1)
      && IdFilled(Cell(u, i, "quantity"), Cell(r, i, "quantity"), 0)
      && Cell(r, i, "amount") == (if Cell(u, i, "amount").Null? then Real(0.0) else Cell(u, i, "amount"))
      && forall c :: c in u.columns && c != "order_date" && c !in FillColumns ==> Cell(r, i, c) == Cell(u, i, c)
  {
    DatedStep(u, parse);
    var u1 := Dated(u, parse).value;
    assert Processed(u, parse) == Filled(u1);
    FilledRow(u1, i);
    DatedRow(u, u1, Filled(u1).value, i);
  }

  /** total_revenue of what transform_data leaves is never missing: it is the product (Times) of the
      filled amount and the cast quantity of its row. */
  lemma LabRevenue(u: Frame, parse: Parser, i: int)
    requires Processed(u, parse).Ok? && 0 <= i < |u.rows|
    ensures var r := Processed(u, parse).value;
      && "amount" in r.columns && "quantity" in r.columns && "total_revenue" in r.columns && |r.rows| == |u.rows|
      && IsNum(Cell(r, i, "amount")) && Cell(r, i, "quantity").Int? && IsNum(Cell(r, i, "total_revenue"))
      && Cell(r, i, "total_revenue") == Times(Cell(r, i, "amount"), Cell(r, i, "quantity"))
  {
    DatedStep(u, parse);
    var u1 := Dated(u, parse).value;
    assert Processed(u, parse) == Filled(u1);
    FilledRow(u1, i);
  }

  /** LabRow once the fills of the parsed frame are known. */
  lemma DatedRow(u: Frame, u1: Frame, r: Frame, i: int)
    requires u1.columns == u.columns && KeepsCells(u, u1, "order_date") && HasLabColumns(u1) && 0 <= i < |u.rows|
    requires Castable(u1, i) && |r.rows| == |u1.rows| && "total_revenue" in r.columns
    requires forall c :: c in u1.columns ==> c in r.columns
    requires Cell(r, i, "order_id") == FilledInt(Cell(u1, i, "order_id"), -1)
    requires Cell(r, i, "customer_id") == FilledInt(Cell(u1, i, "customer_id"), -1)
    requires Cell(r, i, "amount") == FilledAmount(Cell(u1, i, "amount"))
    requires Cell(r, i, "quantity") == FilledInt(Cell(u1, i, "quantity"), 0)
    requires Cell(r, i, "total_revenue") == Times(FilledAmount(Cell(u1, i, "amount")), FilledInt(Cell(u1, i, "quantity"), 0))
    requires forall c :: c in u1.columns && c !in FillColumns ==> Cell(r, i, c) == Cell(u1, i, c)
    ensures HasLabColumns(r) && HasLabColumns(u) && Castable(u, i)
    ensures IdFilled(Cell(u, i, "order_id"), Cell(r, i, "order_id"), -1)
    ensures IdFilled(Cell(u, i, "customer_id"), Cell(r, i, "customer_id"), -1)
    ensures IdFilled(Cell(u, i, "quantity"), Cell(r, i, "quantity"), 0)
    ensures Cell(r, i, "amount") == (if Cell(u, i, "amount").Null? then Real(0.0) else Cell(u, i, "amount"))
    ensures Cell(r, i, "order_date") == Cell(u1, i, "order_date")
    ensures forall c :: c in u.columns && c != "order_date" && c !in FillColumns ==> Cell(r, i, c) == Cell(u, i, c)
  {
    assert "order_date" !in FillColumns;
    assert Cell(u1, i, "order_id") == Cell(u, i, "order_id");
    assert Cell(u1, i, "customer_id") == Cell(u, i, "customer_id");
    assert Cell(u1, i, "amount") == Cell(u, i, "amount");
    assert Cell(u1, i, "quantity") == Cell(u, i, "quantity");
  }

  /** The cast of one id or quantity cell: an int, the default for a missing cell, the same int for an
      int, the truncated value for a float. */
  predicate IdFilled(before: Value, after: Value, d: int) {
    && after.Int?
    && (before.Null? ==> after.i == d)
    && (before.Int? ==> after == before)
    && (before.Real? ==> after.i == Truncate(before.r))
    && (before.Bool? ==> after.i == if before.b then 1 else 0)
    && (before.Str? && IntNumeral(before.s) ==> after.i == NumeralValue(before.s))
  }

  /** IdFilled pins down the cast of every cell the cast accepts. */
  lemma IdFilledIs(before: Value, after: Value, d: int)
    requires IntConvertible(before) && IdFilled(before, after, d)
    ensures after == FilledInt(before, d)
  {
  }

  // ----- the output against the lab's sales schema -----

  /** A cell whose cast, with a missing cell filled by lo, is at least lo. */
  predicate CastAtLeast(v: Value, lo: int)
    requires IntConvertible(v)
  {
    v.Null? || FilledInt(v, lo).i >= lo
  }

  /** Row i of the relabelled input yields a row the sales schema accepts: both ids cast to at least
      -1, the quantity to at least 0, and the amount missing or a non-negative float. */
  predicate SalesReady(u: Frame, i: int)
    requires 0 <= i < |u.rows| && HasFillColumns(u) && Castable(u, i)
  {
    && CastAtLeast(Cell(u, i, "order_id"), -1)
    && CastAtLeast(Cell(u, i, "customer_id"), -1)
    && CastAtLeast(Cell(u, i, "quantity"), 0)
    && (Cell(u, i, "amount").Null? || (Cell(u, i, "amount").Real? && Cell(u, i, "amount").r >= 0.0))
  }

  /** The output of transform_data passes validate_sales_data exactly when every input row is
      SalesReady: the ids' sentinel -1 and the zero fills are within the schema's bounds, an int amount
      is refused for its type, and a non-negative amount times a non-negative quantity is a
      non-negative revenue. */
  lemma LabSalesAccepted(u: Frame, parse: Parser)
    requires Processed(u, parse).Ok?
    ensures && HasLabColumns(u) && (forall i :: 0 <= i < |u.rows| ==> Castable(u, i))
      && (FileFormatsLabSales.ValidateLabSales(Processed(u, parse).value).Ok? <==>
          forall i :: 0 <= i < |u.rows| ==> SalesReady(u, i))
  {
    var r := Processed(u, parse).value;
    LabTransformedOk(u, parse);
    FileFormatsLabSales.LabSalesSpec(r);
    forall i | 0 <= i < |u.rows| ensures FileFormatsLabSales.GoodLabSalesRow(r, i) <==> SalesReady(u, i) {
      LabSalesRow(u, parse, i);
    }
  }

  /** One row of LabSalesAccepted. */
  lemma LabSalesRow(u: Frame, parse: Parser, i: int)
    requires Processed(u, parse).Ok? && 0 <= i < |u.rows|
    ensures var r := Processed(u, parse).value;
      && HasLabColumns(u) && FileFormatsLabSales.HasLabSalesColumns(r) && Castable(u, i) && |r.rows| == |u.rows|
      && (FileFormatsLabSales.GoodLabSalesRow(r, i) <==> SalesReady(u, i))
  {
    var r := Processed(u, parse).value;
    LabRow(u, parse, i);
    LabRevenue(u, parse, i);
    SalesRowIff(u, r, i);
  }

  /** LabSalesRow once the cells of row i are known. */
  lemma SalesRowIff(u: Frame, r: Frame, i: int)
    requires HasLabColumns(u) && HasLabColumns(r) && "total_revenue" in r.columns
    requires 0 <= i < |u.rows| && |r.rows| == |u.rows| && Castable(u, i)
    requires Cell(r, i, "order_date").Null? || Cell(r, i, "order_date").Date?
    requires IdFilled(Cell(u, i, "order_id"), Cell(r, i, "order_id"), -1)
    requires IdFilled(Cell(u, i, "customer_id"), Cell(r, i, "customer_id"), -1)
    requires IdFilled(Cell(u, i, "quantity"), Cell(r, i, "quantity"), 0)
    requires Cell(r, i, "amount") == (if Cell(u, i, "amount").Null? then Real(0.0) else Cell(u, i, "amount"))
    requires IsNum(Cell(r, i, "amount")) && Cell(r, i, "quantity").Int?
    requires Cell(r, i, "total_revenue") == Times(Cell(r, i, "amount"), Cell(r, i, "quantity"))
    ensures FileFormatsLabSales.HasLabSalesColumns(r)
    ensures FileFormatsLabSales.GoodLabSalesRow(r, i) <==> SalesReady(u, i)
  {
    CastBound(Cell(u, i, "order_id"), Cell(r, i, "order_id"), -1);
    CastBound(Cell(u, i, "customer_id"), Cell(r, i, "customer_id"), -1);
    CastBound(Cell(u, i, "quantity"), Cell(r, i, "quantity"), 0);
    var a, q := Cell(r, i, "amount"), Cell(r, i, "quantity");
    RevenueBound(a, q, Cell(r, i, "total_revenue"));
  }

  /** A cast cell is at least lo exactly when CastAtLeast holds of the cell before the cast. */
  lemma CastBound(before: Value, after: Value, lo: int)
    requires IntConvertible(before) && IdFilled(before, after, lo)
    ensures after.Int? && (after.i >= lo <==> CastAtLeast(before, lo))
  {
    IdFilledIs(before, after, lo);
  }

  /** A non-negative float amount times a non-negative int quantity is a non-negative float. */
  lemma RevenueBound(a: Value, q: Value, v: Value)
    requires IsNum(a) && q.Int? && v == Times(a, q)
    ensures a.Real? && a.r >= 0.0 && q.i >= 0 ==> v.Real? && v.r >= 0.0
  {
    if a.Real? && a.r >= 0.0 && q.i >= 0 {
      NonNegativeProduct(a.r, q.i as real);
    }
  }

  lemma NonNegativeProduct(x: real, y: real)
    requires x >= 0.0 && y >= 0.0
    ensures x * y >= 0.0
  {
  }
}
