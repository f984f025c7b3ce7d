/**
 * Declarative table schemas in the style of pandera's DataFrameSchema: each declared column
 * must be present, hold cells of its dtype, hold a missing cell only when nullable, be
 * unique when asked, and pass its checks; a strict schema also rejects undeclared columns.
 *
 * Element-wise checks look only at the cells that are present (pandera's ignore_na).
 * A non-lazy validation raises SchemaError, a lazy one SchemaErrors.
 */
module Schemas {
  import opened Results
  import opened Text
  import opened Frames
  import opened Patterns

  datatype DType = IntType | FloatType | StrType | BoolType | DateType

  datatype Check =
    | Gt(bound: real)                              // Check.greater_than / gt / `s > c`
    | Ge(bound: real)                              // Check.greater_than_or_equal_to / ge / `s >= c`
    | InRange(lo: real, hi: real)                  // Check.between / in_range, both ends included
    | IsIn(allowed: seq<string>)                   // Check.isin
    | StrLength(min: Option<nat>, max: Option<nat>) // Check.str_length
    | Matches(pattern: Pattern)                    // Check.str_matches / `s.str.match(...)`
    | AllLower                                     // `s.str.islower()`
    | AllUpper                                     // `s.str.isupper()`
    | FirstUpper                                   // `s.str[0].str.isupper()`
    | NonEmpty                                     // `len(s) > 0`, a check on the whole column
    | Unique                                       // `s.is_unique`, a check on the whole column

  datatype ColumnSpec = ColumnSpec(name: string, dtype: DType, nullable: bool, unique: bool, coerce: bool, checks: seq<Check>)

  datatype Schema = Schema(columns: seq<ColumnSpec>, strict: bool)

  /** Column(dtype, checks): required, not nullable, not unique, no coercion. */
  function Required(name: string, dtype: DType, checks: seq<Check>): ColumnSpec {
    ColumnSpec(name, dtype, false, false, false, checks)
  }

  predicate HasType(v: Value, d: DType) {
    match d
    case IntType => v.Int?
    case FloatType => v.Real?
    case StrType => v.Str?
    case BoolType => v.Bool?
    case DateType => v.Date?
  }

  /** An element-wise check on one present cell. */
  predicate CellPasses(c: Check, v: Value) {
    match c
    case Gt(b) => IsNum(v) && AsReal(v) > b
    case Ge(b) => IsNum(v) && AsReal(v) >= b
    case InRange(lo, hi) => IsNum(v) && lo <= AsReal(v) <= hi
    case IsIn(allowed) => v.Str? && v.s in allowed
    case StrLength(lo, hi) => v.Str? && (lo.Some? ==> lo.value <= |v.s|) && (hi.Some? ==> |v.s| <= hi.value)
    case Matches(p) => v.Str? && Patterns.Matches(p, v.s)
    case AllLower => v.Str? && IsLowerStr(v.s)
    case AllUpper => v.Str? && IsUpperStr(v.s)
    case FirstUpper => v.Str? && |v.s| > 0 && IsUpperLetter(v.s[0])
    case NonEmpty => true
    case Unique => true
  }

  predicate Distinct(col: seq<Value>) {
    forall i, j :: 0 <= i < j < |col| ==> col[i] != col[j]
  }

  predicate CheckPasses(c: Check, col: seq<Value>) {
    match c
    case NonEmpty => |col| > 0
    case Unique => Distinct(col)
    case _ => forall i :: 0 <= i < |col| && col[i] != Null ==> CellPasses(c, col[i])
  }

  predicate ColumnConforms(spec: ColumnSpec, col: seq<Value>) {
    (forall i :: 0 <= i < |col| ==> if col[i].Null? then spec.nullable else HasType(col[i], spec.dtype))
    && (spec.unique ==> Distinct(col))
    && forall c :: c in spec.checks ==> CheckPasses(c, col)
  }

  predicate Declared(schema: Schema, name: string) {
    exists spec :: spec in schema.columns && spec.name == name
  }

  /** The table passes every constraint of the schema. */
  predicate Conforms(schema: Schema, t: Frame) {
    (schema.strict ==> forall k :: 0 <= k < |t.columns| ==> Declared(schema, t.columns[k]))
    && forall spec :: spec in schema.columns ==>
         spec.name in t.columns && ColumnConforms(spec, Col(t, spec.name))
  }

  /** The checks pandera applies to each cell on its own, as opposed to the whole-column ones. */
  predicate ElementWise(c: Check) {
    !c.NonEmpty? && !c.Unique?
  }

  /** One cell as its column spec wants it: typed (or missing where allowed) and passing the element-wise checks. */
  predicate CellConforms(spec: ColumnSpec, v: Value) {
    (if v.Null? then spec.nullable else HasType(v, spec.dtype))
    && forall c :: c in spec.checks && ElementWise(c) && v != Null ==> CellPasses(c, v)
  }

  /** The constraints on a column as a whole: uniqueness and non-emptiness. */
  predicate WholeColumnConforms(spec: ColumnSpec, col: seq<Value>) {
    (spec.unique ==> Distinct(col)) && (NonEmpty in spec.checks ==> |col| > 0) && (Unique in spec.checks ==> Distinct(col))
  }

  /** A column conforms exactly when each of its cells does and the whole-column constraints hold. */
  lemma ColumnConformsByCells(spec: ColumnSpec, col: seq<Value>)
    ensures ColumnConforms(spec, col) <==>
      (forall i :: 0 <= i < |col| ==> CellConforms(spec, col[i])) && WholeColumnConforms(spec, col)
  {
    if ColumnConforms(spec, col) {
      forall i | 0 <= i < |col| ensures CellConforms(spec, col[i]) {
        forall c | c in spec.checks && ElementWise(c) && col[i] != Null ensures CellPasses(c, col[i]) {
          assert CheckPasses(c, col);
        }
      }
    }
    if (forall i :: 0 <= i < |col| ==> CellConforms(spec, col[i])) && WholeColumnConforms(spec, col) {
      forall c | c in spec.checks ensures CheckPasses(c, col) {
        if ElementWise(c) {
          forall i | 0 <= i < |col| && col[i] != Null ensures CellPasses(c, col[i]) {
            assert CellConforms(spec, col[i]);
          }
        }
      }
    }
  }

  predicate Present(schema: Schema, t: Frame) {
    forall spec :: spec in schema.columns ==> spec.name in t.columns
  }

  predicate StrictOk(schema: Schema, t: Frame) {
    schema.strict ==> forall k :: 0 <= k < |t.columns| ==> Declared(schema, t.columns[k])
  }

  /** Row i as the schema wants it: every declared column's cell conforms. */
  predicate RowConforms(schema: Schema, t: Frame, i: int)
    requires 0 <= i < |t.rows| && Present(schema, t)
  {
    forall spec :: spec in schema.columns ==> CellConforms(spec, Cell(t, i, spec.name))
  }

  /** RowConforms by column position. */
  lemma RowConformsAt(schema: Schema, t: Frame, i: int)
    requires 0 <= i < |t.rows| && Present(schema, t)
    ensures RowConforms(schema, t, i) <==>
      forall k :: 0 <= k < |schema.columns| ==> CellConforms(schema.columns[k], Cell(t, i, schema.columns[k].name))
  {
    if forall k :: 0 <= k < |schema.columns| ==> CellConforms(schema.columns[k], Cell(t, i, schema.columns[k].name)) {
      forall spec | spec in schema.columns ensures CellConforms(spec, Cell(t, i, spec.name)) {
        var k :| 0 <= k < |schema.columns| && schema.columns[k] == spec;
      }
    }
  }

  /** One declared column's cell of a conforming row conforms. */
  lemma CellOfRow(schema: Schema, t: Frame, i: int, k: int)
    requires 0 <= i < |t.rows| && Present(schema, t) && RowConforms(schema, t, i)
    requires 0 <= k < |schema.columns|
    ensures CellConforms(schema.columns[k], Cell(t, i, schema.columns[k].name))
  {
    assert schema.columns[k] in schema.columns;
  }

  /** A cell of a column with no element-wise check conforms exactly when it is missing in a nullable column
      or has the column's dtype. */
  lemma CellConformsPlain(spec: ColumnSpec, v: Value)
    requires forall c :: c in spec.checks ==> !ElementWise(c)
    ensures CellConforms(spec, v) <==> if v.Null? then spec.nullable else HasType(v, spec.dtype)
  {
  }

  /** A cell of a column whose one element-wise check is c conforms exactly when it is missing in a nullable
      column, or has the column's dtype and passes c. */
  lemma CellConformsOne(spec: ColumnSpec, v: Value, c: Check)
    requires c in spec.checks && ElementWise(c)
    requires forall d :: d in spec.checks && ElementWise(d) ==> d == c
    ensures CellConforms(spec, v) <==> if v.Null? then spec.nullable else HasType(v, spec.dtype) && CellPasses(c, v)
  {
  }

  /** A table conforms exactly when it passes strictness, has every declared column, every row conforms,
      and the whole-column constraints hold. */
  lemma ConformsByRows(schema: Schema, t: Frame)
    ensures Conforms(schema, t) <==>
      && StrictOk(schema, t)
      && Present(schema, t)
      && (forall i :: 0 <= i < |t.rows| ==> RowConforms(schema, t, i))
      && (forall spec :: spec in schema.columns ==> WholeColumnConforms(spec, Col(t, spec.name)))
  {
    forall spec | spec in schema.columns && spec.name in t.columns {
      ColumnConformsByCells(spec, Col(t, spec.name));
    }
    if Present(schema, t) && forall i :: 0 <= i < |t.rows| ==> RowConforms(schema, t, i) {
      forall spec | spec in schema.columns ensures forall i :: 0 <= i < |t.rows| ==> CellConforms(spec, Col(t, spec.name)[i]) {
        forall i | 0 <= i < |t.rows| ensures CellConforms(spec, Col(t, spec.name)[i]) {
          assert RowConforms(schema, t, i);
        }
      }
    }
  }

  predicate NoCoercion(schema: Schema) {
    forall spec :: spec in schema.columns ==> !spec.coerce
  }

  function Failure(lazy: bool): Error {
    if lazy then SchemaErrors else SchemaError
  }

  /** schema.validate(t, lazy): the table itself when it conforms; otherwise the schema error. */
  function Validate(schema: Schema, t: Frame, lazy: bool): (r: Result<Frame>)
    requires NoCoercion(schema)
    ensures r.Ok? <==> Conforms(schema, t)
    ensures r.Ok? ==> r.value == t
    ensures r.Err? ==> r.error == Failure(lazy)
  {
    if Conforms(schema, t) then Ok(t) else Err(Failure(lazy))
  }

  /** coerce=True on a date column: dates and missing cells stay, text is parsed, anything else fails. */
  function CoerceCell(v: Value, parse: Parser): Option<Value> {
    match v
    case Null => Some(Null)
    case Date(_) => Some(v)
    case Str(s) => (match parse(Coerced, s) case Some(d) => Some(Date(d)) case None => None)
    case _ => None
  }

  predicate CoercibleColumn(t: Frame, name: string, parse: Parser)
    requires name in t.columns
  {
    forall i :: 0 <= i < |t.rows| ==> CoerceCell(Cell(t, i, name), parse).Some?
  }

  /** Converts one column to dates, or None when some cell does not convert. */
  function CoerceColumn(t: Frame, name: string, parse: Parser): (r: Option<Frame>)
    ensures r.Some? ==> r.value.columns == t.columns && |r.value.rows| == |t.rows|
  {
    if name !in t.columns then Some(t)
    else if !CoercibleColumn(t, name, parse) then None
    else Some(Assign(t, name, seq(|t.rows|, i requires 0 <= i < |t.rows| => CoerceCell(Cell(t, i, name), parse).value)))
  }

  /** Applies the coercions of the given column specs in order. */
  function CoerceAll(specs: seq<ColumnSpec>, t: Frame, parse: Parser): (r: Option<Frame>)
    ensures r.Some? ==> r.value.columns == t.columns && |r.value.rows| == |t.rows|
  {
    if specs == [] then Some(t)
    else
      var first := if specs[0].coerce && specs[0].dtype == DateType then CoerceColumn(t, specs[0].name, parse) else Some(t);
      if first.None? then None else CoerceAll(specs[1..], first.value, parse)
  }

  /** schema.validate(t, lazy) for a schema that coerces columns: the coerced table when it conforms. */
  function ValidateCoercing(schema: Schema, t: Frame, lazy: bool, parse: Parser): (r: Result<Frame>)
    ensures r.Ok? ==> Conforms(schema, r.value) && r.value.columns == t.columns && |r.value.rows| == |t.rows|
    ensures r.Err? ==> r.error == Failure(lazy)
  {
    var c := CoerceAll(schema.columns, t, parse);
    if c.Some? && Conforms(schema, c.value) then Ok(c.value) else Err(Failure(lazy))
  }

  /** A "pre" validator as written: it validates non-lazily and returns the table, inside a handler that
      catches only SchemaErrors. The non-lazy validate raises SchemaError, which that handler does not
      catch, so a failure propagates. */
  function PreValidate(schema: Schema, t: Frame): (r: Result<Frame>)
    requires NoCoercion(schema)
    ensures r.Ok? <==> Conforms(schema, t)
    ensures r.Ok? ==> r.value == t
    ensures r.Err? ==> r.error == SchemaError
  {
    match Validate(schema, t, false)
    case Ok(_) => Ok(t)
    case Err(e) => if e == SchemaErrors then Ok(t) else Err(e)
  }

  /** A "pre" validator as its handler and log message intend: advisory, returning its argument either way. */
  function AdvisoryPreValidate(schema: Schema, t: Frame): (r: Result<Frame>)
    requires NoCoercion(schema)
    ensures r == Ok(t)
  {
    match Validate(schema, t, true)
    case Ok(_) => Ok(t)
    case Err(e) => if e == SchemaErrors then Ok(t) else Err(e)
  }

  /** The as-written pre validator and the advisory one disagree on exactly the tables that fail the schema. */
  lemma PreValidateDisagrees(schema: Schema, t: Frame)
    requires NoCoercion(schema)
    ensures PreValidate(schema, t) != AdvisoryPreValidate(schema, t) <==> !Conforms(schema, t)
  {
  }
}
