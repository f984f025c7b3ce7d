/**
 * The strict weather schema of the file-formats exercise: three text columns of 1 to 100 characters.
 */
module FileFormatsWeather {
  import opened Results
  import opened Frames
  import opened Schemas

  /** city, temperature and feels_like strings of 1 to 100 characters; no other columns. */
  function Weather(): Schema {
    Schema([
      Required("city", StrType, [StrLength(Some(1), Some(100))]),
      Required("temperature", StrType, [StrLength(Some(1), Some(100))]),
      Required("feels_like", StrType, [StrLength(Some(1), Some(100))])], true)
  }

  const WeatherColumns: seq<string> := ["city", "temperature", "feels_like"]

  /** validate_weather_data(df, lazy): the table back when it conforms; otherwise the error validate raises. */
  function ValidateWeather(t: Frame, lazy: bool): (r: Result<Frame>)
    ensures r.Ok? <==> Conforms(Weather(), t)
    ensures r.Ok? ==> r.value == t
    ensures r.Err? ==> r.error == (if lazy then SchemaErrors else SchemaError)
  {
    Validate(Weather(), t, lazy)
  }

  /** city, temperature and feels_like are present. */
  predicate HasWeatherColumns(t: Frame) {
    && "city" in t.columns && "temperature" in t.columns && "feels_like" in t.columns
  }

  /** One weather reading: three strings of 1 to 100 characters. */
  predicate GoodWeatherRow(t: Frame, i: int)
    requires 0 <= i < |t.rows| && HasWeatherColumns(t)
  {
    && Cell(t, i, "city").Str? && 1 <= |Cell(t, i, "city").s| <= 100
    && Cell(t, i, "temperature").Str? && 1 <= |Cell(t, i, "temperature").s| <= 100
    && Cell(t, i, "feels_like").Str? && 1 <= |Cell(t, i, "feels_like").s| <= 100
  }

  lemma WeatherPresent(t: Frame)
    ensures Present(Weather(), t) <==> HasWeatherColumns(t)
  {
    var s := Weather().columns;
    if Present(Weather(), t) {
      assert s[0] in s && s[1] in s && s[2] in s;
    }
    if HasWeatherColumns(t) {
      forall spec | spec in s ensures spec.name in t.columns {
      }
    }
  }

  lemma WeatherCells0(t: Frame, i: int)
    requires 0 <= i < |t.rows| && HasWeatherColumns(t)
    ensures CellConforms(Weather().columns[0], Cell(t, i, "city")) <==> Cell(t, i, "city").Str? && 1 <= |Cell(t, i, "city").s| <= 100
    ensures CellConforms(Weather().columns[1], Cell(t, i, "temperature")) <==> Cell(t, i, "temperature").Str? && 1 <= |Cell(t, i, "temperature").s| <= 100
    ensures CellConforms(Weather().columns[2], Cell(t, i, "feels_like")) <==> Cell(t, i, "feels_like").Str? && 1 <= |Cell(t, i, "feels_like").s| <= 100
  {
    var s := Weather().columns;
    CellConformsOne(s[0], Cell(t, i, "city"), StrLength(Some(1), Some(100)));
    CellConformsOne(s[1], Cell(t, i, "temperature"), StrLength(Some(1), Some(100)));
    CellConformsOne(s[2], Cell(t, i, "feels_like"), StrLength(Some(1), Some(100)));
  }

  lemma WeatherGoodCells(t: Frame, i: int)
    requires 0 <= i < |t.rows| && HasWeatherColumns(t)
    ensures var s := Weather().columns;
      GoodWeatherRow(t, i) <==>
      && CellConforms(s[0], Cell(t, i, "city"))
      && CellConforms(s[1], Cell(t, i, "temperature"))
      && CellConforms(s[2], Cell(t, i, "feels_like"))
  {
    WeatherCells0(t, i);
  }

  lemma WeatherCellsOfRow(t: Frame, i: int)
    requires 0 <= i < |t.rows| && HasWeatherColumns(t) && Present(Weather(), t)
    requires RowConforms(Weather(), t, i)
    ensures var s := Weather().columns;
      && CellConforms(s[0], Cell(t, i, "city"))
      && CellConforms(s[1], Cell(t, i, "temperature"))
      && CellConforms(s[2], Cell(t, i, "feels_like"))
  {
    var s := Weather().columns;
    RowConformsAt(Weather(), t, i);
    CellOfRow(Weather(), t, i, 0);
    CellOfRow(Weather(), t, i, 1);
    CellOfRow(Weather(), t, i, 2);
  }

  lemma WeatherRowOfCells(t: Frame, i: int)
    requires 0 <= i < |t.rows| && HasWeatherColumns(t) && Present(Weather(), t)
    requires var s := Weather().columns;
      && CellConforms(s[0], Cell(t, i, "city"))
      && CellConforms(s[1], Cell(t, i, "temperature"))
      && CellConforms(s[2], Cell(t, i, "feels_like"))
    ensures RowConforms(Weather(), t, i)
  {
    var s := Weather().columns;
    forall k | 0 <= k < |s| ensures CellConforms(s[k], Cell(t, i, s[k].name)) {
      if k == 0 {} else if k == 1 {} else {}
    }
    RowConformsAt(Weather(), t, i);
  }

  /** Row i passes the schema exactly when GoodWeatherRow holds of it. */
  lemma WeatherRowSpec(t: Frame, i: int)
    requires 0 <= i < |t.rows| && HasWeatherColumns(t)
    ensures Present(Weather(), t)
    ensures RowConforms(Weather(), t, i) <==> GoodWeatherRow(t, i)
  {
    WeatherPresent(t);
    WeatherGoodCells(t, i);
    if RowConforms(Weather(), t, i) {
      WeatherCellsOfRow(t, i);
    }
    if GoodWeatherRow(t, i) {
      WeatherRowOfCells(t, i);
    }
  }

  lemma WeatherWholeColumns(t: Frame)
    requires HasWeatherColumns(t)
    ensures Present(Weather(), t)
    ensures forall spec :: spec in Weather().columns ==> WholeColumnConforms(spec, Col(t, spec.name))
  {
    WeatherPresent(t);
  }

  lemma WeatherDeclared(c: string)
    ensures Declared(Weather(), c) <==> c in WeatherColumns
  {
    var s := Weather().columns;
    if c in WeatherColumns {
      if c == "city" {
        assert s[0] in s;
      } else if c == "temperature" {
        assert s[1] in s;
      } else if c == "feels_like" {
        assert s[2] in s;
      }
    }
  }

  /** The strict schema accepts a table exactly when its columns are exactly the three and every row
      is a good weather row. */
  lemma WeatherSpec(t: Frame)
    ensures Conforms(Weather(), t) <==>
      && HasWeatherColumns(t)
      && (forall k :: 0 <= k < |t.columns| ==> t.columns[k] in WeatherColumns)
      && (forall i :: 0 <= i < |t.rows| ==> GoodWeatherRow(t, i))
  {
    ConformsByRows(Weather(), t);
    WeatherPresent(t);
    forall k | 0 <= k < |t.columns| ensures Declared(Weather(), t.columns[k]) <==> t.columns[k] in WeatherColumns {
      WeatherDeclared(t.columns[k]);
    }
    if HasWeatherColumns(t) {
      WeatherWholeColumns(t);
      forall i | 0 <= i < |t.rows| ensures RowConforms(Weather(), t, i) <==> GoodWeatherRow(t, i) {
        WeatherRowSpec(t, i);
      }
    }
  }
}
