/** The text shown in the result area: main.py's forecast text built while
    reading the response, and the per-row text db.py and db2.py build from
    stored weather rows. */
module Render {
  import opened Forecast
  import opened Store
  import opened Json

  /** The first line of main.py's forecast text. */
  function Header(name: string, code: string): string {
    "地域: " + name + "（" + code + "）\n"
  }

  /** main.py's block for one forecast day, with its separator line. */
  function ForecastBlock(f: Forecast): string {
    "日付: " + f.date + "\n天気: " + f.weather + "\n風: " + f.wind + "\n波: " + f.wave + "\n"
      + "\n---------------------------\n"
  }

  /** The blocks of `forecasts`, in order. */
  function ForecastBlocks(forecasts: seq<Forecast>): string {
    Blocks(forecasts, ForecastBlock)
  }

  /** The block db.py and db2.py render for one stored row. */
  function RowBlock(row: WeatherRow): string {
    "日付: " + row.date + "\n天気: " + row.weather + "\n風: " + row.wind + "\n波: " + row.wave + "\n\n"
  }

  /** The blocks of `rows`, in order. */
  function RowsText(rows: seq<WeatherRow>): string {
    Blocks(rows, RowBlock)
  }

  /** The text of `items`: the block of each, in order. */
  function Blocks<T>(items: seq<T>, block: T -> string): string {
    if items == [] then ""
    else Blocks(items[..|items| - 1], block) + block(items[|items| - 1])
  }

  /** One more item adds its block at the end. */
  lemma BlocksSnoc<T>(items: seq<T>, x: T, block: T -> string)
    ensures Blocks(items + [x], block) == Blocks(items, block) + block(x)
  {
    assert (items + [x])[..|items|] == items;
  }

  /** The text of items taken in two parts is the text of the first part
      followed by the text of the second: one block per item, in order. */
  lemma {:induction false} BlocksAppend<T>(a: seq<T>, b: seq<T>, block: T -> string)
    ensures Blocks(a + b, block) == Blocks(a, block) + Blocks(b, block)
  {
    if b == [] {
      assert a + b == a;
    } else {
      var init, x := b[..|b| - 1], b[|b| - 1];
      assert a + b == (a + init) + [x];
      assert b == init + [x];
      BlocksAppend(a, init, block);
      BlocksSnoc(a + init, x, block);
      BlocksSnoc(init, x, block);
    }
  }

  /** db2.py's message when no stored row matches the chosen area and date. */
  const NO_DATA := "選択された日付にデータが見つかりませんでした。"

  /** `display_weather`'s text: the row blocks, or the no-data message when
      they are empty. */
  function DisplayText(rows: seq<WeatherRow>): string {
    var text := RowsText(rows);
    if text == "" then NO_DATA else text
  }

  /** A non-empty list of rows renders as the first row's block followed by
      the rest, so its text begins with "日付: ". */
  lemma RowsTextFirst(rows: seq<WeatherRow>)
    requires rows != []
    ensures RowsText(rows) == RowBlock(rows[0]) + RowsText(rows[1..])
    ensures RowsText(rows)[0] == '日'
  {
    assert rows == [rows[0]] + rows[1..];
    BlocksAppend([rows[0]], rows[1..], RowBlock);
    BlocksSnoc([], rows[0], RowBlock);
    assert [] + [rows[0]] == [rows[0]];
  }

  /** `display_weather` shows the no-data message exactly when no row
      matches; otherwise it shows the row blocks. */
  lemma DisplayTextSpec(rows: seq<WeatherRow>)
    ensures DisplayText(rows) == NO_DATA <==> rows == []
    ensures rows != [] ==> DisplayText(rows) == RowsText(rows)
  {
    if rows != [] {
      RowsTextFirst(rows);
      assert NO_DATA[0] == '選';
    }
  }

  /** The text main.py builds for one day, followed by its separator, is that
      day's block. */
  lemma BlockText(date: string, weather: string, wind: string, wave: string)
    ensures "日付: " + date + "\n天気: " + weather + "\n風: " + wind + "\n波: " + wave + "\n"
      + "\n---------------------------\n" == ForecastBlock(Forecast(date, weather, wind, wave))
  {
  }

  /** Appending day `i`'s block to the text of the days before it gives the
      text of days 0 to `i`. */
  lemma AppendDay(header: string, done: seq<Forecast>, td: Option<seq<string>>, area: AreaForecast, i: nat)
    requires i < DAYS && Days(td, area, i, true).Ok? && DayReadable(td, area, i, true)
    ensures Days(td, area, i + 1, true).Ok?
    ensures header + ForecastBlocks(done + Days(td, area, i, true).value) + ForecastBlock(Entry(td, area, i))
      == header + ForecastBlocks(done + Days(td, area, i + 1, true).value)
  {
    var prev, f := Days(td, area, i, true).value, Entry(td, area, i);
    DaysStep(td, area, i, true);
    assert done + (prev + [f]) == (done + prev) + [f];
    BlocksSnoc(done + prev, f, ForecastBlock);
  }

  /** main.py's text for a readable response: the header followed by three
      blocks per matching area, and the header alone when no area matches. */
  lemma ForecastTextShape(response: Response, code: string, name: string)
    requires Extract(response, code, true).Ok?
    ensures var fs := Extract(response, code, true).value;
      && |fs| == DAYS * |Matching(AreasOf(response).value, code)|
      && (Matching(AreasOf(response).value, code) == [] ==> Header(name, code) + ForecastBlocks(fs) == Header(name, code))
  {
    ExtractSpec(response, code, true);
  }

  /** main.py's `get_weather` once the response is in hand: the header, then
      for every matching area the blocks of days 0, 1 and 2, appended to the
      text as they are read; any missing key or index abandons the text. */
  method ForecastText(response: Response, code: string, name: string) returns (r: Parsed<string>)
    ensures r == match Extract(response, code, true)
      case ParseError => ParseError
      case Ok(fs) => Ok(Header(name, code) + ForecastBlocks(fs))
  {
    var text := Header(name, code);
    if !(|response| > 0 && response[0].timeSeries.Some? && |response[0].timeSeries.value| > 0) {
      return ParseError;
    }
    var series := response[0].timeSeries.value[0];
    if series.areas.None? {
      return ParseError;
    }
    var areas := series.areas.value;
    var td := series.timeDefines;
    ghost var header := text;
    ghost var done: seq<Forecast> := [];
    for k := 0 to |areas|
      invariant Collect(td, areas[..k], code, true) == Ok(done)
      invariant text == header + ForecastBlocks(done)
    {
      var area := areas[k];
      CollectStep(td, areas, k, code, true);
      if area.area.None? || area.area.value.code.None? {
        CollectErrorPropagates(td, areas, k + 1, code, true);
        return ParseError;
      }
      if area.area.value.code.value == code {
        var next := AppendDays(td, area, text, header, done);
        if next.ParseError? {
          CollectErrorPropagates(td, areas, k + 1, code, true);
          return ParseError;
        }
        done := done + Days(td, area, DAYS, true).value;
        text := next.value;
      } else {
        assert done == done + [];
      }
    }
    assert areas[..|areas|] == areas;
    r := Ok(text);
  }

  /** The inner loop of main.py's `get_weather` for one matching area: append
      the blocks of days 0, 1 and 2 to the text. */
  method AppendDays(td: Option<seq<string>>, area: AreaForecast, text: string, ghost header: string, ghost done: seq<Forecast>)
    returns (r: Parsed<string>)
    requires text == header + ForecastBlocks(done)
    ensures r == match Days(td, area, DAYS, true)
      case ParseError => ParseError
      case Ok(ds) => Ok(header + ForecastBlocks(done + ds))
  {
    var acc := text;
    assert done + Days(td, area, 0, true).value == done;
    for i := 0 to DAYS
      invariant Days(td, area, i, true).Ok?
      invariant acc == header + ForecastBlocks(done + Days(td, area, i, true).value)
    {
      if !DayReadable(td, area, i, true) {
        DaysStep(td, area, i, true);
        DaysErrorPropagates(td, area, i + 1, DAYS, true);
        return ParseError;
      }
      var date := td.value[i];
      var weather := area.weathers.value[i];
      var weatherCode := area.weatherCodes.value[i];
      var wind := area.winds.value[i];
      var wave := if area.waves.None? then NO_WAVE_INFO else area.waves.value[i];
      var forecast := "日付: " + date + "\n天気: " + weather + "\n風: " + wind + "\n波: " + wave + "\n";
      BlockText(date, weather, wind, wave);
      AppendDay(header, done, td, area, i);
      acc := acc + (forecast + "\n---------------------------\n");
    }
    r := Ok(acc);
  }

  /** db.py's and db2.py's rendering loop over fetched rows. */
  method RenderRows(rows: seq<WeatherRow>) returns (text: string)
    ensures text == RowsText(rows)
    ensures text == "" <==> rows == []
  {
    text := "";
    for i := 0 to |rows|
      invariant text == RowsText(rows[..i])
    {
      assert rows[..i + 1] == rows[..i] + [rows[i]];
      BlocksSnoc(rows[..i], rows[i], RowBlock);
      var row := rows[i];
      text := text + ("日付: " + row.date + "\n天気: " + row.weather + "\n風: " + row.wind + "\n波: " + row.wave + "\n\n");
    }
    assert rows[..|rows|] == rows;
    if rows != [] {
      RowsTextFirst(rows);
    }
  }
}
