/** Reading the forecast response of the meteorological agency's API.
    The response is the decoded JSON, with every key the program indexes
    optional and every array of any length, so that each `KeyError` and
    `IndexError` the program can meet is a value here. */
module Forecast {
  import opened Json

  /** `area`: the area's `{code, name}`. */
  datatype AreaName = AreaName(code: Option<string>, name: Option<string>)

  /** One element of `areas`: parallel per-day arrays. */
  datatype AreaForecast = AreaForecast(
    area: Option<AreaName>,
    weathers: Option<seq<string>>,
    weatherCodes: Option<seq<string>>,
    winds: Option<seq<string>>,
    waves: Option<seq<string>>)

  /** One element of `timeSeries`. */
  datatype TimeSeries = TimeSeries(timeDefines: Option<seq<string>>, areas: Option<seq<AreaForecast>>)

  /** One element of the top-level array. */
  datatype Report = Report(timeSeries: Option<seq<TimeSeries>>)

  type Response = seq<Report>

  /** One day of a forecast: `{date, weather, wind, wave}`. */
  datatype Forecast = Forecast(date: string, weather: string, wind: string, wave: string)

  /** The outcome of reading the response: entries, or a missing key or index. */
  datatype Parsed<T> = Ok(value: T) | ParseError

  /** The wave text used for all three days when `waves` is missing. */
  const NO_WAVE_INFO := "情報なし"

  /** Number of forecast days read per matching area. */
  const DAYS := 3

  /** `a[i]` on an optional array. */
  function Index(a: Option<seq<string>>, i: nat): Parsed<string> {
    if a.Some? && i < |a.value| then Ok(a.value[i]) else ParseError
  }

  /** `area.get("waves", ["情報なし"] * 3)[i]`, for `i < 3`. */
  function WaveAt(area: AreaForecast, i: nat): Parsed<string>
    requires i < DAYS
  {
    if area.waves.None? then Ok(NO_WAVE_INFO) else Index(area.waves, i)
  }

  /** `area["area"]["code"]`. */
  function CodeOf(area: AreaForecast): Parsed<string> {
    if area.area.Some? && area.area.value.code.Some? then Ok(area.area.value.code.value) else ParseError
  }

  /** Day `i` of a matching area. `withCodes` says whether `weatherCodes[i]`
      is read too (it is in main.py, and its value is never used). */
  function Day(timeDefines: Option<seq<string>>, area: AreaForecast, i: nat, withCodes: bool): Parsed<Forecast>
    requires i < DAYS
  {
    if Index(timeDefines, i).Ok? && Index(area.weathers, i).Ok?
       && (withCodes ==> Index(area.weatherCodes, i).Ok?)
       && Index(area.winds, i).Ok? && WaveAt(area, i).Ok?
    then Ok(Forecast(Index(timeDefines, i).value, Index(area.weathers, i).value,
                     Index(area.winds, i).value, WaveAt(area, i).value))
    else ParseError
  }

  /** Days `0 .. n-1` of a matching area, or the first failure. */
  function Days(timeDefines: Option<seq<string>>, area: AreaForecast, n: nat, withCodes: bool): Parsed<seq<Forecast>>
    requires n <= DAYS
  {
    if n == 0 then Ok([])
    else match Days(timeDefines, area, n - 1, withCodes)
      case ParseError => ParseError
      case Ok(prev) =>
        match Day(timeDefines, area, n - 1, withCodes)
        case ParseError => ParseError
        case Ok(f) => Ok(prev + [f])
  }

  /** The entries one element of `areas` contributes: none when its code
      differs from `code`, three when it matches. */
  function AreaForecasts(timeDefines: Option<seq<string>>, area: AreaForecast, code: string, withCodes: bool): Parsed<seq<Forecast>> {
    match CodeOf(area)
    case ParseError => ParseError
    case Ok(c) => if c == code then Days(timeDefines, area, DAYS, withCodes) else Ok([])
  }

  /** The entries of all of `areas`, in order, or the first failure. */
  function Collect(timeDefines: Option<seq<string>>, areas: seq<AreaForecast>, code: string, withCodes: bool): Parsed<seq<Forecast>> {
    if areas == [] then Ok([])
    else match Collect(timeDefines, areas[..|areas| - 1], code, withCodes)
      case ParseError => ParseError
      case Ok(prev) =>
        match AreaForecasts(timeDefines, areas[|areas| - 1], code, withCodes)
        case ParseError => ParseError
        case Ok(fs) => Ok(prev + fs)
  }

  /** `weather_data[0]["timeSeries"][0]`. */
  function FirstSeries(response: Response): Parsed<TimeSeries> {
    if |response| > 0 && response[0].timeSeries.Some? && |response[0].timeSeries.value| > 0
    then Ok(response[0].timeSeries.value[0])
    else ParseError
  }

  /** `weather_data[0]["timeSeries"][0]["areas"]`. */
  function AreasOf(response: Response): Parsed<seq<AreaForecast>> {
    match FirstSeries(response)
    case ParseError => ParseError
    case Ok(ts) => if ts.areas.Some? then Ok(ts.areas.value) else ParseError
  }

  /** The forecast entries for municipality `code`: three per element of
      `areas` whose code is `code`, in order. */
  function Extract(response: Response, code: string, withCodes: bool): Parsed<seq<Forecast>> {
    match AreasOf(response)
    case ParseError => ParseError
    case Ok(areas) => Collect(FirstSeries(response).value.timeDefines, areas, code, withCodes)
  }

  // ---------------------------------------------------------------------
  // What a successful extraction yields, and when extraction succeeds.

  /** The elements of `areas` whose code is `code`. */
  function Matching(areas: seq<AreaForecast>, code: string): (r: seq<AreaForecast>)
    ensures forall a | a in r :: CodeOf(a) == Ok(code)
  {
    if areas == [] then []
    else Matching(areas[..|areas| - 1], code) + (if CodeOf(areas[|areas| - 1]) == Ok(code) then [areas[|areas| - 1]] else [])
  }

  /** The positions in `areas` whose code is `code`, in increasing order. */
  function MatchingPositions(areas: seq<AreaForecast>, code: string): seq<int> {
    if areas == [] then []
    else MatchingPositions(areas[..|areas| - 1], code) + (if CodeOf(areas[|areas| - 1]) == Ok(code) then [|areas| - 1] else [])
  }

  /** The matching positions are exactly the positions whose area has the
      code, in increasing order. */
  lemma {:induction false} MatchingPositionsSpec(areas: seq<AreaForecast>, code: string)
    ensures var ps := MatchingPositions(areas, code);
      && (forall i | 0 <= i < |areas| :: CodeOf(areas[i]) == Ok(code) <==> i in ps)
      && (forall j, k | 0 <= j < k < |ps| :: ps[j] < ps[k])
      && forall k | 0 <= k < |ps| :: 0 <= ps[k] < |areas|
  {
    if areas != [] {
      var init := areas[..|areas| - 1];
      MatchingPositionsSpec(init, code);
      var ps, ps0 := MatchingPositions(areas, code), MatchingPositions(init, code);
      if CodeOf(areas[|areas| - 1]) == Ok(code) {
        assert ps == ps0 + [|init|];
      } else {
        assert ps == ps0;
      }
      forall i | 0 <= i < |init|
        ensures CodeOf(areas[i]) == Ok(code) <==> i in ps
      {
        assert areas[i] == init[i];
      }
    }
  }

  /** The matching areas are the areas whose code is `code`, every one of
      them and in their order in `areas`: the k-th matching area is the area
      at the k-th position, in increasing order, of those whose code is
      `code` (`MatchingPositionsSpec`). */
  lemma {:induction false} MatchingSpec(areas: seq<AreaForecast>, code: string)
    ensures var ps := MatchingPositions(areas, code);
      && |Matching(areas, code)| == |ps|
      && forall k | 0 <= k < |ps| :: 0 <= ps[k] < |areas| && Matching(areas, code)[k] == areas[ps[k]]
  {
    if areas != [] {
      var init, last := areas[..|areas| - 1], areas[|areas| - 1];
      MatchingSpec(init, code);
      MatchingPositionsSpec(init, code);
      var ps, ps0 := MatchingPositions(areas, code), MatchingPositions(init, code);
      var m, m0 := Matching(areas, code), Matching(init, code);
      if CodeOf(last) == Ok(code) {
        assert ps == ps0 + [|init|] && m == m0 + [last];
      } else {
        assert ps == ps0 && m == m0;
      }
      forall k | 0 <= k < |ps0|
        ensures areas[ps0[k]] == init[ps0[k]]
      {
      }
    }
  }

  /** Every index the loop reads for day `i` exists. */
  predicate DayReadable(timeDefines: Option<seq<string>>, area: AreaForecast, i: nat, withCodes: bool) {
    && timeDefines.Some? && i < |timeDefines.value|
    && area.weathers.Some? && i < |area.weathers.value|
    && (withCodes ==> area.weatherCodes.Some? && i < |area.weatherCodes.value|)
    && area.winds.Some? && i < |area.winds.value|
    && (area.waves.Some? ==> i < |area.waves.value|)
  }

  /** Every index the loop reads for the three days exists. */
  predicate DaysReadable(timeDefines: Option<seq<string>>, area: AreaForecast, withCodes: bool) {
    forall i | 0 <= i < DAYS :: DayReadable(timeDefines, area, i, withCodes)
  }

  /** The entry the loop builds for day `i`: the `i`-th date, weather, wind
      and wave, the wave being "情報なし" when `waves` is missing. */
  function Entry(timeDefines: Option<seq<string>>, area: AreaForecast, i: nat): Forecast
    requires DayReadable(timeDefines, area, i, false)
  {
    Forecast(timeDefines.value[i], area.weathers.value[i], area.winds.value[i],
             if area.waves.None? then NO_WAVE_INFO else area.waves.value[i])
  }

  /** The whole response can be read for `code`: every key and index the
      program touches exists. */
  predicate Readable(response: Response, code: string, withCodes: bool) {
    && AreasOf(response).Ok?
    && (forall a | a in AreasOf(response).value :: CodeOf(a).Ok?)
    && (forall a | a in Matching(AreasOf(response).value, code) ::
          DaysReadable(FirstSeries(response).value.timeDefines, a, withCodes))
  }

  lemma {:induction false} DaysOk(td: Option<seq<string>>, area: AreaForecast, n: nat, withCodes: bool)
    requires n <= DAYS
    ensures Days(td, area, n, withCodes).Ok? <==> forall i | 0 <= i < n :: DayReadable(td, area, i, withCodes)
    ensures Days(td, area, n, withCodes).Ok? ==>
      var fs := Days(td, area, n, withCodes).value;
      |fs| == n && forall i | 0 <= i < n :: DayReadable(td, area, i, false) && fs[i] == Entry(td, area, i)
  {
    if n > 0 {
      DaysOk(td, area, n - 1, withCodes);
      assert Day(td, area, n - 1, withCodes).Ok? <==> DayReadable(td, area, n - 1, withCodes);
      if Days(td, area, n, withCodes).Ok? {
        var fs := Days(td, area, n, withCodes).value;
        assert fs == Days(td, area, n - 1, withCodes).value + [Day(td, area, n - 1, withCodes).value];
        assert fs[n - 1] == Entry(td, area, n - 1);
      }
    }
  }

  /** Every area of a non-empty list has a code exactly when the ones before
      the last do and the last does. */
  lemma CodesLast(areas: seq<AreaForecast>)
    requires areas != []
    ensures (forall a | a in areas :: CodeOf(a).Ok?) <==>
      (forall a | a in areas[..|areas| - 1] :: CodeOf(a).Ok?) && CodeOf(areas[|areas| - 1]).Ok?
  {
    assert areas == areas[..|areas| - 1] + [areas[|areas| - 1]];
  }

  /** Every matching area of a non-empty list is readable exactly when the
      matching ones before the last are and, if the last matches, it is. */
  lemma MatchingLast(td: Option<seq<string>>, areas: seq<AreaForecast>, code: string, withCodes: bool)
    requires areas != []
    ensures var last := areas[|areas| - 1];
      (forall a | a in Matching(areas, code) :: DaysReadable(td, a, withCodes)) <==>
      (forall a | a in Matching(areas[..|areas| - 1], code) :: DaysReadable(td, a, withCodes)) &&
      (CodeOf(last) == Ok(code) ==> DaysReadable(td, last, withCodes))
  {
    var last := areas[|areas| - 1];
    assert Matching(areas, code) == Matching(areas[..|areas| - 1], code) + (if CodeOf(last) == Ok(code) then [last] else []);
  }

  /** Extraction succeeds exactly when the response is readable for `code`. */
  lemma {:induction false} CollectOk(td: Option<seq<string>>, areas: seq<AreaForecast>, code: string, withCodes: bool)
    ensures Collect(td, areas, code, withCodes).Ok? <==>
      (forall a | a in areas :: CodeOf(a).Ok?) && (forall a | a in Matching(areas, code) :: DaysReadable(td, a, withCodes))
  {
    if areas != [] {
      CollectOk(td, areas[..|areas| - 1], code, withCodes);
      DaysOk(td, areas[|areas| - 1], DAYS, withCodes);
      CodesLast(areas);
      MatchingLast(td, areas, code, withCodes);
    }
  }

  /** A successful extraction holds exactly three entries per matching area,
      in order, each taken from the same day index of `timeDefines`,
      `weathers`, `winds` and `waves` (or "情報なし" when `waves` is missing). */
  lemma {:induction false} CollectShape(td: Option<seq<string>>, areas: seq<AreaForecast>, code: string, withCodes: bool)
    requires Collect(td, areas, code, withCodes).Ok?
    ensures var fs := Collect(td, areas, code, withCodes).value;
      var ms := Matching(areas, code);
      && |fs| == DAYS * |ms|
      && forall k, i | 0 <= k < |ms| && 0 <= i < DAYS ::
           DayReadable(td, ms[k], i, false) && fs[DAYS * k + i] == Entry(td, ms[k], i)
  {
    if areas != [] {
      var init, last := areas[..|areas| - 1], areas[|areas| - 1];
      CollectShape(td, init, code, withCodes);
      var prev := Collect(td, init, code, withCodes).value;
      var fs := Collect(td, areas, code, withCodes).value;
      var ms := Matching(areas, code);
      if CodeOf(last) == Ok(code) {
        DaysOk(td, last, DAYS, withCodes);
        assert ms == Matching(init, code) + [last];
        forall k, i | 0 <= k < |ms| && 0 <= i < DAYS
          ensures DayReadable(td, ms[k], i, false) && fs[DAYS * k + i] == Entry(td, ms[k], i)
        {
          if k < |ms| - 1 {
            assert fs[DAYS * k + i] == prev[DAYS * k + i];
          } else {
            assert fs[DAYS * k + i] == Days(td, last, DAYS, withCodes).value[i];
          }
        }
      } else {
        assert ms == Matching(init, code);
        assert fs == prev;
      }
    }
  }

  /** The whole extraction: it fails exactly on an unreadable response, and
      otherwise yields three entries per matching area, read day by day;
      with no matching area it yields no entries at all. */
  lemma ExtractSpec(response: Response, code: string, withCodes: bool)
    ensures Extract(response, code, withCodes).Ok? <==> Readable(response, code, withCodes)
    ensures Extract(response, code, withCodes).Ok? ==>
      var td := FirstSeries(response).value.timeDefines;
      var fs := Extract(response, code, withCodes).value;
      var ms := Matching(AreasOf(response).value, code);
      && |fs| == DAYS * |ms|
      && (fs == [] <==> ms == [])
      && forall k, i | 0 <= k < |ms| && 0 <= i < DAYS ::
           DayReadable(td, ms[k], i, false) && fs[DAYS * k + i] == Entry(td, ms[k], i)
  {
    if AreasOf(response).Ok? {
      var td := FirstSeries(response).value.timeDefines;
      CollectOk(td, AreasOf(response).value, code, withCodes);
      if Extract(response, code, withCodes).Ok? {
        CollectShape(td, AreasOf(response).value, code, withCodes);
      }
    }
  }

  /** Reading `weatherCodes` (main.py) only adds ways to fail: whenever the
      main.py extraction succeeds, the db.py one gives the same entries, and
      when the db.py one succeeds, main.py's fails exactly when a matching
      area has fewer than three weather codes. */
  lemma {:induction false} WeatherCodesOnlyNarrow(td: Option<seq<string>>, areas: seq<AreaForecast>, code: string)
    ensures Collect(td, areas, code, true).Ok? ==> Collect(td, areas, code, false) == Collect(td, areas, code, true)
    ensures Collect(td, areas, code, false).Ok? ==>
      (Collect(td, areas, code, true) == ParseError <==>
       exists a | a in Matching(areas, code) :: a.weatherCodes.None? || |a.weatherCodes.value| < DAYS)
  {
    if areas != [] {
      var init, last := areas[..|areas| - 1], areas[|areas| - 1];
      WeatherCodesOnlyNarrow(td, init, code);
      DaysEqual(td, last);
    }
    if Collect(td, areas, code, false).Ok? && Collect(td, areas, code, true) == ParseError {
      CollectOk(td, areas, code, true);
      CollectOk(td, areas, code, false);
      var a :| a in Matching(areas, code) && !DaysReadable(td, a, true);
      var i :| 0 <= i < DAYS && !DayReadable(td, a, i, true);
      assert DayReadable(td, a, i, false);
    }
    if Collect(td, areas, code, false).Ok? &&
       exists a | a in Matching(areas, code) :: a.weatherCodes.None? || |a.weatherCodes.value| < DAYS
    {
      var a :| a in Matching(areas, code) && (a.weatherCodes.None? || |a.weatherCodes.value| < DAYS);
      var i := if a.weatherCodes.None? then 0 else |a.weatherCodes.value|;
      assert !DayReadable(td, a, i, true);
      CollectOk(td, areas, code, true);
    }
  }

  lemma DaysEqual(td: Option<seq<string>>, area: AreaForecast)
    ensures Days(td, area, DAYS, true).Ok? ==> Days(td, area, DAYS, false) == Days(td, area, DAYS, true)
  {
    DaysOk(td, area, DAYS, true);
    DaysOk(td, area, DAYS, false);
    if Days(td, area, DAYS, true).Ok? {
      assert forall i | 0 <= i < DAYS :: DayReadable(td, area, i, false);
      var a, b := Days(td, area, DAYS, true).value, Days(td, area, DAYS, false).value;
      assert |a| == |b| && forall i | 0 <= i < DAYS :: a[i] == b[i];
      assert a == b;
    }
  }

  // ---------------------------------------------------------------------
  // The loops of db.py's `get_weather`.

  lemma {:induction false} DaysErrorPropagates(td: Option<seq<string>>, area: AreaForecast, n: nat, m: nat, withCodes: bool)
    requires n <= m <= DAYS && Days(td, area, n, withCodes) == ParseError
    ensures Days(td, area, m, withCodes) == ParseError
  {
    if m > n {
      DaysErrorPropagates(td, area, n, m - 1, withCodes);
    }
  }

  lemma {:induction false} CollectErrorPropagates(td: Option<seq<string>>, areas: seq<AreaForecast>, k: nat, code: string, withCodes: bool)
    requires k <= |areas| && Collect(td, areas[..k], code, withCodes) == ParseError
    ensures Collect(td, areas, code, withCodes) == ParseError
  {
    if k < |areas| {
      var init := areas[..|areas| - 1];
      assert init[..k] == areas[..k];
      CollectErrorPropagates(td, init, k, code, withCodes);
    } else {
      assert areas[..k] == areas;
    }
  }

  /** One more day of an area: readable days extend the entries by that
      day's entry, and an unreadable one fails. */
  lemma DaysStep(td: Option<seq<string>>, area: AreaForecast, i: nat, withCodes: bool)
    requires i < DAYS && Days(td, area, i, withCodes).Ok?
    ensures DayReadable(td, area, i, withCodes) ==>
      Days(td, area, i + 1, withCodes) == Ok(Days(td, area, i, withCodes).value + [Entry(td, area, i)])
    ensures !DayReadable(td, area, i, withCodes) ==> Days(td, area, i + 1, withCodes) == ParseError
  {
  }

  /** One more area: its entries, if any, extend those of the areas before it. */
  lemma CollectStep(td: Option<seq<string>>, areas: seq<AreaForecast>, k: nat, code: string, withCodes: bool)
    requires k < |areas| && Collect(td, areas[..k], code, withCodes).Ok?
    ensures Collect(td, areas[..k + 1], code, withCodes) ==
      match AreaForecasts(td, areas[k], code, withCodes)
      case ParseError => ParseError
      case Ok(fs) => Ok(Collect(td, areas[..k], code, withCodes).value + fs)
  {
    assert areas[..k + 1][..k] == areas[..k];
  }

  /** db.py's extraction loop: for each area whose code matches, append the
      entries of days 0, 1 and 2; any missing key or index aborts. */
  method CollectForecasts(response: Response, code: string) returns (r: Parsed<seq<Forecast>>)
    ensures r == Extract(response, code, false)
  {
    if !(|response| > 0 && response[0].timeSeries.Some? && |response[0].timeSeries.value| > 0) {
      return ParseError;
    }
    var series := response[0].timeSeries.value[0];
    if series.areas.None? {
      return ParseError;
    }
    var areas := series.areas.value;
    var td := series.timeDefines;
    var forecasts: seq<Forecast> := [];
    for k := 0 to |areas|
      invariant Collect(td, areas[..k], code, false) == Ok(forecasts)
    {
      var area := areas[k];
      CollectStep(td, areas, k, code, false);
      if area.area.None? || area.area.value.code.None? {
        CollectErrorPropagates(td, areas, k + 1, code, false);
        return ParseError;
      }
      ghost var before := forecasts;
      if area.area.value.code.value == code {
        for i := 0 to DAYS
          invariant Days(td, area, i, false).Ok?
          invariant forecasts == before + Days(td, area, i, false).value
        {
          DaysStep(td, area, i, false);
          if !(td.Some? && i < |td.value|) || !(area.weathers.Some? && i < |area.weathers.value|)
             || !(area.winds.Some? && i < |area.winds.value|)
             || (area.waves.Some? && i >= |area.waves.value|) {
            DaysErrorPropagates(td, area, i + 1, DAYS, false);
            CollectErrorPropagates(td, areas, k + 1, code, false);
            return ParseError;
          }
          var date := td.value[i];
          var weather := area.weathers.value[i];
          var wind := area.winds.value[i];
          var wave := if area.waves.None? then NO_WAVE_INFO else area.waves.value[i];
          forecasts := forecasts + [Forecast(date, weather, wind, wave)];
        }
      } else {
        assert forecasts == before + [];
      }
    }
    assert areas[..|areas|] == areas;
    r := Ok(forecasts);
  }

  // ---------------------------------------------------------------------
  // The municipality name map of the prefecture handler.

  /** `area["area"]["code"]` and `area["area"]["name"]` both exist. */
  predicate Named(a: AreaForecast) {
    a.area.Some? && a.area.value.code.Some? && a.area.value.name.Some?
  }

  /** `{area["area"]["code"]: area["area"]["name"] for area in areas}`: a
      later element with the same code overrides an earlier one. */
  function NamesOf(areas: seq<AreaForecast>): Parsed<map<string, string>> {
    if areas == [] then Ok(map[])
    else match NamesOf(areas[..|areas| - 1])
      case ParseError => ParseError
      case Ok(m) =>
        var a := areas[|areas| - 1];
        if Named(a) then Ok(m[a.area.value.code.value := a.area.value.name.value]) else ParseError
  }

  /** The name map of a response, read from `weather_data[0]["timeSeries"][0]["areas"]`. */
  function AreaNames(response: Response): Parsed<map<string, string>> {
    match AreasOf(response)
    case ParseError => ParseError
    case Ok(areas) => NamesOf(areas)
  }

  /** The name map exists exactly when every area has a code and a name. */
  lemma {:induction false} NamesOfOk(areas: seq<AreaForecast>)
    ensures NamesOf(areas).Ok? <==> forall i | 0 <= i < |areas| :: Named(areas[i])
  {
    if areas != [] {
      var init := areas[..|areas| - 1];
      NamesOfOk(init);
      assert forall i | 0 <= i < |init| :: init[i] == areas[i];
    }
  }

  /** The keys of the name map are exactly the codes of the areas. */
  lemma {:induction false} NamesOfKeys(areas: seq<AreaForecast>, c: string)
    requires NamesOf(areas).Ok?
    ensures c in NamesOf(areas).value <==> exists i | 0 <= i < |areas| :: CodeOf(areas[i]) == Ok(c)
  {
    if areas != [] {
      var init, last := areas[..|areas| - 1], areas[|areas| - 1];
      NamesOfKeys(init, c);
      assert forall i | 0 <= i < |init| :: init[i] == areas[i];
      if c in NamesOf(areas).value && c !in NamesOf(init).value {
        assert CodeOf(areas[|areas| - 1]) == Ok(c);
      }
    }
  }

  /** A code maps to the name of the last area that carries it. */
  lemma {:induction false} NamesOfLastWins(areas: seq<AreaForecast>, i: nat)
    requires NamesOf(areas).Ok? && i < |areas|
    requires forall j | i < j < |areas| :: CodeOf(areas[j]) != CodeOf(areas[i])
    ensures Named(areas[i]) && areas[i].area.value.code.value in NamesOf(areas).value
    ensures NamesOf(areas).value[areas[i].area.value.code.value] == areas[i].area.value.name.value
  {
    var init := areas[..|areas| - 1];
    if i < |areas| - 1 {
      assert forall j | 0 <= j < |init| :: init[j] == areas[j];
      NamesOfLastWins(init, i);
      assert CodeOf(areas[|areas| - 1]) != CodeOf(areas[i]);
    }
  }

  // ---------------------------------------------------------------------
  // The request for a municipality's forecast.

  /** `area_code[:2] + "0000"`, the code whose forecast file main.py and
      db.py request for a municipality. Python's slice gives the whole
      string when it is shorter than two characters. */
  function PrefectureCodeOf(areaCode: string): (r: string)
    ensures |r| == if |areaCode| >= 2 then 6 else |areaCode| + 4
    ensures r[|r| - 4..] == "0000"
    ensures r[..|r| - 4] == if |areaCode| >= 2 then areaCode[..2] else areaCode
  {
    (if |areaCode| >= 2 then areaCode[..2] else areaCode) + "0000"
  }
}
