/** The cascading selection screen: region, prefecture and municipality
    dropdowns (and, in db2.py, a date dropdown) beside a result text. The
    three programs share the region and prefecture handlers and differ in
    what choosing a municipality does:
      - main.py fetches the forecast and shows it;
      - db.py fetches it, stores it, and shows every stored row of the area;
      - db2.py lists the stored dates of the area, and choosing a date shows
        the stored rows of that date. */
module Selection {
  import opened Json
  import opened Taxonomy
  import opened Forecast
  import opened Store
  import opened Render

  /** Which program's handlers the screen runs. */
  datatype Variant = Main | Db | Db2

  /** The forecast text main.py shows for a fetched response, if it can be
      read; `None` for a failed request or a missing key or index. */
  function ForecastOutcome(response: Option<Response>, code: string, name: string): Option<string> {
    if response.None? then None
    else
      match Extract(response.value, code, true)
      case ParseError => None
      case Ok(fs) => Some(Header(name, code) + ForecastBlocks(fs))
  }

  /** main.py shows a text exactly when the request succeeds and the response
      is readable; the text is the header followed by three blocks per
      matching area. */
  lemma ForecastOutcomeSpec(response: Option<Response>, code: string, name: string)
    ensures ForecastOutcome(response, code, name).Some? <==> response.Some? && Readable(response.value, code, true)
    ensures ForecastOutcome(response, code, name).Some? ==>
      && Extract(response.value, code, true).Ok?
      && ForecastOutcome(response, code, name).value
         == Header(name, code) + ForecastBlocks(Extract(response.value, code, true).value)
      && |Extract(response.value, code, true).value| == DAYS * |Matching(AreasOf(response.value).value, code)|
  {
    if response.Some? {
      ExtractSpec(response.value, code, true);
    }
  }

  /** The forecast entries db.py reads for `code` from a fetched response, if
      it can be read. */
  function StoredOutcome(response: Option<Response>, code: string): Option<seq<Forecast>> {
    if response.None? then None
    else
      match Extract(response.value, code, false)
      case ParseError => None
      case Ok(fs) => Some(fs)
  }

  /** db.py stores entries exactly when the request succeeds and the response
      is readable; it stores three per matching area, and none (while still
      recording the area) when no area matches. */
  lemma StoredOutcomeSpec(response: Option<Response>, code: string)
    ensures StoredOutcome(response, code).Some? <==> response.Some? && Readable(response.value, code, false)
    ensures StoredOutcome(response, code).Some? ==>
      var ms := Matching(AreasOf(response.value).value, code);
      && |StoredOutcome(response, code).value| == DAYS * |ms|
      && (StoredOutcome(response, code).value == [] <==> ms == [])
  {
    if response.Some? {
      ExtractSpec(response.value, code, false);
    }
  }

  /** The first part of db.py's `get_weather`: fetch the forecast file of
      `area_code[:2] + "0000"` and read its entries; `None` for a failed
      request or a missing key or index. */
  method FetchEntries(code: string, fetch: string -> Option<Response>) returns (forecasts: Option<seq<Forecast>>)
    ensures forecasts == StoredOutcome(fetch(PrefectureCodeOf(code)), code)
  {
    var response := fetch(PrefectureCodeOf(code));
    if response.None? {
      return None;
    }
    var entries := CollectForecasts(response.value, code);
    if entries.ParseError? {
      return None;
    }
    forecasts := Some(entries.value);
  }

  /** The screen. `fetch` stands for the HTTP request of a forecast file
      (`None` for a failed request or an error status); `failAt` for the
      statement of a store transaction at which SQLite raises, if any. */
  class Ui {
    const variant: Variant
    const tax: Taxonomy
    const regionOptions: seq<Choice>
    var prefectureOptions: seq<Choice>
    var prefectureVisible: bool
    var municipalityOptions: seq<Choice>
    var municipalityVisible: bool
    /** The value of the municipality dropdown: the last municipality chosen. */
    var municipality: Option<string>
    var dateOptions: seq<Choice>
    var dateVisible: bool
    var result: string

    /** A hidden dropdown holds no options; only db2.py has a date dropdown.
        The handlers that show a result modify none of the fields read here,
        so their frames alone keep it. */
    predicate Valid()
      reads this`prefectureOptions, this`prefectureVisible, this`municipalityOptions, this`municipalityVisible
      reads this`dateOptions, this`dateVisible
    {
      && (!prefectureVisible ==> prefectureOptions == [])
      && (!municipalityVisible ==> municipalityOptions == [])
      && (!dateVisible ==> dateOptions == [])
      && (variant != Db2 ==> !dateVisible)
    }

    /** The screen as first shown: the region options, every other dropdown
        hidden and empty, no result. */
    constructor (variant: Variant, tax: Taxonomy)
      requires tax.Valid()
      ensures Valid()
      ensures this.variant == variant && this.tax == tax
      ensures regionOptions == RegionOptions(tax.centers)
      ensures prefectureOptions == [] && !prefectureVisible
      ensures municipalityOptions == [] && !municipalityVisible && municipality.None?
      ensures dateOptions == [] && !dateVisible && result == ""
    {
      this.variant := variant;
      this.tax := tax;
      regionOptions := RegionOptions(tax.centers);
      prefectureOptions, prefectureVisible := [], false;
      municipalityOptions, municipalityVisible, municipality := [], false, None;
      dateOptions, dateVisible := [], false;
      result := "";
    }

    /** `on_region_select`: a region without children changes nothing;
        otherwise its children become the prefecture options and every
        dropdown below is emptied and hidden. */
    method OnRegionSelect(code: string)
      requires Valid()
      modifies this`prefectureOptions, this`prefectureVisible, this`municipalityOptions, this`municipalityVisible
      modifies this`dateOptions, this`dateVisible
      ensures Valid()
      ensures Children(tax.centers, code) == [] ==> unchanged(this)
      ensures Children(tax.centers, code) != [] ==>
        && prefectureOptions == PrefectureOptions(tax.offices, Children(tax.centers, code))
        && prefectureVisible
        && municipalityOptions == [] && !municipalityVisible
        && dateOptions == [] && !dateVisible
    {
      var children := Children(tax.centers, code);
      if children == [] {
        return;
      }
      prefectureOptions := PrefectureOptions(tax.offices, children);
      prefectureVisible := true;
      municipalityOptions := [];
      municipalityVisible := false;
      if variant == Db2 {
        dateOptions := [];
        dateVisible := false;
      }
    }

    /** `on_prefecture_select`: an office without children changes nothing;
        otherwise the office's forecast file is fetched and its children
        become the municipality options, named from the file. A failed
        request or an area without code or name changes nothing. */
    method OnPrefectureSelect(code: string, fetch: string -> Option<Response>)
      requires Valid()
      modifies this`municipalityOptions, this`municipalityVisible, this`dateOptions, this`dateVisible
      ensures Valid()
      ensures var children := Children(tax.offices, code);
        if children == [] || fetch(code).None? || AreaNames(fetch(code).value).ParseError? then
          unchanged(this)
        else
          && municipalityOptions == MunicipalityOptions(AreaNames(fetch(code).value).value, children)
          && municipalityVisible
          && (variant == Db2 ==> dateOptions == [] && !dateVisible)
          && (variant != Db2 ==> dateOptions == old(dateOptions) && dateVisible == old(dateVisible))
    {
      var children := Children(tax.offices, code);
      if children == [] {
        return;
      }
      var response := fetch(code);
      if response.None? {
        return;
      }
      var names := AreaNames(response.value);
      if names.ParseError? {
        return;
      }
      municipalityOptions := MunicipalityOptions(names.value, children);
      municipalityVisible := true;
      if variant == Db2 {
        dateOptions := [];
        dateVisible := false;
      }
    }

    /** main.py's `on_small_area_select` and `get_weather`: the forecast file
        of `area_code[:2] + "0000"` is fetched and, when it can be read, its
        text replaces the result. */
    method ShowForecast(code: string, fetch: string -> Option<Response>)
      requires variant == Main
      modifies this`municipality, this`result
      ensures municipality == Some(code)
      ensures var outcome := ForecastOutcome(fetch(PrefectureCodeOf(code)), code,
                                             SelectedName(old(municipalityOptions), code));
        result == outcome.GetOr(old(result))
      ensures prefectureOptions == old(prefectureOptions) && prefectureVisible == old(prefectureVisible)
      ensures municipalityOptions == old(municipalityOptions) && municipalityVisible == old(municipalityVisible)
      ensures dateOptions == old(dateOptions) && dateVisible == old(dateVisible)
    {
      municipality := Some(code);
      var name := SelectedName(municipalityOptions, code);
      var response := fetch(PrefectureCodeOf(code));
      if response.None? {
        return;
      }
      var text := ForecastText(response.value, code, name);
      if text.Ok? {
        result := text.value;
      }
    }

    /** db.py's `on_small_area_select` and `get_weather`: the forecast file
        of `area_code[:2] + "0000"` is fetched; when it can be read, its
        entries are stored and shown as `StoreAndShow` says. */
    method StoreForecast(db: Store, code: string, fetch: string -> Option<Response>, failAt: Option<nat>)
      requires variant == Db
      modifies this`municipality, this`result, db
      ensures municipality == Some(code)
      ensures var outcome := StoredOutcome(fetch(PrefectureCodeOf(code)), code);
        if outcome.None? then
          && result == old(result)
          && db.areas == old(db.areas) && db.weather == old(db.weather)
        else
          var fs := outcome.value;
          var committed := failAt.None? || failAt.value > |fs| + 1;
          && db.areas == (if committed then InsertOrIgnore(old(db.areas), code, SelectedName(municipalityOptions, code))
                          else old(db.areas))
          && db.weather == (if committed then old(db.weather) + WeatherRows(code, fs) else old(db.weather))
          && exists rows :: multiset(rows) == multiset(Filter(db.weather, code, None)) && result == RowsText(rows)
      ensures db.regions == old(db.regions) && db.prefectures == old(db.prefectures)
    {
      municipality := Some(code);
      var name := SelectedName(municipalityOptions, code);
      var forecasts := FetchEntries(code, fetch);
      if forecasts.Some? {
        StoreAndShow(db, code, name, forecasts.value, failAt);
      }
    }

    /** The rest of db.py's `get_weather` once the entries are read: store
        them under the municipality, all or nothing, the area row being
        inserted-or-ignored even when there are no entries; then show every
        stored row of the municipality, earlier fetches included. */
    method StoreAndShow(db: Store, code: string, name: string, forecasts: seq<Forecast>, failAt: Option<nat>)
      modifies this`result, db
      ensures var committed := failAt.None? || failAt.value > |forecasts| + 1;
        && db.areas == (if committed then InsertOrIgnore(old(db.areas), code, name) else old(db.areas))
        && db.weather == (if committed then old(db.weather) + WeatherRows(code, forecasts) else old(db.weather))
      ensures exists rows :: multiset(rows) == multiset(Filter(db.weather, code, None)) && result == RowsText(rows)
      ensures db.regions == old(db.regions) && db.prefectures == old(db.prefectures)
    {
      var _ := db.InsertWeatherData(code, name, forecasts, failAt);
      var rows := db.Select(code, None);
      result := RenderRows(rows);
    }

    /** db2.py's `on_small_area_select` and `get_weather_dates`: the date
        dropdown lists each date stored for the municipality once, and is
        shown. */
    method ListDates(db: Store, code: string)
      requires Valid() && variant == Db2
      modifies this`municipality, this`dateOptions, this`dateVisible
      ensures Valid()
      ensures municipality == Some(code)
      ensures dateVisible
      ensures forall i, j | 0 <= i < j < |dateOptions| :: dateOptions[i].key != dateOptions[j].key
      ensures forall d :: d in KeysOf(dateOptions) <==> d in DatesOf(db.weather, code)
      ensures forall o | o in dateOptions :: o.text == o.key
      ensures prefectureOptions == old(prefectureOptions) && prefectureVisible == old(prefectureVisible)
      ensures municipalityOptions == old(municipalityOptions) && municipalityVisible == old(municipalityVisible)
      ensures result == old(result)
    {
      municipality := Some(code);
      var dates := db.SelectDates(code);
      dateOptions := DateOptions(dates);
      dateVisible := true;
      forall o | o in dateOptions
        ensures o.text == o.key
      {
        var i :| 0 <= i < |dateOptions| && dateOptions[i] == o;
      }
    }

    /** db2.py's `on_date_select` and `display_weather`: the stored rows of
        the chosen municipality and date, or the no-data message when there
        are none. With no municipality chosen yet the query matches nothing. */
    method ShowDate(db: Store, date: string)
      requires variant == Db2
      modifies this`result
      ensures municipality.None? ==> result == NO_DATA
      ensures municipality.Some? ==> exists rows ::
        multiset(rows) == multiset(Filter(db.weather, municipality.value, Some(date))) && result == DisplayText(rows)
      ensures result == NO_DATA <==> municipality.None? || Filter(db.weather, municipality.value, Some(date)) == []
      ensures prefectureOptions == old(prefectureOptions) && prefectureVisible == old(prefectureVisible)
      ensures municipalityOptions == old(municipalityOptions) && municipalityVisible == old(municipalityVisible)
      ensures municipality == old(municipality)
      ensures dateOptions == old(dateOptions) && dateVisible == old(dateVisible)
    {
      var rows: seq<WeatherRow> := [];
      if municipality.Some? {
        rows := db.Select(municipality.value, Some(date));
      }
      var text := RenderRows(rows);
      if text == "" {
        text := NO_DATA;
      }
      result := text;
      DisplayTextSpec(rows);
      if municipality.Some? {
        SameRowsEmpty(rows, Filter(db.weather, municipality.value, Some(date)));
      }
    }
  }

  /** Two row lists holding the same rows are empty together. */
  lemma SameRowsEmpty(a: seq<WeatherRow>, b: seq<WeatherRow>)
    requires multiset(a) == multiset(b)
    ensures a == [] <==> b == []
  {
    assert |multiset(a)| == |a| && |multiset(b)| == |b|;
  }

  /** The office main.py and db.py request, `area_code[:2] + "0000"`, need not
      be an office at all: for the Kushiro-Nemuro office "014100", which
      lists the municipality "014010", it is "010000". The office the
      prefecture handler read the municipality from is the one `OfficeOf`
      finds. */
  lemma PrefectureCodeMissesOffice()
    ensures var offices := [("014100", Node(Some("釧路・根室地方"), Some(["014010"])))];
      && PrefectureCodeOf("014010") == "010000"
      && Get(offices, "010000").None?
      && OfficeOf(offices, "014010") == Some("014100")
  {
    var offices := [("014100", Node(Some("釧路・根室地方"), Some(["014010"])))];
    assert "014010"[..2] == "01";
    assert "014010" in offices[0].1.children.GetOr([]);
    assert offices[0].0 != "010000";
  }
}
