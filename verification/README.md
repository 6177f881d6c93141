# Weather forecast viewer: a Dafny model

The application shows weather forecasts of the Japan Meteorological Agency
on a screen of cascading dropdowns: a region (from `centers` of the area
taxonomy document), one of its prefecture-level forecast offices (from
`offices`), one of the office's municipalities, and, in db2.py only, a date.
It comes in three variants:

- main.py fetches the office's forecast file and shows the three-day forecast
  text of the chosen municipality;
- db.py fetches the same file, appends three entries per matching area to a
  local SQLite `weather` table, and shows every stored row of the municipality;
- db2.py seeds the `regions` and `prefectures` tables from the taxonomy at
  start-up, lists the dates stored for a municipality, and shows the stored
  rows of the chosen date, or a no-data message.

The model has one module per concern:

- `Json`: optional keys and JSON objects as ordered key/value sequences.
- `Taxonomy`: the taxonomy document and the dropdown option lists built from
  it. These are pure comprehensions in the source and functions here.
- `Forecast`: the forecast response as a datatype. Extraction yields
  `Ok(entries)` or `ParseError`. `ParseError` stands for the `KeyError` or
  `IndexError` the program can meet.
- `Store`: the SQLite tables.
  - `regions`, `prefectures` and `areas` are maps keyed by code.
  - `weather` is an append-only sequence.
  - The class `Store` holds them. Its methods are the insert transactions
    and the queries.
- `Render`: the result text.
  - main.py's text is built while the response is read.
  - db.py and db2.py build a block per stored row.
- `Selection`: the screen as a class `Ui`.
  - Its fields are the options and visibility of each dropdown, the chosen
    municipality and the result text.
  - Its methods are the event handlers. `variant` selects the program whose
    handlers run.

The HTTP request is a parameter `fetch: string -> Option<Response>`. `None`
stands for a `RequestException` or an error status. A failing SQLite statement
is a parameter `failAt: Option<nat>`. It gives the index of the statement of a
transaction at which `sqlite3.Error` is raised.

## Model

| member | source | states |
|---|---|---|
| Json.Get | main.py:34 | `d.get(key)` is absent exactly when no member has the key; otherwise it is the value of a member with that key, and in a decoded object the value of the one member with that key |
| Taxonomy.RegionOptions | main.py:29-30 | one option per member of `centers`, in document order, keyed by its code and labelled with its name or "Unknown" |
| Taxonomy.RegionOptionsMatchCenters | main.py:29-30 | the region options' keys are exactly the keys of `centers`, so every region code found by a lookup has an option, and in a decoded document the keys are pairwise distinct |
| Taxonomy.RegionOptionLabels | main.py:29-30 | in a decoded document every region option shows the name of the region with its key, or "Unknown" when that region has no name |
| Taxonomy.PrefectureOptions | main.py:45 | the prefecture options are exactly the region's child codes, in order, each labelled with its `offices` name or "Unnamed Area" |
| Taxonomy.MunicipalityOptions | main.py:74 | the municipality options are exactly the office's child codes, in order, each labelled from the name map of the forecast file or "Unnamed Area" |
| Taxonomy.DateOptions | db2.py:210 | the date options are exactly the stored dates, in order, each labelled with itself |
| Taxonomy.SelectedName | main.py:86 | the text of the first option keyed by the code, or "Unknown" when no option has that key |
| Taxonomy.OfficeOf | main.py:92 | the first office, in document order, whose children list the municipality; absent exactly when no office lists it |
| Taxonomy.OfficeOfListsArea | main.py:59 | the office found lists the municipality among the children the prefecture handler reads, and an office is found whenever some office lists it |
| Forecast.Matching | main.py:104-105 | the areas selected by the code test all carry that code |
| Forecast.MatchingPositionsSpec | main.py:104-105 | the positions the code test selects are exactly the positions whose area carries the requested code, in increasing order |
| Forecast.MatchingSpec | main.py:104-105 | the k-th selected area is the area at the k-th selected position, so the areas selected are every area carrying the code and no other, in their order in the response |
| Forecast.DaysOk | main.py:106-111 | reading days 0..n-1 of one area succeeds exactly when every index read exists; each entry is that day's date, weather, wind and wave, the wave being "情報なし" when `waves` is missing |
| Forecast.CollectOk | main.py:104-111 | the loop over `areas` succeeds exactly when every area has a code and every matching area has all three days readable |
| Forecast.CollectShape | main.py:104-118 | a successful loop yields three entries per matching area, in order, entry 3k+i being day i of the k-th matching area |
| Forecast.ExtractSpec | main.py:99-111 | extraction fails exactly on an unreadable response; otherwise it yields three entries per matching area read day by day, and no entries exactly when no area matches |
| Forecast.WeatherCodesOnlyNarrow | main.py:109 | reading `weatherCodes` only adds failures: when main.py's extraction succeeds db.py's gives the same entries, and when db.py's succeeds main.py's fails exactly when a matching area has fewer than three weather codes |
| Forecast.CollectForecasts | db.py:146-165 | db.py's nested loop returns exactly the extraction of the response, the parse error included |
| Forecast.NamesOfOk | main.py:71 | the municipality name map exists exactly when every area has a code and a name |
| Forecast.NamesOfKeys | main.py:71 | the name map's keys are exactly the areas' codes |
| Forecast.NamesOfLastWins | main.py:71 | a code maps to the name of the last area carrying it |
| Forecast.PrefectureCodeOf | main.py:92 | the requested code is the municipality code's first two characters followed by "0000" (the whole code when shorter) |
| Store.InsertOrIgnore | db.py:57-59 | an insert-or-ignore adds the key when absent and never replaces an existing row |
| Store.WeatherRows | db.py:61-65 | one weather row per forecast entry, in order, carrying the municipality code and the entry's date, weather, wind and wave |
| Store.Filter | db.py:172-174 | a row is selected exactly when it is stored, has the area code and, when a date is given, that date |
| Store.Store.constructor | db.py:7-49 | a new database has four empty tables |
| Store.Store.InsertWeatherData | db.py:51-75 | the transaction commits exactly when no statement raises; on commit the area row is inserted-or-ignored and one weather row per entry is appended; otherwise no table changes |
| Store.InsertChildren | db2.py:105-110 | the inner loop inserts-or-ignores every child office of a region in order, and fails exactly when one of its statements raises |
| Store.SeedStatements | db2.py:98-112 | the seeding statements commit exactly when none of them and not the commit raises; on commit the tables are the seeded ones |
| Store.Store.SeedTaxonomy | db2.py:79-119 | with no document nothing is touched; otherwise the transaction commits exactly when no statement raises, and on commit every region and every child office is inserted-or-ignored in document order; otherwise no table changes |
| Store.SeededRegionName | db2.py:98-103 | a region code that seeding adds is stored with the name of the first member of `centers` having that code and a name |
| Store.Store.Select | db.py:172-177 | the query returns the matching rows, each as often as stored, in some order |
| Store.Store.SelectDates | db2.py:199-208 | the query returns each date stored for the area exactly once and no other value |
| Store.FilterAppend | db.py:172-174 | the query over rows stored in two batches is the query over the first batch followed by the query over the second |
| Store.StoringTwiceDuplicates | db.py:61-67 | storing entries keeps every earlier row of the area and appends one row per entry, so storing them twice stores each entry twice |
| Store.SeedKeepsExisting | db2.py:108-110 | seeding never changes a prefecture row that already exists |
| Store.SeedAbsent | db2.py:105-110 | an office listed under no region, or one that has no name, gets no prefecture row |
| Store.SeedFirstRegionWins | db2.py:105-110 | a named office listed under several regions is stored once, with its name and the first region's code; one without a name is skipped, because NOT NULL under OR IGNORE skips the row |
| Store.SeededRegionsSpec | db2.py:98-103 | after seeding a region code is stored exactly when it was already stored or a member of `centers` with that code has a name; a stored region keeps its name |
| Render.BlocksAppend | db.py:179-181 | the text of items taken in two parts is the first part's blocks followed by the second's, so rows stored in two batches render as the first batch's text followed by the second's |
| Render.RowsTextFirst | db.py:179-181 | the text of rows starts with the first row's block |
| Render.DisplayTextSpec | db2.py:231-236 | the no-data message is shown exactly when no row matches; otherwise the row blocks are shown |
| Render.AppendDay | main.py:106-118 | appending day i's block to the text of the earlier days gives the text of days 0..i |
| Render.ForecastTextShape | main.py:98-118 | the forecast text carries three blocks per matching area, and with no matching area it is the header alone |
| Render.ForecastText | main.py:97-120 | the loop produces the header followed by the blocks of the extracted entries, or fails exactly when the extraction does |
| Render.AppendDays | main.py:106-118 | the inner loop appends the blocks of days 0, 1 and 2 of one area, or fails exactly when reading those days fails |
| Render.RenderRows | db.py:179-181 | the rendered text is one block per row, in order, and is empty exactly when there are no rows |
| Selection.ForecastOutcomeSpec | main.py:90-125 | main.py's outcome is a text exactly when the request succeeds and the response is readable; that text is the header followed by the blocks of the extracted entries |
| Selection.StoredOutcomeSpec | db.py:139-165 | db.py's outcome is a list of entries exactly when the request succeeds and the response is readable; the list holds three entries per matching area |
| Selection.Ui.constructor | db2.py:241-272 | for a decoded document (no repeated key), the screen opens with the region options of the document, every other dropdown hidden and empty, and an empty result |
| Selection.Ui.OnRegionSelect | db2.py:150-166 | a region without children changes nothing; otherwise the prefecture options are its labelled children and the prefecture dropdown is shown, while the municipality and date dropdowns are emptied and hidden |
| Selection.Ui.OnPrefectureSelect | db2.py:168-192 | an office without children, a failed request or an unreadable name map changes nothing; otherwise the municipality options are the office's children labelled from the name map and that dropdown is shown, and db2.py also empties and hides the date dropdown |
| Selection.Ui.ShowForecast | main.py:84-125 | main.py requests the forecast file of `area_code[:2] + "0000"` and replaces the result with its text, labelled with the selected name; a failed request or an unreadable response leaves the result unchanged |
| Selection.Ui.StoreForecast | db.py:134-188 | db.py requests the forecast file of `area_code[:2] + "0000"`; for a readable response the entries are stored all or nothing, the area row is inserted-or-ignored even when no area matches, and the result shows every stored row of the municipality, earlier fetches included; otherwise neither store nor result changes |
| Selection.FetchEntries | db.py:139-165 | the request for `area_code[:2] + "0000"` and the nested loop yield exactly db.py's outcome for that response: no entries for a failed request or an unreadable response |
| Selection.Ui.StoreAndShow | db.py:167-183 | the entries are stored all or nothing and the area row is inserted-or-ignored; the result then shows every stored row of the municipality in some order |
| Selection.Ui.ListDates | db2.py:194-213 | db2.py makes no request and no insert; the date dropdown is shown with each stored date of the municipality exactly once |
| Selection.Ui.ShowDate | db2.py:215-239 | the result shows the stored rows of the chosen municipality and date, and shows the no-data message exactly when there are none |
| Selection.PrefectureCodeMissesOffice | main.py:92 | for the office "014100" listing "014010", `area_code[:2] + "0000"` requests "010000", which is no office, while the office that lists the municipality is "014100" |

## Left out

- Flet widgets are left out, as toolkit behaviour: `page.update`, `page.add`, `ft.app`, labels, widths and Markdown rendering. The dropdowns are the fields of `Selection.Ui`.
- Flet's dropdown values are modelled only for the municipality dropdown. It is the only value a handler reads (db2.py:217).
- The HTTP client is left out: `requests.get`, `raise_for_status` and decoding the response body. The decoded response is the `Forecast.Response` datatype, and a failure is `None` from `fetch`.
- Reading `areas.json` is left out. The decoded taxonomy is a parameter.
  - A missing or unreadable file ends `main` before any screen exists, so no `Ui` is constructed.
  - It makes seeding return before it opens the store (`doc == None`).
- JSON values of unexpected types are not modelled: a `null` name, a non-string code, or `children` that is not a list. Names and codes are strings or missing.
- `print` output is left out, as pure output: the debug `json.dumps` (main.py:23, 102) and `check_database` (db.py:225-239, db2.py:290-310).
- The module-level run order of db.py and db2.py is not modelled: `setup_database` and seeding at import, `check_database` after the app ends.
- Uncaught exceptions are modelled as the handler ending with no field changed, since no field is assigned before the raise. This covers a request failing in main.py's and db.py's `on_prefecture_select` (main.py:67-68, db.py:122-123) and a missing code or name in the name map.
- Store.Store.constructor: models `setup_database` on a new file only. On an existing file the tables keep their rows, which every other member takes as its initial state.
- Store.Store.InsertWeatherData: does not model a failure of `sqlite3.connect` itself. `conn` is then unbound when `finally` closes it. `failAt` covers only the statements and the commit.
- Store.Store.SeedTaxonomy: does not model a failure of `sqlite3.connect` either (db2.py:95, 117).
- SQLite errors in the queries of db.py's `get_weather` and db2.py's `get_weather_dates` and `display_weather` are not modelled. Nothing catches them.
- AUTOINCREMENT ids and the foreign keys are left out. The ids are never read, and SQLite does not enforce foreign keys by default.
- Store.Store.Select: states the rows only up to order, because a SELECT without ORDER BY promises no order (db.py:172, db2.py:224). Selection.Ui.StoreForecast and Selection.Ui.ShowDate state their text for some order of the matching rows for the same reason.
- Store.Store.SelectDates: states the dates as a duplicate-free list of exactly the stored dates, without their order, for the same reason (db2.py:203).

## Findings

The handlers `Selection.Ui.ShowForecast`, `Selection.Ui.StoreForecast` and `Selection.FetchEntries` request the code as written. The corrected request is the office `Taxonomy.OfficeOf` finds; `Taxonomy.OfficeOfListsArea` proves it is the office whose children the prefecture handler listed.

| source | as written | input that shows it | evidently intended | confidence | as-written member | corrected member |
|---|---|---|---|---|---|---|
| main.py:92 | the forecast file requested for a municipality is `area_code[:2] + "0000"` | office "014100" whose children are ["014010"]: the request is for "010000", which is not an office, so the request fails and nothing is shown (`Selection.PrefectureCodeMissesOffice`) | request the forecast file of the office that lists the municipality, as the prefecture handler does | not executed | Forecast.PrefectureCodeOf | Taxonomy.OfficeOf |
| db.py:141 | the same `area_code[:2] + "0000"` request before extracting and storing | the same office "014100" and municipality "014010": nothing is fetched or stored (`Selection.PrefectureCodeMissesOffice`) | request the forecast file of the office that lists the municipality | not executed | Forecast.PrefectureCodeOf | Taxonomy.OfficeOf |
