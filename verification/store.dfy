/** The local relational store of db.py and db2.py: tables `regions`,
    `prefectures` and `areas` keyed by code, and the append-only `weather`
    table. Every write runs in one transaction that is committed only after
    all of its statements succeed; closing the connection without a commit
    discards the transaction. */
module Store {
  import opened Json
  import opened Taxonomy
  import opened Forecast

  /** A row of `weather` (its AUTOINCREMENT id is not modelled). */
  datatype WeatherRow = WeatherRow(areaCode: string, date: string, weather: string, wind: string, wave: string)

  /** A row of `prefectures`. */
  datatype PrefectureRow = PrefectureRow(name: string, regionCode: string)

  /** `INSERT OR IGNORE` on a primary key: an existing row is never replaced. */
  function InsertOrIgnore<V>(table: map<string, V>, key: string, value: V): (r: map<string, V>)
    ensures r.Keys == table.Keys + {key}
    ensures key in table ==> r == table
    ensures key !in table ==> r == table[key := value]
  {
    if key in table then table else table[key := value]
  }

  /** `INSERT OR IGNORE INTO regions (code, name)`: `name` is NOT NULL, so a
      missing name makes SQLite skip the row instead of raising. */
  function InsertRegion(regions: map<string, string>, code: string, name: Option<string>): map<string, string> {
    if name.None? then regions else InsertOrIgnore(regions, code, name.value)
  }

  /** `INSERT OR IGNORE INTO prefectures (code, name, region_code)`, skipped
      likewise when the office has no name. */
  function InsertPrefecture(prefectures: map<string, PrefectureRow>, code: string, name: Option<string>, region: string): map<string, PrefectureRow> {
    if name.None? then prefectures else InsertOrIgnore(prefectures, code, PrefectureRow(name.value, region))
  }

  /** `offices.get(code, {}).get("name")`: absent when either is missing. */
  function OfficeName(offices: Dict<Node>, code: string): Option<string> {
    match Get(offices, code)
    case None => None
    case Some(n) => n.name
  }

  /** `region_data.get("children", [])`. */
  function ChildList(node: Node): seq<string> {
    node.children.GetOr([])
  }

  /** The weather rows appended for `forecasts`: one per entry, in order. */
  function WeatherRows(areaCode: string, forecasts: seq<Forecast>): (r: seq<WeatherRow>)
    ensures |r| == |forecasts|
    ensures forall i | 0 <= i < |forecasts| ::
      r[i] == WeatherRow(areaCode, forecasts[i].date, forecasts[i].weather, forecasts[i].wind, forecasts[i].wave)
  {
    if forecasts == [] then []
    else
      var f := forecasts[|forecasts| - 1];
      WeatherRows(areaCode, forecasts[..|forecasts| - 1]) + [WeatherRow(areaCode, f.date, f.weather, f.wind, f.wave)]
  }

  /** `WHERE area_code = ?` and, when a date is given, `AND date = ?`, in
      storage order. */
  function Filter(rows: seq<WeatherRow>, area: string, date: Option<string>): (r: seq<WeatherRow>)
    ensures forall x :: x in r <==> x in rows && x.areaCode == area && (date.Some? ==> x.date == date.value)
    ensures |r| <= |rows|
  {
    if rows == [] then []
    else
      var x := rows[|rows| - 1];
      Filter(rows[..|rows| - 1], area, date)
        + (if x.areaCode == area && (date.None? || x.date == date.value) then [x] else [])
  }

  /** The dates stored for an area (`SELECT DISTINCT date ... WHERE area_code = ?`). */
  function DatesOf(rows: seq<WeatherRow>, area: string): set<string> {
    set x | x in rows && x.areaCode == area :: x.date
  }

  /** `regions` after the seeding loop over `centers`. */
  function SeededRegions(regions: map<string, string>, centers: Dict<Node>): map<string, string> {
    if centers == [] then regions
    else
      var (code, node) := centers[|centers| - 1];
      InsertRegion(SeededRegions(regions, centers[..|centers| - 1]), code, node.name)
  }

  /** `prefectures` after inserting the given children of one region. */
  function SeededChildren(prefectures: map<string, PrefectureRow>, offices: Dict<Node>, region: string, children: seq<string>): map<string, PrefectureRow> {
    if children == [] then prefectures
    else
      var p := children[|children| - 1];
      InsertPrefecture(SeededChildren(prefectures, offices, region, children[..|children| - 1]), p, OfficeName(offices, p), region)
  }

  /** `prefectures` after the seeding loop over `centers`. */
  function SeededPrefectures(prefectures: map<string, PrefectureRow>, offices: Dict<Node>, centers: Dict<Node>): map<string, PrefectureRow> {
    if centers == [] then prefectures
    else
      var (code, node) := centers[|centers| - 1];
      SeededChildren(SeededPrefectures(prefectures, offices, centers[..|centers| - 1]), offices, code, ChildList(node))
  }

  /** The number of INSERT statements the seeding loop issues. */
  function Statements(centers: Dict<Node>): nat {
    if centers == [] then 0
    else Statements(centers[..|centers| - 1]) + 1 + |ChildList(centers[|centers| - 1].1)|
  }

  /** The inner loop of `insert_data_from_json`: insert-or-ignore every child
      office of one region as a prefecture of that region, the first insert
      being statement `stmt`; `failed` says that SQLite raised at one of them. */
  method InsertChildren(prefectures: map<string, PrefectureRow>, offices: Dict<Node>, region: string,
                        children: seq<string>, stmt: nat, failAt: Option<nat>)
    returns (r: map<string, PrefectureRow>, failed: bool)
    ensures failed <==> failAt.Some? && stmt <= failAt.value < stmt + |children|
    ensures !failed ==> r == SeededChildren(prefectures, offices, region, children)
  {
    r := prefectures;
    for j := 0 to |children|
      invariant r == SeededChildren(prefectures, offices, region, children[..j])
      invariant !(failAt.Some? && stmt <= failAt.value < stmt + j)
    {
      assert children[..j + 1][..j] == children[..j];
      if failAt == Some(stmt + j) {
        return r, true;
      }
      r := InsertPrefecture(r, children[j], OfficeName(offices, children[j]), region);
    }
    assert children[..|children|] == children;
    failed := false;
  }

  /** The statements of `insert_data_from_json` in execution order: for each
      region, insert-or-ignore the region, then each of its child offices as
      a prefecture of that region; then the commit. `failAt` indexes these
      statements, the commit last; `committed` is false when SQLite raises,
      and otherwise the tables to commit are returned. */
  method SeedStatements(regions: map<string, string>, prefectures: map<string, PrefectureRow>,
                        offices: Dict<Node>, centers: Dict<Node>, failAt: Option<nat>)
    returns (committed: bool, newRegions: map<string, string>, newPrefectures: map<string, PrefectureRow>)
    ensures committed <==> failAt.None? || failAt.value > Statements(centers)
    ensures committed ==> newRegions == SeededRegions(regions, centers)
    ensures committed ==> newPrefectures == SeededPrefectures(prefectures, offices, centers)
  {
    newRegions, newPrefectures := regions, prefectures;
    var stmt := 0;
    for i := 0 to |centers|
      invariant newRegions == SeededRegions(regions, centers[..i])
      invariant newPrefectures == SeededPrefectures(prefectures, offices, centers[..i])
      invariant stmt == Statements(centers[..i])
      invariant failAt.Some? ==> failAt.value >= stmt
    {
      assert centers[..i + 1][..i] == centers[..i];
      StatementsGrow(centers, i);
      var (code, node) := centers[i];
      if failAt == Some(stmt) {
        return false, newRegions, newPrefectures;
      }
      newRegions := InsertRegion(newRegions, code, node.name);
      stmt := stmt + 1;
      var children := ChildList(node);
      var failed;
      newPrefectures, failed := InsertChildren(newPrefectures, offices, code, children, stmt, failAt);
      if failed {
        return false, newRegions, newPrefectures;
      }
      stmt := stmt + |children|;
    }
    assert centers[..|centers|] == centers;
    committed := failAt != Some(stmt);
  }

  class Store {
    var regions: map<string, string>
    var prefectures: map<string, PrefectureRow>
    var areas: map<string, string>
    var weather: seq<WeatherRow>

    /** `setup_database` on a new file: four empty tables. */
    constructor ()
      ensures regions == map[] && prefectures == map[] && areas == map[] && weather == []
    {
      regions, prefectures, areas, weather := map[], map[], map[], [];
    }

    /** `insert_weather_data`: insert-or-ignore the area row, then append one
        weather row per forecast, then commit. `failAt` is the index of the
        statement at which SQLite raises (0 the area insert, 1 .. n the
        weather inserts, n + 1 the commit), if any; the error is caught and
        the transaction is discarded. */
    method InsertWeatherData(areaCode: string, areaName: string, forecasts: seq<Forecast>, failAt: Option<nat>)
      returns (committed: bool)
      modifies this`areas, this`weather
      ensures committed <==> failAt.None? || failAt.value > |forecasts| + 1
      ensures committed ==> areas == InsertOrIgnore(old(areas), areaCode, areaName)
      ensures committed ==> weather == old(weather) + WeatherRows(areaCode, forecasts)
      ensures !committed ==> areas == old(areas) && weather == old(weather)
      ensures regions == old(regions) && prefectures == old(prefectures)
    {
      if failAt == Some(0) {
        return false;
      }
      var newAreas := InsertOrIgnore(areas, areaCode, areaName);
      var newWeather := weather;
      for i := 0 to |forecasts|
        invariant newWeather == weather + WeatherRows(areaCode, forecasts[..i])
        invariant failAt.Some? ==> failAt.value > i
      {
        if failAt == Some(i + 1) {
          return false;
        }
        var f := forecasts[i];
        assert forecasts[..i + 1][..i] == forecasts[..i];
        newWeather := newWeather + [WeatherRow(areaCode, f.date, f.weather, f.wind, f.wave)];
      }
      assert forecasts[..|forecasts|] == forecasts;
      if failAt == Some(|forecasts| + 1) {
        return false;
      }
      areas, weather := newAreas, newWeather;
      committed := true;
    }

    /** `insert_data_from_json`: with no readable document, return before
        touching the store; otherwise run the seeding statements and commit
        their tables when none raises. */
    method SeedTaxonomy(doc: Option<Taxonomy>, failAt: Option<nat>) returns (committed: bool)
      modifies this`regions, this`prefectures
      ensures committed <==> doc.Some? && (failAt.None? || failAt.value > Statements(doc.value.centers))
      ensures committed ==> regions == SeededRegions(old(regions), doc.value.centers)
      ensures committed ==> prefectures == SeededPrefectures(old(prefectures), doc.value.offices, doc.value.centers)
      ensures !committed ==> regions == old(regions) && prefectures == old(prefectures)
      ensures areas == old(areas) && weather == old(weather)
    {
      if doc.None? {
        return false;
      }
      var newRegions, newPrefectures;
      committed, newRegions, newPrefectures := SeedStatements(regions, prefectures, doc.value.offices, doc.value.centers, failAt);
      if committed {
        regions, prefectures := newRegions, newPrefectures;
      }
    }

    /** `SELECT ... FROM weather WHERE area_code = ?` (with `AND date = ?`
        when a date is given). With no ORDER BY the row order is not
        promised: the result is the matching rows in some order. */
    method Select(area: string, date: Option<string>) returns (rows: seq<WeatherRow>)
      ensures multiset(rows) == multiset(Filter(weather, area, date))
    {
      rows := [];
      for i := 0 to |weather|
        invariant rows == Filter(weather[..i], area, date)
      {
        assert weather[..i + 1][..i] == weather[..i];
        var x := weather[i];
        if x.areaCode == area && (date.None? || x.date == date.value) {
          rows := rows + [x];
        }
      }
      assert weather[..|weather|] == weather;
    }

    /** `SELECT DISTINCT date FROM weather WHERE area_code = ?`: each stored
        date of the area exactly once, in no promised order. */
    method SelectDates(area: string) returns (dates: seq<string>)
      ensures forall i, j | 0 <= i < j < |dates| :: dates[i] != dates[j]
      ensures forall d :: d in dates <==> d in DatesOf(weather, area)
    {
      dates := [];
      for i := 0 to |weather|
        invariant forall a, b | 0 <= a < b < |dates| :: dates[a] != dates[b]
        invariant forall d :: d in dates <==> d in DatesOf(weather[..i], area)
      {
        assert weather[..i + 1] == weather[..i] + [weather[i]];
        var x := weather[i];
        if x.areaCode == area && x.date !in dates {
          dates := dates + [x.date];
        }
      }
      assert weather[..|weather|] == weather;
    }
  }

  // ---------------------------------------------------------------------
  // Properties of the weather table.

  lemma {:induction false} StatementsGrow(centers: Dict<Node>, k: nat)
    requires k < |centers|
    ensures Statements(centers[..k + 1]) == Statements(centers[..k]) + 1 + |ChildList(centers[k].1)|
    ensures Statements(centers[..k + 1]) <= Statements(centers)
  {
    assert centers[..k + 1][..k] == centers[..k];
    if k + 1 < |centers| {
      StatementsGrow(centers[..|centers| - 1], k);
      assert centers[..|centers| - 1][..k + 1] == centers[..k + 1];
    } else {
      assert centers[..k + 1] == centers;
    }
  }

  /** One more stored row is selected after the others exactly when it matches. */
  lemma FilterSnoc(rows: seq<WeatherRow>, x: WeatherRow, area: string, date: Option<string>)
    ensures Filter(rows + [x], area, date) ==
      Filter(rows, area, date) + (if x.areaCode == area && (date.None? || x.date == date.value) then [x] else [])
  {
    assert (rows + [x])[..|rows|] == rows;
  }

  /** Rows stored in two batches are selected batch by batch, in storage order. */
  lemma {:induction false} FilterAppend(a: seq<WeatherRow>, b: seq<WeatherRow>, area: string, date: Option<string>)
    ensures Filter(a + b, area, date) == Filter(a, area, date) + Filter(b, area, date)
  {
    if b != [] {
      var init, x := b[..|b| - 1], b[|b| - 1];
      assert a + b == (a + init) + [x];
      assert b == init + [x];
      FilterAppend(a, init, area, date);
      FilterSnoc(a + init, x, area, date);
      FilterSnoc(init, x, area, date);
    } else {
      assert a + b == a;
    }
  }

  lemma {:induction false} FilterOwnRows(areaCode: string, forecasts: seq<Forecast>)
    ensures Filter(WeatherRows(areaCode, forecasts), areaCode, None) == WeatherRows(areaCode, forecasts)
  {
    if forecasts != [] {
      var rows := WeatherRows(areaCode, forecasts);
      FilterOwnRows(areaCode, forecasts[..|forecasts| - 1]);
      assert rows[..|rows| - 1] == WeatherRows(areaCode, forecasts[..|forecasts| - 1]);
    }
  }

  /** Weather rows are append-only: storing `forecasts` for an area keeps
      every earlier row of the area and adds exactly one row per entry, so
      storing the same forecasts twice stores every entry twice. */
  lemma StoringTwiceDuplicates(weather: seq<WeatherRow>, areaCode: string, forecasts: seq<Forecast>)
    ensures var once := weather + WeatherRows(areaCode, forecasts);
      && Filter(once, areaCode, None) == Filter(weather, areaCode, None) + WeatherRows(areaCode, forecasts)
      && |Filter(once + WeatherRows(areaCode, forecasts), areaCode, None)|
         == |Filter(weather, areaCode, None)| + 2 * |forecasts|
  {
    var rows := WeatherRows(areaCode, forecasts);
    FilterAppend(weather, rows, areaCode, None);
    FilterAppend(weather + rows, rows, areaCode, None);
    FilterOwnRows(areaCode, forecasts);
  }

  // ---------------------------------------------------------------------
  // Properties of seeding.

  lemma {:induction false} SeededChildrenKeeps(t: map<string, PrefectureRow>, offices: Dict<Node>, region: string, children: seq<string>, p: string)
    ensures p in t ==> p in SeededChildren(t, offices, region, children) && SeededChildren(t, offices, region, children)[p] == t[p]
    ensures p !in t && p !in children ==> p !in SeededChildren(t, offices, region, children)
    ensures p !in t && OfficeName(offices, p).None? ==> p !in SeededChildren(t, offices, region, children)
    ensures p !in t && p in children && OfficeName(offices, p).Some? ==>
      p in SeededChildren(t, offices, region, children) &&
      SeededChildren(t, offices, region, children)[p] == PrefectureRow(OfficeName(offices, p).value, region)
  {
    if children != [] {
      var init := children[..|children| - 1];
      SeededChildrenKeeps(t, offices, region, init, p);
      assert children == init + [children[|children| - 1]];
    }
  }

  /** Seeding never changes a prefecture row that already exists. */
  lemma {:induction false} SeedKeepsExisting(t: map<string, PrefectureRow>, offices: Dict<Node>, centers: Dict<Node>, p: string)
    requires p in t
    ensures p in SeededPrefectures(t, offices, centers) && SeededPrefectures(t, offices, centers)[p] == t[p]
  {
    if centers != [] {
      var init := centers[..|centers| - 1];
      SeedKeepsExisting(t, offices, init, p);
      SeededChildrenKeeps(SeededPrefectures(t, offices, init), offices, centers[|centers| - 1].0, ChildList(centers[|centers| - 1].1), p);
    }
  }

  lemma {:induction false} SeedAbsent(t: map<string, PrefectureRow>, offices: Dict<Node>, centers: Dict<Node>, p: string)
    requires p !in t
    requires (forall i | 0 <= i < |centers| :: p !in ChildList(centers[i].1)) || OfficeName(offices, p).None?
    ensures p !in SeededPrefectures(t, offices, centers)
  {
    if centers != [] {
      var init := centers[..|centers| - 1];
      assert forall i | 0 <= i < |init| :: init[i] == centers[i];
      SeedAbsent(t, offices, init, p);
      SeededChildrenKeeps(SeededPrefectures(t, offices, init), offices, centers[|centers| - 1].0, ChildList(centers[|centers| - 1].1), p);
    }
  }

  /** An office listed under several regions is stored once, with its name
      and the code of the first region that lists it; an office with no name
      in `offices` is not stored at all. */
  lemma {:induction false} SeedFirstRegionWins(t: map<string, PrefectureRow>, offices: Dict<Node>, centers: Dict<Node>, p: string, i: nat)
    requires p !in t && i < |centers| && p in ChildList(centers[i].1)
    requires forall j | 0 <= j < i :: p !in ChildList(centers[j].1)
    ensures OfficeName(offices, p).Some? ==>
      p in SeededPrefectures(t, offices, centers) &&
      SeededPrefectures(t, offices, centers)[p] == PrefectureRow(OfficeName(offices, p).value, centers[i].0)
    ensures OfficeName(offices, p).None? ==> p !in SeededPrefectures(t, offices, centers)
  {
    if OfficeName(offices, p).None? {
      SeedAbsent(t, offices, centers, p);
    } else {
      var init := centers[..|centers| - 1];
      var (code, node) := centers[|centers| - 1];
      assert forall j | 0 <= j < |init| :: init[j] == centers[j];
      if i < |centers| - 1 {
        SeedFirstRegionWins(t, offices, init, p, i);
        SeededChildrenKeeps(SeededPrefectures(t, offices, init), offices, code, ChildList(node), p);
      } else {
        SeedAbsent(t, offices, init, p);
        SeededChildrenKeeps(SeededPrefectures(t, offices, init), offices, code, ChildList(node), p);
      }
    }
  }

  /** After seeding, a region code is stored exactly when it was already
      stored or some member of `centers` with that code has a name; a stored
      region keeps its name. */
  lemma {:induction false} SeededRegionsSpec(t: map<string, string>, centers: Dict<Node>, code: string)
    ensures code in SeededRegions(t, centers) <==>
      code in t || exists i | 0 <= i < |centers| :: centers[i].0 == code && centers[i].1.name.Some?
    ensures code in t ==> SeededRegions(t, centers)[code] == t[code]
  {
    if centers != [] {
      var init := centers[..|centers| - 1];
      SeededRegionsSpec(t, init, code);
      assert forall i | 0 <= i < |init| :: init[i] == centers[i];
    }
  }

  /** A region code seeding adds is stored with the name of the first member
      of `centers` that has that code and a name. */
  lemma {:induction false} SeededRegionName(t: map<string, string>, centers: Dict<Node>, i: nat)
    requires i < |centers| && centers[i].0 !in t && centers[i].1.name.Some?
    requires forall j | 0 <= j < i :: centers[j].0 == centers[i].0 ==> centers[j].1.name.None?
    ensures centers[i].0 in SeededRegions(t, centers)
    ensures SeededRegions(t, centers)[centers[i].0] == centers[i].1.name.value
  {
    var init := centers[..|centers| - 1];
    var code := centers[i].0;
    if i == |centers| - 1 {
      SeededRegionsSpec(t, init, code);
      assert forall j | 0 <= j < |init| :: init[j] == centers[j];
    } else {
      assert init[i] == centers[i];
      SeededRegionName(t, init, i);
    }
  }
}
