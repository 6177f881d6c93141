/** The area taxonomy document and the dropdown option lists built from it.
    `centers` are the regions (top level), `offices` the prefecture-level
    forecast offices; both map a code to an optional name and an optional
    list of child codes. */
module Taxonomy {
  import opened Json

  /** One member of `centers` or `offices`: `{name, children}`, either of which may be missing. */
  datatype Node = Node(name: Option<string>, children: Option<seq<string>>)

  /** The decoded taxonomy; a document without `offices` or `centers` gives an empty object. */
  datatype Taxonomy = Taxonomy(offices: Dict<Node>, centers: Dict<Node>) {
    predicate Valid() {
      DistinctKeys(offices) && DistinctKeys(centers)
    }
  }

  /** A dropdown option: its key and its displayed text. */
  datatype Choice = Choice(key: string, text: string)

  const UNKNOWN := "Unknown"
  const UNNAMED_AREA := "Unnamed Area"

  /** `d.get(code, {}).get("children", [])`. */
  function Children(d: Dict<Node>, code: string): seq<string> {
    match Get(d, code)
    case None => []
    case Some(n) => n.children.GetOr([])
  }

  /** `d.get(code, {}).get("name", default)`. */
  function Label(d: Dict<Node>, code: string, default: string): string {
    match Get(d, code)
    case None => default
    case Some(n) => n.name.GetOr(default)
  }

  /** The keys of a list of options, in order. */
  function KeysOf(options: seq<Choice>): (r: seq<string>)
    ensures |r| == |options|
    ensures forall i | 0 <= i < |options| :: r[i] == options[i].key
  {
    seq(|options|, i requires 0 <= i < |options| => options[i].key)
  }

  /** The region dropdown's options: one per member of `centers`, in order,
      labelled with its name or "Unknown". */
  function RegionOptions(centers: Dict<Node>): (r: seq<Choice>)
    ensures |r| == |centers|
    ensures forall i | 0 <= i < |centers| ::
      r[i].key == centers[i].0 && r[i].text == centers[i].1.name.GetOr(UNKNOWN)
  {
    if centers == [] then []
    else RegionOptions(centers[..|centers| - 1]) + [Choice(centers[|centers| - 1].0, centers[|centers| - 1].1.name.GetOr(UNKNOWN))]
  }

  /** Every region of the document has exactly one option: the option keys
      are the region codes, in document order, and in a decoded document they
      do not repeat. */
  lemma RegionOptionsMatchCenters(centers: Dict<Node>)
    ensures KeysOf(RegionOptions(centers)) == Keys(centers)
    ensures forall code | Get(centers, code).Some? :: code in KeysOf(RegionOptions(centers))
    ensures DistinctKeys(centers) ==>
      forall i, j | 0 <= i < j < |centers| :: RegionOptions(centers)[i].key != RegionOptions(centers)[j].key
  {
    var r := RegionOptions(centers);
    var ks := KeysOf(r);
    assert |ks| == |Keys(centers)|;
    forall i | 0 <= i < |ks|
      ensures ks[i] == Keys(centers)[i]
    {
      assert ks[i] == r[i].key == centers[i].0;
    }
    forall code | Get(centers, code).Some?
      ensures code in ks
    {
      var i :| 0 <= i < |centers| && centers[i].0 == code;
      assert ks[i] == code;
    }
  }

  /** Every option shows the name the document gives its region, or "Unknown". */
  lemma RegionOptionLabels(centers: Dict<Node>)
    requires DistinctKeys(centers)
    ensures forall o | o in RegionOptions(centers) ::
      Get(centers, o.key).Some? && o.text == Get(centers, o.key).value.name.GetOr(UNKNOWN)
  {
    var r := RegionOptions(centers);
    forall o | o in r
      ensures Get(centers, o.key).Some? && o.text == Get(centers, o.key).value.name.GetOr(UNKNOWN)
    {
      var i :| 0 <= i < |r| && r[i] == o;
      assert centers[i].0 == o.key;
      assert Get(centers, o.key) == Some(centers[i].1);
    }
  }

  /** The prefecture dropdown's options for the given child codes: one per
      code, in order, labelled from `offices` or "Unnamed Area". */
  function PrefectureOptions(offices: Dict<Node>, codes: seq<string>): (r: seq<Choice>)
    ensures KeysOf(r) == codes
    ensures forall i | 0 <= i < |codes| :: r[i].text == Label(offices, codes[i], UNNAMED_AREA)
  {
    if codes == [] then []
    else PrefectureOptions(offices, codes[..|codes| - 1]) + [Choice(codes[|codes| - 1], Label(offices, codes[|codes| - 1], UNNAMED_AREA))]
  }

  /** The municipality dropdown's options for the given child codes: one per
      code, in order, labelled from the name map taken from the forecast
      response, or "Unnamed Area" when the map has no entry. */
  function MunicipalityOptions(names: map<string, string>, codes: seq<string>): (r: seq<Choice>)
    ensures KeysOf(r) == codes
    ensures forall i | 0 <= i < |codes| ::
      r[i].text == if codes[i] in names then names[codes[i]] else UNNAMED_AREA
  {
    if codes == [] then []
    else
      var c := codes[|codes| - 1];
      MunicipalityOptions(names, codes[..|codes| - 1]) + [Choice(c, if c in names then names[c] else UNNAMED_AREA)]
  }

  /** The date dropdown's options: each stored date is both key and text. */
  function DateOptions(dates: seq<string>): (r: seq<Choice>)
    ensures KeysOf(r) == dates
    ensures forall i | 0 <= i < |dates| :: r[i].text == dates[i]
  {
    if dates == [] then []
    else DateOptions(dates[..|dates| - 1]) + [Choice(dates[|dates| - 1], dates[|dates| - 1])]
  }

  /** The text of the first option whose key is `code`, or "Unknown". */
  function SelectedName(options: seq<Choice>, code: string): (r: string)
    ensures (forall i | 0 <= i < |options| :: options[i].key != code) ==> r == UNKNOWN
    ensures forall i | 0 <= i < |options| && options[i].key == code ::
      (forall j | 0 <= j < i :: options[j].key != code) ==> r == options[i].text
  {
    if options == [] then UNKNOWN
    else if options[0].key == code then options[0].text
    else
      var r := SelectedName(options[1..], code);
      assert forall i | 1 <= i < |options| :: options[i] == options[1..][i - 1];
      r
  }

  /** The first office (in document order) whose children list `area`. */
  function OfficeOf(offices: Dict<Node>, area: string): (r: Option<string>)
    ensures r.None? <==> forall i | 0 <= i < |offices| :: area !in offices[i].1.children.GetOr([])
    ensures r.Some? ==> exists i | 0 <= i < |offices| ::
      offices[i].0 == r.value && area in offices[i].1.children.GetOr([]) &&
      forall j | 0 <= j < i :: area !in offices[j].1.children.GetOr([])
  {
    if offices == [] then None
    else if area in offices[0].1.children.GetOr([]) then Some(offices[0].0)
    else
      var r := OfficeOf(offices[1..], area);
      assert forall i | 1 <= i < |offices| :: offices[i] == offices[1..][i - 1];
      r
  }

  /** In a decoded document, the office `OfficeOf` finds is the one the
      prefecture handler would have listed `area` under. */
  lemma OfficeOfListsArea(offices: Dict<Node>, area: string)
    requires DistinctKeys(offices)
    ensures OfficeOf(offices, area).Some? ==> area in Children(offices, OfficeOf(offices, area).value)
    ensures (exists code :: area in Children(offices, code)) ==> OfficeOf(offices, area).Some?
  {
    if exists code :: area in Children(offices, code) {
      var code :| area in Children(offices, code);
      var i :| 0 <= i < |offices| && offices[i].0 == code;
      assert area in offices[i].1.children.GetOr([]);
    }
  }
}
