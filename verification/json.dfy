/** The decoded-JSON layer shared by the taxonomy document and the forecast
    response: optional keys and JSON objects whose keys keep document order
    (a Python dict iterates in insertion order). */
module Json {

  /** A value that may be absent, as a key missing from a JSON object. */
  datatype Option<T> = None | Some(value: T) {

    /** `d.get(key, default)` once the lookup has been made. */
    function GetOr(default: T): T {
      match this
      case Some(v) => v
      case None => default
    }
  }

  /** A JSON object: its members in document order. */
  type Dict<V> = seq<(string, V)>

  /** A decoded JSON object never repeats a key. */
  predicate DistinctKeys<V>(d: Dict<V>) {
    forall i, j | 0 <= i < j < |d| :: d[i].0 != d[j].0
  }

  /** The keys of `d`, in document order (`d.keys()`). */
  function Keys<V>(d: Dict<V>): (r: seq<string>)
    ensures |r| == |d|
    ensures forall i | 0 <= i < |d| :: r[i] == d[i].0
  {
    seq(|d|, i requires 0 <= i < |d| => d[i].0)
  }

  /** `d.get(key)`: the value of the first member named `key`. */
  function Get<V>(d: Dict<V>, key: string): (r: Option<V>)
    ensures r.None? <==> forall i | 0 <= i < |d| :: d[i].0 != key
    ensures r.Some? ==> exists i | 0 <= i < |d| :: d[i] == (key, r.value)
    ensures DistinctKeys(d) ==> forall i | 0 <= i < |d| && d[i].0 == key :: r == Some(d[i].1)
  {
    if d == [] then None
    else if d[0].0 == key then Some(d[0].1)
    else
      var rest := Get(d[1..], key);
      assert forall i | 1 <= i < |d| :: d[i] == d[1..][i - 1];
      rest
  }
}
