/**
 * A decoded JSON document, as `json.loads` returns it. Numbers are integers:
 * fractional numbers and the non-finite literals are not represented.
 */
module Json {
  import opened Options

  datatype JsonValue =
    | JNull
    | JBool(b: bool)
    | JInt(n: int)
    | JString(s: string)
    | JArray(items: seq<JsonValue>)
    | JObject(fields: map<string, JsonValue>)

  /** Python's `d.get(key, default)` on a decoded object. */
  function GetOr(fields: map<string, JsonValue>, key: string, default: JsonValue): JsonValue {
    if key in fields then fields[key] else default
  }

  /** The number a value stands for in a Python comparison (`True > 85` is
      `1 > 85`); `None` when comparing it with an integer raises `TypeError`. */
  function AsNumber(v: JsonValue): Option<int> {
    match v
    case JInt(n) => Some(n)
    case JBool(b) => Some(if b then 1 else 0)
    case _ => None
  }

  /** The strings of an array whose items are all strings. */
  function StringItems(items: seq<JsonValue>): (r: Option<seq<string>>)
    ensures r.Some? ==> |r.value| == |items|
    ensures r.Some? <==> forall i :: 0 <= i < |items| ==> items[i].JString?
    ensures r.Some? ==> forall i :: 0 <= i < |items| ==> items[i] == JString(r.value[i])
    decreases |items|
  {
    if |items| == 0 then Some([])
    else if !items[0].JString? then None
    else
      match StringItems(items[1..])
      case None => None
      case Some(rest) => Some([items[0].s] + rest)
  }

  /** A list of strings as a JSON array. */
  function StringArray(xs: seq<string>): (r: JsonValue)
    ensures r.JArray? && |r.items| == |xs|
  {
    JArray(seq(|xs|, i requires 0 <= i < |xs| => JString(xs[i])))
  }

  /** Reading back an array of strings gives back the strings. */
  lemma StringArrayRoundTrip(xs: seq<string>)
    ensures StringItems(StringArray(xs).items) == Some(xs)
  {
    var items := StringArray(xs).items;
    assert forall i :: 0 <= i < |items| ==> items[i] == JString(xs[i]);
    assert StringItems(items).Some?;
    var ys := StringItems(items).value;
    assert |ys| == |xs|;
    assert forall i :: 0 <= i < |xs| ==> ys[i] == xs[i] by {
      forall i | 0 <= i < |xs|
        ensures ys[i] == xs[i]
      {
        assert items[i] == JString(ys[i]);
      }
    }
    assert ys == xs;
  }
}
