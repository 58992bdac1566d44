/** The JSON values that travel between the subtopic service, the AI
    gateway and the pages (the values `JSON.parse` produces). */
module JsonValues {
  import opened Wrappers

  datatype Json =
    | JNull
    | JBool(b: bool)
    | JNumber(n: real)
    | JString(str: string)
    | JArray(items: seq<Json>)
    | JObject(fields: seq<(string, Json)>)

  /** A JSON array holding the given strings, in order. */
  function StringArray(ss: seq<string>): (r: Json)
    ensures r.JArray? && |r.items| == |ss|
    ensures forall k :: 0 <= k < |ss| ==> r.items[k] == JString(ss[k])
  {
    JArray(seq(|ss|, k requires 0 <= k < |ss| => JString(ss[k])))
  }

  /** Property access `v.key` on a parsed value: the value of the last
      member named `key` when `v` is an object (a later duplicate member
      replaces an earlier one), nothing otherwise. */
  function Get(v: Json, key: string): (r: Option<Json>)
    ensures r.None? <==> !v.JObject? || forall k :: 0 <= k < |v.fields| ==> v.fields[k].0 != key
    ensures r.Some? ==> exists k :: 0 <= k < |v.fields| && v.fields[k] == (key, r.value)
                          && forall j :: k < j < |v.fields| ==> v.fields[j].0 != key
    decreases if v.JObject? then |v.fields| else 0
  {
    if !v.JObject? || v.fields == [] then None
    else
      var last := v.fields[|v.fields| - 1];
      if last.0 == key then Some(last.1)
      else
        var r := Get(JObject(v.fields[..|v.fields| - 1]), key);
        assert forall k :: 0 <= k < |v.fields| - 1 ==> v.fields[..|v.fields| - 1][k] == v.fields[k];
        r
  }
}
