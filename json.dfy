/**
 * The structural form of the JSON interchange representation used by
 * `AstronomicalBody.to_json` and `AstronomicalBody.from_json`. Only values
 * are modelled; the text layout is not.
 */
module JsonValue {
  import opened Wrappers

  /** A JSON value. Objects are maps, so a repeated key keeps one value. */
  datatype Json =
    | JNull
    | JBool(b: bool)
    | JNumber(n: real)
    | JString(s: string)
    | JArray(items: seq<Json>)
    | JObject(fields: map<string, Json>)

  /** A list of strings as a JSON array, element by element and in order. */
  function FromStrings(ss: seq<string>): (r: seq<Json>)
    ensures |r| == |ss|
    ensures forall i :: 0 <= i < |ss| ==> r[i] == JString(ss[i])
  {
    if ss == [] then [] else [JString(ss[0])] + FromStrings(ss[1..])
  }

  /** The strings of a JSON array, or None when some element is not a string. */
  function AsStrings(items: seq<Json>): (r: Option<seq<string>>)
    ensures r.Some? <==> forall i :: 0 <= i < |items| ==> items[i].JString?
    ensures r.Some? ==> |r.value| == |items|
    ensures r.Some? ==> forall i :: 0 <= i < |items| ==> items[i] == JString(r.value[i])
  {
    if items == [] then Some([])
    else if !items[0].JString? then None
    else
      match AsStrings(items[1..])
      case None => None
      case Some(rest) => Some([items[0].s] + rest)
  }

  /** Reading back an encoded list of strings gives the list unchanged. */
  lemma {:induction false} StringsRoundTrip(ss: seq<string>)
    ensures AsStrings(FromStrings(ss)) == Some(ss)
  {
    if ss != [] {
      var items := FromStrings(ss);
      assert items == [JString(ss[0])] + FromStrings(ss[1..]);
      assert items[1..] == FromStrings(ss[1..]);
      StringsRoundTrip(ss[1..]);
      assert [ss[0]] + ss[1..] == ss;
    }
  }
}
