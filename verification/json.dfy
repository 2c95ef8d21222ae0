/**
 Decoded JSON values: what a model hands to the engine and what a child workflow hands back.
 An object is a map because a Python dict compares by content; integers and floats are kept
 apart because the engine accepts only the former as a row count.
 */
module Json {

  datatype Json =
    | Null
    | Bool(b: bool)
    | Int(n: int)
    | Real(r: real)
    | Str(s: string)
    | Arr(items: seq<Json>)
    | Obj(fields: map<string, Json>)

  /** `dict.get(key, fallback)` on an object. */
  function GetOr(fields: map<string, Json>, key: string, fallback: Json): Json {
    if key in fields then fields[key] else fallback
  }

  /** `dict.get(key)`: a missing key and a null value look the same. */
  function Get(fields: map<string, Json>, key: string): Json {
    GetOr(fields, key, Null)
  }

  /** Lists and objects cannot be members of a Python set: asking raises TypeError. */
  predicate Unhashable(j: Json) {
    j.Arr? || j.Obj?
  }

  predicate AllStrings(items: seq<Json>) {
    forall i | 0 <= i < |items| :: items[i].Str?
  }

  function TextOf(j: Json): string {
    if j.Str? then j.s else ""
  }

  function Texts(items: seq<Json>): seq<string> {
    seq(|items|, i requires 0 <= i < |items| => TextOf(items[i]))
  }

  function FromTexts(texts: seq<string>): seq<Json> {
    seq(|texts|, i requires 0 <= i < |texts| => Str(texts[i]))
  }

  /** `value or []` where only a list can be used afterwards. */
  function ListOrEmpty(j: Json): seq<Json> {
    if j.Arr? then j.items else []
  }
}
