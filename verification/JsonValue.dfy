/** JSON values as the SDK reads and builds them; their text form is left to the JSON library. */
module JsonValue {
  import opened Wrappers

  datatype Json =
    | Null
    | Bool(b: bool)
    | Number(n: int)
    | Str(s: string)
    | Arr(items: seq<Json>)
    | Obj(fields: map<string, Json>)

  /** The library's find: nothing is found in a value that is not an object. */
  function Find(j: Json, key: string): Option<Json> {
    if j.Obj? && key in j.fields then Some(j.fields[key]) else None
  }

  predicate IsStr(j: Option<Json>) {
    j.Some? && j.value.Str?
  }

  predicate IsBool(j: Option<Json>) {
    j.Some? && j.value.Bool?
  }

  predicate NonEmptyStr(j: Option<Json>) {
    IsStr(j) && j.value.s != ""
  }
}
