/** JSON values, as Go's encoding/json decodes them into `any`. */
module Json {
  datatype Json =
    | Null
    | Bool(b: bool)
    | Num(n: real)
    | Str(s: string)
    | Arr(items: seq<Json>)
    | Obj(fields: map<string, Json>)

  type Fields = map<string, Json>

  /** `v, _ := fields[key].(map[string]any)`, an absent or differently typed value giving an empty map. */
  function ObjectAt(fields: Fields, key: string): Fields {
    if key in fields && fields[key].Obj? then fields[key].fields else map[]
  }

  /** `v, _ := fields[key].([]any)`, an absent or differently typed value giving no items. */
  function ArrayAt(fields: Fields, key: string): seq<Json> {
    if key in fields && fields[key].Arr? then fields[key].items else []
  }

  /** The value is an object whose field `key` is the string s. */
  predicate HasString(v: Json, key: string, s: string) {
    v.Obj? && key in v.fields && v.fields[key] == Str(s)
  }
}
