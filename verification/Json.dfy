/** Decoded JSON as Go's `any` holds it. A nil map and a missing key read as
    empty and as null, as they do in Go. */
module Json {
  datatype Json =
    | Null
    | Bool(flag: bool)
    | Number(digits: string)
    | Str(text: string)
    | Arr(items: seq<Json>)
    | Obj(fields: map<string, Json>)

  type Object = map<string, Json>

  /** m[key] */
  function Field(m: Object, key: string): Json {
    if key in m then m[key] else Null
  }

  /** v, _ := j.(map[string]any) */
  function AsObject(j: Json): Object {
    if j.Obj? then j.fields else map[]
  }

  /** v, _ := j.(string) */
  function AsString(j: Json): string {
    if j.Str? then j.text else ""
  }
}
