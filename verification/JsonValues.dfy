/** Decoded JSON values. */
module JsonValues {
  import opened Options

  /** `Huge` is a number too large for a double, which `JSON.parse` reads as infinite. */
  datatype Json =
    | Null
    | Bool(b: bool)
    | Num(n: real)
    | Huge
    | Str(s: string)
    | Arr(items: seq<Json>)
    | Obj(fields: map<string, Json>)

  /** Reading a property; `None` is `undefined`. */
  function Field(v: Json, name: string): Option<Json> {
    if v.Obj? && name in v.fields then Some(v.fields[name]) else None
  }

  predicate IsText(v: Option<Json>) {
    v.Some? && v.value.Str?
  }

  predicate IsFilledText(v: Option<Json>) {
    IsText(v) && v.value.s != ""
  }
}
