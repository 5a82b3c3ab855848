/** JSON values as the body parser hands them to the request pipeline. */
module Json {
  import opened Wrappers

  /** A parsed JSON value; JavaScript numbers are modelled as reals. */
  datatype Json =
    | JNull
    | JBool(b: bool)
    | JNum(num: real)
    | JStr(str: string)
    | JArr(items: seq<Json>)
    | JObj(fields: map<string, Json>)

  /** Property access `value.key`: `None` is JavaScript's `undefined`. */
  function Get(value: Json, key: string): Option<Json>
  {
    if value.JObj? && key in value.fields then Some(value.fields[key]) else None
  }
}
