/** A configuration value up to Python equality: `True`, `1` and `1.0` are one number. */
module ConfigValues {
  datatype Value =
    | Null
    | Number(n: real)
    | Text(s: string)
    | List(items: seq<Value>)
    | Dict(entries: map<string, Value>)
}
