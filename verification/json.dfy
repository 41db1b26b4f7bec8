/**
 * A parsed JSON document, as `json.load` returns it and `json.dump` takes it.
 * The text encoding is not modelled; numbers are integers.
 */
module Json {

  datatype Value =
    | Null
    | Bool(b: bool)
    | Int(i: int)
    | Str(s: string)
    | Array(items: seq<Value>)
    | Object(fields: map<string, Value>)
}
