// Values as they arrive from JSON or YAML and are bound as Cypher parameters.
module Values {
  datatype Value =
    | Nil
    | Bool(b: bool)
    | Int(i: int)
    | Float(r: real)
    | Str(s: string)
    | List(items: seq<Value>)
    | Map(fields: map<string, Value>)
}
