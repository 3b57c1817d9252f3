/** The value a JSON decoder yields. Decoding itself (`json.loads`) is a
    library call; the model receives it as a function `string -> Option<Json>`
    whose `None` stands for a decode error. */
module JsonValue {

  datatype Json =
    | Null
    | Bool(b: bool)
    | Number(n: real)
    | String(s: string)
    | Array(items: seq<Json>)
    | Object(fields: map<string, Json>)
}
