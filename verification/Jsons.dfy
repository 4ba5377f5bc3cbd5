// Decoded JSON, as the files and services that send it are read.
module Jsons {

  // A number keeps its text and whether it is a whole one.
  datatype Json =
    | Null
    | Bool(value: bool)
    | Str(text: string)
    | Number(digits: string, whole: bool)
    | List(items: seq<Json>)
    | Object(fields: JsonObject)

  type JsonObject = map<string, Json>

  function Get(o: JsonObject, key: string, default: Json): Json {
    if key in o then o[key] else default
  }
}
