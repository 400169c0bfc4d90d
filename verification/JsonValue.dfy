/** A parsed JSON value. */
module JsonValue {
  datatype Json =
    Null | Bool(b: bool) | Number(n: int) | Text(s: string) | List(items: seq<Json>) | Object(fields: map<string, Json>)
}
