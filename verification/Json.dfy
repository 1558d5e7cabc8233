/** JSON documents as the in-band manageability daemon holds them after decoding. */
module Json {

  datatype Json =
    | Null
    | Bool(b: bool)
    | Number(n: int)
    | Text(s: string)
    | Array(items: seq<Json>)
    | Object(members: Members)

  type Members = map<string, Json>
}
