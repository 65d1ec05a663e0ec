/** JSON values as cJSON holds them. A string's characters are bytes; numbers are not part of this model. */
module JsonValue {
  datatype Member = Member(name: string, value: Json)
  datatype Json = Null | False | True | Str(s: string) | Arr(items: seq<Json>) | Obj(members: seq<Member>)
}
