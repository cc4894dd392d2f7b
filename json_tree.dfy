/**
 * The JSON value tree shared by the content processor (the parsed document it
 * re-serialises) and the key queries (the parsed object they search).
 */
module JsonTree {

  datatype Option<T> = None | Some(value: T)

  /** A parsed JSON value. Object members keep the order in which they were read. */
  datatype Json =
    | JNull
    | JBool(b: bool)
    | JNum(n: int)
    | JStr(s: string)
    | JArr(items: seq<Json>)
    | JObj(members: seq<Member>)

  /** One property of a JSON object: its name and its value. */
  datatype Member = Member(key: string, value: Json)
}
