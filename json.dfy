/**
 * The value a request body decodes to. JSON numbers are modelled as integers
 * only (see README, "Left out"); `undefined` is the absence of a key.
 */
module JsonValue {

  datatype Json =
    | JNull
    | JBool(b: bool)
    | JNum(n: int)
    | JStr(s: string)
    | JArr(items: seq<Json>)
    | JObj(fields: map<string, Json>)
}
