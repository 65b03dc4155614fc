/** JSON values as the Express body parser hands them to a route handler. */
module JsonValues {

  /** A parsed JSON value. Numbers are exact reals: floating point is not modelled. */
  datatype Json =
    | JNull
    | JBool(b: bool)
    | JNum(n: real)
    | JStr(s: string)
    | JArr(elems: seq<Json>)
    | JObj(props: map<string, Json>)
}
