/** JSON documents; the order of an object's fields carries no meaning. */
module Json {
  datatype Json =
    | Null
    | Bool(flag: bool)
    | Integer(value: int)
    | Fraction(digits: string)      // any number that is not an integer
    | String(text: string)
    | Array(items: seq<Json>)
    | Object(fields: map<string, Json>)
}
