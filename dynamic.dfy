/**
 * The structured value that metrics records are converted to and from before
 * they are written as JSON text: a value of one of the kinds of section 3 of
 * RFC 8259. An object's member order carries no meaning (section 4), so an
 * object is a map from member name to value; an array's element order does
 * (section 5), so an array is a sequence.
 */
module Dynamic {

  datatype Json =
    | Null
    | Bool(b: bool)
    | Number(n: int)
    | String(s: string)
    | Array(elems: seq<Json>)
    | Object(members: map<string, Json>)
}
