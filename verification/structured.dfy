/** The structured (JSON) half of the hybrid serializer. The encoder and the
    parser are foreign code, so they are a parameter of the model: a pair of
    functions that is only assumed to round-trip. */
module Structured {
  import opened Wrappers

  /** A JSON-representable value, the domain the structured encoder accepts. */
  datatype Json =
    | Null
    | Bool(b: bool)
    | Num(n: int)
    | Str(s: string)
    | Arr(items: seq<Json>)
    | Obj(fields: map<string, Json>)

  /** A structured encoder/parser pair. Encoding a JSON value always yields
      text; parsing text may fail. */
  datatype JsonCodec = JsonCodec(encode: Json -> string, decode: string -> Option<Json>)

  /** The one property the model relies on: parsing what was encoded gives the
      value back. */
  ghost predicate Lawful(codec: JsonCodec) {
    forall j :: codec.decode(codec.encode(j)) == Some(j)
  }

  /** Text the parser rejects. */
  predicate Malformed(codec: JsonCodec, text: string) {
    codec.decode(text).None?
  }
}
