/** The hybrid serializer used by the checkpoint store: raw bytes become hex
    text, JSON-representable values go through the structured encoder, and
    anything else cannot be stored. The caller says, when reading, whether the
    text holds bytes; the text does not say so itself. */
module Serializer {
  import opened Wrappers
  import Hex
  import opened Structured

  /** A value handed to the serializer. Python's bytes and bytearray are both
      Binary; Foreign is any object with no structured representation. */
  datatype Value =
    | Binary(bytes: seq<Hex.byte>)
    | Json(json: Structured.Json)
    | Foreign(typeName: string)

  /** Encodes a value for storage. */
  function Dumps(codec: JsonCodec, v: Value): (r: Result<string, Error>)
    ensures r.Failure? <==> v.Foreign?
    ensures v.Binary? ==> |r.value| == 2 * |v.bytes|
    ensures v.Binary? ==> forall i :: 0 <= i < |r.value| ==> Hex.IsLowerHexChar(r.value[i])
  {
    match v
    case Binary(b) => Success(Hex.Encode(b))
    case Json(j) => Success(codec.encode(j))
    case Foreign(t) => Failure(Unencodable(t))
  }

  /** Decodes stored text; isBinary chooses the hex decoder over the parser. */
  function Loads(codec: JsonCodec, text: string, isBinary: bool): (r: Result<Value, Error>)
    ensures r.Success? && isBinary ==> r.value.Binary?
    ensures r.Success? && !isBinary ==> r.value.Json?
    ensures !isBinary ==> (r.Failure? <==> Malformed(codec, text))
    ensures isBinary && |text| % 2 == 1 ==> r.Failure?
  {
    if isBinary then
      var b :- Hex.Decode(text);
      Success(Binary(b))
    else
      var j :- codec.decode(text).OrFail(MalformedStructured);
      Success(Json(j))
  }

  /** Every storable value reads back as itself when the caller passes the
      binary flag that matches it. */
  lemma RoundTrip(codec: JsonCodec, v: Value)
    requires Lawful(codec)
    requires !v.Foreign?
    ensures Dumps(codec, v).Success?
    ensures Loads(codec, Dumps(codec, v).value, v.Binary?) == Success(v)
  {
    if v.Binary? {
      Hex.DecodeEncode(v.bytes);
    }
  }

  /** Reading lowercase hex text back as bytes and dumping them again gives
      the same text. */
  lemma BinaryTextRoundTrip(codec: JsonCodec, text: string)
    requires |text| % 2 == 0
    requires forall i :: 0 <= i < |text| ==> Hex.IsLowerHexChar(text[i])
    ensures Loads(codec, text, true).Success?
    ensures Dumps(codec, Loads(codec, text, true).value) == Success(text)
  {
    Hex.EncodeDecodeLower(text);
  }

  /** The bytes of "hello" dump to "68656c6c6f". */
  lemma HexDumpExample(codec: JsonCodec)
    ensures Dumps(codec, Binary([104, 101, 108, 108, 111])) == Success("68656c6c6f")
  {
    var hello: seq<Hex.byte> := [104, 101, 108, 108, 111];
    assert Hex.Encode(hello[4..]) == "6f";
    assert Hex.Encode(hello[3..]) == "6c" + "6f";
    assert Hex.Encode(hello[2..]) == "6c" + "6c6f";
    assert Hex.Encode(hello[1..]) == "65" + "6c6c6f";
    assert Hex.Encode(hello) == "68" + "656c6c6f";
    assert "68" + "656c6c6f" == "68656c6c6f";
  }

  /** The bytes of "world" encode as "776f726c64". */
  lemma HexEncodeWorld()
    ensures Hex.Encode([119, 111, 114, 108, 100]) == "776f726c64"
  {
  }

  /** "776f726c64" loads as the bytes of "world". */
  lemma HexLoadExample(codec: JsonCodec)
    ensures Loads(codec, "776f726c64", true) == Success(Binary([119, 111, 114, 108, 100]))
  {
    HexEncodeWorld();
    Hex.DecodeEncode([119, 111, 114, 108, 100]);
  }

  /** A structured value such as {"key": "value"} or [1, 2, 3] dumps to the
      encoder's text and loads back equal; text the parser rejects loads to
      an error, and a foreign object does not dump. */
  lemma StructuredExamples(codec: JsonCodec, junk: string, t: string)
    requires Lawful(codec)
    requires Malformed(codec, junk)
    ensures var d := Obj(map["key" := Str("value")]);
      Loads(codec, Dumps(codec, Json(d)).value, false) == Success(Json(d))
    ensures var l := Arr([Num(1), Num(2), Num(3)]);
      Loads(codec, Dumps(codec, Json(l)).value, false) == Success(Json(l))
    ensures Loads(codec, junk, false) == Failure(MalformedStructured)
    ensures Dumps(codec, Foreign(t)) == Failure(Unencodable(t))
  {
  }
}
