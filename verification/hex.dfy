/** The binary half of the hybrid serializer: bytes are stored as lowercase
    hexadecimal text, two digits per byte, and read back from hex text. */
module Hex {
  import opened Wrappers
  import opened Ascii

  newtype byte = x: int | 0 <= x < 256

  const LowerDigits: string := "0123456789abcdef"

  /** The lowercase hex digit for a nibble. */
  function Digit(n: int): (c: char)
    requires 0 <= n < 16
  {
    LowerDigits[n]
  }

  predicate IsLowerHexChar(c: char) {
    '0' <= c <= '9' || 'a' <= c <= 'f'
  }

  /** The nibble a hex digit of either case stands for, if it is one. */
  function DigitValue(c: char): (r: Option<int>)
    ensures r.Some? ==> 0 <= r.value < 16
    ensures IsLowerHexChar(c) ==> r.Some? && Digit(r.value) == c
  {
    if '0' <= c <= '9' then Some(c as int - '0' as int)
    else if 'a' <= c <= 'f' then Some(c as int - 'a' as int + 10)
    else if 'A' <= c <= 'F' then Some(c as int - 'A' as int + 10)
    else None
  }

  /** Encodes bytes as hex text: byte i occupies characters 2i and 2i+1,
      high nibble first. */
  function Encode(b: seq<byte>): (s: string)
    ensures |s| == 2 * |b|
    ensures forall i :: 0 <= i < |s| ==> IsLowerHexChar(s[i])
  {
    if |b| == 0 then []
    else
      [Digit(b[0] as int / 16), Digit(b[0] as int % 16)] + Encode(b[1..])
  }

  /** Byte i of the input is written at characters 2i (high nibble) and
      2i+1 (low nibble) of the encoding. */
  lemma {:induction false} EncodeAt(b: seq<byte>, i: int)
    requires 0 <= i < |b|
    ensures Encode(b)[2 * i] == Digit(b[i] as int / 16)
    ensures Encode(b)[2 * i + 1] == Digit(b[i] as int % 16)
  {
    if i > 0 {
      EncodeAt(b[1..], i - 1);
    }
  }

  /** Decodes hex text (digits of either case, no separators) back into bytes.
      Odd length or a non-digit character is MalformedHex. */
  function Decode(s: string): (r: Result<seq<byte>, Error>)
    ensures r.Success? ==> 2 * |r.value| == |s|
    ensures |s| % 2 == 1 ==> r == Failure(MalformedHex)
    decreases |s|
  {
    if |s| == 0 then Success([])
    else if |s| == 1 then Failure(MalformedHex)
    else
      var hi :- DigitValue(s[0]).OrFail(MalformedHex);
      var lo :- DigitValue(s[1]).OrFail(MalformedHex);
      var rest :- Decode(s[2..]);
      Success([(16 * hi + lo) as byte] + rest)
  }

  /** One step of Decode on text starting with two hex digits. */
  lemma DecodeStep(s: string)
    requires |s| >= 2 && DigitValue(s[0]).Some? && DigitValue(s[1]).Some?
    ensures Decode(s) == match Decode(s[2..])
      case Success(rest) =>
        Success([(16 * DigitValue(s[0]).value + DigitValue(s[1]).value) as byte] + rest)
      case Failure(e) => Failure(e)
  {
  }

  /** One step of Encode: the first byte's two digits, then the rest. */
  lemma EncodeStep(b: seq<byte>)
    requires |b| > 0
    ensures Encode(b)[0] == Digit(b[0] as int / 16)
    ensures Encode(b)[1] == Digit(b[0] as int % 16)
    ensures Encode(b)[2..] == Encode(b[1..])
  {
    var head := [Digit(b[0] as int / 16), Digit(b[0] as int % 16)];
    var rest := Encode(b[1..]);
    assert Encode(b) == head + rest;
    assert (head + rest)[2..] == rest;
  }

  /** Decoding inverts encoding, for every byte sequence. */
  lemma {:induction false} DecodeEncode(b: seq<byte>)
    ensures Decode(Encode(b)) == Success(b)
  {
    if |b| > 0 {
      var x := b[0] as int;
      var s := Encode(b);
      EncodeStep(b);
      ValueOfDigit(x / 16);
      ValueOfDigit(x % 16);
      DecodeEncode(b[1..]);
      DecodeStep(s);
      assert (16 * (x / 16) + x % 16) as byte == b[0];
      assert [b[0]] + b[1..] == b;
    }
  }

  /** Encoding inverts decoding up to letter case: any text Decode accepts is
      the lowercased form of what Encode writes for the decoded bytes. */
  lemma {:induction false} EncodeDecode(s: string)
    requires Decode(s).Success?
    ensures Encode(Decode(s).value) == Lower(s)
    decreases |s|
  {
    if |s| > 0 {
      assert |s| >= 2;
      assert DigitValue(s[0]).Some? && DigitValue(s[1]).Some?;
      var hi := DigitValue(s[0]).value;
      var lo := DigitValue(s[1]).value;
      DecodeStep(s);
      var rest := Decode(s[2..]).value;
      var b := Decode(s).value;
      assert b == [(16 * hi + lo) as byte] + rest;
      EncodeDecode(s[2..]);
      DigitOfValue(s[0]);
      DigitOfValue(s[1]);
      assert b[1..] == rest;
      Nibbles(hi, lo);
      assert Encode(b) == [Digit(hi), Digit(lo)] + Encode(rest);
      assert Lower(s) == [LowerChar(s[0])] + Lower(s[1..]);
      assert Lower(s[1..]) == [LowerChar(s[1])] + Lower(s[2..]);
    }
  }

  lemma ValueOfDigit(n: int)
    requires 0 <= n < 16
    ensures DigitValue(Digit(n)) == Some(n)
  {
  }

  lemma Nibbles(hi: int, lo: int)
    requires 0 <= hi < 16 && 0 <= lo < 16
    ensures (16 * hi + lo) / 16 == hi && (16 * hi + lo) % 16 == lo
  {
  }

  lemma DigitOfValue(c: char)
    requires DigitValue(c).Some?
    ensures Digit(DigitValue(c).value) == LowerChar(c)
  {
  }

  /** Lowercase hex text of even length decodes, and encoding the bytes gives
      the text back unchanged. */
  lemma {:induction false} EncodeDecodeLower(s: string)
    requires forall i :: 0 <= i < |s| ==> IsLowerHexChar(s[i])
    requires |s| % 2 == 0
    ensures Decode(s).Success?
    ensures Encode(Decode(s).value) == s
    decreases |s|
  {
    if |s| > 0 {
      EncodeDecodeLower(s[2..]);
      DecodeStep(s);
    }
    EncodeDecode(s);
    LowerOfLowerHex(s);
  }

  lemma {:induction false} LowerOfLowerHex(s: string)
    requires forall i :: 0 <= i < |s| ==> IsLowerHexChar(s[i])
    ensures Lower(s) == s
  {
    if |s| > 0 {
      LowerOfLowerHex(s[1..]);
    }
  }
}
