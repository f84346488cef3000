/** The hexadecimal text form the core uses for digests and ciphertexts: lower-case, two
    digits per byte, most significant digit first, no separators. HexUtil itself is not part
    of this model; this module states the convention and proves that decoding undoes it. */
module Hex {
  import opened Primitives
  import opened Wrappers

  const DIGITS: string := "0123456789abcdef"

  /** The unsigned value of a Java byte (`b & 0xff`). */
  function Unsigned(b: byte): (u: nat)
    ensures u < 256
    ensures b >= 0 ==> u == b as int
    ensures b < 0 ==> u == b as int + 256
  {
    (b as int) % 256
  }

  /** The Java byte whose unsigned value is `u` (`(byte) u`). */
  function Signed(u: nat): (b: byte)
    requires u < 256
    ensures Unsigned(b) == u
  {
    if u < 128 then u as byte else (u - 256) as byte
  }

  /** Two lower-case digits for one byte. */
  function EncodeByte(b: byte): (r: string)
    ensures |r| == 2 && r[0] in DIGITS && r[1] in DIGITS
  {
    [DIGITS[Unsigned(b) / 16], DIGITS[Unsigned(b) % 16]]
  }

  /** `HexUtil.encode`: the digits of every byte, in order. */
  function Encode(bytes: seq<byte>): (r: string)
    ensures |r| == 2 * |bytes|
    ensures forall i :: 0 <= i < |r| ==> r[i] in DIGITS
  {
    if bytes == [] then "" else EncodeByte(bytes[0]) + Encode(bytes[1..])
  }

  /** `HexUtil.encode` applied to the outcome of an operation that may fail: a failure stays
      the same failure, and a success decodes back to its bytes. */
  function EncodeResult(r: Result<seq<byte>>): (h: Result<string>)
    ensures h.Ok? <==> r.Ok?
    ensures r.Ok? ==> h.value == Encode(r.value) && Decode(h.value) == Ok(r.value)
    ensures r.Fail? ==> h.error == r.error
  {
    match r
    case Ok(bytes) => DecodeEncode(bytes); Ok(Encode(bytes))
    case Fail(e) => Fail(e)
  }

  /** The value of one hexadecimal digit; upper-case digits are accepted too. */
  function DigitValue(c: char): Option<nat> {
    if '0' <= c <= '9' then Some(c as int - '0' as int)
    else if 'a' <= c <= 'f' then Some(c as int - 'a' as int + 10)
    else if 'A' <= c <= 'F' then Some(c as int - 'A' as int + 10)
    else None
  }

  /** `HexUtil.decodeHex`: fails on an odd length or on a character that is not a digit. */
  function Decode(text: string): (r: Result<seq<byte>>)
    ensures r.Ok? ==> 2 * |r.value| == |text|
    ensures r.Fail? ==> r.error == IllegalArgument
    decreases |text|
  {
    if text == [] then Ok([])
    else if |text| == 1 then Fail(IllegalArgument)
    else
      match (DigitValue(text[0]), DigitValue(text[1]))
      case (Some(hi), Some(lo)) =>
        (match Decode(text[2..])
         case Ok(rest) => Ok([Signed(16 * hi + lo)] + rest)
         case Fail(e) => Fail(e))
      case _ => Fail(IllegalArgument)
  }

  /** Decoding the text form gives back the bytes: `decodeHex(encode(b)) == b`. */
  lemma {:induction false} DecodeEncode(bytes: seq<byte>)
    ensures Decode(Encode(bytes)) == Ok(bytes)
  {
    if bytes != [] {
      DecodeEncode(bytes[1..]);
      DecodeStep(bytes[0], Encode(bytes[1..]));
      assert [bytes[0]] + bytes[1..] == bytes;
    }
  }

  /** Decoding the two digits of one byte in front of any text gives back that byte in front
      of the text's own decoding. */
  lemma DecodeStep(b: byte, rest: string)
    ensures Decode(EncodeByte(b) + rest)
         == if Decode(rest).Ok? then Ok([b] + Decode(rest).value) else Decode(rest)
  {
    var u := Unsigned(b);
    var e := EncodeByte(b) + rest;
    assert e[2..] == rest;
    DigitOf(u / 16);
    DigitOf(u % 16);
    assert DigitValue(e[0]) == Some(u / 16) && DigitValue(e[1]) == Some(u % 16);
    SignedUnsigned(b);
  }

  lemma SignedUnsigned(b: byte)
    ensures Signed(16 * (Unsigned(b) / 16) + Unsigned(b) % 16) == b
  {
  }

  lemma DigitOf(d: nat)
    requires d < 16
    ensures DigitValue(DIGITS[d]) == Some(d)
  {
  }
}
