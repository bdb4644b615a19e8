/** UTF-8, by the characters that it encodes. */
module Utf8Text {
  import opened Octets
  import opened Wire

  /** A Unicode scalar value: any code point but the surrogates. */
  type Scalar = c: int | 0 <= c < 0xD800 || 0xE000 <= c < 0x11_0000

  /** The bit distribution of the Unicode Standard's table of UTF-8. */
  function EncodeScalar(c: Scalar): (out: Bytes)
    ensures 1 <= |out| <= 4
  {
    if c < 0x80 then [c]
    else if c < 0x800 then [0xC0 + c / 0x40, 0x80 + c % 0x40]
    else if c < 0x1_0000 then [0xE0 + c / 0x1000, 0x80 + c / 0x40 % 0x40, 0x80 + c % 0x40]
    else [0xF0 + c / 0x4_0000, 0x80 + c / 0x1000 % 0x40, 0x80 + c / 0x40 % 0x40, 0x80 + c % 0x40]
  }

  function EncodeText(cs: seq<Scalar>): Bytes {
    if cs == [] then [] else EncodeScalar(cs[0]) + EncodeText(cs[1..])
  }

  lemma {:induction false} FirstValid(c: Scalar, rest: Bytes)
    ensures ValidUtf8(EncodeScalar(c) + rest) <==> ValidUtf8(rest)
  {
    var out := EncodeScalar(c);
    var bs := out + rest;
    assert bs[|out|..] == rest;
    assert forall i :: 0 <= i < |out| ==> bs[i] == out[i];
  }

  lemma {:induction false} EncodedIsValid(cs: seq<Scalar>)
    ensures ValidUtf8(EncodeText(cs))
  {
    if cs != [] {
      EncodedIsValid(cs[1..]);
      FirstValid(cs[0], EncodeText(cs[1..]));
    }
  }

  lemma {:induction false} TwoBytes(a: byte, b: byte) returns (c: Scalar)
    requires 0xC2 <= a <= 0xDF && Continues(b)
    ensures EncodeScalar(c) == [a, b]
  {
    c := (a - 0xC0) * 0x40 + (b - 0x80);
  }

  lemma {:induction false} ThreeBytes(a: byte, b: byte, d: byte) returns (c: Scalar)
    requires 0xE0 <= a <= 0xEF && Continues(b) && Continues(d)
    requires (a == 0xE0 ==> b >= 0xA0) && (a == 0xED ==> b < 0xA0)
    ensures EncodeScalar(c) == [a, b, d]
  {
    var high := (a - 0xE0) * 0x40 + (b - 0x80);
    c := high * 0x40 + (d - 0x80);
    assert c / 0x40 == high;
    assert c / 0x1000 == a - 0xE0;
  }

  lemma {:induction false} FourBytes(a: byte, b: byte, d: byte, e: byte) returns (c: Scalar)
    requires 0xF0 <= a <= 0xF4 && Continues(b) && Continues(d) && Continues(e)
    requires (a == 0xF0 ==> b >= 0x90) && (a == 0xF4 ==> b < 0x90)
    ensures EncodeScalar(c) == [a, b, d, e]
  {
    var top := (a - 0xF0) * 0x40 + (b - 0x80);
    var high := top * 0x40 + (d - 0x80);
    c := high * 0x40 + (e - 0x80);
    assert c / 0x40 == high;
    assert c / 0x1000 == top;
    assert c / 0x4_0000 == a - 0xF0;
  }

  /** The first character of valid text. */
  lemma {:induction false} FirstScalar(bs: Bytes) returns (c: Scalar)
    requires bs != [] && ValidUtf8(bs)
    ensures EncodeScalar(c) <= bs && ValidUtf8(bs[|EncodeScalar(c)|..])
  {
    if bs[0] < 0x80 {
      c := bs[0];
    } else if bs[0] <= 0xDF {
      c := TwoBytes(bs[0], bs[1]);
    } else if bs[0] <= 0xEF {
      c := ThreeBytes(bs[0], bs[1], bs[2]);
    } else {
      c := FourBytes(bs[0], bs[1], bs[2], bs[3]);
    }
  }

  lemma {:induction false} ValidIsEncoded(bs: Bytes) returns (cs: seq<Scalar>)
    requires ValidUtf8(bs)
    ensures EncodeText(cs) == bs
    decreases |bs|
  {
    if bs == [] {
      cs := [];
    } else {
      var c := FirstScalar(bs);
      var later := ValidIsEncoded(bs[|EncodeScalar(c)|..]);
      cs := [c] + later;
    }
  }

  /** The check accepts exactly the bytes of texts. */
  lemma {:induction false} ValidExactly(bs: Bytes)
    ensures ValidUtf8(bs) <==> exists cs :: EncodeText(cs) == bs
  {
    if ValidUtf8(bs) { var cs := ValidIsEncoded(bs); }
    if cs :| EncodeText(cs) == bs { EncodedIsValid(cs); }
  }
}
