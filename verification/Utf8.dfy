/** UTF-8 as sections 3 and 4 of RFC 3629 define it, over Unicode scalar values. */
module Utf8 {
  import opened Prelude

  /** A Unicode scalar value: any code point that is not a surrogate. */
  type Scalar = x: int | 0 <= x < 0xD800 || 0xE000 <= x < 0x110000

  function Encode(c: Scalar): (bytes: seq<Byte>)
    ensures 1 <= |bytes| <= 4
  {
    if c < 0x80 then [c]
    else if c < 0x800 then [0xC0 + c / 64, 0x80 + c % 64]
    else if c < 0x10000 then [0xE0 + c / 64 / 64, 0x80 + c / 64 % 64, 0x80 + c % 64]
    else [0xF0 + c / 64 / 64 / 64, 0x80 + c / 64 / 64 % 64, 0x80 + c / 64 % 64, 0x80 + c % 64]
  }

  function EncodeAll(text: seq<Scalar>): seq<Byte> {
    if text == [] then [] else Encode(text[0]) + EncodeAll(text[1..])
  }

  predicate Continuation(b: Byte) { 0x80 <= b < 0xC0 }

  /** Whether the second byte is allowed after this lead byte. */
  predicate SecondAllowed(lead: Byte, second: Byte) {
    && Continuation(second)
    && (lead == 0xE0 ==> 0xA0 <= second)
    && (lead == 0xED ==> second < 0xA0)
    && (lead == 0xF0 ==> 0x90 <= second)
    && (lead == 0xF4 ==> second < 0x90)
  }

  /** The width the lead byte announces, or 0 when no well-formed sequence starts with it. */
  function Width(lead: Byte): nat {
    if lead < 0x80 then 1
    else if 0xC2 <= lead < 0xE0 then 2
    else if 0xE0 <= lead < 0xF0 then 3
    else if 0xF0 <= lead < 0xF5 then 4
    else 0
  }

  /** Add the six payload bits of a continuation byte below the bits gathered so far. */
  function Shift(high: int, low: int): int { high * 64 + low - 0x80 }

  /** Decode the one sequence at the front, or nothing when it is ill-formed or cut short. */
  function DecodeFirst(bytes: seq<Byte>): (r: Option<(Scalar, nat)>)
    ensures r.Some? ==> 1 <= r.value.1 <= |bytes| && r.value.1 == Width(bytes[0])
  {
    if bytes == [] then None
    else
      var w := Width(bytes[0]);
      if w == 0 || w > |bytes| then None
      else if w == 1 then Some((bytes[0], 1))
      else if !SecondAllowed(bytes[0], bytes[1]) then None
      else if w == 2 then Some((Shift(bytes[0] as int - 0xC0, bytes[1]), 2))
      else if !Continuation(bytes[2]) then None
      else if w == 3 then
        Some((Shift(Shift(bytes[0] as int - 0xE0, bytes[1]), bytes[2]), 3))
      else if !Continuation(bytes[3]) then None
      else
        Some((Shift(Shift(Shift(bytes[0] as int - 0xF0, bytes[1]), bytes[2]), bytes[3]), 4))
  }

  /** Decode a whole byte string, or nothing when any part of it is ill-formed. */
  function Decode(bytes: seq<Byte>): Option<seq<Scalar>> {
    if bytes == [] then Some([])
    else
      match DecodeFirst(bytes)
      case None => None
      case Some((c, w)) =>
        match Decode(bytes[w..])
        case None => None
        case Some(rest) => Some([c] + rest)
  }

  lemma DecodeFirstOfEncode(c: Scalar, rest: seq<Byte>)
    ensures DecodeFirst(Encode(c) + rest) == Some((c, |Encode(c)|))
  {
  }

  lemma ShiftSplits(high: nat, low: Byte)
    requires Continuation(low)
    ensures Shift(high, low) / 64 == high && Shift(high, low) % 64 == low - 0x80
  {
  }

  lemma EncodeOfOne(a: Byte)
    requires Width(a) == 1
    ensures Encode(a) == [a]
  {
  }

  lemma EncodeOfTwo(a: Byte, b: Byte)
    requires Width(a) == 2 && SecondAllowed(a, b)
    ensures Encode(Shift(a as int - 0xC0, b)) == [a, b]
  {
  }

  lemma EncodeOfThree(a: Byte, b: Byte, c: Byte)
    requires Width(a) == 3 && SecondAllowed(a, b) && Continuation(c)
    ensures var s := Shift(Shift(a as int - 0xE0, b), c);
            (0x800 <= s < 0xD800 || 0xE000 <= s < 0x10000) && Encode(s) == [a, b, c]
  {
  }

  lemma EncodeOfFour(a: Byte, b: Byte, c: Byte, d: Byte)
    requires Width(a) == 4 && SecondAllowed(a, b) && Continuation(c) && Continuation(d)
    ensures var s := Shift(Shift(Shift(a as int - 0xF0, b), c), d);
            0x10000 <= s < 0x110000 && Encode(s) == [a, b, c, d]
  {
    var h := Shift(a as int - 0xF0, b);
    ShiftSplits(a - 0xF0, b);
    ShiftSplits(h, c);
    ShiftSplits(Shift(h, c), d);
  }

  lemma EncodeOfDecodeFirst(bytes: seq<Byte>)
    requires DecodeFirst(bytes).Some?
    ensures Encode(DecodeFirst(bytes).value.0) == bytes[..DecodeFirst(bytes).value.1]
  {
    hide Encode, Shift;
    var w := Width(bytes[0]);
    if w == 1 {
      assert Encode(bytes[0]) == [bytes[0]] by { EncodeOfOne(bytes[0]); }
    } else if w == 2 {
      EncodeOfTwo(bytes[0], bytes[1]);
    } else if w == 3 {
      EncodeOfThree(bytes[0], bytes[1], bytes[2]);
    } else {
      EncodeOfFour(bytes[0], bytes[1], bytes[2], bytes[3]);
    }
  }

  /** Decoding undoes encoding, whatever decodable bytes follow. */
  lemma {:induction false} DecodeEncodeAll(text: seq<Scalar>)
    ensures Decode(EncodeAll(text)) == Some(text)
  {
    hide DecodeFirst;
    hide Encode;
    if text != [] {
      var rest := EncodeAll(text[1..]);
      DecodeFirstOfEncode(text[0], rest);
      assert (Encode(text[0]) + rest)[|Encode(text[0])|..] == rest;
      DecodeEncodeAll(text[1..]);
      assert [text[0]] + text[1..] == text;
    }
  }

  /** A byte string that decodes is the encoding of what it decodes to, so there is only one. */
  lemma {:induction false} EncodeAllDecode(bytes: seq<Byte>)
    requires Decode(bytes).Some?
    ensures EncodeAll(Decode(bytes).value) == bytes
    decreases |bytes|
  {
    hide DecodeFirst;
    hide Encode;
    if bytes != [] {
      EncodeOfDecodeFirst(bytes);
      EncodeAllDecode(bytes[DecodeFirst(bytes).value.1..]);
    }
  }

  /** Decoding succeeds exactly when it does on the first sequence and on what follows it. */
  lemma DecodeSplitsFirst(bytes: seq<Byte>)
    ensures bytes == [] ==> Decode(bytes) == Some([])
    ensures bytes != [] ==>
      (Decode(bytes).Some? <==> DecodeFirst(bytes).Some? && Decode(bytes[DecodeFirst(bytes).value.1..]).Some?)
    ensures DecodeFirst(bytes).Some? ==> Decode(bytes[..DecodeFirst(bytes).value.1]).Some?
  {
  }

  lemma DecodeFirstExtends(a: seq<Byte>, b: seq<Byte>)
    requires DecodeFirst(a).Some?
    ensures DecodeFirst(a + b) == DecodeFirst(a)
  {
  }

  /** A well-formed prefix can be decoded on its own: decoding splits at its end. */
  lemma {:induction false} DecodeConcat(a: seq<Byte>, b: seq<Byte>)
    requires Decode(a).Some?
    ensures Decode(a + b) == match Decode(b) case None => None case Some(t) => Some(Decode(a).value + t)
    decreases |a|
  {
    hide DecodeFirst;
    if a == [] {
      assert a + b == b;
      if Decode(b).Some? {
        assert Decode(a).value + Decode(b).value == Decode(b).value;
      }
    } else {
      var w := DecodeFirst(a).value.1;
      DecodeFirstExtends(a, b);
      assert (a + b)[w..] == a[w..] + b;
      DecodeConcat(a[w..], b);
      if Decode(b).Some? {
        var c := DecodeFirst(a).value.0;
        assert Decode(a).value + Decode(b).value == [c] + (Decode(a[w..]).value + Decode(b).value);
      }
    }
  }
}
