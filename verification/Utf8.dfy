/** encode_utf8 of utils/src/json.cc and the byte layout it must produce. */
module Utf8 {
  import opened Bytes

  /** The C++ shifts and masks, as quotients and remainders. */
  function Encode(pt: int): (r: Text)
    requires pt < 0x20_0000
  {
    if pt < 0 then []
    else if pt < 0x80 then [pt]
    else if pt < 0x800 then [0xC0 + pt / 0x40, 0x80 + pt % 0x40]
    else if pt < 0x1_0000 then [0xE0 + pt / 0x1000, 0x80 + pt / 0x40 % 0x40, 0x80 + pt % 0x40]
    else [0xF0 + pt / 0x4_0000, 0x80 + pt / 0x1000 % 0x40, 0x80 + pt / 0x40 % 0x40, 0x80 + pt % 0x40]
  }

  predicate IsTail(b: Byte) {
    0x80 <= b <= 0xBF
  }

  /** Section 3 of RFC 3629, read from the bytes: the first byte gives the
      length, every other byte is a tail, and the shortest form is required.
      Surrogates are not excluded, since lone ones are written in this form. */
  function Decode(s: Text): Option<nat> {
    if |s| == 1 && s[0] < 0x80 then Some(s[0])
    else if |s| == 2 && 0xC0 <= s[0] < 0xE0 && IsTail(s[1]) then
      Least(Shift(Above(s[0], 0xC0), s[1]), 0x80)
    else if |s| == 3 && 0xE0 <= s[0] < 0xF0 && IsTail(s[1]) && IsTail(s[2]) then
      Least(Shift(Shift(Above(s[0], 0xE0), s[1]), s[2]), 0x800)
    else if |s| == 4 && 0xF0 <= s[0] < 0xF8 && IsTail(s[1]) && IsTail(s[2]) && IsTail(s[3]) then
      Least(Shift(Shift(Shift(Above(s[0], 0xF0), s[1]), s[2]), s[3]), 0x1_0000)
    else None
  }

  function Above(b: Byte, base: Byte): nat
    requires base <= b
  {
    b - base
  }

  /** Append the six payload bits of a tail byte. */
  function Shift(acc: nat, tail: Byte): nat
    requires IsTail(tail)
  {
    acc * 0x40 + Above(tail, 0x80)
  }

  function Least(pt: nat, bound: nat): Option<nat> {
    if pt < bound then None else Some(pt)
  }

  lemma ShiftParts(acc: nat, tail: Byte)
    requires IsTail(tail)
    ensures Shift(acc, tail) / 0x40 == acc && Shift(acc, tail) % 0x40 == tail - 0x80
  {
  }

  lemma Quotients(pt: nat)
    ensures pt / 0x1000 == pt / 0x40 / 0x40
    ensures pt / 0x4_0000 == pt / 0x40 / 0x40 / 0x40
  {
  }

  lemma DecodeEncode(pt: nat)
    requires pt < 0x20_0000
    ensures Decode(Encode(pt)) == Some(pt)
  {
    Quotients(pt);
    var q, r := pt / 0x40, pt % 0x40;
    assert pt == q * 0x40 + r && q == (q / 0x40) * 0x40 + q % 0x40;
  }

  lemma EncodeDecode(s: Text)
    requires Decode(s).Some? && Decode(s).value < 0x20_0000
    ensures Encode(Decode(s).value) == s
  {
    var pt := Decode(s).value;
    Quotients(pt);
    if |s| >= 2 {
      ShiftParts(Above(s[0], if |s| == 2 then 0xC0 else if |s| == 3 then 0xE0 else 0xF0), s[1]);
    }
    if |s| == 3 {
      ShiftParts(Shift(Above(s[0], 0xE0), s[1]), s[2]);
    } else if |s| == 4 {
      ShiftParts(Shift(Above(s[0], 0xF0), s[1]), s[2]);
      ShiftParts(Shift(Shift(Above(s[0], 0xF0), s[1]), s[2]), s[3]);
    }
  }

  /** What encode_utf8 writes is the one form the standard gives a code point. */
  lemma EncodeIsTheForm(pt: nat, s: Text)
    requires pt < 0x20_0000
    ensures Decode(s) == Some(pt) <==> s == Encode(pt)
  {
    DecodeEncode(pt);
    if Decode(s) == Some(pt) {
      EncodeDecode(s);
    }
  }
}
