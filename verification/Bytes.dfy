/** Byte strings as the C++ sources see them: std::string, indexed, with a NUL
    readable at index size(). */
module Bytes {

  type Byte = b: int | 0 <= b < 256

  type Text = seq<Byte>

  datatype Option<+T> = None | Some(value: T) {
    function GetOr(default: T): T {
      if Some? then value else default
    }
  }

  /** A scan either yields a value and the index after it, or fails. */
  datatype Scan<+T> = Ok(value: T, next: nat) | Fail

  /** str[i]: reading at size() yields NUL. */
  function At(s: Text, i: nat): Byte {
    if i < |s| then s[i] else 0
  }

  /** t stands in s at index i. */
  predicate Occurs(s: Text, i: nat, t: Text)
    decreases t
  {
    if t == [] then i <= |s| else i < |s| && s[i] == t[0] && Occurs(s, i + 1, t[1..])
  }

  lemma OccursConcat(s: Text, i: nat, a: Text, b: Text)
    ensures Occurs(s, i, a + b) <==> Occurs(s, i, a) && Occurs(s, i + |a|, b)
    decreases a
  {
    if a == [] {
      assert a + b == b;
      OccursFits(s, i, b);
    } else {
      assert (a + b)[1..] == a[1..] + b;
      OccursConcat(s, i + 1, a[1..], b);
    }
  }

  lemma OccursHead(s: Text, i: nat, b: Byte, rest: Text)
    ensures Occurs(s, i, [b] + rest) <==> i < |s| && s[i] == b && Occurs(s, i + 1, rest)
  {
    assert ([b] + rest)[1..] == rest;
  }

  lemma OccursFits(s: Text, i: nat, t: Text)
    ensures Occurs(s, i, t) ==> i + |t| <= |s|
    decreases t
  {
    if t != [] {
      OccursFits(s, i + 1, t[1..]);
    }
  }

  lemma OccursSlice(s: Text, i: nat, t: Text)
    ensures Occurs(s, i, t) <==> i + |t| <= |s| && s[i..i + |t|] == t
    decreases t
  {
    if t != [] && i < |s| {
      OccursSlice(s, i + 1, t[1..]);
      if i + |t| <= |s| {
        assert s[i..i + |t|] == [s[i]] + s[i + 1..i + |t|];
        assert t == [t[0]] + t[1..];
      }
    }
  }

  // Characters the JSON code compares with.
  const QUOTE: Byte := 0x22
  const BACKSLASH: Byte := 0x5c
  const SLASH: Byte := 0x2f
  const LBRACKET: Byte := 0x5b
  const RBRACKET: Byte := 0x5d
  const LBRACE: Byte := 0x7b
  const RBRACE: Byte := 0x7d
  const COMMA: Byte := 0x2c
  const COLON: Byte := 0x3a
  const MINUS: Byte := 0x2d
  const PLUS: Byte := 0x2b
  const DOT: Byte := 0x2e
  const ZERO: Byte := 0x30
  const LOWER_E: Byte := 0x65
  const UPPER_E: Byte := 0x45
  const LOWER_U: Byte := 0x75

  const NULL_TEXT: Text := [0x6e, 0x75, 0x6c, 0x6c]
  const TRUE_TEXT: Text := [0x74, 0x72, 0x75, 0x65]
  const FALSE_TEXT: Text := [0x66, 0x61, 0x6c, 0x73, 0x65]

  predicate IsSpace(b: Byte) {
    b == 0x20 || b == 0x0a || b == 0x0d || b == 0x09
  }

  predicate IsDigit(b: Byte) {
    0x30 <= b <= 0x39
  }

  predicate AllSpaces(s: Text) {
    forall k :: 0 <= k < |s| ==> IsSpace(s[k])
  }

  predicate AllDigits(s: Text) {
    forall k :: 0 <= k < |s| ==> IsDigit(s[k])
  }
}
