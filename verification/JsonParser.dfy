/** struct JsonParser of utils/src/json.cc (STANDARD mode): a cursor and a
    failure flag, moved by methods. Each method is proved to do what the
    reader's function says, so that Parse accepts exactly the grammar. */
module JsonParsing {
  import opened Bytes
  import opened JsonValue
  import opened JsonGrammar
  import opened JsonReader
  import Utf8

  class JsonParser {
    const str: Text
    var i: nat
    var failed: bool

    predicate Valid()
      reads this
    {
      i <= |str|
    }

    constructor (str: Text)
      ensures this.str == str && i == 0 && !failed
    {
      this.str := str;
      i := 0;
      failed := false;
    }

    method ConsumeWhitespace()
      requires Valid()
      modifies this`i
      ensures Valid() && i == SkipSpaces(str, old(i))
    {
      while IsSpace(At(str, i))
        invariant Valid() && SkipSpaces(str, i) == SkipSpaces(str, old(i))
        decreases |str| - i
      {
        i := i + 1;
      }
    }

    method GetNextToken() returns (ch: Byte)
      requires Valid()
      modifies this
      ensures Valid()
      ensures failed <==> old(failed) || Token(str, old(i)).Fail?
      ensures !failed ==> Token(str, old(i)) == Ok(ch, i)
      ensures failed ==> ch == 0 && old(i) <= i
    {
      ConsumeWhitespace();
      if failed {
        return 0;
      }
      if i == |str| {
        failed := true;
        return 0;
      }
      ch := str[i];
      i := i + 1;
    }

    /** One pass over the characters: an escaped unit is held in `last` until
        the next character shows whether it is half of a pair. */
    method ParseString() returns (out: Text)
      requires Valid() && !failed
      modifies this
      ensures Valid() && old(i) <= i
      ensures failed <==> ScanItems(str, old(i)).Fail?
      ensures !failed ==> ScanItems(str, old(i)).next == i && out == StringValue(ScanItems(str, old(i)).value)
    {
      hide Meaning, HexValue, Astral, Utf8.Encode;
      out := [];
      var last: int := -1;
      ghost var all := ScanItems(str, i);
      NothingHeld(if all.Ok? then Pieces(all.value) else []);
      while true
        invariant Valid() && old(i) <= i && !failed && -1 <= last < 0x1_0000
        invariant all.Ok? <==> ScanItems(str, i).Ok?
        invariant all.Ok? ==> all.next == ScanItems(str, i).next
        invariant all.Ok? ==>
                    StringValue(all.value) == out + Meaning(Held(last) + Pieces(ScanItems(str, i).value))
        decreases |str| - i
      {
        if i == |str| {
          failed := true;
          return [];
        }
        ghost var rest := if ScanItems(str, i).Ok? then Pieces(ScanItems(str, i).value) else [];
        var ch := str[i];
        i := i + 1;
        if ch == QUOTE {
          LastMeaning(last);
          return out + Utf8.Encode(last);
        }
        if ch < 0x20 {
          failed := true;
          return [];
        }
        if ch != BACKSLASH {
          RawMeaning(out, last, ch, if rest == [] then [] else rest[1..]);
          out := out + Utf8.Encode(last) + [ch];
          last := -1;
          continue;
        }
        if i == |str| {
          failed := true;
          return [];
        }
        ch := str[i];
        i := i + 1;
        if ch == LOWER_U {
          if |str| - i < 4 || !AllHex(str[i..i + 4]) {
            failed := true;
            return [];
          }
          var codepoint := HexValue(str[i..i + 4]);
          UnitMeaning(out, last, codepoint, if rest == [] then [] else rest[1..]);
          if IsLead(last) && IsTrail(codepoint) {
            out := out + Utf8.Encode(Astral(last, codepoint));
            last := -1;
          } else {
            out := out + Utf8.Encode(last);
            last := codepoint;
          }
          i := i + 4;
          continue;
        }
        var b := ShortValue(ch);
        if b.None? {
          failed := true;
          return [];
        }
        RawMeaning(out, last, b.value, if rest == [] then [] else rest[1..]);
        out := out + Utf8.Encode(last) + [b.value];
        last := -1;
      }
    }

    /** while (in_range(str[i], '0', '9')) i++; */
    method SkipDigits()
      requires Valid()
      modifies this`i
      ensures Valid() && i == DigitsEnd(str, old(i))
    {
      while IsDigit(At(str, i))
        invariant Valid() && DigitsEnd(str, i) == DigitsEnd(str, old(i))
        decreases |str| - i
      {
        i := i + 1;
      }
    }

    method ParseWhole() returns (whole: Text)
      requires Valid() && !failed
      modifies this
      ensures Valid() && old(i) <= i
      ensures failed <==> ScanWhole(str, old(i)).Fail?
      ensures !failed ==> ScanWhole(str, old(i)) == Ok(whole, i)
    {
      var start := i;
      if At(str, i) == ZERO {
        i := i + 1;
        failed := IsDigit(At(str, i));
      } else if IsDigit(At(str, i)) {
        i := i + 1;
        SkipDigits();
      } else {
        failed := true;
      }
      return str[start..i];
    }

    method ParseFrac() returns (frac: Option<Text>)
      requires Valid() && !failed
      modifies this
      ensures Valid() && old(i) <= i
      ensures failed <==> ScanFrac(str, old(i)).Fail?
      ensures !failed ==> ScanFrac(str, old(i)) == Ok(frac, i)
    {
      if At(str, i) != DOT {
        return None;
      }
      i := i + 1;
      if !IsDigit(At(str, i)) {
        failed := true;
        return None;
      }
      var digits := i;
      SkipDigits();
      return Some(str[digits..i]);
    }

    method ParseExp() returns (exp: Option<Exponent>)
      requires Valid() && !failed
      modifies this
      ensures Valid() && old(i) <= i
      ensures failed <==> ScanExp(str, old(i)).Fail?
      ensures !failed ==> ScanExp(str, old(i)) == Ok(exp, i)
    {
      if At(str, i) != LOWER_E && At(str, i) != UPPER_E {
        return None;
      }
      var letter := str[i];
      i := i + 1;
      var sign := [];
      if At(str, i) == PLUS || At(str, i) == MINUS {
        sign := [str[i]];
        i := i + 1;
      }
      if !IsDigit(At(str, i)) {
        failed := true;
        return None;
      }
      var digits := i;
      SkipDigits();
      return Some(Exponent(letter, sign, str[digits..i]));
    }

    method ParseNumber() returns (r: Json)
      requires Valid() && !failed && i < |str|
      modifies this
      ensures Valid() && old(i) <= i
      ensures failed <==> ReadNumber(str, old(i)).Fail?
      ensures !failed ==> ReadNumber(str, old(i)) == Ok(r, i)
    {
      hide ScanWhole, ScanFrac, ScanExp, IntValue, RealValue, IsExponent;
      var start := i;
      var neg := At(str, i) == MINUS;
      if neg {
        i := i + 1;
      }
      var whole := ParseWhole();
      if failed {
        return Null;
      }
      if At(str, i) != DOT && At(str, i) != LOWER_E && At(str, i) != UPPER_E && i - start <= 9 {
        NoFraction(str, i);
        return Int(IntValue(NumLit(neg, whole, None, None)));
      }
      FractionOrNot(str, i);
      var frac := ParseFrac();
      if failed {
        return Null;
      }
      var exp := ParseExp();
      if failed {
        return Null;
      }
      return Double(RealValue(NumLit(neg, whole, frac, exp)));
    }

    /** The byte just read starts `expected`. */
    method ExpectText(expected: Text, res: Json) returns (r: Json)
      requires Valid() && !failed && i > 0 && expected != []
      modifies this
      ensures Valid() && old(i) - 1 <= i
      ensures failed <==> Expect(str, old(i) - 1, expected, res).Fail?
      ensures !failed ==> Expect(str, old(i) - 1, expected, res) == Ok(r, i)
    {
      i := i - 1;
      OccursSlice(str, i, expected);
      if i + |expected| <= |str| && str[i..i + |expected|] == expected {
        i := i + |expected|;
        return res;
      }
      failed := true;
      return Null;
    }

    /** parse_json. Once failed, a call returns at once. */
    method ParseJson(depth: int) returns (r: Json)
      requires Valid() && depth <= MAX_DEPTH + 1
      modifies this
      ensures Valid() && (old(failed) ==> failed)
      ensures !old(failed) ==> (failed <==> ReadValue(str, old(i), depth).Fail?)
      ensures !failed ==> ReadValue(str, old(i), depth) == Ok(r, i)
      decreases MAX_DEPTH + 1 - depth
    {
      if depth > MAX_DEPTH {
        failed := true;
        return Null;
      }
      var ch := GetNextToken();
      if failed {
        return Null;
      }
      if ch == MINUS || IsDigit(ch) {
        i := i - 1;
        r := ParseNumber();
      } else if ch == TRUE_TEXT[0] {
        r := ExpectText(TRUE_TEXT, Bool(true));
      } else if ch == FALSE_TEXT[0] {
        r := ExpectText(FALSE_TEXT, Bool(false));
      } else if ch == NULL_TEXT[0] {
        r := ExpectText(NULL_TEXT, Null);
      } else if ch == QUOTE {
        var text := ParseString();
        r := String(text);
      } else if ch == LBRACE {
        r := ParseObject(depth);
      } else if ch == LBRACKET {
        r := ParseArray(depth);
      } else {
        failed := true;
        r := Null;
      }
    }

    /** The '[' branch of parse_json. The loop steps back to the first byte of
        the element, so a step gains ground only while nothing has failed. */
    method ParseArray(depth: int) returns (r: Json)
      requires Valid() && !failed && i > 0 && depth <= MAX_DEPTH
      modifies this
      ensures Valid()
      ensures failed <==> JsonReader.ReadArray(str, old(i), depth).Fail?
      ensures !failed ==> JsonReader.ReadArray(str, old(i), depth) == Ok(r, i)
      decreases MAX_DEPTH + 1 - depth, 0
    {
      hide ReadValue, ReadElems, JsonReader.ReadArray;
      var data := [];
      ReadArrayIs(str, i, depth);
      ReadElemsFromSpaces(str, i, depth + 1, data);
      ghost var all := ReadElems(str, i, depth + 1, data);
      var ch := GetNextToken();
      if ch == RBRACKET {
        return Array(data);
      }
      while true
        invariant Valid() && i > 0
        invariant failed ==> all.Fail?
        invariant !failed ==> !IsSpace(str[i - 1]) && all == ReadElems(str, i - 1, depth + 1, data)
        decreases if failed then 0 else |str| - i + 1
      {
        i := i - 1;
        ReadElemsIs(str, i, depth + 1, data);
        var v := ParseJson(depth + 1);
        data := data + [v];
        if failed {
          return Null;
        }
        ch := GetNextToken();
        if ch == RBRACKET {
          break;
        }
        if ch != COMMA {
          failed := true;
          return Null;
        }
        ReadElemsFromSpaces(str, i, depth + 1, data);
        ReadElemsIs(str, i, depth + 1, data);
        if Token(str, i).Fail? {
          ReadValueNeedsToken(str, i, depth + 1);
        }
        ch := GetNextToken();
      }
      return Array(data);
    }

    /** A member's key and colon; ch is the byte just read. */
    method ParseKey(ch: Byte) returns (key: Text)
      requires Valid() && i > 0
      requires if failed then ch != QUOTE else str[i - 1] == ch && !IsSpace(ch)
      modifies this
      ensures Valid() && (old(failed) ==> failed)
      ensures !old(failed) ==> old(i) - 1 <= i && (failed <==> ReadKey(str, old(i) - 1).Fail?)
      ensures !failed ==> ReadKey(str, old(i) - 1) == Ok(key, i)
    {
      hide ScanItems, StringValue;
      if ch != QUOTE {
        failed := true;
        return [];
      }
      key := ParseString();
      if failed {
        return [];
      }
      var colon := GetNextToken();
      if colon != COLON {
        failed := true;
      }
    }

    /** The '{' branch of parse_json. */
    method ParseObject(depth: int) returns (r: Json)
      requires Valid() && !failed && i > 0 && depth <= MAX_DEPTH
      modifies this
      ensures Valid()
      ensures failed <==> JsonReader.ReadObject(str, old(i), depth).Fail?
      ensures !failed ==> JsonReader.ReadObject(str, old(i), depth) == Ok(r, i)
      decreases MAX_DEPTH + 1 - depth, 0
    {
      hide ReadValue, ReadMembers, JsonReader.ReadObject, ReadKey, Put;
      var data: seq<Field> := [];
      ReadObjectIs(str, i, depth);
      ReadMembersFromSpaces(str, i, depth + 1, data);
      ghost var all := ReadMembers(str, i, depth + 1, data);
      var ch := GetNextToken();
      if ch == RBRACE {
        return Object(data);
      }
      while true
        invariant Valid() && i > 0
        invariant failed ==> all.Fail? && ch != QUOTE
        invariant !failed ==> str[i - 1] == ch && !IsSpace(ch) && all == ReadMembers(str, i - 1, depth + 1, data)
        decreases if failed then 0 else |str| - i + 1
      {
        ReadMembersIs(str, i - 1, depth + 1, data);
        var key := ParseKey(ch);
        if failed {
          return Null;
        }
        var v := ParseJson(depth + 1);
        data := Put(data, key, v);
        if failed {
          return Null;
        }
        ch := GetNextToken();
        if ch == RBRACE {
          break;
        }
        if ch != COMMA {
          failed := true;
          return Null;
        }
        ReadMembersFromSpaces(str, i, depth + 1, data);
        ReadMembersIs(str, i, depth + 1, data);
        ReadKeyIs(str, i);
        ch := GetNextToken();
      }
      return Object(data);
    }
  }

  /** Json::parse. */
  method Parse(text: Text) returns (r: Option<Json>)
    ensures r == ReadText(text)
  {
    var parser := new JsonParser(text);
    var v := parser.ParseJson(0);
    parser.ConsumeWhitespace();
    if parser.failed || parser.i != |text| {
      return None;
    }
    return Some(v);
  }

  /** The unit not yet written. */
  function Held(last: int): seq<Piece> {
    if last < 0 then [] else [Unit(last)]
  }

  lemma FlushMeaning(last: int, rest: seq<Piece>)
    requires last < 0x1_0000
    requires rest == [] || rest[0].Raw? || !IsLead(last) || !IsTrail(rest[0].u)
    ensures Meaning(Held(last) + rest) == Utf8.Encode(last) + Meaning(rest)
  {
    if last >= 0 {
      assert ([Unit(last)] + rest)[1..] == rest;
    } else {
      assert Held(last) + rest == rest;
    }
  }

  lemma NothingHeld(ps: seq<Piece>)
    ensures [] + Meaning(Held(-1) + ps) == Meaning(ps)
  {
    assert Held(-1) + ps == ps;
  }

  lemma LastMeaning(last: int)
    requires last < 0x1_0000
    ensures Meaning(Held(last) + []) == Utf8.Encode(last)
  {
    FlushMeaning(last, []);
  }

  lemma RawMeaning(out: Text, last: int, b: Byte, rest: seq<Piece>)
    requires last < 0x1_0000
    ensures out + Meaning(Held(last) + ([Raw(b)] + rest))
         == (out + Utf8.Encode(last) + [b]) + Meaning(Held(-1) + rest)
  {
    hide Utf8.Encode;
    FlushMeaning(last, [Raw(b)] + rest);
    NothingHeld(rest);
    assert ([Raw(b)] + rest)[1..] == rest;
  }

  lemma UnitMeaning(out: Text, last: int, u: nat, rest: seq<Piece>)
    requires last < 0x1_0000 && u < 0x1_0000
    ensures out + Meaning(Held(last) + ([Unit(u)] + rest))
         == if IsLead(last) && IsTrail(u) then (out + Utf8.Encode(Astral(last, u))) + Meaning(Held(-1) + rest)
            else (out + Utf8.Encode(last)) + Meaning(Held(u) + rest)
  {
    hide Utf8.Encode;
    if IsLead(last) && IsTrail(u) {
      var ps := Held(last) + ([Unit(u)] + rest);
      assert ps[2..] == rest && Held(-1) + rest == rest;
    } else {
      FlushMeaning(last, [Unit(u)] + rest);
    }
  }

  lemma NoFraction(s: Text, i: nat)
    requires i <= |s| && At(s, i) != DOT && At(s, i) != LOWER_E && At(s, i) != UPPER_E
    ensures ScanFrac(s, i) == Ok(None, i) && ScanExp(s, i) == Ok(None, i)
  {
  }

  lemma FractionOrNot(s: Text, i: nat)
    requires i <= |s|
    ensures ScanFrac(s, i).Ok? ==> (ScanFrac(s, i).value.Some? <==> At(s, i) == DOT)
    ensures At(s, i) != DOT ==> ScanFrac(s, i) == Ok(None, i)
    ensures ScanExp(s, i).Ok? ==> (ScanExp(s, i).value.Some? <==> At(s, i) == LOWER_E || At(s, i) == UPPER_E)
  {
  }

  lemma ReadValueNeedsToken(s: Text, i: nat, depth: int)
    requires i <= |s| && Token(s, i).Fail?
    ensures ReadValue(s, i, depth).Fail?
  {
  }
}
