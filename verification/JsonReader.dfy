/** What the parser of utils/src/json.cc reads, in STANDARD mode, as functions
    from text and index. The methods of JsonParser are proved against these;
    JsonLanguage relates them to the grammar. */
module JsonReader {
  import opened Bytes
  import opened JsonValue
  import opened JsonGrammar

  function SkipSpaces(s: Text, i: nat): (j: nat)
    requires i <= |s|
    ensures i <= j <= |s| && !IsSpace(At(s, j))
    decreases |s| - i
  {
    if IsSpace(At(s, i)) then SkipSpaces(s, i + 1) else i
  }

  /** get_next_token: the next byte that is not white space. */
  function Token(s: Text, i: nat): (r: Scan<Byte>)
    requires i <= |s|
    ensures r.Ok? ==> i < r.next <= |s| && r.value == s[r.next - 1]
  {
    var j := SkipSpaces(s, i);
    if j == |s| then Fail else Ok(s[j], j + 1)
  }

  /** The item of a string that starts at i. */
  function ScanItem(s: Text, i: nat): (r: Scan<StrItem>)
    requires i < |s|
    ensures r.Ok? ==> i < r.next <= |s| && IsItem(r.value)
  {
    if s[i] < 0x20 || s[i] == QUOTE then Fail
    else if s[i] != BACKSLASH then Ok(Plain(s[i]), i + 1)
    else if i + 1 == |s| then Fail
    else if s[i + 1] == LOWER_U then
      if i + 6 <= |s| && AllHex(s[i + 2..i + 6]) then Ok(Hex(s[i + 2..i + 6]), i + 6) else Fail
    else if ShortValue(s[i + 1]).Some? then Ok(Short(s[i + 1]), i + 2)
    else Fail
  }

  /** The items from i up to the closing quote, which is consumed. */
  function ScanItems(s: Text, i: nat): (r: Scan<seq<StrItem>>)
    requires i <= |s|
    ensures r.Ok? ==> i < r.next <= |s| && AllItems(r.value)
    decreases |s| - i
  {
    if i == |s| then Fail
    else if s[i] == QUOTE then Ok([], i + 1)
    else
      match ScanItem(s, i)
      case Fail => Fail
      case Ok(c, j) =>
        match ScanItems(s, j)
        case Fail => Fail
        case Ok(rest, k) => Ok([c] + rest, k)
  }

  function DigitsEnd(s: Text, i: nat): (j: nat)
    requires i <= |s|
    ensures i <= j <= |s| && AllDigits(s[i..j]) && !IsDigit(At(s, j))
    decreases |s| - i
  {
    if IsDigit(At(s, i)) then
      var j := DigitsEnd(s, i + 1);
      assert s[i..j] == [s[i]] + s[i + 1..j];
      j
    else i
  }

  function ScanWhole(s: Text, i: nat): (r: Scan<Text>)
    requires i <= |s|
    ensures r.Ok? ==> i < r.next <= |s| && r.value == s[i..r.next]
    ensures r.Ok? ==> AllDigits(r.value) && (r.value[0] == ZERO ==> |r.value| == 1)
    ensures r.Ok? ==> !IsDigit(At(s, r.next))
  {
    if At(s, i) == ZERO then
      if IsDigit(At(s, i + 1)) then Fail else Ok([ZERO], i + 1)
    else if IsDigit(At(s, i)) then
      var j := DigitsEnd(s, i + 1);
      assert s[i..j] == [s[i]] + s[i + 1..j];
      Ok(s[i..j], j)
    else Fail
  }

  function ScanFrac(s: Text, i: nat): (r: Scan<Option<Text>>)
    requires i <= |s|
    ensures r.Ok? ==> i <= r.next <= |s| && Occurs(s, i, FracText(r.value)) && r.next == i + |FracText(r.value)|
    ensures r.Ok? && r.value.Some? ==> r.value.value != [] && AllDigits(r.value.value)
    ensures r.Ok? ==> !IsDigit(At(s, r.next)) || (r.value.None? && r.next == i)
  {
    if At(s, i) != DOT then Ok(None, i)
    else if !IsDigit(At(s, i + 1)) then Fail
    else
      var j := DigitsEnd(s, i + 1);
      OccursSlice(s, i + 1, s[i + 1..j]);
      OccursHead(s, i, DOT, s[i + 1..j]);
      Ok(Some(s[i + 1..j]), j)
  }

  /** The optional sign of an exponent. */
  function ScanSign(s: Text, i: nat): (sign: Text)
    ensures IsSign(sign) && Occurs(s, i, sign)
    requires i <= |s|
  {
    if At(s, i) == PLUS || At(s, i) == MINUS then [s[i]] else []
  }

  function ScanExp(s: Text, i: nat): (r: Scan<Option<Exponent>>)
    requires i <= |s|
    ensures r.Ok? ==> i <= r.next <= |s| && Occurs(s, i, ExpText(r.value)) && r.next == i + |ExpText(r.value)|
    ensures r.Ok? && r.value.Some? ==> IsExponent(r.value.value)
  {
    if At(s, i) != LOWER_E && At(s, i) != UPPER_E then Ok(None, i)
    else
      var sign := ScanSign(s, i + 1);
      var k := i + 1 + |sign|;
      if !IsDigit(At(s, k)) then Fail
      else
        var j := DigitsEnd(s, k);
        OccursSlice(s, k, s[k..j]);
        OccursConcat(s, i + 1, sign, s[k..j]);
        OccursHead(s, i, s[i], sign + s[k..j]);
        Ok(Some(Exponent(s[i], sign, s[k..j])), j)
  }

  function ScanNumber(s: Text, i: nat): (r: Scan<NumLit>)
    requires i <= |s|
    ensures r.Ok? ==> i < r.next <= |s| && IsNumber(r.value)
  {
    var neg := At(s, i) == MINUS;
    var start := if neg then i + 1 else i;
    match ScanWhole(s, start)
    case Fail => Fail
    case Ok(whole, j) =>
      match ScanFrac(s, j)
      case Fail => Fail
      case Ok(frac, k) =>
        match ScanExp(s, k)
        case Fail => Fail
        case Ok(exp, l) => Ok(NumLit(neg, whole, frac, exp), l)
  }

  /** parse_json(depth), entered at index i. */
  function ReadValue(s: Text, i: nat, depth: int): (r: Scan<Json>)
    requires i <= |s|
    ensures r.Ok? ==> i < r.next <= |s|
    decreases |s| - i, 5
  {
    if depth > MAX_DEPTH then Fail
    else
      match Token(s, i)
      case Fail => Fail
      case Ok(ch, j) => ReadFrom(s, ch, j, depth)
  }

  /** A value whose first byte, ch, has been consumed. */
  function ReadFrom(s: Text, ch: Byte, i: nat, depth: int): (r: Scan<Json>)
    requires 0 < i <= |s|
    ensures r.Ok? ==> i <= r.next <= |s|
    decreases |s| - i, 8
  {
    if ch == MINUS || IsDigit(ch) then ReadNumber(s, i - 1)
    else if ch == TRUE_TEXT[0] then Expect(s, i - 1, TRUE_TEXT, Bool(true))
    else if ch == FALSE_TEXT[0] then Expect(s, i - 1, FALSE_TEXT, Bool(false))
    else if ch == NULL_TEXT[0] then Expect(s, i - 1, NULL_TEXT, Null)
    else if ch == QUOTE then ReadString(s, i)
    else if ch == LBRACE then ReadObject(s, i, depth)
    else if ch == LBRACKET then ReadArray(s, i, depth)
    else Fail
  }

  function ReadNumber(s: Text, i: nat): (r: Scan<Json>)
    requires i <= |s|
    ensures r.Ok? ==> i < r.next <= |s|
  {
    match ScanNumber(s, i)
    case Fail => Fail
    case Ok(n, k) => Ok(NumberValue(n), k)
  }

  function ReadString(s: Text, i: nat): (r: Scan<Json>)
    requires i <= |s|
    ensures r.Ok? ==> i < r.next <= |s|
  {
    match ScanItems(s, i)
    case Fail => Fail
    case Ok(items, k) => Ok(String(StringValue(items)), k)
  }

  /** An object whose opening brace has been consumed. */
  function ReadObject(s: Text, i: nat, depth: int): (r: Scan<Json>)
    requires i <= |s|
    ensures r.Ok? ==> i < r.next <= |s|
    decreases |s| - i, 7
  {
    match Token(s, i)
    case Fail => Fail
    case Ok(first, k) =>
      if first == RBRACE then Ok(Object([]), k) else
      match ReadMembers(s, i, depth + 1, [])
      case Fail => Fail
      case Ok(fields, l) => Ok(Object(fields), l)
  }

  /** An array whose opening bracket has been consumed. */
  function ReadArray(s: Text, i: nat, depth: int): (r: Scan<Json>)
    requires i <= |s|
    ensures r.Ok? ==> i < r.next <= |s|
    decreases |s| - i, 7
  {
    match Token(s, i)
    case Fail => Fail
    case Ok(first, k) =>
      if first == RBRACKET then Ok(Array([]), k) else
      match ReadElems(s, i, depth + 1, [])
      case Fail => Fail
      case Ok(items, l) => Ok(Array(items), l)
  }

  function Expect(s: Text, i: nat, expected: Text, v: Json): (r: Scan<Json>)
    requires i <= |s| && expected != []
    ensures r.Ok? ==> i < r.next <= |s|
  {
    OccursFits(s, i, expected);
    if Occurs(s, i, expected) then Ok(v, i + |expected|) else Fail
  }

  /** Elements from i on, up to the closing bracket, after those in acc. */
  function ReadElems(s: Text, i: nat, depth: int, acc: seq<Json>): (r: Scan<seq<Json>>)
    requires i <= |s|
    ensures r.Ok? ==> i < r.next <= |s|
    decreases |s| - i, 6
  {
    match ReadValue(s, i, depth)
    case Fail => Fail
    case Ok(v, j) =>
      match Token(s, j)
      case Fail => Fail
      case Ok(ch, k) =>
        if ch == RBRACKET then Ok(acc + [v], k)
        else if ch == COMMA then ReadElems(s, k, depth, acc + [v])
        else Fail
  }

  /** A member's key and colon. */
  function ReadKey(s: Text, i: nat): (r: Scan<Text>)
    requires i <= |s|
    ensures r.Ok? ==> i < r.next <= |s|
  {
    match Token(s, i)
    case Fail => Fail
    case Ok(ch, j) =>
      if ch != QUOTE then Fail else
      match ScanItems(s, j)
      case Fail => Fail
      case Ok(items, k) =>
        match Token(s, k)
        case Fail => Fail
        case Ok(colon, l) => if colon == COLON then Ok(StringValue(items), l) else Fail
  }

  /** Members from i on, up to the closing brace, added to acc. */
  function ReadMembers(s: Text, i: nat, depth: int, acc: seq<Field>): (r: Scan<seq<Field>>)
    requires i <= |s|
    ensures r.Ok? ==> i < r.next <= |s|
    decreases |s| - i, 6
  {
    match ReadKey(s, i)
    case Fail => Fail
    case Ok(key, h) =>
      match ReadValue(s, h, depth)
      case Fail => Fail
      case Ok(v, j) =>
        match Token(s, j)
        case Fail => Fail
        case Ok(ch, k) =>
          if ch == RBRACE then Ok(Put(acc, key, v), k)
          else if ch == COMMA then ReadMembers(s, k, depth, Put(acc, key, v))
          else Fail
  }

  /** Json::parse: one value, and nothing but white space after it. */
  function ReadText(s: Text): Option<Json> {
    match ReadValue(s, 0, 0)
    case Fail => None
    case Ok(v, i) => if SkipSpaces(s, i) == |s| then Some(v) else None
  }

  // One step of each function, for proofs that keep the functions folded.

  lemma ReadValueIs(s: Text, i: nat, depth: int)
    requires i <= |s| && Token(s, i).Ok? && depth <= MAX_DEPTH
    ensures ReadValue(s, i, depth) == ReadFrom(s, Token(s, i).value, Token(s, i).next, depth)
  {
    hide Token, ReadFrom;
  }

  lemma ReadArrayIs(s: Text, i: nat, depth: int)
    requires i <= |s|
    ensures Token(s, i).Fail? ==> ReadArray(s, i, depth).Fail?
    ensures Token(s, i).Ok? && Token(s, i).value == RBRACKET
        ==> ReadArray(s, i, depth) == Ok(Array([]), Token(s, i).next)
    ensures Token(s, i).Ok? && Token(s, i).value != RBRACKET ==>
              var r := ReadElems(s, i, depth + 1, []);
              ReadArray(s, i, depth) == if r.Ok? then Ok(Array(r.value), r.next) else Fail
  {
    hide Token, ReadElems;
  }

  lemma ReadObjectIs(s: Text, i: nat, depth: int)
    requires i <= |s|
    ensures Token(s, i).Fail? ==> ReadObject(s, i, depth).Fail?
    ensures Token(s, i).Ok? && Token(s, i).value == RBRACE
        ==> ReadObject(s, i, depth) == Ok(Object([]), Token(s, i).next)
    ensures Token(s, i).Ok? && Token(s, i).value != RBRACE ==>
              var r := ReadMembers(s, i, depth + 1, []);
              ReadObject(s, i, depth) == if r.Ok? then Ok(Object(r.value), r.next) else Fail
  {
    hide Token, ReadMembers;
  }

  lemma ReadElemsStep(s: Text, i: nat, depth: int, acc: seq<Json>, v: Json, j: nat)
    requires i <= |s| && ReadValue(s, i, depth) == Ok(v, j) && Token(s, j).Ok?
    ensures Token(s, j).value == RBRACKET ==> ReadElems(s, i, depth, acc) == Ok(acc + [v], Token(s, j).next)
    ensures Token(s, j).value == COMMA ==>
              ReadElems(s, i, depth, acc) == ReadElems(s, Token(s, j).next, depth, acc + [v])
  {
    hide ReadValue, Token;
  }

  lemma ReadElemsOk(s: Text, i: nat, depth: int, acc: seq<Json>)
    requires i <= |s| && ReadElems(s, i, depth, acc).Ok?
    ensures ReadValue(s, i, depth).Ok?
    ensures
      var end := Token(s, ReadValue(s, i, depth).next);
      && end.Ok? && (end.value == RBRACKET || end.value == COMMA)
  {
    hide ReadValue, Token;
  }

  lemma ReadMembersStep(s: Text, i: nat, depth: int, acc: seq<Field>, key: Text, h: nat, v: Json, j: nat)
    requires i <= |s| && ReadKey(s, i) == Ok(key, h) && ReadValue(s, h, depth) == Ok(v, j) && Token(s, j).Ok?
    ensures Token(s, j).value == RBRACE ==> ReadMembers(s, i, depth, acc) == Ok(Put(acc, key, v), Token(s, j).next)
    ensures Token(s, j).value == COMMA ==>
              ReadMembers(s, i, depth, acc) == ReadMembers(s, Token(s, j).next, depth, Put(acc, key, v))
  {
    hide ReadKey, ReadValue, Token, Put;
  }

  lemma ReadMembersOk(s: Text, i: nat, depth: int, acc: seq<Field>)
    requires i <= |s| && ReadMembers(s, i, depth, acc).Ok?
    ensures ReadKey(s, i).Ok? && ReadValue(s, ReadKey(s, i).next, depth).Ok?
    ensures
      var end := Token(s, ReadValue(s, ReadKey(s, i).next, depth).next);
      && end.Ok? && (end.value == RBRACE || end.value == COMMA)
  {
    hide ReadKey, ReadValue, Token;
  }

  lemma ReadElemsIs(s: Text, i: nat, depth: int, acc: seq<Json>)
    requires i <= |s|
    ensures
      var v := ReadValue(s, i, depth);
      ReadElems(s, i, depth, acc) ==
        if v.Fail? || Token(s, v.next).Fail? then Fail
        else
          var t := Token(s, v.next);
          if t.value == RBRACKET then Ok(acc + [v.value], t.next)
          else if t.value == COMMA then ReadElems(s, t.next, depth, acc + [v.value])
          else Fail
  {
    hide ReadValue, Token;
  }

  lemma ReadMembersIs(s: Text, i: nat, depth: int, acc: seq<Field>)
    requires i <= |s|
    ensures
      var key := ReadKey(s, i);
      ReadMembers(s, i, depth, acc) ==
        if key.Fail? then Fail
        else
          var v := ReadValue(s, key.next, depth);
          if v.Fail? || Token(s, v.next).Fail? then Fail
          else
            var t := Token(s, v.next);
            if t.value == RBRACE then Ok(Put(acc, key.value, v.value), t.next)
            else if t.value == COMMA then ReadMembers(s, t.next, depth, Put(acc, key.value, v.value))
            else Fail
  {
    hide ReadKey, ReadValue, Token, Put;
  }

  lemma ReadKeyIs(s: Text, i: nat)
    requires i <= |s|
    ensures
      var quote := Token(s, i);
      ReadKey(s, i) ==
        if quote.Fail? || quote.value != QUOTE || ScanItems(s, quote.next).Fail? then Fail
        else
          var items := ScanItems(s, quote.next);
          var colon := Token(s, items.next);
          if colon.Ok? && colon.value == COLON then Ok(StringValue(items.value), colon.next) else Fail
  {
    hide Token, ScanItems, StringValue;
  }

  lemma TokenFromSpaces(s: Text, i: nat)
    requires i <= |s|
    ensures Token(s, i) == Token(s, SkipSpaces(s, i))
  {
  }

  /** Reading from white space or from the token after it is the same. */
  lemma ReadFromSpaces(s: Text, i: nat, depth: int)
    requires i <= |s|
    ensures ReadValue(s, i, depth) == ReadValue(s, SkipSpaces(s, i), depth)
    ensures ReadKey(s, i) == ReadKey(s, SkipSpaces(s, i))
  {
    TokenFromSpaces(s, i);
    hide Token, ReadFrom, SkipSpaces, ScanItems, StringValue;
  }

  lemma ReadElemsFromSpaces(s: Text, i: nat, depth: int, acc: seq<Json>)
    requires i <= |s|
    ensures ReadElems(s, i, depth, acc) == ReadElems(s, SkipSpaces(s, i), depth, acc)
  {
    hide *;
    ReadFromSpaces(s, i, depth);
    ReadElemsIs(s, i, depth, acc);
    ReadElemsIs(s, SkipSpaces(s, i), depth, acc);
  }

  lemma ReadMembersFromSpaces(s: Text, i: nat, depth: int, acc: seq<Field>)
    requires i <= |s|
    ensures ReadMembers(s, i, depth, acc) == ReadMembers(s, SkipSpaces(s, i), depth, acc)
  {
    hide *;
    ReadFromSpaces(s, i, depth);
    ReadMembersIs(s, i, depth, acc);
    ReadMembersIs(s, SkipSpaces(s, i), depth, acc);
  }
}
