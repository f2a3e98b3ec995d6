/** What dump writes, byte by byte: said of the printed text alone. */
module JsonPrinted {
  import opened Bytes
  import opened JsonValue
  import opened JsonGrammar
  import opened JsonWriter

  // ---- strings ----

  /** The characters of a printed string and its closing quote. */
  function Inside(s: Text): (t: Text)
    ensures Print(String(s)) == [QUOTE] + t
  {
    Print(String(s))[1..]
  }

  lemma {:induction false} EscapeShift(s: Text, k: nat, i: nat)
    requires k + i <= |s|
    ensures Escape(s, k + i) == Escape(s[k..], i)
    decreases |s| - k - i
  {
    hide EscapeAt, Width;
    if k + i < |s| {
      AtShift(s, k, i);
      var w := Width(s, k + i);
      if k + i + w <= |s| {
        EscapeShift(s, k, i + w);
      }
    }
  }

  lemma AtShift(s: Text, k: nat, i: nat)
    requires k + i <= |s|
    ensures EscapeAt(s, k + i) == EscapeAt(s[k..], i) && Width(s, k + i) == Width(s[k..], i)
  {
  }

  /** The text of a string is the text of its first character and then that of
      the rest. */
  lemma InsideStep(s: Text, w: nat)
    requires s != [] && w == Width(s, 0) && w <= |s|
    ensures Inside(s) == ItemText(EscapeAt(s, 0)) + Inside(s[w..])
  {
    hide EscapeAt, ItemText, Width;
    assert forall t: Text :: Inside(t) == ItemsText(Escape(t, 0));
    EscapeShift(s, w, 0);
    assert Escape(s, 0)[1..] == Escape(s, w);
  }

  predicate StartsWith(s: Text, t: Text) {
    |t| <= |s| && s[..|t|] == t
  }

  const LINE_SEPARATOR: Text := [0xe2, 0x80, 0xa8]
  const PARAGRAPH_SEPARATOR: Text := [0xe2, 0x80, 0xa9]

  lemma SeparatorStarts(s: Text)
    ensures IsSeparator(s, 0) <==> StartsWith(s, LINE_SEPARATOR) || StartsWith(s, PARAGRAPH_SEPARATOR)
    ensures StartsWith(s, LINE_SEPARATOR) <==> IsSeparator(s, 0) && At(s, 2) == 0xa8
  {
    if IsSeparator(s, 0) {
      assert |s| >= 3 && s[..3] == [s[0], s[1], s[2]];
    }
    if StartsWith(s, LINE_SEPARATOR) || StartsWith(s, PARAGRAPH_SEPARATOR) {
      assert s[0] == s[..3][0] && s[1] == s[..3][1] && s[2] == s[..3][2];
    }
  }

  /** A byte of 0x20 or more other than quote and backslash stands for itself,
      unless it starts one of the two separators. */
  lemma PlainPrinted(b: Byte, rest: Text)
    requires b >= 0x20 && b != 0x22 && b != 0x5c
    requires !StartsWith([b] + rest, LINE_SEPARATOR) && !StartsWith([b] + rest, PARAGRAPH_SEPARATOR)
    ensures Inside([b] + rest) == [b] + Inside(rest)
  {
    hide Escape, Inside;
    var s := [b] + rest;
    SeparatorStarts(s);
    assert s[1..] == rest;
    InsideStep(s, 1);
  }

  /** Seven bytes are a backslash and a letter. */
  lemma ShortPrinted(b: Byte, letter: Byte, rest: Text)
    requires (b, letter) in
      {(0x22, 0x22), (0x5c, 0x5c), (0x08, 0x62), (0x0c, 0x66), (0x0a, 0x6e), (0x0d, 0x72), (0x09, 0x74)}
    ensures Inside([b] + rest) == [0x5c, letter] + Inside(rest)
  {
    hide Escape, Inside;
    var s := [b] + rest;
    assert s[1..] == rest;
    InsideStep(s, 1);
  }

  /** Any other byte below 0x20 is a \\u escape of four lower-case digits. */
  lemma HexPrinted(b: Byte, rest: Text)
    requires b < 0x20 && b !in {0x08, 0x0c, 0x0a, 0x0d, 0x09}
    ensures Inside([b] + rest)
         == [0x5c, 0x75, 0x30, 0x30, if b < 0x10 then 0x30 else 0x31,
             if b % 0x10 < 0x0a then 0x30 + b % 0x10 else 0x57 + b % 0x10] + Inside(rest)
  {
    hide Escape, Inside;
    var s := [b] + rest;
    assert s[1..] == rest;
    InsideStep(s, 1);
  }

  /** The two separators are the escapes of U+2028 and U+2029. */
  lemma SeparatorPrinted(rest: Text)
    ensures Inside(LINE_SEPARATOR + rest) == [0x5c, 0x75, 0x32, 0x30, 0x32, 0x38] + Inside(rest)
    ensures Inside(PARAGRAPH_SEPARATOR + rest) == [0x5c, 0x75, 0x32, 0x30, 0x32, 0x39] + Inside(rest)
  {
    hide *;
    SeparatorStep(0xa8, rest);
    SeparatorStep(0xa9, rest);
    SeparatorsAre();
  }

  lemma SeparatorsAre()
    ensures LINE_SEPARATOR == [0xe2, 0x80, 0xa8] && PARAGRAPH_SEPARATOR == [0xe2, 0x80, 0xa9]
  {
  }

  lemma SeparatorStep(last: Byte, rest: Text)
    requires last == 0xa8 || last == 0xa9
    ensures Inside([0xe2, 0x80, last] + rest)
         == [0x5c, 0x75, 0x32, 0x30, 0x32, if last == 0xa8 then 0x38 else 0x39] + Inside(rest)
  {
    hide Escape, Inside;
    var s := [0xe2, 0x80, last] + rest;
    assert s[3..] == rest;
    assert EscapeAt(s, 0) == Hex([0x32, 0x30, 0x32, if last == 0xa8 then 0x38 else 0x39]);
    InsideStep(s, 3);
  }

  lemma NothingInside()
    ensures Inside([]) == [0x22]
  {
  }

  predicate Unescaped(s: Text) {
    && (forall i | 0 <= i < |s| :: s[i] >= 0x20 && s[i] != 0x22 && s[i] != 0x5c)
    && (forall i | 0 <= i <= |s| :: !StartsWith(s[i..], LINE_SEPARATOR) && !StartsWith(s[i..], PARAGRAPH_SEPARATOR))
  }

  lemma {:induction false} UnescapedInside(s: Text)
    requires Unescaped(s)
    ensures Inside(s) == s + [0x22]
    decreases |s|
  {
    hide Inside;
    if s == [] {
      NothingInside();
    } else {
      var rest := s[1..];
      assert s == [s[0]] + rest;
      assert s[0..] == s;
      assert forall i | 0 <= i <= |rest| :: rest[i..] == s[i + 1..];
      PlainPrinted(s[0], rest);
      UnescapedInside(rest);
    }
  }

  /** A string with nothing to escape is printed as itself between quotes. */
  lemma UnescapedPrinted(s: Text)
    requires Unescaped(s)
    ensures Print(String(s)) == [0x22] + s + [0x22]
  {
    UnescapedInside(s);
  }

  // ---- arrays and objects ----

  /** Comma and space between. */
  function Commas(parts: seq<Text>): Text {
    if parts == [] then []
    else if |parts| == 1 then parts[0]
    else parts[0] + [0x2c, 0x20] + Commas(parts[1..])
  }

  ghost predicate AllWellFormed(items: seq<Json>) {
    forall i | 0 <= i < |items| :: WellFormed(items[i])
  }

  lemma {:induction false} ItemsWellFormed(items: seq<Json>)
    requires WellFormedItems(items)
    ensures AllWellFormed(items)
    decreases |items|
  {
    hide WellFormed;
    if items != [] {
      ItemsWellFormed(items[1..]);
      assert items == [items[0]] + items[1..];
    }
  }

  ghost function Printed(items: seq<Json>): seq<Text>
    requires AllWellFormed(items)
  {
    seq(|items|, i requires 0 <= i < |items| => Print(items[i]))
  }

  lemma TailPrinted(rest: seq<Json>)
    requires WellFormedItems(rest)
    ensures rest == [] ==> ElemsTail(ElemsOf(rest, SPACE)) == [0x5d]
    ensures rest != [] ==>
      WellFormed(rest[0]) && WellFormedItems(rest[1..])
      && ElemsTail(ElemsOf(rest, SPACE)) == [0x2c, 0x20] + (Print(rest[0]) + ElemsTail(ElemsOf(rest[1..], SPACE)))
  {
    hide *;
    RestTails(rest);
    if rest != [] {
      ArrayRestStep(rest, false);
      RestTails(rest[1..]);
      ElemPrints(rest[0], SPACE);
      CommaIs();
    }
  }

  lemma CommaIs()
    ensures SPACE == [0x20] && COMMA == 0x2c
  {
  }

  lemma RestTails(items: seq<Json>)
    requires WellFormedItems(items)
    ensures ArrayRest(items, false) == ElemsTail(ElemsOf(items, SPACE))
    ensures items == [] ==> ArrayRest(items, false) == [0x5d]
  {
  }

  lemma CommasStep(parts: seq<Text>)
    requires parts != []
    ensures Commas(parts) == if |parts| == 1 then parts[0] else parts[0] + ([0x2c, 0x20] + Commas(parts[1..]))
  {
  }

  lemma PrintedStep(items: seq<Json>)
    requires items != [] && WellFormedItems(items) && AllWellFormed(items)
    ensures WellFormed(items[0]) && WellFormedItems(items[1..]) && AllWellFormed(items[1..])
    ensures |Printed(items)| == |items| && Printed(items)[0] == Print(items[0])
    ensures Printed(items)[1..] == Printed(items[1..])
  {
    hide Print, WellFormed;
    assert forall i | 0 <= i < |items[1..]| :: items[1..][i] == items[i + 1];
  }

  lemma {:induction false} ElemsPrinted(items: seq<Json>)
    requires items != [] && WellFormedItems(items) && AllWellFormed(items)
    ensures WellFormed(items[0]) && WellFormedItems(items[1..])
    ensures Print(items[0]) + ElemsTail(ElemsOf(items[1..], SPACE)) == Commas(Printed(items)) + [0x5d]
    decreases |items|
  {
    hide *;
    var rest := items[1..];
    PrintedStep(items);
    CommasStep(Printed(items));
    TailPrinted(rest);
    if rest != [] {
      ElemsPrinted(rest);
    }
  }

  /** The text of an array: its items' texts with a comma and a space between. */
  lemma ArrayPrinted(items: seq<Json>)
    requires WellFormed(Array(items))
    ensures AllWellFormed(items) && Print(Array(items)) == [0x5b] + Commas(Printed(items)) + [0x5d]
  {
    hide *;
    ArrayStarts(items);
    ItemsWellFormed(items);
    FirstPrinted(items);
    BracketsAre();
    if items != [] {
      ElemsPrinted(items);
    }
  }

  lemma FirstPrinted(items: seq<Json>)
    requires WellFormedItems(items) && AllWellFormed(items)
    ensures items == [] ==> ArrayRest(items, true) == [0x5d] && Commas(Printed(items)) == []
    ensures items != [] ==>
      WellFormed(items[0]) && WellFormedItems(items[1..])
      && ArrayRest(items, true) == Print(items[0]) + ElemsTail(ElemsOf(items[1..], SPACE))
  {
    hide Print, WellFormed, ElemText;
    if items != [] {
      ElemPrints(items[0], []);
      ArrayRestStep(items, true);
    }
  }

  lemma BracketsAre()
    ensures LBRACKET == 0x5b && LBRACE == 0x7b
  {
  }

  ghost predicate AllFieldsWellFormed(fields: seq<Field>) {
    forall i | 0 <= i < |fields| :: WellFormed(fields[i].value)
  }

  lemma {:induction false} FieldsWellFormed(fields: seq<Field>)
    requires WellFormedFields(fields)
    ensures AllFieldsWellFormed(fields)
    decreases |fields|
  {
    hide WellFormed;
    if fields != [] {
      FieldsWellFormed(fields[1..]);
      assert fields == [fields[0]] + fields[1..];
    }
  }

  /** Key, colon, space, value. */
  ghost function PrintedFields(fields: seq<Field>): seq<Text>
    requires AllFieldsWellFormed(fields)
  {
    seq(|fields|, i requires 0 <= i < |fields| =>
      Print(String(fields[i].key)) + [0x3a, 0x20] + Print(fields[i].value))
  }

  function FieldText(f: Field): Text
    requires WellFormed(f.value)
  {
    Print(String(f.key)) + [0x3a, 0x20] + Print(f.value)
  }

  lemma MemberPrinted(f: Field, pre: Text)
    requires WellFormed(f.value)
    ensures MemberText(Member(pre, Escape(f.key, 0), [], Elem(SPACE, TreeOf(f.value), []))) == pre + FieldText(f)
  {
    hide MemberText, TreeOf, Escape, ItemsText, Print, TreeText;
    MemberPrints(f, pre);
    StringIs(f.key);
  }

  lemma FieldTailPrinted(rest: seq<Field>)
    requires WellFormedFields(rest)
    ensures rest == [] ==> MembersTail(MembersOf(rest, SPACE)) == [0x7d]
    ensures rest != [] ==>
      WellFormed(rest[0].value) && WellFormedFields(rest[1..])
      && MembersTail(MembersOf(rest, SPACE))
         == [0x2c, 0x20] + (FieldText(rest[0]) + MembersTail(MembersOf(rest[1..], SPACE)))
  {
    hide *;
    FieldRestTails(rest);
    if rest != [] {
      ObjectRestStep(rest, false);
      FieldRestTails(rest[1..]);
      MemberPrinted(rest[0], SPACE);
      CommaIs();
    }
  }

  lemma FieldRestTails(fields: seq<Field>)
    requires WellFormedFields(fields)
    ensures ObjectRest(fields, false) == MembersTail(MembersOf(fields, SPACE))
    ensures fields == [] ==> ObjectRest(fields, false) == [0x7d]
  {
  }

  lemma PrintedFieldsStep(fields: seq<Field>)
    requires fields != [] && WellFormedFields(fields) && AllFieldsWellFormed(fields)
    ensures WellFormed(fields[0].value) && WellFormedFields(fields[1..]) && AllFieldsWellFormed(fields[1..])
    ensures |PrintedFields(fields)| == |fields| && PrintedFields(fields)[0] == FieldText(fields[0])
    ensures PrintedFields(fields)[1..] == PrintedFields(fields[1..])
  {
    hide Print, WellFormed;
    assert forall i | 0 <= i < |fields[1..]| :: fields[1..][i] == fields[i + 1];
  }

  lemma {:induction false} MembersPrinted(fields: seq<Field>)
    requires fields != [] && WellFormedFields(fields) && AllFieldsWellFormed(fields)
    ensures WellFormed(fields[0].value) && WellFormedFields(fields[1..])
    ensures FieldText(fields[0]) + MembersTail(MembersOf(fields[1..], SPACE)) == Commas(PrintedFields(fields)) + [0x7d]
    decreases |fields|
  {
    hide *;
    var rest := fields[1..];
    PrintedFieldsStep(fields);
    CommasStep(PrintedFields(fields));
    FieldTailPrinted(rest);
    if rest != [] {
      MembersPrinted(rest);
    }
  }

  lemma FirstFieldPrinted(fields: seq<Field>)
    requires WellFormedFields(fields) && AllFieldsWellFormed(fields)
    ensures fields == [] ==> ObjectRest(fields, true) == [0x7d] && Commas(PrintedFields(fields)) == []
    ensures fields != [] ==>
      WellFormed(fields[0].value) && WellFormedFields(fields[1..])
      && ObjectRest(fields, true) == FieldText(fields[0]) + MembersTail(MembersOf(fields[1..], SPACE))
  {
    hide FieldText, WellFormed, MemberText, Escape, TreeOf;
    if fields != [] {
      MemberPrinted(fields[0], []);
      ObjectRestStep(fields, true);
    }
  }

  /** The text of an object: key, colon, space and value of each field in order,
      with a comma and a space between. */
  lemma ObjectPrinted(fields: seq<Field>)
    requires WellFormed(Object(fields))
    ensures AllFieldsWellFormed(fields) && Print(Object(fields)) == [0x7b] + Commas(PrintedFields(fields)) + [0x7d]
  {
    hide *;
    ObjectStarts(fields);
    FieldsWellFormed(fields);
    FirstFieldPrinted(fields);
    BracketsAre();
    if fields != [] {
      MembersPrinted(fields);
    }
  }

  /** null, true and false. */
  lemma WordsPrinted()
    ensures Print(Null) == [0x6e, 0x75, 0x6c, 0x6c]
    ensures Print(Bool(true)) == [0x74, 0x72, 0x75, 0x65]
    ensures Print(Bool(false)) == [0x66, 0x61, 0x6c, 0x73, 0x65]
  {
  }

  /** The text of an int: a minus sign if it is negative, then the digits of its
      magnitude without a leading zero. */
  lemma IntPrinted(n: int) returns (digits: Text)
    requires WellFormed(Int(n))
    ensures Print(Int(n)) == (if n < 0 then [0x2d] else []) + digits
    ensures digits != [] && AllDigits(digits) && Decimal(digits) == (if n < 0 then -n else n)
    ensures digits[0] == 0x30 ==> |digits| == 1
  {
    digits := Digits(if n < 0 then -n else n);
    assert Print(Int(n)) == NumberText(IntTree(n));
  }
}
