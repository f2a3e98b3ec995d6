/** The dump functions of utils/src/json.cc. The text of a value is the text of
    one derivation of the grammar; the methods build it piece by piece. */
module JsonWriter {
  import opened Bytes
  import opened JsonValue
  import opened JsonGrammar
  import opened JsonReader
  import opened JsonLanguage

  const SPACE: Text := [0x20]

  /** "%d" of a natural number. */
  function Digits(n: nat): (d: Text)
    ensures d != [] && AllDigits(d) && Decimal(d) == n
    ensures d[0] == ZERO ==> |d| == 1
  {
    if n < 10 then [ZERO + n] else Digits(n / 10) + [ZERO + n % 10]
  }

  function IntTree(n: int): NumLit {
    NumLit(n < 0, Digits(if n < 0 then -n else n), None, None)
  }

  function LowerHex(n: nat): Byte
    requires n < 16
  {
    if n < 10 then 0x30 + n else 0x61 + (n - 10)
  }

  /** The escape of one byte below 0x80. */
  function EscapeByte(b: Byte): StrItem {
    if b == BACKSLASH then Short(BACKSLASH)
    else if b == QUOTE then Short(QUOTE)
    else if b == 0x08 then Short(0x62)
    else if b == 0x0c then Short(0x66)
    else if b == 0x0a then Short(0x6e)
    else if b == 0x0d then Short(0x72)
    else if b == 0x09 then Short(0x74)
    else if b <= 0x1f then Hex([0x30, 0x30, LowerHex(b / 16), LowerHex(b % 16)])
    else Plain(b)
  }

  /** U+2028 and U+2029 are written as escapes. */
  predicate IsSeparator(s: Text, i: nat) {
    At(s, i) == 0xe2 && At(s, i + 1) == 0x80 && (At(s, i + 2) == 0xa8 || At(s, i + 2) == 0xa9)
  }

  function SeparatorHex(s: Text, i: nat): Text {
    [0x32, 0x30, 0x32, if At(s, i + 2) == 0xa8 then 0x38 else 0x39]
  }

  /** The item written for the byte at i, and the bytes it covers. */
  function EscapeAt(s: Text, i: nat): StrItem {
    if IsSeparator(s, i) then Hex(SeparatorHex(s, i)) else EscapeByte(At(s, i))
  }

  function Width(s: Text, i: nat): (w: nat)
    ensures w > 0
  {
    if IsSeparator(s, i) then 3 else 1
  }

  function Escape(s: Text, i: nat): seq<StrItem>
    decreases |s| - i
  {
    if i >= |s| then [] else [EscapeAt(s, i)] + Escape(s, i + Width(s, i))
  }

  function TreeOf(v: Json): Tree
    requires WellFormed(v)
  {
    match v
    case Null => NullTree
    case Bool(b) => if b then TrueTree else FalseTree
    case Int(n) => NumberTree(IntTree(n))
    case String(s) => StringTree(Escape(s, 0))
    case Array(items) => ArrayTree([], ElemsOf(items, []))
    case Object(fields) => ObjectTree([], MembersOf(fields, []))
  }

  /** ", " between elements: the space belongs to the element after the comma. */
  function ElemsOf(items: seq<Json>, pre: Text): seq<Elem>
    requires WellFormedItems(items)
  {
    if items == [] then [] else [Elem(pre, TreeOf(items[0]), [])] + ElemsOf(items[1..], SPACE)
  }

  function MembersOf(fields: seq<Field>, pre: Text): seq<Member>
    requires WellFormedFields(fields)
  {
    if fields == [] then []
    else
      [Member(pre, Escape(fields[0].key, 0), [], Elem(SPACE, TreeOf(fields[0].value), []))]
      + MembersOf(fields[1..], SPACE)
  }

  /** Json::dump. */
  function Print(v: Json): Text
    requires WellFormed(v)
  {
    TreeText(TreeOf(v))
  }

  method DumpInt(value: int, soFar: Text) returns (out: Text)
    ensures out == soFar + NumberText(IntTree(value))
  {
    out := soFar;
    if value < 0 {
      out := out + [MINUS];
    }
    out := out + Digits(if value < 0 then -value else value);
    assert out == soFar + NumberText(IntTree(value));
  }

  method DumpString(value: Text, soFar: Text) returns (out: Text)
    ensures out == soFar + Print(String(value))
  {
    hide ItemsText, Escape;
    out := soFar + [QUOTE];
    var i := 0;
    while i < |value|
      invariant out + ItemsText(Escape(value, i)) == soFar + TreeText(StringTree(Escape(value, 0)))
      decreases |value| - i
    {
      ghost var at, before := i, out;
      var ch := value[i];
      if ch == BACKSLASH {
        out := out + [BACKSLASH, BACKSLASH];
      } else if ch == QUOTE {
        out := out + [BACKSLASH, QUOTE];
      } else if ch == 0x08 {
        out := out + [BACKSLASH, 0x62];
      } else if ch == 0x0c {
        out := out + [BACKSLASH, 0x66];
      } else if ch == 0x0a {
        out := out + [BACKSLASH, 0x6e];
      } else if ch == 0x0d {
        out := out + [BACKSLASH, 0x72];
      } else if ch == 0x09 {
        out := out + [BACKSLASH, 0x74];
      } else if ch <= 0x1f {
        out := out + [BACKSLASH, LOWER_U, 0x30, 0x30, LowerHex(ch / 16), LowerHex(ch % 16)];
      } else if ch == 0xe2 && At(value, i + 1) == 0x80 && At(value, i + 2) == 0xa8 {
        out := out + [BACKSLASH, LOWER_U, 0x32, 0x30, 0x32, 0x38];
        i := i + 2;
      } else if ch == 0xe2 && At(value, i + 1) == 0x80 && At(value, i + 2) == 0xa9 {
        out := out + [BACKSLASH, LOWER_U, 0x32, 0x30, 0x32, 0x39];
        i := i + 2;
      } else {
        out := out + [ch];
      }
      i := i + 1;
      assert out == before + ItemText(EscapeAt(value, at)) && i == at + Width(value, at);
      EscapeStep(value, at, before);
    }
    out := out + [QUOTE];
    EscapeEnds(value, i);
  }

  lemma StringIs(s: Text)
    requires WellFormed(String(s))
    ensures Print(String(s)) == TreeText(StringTree(Escape(s, 0)))
  {
  }

  lemma EscapeEnds(s: Text, i: nat)
    requires i >= |s|
    ensures ItemsText(Escape(s, i)) == [QUOTE]
  {
  }

  lemma EscapeStep(s: Text, i: nat, before: Text)
    requires i < |s|
    ensures before + ItemsText(Escape(s, i))
         == (before + ItemText(EscapeAt(s, i))) + ItemsText(Escape(s, i + Width(s, i)))
  {
    assert Escape(s, i)[1..] == Escape(s, i + Width(s, i));
    hide ItemText, EscapeAt, Width;
  }

  /** Json::dump(out). */
  method DumpValue(v: Json, soFar: Text) returns (out: Text)
    requires WellFormed(v)
    ensures out == soFar + Print(v)
    decreases v
  {
    match v {
      case Null => out := soFar + NULL_TEXT;
      case Bool(b) => out := soFar + if b then TRUE_TEXT else FALSE_TEXT;
      case Int(n) => out := DumpInt(n, soFar);
      case String(s) => out := DumpString(s, soFar);
      case Array(items) => out := DumpArray(items, soFar);
      case Object(fields) => out := DumpObject(fields, soFar);
    }
  }

  method DumpArray(values: seq<Json>, soFar: Text) returns (out: Text)
    requires WellFormed(Array(values))
    ensures out == soFar + Print(Array(values))
    decreases values
  {
    hide Print, ArrayRest, WellFormed, WellFormedItems;
    ArrayStarts(values);
    var first := true;
    out := soFar + [LBRACKET];
    for k := 0 to |values|
      invariant WellFormedItems(values[k..]) && first == (k == 0)
      invariant out + ArrayRest(values[k..], first) == soFar + Print(Array(values))
    {
      ArrayGoesOn(values[k..], first, out);
      assert values[k..][1..] == values[k + 1..];
      if !first {
        out := out + [COMMA, 0x20];
      }
      out := DumpValue(values[k], out);
      first := false;
    }
    ArrayEnds(values[|values|..], first);
    out := out + [RBRACKET];
  }

  /** The text of an array from some element on. */
  function ArrayRest(items: seq<Json>, first: bool): Text
    requires WellFormedItems(items)
  {
    if !first then ElemsTail(ElemsOf(items, SPACE))
    else if items == [] then [RBRACKET]
    else ElemText(ElemsOf(items, [])[0]) + ElemsTail(ElemsOf(items[1..], SPACE))
  }

  lemma ArrayStarts(items: seq<Json>)
    requires WellFormed(Array(items))
    ensures WellFormedItems(items) && items[0..] == items
    ensures Print(Array(items)) == [LBRACKET] + ArrayRest(items, true)
  {
    hide ElemText;
    if items != [] {
      assert ElemsOf(items, [])[1..] == ElemsOf(items[1..], SPACE);
    }
  }

  lemma SpaceIs()
    ensures SPACE == [0x20]
  {
  }

  lemma ElemPrints(v: Json, pre: Text)
    requires WellFormed(v)
    ensures ElemText(Elem(pre, TreeOf(v), [])) == pre + Print(v)
  {
    hide TreeOf, TreeText;
  }

  lemma ArrayRestStep(items: seq<Json>, first: bool)
    requires items != [] && WellFormedItems(items)
    ensures WellFormed(items[0]) && WellFormedItems(items[1..])
    ensures
      var e := Elem(if first then [] else SPACE, TreeOf(items[0]), []);
      ArrayRest(items, first) == (if first then [] else [COMMA]) + (ElemText(e) + ArrayRest(items[1..], false))
  {
    var es := ElemsOf(items, if first then [] else SPACE);
    assert es[1..] == ElemsOf(items[1..], SPACE);
    hide TreeOf, ElemText, ElemsOf, WellFormed;
  }

  lemma ArrayGoesOn(items: seq<Json>, first: bool, out: Text)
    requires items != [] && WellFormedItems(items)
    ensures WellFormed(items[0]) && WellFormedItems(items[1..])
    ensures out + ArrayRest(items, first)
         == ((if first then out else out + [COMMA, 0x20]) + Print(items[0])) + ArrayRest(items[1..], false)
  {
    hide *;
    ArrayRestStep(items, first);
    ElemPrints(items[0], if first then [] else SPACE);
    assert [COMMA, 0x20] == [COMMA] + SPACE by {
      SpaceIs();
    }
  }

  lemma ArrayEnds(items: seq<Json>, first: bool)
    requires items == []
    ensures WellFormedItems(items) && ArrayRest(items, first) == [RBRACKET]
  {
  }

  method DumpObject(fields: seq<Field>, soFar: Text) returns (out: Text)
    requires WellFormed(Object(fields))
    ensures out == soFar + Print(Object(fields))
    decreases fields
  {
    hide Print, ObjectRest, WellFormed, WellFormedFields, Escape, ItemsText;
    ObjectStarts(fields);
    var first := true;
    out := soFar + [LBRACE];
    for k := 0 to |fields|
      invariant WellFormedFields(fields[k..]) && first == (k == 0)
      invariant out + ObjectRest(fields[k..], first) == soFar + Print(Object(fields))
    {
      ObjectGoesOn(fields[k..], first, out);
      assert fields[k..][1..] == fields[k + 1..];
      if !first {
        out := out + [COMMA, 0x20];
      }
      out := DumpString(fields[k].key, out);
      StringIs(fields[k].key);
      out := out + [COLON, 0x20];
      out := DumpValue(fields[k].value, out);
      first := false;
    }
    ObjectEnds(fields[|fields|..], first);
    out := out + [RBRACE];
  }

  /** The text of an object from some entry on. */
  function ObjectRest(fields: seq<Field>, first: bool): Text
    requires WellFormedFields(fields)
  {
    if !first then MembersTail(MembersOf(fields, SPACE))
    else if fields == [] then [RBRACE]
    else MemberText(MembersOf(fields, [])[0]) + MembersTail(MembersOf(fields[1..], SPACE))
  }

  lemma ObjectStarts(fields: seq<Field>)
    requires WellFormed(Object(fields))
    ensures WellFormedFields(fields) && fields[0..] == fields
    ensures Print(Object(fields)) == [LBRACE] + ObjectRest(fields, true)
  {
    hide MemberText;
    if fields != [] {
      assert MembersOf(fields, [])[1..] == MembersOf(fields[1..], SPACE);
    }
  }

  lemma MemberPrints(f: Field, pre: Text)
    requires WellFormed(f.value)
    ensures MemberText(Member(pre, Escape(f.key, 0), [], Elem(SPACE, TreeOf(f.value), [])))
         == pre + ((TreeText(StringTree(Escape(f.key, 0))) + [COLON, 0x20]) + Print(f.value))
  {
    hide TreeOf, Escape, ItemsText;
    assert TreeText(StringTree(Escape(f.key, 0))) == [QUOTE] + ItemsText(Escape(f.key, 0));
    hide TreeText;
  }

  lemma ObjectRestStep(fields: seq<Field>, first: bool)
    requires fields != [] && WellFormedFields(fields)
    ensures WellFormed(fields[0].value) && WellFormedFields(fields[1..])
    ensures
      var pre := if first then [] else SPACE;
      var m := Member(pre, Escape(fields[0].key, 0), [], Elem(SPACE, TreeOf(fields[0].value), []));
      ObjectRest(fields, first) == (if first then [] else [COMMA]) + (MemberText(m) + ObjectRest(fields[1..], false))
  {
    var pre := if first then [] else SPACE;
    var ms := MembersOf(fields, pre);
    assert ms[1..] == MembersOf(fields[1..], SPACE);
    hide TreeOf, MemberText, MembersOf, WellFormed, Escape;
  }

  lemma ObjectGoesOn(fields: seq<Field>, first: bool, out: Text)
    requires fields != [] && WellFormedFields(fields)
    ensures WellFormed(fields[0].value) && WellFormedFields(fields[1..])
    ensures out + ObjectRest(fields, first)
         == (((if first then out else out + [COMMA, 0x20]) + TreeText(StringTree(Escape(fields[0].key, 0)))
              + [COLON, 0x20]) + Print(fields[0].value)) + ObjectRest(fields[1..], false)
  {
    hide *;
    ObjectRestStep(fields, first);
    MemberPrints(fields[0], if first then [] else SPACE);
    assert [COMMA, 0x20] == [COMMA] + SPACE by {
      SpaceIs();
    }
  }

  lemma ObjectEnds(fields: seq<Field>, first: bool)
    requires fields == []
    ensures WellFormedFields(fields) && ObjectRest(fields, first) == [RBRACE]
  {
  }
}
