/** Sections 2 to 7 of RFC 8259 at byte level, as derivation trees: each
    production is a constructor, `...Text` is the text it derives and
    `...Value` is what that text means. Nothing here looks at the reader. */
module JsonGrammar {
  import opened Bytes
  import opened JsonValue
  import Utf8

  // ---- numbers (section 6) ----

  datatype Exponent = Exponent(letter: Byte, sign: Text, digits: Text)

  datatype NumLit = NumLit(neg: bool, whole: Text, frac: Option<Text>, exp: Option<Exponent>)

  predicate IsNumber(n: NumLit) {
    && n.whole != [] && AllDigits(n.whole)
    && (n.whole[0] == ZERO ==> |n.whole| == 1)
    && (n.frac.Some? ==> n.frac.value != [] && AllDigits(n.frac.value))
    && (n.exp.Some? ==> IsExponent(n.exp.value))
  }

  predicate IsExponent(e: Exponent) {
    && (e.letter == LOWER_E || e.letter == UPPER_E)
    && IsSign(e.sign)
    && e.digits != [] && AllDigits(e.digits)
  }

  predicate IsSign(sign: Text) {
    sign == [] || sign == [PLUS] || sign == [MINUS]
  }

  function SignText(neg: bool): Text {
    if neg then [MINUS] else []
  }

  function FracText(frac: Option<Text>): Text {
    if frac.Some? then [DOT] + frac.value else []
  }

  function ExpText(exp: Option<Exponent>): Text {
    if exp.Some? then [exp.value.letter] + (exp.value.sign + exp.value.digits) else []
  }

  function NumberText(n: NumLit): Text {
    SignText(n.neg) + (n.whole + (FracText(n.frac) + ExpText(n.exp)))
  }

  function Decimal(digits: Text): nat
    requires AllDigits(digits)
  {
    if digits == [] then 0 else Decimal(digits[..|digits| - 1]) * 10 + (digits[|digits| - 1] - ZERO)
  }

  function Signed(neg: bool, n: nat): int {
    if neg then 0 - n else n
  }

  function Power10(e: nat): (r: nat)
    ensures r > 0
  {
    if e == 0 then 1 else 10 * Power10(e - 1)
  }

  function Scale(m: int, e: int): real {
    if e >= 0 then (m * Power10(e)) as real else m as real / Power10(-e) as real
  }

  function ExpValue(exp: Option<Exponent>): int
    requires exp.Some? ==> AllDigits(exp.value.digits)
  {
    if exp.Some? then Signed(exp.value.sign == [MINUS], Decimal(exp.value.digits)) else 0
  }

  /** atoi on the literal. */
  function IntValue(n: NumLit): int
    requires IsNumber(n)
  {
    Signed(n.neg, Decimal(n.whole))
  }

  /** strtod on the literal, here its exact decimal value. */
  function RealValue(n: NumLit): real
    requires IsNumber(n)
  {
    var frac := n.frac.GetOr([]);
    Scale(Signed(n.neg, Decimal(n.whole + frac)), ExpValue(n.exp) - |frac|)
  }

  /** Up to nine characters of integer text are an int, anything else a double. */
  function NumberValue(n: NumLit): Json
    requires IsNumber(n)
  {
    if n.frac.None? && n.exp.None? && |NumberText(n)| <= 9 then Int(IntValue(n)) else Double(RealValue(n))
  }

  // ---- strings (section 7) ----

  datatype StrItem = Plain(b: Byte) | Short(letter: Byte) | Hex(digits: Text)

  predicate IsHexDigit(b: Byte) {
    0x30 <= b <= 0x39 || 0x41 <= b <= 0x46 || 0x61 <= b <= 0x66
  }

  predicate AllHex(s: Text) {
    forall k :: 0 <= k < |s| ==> IsHexDigit(s[k])
  }

  /** The byte a two-character escape stands for. */
  function ShortValue(letter: Byte): Option<Byte> {
    if letter == 0x62 then Some(0x08)
    else if letter == 0x66 then Some(0x0c)
    else if letter == 0x6e then Some(0x0a)
    else if letter == 0x72 then Some(0x0d)
    else if letter == 0x74 then Some(0x09)
    else if letter == QUOTE || letter == BACKSLASH || letter == SLASH then Some(letter)
    else None
  }

  predicate IsItem(c: StrItem) {
    match c
    case Plain(b) => b >= 0x20 && b != QUOTE && b != BACKSLASH
    case Short(letter) => ShortValue(letter).Some?
    case Hex(digits) => |digits| == 4 && AllHex(digits)
  }

  predicate AllItems(items: seq<StrItem>) {
    forall k :: 0 <= k < |items| ==> IsItem(items[k])
  }

  function ItemText(c: StrItem): Text {
    match c
    case Plain(b) => [b]
    case Short(letter) => [BACKSLASH, letter]
    case Hex(digits) => [BACKSLASH, LOWER_U] + digits
  }

  /** The characters of a string and its closing quote. */
  function ItemsText(items: seq<StrItem>): Text {
    if items == [] then [QUOTE] else ItemText(items[0]) + ItemsText(items[1..])
  }

  function HexDigit(b: Byte): (v: nat)
    requires IsHexDigit(b)
    ensures v < 16
  {
    if b <= 0x39 then b - 0x30 else if b <= 0x46 then b - 0x41 + 10 else b - 0x61 + 10
  }

  function HexValue(d: Text): (u: nat)
    requires |d| == 4 && AllHex(d)
    ensures u < 0x1_0000
  {
    ((HexDigit(d[0]) * 16 + HexDigit(d[1])) * 16 + HexDigit(d[2])) * 16 + HexDigit(d[3])
  }

  // Meaning of a string, in two passes: escapes to UTF-16 units, adjacent
  // lead/trail units paired (section 2.2 of RFC 2781); then code points to
  // UTF-8. Bytes that were not escaped pass through.

  datatype Piece = Raw(b: Byte) | Unit(u: int)

  function PieceOf(c: StrItem): Piece
    requires IsItem(c)
  {
    match c
    case Plain(b) => Raw(b)
    case Short(letter) => Raw(ShortValue(letter).value)
    case Hex(digits) => Unit(HexValue(digits))
  }

  function Pieces(items: seq<StrItem>): seq<Piece>
    requires AllItems(items)
  {
    if items == [] then [] else [PieceOf(items[0])] + Pieces(items[1..])
  }

  predicate IsLead(u: int) {
    0xD800 <= u <= 0xDBFF
  }

  predicate IsTrail(u: int) {
    0xDC00 <= u <= 0xDFFF
  }

  function Astral(lead: int, trail: int): (pt: int)
    requires IsLead(lead) && IsTrail(trail)
    ensures 0x1_0000 <= pt < 0x11_0000
  {
    (lead - 0xD800) * 0x400 + (trail - 0xDC00) + 0x1_0000
  }

  function PairUp(ps: seq<Piece>): seq<Piece> {
    if |ps| >= 2 && ps[0].Unit? && ps[1].Unit? && IsLead(ps[0].u) && IsTrail(ps[1].u)
    then [Unit(Astral(ps[0].u, ps[1].u))] + PairUp(ps[2..])
    else if ps == [] then [] else [ps[0]] + PairUp(ps[1..])
  }

  function PieceBytes(p: Piece): Text {
    match p
    case Raw(b) => [b]
    case Unit(u) => if u < 0x20_0000 then Utf8.Encode(u) else []
  }

  function EncodeAll(ps: seq<Piece>): Text {
    if ps == [] then [] else PieceBytes(ps[0]) + EncodeAll(ps[1..])
  }

  function Meaning(ps: seq<Piece>): Text {
    EncodeAll(PairUp(ps))
  }

  function StringValue(items: seq<StrItem>): Text
    requires AllItems(items)
  {
    Meaning(Pieces(items))
  }

  // ---- values (sections 2 to 5) ----

  datatype Tree =
    | NullTree
    | TrueTree
    | FalseTree
    | NumberTree(n: NumLit)
    | StringTree(items: seq<StrItem>)
    | ArrayTree(empty: Text, elems: seq<Elem>)
    | ObjectTree(empty: Text, members: seq<Member>)

  /** A value with the white space around it. */
  datatype Elem = Elem(pre: Text, tree: Tree, post: Text)

  datatype Member = Member(pre: Text, key: seq<StrItem>, mid: Text, elem: Elem)

  const MAX_DEPTH := 200

  /** A derivation whose root has `depth` enclosing containers. */
  predicate Derives(t: Tree, depth: int) {
    depth <= MAX_DEPTH &&
    match t
    case NumberTree(n) => IsNumber(n)
    case StringTree(items) => AllItems(items)
    case ArrayTree(empty, elems) => AllSpaces(empty) && (elems != [] ==> empty == []) && DerivesElems(elems, depth + 1)
    case ObjectTree(empty, members) =>
      AllSpaces(empty) && (members != [] ==> empty == []) && DerivesMembers(members, depth + 1)
    case _ => true
  }

  predicate DerivesElems(elems: seq<Elem>, depth: int)
    decreases elems
  {
    elems != [] ==>
      && AllSpaces(elems[0].pre) && Derives(elems[0].tree, depth) && AllSpaces(elems[0].post)
      && DerivesElems(elems[1..], depth)
  }

  predicate DerivesMembers(members: seq<Member>, depth: int)
    decreases members
  {
    members != [] ==>
      var m := members[0];
      && AllSpaces(m.pre) && AllItems(m.key) && AllSpaces(m.mid)
      && AllSpaces(m.elem.pre) && Derives(m.elem.tree, depth) && AllSpaces(m.elem.post)
      && DerivesMembers(members[1..], depth)
  }

  function TreeText(t: Tree): Text {
    match t
    case NullTree => NULL_TEXT
    case TrueTree => TRUE_TEXT
    case FalseTree => FALSE_TEXT
    case NumberTree(n) => NumberText(n)
    case StringTree(items) => [QUOTE] + ItemsText(items)
    case ArrayTree(empty, elems) =>
      if elems == [] then [LBRACKET] + (empty + [RBRACKET])
      else [LBRACKET] + (ElemText(elems[0]) + ElemsTail(elems[1..]))
    case ObjectTree(empty, members) =>
      if members == [] then [LBRACE] + (empty + [RBRACE])
      else [LBRACE] + (MemberText(members[0]) + MembersTail(members[1..]))
  }

  function ElemText(e: Elem): Text {
    e.pre + (TreeText(e.tree) + e.post)
  }

  /** What follows an element: the closing bracket, or a comma and more. */
  function ElemsTail(elems: seq<Elem>): Text
    decreases elems
  {
    if elems == [] then [RBRACKET] else [COMMA] + (ElemText(elems[0]) + ElemsTail(elems[1..]))
  }

  function KeyText(pre: Text, key: seq<StrItem>, mid: Text): Text {
    pre + ([QUOTE] + (ItemsText(key) + (mid + [COLON])))
  }

  function MemberText(m: Member): Text {
    KeyText(m.pre, m.key, m.mid) + ElemText(m.elem)
  }

  function MembersTail(members: seq<Member>): Text
    decreases members
  {
    if members == [] then [RBRACE] else [COMMA] + (MemberText(members[0]) + MembersTail(members[1..]))
  }

  function TreeValue(t: Tree, depth: int): Json
    requires Derives(t, depth)
  {
    match t
    case NullTree => Null
    case TrueTree => Bool(true)
    case FalseTree => Bool(false)
    case NumberTree(n) => NumberValue(n)
    case StringTree(items) => String(StringValue(items))
    case ArrayTree(_, elems) => Array(ElemsValue(elems, depth + 1))
    case ObjectTree(_, members) => Object(MembersValue([], members, depth + 1))
  }

  function ElemsValue(elems: seq<Elem>, depth: int): seq<Json>
    requires DerivesElems(elems, depth)
    decreases elems
  {
    if elems == [] then [] else [TreeValue(elems[0].tree, depth)] + ElemsValue(elems[1..], depth)
  }

  /** Members in order, a later one replacing an earlier one with its key. */
  function MembersValue(fields: seq<Field>, members: seq<Member>, depth: int): seq<Field>
    requires DerivesMembers(members, depth)
    decreases members
  {
    if members == [] then fields
    else
      var m := members[0];
      MembersValue(Put(fields, StringValue(m.key), TreeValue(m.elem.tree, depth)), members[1..], depth)
  }

  /** A JSON text: a value with white space around it. */
  ghost predicate IsJson(s: Text, e: Elem) {
    AllSpaces(e.pre) && Derives(e.tree, 0) && AllSpaces(e.post) && s == ElemText(e)
  }
}
