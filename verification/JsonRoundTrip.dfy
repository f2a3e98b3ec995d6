/** Parsing what dump wrote. */
module JsonRoundTrip {
  import opened Bytes
  import opened JsonValue
  import opened JsonGrammar
  import opened JsonReader
  import opened JsonLanguage
  import opened JsonWriter
  import Utf8

  // What the parser makes of a printed value: ints of ten or eleven
  // characters come back as doubles of the same number.

  function Settle(v: Json): Json
    requires WellFormed(v)
  {
    match v
    case Int(n) => if |NumberText(IntTree(n))| <= 9 then v else Double(n as real)
    case Array(items) => Array(SettleItems(items))
    case Object(fields) => Object(SettleFields(fields))
    case _ => v
  }

  function SettleItems(items: seq<Json>): seq<Json>
    requires WellFormedItems(items)
  {
    if items == [] then [] else [Settle(items[0])] + SettleItems(items[1..])
  }

  function SettleFields(fields: seq<Field>): seq<Field>
    requires WellFormedFields(fields)
  {
    if fields == [] then [] else [Field(fields[0].key, Settle(fields[0].value))] + SettleFields(fields[1..])
  }

  lemma {:induction false} SettleEqual(v: Json)
    requires WellFormed(v)
    ensures Equal(Settle(v), v)
    decreases v
  {
    match v
    case Array(items) => SettleItemsEqual(items);
    case Object(fields) => SettleFieldsEqual(fields);
    case _ =>
  }

  lemma {:induction false} SettleItemsEqual(items: seq<Json>)
    requires WellFormedItems(items)
    ensures EqualItems(SettleItems(items), items)
    decreases items
  {
    if items != [] {
      SettleEqual(items[0]);
      SettleItemsEqual(items[1..]);
    }
  }

  lemma {:induction false} SettleFieldsEqual(fields: seq<Field>)
    requires WellFormedFields(fields)
    ensures EqualFields(SettleFields(fields), fields)
    decreases fields
  {
    if fields != [] {
      SettleEqual(fields[0].value);
      SettleFieldsEqual(fields[1..]);
    }
  }

  // ---- strings ----

  lemma MeaningStep(p: Piece, rest: seq<Piece>)
    requires p.Unit? ==> !IsLead(p.u)
    ensures Meaning([p] + rest) == PieceBytes(p) + Meaning(rest)
  {
    assert ([p] + rest)[1..] == rest;
  }

  lemma EscapedByte(b: Byte)
    ensures IsItem(EscapeByte(b))
    ensures PieceOf(EscapeByte(b)).Unit? ==> !IsLead(PieceOf(EscapeByte(b)).u)
    ensures PieceBytes(PieceOf(EscapeByte(b))) == [b]
  {
    if b <= 0x1f && EscapeByte(b).Hex? {
      assert HexDigit(LowerHex(b / 16)) == b / 16 && HexDigit(LowerHex(b % 16)) == b % 16;
      assert HexValue(EscapeByte(b).digits) == b / 16 * 16 + b % 16;
    }
  }

  lemma EscapedSeparator(s: Text, i: nat)
    requires IsSeparator(s, i)
    ensures |SeparatorHex(s, i)| == 4 && AllHex(SeparatorHex(s, i)) && i + 3 <= |s|
    ensures HexValue(SeparatorHex(s, i)) == if At(s, i + 2) == 0xa8 then 0x2028 else 0x2029
    ensures Utf8.Encode(HexValue(SeparatorHex(s, i))) == s[i..i + 3]
  {
    assert s[i..i + 3] == [s[i], s[i + 1], s[i + 2]];
  }

  lemma EscapedAt(s: Text, i: nat)
    requires i < |s|
    ensures IsItem(EscapeAt(s, i)) && i + Width(s, i) <= |s|
    ensures PieceOf(EscapeAt(s, i)).Unit? ==> !IsLead(PieceOf(EscapeAt(s, i)).u)
    ensures PieceBytes(PieceOf(EscapeAt(s, i))) == s[i..i + Width(s, i)]
  {
    hide EscapeByte, SeparatorHex, HexValue;
    if IsSeparator(s, i) {
      EscapedSeparator(s, i);
    } else {
      EscapedByte(s[i]);
      assert [s[i]] == s[i..i + 1];
    }
  }

  /** Every escape written means the bytes it stands for. */
  lemma {:induction false} EscapeMeans(s: Text, i: nat)
    requires i <= |s|
    ensures AllItems(Escape(s, i)) && StringValue(Escape(s, i)) == s[i..]
    decreases |s| - i
  {
    hide EscapeAt, Width, PieceOf, PieceBytes, Meaning, IsItem;
    if i < |s| {
      var c, next := EscapeAt(s, i), i + Width(s, i);
      EscapedAt(s, i);
      EscapeMeans(s, next);
      assert Escape(s, i)[1..] == Escape(s, next);
      MeaningStep(PieceOf(c), Pieces(Escape(s, next)));
      assert s[i..] == s[i..next] + s[next..];
    } else {
      NothingMeans();
    }
  }

  lemma NothingMeans()
    ensures Meaning([]) == []
  {
  }

  // ---- numbers ----

  lemma IntTreeMeans(n: int)
    ensures IsNumber(IntTree(n))
    ensures IntValue(IntTree(n)) == n && RealValue(IntTree(n)) == n as real
  {
    var t := IntTree(n);
    assert t.whole + [] == t.whole;
  }

  // ---- values ----

  lemma {:induction false} TreeMeans(v: Json, depth: int)
    requires WellFormed(v) && Nests(v, MAX_DEPTH - depth)
    ensures Derives(TreeOf(v), depth) && TreeValue(TreeOf(v), depth) == Settle(v)
    decreases v
  {
    match v
    case Int(n) => IntTreeMeans(n);
    case String(s) => EscapeMeans(s, 0);
    case Array(items) => ElemsMean(items, [], depth + 1);
    case Object(fields) => MembersMean(fields, [], depth + 1, []);
    case _ =>
  }

  lemma {:induction false} ElemsMean(items: seq<Json>, pre: Text, depth: int)
    requires WellFormedItems(items) && NestsItems(items, MAX_DEPTH - depth) && AllSpaces(pre)
    ensures DerivesElems(ElemsOf(items, pre), depth)
    ensures ElemsValue(ElemsOf(items, pre), depth) == SettleItems(items)
    decreases items
  {
    if items != [] {
      TreeMeans(items[0], depth);
      ElemsMean(items[1..], SPACE, depth);
      var es := ElemsOf(items, pre);
      assert es[1..] == ElemsOf(items[1..], SPACE);
      hide TreeOf, TreeValue, Derives, Settle;
    }
  }

  lemma MembersOfStep(fields: seq<Field>, pre: Text, acc: seq<Field>)
    requires fields != [] && WellFormedFields(fields)
    ensures WellFormed(fields[0].value) && WellFormedFields(fields[1..])
    ensures
      var ms := MembersOf(fields, pre);
      && ms != [] && ms[1..] == MembersOf(fields[1..], SPACE)
      && ms[0] == Member(pre, Escape(fields[0].key, 0), [], Elem(SPACE, TreeOf(fields[0].value), []))
    ensures acc + SettleFields(fields)
         == (acc + [Field(fields[0].key, Settle(fields[0].value))]) + SettleFields(fields[1..])
  {
    hide TreeOf, Settle, Escape;
  }

  lemma NestsStep(fields: seq<Field>, room: int)
    requires fields != [] && NestsFields(fields, room)
    ensures Nests(fields[0].value, room) && NestsFields(fields[1..], room)
  {
  }

  lemma SortedStep(fields: seq<Field>, acc: seq<Field>, v: Json)
    requires fields != [] && SortedFields(fields)
    requires forall i, j :: 0 <= i < |acc| && 0 <= j < |fields| ==> Less(acc[i].key, fields[j].key)
    ensures
      var acc' := acc + [Field(fields[0].key, v)];
      && SortedFields(fields[1..])
      && forall i, j :: 0 <= i < |acc'| && 0 <= j < |fields[1..]| ==> Less(acc'[i].key, fields[1..][j].key)
  {
    hide Less;
  }

  lemma SpacesOk()
    ensures AllSpaces(SPACE) && AllSpaces([])
  {
  }

  /** Keys arrive in order, so each member is added at the end. */
  lemma {:induction false} MembersMean(fields: seq<Field>, pre: Text, depth: int, acc: seq<Field>)
    requires WellFormedFields(fields) && NestsFields(fields, MAX_DEPTH - depth) && AllSpaces(pre)
    requires SortedFields(fields)
    requires forall i, j :: 0 <= i < |acc| && 0 <= j < |fields| ==> Less(acc[i].key, fields[j].key)
    ensures DerivesMembers(MembersOf(fields, pre), depth)
    ensures MembersValue(acc, MembersOf(fields, pre), depth) == acc + SettleFields(fields)
    decreases fields
  {
    if fields == [] {
      assert acc + [] == acc;
    } else {
      hide *;
      var f := fields[0];
      var acc' := acc + [Field(f.key, Settle(f.value))];
      MembersOfStep(fields, pre, acc);
      NestsStep(fields, MAX_DEPTH - depth);
      SortedStep(fields, acc, Settle(f.value));
      SpacesOk();
      EscapeMeans(f.key, 0);
      assert f.key[0..] == f.key;
      TreeMeans(f.value, depth);
      PutLast(acc, f.key, Settle(f.value));
      MembersMean(fields[1..], SPACE, depth, acc');
      MembersDerive(MembersOf(fields, pre), depth);
      MembersValueStep(MembersOf(fields, pre), depth, acc);
    }
  }

  /** Json::parse(dump(v)) gives v back, up to the int or double form of its
      numbers, when nothing in v is inside more than 200 containers. */
  lemma RoundTrip(v: Json)
    requires WellFormed(v) && Nests(v, MAX_DEPTH)
    ensures ReadText(Print(v)) == Some(Settle(v)) && Equal(Settle(v), v)
  {
    TreeMeans(v, 0);
    SettleEqual(v);
    var e := Elem([], TreeOf(v), []);
    assert ElemText(e) == Print(v);
    AcceptsDerivation(Print(v), e);
  }

  // ---- the bound of 200 is exact ----

  /** What is read at some depth is read the same at any smaller depth. */
  lemma {:induction false} ReadsAtLessDepth(s: Text, i: nat, depth: int, less: int)
    requires i <= |s| && less <= depth && ReadValue(s, i, depth).Ok?
    ensures ReadValue(s, i, less) == ReadValue(s, i, depth)
    decreases |s| - i, 1
  {
    hide *;
    ReadValueOk(s, i, depth);
    ReadValueIs(s, i, depth);
    ReadValueIs(s, i, less);
    var ch, j := Token(s, i).value, Token(s, i).next;
    ReadFromIs(s, ch, j, depth);
    ReadFromIs(s, ch, j, less);
    if ch == LBRACKET {
      ReadArrayIs(s, j, depth);
      ReadArrayIs(s, j, less);
      if Token(s, j).Ok? && Token(s, j).value != RBRACKET && ReadElems(s, j, depth + 1, []).Ok? {
        ElemsAtLessDepth(s, j, depth + 1, less + 1, []);
      }
    } else if ch == LBRACE {
      ReadObjectIs(s, j, depth);
      ReadObjectIs(s, j, less);
      if Token(s, j).Ok? && Token(s, j).value != RBRACE && ReadMembers(s, j, depth + 1, []).Ok? {
        MembersAtLessDepth(s, j, depth + 1, less + 1, []);
      }
    }
  }

  lemma ReadValueOk(s: Text, i: nat, depth: int)
    requires i <= |s| && ReadValue(s, i, depth).Ok?
    ensures depth <= MAX_DEPTH && Token(s, i).Ok?
  {
    hide ReadFrom;
  }

  /** Only arrays and objects look at the depth. */
  lemma ReadFromIs(s: Text, ch: Byte, i: nat, depth: int)
    requires 0 < i <= |s|
    ensures ch == LBRACKET ==> ReadFrom(s, ch, i, depth) == JsonReader.ReadArray(s, i, depth)
    ensures ch == LBRACE ==> ReadFrom(s, ch, i, depth) == JsonReader.ReadObject(s, i, depth)
    ensures ch != LBRACKET && ch != LBRACE ==> ReadFrom(s, ch, i, depth) == ReadFrom(s, ch, i, 0)
  {
    hide JsonReader.ReadArray, JsonReader.ReadObject, ReadNumber, ReadString;
  }

  lemma {:induction false} ElemsAtLessDepth(s: Text, i: nat, depth: int, less: int, acc: seq<Json>)
    requires i <= |s| && less <= depth && ReadElems(s, i, depth, acc).Ok?
    ensures ReadElems(s, i, less, acc) == ReadElems(s, i, depth, acc)
    decreases |s| - i, 2
  {
    hide *;
    ReadElemsIs(s, i, depth, acc);
    ReadElemsIs(s, i, less, acc);
    var v := ReadValue(s, i, depth);
    ReadsAtLessDepth(s, i, depth, less);
    var end := Token(s, v.next);
    if end.value != RBRACKET {
      ElemsAtLessDepth(s, end.next, depth, less, acc + [v.value]);
    }
  }

  lemma {:induction false} MembersAtLessDepth(s: Text, i: nat, depth: int, less: int, acc: seq<Field>)
    requires i <= |s| && less <= depth && ReadMembers(s, i, depth, acc).Ok?
    ensures ReadMembers(s, i, less, acc) == ReadMembers(s, i, depth, acc)
    decreases |s| - i, 2
  {
    hide *;
    ReadMembersIs(s, i, depth, acc);
    ReadMembersIs(s, i, less, acc);
    var key := ReadKey(s, i);
    var v := ReadValue(s, key.next, depth);
    ReadsAtLessDepth(s, key.next, depth, less);
    var end := Token(s, v.next);
    if end.value != RBRACE {
      MembersAtLessDepth(s, end.next, depth, less, Put(acc, key.value, v.value));
    }
  }

  /** The value of a derivation nests no deeper than the derivation. */
  lemma {:induction false} ValueNests(t: Tree, depth: int)
    requires Derives(t, depth)
    ensures Nests(TreeValue(t, depth), MAX_DEPTH - depth)
    decreases t
  {
    match t
    case ArrayTree(_, elems) => if elems != [] { ElemsNest(elems, depth + 1); }
    case ObjectTree(_, members) => if members != [] { MembersNest([], members, depth + 1); }
    case _ =>
  }

  lemma {:induction false} ElemsNest(elems: seq<Elem>, depth: int)
    requires DerivesElems(elems, depth)
    ensures NestsItems(ElemsValue(elems, depth), MAX_DEPTH - depth)
    decreases elems
  {
    if elems != [] {
      ValueNests(elems[0].tree, depth);
      ElemsNest(elems[1..], depth);
      assert ElemsValue(elems, depth)[1..] == ElemsValue(elems[1..], depth);
      hide TreeValue, Derives, Nests;
    }
  }

  lemma {:induction false} MembersNest(acc: seq<Field>, members: seq<Member>, depth: int)
    requires DerivesMembers(members, depth) && NestsFields(acc, MAX_DEPTH - depth)
    ensures NestsFields(MembersValue(acc, members, depth), MAX_DEPTH - depth)
    decreases members
  {
    if members != [] {
      hide *;
      MembersValueStep(members, depth, acc);
      var m := members[0];
      ValueNests(m.elem.tree, depth);
      PutNests(acc, StringValue(m.key), TreeValue(m.elem.tree, depth), MAX_DEPTH - depth);
      MembersNest(Put(acc, StringValue(m.key), TreeValue(m.elem.tree, depth)), members[1..], depth);
    }
  }

  lemma PutNests(fields: seq<Field>, key: Text, v: Json, room: int)
    requires NestsFields(fields, room) && Nests(v, room)
    ensures NestsFields(Put(fields, key, v), room)
    decreases fields
  {
    hide Nests, Less;
    if fields != [] {
      PutNests(fields[1..], key, v, room);
      var put := Put(fields, key, v);
      assert put[1..] == fields || put[1..] == fields[1..] || put[1..] == Put(fields[1..], key, v);
    }
  }

  lemma {:induction false} SettleNests(v: Json, room: int)
    requires WellFormed(v)
    ensures Nests(Settle(v), room) <==> Nests(v, room)
    decreases v
  {
    match v
    case Array(items) => SettleItemsNest(items, room - 1);
    case Object(fields) => SettleFieldsNest(fields, room - 1);
    case _ =>
  }

  lemma {:induction false} SettleItemsNest(items: seq<Json>, room: int)
    requires WellFormedItems(items)
    ensures NestsItems(SettleItems(items), room) <==> NestsItems(items, room)
    decreases items
  {
    if items != [] {
      SettleNests(items[0], room);
      SettleItemsNest(items[1..], room);
      assert SettleItems(items)[1..] == SettleItems(items[1..]);
    }
  }

  lemma {:induction false} SettleFieldsNest(fields: seq<Field>, room: int)
    requires WellFormedFields(fields)
    ensures NestsFields(SettleFields(fields), room) <==> NestsFields(fields, room)
    decreases fields
  {
    if fields != [] {
      SettleNests(fields[0].value, room);
      SettleFieldsNest(fields[1..], room);
      assert SettleFields(fields)[1..] == SettleFields(fields[1..]);
    }
  }

  /** Every value nests within some bound. */
  lemma {:induction false} NestsSomewhere(v: Json) returns (room: int)
    ensures room >= 0 && forall r :: r >= room ==> Nests(v, r)
    decreases v
  {
    match v
    case Array(items) =>
      var inner := ItemsNestSomewhere(items);
      room := inner + 1;
    case Object(fields) =>
      var inner := FieldsNestSomewhere(fields);
      room := inner + 1;
    case _ => room := 0;
  }

  lemma {:induction false} ItemsNestSomewhere(items: seq<Json>) returns (room: int)
    ensures room >= 0 && forall r :: r >= room ==> NestsItems(items, r)
    decreases items
  {
    room := 0;
    if items != [] {
      var a := NestsSomewhere(items[0]);
      var b := ItemsNestSomewhere(items[1..]);
      room := a + b;
    }
  }

  lemma {:induction false} FieldsNestSomewhere(fields: seq<Field>) returns (room: int)
    ensures room >= 0 && forall r :: r >= room ==> NestsFields(fields, r)
    decreases fields
  {
    room := 0;
    if fields != [] {
      var a := NestsSomewhere(fields[0].value);
      var b := FieldsNestSomewhere(fields[1..]);
      room := a + b;
    }
  }

  lemma PrintIs(v: Json)
    requires WellFormed(v)
    ensures Print(v) == TreeText(TreeOf(v))
  {
    hide TreeText, TreeOf;
  }

  lemma TextEnds(s: Text)
    ensures NumberStops(s, |s|) && (s != [] && !IsSpace(s[0]) ==> SkipSpaces(s, 0) == 0 && At(s, 0) == s[0])
  {
  }

  /** A printed value is read back from any depth that leaves room for it. */
  lemma PrintReads(v: Json, depth: int)
    requires WellFormed(v) && Nests(v, MAX_DEPTH - depth)
    ensures ReadValue(Print(v), 0, depth) == Ok(Settle(v), |Print(v)|)
  {
    hide *;
    PrintIs(v);
    TextEnds(Print(v));
    TreeMeans(v, depth);
    TreeStarts(TreeOf(v), depth);
    OccursSlice(Print(v), 0, Print(v));
    ReadsTree(Print(v), 0, TreeOf(v), depth);
    TokenIs(Print(v), 0);
    ReadValueIs(Print(v), 0, depth);
  }

  /** dump then parse succeeds exactly on the values whose nodes have at most
      200 enclosing containers, and then gives an equal value. */
  lemma RoundTripExactly(v: Json)
    requires WellFormed(v)
    ensures ReadText(Print(v)).Some? <==> Nests(v, 200)
    ensures Nests(v, 200) ==> ReadText(Print(v)) == Some(Settle(v)) && Equal(Settle(v), v)
  {
    if Nests(v, MAX_DEPTH) {
      RoundTrip(v);
    } else if ReadText(Print(v)).Some? {
      hide *;
      var s := Print(v);
      ReadTextIs(s);
      var room := NestsSomewhere(v);
      var less: int := 0 - room;
      PrintReads(v, less);
      ReadsAtLessDepth(s, 0, 0, less);
      var t := ValueSound(s, 0, 0);
      ValueNests(t, 0);
      SettleNests(v, MAX_DEPTH);
    }
  }
}
