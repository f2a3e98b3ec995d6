/** The reader accepts exactly the grammar, and gives each text the value of
    its derivation. */
module JsonLanguage {
  import opened Bytes
  import opened JsonValue
  import opened JsonGrammar
  import opened JsonReader

  // ---- every derivation is read ----

  lemma SkipsSpaces(s: Text, i: nat, w: Text)
    requires Occurs(s, i, w) && AllSpaces(w) && !IsSpace(At(s, i + |w|))
    ensures SkipSpaces(s, i) == i + |w|
    decreases w
  {
    if w != [] {
      assert w == [w[0]] + w[1..];
      OccursHead(s, i, w[0], w[1..]);
      SkipsSpaces(s, i + 1, w[1..]);
    }
  }

  lemma ReadsToken(s: Text, i: nat, w: Text, b: Byte, rest: Text)
    requires Occurs(s, i, w + ([b] + rest)) && AllSpaces(w) && !IsSpace(b)
    ensures Token(s, i) == Ok(b, i + |w| + 1) && Occurs(s, i + |w| + 1, rest)
  {
    OccursConcat(s, i, w, [b] + rest);
    OccursHead(s, i + |w|, b, rest);
    SkipsSpaces(s, i, w);
  }

  lemma ReadsItem(s: Text, i: nat, c: StrItem)
    requires IsItem(c) && Occurs(s, i, ItemText(c))
    ensures i < |s| && s[i] != QUOTE && ScanItem(s, i) == Ok(c, i + |ItemText(c)|)
  {
    OccursSlice(s, i, ItemText(c));
    if c.Hex? {
      OccursConcat(s, i, [BACKSLASH, LOWER_U], c.digits);
      OccursSlice(s, i + 2, c.digits);
    }
  }

  lemma ReadsItems(s: Text, i: nat, items: seq<StrItem>)
    requires AllItems(items) && Occurs(s, i, ItemsText(items))
    ensures ScanItems(s, i) == Ok(items, i + |ItemsText(items)|)
    decreases items
  {
    if items == [] {
      OccursHead(s, i, QUOTE, []);
    } else {
      OccursConcat(s, i, ItemText(items[0]), ItemsText(items[1..]));
      ReadsItem(s, i, items[0]);
      ReadsItems(s, i + |ItemText(items[0])|, items[1..]);
      assert items == [items[0]] + items[1..];
      hide Occurs, ScanItem, ItemText, IsItem;
    }
  }

  /** No number continues at j. */
  predicate NumberStops(s: Text, j: nat) {
    !IsDigit(At(s, j)) && At(s, j) !in {DOT, LOWER_E, UPPER_E}
  }

  lemma ReadsDigits(s: Text, i: nat, digits: Text)
    requires Occurs(s, i, digits) && AllDigits(digits) && !IsDigit(At(s, i + |digits|))
    ensures DigitsEnd(s, i) == i + |digits| <= |s| && s[i..i + |digits|] == digits
    decreases digits
  {
    OccursSlice(s, i, digits);
    if digits != [] {
      assert digits == [digits[0]] + digits[1..];
      OccursHead(s, i, digits[0], digits[1..]);
      ReadsDigits(s, i + 1, digits[1..]);
    }
  }

  lemma ReadsWhole(s: Text, i: nat, whole: Text)
    requires whole != [] && AllDigits(whole) && (whole[0] == ZERO ==> |whole| == 1)
    requires Occurs(s, i, whole) && !IsDigit(At(s, i + |whole|))
    ensures At(s, i) == whole[0] && ScanWhole(s, i) == Ok(whole, i + |whole|)
  {
    OccursSlice(s, i, whole);
    if whole[0] == ZERO {
      assert whole == [ZERO];
    } else {
      ReadsDigits(s, i + 1, whole[1..]);
    }
  }

  lemma ReadsFrac(s: Text, i: nat, frac: Option<Text>)
    requires frac.Some? ==> frac.value != [] && AllDigits(frac.value)
    requires Occurs(s, i, FracText(frac)) && !IsDigit(At(s, i + |FracText(frac)|))
    requires At(s, i + |FracText(frac)|) != DOT
    ensures ScanFrac(s, i) == Ok(frac, i + |FracText(frac)|)
    ensures frac.Some? ==> At(s, i) == DOT
  {
    if frac.Some? {
      OccursHead(s, i, DOT, frac.value);
      ReadsDigits(s, i + 1, frac.value);
    }
  }

  lemma ReadsSign(s: Text, i: nat, sign: Text)
    requires IsSign(sign) && Occurs(s, i, sign) && IsDigit(At(s, i + |sign|))
    ensures ScanSign(s, i) == sign
  {
    if sign != [] {
      assert At(s, i) == sign[0];
    }
  }

  lemma DigitsStart(s: Text, k: nat, digits: Text)
    requires digits != [] && AllDigits(digits)
    ensures Occurs(s, k, digits) ==> IsDigit(At(s, k))
  {
  }

  lemma ReadsExp(s: Text, i: nat, e: Exponent)
    requires IsExponent(e)
    requires Occurs(s, i, ExpText(Some(e))) && !IsDigit(At(s, i + |ExpText(Some(e))|))
    ensures ScanExp(s, i) == Ok(Some(e), i + |ExpText(Some(e))|)
  {
    hide DigitsEnd, ScanSign, Occurs, AllDigits;
    DigitsStart(s, i + 1 + |e.sign|, e.digits);
    OccursHead(s, i, e.letter, e.sign + e.digits);
    OccursConcat(s, i + 1, e.sign, e.digits);
    var k := i + 1 + |e.sign|;
    ReadsSign(s, i + 1, e.sign);
    ReadsDigits(s, k, e.digits);
  }

  lemma ReadsOptExp(s: Text, i: nat, n: NumLit)
    requires IsNumber(n) && Occurs(s, i, ExpText(n.exp)) && NumberStops(s, i + |ExpText(n.exp)|)
    ensures ScanExp(s, i) == Ok(n.exp, i + |ExpText(n.exp)|)
    ensures !IsDigit(At(s, i)) && At(s, i) != DOT
  {
    if n.exp.Some? {
      ReadsExp(s, i, n.exp.value);
    }
  }

  lemma ReadsNumberParts(s: Text, i: nat, j: nat, k: nat, n: NumLit)
    requires IsNumber(n) && j == i + |n.whole| && k == j + |FracText(n.frac)|
    requires Occurs(s, i, n.whole) && Occurs(s, j, FracText(n.frac)) && Occurs(s, k, ExpText(n.exp))
    requires NumberStops(s, k + |ExpText(n.exp)|)
    ensures At(s, i) == n.whole[0] && ScanWhole(s, i) == Ok(n.whole, j)
    ensures k <= |s| && ScanFrac(s, j) == Ok(n.frac, k) && ScanExp(s, k) == Ok(n.exp, k + |ExpText(n.exp)|)
  {
    OccursFits(s, k, ExpText(n.exp));
    ReadsOptExp(s, k, n);
    ReadsFrac(s, j, n.frac);
    ReadsWhole(s, i, n.whole);
  }

  lemma NumberParts(s: Text, i: nat, n: NumLit)
    ensures Occurs(s, i, NumberText(n)) <==>
              var start := i + |SignText(n.neg)|;
              && Occurs(s, i, SignText(n.neg))
              && Occurs(s, start, n.whole)
              && Occurs(s, start + |n.whole|, FracText(n.frac))
              && Occurs(s, start + |n.whole| + |FracText(n.frac)|, ExpText(n.exp))
    ensures |NumberText(n)| == |SignText(n.neg)| + |n.whole| + |FracText(n.frac)| + |ExpText(n.exp)|
  {
    hide Occurs, FracText, ExpText;
    var start := i + |SignText(n.neg)|;
    OccursConcat(s, start + |n.whole|, FracText(n.frac), ExpText(n.exp));
    OccursConcat(s, start, n.whole, FracText(n.frac) + ExpText(n.exp));
    OccursConcat(s, i, SignText(n.neg), n.whole + (FracText(n.frac) + ExpText(n.exp)));
  }

  lemma ScanNumberIs(s: Text, i: nat, n: NumLit)
    requires IsNumber(n) && Occurs(s, i, SignText(n.neg))
    requires
      var start := i + |SignText(n.neg)|;
      var j := start + |n.whole|;
      var k := j + |FracText(n.frac)|;
      && k <= |s| && At(s, start) == n.whole[0] && ScanWhole(s, start) == Ok(n.whole, j)
      && ScanFrac(s, j) == Ok(n.frac, k) && ScanExp(s, k) == Ok(n.exp, k + |ExpText(n.exp)|)
    ensures ScanNumber(s, i) == Ok(n, i + |NumberText(n)|)
  {
    hide ScanWhole, ScanFrac, ScanExp, FracText, ExpText;
  }

  lemma ReadsNumber(s: Text, i: nat, n: NumLit)
    requires IsNumber(n) && Occurs(s, i, NumberText(n)) && NumberStops(s, i + |NumberText(n)|)
    ensures ScanNumber(s, i) == Ok(n, i + |NumberText(n)|)
  {
    hide *;
    var start := i + |SignText(n.neg)|;
    var j := start + |n.whole|;
    NumberParts(s, i, n);
    ReadsNumberParts(s, start, j, j + |FracText(n.frac)|, n);
    ScanNumberIs(s, i, n);
  }

  lemma TreeStarts(t: Tree, depth: int)
    requires Derives(t, depth)
    ensures TreeText(t) != [] && !IsSpace(TreeText(t)[0]) && TreeText(t)[0] != RBRACKET
    ensures depth <= MAX_DEPTH
  {
    if t.NumberTree? {
      var n := t.n;
      assert NumberText(n)[0] == if n.neg then MINUS else n.whole[0];
    }
  }

  lemma NumberStarts(n: NumLit)
    requires IsNumber(n)
    ensures NumberText(n) != [] && (NumberText(n)[0] == MINUS || IsDigit(NumberText(n)[0]))
  {
    assert NumberText(n)[0] == if n.neg then MINUS else n.whole[0];
  }

  /** A tree at i, its first byte about to be consumed. */
  lemma ReadsTree(s: Text, i: nat, t: Tree, depth: int)
    requires Derives(t, depth) && Occurs(s, i, TreeText(t))
    requires t.NumberTree? ==> NumberStops(s, i + |TreeText(t)|)
    ensures i < |s| && s[i] == TreeText(t)[0]
    ensures ReadFrom(s, s[i], i + 1, depth) == Ok(TreeValue(t, depth), i + |TreeText(t)|)
    decreases t, 0
  {
    hide ScanItems, ScanNumber, NumberValue, StringValue, ItemsText, NumberText, IsNumber, AllItems,
      JsonReader.ReadArray, JsonReader.ReadObject, ElemsValue, MembersValue, ElemText, MemberText, ElemsTail,
      MembersTail;
    TreeStarts(t, depth);
    match t
    case NumberTree(n) =>
      ReadsNumber(s, i, n);
      NumberStarts(n);
    case StringTree(items) =>
      OccursHead(s, i, QUOTE, ItemsText(items));
      ReadsItems(s, i + 1, items);
    case ArrayTree(empty, elems) => ReadsArray(s, i, empty, elems, depth);
    case ObjectTree(empty, members) => ReadsObject(s, i, empty, members, depth);
    case _ =>
      OccursFits(s, i, TreeText(t));
  }

  lemma Brackets()
    ensures !IsSpace(RBRACKET) && !IsSpace(RBRACE) && QUOTE != RBRACE
  {
  }

  lemma ArrayTextIs(empty: Text, elems: seq<Elem>)
    ensures TreeText(ArrayTree(empty, elems))
         == if elems == [] then [LBRACKET] + (empty + ([RBRACKET] + []))
            else [LBRACKET] + (ElemText(elems[0]) + ElemsTail(elems[1..]))
  {
    hide ElemText, ElemsTail;
    assert [RBRACKET] + [] == [RBRACKET];
  }

  lemma NoElems(depth: int)
    ensures DerivesElems([], depth) && ElemsValue([], depth) == []
  {
  }

  lemma ObjectTextIs(empty: Text, members: seq<Member>)
    ensures TreeText(ObjectTree(empty, members))
         == if members == [] then [LBRACE] + (empty + ([RBRACE] + []))
            else [LBRACE] + (MemberText(members[0]) + MembersTail(members[1..]))
  {
    hide MemberText, MembersTail;
    assert [RBRACE] + [] == [RBRACE];
  }

  lemma NoMembers(depth: int)
    ensures DerivesMembers([], depth) && MembersValue([], [], depth) == []
  {
  }

  lemma ReadsArray(s: Text, i: nat, empty: Text, elems: seq<Elem>, depth: int)
    requires AllSpaces(empty) && (elems != [] ==> empty == []) && DerivesElems(elems, depth + 1)
    requires Occurs(s, i, TreeText(ArrayTree(empty, elems)))
    ensures JsonReader.ReadArray(s, i + 1, depth)
         == Ok(Array(ElemsValue(elems, depth + 1)), i + |TreeText(ArrayTree(empty, elems))|)
    decreases elems, 3
  {
    hide *;
    ArrayTextIs(empty, elems);
    Brackets();
    if elems == [] {
      OccursHead(s, i, LBRACKET, empty + ([RBRACKET] + []));
      ReadsToken(s, i + 1, empty, RBRACKET, []);
      ReadArrayIs(s, i + 1, depth);
      NoElems(depth + 1);
    } else {
      OccursHead(s, i, LBRACKET, ElemText(elems[0]) + ElemsTail(elems[1..]));
      ReadsElems(s, i + 1, elems, depth + 1, []);
      assert [] + ElemsValue(elems, depth + 1) == ElemsValue(elems, depth + 1);
      ReadArrayIs(s, i + 1, depth);
    }
  }

  lemma ReadsObject(s: Text, i: nat, empty: Text, members: seq<Member>, depth: int)
    requires AllSpaces(empty) && (members != [] ==> empty == []) && DerivesMembers(members, depth + 1)
    requires Occurs(s, i, TreeText(ObjectTree(empty, members)))
    ensures JsonReader.ReadObject(s, i + 1, depth)
         == Ok(Object(MembersValue([], members, depth + 1)), i + |TreeText(ObjectTree(empty, members))|)
    decreases members, 3
  {
    hide *;
    ObjectTextIs(empty, members);
    Brackets();
    if members == [] {
      OccursHead(s, i, LBRACE, empty + ([RBRACE] + []));
      ReadsToken(s, i + 1, empty, RBRACE, []);
      ReadObjectIs(s, i + 1, depth);
      NoMembers(depth + 1);
    } else {
      OccursHead(s, i, LBRACE, MemberText(members[0]) + MembersTail(members[1..]));
      ReadsMembers(s, i + 1, members, depth + 1, []);
      ReadObjectIs(s, i + 1, depth);
    }
  }

  /** An element's text between white space: where it starts, that what
      follows stops a number, and the byte that ends it. */
  lemma AroundElem(s: Text, i: nat, pre: Text, text: Text, post: Text, after: Byte, rest: Text)
    requires AllSpaces(pre) && text != [] && !IsSpace(text[0]) && AllSpaces(post)
    requires after == COMMA || after == RBRACKET || after == RBRACE
    requires Occurs(s, i, (pre + (text + post)) + ([after] + rest))
    ensures Token(s, i) == Ok(text[0], i + |pre| + 1) && Occurs(s, i + |pre|, text)
    ensures
      var j := i + |pre| + |text|;
      && j <= |s| && NumberStops(s, j) && Token(s, j) == Ok(after, j + |post| + 1) && Occurs(s, j + |post| + 1, rest)
  {
    var tail := post + ([after] + rest);
    var j := i + |pre| + |text|;
    assert (pre + (text + post)) + ([after] + rest) == pre + (text + tail);
    OccursConcat(s, i, pre, text + tail);
    OccursConcat(s, i + |pre|, text, tail);
    ReadsToken(s, j, post, after, rest);
    assert tail[0] == if post == [] then after else post[0];
    assert text + tail == [text[0]] + (text[1..] + tail);
    ReadsToken(s, i, pre, text[0], text[1..] + tail);
  }

  lemma ElemTextIs(e: Elem)
    ensures ElemText(e) == e.pre + (TreeText(e.tree) + e.post)
  {
    hide TreeText;
  }

  /** One element, up to and with the byte that ends it. */
  lemma ReadsElem(s: Text, i: nat, e: Elem, after: Byte, rest: Text, depth: int)
    requires AllSpaces(e.pre) && Derives(e.tree, depth) && AllSpaces(e.post)
    requires after == COMMA || after == RBRACKET || after == RBRACE
    requires Occurs(s, i, ElemText(e) + ([after] + rest))
    ensures Token(s, i).Ok? && Token(s, i).value != RBRACKET
    ensures ReadValue(s, i, depth) == Ok(TreeValue(e.tree, depth), i + |e.pre| + |TreeText(e.tree)|)
    ensures Token(s, i + |e.pre| + |TreeText(e.tree)|) == Ok(after, i + |ElemText(e)| + 1)
    ensures Occurs(s, i + |ElemText(e)| + 1, rest)
    decreases e, 1
  {
    hide *;
    TreeStarts(e.tree, depth);
    ElemTextIs(e);
    AroundElem(s, i, e.pre, TreeText(e.tree), e.post, after, rest);
    ReadsTree(s, i + |e.pre|, e.tree, depth);
    ReadValueIs(s, i, depth);
  }

  lemma ElemsTailSteps(elems: seq<Elem>)
    ensures elems == [] ==> ElemsTail(elems) == [RBRACKET] + []
    ensures elems != [] ==> ElemsTail(elems) == [COMMA] + (ElemText(elems[0]) + ElemsTail(elems[1..]))
  {
    hide ElemText;
  }

  lemma ElemsValueStep(elems: seq<Elem>, depth: int, acc: seq<Json>)
    requires elems != [] && DerivesElems(elems, depth)
    ensures Derives(elems[0].tree, depth) && DerivesElems(elems[1..], depth)
    ensures AllSpaces(elems[0].pre) && AllSpaces(elems[0].post)
    ensures acc + ElemsValue(elems, depth)
         == (acc + [TreeValue(elems[0].tree, depth)]) + ElemsValue(elems[1..], depth)
    ensures elems[1..] == [] ==> acc + ElemsValue(elems, depth) == acc + [TreeValue(elems[0].tree, depth)]
  {
    hide TreeValue, Derives;
  }

  lemma ReadsElems(s: Text, i: nat, elems: seq<Elem>, depth: int, acc: seq<Json>)
    requires elems != [] && DerivesElems(elems, depth)
    requires Occurs(s, i, ElemText(elems[0]) + ElemsTail(elems[1..]))
    ensures Token(s, i).Ok? && Token(s, i).value != RBRACKET
    ensures ReadElems(s, i, depth, acc)
         == Ok(acc + ElemsValue(elems, depth), i + |ElemText(elems[0])| + |ElemsTail(elems[1..])|)
    decreases elems, 2
  {
    hide *;
    var tail := elems[1..];
    ElemsValueStep(elems, depth, acc);
    var v := TreeValue(elems[0].tree, depth);
    var j := i + |elems[0].pre| + |TreeText(elems[0].tree)|;
    ElemsTailSteps(tail);
    if tail == [] {
      ReadsElem(s, i, elems[0], RBRACKET, [], depth);
      ReadElemsStep(s, i, depth, acc, v, j);
    } else {
      ReadsElem(s, i, elems[0], COMMA, ElemText(tail[0]) + ElemsTail(tail[1..]), depth);
      ReadElemsStep(s, i, depth, acc, v, j);
      ReadsElems(s, i + |ElemText(elems[0])| + 1, tail, depth, acc + [v]);
    }
  }

  /** A key with its colon. */
  lemma ReadsKey(s: Text, i: nat, m: Member)
    requires AllSpaces(m.pre) && AllItems(m.key) && AllSpaces(m.mid)
    requires Occurs(s, i, KeyText(m.pre, m.key, m.mid))
    ensures Token(s, i).Ok? && Token(s, i).value == QUOTE
    ensures ReadKey(s, i) == Ok(StringValue(m.key), i + |KeyText(m.pre, m.key, m.mid)|)
  {
    hide Occurs, SkipSpaces, Token, ItemsText, ScanItems;
    var k := i + |m.pre| + 1;
    ReadsToken(s, i, m.pre, QUOTE, ItemsText(m.key) + (m.mid + [COLON]));
    OccursConcat(s, k, ItemsText(m.key), m.mid + [COLON]);
    ReadsItems(s, k, m.key);
    assert [COLON] + [] == [COLON];
    ReadsToken(s, k + |ItemsText(m.key)|, m.mid, COLON, []);
  }

  lemma MemberSplit(s: Text, i: nat, m: Member, rest: Text)
    requires Occurs(s, i, MemberText(m) + rest)
    ensures Occurs(s, i, KeyText(m.pre, m.key, m.mid))
    ensures Occurs(s, i + |KeyText(m.pre, m.key, m.mid)|, ElemText(m.elem) + rest)
    ensures |MemberText(m)| == |KeyText(m.pre, m.key, m.mid)| + |ElemText(m.elem)|
  {
    hide Occurs, KeyText, ElemText;
    assert MemberText(m) + rest == KeyText(m.pre, m.key, m.mid) + (ElemText(m.elem) + rest);
    OccursConcat(s, i, KeyText(m.pre, m.key, m.mid), ElemText(m.elem) + rest);
  }

  /** One member, up to and with the byte that ends it. */
  lemma ReadsMember(s: Text, i: nat, m: Member, after: Byte, rest: Text, depth: int)
    requires AllSpaces(m.pre) && AllItems(m.key) && AllSpaces(m.mid)
    requires AllSpaces(m.elem.pre) && Derives(m.elem.tree, depth) && AllSpaces(m.elem.post)
    requires after == COMMA || after == RBRACKET || after == RBRACE
    requires Occurs(s, i, MemberText(m) + ([after] + rest))
    ensures Token(s, i).Ok? && Token(s, i).value == QUOTE
    ensures ReadKey(s, i).Ok? && ReadKey(s, i).value == StringValue(m.key)
    ensures
      var r := ReadValue(s, ReadKey(s, i).next, depth);
      && r.Ok? && r.value == TreeValue(m.elem.tree, depth)
      && Token(s, r.next) == Ok(after, i + |MemberText(m)| + 1)
    ensures Occurs(s, i + |MemberText(m)| + 1, rest)
    decreases m, 1
  {
    hide *;
    MemberSplit(s, i, m, [after] + rest);
    ReadsKey(s, i, m);
    ReadsElem(s, i + |KeyText(m.pre, m.key, m.mid)|, m.elem, after, rest, depth);
  }

  lemma MembersTailSteps(members: seq<Member>)
    ensures members == [] ==> MembersTail(members) == [RBRACE] + []
    ensures members != [] ==> MembersTail(members) == [COMMA] + (MemberText(members[0]) + MembersTail(members[1..]))
  {
    hide MemberText;
  }

  lemma MembersValueStep(members: seq<Member>, depth: int, acc: seq<Field>)
    requires members != [] && DerivesMembers(members, depth)
    ensures
      var m := members[0];
      && AllSpaces(m.pre) && AllItems(m.key) && AllSpaces(m.mid)
      && AllSpaces(m.elem.pre) && Derives(m.elem.tree, depth) && AllSpaces(m.elem.post)
      && DerivesMembers(members[1..], depth)
      && MembersValue(acc, members, depth)
      == MembersValue(Put(acc, StringValue(m.key), TreeValue(m.elem.tree, depth)), members[1..], depth)
    ensures members[1..] == [] ==> forall acc' :: MembersValue(acc', members[1..], depth) == acc'
  {
    hide TreeValue, Derives, StringValue, Put;
  }

  lemma ReadsMembers(s: Text, i: nat, members: seq<Member>, depth: int, acc: seq<Field>)
    requires members != [] && DerivesMembers(members, depth)
    requires Occurs(s, i, MemberText(members[0]) + MembersTail(members[1..]))
    ensures Token(s, i).Ok? && Token(s, i).value == QUOTE
    ensures ReadMembers(s, i, depth, acc)
         == Ok(MembersValue(acc, members, depth), i + |MemberText(members[0])| + |MembersTail(members[1..])|)
    decreases members, 2
  {
    hide *;
    var m, tail := members[0], members[1..];
    MembersValueStep(members, depth, acc);
    var acc' := Put(acc, StringValue(m.key), TreeValue(m.elem.tree, depth));
    MembersTailSteps(tail);
    var after := if tail == [] then RBRACE else COMMA;
    var rest := if tail == [] then [] else MemberText(tail[0]) + MembersTail(tail[1..]);
    ReadsMember(s, i, m, after, rest, depth);
    var h := ReadKey(s, i).next;
    ReadMembersStep(s, i, depth, acc, StringValue(m.key), h, TreeValue(m.elem.tree, depth),
        ReadValue(s, h, depth).next);
    if tail != [] {
      ReadsMembers(s, i + |MemberText(m)| + 1, tail, depth, acc');
    }
  }

  // ---- everything read has a derivation ----

  function Spaces(s: Text, i: nat): (w: Text)
    requires i <= |s|
    ensures |w| == SkipSpaces(s, i) - i
  {
    s[i..SkipSpaces(s, i)]
  }

  lemma SpacesSound(s: Text, i: nat)
    requires i <= |s|
    ensures AllSpaces(Spaces(s, i)) && Occurs(s, i, Spaces(s, i))
    decreases |s| - i
  {
    OccursSlice(s, i, Spaces(s, i));
    if IsSpace(At(s, i)) {
      SpacesSound(s, i + 1);
      assert Spaces(s, i) == [s[i]] + Spaces(s, i + 1);
    }
  }

  lemma TokenSound(s: Text, i: nat)
    requires i <= |s| && Token(s, i).Ok?
    ensures AllSpaces(Spaces(s, i)) && Token(s, i).next == i + |Spaces(s, i)| + 1
    ensures Occurs(s, i, Spaces(s, i) + [Token(s, i).value])
  {
    SpacesSound(s, i);
    OccursConcat(s, i, Spaces(s, i), [Token(s, i).value]);
  }

  lemma ItemsSound(s: Text, i: nat)
    requires i <= |s| && ScanItems(s, i).Ok?
    ensures Occurs(s, i, ItemsText(ScanItems(s, i).value))
    ensures ScanItems(s, i).next == i + |ItemsText(ScanItems(s, i).value)|
    decreases |s| - i
  {
    var items := ScanItems(s, i).value;
    if s[i] != QUOTE {
      var c, j := items[0], ScanItem(s, i).next;
      OccursSlice(s, i, ItemText(c));
      ItemsSound(s, j);
      assert items[1..] == ScanItems(s, j).value;
      OccursConcat(s, i, ItemText(c), ItemsText(items[1..]));
    }
  }

  lemma NumberSound(s: Text, i: nat)
    requires i <= |s| && ScanNumber(s, i).Ok?
    ensures Occurs(s, i, NumberText(ScanNumber(s, i).value))
    ensures ScanNumber(s, i).next == i + |NumberText(ScanNumber(s, i).value)|
  {
    var n := ScanNumber(s, i).value;
    var start := i + |SignText(n.neg)|;
    OccursSlice(s, start, n.whole);
    NumberParts(s, i, n);
  }

  lemma ValueSound(s: Text, i: nat, depth: int) returns (t: Tree)
    requires i <= |s| && ReadValue(s, i, depth).Ok?
    ensures AllSpaces(Spaces(s, i)) && Derives(t, depth)
    ensures Occurs(s, i, Spaces(s, i) + TreeText(t))
    ensures ReadValue(s, i, depth) == Ok(TreeValue(t, depth), i + |Spaces(s, i)| + |TreeText(t)|)
    decreases |s| - i, 4
  {
    TokenSound(s, i);
    var j := Token(s, i).next;
    t := TreeSound(s, j, depth);
    OccursConcat(s, i, Spaces(s, i), [s[j - 1]]);
    OccursConcat(s, i, Spaces(s, i), TreeText(t));
  }

  /** The tree of a value whose first byte has been consumed. */
  lemma TreeSound(s: Text, i: nat, depth: int) returns (t: Tree)
    requires 0 < i <= |s| && depth <= MAX_DEPTH && ReadFrom(s, s[i - 1], i, depth).Ok?
    ensures Derives(t, depth) && Occurs(s, i - 1, TreeText(t))
    ensures ReadFrom(s, s[i - 1], i, depth) == Ok(TreeValue(t, depth), i - 1 + |TreeText(t)|)
    decreases |s| - i, 8
  {
    var ch := s[i - 1];
    if ch == MINUS || IsDigit(ch) {
      NumberSound(s, i - 1);
      t := NumberTree(ScanNumber(s, i - 1).value);
    } else if ch == QUOTE {
      ItemsSound(s, i);
      t := StringTree(ScanItems(s, i).value);
      OccursHead(s, i - 1, QUOTE, ItemsText(t.items));
    } else if ch == LBRACKET {
      t := ArraySound(s, i, depth);
    } else if ch == LBRACE {
      t := ObjectSound(s, i, depth);
    } else {
      t := if ch == TRUE_TEXT[0] then TrueTree else if ch == FALSE_TEXT[0] then FalseTree else NullTree;
    }
  }

  lemma ArraySound(s: Text, i: nat, depth: int) returns (t: Tree)
    requires 0 < i <= |s| && depth <= MAX_DEPTH && s[i - 1] == LBRACKET && JsonReader.ReadArray(s, i, depth).Ok?
    ensures Derives(t, depth) && t.ArrayTree? && Occurs(s, i - 1, TreeText(t))
    ensures JsonReader.ReadArray(s, i, depth) == Ok(TreeValue(t, depth), i - 1 + |TreeText(t)|)
    decreases |s| - i, 7
  {
    if Token(s, i).value == RBRACKET {
      TokenSound(s, i);
      t := ArrayTree(Spaces(s, i), []);
      OccursHead(s, i - 1, LBRACKET, Spaces(s, i) + [RBRACKET]);
    } else {
      var elems := ElemsSound(s, i, depth + 1, []);
      t := ArrayTree([], elems);
      OccursHead(s, i - 1, LBRACKET, ElemText(elems[0]) + ElemsTail(elems[1..]));
      assert [] + ElemsValue(elems, depth + 1) == ElemsValue(elems, depth + 1);
      hide ElemText, ElemsTail, ElemsValue;
    }
  }

  /** One element and the byte that ends it. */
  lemma ElemSound(s: Text, i: nat, depth: int) returns (e: Elem)
    requires i <= |s| && ReadValue(s, i, depth).Ok? && Token(s, ReadValue(s, i, depth).next).Ok?
    ensures AllSpaces(e.pre) && Derives(e.tree, depth) && AllSpaces(e.post)
    ensures ReadValue(s, i, depth).value == TreeValue(e.tree, depth)
    ensures
      var end := Token(s, ReadValue(s, i, depth).next);
      Occurs(s, i, ElemText(e)) && Occurs(s, i + |ElemText(e)|, [end.value]) && end.next == i + |ElemText(e)| + 1
    decreases |s| - i, 5
  {
    var j := ReadValue(s, i, depth).next;
    var t := ValueSound(s, i, depth);
    TokenSound(s, j);
    e := Elem(Spaces(s, i), t, Spaces(s, j));
    OccursConcat(s, j, e.post, [Token(s, j).value]);
    OccursConcat(s, i, e.pre + TreeText(t), e.post);
    assert ElemText(e) == (e.pre + TreeText(t)) + e.post;
    hide ReadValue, TreeText, TreeValue, Derives, Occurs;
  }

  lemma ElemsDerive(elems: seq<Elem>, depth: int)
    requires elems != [] && AllSpaces(elems[0].pre) && Derives(elems[0].tree, depth) && AllSpaces(elems[0].post)
    requires elems[1..] == [] || DerivesElems(elems[1..], depth)
    ensures DerivesElems(elems, depth)
  {
    hide Derives;
  }

  lemma ElemsSound(s: Text, i: nat, depth: int, acc: seq<Json>) returns (elems: seq<Elem>)
    requires i <= |s| && ReadElems(s, i, depth, acc).Ok?
    ensures elems != [] && DerivesElems(elems, depth)
    ensures Occurs(s, i, ElemText(elems[0]) + ElemsTail(elems[1..]))
    ensures ReadElems(s, i, depth, acc)
         == Ok(acc + ElemsValue(elems, depth), i + |ElemText(elems[0])| + |ElemsTail(elems[1..])|)
    decreases |s| - i, 6
  {
    hide *;
    var v := ReadValue(s, i, depth);
    ReadElemsOk(s, i, depth, acc);
    var end := Token(s, v.next);
    var e := ElemSound(s, i, depth);
    ReadElemsStep(s, i, depth, acc, v.value, v.next);
    var tail: seq<Elem> := [];
    if end.value != RBRACKET {
      tail := ElemsSound(s, end.next, depth, acc + [v.value]);
    }
    elems := [e] + tail;
    assert elems[1..] == tail;
    ElemsDerive(elems, depth);
    ElemsValueStep(elems, depth, acc);
    ElemsTailSteps(tail);
    if tail == [] {
      assert [RBRACKET] + [] == [RBRACKET];
    } else {
      OccursHead(s, end.next - 1, COMMA, ElemText(tail[0]) + ElemsTail(tail[1..]));
      OccursHead(s, end.next - 1, COMMA, []);
      assert [COMMA] + [] == [COMMA];
    }
    OccursConcat(s, i, ElemText(e), ElemsTail(tail));
  }

  lemma ObjectSound(s: Text, i: nat, depth: int) returns (t: Tree)
    requires 0 < i <= |s| && depth <= MAX_DEPTH && s[i - 1] == LBRACE && JsonReader.ReadObject(s, i, depth).Ok?
    ensures Derives(t, depth) && t.ObjectTree? && Occurs(s, i - 1, TreeText(t))
    ensures JsonReader.ReadObject(s, i, depth) == Ok(TreeValue(t, depth), i - 1 + |TreeText(t)|)
    decreases |s| - i, 7
  {
    if Token(s, i).value == RBRACE {
      TokenSound(s, i);
      t := ObjectTree(Spaces(s, i), []);
      OccursHead(s, i - 1, LBRACE, Spaces(s, i) + [RBRACE]);
    } else {
      var members := MembersSound(s, i, depth + 1, []);
      t := ObjectTree([], members);
      OccursHead(s, i - 1, LBRACE, MemberText(members[0]) + MembersTail(members[1..]));
      hide MemberText, MembersTail, MembersValue;
    }
  }

  lemma KeySound(s: Text, i: nat) returns (pre: Text, key: seq<StrItem>, mid: Text)
    requires i <= |s| && ReadKey(s, i).Ok?
    ensures AllSpaces(pre) && AllItems(key) && AllSpaces(mid)
    ensures ReadKey(s, i) == Ok(StringValue(key), i + |KeyText(pre, key, mid)|)
    ensures Occurs(s, i, KeyText(pre, key, mid))
  {
    var j := Token(s, i).next;
    var items := ScanItems(s, j);
    pre, key, mid := Spaces(s, i), items.value, Spaces(s, items.next);
    TokenSound(s, i);
    ItemsSound(s, j);
    TokenSound(s, items.next);
    OccursConcat(s, i, pre, [QUOTE]);
    OccursConcat(s, j, ItemsText(key), mid + [COLON]);
    OccursHead(s, j - 1, QUOTE, ItemsText(key) + (mid + [COLON]));
    OccursConcat(s, i, pre, [QUOTE] + (ItemsText(key) + (mid + [COLON])));
    hide Occurs, ItemsText;
  }

  lemma MemberTextIs(m: Member)
    ensures MemberText(m) == KeyText(m.pre, m.key, m.mid) + ElemText(m.elem)
  {
    hide KeyText, ElemText;
  }

  lemma MemberSound(s: Text, i: nat, depth: int) returns (m: Member)
    requires i <= |s| && ReadKey(s, i).Ok? && ReadValue(s, ReadKey(s, i).next, depth).Ok?
    requires Token(s, ReadValue(s, ReadKey(s, i).next, depth).next).Ok?
    ensures AllSpaces(m.pre) && AllItems(m.key) && AllSpaces(m.mid)
    ensures AllSpaces(m.elem.pre) && Derives(m.elem.tree, depth) && AllSpaces(m.elem.post)
    ensures ReadKey(s, i).value == StringValue(m.key)
    ensures ReadValue(s, ReadKey(s, i).next, depth).value == TreeValue(m.elem.tree, depth)
    ensures
      var end := Token(s, ReadValue(s, ReadKey(s, i).next, depth).next);
      && Occurs(s, i, MemberText(m)) && Occurs(s, i + |MemberText(m)|, [end.value])
      && end.next == i + |MemberText(m)| + 1
    decreases |s| - i, 5
  {
    hide *;
    var pre, key, mid := KeySound(s, i);
    var e := ElemSound(s, ReadKey(s, i).next, depth);
    m := Member(pre, key, mid, e);
    MemberTextIs(m);
    OccursConcat(s, i, KeyText(pre, key, mid), ElemText(e));
  }

  lemma MembersDerive(members: seq<Member>, depth: int)
    requires members != []
    requires
      var m := members[0];
      && AllSpaces(m.pre) && AllItems(m.key) && AllSpaces(m.mid)
      && AllSpaces(m.elem.pre) && Derives(m.elem.tree, depth) && AllSpaces(m.elem.post)
    requires members[1..] == [] || DerivesMembers(members[1..], depth)
    ensures DerivesMembers(members, depth)
  {
    hide Derives;
  }

  lemma MembersSound(s: Text, i: nat, depth: int, acc: seq<Field>) returns (members: seq<Member>)
    requires i <= |s| && ReadMembers(s, i, depth, acc).Ok?
    ensures members != [] && DerivesMembers(members, depth)
    ensures Occurs(s, i, MemberText(members[0]) + MembersTail(members[1..]))
    ensures ReadMembers(s, i, depth, acc)
         == Ok(MembersValue(acc, members, depth), i + |MemberText(members[0])| + |MembersTail(members[1..])|)
    decreases |s| - i, 6
  {
    hide *;
    ReadMembersOk(s, i, depth, acc);
    var key := ReadKey(s, i);
    var v := ReadValue(s, key.next, depth);
    var end := Token(s, v.next);
    var m := MemberSound(s, i, depth);
    var acc' := Put(acc, key.value, v.value);
    ReadMembersStep(s, i, depth, acc, key.value, key.next, v.value, v.next);
    var tail: seq<Member> := [];
    if end.value != RBRACE {
      tail := MembersSound(s, end.next, depth, acc');
    }
    members := [m] + tail;
    assert members[1..] == tail;
    MembersDerive(members, depth);
    MembersValueStep(members, depth, acc);
    MembersTailSteps(tail);
    if tail == [] {
      assert [RBRACE] + [] == [RBRACE];
    } else {
      OccursHead(s, end.next - 1, COMMA, MemberText(tail[0]) + MembersTail(tail[1..]));
      OccursHead(s, end.next - 1, COMMA, []);
      assert [COMMA] + [] == [COMMA];
    }
    OccursConcat(s, i, MemberText(m), MembersTail(tail));
  }

  // ---- the language ----

  lemma SpacesToEnd(s: Text, j: nat, post: Text)
    requires AllSpaces(post) && At(s, j) == At(post, 0) && Occurs(s, j, post) && j + |post| == |s|
    ensures NumberStops(s, j) && SkipSpaces(s, j) == |s|
  {
    hide Occurs, SkipSpaces;
    SkipsSpaces(s, j, post);
  }

  lemma TokenIs(s: Text, i: nat)
    requires i <= |s|
    ensures SkipSpaces(s, i) < |s| ==> Token(s, i) == Ok(At(s, SkipSpaces(s, i)), SkipSpaces(s, i) + 1)
  {
    hide SkipSpaces;
  }

  lemma TextParts(s: Text, pre: Text, text: Text, post: Text, k: nat, j: nat)
    requires s == pre + (text + post) && text != [] && k == |pre| && j == k + |text|
    ensures Occurs(s, 0, pre) && Occurs(s, k, text) && Occurs(s, j, post)
    ensures At(s, k) == text[0] && At(s, j) == At(post, 0) && |s| == j + |post|
  {
    hide Occurs;
    OccursSlice(s, 0, s);
    OccursConcat(s, 0, pre, text + post);
    OccursConcat(s, k, text, post);
  }

  /** A text with white space around it: where it starts and that nothing
      but white space follows. */
  lemma AroundText(s: Text, pre: Text, text: Text, post: Text, k: nat, j: nat)
    requires AllSpaces(pre) && text != [] && !IsSpace(text[0]) && AllSpaces(post)
    requires s == pre + (text + post) && k == |pre| && j == k + |text|
    ensures Token(s, 0) == Ok(text[0], k + 1) && Occurs(s, k, text)
    ensures j <= |s| && NumberStops(s, j) && SkipSpaces(s, j) == |s|
  {
    hide *;
    TextParts(s, pre, text, post, k, j);
    SpacesToEnd(s, j, post);
    SkipsSpaces(s, 0, pre);
    TokenIs(s, 0);
  }

  lemma JsonParts(s: Text, e: Elem)
    requires IsJson(s, e)
    ensures AllSpaces(e.pre) && Derives(e.tree, 0) && AllSpaces(e.post)
    ensures s == e.pre + (TreeText(e.tree) + e.post)
  {
    hide Derives, TreeText;
  }

  lemma ReadTextIs(s: Text)
    ensures
      var r := ReadValue(s, 0, 0);
      ReadText(s) == if r.Ok? && SkipSpaces(s, r.next) == |s| then Some(r.value) else None
  {
    hide ReadValue, SkipSpaces;
  }

  /** Every JSON text is read, to the value of its derivation. */
  lemma AcceptsDerivation(s: Text, e: Elem)
    requires IsJson(s, e)
    ensures ReadText(s) == Some(TreeValue(e.tree, 0))
  {
    hide *;
    var k := |e.pre|;
    var j := k + |TreeText(e.tree)|;
    JsonParts(s, e);
    TreeStarts(e.tree, 0);
    AroundText(s, e.pre, TreeText(e.tree), e.post, k, j);
    ReadsTree(s, k, e.tree, 0);
    ReadValueIs(s, 0, 0);
    ReadTextIs(s);
  }

  lemma IsJsonIf(s: Text, e: Elem)
    requires AllSpaces(e.pre) && Derives(e.tree, 0) && AllSpaces(e.post)
    requires s == (e.pre + TreeText(e.tree)) + e.post
    ensures IsJson(s, e)
  {
    hide Derives, TreeText;
  }

  /** Whatever is read is a JSON text. */
  lemma AcceptedDerives(s: Text) returns (e: Elem)
    requires ReadText(s).Some?
    ensures IsJson(s, e)
  {
    hide *;
    ReadTextIs(s);
    var j := ReadValue(s, 0, 0).next;
    var t := ValueSound(s, 0, 0);
    SpacesSound(s, j);
    e := Elem(Spaces(s, 0), t, Spaces(s, j));
    var text := e.pre + TreeText(t);
    OccursSlice(s, 0, text);
    OccursSlice(s, j, e.post);
    assert s == s[..j] + s[j..];
    IsJsonIf(s, e);
  }

  /** Json::parse succeeds exactly on the texts of the grammar whose values
      have at most 200 enclosing containers. */
  lemma ParsesExactlyTheGrammar(s: Text)
    ensures ReadText(s).Some? <==> exists e :: IsJson(s, e)
    ensures forall e :: IsJson(s, e) ==> ReadText(s) == Some(TreeValue(e.tree, 0))
  {
    if ReadText(s).Some? {
      var e := AcceptedDerives(s);
    }
    forall e | IsJson(s, e)
      ensures ReadText(s) == Some(TreeValue(e.tree, 0))
    {
      AcceptsDerivation(s, e);
    }
  }
}
