/** Json::parse_multi: one value after the other until the text ends or a
    value fails. */
module JsonMulti {
  import opened Bytes
  import opened JsonValue
  import opened JsonGrammar
  import opened JsonReader
  import opened JsonLanguage
  import opened JsonWriter
  import opened JsonRoundTrip
  import JsonParsing

  /** The values, where the last good one ended with the white space after it,
      and whether parsing failed; a failed value is there as null. */
  datatype Multi = Multi(values: seq<Json>, stop: nat, failed: bool)

  function ReadMulti(s: Text, i: nat, values: seq<Json>, stop: nat): Multi
    requires i <= |s|
    decreases |s| - i
  {
    if i == |s| then Multi(values, stop, false)
    else
      match ReadValue(s, i, 0)
      case Fail => Multi(values + [Null], stop, true)
      case Ok(v, j) => ReadMulti(s, SkipSpaces(s, j), values + [v], SkipSpaces(s, j))
  }

  method ParseMulti(text: Text) returns (values: seq<Json>, stop: nat, failed: bool)
    ensures ReadMulti(text, 0, [], 0) == Multi(values, stop, failed)
  {
    hide ReadValue, SkipSpaces;
    var parser := new JsonParsing.JsonParser(text);
    values, stop := [], 0;
    while parser.i != |text| && !parser.failed
      invariant parser.str == text && parser.Valid() && !parser.failed
      invariant ReadMulti(text, parser.i, values, stop) == ReadMulti(text, 0, [], 0)
      decreases |text| - parser.i
    {
      var v := parser.ParseJson(0);
      values := values + [if parser.failed then Null else v];
      if parser.failed {
        return values, stop, true;
      }
      parser.ConsumeWhitespace();
      stop := parser.i;
    }
    failed := parser.failed;
  }

  // ---- what it accepts is a sequence of JSON texts ----

  function Texts(elems: seq<Elem>): Text {
    if elems == [] then [] else ElemText(elems[0]) + Texts(elems[1..])
  }

  /** If nothing fails, the text is derivations one after the other, the values
      are theirs, and the end is reached. */
  lemma {:induction false} MultiSound(s: Text, i: nat, values: seq<Json>, stop: nat) returns (elems: seq<Elem>)
    requires i <= |s| && !ReadMulti(s, i, values, stop).failed
    ensures DerivesElems(elems, 0) && s[i..] == Texts(elems)
    ensures ReadMulti(s, i, values, stop) == Multi(values + ElemsValue(elems, 0), if i < |s| then |s| else stop, false)
    decreases |s| - i
  {
    hide *;
    if i == |s| {
      MultiEnds(s, i, values, stop);
      NoTexts();
      elems := [];
    } else {
      MultiStep(s, i, values, stop);
      var v := ReadValue(s, i, 0);
      var k := SkipSpaces(s, v.next);
      var rest := MultiSound(s, k, values + [v.value], k);
      var e := OneMore(s, i, k);
      elems := [e] + rest;
      TextsStep(e, rest);
      assert s[i..] == s[i..k] + s[k..];
      assert values + [v.value] + ElemsValue(rest, 0) == values + ElemsValue(elems, 0);
    }
  }

  /** If a value fails, the values before it are those of derivations one after
      the other, a null stands for it, and `stop` is where it starts; nothing
      can be read there. */
  lemma {:induction false} MultiFailure(s: Text, i: nat, values: seq<Json>, stop: nat)
      returns (elems: seq<Elem>, at: nat)
    requires i <= |s| && ReadMulti(s, i, values, stop).failed
    ensures DerivesElems(elems, 0) && i <= at < |s| && s[i..at] == Texts(elems)
    ensures ReadValue(s, at, 0).Fail?
    ensures ReadMulti(s, i, values, stop)
         == Multi(values + ElemsValue(elems, 0) + [Null], if elems == [] then stop else at, true)
    decreases |s| - i
  {
    hide *;
    MultiFails(s, i, values, stop);
    var v := ReadValue(s, i, 0);
    if v.Fail? {
      elems, at := [], i;
      NoTexts();
      assert values + [] + [Null] == values + [Null];
    } else {
      var k := SkipSpaces(s, v.next);
      var rest;
      rest, at := MultiFailure(s, k, values + [v.value], k);
      var e := OneMore(s, i, k);
      elems := [e] + rest;
      TextsStep(e, rest);
      assert s[i..at] == s[i..k] + s[k..at];
      if rest == [] {
        NoTexts();
        assert |s[k..at]| == 0;
      }
      assert values + [v.value] + ElemsValue(rest, 0) + [Null] == values + ElemsValue(elems, 0) + [Null];
    }
  }

  lemma MultiFails(s: Text, i: nat, values: seq<Json>, stop: nat)
    requires i <= |s| && ReadMulti(s, i, values, stop).failed
    ensures i < |s|
    ensures var v := ReadValue(s, i, 0);
      && (v.Fail? ==> ReadMulti(s, i, values, stop) == Multi(values + [Null], stop, true))
      && (v.Ok? ==>
            && i < v.next <= |s|
            && var k := SkipSpaces(s, v.next);
            && v.next <= k <= |s|
            && ReadMulti(s, i, values, stop) == ReadMulti(s, k, values + [v.value], k))
  {
    hide ReadFrom;
  }

  lemma MultiEnds(s: Text, i: nat, values: seq<Json>, stop: nat)
    requires i == |s|
    ensures ReadMulti(s, i, values, stop) == Multi(values, stop, false)
  {
  }

  lemma NoTexts()
    ensures Texts([]) == [] && DerivesElems([], 0) && ElemsValue([], 0) == []
  {
  }

  lemma MultiStep(s: Text, i: nat, values: seq<Json>, stop: nat)
    requires i < |s| && !ReadMulti(s, i, values, stop).failed
    ensures var v := ReadValue(s, i, 0);
      && v.Ok? && i < v.next <= |s|
      && var k := SkipSpaces(s, v.next);
      && v.next <= k <= |s|
      && ReadMulti(s, i, values, stop) == ReadMulti(s, k, values + [v.value], k)
  {
    hide ReadFrom;
  }

  lemma TextsStep(e: Elem, rest: seq<Elem>)
    requires AllSpaces(e.pre) && Derives(e.tree, 0) && AllSpaces(e.post) && DerivesElems(rest, 0)
    ensures Texts([e] + rest) == ElemText(e) + Texts(rest)
    ensures DerivesElems([e] + rest, 0) && ElemsValue([e] + rest, 0) == [TreeValue(e.tree, 0)] + ElemsValue(rest, 0)
  {
    hide Derives, TreeValue, ElemText;
    assert ([e] + rest)[1..] == rest;
  }

  lemma OneMore(s: Text, i: nat, k: nat) returns (e: Elem)
    requires i <= |s| && ReadValue(s, i, 0).Ok? && k == SkipSpaces(s, ReadValue(s, i, 0).next)
    ensures AllSpaces(e.pre) && Derives(e.tree, 0) && AllSpaces(e.post) && i <= k <= |s| && ElemText(e) == s[i..k]
    ensures ReadValue(s, i, 0).value == TreeValue(e.tree, 0)
  {
    hide *;
    var j := ReadValue(s, i, 0).next;
    var t := ValueSound(s, i, 0);
    SpacesSound(s, j);
    e := Elem(Spaces(s, i), t, Spaces(s, j));
    ElemTextIs(e);
    OccursSlice(s, i, e.pre + TreeText(t));
    OccursSlice(s, j, e.post);
    assert s[i..k] == s[i..j] + s[j..k];
  }

  // ---- printed values come back ----

  ghost predicate Printable(vs: seq<Json>) {
    forall k | 0 <= k < |vs| :: WellFormed(vs[k]) && Nests(vs[k], MAX_DEPTH)
  }

  /** Values as a program may log them, a space after each. */
  ghost function Logged(vs: seq<Json>): Text
    requires Printable(vs)
  {
    if vs == [] then [] else Print(vs[0]) + (SPACE + Logged(vs[1..]))
  }

  ghost function Settled(vs: seq<Json>): seq<Json>
    requires Printable(vs)
  {
    if vs == [] then [] else [Settle(vs[0])] + Settled(vs[1..])
  }

  lemma LoggedStarts(vs: seq<Json>)
    requires Printable(vs)
    ensures Logged(vs) != [] ==> !IsSpace(Logged(vs)[0])
    ensures vs == [] <==> Logged(vs) == []
  {
    if vs != [] {
      PrintStarts(vs[0]);
    }
  }

  lemma PrintStarts(v: Json)
    requires WellFormed(v) && Nests(v, MAX_DEPTH)
    ensures Derives(TreeOf(v), 0) && Print(v) == TreeText(TreeOf(v)) && Print(v) != [] && !IsSpace(Print(v)[0])
  {
    hide *;
    PrintIs(v);
    TreeMeans(v, 0);
    TreeStarts(TreeOf(v), 0);
  }

  /** One value and the space after it. */
  lemma ReadsLogged(s: Text, i: nat, j: nat, v: Json, rest: Text)
    requires WellFormed(v) && Nests(v, MAX_DEPTH) && Occurs(s, i, Print(v) + (SPACE + rest)) && j == i + |Print(v)|
    requires rest != [] ==> !IsSpace(rest[0])
    requires j + 1 + |rest| == |s|
    ensures i < |s| && ReadValue(s, i, 0) == Ok(Settle(v), j) && SkipSpaces(s, j) == j + 1 && Occurs(s, j + 1, rest)
  {
    hide *;
    OccursConcat(s, i, Print(v), SPACE + rest);
    PrintStarts(v);
    TreeMeans(v, 0);
    SpaceThen(s, j, rest);
    ReadsTree(s, i, TreeOf(v), 0);
    StartsAt(s, i);
    TokenIs(s, i);
    ReadValueIs(s, i, 0);
  }

  lemma StartsAt(s: Text, i: nat)
    requires i < |s| && !IsSpace(s[i])
    ensures SkipSpaces(s, i) == i && At(s, i) == s[i] && 0 <= MAX_DEPTH
  {
  }

  lemma SpaceThen(s: Text, j: nat, rest: Text)
    requires Occurs(s, j, SPACE + rest) && j + 1 + |rest| == |s| && (rest != [] ==> !IsSpace(rest[0]))
    ensures NumberStops(s, j) && SkipSpaces(s, j) == j + 1 && Occurs(s, j + 1, rest)
  {
    assert (SPACE + rest)[0] == 0x20 && (SPACE + rest)[1..] == rest;
  }

  /** parse_multi reads back any sequence of values printed with a space after
      each. */
  lemma {:induction false} LoggedComeBack(s: Text, i: nat, vs: seq<Json>, values: seq<Json>, stop: nat)
    requires Printable(vs) && Occurs(s, i, Logged(vs)) && i + |Logged(vs)| == |s|
    ensures ReadMulti(s, i, values, stop) == Multi(values + Settled(vs), if vs == [] then stop else |s|, false)
    decreases |vs|
  {
    hide Print, Settle, ReadValue, SkipSpaces, Occurs, WellFormed, Nests;
    if vs == [] {
      assert values + [] == values;
    } else {
      var v, rest := vs[0], Logged(vs[1..]);
      var j := i + |Print(v)|;
      LoggedStarts(vs[1..]);
      ReadsLogged(s, i, j, v, rest);
      LoggedComeBack(s, j + 1, vs[1..], values + [Settle(v)], j + 1);
      assert values + [Settle(v)] + Settled(vs[1..]) == values + Settled(vs);
    }
  }

  /** The whole text, from its start. */
  lemma MultiRoundTrip(vs: seq<Json>)
    requires Printable(vs)
    ensures ReadMulti(Logged(vs), 0, [], 0) == Multi(Settled(vs), |Logged(vs)|, false)
  {
    hide Print, Settle, ReadMulti, Occurs, WellFormed, Nests;
    OccursSlice(Logged(vs), 0, Logged(vs));
    LoggedComeBack(Logged(vs), 0, vs, [], 0);
    assert [] + Settled(vs) == Settled(vs);
  }
}
