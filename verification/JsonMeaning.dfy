/** What the grammar's values are, said another way: objects by their members,
    numbers as decimal fractions, escapes by their digits, surrogate pairs by
    how a code point is split into one. */
module JsonMeaning {
  import opened Bytes
  import opened JsonValue
  import opened JsonGrammar

  // ---- arrays and objects ----

  ghost predicate ElemsDerive(elems: seq<Elem>, depth: int) {
    forall i | 0 <= i < |elems| :: Derives(elems[i].tree, depth)
  }

  /** An array's items are its elements' values, in order. */
  lemma {:induction false} ArrayMeans(elems: seq<Elem>, depth: int)
    requires DerivesElems(elems, depth)
    ensures ElemsDerive(elems, depth)
    ensures var items := ElemsValue(elems, depth);
      |items| == |elems| && forall i | 0 <= i < |elems| :: items[i] == TreeValue(elems[i].tree, depth)
    decreases |elems|
  {
    hide Derives, TreeValue;
    if elems != [] {
      ArrayMeans(elems[1..], depth);
      assert elems == [elems[0]] + elems[1..];
    }
  }

  ghost predicate MembersDerive(members: seq<Member>, depth: int) {
    forall i | 0 <= i < |members| :: AllItems(members[i].key) && Derives(members[i].elem.tree, depth)
  }

  /** The i-th member is the last one with this key, and this is its value. */
  ghost predicate LastWith(members: seq<Member>, depth: int, i: nat, f: Field)
    requires MembersDerive(members, depth)
  {
    && i < |members|
    && StringValue(members[i].key) == f.key && TreeValue(members[i].elem.tree, depth) == f.value
    && forall j | i < j < |members| :: StringValue(members[j].key) != f.key
  }

  ghost predicate IsLast(members: seq<Member>, depth: int, f: Field)
    requires MembersDerive(members, depth)
  {
    exists i: nat :: LastWith(members, depth, i, f)
  }

  ghost predicate NoneWith(members: seq<Member>, depth: int, key: Text)
    requires MembersDerive(members, depth)
  {
    forall j | 0 <= j < |members| :: StringValue(members[j].key) != key
  }

  lemma {:induction false} AllMembersDerive(members: seq<Member>, depth: int)
    requires DerivesMembers(members, depth)
    ensures MembersDerive(members, depth)
    decreases |members|
  {
    hide Derives, AllItems;
    if members != [] {
      AllMembersDerive(members[1..], depth);
      assert members == [members[0]] + members[1..];
    }
  }

  lemma LastOfMore(members: seq<Member>, depth: int, f: Field)
    requires members != [] && MembersDerive(members, depth) && MembersDerive(members[1..], depth)
    ensures IsLast(members, depth, f)
       <==> IsLast(members[1..], depth, f)
            || (NoneWith(members[1..], depth, f.key)
                && f == Field(StringValue(members[0].key), TreeValue(members[0].elem.tree, depth)))
  {
    hide Derives, AllItems, StringValue, TreeValue;
    var rest := members[1..];
    if i: nat :| LastWith(members, depth, i, f) {
      if i > 0 {
        assert LastWith(rest, depth, i - 1, f) by {
          assert forall j | i - 1 < j < |rest| :: rest[j] == members[j + 1];
        }
      } else {
        assert forall j | 0 <= j < |rest| :: rest[j] == members[j + 1];
      }
    }
    if i: nat :| LastWith(rest, depth, i, f) {
      assert LastWith(members, depth, i + 1, f) by {
        assert forall j | i + 1 < j < |members| :: members[j] == rest[j - 1];
      }
    }
    if NoneWith(rest, depth, f.key) && f == Field(StringValue(members[0].key), TreeValue(members[0].elem.tree, depth)) {
      assert LastWith(members, depth, 0, f) by {
        assert forall j | 0 < j < |members| :: members[j] == rest[j - 1];
      }
    }
  }

  lemma {:induction false} SomeLast(members: seq<Member>, depth: int, key: Text)
    requires MembersDerive(members, depth)
    ensures NoneWith(members, depth, key) || exists f :: IsLast(members, depth, f) && f.key == key
    decreases |members|
  {
    hide Derives, AllItems, StringValue, TreeValue;
    if members != [] {
      var rest := members[1..];
      assert MembersDerive(rest, depth) by {
        assert forall i | 0 <= i < |rest| :: rest[i] == members[i + 1];
      }
      SomeLast(rest, depth, key);
      if f :| IsLast(rest, depth, f) && f.key == key {
        LastOfMore(members, depth, f);
      } else if StringValue(members[0].key) == key {
        LastOfMore(members, depth, Field(key, TreeValue(members[0].elem.tree, depth)));
      } else {
        assert forall j | 0 < j < |members| :: members[j] == rest[j - 1];
      }
    }
  }

  /** Members added to fields: a field is there if it is the last member with
      its key, or was there before and no member has its key. */
  lemma {:induction false} MembersMeanFields(fields: seq<Field>, members: seq<Member>, depth: int)
    requires DerivesMembers(members, depth) && SortedFields(fields)
    ensures MembersDerive(members, depth)
    ensures SortedFields(MembersValue(fields, members, depth))
    ensures forall f :: f in MembersValue(fields, members, depth) <==>
      IsLast(members, depth, f) || (f in fields && NoneWith(members, depth, f.key))
    decreases |members|
  {
    hide *;
    AllMembersDerive(members, depth);
    if members == [] {
      NoMembers(fields, depth);
    } else {
      var rest := members[1..];
      OneMember(fields, members, depth);
      var key, value := StringValue(members[0].key), TreeValue(members[0].elem.tree, depth);
      PutIs(fields, key, value);
      MembersMeanFields(Put(fields, key, value), rest, depth);
      forall f
        ensures f in MembersValue(fields, members, depth) <==>
          IsLast(members, depth, f) || (f in fields && NoneWith(members, depth, f.key))
      {
        LastOfMore(members, depth, f);
        NoneOfMore(members, depth, f.key);
      }
    }
  }

  lemma NoneOfMore(members: seq<Member>, depth: int, key: Text)
    requires members != [] && MembersDerive(members, depth) && MembersDerive(members[1..], depth)
    ensures NoneWith(members, depth, key) <==> NoneWith(members[1..], depth, key) && StringValue(members[0].key) != key
  {
    hide Derives, AllItems, StringValue;
    var rest := members[1..];
    assert forall j | 0 < j < |members| :: members[j] == rest[j - 1];
    assert forall j | 0 <= j < |rest| :: rest[j] == members[j + 1];
  }

  lemma NoMembers(fields: seq<Field>, depth: int)
    ensures DerivesMembers([], depth) && MembersDerive([], depth) && MembersValue(fields, [], depth) == fields
    ensures forall f :: !IsLast([], depth, f)
    ensures forall key :: NoneWith([], depth, key)
  {
  }

  lemma OneMember(fields: seq<Field>, members: seq<Member>, depth: int)
    requires members != [] && DerivesMembers(members, depth)
    ensures var m := members[0];
      && AllItems(m.key) && Derives(m.elem.tree, depth) && DerivesMembers(members[1..], depth)
      && MembersValue(fields, members, depth)
         == MembersValue(Put(fields, StringValue(m.key), TreeValue(m.elem.tree, depth)), members[1..], depth)
  {
    hide Derives, TreeValue, StringValue, Put;
  }

  /** The fields of an object are in order, and they hold, for exactly the keys
      among its members, the value of the last member with that key. */
  lemma ObjectMeans(empty: Text, members: seq<Member>, depth: int)
    requires Derives(ObjectTree(empty, members), depth)
    ensures MembersDerive(members, depth + 1)
    ensures var v := TreeValue(ObjectTree(empty, members), depth);
      && v.Object? && SortedFields(v.fields)
      && (forall f :: f in v.fields <==> IsLast(members, depth + 1, f))
      && (forall i | 0 <= i < |members| :: exists f :: f in v.fields && f.key == StringValue(members[i].key))
  {
    hide IsLast, Less;
    MembersMeanFields([], members, depth + 1);
    forall i | 0 <= i < |members|
      ensures exists f :: IsLast(members, depth + 1, f) && f.key == StringValue(members[i].key)
    {
      SomeLast(members, depth + 1, StringValue(members[i].key));
    }
  }

  // ---- numbers ----

  /** Ten to the e. */
  function Ten(e: int): real {
    if e >= 0 then Power10(e) as real else 1.0 / Power10(-e) as real
  }

  lemma {:induction false} PowerAdd(a: nat, b: nat)
    ensures Power10(a + b) == Power10(a) * Power10(b)
    decreases a
  {
    if a > 0 {
      PowerAdd(a - 1, b);
      assert Power10(a + b) == 10 * (Power10(a - 1) * Power10(b));
      assert Power10(a) * Power10(b) == 10 * (Power10(a - 1) * Power10(b));
    }
  }

  lemma Product(a: int, b: int)
    ensures (a * b) as real == a as real * b as real
  {
  }

  lemma TenUp(e: nat, k: nat)
    ensures Ten(e) * Power10(k) as real == Ten(e + k)
  {
    hide Power10;
    PowerAdd(e, k);
    Product(Power10(e), Power10(k));
  }

  lemma TenPast(e: nat, k: nat)
    requires e < k
    ensures Ten(e - k) * Power10(k) as real == Ten(e)
  {
    hide Power10;
    var a, b := Power10(k - e), Power10(e);
    PowerAdd(k - e, e);
    Product(a, b);
    Cancels(a as real, b as real);
  }

  lemma TenDown(e: nat, k: nat)
    requires e > 0
    ensures Ten(0 - e - k) * Power10(k) as real == Ten(0 - e)
  {
    hide Power10;
    var a, b := Power10(e), Power10(k);
    PowerAdd(e, k);
    Product(a, b);
    CancelsPart(a as real, b as real);
  }

  lemma Cancels(a: real, b: real)
    requires a > 0.0
    ensures 1.0 / a * (a * b) == b
  {
    assert 1.0 / a * a == 1.0;
    assert 1.0 / a * (a * b) == (1.0 / a * a) * b;
  }

  lemma CancelsPart(a: real, b: real)
    requires a > 0.0 && b > 0.0
    ensures a * b > 0.0 && 1.0 / (a * b) * b == 1.0 / a
  {
    var q := 1.0 / (a * b) * b;
    assert q * a == 1.0 / (a * b) * (a * b) == 1.0;
    assert q == 1.0 / a;
  }

  /** Moving a decimal point k places. */
  lemma TenMinus(e: int, k: nat)
    ensures Ten(e - k) * Power10(k) as real == Ten(e)
  {
    hide Ten, Power10;
    if e >= k {
      TenUp(e - k, k);
    } else if e >= 0 {
      TenPast(e, k);
    } else {
      TenDown(-e, k);
    }
  }

  lemma ScaleIs(m: int, e: int)
    ensures Scale(m, e) == m as real * Ten(e)
  {
    hide Power10;
    if e >= 0 {
      Product(m, Power10(e));
    }
  }

  lemma TenTimes(x: int, p: int)
    ensures x * (10 * p) == 10 * (x * p)
  {
  }

  lemma {:induction false} DecimalConcat(a: Text, b: Text)
    requires AllDigits(a) && AllDigits(b)
    ensures AllDigits(a + b) && Decimal(a + b) == Decimal(a) * Power10(|b|) + Decimal(b)
    decreases |b|
  {
    if b == [] {
      assert a + b == a;
    } else {
      var front := b[..|b| - 1];
      assert (a + b)[..|a + b| - 1] == a + front;
      DecimalConcat(a, front);
      TenTimes(Decimal(a), Power10(|front|));
    }
  }

  /** The number is what stands before the point, plus what stands behind it as
      so many decimal places, times ten to the exponent. */
  lemma RealMeans(n: NumLit)
    requires IsNumber(n)
    ensures var frac := n.frac.GetOr([]); var sign: real := if n.neg then -1.0 else 1.0;
      && AllDigits(frac)
      && var e: int :=
           if n.exp.None? then 0
           else if n.exp.value.sign == [0x2d] then 0 - Decimal(n.exp.value.digits) else Decimal(n.exp.value.digits);
      RealValue(n) * Power10(|frac|) as real
      == sign * (Decimal(n.whole) * Power10(|frac|) + Decimal(frac)) as real * Ten(e)
  {
    hide Power10, Ten, Scale, Decimal;
    var frac, e := n.frac.GetOr([]), ExpValue(n.exp);
    var m := Signed(n.neg, Decimal(n.whole + frac));
    DecimalConcat(n.whole, frac);
    ScaleIs(m, e - |frac|);
    TenMinus(e, |frac|);
    var t, p := Ten(e - |frac|), Power10(|frac|) as real;
    assert m as real * t * p == m as real * (t * p);
  }

  predicate HasMark(s: Text) {
    exists k :: 0 <= k < |s| && s[k] in {0x2e, 0x65, 0x45}
  }

  lemma NoMarks(s: Text)
    requires AllDigits(s)
    ensures !HasMark(s)
  {
  }

  lemma MarkConcat(a: Text, b: Text)
    ensures HasMark(a + b) <==> HasMark(a) || HasMark(b)
  {
    if k :| 0 <= k < |a| && a[k] in {0x2e, 0x65, 0x45} {
      assert (a + b)[k] == a[k];
    }
    if k :| 0 <= k < |b| && b[k] in {0x2e, 0x65, 0x45} {
      assert (a + b)[|a| + k] == b[k];
    }
  }

  /** A number is an int exactly if it has at most nine characters and no point
      or exponent among them; every other number is a double. */
  lemma IntExactly(n: NumLit)
    requires IsNumber(n)
    ensures NumberValue(n).Int? <==> |NumberText(n)| <= 9 && !HasMark(NumberText(n))
    ensures NumberValue(n).Int? || NumberValue(n).Double?
    ensures NumberValue(n).Int? ==> NumberValue(n).n == (if n.neg then 0 - Decimal(n.whole) else Decimal(n.whole))
  {
    hide HasMark, Decimal, RealValue;
    MarkConcat(SignText(n.neg), n.whole + (FracText(n.frac) + ExpText(n.exp)));
    MarkConcat(n.whole, FracText(n.frac) + ExpText(n.exp));
    MarkConcat(FracText(n.frac), ExpText(n.exp));
    NoMarks(n.whole);
    MarksOf(n);
  }

  lemma MarksOf(n: NumLit)
    requires IsNumber(n)
    ensures !HasMark(SignText(n.neg))
    ensures HasMark(FracText(n.frac)) <==> n.frac.Some?
    ensures HasMark(ExpText(n.exp)) <==> n.exp.Some?
  {
    if n.frac.Some? {
      assert FracText(n.frac)[0] == 0x2e;
    }
    if n.exp.Some? {
      assert ExpText(n.exp)[0] == n.exp.value.letter;
    }
  }

  // ---- escapes ----

  /** The digits of base sixteen, in both cases. */
  const LOWER_DIGITS: Text :=
    [0x30, 0x31, 0x32, 0x33, 0x34, 0x35, 0x36, 0x37, 0x38, 0x39, 0x61, 0x62, 0x63, 0x64, 0x65, 0x66]
  const UPPER_DIGITS: Text :=
    [0x30, 0x31, 0x32, 0x33, 0x34, 0x35, 0x36, 0x37, 0x38, 0x39, 0x41, 0x42, 0x43, 0x44, 0x45, 0x46]

  /** A digit's value is its place among the sixteen. */
  lemma HexDigitMeans(b: Byte, v: nat)
    requires v < 16
    ensures IsHexDigit(b) && HexDigit(b) == v <==> b == LOWER_DIGITS[v] || b == UPPER_DIGITS[v]
  {
    forall w: nat | w < 16
      ensures LOWER_DIGITS[w] == (if w < 10 then 0x30 + w else 0x57 + w)
      ensures UPPER_DIGITS[w] == (if w < 10 then 0x30 + w else 0x37 + w)
    {
    }
  }

  /** Four digits are a number of base sixteen, most significant first. */
  lemma HexMeans(d: Text)
    requires |d| == 4 && AllHex(d)
    ensures HexValue(d) / 0x1000 == HexDigit(d[0]) && HexValue(d) / 0x100 % 16 == HexDigit(d[1])
    ensures HexValue(d) / 0x10 % 16 == HexDigit(d[2]) && HexValue(d) % 16 == HexDigit(d[3])
  {
    hide HexDigit;
    Base16(HexDigit(d[0]), HexDigit(d[1]), HexDigit(d[2]), HexDigit(d[3]));
  }

  lemma Base16(a: nat, b: nat, c: nat, d: nat)
    requires a < 16 && b < 16 && c < 16 && d < 16
    ensures var u := ((a * 16 + b) * 16 + c) * 16 + d;
      u / 0x1000 == a && u / 0x100 % 16 == b && u / 0x10 % 16 == c && u % 16 == d
  {
  }

  /** Section 2.1 of RFC 2781: the two units of a code point above FFFF. */
  function Surrogates(pt: nat): (int, int)
    requires 0x1_0000 <= pt < 0x11_0000
  {
    (0xD800 + (pt - 0x1_0000) / 0x400, 0xDC00 + (pt - 0x1_0000) % 0x400)
  }

  /** A lead and a trail unit are read as the one code point that is split into
      them. */
  lemma PairMeans(lead: int, trail: int, pt: nat)
    requires IsLead(lead) && IsTrail(trail) && 0x1_0000 <= pt < 0x11_0000
    ensures Astral(lead, trail) == pt <==> Surrogates(pt) == (lead, trail)
  {
  }

  /** The bytes of sections 2, 6 and 7 of RFC 8259: white space, digits, and what
      a string may hold unescaped. */
  lemma CharactersAre(b: Byte)
    ensures IsSpace(b) <==> b in {0x20, 0x09, 0x0a, 0x0d}
    ensures IsDigit(b) <==> b in {0x30, 0x31, 0x32, 0x33, 0x34, 0x35, 0x36, 0x37, 0x38, 0x39}
    ensures IsItem(Plain(b)) <==> b >= 0x20 && b !in {0x22, 0x5c}
    ensures IsItem(Short(b)) <==> b in {0x22, 0x5c, 0x2f, 0x62, 0x66, 0x6e, 0x72, 0x74}
    ensures IsHexDigit(b) <==> b in LOWER_DIGITS || b in UPPER_DIGITS
  {
  }

  /** The two-character escapes of section 7 of RFC 8259. */
  lemma ShortMeans()
    ensures ShortValue(0x22) == Some(0x22) && ShortValue(0x5c) == Some(0x5c) && ShortValue(0x2f) == Some(0x2f)
    ensures ShortValue(0x62) == Some(0x08) && ShortValue(0x66) == Some(0x0c) && ShortValue(0x6e) == Some(0x0a)
    ensures ShortValue(0x72) == Some(0x0d) && ShortValue(0x74) == Some(0x09)
  {
  }
}
