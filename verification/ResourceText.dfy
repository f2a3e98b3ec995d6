/** Resource descriptions as text (utils/include/ncache_registry.h,
    utils/src/ncache_registry.cc, split_str in utils/src/utils.cc): twelve named
    fields, written `name=value` and joined by colons, with wildcards for what
    is not given; and the duplicate-free registry that agents exchange as such
    text. */
module ResourceText {
  import opened Bytes

  /** A description: the values of the twelve fields in the order of the
      enumeration. */
  type Desc = d: seq<string> | |d| == 12 witness NAMES

  /** The fields' names, which are also their initial values. */
  const NAMES: seq<string> :=
    ["hw_vid", "hw_pid", "hw_ss_vid", "hw_ss_pid", "sw_vid", "sw_pid", "sw_clid", "sw_fid", "sw_verid",
     "func_alias", "platform_id", "func_repl"]

  /** The order in which nine of them are printed. */
  const PRINTED: seq<nat> := [0, 1, 2, 3, 4, 5, 7, 6, 8]

  // ---- splitting ----

  predicate Free(s: string, c: char) {
    forall i | 0 <= i < |s| :: s[i] != c
  }

  function Cut(s: string, c: char): (i: nat)
    ensures i <= |s| && Free(s[..i], c) && (i < |s| ==> s[i] == c)
  {
    if s == "" || s[0] == c then 0 else 1 + Cut(s[1..], c)
  }

  /** split_str: getline up to each delimiter; an empty rest gives nothing. */
  function Split(s: string, c: char): seq<string>
    decreases |s|
  {
    if s == "" then []
    else
      var i := Cut(s, c);
      if i == |s| then [s] else [s[..i]] + Split(s[i + 1..], c)
  }

  // ---- parsing ----

  /** reverse_map_find; 12 for a name that no field has, where the original is
      undefined. */
  function FieldOf(name: string): (k: nat)
    ensures k <= 12 && (k < 12 ==> NAMES[k] == name)
  {
    FieldFrom(name, 0)
  }

  function FieldFrom(name: string, k: nat): (r: nat)
    requires k <= 12
    ensures r <= 12 && (r < 12 ==> NAMES[r] == name)
    decreases 12 - k
  {
    if k == 12 then 12 else if NAMES[k] == name then k else FieldFrom(name, k + 1)
  }

  /** One part of the text, the j-th: by name, or by position when there is no
      value. None where the original is undefined. */
  function Insert(d: Desc, part: string, j: nat): Option<Desc> {
    var kv := Split(part, '=');
    if |kv| == 0 then None
    else if |kv| == 1 then
      if j < 12 then Some(d[j := kv[0]]) else None
    else
      var k := FieldOf(kv[0]);
      if k < 12 then Some(d[k := kv[1]]) else None
  }

  function InsertAll(d: Desc, parts: seq<string>, j: nat): Option<Desc>
    requires j <= |parts|
    decreases |parts| - j
  {
    if j == |parts| then Some(d)
    else
      var e := Insert(d, parts[j], j);
      if e.None? then None else InsertAll(e.value, parts, j + 1)
  }

  /** _fill_wildcards: a field that still has its own name is a wildcard. */
  function FillWildcards(d: Desc): Desc {
    seq(12, i requires 0 <= i < 12 => if d[i] == NAMES[i] then "*" else d[i])
  }

  /** The constructor for one line of text. */
  function Parse(text: string): Option<Desc> {
    var d := InsertAll(NAMES, Split(text, ':'), 0);
    if d.None? then None else Some(FillWildcards(d.value))
  }

  /** Several lines, which overwrite each other field by field; positions start
      anew in each. */
  function InsertTexts(d: Desc, inputs: seq<string>, i: nat): Option<Desc>
    requires i <= |inputs|
    decreases |inputs| - i
  {
    if i == |inputs| then Some(d)
    else
      var e := InsertAll(d, Split(inputs[i], ':'), 0);
      if e.None? then None else InsertTexts(e.value, inputs, i + 1)
  }

  /** The constructor. */
  function Describe(inputs: seq<string>): Option<Desc> {
    var d := InsertTexts(NAMES, inputs, 0);
    if d.None? then None else Some(FillWildcards(d.value))
  }

  lemma DescribeOne(text: string)
    ensures Describe([text]) == Parse(text)
  {
    var e := InsertAll(NAMES, Split(text, ':'), 0);
    if e.Some? {
      assert InsertTexts(e.value, [text], 1) == Some(e.value);
    }
  }

  method FillRest(d: Desc) returns (desc: Desc)
    ensures desc == FillWildcards(d)
  {
    desc := d;
    for i := 0 to 12
      invariant forall k | 0 <= k < 12 :: desc[k] == if k < i && d[k] == NAMES[k] then "*" else d[k]
    {
      if desc[i] == NAMES[i] {
        desc := desc[i := "*"];
      }
    }
  }

  method Construct(inputs: seq<string>) returns (d: Option<Desc>)
    ensures d == Describe(inputs)
  {
    hide Split, FieldOf, FillWildcards;
    var desc: Desc := NAMES;
    for i := 0 to |inputs|
      invariant InsertTexts(desc, inputs, i) == InsertTexts(NAMES, inputs, 0)
    {
      var parts := Split(inputs[i], ':');
      ghost var was := desc;
      for j := 0 to |parts|
        invariant InsertAll(desc, parts, j) == InsertAll(was, parts, 0)
      {
        var keyval := Split(parts[j], '=');
        if |keyval| == 0 {
          return None;
        } else if |keyval| == 1 {
          if j >= 12 {
            return None;
          }
          desc := desc[j := keyval[0]];
        } else {
          var k := FieldOf(keyval[0]);
          if k == 12 {
            return None;
          }
          desc := desc[k := keyval[1]];
        }
      }
    }
    var filled := FillRest(desc);
    d := Some(filled);
  }

  // ---- printing ----

  function Part(d: Desc, k: nat): string
    requires k < 12
  {
    NAMES[k] + "=" + d[k]
  }

  function Join(parts: seq<string>): string {
    if parts == [] then "" else if |parts| == 1 then parts[0] else parts[0] + ":" + Join(parts[1..])
  }

  function Parts(d: Desc): seq<string> {
    seq(9, i requires 0 <= i < 9 => Part(d, PRINTED[i]))
  }

  function Stringify(d: Desc): string {
    Join(Parts(d))
  }

  /** The nine parts of a description's text. */
  lemma PartsAre(d: Desc)
    ensures |Parts(d)| == 9
    ensures Parts(d)[0] == "hw_vid=" + d[0] && Parts(d)[1] == "hw_pid=" + d[1]
    ensures Parts(d)[2] == "hw_ss_vid=" + d[2] && Parts(d)[3] == "hw_ss_pid=" + d[3]
    ensures Parts(d)[4] == "sw_vid=" + d[4] && Parts(d)[5] == "sw_pid=" + d[5]
    ensures Parts(d)[6] == "sw_fid=" + d[7] && Parts(d)[7] == "sw_clid=" + d[6]
    ensures Parts(d)[8] == "sw_verid=" + d[8]
  {
    assert "hw_vid" + "=" == "hw_vid=" && "hw_pid" + "=" == "hw_pid=" && "hw_ss_vid" + "=" == "hw_ss_vid=";
    assert "hw_ss_pid" + "=" == "hw_ss_pid=" && "sw_vid" + "=" == "sw_vid=" && "sw_pid" + "=" == "sw_pid=";
    assert "sw_fid" + "=" == "sw_fid=" && "sw_clid" + "=" == "sw_clid=" && "sw_verid" + "=" == "sw_verid=";
  }

  // ---- what splitting and parsing mean ----

  lemma SplitAt(part: string, i: nat, c: char)
    requires part != "" && i == Cut(part, c)
    ensures i <= |part| && (i == |part| ==> Split(part, c) == [part])
    ensures i < |part| ==>
      part == part[..i] + [c] + part[i + 1..]
      && Split(part, c) == [part[..i]] + Split(part[i + 1..], c)
  {
    hide Cut, Free;
  }

  /** Splitting takes a text apart at its delimiters, and nothing is lost but one
      delimiter at the very end. */
  lemma {:induction false} JoinSplit(s: string)
    requires s != ""
    ensures Split(s, ':') != [] && s == Join(Split(s, ':')) + if s[|s| - 1] == ':' then ":" else ""
    decreases |s|
  {
    hide Split, Join, Free, Cut;
    var i := Cut(s, ':');
    SplitAt(s, i, ':');
    var parts := Split(s, ':');
    JoinStep(parts);
    if i < |s| {
      var rest := s[i + 1..];
      assert parts[1..] == Split(rest, ':');
      if rest == "" {
        SplitNothing();
      } else {
        JoinSplit(rest);
        assert rest[|rest| - 1] == s[|s| - 1];
        assert s[..i] + [':'] + rest == s[..i] + ":" + rest;
      }
    } else {
      CutEnds(s, i);
    }
  }

  /** Joining puts a colon between one part and the next. */
  lemma JoinStep(parts: seq<string>)
    requires parts != []
    ensures Join(parts) == if |parts| == 1 then parts[0] else parts[0] + ":" + Join(parts[1..])
  {
  }

  lemma SplitNothing()
    ensures Split("", ':') == []
  {
  }

  lemma CutEnds(s: string, i: nat)
    requires s != "" && i == Cut(s, ':') == |s|
    ensures s[|s| - 1] != ':'
  {
    hide Cut;
    assert s[..i][|s| - 1] == s[|s| - 1];
  }

  // ---- exactly which descriptions survive ----

  /** A value that text can carry for field k. */
  predicate Carried(d: Desc, k: nat)
    requires k < 12
  {
    d[k] != "" && Free(d[k], ':') && Free(d[k], '=') && d[k] != NAMES[k]
  }

  predicate Survives(d: Desc) {
    (forall k | 0 <= k < 9 :: Carried(d, k)) && d[9] == "*" && d[10] == "*" && d[11] == "*"
  }

  lemma {:induction false} CutFree(s: string, c: char, rest: string)
    requires Free(s, c)
    ensures Cut(s + [c] + rest, c) == |s|
  {
    var t := s + [c] + rest;
    if s != "" {
      assert t[1..] == s[1..] + [c] + rest;
      CutFree(s[1..], c, rest);
    }
  }

  lemma {:induction false} CutAll(s: string, c: char)
    requires Free(s, c)
    ensures Cut(s, c) == |s|
  {
    if s != "" {
      CutAll(s[1..], c);
    }
  }

  /** Splitting what was joined, if no part is empty at the end or has a
      delimiter in it. */
  lemma {:induction false} SplitJoin(parts: seq<string>)
    requires forall i | 0 <= i < |parts| :: parts[i] != "" && Free(parts[i], ':')
    ensures Split(Join(parts), ':') == parts
  {
    if |parts| == 1 {
      CutAll(parts[0], ':');
    } else if |parts| > 1 {
      var t := parts[0] + ":" + Join(parts[1..]);
      assert t == parts[0] + [':'] + Join(parts[1..]);
      CutFree(parts[0], ':', Join(parts[1..]));
      assert t[..|parts[0]|] == parts[0] && t[|parts[0]| + 1..] == Join(parts[1..]);
      SplitJoin(parts[1..]);
      assert [parts[0]] + parts[1..] == parts;
    }
  }

  lemma SplitPart(name: string, value: string)
    requires name != "" && Free(name, '=') && Free(value, '=')
    ensures Split(name + "=" + value, '=') == if value == "" then [name] else [name, value]
  {
    var s := name + "=" + value;
    assert s == name + ['='] + value;
    CutFree(name, '=', value);
    assert s[..|name|] == name && s[|name| + 1..] == value;
    if value != "" {
      CutAll(value, '=');
    }
  }

  lemma NamesFree(k: nat)
    requires k < 12
    ensures NAMES[k] != "" && NAMES[k] != "*" && Free(NAMES[k], ':') && Free(NAMES[k], '=')
    ensures FieldOf(NAMES[k]) == k
  {
    NamesDiffer(k);
    FieldFound(k, 0);
  }

  lemma NamesDiffer(k: nat)
    requires k < 12
    ensures forall j | 0 <= j < k :: NAMES[j] != NAMES[k]
  {
    forall j | 0 <= j < k
      ensures NAMES[j] != NAMES[k]
    {
      var a, b := NAMES[j], NAMES[k];
      assert |a| != |b| || a[0] != b[0] || a[3] != b[3] || (|a| > 6 && a[6] != b[6]);
    }
  }

  lemma {:induction false} FieldFound(k: nat, j: nat)
    requires j <= k < 12 && forall i | 0 <= i < k :: NAMES[i] != NAMES[k]
    ensures FieldFrom(NAMES[k], j) == k
    decreases k - j
  {
    if j < k {
      FieldFound(k, j + 1);
    }
  }

  /** What a printed field does when it is read back. */
  lemma InsertPart(d: Desc, e: Desc, k: nat, j: nat)
    requires k < 12 && j < 12 && Free(d[k], '=')
    ensures Insert(e, Part(d, k), j) == Some(if d[k] == "" then e[j := NAMES[k]] else e[k := d[k]])
  {
    NamesFree(k);
    SplitPart(NAMES[k], d[k]);
  }

  /** The description read from the first j printed fields of d. */
  ghost predicate ReadSoFar(d: Desc, e: Desc, j: nat)
    requires j <= 9
  {
    && (forall i | 0 <= i < j :: e[PRINTED[i]] == d[PRINTED[i]])
    && (forall i | j <= i < 9 :: e[PRINTED[i]] == NAMES[PRINTED[i]])
    && e[9..] == NAMES[9..]
  }

  lemma {:induction false} ReadsBack(d: Desc, e: Desc, j: nat) returns (f: Desc)
    requires forall k | 0 <= k < 9 :: d[k] != "" && Free(d[k], '=')
    requires j <= 9 && ReadSoFar(d, e, j)
    ensures InsertAll(e, Parts(d), j) == Some(f) && ReadSoFar(d, f, 9)
    decreases 9 - j
  {
    if j == 9 {
      f := e;
    } else {
      InsertPart(d, e, PRINTED[j], j);
      f := ReadsBack(d, e[PRINTED[j] := d[PRINTED[j]]], j + 1);
    }
  }

  lemma SplitPrinted(d: Desc)
    requires forall k | 0 <= k < 9 :: Free(d[k], ':')
    ensures Split(Stringify(d), ':') == Parts(d)
  {
    forall i | 0 <= i < 9
      ensures Parts(d)[i] != "" && Free(Parts(d)[i], ':')
    {
      NamesFree(PRINTED[i]);
    }
    SplitJoin(Parts(d));
  }

  /** Printing what survives and reading it gives it back. */
  lemma SurvivorsComeBack(d: Desc)
    requires Survives(d)
    ensures Parse(Stringify(d)) == Some(d)
  {
    hide Survives, Carried, Split, InsertAll, Parts, FillWildcards, ReadSoFar;
    CarriedMeans(d);
    SplitPrinted(d);
    NothingRead(d);
    var f := ReadsBack(d, NAMES, 0);
    Filled(d, f);
  }

  lemma CarriedMeans(d: Desc)
    requires Survives(d)
    ensures forall k | 0 <= k < 9 :: d[k] != "" && Free(d[k], ':') && Free(d[k], '=') && d[k] != NAMES[k]
    ensures forall k | 9 <= k < 12 :: d[k] == "*"
  {
    forall k | 0 <= k < 9
      ensures d[k] != "" && Free(d[k], ':') && Free(d[k], '=') && d[k] != NAMES[k]
    {
      assert Carried(d, k);
    }
  }

  lemma NothingRead(d: Desc)
    ensures ReadSoFar(d, NAMES, 0)
  {
  }

  lemma Filled(d: Desc, f: Desc)
    requires ReadSoFar(d, f, 9)
    requires forall k | 0 <= k < 9 :: d[k] != NAMES[k]
    requires forall k | 9 <= k < 12 :: d[k] == "*"
    ensures FillWildcards(f) == d
  {
    forall k | 0 <= k < 12
      ensures FillWildcards(f)[k] == d[k]
    {
      if k < 9 {
        var i := if k == 6 then 7 else if k == 7 then 6 else k;
        assert PRINTED[i] == k && f[PRINTED[i]] == d[PRINTED[i]];
      } else {
        assert f[9..][k - 9] == NAMES[9..][k - 9];
      }
    }
  }

  // ---- what every field of a parsed line is ----

  /** The part gives field k this value by its name: the value is what stands
      behind the first `=`, up to another one. */
  ghost predicate Named(part: string, k: nat, v: string)
    requires k < 12
  {
    exists more :: more != "" && part == NAMES[k] + "=" + more && v == more[..Cut(more, '=')]
  }

  /** The part is a value alone. */
  predicate Alone(part: string, v: string) {
    part != "" && Free(v, '=') && (part == v || part == v + "=")
  }

  /** The part at place j gives field k this value, by name or by its place. */
  ghost predicate Gives(part: string, j: nat, k: nat, v: string) {
    k < 12 && (Named(part, k, v) || (j == k && Alone(part, v)))
  }

  ghost predicate Mentions(part: string, j: nat, k: nat) {
    exists v :: Gives(part, j, k, v)
  }

  lemma SplitNamed(name: string, more: string)
    requires Free(name, '=') && more != ""
    ensures var kv := Split(name + "=" + more, '=');
      |kv| >= 2 && kv[0] == name && kv[1] == more[..Cut(more, '=')]
  {
    var part := name + "=" + more;
    assert part == name + ['='] + more;
    CutFree(name, '=', more);
    assert part[..|name|] == name && part[|name| + 1..] == more;
    SplitAt(part, |name|, '=');
    SplitAt(more, Cut(more, '='), '=');
    assert more[..|more|] == more;
  }

  lemma SplitAlone(part: string, v: string)
    requires Alone(part, v)
    ensures Split(part, '=') == [v]
  {
    if part == v {
      CutAll(v, '=');
      SplitAt(part, |v|, '=');
    } else {
      assert part == v + ['='] + "";
      CutFree(v, '=', "");
      assert part[..|v|] == v && part[|v| + 1..] == "";
      SplitAt(part, |v|, '=');
    }
  }

  lemma GivesInsert(d: Desc, part: string, j: nat, k: nat, v: string)
    requires Gives(part, j, k, v)
    ensures Insert(d, part, j) == Some(d[k := v])
  {
    hide FieldOf, Split, Cut, Free;
    if Named(part, k, v) {
      var more :| more != "" && part == NAMES[k] + "=" + more && v == more[..Cut(more, '=')];
      NamesFree(k);
      SplitNamed(NAMES[k], more);
    } else {
      SplitAlone(part, v);
    }
  }

  /** A part that is understood gives one value to one field. */
  lemma InsertGives(d: Desc, part: string, j: nat) returns (k: nat, v: string)
    requires Insert(d, part, j).Some?
    ensures Gives(part, j, k, v) && Insert(d, part, j) == Some(d[k := v])
  {
    var kv := Split(part, '=');
    var i := Cut(part, '=');
    SplitAt(part, i, '=');
    if |kv| == 1 {
      k, v := j, kv[0];
      assert part[..i] + "=" + "" == part[..i] + "=";
    } else {
      var more := part[i + 1..];
      SplitAt(more, Cut(more, '='), '=');
      assert more[..|more|] == more;
      k, v := FieldOf(kv[0]), kv[1];
      assert more != "" && part == NAMES[k] + "=" + more && v == more[..Cut(more, '=')];
    }
  }

  /** The last part that mentions field k gives it v. */
  ghost predicate LastGives(parts: seq<string>, l: nat, k: nat, v: string) {
    l < |parts| && Gives(parts[l], l, k, v) && forall m: nat | l < m < |parts| :: !Mentions(parts[m], m, k)
  }

  ghost predicate NoneGives(parts: seq<string>, from: nat, k: nat) {
    forall m: nat | from <= m < |parts| :: !Mentions(parts[m], m, k)
  }

  lemma {:induction false} FieldsAre(d: Desc, parts: seq<string>, j: nat, k: nat)
    requires j <= |parts| && k < 12 && InsertAll(d, parts, j).Some?
    ensures var e := InsertAll(d, parts, j).value;
      || (exists l: nat :: l >= j && LastGives(parts, l, k, e[k]))
      || (NoneGives(parts, j, k) && e[k] == d[k])
    decreases |parts| - j
  {
    hide Gives, Insert;
    if j < |parts| {
      var k0, v := InsertGives(d, parts[j], j);
      var f := d[k0 := v];
      FieldsAre(f, parts, j + 1, k);
      if NoneGives(parts, j + 1, k) {
        if k == k0 {
          assert LastGives(parts, j, k, v);
        } else {
          NotMentioned(parts[j], j, k0, v, k);
        }
      }
    }
  }

  lemma FieldBelow(part: string, j: nat, k: nat, v: string)
    requires Gives(part, j, k, v)
    ensures k < 12
  {
  }

  lemma OnlyOne(part: string, j: nat, k: nat, v: string, l: nat, u: string)
    requires Gives(part, j, k, v) && Gives(part, j, l, u)
    ensures k == l
  {
    hide Gives, Insert;
    FieldBelow(part, j, k, v);
    FieldBelow(part, j, l, u);
    var e: Desc := seq(12, _ => v + "x");
    assert |e[k]| == |v| + 1;
    GivesInsert(e, part, j, k, v);
    GivesInsert(e, part, j, l, u);
    SamePlace(e, k, v, l, u);
  }

  lemma SamePlace(e: Desc, k: nat, v: string, l: nat, u: string)
    requires k < 12 && l < 12 && e[k := v] == e[l := u] && e[k] != v
    ensures k == l
  {
    assert e[k := v][k] == v;
  }

  lemma NotMentioned(part: string, j: nat, k: nat, v: string, l: nat)
    requires Gives(part, j, k, v) && k != l
    ensures !Mentions(part, j, l)
  {
    hide Gives;
    if u :| Gives(part, j, l, u) {
      OnlyOne(part, j, k, v, l, u);
    }
  }

  /** Every field of a parsed line: what the last part that mentions it gives,
      or a wildcard if none does or if it is given its own name. */
  lemma ParseMeans(text: string, k: nat)
    requires k < 12 && Parse(text).Some?
    ensures var parts, value := Split(text, ':'), Parse(text).value[k];
      || (exists l: nat, v :: LastGives(parts, l, k, v) && value == if v == NAMES[k] then "*" else v)
      || (NoneGives(parts, 0, k) && value == "*")
  {
    FieldsAre(NAMES, Split(text, ':'), 0, k);
  }

  /** With one more line: what the last part of it that mentions the field
      gives, or what the lines before it give. */
  lemma DescribeMeans(inputs: seq<string>, line: string, k: nat)
    requires k < 12 && Describe(inputs + [line]).Some?
    ensures Describe(inputs).Some?
    ensures var parts, value := Split(line, ':'), Describe(inputs + [line]).value[k];
      || (exists l: nat, v :: LastGives(parts, l, k, v) && value == if v == NAMES[k] then "*" else v)
      || (NoneGives(parts, 0, k) && value == Describe(inputs).value[k])
  {
    OneMoreText(NAMES, inputs, line, 0);
    FieldsAre(InsertTexts(NAMES, inputs, 0).value, Split(line, ':'), 0, k);
  }

  lemma {:induction false} OneMoreText(d: Desc, inputs: seq<string>, line: string, i: nat)
    requires i <= |inputs|
    ensures var before := InsertTexts(d, inputs, i);
      InsertTexts(d, inputs + [line], i)
      == if before.None? then None else InsertAll(before.value, Split(line, ':'), 0)
    decreases |inputs| - i
  {
    var more := inputs + [line];
    if i < |inputs| {
      var e := InsertAll(d, Split(inputs[i], ':'), 0);
      if e.Some? {
        OneMoreText(e.value, inputs, line, i + 1);
      }
    } else {
      var e := InsertAll(d, Split(line, ':'), 0);
      if e.Some? {
        assert InsertTexts(e.value, more, |more|) == e;
      }
    }
  }

  lemma NothingDescribed(k: nat)
    requires k < 12
    ensures Describe([]).Some? && Describe([]).value[k] == "*"
  {
  }

  // ---- nothing else does ----

  lemma {:induction false} SplitKeepsFree(s: string, c: char, x: char)
    ensures forall i | 0 <= i < |Split(s, c)| :: Free(Split(s, c)[i], c)
    ensures Free(s, x) ==> forall i | 0 <= i < |Split(s, c)| :: Free(Split(s, c)[i], x)
    decreases |s|
  {
    if s != "" {
      var k := Cut(s, c);
      if k < |s| {
        SplitKeepsFree(s[k + 1..], c, x);
      } else {
        assert s[..k] == s;
      }
    }
  }

  ghost predicate Clean(d: Desc) {
    forall k | 0 <= k < 12 :: Free(d[k], ':') && Free(d[k], '=')
  }

  lemma {:induction false} InsertAllClean(e: Desc, parts: seq<string>, j: nat)
    requires Clean(e) && j <= |parts| && forall i | 0 <= i < |parts| :: Free(parts[i], ':')
    ensures InsertAll(e, parts, j).Some? ==> Clean(InsertAll(e, parts, j).value)
    decreases |parts| - j
  {
    if j < |parts| {
      SplitKeepsFree(parts[j], '=', ':');
      var f := Insert(e, parts[j], j);
      if f.Some? {
        InsertAllClean(f.value, parts, j + 1);
      }
    }
  }

  lemma {:induction false} InsertTextsClean(e: Desc, inputs: seq<string>, i: nat)
    requires Clean(e) && i <= |inputs|
    ensures InsertTexts(e, inputs, i).Some? ==> Clean(InsertTexts(e, inputs, i).value)
    decreases |inputs| - i
  {
    hide Clean;
    if i < |inputs| {
      var parts := Split(inputs[i], ':');
      SplitKeepsFree(inputs[i], ':', ':');
      InsertAllClean(e, parts, 0);
      var f := InsertAll(e, parts, 0);
      if f.Some? {
        InsertTextsClean(f.value, inputs, i + 1);
      }
    }
  }

  /** Whatever lines are read, no value has a delimiter in it or is its field's
      own name. */
  lemma ParsedIsClean(inputs: seq<string>)
    requires Describe(inputs).Some?
    ensures Clean(Describe(inputs).value) && forall k | 0 <= k < 12 :: Describe(inputs).value[k] != NAMES[k]
  {
    forall k | 0 <= k < 12
      ensures Free(NAMES[k], ':') && Free(NAMES[k], '=') && NAMES[k] != "*"
    {
      NamesFree(k);
    }
    InsertTextsClean(NAMES, inputs, 0);
  }

  lemma {:induction false} NothingEmpty(d: Desc, e: Desc, j: nat)
    requires (forall k | 0 <= k < 9 :: Free(d[k], '=')) && j <= 9 && forall k | 0 <= k < 12 :: e[k] != ""
    ensures InsertAll(e, Parts(d), j).Some? && forall k | 0 <= k < 12 :: InsertAll(e, Parts(d), j).value[k] != ""
    decreases 9 - j
  {
    if j < 9 {
      var p := PRINTED[j];
      NamesFree(p);
      InsertPart(d, e, p, j);
      NothingEmpty(d, if d[p] == "" then e[j := NAMES[p]] else e[p := d[p]], j + 1);
    }
  }

  /** A description comes back from its text exactly if its nine printed values
      are not empty, have no delimiter in them and are not their field's own
      name, and the three fields that are not printed are wildcards. */
  lemma SurvivesExactly(d: Desc)
    ensures Parse(Stringify(d)) == Some(d) <==> Survives(d)
  {
    if Survives(d) {
      SurvivorsComeBack(d);
    }
    if Parse(Stringify(d)) == Some(d) {
      DescribeOne(Stringify(d));
      ParsedIsClean([Stringify(d)]);
      SplitPrinted(d);
      forall k | 0 <= k < 12
        ensures NAMES[k] != ""
      {
        NamesFree(k);
      }
      NothingEmpty(d, NAMES, 0);
      var f := ReadsBack(d, NAMES, 0);
      forall k | 9 <= k < 12
        ensures d[k] == "*"
      {
        assert f[9..][k - 9] == NAMES[9..][k - 9];
      }
    }
  }

  /** A line with an empty value: the description has it, its text does not
      give it back. */
  lemma EmptyValueIsLost()
    ensures var d := Parse("hw_vid==");
      d.Some? && d.value[0] == "" && Parse(Stringify(d.value)) != d
  {
    var line := "hw_vid==";
    assert line == NAMES[0] + ['='] + "=";
    NamesFree(0);
    CutFree(NAMES[0], '=', "=");
    assert line[..6] == NAMES[0] && line[7..] == "=";
    assert Split("=", '=') == [""] by {
      assert "="[..0] == "" && "="[1..] == "";
    }
    assert Split(line, '=') == [NAMES[0]] + [""];
    CutAll(line, ':');
    assert Split(line, ':') == [line];
    var d := Parse(line).value;
    assert !Carried(d, 0);
    SurvivesExactly(d);
  }

  // ---- the registry ----

  ghost predicate Distinct(caches: seq<Desc>) {
    forall i, j | 0 <= i < j < |caches| :: caches[i] != caches[j]
  }

  /** add_resource with a parsed description: nothing if it is there already. */
  function Add(caches: seq<Desc>, d: Desc): seq<Desc> {
    if d in caches then caches else caches + [d]
  }

  /** add_resources; None where parsing a line is undefined. */
  function AddAll(caches: seq<Desc>, lines: seq<string>): Option<seq<Desc>>
    decreases |lines|
  {
    if lines == [] then Some(caches)
    else
      var d := Parse(lines[0]);
      if d.None? then None else AddAll(Add(caches, d.value), lines[1..])
  }

  function Manifest(caches: seq<Desc>): seq<string> {
    seq(|caches|, i requires 0 <= i < |caches| => Stringify(caches[i]))
  }

  lemma {:induction false} AddAllDistinct(caches: seq<Desc>, lines: seq<string>)
    requires Distinct(caches)
    ensures AddAll(caches, lines).Some? ==>
      Distinct(AddAll(caches, lines).value) && caches <= AddAll(caches, lines).value
    decreases |lines|
  {
    if lines != [] {
      var d := Parse(lines[0]);
      if d.Some? {
        AddAllDistinct(Add(caches, d.value), lines[1..]);
      }
    }
  }

  ghost predicate AllSurvive(caches: seq<Desc>) {
    forall i | 0 <= i < |caches| :: Survives(caches[i])
  }

  /** Loading the rest of a manifest on top of what came before it. */
  lemma {:induction false} LoadRest(before: seq<Desc>, rest: seq<Desc>)
    requires Distinct(before + rest) && AllSurvive(rest)
    ensures AddAll(before, Manifest(rest)) == Some(before + rest)
    decreases |rest|
  {
    hide Parse, Stringify, Survives;
    if rest == [] {
      assert before + rest == before;
    } else {
      assert Survives(rest[0]);
      SurvivorsComeBack(rest[0]);
      assert Manifest(rest)[0] == Stringify(rest[0]) && Manifest(rest)[1..] == Manifest(rest[1..]);
      forall i | 0 <= i < |before|
        ensures before[i] != rest[0]
      {
        assert (before + rest)[i] == before[i] && (before + rest)[|before|] == rest[0];
      }
      assert before + [rest[0]] + rest[1..] == before + rest;
      LoadRest(before + [rest[0]], rest[1..]);
    }
  }

  lemma {:induction false} LoadAgain(caches: seq<Desc>, rest: seq<Desc>)
    requires AllSurvive(rest) && forall i | 0 <= i < |rest| :: rest[i] in caches
    ensures AddAll(caches, Manifest(rest)) == Some(caches)
    decreases |rest|
  {
    hide Parse, Stringify, Survives;
    if rest != [] {
      assert Survives(rest[0]);
      SurvivorsComeBack(rest[0]);
      assert Manifest(rest)[0] == Stringify(rest[0]) && Manifest(rest)[1..] == Manifest(rest[1..]);
      LoadAgain(caches, rest[1..]);
    }
  }

  lemma {:induction false} AddAllLength(caches: seq<Desc>, lines: seq<string>)
    ensures AddAll(caches, lines).Some? ==> |AddAll(caches, lines).value| <= |caches| + |lines|
    decreases |lines|
  {
    hide Parse;
    if lines != [] && Parse(lines[0]).Some? {
      AddAllLength(Add(caches, Parse(lines[0]).value), lines[1..]);
    }
  }

  /** If every line adds a description, these are the lines' descriptions. */
  lemma {:induction false} EveryLineAdds(caches: seq<Desc>, lines: seq<string>, after: seq<Desc>)
    requires AddAll(caches, lines) == Some(after) && |after| == |caches| + |lines|
    ensures caches <= after && forall i | 0 <= i < |lines| :: Parse(lines[i]) == Some(after[|caches| + i])
    decreases |lines|
  {
    hide Parse;
    if lines != [] {
      var d, rest := Parse(lines[0]).value, lines[1..];
      AddAllLength(Add(caches, d), rest);
      EveryLineAdds(caches + [d], rest, after);
      assert forall i | 0 < i < |lines| :: lines[i] == rest[i - 1];
    }
  }

  lemma ReproducedSurvive(caches: seq<Desc>)
    requires AddAll([], Manifest(caches)) == Some(caches)
    ensures Distinct(caches) && AllSurvive(caches)
  {
    hide Parse, Stringify, Survives, Distinct, AddAll;
    NoneTwice();
    AddAllDistinct([], Manifest(caches));
    EveryLineAdds([], Manifest(caches), caches);
    forall i | 0 <= i < |caches|
      ensures Survives(caches[i])
    {
      assert Parse(Manifest(caches)[i]) == Some(caches[i]);
      SurvivesExactly(caches[i]);
    }
  }

  lemma NoneTwice()
    ensures Distinct([])
  {
  }

  /** Loading a registry's manifest into an empty registry gives the same
      sequence of descriptions if and only if none is in it twice and each
      survives its text; then loading it again changes nothing. */
  lemma ManifestReproduces(caches: seq<Desc>)
    ensures AddAll([], Manifest(caches)) == Some(caches) <==> Distinct(caches) && AllSurvive(caches)
    ensures Distinct(caches) && AllSurvive(caches) ==> AddAll(caches, Manifest(caches)) == Some(caches)
  {
    hide Parse, Stringify, Survives, Distinct, AddAll;
    if Distinct(caches) && AllSurvive(caches) {
      assert [] + caches == caches;
      LoadRest([], caches);
      LoadAgain(caches, caches);
    }
    if AddAll([], Manifest(caches)) == Some(caches) {
      ReproducedSurvive(caches);
    }
  }

  /** The registry, changed in place. */
  class CacheRegistry {
    var caches: seq<Desc>

    ghost predicate Valid()
      reads this
    {
      Distinct(caches)
    }

    constructor ()
      ensures Valid() && caches == []
    {
      caches := [];
    }

    method ExactExists(d: Desc) returns (found: bool)
      ensures found <==> d in caches
    {
      for i := 0 to |caches|
        invariant d !in caches[..i]
      {
        if caches[i] == d {
          return true;
        }
      }
      return false;
    }

    /** False where the original is undefined on the line. */
    method AddResource(line: string) returns (ok: bool)
      requires Valid()
      modifies this
      ensures Valid() && (ok <==> Parse(line).Some?)
      ensures caches == if ok then Add(old(caches), Parse(line).value) else old(caches)
    {
      DescribeOne(line);
      var d := Construct([line]);
      if d.None? {
        return false;
      }
      var found := ExactExists(d.value);
      if !found {
        caches := caches + [d.value];
      }
      ok := true;
    }

    method AddResources(lines: seq<string>) returns (ok: bool)
      requires Valid()
      modifies this
      ensures Valid() && (ok <==> AddAll(old(caches), lines).Some?)
      ensures ok ==> Some(caches) == AddAll(old(caches), lines)
    {
      for i := 0 to |lines|
        invariant Valid() && AddAll(caches, lines[i..]) == AddAll(old(caches), lines)
      {
        assert lines[i..][0] == lines[i] && lines[i..][1..] == lines[i + 1..];
        var added := AddResource(lines[i]);
        if !added {
          return false;
        }
      }
      ok := true;
    }

    method DumpManifest() returns (lines: seq<string>)
      ensures lines == Manifest(caches)
    {
      lines := [];
      for i := 0 to |caches|
        invariant lines == Manifest(caches[..i])
      {
        lines := lines + [Stringify(caches[i])];
      }
      assert caches[..|caches|] == caches;
    }
  }
}
