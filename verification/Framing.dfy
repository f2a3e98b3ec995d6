/** Message framing: zmsg_builder appends type/length/value sections and
    six-frame memory blocks to a multipart message, zmsg_viewer finds the i-th
    of them by popping frames off a copy. Frames are typed; a pop of another
    type, or from an empty message, throws. */
module Framing {
  import opened Bytes

  datatype Frame =
    | Str(text: string)
    | U16(half: nat)
    | U64(long: nat)
    | I32(num: int)
    | Flag(bit: bool)
    | Mem(bytes: Text)

  type Message = seq<Frame>

  /** zmsg_section_type, the codes in use. */
  const STRING: nat := 0
  const ULONG: nat := 3
  const BOOL: nat := 6
  const INT: nat := 7
  const ZMSG: nat := 9

  /** The frame type of a section's values. */
  predicate IsValue(code: nat, f: Frame) {
    (code == STRING && f.Str?) || (code == ULONG && f.U64?) || (code == BOOL && f.Flag?) || (code == INT && f.I32?)
  }

  predicate AllValues(code: nat, values: seq<Frame>) {
    forall i | 0 <= i < |values| :: IsValue(code, values[i])
  }

  datatype Block = Block(sign: nat, kind: nat, size: nat, count: nat, bytes: Text)

  datatype Item = Section(code: nat, values: seq<Frame>) | Memory(block: Block)

  ghost predicate WellTyped(item: Item) {
    item.Section? ==> item.code != ZMSG && AllValues(item.code, item.values)
  }

  function Encode(item: Item): Message {
    match item
    case Section(code, values) => [U16(code), U64(|values|)] + values
    case Memory(b) => [U16(ZMSG), U64(b.count), U64(b.sign), U64(b.kind), U64(b.size), Mem(b.bytes)]
  }

  function EncodeAll(items: seq<Item>): Message {
    if items == [] then [] else Encode(items[0]) + EncodeAll(items[1..])
  }

  /** The frames on the wire, one by one: type, number of values, values. */
  lemma SectionFrames(code: nat, values: seq<Frame>)
    ensures var m := Encode(Section(code, values));
      && |m| == 2 + |values| && m[0] == U16(code) && m[1] == U64(|values|)
      && forall i | 0 <= i < |values| :: m[2 + i] == values[i]
  {
  }

  /** Type 9, then element count, sign, kind, element size and the bytes. */
  lemma MemoryFrames(b: Block)
    ensures Encode(Memory(b)) == [U16(9), U64(b.count), U64(b.sign), U64(b.kind), U64(b.size), Mem(b.bytes)]
  {
  }

  /** What finalize appends. */
  const END: Message := [U16(0), U64(1), Str("END_COMMAND")]

  // ---- get_memblk ----

  /** The length read for a section is the number of frames that follow it; a
      block's own count takes a fifth frame. */
  function SkipItem(m: Message): Option<Message> {
    if |m| < 2 || !m[0].U16? || !m[1].U64? then None
    else
      var len := if m[0].half == ZMSG then 4 else m[1].long;
      if 2 + len > |m| then None else Some(m[2 + len..])
  }

  /** The frames of the section found, whatever its type. */
  function ReadBlock(m: Message): Option<Block> {
    if |m| < 6 || !m[0].U16? || !m[1].U64? || !m[2].U64? || !m[3].U64? || !m[4].U64? || !m[5].Mem? then None
    else Some(Block(m[2].long, m[3].long, m[4].long, m[1].long, m[5].bytes))
  }

  function BlockAt(m: Message, index: nat): Option<Block> {
    if index == 0 then ReadBlock(m)
    else
      var rest := SkipItem(m);
      if rest.None? then None else BlockAt(rest.value, index - 1)
  }

  method GetMemblk(msg: Message, header: nat, index: nat) returns (out: Option<Block>)
    ensures out == if header > |msg| then None else BlockAt(msg[header..], index)
  {
    if header > |msg| {
      return None;
    }
    var copy := msg[header..];
    var sectNum := index + 1;
    out := None;
    while sectNum > 0
      invariant 0 <= sectNum <= index + 1
      invariant sectNum > 0 ==> BlockAt(copy, sectNum - 1) == BlockAt(msg[header..], index)
      invariant sectNum == 0 ==> out == BlockAt(msg[header..], index)
    {
      var valid := sectNum == 1;
      if |copy| == 0 || !copy[0].U16? {
        return None;
      }
      var mtype := copy[0].half;
      if |copy| < 2 || !copy[1].U64? {
        return None;
      }
      var vectorSize := copy[1].long;
      var len := if mtype == ZMSG then 4 else vectorSize;
      if !valid {
        if 2 + len > |copy| {
          return None;
        }
        copy := copy[2 + len..];
      } else {
        if |copy| < 6 || !copy[2].U64? || !copy[3].U64? || !copy[4].U64? || !copy[5].Mem? {
          return None;
        }
        out := Some(Block(copy[2].long, copy[3].long, copy[4].long, vectorSize, copy[5].bytes));
      }
      sectNum := sectNum - 1;
    }
  }

  // ---- get_section ----

  /** get_section takes a block's count for the number of frames to skip. */
  function SkipSection(m: Message): Option<Message> {
    if |m| < 2 || !m[0].U16? || !m[1].U64? || 2 + m[1].long > |m| then None else Some(m[2 + m[1].long..])
  }

  /** The values, or nothing at all when the type is not the one asked for. */
  function ReadSection(m: Message, code: nat): Option<seq<Frame>> {
    if |m| < 2 || !m[0].U16? || !m[1].U64? then None
    else if m[0].half != code then Some([])
    else if 2 + m[1].long > |m| then None
    else
      var values := m[2..2 + m[1].long];
      if AllValues(code, values) then Some(values) else None
  }

  function SectionAt(m: Message, index: nat, code: nat): Option<seq<Frame>> {
    if index == 0 then ReadSection(m, code)
    else
      var rest := SkipSection(m);
      if rest.None? then None else SectionAt(rest.value, index - 1, code)
  }

  method GetSection(msg: Message, header: nat, index: nat, code: nat) returns (list: Option<seq<Frame>>)
    ensures list == if header > |msg| then None else SectionAt(msg[header..], index, code)
  {
    if header > |msg| {
      return None;
    }
    var copy := msg[header..];
    var sectNum := index + 1;
    list := Some([]);
    while sectNum > 0
      invariant 0 <= sectNum <= index + 1
      invariant sectNum > 0 ==> SectionAt(copy, sectNum - 1, code) == SectionAt(msg[header..], index, code)
      invariant sectNum == 0 ==> list == SectionAt(msg[header..], index, code)
    {
      var valid := sectNum == 1;
      if |copy| < 2 || !copy[0].U16? || !copy[1].U64? {
        return None;
      }
      var mtype, len := copy[0].half, copy[1].long;
      if !valid {
        if 2 + len > |copy| {
          return None;
        }
        copy := copy[2 + len..];
      } else if mtype == code {
        list := TakeValues(copy[2..], len, code);
        if 2 + len <= |copy| {
          assert copy[2..][..len] == copy[2..2 + len];
        }
      } else {
        list := Some([]);
      }
      sectNum := sectNum - 1;
    }
  }

  /** Popping len values of one type into a list. */
  method TakeValues(copy: Message, len: nat, code: nat) returns (list: Option<seq<Frame>>)
    ensures list == if len <= |copy| && AllValues(code, copy[..len]) then Some(copy[..len]) else None
  {
    var values := [];
    for i := 0 to len
      invariant i <= |copy| && values == copy[..i] && AllValues(code, values)
    {
      if i == |copy| {
        return None;
      }
      if !IsValue(code, copy[i]) {
        assert len <= |copy| ==> copy[..len][i] == copy[i];
        return None;
      }
      values := values + [copy[i]];
    }
    list := Some(values);
  }

  // ---- round trips ----

  lemma SkipEncoded(item: Item, rest: Message)
    requires WellTyped(item)
    ensures SkipItem(Encode(item) + rest) == Some(rest)
  {
    var m := Encode(item) + rest;
    var n := |Encode(item)|;
    assert m[0] == Encode(item)[0] && m[1] == Encode(item)[1];
    assert m[n..] == rest;
  }

  /** get_memblk finds the i-th item, a block, behind any sections and blocks. */
  lemma {:induction false} BlockRoundTrip(items: seq<Item>, rest: Message, i: nat)
    requires i < |items| && items[i].Memory? && forall j | 0 <= j < i :: WellTyped(items[j])
    ensures BlockAt(EncodeAll(items) + rest, i) == Some(items[i].block)
  {
    var tail := EncodeAll(items[1..]) + rest;
    assert EncodeAll(items) + rest == Encode(items[0]) + tail;
    if i > 0 {
      SkipEncoded(items[0], tail);
      BlockRoundTrip(items[1..], rest, i - 1);
    } else {
      var m := Encode(items[0]) + tail;
      assert forall j | 0 <= j < 6 :: m[j] == Encode(items[0])[j];
    }
  }

  /** An item that get_section skips properly: a section, or a block whose
      count happens to be the number of frames it should skip. */
  predicate SkipsRight(item: Item) {
    item.Section? || item.block.count == 4
  }

  lemma SkipSectionEncoded(item: Item, rest: Message)
    requires SkipsRight(item)
    ensures SkipSection(Encode(item) + rest) == Some(rest)
  {
    var m := Encode(item) + rest;
    var n := |Encode(item)|;
    assert m[0] == Encode(item)[0] && m[1] == Encode(item)[1];
    assert m[n..] == rest;
  }

  /** get_section finds the i-th item, a section of the type asked for, behind
      any sections, and behind blocks of four elements only. */
  lemma {:induction false} SectionRoundTrip(items: seq<Item>, rest: Message, i: nat)
    requires i < |items| && items[i].Section? && WellTyped(items[i])
    requires forall j | 0 <= j < i :: SkipsRight(items[j])
    ensures SectionAt(EncodeAll(items) + rest, i, items[i].code) == Some(items[i].values)
  {
    var tail := EncodeAll(items[1..]) + rest;
    assert EncodeAll(items) + rest == Encode(items[0]) + tail;
    if i > 0 {
      SkipSectionEncoded(items[0], tail);
      SectionRoundTrip(items[1..], rest, i - 1);
    } else {
      var m := Encode(items[0]) + tail;
      var n := |items[0].values|;
      assert m[0] == U16(items[0].code) && m[1] == U64(n);
      assert m[2..2 + n] == items[0].values;
    }
  }

  /** Asked for another type than the i-th item's, get_section gives no values
      and does not throw. */
  lemma {:induction false} OtherTypeGivesNothing(items: seq<Item>, rest: Message, i: nat, code: nat)
    requires i < |items| && code != (if items[i].Section? then items[i].code else ZMSG)
    requires forall j | 0 <= j < i :: SkipsRight(items[j])
    ensures SectionAt(EncodeAll(items) + rest, i, code) == Some([])
  {
    var tail := EncodeAll(items[1..]) + rest;
    assert EncodeAll(items) + rest == Encode(items[0]) + tail;
    if i > 0 {
      SkipSectionEncoded(items[0], tail);
      OtherTypeGivesNothing(items[1..], rest, i - 1, code);
    } else {
      var m := Encode(items[0]) + tail;
      assert m[0] == Encode(items[0])[0] && m[1] == Encode(items[0])[1];
    }
  }

  /** Behind a block of fewer elements get_section reads a frame of the block
      for a type and throws. */
  lemma ShortBlockHidesSections(b: Block, items: seq<Item>, rest: Message, code: nat)
    requires b.count < 4
    ensures SectionAt(EncodeAll([Memory(b)] + items) + rest, 1, code) == None
  {
    var e := Encode(Memory(b));
    assert ([Memory(b)] + items)[1..] == items;
    var m := EncodeAll([Memory(b)] + items) + rest;
    assert m == e + (EncodeAll(items) + rest);
    assert forall j | 0 <= j < 6 :: m[j] == e[j];
    assert m[2 + b.count..][0] == e[2 + b.count];
  }

  // ---- exactly when get_section works behind memory blocks ----

  /** get_section reads the section s that follows `items`. */
  predicate ReadsBehind(items: seq<Item>, s: Item, rest: Message)
    requires s.Section?
  {
    SectionAt(EncodeAll(items + [s]) + rest, |items|, s.code) == Some(s.values)
  }

  /** A section without values. */
  const BARE: Item := Section(ULONG, [])

  ghost predicate AllWellTyped(items: seq<Item>) {
    forall j | 0 <= j < |items| :: WellTyped(items[j])
  }

  ghost predicate AllSkipRight(items: seq<Item>) {
    forall j | 0 <= j < |items| :: SkipsRight(items[j])
  }

  /** No item starts at the next frame, so that nothing can be read. */
  predicate Astray(m: Message) {
    |m| > 0 ==> !m[0].U16?
  }

  lemma AstrayFails(m: Message, index: nat, code: nat)
    requires Astray(m)
    ensures SectionAt(m, index, code) == None
  {
  }

  /** Where get_section lands behind a block: skipping too few frames it is
      astray, skipping too many it is p frames into what follows. */
  lemma BlockSkips(b: Block, tail: Message)
    ensures var r := SkipSection(Encode(Memory(b)) + tail);
      if b.count < 4 then r.Some? && Astray(r.value)
      else var p := b.count - 4; if p <= |tail| then r == Some(tail[p..]) else r == None
  {
    var e := Encode(Memory(b));
    var m := e + tail;
    assert forall j | 0 <= j < 6 :: m[j] == e[j];
    if b.count < 4 {
      assert m[2 + b.count..][0] == e[2 + b.count];
    } else if b.count - 4 <= |tail| {
      assert m[2 + b.count..] == tail[b.count - 4..];
    }
  }

  /** With a wrong block, or with more to skip than there is, get_section does
      not read the bare section at the end. */
  lemma {:induction false} WrongBlockFails(items: seq<Item>, index: nat)
    requires AllWellTyped(items) && index >= |items| && (index == |items| ==> !AllSkipRight(items))
    ensures SectionAt(EncodeAll(items) + Encode(BARE), index, ULONG) == None
    decreases |items|, 0
  {
    hide SkipSection, ReadSection, Encode, WellTyped;
    var m := EncodeAll(items) + Encode(BARE);
    if items == [] {
      assert m == Encode(BARE) + [];
      SkipSectionEncoded(BARE, []);
      AstrayFails([], index - 1, ULONG);
    } else {
      var tail := EncodeAll(items[1..]) + Encode(BARE);
      assert m == Encode(items[0]) + tail;
      if SkipsRight(items[0]) {
        SkipSectionEncoded(items[0], tail);
        WrongBlockFails(items[1..], index - 1);
      } else {
        BlockSkips(items[0].block, tail);
        var r := SkipSection(m);
        if items[0].block.count < 4 {
          AstrayFails(r.value, index - 1, ULONG);
        } else if r.Some? {
          TooFarFails(items[1..], items[0].block.count - 4, index - 1);
        }
      }
    }
  }

  /** A start somewhere behind the first item's first frame is astray, or at an
      item with fewer of them left than there are to skip. */
  lemma {:induction false} TooFarFails(items: seq<Item>, p: nat, index: nat)
    requires AllWellTyped(items) && index >= |items| && 0 < p <= |EncodeAll(items) + Encode(BARE)|
    ensures SectionAt((EncodeAll(items) + Encode(BARE))[p..], index, ULONG) == None
    decreases |items|, 1
  {
    var m := EncodeAll(items) + Encode(BARE);
    if items == [] {
      AstrayFails(m[p..], index, ULONG);
    } else {
      var e := Encode(items[0]);
      var tail := EncodeAll(items[1..]) + Encode(BARE);
      assert m == e + tail;
      if p < |e| {
        InsideAstray(items[0], p);
        AstrayFails(m[p..], index, ULONG);
      } else if p == |e| {
        assert m[p..] == tail;
        WrongBlockFails(items[1..], index);
      } else {
        assert m[p..] == tail[p - |e|..];
        TooFarFails(items[1..], p - |e|, index);
      }
    }
  }

  lemma InsideAstray(item: Item, p: nat)
    requires WellTyped(item) && 0 < p < |Encode(item)|
    ensures !Encode(item)[p].U16?
  {
  }

  /** get_section finds every section that may follow `items`, whatever comes
      after it, if and only if every block among them has four elements. */
  lemma SectionsBehindExactly(items: seq<Item>)
    requires AllWellTyped(items)
    ensures (forall s: Item, rest: Message | s.Section? && WellTyped(s) :: ReadsBehind(items, s, rest))
       <==> (forall j | 0 <= j < |items| && items[j].Memory? :: items[j].block.count == 4)
  {
    if AllSkipRight(items) {
      forall s: Item, rest: Message | s.Section? && WellTyped(s)
        ensures ReadsBehind(items, s, rest)
      {
        forall j | 0 <= j < |items|
          ensures SkipsRight((items + [s])[j])
        {
          assert (items + [s])[j] == items[j];
        }
        SectionRoundTrip(items + [s], rest, |items|);
      }
    } else {
      WrongBlockFails(items, |items|);
      EncodeLast(items, BARE);
      assert EncodeAll(items + [BARE]) + [] == EncodeAll(items) + Encode(BARE);
      assert !ReadsBehind(items, BARE, []);
    }
  }

  lemma {:induction false} EncodeLast(items: seq<Item>, s: Item)
    ensures EncodeAll(items + [s]) == EncodeAll(items) + Encode(s)
  {
    if items == [] {
      assert [s][1..] == [] && items + [s] == [s];
    } else {
      assert (items + [s])[1..] == items[1..] + [s];
      EncodeLast(items[1..], s);
    }
  }

  // ---- the builder ----

  class ZmsgBuilder {
    var msg: Message

    constructor (header: Message)
      ensures msg == header
    {
      msg := header;
    }

    method AddArbitraryData(code: nat, value: Frame)
      modifies this
      ensures msg == old(msg) + Encode(Section(code, [value]))
    {
      msg := msg + [U16(code)];
      msg := msg + [U64(1)];
      msg := msg + [value];
      assert msg == old(msg) + Encode(Section(code, [value]));
    }

    /** Pushed in reverse, so that it reads the same as appended data. */
    method AddArbitraryDataTop(code: nat, value: Frame)
      modifies this
      ensures msg == Encode(Section(code, [value])) + old(msg)
    {
      msg := [value] + msg;
      msg := [U64(1)] + msg;
      msg := [U16(code)] + msg;
      assert msg == Encode(Section(code, [value])) + old(msg);
    }

    method AddSections(code: nat, values: seq<Frame>)
      modifies this
      ensures msg == old(msg) + Encode(Section(code, values))
    {
      msg := msg + [U16(code)];
      msg := msg + [U64(|values|)];
      for i := 0 to |values|
        invariant msg == old(msg) + [U16(code), U64(|values|)] + values[..i]
      {
        msg := msg + [values[i]];
      }
      assert msg == old(msg) + Encode(Section(code, values));
    }

    method AddMemblk(b: Block)
      modifies this
      ensures msg == old(msg) + Encode(Memory(b))
    {
      msg := msg + [U16(ZMSG)];
      msg := msg + [U64(b.count)];
      msg := msg + [U64(b.sign)];
      msg := msg + [U64(b.kind)];
      msg := msg + [U64(b.size)];
      msg := msg + [Mem(b.bytes)];
      assert msg == old(msg) + Encode(Memory(b));
    }

    /** Each is pushed on top of the one before. */
    method AddRawDataTop(names: seq<string>)
      modifies this
      ensures msg == seq(|names|, i requires 0 <= i < |names| => Str(names[|names| - 1 - i])) + old(msg)
    {
      for k := 0 to |names|
        invariant msg == seq(k, i requires 0 <= i < k => Str(names[k - 1 - i])) + old(msg)
      {
        msg := [Str(names[k])] + msg;
      }
    }

    method Finalize()
      modifies this
      ensures msg == old(msg) + [U16(0), U64(1), Str("END_COMMAND")]
    {
      msg := msg + [U16(0)];
      msg := msg + [U64(1)];
      msg := msg + [Str("END_COMMAND")];
      assert msg == old(msg) + END;
    }
  }
}
