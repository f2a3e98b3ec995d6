/** The way of a result from the virtualization agent to the client: each hop
    strips the envelope it was sent in and puts on the next one; the client then
    reads by fixed frame indices. And the way of the arguments forward. */
module ClientFrames {
  import opened Bytes
  import opened Framing

  /** The method names on the wire. */
  datatype Names = Names(nexRecv: string, accelRecv: string, clientRecv: string, clientResp: string,
      placeholder: string)

  /** What the client's compute object is given for one argument. */
  datatype Received = Received(length: nat, kind: nat, bytes: Text)

  /** pop_output hands out the arguments that the ushort get_size counts, the
      last of these first. */
  function Popped(outs: seq<Block>): (items: seq<Item>)
    ensures |items| == |outs| % 0x1_0000
    ensures forall i | 0 <= i < |items| :: items[i] == Memory(outs[|outs| % 0x1_0000 - 1 - i])
  {
    seq(|outs| % 0x1_0000, i requires 0 <= i < |outs| % 0x1_0000 => Memory(outs[|outs| % 0x1_0000 - 1 - i]))
  }

  /** The body of a result: the count, then the blocks. */
  function Items(outs: seq<Block>): seq<Item> {
    [Section(ULONG, [U64(|Popped(outs)|)])] + Popped(outs)
  }

  // ---- the hops ----

  /** _col_send_resp. */
  method ColSendResp(names: Names, key: string, outs: seq<Block>) returns (msg: Message)
    ensures msg == [Str(names.nexRecv), Str(key)] + EncodeAll(Items(outs)) + END
    ensures |msg| == 2 + 3 + 6 * (|outs| % 0x1_0000) + 3 && msg[4] == U64(|outs| % 0x1_0000)
    ensures forall i: nat | i < |outs| % 0x1_0000 ::
      var b := outs[|outs| % 0x1_0000 - 1 - i];
      msg[5 + 6 * i..11 + 6 * i] == [U16(9), U64(b.count), U64(b.sign), U64(b.kind), U64(b.size), Mem(b.bytes)]
  {
    hide EncodeAll, Encode, Items, Popped;
    var nargs := |outs| % 0x1_0000;
    var argIndex := nargs;
    ghost var h, items := [Str(names.nexRecv), Str(key)], Items(outs);
    ItemsAre(outs);
    var builder := new ZmsgBuilder([Str(names.nexRecv), Str(key)]);
    builder.AddArbitraryData(ULONG, U64(nargs));
    for i := 0 to nargs
      invariant argIndex == nargs - i
      invariant builder.msg == h + EncodeAll(items[..i + 1])
    {
      argIndex := argIndex - 1;
      ghost var before := items[..i + 1];
      builder.AddMemblk(outs[argIndex]);
      assert items[..i + 2] == before + [Memory(outs[argIndex])];
      EncodeAppend(before, Memory(outs[argIndex]));
    }
    assert items[..nargs + 1] == items;
    builder.Finalize();
    msg := builder.msg;
    ResultFrames(h, outs);
  }

  lemma ItemsAre(outs: seq<Block>)
    ensures var items, n := Items(outs), |outs| % 0x1_0000;
      && |items| == n + 1 && items[0] == Section(ULONG, [U64(n)])
      && (forall i | 1 <= i <= n :: items[i] == Memory(outs[n - i]))
      && EncodeAll(items[..1]) == Encode(Section(ULONG, [U64(n)]))
  {
    assert Items(outs)[..1][1..] == [];
  }

  /** The frames of a result, one by one. */
  lemma ResultFrames(h: Message, outs: seq<Block>)
    requires |h| == 2
    ensures var m := h + EncodeAll(Items(outs)) + END; var n := |outs| % 0x1_0000;
      && |m| == 2 + 3 + 6 * n + 3 && m[4] == U64(n)
      && forall i: nat | i < n ::
           var b := outs[n - 1 - i];
           m[5 + 6 * i..11 + 6 * i] == [U16(9), U64(b.count), U64(b.sign), U64(b.kind), U64(b.size), Mem(b.bytes)]
  {
    hide EncodeAll, Items, Encode;
    var n := |outs| % 0x1_0000;
    FirstItem(outs);
    BlocksLength(Popped(outs));
    assert (h + EncodeAll(Items(outs)) + END)[4] == [U16(ULONG), U64(1), U64(n)][2];
    forall i: nat | i < n
      ensures var b := outs[n - 1 - i]; var m := h + EncodeAll(Items(outs)) + END;
        && 11 + 6 * i <= |m|
        && m[5 + 6 * i..11 + 6 * i] == [U16(9), U64(b.count), U64(b.sign), U64(b.kind), U64(b.size), Mem(b.bytes)]
    {
      BlockFramesAt(h, outs, i, 5 + 6 * i);
      MemoryFrames(outs[n - 1 - i]);
    }
  }

  lemma BlockFramesAt(h: Message, outs: seq<Block>, i: nat, j: nat)
    requires i < |Popped(outs)| && j == |h| + 3 + 6 * i
    ensures var m := h + EncodeAll(Items(outs)) + END;
      j + 6 <= |m| && m[j..j + 6] == Encode(Popped(outs)[i])
  {
    hide EncodeAll, Items, Popped;
    var m := h + EncodeAll(Items(outs)) + END;
    var e := Encode(Popped(outs)[i]);
    ClientFrameAt(h, outs, i, 5, j + 5);
    forall k | 0 <= k < 6
      ensures m[j..j + 6][k] == e[k]
    {
      ClientFrameAt(h, outs, i, k, j + k);
    }
    assert m[j..j + 6] == e;
  }

  lemma FirstItem(outs: seq<Block>)
    ensures EncodeAll(Items(outs)) == [U16(ULONG), U64(1), U64(|outs| % 0x1_0000)] + EncodeAll(Popped(outs))
  {
    assert Items(outs)[1..] == Popped(outs);
  }

  lemma {:induction false} BlocksLength(items: seq<Item>)
    requires forall x | 0 <= x < |items| :: items[x].Memory?
    ensures |EncodeAll(items)| == 6 * |items|
  {
    if items != [] {
      BlocksLength(items[1..]);
    }
  }

  lemma {:induction false} EncodeAppend(items: seq<Item>, item: Item)
    ensures EncodeAll(items + [item]) == EncodeAll(items) + Encode(item)
  {
    if items == [] {
      assert [item][1..] == [];
    } else {
      assert (items + [item])[1..] == items[1..] + [item];
      EncodeAppend(items[1..], item);
    }
  }

  /** The accelerator agent takes method and key off, and _res_nxrecvdata_ puts
      a tag section, the bridge's key, a placeholder, the method and the
      bridge's address on top. */
  function AgentHop(names: Names, m: Message, accelKey: string, addr: string): Option<Message> {
    if |m| < 2 then None
    else
      Some([Str(addr), Str(names.accelRecv), Str(names.placeholder), Str(accelKey)] + Encode(Section(INT, [I32(0)]))
          + m[2..])
  }

  /** A router socket takes the address off. */
  function Routed(m: Message): Option<Message> {
    if m == [] then None else Some(m[1..])
  }

  /** _add_nexresp_hdr: the placeholder makes way for the node's index. */
  function Stamped(m: Message, index: string): Option<Message> {
    if |m| < 2 then None else Some([m[0], Str(index)] + m[2..])
  }

  /** get_header takes method, index and key off; _remove_nexus_index the tag
      section; reroute_waitable_message puts the client's envelope on. */
  function BridgeHop(names: Names, m: Message, rid: string, libKey: string): Option<Message> {
    if |m| < 6 then None
    else Some([Str(rid), Str(names.clientResp), Str(names.clientRecv), Str(libKey)] + m[6..])
  }

  /** The tag the bridge looks the send up by. */
  function TagOf(m: Message): Option<Frame> {
    if |m| < 3 then None else Some(m[2])
  }

  /** From the virtualization agent's message to the one the client reads. */
  function ToClient(names: Names, m: Message, accelKey: string, addr: string, index: string, rid: string,
      libKey: string): Option<Message> {
    var a := AgentHop(names, m, accelKey, addr);
    var b := if a.Some? then Routed(a.value) else None;
    var c := if b.Some? then Stamped(b.value, index) else None;
    var d := if c.Some? && TagOf(c.value) == Some(Str(accelKey)) then BridgeHop(names, c.value, rid, libKey) else None;
    if d.Some? then Routed(d.value) else None
  }

  /** What the accelerator agent sends for a result. */
  lemma AgentSends(names: Names, key: string, body: Message, accelKey: string, addr: string)
    ensures AgentHop(names, [Str(names.nexRecv), Str(key)] + body, accelKey, addr)
         == Some([Str(addr), Str(names.accelRecv), Str(names.placeholder), Str(accelKey), U16(INT), U64(1), I32(0)]
             + body)
  {
    assert ([Str(names.nexRecv), Str(key)] + body)[2..] == body;
    var top := [Str(addr), Str(names.accelRecv), Str(names.placeholder), Str(accelKey)];
    assert Encode(Section(INT, [I32(0)])) == [U16(INT), U64(1), I32(0)];
    assert top + [U16(INT), U64(1), I32(0)]
        == [Str(addr), Str(names.accelRecv), Str(names.placeholder), Str(accelKey), U16(INT), U64(1), I32(0)];
  }

  /** What the bridge makes of it, with the node's index in place. */
  lemma BridgeSends(names: Names, body: Message, accelKey: string, index: string, rid: string, libKey: string)
    ensures BridgeHop(names,
              [Str(names.accelRecv), Str(index), Str(accelKey), U16(INT), U64(1), I32(0)] + body, rid, libKey)
         == Some([Str(rid), Str(names.clientResp), Str(names.clientRecv), Str(libKey)] + body)
  {
    assert ([Str(names.accelRecv), Str(index), Str(accelKey), U16(INT), U64(1), I32(0)] + body)[6..] == body;
  }

  lemma EnvelopesComeOff(names: Names, key: string, body: Message, accelKey: string, addr: string, index: string,
      rid: string, libKey: string)
    ensures ToClient(names, [Str(names.nexRecv), Str(key)] + body, accelKey, addr, index, rid, libKey)
         == Some([Str(names.clientResp), Str(names.clientRecv), Str(libKey)] + body)
  {
    hide AgentHop, BridgeHop;
    AgentSends(names, key, body, accelKey, addr);
    BridgeSends(names, body, accelKey, index, rid, libKey);
    var a := [Str(addr), Str(names.accelRecv), Str(names.placeholder), Str(accelKey), U16(INT), U64(1), I32(0)] + body;
    var b := [Str(names.accelRecv), Str(names.placeholder), Str(accelKey), U16(INT), U64(1), I32(0)] + body;
    assert a[1..] == b;
    var c := [Str(names.accelRecv), Str(index), Str(accelKey), U16(INT), U64(1), I32(0)] + body;
    assert Stamped(b, index) == Some(c) by {
      assert b[2..] == c[2..];
      assert [b[0], Str(index)] + b[2..] == c;
    }
    assert ([Str(rid), Str(names.clientResp), Str(names.clientRecv), Str(libKey)] + body)[1..]
        == [Str(names.clientResp), Str(names.clientRecv), Str(libKey)] + body;
  }

  // ---- the client ----

  /** zmsg.at(i).data<ulong>(). */
  function LongAt(m: Message, i: nat): Option<nat> {
    if i < |m| && m[i].U64? then Some(m[i].long) else None
  }

  function BytesAt(m: Message, i: nat): Option<Text> {
    if i < |m| && m[i].Mem? then Some(m[i].bytes) else None
  }

  /** The three frames read for argument i. */
  function ReceivedAt(m: Message, i: nat): Option<Received> {
    var length, kind, bytes := LongAt(m, 7 + 6 * i), LongAt(m, 9 + 6 * i), BytesAt(m, 11 + 6 * i);
    if length.None? || kind.None? || bytes.None? then None else Some(Received(length.value, kind.value, bytes.value))
  }

  /** _process_recv_message; None where an index is out of range or names a
      frame of another type. */
  method ProcessRecv(m: Message) returns (args: Option<seq<Received>>)
    ensures args.Some? <==> LongAt(m, 5).Some? && forall i | 0 <= i < LongAt(m, 5).value :: ReceivedAt(m, i).Some?
    ensures args.Some? ==>
      (|args.value| == LongAt(m, 5).value
          && forall i | 0 <= i < |args.value| :: ReceivedAt(m, i) == Some(args.value[i]))
  {
    var count := LongAt(m, 5);
    if count.None? {
      return None;
    }
    var numArgs := count.value;
    var got: seq<Received> := [];
    for i := 0 to numArgs
      invariant |got| == i && forall j | 0 <= j < i :: ReceivedAt(m, j) == Some(got[j])
    {
      var arg := ReceivedAt(m, i);
      if arg.None? {
        return None;
      }
      got := got + [arg.value];
    }
    args := Some(got);
  }

  // ---- they fit ----

  /** Blocks take six frames each. */
  lemma {:induction false} BlockFrames(items: seq<Item>, rest: Message, i: nat, k: nat, j: nat)
    requires i < |items| && k < 6 && forall x | 0 <= x < |items| :: items[x].Memory?
    requires j == 6 * i + k
    ensures var m := EncodeAll(items) + rest; j < |m| && m[j] == Encode(items[i])[k]
  {
    hide Encode;
    var e := Encode(items[0]);
    var tail := EncodeAll(items[1..]) + rest;
    MemoryFrames(items[0].block);
    assert EncodeAll(items) + rest == e + tail;
    if i > 0 {
      BlockFrames(items[1..], rest, i - 1, k, j - 6);
      assert (e + tail)[j] == tail[j - 6];
    }
  }

  lemma ClientFrameAt(h: Message, outs: seq<Block>, i: nat, k: nat, j: nat)
    requires i < |Popped(outs)| && k < 6 && j == |h| + 3 + 6 * i + k
    ensures var m := h + EncodeAll(Items(outs)) + END;
      j < |m| && |Encode(Popped(outs)[i])| == 6 && m[j] == Encode(Popped(outs)[i])[k]
  {
    hide EncodeAll, Items, Encode;
    var n := [U16(ULONG), U64(1), U64(|outs| % 0x1_0000)];
    FirstItem(outs);
    MemoryFrames(Popped(outs)[i].block);
    BlockFrames(Popped(outs), END, i, k, 6 * i + k);
    var tail := EncodeAll(Popped(outs)) + END;
    assert h + EncodeAll(Items(outs)) + END == (h + n) + tail;
    assert ((h + n) + tail)[j] == tail[6 * i + k];
  }

  /** The client reads by index exactly the count and the blocks that the
      kernel returned, in reverse order: as many as a ushort counts. */
  lemma IndicesFindTheBlocks(h: Message, outs: seq<Block>, i: nat)
    requires |h| == 3
    ensures var m := h + EncodeAll(Items(outs)) + END; var n := |outs| % 0x1_0000;
      && LongAt(m, 5) == Some(n)
      && (i < n ==> var b := outs[n - 1 - i]; ReceivedAt(m, i) == Some(Received(b.count, b.kind, b.bytes)))
      && (|outs| < 0x1_0000 ==> LongAt(m, 5) == Some(|outs|))
  {
    hide EncodeAll, Items;
    var m := h + EncodeAll(Items(outs)) + END;
    FirstItem(outs);
    assert m[5] == [U16(ULONG), U64(1), U64(|Popped(outs)|)][2];
    if i < |Popped(outs)| {
      ClientFrameAt(h, outs, i, 1, 7 + 6 * i);
      ClientFrameAt(h, outs, i, 3, 9 + 6 * i);
      ClientFrameAt(h, outs, i, 5, 11 + 6 * i);
    }
  }

  /** The same as decoding the sections one after the other. */
  lemma SequentialDecodeAgrees(h: Message, outs: seq<Block>, i: nat)
    requires |h| == 3
    ensures var m := (h + EncodeAll(Items(outs)) + END)[3..]; var n := |outs| % 0x1_0000;
      && SectionAt(m, 0, ULONG) == Some([U64(n)])
      && (i < n ==> BlockAt(m, i + 1) == Some(outs[n - 1 - i]))
  {
    var items := Items(outs);
    assert (h + EncodeAll(items) + END)[3..] == EncodeAll(items) + END;
    assert AllValues(ULONG, [U64(|Popped(outs)|)]);
    SectionRoundTrip(items, END, 0);
    if i < |Popped(outs)| {
      BlockRoundTrip(items, END, i + 1);
    }
  }

  /** From the kernel's output to the client's compute object: fewer than 65536
      arguments all arrive, the last one first; of more, as many as the count
      leaves when taken modulo 65536. */
  method DeliverResult(names: Names, key: string, outs: seq<Block>,
      accelKey: string, addr: string, index: string, rid: string, libKey: string) returns (args: seq<Received>)
    ensures |args| == |outs| % 0x1_0000
    ensures |outs| < 0x1_0000 ==> |args| == |outs|
    ensures forall i | 0 <= i < |args| ::
      var b := outs[|args| - 1 - i]; args[i] == Received(b.count, b.kind, b.bytes)
  {
    hide EncodeAll, Items, Popped, ToClient, ReceivedAt;
    var msg := ColSendResp(names, key, outs);
    ghost var body := EncodeAll(Items(outs)) + END;
    assert msg == [Str(names.nexRecv), Str(key)] + body;
    EnvelopesComeOff(names, key, body, accelKey, addr, index, rid, libKey);
    var client := ToClient(names, msg, accelKey, addr, index, rid, libKey).value;
    ghost var h := [Str(names.clientResp), Str(names.clientRecv), Str(libKey)];
    ghost var n := |outs| % 0x1_0000;
    assert client == h + EncodeAll(Items(outs)) + END;
    IndicesFindTheBlocks(h, outs, 0);
    forall i: nat | i < n
      ensures var b := outs[n - 1 - i]; ReceivedAt(client, i) == Some(Received(b.count, b.kind, b.bytes))
    {
      IndicesFindTheBlocks(h, outs, i);
    }
    var got := ProcessRecv(client);
    args := got.value;
  }

  // ---- the way forward ----

  /** Bridge and agent each take the section on top off a request and put
      another string there. */
  function Rehead(m: Message, top: string): Option<Message> {
    if |m| < 3 then None else Some(Encode(Section(STRING, [Str(top)])) + m[3..])
  }

  /** The virtualization agent finds the resource, the count and every argument
      block as the client wrote them, whatever stood on top in between. */
  lemma ArgumentsArrive(claimId: string, accId: string, resource: string, args: seq<Block>, i: nat)
    ensures var items := [Section(ULONG, [U64(|args|)])] + seq(|args|, j requires 0 <= j < |args| => Memory(args[j]));
      var sent := EncodeAll([Section(STRING, [Str(claimId)])] + items) + END;
      var relayed := Rehead(sent, accId);
      && relayed.Some?
      && var m := Rehead(relayed.value, resource);
      && m.Some?
      && SectionAt(m.value, 0, STRING) == Some([Str(resource)])
      && SectionAt(m.value, 1, ULONG) == Some([U64(|args|)])
      && (i < |args| ==> BlockAt(m.value, i + 2) == Some(args[i]))
  {
    var items := [Section(ULONG, [U64(|args|)])] + seq(|args|, j requires 0 <= j < |args| => Memory(args[j]));
    var rest := EncodeAll(items) + END;
    Reheads(claimId, accId, items);
    Reheads(accId, resource, items);
    var all := [Section(STRING, [Str(resource)])] + items;
    assert AllValues(STRING, [Str(resource)]) && AllValues(ULONG, [U64(|args|)]);
    SectionRoundTrip(all, END, 0);
    SectionRoundTrip(all, END, 1);
    if i < |args| {
      BlockRoundTrip(all, END, i + 2);
    }
  }

  lemma Reheads(top: string, next: string, items: seq<Item>)
    ensures Rehead(EncodeAll([Section(STRING, [Str(top)])] + items) + END, next)
         == Some(EncodeAll([Section(STRING, [Str(next)])] + items) + END)
  {
    var a, b := [Section(STRING, [Str(top)])] + items, [Section(STRING, [Str(next)])] + items;
    assert a[1..] == items && b[1..] == items;
    var m := EncodeAll(a) + END;
    assert m == Encode(a[0]) + (EncodeAll(items) + END);
    assert m[3..] == EncodeAll(items) + END;
    assert EncodeAll(b) + END == Encode(b[0]) + (EncodeAll(items) + END);
  }
}
