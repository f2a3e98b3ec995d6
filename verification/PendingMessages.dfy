/** The registry of pending messages (utils/include/pending_msg_reg.h): a
    vector of (key, ids) searched from the front. remove_message compacts the
    vector with remove_if and does not erase, so its length never shrinks. */
module PendingMessages {
  import opened Bytes

  datatype Kind = ClaimPending | SendPending | NexusSend | FinalPending

  /** A pending message: the key given out, and the two ids get_ids returns. */
  datatype Entry = Entry(key: string, kind: Kind, lib: string, rid: string)

  /** What a move leaves behind: empty strings in the same alternative. */
  function Husk(e: Entry): Entry {
    Entry("", e.kind, "", "")
  }

  /** The first entry with this key. */
  function Find(m: seq<Entry>, key: string): Option<Entry> {
    if m == [] then None
    else if m[0].key == key then Some(m[0])
    else Find(m[1..], key)
  }

  /** remove_if: r is where the next kept entry goes, i the one looked at. */
  function Shift(m: seq<Entry>, id: string, r: nat, i: nat): seq<Entry>
    requires r <= i <= |m|
    decreases |m| - i
  {
    if i == |m| then m
    else if m[i].key == id then Shift(m, id, r, i + 1)
    else if r == i then Shift(m, id, r + 1, i + 1)
    else Shift(m[r := m[i]][i := Husk(m[i])], id, r + 1, i + 1)
  }

  function Removed(m: seq<Entry>, id: string): seq<Entry> {
    Shift(m, id, 0, 0)
  }

  function Kept(m: seq<Entry>, id: string): seq<Entry> {
    if m == [] then []
    else
      var front := Kept(m[..|m| - 1], id);
      if m[|m| - 1].key == id then front else front + [m[|m| - 1]]
  }

  /** The state of the compaction before entry i of `was` is looked at. */
  ghost predicate Compacting(m: seq<Entry>, was: seq<Entry>, id: string, r: nat, i: nat) {
    && r <= i <= |m| == |was|
    && m[..r] == Kept(was[..i], id)
    && m[i..] == was[i..]
    && forall j | r <= j < i :: m[j] == Leftover(was, id, j)
  }

  /** What the compaction leaves at a place behind the kept entries: the entry
      that is to go, or the husk of one that was moved to the front. */
  function Leftover(was: seq<Entry>, id: string, j: nat): Entry
    requires j < |was|
  {
    if was[j].key == id then was[j] else Husk(was[j])
  }

  function Leftovers(was: seq<Entry>, id: string, k: nat): seq<Entry>
    requires k <= |was|
  {
    seq(|was| - k, i requires 0 <= i < |was| - k => Leftover(was, id, k + i))
  }

  lemma CompactingStep(m: seq<Entry>, was: seq<Entry>, id: string, r: nat, i: nat)
    requires Compacting(m, was, id, r, i)
    ensures i < |m| && m[i].key == id ==> Compacting(m, was, id, r, i + 1)
    ensures i < |m| && m[i].key != id && r == i ==> Compacting(m, was, id, r + 1, i + 1)
    ensures i < |m| && m[i].key != id && r < i ==> Compacting(m[r := m[i]][i := Husk(m[i])], was, id, r + 1, i + 1)
  {
    if i < |m| {
      assert m[i] == m[i..][0] == was[i];
      assert was[..i + 1][..i] == was[..i];
      assert m[i + 1..] == m[i..][1..] && was[i + 1..] == was[i..][1..];
      if m[i].key != id && r == i {
        assert m[..r + 1] == m[..r] + [m[r]];
      } else if m[i].key != id {
        var n := m[r := m[i]][i := Husk(m[i])];
        assert n[..r + 1] == m[..r] + [m[i]];
        assert n[i + 1..] == m[i + 1..];
      }
    }
  }

  lemma {:induction false} ShiftEnds(m: seq<Entry>, was: seq<Entry>, id: string, r: nat, i: nat) returns (k: nat)
    requires Compacting(m, was, id, r, i)
    ensures Compacting(Shift(m, id, r, i), was, id, k, |m|)
    decreases |m| - i
  {
    CompactingStep(m, was, id, r, i);
    if i == |m| {
      k := r;
    } else if m[i].key == id {
      k := ShiftEnds(m, was, id, r, i + 1);
    } else if r == i {
      k := ShiftEnds(m, was, id, r + 1, i + 1);
    } else {
      k := ShiftEnds(m[r := m[i]][i := Husk(m[i])], was, id, r + 1, i + 1);
    }
  }

  /** What remove_message makes of the registry, entry by entry. */
  lemma RemovedIs(m: seq<Entry>, id: string)
    ensures |Kept(m, id)| <= |m| && Removed(m, id) == Kept(m, id) + Leftovers(m, id, |Kept(m, id)|)
  {
    assert m[..0] == [] && m[..|m|] == m;
    var k := ShiftEnds(m, m, id, 0, 0);
    var after := Removed(m, id);
    assert after == after[..k] + after[k..];
    assert after[k..] == Leftovers(m, id, k);
  }

  /** Removing one key does not change what any other key finds, whatever the
      compaction leaves at the end of the vector. */
  lemma RemovedFind(m: seq<Entry>, id: string, key: string)
    requires key != ""
    ensures key != id ==> Find(Removed(m, id), key) == Find(m, key)
    ensures |Removed(m, id)| == |m|
  {
    assert m[..0] == [];
    var k := ShiftEnds(m, m, id, 0, 0);
    var after := Removed(m, id);
    assert m[..|m|] == m;
    if key != id {
      KeptFind(m, id, key);
      assert after == after[..k] + after[k..];
      NoneFound(after[k..], key);
      FindConcat(after[..k], after[k..], key);
    }
  }

  /** What a look-up finds: the first entry with the key. */
  lemma {:induction false} FindIs(m: seq<Entry>, key: string)
    ensures Find(m, key).None? <==> forall i | 0 <= i < |m| :: m[i].key != key
    ensures forall i | 0 <= i < |m| && m[i].key == key && (forall j | 0 <= j < i :: m[j].key != key) ::
      Find(m, key) == Some(m[i])
  {
    if m != [] {
      var rest := m[1..];
      FindIs(rest, key);
      assert forall i | 0 < i < |m| :: m[i] == rest[i - 1];
      if Find(m, key).None? {
        forall i | 0 <= i < |m|
          ensures m[i].key != key
        {
          assert i > 0 ==> m[i] == rest[i - 1];
        }
      }
      forall i | 0 <= i < |m| && m[i].key == key && (forall j | 0 <= j < i :: m[j].key != key)
        ensures Find(m, key) == Some(m[i])
      {
        if i > 0 {
          assert rest[i - 1] == m[i];
          assert m[0].key != key;
          assert forall j | 0 <= j < i - 1 :: rest[j] == m[j + 1];
        }
      }
    }
  }

  lemma {:induction false} KeptIs(m: seq<Entry>, id: string)
    ensures |Kept(m, id)| <= |m| && forall e :: e in Kept(m, id) <==> e in m && e.key != id
    ensures |Kept(m, id)| == |m| <==> forall e | e in m :: e.key != id
    decreases |m|
  {
    if m != [] {
      KeptIs(m[..|m| - 1], id);
      assert m == m[..|m| - 1] + [m[|m| - 1]];
    }
  }

  /** Entries are kept in their order. */
  lemma {:induction false} KeptConcat(a: seq<Entry>, b: seq<Entry>, id: string)
    ensures Kept(a + b, id) == Kept(a, id) + Kept(b, id)
    decreases |b|
  {
    if b == [] {
      assert a + b == a;
    } else {
      assert (a + b)[..|a + b| - 1] == a + b[..|b| - 1];
      KeptConcat(a, b[..|b| - 1], id);
    }
  }

  /** The removed key is still found if and only if an entry of it stands where
      nothing is moved to, behind as many places as entries are kept. */
  lemma RemovedStillFound(m: seq<Entry>, id: string)
    requires id != ""
    ensures Find(Removed(m, id), id).Some? <==> exists j :: |Kept(m, id)| <= j < |m| && m[j].key == id
  {
    hide Find, Removed, Kept;
    RemovedIs(m, id);
    KeptIs(m, id);
    var k, after := |Kept(m, id)|, Removed(m, id);
    FindIs(after, id);
    if j :| k <= j < |m| && m[j].key == id {
      assert after[j] == Leftovers(m, id, k)[j - k] == Leftover(m, id, j);
    }
    assert forall j | 0 <= j < k :: after[j] in Kept(m, id) && after[j].key != id;
    if j :| k <= j < |after| && after[j].key == id {
      assert after[j] == Leftovers(m, id, k)[j - k] == Leftover(m, id, j);
    }
  }

  /** A single entry of a key is gone after its removal unless it was the last
      of all. */
  lemma SingleRemoved(m: seq<Entry>, id: string, i: nat)
    requires id != "" && i < |m| && m[i].key == id && forall j | 0 <= j < |m| && j != i :: m[j].key != id
    ensures Find(Removed(m, id), id).None? <==> i < |m| - 1
  {
    KeptSingle(m, id, i);
    RemovedStillFound(m, id);
  }

  lemma {:induction false} KeptSingle(m: seq<Entry>, id: string, i: nat)
    requires i < |m| && m[i].key == id && forall j | 0 <= j < |m| && j != i :: m[j].key != id
    ensures |Kept(m, id)| == |m| - 1
    decreases |m|
  {
    var front := m[..|m| - 1];
    if i < |m| - 1 {
      KeptSingle(front, id, i);
    } else {
      KeptIs(front, id);
    }
  }

  lemma {:induction false} FindConcat(a: seq<Entry>, b: seq<Entry>, key: string)
    ensures Find(a + b, key) == if Find(a, key).Some? then Find(a, key) else Find(b, key)
  {
    if a == [] {
      assert a + b == b;
    } else {
      assert (a + b)[1..] == a[1..] + b;
      FindConcat(a[1..], b, key);
    }
  }

  lemma {:induction false} NoneFound(m: seq<Entry>, key: string)
    requires forall j | 0 <= j < |m| :: m[j].key != key
    ensures Find(m, key) == None
  {
    if m != [] {
      NoneFound(m[1..], key);
    }
  }

  lemma {:induction false} KeptFind(m: seq<Entry>, id: string, key: string)
    requires key != id
    ensures Find(Kept(m, id), key) == Find(m, key)
    decreases |m|
  {
    if m != [] {
      var front, last := m[..|m| - 1], m[|m| - 1];
      KeptFind(front, id, key);
      assert m == front + [last];
      FindConcat(front, [last], key);
      FindConcat(Kept(front, id), [last], key);
      assert [last][1..] == [];
    }
  }

  /** Adding a message under a key that is not in use. */
  lemma AddedFind(m: seq<Entry>, e: Entry, key: string)
    ensures key != e.key ==> Find(m + [e], key) == Find(m, key)
    ensures Find(m, e.key).None? ==> Find(m + [e], e.key) == Some(e)
  {
    FindConcat(m, [e], key);
    FindConcat(m, [e], e.key);
    assert [e][1..] == [];
  }

  /** The registry, changed in place. */
  class Registry {
    var msgs: seq<Entry>

    constructor ()
      ensures msgs == []
    {
      msgs := [];
    }

    method AddPendingMessage(e: Entry)
      modifies this
      ensures msgs == old(msgs) + [e]
    {
      msgs := msgs + [e];
    }

    /** get_ids: a pair of empty strings when the key is unknown. */
    method GetIds(key: string) returns (lib: string, rid: string)
      ensures (forall i | 0 <= i < |msgs| :: msgs[i].key != key) ==> lib == "" && rid == ""
      ensures forall i | 0 <= i < |msgs| && msgs[i].key == key && (forall j | 0 <= j < i :: msgs[j].key != key) ::
        lib == msgs[i].lib && rid == msgs[i].rid
      ensures var e := Find(msgs, key);
        && lib == (if e.Some? then e.value.lib else "")
        && rid == (if e.Some? then e.value.rid else "")
    {
      FindIs(msgs, key);
      for i := 0 to |msgs|
        invariant Find(msgs, key) == Find(msgs[i..], key)
      {
        if msgs[i].key == key {
          return msgs[i].lib, msgs[i].rid;
        }
        assert msgs[i..][1..] == msgs[i + 1..];
      }
      return "", "";
    }

    method RemoveMessage(id: string)
      modifies this
      ensures msgs == Removed(old(msgs), id)
    {
      var r := 0;
      var i := 0;
      while i < |msgs|
        invariant r <= i <= |msgs|
        invariant Shift(msgs, id, r, i) == Removed(old(msgs), id)
      {
        if msgs[i].key != id {
          if r < i {
            msgs := msgs[r := msgs[i]][i := Husk(msgs[i])];
          }
          r := r + 1;
        }
        i := i + 1;
      }
    }
  }
}
