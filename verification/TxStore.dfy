/** The shared transaction store of the virtualization agent
    (generator_template.cc, base_utils.h): entries found by transaction id,
    each linked to its predecessor and counting its successors. */
module TxStore {
  import opened Bytes

  type Tid = nat

  datatype Kind = SysReq | DevReq | DevResp | SysResp

  datatype Method = RegResource | IdentResource | SendData

  datatype Source = Router | Dealer

  datatype Header = Header(action: Method, source: Source, key: string)

  /** The alternatives of var_bdata_t that the handlers use. */
  datatype Payload =
    | Misc(lines: seq<string>)
    | SendArgs(resource: string, args: seq<Text>)
    | RecvArgs(outs: seq<Text>)
    | Dirs(append: bool, dirs: seq<string>)

  /** One kernel file's id and function, as the device service reports them. */
  datatype KernelId = KernelId(fid: nat, func: nat)

  datatype Entry = Entry(
    kind: Kind,
    header: Option<Header>,
    pred: Option<Tid>,
    count: nat,
    deferred: bool,
    data: Option<Payload>,
    devData: Option<seq<KernelId>>)

  type Heap = map<Tid, Entry>

  function Blank(kind: Kind): Entry {
    Entry(kind, None, None, 0, false, None, None)
  }

  // ---- what the operations do, as functions on the map ----

  /** opt_generate: a blank entry, or one that takes the source's header and is
      linked to it. */
  function Generate(h: Heap, tid: Tid, kind: Kind, source: Option<Tid>): Heap
    requires source.Some? ==> source.value in h
  {
    match source
    case None => h[tid := Blank(kind)]
    case Some(p) =>
      h[p := h[p].(count := h[p].count + 1)][tid := Blank(kind).(header := h[p].header, pred := Some(p))]
  }

  /** What try_remove does to a chain: take one successor off p's count and, if
      none is left, erase p and go on with its predecessor. */
  function Release(h: Heap, p: Option<Tid>): Heap
    decreases |h|
  {
    if p.None? || p.value !in h then h
    else
      var e := h[p.value];
      var count := if e.count > 0 then e.count - 1 else 0;
      if count > 0 then h[p.value := e.(count := count)]
      else
        assert |(h - {p.value}).Keys| < |h.Keys| by {
          assert (h - {p.value}).Keys == h.Keys - {p.value};
        }
        Release(h - {p.value}, e.pred)
  }

  /** try_remove: nothing while there are successors; otherwise the chain of
      predecessors is released, and t goes last. */
  function Removed(h: Heap, t: Tid): Heap
    requires t in h
  {
    if h[t].count != 0 then h else Release(h, h[t].pred) - {t}
  }

  // ---- the invariant ----

  ghost function Children(h: Heap, t: Tid): set<Tid> {
    set c | c in h && h[c].pred == Some(t)
  }

  ghost predicate EntryCounted(h: Heap, next: Tid, owed: Option<Tid>, t: Tid)
    requires t in h
  {
    && t < next
    && h[t].count == |Children(h, t)| + (if owed == Some(t) then 1 else 0)
    && (h[t].pred.Some? ==> h[t].pred.value in h && h[t].pred.value < t)
  }

  /** Counts are right except that `owed` still counts a successor that is
      gone. */
  ghost predicate CountedBut(h: Heap, next: Tid, owed: Option<Tid>) {
    && (owed.Some? ==> owed.value in h)
    && forall t | t in h :: EntryCounted(h, next, owed, t)
  }

  /** The count is the number of live successors, and predecessors are live
      with smaller ids. */
  ghost predicate Counted(h: Heap, next: Tid) {
    CountedBut(h, next, None)
  }

  /** t and everything it is linked to. */
  function Up(h: Heap, t: Tid): set<Tid>
    decreases t
  {
    {t} + if t in h && h[t].pred.Some? && h[t].pred.value < t then Up(h, h[t].pred.value) else {}
  }

  predicate IsLeaf(h: Heap, t: Tid) {
    t in h && h[t].count == 0
  }

  /** What childless entries other than t are linked to. */
  ghost function NeededWithout(h: Heap, t: Tid): set<Tid> {
    set a | a in h && exists x :: IsLeaf(h, x) && x != t && a in Up(h, x)
  }

  // ---- what generating and removing do to it ----

  lemma NoChildren(h: Heap, t: Tid)
    requires Children(h, t) == {}
    ensures forall c | c in h :: h[c].pred != Some(t)
  {
    forall c | c in h
      ensures h[c].pred != Some(t)
    {
      assert c !in Children(h, t);
    }
  }

  lemma SameChildren(h: Heap, g: Heap, t: Tid)
    requires forall c | c in h && h[c].pred == Some(t) :: c in g && g[c].pred == Some(t)
    requires forall c | c in g && g[c].pred == Some(t) :: c in h && h[c].pred == Some(t)
    ensures Children(h, t) == Children(g, t)
  {
  }

  lemma NewHasNoChildren(h: Heap, next: Tid, t: Tid)
    requires Counted(h, next) && t == next
    ensures Children(h, t) == {} && t !in h
  {
    assert t !in h;
    forall c | c in h
      ensures h[c].pred != Some(t)
    {
      assert EntryCounted(h, next, None, c);
    }
  }

  /** The new entry has its source's header and nothing else yet; the source has
      one successor more, and every other entry is as it was. */
  lemma GeneratedIs(h: Heap, tid: Tid, kind: Kind, source: Option<Tid>)
    requires tid !in h && (source.Some? ==> source.value in h)
    ensures var g := Generate(h, tid, kind, source);
      && g.Keys == h.Keys + {tid}
      && g[tid] == Entry(kind, if source.Some? then h[source.value].header else None, source, 0, false, None, None)
      && forall t | t in h :: g[t] == h[t].(count := h[t].count + if source == Some(t) then 1 else 0)
  {
  }

  /** An entry that still has successors is not removed, nor is anything else. */
  lemma RemovedLater(h: Heap, t: Tid)
    requires t in h && h[t].count > 0
    ensures Removed(h, t) == h
  {
  }

  /** A new entry is counted once by its source and by nobody else. */
  lemma GenerateCounted(h: Heap, next: Tid, kind: Kind, source: Option<Tid>)
    requires Counted(h, next) && (source.Some? ==> source.value in h)
    ensures Counted(Generate(h, next, kind, source), next + 1)
  {
    var g := Generate(h, next, kind, source);
    NewHasNoChildren(h, next, next);
    forall t | t in g
      ensures EntryCounted(g, next + 1, None, t)
    {
      if t == next {
        GeneratedChildren(h, next, kind, source, t);
        if source.Some? {
          assert EntryCounted(h, next, None, source.value);
        }
      } else {
        assert EntryCounted(h, next, None, t);
        GeneratedChildren(h, next, kind, source, t);
      }
    }
  }

  lemma GeneratedChildren(h: Heap, next: Tid, kind: Kind, source: Option<Tid>, t: Tid)
    requires source.Some? ==> source.value in h
    requires next !in h
    ensures Children(Generate(h, next, kind, source), t)
         == if source == Some(t) then Children(h, t) + {next} else Children(h, t)
  {
  }

  /** Taking one successor off the owed count settles it. */
  lemma SettleCounted(h: Heap, next: Tid, p: Tid)
    requires CountedBut(h, next, Some(p)) && h[p].count > 0
    ensures Counted(h[p := h[p].(count := h[p].count - 1)], next)
  {
    var g := h[p := h[p].(count := h[p].count - 1)];
    forall t | t in g
      ensures EntryCounted(g, next, None, t)
    {
      assert EntryCounted(h, next, Some(p), t);
      SameChildren(h, g, t);
    }
  }

  /** Erasing an entry without live successors passes the debt to its
      predecessor. */
  lemma EraseCounted(h: Heap, next: Tid, owed: Option<Tid>, p: Tid)
    requires CountedBut(h, next, owed) && p in h && Children(h, p) == {}
    requires owed.Some? ==> owed.value == p
    ensures CountedBut(h - {p}, next, h[p].pred)
  {
    var g := h - {p};
    NoChildren(h, p);
    assert EntryCounted(h, next, owed, p);
    forall t | t in g
      ensures EntryCounted(g, next, h[p].pred, t)
    {
      assert EntryCounted(h, next, owed, t);
      ErasedChildren(h, p, t);
    }
  }

  lemma ErasedChildren(h: Heap, p: Tid, t: Tid)
    requires p in h
    ensures |Children(h - {p}, t)| == |Children(h, t)| - (if h[p].pred == Some(t) then 1 else 0)
  {
    if h[p].pred == Some(t) {
      assert p in Children(h, t);
      assert Children(h - {p}, t) == Children(h, t) - {p};
    } else {
      assert Children(h - {p}, t) == Children(h, t);
    }
  }

  /** Erasing an entry that nothing points to leaves the links above every
      other entry alone. */
  lemma {:induction false} UpAfterErase(h: Heap, p: Tid, x: Tid)
    requires forall c | c in h :: h[c].pred != Some(p)
    requires x != p
    ensures Up(h - {p}, x) == Up(h, x) && p !in Up(h, x)
    decreases x
  {
    if x in h && h[x].pred.Some? && h[x].pred.value < x {
      UpAfterErase(h, p, h[x].pred.value);
    }
  }

  lemma {:induction false} UpIgnoresCounts(h: Heap, g: Heap, x: Tid)
    requires h.Keys == g.Keys && forall c | c in h :: h[c].pred == g[c].pred
    ensures Up(h, x) == Up(g, x)
    decreases x
  {
    if x in h && h[x].pred.Some? && h[x].pred.value < x {
      UpIgnoresCounts(h, g, h[x].pred.value);
    }
  }

  lemma {:induction false} UpTransitive(h: Heap, x: Tid, c: Tid)
    requires c in Up(h, x)
    ensures Up(h, c) <= Up(h, x)
    decreases x
  {
    if c != x {
      UpTransitive(h, h[x].pred.value, c);
    }
  }

  /** Every live entry is above some childless one. */
  lemma {:induction false} LeafBelow(h: Heap, next: Tid, a: Tid) returns (x: Tid)
    requires Counted(h, next) && a in h
    ensures IsLeaf(h, x) && a in Up(h, x)
    decreases next - a
  {
    assert EntryCounted(h, next, None, a);
    if h[a].count == 0 {
      x := a;
    } else {
      var c :| c in Children(h, a);
      assert EntryCounted(h, next, None, c);
      x := LeafBelow(h, next, c);
      UpTransitive(h, x, c);
    }
  }

  ghost function Needed(h: Heap): set<Tid> {
    set a | a in h && exists x :: IsLeaf(h, x) && a in Up(h, x)
  }

  lemma AllNeeded(h: Heap, next: Tid)
    requires Counted(h, next)
    ensures Needed(h) == h.Keys
  {
    forall a | a in h
      ensures a in Needed(h)
    {
      var x := LeafBelow(h, next, a);
    }
  }

  /** The entries of g are those of h, but for counts. */
  ghost predicate SameButCounts(g: Heap, h: Heap) {
    g.Keys <= h.Keys && forall a | a in g :: g[a] == h[a].(count := g[a].count)
  }

  lemma ReleaseSettles(h: Heap, next: Tid, p: Tid)
    requires CountedBut(h, next, Some(p)) && h[p].count > 1
    ensures Release(h, Some(p)) == h[p := h[p].(count := h[p].count - 1)]
  {
  }

  lemma ReleaseErases(h: Heap, next: Tid, p: Tid)
    requires CountedBut(h, next, Some(p)) && h[p].count <= 1
    ensures Release(h, Some(p)) == Release(h - {p}, h[p].pred)
    ensures Children(h, p) == {} && h[p].count == 1 && h[p].pred != Some(p)
    ensures CountedBut(h - {p}, next, h[p].pred)
  {
    hide Release;
    assert EntryCounted(h, next, Some(p), p);
    EraseCounted(h, next, Some(p), p);
    assert Release(h, Some(p)) == Release(h - {p}, h[p].pred) by {
      ReleaseUnfold(h, p);
    }
  }

  lemma ReleaseNothing(h: Heap, p: Option<Tid>)
    requires p.None? || p.value !in h
    ensures Release(h, p) == h
  {
  }

  lemma ReleaseUnfold(h: Heap, p: Tid)
    requires p in h
    ensures h[p].count <= 1 ==> Release(h, Some(p)) == Release(h - {p}, h[p].pred)
    ensures h[p].count > 1 ==> Release(h, Some(p)) == h[p := h[p].(count := h[p].count - 1)]
  {
  }

  /** Releasing keeps exactly what childless entries are linked to, and the
      counts come out right. */
  lemma {:induction false} ReleaseIsExact(h: Heap, next: Tid, p: Option<Tid>)
    requires CountedBut(h, next, p)
    ensures Counted(Release(h, p), next)
    ensures Release(h, p).Keys == Needed(h)
    ensures SameButCounts(Release(h, p), h)
    decreases |h|
  {
    hide Release, CountedBut, EntryCounted, Needed, IsLeaf, Children;
    if p.None? {
      AllNeeded(h, next);
      ReleaseNothing(h, p);
    } else if p.value in h && h[p.value].count > 1 {
      ReleaseSettles(h, next, p.value);
      SettleCounted(h, next, p.value);
      var g := h[p.value := h[p.value].(count := h[p.value].count - 1)];
      AllNeeded(g, next);
      NeededUpTo(h, g);
    } else {
      var g := h - {p.value};
      OwedIsLive(h, next, p.value);
      ReleaseErases(h, next, p.value);
      NoChildren(h, p.value);
      assert g.Keys == h.Keys - {p.value} && |g.Keys| < |h.Keys|;
      ReleaseIsExact(g, next, h[p.value].pred);
      NeededAfterErase(h, p.value);
    }
  }

  lemma OwedIsLive(h: Heap, next: Tid, p: Tid)
    requires CountedBut(h, next, Some(p))
    ensures p in h
  {
  }

  lemma NeededUpTo(h: Heap, g: Heap)
    requires h.Keys == g.Keys && forall c | c in h :: h[c].pred == g[c].pred && (h[c].count == 0 <==> g[c].count == 0)
    ensures Needed(h) == Needed(g)
  {
    forall x
      ensures Up(h, x) == Up(g, x) && (IsLeaf(h, x) <==> IsLeaf(g, x))
    {
      UpIgnoresCounts(h, g, x);
    }
  }

  lemma NeededAfterErase(h: Heap, p: Tid)
    requires forall c | c in h :: h[c].pred != Some(p)
    requires p in h && h[p].count != 0
    ensures Needed(h - {p}) == Needed(h)
  {
    var g := h - {p};
    forall x | IsLeaf(h, x)
      ensures Up(h, x) == Up(g, x) && IsLeaf(g, x) && p !in Up(h, x)
    {
      UpAfterErase(h, p, x);
    }
    assert forall x :: IsLeaf(g, x) ==> IsLeaf(h, x);
  }

  /** Erasing t before or after the release makes no difference: the release
      only goes down in ids. */
  lemma {:induction false} ReleaseBelow(h: Heap, p: Option<Tid>, t: Tid)
    requires forall c | c in h && h[c].pred.Some? :: h[c].pred.value < c
    requires p.Some? ==> p.value < t
    ensures Release(h, p) - {t} == Release(h - {t}, p)
    decreases |h|
  {
    if p.None? || p.value !in h {
    } else {
      var e := h[p.value];
      var count := if e.count > 0 then e.count - 1 else 0;
      if count > 0 {
        assert Release(h, p) - {t} == Release(h - {t}, p);
      } else {
        assert (h - {p.value}).Keys == h.Keys - {p.value} && |(h - {p.value}).Keys| < |h.Keys|;
        ReleaseBelow(h - {p.value}, e.pred, t);
        assert h - {p.value} - {t} == h - {t} - {p.value};
      }
    }
  }

  /** Removing a childless entry erases exactly what no other childless entry
      is linked to; what stays keeps everything but its count, and the counts
      are right again. */
  lemma RemovedIsExact(h: Heap, next: Tid, t: Tid)
    requires Counted(h, next) && IsLeaf(h, t)
    ensures Counted(Removed(h, t), next)
    ensures Removed(h, t).Keys == NeededWithout(h, t)
    ensures SameButCounts(Removed(h, t), h)
  {
    assert EntryCounted(h, next, None, t);
    forall c | c in h && h[c].pred.Some?
      ensures h[c].pred.value < c
    {
      assert EntryCounted(h, next, None, c);
    }
    ReleaseBelow(h, h[t].pred, t);
    EraseCounted(h, next, None, t);
    ReleaseIsExact(h - {t}, next, h[t].pred);
    NoChildren(h, t);
    NeededOthers(h, t);
  }

  lemma NeededOthers(h: Heap, t: Tid)
    requires forall c | c in h :: h[c].pred != Some(t)
    ensures Needed(h - {t}) == NeededWithout(h, t)
  {
    var g := h - {t};
    forall x | IsLeaf(h, x) && x != t
      ensures Up(h, x) == Up(g, x) && IsLeaf(g, x) && t !in Up(h, x)
    {
      UpAfterErase(h, t, x);
    }
    assert forall x :: IsLeaf(g, x) ==> IsLeaf(h, x) && x != t;
  }

  /** Erasing a whole chain: entries linked one to the next, each counting only
      its neighbour, go together, and nothing else changes. */
  lemma {:induction false} ReleaseChain(h: Heap, chain: seq<Tid>)
    requires |chain| > 0 && IsChain(h, chain)
    ensures Release(h, Some(chain[|chain| - 1])) == h - Elements(chain)
    decreases |chain|
  {
    hide Release, IsChain, Elements, Before;
    var last := chain[|chain| - 1];
    var front := chain[..|chain| - 1];
    ChainFront(h, chain);
    ReleaseUnfold(h, last);
    ElementsOfFront(chain);
    if front == [] {
      ReleaseNothing(h - {last}, None);
      NoElements();
      assert h - {last} == h - Elements(chain);
    } else {
      ReleaseChain(h - {last}, front);
      assert h - {last} - Elements(front) == h - Elements(chain);
    }
  }

  lemma ChainFront(h: Heap, chain: seq<Tid>)
    requires |chain| > 0 && IsChain(h, chain)
    ensures var n := |chain| - 1; var last := chain[n];
      && last in h && h[last].count == 1 && h[last].pred == Before(chain, n)
      && (n == 0 ==> h[last].pred == None)
      && (n > 0 ==> h[last].pred == Some(chain[..n][n - 1]))
      && IsChain(h - {last}, chain[..n])
  {
    var front := chain[..|chain| - 1];
    assert forall i | 0 <= i < |front| :: front[i] == chain[i] && Before(front, i) == Before(chain, i);
  }

  lemma NoElements()
    ensures Elements([]) == {}
  {
  }

  ghost function Elements(chain: seq<Tid>): set<Tid> {
    set t | t in chain
  }

  lemma ElementsOfFront(chain: seq<Tid>)
    requires |chain| > 0
    ensures Elements(chain) == Elements(chain[..|chain| - 1]) + {chain[|chain| - 1]}
  {
    assert chain == chain[..|chain| - 1] + [chain[|chain| - 1]];
  }

  ghost predicate IsChain(h: Heap, chain: seq<Tid>) {
    && (forall i | 0 <= i < |chain| :: chain[i] in h && h[chain[i]].count == 1)
    && (forall i, j | 0 <= i < j < |chain| :: chain[i] < chain[j])
    && (forall i | 0 <= i < |chain| :: h[chain[i]].pred == Before(chain, i))
  }

  function Before(chain: seq<Tid>, i: nat): Option<Tid>
    requires i < |chain|
  {
    if i == 0 then None else Some(chain[i - 1])
  }

  /** The store itself: _holders and running_id, changed in place. */
  class PacketStore {
    var holders: Heap
    var runningId: Tid

    ghost predicate Valid()
      reads this
    {
      Counted(holders, runningId)
    }

    constructor ()
      ensures Valid() && holders == map[] && runningId == 1
    {
      holders := map[];
      runningId := 1;
    }

    method OptGenerate(kind: Kind, source: Option<Tid>) returns (tid: Tid)
      requires Valid() && (source.Some? ==> source.value in holders)
      modifies this
      ensures Valid() && tid == old(runningId) && runningId == tid + 1 && tid !in old(holders)
      ensures holders == Generate(old(holders), tid, kind, source)
    {
      tid := runningId;
      NewHasNoChildren(holders, runningId, tid);
      GenerateCounted(holders, runningId, kind, source);
      runningId := runningId + 1;
      var entry := Blank(kind);
      if source.Some? {
        var from := holders[source.value];
        entry := entry.(header := from.header, pred := source);
        holders := holders[source.value := from.(count := from.count + 1)];
      }
      holders := holders[tid := entry];
    }

    /** Changes to an entry's header and payload leave links and counts. */
    method Update(tid: Tid, entry: Entry)
      requires Valid() && tid in holders
      requires entry.pred == holders[tid].pred && entry.count == holders[tid].count
      modifies this
      ensures Valid() && runningId == old(runningId) && holders == old(holders)[tid := entry]
    {
      UpdateCounted(holders, runningId, tid, entry);
      holders := holders[tid := entry];
    }

    method TryRemove(tid: Tid)
      requires Valid() && tid in holders
      modifies this
      ensures Valid() && runningId == old(runningId)
      ensures holders == Removed(old(holders), tid)
    {
      hide Release, CountedBut, EntryCounted;
      if holders[tid].count != 0 { return; }
      RemovedIsExact(holders, runningId, tid);
      ghost var before := holders;
      var pred := holders[tid].pred;
      while pred.Some? && pred.value in holders
        invariant Release(before, before[tid].pred) == Release(holders, pred)
        invariant runningId == old(runningId)
        decreases |holders|, pred.Some?
      {
        var p := pred.value;
        var e := holders[p];
        ReleaseUnfold(holders, p);
        if e.count > 0 {
          e := e.(count := e.count - 1);
        }
        if e.count == 0 {
          assert (holders - {p}).Keys == holders.Keys - {p} && |(holders - {p}).Keys| < |holders.Keys|;
          holders := holders - {p};
          pred := e.pred;
        } else {
          holders := holders[p := e];
          pred := None;
          ReleaseNothing(holders, pred);
        }
      }
      ReleaseNothing(holders, pred);
      holders := holders - {tid};
      assert holders == Removed(before, tid);
    }
  }

  lemma UpdateCounted(h: Heap, next: Tid, t: Tid, e: Entry)
    requires Counted(h, next) && t in h && e.pred == h[t].pred && e.count == h[t].count
    ensures Counted(h[t := e], next)
  {
    var g := h[t := e];
    forall x | x in g
      ensures EntryCounted(g, next, None, x)
    {
      assert EntryCounted(h, next, None, x);
      SameChildren(h, g, x);
    }
  }
}
