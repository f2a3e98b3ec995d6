/** Releasing the ranks at finalize (accel_service.cc, ads_registry.cc): a rank
    is marked final first, and only then, under the registry's lock, the
    handler decides. All ranks are registered beforehand; the two steps of
    different ranks interleave, and so does other traffic through the registry
    of pending messages. */
module Finalize {
  import opened PendingMessages

  /** decided: the ranks whose handler has taken its locked step, with the tag
      it was called under; late: those of them that found everybody final. */
  datatype State = State(
    ranks: set<string>, marked: set<string>, decided: map<string, string>, late: set<string>,
    pending: seq<Entry>, replies: seq<(string, string)>)

  datatype Action =
    | Mark(rid: string)
    | Decide(rid: string, tag: string, key: string)
    | AddOther(entry: Entry)
    | RemoveOther(id: string)

  /** _get_all_msgs_by_type for final messages: they stay in the registry. */
  function Finals(m: seq<Entry>): seq<Entry> {
    if m == [] then []
    else
      var front := Finals(m[..|m| - 1]);
      if m[|m| - 1].kind.FinalPending? then front + [m[|m| - 1]] else front
  }

  function Releases(m: seq<Entry>): seq<(string, string)> {
    var f := Finals(m);
    seq(|f|, i requires 0 <= i < |f| => (f[i].rid, f[i].lib))
  }

  function Initial(ranks: set<string>): State {
    State(ranks, {}, map[], {}, [], [])
  }

  predicate Enabled(s: State, a: Action) {
    match a
    case Mark(rid) => rid in s.ranks
    case Decide(rid, _, key) => rid in s.marked && rid !in s.decided && key != ""
    case AddOther(e) => !e.kind.FinalPending?
    case RemoveOther(id) => forall e | e in s.pending && e.kind.FinalPending? :: e.key != id
  }

  /** is_all_ads_finalized; the registry's own empty entry is final from the
      start. */
  predicate AllFinal(s: State) {
    s.ranks <= s.marked
  }

  function Step(s: State, a: Action): State {
    if !Enabled(s, a) then s
    else match a
      case Mark(rid) => s.(marked := s.marked + {rid})
      case Decide(rid, tag, key) =>
        if AllFinal(s) then
          s.(replies := s.replies + Releases(s.pending) + [(rid, tag)], decided := s.decided[rid := tag],
              late := s.late + {rid})
        else
          s.(pending := s.pending + [Entry(key, FinalPending, tag, rid)], decided := s.decided[rid := tag])
      case AddOther(e) => s.(pending := s.pending + [e])
      case RemoveOther(id) => s.(pending := Removed(s.pending, id))
  }

  function Run(ranks: set<string>, acts: seq<Action>): State {
    if acts == [] then Initial(ranks)
    else Step(Run(ranks, acts[..|acts| - 1]), acts[|acts| - 1])
  }

  // ---- the invariant ----

  ghost predicate Waiting(m: seq<Entry>, rid: string, tag: string) {
    exists e :: e in m && e.kind.FinalPending? && e.rid == rid && e.lib == tag
  }

  ghost predicate Inv(s: State) {
    && s.marked <= s.ranks && s.decided.Keys <= s.marked
    && (s.replies != [] ==> AllFinal(s))
    && (forall r | r in s.decided :: Waiting(s.pending, r, s.decided[r]) || (r, s.decided[r]) in s.replies)
    && (s.late != {} ==> AllFinal(s) && forall r | r in s.decided :: (r, s.decided[r]) in s.replies)
  }

  lemma {:induction false} FinalsHas(m: seq<Entry>, e: Entry)
    requires e in m && e.kind.FinalPending?
    ensures e in Finals(m)
    decreases |m|
  {
    var n := |m| - 1;
    if m[n] != e {
      assert e in m[..n];
      FinalsHas(m[..n], e);
    }
  }

  lemma ReleasesHas(m: seq<Entry>, rid: string, tag: string)
    requires Waiting(m, rid, tag)
    ensures (rid, tag) in Releases(m)
  {
    var e :| e in m && e.kind.FinalPending? && e.rid == rid && e.lib == tag;
    FinalsHas(m, e);
    var i :| 0 <= i < |Finals(m)| && Finals(m)[i] == e;
    assert Releases(m)[i] == (rid, tag);
  }

  lemma {:induction false} KeptHas(m: seq<Entry>, id: string, e: Entry)
    requires e in m && e.key != id
    ensures e in Kept(m, id)
    decreases |m|
  {
    var n := |m| - 1;
    if m[n] != e {
      assert e in m[..n];
      KeptHas(m[..n], id, e);
    }
  }

  /** Compacting the registry loses no message with another key. */
  lemma RemovedHas(m: seq<Entry>, id: string, e: Entry)
    requires e in m && e.key != id
    ensures e in Removed(m, id)
  {
    assert m[..0] == [] && m[..|m|] == m;
    var k := ShiftEnds(m, m, id, 0, 0);
    KeptHas(m, id, e);
    assert e in Removed(m, id)[..k];
  }

  lemma DecideKeeps(s: State, rid: string, tag: string, key: string)
    requires Inv(s) && Enabled(s, Decide(rid, tag, key))
    ensures Inv(Step(s, Decide(rid, tag, key)))
  {
    hide Waiting, Releases;
    var t := Step(s, Decide(rid, tag, key));
    if AllFinal(s) {
      assert t.replies[|t.replies| - 1] == (rid, tag);
      forall r | r in t.decided
        ensures (r, t.decided[r]) in t.replies
      {
        if r != rid {
          if Waiting(s.pending, r, s.decided[r]) {
            ReleasesHas(s.pending, r, s.decided[r]);
          }
          assert (r, s.decided[r]) in s.replies + Releases(s.pending);
        }
      }
    } else {
      forall r | r in t.decided
        ensures Waiting(t.pending, r, t.decided[r])
      {
        StillWaiting(s.pending, Entry(key, FinalPending, tag, rid), r, t.decided[r]);
      }
    }
  }

  lemma StillWaiting(m: seq<Entry>, e: Entry, rid: string, tag: string)
    ensures Waiting(m, rid, tag) ==> Waiting(m + [e], rid, tag)
    ensures e.kind.FinalPending? && e.rid == rid && e.lib == tag ==> Waiting(m + [e], rid, tag)
  {
    assert e in m + [e];
  }

  lemma StepKeeps(s: State, a: Action)
    requires Inv(s)
    ensures Inv(Step(s, a))
  {
    hide Removed, Releases;
    if Enabled(s, a) {
      match a
      case Mark(_) =>
      case Decide(rid, tag, key) => DecideKeeps(s, rid, tag, key);
      case AddOther(e) =>
        forall r | r in s.decided
          ensures Waiting(s.pending, r, s.decided[r]) ==> Waiting(s.pending + [e], r, s.decided[r])
        {
          StillWaiting(s.pending, e, r, s.decided[r]);
        }
      case RemoveOther(id) =>
        forall r | r in s.decided && Waiting(s.pending, r, s.decided[r])
          ensures Waiting(Removed(s.pending, id), r, s.decided[r])
        {
          var e :| e in s.pending && e.kind.FinalPending? && e.rid == r && e.lib == s.decided[r];
          RemovedHas(s.pending, id, e);
        }
    }
  }

  lemma InitialInv(ranks: set<string>)
    ensures Inv(Initial(ranks))
  {
  }

  lemma {:induction false} RunKeeps(ranks: set<string>, acts: seq<Action>)
    ensures Inv(Run(ranks, acts)) && Run(ranks, acts).ranks == ranks
    decreases |acts|
  {
    hide Inv;
    if acts == [] {
      InitialInv(ranks);
    } else {
      RunKeeps(ranks, acts[..|acts| - 1]);
      StepKeeps(Run(ranks, acts[..|acts| - 1]), acts[|acts| - 1]);
    }
  }

  /** No rank is replied to before every registered rank is final. */
  lemma NobodyBeforeAll(ranks: set<string>, acts: seq<Action>)
    requires Run(ranks, acts).replies != []
    ensures Run(ranks, acts).marked == ranks && forall r | r in ranks :: Mark(r) in acts
  {
    RunKeeps(ranks, acts);
    RecordsAreTrue(ranks, acts);
  }

  /** From the first decider on that finds everybody final, every rank that has
      decided has been replied to. */
  lemma FirstReleaseReachesAllDecided(ranks: set<string>, acts: seq<Action>, rid: string)
    requires Run(ranks, acts).late != {} && rid in Run(ranks, acts).decided
    ensures var s := Run(ranks, acts); (rid, s.decided[rid]) in s.replies
  {
    RunKeeps(ranks, acts);
  }

  /** Once every rank has taken its locked step, every rank has been replied
      to under its own tag. */
  lemma {:induction false} EverybodyIsReleased(ranks: set<string>, acts: seq<Action>, rid: string)
    requires ranks <= Run(ranks, acts).decided.Keys && rid in ranks
    ensures var s := Run(ranks, acts); (rid, s.decided[rid]) in s.replies && Asked(acts, rid, s.decided[rid])
    decreases |acts|
  {
    var front := acts[..|acts| - 1];
    var s := Run(ranks, front);
    var a := acts[|acts| - 1];
    RunKeeps(ranks, front);
    StepKeeps(s, a);
    RecordsAreTrue(ranks, acts);
    if ranks <= s.decided.Keys {
      EverybodyIsReleased(ranks, front, rid);
    } else {
      var r :| r in ranks && r !in s.decided;
      assert Enabled(s, a) && a.Decide?;
    }
  }

  // ---- what is recorded is what was asked ----

  ghost predicate Asked(acts: seq<Action>, rid: string, tag: string) {
    exists key :: Decide(rid, tag, key) in acts
  }

  /** Final are the ranks that were marked; a rank's tag is that of its own
      finalize request. */
  ghost predicate Recorded(ranks: set<string>, acts: seq<Action>, s: State) {
    && (forall r :: r in s.marked <==> r in ranks && Mark(r) in acts)
    && (forall r | r in s.decided :: Asked(acts, r, s.decided[r]))
  }

  lemma StepRecords(ranks: set<string>, acts: seq<Action>, s: State, a: Action)
    requires Recorded(ranks, acts, s) && s.ranks == ranks
    ensures Recorded(ranks, acts + [a], Step(s, a))
  {
    hide Removed, Releases;
    var t := Step(s, a);
    assert a in acts + [a] && forall x | x in acts :: x in acts + [a];
    forall r | r in t.decided
      ensures Asked(acts + [a], r, t.decided[r])
    {
      if r in s.decided && t.decided[r] == s.decided[r] {
        var key :| Decide(r, s.decided[r], key) in acts;
        assert Decide(r, s.decided[r], key) in acts + [a];
      }
    }
  }

  lemma {:induction false} RecordsAreTrue(ranks: set<string>, acts: seq<Action>)
    ensures Recorded(ranks, acts, Run(ranks, acts))
    decreases |acts|
  {
    hide Step, Inv;
    if acts == [] {
      assert Recorded(ranks, [], Initial(ranks));
    } else {
      var front := acts[..|acts| - 1];
      RecordsAreTrue(ranks, front);
      RunKeeps(ranks, front);
      StepRecords(ranks, front, Run(ranks, front), acts[|acts| - 1]);
      assert front + [acts[|acts| - 1]] == acts;
    }
  }

  // ---- releases to nobody ----

  const NOBODY: (string, string) := ("", "")

  /** A final message behind the kept ones that is moved to the front. */
  ghost predicate LeavesHusk(m: seq<Entry>, id: string) {
    exists j :: |Kept(m, id)| <= j < |m| && m[j].kind.FinalPending? && m[j].key != id
  }

  lemma {:induction false} FinalsConcat(a: seq<Entry>, b: seq<Entry>)
    ensures Finals(a + b) == Finals(a) + Finals(b)
    decreases |b|
  {
    if b == [] {
      assert a + b == a;
    } else {
      assert (a + b)[..|a + b| - 1] == a + b[..|b| - 1];
      FinalsConcat(a, b[..|b| - 1]);
    }
  }

  lemma ReleasesConcat(a: seq<Entry>, b: seq<Entry>)
    ensures Releases(a + b) == Releases(a) + Releases(b)
  {
    FinalsConcat(a, b);
  }

  lemma ReleasesOne(e: Entry)
    ensures Releases([e]) == if e.kind.FinalPending? then [(e.rid, e.lib)] else []
  {
    assert [e][..0] == [];
    assert Finals([e]) == if e.kind.FinalPending? then [e] else [];
  }

  lemma {:induction false} FinalsOnly(m: seq<Entry>, e: Entry)
    requires e in Finals(m)
    ensures e in m && e.kind.FinalPending?
    decreases |m|
  {
    var n := |m| - 1;
    if e in Finals(m[..n]) {
      FinalsOnly(m[..n], e);
    }
  }

  /** The releases are just the waiting final messages. */
  lemma ReleasesAre(m: seq<Entry>, rid: string, tag: string)
    ensures (rid, tag) in Releases(m) <==> Waiting(m, rid, tag)
  {
    if Waiting(m, rid, tag) {
      ReleasesHas(m, rid, tag);
    }
    if (rid, tag) in Releases(m) {
      var i :| 0 <= i < |Releases(m)| && Releases(m)[i] == (rid, tag);
      FinalsOnly(m, Finals(m)[i]);
    }
  }

  lemma {:induction false} KeptOnly(m: seq<Entry>, id: string, e: Entry)
    requires e in Kept(m, id)
    ensures e in m && e.key != id
    decreases |m|
  {
    var n := |m| - 1;
    if e in Kept(m[..n], id) {
      KeptOnly(m[..n], id, e);
    }
  }

  /** A compaction makes a release go out to nobody if and only if it moves a
      final message from behind the kept ones. */
  lemma StraysExactly(m: seq<Entry>, id: string)
    requires NOBODY !in Releases(m)
    ensures NOBODY in Releases(Removed(m, id)) <==> LeavesHusk(m, id)
  {
    hide Releases, Finals, Kept, Removed;
    var after, kept := Removed(m, id), Kept(m, id);
    var k := |kept|;
    ReleasesAre(m, "", "");
    ReleasesAre(after, "", "");
    RemovedIs(m, id);
    if LeavesHusk(m, id) {
      var j :| k <= j < |m| && m[j].kind.FinalPending? && m[j].key != id;
      assert after[j] == Leftovers(m, id, k)[j - k] == Leftover(m, id, j);
      assert after[j] in after;
    }
    if NOBODY in Releases(after) {
      var e :| e in after && e.kind.FinalPending? && e.rid == "" && e.lib == "";
      var j :| 0 <= j < |after| && after[j] == e;
      if j < k {
        KeptOnly(m, id, e);
      } else {
        assert e == Leftovers(m, id, k)[j - k] == Leftover(m, id, j);
      }
    }
  }

  /** Some compaction of the run has moved a final message so. */
  ghost predicate Strayed(ranks: set<string>, acts: seq<Action>) {
    acts != []
    && var front, a := acts[..|acts| - 1], acts[|acts| - 1];
       (Strayed(ranks, front)
        || (a.RemoveOther? && Enabled(Run(ranks, front), a) && LeavesHusk(Run(ranks, front).pending, a.id)))
  }

  lemma {:induction false} StrayedExactly(ranks: set<string>, acts: seq<Action>)
    requires "" !in ranks
    ensures NOBODY in Releases(Run(ranks, acts).pending) <==> Strayed(ranks, acts)
    decreases |acts|
  {
    hide Releases, Removed, LeavesHusk, Inv;
    if acts == [] {
      NobodyYet(ranks);
    } else {
      var front, a := acts[..|acts| - 1], acts[|acts| - 1];
      var s := Run(ranks, front);
      StrayedExactly(ranks, front);
      RunKeeps(ranks, front);
      if Enabled(s, a) {
        match a
        case Mark(_) =>
        case Decide(rid, tag, key) =>
          RanksOnly(s, rid);
          AddStray(s.pending, Entry(key, FinalPending, tag, rid));
        case AddOther(e) => AddStray(s.pending, e);
        case RemoveOther(id) =>
          if NOBODY in Releases(s.pending) {
            StrayStays(s, id);
          } else {
            StraysExactly(s.pending, id);
          }
      }
    }
  }

  lemma RanksOnly(s: State, rid: string)
    requires Inv(s) && rid in s.marked
    ensures rid in s.ranks
  {
  }

  lemma NobodyYet(ranks: set<string>)
    ensures Releases(Initial(ranks).pending) == []
  {
  }

  lemma AddStray(m: seq<Entry>, e: Entry)
    requires e.kind.FinalPending? ==> e.rid != ""
    ensures NOBODY in Releases(m + [e]) <==> NOBODY in Releases(m)
  {
    hide Releases;
    ReleasesConcat(m, [e]);
    ReleasesOne(e);
  }

  lemma StrayStays(s: State, id: string)
    requires Enabled(s, RemoveOther(id)) && NOBODY in Releases(s.pending)
    ensures NOBODY in Releases(Removed(s.pending, id))
  {
    hide Releases, Removed;
    ReleasesAre(s.pending, "", "");
    var e :| e in s.pending && e.kind.FinalPending? && e.rid == "" && e.lib == "";
    RemovedHas(s.pending, id, e);
    ReleasesAre(Removed(s.pending, id), "", "");
  }

  /** Some rank of the run decided, finding everybody final, after that. */
  ghost predicate SentAstray(ranks: set<string>, acts: seq<Action>) {
    acts != []
    && var front, a := acts[..|acts| - 1], acts[|acts| - 1];
       (SentAstray(ranks, front)
        || (a.Decide? && Enabled(Run(ranks, front), a) && AllFinal(Run(ranks, front)) && Strayed(ranks, front)))
  }

  /** In every run a reply goes out to nobody if and only if a compaction has
      left a husk of a final message and a rank then decided finding everybody
      final. */
  lemma {:induction false} RepliesStrayExactly(ranks: set<string>, acts: seq<Action>)
    requires "" !in ranks
    ensures NOBODY in Run(ranks, acts).replies <==> SentAstray(ranks, acts)
    decreases |acts|
  {
    hide Releases, Removed, Strayed, Inv;
    if acts != [] {
      var front, a := acts[..|acts| - 1], acts[|acts| - 1];
      var s := Run(ranks, front);
      RepliesStrayExactly(ranks, front);
      StrayedExactly(ranks, front);
      RunKeeps(ranks, front);
      if Enabled(s, a) && a.Decide? {
        RanksOnly(s, a.rid);
      }
    }
  }

  // ---- how often a rank is replied to ----

  function Times(replies: seq<(string, string)>, r: string): nat {
    if replies == [] then 0
    else Times(replies[..|replies| - 1], r) + if replies[|replies| - 1].0 == r then 1 else 0
  }

  lemma {:induction false} TimesConcat(a: seq<(string, string)>, b: seq<(string, string)>, r: string)
    ensures Times(a + b, r) == Times(a, r) + Times(b, r)
    decreases |b|
  {
    if b == [] {
      assert a + b == a;
    } else {
      assert (a + b)[..|a + b| - 1] == a + b[..|b| - 1];
      TimesConcat(a, b[..|b| - 1], r);
    }
  }

  lemma TimesOne(x: (string, string), r: string)
    ensures Times([x], r) == if x.0 == r then 1 else 0
  {
    assert [x][..0] == [];
  }

  /** How often rank r waits to be released. */
  function Waits(m: seq<Entry>, r: string): nat {
    Times(Releases(m), r)
  }

  lemma WaitsAdd(m: seq<Entry>, e: Entry, r: string)
    ensures Waits(m + [e], r) == Waits(m, r) + if e.kind.FinalPending? && e.rid == r then 1 else 0
  {
    hide Releases, Times;
    ReleasesConcat(m, [e]);
    ReleasesOne(e);
    TimesConcat(Releases(m), Releases([e]), r);
    if e.kind.FinalPending? {
      TimesOne((e.rid, e.lib), r);
    } else {
      TimesNone([], r);
    }
  }

  lemma {:induction false} TimesNone(replies: seq<(string, string)>, r: string)
    requires forall x | x in replies :: x.0 != r
    ensures Times(replies, r) == 0
  {
    if replies != [] {
      assert replies[|replies| - 1] in replies;
      TimesNone(replies[..|replies| - 1], r);
    }
  }

  lemma {:induction false} WaitsKept(m: seq<Entry>, id: string, r: string)
    requires forall e | e in m && e.kind.FinalPending? :: e.key != id
    ensures Waits(Kept(m, id), r) == Waits(m, r)
    decreases |m|
  {
    hide Waits;
    if m != [] {
      var front, e := m[..|m| - 1], m[|m| - 1];
      assert m == front + [e] && e in m;
      WaitsKept(front, id, r);
      WaitsAdd(front, e, r);
      WaitsAdd(Kept(front, id), e, r);
    }
  }

  /** Compacting the registry does not change how often a rank waits. */
  lemma WaitsRemoved(m: seq<Entry>, id: string, r: string)
    requires r != "" && forall e | e in m && e.kind.FinalPending? :: e.key != id
    ensures Waits(Removed(m, id), r) == Waits(m, r)
  {
    hide Releases, Times, Kept, Removed;
    RemovedIs(m, id);
    var kept := Kept(m, id);
    var left := Leftovers(m, id, |kept|);
    ReleasesConcat(kept, left);
    TimesConcat(Releases(kept), Releases(left), r);
    WaitsKept(m, id, r);
    forall x | x in Releases(left)
      ensures x.0 != r
    {
      ReleasesAre(left, x.0, x.1);
      var e :| e in left && e.kind.FinalPending? && e.rid == x.0 && e.lib == x.1;
      var i :| 0 <= i < |left| && left[i] == e;
      assert e == Leftover(m, id, |kept| + i);
    }
    TimesNone(Releases(left), r);
  }

  /** How often rank r is to be replied to: a rank that was late once, at its
      own step; any other that has decided once for every late one. */
  function Due(s: State, r: string): nat {
    if r in s.late then 1 else if r in s.decided then |s.late| else 0
  }

  ghost predicate CountsRight(s: State, r: string) {
    && s.late <= s.decided.Keys
    && Waits(s.pending, r) == (if r in s.decided && r !in s.late then 1 else 0)
    && Times(s.replies, r) == Due(s, r)
  }

  lemma DecideCounts(s: State, rid: string, tag: string, key: string, r: string)
    requires CountsRight(s, r) && Inv(s) && Enabled(s, Decide(rid, tag, key))
    ensures CountsRight(Step(s, Decide(rid, tag, key)), r)
  {
    hide Times, Releases, Waiting;
    if AllFinal(s) {
      TimesConcat(s.replies, Releases(s.pending), r);
      TimesConcat(s.replies + Releases(s.pending), [(rid, tag)], r);
      TimesOne((rid, tag), r);
    } else {
      WaitsAdd(s.pending, Entry(key, FinalPending, tag, rid), r);
    }
  }

  lemma StepCounts(s: State, a: Action, r: string)
    requires CountsRight(s, r) && Inv(s) && r != ""
    ensures CountsRight(Step(s, a), r)
  {
    hide Times, Waits, Removed, Inv;
    if Enabled(s, a) {
      match a
      case Mark(_) =>
      case Decide(rid, tag, key) => DecideCounts(s, rid, tag, key, r);
      case AddOther(e) => WaitsAdd(s.pending, e, r);
      case RemoveOther(id) => WaitsRemoved(s.pending, id, r);
    }
  }

  lemma CountsAtFirst(ranks: set<string>, r: string)
    ensures CountsRight(Initial(ranks), r)
  {
  }

  lemma {:induction false} RunCounts(ranks: set<string>, acts: seq<Action>, r: string)
    requires r != ""
    ensures CountsRight(Run(ranks, acts), r)
    decreases |acts|
  {
    hide CountsRight, Step;
    if acts == [] {
      CountsAtFirst(ranks, r);
    } else {
      RunCounts(ranks, acts[..|acts| - 1], r);
      RunKeeps(ranks, acts[..|acts| - 1]);
      StepCounts(Run(ranks, acts[..|acts| - 1]), acts[|acts| - 1], r);
    }
  }

  /** In every run, how often a rank has been replied to; more than once if and
      only if it decided before all were final and two others after that. */
  lemma RepliedExactly(ranks: set<string>, acts: seq<Action>, r: string)
    requires r != ""
    ensures var s := Run(ranks, acts);
      && Times(s.replies, r) == Due(s, r)
      && (Times(s.replies, r) > 1 <==> r in s.decided && r !in s.late && |s.late| > 1)
  {
    RunCounts(ranks, acts, r);
  }

  // ---- runs that show both ----

  lemma RunNext(ranks: set<string>, acts: seq<Action>, k: nat)
    requires k < |acts|
    ensures Run(ranks, acts[..k + 1]) == Step(Run(ranks, acts[..k]), acts[k])
  {
    assert acts[..k + 1][..k] == acts[..k];
  }

  /** While a's final message waits, the answer to an older claim removes the
      claim's entry in front of it. */
  function StrayRun(): seq<Action> {
    [
      AddOther(Entry("k", ClaimPending, "t", "a")),
      Mark("a"), Decide("a", "u", "f"),
      RemoveOther("k"),
      Mark("b"), Decide("b", "v", "g")
    ]
  }

  lemma StrayCompaction()
    ensures var m := [Entry("k", ClaimPending, "t", "a"), Entry("f", FinalPending, "u", "a")];
      Releases(Removed(m, "k")) == [("a", "u"), NOBODY]
  {
    hide Releases, Removed;
    var c, f := Entry("k", ClaimPending, "t", "a"), Entry("f", FinalPending, "u", "a");
    var m := [c, f];
    assert m[..1] == [c] && [c][..0] == [];
    assert Kept([c], "k") == [];
    assert Kept(m, "k") == [f];
    RemovedIs(m, "k");
    assert Leftovers(m, "k", 1) == [Husk(f)];
    ReleasesConcat([f], [Husk(f)]);
    ReleasesOne(f);
    ReleasesOne(Husk(f));
  }

  /** A reply goes out to nobody. */
  lemma ReleasesCanStray()
    ensures Run({"a", "b"}, StrayRun()).replies == [("a", "u"), NOBODY, ("b", "v")]
  {
    hide Run, Releases, Removed;
    var ranks, h := {"a", "b"}, StrayRun();
    assert h[..0] == [];
    RunNone(ranks);
    RunNext(ranks, h, 0);
    RunNext(ranks, h, 1);
    assert Run(ranks, h[..2]).marked == {"a"} && !("b" in {"a"});
    RunNext(ranks, h, 2);
    assert Run(ranks, h[..3]).pending == [Entry("k", ClaimPending, "t", "a"), Entry("f", FinalPending, "u", "a")];
    RunNext(ranks, h, 3);
    StrayCompaction();
    RunNext(ranks, h, 4);
    RunNext(ranks, h, 5);
    assert h[..6] == h;
  }

  lemma RunNone(ranks: set<string>)
    ensures Run(ranks, []) == Initial(ranks)
  {
  }

  /** Rank a decides before the others are final. */
  function TwiceRun(): seq<Action> {
    [Mark("a"), Decide("a", "t", "f"), Mark("b"), Mark("c"), Decide("b", "u", "g"), Decide("c", "v", "h")]
  }

  /** It is released twice. */
  lemma ReleasesCanRepeat()
    ensures Run({"a", "b", "c"}, TwiceRun()).replies == [("a", "t"), ("b", "u"), ("a", "t"), ("c", "v")]
  {
    hide Run, Releases;
    var ranks, h := {"a", "b", "c"}, TwiceRun();
    var f := Entry("f", FinalPending, "t", "a");
    assert h[..0] == [];
    RunNone(ranks);
    RunNext(ranks, h, 0);
    assert !("b" in {"a"});
    RunNext(ranks, h, 1);
    assert Run(ranks, h[..2]).pending == [f];
    RunNext(ranks, h, 2);
    RunNext(ranks, h, 3);
    ReleasesOne(f);
    RunNext(ranks, h, 4);
    RunNext(ranks, h, 5);
    assert h[..6] == h;
  }
}
