/** What every run of the virtualization agent keeps. A ledger, which the agent
    does not have, records for each submitted request the ids made for it and
    where it is; the store and the queues are determined by the ledger. */
module PipelineProof {
  import opened Bytes
  import opened TxStore
  import opened Pipeline

  datatype Place = AtSystem | AtDevice | AtManager | AtResults | AtSystemAgain | AtCollage | Answered

  datatype Job = Job(req: Request, chain: seq<Tid>, place: Place)

  /** Id number `link` of job number `job`. */
  datatype Spot = Spot(job: nat, link: nat)

  datatype Ledger = Ledger(jobs: seq<Job>, at: map<Tid, Spot>, answered: seq<nat>)

  function ChainLength(place: Place): nat {
    match place
    case AtSystem => 1
    case AtDevice => 2
    case AtManager => 3
    case AtResults => 3
    case AtSystemAgain => 3
    case AtCollage => 4
    case Answered => 0
  }

  /** A well-formed ledger: ids and spots correspond one to one. */
  ghost predicate Proper(L: Ledger) {
    && (forall t | t in L.at :: AtSpot(L, t))
    && (forall k | 0 <= k < |L.jobs| :: JobProper(L, k))
  }

  ghost predicate JobProper(L: Ledger, k: nat)
    requires k < |L.jobs|
  {
    var chain := L.jobs[k].chain;
    && |chain| == ChainLength(L.jobs[k].place)
    && (forall i, j | 0 <= i < j < |chain| :: chain[i] < chain[j])
    && (forall i | 0 <= i < |chain| :: chain[i] in L.at && L.at[chain[i]] == Spot(k, i))
  }

  ghost predicate AtSpot(L: Ledger, t: Tid)
    requires t in L.at
  {
    var s := L.at[t];
    s.job < |L.jobs| && s.link < |L.jobs[s.job].chain| && L.jobs[s.job].chain[s.link] == t
  }

  // ---- the store, from the ledger ----

  function KindAt(link: nat): Kind {
    if link == 0 then SysReq else if link == 1 then DevReq else if link == 2 then DevResp else SysResp
  }

  function DeferredAt(body: Body, link: nat): bool {
    (link == 1 && !body.Register?) || (link >= 3 && !body.Identify?)
  }

  function DataAt(env: Env, body: Body, link: nat, place: Place): Option<Payload> {
    if link == 0 then PayloadOf(body)
    else if link == 1 then None
    else if link == 2 then
      if body.Register? then Some(Misc([env.extAddr] + env.manifest))
      else if body.Send? && (place == AtSystemAgain || place == AtCollage) then
        Some(RecvArgs(env.kernel(body.resource, body.args)))
      else None
    else if body.Identify? then Some(Misc(Clines(env, env.scan(body.dirs)))) else None
  }

  function DevDataAt(env: Env, body: Body, link: nat): Option<seq<KernelId>> {
    if link == 2 && body.Identify? then Some(env.scan(body.dirs)) else None
  }

  /** The entry that id number `link` of a job must have. */
  function EntryOf(env: Env, j: Job, link: nat): Entry
    requires link < |j.chain|
  {
    Entry(KindAt(link), Some(HeaderOf(j.req)), Before(j.chain, link), if link + 1 < |j.chain| then 1 else 0,
      DeferredAt(j.req.body, link), DataAt(env, j.req.body, link, j.place), DevDataAt(env, j.req.body, link))
  }

  ghost predicate Stored(env: Env, h: Heap, L: Ledger) {
    && h.Keys == L.at.Keys
    && forall t | t in h :: AtSpot(L, t) && h[t] == EntryOf(env, L.jobs[L.at[t].job], L.at[t].link)
  }

  // ---- the queues, from the ledger ----

  /** t is the newest id of a job at this place. */
  ghost predicate Ends(L: Ledger, t: Tid, place: Place) {
    && t in L.at
    && AtSpot(L, t)
    && L.jobs[L.at[t].job].place == place
    && L.at[t].link + 1 == |L.jobs[L.at[t].job].chain|
  }

  /** A queue holds the newest ids of the jobs at its place, once each. */
  ghost predicate Queued(q: seq<Tid>, L: Ledger, place: Place) {
    && (forall i | 0 <= i < |q| :: Ends(L, q[i], place))
    && (forall i, j | 0 <= i < j < |q| :: q[i] != q[j])
    && (forall k | 0 <= k < |L.jobs| && L.jobs[k].place == place :: InQueue(q, L.jobs[k]))
  }

  ghost predicate InQueue(q: seq<Tid>, j: Job) {
    |j.chain| > 0 && j.chain[|j.chain| - 1] in q
  }

  function Tickets(q: seq<Ticket>): seq<Tid> {
    seq(|q|, i requires 0 <= i < |q| => q[i].resp)
  }

  function Outcomes(q: seq<Outcome>): seq<Tid> {
    seq(|q|, i requires 0 <= i < |q| => q[i].resp)
  }

  /** A ticket points at its own job's first entry; an outcome is what the
      kernel makes of its own job's arguments. */
  ghost predicate TicketsRight(q: seq<Ticket>, L: Ledger) {
    forall i | 0 <= i < |q| :: TicketRight(q[i], L)
  }

  ghost predicate TicketRight(t: Ticket, L: Ledger) {
    && t.resp in L.at && AtSpot(L, t.resp)
    && var j := L.jobs[L.at[t.resp].job]; j.req.body.Send? && t.source == j.chain[0]
  }

  ghost predicate OutcomesRight(env: Env, q: seq<Outcome>, L: Ledger) {
    forall i | 0 <= i < |q| :: OutcomeRight(env, q[i], L)
  }

  ghost predicate OutcomeRight(env: Env, o: Outcome, L: Ledger) {
    && o.resp in L.at && AtSpot(L, o.resp)
    && var b := L.jobs[L.at[o.resp].job].req.body; b.Send? && o.outs == env.kernel(b.resource, b.args)
  }

  ghost predicate AllQueued(s: State, L: Ledger) {
    && Queued(s.req0, L, AtSystem)
    && Queued(s.req1, L, AtDevice)
    && Queued(Tickets(s.ingress), L, AtManager)
    && Queued(Outcomes(s.egress), L, AtResults)
    && Queued(s.resp1, L, AtSystemAgain)
    && Queued(s.resp0, L, AtCollage)
  }

  // ---- the replies, from the ledger ----

  ghost predicate Replied(env: Env, replies: seq<(Source, Reply)>, L: Ledger) {
    && |replies| == |L.answered|
    && (forall i | 0 <= i < |L.answered| ::
          L.answered[i] < |L.jobs| && replies[i] == Answer(env, L.jobs[L.answered[i]].req))
    && (forall i, j | 0 <= i < j < |L.answered| :: L.answered[i] != L.answered[j])
    && (forall k | 0 <= k < |L.jobs| :: L.jobs[k].place == Answered <==> k in L.answered)
  }

  ghost predicate Inv(env: Env, s: State, L: Ledger) {
    && Proper(L)
    && Stored(env, s.holders, L)
    && AllQueued(s, L)
    && TicketsRight(s.ingress, L)
    && OutcomesRight(env, s.egress, L)
    && Replied(env, s.replies, L)
    && (forall t | t in s.holders :: t < s.next)
    && !s.fault
  }

  // ---- one job moves ----

  /** M differs from L in job k alone (which may be new). */
  ghost predicate OnlyJob(L: Ledger, M: Ledger, k: nat) {
    && |L.jobs| <= |M.jobs| && k < |M.jobs| && (|L.jobs| < |M.jobs| ==> k == |L.jobs| && |M.jobs| == k + 1)
    && (forall i | 0 <= i < |L.jobs| && i != k :: M.jobs[i] == L.jobs[i])
    && (forall t | t in L.at && L.at[t].job != k :: t in M.at && M.at[t] == L.at[t])
    && (forall t | t in M.at && M.at[t].job != k :: t in L.at && L.at[t] == M.at[t])
  }

  lemma OthersStayQueued(q: seq<Tid>, L: Ledger, M: Ledger, k: nat, place: Place)
    requires OnlyJob(L, M, k) && Queued(q, L, place)
    requires k < |L.jobs| ==> L.jobs[k].place != place
    requires M.jobs[k].place != place
    ensures Queued(q, M, place)
  {
    forall i | 0 <= i < |q|
      ensures Ends(M, q[i], place)
    {
      assert Ends(L, q[i], place);
    }
    forall i | 0 <= i < |M.jobs| && M.jobs[i].place == place
      ensures InQueue(q, M.jobs[i])
    {
      assert InQueue(q, L.jobs[i]);
    }
  }

  /** Taking the newest id of job k out of the queue it was in. */
  lemma Dequeued(q: seq<Tid>, r: seq<Tid>, n: nat, L: Ledger, M: Ledger, k: nat, place: Place)
    requires OnlyJob(L, M, k) && Proper(L) && Queued(q, L, place) && k < |L.jobs| && M.jobs[k].place != place
    requires n < |q| && q[n] in L.at && L.at[q[n]].job == k && r == q[..n] + q[n + 1..]
    ensures Queued(r, M, place)
  {
    hide Ends, InQueue, Proper, OnlyJob;
    forall i | 0 <= i < |r|
      ensures Ends(M, r[i], place)
    {
      var j := if i < n then i else i + 1;
      assert r[i] == q[j] && q[j] != q[n];
      EndsElsewhere(q[n], q[j], L, M, k, place);
    }
    forall i | 0 <= i < |M.jobs| && M.jobs[i].place == place
      ensures InQueue(r, M.jobs[i])
    {
      StillInQueue(q, r, n, L, M, k, i, place);
    }
  }

  lemma EndsElsewhere(t: Tid, u: Tid, L: Ledger, M: Ledger, k: nat, place: Place)
    requires OnlyJob(L, M, k) && k < |L.jobs|
    requires t in L.at && L.at[t].job == k && u != t && Ends(L, t, place) && Ends(L, u, place)
    ensures Ends(M, u, place)
  {
  }

  lemma StillInQueue(q: seq<Tid>, r: seq<Tid>, n: nat, L: Ledger, M: Ledger, k: nat, i: nat, place: Place)
    requires OnlyJob(L, M, k) && Proper(L) && Queued(q, L, place) && k < |L.jobs| && M.jobs[k].place != place
    requires n < |q| && q[n] in L.at && L.at[q[n]].job == k && r == q[..n] + q[n + 1..]
    requires i < |M.jobs| && M.jobs[i].place == place
    ensures InQueue(r, M.jobs[i])
  {
    hide Ends;
    assert InQueue(q, L.jobs[i]);
    var last := L.jobs[i].chain[|L.jobs[i].chain| - 1];
    assert JobProper(L, i);
    assert L.at[last].job == i;
    InRest(q, r, n, last);
  }

  lemma InRest<T>(q: seq<T>, r: seq<T>, n: nat, x: T)
    requires n < |q| && r == q[..n] + q[n + 1..] && x in q && x != q[n]
    ensures x in r
  {
    var j :| 0 <= j < |q| && q[j] == x;
    assert x == r[if j < n then j else j - 1];
  }

  /** Putting the newest id of job k into the queue of its new place. */
  lemma Enqueued(q: seq<Tid>, t: Tid, L: Ledger, M: Ledger, k: nat, place: Place)
    requires OnlyJob(L, M, k) && Queued(q, L, place)
    requires k < |L.jobs| ==> L.jobs[k].place != place
    requires Ends(M, t, place) && M.at[t].job == k
    ensures Queued(q + [t], M, place)
  {
    var r := q + [t];
    forall i | 0 <= i < |q|
      ensures Ends(M, q[i], place) && M.at[q[i]].job != k
    {
      assert Ends(L, q[i], place);
    }
    forall i | 0 <= i < |M.jobs| && M.jobs[i].place == place
      ensures InQueue(r, M.jobs[i])
    {
      if i == k {
        assert r[|q|] == t;
      } else {
        assert InQueue(q, L.jobs[i]);
      }
    }
  }

  // ---- the four ways a job moves ----

  function Open(L: Ledger, t: Tid, req: Request): Ledger {
    L.(jobs := L.jobs + [Job(req, [t], AtSystem)], at := L.at[t := Spot(|L.jobs|, 0)])
  }

  function Extend(L: Ledger, k: nat, t: Tid, place: Place): Ledger
    requires k < |L.jobs|
  {
    var j := L.jobs[k];
    L.(jobs := L.jobs[k := Job(j.req, j.chain + [t], place)], at := L.at[t := Spot(k, |j.chain|)])
  }

  function Move(L: Ledger, k: nat, place: Place): Ledger
    requires k < |L.jobs|
  {
    L.(jobs := L.jobs[k := L.jobs[k].(place := place)])
  }

  ghost function Close(L: Ledger, k: nat): Ledger
    requires k < |L.jobs|
  {
    var j := L.jobs[k];
    L.(jobs := L.jobs[k := Job(j.req, [], Answered)], at := L.at - Elements(j.chain), answered := L.answered + [k])
  }

  lemma SpotsOf(L: Ledger)
    requires Proper(L)
    ensures forall u | u in L.at :: AtSpot(L, u) && L.at[u].job < |L.jobs|
  {
  }

  lemma ProperAt(L: Ledger, k: nat)
    requires Proper(L) && k < |L.jobs|
    ensures JobProper(L, k)
  {
  }

  lemma Untouched(L: Ledger, M: Ledger, k: nat)
    requires Proper(L) && OnlyJob(L, M, k) && JobProper(M, k)
    requires forall t | t in M.at && M.at[t].job == k :: AtSpot(M, t)
    ensures Proper(M)
  {
    hide JobProper, AtSpot;
    forall t | t in M.at
      ensures AtSpot(M, t)
    {
      if M.at[t].job != k {
        SpotUntouched(L, M, k, t);
      }
    }
    forall i | 0 <= i < |M.jobs|
      ensures JobProper(M, i)
    {
      if i != k {
        JobUntouched(L, M, k, i);
      }
    }
  }

  lemma SpotUntouched(L: Ledger, M: Ledger, k: nat, t: Tid)
    requires OnlyJob(L, M, k) && t in L.at && L.at[t].job != k && AtSpot(L, t)
    ensures t in M.at && AtSpot(M, t)
  {
  }

  lemma JobUntouched(L: Ledger, M: Ledger, k: nat, i: nat)
    requires OnlyJob(L, M, k) && i < |L.jobs| && i != k && JobProper(L, i)
    ensures JobProper(M, i)
  {
  }

  lemma Opened(L: Ledger, t: Tid, req: Request)
    requires Proper(L) && t !in L.at
    ensures var M := Open(L, t, req);
      Proper(M) && OnlyJob(L, M, |L.jobs|) && Ends(M, t, AtSystem) && M.at[t].job == |L.jobs|
  {
    hide Proper;
    var M := Open(L, t, req);
    SpotsOf(L);
    Untouched(L, M, |L.jobs|);
  }

  lemma OpenedStore(env: Env, h: Heap, L: Ledger, t: Tid, req: Request)
    requires Stored(env, h, L) && t !in h
    ensures var g := Generate(h, t, SysReq, None);
      Stored(env, g[t := g[t].(header := Some(HeaderOf(req)), data := PayloadOf(req.body))], Open(L, t, req))
  {
    hide EntryOf;
    var M := Open(L, t, req);
    var g := Generate(h, t, SysReq, None);
    var e := g[t].(header := Some(HeaderOf(req)), data := PayloadOf(req.body));
    assert e == EntryOf(env, M.jobs[|L.jobs|], 0) by {
      FirstEntry(env, req, t);
    }
  }

  lemma FirstEntry(env: Env, req: Request, t: Tid)
    ensures Blank(SysReq).(header := Some(HeaderOf(req)), data := PayloadOf(req.body))
         == EntryOf(env, Job(req, [t], AtSystem), 0)
  {
  }

  lemma Extended(L: Ledger, k: nat, t: Tid, place: Place)
    requires Proper(L) && k < |L.jobs| && t !in L.at
    requires forall u | u in L.at :: u < t
    requires ChainLength(place) == |L.jobs[k].chain| + 1
    ensures var M := Extend(L, k, t, place); Proper(M) && OnlyJob(L, M, k) && Ends(M, t, place) && M.at[t].job == k
  {
    hide Proper, ChainLength;
    var M := Extend(L, k, t, place);
    SpotsOf(L);
    ProperAt(L, k);
    assert forall i | 0 <= i < |L.jobs[k].chain| :: M.jobs[k].chain[i] == L.jobs[k].chain[i];
    Untouched(L, M, k);
  }

  /** Linking a new last entry to a job's chain. */
  lemma ExtendedStore(env: Env, h: Heap, L: Ledger, k: nat, t: Tid, place: Place, e: Entry)
    requires Proper(L) && Stored(env, h, L) && k < |L.jobs| && t !in h && |L.jobs[k].chain| > 0
    requires L.jobs[k].place != AtManager && L.jobs[k].place != AtResults && ChainLength(place) == |L.jobs[k].chain| + 1
    requires e == EntryOf(env, Extend(L, k, t, place).jobs[k], |L.jobs[k].chain|)
    ensures var last := L.jobs[k].chain[|L.jobs[k].chain| - 1];
      && last in h
      && h[last].count == 0
      && Stored(env, h[last := h[last].(count := 1)][t := e], Extend(L, k, t, place))
  {
    hide EntryOf;
    var M := Extend(L, k, t, place);
    var j := L.jobs[k];
    var n := |j.chain|;
    var last := j.chain[n - 1];
    assert JobProper(L, k);
    assert L.at[last] == Spot(k, n - 1);
    var g := h[last := h[last].(count := 1)][t := e];
    forall i | 0 <= i < n
      ensures EntryOf(env, M.jobs[k], i) == if i + 1 < n then EntryOf(env, j, i) else EntryOf(env, j, i).(count := 1)
    {
      LongerChain(env, j, t, place, i);
    }
    LongerChain(env, j, t, place, n - 1);
    forall u | u in g
      ensures AtSpot(M, u) && g[u] == EntryOf(env, M.jobs[M.at[u].job], M.at[u].link)
    {
      if u != t {
        assert AtSpot(L, u);
      }
    }
    assert g.Keys == M.at.Keys;
  }

  lemma LongerChain(env: Env, j: Job, t: Tid, place: Place, i: nat)
    requires i < |j.chain| && |j.chain| == ChainLength(j.place) && j.place != AtManager && j.place != AtResults
    requires ChainLength(place) == |j.chain| + 1
    ensures EntryOf(env, Job(j.req, j.chain + [t], place), i)
         == if i + 1 < |j.chain| then EntryOf(env, j, i) else EntryOf(env, j, i).(count := 1)
    ensures i + 1 == |j.chain| ==> EntryOf(env, j, i).count == 0
  {
    assert Before(j.chain + [t], i) == Before(j.chain, i);
  }

  /** The place of a job at the device manager changes, and with the last move
      its response gets the result. */
  lemma Moved(L: Ledger, k: nat, place: Place)
    requires Proper(L) && k < |L.jobs| && ChainLength(place) == |L.jobs[k].chain| > 0
    ensures var M := Move(L, k, place);
      && Proper(M) && OnlyJob(L, M, k)
      && var t := L.jobs[k].chain[|L.jobs[k].chain| - 1]; Ends(M, t, place) && M.at[t].job == k
  {
    hide Proper, ChainLength;
    var M := Move(L, k, place);
    SpotsOf(L);
    ProperAt(L, k);
    Untouched(L, M, k);
  }

  lemma MovedStore(env: Env, h: Heap, L: Ledger, k: nat)
    requires Proper(L) && Stored(env, h, L) && k < |L.jobs| && L.jobs[k].place == AtManager
    ensures Stored(env, h, Move(L, k, AtResults))
  {
    var M := Move(L, k, AtResults);
    forall t | t in h
      ensures AtSpot(M, t) && h[t] == EntryOf(env, M.jobs[M.at[t].job], M.at[t].link)
    {
      assert AtSpot(L, t);
    }
  }

  lemma AnsweredStore(env: Env, h: Heap, L: Ledger, k: nat)
    requires Proper(L) && Stored(env, h, L) && k < |L.jobs| && L.jobs[k].place == AtResults && L.jobs[k].req.body.Send?
    ensures var j := L.jobs[k];
      && |j.chain| == 3 && j.chain[2] in h && h[j.chain[2]].kind == DevResp
      && Stored(env,
           h[j.chain[2] := h[j.chain[2]].(data := Some(RecvArgs(env.kernel(j.req.body.resource, j.req.body.args))))],
           Move(L, k, AtSystemAgain))
  {
    hide EntryOf;
    var M := Move(L, k, AtSystemAgain);
    assert JobProper(L, k);
    var r := L.jobs[k].chain[2];
    assert L.at[r] == Spot(k, 2);
    forall t | t in h
      ensures AtSpot(M, t)
      ensures t != r ==> h[t] == EntryOf(env, M.jobs[M.at[t].job], M.at[t].link)
    {
      assert AtSpot(L, t);
      if L.at[t].job == k {
        AnsweredEntry(env, L.jobs[k], L.at[t].link);
      }
    }
    AnsweredEntry(env, L.jobs[k], 2);
  }

  lemma AnsweredEntry(env: Env, j: Job, i: nat)
    requires j.place == AtResults && j.req.body.Send? && i < |j.chain| == 3
    ensures var result := Some(RecvArgs(env.kernel(j.req.body.resource, j.req.body.args)));
      EntryOf(env, j.(place := AtSystemAgain), i)
      == if i == 2 then EntryOf(env, j, i).(data := result) else EntryOf(env, j, i)
    ensures i == 2 ==> EntryOf(env, j, i).kind == DevResp
  {
  }

  lemma Closed(env: Env, h: Heap, L: Ledger, k: nat)
    requires Proper(L) && Stored(env, h, L) && k < |L.jobs|
    ensures var M := Close(L, k); Proper(M) && OnlyJob(L, M, k) && Stored(env, h - Elements(L.jobs[k].chain), M)
  {
    hide Proper, EntryOf, Stored, OnlyJob;
    var M := Close(L, k);
    ClosedIds(L, k);
    OnlyOneClosed(L, k);
    assert JobProper(M, k);
    Untouched(L, M, k);
    ClosedStore(env, h, L, k);
  }

  lemma OnlyOneClosed(L: Ledger, k: nat)
    requires k < |L.jobs| && forall u | u in L.at :: u in Elements(L.jobs[k].chain) <==> L.at[u].job == k
    ensures OnlyJob(L, Close(L, k), k)
  {
    hide Elements;
  }

  lemma ClosedIds(L: Ledger, k: nat)
    requires Proper(L) && k < |L.jobs|
    ensures forall u | u in L.at :: u in Elements(L.jobs[k].chain) <==> L.at[u].job == k
  {
    assert JobProper(L, k);
    forall u | u in L.at
      ensures u in L.jobs[k].chain <==> L.at[u].job == k
    {
      assert AtSpot(L, u);
    }
  }

  lemma ClosedStore(env: Env, h: Heap, L: Ledger, k: nat)
    requires Stored(env, h, L) && k < |L.jobs|
    requires forall u | u in L.at :: u in Elements(L.jobs[k].chain) <==> L.at[u].job == k
    ensures Stored(env, h - Elements(L.jobs[k].chain), Close(L, k))
  {
    hide EntryOf, Elements;
  }

  /** A closed job's whole chain is what try_remove erases. */
  lemma WholeChainGoes(env: Env, h: Heap, L: Ledger, k: nat)
    requires Proper(L) && Stored(env, h, L) && k < |L.jobs| && |L.jobs[k].chain| > 0
    ensures var chain := L.jobs[k].chain; var t := chain[|chain| - 1];
      t in h && Removed(h, t) == h - Elements(chain)
  {
    hide Release, Proper, Stored, EntryOf, Before, Elements;
    var chain := L.jobs[k].chain;
    var n := |chain| - 1;
    var t := chain[n];
    forall i | 0 <= i <= n
      ensures chain[i] in h && h[chain[i]].count == (if i < n then 1 else 0) && h[chain[i]].pred == Before(chain, i)
    {
      LinkOf(env, h, L, k, i);
    }
    var front := chain[..n];
    ElementsOfFront(chain);
    if n == 0 {
      FirstHasNone(chain);
      ReleaseNothing(h, None);
      NoElements();
      assert front == [];
    } else {
      Increasing(L, k);
      FrontIsChain(h, chain, n);
      ReleaseChain(h, front);
    }
    assert h - Elements(front) - {t} == h - Elements(chain);
  }

  lemma FirstHasNone(chain: seq<Tid>)
    requires |chain| > 0
    ensures Before(chain, 0) == None
  {
  }

  lemma Increasing(L: Ledger, k: nat)
    requires Proper(L) && k < |L.jobs|
    ensures var chain := L.jobs[k].chain; forall i, j | 0 <= i < j < |chain| :: chain[i] < chain[j]
  {
    assert JobProper(L, k);
  }

  lemma FrontIsChain(h: Heap, chain: seq<Tid>, n: nat)
    requires |chain| == n + 1 && n > 0
    requires forall i, j | 0 <= i < j < |chain| :: chain[i] < chain[j]
    requires forall i | 0 <= i <= n ::
      chain[i] in h && h[chain[i]].count == (if i < n then 1 else 0) && h[chain[i]].pred == Before(chain, i)
    ensures IsChain(h, chain[..n]) && h[chain[n]].pred == Some(chain[..n][n - 1])
  {
    assert forall i | 0 <= i < n :: Before(chain[..n], i) == Before(chain, i);
  }

  lemma LinkOf(env: Env, h: Heap, L: Ledger, k: nat, i: nat)
    requires Proper(L) && Stored(env, h, L) && k < |L.jobs| && i < |L.jobs[k].chain|
    ensures var chain := L.jobs[k].chain;
      && chain[i] in h
      && h[chain[i]] == EntryOf(env, L.jobs[k], i)
      && h[chain[i]].count == (if i + 1 < |chain| then 1 else 0)
      && h[chain[i]].pred == Before(chain, i)
  {
    assert JobProper(L, k);
    assert L.at[L.jobs[k].chain[i]] == Spot(k, i);
  }
}
