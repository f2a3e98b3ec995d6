/** Every handler keeps the invariant, moving one job. */
module PipelineSteps {
  import opened Bytes
  import opened TxStore
  import opened Pipeline
  import opened PipelineProof

  /** The job at position n of a queue. */
  lemma JobAt(env: Env, h: Heap, L: Ledger, q: seq<Tid>, n: nat, place: Place) returns (k: nat)
    requires Proper(L) && Stored(env, h, L) && Queued(q, L, place) && n < |q|
    ensures q[n] in L.at && k == L.at[q[n]].job && k < |L.jobs|
    ensures var j := L.jobs[k];
      && j.place == place && |j.chain| == ChainLength(place) > 0
      && j.chain[|j.chain| - 1] == q[n]
      && q[n] in h && h[q[n]] == EntryOf(env, j, |j.chain| - 1)
  {
    hide EntryOf;
    assert Ends(L, q[n], place);
    k := L.at[q[n]].job;
    assert JobProper(L, k);
  }

  /** The queues of places that the job neither leaves nor enters. */
  lemma OtherQueues(s: State, L: Ledger, M: Ledger, k: nat, left: Place, entered: Place)
    requires AllQueued(s, L) && OnlyJob(L, M, k) && (k < |L.jobs| ==> L.jobs[k].place == left)
        && M.jobs[k].place == entered
    ensures AtSystem !in {left, entered} ==> Queued(s.req0, M, AtSystem)
    ensures AtDevice !in {left, entered} ==> Queued(s.req1, M, AtDevice)
    ensures AtManager !in {left, entered} ==> Queued(Tickets(s.ingress), M, AtManager)
    ensures AtResults !in {left, entered} ==> Queued(Outcomes(s.egress), M, AtResults)
    ensures AtSystemAgain !in {left, entered} ==> Queued(s.resp1, M, AtSystemAgain)
    ensures AtCollage !in {left, entered} ==> Queued(s.resp0, M, AtCollage)
  {
    hide Queued, OnlyJob;
    OnlyJobBounds(L, M, k);
    if AtSystem !in {left, entered} { OthersStayQueued(s.req0, L, M, k, AtSystem); }
    if AtDevice !in {left, entered} { OthersStayQueued(s.req1, L, M, k, AtDevice); }
    if AtManager !in {left, entered} { OthersStayQueued(Tickets(s.ingress), L, M, k, AtManager); }
    if AtResults !in {left, entered} { OthersStayQueued(Outcomes(s.egress), L, M, k, AtResults); }
    if AtSystemAgain !in {left, entered} { OthersStayQueued(s.resp1, L, M, k, AtSystemAgain); }
    if AtCollage !in {left, entered} { OthersStayQueued(s.resp0, L, M, k, AtCollage); }
  }

  lemma OnlyJobBounds(L: Ledger, M: Ledger, k: nat)
    requires OnlyJob(L, M, k)
    ensures k < |M.jobs| && k <= |L.jobs|
  {
  }

  lemma TicketsKept(q: seq<Ticket>, L: Ledger, M: Ledger, k: nat)
    requires TicketsRight(q, L) && Queued(Tickets(q), L, AtManager) && OnlyJob(L, M, k)
    requires k < |L.jobs| ==> L.jobs[k].place != AtManager
    ensures TicketsRight(q, M)
  {
    forall i | 0 <= i < |q|
      ensures TicketRight(q[i], M)
    {
      assert TicketRight(q[i], L) && Ends(L, Tickets(q)[i], AtManager);
    }
  }

  lemma OutcomesKept(env: Env, q: seq<Outcome>, L: Ledger, M: Ledger, k: nat)
    requires OutcomesRight(env, q, L) && Queued(Outcomes(q), L, AtResults) && OnlyJob(L, M, k)
    requires k < |L.jobs| ==> L.jobs[k].place != AtResults
    ensures OutcomesRight(env, q, M)
  {
    forall i | 0 <= i < |q|
      ensures OutcomeRight(env, q[i], M)
    {
      assert OutcomeRight(env, q[i], L) && Ends(L, Outcomes(q)[i], AtResults);
    }
  }

  lemma RepliesKept(env: Env, replies: seq<(Source, Reply)>, L: Ledger, M: Ledger, k: nat)
    requires Replied(env, replies, L) && OnlyJob(L, M, k) && M.answered == L.answered
    requires k < |L.jobs| ==> L.jobs[k].place != Answered && M.jobs[k].req == L.jobs[k].req
    requires M.jobs[k].place != Answered
    ensures Replied(env, replies, M)
  {
    hide Answer;
    forall i | 0 <= i < |M.jobs|
      ensures M.jobs[i].place == Answered <==> i in M.answered
    {
      if i != k {
        assert M.jobs[i] == L.jobs[i];
      }
    }
  }

  /** What stays in force when job k moves between places other than the device
      manager's. */
  lemma Frame(env: Env, s: State, L: Ledger, M: Ledger, k: nat)
    requires Inv(env, s, L) && OnlyJob(L, M, k) && M.answered == L.answered
    requires k < |L.jobs| ==> L.jobs[k].place !in {AtManager, AtResults, Answered} && M.jobs[k].req == L.jobs[k].req
    requires M.jobs[k].place != Answered
    ensures TicketsRight(s.ingress, M) && OutcomesRight(env, s.egress, M) && Replied(env, s.replies, M)
  {
    hide Queued, OnlyJob, TicketsRight, OutcomesRight, Replied, Stored, Proper;
    TicketsKept(s.ingress, L, M, k);
    OutcomesKept(env, s.egress, L, M, k);
    RepliesKept(env, s.replies, L, M, k);
  }

  lemma SubmitKeeps(env: Env, s: State, L: Ledger, req: Request)
    requires Inv(env, s, L)
    ensures Inv(env, DoSubmit(s, req), Open(L, s.next, req))
  {
    hide Queued, OnlyJob, TicketsRight, OutcomesRight, Replied, Stored, Proper, Ends;
    var M := Open(L, s.next, req);
    var k := |L.jobs|;
    SameIds(env, s.holders, L);
    assert s.next !in s.holders;
    Opened(L, s.next, req);
    OpenedStore(env, s.holders, L, s.next, req);
    Frame(env, s, L, M, k);
    OtherQueues(s, L, M, k, Answered, AtSystem);
    Enqueued(s.req0, s.next, L, M, k, AtSystem);
  }

  lemma SameIds(env: Env, h: Heap, L: Ledger)
    requires Stored(env, h, L)
    ensures h.Keys == L.at.Keys
  {
  }

  // ---- a handler that links a new entry ----

  lemma Linked(h: Heap, d: Tid, kind: Kind, t: Tid, e: Entry)
    requires t in h && d !in h && h[t].count == 0
    ensures var g := Generate(h, d, kind, Some(t));
      && g[d] == Blank(kind).(header := h[t].header, pred := Some(t))
      && g[d := e] == h[t := h[t].(count := 1)][d := e]
      && Removed(g[d := e], t) == g[d := e]
      && (e == g[d] ==> Removed(g, t) == g == g[d := e])
  {
    hide Release;
    var g := Generate(h, d, kind, Some(t));
    assert g[d := e] == h[t := h[t].(count := 1)][d := e];
    assert e == g[d] ==> g == g[d := e];
  }

  /** Common to the handlers that link an entry with the next id to the entry
      at the head of queue q, and move the job on. */
  lemma LinkKeeps(env: Env, s: State, L: Ledger, q: seq<Tid>, from: Place, to: Place) returns (k: nat)
    requires Inv(env, s, L) && Queued(q, L, from) && |q| > 0
    requires from !in {AtManager, AtResults, Answered} && to !in {AtResults, Answered}
        && ChainLength(to) == ChainLength(from) + 1
    ensures q[0] in L.at && k == L.at[q[0]].job && k < |L.jobs| && L.jobs[k].place == from
    ensures |L.jobs[k].chain| == ChainLength(from) && L.jobs[k].chain[|L.jobs[k].chain| - 1] == q[0]
    ensures Advanced(env, s, L, Extend(L, k, s.next, to), k, to) && Queued(q[1..], Extend(L, k, s.next, to), from)
    ensures q[0] in s.holders && s.next !in s.holders && s.holders[q[0]].count == 0
    ensures s.holders[q[0]] == EntryOf(env, L.jobs[k], |L.jobs[k].chain| - 1)
  {
    hide Queued, OnlyJob, TicketsRight, OutcomesRight, Replied, Stored, Proper, Ends, EntryOf;
    k := JobAt(env, s.holders, L, q, 0, from);
    SameIds(env, s.holders, L);
    assert s.next !in s.holders;
    var M := Extend(L, k, s.next, to);
    Extended(L, k, s.next, to);
    Frame(env, s, L, M, k);
    assert q[1..] == q[..0] + q[1..];
    Dequeued(q, q[1..], 0, L, M, k, from);
    LastIsFree(env, L.jobs[k]);
  }

  ghost predicate Advanced(env: Env, s: State, L: Ledger, M: Ledger, k: nat, to: Place) {
    && Proper(M) && OnlyJob(L, M, k) && Ends(M, s.next, to) && M.at[s.next].job == k
    && TicketsRight(s.ingress, M) && OutcomesRight(env, s.egress, M) && Replied(env, s.replies, M)
  }

  lemma LastIsFree(env: Env, j: Job)
    requires |j.chain| > 0
    ensures EntryOf(env, j, |j.chain| - 1).count == 0
  {
  }

  lemma SystemRequestKeeps(env: Env, s: State, L: Ledger) returns (M: Ledger)
    requires Inv(env, s, L)
    ensures Inv(env, DoSystemRequest(s), M) && SameRequests(L, M)
  {
    hide Queued, OnlyJob, TicketsRight, OutcomesRight, Replied, Stored, Proper, Ends, Removed;
    if s.req0 == [] {
      M := L;
    } else {
      var t, d := s.req0[0], s.next;
      var header := if t in s.holders then s.holders[t].header else None;
      var deferred := header.Some? && header.value.action != RegResource;
      var e := Blank(DevReq).(header := header, pred := Some(t), deferred := deferred);
      var k := LinkKeeps(env, s, L, s.req0, AtSystem, AtDevice);
      M := Extend(L, k, d, AtDevice);
      OtherQueues(s, L, M, k, AtSystem, AtDevice);
      Enqueued(s.req1, d, L, M, k, AtDevice);
      Linked(s.holders, d, DevReq, t, e);
      DeviceRequestEntry(env, L.jobs[k], d, e);
      ExtendedStore(env, s.holders, L, k, d, AtDevice, e);
    }
  }

  ghost predicate SameRequests(L: Ledger, M: Ledger) {
    |L.jobs| == |M.jobs| && forall i | 0 <= i < |L.jobs| :: L.jobs[i].req == M.jobs[i].req
  }

  lemma DeviceRequestEntry(env: Env, j: Job, d: Tid, e: Entry)
    requires |j.chain| == 1
    requires e == Blank(DevReq).(header := Some(HeaderOf(j.req)), pred := Some(j.chain[0]),
                    deferred := HeaderOf(j.req).action != RegResource)
    ensures e == EntryOf(env, Job(j.req, j.chain + [d], AtDevice), 1)
  {
    assert (j.chain + [d])[0] == j.chain[0];
  }

  // ---- payloads are found one link up at most ----

  /** What a reader of job j's newest entry finds, and where. */
  ghost predicate Readable(h: Heap, t: Tid, data: Option<Payload>, from: Tid) {
    Holder(h, t) == Some(from) && from in h && !h[from].deferred && BaseData(h, t) == data
  }

  lemma DeviceRequestReads(env: Env, h: Heap, L: Ledger, k: nat)
    requires Proper(L) && Stored(env, h, L) && k < |L.jobs| && L.jobs[k].place == AtDevice
        && !L.jobs[k].req.body.Register?
    ensures var j := L.jobs[k];
      |j.chain| == 2 && Readable(h, j.chain[1], PayloadOf(j.req.body), j.chain[0])
  {
    hide Proper, Stored;
    JobLength(L, k);
    LinkOf(env, h, L, k, 0);
    LinkOf(env, h, L, k, 1);
  }

  lemma ResponseReads(env: Env, h: Heap, L: Ledger, k: nat)
    requires Proper(L) && Stored(env, h, L) && k < |L.jobs| && L.jobs[k].place == AtCollage
    ensures var j := L.jobs[k];
      && |j.chain| == 4
      && (if j.req.body.Identify? then
            Readable(h, j.chain[3], Some(Misc(Clines(env, env.scan(j.req.body.dirs)))), j.chain[3])
          else if j.req.body.Register? then
            Readable(h, j.chain[3], Some(Misc([env.extAddr] + env.manifest)), j.chain[2])
          else
            Readable(h, j.chain[3], Some(RecvArgs(env.kernel(j.req.body.resource, j.req.body.args))), j.chain[2]))
  {
    hide Proper, Stored;
    JobLength(L, k);
    LinkOf(env, h, L, k, 2);
    LinkOf(env, h, L, k, 3);
  }

  lemma JobLength(L: Ledger, k: nat)
    requires Proper(L) && k < |L.jobs|
    ensures |L.jobs[k].chain| == ChainLength(L.jobs[k].place)
  {
    assert JobProper(L, k);
  }

  /** Linking a new entry to t does not change what t's readers find. */
  lemma ReadsUnaffected(h: Heap, r: Tid, kind: Kind, t: Tid, data: Option<Payload>, from: Tid)
    requires r !in h && Readable(h, t, data, from)
    ensures Readable(Generate(h, r, kind, Some(t)), t, data, from)
  {
  }

  lemma DeviceResponseEntry(env: Env, j: Job, r: Tid, e: Entry)
    requires |j.chain| == 2
    requires e == Blank(DevResp).(header := Some(HeaderOf(j.req)), pred := Some(j.chain[1]),
                    data := if j.req.body.Register? then Some(Misc([env.extAddr] + env.manifest)) else None,
                    devData := if j.req.body.Identify? then Some(env.scan(j.req.body.dirs)) else None)
    ensures e == EntryOf(env, Job(j.req, j.chain + [r], if j.req.body.Send? then AtManager else AtSystemAgain), 2)
  {
    assert (j.chain + [r])[1] == j.chain[1];
  }

  lemma DeviceRequestKeeps(env: Env, s: State, L: Ledger) returns (M: Ledger)
    requires Inv(env, s, L)
    ensures Inv(env, DoDeviceRequest(env, s), M) && SameRequests(L, M)
  {
    hide Queued, OnlyJob, TicketsRight, OutcomesRight, Replied, Stored, Proper, Ends, DoDeviceRequest, EntryOf;
    if s.req1 == [] {
      M := L;
      NoDeviceRequest(env, s);
    } else {
      var k := JobAt(env, s.holders, L, s.req1, 0, AtDevice);
      if L.jobs[k].req.body.Send? {
        M := DeviceSendKeeps(env, s, L, k);
      } else {
        M := DeviceOtherKeeps(env, s, L, k);
      }
    }
  }

  lemma NoDeviceRequest(env: Env, s: State)
    requires s.req1 == []
    ensures DoDeviceRequest(env, s) == s
  {
  }

  lemma DeviceSendKeeps(env: Env, s: State, L: Ledger, k: nat) returns (M: Ledger)
    requires Inv(env, s, L) && |s.req1| > 0 && s.req1[0] in L.at && k == L.at[s.req1[0]].job && k < |L.jobs|
    requires L.jobs[k].req.body.Send?
    ensures Inv(env, DoDeviceRequest(env, s), M) && SameRequests(L, M)
  {
    hide Queued, OnlyJob, TicketsRight, OutcomesRight, Replied, Stored, Proper, Ends, Removed, Holder, BaseData,
        EntryOf;
    var _ := LinkKeeps(env, s, L, s.req1, AtDevice, AtManager);
    var t, r, j := s.req1[0], s.next, L.jobs[k];
    M := Extend(L, k, r, AtManager);
    RequestHeader(env, j, 1);
    var e := Blank(DevResp).(header := Some(HeaderOf(j.req)), pred := Some(t));
    DeviceResponseEntry(env, j, r, e);
    ExtendedStore(env, s.holders, L, k, r, AtManager, e);
    Linked(s.holders, r, DevResp, t, e);
    DeviceRequestReads(env, s.holders, L, k);
    ReadsUnaffected(s.holders, r, DevResp, t, PayloadOf(j.req.body), j.chain[0]);
    ReadableMeans(Generate(s.holders, r, DevResp, Some(t)), t, PayloadOf(j.req.body), j.chain[0]);
    OtherQueues(s, L, M, k, AtDevice, AtManager);
    Enqueued(Tickets(s.ingress), r, L, M, k, AtManager);
    var ticket := Ticket(r, j.chain[0]);
    assert Tickets(s.ingress + [ticket]) == Tickets(s.ingress) + [r];
    NewTicket(s.ingress, ticket, L, M, k, AtManager);
  }

  lemma RequestHeader(env: Env, j: Job, i: nat)
    requires i < |j.chain|
    ensures EntryOf(env, j, i).header == Some(HeaderOf(j.req))
    ensures EntryOf(env, j, i).kind == KindAt(i)
  {
  }

  lemma ReadableMeans(h: Heap, t: Tid, data: Option<Payload>, from: Tid)
    requires Readable(h, t, data, from)
    ensures Holder(h, t) == Some(from) && BaseData(h, t) == data
  {
  }

  lemma NewTicket(q: seq<Ticket>, ticket: Ticket, L: Ledger, M: Ledger, k: nat, place: Place)
    requires k < |L.jobs| && L.jobs[k].req.body.Send? && |L.jobs[k].chain| == 2
    requires M == Extend(L, k, ticket.resp, place) && ticket.source == L.jobs[k].chain[0]
    requires TicketsRight(q, M)
    ensures TicketsRight(q + [ticket], M)
  {
    assert TicketRight(ticket, M);
  }

  lemma DeviceOtherKeeps(env: Env, s: State, L: Ledger, k: nat) returns (M: Ledger)
    requires Inv(env, s, L) && |s.req1| > 0 && s.req1[0] in L.at && k == L.at[s.req1[0]].job && k < |L.jobs|
    requires !L.jobs[k].req.body.Send?
    ensures Inv(env, DoDeviceRequest(env, s), M) && SameRequests(L, M)
  {
    hide Queued, OnlyJob, TicketsRight, OutcomesRight, Replied, Stored, Proper, Ends, Removed, Holder, BaseData,
        EntryOf;
    var _ := LinkKeeps(env, s, L, s.req1, AtDevice, AtSystemAgain);
    var t, r, j := s.req1[0], s.next, L.jobs[k];
    M := Extend(L, k, r, AtSystemAgain);
    RequestHeader(env, j, 1);
    var e := Blank(DevResp).(header := Some(HeaderOf(j.req)), pred := Some(t));
    e := if j.req.body.Register? then e.(data := Some(Misc([env.extAddr] + env.manifest)))
         else e.(devData := Some(env.scan(j.req.body.dirs)));
    DeviceResponseEntry(env, j, r, e);
    ExtendedStore(env, s.holders, L, k, r, AtSystemAgain, e);
    Linked(s.holders, r, DevResp, t, e);
    if j.req.body.Identify? {
      DeviceRequestReads(env, s.holders, L, k);
      ReadsUnaffected(s.holders, r, DevResp, t, PayloadOf(j.req.body), j.chain[0]);
      ReadableMeans(Generate(s.holders, r, DevResp, Some(t)), t, PayloadOf(j.req.body), j.chain[0]);
    }
    OtherQueues(s, L, M, k, AtDevice, AtSystemAgain);
    Enqueued(s.resp1, r, L, M, k, AtSystemAgain);
  }

  // ---- the device manager ----

  lemma TicketsMoved(q: seq<Ticket>, r: seq<Ticket>, L: Ledger, k: nat, place: Place)
    requires k < |L.jobs| && TicketsRight(q, L) && forall x | x in r :: x in q
    ensures TicketsRight(r, Move(L, k, place))
  {
    forall i | 0 <= i < |r|
      ensures TicketRight(r[i], Move(L, k, place))
    {
      assert r[i] in r;
      var j :| 0 <= j < |q| && q[j] == r[i];
      assert TicketRight(q[j], L);
    }
  }

  lemma OutcomesMoved(env: Env, q: seq<Outcome>, r: seq<Outcome>, L: Ledger, k: nat, place: Place)
    requires k < |L.jobs| && OutcomesRight(env, q, L) && forall x | x in r :: x in q
    ensures OutcomesRight(env, r, Move(L, k, place))
  {
    forall i | 0 <= i < |r|
      ensures OutcomeRight(env, r[i], Move(L, k, place))
    {
      assert r[i] in r;
      var j :| 0 <= j < |q| && q[j] == r[i];
      assert OutcomeRight(env, q[j], L);
    }
  }

  lemma TicketsWithout(q: seq<Ticket>, n: nat)
    requires n < |q|
    ensures Tickets(q[..n] + q[n + 1..]) == Tickets(q)[..n] + Tickets(q)[n + 1..]
    ensures forall x | x in q[..n] + q[n + 1..] :: x in q
  {
  }

  /** A ticket's source is live and still holds its job's arguments. */
  lemma TicketReads(env: Env, s: State, L: Ledger, n: nat) returns (k: nat)
    requires Inv(env, s, L) && n < |s.ingress|
    ensures var t := s.ingress[n];
      && t.resp in L.at && k == L.at[t.resp].job && k < |L.jobs|
      && L.jobs[k].req.body.Send? && L.jobs[k].place == AtManager && |L.jobs[k].chain| == 3
      && L.jobs[k].chain[2] == t.resp
      && t.source in s.holders && s.holders[t.source].data == PayloadOf(L.jobs[k].req.body)
      && !s.holders[t.source].deferred
  {
    hide Stored, Proper, Queued, OutcomesRight, Replied;
    assert TicketRight(s.ingress[n], L);
    assert Tickets(s.ingress)[n] == s.ingress[n].resp;
    k := JobAt(env, s.holders, L, Tickets(s.ingress), n, AtManager);
    LinkOf(env, s.holders, L, k, 0);
  }

  lemma RunKernelKeeps(env: Env, s: State, L: Ledger, index: nat) returns (M: Ledger)
    requires Inv(env, s, L)
    ensures Inv(env, DoRunKernel(env, s, index), M) && SameRequests(L, M)
  {
    hide Queued, OnlyJob, TicketsRight, OutcomesRight, Replied, Stored, Proper, Ends, EntryOf;
    if index >= |s.ingress| {
      M := L;
    } else {
      var ticket := s.ingress[index];
      var k := TicketReads(env, s, L, index);
      M := Move(L, k, AtResults);
      Moved(L, k, AtResults);
      MovedStore(env, s.holders, L, k);
      RepliesKept(env, s.replies, L, M, k);
      TicketsWithout(s.ingress, index);
      var rest := s.ingress[..index] + s.ingress[index + 1..];
      TicketsMoved(s.ingress, rest, L, k, AtResults);
      OtherQueues(s, L, M, k, AtManager, AtResults);
      Dequeued(Tickets(s.ingress), Tickets(rest), index, L, M, k, AtManager);
      var o := Outcome(ticket.resp, env.kernel(L.jobs[k].req.body.resource, L.jobs[k].req.body.args));
      OutcomesMoved(env, s.egress, s.egress, L, k, AtResults);
      NewOutcome(env, s.egress, o, M, k);
      Enqueued(Outcomes(s.egress), ticket.resp, L, M, k, AtResults);
      assert Outcomes(s.egress + [o]) == Outcomes(s.egress) + [ticket.resp];
    }
  }

  lemma NewOutcome(env: Env, q: seq<Outcome>, o: Outcome, M: Ledger, k: nat)
    requires OutcomesRight(env, q, M) && Ends(M, o.resp, AtResults) && M.at[o.resp].job == k
    requires var b := M.jobs[k].req.body; b.Send? && o.outs == env.kernel(b.resource, b.args)
    ensures OutcomesRight(env, q + [o], M)
  {
    assert OutcomeRight(env, o, M);
  }

  lemma ReadResultKeeps(env: Env, s: State, L: Ledger) returns (M: Ledger)
    requires Inv(env, s, L)
    ensures Inv(env, DoReadResult(s), M) && SameRequests(L, M)
  {
    hide Queued, OnlyJob, TicketsRight, OutcomesRight, Replied, Stored, Proper, Ends, EntryOf;
    if s.egress == [] {
      M := L;
    } else {
      var o := s.egress[0];
      var q := Outcomes(s.egress);
      assert q[0] == o.resp && q[1..] == q[..0] + q[1..] && Outcomes(s.egress[1..]) == q[1..];
      var k := JobAt(env, s.holders, L, q, 0, AtResults);
      FirstOutcome(env, s.egress, L);
      M := Move(L, k, AtSystemAgain);
      Moved(L, k, AtSystemAgain);
      AnsweredStore(env, s.holders, L, k);
      RepliesKept(env, s.replies, L, M, k);
      assert forall x | x in s.egress[1..] :: x in s.egress;
      TicketsMoved(s.ingress, s.ingress, L, k, AtSystemAgain);
      OutcomesMoved(env, s.egress, s.egress[1..], L, k, AtSystemAgain);
      OtherQueues(s, L, M, k, AtResults, AtSystemAgain);
      Dequeued(q, q[1..], 0, L, M, k, AtResults);
      Enqueued(s.resp1, o.resp, L, M, k, AtSystemAgain);
    }
  }

  lemma FirstOutcome(env: Env, q: seq<Outcome>, L: Ledger)
    requires |q| > 0 && OutcomesRight(env, q, L)
    ensures OutcomeRight(env, q[0], L)
  {
  }

  // ---- the way back ----

  lemma SystemResponseEntry(env: Env, j: Job, r: Tid, e: Entry)
    requires |j.chain| == 3
    requires e == Blank(SysResp).(header := Some(HeaderOf(j.req)), pred := Some(j.chain[2]),
                    deferred := !j.req.body.Identify?,
                    data := if j.req.body.Identify? then Some(Misc(Clines(env, env.scan(j.req.body.dirs)))) else None)
    ensures e == EntryOf(env, Job(j.req, j.chain + [r], AtCollage), 3)
  {
    assert (j.chain + [r])[2] == j.chain[2];
  }

  lemma IdentifiedEntry(env: Env, j: Job)
    requires |j.chain| == 3 && j.req.body.Identify?
    ensures EntryOf(env, j, 2).devData == Some(env.scan(j.req.body.dirs)) && EntryOf(env, j, 2).kind == DevResp
  {
  }

  lemma SystemResponseKeeps(env: Env, s: State, L: Ledger) returns (M: Ledger)
    requires Inv(env, s, L)
    ensures Inv(env, DoSystemResponse(env, s), M) && SameRequests(L, M)
  {
    hide Queued, OnlyJob, TicketsRight, OutcomesRight, Replied, Stored, Proper, Ends, Removed, EntryOf, Clines;
    if s.resp1 == [] {
      M := L;
    } else {
      var k := LinkKeeps(env, s, L, s.resp1, AtSystemAgain, AtCollage);
      var t, r, j := s.resp1[0], s.next, L.jobs[k];
      M := Extend(L, k, r, AtCollage);
      RequestHeader(env, j, 2);
      var e := Blank(SysResp).(header := Some(HeaderOf(j.req)), pred := Some(t));
      if j.req.body.Identify? {
        IdentifiedEntry(env, j);
        e := e.(data := Some(Misc(Clines(env, env.scan(j.req.body.dirs)))));
      } else {
        e := e.(deferred := true);
      }
      SystemResponseEntry(env, j, r, e);
      ExtendedStore(env, s.holders, L, k, r, AtCollage, e);
      Linked(s.holders, r, SysResp, t, e);
      OtherQueues(s, L, M, k, AtSystemAgain, AtCollage);
      Enqueued(s.resp0, r, L, M, k, AtCollage);
    }
  }

  /** Collage answers a request from what it reads for the newest entry. */
  lemma RightReply(env: Env, h: Heap, L: Ledger, k: nat)
    requires Proper(L) && Stored(env, h, L) && k < |L.jobs| && L.jobs[k].place == AtCollage
    ensures var j := L.jobs[k];
      && |j.chain| == 4
      && var data := BaseData(h, j.chain[3]);
      && data.Some? && ReplyTo(HeaderOf(j.req), data.value) == Some(Answer(env, j.req).1)
      && HeaderOf(j.req).source == Answer(env, j.req).0
  {
    hide Proper, Stored, Popped, ArgCount, Clines, Holder, BaseData;
    ResponseReads(env, h, L, k);
    assert ([env.extAddr] + env.manifest)[1..] == env.manifest;
  }

  lemma OneMoreReply(env: Env, replies: seq<(Source, Reply)>, L: Ledger, k: nat)
    requires Replied(env, replies, L) && k < |L.jobs| && L.jobs[k].place != Answered
    ensures Replied(env, replies + [Answer(env, L.jobs[k].req)], Close(L, k))
  {
    hide Answer;
    var M := Close(L, k);
    forall i | 0 <= i < |M.jobs|
      ensures M.jobs[i].place == Answered <==> i in M.answered
    {
      if i == k {
        assert M.answered[|L.answered|] == k;
      } else {
        InAppended(L.answered, k, i);
      }
    }
  }

  lemma InAppended(a: seq<nat>, k: nat, i: nat)
    requires i != k
    ensures i in a + [k] <==> i in a
  {
  }

  lemma DrainKeeps(env: Env, s: State, L: Ledger) returns (M: Ledger)
    requires Inv(env, s, L)
    ensures Inv(env, DoDrain(s), M) && SameRequests(L, M)
  {
    hide Queued, OnlyJob, TicketsRight, OutcomesRight, Replied, Stored, Proper, Ends, Removed, EntryOf, BaseData,
        Answer, ReplyTo;
    if s.resp0 == [] {
      M := L;
    } else {
      var q := s.resp0;
      var k := JobAt(env, s.holders, L, q, 0, AtCollage);
      M := Close(L, k);
      RequestHeader(env, L.jobs[k], 3);
      RightReply(env, s.holders, L, k);
      WholeChainGoes(env, s.holders, L, k);
      Closed(env, s.holders, L, k);
      OneMoreReply(env, s.replies, L, k);
      TicketsKept(s.ingress, L, M, k);
      OutcomesKept(env, s.egress, L, M, k);
      OtherQueues(s, L, M, k, AtCollage, Answered);
      assert q[1..] == q[..0] + q[1..];
      Dequeued(q, q[1..], 0, L, M, k, AtCollage);
    }
  }
}
