/** What holds of the virtualization agent in every run: any requests, any
    interleaving of the handlers. */
module PipelineRuns {
  import opened Bytes
  import opened TxStore
  import opened Pipeline
  import opened PipelineProof
  import opened PipelineSteps

  lemma StepKeeps(env: Env, s: State, L: Ledger, a: Action) returns (M: Ledger)
    requires Inv(env, s, L)
    ensures Inv(env, Step(env, s, a), M)
    ensures a.Submit? ==> M.jobs == L.jobs + [Job(a.req, [s.next], AtSystem)]
    ensures !a.Submit? ==> SameRequests(L, M)
  {
    hide Inv, DoSubmit, DoSystemRequest, DoDeviceRequest, DoRunKernel, DoReadResult, DoSystemResponse, DoDrain;
    NoFault(env, s, L);
    match a
    case Submit(req) =>
      SubmitKeeps(env, s, L, req);
      M := Open(L, s.next, req);
    case SystemRequest => M := SystemRequestKeeps(env, s, L);
    case DeviceRequest => M := DeviceRequestKeeps(env, s, L);
    case RunKernel(index) => M := RunKernelKeeps(env, s, L, index);
    case ReadResult => M := ReadResultKeeps(env, s, L);
    case SystemResponse => M := SystemResponseKeeps(env, s, L);
    case DrainResponse => M := DrainKeeps(env, s, L);
  }

  lemma NoFault(env: Env, s: State, L: Ledger)
    requires Inv(env, s, L)
    ensures !s.fault
  {
  }

  lemma InitialInv(env: Env)
    ensures Inv(env, Initial(), Ledger([], map[], []))
  {
  }

  /** A run's ledger lists the submitted requests in order. */
  ghost predicate Describes(env: Env, acts: seq<Action>, L: Ledger) {
    && Inv(env, Run(env, acts), L)
    && |L.jobs| == |Submitted(acts)|
    && forall i | 0 <= i < |L.jobs| :: L.jobs[i].req == Submitted(acts)[i]
  }

  lemma {:induction false} LedgerOf(env: Env, acts: seq<Action>) returns (L: Ledger)
    ensures Describes(env, acts, L)
    decreases |acts|
  {
    hide Inv, Step;
    if acts == [] {
      InitialInv(env);
      L := Ledger([], map[], []);
    } else {
      var K := LedgerOf(env, acts[..|acts| - 1]);
      L := StepKeeps(env, Run(env, acts[..|acts| - 1]), K, acts[|acts| - 1]);
    }
  }

  /** No handler ever reads a missing entry, a missing payload or a payload of
      another type. */
  lemma RunNeverFaults(env: Env, acts: seq<Action>)
    ensures !Run(env, acts).fault
  {
    var L := LedgerOf(env, acts);
  }

  /** The successor counts are right in every reachable state. */
  lemma RunIsCounted(env: Env, acts: seq<Action>)
    ensures Counted(Run(env, acts).holders, Run(env, acts).next)
  {
    hide Run, Submitted;
    var L := LedgerOf(env, acts);
    StoredCounted(env, Run(env, acts), L);
  }

  lemma StoredCounted(env: Env, s: State, L: Ledger)
    requires Inv(env, s, L)
    ensures Counted(s.holders, s.next)
  {
    hide Stored, Proper, EntryOf, Children, AllQueued, Replied, TicketsRight, OutcomesRight, AtSpot;
    SameIds(env, s.holders, L);
    forall t | t in s.holders
      ensures EntryCounted(s.holders, s.next, None, t)
    {
      ChildrenOf(env, s.holders, L, t);
    }
  }

  lemma BeforeIs(chain: seq<Tid>, i: nat)
    requires i < |chain|
    ensures Before(chain, i) == if i == 0 then None else Some(chain[i - 1])
  {
  }

  lemma ChildrenOf(env: Env, h: Heap, L: Ledger, t: Tid)
    requires Proper(L) && Stored(env, h, L) && t in h
    ensures h[t].count == |Children(h, t)|
    ensures h[t].pred.Some? ==> h[t].pred.value in h && h[t].pred.value < t
  {
    hide Proper, EntryOf, Before;
    assert AtSpot(L, t);
    var k, i := L.at[t].job, L.at[t].link;
    var chain := L.jobs[k].chain;
    LinkOf(env, h, L, k, i);
    Increasing(L, k);
    BeforeIs(chain, i);
    if i > 0 {
      LinkOf(env, h, L, k, i - 1);
    }
    forall c | c in h && h[c].pred == Some(t)
      ensures i + 1 < |chain| && c == chain[i + 1]
    {
      ChildIsNext(env, h, L, t, c);
    }
    if i + 1 < |chain| {
      LinkOf(env, h, L, k, i + 1);
      BeforeIs(chain, i + 1);
      assert Children(h, t) == {chain[i + 1]};
    } else {
      assert Children(h, t) == {};
    }
  }

  lemma ChildIsNext(env: Env, h: Heap, L: Ledger, t: Tid, c: Tid)
    requires Proper(L) && Stored(env, h, L) && t in h && c in h && h[c].pred == Some(t)
    ensures AtSpot(L, t)
    ensures var chain := L.jobs[L.at[t].job].chain; var i := L.at[t].link;
      i + 1 < |chain| && c == chain[i + 1]
  {
    hide EntryOf;
    assert AtSpot(L, t) && AtSpot(L, c);
    LinkOf(env, h, L, L.at[c].job, L.at[c].link);
    assert JobProper(L, L.at[c].job);
  }

  /** What a request is owed: an answer to its source and under its key. A
      registration gets the agent's address and the device manifest, an
      inquiry the line of every kernel found, in order, and a send the
      kernel's outputs, as many as a ushort counts, the last of these first. */
  ghost predicate Serves(env: Env, req: Request, source: Source, reply: Reply) {
    && source == req.source
    && match req.body
       case Register => reply == HwReg(req.key, env.extAddr, env.manifest)
       case Identify(_, dirs) =>
         && reply.HwUpdate? && |reply.clines| == |env.scan(dirs)|
         && forall i | 0 <= i < |reply.clines| :: reply.clines[i] == env.cline(env.scan(dirs)[i])
       case Send(resource, args) =>
         var outs := env.kernel(resource, args);
         && reply.NexRecv? && reply.key == req.key && reply.nargs == |reply.blocks| == |outs| % 0x1_0000
         && (|outs| < 0x1_0000 ==> |reply.blocks| == |outs|)
         && forall i | 0 <= i < |reply.blocks| :: reply.blocks[i] == outs[|reply.blocks| - 1 - i]
  }

  lemma AnswerServes(env: Env, req: Request)
    ensures Serves(env, req, Answer(env, req).0, Answer(env, req).1)
  {
  }

  lemma AnswersServe(env: Env, asked: seq<Request>, replies: seq<(Source, Reply)>, who: seq<nat>)
    requires |who| == |replies|
    requires forall i | 0 <= i < |who| :: who[i] < |asked| && replies[i] == Answer(env, asked[who[i]])
    ensures forall i | 0 <= i < |who| :: Serves(env, asked[who[i]], replies[i].0, replies[i].1)
  {
    hide Answer, Serves;
    forall i | 0 <= i < |who|
      ensures Serves(env, asked[who[i]], replies[i].0, replies[i].1)
    {
      AnswerServes(env, asked[who[i]]);
    }
  }

  /** Every reply serves a request of the run, and no request is answered
      twice. */
  lemma RepliesAreAnswers(env: Env, acts: seq<Action>) returns (who: seq<nat>)
    ensures var replies := Run(env, acts).replies; var asked := Submitted(acts);
      && |who| == |replies|
      && (forall i | 0 <= i < |who| :: who[i] < |asked| && Serves(env, asked[who[i]], replies[i].0, replies[i].1))
      && (forall i, j | 0 <= i < j < |who| :: who[i] != who[j])
  {
    hide Run, Submitted, Answer, Stored, Proper, AllQueued, TicketsRight, OutcomesRight, Serves;
    var L := LedgerOf(env, acts);
    who := L.answered;
    AnswersServe(env, Submitted(acts), Run(env, acts).replies, who);
  }

  /** Once the queues are empty every request has been answered and the store
      is empty. */
  lemma IdleMeansAllAnswered(env: Env, acts: seq<Action>) returns (who: seq<nat>)
    requires Idle(Run(env, acts))
    ensures Run(env, acts).holders == map[]
    ensures var replies := Run(env, acts).replies; var asked := Submitted(acts);
      && |who| == |replies| == |asked|
      && (forall i | 0 <= i < |who| :: who[i] < |asked| && Serves(env, asked[who[i]], replies[i].0, replies[i].1))
      && (forall k | 0 <= k < |asked| :: k in who)
  {
    hide Run, Submitted, Answer, Stored, Proper, TicketsRight, OutcomesRight, Queued, Serves;
    var L := LedgerOf(env, acts);
    who := L.answered;
    AllAnswered(env, Run(env, acts), L);
    assert forall k | 0 <= k < |L.jobs| :: L.jobs[k].place == Answered;
    CountDistinct(who, |L.jobs|);
    AnswersServe(env, Submitted(acts), Run(env, acts).replies, who);
  }

  lemma AllAnswered(env: Env, s: State, L: Ledger)
    requires Inv(env, s, L) && Idle(s)
    ensures forall k | 0 <= k < |L.jobs| :: L.jobs[k].place == Answered
    ensures s.holders == map[]
  {
    hide Queued, EntryOf;
    forall k | 0 <= k < |L.jobs|
      ensures L.jobs[k].place == Answered
    {
      UnansweredIsQueued(s, L, k);
    }
    assert s.holders.Keys == {} by {
      if t :| t in s.holders {
        LiveIsUnanswered(env, s.holders, L, t);
      }
    }
  }

  lemma UnansweredIsQueued(s: State, L: Ledger, k: nat)
    requires AllQueued(s, L) && k < |L.jobs|
    ensures L.jobs[k].place != Answered ==> !Idle(s)
  {
    assert L.jobs[k].place == AtManager && InQueue(Tickets(s.ingress), L.jobs[k]) ==> |Tickets(s.ingress)| > 0;
    assert L.jobs[k].place == AtResults && InQueue(Outcomes(s.egress), L.jobs[k]) ==> |Outcomes(s.egress)| > 0;
  }

  lemma LiveIsUnanswered(env: Env, h: Heap, L: Ledger, t: Tid)
    requires Stored(env, h, L) && Proper(L) && t in h
    ensures exists k | 0 <= k < |L.jobs| :: L.jobs[k].place != Answered
  {
    assert AtSpot(L, t) && JobProper(L, L.at[t].job);
    assert L.jobs[L.at[t].job].place != Answered;
  }

  /** n distinct numbers below n, all of them present, are n in number. */
  lemma {:induction false} CountDistinct(who: seq<nat>, n: nat)
    requires forall i | 0 <= i < |who| :: who[i] < n
    requires forall i, j | 0 <= i < j < |who| :: who[i] != who[j]
    requires forall k | 0 <= k < n :: k in who
    ensures |who| == n
    decreases n
  {
    if |who| == 0 {
      assert n == 0 || n - 1 in who;
    } else {
      assert who[0] < n;
      assert n - 1 in who;
      var i :| 0 <= i < |who| && who[i] == n - 1;
      var rest := who[..i] + who[i + 1..];
      forall k | 0 <= k < n - 1
        ensures k in rest
      {
        assert k in who;
        InRest(who, rest, i, k);
      }
      CountDistinct(rest, n - 1);
    }
  }

  // ---- draining a response ----

  /** Draining a response erases the request's whole chain and nothing else:
      system request, device request, device response and system response go,
      every other entry stays as it was and was not linked to any of them. */
  lemma DrainErasesTheRequest(env: Env, acts: seq<Action>) returns (chain: seq<Tid>)
    requires Run(env, acts).resp0 != []
    ensures var s := Run(env, acts);
      && |chain| == 4
      && chain[3] == s.resp0[0]
      && (forall i | 0 <= i < 4 :: chain[i] in s.holders && s.holders[chain[i]].kind == KindAt(i)
                                   && s.holders[chain[i]].pred == Before(chain, i))
      && DoDrain(s).holders == s.holders - Elements(chain)
      && (forall t | t in DoDrain(s).holders && s.holders[t].pred.Some? :: s.holders[t].pred.value !in chain)
      && |DoDrain(s).replies| == |s.replies| + 1
  {
    hide Run, Submitted, Inv, DoDrain;
    var L := LedgerOf(env, acts);
    chain := DrainErases(env, Run(env, acts), L);
  }

  lemma DrainErases(env: Env, s: State, L: Ledger) returns (chain: seq<Tid>)
    requires Inv(env, s, L) && s.resp0 != []
    ensures |chain| == 4 && chain[3] == s.resp0[0]
    ensures forall i | 0 <= i < 4 :: chain[i] in s.holders && s.holders[chain[i]].kind == KindAt(i)
                                     && s.holders[chain[i]].pred == Before(chain, i)
    ensures DoDrain(s).holders == s.holders - Elements(chain)
    ensures forall t | t in DoDrain(s).holders && s.holders[t].pred.Some? :: s.holders[t].pred.value !in chain
    ensures |DoDrain(s).replies| == |s.replies| + 1
  {
    hide Queued, OnlyJob, TicketsRight, OutcomesRight, Replied, Stored, Proper, Ends, Removed, EntryOf, BaseData,
        Answer, ReplyTo;
    var k := JobAt(env, s.holders, L, s.resp0, 0, AtCollage);
    chain := L.jobs[k].chain;
    RequestHeader(env, L.jobs[k], 3);
    RightReply(env, s.holders, L, k);
    WholeChainGoes(env, s.holders, L, k);
    forall i | 0 <= i < 4
      ensures chain[i] in s.holders && s.holders[chain[i]].kind == KindAt(i)
          && s.holders[chain[i]].pred == Before(chain, i)
    {
      LinkOf(env, s.holders, L, k, i);
      RequestHeader(env, L.jobs[k], i);
    }
    forall t | t in s.holders && t !in chain && s.holders[t].pred.Some?
      ensures s.holders[t].pred.value !in chain
    {
      NotLinkedToChain(env, s.holders, L, k, t);
    }
  }

  lemma NotLinkedToChain(env: Env, h: Heap, L: Ledger, k: nat, t: Tid)
    requires Proper(L) && Stored(env, h, L) && k < |L.jobs| && t in h && t !in L.jobs[k].chain && h[t].pred.Some?
    ensures h[t].pred.value !in L.jobs[k].chain
  {
    hide Proper, Stored;
    var p := h[t].pred.value;
    if p in L.jobs[k].chain {
      var i :| 0 <= i < |L.jobs[k].chain| && L.jobs[k].chain[i] == p;
      LinkOf(env, h, L, k, i);
      ChildIsNext(env, h, L, p, t);
      SpotOf(L, k, i);
    }
  }

  lemma SpotOf(L: Ledger, k: nat, i: nat)
    requires Proper(L) && k < |L.jobs| && i < |L.jobs[k].chain|
    ensures L.jobs[k].chain[i] in L.at && L.at[L.jobs[k].chain[i]] == Spot(k, i)
  {
    assert JobProper(L, k);
  }

  // ---- reads are one hop ----

  /** Reading through t: the payload's holder is live and not itself deferred,
      it is t or t's predecessor, and it has the payload. */
  ghost predicate OneHop(h: Heap, t: Tid) {
    var from := Holder(h, t);
    && from.Some? && from.value in h && !h[from.value].deferred
    && (from.value == t || h[t].pred == from)
    && h[from.value].data.Some? && BaseData(h, t) == h[from.value].data
  }

  /** The alternative each reader takes the payload for. */
  predicate Expected(kind: Kind, action: Method, data: Payload) {
    match action
    case SendData => if kind == DevReq then data.SendArgs? else data.RecvArgs?
    case RegResource => data.Misc? && data.lines != []
    case IdentResource => if kind == DevReq then data.Dirs? else data.Misc?
  }

  ghost predicate ReadsWell(h: Heap, t: Tid, kind: Kind) {
    && t in h && h[t].kind == kind && h[t].header.Some?
    && var action := h[t].header.value.action;
    && (kind == SysResp || action != RegResource ==>
          OneHop(h, t) && Expected(kind, action, BaseData(h, t).value))
  }

  lemma ReadsAreOneHop(env: Env, acts: seq<Action>)
    ensures var s := Run(env, acts);
      && (forall t | t in s.req1 :: ReadsWell(s.holders, t, DevReq))
      && (forall t | t in s.resp0 :: ReadsWell(s.holders, t, SysResp))
      && (forall t | t in s.ingress :: t.source in s.holders && !s.holders[t.source].deferred
            && s.holders[t.source].data.Some? && s.holders[t.source].data.value.SendArgs?)
  {
    hide Run, Submitted, Inv, ReadsWell;
    var s := Run(env, acts);
    var L := LedgerOf(env, acts);
    forall t | t in s.req1
      ensures ReadsWell(s.holders, t, DevReq)
    {
      DeviceReadsWell(env, s, L, t);
    }
    forall t | t in s.resp0
      ensures ReadsWell(s.holders, t, SysResp)
    {
      CollageReadsWell(env, s, L, t);
    }
    forall t | t in s.ingress
      ensures t.source in s.holders && !s.holders[t.source].deferred
      ensures s.holders[t.source].data.Some? && s.holders[t.source].data.value.SendArgs?
    {
      var n :| 0 <= n < |s.ingress| && s.ingress[n] == t;
      var k := TicketReads(env, s, L, n);
    }
  }

  lemma DeviceReadsWell(env: Env, s: State, L: Ledger, t: Tid)
    requires Inv(env, s, L) && t in s.req1
    ensures ReadsWell(s.holders, t, DevReq)
  {
    hide Queued, OnlyJob, TicketsRight, OutcomesRight, Replied, Stored, Proper, Ends, EntryOf;
    var n :| 0 <= n < |s.req1| && s.req1[n] == t;
    var k := JobAt(env, s.holders, L, s.req1, n, AtDevice);
    RequestHeader(env, L.jobs[k], 1);
    LinkOf(env, s.holders, L, k, 1);
    assert Before(L.jobs[k].chain, 1) == Some(L.jobs[k].chain[0]);
    if !L.jobs[k].req.body.Register? {
      DeviceRequestReads(env, s.holders, L, k);
    }
  }

  lemma CollageReadsWell(env: Env, s: State, L: Ledger, t: Tid)
    requires Inv(env, s, L) && t in s.resp0
    ensures ReadsWell(s.holders, t, SysResp)
  {
    hide Queued, OnlyJob, TicketsRight, OutcomesRight, Replied, Stored, Proper, Ends, EntryOf, Clines;
    var n :| 0 <= n < |s.resp0| && s.resp0[n] == t;
    var k := JobAt(env, s.holders, L, s.resp0, n, AtCollage);
    RequestHeader(env, L.jobs[k], 3);
    LinkOf(env, s.holders, L, k, 3);
    assert Before(L.jobs[k].chain, 3) == Some(L.jobs[k].chain[2]);
    ResponseReads(env, s.holders, L, k);
  }

  // ---- progress ----

  /** Handler steps still to be taken for what is queued. */
  function Work(s: State): nat {
    6 * |s.req0| + 5 * |s.req1| + 4 * |s.ingress| + 3 * |s.egress| + 2 * |s.resp1| + |s.resp0|
  }

  /** A handler either finds its queue empty or brings the end nearer. */
  lemma StepsReduceWork(env: Env, acts: seq<Action>, a: Action)
    requires !a.Submit?
    ensures var s := Run(env, acts); Step(env, s, a) == s || Work(Step(env, s, a)) < Work(s)
  {
    hide Run;
    var s := Run(env, acts);
    RunNeverFaults(env, acts);
    RunStep(env, acts, a);
    RunNeverFaults(env, acts + [a]);
    WorkShrinks(env, s, a);
  }

  lemma RunStep(env: Env, acts: seq<Action>, a: Action)
    ensures Run(env, acts + [a]) == Step(env, Run(env, acts), a)
  {
    assert (acts + [a])[..|acts|] == acts;
  }

  lemma WorkShrinks(env: Env, s: State, a: Action)
    requires !a.Submit? && !s.fault && !Step(env, s, a).fault
    ensures Step(env, s, a) == s || Work(Step(env, s, a)) < Work(s)
    ensures !Idle(s) && a == Enabled(s) ==> Work(Step(env, s, a)) < Work(s)
  {
    hide Removed, Generate, BaseData, Holder, ReplyTo, Clines, Popped;
  }

  /** A handler that has something to do. */
  function Enabled(s: State): Action {
    if s.req0 != [] then SystemRequest
    else if s.req1 != [] then DeviceRequest
    else if s.ingress != [] then RunKernel(0)
    else if s.egress != [] then ReadResult
    else if s.resp1 != [] then SystemResponse
    else DrainResponse
  }

  /** Every run can be carried on, without new requests, until every request
      is answered and the store is empty. */
  lemma {:induction false} EveryRunCanFinish(env: Env, acts: seq<Action>) returns (more: seq<Action>)
    ensures (forall a | a in more :: !a.Submit?) && Idle(Run(env, acts + more))
    decreases Work(Run(env, acts))
  {
    hide Run, Step, Work;
    var s := Run(env, acts);
    if Idle(s) {
      more := [];
      assert acts + [] == acts;
    } else {
      var a := Enabled(s);
      RunNeverFaults(env, acts);
      RunStep(env, acts, a);
      RunNeverFaults(env, acts + [a]);
      WorkShrinks(env, s, a);
      var rest := EveryRunCanFinish(env, acts + [a]);
      more := [a] + rest;
      assert acts + [a] + rest == acts + more;
    }
  }
}
