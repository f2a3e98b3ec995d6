/** Whom the bridge's frames answer, said of the run's own actions: every data
    frame answers a client's send on a client's claim, every other frame a
    client's claim, and none is answered twice. */
module RelayRecords {
  import opened Bytes
  import opened PendingMessages
  import opened Relay
  import opened RelayProof
  import opened RelayRuns

  // ---- what is recorded of claims and sends is what was asked ----

  ghost predicate ClaimAsked(acts: seq<Action>, accId: string, x: Made) {
    ClientClaim(x.rid, x.tag, x.resource, accId, x.node) in acts
  }

  ghost predicate SendAsked(acts: seq<Action>, key: string, x: Sent) {
    ClientSend(x.rid, x.tag, x.claimId, x.data, key) in acts
  }

  /** The id a send goes on with is that of the claim it names, or none. */
  ghost predicate OnItsClaim(made: map<string, Made>, x: Sent) {
    x.accId == "" || (x.accId in made && made[x.accId].rid == x.rid && made[x.accId].tag == x.claimId)
  }

  ghost predicate Recorded(acts: seq<Action>, s: State) {
    && (forall a | a in s.made :: ClaimAsked(acts, a, s.made[a]))
    && (forall k | k in s.sent :: SendAsked(acts, k, s.sent[k]) && OnItsClaim(s.made, s.sent[k]))
  }

  lemma MadeChanges(compute: Compute, s: State, a: Action)
    requires s.made.Keys <= s.used
    ensures var t := Step(compute, s, a);
      || t.made == s.made
      || (a.ClientClaim? && a.accId !in s.made
          && t.made == s.made[a.accId := Made(a.rid, a.tag, a.resource, a.recommended)])
  {
    hide Find, Removed, OnNodeClaim, OnNodeSend, OnNodeRecv, OnClaim, OnClaimResp, OnData, OnSend;
  }

  /** How far a send has come may change, nothing else of it. */
  ghost predicate SameButStage(sent: map<string, Sent>, k: string, x: Sent) {
    k in sent && x == sent[k].(stage := x.stage)
  }

  ghost predicate NewSent(s: State, a: Action, k: string, x: Sent) {
    && a.ClientSend? && k == a.key && a.rid in s.bridge.adss
    && var claims := s.bridge.adss[a.rid];
    && x == Sent(a.rid, a.tag, a.claimId, if a.claimId in claims then claims[a.claimId].accId else "", a.data, x.stage)
  }

  lemma SentChanges(compute: Compute, s: State, a: Action, k: string)
    requires k in Step(compute, s, a).sent
    ensures var x := Step(compute, s, a).sent[k]; SameButStage(s.sent, k, x) || NewSent(s, a, k, x)
  {
    hide Find, Removed, OnNodeClaim, OnNodeSend, OnNodeRecv, OnClaim, OnClaimResp, OnData;
  }

  lemma ClaimStays(made: map<string, Made>, more: map<string, Made>, x: Sent)
    requires OnItsClaim(made, x) && made.Keys <= more.Keys && forall b | b in made :: more[b] == made[b]
    ensures OnItsClaim(more, x)
  {
  }

  /** A step changes how far sends have come; it adds at most the claim or the
      send that its action asks for. */
  lemma StepRecords(compute: Compute, acts: seq<Action>, s: State, a: Action)
    requires Recorded(acts, s) && AdssOk(s.bridge.adss, s.made, s.nodes) && s.made.Keys <= s.used
    ensures Recorded(acts + [a], Step(compute, s, a))
  {
    hide Step;
    var t := Step(compute, s, a);
    MadeChanges(compute, s, a);
    assert forall x | x in acts :: x in acts + [a];
    assert a in acts + [a];
    forall b | b in t.made
      ensures ClaimAsked(acts + [a], b, t.made[b])
    {
      if b in s.made {
        assert ClaimAsked(acts, b, s.made[b]);
      }
    }
    forall k | k in t.sent
      ensures SendAsked(acts + [a], k, t.sent[k]) && OnItsClaim(t.made, t.sent[k])
    {
      SentChanges(compute, s, a, k);
      if SameButStage(s.sent, k, t.sent[k]) {
        assert SendAsked(acts, k, s.sent[k]) && OnItsClaim(s.made, s.sent[k]);
        ClaimStays(s.made, t.made, s.sent[k]);
      } else {
        ClaimStays(s.made, t.made, t.sent[k]);
      }
    }
  }

  lemma {:induction false} RunRecords(compute: Compute, addrs: seq<string>, acts: seq<Action>)
    ensures Recorded(acts, Run(compute, addrs, acts))
    decreases |acts|
  {
    hide Step, Recorded;
    if acts == [] {
      NothingRecorded(addrs);
    } else {
      var front, a := acts[..|acts| - 1], acts[|acts| - 1];
      RunRecords(compute, addrs, front);
      RunKeeps(compute, addrs, front);
      StepRecords(compute, front, Run(compute, addrs, front), a);
      assert front + [a] == acts;
    }
  }

  lemma NothingRecorded(addrs: seq<string>)
    ensures Recorded([], Initial(addrs))
  {
  }

  /** A data frame answers this send: it goes to the rank that made the send,
      under the send's own tag, with what is computed for the send's data on
      the resource that the rank claimed under the tag the send names. */
  ghost predicate AnswersSend(compute: Compute, acts: seq<Action>, key: string, f: Frame) {
    exists rid, tag, claimId, data, resource, accId, node ::
      && ClientSend(rid, tag, claimId, data, key) in acts
      && ClientClaim(rid, claimId, resource, accId, node) in acts
      && f == Data(rid, tag, compute(resource, data))
  }

  /** Every data frame that the bridge emits answers a send of the run, and no
      send is answered twice. */
  lemma EveryDataAnswersASend(compute: Compute, addrs: seq<string>, acts: seq<Action>) returns (keys: seq<string>)
    ensures var data := DataFrames(Run(compute, addrs, acts).frames);
      && |keys| == |data|
      && (forall i | 0 <= i < |data| :: AnswersSend(compute, acts, keys[i], data[i]))
      && (forall i, j | 0 <= i < j < |keys| :: keys[i] != keys[j])
  {
    hide Run, DataFrames, Inv, AnswersSend;
    var s := Run(compute, addrs, acts);
    var data := DataFrames(s.frames);
    keys := s.answered;
    DataIsForItsSender(compute, addrs, acts);
    RunRecords(compute, addrs, acts);
    RunKeeps(compute, addrs, acts);
    NoEmptyId(compute, s);
    forall i | 0 <= i < |data|
      ensures AnswersSend(compute, acts, keys[i], data[i])
    {
      var x := s.sent[keys[i]];
      SendAnswered(compute, acts, keys[i], x, s.made[x.accId], data[i]);
    }
  }

  lemma NoEmptyId(compute: Compute, s: State)
    requires Inv(compute, s)
    ensures "" !in s.made
  {
  }

  lemma SendAnswered(compute: Compute, acts: seq<Action>, key: string, x: Sent, m: Made, f: Frame)
    requires SendAsked(acts, key, x) && ClaimAsked(acts, x.accId, m) && m.rid == x.rid && m.tag == x.claimId
    requires f == Data(x.rid, x.tag, compute(m.resource, x.data))
    ensures AnswersSend(compute, acts, key, f)
  {
  }

  // ---- claims ----

  /** The frames that answer claims. */
  function ClaimFrames(frames: seq<Frame>): seq<Frame> {
    if frames == [] then []
    else
      var front := ClaimFrames(frames[..|frames| - 1]);
      if frames[|frames| - 1].Granted? then front + [frames[|frames| - 1]] else front
  }

  lemma OneMoreFrame(frames: seq<Frame>, f: Frame)
    ensures ClaimFrames(frames + [f]) == if f.Granted? then ClaimFrames(frames) + [f] else ClaimFrames(frames)
  {
    assert (frames + [f])[..|frames|] == frames;
  }

  /** The claim was sent to an agent and its answer has been processed. */
  predicate Processed(made: map<string, Made>, reqs: set<ClaimReq>, resps: set<ClaimResp>, a: string)
    requires a in made
  {
    && made[a].node.Some?
    && ClaimReq(made[a].node.value, a, made[a].resource) !in reqs
    && ClaimResp(made[a].node.value, a, true) !in resps
  }

  ghost predicate Told(made: map<string, Made>, reqs: set<ClaimReq>, resps: set<ClaimResp>,
      told: seq<Frame>, who: seq<string>)
  {
    && |who| == |told|
    && (forall i | 0 <= i < |who| :: who[i] in made && told[i] == Granted(made[who[i]].rid, made[who[i]].tag, true))
    && (forall i, j | 0 <= i < j < |who| :: who[i] != who[j])
    && (forall a | a in made :: a in who <==> Processed(made, reqs, resps, a))
  }

  lemma ClaimTold(pending: seq<Entry>, nodes: seq<Node>, made: map<string, Made>,
      reqs: set<ClaimReq>, resps: set<ClaimResp>, told: seq<Frame>, who: seq<string>, accId: string, x: Made)
    requires Told(made, reqs, resps, told, who) && accId !in made && ClaimMsgsOk(pending, nodes, made, reqs, resps)
    ensures var more := if x.node.Some? then reqs + {ClaimReq(x.node.value, accId, x.resource)} else reqs;
      Told(made[accId := x], more, resps, told, who)
  {
    hide Find, Holds;
    var more := if x.node.Some? then reqs + {ClaimReq(x.node.value, accId, x.resource)} else reqs;
    forall a | a in made
      ensures Processed(made[accId := x], more, resps, a) <==> Processed(made, reqs, resps, a)
    {
    }
  }

  lemma GrantTold(pending: seq<Entry>, nodes: seq<Node>, made: map<string, Made>,
      reqs: set<ClaimReq>, resps: set<ClaimResp>, told: seq<Frame>, who: seq<string>, m: ClaimReq)
    requires Told(made, reqs, resps, told, who) && ClaimMsgsOk(pending, nodes, made, reqs, resps) && m in reqs
    ensures Told(made, reqs - {m}, resps + {ClaimResp(m.node, m.accId, true)}, told, who)
  {
    hide Find, Holds;
    forall a | a in made
      ensures Processed(made, reqs - {m}, resps + {ClaimResp(m.node, m.accId, true)}, a)
         <==> Processed(made, reqs, resps, a)
    {
    }
  }

  lemma RespTold(pending: seq<Entry>, nodes: seq<Node>, made: map<string, Made>,
      reqs: set<ClaimReq>, resps: set<ClaimResp>, told: seq<Frame>, who: seq<string>, m: ClaimResp)
    requires Told(made, reqs, resps, told, who) && ClaimMsgsOk(pending, nodes, made, reqs, resps) && m in resps
    ensures m.accId in made
    ensures Told(made, reqs, resps - {m}, told + [Granted(made[m.accId].rid, made[m.accId].tag, true)], who + [m.accId])
  {
    hide Find, Holds;
    assert m.accId in made && made[m.accId].node == Some(m.node) && m == ClaimResp(m.node, m.accId, true);
    assert !Processed(made, reqs, resps, m.accId);
    assert ClaimReq(m.node, m.accId, made[m.accId].resource) !in reqs;
    forall a | a in made
      ensures Processed(made, reqs, resps - {m}, a) <==> Processed(made, reqs, resps, a) || a == m.accId
    {
    }
  }

  lemma StepTold(compute: Compute, s: State, a: Action, who: seq<string>) returns (who2: seq<string>)
    requires Inv(compute, s) && Told(s.made, s.claimReqs, s.claimResps, ClaimFrames(s.frames), who)
    ensures var t := Step(compute, s, a); Told(t.made, t.claimReqs, t.claimResps, ClaimFrames(t.frames), who2)
    ensures who2 == who || (a.BridgeClaimResp? && who2 == who + [a.resp.accId])
  {
    hide NodesOk, AdssOk, SentPending, StagesOk, MessagesOk, RepliesOk, DataFrames, Find, Removed, AddClaim,
      ClaimMsgsOk, Told, ClaimFrames, OnNodeClaim, OnNodeSend, OnNodeRecv, OnSend;
    who2 := who;
    if Enabled(s, a) {
      match a
      case ClientClaim(rid, tag, resource, accId, recommended) =>
        MadeAreUsed(s, accId);
        ClaimTold(s.bridge.pending, s.nodes, s.made, s.claimReqs, s.claimResps, ClaimFrames(s.frames), who, accId,
          Made(rid, tag, resource, recommended));
      case NodeClaim(m) =>
        GrantTold(s.bridge.pending, s.nodes, s.made, s.claimReqs, s.claimResps, ClaimFrames(s.frames), who, m);
      case BridgeClaimResp(m) =>
        OneClaimResp(s.bridge.pending, s.nodes, s.made, s.claimReqs, s.claimResps, m);
        RidKnown(s.bridge.adss, s.made, s.nodes, m.accId);
        RespTold(s.bridge.pending, s.nodes, s.made, s.claimReqs, s.claimResps, ClaimFrames(s.frames), who, m);
        OneMoreFrame(s.frames, Granted(s.made[m.accId].rid, s.made[m.accId].tag, true));
        who2 := who + [m.accId];
      case BridgeRecv(m) => OneMoreFrame(s.frames, OnData(s.bridge, m).1);
      case ClientSend(_, _, _, _, _) =>
      case NodeSend(_, _) =>
      case VaRun(_) =>
      case NodeRecv(_) =>
    }
  }

  lemma {:induction false} RunTold(compute: Compute, addrs: seq<string>, acts: seq<Action>) returns (who: seq<string>)
    ensures var s := Run(compute, addrs, acts); Told(s.made, s.claimReqs, s.claimResps, ClaimFrames(s.frames), who)
    decreases |acts|
  {
    hide Inv, Step, Told, ClaimFrames;
    if acts == [] {
      NobodyTold(addrs);
      who := [];
    } else {
      var front := acts[..|acts| - 1];
      var before := RunTold(compute, addrs, front);
      RunKeeps(compute, addrs, front);
      who := StepTold(compute, Run(compute, addrs, front), acts[|acts| - 1], before);
    }
  }

  lemma NobodyTold(addrs: seq<string>)
    ensures var s := Initial(addrs); Told(s.made, s.claimReqs, s.claimResps, ClaimFrames(s.frames), [])
  {
  }

  /** A frame answers this claim: it goes to the rank that made it, under the
      tag it was made under, and says yes. */
  ghost predicate AnswersClaim(acts: seq<Action>, accId: string, f: Frame) {
    exists rid, tag, resource, node ::
      ClientClaim(rid, tag, resource, accId, Some(node)) in acts && f == Granted(rid, tag, true)
  }

  /** Every frame about a claim answers a claim of the run, none is answered
      twice, and a claim has been answered if and only if it was sent to an
      agent and neither the request nor the response is still on its way. */
  lemma EveryGrantAnswersAClaim(compute: Compute, addrs: seq<string>, acts: seq<Action>) returns (who: seq<string>)
    ensures var s := Run(compute, addrs, acts); var told := ClaimFrames(s.frames);
      && |who| == |told|
      && (forall i | 0 <= i < |told| :: AnswersClaim(acts, who[i], told[i]))
      && (forall i, j | 0 <= i < j < |who| :: who[i] != who[j])
      && (forall a | a in s.made :: a in who <==> Processed(s.made, s.claimReqs, s.claimResps, a))
  {
    hide Run, ClaimFrames;
    who := RunTold(compute, addrs, acts);
    RunRecords(compute, addrs, acts);
    var s := Run(compute, addrs, acts);
    forall i | 0 <= i < |who|
      ensures AnswersClaim(acts, who[i], ClaimFrames(s.frames)[i])
    {
      assert who[i] in who;
      assert Processed(s.made, s.claimReqs, s.claimResps, who[i]);
      assert ClaimAsked(acts, who[i], s.made[who[i]]);
    }
  }

  /** Processing a response emits one such frame. */
  lemma ResponseAnswers(compute: Compute, addrs: seq<string>, acts: seq<Action>, m: ClaimResp)
    requires m in Run(compute, addrs, acts).claimResps
    ensures var s := Run(compute, addrs, acts); var t := DoClaimResp(s, m);
      && |t.frames| == |s.frames| + 1 && t.frames[..|s.frames|] == s.frames
      && AnswersClaim(acts, m.accId, t.frames[|s.frames|])
  {
    hide Run, NodesOk, SentPending, StagesOk, MessagesOk, RepliesOk, DataFrames, Find, Removed, AdssOk, KeysOk, Holds;
    RunKeeps(compute, addrs, acts);
    RunRecords(compute, addrs, acts);
    var s := Run(compute, addrs, acts);
    OneClaimResp(s.bridge.pending, s.nodes, s.made, s.claimReqs, s.claimResps, m);
    RidKnown(s.bridge.adss, s.made, s.nodes, m.accId);
    assert ClaimAsked(acts, m.accId, s.made[m.accId]);
  }
}
