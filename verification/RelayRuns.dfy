/** What holds of the relay in every run: any ranks, claims and sends, in any
    interleaving. */
module RelayRuns {
  import opened Bytes
  import opened PendingMessages
  import opened Relay
  import opened RelayProof
  import opened RelaySends

  lemma StepKeeps(compute: Compute, s: State, a: Action)
    requires Inv(compute, s)
    ensures Inv(compute, Step(compute, s, a))
  {
    hide Inv, DoClaim, DoNodeClaim, DoClaimResp, DoSend, DoNodeSend, DoVaRun, DoNodeRecv, DoBridgeRecv;
    if Enabled(s, a) {
      match a
      case ClientClaim(rid, tag, resource, accId, recommended) =>
        ClaimKeeps(compute, s, rid, tag, resource, accId, recommended);
      case ClientSend(rid, tag, claimId, data, key) => SendKeeps(compute, s, rid, tag, claimId, data, key);
      case NodeClaim(m) => NodeClaimKeeps(compute, s, m);
      case BridgeClaimResp(m) => ClaimRespKeeps(compute, s, m);
      case NodeSend(m, key) => NodeSendKeeps(compute, s, m, key);
      case VaRun(m) => VaRunKeeps(compute, s, m);
      case NodeRecv(m) => NodeRecvKeeps(compute, s, m);
      case BridgeRecv(m) => BridgeRecvKeeps(compute, s, m);
    }
  }

  lemma InitialInv(compute: Compute, addrs: seq<string>)
    ensures Inv(compute, Initial(addrs))
  {
  }

  lemma {:induction false} RunKeeps(compute: Compute, addrs: seq<string>, acts: seq<Action>)
    ensures Inv(compute, Run(compute, addrs, acts))
    decreases |acts|
  {
    hide Inv, Step;
    if acts == [] {
      InitialInv(compute, addrs);
    } else {
      RunKeeps(compute, addrs, acts[..|acts| - 1]);
      StepKeeps(compute, Run(compute, addrs, acts[..|acts| - 1]), acts[|acts| - 1]);
    }
  }

  /** Every data frame that the bridge emits carries the address of the rank
      that made some send, that send's own tag, and what the virtualization
      agents compute for that send's data on the resource it claimed; and no
      send is answered twice. */
  lemma DataIsForItsSender(compute: Compute, addrs: seq<string>, acts: seq<Action>)
    ensures var s := Run(compute, addrs, acts); var data := DataFrames(s.frames);
      && |data| == |s.answered|
      && (forall i | 0 <= i < |data| ::
            var key := s.answered[i];
            && key in s.sent && s.sent[key].accId in s.made
            && data[i] == Data(s.sent[key].rid, s.sent[key].tag,
                 compute(s.made[s.sent[key].accId].resource, s.sent[key].data)))
      && (forall i, j | 0 <= i < j < |s.answered| :: s.answered[i] != s.answered[j])
  {
    hide Run, KeysOk, NodesOk, ClaimMsgsOk, AdssOk, SentPending, StagesOk, MessagesOk, DataFrames;
    RunKeeps(compute, addrs, acts);
    var s := Run(compute, addrs, acts);
    forall i | 0 <= i < |s.answered|
      ensures ReplyOk(compute, s.made, s.sent, s.answered[i], DataFrames(s.frames)[i])
    {
    }
  }

  // ---- claim routing ----

  /** The bridge sent the request for this id to that agent, and the agent has
      granted it. */
  predicate GrantedBy(made: map<string, Made>, reqs: set<ClaimReq>, node: nat, accId: string) {
    && accId in made && made[accId].node == Some(node)
    && ClaimReq(node, accId, made[accId].resource) !in reqs
  }

  /** An agent holds just the ids that were sent to it and granted. */
  ghost predicate HeldExactly(nodes: seq<Node>, made: map<string, Made>, reqs: set<ClaimReq>) {
    forall i: nat, a :: Holds(nodes, i, a) <==> GrantedBy(made, reqs, i, a)
  }

  /** The rank has not claimed under this tag before. */
  predicate NewTag(s: State, a: Action) {
    a.ClientClaim? ==> !(a.rid in s.bridge.adss && a.tag in s.bridge.adss[a.rid])
  }

  predicate OnActiveClaim(s: State, a: Action) {
    a.ClientSend? ==>
      a.rid in s.bridge.adss && a.claimId in s.bridge.adss[a.rid] && s.bridge.adss[a.rid][a.claimId].active
  }

  lemma ClaimHeld(nodes: seq<Node>, made: map<string, Made>, pending: seq<Entry>, reqs: set<ClaimReq>,
      resps: set<ClaimResp>,
      accId: string, x: Made)
    requires ClaimMsgsOk(pending, nodes, made, reqs, resps) && HeldExactly(nodes, made, reqs) && accId !in made
    ensures HeldExactly(nodes, made[accId := x],
        if x.node.Some? then reqs + {ClaimReq(x.node.value, accId, x.resource)} else reqs)
  {
    hide Holds, Find;
    var more := if x.node.Some? then reqs + {ClaimReq(x.node.value, accId, x.resource)} else reqs;
    forall i: nat, a
      ensures GrantedBy(made, reqs, i, a) <==> GrantedBy(made[accId := x], more, i, a)
    {
    }
  }

  lemma GrantHeld(nodes: seq<Node>, made: map<string, Made>, pending: seq<Entry>, reqs: set<ClaimReq>,
      resps: set<ClaimResp>,
      m: ClaimReq)
    requires ClaimMsgsOk(pending, nodes, made, reqs, resps) && HeldExactly(nodes, made, reqs) && m in reqs
        && m.node < |nodes|
    ensures HeldExactly(nodes[m.node := OnNodeClaim(nodes[m.node], m.accId, m.resource)], made, reqs - {m})
  {
    hide Find;
    var nodes2 := nodes[m.node := OnNodeClaim(nodes[m.node], m.accId, m.resource)];
    forall i: nat, a
      ensures Holds(nodes2, i, a) <==> GrantedBy(made, reqs - {m}, i, a)
    {
      assert Holds(nodes, i, a) <==> GrantedBy(made, reqs, i, a);
      if i == m.node && nodes[i].addr + a == nodes[i].addr + m.accId {
        SuffixSame(nodes[i].addr, a, m.accId);
      }
    }
  }

  lemma StepHeld(compute: Compute, s: State, a: Action)
    requires Inv(compute, s) && HeldExactly(s.nodes, s.made, s.claimReqs)
    ensures var t := Step(compute, s, a); HeldExactly(t.nodes, t.made, t.claimReqs)
  {
    hide KeysOk, NodesOk, AdssOk, SentPending, StagesOk, MessagesOk, RepliesOk, DataFrames, Find, Removed, AddClaim,
      ClaimMsgsOk, Holds, GrantedBy, OnNodeClaim, OnNodeSend;
    if Enabled(s, a) {
      var t := Step(compute, s, a);
      match a
      case NodeClaim(m) =>
        GrantHeld(s.nodes, s.made, s.bridge.pending, s.claimReqs, s.claimResps, m);
      case ClientClaim(rid, tag, resource, accId, recommended) =>
        MadeAreUsed(s, accId);
        ClaimHeld(s.nodes, s.made, s.bridge.pending, s.claimReqs, s.claimResps, accId,
            Made(rid, tag, resource, recommended));
      case ClientSend(_, _, _, _, _) =>
      case BridgeClaimResp(_) =>
      case NodeSend(m, key) =>
        if OnNodeSend(s.nodes[m.node], m, key).Some? {
          SameHolds(s.bridge.pending, s.nodes, t.nodes, s.made, s.claimReqs, s.claimResps, m, key);
        }
      case VaRun(_) =>
      case NodeRecv(_) =>
      case BridgeRecv(_) =>
    }
  }

  lemma SuffixSame(p: string, a: string, b: string)
    requires p + a == p + b
    ensures a == b
  {
    assert a == (p + a)[|p|..];
    assert b == (p + b)[|p|..];
  }

  lemma MadeAreUsed(s: State, accId: string)
    requires KeysOk(s.used, s.made, s.sent, s.bridge.pending) && Fresh(s, accId)
    ensures accId !in s.made
  {
  }

  lemma ClaimRouted(adss: map<string, map<string, Claim>>, nodes: seq<Node>, made: map<string, Made>,
      rid: string, tag: string, resource: string, accId: string, node: Option<nat>)
    requires Routed(adss, nodes) && OncePerTag(adss, made) && accId !in made
    requires !(rid in adss && tag in adss[rid])
    ensures Routed(AddClaim(adss, rid, tag, accId), nodes)
    ensures OncePerTag(AddClaim(adss, rid, tag, accId), made[accId := Made(rid, tag, resource, node)])
  {
    hide Holds;
  }

  lemma RespRouted(adss: map<string, map<string, Claim>>, nodes: seq<Node>, made: map<string, Made>, m: ClaimResp)
    requires Routed(adss, nodes) && OncePerTag(adss, made) && m.accId in made && Holds(nodes, m.node, m.accId)
    requires made[m.accId].rid in adss
    ensures var rid, tag := made[m.accId].rid, made[m.accId].tag; var claims := adss[rid];
      var adss2 := adss[rid :=
        if tag in claims then claims[tag := claims[tag].(active := m.activate, node := m.node)] else claims];
      Routed(adss2, nodes) && OncePerTag(adss2, made)
  {
    hide Holds;
  }

  lemma HeldRouted(adss: map<string, map<string, Claim>>, nodes: seq<Node>, nodes2: seq<Node>)
    requires Routed(adss, nodes) && MoreHeld(nodes, nodes2)
    ensures Routed(adss, nodes2)
  {
    hide Holds;
  }

  lemma StepRouted(compute: Compute, s: State, a: Action)
    requires Inv(compute, s) && Routed(s.bridge.adss, s.nodes) && OncePerTag(s.bridge.adss, s.made) && NewTag(s, a)
    ensures var t := Step(compute, s, a); Routed(t.bridge.adss, t.nodes) && OncePerTag(t.bridge.adss, t.made)
  {
    hide NodesOk, SentPending, StagesOk, MessagesOk, RepliesOk, DataFrames, Find, Removed, Holds, Routed, OncePerTag,
        AddClaim,
      OnNodeClaim, OnNodeSend, ClaimMsgsOk, AdssOk;
    if Enabled(s, a) {
      match a
      case ClientClaim(rid, tag, resource, accId, recommended) =>
        MadeAreUsed(s, accId);
        ClaimRouted(s.bridge.adss, s.nodes, s.made, rid, tag, resource, accId, recommended);
      case NodeClaim(m) =>
        NodeClaimKeeps(compute, s, m);
        HeldRouted(s.bridge.adss, s.nodes, DoNodeClaim(s, m).nodes);
      case BridgeClaimResp(m) =>
        OneClaimResp(s.bridge.pending, s.nodes, s.made, s.claimReqs, s.claimResps, m);
        RidKnown(s.bridge.adss, s.made, s.nodes, m.accId);
        RespRouted(s.bridge.adss, s.nodes, s.made, m);
      case NodeSend(m, key) =>
        var r := OnNodeSend(s.nodes[m.node], m, key);
        if r.Some? {
          var nodes2 := s.nodes[m.node := r.value.0];
          SameHolds(s.bridge.pending, s.nodes, nodes2, s.made, s.claimReqs, s.claimResps, m, key);
          HeldRouted(s.bridge.adss, s.nodes, nodes2);
        }
      case ClientSend(_, _, _, _, _) =>
      case VaRun(_) =>
      case NodeRecv(_) =>
      case BridgeRecv(_) =>
    }
  }

  predicate NewTags(compute: Compute, addrs: seq<string>, acts: seq<Action>) {
    acts == [] ||
    (NewTags(compute, addrs, acts[..|acts| - 1]) && NewTag(Run(compute, addrs, acts[..|acts| - 1]), acts[|acts| - 1]))
  }

  /** If no rank claims twice under one tag, every active claim names the
      accelerator agent whose claim registry holds its id. */
  lemma {:induction false} ActiveClaimsAreRouted(compute: Compute, addrs: seq<string>, acts: seq<Action>)
    requires NewTags(compute, addrs, acts)
    ensures var s := Run(compute, addrs, acts); Routed(s.bridge.adss, s.nodes) && OncePerTag(s.bridge.adss, s.made)
    decreases |acts|
  {
    hide Inv, Step;
    if acts != [] {
      ActiveClaimsAreRouted(compute, addrs, acts[..|acts| - 1]);
      RunKeeps(compute, addrs, acts[..|acts| - 1]);
      StepRouted(compute, Run(compute, addrs, acts[..|acts| - 1]), acts[|acts| - 1]);
    }
  }

  // ---- sends on active claims ----

  /** The node of a send in flight holds its id. */
  ghost predicate SendsHeld(nodes: seq<Node>, nexSends: set<NexSend>) {
    forall m | m in nexSends :: Holds(nodes, m.node, m.accId)
  }

  lemma StepNeverThrows(compute: Compute, s: State, a: Action)
    requires Inv(compute, s) && Routed(s.bridge.adss, s.nodes) && SendsHeld(s.nodes, s.nexSends)
        && OnActiveClaim(s, a) && !s.thrown
    ensures var t := Step(compute, s, a); !t.thrown && SendsHeld(t.nodes, t.nexSends)
  {
    hide NodesOk, SentPending, StagesOk, MessagesOk, RepliesOk, DataFrames, Find, Removed, AddClaim,
      OnNodeClaim, ClaimMsgsOk, AdssOk, KeysOk;
    if Enabled(s, a) {
      match a
      case NodeClaim(m) =>
        NodeClaimKeeps(compute, s, m);
        MoreHeldSends(s.nodes, DoNodeClaim(s, m).nodes, s.nexSends);
      case BridgeClaimResp(m) =>
        ClaimRespKeeps(compute, s, m);
      case NodeSend(m, key) =>
        var nodes2 := s.nodes[m.node := OnNodeSend(s.nodes[m.node], m, key).value.0];
        SameHolds(s.bridge.pending, s.nodes, nodes2, s.made, s.claimReqs, s.claimResps, m, key);
        MoreHeldSends(s.nodes, nodes2, s.nexSends);
      case ClientSend(_, _, _, _, _) =>
      case NodeRecv(m) =>
        NodeRecvKeeps(compute, s, m);
      case BridgeRecv(m) =>
        BridgeRecvKeeps(compute, s, m);
      case ClientClaim(_, _, _, _, _) =>
      case VaRun(_) =>
    }
  }

  lemma MoreHeldSends(nodes: seq<Node>, nodes2: seq<Node>, nexSends: set<NexSend>)
    requires SendsHeld(nodes, nexSends) && MoreHeld(nodes, nodes2)
    ensures SendsHeld(nodes2, nexSends)
  {
    hide Holds;
  }

  predicate OnActiveClaims(compute: Compute, addrs: seq<string>, acts: seq<Action>) {
    acts == [] ||
    (OnActiveClaims(compute, addrs, acts[..|acts| - 1])
        && OnActiveClaim(Run(compute, addrs, acts[..|acts| - 1]), acts[|acts| - 1]))
  }

  /** If, besides, ranks send only on active claims, every send finds its
      resource at the agent it goes to, and no handler ever throws. */
  lemma {:induction false} ActiveSendsAreFound(compute: Compute, addrs: seq<string>, acts: seq<Action>)
    requires NewTags(compute, addrs, acts) && OnActiveClaims(compute, addrs, acts)
    ensures var s := Run(compute, addrs, acts); !s.thrown && SendsHeld(s.nodes, s.nexSends)
    decreases |acts|
  {
    hide Inv, Step;
    if acts != [] {
      var front := acts[..|acts| - 1];
      ActiveSendsAreFound(compute, addrs, front);
      ActiveClaimsAreRouted(compute, addrs, front);
      RunKeeps(compute, addrs, front);
      StepNeverThrows(compute, Run(compute, addrs, front), acts[|acts| - 1]);
    }
  }

  // ---- where every claim stands, tags repeated or not ----

  /** In every run an agent holds an id if and only if the bridge sent the
      claim there and the agent has granted it. */
  lemma {:induction false} RunHeldExactly(compute: Compute, addrs: seq<string>, acts: seq<Action>)
    ensures var s := Run(compute, addrs, acts); HeldExactly(s.nodes, s.made, s.claimReqs)
    decreases |acts|
  {
    hide Inv, Step, GrantedBy;
    if acts == [] {
      NothingHeld(compute, addrs);
    } else {
      RunHeldExactly(compute, addrs, acts[..|acts| - 1]);
      RunKeeps(compute, addrs, acts[..|acts| - 1]);
      StepHeld(compute, Run(compute, addrs, acts[..|acts| - 1]), acts[|acts| - 1]);
    }
  }

  lemma NothingHeld(compute: Compute, addrs: seq<string>)
    ensures HeldExactly(Initial(addrs).nodes, map[], {})
  {
  }

  /** Every tag that was claimed has its claim in the bridge. */
  ghost predicate TagsKnown(adss: map<string, map<string, Claim>>, made: map<string, Made>) {
    forall a | a in made :: made[a].rid in adss && made[a].tag in adss[made[a].rid]
  }

  lemma StepTags(compute: Compute, s: State, a: Action)
    requires TagsKnown(s.bridge.adss, s.made)
    ensures var t := Step(compute, s, a); TagsKnown(t.bridge.adss, t.made)
  {
    hide Find, Removed, OnNodeClaim, OnNodeSend;
  }

  lemma {:induction false} RunTags(compute: Compute, addrs: seq<string>, acts: seq<Action>)
    ensures var s := Run(compute, addrs, acts); TagsKnown(s.bridge.adss, s.made)
    decreases |acts|
  {
    hide Step;
    if acts != [] {
      RunTags(compute, addrs, acts[..|acts| - 1]);
      StepTags(compute, Run(compute, addrs, acts[..|acts| - 1]), acts[|acts| - 1]);
    }
  }

  /** The claim that the answer m is for. */
  function Answered(s: State, m: ClaimResp): Option<Claim> {
    if m.accId !in s.made then None
    else
      var rid, tag := s.made[m.accId].rid, s.made[m.accId].tag;
      if rid in s.bridge.adss && tag in s.bridge.adss[rid] then Some(s.bridge.adss[rid][tag]) else None
  }

  /** Any answer to any claim, the first under its tag or not: the claim is
      active and names the answer's node, and that agent holds its id if and
      only if the claim's own id was sent there and has been granted. */
  lemma AnswerRoutesExactly(compute: Compute, addrs: seq<string>, acts: seq<Action>, m: ClaimResp)
    requires m in Run(compute, addrs, acts).claimResps
    ensures var s := Run(compute, addrs, acts); var t := DoClaimResp(s, m);
      && Answered(s, m).Some?
      && var accId := Answered(s, m).value.accId;
      && Answered(t, m) == Some(Claim(true, accId, m.node))
      && (Holds(t.nodes, m.node, accId) <==> GrantedBy(s.made, s.claimReqs, m.node, accId))
  {
    hide Run, NodesOk, SentPending, StagesOk, MessagesOk, RepliesOk, DataFrames, Find, Removed, AdssOk, KeysOk,
        Holds, GrantedBy;
    RunKeeps(compute, addrs, acts);
    RunHeldExactly(compute, addrs, acts);
    RunTags(compute, addrs, acts);
    var s := Run(compute, addrs, acts);
    OneClaimResp(s.bridge.pending, s.nodes, s.made, s.claimReqs, s.claimResps, m);
  }

  /** If the claim was active and routed already, its answer leaves it so if and
      only if the same node granted both. */
  lemma RepeatedTag(compute: Compute, addrs: seq<string>, acts: seq<Action>, m: ClaimResp)
    requires var s := Run(compute, addrs, acts);
      && m in s.claimResps && Answered(s, m).Some?
      && var c := Answered(s, m).value; c.active && Holds(s.nodes, c.node, c.accId)
    ensures var s := Run(compute, addrs, acts); var t := DoClaimResp(s, m);
      && Answered(t, m).Some?
      && var c := Answered(t, m).value;
      (Holds(t.nodes, c.node, c.accId) <==> m.node == Answered(s, m).value.node)
  {
    hide Run, DoClaimResp, Answered, Holds;
    AnswerRoutesExactly(compute, addrs, acts, m);
    RunHeldExactly(compute, addrs, acts);
  }

  // ---- a tag used twice ----

  /** A rank claims twice under one tag; the first claim goes to agent 0, the
      second to agent 1, and both are granted. */
  function ReusedTag(): seq<Action> {
    [
      ClientClaim("r", "t", "f", "a", Some(0)),
      NodeClaim(ClaimReq(0, "a", "f")),
      BridgeClaimResp(ClaimResp(0, "a", true)),
      ClientClaim("r", "t", "f", "b", Some(1)),
      NodeClaim(ClaimReq(1, "b", "f")),
      BridgeClaimResp(ClaimResp(1, "b", true))
    ]
  }

  lemma RunNext(compute: Compute, addrs: seq<string>, acts: seq<Action>, k: nat)
    requires k < |acts|
    ensures Run(compute, addrs, acts[..k + 1]) == Step(compute, Run(compute, addrs, acts[..k]), acts[k])
  {
    assert acts[..k + 1][..k] == acts[..k];
  }

  /** What the proof follows of a state with the two agents "x" and "y". */
  ghost predicate Looks(s: State, claim: Option<Claim>, heldX: map<string, string>, heldY: map<string, string>,
      used: set<string>, reqs: set<ClaimReq>, resps: set<ClaimResp>)
  {
    && !s.thrown && |s.nodes| == 2 && s.nodes[0].addr == "x" && s.nodes[1].addr == "y"
    && s.nodes[0].claims == heldX && s.nodes[1].claims == heldY
    && s.used == used && s.claimReqs == reqs && s.claimResps == resps
    && s.bridge.adss == (if claim.Some? then map["r" := map["t" := claim.value]] else map[])
    && (forall a | a in s.made :: s.made[a].rid == "r" && s.made[a].tag == "t") && s.made.Keys == used
  }

  lemma ClaimLooks(compute: Compute, s: State, claim: Option<Claim>, heldX: map<string, string>,
      heldY: map<string, string>,
      used: set<string>, accId: string, node: nat)
    requires Looks(s, claim, heldX, heldY, used, {}, {}) && accId !in used && accId != "" && node < 2
    ensures Looks(Step(compute, s, ClientClaim("r", "t", "f", accId, Some(node))),
              if claim.Some? then claim else Some(Claim(false, accId, 0)),
              heldX, heldY, used + {accId}, {ClaimReq(node, accId, "f")}, {})
  {
    hide Find, Removed;
  }

  lemma NodeLooks(compute: Compute, s: State, claim: Option<Claim>, heldX: map<string, string>,
      heldY: map<string, string>,
      used: set<string>, accId: string, node: nat)
    requires Looks(s, claim, heldX, heldY, used, {ClaimReq(node, accId, "f")}, {}) && node < 2
    requires "x" + accId !in heldX && "y" + accId !in heldY
    ensures Looks(Step(compute, s, NodeClaim(ClaimReq(node, accId, "f"))), claim,
              if node == 0 then heldX["x" + accId := "f"] else heldX, if node == 1 then heldY["y" + accId := "f"]
                  else heldY,
              used, {}, {ClaimResp(node, accId, true)})
  {
    hide Find, Removed;
  }

  lemma RespLooks(compute: Compute, s: State, claim: Claim, heldX: map<string, string>, heldY: map<string, string>,
      used: set<string>, accId: string, node: nat)
    requires Looks(s, Some(claim), heldX, heldY, used, {}, {ClaimResp(node, accId, true)}) && Inv(compute, s)
    ensures Looks(Step(compute, s, BridgeClaimResp(ClaimResp(node, accId, true))), Some(Claim(true, claim.accId, node)),
              heldX, heldY, used, {}, {})
  {
    hide Find, Removed, KeysOk, NodesOk, AdssOk, SentPending, StagesOk, MessagesOk, RepliesOk, DataFrames;
    OneClaimResp(s.bridge.pending, s.nodes, s.made, s.claimReqs, s.claimResps, ClaimResp(node, accId, true));
    var after := Claim(true, claim.accId, node);
    assert map["t" := claim]["t" := after] == map["t" := after];
    assert s.bridge.adss["r" := map["t" := after]] == map["r" := map["t" := after]];
  }

  const HELD_X: map<string, string> := map[]["x" + "a" := "f"]
  const HELD_Y: map<string, string> := map[]["y" + "b" := "f"]

  lemma FirstClaimLooks(compute: Compute, addrs: seq<string>)
    requires addrs == ["x", "y"]
    ensures Looks(Run(compute, addrs, ReusedTag()[..3]), Some(Claim(true, "a", 0)), HELD_X, map[], {} + {"a"}, {}, {})
  {
    hide Run, Step, Inv, Looks;
    var h := ReusedTag();
    StartLooks(compute, addrs);
    RunNext(compute, addrs, h, 0);
    ClaimLooks(compute, Run(compute, addrs, h[..0]), None, map[], map[], {}, "a", 0);
    RunNext(compute, addrs, h, 1);
    NodeLooks(compute, Run(compute, addrs, h[..1]), Some(Claim(false, "a", 0)), map[], map[], {} + {"a"}, "a", 0);
    RunNext(compute, addrs, h, 2);
    RunKeeps(compute, addrs, h[..2]);
    RespLooks(compute, Run(compute, addrs, h[..2]), Claim(false, "a", 0), HELD_X, map[], {} + {"a"}, "a", 0);
  }

  lemma SecondClaimLooks(compute: Compute, addrs: seq<string>)
    requires addrs == ["x", "y"]
    ensures Looks(Run(compute, addrs, ReusedTag()), Some(Claim(true, "a", 1)), HELD_X, HELD_Y, {} + {"a"} + {"b"},
        {}, {})
  {
    hide Run, Step, Inv, Looks;
    var h := ReusedTag();
    FirstClaimLooks(compute, addrs);
    RunNext(compute, addrs, h, 3);
    ClaimLooks(compute, Run(compute, addrs, h[..3]), Some(Claim(true, "a", 0)), HELD_X, map[], {} + {"a"}, "b", 1);
    RunNext(compute, addrs, h, 4);
    assert ("x" + "b")[1] != ("x" + "a")[1];
    NodeLooks(compute, Run(compute, addrs, h[..4]), Some(Claim(true, "a", 0)), HELD_X, map[], {} + {"a"} + {"b"},
        "b", 1);
    RunNext(compute, addrs, h, 5);
    RunKeeps(compute, addrs, h[..5]);
    RespLooks(compute, Run(compute, addrs, h[..5]), Claim(true, "a", 0), HELD_X, HELD_Y, {} + {"a"} + {"b"}, "b", 1);
    assert h[..6] == h;
  }

  /** The claim is active, its node is 1, and agent 1 does not hold its id. */
  lemma ReusedTagMisroutes(compute: Compute)
    ensures var s := Run(compute, ["x", "y"], ReusedTag());
      && s.bridge.adss == map["r" := map["t" := Claim(true, "a", 1)]]
      && !Holds(s.nodes, 1, "a") && !Routed(s.bridge.adss, s.nodes)
  {
    hide Run, ReusedTag;
    SecondClaimLooks(compute, ["x", "y"]);
    assert ("y" + "b")[1] != ("y" + "a")[1];
    var c := Run(compute, ["x", "y"], ReusedTag()).bridge.adss["r"]["t"];
    assert c == Claim(true, "a", 1);
  }

  lemma StartLooks(compute: Compute, addrs: seq<string>)
    requires addrs == ["x", "y"]
    ensures Looks(Run(compute, addrs, ReusedTag()[..0]), None, map[], map[], {}, {}, {})
  {
    assert ReusedTag()[..0] == [];
  }
}
