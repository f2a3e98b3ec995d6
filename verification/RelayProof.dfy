/** What every run of the relay keeps. */
module RelayProof {
  import opened Bytes
  import opened PendingMessages
  import opened Relay

  /** Generated keys are used once: an accelerator id or a send's key. */
  ghost predicate KeysOk(used: set<string>, made: map<string, Made>, sent: map<string, Sent>, pending: seq<Entry>) {
    && "" !in used && made.Keys <= used && sent.Keys <= used && made.Keys !! sent.Keys
    && NothingUnder(pending, used)
  }

  ghost predicate NothingUnder(pending: seq<Entry>, used: set<string>) {
    forall k | k !in used && k != "" :: Find(pending, k) == None
  }

  /** An agent's claim registry holds only ids the bridge made, each with the
      resource it was made for. */
  ghost predicate NodeOk(n: Node, used: set<string>, made: map<string, Made>) {
    && NothingUnder(n.pending, used)
    && (forall k | k in n.claims :: |k| >= |n.addr| && k[..|n.addr|] == n.addr && k[|n.addr|..] in made
          && n.claims[k] == made[k[|n.addr|..]].resource)
  }

  ghost predicate NodesOk(nodes: seq<Node>, used: set<string>, made: map<string, Made>) {
    forall i | 0 <= i < |nodes| :: NodeOk(nodes[i], used, made)
  }

  predicate Holds(nodes: seq<Node>, node: nat, accId: string) {
    node < |nodes| && nodes[node].addr + accId in nodes[node].claims
  }

  ghost predicate ClaimPendingFor(pending: seq<Entry>, made: map<string, Made>, accId: string)
    requires accId in made
  {
    Find(pending, accId) == Some(Entry(accId, ClaimPending, made[accId].tag, made[accId].rid))
  }

  ghost predicate ClaimMsgsOk(pending: seq<Entry>, nodes: seq<Node>, made: map<string, Made>,
      reqs: set<ClaimReq>, resps: set<ClaimResp>)
  {
    && (forall m | m in reqs ::
          m.accId in made && made[m.accId].resource == m.resource && made[m.accId].node == Some(m.node)
          && m.node < |nodes| && ClaimPendingFor(pending, made, m.accId) && ClaimResp(m.node, m.accId, true) !in resps)
    && (forall m | m in resps :: m.accId in made && made[m.accId].node == Some(m.node) && m.activate
          && ClaimPendingFor(pending, made, m.accId) && Holds(nodes, m.node, m.accId))
  }

  /** Claims in the bridge name ids made for them, and ids made are on record
      with their rank. */
  ghost predicate AdssOk(adss: map<string, map<string, Claim>>, made: map<string, Made>, nodes: seq<Node>) {
    && (forall rid, tag | rid in adss && tag in adss[rid] ::
          var c := adss[rid][tag];
          && c.accId in made && made[c.accId].rid == rid && made[c.accId].tag == tag
          && (c.active ==> c.node < |nodes|) && (!c.active ==> c.node == 0))
    && (forall a | a in made :: made[a].rid in adss)
  }

  /** The claim routing invariant: an active claim's node holds its id. */
  ghost predicate Routed(adss: map<string, map<string, Claim>>, nodes: seq<Node>) {
    forall rid, tag | rid in adss && tag in adss[rid] && adss[rid][tag].active ::
      Holds(nodes, adss[rid][tag].node, adss[rid][tag].accId)
  }

  /** No rank has used a tag for two claims. */
  ghost predicate OncePerTag(adss: map<string, map<string, Claim>>, made: map<string, Made>) {
    forall a | a in made ::
      made[a].rid in adss && made[a].tag in adss[made[a].rid] && adss[made[a].rid][made[a].tag].accId == a
  }

  ghost predicate SentPending(pending: seq<Entry>, sent: map<string, Sent>) {
    forall k | k in sent && !sent[k].stage.Done? ::
      Find(pending, k) == Some(Entry(k, SendPending, sent[k].tag, sent[k].rid))
  }

  /** A send that has gone through a node is on record there, under the key it
      went on with. */
  ghost predicate StageOk(nodes: seq<Node>, made: map<string, Made>, sent: map<string, Sent>, k: string)
    requires k in sent
  {
    match sent[k].stage
    case AtNode(_) => true
    case AtVa(n, q) => sent[k].accId in made && Forwarded(nodes, n, q, k)
    case FromVa(n, q) => sent[k].accId in made && Forwarded(nodes, n, q, k)
    case Back(_) => sent[k].accId in made
    case Done => sent[k].accId in made
  }

  predicate Forwarded(nodes: seq<Node>, n: nat, q: string, k: string) {
    n < |nodes| && Find(nodes[n].pending, q) == Some(Entry(q, NexusSend, k, nodes[n].addr))
  }

  ghost predicate StagesOk(nodes: seq<Node>, made: map<string, Made>, sent: map<string, Sent>) {
    forall k | k in sent :: StageOk(nodes, made, sent, k)
  }

  /** What the virtualization agent makes of a send. */
  function ResultOf(compute: Compute, made: map<string, Made>, x: Sent): seq<Text>
    requires x.accId in made
  {
    compute(made[x.accId].resource, x.data)
  }

  ghost predicate NexSendOk(m: NexSend, sent: map<string, Sent>) {
    m.key in sent && sent[m.key].stage == AtNode(m.node) && m.accId == sent[m.key].accId && m.data == sent[m.key].data
  }

  ghost predicate VaRequestOk(m: VaRequest, nodes: seq<Node>, made: map<string, Made>, sent: map<string, Sent>) {
    exists k :: k in sent && sent[k].stage == AtVa(m.node, m.key) && sent[k].accId in made
      && m.resource == made[sent[k].accId].resource && m.data == sent[k].data
  }

  ghost predicate VaReplyOk(compute: Compute, m: VaReply, made: map<string, Made>, sent: map<string, Sent>) {
    exists k :: k in sent && sent[k].stage == FromVa(m.node, m.key) && sent[k].accId in made
      && m.result == ResultOf(compute, made, sent[k])
  }

  ghost predicate BackOk(compute: Compute, m: DataBack, nodes: seq<Node>, made: map<string, Made>,
      sent: map<string, Sent>) {
    && m.key in sent && sent[m.key].stage == Back(m.node) && sent[m.key].accId in made
    && m.node < |nodes| && m.addr == nodes[m.node].addr
    && m.result == ResultOf(compute, made, sent[m.key])
  }

  ghost predicate MessagesOk(compute: Compute, nodes: seq<Node>, made: map<string, Made>, sent: map<string, Sent>,
      nexSends: set<NexSend>, vaRequests: set<VaRequest>, vaReplies: set<VaReply>, backs: set<DataBack>)
  {
    && (forall m | m in nexSends :: NexSendOk(m, sent))
    && (forall m | m in vaRequests :: VaRequestOk(m, nodes, made, sent))
    && (forall m | m in vaReplies :: VaReplyOk(compute, m, made, sent))
    && (forall m | m in backs :: BackOk(compute, m, nodes, made, sent))
  }

  ghost predicate RepliesOk(compute: Compute, made: map<string, Made>, sent: map<string, Sent>,
      answered: seq<string>, data: seq<Frame>) {
    && |data| == |answered|
    && (forall i | 0 <= i < |answered| :: ReplyOk(compute, made, sent, answered[i], data[i]))
    && (forall i, j | 0 <= i < j < |answered| :: answered[i] != answered[j])
  }

  /** A data frame carries its sender's address and tag and the result computed
      for that send. */
  ghost predicate ReplyOk(compute: Compute, made: map<string, Made>, sent: map<string, Sent>, key: string, f: Frame) {
    && key in sent && sent[key].stage.Done? && sent[key].accId in made
    && f == Data(sent[key].rid, sent[key].tag, ResultOf(compute, made, sent[key]))
  }

  ghost predicate Inv(compute: Compute, s: State) {
    && KeysOk(s.used, s.made, s.sent, s.bridge.pending)
    && NodesOk(s.nodes, s.used, s.made)
    && ClaimMsgsOk(s.bridge.pending, s.nodes, s.made, s.claimReqs, s.claimResps)
    && AdssOk(s.bridge.adss, s.made, s.nodes)
    && SentPending(s.bridge.pending, s.sent)
    && StagesOk(s.nodes, s.made, s.sent)
    && MessagesOk(compute, s.nodes, s.made, s.sent, s.nexSends, s.vaRequests, s.vaReplies, s.backs)
    && RepliesOk(compute, s.made, s.sent, s.answered, DataFrames(s.frames))
  }

  // ---- more ids made, more keys used ----

  ghost predicate Grown(made: map<string, Made>, more: map<string, Made>) {
    made.Keys <= more.Keys && forall a | a in made :: more[a] == made[a]
  }

  lemma NodesGrow(nodes: seq<Node>, used: set<string>, used2: set<string>, made: map<string, Made>,
      more: map<string, Made>)
    requires NodesOk(nodes, used, made) && used <= used2 && Grown(made, more)
    ensures NodesOk(nodes, used2, more)
  {
    hide Find;
    forall i | 0 <= i < |nodes|
      ensures NodeOk(nodes[i], used2, more)
    {
      assert NodeOk(nodes[i], used, made);
    }
  }

  lemma StagesGrow(nodes: seq<Node>, made: map<string, Made>, more: map<string, Made>, sent: map<string, Sent>)
    requires StagesOk(nodes, made, sent) && Grown(made, more)
    ensures StagesOk(nodes, more, sent)
  {
    hide Forwarded;
    forall k | k in sent
      ensures StageOk(nodes, more, sent, k)
    {
      assert StageOk(nodes, made, sent, k);
    }
  }

  lemma MessagesGrow(compute: Compute, nodes: seq<Node>, made: map<string, Made>, more: map<string, Made>,
      sent: map<string, Sent>,
      nexSends: set<NexSend>, vaRequests: set<VaRequest>, vaReplies: set<VaReply>, backs: set<DataBack>)
    requires MessagesOk(compute, nodes, made, sent, nexSends, vaRequests, vaReplies, backs) && Grown(made, more)
    ensures MessagesOk(compute, nodes, more, sent, nexSends, vaRequests, vaReplies, backs)
  {
    forall m | m in vaRequests
      ensures VaRequestOk(m, nodes, more, sent)
    {
      assert VaRequestOk(m, nodes, made, sent);
    }
    forall m | m in vaReplies
      ensures VaReplyOk(compute, m, more, sent)
    {
      assert VaReplyOk(compute, m, made, sent);
    }
    forall m | m in backs
      ensures BackOk(compute, m, nodes, more, sent)
    {
      assert BackOk(compute, m, nodes, made, sent);
    }
  }

  lemma RepliesGrow(compute: Compute, made: map<string, Made>, more: map<string, Made>, sent: map<string, Sent>,
      answered: seq<string>, data: seq<Frame>)
    requires RepliesOk(compute, made, sent, answered, data) && Grown(made, more)
    ensures RepliesOk(compute, more, sent, answered, data)
  {
    forall i | 0 <= i < |answered|
      ensures ReplyOk(compute, more, sent, answered[i], data[i])
    {
      assert ReplyOk(compute, made, sent, answered[i], data[i]);
    }
  }

  lemma AddedUnder(pending: seq<Entry>, used: set<string>, e: Entry)
    requires NothingUnder(pending, used) && e.key !in used && e.key != ""
    ensures NothingUnder(pending + [e], used + {e.key})
    ensures Find(pending + [e], e.key) == Some(e)
    ensures forall k | k in used :: Find(pending + [e], k) == Find(pending, k)
  {
    hide Find;
    forall k
      ensures k != e.key ==> Find(pending + [e], k) == Find(pending, k)
    {
      AddedFind(pending, e, k);
    }
    AddedFind(pending, e, e.key);
  }

  lemma SentStillPending(pending: seq<Entry>, pending2: seq<Entry>, sent: map<string, Sent>)
    requires SentPending(pending, sent) && forall k | k in sent :: Find(pending2, k) == Find(pending, k)
    ensures SentPending(pending2, sent)
  {
    hide Find;
  }

  lemma ClaimsStillPending(pending: seq<Entry>, pending2: seq<Entry>, nodes: seq<Node>, made: map<string, Made>,
      more: map<string, Made>,
      reqs: set<ClaimReq>, resps: set<ClaimResp>)
    requires ClaimMsgsOk(pending, nodes, made, reqs, resps) && Grown(made, more)
    requires forall k | k in made :: Find(pending2, k) == Find(pending, k)
    ensures ClaimMsgsOk(pending2, nodes, more, reqs, resps)
  {
    hide Find, Holds;
  }

  // ---- claims ----

  lemma ClaimKeeps(compute: Compute, s: State, rid: string, tag: string, resource: string, accId: string,
      recommended: Option<nat>)
    requires Inv(compute, s) && Fresh(s, accId) && (recommended.Some? ==> recommended.value < |s.nodes|)
    ensures Inv(compute, DoClaim(s, rid, tag, resource, accId, recommended))
  {
    hide Find, NodesOk, ClaimMsgsOk, AdssOk, SentPending, StagesOk, MessagesOk, RepliesOk, DataFrames, NothingUnder,
        AddClaim;
    var t := DoClaim(s, rid, tag, resource, accId, recommended);
    AddedUnder(s.bridge.pending, s.used, Entry(accId, ClaimPending, tag, rid));
    assert Grown(s.made, t.made);
    NodesGrow(s.nodes, s.used, t.used, s.made, t.made);
    StagesGrow(s.nodes, s.made, t.made, s.sent);
    MessagesGrow(compute, s.nodes, s.made, t.made, s.sent, s.nexSends, s.vaRequests, s.vaReplies, s.backs);
    RepliesGrow(compute, s.made, t.made, s.sent, s.answered, DataFrames(s.frames));
    SentStillPending(s.bridge.pending, t.bridge.pending, s.sent);
    ClaimsStillPending(s.bridge.pending, t.bridge.pending, s.nodes, s.made, t.made, s.claimReqs, s.claimResps);
    RespsAreMade(s.bridge.pending, s.nodes, s.made, s.claimReqs, s.claimResps);
    if recommended.Some? {
      NewClaimReq(t.bridge.pending, s.nodes, t.made, s.claimReqs, s.claimResps,
          ClaimReq(recommended.value, accId, resource), s.made);
    }
    NewClaimAdss(s.bridge.adss, s.made, s.nodes, rid, tag, resource, accId, recommended);
  }

  lemma NewClaimReq(pending: seq<Entry>, nodes: seq<Node>, made: map<string, Made>, reqs: set<ClaimReq>,
      resps: set<ClaimResp>,
      m: ClaimReq, before: map<string, Made>)
    requires ClaimMsgsOk(pending, nodes, made, reqs, resps)
    requires m.accId in made && made[m.accId].resource == m.resource && made[m.accId].node == Some(m.node)
        && m.node < |nodes|
    requires ClaimPendingFor(pending, made, m.accId)
    requires m.accId !in before && forall r | r in resps :: r.accId in before
    ensures ClaimMsgsOk(pending, nodes, made, reqs + {m}, resps)
  {
    hide Find, Holds;
  }

  lemma NewClaimAdss(adss: map<string, map<string, Claim>>, made: map<string, Made>, nodes: seq<Node>,
      rid: string, tag: string, resource: string, accId: string, node: Option<nat>)
    requires AdssOk(adss, made, nodes) && accId !in made
    ensures AdssOk(AddClaim(adss, rid, tag, accId), made[accId := Made(rid, tag, resource, node)], nodes)
  {
  }

  lemma RespsAreMade(pending: seq<Entry>, nodes: seq<Node>, made: map<string, Made>, reqs: set<ClaimReq>,
      resps: set<ClaimResp>)
    requires ClaimMsgsOk(pending, nodes, made, reqs, resps)
    ensures forall r | r in resps :: r.accId in made
  {
  }

  /** The nodes' addresses and pending messages are unchanged. */
  ghost predicate SamePending(nodes: seq<Node>, nodes2: seq<Node>) {
    |nodes| == |nodes2|
    && forall i | 0 <= i < |nodes| :: nodes2[i].addr == nodes[i].addr && nodes2[i].pending == nodes[i].pending
  }

  lemma SamePendingKeeps(compute: Compute, nodes: seq<Node>, nodes2: seq<Node>, made: map<string, Made>,
      sent: map<string, Sent>,
      nexSends: set<NexSend>, vaRequests: set<VaRequest>, vaReplies: set<VaReply>, backs: set<DataBack>)
    requires SamePending(nodes, nodes2) && StagesOk(nodes, made, sent)
    requires MessagesOk(compute, nodes, made, sent, nexSends, vaRequests, vaReplies, backs)
    ensures StagesOk(nodes2, made, sent)
    ensures MessagesOk(compute, nodes2, made, sent, nexSends, vaRequests, vaReplies, backs)
  {
    hide Find;
    forall k | k in sent
      ensures StageOk(nodes2, made, sent, k)
    {
      assert StageOk(nodes, made, sent, k);
    }
    forall m | m in vaRequests
      ensures VaRequestOk(m, nodes2, made, sent)
    {
      assert VaRequestOk(m, nodes, made, sent);
    }
    forall m | m in backs
      ensures BackOk(compute, m, nodes2, made, sent)
    {
      assert BackOk(compute, m, nodes, made, sent);
    }
  }

  lemma NodeClaimNodes(nodes: seq<Node>, used: set<string>, made: map<string, Made>, m: ClaimReq)
    requires NodesOk(nodes, used, made) && m.node < |nodes| && m.accId in made && made[m.accId].resource == m.resource
    ensures var nodes2 := nodes[m.node := OnNodeClaim(nodes[m.node], m.accId, m.resource)];
      NodesOk(nodes2, used, made) && SamePending(nodes, nodes2) && Holds(nodes2, m.node, m.accId)
          && MoreHeld(nodes, nodes2)
  {
    hide Find, NothingUnder;
    var n := nodes[m.node];
    assert NodeOk(n, used, made);
    var k := n.addr + m.accId;
    assert k[..|n.addr|] == n.addr && k[|n.addr|..] == m.accId;
  }

  ghost predicate MoreHeld(nodes: seq<Node>, nodes2: seq<Node>) {
    |nodes| == |nodes2| && forall i: nat, a :: Holds(nodes, i, a) ==> Holds(nodes2, i, a)
  }

  lemma NodeClaimMsgs(pending: seq<Entry>, nodes: seq<Node>, nodes2: seq<Node>, made: map<string, Made>,
      reqs: set<ClaimReq>, resps: set<ClaimResp>, m: ClaimReq)
    requires ClaimMsgsOk(pending, nodes, made, reqs, resps) && m in reqs
    requires MoreHeld(nodes, nodes2) && Holds(nodes2, m.node, m.accId)
    ensures ClaimMsgsOk(pending, nodes2, made, reqs - {m}, resps + {ClaimResp(m.node, m.accId, true)})
  {
    hide Find, Holds;
  }

  lemma NodeClaimKeeps(compute: Compute, s: State, m: ClaimReq)
    requires Inv(compute, s) && m in s.claimReqs && m.node < |s.nodes|
    ensures Inv(compute, DoNodeClaim(s, m)) && MoreHeld(s.nodes, DoNodeClaim(s, m).nodes)
  {
    hide Find, NodesOk, AdssOk, SentPending, StagesOk, MessagesOk, RepliesOk, DataFrames, KeysOk, MoreHeld,
        SamePending, Holds, OnNodeClaim;
    var t := DoNodeClaim(s, m);
    NodeClaimNodes(s.nodes, s.used, s.made, m);
    SamePendingKeeps(compute, s.nodes, t.nodes, s.made, s.sent, s.nexSends, s.vaRequests, s.vaReplies, s.backs);
    NodeClaimMsgs(s.bridge.pending, s.nodes, t.nodes, s.made, s.claimReqs, s.claimResps, m);
    SameCountAdss(s.bridge.adss, s.made, s.nodes, t.nodes);
  }

  lemma SameCountAdss(adss: map<string, map<string, Claim>>, made: map<string, Made>, nodes: seq<Node>,
      nodes2: seq<Node>)
    requires AdssOk(adss, made, nodes) && |nodes| == |nodes2|
    ensures AdssOk(adss, made, nodes2)
  {
  }

  lemma RemovedUnder(pending: seq<Entry>, used: set<string>, id: string)
    requires NothingUnder(pending, used) && id in used && "" !in used
    ensures NothingUnder(Removed(pending, id), used)
    ensures forall k | k in used && k != id :: Find(Removed(pending, id), k) == Find(pending, k)
  {
    hide Find, Removed;
    forall k | k != id && k != ""
      ensures Find(Removed(pending, id), k) == Find(pending, k)
    {
      RemovedFind(pending, id, k);
    }
  }

  lemma ClaimRespMsgs(pending: seq<Entry>, pending2: seq<Entry>, nodes: seq<Node>, made: map<string, Made>,
      reqs: set<ClaimReq>, resps: set<ClaimResp>, m: ClaimResp)
    requires ClaimMsgsOk(pending, nodes, made, reqs, resps) && m in resps
    requires forall k | k in made && k != m.accId :: Find(pending2, k) == Find(pending, k)
    ensures ClaimMsgsOk(pending2, nodes, made, reqs, resps - {m})
  {
    hide Find, Holds;
    forall q | q in reqs
      ensures q.accId != m.accId
    {
      assert made[q.accId].node == Some(q.node);
    }
    forall r | r in resps && r != m
      ensures r.accId != m.accId
    {
      assert made[r.accId].node == Some(r.node);
    }
  }

  lemma ClaimRespAdss(adss: map<string, map<string, Claim>>, made: map<string, Made>, nodes: seq<Node>, rid: string,
      tag: string, node: nat)
    requires AdssOk(adss, made, nodes) && rid in adss && node < |nodes|
    ensures var claims := adss[rid];
      var claims2 := if tag in claims then claims[tag := claims[tag].(active := true, node := node)] else claims;
      AdssOk(adss[rid := claims2], made, nodes)
  {
  }

  lemma SentKeptApart(pending: seq<Entry>, pending2: seq<Entry>, used: set<string>, sent: map<string, Sent>, id: string)
    requires SentPending(pending, sent) && sent.Keys <= used && id !in sent
    requires forall k | k in used && k != id :: Find(pending2, k) == Find(pending, k)
    ensures SentPending(pending2, sent)
  {
    hide Find;
  }

  lemma OneClaimResp(pending: seq<Entry>, nodes: seq<Node>, made: map<string, Made>, reqs: set<ClaimReq>,
      resps: set<ClaimResp>, m: ClaimResp)
    requires ClaimMsgsOk(pending, nodes, made, reqs, resps) && m in resps
    ensures m.accId in made && made[m.accId].node == Some(m.node) && m.activate
        && ClaimPendingFor(pending, made, m.accId)
    ensures Holds(nodes, m.node, m.accId) && m.node < |nodes|
  {
  }

  lemma RidKnown(adss: map<string, map<string, Claim>>, made: map<string, Made>, nodes: seq<Node>, a: string)
    requires AdssOk(adss, made, nodes) && a in made
    ensures made[a].rid in adss
  {
  }

  lemma NoMoreData(frames: seq<Frame>, f: Frame)
    requires !f.Data?
    ensures DataFrames(frames + [f]) == DataFrames(frames)
  {
    assert (frames + [f])[..|frames|] == frames;
  }

  lemma ClaimRespKeeps(compute: Compute, s: State, m: ClaimResp)
    requires Inv(compute, s) && m in s.claimResps
    ensures Inv(compute, DoClaimResp(s, m)) && DoClaimResp(s, m).thrown == s.thrown
  {
    hide Find, NodesOk, ClaimMsgsOk, AdssOk, SentPending, StagesOk, MessagesOk, RepliesOk, DataFrames, NothingUnder,
        Removed, Holds;
    OneClaimResp(s.bridge.pending, s.nodes, s.made, s.claimReqs, s.claimResps, m);
    RidKnown(s.bridge.adss, s.made, s.nodes, m.accId);
    var t := DoClaimResp(s, m);
    RemovedUnder(s.bridge.pending, s.used, m.accId);
    ClaimRespMsgs(s.bridge.pending, t.bridge.pending, s.nodes, s.made, s.claimReqs, s.claimResps, m);
    ClaimRespAdss(s.bridge.adss, s.made, s.nodes, s.made[m.accId].rid, s.made[m.accId].tag, m.node);
    SentKeptApart(s.bridge.pending, t.bridge.pending, s.used, s.sent, m.accId);
    NoMoreData(s.frames, Granted(s.made[m.accId].rid, s.made[m.accId].tag, m.activate));
  }
}
