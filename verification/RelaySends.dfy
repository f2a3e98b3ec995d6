/** The relay's handlers for data keep the invariant. */
module RelaySends {
  import opened Bytes
  import opened PendingMessages
  import opened Relay
  import opened RelayProof

  lemma UnderMore(pending: seq<Entry>, used: set<string>, used2: set<string>)
    requires NothingUnder(pending, used) && used <= used2
    ensures NothingUnder(pending, used2)
  {
    hide Find;
  }

  // ---- a client's send reaches the bridge ----

  lemma NewSend(compute: Compute, nodes: seq<Node>, made: map<string, Made>, sent: map<string, Sent>, key: string,
      x: Sent,
      nexSends: set<NexSend>, vaRequests: set<VaRequest>, vaReplies: set<VaReply>, backs: set<DataBack>, m: NexSend)
    requires StagesOk(nodes, made, sent)
        && MessagesOk(compute, nodes, made, sent, nexSends, vaRequests, vaReplies, backs)
    requires key !in sent && x.stage == AtNode(m.node) && m.key == key && m.accId == x.accId && m.data == x.data
    ensures StagesOk(nodes, made, sent[key := x])
    ensures MessagesOk(compute, nodes, made, sent[key := x], nexSends + {m}, vaRequests, vaReplies, backs)
  {
    hide Forwarded;
    var sent2 := sent[key := x];
    forall k | k in sent2
      ensures StageOk(nodes, made, sent2, k)
    {
      if k != key {
        assert StageOk(nodes, made, sent, k);
      }
    }
    forall q | q in nexSends
      ensures NexSendOk(q, sent2)
    {
      assert NexSendOk(q, sent);
    }
    forall q | q in vaRequests
      ensures VaRequestOk(q, nodes, made, sent2)
    {
      assert VaRequestOk(q, nodes, made, sent);
      var k :| k in sent && sent[k].stage == AtVa(q.node, q.key) && sent[k].accId in made
        && q.resource == made[sent[k].accId].resource && q.data == sent[k].data;
      assert sent2[k] == sent[k];
    }
    forall q | q in vaReplies
      ensures VaReplyOk(compute, q, made, sent2)
    {
      assert VaReplyOk(compute, q, made, sent);
      var k :| k in sent && sent[k].stage == FromVa(q.node, q.key) && sent[k].accId in made
        && q.result == ResultOf(compute, made, sent[k]);
      assert sent2[k] == sent[k];
    }
    forall q | q in backs
      ensures BackOk(compute, q, nodes, made, sent2)
    {
      assert BackOk(compute, q, nodes, made, sent);
    }
  }

  lemma RepliesStay(compute: Compute, made: map<string, Made>, sent: map<string, Sent>, sent2: map<string, Sent>,
      key: string,
      answered: seq<string>, data: seq<Frame>)
    requires RepliesOk(compute, made, sent, answered, data)
    requires key in sent ==> !sent[key].stage.Done?
    requires forall k | k in sent && k != key :: k in sent2 && sent2[k] == sent[k]
    ensures RepliesOk(compute, made, sent2, answered, data)
  {
    forall i | 0 <= i < |answered|
      ensures ReplyOk(compute, made, sent2, answered[i], data[i])
    {
      assert ReplyOk(compute, made, sent, answered[i], data[i]);
    }
  }

  lemma NewSentPending(pending: seq<Entry>, pending2: seq<Entry>, sent: map<string, Sent>, used: set<string>,
      key: string, x: Sent)
    requires SentPending(pending, sent) && sent.Keys <= used && key !in used
    requires forall k | k in used :: Find(pending2, k) == Find(pending, k)
    requires Find(pending2, key) == Some(Entry(key, SendPending, x.tag, x.rid))
    ensures SentPending(pending2, sent[key := x])
  {
    hide Find;
  }

  lemma SendKeeps(compute: Compute, s: State, rid: string, tag: string, claimId: string, data: seq<Text>, key: string)
    requires Inv(compute, s) && Fresh(s, key)
    ensures Inv(compute, DoSend(s, rid, tag, claimId, data, key))
  {
    hide Find, NodesOk, ClaimMsgsOk, AdssOk, SentPending, StagesOk, MessagesOk, RepliesOk, DataFrames, NothingUnder;
    var t := DoSend(s, rid, tag, claimId, data, key);
    var r := OnSend(s.bridge, rid, tag, claimId, data, key);
    if r.Some? && r.value.1.node < |s.nodes| {
      var m := r.value.1;
      var x := Sent(rid, tag, claimId, m.accId, data, AtNode(m.node));
      AddedUnder(s.bridge.pending, s.used, Entry(key, SendPending, tag, rid));
      assert Grown(s.made, s.made);
      NodesGrow(s.nodes, s.used, t.used, s.made, s.made);
      ClaimsStillPending(s.bridge.pending, t.bridge.pending, s.nodes, s.made, s.made, s.claimReqs, s.claimResps);
      NewSentPending(s.bridge.pending, t.bridge.pending, s.sent, s.used, key, x);
      NewSend(compute, s.nodes, s.made, s.sent, key, x, s.nexSends, s.vaRequests, s.vaReplies, s.backs, m);
      RepliesStay(compute, s.made, s.sent, t.sent, key, s.answered, DataFrames(s.frames));
    }
  }

  // ---- one send moves on ----

  /** Send k0 moves to another stage: messages of other sends stay right. */
  lemma OtherMessages(compute: Compute, nodes: seq<Node>, nodes2: seq<Node>, made: map<string, Made>,
      sent: map<string, Sent>,
      k0: string, stage: Stage,
      nexSends: set<NexSend>, vaRequests: set<VaRequest>, vaReplies: set<VaReply>, backs: set<DataBack>)
    requires k0 in sent && |nodes| == |nodes2| && forall i | 0 <= i < |nodes| :: nodes2[i].addr == nodes[i].addr
    requires MessagesOk(compute, nodes, made, sent, nexSends, vaRequests, vaReplies, backs)
    requires forall m | m in nexSends :: m.key != k0
    requires forall m | m in vaRequests :: AtVa(m.node, m.key) != sent[k0].stage
    requires forall m | m in vaReplies :: FromVa(m.node, m.key) != sent[k0].stage
    requires forall m | m in backs :: m.key != k0
    ensures MessagesOk(compute, nodes2, made, sent[k0 := sent[k0].(stage := stage)], nexSends, vaRequests, vaReplies,
        backs)
  {
    var sent2 := sent[k0 := sent[k0].(stage := stage)];
    forall q | q in nexSends
      ensures NexSendOk(q, sent2)
    {
      assert NexSendOk(q, sent);
    }
    forall q | q in vaRequests
      ensures VaRequestOk(q, nodes2, made, sent2)
    {
      assert VaRequestOk(q, nodes, made, sent);
      var k :| k in sent && sent[k].stage == AtVa(q.node, q.key) && sent[k].accId in made
        && q.resource == made[sent[k].accId].resource && q.data == sent[k].data;
      assert sent2[k] == sent[k];
    }
    forall q | q in vaReplies
      ensures VaReplyOk(compute, q, made, sent2)
    {
      assert VaReplyOk(compute, q, made, sent);
      var k :| k in sent && sent[k].stage == FromVa(q.node, q.key) && sent[k].accId in made
        && q.result == ResultOf(compute, made, sent[k]);
      assert sent2[k] == sent[k];
    }
    forall q | q in backs
      ensures BackOk(compute, q, nodes2, made, sent2)
    {
      assert BackOk(compute, q, nodes, made, sent);
    }
  }

  lemma FewerMessages(compute: Compute, nodes: seq<Node>, made: map<string, Made>, sent: map<string, Sent>,
      nexSends: set<NexSend>, vaRequests: set<VaRequest>, vaReplies: set<VaReply>, backs: set<DataBack>,
      nexSends2: set<NexSend>, vaRequests2: set<VaRequest>, vaReplies2: set<VaReply>, backs2: set<DataBack>)
    requires MessagesOk(compute, nodes, made, sent, nexSends, vaRequests, vaReplies, backs)
    requires nexSends2 <= nexSends && vaRequests2 <= vaRequests && vaReplies2 <= vaReplies && backs2 <= backs
    ensures MessagesOk(compute, nodes, made, sent, nexSends2, vaRequests2, vaReplies2, backs2)
  {
    hide NexSendOk, VaRequestOk, VaReplyOk, BackOk;
  }

  lemma MovedPending(pending: seq<Entry>, sent: map<string, Sent>, k0: string, stage: Stage)
    requires SentPending(pending, sent) && k0 in sent && !sent[k0].stage.Done?
    ensures SentPending(pending, sent[k0 := sent[k0].(stage := stage)])
  {
    hide Find;
  }

  /** Where the messages of a send can be: only at its stage. */
  lemma NexSendIs(compute: Compute, s: State, m: NexSend)
    requires Inv(compute, s) && m in s.nexSends
    ensures NexSendOk(m, s.sent)
    ensures forall q | q in s.nexSends && q != m :: q.key != m.key
    ensures forall q | q in s.backs :: q.key != m.key
  {
    hide KeysOk, NodesOk, ClaimMsgsOk, AdssOk, SentPending, StagesOk, RepliesOk, DataFrames;
    forall q | q in s.nexSends && q != m
      ensures q.key != m.key
    {
      assert NexSendOk(q, s.sent) && NexSendOk(m, s.sent);
    }
    forall q | q in s.backs
      ensures q.key != m.key
    {
      assert BackOk(compute, q, s.nodes, s.made, s.sent) && NexSendOk(m, s.sent);
    }
  }

  // ---- an accelerator agent passes a send on ----

  lemma ForwardNodes(nodes: seq<Node>, used: set<string>, made: map<string, Made>, sent: map<string, Sent>,
      m: NexSend, key: string)
    requires NodesOk(nodes, used, made) && StagesOk(nodes, made, sent) && m.node < |nodes| && key !in used && key != ""
    requires m.key in sent && m.accId == sent[m.key].accId
    requires OnNodeSend(nodes[m.node], m, key).Some?
    ensures var (n, q) := OnNodeSend(nodes[m.node], m, key).value;
      && NodesOk(nodes[m.node := n], used + {key}, made)
      && StagesOk(nodes[m.node := n], made, sent[m.key := sent[m.key].(stage := AtVa(m.node, key))])
      && m.accId in made && q == VaRequest(m.node, key, made[m.accId].resource, m.data)
      && n.addr == nodes[m.node].addr
  {
    hide Find, NothingUnder;
    var n0 := nodes[m.node];
    var (n, q) := OnNodeSend(n0, m, key).value;
    assert NodeOk(n0, used, made);
    var ck := n0.addr + m.accId;
    assert ck[..|n0.addr|] == n0.addr && ck[|n0.addr|..] == m.accId;
    AddedUnder(n0.pending, used, Entry(key, NexusSend, m.key, n0.addr));
    var nodes2 := nodes[m.node := n];
    forall i | 0 <= i < |nodes2|
      ensures NodeOk(nodes2[i], used + {key}, made)
    {
      assert NodeOk(nodes[i], used, made);
      if i != m.node {
        UnderMore(nodes[i].pending, used, used + {key});
      }
    }
    NoneUnder(n0.pending, used, key);
    ForwardStages(nodes, made, sent, m, key, n);
  }

  lemma NoneUnder(pending: seq<Entry>, used: set<string>, key: string)
    requires NothingUnder(pending, used) && key !in used && key != ""
    ensures Find(pending, key).None?
  {
  }

  lemma ForwardStages(nodes: seq<Node>, made: map<string, Made>, sent: map<string, Sent>, m: NexSend, key: string,
      n: Node)
    requires StagesOk(nodes, made, sent) && m.node < |nodes| && m.key in sent && sent[m.key].accId in made
    requires Find(nodes[m.node].pending, key).None?
    requires n.addr == nodes[m.node].addr && n.pending == nodes[m.node].pending + [Entry(key, NexusSend, m.key, n.addr)]
    ensures StagesOk(nodes[m.node := n], made, sent[m.key := sent[m.key].(stage := AtVa(m.node, key))])
  {
    hide Find;
    var sent2 := sent[m.key := sent[m.key].(stage := AtVa(m.node, key))];
    var nodes2 := nodes[m.node := n];
    forall q
      ensures q != key ==> Find(n.pending, q) == Find(nodes[m.node].pending, q)
      ensures Find(n.pending, key) == Some(Entry(key, NexusSend, m.key, n.addr))
    {
      AddedFind(nodes[m.node].pending, Entry(key, NexusSend, m.key, n.addr), q);
    }
    forall k | k in sent2
      ensures StageOk(nodes2, made, sent2, k)
    {
      assert StageOk(nodes, made, sent, k);
    }
  }

  lemma NodeSendKeeps(compute: Compute, s: State, m: NexSend, key: string)
    requires Inv(compute, s) && m in s.nexSends && m.node < |s.nodes| && Fresh(s, key)
    ensures Inv(compute, DoNodeSend(s, m, key))
  {
    hide Find, NodesOk, ClaimMsgsOk, AdssOk, SentPending, StagesOk, MessagesOk, RepliesOk, DataFrames, NothingUnder,
        OnNodeSend;
    NexSendIs(compute, s, m);
    var r := OnNodeSend(s.nodes[m.node], m, key);
    if r.Some? {
      var t := DoNodeSend(s, m, key);
      var k0 := m.key;
      ForwardNodes(s.nodes, s.used, s.made, s.sent, m, key);
      UnderMore(s.bridge.pending, s.used, t.used);
      MovedPending(s.bridge.pending, s.sent, k0, AtVa(m.node, key));
      FewerMessages(compute, s.nodes, s.made, s.sent, s.nexSends, s.vaRequests, s.vaReplies, s.backs,
        s.nexSends - {m}, s.vaRequests, s.vaReplies, s.backs);
      OtherMessages(compute, s.nodes, t.nodes, s.made, s.sent, k0, AtVa(m.node, key), s.nexSends - {m}, s.vaRequests,
          s.vaReplies, s.backs);
      NewVaRequest(compute, t.nodes, s.made, t.sent, s.nexSends - {m}, s.vaRequests, s.vaReplies, s.backs, k0,
          r.value.1);
      RepliesStay(compute, s.made, s.sent, t.sent, k0, s.answered, DataFrames(s.frames));
      SameHolds(s.bridge.pending, s.nodes, t.nodes, s.made, s.claimReqs, s.claimResps, m, key);
      SameCountAdss(s.bridge.adss, s.made, s.nodes, t.nodes);
    }
  }

  lemma NewVaRequest(compute: Compute, nodes: seq<Node>, made: map<string, Made>, sent: map<string, Sent>,
      nexSends: set<NexSend>, vaRequests: set<VaRequest>, vaReplies: set<VaReply>, backs: set<DataBack>, k: string,
          q: VaRequest)
    requires MessagesOk(compute, nodes, made, sent, nexSends, vaRequests, vaReplies, backs)
    requires k in sent && sent[k].stage == AtVa(q.node, q.key) && sent[k].accId in made
    requires q.resource == made[sent[k].accId].resource && q.data == sent[k].data
    ensures MessagesOk(compute, nodes, made, sent, nexSends, vaRequests + {q}, vaReplies, backs)
  {
    hide NexSendOk, VaReplyOk, BackOk;
    assert VaRequestOk(q, nodes, made, sent);
  }

  lemma SameHolds(pending: seq<Entry>, nodes: seq<Node>, nodes2: seq<Node>, made: map<string, Made>,
      reqs: set<ClaimReq>, resps: set<ClaimResp>, m: NexSend, key: string)
    requires ClaimMsgsOk(pending, nodes, made, reqs, resps) && m.node < |nodes|
    requires OnNodeSend(nodes[m.node], m, key).Some?
        && nodes2 == nodes[m.node := OnNodeSend(nodes[m.node], m, key).value.0]
    ensures ClaimMsgsOk(pending, nodes2, made, reqs, resps) && MoreHeld(nodes, nodes2) && MoreHeld(nodes2, nodes)
  {
    hide Find;
    assert forall i: nat, a :: Holds(nodes2, i, a) <==> Holds(nodes, i, a);
  }

  // ---- a virtualization agent answers ----

  /** The one send that is at a virtualization agent under this key. */
  lemma TheSendAt(compute: Compute, s: State, node: nat, q: string, k: string)
    requires Inv(compute, s) && k in s.sent && (s.sent[k].stage == AtVa(node, q) || s.sent[k].stage == FromVa(node, q))
    ensures s.sent[k].accId in s.made && Forwarded(s.nodes, node, q, k)
    ensures forall j | j in s.sent && (s.sent[j].stage == AtVa(node, q) || s.sent[j].stage == FromVa(node, q)) :: j == k
  {
    hide KeysOk, NodesOk, ClaimMsgsOk, AdssOk, SentPending, MessagesOk, RepliesOk, DataFrames, Find;
    assert StageOk(s.nodes, s.made, s.sent, k);
    forall j | j in s.sent && (s.sent[j].stage == AtVa(node, q) || s.sent[j].stage == FromVa(node, q))
      ensures j == k
    {
      assert StageOk(s.nodes, s.made, s.sent, j);
    }
  }

  lemma VaRequestIs(compute: Compute, s: State, m: VaRequest) returns (k: string)
    requires Inv(compute, s) && m in s.vaRequests
    ensures k in s.sent && s.sent[k].stage == AtVa(m.node, m.key) && s.sent[k].accId in s.made
    ensures m.resource == s.made[s.sent[k].accId].resource && m.data == s.sent[k].data
    ensures forall q | q in s.vaRequests && q != m :: AtVa(q.node, q.key) != s.sent[k].stage
    ensures forall q | q in s.nexSends :: q.key != k
    ensures forall q | q in s.backs :: q.key != k
  {
    hide KeysOk, NodesOk, ClaimMsgsOk, AdssOk, SentPending, StagesOk, RepliesOk, DataFrames;
    assert VaRequestOk(m, s.nodes, s.made, s.sent);
    k :| k in s.sent && s.sent[k].stage == AtVa(m.node, m.key) && s.sent[k].accId in s.made
      && m.resource == s.made[s.sent[k].accId].resource && m.data == s.sent[k].data;
    forall q | q in s.vaRequests && q != m
      ensures AtVa(q.node, q.key) != s.sent[k].stage
    {
      assert VaRequestOk(q, s.nodes, s.made, s.sent);
      var j :| j in s.sent && s.sent[j].stage == AtVa(q.node, q.key) && s.sent[j].accId in s.made
        && q.resource == s.made[s.sent[j].accId].resource && q.data == s.sent[j].data;
      if AtVa(q.node, q.key) == s.sent[k].stage {
        TheSendAt(compute, s, m.node, m.key, k);
      }
    }
    forall q | q in s.nexSends
      ensures q.key != k
    {
      assert NexSendOk(q, s.sent);
    }
    forall q | q in s.backs
      ensures q.key != k
    {
      assert BackOk(compute, q, s.nodes, s.made, s.sent);
    }
  }

  lemma MovedStages(nodes: seq<Node>, made: map<string, Made>, sent: map<string, Sent>, k0: string, stage: Stage)
    requires StagesOk(nodes, made, sent) && k0 in sent && sent[k0].accId in made
    requires match stage
             case AtNode(_) => true
             case AtVa(n, q) => Forwarded(nodes, n, q, k0)
             case FromVa(n, q) => Forwarded(nodes, n, q, k0)
             case Back(_) => true
             case Done => true
    ensures StagesOk(nodes, made, sent[k0 := sent[k0].(stage := stage)])
  {
    hide Forwarded;
    var sent2 := sent[k0 := sent[k0].(stage := stage)];
    forall k | k in sent2
      ensures StageOk(nodes, made, sent2, k)
    {
      assert StageOk(nodes, made, sent, k);
    }
  }

  lemma NewVaReply(compute: Compute, nodes: seq<Node>, made: map<string, Made>, sent: map<string, Sent>,
      nexSends: set<NexSend>, vaRequests: set<VaRequest>, vaReplies: set<VaReply>, backs: set<DataBack>, k: string,
          q: VaReply)
    requires MessagesOk(compute, nodes, made, sent, nexSends, vaRequests, vaReplies, backs)
    requires k in sent && sent[k].stage == FromVa(q.node, q.key) && sent[k].accId in made
    requires q.result == ResultOf(compute, made, sent[k])
    ensures MessagesOk(compute, nodes, made, sent, nexSends, vaRequests, vaReplies + {q}, backs)
  {
    hide NexSendOk, VaRequestOk, BackOk;
    assert VaReplyOk(compute, q, made, sent);
  }

  lemma VaRunKeeps(compute: Compute, s: State, m: VaRequest)
    requires Inv(compute, s) && m in s.vaRequests
    ensures Inv(compute, DoVaRun(compute, s, m))
  {
    hide Find, NodesOk, ClaimMsgsOk, AdssOk, SentPending, StagesOk, MessagesOk, RepliesOk, DataFrames, KeysOk;
    var t := DoVaRun(compute, s, m);
    var k := VaRequestIs(compute, s, m);
    TheSendAt(compute, s, m.node, m.key, k);
    var stage := FromVa(m.node, m.key);
    assert t.sent == s.sent[k := s.sent[k].(stage := stage)];
    SameKeys(s.used, s.made, s.sent, t.sent, s.bridge.pending);
    MovedPending(s.bridge.pending, s.sent, k, stage);
    MovedStages(s.nodes, s.made, s.sent, k, stage);
    RepliesStay(compute, s.made, s.sent, t.sent, k, s.answered, DataFrames(s.frames));
    FewerMessages(compute, s.nodes, s.made, s.sent, s.nexSends, s.vaRequests, s.vaReplies, s.backs,
      s.nexSends, s.vaRequests - {m}, s.vaReplies, s.backs);
    OtherMessages(compute, s.nodes, s.nodes, s.made, s.sent, k, stage, s.nexSends, s.vaRequests - {m}, s.vaReplies,
        s.backs);
    NewVaReply(compute, s.nodes, s.made, t.sent, s.nexSends, s.vaRequests - {m}, s.vaReplies, s.backs, k,
      VaReply(m.node, m.key, compute(m.resource, m.data)));
  }

  lemma SameKeys(used: set<string>, made: map<string, Made>, sent: map<string, Sent>, sent2: map<string, Sent>,
      pending: seq<Entry>)
    requires KeysOk(used, made, sent, pending) && sent.Keys == sent2.Keys
    ensures KeysOk(used, made, sent2, pending)
  {
    hide NothingUnder;
  }

  // ---- the answer comes back to the accelerator agent ----

  lemma VaReplyIs(compute: Compute, s: State, m: VaReply) returns (k: string)
    requires Inv(compute, s) && m in s.vaReplies
    ensures k in s.sent && s.sent[k].stage == FromVa(m.node, m.key) && s.sent[k].accId in s.made
    ensures m.result == ResultOf(compute, s.made, s.sent[k])
    ensures forall q | q in s.vaReplies && q != m :: FromVa(q.node, q.key) != s.sent[k].stage
    ensures forall q | q in s.nexSends :: q.key != k
    ensures forall q | q in s.backs :: q.key != k
  {
    hide KeysOk, NodesOk, ClaimMsgsOk, AdssOk, SentPending, StagesOk, RepliesOk, DataFrames;
    assert VaReplyOk(compute, m, s.made, s.sent);
    k :| k in s.sent && s.sent[k].stage == FromVa(m.node, m.key) && s.sent[k].accId in s.made
      && m.result == ResultOf(compute, s.made, s.sent[k]);
    forall q | q in s.vaReplies && q != m
      ensures FromVa(q.node, q.key) != s.sent[k].stage
    {
      assert VaReplyOk(compute, q, s.made, s.sent);
      var j :| j in s.sent && s.sent[j].stage == FromVa(q.node, q.key) && s.sent[j].accId in s.made
        && q.result == ResultOf(compute, s.made, s.sent[j]);
      if FromVa(q.node, q.key) == s.sent[k].stage {
        TheSendAt(compute, s, m.node, m.key, k);
      }
    }
    forall q | q in s.nexSends
      ensures q.key != k
    {
      assert NexSendOk(q, s.sent);
    }
    forall q | q in s.backs
      ensures q.key != k
    {
      assert BackOk(compute, q, s.nodes, s.made, s.sent);
    }
  }

  lemma NewBack(compute: Compute, nodes: seq<Node>, made: map<string, Made>, sent: map<string, Sent>,
      nexSends: set<NexSend>, vaRequests: set<VaRequest>, vaReplies: set<VaReply>, backs: set<DataBack>, q: DataBack)
    requires MessagesOk(compute, nodes, made, sent, nexSends, vaRequests, vaReplies, backs)
        && BackOk(compute, q, nodes, made, sent)
    ensures MessagesOk(compute, nodes, made, sent, nexSends, vaRequests, vaReplies, backs + {q})
  {
    hide NexSendOk, VaRequestOk, VaReplyOk;
  }

  lemma NodeRecvKeeps(compute: Compute, s: State, m: VaReply)
    requires Inv(compute, s) && m in s.vaReplies && m.node < |s.nodes|
    ensures Inv(compute, DoNodeRecv(s, m)) && DoNodeRecv(s, m).thrown == s.thrown
  {
    hide Find, NodesOk, ClaimMsgsOk, AdssOk, SentPending, StagesOk, MessagesOk, RepliesOk, DataFrames, KeysOk;
    var k := VaReplyIs(compute, s, m);
    TheSendAt(compute, s, m.node, m.key, k);
    var t := DoNodeRecv(s, m);
    var stage := Back(m.node);
    assert t.sent == s.sent[k := s.sent[k].(stage := stage)];
    SameKeys(s.used, s.made, s.sent, t.sent, s.bridge.pending);
    MovedPending(s.bridge.pending, s.sent, k, stage);
    MovedStages(s.nodes, s.made, s.sent, k, stage);
    RepliesStay(compute, s.made, s.sent, t.sent, k, s.answered, DataFrames(s.frames));
    FewerMessages(compute, s.nodes, s.made, s.sent, s.nexSends, s.vaRequests, s.vaReplies, s.backs,
      s.nexSends, s.vaRequests, s.vaReplies - {m}, s.backs);
    OtherMessages(compute, s.nodes, s.nodes, s.made, s.sent, k, stage, s.nexSends, s.vaRequests, s.vaReplies - {m},
        s.backs);
    NewBack(compute, s.nodes, s.made, t.sent, s.nexSends, s.vaRequests, s.vaReplies - {m}, s.backs,
      DataBack(m.node, k, s.nodes[m.node].addr, m.result));
  }

  // ---- and to the bridge ----

  lemma BackIs(compute: Compute, s: State, m: DataBack)
    requires Inv(compute, s) && m in s.backs
    ensures BackOk(compute, m, s.nodes, s.made, s.sent)
    ensures Find(s.bridge.pending, m.key) == Some(Entry(m.key, SendPending, s.sent[m.key].tag, s.sent[m.key].rid))
    ensures forall q | q in s.backs && q != m :: q.key != m.key
    ensures forall q | q in s.nexSends :: q.key != m.key
    ensures m.key in s.used && m.key !in s.made && m.key !in s.answered
  {
    hide NodesOk, ClaimMsgsOk, AdssOk, StagesOk, DataFrames, Find;
    assert BackOk(compute, m, s.nodes, s.made, s.sent);
    forall q | q in s.backs && q != m
      ensures q.key != m.key
    {
      assert BackOk(compute, q, s.nodes, s.made, s.sent);
    }
    forall q | q in s.nexSends
      ensures q.key != m.key
    {
      assert NexSendOk(q, s.sent);
    }
    forall i | 0 <= i < |s.answered|
      ensures s.answered[i] != m.key
    {
      assert ReplyOk(compute, s.made, s.sent, s.answered[i], DataFrames(s.frames)[i]);
    }
  }

  lemma MoreData(frames: seq<Frame>, f: Frame)
    requires f.Data?
    ensures DataFrames(frames + [f]) == DataFrames(frames) + [f]
  {
    assert (frames + [f])[..|frames|] == frames;
  }

  lemma OneMoreReply(compute: Compute, made: map<string, Made>, sent: map<string, Sent>, key: string,
      answered: seq<string>, data: seq<Frame>, f: Frame)
    requires RepliesOk(compute, made, sent, answered, data) && key in sent && key !in answered
        && sent[key].accId in made
    requires f == Data(sent[key].rid, sent[key].tag, ResultOf(compute, made, sent[key]))
    ensures RepliesOk(compute, made, sent[key := sent[key].(stage := Done)], answered + [key], data + [f])
  {
    var sent2 := sent[key := sent[key].(stage := Done)];
    forall i | 0 <= i < |answered|
      ensures ReplyOk(compute, made, sent2, answered[i], data[i])
    {
      assert ReplyOk(compute, made, sent, answered[i], data[i]);
    }
  }

  lemma DonePending(pending: seq<Entry>, pending2: seq<Entry>, used: set<string>, sent: map<string, Sent>, key: string)
    requires SentPending(pending, sent) && sent.Keys <= used && key in sent
    requires forall k | k in used && k != key :: Find(pending2, k) == Find(pending, k)
    ensures SentPending(pending2, sent[key := sent[key].(stage := Done)])
  {
    hide Find;
  }

  lemma BridgeRecvKeeps(compute: Compute, s: State, m: DataBack)
    requires Inv(compute, s) && m in s.backs
    ensures Inv(compute, DoBridgeRecv(s, m)) && DoBridgeRecv(s, m).thrown == s.thrown
  {
    hide Find, NodesOk, ClaimMsgsOk, AdssOk, SentPending, StagesOk, MessagesOk, RepliesOk, DataFrames, NothingUnder,
        Removed;
    BackIs(compute, s, m);
    var t := DoBridgeRecv(s, m);
    var x := s.sent[m.key];
    var f := Data(x.rid, x.tag, m.result);
    RemovedUnder(s.bridge.pending, s.used, m.key);
    assert Grown(s.made, s.made);
    ClaimsStillPending(s.bridge.pending, t.bridge.pending, s.nodes, s.made, s.made, s.claimReqs, s.claimResps);
    DonePending(s.bridge.pending, t.bridge.pending, s.used, s.sent, m.key);
    MovedStages(s.nodes, s.made, s.sent, m.key, Done);
    MoreData(s.frames, f);
    OneMoreReply(compute, s.made, s.sent, m.key, s.answered, DataFrames(s.frames), f);
    FewerMessages(compute, s.nodes, s.made, s.sent, s.nexSends, s.vaRequests, s.vaReplies, s.backs,
      s.nexSends, s.vaRequests, s.vaReplies, s.backs - {m});
    OtherMessages(compute, s.nodes, s.nodes, s.made, s.sent, m.key, Done, s.nexSends, s.vaRequests, s.vaReplies,
        s.backs - {m});
  }
}
