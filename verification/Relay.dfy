/** The two-hop relay between the bridge agent and the accelerator agents. The
    bridge replaces a client's key by a fresh one and sends the request to an
    accelerator agent, which replaces it by another fresh one towards its
    virtualization agent; on the way back each translates the key again. Claims
    decide where a send goes. Any number of ranks, claims, sends and agents;
    messages arrive in any order. */
module Relay {
  import opened Bytes
  import opened PendingMessages

  // ---- messages ----

  datatype ClaimReq = ClaimReq(node: nat, accId: string, resource: string)
  datatype ClaimResp = ClaimResp(node: nat, accId: string, activate: bool)
  datatype NexSend = NexSend(node: nat, key: string, accId: string, data: seq<Text>)
  datatype VaRequest = VaRequest(node: nat, key: string, resource: string, data: seq<Text>)
  datatype VaReply = VaReply(node: nat, key: string, result: seq<Text>)
  datatype DataBack = DataBack(node: nat, key: string, addr: string, result: seq<Text>)

  /** What a client gets: the answer to a claim, or data. */
  datatype Frame =
    | Granted(rid: string, lib: string, activate: bool)
    | Data(rid: string, lib: string, result: seq<Text>)

  // ---- the bridge agent ----

  datatype Claim = Claim(active: bool, accId: string, node: nat)

  datatype Bridge = Bridge(pending: seq<Entry>, adss: map<string, map<string, Claim>>)

  /** find_create_adss and add_claim: an existing claim is not replaced. */
  function AddClaim(adss: map<string, map<string, Claim>>, rid: string, tag: string, accId: string)
      : map<string, map<string, Claim>> {
    if rid !in adss then adss[rid := map[tag := Claim(false, accId, 0)]]
    else if tag in adss[rid] then adss
    else adss[rid := adss[rid][tag := Claim(false, accId, 0)]]
  }

  /** _accel_claim_, up to the request to the recommended node. */
  function OnClaim(b: Bridge, rid: string, tag: string, accId: string): Bridge {
    Bridge(b.pending + [Entry(accId, ClaimPending, tag, rid)], AddClaim(b.adss, rid, tag, accId))
  }

  function Ids(b: Bridge, key: string): (string, string) {
    var e := Find(b.pending, key);
    if e.Some? then (e.value.lib, e.value.rid) else ("", "")
  }

  /** _accel_claim_resp_; None where the original throws. */
  function OnClaimResp(b: Bridge, m: ClaimResp): Option<(Bridge, Frame)> {
    var (lib, rid) := Ids(b, m.accId);
    if rid !in b.adss then None
    else
      var claims := b.adss[rid];
      var updated := if lib in claims then claims[lib := claims[lib].(active := m.activate, node := m.node)]
          else claims;
      Some((Bridge(Removed(b.pending, m.accId), b.adss[rid := updated]), Granted(rid, lib, m.activate)))
  }

  /** _accel_send_: the message for the claim's node under a fresh key; an
      unknown claim gives an empty id and node 0. */
  function OnSend(b: Bridge, rid: string, tag: string, claimId: string, data: seq<Text>, key: string)
      : Option<(Bridge, NexSend)> {
    if rid !in b.adss then None
    else
      var claim := if claimId in b.adss[rid] then b.adss[rid][claimId] else Claim(false, "", 0);
      Some((b.(pending := b.pending + [Entry(key, SendPending, tag, rid)]),
          NexSend(claim.node, key, claim.accId, data)))
  }

  /** _accel_recv_. */
  function OnData(b: Bridge, m: DataBack): (Bridge, Frame) {
    var (lib, rid) := Ids(b, m.key);
    (b.(pending := Removed(b.pending, m.key)), Data(rid, lib, m.result))
  }

  // ---- an accelerator agent ----

  /** addr is the address at which it knows the bridge. */
  datatype Node = Node(addr: string, claims: map<string, string>, pending: seq<Entry>)

  /** _res_claim_. */
  function OnNodeClaim(n: Node, accId: string, resource: string): Node {
    if n.addr + accId in n.claims then n else n.(claims := n.claims[n.addr + accId := resource])
  }

  /** _res_nxsnddata_; None where the original throws. */
  function OnNodeSend(n: Node, m: NexSend, key: string): Option<(Node, VaRequest)> {
    if n.addr + m.accId !in n.claims then None
    else
      Some((n.(pending := n.pending + [Entry(key, NexusSend, m.key, n.addr)]),
            VaRequest(m.node, key, n.claims[n.addr + m.accId], m.data)))
  }

  /** _res_nxrecvdata_; the entry stays. */
  function OnNodeRecv(n: Node, m: VaReply): Option<DataBack> {
    var e := Find(n.pending, m.key);
    if e.None? then None else Some(DataBack(m.node, e.value.lib, e.value.rid, m.result))
  }

  // ---- the whole system ----

  /** Who asked for an accelerator id, under what tag, for which resource, and
      the node that was recommended. */
  datatype Made = Made(rid: string, tag: string, resource: string, node: Option<nat>)

  /** How far a send has come; keys are those of the message in flight. */
  datatype Stage =
    | AtNode(node: nat)
    | AtVa(node: nat, key: string)
    | FromVa(node: nat, key: string)
    | Back(node: nat)
    | Done

  /** A send of rank rid under its own tag, on its claim claimId, and the
      accelerator id it was sent on with. */
  datatype Sent = Sent(rid: string, tag: string, claimId: string, accId: string, data: seq<Text>, stage: Stage)

  /** made, sent and answered only record what has happened. */
  datatype State = State(
    bridge: Bridge, nodes: seq<Node>, used: set<string>,
    claimReqs: set<ClaimReq>, claimResps: set<ClaimResp>,
    nexSends: set<NexSend>, vaRequests: set<VaRequest>, vaReplies: set<VaReply>, backs: set<DataBack>,
    frames: seq<Frame>, thrown: bool,
    made: map<string, Made>, sent: map<string, Sent>, answered: seq<string>)

  datatype Action =
    | ClientClaim(rid: string, tag: string, resource: string, accId: string, recommended: Option<nat>)
    | ClientSend(rid: string, tag: string, claimId: string, data: seq<Text>, key: string)
    | NodeClaim(req: ClaimReq)
    | BridgeClaimResp(resp: ClaimResp)
    | NodeSend(send: NexSend, key: string)
    | VaRun(request: VaRequest)
    | NodeRecv(reply: VaReply)
    | BridgeRecv(back: DataBack)

  /** What the virtualization agents compute. */
  type Compute = (string, seq<Text>) -> seq<Text>

  function Initial(addrs: seq<string>): State {
    State(Bridge([], map[]), seq(|addrs|, i requires 0 <= i < |addrs| => Node(addrs[i], map[], [])), {},
      {}, {}, {}, {}, {}, {}, [], false, map[], map[], [])
  }

  /** generate_random_str gives a key that was not given before. */
  predicate Fresh(s: State, key: string) {
    key != "" && key !in s.used
  }

  predicate Enabled(s: State, a: Action) {
    !s.thrown
    && match a
       case ClientClaim(_, _, _, accId, recommended) => Fresh(s, accId)
           && (recommended.Some? ==> recommended.value < |s.nodes|)
       case ClientSend(_, _, _, _, key) => Fresh(s, key)
       case NodeClaim(m) => m in s.claimReqs && m.node < |s.nodes|
       case BridgeClaimResp(m) => m in s.claimResps
       case NodeSend(m, key) => m in s.nexSends && m.node < |s.nodes| && Fresh(s, key)
       case VaRun(m) => m in s.vaRequests
       case NodeRecv(m) => m in s.vaReplies && m.node < |s.nodes|
       case BridgeRecv(m) => m in s.backs && m.node < |s.nodes| && m.addr == s.nodes[m.node].addr
  }

  function Throw(s: State): State {
    s.(thrown := true)
  }

  function DoClaim(s: State, rid: string, tag: string, resource: string, accId: string,
      recommended: Option<nat>): State {
    s.(bridge := OnClaim(s.bridge, rid, tag, accId),
       used := s.used + {accId},
       claimReqs := if recommended.Some? then s.claimReqs + {ClaimReq(recommended.value, accId, resource)}
           else s.claimReqs,
       made := s.made[accId := Made(rid, tag, resource, recommended)])
  }

  function DoNodeClaim(s: State, m: ClaimReq): State
    requires m.node < |s.nodes|
  {
    s.(nodes := s.nodes[m.node := OnNodeClaim(s.nodes[m.node], m.accId, m.resource)],
       claimReqs := s.claimReqs - {m},
       claimResps := s.claimResps + {ClaimResp(m.node, m.accId, true)})
  }

  function DoClaimResp(s: State, m: ClaimResp): State {
    var r := OnClaimResp(s.bridge, m);
    if r.None? then Throw(s)
    else s.(bridge := r.value.0, claimResps := s.claimResps - {m}, frames := s.frames + [r.value.1])
  }

  /** send_data throws when there is no such node. */
  function DoSend(s: State, rid: string, tag: string, claimId: string, data: seq<Text>, key: string): State {
    var r := OnSend(s.bridge, rid, tag, claimId, data, key);
    if r.None? || r.value.1.node >= |s.nodes| then Throw(s)
    else
      var m := r.value.1;
      s.(bridge := r.value.0, used := s.used + {key}, nexSends := s.nexSends + {m},
         sent := s.sent[key := Sent(rid, tag, claimId, m.accId, data, AtNode(m.node))])
  }

  function MoveOn(s: State, key: string, stage: Stage): State {
    if key in s.sent then s.(sent := s.sent[key := s.sent[key].(stage := stage)]) else s
  }

  function DoNodeSend(s: State, m: NexSend, key: string): State
    requires m.node < |s.nodes|
  {
    var r := OnNodeSend(s.nodes[m.node], m, key);
    if r.None? then Throw(s)
    else MoveOn(s.(nodes := s.nodes[m.node := r.value.0], used := s.used + {key},
                   nexSends := s.nexSends - {m}, vaRequests := s.vaRequests + {r.value.1}), m.key, AtVa(m.node, key))
  }

  /** A virtualization agent answers under the key it was asked with. */
  function DoVaRun(compute: Compute, s: State, m: VaRequest): State {
    s.(vaRequests := s.vaRequests - {m},
       vaReplies := s.vaReplies + {VaReply(m.node, m.key, compute(m.resource, m.data))},
       sent := map k | k in s.sent ::
         if s.sent[k].stage == AtVa(m.node, m.key) then s.sent[k].(stage := FromVa(m.node, m.key)) else s.sent[k])
  }

  function DoNodeRecv(s: State, m: VaReply): State
    requires m.node < |s.nodes|
  {
    var r := OnNodeRecv(s.nodes[m.node], m);
    if r.None? then Throw(s)
    else MoveOn(s.(vaReplies := s.vaReplies - {m}, backs := s.backs + {r.value}), r.value.key, Back(m.node))
  }

  function DoBridgeRecv(s: State, m: DataBack): State {
    var (b, frame) := OnData(s.bridge, m);
    MoveOn(s.(bridge := b, backs := s.backs - {m}, frames := s.frames + [frame], answered := s.answered + [m.key]),
        m.key, Done)
  }

  function Step(compute: Compute, s: State, a: Action): State {
    if !Enabled(s, a) then s
    else match a
      case ClientClaim(rid, tag, resource, accId, recommended) => DoClaim(s, rid, tag, resource, accId, recommended)
      case ClientSend(rid, tag, claimId, data, key) => DoSend(s, rid, tag, claimId, data, key)
      case NodeClaim(m) => DoNodeClaim(s, m)
      case BridgeClaimResp(m) => DoClaimResp(s, m)
      case NodeSend(m, key) => DoNodeSend(s, m, key)
      case VaRun(m) => DoVaRun(compute, s, m)
      case NodeRecv(m) => DoNodeRecv(s, m)
      case BridgeRecv(m) => DoBridgeRecv(s, m)
  }

  function Run(compute: Compute, addrs: seq<string>, acts: seq<Action>): State {
    if acts == [] then Initial(addrs)
    else Step(compute, Run(compute, addrs, acts[..|acts| - 1]), acts[|acts| - 1])
  }

  /** The data frames among the frames sent to clients. */
  function DataFrames(frames: seq<Frame>): seq<Frame> {
    if frames == [] then []
    else
      var front := DataFrames(frames[..|frames| - 1]);
      if frames[|frames| - 1].Data? then front + [frames[|frames| - 1]] else front
  }
}
