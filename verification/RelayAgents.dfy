/** The two kinds of agent as objects: each handler, written as the original
    does it, takes the step of the relay. */
module RelayAgents {
  import opened Bytes
  import opened PendingMessages
  import opened Relay

  /** accel_service: the bridge's handlers for claims and data. */
  class BridgeAgent {
    const pmr: Registry
    var adss: map<string, map<string, Claim>>

    function Abstract(): Bridge
      reads this, pmr
    {
      Bridge(pmr.msgs, adss)
    }

    constructor ()
      ensures fresh(pmr) && Abstract() == Bridge([], map[])
    {
      pmr := new Registry();
      adss := map[];
    }

    method AccelClaim(rid: string, tag: string, accId: string)
      modifies this, pmr
      ensures Abstract() == OnClaim(old(Abstract()), rid, tag, accId)
    {
      pmr.AddPendingMessage(Entry(accId, ClaimPending, tag, rid));
      FindCreateAdss(rid, tag, accId);
    }

    /** find_create_adss with create: a new rank starts with its first claim. */
    method FindCreateAdss(rid: string, tag: string, accId: string)
      modifies this`adss
      ensures adss == AddClaim(old(adss), rid, tag, accId)
    {
      if rid !in adss {
        adss := adss[rid := map[tag := Claim(false, accId, 0)]];
      } else {
        var claims := adss[rid];
        if tag !in claims {
          adss := adss[rid := claims[tag := Claim(false, accId, 0)]];
        }
      }
    }

    /** None where the original throws: the rank is unknown. */
    method AccelClaimResp(m: ClaimResp) returns (frame: Option<Frame>)
      modifies this, pmr
      ensures var r := OnClaimResp(old(Abstract()), m);
        && (frame.None? <==> r.None?)
        && (r.Some? ==> Abstract() == r.value.0 && frame == Some(r.value.1))
      ensures var e := Find(old(pmr.msgs), m.accId);
        e.Some? && e.value.rid in old(adss) ==> frame == Some(Granted(e.value.rid, e.value.lib, m.activate))
    {
      hide Removed, Find;
      var lib, rid := pmr.GetIds(m.accId);
      if rid !in adss {
        return None;
      }
      var claims := adss[rid];
      if lib in claims {
        claims := claims[lib := claims[lib].(active := m.activate, node := m.node)];
      }
      adss := adss[rid := claims];
      pmr.RemoveMessage(m.accId);
      frame := Some(Granted(rid, lib, m.activate));
    }

    method AccelSend(rid: string, tag: string, claimId: string, data: seq<Text>,
        key: string) returns (message: Option<NexSend>)
      modifies this, pmr
      ensures var r := OnSend(old(Abstract()), rid, tag, claimId, data, key);
        && (message.None? <==> r.None?)
        && (r.Some? ==> Abstract() == r.value.0 && message == Some(r.value.1))
      ensures rid in adss ==> message == Some(
        if claimId in adss[rid] then NexSend(adss[rid][claimId].node, key, adss[rid][claimId].accId, data)
        else NexSend(0, key, "", data))
    {
      if rid !in adss {
        return None;
      }
      var accId, node := "", 0;
      if claimId in adss[rid] {
        accId, node := adss[rid][claimId].accId, adss[rid][claimId].node;
      }
      pmr.AddPendingMessage(Entry(key, SendPending, tag, rid));
      message := Some(NexSend(node, key, accId, data));
    }

    method AccelRecv(m: DataBack) returns (frame: Frame)
      modifies this, pmr
      ensures Abstract() == OnData(old(Abstract()), m).0 && frame == OnData(old(Abstract()), m).1
      ensures var e := Find(old(pmr.msgs), m.key);
        frame == if e.Some? then Data(e.value.rid, e.value.lib, m.result) else Data("", "", m.result)
    {
      hide Removed, Find;
      var lib, rid := pmr.GetIds(m.key);
      frame := Data(rid, lib, m.result);
      pmr.RemoveMessage(m.key);
    }
  }

  /** resmgr_frontend: an accelerator agent's handlers for one bridge. */
  class AcceleratorAgent {
    const addr: string
    const index: nat
    const pmr: Registry
    var claims: map<string, string>

    function Abstract(): Node
      reads this, pmr
    {
      Node(addr, claims, pmr.msgs)
    }

    constructor (index: nat, addr: string)
      ensures fresh(pmr) && Abstract() == Node(addr, map[], []) && this.index == index
    {
      this.index, this.addr := index, addr;
      pmr := new Registry();
      claims := map[];
    }

    method ResClaim(accId: string, resource: string) returns (reply: ClaimResp)
      modifies this
      ensures Abstract() == OnNodeClaim(old(Abstract()), accId, resource) && reply == ClaimResp(index, accId, true)
    {
      var claimKey := addr + accId;
      if claimKey !in claims {
        claims := claims[claimKey := resource];
      }
      reply := ClaimResp(index, accId, true);
    }

    method ResNexSendData(m: NexSend, key: string) returns (request: Option<VaRequest>)
      requires m.node == index
      modifies this, pmr
      ensures var r := OnNodeSend(old(Abstract()), m, key);
        && (request.None? <==> r.None?)
        && (r.Some? ==> Abstract() == r.value.0 && request == Some(r.value.1))
      ensures var k := addr + m.accId;
        request == if k in claims then Some(VaRequest(index, key, claims[k], m.data)) else None
    {
      var resourceKey := addr + m.accId;
      if resourceKey !in claims {
        return None;
      }
      pmr.AddPendingMessage(Entry(key, NexusSend, m.key, addr));
      request := Some(VaRequest(index, key, claims[resourceKey], m.data));
    }

    method ResNexRecvData(m: VaReply) returns (back: Option<DataBack>)
      requires m.node == index
      ensures back == OnNodeRecv(Abstract(), m)
      ensures var e := Find(pmr.msgs, m.key);
        back == if e.Some? then Some(DataBack(index, e.value.lib, e.value.rid, m.result)) else None
    {
      for i := 0 to |pmr.msgs|
        invariant Find(pmr.msgs, m.key) == Find(pmr.msgs[i..], m.key)
      {
        assert pmr.msgs[i..][1..] == pmr.msgs[i + 1..];
        if pmr.msgs[i].key == m.key {
          return Some(DataBack(index, pmr.msgs[i].lib, pmr.msgs[i].rid, m.result));
        }
      }
      return None;
    }
  }

  /** _recommend_node: a table of the nodes that support the request, of which
      the one with the fewest outstanding messages is taken. */
  method RecommendNode(supported: seq<bool>, outstanding: seq<nat>) returns (node: Option<nat>)
    requires |supported| == |outstanding|
    ensures node.None? <==> forall i | 0 <= i < |supported| :: !supported[i]
    ensures node.Some? ==> node.value < |supported| && supported[node.value]
    ensures node.Some? ==>
      (forall i | 0 <= i < |supported| && supported[i] :: outstanding[node.value] <= outstanding[i])
  {
    var table: seq<nat> := [];
    for i := 0 to |supported|
      invariant forall j | 0 <= j < |table| :: table[j] < i && supported[table[j]]
      invariant forall k | 0 <= k < i && supported[k] :: k in table
    {
      if supported[i] {
        table := table + [i];
      }
    }
    if table == [] {
      return None;
    }
    var best := 0;
    for j := 1 to |table|
      invariant best < |table| && forall k | 0 <= k < j :: outstanding[table[best]] <= outstanding[table[k]]
    {
      if outstanding[table[j]] < outstanding[table[best]] {
        best := j;
      }
    }
    node := Some(table[best]);
  }
}
