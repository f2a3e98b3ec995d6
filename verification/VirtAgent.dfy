/** The virtualization agent's services as objects: every handler, written as
    the original does it, takes the step of the state machine in Pipeline. A
    handler returns false where the original throws. */
module VirtAgent {
  import opened Bytes
  import opened TxStore
  import opened Pipeline

  class Agent {
    const env: Env
    const store: PacketStore
    var crh: Header              // collage's header for the request in hand
    var req0: seq<Tid>
    var req1: seq<Tid>
    var ingress: seq<Ticket>
    var egress: seq<Outcome>
    var resp1: seq<Tid>
    var resp0: seq<Tid>
    var sent: seq<(Source, Reply)>

    ghost predicate Valid()
      reads this, store
    {
      store.Valid()
    }

    function Abstract(): State
      reads this, store
    {
      State(store.holders, store.runningId, req0, req1, ingress, egress, resp1, resp0, sent, false)
    }

    constructor (env: Env)
      ensures Valid() && fresh(store) && this.env == env && Abstract() == Initial()
    {
      this.env := env;
      store := new PacketStore();
      crh := Header(RegResource, Router, "");
      req0, req1, ingress, egress, resp1, resp0, sent := [], [], [], [], [], [], [];
    }

    // ---- collage ----

    method SubmitRequest(req: Request)
      requires Valid()
      modifies this, store
      ensures Valid() && Abstract() == DoSubmit(old(Abstract()), req)
    {
      crh := Header(ActionOf(req.body), req.source, req.key);
      var t := store.OptGenerate(SysReq, None);
      var entry := store.holders[t].(header := Some(crh));
      match req.body {
        case Register =>
        case Identify(append, dirs) => entry := entry.(data := Some(Dirs(append, dirs)));
        case Send(resource, args) => entry := entry.(data := Some(SendArgs(resource, args)));
      }
      store.Update(t, entry);
      req0 := req0 + [t];
    }

    /** process_q_resp: pop a response, answer it, let its chain go. */
    method ProcessResponse() returns (ok: bool)
      requires Valid()
      modifies this, store
      ensures !ok ==> DoDrain(old(Abstract())).fault
      ensures ok ==> Valid() && Abstract() == DoDrain(old(Abstract()))
    {
      hide Removed, Popped, ArgCount;
      if resp0 == [] {
        return true;
      }
      var t := resp0[0];
      if t !in store.holders || store.holders[t].header.None? || store.holders[t].kind != SysResp {
        return false;
      }
      resp0 := resp0[1..];
      var header := store.holders[t].header.value;
      var data := BaseData(store.holders, t);
      if data.None? {
        return false;
      }
      var reply;
      match header.action {
        case SendData =>
          if !data.value.RecvArgs? {
            return false;
          }
          var nargs, blocks := RecvBlocks(data.value.outs);
          PoppedAre(data.value.outs, blocks);
          reply := NexRecv(header.key, nargs, blocks);
        case RegResource =>
          if !data.value.Misc? || data.value.lines == [] {
            return false;
          }
          reply := HwReg(header.key, data.value.lines[0], data.value.lines[1..]);
        case IdentResource =>
          if !data.value.Misc? {
            return false;
          }
          reply := HwUpdate(data.value.lines);
      }
      sent := sent + [(header.source, reply)];
      store.TryRemove(t);
      ok := true;
    }

    // ---- system service ----

    method SystemRequestStep() returns (ok: bool)
      requires Valid()
      modifies this, store
      ensures !ok ==> DoSystemRequest(old(Abstract())).fault
      ensures ok ==> Valid() && Abstract() == DoSystemRequest(old(Abstract()))
    {
      hide Removed;
      if req0 == [] {
        return true;
      }
      var t := req0[0];
      if t !in store.holders || store.holders[t].header.None? {
        return false;
      }
      req0 := req0[1..];
      var action := store.holders[t].header.value.action;
      var d := store.OptGenerate(DevReq, Some(t));
      ghost var linked := store.holders;
      if action != RegResource {
        store.Update(d, store.holders[d].(deferred := true));
      }
      assert store.holders == linked[d := linked[d].(deferred := action != RegResource)];
      req1 := req1 + [d];
      store.TryRemove(t);
      ok := true;
    }

    method SystemResponseStep() returns (ok: bool)
      requires Valid()
      modifies this, store
      ensures !ok ==> DoSystemResponse(env, old(Abstract())).fault
      ensures ok ==> Valid() && Abstract() == DoSystemResponse(env, old(Abstract()))
    {
      hide Removed, Clines;
      if resp1 == [] {
        return true;
      }
      var t := resp1[0];
      if t !in store.holders || store.holders[t].header.None? {
        return false;
      }
      resp1 := resp1[1..];
      var r := store.OptGenerate(SysResp, Some(t));
      if store.holders[t].header.value.action == IdentResource {
        if store.holders[t].kind != DevResp || store.holders[t].devData.None? {
          return false;
        }
        var lines := KernelLines(store.holders[t].devData.value);
        ClinesAre(env, store.holders[t].devData.value, lines);
        store.Update(r, store.holders[r].(data := Some(Misc(lines))));
      } else {
        store.Update(r, store.holders[r].(deferred := true));
      }
      resp0 := resp0 + [r];
      store.TryRemove(t);
      ok := true;
    }

    /** One line for every function of every kernel file. */
    method KernelLines(ids: seq<KernelId>) returns (lines: seq<string>)
      ensures |lines| == |ids| && forall i | 0 <= i < |ids| :: lines[i] == env.cline(ids[i])
    {
      lines := [];
      for i := 0 to |ids|
        invariant |lines| == i && forall j | 0 <= j < i :: lines[j] == env.cline(ids[j])
      {
        lines := lines + [env.cline(ids[i])];
      }
    }

    // ---- device service ----

    method DeviceRequestStep() returns (ok: bool)
      requires Valid()
      modifies this, store
      ensures !ok ==> DoDeviceRequest(env, old(Abstract())).fault
      ensures ok ==> Valid() && Abstract() == DoDeviceRequest(env, old(Abstract()))
    {
      hide Removed;
      if req1 == [] {
        return true;
      }
      var t := req1[0];
      if t !in store.holders || store.holders[t].header.None? {
        return false;
      }
      req1 := req1[1..];
      var r := store.OptGenerate(DevResp, Some(t));
      var data := BaseData(store.holders, t);
      match store.holders[t].header.value.action {
        case SendData =>
          if data.None? || !data.value.SendArgs? {
            return false;
          }
          ingress := ingress + [Ticket(r, Holder(store.holders, t).value)];
        case RegResource =>
          var lines := [env.extAddr] + env.manifest;
          store.Update(r, store.holders[r].(data := Some(Misc(lines))));
          resp1 := resp1 + [r];
        case IdentResource =>
          if data.None? || !data.value.Dirs? {
            return false;
          }
          store.Update(r, store.holders[r].(devData := Some(env.scan(data.value.dirs))));
          resp1 := resp1 + [r];
      }
      store.TryRemove(t);
      ok := true;
    }

    /** A worker of the device manager finishes some submitted request. */
    method RunOne(index: nat) returns (ok: bool)
      requires Valid()
      modifies this
      ensures !ok ==> DoRunKernel(env, old(Abstract()), index).fault
      ensures ok ==> Valid() && Abstract() == DoRunKernel(env, old(Abstract()), index)
    {
      if index >= |ingress| {
        return true;
      }
      var ticket := ingress[index];
      if ticket.source !in store.holders || store.holders[ticket.source].data.None?
         || !store.holders[ticket.source].data.value.SendArgs? {
        return false;
      }
      var payload := store.holders[ticket.source].data.value;
      ingress := ingress[..index] + ingress[index + 1..];
      egress := egress + [Outcome(ticket.resp, env.kernel(payload.resource, payload.args))];
      ok := true;
    }

    method ProcessRpc() returns (ok: bool)
      requires Valid()
      modifies this, store
      ensures !ok ==> DoReadResult(old(Abstract())).fault
      ensures ok ==> Valid() && Abstract() == DoReadResult(old(Abstract()))
    {
      if egress == [] {
        return true;
      }
      var o := egress[0];
      if o.resp !in store.holders || store.holders[o.resp].kind != DevResp {
        return false;
      }
      egress := egress[1..];
      store.Update(o.resp, store.holders[o.resp].(data := Some(RecvArgs(o.outs))));
      resp1 := resp1 + [o.resp];
      ok := true;
    }
  }

  lemma PoppedAre(outs: seq<Text>, blocks: seq<Text>)
    requires |blocks| == |outs| % 0x1_0000 && forall i | 0 <= i < |blocks| :: blocks[i] == outs[|blocks| - 1 - i]
    ensures blocks == Popped(outs) && |blocks| == ArgCount(outs)
  {
  }

  lemma ClinesAre(env: Env, ids: seq<KernelId>, lines: seq<string>)
    requires |lines| == |ids| && forall i | 0 <= i < |ids| :: lines[i] == env.cline(ids[i])
    ensures lines == Clines(env, ids)
  {
  }

  /** _col_send_resp's loop over pop_output: the arguments come out last first. */
  method RecvBlocks(outs: seq<Text>) returns (nargs: nat, blocks: seq<Text>)
    ensures nargs == |blocks| == |outs| % 0x1_0000
    ensures |outs| < 0x1_0000 ==> |blocks| == |outs|
    ensures forall i | 0 <= i < |blocks| :: blocks[i] == outs[|blocks| - 1 - i]
  {
    nargs := |outs| % 0x1_0000;
    var argIndex := nargs;
    blocks := [];
    for i := 0 to nargs
      invariant argIndex == nargs - i && |blocks| == i
      invariant forall j | 0 <= j < i :: blocks[j] == outs[nargs - 1 - j]
    {
      argIndex := argIndex - 1;
      blocks := blocks + [outs[argIndex]];
    }
  }
}
