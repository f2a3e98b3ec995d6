/** The virtualization agent as a state machine. Requests go collage -> system
    service -> device service -> device manager and back up; every hop is one
    handler on one transaction id, followed by try_remove on that id
    (basic_services.cc, system_services.cc, device_services.cc, collage.cc). */
module Pipeline {
  import opened Bytes
  import opened TxStore

  datatype Body =
    | Register
    | Identify(append: bool, dirs: seq<string>)
    | Send(resource: string, args: seq<Text>)

  datatype Request = Request(source: Source, key: string, body: Body)

  /** What the agent finds around it: kernels, the device manifest, the kernel
      files in a list of directories and the text describing a kernel. */
  datatype Env = Env(
    kernel: (string, seq<Text>) -> seq<Text>,
    manifest: seq<string>,
    extAddr: string,
    scan: seq<string> -> seq<KernelId>,
    cline: KernelId -> string)

  datatype Reply =
    | NexRecv(key: string, nargs: nat, blocks: seq<Text>)
    | HwReg(key: string, extAddr: string, caches: seq<string>)
    | HwUpdate(clines: seq<string>)

  /** An element of the device manager's ingress queue: the device response's
      id and a reference to the payload of the entry `source`. */
  datatype Ticket = Ticket(resp: Tid, source: Tid)

  /** An element of its egress queue. */
  datatype Outcome = Outcome(resp: Tid, outs: seq<Text>)

  datatype State = State(
    holders: Heap, next: Tid,
    req0: seq<Tid>, req1: seq<Tid>, ingress: seq<Ticket>, egress: seq<Outcome>, resp1: seq<Tid>, resp0: seq<Tid>,
    replies: seq<(Source, Reply)>,
    fault: bool)

  datatype Action =
    | Submit(req: Request)
    | SystemRequest
    | DeviceRequest
    | RunKernel(index: nat)
    | ReadResult
    | SystemResponse
    | DrainResponse

  function Initial(): State {
    State(map[], 1, [], [], [], [], [], [], [], false)
  }

  function ActionOf(body: Body): Method {
    match body
    case Register => RegResource
    case Identify(_, _) => IdentResource
    case Send(_, _) => SendData
  }

  function HeaderOf(req: Request): Header {
    Header(ActionOf(req.body), req.source, req.key)
  }

  function PayloadOf(body: Body): Option<Payload> {
    match body
    case Register => None
    case Identify(append, dirs) => Some(Dirs(append, dirs))
    case Send(resource, args) => Some(SendArgs(resource, args))
  }

  // ---- reading a payload ----

  /** The entry a payload is read from: a deferred entry's predecessor,
      otherwise the entry itself. */
  function Holder(h: Heap, t: Tid): Option<Tid> {
    if t !in h then None
    else if !h[t].deferred then Some(t)
    else if h[t].pred.Some? && h[t].pred.value in h then h[t].pred
    else None
  }

  /** _get_base_data; None where the original throws. */
  function BaseData(h: Heap, t: Tid): Option<Payload> {
    var p := Holder(h, t);
    if p.None? then None else h[p.value].data
  }

  /** get_entry for a wanted type; the original throws when the id is unknown
      or names an entry of another type. */
  predicate Has(h: Heap, t: Tid, kind: Kind) {
    t in h && h[t].kind == kind
  }

  predicate HasHeader(h: Heap, t: Tid) {
    t in h && h[t].header.Some?
  }

  /** get_size is a ushort, and pop_arg goes down from the last argument it
      counts. */
  function ArgCount(outs: seq<Text>): (n: nat)
    ensures n <= |outs|
  {
    |outs| % 0x1_0000
  }

  function Popped(outs: seq<Text>): seq<Text> {
    var n := ArgCount(outs);
    seq(n, i requires 0 <= i < n => outs[n - 1 - i])
  }

  // ---- the handlers ----

  function Faulty(s: State): State {
    s.(fault := true)
  }

  /** collage: a fresh system request with the message's header and payload. */
  function DoSubmit(s: State, req: Request): State {
    var t := s.next;
    var h := Generate(s.holders, t, SysReq, None);
    s.(holders := h[t := h[t].(header := Some(HeaderOf(req)), data := PayloadOf(req.body))],
       next := t + 1,
       req0 := s.req0 + [t])
  }

  /** system service, request side: a device request linked to the system
      request, deferring to it unless there is nothing to read. */
  function DoSystemRequest(s: State): State {
    if s.req0 == [] then s
    else
      var t := s.req0[0];
      if !HasHeader(s.holders, t) then Faulty(s)
      else
        var d := s.next;
        var h := Generate(s.holders, d, DevReq, Some(t));
        var g := h[d := h[d].(deferred := s.holders[t].header.value.action != RegResource)];
        s.(holders := Removed(g, t), next := d + 1, req0 := s.req0[1..], req1 := s.req1 + [d])
  }

  /** device service: a device response linked to the device request, then
      whatever the method asks for. */
  function DoDeviceRequest(env: Env, s: State): State {
    if s.req1 == [] then s
    else
      var t := s.req1[0];
      if !HasHeader(s.holders, t) then Faulty(s)
      else
        var r := s.next;
        var h := Generate(s.holders, r, DevResp, Some(t));
        var data := BaseData(h, t);
        var s1 := s.(next := r + 1, req1 := s.req1[1..]);
        match s.holders[t].header.value.action
        case SendData =>
          if data.Some? && data.value.SendArgs? then
            s1.(holders := Removed(h, t), ingress := s.ingress + [Ticket(r, Holder(h, t).value)])
          else Faulty(s)
        case RegResource =>
          var g := h[r := h[r].(data := Some(Misc([env.extAddr] + env.manifest)))];
          s1.(holders := Removed(g, t), resp1 := s.resp1 + [r])
        case IdentResource =>
          if data.Some? && data.value.Dirs? then
            var g := h[r := h[r].(devData := Some(env.scan(data.value.dirs)))];
            s1.(holders := Removed(g, t), resp1 := s.resp1 + [r])
          else Faulty(s)
  }

  /** The device manager runs a submitted request, in whatever order, reading
      the arguments where the ticket points. */
  function DoRunKernel(env: Env, s: State, index: nat): State {
    if index >= |s.ingress| then s
    else
      var ticket := s.ingress[index];
      if ticket.source in s.holders && s.holders[ticket.source].data.Some?
         && s.holders[ticket.source].data.value.SendArgs? then
        var args := s.holders[ticket.source].data.value;
        s.(ingress := s.ingress[..index] + s.ingress[index + 1..],
           egress := s.egress + [Outcome(ticket.resp, env.kernel(args.resource, args.args))])
      else Faulty(s)
  }

  /** _process_rpc: the result becomes the device response's payload. */
  function DoReadResult(s: State): State {
    if s.egress == [] then s
    else
      var o := s.egress[0];
      if !Has(s.holders, o.resp, DevResp) then Faulty(s)
      else
        s.(holders := s.holders[o.resp := s.holders[o.resp].(data := Some(RecvArgs(o.outs)))],
           egress := s.egress[1..],
           resp1 := s.resp1 + [o.resp])
  }

  function Clines(env: Env, ids: seq<KernelId>): (r: seq<string>) {
    seq(|ids|, i requires 0 <= i < |ids| => env.cline(ids[i]))
  }

  /** system service, response side. */
  function DoSystemResponse(env: Env, s: State): State {
    if s.resp1 == [] then s
    else
      var t := s.resp1[0];
      if !HasHeader(s.holders, t) then Faulty(s)
      else
        var r := s.next;
        var h := Generate(s.holders, r, SysResp, Some(t));
        var s1 := s.(next := r + 1, resp1 := s.resp1[1..], resp0 := s.resp0 + [r]);
        if s.holders[t].header.value.action == IdentResource then
          if Has(h, t, DevResp) && h[t].devData.Some? then
            var g := h[r := h[r].(data := Some(Misc(Clines(env, h[t].devData.value))))];
            s1.(holders := Removed(g, t))
          else Faulty(s)
        else s1.(holders := Removed(h[r := h[r].(deferred := true)], t))
  }

  /** What collage puts on the wire; None where it throws. */
  function ReplyTo(header: Header, data: Payload): Option<Reply> {
    match header.action
    case SendData =>
      if data.RecvArgs? then Some(NexRecv(header.key, ArgCount(data.outs), Popped(data.outs))) else None
    case RegResource =>
      if data.Misc? && |data.lines| > 0 then Some(HwReg(header.key, data.lines[0], data.lines[1..])) else None
    case IdentResource =>
      if data.Misc? then Some(HwUpdate(data.lines)) else None
  }

  /** process_q_resp. */
  function DoDrain(s: State): State {
    if s.resp0 == [] then s
    else
      var t := s.resp0[0];
      if !HasHeader(s.holders, t) || !Has(s.holders, t, SysResp) then Faulty(s)
      else
        var header := s.holders[t].header.value;
        var data := BaseData(s.holders, t);
        var reply := if data.Some? then ReplyTo(header, data.value) else None;
        if reply.None? then Faulty(s)
        else
          s.(holders := Removed(s.holders, t), resp0 := s.resp0[1..],
              replies := s.replies + [(header.source, reply.value)])
  }

  function Step(env: Env, s: State, a: Action): State {
    if s.fault then s
    else
      match a
      case Submit(req) => DoSubmit(s, req)
      case SystemRequest => DoSystemRequest(s)
      case DeviceRequest => DoDeviceRequest(env, s)
      case RunKernel(index) => DoRunKernel(env, s, index)
      case ReadResult => DoReadResult(s)
      case SystemResponse => DoSystemResponse(env, s)
      case DrainResponse => DoDrain(s)
  }

  function Run(env: Env, acts: seq<Action>): State {
    if acts == [] then Initial()
    else Step(env, Run(env, acts[..|acts| - 1]), acts[|acts| - 1])
  }

  /** The requests submitted in a run, in order. */
  function Submitted(acts: seq<Action>): seq<Request> {
    if acts == [] then []
    else
      var rest := Submitted(acts[..|acts| - 1]);
      var a := acts[|acts| - 1];
      if a.Submit? then rest + [a.req] else rest
  }

  /** What the requester should get: the answer to its own request, under its
      own key. */
  function Answer(env: Env, req: Request): (Source, Reply) {
    match req.body
    case Register => (req.source, HwReg(req.key, env.extAddr, env.manifest))
    case Identify(_, dirs) => (req.source, HwUpdate(Clines(env, env.scan(dirs))))
    case Send(resource, args) =>
      var outs := env.kernel(resource, args);
      (req.source, NexRecv(req.key, ArgCount(outs), Popped(outs)))
  }

  predicate Idle(s: State) {
    s.req0 == [] && s.req1 == [] && s.ingress == [] && s.egress == [] && s.resp1 == [] && s.resp0 == []
  }
}
