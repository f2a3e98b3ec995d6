/** The worker pool (utils/include/thread_manager.h) on two bounded queues
    (utils/include/concurrent_bounded_queue.h). Each queue operation runs under
    the queue's lock and is one step; any number of workers, any interleaving.
    An operation that would block is simply not taken. */
module WorkerPool {
  import opened Bytes

  // ---- the bounded queue ----

  /** The items and the values of the two counting semaphores. */
  datatype Queue = Queue(items: seq<Text>, produced: nat, space: nat)

  ghost predicate QueueOk(q: Queue, depth: nat) {
    |q.items| == q.produced && q.produced + q.space == depth
  }

  function Empty(depth: nat): Queue {
    Queue([], 0, depth)
  }

  function Put(q: Queue, x: Text): Queue
    requires q.space > 0
  {
    Queue(q.items + [x], q.produced + 1, q.space - 1)
  }

  /** Taking the front item; produced counts the items. */
  function Rest(q: Queue): Queue
    requires q.produced > 0 && |q.items| > 0
  {
    Queue(q.items[1..], q.produced - 1, q.space + 1)
  }

  class BoundedQueue {
    const depth: nat
    var items: seq<Text>
    var produced: nat
    var space: nat

    ghost predicate Valid()
      reads this
    {
      QueueOk(Abstract(), depth)
    }

    function Abstract(): Queue
      reads this
    {
      Queue(items, produced, space)
    }

    constructor (depth: nat)
      ensures Valid() && Abstract() == Empty(depth) && this.depth == depth
    {
      this.depth := depth;
      items, produced, space := [], 0, depth;
    }

    /** Blocks on remaining_space when the queue is full. */
    method Enqueue(x: Text)
      requires Valid() && |items| < depth
      modifies this
      ensures Valid() && items == old(items) + [x] && Abstract() == Put(old(Abstract()), x)
    {
      space := space - 1;
      items := items + [x];
      produced := produced + 1;
    }

    method TryDequeue() returns (x: Option<Text>)
      requires Valid()
      modifies this
      ensures Valid()
      ensures old(items) == [] ==> x == None && Abstract() == old(Abstract())
      ensures old(items) != [] ==> 
        x == Some(old(items)[0]) && items == old(items)[1..] && Abstract() == Rest(old(Abstract()))
    {
      if produced == 0 {
        return None;
      }
      produced := produced - 1;
      x := Some(items[0]);
      items := items[1..];
      space := space + 1;
    }

    /** Blocks on items_produced when the queue is empty. */
    method Dequeue() returns (x: Text)
      requires Valid() && items != []
      modifies this
      ensures Valid() && x == old(items)[0] && items == old(items)[1..] && Abstract() == Rest(old(Abstract()))
    {
      produced := produced - 1;
      x := items[0];
      items := items[1..];
      space := space + 1;
    }
  }

  /** A handler's outputs go out from the back of its vector. */
  function Backwards(outs: seq<Text>): seq<Text> {
    if outs == [] then [] else [outs[|outs| - 1]] + Backwards(outs[..|outs| - 1])
  }

  lemma {:induction false} BackwardsIs(outs: seq<Text>)
    ensures |Backwards(outs)| == |outs|
    ensures forall i | 0 <= i < |outs| :: Backwards(outs)[i] == outs[|outs| - 1 - i]
    decreases |outs|
  {
    if outs != [] {
      BackwardsIs(outs[..|outs| - 1]);
    }
  }

  /** process_single by itself, with room for the outputs. */
  method ProcessSingle(ingress: BoundedQueue, egress: BoundedQueue, handle: Text -> seq<Text>)
    requires ingress != egress && ingress.Valid() && egress.Valid()
    requires ingress.items != [] ==> |egress.items| + |handle(ingress.items[0])| <= egress.depth
    modifies ingress, egress
    ensures ingress.Valid() && egress.Valid()
    ensures old(ingress.items) == [] ==> ingress.items == [] && egress.items == old(egress.items)
    ensures old(ingress.items) != [] ==>
      var outs, n := handle(old(ingress.items)[0]), |old(egress.items)|;
      && ingress.items == old(ingress.items)[1..]
      && |egress.items| == n + |outs| && egress.items[..n] == old(egress.items)
      && var batch := egress.items[n..];
      forall i | 0 <= i < |batch| :: batch[i] == outs[|outs| - 1 - i]
  {
    var msg := ingress.TryDequeue();
    if msg.Some? {
      var outs := handle(msg.value);
      while outs != []
        invariant ingress.Valid() && egress.Valid() && ingress.items == old(ingress.items)[1..]
        invariant egress.items + Backwards(outs) == old(egress.items) + Backwards(handle(msg.value))
        invariant |egress.items| + |outs| <= egress.depth
        decreases |outs|
      {
        egress.Enqueue(outs[|outs| - 1]);
        outs := outs[..|outs| - 1];
      }
      BackwardsIs(handle(msg.value));
      assert egress.items == old(egress.items) + Backwards(handle(msg.value));
      assert egress.items[|old(egress.items)|..] == Backwards(handle(msg.value));
    }
  }

  /** try_read_all by itself: everything, in order. */
  method TryReadAll(egress: BoundedQueue) returns (out: seq<Text>)
    requires egress.Valid()
    modifies egress
    ensures egress.Valid() && out == old(egress.items) && egress.items == []
  {
    out := [];
    var msg := egress.TryDequeue();
    while msg.Some?
      invariant egress.Valid()
      invariant out + (if msg.Some? then [msg.value] else []) + egress.items == old(egress.items)
      invariant msg.None? ==> egress.items == []
      decreases |egress.items|, msg.Some?
    {
      out := out + [msg.value];
      msg := egress.TryDequeue();
    }
  }

  // ---- the pool ----

  /** Per worker what it still has to put out. submitted, handled and read
      record what has gone in, been taken and come out. */
  datatype State = State(
    ingress: Queue, egress: Queue, workers: seq<seq<Text>>,
    submitted: seq<Text>, handled: seq<Text>, read: seq<Text>)

  datatype Action = Submit(msg: Text) | Take(who: nat) | Emit(who: nat) | Read

  type Handler = Text -> seq<Text>

  function Initial(depth: nat, n: nat): State {
    State(Empty(depth), Empty(depth), seq(n, _ => []), [], [], [])
  }

  predicate Enabled(s: State, a: Action) {
    match a
    case Submit(_) => s.ingress.space > 0
    case Take(w) => w < |s.workers| && s.workers[w] == [] && s.ingress.produced > 0 && s.ingress.items != []
    case Emit(w) => w < |s.workers| && s.workers[w] != [] && s.egress.space > 0
    case Read => s.egress.produced > 0 && s.egress.items != []
  }

  function Step(handle: Handler, s: State, a: Action): State {
    if !Enabled(s, a) then s
    else match a
      case Submit(msg) => s.(ingress := Put(s.ingress, msg), submitted := s.submitted + [msg])
      case Take(w) =>
        var msg := s.ingress.items[0];
        s.(ingress := Rest(s.ingress), workers := s.workers[w := handle(msg)], handled := s.handled + [msg])
      case Emit(w) =>
        var outs := s.workers[w];
        s.(egress := Put(s.egress, outs[|outs| - 1]), workers := s.workers[w := outs[..|outs| - 1]])
      case Read => s.(egress := Rest(s.egress), read := s.read + [s.egress.items[0]])
  }

  function Run(handle: Handler, depth: nat, n: nat, acts: seq<Action>): State {
    if acts == [] then Initial(depth, n)
    else Step(handle, Run(handle, depth, n, acts[..|acts| - 1]), acts[|acts| - 1])
  }

  // ---- what goes in comes out ----

  /** All that the workers still hold. */
  function Held(workers: seq<seq<Text>>): multiset<Text> {
    if workers == [] then multiset{} else Held(workers[..|workers| - 1]) + multiset(workers[|workers| - 1])
  }

  /** All that the handlers make of the messages taken. */
  function Made(handle: Handler, msgs: seq<Text>): multiset<Text> {
    if msgs == [] then multiset{} else Made(handle, msgs[..|msgs| - 1]) + multiset(handle(msgs[|msgs| - 1]))
  }

  lemma Exchange(a: multiset<Text>, b: multiset<Text>, c: multiset<Text>, d: multiset<Text>, e: multiset<Text>)
    requires a + b == c + d
    ensures (a + e) + b == (c + e) + d
  {
    assert (a + e) + b == (a + b) + e;
    assert (c + e) + d == (c + d) + e;
  }

  lemma Cancel(a: multiset<Text>, b: multiset<Text>, c: multiset<Text>, x: Text)
    requires a + (b + multiset{x}) == c + b
    ensures a + multiset{x} == c
  {
    forall y
      ensures (a + multiset{x})[y] == c[y]
    {
      assert (a + (b + multiset{x}))[y] == (c + b)[y];
    }
  }

  lemma {:induction false} HeldUpdate(workers: seq<seq<Text>>, w: nat, outs: seq<Text>)
    requires w < |workers|
    ensures Held(workers[w := outs]) + multiset(workers[w]) == Held(workers) + multiset(outs)
    decreases |workers|
  {
    var n := |workers| - 1;
    var after := workers[w := outs];
    if w < n {
      assert after[..n] == workers[..n][w := outs] && after[n] == workers[n];
      HeldUpdate(workers[..n], w, outs);
      Exchange(Held(after[..n]), multiset(workers[w]), Held(workers[..n]), multiset(outs), multiset(workers[n]));
    } else {
      assert after[..n] == workers[..n];
    }
  }

  lemma {:induction false} HeldNothing(n: nat)
    ensures Held(seq(n, _ => [])) == multiset{}
  {
    if n > 0 {
      assert seq(n, _ => [])[..n - 1] == seq<seq<Text>>(n - 1, _ => []);
      HeldNothing(n - 1);
    }
  }

  ghost predicate Inv(handle: Handler, depth: nat, n: nat, s: State) {
    && QueueOk(s.ingress, depth) && QueueOk(s.egress, depth) && |s.workers| == n
    && s.submitted == s.handled + s.ingress.items
    && multiset(s.read) + multiset(s.egress.items) + Held(s.workers) == Made(handle, s.handled)
  }

  lemma InitialInv(handle: Handler, depth: nat, n: nat)
    ensures Inv(handle, depth, n, Initial(depth, n))
  {
    HeldNothing(n);
  }

  lemma TakeKeeps(handle: Handler, depth: nat, n: nat, s: State, w: nat)
    requires Inv(handle, depth, n, s) && Enabled(s, Take(w))
    ensures Inv(handle, depth, n, Step(handle, s, Take(w)))
  {
    hide Held, Made;
    var msg := s.ingress.items[0];
    HeldUpdate(s.workers, w, handle(msg));
    NothingInHand(s.workers[w]);
    MadeOneMore(handle, s.handled, msg);
    assert s.ingress.items == [msg] + s.ingress.items[1..];
    var out := multiset(s.read) + multiset(s.egress.items);
    assert out + (Held(s.workers) + multiset(handle(msg))) == (out + Held(s.workers)) + multiset(handle(msg));
  }

  lemma EmitKeeps(handle: Handler, depth: nat, n: nat, s: State, w: nat)
    requires Inv(handle, depth, n, s) && Enabled(s, Emit(w))
    ensures Inv(handle, depth, n, Step(handle, s, Emit(w)))
  {
    hide Held, Made;
    var outs := s.workers[w];
    var front, x := outs[..|outs| - 1], outs[|outs| - 1];
    HeldUpdate(s.workers, w, front);
    assert outs == front + [x];
    Cancel(Held(s.workers[w := front]), multiset(front), Held(s.workers), x);
    assert multiset(s.egress.items + [x]) == multiset(s.egress.items) + multiset{x};
  }

  lemma StepKeeps(handle: Handler, depth: nat, n: nat, s: State, a: Action)
    requires Inv(handle, depth, n, s)
    ensures Inv(handle, depth, n, Step(handle, s, a))
  {
    hide Held, Made;
    if Enabled(s, a) {
      match a
      case Submit(_) =>
      case Take(w) => TakeKeeps(handle, depth, n, s, w);
      case Emit(w) => EmitKeeps(handle, depth, n, s, w);
      case Read =>
        assert s.egress.items == [s.egress.items[0]] + s.egress.items[1..];
    }
  }

  lemma NothingInHand(outs: seq<Text>)
    requires outs == []
    ensures multiset(outs) == multiset{}
  {
  }

  lemma MadeOneMore(handle: Handler, msgs: seq<Text>, msg: Text)
    ensures Made(handle, msgs + [msg]) == Made(handle, msgs) + multiset(handle(msg))
  {
    assert (msgs + [msg])[..|msgs|] == msgs;
  }

  lemma {:induction false} RunKeeps(handle: Handler, depth: nat, n: nat, acts: seq<Action>)
    ensures Inv(handle, depth, n, Run(handle, depth, n, acts))
    decreases |acts|
  {
    hide Inv, Step;
    if acts == [] {
      InitialInv(handle, depth, n);
    } else {
      RunKeeps(handle, depth, n, acts[..|acts| - 1]);
      StepKeeps(handle, depth, n, Run(handle, depth, n, acts[..|acts| - 1]), acts[|acts| - 1]);
    }
  }

  /** In every run the queues' lengths are what their semaphores say and never
      exceed the depth; messages are taken in the order submitted, each once;
      and what has been read, is queued or is in a worker's hands is, as a
      multiset, exactly what the handlers made of the messages taken. */
  lemma NothingLostOrDoubled(handle: Handler, depth: nat, n: nat, acts: seq<Action>)
    ensures var s := Run(handle, depth, n, acts);
      && |s.ingress.items| == s.ingress.produced == depth - s.ingress.space
      && |s.egress.items| == s.egress.produced == depth - s.egress.space
      && s.submitted == s.handled + s.ingress.items
      && multiset(s.read) + multiset(s.egress.items) + Held(s.workers) == Made(handle, s.handled)
  {
    hide Run;
    RunKeeps(handle, depth, n, acts);
  }

  // ---- what is recorded is what was asked ----

  /** The messages of the submissions that found room. */
  function Accepted(handle: Handler, depth: nat, n: nat, acts: seq<Action>): seq<Text> {
    if acts == [] then []
    else
      var front, a := acts[..|acts| - 1], acts[|acts| - 1];
      Accepted(handle, depth, n, front)
      + if a.Submit? && Run(handle, depth, n, front).ingress.space > 0 then [a.msg] else []
  }

  /** The items that reads have taken off the front of the output queue. */
  function Taken(handle: Handler, depth: nat, n: nat, acts: seq<Action>): seq<Text> {
    if acts == [] then []
    else
      var front, a := acts[..|acts| - 1], acts[|acts| - 1];
      var queued := Run(handle, depth, n, front).egress.items;
      Taken(handle, depth, n, front) + if a.Read? && queued != [] then [queued[0]] else []
  }

  lemma {:induction false} RecordsAreTrue(handle: Handler, depth: nat, n: nat, acts: seq<Action>)
    ensures var s := Run(handle, depth, n, acts);
      s.submitted == Accepted(handle, depth, n, acts) && s.read == Taken(handle, depth, n, acts)
    decreases |acts|
  {
    hide Step;
    if acts != [] {
      var front := acts[..|acts| - 1];
      RecordsAreTrue(handle, depth, n, front);
      RunKeeps(handle, depth, n, front);
      StepRecords(handle, depth, n, Run(handle, depth, n, front), acts[|acts| - 1]);
    }
  }

  lemma StepRecords(handle: Handler, depth: nat, n: nat, s: State, a: Action)
    requires Inv(handle, depth, n, s)
    ensures var t := Step(handle, s, a);
      && t.submitted == s.submitted + (if a.Submit? && s.ingress.space > 0 then [a.msg] else [])
      && t.read == s.read + if a.Read? && s.egress.items != [] then [s.egress.items[0]] else []
  {
    hide Held, Made;
  }

  // ---- one worker keeps the order ----

  /** The batches in input order, each backwards. */
  function Batches(handle: Handler, msgs: seq<Text>): seq<Text> {
    if msgs == [] then [] else Batches(handle, msgs[..|msgs| - 1]) + Backwards(handle(msgs[|msgs| - 1]))
  }

  lemma StepKeepsOrder(handle: Handler, depth: nat, s: State, a: Action)
    requires Inv(handle, depth, 1, s)
    requires s.read + s.egress.items + Backwards(s.workers[0]) == Batches(handle, s.handled)
    ensures var t := Step(handle, s, a);
      |t.workers| == 1 && t.read + t.egress.items + Backwards(t.workers[0]) == Batches(handle, t.handled)
  {
    hide Inv, Batches, Backwards;
    OneWorker(handle, depth, s);
    if Enabled(s, a) {
      var r, e, b := s.read, s.egress.items, Backwards(s.workers[0]);
      match a
      case Submit(_) =>
      case Take(w) =>
        var msg := s.ingress.items[0];
        BatchesOneMore(handle, s.handled, msg);
        BackwardsNothing();
        assert r + e + Backwards([]) + Backwards(handle(msg)) == r + e + Backwards(handle(msg));
      case Emit(w) =>
        var outs := s.workers[0];
        var x := outs[|outs| - 1];
        BackwardsStep(outs);
        assert r + (e + [x]) + Backwards(outs[..|outs| - 1]) == r + e + ([x] + Backwards(outs[..|outs| - 1]));
      case Read =>
        assert e == [e[0]] + e[1..];
        assert r + [e[0]] + e[1..] == r + ([e[0]] + e[1..]);
    }
  }

  lemma OneWorker(handle: Handler, depth: nat, s: State)
    requires Inv(handle, depth, 1, s)
    ensures |s.workers| == 1
  {
  }

  lemma BatchesOneMore(handle: Handler, msgs: seq<Text>, msg: Text)
    ensures Batches(handle, msgs + [msg]) == Batches(handle, msgs) + Backwards(handle(msg))
  {
    assert (msgs + [msg])[..|msgs|] == msgs;
  }

  lemma BackwardsStep(outs: seq<Text>)
    requires outs != []
    ensures Backwards(outs) == [outs[|outs| - 1]] + Backwards(outs[..|outs| - 1])
  {
  }

  lemma BackwardsNothing()
    ensures Backwards([]) == []
  {
  }

  /** With a single worker the outputs come in input order, each batch
      backwards. */
  lemma {:induction false} OneWorkerKeepsOrder(handle: Handler, depth: nat, acts: seq<Action>)
    ensures var s := Run(handle, depth, 1, acts);
      |s.workers| == 1 && s.read + s.egress.items + Backwards(s.workers[0]) == Batches(handle, s.handled)
    decreases |acts|
  {
    hide Inv, Step;
    if acts != [] {
      OneWorkerKeepsOrder(handle, depth, acts[..|acts| - 1]);
      RunKeeps(handle, depth, 1, acts[..|acts| - 1]);
      StepKeepsOrder(handle, depth, Run(handle, depth, 1, acts[..|acts| - 1]), acts[|acts| - 1]);
    }
  }

  // ---- place by place ----

  /** How many outputs come before those of the k-th message. */
  function Offset(handle: Handler, msgs: seq<Text>, k: nat): nat
    requires k <= |msgs|
  {
    if k == 0 then 0 else Offset(handle, msgs, k - 1) + |handle(msgs[k - 1])|
  }

  lemma {:induction false} OffsetOfFront(handle: Handler, msgs: seq<Text>, msg: Text, k: nat)
    requires k <= |msgs|
    ensures Offset(handle, msgs + [msg], k) == Offset(handle, msgs, k)
  {
    if k > 0 {
      OffsetOfFront(handle, msgs, msg, k - 1);
    }
  }

  lemma {:induction false} OffsetGrows(handle: Handler, msgs: seq<Text>, k: nat, l: nat)
    requires k <= l <= |msgs|
    ensures Offset(handle, msgs, k) <= Offset(handle, msgs, l)
    decreases l
  {
    if k < l {
      OffsetGrows(handle, msgs, k, l - 1);
    }
  }

  lemma {:induction false} BatchesAt(handle: Handler, msgs: seq<Text>, k: nat, j: nat)
    requires k < |msgs| && j < |handle(msgs[k])|
    ensures |Batches(handle, msgs)| == Offset(handle, msgs, |msgs|)
    ensures Offset(handle, msgs, k) + j < |Batches(handle, msgs)|
    ensures Batches(handle, msgs)[Offset(handle, msgs, k) + j] == handle(msgs[k])[|handle(msgs[k])| - 1 - j]
    decreases |msgs|
  {
    var front, last := msgs[..|msgs| - 1], msgs[|msgs| - 1];
    assert msgs == front + [last];
    BatchesLength(handle, front);
    BackwardsIs(handle(last));
    OffsetOfFront(handle, front, last, |front|);
    OffsetOfFront(handle, front, last, k);
    if k < |front| {
      BatchesAt(handle, front, k, j);
      OffsetGrows(handle, front, k + 1, |front|);
    }
  }

  lemma {:induction false} BatchesLength(handle: Handler, msgs: seq<Text>)
    ensures |Batches(handle, msgs)| == Offset(handle, msgs, |msgs|)
    decreases |msgs|
  {
    if msgs != [] {
      var front, last := msgs[..|msgs| - 1], msgs[|msgs| - 1];
      assert msgs == front + [last];
      BatchesLength(handle, front);
      BackwardsIs(handle(last));
      OffsetOfFront(handle, front, last, |front|);
    }
  }

  /** With a single worker, once the j-th output from the back of the k-th
      message taken is out, it is at the place behind the outputs of all earlier
      messages and j of its own. */
  lemma OneWorkerOrder(handle: Handler, depth: nat, acts: seq<Action>, k: nat, j: nat)
    requires var s := Run(handle, depth, 1, acts);
      && k < |s.handled| && j < |handle(s.handled[k])|
      && Offset(handle, s.handled, k) + j < |s.read| + |s.egress.items|
    ensures var s := Run(handle, depth, 1, acts); var outs := handle(s.handled[k]);
      (s.read + s.egress.items)[Offset(handle, s.handled, k) + j] == outs[|outs| - 1 - j]
  {
    hide Run, Batches;
    OneWorkerKeepsOrder(handle, depth, acts);
    var s := Run(handle, depth, 1, acts);
    BatchesAt(handle, s.handled, k, j);
    var out := s.read + s.egress.items;
    assert Batches(handle, s.handled)[Offset(handle, s.handled, k) + j] == out[Offset(handle, s.handled, k) + j];
  }
}
