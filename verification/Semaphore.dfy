/** The buffered semaphore of utils/include/counting_semaphore.h
    (__semaphore_base with front and back buffers over a kernel semaphore that
    is posted one at a time), any interleaving of acquire and release. Every
    atomic addition, every kernel post and every kernel wait is one step. */
module Semaphore {
  /** Where a thread is. Filling and Posting carry the posts still to make,
      Filling also what is still to be given back to the back buffer. */
  datatype Thread =
    | Outside
    | Waiting
    | Woken
    | Filling(posts: nat, give: nat)
    | Releasing(amount: nat)
    | Posting(posts: nat)

  /** initial, released and acquired are only recorded: the count at the start,
      what releases have added, and how many acquires have got through. */
  datatype State = State(
    kernel: nat, front: int, back: int, threads: seq<Thread>,
    initial: nat, released: nat, acquired: nat)

  datatype Action =
    | Acquire(who: nat)
    | Wait(who: nat)
    | Backfill(who: nat)
    | Post(who: nat)
    | Finish(who: nat)
    | Release(who: nat, update: nat)
    | Stock(who: nat)

  function Initial(count: nat, n: nat): State {
    State(0, count, 0, seq(n, _ => Outside), count, 0, 0)
  }

  function Min(a: int, b: int): int {
    if a < b then a else b
  }

  function Become(s: State, i: nat, t: Thread): State
    requires i < |s.threads|
  {
    s.(threads := s.threads[i := t])
  }

  predicate Enabled(s: State, a: Action) {
    a.who < |s.threads|
    && var t := s.threads[a.who];
       match a
       case Acquire(_) => t.Outside?
       case Wait(_) => t.Waiting? && s.kernel > 0
       case Backfill(_) => t.Woken?
       case Post(_) => (t.Filling? || t.Posting?) && t.posts > 0
       case Finish(_) => (t.Filling? || t.Posting?) && t.posts == 0
       case Release(_, _) => t.Outside?
       case Stock(_) => t.Releasing?
  }

  function Step(s: State, a: Action): State {
    if !Enabled(s, a) then s
    else
      var i := a.who;
      match a
      case Acquire(_) =>
        // __try_acquire_fast: front.fetch_sub(1)
        var s1 := s.(front := s.front - 1);
        if s.front > 0 then s1.(acquired := s.acquired + 1) else Become(s1, i, Waiting)
      case Wait(_) =>
        Become(s.(kernel := s.kernel - 1, acquired := s.acquired + 1), i, Woken)
      case Backfill(_) =>
        // back.fetch_sub(2), then at most two posts; the unused part goes back
        var one, two := s.back > 0, s.back > 1;
        Become(s.(back := s.back - 2), i,
          Filling(if two then 2 else if one then 1 else 0, if !one then 2 else if !two then 1 else 0))
      case Post(_) =>
        var t := s.threads[i];
        Become(s.(kernel := s.kernel + 1), i,
          if t.Filling? then Filling(t.posts - 1, t.give) else Posting(t.posts - 1))
      case Finish(_) =>
        var t := s.threads[i];
        Become(s.(back := s.back + if t.Filling? then t.give else 0), i, Outside)
      case Release(_, update) =>
        var s1 := s.(front := s.front + update, released := s.released + update);
        if s.front >= 0 then s1 else Become(s1, i, Releasing(Min(update, -s.front)))
      case Stock(_) =>
        // __release_slow: all but two of the posts go to the back buffer
        var amount := s.threads[i].amount;
        Become(s.(back := s.back + if amount > 2 then amount - 2 else 0), i, Posting(Min(amount, 2)))
  }

  function Run(count: nat, n: nat, acts: seq<Action>): State {
    if acts == [] then Initial(count, n)
    else Step(Run(count, n, acts[..|acts| - 1]), acts[|acts| - 1])
  }

  // ---- what the threads hold ----

  /** Posts on their way to the kernel semaphore or to the back buffer. */
  function Owed(t: Thread): nat {
    match t
    case Filling(posts, give) => posts + give
    case Releasing(amount) => amount
    case Posting(posts) => posts
    case _ => 0
  }

  function Giving(t: Thread): nat {
    if t.Filling? then t.give else 0
  }

  function Slow(t: Thread): nat {
    if t.Waiting? then 1 else 0
  }

  function Tally(f: Thread -> nat, threads: seq<Thread>): nat {
    if threads == [] then 0
    else Tally(f, threads[..|threads| - 1]) + f(threads[|threads| - 1])
  }

  lemma {:induction false} TallyUpdate(f: Thread -> nat, threads: seq<Thread>, i: nat, t: Thread)
    requires i < |threads|
    ensures Tally(f, threads[i := t]) == Tally(f, threads) - f(threads[i]) + f(t)
    decreases |threads|
  {
    var n := |threads| - 1;
    var after := threads[i := t];
    if i < n {
      assert after[..n] == threads[..n][i := t];
      TallyUpdate(f, threads[..n], i, t);
    } else {
      assert after[..n] == threads[..n];
    }
  }

  lemma {:induction false} TallyNone(f: Thread -> nat, threads: seq<Thread>)
    ensures (forall i | 0 <= i < |threads| :: f(threads[i]) == 0) ==> Tally(f, threads) == 0
    decreases |threads|
  {
    if threads != [] {
      TallyNone(f, threads[..|threads| - 1]);
    }
  }

  lemma {:induction false} TallySome(f: Thread -> nat, threads: seq<Thread>, i: nat)
    requires i < |threads|
    ensures Tally(f, threads) >= f(threads[i])
    decreases |threads|
  {
    if i < |threads| - 1 {
      TallySome(f, threads[..|threads| - 1], i);
    }
  }

  function Deficit(s: State): nat {
    if s.front < 0 then -s.front else 0
  }

  function Sleepers(s: State): nat {
    Tally(Slow, s.threads)
  }

  /** Conservation. */
  ghost predicate Conserved(s: State) {
    && s.kernel + s.back + Tally(Owed, s.threads) == Sleepers(s) - Deficit(s)
    && s.back + Tally(Giving, s.threads) >= 0
    && s.acquired == s.initial + s.released - s.front - Sleepers(s)
  }

  lemma InitialConserved(count: nat, n: nat)
    ensures Conserved(Initial(count, n))
  {
    var s := Initial(count, n);
    TallyNone(Owed, s.threads);
    TallyNone(Giving, s.threads);
    TallyNone(Slow, s.threads);
  }

  /** One thread moves from t0 to t and the numbers change by as much. */
  lemma MoveConserves(s: State, s2: State, i: nat, t: Thread)
    requires Conserved(s) && i < |s.threads| && s2.threads == s.threads[i := t] && s2.initial == s.initial
    requires var t0 := s.threads[i];
      && s2.kernel + s2.back + Owed(t) - Slow(t) + Deficit(s2) == s.kernel + s.back + Owed(t0) - Slow(t0) + Deficit(s)
      && (s2.back + Giving(t) >= s.back + Giving(t0) || s2.back + Giving(t) >= 0)
      && s2.acquired - s2.released + s2.front + Slow(t) == s.acquired - s.released + s.front + Slow(t0)
    ensures Conserved(s2)
  {
    hide Tally, Owed, Giving, Slow, Deficit;
    TallyUpdate(Owed, s.threads, i, t);
    TallyUpdate(Giving, s.threads, i, t);
    TallyUpdate(Slow, s.threads, i, t);
    TallySome(Giving, s.threads, i);
  }

  lemma StepConserves(s: State, a: Action)
    requires Conserved(s)
    ensures Conserved(Step(s, a))
  {
    hide Conserved, Tally;
    if Enabled(s, a) {
      var s2 := Step(s, a);
      assert s2.threads == s.threads[a.who := s2.threads[a.who]];
      MoveConserves(s, s2, a.who, s2.threads[a.who]);
    }
  }

  lemma {:induction false} RunConserves(count: nat, n: nat, acts: seq<Action>)
    ensures Conserved(Run(count, n, acts)) && Run(count, n, acts).initial == count
    decreases |acts|
  {
    hide Conserved;
    if acts == [] {
      InitialConserved(count, n);
    } else {
      RunConserves(count, n, acts[..|acts| - 1]);
      StepConserves(Run(count, n, acts[..|acts| - 1]), acts[|acts| - 1]);
    }
  }

  lemma {:induction false} GivingIsOwed(threads: seq<Thread>)
    ensures Tally(Giving, threads) <= Tally(Owed, threads)
    decreases |threads|
  {
    if threads != [] {
      GivingIsOwed(threads[..|threads| - 1]);
    }
  }

  /** In every run, never more acquires get through than the initial count and
      the releases allow. */
  lemma NeverTooMany(count: nat, n: nat, acts: seq<Action>)
    ensures var s := Run(count, n, acts); s.acquired <= count + s.released
  {
    hide Run, Tally;
    RunConserves(count, n, acts);
    GivingIsOwed(Run(count, n, acts).threads);
  }

  /** How much the releases of a run have asked for, and how many acquires have
      got through: those that found a token at once, and those that were woken. */
  function Asked(count: nat, n: nat, acts: seq<Action>): nat {
    if acts == [] then 0
    else
      var front, a := acts[..|acts| - 1], acts[|acts| - 1];
      Asked(count, n, front) + if a.Release? && Enabled(Run(count, n, front), a) then a.update else 0
  }

  function Through(count: nat, n: nat, acts: seq<Action>): nat {
    if acts == [] then 0
    else
      var front, a := acts[..|acts| - 1], acts[|acts| - 1];
      var s := Run(count, n, front);
      Through(count, n, front) + if Enabled(s, a) && ((a.Acquire? && s.front > 0) || a.Wait?) then 1 else 0
  }

  lemma {:induction false} RecordsAreTrue(count: nat, n: nat, acts: seq<Action>)
    ensures var s := Run(count, n, acts);
      s.released == Asked(count, n, acts) && s.acquired == Through(count, n, acts) && s.initial == count
    decreases |acts|
  {
    hide Step, Enabled;
    if acts != [] {
      RecordsAreTrue(count, n, acts[..|acts| - 1]);
      StepRecords(Run(count, n, acts[..|acts| - 1]), acts[|acts| - 1]);
    }
  }

  lemma StepRecords(s: State, a: Action)
    ensures var t := Step(s, a);
      && t.released == s.released + (if a.Release? && Enabled(s, a) then a.update else 0)
      && t.acquired == s.acquired + (if Enabled(s, a) && ((a.Acquire? && s.front > 0) || a.Wait?) then 1 else 0)
      && t.initial == s.initial
  {
  }

  /** No more acquires get through than the count at the start and what the
      run's releases asked for allow. */
  lemma NeverMoreThanAsked(count: nat, n: nat, acts: seq<Action>)
    ensures Through(count, n, acts) <= count + Asked(count, n, acts)
  {
    hide Through, Asked, Run;
    RecordsAreTrue(count, n, acts);
    NeverTooMany(count, n, acts);
  }

  // ---- when everything has come to rest ----

  /** No thread has a step to take but new calls and kernel waits. */
  ghost predicate Quiet(s: State) {
    forall i | 0 <= i < |s.threads| :: s.threads[i].Outside? || s.threads[i].Waiting?
  }

  /** Tokens for sleepers that no post will announce. */
  ghost predicate Stranded(s: State) {
    Quiet(s) && s.kernel == 0 && Sleepers(s) > Deficit(s)
  }

  /** At rest the back buffer is what sleepers miss: a sleeper whose token has
      been released is stranded exactly when something is left there. */
  lemma StrandedMeansBack(count: nat, n: nat, acts: seq<Action>)
    requires Quiet(Run(count, n, acts))
    ensures var s := Run(count, n, acts);
      && s.back >= 0
      && Sleepers(s) - Deficit(s) == s.kernel + s.back
      && (s.kernel == 0 ==> (Stranded(s) <==> s.back > 0))
  {
    hide Run;
    RunConserves(count, n, acts);
    var s := Run(count, n, acts);
    TallyNone(Owed, s.threads);
    TallyNone(Giving, s.threads);
  }

  predicate ReleasesAtMost(acts: seq<Action>, b: nat) {
    forall a | a in acts && a.Release? :: a.update <= b
  }

  ghost predicate NothingStocked(s: State) {
    && s.back + Tally(Giving, s.threads) == 0
    && (forall i | 0 <= i < |s.threads| && s.threads[i].Releasing? :: s.threads[i].amount <= 2)
  }

  lemma StepStocksNothing(s: State, a: Action)
    requires NothingStocked(s) && (a.Release? ==> a.update <= 2)
    ensures NothingStocked(Step(s, a))
  {
    hide Tally;
    if Enabled(s, a) {
      var i := a.who;
      var t := Step(s, a).threads[i];
      TallyUpdate(Giving, s.threads, i, t);
      assert s.threads[i := s.threads[i]] == s.threads;
    }
  }

  /** Releases of at most two never leave a sleeper stranded. */
  lemma {:induction false} SmallReleasesStrandNobody(count: nat, n: nat, acts: seq<Action>)
    requires ReleasesAtMost(acts, 2)
    ensures NothingStocked(Run(count, n, acts)) && !Stranded(Run(count, n, acts))
    decreases |acts|
  {
    hide NothingStocked, Step;
    var s := Run(count, n, acts);
    if acts == [] {
      NothingStockedYet(count, n);
    } else {
      assert acts[|acts| - 1] in acts;
      SmallReleasesStrandNobody(count, n, acts[..|acts| - 1]);
      StepStocksNothing(Run(count, n, acts[..|acts| - 1]), acts[|acts| - 1]);
    }
    if Quiet(s) {
      StrandedMeansBack(count, n, acts);
      EmptyBack(s);
    }
  }

  lemma NothingStockedYet(count: nat, n: nat)
    ensures NothingStocked(Initial(count, n))
  {
    TallyNone(Giving, Initial(count, n).threads);
  }

  lemma EmptyBack(s: State)
    requires Quiet(s) && NothingStocked(s)
    ensures s.back == 0
  {
    TallyNone(Giving, s.threads);
  }

  // ---- with four threads ----

  /** A release of more than two can only be under way when everybody else
      sleeps. */
  ghost predicate BigRelease(s: State, i: nat) {
    && i < |s.threads| == 4 && s.threads[i] == Releasing(3) && s.kernel == 0 && s.back == 0
    && forall j | 0 <= j < 4 && j != i :: s.threads[j].Waiting?
  }

  ghost predicate NoBigRelease(threads: seq<Thread>) {
    forall i | 0 <= i < |threads| && threads[i].Releasing? :: threads[i].amount <= 2
  }

  /** Those who will find what is stocked: a woken thread, or one whose posts
      will wake another. */
  function Helps(t: Thread): nat {
    match t
    case Woken => 1
    case Posting(posts) => posts
    case _ => 0
  }

  ghost predicate Stocked(s: State) {
    && s.back == 1 && NoBigRelease(s.threads) && (forall i | 0 <= i < |s.threads| :: !s.threads[i].Filling?)
    && s.kernel + Tally(Helps, s.threads) > 0
  }

  ghost predicate FewInv(s: State) {
    || NothingStocked(s)
    || (exists i :: BigRelease(s, i))
    || Stocked(s)
  }

  lemma {:induction false} SleepersAre(threads: seq<Thread>, i: nat)
    requires i < |threads| && !threads[i].Waiting?
    ensures Tally(Slow, threads) < |threads|
    ensures Tally(Slow, threads) == |threads| - 1 ==> forall j | 0 <= j < |threads| && j != i :: threads[j].Waiting?
    decreases |threads|
  {
    var n := |threads| - 1;
    if i < n {
      SleepersAre(threads[..n], i);
    } else {
      AllSleep(threads[..n]);
    }
  }

  lemma {:induction false} AllSleep(threads: seq<Thread>)
    ensures Tally(Slow, threads) <= |threads|
    ensures Tally(Slow, threads) == |threads| ==> forall j | 0 <= j < |threads| :: threads[j].Waiting?
    decreases |threads|
  {
    if threads != [] {
      AllSleep(threads[..|threads| - 1]);
    }
  }

  /** A release of more than two by one of four: everybody else sleeps, and
      there is no post and nothing stocked. */
  lemma BigReleaseStarts(s: State, i: nat, update: nat)
    requires Conserved(s) && |s.threads| <= 4 && Enabled(s, Release(i, update)) && s.front <= -3
    ensures |s.threads| == 4 && s.front == -3 && s.kernel == 0 && s.back == 0
    ensures forall j | 0 <= j < 4 && j != i :: s.threads[j].Waiting?
  {
    hide Tally;
    SleepersAre(s.threads, i);
    GivingIsOwed(s.threads);
    TallyNone(Giving, s.threads);
  }

  lemma ReleaseKeepsFew(s: State, i: nat, update: nat)
    requires Conserved(s) && |s.threads| <= 4 && FewInv(s) && Enabled(s, Release(i, update))
    ensures FewInv(Step(s, Release(i, update)))
  {
    hide Tally, Conserved;
    var t := Step(s, Release(i, update));
    if s.front < 0 && Min(update, -s.front) > 2 {
      BigReleaseStarts(s, i, update);
      assert BigRelease(t, i);
    } else if NothingStocked(s) {
      TallyUpdate(Giving, s.threads, i, t.threads[i]);
      assert s.threads[i := s.threads[i]] == s.threads;
    } else if Stocked(s) {
      TallyUpdate(Helps, s.threads, i, t.threads[i]);
      assert s.threads[i := s.threads[i]] == s.threads;
    }
  }

  /** While a big release is under way only its own next step is possible. */
  lemma BigReleaseStocks(s: State, a: Action, i: nat)
    requires BigRelease(s, i)
    ensures FewInv(Step(s, a))
  {
    hide Tally;
    if Enabled(s, a) {
      var t := Step(s, a);
      assert a == Stock(i);
      TallyUpdate(Helps, s.threads, i, Posting(2));
      assert Stocked(t);
    } else {
      assert BigRelease(Step(s, a), i);
    }
  }

  lemma StockedKeeps(s: State, a: Action)
    requires Stocked(s) && !a.Release?
    ensures FewInv(Step(s, a))
  {
    hide Tally;
    if Enabled(s, a) {
      var i := a.who;
      var t := Step(s, a);
      TallyUpdate(Helps, s.threads, i, t.threads[i]);
      assert s.threads[i := s.threads[i]] == s.threads;
      if a.Backfill? {
        TallyNone(Giving, s.threads);
        TallyUpdate(Giving, s.threads, i, t.threads[i]);
        assert NothingStocked(t);
      } else {
        assert Stocked(t);
      }
    }
  }

  lemma FewStep(s: State, a: Action)
    requires Conserved(s) && |s.threads| <= 4 && FewInv(s)
    ensures FewInv(Step(s, a))
  {
    hide NothingStocked, BigRelease, Stocked, Conserved, Step;
    if a.Release? {
      if Enabled(s, a) {
        ReleaseKeepsFew(s, a.who, a.update);
      } else {
        NotEnabled(s, a);
      }
    } else if NothingStocked(s) {
      StepStocksNothing(s, a);
    } else if Stocked(s) {
      StockedKeeps(s, a);
    } else {
      var i :| BigRelease(s, i);
      BigReleaseStocks(s, a, i);
    }
  }

  lemma NotEnabled(s: State, a: Action)
    requires !Enabled(s, a)
    ensures Step(s, a) == s
  {
  }

  lemma StepCount(s: State, a: Action)
    ensures |Step(s, a).threads| == |s.threads|
  {
  }

  lemma {:induction false} FewKeeps(count: nat, n: nat, acts: seq<Action>)
    requires n <= 4
    ensures FewInv(Run(count, n, acts)) && |Run(count, n, acts).threads| == n
    decreases |acts|
  {
    hide FewInv, Step;
    if acts == [] {
      NothingStockedYet(count, n);
      FewAtFirst(Initial(count, n));
    } else {
      var front := acts[..|acts| - 1];
      FewKeeps(count, n, front);
      RunConserves(count, n, front);
      FewStep(Run(count, n, front), acts[|acts| - 1]);
      StepCount(Run(count, n, front), acts[|acts| - 1]);
    }
  }

  lemma FewAtFirst(s: State)
    requires NothingStocked(s)
    ensures FewInv(s)
  {
  }

  /** Four threads never leave one of them stranded, whatever they release. */
  lemma FourStrandNobody(count: nat, n: nat, acts: seq<Action>)
    requires n <= 4
    ensures !Stranded(Run(count, n, acts))
  {
    hide Run, Tally;
    var s := Run(count, n, acts);
    FewKeeps(count, n, acts);
    if Stranded(s) {
      StrandedMeansBack(count, n, acts);
      TallyNone(Helps, s.threads);
      TallyNone(Giving, s.threads);
    }
  }

  // ---- a token that is never announced ----

  /** A run of 22 steps with five threads, from a count of 0. */
  function StrandingRun(): (acts: seq<Action>)
    ensures |acts| == 22
  {
    seq(22, k requires 0 <= k < 22 => Move(k))
  }

  function Move(k: nat): Action {
    // four threads wait, and a release of one is posted
    if k < 4 then Acquire(k)
    else if k == 4 then Release(4, 1)
    else if k == 5 then Stock(4)
    else if k == 6 then Post(4)
    else if k == 7 then Finish(4)
    // thread 0 wakes and takes two from the back buffer
    else if k == 8 then Wait(0)
    else if k == 9 then Backfill(0)
    // a release of three stocks one there and posts two
    else if k == 10 then Release(4, 3)
    else if k == 11 then Stock(4)
    else if k == 12 then Post(4)
    else if k == 13 then Post(4)
    else if k == 14 then Finish(4)
    // threads 1 and 2 wake, find the buffer negative and post nothing
    else if k == 15 then Wait(1)
    else if k == 16 then Backfill(1)
    else if k == 17 then Finish(1)
    else if k == 18 then Wait(2)
    else if k == 19 then Backfill(2)
    else if k == 20 then Finish(2)
    // thread 0 gives its two back
    else Finish(0)
  }

  function Five(a: Thread, b: Thread, c: Thread, d: Thread, e: Thread): seq<Thread> {
    [a, b, c, d, e]
  }

  lemma FiveUpdate(a: Thread, b: Thread, c: Thread, d: Thread, e: Thread, i: nat, t: Thread)
    requires i < 5
    ensures var q := Five(a, b, c, d, e);
      && |q| == 5
      && q[i] == (if i == 0 then a else if i == 1 then b else if i == 2 then c else if i == 3 then d else e)
      && q[i := t] == Five(if i == 0 then t else a, if i == 1 then t else b, if i == 2 then t else c,
                           if i == 3 then t else d, if i == 4 then t else e)
  {
    var q := Five(a, b, c, d, e);
    var r := Five(if i == 0 then t else a, if i == 1 then t else b, if i == 2 then t else c,
                  if i == 3 then t else d, if i == 4 then t else e);
    assert forall j | 0 <= j < 5 :: q[i := t][j] == r[j];
  }

  /** The states it goes through. */
  function Stage(k: nat): State {
    if k == 0 then State(0, 0, 0, Five(Outside, Outside, Outside, Outside, Outside), 0, 0, 0)
    else if k == 1 then State(0, -1, 0, Five(Waiting, Outside, Outside, Outside, Outside), 0, 0, 0)
    else if k == 2 then State(0, -2, 0, Five(Waiting, Waiting, Outside, Outside, Outside), 0, 0, 0)
    else if k == 3 then State(0, -3, 0, Five(Waiting, Waiting, Waiting, Outside, Outside), 0, 0, 0)
    else if k == 4 then State(0, -4, 0, Five(Waiting, Waiting, Waiting, Waiting, Outside), 0, 0, 0)
    else if k == 5 then State(0, -3, 0, Five(Waiting, Waiting, Waiting, Waiting, Releasing(1)), 0, 1, 0)
    else if k == 6 then State(0, -3, 0, Five(Waiting, Waiting, Waiting, Waiting, Posting(1)), 0, 1, 0)
    else if k == 7 then State(1, -3, 0, Five(Waiting, Waiting, Waiting, Waiting, Posting(0)), 0, 1, 0)
    else if k == 8 then State(1, -3, 0, Five(Waiting, Waiting, Waiting, Waiting, Outside), 0, 1, 0)
    else if k == 9 then State(0, -3, 0, Five(Woken, Waiting, Waiting, Waiting, Outside), 0, 1, 1)
    else if k == 10 then State(0, -3, -2, Five(Filling(0, 2), Waiting, Waiting, Waiting, Outside), 0, 1, 1)
    else if k == 11 then State(0, 0, -2, Five(Filling(0, 2), Waiting, Waiting, Waiting, Releasing(3)), 0, 4, 1)
    else if k == 12 then State(0, 0, -1, Five(Filling(0, 2), Waiting, Waiting, Waiting, Posting(2)), 0, 4, 1)
    else if k == 13 then State(1, 0, -1, Five(Filling(0, 2), Waiting, Waiting, Waiting, Posting(1)), 0, 4, 1)
    else if k == 14 then State(2, 0, -1, Five(Filling(0, 2), Waiting, Waiting, Waiting, Posting(0)), 0, 4, 1)
    else if k == 15 then State(2, 0, -1, Five(Filling(0, 2), Waiting, Waiting, Waiting, Outside), 0, 4, 1)
    else if k == 16 then State(1, 0, -1, Five(Filling(0, 2), Woken, Waiting, Waiting, Outside), 0, 4, 2)
    else if k == 17 then State(1, 0, -3, Five(Filling(0, 2), Filling(0, 2), Waiting, Waiting, Outside), 0, 4, 2)
    else if k == 18 then State(1, 0, -1, Five(Filling(0, 2), Outside, Waiting, Waiting, Outside), 0, 4, 2)
    else if k == 19 then State(0, 0, -1, Five(Filling(0, 2), Outside, Woken, Waiting, Outside), 0, 4, 3)
    else if k == 20 then State(0, 0, -3, Five(Filling(0, 2), Outside, Filling(0, 2), Waiting, Outside), 0, 4, 3)
    else if k == 21 then State(0, 0, -1, Five(Filling(0, 2), Outside, Outside, Waiting, Outside), 0, 4, 3)
    else State(0, 0, 1, Five(Outside, Outside, Outside, Waiting, Outside), 0, 4, 3)
  }

  lemma StagesA(k: nat)
    requires 0 <= k < 6
    ensures Step(Stage(k), Move(k)) == Stage(k + 1)
  {
    hide Five;
    if k == 0 {
      FiveUpdate(Outside, Outside, Outside, Outside, Outside, 0, Waiting);
    } else if k == 1 {
      FiveUpdate(Waiting, Outside, Outside, Outside, Outside, 1, Waiting);
    } else if k == 2 {
      FiveUpdate(Waiting, Waiting, Outside, Outside, Outside, 2, Waiting);
    } else if k == 3 {
      FiveUpdate(Waiting, Waiting, Waiting, Outside, Outside, 3, Waiting);
    } else if k == 4 {
      FiveUpdate(Waiting, Waiting, Waiting, Waiting, Outside, 4, Releasing(1));
    } else {
      assert k == 5;
      FiveUpdate(Waiting, Waiting, Waiting, Waiting, Releasing(1), 4, Posting(1));
    }
  }

  lemma StagesB(k: nat)
    requires 6 <= k < 9
    ensures Step(Stage(k), Move(k)) == Stage(k + 1)
  {
    hide Five;
    if k == 6 {
      FiveUpdate(Waiting, Waiting, Waiting, Waiting, Posting(1), 4, Posting(0));
    } else if k == 7 {
      FiveUpdate(Waiting, Waiting, Waiting, Waiting, Posting(0), 4, Outside);
    } else {
      assert k == 8;
      FiveUpdate(Waiting, Waiting, Waiting, Waiting, Outside, 0, Woken);
    }
  }

  lemma StagesC(k: nat)
    requires 9 <= k < 12
    ensures Step(Stage(k), Move(k)) == Stage(k + 1)
  {
    hide Five;
    if k == 9 {
      FiveUpdate(Woken, Waiting, Waiting, Waiting, Outside, 0, Filling(0, 2));
    } else if k == 10 {
      FiveUpdate(Filling(0, 2), Waiting, Waiting, Waiting, Outside, 4, Releasing(3));
    } else {
      assert k == 11;
      FiveUpdate(Filling(0, 2), Waiting, Waiting, Waiting, Releasing(3), 4, Posting(2));
    }
  }

  lemma StagesD(k: nat)
    requires 12 <= k < 17
    ensures Step(Stage(k), Move(k)) == Stage(k + 1)
  {
    hide Five;
    if k == 12 {
      FiveUpdate(Filling(0, 2), Waiting, Waiting, Waiting, Posting(2), 4, Posting(1));
    } else if k == 13 {
      FiveUpdate(Filling(0, 2), Waiting, Waiting, Waiting, Posting(1), 4, Posting(0));
    } else if k == 14 {
      FiveUpdate(Filling(0, 2), Waiting, Waiting, Waiting, Posting(0), 4, Outside);
    } else if k == 15 {
      FiveUpdate(Filling(0, 2), Waiting, Waiting, Waiting, Outside, 1, Woken);
    } else {
      assert k == 16;
      FiveUpdate(Filling(0, 2), Woken, Waiting, Waiting, Outside, 1, Filling(0, 2));
    }
  }

  lemma StagesE(k: nat)
    requires 17 <= k < 22
    ensures Step(Stage(k), Move(k)) == Stage(k + 1)
  {
    hide Five;
    if k == 17 {
      FiveUpdate(Filling(0, 2), Filling(0, 2), Waiting, Waiting, Outside, 1, Outside);
    } else if k == 18 {
      FiveUpdate(Filling(0, 2), Outside, Waiting, Waiting, Outside, 2, Woken);
    } else if k == 19 {
      FiveUpdate(Filling(0, 2), Outside, Woken, Waiting, Outside, 2, Filling(0, 2));
    } else if k == 20 {
      FiveUpdate(Filling(0, 2), Outside, Filling(0, 2), Waiting, Outside, 2, Outside);
    } else {
      assert k == 21;
      FiveUpdate(Filling(0, 2), Outside, Outside, Waiting, Outside, 0, Outside);
    }
  }

  lemma {:induction false} StagesReached(k: nat)
    requires k <= |StrandingRun()|
    ensures Run(0, 5, StrandingRun()[..k]) == Stage(k)
  {
    hide Step, Stage, Run, Five, Move;
    var h := StrandingRun();
    if k == 0 {
      StagesStart();
      assert h[..0] == [];
    } else {
      StagesReached(k - 1);
      RunNext(0, 5, h[..k - 1], h[k - 1]);
      assert h[..k] == h[..k - 1] + [h[k - 1]];
      if k <= 6 {
        StagesA(k - 1);
      } else if k <= 9 {
        StagesB(k - 1);
      } else if k <= 12 {
        StagesC(k - 1);
      } else if k <= 17 {
        StagesD(k - 1);
      } else {
        StagesE(k - 1);
      }
    }
  }

  lemma StagesStart()
    ensures Run(0, 5, []) == Stage(0)
  {
    assert seq(5, _ => Outside) == [Outside, Outside, Outside, Outside, Outside];
  }

  lemma RunNext(count: nat, n: nat, acts: seq<Action>, a: Action)
    ensures Run(count, n, acts + [a]) == Step(Run(count, n, acts), a)
  {
    assert (acts + [a])[..|acts|] == acts;
  }

  /** Four tokens were released and three acquires got through, yet thread 3
      sleeps and no post is on its way. A later release does not wake it
      either: the front buffer is no longer negative. */
  lemma StrandingRunStrands(update: nat)
    ensures var s := Run(0, 5, StrandingRun());
      && Stranded(s) && s.threads == [Outside, Outside, Outside, Waiting, Outside] && s.released == 4 && s.acquired == 3
      && var t := Step(s, Release(4, update)); Quiet(t) && t.kernel == 0 && t.threads == s.threads
  {
    hide Run;
    StagesReached(22);
    assert StrandingRun()[..22] == StrandingRun();
    var waits := [Outside, Outside, Outside, Waiting, Outside];
    TallyNone(Slow, waits[..3]);
    assert waits[..4][..3] == waits[..3];
    assert Tally(Slow, waits[..4]) == 1;
  }

  // ---- exactly when somebody can be stranded ----

  /** Only recorded numbers differ. */
  function Plus(s: State, c: nat): State {
    s.(initial := s.initial + c, acquired := s.acquired + c)
  }

  function Idle(k: nat): (r: seq<Thread>)
    ensures |r| == k
  {
    seq(k, _ => Outside)
  }

  /** The same with k more threads that do nothing and c more tokens at first,
      which have been acquired. */
  function Wider(s: State, k: nat, c: nat): State {
    Plus(s.(threads := s.threads + Idle(k)), c)
  }

  lemma StepWider(s: State, k: nat, c: nat, a: Action)
    requires a.who < |s.threads|
    ensures Step(Wider(s, k, c), a) == Wider(Step(s, a), k, c)
  {
    var i, more := a.who, Idle(k);
    assert (s.threads + more)[i] == s.threads[i];
    var t := Step(s, a).threads[i];
    assert (s.threads + more)[i := t] == s.threads[i := t] + more;
  }

  lemma {:induction false} TallyIdle(f: Thread -> nat, threads: seq<Thread>, k: nat)
    requires f(Outside) == 0
    ensures Tally(f, threads + Idle(k)) == Tally(f, threads)
    decreases k
  {
    var all := threads + Idle(k);
    if k == 0 {
      assert all == threads;
    } else {
      assert all[..|all| - 1] == threads + Idle(k - 1);
      TallyIdle(f, threads, k - 1);
    }
  }

  /** Thread 0 acquires k times and never waits. */
  function Taking(k: nat): (acts: seq<Action>)
    ensures |acts| == k && forall a | a in acts :: a.Acquire?
  {
    seq(k, _ => Acquire(0))
  }

  lemma RunNone(count: nat, n: nat)
    ensures Run(count, n, []) == Initial(count, n)
  {
  }

  lemma {:induction false} TakingLeaves(count: nat, n: nat, k: nat)
    requires k <= count && n > 0
    ensures Run(count, n, Taking(k)) == Initial(count, n).(front := count - k, acquired := k)
    decreases k
  {
    hide Run;
    if k == 0 {
      RunNone(count, n);
    } else {
      TakingLeaves(count, n, k - 1);
      assert Taking(k) == Taking(k - 1) + [Acquire(0)];
      RunNext(count, n, Taking(k - 1), Acquire(0));
    }
  }

  lemma StartWider(count: nat, n: nat)
    requires n >= 5
    ensures Run(count, n, Taking(count)) == Wider(Initial(0, 5), n - 5, count)
  {
    TakingLeaves(count, n, count);
    assert Initial(count, n).threads == Initial(0, 5).threads + Idle(n - 5);
  }

  lemma {:induction false} RunWider(count: nat, n: nat, acts: seq<Action>)
    requires n >= 5 && forall a | a in acts :: a.who < 5
    ensures |Run(0, 5, acts).threads| == 5
    ensures Run(count, n, Taking(count) + acts) == Wider(Run(0, 5, acts), n - 5, count)
    decreases |acts|
  {
    hide Step, Wider;
    if acts == [] {
      StartWider(count, n);
      assert Taking(count) + acts == Taking(count);
    } else {
      var front, a := acts[..|acts| - 1], acts[|acts| - 1];
      RunWider(count, n, front);
      assert a in acts && Taking(count) + acts == Taking(count) + front + [a];
      RunNext(count, n, Taking(count) + front, a);
      StepWider(Run(0, 5, front), n - 5, count, a);
      StepCount(Run(0, 5, front), a);
    }
  }

  lemma StrandedWider(s: State, k: nat, c: nat)
    requires Stranded(s)
    ensures Stranded(Wider(s, k, c))
  {
    TallyIdle(Slow, s.threads, k);
  }

  lemma ThreeAtMost()
    ensures ReleasesAtMost(StrandingRun(), 3) && forall a | a in StrandingRun() :: a.who < 5
  {
    forall k: nat
      ensures Move(k).who < 5 && (Move(k).Release? ==> Move(k).update <= 3)
    {
    }
  }

  lemma TakingFirst(count: nat, acts: seq<Action>, b: nat)
    requires ReleasesAtMost(acts, b)
    ensures ReleasesAtMost(Taking(count) + acts, b)
  {
  }

  lemma ItStrands()
    ensures Stranded(Run(0, 5, StrandingRun()))
  {
    StrandingRunStrands(0);
  }

  lemma StrandsWider(count: nat, n: nat) returns (acts: seq<Action>)
    requires n >= 5
    ensures ReleasesAtMost(acts, 3) && Stranded(Run(count, n, acts))
  {
    hide *;
    acts := Taking(count) + StrandingRun();
    ThreeAtMost();
    TakingFirst(count, StrandingRun(), 3);
    ItStrands();
    RunWider(count, n, StrandingRun());
    StrandedWider(Run(0, 5, StrandingRun()), n - 5, count);
  }

  /** Somebody can be left stranded if and only if there are at least five
      threads and releases of three or more are made, whatever the count at the
      start. */
  lemma StrandsExactly(count: nat, n: nat, b: nat)
    ensures (exists acts :: ReleasesAtMost(acts, b) && Stranded(Run(count, n, acts))) <==> b >= 3 && n >= 5
  {
    hide Run, Stranded;
    if b >= 3 && n >= 5 {
      var acts := StrandsWider(count, n);
      assert ReleasesAtMost(acts, b);
    }
    forall acts | ReleasesAtMost(acts, b)
      ensures Stranded(Run(count, n, acts)) ==> b >= 3 && n >= 5
    {
      if b <= 2 {
        SmallReleasesStrandNobody(count, n, acts);
      } else if n <= 4 {
        FourStrandNobody(count, n, acts);
      }
    }
  }

  // ---- calls that nobody interferes with ----

  /** The rest of a call that has only posts and give-backs left. */
  function Settle(s: State, i: nat): State
    requires i < |s.threads| && (s.threads[i].Filling? || s.threads[i].Posting?)
    decreases s.threads[i].posts
  {
    if s.threads[i].posts > 0 then Settle(Step(s, Post(i)), i) else Step(s, Finish(i))
  }

  lemma {:induction false} SettleEffect(s: State, i: nat)
    requires i < |s.threads| && (s.threads[i].Filling? || s.threads[i].Posting?)
    ensures Settle(s, i)
         == Become(s.(kernel := s.kernel + s.threads[i].posts, back := s.back + Giving(s.threads[i])), i, Outside)
    decreases s.threads[i].posts
  {
    if s.threads[i].posts > 0 {
      SettleEffect(Step(s, Post(i)), i);
    }
  }

  /** release by itself: two tokens at most are posted, the rest is stocked. */
  lemma ReleaseAlone(s: State, i: nat, update: nat)
    requires i < |s.threads| && s.threads[i].Outside? && s.front < 0
    ensures var released := Step(s, Release(i, update)); var stocked := Step(released, Stock(i));
      var post := Min(update, -s.front);
      && released.threads[i].Releasing? && stocked.threads[i].Posting?
      && Settle(stocked, i)
         == s.(front := s.front + update, released := s.released + update,
               kernel := s.kernel + Min(post, 2), back := s.back + post - Min(post, 2))
  {
    var stocked := Step(Step(s, Release(i, update)), Stock(i));
    SettleEffect(stocked, i);
    assert s.threads[i := Releasing(Min(update, -s.front))][i := stocked.threads[i]][i := Outside] == s.threads;
  }

  /** A slow acquire by itself, once there is a post: up to two tokens move from
      the back buffer to the kernel semaphore. */
  lemma AcquireAlone(s: State, i: nat)
    requires i < |s.threads| && s.threads[i].Waiting? && s.kernel > 0
    ensures var woken := Step(s, Wait(i)); var filling := Step(woken, Backfill(i));
      var moved := Min(2, if s.back > 0 then s.back else 0);
      && woken.threads[i].Woken? && filling.threads[i].Filling?
      && Settle(filling, i)
         == Become(s.(acquired := s.acquired + 1, kernel := s.kernel - 1 + moved, back := s.back - moved), i, Outside)
  {
    var filling := Step(Step(s, Wait(i)), Backfill(i));
    SettleEffect(filling, i);
    assert s.threads[i := Woken][i := filling.threads[i]][i := Outside] == s.threads[i := Outside];
  }

  // ---- the semaphore itself ----

  /** What a call does that nobody interferes with: the steps in a row. */
  class SemaphoreBase {
    var kernel: nat
    var front: int
    var back: int

    constructor (count: nat)
      ensures kernel == 0 && front == count && back == 0
    {
      kernel, front, back := 0, count, 0;
    }

    /** acquire; it sleeps for ever if there is neither a token in the front
        buffer nor a post. The backfill moves up to two posts from the back
        buffer to the kernel semaphore and loses none. */
    method Acquire()
      requires front > 0 || kernel > 0
      modifies this
      ensures front == old(front) - 1
      ensures old(front) > 0 ==> kernel == old(kernel) && back == old(back)
      ensures old(front) <= 0 ==>
        (kernel + back == old(kernel) + old(back) - 1
            && kernel == old(kernel) - 1 + Min(2, if old(back) > 0 then old(back) else 0))
    {
      var before := front;
      front := front - 1;
      if before > 0 {
        return;
      }
      kernel := kernel - 1;
      Backfill();
    }

    method Backfill()
      modifies this
      ensures front == old(front) && kernel + back == old(kernel) + old(back)
      ensures kernel == old(kernel) + Min(2, if old(back) > 0 then old(back) else 0)
    {
      var backAmount := back;
      back := back - 2;
      var postOne, postTwo := backAmount > 0, backAmount > 1;
      if postOne {
        kernel := kernel + 1;
      }
      if postTwo {
        kernel := kernel + 1;
      }
      if !postOne || !postTwo {
        back := back + if !postOne then 2 else 1;
      }
    }

    /** release: as many tokens as there are sleepers short go to the kernel
        semaphore, two of them at most directly. */
    method Release(update: nat)
      modifies this
      ensures front == old(front) + update
      ensures var post := if old(front) >= 0 then 0 else Min(update, -old(front));
        kernel == old(kernel) + Min(post, 2) && back == old(back) + post - Min(post, 2)
    {
      var before := front;
      front := front + update;
      if before >= 0 {
        return;
      }
      var postAmount := Min(update, -before);
      if postAmount > 2 {
        back := back + postAmount - 2;
      }
      if postAmount > 0 {
        kernel := kernel + 1;
      }
      if postAmount > 1 {
        kernel := kernel + 1;
      }
    }
  }
}
