/** The butterfly (dissemination) barrier of utils/include/barrier.h with ids
    0..count-1, any number of phases, any interleaving: some threads may be in
    the next phase already while others have not left this one. In round k a
    thread sets a flag of the thread 2^k further on and waits for its own;
    thread 0 then advances the phase. Each store and each load is one step. */
module ButterflyBarrier {
  import opened Cyclic

  /** A thread's position: 0 before arrive loads the phase, 2k+1 when about to
      store in round k, 2k+2 when waiting in round k, 2*steps+1 when through all
      rounds, 2*steps+2 in wait. The flags are state[id].v[index], `seen` is what
      arrive has loaded. `turns` and `epoch` are only recorded: how often the
      phase has advanced, and how often a thread's wait has returned. */
  datatype State = State(
    count: nat, steps: nat, phase: nat, flags: seq<seq<nat>>, seen: seq<nat>, pos: seq<nat>,
    turns: nat, epoch: seq<nat>)

  /** __next_phase: (phase + 1) & 3. */
  function NextPhase(phase: nat): nat {
    (phase + 1) % 4
  }

  function Zeros(n: nat): (z: seq<nat>)
    ensures |z| == n && forall i | 0 <= i < n :: z[i] == 0
  {
    seq(n, _ => 0)
  }

  function Initial(count: nat): State
    requires count > 0
  {
    var steps := Log2Ceil(count);
    State(count, steps, 0, seq(count, _ => Zeros(steps)), Zeros(count), Zeros(count), 0, Zeros(count))
  }

  /** The thread whose flag thread id sets in round k. */
  function Target(count: nat, id: nat, k: nat): (t: nat)
    requires count > 0
    ensures t < count
  {
    (id + Pow2(k)) % count
  }

  ghost predicate Shaped(s: State) {
    && s.count > 0 && s.steps == Log2Ceil(s.count)
    && |s.flags| == |s.seen| == |s.pos| == |s.epoch| == s.count
    && (forall j | 0 <= j < s.count :: |s.flags[j]| == s.steps)
    && (forall i | 0 <= i < s.count :: s.pos[i] <= 2 * s.steps + 2)
  }

  function Move(s: State, id: nat, p: nat): State
    requires id < |s.pos|
  {
    s.(pos := s.pos[id := p])
  }

  /** The next step of thread id; a load that finds the old phase changes
      nothing. */
  function Step(s: State, id: nat): (t: State)
    requires Shaped(s)
    ensures Shaped(t) && t.count == s.count && t.steps == s.steps
  {
    if id >= s.count then s
    else
      var p := s.pos[id];
      if p == 0 then Move(s.(seen := s.seen[id := s.phase]), id, 1)
      else if p == 2 * s.steps + 1 then
        var t := Move(s, id, p + 1);
        if id == 0 then t.(phase := NextPhase(s.seen[0]), turns := s.turns + 1) else t
      else if p == 2 * s.steps + 2 then
        if s.phase == s.seen[id] then s else Move(s.(epoch := s.epoch[id := s.epoch[id] + 1]), id, 0)
      else
        var k := (p - 1) / 2;
        var index := s.steps - k - 1;
        if p % 2 == 1 then
          var t := Target(s.count, id, k);
          var row: seq<nat> := s.flags[t][index := NextPhase(s.seen[id])];
          Move(s.(flags := s.flags[t := row]), id, p + 1)
        else if s.flags[id][index] == s.seen[id] then s
        else Move(s, id, p + 1)
  }

  function Run(count: nat, ids: seq<nat>): (s: State)
    requires count > 0
    ensures Shaped(s) && s.count == count
  {
    if ids == [] then Initial(count)
    else Step(Run(count, ids[..|ids| - 1]), ids[|ids| - 1])
  }

  // ---- who sets a flag ----

  /** The only thread that sets j's flag of round k. */
  function Writer(count: nat, j: nat, k: nat): (w: nat)
    requires count > 0
    ensures w < count
  {
    (j - Pow2(k)) % count
  }

  lemma WriterOfTarget(count: nat, w: nat, k: nat)
    requires w < count
    ensures Writer(count, Target(count, w, k), k) == w
  {
    var p: int := Pow2(k);
    ModAdd(w + p, -p, count);
    ModSmall(w, count);
  }

  lemma TargetOfWriter(count: nat, j: nat, k: nat)
    requires j < count
    ensures Target(count, Writer(count, j, k), k) == j
  {
    ModAdd(j - Pow2(k), Pow2(k), count);
    ModSmall(j, count);
  }

  /** The thread d places behind i. */
  function Behind(count: nat, i: nat, d: nat): (b: nat)
    requires count > 0
    ensures b < count
  {
    (i - d) % count
  }

  lemma BehindWriter(count: nat, i: nat, k: nat, d: nat)
    requires count > 0
    ensures Behind(count, Writer(count, i, k), d) == Behind(count, i, Pow2(k) + d)
  {
    hide Pow2;
    var p := Pow2(k);
    ModSub(i - p, d, count);
    SameMod(i - p - d, i - (p + d), count);
  }

  lemma EverybodyIsBehind(count: nat, i: nat, j: nat)
    requires i < count && j < count
    ensures Behind(count, i, (i - j) % count) == j
  {
    var d := (i - j) % count;
    assert i - j == count * ((i - j) / count) + d;
    ModUnique(i - d, count, (i - j) / count, j);
  }

  // ---- the invariant ----

  /** How many times thread i has arrived. */
  function Arrivals(s: State, i: nat): nat
    requires Shaped(s) && i < s.count
  {
    s.epoch[i] + if s.pos[i] > 0 then 1 else 0
  }

  /** How many times it has set its flag of round k. */
  function Stores(s: State, i: nat, k: nat): nat
    requires Shaped(s) && i < s.count
  {
    s.epoch[i] + if s.pos[i] >= 2 * k + 2 then 1 else 0
  }

  /** How many times it has found its own flag of round k set. */
  function Finds(s: State, i: nat, k: nat): nat
    requires Shaped(s) && i < s.count
  {
    s.epoch[i] + if s.pos[i] >= 2 * k + 3 then 1 else 0
  }

  /** Thread i has passed rounds 0..k-1 of its phase. */
  predicate Passed(s: State, i: nat, k: nat)
    requires i < |s.pos|
  {
    s.pos[i] >= 2 * k + 1
  }

  /** Thread j's flag of round k. */
  function Flag(s: State, j: nat, k: nat): nat
    requires Shaped(s) && j < s.count && k < s.steps
  {
    s.flags[j][s.steps - k - 1]
  }

  ghost predicate FlagsRight(s: State)
    requires Shaped(s)
  {
    forall j, k | 0 <= j < s.count && 0 <= k < s.steps ::
      Flag(s, j, k) == Stores(s, Writer(s.count, j, k), k) % 4
  }

  /** What a thread has found set has been set as often. */
  ghost predicate Fed(s: State)
    requires Shaped(s)
  {
    forall j, k | 0 <= j < s.count && 0 <= k < s.steps :: Stores(s, Writer(s.count, j, k), k) >= Finds(s, j, k)
  }

  ghost predicate SeenRight(s: State)
    requires Shaped(s)
  {
    forall i | 0 <= i < s.count && s.pos[i] > 0 :: s.seen[i] == s.epoch[i] % 4
  }

  /** The phase is thread 0's, has not advanced further than everybody has
      arrived, and nobody's wait has returned more often than it advanced. */
  ghost predicate TurnsRight(s: State)
    requires Shaped(s)
  {
    && s.phase == s.turns % 4
    && s.turns == s.epoch[0] + (if s.pos[0] == 2 * s.steps + 2 then 1 else 0)
    && forall i | 0 <= i < s.count :: s.epoch[i] <= s.turns <= Arrivals(s, i)
  }

  /** Whoever has passed rounds 0..k-1 has everyone less than 2^k places behind
      it arrived in this phase. */
  ghost predicate Covered(s: State)
    requires Shaped(s)
  {
    forall i, k | 0 <= i < s.count && 0 <= k <= s.steps && Passed(s, i, k) :: AllBehind(s, i, k)
  }

  ghost predicate AllBehind(s: State, i: nat, k: nat)
    requires Shaped(s) && i < s.count
  {
    forall d | 0 <= d < Pow2(k) :: Arrivals(s, Behind(s.count, i, d)) > s.epoch[i]
  }

  ghost predicate Inv(s: State) {
    Shaped(s) && FlagsRight(s) && Fed(s) && SeenRight(s) && TurnsRight(s) && Covered(s)
  }

  lemma InitialInv(count: nat)
    requires count > 0
    ensures Inv(Initial(count))
  {
  }

  // ---- every step keeps it ----

  lemma CoverStays(s: State, t: State)
    requires Shaped(s) && Shaped(t) && Covered(s) && t.count == s.count && t.steps == s.steps
    requires forall i, k | 0 <= i < s.count && 0 <= k <= s.steps && Passed(t, i, k) ::
      Passed(s, i, k) && t.epoch[i] == s.epoch[i]
    requires forall i | 0 <= i < s.count :: Arrivals(t, i) >= Arrivals(s, i)
    ensures Covered(t)
  {
    hide Behind;
    forall i, k | 0 <= i < t.count && 0 <= k <= t.steps && Passed(t, i, k)
      ensures AllBehind(t, i, k)
    {
      assert Passed(s, i, k) && AllBehind(s, i, k);
    }
  }

  lemma ItselfBehind(s: State, id: nat)
    requires Shaped(s) && id < s.count && s.pos[id] > 0
    ensures AllBehind(s, id, 0)
  {
    ModSmall(id, s.count);
    assert forall d | 0 <= d < Pow2(0) :: Behind(s.count, id, d) == id;
  }

  lemma LoadKeeps(s: State, id: nat)
    requires Inv(s) && id < s.count && s.pos[id] == 0
    ensures Inv(Step(s, id))
  {
    hide Writer, Behind, Pow2;
    var t := Step(s, id);
    forall i, k | 0 <= i < t.count && 0 <= k <= t.steps && Passed(t, i, k)
      ensures AllBehind(t, i, k)
    {
      if i != id {
        assert Passed(s, i, k) && AllBehind(s, i, k);
      } else {
        ItselfBehind(t, id);
      }
    }
  }

  lemma StoreEffect(s: State, id: nat, k: nat)
    requires Shaped(s) && id < s.count && k < s.steps && s.pos[id] == 2 * k + 1
    ensures var t := Step(s, id); var hit := Target(s.count, id, k);
      && t == s.(flags := t.flags, pos := s.pos[id := 2 * k + 2])
      && forall j, i | 0 <= j < s.count && 0 <= i < s.steps ::
           Flag(t, j, i) == if j == hit && i == k then NextPhase(s.seen[id]) else Flag(s, j, i)
  {
    hide Target;
  }

  lemma StoreKeepsFlags(s: State, t: State, id: nat, k: nat)
    requires Inv(s) && Shaped(t) && id < s.count && k < s.steps && s.pos[id] == 2 * k + 1
    requires t == s.(flags := t.flags, pos := s.pos[id := 2 * k + 2])
    requires forall j, i | 0 <= j < s.count && 0 <= i < s.steps ::
      Flag(t, j, i) == if j == Target(s.count, id, k) && i == k then NextPhase(s.seen[id]) else Flag(s, j, i)
    ensures FlagsRight(t)
  {
    hide Writer, Target, Covered, Pow2, Flag, Fed, TurnsRight;
    WriterOfTarget(s.count, id, k);
    forall j, i | 0 <= j < s.count && 0 <= i < s.steps
      ensures Flag(t, j, i) == Stores(t, Writer(s.count, j, i), i) % 4
    {
      if i == k && j != Target(s.count, id, k) {
        TargetOfWriter(s.count, j, k);
      }
    }
  }

  lemma StoreKeeps(s: State, id: nat, k: nat)
    requires Inv(s) && id < s.count && k < s.steps && s.pos[id] == 2 * k + 1
    ensures Inv(Step(s, id))
  {
    hide Writer, Target, Covered, Pow2, Step, Flag, FlagsRight;
    var t := Step(s, id);
    StoreEffect(s, id, k);
    StoreKeepsFlags(s, t, id, k);
    CoverStays(s, t);
  }

  /** A thread that waits in round k finds its flag changed if and only if its
      writer has set it in this phase; that the values wrap does not matter. */
  lemma FlagTells(s: State, i: nat, k: nat)
    requires Inv(s) && i < s.count && k < s.steps && s.pos[i] == 2 * k + 2
    ensures Flag(s, i, k) != s.seen[i] <==> Stores(s, Writer(s.count, i, k), k) > s.epoch[i]
  {
    hide Writer, Covered, Flag;
    var w := Writer(s.count, i, k);
    StoredAtMost(s, i, w, k);
    assert Flag(s, i, k) == Stores(s, w, k) % 4;
    assert Stores(s, w, k) >= Finds(s, i, k) == s.epoch[i];
    WithinTwo(s.epoch[i], Stores(s, w, k));
  }

  lemma StoredAtMost(s: State, i: nat, w: nat, k: nat)
    requires Shaped(s) && TurnsRight(s) && i < s.count && w < s.count
    ensures Stores(s, w, k) <= s.epoch[i] + 2
  {
    assert s.epoch[w] <= s.turns <= Arrivals(s, i);
  }

  lemma WithinTwo(a: nat, b: nat)
    requires a <= b <= a + 2
    ensures a % 4 == b % 4 <==> a == b
  {
  }

  /** Finding the flag set: what the writer covered is now covered too. */
  lemma PassCovers(s: State, id: nat, k: nat)
    requires Inv(s) && id < s.count && k < s.steps && s.pos[id] == 2 * k + 2
    requires Flag(s, id, k) != s.seen[id]
    ensures AllBehind(s, id, k + 1)
  {
    hide Writer, Behind;
    FlagTells(s, id, k);
    var w := Writer(s.count, id, k);
    assert Passed(s, id, k) && AllBehind(s, id, k);
    if s.epoch[w] == s.epoch[id] {
      assert Passed(s, w, k) && AllBehind(s, w, k);
      forall d | 0 <= d < Pow2(k + 1)
        ensures Arrivals(s, Behind(s.count, id, d)) > s.epoch[id]
      {
        if d >= Pow2(k) {
          BehindWriter(s.count, id, k, d - Pow2(k));
        }
      }
    }
  }

  lemma PassKeepsCover(s: State, t: State, id: nat, k: nat)
    requires Shaped(s) && Shaped(t) && Covered(s) && id < s.count && k < s.steps && s.pos[id] == 2 * k + 2
    requires t == s.(pos := s.pos[id := 2 * k + 3]) && AllBehind(s, id, k + 1)
    ensures Covered(t)
  {
    hide Behind, Pow2;
    forall i, j | 0 <= i < t.count && 0 <= j <= t.steps && Passed(t, i, j)
      ensures AllBehind(t, i, j)
    {
      assert AllBehind(s, i, j) by {
        if i != id || j != k + 1 {
          assert Passed(s, i, j);
        }
      }
    }
  }

  lemma PassKeeps(s: State, id: nat, k: nat)
    requires Inv(s) && id < s.count && k < s.steps && s.pos[id] == 2 * k + 2
    requires Flag(s, id, k) != s.seen[id]
    ensures Inv(Step(s, id))
  {
    hide Writer, Pow2, Step, AllBehind, Covered;
    PassEffect(s, id, k);
    PassCovers(s, id, k);
    FlagTells(s, id, k);
    PassKeepsCover(s, Step(s, id), id, k);
  }

  lemma PassEffect(s: State, id: nat, k: nat)
    requires Shaped(s) && id < s.count && k < s.steps && s.pos[id] == 2 * k + 2
    requires Flag(s, id, k) != s.seen[id]
    ensures Step(s, id) == s.(pos := s.pos[id := 2 * k + 3])
  {
    hide Target;
  }

  /** Thread 0 is through: everybody has arrived. */
  lemma AllRounds(s: State, i: nat, j: nat)
    requires Inv(s) && i < s.count && j < s.count && Passed(s, i, s.steps)
    ensures Arrivals(s, j) > s.epoch[i]
  {
    hide FlagsRight, Fed, TurnsRight;
    var d := (i - j) % s.count;
    CeilIsLeast(s.count, s.steps);
    EverybodyIsBehind(s.count, i, j);
    assert AllBehind(s, i, s.steps);
  }

  lemma ReturnKeeps(s: State, id: nat)
    requires Inv(s) && id < s.count && s.pos[id] == 2 * s.steps + 1
    ensures Inv(Step(s, id))
  {
    hide Writer, Covered, Pow2, Target;
    var t := Step(s, id);
    forall j | 0 <= j < s.count
      ensures t.turns <= Arrivals(t, j)
    {
      if id == 0 {
        AllRounds(s, 0, j);
      }
    }
    CoverStays(s, t);
  }

  lemma WaitKeeps(s: State, id: nat)
    requires Inv(s) && id < s.count && s.pos[id] == 2 * s.steps + 2
    ensures Inv(Step(s, id))
    ensures s.phase != s.seen[id] <==> s.turns > s.epoch[id]
  {
    hide Writer, Covered, Pow2, Step, Stores, Finds;
    var t := Step(s, id);
    WaitEffect(s, id);
    if s.phase != s.seen[id] {
      ReturnedSame(s, t, id);
      CoverStays(s, t);
    }
  }

  /** A return from wait changes the counting by phases, not what is counted. */
  lemma ReturnedSame(s: State, t: State, id: nat)
    requires Shaped(s) && Shaped(t) && id < s.count && s.pos[id] == 2 * s.steps + 2
    requires t == s.(epoch := s.epoch[id := s.epoch[id] + 1], pos := s.pos[id := 0])
    ensures forall i, k | 0 <= i < s.count && 0 <= k < s.steps ::
      Stores(t, i, k) == Stores(s, i, k) && Finds(t, i, k) == Finds(s, i, k)
    ensures forall i | 0 <= i < s.count :: Arrivals(t, i) == Arrivals(s, i)
  {
  }

  lemma WaitEffect(s: State, id: nat)
    requires Shaped(s) && id < s.count && s.pos[id] == 2 * s.steps + 2
    ensures s.phase == s.seen[id] ==> Step(s, id) == s
    ensures s.phase != s.seen[id] ==>
      Step(s, id) == s.(epoch := s.epoch[id := s.epoch[id] + 1], pos := s.pos[id := 0])
  {
    hide Target;
  }

  lemma StepKeeps(s: State, id: nat)
    requires Inv(s)
    ensures Inv(Step(s, id))
  {
    hide FlagsRight, Fed, SeenRight, TurnsRight, Covered, Pow2;
    if id < s.count {
      var p := s.pos[id];
      if p == 0 {
        LoadKeeps(s, id);
      } else if p == 2 * s.steps + 1 {
        ReturnKeeps(s, id);
      } else if p == 2 * s.steps + 2 {
        WaitKeeps(s, id);
      } else if p % 2 == 1 {
        StoreKeeps(s, id, (p - 1) / 2);
      } else if s.flags[id][s.steps - (p - 1) / 2 - 1] != s.seen[id] {
        PassKeeps(s, id, (p - 1) / 2);
      }
    }
  }

  lemma {:induction false} RunKeeps(count: nat, ids: seq<nat>)
    requires count > 0
    ensures Inv(Run(count, ids))
    decreases |ids|
  {
    hide Inv, Step;
    if ids == [] {
      InitialInv(count);
    } else {
      RunKeeps(count, ids[..|ids| - 1]);
      StepKeeps(Run(count, ids[..|ids| - 1]), ids[|ids| - 1]);
    }
  }

  // ---- every run ----

  /** In every run, passing rounds 0..k-1 of a phase means that everyone less
      than 2^k places behind has arrived in that phase. */
  lemma PassedMeansCovered(count: nat, ids: seq<nat>, i: nat, k: nat, d: nat)
    requires count > 0 && i < count
    requires var s := Run(count, ids); k <= s.steps && Passed(s, i, k) && d < Pow2(k)
    ensures var s := Run(count, ids); Arrivals(s, Behind(count, i, d)) > s.epoch[i]
  {
    RunKeeps(count, ids);
    assert AllBehind(Run(count, ids), i, k);
  }

  /** Whoever is through all rounds of a phase has everybody arrived in it. */
  lemma ThroughMeansAll(count: nat, ids: seq<nat>, i: nat, j: nat)
    requires count > 0 && i < count && j < count && Passed(Run(count, ids), i, Run(count, ids).steps)
    ensures var s := Run(count, ids); Arrivals(s, j) > s.epoch[i]
  {
    RunKeeps(count, ids);
    AllRounds(Run(count, ids), i, j);
  }

  /** In every run the phase has advanced only as often as everybody has
      arrived, and not less than anybody's wait has returned. */
  lemma PhaseWaitsForAll(count: nat, ids: seq<nat>, i: nat, j: nat)
    requires count > 0 && i < count && j < count
    ensures var s := Run(count, ids);
      && s.phase == s.turns % 4
      && s.epoch[i] <= s.turns <= Arrivals(s, j)
  {
    RunKeeps(count, ids);
  }

  /** A wait returns if and only if the phase of its own arrival is over, and
      then everybody had arrived in that phase. */
  lemma WaitReturnsExactly(count: nat, ids: seq<nat>, i: nat)
    requires count > 0 && i < count && Run(count, ids).pos[i] == 2 * Run(count, ids).steps + 2
    ensures var s := Run(count, ids);
      && (Step(s, i).epoch[i] == s.epoch[i] + 1 <==> s.turns > s.epoch[i])
      && (Step(s, i) != s ==> forall j | 0 <= j < count :: Arrivals(s, j) > s.epoch[i])
  {
    hide Run, FlagsRight, Fed, SeenRight, Covered;
    RunKeeps(count, ids);
    WaitKeeps(Run(count, ids), i);
  }

  /** Two threads are never more than one phase apart, though one may be in the
      next phase while the other is in the rounds of this one. */
  lemma OnePhaseApart(count: nat, ids: seq<nat>, i: nat, j: nat)
    requires count > 0 && i < count && j < count
    ensures var s := Run(count, ids); s.epoch[i] <= s.epoch[j] + 1
    ensures var s := Run(count, ids); s.epoch[i] == s.epoch[j] + 1 ==> s.pos[j] > 0
  {
    RunKeeps(count, ids);
  }

  // ---- nobody gets stuck ----

  /** Thread i is not further on than thread j. */
  predicate NotAhead(s: State, i: nat, j: nat)
    requires Shaped(s) && i < s.count && j < s.count
  {
    s.epoch[i] < s.epoch[j] || (s.epoch[i] == s.epoch[j] && s.pos[i] <= s.pos[j])
  }

  lemma Slowest(s: State) returns (i: nat)
    requires Shaped(s)
    ensures i < s.count && forall j | 0 <= j < s.count :: NotAhead(s, i, j)
  {
    i := 0;
    for m := 1 to s.count
      invariant i < m && forall j | 0 <= j < m :: NotAhead(s, i, j)
    {
      if !NotAhead(s, i, m) {
        forall j | 0 <= j < m
          ensures NotAhead(s, m, j)
        {
          assert NotAhead(s, i, j);
        }
        i := m;
      }
    }
  }

  /** The slowest thread always has a step to take. */
  lemma SlowestCanStep(s: State, i: nat)
    requires Inv(s) && i < s.count && forall j | 0 <= j < s.count :: NotAhead(s, i, j)
    ensures var t := Step(s, i);
      || (t.pos == s.pos[i := s.pos[i] + 1] && t.epoch == s.epoch)
      || (s.pos[i] == 2 * s.steps + 2 && t.pos == s.pos[i := 0] && t.epoch == s.epoch[i := s.epoch[i] + 1])
  {
    hide Writer, Covered, FlagsRight, Fed;
    assert NotAhead(s, i, 0);
    var p := s.pos[i];
    if p == 2 * s.steps + 2 {
      WaitKeeps(s, i);
    } else if p > 0 && p % 2 == 0 {
      var k := (p - 1) / 2;
      FlagTells(s, i, k);
      assert NotAhead(s, i, Writer(s.count, i, k));
      PassEffect(s, i, k);
    }
  }

  function Sum(p: seq<nat>): nat {
    if p == [] then 0 else Sum(p[..|p| - 1]) + p[|p| - 1]
  }

  lemma {:induction false} SumUpdate(p: seq<nat>, i: nat, x: nat)
    requires i < |p|
    ensures Sum(p[i := x]) == Sum(p) + x - p[i]
    decreases |p|
  {
    var q := p[i := x];
    if i < |p| - 1 {
      assert q[..|p| - 1] == p[..|p| - 1][i := x];
      SumUpdate(p[..|p| - 1], i, x);
    } else {
      assert q[..|p| - 1] == p[..|p| - 1];
    }
  }

  /** The steps a thread is short of its goal-th return from wait. */
  function Short(steps: nat, epoch: nat, pos: nat, goal: nat): nat
    requires pos <= 2 * steps + 2
    decreases goal - epoch
  {
    if epoch >= goal then 0 else Short(steps, epoch + 1, 0, goal) + 2 * steps + 3 - pos
  }

  function Left(s: State, goal: nat): nat
    requires Shaped(s)
  {
    Sum(seq(s.count, i requires 0 <= i < s.count => Short(s.steps, s.epoch[i], s.pos[i], goal)))
  }

  lemma LeftShrinks(s: State, i: nat, goal: nat)
    requires Inv(s) && i < s.count && s.epoch[i] < goal && forall j | 0 <= j < s.count :: NotAhead(s, i, j)
    ensures Shaped(Step(s, i)) && Left(Step(s, i), goal) < Left(s, goal)
  {
    hide FlagsRight, Fed, SeenRight, TurnsRight, Covered, Step, Sum, NotAhead;
    StepKeeps(s, i);
    SlowestCanStep(s, i);
    var t := Step(s, i);
    var was := seq(s.count, j requires 0 <= j < s.count => Short(s.steps, s.epoch[j], s.pos[j], goal));
    var x := Short(t.steps, t.epoch[i], t.pos[i], goal);
    assert seq(t.count, j requires 0 <= j < t.count => Short(t.steps, t.epoch[j], t.pos[j], goal)) == was[i := x];
    SumUpdate(was, i, x);
  }

  /** Every run can be carried on until every thread's wait has returned as
      often as one likes. */
  lemma {:induction false} EveryRunCanGoOn(count: nat, ids: seq<nat>, goal: nat) returns (more: seq<nat>)
    requires count > 0
    ensures forall i | 0 <= i < count :: Run(count, ids + more).epoch[i] >= goal
    decreases Left(Run(count, ids), goal)
  {
    hide Inv, Step, Left;
    var s := Run(count, ids);
    RunKeeps(count, ids);
    var i := Slowest(s);
    if s.epoch[i] >= goal {
      more := [];
      assert ids + [] == ids;
      forall j | 0 <= j < count
        ensures s.epoch[j] >= goal
      {
        assert NotAhead(s, i, j);
      }
    } else {
      LeftShrinks(s, i, goal);
      assert (ids + [i])[..|ids|] == ids;
      var rest := EveryRunCanGoOn(count, ids + [i], goal);
      more := [i] + rest;
      assert ids + [i] + rest == ids + more;
    }
  }

  // ---- phases do overlap ----

  lemma RunNext(count: nat, ids: seq<nat>, k: nat)
    requires count > 0 && k < |ids|
    ensures Run(count, ids[..k + 1]) == Step(Run(count, ids[..k]), ids[k])
  {
    assert ids[..k + 1][..k] == ids[..k];
  }

  function Two(phase: nat, f: nat, g: nat, a: nat, b: nat, p: nat, q: nat, turns: nat, d: nat, e: nat): State {
    State(2, 1, phase, [[f], [g]], [a, b], [p, q], turns, [d, e])
  }

  lemma TwoStep(phase: nat, f: nat, g: nat, a: nat, b: nat, p: nat, q: nat, turns: nat, d: nat, e: nat)
    requires p <= 4 && q <= 4
    ensures var s := Two(phase, f, g, a, b, p, q, turns, d, e);
      && Shaped(s)
      && Step(s, 0) == (
           if p == 0 then Two(phase, f, g, phase, b, 1, q, turns, d, e)
           else if p == 1 then Two(phase, f, NextPhase(a), a, b, 2, q, turns, d, e)
           else if p == 2 then if f == a then s else Two(phase, f, g, a, b, 3, q, turns, d, e)
           else if p == 3 then Two(NextPhase(a), f, g, a, b, 4, q, turns + 1, d, e)
           else if phase == a then s else Two(phase, f, g, a, b, 0, q, turns, d + 1, e))
      && (q == 0 ==> Step(s, 1) == Two(phase, f, g, a, phase, p, 1, turns, d, e))
      && (q == 1 ==> Step(s, 1) == Two(phase, NextPhase(b), g, a, b, p, 2, turns, d, e))
  {
    var s := Two(phase, f, g, a, b, p, q, turns, d, e);
    assert Pow2(0) == 1 && Log2Floor(2) == 1 && Pow2(1) == 2;
    assert [a, b][0 := phase] == [phase, b] && [a, b][1 := phase] == [a, phase];
    assert [g][0 := NextPhase(a)] == [NextPhase(a)] && [f][0 := NextPhase(b)] == [NextPhase(b)];
    assert [[f], [g]][1 := [g][0 := NextPhase(a)]] == [[f], [NextPhase(a)]];
    assert [[f], [g]][0 := [f][0 := NextPhase(b)]] == [[NextPhase(b)], [g]];
    assert [d, e][0 := d + 1] == [d + 1, e];
    assert forall r :: [p, q][0 := r] == [r, q] && [p, q][1 := r] == [p, r];
  }

  /** Thread 0 has returned from its wait, arrived again and set thread 1's flag
      for the next phase, before thread 1 has looked at it in this one. */
  lemma PhasesOverlap()
    ensures Run(2, [0, 1, 0, 1, 0, 0, 0, 0, 0]) == State(2, 1, 1, [[1], [2]], [1, 0], [2, 2], 1, [1, 0])
  {
    hide Run, Step, Two;
    var h := [0, 1, 0, 1, 0, 0, 0, 0, 0];
    assert h[..0] == [] && h[..9] == h;
    StartTwo();
    RunNext(2, h, 0);
    TwoStep(0, 0, 0, 0, 0, 0, 0, 0, 0, 0);
    RunNext(2, h, 1);
    TwoStep(0, 0, 0, 0, 0, 1, 0, 0, 0, 0);
    RunNext(2, h, 2);
    TwoStep(0, 0, 0, 0, 0, 1, 1, 0, 0, 0);
    RunNext(2, h, 3);
    TwoStep(0, 0, 1, 0, 0, 2, 1, 0, 0, 0);
    RunNext(2, h, 4);
    TwoStep(0, 1, 1, 0, 0, 2, 2, 0, 0, 0);
    RunNext(2, h, 5);
    TwoStep(0, 1, 1, 0, 0, 3, 2, 0, 0, 0);
    RunNext(2, h, 6);
    TwoStep(1, 1, 1, 0, 0, 4, 2, 1, 0, 0);
    RunNext(2, h, 7);
    TwoStep(1, 1, 1, 0, 0, 0, 2, 1, 1, 0);
    RunNext(2, h, 8);
    TwoStep(1, 1, 1, 1, 0, 1, 2, 1, 1, 0);
    TwoIs(1, 1, 2, 1, 0, 2, 2, 1, 1, 0);
  }

  lemma TwoIs(phase: nat, f: nat, g: nat, a: nat, b: nat, p: nat, q: nat, turns: nat, d: nat, e: nat)
    ensures Two(phase, f, g, a, b, p, q, turns, d, e) == State(2, 1, phase, [[f], [g]], [a, b], [p, q], turns, [d, e])
  {
  }

  lemma StartTwo()
    ensures Run(2, []) == Two(0, 0, 0, 0, 0, 0, 0, 0, 0, 0)
  {
    assert Log2Floor(2) == 1 && Pow2(1) == 2;
    assert Zeros(2) == [0, 0] && Zeros(1) == [0];
    assert Initial(2).flags == [[0], [0]];
  }
}
