/** The barrier packed into one 64-bit word (utils/include/barrier.h, the
    EmptyCompletionF specialisation): bits 0-31 count what is missing from 2^31
    participants, bits 32-62 what is missing from 2^31 arrivals, bit 63 is the
    phase. Each atomic addition is one step; any interleaving. */
module PackedBarrier {
  const ARRIVED_UNIT: nat := 0x1_0000_0000
  const EXPECTED_SPAN: nat := 0x1_0000_0000
  const PHASE_BIT: nat := 0x8000_0000_0000_0000
  const WORD_SPAN: nat := 0x1_0000_0000_0000_0000
  const LIMIT: nat := 0x8000_0000

  type Word = w: nat | w < WORD_SPAN

  // ---- the word ----

  function FetchAdd(w: Word, x: nat): Word {
    (w + x) % WORD_SPAN
  }

  function Phase(w: Word): (b: nat)
    ensures b <= 1
  {
    w / PHASE_BIT
  }

  function ExpectedField(w: Word): nat {
    w % EXPECTED_SPAN
  }

  function InitialWord(n: nat): Word
    requires n <= LIMIT
  {
    (LIMIT - n) * ARRIVED_UNIT + (LIMIT - n)
  }

  function Pack(phase: nat, arrived: nat, expected: nat): Word
    requires phase <= 1 && arrived < LIMIT && expected < EXPECTED_SPAN
  {
    phase * PHASE_BIT + arrived * ARRIVED_UNIT + expected
  }

  lemma PackFields(b: nat, a: nat, e: nat)
    requires b <= 1 && a < LIMIT && e < EXPECTED_SPAN
    ensures Phase(Pack(b, a, e)) == b && ExpectedField(Pack(b, a, e)) == e
  {
  }

  /** Adding to the arrival field: it carries into the phase bit exactly when
      it reaches 2^31, and never further. */
  lemma AddArrivals(b: nat, a: nat, e: nat, x: nat)
    requires b <= 1 && a < LIMIT && e < EXPECTED_SPAN && x <= LIMIT
    ensures FetchAdd(Pack(b, a, e), x * ARRIVED_UNIT)
         == if a + x < LIMIT then Pack(b, a + x, e) else Pack(1 - b, a + x - LIMIT, e)
  {
  }

  lemma AddExpected(b: nat, a: nat, e: nat)
    requires b <= 1 && a < LIMIT && e + 1 < EXPECTED_SPAN
    ensures FetchAdd(Pack(b, a, e), 1) == Pack(b, a, e + 1)
  {
  }

  // ---- the threads ----

  /** Where a participant is. Holding carries the token and, for the proofs,
      the number of the round it arrived in. */
  datatype Status =
    | Outside
    | Dropping
    | Reloading(seen: Word, drop: bool, round: nat)
    | Holding(token: nat, round: nat)
    | Gone

  /** The word and the participants, with a record of the rounds: who is
      expected in the current one, who of them is leaving, who has arrived, and
      for every flip of the phase bit who was expected and who had arrived. */
  datatype State = State(
    word: Word,
    status: seq<Status>,
    members: set<nat>, leaving: set<nat>, arrived: set<nat>,
    rosters: seq<set<nat>>, rounds: seq<set<nat>>)

  datatype Action = Arrive(who: nat) | StartDrop(who: nat) | Reload(who: nat) | PassWait(who: nat)

  function Everyone(n: nat): (all: set<nat>)
    ensures |all| == n && forall i: nat :: i in all <==> i < n
  {
    if n == 0 then {} else Everyone(n - 1) + {n - 1}
  }

  function Initial(n: nat): State
    requires n <= LIMIT
  {
    State(InitialWord(n), seq(n, _ => Outside), Everyone(n), {}, {}, [], [])
  }

  function SetStatus(s: State, i: nat, st: Status): State
    requires i < |s.status|
  {
    s.(status := s.status[i := st])
  }

  /** Record what the new value of the word does to the rounds. */
  function Store(s: State, w: Word): State {
    if Phase(w) == Phase(s.word) then s.(word := w)
    else s.(word := w, members := s.members - s.leaving, leaving := {}, arrived := {},
            rosters := s.rosters + [s.members], rounds := s.rounds + [s.arrived])
  }

  /** arrive's first addition; it tests whether the phase bit changed. */
  function DoArrive(s: State, i: nat): State
    requires i < |s.status|
  {
    var drop := s.status[i].Dropping?;
    var seen := s.word;
    var w := FetchAdd(seen, ARRIVED_UNIT);
    var round := |s.rounds|;
    var s1 := Store(s.(arrived := s.arrived + {i}), w);
    if Phase(w) != Phase(seen) then SetStatus(s1, i, Reloading(seen, drop, round))
    else SetStatus(s1, i, if drop then Gone else Holding(Phase(seen), round))
  }

  /** arrive_and_drop's first addition. */
  function DoStartDrop(s: State, i: nat): State
    requires i < |s.status|
  {
    SetStatus(Store(s.(leaving := s.leaving + {i}), FetchAdd(s.word, 1)), i, Dropping)
  }

  /** arrive's second addition, by the thread that saw the bit change. */
  function DoReload(s: State, i: nat): State
    requires i < |s.status| && s.status[i].Reloading?
  {
    var st := s.status[i];
    var w := FetchAdd(s.word, ExpectedField(st.seen) * ARRIVED_UNIT);
    SetStatus(Store(s, w), i, if st.drop then Gone else Holding(Phase(st.seen), st.round))
  }

  /** wait returns once the phase differs from the token's. */
  function DoPassWait(s: State, i: nat): State
    requires i < |s.status| && s.status[i].Holding?
  {
    if Phase(s.word) != s.status[i].token then SetStatus(s, i, Outside) else s
  }

  predicate Enabled(s: State, a: Action) {
    a.who < |s.status|
    && match a
       case Arrive(i) => s.status[i].Outside? || s.status[i].Dropping?
       case StartDrop(i) => s.status[i].Outside?
       case Reload(i) => s.status[i].Reloading?
       case PassWait(i) => s.status[i].Holding?
  }

  function Step(s: State, a: Action): State {
    if !Enabled(s, a) then s
    else match a
      case Arrive(i) => DoArrive(s, i)
      case StartDrop(i) => DoStartDrop(s, i)
      case Reload(i) => DoReload(s, i)
      case PassWait(i) => DoPassWait(s, i)
  }

  function Run(n: nat, acts: seq<Action>): State
    requires n <= LIMIT
  {
    if acts == [] then Initial(n)
    else Step(Run(n, acts[..|acts| - 1]), acts[|acts| - 1])
  }

  // ---- the invariant ----

  /** What the arrival field counts from: after the reload what is missing from
      2^31, between flip and reload nothing. Lost is what remains when the
      reload itself flipped the bit: no thread will add the base again. */
  datatype Mode = Based | Flipped(who: nat) | Lost

  ghost predicate StatusOk(s: State, m: Mode, i: nat)
    requires i < |s.status|
  {
    match s.status[i]
    case Outside => i in s.members && i !in s.arrived && i !in s.leaving
    case Dropping => i in s.members && i !in s.arrived && i in s.leaving
    case Reloading(seen, drop, round) =>
      && m == Flipped(i)
      && round + 1 == |s.rounds|
      && ExpectedField(seen) == LIMIT - |s.members|
      && Phase(seen) == round % 2
      && round < |s.rounds| && i in s.rounds[round]
      && (if drop then i !in s.members && |s.members| < LIMIT else i in s.members && i !in s.arrived && i !in s.leaving)
    case Holding(token, round) =>
      && i in s.members && i !in s.leaving
      && token == round % 2
      && (if i in s.arrived then round == |s.rounds| else round + 1 == |s.rounds| && i in s.rounds[round])
    case Gone => i in s.members ==> i in s.arrived && i in s.leaving
  }

  ghost predicate Counted(s: State, m: Mode, n: nat) {
    && n <= LIMIT && |s.status| == n
    && s.leaving <= s.members && s.arrived <= s.members
    && |s.leaving| <= |s.members| <= n
    && (m.Lost? ==> |s.members| < LIMIT)
    && var field := if m.Based? then LIMIT - |s.members| + |s.arrived| else |s.arrived|;
    && field < LIMIT
    && s.word == Pack(|s.rounds| % 2, field, LIMIT - (|s.members| - |s.leaving|))
  }

  ghost predicate History(s: State) {
    |s.rounds| == |s.rosters| && forall r | 0 <= r < |s.rounds| :: s.rounds[r] == s.rosters[r]
  }

  ghost predicate Inv(s: State, m: Mode, n: nat) {
    && Counted(s, m, n)
    && History(s)
    && (forall i | 0 <= i < n :: StatusOk(s, m, i))
    && (m.Flipped? ==> m.who < n && s.status[m.who].Reloading?)
  }

  // ---- sets ----

  lemma FullSubset(a: set<nat>, b: set<nat>)
    requires a <= b && |a| == |b|
    ensures a == b
  {
    SubsetSize(a, b);
    assert b - a == {};
  }

  lemma {:induction false} SubsetSize(a: set<nat>, b: set<nat>)
    requires a <= b
    ensures |a| <= |b| && |b - a| == |b| - |a|
    decreases |a|
  {
    if a == {} {
      assert b - a == b;
    } else {
      var x :| x in a;
      SubsetSize(a - {x}, b - {x});
      assert (b - {x}) - (a - {x}) == b - a;
    }
  }

  // ---- every step keeps it ----

  lemma InitialInv(n: nat)
    requires 0 < n <= LIMIT
    ensures Inv(Initial(n), Based, n)
  {
  }

  lemma StillToArrive(s: State, m: Mode, n: nat, i: nat)
    requires Inv(s, m, n) && Enabled(s, Arrive(i))
    ensures i in s.members && i !in s.arrived
  {
    assert StatusOk(s, m, i);
  }

  lemma HistoryGrows(s: State, t: State, x: set<nat>)
    requires History(s) && t.rounds == s.rounds + [x] && t.rosters == s.rosters + [x]
    ensures History(t)
  {
  }

  lemma HistoryStays(s: State, t: State)
    requires History(s) && t.rounds == s.rounds && t.rosters == s.rosters
    ensures History(t)
  {
  }

  function Field(s: State, m: Mode): int {
    if m.Based? then LIMIT - |s.members| + |s.arrived| else |s.arrived|
  }

  lemma CountedMeans(s: State, m: Mode, n: nat, b: nat, field: int, e: int)
    requires Counted(s, m, n) && b == |s.rounds| % 2 && field == Field(s, m) && e == LIMIT - (|s.members| - |s.leaving|)
    ensures n <= LIMIT && |s.status| == n && s.leaving <= s.members && s.arrived <= s.members
        && |s.leaving| <= |s.members| <= n
    ensures m.Lost? ==> |s.members| < LIMIT
    ensures 0 <= field < LIMIT && 0 <= e < EXPECTED_SPAN && s.word == Pack(b, field, e)
    ensures Phase(s.word) == b && ExpectedField(s.word) == e
  {
    hide Phase, ExpectedField, Pack;
    PackFields(b, field, e);
  }

  lemma CountedIf(s: State, m: Mode, n: nat, b: nat, field: int, e: int)
    requires n <= LIMIT && |s.status| == n && s.leaving <= s.members && s.arrived <= s.members
        && |s.leaving| <= |s.members| <= n
    requires m.Lost? ==> |s.members| < LIMIT
    requires b == |s.rounds| % 2 && field == Field(s, m) && e == LIMIT - (|s.members| - |s.leaving|)
    requires 0 <= field < LIMIT && s.word == Pack(b, field, e)
    ensures Counted(s, m, n)
  {
    hide Pack;
  }

  /** Without the base the arrivals never reach 2^31: whoever is to reload has
      not arrived yet, or has dropped out. */
  lemma RoomToArrive(s: State, m: Mode, n: nat, i: nat)
    requires Inv(s, m, n) && Enabled(s, Arrive(i)) && !m.Based?
    ensures |s.arrived + {i}| < LIMIT
  {
    hide FetchAdd, Phase, ExpectedField, Pack;
    StillToArrive(s, m, n, i);
    SubsetSize(s.arrived + {i}, s.members);
    if m.Flipped? {
      assert StatusOk(s, m, m.who);
      if !s.status[m.who].drop {
        SubsetSize(s.arrived + {i}, s.members - {m.who});
      }
    }
  }

  lemma ArriveKeeps(s: State, m: Mode, n: nat, i: nat) returns (m2: Mode)
    requires Inv(s, m, n) && Enabled(s, Arrive(i))
    ensures Inv(DoArrive(s, i), m2, n)
    ensures |DoArrive(s, i).rounds| > |s.rounds| <==> m.Based? && s.arrived + {i} == s.members
    ensures m2 == if |DoArrive(s, i).rounds| > |s.rounds| then Flipped(i) else m
  {
    hide FetchAdd, Phase, ExpectedField, Pack, StatusOk, History, Counted;
    var t := DoArrive(s, i);
    var b, e := |s.rounds| % 2, LIMIT - (|s.members| - |s.leaving|);
    var field := Field(s, m);
    StillToArrive(s, m, n, i);
    var a := s.arrived + {i};
    CountedMeans(s, m, n, b, field, e);
    SubsetSize(a, s.members);
    SubsetSize(s.leaving, s.members);
    AddArrivals(b, field, e, 1);
    if m.Based? && |a| == |s.members| {
      m2 := Flipped(i);
      FullSubset(a, s.members);
      PackFields(1 - b, 0, e);
      if i in s.leaving {
        SubsetSize({i}, s.leaving);
      }
      FlippedStatuses(s, m, n, i);
      HistoryGrows(s, t, a);
      CountedIf(t, m2, n, 1 - b, 0, e);
    } else {
      m2 := m;
      if !m.Based? {
        RoomToArrive(s, m, n, i);
      }
      PackFields(b, field + 1, e);
      PlainStatuses(s, m, n, i);
      HistoryStays(s, t);
      CountedIf(t, m2, n, b, field + 1, e);
    }
  }

  lemma FlippedStatuses(s: State, m: Mode, n: nat, i: nat)
    requires Inv(s, m, n) && Enabled(s, Arrive(i)) && m == Based && s.arrived + {i} == s.members
    requires Phase(s.word) == |s.rounds| % 2 != Phase(FetchAdd(s.word, ARRIVED_UNIT))
    requires ExpectedField(s.word) == LIMIT - |s.members - s.leaving|
    requires i in s.leaving ==> |s.members - s.leaving| < LIMIT
    ensures forall j | 0 <= j < n :: StatusOk(DoArrive(s, i), Flipped(i), j)
  {
    hide FetchAdd, Phase, ExpectedField, Counted, History;
    LengthIs(s, m, n);
    forall j | 0 <= j < n
      ensures StatusOk(DoArrive(s, i), Flipped(i), j)
    {
      assert StatusOk(s, m, j);
    }
  }

  lemma PlainStatuses(s: State, m: Mode, n: nat, i: nat)
    requires Inv(s, m, n) && Enabled(s, Arrive(i))
    requires Phase(s.word) == |s.rounds| % 2 == Phase(FetchAdd(s.word, ARRIVED_UNIT))
    ensures forall j | 0 <= j < n :: StatusOk(DoArrive(s, i), m, j)
  {
    hide FetchAdd, Phase, ExpectedField, Counted, History;
    LengthIs(s, m, n);
    forall j | 0 <= j < n
      ensures StatusOk(DoArrive(s, i), m, j)
    {
      assert StatusOk(s, m, j) && StatusOk(s, m, i);
    }
  }

  lemma LengthIs(s: State, m: Mode, n: nat)
    requires Counted(s, m, n)
    ensures |s.status| == n
  {
  }

  lemma StartDropKeeps(s: State, m: Mode, n: nat, i: nat)
    requires Inv(s, m, n) && Enabled(s, StartDrop(i))
    ensures Inv(DoStartDrop(s, i), m, n) && DoStartDrop(s, i).rounds == s.rounds
  {
    hide FetchAdd, Phase, ExpectedField, Pack, Counted, History;
    var t := DoStartDrop(s, i);
    var b, e := |s.rounds| % 2, LIMIT - (|s.members| - |s.leaving|);
    var field := Field(s, m);
    CountedMeans(s, m, n, b, field, e);
    assert StatusOk(s, m, i);
    SubsetSize(s.leaving + {i}, s.members);
    AddExpected(b, field, e);
    PackFields(b, field, e + 1);
    HistoryStays(s, t);
    CountedIf(t, m, n, b, field, e + 1);
    forall j | 0 <= j < n
      ensures StatusOk(t, m, j)
    {
      assert StatusOk(s, m, j);
    }
  }

  /** The reload keeps the counting exactly when some participant of the new
      round has not arrived yet; otherwise the reload itself flips the bit. */
  lemma ReloadKeeps(s: State, m: Mode, n: nat, i: nat) returns (m2: Mode)
    requires Inv(s, m, n) && Enabled(s, Reload(i))
    ensures Inv(DoReload(s, i), m2, n)
    ensures m2 == if s.arrived == s.members then Lost else Based
    ensures |DoReload(s, i).rounds| > |s.rounds| <==> s.arrived == s.members
  {
    hide FetchAdd, Phase, ExpectedField, Pack, StatusOk, History, Counted;
    var t := DoReload(s, i);
    var b, e := |s.rounds| % 2, LIMIT - (|s.members| - |s.leaving|);
    var field, base := |s.arrived|, LIMIT - |s.members|;
    OnlyFlipped(s, m, n, i);
    CountedMeans(s, m, n, b, field, e);
    SubsetSize(s.arrived, s.members);
    SubsetSize(s.leaving, s.members);
    AddArrivals(b, field, e, base);
    if field == |s.members| {
      m2 := Lost;
      FullSubset(s.arrived, s.members);
      PackFields(1 - b, 0, e);
      HistoryGrows(s, t, s.arrived);
      CountedIf(t, m2, n, 1 - b, 0, e);
    } else {
      m2 := Based;
      PackFields(b, field + base, e);
      HistoryStays(s, t);
      CountedIf(t, m2, n, b, field + base, e);
    }
    ReloadStatuses(s, m, n, i, m2);
  }

  lemma ReloadStatuses(s: State, m: Mode, n: nat, i: nat, m2: Mode)
    requires Inv(s, m, n) && Enabled(s, Reload(i))
    requires m2 == if s.arrived == s.members then Lost else Based
    requires Phase(DoReload(s, i).word) != Phase(s.word) <==> m2 == Lost
    ensures forall j | 0 <= j < n :: StatusOk(DoReload(s, i), m2, j)
  {
    hide FetchAdd, Phase, ExpectedField, Counted, History;
    LengthIs(s, m, n);
    forall j | 0 <= j < n
      ensures StatusOk(DoReload(s, i), m2, j)
    {
      assert StatusOk(s, m, j) && StatusOk(s, m, i);
    }
  }

  /** wait returns exactly when the round of its token is over. */
  lemma PassWaitKeeps(s: State, m: Mode, n: nat, i: nat)
    requires Inv(s, m, n) && Enabled(s, PassWait(i))
    ensures Inv(DoPassWait(s, i), m, n)
    ensures DoPassWait(s, i).status[i] == Outside <==> s.status[i].round < |s.rounds|
    ensures DoPassWait(s, i).rounds == s.rounds
  {
    hide FetchAdd, Phase, ExpectedField, Pack;
    assert StatusOk(s, m, i);
    SubsetSize(s.leaving, s.members);
    var field := if m.Based? then LIMIT - |s.members| + |s.arrived| else |s.arrived|;
    PackFields(|s.rounds| % 2, field, LIMIT - (|s.members| - |s.leaving|));
    forall j | 0 <= j < n
      ensures StatusOk(DoPassWait(s, i), m, j)
    {
      assert StatusOk(s, m, j);
    }
  }

  // ---- every run ----

  lemma StepKeeps(s: State, m: Mode, n: nat, a: Action) returns (m2: Mode)
    requires Inv(s, m, n)
    ensures Inv(Step(s, a), m2, n)
    ensures m2 == Lost <==> m == Lost || Late(s, a)
    ensures m == Lost ==> Step(s, a).rounds == s.rounds
  {
    hide Inv, DoArrive, DoStartDrop, DoReload, DoPassWait;
    m2 := m;
    if Enabled(s, a) {
      match a
      case Arrive(i) => m2 := ArriveKeeps(s, m, n, i); ArriveRounds(s, i);
      case StartDrop(i) => StartDropKeeps(s, m, n, i);
      case Reload(i) => m2 := ReloadKeeps(s, m, n, i); OnlyFlipped(s, m, n, i);
      case PassWait(i) => PassWaitKeeps(s, m, n, i);
    }
  }

  lemma ArriveRounds(s: State, i: nat)
    requires i < |s.status|
    ensures var t := DoArrive(s, i); t.rounds == s.rounds || |t.rounds| > |s.rounds|
  {
  }

  lemma OnlyFlipped(s: State, m: Mode, n: nat, i: nat)
    requires Inv(s, m, n) && Enabled(s, Reload(i))
    ensures m == Flipped(i) && ExpectedField(s.status[i].seen) == LIMIT - |s.members|
  {
    assert StatusOk(s, m, i);
  }

  /** A reload that comes after everybody in the new round has arrived. */
  predicate Late(s: State, a: Action) {
    a.Reload? && Enabled(s, a) && s.arrived == s.members
  }

  predicate Prompt(n: nat, acts: seq<Action>)
    requires n <= LIMIT
  {
    acts == [] ||
    (Prompt(n, acts[..|acts| - 1]) && !Late(Run(n, acts[..|acts| - 1]), acts[|acts| - 1]))
  }

  lemma {:induction false} RunKeeps(n: nat, acts: seq<Action>) returns (m: Mode)
    requires 0 < n <= LIMIT
    ensures Inv(Run(n, acts), m, n) && (m == Lost <==> !Prompt(n, acts))
    decreases |acts|
  {
    hide Inv, Step, Late;
    if acts == [] {
      InitialInv(n);
      m := Based;
    } else {
      var m0 := RunKeeps(n, acts[..|acts| - 1]);
      m := StepKeeps(Run(n, acts[..|acts| - 1]), m0, n, acts[|acts| - 1]);
    }
  }

  /** In every run, the phase bit has flipped once for every full set of
      arrivals: everyone expected in a round, and nobody else, had arrived. */
  lemma RoundsAreFull(n: nat, acts: seq<Action>)
    requires 0 < n <= LIMIT
    ensures var s := Run(n, acts);
      && Phase(s.word) == |s.rounds| % 2
      && |s.rounds| == |s.rosters|
      && forall r | 0 <= r < |s.rounds| :: s.rounds[r] == s.rosters[r]
  {
    hide Run, Prompt;
    var m := RunKeeps(n, acts);
    WordPhase(Run(n, acts), m, n);
  }

  lemma WordPhase(s: State, m: Mode, n: nat)
    requires Counted(s, m, n)
    ensures Phase(s.word) == |s.rounds| % 2
  {
    hide FetchAdd, Phase, ExpectedField, Pack;
    var field := if m.Based? then LIMIT - |s.members| + |s.arrived| else |s.arrived|;
    PackFields(|s.rounds| % 2, field, LIMIT - (|s.members| - |s.leaving|));
  }

  /** In every run, a waiting thread's wait returns if and only if its round is
      over, and then everyone expected in that round, the thread among them,
      had arrived. */
  lemma NobodyLeavesEarly(n: nat, acts: seq<Action>, i: nat)
    requires 0 < n <= LIMIT && i < |Run(n, acts).status| && Run(n, acts).status[i].Holding?
    ensures var s := Run(n, acts); var round := s.status[i].round;
      && (Step(s, PassWait(i)).status[i] == Outside <==> round < |s.rounds|)
      && (round < |s.rounds| ==> i in s.rounds[round] && round < |s.rosters| && s.rounds[round] == s.rosters[round])
  {
    hide Run, Prompt, DoPassWait;
    var m := RunKeeps(n, acts);
    PassWaitKeeps(Run(n, acts), m, n, i);
    assert StatusOk(Run(n, acts), m, i);
  }

  /** While no reload has come late, all have never arrived with nobody about
      to reload. */
  lemma PromptRunsNeverHang(n: nat, acts: seq<Action>)
    requires 0 < n <= LIMIT && Prompt(n, acts)
    ensures var s := Run(n, acts);
      s.arrived == s.members ==> exists i :: 0 <= i < |s.status| && s.status[i].Reloading?
  {
    hide Run, Prompt;
    var m := RunKeeps(n, acts);
  }

  /** After a late reload the bit never flips again, whatever happens. */
  lemma {:induction false} LateReloadIsForever(n: nat, acts: seq<Action>, more: seq<Action>)
    requires 0 < n <= LIMIT && !Prompt(n, acts)
    ensures Run(n, acts + more).rounds == Run(n, acts).rounds
    decreases |more|
  {
    hide Step, Late, Inv;
    if more == [] {
      assert acts + more == acts;
    } else {
      var front := more[..|more| - 1];
      LateReloadIsForever(n, acts, front);
      StillLate(n, acts, front);
      assert (acts + more)[..|acts + more| - 1] == acts + front;
      var m := RunKeeps(n, acts + front);
      var m2 := StepKeeps(Run(n, acts + front), m, n, more[|more| - 1]);
    }
  }

  lemma {:induction false} StillLate(n: nat, acts: seq<Action>, more: seq<Action>)
    requires n <= LIMIT && !Prompt(n, acts)
    ensures !Prompt(n, acts + more)
    decreases |more|
  {
    if more == [] {
      assert acts + more == acts;
    } else {
      StillLate(n, acts, more[..|more| - 1]);
      assert (acts + more)[..|acts + more| - 1] == acts + more[..|more| - 1];
    }
  }

  // ---- exactly when a round can still be carried to its end ----

  lemma StepMembers(s: State, a: Action)
    ensures Step(s, a).members <= s.members
  {
  }

  lemma {:induction false} RunMembers(n: nat, acts: seq<Action>)
    requires n <= LIMIT
    ensures forall i | i in Run(n, acts).members :: i < n
    decreases |acts|
  {
    hide Step;
    if acts != [] {
      RunMembers(n, acts[..|acts| - 1]);
      StepMembers(Run(n, acts[..|acts| - 1]), acts[|acts| - 1]);
    }
  }

  ghost predicate Grows(s: State, t: State) {
    |t.rounds| > |s.rounds|
  }

  lemma ArriveEffect(s: State, i: nat)
    requires Enabled(s, Arrive(i)) && !Grows(s, DoArrive(s, i))
    ensures var t := DoArrive(s, i); t.members == s.members && t.arrived == s.arrived + {i} && t.rounds == s.rounds
  {
  }

  lemma PassWaitEffect(s: State, i: nat)
    requires Enabled(s, PassWait(i))
    ensures var t := DoPassWait(s, i); t.members == s.members && t.arrived == s.arrived && t.rounds == s.rounds
  {
  }

  /** A thread that has not arrived can do so, after its wait if need be. */
  lemma CanArrive(s: State, n: nat, i: nat) returns (t: State, acts: seq<Action>)
    requires Inv(s, Based, n) && i < n && i in s.members - s.arrived
    ensures acts == [] || acts == [PassWait(i)]
    ensures t == if acts == [] then s else Step(s, PassWait(i))
    ensures Inv(t, Based, n) && Enabled(t, Arrive(i))
    ensures t.members == s.members && t.arrived == s.arrived && t.rounds == s.rounds
  {
    hide DoPassWait;
    assert StatusOk(s, Based, i);
    t, acts := s, [];
    if s.status[i].Holding? {
      PassWaitKeeps(s, Based, n, i);
      PassWaitEffect(s, i);
      t, acts := DoPassWait(s, i), [PassWait(i)];
      PassWaitCount(s, i);
    }
  }

  lemma PassWaitCount(s: State, i: nat)
    requires Enabled(s, PassWait(i))
    ensures |DoPassWait(s, i).status| == |s.status|
  {
  }

  lemma SomeoneMissing(s: State, n: nat) returns (i: nat)
    requires Inv(s, Based, n)
    ensures i in s.members - s.arrived
  {
    hide Pack;
    SubsetSize(s.arrived, s.members);
    assert |s.members - s.arrived| > 0;
    i :| i in s.members - s.arrived;
  }

  /** With the base in place the missing threads arrive, one after the other. */
  lemma {:induction false} BasedFinishes(n: nat, acts: seq<Action>) returns (more: seq<Action>)
    requires 0 < n <= LIMIT && Inv(Run(n, acts), Based, n)
    ensures Grows(Run(n, acts), Run(n, acts + more))
    decreases |Run(n, acts).members - Run(n, acts).arrived|
  {
    hide Inv, Run, DoArrive, DoPassWait;
    var s := Run(n, acts);
    var i := SomeoneMissing(s, n);
    RunMembers(n, acts);
    var t, wait := CanArrive(s, n, i);
    if wait == [] {
      assert acts + wait == acts;
    } else {
      RunNext(n, acts, PassWait(i));
    }
    RunNext(n, acts + wait, Arrive(i));
    more := wait + [Arrive(i)];
    assert acts + wait + [Arrive(i)] == acts + more;
    var m2 := ArriveKeeps(t, Based, n, i);
    if !Grows(t, DoArrive(t, i)) {
      ArriveEffect(t, i);
      FewerMissing(s.members, s.arrived, i);
      var rest := BasedFinishes(n, acts + more);
      assert acts + more + rest == acts + (more + rest);
      more := more + rest;
    }
  }

  lemma FewerMissing(members: set<nat>, arrived: set<nat>, i: nat)
    requires i in members - arrived
    ensures |members - (arrived + {i})| < |members - arrived|
  {
    assert members - (arrived + {i}) == (members - arrived) - {i};
  }

  /** A prompt run can be carried on to the end of its round. */
  lemma PromptRoundEnds(n: nat, acts: seq<Action>) returns (more: seq<Action>)
    requires 0 < n <= LIMIT && Prompt(n, acts)
    ensures Grows(Run(n, acts), Run(n, acts + more))
  {
    hide Inv, Run, DoReload, Prompt, Late;
    var s := Run(n, acts);
    var m := RunKeeps(n, acts);
    if m.Based? {
      more := BasedFinishes(n, acts);
    } else {
      var i := WhoReloads(s, m, n);
      RunNext(n, acts, Reload(i));
      var m2 := ReloadKeeps(s, m, n, i);
      more := [Reload(i)];
      if s.arrived != s.members {
        ReloadEffect(s, i);
        var rest := BasedFinishes(n, acts + more);
        assert acts + more + rest == acts + (more + rest);
        more := more + rest;
      }
    }
  }

  lemma WhoReloads(s: State, m: Mode, n: nat) returns (i: nat)
    requires Inv(s, m, n) && m.Flipped?
    ensures Enabled(s, Reload(i))
  {
    i := m.who;
  }

  lemma ReloadEffect(s: State, i: nat)
    requires Enabled(s, Reload(i)) && !Grows(s, DoReload(s, i))
    ensures DoReload(s, i).rounds == s.rounds
  {
  }

  /** The current round can be carried to its end if and only if no reload has
      come late so far. */
  lemma PromptExactly(n: nat, acts: seq<Action>)
    requires 0 < n <= LIMIT
    ensures Prompt(n, acts) <==> exists more :: |Run(n, acts + more).rounds| > |Run(n, acts).rounds|
  {
    hide Run, Prompt;
    if Prompt(n, acts) {
      var more := PromptRoundEnds(n, acts);
      assert |Run(n, acts + more).rounds| > |Run(n, acts).rounds|;
    } else {
      forall more
        ensures Run(n, acts + more).rounds == Run(n, acts).rounds
      {
        LateReloadIsForever(n, acts, more);
      }
    }
  }

  /** Only a thread that dropped out can be late. */
  lemma LateMeansDropped(s: State, m: Mode, n: nat, i: nat)
    requires Inv(s, m, n) && Late(s, Reload(i))
    ensures s.status[i].drop
  {
    assert StatusOk(s, m, i);
  }

  /** Nobody drops out. */
  ghost predicate NoDrop(s: State) {
    forall i | 0 <= i < |s.status| :: !s.status[i].Dropping? && (s.status[i].Reloading? ==> !s.status[i].drop)
  }

  lemma {:induction false} WithoutDropsPrompt(n: nat, acts: seq<Action>)
    requires 0 < n <= LIMIT && forall a | a in acts :: !a.StartDrop?
    ensures Prompt(n, acts) && NoDrop(Run(n, acts))
    decreases |acts|
  {
    hide Inv;
    if acts != [] {
      var front := acts[..|acts| - 1];
      var a := acts[|acts| - 1];
      WithoutDropsPrompt(n, front);
      assert a in acts;
      var s := Run(n, front);
      var m := RunKeeps(n, front);
      if Late(s, a) {
        LateMeansDropped(s, m, n, a.who);
      }
      NoDropStays(s, a);
    }
  }

  lemma NoDropStays(s: State, a: Action)
    requires NoDrop(s) && !a.StartDrop?
    ensures NoDrop(Step(s, a))
  {
  }

  // ---- a run that hangs ----

  /** Two participants: 0 arrives, 1 drops out and arrives last; before 1
      reloads, 0 leaves and arrives in the next round. */
  function HangingRun(): seq<Action> {
    [Arrive(0), StartDrop(1), Arrive(1), PassWait(0), Arrive(0), Reload(1), PassWait(0), Arrive(0)]
  }

  lemma RunNext(n: nat, acts: seq<Action>, a: Action)
    requires n <= LIMIT
    ensures Run(n, acts + [a]) == Step(Run(n, acts), a)
    ensures Prompt(n, acts + [a]) <==> Prompt(n, acts) && !Late(Run(n, acts), a)
  {
    assert (acts + [a])[..|acts|] == acts;
  }

  lemma HangingPrefix(k: nat)
    requires k < 8
    ensures HangingRun()[..k + 1] == HangingRun()[..k] + [HangingRun()[k]]
  {
  }

  function PairState(phase: nat, arrived: nat, expected: nat, zero: Status, one: Status,
      members: set<nat>, leaving: set<nat>, here: set<nat>, rounds: seq<set<nat>>): State
    requires phase <= 1 && arrived < LIMIT && expected < EXPECTED_SPAN
  {
    State(Pack(phase, arrived, expected), [zero, one], members, leaving, here, rounds, rounds)
  }

  lemma HangingStart()
    ensures Run(2, HangingRun()[..0]) == PairState(0, LIMIT - 2, LIMIT - 2, Outside, Outside, {0, 1}, {}, {}, [])
    ensures Prompt(2, HangingRun()[..0])
  {
    assert Everyone(2) == {0, 1};
    assert seq(2, _ => Outside) == [Outside, Outside];
  }

  lemma HangingDrop() returns (seen: Word)
    ensures seen == Pack(0, LIMIT - 1, LIMIT - 1) && Prompt(2, HangingRun()[..2])
    ensures Run(2, HangingRun()[..2])
         == PairState(0, LIMIT - 1, LIMIT - 1, Holding(0, 0), Dropping, {0, 1}, {1}, {0}, [])
  {
    hide Pack, Phase, ExpectedField, FetchAdd, Run, Prompt;
    var h := HangingRun();
    HangingStart();
    var s0 := PairState(0, LIMIT - 2, LIMIT - 2, Outside, Outside, {0, 1}, {}, {}, []);
    HangingPrefix(0); RunNext(2, h[..0], h[0]);
    Arrives(s0, 0, LIMIT - 2, LIMIT - 2);
    var s1 := PairState(0, LIMIT - 1, LIMIT - 2, Holding(0, 0), Outside, {0, 1}, {}, {0}, []);
    assert Run(2, h[..1]) == s1;
    HangingPrefix(1); RunNext(2, h[..1], h[1]);
    AddExpected(0, LIMIT - 1, LIMIT - 2);
    PackFields(0, LIMIT - 1, LIMIT - 2);
    PackFields(0, LIMIT - 1, LIMIT - 1);
    seen := Pack(0, LIMIT - 1, LIMIT - 1);
  }

  lemma HangingFirstRound() returns (seen: Word)
    ensures Run(2, HangingRun()[..5])
         == PairState(1, 1, LIMIT - 1, Holding(1, 1), Reloading(seen, true, 0), {0}, {}, {0}, [{0, 1}])
    ensures ExpectedField(seen) == LIMIT - 1 && Phase(seen) == 0
    ensures Prompt(2, HangingRun()[..5])
  {
    hide Pack, Phase, ExpectedField, FetchAdd, Run, Prompt;
    var h := HangingRun();
    seen := HangingDrop();
    HangingPrefix(2); RunNext(2, h[..2], h[2]);
    Arrives(Run(2, h[..2]), 0, LIMIT - 1, LIMIT - 1);
    var s3 := PairState(1, 0, LIMIT - 1, Holding(0, 0), Reloading(seen, true, 0), {0}, {}, {}, [{0, 1}]);
    assert {0, 1} - {1} == {0} && {0} + {1} == {0, 1};
    assert Run(2, h[..3]) == s3;
    HangingPrefix(3); RunNext(2, h[..3], h[3]);
    PackFields(1, 0, LIMIT - 1);
    var s4 := PairState(1, 0, LIMIT - 1, Outside, Reloading(seen, true, 0), {0}, {}, {}, [{0, 1}]);
    assert Run(2, h[..4]) == s4;
    HangingPrefix(4); RunNext(2, h[..4], h[4]);
    Arrives(s4, 1, 0, LIMIT - 1);
  }

  lemma Arrives(s: State, b: nat, a: nat, e: nat)
    requires b <= 1 && a < LIMIT && e < EXPECTED_SPAN && s.word == Pack(b, a, e)
    ensures FetchAdd(s.word, ARRIVED_UNIT) == if a + 1 < LIMIT then Pack(b, a + 1, e) else Pack(1 - b, 0, e)
    ensures Phase(s.word) == b && ExpectedField(s.word) == e
    ensures Phase(FetchAdd(s.word, ARRIVED_UNIT)) == if a + 1 < LIMIT then b else 1 - b
  {
    AddArrivals(b, a, e, 1);
    PackFields(b, a, e);
    if a + 1 < LIMIT {
      PackFields(b, a + 1, e);
    } else {
      PackFields(1 - b, 0, e);
    }
  }

  /** The one participant that is left arrives and waits for ever. */
  lemma HangingRunHangs(more: seq<Action>)
    ensures !Prompt(2, HangingRun())
    ensures var s := Run(2, HangingRun()); s.members == s.arrived == {0} && s.status == [Holding(0, 2), Gone]
    ensures |Run(2, HangingRun() + more).rounds| == 2
  {
    hide Pack, Phase, ExpectedField, FetchAdd;
    var h := HangingRun();
    var seen := HangingFirstRound();
    var s5 := Run(2, h[..5]);
    HangingPrefix(5); RunNext(2, h[..5], h[5]);
    AddArrivals(1, 1, LIMIT - 1, LIMIT - 1);
    PackFields(1, 1, LIMIT - 1);
    PackFields(0, 0, LIMIT - 1);
    var s6 := PairState(0, 0, LIMIT - 1, Holding(1, 1), Gone, {0}, {}, {}, [{0, 1}, {0}]);
    assert {0} - {} == {0};
    assert Run(2, h[..6]) == s6;
    HangingPrefix(6); RunNext(2, h[..6], h[6]);
    var s7 := PairState(0, 0, LIMIT - 1, Outside, Gone, {0}, {}, {}, [{0, 1}, {0}]);
    assert Run(2, h[..7]) == s7;
    HangingPrefix(7); RunNext(2, h[..7], h[7]);
    Arrives(s7, 0, 0, LIMIT - 1);
    assert h[..8] == h;
    LateReloadIsForever(2, h, more);
  }

  // ---- the barrier itself ----

  /** The one atomic word. A call that nobody interferes with is the two steps
      of the state machine in a row. */
  class Barrier {
    var word: Word

    constructor (count: nat)
      requires count <= LIMIT
      ensures word == InitialWord(count)
    {
      word := (LIMIT - count) * ARRIVED_UNIT + (LIMIT - count);
    }

    method AtomicAdd(x: nat) returns (before: Word)
      modifies this
      ensures before == old(word) && word == FetchAdd(old(word), x)
    {
      before := word;
      word := (word + x) % WORD_SPAN;
    }

    /** arrive, uninterrupted: the last of the expected arrivals turns the phase
        and puts the arrivals back to what the participants now expected lack;
        if none are left the reload turns the phase a second time. */
    method Arrive(ghost b: nat, ghost a: nat, ghost e: nat) returns (token: nat)
      requires b <= 1 && a < LIMIT && e <= LIMIT && word == Pack(b, a, e)
      modifies this
      ensures token == b * PHASE_BIT
      ensures word == if a + 1 < LIMIT then Pack(b, a + 1, e) else if e < LIMIT then Pack(1 - b, e, e)
          else Pack(b, 0, e)
    {
      hide FetchAdd, Pack, Phase, ExpectedField;
      AddArrivals(b, a, e, 1);
      PackFields(b, a, e);
      var before := AtomicAdd(ARRIVED_UNIT);
      TopBit(before);
      var after := (before + ARRIVED_UNIT) % WORD_SPAN;
      TopBit(after);
      AddIs(before, ARRIVED_UNIT);
      if a + 1 < LIMIT {
        PackFields(b, a + 1, e);
      } else {
        PackFields(1 - b, 0, e);
      }
      if before / PHASE_BIT != after / PHASE_BIT {
        AddArrivals(1 - b, 0, e, e);
        LowBits(before);
        var _ := AtomicAdd(before % EXPECTED_SPAN * ARRIVED_UNIT);
      }
      token := before / PHASE_BIT * PHASE_BIT;
    }

    /** arrive_and_drop, uninterrupted, by one of at least one participant. */
    method ArriveAndDrop(ghost b: nat, ghost a: nat, ghost e: nat)
      requires b <= 1 && a < LIMIT && e < LIMIT && word == Pack(b, a, e)
      modifies this
      ensures word == if a + 1 < LIMIT then Pack(b, a + 1, e + 1)
                      else if e + 1 < LIMIT then Pack(1 - b, e + 1, e + 1) else Pack(b, 0, e + 1)
    {
      hide FetchAdd, Pack;
      AddExpected(b, a, e);
      var _ := AtomicAdd(1);
      var _ := Arrive(b, a, e + 1);
    }
  }

  lemma TopBit(w: Word)
    ensures Phase(w) == w / PHASE_BIT
  {
  }

  lemma LowBits(w: Word)
    ensures ExpectedField(w) == w % EXPECTED_SPAN
  {
  }

  lemma AddIs(w: Word, x: nat)
    ensures FetchAdd(w, x) == (w + x) % WORD_SPAN
  {
  }
}
