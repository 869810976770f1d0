/** Endless runs of the non-release gate under fair scheduling: every Close returns, whoever keeps arriving. */
module GateFairness {
  import opened Domain
  import opened Gate
  import opened GateRuns

  // --- What brings a thread nearer its end

  // How many moves a thread may still make.
  function Distance(pc: Pc): nat {
    match pc
    case ChooseStart(_) => 17
    case ChooseLocked(_) => 16
    case PhaseChecked(_) => 15
    case ContextChecked(_) => 14
    case Approved => 13
    case PhaseSet => 12
    case Added => 11
    case Launched => 1
    case Refused(_) => 1
    case Chosen(_) => 0
    case Working => 9
    case Linked => 8
    case Prepared => 7
    case Building => 6
    case MustRemove => 5
    case GotHandler => 5
    case Failing => 4
    case ReadyLocked => 4
    case FailLocked => 3
    case ReadySet => 3
    case FailSet => 2
    case HandlerStored => 2
    case Unlocked => 1
    case WorkDone => 0
    case CloseStart(_) => 5
    case CloseLocked(_) => 4
    case Cancelled(_) => 3
    case Waiting(_) => 2
    case Closed(_) => 1
    case AppClosed => 0
  }

  predicate NeedsMutex(pc: Pc) {
    pc.ChooseStart? || pc.CloseStart? || pc.Failing? || pc.GotHandler?
  }

  // The thread has come to its end.
  predicate Finishes(pc: Pc) {
    pc.Chosen? || pc.WorkDone? || pc == Closed(false) || pc.AppClosed?
  }

  // The thread waits for the mutex or for the counter, or has come to its end.
  predicate Waits(v: Shared, pc: Pc) {
    (NeedsMutex(pc) && v.mutex.Some?) || (pc.Waiting? && v.counter != 0) || Finishes(pc)
  }

  predicate CanMove(v: Shared, pc: Pc) {
    !Waits(v, pc)
  }

  lemma WaitingChangesNothing(v: Shared, t: nat, pc: Pc, ok: bool)
    requires Waits(v, pc)
    ensures Move(v, t, pc, ok) == Moved(v, pc, false)
  {
  }

  predicate GetsCloser(pc: Pc, m: Moved) {
    Distance(m.pc) + (if m.spawned then Distance(Working) else 0) < Distance(pc)
  }

  lemma ChooserGetsCloser(v: Shared, t: nat, pc: Pc)
    requires IsChooser(pc) && CanMove(v, pc)
    ensures GetsCloser(pc, ChooserMove(v, t, pc))
  {
  }

  lemma WorkerGetsCloser(v: Shared, t: nat, pc: Pc, ok: bool)
    requires !IsChooser(pc) && !IsCloser(pc) && CanMove(v, pc)
    ensures GetsCloser(pc, WorkerMove(v, t, pc, ok))
  {
  }

  lemma CloserGetsCloser(v: Shared, t: nat, pc: Pc)
    requires IsCloser(pc) && CanMove(v, pc)
    ensures GetsCloser(pc, CloserMove(v, t, pc)) && IsCloser(CloserMove(v, t, pc).pc)
  {
  }

  // A move that is not a wait brings the end nearer, whichever calls fail.
  lemma MoveGetsCloser(v: Shared, t: nat, pc: Pc, ok: bool)
    requires CanMove(v, pc)
    ensures GetsCloser(pc, Move(v, t, pc, ok)) && (IsCloser(pc) ==> IsCloser(Move(v, t, pc, ok).pc))
  {
    if IsChooser(pc) {
      ChooserGetsCloser(v, t, pc);
    } else if IsCloser(pc) {
      CloserGetsCloser(v, t, pc);
    } else {
      WorkerGetsCloser(v, t, pc, ok);
    }
  }

  lemma SteppingIsNearer(s: State, t: nat, ok: bool)
    requires t < |s.threads| && CanMove(s.v, s.threads[t])
    ensures Sum(Distance, Next(s, Step(t, ok)).threads) < Sum(Distance, s.threads)
  {
    MoveGetsCloser(s.v, t, s.threads[t], ok);
    SumApplied(Distance, s, t, Move(s.v, t, s.threads[t], ok));
  }

  lemma {:induction false} SomeoneCounts(threads: seq<Pc>) returns (t: nat)
    requires Sum(Weight, threads) > 0
    ensures t < |threads| && Weight(threads[t]) > 0
  {
    t := |threads| - 1;
    if Weight(threads[t]) == 0 {
      t := SomeoneCounts(threads[..t]);
    }
  }

  // Whoever holds the mutex can move, and so can every counted worker while nobody holds it.
  lemma HolderCanMove(v: Shared, pc: Pc)
    requires HoldsMutex(pc) || (v.mutex == None && Weight(pc) > 0)
    ensures CanMove(v, pc)
  {
  }

  // --- Endless runs

  // An endless run: the state after the first n actions, and the actions.
  datatype Endless = Endless(states: nat -> State, actions: nat -> Action)

  predicate StepsOn(r: Endless, n: nat) {
    r.states(n + 1) == Next(r.states(n), r.actions(n))
  }

  ghost predicate SoundRun(r: Endless) {
    Sound(r.states(0)) && forall n: nat :: StepsOn(r, n)
  }

  predicate Enabled(s: State, t: nat) {
    t < |s.threads| && CanMove(s.v, s.threads[t])
  }

  // Thread t makes a move at time n, and not a wait.
  predicate Moves(r: Endless, t: nat, n: nat) {
    r.actions(n).Step? && r.actions(n).thread == t && Enabled(r.states(n), t)
  }

  ghost predicate EnabledFrom(r: Endless, t: nat, n: nat) {
    exists k: nat :: n <= k && Enabled(r.states(k), t)
  }

  ghost predicate MovesFrom(r: Endless, t: nat, n: nat) {
    exists k: nat :: n <= k && Moves(r, t, k)
  }

  ghost predicate AgainAndAgain(r: Endless, t: nat) {
    forall n: nat :: EnabledFrom(r, t, n)
  }

  // A thread that can move again and again does so again and again. For the mutex it is what
  // sync.Mutex promises: a goroutine that waits gets it in the end. Whether calls fail, who
  // arrives and what happens outside is left open.
  ghost predicate Fair(r: Endless) {
    forall t: nat, n: nat :: AgainAndAgain(r, t) ==> MovesFrom(r, t, n)
  }

  // An endless run from a state that the gate can reach.
  ghost predicate GateRun(r: Endless) {
    Reachable(r.states(0)) && forall n: nat :: StepsOn(r, n)
  }

  lemma {:induction false} RunIsSound(r: Endless, n: nat)
    requires SoundRun(r)
    ensures Sound(r.states(n))
  {
    if n > 0 {
      RunIsSound(r, n - 1);
      assert StepsOn(r, n - 1);
      NextKeepsSound(r.states(n - 1), r.actions(n - 1));
    }
  }

  lemma {:induction false} RunLeads(start: State, r: Endless, n: nat)
    requires SoundRun(r) && Leads(start, r.states(0))
    ensures Leads(start, r.states(n))
  {
    if n > 0 {
      RunLeads(start, r, n - 1);
      assert StepsOn(r, n - 1);
      LeadsOn(start, r.states(n - 1), r.actions(n - 1));
    }
  }

  lemma RunIsReachable(r: Endless, n: nat)
    requires GateRun(r)
    ensures Reachable(r.states(n))
  {
    ReachableIsSound(r.states(0));
    var releaseExists, rival :| Leads(Initial(releaseExists, rival), r.states(0));
    RunLeads(Initial(releaseExists, rival), r, n);
  }

  // --- A thread that should move does

  // Only a thread's own move takes it elsewhere.
  lemma OnlyOwnMoves(s: State, a: Action, t: nat)
    requires t < |s.threads| && !(a.Step? && a.thread == t && CanMove(s.v, s.threads[t]))
    ensures t < |Next(s, a).threads| && Next(s, a).threads[t] == s.threads[t]
  {
    if a.Step? && a.thread < |s.threads| {
      ApplyIsPointwise(s, a.thread, Move(s.v, a.thread, s.threads[a.thread], a.ok));
      if a.thread == t {
        WaitingChangesNothing(s.v, t, s.threads[t], a.ok);
      }
    } else {
      ArrivalsAreInert(s, a);
    }
  }

  lemma {:induction false} StandsUntilItMoves(r: Endless, t: nat, n: nat, k: nat)
    requires SoundRun(r) && n <= k && t < |r.states(n).threads|
    requires forall i: nat | n <= i < k :: !Moves(r, t, i)
    ensures t < |r.states(k).threads| && r.states(k).threads[t] == r.states(n).threads[t]
  {
    if n < k {
      StandsUntilItMoves(r, t, n, k - 1);
      assert !Moves(r, t, k - 1) && StepsOn(r, k - 1);
      OnlyOwnMoves(r.states(k - 1), r.actions(k - 1), t);
    }
  }

  lemma FirstMove(r: Endless, t: nat, n: nat, k: nat) returns (first: nat)
    requires n <= k && Moves(r, t, k)
    ensures n <= first && Moves(r, t, first)
    ensures forall i: nat | n <= i < first :: !Moves(r, t, i)
  {
    first := n;
    while !Moves(r, t, first)
      invariant n <= first <= k
      invariant forall i: nat | n <= i < first :: !Moves(r, t, i)
      decreases k - first
    {
      first := first + 1;
    }
  }

  // At time n thread t stands at pc.
  predicate Stands(r: Endless, t: nat, n: nat, pc: Pc) {
    t < |r.states(n).threads| && r.states(n).threads[t] == pc
  }

  // A thread that, for as long as it stands, can move now or later, moves from where it stands.
  lemma MovesInTheEnd(r: Endless, t: nat, n: nat, pc: Pc) returns (k: nat)
    requires SoundRun(r) && Fair(r) && Stands(r, t, n, pc)
    requires forall m: nat | n <= m && Stands(r, t, m, pc) :: EnabledFrom(r, t, m)
    ensures n <= k && Moves(r, t, k) && Stands(r, t, k, pc)
  {
    if !MovesFrom(r, t, n) {
      forall m: nat
        ensures EnabledFrom(r, t, m)
      {
        var later := if m < n then n else m;
        StandsUntilItMoves(r, t, n, later);
        assert Stands(r, t, later, pc);
      }
      assert AgainAndAgain(r, t);
    }
    var some: nat :| n <= some && Moves(r, t, some);
    k := FirstMove(r, t, n, some);
    StandsUntilItMoves(r, t, n, k);
  }

  // --- The mutex

  function HolderDistance(s: State): nat {
    if s.v.mutex.Some? && s.v.mutex.value < |s.threads| then Distance(s.threads[s.v.mutex.value]) else 0
  }

  lemma HolderStepping(s: State, t: nat, ok: bool)
    requires MutexSound(s) && InRange(s) && t < |s.threads| && HoldsMutex(s.threads[t])
    ensures Next(s, Step(t, ok)).v.mutex.Some? ==>
              HolderDistance(Next(s, Step(t, ok))) < Distance(s.threads[t])
  {
    var m := Move(s.v, t, s.threads[t], ok);
    HolderCanMove(s.v, s.threads[t]);
    MoveGetsCloser(s.v, t, s.threads[t], ok);
    MoveAndMutex(s.v, t, s.threads[t], ok);
    ApplyIsPointwise(s, t, m);
  }

  lemma HolderMoves(r: Endless, n: nat, t: nat, pc: Pc) returns (k: nat)
    requires SoundRun(r) && Fair(r) && Stands(r, t, n, pc) && HoldsMutex(pc)
    ensures n <= k && Moves(r, t, k) && Stands(r, t, k, pc)
  {
    forall m: nat | n <= m && Stands(r, t, m, pc)
      ensures EnabledFrom(r, t, m)
    {
      HolderCanMove(r.states(m).v, pc);
      assert Enabled(r.states(m), t);
    }
    k := MovesInTheEnd(r, t, n, pc);
  }

  lemma RunHoldsMutex(r: Endless, n: nat)
    requires SoundRun(r)
    ensures MutexSound(r.states(n)) && InRange(r.states(n))
  {
    RunIsSound(r, n);
  }

  lemma HolderStepsOn(r: Endless, t: nat, n: nat)
    requires SoundRun(r) && Moves(r, t, n) && HoldsMutex(r.states(n).threads[t])
    ensures r.states(n + 1).v.mutex.Some? ==> HolderDistance(r.states(n + 1)) < Distance(r.states(n).threads[t])
  {
    RunHoldsMutex(r, n);
    assert StepsOn(r, n);
    HolderStepping(r.states(n), t, r.actions(n).ok);
  }

  lemma HolderComesNearer(r: Endless, n: nat) returns (k: nat)
    requires SoundRun(r) && Fair(r) && r.states(n).v.mutex.Some?
    ensures n < k
    ensures r.states(k).v.mutex.Some? ==> HolderDistance(r.states(k)) < HolderDistance(r.states(n))
  {
    RunHoldsMutex(r, n);
    var t := r.states(n).v.mutex.value;
    var f := HolderMoves(r, n, t, r.states(n).threads[t]);
    HolderStepsOn(r, t, f);
    k := f + 1;
  }

  /** In a fair run the mutex is free again and again. */
  lemma MutexIsFreeAgain(r: Endless, n: nat) returns (k: nat)
    requires SoundRun(r) && Fair(r)
    ensures n <= k && r.states(k).v.mutex == None
  {
    k := n;
    while r.states(k).v.mutex.Some?
      invariant n <= k
      decreases r.states(k).v.mutex.Some?, HolderDistance(r.states(k))
    {
      k := HolderComesNearer(r, k);
    }
  }

  // A thread that needs the mutex can move before long, if it does not move before.
  lemma EnabledOnceFree(r: Endless, t: nat, n: nat, pc: Pc)
    requires SoundRun(r) && Fair(r) && Stands(r, t, n, pc) && NeedsMutex(pc)
    ensures EnabledFrom(r, t, n)
  {
    var k := MutexIsFreeAgain(r, n);
    if i: nat :| n <= i < k && Moves(r, t, i) {
      assert Enabled(r.states(i), t);
    } else {
      StandsUntilItMoves(r, t, n, k);
      assert Enabled(r.states(k), t);
    }
  }

  /** In a fair run nobody waits for the mutex for ever: a thread moves unless it ends or waits for the counter. */
  lemma EveryThreadMoves(r: Endless, t: nat, n: nat, pc: Pc) returns (k: nat)
    requires SoundRun(r) && Fair(r) && Stands(r, t, n, pc)
    requires !Finishes(pc) && !pc.Waiting?
    ensures n <= k && Moves(r, t, k) && Stands(r, t, k, pc)
  {
    forall m: nat | n <= m && Stands(r, t, m, pc)
      ensures EnabledFrom(r, t, m)
    {
      if NeedsMutex(pc) {
        EnabledOnceFree(r, t, m, pc);
      } else {
        assert Enabled(r.states(m), t);
      }
    }
    k := MovesInTheEnd(r, t, n, pc);
  }

  // --- The workers

  // How many moves a counted worker may still make.
  function WorkLeft(pc: Pc): nat {
    if Weight(pc) > 0 then Distance(pc) else 0
  }

  predicate ShedsWork(pc: Pc, m: Moved, canMove: bool) {
    var left := WorkLeft(m.pc) + if m.spawned then WorkLeft(Working) else 0;
    left <= WorkLeft(pc) && (canMove && WorkLeft(pc) > 0 ==> left < WorkLeft(pc))
  }

  lemma ChooserShedsWork(v: Shared, t: nat, pc: Pc)
    requires v.cancelled && !AboutToAdd(pc) && IsChooser(pc)
    ensures ShedsWork(pc, ChooserMove(v, t, pc), true)
  {
  }

  // Once the context is cancelled and nobody is about to Add, no move makes work.
  lemma MoveShedsWork(v: Shared, t: nat, pc: Pc, ok: bool)
    requires v.cancelled && !AboutToAdd(pc)
    ensures ShedsWork(pc, Move(v, t, pc, ok), CanMove(v, pc))
  {
    if IsChooser(pc) {
      ChooserShedsWork(v, t, pc);
    } else if CanMove(v, pc) {
      MoveGetsCloser(v, t, pc, ok);
    } else {
      WaitingChangesNothing(v, t, pc, ok);
    }
  }

  lemma {:induction false} InertWork(before: seq<Pc>, after: seq<Pc>)
    requires |before| <= |after| && forall t | 0 <= t < |before| :: after[t] == before[t]
    requires forall t | |before| <= t < |after| :: WorkLeft(after[t]) == 0
    ensures Sum(WorkLeft, after) == Sum(WorkLeft, before)
  {
    if |before| < |after| {
      InertWork(before, after[..|after| - 1]);
    } else {
      assert after == before;
    }
  }

  function Work(s: State): nat {
    Sum(WorkLeft, s.threads)
  }

  lemma StepShedsWork(s: State, t: nat, ok: bool)
    requires s.v.cancelled && t < |s.threads| && !AboutToAdd(s.threads[t])
    ensures Work(Next(s, Step(t, ok))) <= Work(s)
    ensures CanMove(s.v, s.threads[t]) && Weight(s.threads[t]) > 0 ==> Work(Next(s, Step(t, ok))) < Work(s)
  {
    MoveShedsWork(s.v, t, s.threads[t], ok);
    SumApplied(WorkLeft, s, t, Move(s.v, t, s.threads[t], ok));
  }

  lemma ActionShedsWork(s: State, c: nat, a: Action)
    requires Sound(s) && c < |s.threads| && PastCancel(s.threads[c])
    ensures Work(Next(s, a)) <= Work(s)
  {
    NobodyAboutToAdd(s, c);
    if a.Step? && a.thread < |s.threads| {
      StepShedsWork(s, a.thread, a.ok);
    } else {
      ArrivalsAreInert(s, a);
      InertWork(s.threads, Next(s, a).threads);
    }
  }

  lemma NextGrowsNothing(r: Endless, c: nat, n: nat)
    requires SoundRun(r) && c < |r.states(n).threads| && PastCancel(r.states(n).threads[c])
    ensures c < |r.states(n + 1).threads| && PastCancel(r.states(n + 1).threads[c])
    ensures Work(r.states(n + 1)) <= Work(r.states(n)) && r.states(n + 1).v.counter <= r.states(n).v.counter
  {
    RunIsSound(r, n);
    assert StepsOn(r, n);
    ActionShedsWork(r.states(n), c, r.actions(n));
    NoAddOnceClosing(r.states(n), c, r.actions(n));
  }

  // Past its cancel at time n, the closer stays so; neither the work nor the counter grows.
  lemma {:induction false} NothingGrows(r: Endless, c: nat, n: nat, k: nat)
    requires SoundRun(r) && n <= k && c < |r.states(n).threads| && PastCancel(r.states(n).threads[c])
    ensures c < |r.states(k).threads| && PastCancel(r.states(k).threads[c])
    ensures Work(r.states(k)) <= Work(r.states(n)) && r.states(k).v.counter <= r.states(n).v.counter
  {
    if n < k {
      NothingGrows(r, c, n, k - 1);
      NextGrowsNothing(r, c, k - 1);
    }
  }

  lemma CountersAreNatural(r: Endless, n: nat)
    requires SoundRun(r)
    ensures r.states(n).v.counter >= 0
    ensures r.states(n).v.counter == Sum(Weight, r.states(n).threads)
  {
    RunIsSound(r, n);
  }

  lemma CountedGoesOn(pc: Pc)
    requires Weight(pc) > 0
    ensures !Finishes(pc) && !pc.Waiting?
  {
  }

  lemma WorkerShedsWork(r: Endless, c: nat, w: nat, n: nat)
    requires SoundRun(r) && Moves(r, w, n) && Weight(r.states(n).threads[w]) > 0
    requires c < |r.states(n).threads| && PastCancel(r.states(n).threads[c])
    ensures Work(r.states(n + 1)) < Work(r.states(n))
  {
    RunIsSound(r, n);
    NobodyAboutToAdd(r.states(n), c);
    assert StepsOn(r, n);
    StepShedsWork(r.states(n), w, r.actions(n).ok);
  }

  lemma SomeWorkerMoves(r: Endless, n: nat) returns (w: nat, f: nat)
    requires SoundRun(r) && Fair(r) && r.states(n).v.counter > 0
    ensures n <= f && Moves(r, w, f) && Weight(r.states(f).threads[w]) > 0
  {
    CountersAreNatural(r, n);
    w := SomeoneCounts(r.states(n).threads);
    CountedGoesOn(r.states(n).threads[w]);
    f := EveryThreadMoves(r, w, n, r.states(n).threads[w]);
  }

  // Some counted worker moves, and from then on there is less work.
  lemma WorkGrowsLess(r: Endless, c: nat, n: nat) returns (k: nat)
    requires SoundRun(r) && Fair(r) && r.states(n).v.counter > 0
    requires c < |r.states(n).threads| && PastCancel(r.states(n).threads[c])
    ensures n < k && Work(r.states(k)) < Work(r.states(n))
  {
    var w, f := SomeWorkerMoves(r, n);
    NothingGrows(r, c, n, f);
    WorkerShedsWork(r, c, w, f);
    k := f + 1;
  }

  lemma WorkersFinish(r: Endless, c: nat, n: nat) returns (k: nat)
    requires SoundRun(r) && Fair(r)
    requires c < |r.states(n).threads| && PastCancel(r.states(n).threads[c])
    ensures n <= k && r.states(k).v.counter == 0
    ensures c < |r.states(k).threads| && PastCancel(r.states(k).threads[c])
  {
    k := n;
    while r.states(k).v.counter > 0
      invariant n <= k && c < |r.states(k).threads| && PastCancel(r.states(k).threads[c])
      decreases Work(r.states(k))
    {
      var next := WorkGrowsLess(r, c, k);
      NothingGrows(r, c, k, next);
      k := next;
    }
    CountersAreNatural(r, k);
  }

  // --- The closer

  lemma CloserStepping(s: State, c: nat, ok: bool)
    requires Enabled(s, c) && IsCloser(s.threads[c])
    ensures c < |Next(s, Step(c, ok)).threads| && IsCloser(Next(s, Step(c, ok)).threads[c])
    ensures Distance(Next(s, Step(c, ok)).threads[c]) < Distance(s.threads[c])
  {
    MoveGetsCloser(s.v, c, s.threads[c], ok);
    ApplyIsPointwise(s, c, Move(s.v, c, s.threads[c], ok));
  }

  lemma CloserComesNearer(r: Endless, c: nat, n: nat)
    requires SoundRun(r) && Moves(r, c, n) && IsCloser(r.states(n).threads[c])
    ensures c < |r.states(n + 1).threads| && IsCloser(r.states(n + 1).threads[c])
    ensures Distance(r.states(n + 1).threads[c]) < Distance(r.states(n).threads[c])
  {
    assert StepsOn(r, n);
    CloserStepping(r.states(n), c, r.actions(n).ok);
  }

  // A closer not past its cancel is about to move.
  lemma EarlyCloserMoves(r: Endless, c: nat, n: nat) returns (k: nat)
    requires SoundRun(r) && Fair(r) && c < |r.states(n).threads|
    requires IsCloser(r.states(n).threads[c]) && !PastCancel(r.states(n).threads[c])
    ensures n < k && c < |r.states(k).threads| && IsCloser(r.states(k).threads[c])
    ensures Distance(r.states(k).threads[c]) < Distance(r.states(n).threads[c])
  {
    var f := EveryThreadMoves(r, c, n, r.states(n).threads[c]);
    CloserComesNearer(r, c, f);
    k := f + 1;
  }

  lemma CloserCancels(r: Endless, c: nat, n: nat) returns (k: nat)
    requires SoundRun(r) && Fair(r)
    requires c < |r.states(n).threads| && IsCloser(r.states(n).threads[c])
    ensures n <= k && c < |r.states(k).threads| && PastCancel(r.states(k).threads[c])
  {
    k := n;
    while !PastCancel(r.states(k).threads[c])
      invariant n <= k && c < |r.states(k).threads| && IsCloser(r.states(k).threads[c])
      decreases Distance(r.states(k).threads[c])
    {
      k := EarlyCloserMoves(r, c, k);
    }
  }

  // With the counter at zero for good, a closer past its cancel moves too.
  lemma CloserMoves(r: Endless, c: nat, n: nat, pc: Pc) returns (k: nat)
    requires SoundRun(r) && Fair(r) && Stands(r, c, n, pc)
    requires PastCancel(pc) && !Finishes(pc) && r.states(n).v.counter == 0
    ensures n <= k && Moves(r, c, k) && Stands(r, c, k, pc)
  {
    forall m: nat | n <= m && Stands(r, c, m, pc)
      ensures EnabledFrom(r, c, m)
    {
      NothingGrows(r, c, n, m);
      RunIsSound(r, m);
      assert Enabled(r.states(m), c);
    }
    k := MovesInTheEnd(r, c, n, pc);
  }

  lemma CloserAdvances(r: Endless, c: nat, n: nat) returns (k: nat)
    requires SoundRun(r) && Fair(r) && r.states(n).v.counter == 0
    requires c < |r.states(n).threads| && PastCancel(r.states(n).threads[c]) && !Finishes(r.states(n).threads[c])
    ensures n < k && c < |r.states(k).threads|
    ensures Distance(r.states(k).threads[c]) < Distance(r.states(n).threads[c])
  {
    var f := CloserMoves(r, c, n, r.states(n).threads[c]);
    CloserComesNearer(r, c, f);
    k := f + 1;
  }

  lemma CloserFinishes(r: Endless, c: nat, n: nat) returns (k: nat)
    requires SoundRun(r) && Fair(r) && r.states(n).v.counter == 0
    requires c < |r.states(n).threads| && PastCancel(r.states(n).threads[c])
    ensures n <= k && c < |r.states(k).threads| && PastCancel(r.states(k).threads[c])
    ensures Finishes(r.states(k).threads[c])
  {
    k := n;
    while !Finishes(r.states(k).threads[c])
      invariant n <= k && c < |r.states(k).threads| && PastCancel(r.states(k).threads[c])
      invariant r.states(k).v.counter == 0
      decreases Distance(r.states(k).threads[c])
    {
      var next := CloserAdvances(r, c, k);
      NothingGrows(r, c, k, next);
      CountersAreNatural(r, next);
      k := next;
    }
  }

  // A close that main makes, and its end.
  predicate ByMain(pc: Pc) {
    BusyMain(pc) || pc.AppClosed?
  }

  lemma NextKeepsMain(s: State, c: nat, a: Action)
    requires c < |s.threads| && ByMain(s.threads[c])
    ensures c < |Next(s, a).threads| && ByMain(Next(s, a).threads[c])
  {
    if a.Step? && a.thread == c {
      assert IsCloser(s.threads[c]) && ByMain(CloserMove(s.v, c, s.threads[c]).pc);
      ApplyIsPointwise(s, c, Move(s.v, c, s.threads[c], a.ok));
    } else {
      OnlyOwnMoves(s, a, c);
    }
  }

  lemma {:induction false} MainStaysMain(r: Endless, c: nat, n: nat, k: nat)
    requires SoundRun(r) && n <= k && c < |r.states(n).threads| && ByMain(r.states(n).threads[c])
    ensures c < |r.states(k).threads| && ByMain(r.states(k).threads[c])
  {
    if n < k {
      MainStaysMain(r, c, n, k - 1);
      assert StepsOn(r, k - 1);
      NextKeepsMain(r.states(k - 1), c, r.actions(k - 1));
    }
  }

  /**
   * No Close hangs: in every fair run, whoever keeps arriving, whichever calls fail and
   * whatever rivals do, a closer comes to its end, wherever it stands.
   */
  lemma EveryFairCloseReturns(r: Endless, c: nat, n: nat) returns (k: nat)
    requires GateRun(r) && Fair(r)
    requires c < |r.states(n).threads| && IsCloser(r.states(n).threads[c])
    ensures n <= k && c < |r.states(k).threads|
    ensures Returned(r.states(k).threads[c]) && Finishes(r.states(k).threads[c])
  {
    ReachableIsSound(r.states(0));
    k := CloserCancels(r, c, n);
    k := WorkersFinish(r, c, k);
    k := CloserFinishes(r, c, k);
  }

  /** So once main begins to close, every application ever stored is closed in the end, exactly once. */
  lemma EveryFairRunClosesItsApps(r: Endless, c: nat, n: nat) returns (k: nat)
    requires GateRun(r) && Fair(r)
    requires c < |r.states(n).threads| && ByMain(r.states(n).threads[c])
    ensures n <= k && r.states(k).v.app == None
    ensures forall a | a in r.states(k).v.stored :: r.states(k).v.closes[a] == 1
  {
    ReachableIsSound(r.states(0));
    k := EveryFairCloseReturns(r, c, n);
    MainStaysMain(r, c, n, k);
    RunIsReachable(r, k);
    AppsAreClosedExactlyOnce(r.states(k));
  }

  // --- Fair runs exist

  // A walk over the thread numbers that comes back to each again and again.
  datatype Walk = Walk(at: nat, bound: nat)

  function Walked(n: nat): (w: Walk)
    ensures w.at <= w.bound
  {
    if n == 0 then Walk(0, 0) else
    var w := Walked(n - 1);
    if w.at < w.bound then w.(at := w.at + 1) else Walk(0, w.bound + 1)
  }

  lemma WalksBack(m: nat) returns (n: nat)
    ensures m < n && Walked(n).at == 0 && Walked(n).bound == Walked(m).bound + 1
  {
    n := m;
    while Walked(n).at < Walked(n).bound
      invariant m <= n && Walked(n).bound == Walked(m).bound
      decreases Walked(n).bound - Walked(n).at
    {
      n := n + 1;
    }
    n := n + 1;
  }

  lemma WalksTo(t: nat, m: nat) returns (n: nat)
    ensures m < n && Walked(n).at == t
  {
    n := WalksBack(m);
    while Walked(n).bound < t
      invariant m < n && Walked(n).at == 0
      decreases t - Walked(n).bound
    {
      n := WalksBack(n);
    }
    while Walked(n).at < t
      invariant m < n && Walked(n).at <= t <= Walked(n).bound
      decreases t - Walked(n).at
    {
      n := n + 1;
    }
  }

  function Turn(n: nat): Action {
    Step(Walked(n).at, true)
  }

  function TakingTurns(s: State, n: nat): State {
    if n == 0 then s else Next(TakingTurns(s, n - 1), Turn(n - 1))
  }

  ghost predicate Quiet(r: Endless, n: nat) {
    forall t: nat, k: nat | n <= k :: !Moves(r, t, k)
  }

  lemma NotMyTurn(r: Endless, n: nat)
    requires StepsOn(r, n) && r.actions(n).Step? && !Moves(r, r.actions(n).thread, n)
    ensures r.states(n + 1) == r.states(n)
  {
    var s, a := r.states(n), r.actions(n);
    if a.thread < |s.threads| {
      WaitingChangesNothing(s.v, a.thread, s.threads[a.thread], a.ok);
      assert s.threads[a.thread := s.threads[a.thread]] + [] == s.threads;
    }
  }

  lemma TurnIsNotFarther(r: Endless, n: nat)
    requires StepsOn(r, n) && r.actions(n).Step?
    ensures Sum(Distance, r.states(n + 1).threads) <= Sum(Distance, r.states(n).threads)
    ensures !Moves(r, r.actions(n).thread, n) ==> r.states(n + 1) == r.states(n)
  {
    var a := r.actions(n);
    if Moves(r, a.thread, n) {
      SteppingIsNearer(r.states(n), a.thread, a.ok);
    } else {
      NotMyTurn(r, n);
    }
  }

  // Where nobody arrives, nothing brings the end farther away.
  lemma {:induction false} NeverFarther(r: Endless, n: nat, k: nat)
    requires n <= k && forall i: nat :: StepsOn(r, i) && r.actions(i).Step?
    ensures Sum(Distance, r.states(k).threads) <= Sum(Distance, r.states(n).threads)
  {
    if n < k {
      NeverFarther(r, n, k - 1);
      TurnIsNotFarther(r, k - 1);
    }
  }

  lemma {:induction false} QuietIsStill(r: Endless, n: nat, k: nat)
    requires n <= k && Quiet(r, n) && forall i: nat :: StepsOn(r, i) && r.actions(i).Step?
    ensures r.states(k) == r.states(n)
  {
    if n < k {
      QuietIsStill(r, n, k - 1);
      TurnIsNotFarther(r, k - 1);
    }
  }

  lemma QuietInTheEnd(r: Endless) returns (n: nat)
    requires forall i: nat :: StepsOn(r, i) && r.actions(i).Step?
    ensures Quiet(r, n)
  {
    n := 0;
    while !Quiet(r, n)
      decreases Sum(Distance, r.states(n).threads)
    {
      var t: nat, k: nat :| n <= k && Moves(r, t, k);
      NeverFarther(r, n, k);
      SteppingIsNearer(r.states(k), t, r.actions(k).ok);
      assert StepsOn(r, k);
      n := k + 1;
    }
  }

  /** Fairness asks nothing impossible: from every reachable state some run is fair, threads taking turns. */
  lemma FairRunsExist(s: State) returns (r: Endless)
    requires Reachable(s)
    ensures GateRun(r) && Fair(r) && r.states(0) == s
  {
    r := Endless((n: nat) => TakingTurns(s, n), (n: nat) => Turn(n));
    assert forall i: nat :: StepsOn(r, i);
    var quiet := QuietInTheEnd(r);
    forall t: nat | AgainAndAgain(r, t)
      ensures false
    {
      assert EnabledFrom(r, t, quiet);
      var k: nat :| quiet <= k && Enabled(r.states(k), t);
      var turn := WalksTo(t, k);
      QuietIsStill(r, quiet, k);
      QuietIsStill(r, quiet, turn);
      assert Moves(r, t, turn);
    }
  }

  /** In particular, from every reachable state letting threads move is enough for a close to return. */
  lemma EveryCloseCanReturn(s: State, c: nat) returns (later: State)
    requires Reachable(s) && c < |s.threads| && IsCloser(s.threads[c])
    ensures Leads(s, later) && c < |later.threads| && Returned(later.threads[c])
  {
    var r := FairRunsExist(s);
    var k := EveryFairCloseReturns(r, c, 0);
    ReachableIsSound(s);
    StaysItself(s);
    RunLeads(s, r, k);
    later := r.states(k);
  }
}
