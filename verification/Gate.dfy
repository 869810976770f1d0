/**
 * The non-release gate as concurrent choices, workers and closers (nonrelease.go), with the
 * callback and shutdown closure that own the application (cmd/pit-officer/main.go).
 */
module Gate {
  import opened Domain

  datatype Phase = Choice | Preparing | Failed | Ready

  // Who created the database file under the gate's own path, if it exists.
  datatype Own = Absent | Rival | Published(worker: nat)

  // Where a goroutine stands between two atomic actions. A chooser and a closer run in a
  // request or in main; a worker is launched by a chooser.
  datatype Pc =
    // choose
    | ChooseStart(fromRelease: bool)
    | ChooseLocked(fromRelease: bool)
    | PhaseChecked(fromRelease: bool)
    | ContextChecked(fromRelease: bool)
    | Approved
    | PhaseSet
    | Added
    | Launched
    | Refused(error: Error)
    | Chosen(refusal: Option<Error>)
    // prepareAndBuild
    | Working
    | Linked
    | Prepared
    | Building
    | MustRemove
    | Failing
    | GotHandler
    | FailLocked
    | FailSet
    | ReadyLocked
    | ReadySet
    | HandlerStored
    | Unlocked
    | WorkDone
    // Close, and closeApp when main calls it
    | CloseStart(main: bool)
    | CloseLocked(main: bool)
    | Cancelled(main: bool)
    | Waiting(main: bool)
    | Closed(main: bool)
    | AppClosed

  // The shared variables. handler is the worker whose application is served, none for the
  // gate's own router; app, stored and closes are main's application variable, everything ever
  // stored in it, and how often each was closed.
  datatype Shared = Shared(
    phase: Phase, mutex: Option<nat>, cancelled: bool, counter: int, handler: Option<nat>,
    releaseExists: bool, own: Own, app: Option<nat>, stored: set<nat>, closes: multiset<nat>)

  datatype State = State(v: Shared, threads: seq<Pc>)

  datatype Action =
    | ArriveChooser(fromRelease: bool)
    | ArriveCloser(main: bool)
    | CancelOutside
    | RivalCreates
    | RivalRemoves
    | Step(thread: nat, ok: bool)

  function Start(releaseExists: bool, own: Own): State {
    State(Shared(Choice, None, false, 0, None, releaseExists, own, None, {}, multiset{}), [])
  }

  // A move of thread t at pc: the new shared variables, its new pc, and a worker it launches.
  // ok is the outcome of a call that can fail. A move that must wait changes nothing.
  datatype Moved = Moved(v: Shared, pc: Pc, spawned: bool)

  function Lock(v: Shared, t: nat, from: Pc, to: Pc): Moved {
    if v.mutex == None then Moved(v.(mutex := Some(t)), to, false) else Moved(v, from, false)
  }

  function Unlock(v: Shared, to: Pc): Moved {
    Moved(v.(mutex := None), to, false)
  }

  function ChooserMove(v: Shared, t: nat, pc: Pc): Moved {
    match pc
    case ChooseStart(fromRelease) => Lock(v, t, pc, ChooseLocked(fromRelease))
    case ChooseLocked(fromRelease) =>
      Moved(v, if v.phase == Choice || v.phase == Failed then PhaseChecked(fromRelease) else Refused(Conflict), false)
    case PhaseChecked(fromRelease) =>
      Moved(v, if v.cancelled then Refused(Conflict) else ContextChecked(fromRelease), false)
    case ContextChecked(fromRelease) =>
      Moved(v, if fromRelease && !v.releaseExists then Refused(Invalid) else Approved, false)
    case Approved => Moved(v.(phase := Preparing), PhaseSet, false)
    case PhaseSet => Moved(v.(counter := v.counter + 1), Added, false)
    case Added => Moved(v, Launched, true)
    case Launched => Unlock(v, Chosen(None))
    case Refused(error) => Unlock(v, Chosen(Some(error)))
    case _ => Moved(v, pc, false)
  }

  function WorkerMove(v: Shared, t: nat, pc: Pc, ok: bool): Moved {
    match pc
    // prepare fails on its own, or links its file to the own path if nothing is there
    case Working =>
      if ok && v.own == Absent then Moved(v.(own := Published(t)), Linked, false) else Moved(v, Failing, false)
    // prepare removes its temporary file, which can fail after publication
    case Linked => Moved(v, if ok then Prepared else Failing, false)
    case Prepared => Moved(v, if v.cancelled then Failing else Building, false)
    // the callback stores the application it built before it returns the handler
    case Building =>
      if ok then Moved(v.(app := Some(t), stored := v.stored + {t}), GotHandler, false) else Moved(v, MustRemove, false)
    case MustRemove => Moved(if ok then v.(own := Absent) else v, Failing, false)
    case Failing => Lock(v, t, pc, FailLocked)
    case FailLocked => Moved(v.(phase := Failed), FailSet, false)
    case FailSet => Unlock(v, Unlocked)
    case GotHandler => Lock(v, t, pc, ReadyLocked)
    case ReadyLocked => Moved(v.(phase := Ready), ReadySet, false)
    case ReadySet => Moved(v.(handler := Some(t)), HandlerStored, false)
    case HandlerStored => Unlock(v, Unlocked)
    case Unlocked => Moved(v.(counter := v.counter - 1), WorkDone, false)
    case _ => Moved(v, pc, false)
  }

  function CloserMove(v: Shared, t: nat, pc: Pc): Moved {
    match pc
    case CloseStart(main) => Lock(v, t, pc, CloseLocked(main))
    case CloseLocked(main) => Moved(v.(cancelled := true), Cancelled(main), false)
    case Cancelled(main) => Unlock(v, Waiting(main))
    case Waiting(main) => if v.counter == 0 then Moved(v, Closed(main), false) else Moved(v, pc, false)
    case Closed(true) =>
      if v.app.None? then Moved(v, AppClosed, false)
      else Moved(v.(closes := v.closes + multiset{v.app.value}, app := None), AppClosed, false)
    case _ => Moved(v, pc, false)
  }

  predicate IsChooser(pc: Pc) {
    pc.ChooseStart? || pc.ChooseLocked? || pc.PhaseChecked? || pc.ContextChecked? || pc.Approved? || pc.PhaseSet?
    || pc.Added? || pc.Launched? || pc.Refused? || pc.Chosen?
  }

  predicate IsCloser(pc: Pc) {
    pc.CloseStart? || pc.CloseLocked? || pc.Cancelled? || pc.Waiting? || pc.Closed? || pc.AppClosed?
  }

  function Move(v: Shared, t: nat, pc: Pc, ok: bool): Moved {
    if IsChooser(pc) then ChooserMove(v, t, pc) else if IsCloser(pc) then CloserMove(v, t, pc) else WorkerMove(v, t, pc, ok)
  }

  predicate MainIsClosing(threads: seq<Pc>) {
    exists t :: 0 <= t < |threads| && BusyMain(threads[t])
  }

  predicate BusyMain(pc: Pc) {
    (pc.CloseStart? || pc.CloseLocked? || pc.Cancelled? || pc.Waiting? || pc.Closed?) && pc.main
  }

  function Apply(s: State, t: nat, m: Moved): State
    requires t < |s.threads|
  {
    State(m.v, s.threads[t := m.pc] + if m.spawned then [Working] else [])
  }

  function Next(s: State, a: Action): State {
    match a
    case ArriveChooser(fromRelease) => s.(threads := s.threads + [ChooseStart(fromRelease)])
    case ArriveCloser(main) =>
      // main closes from one goroutine, one call after another
      if main && MainIsClosing(s.threads) then s else s.(threads := s.threads + [CloseStart(main)])
    case CancelOutside => s.(v := s.v.(cancelled := true))
    case RivalCreates => if s.v.own == Absent then s.(v := s.v.(own := Rival)) else s
    case RivalRemoves => if s.v.own == Rival then s.(v := s.v.(own := Absent)) else s
    case Step(t, ok) => if t < |s.threads| then Apply(s, t, Move(s.v, t, s.threads[t], ok)) else s
  }

  function Run(s: State, actions: seq<Action>): State {
    if actions == [] then s else Next(Run(s, actions[..|actions| - 1]), actions[|actions| - 1])
  }

  // --- What each pc means for the shared variables

  predicate HoldsMutex(pc: Pc) {
    pc.ChooseLocked? || pc.PhaseChecked? || pc.ContextChecked? || pc.Approved? || pc.PhaseSet? || pc.Added?
    || pc.Launched? || pc.Refused? || pc.FailLocked? || pc.FailSet? || pc.ReadyLocked? || pc.ReadySet?
    || pc.HandlerStored? || pc.CloseLocked? || pc.Cancelled?
  }

  // A preparation that is launched, or about to be, and has not yet published its outcome.
  predicate Unpublished(pc: Pc) {
    pc.PhaseSet? || pc.Added? || pc.Working? || pc.Linked? || pc.Prepared? || pc.Building? || pc.MustRemove?
    || pc.Failing? || pc.GotHandler? || pc.FailLocked? || pc.ReadyLocked?
  }

  // A worker that exists and has not called Done.
  predicate Live(pc: Pc) {
    pc.Working? || pc.Linked? || pc.Prepared? || pc.Building? || pc.MustRemove? || pc.Failing? || pc.GotHandler?
    || pc.FailLocked? || pc.FailSet? || pc.ReadyLocked? || pc.ReadySet? || pc.HandlerStored? || pc.Unlocked?
  }

  function Weight(pc: Pc): nat {
    if Live(pc) || pc.Added? then 1 else 0
  }

  function Sum(weight: Pc -> nat, threads: seq<Pc>): nat {
    if threads == [] then 0 else Sum(weight, threads[..|threads| - 1]) + weight(threads[|threads| - 1])
  }

  // Past the context check and not yet past Add.
  predicate AboutToAdd(pc: Pc) {
    pc.ContextChecked? || pc.Approved? || pc.PhaseSet?
  }

  predicate PastCancel(pc: Pc) {
    pc.Cancelled? || pc.Waiting? || pc.Closed? || pc.AppClosed?
  }

  predicate Returned(pc: Pc) {
    pc.Closed? || pc.AppClosed?
  }

  // A worker whose prepare published the file and whose build did not yet remove it.
  predicate OwnsFile(pc: Pc) {
    pc.Linked? || pc.Prepared? || pc.Building? || pc.MustRemove? || pc.GotHandler? || pc.ReadyLocked?
  }

  // --- The mutex

  predicate MutexSound(s: State) {
    forall t | 0 <= t < |s.threads| :: HoldsMutex(s.threads[t]) <==> s.v.mutex == Some(t)
  }

  // All a move may do to the mutex.
  predicate MutexMove(v: Shared, t: nat, pc: Pc, m: Moved) {
    && (HoldsMutex(m.pc) <==> m.v.mutex == Some(t))
    && (m.v.mutex == v.mutex || (v.mutex == None && m.v.mutex == Some(t)) || (v.mutex == Some(t) && m.v.mutex == None))
  }

  lemma ChooserMutexMove(v: Shared, t: nat, pc: Pc)
    requires IsChooser(pc) && (HoldsMutex(pc) <==> v.mutex == Some(t))
    ensures MutexMove(v, t, pc, ChooserMove(v, t, pc))
  {
  }

  lemma WorkerMutexMove(v: Shared, t: nat, pc: Pc, ok: bool)
    requires !IsChooser(pc) && !IsCloser(pc) && (HoldsMutex(pc) <==> v.mutex == Some(t))
    ensures MutexMove(v, t, pc, WorkerMove(v, t, pc, ok))
  {
  }

  lemma CloserMutexMove(v: Shared, t: nat, pc: Pc)
    requires IsCloser(pc) && (HoldsMutex(pc) <==> v.mutex == Some(t))
    ensures MutexMove(v, t, pc, CloserMove(v, t, pc))
  {
  }

  lemma MoveAndMutex(v: Shared, t: nat, pc: Pc, ok: bool)
    requires HoldsMutex(pc) <==> v.mutex == Some(t)
    ensures MutexMove(v, t, pc, Move(v, t, pc, ok))
  {
    if IsChooser(pc) {
      ChooserMutexMove(v, t, pc);
    } else if IsCloser(pc) {
      CloserMutexMove(v, t, pc);
    } else {
      WorkerMutexMove(v, t, pc, ok);
    }
  }

  lemma MutexApplied(s: State, t: nat, m: Moved)
    requires MutexSound(s) && InRange(s) && t < |s.threads| && MutexMove(s.v, t, s.threads[t], m)
    ensures MutexSound(Apply(s, t, m)) && InRange(Apply(s, t, m))
  {
  }

  predicate InRange(s: State) {
    s.v.mutex.Some? ==> s.v.mutex.value < |s.threads|
  }

  lemma MutexStaysSound(s: State, a: Action)
    requires MutexSound(s) && InRange(s)
    ensures MutexSound(Next(s, a)) && InRange(Next(s, a))
  {
    if a.Step? && a.thread < |s.threads| {
      MoveAndMutex(s.v, a.thread, s.threads[a.thread], a.ok);
      MutexApplied(s, a.thread, Move(s.v, a.thread, s.threads[a.thread], a.ok));
    }
  }

  // --- The phase

  predicate PhaseFits(phase: Phase, handler: Option<nat>, pc: Pc) {
    && (pc.PhaseChecked? || pc.ContextChecked? || pc.Approved? ==> phase == Choice || phase == Failed)
    && (Unpublished(pc) ==> phase == Preparing)
    && (pc.ReadySet? ==> phase == Ready && handler == None)
  }

  // Preparing means exactly one unpublished preparation; the handler is the application's once
  // ready, but for the instant between the two stores.
  predicate PhaseSound(s: State) {
    && (forall t | 0 <= t < |s.threads| :: PhaseFits(s.v.phase, s.v.handler, s.threads[t]))
    && (s.v.phase == Preparing ==> exists t :: 0 <= t < |s.threads| && Unpublished(s.threads[t]))
    && (forall t, u | 0 <= t < u < |s.threads| :: !(Unpublished(s.threads[t]) && Unpublished(s.threads[u])))
    && (s.v.handler.Some? ==> s.v.phase == Ready)
    && (s.v.phase == Ready && s.v.handler == None ==> exists t :: 0 <= t < |s.threads| && s.threads[t].ReadySet?)
  }

  // All a move may do to the phase and the handler.
  predicate PhaseMove(v: Shared, t: nat, pc: Pc, m: Moved) {
    && PhaseFits(m.v.phase, m.v.handler, m.pc)
    && (m.v.handler != v.handler ==> pc.ReadySet? && !m.pc.ReadySet? && m.v.handler == Some(t))
    && (m.spawned ==> Unpublished(pc) && !Unpublished(m.pc))
    && (pc.ReadySet? && !m.pc.ReadySet? ==> m.v.handler.Some?)
    && if m.v.phase == v.phase
       then (Unpublished(pc) <==> Unpublished(m.pc) || m.spawned) && (m.pc.ReadySet? ==> pc.ReadySet?)
       else && HoldsMutex(pc) && m.v.handler == v.handler && !m.spawned
            && (m.v.phase == Preparing ==> Unpublished(m.pc) && v.phase != Ready)
            && (m.v.phase != Preparing ==> Unpublished(pc) && !Unpublished(m.pc) && v.phase == Preparing)
            && (m.v.phase == Ready ==> m.pc.ReadySet?)
  }

  lemma ChooserPhaseMove(v: Shared, t: nat, pc: Pc)
    requires IsChooser(pc) && PhaseFits(v.phase, v.handler, pc) && (v.handler.Some? ==> v.phase == Ready)
    ensures PhaseMove(v, t, pc, ChooserMove(v, t, pc))
  {
  }

  lemma WorkerPhaseMove(v: Shared, t: nat, pc: Pc, ok: bool)
    requires !IsChooser(pc) && !IsCloser(pc)
    requires PhaseFits(v.phase, v.handler, pc) && (v.handler.Some? ==> v.phase == Ready)
    ensures PhaseMove(v, t, pc, WorkerMove(v, t, pc, ok))
  {
  }

  lemma MoveAndPhase(v: Shared, t: nat, pc: Pc, ok: bool)
    requires PhaseFits(v.phase, v.handler, pc) && (v.handler.Some? ==> v.phase == Ready)
    ensures PhaseMove(v, t, pc, Move(v, t, pc, ok))
  {
    if IsChooser(pc) {
      ChooserPhaseMove(v, t, pc);
    } else if !IsCloser(pc) {
      WorkerPhaseMove(v, t, pc, ok);
    }
  }

  lemma ApplyIsPointwise(s: State, t: nat, m: Moved)
    requires t < |s.threads|
    ensures |Apply(s, t, m).threads| == |s.threads| + if m.spawned then 1 else 0
    ensures forall u | 0 <= u < |s.threads| :: Apply(s, t, m).threads[u] == if u == t then m.pc else s.threads[u]
    ensures m.spawned ==> Apply(s, t, m).threads[|s.threads|] == Working
  {
  }

  lemma PhaseApplied(s: State, t: nat, m: Moved)
    requires MutexSound(s) && PhaseSound(s) && t < |s.threads| && PhaseMove(s.v, t, s.threads[t], m)
    ensures PhaseSound(Apply(s, t, m))
  {
    var pc, after := s.threads[t], Apply(s, t, m);
    ApplyIsPointwise(s, t, m);
    forall u | 0 <= u < |after.threads|
      ensures PhaseFits(m.v.phase, m.v.handler, after.threads[u])
      ensures m.v.phase != s.v.phase && u != t ==> !Unpublished(after.threads[u])
    {
      if u != t && u < |s.threads| {
        assert PhaseFits(s.v.phase, s.v.handler, s.threads[u]);
        assert !(HoldsMutex(pc) && HoldsMutex(s.threads[u]));
      }
    }
    if m.v.phase == Preparing {
      if m.v.phase != s.v.phase {
        assert Unpublished(after.threads[t]);
      } else {
        var w :| 0 <= w < |s.threads| && Unpublished(s.threads[w]);
        assert Unpublished(after.threads[if w == t && m.spawned then |s.threads| else w]);
      }
    }
    if m.v.phase == Ready && m.v.handler == None {
      if m.v.phase != s.v.phase {
        assert after.threads[t].ReadySet?;
      } else {
        var w :| 0 <= w < |s.threads| && s.threads[w].ReadySet?;
        assert after.threads[w].ReadySet?;
      }
    }
  }

  lemma PhaseStaysSound(s: State, a: Action)
    requires MutexSound(s) && PhaseSound(s)
    ensures PhaseSound(Next(s, a))
  {
    if a.Step? && a.thread < |s.threads| {
      MoveAndPhase(s.v, a.thread, s.threads[a.thread], a.ok);
      PhaseApplied(s, a.thread, Move(s.v, a.thread, s.threads[a.thread], a.ok));
    } else {
      var after := Next(s, a);
      assert forall t | 0 <= t < |s.threads| :: after.threads[t] == s.threads[t];
      assert forall t | |s.threads| <= t < |after.threads| :: !Unpublished(after.threads[t]);
    }
  }

  // --- The wait group

  predicate CounterSound(s: State) {
    s.v.counter == Sum(Weight, s.threads)
  }

  lemma {:induction false} SumUpdated(weight: Pc -> nat, threads: seq<Pc>, t: nat, pc: Pc)
    requires t < |threads|
    ensures Sum(weight, threads[t := pc]) == Sum(weight, threads) - weight(threads[t]) + weight(pc)
    ensures weight(threads[t]) <= Sum(weight, threads)
  {
    var n := |threads| - 1;
    if t == n {
      assert threads[t := pc][..n] == threads[..n];
    } else {
      SumUpdated(weight, threads[..n], t, pc);
      assert threads[t := pc][..n] == threads[..n][t := pc];
    }
  }

  lemma SumAppended(weight: Pc -> nat, threads: seq<Pc>, pc: Pc)
    ensures Sum(weight, threads + [pc]) == Sum(weight, threads) + weight(pc)
  {
    assert (threads + [pc])[..|threads|] == threads;
  }

  lemma SumApplied(weight: Pc -> nat, s: State, t: nat, m: Moved)
    requires t < |s.threads|
    ensures Sum(weight, Apply(s, t, m).threads) ==
              Sum(weight, s.threads) - weight(s.threads[t]) + weight(m.pc) + (if m.spawned then weight(Working) else 0)
  {
    SumUpdated(weight, s.threads, t, m.pc);
    SumAppended(weight, s.threads[t := m.pc], Working);
    assert s.threads[t := m.pc] + [] == s.threads[t := m.pc];
  }

  // All a move may do to the counter.
  predicate CounterMove(v: Shared, pc: Pc, m: Moved) {
    && m.v.counter - v.counter == Weight(m.pc) - Weight(pc) + (if m.spawned then 1 else 0)
    && (m.v.counter > v.counter ==> AboutToAdd(pc))
    && (m.v.counter < v.counter ==> Weight(pc) == 1)
  }

  lemma ChooserCounterMove(v: Shared, t: nat, pc: Pc)
    requires IsChooser(pc)
    ensures CounterMove(v, pc, ChooserMove(v, t, pc))
  {
  }

  lemma WorkerCounterMove(v: Shared, t: nat, pc: Pc, ok: bool)
    requires !IsChooser(pc) && !IsCloser(pc)
    ensures CounterMove(v, pc, WorkerMove(v, t, pc, ok))
  {
  }

  lemma CloserCounterMove(v: Shared, t: nat, pc: Pc)
    requires IsCloser(pc)
    ensures CounterMove(v, pc, CloserMove(v, t, pc))
  {
  }

  lemma MoveAndCounter(v: Shared, t: nat, pc: Pc, ok: bool)
    ensures CounterMove(v, pc, Move(v, t, pc, ok))
  {
    if IsChooser(pc) {
      ChooserCounterMove(v, t, pc);
    } else if IsCloser(pc) {
      CloserCounterMove(v, t, pc);
    } else {
      WorkerCounterMove(v, t, pc, ok);
    }
  }

  lemma CounterApplied(s: State, t: nat, m: Moved)
    requires CounterSound(s) && t < |s.threads| && CounterMove(s.v, s.threads[t], m)
    ensures CounterSound(Apply(s, t, m))
  {
    SumApplied(Weight, s, t, m);
  }

  lemma CounterStaysSound(s: State, a: Action)
    requires CounterSound(s)
    ensures CounterSound(Next(s, a))
  {
    match a
    case ArriveChooser(fromRelease) => SumAppended(Weight, s.threads, ChooseStart(fromRelease));
    case ArriveCloser(main) => SumAppended(Weight, s.threads, CloseStart(main));
    case Step(t, ok) =>
      if t < |s.threads| {
        MoveAndCounter(s.v, t, s.threads[t], ok);
        CounterApplied(s, t, Move(s.v, t, s.threads[t], ok));
      }
    case _ =>
  }

  // --- Closing

  predicate ClosingFits(v: Shared, pc: Pc) {
    && (PastCancel(pc) ==> v.cancelled)
    && (Returned(pc) ==> v.counter == 0)
  }

  predicate ClosingSound(s: State) {
    && (forall c | 0 <= c < |s.threads| :: ClosingFits(s.v, s.threads[c]))
    && forall c, u | 0 <= c < |s.threads| && 0 <= u < |s.threads| ::
         !(PastCancel(s.threads[c]) && AboutToAdd(s.threads[u]))
  }

  // All a move may do to the closing of the gate.
  predicate ClosingMove(v: Shared, pc: Pc, m: Moved) {
    && (v.cancelled ==> m.v.cancelled)
    && (PastCancel(m.pc) && !PastCancel(pc) ==> HoldsMutex(pc) && m.v.cancelled && !Returned(m.pc))
    && (AboutToAdd(m.pc) && !AboutToAdd(pc) ==> !v.cancelled && m.v.cancelled == v.cancelled)
    && (Returned(m.pc) && !Returned(pc) ==> m.v.counter == 0 && m.v.counter == v.counter)
    && !(PastCancel(m.pc) && AboutToAdd(m.pc))
    && (PastCancel(pc) ==> PastCancel(m.pc)) && (Returned(pc) ==> Returned(m.pc))
  }

  lemma ChooserClosingMove(v: Shared, t: nat, pc: Pc)
    requires IsChooser(pc)
    ensures ClosingMove(v, pc, ChooserMove(v, t, pc))
  {
  }

  lemma WorkerClosingMove(v: Shared, t: nat, pc: Pc, ok: bool)
    requires !IsChooser(pc) && !IsCloser(pc)
    ensures ClosingMove(v, pc, WorkerMove(v, t, pc, ok))
  {
  }

  lemma CloserClosingMove(v: Shared, t: nat, pc: Pc)
    requires IsCloser(pc)
    ensures ClosingMove(v, pc, CloserMove(v, t, pc))
  {
  }

  lemma MoveAndClosing(v: Shared, t: nat, pc: Pc, ok: bool)
    ensures ClosingMove(v, pc, Move(v, t, pc, ok))
  {
    if IsChooser(pc) {
      ChooserClosingMove(v, t, pc);
    } else if IsCloser(pc) {
      CloserClosingMove(v, t, pc);
    } else {
      WorkerClosingMove(v, t, pc, ok);
    }
  }

  lemma ClosingApplied(s: State, t: nat, m: Moved)
    requires MutexSound(s) && CounterSound(s) && ClosingSound(s) && t < |s.threads|
    requires CounterMove(s.v, s.threads[t], m) && ClosingMove(s.v, s.threads[t], m)
    ensures ClosingSound(Apply(s, t, m))
  {
    var pc, after := s.threads[t], Apply(s, t, m);
    SumUpdated(Weight, s.threads, t, m.pc);
    ApplyIsPointwise(s, t, m);
    assert ClosingFits(s.v, pc);
    forall c | 0 <= c < |after.threads|
      ensures ClosingFits(m.v, after.threads[c])
    {
      if c != t && c < |s.threads| {
        assert ClosingFits(s.v, s.threads[c]);
        assert !(PastCancel(s.threads[c]) && AboutToAdd(pc));
      }
    }
    forall c, u | 0 <= c < |after.threads| && 0 <= u < |after.threads|
      ensures !(PastCancel(after.threads[c]) && AboutToAdd(after.threads[u]))
    {
      if c < |s.threads| && u < |s.threads| {
        assert ClosingFits(s.v, s.threads[c]);
        assert !(PastCancel(s.threads[c]) && AboutToAdd(s.threads[u]));
        if c == t && u != t && AboutToAdd(s.threads[u]) {
          assert HoldsMutex(s.threads[u]) && s.v.mutex == Some(u);
        }
      }
    }
  }

  lemma ClosingStaysSound(s: State, a: Action)
    requires MutexSound(s) && CounterSound(s) && ClosingSound(s)
    ensures ClosingSound(Next(s, a))
  {
    if a.Step? {
      if a.thread < |s.threads| {
        MoveAndClosing(s.v, a.thread, s.threads[a.thread], a.ok);
        MoveAndCounter(s.v, a.thread, s.threads[a.thread], a.ok);
        ClosingApplied(s, a.thread, Move(s.v, a.thread, s.threads[a.thread], a.ok));
      }
    } else {
      ArrivalsAreInert(s, a);
    }
  }

  // What every action other than a thread's step keeps.
  lemma ArrivalsAreInert(s: State, a: Action)
    requires !a.Step? || a.thread >= |s.threads|
    ensures
      var after := Next(s, a);
      && |s.threads| <= |after.threads|
      && (forall t | 0 <= t < |s.threads| :: after.threads[t] == s.threads[t])
      && (forall t | |s.threads| <= t < |after.threads| :: after.threads[t].ChooseStart? || after.threads[t].CloseStart?)
      && (s.v.cancelled ==> after.v.cancelled)
      && after.v.(cancelled := s.v.cancelled, own := s.v.own) == s.v
      && (after.v.own != s.v.own ==> !s.v.own.Published? && !after.v.own.Published?)
  {
  }

  // --- The database file

  predicate FileSound(s: State) {
    forall t | 0 <= t < |s.threads| && OwnsFile(s.threads[t]) :: s.v.own == Published(t)
  }

  // All a move may do to the file.
  predicate FileMove(v: Shared, t: nat, pc: Pc, ok: bool, m: Moved) {
    && (OwnsFile(m.pc) ==> if OwnsFile(pc) then m.v.own == v.own else v.own == Absent && m.v.own == Published(t))
    && (m.v.own != v.own ==>
          || (v.own == Absent && m.v.own == Published(t))
          || (m.v.own == Absent && pc.MustRemove? && ok && !OwnsFile(m.pc)))
    && (m.v.phase == Ready && v.phase != Ready ==> OwnsFile(pc))
  }

  lemma ChooserFileMove(v: Shared, t: nat, pc: Pc, ok: bool)
    requires IsChooser(pc)
    ensures FileMove(v, t, pc, ok, ChooserMove(v, t, pc))
  {
  }

  lemma WorkerFileMove(v: Shared, t: nat, pc: Pc, ok: bool)
    requires !IsChooser(pc) && !IsCloser(pc)
    ensures FileMove(v, t, pc, ok, WorkerMove(v, t, pc, ok))
  {
  }

  lemma CloserFileMove(v: Shared, t: nat, pc: Pc, ok: bool)
    requires IsCloser(pc)
    ensures FileMove(v, t, pc, ok, CloserMove(v, t, pc))
  {
  }

  lemma MoveAndFile(v: Shared, t: nat, pc: Pc, ok: bool)
    ensures FileMove(v, t, pc, ok, Move(v, t, pc, ok))
  {
    if IsChooser(pc) {
      ChooserFileMove(v, t, pc, ok);
    } else if IsCloser(pc) {
      CloserFileMove(v, t, pc, ok);
    } else {
      WorkerFileMove(v, t, pc, ok);
    }
  }

  lemma FileStaysSound(s: State, a: Action)
    requires FileSound(s)
    ensures FileSound(Next(s, a))
  {
    if !a.Step? {
      ArrivalsAreInert(s, a);
    } else if a.thread < |s.threads| {
      var m := Move(s.v, a.thread, s.threads[a.thread], a.ok);
      MoveAndFile(s.v, a.thread, s.threads[a.thread], a.ok);
      ApplyIsPointwise(s, a.thread, m);
    }
  }

  // --- Main's application

  // Holds a built application whose outcome is not published yet.
  predicate Carries(pc: Pc) {
    pc.GotHandler? || pc.ReadyLocked?
  }

  predicate Built(pc: Pc) {
    Carries(pc) || pc.ReadySet? || pc.HandlerStored?
  }

  predicate StoredSound(v: Shared) {
    && (forall a, b | a in v.stored && b in v.stored :: a == b)
    && (forall a | a in v.stored :: v.closes[a] == if v.app == Some(a) then 0 else 1)
    && (forall a | a in v.closes :: a in v.stored)
    && (v.app.Some? ==> v.app.value in v.stored)
    && (v.handler.Some? ==> v.handler.value in v.stored)
  }

  predicate AppsSound(s: State) {
    && StoredSound(s.v)
    && (forall t | 0 <= t < |s.threads| :: Built(s.threads[t]) ==> t in s.v.stored)
    && (s.v.stored != {} ==> s.v.phase == Ready || exists t :: 0 <= t < |s.threads| && Carries(s.threads[t]))
    && (s.v.closes != multiset{} ==> exists t :: 0 <= t < |s.threads| && Returned(s.threads[t]))
  }

  // All a move may do to the application.
  predicate AppMove(v: Shared, t: nat, pc: Pc, m: Moved) {
    && (if m.v.stored != v.stored || m.v.app != v.app
        then || (pc.Building? && Carries(m.pc) && m.v.stored == v.stored + {t} && m.v.app == Some(t) && m.v.closes == v.closes)
             || (pc == Closed(true) && v.app.Some? && m.v.app == None && m.v.stored == v.stored
                 && m.v.closes == v.closes + multiset{v.app.value})
        else m.v.closes == v.closes)
    && (Built(m.pc) ==> Built(pc) || (pc.Building? && t in m.v.stored))
    && (Carries(pc) ==> Carries(m.pc) || m.v.phase == Ready)
    && (m.v.handler != v.handler ==> m.v.handler == Some(t) && Built(pc) && m.v.stored == v.stored)
  }

  lemma WorkerAppMove(v: Shared, t: nat, pc: Pc, ok: bool)
    requires !IsChooser(pc) && !IsCloser(pc)
    ensures AppMove(v, t, pc, WorkerMove(v, t, pc, ok))
  {
  }

  lemma CloserAppMove(v: Shared, t: nat, pc: Pc)
    requires IsCloser(pc)
    ensures AppMove(v, t, pc, CloserMove(v, t, pc))
  {
  }

  lemma MoveAndApp(v: Shared, t: nat, pc: Pc, ok: bool)
    ensures AppMove(v, t, pc, Move(v, t, pc, ok))
  {
    if IsCloser(pc) {
      CloserAppMove(v, t, pc);
    } else if !IsChooser(pc) {
      WorkerAppMove(v, t, pc, ok);
    }
  }

  lemma NothingStoredYet(s: State, t: nat)
    requires PhaseSound(s) && AppsSound(s) && t < |s.threads| && s.threads[t].Building?
    ensures s.v.stored == {}
  {
    assert PhaseFits(s.v.phase, s.v.handler, s.threads[t]);
    if u :| 0 <= u < |s.threads| && Carries(s.threads[u]) {
      assert Unpublished(s.threads[u]) && Unpublished(s.threads[t]);
    }
  }

  lemma StoredApplied(s: State, t: nat, m: Moved)
    requires StoredSound(s.v) && t < |s.threads| && AppMove(s.v, t, s.threads[t], m)
    requires s.threads[t].Building? ==> s.v.stored == {}
    requires Built(s.threads[t]) ==> t in s.v.stored
    ensures StoredSound(m.v)
    ensures s.v.stored <= m.v.stored
  {
  }

  lemma WitnessesKept(s: State, t: nat, m: Moved)
    requires AppsSound(s) && t < |s.threads|
    requires AppMove(s.v, t, s.threads[t], m) && ClosingMove(s.v, s.threads[t], m)
    requires s.v.phase == Ready ==> m.v.phase == Ready
    ensures
      var after := Apply(s, t, m);
      && (m.v.stored != {} ==> m.v.phase == Ready || exists u :: 0 <= u < |after.threads| && Carries(after.threads[u]))
      && (m.v.closes != multiset{} ==> exists u :: 0 <= u < |after.threads| && Returned(after.threads[u]))
  {
    var after := Apply(s, t, m);
    ApplyIsPointwise(s, t, m);
    assert Carries(m.pc) ==> Carries(after.threads[t]);
    assert Returned(m.pc) ==> Returned(after.threads[t]);
    if s.v.stored != {} && s.v.phase != Ready {
      var u :| 0 <= u < |s.threads| && Carries(s.threads[u]);
      assert u != t ==> Carries(after.threads[u]);
    }
    if s.v.closes != multiset{} {
      var u :| 0 <= u < |s.threads| && Returned(s.threads[u]);
      assert Returned(after.threads[u]);
    }
  }

  lemma AppsApplied(s: State, t: nat, m: Moved)
    requires PhaseSound(s) && AppsSound(s) && t < |s.threads|
    requires PhaseMove(s.v, t, s.threads[t], m) && AppMove(s.v, t, s.threads[t], m) && ClosingMove(s.v, s.threads[t], m)
    ensures AppsSound(Apply(s, t, m))
  {
    ApplyIsPointwise(s, t, m);
    if s.threads[t].Building? {
      NothingStoredYet(s, t);
    }
    StoredApplied(s, t, m);
    WitnessesKept(s, t, m);
  }

  lemma ArrivalKeepsApps(s: State, a: Action)
    requires AppsSound(s) && !a.Step?
    ensures AppsSound(Next(s, a))
  {
    ArrivalsAreInert(s, a);
    var after := Next(s, a);
    assert forall t | 0 <= t < |s.threads| :: after.threads[t] == s.threads[t];
  }

  lemma AppsStaySound(s: State, a: Action)
    requires PhaseSound(s) && AppsSound(s)
    ensures AppsSound(Next(s, a))
  {
    if !a.Step? {
      ArrivalKeepsApps(s, a);
    } else if a.thread < |s.threads| {
      MoveAndPhase(s.v, a.thread, s.threads[a.thread], a.ok);
      MoveAndApp(s.v, a.thread, s.threads[a.thread], a.ok);
      MoveAndClosing(s.v, a.thread, s.threads[a.thread], a.ok);
      AppsApplied(s, a.thread, Move(s.v, a.thread, s.threads[a.thread], a.ok));
    }
  }

  // --- Every run

  predicate Sound(s: State) {
    && MutexSound(s) && InRange(s) && PhaseSound(s) && CounterSound(s) && ClosingSound(s) && FileSound(s)
    && AppsSound(s) && MainSound(s)
  }

  // Main, once done with closeApp, holds no application.
  predicate MainSound(s: State) {
    forall t | 0 <= t < |s.threads| && s.threads[t].AppClosed? :: s.v.app == None
  }

  lemma MainApplied(s: State, t: nat, m: Moved)
    requires Sound(s) && t < |s.threads| && AppMove(s.v, t, s.threads[t], m)
    requires m.pc.AppClosed? && !s.threads[t].AppClosed? ==> m.v.app == None
    ensures MainSound(Apply(s, t, m))
  {
    ApplyIsPointwise(s, t, m);
    forall u | 0 <= u < |s.threads| && s.threads[u].AppClosed?
      ensures !s.threads[t].Building?
    {
      NoneLive(s, u);
    }
  }

  lemma MainStaysSound(s: State, a: Action)
    requires Sound(s)
    ensures MainSound(Next(s, a))
  {
    if a.Step? && a.thread < |s.threads| {
      MoveAndApp(s.v, a.thread, s.threads[a.thread], a.ok);
      MoveToAppClosed(s.v, a.thread, s.threads[a.thread], a.ok);
      MainApplied(s, a.thread, Move(s.v, a.thread, s.threads[a.thread], a.ok));
    } else {
      ArrivalsAreInert(s, a);
    }
  }

  lemma MoveToAppClosed(v: Shared, t: nat, pc: Pc, ok: bool)
    ensures Move(v, t, pc, ok).pc.AppClosed? && !pc.AppClosed? ==> Move(v, t, pc, ok).v.app == None
  {
  }

  lemma NextKeepsSound(s: State, a: Action)
    requires Sound(s)
    ensures Sound(Next(s, a))
  {
    MutexStaysSound(s, a);
    PhaseStaysSound(s, a);
    CounterStaysSound(s, a);
    ClosingStaysSound(s, a);
    FileStaysSound(s, a);
    AppsStaySound(s, a);
    MainStaysSound(s, a);
  }

  lemma {:induction false} RunKeepsSound(s: State, actions: seq<Action>)
    requires Sound(s)
    ensures Sound(Run(s, actions))
  {
    if actions != [] {
      RunKeepsSound(s, actions[..|actions| - 1]);
      NextKeepsSound(Run(s, actions[..|actions| - 1]), actions[|actions| - 1]);
    }
  }

  // Some continuation of s ends in later.
  ghost predicate Leads(s: State, later: State) {
    exists actions :: Run(s, actions) == later
  }

  lemma LeadsKeepsSound(s: State, later: State)
    requires Sound(s) && Leads(s, later)
    ensures Sound(later)
  {
    var actions :| Run(s, actions) == later;
    RunKeepsSound(s, actions);
  }

  // A state some run of the gate reaches, whether or not a release database exists and another
  // process already holds the own path.
  ghost predicate Reachable(s: State) {
    exists releaseExists, rival :: Leads(Initial(releaseExists, rival), s)
  }

  function Initial(releaseExists: bool, rival: bool): State {
    Start(releaseExists, if rival then Rival else Absent)
  }

  lemma ReachableIsSound(s: State)
    requires Reachable(s)
    ensures Sound(s)
  {
    var releaseExists, rival :| Leads(Initial(releaseExists, rival), s);
    LeadsKeepsSound(Initial(releaseExists, rival), s);
  }

  /**
   * Whenever the mutex is free: the phase is preparing exactly while a worker is launched and
   * has not published its outcome, there is never a second such worker, and what is served is
   * an application the callback built exactly when the phase is ready.
   */
  lemma WheneverTheMutexIsFree(s: State)
    requires Reachable(s) && s.v.mutex == None
    ensures s.v.phase == Preparing <==>
              exists t :: 0 <= t < |s.threads| && Live(s.threads[t]) && Unpublished(s.threads[t])
    ensures forall t, u | 0 <= t < u < |s.threads| :: !(Unpublished(s.threads[t]) && Unpublished(s.threads[u]))
    ensures s.v.handler.Some? <==> s.v.phase == Ready
    ensures s.v.handler.Some? ==> s.v.handler.value in s.v.stored
  {
    ReachableIsSound(s);
    forall t | 0 <= t < |s.threads|
      ensures Unpublished(s.threads[t]) ==> Live(s.threads[t])
      ensures !s.threads[t].ReadySet?
      ensures Unpublished(s.threads[t]) ==> s.v.phase == Preparing
    {
      assert !HoldsMutex(s.threads[t]);
      assert PhaseFits(s.v.phase, s.v.handler, s.threads[t]);
    }
  }

  lemma ReadyStays(s: State, a: Action)
    requires PhaseSound(s) && s.v.phase == Ready
    ensures Next(s, a).v.phase == Ready
    ensures s.v.handler.Some? ==> Next(s, a).v.handler == s.v.handler
  {
    if a.Step? && a.thread < |s.threads| {
      assert PhaseFits(s.v.phase, s.v.handler, s.threads[a.thread]);
      MoveAndPhase(s.v, a.thread, s.threads[a.thread], a.ok);
    } else {
      ArrivalsAreInert(s, a);
    }
  }

  /** Ready is absorbing, and the application first served is served forever. */
  lemma {:induction false} ReadyIsAbsorbing(s: State, actions: seq<Action>)
    requires Sound(s) && s.v.phase == Ready
    ensures Run(s, actions).v.phase == Ready
    ensures s.v.handler.Some? ==> Run(s, actions).v.handler == s.v.handler
  {
    if actions != [] {
      var front := actions[..|actions| - 1];
      ReadyIsAbsorbing(s, front);
      RunKeepsSound(s, front);
      ReadyStays(Run(s, front), actions[|actions| - 1]);
    }
  }

  lemma NobodyAboutToAdd(s: State, c: nat)
    requires Sound(s) && c < |s.threads| && PastCancel(s.threads[c])
    ensures s.v.cancelled && forall u | 0 <= u < |s.threads| :: !AboutToAdd(s.threads[u])
  {
    assert ClosingFits(s.v, s.threads[c]);
  }

  lemma CounterOnlyFalls(s: State, c: nat, t: nat, m: Moved)
    requires c < |s.threads| && t < |s.threads| && PastCancel(s.threads[c]) && !AboutToAdd(s.threads[t])
    requires CounterMove(s.v, s.threads[t], m) && ClosingMove(s.v, s.threads[t], m)
    ensures Apply(s, t, m).v.counter <= s.v.counter
    ensures c < |Apply(s, t, m).threads| && PastCancel(Apply(s, t, m).threads[c])
  {
    ApplyIsPointwise(s, t, m);
  }

  /**
   * Once any Close has let go of the mutex, no goroutine stands between its context check and
   * its Add, so the counter only falls: no Add is concurrent with a Wait or comes after it.
   */
  lemma NoAddOnceClosing(s: State, c: nat, a: Action)
    requires Sound(s) && c < |s.threads| && PastCancel(s.threads[c])
    ensures s.v.cancelled && forall u | 0 <= u < |s.threads| :: !AboutToAdd(s.threads[u])
    ensures Next(s, a).v.counter <= s.v.counter
    ensures c < |Next(s, a).threads| && PastCancel(Next(s, a).threads[c])
  {
    NobodyAboutToAdd(s, c);
    if a.Step? && a.thread < |s.threads| {
      MoveAndCounter(s.v, a.thread, s.threads[a.thread], a.ok);
      MoveAndClosing(s.v, a.thread, s.threads[a.thread], a.ok);
      CounterOnlyFalls(s, c, a.thread, Move(s.v, a.thread, s.threads[a.thread], a.ok));
    } else {
      ArrivalsAreInert(s, a);
    }
  }

  lemma ReturnedStaysReturned(s: State, c: nat, a: Action)
    requires c < |s.threads| && Returned(s.threads[c])
    ensures c < |Next(s, a).threads| && Returned(Next(s, a).threads[c])
  {
    if a.Step? && a.thread < |s.threads| {
      MoveAndClosing(s.v, a.thread, s.threads[a.thread], a.ok);
      ApplyIsPointwise(s, a.thread, Move(s.v, a.thread, s.threads[a.thread], a.ok));
    } else {
      ArrivalsAreInert(s, a);
    }
  }

  lemma NoneLive(s: State, c: nat)
    requires Sound(s) && c < |s.threads| && Returned(s.threads[c])
    ensures forall u | 0 <= u < |s.threads| :: !Live(s.threads[u]) && !s.threads[u].Added?
  {
    assert ClosingFits(s.v, s.threads[c]);
    forall u | 0 <= u < |s.threads|
      ensures !Live(s.threads[u]) && !s.threads[u].Added?
    {
      SumUpdated(Weight, s.threads, u, WorkDone);
    }
  }

  /**
   * After any Close has returned, no worker is running and none ever runs again, whatever
   * choices, closes, cancellations and rivals follow.
   */
  lemma {:induction false} NothingRunsAfterClose(s: State, c: nat, actions: seq<Action>)
    requires Sound(s) && c < |s.threads| && Returned(s.threads[c])
    ensures
      var later := Run(s, actions);
      && c < |later.threads| && Returned(later.threads[c])
      && forall u | 0 <= u < |later.threads| :: !Live(later.threads[u])
  {
    RunKeepsSound(s, actions);
    if actions != [] {
      NothingRunsAfterClose(s, c, actions[..|actions| - 1]);
      ReturnedStaysReturned(Run(s, actions[..|actions| - 1]), c, actions[|actions| - 1]);
    }
    NoneLive(Run(s, actions), c);
  }

  /**
   * A file the gate deletes is the one the deleting worker's own prepare published, and a file
   * that appears was published where nothing stood: no rival's file is ever touched.
   */
  lemma GateDeletesOnlyItsOwn(s: State, a: Action)
    requires Reachable(s) && Next(s, a).v.own != s.v.own
    ensures a.Step? ==> a.thread < |s.threads|
    ensures a.Step? && s.v.own == Absent ==> Next(s, a).v.own == Published(a.thread)
    ensures a.Step? && s.v.own != Absent ==>
              s.v.own == Published(a.thread) && Next(s, a).v.own == Absent && s.threads[a.thread].MustRemove?
    ensures !a.Step? ==> !s.v.own.Published? && !Next(s, a).v.own.Published?
  {
    ReachableIsSound(s);
    if a.Step? {
      MoveAndFile(s.v, a.thread, s.threads[a.thread], a.ok);
      assert s.threads[a.thread].MustRemove? ==> OwnsFile(s.threads[a.thread]);
    } else {
      ArrivalsAreInert(s, a);
    }
  }

  // A published file nobody will remove: its worker is done with it, short of ready.
  predicate Abandoned(s: State, w: nat) {
    && s.v.own == Published(w) && s.v.phase != Ready
    && forall t | 0 <= t < |s.threads| :: !OwnsFile(s.threads[t])
  }

  lemma AbandonedApplied(s: State, w: nat, t: nat, ok: bool, m: Moved)
    requires Abandoned(s, w) && t < |s.threads| && FileMove(s.v, t, s.threads[t], ok, m)
    ensures Abandoned(Apply(s, t, m), w)
  {
    ApplyIsPointwise(s, t, m);
  }

  lemma AbandonedStays(s: State, w: nat, a: Action)
    requires Sound(s) && Abandoned(s, w)
    ensures Abandoned(Next(s, a), w)
  {
    if a.Step? && a.thread < |s.threads| {
      MoveAndFile(s.v, a.thread, s.threads[a.thread], a.ok);
      AbandonedApplied(s, w, a.thread, a.ok, Move(s.v, a.thread, s.threads[a.thread], a.ok));
    } else {
      ArrivalsAreInert(s, a);
    }
  }

  /**
   * A preparation that fails after publishing, because its temporary file stays, cannot be
   * retried: the file is never removed and the gate never becomes ready.
   */
  lemma {:induction false} PublishedFailureIsFinal(s: State, w: nat, actions: seq<Action>)
    requires Sound(s) && Abandoned(s, w)
    ensures Run(s, actions).v.own == Published(w) && Run(s, actions).v.phase != Ready
    ensures Abandoned(Run(s, actions), w)
  {
    if actions != [] {
      PublishedFailureIsFinal(s, w, actions[..|actions| - 1]);
      RunKeepsSound(s, actions[..|actions| - 1]);
      AbandonedStays(Run(s, actions[..|actions| - 1]), w, actions[|actions| - 1]);
    }
  }

  /**
   * Of everything the callback ever stored, nothing is closed twice, nothing is closed before
   * a Close has returned, and when closeApp has returned everything stored is closed.
   */
  lemma AppsAreClosedExactlyOnce(s: State)
    requires Reachable(s)
    ensures forall a :: s.v.closes[a] <= 1
    ensures s.v.closes != multiset{} ==> forall u | 0 <= u < |s.threads| :: !Live(s.threads[u])
    ensures (exists t :: 0 <= t < |s.threads| && s.threads[t].AppClosed?) ==>
              s.v.app == None && forall a | a in s.v.stored :: s.v.closes[a] == 1
  {
    ReachableIsSound(s);
    forall a
      ensures s.v.closes[a] <= 1
    {
      if a !in s.v.stored {
        assert a !in s.v.closes;
      }
    }
    if s.v.closes != multiset{} {
      var c :| 0 <= c < |s.threads| && Returned(s.threads[c]);
      NoneLive(s, c);
    }
  }

  /** Failing to remove the temporary file after the link leaves exactly such a file behind. */
  lemma FailedCleanupAbandonsTheFile(s: State, t: nat)
    requires Reachable(s) && t < |s.threads| && s.threads[t].Linked?
    ensures Abandoned(Next(s, Step(t, false)), t)
  {
    ReachableIsSound(s);
    var after := Next(s, Step(t, false));
    ApplyIsPointwise(s, t, Move(s.v, t, s.threads[t], false));
    assert PhaseFits(s.v.phase, s.v.handler, s.threads[t]);
    assert OwnsFile(s.threads[t]);
    forall u | 0 <= u < |after.threads|
      ensures !OwnsFile(after.threads[u])
    {
      assert u != t ==> s.v.own != Published(u);
    }
  }

  lemma OwnerFacts(s: State, t: nat)
    requires Sound(s) && t < |s.threads| && OwnsFile(s.threads[t])
    ensures s.v.own == Published(t) && s.v.phase == Preparing
    ensures forall u | 0 <= u < |s.threads| && u != t :: !OwnsFile(s.threads[u])
  {
    assert PhaseFits(s.v.phase, s.v.handler, s.threads[t]);
  }

  // The ways a move leaves a published file that nobody will remove.
  predicate Abandons(v: Shared, pc: Pc, ok: bool) {
    (pc.Linked? && !ok) || (pc.Prepared? && v.cancelled) || (pc.MustRemove? && !ok)
  }

  lemma OwnerMoves(v: Shared, t: nat, pc: Pc, ok: bool)
    requires OwnsFile(pc) && v.own == Published(t) && v.phase == Preparing
    ensures
      var m := Move(v, t, pc, ok);
      !m.spawned && (Abandons(v, pc, ok) <==> !OwnsFile(m.pc) && m.v.own == Published(t) && m.v.phase != Ready)
  {
  }

  /**
   * A worker's own move leaves its published file behind for good exactly when the temporary
   * file could not be removed, the context was cancelled before the build, or the removal after
   * a failed build failed. In every other case it keeps the file, serves it or removes it.
   */
  lemma AbandonedExactly(s: State, t: nat, ok: bool)
    requires Reachable(s) && t < |s.threads| && OwnsFile(s.threads[t])
    ensures Abandoned(Next(s, Step(t, ok)), t) <==>
              || (s.threads[t].Linked? && !ok) || (s.threads[t].Prepared? && s.v.cancelled)
              || (s.threads[t].MustRemove? && !ok)
  {
    ReachableIsSound(s);
    OwnerFacts(s, t);
    OwnerMoves(s.v, t, s.threads[t], ok);
    OwnerMoveApplied(s, t, Move(s.v, t, s.threads[t], ok));
  }

  lemma OwnerMoveApplied(s: State, t: nat, m: Moved)
    requires t < |s.threads| && !m.spawned
    requires forall u | 0 <= u < |s.threads| && u != t :: !OwnsFile(s.threads[u])
    ensures Abandoned(Apply(s, t, m), t) <==> !OwnsFile(m.pc) && m.v.own == Published(t) && m.v.phase != Ready
  {
    ApplyIsPointwise(s, t, m);
    assert OwnsFile(m.pc) ==> OwnsFile(Apply(s, t, m).threads[t]);
  }

  // Nothing but its owner's move touches a published file, or its owner.
  lemma OthersLeaveTheFile(s: State, t: nat, a: Action)
    requires Sound(s) && t < |s.threads| && OwnsFile(s.threads[t]) && !(a.Step? && a.thread == t)
    ensures t < |Next(s, a).threads| && Next(s, a).threads[t] == s.threads[t]
  {
    if a.Step? && a.thread < |s.threads| {
      ApplyIsPointwise(s, a.thread, Move(s.v, a.thread, s.threads[a.thread], a.ok));
    } else {
      ArrivalsAreInert(s, a);
    }
  }

  lemma {:induction false} OthersRunLeavesTheFile(s: State, t: nat, actions: seq<Action>)
    requires Sound(s) && t < |s.threads| && OwnsFile(s.threads[t])
    requires forall a | a in actions :: !(a.Step? && a.thread == t)
    ensures Sound(Run(s, actions)) && t < |Run(s, actions).threads| && Run(s, actions).threads[t] == s.threads[t]
  {
    RunKeepsSound(s, actions);
    if actions != [] {
      var front := actions[..|actions| - 1];
      OthersRunLeavesTheFile(s, t, front);
      assert actions[|actions| - 1] in actions;
      OthersLeaveTheFile(Run(s, front), t, actions[|actions| - 1]);
    }
  }

  lemma BuildFails(s: State, t: nat)
    requires t < |s.threads| && s.threads[t].Building?
    ensures t < |Next(s, Step(t, false)).threads| && Next(s, Step(t, false)).threads[t] == MustRemove
  {
    ApplyIsPointwise(s, t, Moved(s.v, MustRemove, false));
  }

  lemma FileIsRemoved(s: State, t: nat)
    requires t < |s.threads| && s.threads[t].MustRemove?
    ensures Next(s, Step(t, true)).v.own == Absent
    ensures t < |Next(s, Step(t, true)).threads| && Next(s, Step(t, true)).threads[t] == Failing
  {
    ApplyIsPointwise(s, t, Moved(s.v.(own := Absent), Failing, false));
  }

  /**
   * A build that fails gives the path back: whatever every other goroutine, rival or canceller
   * does in between, the worker's next move, if its removal succeeds, leaves nothing on it.
   */
  lemma FailedBuildFreesThePath(s: State, t: nat, between: seq<Action>)
    requires Reachable(s) && t < |s.threads| && s.threads[t].Building?
    requires forall a | a in between :: !(a.Step? && a.thread == t)
    ensures
      var removed := Next(Run(Next(s, Step(t, false)), between), Step(t, true));
      removed.v.own == Absent && t < |removed.threads| && removed.threads[t] == Failing
  {
    ReachableIsSound(s);
    NextKeepsSound(s, Step(t, false));
    BuildFails(s, t);
    OthersRunLeavesTheFile(Next(s, Step(t, false)), t, between);
    FileIsRemoved(Run(Next(s, Step(t, false)), between), t);
  }
}
