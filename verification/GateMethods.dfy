/** The gate's critical sections as methods, and the interleaved moves that they summarize (nonrelease.go). */
module GateMethods {
  import opened Domain
  import opened Gate

  // What the mutex guards, with the wait-group counter.
  datatype Panel = Panel(phase: Phase, handler: Option<nat>, cancelled: bool, work: int)

  function PanelOf(v: Shared): Panel {
    Panel(v.phase, v.handler, v.cancelled, v.counter)
  }

  // What holds whenever the mutex is free: the application is served exactly when ready, and a
  // preparation under way is counted.
  predicate Settled(p: Panel) {
    && (p.handler.Some? <==> p.phase == Ready)
    && (p.phase == Preparing ==> p.work > 0)
  }

  function Refusal(p: Panel, fromRelease: bool, releaseExists: bool): Option<Error> {
    if p.phase != Choice && p.phase != Failed then Some(Conflict)
    else if p.cancelled then Some(Conflict)
    else if fromRelease && !releaseExists then Some(Invalid)
    else None
  }

  function Launch(p: Panel): Panel {
    p.(phase := Preparing, work := p.work + 1)
  }

  function PublishTo(p: Panel, outcome: Result<nat>): Panel {
    match outcome
    case Err(_) => p.(phase := Failed)
    case Ok(app) => p.(phase := Ready, handler := Some(app))
  }

  class NonReleaseGate {
    var phase: Phase
    var failure: string
    var handler: Option<nat>
    var cancelled: bool
    var work: nat
    const releaseDatabaseExists: bool

    ghost function View(): Panel
      reads this
    {
      Panel(phase, handler, cancelled, work)
    }

    // A failure text is shown only for the failure it belongs to.
    ghost predicate Valid()
      reads this
    {
      Settled(View()) && (failure != "" ==> phase == Failed)
    }

    constructor (releaseDatabaseExists: bool)
      ensures Valid() && View() == Panel(Choice, None, false, 0)
      ensures this.releaseDatabaseExists == releaseDatabaseExists
    {
      this.releaseDatabaseExists := releaseDatabaseExists;
      phase, failure, handler, cancelled, work := Choice, "", None, false, 0;
    }

    /** choose: launches one worker, or refuses and changes nothing. */
    method Choose(fromRelease: bool) returns (r: Result<Phase>)
      requires Valid()
      modifies this`phase, this`failure, this`work
      ensures Valid()
      ensures match Refusal(old(View()), fromRelease, releaseDatabaseExists)
              case Some(e) => r == Err(e) && View() == old(View()) && failure == old(failure)
              case None => r == Ok(Preparing) && View() == Launch(old(View()))
    {
      if phase != Choice && phase != Failed {
        return Err(Conflict);
      }
      if cancelled {
        return Err(Conflict);
      }
      if fromRelease && !releaseDatabaseExists {
        return Err(Invalid);
      }
      phase, failure := Preparing, "";
      work := work + 1;
      return Ok(phase);
    }

    /** The end of prepareAndBuild: publish the failure, or the built application. */
    method PublishOutcome(outcome: Result<nat>, message: string)
      requires Valid() && phase == Preparing
      modifies this`phase, this`failure, this`handler
      ensures Valid() && View() == PublishTo(old(View()), outcome)
      ensures outcome.Err? ==> failure == message
    {
      if outcome.Err? {
        phase, failure := Failed, message;
        return;
      }
      phase := Ready;
      handler := Some(outcome.value);
    }

    /** Close, up to its Wait: from here on every choice is refused. */
    method CancelContext()
      requires Valid()
      modifies this`cancelled
      ensures Valid() && View() == old(View()).(cancelled := true)
      ensures forall fromRelease :: Refusal(View(), fromRelease, releaseDatabaseExists) == Some(Conflict)
    {
      cancelled := true;
    }
  }

  /** The machine keeps what the methods keep: its panel is settled whenever the mutex is free. */
  lemma FreePanelIsSettled(s: State)
    requires Reachable(s) && s.v.mutex == None
    ensures Settled(PanelOf(s.v))
  {
    ReachableIsSound(s);
    WheneverTheMutexIsFree(s);
    if s.v.phase == Preparing {
      var t :| 0 <= t < |s.threads| && Live(s.threads[t]) && Unpublished(s.threads[t]);
      SumUpdated(Weight, s.threads, t, WorkDone);
    }
  }

  // What a critical section leaves, and how many workers it launched.
  datatype Section = Section(v: Shared, pc: Pc, launched: nat)

  // The moves of thread t from inside the mutex to its unlock, when nothing comes between.
  function Uninterrupted(v: Shared, t: nat, pc: Pc, moves: nat): Section
    decreases moves
  {
    if moves == 0 || !HoldsMutex(pc) then Section(v, pc, 0) else
    var m := Move(v, t, pc, true);
    var rest := Uninterrupted(m.v, t, m.pc, moves - 1);
    rest.(launched := rest.launched + if m.spawned then 1 else 0)
  }

  lemma Unroll(v: Shared, t: nat, pc: Pc, moves: nat, m: Moved)
    requires moves > 0 && HoldsMutex(pc) && Move(v, t, pc, true) == m
    ensures
      var rest := Uninterrupted(m.v, t, m.pc, moves - 1);
      Uninterrupted(v, t, pc, moves) == rest.(launched := rest.launched + if m.spawned then 1 else 0)
  {
  }

  lemma RefusedUnlocks(v: Shared, t: nat, e: Error, moves: nat)
    requires moves > 0
    ensures Uninterrupted(v, t, Refused(e), moves) == Section(v.(mutex := None), Chosen(Some(e)), 0)
  {
    Unroll(v, t, Refused(e), moves, Moved(v.(mutex := None), Chosen(Some(e)), false));
  }

  lemma ApprovedLaunches(v: Shared, t: nat)
    ensures Uninterrupted(v, t, Approved, 4)
            == Section(v.(phase := Preparing, counter := v.counter + 1, mutex := None), Chosen(None), 1)
  {
    var preparing := v.(phase := Preparing);
    var counted := preparing.(counter := v.counter + 1);
    Unroll(v, t, Approved, 4, Moved(preparing, PhaseSet, false));
    Unroll(preparing, t, PhaseSet, 3, Moved(counted, Added, false));
    Unroll(counted, t, Added, 2, Moved(counted, Launched, true));
    Unroll(counted, t, Launched, 1, Moved(counted.(mutex := None), Chosen(None), false));
  }

  /** Uninterrupted, the moves of a chooser are Choose: the same refusal and no launch, or the same panel and one. */
  lemma UninterruptedChoiceIsChoose(v: Shared, t: nat, fromRelease: bool)
    ensures
      var end := Uninterrupted(v, t, ChooseLocked(fromRelease), 7);
      var refusal := Refusal(PanelOf(v), fromRelease, v.releaseExists);
      && end.pc == Chosen(refusal) && end.v.mutex == None
      && PanelOf(end.v) == (if refusal.Some? then PanelOf(v) else Launch(PanelOf(v)))
      && end.launched == if refusal.Some? then 0 else 1
  {
    if v.phase != Choice && v.phase != Failed {
      Unroll(v, t, ChooseLocked(fromRelease), 7, Moved(v, Refused(Conflict), false));
      RefusedUnlocks(v, t, Conflict, 6);
    } else {
      Unroll(v, t, ChooseLocked(fromRelease), 7, Moved(v, PhaseChecked(fromRelease), false));
      if v.cancelled {
        Unroll(v, t, PhaseChecked(fromRelease), 6, Moved(v, Refused(Conflict), false));
        RefusedUnlocks(v, t, Conflict, 5);
      } else {
        Unroll(v, t, PhaseChecked(fromRelease), 6, Moved(v, ContextChecked(fromRelease), false));
        if fromRelease && !v.releaseExists {
          Unroll(v, t, ContextChecked(fromRelease), 5, Moved(v, Refused(Invalid), false));
          RefusedUnlocks(v, t, Invalid, 4);
        } else {
          Unroll(v, t, ContextChecked(fromRelease), 5, Moved(v, Approved, false));
          ApprovedLaunches(v, t);
        }
      }
    }
  }

  /**
   * So a choice that nothing interrupts is accepted exactly when the gate is choosing or failed,
   * its context is not cancelled and the release database is there if it was asked for; it is
   * refused as invalid for that last reason alone, else as a conflict.
   */
  lemma ChoiceIsAcceptedExactly(v: Shared, t: nat, fromRelease: bool)
    ensures
      var end := Uninterrupted(v, t, ChooseLocked(fromRelease), 7);
      var open := (v.phase == Choice || v.phase == Failed) && !v.cancelled;
      && end.pc == Chosen(if !open then Some(Conflict)
                          else if fromRelease && !v.releaseExists then Some(Invalid) else None)
      && (end.pc == Chosen(None) ==> end.v.phase == Preparing && end.v.counter == v.counter + 1 && end.launched == 1)
      && (end.pc != Chosen(None) ==> end.v.phase == v.phase && end.v.counter == v.counter && end.launched == 0)
  {
    UninterruptedChoiceIsChoose(v, t, fromRelease);
  }

  lemma FailedUnlocks(v: Shared, t: nat)
    ensures Uninterrupted(v, t, FailLocked, 3) == Section(v.(phase := Failed, mutex := None), Unlocked, 0)
  {
    var failed := v.(phase := Failed);
    Unroll(v, t, FailLocked, 3, Moved(failed, FailSet, false));
    Unroll(failed, t, FailSet, 2, Moved(failed.(mutex := None), Unlocked, false));
  }

  lemma ReadyUnlocks(v: Shared, t: nat)
    ensures Uninterrupted(v, t, ReadyLocked, 3)
            == Section(v.(phase := Ready, handler := Some(t), mutex := None), Unlocked, 0)
  {
    var ready := v.(phase := Ready);
    var served := ready.(handler := Some(t));
    Unroll(v, t, ReadyLocked, 3, Moved(ready, ReadySet, false));
    Unroll(ready, t, ReadySet, 2, Moved(served, HandlerStored, false));
    Unroll(served, t, HandlerStored, 1, Moved(served.(mutex := None), Unlocked, false));
  }

  /**
   * Uninterrupted, the last moves of a worker are PublishOutcome: a failure changes the phase
   * and nothing else, a success makes the phase ready and serves the application it built.
   */
  lemma UninterruptedPublicationIsPublishOutcome(v: Shared, t: nat, outcome: Result<nat>)
    requires outcome.Ok? ==> outcome.value == t
    ensures
      var end := Uninterrupted(v, t, if outcome.Ok? then ReadyLocked else FailLocked, 3);
      && end.pc == Unlocked && end.v.mutex == None && PanelOf(end.v) == PublishTo(PanelOf(v), outcome)
      && end.launched == 0
  {
    FailedUnlocks(v, t);
    ReadyUnlocks(v, t);
  }

  /** Uninterrupted, the moves of a closer are CancelContext. */
  lemma UninterruptedCloseIsCancelContext(v: Shared, t: nat, main: bool)
    ensures Uninterrupted(v, t, CloseLocked(main), 2)
            == Section(v.(cancelled := true, mutex := None), Waiting(main), 0)
  {
    var cancelled := v.(cancelled := true);
    Unroll(v, t, CloseLocked(main), 2, Moved(cancelled, Cancelled(main), false));
    Unroll(cancelled, t, Cancelled(main), 1, Moved(cancelled.(mutex := None), Waiting(main), false));
  }

  /** A thread that stands at its last critical section was preparing: PublishOutcome's caller meets its requirement. */
  lemma PublisherIsPreparing(s: State, t: nat)
    requires Reachable(s) && t < |s.threads| && (s.threads[t].FailLocked? || s.threads[t].ReadyLocked?)
    ensures s.v.phase == Preparing && s.v.mutex == Some(t) && Settled(PanelOf(s.v))
  {
    ReachableIsSound(s);
    assert PhaseFits(s.v.phase, s.v.handler, s.threads[t]) && HoldsMutex(s.threads[t]);
    SumUpdated(Weight, s.threads, t, WorkDone);
  }
}
