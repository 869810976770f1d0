/** Runs of the non-release gate: how many workers linger, and which failed gates can be retried. */
module GateRuns {
  import opened Domain
  import opened Gate

  lemma StaysItself(s: State)
    ensures Leads(s, s)
  {
    assert Run(s, []) == s;
  }

  lemma LeadsOn(s: State, now: State, a: Action)
    requires Leads(s, now)
    ensures Leads(s, Next(now, a))
  {
    var actions :| Run(s, actions) == now;
    assert (actions + [a])[..|actions|] == actions;
    assert Run(s, actions + [a]) == Next(now, a);
  }

  // One step of thread t, which stands at pc, given the move it makes.
  lemma Stepping(s: State, now: State, t: nat, pc: Pc, ok: bool, m: Moved) returns (after: State)
    requires Leads(s, now) && t < |now.threads| && now.threads[t] == pc && Move(now.v, t, pc, ok) == m
    ensures Leads(s, after) && after.v == m.v
    ensures |after.threads| == |now.threads| + (if m.spawned then 1 else 0) && after.threads[t] == m.pc
    ensures forall u | 0 <= u < |now.threads| && u != t :: after.threads[u] == now.threads[u]
    ensures m.spawned ==> after.threads[|now.threads|] == Working
  {
    LeadsOn(s, now, Step(t, ok));
    after := Next(now, Step(t, ok));
    ApplyIsPointwise(now, t, m);
  }

  // --- One more choice

  // A choice would be accepted now.
  predicate Open(v: Shared) {
    v.mutex == None && !v.cancelled && (v.phase == Choice || v.phase == Failed)
  }

  lemma Approving(s: State, now: State, t: nat) returns (after: State)
    requires Leads(s, now) && t < |now.threads| && now.threads[t] == ChooseStart(false) && Open(now.v)
    ensures Leads(s, after) && |after.threads| == |now.threads| && after.threads[t] == Approved
    ensures after.v == now.v.(mutex := Some(t))
  {
    var held := now.v.(mutex := Some(t));
    after := Stepping(s, now, t, ChooseStart(false), true, Moved(held, ChooseLocked(false), false));
    after := Stepping(s, after, t, ChooseLocked(false), true, Moved(held, PhaseChecked(false), false));
    after := Stepping(s, after, t, PhaseChecked(false), true, Moved(held, ContextChecked(false), false));
    after := Stepping(s, after, t, ContextChecked(false), true, Moved(held, Approved, false));
  }

  lemma Adding(s: State, now: State, t: nat) returns (after: State)
    requires Leads(s, now) && t < |now.threads| && now.threads[t] == Approved
    ensures Leads(s, after) && |after.threads| == |now.threads| && after.threads[t] == Added
    ensures after.v == now.v.(phase := Preparing, counter := now.v.counter + 1)
  {
    var preparing := now.v.(phase := Preparing);
    after := Stepping(s, now, t, Approved, true, Moved(preparing, PhaseSet, false));
    after := Stepping(s, after, t, PhaseSet, true, Moved(preparing.(counter := now.v.counter + 1), Added, false));
  }

  lemma Launching(s: State, now: State, t: nat) returns (after: State)
    requires Leads(s, now) && t < |now.threads| && now.threads[t] == Added
    ensures Leads(s, after) && |after.threads| == |now.threads| + 1 && after.threads[|now.threads|] == Working
    ensures after.v == now.v.(mutex := None)
  {
    after := Stepping(s, now, t, Added, true, Moved(now.v, Launched, true));
    after := Stepping(s, after, t, Launched, true, Moved(now.v.(mutex := None), Chosen(None), false));
  }

  lemma Choosing(s: State, now: State) returns (after: State, w: nat)
    requires Leads(s, now) && Open(now.v)
    ensures Leads(s, after) && w < |after.threads| && after.threads[w] == Working
    ensures after.v == now.v.(phase := Preparing, counter := now.v.counter + 1)
  {
    var t := |now.threads|;
    LeadsOn(s, now, ArriveChooser(false));
    after := Next(now, ArriveChooser(false));
    after := Approving(s, after, t);
    after := Adding(s, after, t);
    after := Launching(s, after, t);
    w := t + 1;
  }

  /** A fresh gate is open to a choice: nothing cancelled, counted, served, stored or closed, and no thread yet. */
  lemma FreshGateIsOpen(releaseExists: bool, rival: bool)
    ensures
      var s := Initial(releaseExists, rival);
      && Open(s.v) && s.v.phase == Choice && s.v.counter == 0 && s.v.handler == None && s.threads == []
      && s.v.app == None && s.v.stored == {} && s.v.closes == multiset{}
      && (s.v.releaseExists <==> releaseExists) && s.v.own == (if rival then Rival else Absent)
  {
  }

  // --- How many workers may still be on their way out

  lemma FailingToPrepare(s: State, now: State, w: nat) returns (after: State)
    requires Leads(s, now) && w < |now.threads| && now.threads[w] == Working && now.v.mutex == None
    ensures Leads(s, after) && |after.threads| == |now.threads| && after.threads[w] == FailLocked
    ensures after.v == now.v.(mutex := Some(w))
  {
    after := Stepping(s, now, w, Working, false, Moved(now.v, Failing, false));
    after := Stepping(s, after, w, Failing, false, Moved(now.v.(mutex := Some(w)), FailLocked, false));
  }

  lemma PublishingFailure(s: State, now: State, w: nat) returns (after: State)
    requires Leads(s, now) && w < |now.threads| && now.threads[w] == FailLocked
    ensures Leads(s, after) && after.v == now.v.(mutex := None, phase := Failed)
  {
    after := Stepping(s, now, w, FailLocked, false, Moved(now.v.(phase := Failed), FailSet, false));
    after := Stepping(s, after, w, FailSet, false, Moved(now.v.(phase := Failed, mutex := None), Unlocked, false));
  }

  lemma FailingOnceMore(s: State, now: State) returns (after: State)
    requires Leads(s, now) && Open(now.v)
    ensures Leads(s, after) && Open(after.v) && after.v.counter == now.v.counter + 1
  {
    var w: nat;
    after, w := Choosing(s, now);
    after := FailingToPrepare(s, after, w);
    after := PublishingFailure(s, after, w);
  }

  /**
   * A worker unlocks before it calls Done, so the counter has no bound: a new choice can come
   * in each time, and for every n some run has n workers counted while nothing is preparing.
   */
  lemma CounterHasNoBound(n: nat) returns (s: State)
    ensures Reachable(s) && Open(s.v) && s.v.counter == n
  {
    var start := Initial(false, false);
    StaysItself(start);
    s := start;
    for i := 0 to n
      invariant Leads(start, s) && Open(s.v) && s.v.counter == i
    {
      s := FailingOnceMore(start, s);
    }
  }

  // --- Which failed gates can be retried

  lemma PreparingWell(s: State, now: State, w: nat) returns (after: State)
    requires Leads(s, now) && w < |now.threads| && now.threads[w] == Working
    requires now.v.own == Absent && !now.v.cancelled
    ensures Leads(s, after) && |after.threads| == |now.threads| && after.threads[w] == Building
    ensures after.v == now.v.(own := Published(w))
  {
    var linked := now.v.(own := Published(w));
    after := Stepping(s, now, w, Working, true, Moved(linked, Linked, false));
    after := Stepping(s, after, w, Linked, true, Moved(linked, Prepared, false));
    after := Stepping(s, after, w, Prepared, true, Moved(linked, Building, false));
  }

  lemma Succeeding(s: State, now: State, w: nat) returns (after: State)
    requires Leads(s, now) && w < |now.threads| && now.threads[w] == Building && now.v.mutex == None
    ensures Leads(s, after) && after.v.phase == Ready
  {
    var built := now.v.(app := Some(w), stored := now.v.stored + {w});
    var held := built.(mutex := Some(w));
    after := Stepping(s, now, w, Building, true, Moved(built, GotHandler, false));
    after := Stepping(s, after, w, GotHandler, true, Moved(held, ReadyLocked, false));
    after := Stepping(s, after, w, ReadyLocked, true, Moved(held.(phase := Ready), ReadySet, false));
  }

  lemma OpenGateCanSucceed(s: State) returns (after: State)
    requires Open(s.v) && !s.v.own.Published?
    ensures Leads(s, after) && after.v.phase == Ready
  {
    StaysItself(s);
    LeadsOn(s, s, RivalRemoves);
    after := Next(s, RivalRemoves);
    var w: nat;
    after, w := Choosing(s, after);
    after := PreparingWell(s, after, w);
    after := Succeeding(s, after, w);
  }

  // A gate whose context is gone and that has failed: no choice can get past its check.
  predicate Finished(s: State) {
    && s.v.cancelled && s.v.phase == Failed
    && forall t | 0 <= t < |s.threads| :: !AboutToAdd(s.threads[t])
  }

  // All a move may do to the phase, seen from who makes it.
  predicate LeavesFailed(v: Shared, pc: Pc, m: Moved) {
    v.phase == Failed && !Unpublished(pc) && !AboutToAdd(pc) ==> m.v.phase == Failed
  }

  lemma ChooserLeavesFailed(v: Shared, t: nat, pc: Pc)
    requires IsChooser(pc)
    ensures LeavesFailed(v, pc, ChooserMove(v, t, pc))
  {
  }

  lemma WorkerLeavesFailed(v: Shared, t: nat, pc: Pc, ok: bool)
    requires !IsChooser(pc) && !IsCloser(pc) && (pc.ReadySet? ==> v.phase == Ready)
    ensures LeavesFailed(v, pc, WorkerMove(v, t, pc, ok))
  {
  }

  lemma FinishedStays(s: State, a: Action)
    requires Sound(s) && Finished(s)
    ensures Finished(Next(s, a))
  {
    if a.Step? && a.thread < |s.threads| {
      var pc := s.threads[a.thread];
      var m := Move(s.v, a.thread, pc, a.ok);
      assert PhaseFits(s.v.phase, s.v.handler, pc) && !AboutToAdd(pc);
      if IsChooser(pc) {
        ChooserLeavesFailed(s.v, a.thread, pc);
      } else if !IsCloser(pc) {
        WorkerLeavesFailed(s.v, a.thread, pc, a.ok);
      }
      MoveAndClosing(s.v, a.thread, pc, a.ok);
      ApplyIsPointwise(s, a.thread, m);
    } else {
      ArrivalsAreInert(s, a);
    }
  }

  lemma {:induction false} FinishedIsFinal(s: State, actions: seq<Action>)
    requires Sound(s) && Finished(s)
    ensures Finished(Run(s, actions))
  {
    if actions != [] {
      FinishedIsFinal(s, actions[..|actions| - 1]);
      RunKeepsSound(s, actions[..|actions| - 1]);
      FinishedStays(Run(s, actions[..|actions| - 1]), actions[|actions| - 1]);
    }
  }

  lemma FailedAndFree(s: State)
    requires Sound(s) && s.v.mutex == None && s.v.phase == Failed
    ensures forall t | 0 <= t < |s.threads| :: !AboutToAdd(s.threads[t]) && !OwnsFile(s.threads[t])
  {
    forall t | 0 <= t < |s.threads|
      ensures !AboutToAdd(s.threads[t]) && !OwnsFile(s.threads[t])
    {
      assert !HoldsMutex(s.threads[t]);
      assert PhaseFits(s.v.phase, s.v.handler, s.threads[t]);
    }
  }

  /**
   * A failed gate can still become ready exactly when its context is not cancelled and no file
   * it published stands on its own path: both can be read off before the next choice. A rival's
   * file there is no obstacle for good, since the rival may withdraw it.
   */
  lemma RetryableExactly(s: State)
    requires Reachable(s) && s.v.mutex == None && s.v.phase == Failed
    ensures (exists actions :: Run(s, actions).v.phase == Ready) <==> !s.v.cancelled && !s.v.own.Published?
  {
    ReachableIsSound(s);
    FailedAndFree(s);
    if !s.v.cancelled && !s.v.own.Published? {
      var after := OpenGateCanSucceed(s);
      var actions :| Run(s, actions) == after;
      assert Run(s, actions).v.phase == Ready;
    } else if actions :| Run(s, actions).v.phase == Ready {
      if s.v.cancelled {
        FinishedIsFinal(s, actions);
      } else {
        PublishedFailureIsFinal(s, s.v.own.worker, actions);
      }
    }
  }
}
