/** The authoritative account P&L among an engine result's outcomes (engine/mapping.go). */
module AccountPnl {
  import opened Domain

  // model.PnlHaltReason; a newer engine may report one this adapter does not know.
  datatype HaltReason =
    | MissingFx | MissingAccountCurrency | MissingInitialPnl | MissingCostBasis | ArithmeticOverflow
    | Unrecognized(code: nat)

  datatype PnlAmount = PnlAmount(delta: real, absolute: real)

  datatype Outcome = Outcome(account: nat, amount: Option<PnlAmount>, halt: Option<HaltReason>)

  // The published value, if any, and the halt reason, if any.
  datatype Published = Published(pnl: Option<real>, halt: Option<HaltReason>)

  function HaltReasonFromSDK(reason: HaltReason): Result<HaltReason> {
    if reason.Unrecognized? then Err(Internal) else Ok(reason)
  }

  predicate Unchanged(o: Outcome) {
    o.amount.Some? && o.amount.value.delta == 0.0
  }

  // Whether o can decide the account's P&L rather than restate it.
  predicate Decides(account: nat, o: Outcome) {
    o.account == account && !Unchanged(o)
  }

  predicate Restates(account: nat, o: Outcome) {
    o.account == account && Unchanged(o)
  }

  // The declarative rule: the first deciding outcome decides; without one, the first
  // restated number is published.

  function First(outcomes: seq<Outcome>, p: Outcome -> bool): Option<Outcome> {
    if outcomes == [] then None else if p(outcomes[0]) then Some(outcomes[0]) else First(outcomes[1..], p)
  }

  function Decision(o: Outcome): Result<Published> {
    if o.halt.Some? then
      match HaltReasonFromSDK(o.halt.value)
      case Err(e) => Err(e)
      case Ok(reason) => Ok(Published(None, Some(reason)))
    else if o.amount.Some? then Ok(Published(Some(o.amount.value.absolute), None))
    else Ok(Published(None, None))
  }

  function Restated(o: Option<Outcome>): Option<real> {
    if o.Some? && o.value.amount.Some? then Some(o.value.amount.value.absolute) else None
  }

  function Rule(account: nat, outcomes: seq<Outcome>): Result<Published> {
    match First(outcomes, o => Decides(account, o))
    case Some(o) => Decision(o)
    case None => Ok(Published(Restated(First(outcomes, o => Restates(account, o))), None))
  }

  lemma {:induction false} FirstOfConcatenation(a: seq<Outcome>, b: seq<Outcome>, p: Outcome -> bool)
    ensures First(a + b, p) == if First(a, p).Some? then First(a, p) else First(b, p)
  {
    if a == [] {
      assert a + b == b;
    } else {
      assert (a + b)[1..] == a[1..] + b;
      FirstOfConcatenation(a[1..], b, p);
    }
  }

  /** First is the element no earlier one preempts. */
  lemma {:induction false} FirstIsFirst(outcomes: seq<Outcome>, p: Outcome -> bool)
    ensures First(outcomes, p) == None <==> forall i | 0 <= i < |outcomes| :: !p(outcomes[i])
    ensures First(outcomes, p).Some? ==>
              exists i :: 0 <= i < |outcomes| && First(outcomes, p) == Some(outcomes[i]) && p(outcomes[i])
                          && forall j | 0 <= j < i :: !p(outcomes[j])
  {
    if outcomes != [] {
      FirstIsFirst(outcomes[1..], p);
      assert forall i | 0 < i < |outcomes| :: outcomes[i] == outcomes[1..][i - 1];
      if !p(outcomes[0]) && First(outcomes[1..], p).Some? {
        var i :| 0 <= i < |outcomes[1..]| && First(outcomes[1..], p) == Some(outcomes[1..][i]) && p(outcomes[1..][i])
                 && forall j | 0 <= j < i :: !p(outcomes[1..][j]);
        assert outcomes[i + 1] == outcomes[1..][i];
      }
    }
  }

  /** spotFundsAccountPnlFromList: one pass with four variables computes the rule. */
  method SpotFundsAccountPnlFromList(account: nat, outcomes: seq<Outcome>) returns (r: Result<Published>)
    ensures r == Rule(account, outcomes)
  {
    var selected := false;
    var pnl: Option<real> := None;
    var unchangedPnl: Option<real> := None;
    var haltReason: Option<HaltReason> := None;
    ghost var decides, restates := o => Decides(account, o), o => Restates(account, o);
    for i := 0 to |outcomes|
      invariant selected == First(outcomes[..i], decides).Some?
      invariant unchangedPnl == Restated(First(outcomes[..i], restates))
      invariant unchangedPnl.Some? == First(outcomes[..i], restates).Some?
      invariant !selected ==> pnl == None && haltReason == None
      invariant selected ==> Decision(First(outcomes[..i], decides).value) == Ok(Published(pnl, haltReason))
    {
      var outcome := outcomes[i];
      assert outcomes[..i + 1] == outcomes[..i] + [outcome];
      FirstOfConcatenation(outcomes[..i], [outcome], decides);
      FirstOfConcatenation(outcomes[..i], [outcome], restates);
      if outcome.account != account {
        continue;
      }
      if outcome.amount.Some? && outcome.amount.value.delta == 0.0 {
        if unchangedPnl == None {
          unchangedPnl := Some(outcome.amount.value.absolute);
        }
        continue;
      }
      if selected {
        continue;
      }
      selected := true;
      if outcome.halt.Some? {
        var reason := HaltReasonFromSDK(outcome.halt.value);
        if reason.Err? {
          assert outcomes == outcomes[..i + 1] + outcomes[i + 1..];
          FirstOfConcatenation(outcomes[..i + 1], outcomes[i + 1..], decides);
          return Err(reason.error);
        }
        haltReason := Some(reason.value);
      } else if outcome.amount.Some? {
        pnl := Some(outcome.amount.value.absolute);
      }
    }
    assert outcomes[..|outcomes|] == outcomes;
    if !selected {
      return Ok(Published(unchangedPnl, None));
    }
    return Ok(Published(pnl, haltReason));
  }

  /** Unchanged and foreign outcomes, wherever they appear, never alter a decided result. */
  lemma NoiseNeverAltersADecision(account: nat, before: seq<Outcome>, noise: Outcome, after: seq<Outcome>)
    requires !Decides(account, noise)
    requires First(before + after, o => Decides(account, o)).Some?
    ensures Rule(account, before + [noise] + after) == Rule(account, before + after)
  {
    var decides := o => Decides(account, o);
    FirstOfConcatenation(before + [noise], after, decides);
    FirstOfConcatenation(before, [noise], decides);
    FirstOfConcatenation(before, after, decides);
  }

  /** An outcome of another account never matters at all, not even for a restated number. */
  lemma ForeignOutcomesNeverMatter(account: nat, before: seq<Outcome>, foreign: Outcome, after: seq<Outcome>)
    requires foreign.account != account
    ensures Rule(account, before + [foreign] + after) == Rule(account, before + after)
  {
    var decides, restates := o => Decides(account, o), o => Restates(account, o);
    FirstOfConcatenation(before + [foreign], after, decides);
    FirstOfConcatenation(before, [foreign], decides);
    FirstOfConcatenation(before, after, decides);
    FirstOfConcatenation(before + [foreign], after, restates);
    FirstOfConcatenation(before, [foreign], restates);
    FirstOfConcatenation(before, after, restates);
  }

  /** A halt is never hidden by a number that only restates: wherever it comes among restatements, it is published. */
  lemma HaltOutranksRestatements(account: nat, before: seq<Outcome>, halted: Outcome, after: seq<Outcome>)
    requires forall o | o in before :: o.account == account ==> Unchanged(o)
    requires Decides(account, halted) && halted.halt.Some? && !halted.halt.value.Unrecognized?
    ensures Rule(account, before + [halted] + after) == Ok(Published(None, halted.halt))
  {
    var decides := o => Decides(account, o);
    FirstIsFirst(before, decides);
    FirstOfConcatenation(before + [halted], after, decides);
    FirstOfConcatenation(before, [halted], decides);
  }

  // Of another account, or a restated number: nothing that decides.
  predicate Passes(account: nat, o: Outcome) {
    o.account != account || (o.amount.Some? && o.amount.value.delta == 0.0)
  }

  lemma FirstDecides(account: nat, before: seq<Outcome>, o: Outcome, after: seq<Outcome>)
    requires forall e | e in before :: Passes(account, e)
    requires !Passes(account, o)
    ensures First(before + [o] + after, e => Decides(account, e)) == Some(o)
  {
    var decides := e => Decides(account, e);
    assert forall i | 0 <= i < |before| :: Passes(account, before[i]) && !decides(before[i]);
    FirstIsFirst(before, decides);
    FirstOfConcatenation(before + [o], after, decides);
    FirstOfConcatenation(before, [o], decides);
  }

  /**
   * The first outcome of the account that is not a restated number decides alone: a halt this
   * adapter knows is published without a number, one it does not know refuses the result, and
   * without a halt the absolute P&L is published, never the change.
   */
  lemma FirstChangeDecides(account: nat, before: seq<Outcome>, o: Outcome, after: seq<Outcome>)
    requires forall e | e in before :: Passes(account, e)
    requires !Passes(account, o)
    ensures Rule(account, before + [o] + after) ==
              if o.halt.Some? then
                if o.halt.value.Unrecognized? then Err(Internal) else Ok(Published(None, o.halt))
              else Ok(Published(if o.amount.Some? then Some(o.amount.value.absolute) else None, None))
  {
    FirstDecides(account, before, o, after);
    assert Rule(account, before + [o] + after) == Decision(o);
  }

  /** Without one, the first restated number is published. */
  lemma FirstRestatementStands(account: nat, before: seq<Outcome>, o: Outcome, after: seq<Outcome>)
    requires forall e | e in before :: e.account != account
    requires o.account == account && forall e | e in [o] + after :: Passes(account, e)
    ensures o.amount.Some? && Rule(account, before + [o] + after) == Ok(Published(Some(o.amount.value.absolute), None))
  {
    assert o in [o] + after;
    var decides, restates := e => Decides(account, e), e => Restates(account, e);
    assert forall e | e in before + [o] + after :: e in before || e in [o] + after;
    FirstIsFirst(before + [o] + after, decides);
    FirstIsFirst(before, restates);
    FirstOfConcatenation(before + [o], after, restates);
    FirstOfConcatenation(before, [o], restates);
  }

  lemma NothingOfTheAccount(account: nat, outcomes: seq<Outcome>)
    requires forall e | e in outcomes :: e.account != account
    ensures Rule(account, outcomes) == Ok(Published(None, None))
  {
    FirstIsFirst(outcomes, e => Decides(account, e));
    FirstIsFirst(outcomes, e => Restates(account, e));
  }
}
