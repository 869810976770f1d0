/** The two-phase settlement of an immediate order (engine/reservation.go). */
module Settlement {
  import opened Domain
  import opened Outcomes
  import AccountPnl

  datatype Block = Block(code: string, reason: string)

  // What prepareImmediate kept of the pre-trade phase.
  datatype Preparation = Preparation(outcomes: seq<BalanceOutcome>, blocks: seq<Block>)

  // The engine's post-trade answer, its adjustments and blocks as the resolver maps them.
  datatype PostTrade = PostTrade(
    adjustments: Result<seq<BalanceOutcome>>, accountPnls: seq<AccountPnl.Outcome>, blocks: Result<seq<Block>>)

  datatype Settled = Settled(outcomes: seq<BalanceOutcome>, pnl: AccountPnl.Published, blocks: seq<Block>)

  // The engine has applied the trade by now, so no failure may read as the caller's mistake.
  const RECONCILE := Internal

  function SettleImmediate(prepared: Preparation, account: Option<nat>, post: PostTrade): Result<Settled> {
    if post.adjustments.Err? then Err(RECONCILE) else
    match MergeAll(Flatten([prepared.outcomes, post.adjustments.value]))
    case Err(_) => Err(RECONCILE)
    case Ok(outcomes) =>
      if account.None? then Err(RECONCILE) else
      match AccountPnl.Rule(account.value, post.accountPnls)
      case Err(_) => Err(RECONCILE)
      case Ok(pnl) =>
        if post.blocks.Err? then Err(RECONCILE) else
        Ok(Settled(outcomes, pnl, prepared.blocks + post.blocks.value))
  }

  lemma TwoPhases(a: seq<BalanceOutcome>, b: seq<BalanceOutcome>)
    ensures Flatten([a, b]) == a + b
  {
    assert [a, b][..1] == [a] && [a][..0] == [];
    assert Flatten([a]) == a;
  }

  /**
   * A settlement that succeeds accounts for both phases: each asset's entry is the merge of
   * all its outcomes, pre-trade ones first, every delta the sum over both phases, and the account
   * P&L published is the one the post-trade outcomes decide; and no failure of it, whatever its
   * cause, reads as invalid input.
   */
  lemma SettlementConservesBothPhases(prepared: Preparation, account: Option<nat>, post: PostTrade)
    ensures
      var r := SettleImmediate(prepared, account, post);
      && (r.Ok? <==>
            && post.adjustments.Ok? && account.Some? && post.blocks.Ok?
            && Mergeable(prepared.outcomes + post.adjustments.value)
            && AccountPnl.Rule(account.value, post.accountPnls).Ok?)
      && (r.Err? ==> r.error == Internal)
      && (r.Ok? ==>
            && HoldsTotals(r.value.outcomes, prepared.outcomes + post.adjustments.value)
            && r.value.blocks == prepared.blocks + post.blocks.value
            && Ok(r.value.pnl) == AccountPnl.Rule(account.value, post.accountPnls))
      && (r.Ok? ==> forall entry, f | entry in r.value.outcomes ::
            IsSum(DeltaOf(entry.outcome, f),
                  Deltas(entry.asset, prepared.outcomes, f) + Deltas(entry.asset, post.adjustments.value, f)))
  {
    if post.adjustments.Ok? {
      var all := prepared.outcomes + post.adjustments.value;
      TwoPhases(prepared.outcomes, post.adjustments.value);
      MergedExactly(all);
      var r := SettleImmediate(prepared, account, post);
      if r.Ok? {
        forall entry, f | entry in r.value.outcomes
          ensures IsSum(DeltaOf(entry.outcome, f),
                        Deltas(entry.asset, prepared.outcomes, f) + Deltas(entry.asset, post.adjustments.value, f))
        {
          DeltasAreConserved(entry.asset, all, f);
          DeltasOfConcatenation(entry.asset, prepared.outcomes, post.adjustments.value, f);
        }
      }
    }
  }

  lemma {:induction false} DeltasOfConcatenation(
    asset: string, a: seq<BalanceOutcome>, b: seq<BalanceOutcome>, f: Field)
    ensures Deltas(asset, a + b, f) == Deltas(asset, a, f) + Deltas(asset, b, f)
  {
    if b == [] {
      assert a + b == a;
    } else {
      assert (a + b)[..|a + b| - 1] == a + b[..|b| - 1];
      DeltasOfConcatenation(asset, a, b[..|b| - 1], f);
    }
  }
}
