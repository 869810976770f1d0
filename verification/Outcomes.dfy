/** Merging the balance outcomes of several engine phases (engine/mapping.go, mergeBalanceOutcomes). */
module Outcomes {
  import opened Domain

  // A decimal field: absent, a decimal, or text that is not one. Decimal texts are
  // identified by the exact value they denote.
  datatype Amount = Blank | Number(value: real) | Malformed

  datatype Accepted = Accepted(
    balanceDelta: Amount, balanceResult: string,
    heldDelta: Amount, heldResult: string,
    incomingDelta: Amount, incomingResult: string,
    realizedPnlDelta: Amount, realizedPnlResult: string, realizedPnlHaltReason: string,
    averageEntryPrice: string)

  datatype BalanceOutcome = BalanceOutcome(asset: string, outcome: Accepted)

  // domain.AddDecimals on two present operands.
  function AddDecimals(base: Amount, delta: Amount): Result<Amount> {
    if base.Number? && delta.Number? then Ok(Number(base.value + delta.value)) else Err(Invalid)
  }

  function MergeOutcomeDelta(current: Amount, next: Amount): Result<Amount> {
    if current == Blank then Ok(next) else if next == Blank then Ok(current) else AddDecimals(current, next)
  }

  function MergeAcceptedOutcomes(current: Accepted, next: Accepted): Result<Accepted> {
    var balance := MergeOutcomeDelta(current.balanceDelta, next.balanceDelta);
    var held := MergeOutcomeDelta(current.heldDelta, next.heldDelta);
    var incoming := MergeOutcomeDelta(current.incomingDelta, next.incomingDelta);
    var realized := MergeOutcomeDelta(current.realizedPnlDelta, next.realizedPnlDelta);
    if balance.Err? || held.Err? || incoming.Err? || realized.Err? then Err(Invalid) else
    var halted := next.realizedPnlHaltReason != "";
    var computed := !halted && next.realizedPnlResult != "";
    Ok(Accepted(
      balance.value, Later(current.balanceResult, next.balanceResult),
      held.value, Later(current.heldResult, next.heldResult),
      incoming.value, Later(current.incomingResult, next.incomingResult),
      realized.value,
      if halted then "" else if computed then next.realizedPnlResult else current.realizedPnlResult,
      if halted then next.realizedPnlHaltReason else if computed then "" else current.realizedPnlHaltReason,
      Later(current.averageEntryPrice, next.averageEntryPrice)))
  }

  function Later(current: string, next: string): string {
    if next != "" then next else current
  }

  // The simple form: find the entry of the outcome's asset, and merge into it or append.

  function IndexOf(merged: seq<BalanceOutcome>, asset: string): (i: nat)
    ensures i <= |merged|
  {
    if merged == [] || merged[0].asset == asset then 0 else 1 + IndexOf(merged[1..], asset)
  }

  function MergeInto(merged: seq<BalanceOutcome>, next: BalanceOutcome): Result<seq<BalanceOutcome>> {
    if next.asset == "" then Err(Internal) else
    var i := IndexOf(merged, next.asset);
    if i == |merged| then Ok(merged + [next]) else
    match MergeAcceptedOutcomes(merged[i].outcome, next.outcome)
    case Err(e) => Err(e)
    case Ok(combined) => Ok(merged[i := BalanceOutcome(merged[i].asset, combined)])
  }

  function MergeAll(outcomes: seq<BalanceOutcome>): Result<seq<BalanceOutcome>> {
    if outcomes == [] then Ok([]) else
    match MergeAll(outcomes[..|outcomes| - 1])
    case Err(e) => Err(e)
    case Ok(merged) => MergeInto(merged, outcomes[|outcomes| - 1])
  }

  function Flatten(phases: seq<seq<BalanceOutcome>>): seq<BalanceOutcome> {
    if phases == [] then [] else Flatten(phases[..|phases| - 1]) + phases[|phases| - 1]
  }

  lemma {:induction false} IndexOfFinds(merged: seq<BalanceOutcome>, asset: string)
    ensures forall j | 0 <= j < IndexOf(merged, asset) :: merged[j].asset != asset
    ensures IndexOf(merged, asset) < |merged| ==> merged[IndexOf(merged, asset)].asset == asset
  {
    if merged != [] && merged[0].asset != asset {
      IndexOfFinds(merged[1..], asset);
      assert forall j | 0 < j < |merged| :: merged[j] == merged[1..][j - 1];
    }
  }

  lemma {:induction false} MergeAllStops(outcomes: seq<BalanceOutcome>, n: nat)
    requires n <= |outcomes| && MergeAll(outcomes[..n]).Err?
    ensures MergeAll(outcomes) == MergeAll(outcomes[..n])
    decreases |outcomes| - n
  {
    if n < |outcomes| {
      assert outcomes[..n + 1][..n] == outcomes[..n];
      MergeAllStops(outcomes, n + 1);
    } else {
      assert outcomes[..n] == outcomes;
    }
  }

  lemma {:induction false} FlattenPrefix(phases: seq<seq<BalanceOutcome>>, n: nat)
    requires n <= |phases|
    ensures Flatten(phases[..n]) <= Flatten(phases)
    decreases |phases| - n
  {
    if n < |phases| {
      assert phases[..n + 1][..n] == phases[..n];
      FlattenPrefix(phases, n + 1);
    } else {
      assert phases[..n] == phases;
    }
  }

  // The index map holds exactly where each asset's entry is.
  predicate Indexes(byAsset: map<string, nat>, merged: seq<BalanceOutcome>) {
    && (forall i | 0 <= i < |merged| :: merged[i].asset in byAsset && byAsset[merged[i].asset] == i)
    && (forall asset | asset in byAsset :: byAsset[asset] < |merged| && merged[byAsset[asset]].asset == asset)
  }

  lemma MergeIndexed(byAsset: map<string, nat>, merged: seq<BalanceOutcome>, next: BalanceOutcome)
    requires Indexes(byAsset, merged)
    ensures next.asset != "" && next.asset !in byAsset ==>
              && MergeInto(merged, next) == Ok(merged + [next])
              && Indexes(byAsset[next.asset := |merged|], merged + [next])
    ensures next.asset != "" && next.asset in byAsset ==>
              var index := byAsset[next.asset];
              match MergeAcceptedOutcomes(merged[index].outcome, next.outcome)
              case Err(e) => MergeInto(merged, next) == Err(e)
              case Ok(combined) =>
                var after := merged[index := BalanceOutcome(merged[index].asset, combined)];
                MergeInto(merged, next) == Ok(after) && Indexes(byAsset, after)
  {
    IndexOfFinds(merged, next.asset);
  }

  lemma PrefixOfAll(phases: seq<seq<BalanceOutcome>>, p: nat, o: nat)
    requires p < |phases| && o <= |phases[p]|
    ensures Flatten(phases[..p]) + phases[p][..o] <= Flatten(phases)
  {
    assert phases[..p + 1][..p] == phases[..p];
    FlattenPrefix(phases, p + 1);
    assert Flatten(phases[..p]) + phases[p][..o] <= Flatten(phases[..p]) + phases[p];
  }

  lemma MergeAllOneMore(front: seq<BalanceOutcome>, last: BalanceOutcome)
    ensures MergeAll(front + [last]) ==
              match MergeAll(front) case Err(e) => Err(e) case Ok(merged) => MergeInto(merged, last)
  {
    assert (front + [last])[..|front|] == front;
  }

  lemma MergeAllNext(phases: seq<seq<BalanceOutcome>>, p: nat, o: nat)
    requires p < |phases| && o < |phases[p]|
    ensures
      var front, outcomes := Flatten(phases[..p]) + phases[p][..o], Flatten(phases[..p]) + phases[p][..o + 1];
      && MergeAll(outcomes) ==
           (match MergeAll(front) case Err(e) => Err(e) case Ok(merged) => MergeInto(merged, phases[p][o]))
      && (MergeAll(outcomes).Err? ==> MergeAll(Flatten(phases)) == MergeAll(outcomes))
  {
    var front, outcomes := Flatten(phases[..p]) + phases[p][..o], Flatten(phases[..p]) + phases[p][..o + 1];
    assert outcomes == front + [phases[p][o]];
    MergeAllOneMore(front, phases[p][o]);
    PrefixOfAll(phases, p, o + 1);
    assert Flatten(phases)[..|outcomes|] == outcomes;
    if MergeAll(outcomes).Err? {
      MergeAllStops(Flatten(phases), |outcomes|);
    }
  }

  lemma NextPhase(phases: seq<seq<BalanceOutcome>>, p: nat)
    requires p < |phases|
    ensures Flatten(phases[..p]) + phases[p][..0] == Flatten(phases[..p])
    ensures Flatten(phases[..p]) + phases[p][..|phases[p]|] == Flatten(phases[..p + 1])
  {
    assert phases[..p + 1][..p] == phases[..p];
    assert phases[p][..|phases[p]|] == phases[p];
  }

  /** mergeBalanceOutcomes: the indexed loop computes the simple form over all phases in order. */
  method MergeBalanceOutcomes(phases: seq<seq<BalanceOutcome>>) returns (r: Result<seq<BalanceOutcome>>)
    ensures r == MergeAll(Flatten(phases))
  {
    var merged: seq<BalanceOutcome> := [];
    var byAsset: map<string, nat> := map[];
    for p := 0 to |phases|
      invariant Indexes(byAsset, merged)
      invariant MergeAll(Flatten(phases[..p])) == Ok(merged)
    {
      NextPhase(phases, p);
      for o := 0 to |phases[p]|
        invariant Indexes(byAsset, merged)
        invariant MergeAll(Flatten(phases[..p]) + phases[p][..o]) == Ok(merged)
      {
        var outcome := phases[p][o];
        MergeAllNext(phases, p, o);
        MergeIndexed(byAsset, merged, outcome);
        if outcome.asset == "" {
          return Err(Internal);
        }
        if outcome.asset !in byAsset {
          byAsset := byAsset[outcome.asset := |merged|];
          merged := merged + [outcome];
          continue;
        }
        var index := byAsset[outcome.asset];
        var combined := MergeAcceptedOutcomes(merged[index].outcome, outcome.outcome);
        if combined.Err? {
          return Err(combined.error);
        }
        merged := merged[index := BalanceOutcome(merged[index].asset, combined.value)];
      }
    }
    assert phases[..|phases|] == phases;
    return Ok(merged);
  }

  // What one asset's entry must hold: its own outcomes, merged in order, and nothing else.

  function Join(x: Result<Option<Accepted>>, y: Result<Option<Accepted>>): Result<Option<Accepted>> {
    if x.Err? then x else if y.Err? then y else
    match (x.value, y.value)
    case (None, _) => y
    case (_, None) => x
    case (Some(a), Some(b)) =>
      match MergeAcceptedOutcomes(a, b)
      case Err(e) => Err(e)
      case Ok(c) => Ok(Some(c))
  }

  function Own(asset: string, o: BalanceOutcome): Result<Option<Accepted>> {
    Ok(if o.asset == asset then Some(o.outcome) else None)
  }

  function Total(asset: string, outcomes: seq<BalanceOutcome>): Result<Option<Accepted>> {
    if outcomes == [] then Ok(None)
    else Join(Total(asset, outcomes[..|outcomes| - 1]), Own(asset, outcomes[|outcomes| - 1]))
  }

  function FirstSeen(outcomes: seq<BalanceOutcome>): seq<string> {
    if outcomes == [] then [] else
    var front, last := FirstSeen(outcomes[..|outcomes| - 1]), outcomes[|outcomes| - 1].asset;
    if last in front then front else front + [last]
  }

  function AssetsOf(merged: seq<BalanceOutcome>): seq<string> {
    seq(|merged|, i requires 0 <= i < |merged| => merged[i].asset)
  }

  predicate Distinct(names: seq<string>) {
    forall i, j | 0 <= i < j < |names| :: names[i] != names[j]
  }

  predicate Mergeable(outcomes: seq<BalanceOutcome>) {
    forall o | o in outcomes :: o.asset != "" && Total(o.asset, outcomes).Ok?
  }

  predicate HoldsTotals(merged: seq<BalanceOutcome>, outcomes: seq<BalanceOutcome>) {
    && AssetsOf(merged) == FirstSeen(outcomes)
    && Distinct(AssetsOf(merged))
    && forall o | o in merged :: Total(o.asset, outcomes) == Ok(Some(o.outcome))
  }

  lemma {:induction false} FirstSeenIsWhatIsThere(outcomes: seq<BalanceOutcome>, asset: string)
    ensures asset in FirstSeen(outcomes) <==> exists o :: o in outcomes && o.asset == asset
    ensures asset !in FirstSeen(outcomes) ==> Total(asset, outcomes) == Ok(None)
  {
    if outcomes != [] {
      var front, last := outcomes[..|outcomes| - 1], outcomes[|outcomes| - 1];
      FirstSeenIsWhatIsThere(front, asset);
      assert outcomes == front + [last];
      assert last in outcomes;
    }
  }

  lemma TotalsAfter(front: seq<BalanceOutcome>, last: BalanceOutcome, asset: string)
    ensures Total(asset, front + [last]) == Join(Total(asset, front), Own(asset, last))
    ensures FirstSeen(front + [last])
         == if last.asset in FirstSeen(front) then FirstSeen(front) else FirstSeen(front) + [last.asset]
  {
    assert (front + [last])[..|front|] == front;
  }

  // A merge into an entry keeps every asset and every other entry.
  lemma MergeIntoEntry(merged: seq<BalanceOutcome>, last: BalanceOutcome, i: nat)
    requires last.asset != "" && i == IndexOf(merged, last.asset) && i < |merged|
    ensures MergeInto(merged, last).Ok? <==> MergeAcceptedOutcomes(merged[i].outcome, last.outcome).Ok?
    ensures MergeInto(merged, last).Ok? ==>
              && AssetsOf(MergeInto(merged, last).value) == AssetsOf(merged)
              && MergeAcceptedOutcomes(merged[i].outcome, last.outcome) == Ok(MergeInto(merged, last).value[i].outcome)
              && forall j | 0 <= j < |merged| && j != i :: MergeInto(merged, last).value[j] == merged[j]
  {
  }

  lemma MergeIntoEnd(merged: seq<BalanceOutcome>, last: BalanceOutcome)
    requires last.asset != "" && IndexOf(merged, last.asset) == |merged|
    ensures MergeInto(merged, last) == Ok(merged + [last])
  {
  }

  lemma AssetsOfEnd(merged: seq<BalanceOutcome>, last: BalanceOutcome)
    ensures AssetsOf(merged + [last]) == AssetsOf(merged) + [last.asset]
  {
  }

  lemma MergeIntoEntryHoldsTotals(
    merged: seq<BalanceOutcome>, front: seq<BalanceOutcome>, last: BalanceOutcome, i: nat)
    requires HoldsTotals(merged, front) && last.asset != ""
    requires i == IndexOf(merged, last.asset) && i < |merged| && merged[i].asset == last.asset
    ensures MergeInto(merged, last).Ok? <==> Total(last.asset, front + [last]).Ok?
    ensures MergeInto(merged, last).Ok? ==> HoldsTotals(MergeInto(merged, last).value, front + [last])
  {
    MergeIntoEntry(merged, last, i);
    TotalsAfter(front, last, last.asset);
    assert merged[i] in merged && AssetsOf(merged)[i] == last.asset;
    var r := MergeInto(merged, last);
    if r.Ok? {
      forall j | 0 <= j < |merged|
        ensures Total(r.value[j].asset, front + [last]) == Ok(Some(r.value[j].outcome))
      {
        assert AssetsOf(r.value)[j] == AssetsOf(merged)[j] && merged[j] in merged;
        TotalsAfter(front, last, merged[j].asset);
      }
    }
  }

  lemma MergeIntoEndHoldsTotals(merged: seq<BalanceOutcome>, front: seq<BalanceOutcome>, last: BalanceOutcome)
    requires HoldsTotals(merged, front) && last.asset != ""
    requires IndexOf(merged, last.asset) == |merged| && last.asset !in AssetsOf(merged)
    ensures Total(last.asset, front + [last]).Ok? && HoldsTotals(merged + [last], front + [last])
  {
    AssetsOfEnd(merged, last);
    FirstSeenIsWhatIsThere(front, last.asset);
    TotalsAfter(front, last, last.asset);
    forall o | o in merged
      ensures Total(o.asset, front + [last]) == Ok(Some(o.outcome))
    {
      var j :| 0 <= j < |merged| && merged[j] == o;
      assert AssetsOf(merged)[j] == o.asset;
      TotalsAfter(front, last, o.asset);
    }
  }

  lemma MergeIntoHoldsTotals(merged: seq<BalanceOutcome>, front: seq<BalanceOutcome>, last: BalanceOutcome)
    requires HoldsTotals(merged, front) && last.asset != ""
    ensures
      var r := MergeInto(merged, last);
      && (r.Ok? <==> Total(last.asset, front + [last]).Ok?)
      && (r.Ok? ==> HoldsTotals(r.value, front + [last]))
  {
    var i := IndexOf(merged, last.asset);
    IndexOfFinds(merged, last.asset);
    if i < |merged| {
      MergeIntoEntryHoldsTotals(merged, front, last, i);
    } else {
      MergeIntoEnd(merged, last);
      MergeIntoEndHoldsTotals(merged, front, last);
    }
  }

  /**
   * The merge succeeds exactly when every outcome names an asset and every asset's outcomes
   * can be merged; it then gives one entry per asset, in first-appearance order, holding
   * exactly that asset's outcomes merged in order.
   */
  lemma {:induction false} MergedExactly(outcomes: seq<BalanceOutcome>)
    ensures MergeAll(outcomes).Ok? <==> Mergeable(outcomes)
    ensures MergeAll(outcomes).Ok? ==> HoldsTotals(MergeAll(outcomes).value, outcomes)
  {
    if outcomes != [] {
      var front, last := outcomes[..|outcomes| - 1], outcomes[|outcomes| - 1];
      assert outcomes == front + [last];
      MergedExactly(front);
      MergeableFront(front, last);
      if MergeAll(front).Ok? && last.asset != "" {
        MergeIntoHoldsTotals(MergeAll(front).value, front, last);
      }
    }
  }

  lemma MergeableFront(front: seq<BalanceOutcome>, last: BalanceOutcome)
    ensures Mergeable(front + [last])
            <==> Mergeable(front) && last.asset != "" && Total(last.asset, front + [last]).Ok?
  {
    var outcomes := front + [last];
    assert outcomes[..|front|] == front;
    assert forall o :: o in outcomes <==> o in front || o == last;
    forall o | o in front
      ensures Total(o.asset, front).Err? ==> Total(o.asset, outcomes).Err?
      ensures o.asset != last.asset ==> Total(o.asset, outcomes) == Total(o.asset, front)
    {
      TotalsAfter(front, last, o.asset);
    }
  }

  // What an entry's fields are, read off the outcomes themselves.

  datatype Field = Balance | Held | Incoming | RealizedPnl

  function DeltaOf(a: Accepted, f: Field): Amount {
    match f
    case Balance => a.balanceDelta
    case Held => a.heldDelta
    case Incoming => a.incomingDelta
    case RealizedPnl => a.realizedPnlDelta
  }

  function Deltas(asset: string, outcomes: seq<BalanceOutcome>, f: Field): seq<Amount> {
    if outcomes == [] then [] else
    var front, last := Deltas(asset, outcomes[..|outcomes| - 1], f), outcomes[|outcomes| - 1];
    if last.asset == asset && DeltaOf(last.outcome, f) != Blank then front + [DeltaOf(last.outcome, f)] else front
  }

  function Sum(amounts: seq<Amount>): real {
    if amounts == [] then 0.0 else
    var last := amounts[|amounts| - 1];
    Sum(amounts[..|amounts| - 1]) + if last.Number? then last.value else 0.0
  }

  // The sum of the present amounts. A single one is kept as it came, decimal or not.
  predicate IsSum(total: Amount, amounts: seq<Amount>) {
    if amounts == [] then total == Blank
    else if |amounts| == 1 then total == amounts[0]
    else total == Number(Sum(amounts)) && Malformed !in amounts
  }

  lemma IsSumAfter(total: Amount, amounts: seq<Amount>, next: Amount)
    requires IsSum(total, amounts) && Blank !in amounts && next != Blank && MergeOutcomeDelta(total, next).Ok?
    ensures IsSum(MergeOutcomeDelta(total, next).value, amounts + [next])
  {
    assert (amounts + [next])[..|amounts|] == amounts;
    if |amounts| == 1 {
      assert amounts[..0] == [];
      assert total.Number? ==> Sum(amounts) == total.value;
    }
  }

  /** Every delta of a merged entry is the exact sum of that asset's own deltas: nothing lost, nothing added. */
  lemma {:induction false} DeltasAreConserved(asset: string, outcomes: seq<BalanceOutcome>, f: Field)
    requires Total(asset, outcomes).Ok?
    ensures Blank !in Deltas(asset, outcomes, f)
    ensures match Total(asset, outcomes).value
            case None => Deltas(asset, outcomes, f) == []
            case Some(a) => IsSum(DeltaOf(a, f), Deltas(asset, outcomes, f))
  {
    if outcomes != [] {
      var front, last := outcomes[..|outcomes| - 1], outcomes[|outcomes| - 1];
      DeltasAreConserved(asset, front, f);
      if last.asset == asset && Total(asset, front).value.Some? && DeltaOf(last.outcome, f) != Blank {
        IsSumAfter(DeltaOf(Total(asset, front).value.value, f), Deltas(asset, front, f), DeltaOf(last.outcome, f));
      }
    }
  }

  datatype Text = BalanceResult | HeldResult | IncomingResult | AveragePrice

  function TextOf(a: Accepted, t: Text): string {
    match t
    case BalanceResult => a.balanceResult
    case HeldResult => a.heldResult
    case IncomingResult => a.incomingResult
    case AveragePrice => a.averageEntryPrice
  }

  predicate SaysText(asset: string, o: BalanceOutcome, t: Text) {
    o.asset == asset && TextOf(o.outcome, t) != ""
  }

  // The last outcome that says something of t for the asset.
  predicate LastSays(asset: string, outcomes: seq<BalanceOutcome>, i: nat, t: Text) {
    && i < |outcomes| && SaysText(asset, outcomes[i], t)
    && forall j | i < j < |outcomes| :: !SaysText(asset, outcomes[j], t)
  }

  lemma LastSaysStays(asset: string, front: seq<BalanceOutcome>, last: BalanceOutcome, t: Text)
    requires !SaysText(asset, last, t)
    ensures forall i: nat | LastSays(asset, front, i, t) ::
              LastSays(asset, front + [last], i, t) && (front + [last])[i] == front[i]
  {
  }

  lemma TextAfterLast(asset: string, outcomes: seq<BalanceOutcome>, t: Text)
    requires outcomes != [] && Total(asset, outcomes).Ok? && Total(asset, outcomes).value.Some?
    ensures
      var front, last := outcomes[..|outcomes| - 1], outcomes[|outcomes| - 1];
      var text := TextOf(Total(asset, outcomes).value.value, t);
      && Total(asset, front).Ok?
      && (SaysText(asset, last, t) ==> text == TextOf(last.outcome, t))
      && (!SaysText(asset, last, t) ==>
            text == if Total(asset, front).value.Some? then TextOf(Total(asset, front).value.value, t) else "")
  {
  }

  /** Every result is the last one reported for the asset, or empty when none was. */
  lemma {:induction false} ResultsAreLast(asset: string, outcomes: seq<BalanceOutcome>, t: Text)
    requires Total(asset, outcomes).Ok? && Total(asset, outcomes).value.Some?
    ensures
      var text := TextOf(Total(asset, outcomes).value.value, t);
      || (text == "" && forall o | o in outcomes :: !SaysText(asset, o, t))
      || exists i: nat :: LastSays(asset, outcomes, i, t) && text == TextOf(outcomes[i].outcome, t)
  {
    var front, last := outcomes[..|outcomes| - 1], outcomes[|outcomes| - 1];
    assert outcomes == front + [last];
    TextAfterLast(asset, outcomes, t);
    if SaysText(asset, last, t) {
      assert LastSays(asset, outcomes, |outcomes| - 1, t);
    } else if Total(asset, front).value.Some? {
      ResultsAreLast(asset, front, t);
      LastSaysStays(asset, front, last, t);
    } else {
      NothingBefore(asset, front);
    }
  }

  lemma {:induction false} NothingBefore(asset: string, outcomes: seq<BalanceOutcome>)
    requires Total(asset, outcomes) == Ok(None)
    ensures forall o | o in outcomes :: o.asset != asset
  {
    if outcomes != [] {
      var front, last := outcomes[..|outcomes| - 1], outcomes[|outcomes| - 1];
      NothingBefore(asset, front);
      assert outcomes == front + [last];
    }
  }

  predicate HaltExcludesResult(a: Accepted) {
    a.realizedPnlHaltReason == "" || a.realizedPnlResult == ""
  }

  /** A halt and a realized result never appear together unless some outcome already held both. */
  lemma {:induction false} HaltExclusionIsKept(asset: string, outcomes: seq<BalanceOutcome>)
    requires forall o | o in outcomes :: HaltExcludesResult(o.outcome)
    ensures
      var total := Total(asset, outcomes);
      total.Ok? && total.value.Some? ==> HaltExcludesResult(total.value.value)
  {
    if outcomes != [] {
      var front, last := outcomes[..|outcomes| - 1], outcomes[|outcomes| - 1];
      assert outcomes == front + [last];
      HaltExclusionIsKept(asset, front);
    }
  }

  // The asset's outcomes that say something about the realized P&L.
  predicate SpeaksOfPnl(asset: string, o: BalanceOutcome) {
    o.asset == asset && (o.outcome.realizedPnlHaltReason != "" || o.outcome.realizedPnlResult != "")
  }

  predicate SamePnl(a: Accepted, b: Accepted) {
    a.realizedPnlHaltReason == b.realizedPnlHaltReason && a.realizedPnlResult == b.realizedPnlResult
  }

  /** The last outcome that speaks of the realized P&L decides it whole: its halt, or its result and no halt. */
  lemma {:induction false} RealizedPnlIsLast(asset: string, outcomes: seq<BalanceOutcome>)
    requires Total(asset, outcomes).Ok? && Total(asset, outcomes).value.Some?
    requires forall o | o in outcomes :: HaltExcludesResult(o.outcome)
    ensures
      var total := Total(asset, outcomes).value.value;
      || (total.realizedPnlHaltReason == "" && total.realizedPnlResult == ""
          && forall o | o in outcomes :: !SpeaksOfPnl(asset, o))
      || exists i: nat :: LastSpeaker(asset, outcomes, i) && SamePnl(total, outcomes[i].outcome)
  {
    var front, last := outcomes[..|outcomes| - 1], outcomes[|outcomes| - 1];
    assert outcomes == front + [last];
    HaltExclusionIsKept(asset, front);
    if SpeaksOfPnl(asset, last) {
      assert LastSpeaker(asset, outcomes, |outcomes| - 1);
    } else if Total(asset, front).value.Some? {
      RealizedPnlIsLast(asset, front);
      assert SamePnl(Total(asset, outcomes).value.value, Total(asset, front).value.value);
      LastSpeakerStays(asset, front, last);
    } else {
      NothingBefore(asset, front);
    }
  }

  predicate LastSpeaker(asset: string, outcomes: seq<BalanceOutcome>, i: nat) {
    && i < |outcomes| && SpeaksOfPnl(asset, outcomes[i])
    && forall j | i < j < |outcomes| :: !SpeaksOfPnl(asset, outcomes[j])
  }

  lemma LastSpeakerStays(asset: string, front: seq<BalanceOutcome>, last: BalanceOutcome)
    requires !SpeaksOfPnl(asset, last)
    ensures forall i: nat | LastSpeaker(asset, front, i) ::
              LastSpeaker(asset, front + [last], i) && (front + [last])[i] == front[i]
  {
  }

  // Merging in stages.

  function Bind(x: Result<Amount>, y: Amount): Result<Amount> {
    if x.Err? then x else MergeOutcomeDelta(x.value, y)
  }

  lemma DeltaMergeAssociates(a: Amount, b: Amount, c: Amount)
    ensures
      var ab, bc := MergeOutcomeDelta(a, b), MergeOutcomeDelta(b, c);
      Bind(ab, c) == if bc.Err? then Err(Invalid) else MergeOutcomeDelta(a, bc.value)
  {
  }

  lemma MergeAssociatesWhenPossible(a: Accepted, b: Accepted, c: Accepted, ab: Accepted, bc: Accepted)
    requires MergeAcceptedOutcomes(a, b) == Ok(ab) && MergeAcceptedOutcomes(b, c) == Ok(bc)
    ensures MergeAcceptedOutcomes(ab, c) == MergeAcceptedOutcomes(a, bc)
  {
    DeltaMergeAssociates(a.balanceDelta, b.balanceDelta, c.balanceDelta);
    DeltaMergeAssociates(a.heldDelta, b.heldDelta, c.heldDelta);
    DeltaMergeAssociates(a.incomingDelta, b.incomingDelta, c.incomingDelta);
    DeltaMergeAssociates(a.realizedPnlDelta, b.realizedPnlDelta, c.realizedPnlDelta);
  }

  lemma FailedMergeStaysFailed(a: Accepted, b: Accepted, c: Accepted)
    ensures MergeAcceptedOutcomes(a, b).Err? && MergeAcceptedOutcomes(b, c).Ok? ==>
              MergeAcceptedOutcomes(a, MergeAcceptedOutcomes(b, c).value).Err?
    ensures MergeAcceptedOutcomes(b, c).Err? && MergeAcceptedOutcomes(a, b).Ok? ==>
              MergeAcceptedOutcomes(MergeAcceptedOutcomes(a, b).value, c).Err?
  {
    DeltaMergeAssociates(a.balanceDelta, b.balanceDelta, c.balanceDelta);
    DeltaMergeAssociates(a.heldDelta, b.heldDelta, c.heldDelta);
    DeltaMergeAssociates(a.incomingDelta, b.incomingDelta, c.incomingDelta);
    DeltaMergeAssociates(a.realizedPnlDelta, b.realizedPnlDelta, c.realizedPnlDelta);
  }

  lemma AcceptedMergeAssociates(a: Accepted, b: Accepted, c: Accepted)
    ensures Join(Join(Ok(Some(a)), Ok(Some(b))), Ok(Some(c))) == Join(Ok(Some(a)), Join(Ok(Some(b)), Ok(Some(c))))
  {
    var ab, bc := MergeAcceptedOutcomes(a, b), MergeAcceptedOutcomes(b, c);
    if ab.Ok? && bc.Ok? {
      MergeAssociatesWhenPossible(a, b, c, ab.value, bc.value);
    } else {
      FailedMergeStaysFailed(a, b, c);
    }
  }

  predicate InvalidIfErr(x: Result<Option<Accepted>>) {
    x.Err? ==> x.error == Invalid
  }

  lemma JoinAssociates(x: Result<Option<Accepted>>, y: Result<Option<Accepted>>, z: Result<Option<Accepted>>)
    requires InvalidIfErr(x) && InvalidIfErr(y) && InvalidIfErr(z)
    ensures Join(Join(x, y), z) == Join(x, Join(y, z))
  {
    if x.Ok? && y.Ok? && z.Ok? && x.value.Some? && y.value.Some? && z.value.Some? {
      AcceptedMergeAssociates(x.value.value, y.value.value, z.value.value);
    }
  }

  lemma {:induction false} TotalErrsInvalid(asset: string, outcomes: seq<BalanceOutcome>)
    ensures InvalidIfErr(Total(asset, outcomes))
  {
    if outcomes != [] {
      TotalErrsInvalid(asset, outcomes[..|outcomes| - 1]);
    }
  }

  lemma {:induction false} TotalOfConcatenation(asset: string, a: seq<BalanceOutcome>, b: seq<BalanceOutcome>)
    ensures Total(asset, a + b) == Join(Total(asset, a), Total(asset, b))
  {
    if b == [] {
      assert a + b == a;
    } else {
      var front, last := b[..|b| - 1], b[|b| - 1];
      assert (a + b)[..|a + b| - 1] == a + front;
      TotalOfConcatenation(asset, a, front);
      TotalErrsInvalid(asset, a);
      TotalErrsInvalid(asset, front);
      JoinAssociates(Total(asset, a), Total(asset, front), Own(asset, last));
    }
  }

  lemma DistinctFront(merged: seq<BalanceOutcome>)
    requires Distinct(AssetsOf(merged)) && merged != []
    ensures
      var front, last := merged[..|merged| - 1], merged[|merged| - 1];
      && AssetsOf(merged) == AssetsOf(front) + [last.asset]
      && Distinct(AssetsOf(front)) && last.asset !in AssetsOf(front)
  {
    var front, last := merged[..|merged| - 1], merged[|merged| - 1];
    assert AssetsOf(merged) == AssetsOf(front) + [last.asset];
    assert forall j | 0 <= j < |front| :: AssetsOf(merged)[j] == AssetsOf(front)[j];
    assert AssetsOf(merged)[|front|] == last.asset;
  }

  lemma {:induction false} FirstSeenOfDistinct(merged: seq<BalanceOutcome>)
    requires Distinct(AssetsOf(merged))
    ensures FirstSeen(merged) == AssetsOf(merged)
  {
    if merged != [] {
      DistinctFront(merged);
      FirstSeenOfDistinct(merged[..|merged| - 1]);
    }
  }

  lemma {:induction false} TotalOfDistinct(merged: seq<BalanceOutcome>, i: nat)
    requires Distinct(AssetsOf(merged)) && i < |merged|
    ensures Total(merged[i].asset, merged) == Ok(Some(merged[i].outcome))
  {
    var front, last := merged[..|merged| - 1], merged[|merged| - 1];
    DistinctFront(merged);
    FirstSeenOfDistinct(front);
    if i < |front| {
      assert AssetsOf(front)[i] == merged[i].asset;
      TotalOfDistinct(front, i);
    } else {
      FirstSeenIsWhatIsThere(front, last.asset);
    }
  }

  // Two lists that stand for the same outcomes: same assets in the same order, same totals.
  ghost predicate SameMerge(x: seq<BalanceOutcome>, y: seq<BalanceOutcome>) {
    FirstSeen(x) == FirstSeen(y) && forall asset :: Total(asset, x) == Total(asset, y)
  }

  predicate TotalsExist(outcomes: seq<BalanceOutcome>) {
    forall asset | asset in FirstSeen(outcomes) :: asset != "" && Total(asset, outcomes).Ok?
  }

  lemma MergeableByTotals(outcomes: seq<BalanceOutcome>)
    ensures Mergeable(outcomes) <==> TotalsExist(outcomes)
  {
    if Mergeable(outcomes) {
      forall asset | asset in FirstSeen(outcomes)
        ensures asset != "" && Total(asset, outcomes).Ok?
      {
        FirstSeenIsWhatIsThere(outcomes, asset);
      }
    }
    if TotalsExist(outcomes) {
      forall o | o in outcomes
        ensures o.asset != "" && Total(o.asset, outcomes).Ok?
      {
        FirstSeenIsWhatIsThere(outcomes, o.asset);
      }
    }
  }

  lemma TotalsDetermineEntries(
    m: seq<BalanceOutcome>, n: seq<BalanceOutcome>, x: seq<BalanceOutcome>, y: seq<BalanceOutcome>)
    requires SameMerge(x, y) && HoldsTotals(m, x) && HoldsTotals(n, y)
    ensures m == n
  {
    assert |m| == |AssetsOf(m)| == |n|;
    forall i | 0 <= i < |m|
      ensures m[i] == n[i]
    {
      assert m[i].asset == AssetsOf(m)[i] == AssetsOf(n)[i] == n[i].asset;
      assert m[i] in m && n[i] in n;
    }
  }

  lemma SameMergeMergesAlike(x: seq<BalanceOutcome>, y: seq<BalanceOutcome>)
    requires SameMerge(x, y)
    ensures MergeAll(x).Ok? <==> MergeAll(y).Ok?
    ensures MergeAll(x).Ok? ==> MergeAll(x) == MergeAll(y)
  {
    MergedExactly(x);
    MergedExactly(y);
    MergeableByTotals(x);
    MergeableByTotals(y);
    if MergeAll(x).Ok? && MergeAll(y).Ok? {
      TotalsDetermineEntries(MergeAll(x).value, MergeAll(y).value, x, y);
    }
  }

  /** A merged list stands for the outcomes it came from. */
  lemma MergedStandsForOutcomes(outcomes: seq<BalanceOutcome>)
    requires MergeAll(outcomes).Ok?
    ensures SameMerge(MergeAll(outcomes).value, outcomes)
  {
    var merged := MergeAll(outcomes).value;
    MergedExactly(outcomes);
    FirstSeenOfDistinct(merged);
    forall asset
      ensures Total(asset, merged) == Total(asset, outcomes)
    {
      FirstSeenIsWhatIsThere(outcomes, asset);
      FirstSeenIsWhatIsThere(merged, asset);
      if asset in AssetsOf(merged) {
        var i :| 0 <= i < |merged| && AssetsOf(merged)[i] == asset;
        TotalOfDistinct(merged, i);
        assert merged[i] in merged;
      }
    }
  }

  function Append(seen: seq<string>, more: seq<string>): seq<string> {
    if more == [] then seen else
    var front, last := Append(seen, more[..|more| - 1]), more[|more| - 1];
    if last in front then front else front + [last]
  }

  lemma {:induction false} AppendHolds(seen: seq<string>, more: seq<string>, asset: string)
    ensures asset in Append(seen, more) <==> asset in seen || asset in more
  {
    if more != [] {
      var front, last := more[..|more| - 1], more[|more| - 1];
      AppendHolds(seen, front, asset);
      AppendHolds(seen, front, last);
      assert more == front + [last];
    }
  }

  lemma {:induction false} FirstSeenOfConcatenation(a: seq<BalanceOutcome>, b: seq<BalanceOutcome>)
    ensures FirstSeen(a + b) == Append(FirstSeen(a), FirstSeen(b))
  {
    if b == [] {
      assert a + b == a;
    } else {
      var front, last := b[..|b| - 1], b[|b| - 1];
      assert (a + b)[..|a + b| - 1] == a + front;
      FirstSeenOfConcatenation(a, front);
      AppendHolds(FirstSeen(a), FirstSeen(front), last.asset);
      if last.asset !in FirstSeen(front) {
        assert FirstSeen(b)[..|FirstSeen(front)|] == FirstSeen(front);
      }
    }
  }

  lemma SameMergeConcatenates(
    a: seq<BalanceOutcome>, b: seq<BalanceOutcome>, x: seq<BalanceOutcome>, y: seq<BalanceOutcome>)
    requires SameMerge(a, x) && SameMerge(b, y)
    ensures SameMerge(a + b, x + y)
  {
    FirstSeenOfConcatenation(a, b);
    FirstSeenOfConcatenation(x, y);
    forall asset
      ensures Total(asset, a + b) == Total(asset, x + y)
    {
      TotalOfConcatenation(asset, a, b);
      TotalOfConcatenation(asset, x, y);
    }
  }

  lemma StageOfMergeableMerges(a: seq<BalanceOutcome>, b: seq<BalanceOutcome>)
    requires MergeAll(a + b).Ok?
    ensures MergeAll(a).Ok? && MergeAll(b).Ok?
  {
    MergedExactly(a + b);
    MergedExactly(a);
    MergedExactly(b);
    forall o | o in a || o in b
      ensures o.asset != "" && Total(o.asset, a).Ok? && Total(o.asset, b).Ok?
    {
      assert o in a + b;
      TotalOfConcatenation(o.asset, a, b);
    }
  }

  /**
   * Merging in stages is merging all at once: the stages succeed together exactly when the
   * single merge does, and give the same entries. So it does not matter whether the pre-trade
   * outcomes of an immediate order are merged before its post-trade ones are known.
   */
  lemma StagedMergeIsOneMerge(a: seq<BalanceOutcome>, b: seq<BalanceOutcome>)
    ensures MergeAll(a + b).Ok? <==>
              MergeAll(a).Ok? && MergeAll(b).Ok? && MergeAll(MergeAll(a).value + MergeAll(b).value).Ok?
    ensures MergeAll(a + b).Ok? ==> MergeAll(MergeAll(a).value + MergeAll(b).value) == MergeAll(a + b)
  {
    if MergeAll(a + b).Ok? {
      StageOfMergeableMerges(a, b);
    }
    if MergeAll(a).Ok? && MergeAll(b).Ok? {
      MergedStandsForOutcomes(a);
      MergedStandsForOutcomes(b);
      SameMergeConcatenates(MergeAll(a).value, MergeAll(b).value, a, b);
      SameMergeMergesAlike(MergeAll(a).value + MergeAll(b).value, a + b);
    }
  }

  // Outcome n is the first that cannot be merged with those before it, and e its error: the
  // engine's own fault if it names no asset, else that of a figure that cannot be added.
  predicate FirstFaultAt(outcomes: seq<BalanceOutcome>, n: nat, e: Error) {
    && n < |outcomes| && Mergeable(outcomes[..n]) && !Mergeable(outcomes[..n + 1])
    && e == if outcomes[n].asset == "" then Internal else Invalid
  }

  lemma AcceptedFailsAsInvalid(a: Accepted, b: Accepted)
    ensures MergeAcceptedOutcomes(a, b).Err? ==> MergeAcceptedOutcomes(a, b).error == Invalid
  {
  }

  lemma MergeIntoFails(merged: seq<BalanceOutcome>, last: BalanceOutcome)
    requires MergeInto(merged, last).Err?
    ensures MergeInto(merged, last).error == if last.asset == "" then Internal else Invalid
  {
    var i := IndexOf(merged, last.asset);
    if last.asset != "" && i < |merged| {
      AcceptedFailsAsInvalid(merged[i].outcome, last.outcome);
    }
  }

  lemma FaultStaysFirst(front: seq<BalanceOutcome>, last: BalanceOutcome, n: nat, e: Error)
    requires FirstFaultAt(front, n, e)
    ensures FirstFaultAt(front + [last], n, e)
  {
    var outcomes := front + [last];
    assert outcomes[..n] == front[..n] && outcomes[..n + 1] == front[..n + 1] && outcomes[n] == front[n];
  }

  lemma FaultIsLast(front: seq<BalanceOutcome>, last: BalanceOutcome)
    requires MergeAll(front).Ok? && MergeInto(MergeAll(front).value, last).Err?
    ensures FirstFaultAt(front + [last], |front|, MergeInto(MergeAll(front).value, last).error)
  {
    var outcomes := front + [last];
    assert outcomes[..|front|] == front && outcomes[..|front| + 1] == outcomes;
    MergedExactly(front);
    MergedExactly(outcomes);
    MergeIntoFails(MergeAll(front).value, last);
  }

  /** A refusal is of the first outcome at fault, with the kind of its own fault. */
  lemma {:induction false} RefusesTheFirstFault(outcomes: seq<BalanceOutcome>)
    requires MergeAll(outcomes).Err?
    ensures exists n: nat :: FirstFaultAt(outcomes, n, MergeAll(outcomes).error)
  {
    var front, last := outcomes[..|outcomes| - 1], outcomes[|outcomes| - 1];
    assert outcomes == front + [last];
    if MergeAll(front).Err? {
      RefusesTheFirstFault(front);
      var n: nat :| FirstFaultAt(front, n, MergeAll(front).error);
      FaultStaysFirst(front, last, n, MergeAll(front).error);
    } else {
      FaultIsLast(front, last);
    }
  }
}
