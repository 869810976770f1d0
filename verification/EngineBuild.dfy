/** Building engines over shared market-data service generations (engine/openpit.go). */
module EngineBuild {
  import opened Domain
  import ResolverBook

  // A service generation: how often its native handle was closed, and the wrapper's once and
  // closed flags, which are set together.
  datatype Service = Service(closes: nat, closed: bool)

  // An engine handle: how often its native engine was stopped, the generation its policies
  // hold and the adapter's running flag. A failed build never hands its engine out.
  datatype Engine = Engine(stops: nat, service: nat, running: bool, handedOut: bool)

  // Everything built so far, and the generation the build function captured.
  datatype World = World(services: seq<Service>, engines: seq<Engine>, captured: Option<nat>)

  // The calls of a build that can fail, in the order they run.
  datatype Call =
    | NewResolver | BuildMarketData | ReadLimits | BuildNative
    | ApplyBlocks | SetLimitMode | SetPnlAxes
    | HydrateGroups | HydrateCurrencies | BuildDispatcher
    | SeedPnl | BlockGroups | SeedBalances

  const OPEN := Service(0, false)
  const SPENT := Service(1, true)

  function Close(s: Service): Service {
    if s.closed then s else Service(s.closes + 1, true)
  }

  // --- What one build must do, stated without its steps

  predicate Reusable(w: World) {
    w.captured.Some? && w.captured.value < |w.services| && !w.services[w.captured.value].closed
  }

  // A build that would reuse a generation never builds one.
  predicate Creates(w: World, faults: set<Call>) {
    !Reusable(w) && faults !! {NewResolver, BuildMarketData}
  }

  predicate BuildsEngine(w: World, faults: set<Call>) {
    (Reusable(w) || BuildMarketData !in faults) && faults !! {NewResolver, ReadLimits, BuildNative}
  }

  // Everything before the dispatcher owns the engine.
  predicate ReachesDispatcher(w: World, faults: set<Call>) {
    && BuildsEngine(w, faults)
    && faults !! {ApplyBlocks, SetLimitMode, SetPnlAxes, HydrateGroups, HydrateCurrencies, BuildDispatcher}
  }

  predicate Succeeds(w: World, faults: set<Call>) {
    ReachesDispatcher(w, faults) && faults !! {SeedPnl, BlockGroups, SeedBalances}
  }

  function Generation(w: World): nat {
    if Reusable(w) then w.captured.value else |w.services|
  }

  function Built(w: World, faults: set<Call>, gracefulFails: bool): World {
    var ok := Succeeds(w, faults);
    var stops := if ok || (ReachesDispatcher(w, faults) && gracefulFails) then 0 else 1;
    World(
      w.services + (if !Creates(w, faults) then [] else if ok then [OPEN] else [SPENT]),
      w.engines + (if BuildsEngine(w, faults) then [Engine(stops, Generation(w), ok, ok)] else []),
      if ok then Some(Generation(w)) else w.captured)
  }

  function Stopped(w: World, e: nat, gracefulFails: bool, hardFails: bool): World {
    if e >= |w.engines| || !w.engines[e].running then w else
    var engine := w.engines[e];
    var stops := if gracefulFails && hardFails then engine.stops else engine.stops + 1;
    w.(engines := w.engines[e := engine.(stops := stops, running := false)])
  }

  // CloseMarketDataService, at a rotation or at shutdown.
  function Released(w: World, e: nat): World {
    if e >= |w.engines| || w.engines[e].service >= |w.services| then w else
    var g := w.engines[e].service;
    w.(services := w.services[g := Close(w.services[g])])
  }

  // --- The build seam as the program runs it

  class BuildSeam {
    var services: seq<Service>
    var engines: seq<Engine>
    var captured: Option<nat>

    ghost function View(): World
      reads this
    {
      World(services, engines, captured)
    }

    constructor ()
      ensures View() == World([], [], None)
    {
      services, engines, captured := [], [], None;
    }

    method CloseService(g: nat)
      requires g < |services|
      modifies this`services
      ensures services == old(services)[g := Close(old(services)[g])]
    {
      if !services[g].closed {
        services := services[g := Service(services[g].closes + 1, true)];
      }
    }

    method StopNative(e: nat)
      requires e < |engines|
      modifies this`engines
      ensures engines == old(engines)[e := old(engines)[e].(stops := old(engines)[e].stops + 1)]
    {
      engines := engines[e := engines[e].(stops := engines[e].stops + 1)];
    }

    /** buildEngine: the native engine over the supplied generation, or over one built here. */
    method BuildEngine(supplied: Option<nat>, faults: set<Call>) returns (r: Result<(nat, nat, bool)>)
      requires supplied.Some? ==> supplied.value < |services|
      modifies this`services, this`engines
      ensures
        var made := supplied.None? && BuildMarketData !in faults;
        var g := if supplied.Some? then supplied.value else |old(services)|;
        var built := (supplied.Some? || made) && faults !! {ReadLimits, BuildNative};
        && (r.Ok? <==> built && faults !! {ApplyBlocks, SetLimitMode, SetPnlAxes})
        && services == old(services) + (if !made then [] else if r.Ok? then [OPEN] else [SPENT])
        && engines == old(engines) + (if built then [Engine(if r.Ok? then 0 else 1, g, false, false)] else [])
        && (r.Ok? ==> r.value == (|old(engines)|, g, made))
    {
      var created := supplied.None?;
      var g := |services|;
      if created {
        if BuildMarketData in faults {
          return Err(Internal);
        }
        services := services + [OPEN];
      } else {
        g := supplied.value;
      }
      if ReadLimits in faults || BuildNative in faults {
        if created {
          CloseService(g);
        }
        return Err(Internal);
      }
      var e := |engines|;
      engines := engines + [Engine(0, g, false, false)];
      if ApplyBlocks in faults || SetLimitMode in faults || SetPnlAxes in faults {
        StopNative(e);
        if created {
          CloseService(g);
        }
        return Err(Internal);
      }
      return Ok((e, g, created));
    }

    /** releaseOnErr: an engine the dispatcher owns is stopped through it, and only gracefully. */
    method ReleaseOnErr(e: nat, g: nat, created: bool, dispatched: bool, gracefulFails: bool)
      requires e < |engines| && g < |services|
      modifies this`services, this`engines
      ensures engines == if dispatched && gracefulFails then old(engines)
                         else old(engines)[e := old(engines)[e].(stops := old(engines)[e].stops + 1)]
      ensures services == if created then old(services)[g := Close(old(services)[g])] else old(services)
    {
      if dispatched {
        if !gracefulFails {
          StopNative(e);
        }
      } else {
        StopNative(e);
      }
      if created {
        CloseService(g);
      }
    }

    /** The build function: a failed build leaves the captured generation as it was. */
    method Build(faults: set<Call>, gracefulFails: bool) returns (r: Result<nat>)
      requires captured.Some? ==> captured.value < |services|
      modifies this
      ensures View() == Built(old(View()), faults, gracefulFails)
      ensures r == if Succeeds(old(View()), faults) then Ok(|old(engines)|) else Err(Internal)
      ensures captured.Some? ==> captured.value < |services|
    {
      if NewResolver in faults {
        return Err(Internal);
      }
      var service := captured;
      if service.Some? && services[service.value].closed {
        service := None;
      }
      var built := BuildEngine(service, faults);
      if built.Err? {
        return Err(Internal);
      }
      var (e, g, created) := built.value;
      if HydrateGroups in faults || HydrateCurrencies in faults || BuildDispatcher in faults {
        ReleaseOnErr(e, g, created, false, gracefulFails);
        return Err(Internal);
      }
      if SeedPnl in faults || BlockGroups in faults || SeedBalances in faults {
        ReleaseOnErr(e, g, created, true, gracefulFails);
        return Err(Internal);
      }
      engines := engines[e := engines[e].(running := true, handedOut := true)];
      captured := Some(g);
      return Ok(e);
    }

    /** Stop: once the running flag is down, nothing stops the native engine again. */
    method Stop(e: nat, gracefulFails: bool, hardFails: bool)
      requires e < |engines|
      modifies this`engines
      ensures View() == Stopped(old(View()), e, gracefulFails, hardFails)
    {
      if !engines[e].running {
        return;
      }
      engines := engines[e := engines[e].(running := false)];
      if gracefulFails {
        if hardFails {
          return;
        }
        StopNative(e);
      } else {
        StopNative(e);
      }
    }

    method CloseMarketDataService(e: nat)
      requires e < |engines| && engines[e].service < |services|
      modifies this`services
      ensures View() == Released(old(View()), e)
    {
      CloseService(engines[e].service);
    }
  }

  // --- Histories

  datatype Op =
    | Build(faults: set<Call>, gracefulFails: bool)
    | Stop(engine: nat, stopGracefulFails: bool, hardFails: bool)
    | CloseMarketData(engine: nat)

  function Step(w: World, op: Op): World {
    match op
    case Build(faults, gracefulFails) => Built(w, faults, gracefulFails)
    case Stop(e, gracefulFails, hardFails) => Stopped(w, e, gracefulFails, hardFails)
    case CloseMarketData(e) => if e < |w.engines| && w.engines[e].handedOut then Released(w, e) else w
  }

  function Run(ops: seq<Op>): World {
    if ops == [] then World([], [], None) else Step(Run(ops[..|ops| - 1]), ops[|ops| - 1])
  }

  predicate ServiceSound(s: Service) {
    s == OPEN || s == SPENT
  }

  predicate EngineSound(w: World, e: Engine) {
    && e.stops <= 1
    && (e.running ==> e.handedOut && e.stops == 0)
    && (e.handedOut ==> e.service < |w.services|)
  }

  predicate Sound(w: World) {
    && (forall g | 0 <= g < |w.services| :: ServiceSound(w.services[g]))
    && (forall e | 0 <= e < |w.engines| :: EngineSound(w, w.engines[e]))
    && (w.captured.Some? ==> w.captured.value < |w.services|)
  }

  lemma StepKeepsSound(w: World, op: Op)
    requires Sound(w)
    ensures Sound(Step(w, op))
  {
    var after := Step(w, op);
    forall e | 0 <= e < |after.engines|
      ensures EngineSound(after, after.engines[e])
    {
      assert e < |w.engines| ==> EngineSound(w, w.engines[e]);
    }
  }

  /**
   * Over any history of builds, stops and rotations, whatever fails in it: no generation is
   * closed twice, no engine is stopped twice, and an engine in use has not been stopped.
   */
  lemma {:induction false} NothingIsReleasedTwice(ops: seq<Op>)
    ensures Sound(Run(ops))
  {
    if ops != [] {
      NothingIsReleasedTwice(ops[..|ops| - 1]);
      StepKeepsSound(Run(ops[..|ops| - 1]), ops[|ops| - 1]);
    }
  }

  /**
   * A build that succeeds hands out a running engine over an open generation: the captured one
   * if that is still open, else a new one. It changes no other generation or engine.
   */
  lemma BuildNeverReusesAClosedService(w: World, faults: set<Call>, gracefulFails: bool)
    requires Sound(w) && Succeeds(w, faults)
    ensures
      var after := Built(w, faults, gracefulFails);
      && after.captured.Some? && after.services[after.captured.value] == OPEN
      && after.engines == w.engines + [Engine(0, after.captured.value, true, true)]
      && (Reusable(w) ==> after.services == w.services && after.captured == w.captured)
      && (!Reusable(w) ==> after.services == w.services + [OPEN] && after.captured == Some(|w.services|))
  {
    if Reusable(w) {
      assert ServiceSound(w.services[w.captured.value]);
    }
  }

  /**
   * A failed build closes exactly the generation it created, once, leaves every other one and
   * the captured one as they were, and hands nothing out. The engine it got to build is stopped
   * exactly once, unless its dispatcher had taken it over and could not stop it gracefully.
   */
  lemma FailedBuildReleasesExactlyItsOwn(w: World, faults: set<Call>, gracefulFails: bool)
    requires Sound(w) && !Succeeds(w, faults)
    ensures
      var after := Built(w, faults, gracefulFails);
      && after.captured == w.captured
      && (after.services == w.services || (after.services == w.services + [SPENT] && !Reusable(w)))
      && (after.engines == w.engines || exists engine ::
            after.engines == w.engines + [engine] && !engine.handedOut && !engine.running
            && (engine.stops == 0 || engine.stops == 1)
            && (engine.stops == 0 <==> ReachesDispatcher(w, faults) && gracefulFails))
  {
    var after := Built(w, faults, gracefulFails);
    if BuildsEngine(w, faults) {
      assert after.engines == w.engines + [after.engines[|w.engines|]];
    }
  }

  // The one operation that closes generation g: the failed build that made it, or the first
  // release through an engine that runs over it.
  predicate Closes(w: World, op: Op, g: nat) {
    match op
    case Build(faults, _) => g == |w.services| && Creates(w, faults) && !Succeeds(w, faults)
    case CloseMarketData(e) => e < |w.engines| && w.engines[e].handedOut && w.engines[e].service == g
    case Stop(_, _, _) => false
  }

  lemma ClosedByStep(w: World, op: Op, g: nat)
    requires Sound(w) && g < |Step(w, op).services|
    ensures Step(w, op).services[g].closed <==> (g < |w.services| && w.services[g].closed) || Closes(w, op, g)
    ensures g < |w.services| || op.Build?
  {
  }

  // Some operation of the history was entitled to close generation g.
  predicate EverClosed(ops: seq<Op>, g: nat) {
    ops != []
    && (EverClosed(ops[..|ops| - 1], g) || Closes(Run(ops[..|ops| - 1]), ops[|ops| - 1], g))
  }

  lemma StepClosesOnlyWhatIsThere(w: World, op: Op, g: nat)
    requires Sound(w) && |Step(w, op).services| <= g
    ensures |w.services| <= g && !Closes(w, op, g)
  {
    if op.CloseMarketData? && op.engine < |w.engines| {
      assert EngineSound(w, w.engines[op.engine]);
    }
  }

  lemma {:induction false} NotThereNotClosed(ops: seq<Op>, g: nat)
    requires |Run(ops).services| <= g
    ensures !EverClosed(ops, g)
  {
    if ops != [] {
      var front, last := ops[..|ops| - 1], ops[|ops| - 1];
      NothingIsReleasedTwice(front);
      StepClosesOnlyWhatIsThere(Run(front), last, g);
      NotThereNotClosed(front, g);
    }
  }

  /** A generation is closed exactly when some operation was entitled to close it: none leaks, none dies early. */
  lemma {:induction false} ClosedExactlyByItsOwner(ops: seq<Op>, g: nat)
    requires g < |Run(ops).services|
    ensures Run(ops).services[g].closed <==> EverClosed(ops, g)
  {
    if ops != [] {
      var front, last := ops[..|ops| - 1], ops[|ops| - 1];
      NothingIsReleasedTwice(front);
      ClosedByStep(Run(front), last, g);
      if g < |Run(front).services| {
        ClosedExactlyByItsOwner(front, g);
      } else {
        NotThereNotClosed(front, g);
      }
    }
  }

  // --- Group membership of a fresh engine

  datatype Account = Account(code: string, engineId: nat, group: string)

  datatype GroupCall = GroupCall(group: nat, members: seq<nat>)

  function Members(accounts: seq<Account>, group: string): seq<nat> {
    if accounts == [] then [] else
    var front, last := Members(accounts[..|accounts| - 1], group), accounts[|accounts| - 1];
    if last.group == group then front + [last.engineId] else front
  }

  // The non-empty group codes in order of first appearance.
  function GroupOrder(accounts: seq<Account>): seq<string> {
    if accounts == [] then [] else
    var front, last := GroupOrder(accounts[..|accounts| - 1]), accounts[|accounts| - 1];
    if last.group == "" || last.group in front then front else front + [last.group]
  }

  predicate IdValid(a: Account) {
    ResolverBook.ValidId(ResolverBook.Accounts, ResolverBook.Entry(a.code, a.engineId))
  }

  predicate IdsValid(accounts: seq<Account>) {
    forall a | a in accounts && a.group != "" :: IdValid(a)
  }

  function Calls(groups: map<string, nat>, accounts: seq<Account>, order: seq<string>): seq<GroupCall>
    requires forall g | g in order :: g in groups
  {
    seq(|order|, i requires 0 <= i < |order| => GroupCall(groups[order[i]], Members(accounts, order[i])))
  }

  // The loop that gathers the members of each group.
  method GatherGroups(accounts: seq<Account>) returns (r: Result<(seq<string>, map<string, seq<nat>>)>)
    ensures r == Err(Invalid) || r.Ok?
    ensures r.Ok? <==> IdsValid(accounts)
    ensures r.Ok? ==>
              && r.value.0 == GroupOrder(accounts)
              && forall g | g in r.value.0 :: g in r.value.1 && r.value.1[g] == Members(accounts, g)
  {
    var byGroup: map<string, seq<nat>> := map[];
    var order: seq<string> := [];
    for i := 0 to |accounts|
      invariant IdsValid(accounts[..i]) && order == GroupOrder(accounts[..i])
      invariant forall g :: g in byGroup <==> g in order
      invariant "" !in byGroup
      invariant forall g | g in byGroup :: byGroup[g] == Members(accounts[..i], g)
      invariant forall g | g !in byGroup && g != "" :: Members(accounts[..i], g) == []
    {
      var account := accounts[i];
      assert accounts[..i + 1][..i] == accounts[..i] && accounts[..i + 1][i] == account;
      if account.group == "" {
        continue;
      }
      if !IdValid(account) {
        return Err(Invalid);
      }
      if account.group !in byGroup {
        order := order + [account.group];
        byGroup := byGroup[account.group := []];
      }
      byGroup := byGroup[account.group := byGroup[account.group] + [account.engineId]];
    }
    assert accounts[..|accounts|] == accounts;
    return Ok((order, byGroup));
  }

  /**
   * hydrateGroups: one registration per group, in order of first appearance, with all its
   * members in order. accepts is the native handle's answer to a registration.
   */
  method HydrateGroupMembership(groups: map<string, nat>, accounts: seq<Account>, accepts: GroupCall -> bool)
    returns (r: Result<seq<GroupCall>>)
    ensures r.Ok? <==>
              && IdsValid(accounts) && (forall g | g in GroupOrder(accounts) :: g in groups)
              && forall call | call in Calls(groups, accounts, GroupOrder(accounts)) :: accepts(call)
    ensures r.Ok? ==> r.value == Calls(groups, accounts, GroupOrder(accounts))
  {
    var gathered := GatherGroups(accounts);
    if gathered.Err? {
      return Err(gathered.error);
    }
    var (order, byGroup) := gathered.value;
    var calls: seq<GroupCall> := [];
    for i := 0 to |order|
      invariant forall g | g in order[..i] :: g in groups
      invariant calls == Calls(groups, accounts, order[..i])
      invariant forall call | call in calls :: accepts(call)
    {
      if order[i] !in groups {
        return Err(Invalid);
      }
      var call := GroupCall(groups[order[i]], byGroup[order[i]]);
      if !accepts(call) {
        if forall g | g in order :: g in groups {
          assert Calls(groups, accounts, order)[i] == call;
        }
        return Err(Internal);
      }
      calls := calls + [call];
    }
    assert order[..|order|] == order;
    return Ok(calls);
  }

  /** Every account with a group is registered, in its own group and no other, and no group is registered twice. */
  lemma {:induction false} MembersExactly(accounts: seq<Account>, group: string, id: nat)
    requires group != ""
    ensures id in Members(accounts, group) <==> exists a :: a in accounts && a.group == group && a.engineId == id
    ensures group in GroupOrder(accounts) <==> Members(accounts, group) != []
    ensures forall i, j | 0 <= i < j < |GroupOrder(accounts)| :: GroupOrder(accounts)[i] != GroupOrder(accounts)[j]
  {
    if accounts != [] {
      var front, last := accounts[..|accounts| - 1], accounts[|accounts| - 1];
      assert accounts == front + [last];
      MembersExactly(front, group, id);
    }
  }

  // The place of a call in a build.
  function Rank(c: Call): nat {
    match c
    case NewResolver => 0
    case BuildMarketData => 1
    case ReadLimits => 2
    case BuildNative => 3
    case ApplyBlocks => 4
    case SetLimitMode => 5
    case SetPnlAxes => 6
    case HydrateGroups => 7
    case HydrateCurrencies => 8
    case BuildDispatcher => 9
    case SeedPnl => 10
    case BlockGroups => 11
    case SeedBalances => 12
  }

  // Every call up to this one that the build makes succeeds.
  predicate GetsPast(w: World, faults: set<Call>, call: Call) {
    forall c | c in faults && !(c == BuildMarketData && Reusable(w)) :: Rank(call) < Rank(c)
  }

  /**
   * A build stops at its first failing call, whichever it is: it creates a generation, builds
   * its engine, hands it to the dispatcher and succeeds exactly when every call up to there that
   * it makes succeeds, a call that builds a generation being made only if there is none to reuse.
   */
  lemma BuildStopsAtItsFirstFailure(w: World, faults: set<Call>)
    ensures Creates(w, faults) <==> !Reusable(w) && GetsPast(w, faults, BuildMarketData)
    ensures BuildsEngine(w, faults) <==> GetsPast(w, faults, BuildNative)
    ensures ReachesDispatcher(w, faults) <==> GetsPast(w, faults, BuildDispatcher)
    ensures Succeeds(w, faults) <==> GetsPast(w, faults, SeedBalances)
  {
  }

  /**
   * Stopping an engine in use stops its native engine once, unless it can be stopped neither
   * gracefully nor hard, and takes it out of use either way; one that is out of use is left alone.
   */
  lemma StopTakesEffect(w: World, e: nat, gracefulFails: bool, hardFails: bool)
    requires Sound(w) && e < |w.engines|
    ensures
      var after := Stopped(w, e, gracefulFails, hardFails);
      && |after.engines| == |w.engines| && !after.engines[e].running
      && after.engines[e].stops ==
           (if w.engines[e].running then (if gracefulFails && hardFails then 0 else 1) else w.engines[e].stops)
      && after.services == w.services && after.captured == w.captured
      && forall d | 0 <= d < |w.engines| && d != e :: after.engines[d] == w.engines[d]
  {
    assert EngineSound(w, w.engines[e]);
  }
}
