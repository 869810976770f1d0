/** Quote sinks over one shared market-data service generation (engine/marketdata.go). */
module MarketData {
  import opened Domain

  // An instrument as a dictionary names it, and as the native service knows it.
  datatype Pair = Pair(base: nat, quote: nat)

  datatype Instrument = Instrument(base: string, quote: string)

  datatype Quote = Quote(mark: Option<real>, bid: Option<real>, ask: Option<real>)

  datatype Update = Update(pair: Pair, mark: string, bid: string, ask: string)

  function InstrumentOf(pair: Pair): Instrument {
    Instrument(DecimalText(pair.base), DecimalText(pair.quote))
  }

  // assets are the ids the sink's resolver publishes at this moment.
  function InstrumentFrom(pair: Pair, assets: set<nat>): Result<Instrument> {
    if pair.base !in assets then Err(NotFound)
    else if pair.quote !in assets then Err(NotFound)
    else Ok(InstrumentOf(pair))
  }

  lemma DistinctPairsAreDistinctInstruments(p: Pair, q: Pair)
    requires InstrumentOf(p) == InstrumentOf(q)
    ensures p == q
  {
    DecimalTextInjective(p.base, q.base);
    DecimalTextInjective(p.quote, q.quote);
  }

  // Prices parses the SDK's decimal price text.
  type Prices = string -> Option<real>

  function WithPrice(prices: Prices, text: string): Result<Option<real>> {
    if text == "" then Ok(None) else if prices(text).None? then Err(Internal) else Ok(prices(text))
  }

  function QuoteFrom(prices: Prices, update: Update): Result<Quote> {
    var mark, bid, ask := WithPrice(prices, update.mark), WithPrice(prices, update.bid), WithPrice(prices, update.ask);
    if mark.Err? then Err(mark.error)
    else if bid.Err? then Err(bid.error)
    else if ask.Err? then Err(ask.error)
    else Ok(Quote(mark.value, bid.value, ask.value))
  }

  // A price is read from its own text: none from an empty one, else what the text parses to.
  predicate Reads(prices: Prices, text: string, price: Option<real>) {
    if text == "" then price == None else price.Some? && price == prices(text)
  }

  /** A quote is made of an update exactly when each of its texts is empty or parses, each price from its own text. */
  lemma QuoteIsRead(prices: Prices, update: Update)
    ensures QuoteFrom(prices, update).Ok? <==>
              && (update.mark == "" || prices(update.mark).Some?) && (update.bid == "" || prices(update.bid).Some?)
              && (update.ask == "" || prices(update.ask).Some?)
    ensures match QuoteFrom(prices, update)
            case Err(e) => e == Internal
            case Ok(quote) =>
              && Reads(prices, update.mark, quote.mark) && Reads(prices, update.bid, quote.bid)
              && Reads(prices, update.ask, quote.ask)
  {
  }

  /** An instrument is known exactly when both assets are published, and named by their ids, the base first. */
  lemma InstrumentIsNamed(pair: Pair, assets: set<nat>)
    ensures InstrumentFrom(pair, assets) ==
              if pair.base in assets && pair.quote in assets
              then Ok(Instrument(DecimalText(pair.base), DecimalText(pair.quote))) else Err(NotFound)
    ensures InstrumentOf(pair).base == DecimalText(pair.base) && InstrumentOf(pair).quote == DecimalText(pair.quote)
  {
  }

  // The native service: ids it issued, and the live quote of each id. A new instrument
  // gets an id never issued before.
  datatype Registry = Registry(ids: map<Instrument, nat>, next: nat, quotes: map<nat, Quote>)

  const EMPTY := Registry(map[], 0, map[])

  function WithInstrument(r: Registry, instrument: Instrument): Registry {
    r.(ids := r.ids[instrument := r.next], next := r.next + 1)
  }

  predicate RegistrySound(r: Registry) {
    && (forall i | i in r.ids :: r.ids[i] < r.next)
    && (forall i, j | i in r.ids && j in r.ids && r.ids[i] == r.ids[j] :: i == j)
    && (forall id | id in r.quotes :: id < r.next)
  }

  predicate Registers(r: Registry, pair: Pair, id: nat) {
    InstrumentOf(pair) in r.ids && r.ids[InstrumentOf(pair)] == id
  }

  predicate CacheAgrees(ids: map<Pair, nat>, r: Registry) {
    forall pair | pair in ids :: Registers(r, pair, ids[pair])
  }

  // --- The imperative sink

  class MarketDataService {
    var registry: Registry

    constructor ()
      ensures registry == EMPTY
    {
      registry := EMPTY;
    }

    method Register(instrument: Instrument, fails: bool) returns (r: Result<nat>)
      modifies this
      ensures r == if instrument in old(registry).ids then Err(AlreadyExists)
                   else if fails then Err(Internal) else Ok(old(registry).next)
      ensures registry == if r.Ok? then WithInstrument(old(registry), instrument) else old(registry)
    {
      if instrument in registry.ids {
        return Err(AlreadyExists);
      }
      if fails {
        return Err(Internal);
      }
      r := Ok(registry.next);
      registry := WithInstrument(registry, instrument);
    }

    method Resolve(instrument: Instrument) returns (r: Option<nat>)
      ensures r == if instrument in registry.ids then Some(registry.ids[instrument]) else None
    {
      return if instrument in registry.ids then Some(registry.ids[instrument]) else None;
    }
  }

  // Which native calls of one push fail.
  datatype Faults = Faults(register: bool, push: bool)

  class MarketDataSink {
    const service: MarketDataService
    var ids: map<Pair, nat>

    ghost predicate Valid()
      reads this, service
    {
      RegistrySound(service.registry) && CacheAgrees(ids, service.registry)
    }

    constructor (service: MarketDataService)
      requires RegistrySound(service.registry)
      ensures Valid() && this.service == service && ids == map[]
    {
      this.service, ids := service, map[];
    }

    /** resolveID: the cached id, or the registry's own, registering the instrument on first sight. */
    method ResolveID(pair: Pair, fails: bool) returns (r: Result<nat>)
      requires Valid()
      modifies this, service
      ensures Valid()
      ensures r.Ok? <==> pair in old(ids) || InstrumentOf(pair) in old(service.registry.ids) || !fails
      ensures match r
              case Ok(id) => ids == old(ids)[pair := id] && Registers(service.registry, pair, id)
              case Err(e) => ids == old(ids) && e == Internal
      ensures service.registry ==
              if r.Ok? && InstrumentOf(pair) !in old(service.registry.ids)
              then WithInstrument(old(service.registry), InstrumentOf(pair)) else old(service.registry)
    {
      if pair in ids {
        assert Registers(service.registry, pair, ids[pair]);
        return Ok(ids[pair]);
      }
      var instrument := InstrumentOf(pair);
      var registered := service.Register(instrument, fails);
      var id: nat;
      if registered == Err(AlreadyExists) {
        var resolved := service.Resolve(instrument);
        if resolved.None? {
          return Err(Internal);
        }
        id := resolved.value;
      } else if registered.Err? {
        return Err(registered.error);
      } else {
        id := registered.value;
      }
      ids := ids[pair := id];
      return Ok(id);
    }

    /** Push: the quote of this pair, and of no other, is replaced; a refused quote may still have registered it. */
    method Push(update: Update, assets: set<nat>, prices: Prices, faults: Faults) returns (r: Result<()>)
      requires Valid()
      modifies this, service
      ensures Valid()
      ensures
        var registry, instrument := old(service.registry), InstrumentOf(update.pair);
        var known := InstrumentFrom(update.pair, assets).Ok?;
        var resolves := known && (instrument in registry.ids || !faults.register);
        var resolved := if resolves && instrument !in registry.ids
                        then WithInstrument(registry, instrument) else registry;
        && (r.Ok? <==> resolves && QuoteFrom(prices, update).Ok? && !faults.push)
        && (r.Err? ==> service.registry == resolved)
        && (r.Err? ==> r.error == if known then Internal else NotFound)
        && (r.Ok? ==> instrument in resolved.ids && service.registry == resolved.(
              quotes := resolved.quotes[resolved.ids[instrument] := QuoteFrom(prices, update).value]))
    {
      var instrument := InstrumentFrom(update.pair, assets);
      if instrument.Err? {
        return Err(instrument.error);
      }
      assert update.pair in ids ==> Registers(service.registry, update.pair, ids[update.pair]);
      var id := ResolveID(update.pair, faults.register);
      if id.Err? {
        return Err(id.error);
      }
      var quote := QuoteFrom(prices, update);
      if quote.Err? {
        return Err(quote.error);
      }
      if faults.push {
        return Err(Internal);
      }
      service.registry := service.registry.(quotes := service.registry.quotes[id.value := quote.value]);
      return Ok(());
    }

    /** Clear: only this pair's live quote goes; its registration stays, and nothing is registered. */
    method Clear(pair: Pair, assets: set<nat>) returns (r: Result<()>)
      requires Valid()
      modifies this, service
      ensures Valid()
      ensures r == if InstrumentFrom(pair, assets).Ok? then Ok(()) else Err(NotFound)
      ensures
        var registry, instrument := old(service.registry), InstrumentOf(pair);
        service.registry ==
          if r.Ok? && instrument in registry.ids
          then registry.(quotes := registry.quotes - {registry.ids[instrument]}) else registry
    {
      var instrument := InstrumentFrom(pair, assets);
      if instrument.Err? {
        return Err(instrument.error);
      }
      assert pair in ids ==> Registers(service.registry, pair, ids[pair]);
      if pair !in ids {
        var resolved := service.Resolve(instrument.value);
        if resolved.None? {
          return Ok(());
        }
        ids := ids[pair := resolved.value];
      }
      service.registry := service.registry.(quotes := service.registry.quotes - {ids[pair]});
      return Ok(());
    }
  }

  // --- Any number of sinks and goroutines at once

  // Where a goroutine is between two calls into the service. The sink's mutex is left out,
  // which only adds interleavings.
  datatype Pc =
    | Idle
    | Registering(sink: nat, pair: Pair, quote: Result<Quote>)
    | Resolving(sink: nat, pair: Pair, quote: Result<Quote>)
    | Caching(sink: nat, pair: Pair, id: nat, quote: Result<Quote>)
    | Pushing(pair: Pair, id: nat, live: Quote)
    | Looking(sink: nat, pair: Pair)
    | Clearing(pair: Pair, id: nat)

  // What the service was made to do, in order.
  datatype Entry = Registered(pair: Pair, id: nat) | Pushed(pair: Pair, quote: Quote) | Cleared(pair: Pair)

  datatype System = System(
    registry: Registry, caches: seq<map<Pair, nat>>, threads: seq<Pc>, log: seq<Entry>)

  datatype Action =
    | BeginPush(thread: nat, sink: nat, pair: Pair, known: bool, quote: Result<Quote>)
    | BeginClear(thread: nat, sink: nat, pair: Pair, known: bool)
    | Continue(thread: nat, fails: bool)

  function AtPc(s: System, t: nat, pc: Pc): System {
    if t < |s.threads| then s.(threads := s.threads[t := pc]) else s
  }

  function AfterId(pair: Pair, id: nat, quote: Result<Quote>): Pc {
    match quote case Err(_) => Idle case Ok(q) => Pushing(pair, id, q)
  }

  function Cached(s: System, sink: nat, pair: Pair, id: nat): System {
    if sink >= |s.caches| then s else
    var ids: map<Pair, nat> := s.caches[sink][pair := id];
    s.(caches := s.caches[sink := ids])
  }

  function Proceed(s: System, t: nat, pc: Pc, fails: bool): System {
    match pc
    case Idle => s
    case Registering(sink, pair, quote) =>
      if InstrumentOf(pair) in s.registry.ids then AtPc(s, t, Resolving(sink, pair, quote))
      else if fails then AtPc(s, t, Idle)
      else
        var id := s.registry.next;
        AtPc(s.(registry := WithInstrument(s.registry, InstrumentOf(pair)), log := s.log + [Registered(pair, id)]),
             t, Caching(sink, pair, id, quote))
    case Resolving(sink, pair, quote) =>
      if InstrumentOf(pair) in s.registry.ids
      then AtPc(s, t, Caching(sink, pair, s.registry.ids[InstrumentOf(pair)], quote))
      else AtPc(s, t, Idle)
    case Caching(sink, pair, id, quote) => AtPc(Cached(s, sink, pair, id), t, AfterId(pair, id, quote))
    case Pushing(pair, id, q) =>
      if fails then AtPc(s, t, Idle) else
      AtPc(s.(registry := s.registry.(quotes := s.registry.quotes[id := q]), log := s.log + [Pushed(pair, q)]), t, Idle)
    case Looking(sink, pair) =>
      if InstrumentOf(pair) !in s.registry.ids then AtPc(s, t, Idle) else
      var id := s.registry.ids[InstrumentOf(pair)];
      AtPc(Cached(s, sink, pair, id), t, Clearing(pair, id))
    case Clearing(pair, id) =>
      AtPc(s.(registry := s.registry.(quotes := s.registry.quotes - {id}), log := s.log + [Cleared(pair)]), t, Idle)
  }

  function Next(s: System, a: Action): System {
    if a.thread >= |s.threads| then s else
    match a
    case Continue(t, fails) => Proceed(s, t, s.threads[t], fails)
    case BeginPush(t, sink, pair, known, quote) =>
      if s.threads[t] != Idle || sink >= |s.caches| || !known then s
      else if pair in s.caches[sink] then AtPc(s, t, AfterId(pair, s.caches[sink][pair], quote))
      else AtPc(s, t, Registering(sink, pair, quote))
    case BeginClear(t, sink, pair, known) =>
      if s.threads[t] != Idle || sink >= |s.caches| || !known then s
      else if pair in s.caches[sink] then AtPc(s, t, Clearing(pair, s.caches[sink][pair]))
      else AtPc(s, t, Looking(sink, pair))
  }

  function Run(s: System, actions: seq<Action>): System {
    if actions == [] then s else Next(Run(s, actions[..|actions| - 1]), actions[|actions| - 1])
  }

  function Start(sinks: nat, threads: nat): System {
    System(EMPTY, seq(sinks, _ => map[]), seq(threads, _ => Idle), [])
  }

  // The ids a pair was ever registered under, in order.
  function Registrations(log: seq<Entry>, pair: Pair): seq<nat> {
    if log == [] then [] else
    var front, last := Registrations(log[..|log| - 1], pair), log[|log| - 1];
    if last.Registered? && last.pair == pair then front + [last.id] else front
  }

  // The last quote pushed for a pair and not cleared since.
  function LastPushed(log: seq<Entry>, pair: Pair): Option<Quote> {
    if log == [] then None else
    match log[|log| - 1]
    case Pushed(p, q) => if p == pair then Some(q) else LastPushed(log[..|log| - 1], pair)
    case Cleared(p) => if p == pair then None else LastPushed(log[..|log| - 1], pair)
    case Registered(_, _) => LastPushed(log[..|log| - 1], pair)
  }

  function LiveQuote(r: Registry, pair: Pair): Option<Quote> {
    var instrument := InstrumentOf(pair);
    if instrument in r.ids && r.ids[instrument] in r.quotes then Some(r.quotes[r.ids[instrument]]) else None
  }

  predicate PcAgrees(pc: Pc, r: Registry) {
    match pc
    case Caching(_, pair, id, _) => Registers(r, pair, id)
    case Pushing(pair, id, _) => Registers(r, pair, id)
    case Clearing(pair, id) => Registers(r, pair, id)
    case Resolving(_, pair, _) => InstrumentOf(pair) in r.ids
    case _ => true
  }

  predicate IdsAgree(s: System) {
    && (forall k | 0 <= k < |s.caches| :: CacheAgrees(s.caches[k], s.registry))
    && forall t | 0 <= t < |s.threads| :: PcAgrees(s.threads[t], s.registry)
  }

  ghost predicate LogAgrees(r: Registry, log: seq<Entry>) {
    && (forall pair :: Registrations(log, pair) ==
                         if InstrumentOf(pair) in r.ids then [r.ids[InstrumentOf(pair)]] else [])
    && forall pair :: LiveQuote(r, pair) == LastPushed(log, pair)
  }

  // The ids of r are still there in after, and some may be new.
  predicate Extends(r: Registry, after: Registry) {
    forall i | i in r.ids :: i in after.ids && after.ids[i] == r.ids[i]
  }

  lemma CachesSurvive(ids: map<Pair, nat>, r: Registry, after: Registry)
    requires CacheAgrees(ids, r) && Extends(r, after)
    ensures CacheAgrees(ids, after)
  {
  }

  lemma ExtendingKeepsAgreement(s: System, after: Registry)
    requires IdsAgree(s) && Extends(s.registry, after)
    ensures IdsAgree(s.(registry := after))
  {
    forall k | 0 <= k < |s.caches|
      ensures CacheAgrees(s.caches[k], after)
    {
      CachesSurvive(s.caches[k], s.registry, after);
    }
    forall t | 0 <= t < |s.threads|
      ensures PcAgrees(s.threads[t], after)
    {
      assert PcAgrees(s.threads[t], s.registry);
    }
  }

  lemma RegisteringKeepsAgreement(s: System, pair: Pair)
    requires RegistrySound(s.registry) && IdsAgree(s) && InstrumentOf(pair) !in s.registry.ids
    ensures RegistrySound(WithInstrument(s.registry, InstrumentOf(pair)))
    ensures IdsAgree(s.(registry := WithInstrument(s.registry, InstrumentOf(pair))))
    ensures Registers(WithInstrument(s.registry, InstrumentOf(pair)), pair, s.registry.next)
  {
    ExtendingKeepsAgreement(s, WithInstrument(s.registry, InstrumentOf(pair)));
  }

  lemma MovingKeepsAgreement(s: System, t: nat, pc: Pc)
    requires IdsAgree(s) && PcAgrees(pc, s.registry)
    ensures IdsAgree(AtPc(s, t, pc))
  {
  }

  lemma CachingKeepsAgreement(s: System, sink: nat, pair: Pair, id: nat)
    requires IdsAgree(s) && Registers(s.registry, pair, id)
    ensures IdsAgree(Cached(s, sink, pair, id))
  {
    if sink < |s.caches| {
      assert CacheAgrees(s.caches[sink], s.registry);
    }
  }

  lemma RegisteringProceeds(s: System, t: nat, pc: Pc, fails: bool)
    requires RegistrySound(s.registry) && IdsAgree(s) && pc.Registering?
    ensures RegistrySound(Proceed(s, t, pc, fails).registry) && IdsAgree(Proceed(s, t, pc, fails))
  {
    var instrument := InstrumentOf(pc.pair);
    if instrument in s.registry.ids {
      MovingKeepsAgreement(s, t, Resolving(pc.sink, pc.pair, pc.quote));
    } else {
      RegisteringKeepsAgreement(s, pc.pair);
      MovingKeepsAgreement(s.(registry := WithInstrument(s.registry, instrument)), t,
                           Caching(pc.sink, pc.pair, s.registry.next, pc.quote));
    }
  }

  lemma CachingProceeds(s: System, t: nat, pc: Pc, fails: bool)
    requires RegistrySound(s.registry) && IdsAgree(s) && PcAgrees(pc, s.registry) && (pc.Caching? || pc.Looking?)
    ensures RegistrySound(Proceed(s, t, pc, fails).registry) && IdsAgree(Proceed(s, t, pc, fails))
  {
    if pc.Caching? {
      CachingKeepsAgreement(s, pc.sink, pc.pair, pc.id);
      MovingKeepsAgreement(Cached(s, pc.sink, pc.pair, pc.id), t, AfterId(pc.pair, pc.id, pc.quote));
    } else if InstrumentOf(pc.pair) in s.registry.ids {
      var id := s.registry.ids[InstrumentOf(pc.pair)];
      CachingKeepsAgreement(s, pc.sink, pc.pair, id);
      MovingKeepsAgreement(Cached(s, pc.sink, pc.pair, id), t, Clearing(pc.pair, id));
    }
  }

  lemma QuotingProceeds(s: System, t: nat, pc: Pc, fails: bool)
    requires RegistrySound(s.registry) && IdsAgree(s) && PcAgrees(pc, s.registry)
    requires pc.Idle? || pc.Resolving? || pc.Pushing? || pc.Clearing?
    ensures RegistrySound(Proceed(s, t, pc, fails).registry) && IdsAgree(Proceed(s, t, pc, fails))
  {
  }

  lemma IdsStayAgreed(s: System, a: Action)
    requires RegistrySound(s.registry) && IdsAgree(s)
    ensures RegistrySound(Next(s, a).registry) && IdsAgree(Next(s, a))
  {
    if a.thread < |s.threads| {
      if a.Continue? {
        var pc := s.threads[a.thread];
        if pc.Registering? {
          RegisteringProceeds(s, a.thread, pc, a.fails);
        } else if pc.Caching? || pc.Looking? {
          CachingProceeds(s, a.thread, pc, a.fails);
        } else {
          QuotingProceeds(s, a.thread, pc, a.fails);
        }
      } else if s.threads[a.thread] == Idle && a.sink < |s.caches| {
        assert CacheAgrees(s.caches[a.sink], s.registry);
      }
    }
  }

  lemma RegisteredIsLogged(r: Registry, log: seq<Entry>, pair: Pair)
    requires RegistrySound(r) && LogAgrees(r, log) && InstrumentOf(pair) !in r.ids
    ensures LogAgrees(WithInstrument(r, InstrumentOf(pair)), log + [Registered(pair, r.next)])
  {
    var after, longer := WithInstrument(r, InstrumentOf(pair)), log + [Registered(pair, r.next)];
    assert longer[..|log|] == log;
    forall p
      ensures Registrations(longer, p) ==
                if InstrumentOf(p) in after.ids then [after.ids[InstrumentOf(p)]] else []
      ensures LiveQuote(after, p) == LastPushed(longer, p)
    {
      assert LiveQuote(r, p) == LastPushed(log, p);
      if InstrumentOf(p) == InstrumentOf(pair) {
        DistinctPairsAreDistinctInstruments(p, pair);
      }
    }
  }

  lemma PushedIsLogged(r: Registry, log: seq<Entry>, pair: Pair, id: nat, q: Quote)
    requires RegistrySound(r) && LogAgrees(r, log) && Registers(r, pair, id)
    ensures LogAgrees(r.(quotes := r.quotes[id := q]), log + [Pushed(pair, q)])
  {
    var longer := log + [Pushed(pair, q)];
    assert longer[..|log|] == log;
    forall p
      ensures Registrations(longer, p) == if InstrumentOf(p) in r.ids then [r.ids[InstrumentOf(p)]] else []
      ensures LiveQuote(r.(quotes := r.quotes[id := q]), p) == LastPushed(longer, p)
    {
      assert LiveQuote(r, p) == LastPushed(log, p);
      if InstrumentOf(p) == InstrumentOf(pair) {
        DistinctPairsAreDistinctInstruments(p, pair);
      }
    }
  }

  lemma ClearedIsLogged(r: Registry, log: seq<Entry>, pair: Pair, id: nat)
    requires RegistrySound(r) && LogAgrees(r, log) && Registers(r, pair, id)
    ensures LogAgrees(r.(quotes := r.quotes - {id}), log + [Cleared(pair)])
  {
    var longer := log + [Cleared(pair)];
    assert longer[..|log|] == log;
    forall p
      ensures Registrations(longer, p) == if InstrumentOf(p) in r.ids then [r.ids[InstrumentOf(p)]] else []
      ensures LiveQuote(r.(quotes := r.quotes - {id}), p) == LastPushed(longer, p)
    {
      assert LiveQuote(r, p) == LastPushed(log, p);
      if InstrumentOf(p) == InstrumentOf(pair) {
        DistinctPairsAreDistinctInstruments(p, pair);
      }
    }
  }

  lemma LogStaysAgreed(s: System, a: Action)
    requires RegistrySound(s.registry) && IdsAgree(s) && LogAgrees(s.registry, s.log)
    ensures LogAgrees(Next(s, a).registry, Next(s, a).log)
  {
    if a.Continue? && a.thread < |s.threads| {
      var pc := s.threads[a.thread];
      assert PcAgrees(pc, s.registry);
      match pc {
        case Registering(_, pair, _) =>
          if InstrumentOf(pair) !in s.registry.ids && !a.fails {
            RegisteredIsLogged(s.registry, s.log, pair);
          }
        case Pushing(pair, id, q) => PushedIsLogged(s.registry, s.log, pair, id, q);
        case Clearing(pair, id) => ClearedIsLogged(s.registry, s.log, pair, id);
        case _ =>
      }
    }
  }

  lemma {:induction false} RunAgrees(sinks: nat, threads: nat, actions: seq<Action>)
    ensures
      var s := Run(Start(sinks, threads), actions);
      RegistrySound(s.registry) && IdsAgree(s) && LogAgrees(s.registry, s.log)
  {
    if actions != [] {
      var front, last := actions[..|actions| - 1], actions[|actions| - 1];
      RunAgrees(sinks, threads, front);
      IdsStayAgreed(Run(Start(sinks, threads), front), last);
      LogStaysAgreed(Run(Start(sinks, threads), front), last);
    }
  }

  /**
   * Across any number of sinks and goroutines, in any interleaving of their calls: two cached
   * ids are equal exactly when their pairs are, whichever sinks cached them, and each is the
   * registry's own id for its pair.
   */
  lemma CachedIdsIdentifyPairs(
    sinks: nat, threads: nat, actions: seq<Action>, j: nat, k: nat, p: Pair, q: Pair)
    requires j < |Run(Start(sinks, threads), actions).caches| && k < |Run(Start(sinks, threads), actions).caches|
    requires p in Run(Start(sinks, threads), actions).caches[j]
    requires q in Run(Start(sinks, threads), actions).caches[k]
    ensures
      var s := Run(Start(sinks, threads), actions);
      && Registers(s.registry, p, s.caches[j][p])
      && (s.caches[j][p] == s.caches[k][q] <==> p == q)
  {
    RunAgrees(sinks, threads, actions);
    var s := Run(Start(sinks, threads), actions);
    assert Registers(s.registry, p, s.caches[j][p]) && Registers(s.registry, q, s.caches[k][q]);
    if s.caches[j][p] == s.caches[k][q] {
      DistinctPairsAreDistinctInstruments(p, q);
    }
  }

  /** No pair is ever registered twice, and its live quote is the last one pushed for it and not cleared since. */
  lemma RegisteredOnceAndLiveIsLast(sinks: nat, threads: nat, actions: seq<Action>, pair: Pair)
    ensures
      var s := Run(Start(sinks, threads), actions);
      && |Registrations(s.log, pair)| <= 1
      && (InstrumentOf(pair) in s.registry.ids <==> |Registrations(s.log, pair)| == 1)
      && LiveQuote(s.registry, pair) == LastPushed(s.log, pair)
  {
    RunAgrees(sinks, threads, actions);
  }

  /** An instrument the service calls already registered always resolves: that error is never returned. */
  lemma AlreadyRegisteredAlwaysResolves(sinks: nat, threads: nat, actions: seq<Action>, t: nat)
    requires t < |Run(Start(sinks, threads), actions).threads|
    requires Run(Start(sinks, threads), actions).threads[t].Resolving?
    ensures
      var s := Run(Start(sinks, threads), actions);
      InstrumentOf(s.threads[t].pair) in s.registry.ids
  {
    RunAgrees(sinks, threads, actions);
    var s := Run(Start(sinks, threads), actions);
    assert PcAgrees(s.threads[t], s.registry);
  }

  // One goroutine's call, nothing coming between: its first step, then four more.
  function Alone(s: System, begin: Action): System {
    var t := begin.thread;
    Next(Next(Next(Next(Next(s, begin), Continue(t, false)), Continue(t, false)), Continue(t, false)), Continue(t, false))
  }

  lemma AloneMoves(s: System, t: nat, pc: Pc, fails: bool)
    requires t < |s.threads| && s.threads[t] == pc
    ensures Next(s, Continue(t, fails)) == Proceed(s, t, pc, fails)
  {
  }

  lemma PushFinishes(s: System, t: nat, pair: Pair, id: nat, q: Quote)
    requires t < |s.threads| && s.threads[t] == Pushing(pair, id, q) && Registers(s.registry, pair, id)
    ensures
      var after := Next(s, Continue(t, false));
      && t < |after.threads| && after.threads[t] == Idle && LiveQuote(after.registry, pair) == Some(q)
      && after.log == s.log + [Pushed(pair, q)] && Next(after, Continue(t, false)) == after
  {
  }

  lemma CachingFinishes(s: System, t: nat, sink: nat, pair: Pair, id: nat, q: Quote)
    requires t < |s.threads| && sink < |s.caches| && s.threads[t] == Caching(sink, pair, id, Ok(q))
    requires Registers(s.registry, pair, id)
    ensures
      var after := Next(s, Continue(t, false));
      && t < |after.threads| && after.threads[t] == Pushing(pair, id, q) && after.registry == s.registry
      && after.log == s.log
  {
  }

  /** A push whose calls succeed is live, whether its pair was cached, known to the service or new. */
  lemma PushTakesEffect(s: System, t: nat, sink: nat, pair: Pair, q: Quote)
    requires RegistrySound(s.registry) && IdsAgree(s)
    requires t < |s.threads| && s.threads[t] == Idle && sink < |s.caches|
    ensures
      var after := Alone(s, BeginPush(t, sink, pair, true, Ok(q)));
      t < |after.threads| && after.threads[t] == Idle && LiveQuote(after.registry, pair) == Some(q)
  {
    assert CacheAgrees(s.caches[sink], s.registry);
    var began := Next(s, BeginPush(t, sink, pair, true, Ok(q)));
    if pair in s.caches[sink] {
      assert Registers(s.registry, pair, s.caches[sink][pair]);
      PushFinishes(began, t, pair, s.caches[sink][pair], q);
    } else if InstrumentOf(pair) in s.registry.ids {
      var id := s.registry.ids[InstrumentOf(pair)];
      var resolving := Next(began, Continue(t, false));
      assert resolving.threads[t] == Resolving(sink, pair, Ok(q));
      var caching := Next(resolving, Continue(t, false));
      assert caching.threads[t] == Caching(sink, pair, id, Ok(q));
      CachingFinishes(caching, t, sink, pair, id, q);
      PushFinishes(Next(caching, Continue(t, false)), t, pair, id, q);
    } else {
      var caching := Next(began, Continue(t, false));
      assert caching.threads[t] == Caching(sink, pair, s.registry.next, Ok(q));
      CachingFinishes(caching, t, sink, pair, s.registry.next, q);
      PushFinishes(Next(caching, Continue(t, false)), t, pair, s.registry.next, q);
    }
  }

  /** A clear leaves the pair without a live quote, and registers nothing. */
  lemma ClearTakesEffect(s: System, t: nat, sink: nat, pair: Pair)
    requires RegistrySound(s.registry) && IdsAgree(s)
    requires t < |s.threads| && s.threads[t] == Idle && sink < |s.caches|
    ensures
      var after := Alone(s, BeginClear(t, sink, pair, true));
      && t < |after.threads| && after.threads[t] == Idle && LiveQuote(after.registry, pair) == None
      && after.registry.ids == s.registry.ids
  {
    assert CacheAgrees(s.caches[sink], s.registry);
    var began := Next(s, BeginClear(t, sink, pair, true));
    if pair in s.caches[sink] {
      assert Registers(s.registry, pair, s.caches[sink][pair]);
      assert began.threads[t] == Clearing(pair, s.caches[sink][pair]);
    } else if InstrumentOf(pair) in s.registry.ids {
      assert Next(began, Continue(t, false)).threads[t] == Clearing(pair, s.registry.ids[InstrumentOf(pair)]);
    }
  }
}
