/** Any number of callers rotating and reloading the signing keys at once (signing/signing.go). */
module SigningRace {
  import opened Domain
  import opened Envelopes
  import opened Signing

  // Where a caller stands between two atomic actions. The store serializes its own calls; the
  // active row is read before the mutex is taken to write the cache.
  datatype Pc =
    | Idle
    | Deactivating(seed: nat)
    | Storing(seed: nat)
    | Reading
    | Caching(found: Option<Row>)

  // log is every write of the key table, in order.
  datatype Race = Race(shared: State, callers: seq<Pc>, log: seq<Write>)

  // The key id is the fresh one a storing caller draws; fails is the outcome of its store call.
  datatype Action =
    | Rotate(caller: nat, seed: nat)
    | StartReload(caller: nat)
    | Continue(caller: nat, keyId: string, fails: bool)
    | Set(off: bool, setFails: bool)
    | Restores(rows: seq<Row>, noESign: Option<string>)

  function WriteRows(r: Race, write: Write): Race {
    r.(shared := r.shared.(rows := Written(r.shared.rows, write)), log := r.log + [write])
  }

  function WriteCache(s: State, found: Option<Row>): State {
    if found.None? then s.(active := None, signKey := None) else
    match SeedToPrivate(found.value.material)
    case Err(_) => s
    case Ok(key) => s.(active := found, signKey := Some(key))
  }

  function Moved(r: Race, c: nat, pc: Pc): Race
    requires c < |r.callers|
  {
    r.(callers := r.callers[c := pc])
  }

  function Proceed(r: Race, c: nat, keyId: string, fails: bool): Race
    requires c < |r.callers|
  {
    match r.callers[c]
    case Idle => r
    case Deactivating(seed) => if fails then Moved(r, c, Idle) else Moved(WriteRows(r, Deactivate), c, Storing(seed))
    case Storing(seed) =>
      if fails then Moved(r, c, Idle) else Moved(WriteRows(r, Store(NewRow(keyId, seed))), c, Reading)
    case Reading => Moved(r, c, if fails then Idle else Caching(FirstActive(r.shared.rows)))
    case Caching(found) => Moved(r.(shared := WriteCache(r.shared, found)), c, Idle)
  }

  function Next(r: Race, a: Action): Race {
    match a
    case Rotate(c, seed) => if c < |r.callers| && r.callers[c] == Idle then Moved(r, c, Deactivating(seed)) else r
    case StartReload(c) => if c < |r.callers| && r.callers[c] == Idle then Moved(r, c, Reading) else r
    case Continue(c, keyId, fails) => if c < |r.callers| then Proceed(r, c, keyId, fails) else r
    case Set(off, fails) => r.(shared := NoESignSet(r.shared, off, fails).0)
    case Restores(rows, noESign) =>
      var written := WriteRows(r, Replace(rows));
      written.(shared := written.shared.(noESign := noESign))
  }

  function RunAll(r: Race, actions: seq<Action>): Race {
    if actions == [] then r else Next(RunAll(r, actions[..|actions| - 1]), actions[|actions| - 1])
  }

  // Key ids are fresh UUIDs, and a restore keeps every key row it finds.
  ghost predicate Allowed(r: Race, a: Action) {
    match a
    case Continue(c, keyId, fails) => c < |r.callers| && r.callers[c].Storing? && !fails ==> Fresh(r.shared, keyId)
    case Restores(rows, noESign) => Permitted(r.shared, Restored(rows, noESign))
    case _ => true
  }

  ghost predicate AllowedRun(r: Race, actions: seq<Action>) {
    actions == []
    || (AllowedRun(r, actions[..|actions| - 1])
        && Allowed(RunAll(r, actions[..|actions| - 1]), actions[|actions| - 1]))
  }

  // --- What no interleaving breaks

  // A row some caller is about to cache is, or was, a stored one.
  predicate CallerFits(rows: seq<Row>, pc: Pc) {
    pc.Caching? && pc.found.Some? ==>
      WellFormed(pc.found.value) && Holds(rows, pc.found.value.keyId, pc.found.value.pub)
  }

  predicate RaceSound(r: Race) {
    Sound(r.shared) && forall c | 0 <= c < |r.callers| :: CallerFits(r.shared.rows, r.callers[c])
  }

  lemma FoundFits(rows: seq<Row>)
    requires KeysWellFormed(rows)
    ensures CallerFits(rows, Caching(FirstActive(rows)))
  {
    FirstActiveIsARow(rows);
    if FirstActive(rows).Some? {
      var i :| 0 <= i < |rows| && rows[i] == FirstActive(rows).value;
      FirstAt(rows, rows[i].keyId, i);
    }
  }

  // Writing rows that keep every key keeps the race sound.
  lemma WritingKeepsSound(r: Race, write: Write)
    requires RaceSound(r) && KeysWellFormed(Written(r.shared.rows, write))
    requires KeepsKeys(r.shared.rows, Written(r.shared.rows, write))
    ensures RaceSound(WriteRows(r, write))
  {
    forall c | 0 <= c < |r.callers|
      ensures CallerFits(WriteRows(r, write).shared.rows, r.callers[c])
    {
      assert CallerFits(r.shared.rows, r.callers[c]);
    }
  }

  lemma DeactivatingKeepsSound(r: Race)
    requires RaceSound(r)
    ensures RaceSound(WriteRows(r, Deactivate)) && KeepsKeys(r.shared.rows, WriteRows(r, Deactivate).shared.rows)
  {
    DeactivatedKeepsKeys(r.shared.rows);
    WritingKeepsSound(r, Deactivate);
  }

  lemma StoringKeepsSound(r: Race, row: Row)
    requires RaceSound(r) && WellFormed(row) && Unknown(r.shared.rows, row.keyId)
    ensures RaceSound(WriteRows(r, Store(row))) && KeepsKeys(r.shared.rows, WriteRows(r, Store(row)).shared.rows)
  {
    UpsertKeepsKeys(r.shared.rows, row);
    WritingKeepsSound(r, Store(row));
  }

  lemma CachingKeepsSound(r: Race, found: Option<Row>)
    requires RaceSound(r) && CallerFits(r.shared.rows, Caching(found))
    ensures RaceSound(r.(shared := WriteCache(r.shared, found)))
  {
  }

  lemma ProceedingKeepsSound(r: Race, c: nat, keyId: string, fails: bool)
    requires RaceSound(r) && c < |r.callers|
    requires r.callers[c].Storing? && !fails ==> Fresh(r.shared, keyId)
    ensures RaceSound(Proceed(r, c, keyId, fails))
    ensures KeepsKeys(r.shared.rows, Proceed(r, c, keyId, fails).shared.rows)
  {
    match r.callers[c]
    case Deactivating(seed) =>
      DeactivatingKeepsSound(r);
    case Storing(seed) =>
      if !fails {
        StoringKeepsSound(r, NewRow(keyId, seed));
      }
    case Reading => FoundFits(r.shared.rows);
    case Caching(found) =>
      assert CallerFits(r.shared.rows, r.callers[c]);
      CachingKeepsSound(r, found);
    case Idle =>
  }

  lemma NextKeepsRaceSound(r: Race, a: Action)
    requires RaceSound(r) && Allowed(r, a)
    ensures RaceSound(Next(r, a)) && KeepsKeys(r.shared.rows, Next(r, a).shared.rows)
  {
    match a
    case Continue(c, keyId, fails) => if c < |r.callers| { ProceedingKeepsSound(r, c, keyId, fails); }
    case Restores(rows, noESign) => WritingKeepsSound(r, Replace(rows));
    case _ =>
  }

  /** No interleaving loses a public key, or caches a key that is not stored. */
  lemma {:induction false} RaceKeepsKeys(r: Race, actions: seq<Action>)
    requires RaceSound(r) && AllowedRun(r, actions)
    ensures RaceSound(RunAll(r, actions)) && Follows(r.shared, RunAll(r, actions).shared)
  {
    if actions != [] {
      var front := actions[..|actions| - 1];
      RaceKeepsKeys(r, front);
      NextKeepsRaceSound(RunAll(r, front), actions[|actions| - 1]);
    }
  }

  /**
   * However callers interleave, and whatever fails, every envelope ever signed keeps verifying:
   * a stale row may be cached over a newer one, but never one that is not stored.
   */
  lemma SignedEnvelopeSurvivesRaces(
    r: Race, payload: Payload, actions: seq<Action>, want: VerifyParams, faults: ReadFaults)
    requires RaceSound(r) && Sign(r.shared, payload).Ok? && AllowedRun(r, actions)
    ensures
      var later, wire := RunAll(r, actions).shared, Sign(r.shared, payload).value;
      var approval := wire.envelope.approval;
      && approval == payload.(keyId := approval.keyId, alg := ED25519)
      && (Verify(later, wire, want, faults).Ok? <==>
            payload.version == 1 && Bound(payload, want) && (faults.list ==> Cached(later, approval.keyId)))
      && (Verify(later, wire, want, faults).Ok? ==>
            Verify(later, wire, want, faults).value == Verified(approval, true))
  {
    RaceKeepsKeys(r, actions);
    HeldKeyVerifies(r.shared, payload, RunAll(r, actions).shared, want, faults);
  }

  // --- How many keys are active

  // The table is what the log made of the rows it began with.
  predicate Logged(rows: seq<Row>, r: Race) {
    r.shared.rows == AllWritten(rows, r.log) && FreshStores(rows, r.log)
  }

  lemma NextIsLogged(rows: seq<Row>, r: Race, a: Action)
    requires Logged(rows, r) && Allowed(r, a)
    ensures Logged(rows, Next(r, a))
  {
    if a.Restores? {
      OneMoreWrite(rows, r.log, Replace(a.rows));
    } else if a.Continue? && a.caller < |r.callers| {
      OneMoreWrite(rows, r.log, Deactivate);
      if r.callers[a.caller].Storing? {
        OneMoreWrite(rows, r.log, Store(NewRow(a.keyId, r.callers[a.caller].seed)));
      }
    }
  }

  lemma {:induction false} RaceIsLogged(rows: seq<Row>, r: Race, actions: seq<Action>)
    requires Logged(rows, r) && AllowedRun(r, actions)
    ensures Logged(rows, RunAll(r, actions))
  {
    if actions != [] {
      RaceIsLogged(rows, r, actions[..|actions| - 1]);
      NextIsLogged(rows, RunAll(r, actions[..|actions| - 1]), actions[|actions| - 1]);
    }
  }

  /**
   * Over any interleaving of any number of rotations, including ones that fail part-way, there
   * is at most one active key exactly when at most one key was stored since the last write that
   * deactivated them all.
   */
  lemma OneActiveKeyExactly(shared: State, callers: nat, actions: seq<Action>)
    requires AllowedRun(Race(shared, seq(callers, _ => Idle), []), actions)
    ensures
      var later := RunAll(Race(shared, seq(callers, _ => Idle), []), actions);
      AtMostOneActive(later.shared.rows) <==> StoresSince(ActiveCount(shared.rows), later.log) <= 1
  {
    var start := Race(shared, seq(callers, _ => Idle), []);
    RaceIsLogged(shared.rows, start, actions);
    AtMostOneActiveExactly(shared.rows, RunAll(start, actions).log);
  }

  // --- A rotation nothing interrupts

  function Alone(r: Race, c: nat, seed: nat, keyId: string, faults: Faults): Race
    requires c < |r.callers| && r.callers[c] == Idle
  {
    var stored := Proceed(Proceed(Next(r, Rotate(c, seed)), c, keyId, faults.deactivate), c, keyId, faults.upsert);
    Proceed(Proceed(stored, c, keyId, faults.reload), c, keyId, false)
  }

  /** Uninterrupted, the steps of a rotation are storeNewActive. */
  lemma UninterruptedRotationIsOneCall(r: Race, c: nat, seed: nat, keyId: string, faults: Faults)
    requires c < |r.callers| && r.callers[c] == Idle
    ensures Alone(r, c, seed, keyId, faults).shared == NewActiveStored(r.shared, keyId, seed, faults).0
    ensures Alone(r, c, seed, keyId, faults).callers == r.callers
  {
    var rotating := Next(r, Rotate(c, seed));
    var deactivated := Proceed(rotating, c, keyId, faults.deactivate);
    var stored := Proceed(deactivated, c, keyId, faults.upsert);
    var read := Proceed(stored, c, keyId, faults.reload);
    if faults.deactivate {
      assert deactivated.callers == r.callers;
    } else if faults.upsert {
      assert stored.callers == r.callers;
    } else if faults.reload {
      assert read.callers == r.callers;
    } else {
      assert read.callers[c] == Caching(FirstActive(stored.shared.rows));
    }
  }

  // The last flag written, by a setting that succeeds or by a restore.
  function LastFlag(noESign: Option<string>, actions: seq<Action>): Option<string> {
    if actions == [] then noESign else
    match actions[|actions| - 1]
    case Set(off, false) => Some(if off then "1" else "0")
    case Restores(_, restored) => restored
    case _ => LastFlag(noESign, actions[..|actions| - 1])
  }

  lemma NextWritesFlag(r: Race, a: Action)
    ensures Next(r, a).shared.noESign ==
              match a
              case Set(off, false) => Some(if off then "1" else "0")
              case Restores(_, restored) => restored
              case _ => r.shared.noESign
  {
  }

  lemma {:induction false} FlagIsTheLastWritten(r: Race, actions: seq<Action>)
    ensures RunAll(r, actions).shared.noESign == LastFlag(r.shared.noESign, actions)
  {
    if actions != [] {
      FlagIsTheLastWritten(r, actions[..|actions| - 1]);
      NextWritesFlag(RunAll(r, actions[..|actions| - 1]), actions[|actions| - 1]);
    }
  }

  /** In any interleaving an unsigned envelope is accepted exactly while the last flag written says eSign is off. */
  lemma UnsignedVerifiesExactlyInRaces(
    r: Race, payload: Payload, actions: seq<Action>, want: VerifyParams, faults: ReadFaults)
    ensures Verify(RunAll(r, actions).shared, SignNone(payload), want, faults).Ok? <==>
              && LastFlag(r.shared.noESign, actions) == Some("1") && !faults.setting
              && payload.version == 1 && Bound(payload, want)
  {
    FlagIsTheLastWritten(r, actions);
  }
}
