/** Approval signing and verification over a key set that rotates (signing/signing.go). */
module Signing {
  import opened Domain
  import opened Envelopes

  // Stored private material: none, a 32-byte seed, a full 64-byte key, or another length.
  datatype Material = Missing | SeedBytes(seed: nat) | FullKey(key: PrivateKey) | Malformed

  datatype Row = Row(keyId: string, pub: Public, material: Material, active: bool)

  // The key table, the no_esign setting and the service's cached key.
  datatype State = State(
    rows: seq<Row>, noESign: Option<string>, active: Option<Row>, signKey: Option<PrivateKey>)

  // Which store calls of one rotation fail. A failed call leaves the store as it was.
  datatype Faults = Faults(deactivate: bool, upsert: bool, reload: bool)

  datatype ReadFaults = ReadFaults(list: bool, setting: bool)

  function SeedToPrivate(material: Material): Result<PrivateKey> {
    match material
    case Missing => Err(Internal)
    case SeedBytes(seed) => Ok(PrivateKey(seed, PublicOf(seed)))
    case FullKey(key) => Ok(key)
    case Malformed => Err(Invalid)
  }

  function FirstActive(rows: seq<Row>): Option<Row> {
    if rows == [] then None else if rows[0].active then Some(rows[0]) else FirstActive(rows[1..])
  }

  function Deactivated(rows: seq<Row>): seq<Row> {
    seq(|rows|, i requires 0 <= i < |rows| => rows[i].(active := false))
  }

  function IndexOf(rows: seq<Row>, keyId: string): (i: nat)
    ensures i <= |rows|
    ensures i < |rows| ==> rows[i].keyId == keyId
    ensures forall j | 0 <= j < i :: rows[j].keyId != keyId
  {
    if rows == [] || rows[0].keyId == keyId then 0 else 1 + IndexOf(rows[1..], keyId)
  }

  // Insert or, for a known key id, replace; a new row is listed first.
  function Upserted(rows: seq<Row>, row: Row): seq<Row> {
    var i := IndexOf(rows, row.keyId);
    if i < |rows| then rows[i := row] else [row] + rows
  }

  // The service as a function of its state.

  function Reloaded(s: State, fails: bool): (State, Result<()>) {
    if fails then (s, Err(Internal)) else
    match FirstActive(s.rows)
    case None => (s.(active := None, signKey := None), Ok(()))
    case Some(row) =>
      match SeedToPrivate(row.material)
      case Err(e) => (s, Err(e))
      case Ok(key) => (s.(active := Some(row), signKey := Some(key)), Ok(()))
  }

  function NewRow(keyId: string, seed: nat): Row {
    Row(keyId, PublicOf(seed), SeedBytes(seed), true)
  }

  function NewActiveStored(s: State, keyId: string, seed: nat, faults: Faults): (State, Result<Row>) {
    if faults.deactivate then (s, Err(Internal)) else
    var quiet := s.(rows := Deactivated(s.rows));
    if faults.upsert then (quiet, Err(Internal)) else
    var row := NewRow(keyId, seed);
    var (loaded, r) := Reloaded(quiet.(rows := Upserted(quiet.rows, row)), faults.reload);
    (loaded, match r case Err(e) => Err(e) case Ok(_) => Ok(row.(material := Missing)))
  }

  function Sign(s: State, payload: Payload): Result<Wire> {
    if s.active.None? then Err(NotFound) else
    if s.signKey.None? then Err(Internal) else
    var keyId := s.active.value.keyId;
    var approval := payload.(keyId := keyId, alg := ED25519);
    Ok(Encoded(Envelope(approval, Decoded(Signature(s.signKey.value, approval)), keyId, ED25519)))
  }

  function SignNone(payload: Payload): Wire {
    Encoded(Envelope(payload.(keyId := "", alg := UNSIGNED), Decoded(Forged), "", UNSIGNED))
  }

  function PublicKeyFor(s: State, keyId: string, listFails: bool): Result<Public> {
    if keyId == "" then Err(Invalid) else
    if s.active.Some? && s.active.value.keyId == keyId then Ok(s.active.value.pub) else
    if listFails then Err(Internal) else
    var i := IndexOf(s.rows, keyId);
    if i < |s.rows| then Ok(s.rows[i].pub) else Err(NotFound)
  }

  function NoESign(s: State, fails: bool): Result<bool> {
    if fails then Err(Internal) else Ok(s.noESign == Some("1"))
  }

  function NoESignSet(s: State, off: bool, fails: bool): (State, Result<()>) {
    if fails then (s, Err(Internal)) else (s.(noESign := Some(if off then "1" else "0")), Ok(()))
  }

  function Rebind(p: Payload, want: VerifyParams): Result<()> {
    if p.terms != want.terms then Err(Invalid) else
    if want.orderId != "" && p.orderId == "" then Err(Invalid) else
    if want.orderId != "" && p.orderId != want.orderId then Err(Invalid) else
    if want.venue != "" && p.venue != want.venue then Err(Invalid) else
    if want.accountGroupId != "" && p.accountGroupId != want.accountGroupId then Err(Invalid) else
    Ok(())
  }

  function Authentic(s: State, env: Envelope, faults: ReadFaults): Result<bool> {
    if env.approval.alg == ED25519 then
      if env.alg != ED25519 then Err(Invalid) else
      match PublicKeyFor(s, env.approval.keyId, faults.list)
      case Err(e) => Err(e)
      case Ok(pub) =>
        if env.signature == Undecodable then Err(Invalid) else
        if !SignatureHolds(pub, env.approval, env.signature.sig) then Err(Invalid) else Ok(true)
    else if env.approval.alg == UNSIGNED then
      if env.alg != UNSIGNED then Err(Invalid) else
      match NoESign(s, faults.setting)
      case Err(e) => Err(e)
      case Ok(off) => if off then Ok(false) else Err(Invalid)
    else Err(Invalid)
  }

  function Verify(s: State, wire: Wire, want: VerifyParams, faults: ReadFaults): Result<Verified> {
    if wire.Garbage? then Err(Invalid) else
    var env := wire.envelope;
    match Authentic(s, env, faults)
    case Err(e) => Err(e)
    case Ok(signed) =>
      if env.approval.version != 1 then Err(Invalid) else
      match Rebind(env.approval, want)
      case Err(e) => Err(e)
      case Ok(_) => Ok(Verified(env.approval, signed))
  }

  // The imperative service.

  class KeyStore {
    var rows: seq<Row>
    var noESign: Option<string>

    constructor ()
      ensures rows == [] && noESign == None
    {
      rows, noESign := [], None;
    }

    method DeactivateAllSigningKeys(fails: bool) returns (r: Result<()>)
      modifies this`rows
      ensures rows == (if fails then old(rows) else Deactivated(old(rows)))
      ensures r == if fails then Err(Internal) else Ok(())
    {
      if fails {
        return Err(Internal);
      }
      rows := Deactivated(rows);
      return Ok(());
    }

    method UpsertSigningKey(row: Row, fails: bool) returns (r: Result<()>)
      modifies this`rows
      ensures rows == (if fails then old(rows) else Upserted(old(rows), row))
      ensures r == if fails then Err(Internal) else Ok(())
    {
      if fails {
        return Err(Internal);
      }
      rows := Upserted(rows, row);
      return Ok(());
    }
  }

  class Service {
    const store: KeyStore
    var active: Option<Row>
    var signKey: Option<PrivateKey>

    constructor (store: KeyStore)
      ensures this.store == store && active == None && signKey == None
    {
      this.store, active, signKey := store, None, None;
    }

    ghost function View(): State
      reads this, store
    {
      State(store.rows, store.noESign, active, signKey)
    }

    // The cached fields are assigned together, and only once the material is usable.
    method ReloadActive(fails: bool) returns (r: Result<()>)
      modifies this
      ensures (View(), r) == Reloaded(old(View()), fails)
    {
      if fails {
        return Err(Internal);
      }
      var key := FirstActive(store.rows);
      if key.None? {
        active := None;
        signKey := None;
        return Ok(());
      }
      var seed := SeedToPrivate(key.value.material);
      if seed.Err? {
        return Err(seed.error);
      }
      active := key;
      signKey := Some(seed.value);
      return Ok(());
    }

    method StoreNewActive(keyId: string, seed: nat, faults: Faults) returns (r: Result<Row>)
      modifies this, store
      ensures (View(), r) == NewActiveStored(old(View()), keyId, seed, faults)
    {
      var deactivated := store.DeactivateAllSigningKeys(faults.deactivate);
      if deactivated.Err? {
        return Err(deactivated.error);
      }
      var key := NewRow(keyId, seed);
      var stored := store.UpsertSigningKey(key, faults.upsert);
      if stored.Err? {
        return Err(stored.error);
      }
      var reloaded := ReloadActive(faults.reload);
      if reloaded.Err? {
        return Err(reloaded.error);
      }
      return Ok(key.(material := Missing));
    }

    method SetNoESign(off: bool, fails: bool) returns (r: Result<()>)
      modifies store`noESign
      ensures (View(), r) == NoESignSet(old(View()), off, fails)
    {
      if fails {
        return Err(Internal);
      }
      store.noESign := Some(if off then "1" else "0");
      return Ok(());
    }

    method LookUpPublicKey(keyId: string, listFails: bool) returns (r: Result<Public>)
      ensures r == PublicKeyFor(View(), keyId, listFails)
    {
      if keyId == "" {
        return Err(Invalid);
      }
      if active.Some? && active.value.keyId == keyId {
        return Ok(active.value.pub);
      }
      if listFails {
        return Err(Internal);
      }
      var keys := store.rows;
      for i := 0 to |keys|
        invariant i <= IndexOf(keys, keyId)
      {
        if keys[i].keyId == keyId {
          return Ok(keys[i].pub);
        }
      }
      return Err(NotFound);
    }

    method VerifyEnvelope(wire: Wire, want: VerifyParams, faults: ReadFaults) returns (r: Result<Verified>)
      ensures r == Verify(View(), wire, want, faults)
    {
      if wire.Garbage? {
        return Err(Invalid);
      }
      var env := wire.envelope;
      var signed := false;
      if env.approval.alg == ED25519 {
        if env.alg != ED25519 {
          return Err(Invalid);
        }
        var pub := LookUpPublicKey(env.approval.keyId, faults.list);
        if pub.Err? {
          return Err(pub.error);
        }
        if env.signature == Undecodable {
          return Err(Invalid);
        }
        if !SignatureHolds(pub.value, env.approval, env.signature.sig) {
          return Err(Invalid);
        }
        signed := true;
      } else if env.approval.alg == UNSIGNED {
        if env.alg != UNSIGNED {
          return Err(Invalid);
        }
        if faults.setting {
          return Err(Internal);
        }
        if store.noESign != Some("1") {
          return Err(Invalid);
        }
      } else {
        return Err(Invalid);
      }
      if env.approval.version != 1 {
        return Err(Invalid);
      }
      var bound := Rebind(env.approval, want);
      if bound.Err? {
        return Err(bound.error);
      }
      return Ok(Verified(env.approval, signed));
    }
  }

  // Histories.

  // Import carries what the key parser made of the material; Restored is a backup restore
  // writing the tables past the service.
  datatype Op =
    | Generate(keyId: string, seed: nat, faults: Faults)
    | Import(keyId: string, parsed: Result<nat>, faults: Faults)
    | Reload(fails: bool)
    | SetNoESign(off: bool, fails: bool)
    | Restored(rows: seq<Row>, noESign: Option<string>)

  function Step(s: State, op: Op): State {
    match op
    case Generate(keyId, seed, faults) => NewActiveStored(s, keyId, seed, faults).0
    case Import(keyId, parsed, faults) => if parsed.Ok? then NewActiveStored(s, keyId, parsed.value, faults).0 else s
    case Reload(fails) => Reloaded(s, fails).0
    case SetNoESign(off, fails) => NoESignSet(s, off, fails).0
    case Restored(rows, noESign) => s.(rows := rows, noESign := noESign)
  }

  function Run(s: State, ops: seq<Op>): State {
    if ops == [] then s else Step(Run(s, ops[..|ops| - 1]), ops[|ops| - 1])
  }

  predicate Holds(rows: seq<Row>, keyId: string, pub: Public) {
    var i := IndexOf(rows, keyId);
    i < |rows| && rows[i].pub == pub
  }

  predicate IsPair(key: PrivateKey) {
    key.pub == PublicOf(key.seed)
  }

  predicate WellFormed(row: Row) {
    && row.keyId != ""
    && match row.material
       case SeedBytes(seed) => row.pub == PublicOf(seed)
       case FullKey(key) => row.pub == key.pub && IsPair(key)
       case _ => true
  }

  predicate KeysWellFormed(rows: seq<Row>) {
    && (forall i | 0 <= i < |rows| :: WellFormed(rows[i]))
    && forall i, j | 0 <= i < j < |rows| :: rows[i].keyId != rows[j].keyId
  }

  // A generated or imported key takes a fresh UUID; a restore keeps every key row it finds.
  ghost predicate Permitted(s: State, op: Op) {
    match op
    case Generate(keyId, _, _) => Fresh(s, keyId)
    case Import(keyId, _, _) => Fresh(s, keyId)
    case Restored(rows, _) =>
      KeysWellFormed(rows) && KeepsKeys(s.rows, rows)
    case _ => true
  }

  predicate Fresh(s: State, keyId: string) {
    keyId != "" && Unknown(s.rows, keyId)
  }

  // No row of rows carries keyId.
  predicate Unknown(rows: seq<Row>, keyId: string) {
    forall i | 0 <= i < |rows| :: rows[i].keyId != keyId
  }

  ghost predicate PermittedRun(s: State, ops: seq<Op>) {
    ops == []
    || (PermittedRun(s, ops[..|ops| - 1]) && Permitted(Run(s, ops[..|ops| - 1]), ops[|ops| - 1]))
  }

  predicate CacheSound(s: State) {
    match s.active
    case None => s.signKey == None
    case Some(row) => WellFormed(row) && Holds(s.rows, row.keyId, row.pub)
                      && s.signKey == Some(PrivateKey(row.pub.seed, row.pub))
  }

  predicate Sound(s: State) {
    KeysWellFormed(s.rows) && CacheSound(s)
  }

  ghost predicate KeepsKeys(rows: seq<Row>, later: seq<Row>) {
    forall keyId, pub | Holds(rows, keyId, pub) :: Holds(later, keyId, pub)
  }

  // What every history guarantees of a later state, whether its calls interleave or not.
  ghost predicate Follows(s: State, later: State) {
    Sound(s) && Sound(later) && KeepsKeys(s.rows, later.rows)
  }

  lemma {:induction false} FirstActiveIsARow(rows: seq<Row>)
    ensures match FirstActive(rows)
            case None => forall i | 0 <= i < |rows| :: !rows[i].active
            case Some(row) => row.active && exists i :: 0 <= i < |rows| && rows[i] == row
  {
    if rows != [] {
      FirstActiveIsARow(rows[1..]);
      if !rows[0].active {
        if FirstActive(rows[1..]).Some? {
          var i :| 0 <= i < |rows[1..]| && rows[1..][i] == FirstActive(rows[1..]).value;
          assert rows[i + 1] == FirstActive(rows).value;
        } else {
          assert forall i | 0 < i < |rows| :: rows[i] == rows[1..][i - 1];
        }
      }
    }
  }

  lemma ReloadKeepsSound(s: State, fails: bool)
    requires KeysWellFormed(s.rows) && CacheSound(s)
    ensures Reloaded(s, fails).0.rows == s.rows && CacheSound(Reloaded(s, fails).0)
  {
    FirstActiveIsARow(s.rows);
  }

  lemma FirstAt(rows: seq<Row>, keyId: string, i: nat)
    requires i <= |rows| && forall j | 0 <= j < i :: rows[j].keyId != keyId
    requires i < |rows| ==> rows[i].keyId == keyId
    ensures IndexOf(rows, keyId) == i
  {
  }

  lemma DeactivatedKeepsKeys(rows: seq<Row>)
    requires KeysWellFormed(rows)
    ensures KeysWellFormed(Deactivated(rows))
    ensures forall keyId :: IndexOf(Deactivated(rows), keyId) == IndexOf(rows, keyId)
  {
    forall keyId
      ensures IndexOf(Deactivated(rows), keyId) == IndexOf(rows, keyId)
    {
      FirstAt(Deactivated(rows), keyId, IndexOf(rows, keyId));
    }
  }

  lemma UpsertOfUnknown(rows: seq<Row>, row: Row)
    requires Unknown(rows, row.keyId)
    ensures Upserted(rows, row) == [row] + rows
  {
    FirstAt(rows, row.keyId, |rows|);
  }

  lemma UpsertKeepsKeys(rows: seq<Row>, row: Row)
    requires KeysWellFormed(rows) && WellFormed(row) && Unknown(rows, row.keyId)
    ensures KeysWellFormed(Upserted(rows, row))
    ensures KeepsKeys(rows, Upserted(rows, row))
  {
    UpsertOfUnknown(rows, row);
    forall keyId, pub | Holds(rows, keyId, pub)
      ensures Holds([row] + rows, keyId, pub)
    {
      assert ([row] + rows)[1..] == rows;
    }
  }

  lemma RotationKeepsSound(s: State, keyId: string, seed: nat, faults: Faults)
    requires Sound(s) && Fresh(s, keyId)
    ensures Sound(NewActiveStored(s, keyId, seed, faults).0)
    ensures KeepsKeys(s.rows, NewActiveStored(s, keyId, seed, faults).0.rows)
  {
    if !faults.deactivate {
      DeactivatedKeepsKeys(s.rows);
      var quiet := s.(rows := Deactivated(s.rows));
      if !faults.upsert {
        UpsertKeepsKeys(quiet.rows, NewRow(keyId, seed));
        ReloadKeepsSound(quiet.(rows := Upserted(quiet.rows, NewRow(keyId, seed))), faults.reload);
      }
    }
  }

  lemma StepKeepsSound(s: State, op: Op)
    requires Sound(s) && Permitted(s, op)
    ensures Sound(Step(s, op))
    ensures KeepsKeys(s.rows, Step(s, op).rows)
  {
    match op
    case Generate(keyId, seed, faults) => RotationKeepsSound(s, keyId, seed, faults);
    case Import(keyId, parsed, faults) => if parsed.Ok? { RotationKeepsSound(s, keyId, parsed.value, faults); }
    case Reload(fails) => ReloadKeepsSound(s, fails);
    case _ =>
  }

  /** No history, whatever fails in it, loses a public key or caches a key that is not stored. */
  lemma {:induction false} RunKeepsKeys(s: State, ops: seq<Op>)
    requires Sound(s) && PermittedRun(s, ops)
    ensures Follows(s, Run(s, ops))
  {
    if ops != [] {
      RunKeepsKeys(s, ops[..|ops| - 1]);
      StepKeepsSound(Run(s, ops[..|ops| - 1]), ops[|ops| - 1]);
    }
  }

  predicate Bound(p: Payload, want: VerifyParams) {
    && p.terms == want.terms
    && (want.orderId != "" ==> p.orderId == want.orderId)
    && (want.venue != "" ==> p.venue == want.venue)
    && (want.accountGroupId != "" ==> p.accountGroupId == want.accountGroupId)
  }

  predicate Cached(s: State, keyId: string) {
    s.active.Some? && s.active.value.keyId == keyId
  }

  /** A signed envelope verifies in every state that follows the one it was signed in. */
  lemma HeldKeyVerifies(s: State, payload: Payload, later: State, want: VerifyParams, faults: ReadFaults)
    requires Follows(s, later) && Sign(s, payload).Ok?
    ensures
      var wire := Sign(s, payload).value;
      var approval := wire.envelope.approval;
      && approval == payload.(keyId := approval.keyId, alg := ED25519)
      && (Verify(later, wire, want, faults).Ok? <==>
            payload.version == 1 && Bound(payload, want) && (faults.list ==> Cached(later, approval.keyId)))
      && (Verify(later, wire, want, faults).Ok? ==>
            Verify(later, wire, want, faults).value == Verified(approval, true))
  {
  }

  /** Signing needs a cached key and its private half, and fails for want of the one or the other. */
  lemma SignsExactly(s: State, payload: Payload)
    ensures Sign(s, payload).Ok? <==> s.active.Some? && s.signKey.Some?
    ensures Sign(s, payload).Err? ==> Sign(s, payload).error == if s.active.None? then NotFound else Internal
  {
  }

  /** The flag reads back as it was written, and a failed write leaves it. */
  lemma FlagReadsBack(s: State, off: bool, fails: bool)
    ensures
      var (after, r) := NoESignSet(s, off, fails);
      && r == (if fails then Err(Internal) else Ok(()))
      && NoESign(after, false) == (if fails then NoESign(s, false) else Ok(off))
      && after == s.(noESign := after.noESign)
  {
  }

  // The private key a row's material gives.
  predicate GivesKey(material: Material, key: PrivateKey) {
    material == FullKey(key) || (material == SeedBytes(key.seed) && IsPair(key))
  }

  /**
   * A reload succeeds exactly when the keys can be listed and the first active one, if there is
   * any, has usable private material: then that row and its key are cached, or nothing is. On an
   * error, of the listing, of material that is missing or of material of a wrong length, nothing changes.
   */
  lemma ReloadsExactly(s: State, fails: bool)
    ensures
      var (after, r), first := Reloaded(s, fails), FirstActive(s.rows);
      && (r.Ok? <==> !fails && (first.Some? ==> exists key :: GivesKey(first.value.material, key)))
      && (r.Err? ==> after == s && r.error == if !fails && first.value.material == Malformed then Invalid else Internal)
      && (r.Ok? && first.None? ==> after == s.(active := None, signKey := None))
      && (r.Ok? && first.Some? ==>
            && after.rows == s.rows && after.noESign == s.noESign && after.active == first
            && after.signKey.Some? && GivesKey(first.value.material, after.signKey.value))
  {
    if FirstActive(s.rows).Some? {
      match FirstActive(s.rows).value.material
      case SeedBytes(seed) => assert GivesKey(SeedBytes(seed), PrivateKey(seed, PublicOf(seed)));
      case FullKey(key) => assert GivesKey(FullKey(key), key);
      case _ =>
    }
  }

  // The public key a key id stands for: the cached key's own, else the listed row's.
  predicate IsKeyOf(s: State, keyId: string, pub: Public, faults: ReadFaults) {
    && keyId != ""
    && if s.active.Some? && s.active.value.keyId == keyId then pub == s.active.value.pub
       else !faults.list && exists i :: 0 <= i < |s.rows| && s.rows[i].keyId == keyId && s.rows[i].pub == pub
  }

  // What a signed and an unsigned envelope each need, before what it binds is compared.
  predicate SignedAndHolds(s: State, env: Envelope, faults: ReadFaults) {
    && env.approval.alg == env.alg == ED25519
    && env.signature.Decoded? && env.signature.sig.Signature?
    && env.signature.sig.message == env.approval && IsPair(env.signature.sig.key)
    && IsKeyOf(s, env.approval.keyId, env.signature.sig.key.pub, faults)
  }

  predicate UnsignedAndAllowed(s: State, env: Envelope, faults: ReadFaults) {
    env.approval.alg == env.alg == UNSIGNED && s.noESign == Some("1") && !faults.setting
  }

  // A read that the verification needs and that fails.
  predicate ReadFails(s: State, env: Envelope, faults: ReadFaults) {
    || (env.approval.alg == env.alg == UNSIGNED && faults.setting)
    || (env.approval.alg == env.alg == ED25519 && faults.list && env.approval.keyId != ""
        && !(s.active.Some? && s.active.value.keyId == env.approval.keyId))
  }

  lemma KeyFoundExactly(s: State, keyId: string, faults: ReadFaults)
    requires KeysWellFormed(s.rows)
    ensures forall pub :: PublicKeyFor(s, keyId, faults.list) == Ok(pub) <==> IsKeyOf(s, keyId, pub, faults)
  {
    var i := IndexOf(s.rows, keyId);
    assert forall j | 0 <= j < |s.rows| && s.rows[j].keyId == keyId :: j == i;
  }

  /**
   * For any text at all: it verifies exactly when it decodes to a version 1 envelope that binds
   * what is expected and is signed over its own payload by the key it names, or unsigned while
   * the flag says that is allowed. A failing read is an internal error and a key that is not
   * there is not found; whatever else is wrong is the envelope's fault.
   */
  lemma VerifiesExactly(s: State, wire: Wire, want: VerifyParams, faults: ReadFaults)
    requires KeysWellFormed(s.rows)
    ensures
      var r := Verify(s, wire, want, faults);
      if wire.Garbage? then r == Err(Invalid) else
      var env := wire.envelope;
      && (r.Ok? <==>
            && (SignedAndHolds(s, env, faults) || UnsignedAndAllowed(s, env, faults))
            && env.approval.version == 1 && env.approval.terms == want.terms
            && (want.orderId != "" ==> env.approval.orderId == want.orderId)
            && (want.venue != "" ==> env.approval.venue == want.venue)
            && (want.accountGroupId != "" ==> env.approval.accountGroupId == want.accountGroupId))
      && (r.Ok? ==> r.value == Verified(env.approval, env.alg == ED25519))
      && (r.Err? ==> (r.error == Internal <==> ReadFails(s, env, faults)))
      && (r.Err? ==> (r.error == NotFound <==>
            && env.approval.alg == env.alg == ED25519 && env.approval.keyId != "" && !ReadFails(s, env, faults)
            && !(s.active.Some? && s.active.value.keyId == env.approval.keyId)
            && forall i | 0 <= i < |s.rows| :: s.rows[i].keyId != env.approval.keyId))
      && (r.Err? ==> r.error in {Internal, NotFound, Invalid})
  {
    if wire.Encoded? {
      KeyFoundExactly(s, wire.envelope.approval.keyId, faults);
      if wire.envelope.signature.Decoded? {
        SignatureHoldsExactly(wire.envelope);
      }
    }
  }

  lemma SignatureHoldsExactly(env: Envelope)
    requires env.signature.Decoded?
    ensures forall pub :: SignatureHolds(pub, env.approval, env.signature.sig) <==>
              && env.signature.sig.Signature? && env.signature.sig.message == env.approval
              && IsPair(env.signature.sig.key) && pub == env.signature.sig.key.pub
  {
  }

  /**
   * Every envelope ever signed keeps verifying through any later history of rotations,
   * imports, reloads and restores, including ones that fail part-way. A verification can only
   * be refused for its own expectations, or for a key listing that fails when the key is no
   * longer the cached one.
   */
  lemma SignedEnvelopeAlwaysVerifies(
    s: State, payload: Payload, ops: seq<Op>, want: VerifyParams, faults: ReadFaults)
    requires Sound(s) && Sign(s, payload).Ok? && PermittedRun(s, ops)
    ensures
      var later, wire := Run(s, ops), Sign(s, payload).value;
      var approval := wire.envelope.approval;
      && approval == payload.(keyId := approval.keyId, alg := ED25519)
      && (Verify(later, wire, want, faults).Ok? <==>
            payload.version == 1 && Bound(payload, want) && (faults.list ==> Cached(later, approval.keyId)))
      && (Verify(later, wire, want, faults).Ok? ==>
            Verify(later, wire, want, faults).value == Verified(approval, true))
  {
    RunKeepsKeys(s, ops);
    HeldKeyVerifies(s, payload, Run(s, ops), want, faults);
  }

  /** What is accepted as signed was signed, over exactly that payload, by the stored key it names. */
  lemma AcceptedSignatureIsGenuine(s: State, env: Envelope, want: VerifyParams, faults: ReadFaults)
    requires Sound(s) && Verify(s, Encoded(env), want, faults).Ok?
    requires Verify(s, Encoded(env), want, faults).value.signed
    ensures env.signature.Decoded? && env.signature.sig.Signature?
    ensures env.signature.sig.message == env.approval && Bound(env.approval, want) && env.approval.version == 1
    ensures IsPair(env.signature.sig.key)
    ensures Holds(s.rows, env.approval.keyId, env.signature.sig.key.pub)
  {
  }

  /** A signed payload cannot be altered in any field, nor relabelled as unsigned while eSign is on. */
  lemma AlteredEnvelopeIsRefused(
    s: State, payload: Payload, later: State, altered: Envelope, want: VerifyParams, faults: ReadFaults)
    requires Sound(s) && Sign(s, payload).Ok?
    requires altered.approval != Sign(s, payload).value.envelope.approval
    requires altered.signature == Sign(s, payload).value.envelope.signature
    requires altered.approval.alg == UNSIGNED ==> later.noESign != Some("1")
    ensures Verify(later, Encoded(altered), want, faults).Err?
  {
  }

  // The last setting written, by the flag's own write or by a restore.
  function LastNoESign(noESign: Option<string>, ops: seq<Op>): Option<string> {
    if ops == [] then noESign else
    match ops[|ops| - 1]
    case SetNoESign(off, false) => Some(if off then "1" else "0")
    case Restored(_, restored) => restored
    case _ => LastNoESign(noESign, ops[..|ops| - 1])
  }

  lemma StepWritesSetting(s: State, op: Op)
    ensures Step(s, op).noESign ==
              match op
              case SetNoESign(off, false) => Some(if off then "1" else "0")
              case Restored(_, restored) => restored
              case _ => s.noESign
  {
  }

  lemma {:induction false} SettingIsTheLastWritten(s: State, ops: seq<Op>)
    ensures Run(s, ops).noESign == LastNoESign(s.noESign, ops)
  {
    if ops != [] {
      SettingIsTheLastWritten(s, ops[..|ops| - 1]);
      StepWritesSetting(Run(s, ops[..|ops| - 1]), ops[|ops| - 1]);
    }
  }

  /** An unsigned envelope is accepted exactly while the last flag written says eSign is off. */
  lemma UnsignedVerifiesExactlyWhileOff(
    s: State, payload: Payload, ops: seq<Op>, want: VerifyParams, faults: ReadFaults)
    ensures Verify(Run(s, ops), SignNone(payload), want, faults).Ok? <==>
              && LastNoESign(s.noESign, ops) == Some("1") && !faults.setting
              && payload.version == 1 && Bound(payload, want)
  {
    SettingIsTheLastWritten(s, ops);
  }

  // --- How many keys are active

  predicate AtMostOneActive(rows: seq<Row>) {
    forall i, j | 0 <= i < j < |rows| :: !(rows[i].active && rows[j].active)
  }

  function ActiveCount(rows: seq<Row>): nat {
    if rows == [] then 0 else (if rows[0].active then 1 else 0) + ActiveCount(rows[1..])
  }

  // One write of the key table: what the store does at once, whoever asks for it.
  datatype Write = Deactivate | Store(row: Row) | Replace(rows: seq<Row>)

  function Written(rows: seq<Row>, write: Write): seq<Row> {
    match write
    case Deactivate => Deactivated(rows)
    case Store(row) => Upserted(rows, row)
    case Replace(restored) => restored
  }

  function AllWritten(rows: seq<Row>, log: seq<Write>): seq<Row> {
    if log == [] then rows else Written(AllWritten(rows, log[..|log| - 1]), log[|log| - 1])
  }

  // What the log alone says: the stores since the last deactivation, on top of whatever was
  // active before if there was none.
  function StoresSince(before: nat, log: seq<Write>): nat {
    if log == [] then before else
    match log[|log| - 1]
    case Deactivate => 0
    case Store(_) => StoresSince(before, log[..|log| - 1]) + 1
    case Replace(rows) => ActiveCount(rows)
  }

  // Every store is of an active key under a fresh id.
  predicate FreshStores(rows: seq<Row>, log: seq<Write>) {
    log == []
    || (FreshStores(rows, log[..|log| - 1])
        && (log[|log| - 1].Store? ==>
              log[|log| - 1].row.active && Unknown(AllWritten(rows, log[..|log| - 1]), log[|log| - 1].row.keyId)))
  }

  lemma {:induction false} NoneActive(rows: seq<Row>)
    requires forall i | 0 <= i < |rows| :: !rows[i].active
    ensures ActiveCount(rows) == 0 && FirstActive(rows) == None
  {
    if rows != [] {
      NoneActive(rows[1..]);
    }
  }

  lemma {:induction false} OneOrNoneActive(rows: seq<Row>)
    ensures ActiveCount(rows) == 0 <==> forall i | 0 <= i < |rows| :: !rows[i].active
    ensures ActiveCount(rows) <= 1 <==> AtMostOneActive(rows)
  {
    if rows != [] {
      OneOrNoneActive(rows[1..]);
      assert forall i | 0 < i < |rows| :: rows[i] == rows[1..][i - 1];
      assert forall i | 0 <= i < |rows[1..]| :: rows[1..][i] == rows[i + 1];
    }
  }

  lemma {:induction false} ActiveRowsAreTheStoresSince(rows: seq<Row>, log: seq<Write>)
    requires FreshStores(rows, log)
    ensures ActiveCount(AllWritten(rows, log)) == StoresSince(ActiveCount(rows), log)
  {
    if log != [] {
      var front, last := log[..|log| - 1], log[|log| - 1];
      ActiveRowsAreTheStoresSince(rows, front);
      var now := AllWritten(rows, front);
      if last.Deactivate? {
        NoneActive(Deactivated(now));
      } else if last.Store? {
        UpsertOfUnknown(now, last.row);
        assert ([last.row] + now)[1..] == now;
      }
    }
  }

  /**
   * Over any interleaving of any number of rotations, whatever fails in them: there is at most
   * one active key exactly when the log holds at most one store since its last deactivation,
   * counting what was active before if it holds no deactivation.
   */
  lemma AtMostOneActiveExactly(rows: seq<Row>, log: seq<Write>)
    requires FreshStores(rows, log)
    ensures AtMostOneActive(AllWritten(rows, log)) <==> StoresSince(ActiveCount(rows), log) <= 1
  {
    ActiveRowsAreTheStoresSince(rows, log);
    OneOrNoneActive(AllWritten(rows, log));
  }

  lemma OneMoreWrite(rows: seq<Row>, log: seq<Write>, write: Write)
    ensures AllWritten(rows, log + [write]) == Written(AllWritten(rows, log), write)
    ensures FreshStores(rows, log + [write]) <==>
              FreshStores(rows, log)
              && (write.Store? ==> write.row.active && Unknown(AllWritten(rows, log), write.row.keyId))
    ensures forall n: nat :: StoresSince(n, log + [write]) ==
              match write
              case Deactivate => 0
              case Store(_) => StoresSince(n, log) + 1
              case Replace(restored) => ActiveCount(restored)
  {
    assert (log + [write])[..|log|] == log;
  }

  /** So two rotations that interleave, each deactivating before either stores, leave two active keys. */
  lemma InterleavedRotationsLeaveTwo(rows: seq<Row>, a: Row, b: Row)
    requires a.active && b.active && a.keyId != b.keyId && Unknown(rows, a.keyId) && Unknown(rows, b.keyId)
    ensures !AtMostOneActive(AllWritten(rows, [Deactivate, Deactivate, Store(a), Store(b)]))
  {
    var one, two := [Deactivate], [Deactivate, Deactivate];
    var three, four := two + [Store(a)], two + [Store(a)] + [Store(b)];
    OneMoreWrite(rows, [], Deactivate);
    OneMoreWrite(rows, one, Deactivate);
    OneMoreWrite(rows, two, Store(a));
    OneMoreWrite(rows, three, Store(b));
    assert [] + [Deactivate] == one && one + [Deactivate] == two;
    assert four == [Deactivate, Deactivate, Store(a), Store(b)];
    UpsertOfUnknown(AllWritten(rows, two), a);
    AtMostOneActiveExactly(rows, four);
  }

  // --- Rotations one at a time

  function RotationLog(keyId: string, seed: nat, faults: Faults): seq<Write> {
    if faults.deactivate then [] else
    if faults.upsert then [Deactivate] else [Deactivate, Store(NewRow(keyId, seed))]
  }

  function LogOf(op: Op): seq<Write> {
    match op
    case Generate(keyId, seed, faults) => RotationLog(keyId, seed, faults)
    case Import(keyId, parsed, faults) => if parsed.Ok? then RotationLog(keyId, parsed.value, faults) else []
    case Restored(rows, _) => [Replace(rows)]
    case _ => []
  }

  function FullLog(ops: seq<Op>): seq<Write> {
    if ops == [] then [] else FullLog(ops[..|ops| - 1]) + LogOf(ops[|ops| - 1])
  }

  lemma RotationRows(s: State, keyId: string, seed: nat, faults: Faults)
    requires Fresh(s, keyId) && !faults.deactivate
    ensures Unknown(Deactivated(s.rows), keyId)
    ensures
      var rows := NewActiveStored(s, keyId, seed, faults).0.rows;
      if faults.upsert then rows == Deactivated(s.rows) else rows == [NewRow(keyId, seed)] + Deactivated(s.rows)
  {
    assert Unknown(Deactivated(s.rows), keyId);
    UpsertOfUnknown(Deactivated(s.rows), NewRow(keyId, seed));
  }

  lemma {:induction false} LogsJoin(rows: seq<Row>, a: seq<Write>, b: seq<Write>)
    ensures AllWritten(rows, a + b) == AllWritten(AllWritten(rows, a), b)
    ensures FreshStores(rows, a + b) <==> FreshStores(rows, a) && FreshStores(AllWritten(rows, a), b)
  {
    if b == [] {
      assert a + b == a;
    } else {
      assert (a + b)[..|a + b| - 1] == a + b[..|b| - 1];
      LogsJoin(rows, a, b[..|b| - 1]);
    }
  }

  lemma RotationIsItsLog(s: State, keyId: string, seed: nat, faults: Faults)
    requires Fresh(s, keyId)
    ensures NewActiveStored(s, keyId, seed, faults).0.rows == AllWritten(s.rows, RotationLog(keyId, seed, faults))
    ensures FreshStores(s.rows, RotationLog(keyId, seed, faults))
  {
    if !faults.deactivate {
      RotationRows(s, keyId, seed, faults);
      var row := NewRow(keyId, seed);
      OneMoreWrite(s.rows, [], Deactivate);
      OneMoreWrite(s.rows, [Deactivate], Store(row));
      assert [] + [Deactivate] == [Deactivate] && [Deactivate] + [Store(row)] == [Deactivate, Store(row)];
    }
  }

  lemma OpIsItsLog(s: State, op: Op)
    requires Permitted(s, op)
    ensures Step(s, op).rows == AllWritten(s.rows, LogOf(op)) && FreshStores(s.rows, LogOf(op))
  {
    match op
    case Generate(keyId, seed, faults) => RotationIsItsLog(s, keyId, seed, faults);
    case Import(keyId, parsed, faults) => if parsed.Ok? { RotationIsItsLog(s, keyId, parsed.value, faults); }
    case _ =>
  }

  lemma {:induction false} RunIsItsLog(s: State, ops: seq<Op>)
    requires PermittedRun(s, ops)
    ensures Run(s, ops).rows == AllWritten(s.rows, FullLog(ops)) && FreshStores(s.rows, FullLog(ops))
  {
    if ops != [] {
      var front, last := ops[..|ops| - 1], ops[|ops| - 1];
      RunIsItsLog(s, front);
      OpIsItsLog(Run(s, front), last);
      LogsJoin(s.rows, FullLog(front), LogOf(last));
    }
  }

  predicate Sequential(op: Op) {
    op.Restored? ==> AtMostOneActive(op.rows)
  }

  lemma {:induction false} SequentialLogsStoreOnce(before: nat, ops: seq<Op>)
    requires before <= 1 && forall op | op in ops :: Sequential(op)
    ensures StoresSince(before, FullLog(ops)) <= 1
  {
    if ops != [] {
      var front, last := FullLog(ops[..|ops| - 1]), LogOf(ops[|ops| - 1]);
      assert Sequential(ops[|ops| - 1]);
      SequentialLogsStoreOnce(before, ops[..|ops| - 1]);
      if |last| > 0 {
        assert (front + last)[..|front + last| - 1] == front + last[..|last| - 1];
        if |last| == 2 {
          assert (front + last[..1])[..|front|] == front;
        } else if ops[|ops| - 1].Restored? {
          OneOrNoneActive(ops[|ops| - 1].rows);
        }
      } else {
        assert front + last == front;
      }
    }
  }

  /** With rotations one at a time, there is never a second active key, whatever fails. */
  lemma NeverTwoActiveKeys(s: State, ops: seq<Op>)
    requires AtMostOneActive(s.rows) && PermittedRun(s, ops)
    requires forall op | op in ops :: Sequential(op)
    ensures AtMostOneActive(Run(s, ops).rows)
  {
    OneOrNoneActive(s.rows);
    RunIsItsLog(s, ops);
    SequentialLogsStoreOnce(ActiveCount(s.rows), ops);
    AtMostOneActiveExactly(s.rows, FullLog(ops));
  }

  /**
   * A rotation that succeeds leaves its key as the only active one, signs with it and answers
   * with it, without its private half. One that fails keeps signing with the key cached before,
   * whatever it left in the store.
   */
  lemma RotationIsAllOrKeepsSigning(s: State, keyId: string, seed: nat, faults: Faults)
    requires Fresh(s, keyId) && AtMostOneActive(s.rows)
    ensures
      var (after, r) := NewActiveStored(s, keyId, seed, faults);
      && AtMostOneActive(after.rows)
      && (r.Ok? <==> !faults.deactivate && !faults.upsert && !faults.reload)
      && (r.Ok? ==> after.active == Some(Row(keyId, PublicOf(seed), SeedBytes(seed), true))
                    && FirstActive(after.rows) == after.active && after.signKey == Some(PrivateKey(seed, PublicOf(seed)))
                    && r.value == Row(keyId, PublicOf(seed), Missing, true))
      && (r.Err? ==> after.active == s.active && after.signKey == s.signKey && r.error == Internal)
  {
    if !faults.deactivate {
      RotationRows(s, keyId, seed, faults);
    }
  }

  /**
   * What a later reload finds after a rotation attempt: the old key if nothing was written, no
   * key at all if the attempt stopped after deactivating, the new key if it was stored.
   */
  lemma ReloadAfterRotation(s: State, keyId: string, seed: nat, faults: Faults)
    requires Fresh(s, keyId)
    ensures
      var after := Reloaded(NewActiveStored(s, keyId, seed, faults).0, false).0;
      if faults.deactivate then after == Reloaded(s, false).0
      else if faults.upsert then after.active == None && forall payload :: Sign(after, payload) == Err(NotFound)
      else after.active == Some(NewRow(keyId, seed))
  {
    if !faults.deactivate {
      RotationRows(s, keyId, seed, faults);
      NoneActive(Deactivated(s.rows));
    }
  }
}
