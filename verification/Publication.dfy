/** Preparing and publishing a non-release database beside rivals (nonrelease.go). */
module Publication {
  import opened Domain

  datatype Connection = Connection(id: nat, enabled: bool)

  // What a database file holds once no write of it is pending elsewhere.
  datatype Database = Database(migrated: bool, connections: seq<Connection>)

  const NEW_DATABASE := Database(false, [])

  // Every change of a directory entry, in order. Another process works on the own path only.
  datatype Change = Bound(name: string, file: nat, ours: bool) | Unbound(name: string, ours: bool)

  // What a rival process does between two steps: prepare and link a file of its own where
  // nothing stands, or remove the file it linked.
  datatype RivalMove = Idle | Links(content: Database) | Withdraws

  // Whether a rival's file stands on the own path after a move, given whether one stood before.
  predicate Held(held: bool, move: RivalMove) {
    match move case Idle => held case Links(_) => true case Withdraws => false
  }

  function Sidecars(path: string): seq<string> {
    [path + "-wal", path + "-shm", path + "-journal"]
  }

  function DatabaseFiles(path: string): seq<string> {
    [path] + Sidecars(path)
  }

  // The names outside changed link as they did.
  ghost predicate SameExcept(names0: map<string, nat>, names1: map<string, nat>, changed: set<string>) {
    forall n | n !in changed ::
      (n in names1 <==> n in names0) && (n in names1 ==> names1[n] == names0[n])
  }

  /** A directory: its names, the files they link to, and which files rivals linked. */
  class Disk {
    var names: map<string, nat>
    var files: map<nat, Database>
    var next: nat
    var rivals: map<nat, Database>
    var log: seq<Change>

    ghost predicate Valid()
      reads this
    {
      && (forall n | n in names :: names[n] in files)
      && (forall f | f in files :: f < next)
      && (forall f | f in rivals :: f in files && files[f] == rivals[f])
    }

    constructor ()
      ensures Valid() && names == map[] && files == map[] && rivals == map[] && log == []
    {
      names, files, next, rivals, log := map[], map[], 0, map[], [];
    }

    /** Create a new file under a free name. */
    method Create(name: string, content: Database) returns (file: nat)
      requires Valid() && name !in names
      modifies this`names, this`files, this`next, this`log
      ensures Valid() && file !in old(files) && file !in rivals
      ensures names == old(names)[name := file] && files == old(files)[file := content]
      ensures log == old(log) + [Bound(name, file, true)]
    {
      file := next;
      files := files[file := content];
      names := names[name := file];
      next := next + 1;
      log := log + [Bound(name, file, true)];
    }

    /** os.Link: a second name for a file, refused where a name exists. */
    method Link(from: string, to: string, fails: bool) returns (linked: bool)
      requires Valid() && from in names
      modifies this`names, this`log
      ensures Valid() && linked == (to !in old(names) && !fails)
      ensures names == (if linked then old(names)[to := old(names)[from]] else old(names))
      ensures log == old(log) + (if linked then [Bound(to, old(names)[from], true)] else [])
    {
      if to in names || fails {
        return false;
      }
      log := log + [Bound(to, names[from], true)];
      names := names[to := names[from]];
      return true;
    }

    /** os.Remove, which ignores an absent name. */
    method Remove(name: string, fails: bool) returns (ok: bool)
      requires Valid()
      modifies this`names, this`log
      ensures Valid() && ok == (name !in old(names) || !fails)
      ensures names == (if ok then old(names) - {name} else old(names))
      ensures log == old(log) + (if ok && name in old(names) then [Unbound(name, true)] else [])
    {
      if name !in names {
        return true;
      }
      if fails {
        return false;
      }
      names := names - {name};
      log := log + [Unbound(name, true)];
      return true;
    }

    method Write(file: nat, content: Database)
      requires Valid() && file in files && file !in rivals
      modifies this`files
      ensures Valid() && files == old(files)[file := content]
    {
      files := files[file := content];
    }

    method RivalActs(own: string, move: RivalMove)
      requires Valid()
      modifies this
      ensures Valid() && OursUntouched(old(names), old(files), old(rivals), own)
      ensures (own in old(names) ==> old(names)[own] in old(rivals)) ==>
                (own in names <==> Held(own in old(names), move))
      ensures old(log) <= log && forall i | |old(log)| <= i < |log| :: !log[i].ours
    {
      if move.Links? && own !in names {
        files := files[next := move.content];
        rivals := rivals[next := move.content];
        names := names[own := next];
        log := log + [Bound(own, next, false)];
        next := next + 1;
      } else if move.Withdraws? && own in names && names[own] in rivals {
        names := names - {own};
        log := log + [Unbound(own, false)];
      }
    }

    // Against an earlier state: no file changed, rivals only grew, no other name changed, and
    // the own name still links to whatever no rival linked.
    ghost predicate OursUntouched(
      names0: map<string, nat>, files0: map<nat, Database>, rivals0: map<nat, Database>, own: string)
      reads this
    {
      && (forall f | f in files0 :: f in files && files[f] == files0[f])
      && (forall f | f in rivals0 :: f in rivals)
      && (forall f | f in rivals && f in files0 :: f in rivals0)
      && SameExcept(names0, names, {own})
      && (own in names0 && names0[own] !in rivals0 ==> own in names && names[own] == names0[own])
      && (own in names ==> names[own] in rivals || (own in names0 && names[own] == names0[own]))
    }
  }

  datatype Faults = Faults(
    stat: bool, createTemp: bool, closeTemp: bool, snapshot: bool, open: bool, migrate: bool, realm: bool, list: bool,
    disable: set<nat>, closeStore: bool, link: bool, remove: set<string>)

  function WithEnabled(connections: seq<Connection>, id: nat, enabled: bool): seq<Connection> {
    seq(|connections|, i requires 0 <= i < |connections| =>
      if connections[i].id == id then connections[i].(enabled := enabled) else connections[i])
  }

  function AllDisabled(connections: seq<Connection>): (r: seq<Connection>)
    ensures |r| == |connections| && forall i | 0 <= i < |r| :: r[i].id == connections[i].id && !r[i].enabled
  {
    seq(|connections|, i requires 0 <= i < |connections| => connections[i].(enabled := false))
  }

  /** Disable every enabled connection of the store, one call each. */
  method DisableConnections(pending: Database, disableFails: set<nat>) returns (r: Database, ok: bool)
    ensures ok <==> forall i | 0 <= i < |pending.connections| && pending.connections[i].enabled ::
                      pending.connections[i].id !in disableFails
    ensures ok ==> r == pending.(connections := AllDisabled(pending.connections))
    ensures r.migrated == pending.migrated
  {
    var connections := pending.connections;
    r := pending;
    for i := 0 to |connections|
      invariant |r.connections| == |connections| && r.migrated == pending.migrated
      invariant forall j | 0 <= j < |connections| ::
                  r.connections[j] == connections[j] || r.connections[j] == connections[j].(enabled := false)
      invariant forall j | 0 <= j < i && connections[j].enabled :: connections[j].id !in disableFails
      invariant forall j | 0 <= j < i :: !r.connections[j].enabled
    {
      if connections[i].enabled {
        if connections[i].id in disableFails {
          return r, false;
        }
        r := r.(connections := WithEnabled(r.connections, connections[i].id, false));
      }
    }
    assert r.connections == AllDisabled(connections);
    ok := true;
  }

  // Since position from, this process changed none of the entries of own.
  ghost predicate LeavesAlone(log: seq<Change>, from: nat, own: string) {
    forall i | from <= i < |log| :: log[i].ours ==> log[i].name != own
  }

  /** sqlite.RemoveDatabaseFiles: every name is tried, whatever fails before it. */
  method RemoveDatabaseFiles(disk: Disk, files: seq<string>, own: string, fails: set<string>) returns (ok: bool)
    requires disk.Valid() && own !in files
    modifies disk`names, disk`log
    ensures disk.Valid() && SameExcept(old(disk.names), disk.names, set n | n in files)
    ensures forall n | n in files && n in disk.names :: n in fails
    ensures ok <==> forall n | n in files :: n !in disk.names
    ensures old(disk.log) <= disk.log && LeavesAlone(disk.log, |old(disk.log)|, own)
  {
    ok := true;
    ghost var stays := "";
    for i := 0 to |files|
      invariant disk.Valid() && SameExcept(old(disk.names), disk.names, set n | n in files)
      invariant forall n | n in files[..i] && n in disk.names :: n in fails
      invariant ok ==> forall n | n in files[..i] :: n !in disk.names
      invariant !ok ==> stays in files && stays in disk.names && stays in fails
      invariant old(disk.log) <= disk.log && LeavesAlone(disk.log, |old(disk.log)|, own)
    {
      assert files[..i + 1] == files[..i] + [files[i]];
      assert files[i] in files;
      var removed := disk.Remove(files[i], files[i] in fails);
      if !removed {
        ok := false;
        stays := files[i];
      }
    }
    assert files[..|files|] == files;
  }

  // Every call on the store of this content succeeds.
  predicate StoreWorks(content: Database, faults: Faults) {
    && !faults.open && !faults.migrate && !faults.realm && !faults.list && !faults.closeStore
    && forall i | 0 <= i < |content.connections| && content.connections[i].enabled ::
         content.connections[i].id !in faults.disable
  }

  // The calls that some failing one of makes the store part fail.
  predicate SomeStoreCallFails(content: Database, faults: Faults) {
    || faults.open || faults.migrate || faults.realm || faults.list || faults.closeStore
    || exists c :: c in content.connections && c.enabled && c.id in faults.disable
  }

  /** Each failing call on the store is fatal to it, but for disabling a connection that is not enabled. */
  lemma StoreWorksExactly(content: Database, faults: Faults)
    ensures StoreWorks(content, faults) <==> !SomeStoreCallFails(content, faults)
  {
  }

  // What a prepared database must hold.
  function Ready(source: Database): (r: Database)
    ensures r.migrated && |r.connections| == |source.connections|
    ensures forall i | 0 <= i < |r.connections| ::
              r.connections[i].id == source.connections[i].id && !r.connections[i].enabled
  {
    Database(true, AllDisabled(source.connections))
  }

  /** What is done to the open store, up to its first failing call. */
  method MigrateAndDisable(content: Database, faults: Faults) returns (pending: Database, ok: bool)
    ensures ok <==> StoreWorks(content, faults.(open := false, closeStore := false))
    ensures ok ==> pending == Ready(content)
  {
    pending := content;
    if faults.migrate {
      return pending, false;
    }
    pending := pending.(migrated := true);
    if faults.realm || faults.list {
      return pending, false;
    }
    pending, ok := DisableConnections(pending, faults.disable);
  }

  /**
   * The store part: open the temporary database, migrate it, disable its connections and close
   * it. While it is open its writes live in its sidecar wal; only a close that succeeds brings
   * them into the file and drops the sidecar.
   */
  method PrepareStore(disk: Disk, tmp: string, wal: string, own: string, faults: Faults) returns (ok: bool)
    requires disk.Valid() && tmp in disk.names && disk.names[tmp] !in disk.rivals
    requires wal !in disk.names && own != wal
    modifies disk`names, disk`files, disk`next, disk`log
    ensures disk.Valid() && SameExcept(old(disk.names), disk.names, {wal})
    ensures forall f | f in old(disk.files) && f != old(disk.names)[tmp] ::
              f in disk.files && disk.files[f] == old(disk.files)[f]
    ensures ok <==> StoreWorks(old(disk.files)[old(disk.names)[tmp]], faults)
    ensures ok ==> disk.files[disk.names[tmp]] == Ready(old(disk.files)[old(disk.names)[tmp]])
    ensures old(disk.log) <= disk.log && LeavesAlone(disk.log, |old(disk.log)|, own)
  {
    if faults.open {
      return false;
    }
    var file := disk.names[tmp];
    var pending := disk.files[file];
    var sidecar := disk.Create(wal, NEW_DATABASE);
    pending, ok := MigrateAndDisable(pending, faults);
    var closed := CloseStore(disk, file, pending, wal, own, faults.closeStore);
    ok := ok && closed;
  }

  /** The deferred close: what the sidecar holds goes into the file, and the sidecar goes. */
  method CloseStore(disk: Disk, file: nat, pending: Database, wal: string, own: string, fails: bool)
    returns (ok: bool)
    requires disk.Valid() && file in disk.files && file !in disk.rivals && own != wal
    modifies disk`names, disk`files, disk`log
    ensures disk.Valid() && ok == !fails
    ensures disk.names == (if fails then old(disk.names) else old(disk.names) - {wal})
    ensures disk.files == (if fails then old(disk.files) else old(disk.files)[file := pending])
    ensures old(disk.log) <= disk.log && LeavesAlone(disk.log, |old(disk.log)|, own)
  {
    if fails {
      return false;
    }
    disk.Write(file, pending);
    ok := disk.Remove(wal, false);
  }

  // What both halves of the preparation keep, from one state of the disk to a later one:
  // every other file, every other name, and that only a rival's file stands on the own path.
  ghost predicate Keeps(
    names0: map<string, nat>, files0: map<nat, Database>, log0: seq<Change>, disk: Disk,
    tmp: string, wal: string, own: string)
    requires tmp in names0
    reads disk
  {
    && disk.Valid() && SameExcept(names0, disk.names, {own, wal})
    && names0[tmp] !in disk.rivals
    && (forall f | f in files0 && f != names0[tmp] :: f in disk.files && disk.files[f] == files0[f])
    && log0 <= disk.log && LeavesAlone(disk.log, |log0|, own)
    && (own in disk.names ==> disk.names[own] in disk.rivals)
  }

  // What the database is prepared from: the release database, or nothing.
  function Source(names: map<string, nat>, files: map<nat, Database>, release: string, fromRelease: bool): Database {
    if fromRelease && release in names && names[release] in files then files[names[release]] else NEW_DATABASE
  }

  predicate Preparable(
    names: map<string, nat>, files: map<nat, Database>, release: string, fromRelease: bool, faults: Faults)
  {
    && !faults.closeTemp && (fromRelease ==> release in names && !faults.snapshot)
    && StoreWorks(Source(names, files, release, fromRelease), faults)
  }

  /** A copy is of the release database itself, if it was asked for, and else starts empty. */
  lemma SourceExactly(names: map<string, nat>, files: map<nat, Database>, release: string, fromRelease: bool)
    requires fromRelease ==> release in names && names[release] in files
    ensures Source(names, files, release, fromRelease)
            == if fromRelease then files[names[release]] else Database(false, [])
  {
  }

  /**
   * Each call of the preparation is needed: closing the temporary file, the snapshot of a release
   * database that must be there if it was asked for, and every call on the store.
   */
  lemma PreparableExactly(
    names: map<string, nat>, files: map<nat, Database>, release: string, fromRelease: bool, faults: Faults)
    ensures Preparable(names, files, release, fromRelease, faults) <==>
              && !faults.closeTemp && (fromRelease ==> release in names) && !(fromRelease && faults.snapshot)
              && !SomeStoreCallFails(Source(names, files, release, fromRelease), faults)
  {
    StoreWorksExactly(Source(names, files, release, fromRelease), faults);
  }

  // A temporary file of this call's own, on names nobody else uses.
  ghost predicate Temporary(disk: Disk, tmp: string, wal: string, own: string)
    reads disk
  {
    && disk.Valid() && own != tmp && own != wal && tmp != wal
    && tmp in disk.names && disk.names[tmp] !in disk.rivals && wal !in disk.names
    && (own in disk.names ==> disk.names[own] in disk.rivals)
  }

  /** Close the temporary file and, if asked to, snapshot the release database into it. */
  method CopyRelease(
    disk: Disk, tmp: string, wal: string, own: string, release: string, fromRelease: bool, faults: Faults,
    move: RivalMove)
    returns (ok: bool)
    requires Temporary(disk, tmp, wal, own) && disk.files[disk.names[tmp]] == NEW_DATABASE
    requires release !in {own, wal} && (release in disk.names ==> disk.names[release] != disk.names[tmp])
    modifies disk
    ensures Keeps(old(disk.names), old(disk.files), old(disk.log), disk, tmp, wal, own)
    ensures Temporary(disk, tmp, wal, own)
    ensures ok <==> !faults.closeTemp && (fromRelease ==> release in old(disk.names) && !faults.snapshot)
    ensures ok ==> (own in disk.names <==> Held(own in old(disk.names), move))
    ensures ok ==> disk.files[disk.names[tmp]] == Source(old(disk.names), old(disk.files), release, fromRelease)
  {
    if faults.closeTemp {
      return false;
    }
    disk.RivalActs(own, move);
    if fromRelease {
      if release !in disk.names || faults.snapshot {
        return false;
      }
      disk.Write(disk.names[tmp], disk.files[disk.names[release]]);
    }
    ok := true;
  }

  method PrepareStoreBesideRival(
    disk: Disk, tmp: string, wal: string, own: string, faults: Faults, move: RivalMove) returns (ok: bool)
    requires Temporary(disk, tmp, wal, own)
    modifies disk
    ensures Keeps(old(disk.names), old(disk.files), old(disk.log), disk, tmp, wal, own)
    ensures ok <==> StoreWorks(old(disk.files)[old(disk.names)[tmp]], faults)
    ensures own in disk.names <==> Held(own in old(disk.names), move)
    ensures ok ==> disk.files[disk.names[tmp]] == Ready(old(disk.files)[old(disk.names)[tmp]])
  {
    ok := PrepareStore(disk, tmp, wal, own, faults);
    disk.RivalActs(own, move);
  }

  /** From the empty temporary file to the closed temporary database, the rival acting twice. */
  method PrepareTemporary(
    disk: Disk, tmp: string, wal: string, own: string, release: string, fromRelease: bool, faults: Faults,
    rival: nat -> RivalMove)
    returns (ok: bool)
    requires Temporary(disk, tmp, wal, own) && disk.files[disk.names[tmp]] == NEW_DATABASE
    requires release !in {own, wal} && (release in disk.names ==> disk.names[release] != disk.names[tmp])
    modifies disk
    ensures Keeps(old(disk.names), old(disk.files), old(disk.log), disk, tmp, wal, own)
    ensures ok <==> Preparable(old(disk.names), old(disk.files), release, fromRelease, faults)
    ensures ok ==> (own in disk.names <==> Held(Held(own in old(disk.names), rival(1)), rival(2)))
    ensures ok ==> disk.files[disk.names[tmp]] == Ready(Source(old(disk.names), old(disk.files), release, fromRelease))
  {
    ok := CopyRelease(disk, tmp, wal, own, release, fromRelease, faults, rival(1));
    if ok {
      ok := PrepareStoreBesideRival(disk, tmp, wal, own, faults, rival(2));
    }
  }

  // This call's changes of the own path are at most its publication of file.
  ghost predicate OnlyPublishes(log: seq<Change>, from: nat, own: string, published: bool, file: nat) {
    forall i | from <= i < |log| && log[i].ours && log[i].name == own ::
      published && log[i] == Bound(own, file, true)
  }

  /** The hard link, if the preparation got so far; a rival may act after it. */
  method Publish(disk: Disk, tmp: string, own: string, prepared: bool, fails: bool, move: RivalMove)
    returns (published: bool)
    requires disk.Valid() && own != tmp && tmp in disk.names && disk.names[tmp] !in disk.rivals
    requires own in disk.names ==> disk.names[own] in disk.rivals
    modifies disk
    ensures disk.Valid() && SameExcept(old(disk.names), disk.names, {own}) && old(disk.names)[tmp] !in disk.rivals
    ensures forall f | f in old(disk.files) :: f in disk.files && disk.files[f] == old(disk.files)[f]
    ensures published == (prepared && own !in old(disk.names) && !fails)
    ensures published ==> own in disk.names && disk.names[own] == old(disk.names)[tmp]
    ensures own in disk.names ==> disk.names[own] in disk.rivals || published
    ensures old(disk.log) <= disk.log
    ensures OnlyPublishes(disk.log, |old(disk.log)|, own, published, old(disk.names)[tmp])
  {
    published := false;
    if prepared {
      published := disk.Link(tmp, own, fails);
    }
    disk.RivalActs(own, move);
  }

  /**
   * Everything after the temporary file is created: prepare it, publish it and, whatever
   * happened, remove every temporary name.
   */
  method PrepareAndPublish(
    disk: Disk, tmp: string, wal: string, temps: seq<string>, own: string, release: string, fromRelease: bool,
    faults: Faults, rival: nat -> RivalMove)
    returns (result: Option<Error>, published: bool)
    requires Temporary(disk, tmp, wal, own) && disk.files[disk.names[tmp]] == NEW_DATABASE
    requires tmp in temps && wal in temps && own !in temps
    requires release !in {own, wal} && (release in disk.names ==> disk.names[release] != disk.names[tmp])
    modifies disk
    ensures disk.Valid() && SameExcept(old(disk.names), disk.names, {own} + set n | n in temps)
    ensures forall f | f in old(disk.files) && f != old(disk.names)[tmp] ::
              f in disk.files && disk.files[f] == old(disk.files)[f]
    ensures old(disk.log) <= disk.log
    ensures OnlyPublishes(disk.log, |old(disk.log)|, own, published, old(disk.names)[tmp])
    ensures own in disk.names ==> disk.names[own] in disk.rivals || published
    ensures published ==>
              && own in disk.names && disk.names[own] == old(disk.names)[tmp] && disk.names[own] !in disk.rivals
              && disk.files[disk.names[own]] == Ready(Source(old(disk.names), old(disk.files), release, fromRelease))
    ensures published <==>
              && Preparable(old(disk.names), old(disk.files), release, fromRelease, faults) && !faults.link
              && !Held(Held(own in old(disk.names), rival(1)), rival(2))
    ensures result == None <==> published && forall n | n in temps :: n !in disk.names
    ensures forall n | n in temps && n in disk.names :: n in faults.remove
  {
    var prepared := PrepareTemporary(disk, tmp, wal, own, release, fromRelease, faults, rival);
    published := Publish(disk, tmp, own, prepared, faults.link, rival(3));
    var removed := RemoveDatabaseFiles(disk, temps, own, faults.remove);
    result := if published && removed then None else Some(Internal);
  }

  /** From the creation of the temporary file on. */
  method CreateAndPublish(
    disk: Disk, tmp: string, wal: string, temps: seq<string>, own: string, release: string, fromRelease: bool,
    faults: Faults, rival: nat -> RivalMove)
    returns (result: Option<Error>, published: bool)
    requires disk.Valid() && tmp in temps && wal in temps && tmp != wal && own !in temps && release !in temps
    requires own != release && (own in disk.names ==> disk.names[own] in disk.rivals)
    requires forall n | n in temps :: n !in disk.names
    modifies disk
    ensures disk.Valid() && SameExcept(old(disk.names), disk.names, {own} + set n | n in temps)
    ensures forall f | f in old(disk.files) :: f in disk.files && disk.files[f] == old(disk.files)[f]
    ensures old(disk.log) <= disk.log
    ensures published ==> own in disk.names
    ensures OnlyPublishes(disk.log, |old(disk.log)|, own, published, if published then disk.names[own] else 0)
    ensures own in disk.names ==> disk.names[own] in disk.rivals || published
    ensures published ==>
              && disk.names[own] !in old(disk.files) && disk.names[own] !in disk.rivals
              && disk.files[disk.names[own]] == Ready(Source(old(disk.names), old(disk.files), release, fromRelease))
    ensures published <==>
              && Preparable(old(disk.names), old(disk.files), release, fromRelease, faults) && !faults.link
              && !Held(Held(own in old(disk.names), rival(1)), rival(2))
    ensures result == None <==> published && forall n | n in temps :: n !in disk.names
    ensures forall n | n in temps && n in disk.names :: n in faults.remove
  {
    var file := disk.Create(tmp, NEW_DATABASE);
    result, published := PrepareAndPublish(disk, tmp, wal, temps, own, release, fromRelease, faults, rival);
  }

  function TemporaryPath(own: string, suffix: string): string {
    own + ".prepare-" + suffix
  }

  /** The names a database leaves: its own, and the write-ahead log, shared memory and journal beside it. */
  lemma DatabaseNames(path: string, name: string)
    ensures name in DatabaseFiles(path)
            <==> name in {path, path + "-wal", path + "-shm", path + "-journal"}
  {
  }

  lemma OwnIsNotTemporary(own: string, suffix: string)
    ensures own !in DatabaseFiles(TemporaryPath(own, suffix))
  {
    var tmp := TemporaryPath(own, suffix);
    assert |tmp| > |own|;
    assert forall n | n in DatabaseFiles(tmp) :: |n| >= |tmp|;
  }

  /** PrepareNonReleaseDatabase, with a rival free to act between its steps. suffix is CreateTemp's random part. */
  method PrepareNonReleaseDatabase(
    disk: Disk, own: string, release: string, fromRelease: bool, suffix: string, faults: Faults, rival: nat -> RivalMove)
    returns (result: Option<Error>, published: bool)
    requires disk.Valid()
    requires release !in DatabaseFiles(TemporaryPath(own, suffix))
    requires forall n | n in DatabaseFiles(TemporaryPath(own, suffix)) :: n !in disk.names
    modifies disk
    // no file that existed is changed, and no name but the own path's and the temporary ones
    ensures disk.Valid()
    ensures forall f | f in old(disk.files) :: f in disk.files && disk.files[f] == old(disk.files)[f]
    ensures SameExcept(old(disk.names), disk.names, {own} + set n | n in DatabaseFiles(TemporaryPath(own, suffix)))
    // this call changes the own path only by publishing, and only where nothing stood
    ensures old(disk.log) <= disk.log
    ensures published ==> own in disk.names
    ensures OnlyPublishes(disk.log, |old(disk.log)|, own, published, if published then disk.names[own] else 0)
    ensures !published && own in disk.names ==>
              disk.names[own] in disk.rivals || (own in old(disk.names) && disk.names[own] == old(disk.names)[own])
    // published: the own path names a new, closed, migrated database with every connection disabled
    ensures published ==>
              && disk.names[own] !in old(disk.files) && disk.names[own] !in disk.rivals
              && disk.files[disk.names[own]] == Ready(Source(old(disk.names), old(disk.files), release, fromRelease))
              && disk.files[disk.names[own]].migrated
              && forall c | c in disk.files[disk.names[own]].connections :: !c.enabled
    // with the connections of the release database if it was asked for, else with none
    ensures published && fromRelease ==>
              && release in old(disk.names)
              && |disk.files[disk.names[own]].connections| == |old(disk.files)[old(disk.names)[release]].connections|
    ensures published && !fromRelease ==> disk.files[disk.names[own]].connections == []
    // and it is published exactly when no call fails and no rival holds the path when it is linked
    ensures published <==>
              && own !in old(disk.names) && own != release && !faults.stat && !faults.createTemp
              && Preparable(old(disk.names), old(disk.files), release, fromRelease, faults) && !faults.link
              && !Held(Held(Held(false, rival(0)), rival(1)), rival(2))
    // an error after publication means exactly that a temporary file stayed
    ensures result == None ==> published
    ensures published ==>
              (result == None <==> forall n | n in DatabaseFiles(TemporaryPath(own, suffix)) :: n !in disk.names)
    ensures forall n | n in DatabaseFiles(TemporaryPath(own, suffix)) && n in disk.names :: n in faults.remove
  {
    published := false;
    var tmp := TemporaryPath(own, suffix);
    if own == release {
      return Some(Internal), false;
    }
    if own in disk.names || faults.stat {
      return Some(Internal), false;
    }
    disk.RivalActs(own, rival(0));
    OwnIsNotTemporary(own, suffix);
    if faults.createTemp {
      return Some(Internal), false;
    }
    result, published := CreateAndPublish(
      disk, tmp, tmp + "-wal", DatabaseFiles(tmp), own, release, fromRelease, faults, rival);
  }
}
