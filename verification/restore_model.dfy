/** The files a restore replaces, who may own them, and what can be undone. */
module RestoreModel {

  datatype Name = Config | Db | Key | Wal | Shm

  /** `stamps` stands for the times and extended attributes, `content` for the bytes. */
  datatype FileState = FileState(content: int, uid: int, gid: int, mode: int, stamps: int)

  datatype Identities = Identities(runtime: int, web: int, shared: int)

  type Disk = map<Name, FileState>

  /** The order of `file_set`: the three targets, then the sidecars that exist. */
  const ORDER := [Config, Db, Key, Wal, Shm]
  const TARGETS := {Config, Db, Key}

  const ROOT := 0

  /** Owner, group and mode each target must have. */
  function Metadata(ids: Identities, name: Name): (int, int, int)
    requires name in TARGETS
  {
    match name
    case Config => (ROOT, ids.shared, 0x1A0)
    case Db => (ids.runtime, ids.shared, 0x1B0)
    case Key => (ids.web, ids.shared, 0x180)
  }

  /** `current`: a target has its own metadata, a sidecar any owner but group and mode of the database. */
  predicate Readable(ids: Identities, name: Name, f: FileState) {
    if name in TARGETS then (f.uid, f.gid, f.mode) == Metadata(ids, name)
    else f.gid == ids.shared && f.mode == 0x1B0
  }

  /** `file_set`: only the services own sidecars, and root where validation may have made them. */
  predicate Owned(ids: Identities, disk: Disk, generated: bool) {
    forall name :: name in disk && name !in TARGETS ==>
      disk[name].uid in {ids.runtime, ids.web} || (generated && disk[name].uid == ROOT)
  }

  /** Sidecars rollback can take away. */
  predicate Removable(ids: Identities, disk: Disk) {
    Owned(ids, disk, true) && forall name :: name in disk && name !in TARGETS ==> Readable(ids, name, disk[name])
  }

  /** What a capture of a whole file set looks like. */
  predicate Capturable(ids: Identities, disk: Disk) {
    && (forall name :: name in TARGETS ==> name in disk)
    && (forall name :: name in disk ==> Readable(ids, name, disk[name]))
    && Owned(ids, disk, false)
  }

  /** The saved copies match the recorded identities. */
  predicate Saved(copies: map<Name, int>, captured: Disk) {
    copies.Keys == captured.Keys && forall name :: name in captured ==> copies[name] == captured[name].content
  }

  /**
    Whether a handled signal is delivered while a failure is being handled: after the inner handler is
    entered and before it marks the failure as its own, after that and before signals are masked,
    after the outer handler is entered and before signals are masked, or once they are unmasked again.
  */
  datatype Signals = Signals(beforeMark: bool, beforeMask: bool, outer: bool, afterMask: bool)

  /** The failure reaches no rollback: the handler that was to do it is interrupted before masking signals. */
  predicate Escapes(inner: bool, s: Signals) {
    if inner && !s.beforeMark then s.beforeMask else s.outer
  }

  lemma OrderCovers(name: Name)
    ensures exists j :: 0 <= j < 5 && ORDER[j] == name && (name in TARGETS <==> j < 3)
  {
    assert ORDER[0] == Config && ORDER[1] == Db && ORDER[2] == Key && ORDER[3] == Wal && ORDER[4] == Shm;
  }

  lemma OnlyTargetsRemain(disk: Disk)
    ensures (disk - {Wal, Shm}).Keys <= TARGETS
  {
    forall name | name in disk - {Wal, Shm} ensures name in TARGETS { OrderCovers(name); }
  }

  /** Over the fields: a restore starts from exactly the installed layout, with sidecars of the services alone. */
  lemma CapturableIsInstalled(ids: Identities, disk: Disk)
    ensures Capturable(ids, disk) <==>
            && Config in disk && Db in disk && Key in disk
            && Held(disk[Config], {ROOT}, ids.shared, 0x1A0) && Held(disk[Db], {ids.runtime}, ids.shared, 0x1B0)
            && Held(disk[Key], {ids.web}, ids.shared, 0x180)
            && (Wal in disk ==> Held(disk[Wal], {ids.runtime, ids.web}, ids.shared, 0x1B0))
            && (Shm in disk ==> Held(disk[Shm], {ids.runtime, ids.web}, ids.shared, 0x1B0))
  {
    forall name | name in disk ensures name in {Config, Db, Key, Wal, Shm} { OrderCovers(name); }
  }

  predicate Held(f: FileState, owners: set<int>, gid: int, mode: int) {
    f.uid in owners && f.gid == gid && f.mode == mode
  }

  /** Sidecars that root made while validating can be taken away as well, and no others. */
  lemma RemovableIsOurs(ids: Identities, disk: Disk)
    ensures Removable(ids, disk) <==>
            && (Wal in disk ==> Held(disk[Wal], {ids.runtime, ids.web, ROOT}, ids.shared, 0x1B0))
            && (Shm in disk ==> Held(disk[Shm], {ids.runtime, ids.web, ROOT}, ids.shared, 0x1B0))
  {
    forall name | name in disk ensures name in {Config, Db, Key, Wal, Shm} { OrderCovers(name); }
  }

  lemma CapturableIsRemovable(ids: Identities, disk: Disk)
    requires Capturable(ids, disk)
    ensures Removable(ids, disk)
  {
  }

  lemma PutKeepsRemovable(ids: Identities, disk: Disk, name: Name, f: FileState)
    requires Removable(ids, disk)
    requires name in TARGETS || (f.uid in {ids.runtime, ids.web, ROOT} && Readable(ids, name, f))
    ensures Removable(ids, disk[name := f])
  {
  }
}
