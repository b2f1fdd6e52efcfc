/**
  The restore transaction. Every step may raise, including an interrupt between any two of them, and
  so may the handlers of a failure until they have masked signals; unlinking a name and moving a
  finished file onto a name are atomic.
*/
module RestoreRun {
  import opened Basics
  import opened RestoreModel

  /** What a run comes to; `Unhandled` is a failure whose handler was interrupted before it did anything. */
  datatype Result = Complete | ActivationFailed | FailedStopped | RolledBack | ManualRecovery | Refused | Unhandled

  class Restore {
    const ids: Identities
    const candidate: map<Name, int>  // the verified archive's members
    var disk: Disk
    var running: bool                // whether services may be running
    ghost var halted: bool           // whether the last attempt to stop them was seen to succeed
    var copies: Option<map<Name, int>>  // the rollback directory
    var captured: Disk
    var changed: bool
    var committed: bool
    var preserve: bool
    ghost var baseline: Disk         // the files as the services left them
    ghost var writes: nat            // unlinks, replacements and validation runs of this transaction
    ghost var examined: int          // the database content validation began from
    ghost var delivered: Disk        // the files when the transaction committed
    ghost var spent: nat             // the writes made until then

    /** The rollback directory holds exactly what the services left. */
    ghost predicate Intact()
      reads this
    {
      Capturable(ids, baseline) && captured == baseline && copies.Some? && Saved(copies.value, captured)
    }

    /** The archive's members are in place; the catalog in the database was invalidated on the way. */
    ghost predicate Delivered(files: Disk)
      reads this
    {
      && candidate.Keys == TARGETS && TARGETS <= files.Keys && examined == candidate[Db]
      && files[Config].content == candidate[Config] && files[Key].content == candidate[Key]
      && Readable(ids, Config, files[Config]) && Readable(ids, Key, files[Key]) && Readable(ids, Db, files[Db])
    }

    /** The archive's members and nothing else. */
    ghost predicate Installed(files: Disk)
      reads this
    {
      && candidate.Keys == files.Keys == TARGETS
      && (forall name :: name in TARGETS ==> Readable(ids, name, files[name]) && files[name].content == candidate[name])
    }

    ghost predicate Valid()
      reads this
    {
      && candidate.Keys == TARGETS
      && (!changed ==> writes == 0 && !committed && !preserve)
      && (changed && !committed ==> Intact() && Removable(ids, disk) && !running)
      && (committed ==> changed && !preserve && Delivered(delivered) && writes == spent)
    }

    constructor (ids: Identities, candidate: map<Name, int>, disk: Disk)
      requires candidate.Keys == TARGETS
      ensures Valid() && this.ids == ids && this.candidate == candidate && this.disk == disk && !changed && copies.None?
    {
      this.ids, this.candidate, this.disk := ids, candidate, disk;
      running, copies, captured, halted := true, None, map[], false;
      changed, committed, preserve := false, false, false;
      baseline, writes, examined, delivered, spent := map[], 0, 0, map[], 0;
    }

    method Fault(calm: bool) returns (fault: bool)
      ensures calm ==> !fault
    {
      fault := *;
      fault := fault && !calm;
    }

    /** `restore_host.stop`: until it succeeds, running services may still write their files. */
    method StopServices(calm: bool) returns (ok: bool)
      modifies this`disk, this`running, this`halted
      ensures halted == ok && (if ok then !running else running == old(running))
      ensures !old(running) ==> !running && disk == old(disk)
      ensures calm ==> ok && disk == old(disk)
    {
      if running && !calm {
        disk := *;
      }
      var fault := Fault(calm);
      ok := !fault;
      halted := ok;
      if ok {
        running := false;
      }
    }

    // ------------------------------------------------------------------ file steps

    method Unlink(name: Name)
      modifies this`disk, this`writes
      ensures disk == old(disk) - {name} && writes == old(writes) + 1
    {
      disk := disk - {name};
      writes := writes + 1;
    }

    /**
      `replace`: copy beside the target, check size and digest, then move it into place at once. Without
      a rollback record the times are whatever they are.
    */
    method ReplaceFile(name: Name, metadata: (int, int, int), source: int, expected: int, stamps: Option<int>,
      calm: bool)
      returns (ok: bool)
      modifies this`disk, this`writes
      ensures disk == old(disk) ||
              (source == expected && name in disk && disk == old(disk)[name := disk[name]]
               && disk[name] == FileState(expected, metadata.0, metadata.1, metadata.2, disk[name].stamps)
               && (stamps.Some? ==> disk[name].stamps == stamps.value))
      ensures ok ==> source == expected && name in disk && disk == old(disk)[name := disk[name]]
                     && disk[name] == FileState(expected, metadata.0, metadata.1, metadata.2, disk[name].stamps)
                     && (stamps.Some? ==> disk[name].stamps == stamps.value)
      ensures calm && source == expected ==> ok
      ensures writes >= old(writes) && (disk != old(disk) ==> writes > old(writes))
    {
      var torn := Fault(calm);
      if torn || source != expected { return false; }
      var now: int := *;
      disk := disk[name := FileState(source, metadata.0, metadata.1, metadata.2,
        if stamps.Some? then stamps.value else now)];
      writes := writes + 1;
      var late := Fault(calm);
      ok := !late;
    }

    /** `remove_sidecars`: with a capture, only what was captured may go. */
    method RemoveSidecars(strict: bool, generated: bool, calm: bool) returns (ok: bool)
      modifies this`disk, this`writes
      ensures writes >= old(writes) && (disk != old(disk) ==> writes > old(writes))
      ensures disk == old(disk) || disk == old(disk) - {Wal} || disk == old(disk) - {Wal, Shm}
                || disk == old(disk) - {Shm}
      ensures ok ==> disk == old(disk) - {Wal, Shm}
      ensures ok && strict ==> forall name :: name in old(disk) && name !in TARGETS ==>
                name in captured && captured[name] == old(disk)[name]
      ensures calm && !strict && generated ==> (ok <==> Removable(ids, old(disk)))
      ensures calm && old(disk) == captured && Capturable(ids, captured) ==> ok
    {
      if !Owned(ids, disk, generated) { return false; }
      for i := 3 to 5
        invariant writes >= old(writes) && (disk != old(disk) ==> writes > old(writes))
        invariant disk == old(disk) - (if i > 3 then {Wal} else {}) - (if i > 4 then {Shm} else {})
        invariant forall j :: 3 <= j < i && ORDER[j] in old(disk) ==> Readable(ids, ORDER[j], old(disk)[ORDER[j]])
        invariant strict ==> forall j :: 3 <= j < i && ORDER[j] in old(disk) ==>
                    ORDER[j] in captured && captured[ORDER[j]] == old(disk)[ORDER[j]]
      {
        var name := ORDER[i];
        if name in disk {
          if !Readable(ids, name, disk[name]) { return false; }
          if strict && !(name in captured && captured[name] == disk[name]) { return false; }
          var before := Fault(calm);
          if before { return false; }
          Unlink(name);
          var after := Fault(calm);
          if after { return false; }
        }
      }
      forall name | strict && name in old(disk) && name !in TARGETS
        ensures name in captured && captured[name] == old(disk)[name]
      {
        OrderCovers(name);
      }
      assert calm && !strict && generated ==> Removable(ids, old(disk)) by {
        forall name | name in old(disk) && name !in TARGETS ensures Readable(ids, name, old(disk)[name]) {
          OrderCovers(name);
        }
      }
      ok := true;
    }

    /** `capture_current`, with the services stopped. */
    method CaptureCurrent(calm: bool) returns (ok: bool)
      requires !running && copies.Some?
      modifies this`copies, this`captured
      ensures copies.Some?
      ensures ok ==> Capturable(ids, disk) && captured == disk && Saved(copies.value, captured)
      ensures calm && Capturable(ids, disk) ==> ok
    {
      copies := Some(map[]);
      if !Owned(ids, disk, false) { return false; }
      var result: Disk := map[];
      for i := 0 to 5
        invariant copies.Some? && Saved(copies.value, result)
        invariant forall name :: name in result <==> name in ORDER[..i] && name in disk
        invariant forall name :: name in result ==> result[name] == disk[name] && Readable(ids, name, disk[name])
        invariant forall j :: 0 <= j < i && j < 3 ==> ORDER[j] in disk
      {
        var name := ORDER[i];
        assert ORDER[..i + 1] == ORDER[..i] + [name];
        var fault := Fault(calm);
        if fault || (name !in disk && i < 3) { return false; }
        if name in disk {
          if !Readable(ids, name, disk[name]) { return false; }
          result := result[name := disk[name]];
          copies := Some(copies.value[name := disk[name].content]);
        }
      }
      assert ORDER[..5] == ORDER;
      forall name | name in disk ensures name in result { OrderCovers(name); }
      forall name | name in TARGETS ensures name in disk { OrderCovers(name); }
      assert result == disk;
      captured := result;
      ok := true;
    }

    /** The two loops of `replace` that change files: sidecars go, then each target is replaced. */
    method InstallMembers(calm: bool) returns (ok: bool)
      requires Valid() && changed && !committed
      modifies this`disk, this`writes
      ensures Valid()
      ensures ok ==> Installed(disk)
      ensures calm && old(disk) == baseline ==> ok
    {
      OnlyTargetsRemain(disk);
      ok := RemoveSidecars(true, false, calm);
      if !ok { return; }
      for i := 0 to 3
        invariant Valid()
        invariant disk.Keys <= TARGETS
        invariant forall j :: 0 <= j < i ==> ORDER[j] in disk && Readable(ids, ORDER[j], disk[ORDER[j]])
                                             && disk[ORDER[j]].content == candidate[ORDER[j]]
      {
        var name := ORDER[i];
        assert name in TARGETS;
        var staged: int := *;
        if calm { staged := candidate[name]; }
        ok := ReplaceFile(name, Metadata(ids, name), staged, candidate[name], None, calm);
        if !ok { return; }
      }
      forall name | name in TARGETS
        ensures name in disk && Readable(ids, name, disk[name]) && disk[name].content == candidate[name]
      {
        OrderCovers(name);
      }
    }

    /** SQLite opened by root may create sidecars, with the owner of the database or root's own. */
    method TouchSidecars()
      requires Removable(ids, disk)
      modifies this`disk
      ensures Removable(ids, disk)
      ensures forall name :: name in TARGETS ==>
                (name in disk <==> name in old(disk))
                && (name in disk ==> disk[name] == old(disk)[name])
    {
      for i := 3 to 5
        invariant Removable(ids, disk)
        invariant forall name :: name in TARGETS ==>
                  (name in disk <==> name in old(disk)) && (name in disk ==> disk[name] == old(disk)[name])
      {
        var f: FileState := *;
        if f.uid in {ids.runtime, ids.web, ROOT} && f.gid == ids.shared && f.mode == 0x1B0 {
          PutKeepsRemovable(ids, disk, ORDER[i], f);
          disk := disk[ORDER[i] := f];
        }
      }
    }

    /** `validate_data`: it reads the targets, invalidates the catalog, and may leave sidecars behind. */
    method ValidateData(calm: bool) returns (ok: bool)
      requires Removable(ids, disk) && Installed(disk)
      modifies this`disk, this`writes, this`examined
      ensures Removable(ids, disk) && Delivered(disk)
      ensures disk[Config] == old(disk)[Config] && disk[Key] == old(disk)[Key]
      ensures disk[Db] == old(disk)[Db].(content := disk[Db].content, stamps := disk[Db].stamps)
      ensures examined == old(disk)[Db].content && (calm ==> ok)
      ensures writes >= old(writes) && (disk != old(disk) ==> writes > old(writes))
    {
      examined := disk[Db].content;
      var refused := Fault(calm);
      if refused { return false; }
      writes := writes + 1;
      TouchSidecars();
      var content: int, stamps: int := *, *;
      var invalidated := disk[Db].(content := content, stamps := stamps);
      PutKeepsRemovable(ids, disk, Db, invalidated);
      disk := disk[Db := invalidated];
      var failed := Fault(calm);
      ok := !failed;
    }

    /** The first half of `replace`: nothing is changed before the capture is complete and still current. */
    method Prepare(calm: bool) returns (ok: bool)
      requires Valid() && !changed && copies.Some?
      modifies this`disk, this`running, this`halted, this`baseline, this`copies, this`captured
      ensures Valid()
      ensures ok ==> Intact() && Removable(ids, disk) && !running && disk == baseline
      ensures calm && Capturable(ids, old(disk)) ==> ok && disk == old(disk)
    {
      ok := StopServices(calm);
      if !ok { return; }
      baseline := disk;
      ok := CaptureCurrent(calm);
      if !ok { return; }
      var stale := Fault(calm);  // the candidate is revalidated, its staging directory opened
      if stale || disk != captured { return false; }
      CapturableIsRemovable(ids, disk);
    }

    /** `Transaction.replace`. */
    method Replace(calm: bool) returns (ok: bool)
      requires Valid() && !changed && copies.Some?
      modifies this
      ensures Valid() && (ok <==> committed) && !preserve
      ensures calm && Capturable(ids, old(disk)) ==> ok && baseline == old(disk)
    {
      ok := Prepare(calm);
      if ok {
        changed := true;
        ok := Apply(calm);
      }
    }

    /** The second half: replace, validate, commit. */
    method Apply(calm: bool) returns (ok: bool)
      requires Valid() && changed && !committed && !preserve
      modifies this`disk, this`writes, this`examined, this`committed, this`delivered, this`spent
      ensures Valid() && (ok <==> committed)
      ensures calm && old(disk) == baseline ==> ok
    {
      ok := InstallMembers(calm);
      if !ok { return; }
      ok := ValidateData(calm);
      if !ok { return; }
      var interrupted := Fault(calm);
      if interrupted { return false; }
      Commit();
    }

    method Commit()
      requires Delivered(disk) && changed && !preserve
      modifies this`committed, this`delivered, this`spent
      ensures Valid() && committed && delivered == disk
    {
      committed, delivered, spent := true, disk, writes;
    }

    /**
      `rollback`. Whatever it does, the rollback directory stays exact; success means the very files that
      were captured, absent ones included; and without a fault it succeeds exactly if the sidecars it
      finds are ones it may remove.
    */
    method Rollback(calm: bool) returns (ok: bool)
      requires Intact()
      modifies this`disk, this`writes
      ensures Intact() && (old(Removable(ids, disk)) ==> Removable(ids, disk))
      ensures ok ==> disk == baseline
      ensures calm ==> (ok <==> old(Removable(ids, disk)))
    {
      ok := RemoveSidecars(false, true, calm);
      if !ok { return; }
      for i := 0 to 5
        invariant Intact() && (old(Removable(ids, disk)) ==> Removable(ids, disk))
        invariant forall j :: 0 <= j < i && ORDER[j] in captured ==>
                  ORDER[j] in disk && disk[ORDER[j]] == captured[ORDER[j]]
        invariant forall j :: 3 <= j < 5 && ORDER[j] in disk ==> ORDER[j] in captured
      {
        var name := ORDER[i];
        if name in captured {
          var f := captured[name];
          ok := ReplaceFile(name, (f.uid, f.gid, f.mode), copies.value[name], f.content, Some(f.stamps), calm);
          if !ok { return; }
        }
      }
      forall name: Name ensures name in captured ==> name in disk && disk[name] == captured[name] { OrderCovers(name); }
      forall name: Name ensures name in disk ==> name in captured {
        OrderCovers(name);
      }
      assert disk == captured;
      var interrupted := Fault(calm);
      ok := !interrupted && Owned(ids, disk, false) && disk.Keys == captured.Keys
            && forall name :: name in captured ==> Readable(ids, name, disk[name]) && disk[name] == captured[name];
    }

    /** What a failure comes to when nothing stands in the way of its handling. */
    ghost function Settled(): Result
      reads this`changed, this`committed
    {
      if committed then ActivationFailed else if changed then RolledBack else FailedStopped
    }

    /** `Transaction.fail`: nothing is written once committed, nothing needs undoing before the first change. */
    method Fail(calm: bool) returns (r: Result)
      requires Valid() && !preserve
      modifies this`disk, this`running, this`halted, this`writes, this`preserve
      ensures Valid() && preserve == (r == ManualRecovery && changed)
      ensures committed <==> r == ActivationFailed
      ensures !changed ==> r in {FailedStopped, ManualRecovery}
      ensures r == FailedStopped ==> !changed && !running
      ensures r == RolledBack ==> changed && !committed && !running && disk == baseline
      ensures r in {ActivationFailed, FailedStopped, RolledBack, ManualRecovery}
      ensures calm ==> !running && r == Settled()
      ensures changed && !committed && !halted ==> r == ManualRecovery && writes == old(writes)
      ensures r in {FailedStopped, RolledBack} ==> halted
    {
      var stopped := StopServices(calm);
      if committed { return ActivationFailed; }
      if !changed { return if stopped then FailedStopped else ManualRecovery; }
      var ok := false;
      if stopped {
        ok := Rollback(calm);
      }
      if !ok {
        preserve := true;
        return ManualRecovery;
      }
      r := RolledBack;
    }

    /**
      The two handlers of `execute`. The inner one marks the failure as its own before it calls `fail`,
      so an interrupt from then until signals are masked passes both; an earlier one leaves the failure
      to the outer handler, which can be interrupted once more.
    */
    method HandleFailure(inner: bool, s: Signals, calm: bool) returns (r: Result)
      requires Valid() && !preserve
      modifies this`disk, this`running, this`halted, this`writes, this`preserve
      ensures Valid() && preserve == (r == ManualRecovery && changed)
      ensures r == Unhandled <==> Escapes(inner, s)
      ensures r == Unhandled ==> disk == old(disk) && running == old(running) && writes == old(writes)
      ensures r != Unhandled ==> (committed <==> r == ActivationFailed)
      ensures r in {FailedStopped, RolledBack, ManualRecovery, ActivationFailed, Unhandled}
      ensures r == FailedStopped ==> !changed && !running
      ensures !changed ==> r != RolledBack
      ensures r == RolledBack ==> changed && !running && disk == baseline
      ensures calm && !Escapes(inner, s) ==> !running && r == Settled()
    {
      r := Unhandled;
      var failureHandled := false;
      if inner && !s.beforeMark {
        failureHandled := true;
        if !s.beforeMask {
          r := Fail(calm);
        }
      }
      if !failureHandled && !s.outer {
        r := Fail(calm);
      }
    }

    /** The `finally` of `execute`; `uncertain` is a cleanup that failed. */
    method Clean(calm: bool) returns (uncertain: bool)
      modifies this`copies
      ensures preserve || uncertain ==> copies == old(copies)
      ensures !preserve && !uncertain ==> copies.None?
      ensures calm ==> !uncertain
    {
      uncertain := false;
      if !preserve {
        uncertain := Fault(calm);
        copies := if uncertain then copies else None;
      }
    }

    /**
      `execute`, for the signals delivered while a failure is handled. Once files changed and nothing
      was committed, the files are rolled back exactly or the rollback directory is preserved intact
      if and only if no handler was interrupted before it had masked signals. `told` says that the
      result reaches the caller. Without a fault before the failure there is none and the archive is
      installed (`calm`); without one behind it a failure is undone exactly (`calmRecovery`).
    */
    method Execute(s: Signals, calm: bool, calmRecovery: bool) returns (r: Result, told: bool, uncertain: bool)
      requires Valid() && !changed && copies.None?
      modifies this
      ensures committed ==> Delivered(delivered) && writes == spent
      ensures !changed ==> writes == 0
      ensures r in {Complete, ActivationFailed} ==> committed
      ensures r == Complete ==> running
      ensures committed ==> r in {Complete, ActivationFailed, Unhandled}
      ensures r in {FailedStopped, Refused} ==> !changed
      ensures r == FailedStopped ==> !running
      ensures r == RolledBack ==> changed && !committed && !running && disk == baseline
      ensures r == ManualRecovery && changed ==> preserve && Intact() && Removable(ids, disk) && !running
      ensures preserve <==> r == ManualRecovery && changed
      ensures changed && !committed ==> (r in {RolledBack, ManualRecovery} <==> !Escapes(true, s))
      ensures r !in {Complete, Refused} ==> (told <==> r != Unhandled && !s.afterMask)
      ensures r != Refused && !preserve && !uncertain ==> copies.None?
      ensures calm && Capturable(ids, old(disk)) ==> r == Complete && told && baseline == old(disk)
      ensures calmRecovery && changed && !committed && !Escapes(true, s) ==> r == RolledBack && disk == baseline
      ensures calmRecovery && !changed && !Escapes(true, s) ==> r in {FailedStopped, Refused}
      ensures calmRecovery ==> r != ManualRecovery && (r != Refused ==> !uncertain)
    {
      told, uncertain := true, false;
      var refused := Fault(calm);
      if refused { return Refused, true, false; }
      copies := Some(map[]);
      var unlocked := Fault(calm);
      if unlocked { return Refused, true, false; }
      var ok, inner := Attempt(calm);
      r := Complete;
      if !ok {
        r := HandleFailure(inner, s, calmRecovery);
        told := r != Unhandled && !s.afterMask;
      }
      uncertain := Clean(calmRecovery);
    }

    /** What the handlers stand around; `inner` says which of them a failure reaches first. */
    method Attempt(calm: bool) returns (ok: bool, inner: bool)
      requires Valid() && !changed && copies.Some?
      modifies this
      ensures Valid() && !preserve && (ok ==> committed) && (!committed ==> inner)
      ensures calm && Capturable(ids, old(disk)) ==> ok && baseline == old(disk)
      ensures ok ==> running
    {
      ok := Replace(calm);
      inner := !ok;
      if ok {
        ok, inner := Activate(calm);
      }
    }

    /** `activate_services` inside the inner handler, the timer behind it; from here on services write. */
    method Activate(calm: bool) returns (ok: bool, inner: bool)
      requires Valid() && committed
      modifies this`running, this`disk
      ensures Valid() && running && (calm ==> ok)
    {
      running := true;
      disk := *;
      inner := *;
      var fault := Fault(calm);
      ok := !fault;
    }

    /** A run up to the replacement of the configuration, without a fault so far. */
    method FirstReplacement()
      requires Valid() && !changed && Capturable(ids, disk)
      modifies this
      ensures Valid() && changed && !committed && !preserve && baseline == old(disk)
      ensures Config in disk && disk == (old(disk) - {Wal, Shm})[Config := disk[Config]]
      ensures disk[Config].content == candidate[Config]
    {
      copies := Some(map[]);
      var ok := Prepare(true);
      changed := true;
      ok := RemoveSidecars(true, false, true);
      ok := ReplaceFile(Config, Metadata(ids, Config), candidate[Config], candidate[Config], None, true);
    }

    /** What an operator is left with after a failed rollback: repeating it without a fault ends exactly. */
    method Recover() returns (ok: bool)
      requires Intact() && Removable(ids, disk)
      modifies this`disk, this`writes
      ensures ok && disk == baseline
    {
      ok := Rollback(true);
    }
  }

  /**
    The run that loses the rollback: the configuration is replaced, the next step fails, and a signal
    reaches the handler between its mark and the mask. The files stay half replaced and no copy of
    the replaced one is left.
  */
  method LosingRun(ids: Identities, candidate: map<Name, int>, files: Disk) returns (t: Restore, r: Result)
    requires candidate.Keys == TARGETS && Capturable(ids, files) && candidate[Config] != files[Config].content
    ensures r == Unhandled && t.changed && !t.committed && !t.preserve && t.copies.None?
    ensures t.baseline == files && t.disk != files && Config in t.disk && t.disk[Config].content == candidate[Config]
    ensures Db in t.disk && t.disk[Db] == files[Db] && Key in t.disk && t.disk[Key] == files[Key]
  {
    t := new Restore(ids, candidate, files);
    t.FirstReplacement();
    r := t.HandleFailure(true, Signals(false, true, false, false), false);
    var uncertain := t.Clean(true);
  }
}
