/**
  The updater itself, step by step. Every durable effect goes through `Durably`,
  which may raise or be killed before or after the effect, so a contract proved here
  holds for every interruption. `calm` says that nothing interrupts the current run.
*/
module UpdateRun {
  import opened Basics
  import opened UpdateModel

  /** How a step ended: normally, by an exception that handlers see, or with the process killed. */
  datatype Fate = Done | Raised | Killed {
    predicate IsFailure() { !Done? }
    function PropagateFailure(): Fate
      requires IsFailure()
    {
      this
    }
  }

  /** What a strictly verified recovery archive says about itself. */
  datatype Archive = Archive(version: string, schema: string)

  /** The archive of an update's gate: of the installed version, or made now while the database has its schema. */
  predicate Admissible(p: Plan, chosen: Option<Archive>, head: string) {
    if chosen.Some? then chosen.value == Archive(p.source.version, p.source.schema) else head == p.source.schema
  }

  /** An interrupted migration that got as far as the target schema, which needs no archive any more. */
  predicate Migrated(p: Plan, d: Disk) {
    Phased(d, Migrating) && d.head == p.target.schema != p.source.schema
  }

  /**
    The gate over a stretch of a run: without an admissible archive no database is upgraded, no update
    is begun, and none is committed that was not already migrated.
  */
  ghost predicate Gated(p: Plan, chosen: Option<Archive>, d: Disk, e: Disk)
    requires p.Valid()
  {
    CommittedOrLater(p, d) || Admissible(p, chosen, d.head)
    || (e.head == d.head && (d.phase.None? ==> e.phase.None?) && (CommittedOrLater(p, e) ==> Migrated(p, d)))
  }

  /** Behind a commit, and where neither head nor phase move, the gate has nothing more to say. */
  lemma GatedStays(p: Plan, chosen: Option<Archive>, d: Disk, e: Disk, f: Disk)
    requires p.Valid() && Gated(p, chosen, d, e)
    requires (CommittedOrLater(p, e) && CommittedOrLater(p, f))
             || (f.head == e.head && f.phase == e.phase && (CommittedOrLater(p, f) ==> CommittedOrLater(p, e)))
    requires Safe(p, d) && Safe(p, e)
    ensures Gated(p, chosen, d, f)
  {
  }

  /**
    What a retirement has attempted, where a committed run failed, an interrupt that struck between
    two protected steps, and a phase file that could not be read back.
  */
  datatype Attempt = Stopping(unit: Unit) | Disabling(unit: Unit) | Trouble | Stray | Unread

  /** Every unit in the order it is retired. */
  const RETIREMENT := [
    Stopping(Timer), Disabling(Timer), Stopping(Backup),
    Stopping(Web), Disabling(Web), Stopping(Runtime), Disabling(Runtime), Stopping(Graphics), Disabling(Graphics)]

  /** Every unit attempted in order, or as many as an interrupt between two of them allowed. */
  predicate Retirement(done: seq<Attempt>) {
    done == RETIREMENT
    || (done != [] && done[|done| - 1] == Stray && done[..|done| - 1] <= RETIREMENT)
  }

  /** What the handler of a committed failure did: a retirement, or nothing for want of the phase file. */
  predicate Handled(done: seq<Attempt>) {
    done == [Unread] || Retirement(done)
  }

  /** A retirement is complete exactly when no such interrupt struck. */
  lemma RetirementIsWhole(done: seq<Attempt>)
    requires Retirement(done)
    ensures done == RETIREMENT <==> Stray !in done
  {
    if done != RETIREMENT {
      assert done[|done| - 1] in done;
    }
  }

  class Updater {
    const plan: Plan
    var disk: Disk
    var calm: bool
    // Volatile: lost when the process ends.
    var locked: bool
    var archive: Option<Archive>
    // History.
    ghost var attempted: seq<Attempt>
    ghost var restoreFailed: bool  // a phase file already gone could not be read or written back
    ghost var discards: nat        // how often a staged target was discarded, or that was tried
    // Units that a retirement stopped or disabled on a finished disk, and that no boot started again.
    ghost var stopped: set<Unit>
    ghost var disabled: set<Unit>

    constructor (plan: Plan, disk: Disk)
      requires plan.Valid() && Safe(plan, disk) && (Finished(plan, disk) ==> Up(disk))
      ensures Valid() && this.plan == plan && this.disk == disk && !locked && !restoreFailed && !calm
      ensures attempted == [] && stopped == disabled == {}
    {
      this.plan, this.disk, calm, locked, archive := plan, disk, false, false, None;
      attempted, restoreFailed, stopped, disabled, discards := [], false, {}, {}, 0;
    }

    /**
      On a finished disk exactly the units are down that a retirement took down there, and that
      happens only once a phase file could not be restored.
    */
    ghost predicate Standing(d: Disk)
      reads this`restoreFailed, this`stopped, this`disabled
    {
      && (if Finished(plan, d) then EVERYDAY - d.active == stopped && EVERYDAY - d.enabled == disabled
          else stopped == {} && disabled == {})
      && (stopped != {} || disabled != {} ==> restoreFailed)
    }

    /** Units may be retired: a phase file says so, or restoring it has failed. */
    ghost predicate Retirable()
      reads this
    {
      disk.phase.Some? || (Finished(plan, disk) && restoreFailed)
    }

    ghost predicate Valid()
      reads this
    {
      plan.Valid() && Safe(plan, disk) && Standing(disk)
    }

    /** What every step promises however it ends. */
    twostate predicate Kept()
      reads this
    {
      Valid() && old(Valid()) && Forward(plan, old(disk), disk) && calm == old(calm) && locked == old(locked)
    }

    function GateArchive(): Archive {
      Archive(plan.source.version, plan.source.schema)
    }

    // ------------------------------------------------------------------ one step

    method Chance() returns (f: Fate)
      ensures calm ==> f.Done?
    {
      f := Done;
      if !calm {
        if * { f := Raised; } else if * { f := Killed; }
      }
    }

    method Durably(next: Disk) returns (f: Fate)
      requires Valid() && Safe(plan, next) && Forward(plan, disk, next) && Standing(next)
      modifies this`disk
      ensures Kept() && (calm ==> f.Done?)
      ensures disk == old(disk) || disk == next
      ensures f.Done? ==> disk == next
    {
      f := Done;
      :- Chance();
      disk := next;
      f := Chance();
    }

    /** What a retirement may do without a phase file is on record. */
    method Retire(next: Disk) returns (f: Fate)
      requires Valid() && Retirable() && Safe(plan, next) && Forward(plan, disk, next)
      requires next == disk.(active := next.active, enabled := next.enabled)
      requires next.active <= disk.active && next.enabled <= disk.enabled
      modifies this`disk, this`stopped, this`disabled
      ensures Kept() && (calm ==> f.Done?)
      ensures disk == old(disk) || disk == next
      ensures f.Done? ==> disk == next
      ensures stopped == old(stopped) + if disk.phase.None? then EVERYDAY * (old(disk).active - disk.active) else {}
      ensures disabled == old(disabled) + if disk.phase.None? then EVERYDAY * (old(disk).enabled - disk.enabled) else {}
    {
      f := Done;
      var before := Chance();
      if !before.Done? { return before; }
      if disk.phase.None? {
        stopped := stopped + EVERYDAY * (disk.active - next.active);
        disabled := disabled + EVERYDAY * (disk.enabled - next.enabled);
      }
      disk := next;
      f := Chance();
    }

    /** `state_files.write`: scratch, then atomic replacement. */
    method WriteState(record: Record) returns (f: Fate)
      requires Valid()
      requires Safe(plan, disk.(phase := Some(record))) && Forward(plan, disk, disk.(phase := Some(record)))
      requires Finished(plan, disk) ==> Up(disk)
      modifies this`disk
      ensures Kept() && (calm ==> f.Done?)
      ensures f.Done? ==> disk == old(disk).(phase := Some(record), stateScratch := false)
      ensures disk == old(disk).(phase := disk.phase, stateScratch := disk.stateScratch)
      ensures disk.phase == old(disk).phase || disk.phase == Some(record)
    {
      f := Done;
      :- CleanScratch();
      ScratchOnly(plan, disk, true);
      :- Durably(disk.(stateScratch := true));
      f := Durably(disk.(phase := Some(record), stateScratch := false));
    }

    method CleanScratch() returns (f: Fate)
      requires Valid()
      modifies this`disk
      ensures Kept() && (calm ==> f.Done?)
      ensures f.Done? ==> !disk.stateScratch
      ensures disk == old(disk).(stateScratch := disk.stateScratch)
    {
      if disk.stateScratch {
        ScratchOnly(plan, disk, false);
        f := Durably(disk.(stateScratch := false));
      } else {
        f := Chance();
      }
    }

    // -------------------------------------------------------------- gated effects

    /** `db upgrade`. The preconditions are the gate: no run can reach this step without them. */
    method Upgrade() returns (f: Fate)
      requires Valid()
      requires locked && Quiet(disk) && Phased(disk, Migrating)
      requires disk.head == plan.source.schema
      requires archive == Some(GateArchive())
      modifies this`disk
      ensures Kept() && (calm ==> f.Done?)
      ensures disk == old(disk) || disk == old(disk).(head := plan.target.schema)
      ensures f.Done? ==> disk.head == plan.target.schema
    {
      f := Durably(disk.(head := plan.target.schema));
    }

    /** `os.replace` of an asset's sibling over the asset: never under a running or startable unit. */
    method SwitchAsset(i: nat) returns (f: Fate)
      requires Valid() && AfterCommit(plan, disk)
      requires locked && Quiet(disk)
      requires i < |disk.assets| && disk.pending[i].Some? && disk.assets[i] != plan.newAssets[i]
      modifies this`disk
      ensures Kept() && (calm ==> f.Done?)
      ensures disk == old(disk)
           || disk == old(disk).(assets := old(disk).assets[i := plan.newAssets[i]],
                                 pending := old(disk).pending[i := None])
      ensures f.Done? ==> disk.assets[i] == plan.newAssets[i]
    {
      var next := disk.(assets := disk.assets[i := disk.pending[i].value], pending := disk.pending[i := None]);
      f := Durably(next);
    }

    /** `os.replace` of the active symlink: only onto fully converged, reloaded assets. */
    method SwitchLink() returns (f: Fate)
      requires Valid() && AfterCommit(plan, disk)
      requires locked && Quiet(disk)
      requires disk.linkPending.Some? && disk.assets == disk.loaded == plan.newAssets
      modifies this`disk
      ensures Kept() && (calm ==> f.Done?)
      ensures disk == old(disk) || disk == old(disk).(link := plan.target.version, linkPending := None)
      ensures f.Done? ==> disk.link == plan.target.version
    {
      f := Durably(disk.(link := disk.linkPending.value, linkPending := None));
    }

    /** `systemctl enable`: a unit becomes startable only once it means the target. */
    method Enable(unit: Unit) returns (f: Fate)
      requires Valid() && AfterCommit(plan, disk) && disk.link == plan.target.version && unit != Backup
      modifies this`disk
      ensures Kept() && (calm ==> f.Done?)
      ensures disk == old(disk) || disk == old(disk).(enabled := old(disk).enabled + {unit})
      ensures f.Done? ==> unit in disk.enabled
    {
      MoreUnits(plan, disk, disk.active, disk.enabled + {unit});
      f := Durably(disk.(enabled := disk.enabled + {unit}));
    }

    method Start(unit: Unit) returns (f: Fate)
      requires Valid() && AfterCommit(plan, disk) && disk.link == plan.target.version
      modifies this`disk
      ensures Kept() && (calm ==> f.Done?)
      ensures disk == old(disk) || disk == old(disk).(active := old(disk).active + {unit})
      ensures f.Done? ==> unit in disk.active
    {
      MoreUnits(plan, disk, disk.active + {unit}, disk.enabled);
      f := Durably(disk.(active := disk.active + {unit}));
    }

    predicate Serving(d: Disk) {
      forall j :: 0 <= j < |SERVICES| ==> SERVICES[j] in d.active && SERVICES[j] in d.enabled
    }

    /**
      `rmtree` of the old release, only once every service runs and would start again behind the switched
      link: a kill may leave it partly deleted.
    */
    method RemoveOld() returns (f: Fate)
      requires Valid() && AfterCommit(plan, disk)
      requires locked && disk.link == plan.target.version && Serving(disk)
      requires plan.source.version in disk.releases
      modifies this`disk
      ensures Kept() && (calm ==> f.Done?)
      ensures disk == old(disk).(releases := disk.releases)
      ensures f.Done? ==> disk.releases == old(disk).releases - {plan.source.version}
    {
      f := Done;
      :- Durably(disk.(releases := disk.releases[plan.source.version := Torn]));
      f := Durably(disk.(releases := disk.releases - {plan.source.version}));
      assert old(disk).releases[plan.source.version := Torn] - {plan.source.version}
          == old(disk).releases - {plan.source.version};
    }

    // ------------------------------------------------------------------ quiescence

    method Stop(unit: Unit) returns (f: Fate)
      requires Valid() && Retirable()
      modifies this`disk, this`attempted, this`stopped, this`disabled
      ensures Kept() && (calm ==> f.Done?) && attempted == old(attempted) + [Stopping(unit)]
      ensures disk == old(disk) || disk == old(disk).(active := old(disk).active - {unit})
      ensures f.Done? ==> unit !in disk.active
    {
      attempted := attempted + [Stopping(unit)];
      FewerUnits(plan, disk, disk.active - {unit}, disk.enabled);
      f := Retire(disk.(active := disk.active - {unit}));
    }

    method Disable(unit: Unit) returns (f: Fate)
      requires Valid() && Retirable()
      modifies this`disk, this`attempted, this`stopped, this`disabled
      ensures Kept() && (calm ==> f.Done?) && attempted == old(attempted) + [Disabling(unit)]
      ensures disk == old(disk) || disk == old(disk).(enabled := old(disk).enabled - {unit})
      ensures f.Done? ==> unit !in disk.enabled
    {
      attempted := attempted + [Disabling(unit)];
      FewerUnits(plan, disk, disk.active, disk.enabled - {unit});
      f := Retire(disk.(enabled := disk.enabled - {unit}));
    }

    /** One action of the loop of `quiesce`. */
    method Perform(a: Attempt) returns (f: Fate)
      requires Valid() && Retirable() && (a.Stopping? || a.Disabling?)
      modifies this`disk, this`attempted, this`stopped, this`disabled
      ensures Kept() && (calm ==> f.Done?) && attempted == old(attempted) + [a]
      ensures f.Done? ==> Gone(disk, a)
      ensures disk == old(disk).(active := disk.active, enabled := disk.enabled)
      ensures disk.active <= old(disk).active && disk.enabled <= old(disk).enabled
    {
      if a.Stopping? {
        f := Stop(a.unit);
      } else {
        f := Disable(a.unit);
      }
    }

    predicate Gone(d: Disk, a: Attempt) {
      match a
      case Stopping(unit) => unit !in d.active
      case Disabling(unit) => unit !in d.enabled
      case _ => true
    }

    /** An interrupt that strikes where nothing catches it. */
    method Interrupted() returns (hit: bool)
      modifies this`attempted
      ensures calm ==> !hit
      ensures attempted == old(attempted) + if hit then [Stray] else []
    {
      hit := false;
      if !calm {
        if * {
          hit := true;
          Interrupt();
        }
      }
    }

    ghost method Interrupt()
      modifies this`attempted
      ensures attempted == old(attempted) + [Stray]
    {
      attempted := attempted + [Stray];
    }

    /**
      Retire every unit even after a failure, then prove it. Success means that nothing runs and
      nothing would start. Unless the process is killed, or an interrupt strikes between two
      attempts, every unit has been attempted in order, even when an earlier one failed; and units
      are only ever retired here.
    */
    method Quiesce() returns (f: Fate)
      requires Valid() && Retirable()
      modifies this`disk, this`attempted, this`stopped, this`disabled
      ensures Kept() && (calm ==> f.Done?)
      ensures old(attempted) <= attempted && (!f.Killed? ==> Retirement(attempted[|old(attempted)|..]))
      ensures f.Done? ==> Quiet(disk) && attempted == old(attempted) + RETIREMENT
      ensures disk == old(disk).(active := disk.active, enabled := disk.enabled)
      ensures disk.active <= old(disk).active && disk.enabled <= old(disk).enabled
    {
      var failed;
      f, failed := RetireAll();
      FewerUnits(plan, old(disk), disk.active, disk.enabled);
      if !f.Done? { return; }
      f := Chance();
      if !f.Killed? && (failed || disk.active != {} || disk.enabled != {}) {
        f := Raised;
      }
    }

    /** The loop over the actions; `Raised` here is an interrupt between two of them. */
    method RetireAll() returns (f: Fate, failed: bool)
      requires Valid() && Retirable()
      modifies this`disk, this`attempted, this`stopped, this`disabled
      ensures Valid() && (calm ==> f.Done? && !failed)
      ensures old(attempted) <= attempted && (!f.Killed? ==> Retirement(attempted[|old(attempted)|..]))
      ensures f.Done? ==> attempted == old(attempted) + RETIREMENT
      ensures f.Done? && !failed ==> Quiet(disk)
      ensures disk == old(disk).(active := disk.active, enabled := disk.enabled)
      ensures disk.active <= old(disk).active && disk.enabled <= old(disk).enabled
    {
      failed := false;
      for i := 0 to |RETIREMENT|
        invariant Valid() && (calm ==> !failed)
        invariant attempted == old(attempted) + RETIREMENT[..i]
        invariant disk == old(disk).(active := disk.active, enabled := disk.enabled)
        invariant disk.active <= old(disk).active && disk.enabled <= old(disk).enabled
        invariant !failed ==> forall j :: 0 <= j < i ==> Gone(disk, RETIREMENT[j])
      {
        var hit := Interrupted();
        if hit {
          CutShort(old(attempted), i);
          return Raised, failed;
        }
        ghost var before := disk;
        f := Perform(RETIREMENT[i]);
        if f.Killed? { return; }
        failed := failed || f.Raised?;
        AttemptNext(old(attempted), i);
        StillGone(before, disk, i);
      }
      f := Done;
      assert RETIREMENT[..|RETIREMENT|] == RETIREMENT;
      if !failed {
        AllGone(disk);
      }
    }

    lemma CutShort(before: seq<Attempt>, i: nat)
      requires i < |RETIREMENT|
      ensures Retirement((before + RETIREMENT[..i] + [Stray])[|before|..])
    {
      assert (before + RETIREMENT[..i] + [Stray])[|before|..] == RETIREMENT[..i] + [Stray];
    }

    lemma StillGone(d: Disk, e: Disk, i: nat)
      requires i <= |RETIREMENT| && e.active <= d.active && e.enabled <= d.enabled
      ensures forall j :: 0 <= j < i && Gone(d, RETIREMENT[j]) ==> Gone(e, RETIREMENT[j])
    {
    }

    lemma AttemptNext(before: seq<Attempt>, i: nat)
      requires i < |RETIREMENT|
      ensures before + RETIREMENT[..i] + [RETIREMENT[i]] == before + RETIREMENT[..i + 1]
    {
    }

    lemma AllGone(d: Disk)
      requires forall j :: 0 <= j < |RETIREMENT| ==> Gone(d, RETIREMENT[j])
      requires Backup !in d.enabled
      ensures Quiet(d)
    {
      assert Gone(d, RETIREMENT[0]) && Gone(d, RETIREMENT[1]) && Gone(d, RETIREMENT[2]);
      assert Gone(d, RETIREMENT[3]) && Gone(d, RETIREMENT[4]) && Gone(d, RETIREMENT[5]);
      assert Gone(d, RETIREMENT[6]) && Gone(d, RETIREMENT[7]) && Gone(d, RETIREMENT[8]);
      forall u: Unit ensures u !in d.active && u !in d.enabled {
        match u case Graphics => case Runtime => case Web => case Backup => case Timer =>
      }
    }

    // ------------------------------------------------------------- staging (phase none)

    /** `discard_target`: only this exact staged target, only without a phase. */
    method DiscardTarget() returns (f: Fate)
      requires Valid()
      modifies this`disk, this`discards
      ensures Kept() && discards == old(discards) + 1
      ensures disk == old(disk) || (old(disk).phase.None? && old(disk).link == plan.source.version
                                    && disk == old(disk).(releases := old(disk).releases - {plan.target.version}))
      ensures f.Done? ==> plan.target.version !in disk.releases
      ensures calm && disk.phase.None? && old(disk).link == plan.source.version
                && plan.target.version in old(disk).releases ==>
                f.Done?
    {
      discards := discards + 1;
      if disk.link != plan.source.version || disk.phase.Some?
         || disk.releases.Keys != {plan.source.version, plan.target.version} || !ValidResidue(plan, disk)
      {
        return Raised;
      }
      f := Durably(disk.(releases := disk.releases - {plan.target.version}));
    }

    /** `stage_payload` and the checks behind it: wheel, requirements, then the environment. */
    method Stage() returns (f: Fate)
      requires Valid() && RecognizesCurrent(plan, disk) && disk.phase.None?
      requires plan.target.version !in disk.releases
      modifies this`disk
      ensures Kept() && (calm ==> f.Done?)
      ensures disk == old(disk).(releases := disk.releases)
      ensures f.Done? ==> disk.releases == old(disk).releases[plan.target.version := Complete(plan.target)]
    {
      var n := 0;
      while n <= 3
        invariant 0 <= n <= 4
        invariant Kept()
        invariant disk == old(disk).(releases := disk.releases)
        invariant disk.releases == if n == 0 then old(disk).releases
                                   else old(disk).releases[plan.target.version := Residue(n - 1)]
      {
        :- Durably(disk.(releases := disk.releases[plan.target.version := Residue(n)]));
        n := n + 1;
      }
      :- Durably(disk.(releases := disk.releases[plan.target.version := Complete(plan.target)]));
      f := Chance();
    }

    /** `prepare_target`: recognise, then stage or accept what an earlier run staged; writes no phase. */
    method PrepareTarget() returns (f: Fate, initial: Option<Record>)
      requires Valid()
      modifies this`disk, this`discards
      ensures Kept()
      ensures calm && (disk.phase.Some? || old(disk).link == plan.source.version) ==> f.Done?
      ensures initial == disk.phase == old(disk).phase
      ensures disk == old(disk).(releases := disk.releases, stateScratch := disk.stateScratch)
      ensures disk.phase.Some? ==> disk.releases == old(disk).releases
      ensures f.Done? ==> StoredRelease(disk, plan.target.version) == Some(plan.target) && disk.link == old(disk).link
      ensures f.Done? && disk.phase.None? ==> disk.link == plan.source.version
      ensures Finished(plan, old(disk)) ==> !f.Done? && disk == old(disk)
      ensures CommittedOrLater(plan, disk) ==> disk == old(disk)
      ensures f.Done? && !Phased(disk, Committed) ==> !disk.stateScratch
      ensures f.Raised? && disk.releases != old(disk).releases && plan.target.version in disk.releases ==>
                old(discards) < discards
    {
      SafeIsRecognized(plan, disk);
      initial := disk.phase;
      f := Chance();
      if !f.Done? { return; }
      if Phased(disk, Committed) {
        f := if RecognizesCommitted(plan, disk).Some? then Done else Raised;
        return;
      }
      if !RecognizesCurrent(plan, disk) {
        return Raised, initial;
      }
      f := Chance();  // preflight, forward schema
      if !f.Done? { return; }
      f := CleanScratch();
      if !f.Done? { return; }
      if initial.Some? {
        f := Chance();  // newer version
        return;
      }
      if plan.target.version in disk.releases {
        f := DiscardTarget();
        if !f.Done? { return; }
      }
      f := Stage();
      if f.Raised? && plan.target.version in disk.releases {
        var cleanup := DiscardTarget();
        if cleanup.Killed? { f := Killed; }
      }
    }

    // -------------------------------------------------------------------- transaction

    /** `Recovery.select`: create or take an archive, and strictly verify it against the source release. */
    method Select(chosen: Option<Archive>) returns (f: Fate)
      requires Valid() && locked && (Phased(disk, Migrating) ==> Quiet(disk))
      modifies this`archive
      ensures f.Done? ==> archive == Some(GateArchive()) && Admissible(plan, chosen, disk.head)
      ensures !f.Done? ==> archive == old(archive)
      ensures calm && (chosen == Some(GateArchive()) || (chosen.None? && disk.head == plan.source.schema)) ==> f.Done?
    {
      f := Done;
      :- Chance();
      var selected := if chosen.Some? then chosen.value else Archive(plan.source.version, disk.head);
      :- Chance();
      if selected.version != plan.source.version || selected.schema != plan.source.schema {
        return Raised;
      }
      archive := Some(selected);
      f := Done;
    }

    /** `target_database`: optionally upgrade, then require the exact target identity. */
    method TargetDatabase(upgrade: bool) returns (f: Fate)
      requires Valid() && locked
      requires upgrade ==> Quiet(disk) && Phased(disk, Migrating)
                           && disk.head == plan.source.schema && archive == Some(GateArchive())
      modifies this`disk
      ensures Kept()
      ensures calm && (upgrade || old(disk).head == plan.target.schema) ==> f.Done?
      ensures disk == old(disk) || (upgrade && disk == old(disk).(head := plan.target.schema))
      ensures f.Done? ==> disk.head == plan.target.schema
    {
      if upgrade {
        :- Upgrade();
      }
      :- Chance();
      f := if disk.head == plan.target.schema then Done else Raised;
    }

    /**
      `commit`: from any accepted phase to a durable `committed`. On success the target schema is in
      place, and unless the switched link already means the target, nothing runs or would start.
    */
    method Commit(state: Option<Record>, chosen: Option<Archive>) returns (f: Fate, record: Record)
      requires Valid() && locked && archive.None?
      requires state == disk.phase
      requires disk.phase.None? ==>
               StoredRelease(disk, plan.target.version) == Some(plan.target)
               && disk.link == plan.source.version
      requires calm && chosen.Some? ==> chosen == Some(GateArchive())
      modifies this`disk, this`archive, this`attempted, this`stopped, this`disabled
      ensures old(attempted) <= attempted && (disk.phase.None? ==> BeforeCommit(plan, disk))
      ensures Kept() && (calm ==> f.Done?) && Gated(plan, chosen, old(disk), disk)
      ensures f.Done? ==> AfterCommit(plan, disk) && disk.phase == Some(record)
      ensures f.Done? && disk.link == plan.source.version ==> Quiet(disk)
      ensures disk.link == plan.target.version ==> disk == old(disk)
      ensures disk.assets == old(disk).assets && disk.link == old(disk).link && disk.releases == old(disk).releases
      ensures old(disk).phase.Some? ==> disk.phase.Some?
    {
      SafeIsRecognized(plan, disk);
      StagesExclusive(plan, disk);
      record := if state.Some? then state.value else Record(Prepared, plan.source, plan.target);
      if state.Some? && record.phase == Committed {
        if RecognizesCommitted(plan, disk) != Some(true) {
          f := Quiesce();
          if !f.Done? { return; }
        }
        f := TargetDatabase(false);
        return;
      }
      f, record := CommitForward(state, chosen);
    }

    /** The part of `commit` that runs while `committed` is not yet durable. */
    method CommitForward(state: Option<Record>, chosen: Option<Archive>) returns (f: Fate, record: Record)
      requires Valid() && locked && archive.None?
      requires state == disk.phase && BeforeCommit(plan, disk)
      requires StoredRelease(disk, plan.target.version) == Some(plan.target)
      requires calm && chosen.Some? ==> chosen == Some(GateArchive())
      modifies this`disk, this`archive, this`attempted, this`stopped, this`disabled
      ensures old(attempted) <= attempted && (disk.phase.None? ==> BeforeCommit(plan, disk))
      ensures Kept() && (calm ==> f.Done?) && Gated(plan, chosen, old(disk), disk)
      ensures f.Done? ==> AfterCommit(plan, disk) && Quiet(disk) && disk.phase == Some(record)
      ensures disk.assets == old(disk).assets && disk.link == old(disk).link && disk.releases == old(disk).releases
      ensures old(disk).phase.Some? ==> disk.phase.Some?
    {
      StagesExclusive(plan, disk);
      if Phased(disk, Migrating) {
        f := ResumeMigrating(chosen);
      } else {
        f := EnterPrepared(chosen);
      }
      record := Record(Prepared, plan.source, plan.target);
      if !f.Done? { return; }
      record := disk.phase.value;
      if archive.Some? {
        f := Migrate();
        if !f.Done? { return; }
      }
      record := record.(phase := Committed);
      f := WriteState(record);
    }

    /** No phase or `prepared`: archive first, then the phase file, then downtime. */
    method EnterPrepared(chosen: Option<Archive>) returns (f: Fate)
      requires Valid() && locked && archive.None?
      requires BeforeCommit(plan, disk) && !Phased(disk, Migrating)
      requires StoredRelease(disk, plan.target.version) == Some(plan.target)
      requires calm && chosen.Some? ==> chosen == Some(GateArchive())
      modifies this`disk, this`archive, this`attempted, this`stopped, this`disabled
      ensures old(attempted) <= attempted
      ensures Valid() && BeforeCommit(plan, disk) && (calm ==> f.Done?)
      ensures disk == old(disk).(phase := disk.phase, stateScratch := disk.stateScratch,
                                 active := disk.active, enabled := disk.enabled)
      ensures disk.phase == old(disk).phase || (Phased(disk, Prepared) && archive == Some(GateArchive()))
      ensures disk.active != old(disk).active || disk.enabled != old(disk).enabled ==>
                Phased(disk, Prepared) && archive == Some(GateArchive())
      ensures archive.Some? ==> Admissible(plan, chosen, disk.head)
      ensures f.Done? ==> Phased(disk, Prepared) && Quiet(disk) && archive == Some(GateArchive())
    {
      f := Done;
      :- Select(chosen);
      if disk.phase.None? {
        :- WriteState(Record(Prepared, plan.source, plan.target));
      }
      f := Quiesce();
    }

    /**
      `migrating`: retire everything before looking at the database. A target head needs no new
      archive and leaves none; an old head, or equal schemas, pass a fresh gate.
    */
    method ResumeMigrating(chosen: Option<Archive>) returns (f: Fate)
      requires Valid() && locked && archive.None?
      requires BeforeCommit(plan, disk) && Phased(disk, Migrating)
      requires calm && chosen.Some? ==> chosen == Some(GateArchive())
      modifies this`disk, this`archive, this`attempted, this`stopped, this`disabled
      ensures old(attempted) <= attempted
      ensures Valid() && BeforeCommit(plan, disk) && (calm ==> f.Done?)
      ensures disk == old(disk).(active := disk.active, enabled := disk.enabled)
      ensures f.Done? ==> Quiet(disk) && old(attempted) < attempted
      ensures f.Done? && archive.None? ==> disk.head == plan.target.schema
      ensures f.Done? && archive.Some? ==> archive == Some(GateArchive()) && disk.head == plan.source.schema
      ensures archive.Some? ==> Admissible(plan, chosen, disk.head)
      ensures f.Done? && archive.None? ==> Migrated(plan, disk)
      ensures f.Done? && archive.Some? ==> attempted == old(attempted) + RETIREMENT + RETIREMENT
    {
      f := Done;
      :- Quiesce();
      :- Chance();  // classify
      if plan.source.schema != plan.target.schema && disk.head == plan.target.schema {
        :- TargetDatabase(false);
        return Done;
      }
      :- Select(chosen);
      f := Quiesce();
    }

    /** Behind the gate: re-classify, record `migrating`, upgrade and check. */
    method Migrate() returns (f: Fate)
      requires Valid() && locked && archive == Some(GateArchive())
      requires BeforeCommit(plan, disk) && disk.phase.Some? && Quiet(disk)
      modifies this`disk
      ensures Valid() && BeforeCommit(plan, disk)
      ensures calm && old(disk).head == plan.source.schema ==> f.Done?
      ensures disk == old(disk).(phase := disk.phase, stateScratch := disk.stateScratch, head := disk.head)
      ensures disk.phase.Some?
      ensures f.Done? ==> Phased(disk, Migrating) && disk.head == plan.target.schema
    {
      f := Done;
      :- Chance();  // classify
      if disk.head != plan.source.schema {
        return Raised;
      }
      :- WriteState(disk.phase.value.(phase := Migrating));
      f := TargetDatabase(true);
    }

    // ------------------------------------------------------------- finish forward

    /** `replace_file`: finish one asset, whatever an interrupted run left of it. */
    method ReplaceFile(i: nat) returns (f: Fate)
      requires Valid() && AfterCommit(plan, disk)
      requires locked && i < |disk.assets| && (disk.assets[i] != plan.newAssets[i] ==> Quiet(disk))
      modifies this`disk
      ensures Kept() && (calm ==> f.Done?)
      ensures AfterCommit(plan, disk)
      ensures disk == old(disk).(assets := disk.assets, pending := disk.pending)
      ensures disk.assets == old(disk).assets || disk.assets == old(disk).assets[i := plan.newAssets[i]]
      ensures disk.pending == old(disk).pending[i := disk.pending[i]]
      ensures f.Done? ==> disk.assets[i] == plan.newAssets[i] && disk.pending[i].None?
    {
      if disk.assets[i] == plan.newAssets[i] {
        if disk.pending[i].Some? {
          SiblingOnly(plan, disk, i, None);
          :- Durably(disk.(pending := disk.pending[i := None]));
        }
        f := Chance();
        return;
      }
      if disk.pending[i].None? {
        SiblingOnly(plan, disk, i, Some(plan.newAssets[i]));
        :- Durably(disk.(pending := disk.pending[i := Some(plan.newAssets[i])]));
      }
      f := SwitchAsset(i);
    }

    /** The asset loop of `finish_locked`. */
    method ReplaceFiles() returns (f: Fate)
      requires Valid() && AfterCommit(plan, disk)
      requires locked && (disk.link == plan.source.version ==> Quiet(disk))
      modifies this`disk
      ensures Kept() && (calm ==> f.Done?)
      ensures AfterCommit(plan, disk)
      ensures disk == old(disk).(assets := disk.assets, pending := disk.pending)
      ensures f.Done? ==> disk.assets == plan.newAssets
      ensures f.Done? ==> forall i :: 0 <= i < |disk.pending| ==> disk.pending[i].None?
    {
      var i := 0;
      while i < |disk.assets|
        invariant 0 <= i <= |disk.assets|
        invariant Kept() && AfterCommit(plan, disk)
        invariant disk == old(disk).(assets := disk.assets, pending := disk.pending)
        invariant |disk.assets| == |old(disk).assets|
        invariant forall j :: 0 <= j < i ==> disk.assets[j] == plan.newAssets[j] && disk.pending[j].None?
      {
        :- ReplaceFile(i);
        i := i + 1;
      }
      f := Done;
    }

    /** `replace_link`. */
    method ReplaceLink() returns (f: Fate)
      requires Valid() && AfterCommit(plan, disk)
      requires locked && disk.assets == disk.loaded == plan.newAssets
      requires disk.link == plan.source.version ==> Quiet(disk)
      modifies this`disk
      ensures Kept() && (calm ==> f.Done?)
      ensures AfterCommit(plan, disk)
      ensures disk == old(disk).(link := disk.link, linkPending := disk.linkPending)
      ensures f.Done? ==> disk.link == plan.target.version && disk.linkPending.None?
    {
      if disk.link == plan.target.version {
        if disk.linkPending.Some? {
          :- Durably(disk.(linkPending := None));
        }
        f := Chance();
        return;
      }
      if disk.linkPending.None? {
        :- Durably(disk.(linkPending := Some(plan.target.version)));
      }
      f := SwitchLink();
    }

    /** Files, systemd reload, link: the convergence part of `finish_locked`. */
    method Converge(coherent: bool) returns (f: Fate)
      requires Valid() && AfterCommit(plan, disk)
      requires locked && coherent == (disk.link == plan.target.version)
      modifies this`disk, this`attempted, this`stopped, this`disabled
      ensures old(attempted) <= attempted
      ensures Kept() && (calm ==> f.Done?)
      ensures AfterCommit(plan, disk) && disk.phase == old(disk).phase && disk.releases == old(disk).releases
      ensures f.Done? ==> disk.link == plan.target.version && NothingPending(disk)
      ensures coherent ==> disk.active == old(disk).active && disk.enabled == old(disk).enabled
    {
      if !coherent {
        :- Quiesce();
      }
      :- ReplaceFiles();
      if !coherent {
        :- Durably(disk.(loaded := disk.assets));
        :- Chance();  // tmpfiles
      }
      f := ReplaceLink();
    }

    /** The enable and start loops of `finish_locked`, with `require_active` behind every start. */
    method ActivateServices() returns (f: Fate)
      requires Valid() && AfterCommit(plan, disk) && disk.link == plan.target.version
      modifies this`disk
      ensures Valid() && (calm ==> f.Done?)
      ensures disk == old(disk).(active := disk.active, enabled := disk.enabled)
      ensures old(disk).active <= disk.active && old(disk).enabled <= disk.enabled
      ensures f.Done? ==> Serving(disk)
    {
      var i := 0;
      while i < |SERVICES|
        invariant 0 <= i <= |SERVICES|
        invariant Valid()
        invariant disk == old(disk).(active := disk.active, enabled := disk.enabled)
        invariant old(disk).active <= disk.active && old(disk).enabled <= disk.enabled
        invariant forall j :: 0 <= j < i ==> SERVICES[j] in disk.enabled
      {
        if SERVICES[i] !in disk.enabled {
          :- Enable(SERVICES[i]);
        }
        i := i + 1;
      }
      i := 0;
      while i < |SERVICES|
        invariant 0 <= i <= |SERVICES|
        invariant Valid()
        invariant disk == old(disk).(active := disk.active, enabled := disk.enabled)
        invariant old(disk).active <= disk.active && old(disk).enabled <= disk.enabled
        invariant forall j :: 0 <= j < |SERVICES| ==> SERVICES[j] in disk.enabled
        invariant forall j :: 0 <= j < i ==> SERVICES[j] in disk.active
      {
        if SERVICES[i] !in disk.active {
          :- Start(SERVICES[i]);
        }
        if SERVICES[i] !in disk.active || SERVICES[i] !in disk.enabled {
          return Raised;
        }
        i := i + 1;
      }
      f := Chance();
    }

    /** `retire_old`: only after recognition has proved link and assets; resumes a torn removal. */
    method RetireOld() returns (f: Fate)
      requires Valid() && AfterCommit(plan, disk)
      requires locked && Serving(disk)
      modifies this`disk
      ensures Kept()
      ensures calm && disk.link == plan.target.version ==> f.Done?
      ensures disk == old(disk).(releases := disk.releases)
      ensures f.Done? ==> disk.releases == map[plan.target.version := Complete(plan.target)]
    {
      SafeIsRecognized(plan, disk);
      :- Chance();
      if RecognizesCommitted(plan, disk) != Some(true) {
        return Raised;
      }
      if plan.source.version in disk.releases {
        :- RemoveOld();
      }
      f := Chance();
    }

    predicate Running(d: Disk) {
      Timer in d.enabled && Serving(d)
    }

    /** `finish_locked`: on success everything but the phase file is final. */
    method FinishLocked(record: Record) returns (f: Fate)
      requires Valid() && AfterCommit(plan, disk) && disk.phase == Some(record)
      requires locked
      modifies this`disk, this`attempted, this`stopped, this`disabled
      ensures old(attempted) <= attempted
      ensures Kept() && (calm ==> f.Done?)
      ensures disk.phase == old(disk).phase && (disk.releases != old(disk).releases ==> Serving(disk))
      ensures old(disk).link == plan.target.version ==>
                old(disk).active <= disk.active && old(disk).enabled <= disk.enabled
      ensures f.Done? ==> Finished(plan, disk.(phase := None)) && Running(disk)
    {
      SafeIsRecognized(plan, disk);
      var recognized := RecognizesCommitted(plan, disk);
      if recognized.None? {
        return Raised;
      }
      :- Converge(recognized.value);
      f := FinishConverged();
    }

    /** The activation and retirement part of `finish_locked`. */
    method FinishConverged() returns (f: Fate)
      requires Valid() && AfterCommit(plan, disk)
      requires locked && disk.link == plan.target.version && NothingPending(disk)
      modifies this`disk
      ensures Kept() && (calm ==> f.Done?)
      ensures disk.phase == old(disk).phase && (disk.releases != old(disk).releases ==> Serving(disk))
      ensures old(disk).link == plan.target.version ==>
                old(disk).active <= disk.active && old(disk).enabled <= disk.enabled
      ensures f.Done? ==> Finished(plan, disk.(phase := None)) && Running(disk)
    {
      SafeIsRecognized(plan, disk);
      :- Chance();
      if RecognizesCommitted(plan, disk).None? {
        return Raised;
      }
      :- ActivateServices();
      :- Chance();  // doctor
      :- RetireOld();
      f := Enable(Timer);
    }

    /** Everything under the lock, with the handler that retires units after a committed failure. */
    method UnderLock(initial: Option<Record>, chosen: Option<Archive>) returns (f: Fate, record: Record, ghost at: nat)
      requires Valid() && locked && archive.None? && initial == disk.phase
      requires StoredRelease(disk, plan.target.version) == Some(plan.target)
      requires disk.phase.None? ==> disk.link == plan.source.version
      requires calm && chosen.Some? ==> chosen == Some(GateArchive())
      modifies this`disk, this`archive, this`attempted, this`stopped, this`disabled
      ensures old(attempted) <= attempted && (disk.phase.None? ==> BeforeCommit(plan, disk))
      ensures old(disk).phase.Some? ==> disk.phase.Some?
      ensures Kept() && (calm ==> f.Done?) && Gated(plan, chosen, old(disk), disk)
      ensures f.Done? ==> disk.phase == Some(record) && Finished(plan, disk.(phase := None)) && Running(disk)
      ensures f.Raised? && Phased(disk, Committed) ==>
                |old(attempted)| < at <= |attempted| && attempted[at - 1] == Trouble && Handled(attempted[at..])
    {
      f, record := CommitAndFinish(initial, chosen);
      at := |attempted|;
      if f.Raised? {
        ghost var failed := disk;
        f := RetireCommitted();
        GatedStays(plan, chosen, old(disk), failed, disk);
      }
    }

    /**
      That handler: a failure behind a durable `committed` retires every unit, unless an interrupt
      strikes first or the phase file cannot be read back.
    */
    method RetireCommitted() returns (f: Fate)
      requires Valid()
      modifies this`disk, this`attempted, this`stopped, this`disabled
      ensures Kept() && !f.Done? && old(attempted) <= attempted
      ensures disk == old(disk).(active := disk.active, enabled := disk.enabled)
      ensures f.Raised? && Phased(disk, Committed) ==> Handled(attempted[|old(attempted)|..])
      ensures calm ==> f.Raised? && (Phased(disk, Committed) ==> Quiet(disk))
    {
      var hit := Interrupted();
      if hit { return Raised; }
      var look := Chance();
      if look.Killed? { return Killed; }
      if look.Raised? {
        attempted := attempted + [Unread];
        return Raised;
      }
      f := Raised;
      if Phased(disk, Committed) {
        var cleanup := Quiesce();
        if cleanup.Killed? { f := Killed; }
      }
    }

    /** What that handler stands around. */
    method CommitAndFinish(initial: Option<Record>, chosen: Option<Archive>) returns (f: Fate, record: Record)
      requires Valid() && locked && archive.None? && initial == disk.phase
      requires StoredRelease(disk, plan.target.version) == Some(plan.target)
      requires disk.phase.None? ==> disk.link == plan.source.version
      requires calm && chosen.Some? ==> chosen == Some(GateArchive())
      modifies this`disk, this`archive, this`attempted, this`stopped, this`disabled
      ensures old(attempted) <= attempted && (disk.phase.None? ==> BeforeCommit(plan, disk))
      ensures old(disk).phase.Some? ==> disk.phase.Some?
      ensures Kept() && (calm ==> f.Done?) && Gated(plan, chosen, old(disk), disk)
      ensures f.Done? ==> disk.phase == Some(record) && Finished(plan, disk.(phase := None)) && Running(disk)
      ensures f.Raised? ==> old(attempted) < attempted && attempted[|attempted| - 1] == Trouble
    {
      f, record := Commit(initial, chosen);
      if f.Done? {
        ghost var committed := disk;
        f := FinishLocked(record);
        GatedStays(plan, chosen, old(disk), committed, disk);
      }
      if f.Raised? {
        attempted := attempted + [Trouble];
      }
    }

    /** After the lock: start the timer, drop the phase file last, prove ordinary authority. */
    method Conclude() returns (f: Fate)
      requires Valid() && AfterCommit(plan, disk)
      requires Finished(plan, disk.(phase := None)) && Running(disk)
      modifies this`disk
      ensures Kept() && (calm ==> f.Done?)
      ensures AfterCommit(plan, disk) || Finished(plan, disk)
      ensures disk.phase.None? ==> Finished(plan, disk) && Up(disk)
      ensures disk == old(disk).(active := disk.active, phase := disk.phase, stateScratch := disk.stateScratch)
      ensures disk.phase == old(disk).phase || disk.phase.None?
      ensures f.Done? ==> Finished(plan, disk) && Running(disk) && Timer in disk.active && !disk.stateScratch
    {
      f := Done;
      :- Start(Timer);
      :- Chance();  // require_active
      RunningIsUp(disk);
      :- DropPhase();
      :- Chance();
      f := if Finished(plan, disk) && Installed(disk) then Done else Raised;
    }

    /** `remove_state`: the last durable step of a whole run. */
    method DropPhase() returns (f: Fate)
      requires Valid() && AfterCommit(plan, disk) && Finished(plan, disk.(phase := None)) && Up(disk)
      modifies this`disk
      ensures Kept() && (calm ==> f.Done?)
      ensures disk == old(disk).(phase := disk.phase, stateScratch := disk.stateScratch)
      ensures disk.phase == old(disk).phase || disk.phase.None?
      ensures f.Done? ==> disk.phase.None? && !disk.stateScratch
    {
      f := Done;
      :- CleanScratch();
      f := Durably(disk.(phase := None));
    }

    /** What `require_active` and the enabled timer amount to. */
    lemma RunningIsUp(d: Disk)
      requires Running(d) && Timer in d.active
      ensures Up(d)
    {
      assert SERVICES[0] in d.active && SERVICES[1] in d.active && SERVICES[2] in d.active;
    }

    /**
      One whole invocation, `execute`. Safety: whatever interrupts it, the disk stays safe and nothing
      achieved is undone. Convergence: left alone, it turns every safe disk that is not already
      finished into the finished one, with the services and the timer up.
    */
    method Execute(chosen: Option<Archive>) returns (f: Fate, ghost at: nat)
      requires Valid() && !locked
      requires calm && chosen.Some? ==> chosen == Some(GateArchive())
      modifies this`disk, this`archive, this`locked, this`attempted, this`stopped, this`disabled, this`discards,
               this`restoreFailed
      ensures old(attempted) <= attempted
      ensures f.Raised? && CommittedOrLater(plan, disk) && disk != old(disk) ==>
                |old(attempted)| <= at <= |attempted| && Handled(attempted[at..])
      ensures Kept() && Gated(plan, chosen, old(disk), disk)
      ensures calm && !Finished(plan, old(disk)) ==> f.Done?
      ensures Finished(plan, old(disk)) ==> !f.Done? && disk == old(disk)
      ensures f.Done? ==> Finished(plan, disk) && Running(disk) && Timer in disk.active && !disk.stateScratch
      ensures restoreFailed && !old(restoreFailed) ==> Finished(plan, disk)
    {
      StagesExclusive(plan, disk);
      var initial;
      at := 0;
      f, initial := PrepareTarget();
      if !f.Done? { return; }
      var record;
      f, record, at := Transact(initial, chosen);
      if !f.Done? { return; }
      ghost var transacted := disk;
      at := |attempted|;
      f := ConcludeOrRecommit(record);
      GatedStays(plan, chosen, old(disk), transacted, disk);
    }

    /** The part of it behind the lock, with its handler. */
    method ConcludeOrRecommit(record: Record) returns (f: Fate)
      requires Valid() && AfterCommit(plan, disk) && disk.phase == Some(record)
      requires Finished(plan, disk.(phase := None)) && Running(disk)
      modifies this`disk, this`attempted, this`stopped, this`disabled, this`restoreFailed
      ensures Kept() && (calm ==> f.Done?) && CommittedOrLater(plan, disk)
      ensures old(attempted) <= attempted && (f.Raised? ==> Retirement(attempted[|old(attempted)|..]))
      ensures f.Done? ==> Finished(plan, disk) && Running(disk) && Timer in disk.active && !disk.stateScratch
      ensures restoreFailed && !old(restoreFailed) ==> Finished(plan, disk)
    {
      f := Conclude();
      if f.Raised? {
        f := Recommit(record);
      }
    }

    /** `operation_lock`: an operation that runs already is not waited for. */
    method Lock() returns (f: Fate)
      requires !locked
      modifies this`locked
      ensures (f.Done? <==> locked) && (calm ==> f.Done?)
    {
      f := Chance();
      locked := f.Done?;
    }

    /** The lock around commit and finish, and the discarding of a target staged in vain. */
    method Transact(initial: Option<Record>, chosen: Option<Archive>) returns (f: Fate, record: Record, ghost at: nat)
      requires Valid() && !locked && initial == disk.phase
      requires StoredRelease(disk, plan.target.version) == Some(plan.target)
      requires disk.phase.None? ==> disk.link == plan.source.version
      requires calm && chosen.Some? ==> chosen == Some(GateArchive())
      modifies this`disk, this`archive, this`locked, this`attempted, this`stopped, this`disabled, this`discards
      ensures old(attempted) <= attempted && (disk.phase.None? ==> BeforeCommit(plan, disk))
      ensures Kept() && (calm ==> f.Done?) && Gated(plan, chosen, old(disk), disk)
      ensures f.Done? ==> disk.phase == Some(record) && Finished(plan, disk.(phase := None)) && Running(disk)
      ensures f.Raised? && Phased(disk, Committed) && disk != old(disk) ==>
                |old(attempted)| <= at <= |attempted| && Handled(attempted[at..])
      ensures f.Raised? && disk.phase.None? ==> old(discards) < discards
    {
      f, record, at := LockedTransact(initial, chosen);
      if f.Raised? && initial.None? && disk.phase.None? {
        ghost var failed := disk;
        var cleanup := DiscardTarget();
        GatedStays(plan, chosen, old(disk), failed, disk);
        if cleanup.Killed? { f := Killed; }
      }
    }

    /** Its locked part; a busy lock changes nothing. */
    method LockedTransact(initial: Option<Record>, chosen: Option<Archive>)
      returns (f: Fate, record: Record, ghost at: nat)
      requires Valid() && !locked && initial == disk.phase
      requires StoredRelease(disk, plan.target.version) == Some(plan.target)
      requires disk.phase.None? ==> disk.link == plan.source.version
      requires calm && chosen.Some? ==> chosen == Some(GateArchive())
      modifies this`disk, this`archive, this`locked, this`attempted, this`stopped, this`disabled
      ensures old(attempted) <= attempted && (disk.phase.None? ==> BeforeCommit(plan, disk))
      ensures Kept() && (calm ==> f.Done?) && Gated(plan, chosen, old(disk), disk)
      ensures old(disk).phase.Some? ==> disk.phase.Some?
      ensures f.Done? ==> disk.phase == Some(record) && Finished(plan, disk.(phase := None)) && Running(disk)
      ensures f.Raised? && Phased(disk, Committed) && disk != old(disk) ==>
                |old(attempted)| <= at <= |attempted| && Handled(attempted[at..])
    {
      record, at := Record(Prepared, plan.source, plan.target), 0;
      StagesExclusive(plan, disk);
      f := Lock();
      if f.Done? {
        archive := None;
        f, record, at := UnderLock(initial, chosen);
        locked, archive := false, None;
      }
    }

    /**
      The last handler of `execute`: restore a phase file that is already gone, then retire every unit.
      Units are touched without a phase file only if reading or writing it back has failed.
    */
    method Recommit(record: Record) returns (f: Fate)
      requires Valid() && (AfterCommit(plan, disk) || (Finished(plan, disk) && Up(disk)))
      requires record == Record(Committed, plan.source, plan.target)
      modifies this`disk, this`attempted, this`stopped, this`disabled, this`restoreFailed
      ensures Kept() && !f.Done?
      ensures AfterCommit(plan, disk) || Finished(plan, disk)
      ensures old(attempted) <= attempted && (f.Raised? ==> Retirement(attempted[|old(attempted)|..]))
      ensures disk.phase.None? && (disk.active != old(disk).active || disk.enabled != old(disk).enabled) ==>
                restoreFailed
      ensures restoreFailed != old(restoreFailed) ==> Finished(plan, disk)
      ensures calm ==> f.Raised? && Phased(disk, Committed) && Quiet(disk)
    {
      var hit := Interrupted();
      if hit { return Raised; }
      var restored := RestorePhase(record);
      if restored.Killed? { return Killed; }
      hit := Interrupted();
      if hit { return Raised; }
      f := RetireUnrestored();
    }

    /** Its last part: every unit is retired, with or without a phase file. */
    method RetireUnrestored() returns (f: Fate)
      requires Valid() && (AfterCommit(plan, disk) || Finished(plan, disk))
      modifies this`disk, this`attempted, this`stopped, this`disabled, this`restoreFailed
      ensures Kept() && !f.Done? && (calm ==> f.Raised? && Quiet(disk))
      ensures AfterCommit(plan, disk) || Finished(plan, disk)
      ensures old(attempted) <= attempted && (f.Raised? ==> Retirement(attempted[|old(attempted)|..]))
      ensures disk == old(disk).(active := disk.active, enabled := disk.enabled)
      ensures restoreFailed == (old(restoreFailed) || disk.phase.None?)
    {
      if disk.phase.None? {
        restoreFailed := true;
      }
      f := Raised;
      var retired := Quiesce();
      if retired.Killed? { f := Killed; }
    }

    /** Its first half: whether a phase file is there, and one if there is none. */
    method RestorePhase(record: Record) returns (f: Fate)
      requires Valid() && (AfterCommit(plan, disk) || (Finished(plan, disk) && Up(disk)))
      requires record == Record(Committed, plan.source, plan.target)
      modifies this`disk
      ensures Kept() && (AfterCommit(plan, disk) || Finished(plan, disk))
      ensures disk == old(disk).(phase := disk.phase, stateScratch := disk.stateScratch)
      ensures f.Done? ==> disk.phase.Some?
      ensures calm ==> f.Done?
    {
      f := Chance();
      if !f.Done? || disk.phase.Some? { return; }
      f := WriteState(record);
    }

    // ------------------------------------------------------------------- environment

    /** A reboot: enabled units start, possibly the timer's job too, and systemd loads what is installed. */
    method Reboot(backup: bool)
      requires Valid()
      modifies this`disk, this`stopped
      ensures Kept()
      ensures disk == old(disk).(active := disk.active, loaded := old(disk).assets)
    {
      var due := if backup && Timer in disk.enabled then {Backup} else {};
      disk := disk.(active := disk.enabled + due, loaded := disk.assets);
      stopped := disabled;
    }

    /** An operator's same-version restore between runs, allowed only before commit: old data, old services. */
    method OperatorRestore()
      requires Valid() && BeforeCommit(plan, disk)
      modifies this`disk
      ensures Kept() && BeforeCommit(plan, disk)
      ensures disk == old(disk).(head := plan.source.schema, active := {Graphics, Runtime, Web, Timer},
                                 enabled := {Graphics, Runtime, Web, Timer})
    {
      disk := disk.(head := plan.source.schema, active := {Graphics, Runtime, Web, Timer},
                    enabled := {Graphics, Runtime, Web, Timer});
    }

    /** Any history of interrupted invocations, reboots and permitted restores. */
    method History(rounds: nat)
      requires Valid() && !locked && !calm
      modifies this`disk, this`archive, this`locked, this`attempted, this`stopped, this`disabled, this`discards,
               this`restoreFailed
      ensures Kept()
    {
      var n := 0;
      while n < rounds
        invariant Kept()
      {
        if * {
          Reboot(true);
        } else if * {
          Reboot(false);
        } else if * {
          if BeforeCommit(plan, disk) { OperatorRestore(); }
        } else {
          var archived: Option<Archive> := *;
          var f, _ := Execute(archived);
        }
        n := n + 1;
      }
    }

    /** After any such history one undisturbed rerun of the same target ends the update. */
    method HistoryThenRerun(rounds: nat) returns (f: Fate)
      requires Valid() && !locked && !calm
      modifies this
      ensures Finished(plan, disk) && (Up(disk) <==> stopped == {} && disabled == {})
      ensures !Up(disk) ==> restoreFailed
      ensures f.Done? ==> Running(disk) && Timer in disk.active
    {
      History(rounds);
      calm := true;
      ghost var at;
      f, at := Execute(None);
      DownIsOnRecord();
    }

    /** Units of a finished disk are down exactly when a retirement took them down there. */
    lemma DownIsOnRecord()
      requires Valid() && Finished(plan, disk)
      ensures Up(disk) <==> stopped == {} && disabled == {}
      ensures !Up(disk) ==> restoreFailed
    {
      NothingMissing(EVERYDAY, disk.active);
      NothingMissing(EVERYDAY, disk.enabled);
    }

    lemma NothingMissing(a: set<Unit>, b: set<Unit>)
      ensures a <= b <==> a - b == {}
    {
      if a - b == {} {
        forall u | u in a ensures u in b {
          assert u !in a - b;
        }
      }
    }
  }

  /**
    The run that strands a finished installation: from any disk converged up to its phase file, the
    file is dropped, the last check fails, and the file can be neither read nor written back.
  */
  method StrandedRun(plan: Plan, disk: Disk) returns (u: Updater, f: Fate)
    requires plan.Valid() && Safe(plan, disk) && Phased(disk, Committed) && Up(disk)
    requires Finished(plan, disk.(phase := None))
    ensures u.plan == plan && u.Valid() && Finished(plan, u.disk) && Quiet(u.disk) && f.Raised?
    ensures u.restoreFailed && u.stopped == u.disabled == EVERYDAY
  {
    u := new Updater(plan, disk);
    u.calm := true;
    f := u.DropPhase();
    f := u.RetireUnrestored();
  }

  /**
    The run that leaves units unattempted: on any committed disk with the web server running, an
    interrupt strikes behind the first action.
  */
  method CutShortRun(plan: Plan, disk: Disk) returns (u: Updater, f: Fate)
    requires plan.Valid() && Safe(plan, disk) && Phased(disk, Committed) && Web in disk.active
    ensures u.plan == plan && u.Valid() && Phased(u.disk, Committed) && Web in u.disk.active
    ensures Retirement(u.attempted) && u.attempted == [Stopping(Timer), Stray] && Stopping(Web) !in u.attempted
  {
    u := new Updater(plan, disk);
    u.calm := true;
    f := u.Stop(Timer);
    u.Interrupt();
    assert u.attempted[..1] == RETIREMENT[..1];
  }
}
