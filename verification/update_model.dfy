/**
  The durable side of a managed forward update: what is on disk, in the database
  and in systemd between any two steps of an updater that may be killed at any time.

  `Disk` is one snapshot of that state. `Safe` is the invariant that every single
  durable step of every run keeps (see UpdateRun), `Forward` says that no step loses
  work already done, and the two recognition functions are the checks a rerun
  makes before it is willing to touch anything.
*/
module UpdateModel {
  import opened Basics

  type Bytes = seq<int>

  datatype Release = Release(version: string, wheel: string, schema: string)

  datatype Phase = Prepared | Migrating | Committed

  /** The content of the phase file. */
  datatype Record = Record(phase: Phase, source: Release, target: Release)

  /** One directory below `releases`: a staging prefix, a whole release, or one being deleted. */
  datatype Payload = Residue(members: nat) | Complete(release: Release) | Torn

  datatype Unit = Graphics | Runtime | Web | Backup | Timer

  /** Units that carry an enabled/disabled state; the backup service is static. */
  const SERVICES: seq<Unit> := [Graphics, Runtime, Web]

  /** What one update is about: the installed release, the target and the asset bytes of both. */
  datatype Plan = Plan(source: Release, target: Release, oldAssets: seq<Bytes>, newAssets: seq<Bytes>) {
    ghost predicate Valid() {
      source.version != target.version && |oldAssets| == |newAssets|
    }
  }

  datatype Disk = Disk(
    phase: Option<Record>,        // update-state.json
    stateScratch: bool,           // its reserved sibling
    head: string,                 // the database's Alembic revision
    assets: seq<Bytes>,           // installed asset files
    pending: seq<Option<Bytes>>,  // their reserved siblings
    loaded: seq<Bytes>,           // the unit bytes systemd last loaded
    link: string,                 // release version the active symlink names
    linkPending: Option<string>,  // its reserved sibling
    releases: map<string, Payload>,
    active: set<Unit>,
    enabled: set<Unit>)

  predicate Quiet(d: Disk) {
    d.active == {} && d.enabled == {}
  }

  /** The ordinary installed state of the units, as `require_auxiliary_installed` and the services need it. */
  predicate Installed(d: Disk) {
    Timer in d.active && Timer in d.enabled
  }

  /** What runs and is startable on an installed host. */
  const EVERYDAY := {Graphics, Runtime, Web, Timer}

  /** Every service and the timer running, and startable again after a reboot. */
  predicate Up(d: Disk) {
    EVERYDAY <= d.active && EVERYDAY <= d.enabled
  }

  predicate Phased(d: Disk, phase: Phase) {
    d.phase.Some? && d.phase.value.phase == phase
  }

  predicate NothingPending(d: Disk) {
    d.linkPending.None? && forall i :: 0 <= i < |d.pending| ==> d.pending[i].None?
  }

  predicate Shaped(p: Plan, d: Disk) {
    |d.assets| == |d.pending| == |p.oldAssets| == |p.newAssets|
  }

  // ---------------------------------------------------------------- recognition

  /** `stored_release`: only an intact release of that version has an identity. */
  function StoredRelease(d: Disk, version: string): (r: Option<Release>) {
    if version in d.releases && d.releases[version].Complete? then Some(d.releases[version].release) else None
  }

  /** `validate_residue`: any staging prefix of the target (three members at most) or the whole of it. */
  predicate ValidResidue(p: Plan, d: Disk) {
    p.target.version in d.releases &&
    match d.releases[p.target.version]
    case Residue(members) => members <= 3
    case Complete(release) => release == p.target
    case Torn => false
  }

  /** `require_state_target`: the phase file speaks of exactly this source and target. */
  predicate StateMatches(p: Plan, d: Disk) {
    d.phase.Some? ==> d.phase.value.source == p.source && d.phase.value.target == p.target
  }

  /** `recognize_current`: what a run accepts before `committed`. */
  predicate RecognizesCurrent(p: Plan, d: Disk) {
    && d.link == p.source.version
    && StoredRelease(d, d.link) == Some(p.source)
    && StateMatches(p, d)
    && d.releases.Keys <= {p.source.version, p.target.version}
    && d.assets == p.oldAssets
    && |d.pending| == |d.assets|
    && NothingPending(d)
    && (d.phase.None? ==> Installed(d))
    && (p.target.version in d.releases ==> ValidResidue(p, d))
    && (d.phase.Some? ==> StoredRelease(d, p.target.version) == Some(p.target))
  }

  /**
    `recognize`: what a run accepts once `committed` is durable; the value says whether link and assets are all
    target.
  */
  function RecognizesCommitted(p: Plan, d: Disk): (r: Option<bool>) {
    var linked := d.link == p.target.version;
    var kept := p.source.version in d.releases;
    var allTarget := d.assets == p.newAssets;
    if !(Phased(d, Committed) && StateMatches(p, d)) then None
    else if StoredRelease(d, p.target.version) != Some(p.target) then None
    else if d.releases.Keys != {p.target.version} + (if kept then {p.source.version} else {}) then None
    else if d.link != p.source.version && !linked then None
    else if d.linkPending.Some? && d.linkPending.value != p.target.version then None
    else if !(linked && allTarget) && StoredRelease(d, p.source.version) != Some(p.source) then None
    else if !Shaped(p, d) then None
    else if !AssetsKnown(p, d.assets, d.pending) then None
    else Some(linked && allTarget)
  }

  /**
    `inspect_file`: each asset has target bytes, or source bytes while those are needed; a sibling has target
    bytes.
  */
  predicate AssetsKnown(p: Plan, assets: seq<Bytes>, pending: seq<Option<Bytes>>)
    requires |assets| == |pending| == |p.oldAssets| == |p.newAssets|
  {
    && (forall i :: 0 <= i < |assets| ==> assets[i] == p.newAssets[i] || assets[i] == p.oldAssets[i])
    && (forall i :: 0 <= i < |pending| ==> pending[i].None? || pending[i].value == p.newAssets[i])
  }

  // ------------------------------------------------------------------ invariant

  /** Old link, old assets, intact old release, and no half-switched sibling. */
  predicate OldSide(p: Plan, d: Disk) {
    && d.link == p.source.version
    && d.assets == p.oldAssets && |d.pending| == |d.assets| && NothingPending(d)
    && StoredRelease(d, p.source.version) == Some(p.source)
    && d.releases.Keys <= {p.source.version, p.target.version}
  }

  predicate BeforeCommit(p: Plan, d: Disk) {
    && !Phased(d, Committed)
    && OldSide(p, d)
    && (d.phase.None? ==>
          d.head == p.source.schema && Installed(d) && (p.target.version in d.releases ==> ValidResidue(p, d)))
    && (d.phase.Some? ==> StoredRelease(d, p.target.version) == Some(p.target))
    && (Phased(d, Prepared) ==> d.head == p.source.schema)
    && (Phased(d, Migrating) ==> d.head == p.source.schema || d.head == p.target.schema)
  }

  predicate AfterCommit(p: Plan, d: Disk) {
    && Phased(d, Committed)
    && d.head == p.target.schema
    && StoredRelease(d, p.target.version) == Some(p.target)
    && d.releases.Keys <= {p.source.version, p.target.version}
    && (d.link == p.source.version || d.link == p.target.version)
    && (d.linkPending.Some? ==> d.linkPending.value == p.target.version)
    && Shaped(p, d)
    && AssetsKnown(p, d.assets, d.pending)
    && (d.link == p.target.version ==> d.assets == p.newAssets && d.loaded == p.newAssets)
    && (d.link != p.target.version ==> StoredRelease(d, p.source.version) == Some(p.source))
  }

  predicate Finished(p: Plan, d: Disk) {
    && d.phase.None?
    && d.head == p.target.schema
    && d.link == p.target.version
    && d.assets == p.newAssets && d.loaded == p.newAssets
    && |d.pending| == |d.assets| && NothingPending(d)
    && d.releases == map[p.target.version := Complete(p.target)]
  }

  /** Whatever may run now or after a reboot finds the schema its own release was built for. */
  predicate RunningMatchesSchema(p: Plan, d: Disk) {
    !Quiet(d) ==>
      || (d.link == p.source.version && d.head == p.source.schema)
      || (d.link == p.target.version && d.head == p.target.schema)
  }

  predicate Safe(p: Plan, d: Disk)
    requires p.Valid()
  {
    && StateMatches(p, d)
    && Backup !in d.enabled  // a static unit
    && RunningMatchesSchema(p, d)
    && (BeforeCommit(p, d) || AfterCommit(p, d) || Finished(p, d))
  }

  // ------------------------------------------------------------------- progress

  predicate CommittedOrLater(p: Plan, d: Disk)
    requires p.Valid()
  {
    AfterCommit(p, d) || Finished(p, d)
  }

  /** What is left of a release directory: 0 intact or partial staging, 1 being deleted, 2 gone. */
  function Retired(d: Disk, version: string): (n: nat) {
    if version !in d.releases then 2 else if d.releases[version].Torn? then 1 else 0
  }

  /** Nothing achieved is undone: commit, each converted asset, the switched link and old-release removal stay. */
  predicate Forward(p: Plan, d: Disk, e: Disk)
    requires p.Valid()
  {
    CommittedOrLater(p, d) ==>
      && CommittedOrLater(p, e)
      && (forall i :: 0 <= i < |p.newAssets| && d.assets[i] == p.newAssets[i] ==> e.assets[i] == p.newAssets[i])
      && (d.link == p.target.version ==> e.link == p.target.version)
      && Retired(d, p.source.version) <= Retired(e, p.source.version)
  }

  lemma ForwardTransitive(p: Plan, d: Disk, e: Disk, f: Disk)
    requires p.Valid() && Forward(p, d, e) && Forward(p, e, f)
    ensures Forward(p, d, f)
  {
  }

  /** Retiring units is safe on any disk that carries a phase or is finished, and never loses progress. */
  lemma FewerUnits(p: Plan, d: Disk, active: set<Unit>, enabled: set<Unit>)
    requires p.Valid() && Safe(p, d) && (d.phase.Some? || Finished(p, d))
    requires active <= d.active && enabled <= d.enabled
    ensures Safe(p, d.(active := active, enabled := enabled))
    ensures Forward(p, d, d.(active := active, enabled := enabled))
  {
  }

  /**
    After commit a unit may run or be startable exactly when the link is switched, so that it means
    target code over the target schema, unless both schemas are the same.
  */
  lemma MoreUnits(p: Plan, d: Disk, active: set<Unit>, enabled: set<Unit>)
    requires p.Valid() && Safe(p, d) && CommittedOrLater(p, d)
    requires Backup !in enabled && active + enabled != {}
    ensures Safe(p, d.(active := active, enabled := enabled))
            <==> d.link == p.target.version || p.source.schema == p.target.schema
    ensures Forward(p, d, d.(active := active, enabled := enabled))
  {
  }

  /** The scratch sibling of the phase file carries no authority. */
  lemma ScratchOnly(p: Plan, d: Disk, scratch: bool)
    requires p.Valid() && Safe(p, d)
    ensures Safe(p, d.(stateScratch := scratch)) && Forward(p, d, d.(stateScratch := scratch))
  {
  }

  /** Neither does the sibling of an asset, as long as it is target bytes. */
  lemma SiblingOnly(p: Plan, d: Disk, i: nat, sibling: Option<Bytes>)
    requires p.Valid() && Safe(p, d) && AfterCommit(p, d) && i < |d.pending|
    requires sibling.Some? ==> sibling.value == p.newAssets[i]
    ensures var e := d.(pending := d.pending[i := sibling]); AfterCommit(p, e) && Safe(p, e) && Forward(p, d, e)
  {
  }

  /**
    A rerun is never locked out: on every safe disk that carries a phase, the recogniser
    for that phase accepts, and after commit its verdict is exactly the active link.
  */
  lemma SafeIsRecognized(p: Plan, d: Disk)
    requires p.Valid() && Safe(p, d)
    ensures Phased(d, Committed) ==> RecognizesCommitted(p, d) == Some(d.link == p.target.version)
    ensures d.phase.Some? && !Phased(d, Committed) ==> RecognizesCurrent(p, d)
    ensures d.phase.None? ==> (RecognizesCurrent(p, d) <==> d.link == p.source.version)
  {
    if Phased(d, Committed) {
      assert d.releases.Keys ==
             {p.target.version} + (if p.source.version in d.releases then {p.source.version} else {});
    }
  }

  /** A finished disk is out of reach: whether its units are up or not, neither recogniser accepts it. */
  lemma FinishedIsRefused(p: Plan, d: Disk)
    requires p.Valid() && Finished(p, d)
    ensures !RecognizesCurrent(p, d) && RecognizesCommitted(p, d).None?
  {
  }

  /**
    What recognition leaves open: a disk it accepts after commit is one this update can have left
    exactly when the database is at the target and nothing behind a switched link is unconverged. As
    long as link or assets are not all target, an accepted disk still has the old release whole.
  */
  lemma RecognizedIsAfterCommit(p: Plan, d: Disk)
    requires p.Valid() && RecognizesCommitted(p, d).Some?
    ensures AfterCommit(p, d) <==>
            d.head == p.target.schema && (d.link == p.target.version ==> d.assets == d.loaded == p.newAssets)
    ensures d.phase == Some(Record(Committed, p.source, p.target))
    ensures d.link != p.target.version || d.assets != p.newAssets ==>
              RecognizesCommitted(p, d) == Some(false) && StoredRelease(d, p.source.version) == Some(p.source)
  {
    assert d.phase.value == Record(d.phase.value.phase, d.phase.value.source, d.phase.value.target);
  }

  /** Before commit nothing else is left open: an accepted disk is one this update can have left exactly by its head. */
  lemma RecognizedIsBeforeCommit(p: Plan, d: Disk)
    requires p.Valid() && RecognizesCurrent(p, d) && !Phased(d, Committed)
    ensures BeforeCommit(p, d) <==> d.head == p.source.schema || (Phased(d, Migrating) && d.head == p.target.schema)
    ensures d.phase.Some? ==> d.phase == Some(Record(d.phase.value.phase, p.source, p.target))
  {
    assert d.phase.Some? ==> d.phase.value == Record(d.phase.value.phase, d.phase.value.source, d.phase.value.target);
  }

  /** A switched link over an old asset, the old release still there: accepted, and no update leaves it. */
  lemma RecognitionIsNotEnough(p: Plan, d: Disk)
    requires p.Valid() && Safe(p, d) && AfterCommit(p, d) && d.link == p.source.version
    requires d.assets == p.oldAssets != p.newAssets && d.releases.Keys == {p.source.version, p.target.version}
    ensures var e := d.(link := p.target.version);
            RecognizesCommitted(p, e) == Some(false) && !Safe(p, e)
  {
    var e := d.(link := p.target.version);
    assert e.releases.Keys ==
           {p.target.version} + (if p.source.version in e.releases then {p.source.version} else {});
    assert StoredRelease(e, p.source.version) == Some(p.source);
  }

  /**
    The three stages exclude each other, and until `committed` is durable nothing but the
    phase file, the staged target, the database and the units may differ from the old installation.
  */
  lemma StagesExclusive(p: Plan, d: Disk)
    requires p.Valid() && Safe(p, d)
    ensures BeforeCommit(p, d) ==> !AfterCommit(p, d) && !Finished(p, d)
    ensures AfterCommit(p, d) ==> !Finished(p, d)
    ensures !CommittedOrLater(p, d) ==>
              && d.link == p.source.version && d.assets == p.oldAssets
                && StoredRelease(d, p.source.version) == Some(p.source)
              && (d.head == p.source.schema || (d.head == p.target.schema && Phased(d, Migrating)))
    ensures d.link == p.target.version ==> CommittedOrLater(p, d) && d.assets == p.newAssets
    ensures StoredRelease(d, p.source.version) != Some(p.source) ==>
              CommittedOrLater(p, d) && d.link == p.target.version && d.assets == p.newAssets
  {
  }
}
