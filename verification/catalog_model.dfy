/**
  One Source's media catalog as a machine of atomic transactions.

  Any number of reconciliation attempts, Source edits, refresh requests and request
  handlers interleave; `Apply` is what one committed transaction does, a rolled back one
  changing nothing. Attempts are told apart by the generation `_start` gave them.
*/
module CatalogModel {
  import opened Basics

  type Path = string
  type Authority = int  // the Source's kind, path and recursive setting

  datatype Media = Image | Video
  datatype Orientation = Portrait | Landscape | Square
  datatype Dimensions = Dimensions(width: int, height: int, orientation: Orientation)
  datatype Metadata = NotImage | Pending | Error | Ready(dimensions: Dimensions)

  /** What an enumerator yields, and what an inspection is made against. */
  datatype Entry = Entry(path: Path, media: Media, size: int, mtime: int)

  datatype Row = Row(id: nat, media: Media, size: int, mtime: int, seen: nat, metadata: Metadata)

  datatype Result = NeverScanned | Success | Cancelled | Unavailable | Failed

  datatype State = State(requested: nat, handled: nat, scan: nat, completed: nat, result: Result)

  datatype Source = Source(enabled: bool, filesystem: bool, authority: Authority)

  /** `started` remembers the authority each attempt captured; it is history, not a column. */
  datatype Store = Store(source: Source, state: Option<State>, rows: map<Path, Row>, lastId: nat,
                         started: map<nat, Authority>)

  datatype Event =
    | Start(gate: Option<nat>)
    | Observe(generation: nat, entries: seq<Entry>)
    | Remove(generation: nat, paths: set<Path>)
    | Finish(generation: nat, result: Result)
    | Save(generation: nat, entry: Entry, metadata: Metadata)
    | Edit(source: Source)
    | Invalidate
    | Request
    | Handle(token: nat)

  // --------------------------------------------------------------- transactions

  const PATH_LIMIT := 4096

  predicate Reconcilable(source: Source) {
    source.enabled && source.filesystem
  }

  predicate IsCurrent(s: Store, generation: nat) {
    s.state.Some? && s.state.value.scan == generation
  }

  /** A gated start is refused unless its token is requested and not yet handled. */
  predicate TokenLive(s: Store, token: Option<nat>) {
    token.Some? ==> s.state.Some? && s.state.value.handled < token.value <= s.state.value.requested
  }

  function EntryOf(path: Path, row: Row): Entry {
    Entry(path, row.media, row.size, row.mtime)
  }

  function ObserveOne(s: Store, generation: nat, e: Entry): (r: Store) {
    var known := e.path in s.rows;
    var same := known && EntryOf(e.path, s.rows[e.path]) == e;
    var id := if known then s.rows[e.path].id else s.lastId + 1;
    var metadata := if same then s.rows[e.path].metadata
                    else if e.media == Image then Metadata.Pending else NotImage;
    s.(rows := s.rows[e.path := Row(id, e.media, e.size, e.mtime, generation, metadata)],
       lastId := if known then s.lastId else s.lastId + 1)
  }

  function ObserveAll(s: Store, generation: nat, entries: seq<Entry>): (r: Store) {
    if entries == [] then s
    else ObserveOne(ObserveAll(s, generation, entries[..|entries| - 1]), generation, entries[|entries| - 1])
  }

  function Absent(rows: map<Path, Row>, generation: nat): (paths: set<Path>) {
    set p | p in rows && rows[p].seen != generation
  }

  /** How many code points one, two, three and four bytes can carry: 7, 11, 16 and 21 bits. */
  const PAYLOADS: seq<int> := [0, 0x80, 0x800, 0x1_0000, 0x20_0000]

  /** The bytes a character takes in UTF-8: the fewest whose payload holds it (section 3 of RFC 3629). */
  function Utf8Width(c: char): (n: nat)
    ensures 1 <= n <= 4 && c as int < PAYLOADS[n] && (n > 1 ==> PAYLOADS[n - 1] <= c as int)
  {
    if c as int < 0x80 then 1 else if c as int < 0x800 then 2 else if c as int < 0x1_0000 then 3 else 4
  }

  function Utf8Length(path: Path): (n: nat)
    ensures |path| <= n <= 4 * |path|
  {
    if path == "" then 0 else Utf8Width(path[0]) + Utf8Length(path[1..])
  }

  /** Every path of the batch is within the bound, counted in UTF-8 bytes. */
  predicate Fits(entries: seq<Entry>) {
    forall i :: 0 <= i < |entries| ==> Utf8Length(entries[i].path) <= PATH_LIMIT
  }

  /** `supersede_catalog` in a Source edit: tokens stay monotonic, the running attempt loses its fence. */
  function Supersede(st: State): State {
    st.(scan := st.scan + 1, completed := st.scan + 1, handled := st.requested)
  }

  function Apply(s: Store, e: Event): (r: Store) {
    match e
    case Start(token) =>
      if !Reconcilable(s.source) || !TokenLive(s, token) then s
      else
        var st := if s.state.Some? then s.state.value else State(0, 0, 0, 0, NeverScanned);
        s.(state := Some(st.(scan := st.scan + 1)), started := s.started[st.scan + 1 := s.source.authority])
    case Observe(generation, entries) =>
      if IsCurrent(s, generation) && Fits(entries) then ObserveAll(s, generation, entries) else s
    case Remove(generation, paths) =>
      if IsCurrent(s, generation) && paths <= Absent(s.rows, generation) then s.(rows := s.rows - paths) else s
    case Finish(generation, result) =>
      if IsCurrent(s, generation)
      then s.(state := Some(s.state.value.(completed := generation, result := result))) else s
    case Save(generation, entry, metadata) =>
      if IsCurrent(s, generation) && entry.media == Image && entry.path in s.rows
         && EntryOf(entry.path, s.rows[entry.path]) == entry
      then s.(rows := s.rows[entry.path := s.rows[entry.path].(metadata := metadata)])
      else s
    case Edit(source) =>
      var moved := source.authority != s.source.authority || source.filesystem != s.source.filesystem;
      var fenced := moved || (s.source.enabled && !source.enabled);
      var st := if fenced && s.state.Some? then
                  var t := Supersede(s.state.value);
                  Some(if moved then t.(result := NeverScanned) else t)
                else s.state;
      s.(source := source, state := st, rows := if moved then map[] else s.rows)
    case Invalidate =>
      s.(rows := map[],
         state := if s.state.Some? then Some(Supersede(s.state.value).(result := NeverScanned)) else None)
    case Request =>
      if !Reconcilable(s.source) then s
      else
        var st := if s.state.Some? then s.state.value else State(0, 0, 0, 0, NeverScanned);
        s.(state := Some(st.(requested := st.requested + 1)))
    case Handle(token) =>
      if s.state.Some? && s.state.value.handled < token <= s.state.value.requested
      then s.(state := Some(s.state.value.(handled := token))) else s
  }

  /**
    An edit that changes what the Source is, or disables it, ends every attempt: none is current any more,
    nothing counts as interrupted and no request is left; a changed Source also starts from an empty
    catalog. Any other edit leaves catalog and attempt alone.
  */
  lemma EditEndsAttempts(s: Store, source: Source, generation: nat)
    requires IsCurrent(s, generation)
    ensures var t := Apply(s, Edit(source));
            && t.source == source && t.lastId == s.lastId && t.started == s.started
            && if source.authority != s.source.authority || source.filesystem != s.source.filesystem then
                 && !IsCurrent(t, generation) && t.rows == map[]
                 && Settled(t) && t.state.value.result == NeverScanned
               else if s.source.enabled && !source.enabled then
                 && !IsCurrent(t, generation) && t.rows == s.rows
                 && Settled(t) && t.state.value.result == s.state.value.result
               else t.state == s.state && t.rows == s.rows
  {
  }

  /** No scan is unfinished and no request is open. */
  predicate Settled(s: Store) {
    s.state.Some? && s.state.value.completed == s.state.value.scan && s.state.value.handled == s.state.value.requested
  }

  /** Dropping the whole catalog ends every attempt too; without a state there is nothing to end. */
  lemma InvalidateEndsAttempts(s: Store, generation: nat)
    ensures var t := Apply(s, Invalidate);
            && t.rows == map[] && t.source == s.source
            && (IsCurrent(s, generation) ==>
                  !IsCurrent(t, generation) && Settled(t) && t.state.value.result == NeverScanned)
            && (s.state.None? ==> t.state.None?)
  {
  }

  /** A request opens one more token, and touches nothing else. */
  lemma RequestOpensToken(s: Store)
    ensures var t := Apply(s, Request);
            if s.source.enabled && s.source.filesystem then
              && Requested(t) == Requested(s) + 1 && Handled(t) == Handled(s) && Scan(t) == Scan(s)
              && t.rows == s.rows && t.source == s.source
            else t == s
  {
  }

  /**
    Observing keeps what is known of an unchanged file, its row identity and its inspection; a changed image
    is to be inspected again, and a new file gets an identity never used before.
  */
  lemma ObservedRow(s: Store, generation: nat, e: Entry)
    ensures var t := ObserveOne(s, generation, e);
            && e.path in t.rows && EntryOf(e.path, t.rows[e.path]) == e && t.rows[e.path].seen == generation
            && (forall p | p in s.rows && p != e.path :: p in t.rows && t.rows[p] == s.rows[p])
            && t.rows.Keys == s.rows.Keys + {e.path}
            && if e.path in s.rows then
                 && t.rows[e.path].id == s.rows[e.path].id && t.lastId == s.lastId
                 && (EntryOf(e.path, s.rows[e.path]) == e ==> t.rows[e.path].metadata == s.rows[e.path].metadata)
                 && (EntryOf(e.path, s.rows[e.path]) != e ==> Unknown(t.rows[e.path]))
               else t.rows[e.path].id == t.lastId == s.lastId + 1 && Unknown(t.rows[e.path])
  {
  }

  /** An image still to be inspected; anything else never is. */
  predicate Unknown(row: Row) {
    row.metadata == if row.media == Image then Metadata.Pending else NotImage
  }

  function Run(s: Store, log: seq<Event>): (r: Store) {
    if log == [] then s else Apply(Run(s, log[..|log| - 1]), log[|log| - 1])
  }

  // ------------------------------------------------------------------ invariant

  /** How inspections behave: which dimensions inspecting an entry under an authority may yield. */
  type Inspection = (Authority, Entry, Dimensions) -> bool

  /** A save carries what an inspection under its attempt's own authority really yielded. */
  predicate Genuine(s: Store, inspects: Inspection, e: Event) {
    e.Save? && e.metadata.Ready? ==>
      e.generation in s.started && inspects(s.started[e.generation], e.entry, e.metadata.dimensions)
  }

  ghost predicate Consistent(s: Store, inspects: Inspection) {
    && (s.state.Some? ==>
          && s.state.value.handled <= s.state.value.requested
          && s.state.value.completed <= s.state.value.scan
          && (s.state.value.scan in s.started ==> s.started[s.state.value.scan] == s.source.authority))
    && (forall g | g in s.started :: s.state.Some? && g <= s.state.value.scan)
    && (forall p | p in s.rows :: s.state.Some? && s.rows[p].seen <= s.state.value.scan && s.rows[p].id <= s.lastId)
    && (forall p, q | p in s.rows && q in s.rows && p != q :: s.rows[p].id != s.rows[q].id)
    && (forall p | p in s.rows && s.rows[p].metadata.Ready? ::
          s.rows[p].media == Image
          && inspects(s.source.authority, EntryOf(p, s.rows[p]), s.rows[p].metadata.dimensions))
  }

  lemma ApplyKeepsConsistent(s: Store, inspects: Inspection, e: Event)
    requires Consistent(s, inspects) && Genuine(s, inspects, e)
    ensures Consistent(Apply(s, e), inspects)
  {
    if e.Observe? && IsCurrent(s, e.generation) && Fits(e.entries) {
      ObserveAllKeepsConsistent(s, inspects, e.generation, e.entries);
    }
  }

  lemma {:induction false} ObserveAllKeepsConsistent(s: Store, inspects: Inspection, generation: nat,
    entries: seq<Entry>)
    requires Consistent(s, inspects) && IsCurrent(s, generation)
    ensures Consistent(ObserveAll(s, generation, entries), inspects)
    ensures ObserveAll(s, generation, entries).state == s.state
    ensures ObserveAll(s, generation, entries).source == s.source
  {
    if entries != [] {
      ObserveAllKeepsConsistent(s, inspects, generation, entries[..|entries| - 1]);
    }
  }

  // ------------------------------------------------------------ refresh requests

  /** The handled and requested counters, zero while there is no state row. */
  function Handled(s: Store): nat {
    if s.state.Some? then s.state.value.handled else 0
  }

  function Requested(s: Store): nat {
    if s.state.Some? then s.state.value.requested else 0
  }

  function Scan(s: Store): nat {
    if s.state.Some? then s.state.value.scan else 0
  }

  /**
    A transaction after which every request made so far has been dealt with: a scan started, was refused as
    invalid, or an edit superseded.
  */
  predicate Serves(s: Store, e: Event) {
    match e
    case Start(gate) => !Reconcilable(s.source) || TokenLive(s, gate)
    case Edit(source) =>
      source.authority != s.source.authority || source.filesystem != s.source.filesystem
      || (s.source.enabled && !source.enabled)
    case Invalidate => true
    case _ => false
  }

  /** The newest request that some transaction of the run has served. */
  function Served(s: Store, log: seq<Event>): (n: nat) {
    if log == [] then Handled(s)
    else
      var before := log[..|log| - 1];
      if Serves(Run(s, before), log[|log| - 1]) then Requested(Run(s, before)) else Served(s, before)
  }

  /** Every save of the run was genuine, and handlers marked only tokens that had been served. */
  predicate Lawful(s: Store, inspects: Inspection, log: seq<Event>) {
    log == [] ||
    var before, e := log[..|log| - 1], log[|log| - 1];
    && Lawful(s, inspects, before)
    && Genuine(Run(s, before), inspects, e)
    && (e.Handle? ==> e.token <= Served(s, before))
  }

  lemma RunExtend(s: Store, inspects: Inspection, log: seq<Event>, e: Event)
    ensures Run(s, log + [e]) == Apply(Run(s, log), e)
    ensures Served(s, log + [e]) == if Serves(Run(s, log), e) then Requested(Run(s, log)) else Served(s, log)
    ensures Lawful(s, inspects, log + [e]) <==>
            && Lawful(s, inspects, log) && Genuine(Run(s, log), inspects, e)
            && (e.Handle? ==> e.token <= Served(s, log))
  {
    assert (log + [e])[..|log|] == log;
  }

  /**
    On every run: ready dimensions come from inspecting exactly the row's present path, type, size and
    mtime under the Source's present authority; no row claims a generation that was not
    started; completion, handling and row identities stay in order.
  */
  lemma {:induction false} RunKeepsConsistent(s: Store, inspects: Inspection, log: seq<Event>)
    requires Consistent(s, inspects) && Lawful(s, inspects, log)
    ensures Consistent(Run(s, log), inspects)
  {
    if log != [] {
      var before := log[..|log| - 1];
      RunKeepsConsistent(s, inspects, before);
      ApplyKeepsConsistent(Run(s, before), inspects, log[|log| - 1]);
    }
  }

  lemma ObserveAllFrame(s: Store, generation: nat, entries: seq<Entry>)
    ensures ObserveAll(s, generation, entries) ==
            s.(rows := ObserveAll(s, generation, entries).rows, lastId := ObserveAll(s, generation, entries).lastId)
  {
  }

  /** No transaction lowers a counter. */
  lemma ApplyIsMonotone(s: Store, e: Event)
    requires Handled(s) <= Requested(s)
    ensures Handled(s) <= Handled(Apply(s, e)) <= Requested(Apply(s, e))
    ensures Requested(s) <= Requested(Apply(s, e)) && Scan(s) <= Scan(Apply(s, e))
    ensures s.state.Some? ==> Apply(s, e).state.Some?
  {
    if e.Observe? { ObserveAllFrame(s, e.generation, e.entries); }
  }

  lemma {:induction false} ServedBounds(s: Store, inspects: Inspection, log: seq<Event>)
    requires Handled(s) <= Requested(s) && Lawful(s, inspects, log)
    ensures Handled(s) <= Handled(Run(s, log)) <= Served(s, log) <= Requested(Run(s, log))
  {
    if log != [] {
      var before, e := log[..|log| - 1], log[|log| - 1];
      ServedBounds(s, inspects, before);
      ApplyIsMonotone(Run(s, before), e);
      if e.Observe? { ObserveAllFrame(Run(s, before), e.generation, e.entries); }
    }
  }

  /**
    No lost refresh: once the handled counter passes a token, some transaction of the run has served
    it, and did so after the token was committed.
  */
  lemma {:induction false} NoLostRefresh(s: Store, inspects: Inspection, log: seq<Event>, token: nat) returns (at: nat)
    requires Handled(s) <= Requested(s) && Lawful(s, inspects, log)
    requires Handled(s) < token <= Handled(Run(s, log))
    ensures at < |log| && Serves(Run(s, log[..at]), log[at]) && token <= Requested(Run(s, log[..at]))
  {
    ServedBounds(s, inspects, log);
    at := ServedBy(s, log, token);
  }

  lemma {:induction false} ServedBy(s: Store, log: seq<Event>, token: nat) returns (at: nat)
    requires Handled(s) < token <= Served(s, log)
    ensures at < |log| && Serves(Run(s, log[..at]), log[at]) && token <= Requested(Run(s, log[..at]))
  {
    var before := log[..|log| - 1];
    if Serves(Run(s, before), log[|log| - 1]) {
      at := |log| - 1;
    } else {
      at := ServedBy(s, before, token);
      assert before[..at] == log[..at];
    }
  }

  // ------------------------------------------------------------------- exactness

  /** The last entry enumerated for each path. */
  function Latest(entries: seq<Entry>): (m: map<Path, Entry>) {
    if entries == [] then map[]
    else var e := entries[|entries| - 1]; Latest(entries[..|entries| - 1])[e.path := e]
  }

  /** Exactly these entries have been observed by this generation; other rows may be older. */
  ghost predicate Observed(rows: map<Path, Row>, generation: nat, entries: seq<Entry>) {
    && (forall p | p in Latest(entries) ::
          p in rows && rows[p].seen == generation && EntryOf(p, rows[p]) == Latest(entries)[p])
    && (forall p | p in rows && rows[p].seen == generation :: p in Latest(entries))
  }

  /** The catalog is the enumeration: same paths, each with the type, size and mtime last enumerated. */
  ghost predicate Exactly(rows: map<Path, Row>, generation: nat, entries: seq<Entry>) {
    && rows.Keys == Latest(entries).Keys
    && forall p | p in rows :: rows[p].seen == generation && EntryOf(p, rows[p]) == Latest(entries)[p]
  }

  lemma {:induction false} ObserveMore(s: Store, generation: nat, done: seq<Entry>, batch: seq<Entry>)
    requires Observed(s.rows, generation, done)
    ensures Observed(ObserveAll(s, generation, batch).rows, generation, done + batch)
  {
    if batch == [] {
      assert done + batch == done;
    } else {
      var most, e := batch[..|batch| - 1], batch[|batch| - 1];
      ObserveMore(s, generation, done, most);
      assert (done + batch)[..|done + batch| - 1] == done + most;
    }
  }

  /** Observing everything and having nothing left to remove is exactness. */
  lemma ObservedAndNoneAbsent(rows: map<Path, Row>, generation: nat, entries: seq<Entry>)
    requires Observed(rows, generation, entries) && Absent(rows, generation) == {}
    ensures Exactly(rows, generation, entries)
  {
    forall p | p in rows ensures rows[p].seen == generation {
      assert p !in Absent(rows, generation);
    }
  }

  // ---------------------------------------------------------------- interference

  /** What other attempts, edits and requests may do between two transactions of one attempt. */
  ghost predicate Rely(s: Store, t: Store, generation: nat) {
    && (s.state.Some? ==> t.state.Some?)
    && Scan(s) <= Scan(t) && Requested(s) <= Requested(t) && Handled(s) <= Handled(t)
    && s.started.Keys <= t.started.Keys
    && (generation in s.started ==> t.started[generation] == s.started[generation])
    && (IsCurrent(s, generation) && IsCurrent(t, generation) ==>
          t.rows == s.rows && t.lastId == s.lastId && t.source.authority == s.source.authority
          && t.state.value.completed == s.state.value.completed && t.state.value.result == s.state.value.result)
  }

  /** A transaction that carries this attempt's own generation. */
  predicate OwnedBy(e: Event, generation: nat) {
    match e
    case Observe(g, _) => g == generation
    case Remove(g, _) => g == generation
    case Finish(g, _) => g == generation
    case Save(g, _, _) => g == generation
    case _ => false
  }

  /** The fence: no foreign transaction touches the rows of an attempt that is and stays current. */
  lemma ForeignTransactionRelies(s: Store, inspects: Inspection, e: Event, generation: nat)
    requires Consistent(s, inspects) && !OwnedBy(e, generation)
    requires generation <= Scan(s)
    ensures Rely(s, Apply(s, e), generation)
  {
    ApplyIsMonotone(s, e);
    if e.Observe? { ObserveAllFrame(s, e.generation, e.entries); }
  }

  lemma RelyTransitive(s: Store, t: Store, u: Store, generation: nat)
    requires generation <= Scan(s) && Rely(s, t, generation) && Rely(t, u, generation)
    ensures Rely(s, u, generation)
  {
  }

  /** How many transactions of the run handled a request. */
  function Handlings(log: seq<Event>): (n: nat) {
    if log == [] then 0 else Handlings(log[..|log| - 1]) + if log[|log| - 1].Handle? then 1 else 0
  }

  /** The transactions of one attempt, in commit order. */
  function Own(log: seq<Event>, generation: nat): (own: seq<Event>) {
    if log == [] then []
    else
      var e := log[|log| - 1];
      Own(log[..|log| - 1], generation) + if OwnedBy(e, generation) then [e] else []
  }

  lemma CountsExtend(log: seq<Event>, e: Event)
    ensures Handlings(log + [e]) == Handlings(log) + if e.Handle? then 1 else 0
    ensures forall g: nat :: Own(log + [e], g) == Own(log, g) + if OwnedBy(e, g) then [e] else []
  {
    assert (log + [e])[..|log|] == log;
  }

  // ------------------------------------------------------- what one attempt did

  /** Everything its observations enumerated, in order. */
  function Seen(own: seq<Event>): (entries: seq<Entry>) {
    if own == [] then []
    else
      var e := own[|own| - 1];
      Seen(own[..|own| - 1]) + if e.Observe? then e.entries else []
  }

  lemma SeenExtends(own: seq<Event>, e: Event)
    ensures Seen(own + [e]) == Seen(own) + if e.Observe? then e.entries else []
  {
    assert (own + [e])[..|own|] == own;
  }

  lemma {:induction false} SeenBeyond(own: seq<Event>, more: seq<Event>)
    requires forall i :: 0 <= i < |more| ==> !more[i].Observe?
    ensures Seen(own + more) == Seen(own)
  {
    if more == [] {
      assert own + more == own;
    } else {
      var most := more[..|more| - 1];
      SeenBeyond(own, most);
      assert own + more == (own + most) + [more[|more| - 1]];
      SeenExtends(own + most, more[|more| - 1]);
    }
  }

  /** No row is removed before the whole enumeration has been observed. */
  ghost predicate CompleteBeforeRemoval(own: seq<Event>, entries: seq<Entry>) {
    forall i :: 0 <= i < |own| && own[i].Remove? ==> Seen(own[..i]) == entries
  }

  lemma ObserveThenRemove(first: seq<Event>, removals: seq<Event>, entries: seq<Entry>)
    requires forall i :: 0 <= i < |first| ==> first[i].Observe?
    requires forall i :: 0 <= i < |removals| ==> !removals[i].Observe?
    requires removals != [] ==> Seen(first) == entries
    ensures CompleteBeforeRemoval(first + removals, entries)
  {
    var own := first + removals;
    forall i | 0 <= i < |own| && own[i].Remove? ensures Seen(own[..i]) == entries {
      var k := i - |first|;
      assert own[..i] == first + removals[..k];
      SeenBeyond(first, removals[..k]);
    }
  }

  /** The entries whose inspection it saved. */
  function Inspected(own: seq<Event>): (entries: set<Entry>)
    ensures forall i :: 0 <= i < |own| && own[i].Save? ==> own[i].entry in entries
  {
    set e | e in own && e.Save? :: e.entry
  }

  lemma InspectedTogether(a: seq<Event>, b: seq<Event>)
    ensures Inspected(a + b) == Inspected(a) + Inspected(b)
  {
    forall x | x in Inspected(a) + Inspected(b) ensures x in Inspected(a + b) {
      if x in Inspected(a) {
        var e :| e in a && e.Save? && e.entry == x;
        assert e in a + b;
      } else {
        var e :| e in b && e.Save? && e.entry == x;
        assert e in a + b;
      }
    }
  }

  /** One save for each of the first entries of a page, in its order. */
  ghost predicate SavesOf(own: seq<Event>, generation: nat, entries: seq<Entry>) {
    && |own| <= |entries|
    && forall i :: 0 <= i < |own| ==>
         own[i].Save? && own[i].generation == generation && own[i].entry == entries[i]
  }

  /** Saves only, and never two for one row. */
  ghost predicate DifferentSaves(own: seq<Event>) {
    && (forall i :: 0 <= i < |own| ==> own[i].Save?)
    && forall i, j :: 0 <= i < j < |own| && own[i].Save? && own[j].Save? ==> own[i].entry.path != own[j].entry.path
  }
}
