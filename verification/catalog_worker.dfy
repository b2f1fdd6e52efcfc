/**
  The reconciliation loops and the refresh consumer, run against a database on which other
  transactions may commit between any two of their own.
*/
module CatalogWorker {
  import opened Basics
  import opened CatalogModel

  /** What inspecting one entry yielded. */
  datatype Finding = Finding(entry: Entry, metadata: Metadata)

  /** How a fenced transaction of an attempt ended. */
  datatype Check = Fine | Lost | Unfit

  /** Outcomes of an attempt; `Unstarted` is a refusal as invalid, `Crash` a storage failure. */
  datatype Outcome = Ok | Superseded | Stopped | SourceGone | Broken | Unstarted | Crash

  class CatalogDatabase {
    const origin: Store
    const inspects: Inspection
    const calm: bool     // the enumeration ends, nothing fails or stops the attempt, and nobody else commits
    var store: Store
    var log: seq<Event>  // every committed transaction, in commit order
    var stop: bool       // the runtime's shared stop event; only the environment sets it
    ghost var stoppedAtEnd: bool  // whether it was set when the last attempt ended
    ghost var found: seq<Finding>  // everything inspections ever yielded; only `Inspect` adds to it

    ghost predicate Valid()
      reads this
    {
      Consistent(origin, inspects) && store == Run(origin, log) && Lawful(origin, inspects, log)
    }

    constructor (origin: Store, inspects: Inspection, calm: bool)
      requires Consistent(origin, inspects)
      ensures Valid() && store == origin && log == [] && this.inspects == inspects && this.calm == calm && !stop
    {
      this.origin, this.inspects, this.calm, store, log := origin, inspects, calm, origin, [];
      stop, stoppedAtEnd, found := false, false, [];
    }

    /** The newest request served so far. */
    function Answered(): (n: nat)
      reads this
    {
      Served(origin, log)
    }

    /** Nothing disturbs the attempt, and it is the current one. */
    predicate Steady(generation: nat)
      reads this
    {
      calm && !stop && IsCurrent(store, generation)
    }

    /** The scan last completed. */
    function Completed(): nat
      reads this
    {
      if store.state.Some? then store.state.value.completed else 0
    }

    /** What every member that works for one attempt promises. */
    twostate predicate Worked(generation: nat)
      reads this
    {
      && Valid() && 0 < generation <= Scan(store)
      && (generation in old(store).started ==> generation in store.started)
      && Handlings(log) == Handlings(old(log))
      && old(Answered()) <= Answered()
      && old(Scan(store)) <= Scan(store) && old(Requested(store)) <= Requested(store)
        && old(Handled(store)) <= Handled(store)
      && (old(stop) ==> stop) && old(log) <= log
    }

    /** `is_set`: the environment may set the stop event at any time, and nobody takes it back. */
    method StopIsSet() returns (now: bool)
      modifies this`stop
      ensures now == stop && (old(stop) ==> stop) && (calm ==> stop == old(stop))
    {
      if * {
        stop := stop || !calm;
      }
      now := stop;
    }

    /** Storage may fail. */
    method Fault() returns (raised: bool)
      ensures calm ==> !raised
    {
      raised := *;
      raised := raised && !calm;
    }

    /** One committed transaction. */
    method Commit(next: Store, e: Event)
      requires Valid() && next == Apply(store, e)
      requires Genuine(store, inspects, e) && (e.Handle? ==> e.token <= Answered())
      modifies this`store, this`log
      ensures Valid() && store == next && log == old(log) + [e]
      ensures Answered() == if Serves(old(store), e) then Requested(old(store)) else old(Answered())
      ensures Handlings(log) == Handlings(old(log)) + if e.Handle? then 1 else 0
      ensures forall g: nat :: Own(log, g) == Own(old(log), g) + if OwnedBy(e, g) then [e] else []
      ensures old(Handled(store)) <= Handled(store) <= Requested(store)
      ensures old(Requested(store)) <= Requested(store) && old(Scan(store)) <= Scan(store)
      ensures old(Answered()) <= Answered()
    {
      RunExtend(origin, inspects, log, e);
      CountsExtend(log, e);
      ServedBounds(origin, inspects, log);
      ApplyIsMonotone(store, e);
      store, log := next, log + [e];
    }

    /** Any transactions of other attempts, edits and requests. The refresh consumer is the only handler. */
    method Interfere(generation: nat)
      requires Valid() && 0 < generation <= Scan(store)
      modifies this`store, this`log, this`stop
      ensures Worked(generation) && Rely(old(store), store, generation)
      ensures Own(log, generation) == Own(old(log), generation)
      ensures calm ==> store == old(store) && log == old(log) && stop == old(stop)
    {
      var _ := StopIsSet();
      var n: nat := *;
      while n > 0 && !calm
        invariant Worked(generation) && Rely(old(store), store, generation)
        invariant calm ==> store == old(store) && log == old(log) && stop == old(stop)
        invariant Own(log, generation) == Own(old(log), generation)
      {
        var e: Event := *;
        if !OwnedBy(e, generation) && !e.Handle? && Genuine(store, inspects, e) {
          RunKeepsConsistent(origin, inspects, log);
          ForeignTransactionRelies(store, inspects, e, generation);
          RelyTransitive(old(store), store, Apply(store, e), generation);
          Commit(Apply(store, e), e);
        }
        n := n - 1;
      }
    }

    /** The same between two pieces of work that belong to no attempt. */
    method InterfereBetween()
      requires Valid()
      modifies this`store, this`log, this`stop
      ensures old(stop) ==> stop
      ensures Valid() && Handlings(log) == Handlings(old(log)) && old(Answered()) <= Answered()
      ensures old(Requested(store)) <= Requested(store) && old(Handled(store)) <= Handled(store)
      ensures old(store).state.Some? ==> store.state.Some?
      ensures calm ==> store == old(store) && log == old(log) && stop == old(stop)
    {
      var _ := StopIsSet();
      var n: nat := *;
      while n > 0 && !calm
        invariant calm ==> store == old(store) && log == old(log) && stop == old(stop)
        invariant Valid() && Handlings(log) == Handlings(old(log)) && old(Answered()) <= Answered()
        invariant old(Requested(store)) <= Requested(store) && old(Handled(store)) <= Handled(store)
        invariant (old(store).state.Some? ==> store.state.Some?) && (old(stop) ==> stop)
      {
        var e: Event := *;
        if !e.Handle? && Genuine(store, inspects, e) {
          RunKeepsConsistent(origin, inspects, log);
          ApplyIsMonotone(store, e);
          Commit(Apply(store, e), e);
        }
        n := n - 1;
      }
    }

    /** `_start`: the generation of the new attempt, or why there is none. */
    method Start(gate: Option<nat>) returns (o: Outcome, generation: nat)
      requires Valid()
      modifies this`store, this`log
      ensures Valid() && o in {Ok, Unstarted, Superseded}
      ensures log == old(log) + [Event.Start(gate)] && store == Apply(old(store), Event.Start(gate))
      ensures o.Unstarted? <==> !Reconcilable(old(store).source)
      ensures o.Ok? ==> TokenLive(old(store), gate) && generation == Scan(store) == Scan(old(store)) + 1
      ensures o.Ok? ==> generation in store.started && Observed(store.rows, generation, [])
      ensures o.Superseded? ==> !TokenLive(old(store), gate)
      ensures o.Unstarted? <==> !(old(store).source.enabled && old(store).source.filesystem)
      ensures o.Ok? && gate.Some? ==> Handled(old(store)) < gate.value <= Requested(old(store))
      ensures o.Superseded? ==>
                gate.Some? && !(old(store).state.Some? && Handled(old(store)) < gate.value <= Requested(old(store)))
      ensures o.Ok? ==> store.started[generation] == old(store).source.authority && store.rows == old(store).rows
      ensures !o.Superseded? ==> Answered() == Requested(old(store))
      ensures o.Superseded? ==> Answered() == old(Answered())
      ensures Handlings(log) == Handlings(old(log)) && old(Handled(store)) <= Handled(store)
    {
      RunKeepsConsistent(origin, inspects, log);
      generation := 0;
      if !Reconcilable(store.source) {
        Commit(store, Event.Start(gate));
        return Unstarted, generation;
      }
      if !TokenLive(store, gate) {
        Commit(store, Event.Start(gate));
        return Superseded, generation;
      }
      var st := if store.state.Some? then store.state.value else State(0, 0, 0, 0, NeverScanned);
      generation := st.scan + 1;
      Commit(store.(state := Some(st.(scan := generation)),
                    started := store.started[generation := store.source.authority]),
             Event.Start(gate));
      o := Ok;
    }

    /** `_observe`: one batch in one transaction; an oversized path rolls the whole batch back. */
    method Observe(generation: nat, entries: seq<Entry>) returns (c: Check)
      requires Valid() && 0 < generation <= Scan(store)
      modifies this`store, this`log
      ensures Valid()
      ensures c.Fine? ==> IsCurrent(old(store), generation) && Fits(entries)
      ensures c.Lost? <==> !IsCurrent(old(store), generation)
      ensures c.Unfit? <==> IsCurrent(old(store), generation) && !Fits(entries)
      ensures c.Fine? ==> forall i :: 0 <= i < |entries| ==> Utf8Length(entries[i].path) <= 4096
      ensures store == if c.Fine? then ObserveAll(old(store), generation, entries) else old(store)
      ensures log == if c.Fine? then old(log) + [Event.Observe(generation, entries)] else old(log)
      ensures Worked(generation)
      ensures Own(log, generation) ==
              Own(old(log), generation) + if c.Fine? then [Event.Observe(generation, entries)] else []
    {
      if !IsCurrent(store, generation) {
        return Lost;
      }
      var next, i := store, 0;
      while i < |entries|
        invariant 0 <= i <= |entries|
        invariant Fits(entries[..i]) && next == ObserveAll(store, generation, entries[..i])
      {
        if Utf8Length(entries[i].path) > PATH_LIMIT {
          return Unfit;
        }
        assert entries[..i + 1][..i] == entries[..i];
        next := ObserveOne(next, generation, entries[i]);
        i := i + 1;
      }
      assert entries[..i] == entries;
      ObserveAllFrame(store, generation, entries);
      Commit(next, Event.Observe(generation, entries));
      c := Fine;
    }

    method LowestId(rest: set<Path>) returns (lowest: Path)
      requires Valid() && rest != {} && rest <= store.rows.Keys
      ensures lowest in rest
      ensures forall p | p in rest && p != lowest :: store.rows[lowest].id < store.rows[p].id
    {
      RunKeepsConsistent(origin, inspects, log);
      lowest :| lowest in rest;
      var todo := rest - {lowest};
      while todo != {}
        invariant todo <= rest && lowest in rest
        invariant forall p | p in rest && p !in todo && p != lowest :: store.rows[lowest].id < store.rows[p].id
        decreases todo
      {
        var p :| p in todo;
        if store.rows[p].id < store.rows[lowest].id { lowest := p; }
        todo := todo - {p};
      }
    }

    /** The paths of the lowest `limit` row ids among `candidates`, ascending. */
    method LowestIds(candidates: set<Path>, limit: nat) returns (page: seq<Path>)
      requires Valid() && candidates <= store.rows.Keys
      ensures |page| <= limit && (page == [] && limit > 0 ==> candidates == {})
      ensures forall i :: 0 <= i < |page| ==> page[i] in candidates
      ensures forall i, j :: 0 <= i < j < |page| ==> store.rows[page[i]].id < store.rows[page[j]].id
      ensures |page| < limit ==> forall p | p in candidates :: p in page
      ensures forall p, i | p in candidates && p !in page && 0 <= i < |page| ::
                store.rows[page[i]].id < store.rows[p].id
    {
      page := [];
      var rest := candidates;
      while rest != {} && |page| < limit
        invariant rest <= candidates && |page| <= limit
        invariant forall p | p in candidates :: p in page <==> p !in rest
        invariant forall i :: 0 <= i < |page| ==> page[i] in candidates
        invariant forall i, j :: 0 <= i < j < |page| ==> store.rows[page[i]].id < store.rows[page[j]].id
        invariant forall p, i | p in rest && 0 <= i < |page| :: store.rows[page[i]].id < store.rows[p].id
        decreases rest
      {
        var lowest := LowestId(rest);
        page := page + [lowest];
        rest := rest - {lowest};
      }
    }

    /** One transaction of `_remove_absent`: `none` when nothing was left to remove. */
    method RemovePage(generation: nat, limit: nat) returns (c: Check, none: bool)
      requires Valid() && 0 < generation <= Scan(store) && limit >= 1
      modifies this`store, this`log
      ensures Valid() && !c.Unfit?
      ensures c.Fine? <==> IsCurrent(old(store), generation)
      ensures !c.Fine? || none ==> store == old(store) && log == old(log)
      ensures c.Fine? && none ==> Absent(store.rows, generation) == {}
      ensures c.Fine? && !none ==> Absent(store.rows, generation) < Absent(old(store).rows, generation)
      ensures forall p, q | p in Absent(old(store).rows, generation) && p !in store.rows
                            && q in Absent(store.rows, generation) ::
                old(store).rows[p].id < old(store).rows[q].id
      ensures store == old(store).(rows :=
                old(store).rows - (Absent(old(store).rows, generation) - Absent(store.rows, generation)))
      ensures Worked(generation)
      ensures var gone := Absent(old(store).rows, generation) - Absent(store.rows, generation);
              Own(log, generation) ==
              Own(old(log), generation) + if c.Fine? && !none then [Event.Remove(generation, gone)] else []
    {
      none := true;
      if !IsCurrent(store, generation) {
        return Lost, none;
      }
      var absent := Absent(store.rows, generation);
      var page := LowestIds(absent, limit);
      if page == [] {
        return Fine, none;
      }
      var paths := set p | p in page;
      assert page[0] in paths && paths <= absent;
      none := false;
      Commit(store.(rows := store.rows - paths), Event.Remove(generation, paths));
      assert Absent(store.rows, generation) == absent - paths;
      assert absent - Absent(store.rows, generation) == paths;
      assert old(store).rows - paths == old(store).rows - (absent - Absent(store.rows, generation));
      c := Fine;
    }

    /** `_finish`. */
    method Finish(generation: nat, result: Result) returns (c: Check)
      requires Valid() && 0 < generation <= Scan(store)
      modifies this`store, this`log
      ensures Valid() && !c.Unfit?
      ensures c.Fine? <==> IsCurrent(old(store), generation)
      ensures store == Apply(old(store), Event.Finish(generation, result))
      ensures var st := old(store).state;
              store == if c.Fine? then old(store).(state := Some(st.value.(completed := generation, result := result)))
                       else old(store)
      ensures log == if c.Fine? then old(log) + [Event.Finish(generation, result)] else old(log)
      ensures Worked(generation)
      ensures Own(log, generation) ==
              Own(old(log), generation) + if c.Fine? then [Event.Finish(generation, result)] else []
    {
      if !IsCurrent(store, generation) {
        return Lost;
      }
      Commit(store.(state := Some(store.state.value.(completed := generation, result := result))),
             Event.Finish(generation, result));
      c := Fine;
    }

    /** Images behind a row id that still want inspecting. */
    function Needy(after: nat): (paths: set<Path>)
      reads this
    {
      NeedyRows(store, after)
    }

    /** `_pending`: the next page of them. */
    method PendingPage(generation: nat, after: nat, limit: nat) returns (c: Check, page: seq<Path>)
      requires Valid() && limit >= 1
      ensures c.Fine? <==> IsCurrent(store, generation)
      ensures |page| <= limit && (c.Fine? && page == [] ==> Needy(after) == {})
      ensures forall i :: 0 <= i < |page| ==> page[i] in Needy(after) && page[i] in store.rows
      ensures forall i :: 0 <= i < |page| ==> store.rows[page[i]].id <= store.lastId
      ensures forall i, j :: 0 <= i < j < |page| ==> store.rows[page[i]].id < store.rows[page[j]].id
      ensures page != [] ==> Needy(store.rows[page[|page| - 1]].id) == Needy(after) - (set p | p in page)
    {
      if !IsCurrent(store, generation) {
        return Lost, [];
      }
      RunKeepsConsistent(origin, inspects, log);
      page := LowestIds(Needy(after), limit);
      c := Fine;
    }

    /** `inspect_image`, or its like in a helper process: what it yields is up to the file. */
    method Inspect(generation: nat, entry: Entry) returns (metadata: Metadata)
      requires Valid() && generation in store.started
      modifies this`found
      ensures Genuine(store, inspects, Event.Save(generation, entry, metadata))
      ensures found == old(found) + [Finding(entry, metadata)]
    {
      metadata := *;
      if !Genuine(store, inspects, Event.Save(generation, entry, metadata)) {
        metadata := Metadata.Error;
      }
      found := found + [Finding(entry, metadata)];
    }

    /** `_save_metadata`: dropped unless the row is still the image that was inspected. */
    method Save(generation: nat, entry: Entry, metadata: Metadata) returns (c: Check)
      requires Valid() && 0 < generation <= Scan(store)
               && Genuine(store, inspects, Event.Save(generation, entry, metadata))
      modifies this`store, this`log
      ensures Valid() && !c.Unfit?
      ensures c.Fine? <==> IsCurrent(old(store), generation)
      ensures store == Apply(old(store), Event.Save(generation, entry, metadata))
      ensures store == if c.Fine? && Inspectable(old(store).rows, entry)
                       then old(store).(rows := old(store).rows[entry.path :=
                                                  old(store).rows[entry.path].(metadata := metadata)])
                       else old(store)
      ensures log == if c.Fine? then old(log) + [Event.Save(generation, entry, metadata)] else old(log)
      ensures Worked(generation)
      ensures Own(log, generation) ==
              Own(old(log), generation) + if c.Fine? then [Event.Save(generation, entry, metadata)] else []
    {
      if !IsCurrent(store, generation) {
        return Lost;
      }
      var e := Event.Save(generation, entry, metadata);
      if entry.media != Image || entry.path !in store.rows || EntryOf(entry.path, store.rows[entry.path]) != entry {
        Commit(store, e);
      } else {
        Commit(store.(rows := store.rows[entry.path := store.rows[entry.path].(metadata := metadata)]), e);
      }
      c := Fine;
    }
  }

  function NeedyRows(s: Store, after: nat): (paths: set<Path>) {
    set p | p in s.rows && s.rows[p].id > after && s.rows[p].media == Image
            && (s.rows[p].metadata.Pending? || s.rows[p].metadata.Error?)
  }

  /** Exactly the images that have never been inspected, or not successfully. */
  lemma NeedyAreUninspected(s: Store, after: nat, p: Path)
    requires p in s.rows
    ensures p in NeedyRows(s, after) <==>
            s.rows[p].id > after && s.rows[p].media == Image
            && !s.rows[p].metadata.Ready? && !s.rows[p].metadata.NotImage?
  {
  }

  function AsOutcome(c: Check): Outcome {
    match c
    case Fine => Ok
    case Lost => Superseded
    case Unfit => Broken
  }

  /** What observing comes to when nothing disturbs it. */
  function Observing(entries: seq<Entry>): Outcome {
    if Fits(entries) then Ok else Broken
  }

  /** The row still is the image that is to be inspected. */
  predicate Inspectable(rows: map<Path, Row>, entry: Entry) {
    entry.media == Image && entry.path in rows && EntryOf(entry.path, rows[entry.path]) == entry
  }

  /** What was saved is what the rows hold. */
  ghost predicate Stored(own: seq<Event>, rows: map<Path, Row>) {
    forall i :: 0 <= i < |own| && own[i].Save? ==>
      own[i].entry.path in rows && rows[own[i].entry.path].metadata == own[i].metadata
  }

  /** Different rows that are images to be inspected. */
  ghost predicate PageOf(rows: map<Path, Row>, entries: seq<Entry>) {
    && (forall i :: 0 <= i < |entries| ==> Inspectable(rows, entries[i]))
    && forall i, j :: 0 <= i < j < |entries| ==> entries[i].path != entries[j].path
  }

  /** What was saved is what was found, in that order; the last finding may have been lost to a stop or the fence. */
  ghost predicate FoundAndSaved(own: seq<Event>, found: seq<Finding>) {
    && |own| <= |found| <= |own| + 1
    && forall i :: 0 <= i < |own| ==>
         own[i].Save? && found[i] == Finding(own[i].entry, own[i].metadata)
  }

  /** A stop is reported only if it is set, and an attempt that began is not reported as refused. */
  predicate Reported(o: Outcome, stop: bool) {
    (o.Stopped? ==> stop) && !o.Unstarted?
  }

  lemma Together<T>(a: seq<T>, b: seq<T>, c: seq<T>)
    ensures (a + b) + c == a + (b + c)
  {
  }

  /**
    The batching loop of `_presence`: observe `entries` in batches of any size, with the enumerator or
    a stop able to fail before any of them. `own` is what the attempt committed: observations of
    `entries` from its start, and of all of it on success.
  */
  method ObserveBatches(db: CatalogDatabase, generation: nat, entries: seq<Entry>, batchSize: nat)
    returns (o: Outcome, ghost own: seq<Event>)
    requires db.Valid() && 0 < generation <= Scan(db.store) && batchSize >= 1
    requires IsCurrent(db.store, generation) ==> Observed(db.store.rows, generation, [])
    modifies db
    ensures db.Worked(generation) && Own(db.log, generation) == Own(old(db.log), generation) + own
    ensures forall i :: 0 <= i < |own| ==> own[i].Observe?
    ensures Seen(own) <= entries && (o.Ok? ==> Seen(own) == entries)
    ensures o.Ok? && IsCurrent(db.store, generation) ==> Observed(db.store.rows, generation, entries)
    ensures Reported(o, db.stop) && (old(db.stop) ==> !o.Ok?)
    ensures old(db.Steady(generation)) ==> db.Steady(generation) && o == Observing(entries)
  {
    o, own := Ok, [];
    var batch, i := [], 0;
    while i < |entries|
      invariant Enumerating(own, batch, entries, i) && |batch| < batchSize
      invariant db.Worked(generation) && Own(db.log, generation) == Own(old(db.log), generation) + own
      invariant IsCurrent(db.store, generation) ==> Observed(db.store.rows, generation, Seen(own))
      invariant old(db.Steady(generation)) ==> db.Steady(generation) && Fits(Seen(own))
    {
      ghost var more;
      var longer := batch + [entries[i]];
      o, more := TakeEntry(db, generation, Seen(own), longer, batchSize);
      TookEntry(own, more, generation, batch, entries, i);
      if !o.Ok? { return; }
      Together(Own(old(db.log), generation), own, more);
      own := own + more;
      batch, i := if |longer| == batchSize then [] else longer, i + 1;
    }
    ghost var rest;
    o, rest := FlushRest(db, generation, Seen(own), batch);
    TookRest(own, rest, generation, batch, entries);
    Together(Own(old(db.log), generation), own, rest);
    own := own + rest;
  }


  /** Observed so far and batched since: the enumeration up to `i`. */
  ghost predicate Enumerating(own: seq<Event>, batch: seq<Entry>, entries: seq<Entry>, i: nat) {
    i <= |entries| && (forall k :: 0 <= k < |own| ==> own[k].Observe?) && Seen(own) + batch == entries[..i]
  }

  lemma TookEntry(own: seq<Event>, more: seq<Event>, generation: nat, batch: seq<Entry>, entries: seq<Entry>, i: nat)
    requires i < |entries| && Enumerating(own, batch, entries, i)
    requires more in {[], [Event.Observe(generation, batch + [entries[i]])]}
    ensures Seen(own) <= entries
    ensures if more == [] then own + more == own && Enumerating(own, batch + [entries[i]], entries, i + 1)
            else Enumerating(own + more, [], entries, i + 1) && Seen(own + more) == Seen(own) + (batch + [entries[i]])
    ensures Fits(entries) ==> Fits(batch + [entries[i]])
    ensures Fits(Seen(own)) && (more != [] ==> Fits(batch + [entries[i]])) ==> Fits(Seen(own + more))
  {
    PartsFit(Seen(own), batch + [entries[i]]);
    BeginningFits(entries, i + 1);
    FirstIsPrefix(Seen(own), batch, entries, i);
    OneMore(Seen(own), batch, entries, i);
    if more == [] {
      assert own + more == own;
    } else {
      SeenExtends(own, more[0]);
    }
  }

  lemma PartsFit(a: seq<Entry>, b: seq<Entry>)
    ensures Fits(a + b) <==> Fits(a) && Fits(b)
  {
    assert forall i :: 0 <= i < |a| ==> (a + b)[i] == a[i];
    assert forall i :: 0 <= i < |b| ==> (a + b)[|a| + i] == b[i];
  }

  lemma BeginningFits(entries: seq<Entry>, i: nat)
    requires i <= |entries|
    ensures Fits(entries) ==> Fits(entries[..i])
  {
  }

  lemma FirstIsPrefix(a: seq<Entry>, b: seq<Entry>, entries: seq<Entry>, i: nat)
    requires i <= |entries| && a + b == entries[..i]
    ensures a <= entries
  {
    assert a == (a + b)[..|a|];
  }

  lemma OneMore(a: seq<Entry>, b: seq<Entry>, entries: seq<Entry>, i: nat)
    requires i < |entries| && a + b == entries[..i]
    ensures a + (b + [entries[i]]) == entries[..i + 1]
  {
    assert a + (b + [entries[i]]) == (a + b) + [entries[i]];
  }

  lemma TookRest(own: seq<Event>, rest: seq<Event>, generation: nat, batch: seq<Entry>, entries: seq<Entry>)
    requires Enumerating(own, batch, entries, |entries|) && rest in {[], [Event.Observe(generation, batch)]}
    ensures forall k :: 0 <= k < |own + rest| ==> (own + rest)[k].Observe?
    ensures Seen(own) + batch == entries && Seen(own + rest) <= entries
    ensures rest != [] || batch == [] ==> Seen(own + rest) == entries
    ensures Fits(entries) <==> Fits(Seen(own)) && Fits(batch)
  {
    PartsFit(Seen(own), batch);
    assert entries[..|entries|] == entries;
    FirstIsPrefix(Seen(own), batch, entries, |entries|);
    if rest == [] {
      assert own + rest == own;
    } else {
      SeenExtends(own, rest[0]);
    }
  }

  /** An entry has joined the batch; a full one is observed. */
  method TakeEntry(db: CatalogDatabase, generation: nat, ghost done: seq<Entry>, batch: seq<Entry>, batchSize: nat)
    returns (o: Outcome, ghost own: seq<Event>)
    requires db.Valid() && 0 < generation <= Scan(db.store)
    requires IsCurrent(db.store, generation) ==> Observed(db.store.rows, generation, done)
    modifies db
    ensures db.Worked(generation) && Own(db.log, generation) == Own(old(db.log), generation) + own
    ensures own == if o.Ok? && |batch| == batchSize then [Event.Observe(generation, batch)] else []
    ensures o.Ok? && IsCurrent(db.store, generation) ==>
              Observed(db.store.rows, generation, if |batch| == batchSize then done + batch else done)
    ensures Reported(o, db.stop) && (old(db.stop) ==> !o.Ok?)
    ensures old(db.Steady(generation)) ==>
              db.Steady(generation) && o == if |batch| == batchSize then Observing(batch) else Ok
  {
    own := [];
    o := AwaitEntry(db, generation, done);
    if o.Ok? && |batch| == batchSize {
      o, own := FlushBatch(db, generation, done, batch);
    }
  }

  /** Before each entry the enumerator may fail, others may commit, and a stop may be seen. */
  method AwaitEntry(db: CatalogDatabase, generation: nat, ghost done: seq<Entry>) returns (o: Outcome)
    requires db.Valid() && 0 < generation <= Scan(db.store)
    requires IsCurrent(db.store, generation) ==> Observed(db.store.rows, generation, done)
    modifies db
    ensures db.Worked(generation) && Own(db.log, generation) == Own(old(db.log), generation)
    ensures IsCurrent(db.store, generation) ==> Observed(db.store.rows, generation, done)
    ensures Reported(o, db.stop) && (old(db.stop) ==> !o.Ok?)
    ensures old(db.Steady(generation)) ==> db.Steady(generation) && o.Ok?
  {
    if !db.calm {
      if * { return SourceGone; }
      if * { return Broken; }
    }
    db.Interfere(generation);
    var stopped := db.StopIsSet();
    o := if stopped then Stopped else Ok;
  }

  /** Behind the loop: the last, shorter batch. */
  method FlushRest(db: CatalogDatabase, generation: nat, ghost done: seq<Entry>, batch: seq<Entry>)
    returns (o: Outcome, ghost own: seq<Event>)
    requires db.Valid() && 0 < generation <= Scan(db.store)
    requires IsCurrent(db.store, generation) ==> Observed(db.store.rows, generation, done)
    modifies db
    ensures db.Worked(generation) && Own(db.log, generation) == Own(old(db.log), generation) + own
    ensures own == if o.Ok? && batch != [] then [Event.Observe(generation, batch)] else []
    ensures o.Ok? && IsCurrent(db.store, generation) ==> Observed(db.store.rows, generation, done + batch)
    ensures Reported(o, db.stop) && (old(db.stop) ==> !o.Ok?)
    ensures old(db.Steady(generation)) ==> db.Steady(generation) && o == Observing(batch)
  {
    own := [];
    db.Interfere(generation);
    var stopped := db.StopIsSet();
    if stopped { return Stopped, own; }
    o := Ok;
    if batch != [] {
      o, own := FlushBatch(db, generation, done, batch);
    } else {
      assert done + batch == done;
    }
  }

  /** One `_observe` of the loop. */
  method FlushBatch(db: CatalogDatabase, generation: nat, ghost done: seq<Entry>, batch: seq<Entry>)
    returns (o: Outcome, ghost own: seq<Event>)
    requires db.Valid() && 0 < generation <= Scan(db.store)
    requires IsCurrent(db.store, generation) ==> Observed(db.store.rows, generation, done)
    modifies db
    ensures db.Worked(generation) && Own(db.log, generation) == Own(old(db.log), generation) + own
    ensures own == if o.Ok? then [Event.Observe(generation, batch)] else []
    ensures o.Ok? ==> IsCurrent(db.store, generation) && Observed(db.store.rows, generation, done + batch)
    ensures o in {Ok, Superseded, Broken}
    ensures old(db.Steady(generation)) ==> db.Steady(generation) && o == Observing(batch)
  {
    ghost var before := db.store;
    var c := db.Observe(generation, batch);
    o, own := AsOutcome(c), [];
    if c.Fine? {
      own := [Event.Observe(generation, batch)];
      ObserveMore(before, generation, done, batch);
      ObserveAllFrame(before, generation, batch);
    }
  }

  /** `_remove_absent`: page by page until a transaction finds nothing left; every page shrinks the rest. */
  method RemoveAbsent(db: CatalogDatabase, generation: nat, ghost entries: seq<Entry>, batchSize: nat)
    returns (o: Outcome, ghost own: seq<Event>)
    requires db.Valid() && 0 < generation <= Scan(db.store) && batchSize >= 1
    requires IsCurrent(db.store, generation) ==> Observed(db.store.rows, generation, entries)
    modifies db
    ensures db.Worked(generation) && Own(db.log, generation) == Own(old(db.log), generation) + own
    ensures forall i :: 0 <= i < |own| ==> own[i].Remove?
    ensures o.Ok? ==> IsCurrent(db.store, generation) && Exactly(db.store.rows, generation, entries)
    ensures Reported(o, db.stop) && (old(db.stop) ==> !o.Ok?)
    ensures old(db.Steady(generation)) ==> db.Steady(generation) && o.Ok?
  {
    own := [];
    while true
      invariant db.Worked(generation) && Own(db.log, generation) == Own(old(db.log), generation) + own
      invariant forall i :: 0 <= i < |own| ==> own[i].Remove?
      invariant IsCurrent(db.store, generation) ==> Observed(db.store.rows, generation, entries)
      invariant old(db.Steady(generation)) ==> db.Steady(generation)
      decreases Absent(db.store.rows, generation)
    {
      db.Interfere(generation);
      var stopped := db.StopIsSet();
      if stopped { return Stopped, own; }
      ghost var before := Absent(db.store.rows, generation);
      var c, none := db.RemovePage(generation, batchSize);
      if !c.Fine? { return AsOutcome(c), own; }
      if none {
        ObservedAndNoneAbsent(db.store.rows, generation, entries);
        return Ok, own;
      }
      ghost var page := [Event.Remove(generation, before - Absent(db.store.rows, generation))];
      Together(Own(old(db.log), generation), own, page);
      own := own + page;
    }
  }

  /**
    `_presence`. If the attempt commits success, then at that commit the rows are exactly what it
    enumerated, whatever the batch size and whatever else committed meanwhile; and every removal the
    attempt ever committed came after its observations had enumerated all of `entries`.
  */
  method Presence(db: CatalogDatabase, generation: nat, entries: seq<Entry>, batchSize: nat)
    returns (o: Outcome, ghost own: seq<Event>)
    requires db.Valid() && 0 < generation <= Scan(db.store) && batchSize >= 1
    requires IsCurrent(db.store, generation) ==> Observed(db.store.rows, generation, [])
    modifies db
    ensures db.Worked(generation) && Own(db.log, generation) == Own(old(db.log), generation) + own
    ensures CompleteBeforeRemoval(own, entries) && (forall i :: 0 <= i < |own| ==> !own[i].Save?)
    ensures o.Ok? ==> Seen(own) == entries && IsCurrent(db.store, generation)
                      && Exactly(db.store.rows, generation, entries)
    ensures o.Ok? ==> db.store.state.value.completed == generation && db.store.state.value.result == Success
    ensures Reported(o, db.stop) && (old(db.stop) ==> !o.Ok?)
    ensures old(db.Steady(generation)) ==> db.Steady(generation) && o == Observing(entries)
  {
    ghost var first, removals;
    o, first := ObserveBatches(db, generation, entries, batchSize);
    ObserveThenRemove(first, [], entries);
    own := first + [];
    if !o.Ok? { return; }
    o, removals := RemoveAndFinish(db, generation, entries, batchSize);
    ObserveThenRemove(first, removals, entries);
    SeenBeyond(first, removals);
    Together(Own(old(db.log), generation), first, removals);
    own := first + removals;
  }

  /** The part of `_presence` behind the enumeration. */
  method RemoveAndFinish(db: CatalogDatabase, generation: nat, ghost entries: seq<Entry>, batchSize: nat)
    returns (o: Outcome, ghost own: seq<Event>)
    requires db.Valid() && 0 < generation <= Scan(db.store) && batchSize >= 1
    requires IsCurrent(db.store, generation) ==> Observed(db.store.rows, generation, entries)
    modifies db
    ensures db.Worked(generation) && Own(db.log, generation) == Own(old(db.log), generation) + own
    ensures forall i :: 0 <= i < |own| ==> own[i].Remove? || own[i].Finish?
    ensures o.Ok? ==> IsCurrent(db.store, generation) && Exactly(db.store.rows, generation, entries)
    ensures o.Ok? ==> db.store.state.value.completed == generation && db.store.state.value.result == Success
    ensures Reported(o, db.stop) && (old(db.stop) ==> !o.Ok?)
    ensures old(db.Steady(generation)) ==> db.Steady(generation) && o.Ok?
  {
    o, own := RemoveAbsent(db, generation, entries, batchSize);
    if !o.Ok? { return; }
    ghost var reached := db.store;
    db.Interfere(generation);
    ghost var before := db.store;
    var c := db.Finish(generation, Success);
    assert c.Fine? ==> reached.rows == before.rows == db.store.rows;
    o := AsOutcome(c);
    if c.Fine? {
      Together(Own(old(db.log), generation), own, [Event.Finish(generation, Success)]);
      own := own + [Event.Finish(generation, Success)];
    }
  }

  // ------------------------------------------------------------------- metadata

  /** The same rows under the same ids, differing at most in the metadata of the given paths. */
  ghost predicate OnlyMetadata(s: Store, t: Store, paths: set<Path>) {
    && t.rows.Keys == s.rows.Keys
    && (forall p | p in s.rows && p !in paths :: t.rows[p] == s.rows[p])
    && (forall p | p in s.rows && p in paths :: t.rows[p] == s.rows[p].(metadata := t.rows[p].metadata))
  }

  function Paths(entries: seq<Entry>): (paths: set<Path>) {
    set e | e in entries :: e.path
  }

  /** While the attempt stays current, its own saves are all that happened. */
  ghost predicate OnlySaves(s: Store, t: Store, generation: nat, paths: set<Path>) {
    IsCurrent(t, generation) ==> IsCurrent(s, generation) && t.lastId == s.lastId && OnlyMetadata(s, t, paths)
  }

  lemma SavesTogether(s: Store, t: Store, u: Store, generation: nat, paths: set<Path>, path: Path)
    requires OnlySaves(s, t, generation, paths) && OnlySaves(t, u, generation, {path}) && path in paths
    ensures OnlySaves(s, u, generation, paths)
  {
  }

  /**
    Inspect the entries of one page and save each result, in order; only their metadata can change, and
    while the attempt is current each row holds what its inspection yielded.
  */
  method InspectPage(db: CatalogDatabase, generation: nat, entries: seq<Entry>)
    returns (o: Outcome, ghost own: seq<Event>, ghost found: seq<Finding>)
    requires db.Valid() && 0 < generation <= Scan(db.store) && generation in db.store.started
    requires IsCurrent(db.store, generation) ==> PageOf(db.store.rows, entries)
    modifies db
    ensures db.Worked(generation) && Own(db.log, generation) == Own(old(db.log), generation) + own
    ensures PageSaves(old(db.store), db.store, generation, entries, own, found)
    ensures db.found == old(db.found) + found && (o.Ok? ==> |found| == |own| == |entries|)
    ensures Reported(o, db.stop) && (old(db.stop) && entries != [] ==> !o.Ok?)
    ensures old(db.Steady(generation)) ==>
              db.Steady(generation) && o.Ok? && db.Completed() == old(db.Completed())
  {
    o, own, found := Ok, [], [];
    var i := 0;
    while i < |entries|
      invariant 0 <= i <= |entries| && o == Ok
      invariant db.Worked(generation) && Own(db.log, generation) == Own(old(db.log), generation) + own
      invariant PageSaves(old(db.store), db.store, generation, entries, own, found)
      invariant db.found == old(db.found) + found && |found| == |own| == i
      invariant old(db.stop) ==> i == 0
      invariant old(db.Steady(generation)) ==> db.Steady(generation) && db.Completed() == old(db.Completed())
    {
      if !db.calm {
        if * { return SourceGone, own, found; }
      }
      ghost var saved, more, before := [], [], db.store;
      o, saved, more := InspectOne(db, generation, entries[i]);
      OneMoreSave(old(db.store), before, db.store, generation, entries, own, found, saved, more);
      Together(Own(old(db.log), generation), own, saved);
      Together(old(db.found), found, more);
      own, found := own + saved, found + more;
      if !o.Ok? { return; }
      i := i + 1;
    }
  }

  /** A page so far: its first entries saved as found, nothing else touched, and the rows hold it while current. */
  ghost predicate PageSaves(s: Store, t: Store, generation: nat, entries: seq<Entry>, own: seq<Event>,
                            found: seq<Finding>)
  {
    && SavesOf(own, generation, entries) && FoundAndSaved(own, found)
    && OnlySaves(s, t, generation, Paths(entries))
    && (IsCurrent(t, generation) ==> Stored(own, t.rows))
  }

  /** The next save of a page touches none of the rows saved before. */
  lemma OneMoreSave(s: Store, t: Store, u: Store, generation: nat, entries: seq<Entry>, own: seq<Event>,
                    found: seq<Finding>, saved: seq<Event>, more: seq<Finding>)
    requires IsCurrent(s, generation) ==> PageOf(s.rows, entries)
    requires PageSaves(s, t, generation, entries, own, found) && |found| == |own| < |entries|
    requires OnlySaves(t, u, generation, {entries[|own|].path})
    requires (saved == [] || SavesOf(saved, generation, [entries[|own|]])) && FoundAndSaved(saved, more)
    requires IsCurrent(u, generation) && Inspectable(t.rows, entries[|own|]) ==> Stored(saved, u.rows)
    ensures PageSaves(s, u, generation, entries, own + saved, found + more)
  {
    assert entries[|own|].path in Paths(entries);
    FoundTogether(own, found, saved, more);
    SavesTogether(s, t, u, generation, Paths(entries), entries[|own|].path);
    if IsCurrent(u, generation) {
      StoredStays(s, t, u, generation, entries, own);
    }
  }

  lemma StoredStays(s: Store, t: Store, u: Store, generation: nat, entries: seq<Entry>, own: seq<Event>)
    requires IsCurrent(s, generation) && PageOf(s.rows, entries) && SavesOf(own, generation, entries)
    requires |own| < |entries| && OnlySaves(s, t, generation, Paths(entries)) && IsCurrent(u, generation)
    requires OnlySaves(t, u, generation, {entries[|own|].path}) && Stored(own, t.rows)
    ensures Stored(own, u.rows) && Inspectable(t.rows, entries[|own|])
  {
    assert Inspectable(s.rows, entries[|own|]);
    forall i | 0 <= i < |own| ensures own[i].entry.path in u.rows && own[i].entry.path != entries[|own|].path {
      assert own[i].entry == entries[i];
    }
  }

  /** One inspection outside any transaction, then its fenced save. */
  method InspectOne(db: CatalogDatabase, generation: nat, entry: Entry)
    returns (o: Outcome, ghost own: seq<Event>, ghost found: seq<Finding>)
    requires db.Valid() && 0 < generation <= Scan(db.store) && generation in db.store.started
    modifies db
    ensures db.Worked(generation) && Own(db.log, generation) == Own(old(db.log), generation) + own
    ensures if o.Ok? then SavesOf(own, generation, [entry]) && |own| == 1 else own == []
    ensures OnlySaves(old(db.store), db.store, generation, {entry.path})
    ensures IsCurrent(db.store, generation) && Inspectable(old(db.store).rows, entry) ==> Stored(own, db.store.rows)
    ensures db.found == old(db.found) + found && |found| == 1 && FoundAndSaved(own, found)
    ensures Reported(o, db.stop) && (old(db.stop) ==> !o.Ok?)
    ensures old(db.Steady(generation)) ==>
              db.Steady(generation) && o.Ok? && db.Completed() == old(db.Completed())
  {
    own := [];
    var metadata := db.Inspect(generation, entry);
    found := [Finding(entry, metadata)];
    db.Interfere(generation);
    var stopped := db.StopIsSet();
    if stopped { return Stopped, own, found; }
    OneSave(old(db.store), db.store, generation, entry, metadata);
    var c := db.Save(generation, entry, metadata);
    o := AsOutcome(c);
    if c.Fine? {
      own := [Event.Save(generation, entry, metadata)];
    }
  }

  lemma FoundTogether(own: seq<Event>, found: seq<Finding>, more: seq<Event>, results: seq<Finding>)
    requires FoundAndSaved(own, found) && |found| == |own| && FoundAndSaved(more, results)
    ensures FoundAndSaved(own + more, found + results)
  {
  }

  lemma OneSave(s: Store, t: Store, generation: nat, entry: Entry, metadata: Metadata)
    requires Rely(s, t, generation) && 0 < generation <= Scan(s)
    ensures OnlySaves(s, Apply(t, Event.Save(generation, entry, metadata)), generation, {entry.path})
    ensures IsCurrent(t, generation) && Inspectable(s.rows, entry) ==>
              Stored([Event.Save(generation, entry, metadata)], Apply(t, Event.Save(generation, entry, metadata)).rows)
  {
  }

  /** The same rows with the same ids and entries. */
  ghost predicate SameRows(s: Store, t: Store) {
    t.rows.Keys == s.rows.Keys && forall p | p in s.rows :: t.rows[p] == s.rows[p].(metadata := t.rows[p].metadata)
  }

  /** Saves of rows of this store whose ids lie behind `after` and not behind `next`, each row once. */
  ghost predicate SavedRows(own: seq<Event>, s: Store, after: nat, next: nat) {
    && DifferentSaves(own)
    && forall i :: 0 <= i < |own| && own[i].Save? ==>
         var p := own[i].entry.path;
         p in s.rows && own[i].entry == EntryOf(p, s.rows[p]) && after < s.rows[p].id <= next
  }

  /** The attempt stayed current and left the rows up to a position alone. */
  ghost predicate Undisturbed(s: Store, t: Store, generation: nat, upTo: nat) {
    && IsCurrent(s, generation) && t.rows.Keys == s.rows.Keys
    && forall p | p in s.rows && s.rows[p].id <= upTo :: t.rows[p] == s.rows[p]
  }

  /** Every wanted row has been inspected as it is, or still waits. */
  ghost predicate Covered(s: Store, wanted: set<Path>, waiting: set<Path>, inspected: set<Entry>) {
    wanted <= s.rows.Keys && forall p | p in wanted :: p in waiting || EntryOf(p, s.rows[p]) in inspected
  }

  /** One page of `_metadata`: `none` when nothing behind `after` wants inspecting any more. */
  method InspectNext(db: CatalogDatabase, generation: nat, after: nat, batchSize: nat)
    returns (o: Outcome, next: nat, none: bool, ghost own: seq<Event>, ghost found: seq<Finding>)
    requires db.Valid() && 0 < generation <= Scan(db.store) && generation in db.store.started && batchSize >= 1
    modifies db
    ensures db.Worked(generation) && Own(db.log, generation) == Own(old(db.log), generation) + own
    ensures o.Ok? || own != [] ==> IsCurrent(old(db.store), generation)
    ensures o.Ok? && none ==> old(db.Needy(after)) == {} && own == []
    ensures after <= next && (none ==> next == after)
    ensures !none ==> after < next <= old(db.store).lastId
    ensures SavedRows(own, old(db.store), after, next)
    ensures o.Ok? && !none && IsCurrent(db.store, generation) ==>
              && SameRows(old(db.store), db.store) && db.store.lastId == old(db.store).lastId
              && Covered(old(db.store), old(db.Needy(after)), db.Needy(next), Inspected(own))
    ensures IsCurrent(db.store, generation) ==>
              Stored(own, db.store.rows) && Undisturbed(old(db.store), db.store, generation, after)
    ensures db.found == old(db.found) + found && FoundAndSaved(own, found) && (o.Ok? ==> |found| == |own|)
    ensures Reported(o, db.stop) && (old(db.stop) ==> !o.Ok?)
    ensures old(db.Steady(generation)) ==>
              db.Steady(generation) && o.Ok? && db.Completed() == old(db.Completed())
  {
    next, none, own, found := after, true, [], [];
    db.Interfere(generation);
    var stopped := db.StopIsSet();
    if stopped { return Stopped, next, none, own, found; }
    var c, page := db.PendingPage(generation, after, batchSize);
    if !c.Fine? { return AsOutcome(c), next, none, own, found; }
    if page == [] { return Ok, next, none, own, found; }
    none := false;
    next := db.store.rows[page[|page| - 1]].id;
    ghost var before := db.store;
    PageIsOfImages(db.store, page, after);
    o, own, found := InspectPage(db, generation, EntriesOf(db.store.rows, page));
    PageSaved(own, generation, before, page, after, next);
    PathsOfEntries(before.rows, page);
    if o.Ok? && IsCurrent(db.store, generation) {
      PageDone(own, generation, before, db.store, page, after, next);
    }
  }

  /** Behind a page the rest still waits, and all of the page has been inspected. */
  lemma PageDone(own: seq<Event>, generation: nat, s: Store, t: Store, page: seq<Path>, after: nat, next: nat)
    requires (forall i :: 0 <= i < |page| ==> page[i] in s.rows) && SavesOf(own, generation, EntriesOf(s.rows, page))
    requires |own| == |page| && NeedyRows(s, next) == NeedyRows(s, after) - (set p | p in page)
    requires OnlySaves(s, t, generation, Paths(EntriesOf(s.rows, page))) && IsCurrent(t, generation)
    ensures SameRows(s, t) && Covered(s, NeedyRows(s, after), NeedyRows(t, next), Inspected(own))
  {
    PathsOfEntries(s.rows, page);
    forall p | p in NeedyRows(s, next) ensures p in NeedyRows(t, next) {
      assert p !in page && t.rows[p] == s.rows[p];
    }
    PageCovers(own, generation, s, page, NeedyRows(s, after), NeedyRows(s, next));
  }

  lemma PageIsOfImages(s: Store, page: seq<Path>, after: nat)
    requires forall i :: 0 <= i < |page| ==> page[i] in s.rows && page[i] in NeedyRows(s, after)
    requires forall i, j :: 0 <= i < j < |page| ==> s.rows[page[i]].id < s.rows[page[j]].id
    ensures PageOf(s.rows, EntriesOf(s.rows, page))
  {
  }

  /** The saves of a page are saves of different rows behind the position it started from. */
  lemma PageSaved(own: seq<Event>, generation: nat, s: Store, page: seq<Path>, after: nat, next: nat)
    requires (forall i :: 0 <= i < |page| ==> page[i] in s.rows) && SavesOf(own, generation, EntriesOf(s.rows, page))
    requires forall i :: 0 <= i < |page| ==> after < s.rows[page[i]].id
    requires forall i, j :: 0 <= i < j < |page| ==> s.rows[page[i]].id < s.rows[page[j]].id
    requires page != [] && next == s.rows[page[|page| - 1]].id
    ensures SavedRows(own, s, after, next)
  {
    forall i | 0 <= i < |own| ensures own[i].entry.path == page[i] && s.rows[page[i]].id <= next {
      assert own[i].entry == EntriesOf(s.rows, page)[i];
    }
  }

  lemma PageCovers(own: seq<Event>, generation: nat, s: Store, page: seq<Path>, wanted: set<Path>, waiting: set<Path>)
    requires (forall i :: 0 <= i < |page| ==> page[i] in s.rows) && SavesOf(own, generation, EntriesOf(s.rows, page))
    requires |own| == |page| && wanted <= s.rows.Keys && waiting == wanted - (set p | p in page)
    ensures Covered(s, wanted, waiting, Inspected(own))
  {
    forall p | p in wanted && p !in waiting ensures EntryOf(p, s.rows[p]) in Inspected(own) {
      var i :| 0 <= i < |page| && page[i] == p;
      assert own[i].entry == EntriesOf(s.rows, page)[i];
    }
  }

  function EntriesOf(rows: map<Path, Row>, page: seq<Path>): (entries: seq<Entry>)
    requires forall i :: 0 <= i < |page| ==> page[i] in rows
    ensures |entries| == |page| && forall i :: 0 <= i < |page| ==> entries[i] == EntryOf(page[i], rows[page[i]])
  {
    seq(|page|, i requires 0 <= i < |page| => EntryOf(page[i], rows[page[i]]))
  }

  lemma PathsOfEntries(rows: map<Path, Row>, page: seq<Path>)
    requires forall i :: 0 <= i < |page| ==> page[i] in rows
    ensures Paths(EntriesOf(rows, page)) == set p | p in page
  {
    var entries := EntriesOf(rows, page);
    forall p | p in page ensures p in Paths(entries) {
      var i :| 0 <= i < |page| && page[i] == p;
      assert entries[i] in entries && entries[i].path == p;
    }
  }

  /** Pages of the same rows, one behind the other, save different rows. */
  lemma PagesTogether(a: seq<Event>, b: seq<Event>, s: Store, t: Store, middle: nat, next: nat)
    requires SavedRows(a, s, 0, middle) && SavedRows(b, t, middle, next) && middle <= next
    requires b != [] ==> SameRows(s, t)
    ensures SavedRows(a + b, s, 0, next)
  {
    var own := a + b;
    forall i, j | 0 <= i < j < |own| ensures own[i].entry.path != own[j].entry.path {
      if i < |a| <= j {
        assert own[i] == a[i] && own[j] == b[j - |a|];
        assert s.rows[own[i].entry.path].id <= middle < t.rows[own[j].entry.path].id;
      }
    }
  }

  /** Rows saved on earlier pages hold what they were given while the attempt is current. */
  lemma MoreStored(own: seq<Event>, more: seq<Event>, s: Store, t: Store, u: Store, generation: nat, position: nat)
    requires SavedRows(own, s, 0, position)
    requires IsCurrent(t, generation) ==> SameRows(s, t) && Stored(own, t.rows)
    requires IsCurrent(u, generation) ==> Stored(more, u.rows) && Undisturbed(t, u, generation, position)
    ensures IsCurrent(u, generation) ==> Stored(own + more, u.rows)
  {
  }

  lemma CoverTogether(s: Store, t: Store, wanted: set<Path>, waiting: set<Path>, still: set<Path>,
                      a: seq<Event>, b: seq<Event>)
    requires SameRows(s, t) && Covered(s, wanted, waiting, Inspected(a)) && Covered(t, waiting, still, Inspected(b))
    ensures Covered(s, wanted, still, Inspected(a + b))
  {
    InspectedTogether(a, b);
  }

  /**
    `_metadata`: pages of rows that want inspecting, by ascending row id. What the attempt commits are
    saves of pairwise different rows, each inspected as it stands in the catalog; and a pass that ends
    normally has saved every row that wanted it at the start.
  */
  method InspectAll(db: CatalogDatabase, generation: nat, batchSize: nat)
    returns (o: Outcome, ghost own: seq<Event>, ghost found: seq<Finding>)
    requires db.Valid() && 0 < generation <= Scan(db.store) && generation in db.store.started && batchSize >= 1
    modifies db
    ensures db.Worked(generation) && Own(db.log, generation) == Own(old(db.log), generation) + own
    ensures SavedRows(own, old(db.store), 0, old(db.store).lastId)
    ensures IsCurrent(db.store, generation) ==> Stored(own, db.store.rows)
    ensures db.found == old(db.found) + found && FoundAndSaved(own, found)
    ensures o.Ok? ==> Covered(old(db.store), old(db.Needy(0)), {}, Inspected(own))
    ensures Reported(o, db.stop) && (old(db.stop) ==> !o.Ok?)
    ensures old(db.Steady(generation)) ==>
              db.Steady(generation) && o.Ok? && db.Completed() == old(db.Completed())
  {
    own, found := [], [];
    var after := 0;
    ghost var bound := db.store.lastId;
    while true
      invariant db.Worked(generation) && Own(db.log, generation) == Own(old(db.log), generation) + own
      invariant generation in db.store.started && after <= bound
      invariant Inspecting(old(db.store), db.store, generation, after, own, found)
      invariant db.found == old(db.found) + found
      invariant old(db.Steady(generation)) ==> db.Steady(generation) && db.Completed() == old(db.Completed())
      decreases bound - after
    {
      ghost var before, position, more, results := db.store, after, [], [];
      var none;
      o, after, none, more, results := InspectNext(db, generation, after, batchSize);
      AnotherPage(old(db.store), before, db.store, generation, position, after, own, found, more, results,
                  o.Ok? && !none);
      Together(Own(old(db.log), generation), own, more);
      Together(old(db.found), found, results);
      if o.Ok? && none {
        assert own + more == own;
      }
      own, found := own + more, found + results;
      if !o.Ok? || none { return; }
    }
  }

  /** The pass so far: different rows saved as found; while current the rows hold it, and what wanted it is covered. */
  ghost predicate Inspecting(s: Store, t: Store, generation: nat, position: nat, own: seq<Event>, found: seq<Finding>) {
    && SavedRows(own, s, 0, position) && FoundAndSaved(own, found) && |found| == |own|
    && (IsCurrent(t, generation) ==>
          && SameRows(s, t) && t.lastId == s.lastId && Stored(own, t.rows)
          && Covered(s, NeedyRows(s, 0), NeedyRows(t, position), Inspected(own)))
  }

  lemma AnotherPage(s: Store, t: Store, u: Store, generation: nat, position: nat, next: nat, own: seq<Event>,
                    found: seq<Finding>, more: seq<Event>, results: seq<Finding>, whole: bool)
    requires Inspecting(s, t, generation, position, own, found) && position <= next
    requires SavedRows(more, t, position, next) && FoundAndSaved(more, results)
    requires more != [] ==> IsCurrent(t, generation)
    requires IsCurrent(u, generation) ==> Stored(more, u.rows) && Undisturbed(t, u, generation, position)
    requires whole ==> |results| == |more|
    requires whole && IsCurrent(u, generation) ==>
               && SameRows(t, u) && u.lastId == t.lastId
               && Covered(t, NeedyRows(t, position), NeedyRows(u, next), Inspected(more))
    ensures SavedRows(own + more, s, 0, next) && FoundAndSaved(own + more, found + results)
    ensures IsCurrent(u, generation) ==> Stored(own + more, u.rows)
    ensures whole ==> Inspecting(s, u, generation, next, own + more, found + results)
  {
    PagesTogether(own, more, s, t, position, next);
    FoundTogether(own, found, more, results);
    MoreStored(own, more, s, t, u, generation, position);
    if whole && IsCurrent(u, generation) {
      CoverTogether(s, t, NeedyRows(s, 0), NeedyRows(t, position), NeedyRows(u, next), own, more);
    }
  }

  // ---------------------------------------------------------------- one attempt

  /**
    `reconcile_filesystem_source`: gated start, presence, a recorded outcome, then metadata. Unless a
    stop prevents the start, the attempt leaves every request it was gated on served or handled; and
    whatever its end, it has removed nothing before its whole enumeration was observed.
  */
  method Reconcile(db: CatalogDatabase, gate: nat, entries: seq<Entry>, batchSize: nat, metadataBatchSize: nat)
    returns (o: Outcome, ghost generation: nat, ghost own: seq<Event>, ghost at: nat)
    requires db.Valid() && batchSize >= 1 && metadataBatchSize >= 1
    requires gate <= Requested(db.store)
    modifies db
    ensures db.Valid() && Handlings(db.log) == Handlings(old(db.log))
    ensures old(Requested(db.store)) <= Requested(db.store) && old(Handled(db.store)) <= Handled(db.store)
    ensures gate <= db.Answered() || gate <= Handled(db.store) || o.Stopped? || o.Crash?
    ensures Own(db.log, generation) == Own(old(db.log), generation) + own && CompleteBeforeRemoval(own, entries)
    ensures o.Ok? ==> Seen(own) == entries && Reconciled(db.origin, db.log, at, generation, entries, own)
    ensures IsCurrent(db.store, generation) ==> Stored(own, db.store.rows)
    ensures (old(db.stop) ==> db.stop) && (o.Stopped? ==> db.stop) && db.stoppedAtEnd == db.stop
    ensures old(db.stop) ==> o.Stopped? && db.log == old(db.log)
    ensures db.calm && !old(db.stop) ==>
              && !db.stop
              && if !Reconcilable(old(db.store).source) then o.Unstarted? && db.store == old(db.store)
                 else if !TokenLive(old(db.store), Some(gate)) then o.Superseded?
                 else o == Observing(entries) && !Interrupted(db.store)
  {
    generation, own, at := 0, [], 0;
    var stopped := db.StopIsSet();
    if stopped {
      o := Stopped;
    } else {
      var raised := db.Fault();
      o := Crash;
      if !raised {
        o, generation, own, at := StartAndAttempt(db, gate, entries, batchSize, metadataBatchSize);
      }
    }
    db.stoppedAtEnd := db.stop;
  }

  /** The gated start, and what follows if there is one. */
  method StartAndAttempt(db: CatalogDatabase, gate: nat, entries: seq<Entry>, batchSize: nat, metadataBatchSize: nat)
    returns (o: Outcome, ghost generation: nat, ghost own: seq<Event>, ghost at: nat)
    requires db.Valid() && batchSize >= 1 && metadataBatchSize >= 1
    requires gate <= Requested(db.store)
    modifies db
    ensures db.Valid() && Handlings(db.log) == Handlings(old(db.log))
    ensures old(Requested(db.store)) <= Requested(db.store) && old(Handled(db.store)) <= Handled(db.store)
    ensures gate <= db.Answered() || gate <= Handled(db.store)
    ensures Own(db.log, generation) == Own(old(db.log), generation) + own && CompleteBeforeRemoval(own, entries)
    ensures o.Ok? ==> Seen(own) == entries && Reconciled(db.origin, db.log, at, generation, entries, own)
    ensures IsCurrent(db.store, generation) ==> Stored(own, db.store.rows)
    ensures (old(db.stop) ==> db.stop) && (o.Stopped? ==> db.stop)
    ensures db.calm && !old(db.stop) ==>
              && !db.stop
              && if !Reconcilable(old(db.store).source) then o.Unstarted? && db.store == old(db.store)
                 else if !TokenLive(old(db.store), Some(gate)) then o.Superseded?
                 else o == Observing(entries) && !Interrupted(db.store)
  {
    own, at := [], 0;
    var started;
    o, started := db.Start(Some(gate));
    generation := started;
    assert Own(db.log, generation) == Own(old(db.log), generation) by {
      CountsExtend(old(db.log), Event.Start(Some(gate)));
    }
    if o.Ok? {
      o, own, at := Attempt(db, started, entries, batchSize, metadataBatchSize);
    }
  }

  /**
    The part of it behind a successful start. `at` is where in the log presence had succeeded: there the
    rows were exactly the enumeration, and what wanted inspecting there has been inspected at the end.
  */
  method Attempt(db: CatalogDatabase, generation: nat, entries: seq<Entry>, batchSize: nat, metadataBatchSize: nat)
    returns (o: Outcome, ghost own: seq<Event>, ghost at: nat)
    requires db.Valid() && batchSize >= 1 && metadataBatchSize >= 1
    requires 0 < generation <= Scan(db.store) && generation in db.store.started
    requires IsCurrent(db.store, generation) ==> Observed(db.store.rows, generation, [])
    modifies db
    ensures db.Worked(generation) && Own(db.log, generation) == Own(old(db.log), generation) + own
    ensures CompleteBeforeRemoval(own, entries)
    ensures o.Ok? ==> Seen(own) == entries && Reconciled(db.origin, db.log, at, generation, entries, own)
    ensures IsCurrent(db.store, generation) ==> Stored(own, db.store.rows)
    ensures Reported(o, db.stop) && (old(db.stop) ==> !o.Ok?)
    ensures old(db.Steady(generation)) ==>
              db.Steady(generation) && o == Observing(entries) && db.Completed() == generation
  {
    o, own := Presence(db, generation, entries, batchSize);
    at := |db.log|;
    ghost var more;
    ghost var reached, before := db.log, own;
    if !o.Ok? {
      more := RecordFailure(db, generation, o);
    } else {
      o, more := InspectOrCrash(db, generation, metadataBatchSize);
      if o.Ok? {
        assert db.log[..at] == reached;
        InspectedTogether(before, more);
      }
    }
    Together(Own(old(db.log), generation), own, more);
    NothingRemoved(own, more, entries);
    own := own + more;
  }

  /**
    At a point of the log the rows were exactly the enumeration, recorded as a success; and every row
    that wanted inspecting there has been inspected by this attempt.
  */
  ghost predicate Reconciled(origin: Store, log: seq<Event>, at: nat, generation: nat, entries: seq<Entry>,
                             own: seq<Event>)
  {
    at <= |log| && var s := Run(origin, log[..at]);
    && Exactly(s.rows, generation, entries)
    && s.state.Some? && s.state.value.completed == generation && s.state.value.result == Success
    && Covered(s, NeedyRows(s, 0), {}, Inspected(own))
  }

  function Recorded(o: Outcome): Result {
    if o.Stopped? || o.Superseded? then Cancelled else if o.SourceGone? then Unavailable else Failed
  }

  /** The recorded outcome of an attempt that failed, unless recording it fails too. */
  method RecordFailure(db: CatalogDatabase, generation: nat, o: Outcome) returns (ghost own: seq<Event>)
    requires db.Valid() && 0 < generation <= Scan(db.store)
    modifies db
    ensures db.Worked(generation) && Own(db.log, generation) == Own(old(db.log), generation) + own
    ensures own == [] || own == [Event.Finish(generation, Recorded(o))]
    ensures own != [] ==>
              && (o in {Stopped, Superseded} ==> own[0].result == Cancelled)
              && (o.SourceGone? ==> own[0].result == Unavailable)
              && (o in {Broken, Crash} ==> own[0].result == Failed)
    ensures old(db.Steady(generation)) ==> db.Steady(generation) && own != [] && db.Completed() == generation
  {
    own := [];
    var raised := db.Fault();
    if !raised {
      db.Interfere(generation);
      var c := db.Finish(generation, Recorded(o));
      if c.Fine? {
        own := [Event.Finish(generation, Recorded(o))];
      }
    }
  }

  /** `_metadata`, unless storage fails first. */
  method InspectOrCrash(db: CatalogDatabase, generation: nat, batchSize: nat)
    returns (o: Outcome, ghost own: seq<Event>)
    requires db.Valid() && 0 < generation <= Scan(db.store) && generation in db.store.started && batchSize >= 1
    modifies db
    ensures db.Worked(generation) && Own(db.log, generation) == Own(old(db.log), generation) + own
    ensures SavedRows(own, old(db.store), 0, old(db.store).lastId)
    ensures IsCurrent(db.store, generation) ==> Stored(own, db.store.rows)
    ensures o.Ok? ==> Covered(old(db.store), old(db.Needy(0)), {}, Inspected(own))
    ensures Reported(o, db.stop) && (old(db.stop) ==> !o.Ok?)
    ensures old(db.Steady(generation)) ==>
              db.Steady(generation) && o.Ok? && db.Completed() == old(db.Completed())
  {
    var raised := db.Fault();
    if raised {
      return Crash, [];
    }
    ghost var found;
    o, own, found := InspectAll(db, generation, batchSize);
  }

  lemma NothingRemoved(own: seq<Event>, more: seq<Event>, entries: seq<Entry>)
    requires CompleteBeforeRemoval(own, entries)
    requires forall i :: 0 <= i < |more| ==> !more[i].Remove? && !more[i].Observe?
    ensures CompleteBeforeRemoval(own + more, entries) && Seen(own + more) == Seen(own)
  {
    SeenBeyond(own, more);
    forall i | 0 <= i < |own + more| && (own + more)[i].Remove? ensures Seen((own + more)[..i]) == entries {
      assert (own + more)[..i] == own[..i];
    }
  }

  /**
    `consume_one`: take the pending token, reconcile, mark it handled. Every committed handling is of
    a served token (`Valid` carries that); an attempt cancelled while the stop event was set consumes
    nothing; and otherwise the token ends handled, by this worker or by the edit that superseded it.
  */
  method ConsumeOne(db: CatalogDatabase, entries: seq<Entry>) returns (taken: bool, o: Outcome, crashed: bool)
    requires db.Valid()
    modifies db
    ensures db.Valid()
    ensures taken && o in {Stopped, Superseded} && db.stoppedAtEnd ==> Handlings(db.log) == Handlings(old(db.log))
    ensures taken && o.Stopped? ==> db.stoppedAtEnd
    ensures !taken || crashed ==> Handlings(db.log) == Handlings(old(db.log))
    ensures taken && !crashed && !(o in {Stopped, Superseded} && db.stop) ==>
              old(Requested(db.store)) <= Handled(db.store)
    ensures crashed ==> o.Crash? || Interrupted(db.store)
    ensures old(db.stop) ==> !taken && db.log == old(db.log)
    ensures !taken ==> db.stop || old(Requested(db.store)) == old(Handled(db.store))
    ensures db.calm && !old(db.stop) && old(Handled(db.store) < Requested(db.store)) ==>
              && taken && (crashed <==> o.Unstarted? && Interrupted(old(db.store)))
              && o == (if Reconcilable(old(db.store).source) then Observing(entries) else Unstarted)
  {
    RunKeepsConsistent(db.origin, db.inspects, db.log);
    ServedBounds(db.origin, db.inspects, db.log);
    taken, o, crashed := false, Unstarted, false;
    var stopped := db.StopIsSet();
    if stopped || db.store.state.None? || db.store.state.value.requested <= db.store.state.value.handled {
      return;
    }
    taken := true;
    var token := db.store.state.value.requested;
    db.InterfereBetween();
    ghost var generation, own, at;
    o, generation, own, at := Reconcile(db, token, entries, 100, 32);
    stopped := db.StopIsSet();
    if (o.Stopped? || o.Superseded?) && stopped {
      return;
    }
    if o.Crash? {
      crashed := true;
      return;
    }
    db.InterfereBetween();
    crashed := MarkHandled(db, token);
  }

  /** The newest scan has not been completed. */
  predicate Interrupted(s: Store) {
    s.state.Some? && s.state.value.scan != s.state.value.completed
  }

  /** The last transaction of `consume_one`: a scan left incomplete is an error, an edit may have been first. */
  method MarkHandled(db: CatalogDatabase, token: nat) returns (crashed: bool)
    requires db.Valid() && db.store.state.Some? && token <= Requested(db.store)
    requires token <= db.Answered() || token <= Handled(db.store)
    modifies db`store, db`log
    ensures db.Valid()
    ensures crashed <==> Handled(old(db.store)) < token && Interrupted(old(db.store))
    ensures crashed || token <= Handled(old(db.store)) ==> db.store == old(db.store) && db.log == old(db.log)
    ensures !crashed ==> token <= Handled(db.store)
  {
    crashed := false;
    var st := db.store.state.value;
    if st.handled < token {
      if st.scan != st.completed {
        crashed := true;
        return;
      }
      if token <= st.requested {
        db.Commit(db.store.(state := Some(st.(handled := token))), Handle(token));
      }
    }
  }
}
