/**
  Whole runs of the planner under one unchanged configuration: any mix of next and previous
  calls, any random inputs, any number of Widgets sharing the sequence.
*/
module PlannerRun {
  import opened Basics
  import opened MediaStream
  import opened StreamPlan
  import opened PlannerModel

  /** A planner with the steps it has newly planned, the members it has drawn and where the current cycle began. */
  datatype Trace = Trace(planner: Planner, planned: seq<Step>, drawn: seq<int>, cut: nat)

  datatype Input = Input(forward: bool, chance: Chance)

  /** A request draws a new member exactly when it cannot be answered from history. */
  predicate Advances(p: Planner, c: Config, forward: bool) {
    c.ready && forward && Seek(c, p.history, p.cursor + 1, true).None?
  }

  function Extend(t: Trace, c: Config, i: Input): (r: Trace)
    requires c.Valid()
  {
    var r := Request(t.planner, i.forward, c, c, i.chance);
    if !Advances(t.planner, c, i.forward) || r.0.last.None? then t.(planner := r.0)
    else Trace(r.0, if r.1.Ready? then t.planned + [r.1.step] else t.planned,
               t.drawn + [r.0.last.value], if t.planner.cycle == [] then |t.drawn| else t.cut)
  }

  function Run(c: Config, inputs: seq<Input>): (r: Trace)
    requires c.Valid()
  {
    if inputs == [] then Trace(Reset(c.epoch), [], [], 0)
    else Extend(Run(c, inputs[..|inputs| - 1]), c, inputs[|inputs| - 1])
  }

  // -------------------------------------------------------------- streams in a run

  function PathsOf(media: seq<Identity>): (r: seq<Path>)
    ensures |r| == |media| && forall i :: 0 <= i < |r| ==> r[i] == media[i].path
  {
    seq(|media|, i requires 0 <= i < |media| => media[i].path)
  }

  /** Everything newly planned for one Widget, in order. */
  function MediaOf(planned: seq<Step>, widget: int): (r: seq<Path>) {
    if planned == [] then []
    else
      var step := planned[|planned| - 1];
      MediaOf(planned[..|planned| - 1], widget) + if step.widget == widget then PathsOf(step.media) else []
  }

  lemma MediaOfExtend(planned: seq<Step>, step: Step, widget: int)
    ensures MediaOf(planned + [step], widget) ==
            MediaOf(planned, widget) + if step.widget == widget then PathsOf(step.media) else []
  {
    assert (planned + [step])[..|planned|] == planned;
  }

  predicate Streamed(c: Config, widget: int) {
    widget in c.widgets && c.widgets[widget].media.Some?
  }

  /** Each Widget's stream remembers exactly what was planned for that Widget. */
  ghost predicate StreamRemembers(t: Trace, c: Config, w: int)
    requires c.epoch.Some?
  {
    if w in t.planner.streams && Streamed(c, w) then
      && t.planner.streams[w].kind == c.widgets[w].kind
      && Remembers(c.widgets[w].media.value, c.epoch.value.shuffle, MediaOf(t.planned, w), t.planner.streams[w])
    else MediaOf(t.planned, w) == []
  }

  ghost predicate StreamsRemember(t: Trace, c: Config)
    requires c.epoch.Some?
  {
    forall w: int :: StreamRemembers(t, c, w)
  }

  /** The trace after planning one drawn member. */
  function Planned(t: Trace, c: Config, member: int, d: Draws): (r: Trace)
    requires c.Valid() && t.planner.epoch.Some?
  {
    var r := Plan(t.planner, c, member, d);
    t.(planner := r.0, planned := if r.1.Some? && r.1.value.Ready? then t.planned + [r.1.value.step] else t.planned)
  }

  lemma PlanKeepsStreams(t: Trace, c: Config, member: int, d: Draws)
    requires c.Valid() && c.epoch.Some? && t.planner.epoch == c.epoch && StreamsRemember(t, c)
    ensures StreamsRemember(Planned(t, c, member, d), c)
  {
    forall w: int ensures StreamRemembers(Planned(t, c, member, d), c, w) {
      assert StreamRemembers(t, c, w);
      var composed := Composition(c, member);
      if composed.Some? && composed.value.widget == w && composed.value.kind != WebView && Streamed(c, w) {
        PlanKeepsThisStream(t, c, member, d);
      } else {
        PlanKeepsOtherStream(t, c, member, d, w);
      }
    }
  }

  /** Planning touches no other Widget's stream, and a step without media leaves its own alone. */
  lemma PlanTouches(p: Planner, c: Config, member: int, d: Draws, w: int)
    requires c.Valid() && p.epoch.Some?
    ensures var r := Plan(p, c, member, d);
            && r.0 == p.(streams := r.0.streams)
            && (r.1.Some? && r.1.value.Ready? ==> Composition(c, member) == Some(r.1.value.step.(media := [])))
            && (Composition(c, member).None? || Composition(c, member).value.widget != w
                || Composition(c, member).value.kind == WebView ==>
                  && (w in r.0.streams <==> w in p.streams) && (w in p.streams ==> r.0.streams[w] == p.streams[w]))
            && (r.1.Some? && r.1.value.Ready? && r.1.value.step.widget == w && !Streamed(c, w) ==>
              r.1.value.step.media == [])
            && (r.1.Some? && r.1.value.Ready? && r.1.value.step.kind == WebView ==> r.1.value.step.media == [])
  {
  }

  lemma PlanKeepsOtherStream(t: Trace, c: Config, member: int, d: Draws, w: int)
    requires c.Valid() && c.epoch.Some? && t.planner.epoch == c.epoch && StreamRemembers(t, c, w)
    requires var composed := Composition(c, member);
             composed.None? || composed.value.widget != w || composed.value.kind == WebView || !Streamed(c, w)
    ensures StreamRemembers(Planned(t, c, member, d), c, w)
  {
    PlanTouches(t.planner, c, member, d, w);
    var r := Plan(t.planner, c, member, d);
    if r.1.Some? && r.1.value.Ready? {
      MediaOfExtend(t.planned, r.1.value.step, w);
      assert r.1.value.step.widget == w ==> r.1.value.step.media == [];
    }
    assert MediaOf(Planned(t, c, member, d).planned, w) == MediaOf(t.planned, w);
  }

  lemma PlanKeepsThisStream(t: Trace, c: Config, member: int, d: Draws)
    requires c.Valid() && c.epoch.Some? && t.planner.epoch == c.epoch
    requires Composition(c, member).Some? && Composition(c, member).value.kind != WebView
    requires Streamed(c, Composition(c, member).value.widget)
    requires StreamRemembers(t, c, Composition(c, member).value.widget)
    ensures StreamRemembers(Planned(t, c, member, d), c, Composition(c, member).value.widget)
  {
    var step := Composition(c, member).value;
    var w := step.widget;
    var ctx, shuffle := c.widgets[w].media.value, c.epoch.value.shuffle;
    var stream := if w in t.planner.streams then t.planner.streams[w] else NewStream(step.kind);
    var consumed := MediaOf(t.planned, w);
    assert Remembers(ctx, shuffle, consumed, stream);
    PlanKeepsStream(ctx, shuffle, consumed, stream, d);
    var media := PlanMedia(ctx, shuffle, stream, d).1;
    var r := Plan(t.planner, c, member, d);
    assert r.0.streams[w] == PlanMedia(ctx, shuffle, stream, d).0;
    if media == [] {
      assert consumed + media == consumed;
    } else {
      MediaOfExtend(t.planned, r.1.value.step, w);
      assert PathsOf(Ids(ctx.source, media)) == media;
    }
  }

  // --------------------------------------------------------------- cycles in a run

  /** The draws fall into blocks of `n`, each a permutation of the memberships. */
  ghost predicate Blocks(drawn: seq<int>, ids: seq<int>)
    decreases |drawn|
  {
    drawn == [] ||
    (0 < |ids| <= |drawn| && multiset(drawn[|drawn| - |ids|..]) == multiset(ids)
     && Blocks(drawn[..|drawn| - |ids|], ids))
  }

  ghost predicate NeighboursDiffer(s: seq<int>) {
    forall i, j :: 0 <= i < j < |s| && j == i + 1 ==> s[i] != s[j]
  }

  ghost predicate CyclesHold(t: Trace, ids: seq<int>, shuffle: bool) {
    && t.cut <= |t.drawn| && (t.drawn != [] ==> t.cut < |t.drawn|)
    && Blocks(t.drawn[..t.cut], ids)
    && (t.drawn != [] ==> multiset(t.drawn[t.cut..] + t.planner.cycle) == multiset(ids))
    && (t.drawn != [] && !shuffle ==> t.drawn[t.cut..] + t.planner.cycle == ids)
    && (t.drawn == [] ==> t.planner.cycle == [])
    && t.planner.last == (if t.drawn == [] then None else Some(t.drawn[|t.drawn| - 1]))
    && (|ids| > 1 ==> NeighboursDiffer(t.drawn))
  }

  function Drawn(t: Trace, epoch: Epoch, order: seq<int>): (r: Trace)
    requires epoch.members != []
  {
    var r := NextMember(t.planner, epoch, order);
    t.(planner := r.0, drawn := t.drawn + [r.1], cut := if t.planner.cycle == [] then |t.drawn| else t.cut)
  }

  lemma DrawKeepsCycles(t: Trace, epoch: Epoch, order: seq<int>)
    requires CyclesHold(t, MemberIds(epoch.members), epoch.shuffle)
    requires epoch.members != [] && AllDifferent(MemberIds(epoch.members))
    ensures CyclesHold(Drawn(t, epoch, order), MemberIds(epoch.members), epoch.shuffle)
  {
    if t.planner.cycle == [] {
      StartCycle(t, epoch, order);
    } else {
      ContinueCycle(t, epoch, order);
    }
  }

  lemma StartCycle(t: Trace, epoch: Epoch, order: seq<int>)
    requires CyclesHold(t, MemberIds(epoch.members), epoch.shuffle) && t.planner.cycle == []
    requires epoch.members != [] && AllDifferent(MemberIds(epoch.members))
    ensures CyclesHold(Drawn(t, epoch, order), MemberIds(epoch.members), epoch.shuffle)
  {
    CyclePermutes(epoch, t.planner.last, order);
    NewCycleDiffers(t, epoch, order);
    AssembleCycle(t, NewCycle(epoch, t.planner.last, order), MemberIds(epoch.members), epoch.shuffle);
  }

  lemma AssembleCycle(t: Trace, cycle: seq<int>, ids: seq<int>, shuffle: bool)
    requires CyclesHold(t, ids, shuffle) && t.planner.cycle == [] && ids != [] && cycle != []
    requires multiset(cycle) == multiset(ids) && (!shuffle ==> cycle == ids)
    requires t.drawn != [] && |ids| > 1 ==> t.drawn[|t.drawn| - 1] != cycle[0]
    ensures CyclesHold(Trace(t.planner.(cycle := cycle[1..], last := Some(cycle[0])), t.planned,
                             t.drawn + [cycle[0]], |t.drawn|), ids, shuffle)
  {
    FullCycleIsBlock(t, ids) by {
      assert t.drawn != [] ==> t.drawn[t.cut..] + [] == t.drawn[t.cut..];
    }
    AppendedCycle(t.drawn, cycle);
    if |ids| > 1 { NeighboursExtend(t.drawn, cycle[0]); }
  }

  lemma AppendedCycle(drawn: seq<int>, cycle: seq<int>)
    requires cycle != []
    ensures (drawn + [cycle[0]])[|drawn|..] + cycle[1..] == cycle
    ensures (drawn + [cycle[0]])[..|drawn|] == drawn
  {
  }

  lemma NeighboursExtend(s: seq<int>, x: int)
    requires NeighboursDiffer(s) && (s != [] ==> s[|s| - 1] != x)
    ensures NeighboursDiffer(s + [x])
  {
  }

  lemma ContinueCycle(t: Trace, epoch: Epoch, order: seq<int>)
    requires CyclesHold(t, MemberIds(epoch.members), epoch.shuffle) && t.planner.cycle != []
    requires epoch.members != [] && AllDifferent(MemberIds(epoch.members))
    ensures CyclesHold(Drawn(t, epoch, order), MemberIds(epoch.members), epoch.shuffle)
  {
    var ids := MemberIds(epoch.members);
    var u := Drawn(t, epoch, order);
    assert u.drawn[u.cut..] + u.planner.cycle == t.drawn[t.cut..] + t.planner.cycle;
    assert u.drawn[..u.cut] == t.drawn[..t.cut];
    WithinCycleDiffers(t, ids);
  }

  lemma FullCycleIsBlock(t: Trace, ids: seq<int>)
    requires ids != [] && t.planner.cycle == [] && t.cut <= |t.drawn|
    requires Blocks(t.drawn[..t.cut], ids)
    requires t.drawn != [] ==> multiset(t.drawn[t.cut..]) == multiset(ids)
    ensures Blocks(t.drawn, ids)
  {
    if t.drawn != [] {
      assert |multiset(t.drawn[t.cut..])| == |multiset(ids)|;
      assert t.cut == |t.drawn| - |ids|;
    }
  }

  lemma WithinCycleDiffers(t: Trace, ids: seq<int>)
    requires AllDifferent(ids) && t.cut <= |t.drawn| && t.planner.cycle != []
    requires t.drawn != [] && multiset(t.drawn[t.cut..] + t.planner.cycle) == multiset(ids)
    ensures t.cut < |t.drawn| ==> t.drawn[|t.drawn| - 1] != t.planner.cycle[0]
  {
    var current := t.drawn[t.cut..] + t.planner.cycle;
    PermutationDistinct(ids, current);
    if t.cut < |t.drawn| {
      var k := |t.drawn| - t.cut;
      assert current[k - 1] == t.drawn[|t.drawn| - 1] && current[k] == t.planner.cycle[0];
    }
  }

  lemma NewCycleDiffers(t: Trace, epoch: Epoch, order: seq<int>)
    requires CyclesHold(t, MemberIds(epoch.members), epoch.shuffle) && t.planner.cycle == []
    requires epoch.members != [] && AllDifferent(MemberIds(epoch.members))
    ensures t.drawn != [] && |epoch.members| > 1 ==>
              t.drawn[|t.drawn| - 1] != NewCycle(epoch, t.planner.last, order)[0]
  {
    if t.drawn != [] && |epoch.members| > 1 {
      if epoch.shuffle {
        CycleStartsElsewhere(epoch, t.planner.last, order);
      } else {
        var ids := MemberIds(epoch.members);
        assert t.drawn[t.cut..] + t.planner.cycle == t.drawn[t.cut..] == ids;
        assert t.drawn[|t.drawn| - 1] == ids[|ids| - 1];
      }
    }
  }

  // ------------------------------------------------------------------ the theorems

  ghost predicate HistoryValid(p: Planner, c: Config) {
    forall i :: 0 <= i < |p.history| ==> ValidHistory(c, p.history[i])
  }

  /** What every run under one configuration keeps. */
  ghost predicate Holds(t: Trace, c: Config) {
    && t.planner.epoch == c.epoch && Bounded(t.planner) && HistoryValid(t.planner, c)
    && (c.epoch.Some? ==>
      StreamsRemember(t, c)
      && CyclesHold(t, MemberIds(c.epoch.value.members), c.epoch.value.shuffle))
  }

  /** What is planned can be replayed: it resolves, and a pair groups again. */
  lemma PlannedIsValid(t: Trace, c: Config, member: int, d: Draws)
    requires c.Valid() && c.epoch.Some? && t.planner.epoch == c.epoch && StreamsRemember(t, c)
    requires Plan(t.planner, c, member, d).1.Some? && Plan(t.planner, c, member, d).1.value.Ready?
    ensures ValidHistory(c, Plan(t.planner, c, member, d).1.value.step)
  {
    var step := Composition(c, member).value;
    if step.kind != WebView {
      var w := step.widget;
      assert StreamRemembers(t, c, w);
      var ctx, shuffle := c.widgets[w].media.value, c.epoch.value.shuffle;
      var stream := if w in t.planner.streams then t.planner.streams[w] else NewStream(step.kind);
      PlannedMediaResolves(ctx, shuffle, MediaOf(t.planned, w), stream, d);
      var media := PlanMedia(ctx, shuffle, stream, d).1;
      assert Plan(t.planner, c, member, d).1.value.step == step.(media := Ids(ctx.source, media));
    }
  }

  lemma PlannedMediaResolves(ctx: Context, shuffle: bool, consumed: seq<Path>, s: Stream, d: Draws)
    requires ctx.Valid() && Remembers(ctx, shuffle, consumed, s)
    ensures var media := PlanMedia(ctx, shuffle, s, d).1;
            && Resolves(ctx, Ids(ctx.source, media))
            && (s.kind == PortraitPair && |media| == 2 ==> |BuildFrame(ctx, media[0], Some(media[1]))| == 2)
  {
    var media := PlanMedia(ctx, shuffle, s, d).1;
    PlannedMediaEligible(ctx, shuffle, consumed, s, d);
    forall i | 0 <= i < |media| ensures Resolve(ctx, Ids(ctx.source, media)[i]).Some? {
      assert media[i] in media;
    }
  }

  lemma PlannedMediaEligible(ctx: Context, shuffle: bool, consumed: seq<Path>, s: Stream, d: Draws)
    requires ctx.Valid() && Remembers(ctx, shuffle, consumed, s)
    ensures forall p :: p in PlanMedia(ctx, shuffle, s, d).1 ==> p in ctx.paths
  {
    PlanKeepsStream(ctx, shuffle, consumed, s, d);
    var media := PlanMedia(ctx, shuffle, s, d).1;
    forall p | p in media ensures p in ctx.paths {
      assert p in consumed + media;
    }
  }

  lemma HistoryRecorded(p: Planner, c: Config, step: Step)
    requires HistoryValid(p, c) && ValidHistory(c, step)
    ensures HistoryValid(Record(p, step), c)
  {
  }

  /** The run after one more drawn member. */
  function Advanced(t: Trace, c: Config, chance: Chance): (r: Trace)
    requires c.Valid() && c.ready && t.planner.epoch == c.epoch
  {
    var u := Drawn(t, c.epoch.value, chance.order);
    var r := Advance(t.planner, c, c.epoch.value, chance);
    u.(planner := r.0, planned := if r.1.Ready? then t.planned + [r.1.step] else t.planned)
  }

  /** A request either answers from history, moving nothing but the cursor, or draws one new member. */
  lemma RequestReplaysOrAdvances(p: Planner, c: Config, forward: bool, chance: Chance)
    requires c.Valid() && Bounded(p) && p.epoch == c.epoch
    ensures var r := Request(p, forward, c, c, chance);
            if Advances(p, c, forward) then r == Advance(p, c, c.epoch.value, chance)
              else r.0 == p.(cursor := r.0.cursor)
  {
  }

  lemma ExtendAdvances(t: Trace, c: Config, i: Input)
    requires c.Valid() && Bounded(t.planner) && t.planner.epoch == c.epoch && Advances(t.planner, c, i.forward)
    ensures Extend(t, c, i) == Advanced(t, c, i.chance)
  {
    RequestReplaysOrAdvances(t.planner, c, i.forward, i.chance);
    var (q, member) := NextMember(t.planner, c.epoch.value, i.chance.order);
    PlanTouches(q, c, member, i.chance.draws, 0);
  }

  /** An advance is a draw, a plan of the member drawn, and the record of its step. */
  lemma AdvanceInSteps(t: Trace, c: Config, chance: Chance)
    requires c.Valid() && c.ready && t.planner.epoch == c.epoch
    ensures var u := Drawn(t, c.epoch.value, chance.order);
            var member := NextMember(t.planner, c.epoch.value, chance.order).1;
            var v := Planned(u, c, member, chance.draws);
            var planned := Plan(u.planner, c, member, chance.draws).1;
            Advanced(t, c, chance) ==
            v.(planner := if planned.Some? && planned.value.Ready? then Record(v.planner, planned.value.step)
                          else v.planner)
  {
    var u := Drawn(t, c.epoch.value, chance.order);
    var member := NextMember(t.planner, c.epoch.value, chance.order).1;
    PlanTouches(u.planner, c, member, chance.draws, 0);
  }

  lemma AdvanceHolds(t: Trace, c: Config, chance: Chance)
    requires c.Valid() && c.ready && Holds(t, c)
    ensures Holds(Advanced(t, c, chance), c)
  {
    var epoch := c.epoch.value;
    var u := Drawn(t, epoch, chance.order);
    var member := NextMember(t.planner, epoch, chance.order).1;
    DrawHolds(t, c, chance.order);
    PlanHolds(u, c, member, chance.draws);
    AdvanceInSteps(t, c, chance);
    var v := Planned(u, c, member, chance.draws);
    var planned := Plan(u.planner, c, member, chance.draws).1;
    if planned.Some? && planned.value.Ready? {
      PlannedIsValid(u, c, member, chance.draws);
      RecordHolds(v, c, planned.value.step);
    }
  }

  lemma DrawHolds(t: Trace, c: Config, order: seq<int>)
    requires c.Valid() && c.ready && Holds(t, c)
    ensures Holds(Drawn(t, c.epoch.value, order), c)
  {
    DrawKeepsCycles(t, c.epoch.value, order);
    DrawKeepsStreams(t, c, order);
  }

  lemma PlanHolds(t: Trace, c: Config, member: int, d: Draws)
    requires c.Valid() && c.ready && Holds(t, c)
    ensures Holds(Planned(t, c, member, d), c)
  {
    PlanKeepsStreams(t, c, member, d);
    PlanTouches(t.planner, c, member, d, 0);
    SameCycles(t, Planned(t, c, member, d), MemberIds(c.epoch.value.members), c.epoch.value.shuffle);
  }

  lemma RecordHolds(t: Trace, c: Config, step: Step)
    requires c.Valid() && c.ready && Holds(t, c) && ValidHistory(c, step)
    ensures Holds(t.(planner := Record(t.planner, step)), c)
  {
    HistoryRecorded(t.planner, c, step);
    var u := t.(planner := Record(t.planner, step));
    SameStreams(t, u, c);
    SameCycles(t, u, MemberIds(c.epoch.value.members), c.epoch.value.shuffle);
  }

  lemma SameCycles(t: Trace, u: Trace, ids: seq<int>, shuffle: bool)
    requires CyclesHold(t, ids, shuffle) && u.drawn == t.drawn && u.cut == t.cut
    requires u.planner.cycle == t.planner.cycle && u.planner.last == t.planner.last
    ensures CyclesHold(u, ids, shuffle)
  {
  }

  lemma DrawKeepsStreams(t: Trace, c: Config, order: seq<int>)
    requires c.Valid() && c.epoch.Some? && c.epoch.value.members != [] && StreamsRemember(t, c)
    requires t.planner.epoch == c.epoch
    ensures StreamsRemember(Drawn(t, c.epoch.value, order), c)
  {
    SameStreams(t, Drawn(t, c.epoch.value, order), c);
  }

  lemma SameStreams(t: Trace, u: Trace, c: Config)
    requires c.Valid() && c.epoch.Some? && StreamsRemember(t, c)
    requires u.planner.streams == t.planner.streams && u.planned == t.planned
    ensures StreamsRemember(u, c)
  {
    forall w: int ensures StreamRemembers(u, c, w) { assert StreamRemembers(t, c, w); }
  }

  lemma ExtendHolds(t: Trace, c: Config, i: Input)
    requires c.Valid() && Holds(t, c)
    ensures Holds(Extend(t, c, i), c)
  {
    var u := Extend(t, c, i);
    RequestReplaysOrAdvances(t.planner, c, i.forward, i.chance);
    if Advances(t.planner, c, i.forward) {
      ExtendAdvances(t, c, i);
      AdvanceHolds(t, c, i.chance);
      return;
    }
    RequestKeepsBounded(t.planner, i.forward, c, c, i.chance);
    if c.epoch.Some? {
      SameStreams(t, u, c);
    }
  }

  lemma {:induction false} RunHolds(c: Config, inputs: seq<Input>)
    requires c.Valid()
    ensures Holds(Run(c, inputs), c)
  {
    if inputs == [] {
      if c.epoch.Some? {
        forall w: int ensures StreamRemembers(Run(c, inputs), c, w) {}
      }
    } else {
      RunHolds(c, inputs[..|inputs| - 1]);
      ExtendHolds(Run(c, inputs[..|inputs| - 1]), c, inputs[|inputs| - 1]);
    }
  }

  /**
    Over any run of next and previous calls under one configuration, and however Widgets interleave,
    what an ordered sequence plans for one Widget is its eligible list read cyclically.
  */
  lemma OrderedPlannerRun(c: Config, inputs: seq<Input>, widget: int, k: nat)
    requires c.Valid() && c.epoch.Some? && !c.epoch.value.shuffle
    requires k < |MediaOf(Run(c, inputs).planned, widget)|
    ensures Streamed(c, widget) && c.widgets[widget].media.value.paths != []
    ensures var paths := c.widgets[widget].media.value.paths;
            MediaOf(Run(c, inputs).planned, widget)[k] == paths[k % |paths|]
  {
    RunHolds(c, inputs);
    assert StreamRemembers(Run(c, inputs), c, widget);
  }

  /** The same for a shuffled sequence: no item repeats within min(count, 33) consecutive ones of a Widget. */
  lemma ShuffledPlannerRun(c: Config, inputs: seq<Input>, widget: int, i: nat, j: nat)
    requires c.Valid() && c.epoch.Some? && c.epoch.value.shuffle
    requires i < j < |MediaOf(Run(c, inputs).planned, widget)|
    ensures Streamed(c, widget)
    ensures j - i < |c.widgets[widget].media.value.paths| && j - i < 33 ==>
              MediaOf(Run(c, inputs).planned, widget)[i] != MediaOf(Run(c, inputs).planned, widget)[j]
  {
    RunHolds(c, inputs);
    assert StreamRemembers(Run(c, inputs), c, widget);
  }

  /**
    The members drawn up to the start of the current cycle fall into permutations of the memberships,
    the current cycle is part of one, and consecutive draws differ, across cycles too.
  */
  lemma CyclesOfRun(c: Config, inputs: seq<Input>)
    requires c.Valid() && c.epoch.Some?
    ensures var t := Run(c, inputs);
            var ids := MemberIds(c.epoch.value.members);
            && t.cut <= |t.drawn| && Blocks(t.drawn[..t.cut], ids)
            && (t.drawn != [] ==> multiset(t.drawn[t.cut..] + t.planner.cycle) == multiset(ids))
            && (|ids| > 1 ==> NeighboursDiffer(t.drawn))
  {
    RunHolds(c, inputs);
  }

  /** Under one configuration previous is accepted exactly when there is an earlier step, and moves by one. */
  lemma PreviousOfRun(c: Config, inputs: seq<Input>, chance: Chance)
    requires c.Valid() && c.ready
    ensures var p := Run(c, inputs).planner;
            Request(p, false, c, c, chance) ==
            if 0 < p.cursor <= |p.history| then (p.(cursor := p.cursor - 1), Ready(p.history[p.cursor - 1]))
              else (p, HistoryBoundary)
  {
    RunHolds(c, inputs);
    PreviousOfValid(Run(c, inputs).planner, c, chance);
  }

  lemma PreviousOfValid(p: Planner, c: Config, chance: Chance)
    requires c.Valid() && c.ready && p.epoch == c.epoch && Bounded(p) && HistoryValid(p, c)
    ensures Request(p, false, c, c, chance) ==
            if 0 < p.cursor then (p.(cursor := p.cursor - 1), Ready(p.history[p.cursor - 1])) else (p, HistoryBoundary)
  {
    assert Seek(c, p.history, p.cursor - 1, false) == if 0 < p.cursor then Some(p.cursor - 1) else None;
  }

  /** A member whose step can be planned now, and what that step is but for its media. */
  predicate Plannable(c: Config, member: int) {
    c.ready && c.epoch.Some? && member in c.occurrences && c.occurrences[member].widget in c.widgets
    && var w := c.widgets[c.occurrences[member].widget];
       if w.kind == WebView then w.webTarget else w.media.Some? && w.media.value.paths != []
  }

  predicate StepOf(c: Config, member: int, step: Step)
    requires c.epoch.Some? && member in c.occurrences && c.occurrences[member].widget in c.widgets
  {
    && step.sequence == c.epoch.value.sequence && step.member == member
    && step.scene == c.occurrences[member].scene && step.widget == c.occurrences[member].widget
    && step.kind == c.widgets[step.widget].kind
    && (if step.kind == WebView then step.media == []
        else 1 <= |step.media| <= 2
             && forall i :: 0 <= i < |step.media| ==>
                  c.widgets[step.widget].media.Some?
                  && step.media[i].source == c.widgets[step.widget].media.value.source
                  && step.media[i].path in c.widgets[step.widget].media.value.paths)
  }

  ghost predicate NextShows(p: Planner, c: Config, chance: Chance)
    requires c.Valid() && c.ready
  {
    var r := Request(p, true, c, c, chance);
    var member := NextMember(p, c.epoch.value, chance.order).1;
    if 0 <= p.cursor + 1 < |p.history| then
      r == (p.(cursor := p.cursor + 1), Ready(p.history[p.cursor + 1]))
    else if Plannable(c, member) then
      && r.1.Ready? && StepOf(c, member, r.1.step)
      && r.0.history == Newest(p.history + [r.1.step], 32) && r.0.cursor == |r.0.history| - 1
    else !r.1.Ready? && r.0.history == p.history && r.0.cursor == p.cursor
  }

  /**
    Under one configuration next replays the step behind the cursor, if there is one. Otherwise it draws a
    member, and shows and records a step of it exactly when the member can be planned.
  */
  lemma NextOfRun(c: Config, inputs: seq<Input>, chance: Chance)
    requires c.Valid() && c.ready
    ensures NextShows(Run(c, inputs).planner, c, chance)
  {
    var t := Run(c, inputs);
    RunHolds(c, inputs);
    NextOfValid(t, c, chance);
  }

  /** The last so many items. */
  function Newest(s: seq<Step>, n: nat): (r: seq<Step>) {
    if |s| <= n then s else s[|s| - n..]
  }

  lemma NextOfValid(t: Trace, c: Config, chance: Chance)
    requires c.Valid() && c.ready && Holds(t, c)
    ensures NextShows(t.planner, c, chance)
  {
    var p := t.planner;
    assert Seek(c, p.history, p.cursor + 1, true) == if p.cursor + 1 < |p.history| then Some(p.cursor + 1) else None;
    if p.cursor + 1 >= |p.history| {
      var u := Drawn(t, c.epoch.value, chance.order);
      DrawKeepsStreams(t, c, chance.order);
      PlanOfMember(u, c, NextMember(p, c.epoch.value, chance.order).1, chance.draws);
    }
  }

  /** Planning a drawn member succeeds exactly when it can be planned, with media of its own Widget. */
  lemma PlanOfMember(t: Trace, c: Config, member: int, d: Draws)
    requires c.Valid() && c.ready && c.epoch.Some? && t.planner.epoch == c.epoch && StreamsRemember(t, c)
    ensures var r := Plan(t.planner, c, member, d);
            && r.0 == t.planner.(streams := r.0.streams)
            && (Plannable(c, member) <==> r.1.Some? && r.1.value.Ready?)
            && (Plannable(c, member) ==> StepOf(c, member, r.1.value.step))
  {
    PlanTouches(t.planner, c, member, d, 0);
    var composed := Composition(c, member);
    if composed.Some? && composed.value.kind != WebView && Streamed(c, composed.value.widget) {
      var w := composed.value.widget;
      assert StreamRemembers(t, c, w);
      var ctx, shuffle := c.widgets[w].media.value, c.epoch.value.shuffle;
      var stream := if w in t.planner.streams then t.planner.streams[w] else NewStream(composed.value.kind);
      PlanKeepsStream(ctx, shuffle, MediaOf(t.planned, w), stream, d);
      PlannedMediaEligible(ctx, shuffle, MediaOf(t.planned, w), stream, d);
      var media := PlanMedia(ctx, shuffle, stream, d).1;
      assert forall i :: 0 <= i < |media| ==> media[i] in media;
    }
  }
}
