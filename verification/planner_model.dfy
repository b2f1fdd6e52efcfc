/**
  The display planner as a value: epoch, shuffled or ordered membership cycles, Widget streams
  and a bounded history with a cursor. `Request` is one call of next or previous, reading the
  configuration once at its start (`now`) and again while it resolves occurrences (`late`).
*/
module PlannerModel {
  import opened Basics
  import opened MediaStream
  import opened StreamPlan

  datatype Member = Member(id: int, scene: int)

  datatype Epoch = Epoch(sequence: int, shuffle: bool, members: seq<Member>)

  datatype Occurrence = Occurrence(scene: int, widget: int)

  /** Kind of an enabled Widget with an enabled Source, and what its media selection resolves to, if anything. */
  datatype Widget = Widget(kind: Kind, media: Option<Context>, webTarget: bool)

  /** One consistent read of the configuration; `occurrences` holds those that resolve. */
  datatype Config = Config(ready: bool, epoch: Option<Epoch>, occurrences: map<int, Occurrence>,
    widgets: map<int, Widget>) {
    ghost predicate Valid() {
      && (ready ==> epoch.Some? && epoch.value.members != [])
      && (epoch.Some? ==> AllDifferent(MemberIds(epoch.value.members)))
      && (forall w | w in widgets && widgets[w].media.Some? :: widgets[w].media.value.Valid())
    }
  }

  datatype Step = Step(sequence: int, member: int, scene: int, widget: int, kind: Kind, media: seq<Identity>)

  datatype Planner = Planner(epoch: Option<Epoch>, streams: map<int, Stream>, history: seq<Step>, cursor: int,
                             cycle: seq<int>, last: Option<int>)

  datatype Status = Ready(step: Step) | Ineligible | HistoryBoundary | Failure

  /** Random inputs of one request: an order for a new cycle and the stream's numbers. */
  datatype Chance = Chance(order: seq<int>, draws: Draws)

  const HISTORY_LIMIT := 32

  function Reset(epoch: Option<Epoch>): Planner {
    Planner(epoch, map[], [], -1, [], None)
  }

  function Refresh(p: Planner, now: Config): Planner {
    if now.epoch != p.epoch then Reset(now.epoch) else p
  }

  /** A changed epoch leaves nothing: no history, no stream, no cycle. An unchanged one leaves everything. */
  lemma RefreshForgets(p: Planner, now: Config)
    ensures var q := Refresh(p, now);
            && q.epoch == now.epoch
            && (if now.epoch == p.epoch then q == p
                else q.history == [] && q.cursor == -1 && q.streams == map[] && q.cycle == [] && q.last == None)
  {
  }

  function MemberIds(members: seq<Member>): (ids: seq<int>)
    ensures |ids| == |members| && forall i :: 0 <= i < |ids| ==> ids[i] == members[i].id
  {
    seq(|members|, i requires 0 <= i < |members| => members[i].id)
  }

  predicate AllDifferent(s: seq<int>) {
    forall i, j :: 0 <= i < j < |s| ==> s[i] != s[j]
  }

  // ----------------------------------------------------------------------- cycles

  /** A fresh cycle: configured order, or a shuffle that does not start with the last draw. */
  function NewCycle(epoch: Epoch, last: Option<int>, order: seq<int>): (cycle: seq<int>) {
    var ids := MemberIds(epoch.members);
    if !epoch.shuffle then ids
    else
      var shuffled := if multiset(order) == multiset(ids) then order else ids;
      if |shuffled| > 1 && last == Some(shuffled[0]) then [shuffled[1], shuffled[0]] + shuffled[2..] else shuffled
  }

  /** `_next_member`. */
  function NextMember(p: Planner, epoch: Epoch, order: seq<int>): (r: (Planner, int))
    requires epoch.members != []
  {
    var cycle := if p.cycle == [] then NewCycle(epoch, p.last, order) else p.cycle;
    CyclePermutes(epoch, p.last, order);
    (p.(cycle := cycle[1..], last := Some(cycle[0])), cycle[0])
  }

  /** Swapping the first two items permutes. */
  lemma SwapPermutes(s: seq<int>)
    requires |s| > 1
    ensures multiset([s[1], s[0]] + s[2..]) == multiset(s)
  {
    assert s == [s[0], s[1]] + s[2..];
  }

  /** Every cycle is a permutation of the memberships. */
  lemma CyclePermutes(epoch: Epoch, last: Option<int>, order: seq<int>)
    ensures multiset(NewCycle(epoch, last, order)) == multiset(MemberIds(epoch.members))
    ensures |NewCycle(epoch, last, order)| == |epoch.members|
  {
    var ids := MemberIds(epoch.members);
    var shuffled := if multiset(order) == multiset(ids) then order else ids;
    if |shuffled| > 1 { SwapPermutes(shuffled); }
    assert |multiset(NewCycle(epoch, last, order))| == |multiset(ids)|;
  }

  /** A shuffled cycle is the order that was drawn, its first two exchanged only if it would repeat the last draw. */
  lemma OrderIsDrawn(epoch: Epoch, last: Option<int>, order: seq<int>)
    requires multiset(order) == multiset(MemberIds(epoch.members))
    ensures var cycle := NewCycle(epoch, last, order);
            if !epoch.shuffle then cycle == MemberIds(epoch.members)
            else if |order| < 2 || last != Some(order[0]) then cycle == order
            else |cycle| == |order| && cycle[0] == order[1] && cycle[1] == order[0] && cycle[2..] == order[2..]
  {
  }

  /** A shuffled cycle does not start where the previous one ended. */
  lemma CycleStartsElsewhere(epoch: Epoch, last: Option<int>, order: seq<int>)
    requires epoch.shuffle && |epoch.members| > 1 && AllDifferent(MemberIds(epoch.members))
    ensures last != Some(NewCycle(epoch, last, order)[0])
  {
    CyclePermutes(epoch, last, order);
    var ids := MemberIds(epoch.members);
    var shuffled := if multiset(order) == multiset(ids) then order else ids;
    PermutationDistinct(ids, shuffled);
  }

  lemma PermutationDistinct(ids: seq<int>, order: seq<int>)
    requires AllDifferent(ids) && multiset(order) == multiset(ids)
    ensures AllDifferent(order)
  {
    forall i, j | 0 <= i < j < |order| ensures order[i] != order[j] {
      if order[i] == order[j] {
        var x := order[i];
        assert order == order[..i] + [x] + order[i + 1..j] + [x] + order[j + 1..];
        assert multiset(order)[x] >= 2;
        AtMostOnce(ids, x);
      }
    }
  }

  lemma {:induction false} AtMostOnce(ids: seq<int>, x: int)
    requires AllDifferent(ids)
    ensures multiset(ids)[x] <= 1
  {
    if ids != [] {
      AtMostOnce(ids[1..], x);
      assert ids == [ids[0]] + ids[1..];
      assert ids[0] !in ids[1..];
    }
  }

  // ---------------------------------------------------------------------- history

  /** `_composition` where the epoch is unchanged: the occurrence and its supported Widget. */
  function Composition(c: Config, member: int): (r: Option<Step>) {
    if c.ready && c.epoch.Some? && member in c.occurrences && c.occurrences[member].widget in c.widgets then
      var o := c.occurrences[member];
      Some(Step(c.epoch.value.sequence, member, o.scene, o.widget, c.widgets[o.widget].kind, []))
    else None
  }

  predicate Resolves(ctx: Context, media: seq<Identity>) {
    forall i :: 0 <= i < |media| ==> Resolve(ctx, media[i]).Some?
  }

  /** `_valid_history`, an invalid selection counting as not valid. */
  predicate ValidHistory(c: Config, step: Step) {
    var current := Composition(c, step.member);
    && current == Some(step.(media := []))
    && var w := c.widgets[step.widget];
       if step.kind == WebView then w.webTarget
       else w.media.Some? && Resolves(w.media.value, step.media)
            && (step.kind == PortraitPair && |step.media| == 2 ==>
                  |BuildFrame(w.media.value, step.media[0].path, Some(step.media[1].path))| == 2)
  }

  /** A recorded pair replays only while both are portraits, and two different ones, and then it does. */
  lemma PairReplays(c: Config, step: Step)
    requires c.Valid() && Composition(c, step.member) == Some(step.(media := []))
    requires step.kind == PortraitPair && |step.media| == 2
    ensures ValidHistory(c, step) <==>
            var w := c.widgets[step.widget];
            && w.media.Some?
            && (forall i :: 0 <= i < 2 ==>
                  && step.media[i].source == w.media.value.source && step.media[i].path in w.media.value.paths
                  && step.media[i].path in w.media.value.portraits)
            && step.media[0].path != step.media[1].path
  {
    if ValidHistory(c, step) {
      var ctx := c.widgets[step.widget].media.value;
      assert Resolve(ctx, step.media[0]).Some? && Resolve(ctx, step.media[1]).Some?;
    }
  }

  /** Any other step replays exactly while occurrence, Widget and kind are as recorded and its media eligible. */
  lemma StepReplays(c: Config, step: Step)
    requires c.Valid() && (step.kind == PortraitPair ==> |step.media| == 1)
    ensures ValidHistory(c, step) <==>
            && c.ready && c.epoch.Some? && step.sequence == c.epoch.value.sequence
            && step.member in c.occurrences && c.occurrences[step.member] == Occurrence(step.scene, step.widget)
            && step.widget in c.widgets && c.widgets[step.widget].kind == step.kind
            && var w := c.widgets[step.widget];
               if step.kind == WebView then w.webTarget
               else w.media.Some? && forall i :: 0 <= i < |step.media| ==>
                      step.media[i].source == w.media.value.source && step.media[i].path in w.media.value.paths
  {
    if step.member in c.occurrences {
      var o := c.occurrences[step.member];
      assert o == Occurrence(o.scene, o.widget);
    }
  }

  /** The search of `_replay`: the nearest valid step in that direction. */
  function Seek(c: Config, history: seq<Step>, index: int, forward: bool): (r: Option<int>)
    ensures r.Some? ==> 0 <= r.value < |history|
    decreases if forward then |history| - index else index
  {
    if index < 0 || index >= |history| then None
    else if ValidHistory(c, history[index]) then Some(index)
    else Seek(c, history, if forward then index + 1 else index - 1, forward)
  }

  // --------------------------------------------------------------------- requests

  /** `_plan` for a member drawn in an unchanged epoch; `None` where it returns nothing. */
  function Plan(p: Planner, c: Config, member: int, d: Draws): (r: (Planner, Option<Status>))
    requires c.Valid() && p.epoch.Some?
  {
    var composed := Composition(c, member);
    if composed.None? then (p, None)
    else
      var step := composed.value;
      var w := c.widgets[step.widget];
      if step.kind == WebView then (p, Some(if w.webTarget then Ready(step) else Failure))
      else
        var stream := if step.widget in p.streams && p.streams[step.widget].kind == step.kind
                      then p.streams[step.widget] else NewStream(step.kind);
        if w.media.None? then (p.(streams := p.streams[step.widget := stream]), Some(Failure))
        else
          var ctx := w.media.value;
          var r := PlanMedia(ctx, p.epoch.value.shuffle, stream, d);
          (p.(streams := p.streams[step.widget := r.0]),
           if r.1 == [] then None else Some(Ready(step.(media := Ids(ctx.source, r.1)))))
  }

  function Record(p: Planner, step: Step): Planner {
    var history := p.history + [step];
    var kept := if |history| > HISTORY_LIMIT then history[|history| - HISTORY_LIMIT..] else history;
    p.(history := kept, cursor := |kept| - 1)
  }

  /** Draw, plan and record one new step. */
  function Advance(p: Planner, late: Config, epoch: Epoch, chance: Chance): (r: (Planner, Status))
    requires late.Valid() && p.epoch == Some(epoch) && epoch.members != []
  {
    var (q, member) := NextMember(p, epoch, chance.order);
    if late.epoch != q.epoch then (Reset(late.epoch), Ineligible)
    else
      var (t, planned) := Plan(q, late, member, chance.draws);
      if planned.None? then (t, Ineligible)
      else if planned.value.Ready? then (Record(t, planned.value.step), planned.value)
      else (t, planned.value)
  }

  /** `_request`. */
  function Request(p: Planner, forward: bool, now: Config, late: Config, chance: Chance): (r: (Planner, Status))
    requires now.Valid() && late.Valid()
  {
    var q := Refresh(p, now);
    if !now.ready then (q, Ineligible)
    else
      var index := if forward then q.cursor + 1 else q.cursor - 1;
      if 0 <= index < |q.history| && late.epoch != q.epoch then (Reset(late.epoch), Ineligible)
      else
        var found := Seek(late, q.history, index, forward);
        if found.Some?
        then (q.(cursor := found.value), Ready(q.history[found.value]))
        else if !forward then (q, HistoryBoundary)
        else Advance(q, late, now.epoch.value, chance)
  }

  /** A Widget whose kind has changed starts a stream of the new kind, as one never planned before does. */
  lemma OtherKindStartsAfresh(p: Planner, c: Config, member: int, d: Draws)
    requires c.Valid() && p.epoch.Some? && Composition(c, member).Some?
    requires var step := Composition(c, member).value;
             step.widget in p.streams && p.streams[step.widget].kind != step.kind
    ensures var step := Composition(c, member).value;
            var q := p.(streams := p.streams - {step.widget});
            && Plan(p, c, member, d).1 == Plan(q, c, member, d).1
            && (step.kind != WebView ==> Plan(p, c, member, d).0.streams == Plan(q, c, member, d).0.streams)
  {
    var step := Composition(c, member).value;
    var q := p.(streams := p.streams - {step.widget});
    if step.kind != WebView {
      var s := Plan(p, c, member, d).0.streams[step.widget];
      assert p.streams[step.widget := s] == q.streams[step.widget := s];
    }
  }

  /**
    An epoch that changes while a request is under way: nothing of the old one is shown. Next forgets all of
    it and shows nothing; previous does so too, unless there is nothing before the cursor.
  */
  lemma ChangedUnderRequest(p: Planner, forward: bool, now: Config, late: Config, chance: Chance)
    requires now.Valid() && late.Valid() && Bounded(p) && now.ready && late.epoch != now.epoch
    ensures var r := Request(p, forward, now, late, chance);
            || (r == (Reset(late.epoch), Ineligible))
            || (!forward && r == (Refresh(p, now), HistoryBoundary) && r.0.cursor <= 0)
  {
  }

  // ---------------------------------------------------------- invariant of every call

  predicate Bounded(p: Planner) {
    -1 <= p.cursor < |p.history| <= HISTORY_LIMIT || (p.cursor == -1 && p.history == [])
  }

  lemma {:induction false} SeekInRange(c: Config, history: seq<Step>, index: int, forward: bool)
    ensures Seek(c, history, index, forward).Some? ==>
              var at := Seek(c, history, index, forward).value;
              && 0 <= at < |history| && ValidHistory(c, history[at])
              && (if forward then index <= at else at <= index)
    decreases if forward then |history| - index else index
  {
    if 0 <= index < |history| && !ValidHistory(c, history[index]) {
      SeekInRange(c, history, if forward then index + 1 else index - 1, forward);
    }
  }

  lemma AdvanceKeepsBounded(p: Planner, late: Config, epoch: Epoch, chance: Chance)
    requires late.Valid() && p.epoch == Some(epoch) && epoch.members != [] && Bounded(p)
    ensures var r := Advance(p, late, epoch, chance);
            && Bounded(r.0)
            && (r.1.Ready? ==> 0 <= r.0.cursor < |r.0.history| && r.1.step == r.0.history[r.0.cursor])
  {
  }

  /**
    Whatever the configuration does, the cursor stays in a history of at most 32 steps, and a ready step is the
    one under it.
  */
  lemma RequestKeepsBounded(p: Planner, forward: bool, now: Config, late: Config, chance: Chance)
    requires now.Valid() && late.Valid() && Bounded(p)
    ensures Bounded(Request(p, forward, now, late, chance).0)
    ensures Request(p, forward, now, late, chance).1.Ready? ==>
              var r := Request(p, forward, now, late, chance);
              0 <= r.0.cursor < |r.0.history| && r.1.step == r.0.history[r.0.cursor]
  {
    var q := Refresh(p, now);
    SeekInRange(late, q.history, if forward then q.cursor + 1 else q.cursor - 1, forward);
    if now.ready {
      AdvanceKeepsBounded(q, late, now.epoch.value, chance);
    }
  }

  // ----------------------------------------------------------------- history replay

  /** What `previous` skips, `next` skips again: seeking back and then forth returns to a valid start. */
  lemma {:induction false} SeekBackAndForth(c: Config, history: seq<Step>, at: nat, from: nat)
    requires from <= at < |history| && ValidHistory(c, history[at])
    requires forall i :: from <= i < at ==> !ValidHistory(c, history[i])
    ensures Seek(c, history, from, true) == Some(at)
    decreases at - from
  {
    if from < at {
      SeekBackAndForth(c, history, at, from + 1);
    }
  }

  lemma {:induction false} SeekBackSkipsInvalid(c: Config, history: seq<Step>, index: int)
    requires index < |history| && Seek(c, history, index, false).Some?
    ensures forall i :: Seek(c, history, index, false).value < i <= index && 0 <= i ==> !ValidHistory(c, history[i])
    decreases index
  {
    if 0 <= index && !ValidHistory(c, history[index]) {
      SeekBackSkipsInvalid(c, history, index - 1);
    }
  }

  /** `k` requests in one direction under an unchanged configuration. */
  function Walk(p: Planner, forward: bool, c: Config, k: nat, chance: Chance): (r: (Planner, seq<Status>))
    requires c.Valid()
    ensures |r.1| == k
    decreases k
  {
    if k == 0 then (p, [])
    else
      var one := Request(p, forward, c, c, chance);
      var rest := Walk(one.0, forward, c, k - 1, chance);
      (rest.0, [one.1] + rest.1)
  }

  /** The planner stands on a step that can be shown again under this configuration. */
  predicate Standing(p: Planner, c: Config) {
    c.ready && Bounded(p) && p.epoch == c.epoch && 0 <= p.cursor && ValidHistory(c, p.history[p.cursor])
  }

  lemma PreviousThenNext(p: Planner, c: Config, chance: Chance)
    requires c.Valid() && Standing(p, c) && Request(p, false, c, c, chance).1.Ready?
    ensures var (q, shown) := Request(p, false, c, c, chance);
            && q == p.(cursor := q.cursor) && 0 <= q.cursor < p.cursor
            && Standing(q, c) && shown == Ready(p.history[q.cursor])
            && Request(q, true, c, c, chance) == (p, Ready(p.history[p.cursor]))
  {
    SeekInRange(c, p.history, p.cursor - 1, false);
    SeekBackSkipsInvalid(c, p.history, p.cursor - 1);
    var q := Request(p, false, c, c, chance).0;
    SeekBackAndForth(c, p.history, p.cursor, q.cursor + 1);
  }

  lemma {:induction false} WalkSnoc(p: Planner, forward: bool, c: Config, k: nat, chance: Chance)
    requires c.Valid()
    ensures var before := Walk(p, forward, c, k, chance);
            var one := Request(before.0, forward, c, c, chance);
            Walk(p, forward, c, k + 1, chance) == (one.0, before.1 + [one.1])
    decreases k
  {
    if k > 0 {
      var first := Request(p, forward, c, c, chance);
      WalkSnoc(first.0, forward, c, k - 1, chance);
      var middle := Walk(first.0, forward, c, k - 1, chance);
      var last := Request(middle.0, forward, c, c, chance);
      assert [first.1] + (middle.1 + [last.1]) == [first.1] + middle.1 + [last.1];
    } else {
      var one := Request(p, forward, c, c, chance);
      assert Walk(one.0, forward, c, 0, chance) == (one.0, []);
      assert [one.1] + [] == [] + [one.1];
    }
  }

  /**
    With the configuration unchanged, `k` accepted previous calls followed by `k` next calls come back
    to the very same planner, streams and cycle included, showing the same steps in reverse.
  */
  lemma {:induction false} BackAndForth(p: Planner, c: Config, k: nat, chance: Chance)
    requires c.Valid() && Standing(p, c)
    requires forall i :: 0 <= i < k ==> Walk(p, false, c, k, chance).1[i].Ready?
    ensures var back := Walk(p, false, c, k, chance);
            var forth := Walk(back.0, true, c, k, chance);
            && forth.0 == p && back.0 == p.(cursor := back.0.cursor)
            && (forall i :: 0 <= i < k - 1 ==> forth.1[i] == back.1[k - 2 - i])
            && (k > 0 ==> forth.1[k - 1] == Ready(p.history[p.cursor]))
    decreases k
  {
    if k > 0 {
      var one := Request(p, false, c, c, chance);
      var rest := Walk(one.0, false, c, k - 1, chance);
      var back := Walk(p, false, c, k, chance);
      assert back == (rest.0, [one.1] + rest.1);
      assert back.1[0].Ready?;
      PreviousThenNext(p, c, chance);
      forall i | 0 <= i < k - 1 ensures rest.1[i].Ready? {
        assert rest.1[i] == back.1[i + 1];
      }
      BackAndForth(one.0, c, k - 1, chance);
      WalkSnoc(back.0, true, c, k - 1, chance);
      Reversed(one.1, rest.1, Walk(back.0, true, c, k - 1, chance).1, Ready(p.history[p.cursor]));
    }
  }

  /** One more step back at the front is one more step forth at the end. */
  lemma Reversed(first: Status, back: seq<Status>, forth: seq<Status>, shown: Status)
    requires |forth| == |back| && (back != [] ==> forth[|back| - 1] == first)
    requires forall i :: 0 <= i < |back| - 1 ==> forth[i] == back[|back| - 2 - i]
    ensures forall i :: 0 <= i < |back| ==> (forth + [shown])[i] == ([first] + back)[|back| - 1 - i]
    ensures (forth + [shown])[|back|] == shown
  {
  }
}
