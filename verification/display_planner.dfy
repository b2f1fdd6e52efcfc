/**
  The display planner in place. Its fields change as the source changes them; every method is proved
  to compute the planner value of PlannerModel, on which the whole-run theorems stand.
*/
module DisplayPlanner {
  import opened Basics
  import opened MediaStream
  import opened StreamPlan
  import opened PlannerModel

  class Planning {
    var epoch: Option<Epoch>
    var streams: map<int, WidgetStream>
    var history: seq<Step>
    var cursor: int
    var cycle: seq<int>
    var last: Option<int>

    ghost predicate Valid()
      reads this, streams.Values
    {
      && Bounded(View())
      && (forall w | w in streams :: |streams[w].recent| <= RECENT_LIMIT)
      && (forall v, w | v in streams && w in streams && v != w :: streams[v] != streams[w])
    }

    ghost function View(): Planner
      reads this, streams.Values
    {
      Planner(epoch, map w | w in streams :: streams[w].View(), history, cursor, cycle, last)
    }

    constructor ()
      ensures Valid() && View() == Reset(None) && fresh(streams.Values)
    {
      epoch, streams, history, cursor, cycle, last := None, map[], [], -1, [], None;
    }

    method Clear(next: Option<Epoch>)
      modifies this
      ensures Valid() && View() == Reset(next) && streams == map[]
    {
      epoch, streams, history, cursor, cycle, last := next, map[], [], -1, [], None;
    }

    /** `_next_member`. */
    method DrawMember(members: seq<Member>, shuffle: bool, order: seq<int>) returns (member: int)
      requires Valid() && epoch.Some? && epoch.value.members == members && epoch.value.shuffle == shuffle
               && members != []
      modifies this`cycle, this`last
      ensures Valid() && (View(), member) == NextMember(old(View()), epoch.value, order)
    {
      CyclePermutes(epoch.value, last, order);
      if cycle == [] {
        var ids := MemberIds(members);
        if shuffle {
          if multiset(order) == multiset(ids) {
            ids := order;
          }
          if |ids| > 1 && last == Some(ids[0]) {
            ids := [ids[1], ids[0]] + ids[2..];
          }
        }
        cycle := ids;
      }
      assert cycle == if old(cycle) == [] then NewCycle(epoch.value, last, order) else old(cycle);
      member := cycle[0];
      cycle, last := cycle[1..], Some(member);
      assert View().streams == old(View()).streams;
    }

    /** `_replay` where the epoch is unchanged: walk in one direction until a step is valid. */
    method Replay(forward: bool, c: Config) returns (found: Option<Step>)
      requires Valid()
      modifies this`cursor
      ensures Valid()
      ensures var index := if forward then old(cursor) + 1 else old(cursor) - 1;
              var at := Seek(c, history, index, forward);
              && (at.None? ==> found.None? && cursor == old(cursor))
              && (at.Some? ==> found == Some(history[at.value]) && cursor == at.value)
    {
      var index := if forward then cursor + 1 else cursor - 1;
      while 0 <= index < |history|
        invariant -1 <= index <= |history|  || index == -2
        invariant Seek(c, history, index, forward)
               == Seek(c, history, if forward then old(cursor) + 1 else old(cursor) - 1, forward)
        decreases if forward then |history| - index else index + 2
      {
        if ValidHistory(c, history[index]) {
          cursor := index;
          return Some(history[index]);
        }
        index := if forward then index + 1 else index - 1;
      }
      found := None;
    }

    /** The Widget's stream, replaced by a new one if there is none of this kind. */
    method UseStream(widget: int, kind: Kind)
      requires Valid()
      modifies this`streams
      ensures Valid() && fresh(streams.Values - old(streams.Values)) && widget in streams
      ensures View() == old(View()).(streams := old(View()).streams[widget :=
                if widget in old(View()).streams && old(View()).streams[widget].kind == kind
                then old(View()).streams[widget] else NewStream(kind)])
    {
      if widget !in streams || streams[widget].kind != kind {
        var stream := new WidgetStream(kind);
        streams := streams[widget := stream];
      }
      assert View().streams == old(View()).streams[widget :=
                if widget in old(View()).streams && old(View()).streams[widget].kind == kind
                then old(View()).streams[widget] else NewStream(kind)];
    }

    /** Plan from one Widget's stream; the other streams are other objects. */
    method PlanStream(widget: int, ctx: Context, d: Draws) returns (media: seq<Path>)
      requires Valid() && ctx.Valid() && epoch.Some? && widget in streams
      modifies streams[widget]
      ensures Valid()
      ensures View() == old(View()).(streams := old(View()).streams[widget :=
                PlanMedia(ctx, epoch.value.shuffle, old(View()).streams[widget], d).0])
      ensures media == PlanMedia(ctx, epoch.value.shuffle, old(View()).streams[widget], d).1
    {
      media := streams[widget].Plan(ctx, epoch.value.shuffle, d);
      forall v | v in streams && v != widget ensures streams[v].View() == old(streams[v].View()) {
        assert streams[v] != streams[widget];
      }
      assert View().streams == old(View()).streams[widget := streams[widget].View()];
    }

    /** `_plan` for a drawn member in an unchanged epoch. */
    method PlanMember(c: Config, member: int, d: Draws) returns (planned: Option<Status>)
      requires Valid() && c.Valid() && epoch.Some?
      modifies this`streams, streams.Values
      ensures Valid() && fresh(streams.Values - old(streams.Values))
      ensures (View(), planned) == Plan(old(View()), c, member, d)
    {
      var composed := Composition(c, member);
      if composed.None? {
        return None;
      }
      var step := composed.value;
      var w := c.widgets[step.widget];
      if step.kind == WebView {
        return Some(if w.webTarget then Ready(step) else Failure);
      }
      UseStream(step.widget, step.kind);
      if w.media.None? {
        return Some(Failure);
      }
      var media := PlanStream(step.widget, w.media.value, d);
      assert View().streams == old(View()).streams[step.widget := View().streams[step.widget]];
      planned := if media == [] then None else Some(Ready(step.(media := Ids(w.media.value.source, media))));
    }

    /** Append a newly planned step, keeping the last 32. */
    method RecordStep(step: Step)
      requires Valid()
      modifies this`history, this`cursor
      ensures Valid() && View() == Record(old(View()), step)
    {
      history := history + [step];
      if |history| > HISTORY_LIMIT {
        history := history[|history| - HISTORY_LIMIT..];
      }
      cursor := |history| - 1;
      assert View().streams == old(View()).streams;
    }

    /** The part of `_request` that plans something new. */
    method AdvanceStep(late: Config, members: seq<Member>, shuffle: bool, chance: Chance) returns (r: Status)
      requires Valid() && late.Valid()
      requires epoch.Some? && epoch.value.members == members && epoch.value.shuffle == shuffle && members != []
      modifies this, streams.Values
      ensures Valid() && fresh(streams.Values - old(streams.Values))
      ensures (View(), r) == Advance(old(View()), late, old(epoch.value), chance)
    {
      var member := DrawMember(members, shuffle, chance.order);
      if late.epoch != epoch {
        Clear(late.epoch);
        return Ineligible;
      }
      var planned := PlanMember(late, member, chance.draws);
      if planned.None? {
        return Ineligible;
      }
      r := planned.value;
      if r.Ready? {
        RecordStep(r.step);
      }
    }

    /** `_request`: next and previous share it. */
    method RequestStep(forward: bool, now: Config, late: Config, chance: Chance) returns (r: Status)
      requires Valid() && now.Valid() && late.Valid()
      modifies this, streams.Values
      ensures Valid() && fresh(streams.Values - old(streams.Values))
      ensures (View(), r) == Request(old(View()), forward, now, late, chance)
    {
      RefreshEpoch(now);
      if !now.ready {
        return Ineligible;
      }
      r := AnswerStep(forward, now, late, chance);
    }

    /** `_refresh`: a changed epoch forgets everything. */
    method RefreshEpoch(now: Config)
      requires Valid()
      modifies this
      ensures Valid() && View() == Refresh(old(View()), now) && streams.Values <= old(streams.Values)
    {
      if now.epoch != epoch {
        Clear(now.epoch);
      }
    }

    /** The part of `_request` behind an eligible configuration. */
    method AnswerStep(forward: bool, now: Config, late: Config, chance: Chance) returns (r: Status)
      requires Valid() && now.Valid() && late.Valid() && now.ready && epoch == now.epoch
      modifies this, streams.Values
      ensures Valid() && fresh(streams.Values - old(streams.Values))
      ensures (View(), r) == Request(old(View()), forward, now, late, chance)
    {
      var index := if forward then cursor + 1 else cursor - 1;
      if 0 <= index < |history| && late.epoch != epoch {
        Clear(late.epoch);
        return Ineligible;
      }
      ghost var before := View();
      var found := Replay(forward, late);
      assert View().streams == before.streams;
      if found.Some? {
        return Ready(found.value);
      }
      if !forward {
        return HistoryBoundary;
      }
      r := AdvanceStep(late, now.epoch.value.members, now.epoch.value.shuffle, chance);
    }

    method NextStep(now: Config, late: Config, chance: Chance) returns (r: Status)
      requires Valid() && now.Valid() && late.Valid()
      modifies this, streams.Values
      ensures Valid() && fresh(streams.Values - old(streams.Values))
      ensures (View(), r) == Request(old(View()), true, now, late, chance)
    {
      r := RequestStep(true, now, late, chance);
    }

    method PreviousStep(now: Config, late: Config, chance: Chance) returns (r: Status)
      requires Valid() && now.Valid() && late.Valid()
      modifies this, streams.Values
      ensures Valid() && fresh(streams.Values - old(streams.Values))
      ensures (View(), r) == Request(old(View()), false, now, late, chance)
    {
      r := RequestStep(false, now, late, chance);
    }
  }
}
