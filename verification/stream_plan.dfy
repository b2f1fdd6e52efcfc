/**
  Planning from one Widget stream: first candidate or the held-back one, portrait lookahead,
  grouping and consumption, and the two theorems about everything a stream ever shows.
*/
module StreamPlan {
  import opened Basics
  import opened MediaStream

  datatype Kind = ImageKind | PortraitPair | Video | WebView

  datatype Stream = Stream(kind: Kind, after: Option<Identity>, pending: Option<Identity>, recent: seq<Identity>)

  function NewStream(kind: Kind): Stream {
    Stream(kind, None, None, [])
  }

  /** Numbers the generator supplies for one plan: one for the candidate, one for the lookahead. */
  datatype Draws = Draws(first: Fraction, second: Fraction)

  // ------------------------------------------------------------ one plan, as a value

  function Consumed(s: Stream, candidate: Identity): Stream {
    s.(after := Some(candidate), recent := Last32(s.recent + [candidate]))
  }

  /** `resolve_candidate`: a retained identity that is still eligible. */
  function Resolve(ctx: Context, identity: Identity): (r: Option<Path>) {
    if identity.source == ctx.source && identity.path in ctx.paths then Some(identity.path) else None
  }

  /** `_candidate`: draw as though `first` had been consumed already. */
  function Candidate(ctx: Context, shuffle: bool, s: Stream, first: Option<Path>, f: Fraction): (r: Option<Path>)
    requires ctx.Valid()
  {
    var t := if first.Some? then Consumed(s, Identity(ctx.source, first.value)) else s;
    if shuffle then SelectShuffled(ctx, t.recent, f) else SelectOrdered(ctx, t.after)
  }

  /** `build_image_frame`: two different portraits share a frame. */
  function BuildFrame(ctx: Context, first: Path, lookahead: Option<Path>): (images: seq<Path>) {
    if first in ctx.portraits && lookahead.Some? && lookahead.value in ctx.portraits && first != lookahead.value
    then [first, lookahead.value] else [first]
  }

  function FirstOf(ctx: Context, shuffle: bool, s: Stream, d: Draws): (r: Option<Path>)
    requires ctx.Valid()
  {
    var held := if s.pending.Some? then Resolve(ctx, s.pending.value) else None;
    if held.Some? then held else Candidate(ctx, shuffle, s.(pending := None), None, d.first)
  }

  function LookaheadOf(ctx: Context, shuffle: bool, s: Stream, first: Path, d: Draws): (r: Option<Path>)
    requires ctx.Valid()
  {
    var lookahead := Candidate(ctx, shuffle, s, Some(first), d.second);
    if lookahead == Some(first) then None else lookahead
  }

  /** A portrait pair around `first`: a rejected lookahead stays owned by the stream. */
  function PairMedia(ctx: Context, shuffle: bool, t: Stream, first: Path, d: Draws): (r: (Stream, seq<Path>))
    requires ctx.Valid()
  {
    var lookahead := LookaheadOf(ctx, shuffle, t, first, d);
    var images := BuildFrame(ctx, first, lookahead);
    var one := Consumed(t, Identity(ctx.source, first));
    if |images| == 2 then (Consumed(one, Identity(ctx.source, images[1])), images)
    else (if lookahead.Some? then one.(pending := Some(Identity(ctx.source, lookahead.value))) else one, images)
  }

  /** The stream part of `_plan`: the new stream and the media of the planned step. */
  function PlanMedia(ctx: Context, shuffle: bool, s: Stream, d: Draws): (r: (Stream, seq<Path>))
    requires ctx.Valid()
  {
    var first := FirstOf(ctx, shuffle, s, d);
    var t := s.(pending := None);
    if first.None? then (t, [])
    else if s.kind == PortraitPair then PairMedia(ctx, shuffle, t, first.value, d)
    else (Consumed(t, Identity(ctx.source, first.value)), [first.value])
  }

  // ------------------------------------------------------------- the stream invariant

  /** What may come next after everything consumed so far. */
  predicate Next(ctx: Context, shuffle: bool, consumed: seq<Path>, p: Path) {
    ctx.paths != [] && if shuffle then Drawable(ctx, consumed, p) else p == ctx.paths[|consumed| % |ctx.paths|]
  }

  /** Ordered: the eligible list read cyclically from its start. */
  ghost predicate Cyclic(ctx: Context, consumed: seq<Path>) {
    ctx.paths != [] && forall k :: 0 <= k < |consumed| ==> consumed[k] == ctx.paths[k % |ctx.paths|]
  }

  ghost predicate Lawful(ctx: Context, shuffle: bool, consumed: seq<Path>) {
    consumed == [] ||
    (ctx.paths != [] && (forall q :: q in consumed ==> q in ctx.paths)
     && if shuffle then NoRepeat(consumed, |ctx.paths|) else Cyclic(ctx, consumed))
  }

  /** The stream remembers exactly the end of what was consumed, and holds back only a lawful next item. */
  ghost predicate Remembers(ctx: Context, shuffle: bool, consumed: seq<Path>, s: Stream) {
    && Lawful(ctx, shuffle, consumed)
    && s.recent == Last32(Ids(ctx.source, consumed))
    && s.after == (if consumed == [] then None else Some(Identity(ctx.source, consumed[|consumed| - 1])))
    && (s.pending.Some? ==> s.pending.value.source == ctx.source && Next(ctx, shuffle, consumed, s.pending.value.path))
  }

  lemma MultipleIsLarge(m: int, n: nat)
    requires m >= 1
    ensures m * n >= n
  {
    if m > 1 { MultipleIsLarge(m - 1, n); }
  }

  lemma ModUnique(q: int, r: int, s: int, t: int, n: nat)
    requires 0 <= r < n && 0 <= t < n && q * n + r == s * n + t
    ensures r == t
  {
    assert (q - s) * n == q * n - s * n && (s - q) * n == s * n - q * n;
    if q > s {
      MultipleIsLarge(q - s, n);
    } else if q < s {
      MultipleIsLarge(s - q, n);
    }
  }

  lemma ModSuccessor(k: nat, n: nat)
    requires n > 0
    ensures (k + 1) % n == if k % n + 1 < n then k % n + 1 else 0
  {
    var q, r := k / n, k % n;
    if r + 1 < n {
      ModUnique(q, r + 1, (k + 1) / n, (k + 1) % n, n);
    } else {
      assert (q + 1) * n == q * n + n;
      ModUnique(q + 1, 0, (k + 1) / n, (k + 1) % n, n);
    }
  }

  lemma ConsumeNext(ctx: Context, shuffle: bool, consumed: seq<Path>, s: Stream, p: Path)
    requires ctx.Valid() && Remembers(ctx, shuffle, consumed, s.(pending := None))
    requires p in ctx.paths && Next(ctx, shuffle, consumed, p)
    ensures Remembers(ctx, shuffle, consumed + [p], Consumed(s.(pending := None), Identity(ctx.source, p)))
  {
    if shuffle {
      DrawIsFresh(ctx, consumed, p);
    }
    LastOfAppended(ctx.source, consumed, p);
  }

  lemma LastOfAppended(source: int, consumed: seq<Path>, p: Path)
    ensures Last32(Last32(Ids(source, consumed)) + [Identity(source, p)]) == Last32(Ids(source, consumed + [p]))
  {
    assert Ids(source, consumed + [p]) == Ids(source, consumed) + [Identity(source, p)];
  }

  /** A draw is always a lawful next item. */
  lemma CandidateIsNext(ctx: Context, shuffle: bool, consumed: seq<Path>, s: Stream, f: Fraction)
    requires ctx.Valid() && Remembers(ctx, shuffle, consumed, s.(pending := None))
    ensures Candidate(ctx, shuffle, s, None, f).None? <==> ctx.paths == []
    ensures ctx.paths != [] ==>
              var p := Candidate(ctx, shuffle, s, None, f).value;
              p in ctx.paths && Next(ctx, shuffle, consumed, p)
  {
    if shuffle {
      assert s.recent == Last32(Ids(ctx.source, consumed));
    } else if consumed == [] || ctx.paths == [] {
      assert consumed == [];
    } else {
      OrderedIsNext(ctx, consumed);
      assert s.after == Some(Identity(ctx.source, consumed[|consumed| - 1]));
    }
  }

  lemma OrderedIsNext(ctx: Context, consumed: seq<Path>)
    requires ctx.Valid() && Cyclic(ctx, consumed) && consumed != []
    ensures SelectOrdered(ctx, Some(Identity(ctx.source, consumed[|consumed| - 1])))
              == Some(ctx.paths[|consumed| % |ctx.paths|])
  {
    var k := |consumed| - 1;
    OrderedSuccessor(ctx, k % |ctx.paths|);
    ModSuccessor(k, |ctx.paths|);
  }

  /** Planning keeps the invariant: what it shows is appended, one or two items whenever anything is eligible. */
  lemma PlanKeepsStream(ctx: Context, shuffle: bool, consumed: seq<Path>, s: Stream, d: Draws)
    requires ctx.Valid() && Remembers(ctx, shuffle, consumed, s)
    ensures Remembers(ctx, shuffle, consumed + PlanMedia(ctx, shuffle, s, d).1, PlanMedia(ctx, shuffle, s, d).0)
    ensures PlanMedia(ctx, shuffle, s, d).0.kind == s.kind
    ensures if ctx.paths == [] then PlanMedia(ctx, shuffle, s, d).1 == []
              else 1 <= |PlanMedia(ctx, shuffle, s, d).1| <= 2
  {
    var t := s.(pending := None);
    CandidateIsNext(ctx, shuffle, consumed, t, d.first);
    var first := FirstOf(ctx, shuffle, s, d);
    if first.None? {
      assert consumed + [] == consumed;
    } else {
      FirstIsNext(ctx, shuffle, consumed, s, d);
      if s.kind == PortraitPair {
        PairKeepsStream(ctx, shuffle, consumed, t, first.value, d);
      } else {
        ConsumeNext(ctx, shuffle, consumed, t, first.value);
      }
    }
  }

  lemma PairKeepsStream(ctx: Context, shuffle: bool, consumed: seq<Path>, t: Stream, first: Path, d: Draws)
    requires ctx.Valid() && Remembers(ctx, shuffle, consumed, t) && t.pending.None?
    requires first in ctx.paths && Next(ctx, shuffle, consumed, first)
    ensures var r := PairMedia(ctx, shuffle, t, first, d);
            Remembers(ctx, shuffle, consumed + r.1, r.0) && r.0.kind == t.kind && 1 <= |r.1| <= 2
  {
    var lookahead := LookaheadOf(ctx, shuffle, t, first, d);
    if lookahead.None? {
      ConsumeNext(ctx, shuffle, consumed, t, first);
    } else {
      LookaheadIsNext(ctx, shuffle, consumed, t, first, d.second);
      if |BuildFrame(ctx, first, lookahead)| == 2 {
        ConsumeTwo(ctx, shuffle, consumed, t, first, lookahead.value);
      } else {
        ConsumeAndHold(ctx, shuffle, consumed, t, first, lookahead.value);
      }
    }
  }

  lemma ConsumeTwo(ctx: Context, shuffle: bool, consumed: seq<Path>, t: Stream, first: Path, second: Path)
    requires ctx.Valid() && Remembers(ctx, shuffle, consumed, t) && t.pending.None?
    requires first in ctx.paths && Next(ctx, shuffle, consumed, first)
    requires second in ctx.paths && Next(ctx, shuffle, consumed + [first], second)
    ensures var one := Consumed(t, Identity(ctx.source, first));
            Remembers(ctx, shuffle, consumed + [first, second], Consumed(one, Identity(ctx.source, second)))
  {
    var one := Consumed(t, Identity(ctx.source, first));
    ConsumeNext(ctx, shuffle, consumed, t, first);
    assert one.(pending := None) == one;
    ConsumeNext(ctx, shuffle, consumed + [first], one, second);
    assert consumed + [first, second] == consumed + [first] + [second];
  }

  lemma ConsumeAndHold(ctx: Context, shuffle: bool, consumed: seq<Path>, t: Stream, first: Path, second: Path)
    requires ctx.Valid() && Remembers(ctx, shuffle, consumed, t) && t.pending.None?
    requires first in ctx.paths && Next(ctx, shuffle, consumed, first) && Next(ctx, shuffle, consumed + [first], second)
    ensures var one := Consumed(t, Identity(ctx.source, first));
            Remembers(ctx, shuffle, consumed + [first], one.(pending := Some(Identity(ctx.source, second))))
  {
    ConsumeNext(ctx, shuffle, consumed, t, first);
    HoldBack(ctx, shuffle, consumed + [first], Consumed(t, Identity(ctx.source, first)), second);
  }

  /** A candidate held back waits as the stream's next item. */
  lemma HoldBack(ctx: Context, shuffle: bool, consumed: seq<Path>, s: Stream, p: Path)
    requires ctx.Valid() && Remembers(ctx, shuffle, consumed, s) && Next(ctx, shuffle, consumed, p)
    ensures Remembers(ctx, shuffle, consumed, s.(pending := Some(Identity(ctx.source, p))))
  {
  }

  lemma FirstIsNext(ctx: Context, shuffle: bool, consumed: seq<Path>, s: Stream, d: Draws)
    requires ctx.Valid() && Remembers(ctx, shuffle, consumed, s)
    ensures var first := FirstOf(ctx, shuffle, s, d);
            first.Some? ==> first.value in ctx.paths && Next(ctx, shuffle, consumed, first.value)
  {
    CandidateIsNext(ctx, shuffle, consumed, s.(pending := None), d.first);
  }

  // ------------------------------------------------------------------------ frames

  /** Exactly when two items share a step: a pair Widget, its first item and the next draw two different portraits. */
  lemma FrameIsPair(ctx: Context, shuffle: bool, s: Stream, d: Draws, first: Path, second: Path)
    requires ctx.Valid()
    ensures PlanMedia(ctx, shuffle, s, d).1 == [first, second] <==>
            && s.kind == PortraitPair && FirstOf(ctx, shuffle, s, d) == Some(first)
            && Candidate(ctx, shuffle, s.(pending := None), Some(first), d.second) == Some(second)
            && first != second && first in ctx.portraits && second in ctx.portraits
  {
  }

  lemma FrameOf(ctx: Context, shuffle: bool, s: Stream, d: Draws, first: Path, second: Path)
    requires ctx.Valid() && FirstOf(ctx, shuffle, s, d) == Some(first)
    requires Candidate(ctx, shuffle, s.(pending := None), Some(first), d.second) == Some(second)
    ensures PlanMedia(ctx, shuffle, s, d).1 ==
            if s.kind == PortraitPair && first != second && first in ctx.portraits && second in ctx.portraits
            then [first, second] else [first]
  {
  }

  /** A single item is shown otherwise, the first of them. */
  lemma FrameStartsWithFirst(ctx: Context, shuffle: bool, s: Stream, d: Draws)
    requires ctx.Valid()
    ensures var media, first := PlanMedia(ctx, shuffle, s, d).1, FirstOf(ctx, shuffle, s, d);
            if first.None? then media == [] else 1 <= |media| <= 2 && media[0] == first.value
    ensures |PlanMedia(ctx, shuffle, s, d).1| == 2 ==>
              var media := PlanMedia(ctx, shuffle, s, d).1;
              FirstOf(ctx, shuffle, s, d) == Some(media[0]) && media == [media[0], media[1]]
  {
  }

  /** What was held back is shown first, whatever is drawn; once it is no longer eligible it is forgotten. */
  lemma HeldBackComesFirst(ctx: Context, shuffle: bool, s: Stream, d: Draws)
    requires ctx.Valid() && s.pending.Some?
    ensures var held, media := s.pending.value, PlanMedia(ctx, shuffle, s, d).1;
            if held.source == ctx.source && held.path in ctx.paths then media != [] && media[0] == held.path
            else PlanMedia(ctx, shuffle, s, d) == PlanMedia(ctx, shuffle, s.(pending := None), d)
  {
    FrameStartsWithFirst(ctx, shuffle, s, d);
  }

  /** A candidate that does not pair with the first is not lost: it starts the next step, whatever is drawn. */
  lemma RejectedComesNext(ctx: Context, shuffle: bool, s: Stream, d: Draws, first: Path, second: Path, next: Draws)
    requires ctx.Valid() && s.kind == PortraitPair && FirstOf(ctx, shuffle, s, d) == Some(first)
    requires Candidate(ctx, shuffle, s.(pending := None), Some(first), d.second) == Some(second)
    requires first != second && second in ctx.paths && (first !in ctx.portraits || second !in ctx.portraits)
    ensures PlanMedia(ctx, shuffle, s, d).1 == [first]
    ensures var media := PlanMedia(ctx, shuffle, PlanMedia(ctx, shuffle, s, d).0, next).1;
            media != [] && media[0] == second
  {
    FrameOf(ctx, shuffle, s, d, first, second);
    HeldBackComesFirst(ctx, shuffle, PlanMedia(ctx, shuffle, s, d).0, next);
  }

  /** An ordered pair Widget groups neighbours of its list exactly when both are portraits. */
  lemma OrderedFrame(ctx: Context, consumed: seq<Path>, s: Stream, d: Draws)
    requires ctx.Valid() && Remembers(ctx, false, consumed, s) && ctx.paths != []
    ensures var n := |ctx.paths|;
            var first, second := ctx.paths[|consumed| % n], ctx.paths[(|consumed| + 1) % n];
            PlanMedia(ctx, false, s, d).1 ==
            if s.kind == PortraitPair && n > 1 && first in ctx.portraits && second in ctx.portraits
            then [first, second] else [first]
  {
    var first := ctx.paths[|consumed| % |ctx.paths|];
    FirstIsNext(ctx, false, consumed, s, d);
    FirstIsThere(ctx, false, consumed, s, d);
    LookaheadIsNext(ctx, false, consumed, s.(pending := None), first, d.second);
    var second := Candidate(ctx, false, s.(pending := None), Some(first), d.second).value;
    assert second == ctx.paths[(|consumed| + 1) % |ctx.paths|];
    NeighboursDiffer(ctx, |consumed|);
    FrameOf(ctx, false, s, d, first, second);
  }

  lemma NeighboursDiffer(ctx: Context, k: nat)
    requires ctx.Valid() && ctx.paths != []
    ensures ctx.paths[k % |ctx.paths|] == ctx.paths[(k + 1) % |ctx.paths|] <==> |ctx.paths| == 1
  {
    ModSuccessor(k, |ctx.paths|);
    if |ctx.paths| > 1 {
      DistinctPaths(ctx, k % |ctx.paths|, (k + 1) % |ctx.paths|);
    }
  }

  /** Where every eligible image is a portrait and there are several, a pair Widget shows two, drawn or ordered. */
  lemma PortraitsPair(ctx: Context, shuffle: bool, consumed: seq<Path>, s: Stream, d: Draws)
    requires ctx.Valid() && Remembers(ctx, shuffle, consumed, s)
    requires s.kind == PortraitPair && |ctx.paths| > 1 && forall p :: p in ctx.paths ==> p in ctx.portraits
    ensures |PlanMedia(ctx, shuffle, s, d).1| == 2
  {
    var t := s.(pending := None);
    if !shuffle {
      OrderedFrame(ctx, consumed, s, d);
      return;
    }
    FirstIsNext(ctx, shuffle, consumed, s, d);
    FirstIsThere(ctx, shuffle, consumed, s, d);
    var first := FirstOf(ctx, shuffle, s, d).value;
    LookaheadIsNext(ctx, shuffle, consumed, t, first, d.second);
    var second := Candidate(ctx, shuffle, t, Some(first), d.second).value;
    DrawDiffers(ctx, consumed, first, second);
    FrameOf(ctx, shuffle, s, d, first, second);
  }

  lemma DrawDiffers(ctx: Context, consumed: seq<Path>, first: Path, second: Path)
    requires ctx.Valid() && |ctx.paths| > 1 && Lawful(ctx, true, consumed)
    requires first in ctx.paths && Next(ctx, true, consumed, first) && Next(ctx, true, consumed + [first], second)
    ensures first != second
  {
    DrawIsFresh(ctx, consumed, first);
    RecentlySeenIsExcluded(ctx, consumed + [first], |consumed|);
  }

  lemma FirstIsThere(ctx: Context, shuffle: bool, consumed: seq<Path>, s: Stream, d: Draws)
    requires ctx.Valid() && Remembers(ctx, shuffle, consumed, s) && ctx.paths != []
    ensures FirstOf(ctx, shuffle, s, d).Some?
  {
    CandidateIsNext(ctx, shuffle, consumed, s.(pending := None), d.first);
  }

  /** The lookahead is what comes next once `first` has been shown. */
  lemma LookaheadIsNext(ctx: Context, shuffle: bool, consumed: seq<Path>, t: Stream, first: Path, f: Fraction)
    requires ctx.Valid() && Remembers(ctx, shuffle, consumed, t) && t.pending.None?
    requires first in ctx.paths && Next(ctx, shuffle, consumed, first)
    ensures var second := Candidate(ctx, shuffle, t, Some(first), f);
            second.Some? && second.value in ctx.paths && Next(ctx, shuffle, consumed + [first], second.value)
  {
    var one := Consumed(t, Identity(ctx.source, first));
    ConsumeNext(ctx, shuffle, consumed, t, first);
    CandidateIsNext(ctx, shuffle, consumed + [first], one, f);
    assert Candidate(ctx, shuffle, t, Some(first), f) == Candidate(ctx, shuffle, one, None, f);
  }

  // -------------------------------------------------------------------- whole runs

  /** All plans of one Widget in order: its stream and everything it has shown. */
  function StreamRun(ctx: Context, shuffle: bool, kind: Kind, draws: seq<Draws>): (r: (Stream, seq<Path>))
    requires ctx.Valid()
  {
    if draws == [] then (NewStream(kind), [])
    else
      var before := StreamRun(ctx, shuffle, kind, draws[..|draws| - 1]);
      var plan := PlanMedia(ctx, shuffle, before.0, draws[|draws| - 1]);
      (plan.0, before.1 + plan.1)
  }

  lemma {:induction false} RunRemembers(ctx: Context, shuffle: bool, kind: Kind, draws: seq<Draws>)
    requires ctx.Valid()
    ensures Remembers(ctx, shuffle, StreamRun(ctx, shuffle, kind, draws).1, StreamRun(ctx, shuffle, kind, draws).0)
    ensures ctx.paths != [] ==> |draws| <= |StreamRun(ctx, shuffle, kind, draws).1| <= 2 * |draws|
  {
    if draws != [] {
      RunRemembers(ctx, shuffle, kind, draws[..|draws| - 1]);
      var before := StreamRun(ctx, shuffle, kind, draws[..|draws| - 1]);
      PlanKeepsStream(ctx, shuffle, before.1, before.0, draws[|draws| - 1]);
    }
  }

  /**
    Ordered streams: over any run, and however portraits are paired or held back, the media shown
    are the path-sorted eligible list read cyclically, nothing skipped or duplicated.
  */
  lemma OrderedRunIsCyclic(ctx: Context, kind: Kind, draws: seq<Draws>, k: nat)
    requires ctx.Valid() && ctx.paths != []
    requires k < |StreamRun(ctx, false, kind, draws).1|
    ensures StreamRun(ctx, false, kind, draws).1[k] == ctx.paths[k % |ctx.paths|]
  {
    RunRemembers(ctx, false, kind, draws);
  }

  /**
    Shuffled streams: over any run and for any numbers drawn, any min(count, 33) consecutive items
    are pairwise distinct.
  */
  lemma ShuffledRunNeverRepeats(ctx: Context, kind: Kind, draws: seq<Draws>)
    requires ctx.Valid() && ctx.paths != []
    ensures var shown := StreamRun(ctx, true, kind, draws).1;
            forall i, j :: 0 <= i < j < |shown| && j - i < |ctx.paths| && j - i < 33 ==> shown[i] != shown[j]
  {
    RunRemembers(ctx, true, kind, draws);
  }

  /** With at most 33 eligible items a shuffled run is a fixed rotation of all of them. */
  lemma ShuffledRunIsRoundRobin(ctx: Context, kind: Kind, draws: seq<Draws>, k: nat)
    requires ctx.Valid() && 0 < |ctx.paths| <= 33
    ensures var shown := StreamRun(ctx, true, kind, draws).1;
            && (k + |ctx.paths| <= |shown| ==> SetOf(shown[k..k + |ctx.paths|]) == SetOf(ctx.paths))
            && (k + |ctx.paths| < |shown| ==> shown[k + |ctx.paths|] == shown[k])
  {
    RunRemembers(ctx, true, kind, draws);
    var shown := StreamRun(ctx, true, kind, draws).1;
    if k + |ctx.paths| <= |shown| {
      RoundRobin(ctx, shown, k);
    }
  }

  // ------------------------------------------------------------- the stream in place

  /** The mutable stream of one Widget. */
  class WidgetStream {
    const kind: Kind
    var after: Option<Identity>
    var pending: Option<Identity>
    var recent: seq<Identity>

    constructor (kind: Kind)
      ensures View() == NewStream(kind)
    {
      this.kind, after, pending, recent := kind, None, None, [];
    }

    function View(): Stream
      reads this
    {
      Stream(kind, after, pending, recent)
    }

    /** `consume`: the deque keeps the last 32. */
    method Consume(candidate: Identity)
      requires |recent| <= RECENT_LIMIT
      modifies this
      ensures View() == Consumed(old(View()), candidate) && |recent| <= RECENT_LIMIT
    {
      after := Some(candidate);
      recent := recent + [candidate];
      if |recent| > RECENT_LIMIT {
        recent := recent[1..];
      }
    }

    /** `_candidate`. */
    method Draw(ctx: Context, fraction: Option<Fraction>, first: Option<Path>) returns (r: Option<Path>)
      requires ctx.Valid() && |recent| <= RECENT_LIMIT
      ensures r == Candidate(ctx, fraction.Some?, View(), first, if fraction.Some? then fraction.value else 0.0)
    {
      var from, seen := after, recent;
      if first.Some? {
        from, seen := Some(Identity(ctx.source, first.value)), Last32(recent + [Identity(ctx.source, first.value)]);
      }
      var selection := SelectCandidate(ctx, from, seen, if fraction.Some? then Some(fraction.value) else None);
      r := selection.path;
    }

    /** The stream part of `_plan`, statement by statement. Two media are two different portraits. */
    method Plan(ctx: Context, shuffle: bool, d: Draws) returns (media: seq<Path>)
      requires ctx.Valid() && |recent| <= RECENT_LIMIT
      modifies this
      ensures View() == PlanMedia(ctx, shuffle, old(View()), d).0
      ensures media == PlanMedia(ctx, shuffle, old(View()), d).1
      ensures |media| <= 2 && (|media| == 2 ==> kind == PortraitPair && media[0] != media[1])
      ensures forall i :: 0 <= i < |media| == 2 ==> media[i] in ctx.portraits
      ensures |recent| <= RECENT_LIMIT
    {
      var first := TakeFirst(ctx, shuffle, d);
      if first.None? {
        return [];
      }
      media := [first.value];
      if kind == PortraitPair {
        media := Pair(ctx, shuffle, first.value, d);
      } else {
        Consume(Identity(ctx.source, first.value));
      }
    }

    /** The held-back candidate if it is still eligible, otherwise a new one. */
    method TakeFirst(ctx: Context, shuffle: bool, d: Draws) returns (first: Option<Path>)
      requires ctx.Valid() && |recent| <= RECENT_LIMIT
      modifies this`pending
      ensures first == FirstOf(ctx, shuffle, old(View()), d) && View() == old(View()).(pending := None)
    {
      first := None;
      if pending.Some? {
        first := Resolve(ctx, pending.value);
        pending := None;
      }
      if first.None? {
        first := Draw(ctx, if shuffle then Some(d.first) else None, None);
      }
    }

    /** The lookahead part of `_plan`. */
    method Pair(ctx: Context, shuffle: bool, first: Path, d: Draws) returns (media: seq<Path>)
      requires ctx.Valid() && |recent| <= RECENT_LIMIT && pending.None?
      modifies this
      ensures View() == PairMedia(ctx, shuffle, old(View()), first, d).0
      ensures media == PairMedia(ctx, shuffle, old(View()), first, d).1
      ensures 1 <= |media| <= 2 && media[0] == first
      ensures |media| == 2 ==> media[0] != media[1]
      ensures forall i :: 0 <= i < |media| == 2 ==> media[i] in ctx.portraits
      ensures |recent| <= RECENT_LIMIT
    {
      var lookahead := Draw(ctx, if shuffle then Some(d.second) else None, Some(first));
      if lookahead == Some(first) {
        lookahead := None;
      }
      media := BuildFrame(ctx, first, lookahead);
      if |media| == 1 && lookahead.Some? {
        pending := Some(Identity(ctx.source, lookahead.value));
      }
      Consume(Identity(ctx.source, media[0]));
      if |media| == 2 {
        Consume(Identity(ctx.source, media[1]));
      }
    }
  }
}
