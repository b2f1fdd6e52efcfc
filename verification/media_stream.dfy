/**
  Candidate selection for one Widget stream over a fixed eligible list, and what it means for
  everything a stream ever consumes: an ordered stream is the eligible list read cyclically,
  a shuffled one never repeats an item within its recency window.
*/
module MediaStream {
  import opened Basics

  type Path = string

  /** Rows are compared bytewise by the database. */
  predicate Before(a: Path, b: Path) {
    b != "" && (a == "" || a[0] < b[0] || (a[0] == b[0] && Before(a[1..], b[1..])))
  }

  lemma BeforeIsStrict(a: Path, b: Path)
    ensures Before(a, b) ==> !Before(b, a) && a != b
  {
  }

  /** At the first difference the lower character comes first, and a proper beginning comes before the whole. */
  lemma {:induction false} FirstDifferenceDecides(a: Path, b: Path, k: nat)
    requires k <= |a| && k <= |b| && a[..k] == b[..k]
    ensures k == |a| < |b| || (k < |a| && k < |b| && a[k] < b[k]) ==> Before(a, b)
    ensures k < |a| && k < |b| && a[k] > b[k] ==> !Before(a, b)
  {
    if k > 0 {
      assert a[0] == a[..k][0] == b[..k][0] == b[0];
      assert a[1..][..k - 1] == a[..k][1..] == b[..k][1..] == b[1..][..k - 1];
      FirstDifferenceDecides(a[1..], b[1..], k - 1);
    }
  }

  /** Source and eligible paths, ascending; the paths of portrait images among them. */
  datatype Context = Context(source: int, paths: seq<Path>, portraits: set<Path>) {
    ghost predicate Valid() {
      forall i, j :: 0 <= i < j < |paths| ==> Before(paths[i], paths[j])
    }
  }

  datatype Identity = Identity(source: int, path: Path)

  const RECENT_LIMIT := 32

  function Last32(s: seq<Identity>): (r: seq<Identity>) {
    if |s| <= RECENT_LIMIT then s else s[|s| - RECENT_LIMIT..]
  }

  lemma DistinctPaths(ctx: Context, i: nat, j: nat)
    requires ctx.Valid() && i < |ctx.paths| && j < |ctx.paths| && i != j
    ensures ctx.paths[i] != ctx.paths[j]
  {
    BeforeIsStrict(ctx.paths[i], ctx.paths[j]);
    BeforeIsStrict(ctx.paths[j], ctx.paths[i]);
  }

  // --------------------------------------------------------------------- ordered

  /** The first path behind `after`, by index; the length of the list when there is none. */
  function FirstAfter(paths: seq<Path>, after: Path): (i: nat)
    ensures i <= |paths|
    ensures i < |paths| ==> Before(after, paths[i])
    ensures forall j :: 0 <= j < i ==> !Before(after, paths[j])
  {
    if paths == [] then 0 else if Before(after, paths[0]) then 0 else 1 + FirstAfter(paths[1..], after)
  }

  /** Keyset order with one wrap. */
  function SelectOrdered(ctx: Context, after: Option<Identity>): (r: Option<Path>) {
    if ctx.paths == [] then None
    else if after.Some? && after.value.source == ctx.source && FirstAfter(ctx.paths, after.value.path) < |ctx.paths|
    then Some(ctx.paths[FirstAfter(ctx.paths, after.value.path)])
    else Some(ctx.paths[0])
  }

  /**
    The item after a cursor is the first listed path behind it, whether the cursor's own path is still listed
    or not. Behind the last one, without a cursor and behind one of another Source the list starts over.
  */
  lemma OrderedNext(ctx: Context, after: Option<Identity>)
    requires ctx.Valid() && ctx.paths != []
    ensures var next := SelectOrdered(ctx, after);
            && next.Some? && next.value in ctx.paths
            && if after.Some? && after.value.source == ctx.source
                  && Before(after.value.path, ctx.paths[|ctx.paths| - 1])
               then
                 && Before(after.value.path, next.value)
                 && forall p :: p in ctx.paths && Before(after.value.path, p) ==>
                      p == next.value || Before(next.value, p)
               else next.value == ctx.paths[0]
  {
    if after.Some? && after.value.source == ctx.source {
      var cursor, n := after.value.path, |ctx.paths|;
      var i := FirstAfter(ctx.paths, cursor);
      if Before(cursor, ctx.paths[n - 1]) {
        assert i <= n - 1;
      } else if i < n - 1 {
        BeforeTransitive(cursor, ctx.paths[i], ctx.paths[n - 1]);
      }
    }
  }

  lemma {:induction false} BeforeTransitive(a: Path, b: Path, c: Path)
    requires Before(a, b) && Before(b, c)
    ensures Before(a, c)
  {
    if a != "" && a[0] == b[0] == c[0] {
      BeforeTransitive(a[1..], b[1..], c[1..]);
    }
  }

  lemma OrderedSuccessor(ctx: Context, k: nat)
    requires ctx.Valid() && k < |ctx.paths|
    ensures SelectOrdered(ctx, Some(Identity(ctx.source, ctx.paths[k])))
            == Some(if k + 1 < |ctx.paths| then ctx.paths[k + 1] else ctx.paths[0])
  {
    var f := FirstAfter(ctx.paths, ctx.paths[k]);
    forall j | 0 <= j <= k ensures !Before(ctx.paths[k], ctx.paths[j]) {
      BeforeIsStrict(ctx.paths[j], ctx.paths[k]);
      BeforeIsStrict(ctx.paths[k], ctx.paths[k]);
    }
    if k + 1 < |ctx.paths| {
      assert Before(ctx.paths[k], ctx.paths[k + 1]);
    }
  }

  // --------------------------------------------------------------------- shuffle

  /** Each path once, in the order of last occurrence. */
  function LastOccurrences(paths: seq<Path>): (r: seq<Path>)
    ensures forall p :: p in r <==> p in paths
    ensures forall i, j :: 0 <= i < j < |r| ==> r[i] != r[j]
  {
    if paths == [] then []
    else if paths[0] in paths[1..] then LastOccurrences(paths[1..])
    else [paths[0]] + LastOccurrences(paths[1..])
  }

  /** The recent paths of this source. */
  function RecentPaths(source: int, recent: seq<Identity>): (r: seq<Path>)
    ensures forall p :: p in r <==> Identity(source, p) in recent
  {
    if recent == [] then []
    else (if recent[0].source == source then [recent[0].path] else []) + RecentPaths(source, recent[1..])
  }

  function SetOf(s: seq<Path>): (r: set<Path>)
    ensures forall p :: p in r <==> p in s
  {
    set p | p in s
  }

  /** Give up the oldest exclusions until something is available. */
  function Relax(paths: seq<Path>, excluded: set<Path>, count: nat): (r: set<Path>)
    ensures r <= excluded
  {
    if paths == [] || |excluded| < count then excluded else Relax(paths[1..], excluded - {paths[0]}, count)
  }

  function Excluded(ctx: Context, recent: seq<Identity>): (r: set<Path>) {
    var paths := LastOccurrences(RecentPaths(ctx.source, recent));
    Relax(paths, SetOf(paths) * SetOf(ctx.paths), |ctx.paths|)
  }

  function Remaining(paths: seq<Path>, excluded: set<Path>): (r: seq<Path>)
    ensures forall p :: p in r <==> p in paths && p !in excluded
  {
    if paths == [] then []
    else (if paths[0] in excluded then [] else [paths[0]]) + Remaining(paths[1..], excluded)
  }

  lemma {:induction false} RemainingLength(paths: seq<Path>, excluded: set<Path>)
    requires forall i, j :: 0 <= i < j < |paths| ==> paths[i] != paths[j]
    requires forall p :: p in excluded ==> p in paths
    ensures |Remaining(paths, excluded)| == |paths| - |excluded|
  {
    if paths != [] {
      RemainingLength(paths[1..], excluded - {paths[0]});
      SameRemaining(paths[1..], excluded, excluded - {paths[0]});
    } else {
      assert excluded == {};
    }
  }

  lemma {:induction false} SameRemaining(paths: seq<Path>, a: set<Path>, b: set<Path>)
    requires forall p :: p in paths ==> (p in a <==> p in b)
    ensures Remaining(paths, a) == Remaining(paths, b)
  {
    if paths != [] {
      assert paths[0] in paths;
      forall p | p in paths[1..] ensures p in a <==> p in b { assert p in paths; }
      SameRemaining(paths[1..], a, b);
    }
  }

  lemma {:induction false} DistinctCount(paths: seq<Path>)
    requires forall i, j :: 0 <= i < j < |paths| ==> paths[i] != paths[j]
    ensures |SetOf(paths)| == |paths|
  {
    if paths == [] {
      assert SetOf(paths) == {};
    } else {
      DistinctCount(paths[1..]);
      assert SetOf(paths) == {paths[0]} + SetOf(paths[1..]);
    }
  }

  type Fraction = f: real | 0.0 <= f < 1.0 witness 0.0

  function Offset(f: Fraction, available: nat): (i: nat)
    requires available > 0
    ensures i < available
  {
    OffsetInRange(f, available);
    (f * available as real).Floor
  }

  lemma OffsetInRange(f: Fraction, available: nat)
    requires available > 0
    ensures 0 <= (f * available as real).Floor < available
  {
    assert 0.0 <= f * available as real < available as real;
  }

  lemma {:induction false} RelaxedFits(paths: seq<Path>, excluded: set<Path>, count: nat)
    requires count > 0 && forall p :: p in excluded ==> p in paths
    ensures |Relax(paths, excluded, count)| < count
  {
    if paths == [] {
      assert excluded == {};
    } else if |excluded| >= count {
      RelaxedFits(paths[1..], excluded - {paths[0]}, count);
    }
  }

  /** Something is always left to draw, and the drawn offset is in range. */
  lemma ShuffleAvailable(ctx: Context, recent: seq<Identity>)
    requires ctx.Valid() && ctx.paths != []
    ensures |Remaining(ctx.paths, Excluded(ctx, recent))| == |ctx.paths| - |Excluded(ctx, recent)| > 0
  {
    var paths := LastOccurrences(RecentPaths(ctx.source, recent));
    RelaxedFits(paths, SetOf(paths) * SetOf(ctx.paths), |ctx.paths|);
    forall i, j | 0 <= i < j < |ctx.paths| ensures ctx.paths[i] != ctx.paths[j] {
      DistinctPaths(ctx, i, j);
    }
    RemainingLength(ctx.paths, Excluded(ctx, recent));
  }

  function SelectShuffled(ctx: Context, recent: seq<Identity>, f: Fraction): (r: Option<Path>)
    requires ctx.Valid()
    ensures r.None? <==> ctx.paths == []
    ensures r.Some? ==> r.value in ctx.paths && r.value !in Excluded(ctx, recent)
  {
    if ctx.paths == [] then None
    else
      ShuffleAvailable(ctx, recent);
      Some(Remaining(ctx.paths, Excluded(ctx, recent))[Offset(f, |ctx.paths| - |Excluded(ctx, recent)|)])
  }

  datatype Refusal = TooManyRecent | BadFraction

  datatype Selection = Selected(path: Option<Path>) | Refused(reason: Refusal)

  /** `select_candidate`: ordered without a fraction, shuffled with one. */
  method SelectCandidate(ctx: Context, after: Option<Identity>, recent: seq<Identity>, fraction: Option<real>)
    returns (r: Selection)
    requires ctx.Valid()
    ensures |recent| > RECENT_LIMIT ==> r == Refused(TooManyRecent)
    ensures |recent| <= RECENT_LIMIT && fraction.Some? && !(0.0 <= fraction.value < 1.0) ==> r == Refused(BadFraction)
    ensures |recent| <= RECENT_LIMIT && fraction.None? ==> r == Selected(SelectOrdered(ctx, after))
    ensures |recent| <= RECENT_LIMIT && fraction.Some? && 0.0 <= fraction.value < 1.0 ==>
              r == Selected(SelectShuffled(ctx, recent, fraction.value))
  {
    if |recent| > RECENT_LIMIT {
      return Refused(TooManyRecent);
    }
    if fraction.None? {
      return Selected(SelectOrdered(ctx, after));
    }
    if !(0.0 <= fraction.value < 1.0) {
      return Refused(BadFraction);
    }
    if ctx.paths == [] {
      return Selected(None);
    }
    var paths := LastOccurrences(RecentPaths(ctx.source, recent));
    var excluded := RelaxExclusions(paths, SetOf(paths) * SetOf(ctx.paths), |ctx.paths|);
    ShuffleAvailable(ctx, recent);
    var available := |ctx.paths| - |excluded|;
    r := Selected(Some(Remaining(ctx.paths, excluded)[Offset(fraction.value, available)]));
  }

  /** The loop that discards exclusions, oldest first, until fewer than `count` are left. */
  method RelaxExclusions(paths: seq<Path>, excluded: set<Path>, count: nat) returns (kept: set<Path>)
    ensures kept == Relax(paths, excluded, count)
  {
    kept := excluded;
    var i := 0;
    while i < |paths| && |kept| >= count
      invariant 0 <= i <= |paths|
      invariant Relax(paths[i..], kept, count) == Relax(paths, excluded, count)
    {
      kept := kept - {paths[i]};
      i := i + 1;
    }
  }

  // ---------------------------------------------------------------- no repetition

  predicate Distinct(s: seq<Path>) {
    forall i, j :: 0 <= i < j < |s| ==> s[i] != s[j]
  }

  /** A distinct tail of what was seen is the tail of the last occurrences. */
  lemma {:induction false} DistinctTail(seen: seq<Path>, k: nat)
    requires k <= |seen| && Distinct(seen[k..])
    ensures EndsWith(LastOccurrences(seen), seen[k..])
  {
    if seen != [] {
      if k > 0 {
        assert seen[1..][k - 1..] == seen[k..];
        DistinctTail(seen[1..], k - 1);
        EndOfCons(seen[0], LastOccurrences(seen[1..]), seen[k..]);
      } else {
        AllDistinct(seen);
        assert seen[0..] == seen;
      }
    }
  }

  predicate EndsWith(s: seq<Path>, end: seq<Path>) {
    |end| <= |s| && s[|s| - |end|..] == end
  }

  lemma EndOfCons(p: Path, s: seq<Path>, end: seq<Path>)
    requires EndsWith(s, end)
    ensures EndsWith([p] + s, end)
  {
  }

  lemma {:induction false} AllDistinct(seen: seq<Path>)
    requires Distinct(seen[0..])
    ensures LastOccurrences(seen) == seen
  {
    if seen != [] {
      assert seen[0..] == seen;
      forall i | 0 <= i < |seen[1..]| ensures seen[1..][i] != seen[0] { assert seen[0..][i + 1] == seen[1..][i]; }
      forall i, j | 0 <= i < j < |seen[1..][0..]| ensures seen[1..][0..][i] != seen[1..][0..][j] {
        assert seen[0..][i + 1] != seen[0..][j + 1];
      }
      AllDistinct(seen[1..]);
    }
  }

  /** Relaxation starts at the oldest end and never reaches a tail shorter than the list. */
  lemma {:induction false} RelaxKeepsTail(paths: seq<Path>, excluded: set<Path>, count: nat, k: nat, p: Path)
    requires Distinct(paths) && k <= |paths| && |paths| - k < count
    requires forall q :: q in excluded ==> q in paths
    requires p in paths[k..] && p in excluded
    ensures p in Relax(paths, excluded, count)
  {
    if k == 0 {
      assert excluded <= SetOf(paths);
      DistinctCount(paths);
      SubsetSize(excluded, SetOf(paths));
    } else if |excluded| >= count {
      assert paths[1..][k - 1..] == paths[k..];
      assert p != paths[0];
      RelaxKeepsTail(paths[1..], excluded - {paths[0]}, count, k - 1, p);
    }
  }

  lemma {:induction false} SubsetSize(a: set<Path>, b: set<Path>)
    requires a <= b
    ensures |a| <= |b|
  {
    assert b == a + (b - a);
  }

  /** How many items at the end of a history are certainly excluded from the next draw. */
  function Window(count: nat): (w: nat)
    requires count > 0
  {
    if count - 1 < RECENT_LIMIT then count - 1 else RECENT_LIMIT
  }

  function Tail(history: seq<Path>, n: nat): (r: seq<Path>)
    ensures |r| == if |history| <= n then |history| else n
  {
    if |history| <= n then history else history[|history| - n..]
  }

  function Ids(source: int, history: seq<Path>): (r: seq<Identity>)
    ensures |r| == |history| && forall i :: 0 <= i < |r| ==> r[i] == Identity(source, history[i])
  {
    seq(|history|, i requires 0 <= i < |history| => Identity(source, history[i]))
  }

  lemma {:induction false} RecentOfIds(source: int, history: seq<Path>)
    ensures RecentPaths(source, Ids(source, history)) == history
  {
    if history != [] {
      assert Ids(source, history)[1..] == Ids(source, history[1..]);
      RecentOfIds(source, history[1..]);
    }
  }

  /** Every run of at most `Window + 1` consecutive items is pairwise distinct. */
  ghost predicate NoRepeat(history: seq<Path>, count: nat)
    requires count > 0
  {
    forall i, j :: 0 <= i < j < |history| && j - i <= Window(count) ==> history[i] != history[j]
  }

  /** A path that may be drawn next in shuffle mode. */
  predicate Drawable(ctx: Context, history: seq<Path>, p: Path) {
    p in ctx.paths && p !in Excluded(ctx, Last32(Ids(ctx.source, history)))
  }

  /** Whatever is in a distinct tail of the recent items, shorter than the eligible list, stays excluded. */
  lemma TailIsExcluded(ctx: Context, recent: seq<Path>, k: nat, q: Path)
    requires k <= |recent| && Distinct(recent[k..]) && |recent| - k < |ctx.paths|
    requires q in recent[k..] && q in ctx.paths
    ensures q in Excluded(ctx, Ids(ctx.source, recent))
  {
    RecentOfIds(ctx.source, recent);
    var paths := LastOccurrences(recent);
    DistinctTail(recent, k);
    assert q in recent;
    RelaxKeepsTail(paths, SetOf(paths) * SetOf(ctx.paths), |ctx.paths|, |paths| - (|recent| - k), q);
  }

  lemma WindowIsDistinct(history: seq<Path>, count: nat, i: nat)
    requires count > 0 && NoRepeat(history, count) && i <= |history| && |history| - i <= Window(count)
    ensures Distinct(history[i..])
  {
    forall a, b | 0 <= a < b < |history[i..]| ensures history[i..][a] != history[i..][b] {
      assert history[i + a] != history[i + b];
    }
  }

  lemma RecentlySeenIsExcluded(ctx: Context, history: seq<Path>, i: nat)
    requires ctx.paths != [] && NoRepeat(history, |ctx.paths|)
    requires i < |history| && |history| - i <= Window(|ctx.paths|) && history[i] in ctx.paths
    ensures history[i] in Excluded(ctx, Last32(Ids(ctx.source, history)))
  {
    var recent := Tail(history, RECENT_LIMIT);
    assert Last32(Ids(ctx.source, history)) == Ids(ctx.source, recent);
    var shift := |history| - |recent|;
    var k := i - shift;
    assert recent == history[shift..] && recent[k..] == history[i..];
    WindowIsDistinct(history, |ctx.paths|, i);
    assert recent[k..][0] == history[i];
    TailIsExcluded(ctx, recent, k, history[i]);
  }

  lemma DrawIsFresh(ctx: Context, history: seq<Path>, p: Path)
    requires ctx.paths != [] && Drawable(ctx, history, p)
    requires forall q :: q in history ==> q in ctx.paths
    requires NoRepeat(history, |ctx.paths|)
    ensures NoRepeat(history + [p], |ctx.paths|)
  {
    forall i | 0 <= i < |history| && |history| - i <= Window(|ctx.paths|) ensures history[i] != p {
      RecentlySeenIsExcluded(ctx, history, i);
    }
  }

  /**
    With at most 33 eligible items a shuffled stream is a strict round robin: any `count` consecutive
    items are all of them, and every item returns after exactly `count` draws.
  */
  lemma RoundRobin(ctx: Context, history: seq<Path>, k: nat)
    requires ctx.Valid() && 0 < |ctx.paths| <= RECENT_LIMIT + 1
    requires forall q :: q in history ==> q in ctx.paths
    requires NoRepeat(history, |ctx.paths|)
    requires k + |ctx.paths| <= |history|
    ensures SetOf(history[k..k + |ctx.paths|]) == SetOf(ctx.paths)
    ensures k + |ctx.paths| < |history| ==> history[k + |ctx.paths|] == history[k]
  {
    var count := |ctx.paths|;
    AllDrawn(ctx, history, k);
    if k + count < |history| {
      AllDrawn(ctx, history, k + 1);
      var again := history[k + 1..k + 1 + count];
      assert history[k] in history && history[k] in SetOf(ctx.paths);
      assert history[k] in again;
      var j :| 0 <= j < count && again[j] == history[k];
      assert again[j] == history[k + 1 + j];
    }
  }

  lemma AllDrawn(ctx: Context, history: seq<Path>, k: nat)
    requires ctx.Valid() && 0 < |ctx.paths| <= RECENT_LIMIT + 1
    requires forall q :: q in history ==> q in ctx.paths
    requires NoRepeat(history, |ctx.paths|)
    requires k + |ctx.paths| <= |history|
    ensures SetOf(history[k..k + |ctx.paths|]) == SetOf(ctx.paths)
  {
    var run := history[k..k + |ctx.paths|];
    forall i, j | 0 <= i < j < |run| ensures run[i] != run[j] {
      assert run[i] == history[k + i] && run[j] == history[k + j];
    }
    DistinctCount(run);
    forall i, j | 0 <= i < j < |ctx.paths| ensures ctx.paths[i] != ctx.paths[j] { DistinctPaths(ctx, i, j); }
    DistinctCount(ctx.paths);
    assert SetOf(run) <= SetOf(ctx.paths);
    SameSizeSubset(SetOf(run), SetOf(ctx.paths));
  }

  lemma SameSizeSubset(a: set<Path>, b: set<Path>)
    requires a <= b && |a| == |b|
    ensures a == b
  {
    assert b == a + (b - a) && |b| == |a| + |b - a|;
  }
}
