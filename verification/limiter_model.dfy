/** The arithmetic of the login window: what expires, how long to wait, and why six failures cannot crowd. */
module LimiterModel {
  import opened Basics

  const WINDOW := 300.0
  const LIMIT := 5
  const ENTRIES := 256

  /** The failures of a window that are still younger than the limit. */
  function Recent(failures: seq<real>, since: real): (r: seq<real>)
    ensures |r| <= |failures|
  {
    if failures == [] then []
    else
      var last := failures[|failures| - 1];
      Recent(failures[..|failures| - 1], since) + if last > since then [last] else []
  }

  // ------------------------------------------------------------- the whole record

  /** Every failure of an address since its last success or eviction, the newest outermost. */
  datatype Log = Empty | Failed(before: Log, at: real)

  /** The failure `k` before the newest one. */
  function Back(log: Log, k: nat): Option<real> {
    match log
    case Empty => None
    case Failed(before, at) => if k == 0 then Some(at) else Back(before, k - 1)
  }

  /** The log is in order of time; what is kept of it is its newest end, and what was dropped is old enough. */
  predicate Kept(log: Log, failures: seq<real>, now: real) {
    match log
    case Empty => failures == []
    case Failed(before, at) =>
      && (before.Failed? ==> before.at <= at)
      && if failures == [] then at <= now - WINDOW && Kept(before, [], now)
         else at == failures[|failures| - 1] && at <= now && Kept(before, failures[..|failures| - 1], now)
  }

  /** Every sixth failure comes no sooner than a whole window after the first of the six. */
  predicate Spaced(log: Log) {
    log.Failed? ==>
      && Spaced(log.before)
      && (Back(log, LIMIT).Some? ==> log.at >= Back(log, LIMIT).value + WINDOW)
  }

  predicate Record(log: Log, failures: seq<real>, now: real) {
    Kept(log, failures, now) && Spaced(log)
  }

  lemma {:induction false} SixthIsLater(log: Log, k: nat)
    requires Spaced(log) && Back(log, k + 5).Some?
    ensures Back(log, k).Some? && Back(log, k).value >= Back(log, k + 5).value + 300.0
  {
    if k > 0 {
      SixthIsLater(log.before, k - 1);
    }
  }

  lemma {:induction false} TimePasses(log: Log, failures: seq<real>, now: real, later: real)
    requires Kept(log, failures, now) && now <= later
    ensures Kept(log, failures, later)
  {
    if log.Failed? {
      TimePasses(log.before, if failures == [] then [] else failures[..|failures| - 1], now, later);
    }
  }

  /** Below an expired failure everything has expired. */
  lemma {:induction false} OlderExpires(log: Log, failures: seq<real>, now: real)
    requires Kept(log, failures, now) && (log.Failed? ==> log.at <= now - WINDOW)
    ensures Recent(failures, now - WINDOW) == [] && Kept(log, [], now)
  {
    if log.Failed? {
      OlderExpires(log.before, if failures == [] then [] else failures[..|failures| - 1], now);
    }
  }

  /** Pruning drops only what has expired, and that is the older end. */
  lemma {:induction false} PruneKeeps(log: Log, failures: seq<real>, now: real)
    requires Kept(log, failures, now)
    ensures Kept(log, Recent(failures, now - WINDOW), now)
  {
    if failures != [] {
      if log.at <= now - WINDOW {
        OlderExpires(log, failures, now);
      } else {
        var rest := Recent(failures[..|failures| - 1], now - WINDOW);
        PruneKeeps(log.before, failures[..|failures| - 1], now);
        assert (rest + [log.at])[..|rest|] == rest;
      }
    }
  }

  lemma {:induction false} BackIsOld(log: Log, failures: seq<real>, now: real, k: nat)
    requires Kept(log, failures, now) && |failures| <= k && Back(log, k).Some?
    ensures Back(log, k).value <= now - WINDOW
  {
    if k > 0 {
      BackIsOld(log.before, if failures == [] then [] else failures[..|failures| - 1], now, k - 1);
    }
  }

  /** Recording a failure under a reservation keeps the record spaced. */
  lemma RecordKeepsSpaced(log: Log, failures: seq<real>, now: real)
    requires Record(log, failures, now) && |failures| < LIMIT
    ensures Record(Failed(log, now), failures + [now], now)
  {
    assert (failures + [now])[..|failures|] == failures;
    if Back(log, LIMIT - 1).Some? {
      BackIsOld(log, failures, now, LIMIT - 1);
    }
  }

  // ------------------------------------------------------------------- the retry

  function Ceil(x: real): (n: int)
    ensures n as real - 1.0 < x <= n as real
  {
    -((-x).Floor)
  }

  /** `_retry`: the seconds to wait, or none. */
  function Retry(failures: seq<real>, pending: nat, now: real): int {
    if |failures| + pending < LIMIT then 0
    else if failures == [] then 1
    else
      var wait := Ceil(failures[0] + WINDOW - now);
      if wait < 1 then 1 else if wait > 300 then 300 else wait
  }

  predicate Ordered(failures: seq<real>, now: real) {
    && (forall i, j :: 0 <= i < j < |failures| ==> failures[i] <= failures[j])
    && forall i :: 0 <= i < |failures| ==> failures[i] <= now
  }

  lemma {:induction false} AllRecent(failures: seq<real>, since: real)
    requires forall i :: 0 <= i < |failures| ==> failures[i] > since
    ensures Recent(failures, since) == failures
  {
    if failures != [] {
      AllRecent(failures[..|failures| - 1], since);
    }
  }

  lemma {:induction false} FirstExpires(failures: seq<real>, since: real)
    requires failures != [] && failures[0] <= since
    ensures |Recent(failures, since)| < |failures|
  {
    if |failures| > 1 {
      FirstExpires(failures[..|failures| - 1], since);
    }
  }

  /** The oldest failure's expiry decides: waiting so many seconds suffices, a second less does not. */
  lemma RetryIsExact(failures: seq<real>, pending: nat, now: real, later: real)
    requires Ordered(failures, now) && |failures| + pending == LIMIT && failures != []
    requires forall i :: 0 <= i < |failures| ==> failures[i] > now - WINDOW
    requires now <= later
    ensures 1 <= Retry(failures, pending, now) <= 300
    ensures later >= now + Retry(failures, pending, now) as real ==>
              Retry(Recent(failures, later - WINDOW), pending, later) == 0
    ensures later <= now + Retry(failures, pending, now) as real - 1.0 ==>
              Retry(Recent(failures, later - WINDOW), pending, later) != 0
  {
    var wait := Retry(failures, pending, now);
    RetryIsCeiling(failures, pending, now);
    if later <= now + wait as real - 1.0 {
      StillRecent(failures, now, later);
    } else if later >= now + wait as real {
      FirstExpires(failures, later - WINDOW);
    }
  }

  /** Inside the window the clamps never bite. */
  lemma RetryIsCeiling(failures: seq<real>, pending: nat, now: real)
    requires |failures| + pending == LIMIT && failures != [] && now - WINDOW < failures[0] <= now
    ensures 1 <= Retry(failures, pending, now) <= 300
    ensures var wait := Retry(failures, pending, now) as real;
            wait - 1.0 < failures[0] + WINDOW - now <= wait
  {
    var left := failures[0] + WINDOW - now;
    assert 0.0 < left <= 300.0;
    assert 1 <= Ceil(left) <= 300;
  }

  lemma StillRecent(failures: seq<real>, now: real, later: real)
    requires Ordered(failures, now) && failures != [] && failures[0] > later - WINDOW
    ensures Recent(failures, later - WINDOW) == failures
  {
    forall i | 0 <= i < |failures| ensures failures[i] > later - WINDOW {
      assert i > 0 ==> failures[0] <= failures[i];
    }
    AllRecent(failures, later - WINDOW);
  }
}
