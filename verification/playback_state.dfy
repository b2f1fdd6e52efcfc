/**
  The worker-private playback state. Planner, configuration and presenter may answer or raise
  anything at every call; the presenter calls made are recorded and stay lawful.
*/
module PlaybackState {
  import opened Basics
  import opened PresentationTrace

  datatype Outcome = Ok | Unavailable | Cancelled | CleanupFailed | Busy | Rejected

  /** What can be raised: a presentation outcome, a storage error, or a bug. */
  datatype Error = Presentation(outcome: Outcome) | Storage | Bug

  datatype Try<+T> = Return(value: T) | Throw(error: Error) {
    predicate IsFailure() { Throw? }
    function PropagateFailure<U>(): Try<U>
      requires IsFailure()
    {
      Throw(error)
    }
    function Extract(): T
      requires Return?
    {
      value
    }
  }

  datatype Step = Step(member: int, scene: int, widget: int, video: bool)

  datatype Content = Content(active: bool, ended: bool, seekable: bool, audio: bool)

  datatype Command = Next | Previous | Pause | Resume | TogglePause | SetSuppressed(value: bool) | Seek | Audio

  /** Why a tick advanced past held content, if it did, and for an elapsed dwell when it found so. */
  datatype Reason = Kept | Elapsed(at: real) | Ended

  /** What `advance` may add to the presenter's calls. */
  predicate Advances(before: Trace, after: Trace) {
    || after == before || after == Then(before, Clear(true)) || after == Then(before, Clear(false))
    || after == Then(Then(before, Clear(true)), Show)
  }

  /** What the planner answers a request for a next or previous step. */
  datatype Plan = Boundary | Planned(step: Step) | NothingPlanned

  /** What the planner was asked, with its answer; a request that raised has none. */
  datatype Request = Asked(forward: bool, plan: Option<Plan>) | Revalidated(step: Step, valid: bool)

  /** One request in a direction, and perhaps the revalidation of the step it gave. */
  predicate Advanced(before: seq<Request>, after: seq<Request>, forward: bool) {
    && |before| < |after| <= |before| + 2 && before <= after
    && after[|before|].Asked? && after[|before|].forward == forward
    && (|after| == |before| + 2 ==>
          && after[|before| + 1].Revalidated?
          && after[|before|].plan == Some(Planned(after[|before| + 1].step)))
  }

  /** The planner was asked first, and gave a step. */
  predicate Gave(before: seq<Request>, after: seq<Request>) {
    |before| < |after| && after[|before|].Asked? && after[|before|].plan.Some?
    && after[|before|].plan.value.Planned?
  }

  /** One step has been revalidated. */
  predicate Checked(before: seq<Request>, after: seq<Request>, step: Step) {
    after == before + [Revalidated(step, true)] || after == before + [Revalidated(step, false)]
  }

  lemma AskedAndChecked(before: seq<Request>, asked: seq<Request>, after: seq<Request>, forward: bool, step: Step)
    requires asked == before + [Asked(forward, Some(Planned(step)))]
    requires after == asked || Checked(asked, after, step)
    ensures Advanced(before, after, forward) && after[|before|].plan == Some(Planned(step))
    ensures after == asked + [Revalidated(step, true)] ==> |after| == |before| + 2
  {
  }

  /** One command the machine executed, and what came of it. */
  datatype Execution = Execution(command: Command, result: Try<Outcome>)

  const FAILURE_LIMIT := 8
  const BACKOFF_SECONDS := 5.0
  const VIDEO_POLL_SECONDS := 0.5

  function Max0(x: real): real {
    if x < 0.0 then 0.0 else x
  }

  class Machine {
    const calm: bool            // planner, configuration and presenter answer, and nothing is cancelled
    var current: Option<Step>
    var content: Option<Content>
    var paused: bool
    var suppressed: bool
    var remaining: Option<real>
    var updated: real
    var pollAt: real
    var retryAt: real
    var failures: nat
    var now: real
    ghost var calls: Trace      // every presenter call
    ghost var shown: real       // time accounted to the current content since it was presented
    ghost var ran: real         // time it was really held and not paused since then
    ghost var dwell: real       // the dwell it was given
    ghost var requests: seq<Request>  // everything asked of the planner; only `AskPlanner` and `Revalidate` add to it
    ghost var heard: Try<Option<Content>>  // the presenter's last answer to showing or controlling content
    ghost var configured: Option<real>     // the dwell last read from the configuration
    ghost var withheld: nat     // how often an operation was told to give up: cancelled, or its step no longer there
    ghost var ticks: nat        // how many ticks have been executed; only `ExecuteTick` counts
    ghost var executed: seq<Execution>  // every command executed, in order; only `ExecuteCommand` adds to it

    ghost predicate Sound()
      reads this
    {
      && Lawful(calls)
      && (content.Some? ==> current.Some? && !suppressed)
      && (remaining.Some? ==> remaining.value == Max0(dwell - shown))
      && failures < 8 && updated <= now && 0.0 <= shown <= ran
    }

    /** Content that is neither paused nor suppressed is using up its dwell. */
    predicate Runs()
      reads this
    {
      content.Some? && !paused
    }

    /** Between operations what is held is what is on screen, and no time was accounted that did not pass. */
    ghost predicate Rest()
      reads this
    {
      && Sound()
      && ScreenOf(calls) == (if content.Some? then Lit else Blank)
      && (Runs() ==> shown + (now - updated) <= ran)
    }

    constructor (now: real, calm: bool)
      ensures Rest() && calls == Start && content.None? && current.None? && !suppressed && executed == []
      ensures requests == [] && this.calm == calm && this.now == now && failures == 0 && retryAt == 0.0
      ensures !paused && remaining.None? && withheld == 0 && ticks == 0
    {
      this.calm := calm;
      current, content, paused, suppressed, remaining := None, None, false, false, None;
      updated, pollAt, retryAt, failures, this.now := now, 0.0, 0.0, 0, now;
      calls, shown, ran, dwell, executed, requests := Start, 0.0, 0.0, 0.0, [], [];
      heard, configured, withheld, ticks := Return(None), None, 0, 0;
    }

    /** Time passes. */
    method Clock() returns (t: real)
      modifies this`now, this`ran
      ensures t == now && old(now) <= now
      ensures ran == old(ran) + if Runs() then now - old(now) else 0.0
    {
      var d: real := *;
      var passed := Max0(d);
      ran := ran + if Runs() then passed else 0.0;
      now := now + passed;
      t := now;
    }

    /** A call outside this state that may raise. */
    method Outside() returns (r: Try<()>)
      ensures r.Throw? ==> r.error != Presentation(CleanupFailed)
      ensures calm ==> r.Return?
    {
      r := Return(());
      if !calm {
        if * { return Throw(Storage); }
        if * { return Throw(Bug); }
      }
    }

    /** Whether the operation has been cancelled. */
    method IsCancelled() returns (cancelled: bool)
      modifies this`withheld
      ensures withheld == old(withheld) + if cancelled then 1 else 0
      ensures calm ==> !cancelled
    {
      cancelled := *;
      cancelled := cancelled && !calm;
      withheld := withheld + if cancelled then 1 else 0;
    }

    /** Whether the configuration no longer has the step that is to be presented. */
    method HasMoved() returns (moved: bool)
      modifies this`withheld
      ensures withheld == old(withheld) + if moved then 1 else 0
      ensures calm ==> !moved
    {
      moved := *;
      moved := moved && !calm;
      withheld := withheld + if moved then 1 else 0;
    }

    /** `dwell_seconds`: none for content that ends by itself. */
    method DwellSeconds() returns (duration: Option<real>)
      modifies this`configured
      ensures duration == configured
    {
      duration := *;
      configured := duration;
    }

    /** `planner.next` or `planner.previous`, which may raise. */
    method AskPlanner(forward: bool) returns (r: Try<Plan>)
      modifies this`requests
      ensures requests == old(requests) + [Asked(forward, if r.Return? then Some(r.value) else None)]
      ensures r.Throw? ==> r.error in {Storage, Bug}
      ensures calm ==> r.Return?
    {
      var plan: Plan := *;
      var answered := Outside();
      r := if answered.Return? then Return(plan) else if answered.error == Storage then Throw(Storage) else Throw(Bug);
      requests := requests + [Asked(forward, if r.Return? then Some(plan) else None)];
    }

    /** `planner.revalidate` of a step. */
    method Revalidate(step: Step) returns (r: Try<bool>)
      modifies this`requests
      ensures if r == Return(true) then requests == old(requests) + [Revalidated(step, true)]
              else requests == old(requests) + [Revalidated(step, false)]
      ensures r.Throw? ==> r.error in {Storage, Bug}
      ensures calm ==> r == Return(true)
    {
      var valid: bool := *;
      var answered := Outside();
      r := if answered.Return? then Return(valid || calm)
           else if answered.error == Storage then Throw(Storage) else Throw(Bug);
      requests := requests + [Revalidated(step, r == Return(true))];
    }

    /** `account_time`: only content that is neither paused nor suppressed uses up its dwell. */
    method AccountTime()
      requires Rest()
      modifies this`now, this`ran, this`remaining, this`updated, this`shown
      ensures Rest() && old(now) <= now == updated
      ensures ran == old(ran) + if Runs() then now - old(now) else 0.0
      ensures shown == old(shown) + (if Runs() then now - old(updated) else 0.0)
      ensures remaining == if Runs() && old(remaining).Some?
                           then Some(Max0(old(remaining).value - (now - old(updated)))) else old(remaining)
    {
      var t := Clock();
      if content.Some? && !paused && !suppressed {
        if remaining.Some? {
          remaining := Some(Max0(remaining.value - (t - updated)));
        }
        shown := shown + (t - updated);
      }
      updated := t;
    }

    /** `clear`: black is confirmed, or cleanup has failed and nothing but stop may follow. */
    method ClearScreen() returns (r: Try<()>)
      requires Sound() && ScreenOf(calls) in {Blank, Lit}
      modifies this`content, this`calls
      ensures Sound()
      ensures r.Return? ==> content.None? && ScreenOf(calls) == Blank && calls == Then(old(calls), Clear(true))
      ensures r.Throw? ==> content == old(content) && calls == Then(old(calls), Clear(false))
                           && r.error in {Presentation(CleanupFailed), Bug}
      ensures calm ==> r.Return?
    {
      var raised := Outside();
      if raised.Throw? {
        calls := Then(calls, Clear(false));
        if * { return Throw(Bug); }
        return Throw(Presentation(CleanupFailed));
      }
      calls := Then(calls, Clear(true));
      content := None;
      r := Return(());
    }

    /** `failed`: retire what failed; eight failures in a row back off. */
    method Failed(outcome: Outcome) returns (r: Try<()>)
      requires Sound() && ScreenOf(calls) != Retired && (ScreenOf(calls) == Uncertain ==> outcome == CleanupFailed)
      modifies this`content, this`calls, this`current, this`remaining, this`failures, this`retryAt, this`now, this`ran
      ensures Sound()
      ensures r.Return? ==> Rest() && content.None?
      ensures r.Throw? ==> ScreenOf(calls) != Retired && r.error in {Presentation(CleanupFailed), Bug}
      ensures old(now) <= now
      ensures outcome != CleanupFailed ==>
                if r.Return? then calls == Then(old(calls), Clear(true)) else calls == Then(old(calls), Clear(false))
      ensures outcome == CleanupFailed ==> r == Throw(Presentation(CleanupFailed)) && calls == old(calls)
      ensures outcome == Cancelled ==> current == old(current) && failures == old(failures) && retryAt == old(retryAt)
      ensures r.Return? && outcome !in {Cancelled, CleanupFailed} ==>
                && current.None? && remaining.None?
                && failures == (if old(failures) + 1 == 8 then 0 else old(failures) + 1)
                && (old(failures) + 1 == 8 ==> retryAt == now + 5.0)
                && (old(failures) + 1 < 8 ==> retryAt == old(retryAt))
      ensures calm && outcome != CleanupFailed ==> r.Return?
    {
      if outcome == CleanupFailed {
        return Throw(Presentation(CleanupFailed));
      }
      var _ :- ClearScreen();
      if outcome == Cancelled {
        return Return(());
      }
      current, remaining := None, None;
      failures := failures + 1;
      if failures >= FAILURE_LIMIT {
        var t := Clock();
        retryAt := t + BACKOFF_SECONDS;
        failures := 0;
      }
      r := Return(());
    }

    /** `idle`: nothing to show until the backoff ends. */
    method Idle() returns (r: Try<()>)
      requires Sound() && ScreenOf(calls) in {Blank, Lit}
      modifies this`content, this`calls, this`current, this`remaining, this`retryAt, this`now, this`ran
      ensures Sound()
      ensures r.Return? ==>
                Rest() && content.None? && current.None? && remaining.None?
                && retryAt == now + 5.0
      ensures Advances(old(calls), calls) && old(now) <= now
      ensures r.Throw? ==> ScreenOf(calls) == Uncertain && r.error in {Presentation(CleanupFailed), Bug}
      ensures calm ==> r.Return?
    {
      var _ :- ClearScreen();
      current, remaining := None, None;
      var t := Clock();
      retryAt := t + BACKOFF_SECONDS;
      r := Return(());
    }

    /** What the presenter answers: a snapshot, or it raises. */
    method Answer() returns (r: Try<Option<Content>>)
      modifies this`heard
      ensures r == heard
      ensures calm ==> r.Return? && r.value.Some? && r.value.value.active && !r.value.value.ended
    {
      var snapshot: Option<Content> := *;
      r := Return(snapshot);
      if calm {
        var seekable: bool, audio: bool := *, *;
        r := Return(Some(Content(true, false, seekable, audio)));
      } else if * {
        var outcome: Outcome := *;
        r := Throw(Presentation(outcome));
      } else if * {
        r := Throw(Bug);
      }
      heard := r;
    }

    /** `presenter.show`. */
    method ShowContent() returns (r: Try<Option<Content>>)
      requires Sound() && ScreenOf(calls) == Blank
      modifies this`calls, this`heard
      ensures Sound() && calls == Then(old(calls), Show) && ScreenOf(calls) == Lit && r == heard
      ensures calm ==> r.Return? && r.value.Some? && r.value.value.active && !r.value.value.ended
    {
      calls := Then(calls, Show);
      r := Answer();
    }

    /** `accept_content`: a snapshot of something that is neither active nor ended is no content. */
    method AcceptContent(snapshot: Option<Content>) returns (r: Try<()>)
      requires Sound() && current.Some? && !suppressed
      modifies this`content
      ensures Sound()
      ensures r.Return? <==> snapshot.Some? && (snapshot.value.active || snapshot.value.ended)
      ensures r.Return? ==> content == snapshot
      ensures r.Throw? ==> content == old(content) && r == Throw(Presentation(Unavailable))
    {
      if snapshot.None? || (!snapshot.value.active && !snapshot.value.ended) {
        return Throw(Presentation(Unavailable));
      }
      content := snapshot;
      r := Return(());
    }

    /** The checks before anything is shown: the planner still has the step, and so has the configuration. */
    method Recheck() returns (r: Try<()>)
      requires current.Some?
      modifies this`requests, this`withheld
      ensures Checked(old(requests), requests, current.value)
      ensures r.Return? ==>
                requests == old(requests) + [Revalidated(current.value, true)] && withheld == old(withheld)
      ensures calm ==> r.Return?
    {
      r := Return(());
      var valid :- Revalidate(current.value);
      if !valid { return Throw(Presentation(Unavailable)); }
      var _ :- Outside();
      var moved := HasMoved();
      if moved { return Throw(Presentation(Unavailable)); }
    }

    /** `present`: revalidate, show onto a blank screen, accept, start the dwell. */
    method Present() returns (r: Try<()>)
      requires Rest() && content.None? && current.Some? && !suppressed
      modifies this`content, this`calls, this`remaining, this`updated, this`pollAt, this`failures, this`now,
               this`ran, this`shown, this`dwell, this`requests, this`heard, this`configured, this`withheld
      ensures Sound() && ScreenOf(calls) in {Blank, Lit}
      ensures Checked(old(requests), requests, current.value)
      ensures r.Return? || calls != old(calls) ==> requests == old(requests) + [Revalidated(current.value, true)]
      ensures r.Return? ==>
                && Rest() && content.Some? && content.value.active && !content.value.ended && failures == 0
                && calls == Then(old(calls), Show) && shown == 0.0
                  && (remaining.Some? ==> remaining.value == Max0(dwell))
                && updated == now && pollAt == now + 0.5
                && remaining == RemainingOf(configured)
      ensures (calm ==> r.Return?) && old(updated) <= updated
      ensures calls == old(calls) || calls == Then(old(calls), Show)
      ensures failures == old(failures) || r.Return?
      ensures old(now) <= now
      ensures r.Return? ==> withheld == old(withheld)
    {
      r := Return(());
      var _ :- Recheck();
      var snapshot :- ShowContent();
      var cancelled := IsCancelled();
      if cancelled { return Throw(Presentation(Cancelled)); }
      var _ :- AcceptContent(snapshot);
      if !content.value.active || content.value.ended {
        return Throw(Presentation(Unavailable));
      }
      StartDwell();
      r := Return(());
    }

    /** A configured dwell, unless there is none. */
    function RemainingOf(duration: Option<real>): Option<real> {
      if duration.Some? then Some(Max0(duration.value)) else None
    }

    /** Success: a fresh dwell, and failures forgotten. */
    method StartDwell()
      requires Sound()
      modifies this`remaining, this`updated, this`pollAt, this`failures, this`now, this`ran, this`shown, this`dwell,
               this`configured
      ensures Sound() && failures == 0 && shown == ran == 0.0 && remaining == RemainingOf(configured)
      ensures (configured.Some? ==> dwell == configured.value) && old(now) <= now
      ensures updated == now && pollAt == now + 0.5
    {
      var duration := DwellSeconds();
      shown := 0.0;
      dwell := if duration.Some? then duration.value else 0.0;
      remaining := if duration.Some? then Some(Max0(duration.value)) else None;
      var t := Clock();
      ran := 0.0;
      updated := t;
      pollAt := t + VIDEO_POLL_SECONDS;
      failures := 0;
    }

    /**
      `advance`: the planner is asked once, in the direction wanted; the previous content is cleared before
      the step it gives becomes current.
    */
    method Advance(forward: bool) returns (r: Try<Outcome>)
      requires Rest()
      modifies this`current, this`content, this`remaining, this`updated, this`pollAt, this`retryAt, this`failures,
               this`now, this`calls, this`shown, this`ran, this`dwell, this`requests, this`heard, this`configured,
               this`withheld
      ensures Sound() && ScreenOf(calls) != Retired
      ensures r.Return? ==> Rest()
      ensures r.Throw? && ScreenOf(calls) == Uncertain ==> r.error in {Presentation(CleanupFailed), Bug}
      ensures r == Return(Ok) ==> current.Some? && (suppressed ==> content.None?) && (!suppressed ==> content.Some?)
      ensures r == Return(Ok) ==>
                calls == Then(old(calls), Clear(true))
                || calls == Then(Then(old(calls), Clear(true)), Show)
      ensures old(now) <= now
      ensures old(updated) <= updated
      ensures Advances(old(calls), calls) && Advanced(old(requests), requests, forward)
      ensures var plan := requests[|old(requests)|].plan;
              && (plan == Some(Boundary) ==>
                    r == Return(Unavailable) && calls == old(calls) && current == old(current)
                    && content == old(content))
              && (r == Return(Ok) <==> r.Return? && plan.Some? && plan.value.Planned?)
              && (r == Return(Ok) ==> current == Some(plan.value.step))
              && (plan.None? ==> r.Throw? && calls == old(calls))
              && (calm && plan.Some? && plan.value.Planned? ==> r == Return(Ok))
              && (calm ==> plan.Some?)
      ensures r == Return(Ok) && !suppressed ==> |requests| == |old(requests)| + 2
      ensures r.Return? ==> withheld == old(withheld)
      ensures r.Return? ==> Moved(forward, r.value)
      ensures calm && r.Throw? ==> r.error == Presentation(Unavailable)
    {
      var plan :- AskPlanner(forward);
      if plan.Boundary? { return Return(Unavailable); }
      var cancelled := IsCancelled();
      if cancelled { return Throw(Presentation(Cancelled)); }
      if !plan.Planned? {
        r := NothingReady();
        return;
      }
      ghost var asked := requests;
      r := Follow(plan.step);
      AskedAndChecked(old(requests), asked, requests, forward, plan.step);
    }

    /** The step the planner gave becomes current, and is presented unless output is suppressed. */
    method Follow(step: Step) returns (r: Try<Outcome>)
      requires Rest()
      modifies this`current, this`content, this`remaining, this`updated, this`pollAt, this`retryAt, this`failures,
               this`now, this`calls, this`shown, this`ran, this`dwell, this`requests, this`heard, this`configured,
               this`withheld
      ensures Sound() && ScreenOf(calls) != Retired
      ensures r.Return? ==> r.value == Ok && Rest() && current == Some(step) && (suppressed <==> content.None?)
      ensures r.Return? ==>
                calls == Then(old(calls), Clear(true)) || calls == Then(Then(old(calls), Clear(true)), Show)
      ensures r.Throw? && ScreenOf(calls) == Uncertain ==> r.error in {Presentation(CleanupFailed), Bug}
      ensures old(now) <= now
      ensures old(updated) <= updated
      ensures Advances(old(calls), calls)
      ensures requests == old(requests) || Checked(old(requests), requests, step)
      ensures r.Return? && !suppressed ==> requests == old(requests) + [Revalidated(step, true)]
      ensures calm ==> r.Return?
      ensures r.Return? ==> withheld == old(withheld)
    {
      r := Return(Ok);
      var _ :- ClearScreen();
      current, remaining, retryAt := Some(step), None, 0.0;
      r := ShowCurrent(step);
    }

    /** The end of `advance`: presented, or only current while output is suppressed. */
    method ShowCurrent(step: Step) returns (r: Try<Outcome>)
      requires Rest() && content.None? && current == Some(step)
      modifies this`content, this`calls, this`remaining, this`updated, this`pollAt, this`failures, this`now,
               this`ran, this`shown, this`dwell, this`requests, this`heard, this`configured, this`withheld
      ensures Sound() && ScreenOf(calls) in {Blank, Lit} && old(now) <= now && old(updated) <= updated
      ensures r.Return? ==> r.value == Ok && Rest() && (suppressed <==> content.None?)
      ensures calls == old(calls) || calls == Then(old(calls), Show)
      ensures requests == old(requests) || Checked(old(requests), requests, step)
      ensures r.Return? && !suppressed ==> requests == old(requests) + [Revalidated(step, true)]
      ensures calm ==> r.Return?
      ensures r.Return? ==> withheld == old(withheld)
    {
      r := Return(Ok);
      if !suppressed {
        var _ :- Present();
      }
    }

    /** Without a step: idle if there is nothing to show at all, otherwise a failure. */
    method NothingReady() returns (r: Try<Outcome>)
      requires Rest()
      modifies this`content, this`calls, this`current, this`remaining, this`retryAt, this`now, this`ran
      ensures Sound() && ScreenOf(calls) != Retired && old(now) <= now && Advances(old(calls), calls)
      ensures r.Return? ==> r.value == Unavailable && Rest() && content.None? && current.None?
      ensures r.Throw? && ScreenOf(calls) == Uncertain ==> r.error in {Presentation(CleanupFailed), Bug}
      ensures calm && r.Throw? ==> r.error == Presentation(Unavailable)
    {
      var _ :- Outside();
      if * {
        var _ :- Idle();
        return Return(Unavailable);
      }
      r := Throw(Presentation(Unavailable));
    }

    /** A presenter call on what is on screen: it changes nothing there and may raise. */
    method ControlContent() returns (r: Try<Option<Content>>)
      requires Sound() && ScreenOf(calls) == Lit
      modifies this`calls, this`heard
      ensures Sound() && calls == Then(old(calls), Control) && ScreenOf(calls) == Lit && r == heard
      ensures calm ==> r.Return? && r.value.Some? && r.value.value.active && !r.value.value.ended
    {
      calls := Then(calls, Control);
      r := Answer();
    }

    /** Its accounted time is short of its dwell, and a video has not ended. */
    ghost predicate NotDue()
      reads this
    {
      && (remaining.Some? ==> shown < dwell)
      && (content.Some? && current.Some? && current.value.video ==> !content.value.ended)
    }

    /** The snapshot last heard, if it was one. */
    ghost function Heard(): Option<Content>
      reads this`heard
    {
      if heard.Return? then heard.value else None
    }

    /** The snapshot of a video, asked for when it is time to. */
    method Poll() returns (r: Try<()>, ghost polled: bool)
      requires Rest() && content.Some?
      modifies this`content, this`calls, this`remaining, this`updated, this`shown, this`pollAt, this`now, this`ran,
               this`heard
      ensures Sound() && ScreenOf(calls) == Lit && content.Some? && (r.Return? ==> Rest())
      ensures old(now) <= now && ran == old(ran) + (if paused then 0.0 else now - old(now))
      ensures remaining.Some? == old(remaining.Some?) && (old(remaining) == Some(0.0) ==> remaining == Some(0.0))
      ensures (old(pollAt) <= old(now) ==> polled) && (polled ==> old(pollAt) <= now)
      ensures polled ==> calls == Then(old(calls), Control)
      ensures polled && r.Return? ==>
                old(now) <= updated && pollAt == now + 0.5 && Some(content.value) == Heard()
      ensures !polled ==>
                r.Return? && calls == old(calls) && content == old(content) && remaining == old(remaining)
                && pollAt == old(pollAt) && updated == old(updated) && shown == old(shown)
      ensures (calm ==> r.Return?) && old(updated) <= updated
    {
      polled := false;
      var t := Clock();
      if t >= pollAt {
        polled := true;
        r := TakeSnapshot();
        return;
      }
      r := Return(());
    }

    /** The poll itself. */
    method TakeSnapshot() returns (r: Try<()>)
      requires Rest() && content.Some?
      modifies this`content, this`calls, this`remaining, this`updated, this`shown, this`pollAt, this`now, this`ran,
               this`heard
      ensures Sound() && ScreenOf(calls) == Lit && content.Some? && (r.Return? ==> Rest())
      ensures old(now) <= now && ran == old(ran) + (if paused then 0.0 else now - old(now))
      ensures remaining.Some? == old(remaining.Some?) && (old(remaining) == Some(0.0) ==> remaining == Some(0.0))
      ensures calls == Then(old(calls), Control) && (calm ==> r.Return?) && old(updated) <= updated
      ensures r.Return? ==>
                old(now) <= updated && pollAt == now + 0.5 && Some(content.value) == Heard()
    {
      r := Return(());
      var snapshot :- ControlContent();
      var _ :- AcceptContent(snapshot);
      AccountTime();
      var later := Clock();
      pollAt := later + VIDEO_POLL_SECONDS;
    }

    /** Whether held content is to be advanced past, after a video has been polled. */
    method Due() returns (r: Try<bool>, ghost polled: bool)
      requires Rest() && content.Some?
      modifies this`content, this`calls, this`remaining, this`updated, this`shown, this`pollAt, this`now, this`ran,
               this`heard
      ensures Sound() && ScreenOf(calls) == Lit && content.Some? && (r.Return? ==> Rest())
      ensures (current.value.video && old(pollAt) <= old(now) ==> polled)
              && (polled ==> current.value.video && old(pollAt) <= now)
      ensures if polled then calls == Then(old(calls), Control)
              else r.Return? && calls == old(calls) && content == old(content) && remaining == old(remaining)
                   && pollAt == old(pollAt) && updated == old(updated)
      ensures old(now) <= now && ran == old(ran) + (if paused then 0.0 else now - old(now))
      ensures remaining.Some? == old(remaining.Some?) && (calm ==> r.Return?) && old(updated) <= updated
      ensures old(remaining) == Some(0.0) && !paused && r.Return? ==> r.value
      ensures r == Return(true) ==>
                !paused && ((remaining.Some? && ran >= dwell)
                || (current.value.video && content.value.ended))
      ensures r == Return(false) && !paused ==>
                (remaining.Some? ==> shown < dwell) && (current.value.video ==> !content.value.ended)
    {
      polled := false;
      var video := current.value.video;
      if video {
        var looked;
        looked, polled := Poll();
        if looked.Throw? { return Throw(looked.error), polled; }
      }
      r := Return(!paused && (remaining == Some(0.0) || (video && content.value.ended)));
    }

    /** Nothing is held, and output is wanted. */
    predicate Idles()
      reads this
    {
      content.None? && !suppressed
    }

    /** A tick that may start something asks for the next step, or revalidates the one that is current. */
    ghost predicate Starts(idle: bool, allowed: bool, step: Option<Step>, before: seq<Request>)
      reads this`requests
    {
      idle && allowed ==>
        if step.None? then Advanced(before, requests, true) else Checked(before, requests, step.value)
    }

    /** What a tick that raised nothing has done, and how long it waits. */
    twostate predicate Ticked(new wait: Option<real>, reason: Reason)
      reads this
    {
      && (old(content).Some? && reason.Kept? ==>
            content.Some? && (calls == old(calls) || calls == Then(old(calls), Control)) && requests == old(requests))
      && (!reason.Kept? ==> old(content).Some? && !paused && Advanced(old(requests), requests, true))
      && (reason.Elapsed? ==>
            && old(remaining).Some? && old(now) <= reason.at <= now
            && old(ran) + (reason.at - old(now)) >= old(dwell))
      && (reason.Ended? ==>
            && old(current).Some? && old(current).value.video
            && (Advances(Then(old(calls), Control), calls)
                || (old(content).value.ended && Advances(old(calls), calls))))
      && (old(content).Some? && reason.Kept? && !suppressed && !paused && retryAt <= updated ==> NotDue())
      && ((old(content).Some? && !paused && !suppressed && old(retryAt) <= old(now) && old(remaining).Some?
           && old(remaining).value <= old(now) - old(updated)) ==> !reason.Kept?)
      && (old(content).Some? && reason.Kept? && !suppressed && old(retryAt) <= old(now) ==>
            current.Some? && wait == WaitOf())
      && (old(Idles()) && old(retryAt) <= old(now) ==>
            && (old(current).Some? ==> content.Some?)
            && (old(current).None? && Gave(old(requests), requests) ==>
                  content.Some? && current == Some(requests[|old(requests)|].plan.value.step)))
    }

    /**
      `tick`. Held content stays on screen unless it is due: never before it has run for its whole
      dwell, unless it is a video that ended.
    */
    method TickOp() returns (r: Try<Option<real>>, ghost reason: Reason)
      requires Rest()
      modifies this`current, this`content, this`remaining, this`updated, this`pollAt, this`retryAt, this`failures,
               this`now, this`calls, this`shown, this`ran, this`dwell, this`requests, this`heard, this`configured,
               this`withheld
      ensures Sound() && ScreenOf(calls) != Retired
      ensures r.Return? ==> Rest() && Ticked(r.value, reason)
      ensures r.Throw? && ScreenOf(calls) == Uncertain ==> r.error in {Presentation(CleanupFailed), Bug}
      ensures suppressed ==> r == Return(None) && calls == old(calls)
      ensures old(content).Some? && reason.Kept? ==> calls == old(calls) || calls == Then(old(calls), Control)
      ensures !reason.Kept? ==> old(content).Some? && !paused
      ensures reason.Elapsed? ==>
                && old(remaining).Some? && old(now) <= reason.at <= now
                && old(ran) + (reason.at - old(now)) >= old(dwell)
      ensures reason.Ended? ==>
                && old(content).Some? && old(current).value.video
                && (Advances(Then(old(calls), Control), calls)
                    || (old(content).value.ended && Advances(old(calls), calls)))
      ensures r.Return? && content.Some? && r.value.None? ==> (paused || remaining.None?) && !current.value.video
      ensures Starts(old(Idles()), old(retryAt) <= old(now), old(current), old(requests))
      ensures suppressed || old(retryAt) > now || (old(content).Some? && reason.Kept?) ==> requests == old(requests)
      ensures !reason.Kept? ==> Advanced(old(requests), requests, true)
      ensures r.Return? ==> old(now) <= updated
      ensures calm && old(Idles()) && old(retryAt) <= old(now) && old(current).Some? ==> r.Return? && content.Some?
      ensures calm && old(Idles()) && old(retryAt) <= old(now) && old(current).None?
              && Gave(old(requests), requests) ==>
                r.Return? && content.Some? && current == Some(requests[|old(requests)|].plan.value.step)
      ensures r.Return? ==> withheld == old(withheld)
      ensures calm && r.Throw? ==> r.error == Presentation(Unavailable)
    {
      reason := Kept;
      AccountTime();
      if suppressed {
        return Return(None), Kept;
      }
      var t := Clock();
      if retryAt > t {
        var later := Clock();
        return Return(Some(retryAt - later)), Kept;
      }
      if content.None? {
        r := TickIdle();
        return;
      }
      r, reason := TickHeld();
    }

    /** The part of `tick` for a blank screen. */
    method TickIdle() returns (r: Try<Option<real>>)
      requires Rest() && Idles()
      modifies this`current, this`content, this`remaining, this`updated, this`pollAt, this`retryAt, this`failures,
               this`now, this`calls, this`shown, this`ran, this`dwell, this`requests, this`heard, this`configured,
               this`withheld
      ensures Sound() && ScreenOf(calls) != Retired
      ensures r.Return? ==> Rest() && r.value == Some(0.0)
      ensures r.Throw? && ScreenOf(calls) == Uncertain ==> r.error in {Presentation(CleanupFailed), Bug}
      ensures if old(current).None? then Advanced(old(requests), requests, true)
              else Checked(old(requests), requests, old(current).value) && current == old(current)
      ensures old(current).Some? && r.Return? ==> content.Some?
      ensures old(current).Some? && calm ==> r.Return?
      ensures old(current).None? && r.Return? && Gave(old(requests), requests) ==>
                content.Some? && current == Some(requests[|old(requests)|].plan.value.step)
      ensures calm && old(current).None? && Gave(old(requests), requests) ==> r.Return?
      ensures old(now) <= now && old(updated) <= updated
      ensures r.Return? ==> withheld == old(withheld)
      ensures calm && r.Throw? ==> r.error == Presentation(Unavailable)
    {
      if current.None? {
        var advanced := Advance(true);
        r := if advanced.Throw? then Throw(advanced.error) else Return(Some(0.0));
      } else {
        var presented := Present();
        r := if presented.Throw? then Throw(presented.error) else Return(Some(0.0));
      }
    }

    /** How long a tick with held content waits: for what is left of the dwell, for a video no longer than its poll. */
    function WaitOf(): Option<real>
      requires current.Some?
      reads this
    {
      var left := if paused then None else remaining;
      var poll := Max0(pollAt - now);
      if !current.value.video then left
      else Some(if left.Some? && left.value < poll then left.value else poll)
    }

    /** The part of `tick` for held content. */
    method TickHeld() returns (r: Try<Option<real>>, ghost reason: Reason)
      requires Rest() && content.Some?
      modifies this`current, this`content, this`remaining, this`updated, this`pollAt, this`retryAt, this`failures,
               this`now, this`calls, this`shown, this`ran, this`dwell, this`requests, this`heard, this`configured,
               this`withheld
      ensures Sound() && ScreenOf(calls) != Retired
      ensures r.Return? ==> Rest()
      ensures r.Throw? && ScreenOf(calls) == Uncertain ==> r.error in {Presentation(CleanupFailed), Bug}
      ensures reason.Kept? ==> calls == old(calls) || calls == Then(old(calls), Control)
      ensures reason.Kept? && r.Return? ==> content.Some?
      ensures !reason.Kept? ==> !paused
      ensures reason.Elapsed? ==>
                && old(remaining).Some? && old(now) <= reason.at <= now
                && old(ran) + (reason.at - old(now)) >= old(dwell)
      ensures reason.Ended? ==>
                && old(current).value.video
                && (Advances(Then(old(calls), Control), calls)
                    || (old(content).value.ended && Advances(old(calls), calls)))
      ensures reason.Kept? && r.Return? && !paused ==> NotDue()
      ensures old(now) <= now && old(updated) <= updated && (calm && reason.Kept? ==> r.Return?)
      ensures old(remaining) == Some(0.0) && !paused && r.Return? ==> !reason.Kept?
      ensures reason.Kept? && r.Return? ==> current.Some? && r.value == WaitOf()
      ensures reason.Kept? && old(current).value.video && old(pollAt) <= old(now) ==> calls == Then(old(calls), Control)
      ensures reason.Kept? && (!old(current).value.video || old(pollAt) > now) ==> calls == old(calls)
      ensures if reason.Kept? then requests == old(requests) else Advanced(old(requests), requests, true)
      ensures r.Return? && content.Some? && r.value.None? ==> (paused || remaining.None?) && !current.value.video
      ensures r.Return? ==> withheld == old(withheld)
      ensures calm && r.Throw? ==> r.error == Presentation(Unavailable)
    {
      reason := Kept;
      ghost var polled;
      var past;
      past, polled := Due();
      if past.Throw? { return Throw(past.error), Kept; }
      if past.value {
        reason := if remaining.Some? && ran >= dwell then Elapsed(now) else Ended;
        r := AdvancePast();
        return;
      }
      var wait := if paused then None else remaining;
      if current.value.video {
        var t := Clock();
        var poll := Max0(pollAt - t);
        wait := Some(if wait.None? || poll < wait.value then poll else wait.value);
      }
      r := Return(wait);
    }

    /** Held content leaves for the next step only once it ran for its whole dwell, or is a video that ended. */
    method AdvancePast() returns (r: Try<Option<real>>)
      requires Rest() && content.Some? && !paused
      requires (remaining.Some? && ran >= dwell) || (current.value.video && content.value.ended)
      modifies this`current, this`content, this`remaining, this`updated, this`pollAt, this`retryAt, this`failures,
               this`now, this`calls, this`shown, this`ran, this`dwell, this`requests, this`heard, this`configured,
               this`withheld
      ensures Sound() && ScreenOf(calls) != Retired
      ensures r.Return? ==> Rest() && r.value == Some(0.0)
      ensures r.Throw? && ScreenOf(calls) == Uncertain ==> r.error in {Presentation(CleanupFailed), Bug}
      ensures old(now) <= now && Advances(old(calls), calls) && Advanced(old(requests), requests, true)
      ensures old(updated) <= updated
      ensures r.Return? ==> withheld == old(withheld)
      ensures calm && r.Throw? ==> r.error == Presentation(Unavailable)
    {
      var advanced := Advance(true);
      r := if advanced.Throw? then Throw(advanced.error) else Return(Some(0.0));
    }

    /** `pause`, `resume`, `toggle_pause`: a video is told, anything else just stops using up its dwell. */
    method SetPaused(value: bool) returns (r: Try<Outcome>)
      requires Rest() && updated == now
      modifies this`paused, this`content, this`calls, this`updated, this`now, this`ran, this`heard
      ensures Sound() && ScreenOf(calls) == old(ScreenOf(calls)) && content.Some? == old(content.Some?)
      ensures r.Return? ==> r.value == Ok && Rest()
      ensures paused == value && (calm ==> r.Return?)
      ensures value != old(paused) && content.Some? && current.value.video ==> calls == Then(old(calls), Control)
      ensures (r.Return? ==> updated == now || value == old(paused)) && old(updated) <= updated
      ensures calls == old(calls) || calls == Then(old(calls), Control)
      ensures value == old(paused) || content.None? || !current.value.video ==> r.Return? && calls == old(calls)
      ensures r.Return? ==> PauseObeyed(value, r.value)
    {
      if value != paused {
        paused := value;
        if content.Some? && current.value.video {
          var snapshot :- ControlContent();
          var _ :- AcceptContent(snapshot);
        }
        var t := Clock();
        updated := t;
      }
      r := Return(Ok);
    }

    /** `set_output_suppressed`: content is retired before either value takes effect. */
    method SetSuppressedTo(value: bool) returns (r: Try<Outcome>)
      requires Rest()
      modifies this`suppressed, this`content, this`calls, this`retryAt
      ensures Sound() && ScreenOf(calls) != Retired
      ensures r.Throw? ==>
                suppressed == old(suppressed) && ScreenOf(calls) == Uncertain
                && r.error in {Presentation(CleanupFailed), Bug}
      ensures r.Return? ==> r.value == Ok && Rest() && suppressed == value
      ensures value == old(suppressed) ==> r.Return? && calls == old(calls) && content == old(content)
      ensures r.Return? && value != old(suppressed) ==>
                content.None? && calls == Then(old(calls), Clear(true)) && retryAt == 0.0
      ensures calm ==> r.Return?
    {
      if value == suppressed {
        return Return(Ok);
      }
      var _ :- ClearScreen();
      suppressed := value;
      retryAt := 0.0;
      r := Return(Ok);
    }

    /** Held content that can obey. */
    predicate Able(name: Command)
      requires content.Some? ==> current.Some?
      reads this
    {
      && content.Some? && current.value.video && content.value.active
      && (if name == Seek then content.value.seekable else content.value.audio)
    }

    /**
      `video_command`: refused without content able to obey; what the presenter finds unavailable is an answer,
      not a failure.
    */
    method VideoCommand(name: Command) returns (r: Try<Outcome>)
      requires Rest() && name in {Seek, Audio}
      modifies this`content, this`calls, this`heard
      ensures Sound() && ScreenOf(calls) == old(ScreenOf(calls)) && content.Some? == old(content.Some?)
      ensures r.Return? ==> Rest() && r.value in {Ok, Unavailable}
      ensures if old(Able(name)) then calls == Then(old(calls), Control)
              else r == Return(Unavailable) && calls == old(calls) && content == old(content)
      ensures old(Able(name)) && heard == Throw(Presentation(Unavailable)) ==> r == Return(Unavailable)
      ensures old(Able(name)) && Heard().Some? && (Heard().value.active || Heard().value.ended) ==>
                r == Return(Ok) && content == Heard()
      ensures calls == old(calls) || (calls == Then(old(calls), Control) && old(content).value.active
                && current.value.video
                && (if name == Seek then old(content).value.seekable else old(content).value.audio))
      ensures r == Return(Ok) ==> calls == Then(old(calls), Control)
      ensures r.Return? ==> VideoObeyed(name, r.value)
      ensures calm ==> r.Return?
    {
      if content.None? || !current.value.video || !content.value.active {
        return Return(Unavailable);
      }
      if !(if name == Seek then content.value.seekable else content.value.audio) {
        return Return(Unavailable);
      }
      var answer := ControlContent();
      if answer == Throw(Presentation(Unavailable)) {
        return Return(Unavailable);
      }
      var snapshot :- answer;
      var _ :- AcceptContent(snapshot);
      r := Return(Ok);
    }

    /** `pause`, `resume` and `toggle_pause` reach the presenter exactly if a video is held and the value changes. */
    twostate predicate PauseObeyed(value: bool, r: Outcome)
      reads this
    {
      && r == Ok && paused == value
      && if value != old(paused) && old(content).Some? && old(current).Some? && old(current).value.video
         then calls == Then(old(calls), Control) && content == Heard()
         else calls == old(calls) && content == old(content)
    }

    /** `seek` and `set_audio` reach the presenter exactly if held content is able to obey. */
    twostate predicate VideoObeyed(name: Command, r: Outcome)
      requires old(content).Some? ==> old(current).Some?
      reads this
    {
      if old(Able(name)) then
        && calls == Then(old(calls), Control)
        && (if r == Ok then content == Heard() else r == Unavailable && content == old(content))
      else r == Unavailable && calls == old(calls) && content == old(content)
    }

    /** `next` and `previous` do what the planner answered: nothing, nothing to show, or its step. */
    twostate predicate Moved(forward: bool, r: Outcome)
      reads this
    {
      Advanced(old(requests), requests, forward) &&
      match requests[|old(requests)|].plan
      case None => false
      case Some(Boundary) =>
        r == Unavailable && calls == old(calls) && current == old(current) && content == old(content)
      case Some(Planned(step)) =>
        && r == Ok && current == Some(step) && (suppressed <==> content.None?)
        && calls == if suppressed then Then(old(calls), Clear(true)) else Then(Then(old(calls), Clear(true)), Show)
      case Some(_) => r == Unavailable && content.None? && current.None?
    }

    /** What a command that raised nothing has done. */
    twostate predicate Obeyed(name: Command, r: Outcome)
      requires old(content).Some? ==> old(current).Some?
      reads this
    {
      match name
      case Next => Moved(true, r)
      case Previous => Moved(false, r)
      case Pause => PauseObeyed(true, r)
      case Resume => PauseObeyed(false, r)
      case TogglePause => PauseObeyed(!old(paused), r)
      case SetSuppressed(value) =>
        && r == Ok && suppressed == value
        && if value == old(suppressed) then calls == old(calls) && content == old(content)
           else content.None? && calls == Then(old(calls), Clear(true)) && retryAt == 0.0
      case _ => VideoObeyed(name, r)
    }

    /** `command`. */
    method CommandOp(name: Command) returns (r: Try<Outcome>)
      requires Rest()
      modifies this`paused, this`suppressed, this`current, this`content, this`remaining, this`updated, this`pollAt,
               this`retryAt, this`failures, this`now, this`calls, this`shown, this`ran, this`dwell, this`requests,
               this`heard, this`configured, this`withheld
      ensures Sound() && ScreenOf(calls) != Retired
      ensures r.Return? ==> Rest()
      ensures r.Throw? && ScreenOf(calls) == Uncertain ==> r.error in {Presentation(CleanupFailed), Bug}
      ensures suppressed == if name.SetSuppressed? && r.Return? then name.value else old(suppressed)
      ensures paused == match name
                        case Pause => true
                        case Resume => false
                        case TogglePause => !old(paused)
                        case _ => old(paused)
      ensures (r.Return? ==> old(now) <= updated)
      ensures if name in {Next, Previous} then Advanced(old(requests), requests, name == Next)
              else requests == old(requests)
      ensures name in {Next, Previous} ==>
                var plan := requests[|old(requests)|].plan;
                && (plan == Some(Boundary) ==>
                      r == Return(Unavailable) && calls == old(calls) && current == old(current))
                && (r.Return? && plan.Some? && plan.value.Planned? ==>
                      r == Return(Ok) && current == Some(plan.value.step))
      ensures name.SetSuppressed? && r.Throw? ==> r.error in {Presentation(CleanupFailed), Bug}
      ensures name.SetSuppressed? && r.Return? && name.value ==> content.None?
      ensures name in {Next, Previous} && r == Return(Ok) ==>
                calls == Then(old(calls), Clear(true)) || calls == Then(Then(old(calls), Clear(true)), Show)
      ensures name in {Pause, Resume, TogglePause, Seek, Audio} ==>
                calls == old(calls) || calls == Then(old(calls), Control)
      ensures r.Return? ==> withheld == old(withheld)
      ensures r.Return? ==> Obeyed(name, r.value)
      ensures calm && name !in {Next, Previous} ==> r.Return?
      ensures calm && name in {Next, Previous} && Gave(old(requests), requests) ==> r.Return?
      ensures calm && r.Throw? ==> r.error == Presentation(Unavailable)
    {
      AccountTime();
      match name {
        case Next => r := Advance(true);
        case Previous => r := Advance(false);
        case SetSuppressed(value) => r := SetSuppressedTo(value);
        case Pause => r := SetPaused(true);
        case Resume => r := SetPaused(false);
        case TogglePause => r := SetPaused(!paused);
        case _ => r := VideoCommand(name);
      }
    }

    /** The handlers of `execute`: storage and presentation failures are contained, bugs are not. */
    method Contain(error: Error) returns (r: Try<Outcome>)
      requires Sound() && ScreenOf(calls) != Retired
      requires ScreenOf(calls) == Uncertain ==> error in {Presentation(CleanupFailed), Bug}
      modifies this`content, this`calls, this`current, this`remaining, this`failures, this`retryAt, this`now, this`ran
      ensures Sound() && ScreenOf(calls) != Retired
      ensures r.Return? ==> Rest() && content.None? && error !in {Presentation(CleanupFailed), Bug}
      ensures old(now) <= now
      ensures r.Return? ==> r.value == if error.Presentation? then error.outcome else Unavailable
      ensures r.Throw? ==> r.error in {Presentation(CleanupFailed), Bug}
      ensures calm && error == Presentation(Unavailable) ==> r.Return?
    {
      match error {
        case Storage =>
          var _ :- Failed(Unavailable);
          r := Return(Unavailable);
        case Presentation(outcome) =>
          var _ :- Failed(outcome);
          r := Return(outcome);
        case Bug =>
          r := Throw(Bug);
      }
    }

    /** `execute` of a command. What it raises is fatal; otherwise the machine is at rest again. */
    method ExecuteCommand(name: Command) returns (r: Try<Outcome>, ghost failed: bool)
      requires Rest()
      modifies this
      ensures Sound() && ScreenOf(calls) != Retired
      ensures r.Return? ==> Rest()
      ensures r.Throw? ==> r.error in {Presentation(CleanupFailed), Bug}
      ensures executed == old(executed) + [Execution(name, r)] && ticks == old(ticks)
      ensures suppressed == if name.SetSuppressed? && r.Return? then name.value else old(suppressed)
      ensures paused == match name
                        case Pause => true
                        case Resume => false
                        case TogglePause => !old(paused)
                        case _ => old(paused)
      ensures name.SetSuppressed? && r.Return? && name.value ==> content.None?
      ensures if name in {Next, Previous} then Advanced(old(requests), requests, name == Next)
              else requests == old(requests)
      ensures name in {Next, Previous} && requests[|old(requests)|].plan == Some(Boundary) ==>
                r == Return(Unavailable) && calls == old(calls) && current == old(current)
      ensures withheld != old(withheld) && r.Return? ==> content.None?
      ensures !failed ==> r.Return? && Obeyed(name, r.value)
      ensures failed && r.Return? ==> content.None?
      ensures calm && (name !in {Next, Previous} || Gave(old(requests), requests)) ==> !failed
      ensures calm ==> r.Return?
    {
      r := CommandOp(name);
      failed := r.Throw?;
      if r.Throw? {
        r := Contain(r.error);
      }
      executed := executed + [Execution(name, r)];
    }

    /** `execute` of a tick; a contained failure is followed by another tick at once. */
    method ExecuteTick() returns (r: Try<Option<real>>, ghost reason: Reason, ghost failed: bool)
      requires Rest()
      modifies this
      ensures Sound() && ScreenOf(calls) != Retired
      ensures r.Return? ==> Rest()
      ensures r.Throw? ==> r.error in {Presentation(CleanupFailed), Bug}
      ensures suppressed == old(suppressed) && (suppressed ==> r == Return(None) && calls == old(calls))
      ensures executed == old(executed) && ticks == old(ticks) + 1
      ensures Starts(old(Idles()), old(retryAt) <= old(now), old(current), old(requests))
      ensures suppressed || old(retryAt) > now ==> requests == old(requests)
      ensures withheld != old(withheld) && r.Return? ==> content.None?
      ensures !failed ==> r.Return? && Ticked(r.value, reason)
      ensures failed && r.Return? ==> content.None? && r.value == Some(0.0)
      ensures calm && old(Idles()) && old(retryAt) <= old(now)
              && (old(current).Some? || Gave(old(requests), requests)) ==>
                !failed && content.Some?
      ensures calm ==> r.Return?
    {
      r, reason := TickOp();
      ticks := ticks + 1;
      failed := r.Throw?;
      if r.Throw? {
        var _ :- Contain(r.error);
        r := Return(Some(0.0));
      }
    }

    /** The last call of all, whatever came before it. */
    method Retire() returns (ok: bool)
      requires Sound() && ScreenOf(calls) != Retired
      modifies this`calls, this`content, this`current, this`remaining
      ensures Sound() && calls == Then(old(calls), Stop) && content.None? && current.None? && remaining.None?
    {
      calls := Then(calls, Stop);
      content, current, remaining := None, None, None;
      ok := *;
    }
  }
}
