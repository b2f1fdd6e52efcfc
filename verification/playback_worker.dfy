/**
  The playback worker: the one thread that owns the machine, run against clients that submit, withdraw
  and shut down whenever it does not hold the mailbox lock.
*/
module PlaybackWorker {
  import opened Basics
  import opened PresentationTrace
  import opened PlaybackState
  import opened MailboxModel

  class Worker {
    const machine: Machine
    var mail: Mailbox
    ghost var results: map<nat, Outcome>  // what each Future taken from the mailbox was answered

    /** Every answer given stays the Future's result. */
    ghost predicate Answers(futures: seq<Future>)
      reads this
    {
      forall id :: id in results ==> id < |futures| && futures[id] == Settled(results[id])
    }

    ghost predicate Ready()
      reads this, machine
    {
      Valid(mail) && Answers(mail.futures) && mail.closing == [] && machine.Sound()
    }

    /** The machine executed exactly the commands of `ids` that were not withdrawn, in order, with those answers. */
    ghost predicate Executed(ids: seq<nat>)
      reads this, machine
    {
      Performed(ids, mail.futures, mail.commands, machine.executed)
    }

    constructor (now: real, calm: bool)
      ensures Ready() && mail == EMPTY && machine.Rest() && machine.calls == Start && results == map[]
      ensures mail.taken == [] && Executed(mail.taken)
      ensures fresh(machine) && machine.calm == calm && machine.ticks == 0
    {
      machine := new Machine(now, calm);
      mail := EMPTY;
      results := map[];
      new;
      assert !TransportSince(mail.log, 0);
    }

    /** `submit`. */
    method SubmitCommand(request: Option<Command>) returns (id: nat)
      requires Valid(mail) && Answers(mail.futures)
      modifies this`mail
      ensures Valid(mail) && Answers(mail.futures) && Rely(old(mail), mail)
      ensures mail == Submit(old(mail), request)
      ensures id == |old(mail.futures)| && |mail.futures| == id + 1
      ensures mail.futures[id] == Settled(Rejected) <==> old(mail.closed) || old(mail.stop) || request.None?
      ensures mail.futures[id] == Settled(Busy) <==>
                mail.futures[id] != Settled(Rejected) && |old(mail.queue)| == 32
      ensures mail.futures[id] == Pending <==> mail.queue == old(mail.queue) + [id]
      ensures !mail.futures[id].Pending? ==>
                mail.futures[id].Settled? && mail.queue == old(mail.queue)
                && mail.token == old(mail.token)
      ensures mail.futures[id].Pending? ==>
                mail.token == (old(mail.token) || request.value !in {Seek, Audio})
    {
      id := |mail.futures|;
      StepKeepsValid(mail, Submitting(request));
      if mail.closed || mail.stop || request.None? {
        mail := Answered(mail, request, Rejected);
      } else if |mail.queue| >= MAILBOX_LIMIT {
        mail := Answered(mail, request, Busy);
      } else {
        mail := mail.(queue := mail.queue + [id], futures := mail.futures + [Pending],
          commands := mail.commands + [request],
                      log := mail.log + [Accepted(request.value)], accepted := mail.accepted + [id]);
        if Transport(request.value) {
          mail := mail.(token := true);
        }
      }
    }

    /** Where nothing fails and nobody stops playback, it has not been stopped. */
    twostate predicate Unstopped()
      reads this
    {
      machine.calm && !old(mail.stop) ==> !mail.stop
    }

    /** Any number of client steps; a calm worker is not stopped by any of them. */
    method Interfere()
      requires Valid(mail) && Answers(mail.futures)
      modifies this`mail
      ensures Valid(mail) && Answers(mail.futures) && Rely(old(mail), mail) && Later(old(mail), mail)
      ensures Unstopped()
    {
      var n: nat := *;
      while n > 0
        invariant Valid(mail) && Answers(mail.futures) && Rely(old(mail), mail) && Unstopped()
      {
        var e: Env := *;
        if machine.calm && (e.SetStop? || e.JoinTimeout?) { break; }
        StepKeepsValid(mail, e);
        OthersDoNotStop(mail, e);
        RelyTransitive(old(mail), mail, ClientStep(mail, e));
        mail := ClientStep(mail, e);
        n := n - 1;
      }
      RelyIsLater(old(mail), mail);
    }

    /** `_fatal`, on this thread. */
    method Fatal(reason: Failure)
      requires Valid(mail) && Answers(mail.futures)
      modifies this`mail
      ensures Valid(mail) && Answers(mail.futures) && Later(old(mail), mail) && mail == Fail(old(mail), reason)
    {
      FailKeepsValid(mail, reason);
      mail := Fail(mail, reason);
    }

    /** The Future in hand gets its result. */
    method Answer(outcome: Outcome)
      requires Valid(mail) && Answers(mail.futures) && mail.hand.Some? && mail.futures[mail.hand.value].Running?
      modifies this`mail, this`results
      ensures Valid(mail) && Answers(mail.futures) && Later(old(mail), mail) && mail == Finish(old(mail), outcome)
      ensures results == old(results)[old(mail.hand).value := outcome]
    {
      FinishKeepsValid(mail, outcome);
      results := results[mail.hand.value := outcome];
      mail := Finish(mail, outcome);
    }

    /** Pop a command and install a token, after whatever clients did since. */
    method Pop()
      requires Valid(mail) && Answers(mail.futures) && mail.hand.None? && mail.closing == []
      modifies this`mail
      ensures Valid(mail) && Answers(mail.futures) && Later(old(mail), mail)
      ensures TimedOut(old(mail), mail) && mail.closing == []
      ensures |old(mail.log)| <= mail.installed == |mail.log| && (IsCancelled(mail) <==> mail.stop)
      ensures mail.hand.None? ==> old(mail.queue) == [] && mail.taken == old(mail.taken)
      ensures mail.hand.Some? ==>
                mail.taken == old(mail.taken) + [mail.hand.value]
                && !mail.futures[mail.hand.value].Running?
      ensures old(mail.queue) != [] ==> mail.hand == Some(old(mail.queue)[0])
      ensures Unstopped()
    {
      Interfere();
      TakeKeepsValid(mail);
      LaterTransitive(old(mail), mail, Take(mail));
      mail := Take(mail);
    }

    /** `set_running_or_notify_cancel`, after whatever clients did since. */
    method BeginHand()
      requires Valid(mail) && Answers(mail.futures) && mail.hand.Some? && !mail.futures[mail.hand.value].Running?
      modifies this`mail
      ensures Valid(mail) && Answers(mail.futures) && Later(old(mail), mail)
      ensures TimedOut(old(mail), mail) && mail.taken == old(mail.taken)
      ensures mail.closing == old(mail.closing) && mail.installed == old(mail.installed)
                && (old(mail.closed) ==> mail.queue == old(mail.queue))
      ensures if mail.hand.None? then mail.futures[old(mail.hand).value].Withdrawn?
              else mail.hand == old(mail.hand) && mail.futures[mail.hand.value].Running?
      ensures Unstopped()
    {
      Interfere();
      BeginKeepsValid(mail);
      LaterTransitive(old(mail), mail, Begin(mail));
      mail := Begin(mail);
    }

    /** The Future in hand gets its result, whatever clients did meanwhile. */
    method Conclude(outcome: Outcome)
      requires Valid(mail) && Answers(mail.futures) && mail.hand.Some? && mail.futures[mail.hand.value].Running?
      modifies this`mail, this`results
      ensures Valid(mail) && Answers(mail.futures) && Later(old(mail), mail)
      ensures TimedOut(old(mail), mail) && mail.hand.None? && mail.taken == old(mail.taken)
      ensures mail.closing == old(mail.closing) && mail.installed == old(mail.installed)
                && (old(mail.closed) ==> mail.queue == old(mail.queue))
      ensures results == old(results)[old(mail.hand).value := outcome]
      ensures old(mail.hand).value < |mail.futures| && mail.futures[old(mail.hand).value] == Settled(outcome)
      ensures Unstopped()
    {
      Interfere();
      ghost var meanwhile := mail;
      Answer(outcome);
      LaterTransitive(old(mail), meanwhile, mail);
    }

    /** A popped command: skipped if it was withdrawn, otherwise executed and answered. */
    method ExecuteTaken() returns (r: Try<()>)
      requires Ready() && machine.Rest() && mail.hand.Some? && !mail.futures[mail.hand.value].Running?
      requires Executed(mail.taken[..|mail.taken| - 1])
      modifies this`mail, this`results, machine
      ensures Ready() && mail.hand.None? && Later(old(mail), mail) && TimedOut(old(mail), mail) && Executed(mail.taken)
      ensures ScreenOf(machine.calls) != Retired && (r.Return? ==> machine.Rest())
      ensures mail.taken == old(mail.taken) && mail.installed == old(mail.installed)
      ensures r.Throw? ==> mail.futures[old(mail.hand).value] == Settled(CleanupFailed)
      ensures mail.futures[old(mail.hand).value].Withdrawn? ==>
                machine.calls == old(machine.calls) && results == old(results)
      ensures machine.ticks == old(machine.ticks)
      ensures Unstopped()
      ensures machine.calm ==> r.Return?
    {
      ghost var ids := mail.taken[..|mail.taken| - 1];
      BeginTaken(ids);
      if mail.hand.None? {
        return Return(());
      }
      ghost var begun := mail;
      r := PerformHand(ids);
      LaterTransitive(old(mail), begun, mail);
    }

    /** What was executed so far stays so, and a command withdrawn in time adds nothing to it. */
    method BeginTaken(ghost ids: seq<nat>)
      requires Ready() && mail.hand.Some? && !mail.futures[mail.hand.value].Running?
      requires mail.taken == ids + [mail.hand.value] && Executed(ids)
      modifies this`mail
      ensures Ready() && Later(old(mail), mail) && TimedOut(old(mail), mail)
      ensures mail.taken == old(mail.taken) && mail.installed == old(mail.installed)
      ensures if mail.hand.None? then mail.futures[old(mail.hand).value].Withdrawn? && Executed(mail.taken)
              else mail.hand == old(mail.hand) && mail.futures[mail.hand.value].Running? && Executed(ids)
      ensures Unstopped()
    {
      assert mail.accepted[|ids|] == mail.hand.value;
      BeginHand();
      if mail.hand.None? {
        PerformedWithdrawn(ids, old(mail.hand).value, old(mail), mail, machine.executed);
      } else {
        PerformedStays(ids, old(mail), mail, machine.executed);
      }
    }

    /** A command that has begun is executed, and its Future is given what came of it. */
    method PerformHand(ghost ids: seq<nat>) returns (r: Try<()>)
      requires Ready() && machine.Rest() && mail.hand.Some? && mail.futures[mail.hand.value].Running?
      requires mail.taken == ids + [mail.hand.value] && Executed(ids)
      modifies this`mail, this`results, machine
      ensures Ready() && mail.hand.None? && Later(old(mail), mail) && TimedOut(old(mail), mail) && Executed(mail.taken)
      ensures ScreenOf(machine.calls) != Retired && (r.Return? ==> machine.Rest())
      ensures mail.taken == old(mail.taken) && mail.installed == old(mail.installed)
      ensures mail.futures[old(mail.hand).value].Settled?
      ensures r.Throw? ==> mail.futures[old(mail.hand).value] == Settled(CleanupFailed)
      ensures machine.ticks == old(machine.ticks)
      ensures Unstopped()
      ensures machine.calm ==> r.Return?
    {
      var outcome := ExecuteRunning();
      Conclude(if outcome.Throw? then CleanupFailed else outcome.value);
      PerformedAnswered(ids, old(mail.hand).value, old(mail), mail, old(machine.executed), outcome);
      r := if outcome.Throw? then Throw(outcome.error) else Return(());
    }

    /** The machine runs the command in hand; only the machine changes. */
    method ExecuteRunning() returns (r: Try<Outcome>)
      requires Valid(mail) && mail.hand.Some? && machine.Rest()
      modifies machine
      ensures machine.Sound() && ScreenOf(machine.calls) != Retired && (r.Return? ==> machine.Rest())
      ensures mail.hand.value < |mail.commands| && mail.commands[mail.hand.value].Some?
      ensures machine.executed == old(machine.executed) + [Execution(mail.commands[mail.hand.value].value, r)]
      ensures machine.ticks == old(machine.ticks)
      ensures machine.calm ==> r.Return?
    {
      assert mail.accepted[|mail.taken| - 1] == mail.hand.value;
      var command := mail.commands[mail.hand.value].value;
      ghost var failed;
      r, failed := machine.ExecuteCommand(command);
    }

    /** One turn of the loop: pop and install a token under one lock, then execute or tick. */
    method Turn() returns (r: Try<()>)
      requires Ready() && machine.Rest() && mail.hand.None? && Executed(mail.taken)
      modifies this`mail, this`results, machine
      ensures Ready() && mail.hand.None? && Later(old(mail), mail) && TimedOut(old(mail), mail) && Executed(mail.taken)
      ensures ScreenOf(machine.calls) != Retired && (r.Return? ==> machine.Rest())
      ensures |old(mail.log)| <= mail.installed
      ensures |old(mail.taken)| <= |mail.taken| <= |old(mail.taken)| + 1
      ensures old(mail.queue) != [] ==> mail.taken == old(mail.taken) + [old(mail.queue)[0]]
      ensures machine.ticks == old(machine.ticks) + (if mail.taken == old(mail.taken) then 1 else 0)
      ensures Unstopped()
      ensures machine.calm ==> r.Return?
    {
      Pop();
      ghost var popped := mail;
      PerformedStays(old(mail.taken), old(mail), mail, machine.executed);
      if mail.hand.Some? {
        assert mail.taken[..|mail.taken| - 1] == old(mail.taken);
        r := ExecuteTaken();
        LaterTransitive(old(mail), popped, mail);
      } else {
        r := TickOnce();
        LaterTransitive(old(mail), popped, mail);
      }
    }

    /** A turn without a command: the machine ticks once. */
    method TickOnce() returns (r: Try<()>)
      requires Ready() && machine.Rest() && mail.hand.None? && Executed(mail.taken)
      modifies this`mail, machine
      ensures Ready() && mail.hand.None? && Later(old(mail), mail) && TimedOut(old(mail), mail) && Executed(mail.taken)
      ensures ScreenOf(machine.calls) != Retired && (r.Return? ==> machine.Rest())
      ensures mail.taken == old(mail.taken) && mail.installed == old(mail.installed)
      ensures machine.ticks == old(machine.ticks) + 1
      ensures Unstopped()
      ensures machine.calm ==> r.Return?
    {
      var wait;
      ghost var reason, failed;
      wait, reason, failed := machine.ExecuteTick();
      ghost var ticked := mail;
      Interfere();
      PerformedStays(ticked.taken, ticked, mail, machine.executed);
      r := if wait.Throw? then Throw(wait.error) else Return(());
    }

    /** Turns, until the stop event is set or `rounds` of them are over. */
    method Turns(rounds: nat) returns (r: Try<()>, ghost turns: nat)
      requires Ready() && machine.Rest() && mail.hand.None? && Executed(mail.taken)
      modifies this`mail, this`results, machine
      ensures Ready() && mail.hand.None? && Later(old(mail), mail) && TimedOut(old(mail), mail) && Executed(mail.taken)
      ensures ScreenOf(machine.calls) != Retired && (r.Return? ==> machine.Rest())
      ensures old(mail.stop) ==> r.Return? && mail == old(mail) && machine.calls == old(machine.calls)
      ensures r.Return? ==> |mail.taken| + machine.ticks == |old(mail.taken)| + old(machine.ticks) + turns
      ensures if r.Return? && !mail.stop then turns == rounds else turns <= rounds
      ensures Unstopped() && (machine.calm ==> r.Return?)
    {
      turns := 0;
      var left := rounds;
      while left > 0 && !mail.stop
        invariant Ready() && machine.Rest() && mail.hand.None? && Later(old(mail), mail) && Executed(mail.taken)
        invariant TimedOut(old(mail), mail) && Unstopped() && turns + left == rounds
        invariant |mail.taken| + machine.ticks == |old(mail.taken)| + old(machine.ticks) + turns
        invariant old(mail.stop) ==> mail == old(mail) && machine.calls == old(machine.calls)
      {
        ghost var before := mail;
        var turned := Turn();
        LaterTransitive(old(mail), before, mail);
        if turned.Throw? { return turned, turns; }
        left, turns := left - 1, turns + 1;
      }
      r := Return(());
    }

    /** `_loop`, for a run that the stop event ends after at most `rounds` turns. */
    method Loop(rounds: nat) returns (r: Try<()>, ghost turns: nat)
      requires Ready() && machine.Rest() && mail.hand.None? && Executed(mail.taken)
      modifies this`mail, this`results, machine
      ensures Ready() && mail.hand.None? && Later(old(mail), mail) && TimedOut(old(mail), mail) && Executed(mail.taken)
      ensures ScreenOf(machine.calls) != Retired
      ensures r.Return? ==> machine.Rest() && mail.stop
      ensures old(mail.stop) ==> r.Return? && mail.taken == old(mail.taken) && machine.calls == old(machine.calls)
      ensures turns <= rounds
      ensures r.Return? ==> |mail.taken| + machine.ticks == |old(mail.taken)| + old(machine.ticks) + turns
      ensures machine.calm && !old(mail.stop) ==> r.Return? && turns == rounds
    {
      r, turns := Turns(rounds);
      if r.Return? {
        StepKeepsValid(mail, SetStop);
        mail := ClientStep(mail, SetStop);
      }
    }

    /** The tail of `_run`: what is still queued is rejected, unless its client withdrew it. */
    method RejectRest()
      requires Valid(mail) && Answers(mail.futures) && mail.hand.None? && mail.closed && mail.queue == []
      modifies this`mail, this`results
      ensures Valid(mail) && Answers(mail.futures) && mail.hand.None? && mail.closing == [] && mail.queue == []
      ensures mail.closed && Later(old(mail), mail) && TimedOut(old(mail), mail)
      ensures Rejects(mail.futures, mail.taken, |old(mail.taken)|)
    {
      while mail.closing != []
        invariant Valid(mail) && Answers(mail.futures) && mail.hand.None? && mail.queue == []
        invariant TimedOut(old(mail), mail)
        invariant mail.closed && Later(old(mail), mail) && Rejects(mail.futures, mail.taken, |old(mail.taken)|)
        decreases |mail.closing|
      {
        ghost var before := mail;
        RejectNext();
        LaterTransitive(old(mail), before, mail);
      }
    }

    method RejectNext()
      requires Valid(mail) && Answers(mail.futures) && mail.hand.None? && mail.closed && mail.queue == []
               && mail.closing != []
      modifies this`mail, this`results
      ensures Valid(mail) && Answers(mail.futures) && mail.hand.None? && mail.closing == old(mail.closing)[1..]
                && mail.queue == []
      ensures mail.closed && Later(old(mail), mail) && TimedOut(old(mail), mail)
      ensures mail.taken == old(mail.taken) + [old(mail.closing)[0]]
      ensures Rejects(mail.futures, mail.taken, |old(mail.taken)|)
    {
      TakeClosingKeepsValid(mail);
      mail := TakeClosing(mail);
      ghost var taken := mail;
      BeginHand();
      ghost var begun := mail;
      LaterTransitive(old(mail), taken, begun);
      if mail.hand.Some? {
        Conclude(Rejected);
        LaterTransitive(old(mail), begun, mail);
      }
    }

    /**
      `_run`: however it ends, the presenter's last call is its one stop, and every Future ever handed
      out is answered or withdrawn.
    */
    method Run(rounds: nat) returns (r: Try<()>, stopped: bool, ghost ran: nat)
      requires Ready() && machine.Rest() && mail.hand.None? && Executed(mail.taken)
      modifies this`mail, this`results, machine
      ensures Valid(mail) && Answers(mail.futures) && Later(old(mail), mail) && mail.closed
      ensures forall id: nat :: id < |mail.futures| ==> IsAnswered(mail.futures, id)
      ensures mail.taken == mail.accepted
      ensures |old(mail.taken)| <= ran <= |mail.taken| && Executed(mail.taken[..ran])
      ensures Rejects(mail.futures, mail.taken, ran)
      ensures Lawful(machine.calls) && machine.calls.Then? && machine.calls.call == Stop
      ensures machine.content.None? && machine.current.None?
      ensures r.Throw? || !stopped ==> mail.failure.Some?
      ensures old(mail.failure).None? ==> mail.failure in {None, Some(ShutdownTimeout), Some(FailureOf(r))}
      ensures r.Return? && stopped ==> TimedOut(old(mail), mail)
      ensures machine.calm && !old(mail.stop) ==>
                r.Return? && ran + machine.ticks == |old(mail.taken)| + old(machine.ticks) + rounds
    {
      r, stopped := LoopAndRetire(rounds);
      ghost var retired := mail;
      ran := |mail.taken|;
      CloseAndReject();
      LaterTransitive(old(mail), retired, mail);
      PerformedStays(retired.taken, retired, mail, machine.executed);
      assert mail.taken[..ran] == retired.taken;
    }

    /** What broke the loop or, if nothing did, the stop call: failed cleanup is told apart from bugs. */
    function FailureOf(r: Try<()>): Failure {
      match r
      case Throw(Presentation(CleanupFailed)) => CleanupFailure
      case Throw(_) => WorkerFailure
      case Return(_) => CleanupFailure
    }

    /** The loop however it ends; what breaks it is recorded as the failure. */
    method LoopAndRecord(rounds: nat) returns (r: Try<()>)
      requires Ready() && machine.Rest() && mail.hand.None? && Executed(mail.taken)
      modifies this`mail, this`results, machine
      ensures Ready() && mail.hand.None? && Later(old(mail), mail) && Executed(mail.taken)
      ensures ScreenOf(machine.calls) != Retired
      ensures if r.Throw? then mail.failure.Some? else TimedOut(old(mail), mail)
      ensures old(mail.failure).None? && r.Throw? ==> mail.failure in {Some(ShutdownTimeout), Some(FailureOf(r))}
      ensures machine.calm && !old(mail.stop) ==>
                r.Return? && |mail.taken| + machine.ticks == |old(mail.taken)| + old(machine.ticks) + rounds
    {
      ghost var turns;
      r, turns := Loop(rounds);
      ghost var looped := mail;
      if r.Throw? {
        RecordFailure(r.error);
        LaterTransitive(old(mail), looped, mail);
      }
    }

    /** The handlers around the loop: failed cleanup is told apart from anything else. */
    method RecordFailure(error: Error)
      requires Ready() && Executed(mail.taken)
      modifies this`mail
      ensures Ready() && Later(old(mail), mail) && Executed(mail.taken)
      ensures mail == Fail(old(mail), FailureOf(Throw(error)))
    {
      Fatal(if error == Presentation(CleanupFailed) then CleanupFailure else WorkerFailure);
      assert mail.futures == old(mail).futures && mail.commands == old(mail).commands && mail.taken == old(mail).taken;
    }

    /** Then the one stop call; one that raises is recorded as well. */
    method LoopAndRetire(rounds: nat) returns (r: Try<()>, stopped: bool)
      requires Ready() && machine.Rest() && mail.hand.None? && Executed(mail.taken)
      modifies this`mail, this`results, machine
      ensures Ready() && mail.hand.None? && Later(old(mail), mail) && Executed(mail.taken)
      ensures machine.calls.Then? && machine.calls.call == Stop && machine.content.None? && machine.current.None?
      ensures r.Throw? || !stopped ==> mail.failure.Some?
      ensures old(mail.failure).None? ==> mail.failure in {None, Some(ShutdownTimeout), Some(FailureOf(r))}
      ensures r.Return? && stopped ==> TimedOut(old(mail), mail)
      ensures machine.calm && !old(mail.stop) ==>
                r.Return? && |mail.taken| + machine.ticks == |old(mail.taken)| + old(machine.ticks) + rounds
    {
      r := LoopAndRecord(rounds);
      ghost var retired := mail;
      stopped := StopPresenter();
      LaterTransitive(old(mail), retired, mail);
    }

    /** The stop call; one that raises is a failure to clean up. */
    method StopPresenter() returns (stopped: bool)
      requires Ready() && ScreenOf(machine.calls) != Retired && Executed(mail.taken)
      modifies this`mail, machine
      ensures Ready() && Later(old(mail), mail) && Executed(mail.taken) && mail.hand == old(mail.hand)
      ensures machine.calls.Then? && machine.calls.call == Stop && machine.content.None? && machine.current.None?
      ensures mail == if stopped then old(mail) else Fail(old(mail), CleanupFailure)
      ensures machine.ticks == old(machine.ticks) && mail.taken == old(mail.taken)
    {
      LaterReflexive(mail);
      stopped := machine.Retire();
      if !stopped {
        Fatal(CleanupFailure);
      }
    }

    method CloseAndReject()
      requires Valid(mail) && Answers(mail.futures) && mail.hand.None? && mail.closing == []
      modifies this`mail, this`results
      ensures Valid(mail) && Answers(mail.futures) && Later(old(mail), mail) && mail.closed
      ensures TimedOut(old(mail), mail)
      ensures forall id: nat :: id < |mail.futures| ==> IsAnswered(mail.futures, id)
      ensures mail.taken == mail.accepted && Rejects(mail.futures, mail.taken, |old(mail.taken)|)
    {
      Interfere();
      ghost var before := mail;
      CloseKeepsValid(mail);
      mail := Close(mail);
      LaterTransitive(old(mail), before, mail);
      ghost var closed := mail;
      RejectRest();
      LaterTransitive(old(mail), closed, mail);
      NothingWaiting(mail);
    }
  }
}
