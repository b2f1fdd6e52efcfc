/**
  What the playback worker and its clients share: a bounded mailbox of commands with one Future each,
  the cancel token of the running operation, and what either side may do to them between any two
  steps of the other. The history fields (`log`, `accepted`, `taken`) only serve the statements.
*/
module MailboxModel {
  import opened Basics
  import opened PlaybackState

  datatype Future = Pending | Running | Withdrawn | Settled(outcome: Outcome)

  /** What can raise a token, in the order it happened. */
  datatype Raise = Accepted(command: Command) | Woken | Fatal

  /** Why playback has failed; the first reason stays. */
  datatype Failure = ShutdownTimeout | CleanupFailure | WorkerFailure

  /** A queued command is known by its Future; `commands` is what each submission asked for. */
  datatype Mailbox = Mailbox(
    queue: seq<nat>, closing: seq<nat>, hand: Option<nat>, futures: seq<Future>, commands: seq<Option<Command>>,
    stop: bool, closed: bool, failure: Option<Failure>, token: bool,
    log: seq<Raise>, installed: nat, accepted: seq<nat>, taken: seq<nat>)

  const MAILBOX_LIMIT := 32

  const EMPTY := Mailbox([], [], None, [], [], false, false, None, false, [], 0, [], [])

  predicate Transport(c: Command) {
    c !in {Seek, Audio}
  }

  /** What an operation is told when it asks whether it is cancelled. */
  predicate IsCancelled(m: Mailbox) {
    m.stop || m.token
  }

  // --------------------------------------------------------------- client steps

  /** `submit`; a request without a command is an invalid one. */
  function Submit(m: Mailbox, request: Option<Command>): Mailbox {
    if m.closed || m.stop || request.None? then Answered(m, request, Rejected)
    else if |m.queue| >= MAILBOX_LIMIT then Answered(m, request, Busy)
    else m.(queue := m.queue + [|m.futures|], futures := m.futures + [Pending], commands := m.commands + [request],
            token := m.token || Transport(request.value), log := m.log + [Accepted(request.value)],
            accepted := m.accepted + [|m.futures|])
  }

  function Answered(m: Mailbox, request: Option<Command>, outcome: Outcome): Mailbox {
    m.(futures := m.futures + [Settled(outcome)], commands := m.commands + [request])
  }

  /** `Future.cancel`: only what has not begun can be withdrawn. */
  function Cancel(m: Mailbox, id: nat): Mailbox {
    if id < |m.futures| && m.futures[id].Pending? then m.(futures := m.futures[id := Withdrawn]) else m
  }

  /** `_fatal`. */
  function Fail(m: Mailbox, reason: Failure): Mailbox {
    m.(failure := if m.failure.None? then Some(reason) else m.failure, closed := true, stop := true, token := true,
       log := m.log + [Fatal])
  }

  datatype Env = Submitting(request: Option<Command>) | Cancelling(id: nat) | SetStop | Wake | JoinTimeout

  /** `request_shutdown` sets the stop event first and raises the token in a second step. */
  function ClientStep(m: Mailbox, e: Env): Mailbox {
    match e
    case Submitting(request) => Submit(m, request)
    case Cancelling(id) => Cancel(m, id)
    case SetStop => m.(stop := true)
    case Wake => if m.stop then m.(token := true, log := m.log + [Woken]) else m
    case JoinTimeout => Fail(m, ShutdownTimeout)
  }

  // --------------------------------------------------------------- worker steps

  /** The head of the loop: pop a command and install a new token, under one lock. */
  function Take(m: Mailbox): Mailbox {
    var renewed := m.(token := false, installed := |m.log|);
    if m.queue == [] then renewed
    else renewed.(queue := m.queue[1..], hand := Some(m.queue[0]), taken := m.taken + [m.queue[0]])
  }

  /** `set_running_or_notify_cancel` on the Future in hand. */
  function Begin(m: Mailbox): Mailbox
    requires m.hand.Some? && m.hand.value < |m.futures| && m.futures[m.hand.value] in {Pending, Withdrawn}
  {
    if m.futures[m.hand.value].Pending? then m.(futures := m.futures[m.hand.value := Running]) else m.(hand := None)
  }

  function Finish(m: Mailbox, outcome: Outcome): Mailbox
    requires m.hand.Some? && m.hand.value < |m.futures|
  {
    m.(futures := m.futures[m.hand.value := Settled(outcome)], hand := None)
  }

  /** The end of `_run`: nothing is admitted any more, and what is left is to be rejected. */
  function Close(m: Mailbox): Mailbox
    requires m.closing == []
  {
    m.(closed := true, closing := m.queue, queue := [])
  }

  function TakeClosing(m: Mailbox): Mailbox
    requires m.closing != []
  {
    m.(closing := m.closing[1..], hand := Some(m.closing[0]), taken := m.taken + [m.closing[0]])
  }

  // ------------------------------------------------------------------ invariant

  /** What was accepted and has not been taken yet. */
  function Line(m: Mailbox): seq<nat> {
    if m.closing == [] then m.queue else m.closing
  }

  /** Everything accepted was taken in the order of acceptance, or still waits in that order. */
  ghost predicate InOrder(accepted: seq<nat>, taken: seq<nat>, line: seq<nat>, n: nat) {
    && accepted == taken + line
    && (forall i, j :: 0 <= i < j < |accepted| ==> accepted[i] < accepted[j])
    && (forall i :: 0 <= i < |accepted| ==> accepted[i] < n)
  }

  /** Only what waits or is in hand is unsettled, and nothing that waits has begun. */
  ghost predicate Owed(futures: seq<Future>, hand: Option<nat>, line: seq<nat>) {
    && (forall id: nat :: id < |futures| && futures[id].Pending? ==> hand == Some(id) || id in line)
    && (forall id: nat :: id < |futures| && futures[id].Running? ==> hand == Some(id))
    && (forall i :: 0 <= i < |line| ==>
      line[i] < |futures| && futures[line[i]] in {Pending, Withdrawn}
      && hand != Some(line[i]))
    && (hand.Some? ==> hand.value < |futures| && !futures[hand.value].Settled?)
  }

  ghost predicate TransportSince(log: seq<Raise>, n: nat) {
    exists i :: n <= i < |log| && log[i].Accepted? && Transport(log[i].command)
  }

  ghost predicate TokenExact(m: Mailbox) {
    && m.installed <= |m.log|
    && (m.token ==> m.stop || TransportSince(m.log, m.installed))
    && (TransportSince(m.log, m.installed) ==> m.token)
    && (m.failure.Some? ==> m.stop && m.closed)
  }

  ghost predicate Bounded(m: Mailbox) {
    && |m.queue| <= MAILBOX_LIMIT && |m.commands| == |m.futures|
    && (m.closing != [] ==> m.closed && m.queue == [])
    && (m.hand.Some? ==> m.taken != [] && m.hand.value == m.taken[|m.taken| - 1])
    && (forall i :: 0 <= i < |m.accepted| && m.accepted[i] < |m.commands| ==> m.commands[m.accepted[i]].Some?)
  }

  ghost predicate Valid(m: Mailbox) {
    && InOrder(m.accepted, m.taken, Line(m), |m.futures|) && Owed(m.futures, m.hand, Line(m))
    && TokenExact(m) && Bounded(m)
  }

  /** A Future only moves forward, and a settled or withdrawn one stays what it is. */
  ghost predicate Forward(before: seq<Future>, after: seq<Future>) {
    && |before| <= |after|
    && forall id :: 0 <= id < |before| ==>
         && (before[id].Settled? || before[id].Withdrawn? ==> after[id] == before[id])
         && (before[id].Running? ==> after[id].Running? || after[id].Settled?)
  }

  /** Clients fail playback for no other reason than a join that gives up. */
  predicate TimedOut(m: Mailbox, t: Mailbox) {
    t.failure == m.failure || (m.failure.None? && t.failure == Some(ShutdownTimeout))
  }

  /** What no client can do: begin or finish anything, reopen the mailbox, take the stop back. */
  ghost predicate Rely(m: Mailbox, t: Mailbox) {
    && Forward(m.futures, t.futures) && t.hand == m.hand && t.taken == m.taken && t.closing == m.closing
    && (m.stop ==> t.stop) && (m.closed ==> t.closed && t.queue == m.queue) && TimedOut(m, t)
    && (forall id :: 0 <= id < |m.futures| ==> (t.futures[id].Running? <==> m.futures[id].Running?))
    && m.queue <= t.queue && m.commands <= t.commands && m.accepted <= t.accepted && m.log <= t.log
      && t.installed == m.installed
    && (m.token ==> t.token)
  }

  /** What every step keeps, the worker's included. */
  ghost predicate Later(m: Mailbox, t: Mailbox) {
    && Forward(m.futures, t.futures) && m.accepted <= t.accepted && m.taken <= t.taken && m.log <= t.log
    && (m.stop ==> t.stop) && (m.closed ==> t.closed)
    && (m.failure.Some? ==> t.failure == m.failure) && m.commands <= t.commands
  }

  lemma LaterReflexive(m: Mailbox)
    ensures Later(m, m)
  {
  }

  lemma LaterTransitive(m: Mailbox, t: Mailbox, u: Mailbox)
    requires Later(m, t) && Later(t, u)
    ensures Later(m, u)
  {
  }

  lemma RelyIsLater(m: Mailbox, t: Mailbox)
    requires Rely(m, t)
    ensures Later(m, t)
  {
  }

  /** An operation sees cancellation exactly when stop is set or a transport command came after its token. */
  lemma CancellationExact(m: Mailbox)
    requires Valid(m)
    ensures IsCancelled(m) <==> m.stop || TransportSince(m.log, m.installed)
  {
  }

  /** A Future is withdrawn only before its command begins, and nothing else changes. */
  lemma WithdrawnBeforeBegun(m: Mailbox, id: nat)
    ensures var t := ClientStep(m, Cancelling(id));
            t == if id < |m.futures| && m.futures[id].Pending? then m.(futures := m.futures[id := Withdrawn]) else m
  {
  }

  /** A shutdown, once requested, is seen by every operation, and the first reason to fail is the one kept. */
  lemma ShutdownIsSeen(m: Mailbox, reason: Failure)
    ensures IsCancelled(ClientStep(m, SetStop)) && ClientStep(m, SetStop).stop
    ensures var t := ClientStep(ClientStep(m, SetStop), Wake); t.token && t.stop && t.futures == m.futures
    ensures var t := Fail(m, reason);
            && t.stop && t.closed && t.token && t.queue == m.queue && t.futures == m.futures
            && t.failure == if m.failure.Some? then m.failure else Some(reason)
    ensures ClientStep(m, JoinTimeout) == Fail(m, ShutdownTimeout)
  {
  }

  /** Only setting the event or a join that gives up stops playback. */
  lemma OthersDoNotStop(m: Mailbox, e: Env)
    ensures !e.SetStop? && !e.JoinTimeout? ==> ClientStep(m, e).stop == m.stop
  {
  }

  lemma LogGrows(log: seq<Raise>, n: nat, r: Raise)
    requires n <= |log|
    ensures TransportSince(log + [r], n) <==> TransportSince(log, n) || (r.Accepted? && Transport(r.command))
  {
    var more := log + [r];
    if TransportSince(log, n) {
      var i :| n <= i < |log| && log[i].Accepted? && Transport(log[i].command);
      assert more[i] == log[i];
    }
    if r.Accepted? && Transport(r.command) {
      assert more[|log|] == r;
    }
    if TransportSince(more, n) {
      var i :| n <= i < |more| && more[i].Accepted? && Transport(more[i].command);
      assert i < |log| ==> log[i] == more[i];
    }
  }

  /** Accepting appends one debt at the end of the line. */
  lemma Admit(futures: seq<Future>, hand: Option<nat>, line: seq<nat>, accepted: seq<nat>, taken: seq<nat>)
    requires Owed(futures, hand, line) && InOrder(accepted, taken, line, |futures|)
    ensures Owed(futures + [Pending], hand, line + [|futures|])
    ensures InOrder(accepted + [|futures|], taken, line + [|futures|], |futures| + 1)
  {
    var more := futures + [Pending];
    forall id: nat | id < |more| && more[id].Pending? ensures hand == Some(id) || id in line + [|futures|] {
      assert id < |futures| ==> futures[id] == more[id];
    }
  }

  lemma AnswerKeepsOwed(futures: seq<Future>, hand: Option<nat>, line: seq<nat>, outcome: Outcome)
    requires Owed(futures, hand, line)
    ensures Owed(futures + [Settled(outcome)], hand, line)
  {
  }

  lemma WithdrawKeepsOwed(futures: seq<Future>, hand: Option<nat>, line: seq<nat>, id: nat)
    requires Owed(futures, hand, line) && id < |futures| && futures[id].Pending?
    ensures Owed(futures[id := Withdrawn], hand, line)
  {
  }

  lemma SubmitRelies(m: Mailbox, request: Option<Command>)
    ensures Rely(m, Submit(m, request))
  {
  }

  lemma AnsweredKeepsValid(m: Mailbox, request: Option<Command>, outcome: Outcome)
    requires Valid(m)
    ensures Valid(Answered(m, request, outcome))
  {
    AnswerKeepsOwed(m.futures, m.hand, Line(m), outcome);
  }

  lemma SubmitKeepsValid(m: Mailbox, request: Option<Command>)
    requires Valid(m)
    ensures Valid(Submit(m, request))
  {
    if m.closed || m.stop || request.None? {
      AnsweredKeepsValid(m, request, Rejected);
    } else if |m.queue| >= MAILBOX_LIMIT {
      AnsweredKeepsValid(m, request, Busy);
    } else {
      Admit(m.futures, m.hand, Line(m), m.accepted, m.taken);
      LogGrows(m.log, m.installed, Accepted(request.value));
    }
  }

  lemma CancelRelies(m: Mailbox, id: nat)
    ensures Rely(m, Cancel(m, id))
  {
  }

  lemma CancelKeepsValid(m: Mailbox, id: nat)
    requires Valid(m)
    ensures Valid(Cancel(m, id))
  {
    if id < |m.futures| && m.futures[id].Pending? {
      WithdrawKeepsOwed(m.futures, m.hand, Line(m), id);
    }
  }

  lemma StepKeepsValid(m: Mailbox, e: Env)
    requires Valid(m)
    ensures Valid(ClientStep(m, e)) && Rely(m, ClientStep(m, e))
  {
    match e
    case Submitting(request) => SubmitKeepsValid(m, request); SubmitRelies(m, request);
    case Cancelling(id) => CancelKeepsValid(m, id); CancelRelies(m, id);
    case Wake => LogGrows(m.log, m.installed, Woken);
    case JoinTimeout => LogGrows(m.log, m.installed, Fatal);
    case SetStop =>
  }

  lemma FailKeepsValid(m: Mailbox, reason: Failure)
    requires Valid(m)
    ensures Valid(Fail(m, reason)) && Later(m, Fail(m, reason))
  {
    LogGrows(m.log, m.installed, Fatal);
  }

  lemma RelyTransitive(m: Mailbox, t: Mailbox, u: Mailbox)
    requires Rely(m, t) && Rely(t, u)
    ensures Rely(m, u)
  {
  }

  /** Installing the token and popping under one lock: no command can cancel itself, and none is lost. */
  lemma TakeKeepsValid(m: Mailbox)
    requires Valid(m) && m.hand.None? && m.closing == []
    ensures Valid(Take(m)) && Later(m, Take(m))
    ensures IsCancelled(Take(m)) <==> m.stop
    ensures Take(m).hand.Some? ==> !m.futures[Take(m).hand.value].Running?
  {
    assert !TransportSince(m.log, |m.log|);
    if m.queue != [] {
      PopLine(m.futures, m.queue, m.accepted, m.taken);
    }
  }

  /** Popping moves the debt for the first waiting Future into the hand, and only that one. */
  lemma PopLine(futures: seq<Future>, line: seq<nat>, accepted: seq<nat>, taken: seq<nat>)
    requires line != [] && Owed(futures, None, line) && InOrder(accepted, taken, line, |futures|)
    ensures Owed(futures, Some(line[0]), line[1..])
    ensures InOrder(accepted, taken + [line[0]], line[1..], |futures|)
  {
    assert line == [line[0]] + line[1..];
    assert accepted[|taken|] == line[0];
    forall i | 0 <= i < |line[1..]| ensures line[1..][i] != line[0] {
      assert accepted[|taken| + 1 + i] == line[1..][i];
    }
  }

  lemma TakeClosingKeepsValid(m: Mailbox)
    requires Valid(m) && m.hand.None? && m.closing != []
    ensures Valid(TakeClosing(m)) && Later(m, TakeClosing(m))
  {
    PopLine(m.futures, m.closing, m.accepted, m.taken);
  }

  lemma BeginKeepsValid(m: Mailbox)
    requires Valid(m) && m.hand.Some? && !m.futures[m.hand.value].Running?
    ensures Valid(Begin(m)) && Later(m, Begin(m))
  {
    BeginKeepsOwed(m.futures, m.hand.value, Line(m));
  }

  lemma BeginKeepsOwed(futures: seq<Future>, id: nat, line: seq<nat>)
    requires Owed(futures, Some(id), line) && !futures[id].Running?
    ensures if futures[id].Pending? then Owed(futures[id := Running], Some(id), line) else Owed(futures, None, line)
  {
  }

  lemma FinishKeepsValid(m: Mailbox, outcome: Outcome)
    requires Valid(m) && m.hand.Some? && m.futures[m.hand.value].Running?
    ensures Valid(Finish(m, outcome)) && Later(m, Finish(m, outcome))
  {
  }

  lemma CloseKeepsValid(m: Mailbox)
    requires Valid(m) && m.closing == []
    ensures Valid(Close(m)) && Later(m, Close(m)) && Close(m).queue == []
  {
  }

  /** Commands begin in the order they were accepted: nothing accepted later overtakes. */
  lemma NothingOvertakes(m: Mailbox, i: nat, j: nat)
    requires Valid(m) && i < j < |m.accepted| && m.accepted[j] in m.taken
    ensures m.accepted[i] in m.taken
  {
    var k :| 0 <= k < |m.taken| && m.taken[k] == m.accepted[j];
    assert m.accepted[k] == m.taken[k];
    assert k == j;
    assert m.taken[i] == m.accepted[i];
  }

  predicate IsAnswered(futures: seq<Future>, id: nat) {
    id < |futures| && (futures[id].Settled? || futures[id].Withdrawn?)
  }

  /** Between operations whatever was taken has been answered or had been withdrawn. */
  lemma TakenIsAnswered(m: Mailbox, k: nat)
    requires Valid(m) && m.hand.None? && k < |m.taken|
    ensures IsAnswered(m.futures, m.taken[k])
  {
    assert m.accepted[k] == m.taken[k];
    forall i | 0 <= i < |Line(m)| ensures Line(m)[i] != m.taken[k] {
      assert m.accepted[|m.taken| + i] == Line(m)[i];
    }
  }

  lemma NothingWaiting(m: Mailbox)
    requires Valid(m) && m.hand.None? && Line(m) == []
    ensures forall id: nat :: id < |m.futures| ==> IsAnswered(m.futures, id)
  {
    forall id: nat | id < |m.futures| ensures IsAnswered(m.futures, id) {
      assert id !in Line(m);
    }
  }

  /** Once closed and emptied, every Future is answered or withdrawn, and no client can change that. */
  lemma ClosedStaysAnswered(m: Mailbox, e: Env)
    requires Valid(m) && m.closed && m.hand.None? && m.closing == [] && m.queue == []
    ensures var t := ClientStep(m, e);
            && Valid(t) && t.closed && t.hand.None? && t.closing == [] && t.queue == []
            && forall id: nat :: id < |t.futures| ==> IsAnswered(t.futures, id)
  {
    StepKeepsValid(m, e);
    NothingWaiting(ClientStep(m, e));
  }

  // ------------------------------------------------------------------ execution

  /** What a Future is given for what `execute` came to. */
  function AnswerFor(result: Try<Outcome>): Outcome {
    if result.Return? then result.value else CleanupFailed
  }

  /**
    Of the commands of `ids`, exactly those not withdrawn were executed, one after the other in that
    order, and each Future was given what its own execution came to.
  */
  ghost predicate Performed(ids: seq<nat>, futures: seq<Future>, commands: seq<Option<Command>>,
                            executed: seq<Execution>)
  {
    if ids == [] then executed == []
    else
      var before, id := ids[..|ids| - 1], ids[|ids| - 1];
      && id < |futures| && id < |commands| && commands[id].Some?
      && if futures[id].Withdrawn? then Performed(before, futures, commands, executed)
         else
           && executed != []
           && var last := executed[|executed| - 1];
           && last.command == commands[id].value && futures[id] == Settled(AnswerFor(last.result))
           && Performed(before, futures, commands, executed[..|executed| - 1])
  }

  /** How many of these Futures were not withdrawn. */
  function Begun(ids: seq<nat>, futures: seq<Future>): (n: nat) {
    if ids == [] then 0
    else
      var id := ids[|ids| - 1];
      Begun(ids[..|ids| - 1], futures) + if id < |futures| && futures[id].Withdrawn? then 0 else 1
  }

  /** First in, first executed: the command at a position is the execution that as many others precede. */
  lemma {:induction false} ExecutedInOrder(ids: seq<nat>, futures: seq<Future>, commands: seq<Option<Command>>,
    executed: seq<Execution>, i: nat)
    requires Performed(ids, futures, commands, executed) && i < |ids|
    ensures |executed| == Begun(ids, futures) && ids[i] < |futures| && ids[i] < |commands|
    ensures !futures[ids[i]].Withdrawn? ==>
              var k := Begun(ids[..i], futures);
              && k < |executed| && Some(executed[k].command) == commands[ids[i]]
              && match executed[k].result
                 case Return(outcome) => futures[ids[i]] == Settled(outcome)
                 case Throw(_) => futures[ids[i]] == Settled(CleanupFailed)
  {
    var before := ids[..|ids| - 1];
    var earlier := if futures[ids[|ids| - 1]].Withdrawn? then executed else executed[..|executed| - 1];
    if before == [] {
      assert ids[..i] == [];
    } else if i < |before| {
      ExecutedInOrder(before, futures, commands, earlier, i);
      assert before[..i] == ids[..i];
    } else {
      ExecutedInOrder(before, futures, commands, earlier, 0);
    }
  }

  /** Nothing that happens later changes what was performed. */
  lemma {:induction false} PerformedStays(ids: seq<nat>, m: Mailbox, t: Mailbox, executed: seq<Execution>)
    requires Performed(ids, m.futures, m.commands, executed) && Later(m, t)
    ensures Performed(ids, t.futures, t.commands, executed)
  {
    if ids != [] {
      var withdrawn := m.futures[ids[|ids| - 1]].Withdrawn?;
      PerformedStays(ids[..|ids| - 1], m, t, if withdrawn then executed else executed[..|executed| - 1]);
    }
  }

  /** One more command popped: withdrawn, or executed and answered. */
  lemma PerformedMore(ids: seq<nat>, id: nat, futures: seq<Future>, commands: seq<Option<Command>>,
                      executed: seq<Execution>, more: seq<Execution>)
    requires Performed(ids, futures, commands, executed)
    requires id < |futures| && id < |commands| && commands[id].Some?
    requires if futures[id].Withdrawn? then more == executed
             else |more| > 0 && more == executed + [Execution(commands[id].value, more[|more| - 1].result)]
                  && futures[id] == Settled(AnswerFor(more[|more| - 1].result))
    ensures Performed(ids + [id], futures, commands, more)
  {
    assert (ids + [id])[..|ids|] == ids;
    assert !futures[id].Withdrawn? ==> more[..|more| - 1] == executed;
  }

  /** The command in hand was executed with this result and answered, whatever clients did since. */
  lemma PerformedAnswered(ids: seq<nat>, id: nat, m: Mailbox, t: Mailbox, executed: seq<Execution>,
                          result: Try<Outcome>)
    requires Performed(ids, m.futures, m.commands, executed) && Later(m, t)
    requires id < |m.commands| && m.commands[id].Some?
    requires id < |t.futures| && t.futures[id] == Settled(AnswerFor(result))
    ensures Performed(ids + [id], t.futures, t.commands, executed + [Execution(m.commands[id].value, result)])
  {
    PerformedStays(ids, m, t, executed);
    PerformedMore(ids, id, t.futures, t.commands, executed, executed + [Execution(m.commands[id].value, result)]);
  }

  /** The command popped was withdrawn before it began. */
  lemma PerformedWithdrawn(ids: seq<nat>, id: nat, m: Mailbox, t: Mailbox, executed: seq<Execution>)
    requires Performed(ids, m.futures, m.commands, executed) && Later(m, t)
    requires id < |m.commands| && m.commands[id].Some? && id < |t.futures| && t.futures[id].Withdrawn?
    ensures Performed(ids + [id], t.futures, t.commands, executed)
  {
    PerformedStays(ids, m, t, executed);
    PerformedMore(ids, id, t.futures, t.commands, executed, executed);
  }

  /** From `start` on, what was taken was rejected unless withdrawn. */
  ghost predicate Rejects(futures: seq<Future>, taken: seq<nat>, start: nat) {
    forall k :: start <= k < |taken| ==> taken[k] < |futures| && futures[taken[k]] in {Settled(Rejected), Withdrawn}
  }
}
