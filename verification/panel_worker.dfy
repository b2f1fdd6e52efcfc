/**
  The panel worker: the one thread that owns the power backends, run against clients that interfere
  whenever it does not hold the lock and against backends that may answer anything.
*/
module PanelWorker {
  import opened Basics
  import opened PanelModel

  datatype Choice = Auto | Only(kind: Kind)
  datatype Method = Probe | Observe | RequestOn | RequestOff

  /** The fields a publication may change; the policy intents are never among them. */
  datatype Change = Change(state: Option<Phase>, active: Option<Option<Kind>>, signalSleepOwned: Option<bool>,
                           readback: Option<(Power, Power)>)

  function Changed(s: PanelStatus, c: Change): PanelStatus {
    s.(state := if c.state.Some? then c.state.value else s.state,
       active := if c.active.Some? then c.active.value else s.active,
       signalSleepOwned := if c.signalSleepOwned.Some? then c.signalSleepOwned.value else s.signalSleepOwned,
       physical := if c.readback.Some? then c.readback.value.0 else s.physical,
       signal := if c.readback.Some? then c.readback.value.1 else s.signal)
  }

  /** What clients cannot touch. */
  predicate SameReport(s: PanelStatus, t: PanelStatus) {
    t.active == s.active && t.signalSleepOwned == s.signalSleepOwned && t.physical == s.physical && t.signal == s.signal
  }

  /** What a backend answered, and for which generation it was asked. */
  datatype Answer = Answer(generation: nat, backend: Kind, asked: Method, result: PowerResult)

  /** Who is asked under a choice, in order. */
  function Candidates(choice: Choice): (kinds: seq<Kind>)
    ensures kinds != []
  {
    if choice.Auto? then [Cec, Ddc, Signal] else [choice.kind]
  }

  /** What a selection adds to the answers: probes of the candidates in order, all but the last plainly absent. */
  ghost predicate Probes(before: seq<Answer>, after: seq<Answer>, candidates: seq<Kind>) {
    && before <= after && |after| <= |before| + |candidates|
    && forall k :: |before| <= k < |after| ==>
         && after[k].asked == Probe && after[k].backend == candidates[k - |before|]
         && (k < |after| - 1 ==> after[k].result.status == Unavailable)
  }

  lemma ProbesNext(before: seq<Answer>, sofar: seq<Answer>, after: seq<Answer>, candidates: seq<Kind>)
    requires Probes(before, sofar, candidates) && before < sofar && |sofar| < |before| + |candidates|
    requires sofar[|sofar| - 1].result.status == Unavailable
    requires after == sofar
             || (|after| == |sofar| + 1 && after == sofar + [after[|sofar|]]
                 && after[|sofar|].asked == Probe && after[|sofar|].backend == candidates[|sofar| - |before|])
    ensures Probes(before, after, candidates)
  {
  }

  /** What a READY result was based on: a backend's answer, and the target at settlement. */
  datatype Evidence = Evidence(at: nat, active: bool)

  /** What a backend says it saw: the panel itself, or only its signal. */
  predicate Reads(r: PowerResult, power: Power) {
    (r.status == Physical && r.physical == power) || (r.status == SignalOnly && r.signal == power)
  }

  /** A backend that could not clean up after itself. */
  predicate Uncleaned(r: PowerResult) {
    r.cleanupFailed || r.status == CleanupFailed
  }

  /** Where policy wants the panel, over the fields: protection sleeps it, else a test decides, else the schedule. */
  predicate Wants(s: PanelStatus, power: Power) {
    && (s.protection ==> power == Off)
    && (!s.protection && s.diagnostic.Some? ==> power == if s.diagnostic.value then On else Off)
    && (!s.protection && s.diagnostic.None? ==> power == if s.operating then On else Off)
  }

  /** The panel was read to be there. */
  predicate Shown(s: PanelStatus, r: PowerResult) {
    forall power :: Wants(s, power) ==> Reads(r, power)
  }

  /** What is commanded and accepted towards the target is what policy wants. */
  lemma TargetIsPolicy(s: PanelStatus, answers: seq<Answer>, start: nat)
    ensures Directed(answers, start, Target(s)) ==> Obeys(s, answers, start)
    ensures forall r :: Matches(r, Target(s)) <==> Shown(s, r)
  {
    assert Wants(s, if Target(s) then On else Off);
  }

  /** What counts as a match is exactly being read where the target is. */
  lemma MatchIsReading(r: PowerResult, active: bool)
    ensures Matches(r, active) <==> Reads(r, if active then On else Off)
  {
  }

  /** Under `auto` all backends are candidates, physical ones first; a chosen one is alone. */
  lemma CandidatesInOrder(choice: Choice)
    ensures choice.Auto? ==> Candidates(choice) == [Cec, Ddc, Signal]
    ensures choice.Only? ==> Candidates(choice) == [choice.kind]
  {
  }

  /** The command towards a target. */
  function Towards(active: bool): Method {
    if active then RequestOn else RequestOff
  }

  /** What the first of some newer answers said, if there is one. */
  ghost function FirstAnswer(before: seq<Answer>, after: seq<Answer>): Option<PowerResult> {
    if |before| < |after| then Some(after[|before|].result) else None
  }

  /**
    An owner is kept while a wake is pending, after a command unless it is wanted active and read on, and
    while the choice is the same unless an uncommanded one under `auto` has plainly fallen away.
  */
  predicate Stays(active: bool, choice: Choice, before: Option<Choice>, commandIssued: bool, wakePending: bool,
                  seen: Option<PowerResult>)
  {
    || wakePending
    || (commandIssued && !(active && seen.Some? && Matches(seen.value, true)))
    || (before == Some(choice)
        && !(choice.Auto? && !commandIssued && seen.Some? && seen.value.status == Unavailable))
  }

  /** Nothing but reading. */
  ghost predicate OnlyReads(answers: seq<Answer>, start: nat) {
    forall k :: start <= k < |answers| ==> answers[k].asked in {Probe, Observe}
  }

  lemma MoreReads(before: nat, sofar: seq<Answer>, answers: seq<Answer>, candidates: seq<Kind>)
    requires before <= |sofar| && OnlyReads(sofar, before) && Probes(sofar, answers, candidates)
    ensures OnlyReads(answers, before)
  {
  }

  /** Nothing but reading, and commands in one direction. */
  ghost predicate Directed(answers: seq<Answer>, start: nat, active: bool) {
    forall k :: start <= k < |answers| ==> answers[k].asked in {Probe, Observe, Towards(active)}
  }

  /** Nothing against policy was commanded, in either direction. */
  ghost predicate Obeys(s: PanelStatus, answers: seq<Answer>, start: nat) {
    forall k :: start <= k < |answers| ==>
      && (answers[k].asked == RequestOn ==> Wants(s, On))
      && (answers[k].asked == RequestOff ==> Wants(s, Off))
  }

  /** Exactly the READY results have evidence, and the answer matches the target. */
  ghost predicate Proved(futures: seq<Option<Outcome>>, proof: map<nat, Evidence>, answers: seq<Answer>) {
    && (forall id :: 0 <= id < |futures| && futures[id] == Some(Ready) ==> id in proof)
    && forall id :: id in proof ==>
         && id < |futures| && futures[id] == Some(Ready)
         && proof[id].at < |answers| && Matches(answers[proof[id].at].result, proof[id].active)
  }

  /** What a pass may add to the evidence: the newest answer, if the pass brought one, given for its generation. */
  ghost predicate NewlyProved(before: map<nat, Evidence>, proof: map<nat, Evidence>, answers: seq<Answer>,
                              passStart: nat, generation: nat)
  {
    && (forall id :: id in before ==> id in proof && proof[id] == before[id])
    && forall id :: id in proof && id !in before ==>
         passStart < |answers| == proof[id].at + 1 && answers[|answers| - 1].generation == generation
  }

  class PanelCoordinator {
    // Under the lock.
    var shared: Shared
    // Worker-private.
    var selected: Option<Kind>
    var usable: bool
    var commandIssued: bool
    var selectionChoice: Option<Choice>
    var wakeReadyAt: Option<real>
    var wakePending: bool
    var passGeneration: nat
    var deadline: real
    var hand: Option<nat>  // a Future taken from `pending` and not yet given its result
    // History.
    ghost var asleep: set<Kind>           // sent request_off and not read back as on since
    ghost var answers: seq<Answer>        // everything the backends ever answered; only `Send` adds to it
    ghost var passStart: nat              // how many answers there were when this pass began
    ghost var ticks: nat                  // how many times `_tick` has run
    ghost var proof: map<nat, Evidence>   // for every READY Future

    /** The authority invariant: a sleeping panel belongs to the selected backend, under an issued command. */
    ghost predicate Owned()
      reads this
    {
      && asleep <= (if selected.Some? && commandIssued then {selected.value} else {})
      && (Signal in asleep && shared.failure.None? ==> shared.status.signalSleepOwned)
      && (selected.Some? && shared.failure.None? ==> shared.status.active == selected)
      && (wakeReadyAt.Some? ==> wakePending)
    }

    ghost predicate Valid()
      reads this
    {
      && Linear(shared, hand) && Owned() && Proved(shared.futures, proof, answers)
      && passGeneration <= shared.generation && passStart <= |answers|
    }

    /** The last answer there is, given in this pass and for its generation. */
    ghost predicate Read(result: PowerResult)
      reads this
    {
      passStart < |answers| && var last := answers[|answers| - 1];
      last.result == result && last.generation == passGeneration
    }

    /** What a backend call of this pass brings: the newest answer of the pass, or a cancellation once overtaken. */
    twostate predicate Asked(result: PowerResult)
      reads this
    {
      ((result.status == Cancelled && Overtaken()) || Read(result)) && old(answers) <= answers
    }

    /** What every worker step keeps. */
    twostate predicate Kept()
      reads this
    {
      Valid() && Follows(old(shared), shared)
    }

    /** Kept, and the pending Future has been left alone. */
    twostate predicate Still()
      reads this
    {
      Kept() && (shared.generation == old(shared.generation) ==> shared.pending == old(shared.pending))
    }

    constructor (now: real)
      ensures Valid() && hand.None? && asleep == {} && shared.futures == [] && answers == [] && ticks == 0
      ensures shared.status.operating && !shared.status.protection && shared.status.diagnostic.None? && !shared.stop
    {
      shared := Shared(PanelStatus(Starting, None, true, true, false, None, false, Unknown, Unknown),
                       None, 0, None, None, false, now, None, map[], []);
      selected, usable, commandIssued, selectionChoice := None, false, false, None;
      wakeReadyAt, wakePending, passGeneration, deadline, hand := None, false, 0, now, None;
      asleep, proof, answers, passStart, ticks := {}, map[], [], 0, 0;
    }

    /** While the signal backend sleeps and nothing has failed, the gate for output reconciliation stays closed. */
    lemma SleepingSignalIsIntentional()
      requires Valid() && Signal in asleep && shared.failure.None?
      ensures IntentionalSignalSleep(shared.status)
    {
    }

    // ------------------------------------------------------------------- clients

    /** `_intent` under the lock, by this very client: what AppliedIntent says of any. */
    method Intent(field: Field, value: bool) returns (future: nat)
      requires Valid() && shared.entered.None?
      modifies this`shared
      ensures Valid() && future == |old(shared.futures)|
      ensures shared == AppliedIntent(old(shared), field, value)
    {
      future := |shared.futures|;
      EnterKeepsLinear(shared, hand, field, value);
      if shared.stop {
        shared := Refuse(shared, Stopped);
      } else if field == Diagnostic && value && shared.status.protection {
        shared := Refuse(shared, Rejected);
      } else {
        shared := EnterIntent(shared, field, value);
        LeaveKeepsLinear(shared, hand);
        shared := LeaveIntent(shared);
      }
    }

    /** `_intent` behind the lock: the Future this client holds gets its result, whoever ran meanwhile. */
    method FinishIntent(id: nat)
      requires Valid() && id in shared.due
      modifies this`shared
      ensures Kept() && id !in shared.due && id < |shared.futures| && shared.futures[id] == Some(old(shared.due)[id])
    {
      Interfere();
      ghost var meanwhile := shared;
      SetClientResult(id);
      RelyFollows(meanwhile, shared);
      FollowsTransitive(old(shared), meanwhile, shared);
    }

    /** A client gives the Future it holds its result. */
    method SetClientResult(id: nat)
      requires Valid()
      modifies this`shared
      ensures Valid() && Rely(old(shared), shared) && id !in shared.due
      ensures id in old(shared.due) ==>
                id < |shared.futures| && shared.futures[id] == Some(old(shared.due)[id])
    {
      DeliverKeepsLinear(shared, hand, id);
      shared := DeliverResult(shared, id);
    }

    /** Any client steps, including one that stays inside the lock. */
    method Interfere()
      requires Valid()
      modifies this`shared
      ensures Kept() && Rely(old(shared), shared)
    {
      var n: nat := *;
      while n > 0
        invariant Valid() && Rely(old(shared), shared)
      {
        var e: Env := *;
        ghost var before := shared;
        Happen(e);
        RelyTransitive(old(shared), before, shared);
        n := n - 1;
      }
      RelyFollows(old(shared), shared);
    }

    /** One step of a client. */
    method Happen(e: Env)
      requires Valid()
      modifies this`shared
      ensures Valid() && Rely(old(shared), shared) && shared == Step(old(shared), e)
    {
      StepKeepsLinear(shared, hand, e);
      shared := Step(shared, e);
    }

    /** Wait for the lock: whoever was inside has left. */
    method Acquire()
      requires Valid()
      modifies this`shared
      ensures Kept() && Rely(old(shared), shared) && shared.entered.None?
    {
      Interfere();
      if shared.entered.Some? {
        ghost var before := shared;
        Happen(Leave);
        RelyTransitive(old(shared), before, shared);
        RelyFollows(old(shared), shared);
      }
    }

    // ------------------------------------------------------------------- the lock

    method ChangeStatus(c: Change)
      requires Valid() && shared.failure.None?
      requires c.signalSleepOwned == Some(false) ==> Signal !in asleep
      requires c.active.Some? ==> selected.None? || c.active.value == selected
      modifies this`shared
      ensures Valid() && shared == old(shared).(status := Changed(old(shared).status, c))
    {
      StatusKeepsLinear(shared, hand, Changed(shared.status, c));
      shared := shared.(status := Changed(shared.status, c));
    }

    /** `_publish`: dropped after a failure, or when the pass it speaks for has been superseded. */
    method Publish(generation: Option<nat>, c: Change)
      requires Valid()
      requires c.signalSleepOwned == Some(false) ==> Signal !in asleep
      requires c.active.Some? ==> selected.None? || c.active.value == selected
      modifies this`shared
      ensures Still() && shared.entered.None?
      ensures shared.failure.Some? || (generation.Some? && generation.value != shared.generation) ==>
                SameReport(old(shared.status), shared.status)
      ensures shared.failure.None? && (generation.None? || generation.value == shared.generation) ==>
                SameReport(Changed(old(shared.status), c), shared.status)
                && (c.state.Some? ==> shared.status.state == c.state.value)
      ensures shared.generation == old(shared.generation) ==> shared.pending == old(shared.pending)
      ensures old(shared.stop) && old(shared.entered).None? ==> shared.generation == old(shared.generation)
    {
      Acquire();
      ghost var held := shared;
      if shared.failure.None? && (generation.None? || generation.value == shared.generation) {
        ChangeStatus(c);
        assert shared.futures == held.futures && shared.pending == held.pending
               && SameIntents(held.status, shared.status);
      }
    }

    /** `_fatal`. */
    method Fatal(reason: Failure)
      requires Valid()
      modifies this`shared
      ensures Still() && shared.stop && shared.failure.Some? && shared.entered.None?
      ensures shared.status.state == ErrorPhase && SameReport(old(shared.status), shared.status)
      ensures shared.failure in {old(shared.failure), Some(ShutdownTimeout), Some(reason)}
    {
      Acquire();
      shared := Fail(shared, reason);
    }

    /**
      `_settle`: take the pending Future only if its generation is still current, then give it its result.
      READY needs the newest answer of this very pass to match the target.
    */
    method SettlePass(generation: nat, outcome: Outcome, ghost active: bool)
      requires Valid() && hand.None? && generation <= shared.generation
      requires outcome == Ready ==>
                 && passStart < |answers| && answers[|answers| - 1].generation == generation
                 && Matches(answers[|answers| - 1].result, active)
                 && (shared.generation == generation ==> Target(shared.status) == active)
      modifies this`shared, this`hand, this`proof
      ensures Kept() && hand.None? && SameReport(old(shared.status), shared.status)
      ensures StaysShown(old(shared), shared)
      ensures old(shared.stop) && old(shared.entered).None? ==>
                shared.generation == old(shared.generation) && shared.entered.None?
      ensures old(shared.stop) && old(shared.entered).None? && old(shared.generation) == generation ==>
                shared.pending.None? && shared.entered.None?
      ensures shared.generation == generation && old(shared.pending).Some? ==>
                shared.futures[old(shared.pending).value] == Some(outcome)
      ensures shared.generation == generation ==> shared.pending.None?
      ensures outcome != Ready ==> proof == old(proof)
      ensures NewlyProved(old(proof), proof, answers, passStart, generation)
      ensures forall id :: id in proof && id !in old(proof) ==>
                old(shared.generation) == generation && proof[id].active == active == Target(old(shared.status))
    {
      TakePending(generation);
      ghost var taken := shared;
      Give(outcome, active);
      FollowsTransitive(old(shared), taken, shared);
    }

    /** The locked half of `_settle`. */
    method TakePending(generation: nat)
      requires Valid() && hand.None? && generation <= shared.generation
      modifies this`shared, this`hand
      ensures Kept() && shared.entered.None? && SameReport(old(shared.status), shared.status)
      ensures StaysShown(old(shared), shared)
      ensures shared.generation == generation ==> shared.pending.None?
      ensures hand.Some? ==> shared.generation == generation
      ensures shared.generation == generation && old(shared.generation) == generation ==> hand == old(shared.pending)
      ensures old(shared.stop) && old(shared.entered).None? ==> shared.generation == old(shared.generation)
    {
      Acquire();
      if generation == shared.generation {
        hand := shared.pending;
        shared := shared.(pending := None);
      }
    }

    /** The unlocked half: the Future leaves the worker's hand with its one result, READY on the newest answer. */
    method Give(outcome: Outcome, ghost active: bool)
      requires Valid()
      requires outcome == Ready && hand.Some? ==>
                 answers != [] && Matches(answers[|answers| - 1].result, active)
      modifies this`shared, this`hand, this`proof
      ensures Kept() && hand.None?
      ensures old(hand).Some? ==> shared.futures[old(hand).value] == Some(outcome)
      ensures old(hand).None? ==> Rely(old(shared), shared)
      ensures SameReport(old(shared.status), shared.status) && StaysShown(old(shared), shared)
      ensures old(shared.stop) && old(shared.entered).None? ==>
                shared.generation == old(shared.generation) && shared.entered.None?
      ensures proof == if old(hand).Some? && outcome == Ready
                       then old(proof)[old(hand).value := Evidence(|answers| - 1, active)] else old(proof)
      ensures old(hand).Some? ==> old(hand).value !in old(proof)
      ensures shared.generation == old(shared.generation) ==>
                shared.pending == old(shared.pending) && shared.expires == old(shared.expires)
      ensures old(shared.stop) && old(shared.entered).None? && old(shared.pending).None? ==>
                shared.pending.None? && shared.entered.None?
    {
      Interfere();
      ghost var meanwhile := shared;
      if hand.Some? {
        SetResult(hand.value, outcome, active);
      }
      FollowsTransitive(old(shared), meanwhile, shared);
    }

    /** `set_result` on the Future in hand. */
    method SetResult(id: nat, outcome: Outcome, ghost active: bool)
      requires Valid() && hand == Some(id)
      requires outcome == Ready ==> answers != [] && Matches(answers[|answers| - 1].result, active)
      modifies this`shared, this`hand, this`proof
      ensures Kept() && hand.None? && id < |old(shared.futures)|
      ensures shared == PanelModel.Settle(old(shared), id, outcome)
      ensures id !in old(proof)
      ensures proof == if outcome == Ready then old(proof)[id := Evidence(|answers| - 1, active)] else old(proof)
    {
      assert shared.futures[id].None? by {
        assert Held(shared.pending, shared.entered, hand, shared.due, id);
      }
      SettleHand(shared, id, outcome);
      shared := PanelModel.Settle(shared, id, outcome);
      if outcome == Ready {
        proof := proof[id := Evidence(|answers| - 1, active)];
      }
      hand := None;
    }

    /**
      `_expire_test`. `seen` is what the lock shows: a test that has expired there ends under a new
      generation, nothing is pending in that generation, and the Future that was pending is superseded;
      otherwise nothing changes.
    */
    method ExpireTest() returns (ghost seen: Shared)
      requires Valid() && hand.None?
      modifies this`shared, this`hand, this`proof
      ensures Kept() && hand.None? && Rely(old(shared), seen) && proof == old(proof)
      ensures seen.generation + (if Expired(seen) then 1 else 0) <= shared.generation
      ensures Expired(seen) && shared.generation == seen.generation + 1 ==>
                shared.status.diagnostic.None? && shared.expires.None? && shared.pending.None?
      ensures Expired(seen) && seen.pending.Some? ==>
                seen.pending.value < |shared.futures| && shared.futures[seen.pending.value] == Some(Superseded)
      ensures !Expired(seen) ==> Rely(seen, shared)
    {
      Acquire();
      seen := shared;
      EndExpired();
      ghost var ended := shared;
      Give(Superseded, false);
      FollowsTransitive(seen, ended, shared);
      FollowsTransitive(old(shared), seen, shared);
    }

    /** Its locked part, the lock being held. */
    method EndExpired()
      requires Valid() && hand.None?
      modifies this`shared, this`hand
      ensures Kept() && shared == (if Expired(old(shared)) then EndTest(old(shared)) else old(shared))
      ensures hand == if Expired(old(shared)) then old(shared.pending) else None
    {
      if shared.expires.Some? && shared.now >= shared.expires.value {
        EndTestKeepsLinear(shared);
        hand := shared.pending;
        shared := EndTest(shared);
      } else {
        StillDue(shared, hand);
      }
    }

    /** `_target`: what this pass is for. */
    method BeginPass() returns (active: bool)
      requires Valid()
      modifies this`shared, this`passGeneration, this`passStart
      ensures Still() && passGeneration == shared.generation && active == Target(shared.status)
      ensures passStart == |answers| && shared.status.desired == active
    {
      Acquire();
      active := Target(shared.status);
      shared := shared.(status := shared.status.(desired := active));
      passGeneration, passStart := shared.generation, |answers|;
    }

    /** What `_cancelled` looks at. Once it holds for a pass it goes on holding. */
    ghost predicate Overtaken()
      reads this
    {
      shared.stop || shared.generation != passGeneration || shared.now >= deadline || Expired(shared)
    }

    /** `_cancelled`. */
    method IsCancelled() returns (cancelled: bool)
      requires Valid()
      modifies this`shared
      ensures Still() && SameReport(old(shared.status), shared.status)
      ensures cancelled <==> Overtaken()
      ensures Rely(old(shared), shared)
      ensures shared.generation == old(shared.generation) ==> shared.pending == old(shared.pending)
    {
      Acquire();
      cancelled := shared.stop || shared.generation != passGeneration || shared.now >= deadline
                   || (shared.expires.Some? && shared.now >= shared.expires.value);
    }

    // --------------------------------------------------------------- the backends

    /**
      `_call`: one backend operation, skipped when the pass is cancelled. Sending `request_off` puts the
      panel to sleep under that backend; only reading it back as on wakes it.
    */
    method Call(backend: Kind, m: Method) returns (result: PowerResult)
      requires Valid()
      requires m == RequestOff ==>
                 && selected == Some(backend) && commandIssued
                 && (shared.failure.None? && backend == Signal ==> shared.status.signalSleepOwned)
      requires m in {Probe, Observe} || selected == Some(backend)
      modifies this`shared, this`asleep, this`answers
      ensures Still() && SameReport(old(shared.status), shared.status)
      ensures result.backend == backend && Asked(result)
      ensures if answers == old(answers) then result.status == Cancelled && Overtaken()
              else answers == old(answers) + [Answer(passGeneration, backend, m, result)]
      ensures old(Overtaken()) ==> answers == old(answers)
      ensures if answers != old(answers) && Uncleaned(result) then shared.failure.Some?
              else TimedOut(old(shared.failure), shared.failure)
      ensures asleep <= old(asleep) + (if m == RequestOff then {backend} else {})
      ensures old(asleep) - {backend} <= asleep
      ensures Matches(result, true) ==> backend !in asleep
      ensures backend in old(asleep) && !Matches(result, true) ==> backend in asleep
    {
      var cancelled := IsCancelled();
      if cancelled {
        return PowerResult(backend, Cancelled, Unknown, Unknown, false);
      }
      ghost var before := shared;
      result := Send(backend, m);
      FollowsTransitive(old(shared), before, shared);
      ghost var sent := shared;
      CheckCleanup(result);
      FollowsTransitive(old(shared), sent, shared);
    }

    /** A backend that has left something behind ends the worker. */
    method CheckCleanup(result: PowerResult)
      requires Valid()
      modifies this`shared
      ensures Still() && SameReport(old(shared.status), shared.status)
      ensures if Uncleaned(result) then shared.failure.Some? else shared == old(shared)
    {
      StillDue(shared, hand);
      if result.cleanupFailed || result.status == CleanupFailed {
        Fatal(CleanupFailure);
      }
    }

    /** The backend runs, clients go on, and it answers anything. */
    method Send(backend: Kind, m: Method) returns (result: PowerResult)
      requires Valid()
      requires m == RequestOff ==>
                 && selected == Some(backend) && commandIssued
                 && (shared.failure.None? && backend == Signal ==> shared.status.signalSleepOwned)
      modifies this`shared, this`asleep, this`answers
      ensures Still() && SameReport(old(shared.status), shared.status)
      ensures Rely(old(shared), shared)
      ensures result.backend == backend && answers == old(answers) + [Answer(passGeneration, backend, m, result)]
      ensures asleep == (if Matches(result, true) then old(asleep) - {backend}
                         else old(asleep) + (if m == RequestOff then {backend} else {}))
    {
      Interfere();
      result := *;
      result := result.(backend := backend);
      Note(backend, m, result);
    }

    /** The history of a call: what was answered, and who sleeps now. */
    ghost method Note(backend: Kind, m: Method, result: PowerResult)
      requires Valid() && result.backend == backend
      requires m == RequestOff ==>
                 && selected == Some(backend) && commandIssued
                 && (shared.failure.None? && backend == Signal ==> shared.status.signalSleepOwned)
      modifies this`asleep, this`answers
      ensures Valid() && answers == old(answers) + [Answer(passGeneration, backend, m, result)]
      ensures asleep == (if Matches(result, true) then old(asleep) - {backend}
                         else old(asleep) + (if m == RequestOff then {backend} else {}))
    {
      answers := answers + [Answer(passGeneration, backend, m, result)];
      if Matches(result, true) {
        asleep := asleep - {backend};
      } else if m == RequestOff {
        asleep := asleep + {backend};
      }
    }

    /** One turn of `_select`: probe a candidate and adopt it unless it is plainly absent under `auto`. */
    method ProbeOne(backend: Kind, choice: Choice) returns (result: PowerResult, over: bool)
      requires Valid() && selected.None? && asleep == {}
      modifies this`shared, this`asleep, this`answers, this`selected, this`commandIssued, this`usable,
               this`selectionChoice
      ensures Still() && asleep == {} && result.backend == backend && Asked(result)
      ensures answers == old(answers) || answers == old(answers) + [Answer(passGeneration, backend, Probe, result)]
      ensures over && selected.None? ==> Overtaken()
      ensures answers == old(answers) ==> Overtaken()
      ensures old(Overtaken()) ==> answers == old(answers) && over
      ensures !over ==> selected.None? && result.status == Unavailable && choice.Auto? && answers != old(answers)
      ensures selected.Some? ==> selected == Some(backend) && !commandIssued && selectionChoice == Some(choice)
      ensures selected.Some? ==> result.status != Unavailable || !choice.Auto?
    {
      result := Call(backend, Probe);
      ghost var probed := shared;
      over := MayAdopt(backend, choice, result);
      FollowsTransitive(old(shared), probed, shared);
    }

    /** The candidate becomes the one owner unless it is plainly absent under `auto`. */
    method MayAdopt(backend: Kind, choice: Choice, result: PowerResult) returns (over: bool)
      requires Valid() && selected.None? && asleep == {}
      modifies this`shared, this`selected, this`commandIssued, this`usable, this`selectionChoice
      ensures Still()
      ensures over && selected.None? ==> Overtaken()
      ensures !over ==> selected.None? && result.status == Unavailable && choice.Auto? && !Overtaken()
      ensures selected.Some? ==> selected == Some(backend) && !commandIssued && selectionChoice == Some(choice)
      ensures selected.Some? ==> result.status != Unavailable || !choice.Auto?
    {
      over := IsCancelled();
      if !over && (result.status != Unavailable || !choice.Auto?) {
        over := true;
        ghost var asked := shared;
        Adopt(backend, choice, result.status in {Physical, SignalOnly});
        FollowsTransitive(old(shared), asked, shared);
      }
    }

    /** `selected` is the worker's own, so publishing it first is the same to every client. */
    method Adopt(backend: Kind, choice: Choice, works: bool)
      requires Valid() && selected.None? && asleep == {}
      modifies this`shared, this`selected, this`commandIssued, this`usable, this`selectionChoice
      ensures Still() && selected == Some(backend) && !commandIssued && selectionChoice == Some(choice)
                && usable == works
    {
      Publish(None, Change(None, Some(Some(backend)), None, None));
      Install(backend, choice, works);
    }

    method Install(backend: Kind, choice: Choice, works: bool)
      requires Valid() && asleep == {} && (shared.failure.Some? || shared.status.active == Some(backend))
      modifies this`selected, this`commandIssued, this`usable, this`selectionChoice
      ensures Valid() && selected == Some(backend) && !commandIssued && selectionChoice == Some(choice)
              && usable == works
    {
      selected, commandIssued, usable, selectionChoice := Some(backend), false, works, Some(choice);
    }

    /** A later turn of it, when all before were plainly absent. */
    method ProbeNext(backend: Kind, choice: Choice, ghost before: seq<Answer>, ghost candidates: seq<Kind>)
      returns (result: PowerResult, over: bool)
      requires Valid() && selected.None? && asleep == {}
      requires Probes(before, answers, candidates) && |before| < |answers| < |before| + |candidates|
      requires answers[|answers| - 1].result.status == Unavailable && backend == candidates[|answers| - |before|]
      modifies this`shared, this`asleep, this`answers, this`selected, this`commandIssued, this`usable,
               this`selectionChoice
      ensures Still() && asleep == {} && Asked(result) && Probes(before, answers, candidates)
      ensures over && selected.None? ==> Overtaken()
      ensures selected.Some? ==> selected == Some(result.backend) && !commandIssued && selectionChoice == Some(choice)
      ensures !over ==>
                && selected.None? && choice.Auto? && |answers| == |old(answers)| + 1
                && answers[|answers| - 1].result == result && result.status == Unavailable
    {
      result, over := ProbeOne(backend, choice);
      ProbesNext(before, old(answers), answers, candidates);
    }

    /**
      `_select`: probe in order; anything but a plain absence under `auto` becomes the one owner. It ends
      without one only if the pass is overtaken, or every candidate is plainly absent.
    */
    method Select(choice: Choice) returns (result: PowerResult)
      requires Valid() && selected.None? && asleep == {}
      modifies this`shared, this`asleep, this`answers, this`selected, this`commandIssued, this`usable,
               this`selectionChoice
      ensures Still() && asleep == {} && Asked(result) && Probes(old(answers), answers, Candidates(choice))
      ensures selected.Some? ==> selected == Some(result.backend) && !commandIssued && selectionChoice == Some(choice)
      ensures !Overtaken() ==> |answers| > |old(answers)|
      ensures old(Overtaken()) ==> answers == old(answers)
      ensures selected.None? && !Overtaken() ==>
                choice.Auto? && |answers| == |old(answers)| + 3 && result.status == Unavailable
    {
      var candidates := Candidates(choice);
      var over;
      result, over := ProbeOne(candidates[0], choice);
      var i := 1;
      while i < |candidates| && !over
        invariant Still() && asleep == {} && Asked(result) && 0 < i <= |candidates|
        invariant Probes(old(answers), answers, candidates)
        invariant !over ==> selected.None? && result.status == Unavailable && |answers| == |old(answers)| + i
        invariant !over ==> choice.Auto? && answers[|answers| - 1].result == result
        invariant over && selected.None? ==> Overtaken()
        invariant |answers| > |old(answers)| || Overtaken()
        invariant old(Overtaken()) ==> over && answers == old(answers)
        invariant selected.Some? ==>
                  selected == Some(result.backend) && !commandIssued
                  && selectionChoice == Some(choice)
      {
        ghost var before := shared;
        result, over := ProbeNext(candidates[i], choice, old(answers), candidates);
        FollowsTransitive(old(shared), before, shared);
        i := i + 1;
      }
    }

    /** The first half of `_reconcile`: read the owner, or hand over to another one only when nothing sleeps. */
    method Consult(active: bool, choice: Choice) returns (result: PowerResult)
      requires Valid()
      modifies this`shared, this`asleep, this`answers, this`selected, this`commandIssued, this`usable,
               this`selectionChoice
      ensures Still() && Asked(result) && OnlyReads(answers, |old(answers)|)
      ensures selected.Some? ==> selected == Some(result.backend)
      ensures old(selected).Some? ==>
                if Stays(active, choice, old(selectionChoice), old(commandIssued), old(wakePending),
                         FirstAnswer(old(answers), answers))
                then selected == old(selected) && |answers| <= |old(answers)| + 1
                else Overtaken() || |answers| > |old(answers)| + 1
      ensures old(Overtaken()) ==> answers == old(answers)
      ensures asleep <= old(asleep)
      ensures selected != old(selected) ==> asleep == {} && (active || old(asleep) == {})
      ensures Matches(result, true) ==> result.backend !in asleep
    {
      if selected.None? {
        result := Select(choice);
        MoreReads(|old(answers)|, old(answers), answers, Candidates(choice));
      } else {
        result := Reread(active, choice);
      }
    }

    /** The owner is read, and given up for another one only if it may be. */
    method Reread(active: bool, choice: Choice) returns (result: PowerResult)
      requires Valid() && selected.Some?
      modifies this`shared, this`asleep, this`answers, this`selected, this`commandIssued, this`usable,
               this`selectionChoice
      ensures Still() && Asked(result) && OnlyReads(answers, |old(answers)|)
      ensures selected.Some? ==> selected == Some(result.backend)
      ensures if Stays(active, choice, old(selectionChoice), old(commandIssued), wakePending,
                       FirstAnswer(old(answers), answers))
              then selected == old(selected) && |answers| <= |old(answers)| + 1
              else asleep == {} && (active || old(asleep) == {}) && (Overtaken() || |answers| > |old(answers)| + 1)
      ensures old(Overtaken()) ==> answers == old(answers)
      ensures asleep <= old(asleep) && (Matches(result, true) ==> result.backend !in asleep)
    {
      result := Call(selected.value, Observe);
      var otherChoice := selectionChoice != Some(choice);
      var fellAway := choice.Auto? && !commandIssued && result.status == Unavailable;
      if (otherChoice || fellAway) && !wakePending && (!commandIssued || (active && Matches(result, true))) {
        ghost var observed, sofar := shared, answers;
        result := Replace(choice);
        FollowsTransitive(old(shared), observed, shared);
        MoreReads(|old(answers)|, sofar, answers, Candidates(choice));
        assert FirstAnswer(old(answers), answers) == FirstAnswer(old(answers), sofar);
      }
    }

    /** The owner is given up, nothing sleeping under it, and another one is sought. */
    method Replace(choice: Choice) returns (result: PowerResult)
      requires Valid() && asleep == {} && !wakePending
      modifies this`shared, this`asleep, this`answers, this`selected, this`commandIssued, this`usable,
               this`selectionChoice
      ensures Still() && asleep == {} && Asked(result) && Probes(old(answers), answers, Candidates(choice))
      ensures selected.Some? ==> selected == Some(result.backend)
      ensures !Overtaken() ==> |answers| > |old(answers)|
      ensures old(Overtaken()) ==> answers == old(answers)
    {
      selected := None;
      result := Select(choice);
    }

    /**
      The second half of `_reconcile`: command the owner unless it already matches; sleep only under owned
      authority.
    */
    method Command(active: bool, consulted: PowerResult) returns (result: PowerResult)
      requires Valid()
      requires selected.Some? ==> selected == Some(consulted.backend)
      requires Matches(consulted, true) ==> consulted.backend !in asleep
      requires Read(consulted)
      modifies this`shared, this`asleep, this`answers, this`commandIssued, this`usable, this`wakePending,
               this`wakeReadyAt
      ensures Still() && Asked(result)
      ensures if !(selected.Some? && !Matches(consulted, active) && usable && consulted.status != Cancelled)
              then result == consulted && answers == old(answers)
              else && commandIssued && wakePending == active && wakeReadyAt.None?
                   && if answers == old(answers) then result.status == Cancelled && Overtaken()
                      else answers == old(answers) + [Answer(passGeneration, selected.value, Towards(active), result)]
      ensures usable == (old(usable) || consulted.status in {Physical, SignalOnly})
      ensures Matches(result, true) ==> result.backend !in asleep
      ensures active ==> asleep <= old(asleep)
    {
      result := consulted;
      if result.status in {Physical, SignalOnly} {
        usable := true;
      }
      if selected.Some? && !Matches(result, active) && usable && result.status != Cancelled {
        ClaimSleep(active);
        ghost var claimed := shared;
        result := Order(active);
        FollowsTransitive(old(shared), claimed, shared);
      }
    }

    /** The command itself, under authority that is marked as issued before it is sent. */
    method Order(active: bool) returns (result: PowerResult)
      requires Valid() && selected.Some?
      requires !active && selected == Some(Signal) && shared.failure.None? ==> shared.status.signalSleepOwned
      modifies this`shared, this`asleep, this`answers, this`commandIssued, this`wakePending, this`wakeReadyAt
      ensures Still() && Some(result.backend) == selected && Asked(result) && commandIssued
      ensures wakePending == active && wakeReadyAt.None?
      ensures old(Overtaken()) ==> answers == old(answers)
      ensures if answers == old(answers) then result.status == Cancelled && Overtaken()
              else answers == old(answers) + [Answer(passGeneration, selected.value, Towards(active), result)]
      ensures Matches(result, true) ==> result.backend !in asleep
      ensures active ==> asleep <= old(asleep)
    {
      commandIssued, wakeReadyAt := true, None;
      wakePending := active;
      result := Call(selected.value, Towards(active));
    }

    /**
      What a pass comes to unless it is overtaken: a verdict on a backend's newest answer; and a usable owner
      that is not where it should be has been commanded there, last of all.
    */
    ghost predicate Tried(active: bool, ready: Option<bool>, result: PowerResult)
      reads this
    {
      !Overtaken() ==>
        && (ready.Some? ==> ready.value == Matches(result, active) && (ready.value ==> !wakePending))
        && (ready.None? ==> Matches(result, active) && wakePending)
        && (!Matches(result, active) && selected.Some? && usable && result.status != Cancelled ==>
              answers != [] && answers[|answers| - 1].asked == Towards(active))
    }

    /**
      A pass that was not overtaken rests on what a backend last answered it: shown is whether that is where
      policy wants the panel, and a usable owner that is not there was last commanded.
    */
    ghost predicate Verdict()
      reads this
    {
      passStart < |answers| && var last := answers[|answers| - 1];
      && last.generation == passGeneration
      && (Shown(shared.status, last.result) || selected.None? || !usable || last.result.status == Cancelled
          || last.asked in {RequestOn, RequestOff})
      && (shared.failure.None? ==>
            shared.status.state in {if !Shown(shared.status, last.result) then DegradedPhase
                                    else if wakePending then Starting else ReadyPhase, Stopping})
    }

    /**
      The intent that was pending has its result: READY if the panel was shown, degraded if not; it waits on
      while a wake settles.
    */
    ghost predicate Served(before: Option<nat>)
      reads this
    {
      passStart < |answers| && var shown := Shown(shared.status, answers[|answers| - 1].result);
      if shown && wakePending then shared.pending == before
      else
        && shared.pending.None?
        && (before.Some? ==>
              && before.value < |shared.futures|
              && shared.futures[before.value] == Some(if shown then Ready else DegradedOutcome))
    }

    /** Putting the signal backend to sleep is announced before it happens. */
    method ClaimSleep(active: bool)
      requires Valid() && selected.Some?
      modifies this`shared
      ensures Still()
      ensures !active && selected == Some(Signal) && shared.failure.None? ==> shared.status.signalSleepOwned
      ensures active || selected != Some(Signal) ==> shared == old(shared)
    {
      if selected == Some(Signal) && !active {
        Publish(None, Change(None, None, Some(true), None));
      }
    }

    /**
      `_readiness`: matched evidence is ready once a wake has settled for its delay; `None` while it
      has not. The delay runs from the first matching readback.
    */
    method Readiness(result: PowerResult, active: bool, wakeDelay: real) returns (ready: Option<bool>)
      requires Valid()
      requires Matches(result, true) ==> result.backend !in asleep
      modifies this`shared, this`wakePending, this`wakeReadyAt
      ensures Still()
      ensures ready == Some(true) ==> Matches(result, active)
      ensures ready.Some? ==> ready.value == Matches(result, active) && (ready.value ==> !wakePending)
      ensures ready == Some(true) && active && old(wakePending) && old(wakeReadyAt).Some? ==>
                shared.now >= old(wakeReadyAt).value
      ensures ready.None? ==> active && Matches(result, active) && wakePending && wakeReadyAt.Some?
      ensures shared.failure.None? && shared.generation == passGeneration ==> shared.status.state == StateOf(ready)
      ensures shared.failure.None? && Matches(result, active) && active && result.backend == Signal ==>
                !shared.status.signalSleepOwned
      ensures SameReport(old(shared.status).(signalSleepOwned := shared.status.signalSleepOwned), shared.status)
    {
      var matched := Matches(result, active);
      Disown(matched && active && result.backend == Signal);
      ghost var disowned := shared;
      var waiting := Settling(matched, active, wakeDelay);
      FollowsTransitive(old(shared), disowned, shared);
      ghost var settled := shared;
      var state := if waiting then Starting else if matched then ReadyPhase else DegradedPhase;
      Publish(Some(passGeneration), Change(Some(state), None, None, None));
      FollowsTransitive(old(shared), settled, shared);
      ready := if waiting then None else Some(matched);
    }

    /** The state a verdict is shown as. */
    function StateOf(ready: Option<bool>): Phase {
      if ready.None? then Starting else if ready.value then ReadyPhase else DegradedPhase
    }

    /** A signal that is read back as on is no longer asleep under this backend. */
    method Disown(awake: bool)
      requires Valid() && (awake ==> Signal !in asleep)
      modifies this`shared
      ensures Still() && (awake && shared.failure.None? ==> !shared.status.signalSleepOwned)
      ensures SameReport(old(shared.status).(signalSleepOwned := shared.status.signalSleepOwned), shared.status)
    {
      if awake {
        Publish(None, Change(None, None, Some(false), None));
      }
    }

    /** The wake timer of `_readiness`: started by the first match after a wake, restarted by a mismatch. */
    method Settling(matched: bool, active: bool, wakeDelay: real) returns (waiting: bool)
      requires Valid()
      modifies this`shared, this`wakePending, this`wakeReadyAt
      ensures Still() && SameReport(old(shared.status), shared.status)
      ensures waiting ==> matched && active && wakePending && wakeReadyAt.Some? && shared.now < wakeReadyAt.value
      ensures !active ==> !wakePending
      ensures active && !matched ==> wakePending == old(wakePending) && wakeReadyAt.None?
      ensures matched && active && !waiting ==> !wakePending
      ensures matched && active && !waiting && old(wakeReadyAt).Some? ==> shared.now >= old(wakeReadyAt).value
      ensures waiting && old(wakeReadyAt).Some? ==> wakeReadyAt == old(wakeReadyAt)
    {
      waiting := false;
      Interfere();
      ghost var before := shared;
      SetTimer(matched, active, wakeDelay);
      if matched && active && wakeReadyAt.Some? {
        waiting := AwaitTimer();
        FollowsTransitive(old(shared), before, shared);
      }
    }

    /** A running wake timer is looked at, and done with once it is over. */
    method AwaitTimer() returns (waiting: bool)
      requires Valid() && wakeReadyAt.Some?
      modifies this`shared, this`wakePending, this`wakeReadyAt
      ensures Still() && SameReport(old(shared.status), shared.status)
      ensures if waiting then wakeReadyAt == old(wakeReadyAt) && wakePending && shared.now < wakeReadyAt.value
              else wakeReadyAt.None? && !wakePending && shared.now >= old(wakeReadyAt).value
    {
      Interfere();
      waiting := shared.now < wakeReadyAt.value;
      if !waiting {
        wakeReadyAt, wakePending := None, false;
      }
    }

    method SetTimer(matched: bool, active: bool, wakeDelay: real)
      requires Valid()
      modifies this`wakePending, this`wakeReadyAt
      ensures Valid()
      ensures !active ==> !wakePending && wakeReadyAt.None?
      ensures active ==> wakePending == old(wakePending)
      ensures active && !matched ==> wakeReadyAt.None?
      ensures active && matched && old(wakeReadyAt).Some? ==> wakeReadyAt == old(wakeReadyAt)
      ensures active && matched && old(wakeReadyAt).None? ==>
                wakeReadyAt == if wakePending then Some(shared.now + wakeDelay) else None
    {
      if !active {
        wakePending, wakeReadyAt := false, None;
      } else if !matched {
        wakeReadyAt := None;
      } else if wakePending && wakeReadyAt.None? {
        wakeReadyAt := Some(shared.now + wakeDelay);
      }
    }

    /** `_reconcile`: one owner is read, perhaps replaced, perhaps commanded; its last answer is what counts. */
    method Reconcile(active: bool, choice: Choice, wakeDelay: real) returns (ready: Option<bool>, result: PowerResult)
      requires Valid()
      modifies this`shared, this`asleep, this`answers, this`selected, this`commandIssued, this`usable,
               this`selectionChoice, this`wakePending, this`wakeReadyAt
      ensures Still() && Asked(result)
      ensures (ready == Some(true) ==> Matches(result, active)) && (ready.None? ==> wakePending)
      ensures Tried(active, ready, result) && Directed(answers, |old(answers)|, active)
      ensures shared.failure.None? && !Overtaken() ==> Reported(ready, result)
      ensures selected != old(selected) ==> active || old(asleep) == {}
      ensures selected != old(selected) && active ==> asleep == {}
    {
      result := Consult(active, choice);
      ghost var consulted := shared;
      ready, result := ActUnlessCancelled(active, result, wakeDelay);
      FollowsTransitive(old(shared), consulted, shared);
    }

    /** Nothing is commanded once the pass is overtaken. */
    method ActUnlessCancelled(active: bool, consulted: PowerResult, wakeDelay: real)
      returns (ready: Option<bool>, result: PowerResult)
      requires Valid() && (selected.Some? ==> selected == Some(consulted.backend))
      requires Matches(consulted, true) ==> consulted.backend !in asleep
      requires (consulted.status == Cancelled && Overtaken()) || Read(consulted)
      modifies this`shared, this`asleep, this`answers, this`commandIssued, this`usable, this`wakePending,
               this`wakeReadyAt
      ensures Still() && Asked(result)
      ensures (ready == Some(true) ==> Matches(result, active)) && (ready.None? ==> wakePending)
      ensures Tried(active, ready, result) && Directed(answers, |old(answers)|, active)
      ensures shared.failure.None? && !Overtaken() ==> Reported(ready, result)
      ensures active ==> asleep <= old(asleep)
    {
      var cancelled := IsCancelled();
      if cancelled {
        return Some(false), consulted;
      }
      ghost var asked := shared;
      ready, result := Act(active, consulted, wakeDelay);
      FollowsTransitive(old(shared), asked, shared);
    }

    method Act(active: bool, consulted: PowerResult, wakeDelay: real) returns (ready: Option<bool>, result: PowerResult)
      requires Valid()
      requires !Overtaken() && (selected.Some? ==> selected == Some(consulted.backend))
      requires Matches(consulted, true) ==> consulted.backend !in asleep
      requires Read(consulted)
      modifies this`shared, this`asleep, this`answers, this`commandIssued, this`usable, this`wakePending,
               this`wakeReadyAt
      ensures Still() && Asked(result)
      ensures (ready == Some(true) ==> Matches(result, active)) && (ready.None? ==> wakePending)
      ensures Tried(active, ready, result) && Directed(answers, |old(answers)|, active)
      ensures shared.failure.None? && !Overtaken() ==> Reported(ready, result)
      ensures active ==> asleep <= old(asleep)
    {
      result := Command(active, consulted);
      ghost var commanded := shared;
      ready := Assess(active, result, wakeDelay);
      FollowsTransitive(old(shared), commanded, shared);
    }

    /** The end of `_reconcile`: nothing when cancelled, otherwise the readback published and judged. */
    method Assess(active: bool, result: PowerResult, wakeDelay: real) returns (ready: Option<bool>)
      requires Valid()
      requires Matches(result, true) ==> result.backend !in asleep
      modifies this`shared, this`wakePending, this`wakeReadyAt
      ensures Still() && (ready == Some(true) ==> Matches(result, active)) && (ready.None? ==> wakePending)
      ensures ready.Some? ==> ready.value == Matches(result, active) || Overtaken()
      ensures (ready.Some? && ready.value ==> !wakePending) && (ready.None? ==> Matches(result, active))
      ensures shared.failure.None? && !Overtaken() ==> Reported(ready, result)
    {
      var cancelled := IsCancelled();
      if cancelled {
        return Some(false);
      }
      ghost var asked := shared;
      ready := Report(active, result, wakeDelay);
      FollowsTransitive(old(shared), asked, shared);
    }

    /** What everybody is shown: the owner, what it read back, and the verdict. */
    ghost predicate Reported(ready: Option<bool>, result: PowerResult)
      reads this
    {
      && shared.status.active == selected && shared.status.physical == result.physical
      && shared.status.signal == result.signal && shared.status.state == StateOf(ready)
    }

    /** The readback is published before it is judged. */
    method Report(active: bool, result: PowerResult, wakeDelay: real) returns (ready: Option<bool>)
      requires Valid()
      requires !Overtaken() && (Matches(result, true) ==> result.backend !in asleep)
      modifies this`shared, this`wakePending, this`wakeReadyAt
      ensures Still() && (ready == Some(true) ==> Matches(result, active)) && (ready.None? ==> wakePending)
      ensures ready.Some? ==> ready.value == Matches(result, active)
      ensures (ready.Some? && ready.value ==> !wakePending) && (ready.None? ==> Matches(result, active))
      ensures shared.failure.None? && shared.generation == passGeneration ==> Reported(ready, result)
    {
      Publish(Some(passGeneration), Change(None, Some(selected), None, Some((result.physical, result.signal))));
      ghost var published := shared;
      ready := Readiness(result, active, wakeDelay);
      FollowsTransitive(old(shared), published, shared);
    }

    // -------------------------------------------------------------------- the loop

    /**
      `_tick`. A Future it makes READY rests on the newest answer of this very pass, which matches the
      target policy asked for at settlement; and unless it is overtaken the pass leaves nothing pending,
      except while a wake is settling.
    */
    method Tick(settings: Option<(Choice, real)>)
      requires Valid() && hand.None?
      modifies this
      ensures Kept() && hand.None? && old(answers) <= answers && (settings.None? ==> proof == old(proof))
      ensures old(Expired(shared)) ==> old(shared.generation) < shared.generation
      ensures old(shared.now) + 15.0 <= deadline <= shared.now + 15.0
      ensures settings.None? && shared.generation == old(shared.generation) ==>
                && shared.pending.None?
                && (old(shared.pending).Some? ==>
                      shared.futures[old(shared.pending).value] == Some(DegradedOutcome))
      ensures ticks == old(ticks) + 1
      ensures settings.Some? ==>
                |old(answers)| <= passStart && NewlyProved(old(proof), proof, answers, passStart, passGeneration)
      ensures settings.Some? && shared.generation == passGeneration && !shared.stop && !Expired(shared) ==>
                shared.pending.None? || wakePending
      ensures settings.Some? && !Overtaken() ==> Verdict()
      ensures settings.Some? && !Overtaken() && shared.generation == old(shared.generation) ==>
                Served(old(shared.pending))
      ensures settings.Some? && shared.generation == passGeneration ==>
                && Obeys(shared.status, answers, passStart)
                && forall id :: id in proof && id !in old(proof) ==> Shown(shared.status, answers[proof[id].at].result)
      ensures settings.None? && shared.generation == old(shared.generation) && shared.failure.None? ==>
                shared.status.state in {DegradedPhase, Stopping}
    {
      OpenTick();
      ghost var expired := shared;
      if settings.None? {
        SettingsUnavailable();
      } else {
        Pass(settings.value.0, settings.value.1);
      }
      FollowsTransitive(old(shared), expired, shared);
    }

    /** The deadline of a pass, and the end of a test that is over. */
    method OpenTick()
      requires Valid() && hand.None?
      modifies this`shared, this`hand, this`proof, this`deadline, this`ticks
      ensures Kept() && hand.None? && proof == old(proof) && ticks == old(ticks) + 1
      ensures old(shared.now) + POLL_SECONDS <= deadline <= shared.now + POLL_SECONDS
      ensures old(Expired(shared)) ==> old(shared.generation) < shared.generation
      ensures shared.generation == old(shared.generation) ==> shared.pending == old(shared.pending)
    {
      ticks := ticks + 1;
      Interfere();
      deadline := shared.now + POLL_SECONDS;
      ghost var began := shared;
      ghost var seen := ExpireTest();
      FollowsTransitive(old(shared), began, shared);
    }

    /** The handler of a failed settings read. */
    method SettingsUnavailable()
      requires Valid() && hand.None?
      modifies this`shared, this`hand, this`proof
      ensures Kept() && hand.None? && proof == old(proof)
      ensures shared.generation == old(shared.generation) ==>
                && shared.pending.None?
                && (old(shared.pending).Some? ==>
                      shared.futures[old(shared.pending).value] == Some(DegradedOutcome))
      ensures shared.generation == old(shared.generation) && shared.failure.None? ==>
                shared.status.state in {DegradedPhase, Stopping}
    {
      Publish(None, Change(Some(DegradedPhase), None, None, None));
      ghost var published := shared;
      var generation := shared.generation;
      SettlePass(generation, DegradedOutcome, false);
      FollowsTransitive(old(shared), published, shared);
    }

    /** The part of `_tick` behind the settings read. */
    method Pass(choice: Choice, wakeDelay: real)
      requires Valid() && hand.None?
      modifies this`shared, this`asleep, this`answers, this`selected, this`commandIssued, this`usable,
               this`selectionChoice, this`wakePending, this`wakeReadyAt, this`hand, this`proof,
               this`passGeneration, this`passStart
      ensures Kept() && hand.None? && old(answers) <= answers
      ensures |old(answers)| <= passStart && NewlyProved(old(proof), proof, answers, passStart, passGeneration)
      ensures shared.generation == passGeneration && !shared.stop && !Expired(shared) ==>
                shared.pending.None? || wakePending
      ensures !Overtaken() ==> Verdict()
      ensures !Overtaken() && shared.generation == old(shared.generation) ==> Served(old(shared.pending))
      ensures shared.generation == passGeneration ==>
                && Obeys(shared.status, answers, passStart)
                && forall id :: id in proof && id !in old(proof) ==> Shown(shared.status, answers[proof[id].at].result)
    {
      var active, ready, result := ReconcilePass(choice, wakeDelay);
      ghost var reconciled := shared;
      JudgeShown(active, ready, result);
      FollowsTransitive(old(shared), reconciled, shared);
    }

    /** Judging, in terms of what policy wants. */
    method JudgeShown(active: bool, ready: Option<bool>, result: PowerResult)
      requires Valid() && hand.None? && (ready == Some(true) ==> Matches(result, active))
      requires (result.status == Cancelled && Overtaken()) || Read(result)
      requires shared.generation == passGeneration ==> Target(shared.status) == active
      requires Tried(active, ready, result) && passStart <= |answers| && Directed(answers, passStart, active)
      requires shared.failure.None? && !Overtaken() ==> shared.status.state == StateOf(ready)
      requires ready.None? ==> wakePending
      modifies this`shared, this`hand, this`proof
      ensures Kept() && hand.None?
      ensures NewlyProved(old(proof), proof, answers, passStart, passGeneration)
      ensures shared.generation == passGeneration && !shared.stop && !Expired(shared) ==>
                shared.pending.None? || wakePending
      ensures !Overtaken() ==> Verdict() && Served(old(shared.pending))
      ensures shared.generation == passGeneration ==>
                && Obeys(shared.status, answers, passStart)
                && forall id :: id in proof && id !in old(proof) ==> Shown(shared.status, answers[proof[id].at].result)
    {
      Judge(active, ready, result);
      TargetIsPolicy(shared.status, answers, passStart);
      if !Overtaken() {
        VerdictOf(active, ready, result);
      }
    }

    lemma VerdictOf(active: bool, ready: Option<bool>, result: PowerResult)
      requires !Overtaken() && Read(result) && Tried(active, ready, result) && active == Target(shared.status)
      requires shared.failure.None? ==> shared.status.state in {StateOf(ready), Stopping}
      ensures Verdict()
    {
      TargetIsPolicy(shared.status, answers, passStart);
    }

    /** A pass up to its verdict. */
    method ReconcilePass(choice: Choice, wakeDelay: real)
      returns (active: bool, ready: Option<bool>, result: PowerResult)
      requires Valid()
      modifies this`shared, this`asleep, this`answers, this`selected, this`commandIssued, this`usable,
               this`selectionChoice, this`wakePending, this`wakeReadyAt, this`passGeneration, this`passStart
      ensures Still() && Asked(result) && Tried(active, ready, result)
      ensures shared.failure.None? && !Overtaken() ==> shared.status.state == StateOf(ready)
      ensures passStart == |old(answers)| && old(answers) <= answers && Directed(answers, passStart, active)
      ensures shared.generation == passGeneration ==> Target(shared.status) == active
      ensures (ready == Some(true) ==> Matches(result, active)) && (ready.None? ==> wakePending)
    {
      active := OpenPass();
      ghost var begun := shared;
      ready, result := Reconcile(active, choice, wakeDelay);
      FollowsTransitive(old(shared), begun, shared);
    }

    /** The configured backend is shown, and the target taken. */
    method OpenPass() returns (active: bool)
      requires Valid()
      modifies this`shared, this`passGeneration, this`passStart
      ensures Still() && passGeneration == shared.generation && active == Target(shared.status)
      ensures passStart == |answers|
    {
      Publish(None, Change(None, None, None, None));
      ghost var published := shared;
      active := BeginPass();
      FollowsTransitive(old(shared), published, shared);
    }

    /** What a pass comes to: nothing when overtaken, a timeout, or the Future of its generation settled. */
    method Judge(active: bool, ready: Option<bool>, result: PowerResult)
      requires Valid() && hand.None? && (ready == Some(true) ==> Matches(result, active))
      requires result.status == Cancelled || Read(result)
      requires shared.generation == passGeneration ==> Target(shared.status) == active
      modifies this`shared, this`hand, this`proof
      ensures Kept() && hand.None?
      ensures NewlyProved(old(proof), proof, answers, passStart, passGeneration)
      ensures forall id :: id in proof && id !in old(proof) ==> proof[id].active == active
      ensures old(Overtaken()) && shared.now < deadline ==> Rely(old(shared), shared)
      ensures old(Overtaken()) ==> proof == old(proof)
      ensures !Overtaken() && shared.failure.None? ==> shared.status.state in {old(shared.status.state), Stopping}
      ensures !Overtaken() && ready.None? ==> shared.pending == old(shared.pending)
      ensures old(shared.now) >= deadline && shared.generation == passGeneration && old(shared.pending).Some? ==>
                shared.futures[old(shared.pending).value] == Some(DegradedOutcome)
      ensures ready.Some? && shared.generation == passGeneration && !shared.stop && !Expired(shared) ==>
                && shared.pending.None?
                && (old(shared.pending).Some? && shared.now < deadline ==>
                      shared.futures[old(shared.pending).value] ==
                      Some(if ready.value then Ready else DegradedOutcome))
    {
      var generation := passGeneration;
      var cancelled := IsCancelled();
      ghost var asked := shared;
      if cancelled {
        TimeOut(active);
      } else if ready.Some? {
        SettlePass(generation, if ready.value then Ready else DegradedOutcome, active);
      }
      FollowsTransitive(old(shared), asked, shared);
    }

    /** A cancelled pass past its deadline publishes that nothing is known, and degrades. */
    method TimeOut(active: bool)
      requires Valid() && hand.None?
      modifies this`shared, this`hand, this`proof
      ensures Kept() && hand.None? && proof == old(proof)
      ensures old(shared.now) >= deadline && shared.generation == passGeneration ==>
                && shared.pending.None?
                && (shared.failure.None? ==> shared.status.physical == shared.status.signal == Unknown)
                && (old(shared.pending).Some? ==>
                      shared.futures[old(shared.pending).value] == Some(DegradedOutcome))
      ensures shared.now < deadline ==> Rely(old(shared), shared)
    {
      Interfere();
      ghost var looked := shared;
      if shared.now >= deadline {
        Publish(Some(passGeneration), Change(Some(DegradedPhase), None, None, Some((Unknown, Unknown))));
        FollowsTransitive(old(shared), looked, shared);
        ghost var published := shared;
        SettlePass(passGeneration, DegradedOutcome, active);
        FollowsTransitive(old(shared), published, shared);
      }
    }

    // --------------------------------------------------------------- start to finish

    /**
      `_run`, for any number of passes. Once it has ended - the stop event seen, or a pass having raised -
      no Future is pending or in the worker's hand: whatever is unresolved is held by a client that has
      left the lock, and gets the result it is held for.
    */
    method Run(rounds: nat) returns (ended: bool)
      requires Valid() && hand.None?
      modifies this
      ensures Valid() && hand.None? && Final(old(shared.futures), shared.futures)
      ensures Delivered(old(shared.due), shared.due, shared.futures)
      ensures ended ==> Quiescent(shared)
      ensures ended || ticks == old(ticks) + rounds
    {
      var n := 0;
      ended := false;
      while n < rounds && !ended
        invariant Kept() && hand.None?
        invariant ended ==> shared.stop
        invariant !ended ==> n <= rounds && ticks == old(ticks) + n
      {
        ghost var before := shared;
        ended := Round();
        FollowsTransitive(old(shared), before, shared);
        n := n + 1;
      }
      if ended {
        Finish();
      }
    }

    /** One round of the loop: the stop event seen, something raised, or a pass. */
    method Round() returns (ended: bool)
      requires Valid() && hand.None?
      modifies this
      ensures Kept() && hand.None? && (ended ==> shared.stop)
      ensures ticks == old(ticks) + (if ended then 0 else 1)
      ensures old(shared.stop) ==> ended && Rely(old(shared), shared)
    {
      Interfere();
      ghost var met := shared;
      ended := true;
      if !shared.stop {
        if * {
          Fatal(WorkerFailure);
        } else {
          var settings: Option<(Choice, real)> := *;
          Tick(settings);
          ended := false;
        }
      }
      FollowsTransitive(old(shared), met, shared);
    }

    /** The `finally` of `_run`: the publication passes through the lock, so no client is still inside it. */
    method Finish()
      requires Valid() && hand.None? && shared.stop
      modifies this`shared, this`hand, this`proof
      ensures Valid() && hand.None? && Final(old(shared.futures), shared.futures)
      ensures Delivered(old(shared.due), shared.due, shared.futures) && Quiescent(shared)
      ensures shared.failure.None? ==> shared.status.state == StoppedPhase && shared.status.diagnostic.None?
      ensures old(shared.entered).None? && old(shared.pending).Some? ==>
                && (shared.failure.None? ==> shared.futures[old(shared.pending).value] == Some(Stopped))
                && (old(shared.failure).Some? ==>
                      shared.futures[old(shared.pending).value] == Some(CleanupFailedOutcome))
    {
      ghost var _ := ShowStopped();
      ghost var shown := shared;
      var generation := shared.generation;
      SettlePass(generation, if shared.failure.Some? then CleanupFailedOutcome else Stopped, false);
      FollowsDelivers(old(shared), shown, shared);
      NothingPending(shared);
    }

    /** Its publication, unless a failure is shown. */
    method ShowStopped() returns (ghost found: Shared)
      requires Valid() && hand.None? && shared.stop
      modifies this`shared
      ensures Rely(old(shared), found)
      ensures shared == if found.failure.Some? then found
                        else found.(status := found.status.(state := StoppedPhase, diagnostic := None))
      ensures Valid() && shared.stop && shared.entered.None? && Final(old(shared.futures), shared.futures)
      ensures Delivered(old(shared.due), shared.due, shared.futures)
      ensures shared.failure.None? ==> shared.status.state == StoppedPhase && shared.status.diagnostic.None?
      ensures old(shared.failure).Some? ==> shared.failure.Some?
      ensures old(shared.entered).None? ==> shared.pending == old(shared.pending)
    {
      Acquire();
      found := shared;
      if shared.failure.None? {
        StatusKeepsLinear(shared, hand, shared.status.(state := StoppedPhase, diagnostic := None));
        shared := shared.(status := shared.status.(state := StoppedPhase, diagnostic := None));
      }
    }
  }
}
