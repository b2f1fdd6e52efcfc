/**
  What the panel coordinator shares under its lock, and what client threads may do to it between any
  two steps of the worker: intents in three parts (the lock is taken, the lock is released, the
  Future that the client then holds gets its result), the shared stop event, the clock, and a join
  that gives up.
*/
module PanelModel {
  import opened Basics

  datatype Kind = Cec | Ddc | Signal
  datatype Power = On | Off | Unknown
  datatype Status = Physical | SignalOnly | Unavailable | Degraded | Cancelled | CleanupFailed

  datatype PowerResult = PowerResult(backend: Kind, status: Status, physical: Power, signal: Power, cleanupFailed: bool)

  datatype Outcome = Ready | DegradedOutcome | Superseded | Rejected | Stopped | CleanupFailedOutcome

  datatype Phase = Starting | ReadyPhase | DegradedPhase | Stopping | StoppedPhase | ErrorPhase

  datatype PanelStatus = PanelStatus(
    state: Phase, active: Option<Kind>, desired: bool,
    operating: bool, protection: bool, diagnostic: Option<bool>,
    signalSleepOwned: bool, physical: Power, signal: Power)

  /** Why the coordinator has failed; the first reason stays. */
  datatype Failure = ShutdownTimeout | CleanupFailure | WorkerFailure

  datatype Field = Operating | Protection | Diagnostic

  /** A client inside the lock whose intent was admitted: its Future and what it will apply. */
  datatype Entry = Entry(future: nat, field: Field, value: bool)

  datatype Shared = Shared(
    status: PanelStatus, failure: Option<Failure>, generation: nat, pending: Option<nat>, expires: Option<real>,
    stop: bool, now: real,
    entered: Option<Entry>,
    due: map<nat, Outcome>,          // Futures in the hands of clients outside the lock, and what each will get
    futures: seq<Option<Outcome>>)  // every intent's Future, with its result once it has one

  const TEST_SECONDS := 5.0
  const POLL_SECONDS := 15.0

  /** `_matches`: only confirmed evidence counts. */
  predicate Matches(r: PowerResult, active: bool) {
    var wanted := if active then On else Off;
    (r.status == Physical && r.physical == wanted) || (r.status == SignalOnly && r.signal == wanted)
  }

  /** The target policy asks for: protection wins, then a running test, then the schedule. */
  predicate Target(s: PanelStatus) {
    !s.protection && (if s.diagnostic.None? then s.operating else s.diagnostic.value)
  }

  /** The running test is over. */
  predicate Expired(s: Shared) {
    s.expires.Some? && s.now >= s.expires.value
  }

  function Settle(s: Shared, future: nat, outcome: Outcome): Shared
    requires future < |s.futures|
  {
    s.(futures := s.futures[future := Some(outcome)])
  }

  function Issue(s: Shared): Shared {
    s.(futures := s.futures + [None])
  }

  /** An intent refused under the lock: its client gives its Future that outcome once outside. */
  function Refuse(s: Shared, outcome: Outcome): Shared {
    Issue(s).(due := s.due[|s.futures| := outcome])
  }

  // ------------------------------------------------------------------ environment

  datatype Env =
    | SetStop
    | Pass(seconds: real)
    | Enter(field: Field, value: bool)
    | Leave
    | Deliver(future: nat)
    | Joining
    | JoinTimeout

  /** `_intent` up to the point where its fields change: refused, or admitted inside the lock. */
  function EnterIntent(s: Shared, field: Field, value: bool): Shared {
    if s.stop then Refuse(s, Stopped)
    else if field == Diagnostic && value && s.status.protection then Refuse(s, Rejected)
    else Issue(s).(entered := Some(Entry(|s.futures|, field, value)))
  }

  function WithIntent(status: PanelStatus, field: Field, value: bool): PanelStatus {
    match field
    case Operating => status.(operating := value, state := Starting)
    case Protection => status.(protection := value, state := Starting)
    case Diagnostic => status.(diagnostic := Some(value), state := Starting)
  }

  /** The rest under the lock: apply, take the previous pending Future away to supersede it, release the lock. */
  function LeaveIntent(s: Shared): Shared
    requires s.entered.Some?
  {
    var e := s.entered.value;
    s.(due := if s.pending.Some? then s.due[s.pending.value := Superseded] else s.due,
       status := WithIntent(s.status, e.field, e.value), generation := s.generation + 1,
       pending := Some(e.future), entered := None,
       expires := if e.field == Diagnostic then Some(s.now + TEST_SECONDS) else s.expires)
  }

  /**
    A whole `_intent` of one client with nobody in between. It is refused once stopped, and a test to light
    the panel while protection sleeps it; then only its own Future is new, and this client's to answer.
    Otherwise there is a new generation whose Future is the one pending, the intent sets its own field and
    no other, a test runs for five seconds, and the Future that was pending is this client's to supersede.
  */
  function AppliedIntent(s: Shared, field: Field, value: bool): (t: Shared)
    requires s.entered.None?
    ensures t.futures == s.futures + [Option.None] && t.entered.None? && t.stop == s.stop && t.failure == s.failure
    ensures var future := |s.futures|;
            if s.stop || (field == Diagnostic && value && s.status.protection) then
              && t.status == s.status && t.generation == s.generation && t.pending == s.pending
              && t.expires == s.expires && t.due == s.due[future := if s.stop then Stopped else Rejected]
            else
              && t.generation == s.generation + 1 && t.pending == Some(future)
              && t.due == (if s.pending.Some? then s.due[s.pending.value := Superseded] else s.due)
              && t.status.operating == (if field == Operating then value else s.status.operating)
              && t.status.protection == (if field == Protection then value else s.status.protection)
              && t.status.diagnostic == (if field == Diagnostic then Some(value) else s.status.diagnostic)
              && t.expires == (if field == Diagnostic then Some(s.now + 5.0) else s.expires)
              && t.status == s.status.(state := Starting, operating := t.status.operating,
                                       protection := t.status.protection, diagnostic := t.status.diagnostic)
  {
    var t := EnterIntent(s, field, value);
    if t.entered.Some? then LeaveIntent(t) else t
  }

  /** `set_result` behind the lock, on the Future this client holds. */
  function DeliverResult(s: Shared, id: nat): Shared {
    if id in s.due && id < |s.futures| then Settle(s, id, s.due[id]).(due := s.due - {id}) else s
  }

  /** `_fatal` under the lock. */
  function Fail(s: Shared, reason: Failure): Shared {
    s.(failure := if s.failure.None? then Some(reason) else s.failure, stop := true,
       status := s.status.(state := ErrorPhase))
  }

  function Step(s: Shared, e: Env): Shared {
    match e
    case SetStop => s.(stop := true)
    case Pass(seconds) => if seconds >= 0.0 then s.(now := s.now + seconds) else s
    case Enter(field, value) => if s.entered.None? then EnterIntent(s, field, value) else s
    case Leave => if s.entered.Some? then LeaveIntent(s) else s
    case Deliver(id) => DeliverResult(s, id)
    case Joining =>
      if s.entered.Some? then s
      else (if s.status.state in {StoppedPhase, ErrorPhase} then s
        else s.(status := s.status.(state := Stopping))).(stop := true)
    case JoinTimeout =>
      if s.entered.Some? then s else Fail(s, ShutdownTimeout)
  }

  /** Who holds the lock keeps everybody else out of it; the clock and the stop event need no lock. */
  lemma LockKeepsOut(s: Shared, field: Field, value: bool)
    requires s.entered.Some?
    ensures Step(s, Enter(field, value)) == s && Step(s, Joining) == s && Step(s, JoinTimeout) == s
    ensures Step(s, Leave).entered.None? && Step(s, Leave).generation == s.generation + 1
    ensures Step(s, SetStop) == s.(stop := true)
    ensures forall seconds :: seconds >= 0.0 ==> Step(s, Pass(seconds)) == s.(now := s.now + seconds)
  {
  }

  /** `join` stops without hiding how the worker ended; a worker that outlives it has failed, the first failure kept. */
  lemma JoinStops(s: Shared)
    requires s.entered.None?
    ensures Step(s, SetStop).stop && Step(s, Joining).stop && Step(s, JoinTimeout).stop
    ensures var state := if s.status.state in {StoppedPhase, ErrorPhase} then s.status.state else Stopping;
            Step(s, Joining) == s.(stop := true, status := s.status.(state := state))
    ensures Step(s, JoinTimeout).status == s.status.(state := ErrorPhase)
    ensures Step(s, JoinTimeout).failure == if s.failure.Some? then s.failure else Some(ShutdownTimeout)
  {
  }

  // -------------------------------------------------------------------- linearity

  predicate Held(pending: Option<nat>, entered: Option<Entry>, hand: Option<nat>, due: map<nat, Outcome>, id: nat) {
    pending == Some(id) || hand == Some(id) || (entered.Some? && entered.value.future == id) || id in due
  }

  /** Exactly the Futures that somebody still owes a result are unresolved, and each has one debtor. */
  ghost predicate Owed(futures: seq<Option<Outcome>>, pending: Option<nat>, entered: Option<Entry>, hand: Option<nat>,
                       due: map<nat, Outcome>)
  {
    && (forall id: nat :: id < |futures| ==> (futures[id].None? <==> Held(pending, entered, hand, due, id)))
    && (pending.Some? ==> pending.value < |futures| && pending.value !in due)
    && (hand.Some? ==> hand.value < |futures| && pending != hand && hand.value !in due)
    && (entered.Some? ==> entered.value.future < |futures| && pending != Some(entered.value.future)
                          && hand != Some(entered.value.future) && entered.value.future !in due)
    && (forall id :: id in due ==> id < |futures| && due[id] in {Superseded, Stopped, Rejected})
  }

  ghost predicate Linear(s: Shared, hand: Option<nat>) {
    Owed(s.futures, s.pending, s.entered, hand, s.due)
  }

  /** Results are final: nothing that has one ever changes. */
  ghost predicate Final(before: seq<Option<Outcome>>, after: seq<Option<Outcome>>) {
    |before| <= |after| && forall id :: 0 <= id < |before| && before[id].Some? ==> after[id] == before[id]
  }

  /** No client may produce READY; only the worker does. */
  ghost predicate NoNewReady(before: seq<Option<Outcome>>, after: seq<Option<Outcome>>) {
    forall id :: 0 <= id < |after| && after[id] == Some(Ready) ==> id < |before| && before[id] == Some(Ready)
  }

  /** What clients hold stays with them until it gets the result it was held for. */
  ghost predicate Delivered(due: map<nat, Outcome>, later: map<nat, Outcome>, futures: seq<Option<Outcome>>) {
    && (forall id :: id in due ==>
         if id in later then later[id] == due[id] else id < |futures| && futures[id] == Some(due[id]))
    && (forall id :: id in later ==> id < |futures| && futures[id].None?)
  }

  /** A client has superseded this Future, or holds it to do so. */
  predicate Superseding(s: Shared, id: nat) {
    if id in s.due then s.due[id] == Superseded else id < |s.futures| && s.futures[id] == Some(Superseded)
  }

  predicate SameIntents(s: PanelStatus, t: PanelStatus) {
    t.operating == s.operating && t.protection == s.protection && t.diagnostic == s.diagnostic
  }

  /** What every step of anybody keeps, the worker's included. */
  ghost predicate Follows(s: Shared, t: Shared) {
    && s.generation <= t.generation && (s.stop ==> t.stop) && s.now <= t.now
    && (s.failure.Some? ==> t.failure == s.failure)
    && Final(s.futures, t.futures) && Delivered(s.due, t.due, t.futures)
    && (t.generation == s.generation ==> SameIntents(s.status, t.status) && t.expires == s.expires)
  }

  lemma FollowsTransitive(s: Shared, t: Shared, u: Shared)
    requires Follows(s, t) && Follows(t, u)
    ensures Follows(s, u)
  {
  }

  lemma FollowsDelivers(s: Shared, t: Shared, u: Shared)
    requires Final(s.futures, t.futures) && Delivered(s.due, t.due, t.futures) && Follows(t, u)
    ensures Final(s.futures, u.futures) && Delivered(s.due, u.due, u.futures)
  {
  }

  /** Giving the Future in hand its result closes exactly that debt. */
  lemma SettleHand(s: Shared, id: nat, outcome: Outcome)
    requires Linear(s, Some(id))
    ensures Linear(Settle(s, id, outcome), None) && Follows(s, Settle(s, id, outcome))
  {
    var t := Settle(s, id, outcome);
    forall i: nat | i < |t.futures| ensures t.futures[i].None? <==> Held(t.pending, t.entered, None, t.due, i) {
      assert s.futures[i].None? <==> Held(s.pending, s.entered, Some(id), s.due, i);
    }
  }

  /** What is shown stays while its generation lasts, until a join or a failure; stopped gives way to failure alone. */
  predicate StaysShown(s: Shared, t: Shared) {
    && (s.stop && s.entered.None? && s.status.state == StoppedPhase && t.failure.None? ==>
          t.entered.None? && t.status.state == StoppedPhase)
    && (t.generation == s.generation && t.failure.None? ==> t.status.state in {s.status.state, Stopping})
  }

  /** Nobody but the worker fails for any other reason than a join that gives up. */
  predicate TimedOut(before: Option<Failure>, after: Option<Failure>) {
    after == before || (before.None? && after == Some(ShutdownTimeout))
  }

  ghost predicate Rely(s: Shared, t: Shared) {
    && s.generation <= t.generation && (s.stop ==> t.stop) && TimedOut(s.failure, t.failure) && s.now <= t.now
    && Final(s.futures, t.futures) && NoNewReady(s.futures, t.futures) && Delivered(s.due, t.due, t.futures)
    && (s.pending.Some? && t.pending != s.pending ==> Superseding(t, s.pending.value))
    && t.status == s.status.(state := t.status.state, operating := t.status.operating,
                             protection := t.status.protection, diagnostic := t.status.diagnostic)
    && (t.generation == s.generation ==>
      t.pending == s.pending && t.expires == s.expires
      && SameIntents(s.status, t.status))
    && (t.generation != s.generation ==> t.pending.Some?)
    && (s.stop && s.entered.None? ==> t.entered.None? && t.generation == s.generation)
    && StaysShown(s, t)
  }

  lemma StepKeepsLinear(s: Shared, hand: Option<nat>, e: Env)
    requires Linear(s, hand)
    ensures Linear(Step(s, e), hand) && Rely(s, Step(s, e))
  {
    match e
    case Enter(field, value) => if s.entered.None? { EnterKeepsLinear(s, hand, field, value); }
    case Leave => if s.entered.Some? { LeaveKeepsLinear(s, hand); }
    case Deliver(id) => DeliverKeepsLinear(s, hand, id);
    case _ => QuietKeepsLinear(s, hand, e);
  }

  lemma QuietKeepsLinear(s: Shared, hand: Option<nat>, e: Env)
    requires Linear(s, hand) && !e.Enter? && !e.Leave? && !e.Deliver?
    ensures Linear(Step(s, e), hand) && Rely(s, Step(s, e))
  {
    FlagsRely(s, hand, Step(s, e));
  }

  /** Setting flags, the state shown and the clock concerns no Future. */
  lemma FlagsRely(s: Shared, hand: Option<nat>, t: Shared)
    requires Linear(s, hand)
    requires t == s.(status := s.status.(state := t.status.state), failure := t.failure, stop := t.stop, now := t.now)
    requires s.now <= t.now && (s.stop ==> t.stop) && TimedOut(s.failure, t.failure)
    requires t.failure.None? ==> t.status.state == s.status.state
                                 || (t.status.state == Stopping && s.status.state != StoppedPhase)
    ensures Linear(t, hand) && Rely(s, t)
  {
    StillDue(s, hand);
  }

  lemma StillDue(s: Shared, hand: Option<nat>)
    requires Linear(s, hand)
    ensures Delivered(s.due, s.due, s.futures)
  {
    forall id | id in s.due ensures s.futures[id].None? {
      assert Held(s.pending, s.entered, hand, s.due, id);
    }
  }

  lemma EnterRelies(s: Shared, hand: Option<nat>, field: Field, value: bool)
    requires Linear(s, hand) && s.entered.None?
    ensures Rely(s, EnterIntent(s, field, value))
  {
  }

  lemma EnterKeepsLinear(s: Shared, hand: Option<nat>, field: Field, value: bool)
    requires Linear(s, hand) && s.entered.None?
    ensures Linear(EnterIntent(s, field, value), hand) && Rely(s, EnterIntent(s, field, value))
  {
    EnterRelies(s, hand, field, value);
    var t := EnterIntent(s, field, value);
    forall id: nat | id < |t.futures| ensures t.futures[id].None? <==> Held(t.pending, t.entered, hand, t.due, id) {
      if id < |s.futures| { assert s.futures[id].None? <==> Held(s.pending, s.entered, hand, s.due, id); }
    }
  }

  lemma LeaveKeepsLinear(s: Shared, hand: Option<nat>)
    requires Linear(s, hand) && s.entered.Some?
    ensures Linear(LeaveIntent(s), hand) && Rely(s, LeaveIntent(s))
  {
    var t := LeaveIntent(s);
    forall id: nat | id < |t.futures| ensures t.futures[id].None? <==> Held(t.pending, t.entered, hand, t.due, id) {
      assert s.futures[id].None? <==> Held(s.pending, s.entered, hand, s.due, id);
    }
  }

  /** A client gives the Future it holds its one result. */
  lemma DeliverKeepsLinear(s: Shared, hand: Option<nat>, id: nat)
    requires Linear(s, hand)
    ensures Linear(DeliverResult(s, id), hand) && Rely(s, DeliverResult(s, id))
    ensures id in s.due ==> DeliverResult(s, id).futures[id] == Some(s.due[id])
  {
    var t := DeliverResult(s, id);
    forall k: nat | k < |t.futures| ensures t.futures[k].None? <==> Held(t.pending, t.entered, hand, t.due, k) {
      assert s.futures[k].None? <==> Held(s.pending, s.entered, hand, s.due, k);
    }
  }

  lemma RelyFollows(s: Shared, t: Shared)
    requires Rely(s, t)
    ensures Follows(s, t)
  {
  }

  /** `_expire_test` under the lock. */
  function EndTest(s: Shared): Shared {
    s.(expires := None, status := s.status.(diagnostic := None), pending := None, generation := s.generation + 1)
  }

  /** Whoever ends the test takes the pending Future into his hand. */
  lemma EndTestKeepsLinear(s: Shared)
    requires Linear(s, None)
    ensures Linear(EndTest(s), s.pending) && Follows(s, EndTest(s))
  {
    var t := EndTest(s);
    forall id: nat | id < |t.futures| ensures t.futures[id].None?
      <==> Held(t.pending, t.entered, s.pending, t.due, id) {
      assert s.futures[id].None? <==> Held(s.pending, s.entered, None, s.due, id);
    }
  }

  lemma StatusKeepsLinear(s: Shared, hand: Option<nat>, status: PanelStatus)
    requires Linear(s, hand)
    ensures Linear(s.(status := status), hand)
  {
  }

  lemma RelyTransitive(s: Shared, t: Shared, u: Shared)
    requires Rely(s, t) && Rely(t, u)
    ensures Rely(s, u)
  {
  }

  /** Nothing is left for the worker: what is unresolved is held by a client that has left the lock. */
  ghost predicate Quiescent(s: Shared) {
    && Linear(s, None) && s.stop && s.entered.None? && s.pending.None?
    && forall id: nat :: id < |s.futures| ==> (s.futures[id].None? <==> id in s.due)
  }

  lemma NothingPending(s: Shared)
    requires Linear(s, None) && s.stop && s.entered.None? && s.pending.None?
    ensures Quiescent(s)
  {
    forall id: nat | id < |s.futures| ensures s.futures[id].None? <==> id in s.due {
      assert s.futures[id].None? <==> Held(s.pending, s.entered, None, s.due, id);
    }
  }

  /**
    Once the stop event is set and no client is inside the lock, no client can make an intent
    pending again: whatever is unresolved, then and later, is in the hands of a client outside it.
  */
  lemma StoppedStaysSettled(s: Shared, e: Env)
    requires Linear(s, None) && s.stop && s.entered.None? && s.pending.None?
    ensures Quiescent(Step(s, e))
  {
    StepKeepsLinear(s, None, e);
    NothingPending(Step(s, e));
  }

  /** Clients outside the lock finishing in some order. */
  function DeliverAll(s: Shared, order: seq<nat>): Shared
    decreases |order|
  {
    if order == [] then s else DeliverAll(DeliverResult(s, order[0]), order[1..])
  }

  /**
    In whatever order those clients finish, each Future they hold gets its one result, and when all
    have finished every intent ever made has one.
  */
  lemma {:induction false} ClientsFinish(s: Shared, order: seq<nat>)
    requires Quiescent(s) && forall id :: id in s.due ==> id in order
    ensures var t := DeliverAll(s, order);
            && Quiescent(t) && t.due == map[] && Final(s.futures, t.futures)
            && (forall id :: id in s.due ==> id < |t.futures| && t.futures[id] == Some(s.due[id]))
            && (forall id :: 0 <= id < |t.futures| ==> t.futures[id].Some?)
    decreases |order|
  {
    if order != [] {
      var t := DeliverResult(s, order[0]);
      StoppedStaysSettled(s, Deliver(order[0]));
      DeliverKeepsLinear(s, None, order[0]);
      forall id | id in t.due ensures id in order[1..] {
        assert id in order && id != order[0];
      }
      ClientsFinish(t, order[1..]);
    } else {
      assert s.due == map[];
      forall id | 0 <= id < |s.futures| ensures s.futures[id].Some? { assert id !in s.due; }
    }
  }

  /** `intentional_signal_sleep`: what keeps output reconciliation away from a sleeping signal. */
  predicate IntentionalSignalSleep(s: PanelStatus) {
    s.active == Some(Signal)
    && (s.protection || s.diagnostic == Some(false) || (s.diagnostic.None? && !s.operating) || s.signalSleepOwned)
  }

  /** That gate is closed exactly while policy wants the panel off, or the signal's sleep is still owned. */
  lemma GateFollowsPolicy(s: PanelStatus)
    ensures IntentionalSignalSleep(s) <==> s.active == Some(Signal) && (!Target(s) || s.signalSleepOwned)
  {
  }
}
