/**
  What the playback owner may ask of its presenter, as a language of call sequences, and what every
  sequence of that language guarantees.
*/
module PresentationTrace {

  datatype Call = Show | Clear(ok: bool) | Control | Stop

  /** What is on screen after some calls, as far as their owner may rely on it. */
  datatype Screen = Blank | Lit | Uncertain | Retired

  datatype Trace = Start | Then(before: Trace, call: Call)

  function After(screen: Screen, call: Call): Screen {
    match call
    case Show => Lit
    case Clear(ok) => if ok then Blank else Uncertain
    case Control => screen
    case Stop => Retired
  }

  /** Show only onto a blank screen, control only what is lit, and only stop once a clear has failed. */
  predicate Allowed(screen: Screen, call: Call) {
    match call
    case Show => screen == Blank
    case Clear(_) => screen == Blank || screen == Lit
    case Control => screen == Lit
    case Stop => screen != Retired
  }

  function ScreenOf(trace: Trace): Screen {
    match trace
    case Start => Blank
    case Then(before, call) => After(ScreenOf(before), call)
  }

  predicate Lawful(trace: Trace) {
    trace.Then? ==> Lawful(trace.before) && Allowed(ScreenOf(trace.before), trace.call)
  }

  function Calls(trace: Trace): seq<Call> {
    match trace
    case Start => []
    case Then(before, call) => Calls(before) + [call]
  }

  /** A successful clear lies between any two shows. */
  lemma {:induction false} ShowsAreSeparated(trace: Trace, i: nat, j: nat) returns (k: nat)
    requires Lawful(trace) && i < j < |Calls(trace)| && Calls(trace)[i] == Calls(trace)[j] == Show
    ensures i < k < j && Calls(trace)[k] == Clear(true)
  {
    if j == |Calls(trace)| - 1 {
      k := j - 1;
    } else {
      k := ShowsAreSeparated(trace.before, i, j);
    }
  }

  /** Nothing but stop follows a failed clear. */
  lemma {:induction false} OnlyStopAfterFailedClear(trace: Trace, i: nat, j: nat)
    requires Lawful(trace) && i < j < |Calls(trace)| && Calls(trace)[i] == Clear(false)
    ensures Calls(trace)[j] == Stop && j == i + 1
  {
    if j < |Calls(trace)| - 1 {
      OnlyStopAfterFailedClear(trace.before, i, j);
    } else if i < j - 1 {
      OnlyStopAfterFailedClear(trace.before, i, j - 1);
    }
  }

  /** Stop is the last call there is. */
  lemma {:induction false} StopIsLast(trace: Trace, i: nat)
    requires Lawful(trace) && i < |Calls(trace)| && Calls(trace)[i] == Stop
    ensures i == |Calls(trace)| - 1
  {
    if i < |Calls(trace)| - 1 {
      StopIsLast(trace.before, i);
    }
  }
}
