/**
 * The generator's lifecycle as seen from one controlling caller: `Start`,
 * `Stop`, and the ticks on which the background task runs an update pass.
 *
 * The goroutine, ticker and stop channel are abstracted into one sequence of
 * events. A tick only reaches a started generator whose configuration enables
 * updates (otherwise no task and no ticker exist), and `Stop` closes the stop
 * channel, which panics when it is already closed.
 */
module Lifecycle {
  import opened Wrappers

  datatype Phase = Created | Started | Stopped

  datatype Event = StartCall | TickFired | StopCall

  /** The phase after `e`, or None when the event is not possible or is a misuse. */
  function Next(p: Phase, updates: bool, e: Event): Option<Phase> {
    match e
    case StartCall => if p == Created then Some(Started) else None
    case TickFired => if p == Started && updates then Some(Started) else None
    case StopCall => if p != Stopped then Some(Stopped) else None
  }

  /** The phase after a whole trace of events, or None when some step is not permitted. */
  function Run(p: Phase, updates: bool, trace: seq<Event>): Option<Phase>
    decreases |trace|
  {
    if |trace| == 0 then Some(p)
    else
      match Next(p, updates, trace[0])
      case None => None
      case Some(q) => Run(q, updates, trace[1..])
  }

  /** The number of update passes a trace performs. */
  function Passes(trace: seq<Event>): nat
    decreases |trace|
  {
    if |trace| == 0 then 0
    else (if trace[0] == TickFired then 1 else 0) + Passes(trace[1..])
  }

  /** Running a concatenation is running its halves one after the other. */
  lemma {:induction false} RunAppend(p: Phase, updates: bool, a: seq<Event>, b: seq<Event>)
    ensures Run(p, updates, a + b) ==
      match Run(p, updates, a)
      case None => None
      case Some(q) => Run(q, updates, b)
    decreases |a|
  {
    if |a| == 0 {
      assert a + b == b;
    } else {
      assert (a + b)[0] == a[0] && (a + b)[1..] == a[1..] + b;
      match Next(p, updates, a[0])
      case None =>
      case Some(q) => RunAppend(q, updates, a[1..], b);
    }
  }

  /** When the configuration disables updates, no permitted trace performs an update pass. */
  lemma {:induction false} NoPassesWhenDisabled(p: Phase, trace: seq<Event>)
    requires Run(p, false, trace).Some?
    ensures Passes(trace) == 0
    decreases |trace|
  {
    if |trace| > 0 {
      NoPassesWhenDisabled(Next(p, false, trace[0]).value, trace[1..]);
    }
  }

  /** Nothing at all is permitted once the generator is stopped. */
  lemma StoppedIsFinal(updates: bool, trace: seq<Event>)
    requires Run(Stopped, updates, trace).Some?
    ensures trace == []
  {
  }

  /** After `Stop` the trace ends: no further update pass, and no other event, can occur. */
  lemma NoPassAfterStop(p: Phase, updates: bool, before: seq<Event>, after: seq<Event>)
    requires Run(p, updates, before + [StopCall] + after).Some?
    ensures after == []
  {
    RunAppend(p, updates, before + [StopCall], after);
    RunAppend(p, updates, before, [StopCall]);
    StoppedIsFinal(updates, after);
  }

  /** `Stop` on an already stopped generator closes a closed channel: no trace stops twice. */
  lemma StopAtMostOnce(p: Phase, updates: bool, trace: seq<Event>, i: nat, j: nat)
    requires i < j < |trace| && trace[i] == StopCall && trace[j] == StopCall
    ensures Run(p, updates, trace).None?
  {
    if Run(p, updates, trace).Some? {
      assert trace == trace[..i] + [StopCall] + trace[i + 1..];
      NoPassAfterStop(p, updates, trace[..i], trace[i + 1..]);
    }
  }

  /** From a fresh generator, an update pass happens only after `Start` and only when updates are enabled. */
  lemma {:induction false} PassNeedsStart(p: Phase, updates: bool, trace: seq<Event>, j: nat)
    requires p == Created
    requires j < |trace| && trace[j] == TickFired
    requires Run(p, updates, trace).Some?
    ensures updates && StartCall in trace[..j]
  {
    if j == 0 {
      assert false;
    } else if trace[0] == StartCall {
      assert trace[..j][0] == StartCall;
      if !updates {
        assert Run(Started, updates, trace[1..]).Some?;
        NoPassesWhenDisabled(Started, trace[1..]);
        PassesCountsTick(trace[1..], j - 1);
      }
    } else {
      assert trace[0] == StopCall;
      StoppedIsFinal(updates, trace[1..]);
    }
  }

  /** A trace with a tick at position `j` performs at least one pass. */
  lemma {:induction false} PassesCountsTick(trace: seq<Event>, j: nat)
    requires j < |trace| && trace[j] == TickFired
    ensures Passes(trace) > 0
  {
    if j > 0 {
      PassesCountsTick(trace[1..], j - 1);
    }
  }
}
