/**
 Dialing through an HTTP proxy: the handshake, the goroutine that closes the connection when the
 context ends, and the two channels between them, as a state machine with one step for each
 channel operation, each close, and each end of an I/O call.
 */
module ConnectGuard {

  /** The dialing goroutine once the connection is made: writing the request, reading the
      response, checking its status, then stopping the guard and asking for its verdict. A failed
      step closes the connection; `Leaving` still has the deferred stop to run. */
  datatype Dialer = Writing | Reading | Checking | Closing | Stopping | Asking | Leaving(ok: bool) | Returned(ok: bool)

  /** The guard waits, has closed the connection but not yet said so, or is done. */
  datatype Guard = Watching | HasClosed | Done

  /** The verdict channel has room for one error and may be closed. */
  datatype Verdict = Pending | ContextError | NoError

  datatype State = State(
    dialer: Dialer,
    guard: Guard,
    verdict: Verdict,
    stopEvent: bool,
    contextDone: bool,
    closed: bool,
    closedByGuard: bool)

  datatype Step =
    | CancelContext
    | EndIO(succeeds: bool)
    | CloseConn
    | StopGuard
    | TakeVerdict
    | Leave
    | GuardStops
    | GuardCloses
    | GuardReports

  const START: State := State(Writing, Watching, Pending, false, false, false, false)

  predicate Enabled(s: State, step: Step) {
    match step
    case CancelContext => !s.contextDone
    case EndIO(_) => s.dialer == Writing || s.dialer == Reading || s.dialer == Checking
    case CloseConn => s.dialer == Closing
    case StopGuard => s.dialer == Stopping
    case TakeVerdict => s.dialer == Asking && s.verdict != Pending
    case Leave => s.dialer.Leaving?
    case GuardStops => s.guard == Watching && s.stopEvent
    case GuardCloses => s.guard == Watching && s.contextDone
    case GuardReports => s.guard == HasClosed
  }

  /** Any I/O may fail at any time, and may succeed even if the guard has just closed. */
  function Apply(s: State, step: Step): State
    requires Enabled(s, step)
  {
    match step
    case CancelContext => s.(contextDone := true)
    case EndIO(succeeds) =>
      if !succeeds then s.(dialer := Closing)
      else s.(dialer := if s.dialer == Writing then Reading else if s.dialer == Reading then Checking else Stopping)
    case CloseConn => s.(closed := true, dialer := Leaving(false))
    case StopGuard => s.(stopEvent := true, dialer := Asking)
    case TakeVerdict => s.(dialer := Leaving(s.verdict == NoError))
    case Leave => s.(stopEvent := true, dialer := Returned(s.dialer.ok))
    case GuardStops => s.(guard := Done, verdict := NoError)
    case GuardCloses => s.(guard := HasClosed, closed := true, closedByGuard := true)
    case GuardReports => s.(guard := Done, verdict := ContextError)
  }

  /** `trace` is a run of the machine. */
  ghost predicate IsRun(trace: seq<State>, steps: seq<Step>) {
    && |trace| == |steps| + 1 && trace[0] == START
    && forall i :: 0 <= i < |steps| ==> Enabled(trace[i], steps[i]) && trace[i + 1] == Apply(trace[i], steps[i])
  }

  ghost predicate Inv(s: State) {
    && (s.closedByGuard ==> s.closed && s.guard != Watching && s.verdict != NoError)
    && (s.guard == Done ==> s.verdict != Pending)
    && (s.guard != Done ==> s.verdict == Pending)
    && (s.guard == HasClosed || s.verdict == ContextError ==> s.closedByGuard)
    && (s.dialer == Asking || s.dialer.Returned? ==> s.stopEvent)
    && (s.dialer == Leaving(true) || s.dialer == Returned(true) ==> s.verdict == NoError && !s.closed)
    && (s.dialer == Leaving(false) || s.dialer == Returned(false) ==> s.closed)
    && (s.dialer == Writing || s.dialer == Reading || s.dialer == Checking || s.dialer == Stopping || s.dialer == Asking ==>
          (s.closed ==> s.closedByGuard))
  }

  lemma StepKeepsInv(s: State, step: Step)
    requires Inv(s) && Enabled(s, step)
    ensures Inv(Apply(s, step))
  {
  }

  lemma {:induction false} RunKeepsInv(trace: seq<State>, steps: seq<Step>, i: nat)
    requires IsRun(trace, steps) && i < |trace|
    ensures Inv(trace[i])
  {
    if i > 0 {
      RunKeepsInv(trace, steps, i - 1);
      StepKeepsInv(trace[i - 1], steps[i - 1]);
    }
  }

  /** Under every interleaving: a connection that is returned is open, was not closed by the guard
      and never will be, at any later step of the run; and when an error is returned the
      connection is closed. */
  lemma {:induction false} ReturnedConnIsOpen(trace: seq<State>, steps: seq<Step>, i: nat, j: nat)
    requires IsRun(trace, steps) && i <= j < |trace|
    ensures trace[i].dialer == Returned(true) ==> trace[i].guard == Done && !trace[j].closed && !trace[j].closedByGuard
    ensures trace[i].dialer == Returned(false) ==> trace[j].closed
  {
    if i < j {
      if trace[i].dialer.Returned? {
        ReturnStays(trace, steps, i, j);
      }
    }
    RunKeepsInv(trace, steps, i);
    RunKeepsInv(trace, steps, j);
  }

  lemma {:induction false} ReturnStays(trace: seq<State>, steps: seq<Step>, i: nat, j: nat)
    requires IsRun(trace, steps) && i <= j < |trace| && trace[i].dialer.Returned?
    ensures trace[j].dialer == trace[i].dialer
    decreases j
  {
    if i < j {
      ReturnStays(trace, steps, i, j - 1);
    }
  }

  /** Steps the two goroutines may still take. */
  function StepsLeft(s: State): nat {
    (match s.dialer
     case Writing => 7
     case Reading => 6
     case Checking => 5
     case Stopping => 4
     case Asking => 3
     case Closing => 2
     case Leaving(_) => 1
     case Returned(_) => 0)
    + (match s.guard
       case Watching => 2
       case HasClosed => 1
       case Done => 0)
  }

  lemma StepsRunOut(s: State, step: Step)
    requires Enabled(s, step) && step != CancelContext
    ensures StepsLeft(Apply(s, step)) < StepsLeft(s)
  {
  }

  /** Steps of the two goroutines; the end of the context is not theirs. */
  function OwnSteps(steps: seq<Step>): nat {
    if steps == [] then 0
    else OwnSteps(steps[..|steps| - 1]) + if steps[|steps| - 1] == CancelContext then 0 else 1
  }

  lemma {:induction false} StepsAreUsedUp(trace: seq<State>, steps: seq<Step>, i: nat)
    requires IsRun(trace, steps) && i <= |steps|
    ensures StepsLeft(trace[i]) + OwnSteps(steps[..i]) <= StepsLeft(START)
  {
    hide StepsLeft;
    if i > 0 {
      StepsAreUsedUp(trace, steps, i - 1);
      assert steps[..i][..i - 1] == steps[..i - 1];
      if steps[i - 1] == CancelContext {
        CancelTakesNoStep(trace[i - 1]);
      } else {
        StepsRunOut(trace[i - 1], steps[i - 1]);
      }
    }
  }

  lemma CancelTakesNoStep(s: State)
    requires Enabled(s, CancelContext)
    ensures StepsLeft(Apply(s, CancelContext)) == StepsLeft(s)
  {
  }

  /** Until the dialer has returned and the guard is done, one of them can move. */
  lemma SomeoneCanMove(s: State) returns (step: Step)
    requires Inv(s) && !(s.dialer.Returned? && s.guard == Done)
    ensures step != CancelContext && Enabled(s, step)
  {
    step := match s.dialer
      case Closing => CloseConn
      case Stopping => StopGuard
      case Leaving(_) => Leave
      case Asking => if s.verdict != Pending then TakeVerdict else if s.guard == HasClosed then GuardReports else GuardStops
      case Returned(_) => if s.guard == HasClosed then GuardReports else GuardStops
      case _ => EndIO(true);
  }

  /** Both goroutines always end: no run has more than nine steps of theirs, and a run in which
      neither can take another one has returned from the dial and finished the guard. */
  lemma {:induction false} BothAlwaysEnd(trace: seq<State>, steps: seq<Step>)
    requires IsRun(trace, steps)
    ensures OwnSteps(steps) <= 9
    ensures (forall step :: step != CancelContext ==> !Enabled(trace[|steps|], step))
      <==> trace[|steps|].dialer.Returned? && trace[|steps|].guard == Done
  {
    StepsAreUsedUp(trace, steps, |steps|);
    assert steps[..|steps|] == steps;
    RunKeepsInv(trace, steps, |steps|);
    var s := trace[|steps|];
    if !(s.dialer.Returned? && s.guard == Done) {
      var step := SomeoneCanMove(s);
      assert Enabled(s, step);
    }
  }

  // ---- What the handshake did ----

  /** I/O steps of the dialer among the first `i`: writing the request, reading the response,
      checking its status. */
  function IOSteps(steps: seq<Step>, i: nat): nat
    requires i <= |steps|
  {
    if i == 0 then 0 else IOSteps(steps, i - 1) + if steps[i - 1].EndIO? then 1 else 0
  }

  ghost predicate NoneFailed(steps: seq<Step>, i: nat)
    requires i <= |steps|
  {
    forall j :: 0 <= j < i ==> steps[j] != EndIO(false)
  }

  /** How far the handshake is, by the I/O that has ended well. */
  ghost predicate HandshakeFits(s: State, done: nat, noneFailed: bool) {
    match s.dialer
    case Writing => done == 0 && noneFailed
    case Reading => done == 1 && noneFailed
    case Checking => done == 2 && noneFailed
    case Stopping => done == 3 && noneFailed
    case Asking => done == 3 && noneFailed
    case Closing => 1 <= done <= 3 && !noneFailed
    case Leaving(ok) => if noneFailed then done == 3 else !ok && 1 <= done <= 3
    case Returned(ok) => if noneFailed then done == 3 else !ok && 1 <= done <= 3
  }

  lemma HandshakeGoesOn(s: State, step: Step, done: nat, noneFailed: bool)
    requires HandshakeFits(s, done, noneFailed) && Enabled(s, step)
    ensures HandshakeFits(Apply(s, step), done + if step.EndIO? then 1 else 0, noneFailed && step != EndIO(false))
  {
  }

  lemma {:induction false} HandshakeStays(trace: seq<State>, steps: seq<Step>, i: nat)
    requires IsRun(trace, steps) && i <= |steps|
    ensures HandshakeFits(trace[i], IOSteps(steps, i), NoneFailed(steps, i))
  {
    hide HandshakeFits, Apply, Enabled;
    if i == 0 {
      assert HandshakeFits(START, 0, true) by {
        StartFits();
      }
    } else {
      HandshakeStays(trace, steps, i - 1);
      assert NoneFailed(steps, i) <==> NoneFailed(steps, i - 1) && steps[i - 1] != EndIO(false);
      HandshakeGoesOn(trace[i - 1], steps[i - 1], IOSteps(steps, i - 1), NoneFailed(steps, i - 1));
    }
  }

  lemma StartFits()
    ensures HandshakeFits(START, 0, true) && FailuresFit(START, false, true)
  {
  }

  /** The guard closes only when the context has ended, and the dial fails only for one of the two
      reasons. */
  ghost predicate FailuresFit(s: State, cancelled: bool, noneFailed: bool) {
    && (s.contextDone <==> cancelled)
    && (s.closedByGuard || s.guard == HasClosed || s.verdict == ContextError ==> cancelled)
    && (s.dialer == Closing ==> !noneFailed)
    && (s.dialer == Leaving(false) || s.dialer == Returned(false) ==> !noneFailed || s.verdict == ContextError)
  }

  lemma FailuresGoOn(s: State, step: Step, cancelled: bool, noneFailed: bool)
    requires FailuresFit(s, cancelled, noneFailed) && Inv(s) && Enabled(s, step)
    ensures FailuresFit(Apply(s, step), cancelled || step == CancelContext, noneFailed && step != EndIO(false))
  {
  }

  lemma {:induction false} FailuresHaveCauses(trace: seq<State>, steps: seq<Step>, i: nat)
    requires IsRun(trace, steps) && i <= |steps|
    ensures FailuresFit(trace[i], CancelContext in steps[..i], NoneFailed(steps, i))
  {
    hide FailuresFit, Apply, Enabled, Inv;
    if i == 0 {
      assert FailuresFit(START, false, true) by {
        StartFits();
      }
    } else {
      FailuresHaveCauses(trace, steps, i - 1);
      RunKeepsInv(trace, steps, i - 1);
      assert NoneFailed(steps, i) <==> NoneFailed(steps, i - 1) && steps[i - 1] != EndIO(false);
      assert steps[..i] == steps[..i - 1] + [steps[i - 1]];
      FailuresGoOn(trace[i - 1], steps[i - 1], CancelContext in steps[..i - 1], NoneFailed(steps, i - 1));
    }
  }

  /** A connection is returned only after the request was written, the response was read, and its
      status was found good; the dial fails only if one of these fails, or if the context ended and
      the guard closed the connection. */
  lemma {:induction false} ReturnedConnIsReady(trace: seq<State>, steps: seq<Step>, i: nat)
    requires IsRun(trace, steps) && i <= |steps|
    ensures trace[i].dialer == Returned(true) ==> IOSteps(steps, i) == 3 && NoneFailed(steps, i)
    ensures trace[i].dialer == Returned(false) ==>
      !NoneFailed(steps, i) || (trace[i].verdict == ContextError && CancelContext in steps[..i])
    ensures !NoneFailed(steps, i) ==> trace[i].dialer != Returned(true)
  {
    HandshakeStays(trace, steps, i);
    FailuresHaveCauses(trace, steps, i);
  }

  /** As long as the dialer has not stopped the guard, the end of the context lets the guard close
      the connection, wherever the handshake is; otherwise it has done so already. */
  lemma {:induction false} ContextEndFrees(trace: seq<State>, steps: seq<Step>, i: nat)
    requires IsRun(trace, steps) && i < |trace| && trace[i].contextDone && !trace[i].stopEvent
    ensures if trace[i].guard == Watching then Enabled(trace[i], GuardCloses) && Apply(trace[i], GuardCloses).closed
            else trace[i].closed && trace[i].closedByGuard
  {
    RunKeepsInv(trace, steps, i);
    GuardNeedsCause(trace, steps, i);
  }

  lemma {:induction false} GuardNeedsCause(trace: seq<State>, steps: seq<Step>, i: nat)
    requires IsRun(trace, steps) && i < |trace|
    ensures trace[i].guard != Watching ==> trace[i].stopEvent || trace[i].closedByGuard
  {
    if i > 0 {
      GuardNeedsCause(trace, steps, i - 1);
    }
  }
}
