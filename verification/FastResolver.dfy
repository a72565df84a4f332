/**
 Asking several resolvers at once and taking the first answer: one goroutine for each upstream,
 two unbuffered channels, and a receive loop, as a state machine. A send on an unbuffered channel
 happens together with its receive.
 */
module FastResolver {

  type Addrs = seq<int>

  datatype Result = Answer(addrs: Addrs) | Failure(error: int)

  /** A worker looks up, then offers its result until it is taken or the context is done. */
  datatype Worker = Running | Offering(res: Result) | Ended(res: Result)

  datatype Receiver = Receiving(errors: seq<int>) | Answered(addrs: Addrs) | AllFailed(errors: seq<int>) | Interrupted

  datatype State = State(workers: seq<Worker>, receiver: Receiver, parentDone: bool)

  datatype Step = Finish(i: nat, res: Result) | Receive(i: nat) | GiveUp(i: nat) | CancelParent | SeeCancel

  /** The shared context is done when the caller's is, or when the receiver has returned. */
  predicate ContextDone(s: State) {
    s.parentDone || !s.receiver.Receiving?
  }

  /** The receive loop runs once for each upstream; with none it ends at once, without an error. */
  function Loop(errors: seq<int>, upstreams: nat): Receiver {
    if |errors| < upstreams then Receiving(errors) else AllFailed(errors)
  }

  function Start(upstreams: nat): State {
    State(seq(upstreams, _ => Running), Loop([], upstreams), false)
  }

  predicate Enabled(s: State, step: Step) {
    match step
    case Finish(i, _) => i < |s.workers| && s.workers[i] == Running
    case Receive(i) => s.receiver.Receiving? && i < |s.workers| && s.workers[i].Offering?
    case GiveUp(i) => ContextDone(s) && i < |s.workers| && s.workers[i].Offering?
    case CancelParent => !s.parentDone
    case SeeCancel => s.receiver.Receiving? && s.parentDone
  }

  function Apply(s: State, step: Step): State
    requires Enabled(s, step)
  {
    match step
    case Finish(i, res) => s.(workers := s.workers[i := Offering(res)])
    case Receive(i) =>
      var res := s.workers[i].res;
      var workers := s.workers[i := Ended(res)];
      (match res
       case Answer(addrs) => s.(workers := workers, receiver := Answered(addrs))
       case Failure(e) => s.(workers := workers, receiver := Loop(s.receiver.errors + [e], |workers|)))
    case GiveUp(i) => s.(workers := s.workers[i := Ended(s.workers[i].res)])
    case CancelParent => s.(parentDone := true)
    case SeeCancel => s.(receiver := Interrupted)
  }

  ghost predicate IsRun(upstreams: nat, trace: seq<State>, steps: seq<Step>) {
    && |trace| == |steps| + 1 && trace[0] == Start(upstreams)
    && forall i :: 0 <= i < |steps| ==> Enabled(trace[i], steps[i]) && trace[i + 1] == Apply(trace[i], steps[i])
  }

  /** The failures of the workers that have ended, each as often as it occurred. */
  function Failures(workers: seq<Worker>): multiset<int> {
    if workers == [] then multiset{}
    else
      var w := workers[|workers| - 1];
      Failures(workers[..|workers| - 1]) + if w.Ended? && w.res.Failure? then multiset{w.res.error} else multiset{}
  }

  lemma {:induction false} FailuresUpdate(workers: seq<Worker>, i: nat, w: Worker)
    requires i < |workers| && !workers[i].Ended?
    ensures Failures(workers[i := w])
      == Failures(workers) + if w.Ended? && w.res.Failure? then multiset{w.res.error} else multiset{}
  {
    var last := |workers| - 1;
    if i < last {
      assert workers[i := w][..last] == workers[..last][i := w];
      FailuresUpdate(workers[..last], i, w);
    } else {
      assert workers[i := w][..last] == workers[..last];
    }
  }

  lemma {:induction false} AllFailuresMeansAllFailed(workers: seq<Worker>)
    ensures |Failures(workers)| <= |workers|
    ensures |Failures(workers)| == |workers| ==> forall i :: 0 <= i < |workers| ==> workers[i].Ended? && workers[i].res.Failure?
  {
    if workers != [] {
      AllFailuresMeansAllFailed(workers[..|workers| - 1]);
      assert forall i :: 0 <= i < |workers| - 1 ==> workers[i] == workers[..|workers| - 1][i];
    }
  }

  lemma {:induction false} NoFailuresAtStart(upstreams: nat)
    ensures Failures(Start(upstreams).workers) == multiset{}
  {
    if upstreams > 0 {
      NoFailuresAtStart(upstreams - 1);
      assert Start(upstreams).workers[..upstreams - 1] == Start(upstreams - 1).workers;
    }
  }

  /** Some upstream has answered with these addresses. */
  ghost predicate AnswerOfSome(workers: seq<Worker>, addrs: Addrs) {
    exists i :: 0 <= i < |workers| && workers[i] == Ended(Answer(addrs))
  }

  ghost predicate NoneAnswered(workers: seq<Worker>) {
    forall i :: 0 <= i < |workers| && workers[i].Ended? ==> workers[i].res.Failure?
  }

  ghost predicate Inv(s: State) {
    match s.receiver
    case Receiving(errors) =>
      |errors| < |s.workers| && (!s.parentDone ==> multiset(errors) == Failures(s.workers) && NoneAnswered(s.workers))
    case AllFailed(errors) =>
      |errors| == |s.workers| && (!s.parentDone ==> multiset(errors) == Failures(s.workers))
    case Answered(addrs) => AnswerOfSome(s.workers, addrs)
    case Interrupted => s.parentDone
  }

  lemma EndedStays(workers: seq<Worker>, i: nat, w: Worker, addrs: Addrs)
    requires i < |workers| && !workers[i].Ended? && AnswerOfSome(workers, addrs)
    ensures AnswerOfSome(workers[i := w], addrs)
  {
    var j :| 0 <= j < |workers| && workers[j] == Ended(Answer(addrs));
    assert workers[i := w][j] == Ended(Answer(addrs));
  }

  lemma WorkerStepKeepsInv(s: State, step: Step)
    requires Inv(s) && Enabled(s, step) && (step.Finish? || step.GiveUp?)
    ensures Inv(Apply(s, step))
  {
    hide Failures, AnswerOfSome;
    var w := Apply(s, step).workers[step.i];
    FailuresUpdate(s.workers, step.i, w);
    AllFailuresMeansAllFailed(s.workers);
    if s.receiver.Answered? {
      EndedStays(s.workers, step.i, w, s.receiver.addrs);
    }
  }

  lemma ReceiveKeepsInv(s: State, step: Step)
    requires Inv(s) && Enabled(s, step) && step.Receive?
    ensures Inv(Apply(s, step))
  {
    hide Failures;
    var q := Apply(s, step);
    FailuresUpdate(s.workers, step.i, q.workers[step.i]);
    if q.receiver.Answered? {
      assert q.workers[step.i] == Ended(Answer(q.receiver.addrs));
    }
  }

  lemma StepKeepsInv(s: State, step: Step)
    requires Inv(s) && Enabled(s, step)
    ensures Inv(Apply(s, step))
  {
    match step
    case Finish(_, _) => WorkerStepKeepsInv(s, step);
    case GiveUp(_) => WorkerStepKeepsInv(s, step);
    case Receive(_) => ReceiveKeepsInv(s, step);
    case _ =>
  }

  lemma {:induction false} RunKeepsInv(upstreams: nat, trace: seq<State>, steps: seq<Step>, k: nat)
    requires IsRun(upstreams, trace, steps) && k < |trace|
    ensures Inv(trace[k]) && |trace[k].workers| == upstreams
  {
    if k == 0 {
      NoFailuresAtStart(upstreams);
    } else {
      RunKeepsInv(upstreams, trace, steps, k - 1);
      StepKeepsInv(trace[k - 1], steps[k - 1]);
    }
  }

  /** Under every interleaving, as long as the caller does not cancel: an answer is the answer of
      some upstream, and an error is returned only when every upstream has failed, made of exactly
      their errors. */
  lemma {:induction false} FirstSuccessWins(upstreams: nat, trace: seq<State>, steps: seq<Step>, k: nat)
    requires IsRun(upstreams, trace, steps) && k < |trace|
    ensures var s := trace[k];
      && |s.workers| == upstreams
      && (s.receiver.Answered? ==> AnswerOfSome(s.workers, s.receiver.addrs))
      && (s.receiver.Interrupted? ==> s.parentDone)
      && (s.receiver.AllFailed? && !s.parentDone ==>
            && (forall i :: 0 <= i < |s.workers| ==> s.workers[i].Ended? && s.workers[i].res.Failure?)
            && multiset(s.receiver.errors) == Failures(s.workers) && |s.receiver.errors| == upstreams)
  {
    RunKeepsInv(upstreams, trace, steps, k);
    AllFailuresMeansAllFailed(trace[k].workers);
  }

  // ---- What the receiver makes of what it gets ----

  /** The results received in the first `k` steps, in their order. */
  ghost function Received(trace: seq<State>, steps: seq<Step>, k: nat): seq<Result>
    requires |trace| == |steps| + 1 && k <= |steps|
  {
    if k == 0 then []
    else
      var (s, step) := (trace[k - 1], steps[k - 1]);
      Received(trace, steps, k - 1) + if step.Receive? && Enabled(s, step) then [s.workers[step.i].res] else []
  }

  ghost predicate FailedWith(got: seq<Result>, errors: seq<int>) {
    |got| == |errors| && forall i :: 0 <= i < |got| ==> got[i] == Failure(errors[i])
  }

  ghost predicate NoneSucceeded(got: seq<Result>) {
    forall i :: 0 <= i < |got| ==> got[i].Failure?
  }

  /** An answer that is received is returned, and nothing is received after it; the errors returned are
      those received, in their order, once each upstream has failed; the receiver goes without either
      only if the caller has cancelled. */
  ghost predicate Makes(got: seq<Result>, upstreams: nat, cancelled: bool, r: Receiver) {
    match r
    case Receiving(errors) => FailedWith(got, errors) && |errors| < upstreams
    case AllFailed(errors) => FailedWith(got, errors) && |errors| == upstreams
    case Answered(addrs) => got != [] && got[|got| - 1] == Answer(addrs) && NoneSucceeded(got[..|got| - 1])
    case Interrupted => cancelled && NoneSucceeded(got)
  }

  lemma ReceiverGoesOn(s: State, step: Step, got: seq<Result>)
    requires Enabled(s, step) && Makes(got, |s.workers|, s.parentDone, s.receiver)
    ensures var (q, more) := (Apply(s, step), if step.Receive? then [s.workers[step.i].res] else []);
      Makes(got + more, |s.workers|, q.parentDone, q.receiver)
  {
    if step.Receive? {
      assert (got + [s.workers[step.i].res])[..|got|] == got;
    } else {
      assert got + [] == got;
    }
  }

  /** So it is in every run, cancelled or not. */
  lemma {:induction false} ReceiverKeepsWhatItGets(upstreams: nat, trace: seq<State>, steps: seq<Step>, k: nat)
    requires IsRun(upstreams, trace, steps) && k <= |steps|
    ensures Makes(Received(trace, steps, k), upstreams, CancelParent in steps[..k], trace[k].receiver)
  {
    CancelIsTheCallers(upstreams, trace, steps, k);
    if k > 0 {
      ReceiverKeepsWhatItGets(upstreams, trace, steps, k - 1);
      RunKeepsInv(upstreams, trace, steps, k - 1);
      CancelIsTheCallers(upstreams, trace, steps, k - 1);
      ReceiverGoesOn(trace[k - 1], steps[k - 1], Received(trace, steps, k - 1));
      hide Failures, Apply, Enabled, Makes;
    }
  }

  lemma {:induction false} CancelIsTheCallers(upstreams: nat, trace: seq<State>, steps: seq<Step>, k: nat)
    requires IsRun(upstreams, trace, steps) && k <= |steps|
    ensures trace[k].parentDone <==> CancelParent in steps[..k]
  {
    if k > 0 {
      CancelIsTheCallers(upstreams, trace, steps, k - 1);
      assert steps[..k] == steps[..k - 1] + [steps[k - 1]];
    }
  }

  // ---- Everybody ends ----

  function WorkersLeft(workers: seq<Worker>): nat {
    if workers == [] then 0
    else
      WorkersLeft(workers[..|workers| - 1]) +
      match workers[|workers| - 1]
      case Running => 2
      case Offering(_) => 1
      case Ended(_) => 0
  }

  lemma {:induction false} WorkersLeftUpdate(workers: seq<Worker>, i: nat, w: Worker)
    requires i < |workers| && !workers[i].Ended? && (workers[i].Running? ==> w.Offering?) && (workers[i].Offering? ==> w.Ended?)
    ensures WorkersLeft(workers[i := w]) == WorkersLeft(workers) - 1
  {
    var last := |workers| - 1;
    if i < last {
      assert workers[i := w][..last] == workers[..last][i := w];
      WorkersLeftUpdate(workers[..last], i, w);
    } else {
      assert workers[i := w][..last] == workers[..last];
    }
  }

  function StepsLeft(s: State): nat {
    WorkersLeft(s.workers) + if s.receiver.Receiving? then 1 else 0
  }

  lemma StepsRunOut(s: State, step: Step)
    requires Enabled(s, step) && step != CancelParent
    ensures StepsLeft(Apply(s, step)) < StepsLeft(s)
  {
    match step
    case Finish(i, res) => WorkersLeftUpdate(s.workers, i, Offering(res));
    case Receive(i) => WorkersLeftUpdate(s.workers, i, Ended(s.workers[i].res));
    case GiveUp(i) => WorkersLeftUpdate(s.workers, i, Ended(s.workers[i].res));
    case _ =>
  }

  /** Until the receiver has returned and every worker has ended, some step of theirs is possible:
      nobody stays blocked, before or after the return. */
  lemma {:induction false} NobodyStaysBlocked(upstreams: nat, trace: seq<State>, steps: seq<Step>, k: nat, i: nat) returns (step: Step)
    requires IsRun(upstreams, trace, steps) && k < |trace|
    requires trace[k].receiver.Receiving? || (i < |trace[k].workers| && !trace[k].workers[i].Ended?)
    ensures step != CancelParent && Enabled(trace[k], step)
  {
    RunKeepsInv(upstreams, trace, steps, k);
    var s := trace[k];
    if j: nat :| j < |s.workers| && s.workers[j] == Running {
      step := Finish(j, Failure(0));
    } else if j: nat :| j < |s.workers| && s.workers[j].Offering? {
      step := if s.receiver.Receiving? then Receive(j) else GiveUp(j);
    } else {
      assert s.receiver.Receiving?;
      step := SeeCancel;
      if !s.parentDone {
        AllEndedCounts(s.workers);
        assert false;
      }
    }
  }

  /** Steps of the receiver and the workers; the caller's cancel is not theirs. */
  function OwnSteps(steps: seq<Step>): nat {
    if steps == [] then 0
    else OwnSteps(steps[..|steps| - 1]) + if steps[|steps| - 1] == CancelParent then 0 else 1
  }

  lemma {:induction false} StepsAreUsedUp(upstreams: nat, trace: seq<State>, steps: seq<Step>, k: nat)
    requires IsRun(upstreams, trace, steps) && k <= |steps|
    ensures StepsLeft(trace[k]) + OwnSteps(steps[..k]) <= 2 * upstreams + 1
  {
    hide WorkersLeft;
    if k == 0 {
      WorkersAtStart(upstreams);
    } else {
      StepsAreUsedUp(upstreams, trace, steps, k - 1);
      assert steps[..k][..k - 1] == steps[..k - 1];
      if steps[k - 1] != CancelParent {
        StepsRunOut(trace[k - 1], steps[k - 1]);
      }
    }
  }

  lemma {:induction false} WorkersAtStart(upstreams: nat)
    ensures WorkersLeft(Start(upstreams).workers) == 2 * upstreams
  {
    if upstreams > 0 {
      WorkersAtStart(upstreams - 1);
      assert Start(upstreams).workers[..upstreams - 1] == Start(upstreams - 1).workers;
    }
  }

  /** The fan-out always ends: no run has more than two steps for each upstream and one for the
      receiver, and a run in which none of them can move has returned and ended every worker. */
  lemma {:induction false} EveryoneEnds(upstreams: nat, trace: seq<State>, steps: seq<Step>)
    requires IsRun(upstreams, trace, steps)
    ensures OwnSteps(steps) <= 2 * upstreams + 1
    ensures (forall step :: step != CancelParent ==> !Enabled(trace[|steps|], step))
      <==> !trace[|steps|].receiver.Receiving? && forall i :: 0 <= i < |trace[|steps|].workers| ==> trace[|steps|].workers[i].Ended?
  {
    StepsAreUsedUp(upstreams, trace, steps, |steps|);
    assert steps[..|steps|] == steps;
    var s := trace[|steps|];
    if s.receiver.Receiving? {
      var step := NobodyStaysBlocked(upstreams, trace, steps, |steps|, 0);
      assert Enabled(s, step);
    } else if i: nat :| i < |s.workers| && !s.workers[i].Ended? {
      var step := NobodyStaysBlocked(upstreams, trace, steps, |steps|, i);
      assert Enabled(s, step);
    }
  }

  lemma {:induction false} AllEndedCounts(workers: seq<Worker>)
    requires forall i :: 0 <= i < |workers| ==> workers[i].Ended? && workers[i].res.Failure?
    ensures |Failures(workers)| == |workers|
  {
    if workers != [] {
      AllEndedCounts(workers[..|workers| - 1]);
    }
  }

  /** A lookup may end in any way, the caller may cancel at any time, and then the receiver can return
      at once. */
  lemma {:induction false} NothingIsRuledOut(s: State, i: nat, res: Result)
    ensures i < |s.workers| && s.workers[i] == Running ==> Enabled(s, Finish(i, res)) && Apply(s, Finish(i, res)).workers[i] == Offering(res)
    ensures !s.parentDone ==> Enabled(s, CancelParent) && Apply(s, CancelParent) == s.(parentDone := true)
    ensures s.receiver.Receiving? && s.parentDone ==> Enabled(s, SeeCancel) && Apply(s, SeeCancel).receiver == Interrupted
    ensures s.receiver.Receiving? && i < |s.workers| && s.workers[i] == Offering(res) ==> Enabled(s, Receive(i))
  {
  }
}
