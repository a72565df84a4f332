/** Every caller of the pool returns. */
module PoolProgress {
  import opened PoolIndex
  import opened PoolDialing
  import opened PoolSafety

  /** The steps of callers and dials, not those of contexts and connections. */
  predicate IsWork(step: Step) {
    step.Look? || step.FinishDial? || step.CloseDone? || step.Wake?
  }

  predicate Returned(caller: Caller) {
    caller.progress.Got? || caller.progress.Failed?
  }

  /** Steps a caller may still take: it looks and waits at most once for each of `n` dials. */
  function CallerWork(caller: Caller, n: nat): int {
    match caller.progress
    case Looking => 2 * (n - |caller.seen|) + 2
    case Waiting(_) => 2 * (n - |caller.seen|) + 1
    case _ => 0
  }

  function CallWork(call: DialCall): nat {
    match call.stage
    case Dialing => 2
    case Published(_) => 1
    case Closed(_) => 0
  }

  function CallersWork(callers: seq<Caller>, n: nat): int {
    if callers == [] then 0 else CallersWork(callers[..|callers| - 1], n) + CallerWork(callers[|callers| - 1], n)
  }

  function CallsWork(calls: seq<DialCall>): nat {
    if calls == [] then 0 else CallsWork(calls[..|calls| - 1]) + CallWork(calls[|calls| - 1])
  }

  /** A bound on the work left when at most `n` dials are ever started. */
  function WorkLeft(p: Pool, n: nat): int {
    CallersWork(p.callers, n) + CallsWork(p.calls) + 3 * (n - |p.calls|)
  }

  lemma {:induction false} CallersWorkUpdate(callers: seq<Caller>, c: nat, caller: Caller, n: nat)
    requires c < |callers|
    ensures CallersWork(callers[c := caller], n) == CallersWork(callers, n) - CallerWork(callers[c], n) + CallerWork(caller, n)
  {
    var last := |callers| - 1;
    if c < last {
      assert callers[c := caller][..last] == callers[..last][c := caller];
      CallersWorkUpdate(callers[..last], c, caller, n);
    } else {
      assert callers[c := caller][..last] == callers[..last];
    }
  }

  lemma {:induction false} CallsWorkUpdate(calls: seq<DialCall>, d: nat, call: DialCall)
    requires d < |calls|
    ensures CallsWork(calls[d := call]) == CallsWork(calls) - CallWork(calls[d]) + CallWork(call)
  {
    var last := |calls| - 1;
    if d < last {
      assert calls[d := call][..last] == calls[..last][d := call];
      CallsWorkUpdate(calls[..last], d, call);
    } else {
      assert calls[d := call][..last] == calls[..last];
    }
  }

  lemma CallsWorkAppend(calls: seq<DialCall>, call: DialCall)
    ensures CallsWork(calls + [call]) == CallsWork(calls) + CallWork(call)
  {
  }

  lemma SeenIsBounded(p: Pool, c: nat)
    requires Good(p) && c < |p.callers|
    ensures |p.callers[c].seen| <= |p.calls|
    ensures p.callers[c].progress.Waiting? ==> |p.callers[c].seen| < |p.calls|
  {
    var caller := p.callers[c];
    assert CallerFits(p, caller);
    var all := Below(|p.calls|);
    SubsetIsSmaller(caller.seen, all);
    if caller.progress.Waiting? {
      SubsetIsSmaller(caller.seen + {caller.progress.call}, all);
    }
  }

  lemma {:induction false} SubsetIsSmaller(s: set<nat>, t: set<nat>)
    requires s <= t
    ensures |s| <= |t|
  {
    if s != {} {
      var d :| d in s;
      SubsetIsSmaller(s - {d}, t - {d});
    }
  }

  lemma {:induction false} CallersWorkIsNatural(callers: seq<Caller>, n: nat)
    requires forall c :: 0 <= c < |callers| ==> |callers[c].seen| <= n
    ensures CallersWork(callers, n) >= 0
  {
    if callers != [] {
      CallersWorkIsNatural(callers[..|callers| - 1], n);
    }
  }

  lemma WorkIsNatural(p: Pool, n: nat)
    requires Good(p) && |p.calls| <= n
    ensures WorkLeft(p, n) >= 0
  {
    forall c: nat | c < |p.callers| ensures |p.callers[c].seen| <= n {
      SeenIsBounded(p, c);
    }
    CallersWorkIsNatural(p.callers, n);
  }

  lemma LookingShrinks(p: Pool, step: Step, n: nat)
    requires Good(p) && Enabled(p, step) && step.Look? && |p.calls| <= n
    ensures WorkLeft(Apply(p, step), n) < WorkLeft(p, n)
  {
    hide FirstAccepting, Asked, ConnsOf, Good, CallersWork, CallsWork;
    var q := Apply(p, step);
    SeenIsBounded(p, step.c);
    CallersWorkUpdate(p.callers, step.c, q.callers[step.c], n);
    if |q.calls| > |p.calls| {
      CallsWorkAppend(p.calls, q.calls[|p.calls|]);
    }
  }

  lemma WakingShrinks(p: Pool, step: Step, n: nat)
    requires Good(p) && Enabled(p, step) && step.Wake? && |p.calls| <= n
    ensures WorkLeft(Apply(p, step), n) < WorkLeft(p, n)
  {
    WakeMovesOne(p, step);
    WaitsForNew(p, step.c);
    hide Apply, ShouldRetryDial, Good, CallersWork, CallsWork;
    SeenIsBounded(p, step.c);
    CallersWorkUpdate(p.callers, step.c, Apply(p, step).callers[step.c], n);
  }

  lemma WaitsForNew(p: Pool, c: nat)
    requires Good(p) && c < |p.callers| && p.callers[c].progress.Waiting?
    ensures p.callers[c].progress.call !in p.callers[c].seen
  {
  }

  /** Every step of work leaves less of it, and no other step makes more. */
  lemma {:induction false} WorkShrinks(p: Pool, step: Step, n: nat)
    requires Good(p) && Enabled(p, step) && |p.calls| <= n
    ensures WorkLeft(Apply(p, step), n) <= WorkLeft(p, n) - if IsWork(step) then 1 else 0
  {
    hide AddConn, DropConn, Good, CallersWork, CallsWork;
    match step
    case Look(_, _) => LookingShrinks(p, step, n);
    case Wake(_, _) => WakingShrinks(p, step, n);
    case FinishDial(d, _) => CallsWorkUpdate(p.calls, d, Apply(p, step).calls[d]);
    case CloseDone(d) => CallsWorkUpdate(p.calls, d, Apply(p, step).calls[d]);
    case _ =>
  }

  function WorkSteps(steps: seq<Step>): nat {
    if steps == [] then 0
    else WorkSteps(steps[..|steps| - 1]) + if IsWork(steps[|steps| - 1]) then 1 else 0
  }

  lemma {:induction false} CallsGrow(trace: seq<Pool>, steps: seq<Step>, i: nat, j: nat)
    requires IsRun(trace, steps) && i <= j <= |steps|
    ensures |trace[i].calls| <= |trace[j].calls|
    decreases j
  {
    hide FirstAccepting, Asked, ConnsOf, AddConn, DropConn, ShouldRetryDial, Initial;
    if i < j {
      CallsGrow(trace, steps, i, j - 1);
    }
  }

  lemma {:induction false} WorkIsUsedUp(trace: seq<Pool>, steps: seq<Step>, i: nat, n: nat)
    requires IsRun(trace, steps) && i <= |steps| && |trace[|steps|].calls| <= n
    ensures WorkLeft(trace[i], n) + WorkSteps(steps[..i]) <= WorkLeft(trace[0], n)
  {
    if i > 0 {
      WorkIsUsedUp(trace, steps, i - 1, n);
      assert steps[..i][..i - 1] == steps[..i - 1];
      RunIsGood(trace, steps, i - 1);
      CallsGrow(trace, steps, i - 1, |steps|);
      WorkShrinks(trace[i - 1], steps[i - 1], n);
    }
  }

  lemma {:induction false} WorkAtStart(callers: seq<Caller>, n: nat)
    requires forall c :: 0 <= c < |callers| ==> callers[c].progress == Looking && callers[c].seen == {}
    ensures CallersWork(callers, n) == |callers| * (2 * n + 2)
  {
    if callers != [] {
      WorkAtStart(callers[..|callers| - 1], n);
    }
  }

  /** With `n` callers, and no dialed connection wasted, no run takes more than `n * (2n + 5)`
      steps of work. */
  lemma {:induction false} WorkIsBounded(trace: seq<Pool>, steps: seq<Step>)
    requires IsRun(trace, steps) && WastedDials(trace[|steps|]) == {}
    ensures var n := |trace[0].callers|;
      WorkSteps(steps) <= n * (2 * n + 5)
  {
    hide Good, CallersWork, Enabled, Apply;
    var n := |trace[0].callers|;
    assert n * (2 * n + 5) == n * (2 * n + 2) + 3 * n;
    OneDialPerCaller(trace, steps, |steps|);
    RunIsGood(trace, steps, |steps|);
    WorkIsUsedUp(trace, steps, |steps|, n);
    assert steps[..|steps|] == steps;
    WorkIsNatural(trace[|steps|], n);
    WorkAtStart(trace[0].callers, n);
    assert WorkLeft(trace[0], n) == n * (2 * n + 2) + 3 * n;
  }

  /** As long as someone has not returned, there is work that can be done. */
  lemma {:induction false} NobodyIsStuck(p: Pool, c: nat) returns (step: Step)
    requires Good(p) && c < |p.callers| && !Returned(p.callers[c])
    ensures IsWork(step) && Enabled(p, step)
  {
    assert CallerFits(p, p.callers[c]);
    match p.callers[c].progress
    case Looking => step := Look(c, {});
    case Waiting(d) =>
      match p.calls[d].stage
      case Dialing => step := FinishDial(d, Refused(Other));
      case Published(_) => step := CloseDone(d);
      case Closed(_) => step := Wake(c, {});
  }

  /** A run that leaves no work to do has returned every caller. */
  lemma {:induction false} EveryCallerReturns(trace: seq<Pool>, steps: seq<Step>, c: nat)
    requires IsRun(trace, steps) && c < |trace[0].callers|
    requires forall step :: IsWork(step) ==> !Enabled(trace[|steps|], step)
    ensures c < |trace[|steps|].callers| && Returned(trace[|steps|].callers[c])
  {
    RunIsGood(trace, steps, |steps|);
    if !Returned(trace[|steps|].callers[c]) {
      var step := NobodyIsStuck(trace[|steps|], c);
      assert false;
    }
  }
}
