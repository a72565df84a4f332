/**
 Callers of the connection pool and the dials they share, as a state machine: one step for each
 region under the pool's lock, each end of a dial, each close of a `done` channel, and each
 wake-up. What the connections and the network do is chosen by the step.
 */
module PoolDialing {
  import opened PoolIndex

  datatype Error = Canceled | DeadlineExceeded | Other | NoCachedConn

  datatype DialResult = Dialed(cc: Slot) | Refused(e: Error)

  datatype Stage = Dialing | Published(res: DialResult) | Closed(res: DialResult)

  /** A dial in flight or finished, with the context of the request that started it. */
  datatype DialCall = DialCall(addr: string, ctx: nat, owner: nat, stage: Stage)

  /** `Failed` remembers the dial whose error it is, if there was one. */
  datatype Progress = Looking | Waiting(call: nat) | Got(cc: Slot) | Failed(e: Error, dial: int)

  /** `seen` are the dials this caller has waited for to the end. */
  datatype Caller = Caller(addr: string, ctx: nat, dialOnMiss: bool, progress: Progress, seen: set<nat>)

  /**
   `granted` tells the first caller each connection served, `dead` the connections marked dead,
   and `wasted` those that refused a caller or died before they served anyone.
   */
  datatype Pool = Pool(
    index: Index,
    dialing: map<string, nat>,
    calls: seq<DialCall>,
    callers: seq<Caller>,
    cancelled: set<nat>,
    granted: map<Slot, nat>,
    dead: set<Slot>,
    wasted: set<Slot>)

  datatype Step =
    | Look(c: nat, accepting: set<Slot>)
    | FinishDial(d: nat, res: DialResult)
    | CloseDone(d: nat)
    | Wake(c: nat, accepting: set<Slot>)
    | CancelContext(ctx: nat)
    | MarkDead(cc: Slot)
    | AddIdle(addr: string, cc: Slot)

  // ---- The steps ----

  /** The first connection of the list that reserves a request, or `Nil`. */
  function FirstAccepting(list: seq<Slot>, accepting: set<Slot>): (cc: Slot)
    ensures cc != Nil ==> cc in list && cc in accepting
  {
    if list == [] then Nil
    else if list[0] in accepting && list[0] != Nil then list[0]
    else FirstAccepting(list[1..], accepting)
  }

  /** Connections asked in vain before the first that accepts. */
  function Asked(list: seq<Slot>, accepting: set<Slot>): set<Slot> {
    if list == [] || (list[0] in accepting && list[0] != Nil) then {}
    else {list[0]} + Asked(list[1..], accepting)
  }

  /** The connections are asked in the order of the list, and the first that accepts is taken. */
  lemma {:induction false} TakesFirst(list: seq<Slot>, accepting: set<Slot>) returns (i: nat)
    ensures i <= |list| && forall j :: 0 <= j < i ==> list[j] == Nil || list[j] !in accepting
    ensures forall cc :: cc in Asked(list, accepting) <==> cc in list[..i]
    ensures FirstAccepting(list, accepting) == if i < |list| then list[i] else Nil
    ensures i < |list| ==> list[i] != Nil && list[i] in accepting
  {
    if list == [] || (list[0] in accepting && list[0] != Nil) {
      i := 0;
    } else {
      var k := TakesFirst(list[1..], accepting);
      i := k + 1;
      assert list[..i] == [list[0]] + list[1..][..k];
    }
  }

  /** A dial that failed because someone else's context ended is dialed again. */
  predicate ShouldRetryDial(call: DialCall, ctx: nat, cancelled: set<nat>)
    requires call.stage.Closed?
  {
    && call.stage.res.Refused?
    && call.ctx != ctx
    && (call.stage.res.e == Canceled || call.stage.res.e == DeadlineExceeded)
    && call.ctx in cancelled
  }

  function Moved(p: Pool, c: nat, progress: Progress): Pool
    requires c < |p.callers|
  {
    p.(callers := p.callers[c := p.callers[c].(progress := progress)])
  }

  /** Connections in `asked` refused; those that never served anyone are wasted. */
  function Refusing(p: Pool, asked: set<Slot>): Pool {
    p.(wasted := p.wasted + (set cc <- asked | cc !in p.granted))
  }

  function Serving(p: Pool, c: nat, cc: Slot): Pool
    requires c < |p.callers|
  {
    Moved(p.(granted := if cc in p.granted then p.granted else p.granted[cc := c]), c, Got(cc))
  }

  function StartDial(p: Pool, c: nat): Pool
    requires c < |p.callers|
  {
    var caller := p.callers[c];
    if caller.addr in p.dialing then Moved(p, c, Waiting(p.dialing[caller.addr]))
    else
      Moved(p.(dialing := p.dialing[caller.addr := |p.calls|],
               calls := p.calls + [DialCall(caller.addr, caller.ctx, c, Dialing)]), c, Waiting(|p.calls|))
  }

  predicate Enabled(p: Pool, step: Step) {
    match step
    case Look(c, _) => c < |p.callers| && p.callers[c].progress == Looking
    case FinishDial(d, res) =>
      d < |p.calls| && p.calls[d].stage == Dialing && (res.Dialed? ==> res.cc != Nil && res.cc !in p.granted && FreshFor(p, res.cc))
    case CloseDone(d) => d < |p.calls| && p.calls[d].stage.Published?
    case Wake(c, _) =>
      && c < |p.callers| && p.callers[c].progress.Waiting?
      && p.callers[c].progress.call < |p.calls| && p.calls[p.callers[c].progress.call].stage.Closed?
    case CancelContext(_) => true
    case MarkDead(cc) => cc != Nil
    case AddIdle(_, cc) => cc != Nil && FreshFor(p, cc)
  }

  /** A connection made just now belongs to no other dial and is in no list. It may already have
      been marked dead. */
  predicate FreshFor(p: Pool, cc: Slot) {
    && cc !in p.index.keys
    && forall d :: 0 <= d < |p.calls| ==> (p.calls[d].stage == Dialing || p.calls[d].stage.res != Dialed(cc))
  }

  function Apply(p: Pool, step: Step): Pool
    requires Enabled(p, step)
  {
    match step
    case Look(c, accepting) =>
      var list := ConnsOf(p.index, p.callers[c].addr);
      var cc := FirstAccepting(list, accepting);
      var q := Refusing(p, Asked(list, accepting));
      if cc != Nil then Serving(q, c, cc)
      else if !p.callers[c].dialOnMiss then Moved(q, c, Failed(NoCachedConn, -1))
      else StartDial(q, c)
    case FinishDial(d, res) =>
      var call := p.calls[d];
      p.(dialing := p.dialing - {call.addr},
         calls := p.calls[d := call.(stage := Published(res))],
         index := if res.Dialed? then AddConn(p.index, call.addr, res.cc) else p.index)
    case CloseDone(d) =>
      p.(calls := p.calls[d := p.calls[d].(stage := Closed(p.calls[d].stage.res))])
    case Wake(c, accepting) =>
      var caller := p.callers[c];
      var d := caller.progress.call;
      var call := p.calls[d];
      var again := p.(callers := p.callers[c := caller.(progress := Looking, seen := caller.seen + {d})]);
      if ShouldRetryDial(call, caller.ctx, p.cancelled) then again
      else
        (match call.stage.res
         case Refused(e) => Moved(p, c, Failed(e, d))
         case Dialed(cc) => if cc in accepting then Serving(p, c, cc) else Refusing(again, {cc}))
    case CancelContext(ctx) => p.(cancelled := p.cancelled + {ctx})
    case MarkDead(cc) => Refusing(p, {cc}).(index := DropConn(p.index, cc), dead := p.dead + {cc})
    case AddIdle(addr, cc) => p.(index := AddConn(p.index, addr, cc))
  }

  /** A pool before any dial, with callers that have not looked yet. */
  ghost predicate Initial(p: Pool) {
    && Valid(p.index) && p.dialing == map[] && p.calls == [] && p.granted == map[] && p.wasted == {}
    && (forall c :: 0 <= c < |p.callers| ==> p.callers[c].progress == Looking && p.callers[c].seen == {})
  }

  /** `trace` is a run from its first pool to its last. */
  ghost predicate IsRun(trace: seq<Pool>, steps: seq<Step>) {
    && |trace| == |steps| + 1 && Initial(trace[0])
    && forall i :: 0 <= i < |steps| ==> Enabled(trace[i], steps[i]) && trace[i + 1] == Apply(trace[i], steps[i])
  }
}
