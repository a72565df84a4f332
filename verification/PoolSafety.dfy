/** What holds in every reachable state of the pool. */
module PoolSafety {
  import opened PoolIndex
  import opened PoolDialing

  /** The dial is over; its result may or may not be announced yet. */
  predicate Over(call: DialCall) {
    call.stage != Dialing
  }

  predicate Dials(call: DialCall, cc: Slot) {
    Over(call) && call.stage.res == Dialed(cc)
  }

  // ---- Single flight ----

  /** `dialing` names exactly the dials in flight, each under its own address. */
  ghost predicate SingleFlight(p: Pool) {
    && (forall addr <- p.dialing :: p.dialing[addr] < |p.calls| && p.calls[p.dialing[addr]].addr == addr
                                    && p.calls[p.dialing[addr]].stage == Dialing)
    && (forall d :: 0 <= d < |p.calls| && p.calls[d].stage == Dialing ==>
          p.calls[d].addr in p.dialing && p.dialing[p.calls[d].addr] == d)
  }

  /** A connection that was dialed is in the pool under its address, unless it was marked dead. */
  ghost predicate Announced(p: Pool, call: DialCall) {
    Over(call) && call.stage.res.Dialed? ==>
      call.stage.res.cc != Nil && (call.stage.res.cc in ConnsOf(p.index, call.addr) || call.stage.res.cc in p.dead)
  }

  ghost predicate AllAnnounced(p: Pool) {
    forall d :: 0 <= d < |p.calls| ==> Announced(p, p.calls[d])
  }

  // ---- Who pays for a dial ----

  ghost predicate WaitsFor(caller: Caller, d: nat) {
    caller.progress == Waiting(d) || (caller.progress.Failed? && caller.progress.dial == d)
  }

  /** The dial produced a connection that served someone, or that was wasted. */
  predicate Spent(p: Pool, call: DialCall) {
    Over(call) && call.stage.res.Dialed? && (call.stage.res.cc in p.granted || call.stage.res.cc in p.wasted)
  }

  /** Every dial was started by a caller with the dial's context, and that caller still waits for
      it or failed with it, unless its connection is spent. */
  ghost predicate Paid(p: Pool, d: nat)
    requires d < |p.calls|
  {
    var call := p.calls[d];
    && call.owner < |p.callers| && p.callers[call.owner].ctx == call.ctx
    && (Spent(p, call) || WaitsFor(p.callers[call.owner], d))
  }

  ghost predicate Charged(p: Pool) {
    && (forall cc <- p.granted :: p.granted[cc] < |p.callers| && p.callers[p.granted[cc]].progress == Got(cc))
    && (forall d, e, cc :: 0 <= d < |p.calls| && 0 <= e < |p.calls| && Dials(p.calls[d], cc) && Dials(p.calls[e], cc) ==> d == e)
    && (forall d :: 0 <= d < |p.calls| ==> Paid(p, d))
  }

  // ---- Callers ----

  ghost predicate CallersFit(p: Pool) {
    forall c :: 0 <= c < |p.callers| ==> CallerFits(p, p.callers[c])
  }

  ghost predicate CallerFits(p: Pool, caller: Caller) {
    && (forall d <- caller.seen :: d < |p.calls| && p.calls[d].stage.Closed?)
    && (caller.progress.Waiting? ==>
          caller.progress.call < |p.calls| && p.calls[caller.progress.call].addr == caller.addr && caller.progress.call !in caller.seen)
  }

  ghost predicate Good(p: Pool) {
    Valid(p.index) && SingleFlight(p) && AllAnnounced(p) && Charged(p) && CallersFit(p)
  }

  lemma InitialIsGood(p: Pool)
    requires Initial(p)
    ensures Good(p)
  {
  }

  lemma SingleFlightStays(p: Pool, step: Step)
    requires Good(p) && Enabled(p, step)
    ensures SingleFlight(Apply(p, step))
  {
    hide FirstAccepting, Asked, ConnsOf, AddConn, DropConn, Valid, AllAnnounced, Charged, ShouldRetryDial, CallersFit;
    hide Serving, StartDial;
    match step
    case Look(_, _) => LookMovesOne(p, step);
    case Wake(_, _) => WakeMovesOne(p, step);
    case _ =>
  }

  lemma ValidStays(p: Pool, step: Step)
    requires Good(p) && Enabled(p, step)
    ensures Valid(Apply(p, step).index)
  {
    hide FirstAccepting, Asked, AddConn, DropConn, SingleFlight, CallersFit, ShouldRetryDial, Charged, AllAnnounced;
    match step
    case FinishDial(d, res) => if res.Dialed? { AddConnKeeps(p.index, p.calls[d].addr, res.cc); }
    case MarkDead(cc) => DropConnKeeps(p.index, cc);
    case AddIdle(addr, cc) => AddConnKeeps(p.index, addr, cc);
    case _ =>
  }

  lemma AnnouncedStays(p: Pool, step: Step)
    requires Good(p) && Enabled(p, step)
    ensures AllAnnounced(Apply(p, step))
  {
    hide FirstAccepting, Asked, AddConn, DropConn, SingleFlight, CallersFit, ShouldRetryDial, Charged, ConnsOf;
    match step
    case FinishDial(d, res) => if res.Dialed? { AddConnKeeps(p.index, p.calls[d].addr, res.cc); }
    case MarkDead(cc) => DropConnKeeps(p.index, cc);
    case AddIdle(addr, cc) => AddConnKeeps(p.index, addr, cc);
    case _ =>
  }

  lemma CallerStillFits(p: Pool, step: Step, c: nat)
    requires Good(p) && Enabled(p, step) && c < |p.callers|
    ensures |Apply(p, step).callers| == |p.callers| && CallerFits(Apply(p, step), Apply(p, step).callers[c])
  {
    assert CallerFits(p, p.callers[c]);
    hide FirstAccepting, Asked, ConnsOf, AddConn, DropConn, Valid, AllAnnounced, Charged, ShouldRetryDial, CallersFit, Refusing;
    match step
    case Look(_, _) => LookMovesOne(p, step);
    case Wake(_, _) => WakeMovesOne(p, step);
    case _ =>
  }

  /** The connection reserves a request for whoever asks. */
  predicate Accepts(cc: Slot, accepting: set<Slot>) {
    cc != Nil && cc in accepting
  }

  /** The first connection of the address that accepts, if one does. */
  ghost predicate IsFirst(list: seq<Slot>, accepting: set<Slot>, i: nat) {
    i < |list| && Accepts(list[i], accepting) && forall j :: 0 <= j < i ==> !Accepts(list[j], accepting)
  }

  ghost predicate NoneAccepts(list: seq<Slot>, accepting: set<Slot>) {
    forall i :: 0 <= i < |list| ==> !Accepts(list[i], accepting)
  }

  /** A look takes the first pooled connection of the address that accepts. Only if none does, the
      caller waits for a dial, or fails if it wants none. */
  lemma {:induction false} LookTakesFirst(p: Pool, step: Step, i: nat)
    requires Enabled(p, step) && step.Look?
    ensures var (list, caller) := (ConnsOf(p.index, p.callers[step.c].addr), p.callers[step.c]);
      var progress := Apply(p, step).callers[step.c].progress;
      && (IsFirst(list, step.accepting, i) ==> progress == Got(list[i]))
      && (NoneAccepts(list, step.accepting) ==>
            if caller.dialOnMiss then progress.Waiting? else progress == Failed(NoCachedConn, -1))
      && (progress.Waiting? ==> NoneAccepts(list, step.accepting) && caller.dialOnMiss)
  {
    var list := ConnsOf(p.index, p.callers[step.c].addr);
    var k := TakesFirst(list, step.accepting);
    hide FirstAccepting, Asked;
    assert NoneAccepts(list, step.accepting) <==> k == |list|;
    if IsFirst(list, step.accepting, i) {
      assert i == k;
    }
  }

  /** A look changes the looking caller only, and starts at most one dial, for that caller. */
  lemma LookMovesOne(p: Pool, step: Step)
    requires Enabled(p, step) && step.Look?
    ensures var (q, c) := (Apply(p, step), step.c);
      var caller := p.callers[c];
      && (exists progress :: q.callers == p.callers[c := caller.(progress := progress)])
      && q.index == p.index && q.cancelled == p.cancelled && q.dead == p.dead && p.wasted <= q.wasted
      && match q.callers[c].progress
         case Looking => false
         case Got(cc) =>
           && q.calls == p.calls && q.dialing == p.dialing && cc in ConnsOf(p.index, caller.addr) && Accepts(cc, step.accepting)
           && q.granted == if cc in p.granted then p.granted else p.granted[cc := c]
         case Failed(e, d) =>
           && q.calls == p.calls && q.dialing == p.dialing && q.granted == p.granted
           && d == -1 && e == NoCachedConn && !caller.dialOnMiss
         case Waiting(d) =>
           && q.granted == p.granted
           && if caller.addr in p.dialing then q.calls == p.calls && q.dialing == p.dialing && d == p.dialing[caller.addr]
              else
                && q.calls == p.calls + [DialCall(caller.addr, caller.ctx, c, Dialing)] && d == |p.calls|
                && q.dialing == p.dialing[caller.addr := d]
  {
  }

  /** The dial failed because the context of another request had ended. */
  predicate EndedElsewhere(call: DialCall, e: Error, ctx: nat, cancelled: set<nat>) {
    call.ctx != ctx && call.ctx in cancelled && (e == Canceled || e == DeadlineExceeded)
  }

  /** A wake-up changes the woken caller only. It takes the dial's connection exactly if that accepts,
      looks again if it does not or if the dial ended with another request, and else fails with the
      dial's error. */
  lemma WakeMovesOne(p: Pool, step: Step)
    requires Enabled(p, step) && step.Wake?
    ensures var (q, c) := (Apply(p, step), step.c);
      var (caller, d) := (p.callers[c], p.callers[c].progress.call);
      var call := p.calls[d];
      && q.calls == p.calls && q.dialing == p.dialing && q.index == p.index && q.cancelled == p.cancelled && q.dead == p.dead
      && q.callers == p.callers[c := q.callers[c]] && p.wasted <= q.wasted
      && q.callers[c].addr == caller.addr && q.callers[c].ctx == caller.ctx
      && match call.stage.res
         case Dialed(cc) =>
           if cc in step.accepting then
             && q.callers[c] == caller.(progress := Got(cc))
             && q.granted == if cc in p.granted then p.granted else p.granted[cc := c]
           else
             && q.callers[c] == caller.(progress := Looking, seen := caller.seen + {d})
             && q.granted == p.granted && (cc in p.granted || cc in q.wasted)
         case Refused(e) =>
           && q.granted == p.granted
           && q.callers[c] == if EndedElsewhere(call, e, caller.ctx, p.cancelled)
                              then caller.(progress := Looking, seen := caller.seen + {d})
                              else caller.(progress := Failed(e, d))
  {
  }

  /** In this step the connection refused a caller, or it was marked dead. */
  ghost predicate RefusesIn(p: Pool, step: Step, cc: Slot)
    requires Enabled(p, step)
  {
    match step
    case Look(c, accepting) =>
      var list := ConnsOf(p.index, p.callers[c].addr);
      exists j :: 0 <= j < |list| && list[j] == cc && NoneAccepts(list[..j + 1], accepting)
    case Wake(c, accepting) =>
      p.calls[p.callers[c].progress.call].stage.res == Dialed(cc) && cc !in accepting
    case MarkDead(dead) => dead == cc
    case _ => false
  }

  /** Wasted are exactly the connections that refused or were marked dead before they served anyone,
      and dead those that were marked. */
  lemma {:induction false} OnlyRefusedAreWasted(p: Pool, step: Step, cc: Slot)
    requires Enabled(p, step)
    ensures cc in Apply(p, step).wasted <==> cc in p.wasted || (cc !in p.granted && RefusesIn(p, step, cc))
    ensures cc in Apply(p, step).dead <==> cc in p.dead || step == MarkDead(cc)
  {
    hide FirstAccepting, Asked, ConnsOf, AddConn, DropConn, ShouldRetryDial;
    if step.Look? {
      AskedRefuse(ConnsOf(p.index, p.callers[step.c].addr), step.accepting, cc);
    } else if step.Wake? {
      WakeMovesOne(p, step);
    }
  }

  lemma {:induction false} AskedRefuse(list: seq<Slot>, accepting: set<Slot>, cc: Slot)
    ensures cc in Asked(list, accepting)
      <==> exists j :: 0 <= j < |list| && list[j] == cc && NoneAccepts(list[..j + 1], accepting)
  {
    var k := TakesFirst(list, accepting);
    hide FirstAccepting, Asked;
    if cc in list[..k] {
      var j :| 0 <= j < k && list[j] == cc;
      assert NoneAccepts(list[..j + 1], accepting);
    }
    forall j | 0 <= j < |list| && list[j] == cc && NoneAccepts(list[..j + 1], accepting) ensures cc in list[..k] {
      forall i | 0 <= i <= j ensures !Accepts(list[i], accepting) {
        assert list[..j + 1][i] == list[i];
      }
      assert list[..k][j] == cc;
    }
  }

  lemma PaidStays(p: Pool, step: Step, d: nat)
    requires Good(p) && Enabled(p, step) && d < |Apply(p, step).calls|
    ensures Paid(Apply(p, step), d)
  {
    hide FirstAccepting, Asked, ConnsOf, AddConn, DropConn, Valid, AllAnnounced, SingleFlight, CallersFit, ShouldRetryDial;
    match step
    case Look(_, _) => PaidAfterLook(p, step, d);
    case Wake(_, _) => PaidAfterWake(p, step, d);
    case FinishDial(_, _) => assert Paid(p, d);
    case CloseDone(_) => assert Paid(p, d);
    case CancelContext(_) => assert Paid(p, d);
    case MarkDead(cc) => assert Paid(p, d);
    case AddIdle(addr, cc) => assert Paid(p, d);
  }

  lemma PaidAfterLook(p: Pool, step: Step, d: nat)
    requires Good(p) && Enabled(p, step) && step.Look? && d < |Apply(p, step).calls|
    ensures Paid(Apply(p, step), d)
  {
    LookMovesOne(p, step);
    assert d < |p.calls| ==> Paid(p, d);
    hide Apply, Valid, AllAnnounced, SingleFlight, CallersFit;
  }

  lemma PaidAfterWake(p: Pool, step: Step, d: nat)
    requires Good(p) && Enabled(p, step) && step.Wake? && d < |Apply(p, step).calls|
    ensures Paid(Apply(p, step), d)
  {
    WakeMovesOne(p, step);
    assert Paid(p, d);
    hide Apply, Valid, AllAnnounced, SingleFlight, CallersFit;
  }

  lemma GrantsStay(p: Pool, step: Step)
    requires Good(p) && Enabled(p, step)
    ensures var q := Apply(p, step);
      forall cc <- q.granted :: q.granted[cc] < |q.callers| && q.callers[q.granted[cc]].progress == Got(cc)
  {
    hide FirstAccepting, Asked, ConnsOf, AddConn, DropConn, Valid, AllAnnounced, SingleFlight, CallersFit, ShouldRetryDial, Paid;
    hide Serving, Refusing, StartDial;
    match step
    case Look(_, _) => LookMovesOne(p, step);
    case Wake(_, _) => WakeMovesOne(p, step);
    case _ => GrantsUntouched(p, step);
  }

  lemma GrantsUntouched(p: Pool, step: Step)
    requires Enabled(p, step) && !step.Look? && !step.Wake?
    ensures Apply(p, step).granted == p.granted && Apply(p, step).callers == p.callers
  {
  }

  lemma DialsStayApart(p: Pool, step: Step)
    requires Good(p) && Enabled(p, step)
    ensures var q := Apply(p, step);
      forall d, e, cc :: 0 <= d < |q.calls| && 0 <= e < |q.calls| && Dials(q.calls[d], cc) && Dials(q.calls[e], cc) ==> d == e
  {
    hide FirstAccepting, Asked, ConnsOf, AddConn, DropConn, Valid, AllAnnounced, SingleFlight, CallersFit, ShouldRetryDial;
  }

  lemma {:induction false} StepIsGood(p: Pool, step: Step)
    requires Good(p) && Enabled(p, step)
    ensures Good(Apply(p, step))
  {
    hide Apply, Valid, SingleFlight, AllAnnounced, Paid, CallerFits, Enabled;
    var q := Apply(p, step);
    ValidStays(p, step);
    SingleFlightStays(p, step);
    AnnouncedStays(p, step);
    GrantsStay(p, step);
    DialsStayApart(p, step);
    forall d: nat | d < |q.calls| ensures Paid(q, d) {
      PaidStays(p, step, d);
    }
    CallersCount(p, step);
    forall c: nat | c < |q.callers| ensures CallerFits(q, q.callers[c]) {
      CallerStillFits(p, step, c);
    }
  }

  lemma CallersCount(p: Pool, step: Step)
    requires Enabled(p, step)
    ensures |Apply(p, step).callers| == |p.callers|
  {
  }

  lemma {:induction false} RunIsGood(trace: seq<Pool>, steps: seq<Step>, i: nat)
    requires IsRun(trace, steps) && i < |trace|
    ensures Good(trace[i]) && |trace[i].callers| == |trace[0].callers|
  {
    if i == 0 {
      InitialIsGood(trace[0]);
    } else {
      RunIsGood(trace, steps, i - 1);
      StepIsGood(trace[i - 1], steps[i - 1]);
      CallersCount(trace[i - 1], steps[i - 1]);
    }
  }

  // ---- What a caller past `<-call.done` sees ----

  /** At every step of every run, no address has two dials in flight, and a dial whose `done` is
      closed is finished, no longer registered, and on success its connection is in the pool
      under its address, unless it was marked dead. */
  lemma {:induction false} DoneMeansPublished(trace: seq<Pool>, steps: seq<Step>, i: nat, d: nat, e: nat)
    requires IsRun(trace, steps) && i < |trace| && d < |trace[i].calls| && e < |trace[i].calls|
    ensures var p := trace[i];
      && Valid(p.index)
      && (p.calls[d].stage == Dialing && p.calls[e].stage == Dialing && p.calls[d].addr == p.calls[e].addr ==> d == e)
      && (p.calls[d].stage.Closed? ==>
            && d !in p.dialing.Values
            && (p.calls[d].stage.res.Dialed? ==>
                  p.calls[d].stage.res.cc in ConnsOf(p.index, p.calls[d].addr) || p.calls[d].stage.res.cc in p.dead))
  {
    RunIsGood(trace, steps, i);
  }

  // ---- How many dials there can be ----

  /** Dials whose connection refused a caller or died before it served anyone. */
  function WastedDials(p: Pool): set<nat> {
    set d: nat | d < |p.calls| && Over(p.calls[d]) && p.calls[d].stage.res.Dialed? && p.calls[d].stage.res.cc in p.wasted
  }

  /** The caller that pays for a dial that was not wasted. */
  function Payer(p: Pool, d: nat): nat
    requires d < |p.calls|
  {
    var call := p.calls[d];
    if Over(call) && call.stage.res.Dialed? && call.stage.res.cc in p.granted then p.granted[call.stage.res.cc]
    else call.owner
  }

  lemma PayersDiffer(p: Pool, d: nat, e: nat)
    requires Charged(p) && d < |p.calls| && e < |p.calls| && d != e
    requires d !in WastedDials(p) && e !in WastedDials(p)
    ensures Payer(p, d) < |p.callers| && Payer(p, d) != Payer(p, e)
  {
    assert Paid(p, d) && Paid(p, e);
    if Spent(p, p.calls[d]) && Spent(p, p.calls[e]) {
      assert Dials(p.calls[d], p.calls[d].stage.res.cc) && Dials(p.calls[e], p.calls[e].stage.res.cc);
    }
  }

  /** An injective assignment of numbers below `n` to the members of a set bounds its size. */
  lemma {:induction false} Pigeonhole(s: set<nat>, f: map<nat, nat>, n: nat)
    requires s <= f.Keys
    requires forall d <- s :: f[d] < n
    requires forall d, e :: d in s && e in s && d != e ==> f[d] != f[e]
    ensures |s| <= n
  {
    if n == 0 {
      assert s == {};
    } else if exists d :: d in s && f[d] == n - 1 {
      var d :| d in s && f[d] == n - 1;
      Pigeonhole(s - {d}, f, n - 1);
    } else {
      Pigeonhole(s, f, n - 1);
    }
  }

  /** The numbers below `n`. */
  function Below(n: nat): (s: set<nat>)
    ensures |s| == n && forall d: nat :: d in s <==> d < n
  {
    if n == 0 then {} else Below(n - 1) + {n - 1}
  }

  lemma {:induction false} DialsAreBounded(p: Pool)
    requires Charged(p)
    ensures |p.calls| <= |p.callers| + |WastedDials(p)|
  {
    var all := Below(|p.calls|);
    var paid := all - WastedDials(p);
    assert WastedDials(p) <= all;
    var f := map d | d in paid :: Payer(p, d);
    forall d <- paid ensures f[d] < |p.callers| {
      assert Paid(p, d);
    }
    forall d, e | d in paid && e in paid && d != e ensures f[d] != f[e] {
      PayersDiffer(p, d, e);
    }
    Pigeonhole(paid, f, |p.callers|);
  }

  /** In every run, whatever the network does, the pool starts at most one dial for each caller,
      plus one for each dialed connection that refused or died before it served anyone. */
  lemma {:induction false} OneDialPerCaller(trace: seq<Pool>, steps: seq<Step>, i: nat)
    requires IsRun(trace, steps) && i < |trace|
    ensures |trace[i].calls| <= |trace[0].callers| + |WastedDials(trace[i])|
  {
    RunIsGood(trace, steps, i);
    DialsAreBounded(trace[i]);
  }

  /** What the other steps do, said of what callers and later steps can see. */
  lemma {:induction false} OtherStepsDo(p: Pool, step: Step, key: string)
    requires Good(p) && Enabled(p, step) && !step.Look? && !step.Wake?
    ensures var q := Apply(p, step);
      && q.callers == p.callers && q.granted == p.granted
      && match step
         case FinishDial(d, res) =>
           && q.calls == p.calls[d := p.calls[d].(stage := Published(res))]
           && p.calls[d].addr !in q.dialing && (forall addr <- p.dialing :: addr != p.calls[d].addr ==> addr in q.dialing)
           && (if res.Dialed? && key == p.calls[d].addr then ConnsOf(q.index, key) == ConnsOf(p.index, key) + [res.cc]
               else ConnsOf(q.index, key) == ConnsOf(p.index, key))
         case CloseDone(d) =>
           && q.calls == p.calls[d := p.calls[d].(stage := Closed(p.calls[d].stage.res))]
           && q.dialing == p.dialing && q.index == p.index && q.cancelled == p.cancelled
         case CancelContext(ctx) => q == p.(cancelled := p.cancelled + {ctx})
         case MarkDead(cc) =>
           && q.calls == p.calls && q.dialing == p.dialing && q.dead == p.dead + {cc}
           && cc !in ConnsOf(q.index, key) && ConnsOf(q.index, key) == Without(ConnsOf(p.index, key), cc)
         case AddIdle(addr, cc) =>
           && q.calls == p.calls && q.dialing == p.dialing
           && ConnsOf(q.index, key) == ConnsOf(p.index, key) + if key == addr then [cc] else []
  {
    hide CallersFit, Charged, AllAnnounced, SingleFlight;
    match step
    case FinishDial(d, res) =>
      if res.Dialed? {
        FreshIsNew(p, p.calls[d].addr, res.cc, key);
      }
    case MarkDead(cc) =>
      DropConnKeeps(p.index, cc);
      WithoutMembers(ConnsOf(p.index, key), cc, cc);
    case AddIdle(addr, cc) => FreshIsNew(p, addr, cc, key);
    case _ =>
  }

  lemma FreshIsNew(p: Pool, addr: string, cc: Slot, key: string)
    requires Valid(p.index) && FreshFor(p, cc)
    ensures ConnsOf(AddConn(p.index, addr, cc), key) == ConnsOf(p.index, key) + if key == addr then [cc] else []
  {
    assert cc in ConnsOf(p.index, addr) <==> addr in KeysOf(p.index, cc);
  }

  /** The network may do anything: a dial under way can fail in any way or bring any connection that
      is new, a published one can be closed, and every caller can go on when it is its turn. */
  lemma {:induction false} NothingIsRuledOut(p: Pool, d: nat, res: DialResult, c: nat, accepting: set<Slot>)
    requires d < |p.calls| && c < |p.callers|
    ensures p.calls[d].stage == Dialing && (res.Refused? || (res.cc != Nil && res.cc !in p.granted && FreshFor(p, res.cc)))
            ==> Enabled(p, FinishDial(d, res))
    ensures p.calls[d].stage.Published? ==> Enabled(p, CloseDone(d))
    ensures p.callers[c].progress == Looking ==> Enabled(p, Look(c, accepting))
    ensures p.callers[c].progress == Waiting(d) && p.calls[d].stage.Closed? ==> Enabled(p, Wake(c, accepting))
  {
  }
}
