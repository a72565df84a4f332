/** What the pool's callers are given is their own: connections made for their address, and errors
    of dials to it. */
module PoolOrigin {
  import opened PoolIndex
  import opened PoolDialing
  import opened PoolSafety

  predicate Makes(p: Pool, step: Step, addr: string, cc: Slot) {
    match step
    case FinishDial(d, res) => res == Dialed(cc) && d < |p.calls| && p.calls[d].addr == addr
    case AddIdle(to, made) => to == addr && made == cc
    case _ => false
  }

  /** The connection was in the pool at the start, was dialed for the address, or was added to it. */
  ghost predicate MadeFor(trace: seq<Pool>, steps: seq<Step>, k: nat, addr: string, cc: Slot)
    requires |trace| == |steps| + 1 && k <= |steps|
  {
    cc in ConnsOf(trace[0].index, addr) || exists j :: 0 <= j < k && Makes(trace[j], steps[j], addr, cc)
  }

  lemma OnlyMakingAdds(p: Pool, step: Step, addr: string, cc: Slot)
    requires Good(p) && Enabled(p, step) && cc in ConnsOf(Apply(p, step).index, addr)
    ensures cc in ConnsOf(p.index, addr) || Makes(p, step, addr, cc)
  {
    hide FirstAccepting, Asked, AddConn, DropConn, SingleFlight, CallersFit, ShouldRetryDial, Charged, AllAnnounced, Valid, ConnsOf;
    match step
    case FinishDial(d, res) =>
      if res.Dialed? {
        AddedConns(p.index, p.calls[d].addr, res.cc, addr);
      }
    case MarkDead(dead) => DropConnKeeps(p.index, dead);
    case AddIdle(to, made) => AddedConns(p.index, to, made, addr);
    case _ =>
  }

  lemma AddedConns(ix: Index, key: string, cc: Slot, addr: string)
    ensures forall c :: c in ConnsOf(AddConn(ix, key, cc), addr) ==> c in ConnsOf(ix, addr) || (addr == key && c == cc)
  {
  }

  lemma {:induction false} IndexedIsMade(trace: seq<Pool>, steps: seq<Step>, k: nat, addr: string, cc: Slot)
    requires IsRun(trace, steps) && k <= |steps| && cc in ConnsOf(trace[k].index, addr)
    ensures MadeFor(trace, steps, k, addr, cc)
  {
    hide Apply, Enabled, ConnsOf, Makes, Good;
    if k > 0 {
      RunIsGood(trace, steps, k - 1);
      OnlyMakingAdds(trace[k - 1], steps[k - 1], addr, cc);
      if cc in ConnsOf(trace[k - 1].index, addr) {
        IndexedIsMade(trace, steps, k - 1, addr, cc);
      }
    }
  }

  /** Calls keep their address and their results; only the end of a dial sets one. */
  lemma ResultsStay(p: Pool, step: Step, d: nat)
    requires Enabled(p, step) && d < |Apply(p, step).calls| && Over(Apply(p, step).calls[d])
    ensures d < |p.calls| && Apply(p, step).calls[d].addr == p.calls[d].addr
    ensures var res := Apply(p, step).calls[d].stage.res;
      (Over(p.calls[d]) && p.calls[d].stage.res == res) || step == FinishDial(d, res)
  {
    hide FirstAccepting, Asked, ConnsOf, AddConn, DropConn, ShouldRetryDial;
  }

  lemma {:induction false} DialedIsMade(trace: seq<Pool>, steps: seq<Step>, k: nat, d: nat)
    requires IsRun(trace, steps) && k <= |steps| && d < |trace[k].calls|
    requires Over(trace[k].calls[d]) && trace[k].calls[d].stage.res.Dialed?
    ensures MadeFor(trace, steps, k, trace[k].calls[d].addr, trace[k].calls[d].stage.res.cc)
  {
    hide Apply, Enabled, ConnsOf;
    if k > 0 {
      ResultsStay(trace[k - 1], steps[k - 1], d);
      if Over(trace[k - 1].calls[d]) && trace[k - 1].calls[d].stage.res == trace[k].calls[d].stage.res {
        DialedIsMade(trace, steps, k - 1, d);
      } else {
        assert Makes(trace[k - 1], steps[k - 1], trace[k].calls[d].addr, trace[k].calls[d].stage.res.cc);
      }
    }
  }

  /** A caller that has not moved keeps what it has; one that moved got it from a look or a dial. */
  lemma WhereItCameFrom(p: Pool, step: Step, c: nat)
    requires Good(p) && Enabled(p, step) && c < |p.callers|
    ensures c < |Apply(p, step).callers| && Apply(p, step).callers[c].addr == p.callers[c].addr
    ensures Apply(p, step).callers[c].dialOnMiss == p.callers[c].dialOnMiss
    ensures match Apply(p, step).callers[c].progress
      case Got(cc) =>
        || p.callers[c].progress == Got(cc)
        || cc in ConnsOf(p.index, p.callers[c].addr)
        || exists d: nat :: d < |p.calls| && p.calls[d].addr == p.callers[c].addr && p.calls[d].stage == Closed(Dialed(cc))
      case Failed(e, d) =>
        || p.callers[c].progress == Failed(e, d)
        || (d == -1 && e == NoCachedConn && !p.callers[c].dialOnMiss)
        || (0 <= d < |p.calls| && p.calls[d].addr == p.callers[c].addr && p.calls[d].stage == Closed(Refused(e)))
      case _ => true
  {
    hide FirstAccepting, Asked, AddConn, DropConn, ConnsOf, Valid, SingleFlight, AllAnnounced, Charged, ShouldRetryDial;
    assert CallerFits(p, p.callers[c]);
    match step
    case Look(_, _) => LookMovesOne(p, step);
    case Wake(_, _) => WakeMovesOne(p, step);
    case _ =>
  }

  /** In every run a caller that has a connection has one made for its own address, and a caller
      that failed has the error of a dial to that address, or did not want one and found none. */
  lemma {:induction false} AnswersAreOwn(trace: seq<Pool>, steps: seq<Step>, k: nat, c: nat)
    requires IsRun(trace, steps) && k <= |steps| && c < |trace[k].callers|
    ensures var (p, caller) := (trace[k], trace[k].callers[c]);
      match caller.progress
      case Got(cc) => MadeFor(trace, steps, k, caller.addr, cc)
      case Failed(e, d) =>
        || (d == -1 && e == NoCachedConn && !caller.dialOnMiss)
        || (0 <= d < |p.calls| && p.calls[d].addr == caller.addr && p.calls[d].stage == Closed(Refused(e)))
      case _ => true
  {
    hide Apply, Enabled, ConnsOf, Good, Makes;
    if k > 0 {
      RunIsGood(trace, steps, k);
      RunIsGood(trace, steps, k - 1);
      WhereItCameFrom(trace[k - 1], steps[k - 1], c);
      AnswersAreOwn(trace, steps, k - 1, c);
      var (p, caller) := (trace[k - 1], trace[k].callers[c]);
      match caller.progress
      case Got(cc) =>
        if cc in ConnsOf(p.index, caller.addr) {
          IndexedIsMade(trace, steps, k - 1, caller.addr, cc);
        } else if p.callers[c].progress != Got(cc) {
          var d: nat :| d < |p.calls| && p.calls[d].addr == caller.addr && p.calls[d].stage == Closed(Dialed(cc));
          DialedIsMade(trace, steps, k - 1, d);
        }
      case Failed(_, d) =>
        if d >= 0 {
          ClosedStays(p, steps[k - 1], d);
        }
      case _ =>
    }
  }

  lemma ClosedStays(p: Pool, step: Step, d: nat)
    requires Enabled(p, step) && d < |p.calls| && p.calls[d].stage.Closed?
    ensures d < |Apply(p, step).calls| && Apply(p, step).calls[d] == p.calls[d]
  {
    hide FirstAccepting, Asked, ConnsOf, AddConn, DropConn, ShouldRetryDial;
  }

  // ---- Why a dial was started ----

  /** The step is a look of the caller at the pooled connections of its address, none of which
      accepts, by a caller that may dial. */
  ghost predicate MissesFor(p: Pool, step: Step, c: nat, addr: string) {
    && step.Look? && step.c == c && c < |p.callers|
    && p.callers[c].addr == addr && p.callers[c].dialOnMiss && addr !in p.dialing
    && NoneAccepts(ConnsOf(p.index, addr), step.accepting)
  }

  lemma OnlyMissesDial(p: Pool, step: Step, d: nat)
    requires Enabled(p, step) && d < |Apply(p, step).calls|
    ensures var call := Apply(p, step).calls[d];
      if d < |p.calls| then call.addr == p.calls[d].addr && call.owner == p.calls[d].owner
      else MissesFor(p, step, call.owner, call.addr)
  {
    hide FirstAccepting, Asked, ConnsOf, AddConn, DropConn, ShouldRetryDial, NoneAccepts;
    if step.Look? {
      LookMovesOne(p, step);
      LookTakesFirst(p, step, 0);
    }
  }

  /** In every run a dial was started only by a caller that may dial, when no dial for its address was
      under way and every pooled connection of the address had refused. */
  lemma {:induction false} DialsFollowMisses(trace: seq<Pool>, steps: seq<Step>, k: nat, d: nat)
    requires IsRun(trace, steps) && k <= |steps| && d < |trace[k].calls|
    ensures exists j :: 0 <= j < k && MissesFor(trace[j], steps[j], trace[k].calls[d].owner, trace[k].calls[d].addr)
  {
    hide Apply, Enabled, MissesFor;
    if k > 0 {
      OnlyMissesDial(trace[k - 1], steps[k - 1], d);
      if d < |trace[k - 1].calls| {
        DialsFollowMisses(trace, steps, k - 1, d);
      }
    }
  }
}
