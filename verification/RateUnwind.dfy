/** When cancelling newest first gives everything back, and when it does not. */
module RateUnwind {
  import opened Rate
  import opened RateArithmetic
  import opened RateBounds
  import opened RateCancel
  import opened RateHistory

  // ---- Where a cancel leaves `lastEvent` ----

  lemma LongerRefill(rate: real, d: int, e: int)
    requires TokensFromDuration(rate, d) < TokensFromDuration(rate, e)
    ensures d < e
  {
  }

  /** A negative amount is worth as many nanoseconds as the amount, the fraction dropped. */
  lemma DurationIsOdd(rate: real, tokens: real)
    requires rate > 0.0 && tokens >= 0.0 && DurationFromTokens(rate, tokens) < INF_DURATION
    ensures DurationFromTokens(rate, -tokens) == -DurationFromTokens(rate, tokens)
  {
    var q := tokens / rate;
    assert -tokens / rate == -q;
    assert q >= 0.0;
  }

  /** The new wait differs from the old one by what `n` is worth, up to one nanosecond more. */
  lemma WaitsDiffer(rate: real, debt: real, d: int, n: int, w: int, longer: int, worth: int)
    requires rate > 0.0
    requires TokensFromDuration(rate, w) <= debt < TokensFromDuration(rate, w + 1)
    requires TokensFromDuration(rate, longer) <= debt - TokensFromDuration(rate, d) + n as real
    requires debt - TokensFromDuration(rate, d) + n as real < TokensFromDuration(rate, longer + 1)
    requires TokensFromDuration(rate, worth) <= n as real < TokensFromDuration(rate, worth + 1)
    ensures w <= d + longer - worth <= w + 1
    ensures TokensFromDuration(rate, worth) == n as real ==> d + longer - worth == w
  {
    hide TokensFromDuration;
    RefillAdds(rate, w, worth);
    RefillAdds(rate, longer + 1, d);
    RefillAdds(rate, longer, d);
    RefillAdds(rate, w + 1, worth + 1);
    RefillAdds(rate, w + 1, worth);
    LongerRefill(rate, w + worth, longer + 1 + d);
    LongerRefill(rate, longer + d, w + 1 + (worth + 1));
    if TokensFromDuration(rate, worth) == n as real {
      LongerRefill(rate, longer + d, w + 1 + worth);
    }
  }

  /** Cancelling a reservation while the one before it is still waiting sets `lastEvent` back to
      that one's time, or one nanosecond after it; to the very time if the amount is worth a whole
      number of nanoseconds. `p` is the bucket the earlier reservation left behind. */
  lemma {:induction false} CancelSetsEventBack(p: Bucket, t: int, n: int, maxWait: int, cancelAt: int)
    requires p.limit.PerSecond? && p.limit.rate > 0.0 && p.tokens < 0.0 && n > 0
    requires p.lastEvent == p.last + WaitFor(p.limit.rate, p.tokens) < p.last + INF_DURATION
    requires p.last <= t <= cancelAt <= p.lastEvent
    requires var r := Reserve(p, t, n, maxWait).1;
      r.ok && r.timeToAct - t < INF_DURATION && DurationFromTokens(p.limit.rate, n as real) < INF_DURATION
    ensures var (s, r) := Reserve(p, t, n, maxWait);
      var event := Cancel(s, r, cancelAt).lastEvent;
      && p.lastEvent <= event <= p.lastEvent + 1
      && (TokensFromDuration(p.limit.rate, DurationFromTokens(p.limit.rate, n as real)) == n as real ==> event == p.lastEvent)
  {
    var (rate, d) := (p.limit.rate, t - p.last);
    var (w, worth) := (WaitFor(rate, p.tokens), DurationFromTokens(rate, n as real));
    WaitBrackets(rate, p.tokens);
    DurationBrackets(rate, n as real);
    DurationIsOdd(rate, n as real);
    RefillGrows(rate, d, w);
    var (s, r) := Reserve(p, t, n, maxWait);
    assert s.tokens == p.tokens + TokensFromDuration(rate, d) - n as real;
    WaitBrackets(rate, s.tokens);
    hide TokensFromDuration, DurationFromTokens, WaitFor, Advance;
    WaitsDiffer(rate, -p.tokens, d, n, w, r.timeToAct - t, worth);
    assert TokensFromDuration(rate, 0) == 0.0 by {
      RefillAdds(rate, 0, 0);
    }
    assert r.timeToAct >= cancelAt;
  }

  /** Whatever the limit has become since, a cancel moves `lastEvent` only if it was the
      reservation's own time: back by the whole nanoseconds its tokens were worth at the rate they
      were reserved at, unless that lies before the cancel. */
  lemma {:induction false} CancelMovesOwnEvent(b: Bucket, r: Reservation, t: int)
    requires r.tokens > 0 && RateOf(r.limit) > 0.0
    requires DurationFromTokens(RateOf(r.limit), r.tokens as real) < INF_DURATION
    ensures var (rate, n, event) := (RateOf(r.limit), r.tokens as real, Cancel(b, r, t).lastEvent);
      if r.ok && b.limit.PerSecond? && t <= r.timeToAct == b.lastEvent && n < TokensFromDuration(rate, r.timeToAct - t + 1) then
        && t <= event
        && TokensFromDuration(rate, r.timeToAct - event) <= n < TokensFromDuration(rate, r.timeToAct - event + 1)
      else
        event == b.lastEvent
  {
    var (rate, n) := (RateOf(r.limit), r.tokens as real);
    var worth := DurationFromTokens(rate, n);
    DurationBrackets(rate, n);
    DurationIsOdd(rate, n);
    RefillAdds(rate, 0, 0);
    if worth <= r.timeToAct - t {
      RefillGrows(rate, worth + 1, r.timeToAct - t + 1);
    } else {
      RefillGrows(rate, r.timeToAct - t + 1, worth);
    }
    hide TokensFromDuration, DurationFromTokens, Advance;
  }

  // ---- Runs whose cancels leave no trace ----

  /** Cancelling the newest reservation at `t` leaves no trace: it took nothing, the bucket is full
      again, or the cancel is not late and gives back all it took or at least enough to fill the
      bucket. */
  predicate LeavesNoTrace(h: History, t: int) {
    h.live.Live? ==>
      var (b, r) := (h.bucket, h.live.r);
      || r.tokens == 0
      || Advance(b, t) == b.burst as real
      || (t <= r.timeToAct
          && (RestoreTokens(b, r) == r.tokens as real || Advance(b, t) + RestoreTokens(b, r) >= b.burst as real))
  }

  ghost predicate CancelsLeaveNoTrace(b: Bucket, ops: seq<Op>) {
    ops == [] ||
    var (earlier, op) := (ops[..|ops| - 1], ops[|ops| - 1]);
    && CancelsLeaveNoTrace(b, earlier)
    && (op.CancelNewest? ==> LeavesNoTrace(Run(History(b, Opened(b)), earlier), op.t))
  }

  /** The bucket holds at `t` what it would hold without the cancelled reservations. */
  ghost predicate AtErasedLevel(h: History, t: int) {
    Advance(h.bucket, t) == Advance(Erased(h.live), t)
  }

  /** It did after every operation of the run so far. */
  ghost predicate AlwaysAtErasedLevel(b: Bucket, ops: seq<Op>) {
    && AtErasedLevel(Run(History(b, Opened(b)), ops), Now(b, ops))
    && (ops != [] ==> AlwaysAtErasedLevel(b, ops[..|ops| - 1]))
  }

  /** Each live call left the bucket it would have left without the cancelled ones. */
  ghost predicate LeftAsErased(l: Ledger) {
    l.Live? ==> l.after == Erased(l) && LeftAsErased(l.below)
  }

  lemma AtErasedLevelLater(h: History, t: int, u: int)
    requires Consistent(h) && h.bucket.last <= t <= u && AtErasedLevel(h, t)
    ensures AtErasedLevel(h, u)
  {
    ErasedIsAhead(h.live);
    LevelDecidesLater(h.bucket, Erased(h.live), t);
  }

  lemma TakeLeavesNoTrace(h: History, c: Call)
    requires Consistent(h) && LeftAsErased(h.live) && h.bucket.last <= c.t && AtErasedLevel(h, c.t)
    ensures AtErasedLevel(Step(h, Take(c)), c.t) && LeftAsErased(Step(h, Take(c)).live)
  {
    ErasedIsAhead(h.live);
    hide Advance, WaitFor, Consistent;
  }

  /** What the newest live reservation is, in a run that left it as if the others were erased. */
  lemma NewestIsErased(h: History)
    requires Consistent(h) && LeftAsErased(h.live) && h.live.Live?
    ensures var Live(below, c, r, after) := h.live;
      && Reserve(Erased(below), c.t, c.n, c.maxWait) == (after, r) && after == Erased(h.live)
      && Erased(below).limit.PerSecond? && Erased(below).last <= c.t == after.last <= h.bucket.last && c.n >= 0
      && h.bucket.limit == after.limit && h.bucket.burst == after.burst
      && LeftAsErased(below)
  {
    ErasedIsAhead(h.live.below);
    hide Advance, WaitFor;
  }

  /** Exactly such a cancel brings the bucket to the level without the reservation. */
  lemma CancelLeavesNoTraceExactly(h: History, t: int)
    requires Consistent(h) && LeftAsErased(h.live) && h.bucket.last <= t && AtErasedLevel(h, t)
    ensures AtErasedLevel(Step(h, CancelNewest(t)), t) <==> LeavesNoTrace(h, t)
    ensures LeftAsErased(Step(h, CancelNewest(t)).live)
  {
    if h.live.Live? {
      var (e, c, r, b) := (Erased(h.live.below), h.live.call, h.live.r, h.bucket);
      NewestIsErased(h);
      AdvanceComposes(e, c.t, t);
      ReturnUndoesTake(Settle(e, c.t), c.n, t);
      assert Capped(Advance(b, t) + c.n as real, b.burst) == Advance(e, t);
      CancelLevel(b, r, t);
      ElapsedIsNonNegative(RateOf(r.limit), b.lastEvent - r.timeToAct);
      hide Advance, Reserve, Cancel, WaitFor, TokensFromDuration;
    }
  }

  /** The level after a cancel. */
  lemma CancelLevel(b: Bucket, r: Reservation, t: int)
    requires b.limit.PerSecond?
    ensures Advance(b, t) <= b.burst as real
    ensures Advance(Cancel(b, r, t), t)
      == if CancelIgnored(b, r, t) then Advance(b, t) else Capped(Advance(b, t) + RestoreTokens(b, r), b.burst)
  {
    RefillAdds(b.limit.rate, 0, 0);
  }

  lemma {:induction false} RunLeavesNoTrace(b: Bucket, ops: seq<Op>)
    requires Plausible(b, ops) && AlwaysAtErasedLevel(b, ops)
    ensures LeftAsErased(Run(History(b, Opened(b)), ops).live) && CancelsLeaveNoTrace(b, ops)
  {
    if ops != [] {
      var (earlier, op) := (ops[..|ops| - 1], ops[|ops| - 1]);
      RunLeavesNoTrace(b, earlier);
      RunStays(b, earlier);
      var h := Run(History(b, Opened(b)), earlier);
      AtErasedLevelLater(h, Now(b, earlier), Time(op));
      match op
      case Take(c) => TakeLeavesNoTrace(h, c);
      case CancelNewest(t) => CancelLeavesNoTraceExactly(h, t);
    }
  }

  lemma {:induction false} NoTraceIsLeft(b: Bucket, ops: seq<Op>)
    requires Plausible(b, ops) && CancelsLeaveNoTrace(b, ops)
    ensures LeftAsErased(Run(History(b, Opened(b)), ops).live) && AlwaysAtErasedLevel(b, ops)
  {
    if ops != [] {
      var (earlier, op) := (ops[..|ops| - 1], ops[|ops| - 1]);
      NoTraceIsLeft(b, earlier);
      RunStays(b, earlier);
      var h := Run(History(b, Opened(b)), earlier);
      AtErasedLevelLater(h, Now(b, earlier), Time(op));
      match op
      case Take(c) => TakeLeavesNoTrace(h, c);
      case CancelNewest(t) => CancelLeavesNoTraceExactly(h, t);
    }
  }

  /** All through a run the bucket is what it would be had the cancelled reservations never been
      made, exactly when every cancel in it leaves no trace. */
  lemma {:induction false} RunsUndoExactly(b: Bucket, ops: seq<Op>)
    requires Plausible(b, ops)
    ensures AlwaysAtErasedLevel(b, ops) <==> CancelsLeaveNoTrace(b, ops)
  {
    if AlwaysAtErasedLevel(b, ops) {
      RunLeavesNoTrace(b, ops);
    }
    if CancelsLeaveNoTrace(b, ops) {
      NoTraceIsLeft(b, ops);
    }
  }

  /** And then it stays so at all later times. */
  lemma {:induction false} NoTraceLater(b: Bucket, ops: seq<Op>, u: int)
    requires Plausible(b, ops) && CancelsLeaveNoTrace(b, ops) && Now(b, ops) <= u
    ensures AtErasedLevel(Run(History(b, Opened(b)), ops), u)
  {
    RunStays(b, ops);
    NoTraceIsLeft(b, ops);
    AtErasedLevelLater(Run(History(b, Opened(b)), ops), Now(b, ops), u);
  }

  /** One cancel of the newest reservation gives back all of it exactly when it took nothing, or
      the cancel is in time, finds `lastEvent` at its own time, and the bucket has the room. */
  lemma CancelIsWhole(h: History, t: int)
    requires Consistent(h) && h.live.Live? && h.bucket.last <= t && h.bucket.limit.PerSecond? && h.bucket.limit.rate > 0.0
    ensures var (r, before) := (h.live.r, Advance(h.bucket, t));
      Advance(Cancel(h.bucket, r, t), t) - before == r.tokens as real
      <==> r.tokens == 0
           || (t <= r.timeToAct == h.bucket.lastEvent && before + r.tokens as real <= h.bucket.burst as real)
  {
  }

  // ---- Two ways in which newest-first cancels lose tokens ----

  /** A run goes on. */
  lemma OneMore(b: Bucket, ops: seq<Op>, op: Op)
    requires Plausible(b, ops) && Now(b, ops) <= Time(op)
    requires op.Take? ==> op.call.n >= 0 && WaitsPlausibly(Run(History(b, Opened(b)), ops).bucket, op.call)
    ensures Plausible(b, ops + [op]) && Now(b, ops + [op]) == Time(op)
    ensures Run(History(b, Opened(b)), ops + [op]) == Step(Run(History(b, Opened(b)), ops), op)
  {
  }

  /** At three tokens a second one token is worth a third of a nanosecond more than a whole number. */
  lemma ThreeASecond()
    ensures DurationFromTokens(3.0, 1.0) == 333_333_333 && DurationFromTokens(3.0, 2.0) == 666_666_666
    ensures DurationFromTokens(3.0, 3.0) == 1_000_000_000 && DurationFromTokens(3.0, -1.0) == -333_333_333
    ensures TokensFromDuration(3.0, 0) == 0.0 && TokensFromDuration(3.0, 1) == 0.000_000_003
    ensures TokensFromDuration(3.0, 333_333_334) == 1.000_000_002
  {
  }

  /** Rounding: three single tokens at three a second, all taken and cancelled at time 0. The first
      cancel leaves `lastEvent` one nanosecond late, the second then does not move it, and the
      third gives nothing back. */
  lemma RoundingLosesTokens()
    ensures var b := Bucket(PerSecond(3.0), 10, 0.0, 0, 0);
      var (one, undo) := (Take(Call(0, 1, INF_DURATION)), CancelNewest(0));
      var ops := [one, one, one, undo, undo, undo];
      var h := Run(History(b, Opened(b)), ops);
      Plausible(b, ops) && h.live == Opened(b) && Advance(h.bucket, 0) < -1.0
  {
    var b := Bucket(PerSecond(3.0), 10, 0.0, 0, 0);
    var (one, undo) := (Take(Call(0, 1, INF_DURATION)), CancelNewest(0));
    ThreeASecond();
    hide Plausible, Run, DurationFromTokens, TokensFromDuration;
    assert Plausible(b, []) && Run(History(b, Opened(b)), []) == History(b, Opened(b)) by {
      EmptyRun(b);
    }
    OneMore(b, [], one);
    var h1 := Run(History(b, Opened(b)), [] + [one]);
    assert h1.bucket == b.(tokens := -1.0, lastEvent := 333_333_333);
    OneMore(b, [] + [one], one);
    var h2 := Run(History(b, Opened(b)), [] + [one] + [one]);
    assert h2.bucket == b.(tokens := -2.0, lastEvent := 666_666_666);
    OneMore(b, [] + [one] + [one], one);
    var h3 := Run(History(b, Opened(b)), [] + [one] + [one] + [one]);
    assert h3.bucket == b.(tokens := -3.0, lastEvent := 1_000_000_000);
    OneMore(b, [] + [one] + [one] + [one], undo);
    var h4 := Run(History(b, Opened(b)), [] + [one] + [one] + [one] + [undo]);
    assert h4.bucket == b.(tokens := -2.0, lastEvent := 666_666_667);
    OneMore(b, [] + [one] + [one] + [one] + [undo], undo);
    var h5 := Run(History(b, Opened(b)), [] + [one] + [one] + [one] + [undo] + [undo]);
    assert h5.bucket == b.(tokens := -1.0 - 0.000_000_003, lastEvent := 666_666_667);
    OneMore(b, [] + [one] + [one] + [one] + [undo] + [undo], undo);
    assert [] + [one] + [one] + [one] + [undo] + [undo] + [undo] == [one, one, one, undo, undo, undo];
  }

  lemma EmptyRun(b: Bucket)
    ensures Run(History(b, Opened(b)), []) == History(b, Opened(b)) && (b.limit.PerSecond? ==> Plausible(b, []))
  {
  }

  /** No debt underneath: of 10 tokens 5 and then 8 are taken, and both are cancelled at once. The
      first cancel cannot set `lastEvent` back before the present, so the second gives back 2. */
  lemma DebtFreeReservationLosesTokens()
    ensures var b := Bucket(PerSecond(10.0), 10, 10.0, 0, 0);
      var ops := [Take(Call(0, 5, INF_DURATION)), Take(Call(0, 8, INF_DURATION)), CancelNewest(0), CancelNewest(0)];
      var h := Run(History(b, Opened(b)), ops);
      Plausible(b, ops) && h.live == Opened(b) && Advance(h.bucket, 0) == 7.0
  {
    var b := Bucket(PerSecond(10.0), 10, 10.0, 0, 0);
    var (five, eight, undo) := (Take(Call(0, 5, INF_DURATION)), Take(Call(0, 8, INF_DURATION)), CancelNewest(0));
    hide Plausible, Run;
    EmptyRun(b);
    OneMore(b, [], five);
    var h1 := Run(History(b, Opened(b)), [] + [five]);
    assert h1.bucket == b.(tokens := 5.0);
    OneMore(b, [] + [five], eight);
    var h2 := Run(History(b, Opened(b)), [] + [five] + [eight]);
    assert h2.bucket == b.(tokens := -3.0, lastEvent := 300_000_000);
    OneMore(b, [] + [five] + [eight], undo);
    var h3 := Run(History(b, Opened(b)), [] + [five] + [eight] + [undo]);
    assert h3.bucket == b.(tokens := 5.0, lastEvent := 300_000_000);
    OneMore(b, [] + [five] + [eight] + [undo], undo);
    assert [] + [five] + [eight] + [undo] + [undo] == [five, eight, undo, undo];
  }
}
