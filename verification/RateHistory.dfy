/** Runs in which reservations are cancelled newest first. */
module RateHistory {
  import opened Rate
  import opened RateArithmetic
  import opened RateBounds

  /** The reservations not cancelled yet, newest outermost, each with the bucket it left behind. */
  datatype Ledger = Opened(start: Bucket) | Live(below: Ledger, call: Call, r: Reservation, after: Bucket)

  datatype Op = Take(call: Call) | CancelNewest(t: int)

  datatype History = History(bucket: Bucket, live: Ledger)

  function Step(h: History, op: Op): History {
    match op
    case Take(c) =>
      var (b, r) := Reserve(h.bucket, c.t, c.n, c.maxWait);
      if r.ok then History(b, Live(h.live, c, r, b)) else h
    case CancelNewest(t) =>
      match h.live
      case Opened(_) => h
      case Live(below, _, r, _) => History(Cancel(h.bucket, r, t), below)
  }

  function Run(h: History, ops: seq<Op>): History {
    if ops == [] then h else Step(Run(h, ops[..|ops| - 1]), ops[|ops| - 1])
  }

  /** The same run with the cancelled reservations erased, and with them the calls that were refused:
      only the live calls are made. */
  function Erased(l: Ledger): Bucket {
    match l
    case Opened(b) => b
    case Live(below, c, _, _) => Reserve(Erased(below), c.t, c.n, c.maxWait).0
  }

  function Time(op: Op): int {
    match op
    case Take(c) => c.t
    case CancelNewest(t) => t
  }

  /** The clock does not go back, no call takes a negative amount, and no wait is cut off at
      the longest duration. */
  ghost predicate Plausible(b: Bucket, ops: seq<Op>) {
    b.limit.PerSecond? &&
    (ops == [] ||
     var (earlier, op) := (ops[..|ops| - 1], ops[|ops| - 1]);
     && Plausible(b, earlier)
     && Now(b, earlier) <= Time(op)
     && (op.Take? ==> op.call.n >= 0 && WaitsPlausibly(Run(History(b, Opened(b)), earlier).bucket, op.call)))
  }

  predicate WaitsPlausibly(b: Bucket, c: Call) {
    var r := Reserve(b, c.t, c.n, c.maxWait).1;
    r.ok ==> RateOf(b.limit) <= 0.0 || r.timeToAct - c.t < INF_DURATION
  }

  function Now(b: Bucket, ops: seq<Op>): int {
    if ops == [] then b.last else Time(ops[|ops| - 1])
  }

  function Newest(l: Ledger): Bucket {
    match l
    case Opened(b) => b
    case Live(_, _, _, after) => after
  }

  /** Every live reservation has its time to act no later than `event`. */
  ghost predicate AllActBy(l: Ledger, event: int) {
    l.Live? ==> l.r.timeToAct <= event && AllActBy(l.below, event)
  }

  // ---- The invariant ----

  ghost predicate Accounted(l: Ledger) {
    match l
    case Opened(b) => b.limit.PerSecond?
    case Live(below, c, r, after) =>
      var prior := Newest(below);
      && Accounted(below)
      && after.limit == prior.limit && after.limit.PerSecond? && after.burst == prior.burst
      && prior.last <= after.last == c.t
      && r.ok && r.tokens == c.n && 0 <= c.n <= after.burst && r.limit == after.limit
      && after.tokens + c.n as real <= Advance(prior, c.t)
      && r.timeToAct == c.t + WaitFor(after.limit.rate, after.tokens)
      && WaitFor(after.limit.rate, after.tokens) <= c.maxWait
      && (after.limit.rate > 0.0 ==> WaitFor(after.limit.rate, after.tokens) < INF_DURATION)
      && (below.Live? ==> below.r.timeToAct <= r.timeToAct)
  }

  /** `b`, up to date at `b.last`, holds no more than the bucket `x` would by then. */
  ghost predicate Behind(b: Bucket, x: Bucket) {
    b.limit == x.limit && b.burst == x.burst && x.last <= b.last && Advance(b, b.last) <= Advance(x, b.last)
  }

  ghost predicate Consistent(h: History) {
    && Accounted(h.live)
    && Behind(h.bucket, Newest(h.live))
    && (h.live.Live? ==> h.live.r.timeToAct <= h.bucket.lastEvent)
  }

  lemma BehindStaysBehind(b: Bucket, x: Bucket, t: int)
    requires Behind(b, x) && b.last <= t
    ensures Advance(b, t) <= Advance(x, t)
  {
    AdvanceComposes(b, b.last, t);
    AdvanceComposes(x, b.last, t);
    AdvanceKeepsOrder(Settle(b, b.last).(lastEvent := x.lastEvent), Settle(x, b.last), t);
  }

  lemma TakeStays(h: History, c: Call)
    requires Consistent(h) && h.bucket.last <= c.t && c.n >= 0 && WaitsPlausibly(h.bucket, c)
    ensures Consistent(Step(h, Take(c)))
  {
    var (b, r) := Reserve(h.bucket, c.t, c.n, c.maxWait);
    if r.ok {
      BehindStaysBehind(h.bucket, Newest(h.live), c.t);
      RefillAdds(b.limit.rate, 0, 0);
      if h.live.Live? {
        ActsInOrder(h.live, b, c);
      }
    }
  }

  lemma ActsInOrder(below: Ledger, after: Bucket, c: Call)
    requires Accounted(below) && below.Live? && after.limit == below.after.limit
    requires below.after.last <= c.t && c.n >= 0
    requires after.tokens + c.n as real <= Advance(below.after, c.t)
    requires after.limit.rate > 0.0 ==> WaitFor(after.limit.rate, after.tokens) < INF_DURATION
    ensures below.r.timeToAct <= c.t + WaitFor(after.limit.rate, after.tokens)
  {
    var rate, elapsed := after.limit.rate, c.t - below.after.last;
    WaitBrackets(rate, after.tokens);
    WaitBrackets(rate, below.after.tokens);
    if rate > 0.0 {
      LaterIsNotSooner(rate, below.after.tokens, after.tokens, elapsed, c.n);
    }
  }

  /** Giving `n` tokens back moves the next event back by no more than they were worth. */
  lemma PreviousEventIsNotTooEarly(below: Ledger, after: Bucket, c: Call, t: int)
    requires Accounted(below) && below.Live? && after.limit == below.after.limit
    requires below.after.last <= c.t <= t && c.n >= 0
    requires after.tokens + c.n as real <= Advance(below.after, c.t)
    requires var w := WaitFor(after.limit.rate, after.tokens);
      && (after.limit.rate > 0.0 ==> w < INF_DURATION)
      && below.r.timeToAct <= c.t + w
    ensures var prevEvent := c.t + WaitFor(after.limit.rate, after.tokens)
        + DurationFromTokens(after.limit.rate, -(c.n as real));
      t <= prevEvent ==> below.r.timeToAct <= prevEvent
  {
    var rate := after.limit.rate;
    if rate > 0.0 {
      var elapsed, w, wb := c.t - below.after.last, WaitFor(rate, after.tokens), WaitFor(rate, below.after.tokens);
      var d := -DurationFromTokens(rate, -(c.n as real));
      WorthInNanoseconds(rate, c.n);
      WaitBrackets(rate, after.tokens);
      WaitBrackets(rate, below.after.tokens);
      if wb > elapsed + w - d && wb > 0 {
        RefillGrows(rate, elapsed + w - d + 1, wb);
        RefillAdds(rate, elapsed + w - d + 1, d);
        RefillAdds(rate, elapsed, w + 1);
        assert false;
      }
    }
  }

  lemma WorthInNanoseconds(rate: real, n: int)
    requires rate > 0.0 && n >= 0
    ensures var d := -DurationFromTokens(rate, -(n as real));
      d >= 0 && TokensFromDuration(rate, d) <= n as real
  {
  }

  /** What a cancel gives back is at least nothing and at most the reservation itself. */
  lemma CancelRestoresAtMostItsOwn(h: History, t: int)
    requires Consistent(h) && h.live.Live? && h.bucket.last <= t
    ensures var gain := Advance(Cancel(h.bucket, h.live.r, t), t) - Advance(h.bucket, t);
      0.0 <= gain <= h.live.r.tokens as real
  {
  }

  lemma LevelAfterCancel(h: History, t: int)
    requires Consistent(h) && h.live.Live? && h.bucket.last <= t
    ensures Behind(Cancel(h.bucket, h.live.r, t), Newest(h.live.below))
  {
    var Live(below, c, r, after) := h.live;
    var (prior, b) := (Newest(below), Cancel(h.bucket, r, t));
    var p := Settle(prior, c.t);
    var taken := p.(tokens := p.tokens - c.n as real);
    AdvanceKeepsOrder(after.(lastEvent := taken.lastEvent), taken, t);
    AdvanceKeepsOrder(after.(lastEvent := p.lastEvent), p, h.bucket.last);
    AdvanceComposes(prior, c.t, h.bucket.last);
    AdvanceComposes(prior, c.t, t);
    BehindStaysBehind(h.bucket, after, t);
    ElapsedIsNonNegative(r.limit.rate, h.bucket.lastEvent - r.timeToAct);
    ReturnUndoesTake(p, c.n, t);
  }

  lemma CancelStays(h: History, t: int)
    requires Consistent(h) && h.bucket.last <= t
    ensures Consistent(Step(h, CancelNewest(t)))
  {
    if h.live.Live? {
      LevelAfterCancel(h, t);
      if h.live.below.Live? {
        PreviousEventIsNotTooEarly(h.live.below, h.live.after, h.live.call, t);
      }
    }
  }

  lemma {:induction false} RunStays(b: Bucket, ops: seq<Op>)
    requires Plausible(b, ops)
    ensures var h := Run(History(b, Opened(b)), ops);
      Consistent(h) && h.bucket.last <= Now(b, ops)
  {
    if ops != [] {
      var (earlier, op) := (ops[..|ops| - 1], ops[|ops| - 1]);
      RunStays(b, earlier);
      var h := Run(History(b, Opened(b)), earlier);
      match op
      case Take(c) => TakeStays(h, c);
      case CancelNewest(t) => CancelStays(h, t);
    }
  }

  // ---- The theorem ----

  lemma {:induction false} LiveActInOrder(l: Ledger, event: int)
    requires Accounted(l) && (l.Live? ==> l.r.timeToAct <= event)
    ensures AllActBy(l, event)
  {
    if l.Live? {
      LiveActInOrder(l.below, event);
    }
  }

  lemma ShorterWait(rate: real, fewer: real, more: real)
    requires fewer <= more
    ensures WaitFor(rate, more) <= WaitFor(rate, fewer)
  {
    WaitBrackets(rate, fewer);
    WaitBrackets(rate, more);
    var (longer, shorter) := (WaitFor(rate, fewer), WaitFor(rate, more));
    if shorter > longer && rate > 0.0 {
      RefillGrows(rate, longer + 1, shorter);
    }
  }

  /** Erasing the cancelled reservations never leaves fewer tokens, and refuses no live call. */
  lemma {:induction false} ErasedIsAhead(l: Ledger)
    requires Accounted(l)
    ensures var (e, b) := (Erased(l), Newest(l));
      e.limit == b.limit && e.burst == b.burst && e.last == b.last && b.tokens <= e.tokens
    ensures l.Live? ==> Reserve(Erased(l.below), l.call.t, l.call.n, l.call.maxWait).1.ok
  {
    if l.Live? {
      ErasedIsAhead(l.below);
      var (e, prior) := (Erased(l.below), Newest(l.below));
      AdvanceKeepsOrder(prior.(lastEvent := e.lastEvent), e, l.call.t);
      ShorterWait(e.limit.rate, l.after.tokens, Advance(e, l.call.t) - l.call.n as real);
    }
  }

  /** In every run where reservations are cancelled newest first: `lastEvent` is at or after the
      time to act of every live reservation, and at no later time does the bucket hold more than
      if the cancelled reservations had never been made. */
  lemma {:induction false} NewestFirstIsSafe(b: Bucket, ops: seq<Op>, u: int)
    requires Plausible(b, ops) && Now(b, ops) <= u
    ensures var h := Run(History(b, Opened(b)), ops);
      && AllActBy(h.live, h.bucket.lastEvent)
      && Advance(h.bucket, u) <= Advance(Erased(h.live), u)
  {
    RunStays(b, ops);
    var h := Run(History(b, Opened(b)), ops);
    LiveActInOrder(h.live, h.bucket.lastEvent);
    ErasedIsAhead(h.live);
    var (e, newest) := (Erased(h.live), Newest(h.live));
    BehindStaysBehind(h.bucket, newest, u);
    AdvanceKeepsOrder(newest.(lastEvent := e.lastEvent), e, u);
  }

  /** The refused calls have to be erased too, for without the cancelled reservation they might have
      been granted: here a call for 5 is refused because 10 are taken, and the 10 are given back. */
  lemma RefusedCallsCouldBeGranted()
    ensures var b := Bucket(PerSecond(10.0), 10, 10.0, 0, 0);
      var (all, refused) := (Call(0, 10, INF_DURATION), Call(0, 5, 0));
      var h := Run(History(b, Opened(b)), [Take(all), Take(refused), CancelNewest(0)]);
      && h.live == Opened(b)
      && Advance(h.bucket, 0) == 10.0
      && Advance(Reserve(Erased(h.live), refused.t, refused.n, refused.maxWait).0, 0) == 5.0
  {
    var b := Bucket(PerSecond(10.0), 10, 10.0, 0, 0);
    var (all, refused) := (Call(0, 10, INF_DURATION), Call(0, 5, 0));
    var h := History(b, Opened(b));
    var ops := [Take(all), Take(refused), CancelNewest(0)];
    assert ops[..2] == [Take(all), Take(refused)] && ops[..2][..1] == [Take(all)] && ops[..1][..0] == [];
    assert Run(h, []) == h;
    assert Run(h, [Take(all)]) == Step(h, Take(all));
    assert Run(h, [Take(all)]).bucket == b.(tokens := 0.0);
    assert Run(h, [Take(all), Take(refused)]) == Run(h, [Take(all)]);
  }

  /** In every such run, the next cancel of the newest reservation restores at most its tokens. */
  lemma {:induction false} NewestFirstRestoresItsOwn(b: Bucket, ops: seq<Op>, t: int)
    requires Plausible(b, ops) && Now(b, ops) <= t
    requires Run(History(b, Opened(b)), ops).live.Live?
    ensures var h := Run(History(b, Opened(b)), ops);
      var gain := Advance(Step(h, CancelNewest(t)).bucket, t) - Advance(h.bucket, t);
      0.0 <= gain <= h.live.r.tokens as real
  {
    RunStays(b, ops);
    CancelRestoresAtMostItsOwn(Run(History(b, Opened(b)), ops), t);
  }
}
