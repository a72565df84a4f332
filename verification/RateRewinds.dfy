/**
 Reservations and cancels in any order and at any times, as when streams share a limiter and one
 settles its account at an earlier time. The bound on grants then has to charge the rewound time.
 */
module RateRewinds {
  import opened Rate
  import opened RateArithmetic
  import opened RateBounds

  datatype Op = Take(call: Call) | GiveBack(r: Reservation, t: int)

  function Applied(b: Bucket, op: Op): Bucket {
    match op
    case Take(c) => Reserve(b, c.t, c.n, c.maxWait).0
    case GiveBack(r, t) => Cancel(b, r, t)
  }

  /** Tokens an operation charges: those granted, or less those of a reservation given back. An
      ignored cancel gives nothing back. */
  function Charged(b: Bucket, op: Op): int {
    match op
    case Take(c) => Reserve(b, c.t, c.n, c.maxWait).1.tokens
    case GiveBack(r, t) => if CancelIgnored(b, r, t) then 0 else -r.tokens
  }

  /** Time that counts twice: how far the operation sets the clock back, and how far `lastEvent` is
      behind the reservation it gives back. */
  function Rewind(b: Bucket, op: Op): nat {
    var back := b.last - Applied(b, op).last;
    var behind := if op.GiveBack? && !CancelIgnored(b, op.r, op.t) then op.r.timeToAct - b.lastEvent else 0;
    (if back > 0 then back else 0) + (if behind > 0 then behind else 0)
  }

  /** The bucket before operation `k`. */
  function StateAt(b: Bucket, ops: seq<Op>, k: nat): Bucket
    requires k <= |ops|
  {
    if k == 0 then b else Applied(StateAt(b, ops, k - 1), ops[k - 1])
  }

  function TotalCharged(b: Bucket, ops: seq<Op>, k: nat): int
    requires k <= |ops|
  {
    if k == 0 then 0 else TotalCharged(b, ops, k - 1) + Charged(StateAt(b, ops, k - 1), ops[k - 1])
  }

  function TotalRewind(b: Bucket, ops: seq<Op>, k: nat): nat
    requires k <= |ops|
  {
    if k == 0 then 0 else TotalRewind(b, ops, k - 1) + Rewind(StateAt(b, ops, k - 1), ops[k - 1])
  }

  /** What is given back was reserved at the limiter's own rate. */
  predicate SameRate(b: Bucket, ops: seq<Op>) {
    b.limit.PerSecond? && forall i :: 0 <= i < |ops| && ops[i].GiveBack? && ops[i].r.ok ==> ops[i].r.limit == b.limit
  }

  lemma OneOpConserves(b: Bucket, op: Op)
    requires b.limit.PerSecond? && (op.GiveBack? && op.r.ok ==> op.r.limit == b.limit)
    ensures var s := Applied(b, op);
      && s.limit == b.limit && s.burst == b.burst
      && Charged(b, op) as real + s.tokens <= b.tokens + TokensFromDuration(b.limit.rate, s.last - b.last + Rewind(b, op))
  {
    var (rate, s) := (b.limit.rate, Applied(b, op));
    RefillAdds(rate, 0, 0);
    match op
    case Take(c) => ElapsedIsNonNegative(rate, s.last - b.last + Rewind(b, op));
    case GiveBack(r, t) =>
      if !CancelIgnored(b, r, t) {
        var (moved, behind) := (if t < b.last then 0 else t - b.last, if b.lastEvent < r.timeToAct then r.timeToAct - b.lastEvent else 0);
        assert s.last - b.last + Rewind(b, op) == moved + behind;
        RefillAdds(rate, moved, behind);
        RefillAdds(rate, r.timeToAct - b.lastEvent, b.lastEvent - r.timeToAct);
        ElapsedIsNonNegative(rate, behind);
        if b.lastEvent >= r.timeToAct {
          ElapsedIsNonNegative(rate, b.lastEvent - r.timeToAct);
        }
      }
  }

  /** In every run, in any order and under any clock: the tokens charged and left are at most those
      at the start plus the refill of the time gone by and of the time rewound. */
  lemma {:induction false} RewindsMakeAllExcess(b: Bucket, ops: seq<Op>, k: nat)
    requires SameRate(b, ops) && k <= |ops|
    ensures var s := StateAt(b, ops, k);
      && s.limit == b.limit && s.burst == b.burst
      && TotalCharged(b, ops, k) as real + s.tokens
         <= b.tokens + TokensFromDuration(b.limit.rate, s.last - b.last + TotalRewind(b, ops, k))
  {
    hide Applied, Charged, Rewind, TokensFromDuration;
    if k == 0 {
      RefillAdds(b.limit.rate, 0, 0);
    } else {
      RewindsMakeAllExcess(b, ops, k - 1);
      var s := StateAt(b, ops, k - 1);
      OneOpConserves(s, ops[k - 1]);
      RefillAdds(b.limit.rate, s.last - b.last + TotalRewind(b, ops, k - 1),
                 StateAt(b, ops, k).last - s.last + Rewind(s, ops[k - 1]));
    }
  }

  /** Up to and with a granted reservation that can act, the tokens charged fit the level at the
      start plus the refill until it may act, the rewound time, and one nanosecond. */
  lemma {:induction false} ChargedIsBounded(b: Bucket, ops: seq<Op>, k: nat)
    requires SameRate(b, ops) && k < |ops| && ops[k].Take?
    requires var (s, c) := (StateAt(b, ops, k), ops[k].call);
      var r := Reserve(s, c.t, c.n, c.maxWait).1;
      r.ok && r.timeToAct - c.t < INF_DURATION
    ensures var (s, c) := (StateAt(b, ops, k), ops[k].call);
      TotalCharged(b, ops, k + 1) as real
      <= b.tokens + TokensFromDuration(b.limit.rate,
           Reserve(s, c.t, c.n, c.maxWait).1.timeToAct - b.last + TotalRewind(b, ops, k + 1) + 1)
  {
    RewindsMakeAllExcess(b, ops, k);
    RewindsMakeAllExcess(b, ops, k + 1);
    var (rate, s) := (b.limit.rate, StateAt(b, ops, k + 1));
    var wait := WaitFor(rate, s.tokens);
    WaitBrackets(rate, s.tokens);
    RefillAdds(rate, s.last - b.last + TotalRewind(b, ops, k + 1), wait + 1);
    ElapsedIsNonNegative(rate, wait + 1);
  }
}
