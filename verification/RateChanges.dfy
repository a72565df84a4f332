/** Changing a limiter's parameters while it is used. */
module RateChanges {
  import opened Rate
  import opened RateArithmetic
  import opened RateBounds

  datatype Op = Take(call: Call) | NewLimit(t: int, limit: Limit) | NewBurst(t: int, burst: int)

  function Changed(b: Bucket, op: Op): Bucket {
    match op
    case Take(c) => Reserve(b, c.t, c.n, c.maxWait).0
    case NewLimit(t, limit) => Settle(b, t).(limit := limit)
    case NewBurst(t, burst) => Settle(b, t).(burst := burst)
  }

  /** Granted at a finite rate. The infinite rate grants everything and takes nothing. */
  predicate IsGranted(b: Bucket, op: Op) {
    op.Take? && b.limit.PerSecond? && Reserve(b, op.call.t, op.call.n, op.call.maxWait).1.ok
  }

  function Granted(b: Bucket, op: Op): int {
    if IsGranted(b, op) then Reserve(b, op.call.t, op.call.n, op.call.maxWait).1.tokens else 0
  }

  /** The bucket before operation `k`. */
  function StateAt(b: Bucket, ops: seq<Op>, k: nat): Bucket
    requires k <= |ops|
  {
    if k == 0 then b else Changed(StateAt(b, ops, k - 1), ops[k - 1])
  }

  /** The tokens granted at finite rates by the first `k` operations. */
  function TotalGranted(b: Bucket, ops: seq<Op>, k: nat): int
    requires k <= |ops|
  {
    if k == 0 then 0 else TotalGranted(b, ops, k - 1) + Granted(StateAt(b, ops, k - 1), ops[k - 1])
  }

  /** What time adds to the bucket at an operation, at the limit in force until then: the refill of
      the forward move of the clock, or with the infinite rate whatever is missing to the burst.
      A refused call leaves the clock, and so does any call at the infinite rate. */
  function RefillAt(b: Bucket, op: Op): real {
    var t := match op case Take(c) => c.t case NewLimit(t, _) => t case NewBurst(t, _) => t;
    if (op.Take? && !IsGranted(b, op)) || t <= b.last then 0.0
    else
      match b.limit
      case PerSecond(rate) => TokensFromDuration(rate, t - b.last)
      case Inf => if b.tokens < b.burst as real then b.burst as real - b.tokens else 0.0
  }

  function TotalRefill(b: Bucket, ops: seq<Op>, k: nat): real
    requires k <= |ops|
  {
    if k == 0 then 0.0 else TotalRefill(b, ops, k - 1) + RefillAt(StateAt(b, ops, k - 1), ops[k - 1])
  }

  lemma OneOpConserves(b: Bucket, op: Op)
    ensures Granted(b, op) as real + Changed(b, op).tokens <= b.tokens + RefillAt(b, op)
  {
    RefillAdds(RateOf(b.limit), 0, 0);
  }

  /** No sequence of calls and changes makes tokens: whatever rates and bursts are set, and however
      the clock jumps, what was granted at finite rates and what is left come from the start and
      from the refill, each stretch of time at the limit that was in force then. */
  lemma {:induction false} ChangesMakeNoTokens(b: Bucket, ops: seq<Op>, k: nat)
    requires k <= |ops|
    ensures TotalGranted(b, ops, k) as real + StateAt(b, ops, k).tokens <= b.tokens + TotalRefill(b, ops, k)
  {
    hide Changed, Granted, RefillAt;
    if k > 0 {
      ChangesMakeNoTokens(b, ops, k - 1);
      OneOpConserves(StateAt(b, ops, k - 1), ops[k - 1]);
    }
  }

  /** Calls that do not wait are bounded through all changes: up to and with a granted call, no
      more was granted than the tokens at the start plus the refill, to within one nanosecond. */
  lemma {:induction false} AllowedThroughChanges(b: Bucket, ops: seq<Op>, k: nat)
    requires k < |ops| && IsGranted(StateAt(b, ops, k), ops[k]) && ops[k].call.maxWait == 0
    ensures TotalGranted(b, ops, k + 1) as real
      <= b.tokens + TotalRefill(b, ops, k + 1) + TokensFromDuration(RateOf(StateAt(b, ops, k).limit), 1)
  {
    ChangesMakeNoTokens(b, ops, k + 1);
    var s := StateAt(b, ops, k);
    WaitBrackets(s.limit.rate, Changed(s, ops[k]).tokens);
    RefillGrows(s.limit.rate, 0, 1);
    RefillAdds(s.limit.rate, 0, 0);
  }
}
