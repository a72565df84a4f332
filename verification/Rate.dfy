/**
 The token-bucket limiter: its arithmetic, its state, and the class that updates it.

 Times and durations are whole nanoseconds (`int`), tokens and rates are exact (`real`).
 A `Bucket` is the value of a limiter's fields; the functions over buckets specify the
 methods of `Limiter`, and the theorems in the other Rate modules are about them.
 */
module Rate {

  /** The longest representable duration; it also means "cannot be granted". */
  const INF_DURATION: int := 0x7fff_ffff_ffff_ffff

  /** `Inf` is the unlimited rate, kept apart because it leaves the bucket untouched. */
  datatype Limit = Inf | PerSecond(rate: real)

  datatype Bucket = Bucket(limit: Limit, burst: int, tokens: real, last: int, lastEvent: int)

  /** A refused reservation has no tokens and no time; `limit` is the rate when it was made. */
  datatype Reservation = Reservation(ok: bool, tokens: int, timeToAct: int, limit: Limit)

  /** Conversion of a real to an integer drops the fraction, towards zero on both sides. */
  function Truncate(x: real): int {
    if x >= 0.0 then x.Floor else -((-x).Floor)
  }

  function TokensFromDuration(rate: real, d: int): real {
    if rate <= 0.0 then 0.0 else d as real / 1_000_000_000.0 * rate
  }

  function DurationFromTokens(rate: real, tokens: real): int {
    if rate <= 0.0 then INF_DURATION
    else
      var duration := tokens / rate * 1_000_000_000.0;
      if duration > INF_DURATION as real then INF_DURATION else Truncate(duration)
  }

  function Capped(tokens: real, burst: int): real {
    if tokens > burst as real then burst as real else tokens
  }

  /** Tokens available at `t`. A time before the last update counts as no time passing.
      An infinite rate fills the bucket as soon as any time passes. */
  function Advance(b: Bucket, t: int): real {
    var elapsed := if t < b.last then 0 else t - b.last;
    match b.limit
    case PerSecond(rate) => Capped(b.tokens + TokensFromDuration(rate, elapsed), b.burst)
    case Inf => if elapsed > 0 then b.burst as real else Capped(b.tokens, b.burst)
  }

  /** How long a request that leaves `tokens` in the bucket has to wait. */
  function WaitFor(rate: real, tokens: real): int {
    if tokens < 0.0 then DurationFromTokens(rate, -tokens) else 0
  }

  function Reserve(b: Bucket, t: int, n: int, maxWait: int): (Bucket, Reservation) {
    match b.limit
    case Inf => (b, Reservation(true, n, t, PerSecond(0.0)))
    case PerSecond(rate) =>
      var tokens := Advance(b, t) - n as real;
      var wait := WaitFor(rate, tokens);
      if n <= b.burst && wait <= maxWait then
        (b.(last := t, tokens := tokens, lastEvent := t + wait), Reservation(true, n, t + wait, b.limit))
      else
        (b, Reservation(false, 0, 0, b.limit))
  }

  function RateOf(limit: Limit): real {
    match limit
    case Inf => 0.0
    case PerSecond(rate) => rate
  }

  /** Tokens a cancel wants to give back: those reserved after `r` are kept. */
  function RestoreTokens(b: Bucket, r: Reservation): real {
    r.tokens as real - TokensFromDuration(RateOf(r.limit), b.lastEvent - r.timeToAct)
  }

  predicate CancelIgnored(b: Bucket, r: Reservation, t: int) {
    !r.ok || b.limit == Inf || r.tokens == 0 || r.timeToAct < t || RestoreTokens(b, r) <= 0.0
  }

  function Cancel(b: Bucket, r: Reservation, t: int): Bucket {
    if CancelIgnored(b, r, t) then b
    else
      var prevEvent := r.timeToAct + DurationFromTokens(RateOf(r.limit), -(r.tokens as real));
      b.(last := t,
         tokens := Capped(Advance(b, t) + RestoreTokens(b, r), b.burst),
         lastEvent := if r.timeToAct == b.lastEvent && prevEvent >= t then prevEvent else b.lastEvent)
  }

  /** The bucket brought up to date at `t`; changing a parameter does this first. */
  function Settle(b: Bucket, t: int): Bucket {
    b.(last := t, tokens := Advance(b, t))
  }

  /** A bucket nobody has taken from: it is full, and its times are zero. */
  function FullBucket(limit: Limit, burst: int): Bucket {
    Bucket(limit, burst, burst as real, 0, 0)
  }

  /** A limiter whose methods update its fields in place; `State` is their value. */
  class Limiter {
    var limit: Limit
    var burst: int
    var tokens: real
    var last: int
    var lastEvent: int

    function State(): Bucket
      reads this
    {
      Bucket(limit, burst, tokens, last, lastEvent)
    }

    constructor (limit: Limit, burst: int)
      ensures State() == FullBucket(limit, burst)
    {
      this.limit := limit;
      this.burst := burst;
      tokens := burst as real;
      last := 0;
      lastEvent := 0;
    }

    method TokensAt(t: int) returns (available: real)
      ensures available == Advance(State(), t)
      ensures available <= burst as real
      ensures limit.PerSecond? && last <= t ==> available >= Capped(tokens, burst)
    {
      var since := last;
      if t < since {
        since := t;
      }
      var elapsed := t - since;
      if limit == Inf {
        available := if elapsed > 0 then burst as real else tokens;
      } else {
        ElapsedIsNonNegative(limit.rate, elapsed);
        available := tokens + TokensFromDuration(limit.rate, elapsed);
      }
      if available > burst as real {
        available := burst as real;
      }
    }

    /** Takes `n` tokens at `t` if the wait that costs does not exceed `maxFutureReserve`. */
    method ReserveWithin(t: int, n: int, maxFutureReserve: int) returns (r: Reservation)
      modifies this
      ensures (State(), r) == Reserve(old(State()), t, n, maxFutureReserve)
      ensures !r.ok ==> State() == old(State())
    {
      if limit == Inf {
        return Reservation(true, n, t, PerSecond(0.0));
      }
      var remaining := TokensAt(t);
      remaining := remaining - n as real;
      var waitDuration := 0;
      if remaining < 0.0 {
        waitDuration := DurationFromTokens(limit.rate, -remaining);
      }
      if n <= burst && waitDuration <= maxFutureReserve {
        r := Reservation(true, n, t + waitDuration, limit);
        last := t;
        tokens := remaining;
        lastEvent := r.timeToAct;
      } else {
        r := Reservation(false, 0, 0, limit);
      }
    }

    /** Takes the tokens only if they are there now. */
    method AllowN(t: int, n: int) returns (allowed: bool)
      modifies this
      ensures (State(), allowed) == (Reserve(old(State()), t, n, 0).0, Reserve(old(State()), t, n, 0).1.ok)
    {
      var r := ReserveWithin(t, n, 0);
      allowed := r.ok;
    }

    method ReserveN(t: int, n: int) returns (r: Reservation)
      modifies this
      ensures (State(), r) == Reserve(old(State()), t, n, INF_DURATION)
    {
      r := ReserveWithin(t, n, INF_DURATION);
    }

    /** Gives back what `r` took, as far as later reservations do not depend on it. */
    method CancelAt(r: Reservation, t: int)
      modifies this
      ensures State() == Cancel(old(State()), r, t)
    {
      if !r.ok || limit == Inf || r.tokens == 0 || r.timeToAct < t {
        return;
      }
      var restore := r.tokens as real - TokensFromDuration(RateOf(r.limit), lastEvent - r.timeToAct);
      if restore <= 0.0 {
        return;
      }
      var available := TokensAt(t);
      available := available + restore;
      if available > burst as real {
        available := burst as real;
      }
      last := t;
      tokens := available;
      if r.timeToAct == lastEvent {
        var prevEvent := r.timeToAct + DurationFromTokens(RateOf(r.limit), -(r.tokens as real));
        if prevEvent >= t {
          lastEvent := prevEvent;
        }
      }
    }

    method SetLimitAt(t: int, newLimit: Limit)
      modifies this
      ensures State() == Settle(old(State()), t).(limit := newLimit)
    {
      var available := TokensAt(t);
      last := t;
      tokens := available;
      limit := newLimit;
    }

    method SetBurstAt(t: int, newBurst: int)
      modifies this
      ensures State() == Settle(old(State()), t).(burst := newBurst)
    {
      var available := TokensAt(t);
      last := t;
      tokens := available;
      burst := newBurst;
    }
  }

  function DelayFrom(r: Reservation, t: int): (delay: int)
    ensures r.ok ==> delay >= 0 && t + delay >= r.timeToAct
    ensures r.ok && delay > 0 ==> t + delay == r.timeToAct
    ensures !r.ok ==> delay == INF_DURATION
  {
    if !r.ok then INF_DURATION
    else if r.timeToAct < t then 0
    else r.timeToAct - t
  }

  lemma ElapsedIsNonNegative(rate: real, d: int)
    requires d >= 0
    ensures TokensFromDuration(rate, d) >= 0.0
  {
  }
}
