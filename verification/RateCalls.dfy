/** What single calls of a limiter do, said without the arithmetic of waits. */
module RateCalls {
  import opened Rate
  import opened RateArithmetic

  /** A request at a finite rate is granted exactly when it fits the burst and what is missing
      refills within the longest wait, the started nanosecond included. */
  lemma {:induction false} GrantedExactly(b: Bucket, t: int, n: int, maxWait: int)
    requires b.limit.PerSecond? && b.limit.rate > 0.0 && maxWait < INF_DURATION
    ensures Reserve(b, t, n, maxWait).1.ok
      <==> n <= b.burst && maxWait >= 0 && n as real - Advance(b, t) < TokensFromDuration(b.limit.rate, maxWait + 1)
  {
    var (rate, left) := (b.limit.rate, Advance(b, t) - n as real);
    var wait := WaitFor(rate, left);
    WaitBrackets(rate, left);
    RefillAdds(rate, 0, 0);
    if maxWait >= 0 {
      RefillGrows(rate, 0, maxWait + 1);
      if wait <= maxWait {
        RefillGrows(rate, wait + 1, maxWait + 1);
      } else {
        RefillGrows(rate, maxWait + 1, wait);
      }
    }
    hide TokensFromDuration, DurationFromTokens, WaitFor, Advance;
  }

  /** At a rate of zero or less there is no refill: a request is granted exactly when the tokens are
      there, or any wait will do. */
  lemma {:induction false} GrantedWithoutRefill(b: Bucket, t: int, n: int, maxWait: int)
    requires b.limit.PerSecond? && b.limit.rate <= 0.0
    ensures Reserve(b, t, n, maxWait).1.ok
      <==> n <= b.burst && if n as real <= Advance(b, t) then maxWait >= 0 else maxWait >= INF_DURATION
  {
    WaitBrackets(b.limit.rate, Advance(b, t) - n as real);
    hide TokensFromDuration, Advance;
  }

  /** A granted request takes its tokens and may act when they are there, not a nanosecond later than
      needed; a refused one has no tokens and changes nothing. */
  lemma {:induction false} RequestTakes(b: Bucket, t: int, n: int, maxWait: int)
    requires b.limit.PerSecond?
    ensures var (s, r) := Reserve(b, t, n, maxWait);
      && r.limit == b.limit && s.limit == b.limit && s.burst == b.burst
      && (r.ok ==>
            && r.tokens == n && s.tokens == Advance(b, t) - n as real && s.last == t
            && s.lastEvent == r.timeToAct && 0 <= r.timeToAct - t <= maxWait
            && (n as real <= Advance(b, t) ==> r.timeToAct == t)
            && (n as real > Advance(b, t) && b.limit.rate > 0.0 && r.timeToAct - t < INF_DURATION ==>
                  && TokensFromDuration(b.limit.rate, r.timeToAct - t) <= n as real - Advance(b, t)
                  && n as real - Advance(b, t) < TokensFromDuration(b.limit.rate, r.timeToAct - t + 1)))
      && (!r.ok ==> s == b && r.tokens == 0)
  {
    WaitBrackets(b.limit.rate, Advance(b, t) - n as real);
    hide TokensFromDuration, DurationFromTokens, Advance;
  }

  /** A cancel that is not late gives back what the reservation took, less what was reserved after it
      at its rate, and no more than there is room for; the level counts from the time of the cancel,
      even if that lies before the last update. Any other leaves the bucket as it is. */
  lemma {:induction false} CancelGivesBack(b: Bucket, r: Reservation, t: int)
    ensures var (c, later) := (Cancel(b, r, t), TokensFromDuration(RateOf(r.limit), b.lastEvent - r.timeToAct));
      if r.ok && b.limit.PerSecond? && r.tokens != 0 && t <= r.timeToAct && later < r.tokens as real then
        && c.limit == b.limit && c.burst == b.burst && c.last == t
        && (Advance(b, t) + r.tokens as real - later <= b.burst as real ==> c.tokens == Advance(b, t) + r.tokens as real - later)
        && (Advance(b, t) + r.tokens as real - later > b.burst as real ==> c.tokens == b.burst as real)
      else c == b
  {
    hide TokensFromDuration, DurationFromTokens, Advance;
  }

  /** At the infinite rate every request is granted and may act at once, and the bucket is full as
      soon as any time passes. */
  lemma UnlimitedGrantsAtOnce(b: Bucket, t: int, n: int, maxWait: int, u: int)
    requires b.limit == Inf
    ensures var (s, r) := Reserve(b, t, n, maxWait);
      s == b && r.ok && r.tokens == n && r.timeToAct == t
    ensures u > b.last ==> Advance(b, u) == b.burst as real
    ensures u <= b.last && b.tokens <= b.burst as real ==> Advance(b, u) == b.tokens
  {
  }

  /** A limiter refills at its rate up to its burst, and does not lose when the clock goes back. */
  lemma Refills(b: Bucket, t: int)
    requires b.limit.PerSecond? && b.tokens <= b.burst as real
    ensures t <= b.last ==> Advance(b, t) == b.tokens
    ensures t >= b.last ==>
      var refilled := b.tokens + TokensFromDuration(b.limit.rate, t - b.last);
      Advance(b, t) == if refilled <= b.burst as real then refilled else b.burst as real
  {
    RefillAdds(b.limit.rate, 0, 0);
  }

  /** A new limit counts from then on: the level is what the old one had made of it, and refills at
      the new rate from there. */
  lemma {:induction false} NewLimitIsNotRetroactive(b: Bucket, t: int, limit: Limit, u: int)
    requires t <= u
    ensures var after := Settle(b, t).(limit := limit);
      && after.burst == b.burst && after.tokens == Advance(b, t) && after.last == t
      && match limit
         case PerSecond(rate) => Advance(after, u) == Capped(Advance(b, t) + TokensFromDuration(rate, u - t), b.burst)
         case Inf => Advance(after, u) == if u > t then b.burst as real else Advance(b, t)
  {
  }

  /** So does a new burst: what the old one cut off stays cut off, and the new one cuts off later. */
  lemma {:induction false} NewBurstIsNotRetroactive(b: Bucket, t: int, burst: int, u: int)
    requires b.limit.PerSecond? && t <= u
    ensures var after := Settle(b, t).(burst := burst);
      && after.limit == b.limit && after.tokens == Advance(b, t) && after.last == t
      && Advance(after, u) == Capped(Advance(b, t) + TokensFromDuration(b.limit.rate, u - t), burst)
  {
  }
}
