/** Arithmetic of refill and waiting: the facts every limiter theorem rests on. */
module RateArithmetic {
  import opened Rate

  lemma RefillAdds(rate: real, a: int, b: int)
    ensures TokensFromDuration(rate, a + b) == TokensFromDuration(rate, a) + TokensFromDuration(rate, b)
  {
  }

  lemma RefillGrows(rate: real, a: int, b: int)
    requires a <= b
    ensures TokensFromDuration(rate, a) <= TokensFromDuration(rate, b)
    ensures rate > 0.0 && a < b ==> TokensFromDuration(rate, a) < TokensFromDuration(rate, b)
  {
  }

  /** A duration is the time the tokens take, cut down to a whole nanosecond. */
  lemma DurationBrackets(rate: real, tokens: real)
    requires rate > 0.0 && tokens >= 0.0
    ensures var d := DurationFromTokens(rate, tokens);
      && 0 <= d <= INF_DURATION
      && TokensFromDuration(rate, d) <= tokens
      && (d < INF_DURATION ==> tokens < TokensFromDuration(rate, d + 1))
  {
    var q := tokens / rate;
    assert q >= 0.0 && q * rate == tokens;
    var exact := q * 1_000_000_000.0;
    var d := DurationFromTokens(rate, tokens);
    assert d as real <= exact;
    BelowInNanoseconds(rate, q, d);
    if d < INF_DURATION {
      assert exact < (d + 1) as real;
      AboveInNanoseconds(rate, q, d + 1);
    }
  }

  lemma BelowInNanoseconds(rate: real, q: real, d: int)
    requires rate > 0.0 && d as real <= q * 1_000_000_000.0
    ensures TokensFromDuration(rate, d) <= q * rate
  {
  }

  lemma AboveInNanoseconds(rate: real, q: real, d: int)
    requires rate > 0.0 && q * 1_000_000_000.0 < d as real
    ensures q * rate < TokensFromDuration(rate, d)
  {
  }

  /** The wait covers the debt to within one nanosecond. */
  lemma WaitBrackets(rate: real, tokens: real)
    ensures var w := WaitFor(rate, tokens);
      && 0 <= w <= INF_DURATION
      && (tokens >= 0.0 ==> w == 0)
      && (tokens < 0.0 && rate <= 0.0 ==> w == INF_DURATION)
      && (tokens < 0.0 ==> TokensFromDuration(rate, w) <= -tokens)
      && (w < INF_DURATION && rate > 0.0 ==> -tokens < TokensFromDuration(rate, w + 1))
      && (w < INF_DURATION ==> -tokens <= TokensFromDuration(rate, w + 1))
  {
    if tokens < 0.0 && rate > 0.0 {
      DurationBrackets(rate, -tokens);
    } else {
      RefillGrows(rate, 0, 1);
    }
  }

  /** Two refills in a row are one refill, although each of them is cut off at the burst. */
  lemma AdvanceComposes(b: Bucket, t: int, u: int)
    requires b.last <= t <= u
    ensures Advance(Settle(b, t), u) == Advance(b, u)
  {
  }

  /** More tokens now are at least as many tokens later. */
  lemma AdvanceKeepsOrder(x: Bucket, y: Bucket, t: int)
    requires x.limit == y.limit && x.burst == y.burst && x.last == y.last && x.tokens <= y.tokens
    ensures Advance(x, t) <= Advance(y, t)
  {
  }

  /** Taking `n` out of an up-to-date bucket and putting them back later, cut at the burst,
      is the same as never having taken them. */
  lemma ReturnUndoesTake(p: Bucket, n: int, t: int)
    requires p.limit.PerSecond? && p.tokens <= p.burst as real && n >= 0 && p.last <= t
    ensures Capped(Advance(p.(tokens := p.tokens - n as real), t) + n as real, p.burst) == Advance(p, t)
  {
  }
}
