/** When the bound on grants holds without its nanosecond. */
module RateExact {
  import opened Rate
  import opened RateArithmetic
  import opened RateBounds

  /** The wait pays the debt off to the last token. */
  predicate PaysExactly(rate: real, tokens: real) {
    tokens >= 0.0 || TokensFromDuration(rate, WaitFor(rate, tokens)) == -tokens
  }

  /** A wait is exact exactly when the debt is worth a whole number of nanoseconds. */
  lemma {:induction false} ExactWait(rate: real, tokens: real)
    requires tokens < 0.0 && WaitFor(rate, tokens) < INF_DURATION
    ensures PaysExactly(rate, tokens) <==> exists d: int :: TokensFromDuration(rate, d) == -tokens
  {
    WaitBrackets(rate, tokens);
    var w := WaitFor(rate, tokens);
    hide TokensFromDuration, DurationFromTokens;
    if d: int :| TokensFromDuration(rate, d) == -tokens && d != w {
      if d < w {
        RefillGrows(rate, d, w);
      } else {
        RefillGrows(rate, w + 1, d);
      }
    }
  }

  lemma ExactBoundFromLevels(rate: real, left: real, final: real, n: int, rest: int, burst: int, elapsed: int)
    requires left + n as real <= burst as real && n <= burst && PaysExactly(rate, final)
    requires rest as real + final <= left + TokensFromDuration(rate, elapsed)
    requires WaitFor(rate, left) < INF_DURATION && WaitFor(rate, final) < INF_DURATION
    ensures (n + rest) as real
      <= burst as real + TokensFromDuration(rate, elapsed + WaitFor(rate, final) - WaitFor(rate, left))
  {
    var (wi, wj) := (WaitFor(rate, left), WaitFor(rate, final));
    WaitBrackets(rate, left);
    WaitBrackets(rate, final);
    RefillAdds(rate, elapsed, wj);
    RefillAdds(rate, elapsed + wj - wi, wi);
    RefillAdds(rate, 0, 0);
    hide TokensFromDuration, DurationFromTokens, WaitFor;
  }

  /** What calls `i` to `j` are granted fits the burst plus the refill between their acting times. */
  ghost predicate NeedsNoSlack(b: Bucket, calls: seq<Call>, i: nat, j: nat)
    requires i <= j < |calls|
  {
    GrantedIn(b, calls, i, j + 1) as real
    <= b.burst as real + TokensFromDuration(RateOf(b.limit), Result(b, calls, j).timeToAct - Result(b, calls, i).timeToAct)
  }

  /** The nanosecond is not needed whenever the last grant's wait is exact. */
  lemma {:induction false} ExactGrantsAreBounded(b: Bucket, calls: seq<Call>, i: nat, j: nat)
    requires b.limit.PerSecond? && Forward(b, calls)
    requires i <= j < |calls|
    requires WaitIsBounded(b, calls, i) && WaitIsBounded(b, calls, j)
    requires PaysExactly(b.limit.rate, Before(b, calls, j + 1).tokens)
    ensures NeedsNoSlack(b, calls, i, j)
  {
    hide Reserve, Advance, TokensFromDuration, DurationFromTokens;
    GrantFacts(b, calls, i);
    GrantFacts(b, calls, j);
    GrantedFromFirst(b, calls, i, j + 1);
    LevelAfterGrant(b, calls, i, j + 1);
    var (left, final) := (Before(b, calls, i + 1).tokens, Before(b, calls, j + 1).tokens);
    var (elapsed, rest) := (calls[j].t - calls[i].t, GrantedIn(b, calls, i + 1, j + 1));
    ExactBoundFromLevels(b.limit.rate, left, final, calls[i].n, rest, b.burst, elapsed);
  }

  // ---- Rates at which every token is worth whole nanoseconds ----

  ghost predicate WholeRate(rate: real) {
    exists m: int :: TokensFromDuration(rate, m) == 1.0
  }

  lemma {:induction false} WholeTokens(rate: real, m: int, k: int)
    requires TokensFromDuration(rate, m) == 1.0
    ensures TokensFromDuration(rate, k * m) == k as real
    decreases if k < 0 then -k else k
  {
    hide TokensFromDuration;
    RefillAdds(rate, 0, 0);
    if k > 0 {
      WholeTokens(rate, m, k - 1);
      RefillAdds(rate, (k - 1) * m, m);
      assert (k - 1) * m + m == k * m;
    } else if k < 0 {
      WholeTokens(rate, m, k + 1);
      RefillAdds(rate, k * m, m);
      assert k * m + m == (k + 1) * m;
    }
  }

  /** Whole nanoseconds worth at most the debt fit the wait for it. */
  lemma WholeFitsWait(rate: real, final: real, d: int)
    requires rate > 0.0 && WaitFor(rate, final) < INF_DURATION && TokensFromDuration(rate, d) <= -final
    ensures d <= WaitFor(rate, final)
  {
    var wait := WaitFor(rate, final);
    WaitBrackets(rate, final);
    if d > wait {
      RefillGrows(rate, wait + 1, d);
    }
  }

  lemma WholeBoundFromLevels(rate: real, m: int, left: real, final: real, n: int, rest: int, burst: int, elapsed: int)
    requires rate > 0.0 && TokensFromDuration(rate, m) == 1.0
    requires left + n as real <= burst as real && n <= burst
    requires rest as real + final <= left + TokensFromDuration(rate, elapsed)
    requires WaitFor(rate, left) < INF_DURATION && WaitFor(rate, final) < INF_DURATION
    ensures (n + rest) as real
      <= burst as real + TokensFromDuration(rate, elapsed + WaitFor(rate, final) - WaitFor(rate, left))
  {
    var (wi, wj) := (WaitFor(rate, left), WaitFor(rate, final));
    WaitBrackets(rate, left);
    // The tokens beyond the burst, in whole nanoseconds, less the time gone by.
    var over := if left < 0.0 then rest else n + rest - burst;
    var d := over * m - elapsed + wi;
    WholeTokens(rate, m, over);
    RefillAdds(rate, over * m, wi - elapsed);
    RefillAdds(rate, wi, -elapsed);
    RefillAdds(rate, elapsed, -elapsed);
    RefillAdds(rate, 0, 0);
    assert over * m + (wi - elapsed) == d && wi + -elapsed == wi - elapsed;
    WholeFitsWait(rate, final, d);
    RefillGrows(rate, over * m, elapsed + wj - wi);
  }

  /** In no run of granted and refused calls from `b` is the nanosecond needed. */
  ghost predicate NeverNeedsSlack(b: Bucket) {
    forall calls, i: nat, j: nat {:trigger NeedsNoSlack(b, calls, i, j)} ::
      Forward(b, calls) && i <= j < |calls| && WaitIsBounded(b, calls, i) && WaitIsBounded(b, calls, j)
      ==> NeedsNoSlack(b, calls, i, j)
  }

  lemma {:induction false} WholeRatesNeedNoSlack(b: Bucket, calls: seq<Call>, i: nat, j: nat)
    requires b.limit.PerSecond? && b.limit.rate > 0.0 && WholeRate(b.limit.rate) && Forward(b, calls)
    requires i <= j < |calls| && WaitIsBounded(b, calls, i) && WaitIsBounded(b, calls, j)
    ensures NeedsNoSlack(b, calls, i, j)
  {
    var m: int :| TokensFromDuration(b.limit.rate, m) == 1.0;
    hide Reserve, Advance, TokensFromDuration, DurationFromTokens;
    GrantFacts(b, calls, i);
    GrantFacts(b, calls, j);
    GrantedFromFirst(b, calls, i, j + 1);
    LevelAfterGrant(b, calls, i, j + 1);
    var (left, final) := (Before(b, calls, i + 1).tokens, Before(b, calls, j + 1).tokens);
    var (elapsed, rest) := (calls[j].t - calls[i].t, GrantedIn(b, calls, i + 1, j + 1));
    WholeBoundFromLevels(b.limit.rate, m, left, final, calls[i].n, rest, b.burst, elapsed);
  }

  /** A time by which the bucket is full. */
  lemma FullBy(b: Bucket) returns (t: int)
    requires b.limit.PerSecond? && b.limit.rate > 0.0
    ensures b.last <= t && Advance(b, t) == b.burst as real
  {
    var (rate, missing) := (b.limit.rate, b.burst as real - b.tokens);
    if missing <= 0.0 {
      t := b.last;
      RefillAdds(rate, 0, 0);
    } else {
      var q := missing / rate;
      var d := (q * 1_000_000_000.0).Floor + 1;
      assert q * rate == missing && q >= 0.0;
      AboveInNanoseconds(rate, q, d);
      t := b.last + d;
    }
  }

  /** Taking the burst and one token more at once, when the bucket is full. */
  lemma {:induction false} OneTokenOver(b: Bucket, t: int)
    requires b.limit.PerSecond? && b.limit.rate > 0.0 && b.burst >= 1 && b.last <= t && Advance(b, t) == b.burst as real
    requires DurationFromTokens(b.limit.rate, 1.0) < INF_DURATION
    ensures var calls := [Call(t, b.burst, INF_DURATION), Call(t, 1, INF_DURATION)];
      && Forward(b, calls) && WaitIsBounded(b, calls, 0) && WaitIsBounded(b, calls, 1)
      && (NeedsNoSlack(b, calls, 0, 1) ==> WholeRate(b.limit.rate))
  {
    var (rate, first, over) := (b.limit.rate, Call(t, b.burst, INF_DURATION), Call(t, 1, INF_DURATION));
    var calls := [first, over];
    RefillAdds(rate, 0, 0);
    assert Before(b, calls, 0) == b;
    assert Before(b, calls, 1) == b.(last := t, tokens := 0.0, lastEvent := t);
    var w := DurationFromTokens(rate, 1.0);
    assert Before(b, calls, 2) == b.(last := t, tokens := -1.0, lastEvent := t + w);
    assert GrantedIn(b, calls, 0, 1) == b.burst && GrantedIn(b, calls, 0, 2) == b.burst + 1;
    DurationBrackets(rate, 1.0);
    if NeedsNoSlack(b, calls, 0, 1) {
      assert TokensFromDuration(rate, w) == 1.0;
    }
  }

  /** From any bucket the nanosecond is never needed exactly when every token is worth a whole number
      of nanoseconds. */
  lemma {:induction false} SlackIsNeededExactly(b: Bucket)
    requires b.limit.PerSecond? && b.limit.rate > 0.0 && b.burst >= 1
    requires DurationFromTokens(b.limit.rate, 1.0) < INF_DURATION
    ensures NeverNeedsSlack(b) <==> WholeRate(b.limit.rate)
  {
    var t := FullBy(b);
    OneTokenOver(b, t);
    hide NeedsNoSlack, Forward, WaitIsBounded, WholeRate, DurationFromTokens, Advance;
    if NeverNeedsSlack(b) {
      assert NeedsNoSlack(b, [Call(t, b.burst, INF_DURATION), Call(t, 1, INF_DURATION)], 0, 1);
    }
    if WholeRate(b.limit.rate) {
      forall calls, i: nat, j: nat | Forward(b, calls) && i <= j < |calls| && WaitIsBounded(b, calls, i) && WaitIsBounded(b, calls, j)
        ensures NeedsNoSlack(b, calls, i, j) {
        WholeRatesNeedNoSlack(b, calls, i, j);
      }
    }
  }
}
