/** How much a limiter can grant over a run of calls. */
module RateBounds {
  import opened Rate
  import opened RateArithmetic

  datatype Call = Call(t: int, n: int, maxWait: int)

  /** The bucket before call `k` of a run that starts in `b`. */
  function Before(b: Bucket, calls: seq<Call>, k: nat): Bucket
    requires k <= |calls|
  {
    if k == 0 then b
    else Reserve(Before(b, calls, k - 1), calls[k - 1].t, calls[k - 1].n, calls[k - 1].maxWait).0
  }

  function Result(b: Bucket, calls: seq<Call>, k: nat): Reservation
    requires k < |calls|
  {
    Reserve(Before(b, calls, k), calls[k].t, calls[k].n, calls[k].maxWait).1
  }

  /** Tokens granted by the calls from `i` up to, not including, `j`; refused calls grant none. */
  function GrantedIn(b: Bucket, calls: seq<Call>, i: nat, j: nat): int
    requires i <= j <= |calls|
    decreases j
  {
    if i == j then 0 else GrantedIn(b, calls, i, j - 1) + Result(b, calls, j - 1).tokens
  }

  ghost predicate Forward(b: Bucket, calls: seq<Call>) {
    && (forall k :: 0 <= k < |calls| ==> calls[k].n >= 0)
    && (forall k :: 0 <= k < |calls| ==> b.last <= calls[k].t)
    && (forall k, l :: 0 <= k <= l < |calls| ==> calls[k].t <= calls[l].t)
  }

  /** The wait of a granted call is a real wait, not the "cannot be granted" duration. */
  ghost predicate WaitIsBounded(b: Bucket, calls: seq<Call>, k: nat)
    requires k < |calls|
  {
    Result(b, calls, k).ok && Result(b, calls, k).timeToAct - calls[k].t < INF_DURATION
  }

  lemma {:induction false} ParametersStay(b: Bucket, calls: seq<Call>, k: nat)
    requires k <= |calls|
    ensures Before(b, calls, k).limit == b.limit && Before(b, calls, k).burst == b.burst
  {
    if k > 0 {
      ParametersStay(b, calls, k - 1);
    }
  }

  /** Time a call adds to the bucket: none if it is refused, or the clock went back. */
  function ForwardMove(b: Bucket, c: Call): int {
    if Reserve(b, c.t, c.n, c.maxWait).1.ok && b.last <= c.t then c.t - b.last else 0
  }

  /** No call creates tokens beyond the refill of the time it moves forward. */
  lemma OneCallConserves(b: Bucket, c: Call)
    requires b.limit.PerSecond?
    ensures var (s, r) := Reserve(b, c.t, c.n, c.maxWait);
      r.tokens as real + s.tokens <= b.tokens + TokensFromDuration(b.limit.rate, ForwardMove(b, c))
  {
  }

  /** After the granted call `i`, every later bucket holds at most what was left plus the
      refill since, minus what was granted since. */
  lemma {:induction false} LevelAfterGrant(b: Bucket, calls: seq<Call>, i: nat, k: nat)
    requires b.limit.PerSecond? && Forward(b, calls)
    requires i < k <= |calls| && Result(b, calls, i).ok
    ensures var s := Before(b, calls, k);
      && calls[i].t <= s.last <= calls[k - 1].t
      && GrantedIn(b, calls, i + 1, k) as real + s.tokens
         <= Before(b, calls, i + 1).tokens + TokensFromDuration(b.limit.rate, s.last - calls[i].t)
    decreases k
  {
    hide TokensFromDuration, DurationFromTokens, WaitFor, Advance;
    ParametersStay(b, calls, k - 1);
    if i + 1 == k {
      RefillAdds(b.limit.rate, 0, 0);
    } else {
      LevelAfterGrant(b, calls, i, k - 1);
      var s := Before(b, calls, k - 1);
      var c := calls[k - 1];
      assert calls[k - 2].t <= c.t;
      OneCallConserves(s, c);
      RefillAdds(b.limit.rate, ForwardMove(s, c), s.last - calls[i].t);
      assert Before(b, calls, k).last == s.last + ForwardMove(s, c);
    }
  }

  lemma {:induction false} GrantedFromFirst(b: Bucket, calls: seq<Call>, i: nat, j: nat)
    requires i < j <= |calls|
    ensures GrantedIn(b, calls, i, j) == Result(b, calls, i).tokens + GrantedIn(b, calls, i + 1, j)
    decreases j
  {
    if i + 1 < j {
      GrantedFromFirst(b, calls, i, j - 1);
    }
  }

  lemma {:induction false} GrantsAreNotNegative(b: Bucket, calls: seq<Call>, i: nat, j: nat)
    requires i <= j <= |calls| && Forward(b, calls)
    ensures GrantedIn(b, calls, i, j) >= 0
    decreases j
  {
    if i < j {
      GrantsAreNotNegative(b, calls, i, j - 1);
    }
  }

  /** What the bucket holds right after the granted call `k`, and when that call may act. */
  lemma GrantFacts(b: Bucket, calls: seq<Call>, k: nat)
    requires b.limit.PerSecond? && k < |calls| && Result(b, calls, k).ok
    ensures var s := Before(b, calls, k + 1);
      && Result(b, calls, k).tokens == calls[k].n <= b.burst
      && s.last == calls[k].t
      && s.tokens + calls[k].n as real <= b.burst as real
      && Result(b, calls, k).timeToAct == calls[k].t + WaitFor(b.limit.rate, s.tokens)
  {
    ParametersStay(b, calls, k);
  }

  /** `wait` nanoseconds after the start of a run, counted from the level `left`, is not later
      than the wait after a later grant. */
  lemma LaterIsNotSooner(rate: real, left: real, final: real, elapsed: int, granted: int)
    requires elapsed >= 0 && granted >= 0 && WaitFor(rate, final) < INF_DURATION
    requires granted as real + final <= left + TokensFromDuration(rate, elapsed)
    requires WaitFor(rate, left) < INF_DURATION
    ensures WaitFor(rate, left) <= elapsed + WaitFor(rate, final)
  {
    var (wi, wj) := (WaitFor(rate, left), WaitFor(rate, final));
    WaitBrackets(rate, left);
    WaitBrackets(rate, final);
    if wi > elapsed + wj {
      RefillGrows(rate, elapsed + wj + 1, wi);
      RefillAdds(rate, elapsed, wj + 1);
      assert false;
    }
  }

  lemma BoundFromLevels(rate: real, left: real, final: real, n: int, rest: int, burst: int, elapsed: int)
    requires left + n as real <= burst as real && n <= burst
    requires rest as real + final <= left + TokensFromDuration(rate, elapsed)
    requires WaitFor(rate, left) < INF_DURATION && WaitFor(rate, final) < INF_DURATION
    ensures (n + rest) as real
      <= burst as real + TokensFromDuration(rate, elapsed + WaitFor(rate, final) - WaitFor(rate, left) + 1)
  {
    var (wi, wj) := (WaitFor(rate, left), WaitFor(rate, final));
    WaitBrackets(rate, left);
    WaitBrackets(rate, final);
    RefillAdds(rate, elapsed, wj + 1);
    RefillAdds(rate, elapsed + wj - wi + 1, wi);
    assert elapsed + (wj + 1) == (elapsed + wj - wi + 1) + wi;
    assert TokensFromDuration(rate, 0) == 0.0 by { RefillAdds(rate, 0, 0); }
  }

  /** Later grants never act before earlier ones, and the tokens granted by calls `i` to `j`
      fit the burst plus the refill between the two acting times, to within one nanosecond. */
  lemma {:induction false} GrantsAreBounded(b: Bucket, calls: seq<Call>, i: nat, j: nat)
    requires b.limit.PerSecond? && Forward(b, calls)
    requires i <= j < |calls|
    requires WaitIsBounded(b, calls, i) && WaitIsBounded(b, calls, j)
    ensures var (first, final) := (Result(b, calls, i), Result(b, calls, j));
      && first.timeToAct <= final.timeToAct
      && GrantedIn(b, calls, i, j + 1) as real
         <= b.burst as real + TokensFromDuration(b.limit.rate, final.timeToAct - first.timeToAct + 1)
  {
    hide Reserve, Advance, TokensFromDuration, DurationFromTokens;
    GrantFacts(b, calls, i);
    GrantFacts(b, calls, j);
    GrantedFromFirst(b, calls, i, j + 1);
    GrantsAreNotNegative(b, calls, i + 1, j + 1);
    LevelAfterGrant(b, calls, i, j + 1);
    var (left, final) := (Before(b, calls, i + 1).tokens, Before(b, calls, j + 1).tokens);
    var (elapsed, rest) := (calls[j].t - calls[i].t, GrantedIn(b, calls, i + 1, j + 1));
    LaterIsNotSooner(b.limit.rate, left, final, elapsed, rest);
    BoundFromLevels(b.limit.rate, left, final, calls[i].n, rest, b.burst, elapsed);
  }

  /** Without that nanosecond the bound is false: at two tokens a nanosecond the wait for a second
      token is cut down to nothing. */
  lemma SlackIsNeeded()
    ensures var b := Bucket(PerSecond(2_000_000_000.0), 1, 1.0, 0, 0);
      var calls := [Call(0, 1, INF_DURATION), Call(0, 1, INF_DURATION)];
      && Forward(b, calls) && WaitIsBounded(b, calls, 0) && WaitIsBounded(b, calls, 1)
      && Result(b, calls, 0).timeToAct == Result(b, calls, 1).timeToAct
      && GrantedIn(b, calls, 0, 2) == 2 > b.burst
  {
  }

  // ---- Calls that do not wait, under any clock ----

  ghost predicate NoWaiting(calls: seq<Call>) {
    forall k :: 0 <= k < |calls| ==> calls[k].n >= 0 && calls[k].maxWait == 0
  }

  /** How far the clock moved forward at the granted calls from `i` up to `j`. */
  function MovesIn(b: Bucket, calls: seq<Call>, i: nat, j: nat): int
    requires i <= j <= |calls|
    decreases j
  {
    if i == j then 0 else MovesIn(b, calls, i, j - 1) + ForwardMove(Before(b, calls, j - 1), calls[j - 1])
  }

  /** The index of the first granted call, or the length of the run. */
  function FirstGrant(b: Bucket, calls: seq<Call>, from: nat): (k: nat)
    requires from <= |calls|
    ensures from <= k <= |calls|
    ensures k < |calls| ==> Result(b, calls, k).ok
    ensures forall m :: from <= m < k ==> !Result(b, calls, m).ok
    decreases |calls| - from
  {
    if from == |calls| || Result(b, calls, from).ok then from else FirstGrant(b, calls, from + 1)
  }

  lemma {:induction false} NothingBeforeFirstGrant(b: Bucket, calls: seq<Call>, i: nat, k: nat)
    requires i <= k <= |calls| && b.limit.PerSecond?
    requires forall m :: i <= m < k ==> !Result(b, calls, m).ok
    ensures GrantedIn(b, calls, i, k) == 0 && Before(b, calls, k) == Before(b, calls, i)
    decreases k
  {
    if i < k {
      NothingBeforeFirstGrant(b, calls, i, k - 1);
    }
  }

  lemma {:induction false} GrantsSplit(b: Bucket, calls: seq<Call>, i: nat, k: nat, j: nat)
    requires i <= k <= j <= |calls|
    ensures GrantedIn(b, calls, i, j) == GrantedIn(b, calls, i, k) + GrantedIn(b, calls, k, j)
    decreases j
  {
    if k < j {
      GrantsSplit(b, calls, i, k, j - 1);
    }
  }

  lemma {:induction false} LevelWithoutWaiting(b: Bucket, calls: seq<Call>, i: nat, k: nat)
    requires b.limit.PerSecond? && NoWaiting(calls)
    requires i < k <= |calls| && Result(b, calls, i).ok
    ensures var s := Before(b, calls, k);
      && GrantedIn(b, calls, i + 1, k) as real + s.tokens
         <= Before(b, calls, i + 1).tokens + TokensFromDuration(b.limit.rate, MovesIn(b, calls, i + 1, k))
      && WaitFor(b.limit.rate, s.tokens) <= 0
    decreases k
  {
    hide TokensFromDuration, DurationFromTokens, Advance;
    ParametersStay(b, calls, k - 1);
    if i + 1 == k {
      RefillAdds(b.limit.rate, 0, 0);
    } else {
      LevelWithoutWaiting(b, calls, i, k - 1);
      var s := Before(b, calls, k - 1);
      OneCallConserves(s, calls[k - 1]);
      RefillAdds(b.limit.rate, ForwardMove(s, calls[k - 1]), MovesIn(b, calls, i + 1, k - 1));
    }
  }

  /** Without waiting, even a clock that jumps backwards lets through at most the burst plus the
      refill of the forward moves after the first grant, to within one nanosecond. At a rate of
      zero or less that is the burst alone. */
  lemma {:induction false} AllowedIsBounded(b: Bucket, calls: seq<Call>)
    requires b.limit.PerSecond? && b.burst >= 0 && NoWaiting(calls)
    ensures var first := FirstGrant(b, calls, 0);
      first < |calls| ==>
        GrantedIn(b, calls, 0, |calls|) as real
        <= b.burst as real + TokensFromDuration(b.limit.rate, MovesIn(b, calls, first + 1, |calls|) + 1)
    ensures FirstGrant(b, calls, 0) == |calls| ==> GrantedIn(b, calls, 0, |calls|) == 0
    ensures b.limit.rate <= 0.0 ==> GrantedIn(b, calls, 0, |calls|) <= b.burst
  {
    var first := FirstGrant(b, calls, 0);
    NothingBeforeFirstGrant(b, calls, 0, first);
    if first < |calls| {
      var rate := b.limit.rate;
      GrantsSplit(b, calls, 0, first, |calls|);
      GrantedFromFirst(b, calls, first, |calls|);
      GrantFacts(b, calls, first);
      LevelWithoutWaiting(b, calls, first, |calls|);
      WaitBrackets(rate, Before(b, calls, |calls|).tokens);
      RefillAdds(rate, MovesIn(b, calls, first + 1, |calls|), 1);
    }
  }
}
