/** What giving a reservation back does to a limiter. */
module RateCancel {
  import opened Rate
  import opened RateArithmetic

  // ---- A reservation cancelled with nothing in between ----

  /** At every later time the two buckets hold the same tokens. */
  ghost predicate SameFrom(x: Bucket, y: Bucket, t: int) {
    forall u :: t <= u ==> Advance(x, u) == Advance(y, u)
  }

  /** Up-to-date levels at one time decide all later ones. */
  lemma LevelDecidesLater(x: Bucket, y: Bucket, t: int)
    requires x.limit == y.limit && x.burst == y.burst && x.last <= t && y.last <= t
    requires Advance(x, t) == Advance(y, t)
    ensures SameFrom(x, y, t)
  {
    forall u | t <= u ensures Advance(x, u) == Advance(y, u) {
      AdvanceComposes(x, t, u);
      AdvanceComposes(y, t, u);
    }
  }

  lemma {:induction false} CancelRestoresLevel(b: Bucket, t: int, n: int, maxWait: int, cancelAt: int)
    requires b.last <= t <= cancelAt && n >= 0
    requires b.limit.PerSecond? && Reserve(b, t, n, maxWait).1.ok
    requires cancelAt <= Reserve(b, t, n, maxWait).1.timeToAct
    ensures var (s, r) := Reserve(b, t, n, maxWait);
      Advance(Cancel(s, r, cancelAt), cancelAt) == Advance(b, cancelAt)
  {
    var (s, r) := Reserve(b, t, n, maxWait);
    RefillAdds(b.limit.rate, 0, 0);
    assert RestoreTokens(s, r) == n as real;
    AdvanceComposes(b, t, cancelAt);
    ReturnUndoesTake(Settle(b, t), n, cancelAt);
  }

  /** Cancelling a reservation before anything else happens makes the bucket, from then on,
      what it would be had the reservation never been made, exactly when nothing was taken, the
      cancel comes no later than the time to act, or the bucket is full again anyway. */
  lemma {:induction false} CancelUndoesReserve(b: Bucket, t: int, n: int, maxWait: int, cancelAt: int)
    requires b.last <= t <= cancelAt && n >= 0 && Reserve(b, t, n, maxWait).1.ok
    requires b.limit.PerSecond?
    ensures var (s, r) := Reserve(b, t, n, maxWait);
      SameFrom(Cancel(s, r, cancelAt), b, cancelAt)
      <==> n == 0 || cancelAt <= r.timeToAct || Advance(s, cancelAt) == b.burst as real
  {
    var (s, r) := Reserve(b, t, n, maxWait);
    var c := Cancel(s, r, cancelAt);
    AdvanceComposes(b, t, cancelAt);
    if cancelAt <= r.timeToAct {
      CancelRestoresLevel(b, t, n, maxWait, cancelAt);
    } else {
      assert c == s;
    }
    if Advance(c, cancelAt) == Advance(b, cancelAt) {
      LevelDecidesLater(c, b, cancelAt);
    }
  }

  /** With an infinite rate neither call leaves a trace. */
  lemma CancelUndoesUnlimited(b: Bucket, t: int, n: int, maxWait: int, cancelAt: int)
    requires b.limit == Inf
    ensures Reserve(b, t, n, maxWait).1.ok
    ensures Cancel(Reserve(b, t, n, maxWait).0, Reserve(b, t, n, maxWait).1, cancelAt) == b
  {
  }

  // ---- What one cancel gives back ----

  /** A cancel never takes tokens away, and it gives back more than was reserved exactly when it
      is not late, the rate it was reserved at is positive, `lastEvent` has fallen behind the
      reservation's own time, and the bucket has room for more. The rate and the burst may have
      changed since. */
  lemma CancelGain(b: Bucket, r: Reservation, t: int)
    requires b.limit.PerSecond? && r.tokens >= 0
    ensures var gain := Advance(Cancel(b, r, t), t) - Advance(b, t);
      && 0.0 <= gain
      && (gain > r.tokens as real
          <==> r.ok && r.tokens > 0 && t <= r.timeToAct && RateOf(r.limit) > 0.0 && b.lastEvent < r.timeToAct
               && Advance(b, t) + r.tokens as real < b.burst as real)
  {
  }

  /** Cancelling out of order can give back more than was reserved: after 10, 5 and 1 tokens,
      cancelling the 5 and taking 1 more, cancelling the older 1 restores 4. */
  lemma OutOfOrderCancelRestoresTooMuch()
    ensures var b0 := Bucket(PerSecond(10.0), 10, 10.0, 0, 0);
      var b1 := Reserve(b0, 0, 10, INF_DURATION).0;
      var (b2, x) := Reserve(b1, 0, 5, INF_DURATION);
      var (b3, y) := Reserve(b2, 0, 1, INF_DURATION);
      var b4 := Cancel(b3, x, 0);
      var b5 := Reserve(b4, 0, 1, INF_DURATION).0;
      y.tokens == 1 && Advance(Cancel(b5, y, 0), 0) - Advance(b5, 0) == 4.0
  {
    var b0 := Bucket(PerSecond(10.0), 10, 10.0, 0, 0);
    var (b1, r1) := Reserve(b0, 0, 10, INF_DURATION);
    assert b1 == b0.(tokens := 0.0);
    var (b2, x) := Reserve(b1, 0, 5, INF_DURATION);
    assert DurationFromTokens(10.0, 5.0) == 500_000_000;
    assert b2 == b0.(tokens := -5.0, lastEvent := 500_000_000);
    var (b3, y) := Reserve(b2, 0, 1, INF_DURATION);
    assert DurationFromTokens(10.0, 6.0) == 600_000_000;
    assert b3 == b0.(tokens := -6.0, lastEvent := 600_000_000);
    var b4 := Cancel(b3, x, 0);
    assert RestoreTokens(b3, x) == 4.0;
    assert b4 == b0.(tokens := -2.0, lastEvent := 600_000_000);
    var (b5, z) := Reserve(b4, 0, 1, INF_DURATION);
    assert DurationFromTokens(10.0, 3.0) == 300_000_000;
    assert b5 == b0.(tokens := -3.0, lastEvent := 300_000_000);
    assert RestoreTokens(b5, y) == 4.0;
  }
}
