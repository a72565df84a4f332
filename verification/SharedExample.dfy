/** Copiers that share a limiter and write more than one alone could. */
module SharedExample {
  import opened Rate
  import opened RateBounds
  import opened Copier
  import opened SharedCopier

  /** One token a nanosecond. */
  const UNIT_RATE: Limit := PerSecond(1_000_000_000.0)

  /** A bucket for one chunk that refills one token a nanosecond. */
  function Unit(tokens: int, last: int, lastEvent: int): Bucket {
    Bucket(UNIT_RATE, COPY_CHUNK_SIZE, tokens as real, last, lastEvent)
  }

  lemma UnitReserve(tokens: int, last: int, lastEvent: int, t: int, n: int)
    requires -1_000_000 <= tokens <= COPY_CHUNK_SIZE && 0 <= n <= COPY_CHUNK_SIZE
    ensures var level := tokens + if t < last then 0 else t - last;
      var left := (if level > COPY_CHUNK_SIZE then COPY_CHUNK_SIZE else level) - n;
      var act := t + if left < 0 then -left else 0;
      Reserve(Unit(tokens, last, lastEvent), t, n, INF_DURATION)
      == (Unit(left, t, act), Reservation(true, n, act, UNIT_RATE))
  {
    var level := tokens + if t < last then 0 else t - last;
    var left := (if level > COPY_CHUNK_SIZE then COPY_CHUNK_SIZE else level) - n;
    assert Advance(Unit(tokens, last, lastEvent), t) - n as real == left as real;
  }

  /** A cancel behind which more time was reserved than its tokens are worth is ignored. */
  lemma UnitCancel(tokens: int, last: int, lastEvent: int, r: Reservation, t: int)
    requires r.limit == UNIT_RATE && r.tokens <= lastEvent - r.timeToAct
    ensures CancelIgnored(Unit(tokens, last, lastEvent), r, t)
  {
  }

  const K: int := COPY_CHUNK_SIZE

  function HoldAt(t: int, act: int, ended: bool): Hold {
    Hold(Reservation(true, K, act, UNIT_RATE), t, ended)
  }

  /** Two turns begin at time 0. When they end short, two chunks' time later, each rewinds the clock
      behind a third stream that has just written a chunk, and the bucket fills again at once. */
  const REWINDING: seq<Step> :=
    [Step(0, Begin), Step(0, Begin), Step(2 * K, Begin), Step(2 * K, Whole(2)), Step(2 * K, Short(0, 1)),
     Step(2 * K, Begin), Step(2 * K, Whole(3)), Step(2 * K, Short(1, 1)), Step(2 * K, Begin), Step(2 * K, Whole(4))]

  /** The state after `i` of these steps. */
  function After(i: nat): State {
    var (zero, one) := (HoldAt(0, 0, i >= 5), HoldAt(0, K, i >= 8));
    var (two, three, four) := (HoldAt(2 * K, 2 * K, i >= 4), HoldAt(2 * K, 2 * K, i >= 7), HoldAt(2 * K, 2 * K, i >= 10));
    var full := Unit(0, 2 * K, 2 * K);
    if i == 0 then State(Unit(K, 0, 0), [], 0, 0.0, 0)
    else if i == 1 then State(Unit(0, 0, 0), [zero], 0, 0.0, 0)
    else if i == 2 then State(Unit(-K, 0, K), [zero, one], 0, 0.0, 0)
    else if i == 3 then State(full, [zero, one, two], 0, 0.0, 0)
    else if i == 4 then State(full, [zero, one, two], K, 0.0, 0)
    else if i == 5 then State(Unit(-1, 0, 1), [zero, one, two], K + 1, 1.0, 2 * K)
    else if i == 6 then State(full, [zero, one, two, three], K + 1, 1.0, 2 * K)
    else if i == 7 then State(full, [zero, one, two, three], 2 * K + 1, 1.0, 2 * K)
    else if i == 8 then State(Unit(-1, 0, 1), [zero, one, two, three], 2 * K + 2, 2.0, 4 * K)
    else if i == 9 then State(full, [zero, one, two, three, four], 2 * K + 2, 2.0, 4 * K)
    else State(full, [zero, one, two, three, four], 3 * K + 2, 2.0, 4 * K)
  }

  lemma BeginLeads(i: nat)
    requires i == 0 || i == 1 || i == 2 || i == 5 || i == 8
    ensures Apply(After(i), REWINDING[i]) == After(i + 1)
  {
    var (s, at) := (After(i), REWINDING[i].at);
    var tokens := if i == 0 then K else if i == 1 then 0 else if i == 2 then -K else -1;
    UnitReserve(tokens, 0, s.bucket.lastEvent, at, K);
    assert s.bucket == Unit(tokens, 0, s.bucket.lastEvent);
    hide Reserve;
  }

  lemma ShortMakesOne(r: Reservation)
    requires r.limit == UNIT_RATE && r.tokens <= 2 * K - r.timeToAct
    ensures Made(Unit(0, 2 * K, 2 * K), r, 0, 1, 2 * K) == 1.0
  {
    UnitCancel(0, 2 * K, 2 * K, r, 0);
    UnitReserve(0, 2 * K, 2 * K, 0, 1);
    hide Reserve, CancelIgnored;
  }

  lemma ShortLeads(i: nat)
    requires i == 4 || i == 7
    ensures Enabled(After(i), REWINDING[i]) && Apply(After(i), REWINDING[i]) == After(i + 1)
  {
    var (s, k) := (After(i), REWINDING[i].action.k);
    UnitCancel(0, 2 * K, 2 * K, s.turns[k].r, 0);
    UnitReserve(0, 2 * K, 2 * K, 0, 1);
    assert Ended(s.turns, k) == After(i + 1).turns;
    ShortMakesOne(s.turns[k].r);
    hide Reserve, CancelIgnored, Made;
  }

  lemma WholeLeads(i: nat)
    requires i == 3 || i == 6 || i == 9
    ensures Enabled(After(i), REWINDING[i]) && Apply(After(i), REWINDING[i]) == After(i + 1)
  {
    assert Ended(After(i).turns, REWINDING[i].action.k) == After(i + 1).turns;
  }

  lemma {:induction false} RunLeads(i: nat)
    requires i <= |REWINDING|
    ensures Run(Unit(K, 0, 0), REWINDING, i) == After(i) && Possible(Unit(K, 0, 0), REWINDING, i)
    ensures i < |REWINDING| ==> Enabled(After(i), REWINDING[i])
  {
    if i < |REWINDING| && (i == 4 || i == 7) {
      ShortLeads(i);
    } else if i < |REWINDING| && (i == 3 || i == 6 || i == 9) {
      WholeLeads(i);
    }
    if i > 0 {
      RunLeads(i - 1);
      if i == 5 || i == 8 {
        ShortLeads(i - 1);
      } else if i == 4 || i == 7 || i == 10 {
        WholeLeads(i - 1);
      } else {
        BeginLeads(i - 1);
      }
      hide Apply, After, Enabled;
    }
  }

  /** The bound for a stream of its own is false of streams that share: here they write one byte
      more by the end. */
  lemma SharingLetsMoreThrough()
    ensures var (b, n) := (Unit(K, 0, 0), |REWINDING|);
      && Possible(b, REWINDING, n) && b.tokens == b.burst as real
      && Run(b, REWINDING, n).written as real > b.burst as real + TokensFromDuration(RateOf(b.limit), Now(b, REWINDING, n) - b.last + 1)
  {
    RunLeads(|REWINDING|);
    hide Run, Possible;
  }
}
