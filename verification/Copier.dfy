/** The bandwidth-limited copier: one stream on its own limiter. */
module Copier {
  import opened Rate
  import opened RateArithmetic
  import opened RateBounds
  import opened RateCancel

  const COPY_CHUNK_SIZE: int := 128 * 1024

  /**
   What the surroundings do in one turn of the copy loop: the clock reading at its top, whether
   the context ends before a needed delay is over, the clock when the delay is over, and what
   copying reports: bytes taken from the source, bytes written, and failure.
   */
  datatype Turn = Turn(t: int, cancelled: bool, wake: int, read: int, n: int, failed: bool)
  {
    /** Bytes written were read first, and a copy that does not fail writes all it reads. */
    predicate Sound() {
      0 <= n <= read <= COPY_CHUNK_SIZE && (!failed ==> n == read)
    }
  }

  datatype Outcome = Running | Finished | CopyFailed | ContextDone | NoReservation

  datatype Copied = Copied(bucket: Bucket, written: int, used: nat, outcome: Outcome)

  /** A short copy gives the chunk back and takes what was really written. */
  function Recharge(b: Bucket, r: Reservation, t: int, n: int): Bucket {
    var c := Cancel(b, r, t);
    if n > 0 then Reserve(c, t, n, INF_DURATION).0 else c
  }

  function TurnOnce(c: Copied, turn: Turn): Copied {
    var (s, r) := Reserve(c.bucket, turn.t, COPY_CHUNK_SIZE, INF_DURATION);
    var used := c.used + 1;
    if !r.ok then Copied(s, c.written, used, NoReservation)
    else if DelayFrom(r, turn.t) > 0 && turn.cancelled then Copied(s, c.written, used, ContextDone)
    else
      var after := if turn.n < COPY_CHUNK_SIZE then Recharge(s, r, turn.t, turn.n) else s;
      var written := c.written + turn.n;
      if turn.failed then Copied(after, written, used, CopyFailed)
      else if turn.read < COPY_CHUNK_SIZE then Copied(after, written, used, Finished)
      else Copied(after, written, used, Running)
  }

  /** The copy after at most `k` turns. */
  function CopyRun(b: Bucket, turns: seq<Turn>, k: nat): Copied
    requires k <= |turns|
  {
    if k == 0 then Copied(b, 0, 0, Running)
    else
      var c := CopyRun(b, turns, k - 1);
      if c.outcome == Running then TurnOnce(c, turns[k - 1]) else c
  }

  lemma {:induction false} StoppedStays(b: Bucket, turns: seq<Turn>, k: nat, m: nat)
    requires k <= m <= |turns| && CopyRun(b, turns, k).outcome != Running
    ensures CopyRun(b, turns, m) == CopyRun(b, turns, k)
    decreases m
  {
    if k < m {
      StoppedStays(b, turns, k, m - 1);
    }
  }

  /** The next turn either goes on from there or is the whole run's result. */
  lemma TurnDecides(b: Bucket, turns: seq<Turn>, i: nat)
    requires i < |turns| && CopyRun(b, turns, i).outcome == Running
    ensures var next := TurnOnce(CopyRun(b, turns, i), turns[i]);
      CopyRun(b, turns, i + 1) == next && (next.outcome != Running ==> CopyRun(b, turns, |turns|) == next)
  {
    if CopyRun(b, turns, i + 1).outcome != Running {
      StoppedStays(b, turns, i + 1, |turns|);
    }
  }

  /** Copies until the source ends, something fails, or `turns` is used up (still running). */
  method Copy(rl: Limiter, turns: seq<Turn>) returns (written: int, outcome: Outcome)
    modifies rl
    ensures var c := CopyRun(old(rl.State()), turns, |turns|);
      rl.State() == c.bucket && written == c.written && outcome == c.outcome
  {
    hide Reserve, Cancel;
    ghost var b := rl.State();
    written := 0;
    var remaining := COPY_CHUNK_SIZE;
    for i := 0 to |turns|
      invariant CopyRun(b, turns, i) == Copied(rl.State(), written, i, Running)
      invariant remaining == COPY_CHUNK_SIZE
    {
      TurnDecides(b, turns, i);
      var turn := turns[i];
      var t := turn.t;
      var r := rl.ReserveN(t, COPY_CHUNK_SIZE);
      if !r.ok {
        return written, NoReservation;
      }
      var delay := DelayFrom(r, t);
      if delay > 0 && turn.cancelled {
        return written, ContextDone;
      }
      remaining := remaining - turn.read;
      written := written + turn.n;
      if turn.n < COPY_CHUNK_SIZE {
        rl.CancelAt(r, t);
        if turn.n > 0 {
          var _ := rl.ReserveN(t, turn.n);
        }
      }
      if turn.failed {
        return written, CopyFailed;
      }
      if remaining > 0 {
        return written, Finished;
      }
      remaining := COPY_CHUNK_SIZE;
    }
    outcome := Running;
  }

  // ---- What a run charges ----

  /** Whole chunks fit the limiter, and the copies are sound. The clock may do anything. */
  ghost predicate Fitting(b: Bucket, turns: seq<Turn>) {
    b.burst >= COPY_CHUNK_SIZE && forall i :: 0 <= i < |turns| ==> turns[i].Sound()
  }

  /** And the clock does not go back. */
  ghost predicate Sensible(b: Bucket, turns: seq<Turn>) {
    && Fitting(b, turns)
    && (forall i :: 0 <= i < |turns| ==> b.last <= turns[i].t)
    && (forall i, j :: 0 <= i <= j < |turns| ==> turns[i].t <= turns[j].t)
  }

  /** Whole chunks, one for each turn. */
  function Chunks(turns: seq<Turn>): (calls: seq<Call>)
    ensures |calls| == |turns|
    ensures forall i :: 0 <= i < |turns| ==> calls[i] == Call(turns[i].t, COPY_CHUNK_SIZE, INF_DURATION)
  {
    seq(|turns|, i requires 0 <= i < |turns| => Call(turns[i].t, COPY_CHUNK_SIZE, INF_DURATION))
  }

  /** Plain reservations for the bytes each used turn wrote; a turn whose delay was interrupted
      stands for a whole chunk. */
  function Charges(turns: seq<Turn>, c: Copied): (calls: seq<Call>)
    requires c.used <= |turns|
    ensures |calls| == c.used
    ensures forall i :: 0 <= i < c.used ==> calls[i] == Call(turns[i].t,
        if c.outcome == ContextDone && i == c.used - 1 then COPY_CHUNK_SIZE else turns[i].n, INF_DURATION)
  {
    seq(c.used, i requires 0 <= i < c.used => Call(turns[i].t,
      if c.outcome == ContextDone && i == c.used - 1 then COPY_CHUNK_SIZE else turns[i].n, INF_DURATION))
  }

  lemma {:induction false} EqualCallsEqualRuns(b: Bucket, x: seq<Call>, y: seq<Call>, k: nat)
    requires k <= |x| && k <= |y| && forall i :: 0 <= i < k ==> x[i] == y[i]
    ensures Before(b, x, k) == Before(b, y, k) && GrantedIn(b, x, 0, k) == GrantedIn(b, y, 0, k)
  {
    if k > 0 {
      EqualCallsEqualRuns(b, x, y, k - 1);
    }
  }

  /** A request within the burst is granted when any wait will do. */
  lemma WithinBurstIsGranted(b: Bucket, t: int, n: int)
    requires n <= b.burst
    ensures Reserve(b, t, n, INF_DURATION).1.ok && Reserve(b, t, n, INF_DURATION).1.tokens == n
  {
  }

  /** A turn that leaves the copy running has taken and written a whole chunk. */
  lemma RunningTurn(before: Copied, turn: Turn)
    requires turn.Sound() && before.bucket.burst >= COPY_CHUNK_SIZE && TurnOnce(before, turn).outcome == Running
    ensures var (s, r) := Reserve(before.bucket, turn.t, COPY_CHUNK_SIZE, INF_DURATION);
      && turn.n == COPY_CHUNK_SIZE == r.tokens && s.burst == before.bucket.burst
      && TurnOnce(before, turn) == Copied(s, before.written + COPY_CHUNK_SIZE, before.used + 1, Running)
  {
  }

  /** As long as the copy runs, it has written whole chunks and charged exactly those. */
  lemma {:induction false} RunningChargesChunks(b: Bucket, turns: seq<Turn>, k: nat)
    requires Fitting(b, turns) && k <= |turns| && CopyRun(b, turns, k).outcome == Running
    ensures var c := CopyRun(b, turns, k);
      && c.bucket == Before(b, Chunks(turns), k)
      && c.written == GrantedIn(b, Chunks(turns), 0, k)
      && c.used == k
      && forall i :: 0 <= i < k ==> turns[i].n == COPY_CHUNK_SIZE
    ensures CopyRun(b, turns, k).bucket.burst == b.burst
  {
    hide Reserve, TurnOnce;
    if k > 0 {
      RunningChargesChunks(b, turns, k - 1);
      RunningTurn(CopyRun(b, turns, k - 1), turns[k - 1]);
    }
  }

  /** Giving the chunk back and taking `n` instead leaves the bucket as if only `n` had been
      taken, at every time from then on. */
  lemma RechargeTakesOnly(b: Bucket, t: int, n: int)
    requires b.last <= t && b.burst >= COPY_CHUNK_SIZE && 0 <= n < COPY_CHUNK_SIZE
    ensures var (s, r) := Reserve(b, t, COPY_CHUNK_SIZE, INF_DURATION);
      SameFrom(Recharge(s, r, t, n), Reserve(b, t, n, INF_DURATION).0, t)
  {
    var (s, r) := Reserve(b, t, COPY_CHUNK_SIZE, INF_DURATION);
    WithinBurstIsGranted(b, t, COPY_CHUNK_SIZE);
    WithinBurstIsGranted(b, t, n);
    if b.limit.PerSecond? {
      WaitBrackets(b.limit.rate, Advance(b, t) - COPY_CHUNK_SIZE as real);
      var c := Cancel(s, r, t);
      CancelRestoresLevel(b, t, COPY_CHUNK_SIZE, INF_DURATION, t);
      WithinBurstIsGranted(c, t, n);
      assert Advance(Recharge(s, r, t, n), t) == Advance(Reserve(b, t, n, INF_DURATION).0, t) by {
        RefillAdds(b.limit.rate, 0, 0);
      }
      LevelDecidesLater(Recharge(s, r, t, n), Reserve(b, t, n, INF_DURATION).0, t);
    }
  }

  /** When the copy stops, the limiter is, from the last turn on, as if every turn had simply
      taken the bytes it wrote: the tokens charged are the bytes written. Only a copy stopped
      during a delay stays charged one chunk more. A reservation is never refused. */
  lemma {:induction false} ChargedIsWritten(b: Bucket, turns: seq<Turn>)
    requires Sensible(b, turns) && turns != []
    ensures var c := CopyRun(b, turns, |turns|);
      && 0 < c.used <= |turns|
      && c.outcome != NoReservation
      && SameFrom(c.bucket, Before(b, Charges(turns, c), c.used), turns[c.used - 1].t)
      && GrantedIn(b, Charges(turns, c), 0, c.used)
         == c.written + if c.outcome == ContextDone then COPY_CHUNK_SIZE else 0
  {
    hide Reserve, Advance, TurnOnce;
    var k := LastTurn(b, turns, |turns|);
    NeverRefused(b, turns, k);
    WholeChunksAgree(b, turns, k);
    OneTurnCharges(CopyRun(b, turns, k), turns[k]);
  }

  /** A turn takes what it wrote, or one chunk if it is interrupted. */
  lemma {:induction false} OneTurnCharges(before: Copied, turn: Turn)
    requires turn.Sound() && before.bucket.last <= turn.t && before.bucket.burst >= COPY_CHUNK_SIZE
    ensures var c := TurnOnce(before, turn);
      var n := if c.outcome == ContextDone then COPY_CHUNK_SIZE else turn.n;
      var (s, r) := Reserve(before.bucket, turn.t, n, INF_DURATION);
      && c.used == before.used + 1
      && SameFrom(c.bucket, s, turn.t)
      && r.tokens == n
      && before.written + n == c.written + if c.outcome == ContextDone then COPY_CHUNK_SIZE else 0
  {
    hide Advance, WaitFor;
    WithinBurstIsGranted(before.bucket, turn.t, COPY_CHUNK_SIZE);
    WithinBurstIsGranted(before.bucket, turn.t, turn.n);
    if TurnOnce(before, turn).outcome != ContextDone && turn.n < COPY_CHUNK_SIZE {
      RechargeTakesOnly(before.bucket, turn.t, turn.n);
    }
  }

  /** Up to the last turn, plain reservations for the bytes written are the whole chunks taken. */
  lemma WholeChunksAgree(b: Bucket, turns: seq<Turn>, k: nat)
    requires Sensible(b, turns) && k < |turns| && CopyRun(b, turns, k).outcome == Running
    requires CopyRun(b, turns, |turns|).used == k + 1
    ensures var (before, charges) := (CopyRun(b, turns, k), Charges(turns, CopyRun(b, turns, |turns|)));
      && Before(b, charges, k) == before.bucket
      && GrantedIn(b, charges, 0, k) == before.written
      && before.bucket.burst == b.burst && before.bucket.last <= turns[k].t
  {
    hide Reserve, Advance;
    var charges := Charges(turns, CopyRun(b, turns, |turns|));
    RunningChargesChunks(b, turns, k);
    EqualCallsEqualRuns(b, Chunks(turns), charges, k);
    LastIsAtMost(b, turns, k);
  }

  /** The turn at which the run ends; all turns before it are whole chunks. */
  lemma {:induction false} LastTurn(b: Bucket, turns: seq<Turn>, m: nat) returns (k: nat)
    requires 0 < m <= |turns|
    ensures k < m && CopyRun(b, turns, k).outcome == Running && CopyRun(b, turns, k).used == k
    ensures CopyRun(b, turns, m) == TurnOnce(CopyRun(b, turns, k), turns[k])
    ensures CopyRun(b, turns, m).used == k + 1
  {
    if CopyRun(b, turns, m - 1).outcome == Running {
      k := m - 1;
      UsedCounts(b, turns, k);
    } else {
      k := LastTurn(b, turns, m - 1);
    }
  }

  lemma {:induction false} UsedCounts(b: Bucket, turns: seq<Turn>, k: nat)
    requires k <= |turns| && CopyRun(b, turns, k).outcome == Running
    ensures CopyRun(b, turns, k).used == k
  {
    if k > 0 {
      UsedCounts(b, turns, k - 1);
    }
  }

  lemma {:induction false} LastIsAtMost(b: Bucket, turns: seq<Turn>, k: nat)
    requires Sensible(b, turns) && k < |turns|
    ensures Before(b, Chunks(turns), k).last <= turns[k].t
  {
    if k > 0 {
      LastIsAtMost(b, turns, k - 1);
      assert turns[k - 1].t <= turns[k].t;
    }
  }

  // ---- How fast a run writes ----

  /** The turns of a run that got as far as copying. */
  function CopyingTurns(c: Copied): int {
    if c.outcome == ContextDone then c.used - 1 else c.used
  }

  /** Bytes written by the first `k` turns whose copying had begun by `at`. */
  function WrittenBy(turns: seq<Turn>, k: nat, at: int): int
    requires k <= |turns|
  {
    if k == 0 then 0
    else WrittenBy(turns, k - 1, at) + if turns[k - 1].wake <= at then turns[k - 1].n else 0
  }

  /** A delay is waited out in full, and the next turn starts after this one has copied. */
  ghost predicate Timely(b: Bucket, turns: seq<Turn>, k: nat)
    requires k <= |turns|
  {
    k == 0 ||
    (&& Timely(b, turns, k - 1)
     && turns[k - 1].t <= turns[k - 1].wake
     && Result(b, Chunks(turns), k - 1).timeToAct <= turns[k - 1].wake
     && (k > 1 ==> turns[k - 2].wake <= turns[k - 1].t))
  }

  lemma {:induction false} TimelyTurn(b: Bucket, turns: seq<Turn>, k: nat, j: nat)
    requires j < k <= |turns| && Timely(b, turns, k)
    ensures turns[j].wake <= turns[k - 1].wake && Result(b, Chunks(turns), j).timeToAct <= turns[j].wake
  {
    if j < k - 1 {
      TimelyTurn(b, turns, k - 1, j);
    }
  }

  lemma {:induction false} WrittenWithinGrants(b: Bucket, turns: seq<Turn>, k: nat, at: int)
    requires k <= |turns| && b.burst >= COPY_CHUNK_SIZE && b.limit.PerSecond?
    requires forall i :: 0 <= i < k ==> 0 <= turns[i].n <= COPY_CHUNK_SIZE
    ensures WrittenBy(turns, k, at) <= GrantedIn(b, Chunks(turns), 0, k)
  {
    if k > 0 {
      WrittenWithinGrants(b, turns, k - 1, at);
      ParametersStay(b, Chunks(turns), k - 1);
      WithinBurstIsGranted(Before(b, Chunks(turns), k - 1), turns[k - 1].t, COPY_CHUNK_SIZE);
    }
  }

  lemma {:induction false} WritingTurnsAreBounded(b: Bucket, turns: seq<Turn>, k: nat, at: int)
    requires Sensible(b, turns) && b.limit.PerSecond? && 0 < k <= |turns| && Timely(b, turns, k)
    requires turns[0].t <= at < turns[0].t + INF_DURATION
    ensures WrittenBy(turns, k, at) as real
      <= b.burst as real + TokensFromDuration(b.limit.rate, at - turns[0].t + 1)
  {
    if turns[k - 1].wake > at {
      if k > 1 {
        WritingTurnsAreBounded(b, turns, k - 1, at);
      } else {
        ElapsedIsNonNegative(b.limit.rate, at - turns[0].t + 1);
      }
    } else {
      WrittenWithinGrants(b, turns, k, at);
      ChunksAreBounded(b, turns, k - 1, at);
    }
  }

  lemma {:induction false} ChunksAreBounded(b: Bucket, turns: seq<Turn>, j: nat, at: int)
    requires Sensible(b, turns) && b.limit.PerSecond? && j < |turns| && Timely(b, turns, j + 1)
    requires turns[j].wake <= at < turns[0].t + INF_DURATION
    ensures GrantedIn(b, Chunks(turns), 0, j + 1) as real
      <= b.burst as real + TokensFromDuration(b.limit.rate, at - turns[0].t + 1)
  {
    hide Reserve;
    var calls := Chunks(turns);
    TimelyTurn(b, turns, j + 1, 0);
    TimelyTurn(b, turns, j + 1, j);
    ActsAfterCall(b, turns, 0);
    ActsAfterCall(b, turns, j);
    GrantsAreBounded(b, calls, 0, j);
    RefillGrows(b.limit.rate, Result(b, calls, j).timeToAct - Result(b, calls, 0).timeToAct + 1,
                at - turns[0].t + 1);
  }

  lemma ActsAfterCall(b: Bucket, turns: seq<Turn>, i: nat)
    requires Sensible(b, turns) && b.limit.PerSecond? && i < |turns|
    ensures Result(b, Chunks(turns), i).ok && turns[i].t <= Result(b, Chunks(turns), i).timeToAct
  {
    var s := Before(b, Chunks(turns), i);
    ParametersStay(b, Chunks(turns), i);
    WithinBurstIsGranted(s, turns[i].t, COPY_CHUNK_SIZE);
    WaitBrackets(s.limit.rate, Advance(s, turns[i].t) - COPY_CHUNK_SIZE as real);
  }

  /** By any time `at`, a stream alone on its limiter has written at most the burst plus the
      refill since its first turn, to within one nanosecond. */
  lemma {:induction false} WrittenIsBounded(b: Bucket, turns: seq<Turn>, k: nat, at: int)
    requires Sensible(b, turns) && b.limit.PerSecond? && turns != []
    requires k == CopyingTurns(CopyRun(b, turns, |turns|)) && k <= |turns| && Timely(b, turns, k)
    requires turns[0].t <= at < turns[0].t + INF_DURATION
    ensures WrittenBy(turns, k, at) as real
      <= b.burst as real + TokensFromDuration(b.limit.rate, at - turns[0].t + 1)
  {
    if k > 0 {
      WritingTurnsAreBounded(b, turns, k, at);
    } else {
      ElapsedIsNonNegative(b.limit.rate, at - turns[0].t + 1);
    }
  }

  /** What is counted above is everything the run writes. */
  lemma {:induction false} AllIsCounted(b: Bucket, turns: seq<Turn>, k: nat, at: int)
    requires Sensible(b, turns) && k <= |turns|
    requires forall i :: 0 <= i < k ==> turns[i].wake <= at
    ensures var c := CopyRun(b, turns, k);
      && 0 <= CopyingTurns(c) <= c.used <= k
      && c.written == WrittenBy(turns, CopyingTurns(c), at)
  {
    hide Reserve, Recharge;
    if k > 0 {
      AllIsCounted(b, turns, k - 1, at);
      if CopyRun(b, turns, k - 1).outcome == Running {
        NeverRefused(b, turns, k - 1);
      }
    }
  }

  lemma {:induction false} NeverRefused(b: Bucket, turns: seq<Turn>, k: nat)
    requires Fitting(b, turns) && k < |turns| && CopyRun(b, turns, k).outcome == Running
    ensures CopyRun(b, turns, k + 1).outcome != NoReservation && CopyRun(b, turns, k).used == k
  {
    RunningChargesChunks(b, turns, k);
    WithinBurstIsGranted(CopyRun(b, turns, k).bucket, turns[k].t, COPY_CHUNK_SIZE);
  }

  // ---- What ends a run ----

  /** Turn `k` has to wait, all turns before it having taken whole chunks. */
  predicate Waits(b: Bucket, turns: seq<Turn>, k: nat)
    requires k < |turns|
  {
    Result(b, Chunks(turns), k).timeToAct > turns[k].t
  }

  predicate Interrupted(b: Bucket, turns: seq<Turn>, k: nat)
    requires k < |turns|
  {
    Waits(b, turns, k) && turns[k].cancelled
  }

  /** Turn `k` is not interrupted, does not fail and reads a whole chunk: the copy goes on. */
  predicate GoesOn(b: Bucket, turns: seq<Turn>, k: nat)
    requires k < |turns|
  {
    !Interrupted(b, turns, k) && !turns[k].failed && turns[k].read == COPY_CHUNK_SIZE
  }

  /** What a turn makes of a copy that has got to it. */
  lemma TurnEnds(b: Bucket, turns: seq<Turn>, k: nat)
    requires Fitting(b, turns) && k < |turns| && CopyRun(b, turns, k).outcome == Running
    ensures var (c, turn) := (CopyRun(b, turns, k + 1), turns[k]);
      && (c.outcome == Running <==> GoesOn(b, turns, k))
      && (c.outcome == ContextDone <==> Interrupted(b, turns, k))
      && (c.outcome == CopyFailed <==> !Interrupted(b, turns, k) && turn.failed)
      && (c.outcome == Finished <==> !Interrupted(b, turns, k) && !turn.failed && turn.read < COPY_CHUNK_SIZE)
      && c.written == CopyRun(b, turns, k).written + if Interrupted(b, turns, k) then 0 else turn.n
  {
    RunningChargesChunks(b, turns, k);
    hide Reserve, Recharge;
    NeverRefused(b, turns, k);
    WithinBurstIsGranted(CopyRun(b, turns, k).bucket, turns[k].t, COPY_CHUNK_SIZE);
  }

  /** Bytes the turns from `i` up to `j` write when none of them is interrupted. */
  function Bytes(turns: seq<Turn>, i: nat, j: nat): int
    requires i <= j <= |turns|
  {
    if i == j then 0 else Bytes(turns, i, j - 1) + turns[j - 1].n
  }

  lemma {:induction false} GoesOnSoFar(b: Bucket, turns: seq<Turn>, k: nat)
    requires Fitting(b, turns) && k <= |turns|
    ensures CopyRun(b, turns, k).outcome == Running <==> forall i :: 0 <= i < k ==> GoesOn(b, turns, i)
    ensures CopyRun(b, turns, k).outcome == Running ==>
      CopyRun(b, turns, k).used == k && CopyRun(b, turns, k).written == Bytes(turns, 0, k)
  {
    hide GoesOn, Interrupted, TurnOnce;
    if k > 0 {
      GoesOnSoFar(b, turns, k - 1);
      if CopyRun(b, turns, k - 1).outcome == Running {
        TurnEnds(b, turns, k - 1);
        UsedAfter(b, turns, k);
        TurnEndsWritten(b, turns, k - 1);
      }
    }
  }

  lemma UsedAfter(b: Bucket, turns: seq<Turn>, k: nat)
    requires 0 < k <= |turns| && CopyRun(b, turns, k - 1).outcome == Running
    ensures CopyRun(b, turns, k).used == CopyRun(b, turns, k - 1).used + 1
  {
  }

  lemma TurnEndsWritten(b: Bucket, turns: seq<Turn>, k: nat)
    requires k < |turns|
    ensures GoesOn(b, turns, k) ==> !Interrupted(b, turns, k)
  {
  }

  /** A copy goes on exactly as long as no turn is interrupted, fails or comes short. The last turn it
      makes decides how it ends, and it has written all that its turns wrote, the last one nothing if
      it is interrupted. */
  lemma {:induction false} EndsAsTurnsDo(b: Bucket, turns: seq<Turn>)
    requires Fitting(b, turns) && turns != []
    ensures var c := CopyRun(b, turns, |turns|);
      && 0 < c.used <= |turns|
      && (forall i :: 0 <= i < c.used - 1 ==> GoesOn(b, turns, i))
      && var last := c.used - 1;
         && (c.outcome == Running <==> GoesOn(b, turns, last))
         && (c.outcome == Running ==> c.used == |turns|)
         && (c.outcome == ContextDone <==> Interrupted(b, turns, last))
         && (c.outcome == CopyFailed <==> !Interrupted(b, turns, last) && turns[last].failed)
         && (c.outcome == Finished <==> !Interrupted(b, turns, last) && !turns[last].failed && turns[last].read < COPY_CHUNK_SIZE)
         && c.written == Bytes(turns, 0, last) + if Interrupted(b, turns, last) then 0 else turns[last].n
  {
    var k := LastTurn(b, turns, |turns|);
    GoesOnSoFar(b, turns, k);
    TurnEnds(b, turns, k);
    GoesOnSoFar(b, turns, |turns|);
    TurnDecides(b, turns, k);
    hide GoesOn, Interrupted, TurnOnce;
  }

  /** A limiter with a burst that no chunk fits grants nothing: the first turn ends the copy, with
      nothing written and the limiter as it was. */
  lemma {:induction false} SmallBurstCopiesNothing(b: Bucket, turns: seq<Turn>)
    requires b.limit.PerSecond? && b.burst < COPY_CHUNK_SIZE && turns != []
    ensures CopyRun(b, turns, |turns|) == Copied(b, 0, 1, NoReservation)
  {
    TurnDecides(b, turns, 0);
  }
}
