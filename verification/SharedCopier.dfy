/**
 Copiers that share a limiter, as all streams of a group do and both directions of one when they
 are not separate. A turn of a copy takes a chunk when it begins; when it ends short it settles at
 the time it began, which can set the limiter's clock back behind the other copiers.
 */
module SharedCopier {
  import opened Rate
  import opened RateArithmetic
  import opened RateBounds
  import opened Copier

  // ---- What a settlement makes ----

  /** What the cancel of a short turn gives back: as much as it wants to, but not beyond the burst. */
  function GivenBack(b: Bucket, r: Reservation, t: int): real {
    if CancelIgnored(b, r, t) then 0.0
    else
      var (restore, room) := (RestoreTokens(b, r), b.burst as real - Advance(b, t));
      if restore < room then restore else room
  }

  /** How far a settlement at `t` sets the clock back. */
  function ClockBack(b: Bucket, t: int): nat {
    if t < b.last then b.last - t else 0
  }

  /** The time a settlement rewinds: of the clock, and how far `lastEvent` has fallen behind the
      reservation it gives back. */
  function SetBack(b: Bucket, r: Reservation, t: int): nat {
    ClockBack(b, t) + if !CancelIgnored(b, r, t) && b.lastEvent < r.timeToAct then r.timeToAct - b.lastEvent else 0
  }

  /** The tokens that settling a turn of `n` bytes makes: how much more the bucket holds afterwards
      than with the unwritten part of the chunk put back now. */
  function Made(b: Bucket, r: Reservation, t: int, n: nat, now: int): real {
    var (settled, due) := (Advance(Recharge(b, r, t, n), now), Capped(Advance(b, now) + (COPY_CHUNK_SIZE - n) as real, b.burst));
    if settled > due then settled - due else 0.0
  }

  /** The settlement changes nothing, the bucket would be full anyway, or what is given back and the
      refill of the time rewound fit the chunk. */
  predicate SettlesHarmlessly(b: Bucket, r: Reservation, t: int, n: nat, now: int) {
    || (CancelIgnored(b, r, t) && n == 0)
    || Advance(b, now) + (COPY_CHUNK_SIZE - n) as real >= b.burst as real
    || GivenBack(b, r, t) + TokensFromDuration(RateOf(b.limit), ClockBack(b, t)) <= COPY_CHUNK_SIZE as real
  }

  /** A short turn of a copier on this limiter, begun at `t` and settled no later than `now`. */
  predicate IsShortTurn(b: Bucket, r: Reservation, t: int, n: nat, now: int) {
    && b.limit.PerSecond? && b.burst >= COPY_CHUNK_SIZE > n
    && r.ok && r.tokens == COPY_CHUNK_SIZE && r.limit == b.limit && b.last <= now && t <= now
  }

  /** The level after a settlement. */
  lemma SettledLevel(b: Bucket, r: Reservation, t: int, n: nat, now: int)
    requires IsShortTurn(b, r, t, n, now) && !(CancelIgnored(b, r, t) && n == 0)
    ensures Advance(Recharge(b, r, t, n), now)
      == Capped(Advance(b, t) + GivenBack(b, r, t) - n as real + TokensFromDuration(b.limit.rate, now - t), b.burst)
  {
    var (rate, c) := (b.limit.rate, Cancel(b, r, t));
    RefillAdds(rate, 0, 0);
    ElapsedIsNonNegative(rate, now - t);
    assert Advance(c, t) == Advance(b, t) + GivenBack(b, r, t);
    if n > 0 {
      WithinBurstIsGranted(c, t, n);
    }
    hide TokensFromDuration, WaitFor;
  }

  /** The level without it. */
  lemma UnsettledLevel(b: Bucket, t: int, now: int)
    requires b.limit.PerSecond? && b.last <= now && t <= now
    ensures Advance(b, now)
      == Capped(Advance(b, t) + TokensFromDuration(b.limit.rate, now - t) - TokensFromDuration(b.limit.rate, ClockBack(b, t)), b.burst)
  {
    var rate := b.limit.rate;
    RefillAdds(rate, 0, 0);
    ElapsedIsNonNegative(rate, now - b.last);
    if t < b.last {
      RefillAdds(rate, now - b.last, b.last - t);
    } else {
      AdvanceComposes(b, t, now);
    }
    hide TokensFromDuration;
  }

  /** A settlement makes no tokens exactly when it is harmless, which can be told beforehand. */
  lemma {:induction false} SettlementMakesNoneExactly(b: Bucket, r: Reservation, t: int, n: nat, now: int)
    requires IsShortTurn(b, r, t, n, now)
    ensures Made(b, r, t, n, now) == 0.0 <==> SettlesHarmlessly(b, r, t, n, now)
  {
    UnsettledLevel(b, t, now);
    if !(CancelIgnored(b, r, t) && n == 0) {
      SettledLevel(b, r, t, n, now);
    }
    hide Advance, TokensFromDuration, Recharge, CancelIgnored, GivenBack;
  }

  /** It never makes more than the refill of the time it rewinds. */
  lemma {:induction false} RewoundTimeMakesThem(b: Bucket, r: Reservation, t: int, n: nat, now: int)
    requires IsShortTurn(b, r, t, n, now)
    ensures 0.0 <= Made(b, r, t, n, now) <= TokensFromDuration(b.limit.rate, SetBack(b, r, t))
  {
    var (rate, back, behind) := (b.limit.rate, ClockBack(b, t), r.timeToAct - b.lastEvent);
    ElapsedIsNonNegative(rate, back);
    ElapsedIsNonNegative(rate, SetBack(b, r, t));
    RefillAdds(rate, back, SetBack(b, r, t) - back);
    RefillAdds(rate, behind, -behind);
    RefillAdds(rate, 0, 0);
    if behind <= 0 {
      ElapsedIsNonNegative(rate, -behind);
    } else {
      ElapsedIsNonNegative(rate, behind);
    }
    UnsettledLevel(b, t, now);
    if !(CancelIgnored(b, r, t) && n == 0) {
      SettledLevel(b, r, t, n, now);
    }
    hide Advance, TokensFromDuration, Recharge;
  }

  // ---- Runs ----

  /** A turn of some copier: its reservation, when it began, and whether it has ended. */
  datatype Hold = Hold(r: Reservation, t: int, ended: bool)
  {
    /** Its delay is over, so it may be writing or have written. */
    predicate Acts(now: int) {
      r.timeToAct <= now && r.timeToAct < t + INF_DURATION
    }
  }

  /** A turn begins; turn `k` has written its chunk, or has written `n` bytes and is short. */
  datatype Action = Begin | Whole(k: nat) | Short(k: nat, n: nat)

  datatype Step = Step(at: int, action: Action)

  /** `written` are the bytes of turns that have ended, `made` the tokens their settlements made, and
      `rewound` the time they set back. */
  datatype State = State(bucket: Bucket, turns: seq<Hold>, written: nat, made: real, rewound: nat)

  predicate CanEnd(s: State, at: int, k: nat) {
    k < |s.turns| && !s.turns[k].ended && s.turns[k].Acts(at)
  }

  predicate Enabled(s: State, step: Step) {
    match step.action
    case Begin => true
    case Whole(k) => CanEnd(s, step.at, k)
    case Short(k, n) => CanEnd(s, step.at, k) && n < COPY_CHUNK_SIZE
  }

  function Ended(turns: seq<Hold>, k: nat): seq<Hold>
    requires k < |turns|
  {
    turns[k := turns[k].(ended := true)]
  }

  function Apply(s: State, step: Step): State
    requires Enabled(s, step)
  {
    match step.action
    case Begin =>
      var (b, r) := Reserve(s.bucket, step.at, COPY_CHUNK_SIZE, INF_DURATION);
      s.(bucket := b, turns := s.turns + [Hold(r, step.at, false)])
    case Whole(k) => s.(turns := Ended(s.turns, k), written := s.written + COPY_CHUNK_SIZE)
    case Short(k, n) =>
      var (r, t) := (s.turns[k].r, s.turns[k].t);
      State(Recharge(s.bucket, r, t, n), Ended(s.turns, k), s.written + n,
            s.made + Made(s.bucket, r, t, n, step.at), s.rewound + SetBack(s.bucket, r, t))
  }

  /** The state after the first `k` steps, as long as they are possible. */
  function Run(b: Bucket, steps: seq<Step>, k: nat): State
    requires k <= |steps|
  {
    if k == 0 then State(b, [], 0, 0.0, 0)
    else
      var s := Run(b, steps, k - 1);
      if Enabled(s, steps[k - 1]) then Apply(s, steps[k - 1]) else s
  }

  function Now(b: Bucket, steps: seq<Step>, k: nat): int
    requires k <= |steps|
  {
    if k == 0 then b.last else steps[k - 1].at
  }

  /** A limiter for copiers, and `k` steps that are possible, with a clock that does not go back. */
  ghost predicate Possible(b: Bucket, steps: seq<Step>, k: nat)
    requires k <= |steps|
  {
    && b.limit.PerSecond? && b.burst >= COPY_CHUNK_SIZE
    && (k > 0 ==>
          && Possible(b, steps, k - 1)
          && Now(b, steps, k - 1) <= Now(b, steps, k)
          && Enabled(Run(b, steps, k - 1), steps[k - 1]))
  }

  /** Turns that have not ended among the first `m`. */
  function Open(turns: seq<Hold>, m: nat): nat
    requires m <= |turns|
  {
    if m == 0 then 0 else Open(turns, m - 1) + if turns[m - 1].ended then 0 else 1
  }

  /** Turns that have not ended but may have written, among the first `m`. */
  function Writing(turns: seq<Hold>, m: nat, now: int): nat
    requires m <= |turns|
  {
    if m == 0 then 0 else Writing(turns, m - 1, now) + if !turns[m - 1].ended && turns[m - 1].Acts(now) then 1 else 0
  }

  lemma {:induction false} OpenAfterEnd(turns: seq<Hold>, k: nat, m: nat)
    requires k < |turns| && m <= |turns| && !turns[k].ended
    ensures Open(Ended(turns, k), m) == Open(turns, m) - if k < m then 1 else 0
  {
    if m > 0 {
      OpenAfterEnd(turns, k, m - 1);
    }
  }

  lemma {:induction false} OpenAfterBegin(turns: seq<Hold>, turn: Hold, m: nat)
    requires m <= |turns|
    ensures Open(turns + [turn], m) == Open(turns, m)
  {
    if m > 0 {
      OpenAfterBegin(turns, turn, m - 1);
    }
  }

  /** Every turn holds a whole chunk at the limiter's own rate, and nothing is ahead of the clock. */
  ghost predicate Fits(b: Bucket, s: State, now: int) {
    && s.bucket.limit == b.limit && s.bucket.burst == b.burst && s.bucket.last <= now
    && forall k :: 0 <= k < |s.turns| ==> HoldFits(b, s.turns[k], now)
  }

  predicate HoldFits(b: Bucket, hold: Hold, now: int) {
    hold.r.ok && hold.r.tokens == COPY_CHUNK_SIZE && hold.r.limit == b.limit && hold.t <= now
  }

  lemma StepKeepsFit(b: Bucket, s: State, step: Step, now: int)
    requires Fits(b, s, now) && now <= step.at && b.limit.PerSecond? && b.burst >= COPY_CHUNK_SIZE && Enabled(s, step)
    ensures Fits(b, Apply(s, step), step.at)
  {
    hide WaitFor, TokensFromDuration, DurationFromTokens, RestoreTokens;
    WithinBurstIsGranted(s.bucket, step.at, COPY_CHUNK_SIZE);
  }

  /** Bytes written, chunks held by open turns, and the level of the bucket, against the refill so
      far and the tokens made. */
  ghost predicate Balanced(b: Bucket, s: State, now: int) {
    s.written as real + (COPY_CHUNK_SIZE * Open(s.turns, |s.turns|)) as real + Advance(s.bucket, now)
    <= b.tokens + TokensFromDuration(RateOf(b.limit), now - b.last) + s.made
  }

  lemma BalancedLater(b: Bucket, s: State, now: int, later: int)
    requires b.limit.PerSecond? && Fits(b, s, now) && Balanced(b, s, now) && now <= later
    ensures Balanced(b, s, later)
  {
    AdvanceComposes(s.bucket, now, later);
    RefillAdds(b.limit.rate, now - b.last, later - now);
    hide TokensFromDuration, Open;
  }

  lemma BeginKeepsBalance(b: Bucket, s: State, step: Step)
    requires b.limit.PerSecond? && b.burst >= COPY_CHUNK_SIZE && Fits(b, s, step.at) && Balanced(b, s, step.at)
    requires step.action == Begin
    ensures Balanced(b, Apply(s, step), step.at)
  {
    var q := Apply(s, step);
    WithinBurstIsGranted(s.bucket, step.at, COPY_CHUNK_SIZE);
    OpenAfterBegin(s.turns, q.turns[|s.turns|], |s.turns|);
    RefillAdds(b.limit.rate, 0, 0);
    assert Advance(q.bucket, step.at) == Advance(s.bucket, step.at) - COPY_CHUNK_SIZE as real;
    hide TokensFromDuration, WaitFor, Advance, Reserve;
  }

  lemma MadeIsTheRest(b: Bucket, r: Reservation, t: int, n: nat, now: int)
    ensures Advance(Recharge(b, r, t, n), now) <= Advance(b, now) + (COPY_CHUNK_SIZE - n) as real + Made(b, r, t, n, now)
  {
    hide Advance, Recharge;
  }

  /** What ending turn `k` does to the state. */
  lemma EndWrites(s: State, step: Step)
    requires Enabled(s, step) && step.action != Begin
    ensures var (q, k) := (Apply(s, step), step.action.k);
      && k < |s.turns| && !s.turns[k].ended && q.turns == Ended(s.turns, k)
      && q.written as real + Advance(q.bucket, step.at) - q.made
         <= s.written as real + Advance(s.bucket, step.at) - s.made + COPY_CHUNK_SIZE as real
  {
    if step.action.Short? {
      var hold := s.turns[step.action.k];
      MadeIsTheRest(s.bucket, hold.r, hold.t, step.action.n, step.at);
    }
    hide Recharge, Advance, SetBack, Made;
  }

  lemma EndKeepsBalance(b: Bucket, s: State, step: Step)
    requires Enabled(s, step) && Balanced(b, s, step.at) && step.action != Begin
    ensures Balanced(b, Apply(s, step), step.at)
  {
    EndWrites(s, step);
    OpenAfterEnd(s.turns, step.action.k, |s.turns|);
    hide Apply, Enabled, TokensFromDuration, Advance, Open;
  }

  lemma StepKeepsBalance(b: Bucket, s: State, step: Step)
    requires b.limit.PerSecond? && b.burst >= COPY_CHUNK_SIZE && Fits(b, s, step.at) && Enabled(s, step) && Balanced(b, s, step.at)
    ensures Balanced(b, Apply(s, step), step.at)
  {
    hide Apply, Enabled, Fits, Balanced;
    if step.action == Begin {
      BeginKeepsBalance(b, s, step);
    } else {
      EndKeepsBalance(b, s, step);
    }
  }

  lemma {:induction false} RunIsBalanced(b: Bucket, steps: seq<Step>, k: nat)
    requires k <= |steps| && Possible(b, steps, k)
    ensures Fits(b, Run(b, steps, k), Now(b, steps, k)) && Balanced(b, Run(b, steps, k), Now(b, steps, k))
  {
    hide Apply, Enabled, TokensFromDuration;
    RefillAdds(b.limit.rate, 0, 0);
    if k > 0 {
      var (s, step) := (Run(b, steps, k - 1), steps[k - 1]);
      hide Fits, Balanced;
      RunIsBalanced(b, steps, k - 1);
      BalancedLater(b, s, Now(b, steps, k - 1), step.at);
      StepKeepsFit(b, s, step, Now(b, steps, k - 1));
      FitsLater(b, s, Now(b, steps, k - 1), step.at);
      StepKeepsBalance(b, s, step);
    }
  }

  lemma FitsLater(b: Bucket, s: State, now: int, later: int)
    requires Fits(b, s, now) && now <= later
    ensures Fits(b, s, later)
  {
  }

  // ---- What has been written ----

  /** No turn from `m` on has ended. */
  predicate OpenFrom(turns: seq<Hold>, m: nat) {
    forall k :: m <= k < |turns| ==> !turns[k].ended
  }

  /** What the first `m` turns have written or still hold, against the refill until the last of them
      may act, the tokens made, and one nanosecond. */
  ghost predicate WithinActing(b: Bucket, s: State, m: nat)
    requires 0 < m <= |s.turns|
  {
    s.written as real + (COPY_CHUNK_SIZE * Open(s.turns, m)) as real
    <= b.tokens + TokensFromDuration(RateOf(b.limit), s.turns[m - 1].r.timeToAct - b.last + 1) + s.made
  }

  /** A turn that begins and can act holds at most what time has refilled by then. */
  lemma BeginIsWithinActing(b: Bucket, s: State, step: Step)
    requires b.limit.PerSecond? && b.burst >= COPY_CHUNK_SIZE && Fits(b, s, step.at) && step.action == Begin
    requires var q := Apply(s, step);
      Balanced(b, q, step.at) && q.turns[|s.turns|].r.timeToAct < q.turns[|s.turns|].t + INF_DURATION
    ensures WithinActing(b, Apply(s, step), |s.turns| + 1)
  {
    var (rate, q) := (b.limit.rate, Apply(s, step));
    WithinBurstIsGranted(s.bucket, step.at, COPY_CHUNK_SIZE);
    var wait := WaitFor(rate, q.bucket.tokens);
    WaitBrackets(rate, q.bucket.tokens);
    RefillAdds(rate, step.at - b.last, wait + 1);
    RefillAdds(rate, 0, 0);
    ElapsedIsNonNegative(rate, wait + 1);
    hide Open, TokensFromDuration, WaitFor;
  }

  /** Ending turns only writes what they held. */
  lemma LaterStepsStayWithin(b: Bucket, s: State, step: Step, m: nat)
    requires b.limit.PerSecond? && Enabled(s, step) && 0 < m <= |s.turns| && WithinActing(b, s, m)
    requires OpenFrom(Apply(s, step).turns, m)
    ensures WithinActing(b, Apply(s, step), m)
  {
    var q := Apply(s, step);
    match step.action
    case Begin => OpenAfterBegin(s.turns, q.turns[|s.turns|], m);
    case Whole(k) =>
      assert q.turns[k].ended;
      OpenAfterEnd(s.turns, k, m);
    case Short(k, _) =>
      assert q.turns[k].ended;
      OpenAfterEnd(s.turns, k, m);
    hide Open, TokensFromDuration, Reserve, Recharge, Advance, SetBack;
  }

  predicate JustEnded(s: State, q: State, k: nat) {
    k < |q.turns| && q.turns[k].ended && (k < |s.turns| ==> !s.turns[k].ended)
  }

  /** A step adds a turn, or ends one, in time. */
  lemma TurnsGrow(s: State, step: Step, q: State, m: nat)
    requires Enabled(s, step) && q == Apply(s, step)
    ensures OpenFrom(q.turns, m) ==> OpenFrom(s.turns, m)
    ensures |q.turns| == |s.turns| + if step.action == Begin then 1 else 0
    ensures OpenFrom(q.turns, m) && step.action != Begin ==> step.action.k < m
    ensures forall k :: 0 <= k < |s.turns| ==> q.turns[k].r == s.turns[k].r && q.turns[k].t == s.turns[k].t
    ensures forall k: nat :: JustEnded(s, q, k) ==> k < |s.turns| && s.turns[k].Acts(step.at)
  {
    if OpenFrom(q.turns, m) {
      forall k | m <= k < |s.turns| ensures !s.turns[k].ended {
        assert !q.turns[k].ended;
      }
      if step.action != Begin {
        assert q.turns[step.action.k].ended;
      }
    }
  }

  lemma OneStepStaysWithin(b: Bucket, s: State, step: Step, q: State, m: nat)
    requires b.limit.PerSecond? && b.burst >= COPY_CHUNK_SIZE && Enabled(s, step) && q == Apply(s, step)
    requires Fits(b, s, step.at) && Balanced(b, q, step.at) && 0 < m <= |q.turns| && OpenFrom(q.turns, m)
    requires m <= |s.turns| ==> WithinActing(b, s, m)
    requires m > |s.turns| ==> q.turns[m - 1].r.timeToAct < q.turns[m - 1].t + INF_DURATION
    ensures WithinActing(b, q, m)
  {
    hide Apply, Enabled, WithinActing, OpenFrom, Balanced, Fits, JustEnded;
    TurnsGrow(s, step, q, m);
    if m <= |s.turns| {
      LaterStepsStayWithin(b, s, step, m);
    } else {
      BeginIsWithinActing(b, s, step);
    }
  }

  lemma {:induction false} RunStaysWithin(b: Bucket, steps: seq<Step>, k: nat, m: nat)
    requires k <= |steps| && Possible(b, steps, k)
    requires var turns := Run(b, steps, k).turns;
      && 0 < m <= |turns| && OpenFrom(turns, m)
      && turns[m - 1].r.timeToAct < turns[m - 1].t + INF_DURATION
    ensures WithinActing(b, Run(b, steps, k), m)
  {
    StartsEmpty(b, steps, k);
    var (s, step, q) := (Run(b, steps, k - 1), steps[k - 1], Run(b, steps, k));
    TurnsGrow(s, step, q, m);
    RunIsBalanced(b, steps, k - 1);
    RunIsBalanced(b, steps, k);
    FitsLater(b, s, Now(b, steps, k - 1), step.at);
    hide Apply, Enabled, OpenFrom, Balanced, Fits, WithinActing, JustEnded;
    if m <= |s.turns| {
      RunStaysWithin(b, steps, k - 1, m);
    }
    OneStepStaysWithin(b, s, step, q, m);
  }

  lemma StartsEmpty(b: Bucket, steps: seq<Step>, k: nat)
    requires k <= |steps| && Run(b, steps, k).turns != []
    ensures k > 0
  {
  }

  /** One more than the index of the last turn that has ended or may have written, or zero. */
  function LastActing(turns: seq<Hold>, m: nat, now: int): (e: nat)
    requires m <= |turns|
    ensures e <= m && (e > 0 ==> turns[e - 1].ended || turns[e - 1].Acts(now))
    ensures forall k :: e <= k < m ==> !turns[k].ended && !turns[k].Acts(now)
  {
    if m == 0 || turns[m - 1].ended || turns[m - 1].Acts(now) then m else LastActing(turns, m - 1, now)
  }

  lemma {:induction false} WritingIsOpen(turns: seq<Hold>, e: nat, m: nat, now: int)
    requires e <= m <= |turns|
    requires forall k :: e <= k < m ==> !turns[k].ended && !turns[k].Acts(now)
    ensures Writing(turns, m, now) <= Open(turns, e)
    decreases m
  {
    if m > e {
      WritingIsOpen(turns, e, m - 1, now);
    } else if m > 0 {
      WritingIsOpen(turns, m - 1, m - 1, now);
    }
  }

  lemma {:induction false} EndedActs(b: Bucket, steps: seq<Step>, k: nat, m: nat)
    requires k <= |steps| && Possible(b, steps, k) && m < |Run(b, steps, k).turns| && Run(b, steps, k).turns[m].ended
    ensures Run(b, steps, k).turns[m].Acts(Now(b, steps, k))
  {
    hide Apply, Enabled, OpenFrom;
    StartsEmpty(b, steps, k);
    var (s, q) := (Run(b, steps, k - 1), Run(b, steps, k));
    TurnsGrow(s, steps[k - 1], q, m);
    if m < |s.turns| && s.turns[m].ended {
      EndedActs(b, steps, k - 1, m);
    } else {
      assert JustEnded(s, q, m);
    }
  }

  lemma {:induction false} NothingWritten(b: Bucket, steps: seq<Step>, k: nat)
    requires k <= |steps| && OpenFrom(Run(b, steps, k).turns, 0)
    ensures Run(b, steps, k).written == 0
  {
    hide OpenFrom;
    if k > 0 {
      var (s, step) := (Run(b, steps, k - 1), steps[k - 1]);
      if Enabled(s, step) {
        TurnsGrow(s, step, Apply(s, step), 0);
      }
      NothingWritten(b, steps, k - 1);
    }
  }

  lemma {:induction false} ClockAdvances(b: Bucket, steps: seq<Step>, k: nat)
    requires k <= |steps| && Possible(b, steps, k)
    ensures b.last <= Now(b, steps, k)
  {
    if k > 0 {
      ClockAdvances(b, steps, k - 1);
    }
  }

  /** All bytes that may be on the wire: those of ended turns, and a chunk for each other turn that
      may be writing. */
  function OnTheWire(s: State, now: int): nat {
    s.written + COPY_CHUNK_SIZE * Writing(s.turns, |s.turns|, now)
  }

  /** However many copiers share a limiter, and however their turns interleave: the bytes on the wire
      are at most the tokens at the start plus the refill since, the tokens that settlements made,
      and one nanosecond. */
  lemma {:induction false} SharedWrittenIsBounded(b: Bucket, steps: seq<Step>, k: nat)
    requires k <= |steps| && Possible(b, steps, k) && b.tokens >= 0.0
    ensures var (s, now) := (Run(b, steps, k), Now(b, steps, k));
      OnTheWire(s, now) as real <= b.tokens + TokensFromDuration(b.limit.rate, now - b.last + 1) + s.made
  {
    hide Apply, Enabled, TokensFromDuration;
    var (s, now) := (Run(b, steps, k), Now(b, steps, k));
    var m := LastActing(s.turns, |s.turns|, now);
    WritingIsOpen(s.turns, m, |s.turns|, now);
    if m == 0 {
      NothingWritten(b, steps, k);
      ClockAdvances(b, steps, k);
      ElapsedIsNonNegative(b.limit.rate, now - b.last + 1);
      MadeIsRewound(b, steps, k);
    } else {
      if s.turns[m - 1].ended {
        EndedActs(b, steps, k, m - 1);
      }
      RunStaysWithin(b, steps, k, m);
      RefillGrows(b.limit.rate, s.turns[m - 1].r.timeToAct - b.last + 1, now - b.last + 1);
    }
  }

  // ---- How much settlements make ----

  /** A short turn that a run can end is one of this limiter. */
  lemma ShortTurnFits(b: Bucket, steps: seq<Step>, k: nat)
    requires 0 < k <= |steps| && Possible(b, steps, k) && steps[k - 1].action.Short?
    ensures var (s, step) := (Run(b, steps, k - 1), steps[k - 1]);
      && step.action.k < |s.turns|
      && IsShortTurn(s.bucket, s.turns[step.action.k].r, s.turns[step.action.k].t, step.action.n, step.at)
  {
    RunIsBalanced(b, steps, k - 1);
    var s := Run(b, steps, k - 1);
    assert HoldFits(b, s.turns[steps[k - 1].action.k], Now(b, steps, k - 1));
    hide Balanced, Run, Possible;
  }

  /** The tokens made are at most the refill of the time rewound. */
  lemma {:induction false} MadeIsRewound(b: Bucket, steps: seq<Step>, k: nat)
    requires k <= |steps| && Possible(b, steps, k)
    ensures var s := Run(b, steps, k);
      0.0 <= s.made <= TokensFromDuration(b.limit.rate, s.rewound)
  {
    hide TokensFromDuration, Made, SetBack, Reserve, Recharge;
    RefillAdds(b.limit.rate, 0, 0);
    if k > 0 {
      MadeIsRewound(b, steps, k - 1);
      var (s, step) := (Run(b, steps, k - 1), steps[k - 1]);
      if step.action.Short? {
        var hold := s.turns[step.action.k];
        ShortTurnFits(b, steps, k);
        RunIsBalanced(b, steps, k - 1);
        RewoundTimeMakesThem(s.bucket, hold.r, hold.t, step.action.n, step.at);
        RefillAdds(b.limit.rate, s.rewound, SetBack(s.bucket, hold.r, hold.t));
      }
    }
  }

  /** So the bound holds with the rewound time charged instead. */
  lemma {:induction false} RewoundTimeIsCharged(b: Bucket, steps: seq<Step>, k: nat)
    requires k <= |steps| && Possible(b, steps, k) && b.tokens >= 0.0
    ensures var (s, now) := (Run(b, steps, k), Now(b, steps, k));
      OnTheWire(s, now) as real <= b.tokens + TokensFromDuration(b.limit.rate, now - b.last + 1 + s.rewound)
  {
    hide TokensFromDuration, OnTheWire;
    SharedWrittenIsBounded(b, steps, k);
    MadeIsRewound(b, steps, k);
    RefillAdds(b.limit.rate, Now(b, steps, k) - b.last + 1, Run(b, steps, k).rewound);
  }

  /** Every short turn of the run settles harmlessly. */
  ghost predicate AllSettleHarmlessly(b: Bucket, steps: seq<Step>, k: nat)
    requires k <= |steps|
  {
    k > 0 ==>
      var (s, step) := (Run(b, steps, k - 1), steps[k - 1]);
      && AllSettleHarmlessly(b, steps, k - 1)
      && (step.action.Short? && step.action.k < |s.turns| ==>
            SettlesHarmlessly(s.bucket, s.turns[step.action.k].r, s.turns[step.action.k].t, step.action.n, step.at))
  }

  /** Sharing makes no tokens in a run exactly when every short turn settles harmlessly. */
  lemma {:induction false} SharingMakesNoneExactly(b: Bucket, steps: seq<Step>, k: nat)
    requires k <= |steps| && Possible(b, steps, k)
    ensures Run(b, steps, k).made == 0.0 <==> AllSettleHarmlessly(b, steps, k)
  {
    hide TokensFromDuration, Made, SetBack, SettlesHarmlessly, Reserve, Recharge;
    if k > 0 {
      SharingMakesNoneExactly(b, steps, k - 1);
      MadeIsRewound(b, steps, k - 1);
      var (s, step) := (Run(b, steps, k - 1), steps[k - 1]);
      if step.action.Short? {
        var hold := s.turns[step.action.k];
        ShortTurnFits(b, steps, k);
        SettlementMakesNoneExactly(s.bucket, hold.r, hold.t, step.action.n, step.at);
        RewoundTimeMakesThem(s.bucket, hold.r, hold.t, step.action.n, step.at);
      }
    }
  }

  /** Then the bound of a stream alone holds of all of them together. */
  lemma {:induction false} HarmlessSharingIsBounded(b: Bucket, steps: seq<Step>, k: nat)
    requires k <= |steps| && Possible(b, steps, k) && b.tokens >= 0.0 && AllSettleHarmlessly(b, steps, k)
    ensures OnTheWire(Run(b, steps, k), Now(b, steps, k)) as real
      <= b.tokens + TokensFromDuration(b.limit.rate, Now(b, steps, k) - b.last + 1)
  {
    hide TokensFromDuration, OnTheWire, AllSettleHarmlessly, Run;
    SharedWrittenIsBounded(b, steps, k);
    SharingMakesNoneExactly(b, steps, k);
  }
  // ---- One copier among them ----

  /** What a step charges: a turn that begins writes nothing yet, one that ends writes its bytes, and
      only a short one touches the limiter, makes tokens or rewinds time. */
  lemma StepAccounts(s: State, step: Step)
    requires Enabled(s, step)
    ensures var q := Apply(s, step);
      match step.action
      case Begin => q.written == s.written && q.made == s.made && q.rewound == s.rewound
      case Whole(_) => q.written == s.written + COPY_CHUNK_SIZE && q.bucket == s.bucket && q.made == s.made && q.rewound == s.rewound
      case Short(k, n) =>
        var hold := s.turns[k];
        && q.written == s.written + n
        && q.made == s.made + Made(s.bucket, hold.r, hold.t, n, step.at)
        && q.rewound == s.rewound + SetBack(s.bucket, hold.r, hold.t)
  {
    hide Made, SetBack, Reserve, Recharge;
  }

  /** A turn that begins and ends with nothing in between does to the limiter what the copier's turn
      does, and writes as much. */
  lemma {:induction false} TurnAlone(s: State, turn: Turn, at: int)
    requires turn.Sound() && s.bucket.burst >= COPY_CHUNK_SIZE && turn.t <= at
    requires var c := TurnOnce(Copied(s.bucket, s.written, 0, Running), turn);
      c.outcome != ContextDone && Hold(Reserve(s.bucket, turn.t, COPY_CHUNK_SIZE, INF_DURATION).1, turn.t, false).Acts(at)
    ensures var c := TurnOnce(Copied(s.bucket, s.written, 0, Running), turn);
      var begun := Apply(s, Step(turn.t, Begin));
      var end := Step(at, if turn.n == COPY_CHUNK_SIZE then Whole(|s.turns|) else Short(|s.turns|, turn.n));
      && Enabled(begun, end)
      && var q := Apply(begun, end);
         && q.bucket == c.bucket && q.written == c.written
         && |q.turns| == |s.turns| + 1 && q.turns[|s.turns|].ended && q.turns[..|s.turns|] == s.turns
  {
    WithinBurstIsGranted(s.bucket, turn.t, COPY_CHUNK_SIZE);
    hide Made, SetBack, Reserve, Recharge;
  }
}
