/**
 The cache of limiters shared by the sessions of one group, as a state machine whose steps are
 the calls that lock the cache or one limiter. Items are objects with an identity, sessions hold
 a pointer to theirs, and the cache may drop an item whenever its validity test fails.
 */
module LimiterCache {
  import opened Rate
  import opened Copier

  datatype Parameters = Parameters(upload: Limit, uploadBurst: int, download: Limit, downloadBurst: int, separate: bool)

  /** Both directions use `ul` when the item is `shared`. `holders` are the sessions that have
      the item read-locked. */
  datatype Item = Item(ul: Bucket, dl: Bucket, shared: bool, holders: set<nat>)
  {
    function Of(up: bool): Bucket {
      if up || shared then ul else dl
    }

    function With(up: bool, b: Bucket): Item {
      if up || shared then this.(ul := b) else this.(dl := b)
    }
  }

  datatype Taken = Never | Last(r: Reservation)

  datatype Session = Session(key: string, item: nat, up: Taken, down: Taken)
  {
    function Of(direction: bool): Taken {
      if direction then up else down
    }

    function With(direction: bool, taken: Taken): Session {
      if direction then this.(up := taken) else this.(down := taken)
    }
  }

  datatype State = State(cache: map<string, nat>, items: map<nat, Item>, sessions: map<nat, Session>, next: nat)

  /** Each call that acquires comes with the parameters computed for it; they count if the group has
      no limiter yet. */
  datatype Op =
    | Acquire(sid: nat, key: string, p: Parameters, t: int)
    | Release(sid: nat, t: int)
    | Take(sid: nat, up: bool, t: int, n: int)
    | GiveBack(sid: nat, up: bool, t: int)
    | Look(sid: nat, up: bool, t: int)
    | Evict(key: string, t: int)

  datatype Output = Nothing | Took(r: Reservation) | Saw(tokens: real)

  const EMPTY: State := State(map[], map[], map[], 0)

  function Max(a: int, b: int): int {
    if a > b then a else b
  }

  function FreshBucket(limit: Limit, burst: int): Bucket {
    FullBucket(limit, Max(COPY_CHUNK_SIZE, burst))
  }

  function FreshItem(p: Parameters, sid: nat): Item {
    var ul := FreshBucket(p.upload, p.uploadBurst);
    Item(ul, if p.separate then FreshBucket(p.download, p.downloadBurst) else ul, !p.separate, {sid})
  }

  predicate IsFull(b: Bucket, t: int) {
    Advance(b, t) >= b.burst as real
  }

  /** The validity test fails, so that the cache may drop the item: nobody holds it and both its
      buckets are full. */
  predicate Droppable(item: Item, t: int) {
    item.holders == {} && IsFull(item.Of(true), t) && IsFull(item.Of(false), t)
  }

  /** One step; a step that does not apply changes nothing. Without `evicting` the cache never
      drops an item. */
  function Step(evicting: bool, s: State, op: Op): (State, Output) {
    match op
    case Acquire(sid, key, p, _) =>
      if sid in s.sessions then (s, Nothing)
      else if key in s.cache && s.cache[key] in s.items then
        var id := s.cache[key];
        (s.(items := s.items[id := s.items[id].(holders := s.items[id].holders + {sid})],
            sessions := s.sessions[sid := Session(key, id, Never, Never)]), Nothing)
      else
        (State(s.cache[key := s.next], s.items[s.next := FreshItem(p, sid)],
               s.sessions[sid := Session(key, s.next, Never, Never)], s.next + 1), Nothing)
    case Release(sid, _) =>
      if sid !in s.sessions || s.sessions[sid].item !in s.items then (s, Nothing)
      else
        var id := s.sessions[sid].item;
        (s.(items := s.items[id := s.items[id].(holders := s.items[id].holders - {sid})],
            sessions := s.sessions - {sid}), Nothing)
    case Take(sid, up, t, n) =>
      if sid !in s.sessions || s.sessions[sid].item !in s.items then (s, Nothing)
      else
        var id := s.sessions[sid].item;
        var (b, r) := Reserve(s.items[id].Of(up), t, n, INF_DURATION);
        (s.(items := s.items[id := s.items[id].With(up, b)],
            sessions := if r.ok then s.sessions[sid := s.sessions[sid].With(up, Last(r))] else s.sessions), Took(r))
    case GiveBack(sid, up, t) =>
      if sid !in s.sessions || s.sessions[sid].item !in s.items || s.sessions[sid].Of(up) == Never then (s, Nothing)
      else
        var id := s.sessions[sid].item;
        (s.(items := s.items[id := s.items[id].With(up, Cancel(s.items[id].Of(up), s.sessions[sid].Of(up).r, t))]), Nothing)
    case Look(sid, up, t) =>
      if sid !in s.sessions || s.sessions[sid].item !in s.items then (s, Nothing)
      else (s, Saw(Advance(s.items[s.sessions[sid].item].Of(up), t)))
    case Evict(key, t) =>
      if evicting && key in s.cache && s.cache[key] in s.items && Droppable(s.items[s.cache[key]], t) then
        (s.(cache := s.cache - {key}, items := s.items - {s.cache[key]}), Nothing)
      else (s, Nothing)
  }

  function Run(evicting: bool, ops: seq<Op>): State {
    if ops == [] then EMPTY
    else Step(evicting, Run(evicting, ops[..|ops| - 1]), ops[|ops| - 1]).0
  }

  /** What the callers see. */
  function Outputs(evicting: bool, ops: seq<Op>): seq<Output> {
    if ops == [] then []
    else
      var earlier := ops[..|ops| - 1];
      Outputs(evicting, earlier) + [Step(evicting, Run(evicting, earlier), ops[|ops| - 1]).1]
  }

  function Now(ops: seq<Op>): int {
    if ops == [] then 0 else Max(Now(ops[..|ops| - 1]), ops[|ops| - 1].t)
  }

  /** Calls come in the order of their times. Only a session that has already taken tokens in a
      direction may name an earlier time there, as the copier does after a short copy. */
  ghost predicate Clocked(ops: seq<Op>) {
    ops == [] ||
    var (earlier, op) := (ops[..|ops| - 1], ops[|ops| - 1]);
    Clocked(earlier) && OnTime(Run(true, earlier), Now(earlier), op)
  }

  ghost predicate OnTime(s: State, now: int, op: Op) {
    now <= op.t || ((op.Take? || op.GiveBack? || op.Look?) && op.sid in s.sessions && s.sessions[op.sid].Of(op.up) != Never)
  }

  // ---- One cache: who holds what ----

  ghost predicate WellFormed(s: State) {
    && (forall k <- s.cache :: s.cache[k] in s.items)
    && (forall k, l :: k in s.cache && l in s.cache && s.cache[k] == s.cache[l] ==> k == l)
    && (forall id <- s.items :: id < s.next)
    && (forall sid <- s.sessions :: s.sessions[sid].key in s.cache && s.sessions[sid].item == s.cache[s.sessions[sid].key])
    && (forall k, sid :: k in s.cache ==>
          (sid in s.items[s.cache[k]].holders <==> sid in s.sessions && s.sessions[sid].key == k))
  }

  /** Changing what is in items and what sessions remember leaves who holds what as it is. */
  lemma ContentsDoNotMatter(s: State, z: State)
    requires WellFormed(s) && z.cache == s.cache && z.next == s.next
    requires z.items.Keys == s.items.Keys && z.sessions.Keys == s.sessions.Keys
    requires forall id <- s.items :: z.items[id].holders == s.items[id].holders
    requires forall sid <- s.sessions :: z.sessions[sid].key == s.sessions[sid].key && z.sessions[sid].item == s.sessions[sid].item
    ensures WellFormed(z)
  {
    forall k, sid | k in z.cache
      ensures sid in z.items[z.cache[k]].holders <==> sid in z.sessions && z.sessions[sid].key == k
    {
      assert z.items[z.cache[k]].holders == s.items[s.cache[k]].holders;
    }
  }

  lemma CachedIsThere(s: State, key: string)
    requires WellFormed(s)
    ensures key in s.cache ==> s.cache[key] in s.items
  {
  }

  /** A session may be added to the holders of the item its group has. */
  lemma OneMoreHolder(s: State, sid: nat, key: string)
    requires WellFormed(s) && sid !in s.sessions && key in s.cache && s.cache[key] in s.items
    ensures var (id, item) := (s.cache[key], s.items[s.cache[key]]);
      WellFormed(s.(items := s.items[id := item.(holders := item.holders + {sid})],
                    sessions := s.sessions[sid := Session(key, id, Never, Never)]))
  {
  }

  /** A group without an item may get one, held by its first session. */
  lemma OneMoreItem(s: State, sid: nat, key: string, item: Item)
    requires WellFormed(s) && sid !in s.sessions && key !in s.cache && item.holders == {sid}
    ensures WellFormed(State(s.cache[key := s.next], s.items[s.next := item],
                             s.sessions[sid := Session(key, s.next, Never, Never)], s.next + 1))
  {
  }

  lemma AcquireKeepsForm(evicting: bool, s: State, op: Op)
    requires WellFormed(s) && op.Acquire?
    ensures WellFormed(Step(evicting, s, op).0)
  {
    hide FreshItem, WellFormed;
    CachedIsThere(s, op.key);
    if op.sid !in s.sessions && op.key in s.cache {
      OneMoreHolder(s, op.sid, op.key);
    } else if op.sid !in s.sessions {
      FreshItemIsHeld(op.p, op.sid);
      OneMoreItem(s, op.sid, op.key, FreshItem(op.p, op.sid));
    }
  }
  lemma FreshItemIsHeld(p: Parameters, sid: nat)
    ensures FreshItem(p, sid).holders == {sid}
  {
  }

  lemma ReleaseKeepsForm(evicting: bool, s: State, op: Op)
    requires WellFormed(s) && op.Release?
    ensures WellFormed(Step(evicting, s, op).0)
  {
  }

  lemma EvictKeepsForm(evicting: bool, s: State, op: Op)
    requires WellFormed(s) && op.Evict?
    ensures WellFormed(Step(evicting, s, op).0)
  {
    hide IsFull;
  }

  lemma UseKeepsForm(evicting: bool, s: State, op: Op)
    requires WellFormed(s) && (op.Take? || op.GiveBack? || op.Look?)
    ensures WellFormed(Step(evicting, s, op).0)
  {
    hide Reserve, Cancel, Advance, WellFormed;
    ContentsDoNotMatter(s, Step(evicting, s, op).0);
  }

  lemma StepKeepsForm(evicting: bool, s: State, op: Op)
    requires WellFormed(s)
    ensures WellFormed(Step(evicting, s, op).0)
  {
    hide Step, WellFormed;
    match op
    case Acquire(_, _, _, _) => AcquireKeepsForm(evicting, s, op);
    case Release(_, _) => ReleaseKeepsForm(evicting, s, op);
    case Evict(_, _) => EvictKeepsForm(evicting, s, op);
    case _ => UseKeepsForm(evicting, s, op);
  }

  lemma {:induction false} RunKeepsForm(evicting: bool, ops: seq<Op>)
    ensures WellFormed(Run(evicting, ops))
  {
    if ops != [] {
      RunKeepsForm(evicting, ops[..|ops| - 1]);
      StepKeepsForm(evicting, Run(evicting, ops[..|ops| - 1]), ops[|ops| - 1]);
    }
  }

  /** Whatever is evicted when, and whatever parameters the calls come with, two live sessions of one
      group use the same limiters, and the cache still hands those out. */
  lemma {:induction false} GroupSharesLimiters(ops: seq<Op>, a: nat, b: nat)
    requires var s := Run(true, ops);
      a in s.sessions && b in s.sessions && s.sessions[a].key == s.sessions[b].key
    ensures var s := Run(true, ops);
      && s.sessions[a].item == s.sessions[b].item
      && s.sessions[a].key in s.cache && s.cache[s.sessions[a].key] == s.sessions[a].item
  {
    RunKeepsForm(true, ops);
  }

  // ---- What sessions get ----

  /** A new limiter has the configured rate and burst, but room for a chunk at least, and is full. */
  lemma FreshBucketIsFull(limit: Limit, burst: int)
    ensures var b := FreshBucket(limit, burst);
      && b.limit == limit && b.burst >= COPY_CHUNK_SIZE && b.burst >= burst
      && (b.burst == COPY_CHUNK_SIZE || b.burst == burst)
      && b.tokens == b.burst as real && b.last == 0 && b.lastEvent == 0
  {
  }

  /** A new item limits each direction by its own parameters, or both together by those for uploads. */
  lemma FreshItemLimits(p: Parameters, sid: nat)
    ensures var item := FreshItem(p, sid);
      && item.Of(true) == FreshBucket(p.upload, p.uploadBurst)
      && item.Of(false) == (if p.separate then FreshBucket(p.download, p.downloadBurst) else FreshBucket(p.upload, p.uploadBurst))
      && item.holders == {sid}
      && forall b :: item.With(true, b).Of(true) == b && item.With(false, b).Of(false) == b
                     && (item.With(true, b).Of(false) == b <==> !p.separate || item.Of(false) == b)
  {
  }

  ghost predicate RoomForChunks(s: State) {
    forall id <- s.items :: s.items[id].ul.burst >= COPY_CHUNK_SIZE && s.items[id].dl.burst >= COPY_CHUNK_SIZE
  }

  lemma StepKeepsRoom(evicting: bool, s: State, op: Op)
    requires RoomForChunks(s)
    ensures RoomForChunks(Step(evicting, s, op).0)
  {
    hide Advance, WaitFor, RestoreTokens, DurationFromTokens, IsFull;
    if op.Acquire? {
      FreshBucketIsFull(op.p.upload, op.p.uploadBurst);
      FreshBucketIsFull(op.p.download, op.p.downloadBurst);
    }
  }

  lemma {:induction false} RunKeepsRoom(evicting: bool, ops: seq<Op>)
    ensures RoomForChunks(Run(evicting, ops))
  {
    hide Step;
    if ops != [] {
      RunKeepsRoom(evicting, ops[..|ops| - 1]);
      StepKeepsRoom(evicting, Run(evicting, ops[..|ops| - 1]), ops[|ops| - 1]);
    }
  }

  /** After every run, a live session's request for a chunk or less is granted in full. */
  lemma {:induction false} ChunksAreGranted(evicting: bool, ops: seq<Op>, op: Op)
    requires op.Take? && op.n <= COPY_CHUNK_SIZE && op.sid in Run(evicting, ops).sessions
    ensures var (_, out) := Step(evicting, Run(evicting, ops), op);
      out.Took? && out.r.ok && out.r.tokens == op.n
  {
    RunKeepsForm(evicting, ops);
    RunKeepsRoom(evicting, ops);
    var s := Run(evicting, ops);
    WithinBurstIsGranted(s.items[s.sessions[op.sid].item].Of(op.up), op.t, op.n);
    hide Reserve;
  }

  /** The limiter a live session uses in a direction. */
  function LimiterOf(s: State, sid: nat, up: bool): Bucket
    requires WellFormed(s) && sid in s.sessions
  {
    s.items[s.sessions[sid].item].Of(up)
  }

  /** A session's operation is one on the limiter of its group and direction: it takes, gives back what
      that session took there last, or looks. */
  lemma OwnLimiterIsReached(evicting: bool, s: State, op: Op)
    requires WellFormed(s) && (op.Take? || op.GiveBack? || op.Look?) && op.sid in s.sessions
    ensures var (z, out) := Step(evicting, s, op);
      var (b, session) := (LimiterOf(s, op.sid, op.up), s.sessions[op.sid]);
      && WellFormed(z) && z.sessions.Keys == s.sessions.Keys
      && match op
         case Take(_, _, t, n) =>
           var (after, r) := Reserve(b, t, n, INF_DURATION);
           && out == Took(r) && LimiterOf(z, op.sid, op.up) == after
           && z.sessions[op.sid] == if r.ok then session.With(op.up, Last(r)) else session
         case GiveBack(_, _, t) =>
           && out == Nothing && z.sessions[op.sid] == session
           && LimiterOf(z, op.sid, op.up) == (match session.Of(op.up) case Never => b case Last(r) => Cancel(b, r, t))
         case _ => out == Saw(Advance(b, op.t)) && z == s
  {
    UseKeepsForm(evicting, s, op);
    hide Reserve, Cancel, Advance;
  }

  /** It is one on no other limiter: those of other groups stay, and so does the one for the other
      direction unless the two are one. The sessions of a group see it alike. */
  lemma OtherLimitersStay(evicting: bool, s: State, op: Op, other: nat, up: bool)
    requires WellFormed(s) && (op.Take? || op.GiveBack? || op.Look?) && op.sid in s.sessions && other in s.sessions
    ensures var z := Step(evicting, s, op).0;
      var session := s.sessions[op.sid];
      && WellFormed(z) && op.sid in z.sessions && other in z.sessions
      && (s.sessions[other].key != session.key ==> LimiterOf(z, other, up) == LimiterOf(s, other, up))
      && (up != op.up && !s.items[session.item].shared ==> LimiterOf(z, op.sid, up) == LimiterOf(s, op.sid, up))
      && (s.sessions[other].key == session.key ==> LimiterOf(z, other, op.up) == LimiterOf(z, op.sid, op.up))
      && (s.items[session.item].shared ==> LimiterOf(z, op.sid, up) == LimiterOf(z, op.sid, op.up))
  {
    UseKeepsForm(evicting, s, op);
    hide Reserve, Cancel, Advance;
  }

  /** What is remembered for one direction is found there again, and the other direction stays. */
  lemma SessionRemembers(s: Session, up: bool, taken: Taken)
    ensures s.With(up, taken).Of(up) == taken && s.With(up, taken).Of(!up) == s.Of(!up)
    ensures s.With(up, taken).key == s.key && s.With(up, taken).item == s.item
  {
  }

  /** A session acquires what its group has, or a new item if the cache has none for it; a released
      item loses that session as its holder and keeps its limiters. */
  lemma {:induction false} AcquireAndRelease(evicting: bool, s: State, op: Op)
    requires WellFormed(s)
    ensures op.Acquire? && op.sid !in s.sessions ==>
      var (z, out) := Step(evicting, s, op);
      && out == Nothing && WellFormed(z) && z.sessions.Keys == s.sessions.Keys + {op.sid} && z.sessions[op.sid].key == op.key
      && z.sessions[op.sid].up == z.sessions[op.sid].down == Never
      && var item := z.items[z.sessions[op.sid].item];
         if op.key in s.cache then item == s.items[s.cache[op.key]].(holders := s.items[s.cache[op.key]].holders + {op.sid})
         else item == FreshItem(op.p, op.sid)
    ensures op.Release? && op.sid in s.sessions ==>
      var (z, out) := Step(evicting, s, op);
      var id := s.sessions[op.sid].item;
      && out == Nothing && z.cache == s.cache && z.sessions == s.sessions - {op.sid}
      && z.items == s.items[id := s.items[id].(holders := s.items[id].holders - {op.sid})]
    ensures op.Evict? ==>
      var z := Step(evicting, s, op).0;
      && z.sessions == s.sessions
      && (z != s ==> z.cache == s.cache - {op.key} && op.key in s.cache && s.items[s.cache[op.key]].holders == {})
      && (z != s <==>
            && evicting && op.key in s.cache && s.items[s.cache[op.key]].holders == {}
            && forall up :: Advance(s.items[s.cache[op.key]].Of(up), op.t) >= s.items[s.cache[op.key]].Of(up).burst as real)
  {
    hide FreshItem, Advance;
    assert op.Evict? && op.key in s.cache ==> op.key !in s.cache - {op.key};
    AcquireWellFormed(evicting, s, op);
  }

  lemma AcquireWellFormed(evicting: bool, s: State, op: Op)
    requires WellFormed(s)
    ensures WellFormed(Step(evicting, s, op).0)
  {
    StepKeepsForm(evicting, s, op);
  }
}
