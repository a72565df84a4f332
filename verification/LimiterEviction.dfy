/** Dropping and recreating limiters is invisible to the sessions that use them. */
module LimiterEviction {
  import opened Rate
  import opened LimiterCache

  // ---- Buckets that answer alike ----

  /** Equal, or both full by `now` with the same parameters. */
  ghost predicate Twin(x: Bucket, y: Bucket, now: int) {
    x == y ||
    (&& x.limit.PerSecond? && x.limit == y.limit && x.burst == y.burst
     && x.last <= now && y.last <= now && IsFull(x, now) && IsFull(y, now))
  }

  lemma FullStaysFull(b: Bucket, now: int, t: int)
    requires b.last <= now <= t && IsFull(b, now)
    ensures IsFull(b, t) && Advance(b, t) == b.burst as real
  {
  }

  lemma TwinLater(x: Bucket, y: Bucket, now: int, t: int)
    requires Twin(x, y, now) && now <= t
    ensures Twin(x, y, t) && Advance(x, t) == Advance(y, t)
  {
    if x != y {
      FullStaysFull(x, now, t);
      FullStaysFull(y, now, t);
    }
  }

  lemma TwinReserve(x: Bucket, y: Bucket, now: int, t: int, n: int)
    requires Twin(x, y, now) && (now <= t || x == y)
    ensures var ((x', r), (y', q)) := (Reserve(x, t, n, INF_DURATION), Reserve(y, t, n, INF_DURATION));
      r == q && (r.ok ==> x' == y') && Twin(x', y', Max(now, t))
  {
    hide Advance, WaitFor;
    if now <= t {
      TwinLater(x, y, now, t);
    }
  }

  // ---- The relation between the two caches ----

  /** A bucket with the group's parameters, untouched if its rate is infinite. */
  ghost predicate Fits(b: Bucket, limit: Limit, burst: int, now: int) {
    && b.limit == limit && b.burst == FreshBucket(limit, burst).burst && b.last <= now
    && (limit == Inf ==> b == FreshBucket(limit, burst))
  }

  ghost predicate Shaped(p: Parameters, item: Item, now: int) {
    && item.shared == !p.separate
    && Fits(item.Of(true), p.upload, p.uploadBurst, now)
    && (p.separate ==> Fits(item.Of(false), p.download, p.downloadBurst, now))
  }

  const NO_ITEM: Item := Item(Bucket(Inf, 0, 0.0, 0, 0), Bucket(Inf, 0, 0.0, 0, 0), true, {})

  /** The item of a group, if the cache has one. */
  function ItemOf(s: State, k: string): Item {
    if k in s.cache && s.cache[k] in s.items then s.items[s.cache[k]] else NO_ITEM
  }

  /** The same group's limiters in both caches. */
  ghost predicate Kept(p: Parameters, x: Item, y: Item, now: int) {
    && Shaped(p, x, now) && Shaped(p, y, now)
    && Twin(x.Of(true), y.Of(true), now) && Twin(x.Of(false), y.Of(false), now)
  }

  /** Limiters only the cache that does not evict still has. */
  ghost predicate Dropped(p: Parameters, y: Item, now: int) {
    Shaped(p, y, now) && IsFull(y.Of(true), now) && IsFull(y.Of(false), now)
  }

  /** One session in both worlds; a limiter it has taken from is the same in both. */
  ghost predicate Agree(s: Session, z: Session, x: Item, y: Item) {
    && s.key == z.key && s.up == z.up && s.down == z.down
    && (s.up != Never ==> x.Of(true) == y.Of(true))
    && (s.down != Never ==> x.Of(false) == y.Of(false))
  }

  /** `r` evicts, `i` does not. What `r` has dropped is full in `i`. */
  ghost predicate Related(params: string -> Parameters, r: State, i: State, now: int) {
    && now >= 0 && WellFormed(r) && WellFormed(i)
    && r.sessions.Keys == i.sessions.Keys
    && r.cache.Keys <= i.cache.Keys
    && (forall k <- i.cache :: GroupRelated(params(k), k in r.cache, ItemOf(r, k), ItemOf(i, k), now))
    && (forall sid <- r.sessions :: AgreeOn(r, i, sid))
  }

  ghost predicate GroupRelated(p: Parameters, cached: bool, x: Item, y: Item, now: int) {
    if cached then Kept(p, x, y, now) else Dropped(p, y, now)
  }

  ghost predicate AgreeOn(r: State, i: State, sid: nat) {
    && sid in r.sessions && sid in i.sessions
    && Agree(r.sessions[sid], i.sessions[sid], ItemOf(r, r.sessions[sid].key), ItemOf(i, r.sessions[sid].key))
  }

  lemma RelatedLater(params: string -> Parameters, r: State, i: State, now: int, t: int)
    requires Related(params, r, i, now) && now <= t
    ensures Related(params, r, i, t)
  {
    hide AgreeOn, WellFormed, GroupRelated;
    forall k <- i.cache ensures GroupRelated(params(k), k in r.cache, ItemOf(r, k), ItemOf(i, k), t) {
      GroupLater(params(k), k in r.cache, ItemOf(r, k), ItemOf(i, k), now, t);
    }
  }

  lemma GroupLater(p: Parameters, cached: bool, x: Item, y: Item, now: int, t: int)
    requires GroupRelated(p, cached, x, y, now) && now <= t
    ensures GroupRelated(p, cached, x, y, t)
  {
    hide Advance;
    if cached {
      TwinLater(x.Of(true), y.Of(true), now, t);
      TwinLater(x.Of(false), y.Of(false), now, t);
    } else {
      FullStaysFull(y.Of(true), now, t);
      FullStaysFull(y.Of(false), now, t);
    }
  }

  /** A session's pointer leads to what the cache has for its group. */
  lemma HeldIsCached(s: State, sid: nat)
    requires WellFormed(s) && sid in s.sessions
    ensures s.sessions[sid].key in s.cache && s.sessions[sid].item in s.items
    ensures s.items[s.sessions[sid].item] == ItemOf(s, s.sessions[sid].key)
  {
  }

  ghost predicate StepsAlike(params: string -> Parameters, r: State, i: State, now: int, op: Op) {
    var ((r', seen), (i', expected)) := (Step(true, r, op), Step(false, i, op));
    seen == expected && Related(params, r', i', Max(now, op.t))
  }

  /** How the relation is established after a step. */
  lemma RelatedAfter(params: string -> Parameters, r: State, i: State, now: int, op: Op)
    requires WellFormed(r) && WellFormed(i)
    requires var (r', i') := (Step(true, r, op).0, Step(false, i, op).0);
      && now >= 0 && r'.sessions.Keys == i'.sessions.Keys && r'.cache.Keys <= i'.cache.Keys
      && (forall k <- i'.cache :: GroupRelated(params(k), k in r'.cache, ItemOf(r', k), ItemOf(i', k), now))
      && (forall sid <- r'.sessions :: AgreeOn(r', i', sid))
    ensures Related(params, Step(true, r, op).0, Step(false, i, op).0, now)
  {
    hide WellFormed, GroupRelated, AgreeOn, Step, ItemOf;
    StepKeepsForm(true, r, op);
    StepKeepsForm(false, i, op);
  }

  // ---- Taking, giving back and looking ----

  /** The state with the bucket that session `sid` points to replaced. */
  function Updated(s: State, sid: nat, up: bool, b: Bucket): State
    requires sid in s.sessions && s.sessions[sid].item in s.items
  {
    var id := s.sessions[sid].item;
    s.(items := s.items[id := s.items[id].With(up, b)])
  }

  lemma UpdatedItem(s: State, sid: nat, up: bool, b: Bucket, k: string)
    requires WellFormed(s) && sid in s.sessions
    ensures s.sessions[sid].item in s.items && ItemOf(Updated(s, sid, up, b), k)
      == if k == s.sessions[sid].key then ItemOf(s, k).With(up, b) else ItemOf(s, k)
  {
  }

  lemma UpdatedForm(s: State, sid: nat, up: bool, b: Bucket)
    requires WellFormed(s) && sid in s.sessions
    ensures s.sessions[sid].item in s.items && WellFormed(Updated(s, sid, up, b))
  {
  }

  /** An update that keeps the parameters, and leaves an untouchable bucket alone. */
  ghost predicate Keeps(before: Bucket, after: Bucket, now: int) {
    && after.limit == before.limit && after.burst == before.burst && after.last <= now
    && (before.limit == Inf ==> after == before)
  }

  lemma KeptUpdated(p: Parameters, x: Item, y: Item, now: int, up: bool, b: Bucket, c: Bucket)
    requires Kept(p, x, y, now) && Keeps(x.Of(up), b, now) && Keeps(y.Of(up), c, now)
    requires b == c || (b == x.Of(up) && c == y.Of(up))
    ensures Kept(p, x.With(up, b), y.With(up, c), now)
  {
  }

  lemma AgreeUpdated(s: Session, z: Session, x: Item, y: Item, up: bool, b: Bucket, c: Bucket)
    requires Agree(s, z, x, y) && x.shared == y.shared
    requires b == c || (b == x.Of(up) && c == y.Of(up))
    ensures Agree(s, z, x.With(up, b), y.With(up, c))
  {
  }

  /** What the relation says about the group of a session. */
  lemma GroupOf(params: string -> Parameters, r: State, i: State, now: int, sid: nat)
    requires Related(params, r, i, now) && sid in r.sessions
    ensures sid in i.sessions && r.sessions[sid].key == i.sessions[sid].key
    ensures var k := r.sessions[sid].key;
      && k in r.cache && k in i.cache && Kept(params(k), ItemOf(r, k), ItemOf(i, k), now)
      && Agree(r.sessions[sid], i.sessions[sid], ItemOf(r, k), ItemOf(i, k))
  {
  }

  /** Replacing the bucket a session points to, in both caches, by equal buckets or leaving both. */
  lemma BothUpdated(params: string -> Parameters, r: State, i: State, now: int, sid: nat, up: bool, b: Bucket, c: Bucket)
    requires Related(params, r, i, now) && sid in r.sessions
    requires var (x, y) := (ItemOf(r, r.sessions[sid].key), ItemOf(i, r.sessions[sid].key));
      && (b == c || (b == x.Of(up) && c == y.Of(up)))
      && Keeps(x.Of(up), b, now) && Keeps(y.Of(up), c, now)
    ensures sid in i.sessions && r.sessions[sid].item in r.items && i.sessions[sid].item in i.items
    ensures Related(params, Updated(r, sid, up, b), Updated(i, sid, up, c), now)
  {
    hide Kept, Keeps, Agree, WellFormed, ItemOf;
    GroupOf(params, r, i, now, sid);
    UpdatedForm(r, sid, up, b);
    UpdatedForm(i, sid, up, c);
    var (r', i') := (Updated(r, sid, up, b), Updated(i, sid, up, c));
    var key := r.sessions[sid].key;
    forall k <- i'.cache ensures GroupRelated(params(k), k in r'.cache, ItemOf(r', k), ItemOf(i', k), now) {
      UpdatedItem(r, sid, up, b, k);
      UpdatedItem(i, sid, up, c, k);
      if k == key {
        KeptUpdated(params(k), ItemOf(r, k), ItemOf(i, k), now, up, b, c);
      }
    }
    forall other <- r'.sessions ensures AgreeOn(r', i', other) {
      GroupOf(params, r, i, now, other);
      UpdatedItem(r, sid, up, b, r.sessions[other].key);
      UpdatedItem(i, sid, up, c, r.sessions[other].key);
      if r.sessions[other].key == key {
        SharedAlike(params(key), ItemOf(r, key), ItemOf(i, key), now);
        AgreeUpdated(r.sessions[other], i.sessions[other], ItemOf(r, key), ItemOf(i, key), up, b, c);
      }
    }
  }

  lemma SharedAlike(p: Parameters, x: Item, y: Item, now: int)
    requires Kept(p, x, y, now)
    ensures x.shared == y.shared
  {
  }

  /** What two related groups say about one of their buckets. */
  lemma BucketsAlike(p: Parameters, s: Session, z: Session, x: Item, y: Item, now: int, up: bool)
    requires Kept(p, x, y, now) && Agree(s, z, x, y)
    ensures Twin(x.Of(up), y.Of(up), now) && x.Of(up).last <= now && y.Of(up).last <= now
    ensures s.Of(up) == z.Of(up) && (s.Of(up) != Never ==> x.Of(up) == y.Of(up))
  {
  }

  /** A session that has just taken from equal buckets may remember it. */
  function Remember(s: State, sid: nat, up: bool, taken: Reservation): State
    requires sid in s.sessions
  {
    s.(sessions := s.sessions[sid := s.sessions[sid].With(up, Last(taken))])
  }

  lemma RememberedForm(s: State, sid: nat, up: bool, taken: Reservation)
    requires WellFormed(s) && sid in s.sessions
    ensures WellFormed(Remember(s, sid, up, taken))
  {
  }

  lemma AgreeRemembered(s: Session, z: Session, x: Item, y: Item, up: bool, taken: Reservation)
    requires Agree(s, z, x, y) && x.Of(up) == y.Of(up)
    ensures Agree(s.With(up, Last(taken)), z.With(up, Last(taken)), x, y)
  {
  }

  lemma BothRemember(params: string -> Parameters, r: State, i: State, now: int, sid: nat, up: bool, taken: Reservation)
    requires Related(params, r, i, now) && sid in r.sessions
    requires ItemOf(r, r.sessions[sid].key).Of(up) == ItemOf(i, r.sessions[sid].key).Of(up)
    ensures sid in i.sessions && Related(params, Remember(r, sid, up, taken), Remember(i, sid, up, taken), now)
  {
    hide Kept, Dropped, Agree, WellFormed;
    GroupOf(params, r, i, now, sid);
    RememberedForm(r, sid, up, taken);
    RememberedForm(i, sid, up, taken);
    var (r', i') := (Remember(r, sid, up, taken), Remember(i, sid, up, taken));
    forall other <- r'.sessions ensures AgreeOn(r', i', other) {
      GroupOf(params, r, i, now, other);
      if other == sid {
        var k := r.sessions[sid].key;
        AgreeRemembered(r.sessions[sid], i.sessions[sid], ItemOf(r, k), ItemOf(i, k), up, taken);
      }
    }
  }

  lemma TakeAlike(params: string -> Parameters, r: State, i: State, now: int, op: Op)
    requires Related(params, r, i, now) && op.Take? && OnTime(r, now, op)
    ensures StepsAlike(params, r, i, now, op)
  {
    hide Advance, WaitFor, Twin, Related, Kept, Agree, WellFormed, ItemOf;
    var Take(sid, up, t, n) := op;
    var later := Max(now, t);
    RelatedLater(params, r, i, now, later);
    RelatedForms(params, r, i, now);
    if sid in r.sessions {
      GroupOf(params, r, i, now, sid);
      HeldIsCached(r, sid);
      HeldIsCached(i, sid);
      var k := r.sessions[sid].key;
      BucketsAlike(params(k), r.sessions[sid], i.sessions[sid], ItemOf(r, k), ItemOf(i, k), now, up);
      var (a, b) := (ItemOf(r, k).Of(up), ItemOf(i, k).Of(up));
      var ((x, taken), (y, _)) := (Reserve(a, t, n, INF_DURATION), Reserve(b, t, n, INF_DURATION));
      TwinReserve(a, b, now, t, n);
      BothUpdated(params, r, i, later, sid, up, x, y);
      if taken.ok {
        UpdatedItem(r, sid, up, x, k);
        UpdatedItem(i, sid, up, y, k);
        BothRemember(params, Updated(r, sid, up, x), Updated(i, sid, up, y), later, sid, up, taken);
      }
    }
  }

  lemma RelatedForms(params: string -> Parameters, r: State, i: State, now: int)
    requires Related(params, r, i, now)
    ensures now >= 0 && WellFormed(r) && WellFormed(i) && r.sessions.Keys == i.sessions.Keys
  {
  }

  lemma GiveBackAlike(params: string -> Parameters, r: State, i: State, now: int, op: Op)
    requires Related(params, r, i, now) && op.GiveBack?
    ensures StepsAlike(params, r, i, now, op)
  {
    hide Advance, RestoreTokens, Twin, Related, Kept, Agree, WellFormed, ItemOf;
    var GiveBack(sid, up, t) := op;
    RelatedLater(params, r, i, now, Max(now, t));
    RelatedForms(params, r, i, now);
    if sid in r.sessions {
      GroupOf(params, r, i, now, sid);
      HeldIsCached(r, sid);
      HeldIsCached(i, sid);
      var k := r.sessions[sid].key;
      BucketsAlike(params(k), r.sessions[sid], i.sessions[sid], ItemOf(r, k), ItemOf(i, k), now, up);
      if r.sessions[sid].Of(up) != Never {
        var b := Cancel(ItemOf(r, k).Of(up), r.sessions[sid].Of(up).r, t);
        BothUpdated(params, r, i, Max(now, t), sid, up, b, b);
      }
    }
  }

  lemma LookAlike(params: string -> Parameters, r: State, i: State, now: int, op: Op)
    requires Related(params, r, i, now) && op.Look? && OnTime(r, now, op)
    ensures StepsAlike(params, r, i, now, op)
  {
    hide Advance, Twin, Related, Kept, Agree, WellFormed, ItemOf;
    var Look(sid, up, t) := op;
    RelatedLater(params, r, i, now, Max(now, t));
    RelatedForms(params, r, i, now);
    if sid in r.sessions {
      GroupOf(params, r, i, now, sid);
      HeldIsCached(r, sid);
      HeldIsCached(i, sid);
      var k := r.sessions[sid].key;
      BucketsAlike(params(k), r.sessions[sid], i.sessions[sid], ItemOf(r, k), ItemOf(i, k), now, up);
      if now <= t {
        TwinLater(ItemOf(r, k).Of(up), ItemOf(i, k).Of(up), now, t);
      }
    }
  }

  // ---- Eviction, release and acquisition ----

  lemma EvictAlike(params: string -> Parameters, r: State, i: State, now: int, op: Op)
    requires Related(params, r, i, now) && op.Evict? && OnTime(r, now, op)
    ensures StepsAlike(params, r, i, now, op)
  {
    hide Kept, Dropped, Agree, WellFormed, Droppable;
    RelatedLater(params, r, i, now, op.t);
    var r' := Step(true, r, op).0;
    if r' != r {
      forall k <- i.cache ensures GroupRelated(params(k), k in r'.cache, ItemOf(r', k), ItemOf(i, k), op.t) {
        EvictedItem(r, op, k);
        if k == op.key {
          DroppedWhenFull(params(k), ItemOf(r, k), ItemOf(i, k), op.t);
        }
      }
      forall sid <- r'.sessions ensures AgreeOn(r', i, sid) {
        assert AgreeOn(r, i, sid);
        EvictedItem(r, op, r.sessions[sid].key);
        StillHeld(r, op, sid);
      }
      RelatedAfter(params, r, i, op.t, op);
    }
  }

  lemma EvictedItem(s: State, op: Op, k: string)
    requires WellFormed(s) && op.Evict? && Step(true, s, op).0 != s
    ensures var s' := Step(true, s, op).0;
      && op.key in s.cache && s'.cache.Keys == s.cache.Keys - {op.key} && Droppable(ItemOf(s, op.key), op.t)
      && (k != op.key ==> ItemOf(s', k) == ItemOf(s, k))
  {
  }

  /** An evicted group has no session. */
  lemma StillHeld(s: State, op: Op, sid: nat)
    requires WellFormed(s) && op.Evict? && Step(true, s, op).0 != s && sid in s.sessions
    ensures s.sessions[sid].key != op.key
  {
  }

  lemma DroppedWhenFull(p: Parameters, x: Item, y: Item, t: int)
    requires Kept(p, x, y, t) && Droppable(x, t)
    ensures Dropped(p, y, t)
  {
  }

  lemma HoldersDoNotMatter(p: Parameters, cached: bool, x: Item, y: Item, now: int, f: set<nat>, g: set<nat>)
    ensures GroupRelated(p, cached, x, y, now) ==> GroupRelated(p, cached, x.(holders := f), y.(holders := g), now)
  {
  }

  lemma AgreementIgnoresHolders(s: Session, z: Session, x: Item, y: Item, f: set<nat>, g: set<nat>)
    requires Agree(s, z, x, y)
    ensures Agree(s, z, x.(holders := f), y.(holders := g))
  {
  }

  lemma ReleasedItem(evicting: bool, s: State, op: Op, k: string)
    requires WellFormed(s) && op.Release?
    ensures var s' := Step(evicting, s, op).0;
      s'.cache == s.cache && ItemOf(s', k) == ItemOf(s, k).(holders := ItemOf(s', k).holders)
      && s'.sessions == s.sessions - {op.sid}
  {
  }

  lemma ReleaseAlike(params: string -> Parameters, r: State, i: State, now: int, op: Op)
    requires Related(params, r, i, now) && op.Release?
    ensures StepsAlike(params, r, i, now, op)
  {
    hide Agree, WellFormed, ItemOf, GroupRelated;
    var later := Max(now, op.t);
    RelatedLater(params, r, i, now, later);
    var (r', i') := (Step(true, r, op).0, Step(false, i, op).0);
    ReleasedItem(true, r, op, "");
    ReleasedItem(false, i, op, "");
    forall k <- i'.cache ensures GroupRelated(params(k), k in r'.cache, ItemOf(r', k), ItemOf(i', k), later) {
      ReleasedItem(true, r, op, k);
      ReleasedItem(false, i, op, k);
      HoldersDoNotMatter(params(k), k in r.cache, ItemOf(r, k), ItemOf(i, k), later, ItemOf(r', k).holders, ItemOf(i', k).holders);
    }
    forall sid <- r'.sessions ensures AgreeOn(r', i', sid) {
      assert AgreeOn(r, i, sid);
      var k := r.sessions[sid].key;
      ReleasedItem(true, r, op, k);
      ReleasedItem(false, i, op, k);
      AgreementIgnoresHolders(r.sessions[sid], i.sessions[sid], ItemOf(r, k), ItemOf(i, k), ItemOf(r', k).holders, ItemOf(i', k).holders);
    }
    RelatedAfter(params, r, i, later, op);
  }

  lemma AcquiredItem(evicting: bool, s: State, op: Op, k: string)
    requires WellFormed(s) && op.Acquire? && op.sid !in s.sessions
    ensures var s' := Step(evicting, s, op).0;
      && s'.cache.Keys == s.cache.Keys + {op.key}
      && s'.sessions.Keys == s.sessions.Keys + {op.sid}
      && (forall sid <- s.sessions :: s'.sessions[sid] == s.sessions[sid])
      && s'.sessions[op.sid] == Session(op.key, s'.sessions[op.sid].item, Never, Never)
      && (k in s.cache ==> ItemOf(s', k) == ItemOf(s, k).(holders := ItemOf(s', k).holders))
      && (k == op.key && k !in s.cache ==> ItemOf(s', k) == FreshItem(op.p, op.sid))
  {
    hide FreshItem;
  }

  lemma AcquireAlike(params: string -> Parameters, r: State, i: State, now: int, op: Op)
    requires Related(params, r, i, now) && op.Acquire? && OnTime(r, now, op) && op.p == params(op.key)
    ensures StepsAlike(params, r, i, now, op)
  {
    hide Kept, Dropped, Agree, FreshItem, WellFormed, ItemOf;
    RelatedLater(params, r, i, now, op.t);
    if op.sid !in r.sessions {
      AcquiredItem(true, r, op, "");
      AcquiredItem(false, i, op, "");
      var (r', i') := (Step(true, r, op).0, Step(false, i, op).0);
      forall k <- i'.cache ensures GroupRelated(params(k), k in r'.cache, ItemOf(r', k), ItemOf(i', k), op.t) {
        AcquiredItem(true, r, op, k);
        AcquiredItem(false, i, op, k);
        AcquiredGroup(params(k), op, k in r.cache, k in i.cache, k == op.key,
                      ItemOf(r, k), ItemOf(i, k), ItemOf(r', k), ItemOf(i', k));
      }
      forall other <- r'.sessions ensures AgreeOn(r', i', other) {
        AcquiredAgrees(params, r, i, op, other);
      }
      RelatedAfter(params, r, i, op.t, op);
    }
  }

  lemma AcquiredGroup(p: Parameters, op: Op, cached: bool, known: bool, wanted: bool, x: Item, y: Item, x': Item, y': Item)
    requires op.Acquire? && op.t >= 0 && (cached ==> known) && (known || wanted)
    requires known ==> GroupRelated(p, cached, x, y, op.t)
    requires cached ==> x' == x.(holders := x'.holders)
    requires known ==> y' == y.(holders := y'.holders)
    requires wanted && !cached ==> x' == FreshItem(p, op.sid)
    requires wanted && !known ==> y' == FreshItem(p, op.sid)
    ensures GroupRelated(p, cached || wanted, x', y', op.t)
  {
  }

  lemma AcquiredAgrees(params: string -> Parameters, r: State, i: State, op: Op, other: nat)
    requires Related(params, r, i, op.t) && op.Acquire? && op.sid !in r.sessions
    requires other in Step(true, r, op).0.sessions
    ensures AgreeOn(Step(true, r, op).0, Step(false, i, op).0, other)
  {
    hide Kept, Dropped, Agree, FreshItem, WellFormed, ItemOf;
    AcquiredItem(true, r, op, "");
    AcquiredItem(false, i, op, "");
    var (r', i') := (Step(true, r, op).0, Step(false, i, op).0);
    if other in r.sessions {
      GroupOf(params, r, i, op.t, other);
      var k := r.sessions[other].key;
      AcquiredItem(true, r, op, k);
      AcquiredItem(false, i, op, k);
      AgreementIgnoresHolders(r.sessions[other], i.sessions[other], ItemOf(r, k), ItemOf(i, k), ItemOf(r', k).holders, ItemOf(i', k).holders);
    } else {
      NewcomersAgree(r'.sessions[other], i'.sessions[other], ItemOf(r', op.key), ItemOf(i', op.key));
    }
  }

  lemma NewcomersAgree(s: Session, z: Session, x: Item, y: Item)
    requires s.key == z.key && s.up == z.up == s.down == z.down == Never
    ensures Agree(s, z, x, y)
  {
  }

  /** A new item is a twin of one that was dropped because it was full. */
  lemma FreshStandsForDropped(p: Parameters, sid: nat, y: Item, t: int, holders: set<nat>)
    requires t >= 0 && Dropped(p, y, t)
    ensures Kept(p, FreshItem(p, sid), y.(holders := holders), t)
  {
  }

  lemma StepAlike(params: string -> Parameters, r: State, i: State, now: int, op: Op)
    requires Related(params, r, i, now) && OnTime(r, now, op) && (op.Acquire? ==> op.p == params(op.key))
    ensures StepsAlike(params, r, i, now, op)
  {
    hide StepsAlike, Related, OnTime;
    match op
    case Acquire(_, _, _, _) => AcquireAlike(params, r, i, now, op);
    case Release(_, _) => ReleaseAlike(params, r, i, now, op);
    case Take(_, _, _, _) => TakeAlike(params, r, i, now, op);
    case GiveBack(_, _, _) => GiveBackAlike(params, r, i, now, op);
    case Look(_, _, _) => LookAlike(params, r, i, now, op);
    case Evict(_, _) => EvictAlike(params, r, i, now, op);
  }

  /** In every run with fixed parameters for each group, a cache that drops unheld, full limiters
      at any moments answers every call exactly as one that never drops anything. */
  lemma {:induction false} EvictionIsInvisible(params: string -> Parameters, ops: seq<Op>)
    requires Clocked(ops) && forall k :: 0 <= k < |ops| && ops[k].Acquire? ==> ops[k].p == params(ops[k].key)
    ensures Related(params, Run(true, ops), Run(false, ops), Now(ops))
    ensures Outputs(true, ops) == Outputs(false, ops)
  {
    if ops != [] {
      var (earlier, op) := (ops[..|ops| - 1], ops[|ops| - 1]);
      EvictionIsInvisible(params, earlier);
      StepAlike(params, Run(true, earlier), Run(false, earlier), Now(earlier), op);
    }
  }
}
