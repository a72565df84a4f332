/**
 The dialer that remembers name lookups, as a state machine over a cache and a group that
 coalesces lookups: one step for each look into the cache, each entry into the group, each answer
 of the resolver, each store, each end of a coalesced call, and each wake-up.
 */
module NameCache {
  import opened Text
  import opened Wrappers

  // ---- Keys ----

  datatype Family = IP | IP4 | IP6

  datatype Key = Key(family: Family, host: string)

  function FamilyOf(network: string): Option<Family> {
    if network == "udp4" || network == "tcp4" || network == "ip4" then Some(IP4)
    else if network == "udp6" || network == "tcp6" || network == "ip6" then Some(IP6)
    else if network == "udp" || network == "tcp" || network == "ip" then Some(IP)
    else None
  }

  function FamilyName(f: Family): string {
    match f
    case IP => "ip"
    case IP4 => "ip4"
    case IP6 => "ip6"
  }

  /** The key of a request, if its network is supported. */
  function KeyOf(network: string, host: string): Option<Key> {
    match FamilyOf(network)
    case None => None
    case Some(f) => Some(Key(f, Lower(host)))
  }

  /** The name under which the group coalesces lookups. */
  function FlightName(k: Key): string {
    FamilyName(k.family) + ":" + k.host
  }

  /** Lookups are coalesced only if they ask for the same family and host. */
  lemma FlightNameIsInjective(k: Key, l: Key)
    ensures FlightName(k) == FlightName(l) <==> k == l
  {
    var (n, m) := (FamilyName(k.family), FamilyName(l.family));
    if FlightName(k) == FlightName(l) {
      assert FlightName(k)[2] == FlightName(l)[2];
      assert n == m;
      assert FlightName(k)[|n| + 1..] == k.host && FlightName(l)[|n| + 1..] == l.host;
    }
  }

  // ---- Addresses ----

  /** An IPv4 address, an IPv6 address, or the IPv6 form of an IPv4 address. */
  datatype Addr = V4(bits: nat) | V6(bits: nat) | Mapped(bits: nat)

  function Unmap(a: Addr): Addr {
    if a.Mapped? then V4(a.bits) else a
  }

  /** Unmapping changes the form of an address, not the host it stands for. */
  lemma UnmapKeepsHost(a: Addr)
    ensures !Unmap(a).Mapped? && Unmap(a).bits == a.bits
    ensures Unmap(a).V6? <==> a.V6?
  {
  }

  function Unmapped(addrs: seq<Addr>): seq<Addr> {
    seq(|addrs|, i requires 0 <= i < |addrs| => Unmap(addrs[i]))
  }

  method UnmapAll(res: array<Addr>)
    modifies res
    ensures res[..] == Unmapped(old(res[..]))
  {
    for i := 0 to res.Length
      invariant forall j :: 0 <= j < res.Length ==> res[j] == if j < i then Unmap(old(res[j])) else old(res[j])
    {
      res[i] := Unmap(res[i]);
    }
  }

  // ---- Lookups and calls ----

  datatype Answer = Found(addrs: seq<Addr>) | NotFound(error: int)

  datatype Settings = Settings(posTTL: int, negTTL: int)
  {
    function TTL(a: Answer): int {
      if a.Found? then posTTL else negTTL
    }
  }

  /** A coalesced lookup. It makes one cache item, which has the lookup's answer and expires at
      `expires`; what came of it is `Answered` before it is `Stored` and `Finished`. */
  datatype Stage = Resolving | Answered | Stored | Finished(at: int)

  datatype Flight = Flight(key: Key, stage: Stage, answer: Answer, answeredAt: int, expires: int)

  /** `Hit` is an item found in the cache at that time, `Shared` the item of a lookup waited for. */
  datatype Source = Hit(at: int) | Shared

  datatype Progress = Arrived | Missed | Waiting(flight: nat) | Has(flight: nat, source: Source)

  datatype Call = Call(network: string, host: string, key: Key, since: int, progress: Progress)

  /** Items are named by the lookup that made them; `group` names the lookups under way. */
  datatype State = State(clock: int, cache: map<Key, nat>, group: map<string, nat>, flights: seq<Flight>, calls: seq<Call>)

  datatype Step =
    | Arrive(network: string, host: string)
    | Look(c: nat)
    | Enter(c: nat)
    | Resolve(f: nat, answer: Answer)
    | Store(f: nat)
    | Finish(f: nat)
    | Wake(c: nat)
    | Evict(key: Key)

  const START: State := State(0, map[], map[], [], [])

  predicate Fresh(s: State, key: Key, t: int) {
    key in s.cache && s.cache[key] < |s.flights| && t < s.flights[s.cache[key]].expires
  }

  predicate Enabled(s: State, step: Step) {
    match step
    case Arrive(_, _) => true
    case Look(c) => c < |s.calls| && s.calls[c].progress == Arrived
    case Enter(c) => c < |s.calls| && s.calls[c].progress == Missed
    case Resolve(f, _) => f < |s.flights| && s.flights[f].stage == Resolving
    case Store(f) => f < |s.flights| && s.flights[f].stage == Answered
    case Finish(f) => f < |s.flights| && s.flights[f].stage == Stored
    case Wake(c) =>
      && c < |s.calls| && s.calls[c].progress.Waiting?
      && s.calls[c].progress.flight < |s.flights| && s.flights[s.calls[c].progress.flight].stage.Finished?
    case Evict(_) => true
  }

  function Moved(s: State, c: nat, progress: Progress): State
    requires c < |s.calls|
  {
    s.(calls := s.calls[c := s.calls[c].(progress := progress)])
  }

  /** A step at time `t`, which may be any time from the last step's on. A request for an
      unsupported network is refused at once. */
  function Apply(ttl: Settings, s0: State, step: Step, t: int): State
    requires Enabled(s0, step)
  {
    var s := s0.(clock := t);
    match step
    case Arrive(network, host) =>
      (match KeyOf(network, host)
       case None => s
       case Some(key) => s.(calls := s.calls + [Call(network, host, key, t, Arrived)]))
    case Look(c) =>
      var key := s.calls[c].key;
      if Fresh(s, key, t) then Moved(s, c, Has(s.cache[key], Hit(t)))
      else Moved(s.(cache := s.cache - {key}), c, Missed)
    case Enter(c) =>
      var name := FlightName(s.calls[c].key);
      if name in s.group then Moved(s, c, Waiting(s.group[name]))
      else
        Moved(s.(group := s.group[name := |s.flights|],
                 flights := s.flights + [Flight(s.calls[c].key, Resolving, Found([]), 0, 0)]), c, Waiting(|s.flights|))
    case Resolve(f, answer) =>
      var kept := if answer.Found? then Found(Unmapped(answer.addrs)) else answer;
      s.(flights := s.flights[f := Flight(s.flights[f].key, Answered, kept, t, t + ttl.TTL(answer))])
    case Store(f) =>
      s.(cache := s.cache[s.flights[f].key := f], flights := s.flights[f := s.flights[f].(stage := Stored)])
    case Finish(f) =>
      s.(group := s.group - {FlightName(s.flights[f].key)}, flights := s.flights[f := s.flights[f].(stage := Finished(t))])
    case Wake(c) => Moved(s, c, Has(s.calls[c].progress.flight, Shared))
    case Evict(key) => if Fresh(s, key, t) then s else s.(cache := s.cache - {key})
  }

  ghost predicate IsRun(ttl: Settings, trace: seq<State>, steps: seq<Step>, times: seq<int>) {
    && |trace| == |steps| + 1 == |times| + 1 && trace[0] == START
    && forall i :: 0 <= i < |steps| ==>
        Enabled(trace[i], steps[i]) && trace[i].clock <= times[i] && trace[i + 1] == Apply(ttl, trace[i], steps[i], times[i])
  }

  // ---- What every reachable state keeps ----

  predicate UnderWay(f: Flight) {
    !f.stage.Finished?
  }

  predicate IsUnmapped(a: Answer) {
    a.Found? ==> forall i :: 0 <= i < |a.addrs| ==> !a.addrs[i].Mapped?
  }

  ghost predicate FlightFits(ttl: Settings, s: State, f: nat)
    requires f < |s.flights|
  {
    var flight := s.flights[f];
    && (UnderWay(flight) ==> FlightName(flight.key) in s.group && s.group[FlightName(flight.key)] == f)
    && (flight.stage != Resolving ==>
          && flight.answeredAt <= s.clock && flight.expires == flight.answeredAt + ttl.TTL(flight.answer)
          && IsUnmapped(flight.answer))
    && (flight.stage.Finished? ==> flight.stage.at <= s.clock)
  }

  ghost predicate GroupFits(s: State) {
    forall name <- s.group ::
      && s.group[name] < |s.flights| && UnderWay(s.flights[s.group[name]])
      && FlightName(s.flights[s.group[name]].key) == name
  }

  ghost predicate CacheFits(s: State) {
    forall key <- s.cache ::
      && s.cache[key] < |s.flights| && s.flights[s.cache[key]].key == key
      && s.flights[s.cache[key]].stage != Resolving
  }

  ghost predicate CallFits(s: State, call: Call) {
    && call.since <= s.clock && KeyOf(call.network, call.host) == Some(call.key)
    && match call.progress
       case Waiting(f) =>
         && f < |s.flights| && s.flights[f].key == call.key
         && (s.flights[f].stage.Finished? ==> call.since <= s.flights[f].stage.at)
       case Has(f, Hit(at)) =>
         && f < |s.flights| && s.flights[f].key == call.key && s.flights[f].stage != Resolving
         && call.since <= at <= s.clock && s.flights[f].answeredAt <= at < s.flights[f].expires
       case Has(f, Shared) =>
         && f < |s.flights| && s.flights[f].key == call.key
         && s.flights[f].stage.Finished? && call.since <= s.flights[f].stage.at
       case _ => true
  }

  ghost predicate Inv(ttl: Settings, s: State) {
    && (forall f: nat :: f < |s.flights| ==> FlightFits(ttl, s, f))
    && GroupFits(s) && CacheFits(s)
    && (forall c: nat :: c < |s.calls| ==> CallFits(s, s.calls[c]))
  }

  lemma FlightStillFits(ttl: Settings, s: State, step: Step, t: int, f: nat)
    requires Inv(ttl, s) && Enabled(s, step) && s.clock <= t && f < |Apply(ttl, s, step, t).flights|
    ensures FlightFits(ttl, Apply(ttl, s, step, t), f)
  {
    hide FlightName, CacheFits, CallFits;
    if f < |s.flights| {
      assert FlightFits(ttl, s, f);
      if step.Finish? {
        FlightNameIsInjective(s.flights[f].key, s.flights[step.f].key);
        assert FlightFits(ttl, s, step.f);
      }
    }
  }

  lemma GroupStillFits(ttl: Settings, s: State, step: Step, t: int)
    requires Inv(ttl, s) && Enabled(s, step)
    ensures GroupFits(Apply(ttl, s, step, t))
  {
    hide FlightName, CacheFits, CallFits, Unmapped;
    if step.Finish? {
      assert FlightFits(ttl, s, step.f);
    }
  }

  lemma CacheStillFits(ttl: Settings, s: State, step: Step, t: int)
    requires Inv(ttl, s) && Enabled(s, step)
    ensures CacheFits(Apply(ttl, s, step, t))
  {
    hide FlightName, GroupFits, CallFits, FlightFits, Unmapped;
  }

  lemma CallStillFits(ttl: Settings, s: State, step: Step, t: int, c: nat)
    requires Inv(ttl, s) && Enabled(s, step) && s.clock <= t && c < |Apply(ttl, s, step, t).calls|
    ensures CallFits(Apply(ttl, s, step, t), Apply(ttl, s, step, t).calls[c])
  {
    hide FlightName, Unmapped, KeyOf;
    if c < |s.calls| {
      var call := s.calls[c];
      assert CallFits(s, call);
      match step
      case Look(_) =>
        if Fresh(s, call.key, t) {
          assert FlightFits(ttl, s, s.cache[call.key]);
        }
      case Enter(_) =>
        var name := FlightName(call.key);
        if name in s.group {
          FlightNameIsInjective(s.flights[s.group[name]].key, call.key);
        }
      case _ =>
    }
  }

  lemma StepKeepsInv(ttl: Settings, s: State, step: Step, t: int)
    requires Inv(ttl, s) && Enabled(s, step) && s.clock <= t
    ensures Inv(ttl, Apply(ttl, s, step, t))
  {
    hide FlightFits, GroupFits, CacheFits, CallFits, Apply;
    var q := Apply(ttl, s, step, t);
    forall f: nat | f < |q.flights| ensures FlightFits(ttl, q, f) {
      FlightStillFits(ttl, s, step, t, f);
    }
    GroupStillFits(ttl, s, step, t);
    CacheStillFits(ttl, s, step, t);
    forall c: nat | c < |q.calls| ensures CallFits(q, q.calls[c]) {
      CallStillFits(ttl, s, step, t, c);
    }
  }

  lemma {:induction false} RunKeepsInv(ttl: Settings, trace: seq<State>, steps: seq<Step>, times: seq<int>, k: nat)
    requires IsRun(ttl, trace, steps, times) && k < |trace|
    ensures Inv(ttl, trace[k])
  {
    if k > 0 {
      RunKeepsInv(ttl, trace, steps, times, k - 1);
      StepKeepsInv(ttl, trace[k - 1], steps[k - 1], times[k - 1]);
    }
  }

  // ---- The theorems ----

  /** Under every interleaving, what a call uses is the answer of a lookup for its own family and
      lower-cased host. An item from the cache was, when the call looked, younger than the time to live of
      its kind of answer; any other comes from a coalesced call that ended during this one. */
  lemma {:induction false} AnswersAreCurrent(ttl: Settings, trace: seq<State>, steps: seq<Step>, times: seq<int>, k: nat, c: nat)
    requires IsRun(ttl, trace, steps, times) && k < |trace|
    requires c < |trace[k].calls| && trace[k].calls[c].progress.Has?
    ensures var (call, s) := (trace[k].calls[c], trace[k]);
      && call.progress.flight < |s.flights|
      && var f := s.flights[call.progress.flight];
         && Some(f.key) == KeyOf(call.network, call.host) && f.stage != Resolving && IsUnmapped(f.answer)
         && match call.progress.source
            case Hit(at) => call.since <= at <= s.clock
            case Shared => f.stage.Finished? && call.since <= f.stage.at <= s.clock
    ensures var call := trace[k].calls[c];
      call.progress.source.Hit? ==>
        var f := trace[k].flights[call.progress.flight];
        0 <= call.progress.source.at - f.answeredAt < if f.answer.Found? then ttl.posTTL else ttl.negTTL
  {
    RunKeepsInv(ttl, trace, steps, times, k);
    var call := trace[k].calls[c];
    assert CallFits(trace[k], call);
    assert FlightFits(ttl, trace[k], call.progress.flight);
  }

  /** The answer of a lookup is the resolver's, unmapped, from the time it came. */
  lemma {:induction false} AnswersAreResolved(ttl: Settings, trace: seq<State>, steps: seq<Step>, times: seq<int>, k: nat, f: nat)
    requires IsRun(ttl, trace, steps, times) && k < |trace|
    requires f < |trace[k].flights| && trace[k].flights[f].stage != Resolving
    ensures exists j :: 0 <= j < k && steps[j].Resolve? && steps[j].f == f && AnswerOf(trace[k].flights[f], steps[j].answer, times[j])
  {
    hide FlightName, Unmapped, KeyOf, Fresh, AnswerOf;
    var step := steps[k - 1];
    if step.Resolve? && step.f == f {
      ResolveAnswers(ttl, trace[k - 1], step, times[k - 1]);
    } else {
      OthersKeepAnswer(ttl, trace[k - 1], step, times[k - 1], f);
      AnswersAreResolved(ttl, trace, steps, times, k - 1, f);
    }
  }

  ghost predicate AnswerOf(flight: Flight, answer: Answer, t: int) {
    && flight.answeredAt == t
    && match answer
       case Found(addrs) =>
         && flight.answer.Found? && |flight.answer.addrs| == |addrs|
         && forall i :: 0 <= i < |addrs| ==> flight.answer.addrs[i] == Unmap(addrs[i])
       case NotFound(_) => flight.answer == answer
  }

  lemma ResolveAnswers(ttl: Settings, s: State, step: Step, t: int)
    requires Enabled(s, step) && step.Resolve?
    ensures AnswerOf(Apply(ttl, s, step, t).flights[step.f], step.answer, t)
  {
  }

  lemma OthersKeepAnswer(ttl: Settings, s: State, step: Step, t: int, f: nat)
    requires Enabled(s, step) && f < |Apply(ttl, s, step, t).flights|
    requires Apply(ttl, s, step, t).flights[f].stage != Resolving && !(step.Resolve? && step.f == f)
    ensures f < |s.flights| && s.flights[f].stage != Resolving
    ensures forall answer, at :: AnswerOf(s.flights[f], answer, at) ==> AnswerOf(Apply(ttl, s, step, t).flights[f], answer, at)
  {
  }

  /** At every step of every run at most one lookup is under way for each key. */
  lemma {:induction false} OneLookupPerKey(ttl: Settings, trace: seq<State>, steps: seq<Step>, times: seq<int>, k: nat, f: nat, g: nat)
    requires IsRun(ttl, trace, steps, times) && k < |trace|
    requires f < |trace[k].flights| && g < |trace[k].flights|
    requires UnderWay(trace[k].flights[f]) && UnderWay(trace[k].flights[g]) && trace[k].flights[f].key == trace[k].flights[g].key
    ensures f == g
  {
    RunKeepsInv(ttl, trace, steps, times, k);
    assert FlightFits(ttl, trace[k], f) && FlightFits(ttl, trace[k], g);
  }

  // ---- Dialing the addresses ----

  datatype Attempt = Connected(conn: nat) | DialFailed(error: int)

  /** Dials the addresses in order until one connects; `attempts` are the outcomes they would have.
      All attempts before that one failed, with these errors. */
  method DialInOrder(attempts: seq<Attempt>) returns (conn: Option<nat>, errors: seq<int>)
    ensures |errors| <= |attempts| && forall i :: 0 <= i < |errors| ==> attempts[i] == DialFailed(errors[i])
    ensures match conn
      case None => |errors| == |attempts|
      case Some(cn) => |errors| < |attempts| && attempts[|errors|] == Connected(cn)
  {
    errors := [];
    for i := 0 to |attempts|
      invariant |errors| == i && forall j :: 0 <= j < i ==> attempts[j] == DialFailed(errors[j])
    {
      match attempts[i]
      case Connected(cn) => return Some(cn), errors;
      case DialFailed(e) => errors := errors + [e];
    }
    conn := None;
  }

  // ---- What single steps do ----

  /** What a network's name says after its protocol. */
  function VersionSuffix(f: Family): string {
    match f
    case IP => ""
    case IP4 => "4"
    case IP6 => "6"
  }

  /** A network stands for a family exactly if it is one of the three protocols with that version;
      requests for others are refused, and the key has the host in lower case. */
  lemma {:induction false} NetworkTellsFamily(network: string, host: string, f: Family)
    ensures KeyOf(network, host) == Some(Key(f, Lower(host)))
      <==> network == "ip" + VersionSuffix(f) || network == "tcp" + VersionSuffix(f) || network == "udp" + VersionSuffix(f)
    ensures FamilyName(f) == "ip" + VersionSuffix(f)
    ensures KeyOf(network, host) != None ==> exists g :: KeyOf(network, host) == Some(Key(g, Lower(host)))
  {
    assert "ip" + "" == "ip" && "tcp" + "" == "tcp" && "udp" + "" == "udp";
    assert "ip" + "4" == "ip4" && "tcp" + "4" == "tcp4" && "udp" + "4" == "udp4";
    assert "ip" + "6" == "ip6" && "tcp" + "6" == "tcp6" && "udp" + "6" == "udp6";
  }

  /** A supported request becomes a call that has not looked yet; another leaves no call. */
  lemma ArriveAdds(ttl: Settings, s: State, network: string, host: string, t: int)
    ensures var q := Apply(ttl, s, Arrive(network, host), t);
      && q.cache == s.cache && q.group == s.group && q.flights == s.flights && q.clock == t
      && (KeyOf(network, host) == None ==> q.calls == s.calls)
      && (KeyOf(network, host) != None ==> q.calls == s.calls + [Call(network, host, KeyOf(network, host).value, t, Arrived)])
  {
  }

  /** A call that missed joins the lookup under way for its key, or starts one if there is none. */
  lemma {:induction false} EnterJoins(ttl: Settings, s: State, c: nat, t: int, f: nat)
    requires Inv(ttl, s) && Enabled(s, Enter(c)) && s.clock <= t
    ensures var q := Apply(ttl, s, Enter(c), t);
      && (f < |s.flights| && s.flights[f].key == s.calls[c].key && UnderWay(s.flights[f]) ==>
            q.flights == s.flights && q.calls[c].progress == Waiting(f))
      && (q.flights == s.flights || (|q.flights| == |s.flights| + 1 && q.flights[..|s.flights|] == s.flights
            && q.flights[|s.flights|].key == s.calls[c].key && q.flights[|s.flights|].stage == Resolving
            && q.calls[c].progress == Waiting(|s.flights|)))
  {
    if f < |s.flights| {
      assert FlightFits(ttl, s, f);
    }
    hide FlightName;
  }

  /** A look or an eviction leaves under its key only an item that has not expired, and takes nothing
      else away. */
  lemma ExpiredItemsGo(ttl: Settings, s: State, step: Step, t: int, key: Key)
    requires Enabled(s, step) && (step.Look? || step.Evict?)
    ensures var (q, own) := (Apply(ttl, s, step, t), if step.Look? then s.calls[step.c].key else step.key);
      && q.flights == s.flights && q.group == s.group
      && (key in q.cache <==> key in s.cache && (key != own || Fresh(s, key, t)))
      && (key in q.cache ==> q.cache[key] == s.cache[key])
  {
  }

  /** Until a call has its answer, some step brings it on. */
  lemma {:induction false} NobodyIsStuck(ttl: Settings, s: State, c: nat) returns (step: Step)
    requires Inv(ttl, s) && c < |s.calls| && !s.calls[c].progress.Has?
    ensures Enabled(s, step) && !step.Arrive? && !step.Evict?
  {
    assert CallFits(s, s.calls[c]);
    match s.calls[c].progress
    case Arrived => step := Look(c);
    case Missed => step := Enter(c);
    case Waiting(f) =>
      match s.flights[f].stage
      case Resolving => step := Resolve(f, NotFound(0));
      case Answered => step := Store(f);
      case Stored => step := Finish(f);
      case Finished(_) => step := Wake(c);
  }

  /** Who is woken has the answer of the lookup it waited for; nothing else changes. */
  lemma WakeTakesAnswer(ttl: Settings, s: State, c: nat, t: int)
    requires Enabled(s, Wake(c))
    ensures var (q, f) := (Apply(ttl, s, Wake(c), t), s.calls[c].progress.flight);
      && q.calls == s.calls[c := s.calls[c].(progress := Has(f, Shared))]
      && q.cache == s.cache && q.group == s.group && q.flights == s.flights
  {
  }

  // ---- Every call ends ----

  /** Steps a call may still cause, its lookup's included. */
  function CallWork(c: Call): nat {
    match c.progress
    case Arrived => 6
    case Missed => 5
    case Waiting(_) => 1
    case Has(_, _) => 0
  }

  function FlightWork(f: Flight): nat {
    match f.stage
    case Resolving => 3
    case Answered => 2
    case Stored => 1
    case Finished(_) => 0
  }

  function CallsWork(calls: seq<Call>): nat {
    if calls == [] then 0 else CallsWork(calls[..|calls| - 1]) + CallWork(calls[|calls| - 1])
  }

  function FlightsWork(flights: seq<Flight>): nat {
    if flights == [] then 0 else FlightsWork(flights[..|flights| - 1]) + FlightWork(flights[|flights| - 1])
  }

  lemma {:induction false} OneCallWorks(calls: seq<Call>, i: nat, c: Call)
    requires i < |calls|
    ensures CallsWork(calls[i := c]) == CallsWork(calls) - CallWork(calls[i]) + CallWork(c)
  {
    var last := |calls| - 1;
    if i < last {
      assert calls[i := c][..last] == calls[..last][i := c];
      OneCallWorks(calls[..last], i, c);
    } else {
      assert calls[i := c][..last] == calls[..last];
    }
  }

  lemma {:induction false} OneFlightWorks(flights: seq<Flight>, i: nat, f: Flight)
    requires i < |flights|
    ensures FlightsWork(flights[i := f]) == FlightsWork(flights) - FlightWork(flights[i]) + FlightWork(f)
  {
    var last := |flights| - 1;
    if i < last {
      assert flights[i := f][..last] == flights[..last][i := f];
      OneFlightWorks(flights[..last], i, f);
    } else {
      assert flights[i := f][..last] == flights[..last];
    }
  }

  function WorkLeft(s: State): nat {
    CallsWork(s.calls) + FlightsWork(s.flights)
  }

  lemma CallStepWorks(ttl: Settings, s: State, step: Step, t: int)
    requires Enabled(s, step) && (step.Look? || step.Enter? || step.Wake?)
    ensures WorkLeft(Apply(ttl, s, step, t)) < WorkLeft(s)
  {
    var q := Apply(ttl, s, step, t);
    OneCallWorks(s.calls, step.c, q.calls[step.c]);
    if step.Enter? && q.flights != s.flights {
      assert q.flights[..|s.flights|] == s.flights;
    }
    hide KeyOf, FlightName, Fresh;
  }

  lemma FlightStepWorks(ttl: Settings, s: State, step: Step, t: int)
    requires Enabled(s, step) && (step.Resolve? || step.Store? || step.Finish?)
    ensures WorkLeft(Apply(ttl, s, step, t)) < WorkLeft(s)
  {
    OneFlightWorks(s.flights, step.f, Apply(ttl, s, step, t).flights[step.f]);
    hide KeyOf, FlightName, Unmapped;
  }

  lemma OtherStepWorks(ttl: Settings, s: State, step: Step, t: int)
    requires Enabled(s, step) && (step.Arrive? || step.Evict?)
    ensures WorkLeft(Apply(ttl, s, step, t)) <= WorkLeft(s) + if step.Arrive? then 6 else 0
  {
    var q := Apply(ttl, s, step, t);
    assert |q.calls| > |s.calls| ==> q.calls[..|s.calls|] == s.calls;
    hide KeyOf, Fresh;
  }

  /** Requests among the first `k` steps, and steps that bring calls and lookups on. */
  function Requests(steps: seq<Step>, k: nat): nat
    requires k <= |steps|
  {
    if k == 0 then 0 else Requests(steps, k - 1) + if steps[k - 1].Arrive? then 1 else 0
  }

  function OwnSteps(steps: seq<Step>, k: nat): nat
    requires k <= |steps|
  {
    if k == 0 then 0 else OwnSteps(steps, k - 1) + if steps[k - 1].Arrive? || steps[k - 1].Evict? then 0 else 1
  }

  lemma {:induction false} StepsAreUsedUp(ttl: Settings, trace: seq<State>, steps: seq<Step>, times: seq<int>, k: nat)
    requires IsRun(ttl, trace, steps, times) && k <= |steps|
    ensures OwnSteps(steps, k) + WorkLeft(trace[k]) <= 6 * Requests(steps, k)
  {
    if k > 0 {
      StepsAreUsedUp(ttl, trace, steps, times, k - 1);
      var (s, step, t) := (trace[k - 1], steps[k - 1], times[k - 1]);
      hide Apply, Enabled, WorkLeft;
      if step.Arrive? || step.Evict? {
        OtherStepWorks(ttl, s, step, t);
      } else if step.Look? || step.Enter? || step.Wake? {
        CallStepWorks(ttl, s, step, t);
      } else {
        FlightStepWorks(ttl, s, step, t);
      }
    }
  }

  /** Every call ends: no run brings calls and lookups on by more than six steps for each request, and
      when none of these steps is possible every call has its answer. */
  lemma {:induction false} EveryCallEnds(ttl: Settings, trace: seq<State>, steps: seq<Step>, times: seq<int>)
    requires IsRun(ttl, trace, steps, times)
    ensures OwnSteps(steps, |steps|) <= 6 * Requests(steps, |steps|)
    ensures (forall step: Step :: !step.Arrive? && !step.Evict? ==> !Enabled(trace[|steps|], step)) ==>
      forall c :: 0 <= c < |trace[|steps|].calls| ==> trace[|steps|].calls[c].progress.Has?
  {
    hide Apply, Enabled, Inv, WorkLeft;
    StepsAreUsedUp(ttl, trace, steps, times, |steps|);
    RunKeepsInv(ttl, trace, steps, times, |steps|);
    var s := trace[|steps|];
    if c: nat :| c < |s.calls| && !s.calls[c].progress.Has? {
      var step := NobodyIsStuck(ttl, s, c);
    }
  }

  // ---- Answers are reused ----

  lemma {:induction false} ClockIsTime(ttl: Settings, trace: seq<State>, steps: seq<Step>, times: seq<int>, i: nat, k: nat)
    requires IsRun(ttl, trace, steps, times) && i <= k < |steps|
    ensures times[i] <= times[k]
    decreases k
  {
    if i < k {
      ClockIsTime(ttl, trace, steps, times, i, k - 1);
      TimeBecomesClock(ttl, trace[k - 1], steps[k - 1], times[k - 1]);
    }
  }

  lemma TimeBecomesClock(ttl: Settings, s: State, step: Step, t: int)
    requires Enabled(s, step)
    ensures Apply(ttl, s, step, t).clock == t
  {
  }

  /** The answer of lookup `f` is in the cache under its key. */
  predicate Cached(s: State, f: nat, expires: int) {
    f < |s.flights| && s.flights[f].expires == expires && s.flights[f].stage != Resolving && s.flights[f].stage != Answered
    && s.flights[f].key in s.cache && s.cache[s.flights[f].key] == f
  }

  /** Only a later answer for the same key takes its place before it expires. */
  lemma FreshStaysCached(ttl: Settings, s: State, step: Step, t: int, f: nat, expires: int)
    requires Enabled(s, step) && Cached(s, f, expires) && t < expires
    requires step.Store? ==> s.flights[step.f].key != s.flights[f].key
    ensures Cached(Apply(ttl, s, step, t), f, expires) && Apply(ttl, s, step, t).flights[f].key == s.flights[f].key
  {
    hide KeyOf, FlightName, Unmapped;
  }

  lemma StoreCaches(ttl: Settings, s: State, f: nat, t: int)
    requires Enabled(s, Store(f))
    ensures Cached(Apply(ttl, s, Store(f), t), f, s.flights[f].expires)
    ensures Apply(ttl, s, Store(f), t).flights[f].key == s.flights[f].key
  {
  }

  lemma {:induction false} StaysCached(ttl: Settings, trace: seq<State>, steps: seq<Step>, times: seq<int>, j: nat, k: nat, f: nat, expires: int)
    requires IsRun(ttl, trace, steps, times) && j < k < |steps| && steps[j] == Store(f)
    requires trace[j].flights[f].expires == expires && times[k] < expires
    requires forall i :: j < i < k && steps[i].Store? ==> trace[i].flights[steps[i].f].key != trace[j].flights[f].key
    ensures Cached(trace[k], f, expires) && trace[k].flights[f].key == trace[j].flights[f].key
    decreases k
  {
    hide Apply, Enabled, Cached;
    if k == j + 1 {
      StoreCaches(ttl, trace[j], f, times[j]);
    } else {
      ClockIsTime(ttl, trace, steps, times, k - 1, k);
      StaysCached(ttl, trace, steps, times, j, k - 1, f, expires);
      FreshStaysCached(ttl, trace[k - 1], steps[k - 1], times[k - 1], f, expires);
    }
  }

  /** An answer is used again: whoever looks for its key after it was stored, and before it expires or
      another is stored, has it at once. */
  lemma {:induction false} LatestAnswerIsReused(ttl: Settings, trace: seq<State>, steps: seq<Step>, times: seq<int>, j: nat, k: nat, f: nat, c: nat)
    requires IsRun(ttl, trace, steps, times) && j < k < |steps| && steps[j] == Store(f) && steps[k] == Look(c)
    requires trace[k].calls[c].key == trace[j].flights[f].key && times[k] < trace[j].flights[f].expires
    requires forall i :: j < i < k && steps[i].Store? ==> trace[i].flights[steps[i].f].key != trace[j].flights[f].key
    ensures c < |trace[k + 1].calls| && trace[k + 1].calls[c].progress == Has(f, Hit(times[k]))
  {
    StaysCached(ttl, trace, steps, times, j, k, f, trace[j].flights[f].expires);
    assert Enabled(trace[k], steps[k]) && trace[k + 1] == Apply(ttl, trace[k], steps[k], times[k]);
  }
}
