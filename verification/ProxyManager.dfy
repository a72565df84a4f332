/**
 Database rows of proxies and the running instances that serve them. External calls may fail at
 any point; automatic resets write to the database without holding the manager's lock.
 */
module ProxyManager {
  import opened Wrappers

  // ---- Upstream addresses ----

  /** The parts of `s` between colons. */
  function Split(s: string): (parts: seq<string>)
    ensures |parts| > 0
  {
    if s == "" then [""]
    else
      var rest := Split(s[1..]);
      if s[0] == ':' then [""] + rest else [[s[0]] + rest[0]] + rest[1..]
  }

  function ParseProxyStr(proxyStr: string, serviceType: string): Option<string> {
    var parts := Split(proxyStr);
    if serviceType == "tmproxy" then
      if |parts| != 4 then None
      else Some("http://" + parts[2] + ":" + parts[3] + "@" + parts[0] + ":" + parts[1])
    else if serviceType == "kiotproxy" then
      if |parts| != 2 then None else Some("http://" + parts[0] + ":" + parts[1])
    else None
  }

  function Joined(parts: seq<string>): string
    requires |parts| > 0
  {
    if |parts| == 1 then parts[0] else parts[0] + ":" + Joined(parts[1..])
  }

  ghost predicate ColonFree(parts: seq<string>) {
    |parts| > 0 && forall i :: 0 <= i < |parts| ==> ':' !in parts[i]
  }

  lemma {:induction false} SplitIsColonFree(s: string)
    ensures ColonFree(Split(s)) && Joined(Split(s)) == s
  {
    if s != "" {
      SplitIsColonFree(s[1..]);
      var rest := Split(s[1..]);
      assert Split(s)[1..] == if s[0] == ':' then rest else rest[1..];
      assert s == [s[0]] + s[1..];
    }
  }

  lemma {:induction false} SplitOfJoined(parts: seq<string>)
    requires ColonFree(parts)
    ensures Split(Joined(parts)) == parts
    decreases |parts|, |parts[0]|
  {
    var s := Joined(parts);
    if parts[0] != "" {
      var shorter := [parts[0][1..]] + parts[1..];
      assert s[0] == parts[0][0] && s[1..] == Joined(shorter);
      assert s[0] in parts[0];
      SplitOfJoined(shorter);
      assert [s[0]] + shorter[0] == parts[0] && shorter[1..] == parts[1..];
      assert parts == [parts[0]] + parts[1..];
    } else if |parts| > 1 {
      assert s[0] == ':' && s[1..] == Joined(parts[1..]);
      SplitOfJoined(parts[1..]);
    }
  }

  /** The strings that parse are exactly those with the right number of colons for the service,
      and each part of the address is found where it was written. */
  lemma {:induction false} ParsesExactly(s: string, serviceType: string, parts: seq<string>)
    requires ColonFree(parts) && Joined(parts) == s
    ensures serviceType == "tmproxy" && |parts| == 4 ==>
      ParseProxyStr(s, serviceType) == Some("http://" + parts[2] + ":" + parts[3] + "@" + parts[0] + ":" + parts[1])
    ensures serviceType == "kiotproxy" && |parts| == 2 ==>
      ParseProxyStr(s, serviceType) == Some("http://" + parts[0] + ":" + parts[1])
    ensures ParseProxyStr(s, serviceType) != None
      <==> (serviceType == "tmproxy" && |parts| == 4) || (serviceType == "kiotproxy" && |parts| == 2)
  {
    SplitOfJoined(parts);
  }

  /** The upstream a string stands for, if it parses and a dialer can be made for it. */
  function UpstreamFor(dialable: string -> bool, proxyStr: string, serviceType: string): Option<string> {
    var url := ParseProxyStr(proxyStr, serviceType);
    if url != None && dialable(url.value) then url else None
  }

  // ---- Rows, instances and the calls that change them ----

  datatype Row = Row(proxyStr: string, apiKey: string, serviceType: string, minTimeReset: int, lastResetAt: int)

  datatype Instance = Instance(serviceType: string, upstream: string)

  /** Row ids grow; the database never gives one out twice. */
  datatype World = World(rows: map<nat, Row>, instances: map<nat, Instance>, nextId: nat)

  /** An automatic reset's database write. */
  datatype ResetWrite = ResetWrite(id: nat, proxyStr: string, at: int)

  function Written(rows: map<nat, Row>, w: ResetWrite): map<nat, Row> {
    if w.id in rows then rows[w.id := rows[w.id].(proxyStr := w.proxyStr, lastResetAt := w.at)] else rows
  }

  function AllWritten(rows: map<nat, Row>, ws: seq<ResetWrite>): map<nat, Row> {
    if ws == [] then rows else Written(AllWritten(rows, ws[..|ws| - 1]), ws[|ws| - 1])
  }

  function Disturbed(w: World, ws: seq<ResetWrite>): World {
    w.(rows := AllWritten(w.rows, ws))
  }

  /** What the service answers: the current proxy with the time since its reset, or a new one. */
  datatype Service = Service(current: Option<string>, age: int, renewed: Option<string>)

  /** The service's proxy string and the time it counts as reset, if it has any. */
  function Fetched(s: Service, now: int): Option<(string, int)> {
    if s.current != None then Some((s.current.value, now - s.age))
    else if s.renewed != None then Some((s.renewed.value, now))
    else None
  }

  /** Which external calls fail, and what resets write to the database between the statements of
      one call: before the write, after it, and before the answer. */
  datatype Surroundings = Surroundings(
    now: int,
    service: Service,
    queryFails: bool,
    writeFails: bool,
    idFails: bool,
    authFails: bool,
    listenFails: bool,
    rollbackFails: bool,
    readFails: bool,
    before: seq<ResetWrite>,
    after: seq<ResetWrite>)

  /** Creates an instance from a string that was read from the row earlier. */
  function Created(dialable: string -> bool, proxyStr: string, serviceType: string, authFails: bool, listenFails: bool): Option<Instance> {
    var upstream := UpstreamFor(dialable, proxyStr, serviceType);
    if authFails || upstream == None || listenFails then None else Some(Instance(serviceType, upstream.value))
  }

  function Inserted(dialable: string -> bool, w: World, apiKey: string, serviceType: string, minTimeReset: int, s: Surroundings): (World, bool) {
    var fetched := Fetched(s.service, s.now);
    var w0 := Disturbed(w, s.before);
    if fetched == None || s.writeFails then (w0, false)
    else
      var (proxyStr, lastResetAt) := fetched.value;
      var id := w.nextId;
      var w1 := Disturbed(World(w0.rows[id := Row(proxyStr, apiKey, serviceType, minTimeReset, lastResetAt)], w0.instances, id + 1), s.after);
      if s.idFails then (w1, false)
      else
        var instance := Created(dialable, proxyStr, serviceType, s.authFails, s.listenFails);
        if instance == None then (if s.rollbackFails then w1 else w1.(rows := w1.rows - {id}), false)
        else (w1.(instances := w1.instances[id := instance.value]), true)
  }

  /** A running instance takes a new upstream if the string is usable for its service. */
  function Redirected(dialable: string -> bool, i: Instance, proxyStr: string): (Instance, bool) {
    var upstream := UpstreamFor(dialable, proxyStr, i.serviceType);
    if upstream == None then (i, false) else (i.(upstream := upstream.value), true)
  }

  function RedirectedIn(dialable: string -> bool, w: World, id: nat, proxyStr: string): (World, bool) {
    if id !in w.instances then (w, false)
    else
      var (i, ok) := Redirected(dialable, w.instances[id], proxyStr);
      (w.(instances := w.instances[id := i]), ok)
  }

  function Updated(dialable: string -> bool, w: World, id: nat, minTimeReset: int, s: Surroundings): (World, bool) {
    var fetched := Fetched(s.service, s.now);
    var w0 := Disturbed(w, s.before);
    if fetched == None || s.writeFails then (w0, false)
    else
      var (proxyStr, lastResetAt) := fetched.value;
      var rows := if id in w0.rows
        then w0.rows[id := w0.rows[id].(proxyStr := proxyStr, minTimeReset := minTimeReset, lastResetAt := lastResetAt)]
        else w0.rows;
      var w1 := Disturbed(w0.(rows := rows), s.after);
      var (w2, redirected) := RedirectedIn(dialable, w1, id, proxyStr);
      (w2, (redirected || id !in w1.instances) && !s.readFails)
  }

  /** The database's answer to a search by key. */
  ghost predicate Finds(rows: map<nat, Row>, apiKey: string, found: Option<nat>) {
    match found
    case Some(id) => id in rows && rows[id].apiKey == apiKey
    case None => forall id <- rows :: rows[id].apiKey != apiKey
  }

  function Upserted(dialable: string -> bool, services: set<string>, w: World, apiKey: string, serviceType: string, minTimeReset: int,
                    found: Option<nat>, s: Surroundings): (World, bool) {
    if serviceType !in services || s.queryFails then (w, false)
    else
      match found
      case None => Inserted(dialable, w, apiKey, serviceType, minTimeReset, s)
      case Some(id) => Updated(dialable, w, id, minTimeReset, s)
  }

  function Deleted(w: World, id: nat, s: Surroundings): (World, bool) {
    var w0 := Disturbed(w.(instances := w.instances - {id}), s.before);
    if s.writeFails then (w0, false) else (w0.(rows := w0.rows - {id}), true)
  }

  /** Starts instances for the rows as they were loaded; those that fail are passed over. */
  function Started(dialable: string -> bool, w: World, loaded: map<nat, Row>, ids: seq<nat>, failing: set<nat>): World {
    if ids == [] then w
    else
      var id := ids[|ids| - 1];
      var v := Started(dialable, w, loaded, ids[..|ids| - 1], failing);
      var instance := if id in loaded then Created(dialable, loaded[id].proxyStr, loaded[id].serviceType, false, id in failing) else None;
      if instance == None then v else v.(instances := v.instances[id := instance.value])
  }

  /** The row's instance is the one made from the row, or if that cannot be made or started, what it
      was before. */
  predicate StartedOrKept(dialable: string -> bool, row: Row, id: nat, failing: set<nat>,
                          before: map<nat, Instance>, after: map<nat, Instance>) {
    var instance := Created(dialable, row.proxyStr, row.serviceType, false, id in failing);
    if instance != None then id in after && after[id] == instance.value
    else (id in after <==> id in before) && (id in before ==> after[id] == before[id])
  }

  lemma {:induction false} EveryRowIsStarted(dialable: string -> bool, w: World, loaded: map<nat, Row>, ids: seq<nat>,
                                             failing: set<nat>, id: nat)
    requires id in loaded
    ensures var after := Started(dialable, w, loaded, ids, failing);
      && (id in ids ==> StartedOrKept(dialable, loaded[id], id, failing, w.instances, after.instances))
      && (id !in ids ==> (id in after.instances <==> id in w.instances)
                         && (id in w.instances ==> after.instances[id] == w.instances[id]))
  {
    hide Created;
    if ids != [] {
      EveryRowIsStarted(dialable, w, loaded, ids[..|ids| - 1], failing, id);
      assert id in ids <==> id in ids[..|ids| - 1] || id == ids[|ids| - 1];
    }
  }

  /** One automatic reset taken as a whole: the database write, then the instance. */
  function Reset(dialable: string -> bool, w: World, write: ResetWrite): (World, bool) {
    RedirectedIn(dialable, Disturbed(w, [write]), write.id, write.proxyStr)
  }

  // ---- The manager ----

  class Manager {
    const dialable: string -> bool
    const services: set<string>
    var rows: map<nat, Row>
    var instances: map<nat, Instance>
    var nextId: nat

    function State(): World
      reads this
    {
      World(rows, instances, nextId)
    }

    /** A manager over a database that may have rows already; nothing runs yet. */
    constructor (dialable: string -> bool, services: set<string>, rows: map<nat, Row>, nextId: nat)
      ensures State() == World(rows, map[], nextId) && this.dialable == dialable && this.services == services
    {
      this.dialable := dialable;
      this.services := services;
      this.rows := rows;
      instances := map[];
      this.nextId := nextId;
    }

    method OtherResets(ws: seq<ResetWrite>)
      modifies this`rows
      ensures State() == Disturbed(old(State()), ws)
    {
      for i := 0 to |ws|
        invariant rows == AllWritten(old(rows), ws[..i])
      {
        assert ws[..i + 1][..i] == ws[..i];
        if ws[i].id in rows {
          rows := rows[ws[i].id := rows[ws[i].id].(proxyStr := ws[i].proxyStr, lastResetAt := ws[i].at)];
        }
      }
      assert ws[..|ws|] == ws;
    }

    method UpsertProxy(apiKey: string, serviceType: string, minTimeReset: int, found: Option<nat>, s: Surroundings) returns (ok: bool)
      requires Finds(rows, apiKey, found)
      modifies this
      ensures (State(), ok) == Upserted(dialable, services, old(State()), apiKey, serviceType, minTimeReset, found, s)
    {
      if serviceType !in services || s.queryFails {
        return false;
      }
      match found
      case None => ok := InsertNewProxy(apiKey, serviceType, minTimeReset, s);
      case Some(id) => ok := UpdateExistingProxy(id, minTimeReset, s);
    }

    method InsertNewProxy(apiKey: string, serviceType: string, minTimeReset: int, s: Surroundings) returns (ok: bool)
      modifies this
      ensures (State(), ok) == Inserted(dialable, old(State()), apiKey, serviceType, minTimeReset, s)
    {
      var fetched := Fetched(s.service, s.now);
      OtherResets(s.before);
      if fetched == None || s.writeFails {
        return false;
      }
      var (proxyStr, lastResetAt) := fetched.value;
      var id := nextId;
      rows := rows[id := Row(proxyStr, apiKey, serviceType, minTimeReset, lastResetAt)];
      nextId := nextId + 1;
      OtherResets(s.after);
      if s.idFails {
        return false;
      }
      var instance := Created(dialable, proxyStr, serviceType, s.authFails, s.listenFails);
      if instance == None {
        if !s.rollbackFails {
          rows := rows - {id};
        }
        return false;
      }
      instances := instances[id := instance.value];
      ok := true;
    }

    method UpdateExistingProxy(id: nat, minTimeReset: int, s: Surroundings) returns (ok: bool)
      modifies this
      ensures (State(), ok) == Updated(dialable, old(State()), id, minTimeReset, s)
    {
      var fetched := Fetched(s.service, s.now);
      OtherResets(s.before);
      if fetched == None || s.writeFails {
        return false;
      }
      var (proxyStr, lastResetAt) := fetched.value;
      if id in rows {
        rows := rows[id := rows[id].(proxyStr := proxyStr, minTimeReset := minTimeReset, lastResetAt := lastResetAt)];
      }
      OtherResets(s.after);
      if id in instances {
        var redirected := UpdateInstance(id, proxyStr);
        if !redirected {
          return false;
        }
      }
      ok := !s.readFails;
    }

    /** Redirects a running instance; there may be none. */
    method UpdateInstance(id: nat, proxyStr: string) returns (ok: bool)
      modifies this`instances
      ensures (State(), ok) == RedirectedIn(dialable, old(State()), id, proxyStr)
    {
      if id !in instances {
        return false;
      }
      var (i, redirected) := Redirected(dialable, instances[id], proxyStr);
      instances := instances[id := i];
      ok := redirected;
    }

    method DeleteProxy(id: nat, s: Surroundings) returns (ok: bool)
      modifies this
      ensures (State(), ok) == Deleted(old(State()), id, s)
    {
      if id in instances {
        instances := instances - {id};
      }
      assert instances == old(instances) - {id};
      OtherResets(s.before);
      if s.writeFails {
        return false;
      }
      rows := rows - {id};
      ok := true;
    }

    /** `ids` lists the rows that are loaded; resets may write after that. Every row whose instance
        can be made and started has it afterwards. */
    method StartAll(ids: seq<nat>, failing: set<nat>, loadFails: bool, during: seq<ResetWrite>) returns (ok: bool)
      requires forall id :: id in ids <==> id in rows
      modifies this
      ensures ok == !loadFails
      ensures ok ==> forall id <- old(rows) :: StartedOrKept(dialable, old(rows)[id], id, failing, old(instances), instances)
      ensures State() == if loadFails then old(State())
                         else Started(dialable, Disturbed(old(State()), during), old(rows), ids, failing)
    {
      if loadFails {
        return false;
      }
      var loaded := rows;
      OtherResets(during);
      ghost var w := State();
      for i := 0 to |ids|
        invariant State() == Started(dialable, w, loaded, ids[..i], failing)
      {
        assert ids[..i + 1][..i] == ids[..i];
        var id := ids[i];
        if id in loaded {
          var instance := Created(dialable, loaded[id].proxyStr, loaded[id].serviceType, false, id in failing);
          if instance != None {
            instances := instances[id := instance.value];
          }
        }
      }
      assert ids[..|ids|] == ids;
      forall id <- loaded ensures StartedOrKept(dialable, loaded[id], id, failing, old(instances), instances) {
        EveryRowIsStarted(dialable, w, loaded, ids, failing, id);
      }
      ok := true;
    }

    method StopAll()
      modifies this`instances
      ensures State() == old(State()).(instances := map[])
    {
      instances := map[];
    }

    /** Asks the service for a new proxy, writes it to the row, then redirects the instance. */
    method ResetProxy(id: nat, serviceType: string, renewed: Option<string>, writeFails: bool, at: int) returns (ok: bool)
      modifies this
      ensures (State(), ok) == if serviceType !in services || renewed == None || writeFails then (old(State()), false)
                               else Reset(dialable, old(State()), ResetWrite(id, renewed.value, at))
    {
      if serviceType !in services || renewed == None || writeFails {
        return false;
      }
      var write := ResetWrite(id, renewed.value, at);
      assert [write][..0] == [];
      OtherResets([write]);
      ok := UpdateInstance(id, renewed.value);
    }
  }
}
