/** What holds of rows and instances over whole runs of the proxy manager. */
module ProxyRuns {
  import opened ProxyManager
  import opened Wrappers

  // ---- What every call keeps ----

  /** Every running instance has a row of its service, no two rows share a key, and ids are not
      reused. */
  ghost predicate Safe(w: World) {
    && (forall id <- w.instances :: id in w.rows && w.rows[id].serviceType == w.instances[id].serviceType)
    && (forall i, j :: i in w.rows && j in w.rows && w.rows[i].apiKey == w.rows[j].apiKey ==> i == j)
    && (forall id <- w.rows :: id < w.nextId)
  }

  /** An instance's upstream is what its row's string stands for, if it stands for any. */
  ghost predicate Agrees(dialable: string -> bool, w: World) {
    InStep(dialable, w, None)
  }

  /** The same but for the row of `late`, a reset that has not redirected its instance yet: that row
      may already stand for what the reset will set. */
  ghost predicate InStep(dialable: string -> bool, w: World, late: Option<ResetWrite>) {
    forall id <- w.instances :: id in w.rows ==> RowInStep(dialable, w.rows[id], w.instances[id], id, late)
  }

  predicate RowInStep(dialable: string -> bool, row: Row, i: Instance, id: nat, late: Option<ResetWrite>) {
    || RowAgrees(dialable, row, i)
    || (late != None && late.value.id == id
        && UpstreamFor(dialable, row.proxyStr, i.serviceType) == UpstreamFor(dialable, late.value.proxyStr, i.serviceType))
  }

  predicate RowAgrees(dialable: string -> bool, row: Row, i: Instance) {
    var upstream := UpstreamFor(dialable, row.proxyStr, i.serviceType);
    upstream != None ==> i.upstream == upstream.value
  }

  /** Resets keep which rows there are, their keys and their services. */
  lemma {:induction false} WritesKeepKeys(rows: map<nat, Row>, ws: seq<ResetWrite>)
    ensures var rows' := AllWritten(rows, ws);
      && rows'.Keys == rows.Keys
      && forall id <- rows :: rows'[id].apiKey == rows[id].apiKey && rows'[id].serviceType == rows[id].serviceType
  {
    if ws != [] {
      WritesKeepKeys(rows, ws[..|ws| - 1]);
    }
  }

  lemma DisturbedIsSafe(w: World, ws: seq<ResetWrite>)
    requires Safe(w)
    ensures Safe(Disturbed(w, ws))
  {
    WritesKeepKeys(w.rows, ws);
  }

  /** A row with a key of its own may be added under the next id. */
  lemma NewRowIsSafe(w: World, row: Row)
    requires Safe(w) && forall id <- w.rows :: w.rows[id].apiKey != row.apiKey
    ensures Safe(World(w.rows[w.nextId := row], w.instances, w.nextId + 1)) && w.nextId !in w.instances
  {
  }

  /** A row without an instance may be removed, or an instance of its service started. */
  lemma IdleRowIsFree(w: World, id: nat, i: Instance)
    requires Safe(w) && id in w.rows && id !in w.instances && w.rows[id].serviceType == i.serviceType
    ensures Safe(w.(rows := w.rows - {id})) && Safe(w.(instances := w.instances[id := i]))
  {
  }

  lemma InsertIsSafe(dialable: string -> bool, w: World, apiKey: string, serviceType: string, minTimeReset: int, s: Surroundings)
    requires Safe(w) && Finds(w.rows, apiKey, None)
    ensures Safe(Inserted(dialable, w, apiKey, serviceType, minTimeReset, s).0)
  {
    DisturbedIsSafe(w, s.before);
    WritesKeepKeys(w.rows, s.before);
    var (fetched, w0) := (Fetched(s.service, s.now), Disturbed(w, s.before));
    hide UpstreamFor, AllWritten, Fetched, Safe;
    if fetched != None {
      var row := Row(fetched.value.0, apiKey, serviceType, minTimeReset, fetched.value.1);
      NewRowIsSafe(w0, row);
      var w1 := World(w0.rows[w.nextId := row], w0.instances, w.nextId + 1);
      DisturbedIsSafe(w1, s.after);
      WritesKeepKeys(w1.rows, s.after);
      var instance := Created(dialable, row.proxyStr, serviceType, s.authFails, s.listenFails);
      IdleRowIsFree(Disturbed(w1, s.after), w.nextId, if instance != None then instance.value else Instance(serviceType, ""));
    }
  }

  lemma RedirectIsSafe(dialable: string -> bool, w: World, id: nat, proxyStr: string)
    requires Safe(w)
    ensures Safe(RedirectedIn(dialable, w, id, proxyStr).0)
  {
  }

  lemma UpdateIsSafe(dialable: string -> bool, w: World, id: nat, minTimeReset: int, s: Surroundings)
    requires Safe(w)
    ensures Safe(Updated(dialable, w, id, minTimeReset, s).0)
  {
    hide UpstreamFor, AllWritten, RedirectedIn;
    DisturbedIsSafe(w, s.before);
    var fetched := Fetched(s.service, s.now);
    if fetched != None {
      var rows := Disturbed(w, s.before).rows;
      if id in rows {
        rows := rows[id := rows[id].(proxyStr := fetched.value.0, minTimeReset := minTimeReset, lastResetAt := fetched.value.1)];
      }
      DisturbedIsSafe(w.(rows := rows), s.after);
      RedirectIsSafe(dialable, Disturbed(w.(rows := rows), s.after), id, fetched.value.0);
    }
  }

  lemma {:induction false} StartIsSafe(dialable: string -> bool, w: World, loaded: map<nat, Row>, ids: seq<nat>, failing: set<nat>)
    requires Safe(w) && w.rows.Keys == loaded.Keys
    requires forall id <- loaded :: loaded[id].serviceType == w.rows[id].serviceType
    ensures Safe(Started(dialable, w, loaded, ids, failing)) && Started(dialable, w, loaded, ids, failing).rows == w.rows
  {
    hide UpstreamFor;
    if ids != [] {
      StartIsSafe(dialable, w, loaded, ids[..|ids| - 1], failing);
    }
  }

  // ---- Runs ----

  datatype Op =
    | Upsert(apiKey: string, serviceType: string, minTimeReset: int, found: Option<nat>, s: Surroundings)
    | Delete(id: nat, s: Surroundings)
    | StartUp(ids: seq<nat>, failing: set<nat>, during: seq<ResetWrite>)
    | ShutDown
    | WriteOnly(write: ResetWrite)
    | RedirectOnly(id: nat, proxyStr: string)
    | WholeReset(write: ResetWrite)

  function Step(dialable: string -> bool, services: set<string>, w: World, op: Op): World {
    match op
    case Upsert(apiKey, serviceType, minTimeReset, found, s) =>
      Upserted(dialable, services, w, apiKey, serviceType, minTimeReset, found, s).0
    case Delete(id, s) => Deleted(w, id, s).0
    case StartUp(ids, failing, during) => Started(dialable, Disturbed(w, during), w.rows, ids, failing)
    case ShutDown => w.(instances := map[])
    case WriteOnly(write) => Disturbed(w, [write])
    case RedirectOnly(id, proxyStr) => RedirectedIn(dialable, w, id, proxyStr).0
    case WholeReset(write) => Reset(dialable, w, write).0
  }

  /** A run starts over whatever the database holds. */
  function Run(dialable: string -> bool, services: set<string>, start: World, ops: seq<Op>): World {
    if ops == [] then start
    else Step(dialable, services, Run(dialable, services, start, ops[..|ops| - 1]), ops[|ops| - 1])
  }

  /** Every search by key is answered by the database as it was at that moment. */
  ghost predicate Answered(dialable: string -> bool, services: set<string>, start: World, ops: seq<Op>) {
    ops == [] ||
    var (earlier, op) := (ops[..|ops| - 1], ops[|ops| - 1]);
    && Answered(dialable, services, start, earlier)
    && (op.Upsert? ==> Finds(Run(dialable, services, start, earlier).rows, op.apiKey, op.found))
  }

  lemma StepIsSafe(dialable: string -> bool, services: set<string>, w: World, op: Op)
    requires Safe(w) && (op.Upsert? ==> Finds(w.rows, op.apiKey, op.found))
    ensures Safe(Step(dialable, services, w, op))
  {
    hide UpstreamFor, AllWritten, RedirectedIn, Inserted, Updated, Started;
    match op
    case Upsert(apiKey, serviceType, minTimeReset, found, s) =>
      if found == None {
        InsertIsSafe(dialable, w, apiKey, serviceType, minTimeReset, s);
      } else {
        UpdateIsSafe(dialable, w, found.value, minTimeReset, s);
      }
    case Delete(id, s) => DisturbedIsSafe(w.(instances := w.instances - {id}), s.before);
    case StartUp(ids, failing, during) =>
      DisturbedIsSafe(w, during);
      WritesKeepKeys(w.rows, during);
      StartIsSafe(dialable, Disturbed(w, during), w.rows, ids, failing);
    case ShutDown =>
    case WriteOnly(write) => DisturbedIsSafe(w, [write]);
    case RedirectOnly(id, proxyStr) => RedirectIsSafe(dialable, w, id, proxyStr);
    case WholeReset(write) =>
      DisturbedIsSafe(w, [write]);
      RedirectIsSafe(dialable, Disturbed(w, [write]), write.id, write.proxyStr);
  }

  /** Over any table with unique keys, whatever fails, and wherever the database writes of resets
      fall, every running instance has a row and no two rows share a key. */
  lemma {:induction false} RunsAreSafe(dialable: string -> bool, services: set<string>, start: World, ops: seq<Op>)
    requires Safe(start) && Answered(dialable, services, start, ops)
    ensures Safe(Run(dialable, services, start, ops))
  {
    if ops != [] {
      RunsAreSafe(dialable, services, start, ops[..|ops| - 1]);
      StepIsSafe(dialable, services, Run(dialable, services, start, ops[..|ops| - 1]), ops[|ops| - 1]);
    }
  }

  // ---- What an upsert writes ----

  /** What the row of a key says after a successful upsert: what the service answered and when it
      counts as reset, and the new least time between resets. */
  predicate SaysFetched(row: Row, apiKey: string, minTimeReset: int, s: Surroundings) {
    && row.apiKey == apiKey && row.minTimeReset == minTimeReset
    && match s.service.current
       case Some(proxyStr) => row.proxyStr == proxyStr && row.lastResetAt == s.now - s.service.age
       case None => s.service.renewed == Some(row.proxyStr) && row.lastResetAt == s.now
  }

  /** What the resets make of one row. */
  function RowWritten(row: Row, id: nat, ws: seq<ResetWrite>): Row {
    if ws == [] then row
    else
      var (earlier, w) := (RowWritten(row, id, ws[..|ws| - 1]), ws[|ws| - 1]);
      if w.id == id then earlier.(proxyStr := w.proxyStr, lastResetAt := w.at) else earlier
  }

  lemma {:induction false} WritesAreRowByRow(rows: map<nat, Row>, ws: seq<ResetWrite>)
    ensures AllWritten(rows, ws).Keys == rows.Keys
    ensures forall id <- rows :: AllWritten(rows, ws)[id] == RowWritten(rows[id], id, ws)
  {
    if ws != [] {
      WritesAreRowByRow(rows, ws[..|ws| - 1]);
    }
  }

  /** The row is still there, and only resets in between have written to it. */
  ghost predicate OnlyReset(w: World, after: World, id: nat, s: Surroundings)
    requires id in w.rows
  {
    && id in after.rows
    && (|| after.rows[id] == w.rows[id]
        || after.rows[id] == RowWritten(w.rows[id], id, s.before)
        || after.rows[id] == RowWritten(RowWritten(w.rows[id], id, s.before), id, s.after))
  }

  /** The row that is written, before the resets that follow. */
  ghost predicate Wrote(after: World, id: nat, row: Row, apiKey: string, minTimeReset: int, s: Surroundings) {
    SaysFetched(row, apiKey, minTimeReset, s) && id in after.rows && after.rows[id] == RowWritten(row, id, s.after)
  }

  lemma InsertWritesOneKey(dialable: string -> bool, w: World, apiKey: string, serviceType: string, minTimeReset: int, s: Surroundings)
    requires Safe(w)
    ensures var (after, ok) := Inserted(dialable, w, apiKey, serviceType, minTimeReset, s);
      && (forall id <- w.rows :: OnlyReset(w, after, id, s))
      && (forall id <- w.instances :: id in after.instances && after.instances[id] == w.instances[id])
      && (ok ==> w.nextId in after.instances
                 && exists row: Row :: Wrote(after, w.nextId, row, apiKey, minTimeReset, s))
      && (!ok && !s.idFails && !s.rollbackFails ==> after.rows.Keys == w.rows.Keys && after.instances == w.instances)
  {
    hide UpstreamFor, AllWritten, RowWritten;
    WritesAreRowByRow(w.rows, s.before);
    var fetched := Fetched(s.service, s.now);
    if fetched != None {
      var row := Row(fetched.value.0, apiKey, serviceType, minTimeReset, fetched.value.1);
      WritesAreRowByRow(AllWritten(w.rows, s.before)[w.nextId := row], s.after);
      assert SaysFetched(row, apiKey, minTimeReset, s);
      var (after, ok) := Inserted(dialable, w, apiKey, serviceType, minTimeReset, s);
      assert ok ==> Wrote(after, w.nextId, row, apiKey, minTimeReset, s);
    }
  }

  lemma UpdateWritesOneKey(dialable: string -> bool, w: World, id: nat, minTimeReset: int, s: Surroundings)
    requires id in w.rows
    ensures var (after, ok) := Updated(dialable, w, id, minTimeReset, s);
      && (forall other <- w.rows :: other != id ==> OnlyReset(w, after, other, s))
      && (forall other <- w.instances :: other != id ==> other in after.instances && after.instances[other] == w.instances[other])
      && (ok ==> exists row: Row :: Wrote(after, id, row, w.rows[id].apiKey, minTimeReset, s))
  {
    hide UpstreamFor, AllWritten, RowWritten;
    WritesAreRowByRow(w.rows, s.before);
    WritesKeepKeys(w.rows, s.before);
    var fetched := Fetched(s.service, s.now);
    if fetched != None {
      var rows := AllWritten(w.rows, s.before);
      var row := rows[id].(proxyStr := fetched.value.0, minTimeReset := minTimeReset, lastResetAt := fetched.value.1);
      WritesAreRowByRow(rows[id := row], s.after);
      var (after, ok) := Updated(dialable, w, id, minTimeReset, s);
      assert ok ==> Wrote(after, id, row, w.rows[id].apiKey, minTimeReset, s);
    }
  }

  /** An upsert changes the rows and the instances of its key only, apart from what resets write in
      between; it has written the row if it succeeds, and started an instance if the key is new. A
      failed insert that can roll back leaves no trace. */
  lemma {:induction false} UpsertWritesOneKey(dialable: string -> bool, services: set<string>, w: World, apiKey: string,
                                              serviceType: string, minTimeReset: int, found: Option<nat>, s: Surroundings)
    requires Safe(w) && Finds(w.rows, apiKey, found)
    ensures var (after, ok) := Upserted(dialable, services, w, apiKey, serviceType, minTimeReset, found, s);
      && (forall id <- w.rows :: w.rows[id].apiKey != apiKey ==> OnlyReset(w, after, id, s))
      && (forall id <- w.instances :: found != Some(id) ==> id in after.instances && after.instances[id] == w.instances[id])
      && (ok ==> exists id, row: Row :: Wrote(after, id, row, apiKey, minTimeReset, s) && (found == None ==> id in after.instances))
      && (!ok && found == None && !s.idFails && !s.rollbackFails ==> after.rows.Keys == w.rows.Keys && after.instances == w.instances)
  {
    hide Inserted, Updated, Wrote, RowWritten;
    match found
    case None => InsertWritesOneKey(dialable, w, apiKey, serviceType, minTimeReset, s);
    case Some(id) => UpdateWritesOneKey(dialable, w, id, minTimeReset, s);
  }

  // ---- Agreement when resets are atomic ----

  /** No reset writes in the middle of a call, and none is split. */
  predicate Atomic(op: Op) {
    match op
    case Upsert(_, _, _, _, s) => s.before == [] && s.after == []
    case Delete(_, s) => s.before == []
    case StartUp(_, _, during) => during == []
    case ShutDown => true
    case WriteOnly(_) => false
    case RedirectOnly(_, _) => false
    case WholeReset(_) => true
  }

  /** Setting the row's string and redirecting its instance leaves the two in agreement. */
  lemma RowAndInstanceAgree(dialable: string -> bool, w: World, id: nat, proxyStr: string, late: Option<ResetWrite>)
    requires Safe(w) && id in w.rows && w.rows[id].proxyStr == proxyStr
    requires forall other <- w.instances :: other != id && other in w.rows
               ==> RowInStep(dialable, w.rows[other], w.instances[other], other, late)
    ensures InStep(dialable, RedirectedIn(dialable, w, id, proxyStr).0, late)
  {
  }

  lemma {:induction false} StartStaysInStep(dialable: string -> bool, w: World, ids: seq<nat>, failing: set<nat>, late: Option<ResetWrite>)
    requires Safe(w) && InStep(dialable, w, late)
    ensures InStep(dialable, Started(dialable, w, w.rows, ids, failing), late)
  {
    hide UpstreamFor;
    StartIsSafe(dialable, w, w.rows, ids, failing);
    if ids != [] {
      StartStaysInStep(dialable, w, ids[..|ids| - 1], failing, late);
      StartIsSafe(dialable, w, w.rows, ids[..|ids| - 1], failing);
    }
  }

  lemma StepStaysInStep(dialable: string -> bool, services: set<string>, w: World, op: Op, late: Option<ResetWrite>)
    requires Safe(w) && InStep(dialable, w, late) && Atomic(op) && (op.Upsert? ==> Finds(w.rows, op.apiKey, op.found))
    ensures InStep(dialable, Step(dialable, services, w, op), late)
  {
    hide UpstreamFor, RedirectedIn, Started;
    match op
    case Upsert(apiKey, serviceType, minTimeReset, found, s) =>
      var fetched := Fetched(s.service, s.now);
      if found != None && fetched != None {
        var rows := w.rows[found.value := w.rows[found.value].(proxyStr := fetched.value.0, minTimeReset := minTimeReset, lastResetAt := fetched.value.1)];
        RowAndInstanceAgree(dialable, w.(rows := rows), found.value, fetched.value.0, late);
      }
    case Delete(id, s) =>
    case StartUp(ids, failing, during) => StartStaysInStep(dialable, w, ids, failing, late);
    case WholeReset(write) =>
      OneWrite(w.rows, write);
      DisturbedIsSafe(w, [write]);
      if write.id in w.rows {
        RowAndInstanceAgree(dialable, Disturbed(w, [write]), write.id, write.proxyStr, late);
      } else {
        NoInstanceNoRedirect(dialable, w, write);
      }
    case _ =>
  }

  lemma OneWrite(rows: map<nat, Row>, write: ResetWrite)
    ensures AllWritten(rows, [write]) == Written(rows, write)
  {
  }

  lemma NoInstanceNoRedirect(dialable: string -> bool, w: World, write: ResetWrite)
    requires Safe(w) && write.id !in w.rows
    ensures Reset(dialable, w, write).0 == w
  {
    OneWrite(w.rows, write);
  }

  lemma {:induction false} RunsStayInStep(dialable: string -> bool, services: set<string>, start: World, ops: seq<Op>, late: Option<ResetWrite>)
    requires Safe(start) && InStep(dialable, start, late)
    requires Answered(dialable, services, start, ops) && forall i :: 0 <= i < |ops| ==> Atomic(ops[i])
    ensures InStep(dialable, Run(dialable, services, start, ops), late)
  {
    if ops != [] {
      var earlier := ops[..|ops| - 1];
      RunsStayInStep(dialable, services, start, earlier, late);
      RunsAreSafe(dialable, services, start, earlier);
      StepStaysInStep(dialable, services, Run(dialable, services, start, earlier), ops[|ops| - 1], late);
    }
  }

  /** When resets are taken as a whole, every running instance serves the upstream its row's
      string stands for, whenever that string is usable for its service. */
  lemma {:induction false} AtomicRunsAgree(dialable: string -> bool, services: set<string>, start: World, ops: seq<Op>)
    requires Safe(start) && Agrees(dialable, start)
    requires Answered(dialable, services, start, ops) && forall i :: 0 <= i < |ops| ==> Atomic(ops[i])
    ensures Agrees(dialable, Run(dialable, services, start, ops))
  {
    RunsStayInStep(dialable, services, start, ops, None);
  }

  // ---- Resets that are split ----

  /** Redirecting the instance of a reset that wrote earlier does no harm: there is none, one of the
      two strings is of no use to it, or both stand for the same upstream. */
  predicate RedirectIsHarmless(dialable: string -> bool, w: World, late: ResetWrite) {
    || late.id !in w.instances || late.id !in w.rows
    || var serviceType := w.instances[late.id].serviceType;
       var (reset, row) := (UpstreamFor(dialable, late.proxyStr, serviceType),
                            UpstreamFor(dialable, w.rows[late.id].proxyStr, serviceType));
       reset == None || row == None || reset == row
  }

  lemma RedirectAgreesExactly(dialable: string -> bool, w: World, late: ResetWrite)
    requires Safe(w) && InStep(dialable, w, Some(late))
    ensures Agrees(dialable, RedirectedIn(dialable, w, late.id, late.proxyStr).0) <==> RedirectIsHarmless(dialable, w, late)
  {
    hide UpstreamFor;
    var after := RedirectedIn(dialable, w, late.id, late.proxyStr).0;
    if late.id in w.instances {
      assert RowInStep(dialable, w.rows[late.id], w.instances[late.id], late.id, Some(late));
      assert Agrees(dialable, after) ==> RowInStep(dialable, after.rows[late.id], after.instances[late.id], late.id, None);
    }
  }

  /** The database writes of resets that fall before or into an operation. */
  function Writes(op: Op): seq<ResetWrite> {
    match op
    case Upsert(_, _, _, _, s) => s.before + s.after
    case Delete(_, s) => s.before
    case StartUp(_, _, during) => during
    case WriteOnly(write) => [write]
    case _ => []
  }

  /** The operation without them. */
  function Quiet(op: Op): Op {
    match op
    case Upsert(apiKey, serviceType, minTimeReset, found, s) =>
      Upsert(apiKey, serviceType, minTimeReset, found, s.(before := [], after := []))
    case Delete(id, s) => Delete(id, s.(before := []))
    case StartUp(ids, failing, _) => StartUp(ids, failing, [])
    case _ => op
  }

  /** The reset that is under way after a run, which has written its row but not redirected. */
  function UnderWay(ops: seq<Op>): Option<ResetWrite> {
    if ops == [] then None
    else
      var (earlier, op) := (ops[..|ops| - 1], ops[|ops| - 1]);
      if op.RedirectOnly? then None
      else if Writes(op) != [] then Some(Writes(op)[0])
      else UnderWay(earlier)
  }

  /** Resets come one after another, as one goroutine makes them: each writes its row, between the
      calls of the manager or within one, and later redirects its instance. */
  ghost predicate OneResetAtATime(ops: seq<Op>) {
    ops == [] ||
    var (earlier, op) := (ops[..|ops| - 1], ops[|ops| - 1]);
    && OneResetAtATime(earlier)
    && FollowsReset(UnderWay(earlier), op)
  }

  predicate FollowsReset(late: Option<ResetWrite>, op: Op) {
    match op
    case RedirectOnly(id, proxyStr) => late != None && late.value.id == id && late.value.proxyStr == proxyStr
    case _ => Writes(op) == [] || (late == None && |Writes(op)| == 1)
  }

  /** Every reset finds its redirect harmless when it comes to it. */
  ghost predicate RedirectsAreHarmless(dialable: string -> bool, services: set<string>, start: World, ops: seq<Op>) {
    ops == [] ||
    var (earlier, op) := (ops[..|ops| - 1], ops[|ops| - 1]);
    && RedirectsAreHarmless(dialable, services, start, earlier)
    && (op.RedirectOnly? && UnderWay(earlier) != None ==>
          RedirectIsHarmless(dialable, Run(dialable, services, start, earlier), UnderWay(earlier).value))
  }

  /** Rows and instances agreed whenever no reset was under way. */
  ghost predicate AgreesThroughout(dialable: string -> bool, services: set<string>, start: World, ops: seq<Op>) {
    && (UnderWay(ops) == None ==> Agrees(dialable, Run(dialable, services, start, ops)))
    && (ops != [] ==> AgreesThroughout(dialable, services, start, ops[..|ops| - 1]))
  }

  lemma {:induction false} StartIgnoresRows(dialable: string -> bool, w: World, rows: map<nat, Row>, loaded: map<nat, Row>, ids: seq<nat>, failing: set<nat>)
    ensures Started(dialable, w.(rows := rows), loaded, ids, failing) == Started(dialable, w, loaded, ids, failing).(rows := rows)
    ensures Started(dialable, w, loaded, ids, failing).rows == w.rows
  {
    hide UpstreamFor;
    if ids != [] {
      StartIgnoresRows(dialable, w, rows, loaded, ids[..|ids| - 1], failing);
    }
  }

  /** A reset's write within a call is one before the call, one after it, or not made. */
  ghost predicate WriteFallsOutside(dialable: string -> bool, services: set<string>, w: World, op: Op, write: ResetWrite) {
    var after := Step(dialable, services, w, op);
    || after == Step(dialable, services, w, Quiet(op))
    || after == Disturbed(Step(dialable, services, w, Quiet(op)), [write])
    || after == Step(dialable, services, Disturbed(w, [write]), Quiet(op))
  }

  lemma WriteBeforeInsert(dialable: string -> bool, w: World, apiKey: string, serviceType: string, minTimeReset: int,
                          s: Surroundings, write: ResetWrite)
    requires s.before == [write] && s.after == []
    ensures Inserted(dialable, w, apiKey, serviceType, minTimeReset, s).0
      == Inserted(dialable, Disturbed(w, [write]), apiKey, serviceType, minTimeReset, s.(before := [])).0
  {
    hide AllWritten, Created;
    NoWrites();
  }

  lemma WriteAfterInsert(dialable: string -> bool, w: World, apiKey: string, serviceType: string, minTimeReset: int,
                         s: Surroundings, write: ResetWrite)
    requires s.before == [] && s.after == [write]
    ensures var (after, quiet) := (Inserted(dialable, w, apiKey, serviceType, minTimeReset, s).0,
                                   Inserted(dialable, w, apiKey, serviceType, minTimeReset, s.(after := [])).0);
      after == quiet || after == Disturbed(quiet, [write])
  {
    hide AllWritten, Created;
    NoWrites();
    OneWriteEach(write);
  }

  lemma InsertWriteFallsOutside(dialable: string -> bool, w: World, apiKey: string, serviceType: string, minTimeReset: int,
                                s: Surroundings, write: ResetWrite)
    requires s.before + s.after == [write]
    ensures var (after, quiet) := (Inserted(dialable, w, apiKey, serviceType, minTimeReset, s).0, s.(before := [], after := []));
      || after == Inserted(dialable, w, apiKey, serviceType, minTimeReset, quiet).0
      || after == Disturbed(Inserted(dialable, w, apiKey, serviceType, minTimeReset, quiet).0, [write])
      || after == Inserted(dialable, Disturbed(w, [write]), apiKey, serviceType, minTimeReset, quiet).0
  {
    hide Inserted, AllWritten;
    if s.before == [] {
      WriteAfterInsert(dialable, w, apiKey, serviceType, minTimeReset, s, write);
    } else {
      assert s.before == [write] && s.after == [];
      WriteBeforeInsert(dialable, w, apiKey, serviceType, minTimeReset, s, write);
    }
  }

  lemma UpdateWriteFallsOutside(dialable: string -> bool, w: World, id: nat, minTimeReset: int, s: Surroundings, write: ResetWrite)
    requires s.before + s.after == [write]
    ensures var (after, quiet) := (Updated(dialable, w, id, minTimeReset, s).0, s.(before := [], after := []));
      || after == Updated(dialable, w, id, minTimeReset, quiet).0
      || after == Disturbed(Updated(dialable, w, id, minTimeReset, quiet).0, [write])
      || after == Updated(dialable, Disturbed(w, [write]), id, minTimeReset, quiet).0
  {
    hide UpstreamFor, AllWritten;
    NoWrites();
    OneWriteEach(write);
    assert (s.before == [write] && s.after == []) || (s.before == [] && s.after == [write]);
  }

  lemma NoWrites()
    ensures forall rows :: AllWritten(rows, []) == rows
  {
  }

  lemma OneWriteEach(write: ResetWrite)
    ensures forall rows :: AllWritten(rows, [write]) == Written(rows, write)
  {
    forall rows: map<nat, Row> ensures AllWritten(rows, [write]) == Written(rows, write) {
      OneWrite(rows, write);
    }
  }

  lemma WritesFallOutside(dialable: string -> bool, services: set<string>, w: World, op: Op, write: ResetWrite)
    requires Writes(op) == [write] && !op.WriteOnly?
    ensures WriteFallsOutside(dialable, services, w, op, write)
  {
    hide UpstreamFor, AllWritten, Inserted, Updated, Started;
    NoWrites();
    match op
    case Upsert(apiKey, serviceType, minTimeReset, found, s) =>
      InsertWriteFallsOutside(dialable, w, apiKey, serviceType, minTimeReset, s, write);
      if found != None {
        UpdateWriteFallsOutside(dialable, w, found.value, minTimeReset, s, write);
      }
    case Delete(id, s) =>
      OneWriteEach(write);
    case StartUp(ids, failing, during) =>
      StartIgnoresRows(dialable, w, Disturbed(w, [write]).rows, w.rows, ids, failing);
    case _ =>
  }

  lemma SplitStepStaysInStep(dialable: string -> bool, services: set<string>, w: World, late: Option<ResetWrite>, op: Op)
    requires Safe(w) && InStep(dialable, w, late) && FollowsReset(late, op)
    requires op.Upsert? ==> Finds(w.rows, op.apiKey, op.found)
    ensures var after := Step(dialable, services, w, op);
      if op.RedirectOnly? then Agrees(dialable, after) <==> RedirectIsHarmless(dialable, w, late.value)
      else InStep(dialable, after, if Writes(op) == [] then late else Some(Writes(op)[0]))
  {
    hide UpstreamFor, RedirectedIn, RedirectIsHarmless, Step, AllWritten;
    if op.RedirectOnly? {
      RedirectIsStep(dialable, services, w, op);
      RedirectAgreesExactly(dialable, w, late.value);
    } else if Writes(op) == [] {
      StepStaysInStep(dialable, services, w, op, late);
    } else {
      var write := Writes(op)[0];
      WriteStaysInStep(dialable, w, write);
      if op.WriteOnly? {
        WriteIsStep(dialable, services, w, op);
      } else {
        WritesFallOutside(dialable, services, w, op, write);
        DisturbedIsSafe(w, [write]);
        WritesKeepKeys(w.rows, [write]);
        StepStaysInStep(dialable, services, w, Quiet(op), None);
        StepStaysInStep(dialable, services, Disturbed(w, [write]), Quiet(op), Some(write));
        WriteStaysInStep(dialable, Step(dialable, services, w, Quiet(op)), write);
      }
    }
  }

  lemma RedirectIsStep(dialable: string -> bool, services: set<string>, w: World, op: Op)
    ensures op.RedirectOnly? ==> Step(dialable, services, w, op) == RedirectedIn(dialable, w, op.id, op.proxyStr).0
  {
  }

  lemma WriteIsStep(dialable: string -> bool, services: set<string>, w: World, op: Op)
    ensures op.WriteOnly? ==> Step(dialable, services, w, op) == Disturbed(w, [op.write])
  {
  }

  /** A reset's write keeps the others in step and begins its own reset. */
  lemma WriteStaysInStep(dialable: string -> bool, w: World, write: ResetWrite)
    requires InStep(dialable, w, None)
    ensures InStep(dialable, w, Some(write)) && InStep(dialable, Disturbed(w, [write]), Some(write))
  {
    hide UpstreamFor;
    OneWrite(w.rows, write);
    forall id <- w.instances | id in w.rows ensures RowAgrees(dialable, w.rows[id], w.instances[id]) {
      assert RowInStep(dialable, w.rows[id], w.instances[id], id, None);
    }
  }

  lemma {:induction false} HarmlessRunsStayInStep(dialable: string -> bool, services: set<string>, start: World, ops: seq<Op>)
    requires Safe(start) && Agrees(dialable, start) && Answered(dialable, services, start, ops) && OneResetAtATime(ops)
    requires RedirectsAreHarmless(dialable, services, start, ops)
    ensures InStep(dialable, Run(dialable, services, start, ops), UnderWay(ops))
    ensures AgreesThroughout(dialable, services, start, ops)
  {
    hide Step, InStep, RedirectIsHarmless;
    if ops != [] {
      var (earlier, op) := (ops[..|ops| - 1], ops[|ops| - 1]);
      HarmlessRunsStayInStep(dialable, services, start, earlier);
      RunsAreSafe(dialable, services, start, earlier);
      SplitStepStaysInStep(dialable, services, Run(dialable, services, start, earlier), UnderWay(earlier), op);
    }
  }

  lemma {:induction false} AgreeingRunsAreHarmless(dialable: string -> bool, services: set<string>, start: World, ops: seq<Op>)
    requires Safe(start) && Agrees(dialable, start) && Answered(dialable, services, start, ops) && OneResetAtATime(ops)
    requires AgreesThroughout(dialable, services, start, ops)
    ensures RedirectsAreHarmless(dialable, services, start, ops)
  {
    hide Step, InStep, RedirectIsHarmless;
    if ops != [] {
      var (earlier, op) := (ops[..|ops| - 1], ops[|ops| - 1]);
      AgreeingRunsAreHarmless(dialable, services, start, earlier);
      HarmlessRunsStayInStep(dialable, services, start, earlier);
      RunsAreSafe(dialable, services, start, earlier);
      SplitStepStaysInStep(dialable, services, Run(dialable, services, start, earlier), UnderWay(earlier), op);
    }
  }

  /** Wherever a reset's write falls among and within the other calls, and its redirect between
      them, rows and instances agree whenever no reset is under way, all through a run, exactly when
      every reset finds its redirect harmless. */
  lemma {:induction false} SplitResetsAgreeExactly(dialable: string -> bool, services: set<string>, start: World, ops: seq<Op>)
    requires Safe(start) && Agrees(dialable, start) && Answered(dialable, services, start, ops) && OneResetAtATime(ops)
    ensures AgreesThroughout(dialable, services, start, ops) <==> RedirectsAreHarmless(dialable, services, start, ops)
  {
    if AgreesThroughout(dialable, services, start, ops) {
      AgreeingRunsAreHarmless(dialable, services, start, ops);
    }
    if RedirectsAreHarmless(dialable, services, start, ops) {
      HarmlessRunsStayInStep(dialable, services, start, ops);
    }
  }

  lemma OneMore(dialable: string -> bool, services: set<string>, start: World, ops: seq<Op>, op: Op)
    requires Answered(dialable, services, start, ops)
    requires op.Upsert? ==> Finds(Run(dialable, services, start, ops).rows, op.apiKey, op.found)
    ensures Answered(dialable, services, start, ops + [op])
    ensures Run(dialable, services, start, ops + [op]) == Step(dialable, services, Run(dialable, services, start, ops), op)
  {
    assert (ops + [op])[..|ops|] == ops;
  }

  const UNDISTURBED: Surroundings :=
    Surroundings(0, Service(None, 0, None), false, false, false, false, false, false, false, [], [])

  function Serving(proxyStr: string): Surroundings {
    UNDISTURBED.(service := Service(Some(proxyStr), 0, None))
  }

  predicate EveryDialable(url: string) {
    true
  }

  const KIOT: string := "kiotproxy"

  lemma KiotUpstream(host: string, port: string)
    requires ':' !in host && ':' !in port
    ensures UpstreamFor(EveryDialable, host + ":" + port, KIOT) == Some("http://" + host + ":" + port)
  {
    assert Joined([host, port]) == host + ":" + port;
    ParsesExactly(host + ":" + port, KIOT, [host, port]);
  }

  /** The database and the instances of a manager that has this one key. */
  function OneKey(proxyStr: string, upstream: string): World {
    World(map[0 := Row(proxyStr, "key", KIOT, 60, 0)], map[0 := Instance(KIOT, upstream)], 1)
  }

  lemma OneKeyIsInserted(host: string, port: string)
    requires ':' !in host && ':' !in port
    ensures Step(EveryDialable, {KIOT}, World(map[], map[], 0), Upsert("key", KIOT, 60, None, Serving(host + ":" + port)))
      == OneKey(host + ":" + port, "http://" + host + ":" + port)
  {
    KiotUpstream(host, port);
    hide UpstreamFor;
  }

  lemma OneKeyIsUpdated(before: string, upstream: string, host: string, port: string)
    requires ':' !in host && ':' !in port
    ensures Step(EveryDialable, {KIOT}, OneKey(before, upstream), Upsert("key", KIOT, 60, Some(0), Serving(host + ":" + port)))
      == OneKey(host + ":" + port, "http://" + host + ":" + port)
  {
    KiotUpstream(host, port);
    hide UpstreamFor;
  }

  /** Over an empty database: a proxy is inserted, a reset writes its row, an upsert replaces both the
      string and the upstream, and the reset then redirects the instance. */
  lemma SplitResetDisagrees()
    ensures var start := World(map[], map[], 0);
      var ops := [Upsert("key", KIOT, 60, None, Serving("1" + ":" + "1")), WriteOnly(ResetWrite(0, "2" + ":" + "2", 0)),
                  Upsert("key", KIOT, 60, Some(0), Serving("3" + ":" + "3")), RedirectOnly(0, "2" + ":" + "2")];
      Safe(start) && Answered(EveryDialable, {KIOT}, start, ops) && !Agrees(EveryDialable, Run(EveryDialable, {KIOT}, start, ops))
  {
    hide Split, Joined, UpstreamFor, Step, Run, Answered, Agrees, Finds, OneKey;
    var start := World(map[], map[], 0);
    var (insert, write) := (Upsert("key", KIOT, 60, None, Serving("1" + ":" + "1")), WriteOnly(ResetWrite(0, "2" + ":" + "2", 0)));
    var (update, redirect) := (Upsert("key", KIOT, 60, Some(0), Serving("3" + ":" + "3")), RedirectOnly(0, "2" + ":" + "2"));
    var none: seq<Op> := [];
    NothingRuns(start);
    OneMore(EveryDialable, {KIOT}, start, none, insert);
    OneKeyIsInserted("1", "1");
    OneMore(EveryDialable, {KIOT}, start, none + [insert], write);
    OneKeyIsReset("1" + ":" + "1", "http://" + "1" + ":" + "1", "2" + ":" + "2");
    OneKeyIsUpdated("2" + ":" + "2", "http://" + "1" + ":" + "1", "3", "3");
    OneMore(EveryDialable, {KIOT}, start, none + [insert] + [write], update);
    OneMore(EveryDialable, {KIOT}, start, none + [insert] + [write] + [update], redirect);
    assert none + [insert] + [write] + [update] + [redirect] == [insert, write, update, redirect];
    OneKeyIsRedirectedAway();
  }

  lemma NothingRuns(start: World)
    requires start == World(map[], map[], 0)
    ensures Safe(start) && Answered(EveryDialable, {KIOT}, start, []) && Run(EveryDialable, {KIOT}, start, []) == start
    ensures Finds(start.rows, "key", None)
    ensures forall proxyStr, upstream :: Finds(OneKey(proxyStr, upstream).rows, "key", Some(0))
  {
  }

  lemma OneKeyIsReset(before: string, upstream: string, proxyStr: string)
    ensures Step(EveryDialable, {KIOT}, OneKey(before, upstream), WriteOnly(ResetWrite(0, proxyStr, 0))) == OneKey(proxyStr, upstream)
  {
    OneWrite(OneKey(before, upstream).rows, ResetWrite(0, proxyStr, 0));
  }

  lemma OneKeyIsRedirectedAway()
    ensures var w := OneKey("3" + ":" + "3", "http://" + "3" + ":" + "3");
      !Agrees(EveryDialable, Step(EveryDialable, {KIOT}, w, RedirectOnly(0, "2" + ":" + "2")))
  {
    KiotUpstream("2", "2");
    KiotUpstream("3", "3");
    assert ("http://" + "2" + ":" + "2")[7] != ("http://" + "3" + ":" + "3")[7];
    hide UpstreamFor;
    var w := OneKey("3" + ":" + "3", "http://" + "3" + ":" + "3");
    var after := Step(EveryDialable, {KIOT}, w, RedirectOnly(0, "2" + ":" + "2"));
    assert !RowInStep(EveryDialable, after.rows[0], after.instances[0], 0, None);
  }

  // ---- What single calls do ----

  /** An instance can be made exactly if its string has the parts its service asks for, a dialer can
      be made for the address they give, and authentication and listening do not fail. */
  lemma {:induction false} CreatedExactly(dialable: string -> bool, parts: seq<string>, serviceType: string, authFails: bool, listenFails: bool)
    requires ColonFree(parts)
    ensures var address :=
        if serviceType == "tmproxy" && |parts| == 4 then Some("http://" + parts[2] + ":" + parts[3] + "@" + parts[0] + ":" + parts[1])
        else if serviceType == "kiotproxy" && |parts| == 2 then Some("http://" + parts[0] + ":" + parts[1])
        else None;
      && UpstreamFor(dialable, Joined(parts), serviceType) == (if address != None && dialable(address.value) then address else None)
      && Created(dialable, Joined(parts), serviceType, authFails, listenFails)
         == if address != None && dialable(address.value) && !authFails && !listenFails
            then Some(Instance(serviceType, address.value)) else None
  {
    ParsesExactly(Joined(parts), serviceType, parts);
    hide ParseProxyStr;
  }

  /** The service has a proxy for the key. */
  predicate Answers(s: Service) {
    s.current != None || s.renewed != None
  }

  /** The string it gives: the current one, or else a new one. */
  function Given(s: Service): string
    requires Answers(s)
  {
    if s.current != None then s.current.value else s.renewed.value
  }

  /** An upsert succeeds exactly if nothing it needs fails: the service is known and answers, the
      search and the write go through, and for a new key the id is read and the instance made, for a
      known one the string is usable by the instance, if it runs, and the row is read back. A new
      instance serves what was fetched. */
  lemma {:induction false} UpsertSucceedsExactly(dialable: string -> bool, services: set<string>, w: World, apiKey: string,
                                                 serviceType: string, minTimeReset: int, found: Option<nat>, s: Surroundings)
    requires Safe(w) && Finds(w.rows, apiKey, found)
    ensures var (after, ok) := Upserted(dialable, services, w, apiKey, serviceType, minTimeReset, found, s);
      && (ok <==>
            && serviceType in services && !s.queryFails && Answers(s.service) && !s.writeFails
            && match found
               case None => !s.idFails && Created(dialable, Given(s.service), serviceType, s.authFails, s.listenFails) != None
               case Some(id) =>
                 && !s.readFails
                 && (id in w.instances ==> UpstreamFor(dialable, Given(s.service), w.instances[id].serviceType) != None))
      && (ok && found == None ==>
            after.instances == w.instances[w.nextId := Created(dialable, Given(s.service), serviceType, s.authFails, s.listenFails).value])
      && (ok && found != None && found.value in w.instances ==>
            after.instances == w.instances[found.value := w.instances[found.value].(upstream :=
              UpstreamFor(dialable, Given(s.service), w.instances[found.value].serviceType).value)])
      && (!(serviceType in services && !s.queryFails) ==> after == w)
  {
    hide UpstreamFor, Created, AllWritten;
  }

  /** The row is there and says what was fetched, as later resets have left it. */
  ghost predicate SaysAndServes(after: World, id: nat, apiKey: string, serviceType: string, minTimeReset: int, s: Surroundings) {
    exists row: Row :: Wrote(after, id, row, apiKey, minTimeReset, s) && row.serviceType == serviceType
  }

  /** What an insert leaves behind, whatever fails: without an answer of the service or the write, only
      the resets' writes; else a new id, whose row stays unless no instance could be made and the row
      could be taken back, and whose instance is there exactly if the insert succeeds. Other rows have
      all the resets' writes and nothing else. */
  lemma {:induction false} InsertLeaves(dialable: string -> bool, w: World, apiKey: string, serviceType: string, minTimeReset: int,
                                        s: Surroundings, other: nat)
    requires Safe(w)
    ensures var (after, ok) := Inserted(dialable, w, apiKey, serviceType, minTimeReset, s);
      if !Answers(s.service) || s.writeFails then after == Disturbed(w, s.before)
      else
        var made := Created(dialable, Given(s.service), serviceType, s.authFails, s.listenFails);
        && after.nextId == w.nextId + 1
        && after.instances == (if ok then w.instances[w.nextId := made.value] else w.instances)
        && (w.nextId in after.rows <==> s.idFails || made != None || s.rollbackFails)
        && (w.nextId in after.rows ==> SaysAndServes(after, w.nextId, apiKey, serviceType, minTimeReset, s))
        && (other != w.nextId ==> (other in after.rows <==> other in w.rows))
        && (other in w.rows ==> after.rows[other] == RowWritten(RowWritten(w.rows[other], other, s.before), other, s.after))
  {
    hide UpstreamFor, AllWritten, RowWritten, Created;
    WritesAreRowByRow(w.rows, s.before);
    if Answers(s.service) {
      var (proxyStr, lastResetAt) := Fetched(s.service, s.now).value;
      var row := Row(proxyStr, apiKey, serviceType, minTimeReset, lastResetAt);
      WritesAreRowByRow(AllWritten(w.rows, s.before)[w.nextId := row], s.after);
      var after := Inserted(dialable, w, apiKey, serviceType, minTimeReset, s).0;
      assert !s.writeFails && w.nextId in after.rows ==> Wrote(after, w.nextId, row, apiKey, minTimeReset, s);
    }
  }

  /** A redirect changes the upstream of the one instance, if there is one and the string is of use. */
  lemma RedirectDoes(dialable: string -> bool, w: World, id: nat, proxyStr: string)
    ensures RedirectedIn(dialable, w, id, proxyStr).0 ==
      if id in w.instances && UpstreamFor(dialable, proxyStr, w.instances[id].serviceType) != None then
        var upstream := UpstreamFor(dialable, proxyStr, w.instances[id].serviceType).value;
        w.(instances := w.instances[id := w.instances[id].(upstream := upstream)])
      else w
  {
    hide UpstreamFor;
    if id in w.instances {
      assert w.instances[id := w.instances[id]] == w.instances;
    }
  }

  /** What an update leaves behind, whatever fails: without an answer of the service or the write, only
      the resets' writes; else the row says what was fetched, and the instance is redirected if there
      is one and the string is of use to it. */
  lemma {:induction false} UpdateLeaves(dialable: string -> bool, w: World, id: nat, minTimeReset: int, s: Surroundings, other: nat)
    requires Safe(w) && id in w.rows
    ensures var after := Updated(dialable, w, id, minTimeReset, s).0;
      if !Answers(s.service) || s.writeFails then after == Disturbed(w, s.before)
      else
        && after.nextId == w.nextId && after.rows.Keys == w.rows.Keys
        && SaysAndServes(after, id, w.rows[id].apiKey, w.rows[id].serviceType, minTimeReset, s)
        && (other in w.rows && other != id ==>
              after.rows[other] == RowWritten(RowWritten(w.rows[other], other, s.before), other, s.after))
        && after.instances ==
           if id in w.instances && UpstreamFor(dialable, Given(s.service), w.instances[id].serviceType) != None then
             var upstream := UpstreamFor(dialable, Given(s.service), w.instances[id].serviceType).value;
             w.instances[id := w.instances[id].(upstream := upstream)]
           else w.instances
  {
    hide UpstreamFor, AllWritten, RowWritten, RedirectedIn, Wrote;
    WritesAreRowByRow(w.rows, s.before);
    WritesKeepKeys(w.rows, s.before);
    if Answers(s.service) {
      var (proxyStr, lastResetAt) := Fetched(s.service, s.now).value;
      var rows := AllWritten(w.rows, s.before);
      var row := rows[id].(proxyStr := proxyStr, minTimeReset := minTimeReset, lastResetAt := lastResetAt);
      WritesAreRowByRow(rows[id := row], s.after);
      var written := Disturbed(w.(rows := rows[id := row]), s.after);
      RedirectDoes(dialable, written, id, proxyStr);
      assert Wrote(RedirectedIn(dialable, written, id, proxyStr).0, id, row, w.rows[id].apiKey, minTimeReset, s) by {
        RowIsWritten(written, RedirectedIn(dialable, written, id, proxyStr).0, id, row, minTimeReset, s);
      }
    }
  }

  lemma RowIsWritten(written: World, after: World, id: nat, row: Row, minTimeReset: int, s: Surroundings)
    requires Answers(s.service) && (row.proxyStr, row.lastResetAt) == Fetched(s.service, s.now).value && row.minTimeReset == minTimeReset
    requires after.rows == written.rows && id in written.rows && written.rows[id] == RowWritten(row, id, s.after)
    ensures Wrote(after, id, row, row.apiKey, minTimeReset, s)
  {
    hide RowWritten;
  }

  /** A delete stops the instance in any case, and removes the row exactly if the database lets it;
      other rows change by resets only, other instances not at all. */
  lemma {:induction false} DeleteRemoves(w: World, id: nat, s: Surroundings, other: nat)
    ensures var (after, ok) := Deleted(w, id, s);
      && ok == !s.writeFails && id !in after.instances && after.nextId == w.nextId
      && (id in after.rows <==> id in w.rows && !ok)
      && (other != id ==> (other in after.rows <==> other in w.rows) && (other in after.instances <==> other in w.instances))
      && (other != id && other in w.rows ==> after.rows[other] == RowWritten(w.rows[other], other, s.before))
      && (other != id && other in w.instances ==> after.instances[other] == w.instances[other])
  {
    WritesAreRowByRow(w.rows, s.before);
    hide AllWritten, RowWritten;
  }

  /** A reset that goes through has written its string and its time to its row, and redirects the
      instance if there is one and the string is usable for it; nothing else changes. */
  lemma {:induction false} ResetTakesEffect(dialable: string -> bool, w: World, write: ResetWrite, other: nat)
    requires Safe(w)
    ensures var (after, ok) := Reset(dialable, w, write);
      && after.rows.Keys == w.rows.Keys && after.instances.Keys == w.instances.Keys && after.nextId == w.nextId
      && (write.id in w.rows ==> after.rows[write.id] == w.rows[write.id].(proxyStr := write.proxyStr, lastResetAt := write.at))
      && (other != write.id && other in w.rows ==> after.rows[other] == w.rows[other])
      && (other != write.id && other in w.instances ==> after.instances[other] == w.instances[other])
      && (ok <==> write.id in w.instances && UpstreamFor(dialable, write.proxyStr, w.instances[write.id].serviceType) != None)
      && (write.id in w.instances && !ok ==> after.instances[write.id] == w.instances[write.id])
      && (write.id in w.instances && ok ==>
            var upstream := UpstreamFor(dialable, write.proxyStr, w.instances[write.id].serviceType);
            after.instances[write.id] == w.instances[write.id].(upstream := upstream.value))
  {
    OneWrite(w.rows, write);
    hide UpstreamFor, AllWritten;
  }

  // ---- What the last call of a run leaves ----

  /** After every run: a delete has stopped the instance, and removed the row unless the database
      failed; a shutdown has stopped all; a start has started every row whose instance can be made;
      and a whole reset has written its row. */
  lemma {:induction false} LastCallTakesEffect(dialable: string -> bool, services: set<string>, start: World, ops: seq<Op>, op: Op)
    ensures var (w, z) := (Run(dialable, services, start, ops), Run(dialable, services, start, ops + [op]));
      match op
      case Delete(id, s) => id !in z.instances && (id in z.rows <==> id in w.rows && s.writeFails)
      case ShutDown => z.instances == map[] && z.rows == w.rows
      case StartUp(ids, failing, during) =>
        && z.rows == AllWritten(w.rows, during)
        && forall id <- ids :: id in w.rows ==> StartedOrKept(dialable, w.rows[id], id, failing, w.instances, z.instances)
      case WholeReset(write) => write.id in w.rows ==>
        write.id in z.rows && z.rows[write.id] == w.rows[write.id].(proxyStr := write.proxyStr, lastResetAt := write.at)
      case _ => true
  {
    var w := Run(dialable, services, start, ops);
    assert (ops + [op])[..|ops|] == ops;
    match op
    case Delete(id, s) => DeleteRemoves(w, id, s, id);
    case StartUp(ids, failing, during) =>
      StartWritesNothing(dialable, Disturbed(w, during), w.rows, ids, failing);
      forall id | id in ids && id in w.rows ensures StartedOrKept(dialable, w.rows[id], id, failing, w.instances,
                                                                  Started(dialable, Disturbed(w, during), w.rows, ids, failing).instances) {
        EveryRowIsStarted(dialable, Disturbed(w, during), w.rows, ids, failing, id);
      }
    case WholeReset(write) => OneWrite(w.rows, write);
    case _ =>
    hide AllWritten, UpstreamFor, Created;
  }

  lemma {:induction false} StartWritesNothing(dialable: string -> bool, w: World, loaded: map<nat, Row>, ids: seq<nat>, failing: set<nat>)
    ensures Started(dialable, w, loaded, ids, failing).rows == w.rows
  {
    hide Created;
    if ids != [] {
      StartWritesNothing(dialable, w, loaded, ids[..|ids| - 1], failing);
    }
  }
}
