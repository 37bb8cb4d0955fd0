/**
 The manager's agent table: how state reports from daemons and operations by users change its rows,
 and what a row says about the whole history.
 */
module AgentTable {
  import opened Options

  /** One row; the zero heartbeat of a row never reported is `None`. */
  datatype Row = Row(kind: string, version: string, status: string, pid: int, lastHeartbeat: Option<int>, lastSync: int)

  datatype Key = Key(node: string, agent: string)

  type Table = map<Key, Row>

  /** One agent state as a daemon reports it; empty strings and zeros mean "not known". */
  datatype Report = Report(agentId: string, status: string, pid: int, lastHeartbeat: int, kind: string, version: string)

  function Heartbeat(r: Report): Option<int> {
    if r.lastHeartbeat > 0 then Some(r.lastHeartbeat) else None
  }

  // ---- The effect of a sync on the table ----

  function Created(r: Report, now: int): Row {
    Row(r.kind, r.version, if r.status == "" then "stopped" else r.status, r.pid, Heartbeat(r), now)
  }

  /** Only what the report knows overwrites the row. */
  function Refreshed(row: Row, r: Report, now: int): Row {
    Row(if r.kind != "" then r.kind else row.kind,
        if r.version != "" then r.version else row.version,
        if r.status != "" then r.status else row.status,
        if r.pid != 0 then r.pid else row.pid,
        if r.lastHeartbeat > 0 then Heartbeat(r) else row.lastHeartbeat,
        now)
  }

  function SyncOne(t: Table, node: string, r: Report, now: int): Table {
    var key := Key(node, r.agentId);
    if r.agentId == "" then t
    else t[key := if key in t then Refreshed(t[key], r, now) else Created(r, now)]
  }

  function SyncAll(t: Table, node: string, reports: seq<Report>, now: int): Table {
    if reports == [] then t
    else SyncOne(SyncAll(t, node, reports[..|reports| - 1], now), node, reports[|reports| - 1], now)
  }

  // ---- The effect of a successful operation ----

  function ExpectedStatus(operation: string): string {
    if operation == "start" || operation == "restart" then "running"
    else if operation == "stop" then "stopped"
    else ""
  }

  predicate ValidOperation(operation: string) {
    operation in {"start", "stop", "restart"}
  }

  function Operated(t: Table, key: Key, operation: string, now: int): Table {
    if key !in t || !ValidOperation(operation) then t
    else t[key := t[key].(status := ExpectedStatus(operation), lastSync := now,
                          pid := if operation == "stop" then 0 else t[key].pid)]
  }

  // ---- Histories ----

  datatype Event =
    | Sync(node: string, reports: seq<Report>, now: int)
    | Operate(key: Key, operation: string, now: int)  // the daemon has carried it out

  function Apply(t: Table, e: Event): Table {
    match e
    case Sync(node, reports, now) => if node == "" then t else SyncAll(t, node, reports, now)
    case Operate(key, operation, now) => Operated(t, key, operation, now)
  }

  function After(history: seq<Event>): Table {
    if history == [] then map[] else Apply(After(history[..|history| - 1]), history[|history| - 1])
  }

  /** What a history says about one row, in order. */
  datatype Fact = Reported(report: Report, now: int) | Did(operation: string, now: int)

  function FactsOfReports(reports: seq<Report>, agent: string, now: int): seq<Fact> {
    if reports == [] then []
    else
      var last := reports[|reports| - 1];
      FactsOfReports(reports[..|reports| - 1], agent, now)
      + if last.agentId == agent && agent != "" then [Reported(last, now)] else []
  }

  function FactsOfEvent(e: Event, key: Key): seq<Fact> {
    match e
    case Sync(node, reports, now) =>
      if node == key.node && node != "" then FactsOfReports(reports, key.agent, now) else []
    case Operate(k, operation, now) =>
      if k == key && operation in {"start", "stop", "restart"} then [Did(operation, now)] else []
  }

  function Facts(history: seq<Event>, key: Key): seq<Fact> {
    if history == [] then []
    else Facts(history[..|history| - 1], key) + FactsOfEvent(history[|history| - 1], key)
  }

  predicate Known(facts: seq<Fact>) {
    exists i :: 0 <= i < |facts| && facts[i].Reported?
  }

  /** The last non-empty status reported or implied by an operation on a known agent, else "stopped". */
  function LastStatus(facts: seq<Fact>): string {
    if facts == [] then "stopped"
    else
      var before := facts[..|facts| - 1];
      match facts[|facts| - 1]
      case Reported(r, _) => if r.status != "" then r.status else LastStatus(before)
      case Did(operation, _) =>
        if !Known(before) then LastStatus(before) else if operation == "stop" then "stopped" else "running"
  }

  /** The last non-zero PID reported since the last stop, else 0. */
  function LastPid(facts: seq<Fact>): int {
    if facts == [] then 0
    else
      var before := facts[..|facts| - 1];
      match facts[|facts| - 1]
      case Reported(r, _) => if r.pid != 0 then r.pid else LastPid(before)
      case Did(operation, _) => if operation == "stop" then 0 else LastPid(before)
  }

  function LastKind(facts: seq<Fact>): string {
    if facts == [] then ""
    else
      var last := facts[|facts| - 1];
      if last.Reported? && last.report.kind != "" then last.report.kind else LastKind(facts[..|facts| - 1])
  }

  function LastVersion(facts: seq<Fact>): string {
    if facts == [] then ""
    else
      var last := facts[|facts| - 1];
      if last.Reported? && last.report.version != "" then last.report.version else LastVersion(facts[..|facts| - 1])
  }

  function LastHeartbeat(facts: seq<Fact>): Option<int> {
    if facts == [] then None
    else
      var last := facts[|facts| - 1];
      if last.Reported? && last.report.lastHeartbeat > 0 then Some(last.report.lastHeartbeat)
      else LastHeartbeat(facts[..|facts| - 1])
  }

  function RowOf(facts: seq<Fact>): Option<Row> {
    if !Known(facts) then None
    else Some(Row(LastKind(facts), LastVersion(facts), LastStatus(facts), LastPid(facts), LastHeartbeat(facts),
                  facts[|facts| - 1].now))
  }

  function RowAt(t: Table, key: Key): Option<Row> {
    if key in t then Some(t[key]) else None
  }

  /** Before the first report nothing is known, whatever operations were tried. */
  lemma {:induction false} UnknownIsBlank(facts: seq<Fact>)
    requires !Known(facts)
    ensures LastStatus(facts) == "stopped" && LastPid(facts) == 0
    ensures LastKind(facts) == "" && LastVersion(facts) == "" && LastHeartbeat(facts) == None
  {
    if facts != [] {
      var before := facts[..|facts| - 1];
      assert forall i :: 0 <= i < |before| ==> before[i] == facts[i];
      assert facts[|facts| - 1].Did?;
      UnknownIsBlank(before);
    }
  }

  lemma KnownAppend(facts: seq<Fact>, f: Fact)
    ensures Known(facts + [f]) <==> Known(facts) || f.Reported?
    ensures (facts + [f])[..|facts|] == facts
  {
    var all := facts + [f];
    assert all[|facts|] == f;
    if i :| 0 <= i < |facts| && facts[i].Reported? {
      assert all[i] == facts[i];
    }
  }

  lemma SyncOneFollows(t: Table, node: string, r: Report, now: int, key: Key, facts: seq<Fact>)
    requires RowAt(t, key) == RowOf(facts)
    ensures RowAt(SyncOne(t, node, r, now), key)
            == RowOf(facts + if node == key.node && r.agentId == key.agent && key.agent != "" then [Reported(r, now)]
                             else [])
  {
    assert facts + [] == facts;
    if node == key.node && r.agentId == key.agent && key.agent != "" {
      KnownAppend(facts, Reported(r, now));
      if !Known(facts) {
        UnknownIsBlank(facts);
      }
    }
  }

  lemma {:induction false} SyncAllFollows(t: Table, node: string, reports: seq<Report>, now: int,
                                          key: Key, facts: seq<Fact>)
    requires RowAt(t, key) == RowOf(facts)
    ensures RowAt(SyncAll(t, node, reports, now), key)
            == RowOf(facts + if node == key.node then FactsOfReports(reports, key.agent, now) else [])
  {
    if reports == [] {
      assert facts + [] == facts;
    } else {
      var before, last := reports[..|reports| - 1], reports[|reports| - 1];
      SyncAllFollows(t, node, before, now, key, facts);
      var facts1 := facts + if node == key.node then FactsOfReports(before, key.agent, now) else [];
      SyncOneFollows(SyncAll(t, node, before, now), node, last, now, key, facts1);
      var mine := node == key.node && last.agentId == key.agent && key.agent != "";
      var latest := if mine then [Reported(last, now)] else [];
      assert facts1 + latest == facts + if node == key.node then FactsOfReports(reports, key.agent, now) else [];
    }
  }

  lemma OperatedFollows(t: Table, key: Key, operation: string, now: int, k: Key, facts: seq<Fact>)
    requires RowAt(t, key) == RowOf(facts)
    ensures RowAt(Operated(t, k, operation, now), key)
            == RowOf(facts + if k == key && ValidOperation(operation) then [Did(operation, now)] else [])
  {
    assert facts + [] == facts;
    KnownAppend(facts, Did(operation, now));
  }

  /** Every row is a fixed function of what the history said about it. */
  lemma {:induction false} RowIsFunctionOfHistory(history: seq<Event>, key: Key)
    ensures RowAt(After(history), key) == RowOf(Facts(history, key))
  {
    if history != [] {
      var before := history[..|history| - 1];
      RowIsFunctionOfHistory(before, key);
      var t, facts := After(before), Facts(before, key);
      match history[|history| - 1] {
        case Sync(node, reports, now) =>
          SyncAllFollows(t, node, reports, now, key, facts);
          assert facts + [] == facts;
        case Operate(k, operation, now) =>
          OperatedFollows(t, key, operation, now, k, facts);
      }
    }
  }

  // ---- Batching and isolation ----

  lemma {:induction false} SyncAppend(t: Table, node: string, xs: seq<Report>, ys: seq<Report>, now: int)
    ensures SyncAll(SyncAll(t, node, xs, now), node, ys, now) == SyncAll(t, node, xs + ys, now)
  {
    if ys == [] {
      assert xs + ys == xs;
    } else {
      SyncAppend(t, node, xs, ys[..|ys| - 1], now);
      assert (xs + ys)[..|xs + ys| - 1] == xs + ys[..|ys| - 1];
    }
  }

  function Timeless(t: Table): Table {
    map key | key in t :: t[key].(lastSync := 0)
  }

  lemma TimelessSyncOne(t: Table, node: string, r: Report, now: int)
    ensures Timeless(SyncOne(t, node, r, now)) == SyncOne(Timeless(t), node, r, 0)
  {
    assert Timeless(SyncOne(t, node, r, now)).Keys == SyncOne(Timeless(t), node, r, 0).Keys;
  }

  lemma {:induction false} TimelessSync(t: Table, node: string, reports: seq<Report>, now: int)
    ensures Timeless(SyncAll(t, node, reports, now)) == SyncAll(Timeless(t), node, reports, 0)
  {
    if reports != [] {
      TimelessSync(t, node, reports[..|reports| - 1], now);
      TimelessSyncOne(SyncAll(t, node, reports[..|reports| - 1], now), node, reports[|reports| - 1], now);
    }
  }

  /** Two syncs in a row equal one sync of both lists, apart from the sync times. */
  lemma SyncsCombine(t: Table, node: string, xs: seq<Report>, ys: seq<Report>, now: int, later: int, once: int)
    ensures Timeless(SyncAll(SyncAll(t, node, xs, now), node, ys, later)) == Timeless(SyncAll(t, node, xs + ys, once))
  {
    TimelessSync(t, node, xs, now);
    TimelessSync(SyncAll(t, node, xs, now), node, ys, later);
    TimelessSync(t, node, xs + ys, once);
    SyncAppend(Timeless(t), node, xs, ys, 0);
  }

  lemma {:induction false} OtherRowsUntouched(t: Table, node: string, reports: seq<Report>, now: int, key: Key)
    requires key.node != node || forall i :: 0 <= i < |reports| ==> reports[i].agentId != key.agent
    ensures RowAt(SyncAll(t, node, reports, now), key) == RowAt(t, key)
  {
    if reports != [] {
      OtherRowsUntouched(t, node, reports[..|reports| - 1], now, key);
    }
  }

  // ---- The repository and the service ----

  /** An update of one row: zero values are not written. */
  datatype Patch = Patch(
    key: Key, status: string, pid: int, kind: string, version: string, lastHeartbeat: Option<int>, lastSync: int)

  class AgentRepository {
    var rows: Table

    constructor ()
      ensures rows == map[]
    {
      rows := map[];
    }

    method Create(key: Key, row: Row)
      modifies this
      ensures rows == old(rows)[key := row]
    {
      rows := rows[key := row];
    }

    method Update(p: Patch) returns (found: bool)
      modifies this
      ensures found == (p.key in old(rows))
      ensures !found ==> rows == old(rows)
      ensures found ==>
                var row := old(rows)[p.key];
                rows == old(rows)[p.key := Row(
                  if p.kind != "" then p.kind else row.kind,
                  if p.version != "" then p.version else row.version,
                  if p.status != "" then p.status else row.status,
                  if p.pid != 0 then p.pid else row.pid,
                  if p.lastHeartbeat.Some? then p.lastHeartbeat else row.lastHeartbeat,
                  p.lastSync)]
    {
      if p.key !in rows {
        return false;
      }
      var row := rows[p.key].(lastSync := p.lastSync);
      if p.status != "" {
        row := row.(status := p.status);
      }
      if p.pid != 0 {
        row := row.(pid := p.pid);
      }
      if p.kind != "" {
        row := row.(kind := p.kind);
      }
      if p.version != "" {
        row := row.(version := p.version);
      }
      if p.lastHeartbeat.Some? {
        row := row.(lastHeartbeat := p.lastHeartbeat);
      }
      rows := rows[p.key := row];
      return true;
    }

    method ClearPID(key: Key)
      modifies this
      ensures rows == if key in old(rows) then old(rows)[key := old(rows)[key].(pid := 0)] else old(rows)
    {
      if key in rows {
        rows := rows[key := rows[key].(pid := 0)];
      }
    }
  }

  datatype ServiceError = InvalidParams | NodeNotFound | AgentNotFound | DaemonUnreachable | DaemonFailed

  datatype Outcome = Done | Failed(error: ServiceError)

  class AgentService {
    const repo: AgentRepository

    constructor (repo: AgentRepository)
      ensures this.repo == repo
    {
      this.repo := repo;
    }

    method SyncReport(node: string, r: Report, now: int)
      modifies repo
      ensures repo.rows == SyncOne(old(repo.rows), node, r, now)
    {
      if r.agentId == "" {
        return;
      }
      var key := Key(node, r.agentId);
      var heartbeat := if r.lastHeartbeat > 0 then Some(r.lastHeartbeat) else None;
      if key in repo.rows {
        var existing := repo.rows[key];
        var status := if r.status != "" then r.status else existing.status;
        var pid := if r.pid != 0 then r.pid else existing.pid;
        var kind := if r.kind != "" then r.kind else existing.kind;
        var version := if r.version != "" then r.version else existing.version;
        if heartbeat.None? {
          heartbeat := existing.lastHeartbeat;
        }
        var _ := repo.Update(Patch(key, status, pid, kind, version, heartbeat, now));
      } else {
        var status := if r.status == "" then "stopped" else r.status;
        repo.Create(key, Row(r.kind, r.version, status, r.pid, heartbeat, now));
      }
    }

    method SyncAgentStates(node: string, reports: seq<Report>, now: int) returns (outcome: Outcome)
      modifies repo
      ensures outcome == if node == "" then Failed(InvalidParams) else Done
      ensures repo.rows == Apply(old(repo.rows), Sync(node, reports, now))
    {
      if node == "" {
        return Failed(InvalidParams);
      }
      for i := 0 to |reports|
        invariant repo.rows == SyncAll(old(repo.rows), node, reports[..i], now)
      {
        assert reports[..i + 1][..i] == reports[..i];
        SyncReport(node, reports[i], now);
      }
      assert reports[..|reports|] == reports;
      return Done;
    }

    /** `reachable` and `accepted` are the daemon's answers; only a carried-out operation changes the table. */
    method OperateAgent(nodes: set<string>, key: Key, operation: string, reachable: bool, accepted: bool, now: int)
      returns (outcome: Outcome)
      modifies repo
      ensures outcome ==
              if key.node == "" || key.agent == "" then Failed(InvalidParams)
              else if operation !in {"start", "stop", "restart"} then Failed(InvalidParams)
              else if key.node !in nodes then Failed(NodeNotFound)
              else if key !in old(repo.rows) then Failed(AgentNotFound)
              else if !reachable then Failed(DaemonUnreachable)
              else if !accepted then Failed(DaemonFailed)
              else Done
      ensures repo.rows == if outcome.Done? then Apply(old(repo.rows), Operate(key, operation, now)) else old(repo.rows)
    {
      if key.node == "" || key.agent == "" || operation == "" {
        return Failed(InvalidParams);
      }
      if operation != "start" && operation != "stop" && operation != "restart" {
        return Failed(InvalidParams);
      }
      if key.node !in nodes {
        return Failed(NodeNotFound);
      }
      if key !in repo.rows {
        return Failed(AgentNotFound);
      }
      if !reachable {
        return Failed(DaemonUnreachable);
      }
      if !accepted {
        return Failed(DaemonFailed);
      }
      var expected := ExpectedStatus(operation);
      if expected != "" {
        var _ := repo.Update(Patch(key, expected, 0, "", "", None, now));
        if operation == "stop" {
          repo.ClearPID(key);
        }
      }
      return Done;
    }
  }
}
