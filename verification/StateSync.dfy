/**
 The daemon's state syncer: pending changes, periodic collection, and delivery to the manager.
 */
module StateSync {
  import opened Options
  import opened AgentTable

  /** What the daemon knows of a registered agent. */
  datatype AgentView = AgentView(status: string, pid: int, kind: string, version: string)

  /** A reported change of one agent's state. */
  datatype Change = Change(agentId: string, status: string, pid: int, lastHeartbeat: int)

  function KnownStatus(status: string): string {
    if status == "" then "stopped" else status
  }

  function Current(agents: map<string, AgentView>, now: int): map<string, Report> {
    map id | id in agents ::
      var a := agents[id];
      Report(id, KnownStatus(a.status), a.pid, now, a.kind, a.version)
  }

  /** Pending states take precedence over current ones. */
  function Collected(agents: map<string, AgentView>, pending: map<string, Report>, now: int): map<string, Report> {
    Current(agents, now) + pending
  }

  /** Every pending state is stored under its own agent, with a status. */
  predicate WellKeyed(pending: map<string, Report>) {
    forall id :: id in pending ==> pending[id].agentId == id && pending[id].status != ""
  }

  /** The states of a map in any order: exactly one for each agent. */
  ghost predicate Lists(states: seq<Report>, m: map<string, Report>) {
    && (forall i :: 0 <= i < |states| ==> states[i].agentId in m && m[states[i].agentId] == states[i])
    && (forall id :: id in m ==> m[id] in states && m[id].agentId == id)
    && (forall i, j :: 0 <= i < j < |states| ==> states[i].agentId != states[j].agentId)
  }

  function At(m: map<string, Report>, id: string): Option<Report> {
    if id in m then Some(m[id]) else None
  }

  lemma SameEntries(m: map<string, Report>, n: map<string, Report>)
    requires forall id :: At(m, id) == At(n, id)
    ensures m == n
  {
    forall id ensures id in m <==> id in n {
      assert At(m, id) == At(n, id);
    }
    forall id | id in m ensures m[id] == n[id] {
      assert At(m, id) == At(n, id);
    }
    assert m.Keys == n.Keys;
  }

  /** A failed delivery keeps every state that was to be sent, over whatever was pending. */
  function Kept(pending: map<string, Report>, states: seq<Report>): map<string, Report> {
    if states == [] then pending
    else Kept(pending, states[..|states| - 1])[states[|states| - 1].agentId := states[|states| - 1]]
  }

  /** The entry an agent has after a failed delivery: its own sent state, or else what was pending. */
  lemma {:induction false} KeptAt(pending: map<string, Report>, states: seq<Report>, id: string)
    requires forall i, j :: 0 <= i < j < |states| ==> states[i].agentId != states[j].agentId
    ensures var entry := At(Kept(pending, states), id);
            && (forall k :: 0 <= k < |states| && states[k].agentId == id ==> entry == Some(states[k]))
            && ((forall k :: 0 <= k < |states| ==> states[k].agentId != id) ==> entry == At(pending, id))
  {
    if states != [] {
      KeptAt(pending, states[..|states| - 1], id);
    }
  }

  /** The loop that keeps undelivered states is a map overlay. */
  lemma KeptIsOverlay(pending: map<string, Report>, states: seq<Report>, m: map<string, Report>)
    requires Lists(states, m)
    ensures Kept(pending, states) == pending + m
  {
    var kept := Kept(pending, states);
    forall id ensures At(kept, id) == At(pending + m, id) {
      KeptAt(pending, states, id);
      if id in m {
        var k :| 0 <= k < |states| && states[k] == m[id];
      }
    }
    SameEntries(kept, pending + m);
  }

  /** Both ends of the replication: the manager's table and the daemon's pending states. */
  datatype Ends = Ends(table: Table, pending: map<string, Report>)

  ghost predicate RoundBy(before: Ends, after: Ends, node: string, agents: map<string, AgentView>, delivered: bool,
                          states: seq<Report>, at: int, now: int, landed: map<string, Report>) {
    var m, applied := Collected(agents, before.pending, at), SyncAll(before.table, node, states, now);
    && Lists(states, m) && WellKeyed(landed)
    && if delivered then after == Ends(applied, map[])
       else (after.table == before.table || after.table == applied) && after.pending == before.pending + landed + m
  }

  /**
   One round of the sync loop: the collected states reach the table and nothing is pending, or they are kept over
   what was pending and what landed meanwhile, and may or may not have reached the table.
   */
  ghost predicate Round(before: Ends, after: Ends, node: string, agents: map<string, AgentView>, delivered: bool) {
    exists states, at, now, landed :: RoundBy(before, after, node, agents, delivered, states, at, now, landed)
  }

  lemma RoundMade(before: Ends, after: Ends, node: string, agents: map<string, AgentView>, delivered: bool,
                  states: seq<Report>, at: int, now: int, landed: map<string, Report>)
    requires Lists(states, Collected(agents, before.pending, at)) && WellKeyed(landed)
    requires after.pending == if delivered then map[] else Kept(before.pending + landed, states)
    requires after.table == SyncAll(before.table, node, states, now) || (!delivered && after.table == before.table)
    ensures Round(before, after, node, agents, delivered)
  {
    KeptIsOverlay(before.pending + landed, states, Collected(agents, before.pending, at));
    assert RoundBy(before, after, node, agents, delivered, states, at, now, landed);
  }

  lemma StatusesKnown(agents: map<string, AgentView>, pending: map<string, Report>, at: int, states: seq<Report>)
    requires WellKeyed(pending) && Lists(states, Collected(agents, pending, at))
    ensures forall i :: 0 <= i < |states| ==> states[i].status != ""
  {
  }

  class StateSyncer {
    var agents: map<string, AgentView>
    var pendingStates: map<string, Report>

    ghost predicate Valid()
      reads this
    {
      WellKeyed(pendingStates)
    }

    constructor (agents: map<string, AgentView>)
      ensures Valid() && this.agents == agents && pendingStates == map[]
    {
      this.agents, pendingStates := agents, map[];
    }

    method OnAgentStateChange(agentId: string, status: string, pid: int, lastHeartbeat: int)
      requires Valid()
      modifies this`pendingStates
      ensures Valid()
      ensures pendingStates == old(pendingStates)[agentId :=
        Report(agentId, if status == "" then "stopped" else status, pid, lastHeartbeat,
               if agentId in agents then agents[agentId].kind else "",
               if agentId in agents then agents[agentId].version else "")]
    {
      var known := if status == "" then "stopped" else status;
      var kind, version := "", "";
      if agentId in agents {
        kind, version := agents[agentId].kind, agents[agentId].version;
      }
      pendingStates := pendingStates[agentId := Report(agentId, known, pid, lastHeartbeat, kind, version)];
    }

    /** Changes that land one after the other. */
    method Land(changes: seq<Change>) returns (ghost landed: map<string, Report>)
      requires Valid()
      modifies this`pendingStates
      ensures Valid() && WellKeyed(landed) && pendingStates == old(pendingStates) + landed
    {
      landed := map[];
      for i := 0 to |changes|
        invariant Valid() && WellKeyed(landed) && pendingStates == old(pendingStates) + landed
      {
        var c := changes[i];
        OnAgentStateChange(c.agentId, c.status, c.pid, c.lastHeartbeat);
        landed := landed[c.agentId := pendingStates[c.agentId]];
      }
    }

    method BuildStateMap(now: int) returns (stateMap: map<string, Report>)
      ensures stateMap == Collected(agents, pendingStates, now)
    {
      stateMap := map[];
      var ids := agents.Keys;
      while ids != {}
        invariant ids <= agents.Keys
        invariant stateMap == map id | id in agents.Keys - ids :: Current(agents, now)[id]
      {
        var id :| id in ids;
        var a := agents[id];
        var status := if a.status == "" then "stopped" else a.status;
        stateMap, ids := stateMap[id := Report(id, status, a.pid, now, a.kind, a.version)], ids - {id};
      }
      assert stateMap == Current(agents, now);
      ids := pendingStates.Keys;
      while ids != {}
        invariant ids <= pendingStates.Keys
        invariant stateMap == Current(agents, now) + map id | id in pendingStates.Keys - ids :: pendingStates[id]
      {
        var id :| id in ids;
        stateMap, ids := stateMap[id := pendingStates[id]], ids - {id};
      }
    }

    static method ToSlice(stateMap: map<string, Report>) returns (states: seq<Report>)
      requires forall id :: id in stateMap ==> stateMap[id].agentId == id
      ensures Lists(states, stateMap) && |states| == |stateMap|
    {
      states := [];
      var ids := stateMap.Keys;
      while ids != {}
        invariant ids <= stateMap.Keys
        invariant |states| == |stateMap.Keys| - |ids|
        invariant forall i :: 0 <= i < |states| ==>
                    states[i].agentId in stateMap.Keys - ids && stateMap[states[i].agentId] == states[i]
        invariant forall id :: id in stateMap.Keys - ids ==> stateMap[id] in states
        invariant forall i, j :: 0 <= i < j < |states| ==> states[i].agentId != states[j].agentId
      {
        var id :| id in ids;
        states, ids := states + [stateMap[id]], ids - {id};
      }
    }

    method CollectAgentStates(now: int) returns (states: seq<Report>)
      requires Valid()
      ensures Lists(states, Collected(agents, pendingStates, now))
      ensures |states| == |agents.Keys + pendingStates.Keys|
    {
      var stateMap := BuildStateMap(now);
      states := ToSlice(stateMap);
      assert stateMap.Keys == agents.Keys + pendingStates.Keys;
    }

    method KeepPending(states: seq<Report>)
      requires Valid()
      requires forall i :: 0 <= i < |states| ==> states[i].status != ""
      modifies this`pendingStates
      ensures Valid() && pendingStates == Kept(old(pendingStates), states)
    {
      for i := 0 to |states|
        invariant Valid() && pendingStates == Kept(old(pendingStates), states[..i])
      {
        pendingStates := pendingStates[states[i].agentId := states[i]];
        assert states[..i + 1][..i] == states[..i];
      }
      assert states[..|states|] == states;
    }

    /** Delivery: on any failure every state is kept for the next round, though the manager may have applied them. */
    method SyncToManager(states: seq<Report>, node: string, reached: bool, answered: bool,
                         manager: AgentService, now: int) returns (ok: bool)
      requires Valid()
      requires forall i :: 0 <= i < |states| ==> states[i].status != ""
      modifies this`pendingStates, manager.repo
      ensures Valid()
      ensures ok == (reached && answered && node != "")
      ensures pendingStates == if ok then map[] else Kept(old(pendingStates), states)
      ensures var rows := old(manager.repo.rows);
              manager.repo.rows == if reached && node != "" then SyncAll(rows, node, states, now) else rows
    {
      ok := false;
      if reached {
        var outcome := manager.SyncAgentStates(node, states, now);
        ok := answered && outcome.Done?;
      }
      if !ok {
        KeepPending(states);
        return;
      }
      pendingStates := map[];
    }

    /**
     One round of the loop. Changes may land between collection and delivery; the call may not reach the manager,
     or reach it without its answer coming back.
     */
    method SyncRound(node: string, changes: seq<Change>, reached: bool, answered: bool, manager: AgentService,
                     collectedAt: int, now: int) returns (ok: bool)
      requires Valid()
      modifies this`pendingStates, manager.repo
      ensures Valid()
      ensures ok == (reached && answered && node != "")
      ensures Round(Ends(old(manager.repo.rows), old(pendingStates)), Ends(manager.repo.rows, pendingStates),
                    node, agents, ok)
    {
      var states := CollectAgentStates(collectedAt);
      StatusesKnown(agents, pendingStates, collectedAt, states);
      ghost var before := Ends(manager.repo.rows, pendingStates);
      ghost var landed := Land(changes);
      ok := SyncToManager(states, node, reached, answered, manager, now);
      RoundMade(before, Ends(manager.repo.rows, pendingStates), node, agents, ok, states, collectedAt, now, landed);
    }
  }

  // ---- Convergence ----

  /** In a list with one state for each agent, each agent's row depends on its own state alone. */
  lemma {:induction false} OwnStateDecides(t: Table, node: string, states: seq<Report>, now: int, k: nat)
    requires forall i, j :: 0 <= i < j < |states| ==> states[i].agentId != states[j].agentId
    requires k < |states|
    ensures var key := Key(node, states[k].agentId);
            RowAt(SyncAll(t, node, states, now), key) == RowAt(SyncOne(t, node, states[k], now), key)
  {
    var n := |states| - 1;
    var key := Key(node, states[k].agentId);
    if k < n {
      OwnStateDecides(t, node, states[..n], now, k);
    } else {
      OtherRowsUntouched(t, node, states[..n], now, key);
    }
  }

  /** One delivered round leaves each listed agent with the status, and the known PID, of its state. */
  lemma DeliveredRow(t: Table, node: string, states: seq<Report>, m: map<string, Report>, now: int, id: string)
    requires Lists(states, m) && id in m && id != ""
    ensures RowAt(SyncAll(t, node, states, now), Key(node, id)) == RowAt(SyncOne(t, node, m[id], now), Key(node, id))
  {
    var k :| 0 <= k < |states| && states[k] == m[id];
    OwnStateDecides(t, node, states, now, k);
  }

  function StatusAt(t: Table, key: Key): Option<string> {
    if key in t then Some(t[key].status) else None
  }

  /** After one delivered round, the manager shows the daemon's status unless a different one was pending. */
  lemma OneRound(t: Table, node: string, agents: map<string, AgentView>, pending: map<string, Report>,
                 states: seq<Report>, collectedAt: int, now: int, id: string)
    requires WellKeyed(pending) && Lists(states, Collected(agents, pending, collectedAt))
    requires id in agents && id != ""
    ensures var want := if agents[id].status == "" then "stopped" else agents[id].status;
            StatusAt(SyncAll(t, node, states, now), Key(node, id)) == Some(want)
            <==> (id in pending ==> pending[id].status == want)
  {
    var m := Collected(agents, pending, collectedAt);
    DeliveredRow(t, node, states, m, now, id);
    assert RowAt(SyncOne(t, node, m[id], now), Key(node, id)).Some?;
  }

  /**
   The whole row of an agent with nothing pending, after a delivered round: each figure is the daemon's own, or if
   the daemon has none the one the manager had.
   */
  lemma RoundRow(t: Table, node: string, agents: map<string, AgentView>, pending: map<string, Report>,
                 states: seq<Report>, collectedAt: int, now: int, id: string)
    requires WellKeyed(pending) && Lists(states, Collected(agents, pending, collectedAt))
    requires id in agents && id !in pending && id != ""
    ensures var key, a := Key(node, id), agents[id];
            var had := if key in t then t[key] else Row("", "", "", 0, None, 0);
            RowAt(SyncAll(t, node, states, now), key) == Some(Row(
              if a.kind == "" then had.kind else a.kind,
              if a.version == "" then had.version else a.version,
              if a.status == "" then "stopped" else a.status,
              if a.pid == 0 then had.pid else a.pid,
              if collectedAt <= 0 then had.lastHeartbeat else Some(collectedAt),
              now))
  {
    DeliveredRow(t, node, states, Collected(agents, pending, collectedAt), now, id);
  }

  /**
   Two delivered rounds in a row, with the agents unchanged from the end of the first one on: whatever earlier
   failures left pending, and whatever the first round saw, every registered agent ends with the daemon's status.
   */
  lemma TwoRoundsConverge(s0: Ends, s1: Ends, s2: Ends, node: string,
                          earlier: map<string, AgentView>, agents: map<string, AgentView>, id: string)
    requires Round(s0, s1, node, earlier, true) && Round(s1, s2, node, agents, true)
    requires id in agents && id != ""
    ensures agents[id].status != "" ==> StatusAt(s2.table, Key(node, id)) == Some(agents[id].status)
    ensures agents[id].status == "" ==> StatusAt(s2.table, Key(node, id)) == Some("stopped")
  {
    var states, at, now, landed :| RoundBy(s1, s2, node, agents, true, states, at, now, landed);
    OneRound(s1.table, node, agents, s1.pending, states, at, now, id);
  }

  /** Nothing pending contradicts the daemon's own status of a registered agent. */
  predicate Agrees(pending: map<string, Report>, agents: map<string, AgentView>) {
    forall id :: id in agents && id in pending ==> pending[id].status == KnownStatus(agents[id].status)
  }

  /** Collected states agree if the pending ones do, and they overwrite what landed. */
  lemma OverlayAgrees(pending: map<string, Report>, landed: map<string, Report>,
                      agents: map<string, AgentView>, at: int)
    requires WellKeyed(pending) && WellKeyed(landed) && Agrees(pending, agents)
    ensures var kept := pending + landed + Collected(agents, pending, at);
            WellKeyed(kept) && Agrees(kept, agents)
  {
  }

  /** A round from agreeing pending states, delivered or not, ends with agreeing ones. */
  lemma AgreeingRound(before: Ends, after: Ends, node: string, agents: map<string, AgentView>, delivered: bool)
    requires Round(before, after, node, agents, delivered)
    requires WellKeyed(before.pending) && Agrees(before.pending, agents)
    ensures WellKeyed(after.pending) && Agrees(after.pending, agents)
  {
    if !delivered {
      var states, at, now, landed :| RoundBy(before, after, node, agents, delivered, states, at, now, landed);
      OverlayAgrees(before.pending, landed, agents, at);
    }
  }

  lemma DeliveredClears(before: Ends, after: Ends, node: string, agents: map<string, AgentView>)
    requires Round(before, after, node, agents, true)
    ensures after.pending == map[]
  {
  }

  /** It brings the manager to the daemon's status if delivered, and never takes it away from there. */
  lemma AgreeingRoundStatus(before: Ends, after: Ends, node: string, agents: map<string, AgentView>, delivered: bool,
                            id: string)
    requires Round(before, after, node, agents, delivered)
    requires WellKeyed(before.pending) && Agrees(before.pending, agents) && id in agents && id != ""
    ensures var status := Some(if agents[id].status == "" then "stopped" else agents[id].status);
            delivered || StatusAt(before.table, Key(node, id)) == status
            ==> StatusAt(after.table, Key(node, id)) == status
  {
    var states, at, now, landed :| RoundBy(before, after, node, agents, delivered, states, at, now, landed);
    OneRound(before.table, node, agents, before.pending, states, at, now, id);
  }

  /** Rounds one after the other, while the agents do not change. */
  ghost predicate Rounds(ends: seq<Ends>, delivered: seq<bool>, node: string, agents: map<string, AgentView>) {
    && |ends| == |delivered| + 1
    && forall i :: 0 <= i < |delivered| ==> Round(ends[i], ends[i + 1], node, agents, delivered[i])
  }

  /** What holds from the first delivered round on; `settled` once a later round is delivered too. */
  predicate Converging(e: Ends, node: string, agents: map<string, AgentView>, id: string, settled: bool)
    requires id in agents
  {
    && WellKeyed(e.pending) && Agrees(e.pending, agents)
    && (settled ==> StatusAt(e.table, Key(node, id)) == Some(KnownStatus(agents[id].status)))
  }

  lemma ConvergingStep(before: Ends, after: Ends, node: string, agents: map<string, AgentView>, delivered: bool,
                       id: string, settled: bool)
    requires Round(before, after, node, agents, delivered) && id in agents && id != ""
    requires Converging(before, node, agents, id, settled)
    ensures Converging(after, node, agents, id, settled || delivered)
  {
    AgreeingRound(before, after, node, agents, delivered);
    AgreeingRoundStatus(before, after, node, agents, delivered, id);
  }

  /** Induction over rounds: `p(k, s)` holds after k rounds, s saying whether one of them was delivered. */
  lemma {:induction false} AlongRounds(p: (nat, bool) -> bool, delivered: seq<bool>, n: nat)
    requires n <= |delivered| && p(0, false)
    requires forall k: nat, s :: k < |delivered| && p(k, s) ==> p(k + 1, s || delivered[k])
    ensures p(n, true in delivered[..n])
  {
    if n > 0 {
      AlongRounds(p, delivered, n - 1);
      assert delivered[..n] == delivered[..n - 1] + [delivered[n - 1]];
    }
  }

  /**
   One delivered round, and the agents unchanged from its end on: whatever rounds fail in between, applied or not,
   with changes landing or not, the next delivered round makes every registered agent's status agree, and it agrees
   at every later point.
   */
  lemma StaysConverged(start: Ends, ends: seq<Ends>, delivered: seq<bool>, node: string,
                       earlier: map<string, AgentView>, agents: map<string, AgentView>, id: string, j: nat, n: nat)
    requires Rounds(ends, delivered, node, agents) && Round(start, ends[0], node, earlier, true)
    requires j < n < |ends| && delivered[j] && id in agents && id != ""
    ensures agents[id].status != "" ==> StatusAt(ends[n].table, Key(node, id)) == Some(agents[id].status)
    ensures agents[id].status == "" ==> StatusAt(ends[n].table, Key(node, id)) == Some("stopped")
  {
    DeliveredClears(start, ends[0], node, earlier);
    var p := (k: nat, s: bool) => k < |ends| && Converging(ends[k], node, agents, id, s);
    forall k: nat, s | k < |delivered| && p(k, s)
      ensures p(k + 1, s || delivered[k])
    {
      ConvergingStep(ends[k], ends[k + 1], node, agents, delivered[k], id, s);
    }
    AlongRounds(p, delivered, n);
    assert delivered[..n][j] == delivered[j];
    assert p(n, true);
  }

  /** The PID converges too unless the agent has none: then the manager keeps the last one it heard. */
  lemma PidConvergesIff(t: Table, node: string, agents: map<string, AgentView>, states: seq<Report>,
                        at: int, now: int, id: string)
    requires Lists(states, Collected(agents, map[], at)) && id in agents && id != ""
    ensures var row := RowAt(SyncAll(t, node, states, now), Key(node, id));
            row.Some? && (row.value.pid == agents[id].pid
                          <==> agents[id].pid != 0 || Key(node, id) !in t || t[Key(node, id)].pid == 0)
  {
    var m := Collected(agents, map[], at);
    DeliveredRow(t, node, states, m, now, id);
    assert RowAt(SyncOne(t, node, m[id], now), Key(node, id)).Some?;
  }
}
