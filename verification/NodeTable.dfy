/**
 The manager's node table: registration, heartbeats, and the periodic check that marks silent nodes offline.
 */
module NodeTable {
  import opened Options

  /** One row; a node that never sent a heartbeat has no last-seen time. */
  datatype Node = Node(status: string, lastSeen: Option<int>, info: string)

  type Table = map<string, Node>

  datatype Event =
    | Register(id: string, node: Node)
    | Heartbeat(id: string, now: int)
    | Check(limit: int, now: int)

  predicate Silent(n: Node, limit: int, now: int) {
    n.lastSeen.Some? && n.lastSeen.value < now - limit && n.status != "offline"
  }

  function Beaten(t: Table, id: string, now: int): Node {
    if id !in t then Node("online", Some(now), "unknown")
    else t[id].(lastSeen := Some(now), status := if t[id].status == "offline" then "online" else t[id].status)
  }

  function Apply(t: Table, e: Event): Table {
    match e
    case Register(id, node) => t[id := node]
    case Heartbeat(id, now) => t[id := Beaten(t, id, now)]
    case Check(limit, now) =>
      map id | id in t :: if Silent(t[id], limit, now) then t[id].(status := "offline") else t[id]
  }

  function After(history: seq<Event>): Table {
    if history == [] then map[] else Apply(After(history[..|history| - 1]), history[|history| - 1])
  }

  // ---- What a history says about one node ----

  /** A heartbeat or a registration of the node. */
  predicate Touches(e: Event, id: string) {
    !e.Check? && e.id == id
  }

  /** The last-seen time a touch leaves behind. */
  function SeenBy(e: Event): Option<int>
    requires !e.Check?
  {
    match e
    case Register(_, node) => node.lastSeen
    case Heartbeat(_, now) => Some(now)
  }

  /** Event t is the last touch of the node. */
  predicate LastTouch(history: seq<Event>, id: string, t: int) {
    0 <= t < |history| && Touches(history[t], id) && forall j :: t < j < |history| ==> !Touches(history[j], id)
  }

  /** Check c came after touch t and found its last-seen time set and too old. */
  predicate FoundSilent(history: seq<Event>, t: int, c: int)
    requires 0 <= t < |history| && !history[t].Check?
  {
    && t < c < |history| && history[c].Check?
    && SeenBy(history[t]).Some? && SeenBy(history[t]).value < history[c].now - history[c].limit
  }

  /** Some check since the last touch found the node silent, or the last touch registered it as offline. */
  ghost predicate ShouldBeOffline(history: seq<Event>, id: string) {
    exists t ::
      && LastTouch(history, id, t)
      && ((history[t].Register? && history[t].node.status == "offline") || exists c :: FoundSilent(history, t, c))
  }

  predicate IsOffline(t: Table, id: string) {
    id in t && t[id].status == "offline"
  }

  // ---- Proof, one event at a time ----

  lemma SameTouches(history: seq<Event>, id: string, t: int)
    requires history != [] && !Touches(history[|history| - 1], id)
    ensures LastTouch(history, id, t) <==> LastTouch(history[..|history| - 1], id, t)
  {
    var before := history[..|history| - 1];
    assert forall j :: 0 <= j < |before| ==> before[j] == history[j];
  }

  lemma {:induction false} RowFollowsLastTouch(history: seq<Event>, id: string)
    ensures id in After(history) <==> exists t :: LastTouch(history, id, t)
    ensures forall t :: LastTouch(history, id, t) ==> After(history)[id].lastSeen == SeenBy(history[t])
  {
    if history != [] {
      var n := |history| - 1;
      var before := history[..n];
      RowFollowsLastTouch(before, id);
      if Touches(history[n], id) {
        assert LastTouch(history, id, n);
      } else {
        forall t ensures LastTouch(history, id, t) <==> LastTouch(before, id, t) {
          SameTouches(history, id, t);
        }
      }
    }
  }

  lemma OnlyLastTouch(history: seq<Event>, id: string, t: int)
    requires LastTouch(history, id, t)
    ensures ShouldBeOffline(history, id) <==>
            (history[t].Register? && history[t].node.status == "offline") || exists c :: FoundSilent(history, t, c)
  {
    forall u | LastTouch(history, id, u) ensures u == t {
      assert !(u < t) && !(t < u);
    }
  }

  /** A node is offline exactly when its history says so. */
  lemma {:induction false} OfflineIff(history: seq<Event>, id: string)
    ensures IsOffline(After(history), id) <==> ShouldBeOffline(history, id)
  {
    if history != [] {
      var n := |history| - 1;
      var before, e := history[..n], history[n];
      OfflineIff(before, id);
      RowFollowsLastTouch(before, id);
      if Touches(e, id) {
        assert LastTouch(history, id, n);
      } else if exists t :: LastTouch(before, id, t) {
        var t :| LastTouch(before, id, t);
        SameTouches(history, id, t);
        forall c
          ensures FoundSilent(history, t, c) <==> FoundSilent(before, t, c) || (c == n && FoundSilent(history, t, n))
        {
        }
        assert before[t] == history[t];
        OnlyLastTouch(history, id, t);
        OnlyLastTouch(before, id, t);
        if e.Check? {
          assert FoundSilent(history, t, n) <==>
            SeenBy(history[t]).Some? && SeenBy(history[t]).value < e.now - e.limit;
        }
      } else {
        forall t ensures !LastTouch(history, id, t) {
          SameTouches(history, id, t);
        }
      }
    }
  }

  // ---- Consequences ----

  lemma {:induction false} TwoStatuses(history: seq<Event>, id: string)
    requires forall i :: 0 <= i < |history| && history[i].Register? ==> history[i].node.status == "online"
    ensures id in After(history) ==> After(history)[id].status in {"online", "offline"}
  {
    if history != [] {
      TwoStatuses(history[..|history| - 1], id);
    }
  }

  /** A heartbeat leaves the node seen now and not offline: an unknown or offline one is online, any other as it was. */
  lemma HeartbeatOutcome(t: Table, id: string, now: int)
    ensures var t1 := Apply(t, Heartbeat(id, now));
            && id in t1 && t1[id].lastSeen == Some(now)
            && t1[id].status == (if id !in t || t[id].status == "offline" then "online" else t[id].status)
            && t1[id].info == (if id !in t then "unknown" else t[id].info)
            && forall n :: n != id ==> (n in t1 <==> n in t) && (n in t ==> t1[n] == t[n])
  {
  }

  /** A registration replaces the whole row, and touches no other. */
  lemma RegisterOutcome(t: Table, id: string, node: Node)
    ensures var t1 := Apply(t, Register(id, node));
            id in t1 && t1[id] == node && forall n :: n != id ==> (n in t1 <==> n in t) && (n in t ==> t1[n] == t[n])
  {
  }

  /** A check turns nodes offline and changes nothing else. */
  lemma CheckOutcome(t: Table, limit: int, now: int, id: string)
    requires id in t
    ensures var t1 := Apply(t, Check(limit, now));
            && t1.Keys == t.Keys && t1[id].lastSeen == t[id].lastSeen && t1[id].info == t[id].info
            && t1[id].status == (if t[id].lastSeen.Some? && t[id].lastSeen.value + limit < now then "offline"
                                 else t[id].status)
  {
  }

  /** If nodes register as online, a known node is always either online or offline. */
  lemma {:induction false} OnlineUnlessOffline(history: seq<Event>, id: string)
    requires forall i :: 0 <= i < |history| && history[i].Register? ==> history[i].node.status == "online"
    ensures id in After(history) ==>
              After(history)[id].status == if ShouldBeOffline(history, id) then "offline" else "online"
  {
    OfflineIff(history, id);
    TwoStatuses(history, id);
  }

  /** A node silent past the limit after a heartbeat, and not touched since, is offline after the next check. */
  lemma SilentNodeGoesOffline(history: seq<Event>, id: string, t: int, limit: int, now: int)
    requires LastTouch(history, id, t) && history[t].Heartbeat? && history[t].now < now - limit
    ensures IsOffline(After(history + [Check(limit, now)]), id)
  {
    var all := history + [Check(limit, now)];
    assert all[..|all| - 1] == history;
    SameTouches(all, id, t);
    assert FoundSilent(all, t, |all| - 1);
    OnlyLastTouch(all, id, t);
    OfflineIff(all, id);
  }

  /** A registration clears the last-seen time: until its first heartbeat no check ever marks the node offline. */
  lemma RegisteredButSilentStaysOnline(history: seq<Event>, id: string, t: int)
    requires LastTouch(history, id, t) && history[t].Register?
    requires history[t].node.status == "online" && history[t].node.lastSeen == None
    ensures !IsOffline(After(history), id)
  {
    OnlyLastTouch(history, id, t);
    OfflineIff(history, id);
  }

  // ---- The repository and the service ----

  class NodeService {
    var nodes: Table

    constructor ()
      ensures nodes == map[]
    {
      nodes := map[];
    }

    method Register(id: string, node: Node)
      modifies this
      ensures nodes == Apply(old(nodes), Event.Register(id, node))
    {
      nodes := nodes[id := node];  // created, or saved over the existing row with every field
    }

    method RepoUpdateStatus(id: string, status: string)
      modifies this
      ensures nodes == if id in old(nodes) then old(nodes)[id := old(nodes)[id].(status := status)] else old(nodes)
    {
      if id in nodes {
        nodes := nodes[id := nodes[id].(status := status)];
      }
    }

    method RepoUpdateHeartbeat(id: string, now: int)
      modifies this
      ensures nodes == if id in old(nodes) then old(nodes)[id := old(nodes)[id].(lastSeen := Some(now))] else old(nodes)
    {
      if id in nodes {
        nodes := nodes[id := nodes[id].(lastSeen := Some(now))];
      }
    }

    method Heartbeat(id: string, now: int)
      modifies this
      ensures nodes == Apply(old(nodes), Event.Heartbeat(id, now))
    {
      if id !in nodes {
        nodes := nodes[id := Node("online", Some(now), "unknown")];
        return;
      }
      var node := nodes[id];
      RepoUpdateHeartbeat(id, now);
      if node.status == "offline" {
        RepoUpdateStatus(id, "online");
      }
    }

    method RepoGetOfflineNodes(limit: int, now: int) returns (ids: set<string>)
      ensures ids == set id | id in nodes && Silent(nodes[id], limit, now)
    {
      var cutoff := now - limit;
      ids := set id | id in nodes
                      && nodes[id].lastSeen.Some? && nodes[id].lastSeen.value < cutoff && nodes[id].status != "offline";
    }

    method CheckOfflineNodes(limit: int, now: int)
      modifies this
      ensures nodes == Apply(old(nodes), Check(limit, now))
    {
      var ids := RepoGetOfflineNodes(limit, now);
      var rest := ids;
      while rest != {}
        invariant rest <= ids
        invariant nodes == map id | id in old(nodes) ::
          if id in ids && id !in rest then old(nodes)[id].(status := "offline") else old(nodes)[id]
      {
        var id :| id in rest;
        RepoUpdateStatus(id, "offline");
        rest := rest - {id};
      }
    }
  }
}
