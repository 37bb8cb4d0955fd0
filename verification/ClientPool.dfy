/**
 The manager's pool of daemon clients: a lookup under the read lock, then a second lookup and the creation
 under the write lock. Clients are numbered in the order of their creation.
 */
module ClientPool {
  import opened Options

  type Client = nat

  /** Callers between the two locks are remembered with the node they want. */
  datatype Pool = Pool(clients: map<string, Client>, created: nat, closed: set<Client>, missed: map<nat, string>)

  const NEW_POOL := Pool(map[], 0, {}, map[])

  datatype Event =
    | FastLookup(caller: nat, node: string)
    | SlowLookup(caller: nat, dialed: bool)  // `dialed`: whether a connection can be made if one is needed
    | CloseClient(node: string)
    | CloseAll

  predicate Enabled(p: Pool, e: Event) {
    match e
    case FastLookup(caller, _) => caller !in p.missed
    case SlowLookup(caller, _) => caller in p.missed
    case _ => true
  }

  function Next(p: Pool, e: Event): Pool
    requires Enabled(p, e)
  {
    match e
    case FastLookup(caller, node) => if node in p.clients then p else p.(missed := p.missed[caller := node])
    case SlowLookup(caller, dialed) =>
      var node := p.missed[caller];
      var p1 := p.(missed := p.missed - {caller});
      if node in p.clients || !dialed then p1
      else p1.(clients := p.clients[node := p.created], created := p.created + 1)
    case CloseClient(node) =>
      if node in p.clients then p.(clients := p.clients - {node}, closed := p.closed + {p.clients[node]}) else p
    case CloseAll => p.(clients := map[], closed := p.closed + p.clients.Values)
  }

  /** The node and client of a lookup that returns one. */
  function Returned(p: Pool, e: Event): Option<(string, Client)>
    requires Enabled(p, e)
  {
    match e
    case FastLookup(_, node) => if node in p.clients then Some((node, p.clients[node])) else None
    case SlowLookup(caller, dialed) =>
      var node := p.missed[caller];
      if node in p.clients then Some((node, p.clients[node]))
      else if dialed then Some((node, p.created)) else None
    case _ => None
  }

  /**
   What a lookup answers: the client the node has, else under the write lock a new one if it can be dialed; the
   answer is then the node's client.
   */
  lemma LookupAnswers(p: Pool, e: Event)
    requires Enabled(p, e) && (e.FastLookup? || e.SlowLookup?)
    ensures var node := if e.FastLookup? then e.node else p.missed[e.caller];
            var answer, p1 := Returned(p, e), Next(p, e);
            && (answer.Some? <==> node in p.clients || (e.SlowLookup? && e.dialed))
            && (answer.Some? ==> answer.value.0 == node && node in p1.clients && p1.clients[node] == answer.value.1)
            && (node in p.clients ==> p1.clients == p.clients && p1.created == p.created)
            && (answer.None? ==> p1.clients == p.clients && p1.created == p.created)
            && (e.FastLookup? && answer.None? ==> e.caller in p1.missed && p1.missed[e.caller] == node)
            && (e.SlowLookup? ==> e.caller !in p1.missed)
  {
  }

  /** Closing a node closes and forgets its client, and no other; closing all leaves no node and no open client. */
  lemma CloseCloses(p: Pool, node: string)
    ensures var p1 := Next(p, Event.CloseClient(node));
            && node !in p1.clients && (node in p.clients ==> p.clients[node] in p1.closed)
            && (forall n :: n in p.clients && n != node ==> n in p1.clients && p1.clients[n] == p.clients[n])
            && (forall c :: c in p1.closed ==> c in p.closed || (node in p.clients && c == p.clients[node]))
    ensures var p1 := Next(p, Event.CloseAll);
            p1.clients == map[] && forall n :: n in p.clients ==> p.clients[n] in p1.closed
  {
  }

  ghost predicate IsRun(states: seq<Pool>, events: seq<Event>) {
    && |states| == |events| + 1
    && states[0] == NEW_POOL
    && forall i :: 0 <= i < |events| ==> Enabled(states[i], events[i]) && states[i + 1] == Next(states[i], events[i])
  }

  /** Every client ever created is either closed or the one client of one node. */
  ghost predicate Inv(p: Pool) {
    && (forall c: Client :: c < p.created <==> c in p.closed || c in p.clients.Values)
    && p.closed !! p.clients.Values
    && (forall m, n :: m in p.clients && n in p.clients && p.clients[m] == p.clients[n] ==> m == n)
  }

  lemma InvStep(p: Pool, e: Event)
    requires Inv(p) && Enabled(p, e)
    ensures Inv(Next(p, e))
  {
    var p' := Next(p, e);
    if e.SlowLookup? && p'.created > p.created {
      var node := p.missed[e.caller];
      assert p.created !in p.clients.Values && p.created !in p.closed;
      assert p'.clients[node] == p.created;
      forall c: Client ensures c in p'.clients.Values <==> c in p.clients.Values || c == p.created {
        if c in p.clients.Values {
          var n :| n in p.clients && p.clients[n] == c;
          assert p'.clients[n] == c;
        }
      }
    } else if e.CloseClient? && e.node in p.clients {
      forall c: Client ensures c in p.clients.Values <==> c in p'.clients.Values || c == p.clients[e.node] {
        if c in p.clients.Values && c != p.clients[e.node] {
          var n :| n in p.clients && p.clients[n] == c;
          assert p'.clients[n] == c;
        }
      }
      assert p.clients[e.node] !in p'.clients.Values;
    }
  }

  lemma {:induction false} NothingLeaks(states: seq<Pool>, events: seq<Event>, k: nat)
    requires IsRun(states, events) && k <= |events|
    ensures Inv(states[k])
  {
    if k > 0 {
      NothingLeaks(states, events, k - 1);
      InvStep(states[k - 1], events[k - 1]);
    }
  }

  predicate Closes(e: Event, node: string) {
    e.CloseAll? || (e.CloseClient? && e.node == node)
  }

  /** A client returned for a node stays that node's open client until the node is closed. */
  lemma {:induction false} ClientStays(states: seq<Pool>, events: seq<Event>, i: nat, j: nat, node: string, c: Client)
    requires IsRun(states, events) && i < j <= |events|
    requires Enabled(states[i], events[i]) && Returned(states[i], events[i]) == Some((node, c))
    requires forall k :: i < k < j ==> !Closes(events[k], node)
    ensures node in states[j].clients && states[j].clients[node] == c && c !in states[j].closed
    decreases j
  {
    NothingLeaks(states, events, j);
    if j > i + 1 {
      ClientStays(states, events, i, j - 1, node, c);
      assert Enabled(states[j - 1], events[j - 1]) && states[j] == Next(states[j - 1], events[j - 1]);
    }
    assert states[j].clients[node] in states[j].clients.Values;
  }

  /** Two lookups of a node with no close of it in between return the same client, whoever makes them. */
  lemma SameClient(states: seq<Pool>, events: seq<Event>, i: nat, j: nat, node: string, c: Client, d: Client)
    requires IsRun(states, events) && i < j < |events|
    requires Enabled(states[i], events[i]) && Returned(states[i], events[i]) == Some((node, c))
    requires Enabled(states[j], events[j]) && Returned(states[j], events[j]) == Some((node, d))
    requires forall k :: i < k < j ==> !Closes(events[k], node)
    ensures c == d
  {
    ClientStays(states, events, i, j, node, c);
  }

  // ---- The pool itself ----

  /** A call by somebody else that holds the write lock. */
  datatype Other = Lookup(node: string, dialed: bool) | Close(node: string) | Clear

  function AfterOther(p: Pool, o: Other): Pool {
    match o
    case Lookup(node, dialed) => Next(p.(missed := map[0 := node]), SlowLookup(0, dialed)).(missed := p.missed)
    case Close(node) => Next(p, Event.CloseClient(node))
    case Clear => Next(p, Event.CloseAll)
  }

  function AfterOthers(p: Pool, others: seq<Other>): Pool {
    if others == [] then p else AfterOther(AfterOthers(p, others[..|others| - 1]), others[|others| - 1])
  }

  class DaemonClientPool {
    var clients: map<string, Client>
    var created: nat
    var closed: set<Client>

    function State(): Pool
      reads this
    {
      Pool(clients, created, closed, map[])
    }

    constructor ()
      ensures State() == NEW_POOL
    {
      clients, created, closed := map[], 0, {};
    }

    /** The part under the write lock; another caller may have created the client meanwhile. */
    method LookupOrCreate(node: string, dialed: bool) returns (client: Option<Client>)
      modifies this
      ensures var p, slow := old(State()).(missed := map[0 := node]), SlowLookup(0, dialed);
              && State() == Next(p, slow)
              && client == if Returned(p, slow).Some? then Some(Returned(p, slow).value.1) else None
    {
      if node in clients {
        return Some(clients[node]);
      }
      if !dialed {
        return None;
      }
      var c := created;
      created := created + 1;
      clients := clients[node := c];
      return Some(c);
    }

    method CloseClient(node: string)
      modifies this
      ensures State() == Next(old(State()), Event.CloseClient(node))
    {
      if node !in clients {
        return;
      }
      closed := closed + {clients[node]};
      clients := clients - {node};
    }

    method CloseAll()
      modifies this
      ensures State() == Next(old(State()), Event.CloseAll)
    {
      var rest := clients.Keys;
      while rest != {}
        invariant rest <= clients.Keys
        invariant clients == old(clients) && created == old(created)
        invariant closed == old(closed) + set n | n in clients.Keys - rest :: clients[n]
      {
        var n :| n in rest;
        closed, rest := closed + {clients[n]}, rest - {n};
      }
      assert (set n | n in clients.Keys :: clients[n]) == clients.Values;
      clients := map[];
    }

    method Interfere(others: seq<Other>)
      modifies this
      ensures State() == AfterOthers(old(State()), others)
    {
      for i := 0 to |others|
        invariant State() == AfterOthers(old(State()), others[..i])
      {
        assert others[..i + 1][..i] == others[..i];
        match others[i] {
          case Lookup(node, dialed) => var _ := LookupOrCreate(node, dialed);
          case Close(node) => CloseClient(node);
          case Clear => CloseAll();
        }
      }
      assert others[..|others|] == others;
    }

    /** A whole call; `others` are the calls that get the write lock between its two locks. `None` is an error. */
    method GetClient(node: string, address: string, dialed: bool, others: seq<Other>) returns (client: Option<Client>)
      modifies this
      ensures node == "" || address == "" || (node in old(clients)) ==> State() == old(State())
      ensures node == "" || address == "" ==> client == None
      ensures node != "" && address != "" && node in old(clients) ==> client == Some(old(clients)[node])
      ensures node != "" && address != "" && node !in old(clients) ==>
                var p, slow := AfterOthers(old(State()), others).(missed := map[0 := node]), SlowLookup(0, dialed);
                && State() == Next(p, slow)
                && client == if Returned(p, slow).Some? then Some(Returned(p, slow).value.1) else None
    {
      if node == "" || address == "" {
        return None;
      }
      if node in clients {
        return Some(clients[node]);
      }
      Interfere(others);
      client := LookupOrCreate(node, dialed);
    }
  }
}
