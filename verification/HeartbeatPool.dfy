/**
 The HTTP heartbeat receiver: handlers put heartbeats into a bounded queue, worker goroutines take them
 out and process them, and Stop tells the workers to leave. Counted heartbeats are numbered 0, 1, 2, ...
 */
module HeartbeatPool {
  import opened Options

  const WORKERS := 10

  const CAPACITY := 1000

  type Id = nat

  /** Where every counted heartbeat is, and the three counters. */
  datatype Pool = Pool(
    received: nat, processed: nat, errors: nat,
    arriving: multiset<Id>,  // counted, not yet offered to the queue
    queue: seq<Id>,
    working: multiset<Id>,   // held by a worker
    handled: multiset<Id>, failed: multiset<Id>, rejected: multiset<Id>,
    workers: nat,            // goroutines still running
    stopped: bool)

  const NEW_POOL :=
    Pool(0, 0, 0, multiset{}, [], multiset{}, multiset{}, multiset{}, multiset{}, WORKERS, false)

  /**
   Steps of the handlers, the workers and Stop. A handler that passed the stop check may still count and
   enqueue after Stop: a select with several ready cases takes any of them.
   */
  datatype Event =
    | Count
    | Enqueue(id: Id)
    | Reject(id: Id)
    | Take
    | Succeed(id: Id)
    | Fail(id: Id)
    | Stop
    | WorkerLeaves

  predicate Enabled(p: Pool, e: Event) {
    match e
    case Count => true
    case Enqueue(id) => id in p.arriving && |p.queue| < CAPACITY
    case Reject(id) => id in p.arriving && (p.stopped || |p.queue| >= CAPACITY)
    case Take => p.queue != [] && |p.working| < p.workers
    case Succeed(id) => id in p.working
    case Fail(id) => id in p.working
    case Stop => !p.stopped
    case WorkerLeaves => p.stopped && |p.working| < p.workers
  }

  function Next(p: Pool, e: Event): Pool
    requires Enabled(p, e)
  {
    match e
    case Count => p.(received := p.received + 1, arriving := p.arriving + multiset{p.received})
    case Enqueue(id) => p.(arriving := p.arriving - multiset{id}, queue := p.queue + [id])
    case Reject(id) => p.(arriving := p.arriving - multiset{id}, rejected := p.rejected + multiset{id})
    case Take => p.(queue := p.queue[1..], working := p.working + multiset{p.queue[0]})
    case Succeed(id) =>
      p.(working := p.working - multiset{id}, handled := p.handled + multiset{id}, processed := p.processed + 1)
    case Fail(id) =>
      p.(working := p.working - multiset{id}, failed := p.failed + multiset{id}, errors := p.errors + 1)
    case Stop => p.(stopped := true)
    case WorkerLeaves => p.(workers := p.workers - 1)
  }

  ghost predicate IsRun(states: seq<Pool>, events: seq<Event>) {
    && |states| == |events| + 1
    && states[0] == NEW_POOL
    && forall i :: 0 <= i < |events| ==> Enabled(states[i], events[i]) && states[i + 1] == Next(states[i], events[i])
  }

  /** In how many places a heartbeat is. */
  function Places(p: Pool, id: Id): nat {
    p.arriving[id] + multiset(p.queue)[id] + p.working[id] + p.handled[id] + p.failed[id] + p.rejected[id]
  }

  predicate AddsUp(p: Pool) {
    && p.received == |p.arriving| + |p.rejected| + |p.queue| + |p.working| + |p.handled| + |p.failed|
    && p.processed == |p.handled| && p.errors == |p.failed|
    && |p.queue| <= CAPACITY
    && |p.working| <= p.workers <= WORKERS
    && (!p.stopped ==> p.workers == WORKERS)
  }

  /** Every counted heartbeat is in exactly one place, and the counters count the places. */
  ghost predicate Inv(p: Pool) {
    && AddsUp(p)
    && forall id: Id :: Places(p, id) == if id < p.received then 1 else 0
  }

  lemma QueueStep(p: Pool, e: Event, id: Id)
    requires Enabled(p, e)
    ensures multiset(Next(p, e).queue)[id] ==
            multiset(p.queue)[id] + (if e.Enqueue? && e.id == id then 1 else 0)
            - (if e.Take? && p.queue[0] == id then 1 else 0)
  {
    if e.Take? {
      assert p.queue == [p.queue[0]] + p.queue[1..];
    }
  }

  /** A heartbeat leaves one place and enters another; only counting adds one. */
  lemma PlacesStep(p: Pool, e: Event, id: Id)
    requires Enabled(p, e)
    ensures Places(Next(p, e), id) == Places(p, id) + if e.Count? && id == p.received then 1 else 0
  {
    QueueStep(p, e, id);
  }

  /** The queue is first in, first out, and no other step touches it. */
  lemma QueueOrder(p: Pool, e: Event)
    requires Enabled(p, e)
    ensures var q := Next(p, e).queue;
            match e
            case Enqueue(id) => q == p.queue + [id]
            case Take => p.queue != [] && p.queue == [p.queue[0]] + q && p.queue[0] in Next(p, e).working
            case _ => q == p.queue
  {
  }

  lemma InvStep(p: Pool, e: Event)
    requires Inv(p) && Enabled(p, e)
    ensures Inv(Next(p, e))
  {
    forall id: Id
      ensures Places(Next(p, e), id) == if id < Next(p, e).received then 1 else 0
    {
      PlacesStep(p, e, id);
    }
  }

  lemma {:induction false} Conservation(states: seq<Pool>, events: seq<Event>, k: nat)
    requires IsRun(states, events) && k <= |events|
    ensures Inv(states[k])
  {
    if k > 0 {
      Conservation(states, events, k - 1);
      InvStep(states[k - 1], events[k - 1]);
    }
  }

  /** No heartbeat is handled, failed or rejected twice, and the counters add up at every point of every run. */
  lemma CountersAddUp(states: seq<Pool>, events: seq<Event>, k: nat)
    requires IsRun(states, events) && k <= |events|
    ensures var p := states[k];
            && p.received == |p.arriving| + |p.rejected| + |p.queue| + |p.working| + p.processed + p.errors
            && p.processed + p.errors <= p.received
            && |p.queue| <= 1000 && |p.working| <= 10
            && forall id: Id :: p.handled[id] + p.failed[id] + p.rejected[id] <= 1
  {
    var p := states[k];
    Conservation(states, events, k);
    forall id: Id ensures p.handled[id] + p.failed[id] + p.rejected[id] <= 1 {
      assert Places(p, id) <= 1;
    }
  }

  /** Without workers the counters of handled and failed heartbeats stand still and the queue only grows. */
  predicate Stuck(p: Pool, q: Pool) {
    && q.workers == 0 && q.stopped
    && q.processed == p.processed && q.errors == p.errors
    && q.handled == p.handled && q.failed == p.failed
    && p.queue <= q.queue
  }

  lemma StuckStep(p: Pool, q: Pool, e: Event)
    requires Stuck(p, q) && |q.working| == 0 && Enabled(q, e)
    ensures Stuck(p, Next(q, e))
  {
  }

  /** Once every worker has left, what the queue holds stays in it for good and is never handled. */
  lemma {:induction false} LeftInQueue(states: seq<Pool>, events: seq<Event>, k: nat, n: nat)
    requires IsRun(states, events) && k <= n <= |events| && states[k].workers == 0
    ensures Stuck(states[k], states[n])
    decreases n
  {
    if k < n {
      LeftInQueue(states, events, k, n - 1);
      Conservation(states, events, n - 1);
      StuckStep(states[k], states[n - 1], events[n - 1]);
    } else {
      Conservation(states, events, k);
    }
  }

  /** From then on the heartbeats missing from the counters are the arriving, rejected and queued ones. */
  lemma MissingAfterwards(states: seq<Pool>, events: seq<Event>, k: nat, n: nat)
    requires IsRun(states, events) && k <= n <= |events| && states[k].workers == 0
    ensures states[n].received
            == |states[n].arriving| + |states[n].rejected| + |states[n].queue| + states[k].processed + states[k].errors
  {
    LeftInQueue(states, events, k, n);
    CountersAddUp(states, events, n);
    Conservation(states, events, n);
  }

  // ---- The receiver itself ----

  datatype Request = Request(agentId: string, pid: int, cpu: real)

  datatype Method = Post | Other

  datatype Response = Accepted | MethodNotAllowed | BadRequest | Unavailable

  /** A request's two steps together, with nothing else pending. */
  function Arrived(p: Pool, accepted: bool): Pool {
    if accepted then p.(received := p.received + 1, queue := p.queue + [p.received])
    else p.(received := p.received + 1, rejected := p.rejected + multiset{p.received})
  }

  lemma ArrivedKeeps(p: Pool, accepted: bool)
    requires Inv(p) && p.arriving == multiset{}
    requires if accepted then |p.queue| < CAPACITY else p.stopped || |p.queue| >= CAPACITY
    ensures var e := if accepted then Enqueue(p.received) else Reject(p.received);
            Enabled(Next(p, Count), e) && Next(Next(p, Count), e) == Arrived(p, accepted)
    ensures Inv(Arrived(p, accepted))
  {
    var e := if accepted then Enqueue(p.received) else Reject(p.received);
    InvStep(p, Count);
    InvStep(Next(p, Count), e);
    assert Next(Next(p, Count), e).arriving == multiset{};
  }

  /** A worker's two steps together, with no other worker busy. */
  function Worked(p: Pool, updated: bool): Pool
    requires p.queue != []
  {
    var p1 := p.(queue := p.queue[1..]);
    if updated then p1.(processed := p.processed + 1, handled := p.handled + multiset{p.queue[0]})
    else p1.(errors := p.errors + 1, failed := p.failed + multiset{p.queue[0]})
  }

  lemma WorkedKeeps(p: Pool, updated: bool)
    requires Inv(p) && p.working == multiset{} && p.queue != [] && p.workers > 0
    ensures var e := if updated then Succeed(p.queue[0]) else Fail(p.queue[0]);
            Enabled(p, Take) && Enabled(Next(p, Take), e) && Next(Next(p, Take), e) == Worked(p, updated)
    ensures Inv(Worked(p, updated))
  {
    var e := if updated then Succeed(p.queue[0]) else Fail(p.queue[0]);
    InvStep(p, Take);
    InvStep(Next(p, Take), e);
    assert Next(Next(p, Take), e).working == multiset{};
  }

  /** How many of the heartbeats in a list can be handled. */
  function Good(ids: seq<Id>, updates: Id -> bool): nat {
    if ids == [] then 0 else Good(ids[..|ids| - 1], updates) + if updates(ids[|ids| - 1]) then 1 else 0
  }

  lemma GoodAppend(ids: seq<Id>, n: nat, updates: Id -> bool)
    requires n < |ids|
    ensures Good(ids[..n + 1], updates) == Good(ids[..n], updates) + if updates(ids[n]) then 1 else 0
  {
    assert ids[..n + 1][..n] == ids[..n];
  }

  class HTTPHeartbeatReceiver {
    const registered: set<string>
    var received: nat
    var processed: nat
    var errors: nat
    var queue: seq<Id>
    var workers: nat
    var stopped: bool
    ghost var handled: multiset<Id>
    ghost var failed: multiset<Id>
    ghost var rejected: multiset<Id>

    /** Between two calls nothing is arriving and no worker holds a heartbeat. */
    ghost function State(): Pool
      reads this
    {
      Pool(received, processed, errors, multiset{}, queue, multiset{}, handled, failed, rejected, workers, stopped)
    }

    constructor (registered: set<string>)
      ensures State() == NEW_POOL && this.registered == registered
      ensures workers == 10 && queue == [] && received == processed == errors == 0 && !stopped
    {
      this.registered := registered;
      received, processed, errors, queue, workers, stopped := 0, 0, 0, [], WORKERS, false;
      handled, failed, rejected := multiset{}, multiset{}, multiset{};
    }

    method ValidateRequest(r: Request) returns (ok: bool)
      ensures ok <==> r.agentId != "" && r.agentId in registered && 1 <= r.pid && 0.0 <= r.cpu <= 100.0
    {
      if r.agentId == "" {
        return false;
      }
      if r.agentId !in registered {
        return false;
      }
      if r.pid <= 0 {
        return false;
      }
      if r.cpu < 0.0 || r.cpu > 100.0 {
        return false;
      }
      return true;
    }

    /** One request from start to end; `None` is a body that cannot be decoded. */
    method HandleHeartbeat(m: Method, body: Option<Request>) returns (response: Response)
      requires Inv(State())
      modifies this
      ensures Inv(State())
      ensures response ==
              if m != Post then MethodNotAllowed
              else if old(stopped) then Unavailable
              else if body.None? then BadRequest
              else if body.value.agentId == "" || body.value.agentId !in registered then BadRequest
              else if body.value.pid < 1 || body.value.cpu < 0.0 || body.value.cpu > 100.0 then BadRequest
              else if |old(queue)| < 1000 then Accepted
              else Unavailable
      ensures m != Post || old(stopped) || response == BadRequest ==> State() == old(State())
      ensures m == Post && !old(stopped) && response != BadRequest ==>
                State() == Arrived(old(State()), response == Accepted)
      ensures queue == if response == Accepted then old(queue) + [old(received)] else old(queue)
    {
      if m != Post {
        return MethodNotAllowed;
      }
      if stopped {
        return Unavailable;
      }
      if body.None? {
        return BadRequest;
      }
      var ok := ValidateRequest(body.value);
      if !ok {
        return BadRequest;
      }
      ArrivedKeeps(State(), |queue| < CAPACITY);
      var id := received;
      received := received + 1;
      if |queue| < CAPACITY {
        queue := queue + [id];
        response := Accepted;
      } else {
        rejected := rejected + multiset{id};
        response := Unavailable;
      }
      assert State() == Arrived(old(State()), response == Accepted);
    }

    /** What a worker does with one heartbeat; `updated` says whether its agent's metadata could be updated. */
    method ProcessHeartbeat(id: Id, updated: bool)
      modifies this`processed, this`errors, this`handled, this`failed
      ensures processed == old(processed) + (if updated then 1 else 0)
      ensures errors == old(errors) + (if updated then 0 else 1)
      ensures handled == if updated then old(handled) + multiset{id} else old(handled)
      ensures failed == if updated then old(failed) else old(failed) + multiset{id}
    {
      if !updated {
        errors := errors + 1;
        failed := failed + multiset{id};
        return;
      }
      processed := processed + 1;
      handled := handled + multiset{id};
    }

    method TakeOne(updates: Id -> bool)
      requires queue != []
      modifies this`queue, this`processed, this`errors, this`handled, this`failed
      ensures State() == Worked(old(State()), updates(old(queue[0])))
    {
      var id := queue[0];
      queue := queue[1..];
      if updates(id) {
        ProcessHeartbeat(id, true);
      } else {
        ProcessHeartbeat(id, false);
      }
    }

    method LeaveOne()
      requires Inv(State()) && stopped && workers > 0
      modifies this`workers
      ensures Inv(State()) && workers == old(workers) - 1
    {
      InvStep(State(), WorkerLeaves);
      workers := workers - 1;
    }

    /**
     One worker on its own. While the receiver runs it works until the queue is empty; after Stop it takes `takes`
     more heartbeats at most before its select picks the stop signal, and leaves. Each one it takes is counted once.
     */
    method Work(updates: Id -> bool, takes: nat)
      requires Inv(State()) && workers > 0
      modifies this`queue, this`processed, this`errors, this`handled, this`failed, this`workers
      ensures Inv(State())
      ensures var all := old(queue);
              var n := if old(stopped) && takes < |all| then takes else |all|;
              && queue == all[n..]
              && processed == old(processed) + Good(all[..n], updates)
              && errors == old(errors) + n - Good(all[..n], updates)
      ensures workers == if old(stopped) then old(workers) - 1 else old(workers)
    {
      ghost var all := queue;
      var n := 0;
      while |queue| > 0 && (!stopped || n < takes)
        invariant Inv(State()) && workers == old(workers)
        invariant 0 <= n <= |all| && queue == all[n..] && (stopped ==> n <= takes)
        invariant processed == old(processed) + Good(all[..n], updates)
        invariant errors == old(errors) + n - Good(all[..n], updates)
        decreases |queue|
      {
        WorkedKeeps(State(), updates(queue[0]));
        TakeOne(updates);
        GoodAppend(all, n, updates);
        n := n + 1;
      }
      if stopped {
        LeaveOne();
      }
    }

    /** Stop when no worker is busy: they all leave, and what is queued stays queued. */
    method Stop()
      requires Inv(State())
      modifies this`stopped, this`workers
      ensures Inv(State()) && stopped
      ensures workers == if old(stopped) then old(workers) else 0
    {
      if stopped {
        return;
      }
      InvStep(State(), Event.Stop);
      stopped := true;
      while workers > 0
        invariant Inv(State()) && stopped
      {
        LeaveOne();
      }
    }
  }
}
