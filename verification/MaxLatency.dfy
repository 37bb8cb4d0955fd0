/**
 Recording heartbeat latencies from many goroutines: atomic counters and a maximum kept by a
 compare-and-swap loop. Each action is one atomic operation of one call.
 */
module MaxLatency {
  import opened Sums

  /** Where a call stands; `Loaded` remembers the value read and how many swaps had happened by then. */
  datatype Pc = Counting | Adding | Loading | Loaded(seen: int, swapsThen: nat) | Done

  /** One call of RecordHeartbeat, with how often it went round the loop and whether it swapped. */
  datatype Call = Call(latency: int, pc: Pc, retries: nat, swapped: bool, swapsBefore: nat)

  datatype Metrics = Metrics(
    processed: int, dropped: nat, totalLatency: int, maxLatency: int, swaps: nat, calls: seq<Call>)

  const NEW_METRICS := Metrics(0, 0, 0, 0, 0, [])

  datatype Action = Begin(latency: int) | Drop | Advance(call: nat)

  function Advanced(m: Metrics, i: nat): Metrics
    requires i < |m.calls|
  {
    var c := m.calls[i];
    match c.pc
    case Counting => m.(processed := m.processed + 1, calls := m.calls[i := c.(pc := Adding)])
    case Adding => m.(totalLatency := m.totalLatency + c.latency, calls := m.calls[i := c.(pc := Loading)])
    case Loading => m.(calls := m.calls[i := c.(pc := Loaded(m.maxLatency, m.swaps))])
    case Loaded(seen, _) =>
      if c.latency <= seen then m.(calls := m.calls[i := c.(pc := Done)])
      else if m.maxLatency == seen then
        m.(maxLatency := c.latency, swaps := m.swaps + 1, calls := m.calls[i := c.(pc := Done, swapped := true)])
      else m.(calls := m.calls[i := c.(pc := Loading, retries := c.retries + 1)])
    case Done => m
  }

  /** One atomic operation; advancing a call that is not there or is done changes nothing. */
  function Next(m: Metrics, a: Action): Metrics {
    match a
    case Begin(latency) => m.(calls := m.calls + [Call(latency, Counting, 0, false, m.swaps)])
    case Drop => m.(dropped := m.dropped + 1)
    case Advance(i) => if i < |m.calls| then Advanced(m, i) else m
  }

  function Exec(actions: seq<Action>): Metrics {
    if actions == [] then NEW_METRICS else Next(Exec(actions[..|actions| - 1]), actions[|actions| - 1])
  }

  function Counted(c: Call): int { if c.pc == Counting then 0 else 1 }

  function Added(c: Call): int { if c.pc == Counting || c.pc == Adding then 0 else c.latency }

  function Swaps(c: Call): int { if c.swapped then 1 else 0 }

  function Each(f: Call -> int, calls: seq<Call>): seq<int> {
    seq(|calls|, i requires 0 <= i < |calls| => f(calls[i]))
  }

  predicate Attained(m: Metrics) {
    m.maxLatency == 0 || exists i :: 0 <= i < |m.calls| && m.calls[i].latency == m.maxLatency
  }

  predicate Totals(m: Metrics) {
    && m.processed == Sum(Each(Counted, m.calls))
    && m.totalLatency == Sum(Each(Added, m.calls))
    && m.swaps == Sum(Each(Swaps, m.calls))
  }

  predicate CallInv(m: Metrics, c: Call) {
    && c.retries + Swaps(c) <= m.swaps - c.swapsBefore
    && (c.swapped ==> c.pc == Done)
    && (c.pc == Done ==> c.latency <= m.maxLatency)
    && (c.pc.Loaded? ==>
          && c.pc.swapsThen <= m.swaps
          && c.retries <= c.pc.swapsThen - c.swapsBefore
          && c.pc.seen <= m.maxLatency
          && (c.pc.seen == m.maxLatency <==> c.pc.swapsThen == m.swaps))
  }

  /** The maximum is 0 or the latency of a call that swapped, and every call agrees with it. */
  ghost predicate Inv(m: Metrics) {
    && Totals(m)
    && 0 <= m.maxLatency
    && Attained(m)
    && (forall i :: 0 <= i < |m.calls| ==> CallInv(m, m.calls[i]))
  }

  lemma EachUpdate(f: Call -> int, calls: seq<Call>, i: nat, c: Call)
    requires i < |calls|
    ensures Sum(Each(f, calls[i := c])) == Sum(Each(f, calls)) - f(calls[i]) + f(c)
  {
    assert Each(f, calls[i := c]) == Each(f, calls)[i := f(c)];
    SumUpdate(Each(f, calls), i, f(c));
  }

  lemma EachAppend(f: Call -> int, calls: seq<Call>, c: Call)
    ensures Sum(Each(f, calls + [c])) == Sum(Each(f, calls)) + f(c)
  {
    assert Each(f, calls + [c]) == Each(f, calls) + [f(c)];
    SumAppend(Each(f, calls), f(c));
  }

  lemma TotalsStep(m: Metrics, a: Action)
    requires Totals(m) && forall i :: 0 <= i < |m.calls| ==> CallInv(m, m.calls[i])
    ensures Totals(Next(m, a))
  {
    match a {
      case Begin(latency) =>
        var c := Call(latency, Counting, 0, false, m.swaps);
        EachAppend(Counted, m.calls, c);
        EachAppend(Added, m.calls, c);
        EachAppend(Swaps, m.calls, c);
      case Drop =>
      case Advance(i) =>
        if i < |m.calls| {
          var c := Next(m, a).calls[i];
          assert CallInv(m, m.calls[i]);
          assert Next(m, a).calls == m.calls[i := c];
          EachUpdate(Counted, m.calls, i, c);
          EachUpdate(Added, m.calls, i, c);
          EachUpdate(Swaps, m.calls, i, c);
        }
    }
  }

  /** A swap always raises the maximum, so it never goes down and a value read stays current only while nobody swaps. */
  lemma MaxStep(m: Metrics, a: Action)
    requires forall i :: 0 <= i < |m.calls| ==> CallInv(m, m.calls[i])
    ensures var m' := Next(m, a);
            || (m'.swaps == m.swaps && m'.maxLatency == m.maxLatency)
            || (m'.swaps == m.swaps + 1 && m'.maxLatency > m.maxLatency)
  {
  }

  lemma CallsStep(m: Metrics, a: Action)
    requires forall i :: 0 <= i < |m.calls| ==> CallInv(m, m.calls[i])
    ensures forall i :: 0 <= i < |Next(m, a).calls| ==> CallInv(Next(m, a), Next(m, a).calls[i])
  {
    var m' := Next(m, a);
    MaxStep(m, a);
    forall i | 0 <= i < |m'.calls|
      ensures CallInv(m', m'.calls[i])
    {
      if i < |m.calls| {
        assert CallInv(m, m.calls[i]);
      }
    }
  }

  lemma AttainedStep(m: Metrics, a: Action)
    requires Attained(m)
    ensures Attained(Next(m, a))
  {
    var m' := Next(m, a);
    if m'.maxLatency == m.maxLatency && m.maxLatency != 0 {
      var i :| 0 <= i < |m.calls| && m.calls[i].latency == m.maxLatency;
      assert m'.calls[i].latency == m'.maxLatency;
    } else if m'.maxLatency != m.maxLatency {
      assert m'.calls[a.call].latency == m'.maxLatency;
    }
  }

  lemma InvStep(m: Metrics, a: Action)
    requires Inv(m)
    ensures Inv(Next(m, a))
  {
    TotalsStep(m, a);
    CallsStep(m, a);
    MaxStep(m, a);
    AttainedStep(m, a);
  }

  lemma {:induction false} Reachable(actions: seq<Action>)
    ensures Inv(Exec(actions))
  {
    if actions != [] {
      Reachable(actions[..|actions| - 1]);
      InvStep(Exec(actions[..|actions| - 1]), actions[|actions| - 1]);
    } else {
      assert Each(Counted, []) == Each(Added, []) == Each(Swaps, []) == [];
    }
  }

  /** The stored maximum never decreases along a run and bounds every call that has returned. */
  lemma {:induction false} MaxGrows(actions: seq<Action>, k: nat)
    requires k <= |actions|
    ensures Exec(actions[..k]).maxLatency <= Exec(actions).maxLatency
    ensures forall i :: 0 <= i < |Exec(actions).calls| && Exec(actions).calls[i].pc == Done
              ==> Exec(actions).calls[i].latency <= Exec(actions).maxLatency
    decreases |actions|
  {
    Reachable(actions);
    forall i | 0 <= i < |Exec(actions).calls| && Exec(actions).calls[i].pc == Done
      ensures Exec(actions).calls[i].latency <= Exec(actions).maxLatency
    {
      assert CallInv(Exec(actions), Exec(actions).calls[i]);
    }
    if k == |actions| {
      assert actions[..k] == actions;
    } else {
      var before := actions[..|actions| - 1];
      assert before[..k] == actions[..k];
      MaxGrows(before, k);
      Reachable(before);
      MaxStep(Exec(before), actions[|actions| - 1]);
    }
  }

  /** A call goes round again at most once for each swap by another call since it began. */
  lemma RetriesBounded(actions: seq<Action>, i: nat)
    requires i < |Exec(actions).calls|
    ensures var m, c := Exec(actions), Exec(actions).calls[i];
            c.retries <= m.swaps - c.swapsBefore - (if c.swapped then 1 else 0)
  {
    Reachable(actions);
    assert CallInv(Exec(actions), Exec(actions).calls[i]);
  }

  function Latencies(calls: seq<Call>): seq<int> {
    seq(|calls|, i requires 0 <= i < |calls| => calls[i].latency)
  }

  /** The latencies of the calls begun, in order. */
  function Begun(actions: seq<Action>): seq<int> {
    if actions == [] then []
    else
      var a := actions[|actions| - 1];
      Begun(actions[..|actions| - 1]) + if a.Begin? then [a.latency] else []
  }

  function Drops(actions: seq<Action>): nat {
    if actions == [] then 0
    else Drops(actions[..|actions| - 1]) + if actions[|actions| - 1].Drop? then 1 else 0
  }

  lemma LatenciesStep(m: Metrics, a: Action)
    ensures Latencies(Next(m, a).calls) == Latencies(m.calls) + if a.Begin? then [a.latency] else []
  {
  }

  /** The calls are those begun, with their latencies, and every drop is counted. */
  lemma {:induction false} CallsAreBegun(actions: seq<Action>)
    ensures Latencies(Exec(actions).calls) == Begun(actions) && Exec(actions).dropped == Drops(actions)
  {
    if actions != [] {
      var n := |actions| - 1;
      CallsAreBegun(actions[..n]);
      LatenciesStep(Exec(actions[..n]), actions[n]);
    }
  }

  predicate AllDone(m: Metrics) {
    forall i :: 0 <= i < |m.calls| ==> m.calls[i].pc == Done
  }

  lemma FiguresAtRest(m: Metrics)
    requires Inv(m) && AllDone(m)
    ensures m.processed == |m.calls| && m.totalLatency == Sum(Latencies(m.calls))
  {
    assert Each(Added, m.calls) == Latencies(m.calls);
    forall i | 0 <= i < |m.calls| ensures Each(Counted, m.calls)[i] == 1 {
      assert m.calls[i].pc == Done && Counted(m.calls[i]) == 1;
    }
    SumBetween(Each(Counted, m.calls), 1, 1);
  }

  lemma MaxAtRest(m: Metrics)
    requires Inv(m) && AllDone(m)
    ensures m.maxLatency in [0] + Latencies(m.calls)
    ensures forall x :: x in [0] + Latencies(m.calls) ==> x <= m.maxLatency
  {
    if i :| 0 <= i < |m.calls| && m.calls[i].latency == m.maxLatency {
      assert ([0] + Latencies(m.calls))[i + 1] == m.maxLatency;
    }
    forall i | 0 <= i < |m.calls| ensures m.calls[i].latency <= m.maxLatency {
      assert CallInv(m, m.calls[i]);
    }
  }

  /** When every call has returned, all figures are exact. */
  lemma {:induction false} AtRest(actions: seq<Action>)
    requires AllDone(Exec(actions))
    ensures var m, all := Exec(actions), [0] + Begun(actions);
            && m.processed == |Begun(actions)| && m.dropped == Drops(actions)
            && m.totalLatency == Sum(Begun(actions))
            && m.maxLatency in all && (forall x :: x in all ==> x <= m.maxLatency)
  {
    Reachable(actions);
    CallsAreBegun(actions);
    FiguresAtRest(Exec(actions));
    MaxAtRest(Exec(actions));
  }

  /** The largest of a value and the first n others. */
  predicate IsMax(m: int, value: int, others: seq<int>, n: nat)
    requires n <= |others|
  {
    && value <= m && (forall i :: 0 <= i < n ==> others[i] <= m)
    && (m == value || exists i :: 0 <= i < n && others[i] == m)
  }

  /** The counters themselves. */
  class PerformanceMetrics {
    var processed: int
    var dropped: nat
    var totalLatency: int
    var maxLatency: int

    constructor ()
      ensures processed == 0 && dropped == 0 && totalLatency == 0 && maxLatency == 0
    {
      processed, dropped, totalLatency, maxLatency := 0, 0, 0, 0;
    }

    method CompareAndSwap(expected: int, value: int) returns (swapped: bool)
      modifies this`maxLatency
      ensures swapped == (old(maxLatency) == expected)
      ensures maxLatency == if swapped then value else old(maxLatency)
    {
      swapped := maxLatency == expected;
      if swapped {
        maxLatency := value;
      }
    }

    /**
     One call among others: before its i-th swap another call raises the maximum to others[i], if that is larger.
     `seen` says how many of them it met; it goes round once for each that got ahead of its swap.
     */
    method RecordHeartbeat(latency: int, wasDropped: bool, others: seq<int>) returns (seen: nat)
      modifies this
      ensures dropped == old(dropped) + if wasDropped then 1 else 0
      ensures processed == old(processed) + if wasDropped then 0 else 1
      ensures totalLatency == old(totalLatency) + if wasDropped then 0 else latency
      ensures seen <= |others| && (wasDropped ==> seen == 0)
      ensures var start := if !wasDropped && latency > old(maxLatency) then latency else old(maxLatency);
              IsMax(maxLatency, start, others, seen)
    {
      seen := 0;
      if wasDropped {
        dropped := dropped + 1;
        return;
      }
      processed := processed + 1;
      totalLatency := totalLatency + latency;
      var done := false;
      while !done
        invariant 0 <= seen <= |others|
        invariant dropped == old(dropped) && processed == old(processed) + 1
        invariant totalLatency == old(totalLatency) + latency
        invariant IsMax(maxLatency, if done && latency > old(maxLatency) then latency else old(maxLatency),
                        others, seen)
        invariant done ==> latency <= maxLatency
        decreases |others| - seen, !done
      {
        var currentMax := maxLatency;
        if latency <= currentMax {
          done := true;
        } else {
          if seen < |others| {
            if others[seen] > maxLatency {
              maxLatency := others[seen];
            }
            seen := seen + 1;
          }
          done := CompareAndSwap(currentMax, latency);
        }
      }
    }
  }
}
