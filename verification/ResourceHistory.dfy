/**
 Aggregation of resource samples into time windows.
 */
module ResourceHistory {
  import opened Uint64

  datatype Point = Point(
    timestamp: int, cpu: real, memoryRSS: nat, memoryVMS: nat, diskReadBytes: nat, diskWriteBytes: nat,
    openFiles: nat, numThreads: nat)

  datatype Window = Window(start: int, points: seq<Point>)

  /** Time truncation; a non-positive interval leaves the time as it is. */
  function Truncate(t: int, interval: int): int {
    if interval <= 0 then t else t - t % interval
  }

  /** The time slot of a point. */
  function Slot(interval: int): Point -> int {
    (p: Point) => Truncate(p.timestamp, interval)
  }

  lemma MulMonotone(a: int, b: int, n: nat)
    requires a <= b
    ensures a * n <= b * n
  {
  }

  lemma MulNext(a: int, n: nat)
    ensures a * (n + 1) == a * n + a
  {
  }

  lemma MultipleHasNoRest(q: int, n: nat)
    requires n > 0
    ensures (q * n) % n == 0
  {
    var d, r := (q * n) / n, (q * n) % n;
    assert q * n == d * n + r;
    assert (q - d) * n == r;
    if q > d {
      MulMonotone(1, q - d, n);
    } else if q < d {
      MulMonotone(q - d, -1, n);
    }
  }

  /** The truncated time is the multiple of the interval at or last before the time. */
  lemma TruncateLaw(t: int, interval: int)
    ensures interval <= 0 ==> Truncate(t, interval) == t
    ensures interval > 0 ==> Truncate(t, interval) <= t < Truncate(t, interval) + interval
    ensures interval > 0 ==> Truncate(t, interval) % interval == 0
  {
    if interval > 0 {
      assert t == t / interval * interval + t % interval;
      MultipleHasNoRest(t / interval, interval);
    }
  }

  lemma SameMultiple(q: int, r: int, n: nat, t: int)
    requires q * n <= t < q * n + n && r * n <= t < r * n + n
    ensures q == r
  {
    if q < r {
      MulMonotone(q + 1, r, n);
    } else if r < q {
      MulMonotone(r + 1, q, n);
    }
  }

  lemma ExactQuotient(a: int, n: nat)
    requires n > 0
    ensures a == a / n * n + a % n
  {
  }

  /** A multiple of the interval is the truncated time of exactly the times from it to the next one. */
  lemma TruncateIff(t: int, start: int, interval: int)
    requires interval > 0 && start % interval == 0
    ensures Truncate(t, interval) == start <==> start <= t < start + interval
  {
    TruncateLaw(t, interval);
    if start <= t < start + interval {
      ExactQuotient(t, interval);
      ExactQuotient(start, interval);
      SameMultiple(t / interval, start / interval, interval, t);
    }
  }

  lemma TruncateMonotone(t: int, u: int, interval: int)
    requires t <= u
    ensures Truncate(t, interval) <= Truncate(u, interval)
  {
    if interval > 0 {
      var q, r := t / interval, u / interval;
      assert t == q * interval + t % interval && u == r * interval + u % interval;
      if q > r {
        MulMonotone(r + 1, q, interval);
        assert false;
      }
      MulMonotone(q, r, interval);
    }
  }

  // ---- Streaming into windows ----

  /** A point opens a new window when its truncated time lies after the current one, else it joins. */
  function Joined(ws: seq<Window>, p: Point, start: int): seq<Window> {
    if ws == [] || start > ws[|ws| - 1].start then ws + [Window(start, [p])]
    else ws[|ws| - 1 := ws[|ws| - 1].(points := ws[|ws| - 1].points + [p])]
  }

  function Windows(data: seq<Point>, key: Point -> int): seq<Window> {
    if data == [] then []
    else
      var p := data[|data| - 1];
      Joined(Windows(data[..|data| - 1], key), p, key(p))
  }

  function Flatten(ws: seq<Window>): seq<Point> {
    if ws == [] then [] else Flatten(ws[..|ws| - 1]) + ws[|ws| - 1].points
  }

  predicate Increasing(ws: seq<Window>) {
    forall i, j :: 0 <= i < j < |ws| ==> ws[i].start < ws[j].start
  }

  /** Each window starts at the truncated time of its first point. */
  predicate StartsMatch(ws: seq<Window>, key: Point -> int) {
    forall i :: 0 <= i < |ws| ==> ws[i].points != [] && key(ws[i].points[0]) == ws[i].start
  }

  lemma JoinedFlatten(ws: seq<Window>, p: Point, start: int)
    ensures Flatten(Joined(ws, p, start)) == Flatten(ws) + [p]
  {
    var ws' := Joined(ws, p, start);
    if |ws'| > |ws| {
      assert ws'[..|ws|] == ws;
    } else {
      assert ws'[..|ws| - 1] == ws[..|ws| - 1];
    }
  }

  lemma JoinedStarts(ws: seq<Window>, p: Point, key: Point -> int)
    requires StartsMatch(ws, key)
    ensures StartsMatch(Joined(ws, p, key(p)), key)
  {
    var ws' := Joined(ws, p, key(p));
    forall i | 0 <= i < |ws'|
      ensures ws'[i].points != [] && key(ws'[i].points[0]) == ws'[i].start
    {
      if i < |ws| {
        assert ws'[i].start == ws[i].start && ws'[i].points[0] == ws[i].points[0];
      }
    }
  }

  lemma JoinedIncreasing(ws: seq<Window>, p: Point, start: int)
    requires Increasing(ws)
    ensures Increasing(Joined(ws, p, start))
  {
    var ws' := Joined(ws, p, start);
    forall i, j | 0 <= i < j < |ws'|
      ensures ws'[i].start < ws'[j].start
    {
      assert ws'[i].start == ws[i].start;
      if j < |ws| {
        assert ws'[j].start == ws[j].start;
      }
    }
  }

  lemma {:induction false} WindowsIncrease(data: seq<Point>, key: Point -> int)
    ensures Increasing(Windows(data, key))
  {
    if data != [] {
      var before, p := data[..|data| - 1], data[|data| - 1];
      WindowsIncrease(before, key);
      JoinedIncreasing(Windows(before, key), p, key(p));
    }
  }

  lemma {:induction false} WindowsStart(data: seq<Point>, key: Point -> int)
    ensures StartsMatch(Windows(data, key), key)
  {
    if data != [] {
      var before, p := data[..|data| - 1], data[|data| - 1];
      WindowsStart(before, key);
      JoinedStarts(Windows(before, key), p, key);
    }
  }

  lemma FlattenNext(ws: seq<Window>, ws': seq<Window>, before: seq<Point>, data: seq<Point>, key: Point -> int)
    requires data != [] && before == data[..|data| - 1]
    requires Flatten(ws) == before && ws' == Joined(ws, data[|data| - 1], key(data[|data| - 1]))
    ensures Flatten(ws') == data
  {
    var p := data[|data| - 1];
    JoinedFlatten(ws, p, key(p));
    assert before + [p] == data;
  }

  lemma {:induction false} WindowsFlatten(data: seq<Point>, key: Point -> int)
    ensures Flatten(Windows(data, key)) == data
  {
    if data != [] {
      var before, p := data[..|data| - 1], data[|data| - 1];
      WindowsFlatten(before, key);
      FlattenNext(Windows(before, key), Windows(data, key), before, data, key);
    }
  }

  /** For any data at all: the windows split it, none is empty, and their starts strictly increase. */
  lemma {:induction false} WindowsPartition(data: seq<Point>, key: Point -> int)
    ensures Increasing(Windows(data, key)) && StartsMatch(Windows(data, key), key)
    ensures Flatten(Windows(data, key)) == data
  {
    WindowsIncrease(data, key);
    WindowsStart(data, key);
    WindowsFlatten(data, key);
  }

  // ---- Grouping by truncated time ----

  /** The points of one truncated time, in order. */
  function Group(data: seq<Point>, start: int, key: Point -> int): seq<Point> {
    if data == [] then []
    else
      Group(data[..|data| - 1], start, key)
      + if key(data[|data| - 1]) == start then [data[|data| - 1]] else []
  }

  predicate Occurs(ws: seq<Window>, start: int) {
    exists k :: 0 <= k < |ws| && ws[k].start == start
  }

  /** The windows are exactly the groups: one for each truncated time that occurs, holding all its points. */
  ghost predicate AreGroups(ws: seq<Window>, data: seq<Point>, key: Point -> int) {
    && (forall i :: 0 <= i < |ws| ==> ws[i].points == Group(data, ws[i].start, key))
    && (forall i :: 0 <= i < |data| ==> Occurs(ws, key(data[i])))
  }

  predicate InOrder(data: seq<Point>, key: Point -> int) {
    forall i, j :: 0 <= i < j < |data| ==> key(data[i]) <= key(data[j])
  }

  /** The last window starts at the latest truncated time so far. */
  lemma {:induction false} LastStartIsLatest(data: seq<Point>, key: Point -> int)
    requires data != []
    ensures var ws := Windows(data, key);
            ws != [] && forall i :: 0 <= i < |data| ==> key(data[i]) <= ws[|ws| - 1].start
  {
    var n := |data| - 1;
    if n > 0 {
      LastStartIsLatest(data[..n], key);
      assert forall i :: 0 <= i < n ==> data[i] == data[..n][i];
    }
  }

  lemma {:induction false} NoGroup(data: seq<Point>, start: int, key: Point -> int)
    requires forall i :: 0 <= i < |data| ==> key(data[i]) != start
    ensures Group(data, start, key) == []
  {
    if data != [] {
      NoGroup(data[..|data| - 1], start, key);
    }
  }

  /** A truncated time past the last window has not occurred before. */
  lemma NewSlot(data: seq<Point>, key: Point -> int, start: int)
    requires data != [] ==> Windows(data, key) == [] || start > Windows(data, key)[|Windows(data, key)| - 1].start
    ensures Group(data, start, key) == []
  {
    if data != [] {
      LastStartIsLatest(data, key);
    }
    NoGroup(data, start, key);
  }

  /** One more point with a truncated time at or after all others. */
  lemma JoinedGroups(ws: seq<Window>, p: Point, start: int, before: seq<Point>, data: seq<Point>, key: Point -> int)
    requires start == key(p) && data == before + [p]
    requires AreGroups(ws, before, key) && Increasing(ws)
    requires ws != [] ==> ws[|ws| - 1].start <= start
    requires ws == [] || start > ws[|ws| - 1].start ==> Group(before, start, key) == []
    ensures AreGroups(Joined(ws, p, start), data, key)
  {
    var ws' := Joined(ws, p, start);
    assert data[..|data| - 1] == before;
    forall i | 0 <= i < |ws'|
      ensures ws'[i].points == Group(data, ws'[i].start, key)
    {
      if i < |ws| - 1 {
        assert ws'[i] == ws[i] && ws[i].start < ws[|ws| - 1].start;
      } else if i < |ws| {
        assert ws'[i].start == ws[i].start;
      }
    }
    forall i | 0 <= i < |data|
      ensures Occurs(ws', key(data[i]))
    {
      if i < |before| {
        assert data[i] == before[i];
        var k :| 0 <= k < |ws| && ws[k].start == key(before[i]);
        assert k < |ws'| && ws'[k].start == key(data[i]);
      } else {
        assert data[i] == p && ws'[|ws'| - 1].start == key(data[i]);
      }
    }
  }

  lemma WindowStartOccurs(data: seq<Point>, key: Point -> int)
    requires data != []
    ensures var ws := Windows(data, key);
            ws != [] && exists i :: 0 <= i < |data| && key(data[i]) == ws[|ws| - 1].start
  {
    var n := |data| - 1;
    if n > 0 {
      WindowStartOccurs(data[..n], key);
      var ws := Windows(data[..n], key);
      var i :| 0 <= i < n && key(data[..n][i]) == ws[|ws| - 1].start;
      assert data[i] == data[..n][i];
    } else {
      assert data[..n] == [];
      assert key(data[n]) == Windows(data, key)[0].start;
    }
  }

  lemma {:induction false} OrderedWindowsAreGroups(data: seq<Point>, key: Point -> int)
    requires InOrder(data, key)
    ensures AreGroups(Windows(data, key), data, key)
  {
    if data != [] {
      var n := |data| - 1;
      var before, p := data[..n], data[n];
      var start := key(p);
      assert forall i :: 0 <= i < n ==> before[i] == data[i];
      OrderedWindowsAreGroups(before, key);
      WindowsIncrease(before, key);
      var ws := Windows(before, key);
      if before != [] {
        WindowStartOccurs(before, key);
      }
      if ws == [] || start > ws[|ws| - 1].start {
        NewSlot(before, key, start);
      }
      JoinedGroups(ws, p, start, before, data, key);
    }
  }

  lemma {:induction false} GroupMembers(data: seq<Point>, start: int, key: Point -> int)
    ensures forall p :: p in Group(data, start, key) ==> key(p) == start
  {
    if data != [] {
      GroupMembers(data[..|data| - 1], start, key);
    }
  }

  lemma {:induction false} FlattenInOrder(ws: seq<Window>, key: Point -> int)
    requires Increasing(ws)
    requires forall i, p :: 0 <= i < |ws| && p in ws[i].points ==> key(p) == ws[i].start
    ensures InOrder(Flatten(ws), key)
    ensures forall p :: p in Flatten(ws) ==> ws != [] && key(p) <= ws[|ws| - 1].start
  {
    if ws != [] {
      var n := |ws| - 1;
      FlattenInOrder(ws[..n], key);
      var all, front := Flatten(ws), Flatten(ws[..n]);
      forall i | 0 <= i < |all|
        ensures if i < |front| then n > 0 && key(all[i]) <= ws[n - 1].start
                else key(all[i]) == ws[n].start
      {
        if i < |front| {
          assert all[i] == front[i];
        } else {
          assert all[i] == ws[n].points[i - |front|];
        }
      }
      forall i, j | 0 <= i < j < |front|
        ensures key(all[i]) <= key(all[j])
      {
        assert all[i] == front[i] && all[j] == front[j];
      }
    }
  }

  /** Streaming equals grouping by truncated time exactly when the truncated times are in order. */
  lemma {:induction false} StreamingIsGroupingIff(data: seq<Point>, key: Point -> int)
    ensures AreGroups(Windows(data, key), data, key) <==> InOrder(data, key)
  {
    if InOrder(data, key) {
      OrderedWindowsAreGroups(data, key);
    } else if AreGroups(Windows(data, key), data, key) {
      var ws := Windows(data, key);
      WindowsPartition(data, key);
      forall i, p | 0 <= i < |ws| && p in ws[i].points
        ensures key(p) == ws[i].start
      {
        GroupMembers(data, ws[i].start, key);
      }
      FlattenInOrder(ws, key);
      assert false;
    }
  }

  /** On samples in time order, the streaming windows are the groups of equal truncated time. */
  lemma {:induction false} TimeOrderGroups(data: seq<Point>, interval: int)
    requires forall i, j :: 0 <= i < j < |data| ==> data[i].timestamp <= data[j].timestamp
    ensures AreGroups(Windows(data, Slot(interval)), data, Slot(interval))
  {
    forall i, j | 0 <= i < j < |data|
      ensures Slot(interval)(data[i]) <= Slot(interval)(data[j])
    {
      TruncateMonotone(data[i].timestamp, data[j].timestamp, interval);
    }
    StreamingIsGroupingIff(data, Slot(interval));
  }

  // ---- Averages ----

  function SumCPU(points: seq<Point>): real {
    if points == [] then 0.0 else SumCPU(points[..|points| - 1]) + points[|points| - 1].cpu
  }

  function MemoryRSS(p: Point): nat { p.memoryRSS }

  function MemoryVMS(p: Point): nat { p.memoryVMS }

  function DiskRead(p: Point): nat { p.diskReadBytes }

  function DiskWrite(p: Point): nat { p.diskWriteBytes }

  function OpenFiles(p: Point): nat { p.openFiles }

  function NumThreads(p: Point): nat { p.numThreads }

  function Total(points: seq<Point>, field: Point -> nat): nat {
    if points == [] then 0 else Total(points[..|points| - 1], field) + field(points[|points| - 1])
  }

  /** A uint64 sum wraps around at every addition. */
  function Wrapped(points: seq<Point>, field: Point -> nat): nat {
    if points == [] then 0 else Add64(Wrapped(points[..|points| - 1], field), field(points[|points| - 1]))
  }

  function AverageCPU(points: seq<Point>): real
    requires points != []
  {
    SumCPU(points) / (|points| as real)
  }

  function Quotient(sum: nat, count: nat): nat
    requires count > 0
  {
    sum / count
  }

  function Aggregate(points: seq<Point>, start: int): Point {
    if points == [] then Point(start, 0.0, 0, 0, 0, 0, 0, 0)
    else
      var n := |points|;
      Point(start, AverageCPU(points),
            Quotient(Wrapped(points, MemoryRSS), n), Quotient(Wrapped(points, MemoryVMS), n),
            Quotient(Wrapped(points, DiskRead), n), Quotient(Wrapped(points, DiskWrite), n),
            Quotient(Total(points, OpenFiles), n), Quotient(Total(points, NumThreads), n))
  }

  lemma QuotientBetween(sum: real, n: real, low: real, high: real)
    requires n > 0.0 && low * n <= sum <= high * n
    ensures low <= sum / n <= high
  {
    var q := sum / n;
    assert q * n == sum;
    assert (q - low) * n >= 0.0 && (high - q) * n >= 0.0;
  }

  lemma {:induction false} SumCPUBetween(points: seq<Point>, low: real, high: real)
    requires forall p :: p in points ==> low <= p.cpu <= high
    ensures low * (|points| as real) <= SumCPU(points) <= high * (|points| as real)
  {
    if points != [] {
      var n := |points| - 1;
      SumCPUBetween(points[..n], low, high);
      assert low * (|points| as real) == low * (n as real) + low;
      assert high * (|points| as real) == high * (n as real) + high;
    }
  }

  lemma {:induction false} AverageCPUBetween(points: seq<Point>, start: int, low: real, high: real)
    requires points != [] && forall p :: p in points ==> low <= p.cpu <= high
    ensures low <= Aggregate(points, start).cpu <= high
  {
    SumCPUBetween(points, low, high);
    QuotientBetween(SumCPU(points), |points| as real, low, high);
  }

  lemma {:induction false} WrappedIsTotal(points: seq<Point>, field: Point -> nat)
    ensures Wrapped(points, field) == Total(points, field) % TWO_64
  {
    if points != [] {
      WrappedIsTotal(points[..|points| - 1], field);
    }
  }

  lemma DivisionLaw(a: nat, n: nat)
    requires n > 0
    ensures Quotient(a, n) * n <= a < Quotient(a, n) * n + n
  {
  }

  /** A uint64 average times the count falls short of the true sum by less than the count iff the sum fits 64 bits. */
  lemma Average64Law(points: seq<Point>, field: Point -> nat)
    requires points != [] && |points| <= TWO_64
    ensures var sum, n, q := Total(points, field), |points|, Quotient(Wrapped(points, field), |points|);
            q * n <= sum < q * n + n <==> sum < TWO_64
  {
    WrappedIsTotal(points, field);
    DivisionLaw(Wrapped(points, field), |points|);
  }

  lemma FactorBetween(q: int, n: nat, sum: int, low: int, high: int)
    requires n > 0 && q * n <= sum < q * n + n && low * n <= sum <= high * n
    ensures low <= q <= high
  {
    if q < low {
      MulMonotone(q + 1, low, n);
      assert false;
    }
    if q > high {
      MulMonotone(high + 1, q, n);
      assert false;
    }
  }

  lemma {:induction false} TotalBetween(points: seq<Point>, field: Point -> nat, low: nat, high: nat)
    requires forall p :: p in points ==> low <= field(p) <= high
    ensures low * |points| <= Total(points, field) <= high * |points|
  {
    if points != [] {
      var n := |points| - 1;
      TotalBetween(points[..n], field, low, high);
      MulNext(low, n);
      MulNext(high, n);
    }
  }

  /** An int average is never off by the count or more, and lies between the smallest and the largest value. */
  lemma {:induction false} AverageIntLaw(points: seq<Point>, field: Point -> nat, low: nat, high: nat)
    requires points != [] && forall p :: p in points ==> low <= field(p) <= high
    ensures var sum, n, q := Total(points, field), |points|, Quotient(Total(points, field), |points|);
            q * n <= sum < q * n + n && low <= q <= high
  {
    DivisionLaw(Total(points, field), |points|);
    TotalBetween(points, field, low, high);
    FactorBetween(Quotient(Total(points, field), |points|), |points|, Total(points, field), low, high);
  }

  lemma FitsUnwrapped(points: seq<Point>, field: Point -> nat)
    requires Total(points, field) < TWO_64
    ensures Wrapped(points, field) == Total(points, field)
  {
    WrappedIsTotal(points, field);
  }

  /** If the sum fits 64 bits, the same holds for a uint64 average. */
  lemma {:induction false} Average64Between(points: seq<Point>, field: Point -> nat, low: nat, high: nat)
    requires points != [] && forall p :: p in points ==> low <= field(p) <= high
    requires Total(points, field) < TWO_64
    ensures low <= Quotient(Wrapped(points, field), |points|) <= high
  {
    AverageIntLaw(points, field, low, high);
    FitsUnwrapped(points, field);
  }

  /** Figure by figure, between two points. */
  predicate Within(low: Point, p: Point, high: Point) {
    && low.cpu <= p.cpu <= high.cpu
    && low.memoryRSS <= p.memoryRSS <= high.memoryRSS && low.memoryVMS <= p.memoryVMS <= high.memoryVMS
    && low.diskReadBytes <= p.diskReadBytes <= high.diskReadBytes
    && low.diskWriteBytes <= p.diskWriteBytes <= high.diskWriteBytes
    && low.openFiles <= p.openFiles <= high.openFiles && low.numThreads <= p.numThreads <= high.numThreads
  }

  /**
   Each figure of an aggregate lies between any bounds of that same figure in its points, if their sums fit 64 bits;
   so equal points average to themselves.
   */
  lemma {:induction false} AggregateBetween(points: seq<Point>, start: int, low: Point, high: Point)
    requires points != [] && forall p :: p in points ==> Within(low, p, high)
    requires Total(points, MemoryRSS) < TWO_64 && Total(points, MemoryVMS) < TWO_64
    requires Total(points, DiskRead) < TWO_64 && Total(points, DiskWrite) < TWO_64
    ensures Aggregate(points, start).timestamp == start && Within(low, Aggregate(points, start), high)
  {
    AverageCPUBetween(points, start, low.cpu, high.cpu);
    Average64Between(points, MemoryRSS, low.memoryRSS, high.memoryRSS);
    Average64Between(points, MemoryVMS, low.memoryVMS, high.memoryVMS);
    Average64Between(points, DiskRead, low.diskReadBytes, high.diskReadBytes);
    Average64Between(points, DiskWrite, low.diskWriteBytes, high.diskWriteBytes);
    AverageIntLaw(points, OpenFiles, low.openFiles, high.openFiles);
    AverageIntLaw(points, NumThreads, low.numThreads, high.numThreads);
  }

  // ---- Slots of time ----

  predicate TimeOrdered(data: seq<Point>) {
    forall i, j :: 0 <= i < j < |data| ==> data[i].timestamp <= data[j].timestamp
  }

  /** The points from `start` up to but not including one interval later, in order. */
  function Between(data: seq<Point>, start: int, interval: int): seq<Point> {
    if data == [] then []
    else
      var p := data[|data| - 1];
      Between(data[..|data| - 1], start, interval) + if start <= p.timestamp < start + interval then [p] else []
  }

  lemma {:induction false} GroupIsBetween(data: seq<Point>, start: int, interval: int)
    requires interval > 0 && start % interval == 0
    ensures Group(data, start, Slot(interval)) == Between(data, start, interval)
  {
    if data != [] {
      GroupIsBetween(data[..|data| - 1], start, interval);
      TruncateIff(data[|data| - 1].timestamp, start, interval);
    }
  }

  predicate OnGrid(start: int, interval: int)
    requires interval > 0
  {
    start % interval == 0
  }

  predicate InSlot(t: int, start: int, interval: int) {
    start <= t < start + interval
  }

  lemma WindowByTheClock(data: seq<Point>, interval: int, w: Window)
    requires interval > 0 && w.points != [] && w.start == Truncate(w.points[0].timestamp, interval)
    requires w.points == Group(data, w.start, Slot(interval))
    ensures OnGrid(w.start, interval) && w.points == Between(data, w.start, interval)
  {
    TruncateLaw(w.points[0].timestamp, interval);
    GroupIsBetween(data, w.start, interval);
  }

  lemma PointByTheClock(ws: seq<Window>, t: int, interval: int) returns (i: nat)
    requires interval > 0 && Occurs(ws, Truncate(t, interval))
    ensures i < |ws| && InSlot(t, ws[i].start, interval)
  {
    i :| 0 <= i < |ws| && ws[i].start == Truncate(t, interval);
    TruncateLaw(t, interval);
  }

  /**
   Aggregates by the clock: one for each interval with a point in it, stamped with the interval's start, a multiple
   of its length, and averaging just the points in it.
   */
  ghost predicate ByTheClock(result: seq<Point>, data: seq<Point>, interval: int)
    requires interval > 0
  {
    && (forall i, j :: 0 <= i < j < |result| ==> result[i].timestamp < result[j].timestamp)
    && (forall i :: 0 <= i < |result| ==> OnGrid(result[i].timestamp, interval))
    && (forall i :: 0 <= i < |result| ==> Between(data, result[i].timestamp, interval) != [])
    && (forall i :: 0 <= i < |result| ==>
          result[i] == Aggregate(Between(data, result[i].timestamp, interval), result[i].timestamp))
    && (forall j :: 0 <= j < |data| ==> exists i ::
          0 <= i < |result| && InSlot(data[j].timestamp, result[i].timestamp, interval))
  }

  // ---- The code ----

  lemma WrappedNext(points: seq<Point>, i: nat, field: Point -> nat)
    requires i < |points|
    ensures Wrapped(points[..i + 1], field) == Add64(Wrapped(points[..i], field), field(points[i]))
    ensures Total(points[..i + 1], field) == Total(points[..i], field) + field(points[i])
    ensures SumCPU(points[..i + 1]) == SumCPU(points[..i]) + points[i].cpu
  {
    assert points[..i + 1][..i] == points[..i];
  }

  method AggregateDataPoints(points: seq<Point>, timestamp: int) returns (r: Point)
    ensures r == Aggregate(points, timestamp)
    ensures points == [] ==> r == Point(timestamp, 0.0, 0, 0, 0, 0, 0, 0)
  {
    if |points| == 0 {
      return Point(timestamp, 0.0, 0, 0, 0, 0, 0, 0);
    }
    var cpu := 0.0;
    var rss: nat, vms: nat, read: nat, write: nat, files: nat, threads: nat := 0, 0, 0, 0, 0, 0;
    for i := 0 to |points|
      invariant cpu == SumCPU(points[..i])
      invariant rss == Wrapped(points[..i], MemoryRSS) && vms == Wrapped(points[..i], MemoryVMS)
      invariant read == Wrapped(points[..i], DiskRead) && write == Wrapped(points[..i], DiskWrite)
      invariant files == Total(points[..i], OpenFiles) && threads == Total(points[..i], NumThreads)
    {
      var p := points[i];
      WrappedNext(points, i, MemoryRSS);
      WrappedNext(points, i, MemoryVMS);
      WrappedNext(points, i, DiskRead);
      WrappedNext(points, i, DiskWrite);
      WrappedNext(points, i, OpenFiles);
      WrappedNext(points, i, NumThreads);
      cpu := cpu + p.cpu;
      rss := Add64(rss, p.memoryRSS);
      vms := Add64(vms, p.memoryVMS);
      read := Add64(read, p.diskReadBytes);
      write := Add64(write, p.diskWriteBytes);
      files := files + p.openFiles;
      threads := threads + p.numThreads;
    }
    assert points[..|points|] == points;
    var n := |points|;
    r := Point(timestamp, cpu / (n as real), Quotient(rss, n), Quotient(vms, n), Quotient(read, n), Quotient(write, n),
               Quotient(files, n), Quotient(threads, n));
  }

  lemma WindowsNext(data: seq<Point>, i: nat, key: Point -> int)
    requires i < |data|
    ensures Windows(data[..i + 1], key) == Joined(Windows(data[..i], key), data[i], key(data[i]))
  {
    assert data[..i + 1][..i] == data[..i];
  }

  lemma JoinedLast(closed: seq<Window>, last: Window, p: Point, start: int)
    ensures Joined(closed + [last], p, start) ==
            if start > last.start then closed + [last] + [Window(start, [p])]
            else closed + [Window(last.start, last.points + [p])]
  {
  }

  predicate NoneEmpty(ws: seq<Window>) {
    forall i :: 0 <= i < |ws| ==> ws[i].points != []
  }

  function Aggregated(ws: seq<Window>): seq<Point>
    requires NoneEmpty(ws)
  {
    seq(|ws|, i requires 0 <= i < |ws| => Aggregate(ws[i].points, ws[i].start))
  }

  lemma AggregatedAppend(ws: seq<Window>, w: Window)
    requires NoneEmpty(ws) && w.points != []
    ensures NoneEmpty(ws + [w]) && Aggregated(ws + [w]) == Aggregated(ws) + [Aggregate(w.points, w.start)]
  {
  }

  lemma {:induction false} ResultByTheClock(data: seq<Point>, interval: int)
    requires interval > 0 && TimeOrdered(data) && NoneEmpty(Windows(data, Slot(interval)))
    ensures ByTheClock(Aggregated(Windows(data, Slot(interval))), data, interval)
  {
    var ws := Windows(data, Slot(interval));
    var result := Aggregated(ws);
    TimeOrderGroups(data, interval);
    WindowsPartition(data, Slot(interval));
    forall i | 0 <= i < |result|
      ensures OnGrid(result[i].timestamp, interval) && Between(data, result[i].timestamp, interval) != []
      ensures result[i] == Aggregate(Between(data, result[i].timestamp, interval), result[i].timestamp)
    {
      WindowByTheClock(data, interval, ws[i]);
    }
    forall j | 0 <= j < |data|
      ensures exists i :: 0 <= i < |result| && InSlot(data[j].timestamp, result[i].timestamp, interval)
    {
      assert Slot(interval)(data[j]) == Truncate(data[j].timestamp, interval);
      var i := PointByTheClock(ws, data[j].timestamp, interval);
      assert InSlot(data[j].timestamp, result[i].timestamp, interval);
    }
  }

  method GetResourceHistoryAggregated(rawData: seq<Point>, interval: int) returns (result: seq<Point>)
    ensures NoneEmpty(Windows(rawData, Slot(interval)))
    ensures result == Aggregated(Windows(rawData, Slot(interval)))
    ensures interval > 0 && TimeOrdered(rawData) ==> ByTheClock(result, rawData, interval)
  {
    result := [];
    if rawData == [] {
      return;
    }
    ghost var key := Slot(interval);
    var currentWindowStart := Truncate(rawData[0].timestamp, interval);
    var windowData: seq<Point> := [];
    ghost var closed: seq<Window> := [];
    assert rawData[..0] == [];
    for i := 0 to |rawData|
      invariant i == 0 ==> windowData == [] && currentWindowStart == key(rawData[0]) && closed == []
      invariant i > 0 ==> windowData != []
      invariant Windows(rawData[..i], key) == if i == 0 then [] else closed + [Window(currentWindowStart, windowData)]
      invariant NoneEmpty(closed) && result == Aggregated(closed)
    {
      var point := rawData[i];
      WindowsNext(rawData, i, key);
      JoinedLast(closed, Window(currentWindowStart, windowData), point, key(point));
      var windowStart := Truncate(point.timestamp, interval);
      assert i == 0 ==> windowData + [point] == [point];
      assert i == 0 ==> Joined([], point, windowStart) == closed + [Window(windowStart, windowData + [point])];
      if windowStart > currentWindowStart {
        if |windowData| > 0 {
          var aggregated := AggregateDataPoints(windowData, currentWindowStart);
          AggregatedAppend(closed, Window(currentWindowStart, windowData));
          result := result + [aggregated];
          closed := closed + [Window(currentWindowStart, windowData)];
        }
        windowData := [point];
        currentWindowStart := windowStart;
      } else {
        windowData := windowData + [point];
      }
    }
    assert rawData[..|rawData|] == rawData;
    if |windowData| > 0 {
      var aggregated := AggregateDataPoints(windowData, currentWindowStart);
      AggregatedAppend(closed, Window(currentWindowStart, windowData));
      result := result + [aggregated];
    }
    if interval > 0 && TimeOrdered(rawData) {
      ResultByTheClock(rawData, interval);
    }
  }
}
