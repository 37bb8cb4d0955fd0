/**
 How often the health loop can restart one agent. The backoff schedule is 0, 10, 10, 30, 30, 60, 60, ...
 seconds, so every automatic restart "earns" 60 seconds except for a shortfall that the early ones leave.
 */
module RestartRate {
  import opened Options
  import opened Lifecycle

  import opened HealthLoop

  // ---- Spacing ----

  /** The counter is 0 after a restart only once the reset period has passed. */
  ghost predicate CountInv(w: World) {
    && (w.agent.lastRestart.None? ==> w.agent.restartCount == 0)
    && (w.agent.lastRestart.Some? ==>
          && w.agent.lastRestart.value <= w.clock
          && (w.agent.restartCount == 0 ==> w.clock - w.agent.lastRestart.value > RESET_AFTER))
  }

  lemma CountInvTick(w: World, cfg: HealthConfig, s: Step)
    requires CountInv(w) && Enabled(w, s) && s.event.Tick?
    ensures CountInv(Next(w, cfg, s))
  {
  }

  lemma CountInvStep(w: World, cfg: HealthConfig, s: Step)
    requires CountInv(w) && Enabled(w, s)
    ensures CountInv(Next(w, cfg, s))
  {
    if s.event.Tick? {
      CountInvTick(w, cfg, s);
    }
  }

  lemma {:induction false} CountInvReachable(cfg: HealthConfig, t: int, run: seq<Step>)
    requires Possible(Initial(t), cfg, run)
    ensures CountInv(Exec(Initial(t), cfg, run))
  {
    if run != [] {
      CountInvReachable(cfg, t, run[..|run| - 1]);
      CountInvStep(Exec(Initial(t), cfg, run[..|run| - 1]), cfg, run[|run| - 1]);
    }
  }

  /** The steps of the health loop itself; all others may land while an automatic restart waits. */
  predicate OfLoop(e: Event) {
    e.Tick? || e.AutoCancelled? || e.AutoFinish?
  }

  predicate ManualSucceeds(w: World, s: Step) {
    s.event.ManualRestart? && RestartSucceeds(w.agent, s.event.launch)
  }

  /** When successful manual restarts landed since the last step of the health loop. */
  function ManualTimes(w: World, cfg: HealthConfig, run: seq<Step>): seq<int> {
    if run == [] || OfLoop(run[|run| - 1].event) then []
    else
      var before, s := run[..|run| - 1], run[|run| - 1];
      ManualTimes(w, cfg, before) + if ManualSucceeds(Exec(w, cfg, before), s) then [s.at] else []
  }

  /** The last restart lies 10 seconds before the end of the wait, or is one that landed during the wait. */
  predicate GapInv(landed: seq<int>, last: Option<int>, waiting: Option<int>) {
    && (forall m :: m in landed ==> last.Some? && m <= last.value)
    && (waiting.Some? && last.Some? ==> waiting.value - last.value >= 10 * SECOND || last.value in landed)
  }

  /** What one step does to the last restart and to the wait. */
  predicate GapMove(s: Step, manual: bool, last: Option<int>, waiting: Option<int>,
                    last': Option<int>, waiting': Option<int>) {
    && (last.Some? ==> last.value <= s.at)
    && (manual ==> last' == Some(s.at) && waiting' == waiting)
    && (!OfLoop(s.event) && !manual ==> last' == last && waiting' == waiting)
    && (OfLoop(s.event) && waiting'.Some? && last'.Some? ==> waiting'.value - last'.value >= 10 * SECOND)
  }

  lemma GapStep(w: World, cfg: HealthConfig, s: Step)
    requires CountInv(w) && Enabled(w, s)
    ensures var w1 := Next(w, cfg, s);
            GapMove(s, ManualSucceeds(w, s), w.agent.lastRestart, w.waiting, w1.agent.lastRestart, w1.waiting)
  {
  }

  lemma GapInvStep(landed: seq<int>, s: Step, manual: bool,
                   last: Option<int>, waiting: Option<int>, last': Option<int>, waiting': Option<int>)
    requires GapInv(landed, last, waiting) && GapMove(s, manual, last, waiting, last', waiting')
    requires !(manual && OfLoop(s.event))
    ensures GapInv(if OfLoop(s.event) then [] else landed + if manual then [s.at] else [], last', waiting')
  {
    assert [s.at][0] == s.at;
  }

  lemma {:induction false} GapInvReachable(cfg: HealthConfig, t: int, run: seq<Step>)
    requires Possible(Initial(t), cfg, run)
    ensures var w := Exec(Initial(t), cfg, run);
            GapInv(ManualTimes(Initial(t), cfg, run), w.agent.lastRestart, w.waiting)
  {
    if run != [] {
      var n := |run| - 1;
      var w := Exec(Initial(t), cfg, run[..n]);
      var w1 := Next(w, cfg, run[n]);
      GapInvReachable(cfg, t, run[..n]);
      CountInvReachable(cfg, t, run[..n]);
      GapStep(w, cfg, run[n]);
      GapInvStep(ManualTimes(Initial(t), cfg, run[..n]), run[n], ManualSucceeds(w, run[n]),
                 w.agent.lastRestart, w.waiting, w1.agent.lastRestart, w1.waiting);
    }
  }

  /** All of these times lie 10 seconds or more before `end`. */
  predicate WellBefore(times: seq<int>, end: int) {
    forall m :: m in times ==> end - m >= 10 * SECOND
  }

  predicate LastWellBefore(last: Option<int>, end: int) {
    last.Some? ==> end - last.value >= 10 * SECOND
  }

  lemma GapAtEnd(landed: seq<int>, last: Option<int>, due: int, end: int)
    requires GapInv(landed, last, Some(due)) && due <= end
    ensures LastWellBefore(last, end) <==> WellBefore(landed, end)
  {
    if last.Some? && due - last.value < 10 * SECOND {
      assert last.value in landed;
    }
  }

  /**
   An automatic restart ends at least 10 seconds after the restart before it if and only if no successful
   manual restart landed in its wait within the last 10 seconds.
   */
  lemma {:induction false} Spacing(cfg: HealthConfig, t: int, run: seq<Step>, s: Step)
    requires Possible(Initial(t), cfg, run + [s]) && s.event.AutoFinish?
    ensures LastWellBefore(Exec(Initial(t), cfg, run).agent.lastRestart, s.at)
            <==> WellBefore(ManualTimes(Initial(t), cfg, run), s.at)
  {
    var w := Exec(Initial(t), cfg, run);
    ExecAppend(Initial(t), cfg, run, s);
    GapInvReachable(cfg, t, run);
    GapAtEnd(ManualTimes(Initial(t), cfg, run), w.agent.lastRestart, w.waiting.value, s.at);
  }

  /**
   Before a manual restart at m: an automatic restart in flight keeps 10 seconds of distance from it, whenever
   it ends, if and only if its timer is due 10 seconds later.
   */
  lemma ManualRestartKeepsSpacingIff(w: World, cfg: HealthConfig, m: int, launch: Launch)
    requires w.waiting.Some? && w.clock <= m && RestartSucceeds(w.agent, launch)
    ensures var w1 := Next(w, cfg, Step(m, ManualRestart(launch)));
            && w1.agent.lastRestart == Some(m)
            && ((forall f, l :: Enabled(w1, Step(f, AutoFinish(l))) ==> f - m >= 10 * SECOND)
                <==> w.waiting.value >= m + 10 * SECOND)
  {
    var w1 := Next(w, cfg, Step(m, ManualRestart(launch)));
    var f := if w.waiting.value >= m then w.waiting.value else m;
    assert Enabled(w1, Step(f, AutoFinish(BadBinary)));
  }

  /** A wait of ten seconds, after the process of a manual restart died at once. */
  lemma WaitAfterDeath(cfg: HealthConfig) returns (run: seq<Step>)
    ensures Possible(Initial(0), cfg, run)
    ensures Exec(Initial(0), cfg, run)
            == World(Agent(Restarting, 0, Some(Proc(1, false)), false, 1, Some(0)), 0, None, Some(10 * SECOND), {}, {1})
  {
    var up := Step(0, ManualRestart(Spawned(1)));
    var died := Step(0, ProcessDies(1));
    var tick := Step(0, Tick(Observation(None, true, false)));
    run := [] + [up, died, tick];
    ExecAppend3(Initial(0), cfg, [], up, died, tick);
  }

  /** A run in which an automatic restart ends at the very moment of a manual one. */
  lemma ManualRestartBreaksSpacing(cfg: HealthConfig)
    ensures exists run: seq<Step>, s: Step ::
              && Possible(Initial(0), cfg, run + [s]) && s.event.AutoFinish?
              && AutoSucceeds(Exec(Initial(0), cfg, run), s)
              && Exec(Initial(0), cfg, run).agent.lastRestart == Some(s.at)
  {
    var before := WaitAfterDeath(cfg);
    var again := Step(10 * SECOND, ManualRestart(Spawned(2)));
    var finish := Step(10 * SECOND, AutoFinish(Spawned(3)));
    ExecAppend(Initial(0), cfg, before, again);
    ExecAppend(Initial(0), cfg, before + [again], finish);
    assert Possible(Initial(0), cfg, before + [again] + [finish]);
  }

  // ---- The rate bound ----

  /** When the n-th automatic restart comes if the agent dies as soon as it is up. */
  function CrashLoopTime(n: nat): nat {
    if n <= 1 then 0 else CrashLoopTime(n - 1) + Delay(n - 1)
  }

  /** What the restarts still to come at this count can fall short of 60 seconds each, in total. */
  function Shortfall(restartCount: nat): int {
    if restartCount <= 1 then 160 * SECOND
    else if restartCount == 2 then 110 * SECOND
    else if restartCount == 3 then 60 * SECOND
    else if restartCount == 4 then 30 * SECOND
    else 0
  }

  /** As late as a crash loop after n restarts, and as far up the schedule or late enough to make up for it. */
  predicate OnSchedule(sinceFirst: int, restartCount: nat, n: nat) {
    && sinceFirst >= CrashLoopTime(n)
    && (restartCount >= n || sinceFirst >= CrashLoopTime(n) + Shortfall(restartCount))
  }

  /** The potential, `n` automatic restarts after the first one at `first`. */
  predicate Paid(w: World, first: int, n: nat) {
    var a := w.agent;
    && a.lastRestart.Some?
    && n >= 1
    && a.lastRestart.value <= w.clock
    && (if a.restartCount == 0 then
          w.clock - a.lastRestart.value > RESET_AFTER && a.lastRestart.value - first >= CrashLoopTime(n)
        else OnSchedule(a.lastRestart.value - first, a.restartCount, n))
    && (w.waiting.Some? ==> OnSchedule(w.waiting.value - first, a.restartCount + 1, n + 1))
  }

  lemma PaidTick(w: World, cfg: HealthConfig, s: Step, first: int, n: nat)
    requires Paid(w, first, n) && Enabled(w, s) && s.event.Tick?
    ensures Paid(Next(w, cfg, s), first, n)
  {
  }

  lemma PaidFinish(w: World, cfg: HealthConfig, s: Step, first: int, n: nat)
    requires Paid(w, first, n) && Enabled(w, s) && s.event.AutoFinish?
    ensures Paid(Next(w, cfg, s), first, n + if AutoSucceeds(w, s) then 1 else 0)
  {
  }

  lemma PaidManual(w: World, cfg: HealthConfig, s: Step, first: int, n: nat)
    requires Paid(w, first, n) && Enabled(w, s) && s.event.ManualRestart?
    ensures Paid(Next(w, cfg, s), first, n)
  {
  }

  lemma PaidStep(w: World, cfg: HealthConfig, s: Step, first: int, n: nat)
    requires Paid(w, first, n) && Enabled(w, s)
    ensures Paid(Next(w, cfg, s), first, n + if AutoSucceeds(w, s) then 1 else 0)
  {
    if s.event.Tick? {
      PaidTick(w, cfg, s, first, n);
    } else if s.event.AutoFinish? {
      PaidFinish(w, cfg, s, first, n);
    } else if s.event.ManualRestart? {
      PaidManual(w, cfg, s, first, n);
    }
  }

  /** Either no automatic restart yet, or the potential holds since the first one, which lies in the run. */
  lemma {:induction false} PaidAlong(w: World, cfg: HealthConfig, run: seq<Step>, from: int) returns (first: int)
    requires Possible(w, cfg, run)
    requires forall i :: 0 <= i < |run| ==> from <= run[i].at
    ensures from <= first
    ensures var n := AutoRestarts(w, cfg, run); n > 0 ==> Paid(Exec(w, cfg, run), first, n)
  {
    first := from;
    if run != [] {
      var before := run[..|run| - 1];
      first := PaidAlong(w, cfg, before, from);
      var s := run[|run| - 1];
      if AutoRestarts(w, cfg, before) > 0 {
        PaidStep(Exec(w, cfg, before), cfg, s, first, AutoRestarts(w, cfg, before));
      } else {
        first := s.at;
      }
    }
  }

  /** A run within a stretch of time that lasts `window` nanoseconds. */
  predicate Within(run: seq<Step>, from: int, window: int) {
    forall i :: 0 <= i < |run| ==> from <= run[i].at <= from + window
  }

  lemma LastRestartNow(w: World, cfg: HealthConfig, s: Step)
    requires AutoSucceeds(w, s)
    ensures Next(w, cfg, s).agent.lastRestart == Some(s.at) && Next(w, cfg, s).agent.restartCount > 0
  {
  }

  /**
   Whatever happened before, and whatever ticks, exits and calls of Start, Stop and manual Restart come
   between, no stretch of a run packs automatic restarts more densely than a crash loop. A second restart
   with backoff beside the health loop's is not a step.
   */
  lemma {:induction false} NoFasterThanCrashLoop(w: World, cfg: HealthConfig, run: seq<Step>, from: int, window: int)
    requires Possible(w, cfg, run) && window >= 0 && Within(run, from, window)
    ensures CrashLoopTime(AutoRestarts(w, cfg, run)) <= window
  {
    if run != [] {
      var before := run[..|run| - 1];
      NoFasterThanCrashLoop(w, cfg, before, from, window);
      if AutoSucceeds(Exec(w, cfg, before), run[|run| - 1]) {
        var first := PaidAlong(w, cfg, run, from);
        LastRestartNow(Exec(w, cfg, before), cfg, run[|run| - 1]);
      }
    }
  }

  lemma {:induction false} CrashLoopSchedule(n: nat)
    ensures CrashLoopTime(n) >= 60 * SECOND * n - 220 * SECOND
    ensures n >= 5 ==> CrashLoopTime(n) == 60 * SECOND * n - 220 * SECOND
  {
    if n > 5 {
      CrashLoopSchedule(n - 1);
    } else {
      assert CrashLoopTime(5) == CrashLoopTime(4) + 30 * SECOND;
      assert CrashLoopTime(4) == CrashLoopTime(3) + 30 * SECOND;
      assert CrashLoopTime(3) == CrashLoopTime(2) + 10 * SECOND;
      assert CrashLoopTime(2) == CrashLoopTime(1) + 10 * SECOND;
    }
  }

  /** The same in numbers: at most (window + 220 s) / 60 s successful automatic restarts. */
  lemma {:induction false} RateBound(w: World, cfg: HealthConfig, run: seq<Step>, from: int, window: int)
    requires Possible(w, cfg, run) && window >= 0 && Within(run, from, window)
    ensures AutoRestarts(w, cfg, run) <= (window + 220 * SECOND) / (60 * SECOND)
  {
    var n := AutoRestarts(w, cfg, run);
    NoFasterThanCrashLoop(w, cfg, run, from, window);
    CrashLoopSchedule(n);
    assert 60 * SECOND * n <= window + 220 * SECOND;
  }

  // ---- The bound is exact ----

  /** A start, and then n rounds in which the process dies at once and is restarted by the next tick. */
  function CrashLoop(n: nat): seq<Step> {
    if n == 0 then [Step(0, Start(Spawned(1)))]
    else
      CrashLoop(n - 1) + [
        Step(CrashLoopTime(n - 1), ProcessDies(n)),
        Step(CrashLoopTime(n - 1), Tick(Observation(None, true, false))),
        Step(CrashLoopTime(n), AutoFinish(Spawned(n + 1)))]
  }

  function FirstPids(n: nat): (pids: set<int>)
    ensures forall p :: p in pids ==> 1 <= p <= n
  {
    if n == 0 then {} else FirstPids(n - 1) + {n}
  }

  /** The world after n rounds of the crash loop. */
  function CrashLoopWorld(n: nat): World {
    World(Agent(Running, n + 1, Some(Proc(n + 1, true)), false, n, if n == 0 then None else Some(CrashLoopTime(n))),
          CrashLoopTime(n), None, None, {n + 1}, FirstPids(n + 1))
  }

  lemma CrashLoopRound(cfg: HealthConfig, n: nat, died: Step, tick: Step, finish: Step)
    requires died == Step(CrashLoopTime(n), ProcessDies(n + 1))
    requires tick == Step(CrashLoopTime(n), Tick(Observation(None, true, false)))
    requires finish == Step(CrashLoopTime(n + 1), AutoFinish(Spawned(n + 2)))
    ensures Enabled(CrashLoopWorld(n), died)
    ensures var w1 := Next(CrashLoopWorld(n), cfg, died);
            && Enabled(w1, tick)
            && var w2 := Next(w1, cfg, tick);
            && Enabled(w2, finish) && AutoSucceeds(w2, finish) && Next(w2, cfg, finish) == CrashLoopWorld(n + 1)
  {
    var w1 := Next(CrashLoopWorld(n), cfg, died);
    var w3 := Next(Next(w1, cfg, tick), cfg, finish);
    assert w1.live == {};
    assert w3.watchers == CrashLoopWorld(n + 1).watchers;
  }

  lemma CrashLoopStarts(cfg: HealthConfig)
    ensures Possible(Initial(0), cfg, CrashLoop(0)) && AutoRestarts(Initial(0), cfg, CrashLoop(0)) == 0
    ensures Exec(Initial(0), cfg, CrashLoop(0)) == CrashLoopWorld(0)
  {
    ExecAppend(Initial(0), cfg, [], CrashLoop(0)[0]);
    assert [] + [CrashLoop(0)[0]] == CrashLoop(0);
    assert FirstPids(1) == FirstPids(0) + {1};
  }

  lemma CrashLoopExtends(cfg: HealthConfig, n: nat, run: seq<Step>, died: Step, tick: Step, finish: Step)
    requires Possible(Initial(0), cfg, run) && Exec(Initial(0), cfg, run) == CrashLoopWorld(n)
    requires died == Step(CrashLoopTime(n), ProcessDies(n + 1))
    requires tick == Step(CrashLoopTime(n), Tick(Observation(None, true, false)))
    requires finish == Step(CrashLoopTime(n + 1), AutoFinish(Spawned(n + 2)))
    ensures var all := run + [died, tick, finish];
            && Possible(Initial(0), cfg, all) && Exec(Initial(0), cfg, all) == CrashLoopWorld(n + 1)
            && AutoRestarts(Initial(0), cfg, all) == AutoRestarts(Initial(0), cfg, run) + 1
  {
    CrashLoopRound(cfg, n, died, tick, finish);
    ExecAppend3(Initial(0), cfg, run, died, tick, finish);
  }

  lemma {:induction false} CrashLoopRuns(cfg: HealthConfig, n: nat)
    ensures Possible(Initial(0), cfg, CrashLoop(n)) && AutoRestarts(Initial(0), cfg, CrashLoop(n)) == n
    ensures Exec(Initial(0), cfg, CrashLoop(n)) == CrashLoopWorld(n)
  {
    if n == 0 {
      CrashLoopStarts(cfg);
    } else {
      CrashLoopRuns(cfg, n - 1);
      var died := Step(CrashLoopTime(n - 1), ProcessDies(n));
      var tick := Step(CrashLoopTime(n - 1), Tick(Observation(None, true, false)));
      var finish := Step(CrashLoopTime(n), AutoFinish(Spawned(n + 1)));
      CrashLoopExtends(cfg, n - 1, CrashLoop(n - 1), died, tick, finish);
      assert CrashLoop(n) == CrashLoop(n - 1) + [died, tick, finish];
    }
  }

  lemma {:induction false} CrashLoopWithin(n: nat)
    ensures Within(CrashLoop(n), 0, CrashLoopTime(n))
  {
    if n > 0 {
      CrashLoopWithin(n - 1);
    }
  }

  /** Some possible run from some world packs exactly n automatic restarts into the window. */
  ghost predicate Packs(cfg: HealthConfig, n: nat, window: int) {
    exists w: World, run: seq<Step>, from: int ::
      Possible(w, cfg, run) && Within(run, from, window) && AutoRestarts(w, cfg, run) == n
  }

  /** n automatic restarts fit in a window if and only if those of a crash loop do. */
  lemma PacksIff(cfg: HealthConfig, n: nat, window: int)
    requires window >= 0
    ensures Packs(cfg, n, window) <==> CrashLoopTime(n) <= window
  {
    if CrashLoopTime(n) <= window {
      CrashLoopRuns(cfg, n);
      CrashLoopWithin(n);
      assert Within(CrashLoop(n), 0, window);
    } else if Packs(cfg, n, window) {
      var w: World, run: seq<Step>, from: int :|
        Possible(w, cfg, run) && Within(run, from, window) && AutoRestarts(w, cfg, run) == n;
      NoFasterThanCrashLoop(w, cfg, run, from, window);
      assert false;
    }
  }

  /** For every n from 5 on, a run from the beginning packs n automatic restarts into exactly 60 n - 220 seconds. */
  lemma RateBoundAttained(cfg: HealthConfig, n: nat)
    requires n >= 5
    ensures exists run: seq<Step> ::
              && Possible(Initial(0), cfg, run) && Within(run, 0, 60 * SECOND * n - 220 * SECOND)
              && AutoRestarts(Initial(0), cfg, run) == n
  {
    CrashLoopRuns(cfg, n);
    CrashLoopWithin(n);
    CrashLoopSchedule(n);
  }
}
