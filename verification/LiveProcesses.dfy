/**
 Which processes of an agent are alive. The exit watcher of an old process forgets the handle of a newer one, so a
 process may live on that the supervisor no longer knows.
 */
module LiveProcesses {
  import opened Options
  import opened Lifecycle

  import opened HealthLoop

  import opened ManualStop

  // ---- Handles and processes ----

  /** Signal 0 answers as the handle says, and the watcher of every live or held process is still to come. */
  predicate Accounted(w: World) {
    && (w.agent.process.Some? ==>
          && (w.agent.process.value.alive <==> w.agent.process.value.pid in w.live)
          && w.agent.process.value.pid in w.watchers)
    && w.live <= w.watchers
  }

  lemma AccountedStep(w: World, cfg: HealthConfig, s: Step)
    requires Accounted(w) && Enabled(w, s)
    ensures Accounted(Next(w, cfg, s))
  {
  }

  lemma {:induction false} ReachableAccounted(cfg: HealthConfig, t: int, run: seq<Step>)
    requires Possible(Initial(t), cfg, run)
    ensures Accounted(Exec(Initial(t), cfg, run))
  {
    if run != [] {
      ReachableAccounted(cfg, t, run[..|run| - 1]);
      AccountedStep(Exec(Initial(t), cfg, run[..|run| - 1]), cfg, run[|run| - 1]);
    }
  }

  /** Every live process is the one of the handle. */
  predicate NoOrphan(w: World) {
    forall p :: p in w.live ==> w.agent.process.Some? && p == w.agent.process.value.pid
  }

  // ---- When processes are orphaned ----

  /** The watcher does not check that the handle is still the one of its own process. */
  predicate FiresOnRunning(w: World, s: Step) {
    s.event.WatcherFires? && IsRunning(w.agent)
  }

  lemma NoOrphanStep(w: World, cfg: HealthConfig, s: Step)
    requires Accounted(w) && NoOrphan(w) && Enabled(w, s)
    ensures NoOrphan(Next(w, cfg, s)) <==> !FiresOnRunning(w, s)
  {
    if FiresOnRunning(w, s) {
      assert w.agent.process.value.pid in Next(w, cfg, s).live;
    }
  }

  /** Step n of a possible run, from a world whose processes are accounted for. */
  lemma StepAt(cfg: HealthConfig, t: int, run: seq<Step>, n: nat)
    requires Possible(Initial(t), cfg, run) && n < |run|
    ensures var w, w1 := Exec(Initial(t), cfg, run[..n]), Exec(Initial(t), cfg, run[..n + 1]);
            && Accounted(w) && Enabled(w, run[n])
            && (NoOrphan(w) ==> (NoOrphan(w1) <==> !FiresOnRunning(w, run[n])))
  {
    var w := Exec(Initial(t), cfg, run[..n]);
    PossibleBefore(Initial(t), cfg, run, n);
    ReachableAccounted(cfg, t, run[..n]);
    assert run[..n + 1][..n] == run[..n];
    if NoOrphan(w) {
      NoOrphanStep(w, cfg, run[n]);
    }
  }

  lemma {:induction false} NoOrphanUpTo(cfg: HealthConfig, t: int, run: seq<Step>, n: nat)
    requires Possible(Initial(t), cfg, run) && n <= |run|
    requires forall k :: 0 <= k < n ==> !FiresOnRunning(Exec(Initial(t), cfg, run[..k]), run[k])
    ensures NoOrphan(Exec(Initial(t), cfg, run[..n]))
  {
    if n > 0 {
      NoOrphanUpTo(cfg, t, run, n - 1);
      StepAt(cfg, t, run, n - 1);
    }
  }

  /** No process is orphaned at any point of a run if and only if no watcher fires while the agent is running. */
  lemma {:induction false} NoOrphanIff(cfg: HealthConfig, t: int, run: seq<Step>)
    requires Possible(Initial(t), cfg, run)
    ensures (forall k :: 0 <= k <= |run| ==> NoOrphan(Exec(Initial(t), cfg, run[..k])))
            <==> (forall k :: 0 <= k < |run| ==> !FiresOnRunning(Exec(Initial(t), cfg, run[..k]), run[k]))
  {
    if forall k :: 0 <= k < |run| ==> !FiresOnRunning(Exec(Initial(t), cfg, run[..k]), run[k]) {
      forall k | 0 <= k <= |run| ensures NoOrphan(Exec(Initial(t), cfg, run[..k])) {
        NoOrphanUpTo(cfg, t, run, k);
      }
    } else {
      var k :| 0 <= k < |run| && FiresOnRunning(Exec(Initial(t), cfg, run[..k]), run[k]);
      StepAt(cfg, t, run, k);
      assert !NoOrphan(Exec(Initial(t), cfg, run[..k])) || !NoOrphan(Exec(Initial(t), cfg, run[..k + 1]));
    }
  }

  // ---- When a Stop holds ----

  lemma {:induction false} FreshPid(used: set<int>, n: nat) returns (p: Pid)
    requires |used| < n
    ensures p <= n && p !in used
  {
    if n !in used {
      p := n;
    } else {
      p := FreshPid(used - {n}, n - 1);
    }
  }

  predicate NoneAlive(live: set<int>) {
    forall p :: p !in live
  }

  /** No process is alive, now or after any run in which nobody asks. */
  ghost predicate StaysDead(w: World, cfg: HealthConfig) {
    forall run :: Possible(w, cfg, run) && NobodyAsks(run) ==> NoneAlive(Exec(w, cfg, run).live)
  }

  lemma StopEmpties(w: World)
    requires Accounted(w)
    ensures NoneAlive(AfterStopOf(w).live) <==> !Stuck(w.agent) && NoOrphan(w)
  {
    if IsRunning(w.agent) {
      assert w.agent.process.value.pid in w.live;
      if p: int :| p in w.live && p != w.agent.process.value.pid {
        assert p in AfterStopOf(w).live;
      }
    }
  }

  /** After a restart whose launch succeeds, the held or the new process is alive. */
  lemma FinishLeavesOne(w: World, cfg: HealthConfig, finish: Step)
    requires Accounted(w) && finish.event.AutoFinish? && finish.event.launch.Spawned?
    ensures !NoneAlive(Next(w, cfg, finish).live)
  {
    if Stuck(w.agent) {
      assert w.agent.process.value.pid in Next(w, cfg, finish).live;
    } else {
      assert finish.event.launch.pid in Next(w, cfg, finish).live;
    }
  }

  lemma OneStep(w: World, cfg: HealthConfig, s: Step)
    requires Enabled(w, s)
    ensures Possible(w, cfg, [s]) && Exec(w, cfg, [s]) == Next(w, cfg, s)
  {
    ExecAppend(w, cfg, [], s);
    assert [] + [s] == [s];
  }

  /** An automatic restart in flight can bring a process up, whatever was stopped meanwhile. */
  lemma WaitBringsBack(w: World, cfg: HealthConfig)
    requires Accounted(w) && w.waiting.Some?
    ensures !StaysDead(w, cfg)
  {
    var p := FreshPid(w.live + w.watchers, |w.live + w.watchers| + 1);
    var finish := Step(if w.waiting.value >= w.clock then w.waiting.value else w.clock, AutoFinish(Spawned(p)));
    FinishLeavesOne(w, cfg, finish);
    OneStep(w, cfg, finish);
    assert NobodyAsks([finish]);
  }

  lemma StopHoldsFrom(w: World, cfg: HealthConfig, at: int)
    requires Accounted(w) && w.clock <= at
    ensures StaysDead(Next(w, cfg, Step(at, Stop)), cfg) <==> w.waiting.None? && !Stuck(w.agent) && NoOrphan(w)
  {
    var w1 := Next(w, cfg, Step(at, Stop));
    AccountedStep(w, cfg, Step(at, Stop));
    if !NoneAlive(w1.live) {
      assert Exec(w1, cfg, []) == w1 && NobodyAsks([]) && Possible(w1, cfg, []);
    } else if w.waiting.Some? {
      WaitBringsBack(w1, cfg);
    } else {
      forall run | Possible(w1, cfg, run) && NobodyAsks(run)
        ensures NoneAlive(Exec(w1, cfg, run).live)
      {
        StaysStopped(w1, cfg, run);
      }
    }
    StopEmpties(w);
  }

  /**
   A Stop holds, in that no process of the agent is alive until someone asks, if and only if no automatic restart
   is in flight, the Stop does not meet a live process without a PID, and no process is orphaned.
   */
  lemma {:induction false} StopHoldsIff(cfg: HealthConfig, t: int, before: seq<Step>, at: int)
    requires Possible(Initial(t), cfg, before) && Exec(Initial(t), cfg, before).clock <= at
    ensures var w := Exec(Initial(t), cfg, before);
            StaysDead(Next(w, cfg, Step(at, Stop)), cfg) <==> w.waiting.None? && !Stuck(w.agent) && NoOrphan(w)
  {
    var w := Exec(Initial(t), cfg, before);
    ReachableAccounted(cfg, t, before);
    StopHoldsFrom(w, cfg, at);
  }

  // ---- A run with an orphan ----

  /** Start, manual restart, and only then the watcher of the first process. */
  function OrphanRun(): seq<Step> {
    [Step(0, Start(Spawned(1))), Step(0, ManualRestart(Spawned(2))), Step(0, WatcherFires(1))]
  }

  /** The world after it: the second process lives, and nothing on record says so. */
  lemma OrphanHappens(cfg: HealthConfig)
    ensures Possible(Initial(0), cfg, OrphanRun())
    ensures Exec(Initial(0), cfg, OrphanRun())
            == World(Agent(Stopped, 0, None, false, 1, Some(0)), 0, None, None, {2}, {2})
  {
    ExecAppend3(Initial(0), cfg, [], OrphanRun()[0], OrphanRun()[1], OrphanRun()[2]);
    assert [] + [OrphanRun()[0], OrphanRun()[1], OrphanRun()[2]] == OrphanRun();
  }

  /** A Stop then leaves the process alive. */
  lemma OrphanSurvivesStop(cfg: HealthConfig)
    ensures var w := Exec(Initial(0), cfg, OrphanRun());
            w.waiting.None? && !Stuck(w.agent) && Next(w, cfg, Step(0, Stop)).live == {2}
  {
    OrphanHappens(cfg);
  }

  /** Without a Stop the next tick finds the agent dead, and its restart puts a third process beside the second. */
  lemma OrphanGetsCompany(cfg: HealthConfig)
    ensures exists run: seq<Step> ::
              && Possible(Initial(0), cfg, OrphanRun() + run) && NobodyAsks(run)
              && Exec(Initial(0), cfg, OrphanRun() + run).live == {2, 3}
  {
    OrphanHappens(cfg);
    var tick := Step(0, Tick(Observation(None, true, false)));
    var finish := Step(10 * SECOND, AutoFinish(Spawned(3)));
    ExecAppend(Initial(0), cfg, OrphanRun(), tick);
    ExecAppend(Initial(0), cfg, OrphanRun() + [tick], finish);
    assert OrphanRun() + [tick] + [finish] == OrphanRun() + [tick, finish];
    assert NobodyAsks([tick, finish]);
  }
}
