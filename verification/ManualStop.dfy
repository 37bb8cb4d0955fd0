/**
 Safety of runs: status, PID and handle agree, and a manual stop is respected.
 */
module ManualStop {
  import opened Options
  import opened Lifecycle

  import opened HealthLoop

  // ---- Status, PID and handle agree ----

  /** Status running means a live record of one process; without a handle there is no PID. */
  predicate Sound(a: Agent) {
    && (a.status == Running ==> a.process.Some? && a.process.value.pid == a.pid && 0 < a.pid)
    && (a.process.None? ==> a.pid == 0)
  }

  lemma SoundTick(w: World, cfg: HealthConfig, s: Step)
    requires Sound(w.agent) && s.event.Tick?
    ensures Sound(Next(w, cfg, s).agent)
  {
  }

  lemma SoundStep(w: World, cfg: HealthConfig, s: Step)
    requires Sound(w.agent)
    ensures Sound(Next(w, cfg, s).agent)
  {
    if s.event.Tick? {
      SoundTick(w, cfg, s);
    }
  }

  lemma {:induction false} ReachableSound(cfg: HealthConfig, t: int, run: seq<Step>)
    ensures Sound(Exec(Initial(t), cfg, run).agent)
  {
    if run != [] {
      ReachableSound(cfg, t, run[..|run| - 1]);
      SoundStep(Exec(Initial(t), cfg, run[..|run| - 1]), cfg, run[|run| - 1]);
    }
  }

  // ---- The manually-stopped flag ----

  /** Whether the last Start, Stop or uncancelled Restart was a Stop; `before` answers for the time before the run. */
  function LastWasStop(before: bool, run: seq<Step>): bool {
    if run == [] then before
    else match run[|run| - 1].event
      case Stop => true
      case Start(_) => false
      case ManualRestart(_) => false
      case AutoFinish(_) => false
      case _ => LastWasStop(before, run[..|run| - 1])
  }

  predicate FinishesRestart(e: Event) {
    e.ManualRestart? || e.AutoFinish?
  }

  /** No restart of the run reaches its end on a live process whose recorded PID is 0. */
  predicate NoStuckRestart(w: World, cfg: HealthConfig, run: seq<Step>) {
    forall k :: 0 <= k < |run| && FinishesRestart(run[k].event) ==> !Stuck(Exec(w, cfg, run[..k]).agent)
  }

  predicate FlagTracksStops(w: World, cfg: HealthConfig, run: seq<Step>) {
    forall k :: 0 <= k <= |run| ==>
      Exec(w, cfg, run[..k]).agent.manuallyStopped == LastWasStop(w.agent.manuallyStopped, run[..k])
  }

  lemma FlagStep(w: World, cfg: HealthConfig, s: Step)
    ensures Next(w, cfg, s).agent.manuallyStopped ==
            match s.event
            case Stop => true
            case Start(_) => false
            case ManualRestart(_) => Stuck(w.agent)
            case AutoFinish(_) => Stuck(w.agent)
            case _ => w.agent.manuallyStopped
  {
  }

  lemma NoStuckBefore(w: World, cfg: HealthConfig, run: seq<Step>, n: nat)
    requires NoStuckRestart(w, cfg, run) && n <= |run|
    ensures NoStuckRestart(w, cfg, run[..n])
  {
    forall k | 0 <= k < n && FinishesRestart(run[..n][k].event)
      ensures !Stuck(Exec(w, cfg, run[..n][..k]).agent)
    {
      assert run[..n][..k] == run[..k] && run[..n][k] == run[k];
    }
  }

  lemma {:induction false} FlagAtEnd(w: World, cfg: HealthConfig, run: seq<Step>)
    requires NoStuckRestart(w, cfg, run)
    ensures Exec(w, cfg, run).agent.manuallyStopped == LastWasStop(w.agent.manuallyStopped, run)
  {
    if run != [] {
      var n := |run| - 1;
      NoStuckBefore(w, cfg, run, n);
      FlagAtEnd(w, cfg, run[..n]);
      FlagStep(Exec(w, cfg, run[..n]), cfg, run[n]);
    }
  }

  lemma FlagFollows(w: World, cfg: HealthConfig, run: seq<Step>)
    requires NoStuckRestart(w, cfg, run)
    ensures FlagTracksStops(w, cfg, run)
  {
    forall k | 0 <= k <= |run|
      ensures Exec(w, cfg, run[..k]).agent.manuallyStopped == LastWasStop(w.agent.manuallyStopped, run[..k])
    {
      NoStuckBefore(w, cfg, run, k);
      FlagAtEnd(w, cfg, run[..k]);
    }
  }

  /** The flag says "the last operation was a Stop" at every point of a run iff no restart got stuck. */
  lemma FlagExact(w: World, cfg: HealthConfig, run: seq<Step>)
    ensures FlagTracksStops(w, cfg, run) <==> NoStuckRestart(w, cfg, run)
  {
    if NoStuckRestart(w, cfg, run) {
      FlagFollows(w, cfg, run);
    } else {
      var k :| 0 <= k < |run| && FinishesRestart(run[k].event) && Stuck(Exec(w, cfg, run[..k]).agent);
      assert run[..k + 1][..k] == run[..k];
      FlagStep(Exec(w, cfg, run[..k]), cfg, run[k]);
      assert !LastWasStop(w.agent.manuallyStopped, run[..k + 1]);
    }
  }

  /** A restart does get stuck when a tick cannot probe a live process and clears its PID. */
  lemma StuckRestartHappens(cfg: HealthConfig)
    ensures exists run: seq<Step> ::
              && Possible(Initial(0), cfg, run) && run != [] && run[|run| - 1].event.AutoFinish?
              && Exec(Initial(0), cfg, run).agent.manuallyStopped && IsRunning(Exec(Initial(0), cfg, run).agent)
  {
    var w := Initial(0);
    var start := Step(0, Start(Spawned(1)));
    var tick := Step(0, Tick(Observation(None, false, false)));
    var finish := Step(0, AutoFinish(Spawned(2)));
    ExecAppend(w, cfg, [], start);
    assert [] + [start] == [start];
    ExecAppend(w, cfg, [start], tick);
    ExecAppend(w, cfg, [start] + [tick], finish);
    var run := [start] + [tick] + [finish];
    assert Possible(w, cfg, run) && run[|run| - 1] == finish;
  }

  /** A live process has its own positive PID on record. */
  predicate Recorded(a: Agent) {
    IsRunning(a) ==> a.process.value.pid == a.pid && 0 < a.pid
  }

  lemma RecordedStep(w: World, cfg: HealthConfig, s: Step)
    requires Recorded(w.agent) && (s.event.Tick? ==> s.event.obs.probed)
    ensures Recorded(Next(w, cfg, s).agent)
  {
  }

  /** If no tick fails to probe a process, no restart gets stuck, so the flag is exact throughout. */
  lemma {:induction false} ProbedRunsNeverStick(cfg: HealthConfig, t: int, run: seq<Step>)
    requires forall k :: 0 <= k < |run| && run[k].event.Tick? ==> run[k].event.obs.probed
    ensures Recorded(Exec(Initial(t), cfg, run).agent)
    ensures NoStuckRestart(Initial(t), cfg, run)
  {
    if run != [] {
      var before := run[..|run| - 1];
      ProbedRunsNeverStick(cfg, t, before);
      RecordedStep(Exec(Initial(t), cfg, before), cfg, run[|run| - 1]);
      forall k | 0 <= k < |run| && FinishesRestart(run[k].event)
        ensures !Stuck(Exec(Initial(t), cfg, run[..k]).agent)
      {
        if k < |before| {
          assert before[..k] == run[..k] && before[k] == run[k];
        }
      }
    }
  }

  // ---- A manual stop is respected ----

  /** A tick on a manually stopped agent starts nothing, begins no restart and keeps the flag. */
  lemma TickLeavesStoppedAlone(w: World, cfg: HealthConfig, s: Step)
    requires Enabled(w, s) && s.event.Tick? && w.agent.manuallyStopped
    ensures var w' := Next(w, cfg, s);
            && w'.waiting.None? && w'.agent.manuallyStopped
            && w'.agent.process == w.agent.process && w'.agent.pid == w.agent.pid && w'.agent.status == w.agent.status
  {
  }

  /** Nobody asks for the agent to run. */
  predicate NobodyAsks(run: seq<Step>) {
    forall k :: 0 <= k < |run| ==> !run[k].event.Start? && !run[k].event.ManualRestart?
  }

  /** A stopped agent stays stopped through any run of ticks, exits and stops: no restart begins, no process appears. */
  lemma {:induction false} StaysStopped(w: World, cfg: HealthConfig, run: seq<Step>)
    requires Possible(w, cfg, run) && NobodyAsks(run)
    requires w.agent.manuallyStopped && w.waiting.None?
    ensures var w' := Exec(w, cfg, run);
            && w'.agent.manuallyStopped && w'.waiting.None?
            && (IsRunning(w'.agent) ==> w'.agent.process == w.agent.process)
            && w'.live <= w.live
    ensures AutoRestarts(w, cfg, run) == 0
  {
    if run != [] {
      var before, s := run[..|run| - 1], run[|run| - 1];
      StaysStopped(w, cfg, before);
      if s.event.Tick? {
        TickLeavesStoppedAlone(Exec(w, cfg, before), cfg, s);
      }
    }
  }

  /**
   A Stop that lands during a wait is overridden when the wait ends. The flag is set just before the end if and
   only if the last operation during the wait was a Stop; afterwards it is clear, and the agent runs exactly if
   its launch succeeded, whatever was stopped in between.
   */
  lemma StopLandedInWait(w: World, cfg: HealthConfig, tick: Step, wait: seq<Step>, finish: Step)
    requires Enabled(w, tick) && tick.event.Tick? && Next(w, cfg, tick).waiting.Some?
    requires finish.event.AutoFinish? && NoStuckRestart(Next(w, cfg, tick), cfg, wait + [finish])
    ensures var w1 := Exec(Next(w, cfg, tick), cfg, wait);
            var w2 := Exec(Next(w, cfg, tick), cfg, wait + [finish]);
            && (w1.agent.manuallyStopped <==> LastWasStop(false, wait))
            && !w2.agent.manuallyStopped
            && (IsRunning(w2.agent) <==> finish.event.launch.Spawned?)
  {
    var w0, all := Next(w, cfg, tick), wait + [finish];
    assert all[..|wait|] == wait && all[|wait|] == finish;
    NoStuckBefore(w0, cfg, all, |wait|);
    FlagAtEnd(w0, cfg, wait);
    ExecAppend(w0, cfg, wait, finish);
    assert !Stuck(Exec(w0, cfg, all[..|wait|]).agent);
  }

  /**
   A Stop that lands between the health check and its consequence is caught for a dead process or a
   missing heartbeat, and is not caught for an agent over its threshold for too long.
   */
  lemma StopBetweenCheckAndAct(w: World, cfg: HealthConfig, v: Health, now: int)
    requires w.agent.manuallyStopped && w.waiting.None?
    ensures Act(w, cfg, v, now).waiting.Some?
            <==> v.OverThreshold? && w.overSince.Some? && now - w.overSince.value > cfg.thresholdDuration
  {
  }
}
