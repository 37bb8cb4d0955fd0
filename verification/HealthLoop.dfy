/**
 The health loop of one agent, and the runs it makes together with user calls and process exits.
 */
module HealthLoop {
  import opened Options
  import opened Lifecycle

  datatype Health = Healthy | Dead | NoHeartbeat | OverThreshold

  datatype HealthConfig = HealthConfig(heartbeatTimeout: int, thresholdDuration: int)

  /** What one tick can see: the last heartbeat, whether the PID could be probed, and the resource reading. */
  datatype Observation = Observation(lastHeartbeat: Option<int>, probed: bool, overThreshold: bool)

  function Verdict(a: Agent, cfg: HealthConfig, obs: Observation, now: int): Health {
    if a.manuallyStopped then Healthy
    else if !IsRunning(a) then Dead
    else if cfg.heartbeatTimeout > 0 && obs.lastHeartbeat.Some?
            && now - obs.lastHeartbeat.value > cfg.heartbeatTimeout then NoHeartbeat
    else if a.pid <= 0 || !obs.probed then Dead
    else if obs.overThreshold then OverThreshold
    else Healthy
  }

  /**
   The agent with its health loop (clock, over-threshold timer, and when a waiting automatic restart is due), and
   its processes: the ones alive, and the ones whose exit watcher has not fired yet.
   */
  datatype World = World(
    agent: Agent, clock: int, overSince: Option<int>, waiting: Option<int>, live: set<int>, watchers: set<int>)

  function BeginAuto(w: World, now: int): World {
    w.(agent := AfterBegin(w.agent, false, now), waiting := Some(now + Backoff(w.agent, now)))
  }

  /** What the loop does with a verdict. */
  function Act(w: World, cfg: HealthConfig, v: Health, now: int): World {
    match v
    case Dead =>
      var w1 := w.(agent := AfterExitUpdate(w.agent));
      if w1.agent.manuallyStopped then w1 else BeginAuto(w1, now)
    case NoHeartbeat =>
      if w.agent.manuallyStopped then w else BeginAuto(w, now)
    case OverThreshold =>
      if w.overSince.None? then w.(overSince := Some(now))
      else if now - w.overSince.value > cfg.thresholdDuration then BeginAuto(w, now).(overSince := None)
      else w
    case Healthy =>
      w.(overSince := None, agent := ResetIfSettled(w.agent, now))
  }

  class HealthChecker {
    const agent: AgentInstance
    const cfg: HealthConfig
    var overThresholdSince: Option<int>

    constructor (agent: AgentInstance, cfg: HealthConfig)
      ensures this.agent == agent && this.cfg == cfg && overThresholdSince == None
    {
      this.agent := agent;
      this.cfg := cfg;
      overThresholdSince := None;
    }

    method CheckHealth(obs: Observation, now: int) returns (v: Health)
      ensures v == Verdict(agent.State(), cfg, obs, now)
    {
      if agent.manuallyStopped {
        return Healthy;
      }
      if !IsRunning(agent.State()) {
        return Dead;
      }
      if cfg.heartbeatTimeout > 0 {
        if obs.lastHeartbeat.Some? && now - obs.lastHeartbeat.value > cfg.heartbeatTimeout {
          return NoHeartbeat;
        }
      }
      if agent.pid <= 0 {
        return Dead;
      }
      if !obs.probed {
        return Dead;
      }
      if obs.overThreshold {
        return OverThreshold;
      }
      return Healthy;
    }

    method BeginAutoRestart(now: int) returns (due: Option<int>)
      modifies agent
      ensures agent.State() == AfterBegin(old(agent.State()), false, now)
      ensures due == Some(now + Backoff(old(agent.State()), now))
    {
      var wait := agent.BeginRestart(false, now);
      due := Some(now + wait);
    }

    /** One tick, up to the point where an automatic restart (if any) starts waiting. */
    method Tick(obs: Observation, now: int) returns (due: Option<int>)
      modifies this, agent
      ensures var w := World(old(agent.State()), now, old(overThresholdSince), None, {}, {});
              Act(w, cfg, Verdict(w.agent, cfg, obs, now), now)
              == World(agent.State(), now, overThresholdSince, due, {}, {})
    {
      due := None;
      var v := CheckHealth(obs, now);
      match v {
        case Dead =>
          agent.UpdateStatusWhenProcessExits();
          if agent.manuallyStopped {
            return;
          }
          due := BeginAutoRestart(now);
        case NoHeartbeat =>
          if agent.manuallyStopped {
            return;
          }
          due := BeginAutoRestart(now);
        case OverThreshold =>
          if overThresholdSince.None? {
            overThresholdSince := Some(now);
          } else if now - overThresholdSince.value > cfg.thresholdDuration {
            due := BeginAutoRestart(now);
            overThresholdSince := None;
          }
        case Healthy =>
          overThresholdSince := None;
          if agent.lastRestart.Some? && now - agent.lastRestart.value > RESET_AFTER {
            if agent.restartCount > 0 {
              agent.restartCount := 0;
            }
          }
      }
    }
  }

  // ---- Runs ----

  /**
   Steps of a run. Start, Stop and ManualRestart are calls by a user and may land anywhere, also
   while an automatic restart waits. ProcessDies is an exit; WatcherFires is the goroutine that waited for it,
   which may be late. Tick, AutoCancelled and AutoFinish belong to the health loop.
   */
  datatype Event =
    | Start(launch: Launch)
    | Stop
    | ManualRestart(launch: Launch)
    | Tick(obs: Observation)
    | AutoCancelled
    | AutoFinish(launch: Launch)
    | ProcessDies(process: int)
    | WatcherFires(process: int)

  datatype Step = Step(at: int, event: Event)

  function Initial(at: int): World {
    World(NEW_AGENT, at, None, None, {}, {})
  }

  /** The operating system gives a new process a PID that no live process and no pending watcher has. */
  predicate Fresh(w: World, launch: Launch) {
    launch.Spawned? ==> launch.pid !in w.live && launch.pid !in w.watchers
  }

  /** The health loop is one goroutine: while its restart waits, it neither ticks nor restarts again. */
  predicate Enabled(w: World, s: Step) {
    && w.clock <= s.at
    && match s.event
       case Start(launch) => Fresh(w, launch)
       case Stop => true
       case ManualRestart(launch) => Fresh(w, launch)
       case Tick(_) => w.waiting.None?
       case AutoCancelled => w.waiting.Some?
       case AutoFinish(launch) => w.waiting.Some? && w.waiting.value <= s.at && Fresh(w, launch)
       case ProcessDies(p) => p in w.live
       case WatcherFires(p) => p in w.watchers && p !in w.live
  }

  /** A Stop that gets past its early return leaves no process behind its handle. */
  function AfterStopOf(w: World): World {
    w.(agent := AfterStop(w.agent),
       live := if IsRunning(w.agent) && w.agent.pid != 0 then w.live - {w.agent.process.value.pid} else w.live)
  }

  function AfterLaunchOf(w: World, clearFlag: bool, launch: Launch): World {
    var w1 := w.(agent := AfterLaunch(w.agent, clearFlag, launch));
    if IsRunning(w.agent) || !launch.Spawned? then w1
    else w1.(live := w.live + {launch.pid}, watchers := w.watchers + {launch.pid})
  }

  /** A restart after its wait. */
  function AfterFinishOf(w: World, launch: Launch, now: int): World {
    var w1 := if IsRunning(w.agent) then AfterStopOf(w) else w;
    AfterLaunchOf(w1, true, launch).(agent := AfterFinish(w.agent, launch, now))
  }

  function Next(w: World, cfg: HealthConfig, s: Step): World {
    var a := w.agent;
    var w1 := w.(clock := s.at);
    match s.event
    case Start(launch) => AfterLaunchOf(w1.(agent := a.(manuallyStopped := false)), false, launch)
    case Stop => AfterStopOf(w1)
    case ManualRestart(launch) => AfterFinishOf(w1.(agent := AfterBegin(a, true, s.at)), launch, s.at)
    case Tick(obs) => Act(w1, cfg, Verdict(a, cfg, obs, s.at), s.at)
    case AutoCancelled => w1.(agent := a.(status := Stopped), waiting := None)
    case AutoFinish(launch) => AfterFinishOf(w1, launch, s.at).(waiting := None)
    case ProcessDies(p) =>
      w1.(live := w.live - {p},
          agent := if a.process.Some? && a.process.value.pid == p then a.(process := Some(Proc(p, false))) else a)
    case WatcherFires(p) => w1.(agent := AfterExit(a), watchers := w.watchers - {p})
  }

  function Exec(w: World, cfg: HealthConfig, run: seq<Step>): World {
    if run == [] then w else Next(Exec(w, cfg, run[..|run| - 1]), cfg, run[|run| - 1])
  }

  predicate Possible(w: World, cfg: HealthConfig, run: seq<Step>) {
    run != [] ==>
      && Possible(w, cfg, run[..|run| - 1])
      && Enabled(Exec(w, cfg, run[..|run| - 1]), run[|run| - 1])
  }

  /** Every prefix of a possible run is one, and the step after it is enabled. */
  lemma {:induction false} PossibleBefore(w: World, cfg: HealthConfig, run: seq<Step>, n: nat)
    requires Possible(w, cfg, run) && n <= |run|
    ensures Possible(w, cfg, run[..n])
    ensures n < |run| ==> Enabled(Exec(w, cfg, run[..n]), run[n])
  {
    if n == |run| {
      assert run[..n] == run;
    } else if n < |run| - 1 {
      assert run[..|run| - 1][..n] == run[..n];
      PossibleBefore(w, cfg, run[..|run| - 1], n);
    }
  }

  predicate AutoSucceeds(w: World, s: Step) {
    s.event.AutoFinish? && RestartSucceeds(w.agent, s.event.launch)
  }

  /** The number of successful automatic restarts in a run. */
  function AutoRestarts(w: World, cfg: HealthConfig, run: seq<Step>): nat {
    if run == [] then 0
    else
      var before := run[..|run| - 1];
      AutoRestarts(w, cfg, before) + if AutoSucceeds(Exec(w, cfg, before), run[|run| - 1]) then 1 else 0
  }

  lemma ExecAppend(w: World, cfg: HealthConfig, run: seq<Step>, s: Step)
    ensures Exec(w, cfg, run + [s]) == Next(Exec(w, cfg, run), cfg, s)
    ensures Possible(w, cfg, run + [s]) == (Possible(w, cfg, run) && Enabled(Exec(w, cfg, run), s))
    ensures AutoRestarts(w, cfg, run + [s])
            == AutoRestarts(w, cfg, run) + if AutoSucceeds(Exec(w, cfg, run), s) then 1 else 0
  {
    assert (run + [s])[..|run|] == run;
  }

  lemma ExecAppend3(w: World, cfg: HealthConfig, run: seq<Step>, s1: Step, s2: Step, s3: Step)
    ensures var w0 := Exec(w, cfg, run);
            var w1 := Next(w0, cfg, s1);
            var w2 := Next(w1, cfg, s2);
            && Exec(w, cfg, run + [s1, s2, s3]) == Next(w2, cfg, s3)
            && (Possible(w, cfg, run + [s1, s2, s3])
                == (Possible(w, cfg, run) && Enabled(w0, s1) && Enabled(w1, s2) && Enabled(w2, s3)))
            && AutoRestarts(w, cfg, run + [s1, s2, s3])
               == AutoRestarts(w, cfg, run) + (if AutoSucceeds(w0, s1) then 1 else 0)
                  + (if AutoSucceeds(w1, s2) then 1 else 0) + (if AutoSucceeds(w2, s3) then 1 else 0)
  {
    ExecAppend(w, cfg, run, s1);
    ExecAppend(w, cfg, run + [s1], s2);
    ExecAppend(w, cfg, run + [s1] + [s2], s3);
    assert run + [s1, s2, s3] == run + [s1] + [s2] + [s3];
  }
}
