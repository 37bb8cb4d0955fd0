/**
 The life cycle of one supervised agent: start, stop, restart with backoff, and the
 health loop that restarts it. Times are integer nanoseconds, as in Go.
 */
module Lifecycle {
  import opened Options

  const SECOND := 1_000_000_000

  const RESET_AFTER := 300 * SECOND

  type Pid = p: int | 0 < p witness 1

  datatype Status = Stopped | Starting | Running | Stopping | Restarting | Failed

  /** A process handle; `alive` says whether signal 0 still reaches the process. */
  datatype Proc = Proc(pid: int, alive: bool)

  datatype Agent = Agent(
    status: Status, pid: int, process: Option<Proc>, manuallyStopped: bool,
    restartCount: nat, lastRestart: Option<int>)

  const NEW_AGENT := Agent(Stopped, 0, None, false, 0, None)

  /** How the operating system answers an attempt to launch the binary. */
  datatype Launch = BadBinary | NoLogDir | NoLogFile | SpawnFailed | Spawned(pid: Pid)

  datatype WaitEnd = Exited | TimedOut | Cancelled

  /** How the operating system answers the calls made while stopping a process. */
  datatype StopEnv = StopEnv(found: bool, reachable: bool, termDelivered: bool, end: WaitEnd, killDelivered: bool)

  // ---- What each operation does to the agent, as a function of the state before it ----

  predicate IsRunning(a: Agent) {
    a.process.Some? && a.process.value.alive
  }

  function AfterLaunch(a: Agent, clearFlag: bool, launch: Launch): Agent {
    if IsRunning(a) then a
    else
      var b := if clearFlag then a.(manuallyStopped := false) else a;
      if launch.Spawned? then b.(status := Running, pid := launch.pid, process := Some(Proc(launch.pid, true)))
      else b.(status := Failed)
  }

  /** Whatever the operating system answers, Stop has this one effect. */
  function AfterStop(a: Agent): Agent {
    a.(status := Stopped, pid := 0, manuallyStopped := true, process := if a.pid == 0 then a.process else None)
  }

  function AfterExit(a: Agent): Agent {
    a.(status := Stopped, pid := 0, process := None)
  }

  /** The health checker's own exit update, which leaves the process handle alone. */
  function AfterExitUpdate(a: Agent): Agent {
    if a.status == Stopped then a else a.(status := Stopped, pid := 0)
  }

  predicate Settled(a: Agent, now: int) {
    a.lastRestart.Some? && now - a.lastRestart.value > RESET_AFTER
  }

  function Delay(restartCount: nat): int {
    if restartCount < 1 then 0
    else if restartCount < 3 then 10 * SECOND
    else if restartCount < 5 then 30 * SECOND
    else 60 * SECOND
  }

  function Backoff(a: Agent, now: int): int {
    if Settled(a, now) then 0 else Delay(a.restartCount)
  }

  function ResetIfSettled(a: Agent, now: int): Agent {
    if Settled(a, now) then a.(restartCount := 0) else a
  }

  function AfterBegin(a: Agent, skipBackoff: bool, now: int): Agent {
    var b := a.(status := Restarting);
    if skipBackoff then b else ResetIfSettled(b, now)
  }

  /** A live handle whose recorded PID is 0: Stop returns early and leaves it in place. */
  predicate Stuck(a: Agent) {
    IsRunning(a) && a.pid == 0
  }

  predicate RestartSucceeds(a: Agent, launch: Launch) {
    Stuck(a) || launch.Spawned?
  }

  function AfterFinish(a: Agent, launch: Launch, now: int): Agent {
    var b := AfterLaunch(if IsRunning(a) then AfterStop(a) else a, true, launch);
    if RestartSucceeds(a, launch) then b.(restartCount := b.restartCount + 1, lastRestart := Some(now))
    else b
  }

  // ---- The supervised agent as the daemon holds it ----

  class AgentInstance {
    var status: Status
    var pid: int
    var process: Option<Proc>
    var manuallyStopped: bool
    var restartCount: nat
    var lastRestart: Option<int>

    function State(): Agent
      reads this
    {
      Agent(status, pid, process, manuallyStopped, restartCount, lastRestart)
    }

    constructor ()
      ensures State() == NEW_AGENT
    {
      status, pid, process, manuallyStopped := Stopped, 0, None, false;
      restartCount, lastRestart := 0, None;
    }

    method StartInternal(clearFlag: bool, launch: Launch) returns (ok: bool)
      modifies this
      ensures State() == AfterLaunch(old(State()), clearFlag, launch)
      ensures ok == (old(IsRunning(State())) || launch.Spawned?)
    {
      if IsRunning(State()) {
        return true;
      }
      if clearFlag {
        manuallyStopped := false;
      }
      status := Starting;
      if launch.BadBinary? {
        status := Failed;
        return false;
      }
      if launch.NoLogDir? {
        status := Failed;
        return false;
      }
      if launch.NoLogFile? {
        status := Failed;
        return false;
      }
      if launch.SpawnFailed? {
        status := Failed;
        return false;
      }
      process := Some(Proc(launch.pid, true));
      pid := launch.pid;
      status := Running;
      return true;
    }

    method Start(launch: Launch) returns (ok: bool)
      modifies this
      ensures State() == AfterLaunch(old(State()).(manuallyStopped := false), false, launch)
      ensures ok == (old(IsRunning(State())) || launch.Spawned?)
    {
      manuallyStopped := false;
      ok := StartInternal(false, launch);
    }

    method Stop(graceful: bool, env: StopEnv)
      modifies this
      ensures State() == AfterStop(old(State()))
    {
      if pid == 0 {
        status := Stopped;
        manuallyStopped := true;
        return;
      }
      if process.None? {
        if !env.found || !env.reachable {
          pid := 0;
          status := Stopped;
          manuallyStopped := true;
          return;
        }
        process := Some(Proc(pid, true));
      }
      if !IsRunning(State()) {
        process := None;
        pid := 0;
        status := Stopped;
        manuallyStopped := true;
        return;
      }
      status := Stopping;
      if graceful {
        if !env.termDelivered {
          process := None;
          pid := 0;
          status := Stopped;
          manuallyStopped := true;
          return;
        }
        if !env.end.Exited? {
          process := Some(process.value.(alive := false));  // killed after a timeout or a cancelled context
        }
      } else if env.killDelivered {
        process := Some(process.value.(alive := false));
      }
      process := None;
      pid := 0;
      status := Stopped;
      manuallyStopped := true;
    }

    method CalculateBackoff(now: int) returns (wait: int)
      modifies this
      ensures State() == ResetIfSettled(old(State()), now) && wait == Backoff(old(State()), now)
      ensures old(lastRestart).Some? && now > old(lastRestart).value + 300_000_000_000
              ==> wait == 0 && restartCount == 0
      ensures wait in {0, 10_000_000_000, 30_000_000_000, 60_000_000_000}
    {
      if lastRestart.Some? && now - lastRestart.value > RESET_AFTER {
        restartCount := 0;
        return 0;
      }
      if restartCount < 1 {
        wait := 0;
      } else if restartCount < 3 {
        wait := 10 * SECOND;
      } else if restartCount < 5 {
        wait := 30 * SECOND;
      } else {
        wait := 60 * SECOND;
      }
    }

    /** Restart up to the wait: the part before the backoff timer. */
    method BeginRestart(skipBackoff: bool, now: int) returns (wait: int)
      modifies this
      ensures State() == AfterBegin(old(State()), skipBackoff, now)
      ensures wait == if skipBackoff then 0 else Backoff(old(State()), now)
    {
      status := Restarting;
      wait := 0;
      if !skipBackoff {
        wait := CalculateBackoff(now);
      }
    }

    /** The context was cancelled during the wait. */
    method CancelRestart()
      modifies this
      ensures State() == old(State()).(status := Stopped)
    {
      status := Stopped;
    }

    /** Restart after the wait. */
    method FinishRestart(launch: Launch, env: StopEnv, now: int) returns (ok: bool)
      modifies this
      ensures State() == AfterFinish(old(State()), launch, now)
      ensures ok == RestartSucceeds(old(State()), launch)
    {
      if IsRunning(State()) {
        Stop(true, env);
      }
      ok := StartInternal(true, launch);
      if !ok {
        status := Failed;
        return;
      }
      restartCount := restartCount + 1;
      lastRestart := Some(now);
    }

    /** The goroutine that waits for a process, once that process is gone. */
    method OnProcessExit()
      modifies this
      ensures State() == AfterExit(old(State()))
    {
      process := None;
      pid := 0;
      status := Stopped;
    }

    method UpdateStatusWhenProcessExits()
      modifies this
      ensures State() == AfterExitUpdate(old(State()))
    {
      if status == Stopped {
        return;
      }
      status := Stopped;
      pid := 0;
    }
  }
}
