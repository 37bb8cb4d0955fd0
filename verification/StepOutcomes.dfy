/**
 What each step of a run does to the agent and its health loop, field by field. Times are spelled out in nanoseconds.
 */
module StepOutcomes {
  import opened Options
  import opened Lifecycle

  import opened HealthLoop

  // ---- Calls and exits ----

  lemma StopOutcome(w: World, cfg: HealthConfig, at: int)
    ensures var a, b := w.agent, Next(w, cfg, Step(at, Stop)).agent;
            && b.status == Stopped && b.pid == 0 && b.manuallyStopped
            && b.process == (if a.pid == 0 then a.process else None)
            && b.restartCount == a.restartCount && b.lastRestart == a.lastRestart
  {
  }

  lemma StartOutcome(w: World, cfg: HealthConfig, at: int, launch: Launch)
    ensures var a, b := w.agent, Next(w, cfg, Step(at, Start(launch))).agent;
            && !b.manuallyStopped && b.restartCount == a.restartCount && b.lastRestart == a.lastRestart
            && if a.process.Some? && a.process.value.alive then
                 b.status == a.status && b.pid == a.pid && b.process == a.process
               else if launch.Spawned? then
                 b.status == Running && b.pid == launch.pid && b.process == Some(Proc(launch.pid, true))
               else
                 b.status == Failed && b.pid == a.pid && b.process == a.process
  {
  }

  /** A restart after its wait, or a manual one: it counts exactly if it succeeds or finds a stuck process. */
  lemma RestartOutcome(w: World, cfg: HealthConfig, s: Step)
    requires s.event.ManualRestart? || s.event.AutoFinish?
    ensures var a, b, launch := w.agent, Next(w, cfg, s).agent, s.event.launch;
            var running := a.process.Some? && a.process.value.alive;
            if running && a.pid == 0 then
              && b.status == Stopped && b.pid == 0 && b.process == a.process && b.manuallyStopped
              && b.restartCount == a.restartCount + 1 && b.lastRestart == Some(s.at)
            else if launch.Spawned? then
              && b.status == Running && b.pid == launch.pid && b.process == Some(Proc(launch.pid, true))
              && !b.manuallyStopped && b.restartCount == a.restartCount + 1 && b.lastRestart == Some(s.at)
            else
              && b.status == Failed && b.pid == (if running then 0 else a.pid)
              && b.process == (if running then None else a.process)
              && !b.manuallyStopped && b.restartCount == a.restartCount && b.lastRestart == a.lastRestart
  {
  }

  lemma CancelOutcome(w: World, cfg: HealthConfig, at: int)
    ensures var w1 := Next(w, cfg, Step(at, AutoCancelled));
            w1.agent == w.agent.(status := Stopped) && w1.waiting.None? && w1.overSince == w.overSince
  {
  }

  lemma ExitOutcome(w: World, cfg: HealthConfig, at: int, p: int)
    ensures var a, b := w.agent, Next(w, cfg, Step(at, WatcherFires(p))).agent;
            && b.status == Stopped && b.pid == 0 && b.process.None? && b.manuallyStopped == a.manuallyStopped
            && b.restartCount == a.restartCount && b.lastRestart == a.lastRestart
  {
  }

  // ---- Ticks ----

  /** The last heartbeat, if any and if a timeout is set, is older than the timeout. */
  predicate Overdue(cfg: HealthConfig, s: Step)
    requires s.event.Tick?
  {
    var last := s.event.obs.lastHeartbeat;
    last.Some? && cfg.heartbeatTimeout > 0 && last.value + cfg.heartbeatTimeout < s.at
  }

  /** Running with heartbeats in time, and the recorded PID answers. */
  predicate Sighted(a: Agent, cfg: HealthConfig, s: Step)
    requires s.event.Tick?
  {
    a.process.Some? && a.process.value.alive && !Overdue(cfg, s) && a.pid > 0 && s.event.obs.probed
  }

  /** A tick begins a restart iff the agent was not stopped by hand and is missing or too long over a threshold. */
  lemma TickBeginsIff(w: World, cfg: HealthConfig, s: Step)
    requires Enabled(w, s) && s.event.Tick?
    ensures Next(w, cfg, s).waiting.Some? <==>
            && !w.agent.manuallyStopped
            && (Sighted(w.agent, cfg, s) ==>
                  && s.event.obs.overThreshold && w.overSince.Some?
                  && s.at > w.overSince.value + cfg.thresholdDuration)
  {
  }

  /** The over-threshold timer starts at the first such tick, is cleared by a healthy one or by its own restart. */
  lemma TickTimer(w: World, cfg: HealthConfig, s: Step)
    requires Enabled(w, s) && s.event.Tick?
    ensures var w1, over := Next(w, cfg, s), s.event.obs.overThreshold;
            w1.overSince ==
            if w.agent.manuallyStopped || (Sighted(w.agent, cfg, s) && !over) then None
            else if !Sighted(w.agent, cfg, s) then w.overSince
            else if w1.waiting.Some? then None
            else if w.overSince.None? then Some(s.at)
            else w.overSince
  {
  }

  /** Status, PID and handle after a tick: one that finds no process or no answer clears the PID. */
  lemma TickAgent(w: World, cfg: HealthConfig, s: Step)
    requires Enabled(w, s) && s.event.Tick?
    ensures var a, w1 := w.agent, Next(w, cfg, s);
            var running := a.process.Some? && a.process.value.alive;
            var gone := !a.manuallyStopped && !Sighted(a, cfg, s) && !(running && Overdue(cfg, s));
            && w1.agent.status == (if w1.waiting.Some? then Restarting else a.status)
            && w1.agent.pid == (if gone && a.status != Stopped then 0 else a.pid)
            && w1.agent.process == a.process && w1.agent.manuallyStopped == a.manuallyStopped
            && w1.agent.lastRestart == a.lastRestart
  {
  }

  /**
   The backoff of a restart that begins: 0, 10, 10, 30, 30, then 60 seconds by restart count; more than five
   minutes after the last restart it is 0 and the count starts again.
   */
  lemma TickBackoff(w: World, cfg: HealthConfig, s: Step)
    requires Enabled(w, s) && s.event.Tick? && Next(w, cfg, s).waiting.Some?
    ensures var w1, last, n := Next(w, cfg, s), w.agent.lastRestart, w.agent.restartCount;
            if last.Some? && s.at > last.value + 300_000_000_000 then
              w1.agent.restartCount == 0 && w1.waiting == Some(s.at)
            else
              && w1.agent.restartCount == n
              && w1.waiting.value - s.at ==
                 if n == 0 then 0
                 else if n <= 2 then 10_000_000_000
                 else if n <= 4 then 30_000_000_000
                 else 60_000_000_000
  {
  }

  /**
   Any other tick resets the count exactly if more than five minutes have passed since the last restart and it
   finds the agent healthy or stopped by hand.
   */
  lemma TickResetIff(w: World, cfg: HealthConfig, s: Step)
    requires Enabled(w, s) && s.event.Tick? && Next(w, cfg, s).waiting.None? && w.agent.restartCount > 0
    ensures var count := Next(w, cfg, s).agent.restartCount;
            && (count == 0 || count == w.agent.restartCount)
            && (count == 0 <==>
                  && (w.agent.manuallyStopped || (Sighted(w.agent, cfg, s) && !s.event.obs.overThreshold))
                  && w.agent.lastRestart.Some? && s.at > w.agent.lastRestart.value + 300_000_000_000)
  {
  }
}
