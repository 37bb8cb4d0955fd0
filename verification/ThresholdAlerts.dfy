/**
 Alerts about an agent that stays over a resource threshold: a timer per agent and resource, started at
 the first sample over the threshold and cleared by the first one that is not.
 */
module ThresholdAlerts {
  import opened Options

  datatype Resource = CPU | Memory | OpenFiles

  datatype Threshold = Threshold(cpu: real, memory: nat, openFiles: int, duration: int)

  datatype Reading = Reading(cpu: real, memoryRSS: nat, openFiles: int)

  /** One checked sample: whose, when, what was read, and the threshold in force. */
  datatype Sample = Sample(agent: string, at: int, reading: Reading, threshold: Threshold)

  /** A threshold of 0 open files or less means "no limit". */
  predicate IsOver(s: Sample, res: Resource) {
    match res
    case CPU => s.reading.cpu > s.threshold.cpu
    case Memory => s.reading.memoryRSS > s.threshold.memory
    case OpenFiles => s.threshold.openFiles > 0 && s.reading.openFiles > s.threshold.openFiles
  }

  predicate InOrder(samples: seq<Sample>) {
    forall i, j :: 0 <= i < j < |samples| ==> samples[i].at <= samples[j].at
  }

  /** From sample i on, every sample of the agent is over the threshold for the resource. */
  predicate OverFrom(samples: seq<Sample>, i: int, agent: string, res: Resource) {
    && 0 <= i < |samples| && samples[i].agent == agent
    && forall j :: i <= j < |samples| && samples[j].agent == agent ==> IsOver(samples[j], res)
  }

  /** Over the threshold for too long: from some sample at least `duration` old until now, without a break. */
  ghost predicate TooLong(samples: seq<Sample>, agent: string, res: Resource, duration: int, now: int) {
    exists i :: OverFrom(samples, i, agent, res) && now - samples[i].at >= duration
  }

  function Ticked(timer: Option<int>, s: Sample, agent: string, res: Resource): Option<int> {
    if s.agent != agent then timer
    else if !IsOver(s, res) then None
    else if timer.None? then Some(s.at)
    else timer
  }

  /** The state of one timer after a history of samples of all agents. */
  function Timer(samples: seq<Sample>, agent: string, res: Resource): Option<int> {
    if samples == [] then None
    else
      Ticked(Timer(samples[..|samples| - 1], agent, res), samples[|samples| - 1], agent, res)
  }

  predicate Expired(timer: Option<int>, s: Sample) {
    timer.Some? && s.at - timer.value >= s.threshold.duration
  }

  lemma Extend(samples: seq<Sample>, i: nat, agent: string, res: Resource)
    requires i < |samples| - 1
    ensures var n := |samples| - 1;
            OverFrom(samples, i, agent, res)
            <==> OverFrom(samples[..n], i, agent, res) && (samples[n].agent == agent ==> IsOver(samples[n], res))
  {
    var n := |samples| - 1;
    var before := samples[..n];
    assert forall j :: 0 <= j < n ==> before[j] == samples[j];
  }

  /** A running timer was started by the earliest sample of the current unbroken stretch. */
  lemma {:induction false} TimerIsStart(samples: seq<Sample>, agent: string, res: Resource)
    requires InOrder(samples)
    ensures var t := Timer(samples, agent, res);
            && (t.Some? ==> exists i :: OverFrom(samples, i, agent, res) && samples[i].at == t.value)
            && (forall i :: OverFrom(samples, i, agent, res) ==> t.Some? && t.value <= samples[i].at)
  {
    if samples != [] {
      var n := |samples| - 1;
      var before, last := samples[..n], samples[n];
      TimerIsStart(before, agent, res);
      var t0, t := Timer(before, agent, res), Timer(samples, agent, res);
      forall i | 0 <= i < n
        ensures OverFrom(samples, i, agent, res)
                <==> OverFrom(before, i, agent, res) && (last.agent == agent ==> IsOver(last, res))
      {
        Extend(samples, i, agent, res);
      }
      if t.Some? {
        if t0.Some? {
          var i :| OverFrom(before, i, agent, res) && before[i].at == t0.value;
          assert OverFrom(samples, i, agent, res) && samples[i].at == t.value;
        } else {
          assert OverFrom(samples, n, agent, res);
        }
      }
    }
  }

  /** With a clock that does not go back, the timer has run for the duration iff the resource was over for too long. */
  lemma TimerMeansTooLong(samples: seq<Sample>, agent: string, res: Resource, duration: int, now: int)
    requires InOrder(samples)
    ensures var t := Timer(samples, agent, res);
            (t.Some? && now - t.value >= duration) <==> TooLong(samples, agent, res, duration, now)
  {
    TimerIsStart(samples, agent, res);
  }

  /**
   What an alert says of the sample just taken: its reading is above its threshold, where a limit of 0 open files
   or less is none; and without a duration to wait for, that is all it takes.
   */
  lemma AlertMeans(samples: seq<Sample>, s: Sample, duration: int)
    ensures TooLong(samples + [s], s.agent, CPU, duration, s.at) ==> s.reading.cpu > s.threshold.cpu
    ensures TooLong(samples + [s], s.agent, Memory, duration, s.at) ==> s.reading.memoryRSS > s.threshold.memory
    ensures TooLong(samples + [s], s.agent, OpenFiles, duration, s.at)
            ==> 0 < s.threshold.openFiles < s.reading.openFiles
    ensures duration <= 0 && s.reading.cpu > s.threshold.cpu ==> TooLong(samples + [s], s.agent, CPU, duration, s.at)
    ensures duration <= 0 && s.reading.memoryRSS > s.threshold.memory
            ==> TooLong(samples + [s], s.agent, Memory, duration, s.at)
    ensures duration <= 0 && 0 < s.threshold.openFiles < s.reading.openFiles
            ==> TooLong(samples + [s], s.agent, OpenFiles, duration, s.at)
  {
    var all, n := samples + [s], |samples|;
    assert all[n] == s;
    forall res | TooLong(all, s.agent, res, duration, s.at) ensures IsOver(s, res) {
      var i :| OverFrom(all, i, s.agent, res) && s.at - all[i].at >= duration;
      assert IsOver(all[n], res);
    }
    forall res | duration <= 0 && IsOver(s, res) ensures TooLong(all, s.agent, res, duration, s.at) {
      assert OverFrom(all, n, s.agent, res);
    }
  }

  class ResourceMonitor {
    var thresholds: map<string, Threshold>
    var exceededSince: map<string, map<Resource, Option<int>>>
    ghost var samples: seq<Sample>  // every sample checked against a threshold

    function Since(agent: string, res: Resource): Option<int>
      reads this
    {
      if agent in exceededSince && res in exceededSince[agent] then exceededSince[agent][res] else None
    }

    ghost predicate Valid()
      reads this
    {
      && InOrder(samples)
      && forall agent, res :: Since(agent, res) == Timer(samples, agent, res)
    }

    constructor ()
      ensures Valid() && thresholds == map[] && samples == []
    {
      thresholds, exceededSince, samples := map[], map[], [];
    }

    method SetThreshold(agent: string, t: Threshold)
      requires Valid()
      modifies this`thresholds
      ensures Valid() && thresholds == old(thresholds)[agent := t]
    {
      thresholds := thresholds[agent := t];
    }

    method GetExceededDuration(agent: string, res: Resource, now: int) returns (duration: int)
      modifies this`exceededSince
      ensures Since(agent, res) == if old(Since(agent, res)).Some? then old(Since(agent, res)) else Some(now)
      ensures forall a, r :: (a, r) != (agent, res) ==> Since(a, r) == old(Since(a, r))
      ensures duration == now - Since(agent, res).value
    {
      if agent !in exceededSince {
        exceededSince := exceededSince[agent := map[]];
      }
      if Since(agent, res).None? {
        exceededSince := exceededSince[agent := exceededSince[agent][res := Some(now)]];
        return 0;
      }
      return now - exceededSince[agent][res].value;
    }

    method ClearExceededSince(agent: string, res: Resource)
      modifies this`exceededSince
      ensures forall a, r :: Since(a, r) == if (a, r) == (agent, res) then None else old(Since(a, r))
    {
      if agent in exceededSince {
        exceededSince := exceededSince[agent := exceededSince[agent][res := None]];
      }
    }

    /** One resource of one sample: run or clear its timer, and report it if it has run long enough. */
    method CheckOne(agent: string, res: Resource, over: bool, duration: int, now: int) returns (alert: bool)
      modifies this`exceededSince
      ensures forall a, r :: Since(a, r) ==
                             if (a, r) != (agent, res) then old(Since(a, r))
                             else if !over then None
                             else if old(Since(a, r)).Some? then old(Since(a, r))
                             else Some(now)
      ensures alert == (over && now - Since(agent, res).value >= duration)
    {
      if over {
        var exceeded := GetExceededDuration(agent, res, now);
        alert := exceeded >= duration;
      } else {
        ClearExceededSince(agent, res);
        alert := false;
      }
    }

    method CheckAll(s: Sample) returns (cpu: bool, memory: bool, openFiles: bool)
      modifies this`exceededSince
      ensures forall a, res :: Since(a, res) == Ticked(old(Since(a, res)), s, a, res)
      ensures cpu == Expired(Since(s.agent, CPU), s)
      ensures memory == Expired(Since(s.agent, Memory), s)
      ensures openFiles == Expired(Since(s.agent, OpenFiles), s)
    {
      var r, t := s.reading, s.threshold;
      cpu := CheckOne(s.agent, CPU, r.cpu > t.cpu, t.duration, s.at);
      memory := CheckOne(s.agent, Memory, r.memoryRSS > t.memory, t.duration, s.at);
      openFiles := CheckOne(s.agent, OpenFiles, t.openFiles > 0 && r.openFiles > t.openFiles, t.duration, s.at);
    }

    /** Exactly the resources over their threshold for too long are reported, whatever other agents did meanwhile. */
    method CheckResourceThresholds(agent: string, r: Reading, now: int)
      returns (cpu: bool, memory: bool, openFiles: bool)
      requires Valid()
      requires forall i :: 0 <= i < |samples| ==> samples[i].at <= now
      modifies this`exceededSince, this`samples
      ensures Valid()
      ensures agent !in thresholds ==> !cpu && !memory && !openFiles && samples == old(samples)
      ensures agent in thresholds ==>
                var duration := thresholds[agent].duration;
                && samples == old(samples) + [Sample(agent, now, r, thresholds[agent])]
                && cpu == TooLong(samples, agent, CPU, duration, now)
                && memory == TooLong(samples, agent, Memory, duration, now)
                && openFiles == TooLong(samples, agent, OpenFiles, duration, now)
    {
      cpu, memory, openFiles := false, false, false;
      if agent !in thresholds {
        return;
      }
      var s := Sample(agent, now, r, thresholds[agent]);
      cpu, memory, openFiles := CheckAll(s);
      samples := samples + [s];
      forall a, res: Resource
        ensures Since(a, res) == Timer(samples, a, res)
      {
        assert samples[..|samples| - 1] == old(samples);
      }
      forall res
        ensures Expired(Since(agent, res), s) == TooLong(samples, agent, res, s.threshold.duration, now)
      {
        TimerMeansTooLong(samples, agent, res, s.threshold.duration, now);
      }
    }
  }
}
