/**
 The asynchronous metadata writer: producers put requests into a bounded channel, one goroutine takes
 them out, collects them in a batch and writes the batch to the store in order.
 */
module MetadataWriter {
  datatype Request = Request(agentId: string, metadata: string, isUpdate: bool)

  const CHANNEL_SIZE := 100

  const BATCH_SIZE := 10

  /** The main loop, the drain after the stop signal, the last flush after finding the channel empty, and the end. */
  datatype Phase = Looping | Draining | LastFlush | Ended

  /** `accepted` is the history of requests that entered the channel, `written` what the store was asked to write. */
  datatype Writer = Writer(
    channel: seq<Request>, batch: seq<Request>, written: seq<Request>, accepted: seq<Request>,
    stopClosed: bool, phase: Phase)

  const NEW_WRITER := Writer([], [], [], [], false, Looping)

  datatype Event =
    | Submit(request: Request)  // SaveMetadata or UpdateMetadata, by any goroutine at any time
    | Receive
    | FlushTimer
    | CloseStop
    | SeeStop
    | DrainOne
    | DrainEmpty  // the default branch is taken: from here on the channel is not read again
    | Finish      // the last flush and the return

  predicate Enabled(w: Writer, e: Event) {
    match e
    case Submit(_) => true
    case Receive => w.phase == Looping && w.channel != []
    case FlushTimer => w.phase == Looping
    case CloseStop => !w.stopClosed
    case SeeStop => w.phase == Looping && w.stopClosed
    case DrainOne => w.phase == Draining && w.channel != []
    case DrainEmpty => w.phase == Draining && w.channel == []
    case Finish => w.phase == LastFlush
  }

  function Flushed(w: Writer): Writer {
    w.(written := w.written + w.batch, batch := [])
  }

  /** Take one request from the channel into the batch, and flush a full batch. */
  function Received(w: Writer): Writer
    requires w.channel != []
  {
    var w1 := w.(batch := w.batch + [w.channel[0]], channel := w.channel[1..]);
    if |w1.batch| >= BATCH_SIZE then Flushed(w1) else w1
  }

  function Next(w: Writer, e: Event): Writer
    requires Enabled(w, e)
  {
    match e
    case Submit(r) =>
      if |w.channel| < CHANNEL_SIZE then w.(channel := w.channel + [r], accepted := w.accepted + [r]) else w
    case Receive => Received(w)
    case FlushTimer => Flushed(w)
    case CloseStop => w.(stopClosed := true)
    case SeeStop => Flushed(w).(phase := Draining)
    case DrainOne => Received(w)
    case DrainEmpty => w.(phase := LastFlush)
    case Finish => Flushed(w).(phase := Ended)
  }

  /** A run given by the states it passes through. */
  ghost predicate IsRun(states: seq<Writer>, events: seq<Event>) {
    && |states| == |events| + 1
    && states[0] == NEW_WRITER
    && forall i :: 0 <= i < |events| ==> Enabled(states[i], events[i]) && states[i + 1] == Next(states[i], events[i])
  }

  /** Nothing is lost, duplicated or reordered, and the batch stays below its limit between steps. */
  predicate Inv(w: Writer) {
    && w.accepted == w.written + w.batch + w.channel
    && |w.batch| < BATCH_SIZE
    && |w.channel| <= CHANNEL_SIZE
    && (w.phase == Ended ==> w.batch == [])
    && (w.phase != Looping ==> w.stopClosed)
  }

  lemma InvStep(w: Writer, e: Event)
    requires Inv(w) && Enabled(w, e)
    ensures Inv(Next(w, e))
  {
    if w.channel != [] {
      assert w.channel == [w.channel[0]] + w.channel[1..];
    }
  }

  lemma GrowStep(w: Writer, e: Event)
    requires Enabled(w, e)
    ensures w.written <= Next(w, e).written && w.accepted <= Next(w, e).accepted
  {
  }

  /** The invariant holds at every point of a run, and what was written or accepted once stays as it is. */
  lemma {:induction false} RunKeepsOrder(states: seq<Writer>, events: seq<Event>, k: nat)
    requires IsRun(states, events) && k <= |events|
    ensures Inv(states[k])
    ensures forall j :: 0 <= j <= k ==>
              states[j].written <= states[k].written && states[j].accepted <= states[k].accepted
  {
    if k > 0 {
      RunKeepsOrder(states, events, k - 1);
      InvStep(states[k - 1], events[k - 1]);
      GrowStep(states[k - 1], events[k - 1]);
    }
  }

  /** The requests submitted so far that found the channel with room for them, as submitted and in order. */
  function Admitted(states: seq<Writer>, events: seq<Event>, k: nat): seq<Request>
    requires k <= |events| && k <= |states|
  {
    if k == 0 then []
    else
      Admitted(states, events, k - 1)
      + if events[k - 1].Submit? && |states[k - 1].channel| < 100 then [events[k - 1].request] else []
  }

  lemma {:induction false} AcceptedIsAdmitted(states: seq<Writer>, events: seq<Event>, k: nat)
    requires IsRun(states, events) && k <= |events|
    ensures states[k].accepted == Admitted(states, events, k)
  {
    if k > 0 {
      AcceptedIsAdmitted(states, events, k - 1);
      assert Enabled(states[k - 1], events[k - 1]);
    }
  }

  /** The first request of the channel joins the batch, which is written once it holds ten. */
  predicate TakesFirst(w: Writer, w1: Writer) {
    && w.channel != [] && w.channel == [w.channel[0]] + w1.channel
    && if |w.batch| < 9 then w1.batch == w.batch + [w.channel[0]] && w1.written == w.written
       else w1.batch == [] && w1.written == w.written + w.batch + [w.channel[0]]
  }

  /** When a batch is written, always whole: with its tenth request, by the timer, at the stop signal, at the end. */
  lemma BatchWritten(w: Writer, e: Event)
    requires Enabled(w, e)
    ensures var w1 := Next(w, e);
            match e
            case Submit(_) => w1.batch == w.batch && w1.written == w.written
            case Receive => TakesFirst(w, w1)
            case DrainOne => TakesFirst(w, w1)
            case FlushTimer => w1.batch == [] && w1.written == w.written + w.batch && w1.channel == w.channel
            case SeeStop => w1.batch == [] && w1.written == w.written + w.batch && w1.channel == w.channel
            case Finish => w1.batch == [] && w1.written == w.written + w.batch && w1.channel == w.channel
            case _ => w1.batch == w.batch && w1.written == w.written && w1.channel == w.channel
  {
  }

  /** Nothing was offered to the channel strictly between events k and n. */
  predicate NoneSubmitted(events: seq<Event>, k: nat, n: nat)
    requires n <= |events|
  {
    forall i :: k < i < n ==> !events[i].Submit?
  }

  /** Once the channel was found empty, what is accepted stays in it for good. */
  lemma {:induction false} AfterDrainEmpty(states: seq<Writer>, events: seq<Event>, k: nat, n: nat)
    requires IsRun(states, events) && k < n <= |events| && events[k] == DrainEmpty
    ensures states[n].phase == LastFlush || states[n].phase == Ended
    ensures states[n].accepted == states[k].accepted + states[n].channel
    ensures states[n].written + states[n].batch == states[k].accepted
    ensures states[n].channel == [] <==> NoneSubmitted(events, k, n)
    decreases n
  {
    if n == k + 1 {
      RunKeepsOrder(states, events, k);
      assert Enabled(states[k], events[k]);
    } else {
      AfterDrainEmpty(states, events, k, n - 1);
      assert Enabled(states[n - 1], events[n - 1]);
      assert NoneSubmitted(events, k, n) <==> NoneSubmitted(events, k, n - 1) && !events[n - 1].Submit?;
    }
  }

  lemma {:induction false} EndFollowsDrainEmpty(states: seq<Writer>, events: seq<Event>, n: nat) returns (k: nat)
    requires IsRun(states, events) && n <= |events| && (states[n].phase == LastFlush || states[n].phase == Ended)
    ensures k < n && events[k] == DrainEmpty
  {
    assert Enabled(states[n - 1], events[n - 1]);
    if events[n - 1] == DrainEmpty {
      k := n - 1;
    } else {
      k := EndFollowsDrainEmpty(states, events, n - 1);
    }
  }

  /** After the end only the channel's content is unwritten: what came before it was found empty is written. */
  lemma EndWritesAll(states: seq<Writer>, events: seq<Event>, n: nat) returns (k: nat)
    requires IsRun(states, events) && n <= |events| && states[n].phase == Ended
    ensures k < n && events[k] == DrainEmpty
    ensures states[n].accepted == states[n].written + states[n].channel
    ensures states[n].written == states[k].accepted && states[n].batch == []
  {
    k := EndFollowsDrainEmpty(states, events, n);
    AfterDrainEmpty(states, events, k, n);
    RunKeepsOrder(states, events, n);
  }

  /**
   The channel stays open and a request accepted after the goroutine found it empty is never written, also when
   it arrives during the last flush: after the end everything accepted is written iff nothing was submitted since.
   */
  lemma AcceptedAfterDrainIsLost(states: seq<Writer>, events: seq<Event>, k: nat, n: nat)
    requires IsRun(states, events) && k < n <= |events| && events[k] == DrainEmpty && states[n].phase == Ended
    ensures states[n].written == states[k].accepted
    ensures states[n].written == states[n].accepted <==> NoneSubmitted(events, k, n)
  {
    AfterDrainEmpty(states, events, k, n);
    RunKeepsOrder(states, events, n);
  }

  /** Once producers have stopped, the drain shortens the channel at every step, so it ends within |channel| steps. */
  lemma {:induction false} DrainTerminates(states: seq<Writer>, events: seq<Event>, k: nat, n: nat)
    requires IsRun(states, events) && k <= n <= |events| && states[k].phase == Draining
    requires forall i :: k <= i < n ==> events[i] == DrainOne
    ensures |states[n].channel| == |states[k].channel| - (n - k)
    ensures states[n].phase == Draining
    decreases n
  {
    if n > k {
      DrainTerminates(states, events, k, n - 1);
      assert Enabled(states[n - 1], events[n - 1]);
    }
  }

  // ---- The goroutine's code ----

  class AsyncMetadataWriter {
    var channel: seq<Request>
    var batch: seq<Request>
    var written: seq<Request>
    var stopClosed: bool
    var phase: Phase
    ghost var accepted: seq<Request>

    ghost function State(): Writer
      reads this
    {
      Writer(channel, batch, written, accepted, stopClosed, phase)
    }

    constructor ()
      ensures State() == NEW_WRITER
    {
      channel, batch, written, accepted := [], [], [], [];
      stopClosed, phase := false, Looping;
    }

    /** SaveMetadata and UpdateMetadata: never blocks, drops the request when the channel is full. */
    method Submit(agentId: string, metadata: string, isUpdate: bool) returns (sent: bool)
      modifies this`channel, this`accepted
      ensures State() == Next(old(State()), Event.Submit(Request(agentId, metadata, isUpdate)))
      ensures sent == (|old(channel)| < 100)
      ensures channel == if sent then old(channel) + [Request(agentId, metadata, isUpdate)] else old(channel)
    {
      sent := |channel| < CHANNEL_SIZE;
      if sent {
        channel := channel + [Request(agentId, metadata, isUpdate)];
        accepted := accepted + [Request(agentId, metadata, isUpdate)];
      }
    }

    method Flush()
      modifies this`written, this`batch
      ensures State() == Flushed(old(State()))
    {
      if |batch| == 0 {
        return;
      }
      for i := 0 to |batch|
        invariant batch == old(batch) && written == old(written) + batch[..i]
      {
        written := written + [batch[i]];  // UpdateMetadata or SaveMetadata on the store; an error is only logged
      }
      batch := [];
    }

    method ReceiveOne()
      requires channel != []
      modifies this`channel, this`batch, this`written
      ensures State() == Received(old(State()))
    {
      batch, channel := batch + [channel[0]], channel[1..];
      if |batch| >= BATCH_SIZE {
        Flush();
      }
    }

    method SubmitAll(requests: seq<Request>)
      requires Inv(State())
      modifies this`channel, this`accepted
      ensures Inv(State()) && old(accepted) <= accepted
      ensures requests != [] && old(channel) == [] ==> channel != []
      ensures requests == [] ==> channel == old(channel) && accepted == old(accepted)
    {
      for i := 0 to |requests|
        invariant Inv(State()) && old(accepted) <= accepted
        invariant i > 0 && old(channel) == [] ==> channel != []
        invariant i == 0 ==> channel == old(channel) && accepted == old(accepted)
      {
        InvStep(State(), Event.Submit(requests[i]));
        var _ := Submit(requests[i].agentId, requests[i].metadata, requests[i].isUpdate);
      }
    }

    /**
     The stop branch of the loop. Producers offer arrivals[i] after the i-th receive, and `late` once the channel
     was found empty.
     */
    method StopAndDrain(arrivals: seq<seq<Request>>, late: seq<Request>)
      requires Inv(State()) && phase == Looping && stopClosed
      modifies this
      ensures Inv(State()) && phase == Ended && old(accepted) <= accepted
      ensures accepted == written + channel && batch == []
      ensures written == accepted <==> late == []
    {
      Flush();
      phase := Draining;
      var i := 0;
      while |channel| > 0
        invariant Inv(State()) && phase == Draining && stopClosed && old(accepted) <= accepted
        invariant 0 <= i <= |arrivals|
        decreases |arrivals| - i, |channel|
      {
        InvStep(State(), DrainOne);
        ReceiveOne();
        if i < |arrivals| {
          SubmitAll(arrivals[i]);
          i := i + 1;
        }
      }
      phase := LastFlush;
      SubmitAll(late);
      Flush();
      phase := Ended;
    }
  }
}
