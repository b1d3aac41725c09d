/** When a capture stops listening: it is asked to, or the voice activity detector finds the end of what it hears. */
module CaptureDetection {
  import opened Wrappers
  import opened CaptureProtocol
  import Rms = RootMeanSquare
  import Vad = VoiceActivity

  // ----- Passes on which the detector listens -----

  /** The pass took so many bytes out of the ring to send them. */
  predicate Takes(d: Device, e: Device, n: nat) {
    e.chunksSent == d.chunksSent + 1 && |e.ring| + n == |d.ring|
  }

  /** An enrolling device sends at least a sample in this step, and the detector hears it. */
  predicate HearsChunk(d: Device, a: Action, e: Device) {
    && a.DeviceLoop? && d.enrollment && e.chunksSent == d.chunksSent + 1 && |e.ring| + 2 <= |d.ring|
  }

  /** The step asks for the end: a request of a device that is not idle, or a chunk on which the detector ends the
      capture. */
  predicate AsksForEnd(d: Device, a: Action, e: Device) {
    (a == RequestEnd && d.state != Idle) || (HearsChunk(d, a, e) && a.t.vadEnds)
  }

  predicate SameEnd(d: Device, e: Device) {
    e.endRequested == d.endRequested && e.enrollment == d.enrollment && e.chunksSent == d.chunksSent
  }

  /** Listening goes on exactly until the end is asked for. */
  predicate ListensOn(d: Device) {
    && (Running(d.state) ==> (d.captureActive <==> !d.endRequested))
    && (!Running(d.state) ==> !d.captureActive)
  }

  // ----- Passes of the loop -----

  /** What the handling of a response leaves alone. */
  predicate HandledAlike(d: Device, e: Device) {
    && SameEnd(d, e) && (e.state == Closing || (e.ring == d.ring && e.captureActive == d.captureActive))
    && (e.state == Closing ==> !e.captureActive)
  }

  lemma StartedAlike(d: Device)
    requires d.state == WaitStarted
    ensures HandledAlike(d, StartAcked(d))
  {
  }

  lemma ChunkAckAlike(d: Device)
    requires d.state == WaitChunkAck
    ensures HandledAlike(d, ChunkAcked(d))
  {
  }

  lemma FinishedAlike(d: Device, accepted: bool, rejected: bool)
    ensures HandledAlike(d, Finish(d, accepted, rejected))
  {
  }

  lemma ComplainedAlike(d: Device)
    ensures HandledAlike(d, Finish(Complained(d), false, false))
  {
    assert SameEnd(d, Complained(d));
    FinishedAlike(Complained(d), false, false);
  }

  lemma HandlingSameEnd(d: Device, r: Response)
    ensures HandledAlike(d, HandleResponse(d, r))
  {
    if r == Started && d.state == WaitStarted {
      StartedAlike(d);
      assert HandleResponse(d, r) == StartAcked(d);
    } else if r == ChunkReceived && d.state == WaitChunkAck {
      ChunkAckAlike(d);
      assert HandleResponse(d, r) == ChunkAcked(d);
    } else if r.Result? && d.state == WaitResult {
      FinishedAlike(d, r.verdict == AcceptedVerdict, r.verdict == RejectedVerdict);
    } else if r == Error(true) {
      FinishedAlike(d, false, false);
      assert HandleResponse(d, r) == Finish(d, false, false);
    } else {
      ComplainedAlike(d);
      assert HandleResponse(d, r) == Finish(Complained(d), false, false);
    }
  }

  lemma {:induction false} DrainSameEnd(d: Device, rs: seq<Response>)
    requires d.state == Closing ==> !d.captureActive
    ensures var e := Drain(d, rs);
            HandledAlike(d, e) && (e.state == d.state || e.state == Closing || e.state == Streaming)
    decreases |rs|
  {
    if rs != [] && d.state != Closing {
      HandlingSameEnd(d, rs[0]);
      DrainSameEnd(HandleResponse(d, rs[0]), rs[1..]);
    }
  }

  /** What a pass that sends a chunk changes. */
  predicate SendsChunk(d: Device, e: Device, t: Tick) {
    && Takes(d, e, t.available) && t.available > 0 && Running(e.state) && e.enrollment == d.enrollment
    && (e.endRequested <==> d.endRequested || (d.enrollment && t.available >= 2 && t.vadEnds))
    && (e.captureActive <==> d.captureActive && (e.endRequested <==> d.endRequested))
  }

  lemma ChunkSameEnd(d: Device, n: nat, queueWorks: bool)
    requires n <= |d.ring|
    ensures var e := SendChunk(d, n, queueWorks);
            && Takes(d, e, n) && Running(e.state) && e.enrollment == d.enrollment
            && e.endRequested == d.endRequested && e.captureActive == d.captureActive
  {
    if queueWorks {
      assert SendChunk(d, n, queueWorks) == Queue(TakeChunk(d, n), Binary(d.ring[..n]));
    } else {
      assert SendChunk(d, n, queueWorks) == SendFailed(TakeChunk(d, n));
    }
  }

  lemma NextChunkListens(d: Device, t: Tick)
    requires d.state == Streaming && ListensOn(d) && Offers(d, t) && t.available > 0
    ensures SendsChunk(d, SendNextChunk(d, t), t)
  {
    ChunkSameEnd(d, t.available, t.queueWorks);
    ChunkSameEnd(EndRequest(d), t.available, t.queueWorks);
  }

  /** A pass sends a chunk, or leaves alone what was asked for; it may end the stream. */
  predicate PassListens(d: Device, e: Device, t: Tick) {
    || SendsChunk(d, e, t)
    || (SameEnd(d, e) && Running(e.state) && e.captureActive == d.captureActive)
    || (SameEnd(d, e) && e.state == Closing && !e.captureActive)
  }

  lemma AfterResponsesListens(d: Device, t: Tick)
    requires Running(d.state) && ListensOn(d) && Offers(d, t)
    ensures PassListens(d, AfterResponses(d, t), t)
  {
    if Troubled(d, t) || (Waiting(d.state) && t.ackTimedOut) {
      assert AfterResponses(d, t) == Finish(d, false, false);
    } else if d.state == Streaming {
      assert AfterResponses(d, t) == StreamNext(d, t);
      StreamListens(d, t);
    } else if d.state == Connecting {
      ConnectingListens(d, t);
    } else {
      assert AfterResponses(d, t) == d;
    }
  }

  lemma ConnectingListens(d: Device, t: Tick)
    requires d.state == Connecting && Offers(d, t) && !Troubled(d, t)
    ensures PassListens(d, AfterResponses(d, t), t)
  {
    assert AfterResponses(d, t) == d || AfterResponses(d, t) == SendStart(d);
  }

  lemma StreamListens(d: Device, t: Tick)
    requires d.state == Streaming && ListensOn(d) && Offers(d, t)
    ensures PassListens(d, StreamNext(d, t), t)
  {
    if t.busy || |d.commands| >= MAX_TRANSPORT_COMMANDS {
      assert StreamNext(d, t) == d;
    } else if t.available > 0 {
      NextChunkListens(d, t);
      assert StreamNext(d, t) == SendNextChunk(d, t);
    } else {
      assert StreamNext(d, t) == d || StreamNext(d, t) == SendEnd(d);
    }
  }

  lemma LoopListens(d: Device, t: Tick)
    requires ListensOn(d)
    ensures PassListens(d, Loop(d, t), t) || Loop(d, t) == d
  {
    if !Running(d.state) { return; }
    var drained := Drain(WithMail(d, []), d.responses);
    DrainSameEnd(WithMail(d, []), d.responses);
    if drained.state == Closing {
      assert Loop(d, t) == drained;
    } else if Offers(drained, t) {
      AfterResponsesListens(drained, t);
      assert Loop(d, t) == AfterResponses(drained, t);
    } else {
      assert Loop(d, t) == drained;
    }
  }

  // ----- Steps and runs -----

  lemma LoopStepEnds(d: Device, t: Tick)
    requires ListensOn(d)
    ensures var e := Loop(d, t);
            && ListensOn(e) && e.enrollment == d.enrollment
            && (e.endRequested <==> d.endRequested || AsksForEnd(d, DeviceLoop(t), e))
  {
    LoopListens(d, t);
    var e := Loop(d, t);
    if e != d && SendsChunk(d, e, t) { assert |e.ring| + t.available == |d.ring|; }
  }

  /** The step leaves what was asked for and what came of it alone, and the device goes on or stays closed. */
  predicate LeavesEnd(d: Device, e: Device) {
    && SameEnd(d, e) && e.captureActive == d.captureActive && e.state == d.state
    && e.accepted == d.accepted && e.rejected == d.rejected && e.callbacks == d.callbacks
  }

  lemma DeviceStepLeavesEnd(s: System, a: Action)
    requires !a.DeviceLoop? && !a.RequestEnd? && !a.TransportClosed?
    ensures LeavesEnd(s.dev, Step(s, a).dev)
  {
    match a
    case Hear(data) => HearingLeavesEnd(s.dev, data);
    case Work(ok) => WorkLeavesEnd(s, ok);
    case Deliver => DeliverLeavesEnd(s);
    case IngressReceive(valid) => if s.up != [] { ReceiveLeavesDevice(s, valid); }
    case _ => OthersLeaveEnd(s, a);
  }

  lemma HearingLeavesEnd(d: Device, data: Bytes)
    ensures LeavesEnd(d, Microphone(d, data))
  {
    if !d.captureActive || data == [] || |data| > MAX_QUEUED_AUDIO_BYTES {
      assert Microphone(d, data) == d;
    } else if |d.ring| + |data| > MAX_QUEUED_AUDIO_BYTES {
      MissLeavesEnd(d, data);
      assert Microphone(d, data) == Miss(d, data);
    } else {
      TakeLeavesEnd(d, data);
      assert Microphone(d, data) == Take(d, data);
    }
  }

  lemma MissLeavesEnd(d: Device, data: Bytes)
    ensures LeavesEnd(d, Miss(d, data))
  {
  }

  lemma TakeLeavesEnd(d: Device, data: Bytes)
    ensures LeavesEnd(d, Take(d, data))
  {
  }

  lemma UnpluggedLeavesEnd(d: Device)
    ensures LeavesEnd(d, Unplugged(d))
  {
  }

  lemma GarbledLeavesEnd(d: Device)
    ensures LeavesEnd(d, Garbled(d))
  {
  }

  lemma FailureLeavesEnd(d: Device)
    ensures LeavesEnd(d, SendFailed(d))
  {
  }

  lemma ConnectionLeavesEnd(d: Device)
    ensures LeavesEnd(d, NowConnected(d))
  {
  }

  lemma WorkedLeavesEnd(d: Device)
    requires d.commands != []
    ensures LeavesEnd(d, Worked(d))
  {
  }

  lemma MailLeavesEnd(d: Device, mail: seq<Response>)
    ensures LeavesEnd(d, WithMail(d, mail))
  {
  }

  lemma WorkLeavesEnd(s: System, ok: bool)
    ensures LeavesEnd(s.dev, Work'(s, ok).dev)
  {
    if s.dev.commands == [] { return; }
    WorkedLeavesEnd(s.dev);
    if ok {
      assert Work'(s, ok).dev == Worked(s.dev);
    } else {
      FailureLeavesEnd(Worked(s.dev));
      assert Work'(s, ok).dev == SendFailed(Worked(s.dev));
    }
  }

  lemma DeliverLeavesEnd(s: System)
    ensures LeavesEnd(s.dev, DeliverNext(s).dev)
  {
    if s.down == [] { return; }
    if |s.dev.responses| >= MAX_RESPONSE_QUEUE {
      GarbledLeavesEnd(s.dev);
      assert DeliverNext(s).dev == Garbled(s.dev);
    } else {
      MailLeavesEnd(s.dev, s.dev.responses + [s.down[0]]);
      assert DeliverNext(s).dev == WithMail(s.dev, s.dev.responses + [s.down[0]]);
    }
  }

  lemma OthersLeaveEnd(s: System, a: Action)
    requires a.Connected? || a.DeviceTrouble? || a.Flush? || a.IngressTimeout? || a.PeerClosed? || a.LoseConnection?
    ensures LeavesEnd(s.dev, Step(s, a).dev)
  {
    match a
    case Connected => ConnectionLeavesEnd(s.dev);
    case DeviceTrouble => GarbledLeavesEnd(s.dev);
    case PeerClosed => UnpluggedLeavesEnd(s.dev);
    case LoseConnection(_) => UnpluggedLeavesEnd(s.dev);
    case Flush(outcome) => assert FlushStep(s, outcome).dev == s.dev;
    case IngressTimeout =>
  }

  lemma CompletionLeavesEnd(d: Device)
    requires ListensOn(d)
    ensures var e := CompleteFinish(d);
            && e.endRequested == d.endRequested && e.captureActive == d.captureActive
            && Running(e.state) == Running(d.state)
            && (e.enrollment ==> d.enrollment) && (Running(e.state) ==> e.enrollment == d.enrollment)
  {
    if d.state != Closing { assert CompleteFinish(d) == d; }
  }

  /** One step: the end is asked for after it exactly if it was before or this step asks for it, and the device listens
      on until then. */
  lemma StepEnds(s: System, a: Action)
    requires ListensOn(s.dev)
    ensures var d, e := s.dev, Step(s, a).dev;
            && ListensOn(e) && (e.endRequested <==> d.endRequested || AsksForEnd(d, a, e))
            && (Running(e.state) ==> Running(d.state) && e.enrollment == d.enrollment)
            && (e.enrollment ==> d.enrollment)
  {
    match a
    case DeviceLoop(t) => LoopStepEnds(s.dev, t);
    case RequestEnd =>
    case TransportClosed => CompletionLeavesEnd(s.dev);
    case _ => DeviceStepLeavesEnd(s, a);
  }

  /** Step i of the run asks for the end. */
  predicate AsksAt(enrollment: bool, actions: seq<Action>, i: nat) {
    i < |actions| &&
    AsksForEnd(Run(enrollment, actions[..i]).dev, actions[i], Run(enrollment, actions[..i+1]).dev)
  }

  ghost predicate SomeStepAsks(enrollment: bool, actions: seq<Action>) {
    exists i :: AsksAt(enrollment, actions, i)
  }

  lemma AsksOneMore(enrollment: bool, actions: seq<Action>)
    requires actions != []
    ensures SomeStepAsks(enrollment, actions) <==>
            SomeStepAsks(enrollment, actions[..|actions|-1]) || AsksAt(enrollment, actions, |actions| - 1)
  {
    var front := actions[..|actions|-1];
    if i: nat :| AsksAt(enrollment, front, i) { AsksInFront(enrollment, actions, i); }
    if i: nat :| AsksAt(enrollment, actions, i) {
      if i < |front| { AsksInFront(enrollment, actions, i); }
    }
  }

  lemma AsksInFront(enrollment: bool, actions: seq<Action>, i: nat)
    requires i + 1 < |actions|
    ensures AsksAt(enrollment, actions, i) <==> AsksAt(enrollment, actions[..|actions|-1], i)
  {
    var front := actions[..|actions|-1];
    assert front[..i] == actions[..i] && front[..i+1] == actions[..i+1];
  }

  /** Over every run: the end is asked for exactly if the device was told to end while not idle, or took a chunk of an
      enrollment on which the detector ended the capture; and until then a running device captures. */
  lemma {:induction false} EndAskedExactly(enrollment: bool, actions: seq<Action>)
    ensures var d := Run(enrollment, actions).dev;
            && (d.endRequested <==> SomeStepAsks(enrollment, actions)) && ListensOn(d)
            && (Running(d.state) ==> d.enrollment == enrollment) && (d.enrollment ==> enrollment)
  {
    if actions == [] {
      assert ListensOn(NewDevice(enrollment));
    } else {
      var front, last := actions[..|actions|-1], actions[|actions|-1];
      EndAskedExactly(enrollment, front);
      AsksOneMore(enrollment, actions);
      LastStepEnds(enrollment, actions);
    }
  }

  lemma LastStepEnds(enrollment: bool, actions: seq<Action>)
    requires actions != [] && ListensOn(Run(enrollment, actions[..|actions|-1]).dev)
    ensures var d, e := Run(enrollment, actions[..|actions|-1]).dev, Run(enrollment, actions).dev;
            && ListensOn(e) && (e.endRequested <==> d.endRequested || AsksAt(enrollment, actions, |actions| - 1))
            && (Running(e.state) ==> Running(d.state) && e.enrollment == d.enrollment)
            && (e.enrollment ==> d.enrollment)
  {
    StepEnds(Run(enrollment, actions[..|actions|-1]), actions[|actions|-1]);
    assert actions[..|actions|] == actions;
  }

  // ----- What the detector hears -----

  /** Two bytes as a sample, the low one first. */
  function SampleOf(low: byte, high: byte): Rms.int16 {
    var u := low as int + 0x100 * high as int;
    (if u < 0x8000 then u else u - 0x10000) as Rms.int16
  }

  /** The whole samples of a chunk. */
  function SamplesOf(chunk: Bytes): seq<Rms.int16> {
    seq(|chunk| / 2, i requires 0 <= i < |chunk| / 2 => SampleOf(chunk[2*i], chunk[2*i+1]))
  }

  /** The chunks the detector hears in the run, and whether it ends the capture on each. */
  function Heard(enrollment: bool, actions: seq<Action>): seq<(Bytes, bool)> {
    if actions == [] then []
    else
      var i := |actions| - 1;
      var d, e := Run(enrollment, actions[..i]).dev, Run(enrollment, actions).dev;
      Heard(enrollment, actions[..i]) +
      if HearsChunk(d, actions[i], e) then [(d.ring[..|d.ring|-|e.ring|], actions[i].t.vadEnds)] else []
  }

  /** The detector is asked about each chunk in turn: a frame has the level of its chunk's samples and the time of the
      pass, and the pass goes by the decision on the wrapping clock. */
  ghost predicate DetectorListens(c: Vad.Config, t0: int, heard: seq<(Bytes, bool)>, frames: seq<Vad.Frame>) {
    && |frames| == |heard| && Vad.InOrder(t0, frames)
    && forall i :: 0 <= i < |heard| ==>
         && frames[i].now < t0 + Vad.CLOCK
         && frames[i].level >= 0 && Rms.IsRms(frames[i].level, SamplesOf(heard[i].0))
         && (heard[i].1 <==>
             Vad.EndsCapture(Vad.Decided(c, Vad.Wrapping, t0 % Vad.CLOCK, Vad.OnClock(frames[..i+1]))))
  }

  /** By the history of levels and times the capture is over: trailing silence, no speech at all, or its longest
      duration. */
  ghost predicate HistoryEnds(c: Vad.Config, t0: int, frames: seq<Vad.Frame>)
    requires frames != []
  {
    || Vad.Justified(c, t0, frames, Vad.Complete)
    || Vad.Justified(c, t0, frames, Vad.NoSpeechTimeout)
    || Vad.Justified(c, t0, frames, Vad.MaxDuration)
  }

  ghost predicate HistoryEndsAt(c: Vad.Config, t0: int, frames: seq<Vad.Frame>, i: nat)
    requires i < |frames|
  {
    HistoryEnds(c, t0, frames[..i+1])
  }

  lemma DecisionFollowsHistory(c: Vad.Config, t0: int, frames: seq<Vad.Frame>)
    requires Vad.InOrder(t0, frames) && frames != [] && frames[|frames|-1].now < t0 + Vad.CLOCK
    ensures Vad.EndsCapture(Vad.Decided(c, Vad.Wrapping, t0 % Vad.CLOCK, Vad.OnClock(frames))) <==>
            HistoryEnds(c, t0, frames)
  {
    var decision := Vad.Decided(c, Vad.Wrapping, t0 % Vad.CLOCK, Vad.OnClock(frames));
    Vad.DetectorDecidesByHistory(c, t0, frames);
    if Vad.Justified(c, t0, frames, Vad.Complete) { Vad.HistoryDecidesOnce(c, t0, frames, decision, Vad.Complete); }
    if Vad.Justified(c, t0, frames, Vad.NoSpeechTimeout) {
      Vad.HistoryDecidesOnce(c, t0, frames, decision, Vad.NoSpeechTimeout);
    }
    if Vad.Justified(c, t0, frames, Vad.MaxDuration) {
      Vad.HistoryDecidesOnce(c, t0, frames, decision, Vad.MaxDuration);
    }
  }

  ghost predicate RequestedAt(enrollment: bool, actions: seq<Action>, i: nat) {
    i < |actions| && actions[i] == RequestEnd && Run(enrollment, actions[..i]).dev.state != Idle
  }

  ghost predicate SomeStepRequests(enrollment: bool, actions: seq<Action>) {
    exists i :: RequestedAt(enrollment, actions, i)
  }

  predicate SomeEnds(heard: seq<(Bytes, bool)>) {
    exists i :: 0 <= i < |heard| && heard[i].1
  }

  lemma RequestsOneMore(enrollment: bool, actions: seq<Action>)
    requires actions != []
    ensures SomeStepRequests(enrollment, actions) <==>
            SomeStepRequests(enrollment, actions[..|actions|-1]) || RequestedAt(enrollment, actions, |actions| - 1)
  {
    var front := actions[..|actions|-1];
    if i: nat :| RequestedAt(enrollment, front, i) {
      assert front[..i] == actions[..i];
      assert RequestedAt(enrollment, actions, i);
    }
    if i: nat :| RequestedAt(enrollment, actions, i) {
      if i < |front| {
        assert front[..i] == actions[..i];
        assert RequestedAt(enrollment, front, i);
      }
    }
  }

  lemma SomeEndsOneMore(heard: seq<(Bytes, bool)>, last: (Bytes, bool))
    ensures SomeEnds(heard + [last]) <==> SomeEnds(heard) || last.1
  {
    var more := heard + [last];
    if SomeEnds(heard) {
      var i :| 0 <= i < |heard| && heard[i].1;
      assert more[i].1;
    }
    if last.1 { assert more[|heard|].1; }
    if SomeEnds(more) {
      var i :| 0 <= i < |more| && more[i].1;
      if i < |heard| { assert heard[i].1; }
    }
  }

  lemma {:induction false} AskingIsRequestOrEnd(enrollment: bool, actions: seq<Action>)
    ensures SomeStepAsks(enrollment, actions) <==>
            SomeStepRequests(enrollment, actions) || SomeEnds(Heard(enrollment, actions))
  {
    if actions != [] {
      var i := |actions| - 1;
      AskingIsRequestOrEnd(enrollment, actions[..i]);
      AsksOneMore(enrollment, actions);
      RequestsOneMore(enrollment, actions);
      assert actions[..i+1] == actions;
      var d, e := Run(enrollment, actions[..i]).dev, Run(enrollment, actions).dev;
      var before := Heard(enrollment, actions[..i]);
      if HearsChunk(d, actions[i], e) {
        var last := (d.ring[..|d.ring|-|e.ring|], actions[i].t.vadEnds);
        SomeEndsOneMore(before, last);
        assert Heard(enrollment, actions) == before + [last];
        assert AsksAt(enrollment, actions, i) <==> last.1;
      } else {
        assert Heard(enrollment, actions) == before;
        assert AsksAt(enrollment, actions, i) <==> RequestedAt(enrollment, actions, i);
      }
    }
  }

  /** An enrollment of less than 2^32 ms in which the detector judges the chunks that are sent: its end is asked for
      exactly if it was requested, or if the history of levels and times up to one of the chunks calls for it. Until
      then the device goes on capturing. */
  lemma CaptureEndsByHistory(enrollment: bool, actions: seq<Action>, c: Vad.Config, t0: int, frames: seq<Vad.Frame>)
    requires DetectorListens(c, t0, Heard(enrollment, actions), frames)
    ensures var d := Run(enrollment, actions).dev;
            && (d.endRequested <==>
                  SomeStepRequests(enrollment, actions) ||
                  exists i :: 0 <= i < |frames| && HistoryEndsAt(c, t0, frames, i))
            && (Running(d.state) ==> (d.captureActive <==> !d.endRequested))
            && (Heard(enrollment, actions) != [] ==> enrollment)
  {
    EndAskedExactly(enrollment, actions);
    AskingIsRequestOrEnd(enrollment, actions);
    OnlyEnrollmentsAreHeard(enrollment, actions);
    var heard := Heard(enrollment, actions);
    forall i | 0 <= i < |heard| ensures heard[i].1 <==> HistoryEndsAt(c, t0, frames, i) {
      DecisionFollowsHistory(c, t0, frames[..i+1]);
    }
  }

  lemma {:induction false} OnlyEnrollmentsAreHeard(enrollment: bool, actions: seq<Action>)
    ensures Heard(enrollment, actions) != [] ==> enrollment
  {
    if actions != [] {
      OnlyEnrollmentsAreHeard(enrollment, actions[..|actions|-1]);
      EndAskedExactly(enrollment, actions[..|actions|-1]);
    }
  }
}
