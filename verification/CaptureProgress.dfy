/** An undisturbed capture comes to its end: as long as nothing fails, somebody has something to do, and there is only
    so much to do. */
module CaptureProgress {
  import opened Wrappers
  import opened CaptureProtocol

  // ----- What there is to do -----

  function Rank(state: DeviceState): nat {
    match state
    case Connecting => 2
    case WaitStarted => 1
    case Streaming => 1
    case WaitChunkAck => 1
    case _ => 0
  }

  function DeviceWork(d: Device): nat {
    20 * Rank(d.state) + 10 * |d.ring| + 8 * |d.commands| + |d.responses| + if d.connected then 0 else 1
  }

  function IngressWork(i: Ingress): nat {
    match i.phase
    case AwaitStart => |i.chunks| + 5
    case Relaying => |i.chunks| + 5
    case Flushing(sent) => if sent <= |i.chunks| then |i.chunks| - sent + 4 else 4
    case Finished => 0
  }

  /** More than the steps that are left. */
  function WorkLeft(s: System): nat {
    DeviceWork(s.dev) + 6 * |s.up| + 2 * |s.down| + IngressWork(s.ingress)
  }

  // ----- Undisturbed captures -----

  /** The end is asked for, and no flag of the device is raised. */
  predicate Calm(d: Device) {
    d.endRequested && !d.overflow && !d.protocolError && !d.sendFailed && !d.disconnected
  }

  /** How a capture ends if nothing fails: with the verdict, unless it is too long. */
  function Ending(captured: Bytes, verdict: Verdict): Response {
    if |captured| <= MAX_CAPTURE_BYTES then Result(verdict) else Error(true)
  }

  ghost predicate Undisturbed(s: System, verdict: Verdict) {
    && Inv(s) && Running(s.dev.state) && Calm(s.dev)
    && (s.ingress.phase.Finished? ==> s.dev.responses + s.down == [Ending(s.dev.captured, verdict)])
  }

  /** The device has handled the response that ends the capture, and if it was not too long the router has all of it. */
  ghost predicate Ended(s: System, captured: Bytes, verdict: Verdict) {
    && s.dev.state == Closing
    && (s.dev.accepted <==> verdict == AcceptedVerdict && |captured| <= MAX_CAPTURE_BYTES)
    && (s.dev.rejected <==> verdict == RejectedVerdict && |captured| <= MAX_CAPTURE_BYTES)
    && (|captured| <= MAX_CAPTURE_BYTES ==> Concat(s.ingress.router) == captured)
  }

  function Drained(d: Device): Device {
    Drain(WithMail(d, []), d.responses)
  }

  /** A pass of the loop during which no clock runs out and nothing is busy or fails, and which finds something to
      do. */
  predicate LoopHelps(d: Device, t: Tick) {
    && !t.timedOut && !t.ackTimedOut && !t.busy && t.queueWorks && Offers(Drained(d), t)
    && (d.responses != [] || d.state == Streaming || (d.state == Connecting && d.connected))
  }

  /** The step does not fail, and does something. The router answers with the verdict. */
  predicate Helps(s: System, verdict: Verdict, a: Action) {
    && Running(s.dev.state)
    && match a
       case DeviceLoop(t) => LoopHelps(s.dev, t)
       case Work(ok) => ok && s.dev.commands != []
       case Connected => s.dev.state == Connecting && s.dev.commands == [] && !s.dev.connected
       case Deliver => s.down != []
       case IngressReceive(valid) => valid && s.up != []
       case Flush(outcome) => outcome == Some(verdict) && s.ingress.phase.Flushing?
       case _ => false
  }

  /** The system after the step is undisturbed or at its end, and there is less to do. */
  ghost predicate Proceeds(s: System, e: System, verdict: Verdict) {
    && WorkLeft(e) < WorkLeft(s)
    && if e.dev.state == Closing then Ended(e, s.dev.captured, verdict)
       else Undisturbed(e, verdict) && e.dev.captured == s.dev.captured
  }

  // ----- The device's loop -----

  /** The devices agree on flags and audio taken. */
  predicate SameCalm(d: Device, e: Device) {
    && e.endRequested == d.endRequested && e.overflow == d.overflow && e.protocolError == d.protocolError
    && e.sendFailed == d.sendFailed && e.disconnected == d.disconnected && e.captured == d.captured
  }

  /** One device has less to do than the other and goes on as calm with the same audio. */
  predicate GoesOn(d: Device, e: Device) {
    SameCalm(d, e) && Running(e.state) && e.responses == [] && DeviceWork(e) < DeviceWork(d)
  }

  lemma ChunkIsProgress(d: Device, n: nat)
    requires d.state == Streaming && 0 < n <= |d.ring| && d.responses == []
    ensures GoesOn(d, SendChunk(d, n, true))
  {
    assert SendChunk(d, n, true) == Queue(TakeChunk(d, n), Binary(d.ring[..n]));
    assert |d.ring[n..]| == |d.ring| - n;
  }

  lemma EndRequestAgain(d: Device)
    requires d.endRequested && !d.captureActive && Running(d.state)
    ensures EndRequest(d) == d
  {
  }

  lemma NextChunkIsProgress(d: Device, t: Tick)
    requires d.state == Streaming && d.endRequested && !d.captureActive && d.responses == []
    requires Offers(d, t) && t.queueWorks && t.available > 0
    ensures GoesOn(d, SendNextChunk(d, t))
  {
    EndRequestAgain(d);
    ChunkIsProgress(d, t.available);
    assert SendNextChunk(d, t) == SendChunk(d, t.available, true);
  }

  lemma EndIsProgress(d: Device)
    requires d.state == Streaming && d.responses == []
    ensures GoesOn(d, SendEnd(d))
  {
    assert |Queue(d, EndFrame).commands| == |d.commands| + 1;
  }

  lemma StartIsProgress(d: Device)
    requires d.state == Connecting && d.responses == []
    ensures GoesOn(d, SendStart(d))
  {
    assert |Queue(d, StartFrame).commands| == |d.commands| + 1;
  }

  lemma StreamIsProgress(d: Device, t: Tick)
    requires d.state == Streaming && Calm(d) && !d.captureActive && d.responses == [] && d.commands == []
    requires Offers(d, t) && !t.timedOut && !t.busy && t.queueWorks
    ensures GoesOn(d, AfterResponses(d, t))
  {
    assert AfterResponses(d, t) == StreamNext(d, t);
    if t.available > 0 {
      NextChunkIsProgress(d, t);
      assert StreamNext(d, t) == SendNextChunk(d, t);
    } else {
      EndIsProgress(d);
      assert StreamNext(d, t) == SendEnd(d);
    }
  }

  lemma ConnectedIsProgress(d: Device, t: Tick)
    requires d.state == Connecting && d.connected && Calm(d) && d.responses == [] && d.commands == []
    requires Offers(d, t) && !t.timedOut && t.queueWorks
    ensures GoesOn(d, AfterResponses(d, t))
  {
    StartIsProgress(d);
    assert AfterResponses(d, t) == SendStart(d);
  }

  /** In an undisturbed capture one response at most is on its way; the last one if the ingress has finished, else an
      acknowledgement. */
  lemma MailIsShort(s: System, verdict: Verdict)
    requires Undisturbed(s, verdict)
    ensures |s.dev.responses + s.down| <= 1
    ensures s.dev.responses != [] ==>
              var r := s.dev.responses[0];
              if s.ingress.phase.Finished? then s.down == [] && r == Ending(s.dev.captured, verdict)
              else IsAck(r) && Expected(s.dev.state, r) && s.dev.commands == []
  {
    var v := ViewOf(s.dev, s.up, s.down, s.ingress);
    assert TrafficOk(v) && FramesOk(v);
    if s.dev.responses != [] { assert (s.dev.responses + s.down)[0] == s.dev.responses[0]; }
  }

  lemma DrainedOne(d: Device, r: Response)
    requires d.responses == [r] && Running(d.state)
    ensures Drained(d) == HandleResponse(WithMail(d, []), r)
  {
    var e := HandleResponse(WithMail(d, []), r);
    assert d.responses[1..] == [];
    assert Drained(d) == Drain(e, []);
  }

  lemma DrainedNone(d: Device)
    requires d.responses == []
    ensures Drained(d) == d
  {
    assert WithMail(d, []) == d;
  }

  lemma LoopIsAfterResponses(d: Device, t: Tick)
    requires Running(d.state) && Offers(Drained(d), t)
    ensures Loop(d, t) == AfterResponses(Drained(d), t)
  {
  }

  /** The device after an acknowledgement streams on. */
  predicate Acknowledged(d: Device, e: Device) {
    && SameCalm(d, e) && e.state == Streaming && e.responses == [] && e.commands == d.commands
    && e.captureActive == d.captureActive && DeviceWork(e) < DeviceWork(d)
  }

  lemma StartedIsProgress(d: Device)
    requires d.responses == [Started] && d.state == WaitStarted
    ensures Acknowledged(d, Drained(d))
  {
    var e := StartAcked(WithMail(d, []));
    DrainedOne(d, Started);
    assert HandleResponse(WithMail(d, []), Started) == e;
    assert DeviceWork(e) == DeviceWork(d) - 1;
  }

  lemma ChunkReceivedIsProgress(d: Device)
    requires d.responses == [ChunkReceived] && d.state == WaitChunkAck
    ensures Acknowledged(d, Drained(d))
  {
    var e := ChunkAcked(WithMail(d, []));
    DrainedOne(d, ChunkReceived);
    assert HandleResponse(WithMail(d, []), ChunkReceived) == e;
    assert DeviceWork(e) == DeviceWork(d) - 1;
  }

  lemma AckIsProgress(d: Device, r: Response)
    requires d.responses == [r] && IsAck(r) && Expected(d.state, r)
    ensures Acknowledged(d, Drained(d))
  {
    if r == Started {
      StartedIsProgress(d);
    } else {
      ChunkReceivedIsProgress(d);
    }
  }

  lemma LoopAfterAck(d: Device, t: Tick, r: Response)
    requires d.responses == [r] && IsAck(r) && Expected(d.state, r) && Calm(d) && !d.captureActive && d.commands == []
    requires LoopHelps(d, t)
    ensures GoesOn(d, Loop(d, t))
  {
    AckIsProgress(d, r);
    LoopIsAfterResponses(d, t);
    StreamIsProgress(Drained(d), t);
  }

  lemma LoopWithoutMail(d: Device, t: Tick)
    requires d.responses == [] && Running(d.state) && DeviceOk(d) && Calm(d) && LoopHelps(d, t)
    ensures GoesOn(d, Loop(d, t))
  {
    DrainedNone(d);
    LoopIsAfterResponses(d, t);
    if d.state == Streaming {
      StreamIsProgress(d, t);
    } else {
      ConnectedIsProgress(d, t);
    }
  }

  lemma FinishIsProgress(d: Device, e: Device, accepted: bool, rejected: bool)
    requires d.responses != [] && e == Finish(WithMail(d, []), accepted, rejected)
    ensures DeviceWork(e) < DeviceWork(d)
    ensures e.state == Closing && e.accepted == accepted && e.rejected == rejected
  {
  }

  lemma LoopAtTheEnd(d: Device, t: Tick, r: Response)
    requires d.responses == [r] && Running(d.state) && LoopHelps(d, t)
    requires r == Error(true) || (r.Result? && d.state == WaitResult)
    ensures var e := Loop(d, t);
            && e.state == Closing && DeviceWork(e) < DeviceWork(d)
            && (e.accepted <==> r == Result(AcceptedVerdict)) && (e.rejected <==> r == Result(RejectedVerdict))
  {
    DrainedOne(d, r);
    LoopIsAfterResponses(d, t);
    var e := HandleResponse(WithMail(d, []), r);
    assert e == Finish(WithMail(d, []), r == Result(AcceptedVerdict), r == Result(RejectedVerdict));
    FinishIsProgress(d, e, r == Result(AcceptedVerdict), r == Result(RejectedVerdict));
  }

  /** What is left to show of a pass after which the device is still running. */
  lemma DeviceProceeds(s: System, e: System, verdict: Verdict)
    requires Undisturbed(s, verdict) && Inv(e) && GoesOn(s.dev, e.dev)
    requires e.up == s.up && e.down == s.down && e.ingress == s.ingress
    requires s.ingress.phase.Finished? ==> s.dev.responses == []
    ensures Proceeds(s, e, verdict)
  {
  }

  lemma LoopProceeds(s: System, verdict: Verdict, t: Tick)
    requires Undisturbed(s, verdict) && LoopHelps(s.dev, t)
    ensures Proceeds(s, Step(s, DeviceLoop(t)), verdict)
  {
    var e := Step(s, DeviceLoop(t));
    StepKeepsInv(s, DeviceLoop(t));
    MailIsShort(s, verdict);
    if s.dev.responses == [] {
      LoopWithoutMail(s.dev, t);
      DeviceProceeds(s, e, verdict);
    } else if s.ingress.phase.Finished? {
      EndingProceeds(s, verdict, t);
    } else {
      LoopAfterAck(s.dev, t, s.dev.responses[0]);
      DeviceProceeds(s, e, verdict);
    }
  }

  lemma EndingProceeds(s: System, verdict: Verdict, t: Tick)
    requires Undisturbed(s, verdict) && LoopHelps(s.dev, t) && s.dev.responses != [] && s.ingress.phase.Finished?
    ensures Proceeds(s, Step(s, DeviceLoop(t)), verdict)
  {
    MailIsShort(s, verdict);
    var r := s.dev.responses[0];
    EndingIsDue(s, verdict);
    LoopAtTheEnd(s.dev, t, r);
  }

  /** The last response is due: a result comes when the device waits for it, and after the router has everything. */
  lemma EndingIsDue(s: System, verdict: Verdict)
    requires Undisturbed(s, verdict) && s.dev.responses != [] && s.ingress.phase.Finished?
    ensures s.dev.responses == [Ending(s.dev.captured, verdict)]
    ensures Ending(s.dev.captured, verdict).Result? ==>
              s.dev.state == WaitResult && Concat(s.ingress.router) == s.dev.captured
  {
    MailIsShort(s, verdict);
    var v := ViewOf(s.dev, s.up, s.down, s.ingress);
    assert s.dev.responses + s.down == s.dev.responses;
    assert v.mail == One(Ending(s.dev.captured, verdict));
    assert FramesOk(v) && AudioOk(v);
  }

  // ----- The other steps -----

  /** A step that leaves flags, audio and state alone, and the responses, proceeds if there is less to do. */
  lemma OthersProceed(s: System, e: System, verdict: Verdict)
    requires Undisturbed(s, verdict) && Inv(e) && WorkLeft(e) < WorkLeft(s)
    requires SameCalm(s.dev, e.dev) && e.dev.state == s.dev.state
    requires e.ingress.phase.Finished? ==> e.dev.responses + e.down == [Ending(e.dev.captured, verdict)]
    ensures Proceeds(s, e, verdict)
  {
  }

  lemma WorkProceeds(s: System, verdict: Verdict)
    requires Undisturbed(s, verdict) && s.dev.commands != []
    ensures Proceeds(s, Step(s, Work(true)), verdict)
  {
    var e := Step(s, Work(true));
    StepKeepsInv(s, Work(true));
    WorkedHasLess(s.dev);
    match s.dev.commands[0] {
      case Connect => assert e == s.(dev := Worked(s.dev));
      case Send(f) => assert e == s.(dev := Worked(s.dev), up := s.up + [f]);
    }
    OthersProceed(s, e, verdict);
  }

  lemma WorkedHasLess(d: Device)
    requires d.commands != []
    ensures DeviceWork(Worked(d)) == DeviceWork(d) - 8 && SameCalm(d, Worked(d)) && Worked(d).state == d.state
    ensures Worked(d).responses == d.responses
  {
  }

  lemma ConnectedProceeds(s: System, verdict: Verdict)
    requires Undisturbed(s, verdict) && s.dev.commands == [] && !s.dev.connected
    ensures Proceeds(s, Step(s, Connected), verdict)
  {
    var e := Step(s, Connected);
    StepKeepsInv(s, Connected);
    assert e == s.(dev := NowConnected(s.dev));
    assert SameCalm(s.dev, NowConnected(s.dev)) && DeviceWork(NowConnected(s.dev)) == DeviceWork(s.dev) - 1;
    OthersProceed(s, e, verdict);
  }

  lemma DeliverProceeds(s: System, verdict: Verdict)
    requires Undisturbed(s, verdict) && s.down != []
    ensures Proceeds(s, Step(s, Deliver), verdict)
  {
    var e := Step(s, Deliver);
    StepKeepsInv(s, Deliver);
    MailIsShort(s, verdict);
    var mail := s.dev.responses + [s.down[0]];
    assert e == s.(down := s.down[1..], dev := WithMail(s.dev, mail));
    assert SameCalm(s.dev, WithMail(s.dev, mail)) && DeviceWork(WithMail(s.dev, mail)) == DeviceWork(s.dev) + 1;
    assert mail + s.down[1..] == s.dev.responses + s.down;
    OthersProceed(s, e, verdict);
  }

  /** What an undisturbed ingress receives while it is live. */
  lemma FrameFits(s: System, verdict: Verdict)
    requires Undisturbed(s, verdict) && s.up != [] && !s.ingress.phase.Finished?
    ensures s.dev.responses + s.down == [] && |s.up| == 1
    ensures match s.up[0]
            case StartFrame => s.ingress.phase == AwaitStart
            case Binary(b) => s.ingress.phase == Relaying && b != [] && |b| <= MAX_TRANSPORT_CHUNK_BYTES &&
                              |Concat(s.ingress.chunks)| + |b| <= |s.dev.captured|
            case EndFrame => s.ingress.phase == Relaying
  {
    var v := ViewOf(s.dev, s.up, s.down, s.ingress);
    assert TrafficOk(v) && FramesOk(v) && v.flight == Some(s.up[0]) && Live(v);
    assert Fits(v, s.up[0]);
    if s.up[0].Binary? { assert |v.stored + s.up[0].payload| <= |v.captured|; }
  }

  lemma ReceiveProceeds(s: System, verdict: Verdict)
    requires Undisturbed(s, verdict) && s.up != []
    ensures Proceeds(s, Step(s, IngressReceive(true)), verdict)
  {
    if s.ingress.phase.Finished? {
      IgnoringProceeds(s, verdict);
      return;
    }
    FrameFits(s, verdict);
    match s.up[0]
    case StartFrame => StartProceeds(s, verdict);
    case Binary(_) => ChunkProceeds(s, verdict);
    case EndFrame => EndProceeds(s, verdict);
  }

  lemma IgnoringProceeds(s: System, verdict: Verdict)
    requires Undisturbed(s, verdict) && s.up != [] && s.ingress.phase.Finished?
    ensures Proceeds(s, Step(s, IngressReceive(true)), verdict)
  {
    var e := Step(s, IngressReceive(true));
    StepKeepsInv(s, IngressReceive(true));
    assert e == s.(up := s.up[1..]);
    OthersProceed(s, e, verdict);
  }

  lemma StartProceeds(s: System, verdict: Verdict)
    requires Undisturbed(s, verdict) && s.up != [] && s.up[0] == StartFrame && s.ingress.phase == AwaitStart
    ensures Proceeds(s, Step(s, IngressReceive(true)), verdict)
  {
    var e := Step(s, IngressReceive(true));
    StepKeepsInv(s, IngressReceive(true));
    assert e == System(s.dev, s.up[1..], s.down + [Started], AcceptStart(s.ingress));
    OthersProceed(s, e, verdict);
  }

  lemma EndProceeds(s: System, verdict: Verdict)
    requires Undisturbed(s, verdict) && s.up != [] && s.up[0] == EndFrame && s.ingress.phase == Relaying
    ensures Proceeds(s, Step(s, IngressReceive(true)), verdict)
  {
    var e := Step(s, IngressReceive(true));
    StepKeepsInv(s, IngressReceive(true));
    assert e == System(s.dev, s.up[1..], s.down, BeginFlush(s.ingress));
    OthersProceed(s, e, verdict);
  }

  /** A chunk is stored, or it is what makes the capture too long. */
  lemma ChunkProceeds(s: System, verdict: Verdict)
    requires Undisturbed(s, verdict) && s.up != [] && s.ingress.phase == Relaying && s.up[0].Binary?
    ensures Proceeds(s, Step(s, IngressReceive(true)), verdict)
  {
    var e := Step(s, IngressReceive(true));
    var b := s.up[0].payload;
    StepKeepsInv(s, IngressReceive(true));
    FrameFits(s, verdict);
    assert s.ingress.startAccepted && s.ingress.captureBytes == |Concat(s.ingress.chunks)|;
    if s.ingress.captureBytes + |b| > MAX_CAPTURE_BYTES {
      assert e == System(s.dev, s.up[1..], s.down + [Error(true)], Retired(s.ingress, false));
      assert s.dev.responses + e.down == [Error(true)];
    } else {
      assert e == System(s.dev, s.up[1..], s.down + [ChunkReceived], Store(s.ingress, b));
    }
    OthersProceed(s, e, verdict);
  }

  lemma FlushProceeds(s: System, verdict: Verdict)
    requires Undisturbed(s, verdict) && s.ingress.phase.Flushing?
    ensures Proceeds(s, Step(s, Flush(Some(verdict))), verdict)
  {
    var e := Step(s, Flush(Some(verdict)));
    StepKeepsInv(s, Flush(Some(verdict)));
    var v := ViewOf(s.dev, s.up, s.down, s.ingress);
    assert TrafficOk(v) && AudioOk(v);
    assert s.dev.responses + s.down == [];
    if s.ingress.phase.sent < |s.ingress.chunks| {
      assert e == s.(ingress := FlushOne(s.ingress));
    } else {
      assert e == System(s.dev, s.up, s.down + [Result(verdict)], Retired(s.ingress, false));
      assert s.dev.responses + e.down == [Result(verdict)];
    }
    OthersProceed(s, e, verdict);
  }

  /** Every step that helps brings the capture closer to its end. */
  lemma HelpingProceeds(s: System, verdict: Verdict, a: Action)
    requires Undisturbed(s, verdict) && Helps(s, verdict, a)
    ensures Proceeds(s, Step(s, a), verdict)
  {
    match a
    case DeviceLoop(t) => LoopProceeds(s, verdict, t);
    case Work(ok) => WorkProceeds(s, verdict);
    case Connected => ConnectedProceeds(s, verdict);
    case Deliver => DeliverProceeds(s, verdict);
    case IngressReceive(valid) => ReceiveProceeds(s, verdict);
    case Flush(outcome) => FlushProceeds(s, verdict);
    case _ =>
  }

  // ----- Somebody is always to move -----

  /** A pass of the loop in which everything works and the ring offers what it can. */
  function GoodTick(d: Device): (t: Tick)
    ensures Offers(Drained(d), t)
  {
    var n := |Drained(d).ring|;
    Tick(false, false, false, if n <= MAX_TRANSPORT_CHUNK_BYTES then n else MAX_TRANSPORT_CHUNK_BYTES, false, true)
  }

  /** With nothing under way the device is to send, or the ingress to flush. */
  lemma QuietTurn(s: System, verdict: Verdict)
    requires Undisturbed(s, verdict)
    requires s.dev.commands == [] && s.up == [] && s.down == [] && s.dev.responses == []
    ensures s.dev.state == Connecting || s.dev.state == Streaming || s.ingress.phase.Flushing?
  {
    var v := ViewOf(s.dev, s.up, s.down, s.ingress);
    assert s.dev.responses + s.down == [];
    assert TurnOk(v) && Live(v) && Balanced(v);
  }

  lemma SomebodyHelps(s: System, verdict: Verdict) returns (a: Action)
    requires Undisturbed(s, verdict)
    ensures Helps(s, verdict, a)
  {
    if s.dev.commands != [] { return Work(true); }
    if s.up != [] { return IngressReceive(true); }
    if s.down != [] { return Deliver; }
    if s.dev.responses != [] { return DeviceLoop(GoodTick(s.dev)); }
    QuietTurn(s, verdict);
    if s.ingress.phase.Flushing? { return Flush(Some(verdict)); }
    if s.dev.state == Connecting && !s.dev.connected { return Connected; }
    return DeviceLoop(GoodTick(s.dev));
  }

  // ----- Runs without faults -----

  function After(s: System, actions: seq<Action>): System
    decreases |actions|
  {
    if actions == [] then s else After(Step(s, actions[0]), actions[1..])
  }

  /** Every step of the run helps. */
  predicate Faultless(s: System, verdict: Verdict, actions: seq<Action>)
    decreases |actions|
  {
    actions == [] || (Helps(s, verdict, actions[0]) && Faultless(Step(s, actions[0]), verdict, actions[1..]))
  }

  /** Whatever order the helping steps take, there is a bound to their number; and when none is left, the capture has
      ended with the verdict, or because it was too long. */
  lemma {:induction false} FaultlessRunsEnd(s: System, verdict: Verdict, actions: seq<Action>)
    requires Undisturbed(s, verdict) && Faultless(s, verdict, actions)
    ensures |actions| <= WorkLeft(s)
    ensures var e := After(s, actions);
            if exists a :: Helps(e, verdict, a) then Undisturbed(e, verdict) else Ended(e, s.dev.captured, verdict)
    decreases |actions|
  {
    if actions == [] {
      var a := SomebodyHelps(s, verdict);
    } else {
      var next := Step(s, actions[0]);
      HelpingProceeds(s, verdict, actions[0]);
      if next.dev.state == Closing {
        assert actions[1..] == [];
        assert After(s, actions) == next;
      } else {
        FaultlessRunsEnd(next, verdict, actions[1..]);
      }
    }
  }

  lemma {:induction false} EndIsReached(s: System, verdict: Verdict) returns (actions: seq<Action>)
    requires Undisturbed(s, verdict)
    ensures Faultless(s, verdict, actions) && Ended(After(s, actions), s.dev.captured, verdict)
    decreases WorkLeft(s)
  {
    var a := SomebodyHelps(s, verdict);
    var next := Step(s, a);
    HelpingProceeds(s, verdict, a);
    var rest := [];
    if next.dev.state != Closing { rest := EndIsReached(next, verdict); }
    FaultlessOneMore(s, verdict, a, rest);
    actions := [a] + rest;
  }

  lemma FaultlessOneMore(s: System, verdict: Verdict, a: Action, rest: seq<Action>)
    requires Helps(s, verdict, a) && Faultless(Step(s, a), verdict, rest)
    ensures Faultless(s, verdict, [a] + rest) && After(s, [a] + rest) == After(Step(s, a), rest)
  {
    assert ([a] + rest)[1..] == rest;
  }

  /** From every reachable state in which the end is asked for and nothing has failed, the capture can be brought to its
      end without another fault, and cannot go on for ever without one. Then the router has been given everything the
      microphone offered, and the device takes over the router's verdict, unless the capture was too long. */
  lemma UndisturbedCaptureEnds(enrollment: bool, actions: seq<Action>, verdict: Verdict) returns (more: seq<Action>)
    requires var s := Run(enrollment, actions);
             Running(s.dev.state) && Calm(s.dev) && !s.ingress.phase.Finished?
    ensures var s := Run(enrollment, actions);
            && Faultless(s, verdict, more) && |more| <= WorkLeft(s)
            && Ended(After(s, more), s.dev.offered, verdict)
    ensures var s := Run(enrollment, actions);
            forall other :: Faultless(s, verdict, other) ==> |other| <= WorkLeft(s)
  {
    var s := Run(enrollment, actions);
    RunKeepsInv(enrollment, actions);
    RunKeepsHeard(enrollment, actions);
    more := EndIsReached(s, verdict);
    FaultlessRunsEnd(s, verdict, more);
    forall other | Faultless(s, verdict, other) ensures |other| <= WorkLeft(s) {
      FaultlessRunsEnd(s, verdict, other);
    }
  }
}
