/** What a pass of the device's loop does with what it finds, what the ingress makes of a frame, and what a capture
    reports in the end. */
module CaptureOutcome {
  import opened Wrappers
  import opened CaptureProtocol
  import opened CaptureDetection

  // ----- One pass of the loop -----

  /** The response is the acknowledgement the device waits for. */
  predicate Awaited(state: DeviceState, r: Response) {
    (r == Started && state == WaitStarted) || (r == ChunkReceived && state == WaitChunkAck)
  }

  /** A queued response ends the stream: anything but the one acknowledgement the device waits for. */
  predicate ResponsesEnd(d: Device) {
    d.responses != [] && (!Awaited(d.state, d.responses[0]) || |d.responses| > 1)
  }

  /** The router's verdict, if the pass finds it first in the queue while the device waits for it. */
  predicate Brings(d: Device, v: Verdict) {
    d.state == WaitResult && d.responses != [] && d.responses[0] == Result(v)
  }

  /** The state once the queued responses are dealt with. */
  function StateThen(d: Device): DeviceState {
    if d.responses == [] then d.state else Streaming
  }

  /** A clock has run out, or something has gone wrong. */
  predicate FailsNow(d: Device, t: Tick) {
    || t.timedOut || d.overflow || d.protocolError || d.sendFailed || d.disconnected
    || (t.ackTimedOut && d.responses == [] &&
        (d.state == WaitStarted || d.state == WaitChunkAck || d.state == WaitResult))
  }

  /** What the audio source offers is from the ring, at most 16384 bytes, and nothing only if there is nothing. */
  predicate SourceOffers(d: Device, t: Tick) {
    t.available <= |d.ring| && t.available <= 16384 && (t.available == 0 <==> d.ring == [])
  }

  predicate SendsStart(d: Device, t: Tick) {
    StateThen(d) == Connecting && d.connected && t.queueWorks && |d.commands| < 4
  }

  predicate MaySend(d: Device, t: Tick) {
    StateThen(d) == Streaming && !t.busy && |d.commands| < 4
  }

  /** What goes to the transport, and where the device stands then. */
  predicate SendingMeans(d: Device, t: Tick, e: Device) {
    if SendsStart(d, t) then
      e.commands == d.commands + [Send(StartFrame)] && e.state == WaitStarted && e.ring == d.ring && !e.connected
    else if MaySend(d, t) && t.available > 0 && t.available <= |d.ring| then
      && e.state == WaitChunkAck && e.ring == d.ring[t.available..] && (e.sendFailed <==> !t.queueWorks)
      && e.commands == if t.queueWorks then d.commands + [Send(Binary(d.ring[..t.available]))] else d.commands
    else if MaySend(d, t) && t.available == 0 && d.endRequested && t.queueWorks then
      e.commands == d.commands + [Send(EndFrame)] && e.state == WaitResult && e.ring == d.ring
    else e.commands == d.commands && e.state == StateThen(d) && e.ring == d.ring
  }

  /** The stream ends with this outcome, and nothing is left in its queues. */
  predicate EndsWith(e: Device, accepted: bool, rejected: bool) {
    && e.state == Closing && (e.accepted <==> accepted) && (e.rejected <==> rejected)
    && e.commands == [] && e.ring == [] && e.responses == [] && !e.captureActive
  }

  /** What a pass over a running stream does. */
  predicate PassMeans(d: Device, t: Tick, e: Device) {
    if ResponsesEnd(d) then
      EndsWith(e, Brings(d, AcceptedVerdict), Brings(d, RejectedVerdict))
    else
      && (SourceOffers(d, t) && FailsNow(d, t) ==> EndsWith(e, false, false))
      && (SourceOffers(d, t) && !FailsNow(d, t) ==> SendingMeans(d, t, e))
      && (!SourceOffers(d, t) || !FailsNow(d, t) ==>
            Running(e.state) && e.responses == [] && e.accepted == d.accepted && e.rejected == d.rejected)
  }

  predicate SameReport(d: Device, e: Device) {
    e.enrollment == d.enrollment && e.callbacks == d.callbacks
  }

  lemma FinishEnds(d: Device, accepted: bool, rejected: bool)
    ensures var e := Finish(d, accepted, rejected); EndsWith(e, accepted, rejected) && SameReport(d, e)
  {
  }

  lemma ComplaintEnds(d: Device)
    ensures var e := Finish(Complained(d), false, false); EndsWith(e, false, false) && SameReport(d, e)
  {
    FinishEnds(Complained(d), false, false);
    assert SameReport(d, Complained(d));
  }

  /** Everything but the state, the books of acknowledgements and the responses is as before. */
  predicate AckedMeans(d: Device, e: Device) {
    && e.commands == d.commands && e.ring == d.ring && e.responses == d.responses
    && e.accepted == d.accepted && e.rejected == d.rejected && e.endRequested == d.endRequested
    && e.connected == d.connected && e.sendFailed == d.sendFailed
    && (Troubled(d, NO_TICK) <==> Troubled(e, NO_TICK))
  }

  const NO_TICK := Tick(false, false, false, 0, false, false)

  lemma AckedIsMeant(d: Device)
    ensures d.state == WaitStarted ==> AckedMeans(d, StartAcked(d)) && SameReport(d, StartAcked(d))
    ensures d.state == WaitChunkAck ==> AckedMeans(d, ChunkAcked(d)) && SameReport(d, ChunkAcked(d))
  {
  }

  lemma EmptiedIsMeant(d: Device)
    ensures var c := WithMail(d, []);
            && c.commands == d.commands && c.ring == d.ring && c.accepted == d.accepted && c.rejected == d.rejected
            && c.endRequested == d.endRequested && c.connected == d.connected && c.sendFailed == d.sendFailed
            && c.responses == [] && c.state == d.state && SameReport(d, c)
            && (Troubled(d, NO_TICK) <==> Troubled(c, NO_TICK))
  {
  }

  /** The device after the queued responses. */
  predicate DrainMeans(d: Device, rs: seq<Response>, e: Device) {
    if rs != [] && (!Awaited(d.state, rs[0]) || |rs| > 1) then
      EndsWith(e, d.state == WaitResult && rs[0] == Result(AcceptedVerdict),
               d.state == WaitResult && rs[0] == Result(RejectedVerdict))
    else AckedMeans(d, e) && e.state == if rs == [] then d.state else Streaming
  }

  lemma NotAwaitedEnds(d: Device, r: Response)
    requires !Awaited(d.state, r)
    ensures EndsWith(HandleResponse(d, r), d.state == WaitResult && r == Result(AcceptedVerdict),
                     d.state == WaitResult && r == Result(RejectedVerdict))
    ensures SameReport(d, HandleResponse(d, r))
  {
    if r.Result? && d.state == WaitResult {
      FinishEnds(d, r.verdict == AcceptedVerdict, r.verdict == RejectedVerdict);
      VerdictFinishes(d, r);
    } else if r == Error(true) {
      FinishEnds(d, false, false);
      assert HandleResponse(d, r) == Finish(d, false, false);
    } else {
      ComplaintEnds(d);
      OthersComplain(d, r);
    }
  }

  lemma VerdictFinishes(d: Device, r: Response)
    requires r.Result? && d.state == WaitResult
    ensures HandleResponse(d, r) == Finish(d, r == Result(AcceptedVerdict), r == Result(RejectedVerdict))
  {
  }

  lemma OthersComplain(d: Device, r: Response)
    requires !Awaited(d.state, r) && !(r.Result? && d.state == WaitResult) && r != Error(true)
    ensures HandleResponse(d, r) == Finish(Complained(d), false, false)
  {
  }

  lemma AwaitedGoesOn(d: Device, r: Response)
    requires Awaited(d.state, r)
    ensures var e := HandleResponse(d, r); AckedMeans(d, e) && e.state == Streaming && SameReport(d, e)
  {
    AckedIsMeant(d);
    if r == Started {
      assert HandleResponse(d, r) == StartAcked(d);
    } else {
      assert HandleResponse(d, r) == ChunkAcked(d);
    }
  }

  lemma DrainIsMeant(d: Device, rs: seq<Response>)
    requires d.state != Closing
    ensures DrainMeans(d, rs, Drain(d, rs)) && SameReport(d, Drain(d, rs))
  {
    if rs == [] { return; }
    var e := HandleResponse(d, rs[0]);
    if !Awaited(d.state, rs[0]) {
      NotAwaitedEnds(d, rs[0]);
      assert Drain(d, rs) == e;
      return;
    }
    AwaitedGoesOn(d, rs[0]);
    if |rs| == 1 {
      assert Drain(d, rs) == e;
    } else {
      NotAwaitedEnds(e, rs[1]);
      assert Drain(d, rs) == Drain(e, rs[1..]) == HandleResponse(e, rs[1]);
    }
  }

  predicate Keeps(d: Device, e: Device) {
    e.accepted == d.accepted && e.rejected == d.rejected && e.responses == d.responses && SameReport(d, e)
  }

  /** What is sent, in terms of the device as it is after the responses. */
  predicate NextMeans(d: Device, t: Tick, e: Device)
    requires t.available <= |d.ring|
  {
    if d.state == Connecting && d.connected && t.queueWorks && |d.commands| < 4 then
      e.commands == d.commands + [Send(StartFrame)] && e.state == WaitStarted && e.ring == d.ring && !e.connected
    else if d.state == Streaming && !t.busy && |d.commands| < 4 && t.available > 0 then
      && e.state == WaitChunkAck && e.ring == d.ring[t.available..] && (e.sendFailed <==> d.sendFailed || !t.queueWorks)
      && e.commands == if t.queueWorks then d.commands + [Send(Binary(d.ring[..t.available]))] else d.commands
    else if d.state == Streaming && !t.busy && |d.commands| < 4 && d.endRequested && t.queueWorks then
      e.commands == d.commands + [Send(EndFrame)] && e.state == WaitResult && e.ring == d.ring
    else e.commands == d.commands && e.state == d.state && e.ring == d.ring
  }

  lemma SendStartIsMeant(d: Device)
    ensures var e := SendStart(d);
            && e.commands == d.commands + [Send(StartFrame)] && e.state == WaitStarted
            && e.ring == d.ring && !e.connected && Keeps(d, e)
  {
  }

  lemma SendEndIsMeant(d: Device)
    ensures var e := SendEnd(d);
            && e.commands == d.commands + [Send(EndFrame)] && e.state == WaitResult && e.ring == d.ring && Keeps(d, e)
  {
  }

  lemma SendChunkIsMeant(d: Device, n: nat, queueWorks: bool)
    requires n <= |d.ring|
    ensures var e := SendChunk(d, n, queueWorks);
            && e.state == WaitChunkAck && e.ring == d.ring[n..] && (e.sendFailed <==> d.sendFailed || !queueWorks)
            && e.commands == (if queueWorks then d.commands + [Send(Binary(d.ring[..n]))] else d.commands)
            && Keeps(d, e)
  {
    if queueWorks {
      assert SendChunk(d, n, queueWorks) == Queue(TakeChunk(d, n), Binary(d.ring[..n]));
    } else {
      assert SendChunk(d, n, queueWorks) == SendFailed(TakeChunk(d, n));
    }
  }

  lemma EndRequestIsMeant(d: Device)
    ensures var e := EndRequest(d);
            e.commands == d.commands && e.ring == d.ring && e.sendFailed == d.sendFailed && Keeps(d, e)
  {
  }

  lemma NextIsMeant(d: Device, t: Tick)
    requires Running(d.state) && Offers(d, t) && !Troubled(d, t) && !(Waiting(d.state) && t.ackTimedOut)
    ensures var e := AfterResponses(d, t); NextMeans(d, t, e) && Keeps(d, e) && Running(e.state)
  {
    if d.state == Connecting {
      SendStartIsMeant(d);
      assert AfterResponses(d, t) == d || AfterResponses(d, t) == SendStart(d);
    } else if d.state == Streaming {
      assert AfterResponses(d, t) == StreamNext(d, t);
      StreamingIsMeant(d, t);
    } else {
      assert AfterResponses(d, t) == d;
    }
  }

  lemma StreamingIsMeant(d: Device, t: Tick)
    requires d.state == Streaming && Offers(d, t)
    ensures NextMeans(d, t, StreamNext(d, t)) && Keeps(d, StreamNext(d, t)) && Running(StreamNext(d, t).state)
  {
    if t.busy || |d.commands| >= 4 {
      assert StreamNext(d, t) == d;
    } else if t.available > 0 {
      NextChunkIsMeant(d, t);
      assert StreamNext(d, t) == SendNextChunk(d, t);
    } else if d.endRequested && t.queueWorks {
      SendEndIsMeant(d);
      assert StreamNext(d, t) == SendEnd(d);
    } else {
      assert StreamNext(d, t) == d;
    }
  }

  lemma NextChunkIsMeant(d: Device, t: Tick)
    requires d.state == Streaming && Offers(d, t) && t.available > 0 && !t.busy && |d.commands| < 4
    ensures var e := SendNextChunk(d, t); NextMeans(d, t, e) && Keeps(d, e) && e.state == WaitChunkAck
  {
    if d.enrollment && t.available >= 2 && t.vadEnds {
      var r := EndRequest(d);
      EndRequestIsMeant(d);
      SendChunkIsMeant(r, t.available, t.queueWorks);
      assert SendNextChunk(d, t) == SendChunk(r, t.available, t.queueWorks);
      ChunkAfterRequest(d, r, t);
    } else {
      SendChunkIsMeant(d, t.available, t.queueWorks);
      assert SendNextChunk(d, t) == SendChunk(d, t.available, t.queueWorks);
    }
  }

  lemma ChunkAfterRequest(d: Device, r: Device, t: Tick)
    requires d.state == Streaming && t.available <= |d.ring| && t.available > 0 && !t.busy && |d.commands| < 4
    requires r.commands == d.commands && r.ring == d.ring && r.sendFailed == d.sendFailed && Keeps(d, r)
    requires var e := SendChunk(r, t.available, t.queueWorks);
             && e.state == WaitChunkAck && e.ring == r.ring[t.available..]
             && (e.sendFailed <==> r.sendFailed || !t.queueWorks) && Keeps(r, e)
             && e.commands == if t.queueWorks then r.commands + [Send(Binary(r.ring[..t.available]))] else r.commands
    ensures var e := SendChunk(r, t.available, t.queueWorks); NextMeans(d, t, e) && Keeps(d, e)
  {
  }

  lemma FailingIsMeant(d: Device, t: Tick)
    requires Running(d.state) && Offers(d, t) && (Troubled(d, t) || (Waiting(d.state) && t.ackTimedOut))
    ensures AfterResponses(d, t) == Finish(d, false, false)
  {
  }

  /** What remains of a device after the responses that did not end the stream. */
  predicate Drained(d: Device, e: Device) {
    && e.commands == d.commands && e.ring == d.ring && e.responses == []
    && e.accepted == d.accepted && e.rejected == d.rejected && e.endRequested == d.endRequested
    && e.connected == d.connected && e.sendFailed == d.sendFailed && SameReport(d, e)
    && (Troubled(d, NO_TICK) <==> Troubled(e, NO_TICK)) && e.state == StateThen(d)
  }

  lemma QuietDrain(d: Device)
    requires Running(d.state) && !ResponsesEnd(d)
    ensures Drained(d, Drain(WithMail(d, []), d.responses))
  {
    var c := WithMail(d, []);
    EmptiedIsMeant(d);
    DrainIsMeant(c, d.responses);
    AckedAfterEmptied(d, c, Drain(c, d.responses));
  }

  lemma AckedAfterEmptied(d: Device, c: Device, e: Device)
    requires c.commands == d.commands && c.ring == d.ring && c.accepted == d.accepted && c.rejected == d.rejected
    requires c.endRequested == d.endRequested && c.connected == d.connected && c.sendFailed == d.sendFailed
    requires c.responses == [] && SameReport(d, c) && (Troubled(d, NO_TICK) <==> Troubled(c, NO_TICK))
    requires AckedMeans(c, e) && SameReport(c, e) && e.state == StateThen(d)
    ensures Drained(d, e)
  {
  }

  lemma EndingDrain(d: Device)
    requires Running(d.state) && ResponsesEnd(d)
    ensures var e := Drain(WithMail(d, []), d.responses);
            EndsWith(e, Brings(d, AcceptedVerdict), Brings(d, RejectedVerdict)) && SameReport(d, e)
  {
    EmptiedIsMeant(d);
    DrainIsMeant(WithMail(d, []), d.responses);
  }

  lemma TroubleThen(d: Device, e: Device, t: Tick)
    requires Drained(d, e) && !ResponsesEnd(d)
    ensures Offers(e, t) <==> SourceOffers(d, t)
    ensures FailsNow(d, t) <==> Troubled(e, t) || (Waiting(e.state) && t.ackTimedOut)
  {
    assert Troubled(e, t) <==> t.timedOut || Troubled(e, NO_TICK);
    assert Troubled(d, t) <==> t.timedOut || Troubled(d, NO_TICK);
  }

  lemma SendingThen(d: Device, e: Device, t: Tick, f: Device)
    requires Drained(d, e) && SourceOffers(d, t) && !FailsNow(d, t) && NextMeans(e, t, f) && Keeps(e, f)
    ensures SendingMeans(d, t, f) && f.responses == [] && SameReport(d, f)
    ensures f.accepted == d.accepted && f.rejected == d.rejected
  {
  }

  lemma EndedPass(d: Device, t: Tick, f: Device)
    requires ResponsesEnd(d) && EndsWith(f, Brings(d, AcceptedVerdict), Brings(d, RejectedVerdict))
    ensures PassMeans(d, t, f)
  {
  }

  lemma FailedPass(d: Device, t: Tick, f: Device)
    requires !ResponsesEnd(d) && SourceOffers(d, t) && FailsNow(d, t) && EndsWith(f, false, false)
    ensures PassMeans(d, t, f)
  {
  }

  lemma SendingPass(d: Device, t: Tick, f: Device)
    requires !ResponsesEnd(d) && SourceOffers(d, t) && !FailsNow(d, t) && SendingMeans(d, t, f) && f.responses == []
    requires Running(f.state) && f.accepted == d.accepted && f.rejected == d.rejected
    ensures PassMeans(d, t, f)
  {
  }

  lemma IdlePass(d: Device, t: Tick, f: Device)
    requires !ResponsesEnd(d) && !SourceOffers(d, t)
    requires Running(f.state) && f.responses == [] && f.accepted == d.accepted && f.rejected == d.rejected
    ensures PassMeans(d, t, f)
  {
  }

  lemma LoopDrains(d: Device, t: Tick, e: Device)
    requires Running(d.state) && e == Drain(WithMail(d, []), d.responses)
    ensures Loop(d, t) == if Offers(e, t) && e.state != Closing then AfterResponses(e, t) else e
  {
    if e.state == Closing && Offers(e, t) { assert AfterResponses(e, t) == e; }
  }

  lemma QuietPass(d: Device, t: Tick, e: Device)
    requires Running(d.state) && !ResponsesEnd(d) && Drained(d, e)
    ensures var f := if Offers(e, t) && e.state != Closing then AfterResponses(e, t) else e;
            PassMeans(d, t, f) && SameReport(d, f)
  {
    TroubleThen(d, e, t);
    if !SourceOffers(d, t) {
      IdlePass(d, t, e);
    } else if FailsNow(d, t) {
      FailingIsMeant(e, t);
      FinishEnds(e, false, false);
      FailedPass(d, t, Finish(e, false, false));
    } else {
      NextIsMeant(e, t);
      SendingThen(d, e, t, AfterResponses(e, t));
      SendingPass(d, t, AfterResponses(e, t));
    }
  }

  /** A pass over a running stream: a response that is not the awaited acknowledgement ends it, and so does a clock that
      has run out or a recorded failure; else the next command is queued when its time has come. */
  lemma PassIsMeant(d: Device, t: Tick)
    requires Running(d.state)
    ensures PassMeans(d, t, Loop(d, t)) && SameReport(d, Loop(d, t))
  {
    var e := Drain(WithMail(d, []), d.responses);
    LoopDrains(d, t, e);
    if ResponsesEnd(d) {
      EndingDrain(d);
      EndedPass(d, t, e);
    } else {
      QuietDrain(d);
      QuietPass(d, t, e);
    }
  }

  // ----- The microphone and the ingress -----

  /** A frame of the microphone goes into the ring whole if it fits into its 65536 bytes, and else is known to be
      missing. */
  predicate HearingMeans(d: Device, data: Bytes, e: Device) {
    if d.captureActive && data != [] && |data| <= 65536 then
      && e.offered == d.offered + data
      && if |d.ring| + |data| <= 65536
         then e.ring == d.ring + data && e.captured == d.captured + data && e.overflow == d.overflow
         else e.ring == d.ring && e.captured == d.captured && e.overflow
    else e == d
  }

  lemma TakeIsMeant(d: Device, data: Bytes)
    ensures var e := Take(d, data);
            && e.offered == d.offered + data && e.ring == d.ring + data && e.captured == d.captured + data
            && e.overflow == d.overflow
  {
  }

  lemma MissIsMeant(d: Device, data: Bytes)
    ensures var e := Miss(d, data);
            e.offered == d.offered + data && e.ring == d.ring && e.captured == d.captured && e.overflow
  {
  }

  lemma HearingIsMeant(d: Device, data: Bytes)
    ensures HearingMeans(d, data, Microphone(d, data))
  {
    TakeIsMeant(d, data);
    MissIsMeant(d, data);
    MicrophoneIs(d, data);
  }

  lemma MicrophoneIs(d: Device, data: Bytes)
    ensures Microphone(d, data) ==
            if !d.captureActive || data == [] || |data| > 65536 then d
            else if |d.ring| + |data| > 65536 then Miss(d, data) else Take(d, data)
  {
  }

  /** The ingress answers an error and is done; what it stored and handed on stays as it is. */
  predicate Refuses(s: System, u: System) {
    && u.down == s.down + [Error(s.ingress.startAccepted)] && u.ingress.phase == Finished
    && u.ingress.chunks == s.ingress.chunks && u.ingress.router == s.ingress.router
  }

  /** The frame cannot come from a device that keeps to the protocol. */
  predicate Misfits(phase: Phase, f: Frame) {
    match phase
    case AwaitStart => f != StartFrame
    case Relaying => f == StartFrame || (f.Binary? && (|f.payload| == 0 || |f.payload| > 262144))
    case Flushing(_) => true
    case Finished => false
  }

  /** What the ingress makes of the next frame. */
  predicate ReceivingMeans(s: System, valid: bool, u: System)
    requires s.up != []
  {
    && u.dev == s.dev && u.up == s.up[1..] && u.ingress.router == s.ingress.router
    && (u.ingress.sawInvalid <==> s.ingress.sawInvalid || Misfits(s.ingress.phase, s.up[0]))
    && match s.ingress.phase
       case Finished => u.down == s.down && u.ingress == s.ingress
       case AwaitStart =>
         if s.up[0] == StartFrame && valid then
           && u.down == s.down + [Started] && u.ingress.phase == Relaying && u.ingress.startAccepted
           && u.ingress.chunks == s.ingress.chunks
         else Refuses(s, u)
       case Flushing(_) => Refuses(s, u)
       case Relaying =>
         (match s.up[0]
          case StartFrame => Refuses(s, u)
          case EndFrame => u.down == s.down && u.ingress == s.ingress.(phase := Flushing(0))
          case Binary(b) =>
            if 0 < |b| <= 262144 && |Concat(s.ingress.chunks)| + |b| <= 1048576 then
              && u.down == s.down + [ChunkReceived] && u.ingress.phase == Relaying
              && u.ingress.chunks == s.ingress.chunks + [b] && u.ingress.startAccepted == s.ingress.startAccepted
            else Refuses(s, u))
  }

  /** The flush hands on one chunk at a time, then reports the router's verdict; without an outcome it fails. */
  predicate FlushingMeans(s: System, outcome: Option<Verdict>, u: System) {
    && u.dev == s.dev && u.up == s.up
    && match s.ingress.phase
       case Flushing(sent) =>
         (match outcome
          case None => Refuses(s, u)
          case Some(verdict) =>
            if sent < |s.ingress.chunks| then
              && u.down == s.down && u.ingress.phase == Flushing(sent + 1) && u.ingress.chunks == s.ingress.chunks
              && u.ingress.router == s.ingress.router + [s.ingress.chunks[sent]]
            else
              && u.down == s.down + [Result(verdict)] && u.ingress.phase == Finished
              && u.ingress.chunks == s.ingress.chunks && u.ingress.router == s.ingress.router)
       case _ => u == s
  }

  lemma ReceivingIsMeant(s: System, valid: bool)
    requires s.up != [] && s.ingress.captureBytes == |Concat(s.ingress.chunks)|
    ensures ReceivingMeans(s, valid, Receive(s, valid))
  {
  }

  lemma BytesCounted(enrollment: bool, actions: seq<Action>)
    ensures var i := Run(enrollment, actions).ingress; i.captureBytes == |Concat(i.chunks)|
  {
    RunKeepsInv(enrollment, actions);
  }

  lemma ReceivesNext(s: System, valid: bool)
    requires s.up != []
    ensures Step(s, IngressReceive(valid)) == Receive(s, valid)
  {
  }

  lemma FlushIsMeant(s: System, outcome: Option<Verdict>)
    ensures FlushingMeans(s, outcome, FlushStep(s, outcome))
  {
  }

  /** In every run the microphone's next frame is heard as stated. */
  lemma RunHears(enrollment: bool, actions: seq<Action>, data: Bytes)
    ensures HearingMeans(Run(enrollment, actions).dev, data, Run(enrollment, actions + [Hear(data)]).dev)
  {
    OneMoreStep(enrollment, actions, Hear(data));
    HearingIsMeant(Run(enrollment, actions).dev, data);
  }

  /** In every run the next frame at the ingress is received as stated. */
  lemma RunReceives(enrollment: bool, actions: seq<Action>, valid: bool)
    requires Run(enrollment, actions).up != []
    ensures ReceivingMeans(Run(enrollment, actions), valid, Run(enrollment, actions + [IngressReceive(valid)]))
  {
    BytesCounted(enrollment, actions);
    ReceivingIsMeant(Run(enrollment, actions), valid);
    ReceivesNext(Run(enrollment, actions), valid);
    OneMoreStep(enrollment, actions, IngressReceive(valid));
  }

  /** In every run the next frame fits the state of the ingress: no refusal is for a frame out of place. */
  lemma NextFrameFits(enrollment: bool, actions: seq<Action>)
    requires Run(enrollment, actions).up != []
    ensures var s := Run(enrollment, actions); !Misfits(s.ingress.phase, s.up[0])
  {
    RunReceives(enrollment, actions, true);
    FramesFitTheirReceiver(enrollment, actions + [IngressReceive(true)]);
  }

  /** In every run the next step of the flush does as stated. */
  lemma RunFlushes(enrollment: bool, actions: seq<Action>, outcome: Option<Verdict>)
    ensures FlushingMeans(Run(enrollment, actions), outcome, Run(enrollment, actions + [Flush(outcome)]))
  {
    OneMoreStep(enrollment, actions, Flush(outcome));
    FlushIsMeant(Run(enrollment, actions), outcome);
  }

  // ----- The transport, the channels, and what can go wrong -----

  /** Nothing but this is different about the device. */
  predicate Flagged(d: Device, e: Device, connected: bool, disconnected: bool, garbled: bool) {
    && (e.connected <==> connected) && (e.disconnected <==> disconnected) && (e.protocolError <==> garbled)
    && e.commands == d.commands && e.ring == d.ring && e.responses == d.responses && LeavesEnd(d, e)
  }

  /** Commands go out in order, responses come in order, and each thing that goes wrong is on record at its side. */
  predicate SurroundingsMean(s: System, a: Action, u: System) {
    var d, e := s.dev, u.dev;
    match a
    case Work(ok) =>
      u.down == s.down && u.ingress == s.ingress &&
      if d.commands == [] then e == d && u.up == s.up
      else
        && e.commands == d.commands[1..] && (e.sendFailed <==> d.sendFailed || !ok)
        && u.up == s.up + if ok && d.commands[0].Send? then [d.commands[0].frame] else []
    case Connected =>
      && u.up == s.up && u.down == s.down && u.ingress == s.ingress
      && Flagged(d, e, d.connected || Connect !in d.commands, d.disconnected, d.protocolError)
    case Deliver =>
      u.up == s.up && u.ingress == s.ingress &&
      if s.down == [] then u.down == [] && e.responses == d.responses
      else
        && u.down == s.down[1..]
        && if |d.responses| < 4 then e.responses == d.responses + [s.down[0]]
           else e.responses == d.responses && e.protocolError
    case DeviceTrouble =>
      && u.up == s.up && u.down == s.down && u.ingress == s.ingress
      && Flagged(d, e, d.connected, d.disconnected, true)
    case PeerClosed =>
      && u.up == s.up && u.down == s.down && u.ingress == s.ingress
      && Flagged(d, e, d.connected, d.disconnected || s.ingress.phase == Finished, d.protocolError)
    case LoseConnection(kept) =>
      && u.up == [] && u.down <= s.down && |u.down| == (if kept <= |s.down| then kept else |s.down|)
      && u.ingress == s.ingress.(phase := Finished) && Flagged(d, e, d.connected, true, d.protocolError)
    case IngressTimeout =>
      e == d && u.up == s.up && if s.ingress.phase == Finished then u == s else Refuses(s, u)
    case TransportClosed =>
      && u.up == s.up && u.down == s.down && u.ingress == s.ingress
      && if d.state == Closing then e.state == Idle && e.responses == d.responses else e == d
    case _ => true
  }

  lemma UnpluggedFlags(d: Device)
    ensures Flagged(d, Unplugged(d), d.connected, true, d.protocolError)
  {
  }

  lemma GarbledFlags(d: Device)
    ensures Flagged(d, Garbled(d), d.connected, d.disconnected, true)
  {
  }

  lemma ConnectedFlags(d: Device)
    ensures Flagged(d, NowConnected(d), true, d.disconnected, d.protocolError)
  {
  }

  lemma WorkIsMeant(s: System, ok: bool)
    ensures SurroundingsMean(s, Work(ok), Step(s, Work(ok)))
  {
    if s.dev.commands != [] { WorkedIsMeant(s.dev); }
  }

  lemma WorkedIsMeant(d: Device)
    requires d.commands != []
    ensures Worked(d).commands == SendFailed(Worked(d)).commands == d.commands[1..]
    ensures Worked(d).sendFailed == d.sendFailed && SendFailed(Worked(d)).sendFailed
  {
  }

  lemma DeliveryIsMeant(s: System)
    ensures SurroundingsMean(s, Deliver, Step(s, Deliver))
  {
    if s.down != [] && |s.dev.responses| >= 4 { GarbledFlags(s.dev); }
  }

  lemma LossIsMeant(s: System, kept: nat)
    ensures SurroundingsMean(s, LoseConnection(kept), Step(s, LoseConnection(kept)))
  {
    UnpluggedFlags(s.dev);
    assert Step(s, LoseConnection(kept)).dev == Unplugged(s.dev);
  }

  lemma ConnectionIsMeant(s: System)
    ensures SurroundingsMean(s, Connected, Step(s, Connected))
  {
    ConnectedFlags(s.dev);
    assert Step(s, Connected).dev == if Connect in s.dev.commands then s.dev else NowConnected(s.dev);
  }

  lemma TroubleIsMeant(s: System)
    ensures SurroundingsMean(s, DeviceTrouble, Step(s, DeviceTrouble))
  {
    GarbledFlags(s.dev);
    assert Step(s, DeviceTrouble).dev == Garbled(s.dev);
  }

  lemma PeerCloseIsMeant(s: System)
    ensures SurroundingsMean(s, PeerClosed, Step(s, PeerClosed))
  {
    UnpluggedFlags(s.dev);
    assert Step(s, PeerClosed).dev == if s.ingress.phase.Finished? then Unplugged(s.dev) else s.dev;
  }

  /** What a step of the surroundings does, in every system. */
  lemma SurroundingsAreMeant(s: System, a: Action)
    ensures SurroundingsMean(s, a, Step(s, a))
  {
    match a
    case Work(ok) => WorkIsMeant(s, ok);
    case Deliver => DeliveryIsMeant(s);
    case LoseConnection(kept) => LossIsMeant(s, kept);
    case Connected => ConnectionIsMeant(s);
    case DeviceTrouble => TroubleIsMeant(s);
    case PeerClosed => PeerCloseIsMeant(s);
    case _ =>
  }

  // ----- What a capture reports -----

  /** In step i the device finds this verdict of the router. */
  predicate BroughtAt(enrollment: bool, actions: seq<Action>, v: Verdict, i: nat) {
    i < |actions| && actions[i].DeviceLoop? && Brings(Run(enrollment, actions[..i]).dev, v)
  }

  ghost predicate Brought(enrollment: bool, actions: seq<Action>, v: Verdict) {
    exists i :: BroughtAt(enrollment, actions, v, i)
  }

  lemma BroughtOneMore(enrollment: bool, actions: seq<Action>, v: Verdict)
    requires actions != []
    ensures Brought(enrollment, actions, v) <==>
            Brought(enrollment, actions[..|actions|-1], v) || BroughtAt(enrollment, actions, v, |actions| - 1)
  {
    var front := actions[..|actions|-1];
    if i: nat :| BroughtAt(enrollment, front, v, i) {
      assert front[..i] == actions[..i];
      assert BroughtAt(enrollment, actions, v, i);
    }
    if i: nat :| BroughtAt(enrollment, actions, v, i) {
      if i < |front| {
        assert front[..i] == actions[..i];
        assert BroughtAt(enrollment, front, v, i);
      }
    }
  }

  /** What the device has to report, given the verdicts it has found. */
  predicate ReportFits(enrollment: bool, d: Device, accepted: bool, rejected: bool) {
    match d.state
    case Idle =>
      && !d.enrollment && !d.accepted && !d.rejected
      && d.callbacks == if enrollment
                        then [if accepted then OnAccepted else if rejected then OnRejected else OnFailed] else []
    case Closing => d.callbacks == [] && (d.accepted <==> accepted) && (d.rejected <==> rejected) &&
                    d.enrollment == enrollment
    case _ => d.callbacks == [] && !accepted && !rejected && !d.accepted && !d.rejected && d.enrollment == enrollment
  }

  lemma EndingReports(enrollment: bool, d: Device, e: Device, accepted: bool, rejected: bool)
    requires Running(d.state) && ReportFits(enrollment, d, false, false)
    requires EndsWith(e, accepted, rejected) && SameReport(d, e)
    ensures ReportFits(enrollment, e, accepted, rejected)
  {
  }

  lemma GoingOnReports(enrollment: bool, d: Device, e: Device)
    requires Running(d.state) && ReportFits(enrollment, d, false, false)
    requires Running(e.state) && e.accepted == d.accepted && e.rejected == d.rejected && SameReport(d, e)
    ensures ReportFits(enrollment, e, false, false)
  {
  }

  lemma PassReports(enrollment: bool, d: Device, t: Tick, e: Device)
    requires Running(d.state) && ReportFits(enrollment, d, false, false) && PassMeans(d, t, e) && SameReport(d, e)
    ensures ReportFits(enrollment, e, Brings(d, AcceptedVerdict), Brings(d, RejectedVerdict))
  {
    if ResponsesEnd(d) {
      EndingReports(enrollment, d, e, Brings(d, AcceptedVerdict), Brings(d, RejectedVerdict));
    } else {
      NothingBrought(d);
      if SourceOffers(d, t) && FailsNow(d, t) {
        EndingReports(enrollment, d, e, false, false);
      } else {
        GoingOnReports(enrollment, d, e);
      }
    }
  }

  lemma NothingBrought(d: Device)
    requires !ResponsesEnd(d)
    ensures !Brings(d, AcceptedVerdict) && !Brings(d, RejectedVerdict)
  {
  }

  lemma StoppedLoop(d: Device, t: Tick)
    requires !Running(d.state)
    ensures Loop(d, t) == d && !Brings(d, AcceptedVerdict) && !Brings(d, RejectedVerdict)
  {
  }

  lemma CompletionReports(enrollment: bool, d: Device, accepted: bool, rejected: bool)
    requires ReportFits(enrollment, d, accepted, rejected)
    ensures ReportFits(enrollment, CompleteFinish(d), accepted, rejected)
  {
  }

  lemma RequestReports(enrollment: bool, d: Device, accepted: bool, rejected: bool)
    requires ReportFits(enrollment, d, accepted, rejected)
    ensures ReportFits(enrollment, EndRequest(d), accepted, rejected)
  {
  }

  lemma StepReports(enrollment: bool, s: System, a: Action, accepted: bool, rejected: bool)
    requires ReportFits(enrollment, s.dev, accepted, rejected)
    ensures ReportFits(enrollment, Step(s, a).dev, accepted || (a.DeviceLoop? && Brings(s.dev, AcceptedVerdict)),
                       rejected || (a.DeviceLoop? && Brings(s.dev, RejectedVerdict)))
  {
    match a
    case DeviceLoop(t) =>
      if Running(s.dev.state) {
        PassIsMeant(s.dev, t);
        PassReports(enrollment, s.dev, t, Loop(s.dev, t));
      } else {
        StoppedLoop(s.dev, t);
      }
    case RequestEnd => RequestReports(enrollment, s.dev, accepted, rejected);
    case TransportClosed => CompletionReports(enrollment, s.dev, accepted, rejected);
    case _ => DeviceStepLeavesEnd(s, a);
  }

  /** Over every run: an enrollment that is over reports once, that it was accepted or rejected exactly if the device
      found that verdict while it waited for one, and else that it failed; a stream that is none reports nothing. */
  lemma {:induction false} OutcomeFollowsHistory(enrollment: bool, actions: seq<Action>)
    ensures ReportFits(enrollment, Run(enrollment, actions).dev, Brought(enrollment, actions, AcceptedVerdict),
                       Brought(enrollment, actions, RejectedVerdict))
  {
    if actions != [] {
      var n := |actions| - 1;
      OutcomeFollowsHistory(enrollment, actions[..n]);
      BroughtOneMore(enrollment, actions, AcceptedVerdict);
      BroughtOneMore(enrollment, actions, RejectedVerdict);
      StepReports(enrollment, Run(enrollment, actions[..n]), actions[n],
                  Brought(enrollment, actions[..n], AcceptedVerdict),
                  Brought(enrollment, actions[..n], RejectedVerdict));
    }
  }

  /** In step i the router, given all chunks and the end, answers with this verdict. */
  predicate AnsweredAt(enrollment: bool, actions: seq<Action>, v: Verdict, i: nat) {
    && i < |actions| && actions[i] == Flush(Some(v))
    && var ingress := Run(enrollment, actions[..i]).ingress;
       ingress.phase == Flushing(|ingress.chunks|) && ingress.router == ingress.chunks
  }

  ghost predicate Answered(enrollment: bool, actions: seq<Action>, v: Verdict) {
    exists i :: AnsweredAt(enrollment, actions, v, i)
  }

  lemma AnsweredStays(enrollment: bool, actions: seq<Action>, v: Verdict)
    requires actions != [] && Answered(enrollment, actions[..|actions|-1], v)
    ensures Answered(enrollment, actions, v)
  {
    var front := actions[..|actions|-1];
    var i: nat :| AnsweredAt(enrollment, front, v, i);
    assert front[..i] == actions[..i];
    assert AnsweredAt(enrollment, actions, v, i);
  }

  predicate OnItsWay(s: System, r: Response) {
    r in s.down || r in s.dev.responses
  }

  predicate SameMail(s: System, u: System) {
    u.down == s.down && u.dev.responses == s.dev.responses
  }

  lemma LoopBringsNoMail(d: Device, t: Tick)
    ensures Loop(d, t).responses == [] || Loop(d, t).responses == d.responses
  {
    if Running(d.state) {
      PassIsMeant(d, t);
    } else {
      StoppedLoop(d, t);
    }
  }

  lemma DeliveryMovesMail(s: System, r: Response)
    requires OnItsWay(DeliverNext(s), r)
    ensures OnItsWay(s, r)
  {
    if s.down != [] && |s.dev.responses| < 4 {
      assert DeliverNext(s).dev.responses == s.dev.responses + [s.down[0]];
    }
  }

  lemma WorkedKeepsMail(d: Device)
    requires d.commands != []
    ensures Worked(d).responses == d.responses && SendFailed(Worked(d)).responses == d.responses
  {
  }

  lemma WorkKeepsMail(s: System, ok: bool)
    ensures SameMail(s, Work'(s, ok))
  {
    if s.dev.commands != [] {
      WorkedKeepsMail(s.dev);
      assert Work'(s, ok).dev == if ok then Worked(s.dev) else SendFailed(Worked(s.dev));
    }
  }

  lemma TimeoutSendsNoVerdict(s: System, v: Verdict)
    requires OnItsWay(Step(s, IngressTimeout), Result(v))
    ensures OnItsWay(s, Result(v))
  {
  }

  lemma ReceivingSendsNoVerdict(s: System, valid: bool, v: Verdict)
    requires s.up != [] && Inv(s) && OnItsWay(Receive(s, valid), Result(v))
    ensures OnItsWay(s, Result(v))
  {
    ReceivingIsMeant(s, valid);
  }

  lemma FlagsKeepMail(s: System, a: Action)
    requires a.Hear? || a.RequestEnd? || a.Connected? || a.DeviceTrouble? || a.PeerClosed? || a.TransportClosed?
    ensures SameMail(s, Step(s, a))
  {
    match a
    case Hear(data) => MicrophoneIs(s.dev, data);
    case _ =>
  }

  lemma LossBringsNoMail(s: System, kept: nat, r: Response)
    requires OnItsWay(Step(s, LoseConnection(kept)), r)
    ensures OnItsWay(s, r)
  {
  }

  /** Only the flush sends a verdict. */
  lemma NobodyElseSends(s: System, a: Action, v: Verdict)
    requires Inv(s) && OnItsWay(Step(s, a), Result(v)) && !a.Flush?
    ensures OnItsWay(s, Result(v))
  {
    match a
    case DeviceLoop(t) => LoopBringsNoMail(s.dev, t);
    case Work(ok) => WorkKeepsMail(s, ok);
    case Deliver => DeliveryMovesMail(s, Result(v));
    case IngressReceive(valid) => if s.up != [] { ReceivingSendsNoVerdict(s, valid, v); }
    case IngressTimeout => TimeoutSendsNoVerdict(s, v);
    case LoseConnection(kept) => LossBringsNoMail(s, kept, Result(v));
    case _ => FlagsKeepMail(s, a);
  }

  lemma ResultsAreAnswers(s: System, a: Action, v: Verdict)
    requires Inv(s) && OnItsWay(Step(s, a), Result(v)) && !OnItsWay(s, Result(v))
    ensures a == Flush(Some(v)) && s.ingress.phase.Flushing? && s.ingress.phase.sent >= |s.ingress.chunks|
  {
    if a.Flush? {
      FlushIsMeant(s, a.outcome);
    } else {
      NobodyElseSends(s, a, v);
    }
  }

  /** A verdict on its way to the device, or found by it, is what the router answered when it had been given everything
      that the ingress stored. */
  lemma {:induction false} VerdictIsTheRouters(enrollment: bool, actions: seq<Action>, v: Verdict)
    ensures OnItsWay(Run(enrollment, actions), Result(v)) || Brought(enrollment, actions, v) ==>
              Answered(enrollment, actions, v)
  {
    if actions != [] {
      var n := |actions| - 1;
      var s := Run(enrollment, actions[..n]);
      VerdictIsTheRouters(enrollment, actions[..n], v);
      BroughtOneMore(enrollment, actions, v);
      if OnItsWay(s, Result(v)) || Brought(enrollment, actions[..n], v) {
        AnsweredStays(enrollment, actions, v);
      } else if OnItsWay(Run(enrollment, actions), Result(v)) {
        RunKeepsInv(enrollment, actions[..n]);
        ResultsAreAnswers(s, actions[n], v);
        assert s.ingress.router == s.ingress.chunks[..|s.ingress.chunks|];
        assert AnsweredAt(enrollment, actions, v, n);
      }
    }
  }
}
