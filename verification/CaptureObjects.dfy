/** The two objects of a capture: the device's client, with its ring and queues, and the ingress' session. What their
    methods do is what the steps of CaptureProtocol say. */
module CaptureObjects {
  import opened Wrappers
  import opened CaptureProtocol
  import opened AudioRing

  /** The client's scalar member variables. */
  datatype Control = Control(
    state: DeviceState, enrollment: bool, captureActive: bool, endRequested: bool, awaitingAck: bool,
    connected: bool, disconnected: bool, overflow: bool, protocolError: bool, sendFailed: bool,
    accepted: bool, rejected: bool)

  /** What cannot be read off the variables: audio heard and taken, callbacks called, and the counts of the stream. */
  datatype Trace = Trace(offered: Bytes, captured: Bytes, callbacks: seq<Callback>, sawInvalid: bool, chunksSent: nat,
                         chunksAcked: nat)

  /** The device that consists of these parts. */
  function DeviceOf(c: Control, t: Trace, ring: Bytes, commands: seq<Command>, responses: seq<Response>): Device {
    Device(c.state, c.enrollment, c.captureActive, c.endRequested, c.awaitingAck, t.offered, t.captured, ring, commands,
           responses, c.connected, c.disconnected, c.overflow, c.protocolError, c.sendFailed, c.accepted, c.rejected,
           t.callbacks, t.sawInvalid, t.chunksSent, t.chunksAcked)
  }

  // ----- What changes of the parts mean for the device -----

  lemma PartsTake(c: Control, t: Trace, b: Bytes, q: seq<Command>, m: seq<Response>, frame: Bytes)
    ensures DeviceOf(c, t.(offered := t.offered + frame, captured := t.captured + frame), b + frame, q, m) ==
            Take(DeviceOf(c, t, b, q, m), frame)
  {
  }

  lemma PartsMiss(c: Control, t: Trace, b: Bytes, q: seq<Command>, m: seq<Response>, frame: Bytes)
    ensures DeviceOf(c.(overflow := true), t.(offered := t.offered + frame), b, q, m) ==
            Miss(DeviceOf(c, t, b, q, m), frame)
  {
  }

  lemma PartsComplete(c: Control, t: Trace, b: Bytes, q: seq<Command>, m: seq<Response>)
    requires c.state == Closing
    ensures var outcome := if c.accepted then OnAccepted else if c.rejected then OnRejected else OnFailed;
            var idle := c.(state := Idle, enrollment := false, accepted := false, rejected := false);
            var called := t.(callbacks := if c.enrollment then t.callbacks + [outcome] else t.callbacks);
            DeviceOf(idle, called, b, q, m) == CompleteFinish(DeviceOf(c, t, b, q, m))
  {
  }

  lemma PartsStarted(c: Control, t: Trace, b: Bytes, q: seq<Command>, m: seq<Response>)
    requires c.state == WaitStarted
    ensures DeviceOf(c.(state := Streaming), t, b, q, m) == HandleResponse(DeviceOf(c, t, b, q, m), Started)
  {
    var d := DeviceOf(c, t, b, q, m);
    assert HandleResponse(d, Started) == StartAcked(d);
  }

  lemma PartsAcked(c: Control, t: Trace, b: Bytes, q: seq<Command>, m: seq<Response>)
    requires c.state == WaitChunkAck
    ensures DeviceOf(c.(awaitingAck := false, state := Streaming), t.(chunksAcked := t.chunksAcked + 1), b, q, m) ==
            HandleResponse(DeviceOf(c, t, b, q, m), ChunkReceived)
  {
    var d := DeviceOf(c, t, b, q, m);
    assert HandleResponse(d, ChunkReceived) == ChunkAcked(d);
  }

  lemma PartsComplain(c: Control, t: Trace, b: Bytes, q: seq<Command>, m: seq<Response>)
    ensures DeviceOf(c, t.(sawInvalid := true), b, q, m) == Complained(DeviceOf(c, t, b, q, m))
  {
  }

  lemma EndsByResult(d: Device, r: Response)
    requires r.Result? && d.state == WaitResult
    ensures HandleResponse(d, r) == Finish(d, r.verdict == AcceptedVerdict, r.verdict == RejectedVerdict)
  {
  }

  lemma EndsByError(d: Device)
    ensures HandleResponse(d, Error(true)) == Finish(d, false, false)
  {
  }

  predicate Misfits(state: DeviceState, r: Response) {
    && !(r == Started && state == WaitStarted) && !(r == ChunkReceived && state == WaitChunkAck)
    && !(r.Result? && state == WaitResult) && r != Error(true)
  }

  lemma EndsByMisfit(d: Device, r: Response)
    requires Misfits(d.state, r)
    ensures HandleResponse(d, r) == Finish(Complained(d), false, false)
  {
  }

  lemma PartsSend(c: Control, t: Trace, b: Bytes, q: seq<Command>, m: seq<Response>, n: nat)
    requires n <= |b|
    ensures DeviceOf(c.(awaitingAck := true, state := WaitChunkAck), t.(chunksSent := t.chunksSent + 1), b[n..],
                     q + [Send(Binary(b[..n]))], m) == SendChunk(DeviceOf(c, t, b, q, m), n, true)
  {
    var d := DeviceOf(c, t, b, q, m);
    assert SendChunk(d, n, true) == Queue(TakeChunk(d, n), Binary(d.ring[..n]));
  }

  lemma PartsFailToSend(c: Control, t: Trace, b: Bytes, q: seq<Command>, m: seq<Response>, n: nat)
    requires n <= |b|
    ensures DeviceOf(c.(sendFailed := true, awaitingAck := true, state := WaitChunkAck),
                     t.(chunksSent := t.chunksSent + 1), b[n..], q, m) == SendChunk(DeviceOf(c, t, b, q, m), n, false)
  {
    var d := DeviceOf(c, t, b, q, m);
    assert SendChunk(d, n, false) == SendFailed(TakeChunk(d, n));
  }

  lemma PartsSendEnd(c: Control, t: Trace, b: Bytes, q: seq<Command>, m: seq<Response>)
    ensures DeviceOf(c.(state := WaitResult), t, b, q + [Send(EndFrame)], m) == SendEnd(DeviceOf(c, t, b, q, m))
  {
  }

  lemma PartsBegin(c: Control, enrollment: bool, t: Trace)
    requires c == Control(Connecting, enrollment, true, false, false, false, false, false, false, false, false, false)
    requires t == Trace([], [], t.callbacks, false, 0, 0)
    ensures DeviceOf(c, t, [], [Connect], []) == NewDevice(enrollment).(callbacks := t.callbacks)
  {
  }

  /** One more failure is reported; nothing else happens. */
  predicate FailedAgain(d: Device, e: Device) {
    e == d.(callbacks := d.callbacks + [OnFailed])
  }

  lemma PartsFailAgain(c: Control, t: Trace, b: Bytes, q: seq<Command>, m: seq<Response>)
    ensures FailedAgain(DeviceOf(c, t, b, q, m), DeviceOf(c, t.(callbacks := t.callbacks + [OnFailed]), b, q, m))
  {
  }

  lemma LoopGoesOn(d: Device, t: Tick)
    requires d.state != Idle && d.state != Closing
    ensures var e := Drain(WithMail(d, []), d.responses);
            Loop(d, t) == if e.state == Closing || !Offers(e, t) then e else AfterResponses(e, t)
  {
  }

  lemma HandlingKeepsMail(d: Device, r: Response, rest: seq<Response>)
    requires d.state != Closing
    ensures var e := HandleResponse(WithMail(d, rest), r);
            Drain(WithMail(e, []), e.responses) == Drain(WithMail(d, []), [r] + rest)
  {
    var e, f := HandleResponse(WithMail(d, rest), r), HandleResponse(WithMail(d, []), r);
    assert ([r] + rest)[0] == r && ([r] + rest)[1..] == rest;
    HandlingCommutes(d, r, rest);
    assert Drain(WithMail(d, []), [r] + rest) == Drain(f, rest);
  }

  lemma FinishForgetsMail(d: Device, rest: seq<Response>, accepted: bool, rejected: bool)
    ensures Finish(WithMail(d, rest), accepted, rejected) == Finish(d, accepted, rejected)
    ensures WithMail(Finish(d, accepted, rejected), []) == Finish(d, accepted, rejected)
  {
  }

  lemma StartAckLeavesMail(d: Device, rest: seq<Response>)
    ensures StartAcked(WithMail(d, rest)) == WithMail(StartAcked(d), rest)
  {
  }

  lemma ChunkAckLeavesMail(d: Device, rest: seq<Response>)
    ensures ChunkAcked(WithMail(d, rest)) == WithMail(ChunkAcked(d), rest)
  {
  }

  lemma MailReplaced(d: Device, rest: seq<Response>)
    ensures WithMail(d, rest).responses == rest && WithMail(WithMail(d, rest), []) == WithMail(d, [])
  {
  }

  lemma ComplaintLeavesMail(d: Device, rest: seq<Response>)
    ensures Complained(WithMail(d, rest)) == WithMail(Complained(d), rest)
  {
  }

  /** Whether the response keeps the stream going. */
  predicate GoesOn(state: DeviceState, r: Response) {
    (r == Started && state == WaitStarted) || (r == ChunkReceived && state == WaitChunkAck)
  }

  lemma GoingOnCommutes(d: Device, r: Response, rest: seq<Response>)
    requires GoesOn(d.state, r)
    ensures var e, f := HandleResponse(WithMail(d, rest), r), HandleResponse(WithMail(d, []), r);
            f.state == Streaming && e.responses == rest && WithMail(e, []) == f
  {
    if r == Started {
      StartAckLeavesMail(d, rest);
      StartAckLeavesMail(d, []);
      MailReplaced(StartAcked(d), rest);
    } else {
      ChunkAckLeavesMail(d, rest);
      ChunkAckLeavesMail(d, []);
      MailReplaced(ChunkAcked(d), rest);
    }
  }

  lemma ResultForgetsMail(d: Device, r: Response, rest: seq<Response>)
    requires r.Result? && d.state == WaitResult
    ensures HandleResponse(WithMail(d, rest), r) ==
            Finish(d, r.verdict == AcceptedVerdict, r.verdict == RejectedVerdict)
  {
    EndsByResult(WithMail(d, rest), r);
    FinishForgetsMail(d, rest, r.verdict == AcceptedVerdict, r.verdict == RejectedVerdict);
  }

  lemma ErrorForgetsMail(d: Device, rest: seq<Response>)
    ensures HandleResponse(WithMail(d, rest), Error(true)) == Finish(d, false, false)
  {
    EndsByError(WithMail(d, rest));
    FinishForgetsMail(d, rest, false, false);
  }

  lemma MisfitForgetsMail(d: Device, r: Response, rest: seq<Response>)
    requires Misfits(d.state, r)
    ensures HandleResponse(WithMail(d, rest), r) == Finish(Complained(d), false, false)
  {
    EndsByMisfit(WithMail(d, rest), r);
    ComplaintLeavesMail(d, rest);
    FinishForgetsMail(Complained(d), rest, false, false);
  }

  lemma EndingForgetsMail(d: Device, r: Response, rest: seq<Response>)
    requires !GoesOn(d.state, r)
    ensures var e := HandleResponse(WithMail(d, rest), r);
            e == HandleResponse(WithMail(d, []), r) && e.state == Closing && e.responses == []
  {
    if r.Result? && d.state == WaitResult {
      ResultForgetsMail(d, r, rest);
      ResultForgetsMail(d, r, []);
    } else if r == Error(true) {
      ErrorForgetsMail(d, rest);
      ErrorForgetsMail(d, []);
    } else {
      MisfitForgetsMail(d, r, rest);
      MisfitForgetsMail(d, r, []);
    }
  }

  /** A response is handled without a look at the others, which stay unless it ends the stream. */
  lemma HandlingCommutes(d: Device, r: Response, rest: seq<Response>)
    ensures var e, f := HandleResponse(WithMail(d, rest), r), HandleResponse(WithMail(d, []), r);
            if f.state == Closing then e == f && e.responses == [] else e.responses == rest && WithMail(e, []) == f
  {
    if GoesOn(d.state, r) { GoingOnCommutes(d, r, rest); } else { EndingForgetsMail(d, r, rest); }
  }

  class NyraAudioIngress {
    const ring: RingOfBytes
    var control: Control
    var transportCommands: seq<Command>
    var responseQueue: seq<Response>
    ghost var trace: Trace

    ghost predicate Valid()
      reads this, ring
    {
      ring.Valid()
    }

    ghost function State(): Device
      requires Valid()
      reads this, ring, ring.data
    {
      DeviceOf(control, trace, ring.Contents(), transportCommands, responseQueue)
    }

    constructor ()
      ensures Valid() && fresh(ring) && fresh(ring.data) && control.state == Idle
    {
      ring := new RingOfBytes();
      control := Control(Idle, false, false, false, false, false, false, false, false, false, false, false);
      transportCommands, responseQueue := [], [];
      trace := Trace([], [], [], false, 0, 0);
    }

    /** Begins a stream if none is under way and the network is up; otherwise only a callback is called. */
    method StartStream(enrollment: bool, networkUp: bool, queueWorks: bool)
      requires Valid()
      modifies this, ring
      ensures Valid()
      ensures old(control.state) == Idle && networkUp ==>
                var begun := NewDevice(enrollment).(callbacks := old(trace.callbacks));
                State() == if queueWorks then begun else Finish(begun, false, false)
      ensures old(control.state) == Idle && !networkUp ==> FailedAgain(old(State()), State())
      ensures old(control.state) != Idle ==>
                if enrollment then FailedAgain(old(State()), State()) else State() == old(State())
    {
      if control.state != Idle {
        if enrollment { CallFailed(); }
        return;
      }
      if !networkUp {
        CallFailed();
        return;
      }
      Begin(enrollment, queueWorks);
    }

    method Begin(enrollment: bool, queueWorks: bool)
      requires Valid()
      modifies this, ring
      ensures Valid()
      ensures var begun := NewDevice(enrollment).(callbacks := old(trace.callbacks));
              State() == if queueWorks then begun else Finish(begun, false, false)
    {
      ring.Clear();
      responseQueue, transportCommands := [], [];
      control := Control(Connecting, enrollment, false, false, false, false, false, false, false, false, false, false);
      trace := Trace([], [], trace.callbacks, false, 0, 0);
      PartsBegin(control.(captureActive := true), enrollment, trace);
      if !queueWorks {
        FinishStream(false, false);
        return;
      }
      transportCommands := transportCommands + [Connect];
      control := control.(captureActive := true);
      assert transportCommands == [Connect];
    }

    method CallFailed()
      requires Valid()
      modifies this`trace
      ensures FailedAgain(old(State()), State())
    {
      PartsFailAgain(control, trace, ring.Contents(), transportCommands, responseQueue);
      trace := trace.(callbacks := trace.callbacks + [OnFailed]);
    }

    method EndStream()
      requires Valid()
      modifies this`control
      ensures State() == EndRequest(old(State()))
    {
      if control.state == Idle { return; }
      control := control.(captureActive := false, endRequested := true);
    }

    /** A frame from the microphone goes into the ring if it fits there as a whole. */
    method OnMicrophoneData(frame: Bytes)
      requires Valid()
      modifies this`control, this`trace, ring, ring.data
      ensures Valid() && State() == Microphone(old(State()), frame)
    {
      if !control.captureActive || frame == [] || |frame| > MAX_QUEUED_AUDIO_BYTES { return; }
      HearFrame(frame);
    }

    method HearFrame(frame: Bytes)
      requires Valid()
      modifies this`control, this`trace, ring, ring.data
      ensures Valid()
      ensures |old(ring.Contents())| + |frame| <= MAX_QUEUED_AUDIO_BYTES ==> State() == Take(old(State()), frame)
      ensures |old(ring.Contents())| + |frame| > MAX_QUEUED_AUDIO_BYTES ==> State() == Miss(old(State()), frame)
    {
      ghost var before := ring.Contents();
      var ok := ring.WriteWithoutReplacement(frame);
      if ok {
        PartsTake(control, trace, before, transportCommands, responseQueue, frame);
        trace := trace.(offered := trace.offered + frame, captured := trace.captured + frame);
      } else {
        PartsMiss(control, trace, before, transportCommands, responseQueue, frame);
        trace := trace.(offered := trace.offered + frame);
        control := control.(overflow := true);
      }
    }

    /** The stream is over: the queues and the ring are emptied, and the transport is to close. */
    method FinishStream(accepted: bool, rejected: bool)
      requires Valid()
      modifies this, ring
      ensures Valid() && State() == Finish(old(State()), accepted, rejected) && trace == old(trace)
    {
      control := control.(captureActive := false, accepted := accepted, rejected := rejected, state := Closing);
      transportCommands := [];
      ring.Clear();
      responseQueue := [];
    }

    method FinishClosing()
      requires Valid() && control.state == Closing
      modifies this`control, this`trace
      ensures State() == CompleteFinish(old(State()))
    {
      PartsComplete(control, trace, ring.Contents(), transportCommands, responseQueue);
      var outcome := if control.accepted then OnAccepted else if control.rejected then OnRejected else OnFailed;
      if control.enrollment { trace := trace.(callbacks := trace.callbacks + [outcome]); }
      control := control.(state := Idle, enrollment := false, accepted := false, rejected := false);
    }

    method HandleMessage(r: Response)
      requires Valid()
      modifies this, ring
      ensures Valid() && State() == HandleResponse(old(State()), r)
    {
      if r == Started && control.state == WaitStarted {
        PartsStarted(control, trace, ring.Contents(), transportCommands, responseQueue);
        control := control.(state := Streaming);
        return;
      }
      if r == ChunkReceived && control.state == WaitChunkAck {
        PartsAcked(control, trace, ring.Contents(), transportCommands, responseQueue);
        control := control.(awaitingAck := false, state := Streaming);
        trace := trace.(chunksAcked := trace.chunksAcked + 1);
        return;
      }
      if r.Result? && control.state == WaitResult {
        EndsByResult(State(), r);
        FinishStream(r.verdict == AcceptedVerdict, r.verdict == RejectedVerdict);
        return;
      }
      if r == Error(true) {
        EndsByError(State());
        FinishStream(false, false);
        return;
      }
      EndsByMisfit(State(), r);
      PartsComplain(control, trace, ring.Contents(), transportCommands, responseQueue);
      trace := trace.(sawInvalid := true);
      FinishStream(false, false);
    }

    /** Takes the responses off the queue and handles them, until none is left or one of them has ended the stream. */
    method HandleResponses()
      requires Valid() && control.state != Closing
      modifies this, ring
      ensures Valid() && responseQueue == []
      ensures State() == Drain(WithMail(old(State()), []), old(responseQueue))
    {
      ghost var all := Drain(WithMail(State(), []), responseQueue);
      while responseQueue != []
        invariant Valid() && (control.state == Closing ==> responseQueue == [])
        invariant Drain(WithMail(State(), []), responseQueue) == all
        decreases |responseQueue|
      {
        ghost var d := State();
        var response := responseQueue[0];
        responseQueue := responseQueue[1..];
        assert State() == WithMail(d, responseQueue) && d.responses == [response] + responseQueue;
        HandlingKeepsMail(d, response, responseQueue);
        HandlingCommutes(d, response, responseQueue);
        HandleMessage(response);
      }
      assert WithMail(State(), []) == State();
    }

    /** Takes n bytes out of the ring and queues them. */
    method TakeAndQueue(n: nat)
      requires Valid() && n <= |ring.Contents()|
      modifies this, ring
      ensures Valid() && State() == SendChunk(old(State()), n, true)
    {
      PartsSend(control, trace, ring.Contents(), transportCommands, responseQueue, n);
      var chunk := ring.Take(n);
      transportCommands := transportCommands + [Send(Binary(chunk))];
      AwaitAck();
    }

    /** Takes n bytes out of the ring and loses them, which raises a flag. */
    method TakeAndLose(n: nat)
      requires Valid() && n <= |ring.Contents()|
      modifies this, ring
      ensures Valid() && State() == SendChunk(old(State()), n, false)
    {
      PartsFailToSend(control, trace, ring.Contents(), transportCommands, responseQueue, n);
      var chunk := ring.Take(n);
      control := control.(sendFailed := true);
      AwaitAck();
    }

    method AwaitAck()
      modifies this`control, this`trace
      ensures control == old(control).(awaitingAck := true, state := WaitChunkAck)
      ensures trace == old(trace).(chunksSent := old(trace.chunksSent) + 1)
    {
      control := control.(awaitingAck := true, state := WaitChunkAck);
      trace := trace.(chunksSent := trace.chunksSent + 1);
    }

    /** Takes what the ring offers; in an enrollment the detector may find that the capture ends with it. */
    method SendOffered(t: Tick)
      requires Valid() && Offers(State(), t) && t.available > 0 && control.state == Streaming
      modifies this, ring
      ensures Valid() && State() == SendNextChunk(old(State()), t)
    {
      if control.enrollment && t.available >= 2 && t.vadEnds { EndStream(); }
      if t.queueWorks { TakeAndQueue(t.available); } else { TakeAndLose(t.available); }
    }

    /** The next command towards the ingress: a chunk if the ring offers one, else the end if it was asked for. */
    method SendNext(t: Tick)
      requires Valid() && Offers(State(), t) && control.state == Streaming
      modifies this, ring
      ensures Valid() && State() == StreamNext(old(State()), t)
    {
      if t.busy || |transportCommands| >= MAX_TRANSPORT_COMMANDS { return; }
      if t.available > 0 {
        SendOffered(t);
      } else if control.endRequested && t.queueWorks {
        PartsSendEnd(control, trace, ring.Contents(), transportCommands, responseQueue);
        transportCommands := transportCommands + [Send(EndFrame)];
        control := control.(state := WaitResult);
      }
    }

    /** The part of the loop after the responses. */
    method Progress(t: Tick)
      requires Valid() && Offers(State(), t) && control.state != Closing && control.state != Idle
      modifies this, ring
      ensures Valid() && State() == AfterResponses(old(State()), t)
    {
      if t.timedOut || control.overflow || control.protocolError || control.sendFailed || control.disconnected {
        FinishStream(false, false);
        return;
      }
      if control.state == Connecting {
        if control.connected && t.queueWorks && |transportCommands| < MAX_TRANSPORT_COMMANDS {
          transportCommands := transportCommands + [Send(StartFrame)];
          control := control.(connected := false, state := WaitStarted);
        }
        return;
      }
      if control.state == WaitStarted || control.state == WaitChunkAck || control.state == WaitResult {
        if t.ackTimedOut { FinishStream(false, false); }
        return;
      }
      SendNext(t);
    }

    /** One pass of the loop while the stream is under way. What it finds on the way comes as `t`. */
    method LoopOnce(t: Tick)
      requires Valid() && control.state != Idle && control.state != Closing
      modifies this, ring
      ensures Valid() && State() == Loop(old(State()), t)
    {
      LoopGoesOn(State(), t);
      HandleResponses();
      if control.state == Closing || control.state == Idle { return; }
      if t.available > ring.size || t.available > MAX_TRANSPORT_CHUNK_BYTES
         || (t.available == 0) != (ring.size == 0)
      {
        return;
      }
      Progress(t);
    }

    /** One pass of the loop, also of an idle or a closing stream. */
    method LoopAlways(t: Tick, transportClosed: bool)
      requires Valid()
      modifies this, ring
      ensures Valid()
      ensures State() == if old(control.state) == Closing && transportClosed then CompleteFinish(old(State()))
                         else Loop(old(State()), t)
    {
      if control.state == Idle { return; }
      if control.state == Closing {
        if transportClosed { FinishClosing(); }
        return;
      }
      LoopOnce(t);
    }
  }

  class AudioIngressSession {
    var phase: Phase
    var startAccepted: bool
    var chunks: seq<Bytes>
    var captureBytes: nat
    ghost var router: seq<Bytes>
    ghost var sawInvalid: bool

    ghost function State(): Ingress
      reads this
    {
      Ingress(phase, startAccepted, chunks, captureBytes, router, sawInvalid)
    }

    constructor ()
      ensures State() == Ingress(AwaitStart, false, [], 0, [], false)
    {
      phase, startAccepted, chunks, captureBytes := AwaitStart, false, [], 0;
      router, sawInvalid := [], false;
    }

    method Reject(invalid: bool) returns (reply: seq<Response>)
      modifies this`phase, this`sawInvalid
      ensures State() == Retired(old(State()), invalid) && reply == [Error(startAccepted)]
    {
      phase := Finished;
      sawInvalid := sawInvalid || invalid;
      return [Error(startAccepted)];
    }

    /** Takes the next frame from the device, and answers it. */
    method ReceiveFrame(frame: Frame, valid: bool, ghost s: System) returns (reply: seq<Response>)
      requires s.up != [] && s.up[0] == frame && s.ingress == State()
      modifies this
      ensures Receive(s, valid) == System(s.dev, s.up[1..], s.down + reply, State())
    {
      assert s.down + [] == s.down;
      if phase.Finished? { return []; }
      if phase.AwaitStart? {
        if frame != StartFrame {
          reply := Reject(true);
        } else if !valid {
          reply := Reject(false);
        } else {
          startAccepted := true;
          phase := Relaying;
          reply := [Started];
        }
        return;
      }
      if phase.Flushing? {
        reply := Reject(true);
        return;
      }
      if frame.Binary? {
        var chunk := frame.payload;
        if chunk == [] || |chunk| > MAX_CHUNK_BYTES {
          reply := Reject(true);
        } else if captureBytes + |chunk| > MAX_CAPTURE_BYTES {
          reply := Reject(false);
        } else {
          captureBytes := captureBytes + |chunk|;
          chunks := chunks + [chunk];
          reply := [ChunkReceived];
        }
        return;
      }
      if frame != EndFrame {
        reply := Reject(true);
        return;
      }
      phase := Flushing(0);
      reply := [];
    }

    /** The flush goes one call further: a chunk to the router, or the end and its result. No outcome is a failed call.
        */
    method FlushNext(outcome: Option<Verdict>, ghost s: System) returns (reply: seq<Response>)
      requires phase.Flushing? && s.ingress == State()
      modifies this
      ensures FlushStep(s, outcome) == System(s.dev, s.up, s.down + reply, State())
    {
      assert s.down + [] == s.down;
      if outcome == None {
        reply := Reject(false);
      } else if phase.sent < |chunks| {
        router := router + [chunks[phase.sent]];
        phase := Flushing(phase.sent + 1);
        reply := [];
      } else {
        phase := Finished;
        reply := [Result(outcome.value)];
      }
    }
  }
}
