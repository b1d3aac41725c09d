/** One audio capture, from the device's microphone through its stop-and-wait connection to the
    Home Assistant ingress and on to the router session. Both sides and the channels between them
    form one system; a step is one activity of one of them. */
module CaptureProtocol {
  import opened Wrappers

  const MAX_QUEUED_AUDIO_BYTES := 64 * 1024
  const MAX_TRANSPORT_CHUNK_BYTES := 16 * 1024
  const MAX_RESPONSE_QUEUE := 4
  const MAX_TRANSPORT_COMMANDS := 4
  const MAX_CHUNK_BYTES := 256 * 1024
  const MAX_CAPTURE_BYTES := 1024 * 1024

  datatype DeviceState = Idle | Connecting | WaitStarted | Streaming | WaitChunkAck | WaitResult | Closing

  datatype Verdict = AcceptedVerdict | RejectedVerdict | OtherVerdict

  /** Frames from the device, and frames to it. */
  datatype Frame = StartFrame | Binary(payload: Bytes) | EndFrame
  /** An error names its stream only once the ingress has accepted the stream's start. */
  datatype Response = Started | ChunkReceived | Result(verdict: Verdict) | Error(named: bool)

  datatype Command = Connect | Send(frame: Frame)

  datatype Callback = OnAccepted | OnRejected | OnFailed

  /** The device. `offered` is every byte of the frames heard while capturing, `captured` what the ring buffer has taken
      of them, `ring` what is not yet sent. */
  datatype Device = Device(
    state: DeviceState, enrollment: bool, captureActive: bool, endRequested: bool, awaitingAck: bool,
    offered: Bytes, captured: Bytes, ring: Bytes, commands: seq<Command>, responses: seq<Response>,
    connected: bool, disconnected: bool, overflow: bool, protocolError: bool, sendFailed: bool,
    accepted: bool, rejected: bool, callbacks: seq<Callback>,
    sawInvalid: bool, chunksSent: nat, chunksAcked: nat)

  datatype Phase = AwaitStart | Relaying | Flushing(sent: nat) | Finished

  /** The ingress: the chunks it has stored, and what the router session has been given. */
  datatype Ingress = Ingress(phase: Phase, startAccepted: bool, chunks: seq<Bytes>, captureBytes: nat,
                             router: seq<Bytes>, sawInvalid: bool)

  datatype System = System(dev: Device, up: seq<Frame>, down: seq<Response>, ingress: Ingress)

  function Concat(chunks: seq<Bytes>): Bytes {
    if chunks == [] then [] else Concat(chunks[..|chunks|-1]) + chunks[|chunks|-1]
  }

  // ----- The device -----

  function NewDevice(enrollment: bool): Device {
    Device(Connecting, enrollment, true, false, false, [], [], [], [Connect], [],
           false, false, false, false, false, false, false, [], false, 0, 0)
  }

  function Finish(d: Device, accepted: bool, rejected: bool): Device {
    d.(captureActive := false, accepted := accepted, rejected := rejected, state := Closing,
       commands := [], ring := [], responses := [])
  }

  /** Audio is taken whole or not at all; a frame that does not fit only raises the overflow flag. */
  function Microphone(d: Device, data: Bytes): Device {
    if !d.captureActive || data == [] || |data| > MAX_QUEUED_AUDIO_BYTES then d
    else if |d.ring| + |data| > MAX_QUEUED_AUDIO_BYTES then Miss(d, data)
    else Take(d, data)
  }

  function Miss(d: Device, data: Bytes): Device {
    d.(overflow := true, offered := d.offered + data)
  }

  function Take(d: Device, data: Bytes): Device {
    d.(ring := d.ring + data, captured := d.captured + data, offered := d.offered + data)
  }

  function EndRequest(d: Device): (e: Device)
    ensures e.ring == d.ring
  {
    if d.state == Idle then d else d.(captureActive := false, endRequested := true)
  }

  function StartAcked(d: Device): Device { d.(state := Streaming) }

  function Complained(d: Device): Device { d.(sawInvalid := true) }

  function ChunkAcked(d: Device): Device {
    d.(awaitingAck := false, state := Streaming, chunksAcked := d.chunksAcked + 1)
  }

  /** A frame that does not fit the device's state, or does not name its stream, ends the stream. */
  function HandleResponse(d: Device, r: Response): (e: Device)
    ensures if e.state == Closing then e.responses == []
            else IsAck(r) && e.state == Streaming && e.responses == d.responses
    ensures e.sawInvalid <==> d.sawInvalid || r == Error(false) || !Expected(d.state, r)
  {
    if r == Started && d.state == WaitStarted then StartAcked(d)
    else if r == ChunkReceived && d.state == WaitChunkAck then ChunkAcked(d)
    else if r.Result? && d.state == WaitResult then
      Finish(d, r.verdict == AcceptedVerdict, r.verdict == RejectedVerdict)
    else if r == Error(true) then Finish(d, false, false)
    else Finish(Complained(d), false, false)
  }

  function WithMail(d: Device, responses: seq<Response>): Device { d.(responses := responses) }

  /** The queued responses, in order, until one of them ends the stream and empties the queue. */
  function Drain(d: Device, responses: seq<Response>): Device
    decreases |responses|
  {
    if responses == [] || d.state == Closing then d
    else Drain(HandleResponse(d, responses[0]), responses[1..])
  }

  /** What the loop finds besides the queues: clocks that have run out, a busy transport, how much audio
      the ring offers at once, whether the voice activity detector ends the capture on it, and whether
      queueing a command works. */
  datatype Tick = Tick(timedOut: bool, ackTimedOut: bool, busy: bool, available: nat, vadEnds: bool, queueWorks: bool)

  predicate Offers(d: Device, t: Tick) {
    t.available <= |d.ring| && t.available <= MAX_TRANSPORT_CHUNK_BYTES && (t.available == 0 <==> d.ring == [])
  }

  /** The device takes the next chunk out of the ring and waits for its acknowledgement. */
  function TakeChunk(d: Device, n: nat): Device
    requires n <= |d.ring|
  {
    d.(ring := d.ring[n..], awaitingAck := true, state := WaitChunkAck, chunksSent := d.chunksSent + 1)
  }

  function SendFailed(d: Device): Device { d.(sendFailed := true) }

  function Queue(d: Device, f: Frame): Device {
    d.(commands := d.commands + [Send(f)])
  }

  /** A chunk is consumed even if queueing it then fails. */
  function SendChunk(d: Device, n: nat, queueWorks: bool): Device
    requires n <= |d.ring|
  {
    if queueWorks then Queue(TakeChunk(d, n), Binary(d.ring[..n])) else SendFailed(TakeChunk(d, n))
  }

  /** The detector, which only listens during enrollment, may end the capture with this chunk. */
  function SendNextChunk(d: Device, t: Tick): Device
    requires Offers(d, t) && t.available > 0
  {
    if d.enrollment && t.available >= 2 && t.vadEnds then SendChunk(EndRequest(d), t.available, t.queueWorks)
    else SendChunk(d, t.available, t.queueWorks)
  }

  function SendEnd(d: Device): Device {
    Queue(d, EndFrame).(state := WaitResult)
  }

  function SendStart(d: Device): Device {
    Queue(d, StartFrame).(connected := false, state := WaitStarted)
  }

  function StreamNext(d: Device, t: Tick): Device
    requires Offers(d, t)
  {
    if t.busy || |d.commands| >= MAX_TRANSPORT_COMMANDS then d
    else if t.available > 0 then SendNextChunk(d, t)
    else if d.endRequested && t.queueWorks then SendEnd(d)
    else d
  }

  predicate Troubled(d: Device, t: Tick) {
    t.timedOut || d.overflow || d.protocolError || d.sendFailed || d.disconnected
  }

  predicate Waiting(state: DeviceState) {
    state == WaitStarted || state == WaitChunkAck || state == WaitResult
  }

  function AfterResponses(d: Device, t: Tick): Device
    requires Offers(d, t)
  {
    if d.state == Closing || d.state == Idle then d
    else if Troubled(d, t) then Finish(d, false, false)
    else if d.state == Connecting then
      if d.connected && t.queueWorks && |d.commands| < MAX_TRANSPORT_COMMANDS then SendStart(d) else d
    else if Waiting(d.state) then
      if t.ackTimedOut then Finish(d, false, false) else d
    else StreamNext(d, t)
  }

  /** One pass of the device's loop. */
  function Loop(d: Device, t: Tick): Device {
    if d.state == Idle || d.state == Closing then d
    else
      var drained := Drain(WithMail(d, []), d.responses);
      if Offers(drained, t) then AfterResponses(drained, t) else drained
  }

  /** The transport is closed: the stream is over, and a capture reports its outcome. */
  function CompleteFinish(d: Device): Device {
    if d.state != Closing then d
    else
      var outcome := if d.accepted then OnAccepted else if d.rejected then OnRejected else OnFailed;
      d.(state := Idle, enrollment := false, accepted := false, rejected := false,
         callbacks := if d.enrollment then d.callbacks + [outcome] else d.callbacks)
  }

  // ----- The ingress -----

  /** The ingress after its last response, or without its connection. */
  function Retired(i: Ingress, invalid: bool): Ingress {
    i.(phase := Finished, sawInvalid := i.sawInvalid || invalid)
  }

  function Refuse(s: System, invalid: bool): System {
    s.(down := s.down + [Error(s.ingress.startAccepted)], ingress := Retired(s.ingress, invalid))
  }

  function AcceptStart(i: Ingress): Ingress {
    i.(phase := Relaying, startAccepted := true)
  }

  function Store(i: Ingress, b: Bytes): Ingress {
    i.(chunks := i.chunks + [b], captureBytes := i.captureBytes + |b|)
  }

  function BeginFlush(i: Ingress): Ingress {
    i.(phase := Flushing(0))
  }

  /** The next frame from the device. `valid` says whether a START's metadata is acceptable. */
  function Receive(s: System, valid: bool): System
    requires s.up != []
  {
    var f := s.up[0];
    var i := s.ingress;
    var t := s.(up := s.up[1..]);
    match i.phase
    case AwaitStart =>
      if f != StartFrame then Refuse(t, true)
      else if !valid then Refuse(t, false)
      else t.(ingress := AcceptStart(i), down := s.down + [Started])
    case Relaying =>
      (match f
       case Binary(b) =>
         if b == [] || |b| > MAX_CHUNK_BYTES then Refuse(t, true)
         else if i.captureBytes + |b| > MAX_CAPTURE_BYTES then Refuse(t, false)
         else t.(ingress := Store(i, b), down := s.down + [ChunkReceived])
       case EndFrame => t.(ingress := BeginFlush(i))
       case StartFrame => Refuse(t, true))
    case Flushing(_) => Refuse(t, true)
    case Finished => t
  }

  function FlushOne(i: Ingress): Ingress
    requires i.phase.Flushing? && i.phase.sent < |i.chunks|
  {
    i.(phase := Flushing(i.phase.sent + 1), router := i.router + [i.chunks[i.phase.sent]])
  }

  /** The flush to the router: one stored chunk after the other, then the end and its result. */
  function FlushStep(s: System, outcome: Option<Verdict>): System {
    var i := s.ingress;
    if !i.phase.Flushing? then s
    else if outcome.None? then Refuse(s, false)
    else if i.phase.sent < |i.chunks| then s.(ingress := FlushOne(i))
    else s.(ingress := Retired(i, false), down := s.down + [Result(outcome.value)])
  }

  // ----- The system -----

  datatype Action =
    | DeviceLoop(t: Tick)
    | Hear(data: Bytes)
    | RequestEnd
    | Work(ok: bool)                        // the transport task runs the next command
    | Connected
    | Deliver                               // the next response reaches the device
    | DeviceTrouble                         // a malformed or unreadable frame reaches the device
    | IngressReceive(valid: bool)
    | Flush(outcome: Option<Verdict>)
    | IngressTimeout
    | PeerClosed                            // the device learns that the finished ingress has closed the connection
    | LoseConnection(kept: nat)
    | TransportClosed

  function Work'(s: System, ok: bool): System {
    if s.dev.commands == [] then s
    else
      if !ok then s.(dev := SendFailed(Worked(s.dev)))
      else
        match s.dev.commands[0]
        case Connect => s.(dev := Worked(s.dev))
        case Send(f) => s.(dev := Worked(s.dev), up := s.up + [f])
  }

  function Worked(d: Device): Device
    requires d.commands != []
  {
    d.(commands := d.commands[1..])
  }

  function Unplugged(d: Device): Device { d.(disconnected := true) }

  function NowConnected(d: Device): Device { d.(connected := true) }

  function Garbled(d: Device): Device { d.(protocolError := true) }

  function DeliverNext(s: System): System {
    if s.down == [] then s
    else if |s.dev.responses| >= MAX_RESPONSE_QUEUE then s.(down := s.down[1..], dev := Garbled(s.dev))
    else s.(down := s.down[1..], dev := WithMail(s.dev, s.dev.responses + [s.down[0]]))
  }

  function Step(s: System, a: Action): System {
    match a
    case DeviceLoop(t) => s.(dev := Loop(s.dev, t))
    case Hear(data) => s.(dev := Microphone(s.dev, data))
    case RequestEnd => s.(dev := EndRequest(s.dev))
    case Work(ok) => Work'(s, ok)
    case Connected => if Connect in s.dev.commands then s else s.(dev := NowConnected(s.dev))
    case Deliver => DeliverNext(s)
    case DeviceTrouble => s.(dev := Garbled(s.dev))
    case IngressReceive(valid) => if s.up == [] then s else Receive(s, valid)
    case Flush(outcome) => FlushStep(s, outcome)
    case IngressTimeout => if s.ingress.phase.Finished? then s else Refuse(s, false)
    case PeerClosed => if s.ingress.phase.Finished? then s.(dev := Unplugged(s.dev)) else s
    case LoseConnection(kept) =>
      s.(up := [], down := s.down[..if kept <= |s.down| then kept else |s.down|],
         ingress := Retired(s.ingress, false), dev := Unplugged(s.dev))
    case TransportClosed => s.(dev := CompleteFinish(s.dev))
  }

  function Initial(enrollment: bool): System {
    System(NewDevice(enrollment), [], [], Ingress(AwaitStart, false, [], 0, [], false))
  }

  function Run(enrollment: bool, actions: seq<Action>): System {
    if actions == [] then Initial(enrollment)
    else Step(Run(enrollment, actions[..|actions|-1]), actions[|actions|-1])
  }

  // ----- What the invariant looks at -----

  /** The responses on their way to the device, oldest first. */
  datatype Mail = NoMail | One(first: Response) | Two(first: Response, second: Response) | TooMany

  function MailOf(p: seq<Response>): Mail {
    if |p| == 0 then NoMail else if |p| == 1 then One(p[0]) else if |p| == 2 then Two(p[0], p[1]) else TooMany
  }

  /** The system without its queues: `flight` is the frame on its way to the ingress, `queued` whether a command
      waits, `stored` the audio the ingress has, `routed` whether the router has been given all of it. */
  datatype View = View(
    state: DeviceState, captureActive: bool, sendFailed: bool, succeeded: bool, sawInvalid: bool,
    captured: Bytes, ring: Bytes, flight: Option<Frame>, queued: bool, mail: Mail,
    phase: Phase, startAccepted: bool, stored: Bytes, routed: bool)

  function InFlight(up: seq<Frame>, commands: seq<Command>): Option<Frame> {
    if up != [] then Some(up[0])
    else if commands != [] && commands[0].Send? then Some(commands[0].frame)
    else None
  }

  ghost function ViewOf(d: Device, up: seq<Frame>, down: seq<Response>, i: Ingress): View {
    View(d.state, d.captureActive, d.sendFailed, d.accepted || OnAccepted in d.callbacks, d.sawInvalid,
         d.captured, d.ring, InFlight(up, d.commands), d.commands != [], MailOf(d.responses + down),
         i.phase, i.startAccepted, Concat(i.chunks), i.router == i.chunks)
  }

  predicate Live(v: View) { !v.phase.Finished? }

  predicate Running(state: DeviceState) { state != Idle && state != Closing }

  predicate IsAck(r: Response) { r == Started || r == ChunkReceived }

  predicate Expected(state: DeviceState, r: Response) {
    match r
    case Started => state == WaitStarted
    case ChunkReceived => state == WaitChunkAck
    case Result(_) => state == WaitResult
    case Error(_) => true
  }

  predicate SentIn(state: DeviceState, f: Frame) {
    match f
    case StartFrame => state == WaitStarted
    case Binary(_) => state == WaitChunkAck
    case EndFrame => state == WaitResult
  }

  /** The frame fits the state of the ingress, and what it carries continues the stored audio. */
  predicate Fits(v: View, f: Frame) {
    match f
    case StartFrame => v.phase == AwaitStart
    case Binary(b) =>
      v.phase == Relaying && b != [] && |b| <= MAX_TRANSPORT_CHUNK_BYTES && v.stored + b <= v.captured
    case EndFrame => v.phase == Relaying && v.stored == v.captured && !v.captureActive
  }

  /** The router session has been given exactly the captured audio, and no more can be captured. */
  predicate Delivered(v: View) {
    v.phase == Finished && v.routed && v.stored == v.captured && !v.captureActive
  }

  /** While the ingress is live, one frame or one acknowledgement at most is on its way. Once it has finished,
      an acknowledgement may be followed by an error, or a result comes alone. */
  predicate TrafficOk(v: View) {
    && (match v.mail
        case NoMail => true
        case One(r) => Live(v) ==> IsAck(r)
        case Two(r, e) => !Live(v) && IsAck(r) && e.Error?
        case TooMany => false)
    && (Live(v) && v.flight.Some? ==> v.mail == NoMail)
    && ((v.mail.One? || v.mail.Two?) && !v.mail.first.Error? ==> !v.queued && v.startAccepted)
    && (v.mail.One? && v.mail.first.Error? ==> (v.mail.first.named <==> v.startAccepted))
    && (v.mail.Two? ==> v.mail.second == Error(true))
    && (v.phase.Flushing? ==> v.mail == NoMail)
    && (v.sawInvalid ==> !v.startAccepted && !Live(v))
  }

  /** Whatever is on its way suits whoever will receive it. */
  predicate FramesOk(v: View) {
    && (Live(v) && v.flight.Some? ==> Fits(v, v.flight.value) && (Running(v.state) ==> SentIn(v.state, v.flight.value)))
    && ((v.mail.One? || v.mail.Two?) && Running(v.state) ==> Expected(v.state, v.mail.first))
    && (v.phase.Flushing? && Running(v.state) ==> v.state == WaitResult)
  }

  /** The ingress stores a prefix of the captured audio, and all of it before any result or success. */
  predicate AudioOk(v: View) {
    && v.stored <= v.captured
    && (v.phase.Flushing? ==> v.stored == v.captured && !v.captureActive)
    && (v.mail.One? && v.mail.first.Result? ==> Delivered(v))
    && (v.succeeded ==> Delivered(v))
  }

  /** Exactly one of the two sides is to move. */
  predicate Balanced(v: View) {
    match v.state
    case Connecting => v.phase == AwaitStart && v.flight.None? && v.mail == NoMail
    case WaitStarted => if v.flight.Some? then v.flight.value == StartFrame
                        else v.mail == One(Started) && v.phase == Relaying
    case Streaming => v.phase == Relaying && v.flight.None? && v.mail == NoMail
    case WaitChunkAck => if v.flight.Some? then v.flight.value.Binary?
                         else v.mail == One(ChunkReceived) && v.phase == Relaying
    case WaitResult => if v.flight.Some? then v.flight.value == EndFrame else v.mail == NoMail && v.phase.Flushing?
    case _ => true
  }

  function OnTheWay(v: View): Bytes {
    if v.flight.Some? && v.flight.value.Binary? then v.flight.value.payload else []
  }

  /** No captured byte is lost: it is stored at the ingress, on its way, or in the device's ring. */
  predicate NothingLost(v: View) {
    v.stored + OnTheWay(v) + v.ring == v.captured
  }

  predicate TurnOk(v: View) {
    Live(v) && Running(v.state) ==>
      if v.sendFailed then v.flight.None? && v.mail == NoMail else Balanced(v) && NothingLost(v)
  }

  predicate ViewOk(v: View) {
    TrafficOk(v) && FramesOk(v) && AudioOk(v) && TurnOk(v)
  }

  ghost predicate DeviceOk(d: Device) {
    && (d.captureActive ==> Running(d.state) && !d.endRequested)
    && (d.state == WaitResult ==> d.endRequested && d.ring == [])
    && (!Running(d.state) ==> d.commands == [])
    && |d.commands| <= 1 && (d.state == Streaming ==> d.commands == [])
    && (Connect in d.commands ==> d.state == Connecting && !d.connected)
    && (d.state == Connecting ==> d.commands == [] || d.commands == [Connect])
    && d.chunksSent == d.chunksAcked + (if d.awaitingAck then 1 else 0)
    && (Running(d.state) ==> (d.awaitingAck <==> d.state == WaitChunkAck))
    && |d.callbacks| <= 1 && (d.state != Idle ==> d.callbacks == [])
  }

  ghost predicate IngressOk(i: Ingress) {
    && i.captureBytes == |Concat(i.chunks)| <= MAX_CAPTURE_BYTES
    && (i.phase == AwaitStart ==> !i.startAccepted && i.chunks == [] && i.router == [])
    && (i.phase == Relaying ==> i.startAccepted && i.router == [])
    && (i.phase.Flushing? ==> i.startAccepted && i.phase.sent <= |i.chunks| && i.router == i.chunks[..i.phase.sent])
    && !i.sawInvalid
  }

  /** Behind the view: a live ingress has at most one frame in the channel, and then no command waits. */
  ghost predicate ChannelOk(d: Device, up: seq<Frame>, i: Ingress) {
    i.phase.Finished? || (|up| <= 1 && (up != [] ==> d.commands == []))
  }

  ghost predicate PartsOk(d: Device, up: seq<Frame>, down: seq<Response>, i: Ingress) {
    DeviceOk(d) && IngressOk(i) && ChannelOk(d, up, i) && ViewOk(ViewOf(d, up, down, i))
  }

  ghost predicate Inv(s: System) {
    PartsOk(s.dev, s.up, s.down, s.ingress)
  }

  lemma InitialInv(enrollment: bool)
    ensures Inv(Initial(enrollment))
  {
  }

  // ----- Steps of the device that leave the channels alone -----

  lemma HeardViewOk(v: View, w: View, data: Bytes)
    requires ViewOk(v) && v.captureActive && w == v.(ring := w.ring, captured := w.captured)
    requires w.ring == v.ring + data && w.captured == v.captured + data
    ensures ViewOk(w)
  {
    var before := v.stored + OnTheWay(v);
    assert before + (v.ring + data) == before + v.ring + data;
    if Live(v) && v.flight.Some? && v.flight.value.Binary? {
      assert v.stored + v.flight.value.payload <= v.captured <= w.captured;
    }
  }

  lemma HearKeepsInv(d: Device, up: seq<Frame>, down: seq<Response>, i: Ingress, data: Bytes)
    requires PartsOk(d, up, down, i)
    ensures PartsOk(Microphone(d, data), up, down, i)
  {
    if !d.captureActive || data == [] || |data| > MAX_QUEUED_AUDIO_BYTES {
      return;
    }
    if |d.ring| + |data| > MAX_QUEUED_AUDIO_BYTES {
      assert ViewOf(Microphone(d, data), up, down, i) == ViewOf(d, up, down, i);
      return;
    }
    TakeKeepsInv(d, up, down, i, data);
  }

  lemma TakeKeepsInv(d: Device, up: seq<Frame>, down: seq<Response>, i: Ingress, data: Bytes)
    requires PartsOk(d, up, down, i) && d.captureActive
    ensures PartsOk(Take(d, data), up, down, i)
  {
    HeardViewOk(ViewOf(d, up, down, i), ViewOf(Take(d, data), up, down, i), data);
  }

  lemma StoppedViewOk(v: View, w: View)
    requires ViewOk(v) && w == v.(captureActive := false)
    ensures ViewOk(w)
  {
  }

  lemma EndRequestKeepsInv(d: Device, up: seq<Frame>, down: seq<Response>, i: Ingress)
    requires PartsOk(d, up, down, i)
    ensures PartsOk(EndRequest(d), up, down, i)
  {
    if d.state != Idle {
      StoppedViewOk(ViewOf(d, up, down, i), ViewOf(EndRequest(d), up, down, i));
    }
  }

  lemma CompletedViewOk(v: View, w: View)
    requires ViewOk(v) && v.state == Closing && w == v.(state := Idle, succeeded := w.succeeded)
             && (w.succeeded ==> v.succeeded)
    ensures ViewOk(w)
  {
  }

  lemma CompleteKeepsInv(d: Device, up: seq<Frame>, down: seq<Response>, i: Ingress)
    requires PartsOk(d, up, down, i)
    ensures PartsOk(CompleteFinish(d), up, down, i)
  {
    if d.state == Closing {
      CompletedViewOk(ViewOf(d, up, down, i), ViewOf(CompleteFinish(d), up, down, i));
    }
  }

  // ----- The device's loop -----

  /** Dropping some of the oldest mail. */
  predicate LaterMail(m: Mail, n: Mail) {
    match m
    case NoMail => n == NoMail
    case One(_) => n == m || n == NoMail
    case Two(_, second) => n == m || n == One(second) || n == NoMail
    case TooMany => true
  }

  lemma FinishedViewOk(v: View, w: View)
    requires ViewOk(v)
    requires w == View(Closing, false, v.sendFailed, w.succeeded, w.sawInvalid, v.captured, [], w.flight, false, w.mail,
                       v.phase, v.startAccepted, v.stored, v.routed)
    requires w.flight == v.flight || w.flight == None
    requires LaterMail(v.mail, w.mail)
    requires w.succeeded ==> Delivered(v)
    requires w.sawInvalid ==> v.sawInvalid || v.mail == One(Error(false))
    ensures ViewOk(w)
  {
  }

  lemma FinishKeepsInv(d: Device, waiting: seq<Response>, up: seq<Frame>, down: seq<Response>, i: Ingress,
                       accepted: bool, rejected: bool, invalid: bool)
    requires PartsOk(WithMail(d, waiting), up, down, i) && Running(d.state)
    requires accepted ==> Delivered(ViewOf(WithMail(d, waiting), up, down, i))
    requires invalid ==> ViewOf(WithMail(d, waiting), up, down, i).mail == One(Error(false))
    ensures PartsOk(Finish(if invalid then Complained(d) else d, accepted, rejected), up, down, i)
  {
    var v := ViewOf(WithMail(d, waiting), up, down, i);
    var e := Finish(if invalid then Complained(d) else d, accepted, rejected);
    var w := ViewOf(e, up, down, i);
    assert LaterMail(v.mail, w.mail) by {
      assert |[] + down| == |down|;
      if |waiting| == 0 {
        assert waiting + down == [] + down;
      } else if |waiting| == 1 {
        assert (waiting + down)[1..] == down;
      }
    }
    FinishedViewOk(v, w);
  }

  lemma AckedViewOk(v: View, w: View)
    requires ViewOk(v) && Running(v.state) && (v.mail.One? || v.mail.Two?) && IsAck(v.mail.first)
    requires w == v.(state := Streaming, mail := if v.mail.One? then NoMail else One(v.mail.second))
    ensures ViewOk(w)
  {
  }

  lemma MailRest(rs: seq<Response>, down: seq<Response>)
    requires rs != [] && |rs + down| <= 2
    ensures var m := MailOf(rs + down);
            && (m.One? || m.Two?) && m.first == rs[0]
            && MailOf(rs[1..] + down) == if m.One? then NoMail else One(m.second)
  {
    assert (rs + down)[1..] == rs[1..] + down;
  }

  lemma StartedKeepsInv(d: Device, rs: seq<Response>, up: seq<Frame>, down: seq<Response>, i: Ingress)
    requires rs != [] && rs[0] == Started && PartsOk(WithMail(d, rs), up, down, i) && Running(d.state)
    ensures d.state == WaitStarted && PartsOk(WithMail(StartAcked(d), rs[1..]), up, down, i)
  {
    MailRest(rs, down);
    AckedViewOk(ViewOf(WithMail(d, rs), up, down, i), ViewOf(WithMail(StartAcked(d), rs[1..]), up, down, i));
  }

  lemma ChunkAckKeepsInv(d: Device, rs: seq<Response>, up: seq<Frame>, down: seq<Response>, i: Ingress)
    requires rs != [] && rs[0] == ChunkReceived && PartsOk(WithMail(d, rs), up, down, i) && Running(d.state)
    ensures d.state == WaitChunkAck && PartsOk(WithMail(ChunkAcked(d), rs[1..]), up, down, i)
  {
    MailRest(rs, down);
    AckedViewOk(ViewOf(WithMail(d, rs), up, down, i), ViewOf(WithMail(ChunkAcked(d), rs[1..]), up, down, i));
  }

  lemma ResultKeepsInv(d: Device, rs: seq<Response>, up: seq<Frame>, down: seq<Response>, i: Ingress, verdict: Verdict)
    requires rs != [] && rs[0] == Result(verdict) && PartsOk(WithMail(d, rs), up, down, i) && Running(d.state)
    ensures d.state == WaitResult
    ensures PartsOk(Finish(d, verdict == AcceptedVerdict, verdict == RejectedVerdict), up, down, i)
  {
    MailRest(rs, down);
    FinishKeepsInv(d, rs, up, down, i, verdict == AcceptedVerdict, verdict == RejectedVerdict, false);
  }

  lemma ErrorKeepsInv(d: Device, rs: seq<Response>, up: seq<Frame>, down: seq<Response>, i: Ingress, named: bool)
    requires rs != [] && rs[0] == Error(named) && PartsOk(WithMail(d, rs), up, down, i) && Running(d.state)
    ensures PartsOk(Finish(if named then d else Complained(d), false, false), up, down, i)
  {
    MailRest(rs, down);
    FinishKeepsInv(d, rs, up, down, i, false, false, !named);
  }

  lemma AckKeepsInv(d: Device, rs: seq<Response>, up: seq<Frame>, down: seq<Response>, i: Ingress)
    requires rs != [] && IsAck(rs[0]) && PartsOk(WithMail(d, rs), up, down, i) && Running(d.state)
    ensures PartsOk(WithMail(HandleResponse(d, rs[0]), rs[1..]), up, down, i)
  {
    if rs[0] == Started {
      StartedKeepsInv(d, rs, up, down, i);
      assert HandleResponse(d, rs[0]) == StartAcked(d);
    } else {
      ChunkAckKeepsInv(d, rs, up, down, i);
      assert HandleResponse(d, rs[0]) == ChunkAcked(d);
    }
  }

  lemma EndingKeepsInv(d: Device, rs: seq<Response>, up: seq<Frame>, down: seq<Response>, i: Ingress)
    requires rs != [] && !IsAck(rs[0]) && PartsOk(WithMail(d, rs), up, down, i) && Running(d.state)
    ensures PartsOk(HandleResponse(d, rs[0]), up, down, i)
  {
    match rs[0]
    case Result(verdict) =>
      ResultKeepsInv(d, rs, up, down, i, verdict);
      assert HandleResponse(d, rs[0]) == Finish(d, verdict == AcceptedVerdict, verdict == RejectedVerdict);
    case Error(named) =>
      ErrorKeepsInv(d, rs, up, down, i, named);
      assert HandleResponse(d, rs[0]) == Finish(if named then d else Complained(d), false, false);
  }

  lemma AckGoesOn(d: Device, rs: seq<Response>, up: seq<Frame>, down: seq<Response>, i: Ingress)
    requires rs != [] && IsAck(rs[0]) && PartsOk(WithMail(d, rs), up, down, i) && Running(d.state)
    ensures HandleResponse(d, rs[0]).state == Streaming
  {
    MailRest(rs, down);
  }

  lemma {:induction false} DrainKeepsInv(d: Device, rs: seq<Response>, up: seq<Frame>, down: seq<Response>, i: Ingress)
    requires PartsOk(WithMail(d, rs), up, down, i) && Running(d.state) && d.responses == []
    ensures PartsOk(Drain(d, rs), up, down, i)
    decreases |rs|, 1
  {
    if rs == [] {
      DrainNothing(d, rs, up, down, i);
    } else if IsAck(rs[0]) {
      DrainAfterAck(d, rs, up, down, i);
    } else {
      DrainEnds(d, rs, up, down, i);
    }
  }

  lemma {:induction false} DrainAfterAck(d: Device, rs: seq<Response>, up: seq<Frame>, down: seq<Response>, i: Ingress)
    requires PartsOk(WithMail(d, rs), up, down, i) && Running(d.state) && d.responses == [] && rs != [] && IsAck(rs[0])
    ensures PartsOk(Drain(d, rs), up, down, i)
    decreases |rs|, 0
  {
    AckGoesOn(d, rs, up, down, i);
    AckKeepsInv(d, rs, up, down, i);
    DrainKeepsInv(HandleResponse(d, rs[0]), rs[1..], up, down, i);
  }

  lemma DrainEnds(d: Device, rs: seq<Response>, up: seq<Frame>, down: seq<Response>, i: Ingress)
    requires PartsOk(WithMail(d, rs), up, down, i) && Running(d.state) && rs != [] && !IsAck(rs[0])
    ensures PartsOk(Drain(d, rs), up, down, i)
  {
    EndingKeepsInv(d, rs, up, down, i);
    DrainClosed(HandleResponse(d, rs[0]), rs[1..]);
  }

  lemma DrainNothing(d: Device, rs: seq<Response>, up: seq<Frame>, down: seq<Response>, i: Ingress)
    requires PartsOk(WithMail(d, rs), up, down, i) && d.responses == [] == rs
    ensures PartsOk(Drain(d, rs), up, down, i)
  {
    assert d == WithMail(d, rs);
  }

  lemma DrainClosed(d: Device, rs: seq<Response>)
    requires d.state == Closing
    ensures Drain(d, rs) == d
  {
  }

  lemma SentViewOk(v: View, w: View, f: Frame, n: nat)
    requires ViewOk(v) && !v.sendFailed && n <= |v.ring| && !v.queued
    requires w == v.(state := w.state, flight := if v.flight.Some? then v.flight else Some(f), queued := true,
                     ring := w.ring)
    requires match f
             case StartFrame => v.state == Connecting && w.state == WaitStarted && w.ring == v.ring
             case Binary(b) => v.state == Streaming && w.state == WaitChunkAck && 0 < n <= MAX_TRANSPORT_CHUNK_BYTES &&
                               b == v.ring[..n] && w.ring == v.ring[n..]
             case EndFrame =>
               v.state == Streaming && w.state == WaitResult && v.ring == [] == w.ring && !v.captureActive
    ensures ViewOk(w)
  {
    if Live(v) {
      assert v.stored + [] == v.stored;
      if f.Binary? {
        assert v.ring == f.payload + w.ring;
        assert v.stored + v.ring == v.stored + f.payload + w.ring;
      }
      if f.EndFrame? { assert v.stored + v.ring == v.stored; }
    }
  }

  lemma SendStartKeepsInv(d: Device, up: seq<Frame>, down: seq<Response>, i: Ingress)
    requires PartsOk(d, up, down, i) && d.state == Connecting && d.connected && !d.sendFailed
    ensures PartsOk(SendStart(d), up, down, i)
  {
    assert d.commands == [];
    SentViewOk(ViewOf(d, up, down, i), ViewOf(SendStart(d), up, down, i), StartFrame, 0);
  }

  lemma SendEndKeepsInv(d: Device, up: seq<Frame>, down: seq<Response>, i: Ingress)
    requires PartsOk(d, up, down, i) && d.state == Streaming && d.endRequested && d.ring == [] && !d.sendFailed
    ensures PartsOk(SendEnd(d), up, down, i)
  {
    SentViewOk(ViewOf(d, up, down, i), ViewOf(SendEnd(d), up, down, i), EndFrame, 0);
  }

  lemma QueueChunkKeepsInv(d: Device, up: seq<Frame>, down: seq<Response>, i: Ingress, n: nat)
    requires PartsOk(d, up, down, i) && d.state == Streaming && !d.sendFailed
    requires 0 < n <= |d.ring| && n <= MAX_TRANSPORT_CHUNK_BYTES
    ensures PartsOk(Queue(TakeChunk(d, n), Binary(d.ring[..n])), up, down, i)
  {
    SentViewOk(ViewOf(d, up, down, i), ViewOf(Queue(TakeChunk(d, n), Binary(d.ring[..n])), up, down, i),
      Binary(d.ring[..n]), n);
  }

  lemma LostChunkViewOk(v: View, w: View)
    requires ViewOk(v) && !v.sendFailed && v.state == Streaming
    requires w == v.(state := WaitChunkAck, ring := w.ring, sendFailed := true)
    ensures ViewOk(w)
  {
  }

  lemma LostChunkKeepsInv(d: Device, up: seq<Frame>, down: seq<Response>, i: Ingress, n: nat)
    requires PartsOk(d, up, down, i) && d.state == Streaming && !d.sendFailed && n <= |d.ring|
    ensures PartsOk(SendFailed(TakeChunk(d, n)), up, down, i)
  {
    LostChunkViewOk(ViewOf(d, up, down, i), ViewOf(SendFailed(TakeChunk(d, n)), up, down, i));
  }

  lemma SendChunkKeepsInv(d: Device, up: seq<Frame>, down: seq<Response>, i: Ingress, n: nat, queueWorks: bool)
    requires PartsOk(d, up, down, i) && d.state == Streaming && !d.sendFailed
    requires 0 < n <= |d.ring| && n <= MAX_TRANSPORT_CHUNK_BYTES
    ensures PartsOk(SendChunk(d, n, queueWorks), up, down, i)
  {
    if queueWorks {
      QueueChunkKeepsInv(d, up, down, i, n);
      return;
    }
    LostChunkKeepsInv(d, up, down, i, n);
  }

  lemma SendLastKeepsInv(d: Device, up: seq<Frame>, down: seq<Response>, i: Ingress, n: nat, queueWorks: bool)
    requires PartsOk(d, up, down, i) && d.state == Streaming && !d.sendFailed
    requires 0 < n <= |d.ring| && n <= MAX_TRANSPORT_CHUNK_BYTES
    ensures PartsOk(SendChunk(EndRequest(d), n, queueWorks), up, down, i)
  {
    EndRequestKeepsInv(d, up, down, i);
    SendChunkKeepsInv(EndRequest(d), up, down, i, n, queueWorks);
  }

  lemma SendNextKeepsInv(d: Device, up: seq<Frame>, down: seq<Response>, i: Ingress, t: Tick)
    requires PartsOk(d, up, down, i) && d.state == Streaming && !d.sendFailed && Offers(d, t) && t.available > 0
    ensures PartsOk(SendNextChunk(d, t), up, down, i)
  {
    if d.enrollment && t.available >= 2 && t.vadEnds {
      SendLastKeepsInv(d, up, down, i, t.available, t.queueWorks);
      return;
    }
    SendChunkKeepsInv(d, up, down, i, t.available, t.queueWorks);
  }

  lemma StreamNextKeepsInv(d: Device, up: seq<Frame>, down: seq<Response>, i: Ingress, t: Tick)
    requires PartsOk(d, up, down, i) && d.state == Streaming && !d.sendFailed && Offers(d, t)
    ensures PartsOk(StreamNext(d, t), up, down, i)
  {
    if t.busy || |d.commands| >= MAX_TRANSPORT_COMMANDS { return; }
    if t.available > 0 {
      SendNextKeepsInv(d, up, down, i, t);
      return;
    }
    if d.endRequested && t.queueWorks {
      SendEndKeepsInv(d, up, down, i);
      return;
    }
  }

  lemma GiveUpKeepsInv(d: Device, up: seq<Frame>, down: seq<Response>, i: Ingress)
    requires PartsOk(d, up, down, i) && Running(d.state)
    ensures PartsOk(Finish(d, false, false), up, down, i)
  {
    assert WithMail(d, d.responses) == d;
    FinishKeepsInv(d, d.responses, up, down, i, false, false, false);
  }

  lemma AfterResponsesKeepsInv(d: Device, up: seq<Frame>, down: seq<Response>, i: Ingress, t: Tick)
    requires PartsOk(d, up, down, i) && Offers(d, t)
    ensures PartsOk(AfterResponses(d, t), up, down, i)
  {
    if d.state == Closing || d.state == Idle { return; }
    if Troubled(d, t) {
      GiveUpKeepsInv(d, up, down, i);
      return;
    }
    if d.state == Connecting {
      if d.connected && t.queueWorks && |d.commands| < MAX_TRANSPORT_COMMANDS {
        SendStartKeepsInv(d, up, down, i);
        return;
      }
      return;
    }
    if Waiting(d.state) {
      if t.ackTimedOut { GiveUpKeepsInv(d, up, down, i); }
      return;
    }
    StreamNextKeepsInv(d, up, down, i, t);
  }

  lemma LoopKeepsInv(d: Device, up: seq<Frame>, down: seq<Response>, i: Ingress, t: Tick)
    requires PartsOk(d, up, down, i)
    ensures PartsOk(Loop(d, t), up, down, i)
  {
    if d.state == Idle || d.state == Closing { return; }
    DrainAllKeepsInv(d, up, down, i);
    var e := Drain(WithMail(d, []), d.responses);
    if Offers(e, t) { AfterResponsesKeepsInv(e, up, down, i, t); return; }
  }

  lemma DrainAllKeepsInv(d: Device, up: seq<Frame>, down: seq<Response>, i: Ingress)
    requires PartsOk(d, up, down, i) && Running(d.state)
    ensures PartsOk(Drain(WithMail(d, []), d.responses), up, down, i)
  {
    assert WithMail(WithMail(d, []), d.responses) == d;
    DrainKeepsInv(WithMail(d, []), d.responses, up, down, i);
  }

  // ----- The transport -----

  lemma SentOnViewOk(v: View, w: View)
    requires ViewOk(v) && w == v.(queued := false)
    ensures ViewOk(w)
  {
  }

  lemma SendFailedViewOk(v: View, w: View)
    requires ViewOk(v) && v.queued && w == v.(queued := false, sendFailed := true, flight := w.flight)
    requires Live(v) ==> w.flight.None? && v.mail == NoMail
    ensures ViewOk(w)
  {
  }

  lemma WorkFailedKeepsInv(d: Device, up: seq<Frame>, down: seq<Response>, i: Ingress)
    requires PartsOk(d, up, down, i) && d.commands != []
    ensures PartsOk(SendFailed(Worked(d)), up, down, i)
  {
    SendFailedViewOk(ViewOf(d, up, down, i), ViewOf(SendFailed(Worked(d)), up, down, i));
  }

  lemma ConnectKeepsInv(d: Device, up: seq<Frame>, down: seq<Response>, i: Ingress)
    requires PartsOk(d, up, down, i) && d.commands != [] && d.commands[0] == Connect
    ensures PartsOk(Worked(d), up, down, i)
  {
    SentOnViewOk(ViewOf(d, up, down, i), ViewOf(Worked(d), up, down, i));
  }

  lemma SendKeepsInv(d: Device, up: seq<Frame>, down: seq<Response>, i: Ingress, f: Frame)
    requires PartsOk(d, up, down, i) && d.commands != [] && d.commands[0] == Send(f)
    ensures PartsOk(Worked(d), up + [f], down, i)
  {
    SentOnViewOk(ViewOf(d, up, down, i), ViewOf(Worked(d), up + [f], down, i));
  }

  // ----- The ingress -----

  /** The mail after one more response. */
  function Posted(m: Mail, r: Response): Mail {
    match m
    case NoMail => One(r)
    case One(first) => Two(first, r)
    case _ => TooMany
  }

  lemma MailPosted(rs: seq<Response>, down: seq<Response>, r: Response)
    ensures MailOf(rs + (down + [r])) == Posted(MailOf(rs + down), r)
  {
    assert rs + (down + [r]) == (rs + down) + [r];
  }

  lemma RefusedViewOk(v: View, w: View)
    requires ViewOk(v) && Live(v)
    requires w == v.(phase := Finished, mail := Posted(v.mail, Error(v.startAccepted)), flight := w.flight)
    ensures ViewOk(w)
  {
  }

  lemma RefuseKeepsInv(d: Device, up: seq<Frame>, down: seq<Response>, i: Ingress, up': seq<Frame>)
    requires PartsOk(d, up, down, i) && !i.phase.Finished?
    ensures PartsOk(d, up', down + [Error(i.startAccepted)], Retired(i, false))
  {
    MailPosted(d.responses, down, Error(i.startAccepted));
    RefusedViewOk(ViewOf(d, up, down, i), ViewOf(d, up', down + [Error(i.startAccepted)], Retired(i, false)));
  }

  lemma AcceptedStartViewOk(v: View, w: View)
    requires ViewOk(v) && v.flight == Some(StartFrame) && v.phase == AwaitStart && !v.queued
    requires w == v.(phase := Relaying, startAccepted := true, flight := None, mail := Posted(v.mail, Started))
    ensures ViewOk(w)
  {
  }

  lemma AcceptStartKeepsInv(d: Device, up: seq<Frame>, down: seq<Response>, i: Ingress)
    requires PartsOk(d, up, down, i) && up != [] && up[0] == StartFrame && i.phase == AwaitStart
    ensures PartsOk(d, up[1..], down + [Started], AcceptStart(i))
  {
    MailPosted(d.responses, down, Started);
    AcceptedStartViewOk(ViewOf(d, up, down, i), ViewOf(d, up[1..], down + [Started], AcceptStart(i)));
  }

  lemma StoredViewOk(v: View, w: View, b: Bytes)
    requires ViewOk(v) && v.flight == Some(Binary(b)) && v.phase == Relaying && !v.queued
    requires w == v.(stored := v.stored + b, routed := w.routed, flight := None, mail := Posted(v.mail, ChunkReceived))
    requires v.startAccepted
    ensures ViewOk(w)
  {
    assert v.stored + b + [] == v.stored + b;
  }

  lemma StoreKeepsInv(d: Device, up: seq<Frame>, down: seq<Response>, i: Ingress, b: Bytes)
    requires PartsOk(d, up, down, i) && up != [] && up[0] == Binary(b) && i.phase == Relaying
    requires i.captureBytes + |b| <= MAX_CAPTURE_BYTES
    ensures PartsOk(d, up[1..], down + [ChunkReceived], Store(i, b))
  {
    MailPosted(d.responses, down, ChunkReceived);
    assert (i.chunks + [b])[..|i.chunks|] == i.chunks;
    StoredViewOk(ViewOf(d, up, down, i), ViewOf(d, up[1..], down + [ChunkReceived], Store(i, b)), b);
  }

  lemma FlushBegunViewOk(v: View, w: View)
    requires ViewOk(v) && v.flight == Some(EndFrame) && v.phase == Relaying
    requires w == v.(phase := Flushing(0), flight := None)
    ensures ViewOk(w)
  {
  }

  lemma BeginFlushKeepsInv(d: Device, up: seq<Frame>, down: seq<Response>, i: Ingress)
    requires PartsOk(d, up, down, i) && up != [] && up[0] == EndFrame && i.phase == Relaying
    ensures PartsOk(d, up[1..], down, BeginFlush(i))
  {
    FlushBegunViewOk(ViewOf(d, up, down, i), ViewOf(d, up[1..], down, BeginFlush(i)));
  }

  lemma ReceivedFits(d: Device, up: seq<Frame>, down: seq<Response>, i: Ingress)
    requires PartsOk(d, up, down, i) && up != [] && !i.phase.Finished?
    ensures match i.phase
            case AwaitStart => up[0] == StartFrame
            case Relaying =>
              up[0] == EndFrame || (up[0].Binary? && up[0].payload != [] && |up[0].payload| <= MAX_CHUNK_BYTES)
            case _ => false
  {
    var v := ViewOf(d, up, down, i);
    assert Fits(v, up[0]);
  }

  lemma FlushedOneViewOk(v: View, w: View, sent: nat)
    requires ViewOk(v) && v.phase.Flushing? && w == v.(phase := Flushing(sent), routed := w.routed)
    ensures ViewOk(w)
  {
  }

  lemma FlushOneKeepsInv(d: Device, up: seq<Frame>, down: seq<Response>, i: Ingress)
    requires PartsOk(d, up, down, i) && i.phase.Flushing? && i.phase.sent < |i.chunks|
    ensures PartsOk(d, up, down, FlushOne(i))
  {
    FlushedOneViewOk(ViewOf(d, up, down, i), ViewOf(d, up, down, FlushOne(i)), i.phase.sent + 1);
  }

  lemma ResultViewOk(v: View, w: View, verdict: Verdict)
    requires ViewOk(v) && v.phase.Flushing? && v.routed && v.startAccepted && !v.queued
    requires w == v.(phase := Finished, mail := Posted(v.mail, Result(verdict)))
    ensures ViewOk(w)
  {
  }

  lemma FlushEndKeepsInv(d: Device, up: seq<Frame>, down: seq<Response>, i: Ingress, verdict: Verdict)
    requires PartsOk(d, up, down, i) && i.phase.Flushing? && i.phase.sent == |i.chunks|
    ensures PartsOk(d, up, down + [Result(verdict)], Retired(i, false))
  {
    MailPosted(d.responses, down, Result(verdict));
    assert i.chunks[..|i.chunks|] == i.chunks;
    var v := ViewOf(d, up, down, i);
    ResultViewOk(v, ViewOf(d, up, down + [Result(verdict)], Retired(i, false)), verdict);
  }

  // ----- The channels -----

  lemma DeliverKeepsInv(d: Device, up: seq<Frame>, down: seq<Response>, i: Ingress)
    requires PartsOk(d, up, down, i) && down != []
    ensures |d.responses| < MAX_RESPONSE_QUEUE
    ensures PartsOk(WithMail(d, d.responses + [down[0]]), up, down[1..], i)
  {
    assert d.responses + down == (d.responses + [down[0]]) + down[1..];
    assert ViewOf(WithMail(d, d.responses + [down[0]]), up, down[1..], i) == ViewOf(d, up, down, i);
  }

  /** Losing the most recent mail. */
  predicate EarlierMail(m: Mail, n: Mail) {
    match m
    case NoMail => n == NoMail
    case One(_) => n == m || n == NoMail
    case Two(first, _) => n == m || n == One(first) || n == NoMail
    case TooMany => true
  }

  lemma LostViewOk(v: View, w: View)
    requires ViewOk(v) && EarlierMail(v.mail, w.mail)
    requires w == v.(phase := Finished, mail := w.mail, flight := w.flight)
    ensures ViewOk(w)
  {
  }

  lemma MailCut(rs: seq<Response>, down: seq<Response>, kept: nat)
    requires kept <= |down|
    ensures EarlierMail(MailOf(rs + down), MailOf(rs + down[..kept]))
  {
    assert rs + down[..kept] == (rs + down)[..|rs| + kept];
  }

  lemma LoseKeepsInv(d: Device, up: seq<Frame>, down: seq<Response>, i: Ingress, kept: nat)
    requires PartsOk(d, up, down, i) && kept <= |down|
    ensures PartsOk(d, [], down[..kept], Retired(i, false))
  {
    MailCut(d.responses, down, kept);
    LostViewOk(ViewOf(d, up, down, i), ViewOf(d, [], down[..kept], Retired(i, false)));
  }

  lemma UnpluggedKeepsInv(d: Device, up: seq<Frame>, down: seq<Response>, i: Ingress)
    requires PartsOk(d, up, down, i)
    ensures PartsOk(Unplugged(d), up, down, i)
  {
    assert ViewOf(Unplugged(d), up, down, i) == ViewOf(d, up, down, i);
  }

  lemma GarbledKeepsInv(d: Device, up: seq<Frame>, down: seq<Response>, i: Ingress)
    requires PartsOk(d, up, down, i)
    ensures PartsOk(Garbled(d), up, down, i)
  {
    assert ViewOf(Garbled(d), up, down, i) == ViewOf(d, up, down, i);
  }

  lemma ConnectedKeepsInv(d: Device, up: seq<Frame>, down: seq<Response>, i: Ingress)
    requires PartsOk(d, up, down, i) && Connect !in d.commands
    ensures PartsOk(NowConnected(d), up, down, i)
  {
    assert ViewOf(NowConnected(d), up, down, i) == ViewOf(d, up, down, i);
  }

  // ----- Every step, every run -----

  lemma ReceiveFirstKeepsInv(s: System, valid: bool)
    requires Inv(s) && s.up != [] && s.ingress.phase == AwaitStart && s.up[0] == StartFrame
    ensures Inv(Receive(s, valid))
  {
    if valid {
      AcceptStartKeepsInv(s.dev, s.up, s.down, s.ingress);
    } else {
      RefuseKeepsInv(s.dev, s.up, s.down, s.ingress, s.up[1..]);
    }
  }

  lemma ReceiveChunkKeepsInv(s: System, valid: bool)
    requires Inv(s) && s.up != [] && s.ingress.phase == Relaying
    requires s.up[0].Binary? && s.up[0].payload != [] && |s.up[0].payload| <= MAX_CHUNK_BYTES
    ensures Inv(Receive(s, valid))
  {
    if s.ingress.captureBytes + |s.up[0].payload| > MAX_CAPTURE_BYTES {
      RefuseKeepsInv(s.dev, s.up, s.down, s.ingress, s.up[1..]);
    } else {
      StoreKeepsInv(s.dev, s.up, s.down, s.ingress, s.up[0].payload);
    }
  }

  lemma ReceiveKeepsInv(s: System, valid: bool)
    requires Inv(s) && s.up != []
    ensures Inv(Receive(s, valid))
  {
    if s.ingress.phase.Finished? {
      assert PartsOk(s.dev, s.up[1..], s.down, s.ingress);
      return;
    }
    ReceivedFits(s.dev, s.up, s.down, s.ingress);
    if s.ingress.phase == AwaitStart {
      ReceiveFirstKeepsInv(s, valid);
    } else if s.up[0] == EndFrame {
      BeginFlushKeepsInv(s.dev, s.up, s.down, s.ingress);
    } else {
      ReceiveChunkKeepsInv(s, valid);
    }
  }

  lemma FlushKeepsInv(s: System, outcome: Option<Verdict>)
    requires Inv(s)
    ensures Inv(FlushStep(s, outcome))
  {
    if s.ingress.phase.Flushing? {
      if outcome.None? {
        RefuseKeepsInv(s.dev, s.up, s.down, s.ingress, s.up);
      } else if s.ingress.phase.sent < |s.ingress.chunks| {
        FlushOneKeepsInv(s.dev, s.up, s.down, s.ingress);
      } else {
        FlushEndKeepsInv(s.dev, s.up, s.down, s.ingress, outcome.value);
      }
    }
  }

  lemma WorkKeepsInv(s: System, ok: bool)
    requires Inv(s)
    ensures Inv(Work'(s, ok))
  {
    var d, up, down, i := s.dev, s.up, s.down, s.ingress;
    if d.commands == [] { return; }
    if !ok {
      WorkFailedKeepsInv(d, up, down, i);
      return;
    }
    match d.commands[0]
    case Connect => ConnectKeepsInv(d, up, down, i);
    case Send(f) => SendKeepsInv(d, up, down, i, f);
  }

  lemma LoseConnectionKeepsInv(s: System, kept: nat)
    requires Inv(s)
    ensures Inv(Step(s, LoseConnection(kept)))
  {
    var k := if kept <= |s.down| then kept else |s.down|;
    LoseKeepsInv(s.dev, s.up, s.down, s.ingress, k);
    UnpluggedKeepsInv(s.dev, [], s.down[..k], Retired(s.ingress, false));
  }

  lemma DeliverNextKeepsInv(s: System)
    requires Inv(s)
    ensures Inv(DeliverNext(s))
  {
    if s.down != [] { DeliverKeepsInv(s.dev, s.up, s.down, s.ingress); }
  }

  lemma StepKeepsInv(s: System, a: Action)
    requires Inv(s)
    ensures Inv(Step(s, a))
  {
    match a
    case DeviceLoop(t) => LoopKeepsInv(s.dev, s.up, s.down, s.ingress, t);
    case Hear(data) => HearKeepsInv(s.dev, s.up, s.down, s.ingress, data);
    case RequestEnd => EndRequestKeepsInv(s.dev, s.up, s.down, s.ingress);
    case Work(ok) => WorkKeepsInv(s, ok);
    case Connected => if Connect !in s.dev.commands { ConnectedKeepsInv(s.dev, s.up, s.down, s.ingress); }
    case Deliver => DeliverNextKeepsInv(s);
    case DeviceTrouble => GarbledKeepsInv(s.dev, s.up, s.down, s.ingress);
    case IngressReceive(valid) => if s.up != [] { ReceiveKeepsInv(s, valid); }
    case Flush(outcome) => FlushKeepsInv(s, outcome);
    case IngressTimeout =>
      if !s.ingress.phase.Finished? { RefuseKeepsInv(s.dev, s.up, s.down, s.ingress, s.up); }
    case PeerClosed => UnpluggedKeepsInv(s.dev, s.up, s.down, s.ingress);
    case LoseConnection(kept) => LoseConnectionKeepsInv(s, kept);
    case TransportClosed => CompleteKeepsInv(s.dev, s.up, s.down, s.ingress);
  }

  lemma {:induction false} RunKeepsInv(enrollment: bool, actions: seq<Action>)
    ensures Inv(Run(enrollment, actions))
  {
    if actions == [] {
      InitialInv(enrollment);
    } else {
      RunKeepsInv(enrollment, actions[..|actions|-1]);
      StepKeepsInv(Run(enrollment, actions[..|actions|-1]), actions[|actions|-1]);
    }
  }

  // ----- No frame goes missing unnoticed -----

  /** Without an overflow the ring has taken all that was offered. After one, no result is waited for any more and no
      success is reported. */
  ghost predicate HeardOk(d: Device) {
    && (!d.overflow ==> d.captured == d.offered)
    && (d.overflow ==> d.state != WaitResult && !d.accepted && OnAccepted !in d.callbacks)
    && (Running(d.state) ==> !d.accepted)
  }

  lemma TakeKeepsHeard(d: Device, data: Bytes)
    requires DeviceOk(d) && HeardOk(d) && d.captureActive
    ensures HeardOk(Take(d, data))
  {
  }

  lemma MissKeepsHeard(d: Device, data: Bytes)
    requires DeviceOk(d) && HeardOk(d) && d.captureActive
    ensures HeardOk(Miss(d, data))
  {
  }

  lemma MicrophoneKeepsHeard(d: Device, data: Bytes)
    requires DeviceOk(d) && HeardOk(d)
    ensures HeardOk(Microphone(d, data))
  {
    if !d.captureActive || data == [] || |data| > MAX_QUEUED_AUDIO_BYTES { return; }
    if |d.ring| + |data| > MAX_QUEUED_AUDIO_BYTES {
      MissKeepsHeard(d, data);
    } else {
      TakeKeepsHeard(d, data);
    }
  }

  /** What the claim looks at stays as it was, but for the state. */
  ghost predicate HeardAlike(d: Device, e: Device) {
    && e.overflow == d.overflow && e.captured == d.captured && e.offered == d.offered
    && e.accepted == d.accepted && e.callbacks == d.callbacks
  }

  lemma AlikeKeepsHeard(d: Device, e: Device)
    requires HeardOk(d) && HeardAlike(d, e) && Running(d.state)
    requires e.state == WaitResult ==> !d.overflow
    ensures HeardOk(e)
  {
  }

  lemma FinishKeepsHeard(d: Device, accepted: bool, rejected: bool)
    requires HeardOk(d) && (accepted ==> !d.overflow)
    ensures HeardOk(Finish(d, accepted, rejected))
  {
  }

  lemma StartedKeepsHeard(d: Device)
    requires HeardOk(d) && d.state == WaitStarted
    ensures HeardOk(HandleResponse(d, Started))
  {
    AlikeKeepsHeard(d, StartAcked(d));
  }

  lemma ChunkAckKeepsHeard(d: Device)
    requires HeardOk(d) && d.state == WaitChunkAck
    ensures HeardOk(HandleResponse(d, ChunkReceived))
  {
    AlikeKeepsHeard(d, ChunkAcked(d));
  }

  lemma ResultKeepsHeard(d: Device, verdict: Verdict)
    requires HeardOk(d) && d.state == WaitResult
    ensures HeardOk(HandleResponse(d, Result(verdict)))
  {
    FinishKeepsHeard(d, verdict == AcceptedVerdict, verdict == RejectedVerdict);
  }

  lemma ComplaintKeepsHeard(d: Device)
    requires HeardOk(d) && Running(d.state)
    ensures HeardOk(Finish(Complained(d), false, false))
  {
    AlikeKeepsHeard(d, Complained(d));
    FinishKeepsHeard(Complained(d), false, false);
  }

  lemma HandleKeepsHeard(d: Device, r: Response)
    requires HeardOk(d) && Running(d.state)
    ensures HeardOk(HandleResponse(d, r))
  {
    FinishKeepsHeard(d, false, false);
    ComplaintKeepsHeard(d);
    if r == Started && d.state == WaitStarted {
      StartedKeepsHeard(d);
    } else if r == ChunkReceived && d.state == WaitChunkAck {
      ChunkAckKeepsHeard(d);
    } else if r.Result? && d.state == WaitResult {
      ResultKeepsHeard(d, r.verdict);
    } else {
      assert HandleResponse(d, r) == if r == Error(true) then Finish(d, false, false)
                                     else Finish(Complained(d), false, false);
    }
  }

  lemma {:induction false} DrainKeepsHeard(d: Device, responses: seq<Response>)
    requires HeardOk(d) && (Running(d.state) || d.state == Closing)
    ensures HeardOk(Drain(d, responses))
    decreases |responses|
  {
    if responses != [] && d.state != Closing {
      HandleKeepsHeard(d, responses[0]);
      DrainKeepsHeard(HandleResponse(d, responses[0]), responses[1..]);
    }
  }

  lemma SendStartKeepsHeard(d: Device)
    requires HeardOk(d) && Running(d.state)
    ensures HeardOk(SendStart(d))
  {
    AlikeKeepsHeard(d, SendStart(d));
  }

  lemma AfterResponsesKeepsHeard(d: Device, t: Tick)
    requires HeardOk(d) && Offers(d, t)
    ensures HeardOk(AfterResponses(d, t))
  {
    if d.state == Closing || d.state == Idle { return; }
    if Troubled(d, t) {
      FinishKeepsHeard(d, false, false);
      return;
    }
    if d.state == Connecting {
      if d.connected && t.queueWorks && |d.commands| < MAX_TRANSPORT_COMMANDS { SendStartKeepsHeard(d); }
      return;
    }
    if Waiting(d.state) {
      if t.ackTimedOut { FinishKeepsHeard(d, false, false); }
      return;
    }
    StreamNextKeepsHeard(d, t);
  }

  lemma TakenHeardAlike(d: Device, n: nat)
    requires n <= |d.ring|
    ensures HeardAlike(d, TakeChunk(d, n)) && TakeChunk(d, n).state == WaitChunkAck
  {
  }

  lemma QueuedHeardAlike(d: Device, f: Frame)
    ensures HeardAlike(d, Queue(d, f)) && Queue(d, f).state == d.state
  {
  }

  lemma FailedHeardAlike(d: Device)
    ensures HeardAlike(d, SendFailed(d)) && SendFailed(d).state == d.state
  {
  }

  lemma ChunkHeardAlike(d: Device, n: nat, queueWorks: bool)
    requires n <= |d.ring|
    ensures HeardAlike(d, SendChunk(d, n, queueWorks)) && SendChunk(d, n, queueWorks).state == WaitChunkAck
  {
    TakenHeardAlike(d, n);
    QueuedHeardAlike(TakeChunk(d, n), Binary(d.ring[..n]));
    FailedHeardAlike(TakeChunk(d, n));
  }

  lemma StreamNextKeepsHeard(d: Device, t: Tick)
    requires HeardOk(d) && Offers(d, t) && d.state == Streaming && !d.overflow
    ensures HeardOk(StreamNext(d, t))
  {
    if t.busy || |d.commands| >= MAX_TRANSPORT_COMMANDS { return; }
    if t.available > 0 {
      if d.enrollment && t.available >= 2 && t.vadEnds {
        ChunkHeardAlike(EndRequest(d), t.available, t.queueWorks);
        AlikeKeepsHeard(d, SendChunk(EndRequest(d), t.available, t.queueWorks));
      } else {
        ChunkHeardAlike(d, t.available, t.queueWorks);
        AlikeKeepsHeard(d, SendChunk(d, t.available, t.queueWorks));
      }
      return;
    }
    if d.endRequested && t.queueWorks { AlikeKeepsHeard(d, SendEnd(d)); }
  }

  lemma LoopKeepsHeard(d: Device, t: Tick)
    requires HeardOk(d)
    ensures HeardOk(Loop(d, t))
  {
    if d.state == Idle || d.state == Closing { return; }
    DrainKeepsHeard(WithMail(d, []), d.responses);
    var e := Drain(WithMail(d, []), d.responses);
    if Offers(e, t) { AfterResponsesKeepsHeard(e, t); }
  }

  lemma CompleteKeepsHeard(d: Device)
    requires DeviceOk(d) && HeardOk(d)
    ensures HeardOk(CompleteFinish(d))
  {
  }

  lemma SameStateKeepsHeard(d: Device, e: Device)
    requires HeardOk(d) && HeardAlike(d, e) && e.state == d.state
    ensures HeardOk(e)
  {
  }

  lemma WorkHeardAlike(s: System, ok: bool)
    ensures HeardAlike(s.dev, Work'(s, ok).dev) && Work'(s, ok).dev.state == s.dev.state
  {
    if s.dev.commands == [] { return; }
    WorkedHeardAlike(s.dev);
    if !ok {
      FailedHeardAlike(Worked(s.dev));
      assert Work'(s, ok).dev == SendFailed(Worked(s.dev));
    } else {
      assert Work'(s, ok).dev == Worked(s.dev);
    }
  }

  lemma WorkedHeardAlike(d: Device)
    requires d.commands != []
    ensures HeardAlike(d, Worked(d)) && Worked(d).state == d.state
  {
  }

  lemma DeliverHeardAlike(s: System)
    ensures HeardAlike(s.dev, DeliverNext(s).dev) && DeliverNext(s).dev.state == s.dev.state
  {
    if s.down == [] { return; }
    if |s.dev.responses| >= MAX_RESPONSE_QUEUE {
      GarbledHeardAlike(s.dev);
      assert DeliverNext(s).dev == Garbled(s.dev);
    } else {
      MailHeardAlike(s.dev, s.dev.responses + [s.down[0]]);
      assert DeliverNext(s).dev == WithMail(s.dev, s.dev.responses + [s.down[0]]);
    }
  }

  lemma GarbledHeardAlike(d: Device)
    ensures HeardAlike(d, Garbled(d)) && Garbled(d).state == d.state
  {
  }

  lemma MailHeardAlike(d: Device, mail: seq<Response>)
    ensures HeardAlike(d, WithMail(d, mail)) && WithMail(d, mail).state == d.state
  {
  }

  lemma IngressLeavesDevice(s: System, a: Action)
    requires a.IngressReceive? || a.Flush? || a.IngressTimeout?
    ensures Step(s, a).dev == s.dev
  {
    if a.IngressReceive? && s.up != [] { ReceiveLeavesDevice(s, a.valid); }
  }

  lemma OtherStepsKeepHeard(s: System, a: Action)
    requires !a.DeviceLoop? && !a.Hear? && !a.TransportClosed?
    ensures HeardAlike(s.dev, Step(s, a).dev) && Step(s, a).dev.state == s.dev.state
  {
    if a.Work? {
      WorkHeardAlike(s, a.ok);
    } else if a.Deliver? {
      DeliverHeardAlike(s);
    } else if a.IngressReceive? || a.Flush? || a.IngressTimeout? {
      IngressLeavesDevice(s, a);
    } else {
      FlagsHeardAlike(s, a);
    }
  }

  lemma FlagsHeardAlike(s: System, a: Action)
    requires a.RequestEnd? || a.Connected? || a.DeviceTrouble? || a.PeerClosed? || a.LoseConnection?
    ensures HeardAlike(s.dev, Step(s, a).dev) && Step(s, a).dev.state == s.dev.state
  {
    if a.RequestEnd? { return; }
    if a.Connected? { return; }
    if a.DeviceTrouble? { return; }
    if a.PeerClosed? { return; }
  }

  lemma ReceiveLeavesDevice(s: System, valid: bool)
    requires s.up != []
    ensures Receive(s, valid).dev == s.dev
  {
  }

  lemma StepKeepsHeard(s: System, a: Action)
    requires Inv(s) && HeardOk(s.dev)
    ensures HeardOk(Step(s, a).dev)
  {
    if a.DeviceLoop? {
      LoopKeepsHeard(s.dev, a.t);
    } else if a.Hear? {
      MicrophoneKeepsHeard(s.dev, a.data);
    } else if a.TransportClosed? {
      CompleteKeepsHeard(s.dev);
    } else {
      OtherStepsKeepHeard(s, a);
      SameStateKeepsHeard(s.dev, Step(s, a).dev);
    }
  }

  lemma {:induction false} RunKeepsHeard(enrollment: bool, actions: seq<Action>)
    ensures HeardOk(Run(enrollment, actions).dev)
  {
    if actions != [] {
      var before := Run(enrollment, actions[..|actions|-1]);
      RunKeepsHeard(enrollment, actions[..|actions|-1]);
      RunKeepsInv(enrollment, actions[..|actions|-1]);
      StepKeepsHeard(before, actions[|actions|-1]);
    }
  }

  // ----- What follows -----

  /** At most one chunk is unacknowledged, so neither the command queue nor the response queue can overflow. */
  lemma StopAndWait(enrollment: bool, actions: seq<Action>)
    ensures var s := Run(enrollment, actions);
            && s.dev.chunksSent - s.dev.chunksAcked <= 1
            && |s.dev.commands| < MAX_TRANSPORT_COMMANDS
            && |s.dev.responses| + |s.down| < MAX_RESPONSE_QUEUE
  {
    RunKeepsInv(enrollment, actions);
    var s := Run(enrollment, actions);
    assert |s.dev.responses + s.down| <= 2;
  }

  /** The ingress only ever holds a beginning of the captured audio, and at most a megabyte of it. While the stream is
      undisturbed, what it does not hold is on its way or still in the ring; without an overflow nothing the microphone
      offered is missing. */
  lemma IngressHoldsPrefix(enrollment: bool, actions: seq<Action>)
    ensures var s := Run(enrollment, actions);
            && Concat(s.ingress.chunks) <= s.dev.captured && |Concat(s.ingress.chunks)| <= MAX_CAPTURE_BYTES
            && (!s.dev.overflow ==> s.dev.captured == s.dev.offered)
            && (!s.ingress.phase.Finished? && Running(s.dev.state) && !s.dev.sendFailed ==>
                  Concat(s.ingress.chunks) + OnTheWay(ViewOf(s.dev, s.up, s.down, s.ingress)) + s.dev.ring ==
                    s.dev.captured)
  {
    RunKeepsInv(enrollment, actions);
    RunKeepsHeard(enrollment, actions);
  }

  /** When the device takes a capture as accepted, the router has been given exactly the audio the microphone offered
      while capturing, and nothing more will be; at most one outcome is ever reported. */
  lemma AcceptedMeansDelivered(enrollment: bool, actions: seq<Action>)
    ensures var s := Run(enrollment, actions);
            && (s.dev.accepted || OnAccepted in s.dev.callbacks ==>
                  Concat(s.ingress.router) == s.dev.offered && !s.dev.overflow && !s.dev.captureActive)
            && |s.dev.callbacks| <= 1
  {
    RunKeepsInv(enrollment, actions);
    RunKeepsHeard(enrollment, actions);
    var s := Run(enrollment, actions);
    if s.dev.accepted || OnAccepted in s.dev.callbacks {
      assert Delivered(ViewOf(s.dev, s.up, s.down, s.ingress));
      assert s.ingress.router == s.ingress.chunks;
    }
  }

  /** The ingress never receives a frame that does not fit its state; the device only does when its START was refused.
      */
  lemma FramesFitTheirReceiver(enrollment: bool, actions: seq<Action>)
    ensures var s := Run(enrollment, actions);
            !s.ingress.sawInvalid && (s.dev.sawInvalid ==> !s.ingress.startAccepted)
  {
    RunKeepsInv(enrollment, actions);
  }

  /** The running device takes its next response for invalid exactly if that is an error and the ingress has
      never accepted the START: such an error names no stream. */
  lemma InvalidExactlyWhenStartRefused(enrollment: bool, actions: seq<Action>)
    requires var s := Run(enrollment, actions);
             Running(s.dev.state) && !s.dev.sawInvalid && s.dev.responses != []
    ensures var s := Run(enrollment, actions);
            HandleResponse(s.dev, s.dev.responses[0]).sawInvalid <==>
              s.dev.responses[0].Error? && !s.ingress.startAccepted
  {
    RunKeepsInv(enrollment, actions);
    var s := Run(enrollment, actions);
    MailRest(s.dev.responses, s.down);
    var v := ViewOf(s.dev, s.up, s.down, s.ingress);
    assert Expected(v.state, v.mail.first) && TrafficOk(v);
  }

  lemma OneMoreStep(enrollment: bool, actions: seq<Action>, a: Action)
    ensures Run(enrollment, actions + [a]) == Step(Run(enrollment, actions), a)
  {
    assert (actions + [a])[..|actions|] == actions;
  }

  lemma RunOfConnected(tick: Tick) returns (actions: seq<Action>)
    requires tick == Tick(false, false, false, 0, false, true)
    ensures var s := Run(false, actions);
            s == System(NowConnected(Worked(NewDevice(false))), [], [], Initial(false).ingress)
  {
    actions := [] + [Work(true)] + [Connected];
    OneMoreStep(false, [], Work(true));
    OneMoreStep(false, [] + [Work(true)], Connected);
  }

  lemma LoopSendsStart(d: Device, tick: Tick)
    requires tick == Tick(false, false, false, 0, false, true) && d == NowConnected(Worked(NewDevice(false)))
    ensures Loop(d, tick) == SendStart(d)
  {
    assert WithMail(d, []) == d;
    assert Drain(d, []) == d;
    assert Offers(d, tick) && !Troubled(d, tick);
  }

  /** A run after which the START is on its way. */
  lemma StartOnItsWay() returns (actions: seq<Action>)
    ensures var s := Run(false, actions);
            && s.dev == Worked(SendStart(NowConnected(Worked(NewDevice(false)))))
            && s.up == [StartFrame] && s.down == [] && s.ingress == Initial(false).ingress
  {
    var tick := Tick(false, false, false, 0, false, true);
    actions := RunOfConnected(tick);
    var d := NowConnected(Worked(NewDevice(false)));
    LoopSendsStart(d, tick);
    OneMoreStep(false, actions, DeviceLoop(tick));
    actions := actions + [DeviceLoop(tick)];
    OneMoreStep(false, actions, Work(true));
    actions := actions + [Work(true)];
  }

  /** A run after which the device waits for STARTED and is about to handle a refusal instead. */
  lemma RefusalReachesDevice() returns (actions: seq<Action>)
    ensures var d := Run(false, actions).dev;
            Running(d.state) && !d.sawInvalid && d.responses == [Error(false)]
  {
    actions := StartOnItsWay();
    OneMoreStep(false, actions, IngressReceive(false));
    actions := actions + [IngressReceive(false)];
    OneMoreStep(false, actions, Deliver);
    actions := actions + [Deliver];
  }

  /** So the claim that no side ever sees an invalid frame fails for a refused START. */
  lemma RefusedStartLooksInvalid()
    ensures exists actions: seq<Action> ::
              var d := Run(false, actions).dev;
              Running(d.state) && d.responses != [] && !d.sawInvalid && HandleResponse(d, d.responses[0]).sawInvalid
  {
    var actions := RefusalReachesDevice();
    var d := Run(false, actions).dev;
    assert HandleResponse(d, d.responses[0]).sawInvalid;
  }
}
