/** The registry of audio streams. Calls on a stream take turns through its lock; a step below is
    what runs between two suspensions of the event loop. */
module StreamRegistry {
  import opened Wrappers

  type StreamId = string

  datatype Limits = Limits(maxActive: nat, maxStreamBytes: nat, maxChunkBytes: nat, closedCapacity: nat)

  /** An operation asked of the sink on behalf of a stream. */
  datatype Op = StartOp | ChunkOp(payload: Bytes) | EndOp

  /** What the sink sees of a stream: operations (by their position among the issued ones) and aborts. */
  datatype Event = Begun(n: nat) | AbortBegun(reason: string)

  /** One incarnation of a stream. Of its issued operations, `queue` wait for the lock and `holder` has it. The waiting
      calls in `cancelled` have been cancelled but have not come to run again yet; those in `overtaken` a later call
      has passed meanwhile. */
  datatype Stream = Stream(id: StreamId, byteCount: nat, issued: seq<Op>, queue: seq<nat>, holder: Option<nat>,
                           log: seq<Event>, succeeded: seq<nat>, cancelled: set<nat>, overtaken: set<nat>)

  /** An incarnation that has left the active streams. */
  datatype Departure = Departure(id: StreamId, k: nat)

  /** `active` and `closed` are the registry's own; `streams` are all incarnations ever started and
      `finished` those that have left `active`, in that order. */
  datatype Registry = Registry(active: map<StreamId, nat>, closed: seq<StreamId>, streams: seq<Stream>,
                               finished: seq<Departure>)

  datatype Reply = Accepted | Duplicate | Closed | Unknown | CapacityExceeded | StreamTooLarge | Ignored

  /** Steps of the system: the synchronous part of a call, a queued call getting its turn, a sink operation returning,
      a waiting call being cancelled, a call failing or its cancellation being delivered, and an abort by expiry,
      disconnection or shutdown. */
  datatype Action =
    | StartStream(id: StreamId)
    | SendChunk(id: StreamId, payload: Bytes)
    | EndStream(id: StreamId)
    | TakeTurn(k: nat)
    | Return(k: nat)
    | Cancel(k: nat, n: nat)
    | Fail(k: nat, n: nat)
    | Abort(k: nat, reason: string)

  predicate IsActive(r: Registry, k: nat) {
    k < |r.streams| && r.streams[k].id in r.active && r.active[r.streams[k].id] == k
  }

  /** The last n elements, or all if there are fewer. */
  function Last<T>(xs: seq<T>, n: nat): seq<T> {
    if |xs| <= n then xs else xs[|xs| - n..]
  }

  function Without(xs: seq<nat>, x: nat): (r: seq<nat>)
    ensures forall y :: y in r <==> y in xs && y != x
  {
    if xs == [] then []
    else
      assert xs == [xs[0]] + xs[1..];
      (if xs[0] == x then [] else [xs[0]]) + Without(xs[1..], x)
  }

  function Upto(a: nat, b: nat): (r: seq<nat>)
    requires a <= b
    ensures |r| == b - a && forall i :: 0 <= i < |r| ==> r[i] == a + i
  {
    seq(b - a, i requires 0 <= i < b - a => a + i)
  }

  function SizeOf(op: Op): nat {
    if op.ChunkOp? then |op.payload| else 0
  }

  function TotalBytes(ops: seq<Op>): nat {
    if ops == [] then 0 else TotalBytes(ops[..|ops|-1]) + SizeOf(ops[|ops|-1])
  }

  // ----- The steps as functions of the registry -----

  function Replace(r: Registry, k: nat, s: Stream): Registry
    requires k < |r.streams|
  {
    r.(streams := r.streams[k := s])
  }

  function NoteAbort(s: Stream, reason: string): Stream {
    s.(log := s.log + [AbortBegun(reason)])
  }

  function FinishStream(l: Limits, r: Registry, k: nat): Registry {
    if !IsActive(r, k) then r
    else
      var id := r.streams[k].id;
      var closed := if id in r.closed then r.closed else r.closed + [id];
      r.(active := r.active - {id}, closed := Last(closed, l.closedCapacity),
        finished := r.finished + [Departure(id, k)])
  }

  function AbortStream(l: Limits, r: Registry, k: nat, reason: string): Registry {
    if !IsActive(r, k) then r
    else
      var s := r.streams[k];
      Replace(FinishStream(l, r, k), k, NoteAbort(s, reason))
  }

  /** The call at the head of the queue gets the lock and begins its sink operation. */
  function BeginNext(s: Stream): Stream
    requires s.queue != []
  {
    s.(queue := s.queue[1..], holder := Some(s.queue[0]), log := s.log + [Begun(s.queue[0])])
  }

  function DropHead(s: Stream): Stream
    requires s.queue != []
  {
    s.(queue := s.queue[1..])
  }

  /** The stream accounts for the bytes of a chunk. */
  function Charge(s: Stream, bytes: nat): Stream {
    s.(byteCount := s.byteCount + bytes)
  }

  function Enqueue(s: Stream, op: Op): Stream {
    s.(issued := s.issued + [op], queue := s.queue + [|s.issued|])
  }

  /** Everybody who waits has been cancelled. */
  predicate OnlyCancelled(s: Stream) {
    forall n :: n in s.queue ==> n in s.cancelled
  }

  /** The lock goes to the new call: it is free, and all who wait for it are cancelled. */
  function Overtake(s: Stream, op: Op): Stream {
    s.(issued := s.issued + [op], holder := Some(|s.issued|), log := s.log + [Begun(|s.issued|)],
       overtaken := s.overtaken + set n | n in s.queue)
  }

  /** A new call: it begins at once if the lock is free and nobody waits but cancelled calls, else it waits. */
  function Arrive(s: Stream, op: Op): Stream {
    if s.holder.None? && OnlyCancelled(s) then Overtake(s, op) else Enqueue(s, op)
  }

  function NewStream(id: StreamId): Stream {
    Stream(id, 0, [], [], None, [], [], {}, {})
  }

  function StartStep(l: Limits, r: Registry, id: StreamId): (Registry, Reply) {
    if id in r.active then (r, Duplicate)
    else if id in r.closed then (r, Closed)
    else if |r.active| >= l.maxActive then (r, CapacityExceeded)
    else
      (WithStream(r, Arrive(NewStream(id), StartOp)), Accepted)
  }

  function WithStream(r: Registry, s: Stream): Registry {
    r.(active := r.active[s.id := |r.streams|], streams := r.streams + [s])
  }

  function Missing(r: Registry, id: StreamId): Reply {
    if id in r.closed then Closed else Unknown
  }

  function ChunkStep(l: Limits, r: Registry, id: StreamId, payload: Bytes): (Registry, Reply) {
    if id !in r.active || r.active[id] >= |r.streams| then (r, Missing(r, id))
    else
      var k := r.active[id];
      var s := r.streams[k];
      if |payload| > l.maxChunkBytes || s.byteCount + |payload| > l.maxStreamBytes then
        (AbortStream(l, r, k, "STREAM_TOO_LARGE"), StreamTooLarge)
      else
        (Replace(r, k, Arrive(Charge(s, |payload|), ChunkOp(payload))), Accepted)
  }

  function EndStep(r: Registry, id: StreamId): (Registry, Reply) {
    if id !in r.active || r.active[id] >= |r.streams| then (r, Missing(r, id))
    else (Replace(r, r.active[id], Arrive(r.streams[r.active[id]], EndOp)), Accepted)
  }

  /** The lock is free and the call at the head of the queue is not cancelled. */
  predicate CanTakeTurn(s: Stream) {
    s.holder.None? && s.queue != [] && s.queue[0] !in s.cancelled
  }

  function TurnStep(r: Registry, k: nat): (Registry, Reply) {
    if k >= |r.streams| || !CanTakeTurn(r.streams[k]) then (r, Ignored)
    else if IsActive(r, k) then (Replace(r, k, BeginNext(r.streams[k])), Accepted)
    else (Replace(r, k, DropHead(r.streams[k])), Closed)
  }

  function Succeed(s: Stream, n: nat): Stream {
    s.(holder := None, succeeded := s.succeeded + [n])
  }

  function ReturnStep(l: Limits, r: Registry, k: nat): (Registry, Reply) {
    if k >= |r.streams| || r.streams[k].holder.None? || r.streams[k].holder.value >= |r.streams[k].issued| then
      (r, Ignored)
    else
      var s := r.streams[k];
      var n := s.holder.value;
      var released := Replace(r, k, Succeed(s, n));
      (if s.issued[n].EndOp? then FinishStream(l, released, k) else released, Accepted)
  }

  function NoteCancel(s: Stream, n: nat): Stream {
    s.(cancelled := s.cancelled + {n})
  }

  /** Cancelling a waiting call takes it out of the way of newcomers, unless it has already been woken for its turn. */
  function CancelStep(r: Registry, k: nat, n: nat): (Registry, Reply) {
    if k >= |r.streams| || n !in r.streams[k].queue || (r.streams[k].holder.None? && r.streams[k].queue[0] == n) then
      (r, Ignored)
    else (Replace(r, k, NoteCancel(r.streams[k], n)), Accepted)
  }

  /** The call gives up the lock or its place in the queue. */
  function Withdraw(s: Stream, n: nat): Stream {
    s.(holder := if s.holder == Some(n) then None else s.holder, queue := Without(s.queue, n))
  }

  function FailStep(l: Limits, r: Registry, k: nat, n: nat): (Registry, Reply) {
    if k >= |r.streams| || (r.streams[k].holder != Some(n) && n !in r.streams[k].queue) then (r, Ignored)
    else
      (AbortStream(l, Replace(r, k, Withdraw(r.streams[k], n)), k, "stream_failed"), Accepted)
  }

  function Step(l: Limits, r: Registry, action: Action): (Registry, Reply) {
    match action
    case StartStream(id) => StartStep(l, r, id)
    case SendChunk(id, payload) => ChunkStep(l, r, id, payload)
    case EndStream(id) => EndStep(r, id)
    case TakeTurn(k) => TurnStep(r, k)
    case Return(k) => ReturnStep(l, r, k)
    case Cancel(k, n) => CancelStep(r, k, n)
    case Fail(k, n) => FailStep(l, r, k, n)
    case Abort(k, reason) => (AbortStream(l, r, k, reason), Accepted)
  }

  const Empty := Registry(map[], [], [], [])

  function Run(l: Limits, actions: seq<Action>): Registry {
    if actions == [] then Empty else Step(l, Run(l, actions[..|actions|-1]), actions[|actions|-1]).0
  }

  // ----- The invariant of one incarnation -----

  /** How many sink operations have begun. */
  function OpsBegun(s: Stream): nat {
    if s.log != [] && s.log[|s.log|-1].AbortBegun? then |s.log| - 1 else |s.log|
  }

  /** The number of the i-th operation the sink was asked for. */
  function BegunAt(s: Stream, i: nat): nat
    requires i < |s.log|
  {
    match s.log[i]
    case Begun(n) => n
    case AbortBegun(_) => 0
  }

  predicate HasBegun(s: Stream, n: nat) {
    Begun(n) in s.log
  }

  function LastBegun(s: Stream): nat
    requires 0 < OpsBegun(s)
  {
    BegunAt(s, OpsBegun(s) - 1)
  }

  /** The sink has seen start, then chunks, then possibly end, in the order they were issued, each begun only after the
      one before it succeeded; and after these at most one abort. */
  ghost predicate OrderlySink(s: Stream) {
    var b := OpsBegun(s);
    && 1 <= b && s.issued != []
    && s.issued[0].StartOp? && (forall i :: 0 < i < |s.issued| ==> !s.issued[i].StartOp?)
    && (forall i :: 0 <= i < b ==> s.log[i].Begun? && s.log[i].n < |s.issued|)
    && (forall i, j :: 0 <= i < j < b ==> s.log[i].n < s.log[j].n)
    && s.log[0].n == 0
    && (forall i :: 0 <= i < b - 1 ==> !s.issued[s.log[i].n].EndOp?)
    && b - 1 <= |s.succeeded| <= b && (forall i :: 0 <= i < |s.succeeded| ==> s.succeeded[i] == s.log[i].n)
  }

  /** Of the operations issued before the last one begun, exactly the overtaken have not begun. */
  ghost predicate GapsOvertaken(s: Stream)
    requires 0 < OpsBegun(s)
  {
    && (forall n :: 0 <= n < LastBegun(s) ==> (n in s.overtaken <==> !HasBegun(s, n)))
    && (forall n :: n in s.overtaken ==> n < LastBegun(s))
  }

  /** Calls wait in the order they came. Those that came before the last one begun are overtaken and cancelled; those
      that came after it all wait. */
  ghost predicate QueueOk(s: Stream)
    requires 0 < OpsBegun(s)
  {
    && (forall i, j :: 0 <= i < j < |s.queue| ==> s.queue[i] < s.queue[j])
    && (forall n :: LastBegun(s) < n < |s.issued| ==> n in s.queue)
    && (forall n :: n in s.overtaken ==> n in s.queue && n in s.cancelled)
  }

  ghost predicate ChunksFit(l: Limits, issued: seq<Op>) {
    forall i :: 0 <= i < |issued| && issued[i].ChunkOp? ==> |issued[i].payload| <= l.maxChunkBytes
  }

  ghost predicate StreamOk(l: Limits, s: Stream, active: bool) {
    && OrderlySink(s) && GapsOvertaken(s)
    && s.byteCount == TotalBytes(s.issued) <= l.maxStreamBytes && ChunksFit(l, s.issued)
    && (s.holder.Some? ==> s.holder.value == LastBegun(s) && |s.succeeded| == OpsBegun(s) - 1)
    && (forall n :: n in s.queue ==> n < |s.issued| && !HasBegun(s, n))
    && (active ==>
          && |s.log| == OpsBegun(s) && QueueOk(s)
          && (s.holder.None? ==> |s.succeeded| == OpsBegun(s) && !s.issued[LastBegun(s)].EndOp?))
  }

  ghost predicate Admissible(l: Limits, s: Stream, op: Op, bytes: nat) {
    && !op.StartOp? && bytes == SizeOf(op) && s.byteCount + bytes <= l.maxStreamBytes
    && (op.ChunkOp? ==> |op.payload| <= l.maxChunkBytes)
  }

  lemma IssuedMore(l: Limits, s: Stream, op: Op, bytes: nat)
    requires StreamOk(l, s, true) && Admissible(l, s, op, bytes)
    ensures TotalBytes(s.issued + [op]) == s.byteCount + bytes && ChunksFit(l, s.issued + [op])
  {
    assert (s.issued + [op])[..|s.issued|] == s.issued;
  }

  lemma EnqueueKeepsOk(l: Limits, s: Stream, op: Op, bytes: nat)
    requires StreamOk(l, s, true) && Admissible(l, s, op, bytes)
    ensures StreamOk(l, Enqueue(Charge(s, bytes), op), true)
  {
    var t := Enqueue(Charge(s, bytes), op);
    IssuedMore(l, s, op, bytes);
    assert OrderlySink(t);
    assert GapsOvertaken(t);
    QueueGrows(s, t);
  }

  lemma QueueGrows(s: Stream, t: Stream)
    requires 0 < OpsBegun(s) && QueueOk(s) && forall n :: n in s.queue ==> n < |s.issued|
    requires t.log == s.log && |t.issued| == |s.issued| + 1 && t.queue == s.queue + [|s.issued|]
    requires t.overtaken == s.overtaken && t.cancelled == s.cancelled
    ensures QueueOk(t)
  {
    forall i | 0 <= i < |s.queue| ensures t.queue[i] < |s.issued| && s.queue[i] in t.queue {
      assert s.queue[i] in s.queue;
      assert t.queue[i] == s.queue[i];
    }
    assert t.queue[|s.queue|] == |s.issued|;
    forall n | n in s.queue ensures n in t.queue {
      var i :| 0 <= i < |s.queue| && s.queue[i] == n;
    }
  }

  lemma BegunOneMore(s: Stream, t: Stream, n: nat)
    requires OrderlySink(s) && |s.log| == OpsBegun(s) && t.log == s.log + [Begun(n)]
    ensures OpsBegun(t) == OpsBegun(s) + 1 && LastBegun(t) == n
    ensures forall m :: HasBegun(t, m) <==> HasBegun(s, m) || m == n
  {
    assert t.log[|s.log|] == Begun(n);
    forall m ensures HasBegun(t, m) <==> HasBegun(s, m) || m == n {
      if HasBegun(s, m) {
        var i :| 0 <= i < |s.log| && s.log[i] == Begun(m);
        assert t.log[i] == Begun(m);
      }
    }
  }

  lemma BegunUptoLast(s: Stream, n: nat)
    requires OrderlySink(s) && HasBegun(s, n)
    ensures n <= LastBegun(s)
  {
    var i :| 0 <= i < |s.log| && s.log[i] == Begun(n);
  }

  lemma OvertakeKeepsOrder(l: Limits, s: Stream, op: Op, bytes: nat)
    requires StreamOk(l, s, true) && Admissible(l, s, op, bytes) && s.holder.None?
    ensures OrderlySink(Overtake(Charge(s, bytes), op))
  {
    BegunOneMore(s, Overtake(Charge(s, bytes), op), |s.issued|);
  }

  lemma OvertakeKeepsOk(l: Limits, s: Stream, op: Op, bytes: nat)
    requires StreamOk(l, s, true) && Admissible(l, s, op, bytes) && s.holder.None? && OnlyCancelled(s)
    ensures StreamOk(l, Overtake(Charge(s, bytes), op), true)
  {
    var t := Overtake(Charge(s, bytes), op);
    IssuedMore(l, s, op, bytes);
    BegunOneMore(s, t, |s.issued|);
    OvertakeKeepsOrder(l, s, op, bytes);
    forall n | 0 <= n < |s.issued| ensures n in t.overtaken <==> !HasBegun(t, n) {
      if HasBegun(s, n) { BegunUptoLast(s, n); }
    }
    assert GapsOvertaken(t);
    assert QueueOk(t);
  }

  lemma TurnKeepsOk(l: Limits, s: Stream)
    requires StreamOk(l, s, true) && CanTakeTurn(s)
    ensures StreamOk(l, BeginNext(s), true)
  {
    var t, n := BeginNext(s), s.queue[0];
    HeadIsNext(l, s);
    BegunOneMore(s, t, n);
    assert OrderlySink(t);
    assert GapsOvertaken(t);
    QueueShrinks(s, t);
  }

  lemma QueueShrinks(s: Stream, t: Stream)
    requires 0 < OpsBegun(s) && QueueOk(s) && s.queue != [] && s.overtaken == {}
    requires 0 < OpsBegun(t) && LastBegun(s) < LastBegun(t) == s.queue[0]
    requires t.queue == s.queue[1..] && t.issued == s.issued && t.overtaken == {}
    ensures QueueOk(t) && forall n :: n in t.queue ==> n in s.queue && n != s.queue[0]
  {
    forall m | s.queue[0] < m < |s.issued| ensures m in t.queue {
      assert m in s.queue;
      var i :| 0 <= i < |s.queue| && s.queue[i] == m;
      assert t.queue[i-1] == m;
    }
    forall n | n in t.queue ensures n in s.queue && n != s.queue[0] {
      var i :| 0 <= i < |t.queue| && t.queue[i] == n;
      assert s.queue[i+1] == n;
    }
  }

  /** A head that is not cancelled is the call after the last one begun, and nobody has been overtaken. */
  lemma HeadIsNext(l: Limits, s: Stream)
    requires StreamOk(l, s, true) && CanTakeTurn(s)
    ensures s.queue[0] == LastBegun(s) + 1 < |s.issued| && s.overtaken == {}
  {
    var n := s.queue[0];
    assert n in s.queue && n !in s.overtaken && !HasBegun(s, n);
    assert s.log[OpsBegun(s) - 1] == Begun(LastBegun(s));
    assert n > LastBegun(s);
    assert LastBegun(s) + 1 in s.queue;
    forall m | m in s.queue ensures m >= n {
      var i :| 0 <= i < |s.queue| && s.queue[i] == m;
    }
    assert forall m :: m !in s.overtaken;
  }

  lemma ArriveKeepsOk(l: Limits, s: Stream, op: Op, bytes: nat)
    requires StreamOk(l, s, true) && Admissible(l, s, op, bytes)
    ensures StreamOk(l, Arrive(Charge(s, bytes), op), true)
    ensures Arrive(Charge(s, bytes), op).id == s.id
  {
    if s.holder.None? && OnlyCancelled(s) {
      OvertakeKeepsOk(l, s, op, bytes);
    } else {
      EnqueueKeepsOk(l, s, op, bytes);
    }
  }

  lemma CancelKeepsOk(l: Limits, s: Stream, n: nat, active: bool)
    requires StreamOk(l, s, active)
    ensures StreamOk(l, NoteCancel(s, n), active)
  {
    var t := NoteCancel(s, n);
    assert OrderlySink(t);
    assert GapsOvertaken(t);
    assert active ==> QueueOk(t);
  }

  lemma ReturnKeepsOk(l: Limits, s: Stream, active: bool)
    requires StreamOk(l, s, active) && s.holder.Some?
    ensures StreamOk(l, Succeed(s, s.holder.value), active && !s.issued[s.holder.value].EndOp?)
  {
    var t := Succeed(s, s.holder.value);
    assert OrderlySink(t);
    assert GapsOvertaken(t);
    assert active ==> QueueOk(t);
  }

  /** What a call leaves behind that gives up its place. */
  ghost predicate FewerCalls(s: Stream, t: Stream) {
    && t == s.(holder := t.holder, queue := t.queue) && (t.holder == s.holder || t.holder == None)
    && forall n :: n in t.queue ==> n in s.queue
  }

  lemma AbortKeepsOk(l: Limits, s: Stream, t: Stream, reason: string)
    requires StreamOk(l, s, true) && FewerCalls(s, t)
    ensures StreamOk(l, NoteAbort(t, reason), false)
  {
    var u := NoteAbort(t, reason);
    assert OpsBegun(u) == OpsBegun(s);
    forall n ensures HasBegun(u, n) <==> HasBegun(s, n) {
      if HasBegun(s, n) {
        var i :| 0 <= i < |s.log| && s.log[i] == Begun(n);
        assert u.log[i] == Begun(n);
      }
    }
    assert OrderlySink(u);
    assert GapsOvertaken(u);
  }

  lemma LeaveKeepsOk(l: Limits, s: Stream, t: Stream)
    requires StreamOk(l, s, false) && FewerCalls(s, t)
    ensures StreamOk(l, t, false)
  {
    assert OrderlySink(t);
    assert GapsOvertaken(t);
  }

  // ----- The invariant of the registry -----

  function DepartedIds(left: seq<Departure>): (ids: seq<StreamId>)
    ensures |ids| == |left| && forall i :: 0 <= i < |ids| ==> ids[i] == left[i].id
  {
    seq(|left|, i requires 0 <= i < |left| => left[i].id)
  }

  /** The departed incarnations are the ones no longer active, each departed once. */
  ghost predicate Departed(r: Registry) {
    && (forall e :: e in r.finished ==> e.k < |r.streams| && r.streams[e.k].id == e.id && !IsActive(r, e.k))
    && (forall k: nat :: k < |r.streams| && !IsActive(r, k) ==> Departure(r.streams[k].id, k) in r.finished)
    && (forall i, j :: 0 <= i < j < |r.finished| ==> r.finished[i] != r.finished[j])
  }

  ghost predicate Bookkeeping(l: Limits, r: Registry) {
    && (forall id :: id in r.active ==> r.active[id] < |r.streams| && r.streams[r.active[id]].id == id)
    && |r.active| <= l.maxActive
    && Departed(r)
    && r.closed == Last(DepartedIds(r.finished), l.closedCapacity)
    && (forall id :: id in r.closed ==> id !in r.active)
  }

  ghost predicate Inv(l: Limits, r: Registry) {
    && Bookkeeping(l, r)
    && forall k: nat :: k < |r.streams| ==> StreamOk(l, r.streams[k], IsActive(r, k))
  }

  lemma SameIdsSameBooks(l: Limits, r: Registry, q: Registry)
    requires Bookkeeping(l, r)
    requires q.active == r.active && q.closed == r.closed && q.finished == r.finished && |q.streams| == |r.streams|
    requires forall j :: 0 <= j < |r.streams| ==> q.streams[j].id == r.streams[j].id
    ensures Bookkeeping(l, q)
    ensures forall k: nat :: k < |r.streams| ==> (IsActive(q, k) <==> IsActive(r, k))
  {
  }

  lemma ClosedShifts(finished: seq<Departure>, e: Departure, n: nat)
    ensures Last(Last(DepartedIds(finished), n) + [e.id], n) == Last(DepartedIds(finished + [e]), n)
  {
    assert DepartedIds(finished + [e]) == DepartedIds(finished) + [e.id];
    LastOneMore(DepartedIds(finished), e.id, n);
  }

  lemma LastOneMore<T>(xs: seq<T>, x: T, n: nat)
    ensures Last(Last(xs, n) + [x], n) == Last(xs + [x], n)
  {
    if |xs| > n {
      assert xs + [x] == xs[..|xs|-n] + (xs[|xs|-n..] + [x]);
    }
  }

  lemma {:induction false} SubsetSmaller<T>(a: set<T>, b: set<T>)
    requires a <= b
    ensures |a| <= |b|
  {
    if a != {} {
      var x :| x in a;
      SubsetSmaller(a - {x}, b - {x});
    }
  }

  lemma FinishDeparts(r: Registry, q: Registry, id: StreamId, k: nat)
    requires Departed(r) && IsActive(r, k) && id == r.streams[k].id
    requires q.streams == r.streams && q.active == r.active - {id} && q.finished == r.finished + [Departure(id, k)]
    requires forall x :: x in r.active ==> r.active[x] < |r.streams| && r.streams[r.active[x]].id == x
    ensures Departed(q)
    ensures forall j: nat :: j < |r.streams| ==> (IsActive(q, j) <==> IsActive(r, j) && j != k)
  {
    forall j: nat | j < |r.streams| ensures IsActive(q, j) <==> IsActive(r, j) && j != k {
      if r.streams[j].id == id && IsActive(r, j) { assert j == k; }
    }
    forall j: nat | j < |q.streams| && !IsActive(q, j) ensures Departure(q.streams[j].id, j) in q.finished {
      if j == k { assert q.finished[|r.finished|] == Departure(id, k); }
    }
  }

  lemma FinishKeepsBooks(l: Limits, r: Registry, k: nat)
    requires Bookkeeping(l, r) && IsActive(r, k)
    ensures Bookkeeping(l, FinishStream(l, r, k))
    ensures forall j: nat :: j < |r.streams| ==> (IsActive(FinishStream(l, r, k), j) <==> IsActive(r, j) && j != k)
  {
    var q := FinishStream(l, r, k);
    var id := r.streams[k].id;
    FinishDeparts(r, q, id, k);
    ClosedShifts(r.finished, Departure(id, k), l.closedCapacity);
    SubsetSmaller(q.active.Keys, r.active.Keys);
    forall x | x in q.closed ensures x !in q.active {
      assert x in r.closed || x == id;
    }
  }

  /** Replacing one incarnation by one that is still in order keeps the invariant. */
  lemma ReplaceKeepsInv(l: Limits, r: Registry, k: nat, s: Stream)
    requires Inv(l, r) && k < |r.streams| && s.id == r.streams[k].id && StreamOk(l, s, IsActive(r, k))
    ensures Inv(l, Replace(r, k, s))
  {
    SameIdsSameBooks(l, r, Replace(r, k, s));
  }

  lemma LeaveKeepsBooks(l: Limits, r: Registry, k: nat, s: Stream)
    requires Bookkeeping(l, r) && IsActive(r, k) && s.id == r.streams[k].id
    ensures FinishStream(l, r, k).streams == r.streams
    ensures Bookkeeping(l, Replace(FinishStream(l, r, k), k, s))
    ensures forall j: nat :: j < |r.streams| ==> (IsActive(FinishStream(l, r, k), j) <==> IsActive(r, j) && j != k)
    ensures forall j: nat :: j < |r.streams| ==>
              (IsActive(Replace(FinishStream(l, r, k), k, s), j) <==> IsActive(r, j) && j != k)
  {
    FinishKeepsBooks(l, r, k);
    SameIdsSameBooks(l, FinishStream(l, r, k), Replace(FinishStream(l, r, k), k, s));
  }

  /** Leaving the active streams with a sink log that is in order for a stream that has left. */
  lemma LeavingKeepsInv(l: Limits, r: Registry, k: nat, s: Stream)
    requires Inv(l, r) && IsActive(r, k) && s.id == r.streams[k].id && StreamOk(l, s, false)
    ensures Inv(l, Replace(FinishStream(l, r, k), k, s))
  {
    LeaveKeepsBooks(l, r, k, s);
    OthersStayOk(l, r, FinishStream(l, r, k), k, s);
  }

  lemma OthersStayOk(l: Limits, r: Registry, p: Registry, k: nat, s: Stream)
    requires p.streams == r.streams && k < |r.streams| && s.id == r.streams[k].id
    requires forall j: nat :: j < |r.streams| ==> StreamOk(l, r.streams[j], IsActive(r, j))
    requires forall j: nat :: j < |r.streams| ==> (IsActive(p, j) <==> IsActive(r, j) && j != k)
    requires StreamOk(l, s, false)
    ensures forall j: nat :: j < |r.streams| ==> StreamOk(l, Replace(p, k, s).streams[j], IsActive(Replace(p, k, s), j))
  {
    var q := Replace(p, k, s);
    forall j: nat | j < |r.streams| ensures StreamOk(l, q.streams[j], IsActive(q, j)) {
      assert IsActive(q, j) <==> IsActive(p, j);
      if j != k { assert StreamOk(l, r.streams[j], IsActive(r, j)); }
    }
  }

  lemma FinishCommutes(l: Limits, r: Registry, k: nat, s: Stream)
    requires k < |r.streams| && s.id == r.streams[k].id
    ensures IsActive(Replace(r, k, s), k) <==> IsActive(r, k)
    ensures FinishStream(l, Replace(r, k, s), k) == Replace(FinishStream(l, r, k), k, s)
  {
  }

  lemma ReplaceTwice(r: Registry, k: nat, s: Stream, t: Stream)
    requires k < |r.streams|
    ensures Replace(Replace(r, k, s), k, t) == Replace(r, k, t)
    ensures Replace(r, k, r.streams[k]) == r
  {
    assert r.streams[k := s][k := t] == r.streams[k := t];
    assert r.streams[k := r.streams[k]] == r.streams;
  }

  lemma AbortKeepsInv(l: Limits, r: Registry, k: nat, t: Stream, reason: string)
    requires Inv(l, r) && k < |r.streams|
    requires FewerCalls(r.streams[k], t)
    ensures Inv(l, AbortStream(l, Replace(r, k, t), k, reason))
  {
    FinishCommutes(l, r, k, t);
    if IsActive(r, k) {
      var s := NoteAbort(t, reason);
      AbortKeepsOk(l, r.streams[k], t, reason);
      ReplaceTwice(FinishStream(l, r, k), k, t, s);
      LeavingKeepsInv(l, r, k, s);
    } else {
      LeaveKeepsOk(l, r.streams[k], t);
      ReplaceKeepsInv(l, r, k, t);
    }
  }

  lemma AbortNowKeepsInv(l: Limits, r: Registry, k: nat, reason: string)
    requires Inv(l, r)
    ensures Inv(l, AbortStream(l, r, k, reason))
  {
    if k < |r.streams| {
      ReplaceTwice(r, k, r.streams[k], r.streams[k]);
      AbortKeepsInv(l, r, k, r.streams[k], reason);
    }
  }

  lemma FirstCallBegins(id: StreamId)
    ensures Arrive(NewStream(id), StartOp) == Stream(id, 0, [StartOp], [], Some(0), [Begun(0)], [], {}, {})
  {
    assert [] + [StartOp] == [StartOp] && [] + [Begun(0)] == [Begun(0)];
    assert OnlyCancelled(NewStream(id));
    assert (set n | n in NewStream(id).queue) == {};
  }

  lemma FirstStreamOk(l: Limits, id: StreamId)
    ensures Arrive(NewStream(id), StartOp).id == id && StreamOk(l, Arrive(NewStream(id), StartOp), true)
  {
    FirstCallBegins(id);
    OpenedOk(l, Stream(id, 0, [StartOp], [], Some(0), [Begun(0)], [], {}, {}));
  }

  lemma OpenedOk(l: Limits, s: Stream)
    requires s.byteCount == 0 && s.issued == [StartOp] && s.queue == [] && s.holder == Some(0)
    requires s.log == [Begun(0)] && s.succeeded == [] && s.overtaken == {}
    ensures StreamOk(l, s, true)
  {
    assert s.issued[..0] == [];
    assert OrderlySink(s);
    assert GapsOvertaken(s) && QueueOk(s);
  }

  lemma NewStreamKeepsBooks(l: Limits, r: Registry, s: Stream)
    requires Bookkeeping(l, r) && s.id !in r.active && s.id !in r.closed && |r.active| < l.maxActive
    ensures Bookkeeping(l, WithStream(r, s)) && IsActive(WithStream(r, s), |r.streams|)
    ensures forall k: nat :: k < |r.streams| ==> (IsActive(WithStream(r, s), k) <==> IsActive(r, k))
  {
    var q := WithStream(r, s);
    NewStreamKeepsActive(l, r, s);
    assert q.active.Keys == r.active.Keys + {s.id};
    assert Departed(q);
  }

  lemma NewStreamKeepsActive(l: Limits, r: Registry, s: Stream)
    requires Bookkeeping(l, r) && s.id !in r.active
    ensures forall k: nat :: k < |r.streams| ==> (IsActive(WithStream(r, s), k) <==> IsActive(r, k))
  {
  }

  lemma NewStreamKeepsInv(l: Limits, r: Registry, s: Stream)
    requires Inv(l, r) && s.id !in r.active && s.id !in r.closed && |r.active| < l.maxActive && StreamOk(l, s, true)
    ensures Inv(l, WithStream(r, s))
  {
    NewStreamKeepsBooks(l, r, s);
    var q := WithStream(r, s);
    forall k: nat | k < |q.streams| ensures StreamOk(l, q.streams[k], IsActive(q, k)) {
      if k < |r.streams| {
        assert q.streams[k] == r.streams[k];
      } else {
        assert q.streams[k] == s;
      }
    }
  }

  lemma StartAddsStream(l: Limits, r: Registry, id: StreamId)
    requires id !in r.active && id !in r.closed && |r.active| < l.maxActive
    ensures StartStep(l, r, id) == (WithStream(r, Arrive(NewStream(id), StartOp)), Accepted)
  {
  }

  lemma StartKeepsInv(l: Limits, r: Registry, id: StreamId)
    requires Inv(l, r)
    ensures Inv(l, StartStep(l, r, id).0)
  {
    if id !in r.active && id !in r.closed && |r.active| < l.maxActive {
      FirstStreamOk(l, id);
      NewStreamKeepsInv(l, r, Arrive(NewStream(id), StartOp));
      StartAddsStream(l, r, id);
    }
  }

  lemma ChunkKeepsInv(l: Limits, r: Registry, id: StreamId, payload: Bytes)
    requires Inv(l, r)
    ensures Inv(l, ChunkStep(l, r, id, payload).0)
  {
    if id in r.active {
      var k := r.active[id];
      var s := r.streams[k];
      if ChunkStep(l, r, id, payload).1 == StreamTooLarge {
        AbortNowKeepsInv(l, r, k, "STREAM_TOO_LARGE");
      } else {
        assert Admissible(l, s, ChunkOp(payload), |payload|);
        ArriveKeepsOk(l, s, ChunkOp(payload), |payload|);
        ReplaceKeepsInv(l, r, k, Arrive(Charge(s, |payload|), ChunkOp(payload)));
      }
    }
  }

  lemma EndKeepsInv(l: Limits, r: Registry, id: StreamId)
    requires Inv(l, r)
    ensures Inv(l, EndStep(r, id).0)
  {
    if id in r.active {
      var k := r.active[id];
      var s := r.streams[k];
      assert Admissible(l, s, EndOp, 0);
      assert s == Charge(s, 0);
      ArriveKeepsOk(l, s, EndOp, 0);
      ReplaceKeepsInv(l, r, k, Arrive(s, EndOp));
    }
  }

  lemma TurnKeepsInv(l: Limits, r: Registry, k: nat)
    requires Inv(l, r)
    ensures Inv(l, TurnStep(r, k).0)
  {
    var (q, reply) := TurnStep(r, k);
    if reply != Ignored {
      var s := r.streams[k];
      if IsActive(r, k) {
        TurnKeepsOk(l, s);
        ReplaceKeepsInv(l, r, k, BeginNext(s));
      } else {
        LeaveKeepsOk(l, s, DropHead(s));
        ReplaceKeepsInv(l, r, k, DropHead(s));
      }
    }
  }

  lemma ReturnKeepsInv(l: Limits, r: Registry, k: nat)
    requires Inv(l, r)
    ensures Inv(l, ReturnStep(l, r, k).0)
  {
    var (q, reply) := ReturnStep(l, r, k);
    if reply != Ignored {
      var s := r.streams[k];
      var t := Succeed(s, s.holder.value);
      ReturnKeepsOk(l, s, IsActive(r, k));
      if s.issued[s.holder.value].EndOp? && IsActive(r, k) {
        FinishCommutes(l, r, k, t);
        LeavingKeepsInv(l, r, k, t);
      } else {
        FinishCommutes(l, r, k, t);
        ReplaceKeepsInv(l, r, k, t);
      }
    }
  }

  lemma FailKeepsInv(l: Limits, r: Registry, k: nat, n: nat)
    requires Inv(l, r)
    ensures Inv(l, FailStep(l, r, k, n).0)
  {
    var (q, reply) := FailStep(l, r, k, n);
    if reply != Ignored {
      AbortKeepsInv(l, r, k, Withdraw(r.streams[k], n), "stream_failed");
    }
  }

  lemma CancelKeepsInv(l: Limits, r: Registry, k: nat, n: nat)
    requires Inv(l, r)
    ensures Inv(l, CancelStep(r, k, n).0)
  {
    if CancelStep(r, k, n).1 != Ignored {
      CancelKeepsOk(l, r.streams[k], n, IsActive(r, k));
      ReplaceKeepsInv(l, r, k, NoteCancel(r.streams[k], n));
    }
  }

  /** Every step keeps the invariant. */
  lemma StepKeepsInv(l: Limits, r: Registry, action: Action)
    requires Inv(l, r)
    ensures Inv(l, Step(l, r, action).0)
  {
    match action
    case StartStream(id) => StartKeepsInv(l, r, id);
    case SendChunk(id, payload) => ChunkKeepsInv(l, r, id, payload);
    case EndStream(id) => EndKeepsInv(l, r, id);
    case TakeTurn(k) => TurnKeepsInv(l, r, k);
    case Return(k) => ReturnKeepsInv(l, r, k);
    case Cancel(k, n) => CancelKeepsInv(l, r, k, n);
    case Fail(k, n) => FailKeepsInv(l, r, k, n);
    case Abort(k, reason) => AbortNowKeepsInv(l, r, k, reason);
  }

  /** Every reachable registry satisfies the invariant. */
  lemma {:induction false} RunKeepsInv(l: Limits, actions: seq<Action>)
    ensures Inv(l, Run(l, actions))
  {
    if actions != [] {
      RunKeepsInv(l, actions[..|actions|-1]);
      StepKeepsInv(l, Run(l, actions[..|actions|-1]), actions[|actions|-1]);
    }
  }

  // ----- What follows for the sink -----

  ghost predicate AbortedOnce(before: seq<Event>, after: seq<Event>) {
    |after| == |before| + 1 && after[..|before|] == before && after[|before|].AbortBegun?
  }

  /** The log as it was, or with one more operation begun. */
  ghost predicate BegunAtMostOne(before: seq<Event>, after: seq<Event>) {
    after == before || (|after| == |before| + 1 && after[..|before|] == before && after[|before|].Begun?)
  }

  /** What a step may do to what the sink hears of one incarnation. */
  ghost predicate LogStep(s: Stream, wasActive: bool, t: Stream, isActive: bool, ended: bool) {
    && t.id == s.id
    && (!wasActive ==> !isActive && t.log == s.log)
    && (wasActive && isActive ==> BegunAtMostOne(s.log, t.log))
    && (wasActive && !isActive ==> AbortedOnce(s.log, t.log) || (ended && t.log == s.log))
  }

  ghost predicate LogSteps(r: Registry, q: Registry, k: nat, ended: bool) {
    && k < |r.streams| <= |q.streams|
    && LogStep(r.streams[k], IsActive(r, k), q.streams[k], IsActive(q, k), ended)
  }

  lemma ReplaceLogs(l: Limits, r: Registry, j: nat, s: Stream, k: nat)
    requires Inv(l, r) && j < |r.streams| && k < |r.streams| && s.id == r.streams[j].id
    requires if IsActive(r, j) then BegunAtMostOne(r.streams[j].log, s.log) else s.log == r.streams[j].log
    ensures LogSteps(r, Replace(r, j, s), k, false)
  {
    SameIdsSameBooks(l, r, Replace(r, j, s));
  }

  lemma AbortLogs(l: Limits, r: Registry, j: nat, s: Stream, reason: string, k: nat)
    requires Inv(l, r) && j < |r.streams| && k < |r.streams| && s.id == r.streams[j].id && s.log == r.streams[j].log
    ensures LogSteps(r, AbortStream(l, Replace(r, j, s), j, reason), k, false)
    ensures !IsActive(AbortStream(l, Replace(r, j, s), j, reason), j)
  {
    FinishCommutes(l, r, j, s);
    if IsActive(r, j) {
      ReplaceTwice(FinishStream(l, r, j), j, s, NoteAbort(s, reason));
      LeavingLogs(l, r, j, NoteAbort(s, reason), k);
    } else {
      SameIdsSameBooks(l, r, Replace(r, j, s));
    }
  }

  lemma LeavingLogs(l: Limits, r: Registry, j: nat, t: Stream, k: nat)
    requires Bookkeeping(l, r) && IsActive(r, j) && k < |r.streams|
    requires t.id == r.streams[j].id && AbortedOnce(r.streams[j].log, t.log)
    ensures LogSteps(r, Replace(FinishStream(l, r, j), j, t), k, false)
    ensures !IsActive(Replace(FinishStream(l, r, j), j, t), j)
  {
    LeaveKeepsBooks(l, r, j, t);
    if k == j { return; }
  }

  lemma AbortNowLogs(l: Limits, r: Registry, j: nat, reason: string, k: nat)
    requires Inv(l, r) && k < |r.streams|
    ensures LogSteps(r, AbortStream(l, r, j, reason), k, false)
  {
    if j < |r.streams| {
      ReplaceTwice(r, j, r.streams[j], r.streams[j]);
      AbortLogs(l, r, j, r.streams[j], reason, k);
    }
  }

  lemma ReturnLogs(l: Limits, r: Registry, j: nat, k: nat)
    requires Inv(l, r) && j < |r.streams| && k < |r.streams|
    ensures LogSteps(r, ReturnStep(l, r, j).0, k, j == k && ReturnsEnd(r, j))
  {
    if ReturnStep(l, r, j).1 != Ignored {
      var s := r.streams[j];
      var p := Replace(r, j, Succeed(s, s.holder.value));
      SameIdsSameBooks(l, r, p);
      if s.issued[s.holder.value].EndOp? && IsActive(p, j) { FinishKeepsBooks(l, p, j); }
    }
  }

  /** The operation that holds the lock of incarnation k is its end. */
  predicate ReturnsEnd(r: Registry, k: nat) {
    k < |r.streams| && r.streams[k].holder.Some? &&
    r.streams[k].holder.value < |r.streams[k].issued| && r.streams[k].issued[r.streams[k].holder.value] == EndOp
  }

  lemma ArriveLogs(s: Stream, op: Op, bytes: nat)
    ensures var t := Arrive(Charge(s, bytes), op); t.id == s.id && BegunAtMostOne(s.log, t.log)
  {
  }

  /** One step begins at most one event for an incarnation; none once it has left, and what makes it
      leave is either an abort or the return of its end. */
  lemma StepExtendsLog(l: Limits, r: Registry, action: Action, k: nat)
    requires Inv(l, r) && k < |r.streams|
    ensures LogSteps(r, Step(l, r, action).0, k, action == Return(k) && ReturnsEnd(r, k))
  {
    match action
    case StartStream(id) => StartLogs(l, r, id, k);
    case SendChunk(id, payload) => ChunkLogs(l, r, id, payload, k);
    case EndStream(id) => EndLogs(l, r, id, k);
    case TakeTurn(j) => TurnLogs(l, r, j, k);
    case Return(j) => if j < |r.streams| { ReturnLogs(l, r, j, k); }
    case Cancel(j, n) => CancelLogs(l, r, j, n, k);
    case Fail(j, n) => FailLogs(l, r, j, n, k);
    case Abort(j, reason) => AbortNowLogs(l, r, j, reason, k);
  }

  lemma StartLogs(l: Limits, r: Registry, id: StreamId, k: nat)
    requires Inv(l, r) && k < |r.streams|
    ensures LogSteps(r, StartStep(l, r, id).0, k, false)
  {
    if StartStep(l, r, id).1 == Accepted {
      NewStreamKeepsBooks(l, r, Arrive(NewStream(id), StartOp));
    }
  }

  lemma ChunkLogs(l: Limits, r: Registry, id: StreamId, payload: Bytes, k: nat)
    requires Inv(l, r) && k < |r.streams|
    ensures LogSteps(r, ChunkStep(l, r, id, payload).0, k, false)
  {
    if id in r.active {
      var j := r.active[id];
      if ChunkStep(l, r, id, payload).1 == StreamTooLarge {
        AbortNowLogs(l, r, j, "STREAM_TOO_LARGE", k);
      } else {
        ArriveLogs(r.streams[j], ChunkOp(payload), |payload|);
        ReplaceLogs(l, r, j, Arrive(Charge(r.streams[j], |payload|), ChunkOp(payload)), k);
      }
    }
  }

  lemma EndLogs(l: Limits, r: Registry, id: StreamId, k: nat)
    requires Inv(l, r) && k < |r.streams|
    ensures LogSteps(r, EndStep(r, id).0, k, false)
  {
    if id in r.active {
      var j := r.active[id];
      assert r.streams[j] == Charge(r.streams[j], 0);
      ArriveLogs(r.streams[j], EndOp, 0);
      ReplaceLogs(l, r, j, Arrive(r.streams[j], EndOp), k);
    }
  }

  lemma FailLogs(l: Limits, r: Registry, j: nat, n: nat, k: nat)
    requires Inv(l, r) && k < |r.streams|
    ensures LogSteps(r, FailStep(l, r, j, n).0, k, false)
    ensures FailStep(l, r, j, n).1 != Ignored ==> !IsActive(FailStep(l, r, j, n).0, j)
  {
    if FailStep(l, r, j, n).1 != Ignored {
      AbortLogs(l, r, j, Withdraw(r.streams[j], n), "stream_failed", k);
    }
  }

  lemma CancelLogs(l: Limits, r: Registry, j: nat, n: nat, k: nat)
    requires Inv(l, r) && k < |r.streams|
    ensures LogSteps(r, CancelStep(r, j, n).0, k, false)
  {
    if CancelStep(r, j, n).1 != Ignored {
      ReplaceLogs(l, r, j, NoteCancel(r.streams[j], n), k);
    }
  }

  lemma TurnLogs(l: Limits, r: Registry, j: nat, k: nat)
    requires Inv(l, r) && k < |r.streams|
    ensures LogSteps(r, TurnStep(r, j).0, k, false)
  {
    if TurnStep(r, j).1 != Ignored {
      var s := r.streams[j];
      if IsActive(r, j) {
        ReplaceLogs(l, r, j, BeginNext(s), k);
      } else {
        ReplaceLogs(l, r, j, DropHead(s), k);
      }
    }
  }

  function RunFrom(l: Limits, r: Registry, actions: seq<Action>): Registry {
    if actions == [] then r else Step(l, RunFrom(l, r, actions[..|actions|-1]), actions[|actions|-1]).0
  }

  /** An incarnation that has left never becomes active again, and the sink never hears of it again. */
  lemma {:induction false} LeftForGood(l: Limits, r: Registry, actions: seq<Action>, k: nat)
    requires Inv(l, r) && k < |r.streams| && !IsActive(r, k)
    ensures var q := RunFrom(l, r, actions);
            Inv(l, q) && k < |q.streams| && !IsActive(q, k) && q.streams[k].log == r.streams[k].log
  {
    if actions != [] {
      var before := RunFrom(l, r, actions[..|actions|-1]);
      LeftForGood(l, r, actions[..|actions|-1], k);
      StepKeepsInv(l, before, actions[|actions|-1]);
      StepExtendsLog(l, before, actions[|actions|-1], k);
    }
  }

  /** A call that fails, times out or is cancelled takes its incarnation out of the active streams
      and has it aborted, in the same step. */
  lemma FailureAborts(l: Limits, r: Registry, k: nat, n: nat)
    requires Inv(l, r) && IsActive(r, k) && (r.streams[k].holder == Some(n) || n in r.streams[k].queue)
    ensures var q := FailStep(l, r, k, n).0;
            !IsActive(q, k) && |q.streams| == |r.streams| && AbortedOnce(r.streams[k].log, q.streams[k].log)
  {
    FailLogs(l, r, k, n, k);
    FailKeepsCount(l, r, k, n);
  }

  lemma FailKeepsCount(l: Limits, r: Registry, k: nat, n: nat)
    ensures |FailStep(l, r, k, n).0.streams| == |r.streams|
  {
  }

  function Payloads(ops: seq<Op>): Bytes {
    if ops == [] then []
    else Payloads(ops[..|ops|-1]) + (if ops[|ops|-1].ChunkOp? then ops[|ops|-1].payload else [])
  }

  /** The bytes the sink was handed, in the order it was handed them. */
  function Received(issued: seq<Op>, log: seq<Event>): Bytes {
    if log == [] then []
    else
      Received(issued, log[..|log|-1]) +
      match log[|log|-1]
      case AbortBegun(_) => []
      case Begun(n) => if n < |issued| && issued[n].ChunkOp? then issued[n].payload else []
  }

  /** The bytes of the first n operations, but for those that are skipped. */
  function PayloadsBut(issued: seq<Op>, n: nat, skipped: set<nat>): Bytes
    requires n <= |issued|
  {
    if n == 0 then []
    else
      PayloadsBut(issued, n - 1, skipped) +
      (if n - 1 !in skipped && issued[n-1].ChunkOp? then issued[n-1].payload else [])
  }

  lemma {:induction false} NothingSkipped(issued: seq<Op>, n: nat)
    requires n <= |issued|
    ensures PayloadsBut(issued, n, {}) == Payloads(issued[..n])
  {
    if n > 0 {
      NothingSkipped(issued, n - 1);
      assert issued[..n][..n-1] == issued[..n-1];
    }
  }

  lemma {:induction false} SkippingShortens(issued: seq<Op>, n: nat, skipped: set<nat>)
    requires n <= |issued|
    ensures |PayloadsBut(issued, n, skipped)| <= |PayloadsBut(issued, n, {})|
  {
    if n > 0 { SkippingShortens(issued, n - 1, skipped); }
  }

  /** The first i operations of the log are those begun among the first n issued. */
  ghost predicate LogUpto(s: Stream, i: nat, n: nat) {
    && i <= OpsBegun(s) && n <= |s.issued|
    && (forall j :: 0 <= j < i ==> BegunAt(s, j) < n)
    && (forall j :: i <= j < OpsBegun(s) ==> BegunAt(s, j) >= n)
  }

  lemma LogUptoOneLess(s: Stream, i: nat, n: nat)
    requires OrderlySink(s) && 0 < n && LogUpto(s, i, n)
    ensures HasBegun(s, n - 1) ==> 0 < i && s.log[i-1] == Begun(n - 1) && LogUpto(s, i - 1, n - 1)
    ensures !HasBegun(s, n - 1) ==> LogUpto(s, i, n - 1)
  {
    if HasBegun(s, n - 1) {
      var j :| 0 <= j < |s.log| && s.log[j] == Begun(n - 1);
      assert BegunAt(s, j) == n - 1;
      assert j < i;
      assert BegunAt(s, i - 1) < n;
    } else {
      forall j | 0 <= j < i ensures BegunAt(s, j) < n - 1 {
        assert s.log[j] in s.log;
      }
    }
  }

  /** One more operation begun among the first n: its bytes are received. */
  ghost predicate BegunStep(s: Stream, i: nat, n: nat) {
    && 0 < i <= |s.log| && 0 < n <= |s.issued| && s.log[i-1] == Begun(n - 1) && n - 1 !in s.overtaken
    && Received(s.issued, s.log[..i-1]) == PayloadsBut(s.issued, n - 1, s.overtaken)
  }

  lemma BegunStepReceived(s: Stream, i: nat, n: nat)
    requires BegunStep(s, i, n)
    ensures Received(s.issued, s.log[..i]) == PayloadsBut(s.issued, n, s.overtaken)
  {
    ReceivedOneMore(s.issued, s.log, i);
  }

  lemma NothingBefore(s: Stream, i: nat)
    requires LogUpto(s, i, 0)
    ensures i == 0 && Received(s.issued, s.log[..i]) == PayloadsBut(s.issued, 0, s.overtaken)
  {
    var first := if s.log != [] then BegunAt(s, 0) else 0;
    assert first >= 0;
  }

  lemma SkippedStep(s: Stream, n: nat)
    requires 0 < n <= |s.issued| && n - 1 in s.overtaken
    ensures PayloadsBut(s.issued, n, s.overtaken) == PayloadsBut(s.issued, n - 1, s.overtaken)
  {
  }

  ghost predicate ReceivedUpto(s: Stream, i: nat, n: nat)
    requires i <= |s.log| && n <= |s.issued|
  {
    Received(s.issued, s.log[..i]) == PayloadsBut(s.issued, n, s.overtaken)
  }

  /** Whether operation n - 1 was begun or overtaken, one operation less is accounted for before it. */
  lemma OneOperationLess(s: Stream, i: nat, n: nat) returns (k: nat)
    requires OrderlySink(s) && GapsOvertaken(s) && 0 < n <= LastBegun(s) + 1 && LogUpto(s, i, n)
    ensures LogUpto(s, k, n - 1) && (ReceivedUpto(s, k, n - 1) ==> ReceivedUpto(s, i, n))
  {
    LogUptoOneLess(s, i, n);
    OvertakenOrBegun(s, n - 1);
    if HasBegun(s, n - 1) {
      k := i - 1;
      if ReceivedUpto(s, k, n - 1) { BegunStepReceived(s, i, n); }
    } else {
      k := i;
      SkippedStep(s, n);
    }
  }

  lemma {:induction false} ReceivedInOrder(s: Stream, i: nat, n: nat)
    requires OrderlySink(s) && GapsOvertaken(s) && n <= LastBegun(s) + 1 && LogUpto(s, i, n)
    ensures ReceivedUpto(s, i, n)
    decreases n
  {
    if n == 0 {
      NothingBefore(s, i);
    } else {
      var k := OneOperationLess(s, i, n);
      ReceivedInOrder(s, k, n - 1);
    }
  }

  lemma OvertakenOrBegun(s: Stream, n: nat)
    requires OrderlySink(s) && GapsOvertaken(s) && n <= LastBegun(s)
    ensures n in s.overtaken <==> !HasBegun(s, n)
  {
    LastHasBegun(s);
  }

  lemma LastHasBegun(s: Stream)
    requires OrderlySink(s)
    ensures HasBegun(s, LastBegun(s))
  {
    assert s.log[OpsBegun(s) - 1] == Begun(LastBegun(s));
  }

  lemma ReceivedOneMore(issued: seq<Op>, log: seq<Event>, i: nat)
    requires 0 < i <= |log| && log[i-1].Begun? && log[i-1].n < |issued|
    ensures Received(issued, log[..i]) ==
            Received(issued, log[..i-1]) + if issued[log[i-1].n].ChunkOp? then issued[log[i-1].n].payload else []
  {
    assert log[..i][..i-1] == log[..i-1];
  }

  lemma {:induction false} PayloadSize(ops: seq<Op>)
    ensures |Payloads(ops)| == TotalBytes(ops)
  {
    if ops != [] { PayloadSize(ops[..|ops|-1]); }
  }

  lemma {:induction false} TotalGrows(ops: seq<Op>, n: nat)
    requires n <= |ops|
    ensures TotalBytes(ops[..n]) <= TotalBytes(ops)
    decreases |ops|
  {
    if n < |ops| {
      TotalGrows(ops[..|ops|-1], n);
      assert ops[..|ops|-1][..n] == ops[..n];
    } else {
      assert ops[..n] == ops;
    }
  }

  /** Exactly the operations issued before n have succeeded, in order. */
  ghost predicate AllSucceeded(s: Stream, n: nat) {
    s.succeeded == Upto(0, n)
  }

  /** When an end returns, the sink has been handed exactly the bytes of the chunks admitted before it, in order and
      within the limits, but for those overtaken; every operation issued before it has succeeded if and only if no call
      of the stream was ever admitted while the lock was free and only cancelled calls waited for it. */
  lemma EndDeliversEverything(l: Limits, actions: seq<Action>, k: nat)
    requires ReturnsEnd(Run(l, actions), k)
    ensures var s := Run(l, actions).streams[k];
            var n := s.holder.value;
            && Received(s.issued, s.log) == PayloadsBut(s.issued, n, s.overtaken)
            && |Received(s.issued, s.log)| <= l.maxStreamBytes && ChunksFit(l, s.issued)
            && (AllSucceeded(s, n) <==> !SomeCallPasses(l, actions, k))
            && (!SomeCallPasses(l, actions, k) ==> Received(s.issued, s.log) == Payloads(s.issued[..n]))
  {
    RunKeepsInv(l, actions);
    OvertakenExactlyIfPassed(l, actions, k);
    var s := Run(l, actions).streams[k];
    ReceivedAtEnd(l, s, IsActive(Run(l, actions), k));
    SucceededAtEnd(l, s, IsActive(Run(l, actions), k));
    NothingSkipped(s.issued, s.holder.value);
  }

  lemma ReceivedAtEnd(l: Limits, s: Stream, active: bool)
    requires StreamOk(l, s, active) && s.holder.Some? && s.issued[s.holder.value] == EndOp
    ensures Received(s.issued, s.log) == PayloadsBut(s.issued, s.holder.value, s.overtaken)
    ensures |Received(s.issued, s.log)| <= l.maxStreamBytes
  {
    var n, b := s.holder.value, OpsBegun(s);
    ReceivedInOrder(s, b, n + 1);
    AbortsAreNoBytes(s);
    SkippingShortens(s.issued, n, s.overtaken);
    NothingSkipped(s.issued, n);
    PayloadSize(s.issued[..n]);
    TotalGrows(s.issued, n);
  }

  lemma AbortsAreNoBytes(s: Stream)
    ensures Received(s.issued, s.log) == Received(s.issued, s.log[..OpsBegun(s)])
  {
    if |s.log| == OpsBegun(s) { assert s.log[..OpsBegun(s)] == s.log; }
  }

  lemma SucceededAtEnd(l: Limits, s: Stream, active: bool)
    requires StreamOk(l, s, active) && s.holder.Some?
    ensures AllSucceeded(s, s.holder.value) <==> s.overtaken == {}
  {
    var n, b := s.holder.value, OpsBegun(s);
    assert s.log[b-1] == Begun(n);
    if s.overtaken == {} {
      NoGaps(s, b - 1);
      forall i | 0 <= i < |s.succeeded| ensures s.succeeded[i] == i {
        NoGaps(s, i);
      }
      assert s.succeeded == Upto(0, n);
    }
    if AllSucceeded(s, n) {
      forall m | 0 <= m < n ensures HasBegun(s, m) {
        assert s.succeeded[m] == m;
        assert s.log[m] == Begun(m);
      }
      assert forall m :: m !in s.overtaken;
    }
  }

  lemma NextBegun(s: Stream, i: nat)
    requires OrderlySink(s) && 0 < i < OpsBegun(s) && s.log[i-1] == Begun(i - 1)
    ensures BegunAt(s, i) >= i && (HasBegun(s, i) ==> s.log[i] == Begun(i))
  {
    if HasBegun(s, i) {
      var j :| 0 <= j < |s.log| && s.log[j] == Begun(i);
      assert s.log[i-1].n < s.log[i].n;
      assert j >= i;
    }
  }

  /** Without gaps the i-th operation begun is operation i. */
  lemma {:induction false} NoGaps(s: Stream, i: nat)
    requires OrderlySink(s) && GapsOvertaken(s) && s.overtaken == {} && i < OpsBegun(s)
    ensures s.log[i] == Begun(i)
  {
    if i > 0 {
      NoGaps(s, i - 1);
      NextBegun(s, i);
      assert BegunAt(s, i) <= LastBegun(s);
      OvertakenOrBegun(s, i);
    }
  }

  /** Nobody but cancelled calls waits, and the lock is free: then, and only then, an arriving call passes waiting
      ones. */
  lemma OvertakesExactly(l: Limits, s: Stream, op: Op, bytes: nat)
    requires StreamOk(l, s, true)
    ensures Arrive(Charge(s, bytes), op).overtaken != s.overtaken <==>
            s.holder.None? && OnlyCancelled(s) && exists n :: n in s.queue && n !in s.overtaken
  {
    var t := Arrive(Charge(s, bytes), op);
    if s.holder.None? && OnlyCancelled(s) {
      assert t.overtaken == s.overtaken + set n | n in s.queue;
    }
  }

  /** A chunk or an end of the stream is admitted while the lock is free and all that wait for it, at least one, are
      cancelled. */
  predicate Passes(l: Limits, r: Registry, action: Action, k: nat) {
    && k < |r.streams| && IsActive(r, k)
    && ((action.SendChunk? || action.EndStream?) && action.id == r.streams[k].id)
    && r.streams[k].holder.None? && r.streams[k].queue != [] && OnlyCancelled(r.streams[k])
    && Step(l, r, action).1 == Accepted
  }

  lemma OthersNotOvertaken(l: Limits, r: Registry, action: Action, k: nat)
    requires Inv(l, r) && k < |r.streams| && !Passes(l, r, action, k)
    ensures SameOvertaken(r, Step(l, r, action).0, k)
  {
    match action
    case StartStream(id) => StartOvertakesNobody(l, r, id, k);
    case SendChunk(id, payload) =>
      assert Listed(r, id);
      ChunkOvertakesNobody(l, r, id, payload, k);
    case EndStream(id) =>
      assert Listed(r, id);
      EndOvertakesNobody(l, r, id, k);
    case TakeTurn(j) => TurnOvertakesNobody(r, j, k);
    case Return(j) => ReturnOvertakesNobody(l, r, j, k);
    case Cancel(j, n) => CancelOvertakesNobody(r, j, n, k);
    case Fail(j, n) => FailOvertakesNobody(l, r, j, n, k);
    case Abort(j, reason) => AbortOvertakesNobody(l, r, j, reason, k);
  }

  ghost predicate SameOvertaken(r: Registry, q: Registry, k: nat) {
    k < |r.streams| <= |q.streams| && q.streams[k].overtaken == r.streams[k].overtaken
  }

  lemma StartOvertakesNobody(l: Limits, r: Registry, id: StreamId, k: nat)
    requires k < |r.streams|
    ensures SameOvertaken(r, StartStep(l, r, id).0, k)
  {
  }

  lemma TurnOvertakesNobody(r: Registry, j: nat, k: nat)
    requires k < |r.streams|
    ensures SameOvertaken(r, TurnStep(r, j).0, k)
  {
  }

  lemma CancelOvertakesNobody(r: Registry, j: nat, n: nat, k: nat)
    requires k < |r.streams|
    ensures SameOvertaken(r, CancelStep(r, j, n).0, k)
  {
  }

  lemma ArrivalOvertakesNobody(s: Stream, op: Op, bytes: nat)
    requires s.holder.Some? || s.queue == [] || !OnlyCancelled(s)
    ensures Arrive(Charge(s, bytes), op).overtaken == s.overtaken
  {
    if s.queue == [] { assert (set n | n in s.queue) == {}; }
  }

  lemma ReplaceOvertakesNobody(r: Registry, j: nat, s: Stream, k: nat)
    requires j < |r.streams| && k < |r.streams| && (j == k ==> s.overtaken == r.streams[k].overtaken)
    ensures SameOvertaken(r, Replace(r, j, s), k)
  {
  }

  /** What the registry knows as the stream's incarnation is one. */
  predicate Listed(r: Registry, id: StreamId) {
    id in r.active ==> r.active[id] < |r.streams| && r.streams[r.active[id]].id == id
  }

  lemma ChunkOvertakesNobody(l: Limits, r: Registry, id: StreamId, payload: Bytes, k: nat)
    requires Listed(r, id) && k < |r.streams| && !Passes(l, r, SendChunk(id, payload), k)
    ensures SameOvertaken(r, ChunkStep(l, r, id, payload).0, k)
  {
    if id !in r.active { return; }
    var j := r.active[id];
    var s := r.streams[j];
    if ChunkStep(l, r, id, payload).1 == StreamTooLarge {
      AbortOvertakesNobody(l, r, j, "STREAM_TOO_LARGE", k);
      return;
    }
    if j == k { ArrivalOvertakesNobody(s, ChunkOp(payload), |payload|); }
    ReplaceOvertakesNobody(r, j, Arrive(Charge(s, |payload|), ChunkOp(payload)), k);
  }

  lemma EndOvertakesNobody(l: Limits, r: Registry, id: StreamId, k: nat)
    requires Listed(r, id) && k < |r.streams| && !Passes(l, r, EndStream(id), k)
    ensures SameOvertaken(r, EndStep(r, id).0, k)
  {
    if id !in r.active { return; }
    var j := r.active[id];
    var s := r.streams[j];
    if j == k {
      assert s == Charge(s, 0);
      ArrivalOvertakesNobody(s, EndOp, 0);
    }
    ReplaceOvertakesNobody(r, j, Arrive(s, EndOp), k);
  }

  lemma AbortOvertakesNobody(l: Limits, r: Registry, j: nat, reason: string, k: nat)
    requires k < |r.streams|
    ensures SameOvertaken(r, AbortStream(l, r, j, reason), k)
  {
  }

  lemma ReturnOvertakesNobody(l: Limits, r: Registry, j: nat, k: nat)
    requires k < |r.streams|
    ensures SameOvertaken(r, ReturnStep(l, r, j).0, k)
  {
  }

  lemma FailOvertakesNobody(l: Limits, r: Registry, j: nat, n: nat, k: nat)
    requires k < |r.streams|
    ensures SameOvertaken(r, FailStep(l, r, j, n).0, k)
  {
    if FailStep(l, r, j, n).1 != Ignored {
      AbortOvertakesNobody(l, Replace(r, j, Withdraw(r.streams[j], n)), j, "stream_failed", k);
    }
  }

  /** The arrival that passes makes all that wait overtaken, in addition to those that were. */
  lemma PassingOvertakes(l: Limits, r: Registry, action: Action, k: nat)
    requires Passes(l, r, action, k)
    ensures var q := Step(l, r, action).0;
            k < |q.streams| && q.streams[k].overtaken == r.streams[k].overtaken + set n | n in r.streams[k].queue
  {
    assert r.active[action.id] == k;
  }

  lemma StartAddsNotOvertaken(l: Limits, r: Registry, action: Action, k: nat)
    requires |r.streams| <= k < |Step(l, r, action).0.streams|
    ensures Step(l, r, action).0.streams[k].overtaken == {}
  {
    if action.StartStream? { FirstCallBegins(action.id); }
  }

  /** The i-th step of the run admits a call that passes waiting calls of the incarnation. */
  predicate PassesAt(l: Limits, actions: seq<Action>, i: nat, k: nat) {
    i < |actions| && Passes(l, Run(l, actions[..i]), actions[i], k)
  }

  ghost predicate SomeCallPasses(l: Limits, actions: seq<Action>, k: nat) {
    exists i :: PassesAt(l, actions, i, k)
  }

  lemma PassesInFront(l: Limits, actions: seq<Action>, i: nat, k: nat)
    requires i + 1 < |actions|
    ensures PassesAt(l, actions, i, k) <==> PassesAt(l, actions[..|actions|-1], i, k)
  {
    assert actions[..|actions|-1][..i] == actions[..i];
  }

  lemma PassesOneMore(l: Limits, actions: seq<Action>, k: nat)
    requires actions != []
    ensures SomeCallPasses(l, actions, k) <==>
            SomeCallPasses(l, actions[..|actions|-1], k) || PassesAt(l, actions, |actions| - 1, k)
  {
    var front := actions[..|actions|-1];
    if i: nat :| PassesAt(l, front, i, k) { PassesInFront(l, actions, i, k); }
    if i: nat :| PassesAt(l, actions, i, k) {
      if i + 1 < |actions| { PassesInFront(l, actions, i, k); }
    }
  }

  lemma StepKeepsStreams(l: Limits, r: Registry, action: Action)
    ensures |r.streams| <= |Step(l, r, action).0.streams|
  {
  }

  /** Over every run: calls of an incarnation have been overtaken if and only if some call was admitted while the lock
      was free and only cancelled calls waited for it. */
  lemma {:induction false} OvertakenExactlyIfPassed(l: Limits, actions: seq<Action>, k: nat)
    ensures k < |Run(l, actions).streams| ==>
              (Run(l, actions).streams[k].overtaken != {} <==> SomeCallPasses(l, actions, k))
    ensures k >= |Run(l, actions).streams| ==> !SomeCallPasses(l, actions, k)
  {
    if actions != [] {
      var front, last := actions[..|actions|-1], actions[|actions|-1];
      var r := Run(l, front);
      OvertakenExactlyIfPassed(l, front, k);
      PassesOneMore(l, actions, k);
      RunKeepsInv(l, front);
      StepKeepsStreams(l, r, last);
      if Passes(l, r, last, k) {
        PassingOvertakes(l, r, last, k);
        assert r.streams[k].queue[0] in Run(l, actions).streams[k].overtaken;
      } else if k < |r.streams| {
        OthersNotOvertaken(l, r, last, k);
      } else if k < |Run(l, actions).streams| {
        StartAddsNotOvertaken(l, r, last, k);
      }
    }
  }

  // ----- A chunk that is overtaken -----

  function OneStream(s: Stream): Registry {
    Registry(map[s.id := 0], [], [s], [])
  }

  lemma OneMoreAction(l: Limits, actions: seq<Action>, a: Action)
    ensures Run(l, actions + [a]) == Step(l, Run(l, actions), a).0
  {
    assert (actions + [a])[..|actions|] == actions;
  }

  lemma OneStreamReturns(l: Limits, s: Stream)
    requires s.holder.Some? && s.holder.value < |s.issued| && !s.issued[s.holder.value].EndOp?
    ensures Step(l, OneStream(s), Return(0)).0 == OneStream(Succeed(s, s.holder.value))
  {
  }

  lemma OneStreamChunk(l: Limits, s: Stream, payload: Bytes)
    requires |payload| <= l.maxChunkBytes && s.byteCount + |payload| <= l.maxStreamBytes
    ensures Step(l, OneStream(s), SendChunk(s.id, payload)).0 ==
            OneStream(Arrive(Charge(s, |payload|), ChunkOp(payload)))
  {
    assert Arrive(Charge(s, |payload|), ChunkOp(payload)).id == s.id;
  }

  lemma OneStreamCancels(l: Limits, s: Stream, n: nat)
    requires n in s.queue && s.holder.Some?
    ensures Step(l, OneStream(s), Cancel(0, n)).0 == OneStream(NoteCancel(s, n))
  {
  }

  lemma OneStreamEnds(l: Limits, s: Stream)
    ensures Step(l, OneStream(s), EndStream(s.id)).0 == OneStream(Arrive(s, EndOp))
  {
    assert Arrive(s, EndOp).id == s.id;
  }

  lemma OneStreamStarts(l: Limits, id: StreamId)
    requires l.maxActive > 0
    ensures Run(l, [] + [StartStream(id)]) == OneStream(Stream(id, 0, [StartOp], [], Some(0), [Begun(0)], [], {}, {}))
  {
    FirstCallBegins(id);
    OneMoreAction(l, [], StartStream(id));
    var s := Arrive(NewStream(id), StartOp);
    assert map[][s.id := 0] == map[s.id := 0] && [] + [s] == [s];
  }

  const ONE := ChunkOp([1])
  const TWO := ChunkOp([2])

  function OneChunkBegun(): Stream {
    Stream("s", 1, [StartOp, ONE], [], Some(1), [Begun(0), Begun(1)], [0], {}, {})
  }

  function OneChunkWaits(cancelled: set<nat>): Stream {
    Stream("s", 2, [StartOp, ONE, TWO], [2], Some(1), [Begun(0), Begun(1)], [0], cancelled, {})
  }

  function EndPassed(): Stream {
    Stream("s", 2, [StartOp, ONE, TWO, EndOp], [2], Some(3), [Begun(0), Begun(1), Begun(3)], [0, 1], {2}, {2})
  }

  lemma FirstChunkBegins()
    ensures Arrive(Charge(Stream("s", 0, [StartOp], [], None, [Begun(0)], [0], {}, {}), 1), ONE) == OneChunkBegun()
  {
    var s := Charge(Stream("s", 0, [StartOp], [], None, [Begun(0)], [0], {}, {}), 1);
    assert (set n | n in s.queue) == {} && OnlyCancelled(s);
  }

  lemma SecondChunkWaits()
    ensures Arrive(Charge(OneChunkBegun(), 1), TWO) == OneChunkWaits({})
  {
  }

  lemma EndPasses()
    ensures Arrive(Succeed(OneChunkWaits({2}), 1), EndOp) == EndPassed()
  {
    var s := Succeed(OneChunkWaits({2}), 1);
    assert (set n | n in s.queue) == {2} && OnlyCancelled(s);
  }

  lemma StartReturns(l: Limits) returns (actions: seq<Action>)
    requires l == Limits(1, 2, 1, 1)
    ensures Run(l, actions) == OneStream(Stream("s", 0, [StartOp], [], None, [Begun(0)], [0], {}, {}))
  {
    var first := Stream("s", 0, [StartOp], [], Some(0), [Begun(0)], [], {}, {});
    actions := [] + [StartStream("s")];
    OneStreamStarts(l, "s");
    OneMoreAction(l, actions, Return(0));
    OneStreamReturns(l, first);
    assert Succeed(first, 0) ==
           Stream("s", 0, [StartOp], [], None, [Begun(0)], [0], {}, {}) by { assert [] + [0] == [0]; }
    actions := actions + [Return(0)];
  }

  lemma ChunkGetsToWait(l: Limits) returns (actions: seq<Action>)
    requires l == Limits(1, 2, 1, 1)
    ensures Run(l, actions) == OneStream(OneChunkWaits({}))
  {
    actions := StartReturns(l);
    var started := Stream("s", 0, [StartOp], [], None, [Begun(0)], [0], {}, {});
    OneMoreAction(l, actions, SendChunk("s", [1]));
    OneStreamChunk(l, started, [1]);
    FirstChunkBegins();
    actions := actions + [SendChunk("s", [1])];
    OneMoreAction(l, actions, SendChunk("s", [2]));
    OneStreamChunk(l, OneChunkBegun(), [2]);
    SecondChunkWaits();
    actions := actions + [SendChunk("s", [2])];
  }

  lemma EndGetsPast(l: Limits) returns (actions: seq<Action>)
    requires l == Limits(1, 2, 1, 1)
    ensures Run(l, actions) == OneStream(EndPassed())
  {
    actions := ChunkGetsToWait(l);
    OneMoreAction(l, actions, Cancel(0, 2));
    OneStreamCancels(l, OneChunkWaits({}), 2);
    assert NoteCancel(OneChunkWaits({}), 2) == OneChunkWaits({2});
    actions := actions + [Cancel(0, 2)];
    OneMoreAction(l, actions, Return(0));
    OneStreamReturns(l, OneChunkWaits({2}));
    actions := actions + [Return(0)];
    OneMoreAction(l, actions, EndStream("s"));
    OneStreamEnds(l, Succeed(OneChunkWaits({2}), 1));
    EndPasses();
    actions := actions + [EndStream("s")];
  }

  /** A chunk waits behind another, is cancelled, and the other returns; before the cancelled call runs again, the end
      arrives. It finds the lock free, is handed to the sink, and returns although the sink never gets the chunk. */
  lemma CancelledChunkCanBeLost() returns (l: Limits, actions: seq<Action>)
    ensures var r := Run(l, actions);
            && ReturnsEnd(r, 0) && IsActive(r, 0)
            && r.streams[0].issued == [StartOp, ONE, TWO, EndOp] && r.streams[0].overtaken == {2}
            && Received(r.streams[0].issued, r.streams[0].log) == [1]
  {
    l := Limits(1, 2, 1, 1);
    actions := EndGetsPast(l);
    ReceivedByOne(EndPassed());
  }

  lemma ReceivedByOne(s: Stream)
    requires s.issued == [StartOp, ONE, TWO, EndOp] && s.log == [Begun(0), Begun(1), Begun(3)]
    ensures Received(s.issued, s.log) == [1]
  {
    assert s.log[..2] == [Begun(0), Begun(1)] && s.log[..2][..1] == [Begun(0)] && [Begun(0)][..0] == [];
    assert Received(s.issued, [Begun(0)]) == [];
    assert Received(s.issued, s.log[..2]) == [1];
  }

  lemma LastHasLast<T>(xs: seq<T>, n: nat, i: nat)
    requires i < |xs| && |xs| - (i + 1) < n
    ensures xs[i] in Last(xs, n)
  {
    assert Last(xs, n)[i - (|xs| - |Last(xs, n)|)] == xs[i];
  }

  lemma RecentlyFinishedIsClosed(l: Limits, r: Registry, i: nat)
    requires Inv(l, r) && i < |r.finished| && |r.finished| - (i + 1) < l.closedCapacity
    ensures r.finished[i].id in r.closed
  {
    LastHasLast(DepartedIds(r.finished), l.closedCapacity, i);
  }

  /** An id can only be started again after as many later streams have finished as the registry remembers. */
  lemma RestartWaitsItsTurn(l: Limits, actions: seq<Action>, id: StreamId, i: nat)
    requires var r := Run(l, actions); i < |r.finished| && r.finished[i].id == id
    requires StartStep(l, Run(l, actions), id).1 == Accepted
    ensures |Run(l, actions).finished| - (i + 1) >= l.closedCapacity
  {
    RunKeepsInv(l, actions);
    if |Run(l, actions).finished| - (i + 1) < l.closedCapacity {
      RecentlyFinishedIsClosed(l, Run(l, actions), i);
      assert false;
    }
  }
}
