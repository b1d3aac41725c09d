/** The registry object itself: each method runs without suspension, and what it does to the
    registry's fields is a step of StreamRegistry. */
module AudioStreaming {
  import opened Wrappers
  import opened StreamRegistry

  class AudioStreamRegistry {
    const limits: Limits
    var active: map<StreamId, nat>
    var closed: seq<StreamId>
    var streams: seq<Stream>
    ghost var finished: seq<Departure>

    ghost function State(): Registry
      reads this
    {
      Registry(active, closed, streams, finished)
    }

    /** The active ids name streams of theirs; every step keeps this, as part of the invariant. */
    ghost predicate Valid()
      reads this
    {
      forall id :: id in active ==> active[id] < |streams| && streams[active[id]].id == id
    }

    constructor (l: Limits)
      ensures limits == l && State() == Empty && Valid()
    {
      limits := l;
      active, closed, streams, finished := map[], [], [], [];
      new;
    }

    /** Drops ids from the front of the closed ones until they fit. */
    method ForgetOldest()
      modifies this`closed
      ensures closed == Last(old(closed), limits.closedCapacity)
    {
      while |closed| > limits.closedCapacity
        invariant |closed| <= |old(closed)| && closed == old(closed)[|old(closed)| - |closed|..]
        invariant |closed| >= limits.closedCapacity || closed == old(closed)
      {
        closed := closed[1..];
      }
    }

    /** Takes the stream out of the active ones and remembers its id, forgetting the oldest ids beyond capacity. */
    method Finish(k: nat)
      requires Valid() && k < |streams|
      modifies this`active, this`closed, this`finished
      ensures State() == FinishStream(limits, old(State()), k) && Valid()
    {
      var id := streams[k].id;
      if id !in active || active[id] != k { return; }
      active := active - {id};
      if id !in closed { closed := closed + [id]; }
      ForgetOldest();
      finished := finished + [Departure(id, k)];
    }

    /** The synchronous part of an abort: up to the moment the sink's abort begins. */
    method AbortNow(k: nat, reason: string)
      requires Valid() && k < |streams|
      modifies this
      ensures State() == AbortStream(limits, old(State()), k, reason) && Valid()
    {
      var id := streams[k].id;
      if id !in active || active[id] != k { return; }
      Finish(k);
      streams := streams[k := NoteAbort(streams[k], reason)];
    }

    /** Reserves the id and begins the sink's start, before anything else can run. */
    method Start(id: StreamId) returns (reply: Reply)
      requires Valid()
      modifies this
      ensures (State(), reply) == StartStep(limits, old(State()), id) && Valid()
    {
      if id in active { return Duplicate; }
      if id in closed { return Closed; }
      if |active| >= limits.maxActive { return CapacityExceeded; }
      active := active[id := |streams|];
      streams := streams + [Arrive(NewStream(id), StartOp)];
      return Accepted;
    }

    /** Admits or refuses a chunk; an admitted one is counted at once and waits for its turn. */
    method Chunk(id: StreamId, payload: Bytes) returns (reply: Reply)
      requires Valid()
      modifies this
      ensures (State(), reply) == ChunkStep(limits, old(State()), id, payload) && Valid()
    {
      if id !in active {
        if id in closed { return Closed; }
        return Unknown;
      }
      var k := active[id];
      if |payload| > limits.maxChunkBytes || streams[k].byteCount + |payload| > limits.maxStreamBytes {
        AbortNow(k, "STREAM_TOO_LARGE");
        return StreamTooLarge;
      }
      ReplaceTwice(State(), k, Charge(streams[k], |payload|), Arrive(Charge(streams[k], |payload|), ChunkOp(payload)));
      streams := streams[k := Charge(streams[k], |payload|)];
      streams := streams[k := Arrive(streams[k], ChunkOp(payload))];
      return Accepted;
    }

    method End(id: StreamId) returns (reply: Reply)
      requires Valid()
      modifies this
      ensures (State(), reply) == EndStep(old(State()), id) && Valid()
    {
      if id !in active {
        if id in closed { return Closed; }
        return Unknown;
      }
      streams := streams[active[id] := Arrive(streams[active[id]], EndOp)];
      return Accepted;
    }

    /** The waiting call at the head of the queue gets the lock; it goes on only if its stream is still active. */
    method TakeTurn(k: nat) returns (reply: Reply)
      requires Valid() && k < |streams|
      requires streams[k].holder == None && streams[k].queue != [] && streams[k].queue[0] !in streams[k].cancelled
      modifies this
      ensures (State(), reply) == TurnStep(old(State()), k) && Valid()
      ensures reply == if old(IsActive(State(), k)) then Accepted else Closed
      ensures reply == Accepted ==> streams[k].holder == Some(old(streams[k].queue[0]))
    {
      var id := streams[k].id;
      if id !in active || active[id] != k {
        streams := streams[k := DropHead(streams[k])];
        return Closed;
      }
      streams := streams[k := BeginNext(streams[k])];
      return Accepted;
    }

    /** The sink operation that holds the lock has returned; an end also finishes the stream. */
    method Returned(k: nat) returns (reply: Reply)
      requires Valid() && k < |streams|
      requires streams[k].holder.Some? && streams[k].holder.value < |streams[k].issued|
      modifies this
      ensures (State(), reply) == ReturnStep(limits, old(State()), k) && Valid()
    {
      var s := streams[k];
      streams := streams[k := Succeed(s, s.holder.value)];
      if s.issued[s.holder.value].EndOp? { Finish(k); }
      return Accepted;
    }

    /** A waiting call is cancelled: from now on newcomers may pass it, unless it has already been woken. */
    method CancelWaiting(k: nat, n: nat) returns (reply: Reply)
      requires Valid() && k < |streams| && n in streams[k].queue
      modifies this
      ensures (State(), reply) == CancelStep(old(State()), k, n) && Valid()
    {
      if streams[k].holder.None? && streams[k].queue[0] == n { return Ignored; }
      streams := streams[k := NoteCancel(streams[k], n)];
      return Accepted;
    }

    /** A call has failed, timed out or been cancelled, waiting or in the sink: it gives up its place, then aborts. */
    method Failed(k: nat, n: nat) returns (reply: Reply)
      requires Valid() && k < |streams| && (streams[k].holder == Some(n) || n in streams[k].queue)
      modifies this
      ensures (State(), reply) == FailStep(limits, old(State()), k, n) && Valid()
    {
      streams := streams[k := Withdraw(streams[k], n)];
      AbortNow(k, "stream_failed");
      return Accepted;
    }

    /** Expiry, disconnection or shutdown. */
    method Expire(k: nat, reason: string)
      requires Valid() && k < |streams|
      modifies this
      ensures State() == AbortStream(limits, old(State()), k, reason) && Valid()
    {
      AbortNow(k, reason);
    }
  }
}
