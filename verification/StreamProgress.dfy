/** Waiting calls come to their turn: if nothing fails, the lock goes from call to call until all of them are served. */
module StreamProgress {
  import opened Wrappers
  import opened StreamRegistry

  /** A free lock goes to the first waiting call unless that has been cancelled. The call then begins, and nothing else
      changes. */
  lemma FreeLockIsTaken(l: Limits, actions: seq<Action>, k: nat)
    requires var r := Run(l, actions);
             && k < |r.streams| && r.streams[k].id in r.active && r.active[r.streams[k].id] == k
             && r.streams[k].holder == None && r.streams[k].queue != []
             && r.streams[k].queue[0] !in r.streams[k].cancelled
    ensures var r := Run(l, actions);
            var (q, reply) := Step(l, r, TakeTurn(k));
            var s := r.streams[k];
            && reply == Accepted
            && q == r.(streams := r.streams[k := s.(holder := Some(s.queue[0]), queue := s.queue[1..],
                                                    log := s.log + [Begun(s.queue[0])])])
  {
  }

  // ----- Streams in which nothing is cancelled -----

  /** The end has returned: every call up to it succeeded. */
  ghost predicate EndedWell(s: Stream) {
    s.holder == None && exists n: nat :: n < |s.issued| && s.issued[n] == EndOp && s.succeeded == Upto(0, n + 1)
  }

  /** No waiting call is cancelled or has been passed, and the incarnation is active, or ended well. */
  ghost predicate Undisturbed(l: Limits, r: Registry, k: nat) {
    && Inv(l, r) && k < |r.streams|
    && r.streams[k].overtaken == {} && (forall n :: n in r.streams[k].queue ==> n !in r.streams[k].cancelled)
    && (IsActive(r, k) || EndedWell(r.streams[k]))
  }

  /** The first waiting call takes its turn, or the operation under way returns. */
  predicate Serves(r: Registry, k: nat, action: Action) {
    && k < |r.streams|
    && ((action == TakeTurn(k) && r.streams[k].holder == None && r.streams[k].queue != []) ||
        (action == Return(k) && r.streams[k].holder != None))
  }

  /** Turns and returns left. */
  function ToServe(s: Stream): nat {
    2 * |s.queue| + if s.holder == None then 0 else 1
  }

  /** Nobody waits or holds the lock. All calls succeeded in order, or all up to the first end. */
  ghost predicate AllServed(s: Stream) {
    && s.holder == None && s.queue == []
    && exists m: nat :: m <= |s.issued| && s.succeeded == Upto(0, m) && ServedUpTo(s.issued, m)
  }

  predicate ServedUpTo(issued: seq<Op>, m: nat)
    requires m <= |issued|
  {
    && (m == |issued| || (0 < m && issued[m-1] == EndOp))
    && forall i :: 0 <= i < m - 1 ==> issued[i] != EndOp
  }

  /** One turn or return less is left. */
  ghost predicate ServedOne(l: Limits, r: Registry, k: nat, q: Registry)
    requires k < |r.streams|
  {
    && Undisturbed(l, q, k) && q.streams[k].issued == r.streams[k].issued
    && ToServe(q.streams[k]) < ToServe(r.streams[k])
  }

  lemma TurnServes(l: Limits, r: Registry, k: nat)
    requires Undisturbed(l, r, k) && IsActive(r, k) && r.streams[k].holder == None && r.streams[k].queue != []
    ensures TurnStep(r, k).1 != Ignored && ServedOne(l, r, k, TurnStep(r, k).0)
  {
    var s := r.streams[k];
    TurnKeepsInv(l, r, k);
    assert TurnStep(r, k) == (Replace(r, k, BeginNext(s)), Accepted);
    BeginningServes(l, r, k);
  }

  lemma BeginningServes(l: Limits, r: Registry, k: nat)
    requires Undisturbed(l, r, k) && IsActive(r, k) && r.streams[k].holder == None && r.streams[k].queue != []
    requires Inv(l, Replace(r, k, BeginNext(r.streams[k])))
    ensures ServedOne(l, r, k, Replace(r, k, BeginNext(r.streams[k])))
  {
    var s := r.streams[k];
    var t := BeginNext(s);
    QueueTail(s, t);
    assert ToServe(t) == ToServe(s) - 1;
    assert Replace(r, k, t).streams[k] == t && IsActive(Replace(r, k, t), k);
  }

  lemma QueueTail(s: Stream, t: Stream)
    requires s.queue != [] && t.queue == s.queue[1..]
    ensures forall n :: n in t.queue ==> n in s.queue
  {
  }

  lemma RefusalServes(l: Limits, r: Registry, k: nat)
    requires Undisturbed(l, r, k) && !IsActive(r, k) && r.streams[k].queue != []
    ensures TurnStep(r, k).1 != Ignored && ServedOne(l, r, k, TurnStep(r, k).0)
  {
    var s := r.streams[k];
    TurnKeepsInv(l, r, k);
    var q := TurnStep(r, k).0;
    assert q == Replace(r, k, DropHead(s));
    QueueTail(s, q.streams[k]);
    assert EndedWell(q.streams[k]);
  }

  /** The operation that returns is the last one begun; with it, everything begun has succeeded. */
  lemma ReturnSucceeds(l: Limits, s: Stream, n: nat)
    requires StreamOk(l, s, true) && s.overtaken == {} && s.holder == Some(n)
    ensures n < |s.issued| && Succeed(s, n).succeeded == Upto(0, n + 1)
  {
    var b := OpsBegun(s);
    NoGaps(s, b - 1);
    forall i | 0 <= i < |s.succeeded| ensures s.succeeded[i] == i { NoGaps(s, i); }
    assert |s.succeeded| == n;
  }

  lemma ReturnServes(l: Limits, r: Registry, k: nat)
    requires Undisturbed(l, r, k) && r.streams[k].holder != None
    ensures ReturnStep(l, r, k).1 != Ignored && ServedOne(l, r, k, ReturnStep(l, r, k).0)
  {
    var s := r.streams[k];
    var n := s.holder.value;
    ReturnSucceeds(l, s, n);
    ReturnKeepsInv(l, r, k);
    var q := ReturnStep(l, r, k).0;
    assert q.streams[k] == Succeed(s, n);
    if s.issued[n] == EndOp { assert EndedWell(q.streams[k]); } else { assert q == Replace(r, k, Succeed(s, n)); }
  }

  lemma ServingGoesOn(l: Limits, r: Registry, k: nat, action: Action)
    requires Undisturbed(l, r, k) && Serves(r, k, action)
    ensures Step(l, r, action).1 != Ignored && ServedOne(l, r, k, Step(l, r, action).0)
  {
    if action.Return? {
      ReturnServes(l, r, k);
      assert Step(l, r, action) == ReturnStep(l, r, k);
    } else if IsActive(r, k) {
      TurnServes(l, r, k);
    } else {
      RefusalServes(l, r, k);
    }
  }

  lemma IdleIsServed(l: Limits, r: Registry, k: nat)
    requires Undisturbed(l, r, k) && r.streams[k].holder == None && r.streams[k].queue == []
    ensures AllServed(r.streams[k])
  {
    var s := r.streams[k];
    if IsActive(r, k) {
      ActiveIsServed(l, s);
    } else {
      EndedIsServed(l, s);
    }
  }

  lemma ActiveIsServed(l: Limits, s: Stream)
    requires StreamOk(l, s, true) && s.overtaken == {} && s.holder == None && s.queue == []
    ensures AllServed(s)
  {
    var b := OpsBegun(s);
    forall i | 0 <= i < b ensures s.log[i] == Begun(i) { NoGaps(s, i); }
    assert LastBegun(s) == b - 1;
    assert b < |s.issued| ==> b in s.queue;
    assert s.succeeded == Upto(0, b);
    forall i | 0 <= i < b - 1 ensures s.issued[i] != EndOp { assert s.log[i].n == i; }
    assert ServedUpTo(s.issued, b);
  }

  lemma EndedIsServed(l: Limits, s: Stream)
    requires StreamOk(l, s, false) && EndedWell(s) && s.queue == []
    ensures AllServed(s)
  {
    var n: nat :| n < |s.issued| && s.issued[n] == EndOp && s.succeeded == Upto(0, n + 1);
    forall i | 0 <= i < n ensures s.issued[i] != EndOp {
      assert s.succeeded[i] == s.log[i].n == i;
    }
    assert ServedUpTo(s.issued, n + 1);
  }

  // ----- Serving everybody -----

  predicate Serving(l: Limits, r: Registry, k: nat, actions: seq<Action>)
    decreases |actions|
  {
    actions == [] || (Serves(r, k, actions[0]) && Serving(l, Step(l, r, actions[0]).0, k, actions[1..]))
  }

  function After(l: Limits, r: Registry, actions: seq<Action>): Registry
    decreases |actions|
  {
    if actions == [] then r else After(l, Step(l, r, actions[0]).0, actions[1..])
  }

  lemma {:induction false} ServingEnds(l: Limits, r: Registry, k: nat, actions: seq<Action>)
    requires Undisturbed(l, r, k) && Serving(l, r, k, actions)
    ensures |actions| <= ToServe(r.streams[k])
    ensures var q := After(l, r, actions);
            && Undisturbed(l, q, k) && q.streams[k].issued == r.streams[k].issued
            && ((exists a :: Serves(q, k, a)) || AllServed(q.streams[k]))
    decreases |actions|
  {
    if actions != [] {
      ServingGoesOn(l, r, k, actions[0]);
      ServingEnds(l, Step(l, r, actions[0]).0, k, actions[1..]);
    } else if r.streams[k].holder != None {
      assert Serves(r, k, Return(k));
    } else if r.streams[k].queue != [] {
      assert Serves(r, k, TakeTurn(k));
    } else {
      IdleIsServed(l, r, k);
    }
  }

  lemma {:induction false} ServingCanEnd(l: Limits, r: Registry, k: nat) returns (actions: seq<Action>)
    requires Undisturbed(l, r, k)
    ensures Serving(l, r, k, actions)
    ensures var q := After(l, r, actions);
            k < |q.streams| && AllServed(q.streams[k]) && q.streams[k].issued == r.streams[k].issued
    decreases ToServe(r.streams[k])
  {
    actions := [];
    if ToServe(r.streams[k]) == 0 {
      IdleIsServed(l, r, k);
    } else {
      var a := if r.streams[k].holder != None then Return(k) else TakeTurn(k);
      ServingGoesOn(l, r, k, a);
      var rest := ServingCanEnd(l, Step(l, r, a).0, k);
      actions := [a] + rest;
      assert actions[1..] == rest;
    }
  }

  /** After any run, if no waiting call of an active incarnation is cancelled or has been passed: turns and returns go
      on until nobody waits, there is a bound to their number, and then every call admitted has succeeded, in order,
      or every call up to the first end. */
  lemma WaitingCallsAreServed(l: Limits, actions: seq<Action>, k: nat) returns (more: seq<Action>)
    requires var r := Run(l, actions);
             && k < |r.streams| && IsActive(r, k) && r.streams[k].overtaken == {}
             && forall n :: n in r.streams[k].queue ==> n !in r.streams[k].cancelled
    ensures var r := Run(l, actions);
            var q := After(l, r, more);
            && Serving(l, r, k, more) && k < |q.streams|
            && AllServed(q.streams[k]) && q.streams[k].issued == r.streams[k].issued
    ensures var r := Run(l, actions);
            forall other :: Serving(l, r, k, other) ==>
              && |other| <= ToServe(r.streams[k])
              && var q := After(l, r, other);
                 k < |q.streams| && ((exists a :: Serves(q, k, a)) || AllServed(q.streams[k]))
  {
    RunKeepsInv(l, actions);
    var r := Run(l, actions);
    more := ServingCanEnd(l, r, k);
    forall other | Serving(l, r, k, other)
      ensures |other| <= ToServe(r.streams[k])
      ensures var q := After(l, r, other);
              k < |q.streams| && ((exists a :: Serves(q, k, a)) || AllServed(q.streams[k]))
    {
      ServingEnds(l, r, k, other);
    }
  }

  // ----- Calls that come too late -----

  /** The last streams to leave, as many as the registry remembers, include one of this id. */
  ghost predicate LeftLately(l: Limits, r: Registry, id: StreamId) {
    exists i :: 0 <= i < |r.finished| && |r.finished| - i <= l.closedCapacity && r.finished[i].id == id
  }

  lemma ClosedAreThoseThatLeftLately(l: Limits, r: Registry, id: StreamId)
    requires r.closed == Last(DepartedIds(r.finished), l.closedCapacity)
    ensures id in r.closed <==> LeftLately(l, r, id)
  {
    var ids := DepartedIds(r.finished);
    if id in r.closed {
      var j :| 0 <= j < |r.closed| && r.closed[j] == id;
      assert ids[|ids| - |r.closed| + j] == id;
    }
    if LeftLately(l, r, id) {
      var i :| 0 <= i < |r.finished| && |r.finished| - i <= l.closedCapacity && r.finished[i].id == id;
      LastHasLast(ids, l.closedCapacity, i);
    }
  }

  /** What the three calls answer follows from which streams are active, which left lately, and the bytes admitted. */
  ghost predicate RepliesMean(l: Limits, r: Registry, id: StreamId, payload: Bytes) {
    var start, chunk, end :=
      Step(l, r, StartStream(id)).1, Step(l, r, SendChunk(id, payload)).1, Step(l, r, EndStream(id)).1;
    if id in r.active then
      && r.active[id] < |r.streams|
      && start == Duplicate && end == Accepted
      && chunk == if |payload| <= l.maxChunkBytes &&
                     TotalBytes(r.streams[r.active[id]].issued) + |payload| <= l.maxStreamBytes
                  then Accepted else StreamTooLarge
    else if LeftLately(l, r, id) then start == chunk == end == Closed
    else chunk == end == Unknown && start == if |r.active| < l.maxActive then Accepted else CapacityExceeded
  }

  lemma ActiveReplies(l: Limits, r: Registry, id: StreamId, payload: Bytes)
    requires id in r.active && r.active[id] < |r.streams|
    requires r.streams[r.active[id]].byteCount == TotalBytes(r.streams[r.active[id]].issued)
    ensures RepliesMean(l, r, id, payload)
  {
  }

  lemma InactiveReplies(l: Limits, r: Registry, id: StreamId, payload: Bytes)
    requires id !in r.active && (id in r.closed <==> LeftLately(l, r, id))
    ensures RepliesMean(l, r, id, payload)
  {
  }

  lemma BooksOfReachable(l: Limits, actions: seq<Action>, id: StreamId)
    ensures var r := Run(l, actions);
            && r.closed == Last(DepartedIds(r.finished), l.closedCapacity)
            && (id in r.active ==> r.active[id] < |r.streams| &&
                                   r.streams[r.active[id]].byteCount == TotalBytes(r.streams[r.active[id]].issued))
  {
    RunKeepsInv(l, actions);
    var r := Run(l, actions);
    if id in r.active {
      assert StreamOk(l, r.streams[r.active[id]], IsActive(r, r.active[id]));
    }
  }

  lemma RepliesFollowHistory(l: Limits, actions: seq<Action>, id: StreamId, payload: Bytes)
    ensures RepliesMean(l, Run(l, actions), id, payload)
  {
    var r := Run(l, actions);
    BooksOfReachable(l, actions, id);
    if id in r.active {
      ActiveReplies(l, r, id, payload);
    } else {
      ClosedAreThoseThatLeftLately(l, r, id);
      InactiveReplies(l, r, id, payload);
    }
  }

  // ----- Calls that fail -----

  predicate Ascending(xs: seq<nat>) {
    forall i, j :: 0 <= i < j < |xs| ==> xs[i] < xs[j]
  }

  lemma {:induction false} WithoutAscends(xs: seq<nat>, x: nat)
    requires Ascending(xs)
    ensures Ascending(Without(xs, x))
  {
    if xs != [] {
      WithoutAscends(xs[1..], x);
      var rest := Without(xs[1..], x);
      forall i | 0 <= i < |rest| ensures xs[0] < rest[i] {
        assert rest[i] in rest;
      }
    }
  }

  /** A call that fails, holding the lock or waiting, keeps neither the lock nor a place in the queue. Everybody else
      does, in their order, and other incarnations do not notice. */
  lemma FailedCallIsGone(l: Limits, actions: seq<Action>, k: nat, n: nat)
    requires var r := Run(l, actions);
             k < |r.streams| && (r.streams[k].holder == Some(n) || n in r.streams[k].queue)
    ensures var r := Run(l, actions);
            var (q, reply) := Step(l, r, Fail(k, n));
            && reply == Accepted && |q.streams| == |r.streams|
            && var s, t := r.streams[k], q.streams[k];
            && t.holder != Some(n) && (s.holder != Some(n) ==> t.holder == s.holder)
            && (forall m :: m in t.queue <==> m in s.queue && m != n)
            && (Ascending(s.queue) ==> Ascending(t.queue))
            && forall j :: 0 <= j < |r.streams| && j != k ==> q.streams[j] == r.streams[j]
  {
    if Ascending(Run(l, actions).streams[k].queue) {
      WithoutAscends(Run(l, actions).streams[k].queue, n);
    }
  }

  /** A waiting call can be cancelled unless it is the first in the queue of a free lock; then newcomers may pass it. */
  lemma CancelledCallIsNoted(l: Limits, actions: seq<Action>, k: nat, n: nat)
    requires k < |Run(l, actions).streams|
    ensures var r := Run(l, actions);
            var s := r.streams[k];
            var (q, reply) := Step(l, r, Cancel(k, n));
            && (reply == Accepted <==> n in s.queue && (s.holder != None || s.queue[0] != n))
            && q == (if reply == Accepted then r.(streams := r.streams[k := s.(cancelled := s.cancelled + {n})])
                     else r)
  {
  }

  // ----- Calls that wait while their stream leaves -----

  function Turns(k: nat, n: nat): seq<Action> {
    if n == 0 then [] else [TakeTurn(k)] + Turns(k, n - 1)
  }

  /** Every one of the steps answers that the stream is closed. */
  predicate AllClosed(l: Limits, r: Registry, actions: seq<Action>)
    decreases |actions|
  {
    actions == [] || (Step(l, r, actions[0]).1 == Closed && AllClosed(l, Step(l, r, actions[0]).0, actions[1..]))
  }

  /** The calls that still wait when their incarnation has left get their turns and are refused, and the sink hears of
      none of them. */
  lemma {:induction false} LeftCallsAreRefused(l: Limits, r: Registry, k: nat)
    requires k < |r.streams| && !IsActive(r, k) && r.streams[k].holder == None
    requires forall n :: n in r.streams[k].queue ==> n !in r.streams[k].cancelled
    ensures AllClosed(l, r, Turns(k, |r.streams[k].queue|))
    ensures var q := After(l, r, Turns(k, |r.streams[k].queue|));
            && |q.streams| == |r.streams| && q.streams[k] == r.streams[k].(queue := [])
            && q.active == r.active && q.closed == r.closed
            && forall j :: 0 <= j < |r.streams| && j != k ==> q.streams[j] == r.streams[j]
    decreases |r.streams[k].queue|
  {
    var s := r.streams[k];
    if s.queue != [] {
      var n := |s.queue|;
      var q := Step(l, r, TakeTurn(k)).0;
      QueueTail(s, q.streams[k]);
      LeftCallsAreRefused(l, q, k);
      assert Turns(k, n)[1..] == Turns(k, n - 1) && Turns(k, n)[0] == TakeTurn(k);
    }
  }
}
