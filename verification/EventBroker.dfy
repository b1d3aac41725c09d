/** The interaction event broker: bounded queues, and subscribers dropped when theirs is full. */
module EventBroker {
  import opened Wrappers

  type SourceId = string

  datatype Category = InteractionState | Identity | Session

  datatype StateSnapshot = StateSnapshot(source: Option<SourceId>, state: string, details: string)

  datatype Event = StateChanged(snapshot: StateSnapshot) | IdentityFeedback(details: string)
      | SessionClosed(details: string)

  function CategoryOf(e: Event): Category {
    match e
    case StateChanged(_) => InteractionState
    case IdentityFeedback(_) => Identity
    case SessionClosed(_) => Session
  }

  /** Whoever asked for these categories wants the event. */
  predicate Wanted(e: Event, categories: set<Category>) {
    || (e.StateChanged? && InteractionState in categories)
    || (e.IdentityFeedback? && Identity in categories)
    || (e.SessionClosed? && Session in categories)
  }

  /** The events of these categories, in order. */
  function OfCategories(log: seq<Event>, categories: set<Category>): seq<Event> {
    if log == [] then []
    else
      var front, last := log[..|log|-1], log[|log|-1];
      if CategoryOf(last) in categories then OfCategories(front, categories) + [last]
      else OfCategories(front, categories)
  }

  lemma OfCategoriesOneMore(log: seq<Event>, since: nat, e: Event, categories: set<Category>)
    requires since <= |log|
    ensures OfCategories((log + [e])[since..], categories) ==
            if CategoryOf(e) in categories then OfCategories(log[since..], categories) + [e]
            else OfCategories(log[since..], categories)
  {
    assert (log + [e])[since..] == log[since..] + [e];
    assert (log[since..] + [e])[..|log| - since] == log[since..];
  }

  /** They are those of the log that are wanted. */
  lemma {:induction false} OnlyWantedEvents(log: seq<Event>, categories: set<Category>)
    ensures forall e :: e in OfCategories(log, categories) <==> e in log && Wanted(e, categories)
  {
    if log != [] {
      OnlyWantedEvents(log[..|log|-1], categories);
      assert log == log[..|log|-1] + [log[|log|-1]];
    }
  }

  // ----- The latest states -----

  function Find(states: seq<StateSnapshot>, source: Option<SourceId>): Option<StateSnapshot> {
    if states == [] then None
    else if states[0].source == source then Some(states[0])
    else Find(states[1..], source)
  }

  /** Replaces the snapshot of the same source where it is, or adds one at the end. */
  function Upsert(states: seq<StateSnapshot>, s: StateSnapshot): seq<StateSnapshot> {
    if states == [] then [s]
    else if states[0].source == s.source then [s] + states[1..]
    else [states[0]] + Upsert(states[1..], s)
  }

  function StatesAfter(log: seq<Event>): seq<StateSnapshot> {
    if log == [] then []
    else
      var front, last := log[..|log|-1], log[|log|-1];
      if last.StateChanged? then Upsert(StatesAfter(front), last.snapshot) else StatesAfter(front)
  }

  /** The last state published for the source. */
  function LastState(log: seq<Event>, source: Option<SourceId>): Option<StateSnapshot> {
    if log == [] then None
    else
      var front, last := log[..|log|-1], log[|log|-1];
      if last.StateChanged? && last.snapshot.source == source then Some(last.snapshot) else LastState(front, source)
  }

  lemma {:induction false} FindUpsert(states: seq<StateSnapshot>, s: StateSnapshot, source: Option<SourceId>)
    ensures Find(Upsert(states, s), source) == if source == s.source then Some(s) else Find(states, source)
  {
    if states != [] && states[0].source != s.source {
      FindUpsert(states[1..], s, source);
      assert Upsert(states, s)[1..] == Upsert(states[1..], s);
    }
  }

  /** The table of states holds, for each source, the last state published for it. */
  lemma {:induction false} StatesAreLatest(log: seq<Event>, source: Option<SourceId>)
    ensures Find(StatesAfter(log), source) == LastState(log, source)
    ensures LastSeen(log, source, Find(StatesAfter(log), source))
  {
    LastStateIsLast(log, source);
    if log != [] {
      var front, last := log[..|log|-1], log[|log|-1];
      StatesAreLatest(front, source);
      if last.StateChanged? {
        FindUpsert(StatesAfter(front), last.snapshot, source);
      }
    }
  }

  /** Nothing is published for the source after this place. */
  ghost predicate NoneAfter(log: seq<Event>, source: Option<SourceId>, i: int) {
    forall j :: i < j < |log| && 0 <= j && log[j].StateChanged? ==> log[j].snapshot.source != source
  }

  /** State is what the source was last seen in, if anything was published for it at all. */
  ghost predicate LastSeen(log: seq<Event>, source: Option<SourceId>, state: Option<StateSnapshot>) {
    match state
    case None => NoneAfter(log, source, -1)
    case Some(s) =>
      s.source == source && exists i :: 0 <= i < |log| && log[i] == StateChanged(s) && NoneAfter(log, source, i)
  }

  lemma {:induction false} LastStateIsLast(log: seq<Event>, source: Option<SourceId>)
    ensures LastSeen(log, source, LastState(log, source))
  {
    if log != [] {
      var n := |log| - 1;
      LastStateIsLast(log[..n], source);
      var state := LastState(log, source);
      if state.Some? && state == LastState(log[..n], source) && log[n] != StateChanged(state.value) {
        var i :| 0 <= i < n && log[..n][i] == StateChanged(state.value) && NoneAfter(log[..n], source, i);
        assert log[i] == StateChanged(state.value);
        NoneAfterOneMore(log, source, i);
      } else if state == None {
        NoneAfterOneMore(log, source, -1);
      }
    }
  }

  lemma NoneAfterOneMore(log: seq<Event>, source: Option<SourceId>, i: int)
    requires log != [] && NoneAfter(log[..|log|-1], source, i)
    requires log[|log|-1].StateChanged? ==> log[|log|-1].snapshot.source != source
    ensures NoneAfter(log, source, i)
  {
    forall j | i < j < |log| && 0 <= j && log[j].StateChanged? ensures log[j].snapshot.source != source {
      if j < |log| - 1 { assert log[..|log|-1][j] == log[j]; }
    }
  }

  // ----- The broker -----

  class Subscription {
    const categories: set<Category>
    /** Nothing is too much for a queue of size 0. */
    const maxSize: nat
    var queue: seq<Event>
    /** What was taken from the queue, and where in the broker's log the subscription began. */
    ghost var consumed: seq<Event>
    ghost const since: nat

    constructor (c: set<Category>, m: nat, ghost s: nat)
      ensures categories == c && maxSize == m && since == s && queue == [] && consumed == []
    {
      categories, maxSize, queue := c, m, [];
      since, consumed := s, [];
    }

    ghost function Seen(): seq<Event>
      reads this
    {
      consumed + queue
    }

    predicate Full()
      reads this
    {
      maxSize > 0 && |queue| >= maxSize
    }

    method PutNowait(e: Event) returns (ok: bool)
      modifies this`queue
      ensures ok <==> !old(Full())
      ensures ok <==> old(maxSize == 0 || |queue| < maxSize)
      ensures queue == old(queue) + if ok then [e] else []
      ensures Seen() == old(Seen()) + if ok then [e] else []
    {
      if maxSize > 0 && |queue| >= maxSize { return false; }
      queue := queue + [e];
      return true;
    }

    method Get() returns (e: Event)
      requires queue != []
      modifies this
      ensures e == old(queue)[0] && queue == old(queue)[1..] && consumed == old(consumed) + [e]
      ensures Seen() == old(Seen())
    {
      e := queue[0];
      queue := queue[1..];
      consumed := consumed + [e];
    }
  }

  class InteractionEventBroker {
    const queueSize: nat
    var subscriptions: set<Subscription>
    var states: seq<StateSnapshot>
    /** Everything published, and everybody who ever subscribed. */
    ghost var log: seq<Event>
    ghost var everyone: set<Subscription>

    /** A subscription in force has seen, or has queued, exactly the events of its categories published since it
        began; one that is not, an initial part of them. */
    ghost predicate Served(s: Subscription)
      reads this, s
    {
      && s.since <= |log|
      && (s.maxSize > 0 ==> |s.queue| <= s.maxSize)
      && s.Seen() <= OfCategories(log[s.since..], s.categories)
      && (s in subscriptions ==> s.Seen() == OfCategories(log[s.since..], s.categories))
    }

    ghost predicate Serving()
      reads this, everyone
    {
      subscriptions <= everyone && forall s :: s in everyone ==> Served(s)
    }

    ghost predicate Valid()
      reads this, everyone
    {
      Serving() && states == StatesAfter(log)
    }

    constructor (size: nat)
      ensures Valid() && queueSize == size && subscriptions == {} && log == [] && everyone == {}
    {
      queueSize, subscriptions, states := size, {}, [];
      log, everyone := [], {};
    }

    method Subscribe(categories: set<Category>) returns (s: Subscription)
      requires Valid()
      modifies this
      ensures Valid() && fresh(s) && s.categories == categories && s.maxSize == queueSize && s.Seen() == []
      ensures subscriptions == old(subscriptions) + {s} && everyone == old(everyone) + {s}
      ensures log == old(log) && states == old(states) && s.since == |log|
    {
      s := new Subscription(categories, queueSize, |log|);
      subscriptions := subscriptions + {s};
      everyone := everyone + {s};
    }

    method Unsubscribe(s: Subscription)
      requires Valid()
      modifies this`subscriptions
      ensures Valid() && subscriptions == old(subscriptions) - {s}
    {
      subscriptions := subscriptions - {s};
    }

    /** What publishing does to a subscription that was in force. */
    twostate predicate Delivered(s: Subscription, e: Event)
      reads this, s
    {
      if !Wanted(e, s.categories) then s.queue == old(s.queue) && s in subscriptions
      else if s.maxSize > 0 && old(|s.queue|) == s.maxSize then s.queue == old(s.queue) && s !in subscriptions
      else s.queue == old(s.queue) + [e] && s in subscriptions
    }

    /** Puts the event into the queue of each subscription that wants it; those with a full queue are dropped. */
    method Publish(e: Event)
      requires Serving()
      modifies this`subscriptions, this`log, everyone
      ensures Serving() && log == old(log) + [e] && subscriptions <= old(subscriptions)
      ensures forall s :: s in old(subscriptions) ==> Delivered(s, e)
      ensures forall s :: s in everyone ==> s.consumed == old(s.consumed)
    {
      var dead: set<Subscription> := {};
      var rest := subscriptions;
      while rest != {}
        invariant subscriptions == old(subscriptions) && log == old(log)
        invariant rest <= old(subscriptions) && dead <= old(subscriptions) - rest
        invariant forall s :: s in everyone ==> s.consumed == old(s.consumed)
        invariant forall s :: s in everyone && (s !in subscriptions || s in rest) ==> s.queue == old(s.queue)
        invariant forall s :: s in old(subscriptions) - rest ==>
          && (s in dead <==> CategoryOf(e) in s.categories && old(s.Full()))
          && s.queue == old(s.queue) + if CategoryOf(e) in s.categories && !old(s.Full()) then [e] else []
      {
        var s :| s in rest;
        rest := rest - {s};
        if CategoryOf(e) !in s.categories { continue; }
        var ok := s.PutNowait(e);
        if !ok { dead := dead + {s}; }
      }
      subscriptions := subscriptions - dead;
      log := log + [e];
      forall s | s in everyone ensures Served(s) {
        assert old(Served(s));
        OfCategoriesOneMore(old(log), s.since, e, s.categories);
      }
    }

    method PublishState(snapshot: StateSnapshot)
      requires Valid()
      modifies this`subscriptions, this`states, this`log, everyone
      ensures Valid() && log == old(log) + [StateChanged(snapshot)] && everyone == old(everyone)
      ensures forall s :: s in old(subscriptions) ==> Delivered(s, StateChanged(snapshot))
      ensures forall s :: s in everyone ==> s.consumed == old(s.consumed)
    {
      states := Upsert(states, snapshot);
      Publish(StateChanged(snapshot));
      assert log[..|log|-1] == old(log);
    }

    method PublishOther(e: Event)
      requires Valid() && !e.StateChanged?
      modifies this`subscriptions, this`log, everyone
      ensures Valid() && log == old(log) + [e] && everyone == old(everyone)
      ensures forall s :: s in old(subscriptions) ==> Delivered(s, e)
      ensures forall s :: s in everyone ==> s.consumed == old(s.consumed)
    {
      Publish(e);
      assert log[..|log|-1] == old(log);
    }

    /** A subscriber takes its next event: nothing is lost or repeated by that. */
    method TakeNext(s: Subscription) returns (e: Event)
      requires Valid() && s in everyone && s.queue != []
      modifies s
      ensures Valid() && s.Seen() == old(s.Seen()) && s.consumed == old(s.consumed) + [e]
    {
      e := s.Get();
    }

    /** All states, or the one of a source. */
    method Snapshot(source: Option<SourceId>) returns (r: seq<StateSnapshot>)
      requires Valid()
      ensures source == None ==> r == StatesAfter(log)
      ensures source.Some? ==> r == if LastState(log, source).Some? then [LastState(log, source).value] else []
    {
      if source == None { return states; }
      StatesAreLatest(log, source);
      var state := Find(states, source);
      return if state.Some? then [state.value] else [];
    }
  }
}
