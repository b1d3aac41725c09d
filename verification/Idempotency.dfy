/** Mutations that are remembered under an idempotency key. What a mutation does to the tables is a
    parameter; a request stands for its operation and payload, whose hash is taken to be injective. */
module Idempotency {
  type Key = string

  datatype Outcome<S, R, X> = Done(state: S, response: R) | Refused(error: X)

  datatype Recorded<Q, R> = Recorded(request: Q, response: R)

  /** The tables, and the responses remembered by key. */
  datatype Ledger<S, Q, R> = Ledger(state: S, results: map<Key, Recorded<Q, R>>)

  datatype Reply<R, X> = Fresh(response: R) | Replayed(response: R) | KeyConflict | Failed(error: X)

  /** One request with its key, and what the clock and the id factory give it. */
  datatype Call<Q, E> = Call(key: Key, request: Q, env: E)

  /** One transaction: replay, refuse a key that belongs to another request, or apply and remember. */
  function Submit<S, Q(==), E, R, X>(apply: (S, Q, E) -> Outcome<S, R, X>, l: Ledger<S, Q, R>, c: Call<Q, E>):
    (Ledger<S, Q, R>, Reply<R, X>)
  {
    if c.key in l.results then
      if l.results[c.key].request == c.request then (l, Replayed(l.results[c.key].response)) else (l, KeyConflict)
    else
      match apply(l.state, c.request, c.env)
      case Refused(error) => (l, Failed(error))
      case Done(state, response) => (Ledger(state, l.results[c.key := Recorded(c.request, response)]), Fresh(response))
  }

  function Run<S, Q(==), E, R, X>(apply: (S, Q, E) -> Outcome<S, R, X>, l: Ledger<S, Q, R>, calls: seq<Call<Q, E>>):
    (Ledger<S, Q, R>)
  {
    if calls == [] then l else Submit(apply, Run(apply, l, calls[..|calls|-1]), calls[|calls|-1]).0
  }

  function Replies<S, Q(==), E, R, X>(apply: (S, Q, E) -> Outcome<S, R, X>, l: Ledger<S, Q, R>, calls: seq<Call<Q, E>>):
    (r: seq<Reply<R, X>>)
    ensures |r| == |calls|
  {
    if calls == [] then []
    else
      Replies(apply, l, calls[..|calls|-1]) + [Submit(apply, Run(apply, l, calls[..|calls|-1]), calls[|calls|-1]).1]
  }

  lemma {:induction false} RepliesOfPrefix<S, Q, E, R, X>(apply: (S, Q, E) -> Outcome<S, R, X>, l: Ledger<S, Q, R>,
                                                          calls: seq<Call<Q, E>>, n: nat)
    requires n <= |calls|
    ensures Replies(apply, l, calls)[..n] == Replies(apply, l, calls[..n])
    decreases |calls|
  {
    if n < |calls| {
      var front := calls[..|calls|-1];
      RepliesOfPrefix(apply, l, front, n);
      assert front[..n] == calls[..n];
      assert Replies(apply, l, calls)[..n] == Replies(apply, l, front)[..n];
    } else {
      assert calls[..n] == calls;
    }
  }

  lemma RunOneMore<S, Q, E, R, X>(apply: (S, Q, E) -> Outcome<S, R, X>, l: Ledger<S, Q, R>, calls: seq<Call<Q, E>>,
                                  c: Call<Q, E>)
    ensures var (after, reply) := Submit(apply, Run(apply, l, calls), c);
            && Run(apply, l, calls + [c]) == after
            && Replies(apply, l, calls + [c]) == Replies(apply, l, calls) + [reply]
  {
    assert (calls + [c])[..|calls|] == calls;
  }

  /** The call repeats an earlier one that went through. */
  ghost predicate RepeatsSuccess<Q(!new), E, R(!new), X>(calls: seq<Call<Q, E>>, replies: seq<Reply<R, X>>, i: nat,
      response: R)
    requires i < |calls| == |replies|
  {
    exists j :: 0 <= j < i && calls[j].key == calls[i].key && calls[j].request == calls[i].request
      && replies[j] == Fresh(response)
  }

  /** Call j used key k and went through, as remembered. */
  predicate WentThrough<Q(==), E, R(==), X(==)>(calls: seq<Call<Q, E>>, replies: seq<Reply<R, X>>, j: nat, k: Key,
      r: Recorded<Q, R>)
    requires j < |calls| == |replies|
  {
    calls[j].key == k && calls[j].request == r.request && replies[j] == Fresh(r.response)
  }

  /** What is remembered is exactly what went through: one response for each key used by a successful call. */
  ghost predicate Remembers<S, Q(!new), E, R(!new), X>(l: Ledger<S, Q, R>, calls: seq<Call<Q, E>>,
      replies: seq<Reply<R, X>>)
    requires |calls| == |replies|
  {
    && (forall k :: k in l.results ==> exists j :: 0 <= j < |calls| && WentThrough(calls, replies, j, k, l.results[k]))
    && (forall j, k, r :: 0 <= j < |calls| && WentThrough(calls, replies, j, k, r) ==>
       k in l.results && l.results[k] == r)
  }

  lemma StepRemembers<S, Q(!new), E, R(!new), X>(apply: (S, Q, E) -> Outcome<S, R, X>, before: Ledger<S, Q, R>,
                                                 calls: seq<Call<Q, E>>, replies: seq<Reply<R, X>>)
    requires |calls| == |replies| > 0
    requires Remembers(before, calls[..|calls|-1], replies[..|calls|-1])
    requires replies[|calls|-1] == Submit(apply, before, calls[|calls|-1]).1
    ensures Remembers(Submit(apply, before, calls[|calls|-1]).0, calls, replies)
  {
    var n := |calls| - 1;
    var after := Submit(apply, before, calls[n]).0;
    forall k | k in after.results
      ensures exists j :: 0 <= j < |calls| && WentThrough(calls, replies, j, k, after.results[k])
    {
      if k in before.results {
        var j :| 0 <= j < n && WentThrough(calls[..n], replies[..n], j, k, before.results[k]);
        assert WentThrough(calls, replies, j, k, before.results[k]);
      } else {
        assert WentThrough(calls, replies, n, k, after.results[k]);
      }
    }
    forall j, k, r | 0 <= j < |calls| && WentThrough(calls, replies, j, k, r)
      ensures k in after.results && after.results[k] == r
    {
      if j < n { assert WentThrough(calls[..n], replies[..n], j, k, r); }
    }
  }

  lemma {:induction false} RunRemembers<S, Q(!new), E, R(!new), X>(apply: (S, Q, E) -> Outcome<S, R, X>, s: S,
      calls: seq<Call<Q, E>>)
    ensures var l := Ledger(s, map[]);
            Remembers(Run(apply, l, calls), calls, Replies(apply, l, calls))
  {
    if calls != [] {
      var l := Ledger(s, map[]);
      var n := |calls| - 1;
      RunRemembers(apply, s, calls[..n]);
      var replies := Replies(apply, l, calls);
      assert replies[..n] == Replies(apply, l, calls[..n]);
      StepRemembers(apply, Run(apply, l, calls[..n]), calls, replies);
    }
  }

  /** A call is answered from memory, with the earlier response, exactly if it repeats a call that went through. */
  lemma ReplayedExactlyRepeats<S, Q(!new), E, R(!new), X>(apply: (S, Q, E) -> Outcome<S, R, X>, s: S,
                                                          calls: seq<Call<Q, E>>, i: nat, response: R)
    requires i < |calls|
    ensures var replies := Replies(apply, Ledger(s, map[]), calls);
            replies[i] == Replayed(response) <==> RepeatsSuccess(calls, replies, i, response)
  {
    var l := Ledger(s, map[]);
    var replies := Replies(apply, l, calls);
    var before := Run(apply, l, calls[..i]);
    RunRemembers(apply, s, calls[..i]);
    RepliesOfPrefix(apply, l, calls, i);
    RepliesOfPrefix(apply, l, calls, i + 1);
    assert calls[..i+1][..i] == calls[..i];
    assert replies[i] == replies[..i+1][i] == Submit(apply, before, calls[i]).1;
    if replies[i] == Replayed(response) {
      var j :| 0 <= j < i && WentThrough(calls[..i], replies[..i], j, calls[i].key, before.results[calls[i].key]);
      assert calls[j] == calls[..i][j] && replies[j] == replies[..i][j];
    }
    if RepeatsSuccess(calls, replies, i, response) {
      var j :| 0 <= j < i && calls[j].key == calls[i].key && calls[j].request == calls[i].request
          && replies[j] == Fresh(response);
      assert WentThrough(calls[..i], replies[..i], j, calls[i].key, Recorded(calls[i].request, response));
    }
  }

  /** The call reuses the key of an earlier one that went through, for another request. */
  ghost predicate ReusesKey<Q(!new), E, R(!new), X>(calls: seq<Call<Q, E>>, replies: seq<Reply<R, X>>, i: nat)
    requires i < |calls| == |replies|
  {
    exists j :: 0 <= j < i && calls[j].key == calls[i].key && calls[j].request != calls[i].request && replies[j].Fresh?
  }

  /** A key conflict is reported exactly if the key went through with another request before. */
  lemma KeyConflictExactlyIfReused<S, Q(!new), E, R(!new), X>(apply: (S, Q, E) -> Outcome<S, R, X>, s: S,
                                                              calls: seq<Call<Q, E>>, i: nat)
    requires i < |calls|
    ensures var replies := Replies(apply, Ledger(s, map[]), calls);
            replies[i] == KeyConflict <==> ReusesKey(calls, replies, i)
  {
    var l := Ledger(s, map[]);
    var replies := Replies(apply, l, calls);
    var before := Run(apply, l, calls[..i]);
    RunRemembers(apply, s, calls[..i]);
    RepliesOfPrefix(apply, l, calls, i);
    RepliesOfPrefix(apply, l, calls, i + 1);
    assert calls[..i+1][..i] == calls[..i];
    assert replies[i] == replies[..i+1][i] == Submit(apply, before, calls[i]).1;
    if replies[i] == KeyConflict {
      var r := before.results[calls[i].key];
      var j :| 0 <= j < i && WentThrough(calls[..i], replies[..i], j, calls[i].key, r);
      assert calls[j] == calls[..i][j] && replies[j] == replies[..i][j];
    }
    if ReusesKey(calls, replies, i) {
      var j :| 0 <= j < i && calls[j].key == calls[i].key && calls[j].request != calls[i].request && replies[j].Fresh?;
      assert WentThrough(calls[..i], replies[..i], j, calls[i].key, Recorded(calls[j].request, replies[j].response));
    }
  }

  /** The calls that were not answered from memory, and their replies. */
  function Kept<Q, E, R, X>(calls: seq<Call<Q, E>>, replies: seq<Reply<R, X>>): seq<Call<Q, E>>
    requires |calls| == |replies|
  {
    if calls == [] then []
    else
      var n := |calls| - 1;
      Kept(calls[..n], replies[..n]) + (if replies[n].Replayed? then [] else [calls[n]])
  }

  function KeptReplies<R, X>(replies: seq<Reply<R, X>>): seq<Reply<R, X>> {
    if replies == [] then []
    else
      var n := |replies| - 1;
      KeptReplies(replies[..n]) + (if replies[n].Replayed? then [] else [replies[n]])
  }

  /** A run ends in the same tables and memory, with the same replies, as the run without its repeats. */
  lemma {:induction false} RepeatsChangeNothing<S, Q, E, R, X>(apply: (S, Q, E) -> Outcome<S, R, X>, l: Ledger<S, Q, R>,
                                                               calls: seq<Call<Q, E>>)
    ensures var replies := Replies(apply, l, calls);
            && Run(apply, l, Kept(calls, replies)) == Run(apply, l, calls)
            && Replies(apply, l, Kept(calls, replies)) == KeptReplies(replies)
  {
    if calls != [] {
      var n := |calls| - 1;
      var replies := Replies(apply, l, calls);
      RepeatsChangeNothing(apply, l, calls[..n]);
      assert replies[..n] == Replies(apply, l, calls[..n]);
      var kept := Kept(calls[..n], replies[..n]);
      if replies[n].Replayed? {
        assert Kept(calls, replies) == kept;
      } else {
        assert Kept(calls, replies) == kept + [calls[n]];
        assert (kept + [calls[n]])[..|kept|] == kept;
      }
    }
  }

  /** Only a fresh success changes anything: a reused key or a refused request leaves tables and memory alone. */
  lemma OnlyFreshChanges<S, Q, E, R, X>(apply: (S, Q, E) -> Outcome<S, R, X>, l: Ledger<S, Q, R>, c: Call<Q, E>)
    ensures var (m, reply) := Submit(apply, l, c);
            && (!reply.Fresh? ==> m == l)
            && (c.key in l.results && l.results[c.key].request != c.request ==> reply == KeyConflict)
            && (forall k :: k in l.results ==> k in m.results && m.results[k] == l.results[k])
  {
  }
}
