/** The two memory services together. Their tables are separate, but both remember results under keys in one table. */
module MemoryService {
  import opened Idempotency
  import O = OperationalMemory
  import S = SemanticMemory

  datatype Tables = Tables(context: O.Table, memories: S.Tables)

  datatype Request = OfContext(context: O.Request) | OfMemories(memories: S.Request)

  /** What a call of either service is given; the other half is not looked at. */
  datatype Env = Env(context: O.Env, memories: S.Env)

  datatype Response = ContextResponse(context: O.Response) | MemoryResponse(memories: S.Response)

  datatype Error = ContextError(context: O.Error) | MemoryError(memories: S.Error)

  datatype Normalizers = Normalizers(key: string -> string, content: string -> string)

  function Apply(n: Normalizers, t: Tables, q: Request, env: Env): Outcome<Tables, Response, Error> {
    match q
    case OfContext(request) =>
      (match O.Apply(n.key, t.context, request, env.context)
       case Refused(error) => Refused(ContextError(error))
       case Done(context, response) => Done(Tables(context, t.memories), ContextResponse(response)))
    case OfMemories(request) =>
      (match S.Apply(n.content, t.memories, request, env.memories)
       case Refused(error) => Refused(MemoryError(error))
       case Done(memories, response) => Done(Tables(t.context, memories), MemoryResponse(response)))
  }

  function Applied(n: Normalizers): (Tables, Request, Env) -> Outcome<Tables, Response, Error> {
    (t, q, env) => Apply(n, t, q, env)
  }

  type Book = Ledger<Tables, Request, Response>
  type AnyCall = Call<Request, Env>
  type AnyReply = Reply<Response, Error>

  const EMPTY: Book := Ledger(Tables([], S.EMPTY), map[])

  // ----- Keys across services -----

  /** A key that went through in one service is refused by the other, and nothing changes. */
  lemma {:induction false} ForeignKeyConflicts(n: Normalizers, calls: seq<AnyCall>, j: nat, i: nat)
    requires j < i < |calls| && calls[j].key == calls[i].key
    requires calls[j].request.OfContext? != calls[i].request.OfContext?
    requires Replies(Applied(n), EMPTY, calls)[j].Fresh?
    ensures Replies(Applied(n), EMPTY, calls)[i] == KeyConflict
    ensures Run(Applied(n), EMPTY, calls[..i+1]) == Run(Applied(n), EMPTY, calls[..i])
  {
    var replies := Replies(Applied(n), EMPTY, calls);
    assert ReusesKey(calls, replies, i);
    KeyConflictExactlyIfReused(Applied(n), EMPTY.state, calls, i);
    RepliesOfPrefix(Applied(n), EMPTY, calls, i + 1);
    assert calls[..i+1][..i] == calls[..i] && replies[i] == replies[..i+1][i];
    OnlyFreshChanges(Applied(n), Run(Applied(n), EMPTY, calls[..i]), calls[i]);
  }

  // ----- Each service by itself -----

  /** Remembered responses are those of the service that was asked. */
  predicate WellPaired(results: map<Key, Recorded<Request, Response>>) {
    forall k :: k in results ==> (results[k].request.OfContext? <==> results[k].response.ContextResponse?)
  }

  /** What the operational service has done: its table, and what is remembered of its requests. */
  function ContextLedger(b: Book): Ledger<O.Table, O.Request, O.Response>
    requires WellPaired(b.results)
  {
    Ledger(b.state.context, map k | k in b.results && b.results[k].request.OfContext? ::
             Recorded(b.results[k].request.context, b.results[k].response.context))
  }

  function MemoryLedger(b: Book): Ledger<S.Tables, S.Request, S.Response>
    requires WellPaired(b.results)
  {
    Ledger(b.state.memories, map k | k in b.results && b.results[k].request.OfMemories? ::
             Recorded(b.results[k].request.memories, b.results[k].response.memories))
  }

  /** The reply is one to a request of the operational service. */
  predicate ContextReply(r: AnyReply) {
    match r
    case Fresh(response) => response.ContextResponse?
    case Replayed(response) => response.ContextResponse?
    case KeyConflict => false
    case Failed(error) => error.ContextError?
  }

  predicate MemoryReply(r: AnyReply) {
    match r
    case Fresh(response) => response.MemoryResponse?
    case Replayed(response) => response.MemoryResponse?
    case KeyConflict => false
    case Failed(error) => error.MemoryError?
  }

  function AsContextReply(r: AnyReply): Reply<O.Response, O.Error>
    requires ContextReply(r)
  {
    match r
    case Fresh(response) => Fresh(response.context)
    case Replayed(response) => Replayed(response.context)
    case Failed(error) => Failed(error.context)
  }

  function AsMemoryReply(r: AnyReply): Reply<S.Response, S.Error>
    requires MemoryReply(r)
  {
    match r
    case Fresh(response) => Fresh(response.memories)
    case Replayed(response) => Replayed(response.memories)
    case Failed(error) => Failed(error.memories)
  }

  function AsContextCall(c: AnyCall): Call<O.Request, O.Env>
    requires c.request.OfContext?
  {
    Call(c.key, c.request.context, c.env.context)
  }

  function AsMemoryCall(c: AnyCall): Call<S.Request, S.Env>
    requires c.request.OfMemories?
  {
    Call(c.key, c.request.memories, c.env.memories)
  }

  /** A call and its reply belong together. */
  predicate Answers(c: AnyCall, r: AnyReply) {
    r == KeyConflict || if c.request.OfContext? then ContextReply(r) else MemoryReply(r)
  }

  /** The calls of the operational service that did not run into a key conflict. */
  function ContextCalls(calls: seq<AnyCall>, replies: seq<AnyReply>): seq<Call<O.Request, O.Env>>
    requires |calls| == |replies|
  {
    if calls == [] then []
    else
      var i := |calls| - 1;
      ContextCalls(calls[..i], replies[..i]) +
      if calls[i].request.OfContext? && replies[i] != KeyConflict then [AsContextCall(calls[i])] else []
  }

  function ContextReplies(replies: seq<AnyReply>): seq<Reply<O.Response, O.Error>> {
    if replies == [] then []
    else
      var i := |replies| - 1;
      ContextReplies(replies[..i]) + if ContextReply(replies[i]) then [AsContextReply(replies[i])] else []
  }

  function MemoryCalls(calls: seq<AnyCall>, replies: seq<AnyReply>): seq<Call<S.Request, S.Env>>
    requires |calls| == |replies|
  {
    if calls == [] then []
    else
      var i := |calls| - 1;
      MemoryCalls(calls[..i], replies[..i]) +
      if calls[i].request.OfMemories? && replies[i] != KeyConflict then [AsMemoryCall(calls[i])] else []
  }

  function MemoryReplies(replies: seq<AnyReply>): seq<Reply<S.Response, S.Error>> {
    if replies == [] then []
    else
      var i := |replies| - 1;
      MemoryReplies(replies[..i]) + if MemoryReply(replies[i]) then [AsMemoryReply(replies[i])] else []
  }

  lemma StepAnswers(n: Normalizers, b: Book, c: AnyCall)
    requires WellPaired(b.results)
    ensures WellPaired(Submit(Applied(n), b, c).0.results) && Answers(c, Submit(Applied(n), b, c).1)
  {
  }

  lemma ContextStep(n: Normalizers, b: Book, c: AnyCall)
    requires WellPaired(b.results) && c.request.OfContext? && Submit(Applied(n), b, c).1 != KeyConflict
    ensures var (after, reply) := Submit(Applied(n), b, c);
            && WellPaired(after.results) && ContextReply(reply)
            && (ContextLedger(after), AsContextReply(reply)) ==
               Submit(O.Applied(n.key), ContextLedger(b), AsContextCall(c))
  {
    StepAnswers(n, b, c);
    var (after, reply) := Submit(Applied(n), b, c);
    var (own, _) := Submit(O.Applied(n.key), ContextLedger(b), AsContextCall(c));
    assert ContextLedger(after).results == own.results;
  }

  lemma ContextUntouched(n: Normalizers, b: Book, c: AnyCall)
    requires WellPaired(b.results) && (c.request.OfMemories? || Submit(Applied(n), b, c).1 == KeyConflict)
    ensures var after := Submit(Applied(n), b, c).0;
            WellPaired(after.results) && ContextLedger(after) == ContextLedger(b)
  {
    StepAnswers(n, b, c);
    assert ContextLedger(Submit(Applied(n), b, c).0).results == ContextLedger(b).results;
  }

  lemma MemoryStep(n: Normalizers, b: Book, c: AnyCall)
    requires WellPaired(b.results) && c.request.OfMemories? && Submit(Applied(n), b, c).1 != KeyConflict
    ensures var (after, reply) := Submit(Applied(n), b, c);
            && WellPaired(after.results) && MemoryReply(reply)
            && (MemoryLedger(after), AsMemoryReply(reply)) ==
               Submit(S.Applied(n.content), MemoryLedger(b), AsMemoryCall(c))
  {
    StepAnswers(n, b, c);
    var (after, reply) := Submit(Applied(n), b, c);
    var (own, _) := Submit(S.Applied(n.content), MemoryLedger(b), AsMemoryCall(c));
    assert MemoryLedger(after).results == own.results;
  }

  lemma MemoriesUntouched(n: Normalizers, b: Book, c: AnyCall)
    requires WellPaired(b.results) && (c.request.OfContext? || Submit(Applied(n), b, c).1 == KeyConflict)
    ensures var after := Submit(Applied(n), b, c).0;
            WellPaired(after.results) && MemoryLedger(after) == MemoryLedger(b)
  {
    StepAnswers(n, b, c);
    assert MemoryLedger(Submit(Applied(n), b, c).0).results == MemoryLedger(b).results;
  }

  const NO_CONTEXT: Ledger<O.Table, O.Request, O.Response> := Ledger([], map[])

  const NO_MEMORIES: Ledger<S.Tables, S.Request, S.Response> := Ledger(S.EMPTY, map[])

  lemma RunPairs(n: Normalizers, calls: seq<AnyCall>)
    ensures WellPaired(Run(Applied(n), EMPTY, calls).results)
    decreases |calls|
  {
    if calls != [] {
      RunPairs(n, calls[..|calls|-1]);
      StepAnswers(n, Run(Applied(n), EMPTY, calls[..|calls|-1]), calls[|calls|-1]);
    }
  }

  /** The service's half of the book, and its replies, are those of the service alone. */
  ghost predicate ContextAgrees(n: Normalizers, b: Book, calls: seq<AnyCall>, replies: seq<AnyReply>)
    requires |calls| == |replies|
  {
    var own := ContextCalls(calls, replies);
    && WellPaired(b.results)
    && ContextLedger(b) == Run(O.Applied(n.key), NO_CONTEXT, own)
    && ContextReplies(replies) == Replies(O.Applied(n.key), NO_CONTEXT, own)
  }

  lemma ContextCallsOneMore(calls: seq<AnyCall>, replies: seq<AnyReply>, c: AnyCall, r: AnyReply)
    requires |calls| == |replies| && Answers(c, r)
    ensures if c.request.OfContext? && r != KeyConflict then
              && ContextCalls(calls + [c], replies + [r]) == ContextCalls(calls, replies) + [AsContextCall(c)]
              && ContextReplies(replies + [r]) == ContextReplies(replies) + [AsContextReply(r)]
            else
              && ContextCalls(calls + [c], replies + [r]) == ContextCalls(calls, replies)
              && ContextReplies(replies + [r]) == ContextReplies(replies)
  {
    assert (calls + [c])[..|calls|] == calls && (replies + [r])[..|replies|] == replies;
  }

  lemma ContextAgreesOn(n: Normalizers, b: Book, calls: seq<AnyCall>, replies: seq<AnyReply>, c: AnyCall)
    requires |calls| == |replies| && ContextAgrees(n, b, calls, replies)
    ensures var (after, r) := Submit(Applied(n), b, c); ContextAgrees(n, after, calls + [c], replies + [r])
  {
    var (after, r) := Submit(Applied(n), b, c);
    StepAnswers(n, b, c);
    ContextCallsOneMore(calls, replies, c, r);
    if c.request.OfContext? && r != KeyConflict {
      ContextStep(n, b, c);
      RunOneMore(O.Applied(n.key), NO_CONTEXT, ContextCalls(calls, replies), AsContextCall(c));
    } else {
      ContextUntouched(n, b, c);
    }
  }

  /** Whatever the other service does with the shared keys, the operational service's table, memory and replies are
      those of the service alone, given its calls that did not run into a key conflict. */
  lemma {:induction false} ContextRunsAlone(n: Normalizers, calls: seq<AnyCall>)
    ensures ContextAgrees(n, Run(Applied(n), EMPTY, calls), calls, Replies(Applied(n), EMPTY, calls))
  {
    if calls == [] {
      assert ContextLedger(EMPTY) == NO_CONTEXT;
    } else {
      var front, last := calls[..|calls|-1], calls[|calls|-1];
      assert calls == front + [last];
      ContextRunsAlone(n, front);
      ContextAgreesOn(n, Run(Applied(n), EMPTY, front), front, Replies(Applied(n), EMPTY, front), last);
      RunOneMore(Applied(n), EMPTY, front, last);
    }
  }

  /** The service's half of the book, and its replies, are those of the service alone. */
  ghost predicate MemoryAgrees(n: Normalizers, b: Book, calls: seq<AnyCall>, replies: seq<AnyReply>)
    requires |calls| == |replies|
  {
    var own := MemoryCalls(calls, replies);
    && WellPaired(b.results)
    && MemoryLedger(b) == Run(S.Applied(n.content), NO_MEMORIES, own)
    && MemoryReplies(replies) == Replies(S.Applied(n.content), NO_MEMORIES, own)
  }

  lemma MemoryCallsOneMore(calls: seq<AnyCall>, replies: seq<AnyReply>, c: AnyCall, r: AnyReply)
    requires |calls| == |replies| && Answers(c, r)
    ensures if c.request.OfMemories? && r != KeyConflict then
              && MemoryCalls(calls + [c], replies + [r]) == MemoryCalls(calls, replies) + [AsMemoryCall(c)]
              && MemoryReplies(replies + [r]) == MemoryReplies(replies) + [AsMemoryReply(r)]
            else
              && MemoryCalls(calls + [c], replies + [r]) == MemoryCalls(calls, replies)
              && MemoryReplies(replies + [r]) == MemoryReplies(replies)
  {
    assert (calls + [c])[..|calls|] == calls && (replies + [r])[..|replies|] == replies;
  }

  lemma MemoryAgreesOn(n: Normalizers, b: Book, calls: seq<AnyCall>, replies: seq<AnyReply>, c: AnyCall)
    requires |calls| == |replies| && MemoryAgrees(n, b, calls, replies)
    ensures var (after, r) := Submit(Applied(n), b, c); MemoryAgrees(n, after, calls + [c], replies + [r])
  {
    var (after, r) := Submit(Applied(n), b, c);
    StepAnswers(n, b, c);
    MemoryCallsOneMore(calls, replies, c, r);
    if c.request.OfMemories? && r != KeyConflict {
      MemoryStep(n, b, c);
      RunOneMore(S.Applied(n.content), NO_MEMORIES, MemoryCalls(calls, replies), AsMemoryCall(c));
    } else {
      MemoriesUntouched(n, b, c);
    }
  }

  /** So it is for the semantic service. */
  lemma {:induction false} MemoriesRunAlone(n: Normalizers, calls: seq<AnyCall>)
    ensures MemoryAgrees(n, Run(Applied(n), EMPTY, calls), calls, Replies(Applied(n), EMPTY, calls))
  {
    if calls == [] {
      assert MemoryLedger(EMPTY) == NO_MEMORIES;
    } else {
      var front, last := calls[..|calls|-1], calls[|calls|-1];
      assert calls == front + [last];
      MemoriesRunAlone(n, front);
      MemoryAgreesOn(n, Run(Applied(n), EMPTY, front), front, Replies(Applied(n), EMPTY, front), last);
      RunOneMore(Applied(n), EMPTY, front, last);
    }
  }

  /** Repeats change nothing in either service, and the other replies are the same. */
  lemma RepeatsChangeNeither(n: Normalizers, calls: seq<AnyCall>)
    ensures var replies := Replies(Applied(n), EMPTY, calls);
            && Run(Applied(n), EMPTY, Kept(calls, replies)) == Run(Applied(n), EMPTY, calls)
            && Replies(Applied(n), EMPTY, Kept(calls, replies)) == KeptReplies(replies)
  {
    RepeatsChangeNothing(Applied(n), EMPTY, calls);
  }

  /** With the keys shared, too, revisions count the updates that went through. */
  lemma SharedRevisionsCount(n: Normalizers, calls: seq<AnyCall>)
    ensures var after, replies := Run(Applied(n), EMPTY, calls), Replies(Applied(n), EMPTY, calls);
            var own, answers := ContextCalls(calls, replies), ContextReplies(replies);
            |own| == |answers| && O.RevisionsCount(after.state.context, own, answers)
  {
    ContextRunsAlone(n, calls);
    O.RevisionCountsUpdates(n.key, ContextCalls(calls, Replies(Applied(n), EMPTY, calls)));
  }
}
