/** The operational entries as their history: what requests and replies alone say about every row. */
module OperationalHistory {
  import opened Wrappers
  import opened Idempotency
  import opened OperationalMemory

  type Calls = seq<Call<Request, Env>>
  type Answers = seq<Reply<Response, Error>>

  predicate Creates(c: Call<Request, Env>, r: Reply<Response, Error>, id: EntryId) {
    c.request.Create? && r.Fresh? && r.response.Written? && r.response.entry.id == id
  }

  predicate Updates(c: Call<Request, Env>, r: Reply<Response, Error>, id: EntryId) {
    c.request.Update? && r.Fresh? && c.request.id == id
  }

  predicate Deletes(c: Call<Request, Env>, r: Reply<Response, Error>, id: EntryId) {
    c.request.Delete? && r.Fresh? && c.request.id == id
  }

  /** The creation that went through of the entry that now has the id. */
  function Creation(calls: Calls, replies: Answers, id: EntryId): (at: Option<nat>)
    requires |calls| == |replies|
    ensures at.Some? ==> at.value < |calls| && Creates(calls[at.value], replies[at.value], id)
  {
    if calls == [] then None
    else
      var i := |calls| - 1;
      if Creates(calls[i], replies[i], id) then Some(i)
      else if Deletes(calls[i], replies[i], id) then None
      else Creation(calls[..i], replies[..i], id)
  }

  /** The last creation or update of it that went through. */
  function LastWrite(calls: Calls, replies: Answers, id: EntryId): (at: Option<nat>)
    requires |calls| == |replies|
    ensures at.Some? ==>
              && at.value < |calls|
              && (Creates(calls[at.value], replies[at.value], id) || Updates(calls[at.value], replies[at.value], id))
  {
    if calls == [] then None
    else
      var i := |calls| - 1;
      if Creates(calls[i], replies[i], id) || Updates(calls[i], replies[i], id) then Some(i)
      else if Deletes(calls[i], replies[i], id) then None
      else LastWrite(calls[..i], replies[..i], id)
  }

  /** The row is as its creation and its last write left it. */
  predicate RowFromHistory(n: Normalize, e: Entry, calls: Calls, replies: Answers)
    requires |calls| == |replies|
  {
    var created, written := Creation(calls, replies, e.id), LastWrite(calls, replies, e.id);
    && created.Some? && written.Some?
    && e.createdAt == calls[created.value].env.now && e.updatedAt == calls[written.value].env.now
    && e.command == calls[written.value].request.command && e.normalizedKey == n(e.command.key)
  }

  ghost predicate RowsFit(n: Normalize, t: Table, calls: Calls, replies: Answers)
    requires |calls| == |replies|
  {
    forall i :: 0 <= i < |t| ==> RowFromHistory(n, t[i], calls, replies)
  }

  ghost predicate IdsFit(t: Table, calls: Calls, replies: Answers)
    requires |calls| == |replies|
  {
    forall id :: Creation(calls, replies, id).Some? ==> Holds(t, id)
  }

  ghost predicate OrderFits(t: Table, calls: Calls, replies: Answers)
    requires |calls| == |replies|
  {
    forall i, j :: 0 <= i < j < |t| ==> EarlierIn(calls, replies, t[i].id, t[j].id)
  }

  /** The rows are those the history leaves, in the order of their creation. */
  ghost predicate TableFromHistory(n: Normalize, t: Table, calls: Calls, replies: Answers)
    requires |calls| == |replies|
  {
    RowsFit(n, t, calls, replies) && IdsFit(t, calls, replies) && OrderFits(t, calls, replies)
  }

  predicate EarlierIn(calls: Calls, replies: Answers, a: EntryId, b: EntryId)
    requires |calls| == |replies|
  {
    var i, j := Creation(calls, replies, a), Creation(calls, replies, b);
    i.Some? && j.Some? && i.value < j.value
  }

  lemma HistoryOfOthers(calls: Calls, replies: Answers, c: Call<Request, Env>, r: Reply<Response, Error>, id: EntryId)
    requires |calls| == |replies| && !Creates(c, r, id) && !Deletes(c, r, id)
    ensures Creation(calls + [c], replies + [r], id) == Creation(calls, replies, id)
    ensures !Updates(c, r, id) ==> LastWrite(calls + [c], replies + [r], id) == LastWrite(calls, replies, id)
    ensures Updates(c, r, id) ==> LastWrite(calls + [c], replies + [r], id) == Some(|calls|)
  {
    assert (calls + [c])[..|calls|] == calls && (replies + [r])[..|replies|] == replies;
  }

  lemma HistoryOfCreated(calls: Calls, replies: Answers, c: Call<Request, Env>, r: Reply<Response, Error>, id: EntryId)
    requires |calls| == |replies|
    ensures Creates(c, r, id) ==>
              Creation(calls + [c], replies + [r], id) == LastWrite(calls + [c], replies + [r], id) == Some(|calls|)
    ensures Deletes(c, r, id) ==> Creation(calls + [c], replies + [r], id) == None
  {
  }

  lemma RowStays(n: Normalize, e: Entry, calls: Calls, replies: Answers, c: Call<Request, Env>,
                 r: Reply<Response, Error>)
    requires |calls| == |replies| && RowFromHistory(n, e, calls, replies)
    requires !Creates(c, r, e.id) && !Updates(c, r, e.id) && !Deletes(c, r, e.id)
    ensures RowFromHistory(n, e, calls + [c], replies + [r])
  {
    HistoryOfOthers(calls, replies, c, r, e.id);
  }

  // ----- A creation -----

  lemma AddedRowsFit(n: Normalize, t: Table, e: Entry, calls: Calls, replies: Answers, c: Call<Request, Env>,
                     r: Reply<Response, Error>)
    requires |calls| == |replies| && RowsFit(n, t, calls, replies) && !Holds(t, e.id)
    requires Creates(c, r, e.id) && e.command == c.request.command && e.normalizedKey == n(e.command.key)
    requires e.createdAt == e.updatedAt == c.env.now
    ensures RowsFit(n, t + [e], calls + [c], replies + [r])
  {
    HistoryOfCreated(calls, replies, c, r, e.id);
    forall i | 0 <= i < |t| ensures RowFromHistory(n, t[i], calls + [c], replies + [r]) {
      assert t[i].id != e.id;
      RowStays(n, t[i], calls, replies, c, r);
    }
  }

  lemma AddedIdsFit(t: Table, e: Entry, calls: Calls, replies: Answers, c: Call<Request, Env>,
                    r: Reply<Response, Error>)
    requires |calls| == |replies| && IdsFit(t, calls, replies) && Creates(c, r, e.id)
    ensures IdsFit(t + [e], calls + [c], replies + [r])
  {
    forall id | Creation(calls + [c], replies + [r], id).Some? ensures Holds(t + [e], id) {
      if id == e.id {
        assert (t + [e])[|t|].id == id;
      } else {
        HistoryOfOthers(calls, replies, c, r, id);
        var i :| 0 <= i < |t| && t[i].id == id;
        assert (t + [e])[i].id == id;
      }
    }
  }

  lemma AddedOrderFits(t: Table, e: Entry, calls: Calls, replies: Answers, c: Call<Request, Env>,
                       r: Reply<Response, Error>)
    requires |calls| == |replies| && OrderFits(t, calls, replies) && Creates(c, r, e.id) && !Holds(t, e.id)
    requires forall i :: 0 <= i < |t| ==> Creation(calls, replies, t[i].id).Some?
    ensures OrderFits(t + [e], calls + [c], replies + [r])
  {
    var u := t + [e];
    HistoryOfCreated(calls, replies, c, r, e.id);
    forall i, j | 0 <= i < j < |u| ensures EarlierIn(calls + [c], replies + [r], u[i].id, u[j].id) {
      assert t[i].id != e.id;
      HistoryOfOthers(calls, replies, c, r, t[i].id);
      if j < |t| {
        assert t[j].id != e.id;
        HistoryOfOthers(calls, replies, c, r, t[j].id);
      }
    }
  }

  lemma CreationKeepsHistory(n: Normalize, t: Table, calls: Calls, replies: Answers, c: Call<Request, Env>)
    requires |calls| == |replies| && TableFromHistory(n, t, calls, replies) && c.request.Create?
    requires Apply(n, t, c.request, c.env).Done?
    ensures var u := Apply(n, t, c.request, c.env);
            TableFromHistory(n, u.state, calls + [c], replies + [Fresh(u.response)])
  {
    var u := Apply(n, t, c.request, c.env);
    var e := u.response.entry;
    assert u.state == t + [e];
    assert forall i :: 0 <= i < |t| ==> RowFromHistory(n, t[i], calls, replies);
    AddedRowsFit(n, t, e, calls, replies, c, Fresh(u.response));
    AddedIdsFit(t, e, calls, replies, c, Fresh(u.response));
    AddedOrderFits(t, e, calls, replies, c, Fresh(u.response));
  }

  // ----- An update -----

  /** The k-th row is another with the same id and creation time. */
  ghost predicate Rewritten(t: Table, u: Table, k: nat, e: Entry) {
    && UniqueIds(t) && k < |t| && u == t[k := e] && e.id == t[k].id && e.createdAt == t[k].createdAt
  }

  lemma RewrittenRowsFit(n: Normalize, t: Table, u: Table, k: nat, e: Entry, calls: Calls, replies: Answers,
                         c: Call<Request, Env>, r: Reply<Response, Error>)
    requires |calls| == |replies| && RowsFit(n, t, calls, replies) && Rewritten(t, u, k, e) && Updates(c, r, e.id)
    requires e.command == c.request.command && e.normalizedKey == n(e.command.key) && e.updatedAt == c.env.now
    ensures RowsFit(n, u, calls + [c], replies + [r])
  {
    HistoryOfOthers(calls, replies, c, r, e.id);
    assert RowFromHistory(n, t[k], calls, replies);
    forall i | 0 <= i < |t| && i != k ensures RowFromHistory(n, u[i], calls + [c], replies + [r]) {
      assert u[i] == t[i] && t[i].id != t[k].id;
      RowStays(n, t[i], calls, replies, c, r);
    }
  }

  lemma RewrittenIdsFit(t: Table, u: Table, k: nat, e: Entry, calls: Calls, replies: Answers,
                        c: Call<Request, Env>, r: Reply<Response, Error>)
    requires |calls| == |replies| && IdsFit(t, calls, replies) && Rewritten(t, u, k, e) && Updates(c, r, e.id)
    ensures IdsFit(u, calls + [c], replies + [r])
  {
    forall id | Creation(calls + [c], replies + [r], id).Some? ensures Holds(u, id) {
      HistoryOfOthers(calls, replies, c, r, id);
      var i :| 0 <= i < |t| && t[i].id == id;
      assert u[i].id == id;
    }
  }

  lemma RewrittenOrderFits(t: Table, u: Table, k: nat, e: Entry, calls: Calls, replies: Answers,
                           c: Call<Request, Env>, r: Reply<Response, Error>)
    requires |calls| == |replies| && OrderFits(t, calls, replies) && Rewritten(t, u, k, e) && Updates(c, r, e.id)
    ensures OrderFits(u, calls + [c], replies + [r])
  {
    forall i, j | 0 <= i < j < |u| ensures EarlierIn(calls + [c], replies + [r], u[i].id, u[j].id) {
      assert u[i].id == t[i].id && u[j].id == t[j].id;
      HistoryOfOthers(calls, replies, c, r, t[i].id);
      HistoryOfOthers(calls, replies, c, r, t[j].id);
    }
  }

  lemma UpdateKeepsHistory(n: Normalize, t: Table, calls: Calls, replies: Answers, c: Call<Request, Env>)
    requires |calls| == |replies| && TableFromHistory(n, t, calls, replies) && UniqueIds(t) && c.request.Update?
    requires Apply(n, t, c.request, c.env).Done?
    ensures var u := Apply(n, t, c.request, c.env);
            TableFromHistory(n, u.state, calls + [c], replies + [Fresh(u.response)])
  {
    var u := Apply(n, t, c.request, c.env);
    var k, e := RowOf(t, c.request.id), u.response.entry;
    assert Rewritten(t, u.state, k, e);
    RewrittenRowsFit(n, t, u.state, k, e, calls, replies, c, Fresh(u.response));
    RewrittenIdsFit(t, u.state, k, e, calls, replies, c, Fresh(u.response));
    RewrittenOrderFits(t, u.state, k, e, calls, replies, c, Fresh(u.response));
  }

  // ----- A deletion -----

  /** The table without its k-th row. */
  ghost predicate CutOut(t: Table, u: Table, k: nat) {
    && UniqueIds(t) && k < |t| && |u| == |t| - 1
    && forall i :: 0 <= i < |u| ==> u[i] == t[if i < k then i else i + 1]
  }

  lemma CuttingOut(t: Table, k: nat)
    requires UniqueIds(t) && k < |t|
    ensures CutOut(t, t[..k] + t[k+1..], k)
  {
  }

  lemma CutRowsFit(n: Normalize, t: Table, u: Table, k: nat, calls: Calls, replies: Answers,
                   c: Call<Request, Env>, r: Reply<Response, Error>)
    requires |calls| == |replies| && RowsFit(n, t, calls, replies) && CutOut(t, u, k) && Deletes(c, r, t[k].id)
    ensures RowsFit(n, u, calls + [c], replies + [r])
  {
    forall i | 0 <= i < |u| ensures RowFromHistory(n, u[i], calls + [c], replies + [r]) {
      RowStays(n, t[if i < k then i else i + 1], calls, replies, c, r);
    }
  }

  lemma CutIdsFit(t: Table, u: Table, k: nat, calls: Calls, replies: Answers, c: Call<Request, Env>,
                  r: Reply<Response, Error>)
    requires |calls| == |replies| && IdsFit(t, calls, replies) && CutOut(t, u, k) && Deletes(c, r, t[k].id)
    ensures IdsFit(u, calls + [c], replies + [r])
  {
    HistoryOfCreated(calls, replies, c, r, t[k].id);
    forall id | Creation(calls + [c], replies + [r], id).Some? ensures Holds(u, id) {
      HistoryOfOthers(calls, replies, c, r, id);
      var i :| 0 <= i < |t| && t[i].id == id;
      assert u[if i < k then i else i - 1].id == id;
    }
  }

  lemma CutOrderFits(t: Table, u: Table, k: nat, calls: Calls, replies: Answers, c: Call<Request, Env>,
                     r: Reply<Response, Error>)
    requires |calls| == |replies| && OrderFits(t, calls, replies) && CutOut(t, u, k) && Deletes(c, r, t[k].id)
    ensures OrderFits(u, calls + [c], replies + [r])
  {
    forall i, j | 0 <= i < j < |u| ensures EarlierIn(calls + [c], replies + [r], u[i].id, u[j].id) {
      var a, b := if i < k then i else i + 1, if j < k then j else j + 1;
      assert u[i] == t[a] && u[j] == t[b];
      HistoryOfOthers(calls, replies, c, r, t[a].id);
      HistoryOfOthers(calls, replies, c, r, t[b].id);
    }
  }

  lemma DeletionKeepsHistory(n: Normalize, t: Table, calls: Calls, replies: Answers, c: Call<Request, Env>)
    requires |calls| == |replies| && TableFromHistory(n, t, calls, replies) && UniqueIds(t) && c.request.Delete?
    requires Apply(n, t, c.request, c.env).Done?
    ensures var u := Apply(n, t, c.request, c.env);
            TableFromHistory(n, u.state, calls + [c], replies + [Fresh(u.response)])
  {
    var u := Apply(n, t, c.request, c.env);
    var k := RowOf(t, c.request.id);
    CuttingOut(t, k);
    assert u.state == t[..k] + t[k+1..];
    CutRowsFit(n, t, u.state, k, calls, replies, c, Fresh(u.response));
    CutIdsFit(t, u.state, k, calls, replies, c, Fresh(u.response));
    CutOrderFits(t, u.state, k, calls, replies, c, Fresh(u.response));
  }

  // ----- Every run -----

  lemma NothingKeepsHistory(n: Normalize, t: Table, calls: Calls, replies: Answers, c: Call<Request, Env>,
                            r: Reply<Response, Error>)
    requires |calls| == |replies| && TableFromHistory(n, t, calls, replies) && !r.Fresh?
    ensures TableFromHistory(n, t, calls + [c], replies + [r])
  {
    forall id
      ensures Creation(calls + [c], replies + [r], id) == Creation(calls, replies, id)
      ensures LastWrite(calls + [c], replies + [r], id) == LastWrite(calls, replies, id)
    {
      HistoryOfOthers(calls, replies, c, r, id);
    }
  }

  const EMPTY: Ledger<Table, Request, Response> := Ledger([], map[])

  /** Over every run, the table holds exactly the entries created and not deleted since, in the order of their creation,
      each with the content and the time of its last write that went through, and the time of its creation. */
  lemma {:induction false} RunFollowsHistory(n: Normalize, calls: Calls)
    ensures TableFromHistory(n, Run(Applied(n), EMPTY, calls).state, calls, Replies(Applied(n), EMPTY, calls))
  {
    if calls != [] {
      var front, last := calls[..|calls|-1], calls[|calls|-1];
      assert calls == front + [last];
      RunFollowsHistory(n, front);
      StepFollowsHistory(n, Run(Applied(n), EMPTY, front), front, Replies(Applied(n), EMPTY, front), last);
      RevisionCountsUpdates(n, front);
      RunOneMore(Applied(n), EMPTY, front, last);
    }
  }

  lemma StepFollowsHistory(n: Normalize, before: Ledger<Table, Request, Response>, calls: Calls, replies: Answers,
                           c: Call<Request, Env>)
    requires |calls| == |replies| && TableFromHistory(n, before.state, calls, replies) && UniqueIds(before.state)
    ensures var (after, r) := Submit(Applied(n), before, c);
            TableFromHistory(n, after.state, calls + [c], replies + [r])
  {
    var r := Submit(Applied(n), before, c).1;
    if !r.Fresh? {
      NothingKeepsHistory(n, before.state, calls, replies, c, r);
    } else {
      match c.request
      case Create(_) => CreationKeepsHistory(n, before.state, calls, replies, c);
      case Update(_, _) => UpdateKeepsHistory(n, before.state, calls, replies, c);
      case Delete(_) => DeletionKeepsHistory(n, before.state, calls, replies, c);
    }
  }

  // ----- Replies -----

  /** Which requests go through, and what they answer, from the table before and after. */
  ghost predicate ReplyMeans(t: Table, u: Table, c: Call<Request, Env>, r: Reply<Response, Error>) {
    match c.request
    case Create(command) =>
      if exists e :: e in t && e.id == c.env.newId then r == Failed(IdTaken(c.env.newId)) && u == t
      else r.Fresh? && r.response.Written? && AddsLast(t, u, command, c.env, r.response.entry)
    case Update(id, command) =>
      if exists e :: e in t && e.id == id then
        r.Fresh? && r.response.Written? && ReplacesRow(t, u, id, command, c.env.now, r.response.entry)
      else r == Failed(NotFound(id)) && u == t
    case Delete(id) =>
      if exists e :: e in t && e.id == id then r == Fresh(Deleted(id)) && LosesRow(t, u, id)
      else r == Failed(NotFound(id)) && u == t
  }

  /** The entry comes last, and the rows before it stay. */
  predicate AddsLast(t: Table, u: Table, command: Command, env: Env, e: Entry) {
    && |u| == |t| + 1 && u[..|t|] == t && u[|t|] == e
    && e.id == env.newId && e.command == command && e.revision == 1 && e.createdAt == e.updatedAt == env.now
  }

  /** The row with the id is replaced where it is by the entry, which is one revision on. */
  ghost predicate ReplacesRow(t: Table, u: Table, id: EntryId, command: Command, now: int, e: Entry) {
    && |u| == |t| && (forall i :: 0 <= i < |t| && t[i].id != id ==> u[i] == t[i])
    && (forall i :: 0 <= i < |t| && t[i].id == id ==>
          u[i] == e && e.revision == t[i].revision + 1 && e.createdAt == t[i].createdAt)
    && e.id == id && e.command == command && e.updatedAt == now
  }

  /** The row with the id is gone; the others keep their order. */
  ghost predicate LosesRow(t: Table, u: Table, id: EntryId) {
    && (forall e :: e in u <==> e in t && e.id != id)
    && exists k :: 0 <= k < |t| && t[k].id == id && u == t[..k] + t[k+1..]
  }

  /** What applying the request answers, as a reply. */
  ghost predicate Applies(n: Normalize, t: Table, u: Table, c: Call<Request, Env>, r: Reply<Response, Error>) {
    match Apply(n, t, c.request, c.env)
    case Refused(error) => r == Failed(error) && u == t
    case Done(state, response) => r == Fresh(response) && u == state
  }

  lemma CreationMeans(n: Normalize, t: Table, u: Table, c: Call<Request, Env>, r: Reply<Response, Error>)
    requires Applies(n, t, u, c, r) && c.request.Create?
    ensures ReplyMeans(t, u, c, r)
  {
  }

  lemma UpdateMeans(n: Normalize, t: Table, u: Table, c: Call<Request, Env>, r: Reply<Response, Error>)
    requires Applies(n, t, u, c, r) && c.request.Update? && UniqueIds(t)
    ensures ReplyMeans(t, u, c, r)
  {
    var k := RowOf(t, c.request.id);
    if k < |t| {
      assert t[k] in t;
      assert forall i :: 0 <= i < |t| && t[i].id == c.request.id ==> i == k;
    }
  }

  lemma DeleteMeans(n: Normalize, t: Table, u: Table, c: Call<Request, Env>, r: Reply<Response, Error>)
    requires Applies(n, t, u, c, r) && c.request.Delete? && UniqueIds(t)
    ensures ReplyMeans(t, u, c, r)
  {
    var k := RowOf(t, c.request.id);
    if k < |t| {
      assert t[k] in t;
      DeletionMeans(t, c.request.id, k);
    }
  }

  lemma DeletionMeans(t: Table, id: EntryId, k: nat)
    requires UniqueIds(t) && k < |t| && t[k].id == id
    ensures LosesRow(t, t[..k] + t[k+1..], id)
  {
    var u := t[..k] + t[k+1..];
    forall e ensures e in u <==> e in t && e.id != id {
      if e in t && e.id != id {
        var i :| 0 <= i < |t| && t[i] == e;
        assert e == u[if i < k then i else i - 1];
      }
    }
  }

  /** Over every run, a call that is neither a replay nor a key conflict goes through exactly if the entry it is about
      is there, or its new id is not, and answers with the row it leaves; everything else stays. */
  lemma RepliesMean(n: Normalize, calls: Calls, i: nat)
    requires i < |calls| && var r := Replies(Applied(n), EMPTY, calls)[i]; r.Fresh? || r.Failed?
    ensures ReplyMeans(Run(Applied(n), EMPTY, calls[..i]).state, Run(Applied(n), EMPTY, calls[..i+1]).state, calls[i],
                       Replies(Applied(n), EMPTY, calls)[i])
  {
    RevisionCountsUpdates(n, calls[..i]);
    RepliesOfPrefix(Applied(n), EMPTY, calls, i + 1);
    assert calls[..i+1] == calls[..i] + [calls[i]];
    RunOneMore(Applied(n), EMPTY, calls[..i], calls[i]);
    var before := Run(Applied(n), EMPTY, calls[..i]);
    var r := Replies(Applied(n), EMPTY, calls)[i];
    assert r == Replies(Applied(n), EMPTY, calls[..i+1])[i] == Submit(Applied(n), before, calls[i]).1;
    SubmissionMeans(n, before, calls[i]);
  }

  lemma SubmissionMeans(n: Normalize, before: Ledger<Table, Request, Response>, c: Call<Request, Env>)
    requires UniqueIds(before.state)
    requires Submit(Applied(n), before, c).1.Fresh? || Submit(Applied(n), before, c).1.Failed?
    ensures var (after, r) := Submit(Applied(n), before, c); ReplyMeans(before.state, after.state, c, r)
  {
    var (after, r) := Submit(Applied(n), before, c);
    assert Applies(n, before.state, after.state, c, r);
    match c.request
    case Create(_) => CreationMeans(n, before.state, after.state, c, r);
    case Update(_, _) => UpdateMeans(n, before.state, after.state, c, r);
    case Delete(_) => DeleteMeans(n, before.state, after.state, c, r);
  }
}
