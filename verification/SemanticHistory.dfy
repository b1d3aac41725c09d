/** The memories as their history: what requests and replies alone say about every row and every tombstone. */
module SemanticHistory {
  import opened Wrappers
  import opened Idempotency
  import opened MemoryScopes
  import opened SemanticMemory

  type Transactions = seq<Call<Request, Env>>
  type Answers = seq<Reply<Response, Error>>

  // ----- What a call that went through did to a memory -----

  /** The memory is new. */
  predicate Inserts(c: Call<Request, Env>, r: Reply<Response, Error>, id: MemoryId) {
    && (c.request.Create? || c.request.Supersede?)
    && r.Fresh? && r.response.Mutated? && r.response.admission != Duplicate && r.response.id == id
  }

  /** The memory is confirmed, by request or as a duplicate. */
  predicate Confirms(c: Call<Request, Env>, r: Reply<Response, Error>, id: MemoryId) {
    || (c.request.Confirm? && r.Fresh? && c.request.id == id)
    || (c.request.Create? && r.Fresh? && r.response.Mutated? && r.response.admission == Duplicate &&
        r.response.id == id)
  }

  /** The memory is superseded. */
  predicate Replaces(c: Call<Request, Env>, r: Reply<Response, Error>, id: MemoryId) {
    c.request.Supersede? && r.Fresh? && r.response.Mutated? && c.request.id == id
  }

  predicate Deletes(c: Call<Request, Env>, r: Reply<Response, Error>, id: MemoryId) {
    c.request.Delete? && r.Fresh? && c.request.id == id
  }

  datatype Kind = Insertion | Confirmation | Change | Replacement | Burial

  predicate Is(kind: Kind, c: Call<Request, Env>, r: Reply<Response, Error>, id: MemoryId) {
    match kind
    case Insertion => Inserts(c, r, id)
    case Confirmation => Inserts(c, r, id) || Confirms(c, r, id)
    case Change => Inserts(c, r, id) || Confirms(c, r, id) || Replaces(c, r, id)
    case Replacement => Replaces(c, r, id)
    case Burial => Deletes(c, r, id)
  }

  /** After this nothing earlier of the kind concerns the memory that now has the id. */
  predicate Ends(kind: Kind, c: Call<Request, Env>, r: Reply<Response, Error>, id: MemoryId) {
    kind != Burial && (Deletes(c, r, id) || Inserts(c, r, id))
  }

  /** The last call of the kind that concerns the memory. */
  function Last(kind: Kind, calls: Transactions, replies: Answers, id: MemoryId): (at: Option<nat>)
    requires |calls| == |replies|
    ensures at.Some? ==> at.value < |calls| && Is(kind, calls[at.value], replies[at.value], id)
  {
    if calls == [] then None
    else
      var i := |calls| - 1;
      if Is(kind, calls[i], replies[i], id) then Some(i)
      else if Ends(kind, calls[i], replies[i], id) then None
      else Last(kind, calls[..i], replies[..i], id)
  }

  lemma LastOneMore(kind: Kind, calls: Transactions, replies: Answers, c: Call<Request, Env>, r: Reply<Response, Error>,
                    id: MemoryId)
    requires |calls| == |replies|
    ensures Last(kind, calls + [c], replies + [r], id) ==
            if Is(kind, c, r, id) then Some(|calls|)
            else if Ends(kind, c, r, id) then None
            else Last(kind, calls, replies, id)
  {
    assert (calls + [c])[..|calls|] == calls && (replies + [r])[..|replies|] == replies;
  }

  // ----- Rows, tombstones and their order -----

  /** The content is that of the insertion, and the key is made of scope, owner and normalized content. */
  predicate ContentFits(n: Normalize, row: Row, i: nat, calls: Transactions)
    requires i < |calls| && (calls[i].request.Create? || calls[i].request.Supersede?)
  {
    && row.command == calls[i].request.command && row.createdAt == calls[i].env.now
    && row.contentKey == ContentKey(row.command.scope, row.command.owner, n(row.command.content))
    && row.supersedes == if calls[i].request.Supersede? then Some(calls[i].request.id) else None
  }

  /** The memory is superseded exactly if it was replaced, by the memory that was the answer. */
  predicate StateFits(row: Row, replaced: Option<nat>, replies: Answers)
    requires replaced.Some? ==> replaced.value < |replies|
    requires replaced.Some? ==> replies[replaced.value].Fresh? && replies[replaced.value].response.Mutated?
  {
    if replaced.Some? then row.state == Superseded && row.supersededBy == Some(replies[replaced.value].response.id)
    else row.state == Active && row.supersededBy == None
  }

  predicate TimesFit(row: Row, confirmed: Option<nat>, changed: Option<nat>, calls: Transactions)
    requires confirmed.Some? ==> confirmed.value < |calls|
    requires changed.Some? ==> changed.value < |calls|
  {
    && confirmed.Some? && changed.Some?
    && row.confirmedAt == calls[confirmed.value].env.now && row.updatedAt == calls[changed.value].env.now
  }

  predicate RowFits(n: Normalize, id: MemoryId, row: Row, calls: Transactions, replies: Answers)
    requires |calls| == |replies|
  {
    && Last(Insertion, calls, replies, id).Some?
    && ContentFits(n, row, Last(Insertion, calls, replies, id).value, calls)
    && StateFits(row, Last(Replacement, calls, replies, id), replies)
    && TimesFit(row, Last(Confirmation, calls, replies, id), Last(Change, calls, replies, id), calls)
  }

  ghost predicate RowsFit(n: Normalize, t: Tables, calls: Transactions, replies: Answers)
    requires |calls| == |replies|
  {
    forall id :: id in t.rows ==> RowFits(n, id, t.rows[id], calls, replies)
  }

  ghost predicate IdsFit(t: Tables, calls: Transactions, replies: Answers)
    requires |calls| == |replies|
  {
    forall id :: Last(Insertion, calls, replies, id).Some? ==> id in t.rows
  }

  predicate TombstoneFits(tombstone: Tombstone, buried: Option<nat>, calls: Transactions)
    requires buried.Some? ==> buried.value < |calls|
  {
    buried.Some? && tombstone == Tombstone(calls[buried.value].env.now, calls[buried.value].env.traceId)
  }

  ghost predicate TombstonesFit(t: Tables, calls: Transactions, replies: Answers)
    requires |calls| == |replies|
  {
    && (forall id :: id in t.tombstones ==> TombstoneFits(t.tombstones[id], Last(Burial, calls, replies, id), calls))
    && (forall id :: Last(Burial, calls, replies, id).Some? ==> id in t.tombstones)
  }

  predicate EarlierIn(calls: Transactions, replies: Answers, a: MemoryId, b: MemoryId)
    requires |calls| == |replies|
  {
    var i, j := Last(Insertion, calls, replies, a), Last(Insertion, calls, replies, b);
    i.Some? && j.Some? && i.value < j.value
  }

  ghost predicate OrderFits(t: Tables, calls: Transactions, replies: Answers)
    requires |calls| == |replies|
  {
    forall i, j :: 0 <= i < j < |t.order| ==> EarlierIn(calls, replies, t.order[i], t.order[j])
  }

  /** The tables are those the history leaves. */
  ghost predicate TablesFit(n: Normalize, t: Tables, calls: Transactions, replies: Answers)
    requires |calls| == |replies|
  {
    && RowsFit(n, t, calls, replies) && IdsFit(t, calls, replies) && TombstonesFit(t, calls, replies)
    && Listed(t) && OrderFits(t, calls, replies)
  }

  // ----- One more call -----

  /** The call does not concern the memory. */
  predicate Foreign(c: Call<Request, Env>, r: Reply<Response, Error>, id: MemoryId) {
    !Inserts(c, r, id) && !Confirms(c, r, id) && !Replaces(c, r, id) && !Deletes(c, r, id)
  }

  lemma RowStays(n: Normalize, id: MemoryId, row: Row, calls: Transactions, replies: Answers, c: Call<Request, Env>,
                 r: Reply<Response, Error>)
    requires |calls| == |replies| && RowFits(n, id, row, calls, replies) && Foreign(c, r, id)
    ensures RowFits(n, id, row, calls + [c], replies + [r])
  {
    forall kind: Kind ensures Last(kind, calls + [c], replies + [r], id) == Last(kind, calls, replies, id) {
      LastOneMore(kind, calls, replies, c, r, id);
    }
  }

  /** Rows the call does not concern go on fitting. */
  lemma OtherRowsStay(n: Normalize, t: Tables, u: Tables, ids: set<MemoryId>, calls: Transactions, replies: Answers,
                      c: Call<Request, Env>, r: Reply<Response, Error>)
    requires |calls| == |replies| && RowsFit(n, t, calls, replies)
    requires forall x :: x in u.rows && x !in ids ==> x in t.rows && u.rows[x] == t.rows[x] && Foreign(c, r, x)
    ensures forall x :: x in u.rows && x !in ids ==> RowFits(n, x, u.rows[x], calls + [c], replies + [r])
  {
    forall x | x in u.rows && x !in ids ensures RowFits(n, x, u.rows[x], calls + [c], replies + [r]) {
      RowStays(n, x, t.rows[x], calls, replies, c, r);
    }
  }

  lemma RowIsInserted(n: Normalize, id: MemoryId, row: Row, calls: Transactions, replies: Answers,
      c: Call<Request, Env>, r: Reply<Response, Error>)
    requires |calls| == |replies| && Inserts(c, r, id) && !Replaces(c, r, id)
    requires row.command == c.request.command && row.createdAt == row.confirmedAt == row.updatedAt == c.env.now
    requires row.contentKey == ContentKey(row.command.scope, row.command.owner, n(row.command.content))
    requires row.supersedes == if c.request.Supersede? then Some(c.request.id) else None
    requires row.state == Active && row.supersededBy == None
    ensures RowFits(n, id, row, calls + [c], replies + [r])
  {
    LastOneMore(Insertion, calls, replies, c, r, id);
    LastOneMore(Confirmation, calls, replies, c, r, id);
    LastOneMore(Change, calls, replies, c, r, id);
    LastOneMore(Replacement, calls, replies, c, r, id);
  }

  lemma RowIsConfirmed(n: Normalize, id: MemoryId, row: Row, calls: Transactions, replies: Answers,
      c: Call<Request, Env>, r: Reply<Response, Error>)
    requires |calls| == |replies| && RowFits(n, id, row, calls, replies)
    requires Confirms(c, r, id) && !Inserts(c, r, id) && !Replaces(c, r, id) && !Deletes(c, r, id)
    ensures RowFits(n, id, row.(confirmedAt := c.env.now, updatedAt := c.env.now), calls + [c], replies + [r])
  {
    LastOneMore(Insertion, calls, replies, c, r, id);
    LastOneMore(Confirmation, calls, replies, c, r, id);
    LastOneMore(Change, calls, replies, c, r, id);
    LastOneMore(Replacement, calls, replies, c, r, id);
  }

  lemma RowIsReplaced(n: Normalize, id: MemoryId, row: Row, calls: Transactions, replies: Answers,
      c: Call<Request, Env>, r: Reply<Response, Error>)
    requires |calls| == |replies| && RowFits(n, id, row, calls, replies)
    requires Replaces(c, r, id) && !Inserts(c, r, id)
    ensures RowFits(n, id, row.(state := Superseded, supersededBy := Some(r.response.id), updatedAt := c.env.now),
                    calls + [c], replies + [r])
  {
    LastOneMore(Insertion, calls, replies, c, r, id);
    LastOneMore(Confirmation, calls, replies, c, r, id);
    LastOneMore(Change, calls, replies, c, r, id);
    LastOneMore(Replacement, calls, replies, c, r, id);
  }

  lemma TombstonesStay(t: Tables, u: Tables, calls: Transactions, replies: Answers, c: Call<Request, Env>,
                       r: Reply<Response, Error>)
    requires |calls| == |replies| && TombstonesFit(t, calls, replies) && u.tombstones == t.tombstones
    requires !(c.request.Delete? && r.Fresh?)
    ensures TombstonesFit(u, calls + [c], replies + [r])
  {
    forall id ensures Last(Burial, calls + [c], replies + [r], id) == Last(Burial, calls, replies, id) {
      LastOneMore(Burial, calls, replies, c, r, id);
    }
  }

  lemma OrderStays(t: Tables, u: Tables, calls: Transactions, replies: Answers, c: Call<Request, Env>,
                   r: Reply<Response, Error>)
    requires |calls| == |replies| && IdsFit(t, calls, replies) && OrderFits(t, calls, replies)
    requires u.order == t.order && u.rows.Keys == t.rows.Keys
    requires forall id :: !Inserts(c, r, id) && !Deletes(c, r, id)
    ensures IdsFit(u, calls + [c], replies + [r]) && OrderFits(u, calls + [c], replies + [r])
  {
    forall id ensures Last(Insertion, calls + [c], replies + [r], id) == Last(Insertion, calls, replies, id) {
      LastOneMore(Insertion, calls, replies, c, r, id);
    }
  }

  lemma OrderGrows(t: Tables, u: Tables, id: MemoryId, calls: Transactions, replies: Answers, c: Call<Request, Env>,
                   r: Reply<Response, Error>)
    requires |calls| == |replies| && IdsFit(t, calls, replies) && OrderFits(t, calls, replies) && Listed(t)
    requires forall x :: x in t.rows ==> Last(Insertion, calls, replies, x).Some?
    requires id !in t.rows && Inserts(c, r, id) && u.order == t.order + [id] && u.rows.Keys == t.rows.Keys + {id}
    ensures IdsFit(u, calls + [c], replies + [r]) && OrderFits(u, calls + [c], replies + [r])
  {
    forall x
      ensures Last(Insertion, calls + [c], replies + [r], x) ==
              if x == id then Some(|calls|) else Last(Insertion, calls, replies, x)
    {
      LastOneMore(Insertion, calls, replies, c, r, x);
    }
    forall i, j | 0 <= i < j < |u.order| ensures EarlierIn(calls + [c], replies + [r], u.order[i], u.order[j]) {
      assert t.order[i] in t.rows.Keys;
    }
  }

  lemma OrderShrinks(t: Tables, u: Tables, id: MemoryId, calls: Transactions, replies: Answers, c: Call<Request, Env>,
                     r: Reply<Response, Error>)
    requires |calls| == |replies| && IdsFit(t, calls, replies) && OrderFits(t, calls, replies) && Listed(t)
    requires id in t.rows && Deletes(c, r, id) && u.order == Without(t.order, id) && u.rows.Keys == t.rows.Keys - {id}
    ensures IdsFit(u, calls + [c], replies + [r]) && OrderFits(u, calls + [c], replies + [r])
  {
    forall x
      ensures Last(Insertion, calls + [c], replies + [r], x) ==
              if x == id then None else Last(Insertion, calls, replies, x)
    {
      LastOneMore(Insertion, calls, replies, c, r, x);
    }
    ShortenedOrderFits(t, id, calls, replies, calls + [c], replies + [r]);
  }

  lemma ShortenedOrderFits(t: Tables, id: MemoryId, calls: Transactions, replies: Answers, more: Transactions,
                           answers: Answers)
    requires |calls| == |replies| && |more| == |answers| && Listed(t) && id in t.rows && OrderFits(t, calls, replies)
    requires forall x :: x != id ==> Last(Insertion, more, answers, x) == Last(Insertion, calls, replies, x)
    ensures var rest := Without(t.order, id);
            forall i, j :: 0 <= i < j < |rest| ==> EarlierIn(more, answers, rest[i], rest[j])
  {
    var rest := Without(t.order, id);
    forall i, j | 0 <= i < j < |rest| ensures EarlierIn(more, answers, rest[i], rest[j]) {
      var a, b := PlacesBefore(t.order, t.rows.Keys, id, i, j);
      assert EarlierIn(calls, replies, t.order[a], t.order[b]);
    }
  }

  lemma PlacesBefore(order: seq<MemoryId>, ids: set<MemoryId>, id: MemoryId, i: nat, j: nat) returns (a: nat, b: nat)
    requires Lists(order, ids) && id in ids && i < j < |Without(order, id)|
    ensures a < b < |order| && Without(order, id)[i] == order[a] != id && Without(order, id)[j] == order[b] != id
  {
    assert id in order;
    WithoutLists(order, ids, id);
    WithoutKeepsPlaces(order, id, i);
    WithoutKeepsPlaces(order, id, j);
    a, b := Before(order, id, i), Before(order, id, j);
  }

  // ----- The four transactions -----

  lemma InsertedRowsFit(n: Normalize, t: Tables, id: MemoryId, row: Row, calls: Transactions, replies: Answers,
                        c: Call<Request, Env>, r: Reply<Response, Error>)
    requires |calls| == |replies| && RowsFit(n, t, calls, replies) && c.request.Create? && id !in t.rows
    requires r == Fresh(Mutated(New, id, row)) && row == NewRow(n, c.request.command, c.env.now, None)
    ensures RowsFit(n, Insert(t, id, row), calls + [c], replies + [r])
  {
    RowIsInserted(n, id, row, calls, replies, c, r);
    forall x | x != id ensures Foreign(c, r, x) {}
    OtherRowsStay(n, t, Insert(t, id, row), {id}, calls, replies, c, r);
  }

  lemma InsertionFits(n: Normalize, t: Tables, calls: Transactions, replies: Answers, c: Call<Request, Env>)
    requires |calls| == |replies| && TablesFit(n, t, calls, replies) && c.request.Create?
    requires !c.env.sawDuplicate && Apply(n, t, c.request, c.env).Done?
    ensures var u := Apply(n, t, c.request, c.env);
            TablesFit(n, u.state, calls + [c], replies + [Fresh(u.response)])
  {
    var u := Apply(n, t, c.request, c.env);
    var id, r := c.env.newId, Fresh(u.response);
    var row := NewRow(n, c.request.command, c.env.now, None);
    assert u == Done(Insert(t, id, row), Mutated(New, id, row));
    InsertedRowsFit(n, t, id, row, calls, replies, c, r);
    TombstonesStay(t, u.state, calls, replies, c, r);
    InsertKeepsListed(t, id, row);
    OrderGrows(t, u.state, id, calls, replies, c, r);
  }

  lemma ConfirmationFits(n: Normalize, t: Tables, id: MemoryId, calls: Transactions, replies: Answers,
      c: Call<Request, Env>, r: Reply<Response, Error>)
    requires |calls| == |replies| && TablesFit(n, t, calls, replies) && id in t.rows
    requires Confirms(c, r, id) && forall x :: !Inserts(c, r, x) && !Replaces(c, r, x) && !Deletes(c, r, x)
    requires forall x :: Confirms(c, r, x) ==> x == id
    requires !(c.request.Delete? && r.Fresh?)
    ensures TablesFit(n, Rewrite(t, id, t.rows[id].(confirmedAt := c.env.now, updatedAt := c.env.now)), calls + [c],
                      replies + [r])
  {
    var u := Rewrite(t, id, t.rows[id].(confirmedAt := c.env.now, updatedAt := c.env.now));
    assert u.rows.Keys == t.rows.Keys;
    ConfirmedRowsFit(n, t, id, calls, replies, c, r);
    TombstonesStay(t, u, calls, replies, c, r);
    OrderStays(t, u, calls, replies, c, r);
  }

  lemma ConfirmedRowsFit(n: Normalize, t: Tables, id: MemoryId, calls: Transactions, replies: Answers,
                         c: Call<Request, Env>, r: Reply<Response, Error>)
    requires |calls| == |replies| && RowsFit(n, t, calls, replies) && id in t.rows
    requires Confirms(c, r, id) && forall x :: !Inserts(c, r, x) && !Replaces(c, r, x) && !Deletes(c, r, x)
    requires forall x :: Confirms(c, r, x) ==> x == id
    ensures RowsFit(n, Rewrite(t, id, t.rows[id].(confirmedAt := c.env.now, updatedAt := c.env.now)), calls + [c],
                    replies + [r])
  {
    var u := Rewrite(t, id, t.rows[id].(confirmedAt := c.env.now, updatedAt := c.env.now));
    RowIsConfirmed(n, id, t.rows[id], calls, replies, c, r);
    OtherRowsStay(n, t, u, {id}, calls, replies, c, r);
  }

  /** The rows after a replacement. */
  ghost predicate RowsReplaced(n: Normalize, t: Tables, u: Tables, id: MemoryId, c: Command, env: Env) {
    && id in t.rows && env.newId !in t.rows && u.rows.Keys == t.rows.Keys + {env.newId}
    && u.rows[env.newId] == NewRow(n, c, env.now, Some(id))
    && u.rows[id] == MarkedSuperseded(t.rows[id], env.newId, env.now)
    && forall x :: x in t.rows && x != id ==> u.rows[x] == t.rows[x]
  }

  lemma RowsOfReplace(n: Normalize, t: Tables, id: MemoryId, c: Command, env: Env)
    requires id in t.rows && env.newId !in t.rows
    ensures RowsReplaced(n, t, Replace(n, t, id, c, env), id, c, env)
  {
  }

  lemma ReplacedRowsFit(n: Normalize, t: Tables, u: Tables, calls: Transactions, replies: Answers,
                        c: Call<Request, Env>, r: Reply<Response, Error>)
    requires |calls| == |replies| && RowsFit(n, t, calls, replies) && c.request.Supersede?
    requires RowsReplaced(n, t, u, c.request.id, c.request.command, c.env)
    requires r == Fresh(Mutated(Supersedes, c.env.newId, u.rows[c.env.newId]))
    ensures RowsFit(n, u, calls + [c], replies + [r])
  {
    forall x | x in u.rows ensures RowFits(n, x, u.rows[x], calls + [c], replies + [r]) {
      if x == c.env.newId {
        NewRowFits(n, t, u, calls, replies, c, r);
      } else if x == c.request.id {
        FormerRowFits(n, t, u, calls, replies, c, r);
      } else {
        assert Foreign(c, r, x);
        RowStays(n, x, t.rows[x], calls, replies, c, r);
      }
    }
  }

  lemma NewRowFits(n: Normalize, t: Tables, u: Tables, calls: Transactions, replies: Answers,
                   c: Call<Request, Env>, r: Reply<Response, Error>)
    requires |calls| == |replies| && c.request.Supersede?
    requires RowsReplaced(n, t, u, c.request.id, c.request.command, c.env)
    requires r == Fresh(Mutated(Supersedes, c.env.newId, u.rows[c.env.newId]))
    ensures RowFits(n, c.env.newId, u.rows[c.env.newId], calls + [c], replies + [r])
  {
    RowIsInserted(n, c.env.newId, u.rows[c.env.newId], calls, replies, c, r);
  }

  lemma FormerRowFits(n: Normalize, t: Tables, u: Tables, calls: Transactions, replies: Answers,
                      c: Call<Request, Env>, r: Reply<Response, Error>)
    requires |calls| == |replies| && RowsFit(n, t, calls, replies) && c.request.Supersede?
    requires RowsReplaced(n, t, u, c.request.id, c.request.command, c.env)
    requires r == Fresh(Mutated(Supersedes, c.env.newId, u.rows[c.env.newId]))
    ensures RowFits(n, c.request.id, u.rows[c.request.id], calls + [c], replies + [r])
  {
    RowIsReplaced(n, c.request.id, t.rows[c.request.id], calls, replies, c, r);
  }

  lemma ReplacementFits(n: Normalize, t: Tables, calls: Transactions, replies: Answers, c: Call<Request, Env>)
    requires |calls| == |replies| && TablesFit(n, t, calls, replies) && c.request.Supersede?
    requires Apply(n, t, c.request, c.env).Done?
    ensures var u := Apply(n, t, c.request, c.env);
            TablesFit(n, u.state, calls + [c], replies + [Fresh(u.response)])
  {
    var u := Apply(n, t, c.request, c.env);
    var former, id, r := c.request.id, c.env.newId, Fresh(u.response);
    assert u.state == Replace(n, t, former, c.request.command, c.env) && former != id;
    assert u.state.rows.Keys == t.rows.Keys + {id};
    RowsOfReplace(n, t, former, c.request.command, c.env);
    ReplacedRowsFit(n, t, u.state, calls, replies, c, r);
    TombstonesStay(t, u.state, calls, replies, c, r);
    InsertKeepsListed(t, id, NewRow(n, c.request.command, c.env.now, Some(former)));
    OrderGrows(t, u.state, id, calls, replies, c, r);
  }

  lemma BurialFits(n: Normalize, t: Tables, calls: Transactions, replies: Answers, c: Call<Request, Env>)
    requires |calls| == |replies| && TablesFit(n, t, calls, replies) && c.request.Delete?
    requires Apply(n, t, c.request, c.env).Done?
    ensures var u := Apply(n, t, c.request, c.env);
            TablesFit(n, u.state, calls + [c], replies + [Fresh(u.response)])
  {
    var u := Apply(n, t, c.request, c.env);
    var id, r, tombstone := c.request.id, Fresh(u.response), Tombstone(c.env.now, c.env.traceId);
    assert u.state == Bury(t, id, tombstone) && u.state.rows.Keys == t.rows.Keys - {id};
    BuriedRowsFit(n, t, id, calls, replies, c, r);
    BuriedTombstonesFit(t, id, calls, replies, c, r);
    BuryKeepsListed(t, id, tombstone);
    OrderShrinks(t, u.state, id, calls, replies, c, r);
  }

  lemma BuriedRowsFit(n: Normalize, t: Tables, id: MemoryId, calls: Transactions, replies: Answers,
                      c: Call<Request, Env>, r: Reply<Response, Error>)
    requires |calls| == |replies| && RowsFit(n, t, calls, replies) && Deletes(c, r, id)
    ensures RowsFit(n, Bury(t, id, Tombstone(c.env.now, c.env.traceId)), calls + [c], replies + [r])
  {
    var u := Bury(t, id, Tombstone(c.env.now, c.env.traceId));
    assert u.rows == t.rows - {id};
    forall x | x != id ensures Foreign(c, r, x) {}
    OtherRowsStay(n, t, u, {}, calls, replies, c, r);
  }

  lemma BuriedTombstonesFit(t: Tables, id: MemoryId, calls: Transactions, replies: Answers, c: Call<Request, Env>,
                            r: Reply<Response, Error>)
    requires |calls| == |replies| && TombstonesFit(t, calls, replies) && Deletes(c, r, id)
    ensures TombstonesFit(Bury(t, id, Tombstone(c.env.now, c.env.traceId)), calls + [c], replies + [r])
  {
    forall x
      ensures Last(Burial, calls + [c], replies + [r], x) ==
              if x == id then Some(|calls|) else Last(Burial, calls, replies, x)
    {
      LastOneMore(Burial, calls, replies, c, r, x);
    }
  }

  lemma NothingFits(n: Normalize, t: Tables, calls: Transactions, replies: Answers, c: Call<Request, Env>,
                    r: Reply<Response, Error>)
    requires |calls| == |replies| && TablesFit(n, t, calls, replies) && !r.Fresh?
    ensures TablesFit(n, t, calls + [c], replies + [r])
  {
    forall x | x in t.rows ensures RowFits(n, x, t.rows[x], calls + [c], replies + [r]) {
      RowStays(n, x, t.rows[x], calls, replies, c, r);
    }
    TombstonesStay(t, t, calls, replies, c, r);
    OrderStays(t, t, calls, replies, c, r);
  }

  lemma CreationFits(n: Normalize, t: Tables, calls: Transactions, replies: Answers, c: Call<Request, Env>)
    requires |calls| == |replies| && TablesFit(n, t, calls, replies) && c.request.Create?
    requires Apply(n, t, c.request, c.env).Done?
    ensures var u := Apply(n, t, c.request, c.env);
            TablesFit(n, u.state, calls + [c], replies + [Fresh(u.response)])
  {
    if c.env.sawDuplicate {
      var u := Apply(n, t, c.request, c.env);
      ConfirmationFits(n, t, u.response.id, calls, replies, c, Fresh(u.response));
    } else {
      InsertionFits(n, t, calls, replies, c);
    }
  }

  lemma StepFits(n: Normalize, b: Book, calls: Transactions, replies: Answers, c: Call<Request, Env>)
    requires |calls| == |replies| && TablesFit(n, b.state, calls, replies)
    ensures var (after, r) := Submit(Applied(n), b, c); TablesFit(n, after.state, calls + [c], replies + [r])
  {
    var (after, r) := Submit(Applied(n), b, c);
    if !r.Fresh? {
      NothingFits(n, b.state, calls, replies, c, r);
    } else {
      match c.request
      case Create(_) => CreationFits(n, b.state, calls, replies, c);
      case Confirm(id) => ConfirmationFits(n, b.state, id, calls, replies, c, r);
      case Supersede(_, _) => ReplacementFits(n, b.state, calls, replies, c);
      case Delete(_) => BurialFits(n, b.state, calls, replies, c);
    }
  }

  const NOTHING: Book := Ledger(EMPTY, map[])

  /** Over every run of transactions, the live memories are those inserted and not deleted since, in the order of their
      insertion, each with the content of its insertion, the times of its last confirmation and change, and the
      successor it was replaced by; and the tombstones are those of the deletions. */
  lemma {:induction false} TransactionsFollowHistory(n: Normalize, calls: Transactions)
    ensures TablesFit(n, Idempotency.Run(Applied(n), NOTHING, calls).state, calls, Replies(Applied(n), NOTHING, calls))
  {
    if calls != [] {
      var front, last := calls[..|calls|-1], calls[|calls|-1];
      assert calls == front + [last];
      TransactionsFollowHistory(n, front);
      StepFits(n, Idempotency.Run(Applied(n), NOTHING, front), front, Replies(Applied(n), NOTHING, front), last);
      RunOneMore(Applied(n), NOTHING, front, last);
    }
  }

  /** So it is for the transactions of every interleaved run. */
  lemma RunFollowsHistory(n: Normalize, steps: seq<Step>)
    ensures var calls := Calls(n, steps);
            TablesFit(n, RunSystem(n, steps).book.state, calls, Replies(Applied(n), NOTHING, calls))
  {
    RunIsItsTransactions(n, steps);
    TransactionsFollowHistory(n, Calls(n, steps));
  }

  // ----- Replies -----

  /** Scope, owner and normalized content agree. */
  predicate SameContent(n: Normalize, c: Command, d: Command) {
    c.scope == d.scope && c.owner == d.owner && n(c.content) == n(d.content)
  }

  /** The memory is active and has the content. */
  predicate ActiveLike(n: Normalize, t: Tables, id: MemoryId, c: Command) {
    id in t.rows && t.rows[id].state == Active && SameContent(n, t.rows[id].command, c)
  }

  ghost predicate SomeActiveLike(n: Normalize, t: Tables, c: Command) {
    exists id :: ActiveLike(n, t, id, c)
  }

  /** No active memory with the content was created earlier, nor at the same time and inserted earlier. */
  ghost predicate OldestLike(n: Normalize, t: Tables, id: MemoryId, c: Command) {
    && ActiveLike(n, t, id, c)
    && exists i :: 0 <= i < |t.order| && t.order[i] == id &&
         forall j :: 0 <= j < |t.order| && ActiveLike(n, t, t.order[j], c) ==>
           || t.rows[id].createdAt < t.rows[t.order[j]].createdAt
           || (t.rows[id].createdAt == t.rows[t.order[j]].createdAt && i <= j)
  }

  /** Other rows and all tombstones are as before. */
  ghost predicate OthersStay(t: Tables, u: Tables, ids: set<MemoryId>) {
    && u.tombstones == t.tombstones && u.rows.Keys - ids == t.rows.Keys - ids
    && forall x :: x in t.rows && x in u.rows && x !in ids ==> u.rows[x] == t.rows[x]
  }

  /** What a creation answers: by what its unlocked look saw, and by what there is at the commit. */
  ghost predicate CreationMeans(n: Normalize, t: Tables, u: Tables, c: Command, env: Env, r: Reply<Response, Error>) {
    if SomeActiveLike(n, t, c) then
      if env.sawDuplicate then
        && r.Fresh? && r.response.Mutated? && r.response.admission == Duplicate
        && OldestLike(n, t, r.response.id, c) && OthersStay(t, u, {r.response.id})
        && r.response.id in u.rows && r.response.row == u.rows[r.response.id]
      else r == Failed(ConcurrentDuplicate) && u == t
    else if env.sawDuplicate then r == Failed(DatabaseLocked) && u == t
    else if env.newId in t.rows then r == Failed(IntegrityError) && u == t
    else
      && r.Fresh? && r.response.Mutated? && r.response.admission == New && r.response.id == env.newId
      && OthersStay(t, u, {env.newId}) && env.newId in u.rows && r.response.row == u.rows[env.newId]
  }

  ghost predicate ConfirmMeans(t: Tables, u: Tables, id: MemoryId, r: Reply<Response, Error>) {
    if id !in t.rows then r == Failed(NotFound) && u == t
    else if t.rows[id].state == Superseded then r == Failed(StateConflict) && u == t
    else OthersStay(t, u, {id}) && id in u.rows && r == Fresh(Confirmed(u.rows[id]))
  }

  ghost predicate SupersedeMeans(t: Tables, u: Tables, id: MemoryId, env: Env, r: Reply<Response, Error>) {
    if id !in t.rows then r == Failed(NotFound) && u == t
    else if t.rows[id].state == Superseded then r == Failed(StateConflict) && u == t
    else if env.newId in t.rows then r == Failed(IntegrityError) && u == t
    else
      && OthersStay(t, u, {id, env.newId}) && id in u.rows && env.newId in u.rows
      && r == Fresh(Mutated(Supersedes, env.newId, u.rows[env.newId]))
  }

  ghost predicate DeleteMeans(t: Tables, u: Tables, id: MemoryId, env: Env, r: Reply<Response, Error>) {
    if id !in t.rows then r == Failed(NotFound) && u == t
    else if id in t.tombstones then r == Failed(IntegrityError) && u == t
    else
      && r == Fresh(Buried(Tombstone(env.now, env.traceId)))
      && id !in u.rows && u.rows.Keys == t.rows.Keys - {id} && (forall x :: x in u.rows ==> u.rows[x] == t.rows[x])
      && u.tombstones.Keys == t.tombstones.Keys + {id}
      && forall x :: x in t.tombstones ==> u.tombstones[x] == t.tombstones[x]
  }

  ghost predicate ReplyMeans(n: Normalize, t: Tables, u: Tables, c: Call<Request, Env>, r: Reply<Response, Error>) {
    match c.request
    case Create(command) => CreationMeans(n, t, u, command, c.env, r)
    case Confirm(id) => ConfirmMeans(t, u, id, r)
    case Supersede(id, _) => SupersedeMeans(t, u, id, c.env, r)
    case Delete(id) => DeleteMeans(t, u, id, c.env, r)
  }

  /** The stored keys are made of scope, owner and normalized content. */
  ghost predicate KeysFit(n: Normalize, t: Tables) {
    forall id :: id in t.rows ==>
      t.rows[id].contentKey ==
      ContentKey(t.rows[id].command.scope, t.rows[id].command.owner, n(t.rows[id].command.content))
  }

  lemma FittingKeys(n: Normalize, t: Tables, calls: Transactions, replies: Answers)
    requires |calls| == |replies| && RowsFit(n, t, calls, replies)
    ensures KeysFit(n, t)
  {
    forall id | id in t.rows
      ensures t.rows[id].contentKey ==
              ContentKey(t.rows[id].command.scope, t.rows[id].command.owner, n(t.rows[id].command.content))
    {
      assert RowFits(n, id, t.rows[id], calls, replies);
    }
  }

  lemma LikeIsSameKey(n: Normalize, t: Tables, c: Command, id: MemoryId)
    requires KeysFit(n, t)
    ensures ActiveLike(n, t, id, c) <==> ActiveWith(t.rows, id, KeyOf(n, c))
  {
  }

  lemma DuplicateIsLike(n: Normalize, t: Tables, c: Command)
    requires KeysFit(n, t) && Listed(t)
    ensures var d := ActiveDuplicate(t.rows, t.order, KeyOf(n, c));
            (d.Some? <==> SomeActiveLike(n, t, c)) && (d.Some? ==> OldestLike(n, t, d.value, c))
  {
    var k := KeyOf(n, c);
    var d := ActiveDuplicate(t.rows, t.order, k);
    forall id ensures ActiveLike(n, t, id, c) <==> ActiveWith(t.rows, id, k) { LikeIsSameKey(n, t, c, id); }
    if d == None {
      forall id ensures !ActiveLike(n, t, id, c) {
        if id in t.rows.Keys { assert id in t.order; }
      }
    } else {
      assert ActiveLike(n, t, d.value, c);
      var i := ActiveDuplicateIsOldest(t.rows, t.order, k);
      assert t.order[i] == d.value;
    }
  }

  lemma CreationIsMeant(n: Normalize, b: Book, c: Call<Request, Env>)
    requires KeysFit(n, b.state) && Listed(b.state) && c.request.Create?
    requires Submit(Applied(n), b, c).1.Fresh? || Submit(Applied(n), b, c).1.Failed?
    ensures var (after, r) := Submit(Applied(n), b, c);
            CreationMeans(n, b.state, after.state, c.request.command, c.env, r)
  {
    DuplicateIsLike(n, b.state, c.request.command);
  }

  lemma OthersAreMeant(n: Normalize, b: Book, c: Call<Request, Env>)
    requires !c.request.Create?
    requires Submit(Applied(n), b, c).1.Fresh? || Submit(Applied(n), b, c).1.Failed?
    ensures var (after, r) := Submit(Applied(n), b, c); ReplyMeans(n, b.state, after.state, c, r)
  {
  }

  /** In every interleaved run, what the transaction of the next step answers, and which rows it leaves alone, follows
      from the tables before it. */
  lemma RepliesMean(n: Normalize, steps: seq<Step>, step: Step)
    requires CallOf(RunSystem(n, steps), step).Some?
    requires var r := Submit(Applied(n), RunSystem(n, steps).book, CallOf(RunSystem(n, steps), step).value).1;
             r.Fresh? || r.Failed?
    ensures var s := RunSystem(n, steps);
            var c := CallOf(s, step).value;
            var (after, r) := Submit(Applied(n), s.book, c);
            ReplyMeans(n, s.book.state, after.state, c, r) && RunSystem(n, steps + [step]).book == after
  {
    var b := RunSystem(n, steps).book;
    var c := CallOf(RunSystem(n, steps), step).value;
    RunFollowsHistory(n, steps);
    FittingKeys(n, b.state, Calls(n, steps), Replies(Applied(n), NOTHING, Calls(n, steps)));
    assert (steps + [step])[..|steps|] == steps;
    if c.request.Create? { CreationIsMeant(n, b, c); } else { OthersAreMeant(n, b, c); }
  }

  /** A creation that goes through, in any interleaving, answers DUPLICATE exactly if some active memory has its scope,
      owner and normalized content, and then the memory it answers with does; else it answers NEW. */
  lemma DuplicateExactlyIfThereIsOne(n: Normalize, steps: seq<Step>, step: Step)
    requires CallOf(RunSystem(n, steps), step).Some? && CallOf(RunSystem(n, steps), step).value.request.Create?
    requires Submit(Applied(n), RunSystem(n, steps).book, CallOf(RunSystem(n, steps), step).value).1.Fresh?
    ensures var s := RunSystem(n, steps);
            var c := CallOf(s, step).value;
            var r := Submit(Applied(n), s.book, c).1;
            && r.response.Mutated?
            && (r.response.admission == Duplicate <==> SomeActiveLike(n, s.book.state, c.request.command))
            && (r.response.admission == New <==> !SomeActiveLike(n, s.book.state, c.request.command))
            && ActiveLike(n, RunSystem(n, steps + [step]).book.state, r.response.id, c.request.command)
            && SameContent(n, r.response.row.command, c.request.command)
  {
    RepliesMean(n, steps, step);
    ReachableKeysFit(n, steps);
    assert (steps + [step])[..|steps|] == steps;
    CreationAnswersAlike(n, RunSystem(n, steps).book, CallOf(RunSystem(n, steps), step).value);
  }

  /** The memory a creation answers with is active and has the content. */
  lemma CreationAnswersAlike(n: Normalize, b: Book, c: Call<Request, Env>)
    requires KeysFit(n, b.state) && c.request.Create? && Submit(Applied(n), b, c).1.Fresh?
    ensures var (after, r) := Submit(Applied(n), b, c);
            && r.response.Mutated? && ActiveLike(n, after.state, r.response.id, c.request.command)
            && SameContent(n, r.response.row.command, c.request.command)
  {
  }

  // ----- Steps of the interleaving -----

  /** What is remembered of a key answers a look at once: the response again, or a conflict. */
  ghost predicate Remembered(b: Book, key: Key, q: Request, look: Look)
    requires key in b.results
  {
    look == Answered(if b.results[key].request == q then Replayed(b.results[key].response) else KeyConflict)
  }

  /** A creation's look finds whether some active memory has the content. */
  ghost predicate CreateLookMeans(n: Normalize, b: Book, key: Key, c: Command, look: Look) {
    if key in b.results then Remembered(b, key, Create(c), look)
    else
      && look.GoOn? && look.pending.PendingCreate? && look.pending.key == key && look.pending.command == c
      && (look.pending.sawDuplicate <==> SomeActiveLike(n, b.state, c))
  }

  /** A replacement's look goes on exactly if the memory is active and the replacement has its scope and owner. */
  ghost predicate SupersedeLookMeans(b: Book, key: Key, id: MemoryId, c: Command, look: Look) {
    var rows := b.state.rows;
    if key in b.results then Remembered(b, key, Supersede(id, c), look)
    else if id !in rows then look == Answered(Failed(NotFound))
    else if rows[id].state == Superseded then look == Answered(Failed(StateConflict))
    else if rows[id].command.scope == c.scope && rows[id].command.owner == c.owner
    then look == GoOn(PendingSupersede(key, id, c))
    else look == Answered(Failed(ScopeOrOwnerDiffers))
  }

  lemma LooksAreMeant(n: Normalize, steps: seq<Step>, key: Key, id: MemoryId, c: Command)
    ensures var b := RunSystem(n, steps).book;
            CreateLookMeans(n, b, key, c, CreateLook(n, b, key, c)) &&
            SupersedeLookMeans(b, key, id, c, SupersedeLook(b, key, id, c))
  {
    ReachableKeysFit(n, steps);
    RunFollowsHistory(n, steps);
    DuplicateIsLike(n, RunSystem(n, steps).book.state, c);
  }

  /** The step changes no caller's place but this one's. */
  ghost predicate OnlyCaller(s: System, u: System, caller: Caller) {
    u.pending.Keys - {caller} == s.pending.Keys - {caller} &&
    forall x :: x in s.pending && x in u.pending && x != caller ==> u.pending[x] == s.pending[x]
  }

  /** A look changes nothing in the tables, and a caller that is not busy waits for its commit if it is to go on. */
  ghost predicate LookMeans(s: System, u: System, caller: Caller, look: Look) {
    && u.book == s.book && OnlyCaller(s, u, caller)
    && (caller in u.pending <==> caller in s.pending || look.GoOn?)
    && (caller in s.pending ==> u.pending[caller] == s.pending[caller])
    && (caller !in s.pending && look.GoOn? ==> u.pending[caller] == look.pending)
  }

  /** The step runs just this transaction. */
  ghost predicate Transacts(n: Normalize, s: System, u: System, c: Call<Request, Env>) {
    u.book == Submit(Applied(n), s.book, c).0
  }

  /** The commit runs what its look prepared, with what the look saw. */
  ghost predicate CommitMeans(n: Normalize, s: System, u: System, p: Pending, env: Env) {
    match p
    case PendingCreate(key, c, saw) =>
      Transacts(n, s, u, Call(key, Create(c), Env(env.newId, env.now, env.traceId, saw)))
    case PendingSupersede(key, id, c) => Transacts(n, s, u, Call(key, Supersede(id, c), env))
  }

  /** What a step does, to the tables and to the callers. */
  ghost predicate StepMeans(n: Normalize, s: System, u: System, step: Step) {
    match step
    case LookCreate(caller, key, c) =>
      exists look :: CreateLookMeans(n, s.book, key, c, look) && LookMeans(s, u, caller, look)
    case LookSupersede(caller, key, id, c) =>
      exists look :: SupersedeLookMeans(s.book, key, id, c, look) && LookMeans(s, u, caller, look)
    case Commit(caller, env) =>
      && OnlyCaller(s, u, caller) && caller !in u.pending
      && if caller in s.pending then CommitMeans(n, s, u, s.pending[caller], env) else u.book == s.book
    case GiveUp(caller) => u.book == s.book && OnlyCaller(s, u, caller) && caller !in u.pending
    case ConfirmNow(key, id, env) => u.pending == s.pending && Transacts(n, s, u, Call(key, Confirm(id), env))
    case DeleteNow(key, id, env) => u.pending == s.pending && Transacts(n, s, u, Call(key, Delete(id), env))
  }

  lemma NextIsMeant(n: Normalize, steps: seq<Step>, step: Step)
    ensures var s := RunSystem(n, steps); StepMeans(n, s, Next(n, s, step), step)
  {
    var s := RunSystem(n, steps);
    match step
    case LookCreate(caller, key, c) =>
      LooksAreMeant(n, steps, key, "", c);
      assert LookMeans(s, Next(n, s, step), caller, CreateLook(n, s.book, key, c));
    case LookSupersede(caller, key, id, c) =>
      LooksAreMeant(n, steps, key, id, c);
      assert LookMeans(s, Next(n, s, step), caller, SupersedeLook(s.book, key, id, c));
    case _ =>
  }

  /** In every interleaved run every step does what it means. */
  lemma StepIsMeant(n: Normalize, steps: seq<Step>, step: Step)
    ensures StepMeans(n, RunSystem(n, steps), RunSystem(n, steps + [step]), step)
  {
    NextIsMeant(n, steps, step);
    assert (steps + [step])[..|steps|] == steps;
  }

  /** A creation with a fresh key, committed right after its look, goes through unless the new id is taken. */
  lemma UndisturbedCreation(n: Normalize, steps: seq<Step>, caller: Caller, key: Key, c: Command, env: Env)
    requires caller !in RunSystem(n, steps).pending && key !in RunSystem(n, steps).book.results
    ensures var s := RunSystem(n, steps + [LookCreate(caller, key, c)]);
            && CallOf(s, Commit(caller, env)).Some?
            && var r := Submit(Applied(n), s.book, CallOf(s, Commit(caller, env)).value).1;
            && (r.Fresh? || r == Failed(IntegrityError))
            && (r.Fresh? <==> SomeActiveLike(n, s.book.state, c) || env.newId !in s.book.state.rows)
  {
    var look := LookCreate(caller, key, c);
    StepIsMeant(n, steps, look);
    var s := RunSystem(n, steps + [look]);
    RepliesMean(n, steps + [look], Commit(caller, env));
  }

  // ----- One active memory per content -----

  /** No two active memories share scope, owner and normalized content. */
  ghost predicate UniqueContent(n: Normalize, t: Tables) {
    forall a, b :: a in t.rows && b in t.rows && a != b && t.rows[a].state == Active && t.rows[b].state == Active ==>
      !SameContent(n, t.rows[a].command, t.rows[b].command)
  }

  /** The step replaces nothing, or by content that no other active memory has. */
  ghost predicate BringsNewContent(n: Normalize, s: System, step: Step) {
    CallOf(s, step).Some? && Submit(Applied(n), s.book, CallOf(s, step).value).1.Fresh? ==>
      var q := CallOf(s, step).value.request;
      q.Supersede? ==> forall x :: ActiveLike(n, s.book.state, x, q.command) ==> x == q.id
  }

  ghost predicate AlwaysUniqueContent(n: Normalize, steps: seq<Step>) {
    UniqueContent(n, RunSystem(n, steps).book.state) && (steps == [] || AlwaysUniqueContent(n, steps[..|steps|-1]))
  }

  ghost predicate AlwaysBringsNewContent(n: Normalize, steps: seq<Step>) {
    steps == [] ||
    (AlwaysBringsNewContent(n, steps[..|steps|-1]) &&
     BringsNewContent(n, RunSystem(n, steps[..|steps|-1]), steps[|steps|-1]))
  }

  lemma ReachableKeysFit(n: Normalize, steps: seq<Step>)
    ensures KeysFit(n, RunSystem(n, steps).book.state)
  {
    RunFollowsHistory(n, steps);
    FittingKeys(n, RunSystem(n, steps).book.state, Calls(n, steps), Replies(Applied(n), NOTHING, Calls(n, steps)));
  }

  lemma GuardIsNewContent(n: Normalize, s: System, step: Step)
    requires KeysFit(n, s.book.state)
    ensures GuardedStep(n, s, step) <==> BringsNewContent(n, s, step)
  {
    if CallOf(s, step).Some? && CallOf(s, step).value.request.Supersede? {
      var q := CallOf(s, step).value.request;
      forall x
        ensures ActiveLike(n, s.book.state, x, q.command) <==> ActiveWith(s.book.state.rows, x, KeyOf(n, q.command))
      {
        LikeIsSameKey(n, s.book.state, q.command, x);
      }
    }
  }

  lemma {:induction false} SameUniqueness(n: Normalize, steps: seq<Step>)
    ensures AlwaysUnique(n, steps) <==> AlwaysUniqueContent(n, steps)
    ensures AlwaysGuarded(n, steps) <==> AlwaysBringsNewContent(n, steps)
  {
    ReachableKeysFit(n, steps);
    assert UniqueActive(RunSystem(n, steps).book.state) <==> UniqueContent(n, RunSystem(n, steps).book.state);
    if steps != [] {
      var front := steps[..|steps|-1];
      SameUniqueness(n, front);
      ReachableKeysFit(n, front);
      GuardIsNewContent(n, RunSystem(n, front), steps[|steps|-1]);
    }
  }

  /** Throughout an interleaved run no two active memories share scope, owner and normalized content, exactly if every
      replacement in it brought content that no other active memory had. */
  lemma ContentUniqueIff(n: Normalize, steps: seq<Step>)
    requires NewIds(n, steps)
    ensures AlwaysUniqueContent(n, steps) <==> AlwaysBringsNewContent(n, steps)
  {
    SameUniqueness(n, steps);
    RunUniqueIff(n, steps);
  }
}
