/** Memories, the links between a memory and its replacement, and the tombstones of deleted ones.
    Creating and superseding look at the tables without a lock and commit later under one. */
module SemanticMemory {
  import opened Wrappers
  import opened Idempotency
  import opened MemoryScopes
  import DependencyGraph

  type MemoryId = string
  type Normalize = string -> string

  datatype Command = Command(memoryType: string, scope: Scope, owner: Option<UserId>, content: string, source: string)

  /** What makes two memories duplicates: the content hash, taken to be injective, covers just this. */
  datatype ContentKey = ContentKey(scope: Scope, owner: Option<UserId>, normalized: string)

  datatype RowState = Active | Superseded

  datatype Row = Row(command: Command, contentKey: ContentKey, state: RowState, supersedes: Option<MemoryId>,
                     supersededBy: Option<MemoryId>, createdAt: int, updatedAt: int, confirmedAt: int)

  datatype Tombstone = Tombstone(deletedAt: int, traceId: string)

  /** `order` lists the ids of the rows by row id: new rows go last. */
  datatype Tables = Tables(rows: map<MemoryId, Row>, order: seq<MemoryId>, tombstones: map<MemoryId, Tombstone>)

  const EMPTY := Tables(map[], [], map[])

  datatype Admission = New | Duplicate | Supersedes

  /** The hash of a deletion covers the id alone, so the trace is not part of the request. */
  datatype Request = Create(command: Command) | Confirm(id: MemoryId) | Supersede(id: MemoryId, command: Command)
      | Delete(id: MemoryId)

  /** What else a transaction is given; for a creation, also what the unlocked look saw. */
  datatype Env = Env(newId: MemoryId, now: int, traceId: string, sawDuplicate: bool)

  datatype Response = Mutated(admission: Admission, id: MemoryId, row: Row) | Confirmed(row: Row)
      | Buried(tombstone: Tombstone)

  datatype Error = NotFound | StateConflict | ConcurrentDuplicate | ScopeOrOwnerDiffers | DatabaseLocked
      | IntegrityError

  // ----- The tables -----

  function KeyOf(n: Normalize, c: Command): ContentKey {
    ContentKey(c.scope, c.owner, n(c.content))
  }

  predicate ActiveWith(rows: map<MemoryId, Row>, id: MemoryId, k: ContentKey) {
    id in rows && rows[id].state == Active && rows[id].contentKey == k
  }

  /** The oldest of two candidates, the first if they are equally old. */
  function Older(rows: map<MemoryId, Row>, a: Option<MemoryId>, b: MemoryId): Option<MemoryId>
    requires b in rows && (a.Some? ==> a.value in rows)
  {
    if a.Some? && rows[a.value].createdAt <= rows[b].createdAt then a else Some(b)
  }

  /** The oldest active row with this key, by creation time and then by row id. */
  function ActiveDuplicate(rows: map<MemoryId, Row>, order: seq<MemoryId>, k: ContentKey): (r: Option<MemoryId>)
    ensures r.Some? ==> ActiveWith(rows, r.value, k)
    ensures r == None ==> forall id :: id in order ==> !ActiveWith(rows, id, k)
  {
    if order == [] then None
    else
      var rest, last := order[..|order|-1], order[|order|-1];
      if ActiveWith(rows, last, k) then Older(rows, ActiveDuplicate(rows, rest, k), last)
      else ActiveDuplicate(rows, rest, k)
  }

  /** Nothing else in the order with this key is older, and nothing as old comes before it. */
  ghost predicate IsOldestActive(rows: map<MemoryId, Row>, order: seq<MemoryId>, k: ContentKey, i: nat)
    requires i < |order|
  {
    && ActiveWith(rows, order[i], k)
    && forall j :: 0 <= j < |order| && ActiveWith(rows, order[j], k) ==>
         rows[order[i]].createdAt < rows[order[j]].createdAt
           || (rows[order[i]].createdAt == rows[order[j]].createdAt && i <= j)
  }

  /** The duplicate found is the oldest, by creation time and then by row id. */
  lemma {:induction false} ActiveDuplicateIsOldest(rows: map<MemoryId, Row>, order: seq<MemoryId>, k: ContentKey)
    returns (i: nat)
    requires ActiveDuplicate(rows, order, k).Some?
    ensures i < |order| && order[i] == ActiveDuplicate(rows, order, k).value && IsOldestActive(rows, order, k, i)
  {
    var n := |order| - 1;
    var rest := order[..n];
    assert forall j :: 0 <= j < n ==> rest[j] == order[j];
    var before := ActiveDuplicate(rows, rest, k);
    if before == None {
      forall j | 0 <= j < n ensures !ActiveWith(rows, order[j], k) {
        assert rest[j] in rest;
      }
      return n;
    }
    i := ActiveDuplicateIsOldest(rows, rest, k);
    if ActiveWith(rows, order[n], k) && rows[order[n]].createdAt < rows[order[i]].createdAt { i := n; }
  }

  function IndexOf(order: seq<MemoryId>, id: MemoryId): (i: nat)
    ensures i <= |order| && (i < |order| ==> order[i] == id) && forall j :: 0 <= j < i ==> order[j] != id
  {
    if order == [] then 0 else if order[0] == id then 0 else 1 + IndexOf(order[1..], id)
  }

  function Without(order: seq<MemoryId>, id: MemoryId): seq<MemoryId> {
    var i := IndexOf(order, id);
    if i == |order| then order else order[..i] + order[i+1..]
  }

  function NewRow(n: Normalize, c: Command, now: int, supersedes: Option<MemoryId>): Row {
    Row(c, KeyOf(n, c), Active, supersedes, None, now, now, now)
  }

  function Touched(r: Row, now: int): Row {
    r.(confirmedAt := now, updatedAt := now)
  }

  function MarkedSuperseded(r: Row, successor: MemoryId, now: int): Row {
    r.(state := Superseded, supersededBy := Some(successor), updatedAt := now)
  }

  function Rewrite(t: Tables, id: MemoryId, r: Row): Tables {
    t.(rows := t.rows[id := r])
  }

  function Insert(t: Tables, id: MemoryId, r: Row): Tables {
    t.(rows := t.rows[id := r], order := t.order + [id])
  }

  function Bury(t: Tables, id: MemoryId, tombstone: Tombstone): Tables {
    Tables(t.rows - {id}, Without(t.order, id), t.tombstones[id := tombstone])
  }

  // ----- The transactions -----

  type Result = Outcome<Tables, Response, Error>

  /** The locked part of a creation. One that saw a duplicate and finds it gone calls itself again while it holds
      the write lock, and fails on that lock. */
  function ApplyCreate(n: Normalize, t: Tables, c: Command, env: Env): Result {
    var k := KeyOf(n, c);
    match ActiveDuplicate(t.rows, t.order, k)
    case Some(id) =>
      if !env.sawDuplicate then Refused(ConcurrentDuplicate)
      else
        var r := Touched(t.rows[id], env.now);
        Done(Rewrite(t, id, r), Mutated(Duplicate, id, r))
    case None =>
      if env.sawDuplicate then Refused(DatabaseLocked)
      else if env.newId in t.rows then Refused(IntegrityError)
      else
        var r := NewRow(n, c, env.now, None);
        Done(Insert(t, env.newId, r), Mutated(New, env.newId, r))
  }

  function ApplyConfirm(t: Tables, id: MemoryId, env: Env): Result {
    if id !in t.rows then Refused(NotFound)
    else if t.rows[id].state != Active then Refused(StateConflict)
    else
      var r := Touched(t.rows[id], env.now);
      Done(Rewrite(t, id, r), Confirmed(r))
  }

  function Replace(n: Normalize, t: Tables, id: MemoryId, c: Command, env: Env): Tables
    requires id in t.rows
  {
    Rewrite(Insert(t, env.newId, NewRow(n, c, env.now, Some(id))), id, MarkedSuperseded(t.rows[id], env.newId, env.now))
  }

  /** The locked part of a replacement: it does not look at scope and owner again. */
  function ApplySupersede(n: Normalize, t: Tables, id: MemoryId, c: Command, env: Env): Result {
    if id !in t.rows then Refused(NotFound)
    else if t.rows[id].state != Active then Refused(StateConflict)
    else if env.newId in t.rows then Refused(IntegrityError)
    else Done(Replace(n, t, id, c, env), Mutated(Supersedes, env.newId, NewRow(n, c, env.now, Some(id))))
  }

  function ApplyDelete(t: Tables, id: MemoryId, env: Env): Result {
    if id !in t.rows then Refused(NotFound)
    else if id in t.tombstones then Refused(IntegrityError)
    else
      var tombstone := Tombstone(env.now, env.traceId);
      Done(Bury(t, id, tombstone), Buried(tombstone))
  }

  function Apply(n: Normalize, t: Tables, q: Request, env: Env): Result {
    match q
    case Create(c) => ApplyCreate(n, t, c, env)
    case Confirm(id) => ApplyConfirm(t, id, env)
    case Supersede(id, c) => ApplySupersede(n, t, id, c, env)
    case Delete(id) => ApplyDelete(t, id, env)
  }

  function Applied(n: Normalize): (Tables, Request, Env) -> Result {
    (t, q, env) => Apply(n, t, q, env)
  }

  // ----- The invariant of the tables -----

  ghost predicate Known(t: Tables, id: MemoryId) {
    id in t.rows || id in t.tombstones
  }

  ghost predicate SameOwner(a: Row, b: Row) {
    a.command.scope == b.command.scope && a.command.owner == b.command.owner
  }

  /** The sequence holds each of the ids once, and nothing else. */
  ghost predicate Lists(order: seq<MemoryId>, ids: set<MemoryId>) {
    && (forall i :: 0 <= i < |order| ==> order[i] in ids)
    && (forall id :: id in ids ==> id in order)
    && (forall i, j :: 0 <= i < j < |order| ==> order[i] != order[j])
  }

  ghost predicate Listed(t: Tables) {
    Lists(t.order, t.rows.Keys)
  }

  /** A memory comes after the one it supersedes. */
  ghost predicate Ordered(t: Tables) {
    forall i, j :: 0 <= i <= j < |t.order| && t.order[i] in t.rows ==> t.rows[t.order[i]].supersedes != Some(t.order[j])
  }

  /** Superseded means having a successor, and every link leads to a live memory or a tombstone. */
  ghost predicate LinksOfKnown(t: Tables, r: Row) {
    && (r.state == Superseded <==> r.supersededBy.Some?)
    && (r.supersedes.Some? ==> Known(t, r.supersedes.value))
    && (r.supersededBy.Some? ==> Known(t, r.supersededBy.value))
  }

  ghost predicate LinksKnown(t: Tables) {
    forall id :: id in t.rows ==> LinksOfKnown(t, t.rows[id])
  }

  ghost predicate PairedBack(t: Tables, id: MemoryId)
    requires id in t.rows
  {
    t.rows[id].supersedes.Some? && t.rows[id].supersedes.value in t.rows ==>
      && t.rows[t.rows[id].supersedes.value].supersededBy == Some(id)
      && SameOwner(t.rows[t.rows[id].supersedes.value], t.rows[id])
  }

  ghost predicate PairedOn(t: Tables, id: MemoryId)
    requires id in t.rows
  {
    t.rows[id].supersededBy.Some? && t.rows[id].supersededBy.value in t.rows ==>
      t.rows[t.rows[id].supersededBy.value].supersedes == Some(id)
  }

  /** Between live memories the two links are each other's inverse and keep scope and owner. */
  ghost predicate LinksInverse(t: Tables) {
    forall id :: id in t.rows ==> PairedBack(t, id) && PairedOn(t, id)
  }

  ghost predicate ShareNoLink(a: Row, b: Row) {
    && (a.supersedes.Some? ==> a.supersedes != b.supersedes)
    && (a.supersededBy.Some? ==> a.supersededBy != b.supersededBy)
  }

  /** No two memories share a predecessor or a successor, dead ones included. */
  ghost predicate LinksInjective(t: Tables) {
    forall a, b :: a in t.rows && b in t.rows && a != b ==> ShareNoLink(t.rows[a], t.rows[b])
  }

  ghost predicate Inv(t: Tables) {
    && t.rows.Keys !! t.tombstones.Keys
    && Listed(t) && Ordered(t) && LinksKnown(t) && LinksInverse(t) && LinksInjective(t)
  }

  /** The rows' ids, links, states and owners are the same in both. */
  ghost predicate SameLinks(t: Tables, u: Tables) {
    && t.rows.Keys == u.rows.Keys && t.order == u.order && t.tombstones == u.tombstones
    && forall id :: id in t.rows ==>
         && u.rows[id].state == t.rows[id].state && u.rows[id].supersedes == t.rows[id].supersedes
         && u.rows[id].supersededBy == t.rows[id].supersededBy && u.rows[id].command == t.rows[id].command
  }

  lemma SameLinksSameInv(t: Tables, u: Tables)
    requires Inv(t) && SameLinks(t, u)
    ensures Inv(u)
  {
    assert Listed(u);
    assert Ordered(u);
    assert LinksKnown(u) by {
      assert forall id :: Known(t, id) <==> Known(u, id);
    }
    assert LinksInverse(u);
    assert LinksInjective(u);
  }

  lemma TouchKeepsInv(t: Tables, id: MemoryId, now: int)
    requires Inv(t) && id in t.rows
    ensures Inv(Rewrite(t, id, Touched(t.rows[id], now)))
  {
    SameLinksSameInv(t, Rewrite(t, id, Touched(t.rows[id], now)));
  }

  lemma InsertKeepsListed(t: Tables, id: MemoryId, r: Row)
    requires Listed(t) && id !in t.rows
    ensures Listed(Insert(t, id, r))
  {
    var longer := t.order + [id];
    assert Insert(t, id, r).rows.Keys == t.rows.Keys + {id};
    assert longer[|t.order|] == id;
    forall x | x in t.rows.Keys ensures x in longer {
      assert x in t.order;
    }
  }

  lemma InsertKeepsOrdered(t: Tables, id: MemoryId, r: Row)
    requires Listed(t) && Ordered(t) && LinksKnown(t) && !Known(t, id) && r.supersedes != Some(id)
    ensures Ordered(Insert(t, id, r))
  {
    var u := Insert(t, id, r);
    assert forall i :: 0 <= i < |t.order| ==> u.order[i] == t.order[i];
    assert u.order[|t.order|] == id;
  }

  lemma InsertKeepsInv(t: Tables, id: MemoryId, n: Normalize, c: Command, now: int)
    requires Inv(t) && !Known(t, id)
    ensures Inv(Insert(t, id, NewRow(n, c, now, None)))
  {
    var r := NewRow(n, c, now, None);
    var u := Insert(t, id, r);
    InsertKeepsListed(t, id, r);
    InsertKeepsOrdered(t, id, r);
    assert LinksKnown(u) by {
      assert forall x :: Known(t, x) ==> Known(u, x);
    }
    InsertKeepsPairs(t, id, r);
    InsertKeepsInjective(t, id, r);
  }

  lemma InsertKeepsPairs(t: Tables, id: MemoryId, r: Row)
    requires Inv(t) && !Known(t, id) && r.state == Active && r.supersedes.None? && r.supersededBy.None?
    ensures var u := Insert(t, id, r); forall x :: x in u.rows ==> PairedBack(u, x) && PairedOn(u, x)
  {
    var u := Insert(t, id, r);
    forall x | x in u.rows ensures PairedBack(u, x) && PairedOn(u, x) {
      if x in t.rows { assert PairedBack(t, x) && PairedOn(t, x); }
    }
  }

  /** A row that shares no link with those there can join them. */
  lemma InsertKeepsInjective(t: Tables, id: MemoryId, r: Row)
    requires LinksInjective(t) && id !in t.rows
    requires forall x :: x in t.rows ==> ShareNoLink(t.rows[x], r) && ShareNoLink(r, t.rows[x])
    ensures LinksInjective(Insert(t, id, r))
  {
    var u := Insert(t, id, r);
    forall a, b | a in u.rows && b in u.rows && a != b ensures ShareNoLink(u.rows[a], u.rows[b]) {
      if a != id && b != id { assert ShareNoLink(t.rows[a], t.rows[b]); }
    }
  }

  lemma ReplaceKeepsOrder(n: Normalize, t: Tables, id: MemoryId, c: Command, env: Env)
    requires Inv(t) && id in t.rows && !Known(t, env.newId)
    ensures Listed(Replace(n, t, id, c, env)) && Ordered(Replace(n, t, id, c, env))
  {
    var r := NewRow(n, c, env.now, Some(id));
    InsertKeepsListed(t, env.newId, r);
    InsertKeepsOrdered(t, env.newId, r);
    var u := Insert(t, env.newId, r);
    var v := Replace(n, t, id, c, env);
    assert v.rows.Keys == u.rows.Keys;
    assert forall x :: x in u.rows ==> v.rows[x].supersedes == u.rows[x].supersedes;
  }

  /** The memory is active, the replacement keeps its scope and owner, and the new id is new. */
  ghost predicate CanReplace(t: Tables, id: MemoryId, c: Command, env: Env) {
    && id in t.rows && t.rows[id].state == Active && !Known(t, env.newId)
    && c.scope == t.rows[id].command.scope && c.owner == t.rows[id].command.owner
  }

  lemma ReplaceKeepsLinksKnown(n: Normalize, t: Tables, id: MemoryId, c: Command, env: Env)
    requires Inv(t) && CanReplace(t, id, c, env)
    ensures LinksKnown(Replace(n, t, id, c, env))
  {
    var u := Replace(n, t, id, c, env);
    ReplaceKeepsKnown(n, t, id, c, env);
    forall x | x in u.rows ensures LinksOfKnown(u, u.rows[x]) {
      if x in t.rows { assert LinksOfKnown(t, t.rows[x]); }
    }
  }

  lemma ReplaceKeepsKnown(n: Normalize, t: Tables, id: MemoryId, c: Command, env: Env)
    requires id in t.rows
    ensures var u := Replace(n, t, id, c, env); Known(u, env.newId) && forall x :: Known(t, x) ==> Known(u, x)
  {
  }

  lemma NotYetSuperseded(t: Tables, id: MemoryId, x: MemoryId)
    requires LinksKnown(t) && LinksInverse(t) && id in t.rows && t.rows[id].state == Active && x in t.rows
    ensures t.rows[id].supersededBy == None && t.rows[x].supersedes != Some(id)
  {
  }

  lemma ReplaceKeepsLinksInverse(n: Normalize, t: Tables, id: MemoryId, c: Command, env: Env)
    requires Inv(t) && CanReplace(t, id, c, env)
    ensures LinksInverse(Replace(n, t, id, c, env))
  {
    var u := Replace(n, t, id, c, env);
    forall x | x in u.rows ensures PairedBack(u, x) && PairedOn(u, x) {
      if x in t.rows {
        NotYetSuperseded(t, id, x);
        assert PairedBack(t, x) && PairedOn(t, x);
      }
    }
  }

  lemma ReplaceKeepsLinksInjective(n: Normalize, t: Tables, id: MemoryId, c: Command, env: Env)
    requires Inv(t) && CanReplace(t, id, c, env)
    ensures LinksInjective(Replace(n, t, id, c, env))
  {
    var r := NewRow(n, c, env.now, Some(id));
    forall x | x in t.rows ensures ShareNoLink(t.rows[x], r) && ShareNoLink(r, t.rows[x]) {
      NotYetSuperseded(t, id, x);
    }
    InsertKeepsInjective(t, env.newId, r);
    MarkKeepsInjective(Insert(t, env.newId, r), id, env.newId, env.now);
  }

  /** A successor nobody has yet can be given to a row. */
  lemma MarkKeepsInjective(t: Tables, id: MemoryId, successor: MemoryId, now: int)
    requires LinksInjective(t) && id in t.rows
    requires forall x :: x in t.rows ==> t.rows[x].supersededBy != Some(successor)
    ensures LinksInjective(Rewrite(t, id, MarkedSuperseded(t.rows[id], successor, now)))
  {
    var u := Rewrite(t, id, MarkedSuperseded(t.rows[id], successor, now));
    forall a, b | a in u.rows && b in u.rows && a != b ensures ShareNoLink(u.rows[a], u.rows[b]) {
      assert ShareNoLink(t.rows[a], t.rows[b]);
    }
  }

  lemma WithoutLists(order: seq<MemoryId>, ids: set<MemoryId>, id: MemoryId)
    requires Lists(order, ids)
    ensures Lists(Without(order, id), ids - {id})
  {
    var k := IndexOf(order, id);
    var rest := Without(order, id);
    forall x | x in ids - {id} ensures x in rest {
      var i :| 0 <= i < |order| && order[i] == x;
      assert rest[if i < k then i else i - 1] == x;
    }
  }

  /** Where entry i of the shortened sequence was before. */
  function Before(order: seq<MemoryId>, id: MemoryId, i: nat): nat {
    if i < IndexOf(order, id) then i else i + 1
  }

  lemma WithoutKeepsPlaces(order: seq<MemoryId>, id: MemoryId, i: nat)
    requires id in order && i < |Without(order, id)|
    ensures Before(order, id, i) < |order| && Without(order, id)[i] == order[Before(order, id, i)]
  {
  }

  lemma BuryKeepsListed(t: Tables, id: MemoryId, tombstone: Tombstone)
    requires Listed(t)
    ensures Listed(Bury(t, id, tombstone))
  {
    WithoutLists(t.order, t.rows.Keys, id);
    assert Bury(t, id, tombstone).rows.Keys == t.rows.Keys - {id};
  }

  lemma BuryKeepsOrdered(t: Tables, id: MemoryId, tombstone: Tombstone)
    requires Listed(t) && Ordered(t) && id in t.rows
    ensures Ordered(Bury(t, id, tombstone))
  {
    var u := Bury(t, id, tombstone);
    forall i, j | 0 <= i <= j < |u.order| && u.order[i] in u.rows
      ensures u.rows[u.order[i]].supersedes != Some(u.order[j])
    {
      WithoutKeepsPlaces(t.order, id, i);
      WithoutKeepsPlaces(t.order, id, j);
      assert Before(t.order, id, i) <= Before(t.order, id, j);
    }
  }

  lemma BuryKeepsLinks(t: Tables, id: MemoryId, tombstone: Tombstone)
    requires Inv(t) && id in t.rows
    ensures var u := Bury(t, id, tombstone); LinksKnown(u) && LinksInverse(u) && LinksInjective(u)
  {
    var u := Bury(t, id, tombstone);
    assert forall x :: Known(t, x) ==> Known(u, x);
  }

  // ----- Each transaction keeps the invariant -----

  /** A replacement has the scope and owner of what it replaces, if that is still there. */
  ghost predicate KeepsOwner(t: Tables, id: MemoryId, c: Command) {
    id in t.rows ==> c.scope == t.rows[id].command.scope && c.owner == t.rows[id].command.owner
  }

  ghost predicate OwnerChecked(t: Tables, q: Request) {
    q.Supersede? ==> KeepsOwner(t, q.id, q.command)
  }

  /** A new memory is not given the id of a deleted one. */
  predicate GivesNewId(t: Tables, q: Request, env: Env) {
    q.Create? || q.Supersede? ==> env.newId !in t.tombstones
  }

  lemma ApplyKeepsInv(n: Normalize, t: Tables, q: Request, env: Env)
    requires Inv(t) && Apply(n, t, q, env).Done? && GivesNewId(t, q, env) && OwnerChecked(t, q)
    ensures Inv(Apply(n, t, q, env).state)
  {
    match q
    case Create(c) =>
      if env.sawDuplicate {
        TouchKeepsInv(t, ActiveDuplicate(t.rows, t.order, KeyOf(n, c)).value, env.now);
      } else {
        InsertKeepsInv(t, env.newId, n, c, env.now);
      }
    case Confirm(id) => TouchKeepsInv(t, id, env.now);
    case Supersede(id, c) => ReplaceKeepsInv(n, t, id, c, env);
    case Delete(id) => BuryKeepsInv(t, id, Tombstone(env.now, env.traceId));
  }

  lemma ReplaceKeepsInv(n: Normalize, t: Tables, id: MemoryId, c: Command, env: Env)
    requires Inv(t) && CanReplace(t, id, c, env)
    ensures Inv(Replace(n, t, id, c, env))
  {
    ReplaceKeepsOrder(n, t, id, c, env);
    ReplaceKeepsLinksKnown(n, t, id, c, env);
    ReplaceKeepsLinksInverse(n, t, id, c, env);
    ReplaceKeepsLinksInjective(n, t, id, c, env);
    assert Replace(n, t, id, c, env).rows.Keys == t.rows.Keys + {env.newId};
  }

  lemma BuryKeepsInv(t: Tables, id: MemoryId, tombstone: Tombstone)
    requires Inv(t) && id in t.rows
    ensures Inv(Bury(t, id, tombstone))
  {
    BuryKeepsListed(t, id, tombstone);
    BuryKeepsOrdered(t, id, tombstone);
    BuryKeepsLinks(t, id, tombstone);
    assert Bury(t, id, tombstone).tombstones.Keys == t.tombstones.Keys + {id};
  }

  /** Ids stay known, tombstones stay, and a row keeps its content, its predecessor and, once it has one, its
      successor for as long as it lives. */
  ghost predicate Evolves(t: Tables, u: Tables) {
    && (forall id :: Known(t, id) ==> Known(u, id))
    && (forall id :: id in t.tombstones ==> id in u.tombstones && u.tombstones[id] == t.tombstones[id])
    && (forall id :: id in t.rows && id in u.rows ==>
          && u.rows[id].command == t.rows[id].command && u.rows[id].supersedes == t.rows[id].supersedes
          && u.rows[id].contentKey == t.rows[id].contentKey && u.rows[id].createdAt == t.rows[id].createdAt
          && (t.rows[id].state == Superseded ==>
                u.rows[id].state == Superseded && u.rows[id].supersededBy == t.rows[id].supersededBy))
  }

  lemma ApplyEvolves(n: Normalize, t: Tables, q: Request, env: Env)
    requires Apply(n, t, q, env).Done?
    ensures Evolves(t, Apply(n, t, q, env).state)
  {
    match q
    case Create(c) =>
    case Confirm(id) =>
    case Supersede(id, c) =>
    case Delete(id) =>
  }

  // ----- One active memory per content -----

  ghost predicate UniqueActive(t: Tables) {
    forall a, b :: a in t.rows && b in t.rows && a != b && t.rows[a].state == Active && t.rows[b].state == Active ==>
      t.rows[a].contentKey != t.rows[b].contentKey
  }

  /** No active memory but `id` has the key. */
  ghost predicate NoOther(t: Tables, id: MemoryId, k: ContentKey) {
    forall x :: ActiveWith(t.rows, x, k) ==> x == id
  }

  /** A creation that goes through leaves an active memory with its content: a new one exactly if there was none. */
  lemma CreateLeavesActive(n: Normalize, t: Tables, c: Command, env: Env)
    requires Listed(t) && Apply(n, t, Create(c), env).Done?
    ensures var r := Apply(n, t, Create(c), env);
            && r.response.Mutated? && ActiveWith(r.state.rows, r.response.id, KeyOf(n, c))
            && r.response.row == r.state.rows[r.response.id] && r.response.row.state == Active
            && r.response.row.contentKey == ContentKey(c.scope, c.owner, n(c.content))
            && (r.response.admission == New <==> forall x :: !ActiveWith(t.rows, x, KeyOf(n, c)))
            && (r.response.admission == Duplicate <==> ActiveWith(t.rows, r.response.id, KeyOf(n, c)))
  {
    var k := KeyOf(n, c);
    if ActiveDuplicate(t.rows, t.order, k) == None {
      forall x ensures !ActiveWith(t.rows, x, k) {
        if x in t.rows { assert x in t.order; }
      }
    }
  }

  lemma CreateKeepsUnique(n: Normalize, t: Tables, c: Command, env: Env)
    requires Listed(t) && UniqueActive(t) && Apply(n, t, Create(c), env).Done?
    ensures UniqueActive(Apply(n, t, Create(c), env).state)
  {
    CreateLeavesActive(n, t, c, env);
    var u := Apply(n, t, Create(c), env).state;
    forall a, b | a in u.rows && b in u.rows && a != b && u.rows[a].state == Active && u.rows[b].state == Active
      ensures u.rows[a].contentKey != u.rows[b].contentKey
    {
      if !env.sawDuplicate {
        assert !ActiveWith(t.rows, a, KeyOf(n, c)) && !ActiveWith(t.rows, b, KeyOf(n, c));
      }
    }
  }

  /** A replacement keeps active memories unique exactly if no other active memory has its content. */
  lemma SupersedeKeepsUniqueIff(n: Normalize, t: Tables, id: MemoryId, c: Command, env: Env)
    requires UniqueActive(t) && Apply(n, t, Supersede(id, c), env).Done?
    ensures UniqueActive(Apply(n, t, Supersede(id, c), env).state) <==> NoOther(t, id, KeyOf(n, c))
  {
    var u := Replace(n, t, id, c, env);
    if NoOther(t, id, KeyOf(n, c)) {
      forall a, b | a in u.rows && b in u.rows && a != b && u.rows[a].state == Active && u.rows[b].state == Active
        ensures u.rows[a].contentKey != u.rows[b].contentKey
      {
        assert a != env.newId ==> !ActiveWith(t.rows, a, KeyOf(n, c));
        assert b != env.newId ==> !ActiveWith(t.rows, b, KeyOf(n, c));
      }
    } else {
      var x :| ActiveWith(t.rows, x, KeyOf(n, c)) && x != id;
      assert u.rows[x].contentKey == u.rows[env.newId].contentKey;
    }
  }

  /** A replacement that must keep active memories unique does. */
  ghost predicate Guarded(n: Normalize, t: Tables, q: Request) {
    q.Supersede? ==> NoOther(t, q.id, KeyOf(n, q.command))
  }

  lemma ApplyKeepsUnique(n: Normalize, t: Tables, q: Request, env: Env)
    requires Listed(t) && UniqueActive(t) && Apply(n, t, q, env).Done? && Guarded(n, t, q)
    ensures UniqueActive(Apply(n, t, q, env).state)
  {
    match q
    case Create(c) => CreateKeepsUnique(n, t, c, env);
    case Confirm(id) =>
    case Supersede(id, c) => SupersedeKeepsUniqueIff(n, t, id, c, env);
    case Delete(id) =>
  }

  /** Superseding b by the content of a leaves two active memories with the same content. */
  lemma SupersedeCanDuplicate()
    ensures var n: Normalize := (s: string) => s;
            var x := Command("FACT", FamilyScope, None, "x", "SYSTEM");
            var y := Command("FACT", FamilyScope, None, "y", "SYSTEM");
            var t1 := Apply(n, EMPTY, Create(x), Env("a", 1, "", false));
            t1.Done? &&
            var t2 := Apply(n, t1.state, Create(y), Env("b", 2, "", false));
            t2.Done? && UniqueActive(t2.state) &&
            var t3 := Apply(n, t2.state, Supersede("b", x), Env("c", 3, "", false));
            t3.Done? && !UniqueActive(t3.state)
  {
    var n: Normalize := (s: string) => s;
    var x := Command("FACT", FamilyScope, None, "x", "SYSTEM");
    var y := Command("FACT", FamilyScope, None, "y", "SYSTEM");
    var t1 := Apply(n, EMPTY, Create(x), Env("a", 1, "", false)).state;
    assert t1.order == ["a"] && t1.rows["a"].contentKey == ContentKey(FamilyScope, None, "x");
    assert t1.order[..0] == [];
    var t2 := Apply(n, t1, Create(y), Env("b", 2, "", false));
    assert "x"[0] != "y"[0];
    assert t2.Done? && t2.state.rows["b"].contentKey == ContentKey(FamilyScope, None, "y");
    var t3 := Apply(n, t2.state, Supersede("b", x), Env("c", 3, "", false)).state;
    assert t3.rows["a"].contentKey == t3.rows["c"].contentKey;
  }

  // ----- Chains of replacements -----

  /** Each live memory with the live memory it supersedes. */
  function LinkGraph(t: Tables): DependencyGraph.Graph {
    map id | id in t.rows :: LivePredecessor(t, id)
  }

  function LivePredecessor(t: Tables, id: MemoryId): set<MemoryId>
    requires id in t.rows
  {
    if t.rows[id].supersedes.Some? && t.rows[id].supersedes.value in t.rows then {t.rows[id].supersedes.value} else {}
  }

  /** No chain of replacements comes back to where it started. */
  lemma LinksAcyclic(t: Tables)
    requires Inv(t)
    ensures DependencyGraph.Acyclic(LinkGraph(t))
  {
    var g := LinkGraph(t);
    forall i | 0 <= i < |t.order|
      ensures t.order[i] in g && t.order[i] !in t.order[..i] && forall d :: d in g[t.order[i]] ==> d in t.order[..i]
    {
      forall d | d in g[t.order[i]] ensures d in t.order[..i] {
        var j :| 0 <= j < |t.order| && t.order[j] == d;
        assert t.order[..i][j] == d;
      }
    }
    DependencyGraph.TopologicalIsAcyclic(g, t.order);
  }

  /** Scope and owner are the same all along a chain. */
  lemma {:induction false} ChainKeepsOwner(t: Tables, p: seq<MemoryId>, i: nat)
    requires Inv(t) && DependencyGraph.IsChain(LinkGraph(t), p) && i < |p|
    ensures p[0] in t.rows && p[i] in t.rows && SameOwner(t.rows[p[0]], t.rows[p[i]])
  {
    if i > 0 {
      ChainKeepsOwner(t, p, i - 1);
      assert p[i] in LinkGraph(t)[p[i-1]];
    }
  }

  // ----- Interleaved callers -----

  type Caller = nat

  type Book = Ledger<Tables, Request, Response>

  /** A caller between its unlocked look and its locked commit; embedding happens here. */
  datatype Pending =
    | PendingCreate(key: Key, command: Command, sawDuplicate: bool)
    | PendingSupersede(key: Key, id: MemoryId, replacement: Command)

  datatype System = System(book: Book, pending: map<Caller, Pending>)

  /** What the unlocked look leads to. */
  datatype Look = Answered(reply: Reply<Response, Error>) | GoOn(pending: Pending)

  function Replay(b: Book, key: Key, q: Request): Option<Reply<Response, Error>> {
    if key !in b.results then None
    else if b.results[key].request == q then Some(Replayed(b.results[key].response)) else Some(KeyConflict)
  }

  function CreateLook(n: Normalize, b: Book, key: Key, c: Command): Look {
    match Replay(b, key, Create(c))
    case Some(reply) => Answered(reply)
    case None => GoOn(PendingCreate(key, c, ActiveDuplicate(b.state.rows, b.state.order, KeyOf(n, c)).Some?))
  }

  function SupersedeLook(b: Book, key: Key, id: MemoryId, c: Command): Look {
    match Replay(b, key, Supersede(id, c))
    case Some(reply) => Answered(reply)
    case None =>
      if id !in b.state.rows then Answered(Failed(NotFound))
      else if b.state.rows[id].state != Active then Answered(Failed(StateConflict))
      else if b.state.rows[id].command.scope != c.scope || b.state.rows[id].command.owner != c.owner then
        Answered(Failed(ScopeOrOwnerDiffers))
      else GoOn(PendingSupersede(key, id, c))
  }

  datatype Step =
    | LookCreate(caller: Caller, key: Key, command: Command)
    | LookSupersede(caller: Caller, key: Key, id: MemoryId, command: Command)
    | Commit(caller: Caller, env: Env)
    | GiveUp(caller: Caller)
    | ConfirmNow(key: Key, id: MemoryId, env: Env)
    | DeleteNow(key: Key, id: MemoryId, env: Env)

  function CommitCall(p: Pending, env: Env): Call<Request, Env> {
    match p
    case PendingCreate(key, c, saw) => Call(key, Create(c), env.(sawDuplicate := saw))
    case PendingSupersede(key, id, c) => Call(key, Supersede(id, c), env)
  }

  /** The transaction a step runs, if it runs one. */
  function CallOf(s: System, step: Step): Option<Call<Request, Env>> {
    match step
    case Commit(caller, env) => if caller in s.pending then Some(CommitCall(s.pending[caller], env)) else None
    case ConfirmNow(key, id, env) => Some(Call(key, Confirm(id), env))
    case DeleteNow(key, id, env) => Some(Call(key, Delete(id), env))
    case LookCreate(_, _, _) => None
    case LookSupersede(_, _, _, _) => None
    case GiveUp(_) => None
  }

  function BookAfter(n: Normalize, b: Book, call: Option<Call<Request, Env>>): Book {
    if call.Some? then Submit(Applied(n), b, call.value).0 else b
  }

  function WithLook(pending: map<Caller, Pending>, caller: Caller, look: Look): map<Caller, Pending> {
    if caller in pending || look.Answered? then pending else pending[caller := look.pending]
  }

  function PendingAfter(n: Normalize, s: System, step: Step): map<Caller, Pending> {
    match step
    case LookCreate(caller, key, c) => WithLook(s.pending, caller, CreateLook(n, s.book, key, c))
    case LookSupersede(caller, key, id, c) => WithLook(s.pending, caller, SupersedeLook(s.book, key, id, c))
    case Commit(caller, _) => s.pending - {caller}
    case GiveUp(caller) => s.pending - {caller}
    case ConfirmNow(_, _, _) => s.pending
    case DeleteNow(_, _, _) => s.pending
  }

  function Next(n: Normalize, s: System, step: Step): System {
    System(BookAfter(n, s.book, CallOf(s, step)), PendingAfter(n, s, step))
  }

  function RunSystem(n: Normalize, steps: seq<Step>): System {
    if steps == [] then System(Ledger(EMPTY, map[]), map[])
    else Next(n, RunSystem(n, steps[..|steps|-1]), steps[|steps|-1])
  }

  /** The transactions of a run, in order. */
  function Calls(n: Normalize, steps: seq<Step>): seq<Call<Request, Env>> {
    if steps == [] then []
    else
      var front, last := steps[..|steps|-1], steps[|steps|-1];
      Calls(n, front) + CallList(CallOf(RunSystem(n, front), last))
  }

  function CallList(call: Option<Call<Request, Env>>): seq<Call<Request, Env>> {
    if call.Some? then [call.value] else []
  }

  /** Tables and memory of an interleaved run are those of its transactions run one after the other. */
  lemma {:induction false} RunIsItsTransactions(n: Normalize, steps: seq<Step>)
    ensures RunSystem(n, steps).book == Idempotency.Run(Applied(n), Ledger(EMPTY, map[]), Calls(n, steps))
  {
    if steps != [] {
      var front, last := steps[..|steps|-1], steps[|steps|-1];
      RunIsItsTransactions(n, front);
      var call := CallOf(RunSystem(n, front), last);
      if call.Some? {
        assert (Calls(n, front) + [call.value])[..|Calls(n, front)|] == Calls(n, front);
      } else {
        assert Calls(n, front) + [] == Calls(n, front);
      }
    }
  }

  /** However the callers interleave, their repeats of requests that went through change nothing. */
  lemma RunWithoutItsRepeats(n: Normalize, steps: seq<Step>)
    ensures var empty := Ledger(EMPTY, map[]);
            var calls := Calls(n, steps);
            RunSystem(n, steps).book ==
              Idempotency.Run(Applied(n), empty, Kept(calls, Replies(Applied(n), empty, calls)))
  {
    RunIsItsTransactions(n, steps);
    RepeatsChangeNothing(Applied(n), Ledger(EMPTY, map[]), Calls(n, steps));
  }

  /** No creation or replacement is given the id of a deleted memory. Ids of live memories are refused by the table. */
  ghost predicate NewIds(n: Normalize, steps: seq<Step>) {
    steps == [] ||
    (NewIds(n, steps[..|steps|-1]) && NewId(RunSystem(n, steps[..|steps|-1]), steps[|steps|-1]))
  }

  ghost predicate NewId(s: System, step: Step) {
    CallOf(s, step).Some? ==> GivesNewId(s.book.state, CallOf(s, step).value.request, CallOf(s, step).value.env)
  }

  /** What an unlocked look found out about scope and owner still holds. */
  ghost predicate PendingOk(t: Tables, p: Pending) {
    p.PendingSupersede? ==> Known(t, p.id) && KeepsOwner(t, p.id, p.replacement)
  }

  ghost predicate SystemInv(s: System) {
    Inv(s.book.state) && forall caller :: caller in s.pending ==> PendingOk(s.book.state, s.pending[caller])
  }

  lemma BookKeepsInv(n: Normalize, b: Book, call: Call<Request, Env>)
    requires Inv(b.state) && GivesNewId(b.state, call.request, call.env) && OwnerChecked(b.state, call.request)
    ensures var u := Submit(Applied(n), b, call).0.state; Inv(u) && Evolves(b.state, u)
  {
    if Submit(Applied(n), b, call).1.Fresh? {
      ApplyKeepsInv(n, b.state, call.request, call.env);
      ApplyEvolves(n, b.state, call.request, call.env);
    }
  }

  lemma PendingStaysOk(t: Tables, u: Tables, p: Pending)
    requires PendingOk(t, p) && Evolves(t, u) && Inv(t) && Inv(u)
    ensures PendingOk(u, p)
  {
    if p.PendingSupersede? && p.id in u.rows {
      assert p.id !in t.tombstones;
    }
  }

  lemma StepKeepsInv(n: Normalize, s: System, step: Step)
    requires SystemInv(s) && NewId(s, step)
    ensures SystemInv(Next(n, s, step))
  {
    var t := s.book.state;
    var next := Next(n, s, step);
    var call := CallOf(s, step);
    if call.Some? {
      assert OwnerChecked(t, call.value.request);
      BookKeepsInv(n, s.book, call.value);
      forall caller | caller in next.pending ensures PendingOk(next.book.state, next.pending[caller]) {
        PendingStaysOk(t, next.book.state, next.pending[caller]);
      }
    }
  }

  /** In every interleaving of lookups, commits, confirmations and deletions the links are sound. */
  lemma {:induction false} RunKeepsInv(n: Normalize, steps: seq<Step>)
    requires NewIds(n, steps)
    ensures SystemInv(RunSystem(n, steps))
  {
    if steps != [] {
      RunKeepsInv(n, steps[..|steps|-1]);
      StepKeepsInv(n, RunSystem(n, steps[..|steps|-1]), steps[|steps|-1]);
    }
  }

  /** The step supersedes nothing, or meets the guard if its transaction goes through. */
  ghost predicate GuardedStep(n: Normalize, s: System, step: Step) {
    CallOf(s, step).Some? && Submit(Applied(n), s.book, CallOf(s, step).value).1.Fresh? ==>
      Guarded(n, s.book.state, CallOf(s, step).value.request)
  }

  /** Every step of the run does. */
  ghost predicate AlwaysGuarded(n: Normalize, steps: seq<Step>) {
    steps == [] ||
    (AlwaysGuarded(n, steps[..|steps|-1]) && GuardedStep(n, RunSystem(n, steps[..|steps|-1]), steps[|steps|-1]))
  }

  /** After every step of the run active memories are unique. */
  ghost predicate AlwaysUnique(n: Normalize, steps: seq<Step>) {
    UniqueActive(RunSystem(n, steps).book.state) && (steps == [] || AlwaysUnique(n, steps[..|steps|-1]))
  }

  lemma StepUniqueIff(n: Normalize, s: System, step: Step)
    requires SystemInv(s) && UniqueActive(s.book.state)
    ensures UniqueActive(Next(n, s, step).book.state) <==> GuardedStep(n, s, step)
  {
    var call := CallOf(s, step);
    if call.Some? && Submit(Applied(n), s.book, call.value).1.Fresh? {
      var q := call.value.request;
      if q.Supersede? {
        SupersedeKeepsUniqueIff(n, s.book.state, q.id, q.command, call.value.env);
      } else {
        ApplyKeepsUnique(n, s.book.state, q, call.value.env);
      }
    }
  }

  /** Throughout an interleaved run no two active memories share scope, owner and content, exactly if whatever was
      superseded in it was superseded by content that no other active memory had. */
  lemma {:induction false} RunUniqueIff(n: Normalize, steps: seq<Step>)
    requires NewIds(n, steps)
    ensures AlwaysUnique(n, steps) <==> AlwaysGuarded(n, steps)
  {
    if steps != [] {
      var front, last := steps[..|steps|-1], steps[|steps|-1];
      RunUniqueIff(n, front);
      RunKeepsInv(n, front);
      if AlwaysUnique(n, front) {
        StepUniqueIff(n, RunSystem(n, front), last);
      }
    }
  }

  /** Nobody starts to supersede anything. */
  ghost predicate NoSupersede(steps: seq<Step>) {
    forall i :: 0 <= i < |steps| ==> !steps[i].LookSupersede?
  }

  lemma {:induction false} NoSupersedePending(n: Normalize, steps: seq<Step>)
    requires NoSupersede(steps)
    ensures forall caller :: caller in RunSystem(n, steps).pending ==>
            RunSystem(n, steps).pending[caller].PendingCreate?
  {
    if steps != [] {
      NoSupersedePending(n, steps[..|steps|-1]);
    }
  }

  lemma {:induction false} NoSupersedeGuarded(n: Normalize, steps: seq<Step>)
    requires NoSupersede(steps)
    ensures AlwaysGuarded(n, steps)
  {
    if steps != [] {
      NoSupersedeGuarded(n, steps[..|steps|-1]);
      NoSupersedePending(n, steps[..|steps|-1]);
    }
  }

  /** However creations, confirmations and deletions interleave, no two active memories share scope, owner and content.
      */
  lemma RunKeepsUnique(n: Normalize, steps: seq<Step>)
    requires NewIds(n, steps) && NoSupersede(steps)
    ensures UniqueActive(RunSystem(n, steps).book.state)
  {
    NoSupersedeGuarded(n, steps);
    RunUniqueIff(n, steps);
  }

  // ----- The service -----

  class SemanticMemoryService {
    const normalize: Normalize
    var rows: map<MemoryId, Row>
    var order: seq<MemoryId>
    var tombstones: map<MemoryId, Tombstone>
    var results: map<Key, Recorded<Request, Response>>

    function State(): Book
      reads this
    {
      Ledger(Tables(rows, order, tombstones), results)
    }

    constructor (n: Normalize)
      ensures normalize == n && State() == Ledger(EMPTY, map[])
    {
      normalize := n;
      rows, order, tombstones, results := map[], [], map[], map[];
    }

    method Remember(key: Key, q: Request, response: Response) returns (reply: Reply<Response, Error>)
      requires key !in results
      modifies this`results
      ensures State() == Ledger(old(State()).state, old(results)[key := Recorded(q, response)])
              && reply == Fresh(response)
    {
      results := results[key := Recorded(q, response)];
      return Fresh(response);
    }

    /** The locked commit of a creation whose look saw a duplicate. */
    method ConfirmDuplicate(key: Key, command: Command, env: Env) returns (reply: Reply<Response, Error>)
      requires env.sawDuplicate
      modifies this
      ensures (State(), reply) == Submit(Applied(normalize), old(State()), Call(key, Create(command), env))
    {
      var replay := Replay(State(), key, Create(command));
      if replay.Some? { return replay.value; }
      var duplicate := ActiveDuplicate(rows, order, KeyOf(normalize, command));
      if duplicate == None { return Failed(DatabaseLocked); }
      var row := rows[duplicate.value].(confirmedAt := env.now, updatedAt := env.now);
      rows := rows[duplicate.value := row];
      reply := Remember(key, Create(command), Mutated(Duplicate, duplicate.value, row));
    }

    /** The locked commit of a creation whose look saw no duplicate. */
    method InsertNew(key: Key, command: Command, env: Env) returns (reply: Reply<Response, Error>)
      requires !env.sawDuplicate
      modifies this
      ensures (State(), reply) == Submit(Applied(normalize), old(State()), Call(key, Create(command), env))
    {
      var replay := Replay(State(), key, Create(command));
      if replay.Some? { return replay.value; }
      if ActiveDuplicate(rows, order, KeyOf(normalize, command)).Some? { return Failed(ConcurrentDuplicate); }
      if env.newId in rows { return Failed(IntegrityError); }
      var row := Row(command, KeyOf(normalize, command), Active, None, None, env.now, env.now, env.now);
      rows, order := rows[env.newId := row], order + [env.newId];
      reply := Remember(key, Create(command), Mutated(New, env.newId, row));
    }

    /** Look and commit with nobody in between: the look is right about the duplicate. */
    method CreateIdempotent(key: Key, command: Command, newId: MemoryId, now: int)
      returns (reply: Reply<Response, Error>)
      modifies this
      ensures var saw := ActiveDuplicate(old(rows), old(order), KeyOf(normalize, command)).Some?;
              (State(), reply) ==
                Submit(Applied(normalize), old(State()), Call(key, Create(command), Env(newId, now, "", saw)))
      ensures reply.Failed? ==> reply.error == IntegrityError && newId in old(rows)
      ensures reply.Fresh? ==>
                && reply.response.Mutated? && reply.response.id in rows && reply.response.row == rows[reply.response.id]
                && reply.response.row.state == Active && reply.response.row.confirmedAt == now
                && reply.response.row.contentKey ==
                     ContentKey(command.scope, command.owner, normalize(command.content))
    {
      var look := CreateLook(normalize, State(), key, command);
      if look.Answered? { return look.reply; }
      if look.pending.sawDuplicate {
        reply := ConfirmDuplicate(key, command, Env(newId, now, "", true));
      } else {
        reply := InsertNew(key, command, Env(newId, now, "", false));
      }
    }

    method ConfirmMemory(id: MemoryId, key: Key, env: Env) returns (reply: Reply<Response, Error>)
      modifies this
      ensures (State(), reply) == Submit(Applied(normalize), old(State()), Call(key, Confirm(id), env))
    {
      var replay := Replay(State(), key, Confirm(id));
      if replay.Some? { return replay.value; }
      if id !in rows { return Failed(NotFound); }
      if rows[id].state != Active { return Failed(StateConflict); }
      var row := rows[id].(confirmedAt := env.now, updatedAt := env.now);
      rows := rows[id := row];
      reply := Remember(key, Confirm(id), Confirmed(row));
    }

    /** The locked commit of a replacement. */
    method InsertReplacement(id: MemoryId, replacement: Command, key: Key, env: Env)
      returns (reply: Reply<Response, Error>)
      modifies this
      ensures (State(), reply) == Submit(Applied(normalize), old(State()), Call(key, Supersede(id, replacement), env))
    {
      var replay := Replay(State(), key, Supersede(id, replacement));
      if replay.Some? { return replay.value; }
      if id !in rows { return Failed(NotFound); }
      if rows[id].state != Active { return Failed(StateConflict); }
      if env.newId in rows { return Failed(IntegrityError); }
      var row := Row(replacement, KeyOf(normalize, replacement), Active, Some(id), None, env.now, env.now, env.now);
      var previous := rows[id].(state := Superseded, supersededBy := Some(env.newId), updatedAt := env.now);
      rows, order := rows[env.newId := row][id := previous], order + [env.newId];
      reply := Remember(key, Supersede(id, replacement), Mutated(Supersedes, env.newId, row));
    }

    /** Look and commit with nobody in between. */
    method SupersedeMemory(id: MemoryId, replacement: Command, key: Key, env: Env)
      returns (reply: Reply<Response, Error>)
      modifies this
      ensures var look := SupersedeLook(old(State()), key, id, replacement);
              if look.Answered? then State() == old(State()) && reply == look.reply
              else (State(), reply) ==
                   Submit(Applied(normalize), old(State()), Call(key, Supersede(id, replacement), env))
    {
      var look := SupersedeLook(State(), key, id, replacement);
      if look.Answered? { return look.reply; }
      reply := InsertReplacement(id, replacement, key, env);
    }

    method DeleteIdempotent(id: MemoryId, key: Key, env: Env) returns (reply: Reply<Response, Error>)
      modifies this
      ensures (State(), reply) == Submit(Applied(normalize), old(State()), Call(key, Delete(id), env))
    {
      var replay := Replay(State(), key, Delete(id));
      if replay.Some? { return replay.value; }
      if id !in rows { return Failed(NotFound); }
      if id in tombstones { return Failed(IntegrityError); }
      var tombstone := Tombstone(env.now, env.traceId);
      rows, order := rows - {id}, Without(order, id);
      tombstones := tombstones[id := tombstone];
      reply := Remember(key, Delete(id), Buried(tombstone));
    }
  }
}
