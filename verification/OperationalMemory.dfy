/** Operational entries: idempotent changes to the table, and the scoped resolution of lookups. */
module OperationalMemory {
  import opened Wrappers
  import opened Idempotency
  import opened MemoryScopes

  type EntryId = string

  datatype Command = Command(entryType: string, scope: Scope, owner: Option<UserId>, key: string, value: string,
                             enabled: bool)

  /** A row. `value` is the canonical JSON text of the value. */
  datatype Entry = Entry(id: EntryId, command: Command, normalizedKey: string, revision: nat, createdAt: int,
                         updatedAt: int)

  /** The rows in the order of their row ids: new rows go last. */
  type Table = seq<Entry>

  datatype Request = Create(command: Command) | Update(id: EntryId, command: Command) | Delete(id: EntryId)

  datatype Env = Env(newId: EntryId, now: int)

  datatype Response = Written(entry: Entry) | Deleted(id: EntryId)

  datatype Error = NotFound(id: EntryId) | IdTaken(id: EntryId)

  type Normalize = string -> string

  // ----- The table -----

  predicate Holds(t: Table, id: EntryId) {
    exists i :: 0 <= i < |t| && t[i].id == id
  }

  ghost predicate UniqueIds(t: Table) {
    forall i, j :: 0 <= i < j < |t| ==> t[i].id != t[j].id
  }

  function RowOf(t: Table, id: EntryId): (i: nat)
    ensures i <= |t| && (i < |t| ==> t[i].id == id) && forall j :: 0 <= j < i ==> t[j].id != id
  {
    if t == [] then 0 else if t[0].id == id then 0 else 1 + RowOf(t[1..], id)
  }

  function Rewrite(n: Normalize, e: Entry, c: Command, now: int): Entry {
    e.(command := c, normalizedKey := n(c.key), revision := e.revision + 1, updatedAt := now)
  }

  function NewEntry(n: Normalize, c: Command, env: Env): Entry {
    Entry(env.newId, c, n(c.key), 1, env.now, env.now)
  }

  /** What one request does to the table. */
  function Apply(n: Normalize, t: Table, q: Request, env: Env): Outcome<Table, Response, Error> {
    match q
    case Create(c) =>
      if Holds(t, env.newId) then Refused(IdTaken(env.newId))
      else Done(t + [NewEntry(n, c, env)], Written(NewEntry(n, c, env)))
    case Update(id, c) =>
      var i := RowOf(t, id);
      if i == |t| then Refused(NotFound(id))
      else Done(t[i := Rewrite(n, t[i], c, env.now)], Written(Rewrite(n, t[i], c, env.now)))
    case Delete(id) =>
      var i := RowOf(t, id);
      if i == |t| then Refused(NotFound(id)) else Done(t[..i] + t[i+1..], Deleted(id))
  }

  function Applied(n: Normalize): (Table, Request, Env) -> Outcome<Table, Response, Error> {
    (t, q, env) => Apply(n, t, q, env)
  }

  // ----- Revisions count updates -----

  /** How often an entry was updated since it was last created, going by requests and replies. */
  function UpdatesSinceCreation(calls: seq<Call<Request, Env>>, replies: seq<Reply<Response, Error>>, id: EntryId): nat
    requires |calls| == |replies|
  {
    if calls == [] then 0
    else
      var n := |calls| - 1;
      var before := UpdatesSinceCreation(calls[..n], replies[..n], id);
      if !replies[n].Fresh? then before
      else
        match calls[n].request
        case Create(_) => if replies[n].response.Written? && replies[n].response.entry.id == id then 0 else before
        case Update(updated, _) => if updated == id then before + 1 else before
        case Delete(_) => before
  }

  ghost predicate AllCount(t: Table, calls: seq<Call<Request, Env>>, replies: seq<Reply<Response, Error>>)
    requires |calls| == |replies|
  {
    forall i :: 0 <= i < |t| ==> t[i].revision == 1 + UpdatesSinceCreation(calls, replies, t[i].id)
  }

  ghost predicate RevisionsCount(t: Table, calls: seq<Call<Request, Env>>, replies: seq<Reply<Response, Error>>)
    requires |calls| == |replies|
  {
    UniqueIds(t) && AllCount(t, calls, replies)
  }

  lemma ApplyKeepsUnique(n: Normalize, t: Table, q: Request, env: Env)
    requires UniqueIds(t) && Apply(n, t, q, env).Done?
    ensures UniqueIds(Apply(n, t, q, env).state)
  {
  }

  /** Every row's revision is one more than the updates that went through since the row was created. */
  lemma {:induction false} RevisionCountsUpdates(n: Normalize, calls: seq<Call<Request, Env>>)
    ensures var l := Ledger([], map[]);
            RevisionsCount(Run(Applied(n), l, calls).state, calls, Replies(Applied(n), l, calls))
  {
    if calls != [] {
      var l := Ledger([], map[]);
      var k := |calls| - 1;
      RevisionCountsUpdates(n, calls[..k]);
      var before := Run(Applied(n), l, calls[..k]);
      var replies := Replies(Applied(n), l, calls);
      assert replies[..k] == Replies(Applied(n), l, calls[..k]);
      StepCountsUpdates(n, before, calls, replies);
    }
  }

  lemma StepCountsUpdates(n: Normalize, before: Ledger<Table, Request, Response>, calls: seq<Call<Request, Env>>,
                          replies: seq<Reply<Response, Error>>)
    requires |calls| == |replies| > 0
    requires RevisionsCount(before.state, calls[..|calls|-1], replies[..|calls|-1])
    requires replies[|calls|-1] == Submit(Applied(n), before, calls[|calls|-1]).1
    ensures RevisionsCount(Submit(Applied(n), before, calls[|calls|-1]).0.state, calls, replies)
  {
    var k := |calls| - 1;
    var c := calls[k];
    var t := before.state;
    var after := Submit(Applied(n), before, c).0.state;
    if replies[k].Fresh? {
      ApplyKeepsUnique(n, t, c.request, c.env);
      match c.request
      case Create(_) => CreationCounts(n, t, calls, replies, after);
      case Update(_, _) => UpdateCounts(n, t, calls, replies, after);
      case Delete(_) => DeletionCounts(n, t, calls, replies, after);
    }
  }

  /** The last call went through and left these rows. */
  ghost predicate LastApplied(n: Normalize, t: Table, calls: seq<Call<Request, Env>>,
      replies: seq<Reply<Response, Error>>, after: Table)
  {
    && |calls| == |replies| > 0 && RevisionsCount(t, calls[..|calls|-1], replies[..|calls|-1])
    && replies[|calls|-1].Fresh?
    && Apply(n, t, calls[|calls|-1].request, calls[|calls|-1].env) == Done(after, replies[|calls|-1].response)
  }

  lemma CreationCounts(n: Normalize, t: Table, calls: seq<Call<Request, Env>>, replies: seq<Reply<Response, Error>>,
                       after: Table)
    requires LastApplied(n, t, calls, replies, after) && calls[|calls|-1].request.Create?
    ensures AllCount(after, calls, replies)
  {
  }

  lemma UpdateCounts(n: Normalize, t: Table, calls: seq<Call<Request, Env>>, replies: seq<Reply<Response, Error>>,
                       after: Table)
    requires LastApplied(n, t, calls, replies, after) && calls[|calls|-1].request.Update?
    ensures AllCount(after, calls, replies)
  {
    var updated := RowOf(t, calls[|calls|-1].request.id);
    assert forall i :: 0 <= i < |after| && i != updated ==> after[i] == t[i];
  }

  lemma DeletionCounts(n: Normalize, t: Table, calls: seq<Call<Request, Env>>, replies: seq<Reply<Response, Error>>,
                       after: Table)
    requires LastApplied(n, t, calls, replies, after) && calls[|calls|-1].request.Delete?
    ensures AllCount(after, calls, replies)
  {
    var deleted := RowOf(t, calls[|calls|-1].request.id);
    assert forall i :: 0 <= i < |after| ==> after[i] == t[if i < deleted then i else i + 1];
  }

  // ----- Resolution -----

  datatype Lookup = Lookup(entryType: string, key: string)

  datatype Conflict = Conflict(lookup: Lookup, scope: Scope, ids: seq<EntryId>)

  datatype AppliedEntry = AppliedEntry(id: EntryId, revision: nat)

  datatype Answer = NoAnswer | Value(value: string, applied: AppliedEntry) | Conflicting(conflict: Conflict)

  /** Enabled, and of everyone's scopes or the user's own. */
  predicate Visible(user: Option<UserId>, e: Entry) {
    e.command.enabled && (e.command.scope != UserScope || (user.Some? && e.command.owner == user))
  }

  predicate Matches(user: Option<UserId>, look: Lookup, e: Entry) {
    Visible(user, e) && e.command.entryType == look.entryType && e.normalizedKey == look.key
  }

  /** The conditions the rows are picked by. */
  datatype Criterion =
    | VisibleTo(user: Option<UserId>)
    | Matching(user: Option<UserId>, look: Lookup)
    | MatchingIn(user: Option<UserId>, look: Lookup, scope: Scope)
    | Above(user: Option<UserId>, look: Lookup, scope: Scope)
    | InScope(scope: Scope)

  predicate Meets(e: Entry, c: Criterion) {
    match c
    case VisibleTo(user) => Visible(user, e)
    case Matching(user, look) => Matches(user, look, e)
    case MatchingIn(user, look, s) => Matches(user, look, e) && e.command.scope == s
    case Above(user, look, s) => Matches(user, look, e) && Rank(e.command.scope) <= Rank(s)
    case InScope(s) => e.command.scope == s
  }

  function Rank(s: Scope): nat {
    match s
    case UserScope => 0
    case FamilyScope => 1
    case SystemScope => 2
  }

  function Filter(t: Table, c: Criterion): Table {
    if t == [] then [] else KeepIf(Filter(t[..|t|-1], c), t[|t|-1], c)
  }

  function KeepIf(t: Table, e: Entry, c: Criterion): Table {
    if Meets(e, c) then t + [e] else t
  }

  /** Puts an entry after all that were not created later. */
  function Insert(e: Entry, t: Table): Table {
    if t == [] then [e]
    else if t[|t|-1].createdAt <= e.createdAt then t + [e]
    else Insert(e, t[..|t|-1]) + [t[|t|-1]]
  }

  /** By creation time, and by row order among equals. */
  function ByAge(t: Table): Table {
    if t == [] then [] else Insert(t[|t|-1], ByAge(t[..|t|-1]))
  }

  function Select(t: Table, user: Option<UserId>, look: Lookup): Table {
    ByAge(Filter(t, Matching(user, look)))
  }

  function OfScope(rows: Table, s: Scope): Table {
    Filter(rows, InScope(s))
  }

  function EntryIds(rows: Table): (ids: seq<EntryId>)
    ensures |ids| == |rows|
  {
    seq(|rows|, i requires 0 <= i < |rows| => rows[i].id)
  }

  /** The entries of the first scope, in the order of precedence, that has any. */
  function Candidates(rows: Table): Table {
    if OfScope(rows, UserScope) != [] then OfScope(rows, UserScope)
    else if OfScope(rows, FamilyScope) != [] then OfScope(rows, FamilyScope)
    else OfScope(rows, SystemScope)
  }

  function AnswerOf(look: Lookup, candidates: Table): Answer {
    if candidates == [] then NoAnswer
    else if exists e | e in candidates :: e.command.value != candidates[0].command.value then
      Conflicting(Conflict(look, candidates[0].command.scope, EntryIds(candidates)))
    else Value(candidates[0].command.value, AppliedEntry(candidates[0].id, candidates[0].revision))
  }

  function ResolveOne(t: Table, user: Option<UserId>, look: Lookup): Answer {
    AnswerOf(look, Candidates(Select(t, user, look)))
  }

  /** What the loop over the lookups collects. */
  datatype Tally = Tally(values: map<Lookup, string>, applied: seq<AppliedEntry>, conflicts: seq<Conflict>)

  datatype ResolutionOutcome = SuccessOutcome | AmbiguousOutcome

  datatype Resolution = Resolution(outcome: ResolutionOutcome, values: map<Lookup, string>, applied: seq<AppliedEntry>,
                                   conflicts: seq<Conflict>)

  function WithAnswer(r: Tally, look: Lookup, a: Answer): Tally {
    match a
    case NoAnswer => r
    case Value(value, applied) => r.(values := r.values[look := value], applied := r.applied + [applied])
    case Conflicting(conflict) => r.(conflicts := r.conflicts + [conflict])
  }

  function TallyFrom(looks: seq<Lookup>, answers: seq<Answer>): Tally
    requires |looks| == |answers|
  {
    if looks == [] then Tally(map[], [], [])
    else
      var n := |looks| - 1;
      WithAnswer(TallyFrom(looks[..n], answers[..n]), looks[n], answers[n])
  }

  function AnswersTo(t: Table, user: Option<UserId>, looks: seq<Lookup>): (a: seq<Answer>)
    ensures |a| == |looks| && forall i :: 0 <= i < |a| ==> a[i] == ResolveOne(t, user, looks[i])
  {
    seq(|looks|, i requires 0 <= i < |looks| => ResolveOne(t, user, looks[i]))
  }

  function TallyOf(t: Table, user: Option<UserId>, looks: seq<Lookup>): Tally {
    TallyFrom(looks, AnswersTo(t, user, looks))
  }

  function ResolveAll(t: Table, user: Option<UserId>, looks: seq<Lookup>): Resolution {
    var tally := TallyOf(t, user, looks);
    Resolution(if tally.conflicts != [] then AmbiguousOutcome else SuccessOutcome,
               tally.values, tally.applied, tally.conflicts)
  }

  lemma OneMoreLookup(t: Table, user: Option<UserId>, looks: seq<Lookup>, n: nat)
    requires n < |looks|
    ensures TallyOf(t, user, looks[..n+1]) ==
            WithAnswer(TallyOf(t, user, looks[..n]), looks[n], ResolveOne(t, user, looks[n]))
  {
    assert looks[..n+1][..n] == looks[..n];
    assert AnswersTo(t, user, looks[..n+1])[..n] == AnswersTo(t, user, looks[..n]);
  }

  /** The lookups without repeats, each where it came first. */
  function FirstsOf(looks: seq<Lookup>): seq<Lookup> {
    if looks == [] then []
    else
      var firsts, last := FirstsOf(looks[..|looks|-1]), looks[|looks|-1];
      if last in looks[..|looks|-1] then firsts else firsts + [last]
  }

  ghost predicate Distinct(looks: seq<Lookup>) {
    forall i, j :: 0 <= i < j < |looks| ==> looks[i] != looks[j]
  }

  // ----- What a resolution means -----

  ghost predicate Oldest(t: Table) {
    forall i, j :: 0 <= i < j < |t| ==> t[i].createdAt <= t[j].createdAt
  }

  lemma {:induction false} FilterMembers(t: Table, c: Criterion)
    ensures forall e :: e in Filter(t, c) <==> e in t && Meets(e, c)
  {
    if t != [] {
      FilterMembers(t[..|t|-1], c);
      assert t == t[..|t|-1] + [t[|t|-1]];
    }
  }

  lemma RowsOfFront(t: Table)
    requires t != []
    ensures multiset(t) == multiset(t[..|t|-1]) + multiset{t[|t|-1]}
  {
    assert t == t[..|t|-1] + [t[|t|-1]];
  }

  lemma {:induction false} InsertKeepsRows(e: Entry, t: Table)
    ensures multiset(Insert(e, t)) == multiset(t) + multiset{e}
  {
    if t != [] && t[|t|-1].createdAt > e.createdAt {
      InsertKeepsRows(e, t[..|t|-1]);
      RowsOfFront(t);
    }
  }

  lemma {:induction false} ByAgeKeepsRows(t: Table)
    ensures multiset(ByAge(t)) == multiset(t)
  {
    if t == [] { return; }
    ByAgeKeepsRows(t[..|t|-1]);
    RowsOfFront(t);
    InsertKeepsRows(t[|t|-1], ByAge(t[..|t|-1]));
  }

  lemma {:induction false} InsertKeepsOrder(e: Entry, t: Table)
    requires Oldest(t)
    ensures Oldest(Insert(e, t))
  {
    if t != [] && t[|t|-1].createdAt > e.createdAt {
      var front := t[..|t|-1];
      InsertKeepsOrder(e, front);
      InsertKeepsRows(e, front);
      var r := Insert(e, front);
      forall x | x in r ensures x.createdAt <= t[|t|-1].createdAt {
        assert x in multiset(r);
        assert x == e || x in front;
      }
    }
  }

  lemma {:induction false} ByAgeOrders(t: Table)
    ensures Oldest(ByAge(t))
  {
    if t != [] {
      ByAgeOrders(t[..|t|-1]);
      InsertKeepsOrder(t[|t|-1], ByAge(t[..|t|-1]));
    }
  }

  lemma FilterOneMore(t: Table, e: Entry, c: Criterion)
    ensures Filter(t + [e], c) == KeepIf(Filter(t, c), e, c)
  {
    assert (t + [e])[..|t|] == t;
  }

  lemma InsertBefore(e: Entry, t: Table, last: Entry)
    requires last.createdAt > e.createdAt
    ensures Insert(e, t + [last]) == Insert(e, t) + [last]
  {
    assert (t + [last])[..|t|] == t;
  }

  lemma ByAgeOneMore(t: Table, e: Entry)
    ensures ByAge(t + [e]) == Insert(e, ByAge(t))
  {
    assert (t + [e])[..|t|] == t;
  }

  /** Nothing in t was created after e, so e goes last. */
  lemma InsertLast(e: Entry, t: Table)
    requires forall x :: x in t ==> x.createdAt <= e.createdAt
    ensures Insert(e, t) == t + [e]
  {
  }

  function InsertIf(e: Entry, t: Table, c: Criterion): Table {
    if Meets(e, c) then Insert(e, t) else t
  }

  lemma FilterInsertLast(e: Entry, t: Table, c: Criterion)
    requires forall x :: x in t ==> x.createdAt <= e.createdAt
    ensures Filter(Insert(e, t), c) == InsertIf(e, Filter(t, c), c)
  {
    InsertLast(e, t);
    FilterOneMore(t, e, c);
    FilterMembers(t, c);
    InsertLast(e, Filter(t, c));
  }

  lemma InsertIfBefore(e: Entry, t: Table, last: Entry, c: Criterion)
    requires last.createdAt > e.createdAt
    ensures InsertIf(e, KeepIf(t, last, c), c) == KeepIf(InsertIf(e, t, c), last, c)
  {
    InsertBefore(e, t, last);
  }

  lemma {:induction false} FilterInsert(e: Entry, t: Table, c: Criterion)
    requires Oldest(t)
    ensures Filter(Insert(e, t), c) == InsertIf(e, Filter(t, c), c)
  {
    if t == [] || t[|t|-1].createdAt <= e.createdAt {
      FilterInsertLast(e, t, c);
      return;
    }
    var front, last := t[..|t|-1], t[|t|-1];
    FilterInsert(e, front, c);
    FilterOneMore(Insert(e, front), last, c);
    InsertIfBefore(e, Filter(front, c), last, c);
  }

  lemma {:induction false} FilterByAge(t: Table, c: Criterion)
    ensures Filter(ByAge(t), c) == ByAge(Filter(t, c))
  {
    if t != [] {
      var front, last := t[..|t|-1], t[|t|-1];
      FilterByAge(front, c);
      ByAgeOrders(front);
      FilterInsert(last, ByAge(front), c);
      ByAgeOneMore(Filter(front, c), last);
    }
  }

  /** `both` is the conjunction of `c` and `d`. */
  ghost predicate Conjunction(c: Criterion, d: Criterion, both: Criterion) {
    forall e :: Meets(e, both) <==> Meets(e, c) && Meets(e, d)
  }

  lemma {:induction false} FilterNarrows(t: Table, c: Criterion, d: Criterion, both: Criterion)
    requires Conjunction(c, d, both)
    ensures Filter(Filter(t, c), d) == Filter(t, both)
  {
    if t != [] {
      var front, last := t[..|t|-1], t[|t|-1];
      FilterNarrows(front, c, d, both);
      FilterOneMore(Filter(front, c), last, d);
      assert Meets(last, both) <==> Meets(last, c) && Meets(last, d);
    }
  }

  /** The matching entries of one scope, oldest first. */
  function ScopeRows(t: Table, user: Option<UserId>, look: Lookup, s: Scope): Table {
    ByAge(Filter(t, MatchingIn(user, look, s)))
  }

  lemma ScopeOfSelection(t: Table, user: Option<UserId>, look: Lookup, s: Scope)
    ensures OfScope(Select(t, user, look), s) == ScopeRows(t, user, look, s)
  {
    FilterByAge(Filter(t, Matching(user, look)), InScope(s));
    FilterNarrows(t, Matching(user, look), InScope(s), MatchingIn(user, look, s));
  }

  /** The entry is enabled, has the type and the key that are looked up, and is the user's own, the family's or the
      system's. */
  predicate AppliesTo(user: Option<UserId>, look: Lookup, e: Entry) {
    && e.command.enabled && e.command.entryType == look.entryType && e.normalizedKey == look.key
    && (e.command.scope == UserScope ==> user.Some? && e.command.owner == user)
  }

  /** The user's entries come before the family's, and these before the system's. */
  predicate Outranks(a: Scope, b: Scope) {
    (a == UserScope && b != UserScope) || (a == FamilyScope && b == SystemScope)
  }

  /** e decides the lookup's scope: it matches, and nothing of a higher scope does. */
  ghost predicate Deciding(t: Table, user: Option<UserId>, look: Lookup, e: Entry) {
    e in t && AppliesTo(user, look, e) &&
    forall x :: x in t && AppliesTo(user, look, x) ==> !Outranks(x.command.scope, e.command.scope)
  }

  /** Exactly the rows that meet the criterion, oldest first. */
  ghost predicate Lists(rows: Table, t: Table, c: Criterion) {
    Oldest(rows) && forall e :: e in rows <==> e in t && Meets(e, c)
  }

  lemma RowsOfScope(t: Table, user: Option<UserId>, look: Lookup, s: Scope)
    ensures Lists(OfScope(Select(t, user, look), s), t, MatchingIn(user, look, s))
  {
    ScopeOfSelection(t, user, look, s);
    var rows := Filter(t, MatchingIn(user, look, s));
    ByAgeOrders(rows);
    ByAgeKeepsRows(rows);
    FilterMembers(t, MatchingIn(user, look, s));
    forall e ensures e in ByAge(rows) <==> e in rows {
      assert e in ByAge(rows) <==> e in multiset(ByAge(rows));
    }
  }

  /** The rows that decide the lookup, oldest first; none only if no row matches. */
  ghost predicate Decisive(c: Table, t: Table, user: Option<UserId>, look: Lookup) {
    && Oldest(c)
    && (forall e :: e in c <==> Deciding(t, user, look, e))
    && (c == [] ==> forall e :: e in t ==> !AppliesTo(user, look, e))
  }

  /** No matching row outranks scope s. */
  ghost predicate NoneAbove(t: Table, user: Option<UserId>, look: Lookup, s: Scope) {
    forall e :: e in t && Matches(user, look, e) ==> Rank(s) <= Rank(e.command.scope)
  }

  lemma ScopeDecides(t: Table, user: Option<UserId>, look: Lookup, s: Scope, c: Table)
    requires c != [] && Lists(c, t, MatchingIn(user, look, s)) && NoneAbove(t, user, look, s)
    ensures Decisive(c, t, user, look)
  {
    assert c[0] in c;
    forall e ensures e in c <==> Deciding(t, user, look, e) {
      if Deciding(t, user, look, e) {
        assert Meets(c[0], MatchingIn(user, look, s));
        assert Rank(e.command.scope) <= Rank(s);
        assert Meets(e, MatchingIn(user, look, s));
      }
      if e in c {
        assert Meets(e, MatchingIn(user, look, s));
      }
    }
  }

  lemma NoRowsNoneAbove(t: Table, user: Option<UserId>, look: Lookup, s: Scope, below: Scope)
    requires Lists([], t, MatchingIn(user, look, s)) && NoneAbove(t, user, look, s) && Rank(below) == Rank(s) + 1
    ensures NoneAbove(t, user, look, below)
  {
    forall e | e in t && Matches(user, look, e) ensures Rank(below) <= Rank(e.command.scope) {
      assert !Meets(e, MatchingIn(user, look, s));
    }
  }

  lemma CandidatesDecide(t: Table, user: Option<UserId>, look: Lookup)
    ensures Decisive(Candidates(Select(t, user, look)), t, user, look)
  {
    var rows := Select(t, user, look);
    RowsOfScope(t, user, look, UserScope);
    if OfScope(rows, UserScope) != [] {
      ScopeDecides(t, user, look, UserScope, OfScope(rows, UserScope));
      return;
    }
    NoRowsNoneAbove(t, user, look, UserScope, FamilyScope);
    RowsOfScope(t, user, look, FamilyScope);
    if OfScope(rows, FamilyScope) != [] {
      ScopeDecides(t, user, look, FamilyScope, OfScope(rows, FamilyScope));
      return;
    }
    NoRowsNoneAbove(t, user, look, FamilyScope, SystemScope);
    RowsOfScope(t, user, look, SystemScope);
    if OfScope(rows, SystemScope) != [] {
      ScopeDecides(t, user, look, SystemScope, OfScope(rows, SystemScope));
      return;
    }
    LastScopeEmpty(t, user, look);
  }

  lemma LastScopeEmpty(t: Table, user: Option<UserId>, look: Lookup)
    requires Lists([], t, MatchingIn(user, look, SystemScope)) && NoneAbove(t, user, look, SystemScope)
    ensures Decisive([], t, user, look)
  {
    forall e | e in t ensures !Matches(user, look, e) {
      assert !Meets(e, MatchingIn(user, look, SystemScope));
    }
  }

  lemma IdsListed(rows: Table)
    ensures forall e :: e in rows ==> e.id in EntryIds(rows)
    ensures forall id :: id in EntryIds(rows) ==> exists e :: e in rows && e.id == id
  {
    forall e | e in rows ensures e.id in EntryIds(rows) {
      var i :| 0 <= i < |rows| && rows[i] == e;
      assert EntryIds(rows)[i] == e.id;
    }
    forall id | id in EntryIds(rows) ensures exists e :: e in rows && e.id == id {
      var i :| 0 <= i < |rows| && EntryIds(rows)[i] == id;
      assert rows[i] in rows;
    }
  }

  /** What an answer says about the entries that decide its lookup. */
  ghost predicate AnswerMeans(t: Table, user: Option<UserId>, look: Lookup, a: Answer) {
    match a
    case NoAnswer => forall e :: e in t ==> !AppliesTo(user, look, e)
    case Value(value, applied) =>
      && (forall e :: Deciding(t, user, look, e) ==> e.command.value == value)
      && exists e :: Deciding(t, user, look, e) && applied == AppliedEntry(e.id, e.revision) &&
           forall x :: Deciding(t, user, look, x) ==> e.createdAt <= x.createdAt
    case Conflicting(conflict) =>
      && conflict.lookup == look
      && (exists e, x :: Deciding(t, user, look, e) && Deciding(t, user, look, x) && e.command.value != x.command.value)
      && (forall e :: Deciding(t, user, look, e) ==> e.command.scope == conflict.scope && e.id in conflict.ids)
      && (forall id :: id in conflict.ids ==> exists e :: Deciding(t, user, look, e) && e.id == id)
      && (exists rows :: Decisive(rows, t, user, look) && conflict.ids == EntryIds(rows))
  }

  /** Each lookup gets the value of its highest non-empty scope, taken from that scope's oldest entry, or one
      conflict that names all entries of that scope, or nothing if no entry matches. */
  lemma AnswerIsRight(t: Table, user: Option<UserId>, look: Lookup)
    ensures AnswerMeans(t, user, look, ResolveOne(t, user, look))
  {
    CandidatesDecide(t, user, look);
    AnswerFromCandidates(t, user, look, Candidates(Select(t, user, look)));
  }

  lemma AnswerFromCandidates(t: Table, user: Option<UserId>, look: Lookup, c: Table)
    requires Decisive(c, t, user, look)
    ensures AnswerMeans(t, user, look, AnswerOf(look, c))
  {
    if c == [] { return; }
    assert c[0] in c;
    if exists e | e in c :: e.command.value != c[0].command.value {
      ConflictFromCandidates(t, user, look, c);
      return;
    }
    forall x | Deciding(t, user, look, x)
      ensures c[0].createdAt <= x.createdAt && x.command.value == c[0].command.value
    {
      var i :| 0 <= i < |c| && c[i] == x;
    }
  }

  lemma ConflictFromCandidates(t: Table, user: Option<UserId>, look: Lookup, c: Table)
    requires Decisive(c, t, user, look) && c != []
    requires exists e | e in c :: e.command.value != c[0].command.value
    ensures AnswerMeans(t, user, look, Conflicting(Conflict(look, c[0].command.scope, EntryIds(c))))
  {
    IdsListed(c);
    assert c[0] in c;
    forall id | id in EntryIds(c) ensures exists e :: Deciding(t, user, look, e) && e.id == id {
      var e :| e in c && e.id == id;
    }
    forall e | Deciding(t, user, look, e) ensures e.command.scope == c[0].command.scope && e.id in EntryIds(c) {
      assert Rank(e.command.scope) == Rank(c[0].command.scope);
    }
  }

  // ----- What the record of a resolution holds -----

  /** The record holds this answer to the lookup, and no other. */
  ghost predicate Records(r: Resolution, look: Lookup, a: Answer) {
    && (a.Value? <==> look in r.values)
    && (a.Value? ==> r.values[look] == a.value && a.applied in r.applied)
    && (a.Conflicting? <==> exists c :: c in r.conflicts && c.lookup == look)
    && (a.Conflicting? ==> forall c :: c in r.conflicts && c.lookup == look ==> c == a.conflict)
  }

  datatype Kind = Valued | Ambiguous

  predicate OfKind(a: Answer, kind: Kind) {
    match kind
    case Valued => a.Value?
    case Ambiguous => a.Conflicting?
  }

  /** Places lists, in ascending order, the places of exactly the answers of this kind. */
  ghost predicate PlacesOf(places: seq<nat>, answers: seq<Answer>, kind: Kind) {
    && (forall i, j :: 0 <= i < j < |places| ==> places[i] < places[j])
    && (forall i :: 0 <= i < |places| ==> places[i] < |answers| && OfKind(answers[places[i]], kind))
    && (forall p :: 0 <= p < |answers| && OfKind(answers[p], kind) ==> p in places)
  }

  function NextPlace(places: seq<nat>, answers: seq<Answer>, kind: Kind): seq<nat>
    requires answers != []
  {
    if OfKind(answers[|answers|-1], kind) then places + [|answers| - 1] else places
  }

  lemma PlacesOneMore(places: seq<nat>, answers: seq<Answer>, kind: Kind)
    requires answers != [] && PlacesOf(places, answers[..|answers|-1], kind)
    ensures PlacesOf(NextPlace(places, answers, kind), answers, kind)
  {
    var n := |answers| - 1;
    var more := NextPlace(places, answers, kind);
    assert forall p :: 0 <= p < n ==> answers[..n][p] == answers[p];
    forall p | 0 <= p < |answers| && OfKind(answers[p], kind) ensures p in more {
      if p == n { assert more[|places|] == n; } else { assert p in places; }
    }
  }

  /** The applied entries are those of the answers at these places. */
  ghost predicate AppliedAt(answers: seq<Answer>, applied: seq<AppliedEntry>, places: seq<nat>) {
    && |applied| == |places|
    && forall i :: 0 <= i < |places| ==>
         places[i] < |answers| && answers[places[i]].Value? && answers[places[i]].applied == applied[i]
  }

  ghost predicate ConflictsAt(answers: seq<Answer>, conflicts: seq<Conflict>, places: seq<nat>) {
    && |conflicts| == |places|
    && forall i :: 0 <= i < |places| ==>
         places[i] < |answers| && answers[places[i]] == Conflicting(conflicts[i])
  }

  lemma {:induction false} AppliedInOrder(looks: seq<Lookup>, answers: seq<Answer>) returns (places: seq<nat>)
    requires |looks| == |answers|
    ensures PlacesOf(places, answers, Valued)
    ensures AppliedAt(answers, TallyFrom(looks, answers).applied, places)
  {
    if answers == [] { return []; }
    var n := |answers| - 1;
    var before := AppliedInOrder(looks[..n], answers[..n]);
    places := NextPlace(before, answers, Valued);
    PlacesOneMore(before, answers, Valued);
  }

  lemma {:induction false} ConflictsInOrder(looks: seq<Lookup>, answers: seq<Answer>) returns (places: seq<nat>)
    requires |looks| == |answers|
    ensures PlacesOf(places, answers, Ambiguous)
    ensures ConflictsAt(answers, TallyFrom(looks, answers).conflicts, places)
  {
    if answers == [] { return []; }
    var n := |answers| - 1;
    var before := ConflictsInOrder(looks[..n], answers[..n]);
    places := NextPlace(before, answers, Ambiguous);
    PlacesOneMore(before, answers, Ambiguous);
  }

  /** A lookup is always answered alike, and a conflict names its lookup. */
  ghost predicate Consistent(looks: seq<Lookup>, answers: seq<Answer>) {
    && |looks| == |answers|
    && (forall i, j :: 0 <= i < j < |looks| && looks[i] == looks[j] ==> answers[i] == answers[j])
    && (forall i :: 0 <= i < |looks| && answers[i].Conflicting? ==> answers[i].conflict.lookup == looks[i])
  }

  predicate IsValue(looks: seq<Lookup>, answers: seq<Answer>, i: nat, look: Lookup, value: string)
    requires i < |looks| == |answers|
  {
    looks[i] == look && answers[i].Value? && answers[i].value == value
  }

  lemma {:induction false} ValuesComeFromAnswers(looks: seq<Lookup>, answers: seq<Answer>, look: Lookup)
    requires |looks| == |answers| && look in TallyFrom(looks, answers).values
    ensures exists i :: 0 <= i < |looks| && IsValue(looks, answers, i, look, TallyFrom(looks, answers).values[look])
  {
    var n := |looks| - 1;
    if answers[n].Value? && looks[n] == look {
      assert IsValue(looks, answers, n, look, TallyFrom(looks, answers).values[look]);
    } else {
      ValuesComeFromAnswers(looks[..n], answers[..n], look);
      var values := TallyFrom(looks[..n], answers[..n]).values;
      var i :| 0 <= i < n && IsValue(looks[..n], answers[..n], i, look, values[look]);
      assert IsValue(looks, answers, i, look, TallyFrom(looks, answers).values[look]);
    }
  }

  lemma {:induction false} AnswersBecomeValues(looks: seq<Lookup>, answers: seq<Answer>, i: nat)
    requires i < |looks| == |answers| && answers[i].Value?
    ensures looks[i] in TallyFrom(looks, answers).values
  {
    if i < |looks| - 1 {
      AnswersBecomeValues(looks[..|looks|-1], answers[..|looks|-1], i);
    }
  }

  lemma ValueRecorded(looks: seq<Lookup>, answers: seq<Answer>, k: nat)
    requires Consistent(looks, answers) && k < |looks|
    ensures var values := TallyFrom(looks, answers).values;
            (looks[k] in values <==> answers[k].Value?) && (looks[k] in values ==> values[looks[k]] == answers[k].value)
  {
    var values := TallyFrom(looks, answers).values;
    if answers[k].Value? { AnswersBecomeValues(looks, answers, k); }
    if looks[k] in values {
      ValuesComeFromAnswers(looks, answers, looks[k]);
      var i :| 0 <= i < |looks| && IsValue(looks, answers, i, looks[k], values[looks[k]]);
    }
  }

  lemma RecordsAnswer(looks: seq<Lookup>, answers: seq<Answer>, r: Resolution, k: nat)
    requires Consistent(looks, answers) && k < |looks|
    requires TallyFrom(looks, answers) == Tally(r.values, r.applied, r.conflicts)
    ensures Records(r, looks[k], answers[k])
  {
    ValueRecorded(looks, answers, k);
    var valued := AppliedInOrder(looks, answers);
    if answers[k].Value? {
      var i :| 0 <= i < |valued| && valued[i] == k;
      assert r.applied[i] == answers[k].applied;
    }
    ConflictRecorded(looks, answers, r, k);
  }

  lemma ConflictRecorded(looks: seq<Lookup>, answers: seq<Answer>, r: Resolution, k: nat)
    requires Consistent(looks, answers) && k < |looks|
    requires TallyFrom(looks, answers) == Tally(r.values, r.applied, r.conflicts)
    ensures answers[k].Conflicting? ==> answers[k].conflict in r.conflicts
    ensures forall c :: c in r.conflicts && c.lookup == looks[k] ==> answers[k] == Conflicting(c)
  {
    var places := ConflictsInOrder(looks, answers);
    if answers[k].Conflicting? {
      var i :| 0 <= i < |places| && places[i] == k;
      assert r.conflicts[i] == answers[k].conflict;
    }
    forall c | c in r.conflicts && c.lookup == looks[k] ensures answers[k] == Conflicting(c) {
      RecordedConflict(looks, answers, r, k, c);
    }
  }

  lemma RecordedConflict(looks: seq<Lookup>, answers: seq<Answer>, r: Resolution, k: nat, c: Conflict)
    requires Consistent(looks, answers) && k < |looks| && c in r.conflicts && c.lookup == looks[k]
    requires TallyFrom(looks, answers) == Tally(r.values, r.applied, r.conflicts)
    ensures answers[k] == Conflicting(c)
  {
    var places := ConflictsInOrder(looks, answers);
    var i :| 0 <= i < |r.conflicts| && r.conflicts[i] == c;
    assert looks[places[i]] == looks[k];
  }

  lemma AnswersConsistent(t: Table, user: Option<UserId>, looks: seq<Lookup>)
    ensures Consistent(looks, AnswersTo(t, user, looks))
    ensures forall i :: 0 <= i < |looks| ==> AnswerMeans(t, user, looks[i], AnswersTo(t, user, looks)[i])
  {
    forall i | 0 <= i < |looks| ensures AnswerMeans(t, user, looks[i], AnswersTo(t, user, looks)[i]) {
      AnswerIsRight(t, user, looks[i]);
    }
  }

  /** What is resolved: for each lookup the record holds the value of its highest non-empty scope, taken from that
      scope's oldest entry, or a conflict that names all entries of that scope, or nothing if no entry matches. It holds
      nothing else, and is ambiguous exactly if there is a conflict. */
  lemma ResolutionMeans(t: Table, user: Option<UserId>, looks: seq<Lookup>)
    ensures var r := ResolveAll(t, user, looks);
            && (forall look :: look in looks ==> exists a :: AnswerMeans(t, user, look, a) && Records(r, look, a))
            && (forall look :: look in r.values ==> look in looks)
            && (forall c :: c in r.conflicts ==> c.lookup in looks)
            && (r.outcome == AmbiguousOutcome <==>
               exists i :: 0 <= i < |looks| && ResolveOne(t, user, looks[i]).Conflicting?)
  {
    var r, answers := ResolveAll(t, user, looks), AnswersTo(t, user, looks);
    AnswersConsistent(t, user, looks);
    OnlyLookupsRecorded(looks, answers, r);
    AmbiguousIfConflicts(looks, answers);
    forall look | look in looks ensures exists a :: AnswerMeans(t, user, look, a) && Records(r, look, a) {
      var k :| 0 <= k < |looks| && looks[k] == look;
      RecordsAnswer(looks, answers, r, k);
    }
  }

  lemma OnlyLookupsRecorded(looks: seq<Lookup>, answers: seq<Answer>, r: Resolution)
    requires Consistent(looks, answers) && TallyFrom(looks, answers) == Tally(r.values, r.applied, r.conflicts)
    ensures forall look :: look in r.values ==> look in looks
    ensures forall c :: c in r.conflicts ==> c.lookup in looks
  {
    forall look | look in r.values ensures look in looks {
      ValuesComeFromAnswers(looks, answers, look);
      var i :| 0 <= i < |looks| && IsValue(looks, answers, i, look, r.values[look]);
    }
    var places := ConflictsInOrder(looks, answers);
    forall c | c in r.conflicts ensures c.lookup in looks {
      var i :| 0 <= i < |r.conflicts| && r.conflicts[i] == c;
      assert looks[places[i]] == c.lookup;
    }
  }

  lemma AmbiguousIfConflicts(looks: seq<Lookup>, answers: seq<Answer>)
    requires Consistent(looks, answers)
    ensures TallyFrom(looks, answers).conflicts != [] <==> exists i :: 0 <= i < |looks| && answers[i].Conflicting?
  {
    var places := ConflictsInOrder(looks, answers);
    if TallyFrom(looks, answers).conflicts != [] { assert answers[places[0]].Conflicting?; }
  }

  /** Among distinct lookups there is one conflict, and one applied entry, for each that has one, in their order. */
  lemma ResolutionCounts(t: Table, user: Option<UserId>, looks: seq<Lookup>)
    returns (valued: seq<nat>, ambiguous: seq<nat>)
    requires Distinct(looks)
    ensures var answers := AnswersTo(t, user, looks);
            && PlacesOf(valued, answers, Valued) && AppliedAt(answers, ResolveAll(t, user, looks).applied, valued)
            && PlacesOf(ambiguous, answers, Ambiguous)
            && ConflictsAt(answers, ResolveAll(t, user, looks).conflicts, ambiguous)
    ensures var c := ResolveAll(t, user, looks).conflicts;
            forall i, j :: 0 <= i < j < |c| ==> c[i].lookup != c[j].lookup
  {
    var answers := AnswersTo(t, user, looks);
    AnswersConsistent(t, user, looks);
    valued := AppliedInOrder(looks, answers);
    ambiguous := ConflictsInOrder(looks, answers);
    var c := ResolveAll(t, user, looks).conflicts;
    forall i | 0 <= i < |c| ensures c[i].lookup == looks[ambiguous[i]] {}
  }

  lemma {:induction false} FirstsOfMembers(looks: seq<Lookup>)
    ensures Distinct(FirstsOf(looks)) && forall look :: look in FirstsOf(looks) <==> look in looks
  {
    if looks != [] {
      FirstsOfMembers(looks[..|looks|-1]);
      assert looks == looks[..|looks|-1] + [looks[|looks|-1]];
    }
  }

  /** Drops the lookups of a request that repeat earlier ones. */
  method DeduplicateLookups(looks: seq<Lookup>) returns (r: seq<Lookup>)
    ensures r == FirstsOf(looks)
    ensures Distinct(r) && forall look :: look in r <==> look in looks
  {
    r := [];
    var seen: set<Lookup> := {};
    for i := 0 to |looks|
      invariant r == FirstsOf(looks[..i]) && forall look :: look in seen <==> look in looks[..i]
    {
      assert looks[..i+1][..i] == looks[..i] && looks[..i+1] == looks[..i] + [looks[i]];
      if looks[i] !in seen {
        r := r + [looks[i]];
        seen := seen + {looks[i]};
      }
    }
    assert looks[..|looks|] == looks;
    FirstsOfMembers(looks);
  }

  /** A resolution depends on nothing but the enabled shared entries and the user's own. */
  lemma {:induction false} ResolutionSeesOnlyVisible(t: Table, u: Table, user: Option<UserId>, looks: seq<Lookup>)
    requires Filter(t, VisibleTo(user)) == Filter(u, VisibleTo(user))
    ensures TallyOf(t, user, looks) == TallyOf(u, user, looks)
            && ResolveAll(t, user, looks) == ResolveAll(u, user, looks)
  {
    if looks != [] {
      var n := |looks| - 1;
      var look := looks[n];
      ResolutionSeesOnlyVisible(t, u, user, looks[..n]);
      OneMoreLookup(t, user, looks, n);
      OneMoreLookup(u, user, looks, n);
      assert looks[..n+1] == looks;
      FilterNarrows(t, VisibleTo(user), Matching(user, look), Matching(user, look));
      FilterNarrows(u, VisibleTo(user), Matching(user, look), Matching(user, look));
    }
  }

  lemma SameRowsAbove(t: Table, u: Table, user: Option<UserId>, look: Lookup, s: Scope, x: Scope)
    requires Filter(t, Above(user, look, s)) == Filter(u, Above(user, look, s)) && Rank(x) <= Rank(s)
    ensures OfScope(Select(t, user, look), x) == OfScope(Select(u, user, look), x)
  {
    ScopeOfSelection(t, user, look, x);
    ScopeOfSelection(u, user, look, x);
    FilterNarrows(t, Above(user, look, s), MatchingIn(user, look, x), MatchingIn(user, look, x));
    FilterNarrows(u, Above(user, look, s), MatchingIn(user, look, x), MatchingIn(user, look, x));
  }

  /** Once a scope has an entry for a lookup, lower scopes have no say in it. */
  lemma LowerScopesIgnored(t: Table, u: Table, user: Option<UserId>, look: Lookup, s: Scope)
    requires Filter(t, Above(user, look, s)) == Filter(u, Above(user, look, s)) != []
    ensures ResolveOne(t, user, look) == ResolveOne(u, user, look)
  {
    var top := Filter(t, Above(user, look, s))[0];
    assert top in Filter(t, Above(user, look, s));
    FilterMembers(t, Above(user, look, s));
    RowsOfScope(t, user, look, top.command.scope);
    assert Meets(top, MatchingIn(user, look, top.command.scope));
    assert top in OfScope(Select(t, user, look), top.command.scope);
    SameRowsAbove(t, u, user, look, s, UserScope);
    if s != UserScope { SameRowsAbove(t, u, user, look, s, FamilyScope); }
    if s == SystemScope { SameRowsAbove(t, u, user, look, s, SystemScope); }
    assert Candidates(Select(t, user, look)) == Candidates(Select(u, user, look));
  }

  lemma SomethingAbove(t: Table, user: Option<UserId>, look: Lookup, s: Scope)
    requires Filter(t, Above(user, look, s)) != []
    ensures ResolveOne(t, user, look) != NoAnswer
  {
    var top := Filter(t, Above(user, look, s))[0];
    assert top in Filter(t, Above(user, look, s));
    FilterMembers(t, Above(user, look, s));
    AnswerIsRight(t, user, look);
    assert AppliesTo(user, look, top);
  }

  /** So two tables that differ below it are recorded alike for that lookup. */
  lemma LowerScopesNotRecorded(t: Table, u: Table, user: Option<UserId>, looks: seq<Lookup>, k: nat, s: Scope)
    requires k < |looks| && Filter(t, Above(user, looks[k], s)) == Filter(u, Above(user, looks[k], s)) != []
    ensures exists a :: a != NoAnswer && Records(ResolveAll(t, user, looks), looks[k], a)
                        && Records(ResolveAll(u, user, looks), looks[k], a)
  {
    LowerScopesIgnored(t, u, user, looks[k], s);
    AnswersConsistent(t, user, looks);
    AnswersConsistent(u, user, looks);
    RecordsAnswer(looks, AnswersTo(t, user, looks), ResolveAll(t, user, looks), k);
    RecordsAnswer(looks, AnswersTo(u, user, looks), ResolveAll(u, user, looks), k);
    SomethingAbove(t, user, looks[k], s);
  }

  // ----- The service -----

  class OperationalContextService {
    const normalize: Normalize
    var entries: Table
    var results: map<Key, Recorded<Request, Response>>

    function State(): Ledger<Table, Request, Response>
      reads this
    {
      Ledger(entries, results)
    }

    constructor (n: Normalize)
      ensures normalize == n && State() == Ledger([], map[])
    {
      normalize := n;
      entries, results := [], map[];
    }

    method CreateIdempotent(key: Key, command: Command, newId: EntryId, now: int)
      returns (reply: Reply<Response, Error>)
      modifies this
      ensures (State(), reply) == Submit(Applied(normalize), old(State()), Call(key, Create(command), Env(newId, now)))
      ensures reply.Fresh? ==>
                && reply.response == Written(Entry(newId, command, normalize(command.key), 1, now, now))
                && reply.response.entry in entries
    {
      if key in results {
        if results[key].request == Create(command) { return Replayed(results[key].response); }
        return KeyConflict;
      }
      if Holds(entries, newId) { return Failed(IdTaken(newId)); }
      var entry := Entry(newId, command, normalize(command.key), 1, now, now);
      entries := entries + [entry];
      results := results[key := Recorded(Create(command), Written(entry))];
      return Fresh(Written(entry));
    }

    method UpdateIdempotent(key: Key, id: EntryId, command: Command, newId: EntryId, now: int)
      returns (reply: Reply<Response, Error>)
      modifies this
      ensures (State(), reply) ==
              Submit(Applied(normalize), old(State()), Call(key, Update(id, command), Env(newId, now)))
      ensures reply.Fresh? ==>
                && reply.response.Written? && reply.response.entry in entries && reply.response.entry.id == id
                && reply.response.entry.command == command && reply.response.entry.updatedAt == now
                && reply.response.entry.normalizedKey == normalize(command.key)
    {
      if key in results {
        if results[key].request == Update(id, command) { return Replayed(results[key].response); }
        return KeyConflict;
      }
      var i := RowOf(entries, id);
      if i == |entries| { return Failed(NotFound(id)); }
      var current := entries[i];
      var entry := current.(command := command, normalizedKey := normalize(command.key),
                            revision := current.revision + 1, updatedAt := now);
      entries := entries[i := entry];
      assert entries[i] == entry;
      results := results[key := Recorded(Update(id, command), Written(entry))];
      return Fresh(Written(entry));
    }

    method DeleteIdempotent(key: Key, id: EntryId, newId: EntryId, now: int) returns (reply: Reply<Response, Error>)
      modifies this
      ensures (State(), reply) == Submit(Applied(normalize), old(State()), Call(key, Delete(id), Env(newId, now)))
    {
      if key in results {
        if results[key].request == Delete(id) { return Replayed(results[key].response); }
        return KeyConflict;
      }
      var i := RowOf(entries, id);
      if i == |entries| { return Failed(NotFound(id)); }
      entries := entries[..i] + entries[i+1..];
      results := results[key := Recorded(Delete(id), Deleted(id))];
      return Fresh(Deleted(id));
    }

    /** Resolves the lookups one after the other. */
    method Resolve(user: Option<UserId>, looks: seq<Lookup>) returns (r: Resolution)
      ensures r == ResolveAll(entries, user, looks)
    {
      var resolved: map<Lookup, string> := map[];
      var applied: seq<AppliedEntry> := [];
      var conflicts: seq<Conflict> := [];
      for n := 0 to |looks|
        invariant Tally(resolved, applied, conflicts) == TallyOf(entries, user, looks[..n])
      {
        var look := looks[n];
        OneMoreLookup(entries, user, looks, n);
        ghost var answer := ResolveOne(entries, user, look);
        var rows := Select(entries, user, look);
        var candidates := Pick(rows);
        assert answer == AnswerOf(look, candidates);
        if candidates == [] {
          assert answer == NoAnswer;
          continue;
        }
        var chosen := candidates[0];
        if exists e | e in candidates :: e.command.value != chosen.command.value {
          var conflict := Conflict(look, chosen.command.scope, EntryIds(candidates));
          assert answer == Conflicting(conflict);
          conflicts := conflicts + [conflict];
          continue;
        }
        assert answer == Value(chosen.command.value, AppliedEntry(chosen.id, chosen.revision));
        resolved := resolved[look := chosen.command.value];
        applied := applied + [AppliedEntry(chosen.id, chosen.revision)];
      }
      assert looks[..|looks|] == looks;
      return Resolution(if conflicts != [] then AmbiguousOutcome else SuccessOutcome, resolved, applied, conflicts);
    }

    /** The first scope with entries, by precedence. */
    method Pick(rows: Table) returns (candidates: Table)
      ensures candidates == Candidates(rows)
    {
      var precedence := [UserScope, FamilyScope, SystemScope];
      candidates := [];
      for n := 0 to |precedence|
        invariant candidates == []
        invariant forall k :: 0 <= k < n ==> OfScope(rows, precedence[k]) == []
      {
        candidates := OfScope(rows, precedence[n]);
        if candidates != [] {
          assert n == 0 || (precedence[0] == UserScope && OfScope(rows, precedence[0]) == []);
          assert n <= 1 || (precedence[1] == FamilyScope && OfScope(rows, precedence[1]) == []);
          return;
        }
      }
      assert precedence[0] == UserScope && precedence[1] == FamilyScope && precedence[2] == SystemScope;
    }
  }
}
