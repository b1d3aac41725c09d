/** Persisted jobs: the table and the operations that move a job from one status to the next. */
module Jobs {
  import opened Wrappers

  type JobId = string
  type Payload = string

  datatype Status = Scheduled | Cancelled | Running | Completed | Failed | Stopped | UnknownOutcome

  /** Times are microseconds on one UTC clock. */
  datatype Job = Job(status: Status, executeAt: int, payload: Payload, createdAt: int, startedAt: Option<int>,
                     finishedAt: Option<int>, delay: Option<nat>, error: Option<string>)

  type Table = map<JobId, Job>

  datatype StoreError = ValueError | KeyError(id: JobId) | IntegrityError(id: JobId)

  const INTERRUPTED := "service restarted while job was RUNNING"

  predicate Settling(s: Status) {
    s.Completed? || s.Failed? || s.Stopped? || s.UnknownOutcome?
  }

  predicate Terminal(s: Status) {
    Settling(s) || s.Cancelled?
  }

  predicate Due(t: Table, id: JobId, now: int) {
    id in t && t[id].status == Scheduled && t[id].executeAt <= now
  }

  // ----- One job -----

  function NewJob(executeAt: int, payload: Payload, now: int): Job {
    Job(Scheduled, executeAt, payload, now, None, None, None, None)
  }

  function Started(j: Job, now: int): Job {
    j.(status := Running, startedAt := Some(now), delay := Some(if j.executeAt <= now then now - j.executeAt else 0),
      error := None)
  }

  function Finished(j: Job, status: Status, error: Option<string>, now: int): Job {
    j.(status := status, finishedAt := Some(now), error := error)
  }

  function CalledOff(j: Job, now: int): Job {
    j.(status := Cancelled, finishedAt := Some(now))
  }

  function Interrupted(j: Job, now: int): Job {
    j.(status := UnknownOutcome, finishedAt := Some(now), error := if j.error.Some? then j.error else Some(INTERRUPTED))
  }

  // ----- The table -----

  function Put(t: Table, id: JobId, j: Job): Table {
    t[id := j]
  }

  function Recovered(t: Table, now: int): Table {
    map id | id in t :: if t[id].status == Running then Interrupted(t[id], now) else t[id]
  }

  function RunningIds(t: Table): set<JobId> {
    set id | id in t && t[id].status == Running
  }

  /** Exactly the running jobs have an unknown outcome now, known since now; an error text stays, or says why. */
  ghost predicate RecoveredFrom(t: Table, u: Table, now: int) {
    && u.Keys == t.Keys
    && forall id :: id in t ==>
         if t[id].status == Running then
           u[id] == Job(UnknownOutcome, t[id].executeAt, t[id].payload, t[id].createdAt, t[id].startedAt, Some(now),
                        t[id].delay,
                        if t[id].error == None then Some("service restarted while job was RUNNING") else t[id].error)
         else u[id] == t[id]
  }

  // ----- The order in which due jobs are listed -----

  /** Alphabetical order. */
  predicate Less(a: string, b: string) {
    b != "" && (a == "" || a[0] < b[0] || (a[0] == b[0] && Less(a[1..], b[1..])))
  }

  lemma {:induction false} LessTotal(a: string, b: string)
    ensures a == b || Less(a, b) || Less(b, a)
  {
    if a != "" && b != "" && a[0] == b[0] {
      LessTotal(a[1..], b[1..]);
      assert a == [a[0]] + a[1..] && b == [b[0]] + b[1..];
    }
  }

  lemma {:induction false} LessOneWay(a: string, b: string)
    ensures !(Less(a, b) && Less(b, a))
  {
    if a != "" && b != "" {
      LessOneWay(a[1..], b[1..]);
    }
  }

  lemma {:induction false} LessTransitive(a: string, b: string, c: string)
    requires Less(a, b) && Less(b, c)
    ensures Less(a, c)
  {
    if a != "" && a[0] == b[0] && b[0] == c[0] {
      LessTransitive(a[1..], b[1..], c[1..]);
    }
  }

  /** Earlier, or as early and alphabetically first. */
  predicate Sooner(t: Table, a: JobId, b: JobId)
    requires a in t && b in t
  {
    t[a].executeAt < t[b].executeAt || (t[a].executeAt == t[b].executeAt && Less(a, b))
  }

  ghost predicate SoonestFirst(t: Table, ids: seq<JobId>) {
    && (forall i :: 0 <= i < |ids| ==> ids[i] in t)
    && (forall i, j :: 0 <= i < j < |ids| ==> Sooner(t, ids[i], ids[j]))
  }

  /** The due jobs, soonest first. */
  ghost predicate IsDueList(t: Table, now: int, ids: seq<JobId>) {
    SoonestFirst(t, ids) && forall id :: id in ids <==> Due(t, id, now)
  }

  lemma SoonerTransitive(t: Table, a: JobId, b: JobId, c: JobId)
    requires a in t && b in t && c in t && Sooner(t, a, b) && Sooner(t, b, c)
    ensures Sooner(t, a, c)
  {
    if t[a].executeAt == t[b].executeAt == t[c].executeAt {
      LessTransitive(a, b, c);
    }
  }

  lemma SoonerOneWay(t: Table, a: JobId, b: JobId)
    requires a in t && b in t
    ensures !(Sooner(t, a, b) && Sooner(t, b, a))
  {
    LessOneWay(a, b);
  }

  /** There is only one such list, and no job is in it twice. */
  lemma {:induction false} DueListUnique(t: Table, a: seq<JobId>, b: seq<JobId>)
    requires SoonestFirst(t, a) && SoonestFirst(t, b) && forall id :: id in a <==> id in b
    ensures a == b
    decreases |a|
  {
    assert (a != [] ==> a[0] in a) && (b != [] ==> b[0] in b);
    if a == [] { return; }
    LastIsLast(t, a, b);
    var x := a[|a|-1];
    var a', b' := a[..|a|-1], b[..|b|-1];
    forall id ensures id in a' <==> id in b' {
      FrontWithoutLast(t, a, id);
      FrontWithoutLast(t, b, id);
    }
    DueListUnique(t, a', b');
    assert a == a' + [x] && b == b' + [x];
  }

  lemma LastIsLast(t: Table, a: seq<JobId>, b: seq<JobId>)
    requires SoonestFirst(t, a) && SoonestFirst(t, b) && a != [] && b != [] && forall id :: id in a <==> id in b
    ensures a[|a|-1] == b[|b|-1]
  {
    var x, y := a[|a|-1], b[|b|-1];
    assert x in b && y in a;
    var i :| 0 <= i < |a| && a[i] == y;
    var j :| 0 <= j < |b| && b[j] == x;
    SoonerOneWay(t, x, y);
  }

  lemma FrontWithoutLast(t: Table, a: seq<JobId>, id: JobId)
    requires SoonestFirst(t, a) && a != []
    ensures id in a[..|a|-1] <==> id in a && id != a[|a|-1]
  {
    var x := a[|a|-1];
    assert a == a[..|a|-1] + [x];
    SoonerOneWay(t, x, x);
  }

  function InsertDue(t: Table, ids: seq<JobId>, id: JobId): (r: seq<JobId>)
    requires id in t && forall i :: 0 <= i < |ids| ==> ids[i] in t
    ensures forall x :: x in r <==> x in ids || x == id
  {
    if ids == [] then [id]
    else
      var front, last := ids[..|ids|-1], ids[|ids|-1];
      assert ids == front + [last];
      if Sooner(t, last, id) then ids + [id] else InsertDue(t, front, id) + [last]
  }

  lemma {:induction false} InsertDueSorted(t: Table, ids: seq<JobId>, id: JobId)
    requires SoonestFirst(t, ids) && id in t && id !in ids
    ensures SoonestFirst(t, InsertDue(t, ids, id))
  {
    if ids == [] { return; }
    var front, last := ids[..|ids|-1], ids[|ids|-1];
    if Sooner(t, last, id) {
      forall x | x in ids ensures Sooner(t, x, id) {
        if x != last { SoonerTransitive(t, x, last, id); }
      }
    } else {
      LessTotal(last, id);
      InsertDueSorted(t, front, id);
      var r := InsertDue(t, front, id);
      forall x | x in r ensures x in t && Sooner(t, x, last) {
        if x != id {
          var i :| 0 <= i < |front| && front[i] == x;
          assert Sooner(t, ids[i], ids[|ids|-1]);
        }
      }
    }
  }

  // ----- The store -----

  class JobStore {
    var jobs: Table

    constructor (saved: Table, now: int)
      ensures jobs == Recovered(saved, now) && RecoveredFrom(saved, jobs, now)
      ensures RunningIds(jobs) == {}
    {
      jobs := Recovered(saved, now);
    }

    method CreateScheduled(id: JobId, executeAt: int, payload: Payload, now: int) returns (r: Result<Job, StoreError>)
      modifies this
      ensures if id in old(jobs) then r == Err(IntegrityError(id)) && jobs == old(jobs)
              else jobs == Put(old(jobs), id, NewJob(executeAt, payload, now)) && r == Ok(jobs[id])
    {
      if id in jobs { return Err(IntegrityError(id)); }
      jobs := jobs[id := Job(Scheduled, executeAt, payload, now, None, None, None, None)];
      return Ok(jobs[id]);
    }

    method ListDue(now: int) returns (due: seq<JobId>)
      ensures IsDueList(jobs, now, due)
    {
      due := [];
      var rest := jobs.Keys;
      while rest != {}
        invariant rest <= jobs.Keys
        invariant SoonestFirst(jobs, due) && forall id :: id in due <==> Due(jobs, id, now) && id !in rest
      {
        var id :| id in rest;
        rest := rest - {id};
        if jobs[id].status == Scheduled && jobs[id].executeAt <= now {
          InsertDueSorted(jobs, due, id);
          due := InsertDue(jobs, due, id);
        }
      }
    }

    /** Takes a due job that is still scheduled; nothing else is claimed. */
    method ClaimDue(id: JobId, now: int) returns (claimed: Option<Job>)
      modifies this
      ensures if Due(old(jobs), id, now)
              then jobs == Put(old(jobs), id, Started(old(jobs)[id], now)) && claimed == Some(jobs[id])
              else jobs == old(jobs) && claimed == None
    {
      if id !in jobs { return None; }
      var record := jobs[id];
      if record.status != Scheduled || record.executeAt > now { return None; }
      jobs := jobs[id := record.(status := Running, startedAt := Some(now), delay := Some(now - record.executeAt),
                                 error := None)];
      return Some(jobs[id]);
    }

    /** Overwrites the status whatever it was. */
    method SetTerminal(id: JobId, status: Status, error: Option<string>, now: int) returns (r: Result<Job, StoreError>)
      modifies this
      ensures !Settling(status) ==> r == Err(ValueError) && jobs == old(jobs)
      ensures Settling(status) && id !in old(jobs) ==> r == Err(KeyError(id)) && jobs == old(jobs)
      ensures Settling(status) && id in old(jobs) ==>
                jobs == Put(old(jobs), id, Finished(old(jobs)[id], status, error, now)) && r == Ok(jobs[id])
    {
      if !(status.Completed? || status.Failed? || status.Stopped? || status.UnknownOutcome?) { return Err(ValueError); }
      if id in jobs {
        jobs := jobs[id := jobs[id].(status := status, finishedAt := Some(now), error := error)];
      }
      if id !in jobs { return Err(KeyError(id)); }
      return Ok(jobs[id]);
    }

    /** Cancels a job that is still scheduled, and reports the job as it is then. */
    method Cancel(id: JobId, now: int) returns (job: Option<Job>)
      modifies this
      ensures jobs == if id in old(jobs) && old(jobs)[id].status == Scheduled
                      then Put(old(jobs), id, CalledOff(old(jobs)[id], now)) else old(jobs)
      ensures job == if id in jobs then Some(jobs[id]) else None
    {
      if id in jobs && jobs[id].status == Scheduled {
        jobs := jobs[id := jobs[id].(status := Cancelled, finishedAt := Some(now))];
      }
      if id !in jobs { return None; }
      return Some(jobs[id]);
    }

    method RecoverInterrupted(now: int) returns (count: nat)
      modifies this
      ensures jobs == Recovered(old(jobs), now) && RecoveredFrom(old(jobs), jobs, now)
      ensures count == |RunningIds(old(jobs))|
      ensures RunningIds(jobs) == {}
    {
      count := |set id | id in jobs && jobs[id].status == Running|;
      jobs := map id | id in jobs :: if jobs[id].status == Running then Interrupted(jobs[id], now) else jobs[id];
    }
  }
}
