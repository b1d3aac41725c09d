/** Jobs over every run: the scheduler's steps interleaved with new jobs, cancellations, crashes and restarts,
    and the scheduler itself. */
module JobScheduling {
  import opened Wrappers
  import opened Jobs

  /** What the Router capability answers: an exception, or an outcome with the error code if there is one. */
  datatype CapabilityOutcome =
    | SuccessOutcome
    | UnknownOutcomeOutcome
    | OtherOutcome(name: string)

  datatype CapabilityReply = Raised(exception: string) | Answered(outcome: CapabilityOutcome, code: Option<string>)

  /** Whether there is a capability, and which payloads name an action. */
  datatype Setup = Setup(capability: bool, valid: Payload -> bool)

  datatype Verdict = Verdict(status: Status, error: Option<string>)

  predicate Callable(setup: Setup, p: Payload) {
    setup.capability && setup.valid(p)
  }

  /** Why a claimed job fails without reaching the capability. */
  function Refusal(setup: Setup): Verdict {
    Verdict(Failed, Some(if setup.capability then "INVALID_JOB_PAYLOAD" else "ROUTER_CAPABILITY_UNAVAILABLE"))
  }

  function VerdictOf(reply: CapabilityReply): Verdict {
    match reply
    case Raised(exception) => Verdict(Failed, Some("CAPABILITY_EXCEPTION:" + exception))
    case Answered(SuccessOutcome, _) => Verdict(Completed, None)
    case Answered(UnknownOutcomeOutcome, code) =>
      Verdict(UnknownOutcome, Some(if code.Some? then code.value else "UNKNOWN_OUTCOME"))
    case Answered(OtherOutcome(name), code) => Verdict(Failed, Some(if code.Some? then code.value else name))
  }

  /** How the capability's answer ends a job. */
  predicate EndsBy(reply: CapabilityReply, status: Status, error: Option<string>) {
    match reply
    case Raised(exception) => status == Failed && error == Some("CAPABILITY_EXCEPTION:" + exception)
    case Answered(outcome, code) =>
      if outcome == SuccessOutcome then status == Completed && error == None
      else if outcome == UnknownOutcomeOutcome then
        status == UnknownOutcome && error == (if code == None then Some("UNKNOWN_OUTCOME") else code)
      else status == Failed && error == (if code == None then Some(outcome.name) else code)
  }

  /** How a job ends that cannot be handed to the capability. */
  predicate EndsUncalled(capability: bool, status: Status, error: Option<string>) {
    && status == Failed
    && error == Some(if capability then "INVALID_JOB_PAYLOAD" else "ROUTER_CAPABILITY_UNAVAILABLE")
  }

  // ----- The system -----

  datatype Current = NoJob | Claimed(id: JobId) | Calling(id: JobId)

  /** The service's memory, lost in a crash: the pass over the due jobs that is under way. */
  datatype Worker = Down | Idle | Pass(now: int, todo: seq<JobId>, current: Current)

  /** One call to the capability, with the time of the pass that made it. */
  datatype CapabilityCall = CapabilityCall(id: JobId, now: int)

  datatype System = System(table: Table, worker: Worker, calls: seq<CapabilityCall>)

  datatype Step =
    | Create(id: JobId, executeAt: int, payload: Payload, now: int)
    | CancelJob(id: JobId, now: int)
    | Crash
    | Boot(now: int)
    | BeginPass(now: int, due: seq<JobId>)
    | ClaimNext
    | Dispatch(now: int)
    | Finish(reply: CapabilityReply, now: int)
    | EndPass

  function WithTable(s: System, t: Table): System {
    s.(table := t)
  }

  function WithWorker(s: System, w: Worker): System {
    s.(worker := w)
  }

  function Settle(s: System, id: JobId, v: Verdict, now: int): System
    requires id in s.table && s.worker.Pass?
  {
    System(Put(s.table, id, Jobs.Finished(s.table[id], v.status, v.error, now)), s.worker.(current := NoJob), s.calls)
  }

  function CreateStep(s: System, id: JobId, executeAt: int, payload: Payload, now: int): System {
    if id in s.table then s else WithTable(s, Put(s.table, id, NewJob(executeAt, payload, now)))
  }

  function CancelStep(s: System, id: JobId, now: int): System {
    if id in s.table && s.table[id].status == Scheduled then WithTable(s, Put(s.table, id, CalledOff(s.table[id], now)))
    else s
  }

  function BootStep(s: System, now: int): System {
    if s.worker.Down? then System(Recovered(s.table, now), Idle, s.calls) else s
  }

  ghost function BeginStep(s: System, now: int, due: seq<JobId>): System {
    if s.worker.Idle? && IsDueList(s.table, now, due) then WithWorker(s, Pass(now, due, NoJob)) else s
  }

  /** Claims the next job of the pass, or passes over it if it is no longer due. */
  function ClaimStep(s: System): System {
    if !(s.worker.Pass? && s.worker.current.NoJob? && s.worker.todo != []) then s
    else
      var id, rest := s.worker.todo[0], s.worker.todo[1..];
      if !Due(s.table, id, s.worker.now) then WithWorker(s, Pass(s.worker.now, rest, NoJob))
      else System(Put(s.table, id, Started(s.table[id], s.worker.now)), Pass(s.worker.now, rest, Claimed(id)), s.calls)
  }

  /** Calls the capability for the claimed job, or fails the job right away. */
  function DispatchStep(setup: Setup, s: System, now: int): System {
    if !(s.worker.Pass? && s.worker.current.Claimed?) then s
    else
      var id := s.worker.current.id;
      if id !in s.table then s
      else if Callable(setup, s.table[id].payload) then
        System(s.table, s.worker.(current := Calling(id)), s.calls + [CapabilityCall(id, s.worker.now)])
      else Settle(s, id, Refusal(setup), now)
  }

  function FinishStep(s: System, reply: CapabilityReply, now: int): System {
    if s.worker.Pass? && s.worker.current.Calling? && s.worker.current.id in s.table then
      Settle(s, s.worker.current.id, VerdictOf(reply), now)
    else s
  }

  function EndStep(s: System): System {
    if s.worker.Pass? && s.worker.current.NoJob? && s.worker.todo == [] then WithWorker(s, Idle) else s
  }

  ghost function Next(setup: Setup, s: System, step: Step): System {
    match step
    case Create(id, executeAt, payload, now) => CreateStep(s, id, executeAt, payload, now)
    case CancelJob(id, now) => CancelStep(s, id, now)
    case Crash => WithWorker(s, Down)
    case Boot(now) => BootStep(s, now)
    case BeginPass(now, due) => BeginStep(s, now, due)
    case ClaimNext => ClaimStep(s)
    case Dispatch(now) => DispatchStep(setup, s, now)
    case Finish(reply, now) => FinishStep(s, reply, now)
    case EndPass => EndStep(s)
  }

  const INITIAL := System(map[], Down, [])

  ghost function Run(setup: Setup, s: System, steps: seq<Step>): System {
    if steps == [] then s else Next(setup, Run(setup, s, steps[..|steps|-1]), steps[|steps|-1])
  }

  // ----- The invariant -----

  predicate Called(calls: seq<CapabilityCall>, id: JobId) {
    exists i :: 0 <= i < |calls| && calls[i].id == id
  }

  predicate Holds(w: Worker, id: JobId) {
    w.Pass? && (w.current == Claimed(id) || w.current == Calling(id))
  }

  ghost predicate AtMostOnce(calls: seq<CapabilityCall>) {
    forall i, j :: 0 <= i < j < |calls| ==> calls[i].id != calls[j].id
  }

  /** Only known jobs were called, none of them early, and none that is scheduled or cancelled now. */
  ghost predicate CallsJustified(t: Table, calls: seq<CapabilityCall>) {
    forall i :: 0 <= i < |calls| ==>
      && calls[i].id in t && t[calls[i].id].executeAt <= calls[i].now
      && !t[calls[i].id].status.Scheduled? && !t[calls[i].id].status.Cancelled?
  }

  /** While the service is up, a running job is the one the worker holds. */
  ghost predicate RunningIsHeld(t: Table, w: Worker) {
    w.Down? || forall id :: id in t && t[id].status == Running ==> Holds(w, id)
  }

  /** The job the worker holds is running; a claimed one has not been called yet. */
  ghost predicate HeldIsRunning(s: System) {
    s.worker.Pass? && !s.worker.current.NoJob? ==>
      && s.worker.current.id in s.table && s.table[s.worker.current.id].status == Running
      && (s.worker.current.Claimed? ==>
            s.table[s.worker.current.id].executeAt <= s.worker.now && !Called(s.calls, s.worker.current.id))
      && (s.worker.current.Calling? ==> Called(s.calls, s.worker.current.id))
  }

  /** Whoever completed was called. */
  ghost predicate CompletedWasCalled(s: System) {
    forall id :: id in s.table && s.table[id].status == Completed ==> Called(s.calls, id)
  }

  ghost predicate Inv(s: System) {
    && AtMostOnce(s.calls) && CallsJustified(s.table, s.calls)
    && RunningIsHeld(s.table, s.worker) && HeldIsRunning(s) && CompletedWasCalled(s)
  }

  lemma CalledMore(calls: seq<CapabilityCall>, c: CapabilityCall, id: JobId)
    ensures Called(calls + [c], id) <==> Called(calls, id) || id == c.id
  {
    if Called(calls, id) {
      var i :| 0 <= i < |calls| && calls[i].id == id;
      assert (calls + [c])[i].id == id;
    }
    assert (calls + [c])[|calls|] == c;
  }

  lemma CreateKeepsInv(s: System, id: JobId, executeAt: int, payload: Payload, now: int)
    requires Inv(s)
    ensures Inv(CreateStep(s, id, executeAt, payload, now))
  {
  }

  lemma CancelKeepsInv(s: System, id: JobId, now: int)
    requires Inv(s)
    ensures Inv(CancelStep(s, id, now))
  {
    if id in s.table && s.table[id].status == Scheduled {
      assert !Called(s.calls, id);
    }
  }

  lemma BootKeepsInv(s: System, now: int)
    requires Inv(s)
    ensures Inv(BootStep(s, now))
  {
  }

  lemma ClaimKeepsInv(s: System)
    requires Inv(s)
    ensures Inv(ClaimStep(s))
  {
    if s.worker.Pass? && s.worker.current.NoJob? && s.worker.todo != []
       && Due(s.table, s.worker.todo[0], s.worker.now)
    {
      assert !Called(s.calls, s.worker.todo[0]);
    }
  }

  lemma SettleKeepsInv(s: System, v: Verdict, now: int)
    requires Inv(s) && s.worker.Pass? && !s.worker.current.NoJob? && Settling(v.status)
    requires v.status.Completed? ==> s.worker.current.Calling?
    ensures Inv(Settle(s, s.worker.current.id, v, now))
  {
  }

  lemma DispatchKeepsInv(setup: Setup, s: System, now: int)
    requires Inv(s)
    ensures Inv(DispatchStep(setup, s, now))
  {
    if s.worker.Pass? && s.worker.current.Claimed? {
      var id := s.worker.current.id;
      if Callable(setup, s.table[id].payload) {
        var call := CapabilityCall(id, s.worker.now);
        forall x ensures Called(s.calls + [call], x) <==> Called(s.calls, x) || x == id {
          CalledMore(s.calls, call, x);
        }
        assert forall i :: 0 <= i < |s.calls| ==> s.calls[i].id != id;
      } else {
        SettleKeepsInv(s, Refusal(setup), now);
      }
    }
  }

  lemma FinishKeepsInv(s: System, reply: CapabilityReply, now: int)
    requires Inv(s)
    ensures Inv(FinishStep(s, reply, now))
  {
    if s.worker.Pass? && s.worker.current.Calling? {
      SettleKeepsInv(s, VerdictOf(reply), now);
    }
  }

  lemma StepKeepsInv(setup: Setup, s: System, step: Step)
    requires Inv(s)
    ensures Inv(Next(setup, s, step))
  {
    match step
    case Create(id, executeAt, payload, now) => CreateKeepsInv(s, id, executeAt, payload, now);
    case CancelJob(id, now) => CancelKeepsInv(s, id, now);
    case Crash =>
    case Boot(now) => BootKeepsInv(s, now);
    case BeginPass(now, due) =>
    case ClaimNext => ClaimKeepsInv(s);
    case Dispatch(now) => DispatchKeepsInv(setup, s, now);
    case Finish(reply, now) => FinishKeepsInv(s, reply, now);
    case EndPass =>
  }

  lemma {:induction false} RunKeepsInv(setup: Setup, s: System, steps: seq<Step>)
    requires Inv(s)
    ensures Inv(Run(setup, s, steps))
  {
    if steps != [] {
      RunKeepsInv(setup, s, steps[..|steps|-1]);
      StepKeepsInv(setup, Run(setup, s, steps[..|steps|-1]), steps[|steps|-1]);
    }
  }

  // ----- What holds over every run -----

  /** In every run each job reaches the capability at most once, never early, and not once it is cancelled. After a
      boot, and whenever no pass is under way, no job is running and every job that was called is settled. */
  lemma EveryRunIsSafe(setup: Setup, steps: seq<Step>)
    ensures var s := Run(setup, INITIAL, steps);
            && AtMostOnce(s.calls)
            && (forall c :: c in s.calls ==> c.id in s.table && s.table[c.id].executeAt <= c.now)
            && (forall id :: id in s.table && s.table[id].status == Cancelled ==> !Called(s.calls, id))
            && (forall id :: id in s.table && s.table[id].status == Completed ==> Called(s.calls, id))
            && (s.worker.Idle? ==>
                  RunningIds(s.table) == {} && forall c :: c in s.calls ==> Terminal(s.table[c.id].status))
  {
    RunKeepsInv(setup, INITIAL, steps);
  }

  /** A job stays, with its time and payload, and once it is in a terminal state nothing about it changes. */
  ghost predicate Persists(t: Table, u: Table) {
    forall id :: id in t ==>
      && id in u && u[id].executeAt == t[id].executeAt && u[id].payload == t[id].payload
      && (Terminal(t[id].status) ==> u[id] == t[id])
  }

  lemma StepPersists(setup: Setup, s: System, step: Step)
    requires Inv(s)
    ensures Persists(s.table, Next(setup, s, step).table)
  {
    match step
    case ClaimNext => ClaimPersists(setup, s);
    case Finish(reply, now) => FinishPersists(setup, s, reply, now);
    case _ => OtherStepsPersist(setup, s, step);
  }

  lemma ClaimPersists(setup: Setup, s: System)
    requires Inv(s)
    ensures Persists(s.table, Next(setup, s, ClaimNext).table)
  {
  }

  lemma FinishPersists(setup: Setup, s: System, reply: CapabilityReply, now: int)
    requires Inv(s)
    ensures Persists(s.table, Next(setup, s, Finish(reply, now)).table)
  {
  }

  lemma OtherStepsPersist(setup: Setup, s: System, step: Step)
    requires Inv(s) && !step.ClaimNext? && !step.Finish?
    ensures Persists(s.table, Next(setup, s, step).table)
  {
    match step
    case Create(id, executeAt, payload, now) =>
    case CancelJob(id, now) =>
    case Crash =>
    case Boot(now) =>
    case BeginPass(now, due) =>
    case Dispatch(now) =>
    case EndPass =>
  }

  /** From any reachable state on, terminal states are final, through crashes and restarts. */
  lemma {:induction false} TerminalIsFinal(setup: Setup, s: System, steps: seq<Step>)
    requires Inv(s)
    ensures Persists(s.table, Run(setup, s, steps).table)
  {
    if steps != [] {
      var before := Run(setup, s, steps[..|steps|-1]);
      TerminalIsFinal(setup, s, steps[..|steps|-1]);
      RunKeepsInv(setup, s, steps[..|steps|-1]);
      StepPersists(setup, before, steps[|steps|-1]);
    }
  }

  /** Once a job is in a terminal state, no call is made for it any more. */
  lemma {:induction false} TerminalIsNeverCalled(setup: Setup, s: System, steps: seq<Step>, id: JobId)
    requires Inv(s) && id in s.table && Terminal(s.table[id].status)
    ensures s.calls <= Run(setup, s, steps).calls
    ensures forall i :: |s.calls| <= i < |Run(setup, s, steps).calls| ==> Run(setup, s, steps).calls[i].id != id
  {
    if steps != [] {
      var front := steps[..|steps|-1];
      TerminalIsNeverCalled(setup, s, front, id);
      TerminalIsFinal(setup, s, front);
      RunKeepsInv(setup, s, front);
    }
  }

  // ----- The scheduler -----

  function CallFor(setup: Setup, id: JobId, p: Payload): seq<JobId> {
    if Callable(setup, p) then [id] else []
  }

  /** The jobs among these that reach the capability, in the same order. */
  function CallableOf(setup: Setup, t: Table, ids: seq<JobId>): seq<JobId>
    requires forall id :: id in ids ==> id in t
  {
    if ids == [] then []
    else
      var front, last := ids[..|ids|-1], ids[|ids|-1];
      CallableOf(setup, t, front) + CallFor(setup, last, t[last].payload)
  }

  lemma CallableOneMore(calls: seq<JobId>, setup: Setup, t: Table, ids: seq<JobId>, k: nat)
    requires k < |ids| && forall id :: id in ids ==> id in t
    ensures calls + CallableOf(setup, t, ids[..k+1]) ==
            calls + CallableOf(setup, t, ids[..k]) + CallFor(setup, ids[k], t[ids[k]].payload)
  {
    assert ids[..k+1][..k] == ids[..k];
  }

  lemma SoonestFirstHasNoRepeats(t: Table, ids: seq<JobId>, k: nat)
    requires SoonestFirst(t, ids) && k < |ids|
    ensures ids[k] !in ids[..k]
  {
    SoonerOneWay(t, ids[k], ids[k]);
  }

  /** What ends the jobs of one pass: the setup, the capability's answer for each job, and when each is done. */
  datatype Answers = Answers(setup: Setup, reply: JobId -> CapabilityReply, clock: JobId -> int)

  /** How a claimed job ends. */
  function Ending(setup: Setup, reply: JobId -> CapabilityReply, id: JobId, p: Payload): Verdict {
    if Callable(setup, p) then VerdictOf(reply(id)) else Refusal(setup)
  }

  function Executed(j: Job, v: Verdict, finishedAt: int): Job {
    Jobs.Finished(j, v.status, v.error, finishedAt)
  }

  function Ended(j: Job, id: JobId, now: int, a: Answers): Job {
    Executed(Started(j, now), Ending(a.setup, a.reply, id, j.payload), a.clock(id))
  }

  /** The jobs in `done` went from their state in t to their end; the others are as they were. */
  ghost predicate PassDid(t: Table, u: Table, done: seq<JobId>, now: int, a: Answers) {
    u.Keys == t.Keys && forall id :: id in t ==> u[id] == (if id in done then Ended(t[id], id, now, a) else t[id])
  }

  lemma NextIsDue(t: Table, u: Table, due: seq<JobId>, k: nat, now: int, a: Answers)
    requires IsDueList(t, now, due) && k < |due| && PassDid(t, u, due[..k], now, a)
    ensures due[k] !in due[..k] && Due(u, due[k], now) && u[due[k]] == t[due[k]]
    ensures due[..k+1] == due[..k] + [due[k]]
  {
    SoonestFirstHasNoRepeats(t, due, k);
    assert due[k] in due;
  }

  lemma PassDidOneMore(t: Table, u: Table, done: seq<JobId>, id: JobId, now: int, a: Answers)
    requires PassDid(t, u, done, now, a) && id in t && id !in done
    ensures PassDid(t, Put(u, id, Ended(u[id], id, now, a)), done + [id], now, a)
  {
  }

  /** The records of these jobs, in the same order. */
  ghost predicate Reports(results: seq<Job>, t: Table, ids: seq<JobId>) {
    |results| == |ids| && forall k :: 0 <= k < |ids| ==> ids[k] in t && results[k] == t[ids[k]]
  }

  lemma ReportsOneMore(results: seq<Job>, t: Table, ids: seq<JobId>, id: JobId, j: Job)
    requires Reports(results, t, ids) && id !in ids
    ensures Reports(results + [j], Put(t, id, j), ids + [id])
  {
    assert forall k :: 0 <= k < |ids| ==> ids[k] != id;
  }

  /** Each of these jobs was started by the pass, is finished, and ended by its answer, or uncalled. */
  ghost predicate PassMeans(t: Table, u: Table, done: seq<JobId>, now: int, a: Answers) {
    forall id :: id in done ==>
      && id in t && id in u && u[id].startedAt == Some(now) && u[id].finishedAt == Some(a.clock(id))
      && (t[id].executeAt <= now ==> u[id].delay == Some(now - t[id].executeAt))
      && if a.setup.capability && a.setup.valid(t[id].payload) then EndsBy(a.reply(id), u[id].status, u[id].error)
         else EndsUncalled(a.setup.capability, u[id].status, u[id].error)
  }

  lemma PassDidMeans(t: Table, u: Table, done: seq<JobId>, now: int, a: Answers)
    requires PassDid(t, u, done, now, a) && forall id :: id in done ==> id in t
    ensures PassMeans(t, u, done, now, a)
  {
  }

  class JobScheduler {
    const store: JobStore
    const setup: Setup
    /** The capability's answer for each job. */
    const reply: JobId -> CapabilityReply
    ghost var calls: seq<JobId>

    constructor (s: JobStore, u: Setup, r: JobId -> CapabilityReply)
      ensures store == s && setup == u && reply == r && calls == []
    {
      store, setup, reply, calls := s, u, r, [];
    }

    method ExecuteClaimed(id: JobId, job: Job, finishedAt: int) returns (record: Job)
      requires id in store.jobs && store.jobs[id] == job
      modifies store, this`calls
      ensures store.jobs == Put(old(store.jobs), id, Executed(job, Ending(setup, reply, id, job.payload), finishedAt))
      ensures record == store.jobs[id] && record.finishedAt == Some(finishedAt)
      ensures calls == old(calls) + if setup.capability && setup.valid(job.payload) then [id] else []
      ensures if setup.capability && setup.valid(job.payload) then EndsBy(reply(id), record.status, record.error)
              else EndsUncalled(setup.capability, record.status, record.error)
    {
      var r;
      if !setup.capability {
        r := store.SetTerminal(id, Failed, Some("ROUTER_CAPABILITY_UNAVAILABLE"), finishedAt);
        return r.value;
      }
      if !setup.valid(job.payload) {
        r := store.SetTerminal(id, Failed, Some("INVALID_JOB_PAYLOAD"), finishedAt);
        return r.value;
      }
      calls := calls + [id];
      var response := reply(id);
      if response.Raised? {
        r := store.SetTerminal(id, Failed, Some("CAPABILITY_EXCEPTION:" + response.exception), finishedAt);
        return r.value;
      }
      if response.outcome.SuccessOutcome? {
        r := store.SetTerminal(id, Completed, None, finishedAt);
        return r.value;
      }
      if response.outcome.UnknownOutcomeOutcome? {
        var error := if response.code.Some? then response.code.value else "UNKNOWN_OUTCOME";
        r := store.SetTerminal(id, UnknownOutcome, Some(error), finishedAt);
        return r.value;
      }
      var error := if response.code.Some? then response.code.value else response.outcome.name;
      r := store.SetTerminal(id, Failed, Some(error), finishedAt);
      return r.value;
    }

    /** Claims and executes one job, unless it is no longer due. */
    method RunOne(id: JobId, now: int, ghost clock: JobId -> int, finishedAt: int) returns (record: Option<Job>)
      requires finishedAt == clock(id)
      modifies store, this`calls
      ensures if Due(old(store.jobs), id, now)
              then record == Some(Ended(old(store.jobs)[id], id, now, Answers(setup, reply, clock)))
                   && store.jobs == Put(old(store.jobs), id, record.value)
                   && calls == old(calls) + CallFor(setup, id, old(store.jobs)[id].payload)
              else record == None && store.jobs == old(store.jobs) && calls == old(calls)
    {
      var claimed := store.ClaimDue(id, now);
      if claimed == None { return None; }
      var executed := ExecuteClaimed(id, claimed.value, finishedAt);
      return Some(executed);
    }

    /** One undisturbed pass: exactly the due jobs end, soonest first, each with its own verdict. */
    method RunDue(now: int, clock: JobId -> int) returns (results: seq<Job>, ghost due: seq<JobId>)
      modifies store, this`calls
      ensures IsDueList(old(store.jobs), now, due)
      ensures PassDid(old(store.jobs), store.jobs, due, now, Answers(setup, reply, clock))
      ensures PassMeans(old(store.jobs), store.jobs, due, now, Answers(setup, reply, clock))
      ensures Reports(results, store.jobs, due)
      ensures calls == old(calls) + CallableOf(setup, old(store.jobs), due)
    {
      ghost var was := store.jobs;
      ghost var answers := Answers(setup, reply, clock);
      results := [];
      var pending := store.ListDue(now);
      due := pending;
      for k := 0 to |pending|
        invariant PassDid(was, store.jobs, pending[..k], now, answers)
        invariant Reports(results, store.jobs, pending[..k])
        invariant calls == old(calls) + CallableOf(setup, was, pending[..k])
      {
        var id := pending[k];
        ghost var before := store.jobs;
        NextIsDue(was, before, pending, k, now, answers);
        CallableOneMore(old(calls), setup, was, pending, k);
        var record := RunOne(id, now, clock, clock(id));
        PassDidOneMore(was, before, pending[..k], id, now, answers);
        ReportsOneMore(results, before, pending[..k], id, record.value);
        results := results + [record.value];
      }
      assert pending[..|pending|] == pending;
      PassDidMeans(was, store.jobs, due, now, answers);
    }
  }
}
