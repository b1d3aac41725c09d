/** The life of a job: what happened to it in a run says all there is in its row. And a pass that nothing disturbs comes
    to its end. */
module JobHistory {
  import opened Wrappers
  import opened Jobs
  import opened JobScheduling

  /** What can happen to a job. A claim has the time of its pass. */
  datatype Event =
    | Creation(executeAt: int, payload: Payload, now: int)
    | Cancellation(now: int)
    | Claim(now: int)
    | Answer(reply: CapabilityReply, now: int)
    | Rejection(capability: bool, now: int)
    | Interruption(now: int)

  predicate IsScheduled(s: System, id: JobId) {
    id in s.table && s.table[id].status == Scheduled
  }

  /** The step takes the job as the next one of the pass. */
  predicate Takes(s: System, id: JobId) {
    && s.worker.Pass? && s.worker.current == NoJob && s.worker.todo != [] && s.worker.todo[0] == id
    && IsScheduled(s, id) && s.table[id].executeAt <= s.worker.now
  }

  /** What the step does to the job. */
  function EventOf(setup: Setup, s: System, step: Step, id: JobId): seq<Event> {
    match step
    case Create(x, executeAt, payload, now) =>
      if x == id && id !in s.table then [Creation(executeAt, payload, now)] else []
    case CancelJob(x, now) => if x == id && IsScheduled(s, id) then [Cancellation(now)] else []
    case ClaimNext => if Takes(s, id) then [Claim(s.worker.now)] else []
    case Finish(reply, now) =>
      if s.worker.Pass? && s.worker.current == Calling(id) && id in s.table then [Answer(reply, now)] else []
    case Dispatch(now) =>
      if s.worker.Pass? && s.worker.current == Claimed(id) && id in s.table &&
         !(setup.capability && setup.valid(s.table[id].payload))
      then [Rejection(setup.capability, now)] else []
    case Boot(now) =>
      if s.worker == Down && id in s.table && s.table[id].status == Running then [Interruption(now)] else []
    case Crash => []
    case BeginPass(_, _) => []
    case EndPass => []
  }

  /** All that happened to the job in the run. */
  ghost function History(setup: Setup, steps: seq<Step>, id: JobId): seq<Event> {
    if steps == [] then []
    else
      var front, last := steps[..|steps|-1], steps[|steps|-1];
      History(setup, front, id) + EventOf(setup, Run(setup, INITIAL, front), last, id)
  }

  // ----- What the history makes of a job -----

  predicate WasCreated(h: seq<Event>, j: Job) {
    h != [] && h[0] == Creation(j.executeAt, j.payload, j.createdAt)
  }

  predicate WasClaimed(h: seq<Event>, j: Job) {
    && |h| >= 2 && WasCreated(h, j) && h[1].Claim? && j.executeAt <= h[1].now
    && j.startedAt == Some(h[1].now) && j.delay == Some(h[1].now - j.executeAt)
  }

  predicate ScheduledLife(h: seq<Event>, j: Job) {
    && |h| == 1 && WasCreated(h, j) && j.status == Scheduled
    && j.startedAt == None && j.finishedAt == None && j.delay == None && j.error == None
  }

  predicate CancelledLife(h: seq<Event>, j: Job) {
    && |h| == 2 && WasCreated(h, j) && h[1].Cancellation? && j.status == Cancelled
    && j.startedAt == None && j.finishedAt == Some(h[1].now) && j.delay == None && j.error == None
  }

  predicate RunningLife(h: seq<Event>, j: Job) {
    |h| == 2 && WasClaimed(h, j) && j.status == Running && j.finishedAt == None && j.error == None
  }

  predicate EndedLife(h: seq<Event>, j: Job) {
    && |h| == 3 && WasClaimed(h, j)
    && match h[2]
       case Answer(reply, now) => j.finishedAt == Some(now) && EndsBy(reply, j.status, j.error)
       case Rejection(capability, now) =>
         j.finishedAt == Some(now) && EndsUncalled(capability, j.status, j.error)
       case Interruption(now) =>
         && j.finishedAt == Some(now) && j.status == UnknownOutcome
         && j.error == Some("service restarted while job was RUNNING")
       case _ => false
  }

  /** A job is created, then cancelled, or claimed and then ended by an answer, a rejection or a restart; and its row
      says just that. */
  predicate Life(h: seq<Event>, j: Job) {
    ScheduledLife(h, j) || CancelledLife(h, j) || RunningLife(h, j) || EndedLife(h, j)
  }

  /** One more event, and what it makes of the row. */
  ghost predicate LivesOn(setup: Setup, s: System, step: Step, id: JobId, h: seq<Event>)
    requires id in s.table
  {
    id in Next(setup, s, step).table && Life(h + EventOf(setup, s, step, id), Next(setup, s, step).table[id])
  }

  lemma NothingHappens(setup: Setup, s: System, step: Step, id: JobId, h: seq<Event>)
    requires id in s.table && Life(h, s.table[id]) && EventOf(setup, s, step, id) == []
    requires id in Next(setup, s, step).table && Next(setup, s, step).table[id] == s.table[id]
    ensures LivesOn(setup, s, step, id, h)
  {
    assert h + [] == h;
  }

  lemma CancellingLives(setup: Setup, s: System, x: JobId, now: int, id: JobId, h: seq<Event>)
    requires id in s.table && Life(h, s.table[id])
    ensures LivesOn(setup, s, CancelJob(x, now), id, h)
  {
    if x == id && s.table[id].status == Scheduled {
      assert CancelledLife(h + [Cancellation(now)], Next(setup, s, CancelJob(x, now)).table[id]);
    } else {
      NothingHappens(setup, s, CancelJob(x, now), id, h);
    }
  }

  lemma ClaimingLives(setup: Setup, s: System, id: JobId, h: seq<Event>)
    requires id in s.table && Life(h, s.table[id])
    ensures LivesOn(setup, s, ClaimNext, id, h)
  {
    if Takes(s, id) {
      assert RunningLife(h + [Claim(s.worker.now)], Next(setup, s, ClaimNext).table[id]);
    } else {
      NothingHappens(setup, s, ClaimNext, id, h);
    }
  }

  lemma AnsweringLives(setup: Setup, s: System, reply: CapabilityReply, now: int, id: JobId, h: seq<Event>)
    requires id in s.table && Life(h, s.table[id]) && HeldIsRunning(s)
    ensures LivesOn(setup, s, Finish(reply, now), id, h)
  {
    if s.worker.Pass? && s.worker.current == Calling(id) {
      assert EndedLife(h + [Answer(reply, now)], Next(setup, s, Finish(reply, now)).table[id]);
    } else {
      NothingHappens(setup, s, Finish(reply, now), id, h);
    }
  }

  lemma DispatchingLives(setup: Setup, s: System, now: int, id: JobId, h: seq<Event>)
    requires id in s.table && Life(h, s.table[id]) && HeldIsRunning(s)
    ensures LivesOn(setup, s, Dispatch(now), id, h)
  {
    if s.worker.Pass? && s.worker.current == Claimed(id) && !(setup.capability && setup.valid(s.table[id].payload)) {
      assert EndedLife(h + [Rejection(setup.capability, now)], Next(setup, s, Dispatch(now)).table[id]);
    } else {
      NothingHappens(setup, s, Dispatch(now), id, h);
    }
  }

  lemma BootingLives(setup: Setup, s: System, now: int, id: JobId, h: seq<Event>)
    requires id in s.table && Life(h, s.table[id])
    ensures LivesOn(setup, s, Boot(now), id, h)
  {
    if s.worker == Down && s.table[id].status == Running {
      assert EndedLife(h + [Interruption(now)], Next(setup, s, Boot(now)).table[id]);
    } else {
      NothingHappens(setup, s, Boot(now), id, h);
    }
  }

  lemma StepLives(setup: Setup, s: System, step: Step, id: JobId, h: seq<Event>)
    requires id in s.table && Life(h, s.table[id]) && HeldIsRunning(s)
    ensures LivesOn(setup, s, step, id, h)
  {
    match step
    case CancelJob(x, now) => CancellingLives(setup, s, x, now, id, h);
    case ClaimNext => ClaimingLives(setup, s, id, h);
    case Finish(reply, now) => AnsweringLives(setup, s, reply, now, id, h);
    case Dispatch(now) => DispatchingLives(setup, s, now, id, h);
    case Boot(now) => BootingLives(setup, s, now, id, h);
    case _ => NothingHappens(setup, s, step, id, h);
  }

  /** A step creates a job exactly if it says so and the id is free. */
  lemma StepCreates(setup: Setup, s: System, step: Step, id: JobId)
    requires id !in s.table
    ensures var u, h := Next(setup, s, step).table, EventOf(setup, s, step, id);
            if id in u then ScheduledLife(h, u[id]) else h == []
  {
  }

  /** Over every run, with cancellations, crashes and restarts anywhere: there are rows for just the jobs that were
      created, and each is the outcome of what happened to its job. */
  lemma {:induction false} EveryJobHasItsLife(setup: Setup, steps: seq<Step>, id: JobId)
    ensures var t, h := Run(setup, INITIAL, steps).table, History(setup, steps, id);
            if id in t then Life(h, t[id]) else h == []
  {
    if steps != [] {
      var front, last := steps[..|steps|-1], steps[|steps|-1];
      var s := Run(setup, INITIAL, front);
      EveryJobHasItsLife(setup, front, id);
      RunKeepsInv(setup, INITIAL, front);
      if id in s.table {
        StepLives(setup, s, last, id, History(setup, front, id));
      } else {
        StepCreates(setup, s, last, id);
        assert History(setup, steps, id) == EventOf(setup, s, last, id);
      }
    }
  }

  /** Whoever is called can be, and whoever is answered was called. */
  ghost predicate CallsFit(setup: Setup, s: System) {
    forall c :: c in s.calls ==> c.id in s.table && setup.capability && setup.valid(s.table[c.id].payload)
  }

  lemma {:induction false} OnlyCallableAreCalled(setup: Setup, steps: seq<Step>)
    ensures CallsFit(setup, Run(setup, INITIAL, steps))
  {
    if steps != [] {
      var front, last := steps[..|steps|-1], steps[|steps|-1];
      var s := Run(setup, INITIAL, front);
      OnlyCallableAreCalled(setup, front);
      RunKeepsInv(setup, INITIAL, front);
      StepPersists(setup, s, last);
    }
  }

  // ----- A pass nobody disturbs -----

  /** The step of the pass that comes next. */
  predicate Advances(s: System, step: Step) {
    && s.worker.Pass?
    && match s.worker.current
       case Claimed(_) => step.Dispatch?
       case Calling(_) => step.Finish?
       case NoJob => if s.worker.todo == [] then step == EndPass else step == ClaimNext
  }

  function ToDo(w: Worker): nat {
    match w
    case Pass(_, todo, current) =>
      3 * |todo| + 1 + (match current case NoJob => 0 case Claimed(_) => 2 case Calling(_) => 1)
    case _ => 0
  }

  /** No job of the pass but those still to do and the one in hand is due any more. */
  ghost predicate PassOk(s: System, ids: seq<JobId>, now: int) {
    && s.worker.Pass? && s.worker.now == now && (forall id :: id in s.worker.todo ==> id in ids)
    && forall id :: id in ids && id !in s.worker.todo ==> !(IsScheduled(s, id) && s.table[id].executeAt <= now)
  }

  lemma PassAdvances(setup: Setup, s: System, step: Step, ids: seq<JobId>, now: int)
    requires Inv(s) && PassOk(s, ids, now) && Advances(s, step)
    ensures var q := Next(setup, s, step);
            && Inv(q) && ToDo(q.worker) < ToDo(s.worker)
            && (q.worker == Idle || PassOk(q, ids, now))
            && (q.worker == Idle ==> forall id :: id in ids ==> !(IsScheduled(q, id) && q.table[id].executeAt <= now))
  {
    StepKeepsInv(setup, s, step);
    StepPersists(setup, s, step);
  }

  ghost function After(setup: Setup, s: System, steps: seq<Step>): System
    decreases |steps|
  {
    if steps == [] then s else After(setup, Next(setup, s, steps[0]), steps[1..])
  }

  ghost predicate AllAdvance(setup: Setup, s: System, steps: seq<Step>)
    decreases |steps|
  {
    steps == [] || (Advances(s, steps[0]) && AllAdvance(setup, Next(setup, s, steps[0]), steps[1..]))
  }

  /** A pass that goes on undisturbed takes a bounded number of steps; it can always go on until it is over; and then
      none of its jobs is due any more. */
  lemma {:induction false} PassComesToItsEnd(setup: Setup, s: System, steps: seq<Step>, ids: seq<JobId>, now: int)
    requires Inv(s) && PassOk(s, ids, now) && AllAdvance(setup, s, steps)
    ensures |steps| <= ToDo(s.worker)
    ensures var q := After(setup, s, steps);
            if q.worker == Idle then forall id :: id in ids ==> !(IsScheduled(q, id) && q.table[id].executeAt <= now)
            else exists step :: Advances(q, step)
    decreases |steps|
  {
    if steps != [] {
      PassAdvances(setup, s, steps[0], ids, now);
      var q := Next(setup, s, steps[0]);
      if q.worker == Idle {
        assert steps[1..] == [];
      } else {
        PassComesToItsEnd(setup, q, steps[1..], ids, now);
      }
    } else {
      var step := match s.worker.current
                  case Claimed(_) => Dispatch(0)
                  case Calling(_) => Finish(Raised(""), 0)
                  case NoJob => if s.worker.todo == [] then EndPass else ClaimNext;
      assert Advances(s, step);
    }
  }

  /** So it is with a pass begun in any run: nothing that was due when it began is due at its end. */
  lemma EveryPassComesToItsEnd(setup: Setup, before: seq<Step>, now: int, due: seq<JobId>, steps: seq<Step>)
    requires var s := Run(setup, INITIAL, before); s.worker == Idle && IsDueList(s.table, now, due)
    requires AllAdvance(setup, Next(setup, Run(setup, INITIAL, before), BeginPass(now, due)), steps)
    ensures |steps| <= 3 * |due| + 1
    ensures var q := After(setup, Next(setup, Run(setup, INITIAL, before), BeginPass(now, due)), steps);
            if q.worker == Idle then
              forall id :: id in due ==> !(IsScheduled(q, id) && q.table[id].executeAt <= now)
            else exists step :: Advances(q, step)
  {
    var s := Run(setup, INITIAL, before);
    RunKeepsInv(setup, INITIAL, before);
    StepKeepsInv(setup, s, BeginPass(now, due));
    PassComesToItsEnd(setup, Next(setup, s, BeginPass(now, due)), steps, due, now);
  }
}
