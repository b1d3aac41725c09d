/** The executor: it re-checks a plan, runs its steps in rounds, then creates its automations. */
module PlanExecutor {
  import opened Wrappers
  import opened DependencyGraph
  import opened PlanExecution
  import opened PlanMeaning

  // ----- What the calls made so far must look like -----

  ghost predicate NoCallTwice(calls: seq<Call>) {
    forall i, j :: 0 <= i < j < |calls| ==> calls[i] != calls[j]
  }

  /** Every call belongs to a step of the plan whose dependencies all completed, through calls made earlier; a step
      without a target is executed only after the search for one. */
  ghost predicate AfterDependencies(steps: map<StepId, Step>, w: World, calls: seq<Call>) {
    forall i :: 0 <= i < |calls| ==>
      && calls[i].id in steps
      && (calls[i].Execute? && steps[calls[i].id].resolved.None? ==> Resolve(calls[i].id) in calls[..i])
      && forall d :: d in steps[calls[i].id].dependsOn ==>
           IsCompleted(OutcomeOf(steps, w, d)) && Execute(d) in calls[..i]
  }

  /** The settled steps are recorded with their outcomes, and exactly the steps that had to reach
      the capability did. */
  ghost predicate Recorded(steps: map<StepId, Step>, w: World, results: map<StepId, StepStatus>, calls: seq<Call>) {
    && (forall id :: id in results ==> id in steps && OutcomeOf(steps, w, id) == Settled(results[id]))
    && (forall id :: id in results ==>
          (Execute(id) in calls <==> ReachesCapability(w, steps[id], DependenciesCompleted(steps, w, id))))
    && (forall id :: id in results ==>
          (Resolve(id) in calls <==> AsksForTarget(w, steps[id], DependenciesCompleted(steps, w, id))))
    && (forall c :: c in calls ==> c.id in results)
  }

  lemma OneMoreCall(steps: map<StepId, Step>, w: World, calls: seq<Call>, c: Call)
    requires NoCallTwice(calls) && AfterDependencies(steps, w, calls) && c !in calls && c.id in steps
    requires forall d :: d in steps[c.id].dependsOn ==> IsCompleted(OutcomeOf(steps, w, d)) && Execute(d) in calls
    requires c.Execute? && steps[c.id].resolved.None? ==> Resolve(c.id) in calls
    ensures NoCallTwice(calls + [c]) && AfterDependencies(steps, w, calls + [c])
  {
    var more := calls + [c];
    forall i | 0 <= i < |more|
      ensures more[i].id in steps
      ensures more[i].Execute? && steps[more[i].id].resolved.None? ==> Resolve(more[i].id) in more[..i]
      ensures forall d :: d in steps[more[i].id].dependsOn ==>
              IsCompleted(OutcomeOf(steps, w, d)) && Execute(d) in more[..i]
    {
      assert more[..i] == calls[..i];
    }
  }

  lemma CompletedReachedCapability(w: World, s: Step, ready: bool)
    ensures IsCompleted(RunAlone(w, s, ready)) ==> ReachesCapability(w, s, ready)
  {
  }

  /** The calls one step can make. */
  predicate StepCalls(s: Step, calls: seq<Call>) {
    || calls == []
    || (if s.resolved.Some? then calls == [Execute(s.id)]
        else calls == [Resolve(s.id)] || calls == [Resolve(s.id), Execute(s.id)])
  }

  function IdSet(steps: seq<Step>): set<StepId> {
    set s | s in steps :: s.id
  }

  lemma IdSetGrows(steps: seq<Step>, i: nat)
    requires i < |steps|
    ensures IdSet(steps[..i+1]) == IdSet(steps[..i]) + {steps[i].id}
  {
    assert steps[..i+1] == steps[..i] + [steps[i]];
    assert forall s :: s in steps[..i+1] <==> s in steps[..i] || s == steps[i];
  }

  /** No call is made for a step before every step it depends on, directly or not, has completed. */
  lemma {:induction false} CallsFollowTransitiveDependencies(steps: map<StepId, Step>, w: World, calls: seq<Call>,
                                                             i: nat, p: seq<StepId>)
    requires AfterDependencies(steps, w, calls) && i < |calls|
    requires IsChain(GraphOf(steps), p) && |p| >= 2 && p[0] == calls[i].id
    ensures IsCompleted(OutcomeOf(steps, w, p[|p|-1])) && Execute(p[|p|-1]) in calls[..i]
  {
    assert p[1] in steps[p[0]].dependsOn;
    var j :| 0 <= j < i && calls[j] == Execute(p[1]);
    if |p| > 2 { CallsFollowTransitiveDependencies(steps, w, calls, j, p[1..]); }
  }

  function Ready(steps: seq<Step>, pending: set<StepId>, results: map<StepId, StepStatus>): (ready: seq<Step>)
    ensures forall s :: s in ready <==> s in steps && s.id in pending && forall d :: d in s.dependsOn ==> d in results
    ensures UniqueIds(steps) ==> UniqueIds(ready)
  {
    if steps == [] then []
    else
      var rest := Ready(steps[1..], pending, results);
      var s := steps[0];
      assert forall t :: t in steps <==> t == s || t in steps[1..];
      if s.id in pending && forall d | d in s.dependsOn :: d in results then
        assert UniqueIds(steps) ==> UniqueIds(steps[1..]) && forall t :: t in steps[1..] ==> t.id != s.id;
        [s] + rest
      else rest
  }

  ghost predicate SomeStepRaises(steps: map<StepId, Step>, w: World) {
    exists id :: id in steps && OutcomeOf(steps, w, id) == Raised
  }

  ghost predicate SomeCreateRaises(w: World, behaviors: seq<string>) {
    exists b :: b in behaviors && w.create(b).CallRaises?
  }

  ghost predicate AllSucceed(steps: map<StepId, Step>, w: World, behaviors: seq<string>) {
    && EveryStepCompletes(steps, w)
    && (forall b :: b in behaviors ==> w.create(b).Answer? && w.create(b).success)
  }

  ghost predicate EveryStepCompletes(steps: map<StepId, Step>, w: World) {
    forall id :: id in steps ==> IsCompleted(OutcomeOf(steps, w, id))
  }

  predicate AllCompleted(report: seq<StepResult>) {
    forall k | 0 <= k < |report| :: report[k].status.Completed?
  }

  /** The capability is asked to execute exactly the steps whose dependencies completed, whose conditions hold
      and whose target is known, and to resolve exactly those that have no target of their own. */
  ghost predicate CallsExactlyWhereDue(steps: map<StepId, Step>, w: World, calls: seq<Call>) {
    && (forall id :: id in steps ==>
          (Execute(id) in calls <==> ReachesCapability(w, steps[id], DependenciesCompleted(steps, w, id))))
    && (forall id :: id in steps ==>
          (Resolve(id) in calls <==> AsksForTarget(w, steps[id], DependenciesCompleted(steps, w, id))))
  }

  /** n is the length of the longest chain of dependencies. */
  ghost predicate LongestChain(g: Graph, n: nat) {
    && (forall p :: IsChain(g, p) ==> |p| <= n)
    && (exists p :: IsChain(g, p) && |p| == n)
  }

  /** The settled steps in the plan's own order. */
  function Ordered(steps: seq<Step>, results: map<StepId, StepStatus>): (ordered: seq<StepResult>)
    requires forall n :: n in StepIds(steps) ==> n in results
    ensures |ordered| == |steps|
  {
    seq(|steps|, k requires 0 <= k < |steps| =>
      assert StepIds(steps)[k] in results; StepResult(steps[k].id, results[steps[k].id]))
  }

  /** Everything known about a run after some rounds without an exception. */
  ghost predicate WellRun(steps: map<StepId, Step>, w: World, results: map<StepId, StepStatus>, calls: seq<Call>) {
    Recorded(steps, w, results, calls) && NoCallTwice(calls) && AfterDependencies(steps, w, calls)
  }

  /** The steps settled are those with dependency chains of at most so many steps. */
  ghost predicate AfterRounds(steps: map<StepId, Step>, w: World, results: map<StepId, StepStatus>, calls: seq<Call>,
      rounds: nat)
  {
    results.Keys == Done(GraphOf(steps), rounds) && WellRun(steps, w, results, calls)
  }

  /** In addition, there is a chain as long as the rounds were many. */
  ghost predicate RoundsRun(steps: map<StepId, Step>, w: World, results: map<StepId, StepStatus>, calls: seq<Call>,
      longest: seq<StepId>, rounds: nat)
  {
    AfterRounds(steps, w, results, calls, rounds) && IsChain(GraphOf(steps), longest) && |longest| == rounds
  }

  lemma NoRoundsYet(steps: map<StepId, Step>, w: World)
    ensures RoundsRun(steps, w, map[], [], [], 0)
  {
  }

  lemma EverythingRun(steps: map<StepId, Step>, w: World, results: map<StepId, StepStatus>, calls: seq<Call>,
      longest: seq<StepId>, rounds: nat)
    requires RoundsRun(steps, w, results, calls, longest, rounds) && steps.Keys - results.Keys == {}
    ensures NoCallTwice(calls) && AfterDependencies(steps, w, calls) && WellRun(steps, w, results, calls)
    ensures results.Keys == steps.Keys == Done(GraphOf(steps), rounds)
    ensures IsChain(GraphOf(steps), longest) && |longest| == rounds
  {
    forall id | id in steps.Keys ensures id in results.Keys { assert id !in steps.Keys - results.Keys; }
  }

  /** A graph that passed the executor's check, with a topological order of it. */
  ghost predicate AcceptedGraph(g: Graph, order: seq<StepId>) {
    Closed(g) && Acyclic(g) && Topological(g, order) && forall n :: n in g ==> n in order
  }

  /** The step is not settled yet, but all its dependencies are. */
  predicate Pending(steps: map<StepId, Step>, results: map<StepId, StepStatus>, s: Step) {
    s.id in steps && steps[s.id] == s && s.id !in results && forall d :: d in s.dependsOn ==> d in results
  }

  /** A finished run: the evaluator's outcomes in list order, COMPLETED exactly if everything succeeded, every call
      made exactly where one was due, all automations asked for, in as many rounds as the longest chain is long. */
  ghost predicate WellFinished(plan: Plan, w: World, r: Execution, calls: seq<Call>, created: seq<string>, rounds: nat)
    requires r.Finished? && UniqueIds(plan.steps)
  {
    && r.planId == plan.planId && created == plan.behaviors
    && Reported(plan.steps, w, r.steps)
    && (r.completed <==> AllSucceed(ById(plan.steps), w, plan.behaviors))
    && CallsExactlyWhereDue(ById(plan.steps), w, calls)
    && LongestChain(GraphOf(ById(plan.steps)), rounds)
  }

  class ExecutionPlanExecutor {
    const world: World

    constructor (w: World)
      ensures world == w
    {
      world := w;
    }

    /** The executor's own check of a plan; `order` witnesses that an accepted plan can be run. */
    static method Validate(plan: Plan) returns (problem: Option<PlanError>, ghost order: seq<StepId>)
      ensures problem == Problem(plan)
      ensures problem.None? ==>
                AcceptedGraph(GraphOf(ById(plan.steps)), order)
    {
      order := [];
      if !plan.validated { return Some(NotValidated), []; }
      if !UniqueIds(plan.steps) { return Some(DuplicateStep), []; }
      var graph := GraphOf(ById(plan.steps));
      if exists n | n in graph :: !(graph[n] <= graph.Keys) || n in graph[n] {
        return Some(InvalidDependency), [];
      }
      TableListsIds(plan.steps);
      var search := new DependencyCheck(graph);
      var ok := search.VisitAll(StepIds(plan.steps));
      if !ok { return Some(CyclicPlan), []; }
      return None, search.order;
    }

    /** One step, once it is known whether all its dependencies completed. */
    method RunStep(s: Step, dependenciesCompleted: bool) returns (outcome: Outcome, ghost calls: seq<Call>)
      ensures outcome == RunAlone(world, s, dependenciesCompleted)
      ensures Execute(s.id) in calls <==> ReachesCapability(world, s, dependenciesCompleted)
      ensures Resolve(s.id) in calls <==> AsksForTarget(world, s, dependenciesCompleted)
      ensures StepCalls(s, calls)
      ensures calls != [] ==> dependenciesCompleted
    {
      calls := [];
      if !dependenciesCompleted { return Settled(SkippedDependency), []; }
      var i := 0;
      while i < |s.conditions|
        invariant 0 <= i <= |s.conditions|
        invariant Conditions(world, s.conditions) == Conditions(world, s.conditions[i..])
      {
        match world.condition(s.conditions[i])
        case Holds => i := i + 1;
        case Fails => return Settled(SkippedCondition), [];
        case ConditionRaises => return Raised, [];
      }
      var resource: Resource;
      match s.resolved {
        case Some(r) => resource := r;
        case None =>
          calls := [Resolve(s.id)];
          match world.resolve(s)
          case ResolveRaises => return Raised, calls;
          case Candidates(status, candidates) =>
            if status != "RESOLVED" || |candidates| != 1 {
              return Settled(Failed("RESOLVE_" + status)), calls;
            }
            resource := candidates[0];
      }
      calls := calls + [Execute(s.id)];
      match world.execute(s, resource)
      case CallRaises => return Raised, calls;
      case Answer(success, answered, error, result) =>
        if success { return Settled(Completed(result)), calls; }
        return Settled(Failed(if error.Some? then error.value else answered)), calls;
    }

    /** Settles one step whose dependencies are settled. */
    method SettleStep(steps: map<StepId, Step>, s: Step, before: map<StepId, StepStatus>, ghost callsBefore: seq<Call>)
      returns (ok: bool, results: map<StepId, StepStatus>, ghost calls: seq<Call>)
      requires var g := GraphOf(steps); Closed(g) && Acyclic(g)
      requires Pending(steps, before, s) && WellRun(steps, world, before, callsBefore)
      ensures NoCallTwice(calls) && AfterDependencies(steps, world, calls)
      ensures ok ==> WellRun(steps, world, results, calls) && results.Keys == before.Keys + {s.id}
      ensures !ok ==> SomeStepRaises(steps, world)
    {
      var completed := forall d | d in s.dependsOn :: before[d].Completed?;
      OutcomeEquation(steps, world, s.id);
      var outcome;
      ghost var made;
      outcome, made := RunStep(s, completed);
      calls := callsBefore + made;
      CallsStayOrdered(steps, world, before, callsBefore, s, made);
      if outcome.Raised? { return false, before, calls; }
      StepRecorded(steps, world, before, callsBefore, s, made, outcome.status);
      return true, before[s.id := outcome.status], calls;
    }

    /** Runs the ready steps of one round, in order. Stops at the first that raises. */
    method RunRound(steps: map<StepId, Step>, ready: seq<Step>, before: map<StepId, StepStatus>,
        ghost callsBefore: seq<Call>)
      returns (ok: bool, results: map<StepId, StepStatus>, ghost calls: seq<Call>)
      requires var g := GraphOf(steps); Closed(g) && Acyclic(g)
      requires UniqueIds(ready) && forall s :: s in ready ==> Pending(steps, before, s)
      requires WellRun(steps, world, before, callsBefore)
      ensures NoCallTwice(calls) && AfterDependencies(steps, world, calls)
      ensures ok ==> WellRun(steps, world, results, calls)
      ensures ok ==> results.Keys == before.Keys + IdSet(ready)
      ensures !ok ==> SomeStepRaises(steps, world)
    {
      ok, results, calls := true, before, callsBefore;
      for i := 0 to |ready|
        invariant WellRun(steps, world, results, calls)
        invariant results.Keys == before.Keys + IdSet(ready[..i])
      {
        NotYetSettled(steps, before, results, ready, i);
        ok, results, calls := SettleStep(steps, ready[i], results, calls);
        if !ok { return; }
        IdSetGrows(ready, i);
      }
      assert ready[..|ready|] == ready;
    }

    /** One pass over the plan: every step that can run now does. */
    method NextRound(steps: seq<Step>, ghost order: seq<StepId>, pending: set<StepId>,
                     before: map<StepId, StepStatus>, ghost callsBefore: seq<Call>, ghost rounds: nat)
      returns (ok: bool, stillPending: set<StepId>, results: map<StepId, StepStatus>, ghost calls: seq<Call>,
               ghost left: StepId)
      requires UniqueIds(steps) && AcceptedGraph(GraphOf(ById(steps)), order)
      requires pending == ById(steps).Keys - before.Keys && pending != {}
      requires AfterRounds(ById(steps), world, before, callsBefore, rounds)
      ensures NoCallTwice(calls) && AfterDependencies(ById(steps), world, calls)
      ensures !ok ==> SomeStepRaises(ById(steps), world)
      ensures ok ==> AfterRounds(ById(steps), world, results, calls, rounds + 1)
      ensures left in GraphOf(ById(steps)) && left !in Done(GraphOf(ById(steps)), rounds)
      ensures ok ==> stillPending == ById(steps).Keys - results.Keys && stillPending < pending
    {
      var ready := Ready(steps, pending, before);
      SomethingIsReady(steps, order, pending, before, rounds);
      if ready == [] { assert false; }
      ReadyIsNextRound(steps, pending, before, rounds);
      ReadyArePending(steps, pending, before);
      left := ready[0].id;
      assert Pending(ById(steps), before, ready[0]) && left in IdSet(ready);
      ok, results, calls := RunRound(ById(steps), ready, before, callsBefore);
      stillPending := pending - IdSet(ready);
      PendingShrinks(ById(steps).Keys, before.Keys, IdSet(ready), left);
    }

    /** Goes over the plan until no step is pending. */
    method RunRounds(steps: seq<Step>, ghost order: seq<StepId>)
      returns (ok: bool, results: map<StepId, StepStatus>, ghost calls: seq<Call>, ghost rounds: nat,
               ghost longest: seq<StepId>)
      requires UniqueIds(steps) && AcceptedGraph(GraphOf(ById(steps)), order)
      ensures NoCallTwice(calls) && AfterDependencies(ById(steps), world, calls)
      ensures !ok ==> SomeStepRaises(ById(steps), world)
      ensures ok ==> WellRun(ById(steps), world, results, calls)
      ensures ok ==> results.Keys == ById(steps).Keys == Done(GraphOf(ById(steps)), rounds)
      ensures ok ==> IsChain(GraphOf(ById(steps)), longest) && |longest| == rounds
    {
      var pending := ById(steps).Keys;
      ok, results, calls, rounds, longest := true, map[], [], 0, [];
      NoRoundsYet(ById(steps), world);
      while pending != {}
        invariant pending == ById(steps).Keys - results.Keys
        invariant RoundsRun(ById(steps), world, results, calls, longest, rounds)
        decreases pending
      {
        ok, pending, results, calls, longest := LongerRound(steps, order, pending, results, calls, longest, rounds);
        if !ok { return; }
        rounds := rounds + 1;
      }
      EverythingRun(ById(steps), world, results, calls, longest, rounds);
    }

    /** The next round, and a chain as long as the rounds so far. */
    method LongerRound(steps: seq<Step>, ghost order: seq<StepId>, pending: set<StepId>,
                       before: map<StepId, StepStatus>, ghost callsBefore: seq<Call>, ghost shorter: seq<StepId>,
                       ghost rounds: nat)
      returns (ok: bool, stillPending: set<StepId>, results: map<StepId, StepStatus>, ghost calls: seq<Call>,
               ghost longest: seq<StepId>)
      requires UniqueIds(steps) && AcceptedGraph(GraphOf(ById(steps)), order)
      requires pending == ById(steps).Keys - before.Keys && pending != {}
      requires RoundsRun(ById(steps), world, before, callsBefore, shorter, rounds)
      ensures NoCallTwice(calls) && AfterDependencies(ById(steps), world, calls)
      ensures !ok ==> SomeStepRaises(ById(steps), world)
      ensures ok ==> RoundsRun(ById(steps), world, results, calls, longest, rounds + 1)
      ensures ok ==> stillPending == ById(steps).Keys - results.Keys && stillPending < pending
    {
      ghost var left;
      ok, stillPending, results, calls, left := NextRound(steps, order, pending, before, callsBefore, rounds);
      longest := UnfinishedHasLongChain(GraphOf(ById(steps)), rounds, left);
    }

    /** Runs all steps of an accepted plan, round by round. */
    method RunSteps(steps: seq<Step>, ghost order: seq<StepId>)
      returns (ok: bool, results: map<StepId, StepStatus>, ghost calls: seq<Call>, ghost rounds: nat)
      requires UniqueIds(steps) && AcceptedGraph(GraphOf(ById(steps)), order)
      ensures NoCallTwice(calls) && AfterDependencies(ById(steps), world, calls)
      ensures !ok ==> SomeStepRaises(ById(steps), world)
      ensures ok ==> WellRun(ById(steps), world, results, calls)
      ensures ok ==> results.Keys == ById(steps).Keys && LongestChain(GraphOf(ById(steps)), rounds)
    {
      ghost var longest;
      ok, results, calls, rounds, longest := RunRounds(steps, order);
      if ok { RoundsAreLongestChain(GraphOf(ById(steps)), rounds, longest); }
    }

    /** Asks for the plan's automations, one after the other, up to the first request that raises. */
    method CreateAutomations(behaviors: seq<string>) returns (ok: bool, failed: bool, ghost created: seq<string>)
      ensures !ok <==> SomeCreateRaises(world, behaviors)
      ensures created <= behaviors && (ok ==> created == behaviors)
      ensures !ok ==> created != [] && world.create(created[|created|-1]).CallRaises?
      ensures !ok ==> forall i :: 0 <= i < |created| - 1 ==> world.create(created[i]).Answer?
      ensures ok ==> (failed <==> exists b :: b in behaviors && !world.create(b).success)
    {
      ok, failed, created := true, false, [];
      for i := 0 to |behaviors|
        invariant created == behaviors[..i]
        invariant forall b :: b in behaviors[..i] ==> world.create(b).Answer?
        invariant failed <==> exists b :: b in behaviors[..i] && !world.create(b).success
      {
        created := created + [behaviors[i]];
        assert behaviors[..i+1] == behaviors[..i] + [behaviors[i]];
        match world.create(behaviors[i])
        case CallRaises =>
          assert forall k :: 0 <= k < i ==> created[k] in behaviors[..i];
          return false, failed, created;
        case Answer(success, _, _, _) => if !success { failed := true; }
      }
      assert behaviors[..|behaviors|] == behaviors;
    }

    /** The result of a plan all of which ran: the steps in plan order, and whether everything succeeded. */
    method Report(plan: Plan, results: map<StepId, StepStatus>, failed: bool, ghost calls: seq<Call>, ghost rounds: nat)
      returns (r: Execution)
      requires UniqueIds(plan.steps) && WellRun(ById(plan.steps), world, results, calls)
      requires results.Keys == ById(plan.steps).Keys && LongestChain(GraphOf(ById(plan.steps)), rounds)
      requires !SomeCreateRaises(world, plan.behaviors)
      requires failed <==> exists b :: b in plan.behaviors && !world.create(b).success
      ensures r.Finished? && WellFinished(plan, world, r, calls, plan.behaviors, rounds)
    {
      TableListsIds(plan.steps);
      var ordered := Ordered(plan.steps, results);
      var allCompleted := AllCompleted(ordered);
      OrderedReports(plan.steps, world, results);
      AllRanWell(ById(plan.steps), world, results, calls);
      SucceedTogether(ById(plan.steps), world, plan.behaviors, allCompleted, failed);
      return Finished(plan.planId, !failed && allCompleted, ordered);
    }

    /** Runs an accepted plan: first its steps, then its automations. */
    method RunPlan(plan: Plan, ghost order: seq<StepId>)
      returns (r: Execution, ghost calls: seq<Call>, ghost created: seq<string>, ghost rounds: nat)
      requires UniqueIds(plan.steps) && AcceptedGraph(GraphOf(ById(plan.steps)), order)
      ensures !r.Rejected? && NoCallTwice(calls) && AfterDependencies(ById(plan.steps), world, calls)
      ensures r.Interrupted? <==> SomeStepRaises(ById(plan.steps), world) || SomeCreateRaises(world, plan.behaviors)
      ensures created <= plan.behaviors && (created != [] ==> !SomeStepRaises(ById(plan.steps), world))
      ensures r.Finished? ==> WellFinished(plan, world, r, calls, created, rounds)
    {
      ghost var steps := ById(plan.steps);
      var ok, results;
      ok, results, calls, rounds := RunSteps(plan.steps, order);
      created := [];
      if !ok { return Interrupted, calls, created, rounds; }
      assert !SomeStepRaises(steps, world);
      var failed;
      ok, failed, created := CreateAutomations(plan.behaviors);
      if !ok { return Interrupted, calls, created, rounds; }
      r := Report(plan, results, failed, calls, rounds);
    }

    /** Checks and runs a whole plan. `calls` are the calls made for steps, `created` the
        automations asked for, in order, `rounds` the number of passes over the plan. */
    method ExecutePlan(plan: Plan)
      returns (r: Execution, ghost calls: seq<Call>, ghost created: seq<string>, ghost rounds: nat)
      ensures r.Rejected? <==> Problem(plan).Some?
      ensures r.Rejected? ==> Some(r.error) == Problem(plan) && calls == [] && created == []
      ensures Problem(plan).None? ==>
                var steps := ById(plan.steps);
                && (r.Interrupted? <==> SomeStepRaises(steps, world) || SomeCreateRaises(world, plan.behaviors))
                && NoCallTwice(calls) && AfterDependencies(steps, world, calls)
                && created <= plan.behaviors && (created != [] ==> !SomeStepRaises(steps, world))
      ensures r.Finished? ==> WellFinished(plan, world, r, calls, created, rounds)
      ensures r.Finished? ==> FinishMeans(plan, world, r, calls)
      ensures Problem(plan).None? ==> exists o :: InterruptMeans(plan, world, r, o)
    {
      var problem;
      ghost var order;
      problem, order := Validate(plan);
      if problem.Some? { return Rejected(problem.value), [], [], 0; }
      r, calls, created, rounds := RunPlan(plan, order);
      if r.Finished? { FinishIsMeant(plan, world, r, calls, created, rounds); }
      OutcomesAccount(ById(plan.steps), world);
      assert InterruptMeans(plan, world, r, Outcomes(ById(plan.steps), world));
    }
  }

  /** The report and the calls mean what they say, and COMPLETED overall means that every step is reported completed and
      every automation was created. */
  ghost predicate FinishMeans(plan: Plan, w: World, r: Execution, calls: seq<Call>)
    requires r.Finished?
  {
    && r.planId == plan.planId
    && ReportMeans(plan.steps, w, r.steps) && CallsMean(plan.steps, w, r.steps, calls)
    && (r.completed <==>
          && (forall i :: 0 <= i < |r.steps| ==> r.steps[i].status.Completed?)
          && (forall b :: b in plan.behaviors ==> w.create(b).Answer? && w.create(b).success))
  }

  /** An exception ends the run exactly if, by the account of its outcomes, a step raises, or an automation does. */
  ghost predicate InterruptMeans(plan: Plan, w: World, r: Execution, outcomes: map<StepId, Outcome>)
    requires UniqueIds(plan.steps)
  {
    && Accounts(ById(plan.steps), w, outcomes)
    && (r.Interrupted? <==>
          || (exists id :: id in outcomes && outcomes[id] == Raised)
          || (exists b :: b in plan.behaviors && w.create(b).CallRaises?))
  }

  lemma FinishIsMeant(plan: Plan, w: World, r: Execution, calls: seq<Call>, created: seq<string>, rounds: nat)
    requires Problem(plan).None? && r.Finished? && WellFinished(plan, w, r, calls, created, rounds)
    ensures FinishMeans(plan, w, r, calls)
  {
    var steps := ById(plan.steps);
    ReportIsMeant(plan.steps, w, r.steps);
    forall s | s in plan.steps ensures s.id in steps && steps[s.id] == s {}
    CallsAreMeant(plan.steps, w, r.steps, calls);
    CompletedAsReported(plan.steps, w, r.steps);
  }

  lemma CompletedAsReported(steps: seq<Step>, w: World, report: seq<StepResult>)
    requires UniqueIds(steps) && Reported(steps, w, report)
    ensures EveryStepCompletes(ById(steps), w) <==> forall i :: 0 <= i < |report| ==> report[i].status.Completed?
  {
    forall i | 0 <= i < |steps|
      ensures steps[i].id in ById(steps)
      ensures IsCompleted(OutcomeOf(ById(steps), w, steps[i].id)) <==> report[i].status.Completed?
    {
    }
  }

  lemma CallsStayOrdered(steps: map<StepId, Step>, w: World, results: map<StepId, StepStatus>, calls: seq<Call>,
                         s: Step, made: seq<Call>)
    requires NoCallTwice(calls) && AfterDependencies(steps, w, calls) && Recorded(steps, w, results, calls)
    requires var g := GraphOf(steps); Closed(g) && Acyclic(g)
    requires s.id in steps && steps[s.id] == s && s.id !in results
    requires forall d :: d in s.dependsOn ==> d in results
    requires StepCalls(s, made)
    requires made != [] ==> DependenciesCompleted(steps, w, s.id)
    ensures NoCallTwice(calls + made) && AfterDependencies(steps, w, calls + made)
  {
    if made == [] {
      assert calls + made == calls;
    } else {
      forall d | d in s.dependsOn ensures IsCompleted(OutcomeOf(steps, w, d)) && Execute(d) in calls {
        OutcomeEquation(steps, w, d);
        CompletedReachedCapability(w, steps[d], DependenciesCompleted(steps, w, d));
      }
      OneMoreCall(steps, w, calls, made[0]);
      if |made| == 2 {
        OneMoreCall(steps, w, calls + [made[0]], made[1]);
        assert calls + made == calls + [made[0]] + [made[1]];
      } else {
        assert calls + made == calls + [made[0]];
      }
    }
  }

  lemma CallsOfOthers(calls: seq<Call>, made: seq<Call>, s: Step, id: StepId)
    requires StepCalls(s, made)
    ensures Execute(id) in calls + made <==> Execute(id) in calls || (id == s.id && Execute(id) in made)
    ensures Resolve(id) in calls + made <==> Resolve(id) in calls || (id == s.id && Resolve(id) in made)
  {
  }

  lemma StepRecorded(steps: map<StepId, Step>, w: World, results: map<StepId, StepStatus>, calls: seq<Call>,
                     s: Step, made: seq<Call>, status: StepStatus)
    requires Recorded(steps, w, results, calls)
    requires s.id in steps && s.id !in results && OutcomeOf(steps, w, s.id) == Settled(status)
    requires StepCalls(s, made)
    requires Execute(s.id) in made <==> ReachesCapability(w, steps[s.id], DependenciesCompleted(steps, w, s.id))
    requires Resolve(s.id) in made <==> AsksForTarget(w, steps[s.id], DependenciesCompleted(steps, w, s.id))
    ensures Recorded(steps, w, results[s.id := status], calls + made)
  {
    var more := results[s.id := status];
    forall c | c in calls + made ensures c.id in more {}
    forall id | id in more
      ensures Execute(id) in calls + made <==> ReachesCapability(w, steps[id], DependenciesCompleted(steps, w, id))
      ensures Resolve(id) in calls + made <==> AsksForTarget(w, steps[id], DependenciesCompleted(steps, w, id))
    {
      CallsOfOthers(calls, made, s, id);
      if id == s.id { assert Execute(id) !in calls && Resolve(id) !in calls; }
    }
  }

  lemma NotYetSettled(steps: map<StepId, Step>, before: map<StepId, StepStatus>, results: map<StepId, StepStatus>,
                      ready: seq<Step>, i: nat)
    requires UniqueIds(ready) && i < |ready| && (forall s :: s in ready ==> Pending(steps, before, s))
    requires results.Keys == before.Keys + IdSet(ready[..i])
    ensures Pending(steps, results, ready[i])
  {
    assert Pending(steps, before, ready[i]);
    forall d | d in ready[i].dependsOn ensures d in results { assert d in before.Keys; }
  }

  lemma ReadyArePending(steps: seq<Step>, pending: set<StepId>, results: map<StepId, StepStatus>)
    requires UniqueIds(steps) && pending == ById(steps).Keys - results.Keys
    ensures forall s :: s in Ready(steps, pending, results) ==> Pending(ById(steps), results, s)
  {
    forall s | s in Ready(steps, pending, results) ensures Pending(ById(steps), results, s) {
      var i :| 0 <= i < |steps| && steps[i] == s;
    }
  }

  lemma ReadyIsNextRound(steps: seq<Step>, pending: set<StepId>, results: map<StepId, StepStatus>, k: nat)
    requires UniqueIds(steps) && pending == ById(steps).Keys - results.Keys
    requires results.Keys == Done(GraphOf(ById(steps)), k)
    ensures Done(GraphOf(ById(steps)), k + 1) == results.Keys + IdSet(Ready(steps, pending, results))
  {
    var g := GraphOf(ById(steps));
    DoneGrows(g, k);
    forall id | id in Done(g, k + 1) ensures id in results.Keys + IdSet(Ready(steps, pending, results)) {
      if id !in results { NextRoundIsReady(steps, pending, results, k, id); }
    }
    forall s | s in Ready(steps, pending, results) ensures s.id in Done(g, k + 1) {
      ReadyEntersNextRound(steps, pending, results, k, s);
    }
  }

  lemma ReadyEntersNextRound(steps: seq<Step>, pending: set<StepId>, results: map<StepId, StepStatus>, k: nat, s: Step)
    requires UniqueIds(steps) && pending == ById(steps).Keys - results.Keys
    requires results.Keys == Done(GraphOf(ById(steps)), k)
    requires s in Ready(steps, pending, results)
    ensures s.id in Done(GraphOf(ById(steps)), k + 1)
  {
    ReadyArePending(steps, pending, results);
    assert Pending(ById(steps), results, s);
  }

  lemma NextRoundIsReady(steps: seq<Step>, pending: set<StepId>, results: map<StepId, StepStatus>, k: nat, id: StepId)
    requires UniqueIds(steps) && pending == ById(steps).Keys - results.Keys
    requires results.Keys == Done(GraphOf(ById(steps)), k)
    requires id in Done(GraphOf(ById(steps)), k + 1) && id !in results
    ensures id in IdSet(Ready(steps, pending, results))
  {
    var g := GraphOf(ById(steps));
    var i :| 0 <= i < |steps| && steps[i].id == id;
    forall d | d in steps[i].dependsOn ensures d in results {
      assert d in g[id];
    }
    assert steps[i] in Ready(steps, pending, results);
  }

  /** The executor's "plan cannot make progress" cannot happen to an accepted plan. */
  lemma NoRoundIsEmpty(g: Graph, order: seq<StepId>, k: nat, pending: set<StepId>) returns (next: StepId)
    requires Topological(g, order) && forall n :: n in g ==> n in order
    requires pending != {} && pending == g.Keys - Done(g, k)
    ensures next in Done(g, k + 1) && next !in Done(g, k)
  {
    var left :| left in pending;
    RoundMakesProgress(g, order, k, 0);
    next :| next in Done(g, k + 1) && next !in Done(g, k);
  }

  lemma PendingShrinks(all: set<StepId>, before: set<StepId>, ready: set<StepId>, left: StepId)
    requires left in all && left !in before && left in ready
    ensures (all - before) - ready == all - (before + ready)
    ensures (all - before) - ready < all - before
  {
    assert left in all - before && left !in (all - before) - ready;
  }

  lemma SomethingIsReady(steps: seq<Step>, order: seq<StepId>, pending: set<StepId>, results: map<StepId, StepStatus>,
      k: nat)
    requires UniqueIds(steps) && pending == ById(steps).Keys - results.Keys && pending != {}
    requires var g := GraphOf(ById(steps)); Topological(g, order) && forall n :: n in g ==> n in order
    requires results.Keys == Done(GraphOf(ById(steps)), k)
    ensures Ready(steps, pending, results) != []
  {
    var n := NoRoundIsEmpty(GraphOf(ById(steps)), order, k, pending);
    NextRoundIsReady(steps, pending, results, k, n);
  }

  lemma RoundsAreLongestChain(g: Graph, rounds: nat, longest: seq<StepId>)
    requires g.Keys == Done(g, rounds) && IsChain(g, longest) && |longest| == rounds
    ensures LongestChain(g, rounds)
  {
    forall p | IsChain(g, p) ensures |p| <= rounds {
      if p != [] { FinishedHasShortChains(g, rounds, p); }
    }
  }

  lemma AllRanWell(steps: map<StepId, Step>, w: World, results: map<StepId, StepStatus>, calls: seq<Call>)
    requires WellRun(steps, w, results, calls) && results.Keys == steps.Keys
    ensures CallsExactlyWhereDue(steps, w, calls)
  {
    assert forall id :: id in steps ==> id in results;
  }

  lemma SucceedTogether(steps: map<StepId, Step>, w: World, behaviors: seq<string>, allCompleted: bool, failed: bool)
    requires allCompleted <==> EveryStepCompletes(steps, w)
    requires !SomeCreateRaises(w, behaviors) && (failed <==> exists b :: b in behaviors && !w.create(b).success)
    ensures AllSucceed(steps, w, behaviors) <==> !failed && allCompleted
  {
  }

  lemma OrderedReports(steps: seq<Step>, w: World, results: map<StepId, StepStatus>)
    requires UniqueIds(steps) && (forall n :: n in StepIds(steps) ==> n in results)
    requires forall id :: id in results ==> OutcomeOf(ById(steps), w, id) == Settled(results[id])
    ensures Reported(steps, w, Ordered(steps, results))
    ensures AllCompleted(Ordered(steps, results)) <==> EveryStepCompletes(ById(steps), w)
  {
    forall k | 0 <= k < |steps| ensures steps[k].id in ById(steps) && StepIds(steps)[k] in results {}
  }
}
