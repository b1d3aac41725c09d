/** Execution plans: the checks a plan must pass and the executor that runs its steps in rounds. */
module PlanExecution {
  import opened Wrappers
  import opened DependencyGraph

  datatype Resource = Resource(id: string, kind: string)

  datatype Step = Step(id: StepId, dependsOn: seq<StepId>, conditions: seq<string>, operation: string,
                       reference: string, resolved: Option<Resource>)

  datatype Plan = Plan(planId: string, validated: bool, steps: seq<Step>, behaviors: seq<string>)

  datatype StepStatus = Completed(result: string) | Failed(error: string) | SkippedDependency | SkippedCondition

  datatype StepResult = StepResult(stepId: StepId, status: StepStatus)

  datatype PlanError = NotValidated | DuplicateStep | SelfDependency | UnknownDependency | InvalidDependency
      | CyclicPlan

  datatype Execution =
    | Finished(planId: string, completed: bool, steps: seq<StepResult>)
    | Rejected(error: PlanError)
    | Interrupted  // an exception of the capability or the condition evaluator left the executor

  // ----- The world outside: what conditions, resolution and the capability answer -----

  datatype ConditionAnswer = Holds | Fails | ConditionRaises

  datatype ResolveAnswer = Candidates(status: string, candidates: seq<Resource>) | ResolveRaises

  datatype Answer = Answer(success: bool, outcome: string, error: Option<string>, result: string) | CallRaises

  datatype World = World(condition: string -> ConditionAnswer, resolve: Step -> ResolveAnswer,
                         execute: (Step, Resource) -> Answer, create: string -> Answer)

  /** A call the executor makes to the capability on behalf of a step. */
  datatype Call = Resolve(id: StepId) | Execute(id: StepId)

  // ----- Plans as graphs -----

  predicate UniqueIds(steps: seq<Step>) {
    forall i, j :: 0 <= i < j < |steps| ==> steps[i].id != steps[j].id
  }

  function ById(steps: seq<Step>): map<StepId, Step>
    requires UniqueIds(steps)
  {
    map i | 0 <= i < |steps| :: steps[i].id := steps[i]
  }

  function Dependencies(s: Step): set<StepId> {
    set d | d in s.dependsOn
  }

  function GraphOf(steps: map<StepId, Step>): Graph {
    map id | id in steps :: Dependencies(steps[id])
  }

  /** Why the executor rejects a plan, if it does. */
  ghost function Problem(plan: Plan): Option<PlanError> {
    if !plan.validated then Some(NotValidated)
    else if !UniqueIds(plan.steps) then Some(DuplicateStep)
    else
      var g := GraphOf(ById(plan.steps));
      if exists n :: n in g && (!(g[n] <= g.Keys) || n in g[n]) then Some(InvalidDependency)
      else if !Acyclic(g) then Some(CyclicPlan)
      else None
  }

  // ----- One step on its own -----

  /** Conditions are asked in order until one fails or raises. */
  function Conditions(w: World, conditions: seq<string>): ConditionAnswer {
    if conditions == [] then Holds
    else
      match w.condition(conditions[0])
      case Holds => Conditions(w, conditions[1..])
      case other => other
  }

  datatype Target = Found(resource: Resource) | NotFound(status: string) | TargetRaises

  function TargetOf(w: World, s: Step): Target {
    if s.resolved.Some? then Found(s.resolved.value)
    else
      match w.resolve(s)
      case ResolveRaises => TargetRaises
      case Candidates(status, candidates) =>
        if status == "RESOLVED" && |candidates| == 1 then Found(candidates[0]) else NotFound(status)
  }

  datatype Outcome = Settled(status: StepStatus) | Raised

  function AfterCall(a: Answer): Outcome {
    match a
    case CallRaises => Raised
    case Answer(success, outcome, error, result) =>
      if success then Settled(Completed(result))
      else Settled(Failed(if error.Some? then error.value else outcome))
  }

  predicate ReachesCapability(w: World, s: Step, dependenciesCompleted: bool) {
    dependenciesCompleted && Conditions(w, s.conditions).Holds? && TargetOf(w, s).Found?
  }

  predicate AsksForTarget(w: World, s: Step, dependenciesCompleted: bool) {
    dependenciesCompleted && Conditions(w, s.conditions).Holds? && s.resolved.None?
  }

  function RunAlone(w: World, s: Step, dependenciesCompleted: bool): Outcome {
    if !dependenciesCompleted then Settled(SkippedDependency)
    else
      match Conditions(w, s.conditions)
      case ConditionRaises => Raised
      case Fails => Settled(SkippedCondition)
      case Holds =>
        match TargetOf(w, s)
        case TargetRaises => Raised
        case NotFound(status) => Settled(Failed("RESOLVE_" + status))
        case Found(resource) => AfterCall(w.execute(s, resource))
  }

  // ----- The recursive evaluator: a step's outcome from the outcomes of its dependencies -----

  predicate IsCompleted(o: Outcome) {
    o.Settled? && o.status.Completed?
  }

  /** `above` holds the steps whose evaluation asked for this one; on an acyclic plan it never matters. */
  function Evaluate(steps: map<StepId, Step>, w: World, above: set<StepId>, id: StepId): Outcome
    decreases steps.Keys - above
  {
    if id !in steps || id in above then Raised
    else RunAlone(w, steps[id],
                  forall d | d in steps[id].dependsOn :: IsCompleted(Evaluate(steps, w, above + {id}, d)))
  }

  function OutcomeOf(steps: map<StepId, Step>, w: World, id: StepId): Outcome {
    Evaluate(steps, w, {}, id)
  }

  predicate DependenciesCompleted(steps: map<StepId, Step>, w: World, id: StepId)
    requires id in steps
  {
    forall d | d in steps[id].dependsOn :: IsCompleted(OutcomeOf(steps, w, d))
  }

  lemma {:induction false} AboveIsIrrelevant(steps: map<StepId, Step>, w: World, a: set<StepId>, b: set<StepId>,
      id: StepId)
    requires var g := GraphOf(steps); Closed(g) && Acyclic(g)
    requires id in steps && forall x | x in a + b :: x in steps && Reaches(GraphOf(steps), x, id)
    ensures Evaluate(steps, w, a, id) == Evaluate(steps, w, b, id)
    decreases steps.Keys - a
  {
    var g := GraphOf(steps);
    assert id in g && id !in a && id !in b;
    forall d | d in steps[id].dependsOn
      ensures Evaluate(steps, w, a + {id}, d) == Evaluate(steps, w, b + {id}, d)
    {
      assert d in g[id];
      forall x | x in (a + {id}) + (b + {id}) ensures x in steps && Reaches(g, x, d) {
        if x == id { DirectDependencyReached(g, id, d); } else { ReachesThenDependency(g, x, id, d); }
      }
      AboveIsIrrelevant(steps, w, a + {id}, b + {id}, d);
    }
  }

  /** On an acyclic plan the evaluator satisfies its defining equation. */
  lemma OutcomeEquation(steps: map<StepId, Step>, w: World, id: StepId)
    requires var g := GraphOf(steps); Closed(g) && Acyclic(g)
    requires id in steps
    ensures OutcomeOf(steps, w, id) == RunAlone(w, steps[id], DependenciesCompleted(steps, w, id))
  {
    var g := GraphOf(steps);
    forall d | d in steps[id].dependsOn
      ensures Evaluate(steps, w, {} + {id}, d) == OutcomeOf(steps, w, d)
    {
      assert d in g[id];
      DirectDependencyReached(g, id, d);
      AboveIsIrrelevant(steps, w, {} + {id}, {}, d);
    }
  }

  // ----- The order of the steps in the list does not matter -----

  lemma SharedIdSharedStep(p: seq<Step>, s: Step, t: Step)
    requires UniqueIds(p) && s in p && t in p && s.id == t.id
    ensures s == t
  {
    var i :| 0 <= i < |p| && p[i] == s;
    var j :| 0 <= j < |p| && p[j] == t;
    assert i == j;
  }

  lemma TwoPlacesTwoCopies(q: seq<Step>, i: nat, j: nat)
    requires i < j < |q| && q[i] == q[j]
    ensures multiset(q)[q[i]] >= 2
  {
    assert q == q[..j] + q[j..];
    assert q[i] in q[..j] && q[j] in q[j..];
  }

  lemma PermutedStepsStayUnique(p: seq<Step>, q: seq<Step>)
    requires UniqueIds(p) && multiset(p) == multiset(q)
    ensures UniqueIds(q)
  {
    forall i, j | 0 <= i < j < |q| ensures q[i].id != q[j].id {
      if q[i].id == q[j].id {
        assert q[i] in multiset(p) && q[j] in multiset(p);
        SharedIdSharedStep(p, q[i], q[j]);
        TwoPlacesTwoCopies(q, i, j);
        UniqueMultiplicity(p, q[i]);
      }
    }
  }

  lemma PermutedTableContained(p: seq<Step>, q: seq<Step>, id: StepId)
    requires UniqueIds(p) && UniqueIds(q) && multiset(p) == multiset(q) && id in ById(p)
    ensures id in ById(q) && ById(q)[id] == ById(p)[id]
  {
    var i :| 0 <= i < |p| && p[i].id == id;
    assert p[i] in multiset(q);
    var j :| 0 <= j < |q| && q[j] == p[i];
  }

  lemma PermutedStepsSameTable(p: seq<Step>, q: seq<Step>)
    requires UniqueIds(p) && UniqueIds(q) && multiset(p) == multiset(q)
    ensures ById(p) == ById(q)
  {
    forall id | id in ById(p) { PermutedTableContained(p, q, id); }
    forall id | id in ById(q) { PermutedTableContained(q, p, id); }
  }

  lemma {:induction false} UniqueMultiplicity(p: seq<Step>, s: Step)
    requires UniqueIds(p)
    ensures multiset(p)[s] <= 1
  {
    if p != [] {
      assert p == p[..|p|-1] + [p[|p|-1]];
      UniqueMultiplicity(p[..|p|-1], s);
      if s == p[|p|-1] { assert s !in p[..|p|-1]; }
    }
  }

  /** Plans with the same steps in another order are accepted alike and give every step the same outcome. */
  lemma StatusIndependentOfListOrder(p: Plan, q: Plan, w: World)
    requires multiset(p.steps) == multiset(q.steps) && p.validated == q.validated
    ensures Problem(p) == Problem(q)
    ensures Problem(p).None? ==> ById(p.steps) == ById(q.steps)
    ensures Problem(p).None? ==>
              forall id :: OutcomeOf(ById(p.steps), w, id) == OutcomeOf(ById(q.steps), w, id)
  {
    if UniqueIds(p.steps) { PermutedStepsStayUnique(p.steps, q.steps); }
    if UniqueIds(q.steps) {
      PermutedStepsStayUnique(q.steps, p.steps);
      PermutedStepsSameTable(p.steps, q.steps);
    }
  }

  // ----- Who gets skipped -----

  /** A step's own failure: it neither completed nor was skipped for its dependencies. */
  predicate Blocks(o: Outcome) {
    !IsCompleted(o) && o != Settled(SkippedDependency)
  }

  lemma {:induction false} SkippedHasCulprit(steps: map<StepId, Step>, w: World, above: set<StepId>, id: StepId)
    requires var g := GraphOf(steps); Closed(g) && Acyclic(g)
    requires id in steps && (forall x | x in above :: x in steps && Reaches(GraphOf(steps), x, id))
    requires OutcomeOf(steps, w, id) == Settled(SkippedDependency)
    ensures exists d :: d in steps && Reaches(GraphOf(steps), id, d) && Blocks(OutcomeOf(steps, w, d))
    decreases steps.Keys - above
  {
    var g := GraphOf(steps);
    assert id in g && id !in above;
    OutcomeEquation(steps, w, id);
    var d :| d in steps[id].dependsOn && !IsCompleted(OutcomeOf(steps, w, d));
    assert d in g[id];
    DirectDependencyReached(g, id, d);
    if !Blocks(OutcomeOf(steps, w, d)) {
      forall x | x in above + {id} ensures x in steps && Reaches(g, x, d) {
        if x != id { ReachesThenDependency(g, x, id, d); }
      }
      SkippedHasCulprit(steps, w, above + {id}, d);
      var e :| e in steps && Reaches(g, d, e) && Blocks(OutcomeOf(steps, w, e));
      DependencyThenReaches(g, id, d, e);
    }
  }

  lemma DependencyThenReaches(g: Graph, id: StepId, d: StepId, e: StepId)
    requires id in g && d in g[id] && Reaches(g, d, e)
    ensures Reaches(g, id, e)
  {
    var p :| |p| >= 2 && IsChain(g, p) && p[0] == d && p[|p|-1] == e;
    assert IsChain(g, [id] + p);
  }

  lemma {:induction false} CulpritSkipsDependents(steps: map<StepId, Step>, w: World, p: seq<StepId>)
    requires var g := GraphOf(steps); Closed(g) && Acyclic(g) && IsChain(g, p)
    requires |p| >= 2 && !IsCompleted(OutcomeOf(steps, w, p[|p|-1]))
    ensures OutcomeOf(steps, w, p[0]) == Settled(SkippedDependency)
  {
    assert p[1] in GraphOf(steps)[p[0]];
    if |p| > 2 { CulpritSkipsDependents(steps, w, p[1..]); }
    OutcomeEquation(steps, w, p[0]);
  }

  /** A step is skipped for its dependencies exactly when one of them, direct or transitive,
      failed, was skipped by its condition, or raised. */
  lemma SkippedIffTransitiveDependencyBlocks(steps: map<StepId, Step>, w: World, id: StepId)
    requires var g := GraphOf(steps); Closed(g) && Acyclic(g)
    requires id in steps
    ensures OutcomeOf(steps, w, id) == Settled(SkippedDependency) <==>
            exists d :: d in steps && Reaches(GraphOf(steps), id, d) && Blocks(OutcomeOf(steps, w, d))
  {
    var g := GraphOf(steps);
    if OutcomeOf(steps, w, id) == Settled(SkippedDependency) {
      SkippedHasCulprit(steps, w, {}, id);
    }
    if exists d :: d in steps && Reaches(g, id, d) && Blocks(OutcomeOf(steps, w, d)) {
      var d :| d in steps && Reaches(g, id, d) && Blocks(OutcomeOf(steps, w, d));
      var p :| |p| >= 2 && IsChain(g, p) && p[0] == id && p[|p|-1] == d;
      CulpritSkipsDependents(steps, w, p);
    }
  }

  // ----- The constructor check of a plan -----

  /** The first step, from position i on, that depends on itself or on a step the plan does not have. */
  function FirstBadDependency(steps: seq<Step>, i: nat): Option<PlanError>
    requires UniqueIds(steps) && i <= |steps|
    decreases |steps| - i
  {
    if i == |steps| then None
    else if steps[i].id in steps[i].dependsOn then Some(SelfDependency)
    else if !(Dependencies(steps[i]) <= ById(steps).Keys) then Some(UnknownDependency)
    else FirstBadDependency(steps, i + 1)
  }

  lemma {:induction false} NoBadDependencyMeansClosed(steps: seq<Step>, i: nat)
    requires UniqueIds(steps) && i <= |steps|
    ensures FirstBadDependency(steps, i).None? <==>
            forall j :: i <= j < |steps| ==>
              steps[j].id !in steps[j].dependsOn && Dependencies(steps[j]) <= ById(steps).Keys
    decreases |steps| - i
  {
    if i < |steps| { NoBadDependencyMeansClosed(steps, i + 1); }
  }

  /** Why a plan object cannot be built, if it cannot. */
  ghost function ConstructionProblem(steps: seq<Step>): Option<PlanError> {
    if !UniqueIds(steps) then Some(DuplicateStep)
    else if FirstBadDependency(steps, 0).Some? then FirstBadDependency(steps, 0)
    else if !Acyclic(GraphOf(ById(steps))) then Some(CyclicPlan)
    else None
  }

  lemma NoBadDependencyOfTable(steps: seq<Step>)
    requires UniqueIds(steps)
    ensures var g := GraphOf(ById(steps));
            FirstBadDependency(steps, 0).None? <==> forall n :: n in g ==> g[n] <= g.Keys && n !in g[n]
  {
    NoBadDependencyMeansClosed(steps, 0);
    var g := GraphOf(ById(steps));
    forall j | 0 <= j < |steps| { TableEntry(steps, j); }
    forall n | n in g ensures exists i :: 0 <= i < |steps| && n == steps[i].id {}
  }

  lemma TableEntry(steps: seq<Step>, j: nat)
    requires UniqueIds(steps) && j < |steps|
    ensures var g := GraphOf(ById(steps)); steps[j].id in g && g[steps[j].id] == Dependencies(steps[j])
    ensures GraphOf(ById(steps)).Keys == ById(steps).Keys
  {
  }

  /** What the constructor accepts, the executor's own check can only reject for its validation state. */
  lemma ConstructorCheckCoversExecutorCheck(plan: Plan)
    ensures ConstructionProblem(plan.steps).None? <==> Problem(plan.(validated := true)).None?
    ensures ConstructionProblem(plan.steps).None? && Problem(plan).Some? ==> Problem(plan) == Some(NotValidated)
  {
    if UniqueIds(plan.steps) { NoBadDependencyOfTable(plan.steps); }
  }

  function StepIds(steps: seq<Step>): (ids: seq<StepId>)
    ensures |ids| == |steps| && forall i :: 0 <= i < |ids| ==> ids[i] == steps[i].id
  {
    seq(|steps|, i requires 0 <= i < |steps| => steps[i].id)
  }

  lemma TableListsIds(steps: seq<Step>)
    requires UniqueIds(steps)
    ensures forall n :: n in ById(steps) <==> n in StepIds(steps)
  {
    forall i | 0 <= i < |steps| ensures StepIds(steps)[i] in ById(steps) {}
  }

  /** The checks a plan object makes when it is built. */
  method ValidateGraph(steps: seq<Step>) returns (problem: Option<PlanError>)
    ensures problem == ConstructionProblem(steps)
  {
    if !UniqueIds(steps) { return Some(DuplicateStep); }
    var graph := GraphOf(ById(steps));
    for i := 0 to |steps|
      invariant FirstBadDependency(steps, 0) == FirstBadDependency(steps, i)
    {
      var node := steps[i].id;
      assert node in graph && graph[node] == Dependencies(steps[i]);
      if node in graph[node] { return Some(SelfDependency); }
      if !(graph[node] <= graph.Keys) { return Some(UnknownDependency); }
    }
    NoBadDependencyOfTable(steps);
    TableListsIds(steps);
    var search := new DependencyCheck(graph);
    var ok := search.VisitAll(StepIds(steps));
    return if ok then None else Some(CyclicPlan);
  }
}
