/** What the outcome of a step means, in terms of what conditions, resolution and the capability answer. */
module PlanMeaning {
  import opened Wrappers
  import opened DependencyGraph
  import opened PlanExecution

  ghost predicate AllHold(w: World, s: Step) {
    forall c :: c in s.conditions ==> w.condition(c).Holds?
  }

  /** The first condition that does not hold gives this answer. */
  ghost predicate StopsWith(w: World, s: Step, a: ConditionAnswer) {
    exists k :: 0 <= k < |s.conditions| && w.condition(s.conditions[k]) == a && !a.Holds? &&
                forall j :: 0 <= j < k ==> w.condition(s.conditions[j]).Holds?
  }

  /** The resource is the step's own, or the only candidate found for it. */
  ghost predicate Aims(w: World, s: Step, r: Resource) {
    s.resolved == Some(r) || (s.resolved.None? && w.resolve(s) == Candidates("RESOLVED", [r]))
  }

  /** The search for a target ends with this status, and not with one candidate. */
  ghost predicate Misses(w: World, s: Step, status: string) {
    && s.resolved.None? && w.resolve(s).Candidates? && w.resolve(s).status == status
    && (status == "RESOLVED" ==> |w.resolve(s).candidates| != 1)
  }

  ghost predicate Succeeds(w: World, s: Step, result: string) {
    exists r :: Aims(w, s, r) && w.execute(s, r).Answer? && w.execute(s, r).success && w.execute(s, r).result == result
  }

  /** The capability answers with an error, or at least an outcome, and no success. */
  ghost predicate Refuses(w: World, s: Step, error: string) {
    exists r :: Aims(w, s, r) && w.execute(s, r).Answer? && !w.execute(s, r).success &&
                (w.execute(s, r).error == Some(error)
                  || (w.execute(s, r).error == None && w.execute(s, r).outcome == error))
  }

  ghost predicate MissesWith(w: World, s: Step, error: string) {
    exists status :: Misses(w, s, status) && error == "RESOLVE_" + status
  }

  ghost predicate CallRaisesFor(w: World, s: Step) {
    || (s.resolved.None? && w.resolve(s).ResolveRaises?)
    || exists r :: Aims(w, s, r) && w.execute(s, r).CallRaises?
  }

  /** What becomes of a step of which it is known whether all its dependencies completed. */
  ghost predicate OutcomeMeans(w: World, s: Step, ready: bool, o: Outcome) {
    && (o == Settled(SkippedDependency) <==> !ready)
    && (o == Settled(SkippedCondition) <==> ready && StopsWith(w, s, Fails))
    && (forall x :: o == Settled(Completed(x)) <==> ready && AllHold(w, s) && Succeeds(w, s, x))
    && (forall e :: o == Settled(Failed(e)) <==> ready && AllHold(w, s) && (MissesWith(w, s, e) || Refuses(w, s, e)))
    && (o == Raised <==> ready && (StopsWith(w, s, ConditionRaises) || (AllHold(w, s) && CallRaisesFor(w, s))))
  }

  lemma {:induction false} ConditionsMean(w: World, conditions: seq<string>)
    ensures Conditions(w, conditions).Holds? <==> forall c :: c in conditions ==> w.condition(c).Holds?
    ensures !Conditions(w, conditions).Holds? ==>
              exists k :: 0 <= k < |conditions| && w.condition(conditions[k]) == Conditions(w, conditions) &&
                          forall j :: 0 <= j < k ==> w.condition(conditions[j]).Holds?
  {
    if conditions != [] && w.condition(conditions[0]).Holds? {
      var rest := conditions[1..];
      ConditionsMean(w, rest);
      assert forall c :: c in conditions <==> c == conditions[0] || c in rest;
      if !Conditions(w, rest).Holds? {
        var k :| 0 <= k < |rest| && w.condition(rest[k]) == Conditions(w, rest) &&
                 forall j :: 0 <= j < k ==> w.condition(rest[j]).Holds?;
        assert w.condition(conditions[k+1]) == Conditions(w, conditions);
        assert forall j :: 0 < j < k + 1 ==> conditions[j] == rest[j-1];
      }
    }
  }

  lemma StoppingMeans(w: World, s: Step, a: ConditionAnswer)
    ensures AllHold(w, s) <==> Conditions(w, s.conditions).Holds?
    ensures !a.Holds? ==> (StopsWith(w, s, a) <==> Conditions(w, s.conditions) == a)
  {
    ConditionsMean(w, s.conditions);
  }

  lemma TargetMeans(w: World, s: Step)
    ensures forall r :: Aims(w, s, r) <==> TargetOf(w, s) == Found(r)
    ensures forall status :: Misses(w, s, status) <==> TargetOf(w, s) == NotFound(status)
    ensures TargetOf(w, s) == TargetRaises <==> s.resolved.None? && w.resolve(s).ResolveRaises?
  {
    forall r ensures Aims(w, s, r) <==> TargetOf(w, s) == Found(r) {
      if TargetOf(w, s) == Found(r) && s.resolved.None? { assert w.resolve(s).candidates == [r]; }
    }
  }

  lemma RunAloneMeans(w: World, s: Step, ready: bool)
    ensures OutcomeMeans(w, s, ready, RunAlone(w, s, ready))
  {
    StoppingMeans(w, s, Fails);
    StoppingMeans(w, s, ConditionRaises);
    TargetMeans(w, s);
  }

  // ----- A whole plan -----

  /** All dependencies of the step completed. */
  ghost predicate Prepared(outcomes: map<StepId, Outcome>, s: Step) {
    forall d :: d in s.dependsOn ==> d in outcomes && outcomes[d].Settled? && outcomes[d].status.Completed?
  }

  /** Every step of the plan has the outcome that the answers and the outcomes of its dependencies give it. */
  ghost predicate Accounts(steps: map<StepId, Step>, w: World, outcomes: map<StepId, Outcome>) {
    && outcomes.Keys == steps.Keys
    && forall id :: id in steps ==> OutcomeMeans(w, steps[id], Prepared(outcomes, steps[id]), outcomes[id])
  }

  ghost function Outcomes(steps: map<StepId, Step>, w: World): map<StepId, Outcome> {
    map id | id in steps :: OutcomeOf(steps, w, id)
  }

  lemma PreparedIsCompleted(steps: map<StepId, Step>, w: World, id: StepId)
    requires Closed(GraphOf(steps)) && id in steps
    ensures Prepared(Outcomes(steps, w), steps[id]) <==> DependenciesCompleted(steps, w, id)
  {
    forall d | d in steps[id].dependsOn ensures d in steps { assert d in GraphOf(steps)[id]; }
  }

  /** The evaluator's outcomes are such an account of an acyclic plan. */
  lemma OutcomesAccount(steps: map<StepId, Step>, w: World)
    requires var g := GraphOf(steps); Closed(g) && Acyclic(g)
    ensures Accounts(steps, w, Outcomes(steps, w))
  {
    forall id | id in steps
      ensures OutcomeMeans(w, steps[id], Prepared(Outcomes(steps, w), steps[id]), Outcomes(steps, w)[id])
    {
      OutcomeEquation(steps, w, id);
      PreparedIsCompleted(steps, w, id);
      RunAloneMeans(w, steps[id], DependenciesCompleted(steps, w, id));
    }
  }

  /** The meaning leaves one outcome only. */
  lemma OneOutcomeIsMeant(w: World, s: Step, ready: bool, o: Outcome, p: Outcome)
    requires OutcomeMeans(w, s, ready, o) && OutcomeMeans(w, s, ready, p)
    ensures o == p
  {
    match o
    case Raised =>
    case Settled(Completed(x)) => assert p == Settled(Completed(x));
    case Settled(Failed(e)) => assert p == Settled(Failed(e));
    case Settled(SkippedDependency) =>
    case Settled(SkippedCondition) =>
  }

  /** There is one account only. */
  lemma {:induction false} AccountsAgree(steps: map<StepId, Step>, w: World, order: seq<StepId>, i: nat,
                                         o: map<StepId, Outcome>, p: map<StepId, Outcome>)
    requires Topological(GraphOf(steps), order) && i <= |order| && Accounts(steps, w, o) && Accounts(steps, w, p)
    ensures forall j :: 0 <= j < i ==> order[j] in steps && o[order[j]] == p[order[j]]
  {
    if i > 0 {
      AccountsAgree(steps, w, order, i - 1, o, p);
      var id := order[i-1];
      assert id in GraphOf(steps);
      forall d | d in steps[id].dependsOn ensures d in order[..i-1] { assert d in GraphOf(steps)[id]; }
      assert Prepared(o, steps[id]) <==> Prepared(p, steps[id]);
      OneOutcomeIsMeant(w, steps[id], Prepared(o, steps[id]), o[id], p[id]);
    }
  }

  /** The report completed the step's dependencies. */
  ghost predicate ReportedPrepared(steps: seq<Step>, report: seq<StepResult>, s: Step)
    requires |steps| == |report|
  {
    forall d :: d in s.dependsOn ==> exists j :: 0 <= j < |steps| && steps[j].id == d && report[j].status.Completed?
  }

  /** The report alone says of each step, in the plan's order, what the answers and the reports of its dependencies
      give it. */
  ghost predicate ReportMeans(steps: seq<Step>, w: World, report: seq<StepResult>) {
    && |report| == |steps|
    && forall i :: 0 <= i < |steps| ==>
         && report[i].stepId == steps[i].id
         && OutcomeMeans(w, steps[i], ReportedPrepared(steps, report, steps[i]), Settled(report[i].status))
  }

  /** The calls are those the report accounts for. */
  ghost predicate CallsMean(steps: seq<Step>, w: World, report: seq<StepResult>, calls: seq<Call>)
    requires |steps| == |report|
  {
    forall i :: 0 <= i < |steps| ==>
      && (Execute(steps[i].id) in calls <==>
          ReportedPrepared(steps, report, steps[i]) && AllHold(w, steps[i]) && exists r :: Aims(w, steps[i], r))
      && (Resolve(steps[i].id) in calls <==>
          ReportedPrepared(steps, report, steps[i]) && AllHold(w, steps[i]) && steps[i].resolved.None?)
  }

  /** The report lists the plan's steps in order, each with the outcome the evaluator gives it. */
  ghost predicate Reported(steps: seq<Step>, w: World, report: seq<StepResult>)
    requires UniqueIds(steps)
  {
    && |report| == |steps|
    && forall i :: 0 <= i < |steps| ==>
         report[i].stepId == steps[i].id && OutcomeOf(ById(steps), w, steps[i].id) == Settled(report[i].status)
  }

  lemma ReportedPreparedIsCompleted(steps: seq<Step>, w: World, report: seq<StepResult>, i: nat)
    requires UniqueIds(steps) && Closed(GraphOf(ById(steps))) && Reported(steps, w, report) && i < |steps|
    ensures ReportedPrepared(steps, report, steps[i]) <==> DependenciesCompleted(ById(steps), w, steps[i].id)
  {
    var byId := ById(steps);
    assert byId[steps[i].id] == steps[i];
    forall d | d in steps[i].dependsOn
      ensures IsCompleted(OutcomeOf(byId, w, d)) <==>
              exists j :: 0 <= j < |steps| && steps[j].id == d && report[j].status.Completed?
    {
      assert d in GraphOf(byId)[steps[i].id] && d in byId;
      var j :| 0 <= j < |steps| && steps[j].id == d;
      assert OutcomeOf(byId, w, d) == Settled(report[j].status);
    }
  }

  /** A report of the evaluator's outcomes means what it says. */
  lemma ReportIsMeant(steps: seq<Step>, w: World, report: seq<StepResult>)
    requires UniqueIds(steps) && Reported(steps, w, report)
    requires var g := GraphOf(ById(steps)); Closed(g) && Acyclic(g)
    ensures ReportMeans(steps, w, report)
  {
    forall i | 0 <= i < |steps|
      ensures OutcomeMeans(w, steps[i], ReportedPrepared(steps, report, steps[i]), Settled(report[i].status))
    {
      ReportedPreparedIsCompleted(steps, w, report, i);
      OutcomeEquation(ById(steps), w, steps[i].id);
      RunAloneMeans(w, steps[i], DependenciesCompleted(ById(steps), w, steps[i].id));
    }
  }

  lemma CallingMeans(w: World, s: Step, ready: bool)
    ensures ReachesCapability(w, s, ready) <==> ready && AllHold(w, s) && exists r :: Aims(w, s, r)
    ensures AsksForTarget(w, s, ready) <==> ready && AllHold(w, s) && s.resolved.None?
  {
    StoppingMeans(w, s, Fails);
    TargetMeans(w, s);
    if TargetOf(w, s).Found? { assert Aims(w, s, TargetOf(w, s).resource); }
  }

  lemma CallsAreMeant(steps: seq<Step>, w: World, report: seq<StepResult>, calls: seq<Call>)
    requires UniqueIds(steps) && Reported(steps, w, report) && Closed(GraphOf(ById(steps)))
    requires forall s :: s in steps ==>
               var ready := DependenciesCompleted(ById(steps), w, s.id);
               && (Execute(s.id) in calls <==> ReachesCapability(w, s, ready))
               && (Resolve(s.id) in calls <==> AsksForTarget(w, s, ready))
    ensures CallsMean(steps, w, report, calls)
  {
    forall i | 0 <= i < |steps|
      ensures Execute(steps[i].id) in calls <==>
              ReportedPrepared(steps, report, steps[i]) && AllHold(w, steps[i]) && exists r :: Aims(w, steps[i], r)
      ensures Resolve(steps[i].id) in calls <==>
              ReportedPrepared(steps, report, steps[i]) && AllHold(w, steps[i]) && steps[i].resolved.None?
    {
      ReportedPreparedIsCompleted(steps, w, report, i);
      CallingMeans(w, steps[i], DependenciesCompleted(ById(steps), w, steps[i].id));
      assert steps[i] in steps;
    }
  }
}
