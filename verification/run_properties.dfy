/**
 Whole runs of the engine. Once a plan has been accepted the run is a prefix of one fixed
 trajectory; everything the engine promises about order, coverage, dependencies, termination
 and the final status is read off it.
 */
module RunProperties {
  import opened Iteration
  import opened Json
  import opened PlanProperties
  import opened RunEngine
  import opened RuntimePlan
  import opened Sequences
  import opened Text
  import opened Wrappers

  /*** The trajectory ***/

  function ClaimsOf(s: Step): seq<string> {
    s.obligationIds
  }

  /** The obligations of the steps, in plan order. */
  function Claims(steps: seq<Step>): seq<string> {
    Concat(steps, ClaimsOf)
  }

  /** RAG obligations are credited when the step completes, SQL obligations at the next executor visit. */
  function CoveredAtEntry(steps: seq<Step>, i: nat): seq<string>
    requires i <= |steps|
  {
    if i > 0 && steps[i - 1].stepType.Sql? then Claims(steps[..i - 1]) else Claims(steps[..i])
  }

  function Restricted(available: map<string, Output>, ids: set<string>): map<string, Output> {
    map d | d in ids && d in available :: available[d]
  }

  const NOTHING_REPORTED := ChildResult("", "", ErrorStatus, map[], [], [])

  /**
   A run whose plan has been accepted: the environment, the planner's answer, the plan that
   validation makes of it, that plan as the state stores it, and its executable steps.
   */
  datatype Run = Run(env: Env, raw: Json, plan: Plan, stored: Json, steps: seq<Step>) {
    function Reported(j: nat): Option<ChildResult>
      requires j < |steps|
    {
      if env.child(j).Some? then ResultFor(steps[j], env.child(j).value) else None
    }

    /** Step j is dispatched and its child raises. */
    predicate Raised(j: nat)
      requires j < |steps|
    {
      !Blank(steps[j].goal) && env.child(j).None?
    }

    /** The result of step j where there is one. */
    function Result(j: nat): ChildResult
      requires j < |steps|
    {
      if Reported(j).Some? then Reported(j).value else NOTHING_REPORTED
    }

    /** Step j is dispatched and its child succeeds. */
    predicate Answered(j: nat)
      requires j < |steps|
    {
      !Blank(steps[j].goal) && Reported(j).Some? && Result(j).status.Success?
    }

    /** Step j succeeds for good: a SQL output also gets through the gate. */
    predicate Passed(j: nat)
      requires j < |steps|
    {
      Answered(j) && (steps[j].stepType.Sql? ==> env.gate(Result(j).output).None?)
    }

    predicate AllAnswered(i: nat)
      requires i <= |steps|
    {
      forall j: nat | j < i :: Answered(j)
    }

    predicate AllPassed(i: nat)
      requires i <= |steps|
    {
      forall j: nat | j < i :: Passed(j)
    }

    function Results(i: nat): seq<StepResult>
      requires i <= |steps|
    {
      seq(i, (j: nat) requires j < i => NormalizeResult(steps[j], Result(j)))
    }

    function ContextAfter(i: nat): map<string, Output>
      requires i <= |steps|
    {
      if i == 0 then map[] else ContextAfter(i - 1)[steps[i - 1].id := Result(i - 1).output]
    }

    /** What child j is given: its obligations and exactly the outputs of its declared dependencies. */
    function CallOf(j: nat): Call
      requires j < |steps|
    {
      Call(
        steps[j],
        ObligationsJson(Keep(plan.obligations, (o: Obligation) => o.id in steps[j].obligationIds)),
        Restricted(ContextAfter(j), ToSet(steps[j].dependsOn)))
    }

    function Calls(i: nat): seq<Call>
      requires i <= |steps|
    {
      seq(i, (j: nat) requires j < i => CallOf(j))
    }

    /** The executor is about to be visited and the first i steps have been answered. */
    function Entry(i: nat): Config
      requires i <= |steps|
    {
      var st := State(
        if i == 0 then Planned else Running, if i == 0 then raw else stored, None, None,
        Ids(steps[..i]), CoveredAtEntry(steps, i), Results(i), ContextAfter(i),
        None, None, [], None, None);
      Config(ExecutorNode, st, Calls(i), 2 + 3 * i)
    }

    /** The executor has chosen step i; every obligation of the completed steps is covered. */
    function Dispatched(i: nat): Config
      requires i < |steps|
    {
      var st := State(
        Running, stored, Some(steps[i]), None,
        Ids(steps[..i]), Claims(steps[..i]), Results(i), ContextAfter(i),
        None, None, [], None, None);
      Config(PerformNode, st, Calls(i), 3 + 3 * i)
    }

    /** The executor has found nothing left to do. */
    function Finished(): Config {
      var k := |steps|;
      var st := State(
        Complete, stored, None, None, Ids(steps), Claims(steps), Results(k), ContextAfter(k),
        None, None, [], None, None);
      Config(BundleNode, st, Calls(k), 3 + 3 * k)
    }

    /** The child of step i has been called, or the step's goal turned out to be blank. */
    function PerformedAt(i: nat): Config
      requires i < |steps|
    {
      var st := Dispatched(i).st;
      if Blank(steps[i].goal)
      then Config(NormalizerNode, Fail(st, PerformNode, InvalidRuntimeStepGoal, InvalidPlan), Calls(i), 4 + 3 * i)
      else Config(NormalizerNode, st.(childResult := env.child(i)), Calls(i + 1), 4 + 3 * i)
    }

    /** The child of step i has raised. */
    function RaisedAt(i: nat): Config
      requires i < |steps|
    {
      Config(CrashNode, Dispatched(i).st, Calls(i + 1), 4 + 3 * i)
    }

    /** What the normalizer records for a step that was not answered. */
    function FailureOf(i: nat): StepResult
      requires i < |steps|
    {
      if Blank(steps[i].goal) || Reported(i).None? then Malformed(Some(steps[i])) else NormalizeResult(steps[i], Result(i))
    }

    function FailedAt(i: nat): Config
      requires i < |steps|
    {
      Config(ExecutorNode, RecordFailure(PerformedAt(i).st, FailureOf(i)), PerformedAt(i).calls, 5 + 3 * i)
    }

    /** The executor has given up after step i: blank goal, failed child or closed gate. */
    function StoppedAt(i: nat): Config
      requires i < |steps|
    {
      var st :=
        if Blank(steps[i].goal) then FailedAt(i).st
        else if Answered(i) then Fail(Entry(i + 1).st, ExecutorNode, UncoveredByGate, InvalidPlan).(plan := stored)
        else
          FailedAt(i).st.(status := Blocked, failedNode := Some(ExecutorNode), failure := Some(ChildFailure(FailureOf(i))));
      Config(BundleNode, st, PerformedAt(i).calls, 6 + 3 * i)
    }

    /** The first step from i on that does not pass; the number of steps if all do. */
    function FirstStop(i: nat): (m: nat)
      requires i <= |steps|
      ensures i <= m <= |steps|
      ensures forall j: nat | i <= j < m :: Passed(j)
      ensures m < |steps| ==> !Passed(m)
      decreases |steps| - i
    {
      if i < |steps| && Passed(i) then FirstStop(i + 1) else i
    }

    /** Where the executor hands over to the final bundle. */
    function Last(): Config {
      if FirstStop(0) == |steps| then Finished() else StoppedAt(FirstStop(0))
    }
  }

  /*** What is assumed of the environment ***/

  /** A successful child reports the step it was given. */
  predicate Echoes(step: Step, child: ChildOutput) {
    var r := ResultFor(step, child);
    r.Some? && r.value.status.Success? ==>
      && (r.value.stepId == "" || r.value.stepId == step.id)
      && (r.value.stepType == "" || r.value.stepType == StepTypeName(step.stepType))
  }

  ghost predicate EchoesAt(r: Run, j: nat)
    requires j < |r.steps|
  {
    r.env.child(j).Some? ==> Echoes(r.steps[j], r.env.child(j).value)
  }

  ghost predicate Echoing(r: Run) {
    forall j: nat | j < |r.steps| :: EchoesAt(r, j)
  }

  /** The run gets past the planner. */
  ghost predicate PastPlanner(r: Run) {
    && r.env.input.InputOk?
    && r.env.planner == Answer(r.raw)
    && Planner(FRESH_STATE, r.env.planner) == Some(FRESH_STATE.(plan := r.raw, status := Planned))
  }

  /** Validation makes the same of the planner's answer and of what it has made of it before. */
  ghost predicate Settled(r: Run) {
    && r.env.validate(r.raw) == Accepted(Checked(r.plan, r.stored))
    && r.env.validate(r.stored) == Accepted(Checked(r.plan, r.stored))
  }

  ghost predicate AcceptedRun(r: Run) {
    PastPlanner(r) && Settled(r) && r.stored == PlanJson(r.plan)
  }

  /*** What acceptance gives ***/

  /** The executable steps of an accepted plan, in the form the run needs. */
  ghost predicate Schedule(plan: Plan, steps: seq<Step>) {
    && steps == ExecutableSteps(plan)
    && 1 <= |steps| < MAX_RUNTIME_STEPS
    && (forall i | 0 <= i < |steps| :: steps[i].Executable())
    && Distinct(Ids(steps))
    && (forall i | 0 <= i < |steps| :: ToSet(steps[i].dependsOn) <= ToSet(Ids(steps[..i])))
    && Distinct(Claims(steps))
    && ToSet(Claims(steps)) == ToSet(ObligationIds(plan.obligations))
    && (forall i | 0 <= i < |steps| && steps[i].stepType.Sql? :: FindSqlStep(plan.steps, steps[i].id) == Some(steps[i]))
  }

  lemma {:induction false} AllExecutable(steps: seq<Step>)
    requires forall i | 0 <= i < |steps| :: steps[i].Executable()
    ensures Keep(steps, (s: Step) => s.Executable()) == steps
    ensures Claimed(steps) == Claims(steps)
  {
    if steps != [] {
      AllExecutable(steps[1..]);
    }
  }

  lemma {:induction false} FinalDropped(steps: seq<Step>)
    requires steps != [] && !steps[|steps| - 1].Executable()
    requires forall i | 0 <= i < |steps| - 1 :: steps[i].Executable()
    ensures Keep(steps, (s: Step) => s.Executable()) == steps[..|steps| - 1]
    ensures Claimed(steps) == Claims(steps[..|steps| - 1])
  {
    if |steps| > 1 {
      FinalDropped(steps[1..]);
      var rest := steps[1..][..|steps| - 2];
      assert steps[..|steps| - 1] == [steps[0]] + rest;
      assert steps[..|steps| - 1][1..] == rest;
    }
  }

  lemma {:induction false} FindSqlStepFinds(steps: seq<Step>, i: nat)
    requires i < |steps| && Distinct(Ids(steps)) && steps[i].stepType.Sql?
    ensures FindSqlStep(steps, steps[i].id) == Some(steps[i])
  {
    if i > 0 {
      assert Ids(steps)[0] != Ids(steps)[i];
      assert Ids(steps)[1..] == Ids(steps[1..]);
      DistinctCons(Ids(steps));
      FindSqlStepFinds(steps[1..], i - 1);
    }
  }

  lemma IdsOfPrefix(steps: seq<Step>, n: nat)
    requires n <= |steps| && Distinct(Ids(steps))
    ensures Ids(steps[..n]) == Ids(steps)[..n] && Distinct(Ids(steps[..n]))
  {
  }

  lemma ConsistentPlanHasSchedule(plan: Plan)
    requires Consistent(plan) && plan.obligations != [] && |plan.steps| <= MAX_RUNTIME_STEPS
    ensures Schedule(plan, ExecutableSteps(plan))
  {
    FinalStepIsLast(plan);
    var n := |plan.steps| - 1;
    var steps := plan.steps[..n];
    FinalDropped(plan.steps);
    IdsOfPrefix(plan.steps, n);
    forall i | 0 <= i < n
      ensures ToSet(steps[i].dependsOn) <= ToSet(Ids(steps[..i]))
    {
      assert steps[..i] == plan.steps[..i];
    }
    forall i | 0 <= i < n && steps[i].stepType.Sql?
      ensures FindSqlStep(plan.steps, steps[i].id) == Some(steps[i])
    {
      FindSqlStepFinds(plan.steps, i);
    }
    assert ObligationIds(plan.obligations)[0] in ToSet(Claims(steps));
  }

  lemma AcceptedPlanHasSchedule(raw: Json, plan: Plan)
    requires Validated(raw) == Accepted(plan)
    ensures Schedule(plan, ExecutableSteps(plan))
  {
    ValidatorIsExact(raw);
    ShapedPlanIsWellTyped(raw);
    ConsistentPlanHasSchedule(plan);
  }

  /*** One visit at a time ***/

  lemma PassedIsAnswered(r: Run, i: nat)
    requires i <= |r.steps| && r.AllPassed(i)
    ensures r.AllAnswered(i)
  {
    forall j: nat | j < i
      ensures r.Answered(j)
    {
      assert r.Passed(j);
    }
  }

  /** Not completed, and all that it waits for is. */
  ghost predicate ReadyAt(steps: seq<Step>, completed: set<string>, i: nat) {
    i < |steps| && steps[i].id !in completed && forall d | d in steps[i].dependsOn :: d in completed
  }

  ghost predicate FirstReady(steps: seq<Step>, completed: set<string>, i: nat) {
    ReadyAt(steps, completed, i) && forall j: nat | j < i :: !ReadyAt(steps, completed, j)
  }

  /** Whatever is completed, the ready-scan finds the first step that is ready, if there is one. */
  lemma {:induction false} ScanIsExact(steps: seq<Step>, completed: set<string>)
    ensures ReadyScan(steps, completed).Some? ==>
      exists i: nat :: FirstReady(steps, completed, i) && steps[i] == ReadyScan(steps, completed).value
    ensures ReadyScan(steps, completed).None? ==> forall i: nat :: !ReadyAt(steps, completed, i)
  {
    if steps != [] {
      var rest := steps[1..];
      ScanIsExact(rest, completed);
      forall i: nat | 0 < i < |steps|
        ensures ReadyAt(steps, completed, i) <==> ReadyAt(rest, completed, i - 1)
      {
        assert steps[i] == rest[i - 1];
      }
      if ReadyAt(steps, completed, 0) {
        assert FirstReady(steps, completed, 0);
      } else if ReadyScan(rest, completed).Some? {
        var i: nat :| FirstReady(rest, completed, i) && rest[i] == ReadyScan(rest, completed).value;
        assert steps[i + 1] == rest[i];
        assert FirstReady(steps, completed, i + 1);
      }
    }
  }

  /** What is chosen when no step is ready. */
  lemma ChoiceIsExact(plan: Plan, completed: seq<string>, covered: seq<string>)
    ensures var steps := ExecutableSteps(plan);
      var next := ChooseNext(plan, completed, covered);
      && (next.RunStep? <==> exists i: nat :: ReadyAt(steps, ToSet(completed), i))
      && (next.RunStep? ==> exists i: nat :: FirstReady(steps, ToSet(completed), i) && next.step == steps[i])
      && (next.NothingReady? ==> exists s :: s in steps && s.id !in completed)
      && (next.AllDone? || next.Uncovered? ==> forall s | s in steps :: s.id in completed)
      && (next.AllDone? ==> forall o | o in plan.obligations :: o.id in covered)
      && (next.Uncovered? ==> ToSet(covered) != set o | o in plan.obligations :: o.id)
  {
    var steps := ExecutableSteps(plan);
    ScanIsExact(steps, ToSet(completed));
    IdsOfObligations(plan.obligations);
    var open := ToSet(Ids(steps)) - ToSet(completed);
    forall s | s in steps && s.id !in completed
      ensures open != {}
    {
      var i :| 0 <= i < |steps| && steps[i] == s;
      assert Ids(steps)[i] in open;
    }
    if id :| id in open {
      var i :| 0 <= i < |steps| && Ids(steps)[i] == id;
      assert steps[i] in steps;
    }
    assert forall o | o in plan.obligations :: o.id in ToSet(ObligationIds(plan.obligations));
  }

  lemma IdsOfObligations(obligations: seq<Obligation>)
    ensures ToSet(ObligationIds(obligations)) == set o | o in obligations :: o.id
  {
    forall o | o in obligations
      ensures o.id in ObligationIds(obligations)
    {
      var i :| 0 <= i < |obligations| && obligations[i] == o;
      assert ObligationIds(obligations)[i] == o.id;
    }
    forall id | id in ObligationIds(obligations)
      ensures exists o :: o in obligations && o.id == id
    {
      var i :| 0 <= i < |obligations| && ObligationIds(obligations)[i] == id;
      assert obligations[i] in obligations;
    }
  }

  /** The ready-scan picks the first incomplete step. */
  lemma {:induction false} ScanPicksFirst(steps: seq<Step>, i: nat, h: nat)
    requires h <= i <= |steps| && Distinct(Ids(steps))
    requires forall n | 0 <= n < |steps| :: ToSet(steps[n].dependsOn) <= ToSet(Ids(steps[..n]))
    ensures ReadyScan(steps[h..], ToSet(Ids(steps[..i]))) == if i < |steps| then Some(steps[i]) else None
    decreases i - h
  {
    var completed := ToSet(Ids(steps[..i]));
    if h < i {
      assert Ids(steps[..i])[h] == steps[h].id;
      assert steps[h..][1..] == steps[h + 1..];
      ScanPicksFirst(steps, i, h + 1);
    } else if i < |steps| {
      forall n | 0 <= n < i
        ensures Ids(steps[..i])[n] != steps[i].id
      {
        assert Ids(steps)[n] != Ids(steps)[i];
      }
      assert ToSet(steps[i].dependsOn) <= completed;
      assert forall d | d in steps[i].dependsOn :: d in ToSet(steps[i].dependsOn);
    }
  }

  lemma NextIsTheNextStep(plan: Plan, steps: seq<Step>, i: nat)
    requires Schedule(plan, steps) && i <= |steps|
    ensures ChooseNext(plan, Ids(steps[..i]), Claims(steps[..i])) == if i < |steps| then RunStep(steps[i]) else AllDone
  {
    assert steps[0..] == steps;
    ScanPicksFirst(steps, i, 0);
    assert steps[..|steps|] == steps;
  }

  lemma {:induction false} ExtendIsAppend(covered: seq<string>, ids: seq<string>)
    requires Distinct(covered + ids)
    ensures ExtendUnique(covered, ids) == covered + ids
    decreases |ids|
  {
    if ids == [] {
      assert covered + ids == covered;
    } else {
      assert covered + ids == (covered + [ids[0]]) + ids[1..];
      DistinctAppend(covered, ids);
      assert ids[0] in ToSet(ids);
      ExtendIsAppend(covered + [ids[0]], ids[1..]);
    }
  }

  lemma ClaimsGrow(steps: seq<Step>, i: nat)
    requires i < |steps| && Distinct(Claims(steps))
    ensures Claims(steps[..i + 1]) == Claims(steps[..i]) + steps[i].obligationIds
    ensures ExtendUnique(Claims(steps[..i]), steps[i].obligationIds) == Claims(steps[..i + 1])
  {
    ConcatNext(steps, i, ClaimsOf);
    assert steps == steps[..i + 1] + steps[i + 1..];
    ConcatAppend(steps[..i + 1], steps[i + 1..], ClaimsOf);
    DistinctAppend(Claims(steps[..i + 1]), Claims(steps[i + 1..]));
    ExtendIsAppend(Claims(steps[..i]), steps[i].obligationIds);
  }

  lemma LastResult(r: Run, i: nat)
    requires 0 < i <= |r.steps| && Echoing(r) && r.Answered(i - 1)
    ensures |r.Results(i)| == i
    ensures var last := r.Results(i)[i - 1];
      && last.stepId == r.steps[i - 1].id
      && last.stepType == StepTypeName(r.steps[i - 1].stepType)
      && last.status.Success?
      && last.output == r.Result(i - 1).output
  {
    assert EchoesAt(r, i - 1);
  }

  /** What the coverage check makes of a last result that is a success of the given step. */
  lemma CoverageOfLast(
    results: seq<StepResult>, plan: Plan, covered: seq<string>, gate: Output -> Option<GateReason>, step: Step)
    requires results != []
    requires var last := results[|results| - 1];
      last.stepId == step.id && last.stepType == StepTypeName(step.stepType) && last.status.Success?
    requires step.stepType.Sql? ==> FindSqlStep(plan.steps, step.id) == Some(step)
    ensures SqlCoverage(results, plan, covered, gate) ==
      if !step.stepType.Sql? then NotSql
      else if gate(results[|results| - 1].output).Some? then GateClosed
      else Credited(ExtendUnique(covered, step.obligationIds))
  {
  }

  lemma CoverageAtEntry(r: Run, i: nat)
    requires i <= |r.steps| && Echoing(r) && Scheduled(r) && (i > 0 ==> r.Answered(i - 1))
    ensures var cov := SqlCoverage(r.Results(i), r.plan, CoveredAtEntry(r.steps, i), r.env.gate);
      if i == 0 || !r.steps[i - 1].stepType.Sql? then cov == NotSql && CoveredAtEntry(r.steps, i) == Claims(r.steps[..i])
      else if r.env.gate(r.Result(i - 1).output).None? then cov == Credited(Claims(r.steps[..i]))
      else cov == GateClosed
  {
    if i > 0 {
      LastResult(r, i);
      assert ClaimFact(r, i - 1);
      CoverageOfLast(r.Results(i), r.plan, CoveredAtEntry(r.steps, i), r.env.gate, r.steps[i - 1]);
    }
  }

  /** The executor goes on with the coverage that the last result has earned. */
  lemma ExecuteGoesOn(s: State, checked: Checked, gate: Output -> Option<GateReason>, covered: seq<string>)
    requires s.results != [] ==> s.results[|s.results| - 1].status.Success?
    requires var earned := SqlCoverage(s.results, checked.plan, s.covered, gate);
      (earned == NotSql && s.covered == covered) || earned == Credited(covered)
    ensures ExecuteOn(s, checked, gate) ==
      ApplyNext(s, ChooseNext(checked.plan, s.completed, covered)).(covered := covered, plan := checked.normalized)
  {
  }

  lemma EntryCoverage(r: Run, i: nat)
    requires i <= |r.steps| && Echoing(r) && Scheduled(r) && (i > 0 ==> r.Passed(i - 1))
    ensures var entered := CoveredAtEntry(r.steps, i);
      var earned := SqlCoverage(r.Results(i), r.plan, entered, r.env.gate);
      (earned == NotSql && entered == Claims(r.steps[..i])) || earned == Credited(Claims(r.steps[..i]))
    ensures i > 0 ==> |r.Results(i)| == i && r.Results(i)[i - 1].status.Success?
  {
    CoverageAtEntry(r, i);
    if i > 0 {
      LastResult(r, i);
    }
  }

  lemma EntryExecuted(r: Run, i: nat)
    requires i <= |r.steps| && Echoing(r) && Scheduled(r) && (i > 0 ==> r.Passed(i - 1))
    ensures ExecuteOn(r.Entry(i).st, Checked(r.plan, r.stored), r.env.gate) == if i < |r.steps| then r.Dispatched(i).st else r.Finished().st
  {
    EntryCoverage(r, i);
    assert NextFact(r, i);
    ExecuteGoesOn(r.Entry(i).st, Checked(r.plan, r.stored), r.env.gate, Claims(r.steps[..i]));
    assert r.steps[..|r.steps|] == r.steps;
  }

  /** The plan is validated again at every visit, and is the same plan each time. */
  lemma ExecutorSeesThePlan(r: Run, i: nat)
    requires i <= |r.steps| && Settled(r)
    ensures Executor(r.Entry(i).st, r.env.validate, r.env.gate) ==
      Some(ExecuteOn(r.Entry(i).st, Checked(r.plan, r.stored), r.env.gate))
  {
  }

  lemma AdvanceExecutor(env: Env, c: Config, st: State)
    requires c.node.ExecutorNode? && Executor(c.st, env.validate, env.gate) == Some(st)
    ensures Advance(env, c) == Visit(c, AfterExecutor(st), st)
  {
  }

  lemma ExecutorMovesOn(r: Run, i: nat)
    requires i <= |r.steps| && Settled(r) && Echoing(r) && Scheduled(r) && (i > 0 ==> r.Passed(i - 1))
    ensures Advance(r.env, r.Entry(i)) == if i < |r.steps| then r.Dispatched(i) else r.Finished()
  {
    ExecutorSeesThePlan(r, i);
    EntryExecuted(r, i);
    AdvanceExecutor(r.env, r.Entry(i), ExecuteOn(r.Entry(i).st, Checked(r.plan, r.stored), r.env.gate));
  }

  lemma {:induction false} ContextKeys(r: Run, i: nat)
    requires i <= |r.steps|
    ensures r.ContextAfter(i).Keys == ToSet(Ids(r.steps[..i]))
  {
    if i > 0 {
      ContextKeys(r, i - 1);
      assert Ids(r.steps[..i]) == Ids(r.steps[..i - 1]) + [r.steps[i - 1].id];
    }
  }

  lemma {:induction false} ContextValue(r: Run, i: nat, h: nat)
    requires h < i <= |r.steps| && Distinct(Ids(r.steps))
    ensures r.steps[h].id in r.ContextAfter(i) && r.ContextAfter(i)[r.steps[h].id] == r.Result(h).output
  {
    if h < i - 1 {
      ContextValue(r, i - 1, h);
      assert Ids(r.steps)[h] != Ids(r.steps)[i - 1];
    }
  }

  lemma ContextHolds(r: Run, i: nat)
    requires i <= |r.steps| && Distinct(Ids(r.steps))
    ensures r.ContextAfter(i).Keys == ToSet(Ids(r.steps[..i]))
    ensures forall h: nat | h < i ::
      r.steps[h].id in r.ContextAfter(i) && r.ContextAfter(i)[r.steps[h].id] == r.Result(h).output
  {
    ContextKeys(r, i);
    forall h: nat | h < i
      ensures r.steps[h].id in r.ContextAfter(i) && r.ContextAfter(i)[r.steps[h].id] == r.Result(h).output
    {
      ContextValue(r, i, h);
    }
  }

  lemma {:induction false} ScopedIsRestriction(available: map<string, Output>, completed: set<string>, dependsOn: seq<string>)
    requires ToSet(dependsOn) <= completed && ToSet(dependsOn) <= available.Keys
    ensures ScopedContext(available, completed, dependsOn)
      == Some(Restricted(available, ToSet(dependsOn)))
  {
    if dependsOn != [] {
      var last := dependsOn[|dependsOn| - 1];
      var front := dependsOn[..|dependsOn| - 1];
      assert dependsOn == front + [last];
      assert last in ToSet(dependsOn);
      assert ToSet(dependsOn) == ToSet(front) + {last};
      assert Restricted(available, ToSet(dependsOn)) == Restricted(available, ToSet(front))[last := available[last]];
      ScopedIsRestriction(available, completed, front);
    }
  }

  /** The call hands over the output of every declared dependency and nothing else. */
  ghost predicate HandsOver(r: Run, call: Call, j: nat)
    requires j < |r.steps|
  {
    && call.step == r.steps[j]
    && call.context.Keys == ToSet(r.steps[j].dependsOn)
    && (forall h: nat | h < j && r.steps[h].id in call.context :: call.context[r.steps[h].id] == r.Result(h).output)
    && (forall d | d in r.steps[j].dependsOn :: d in Ids(r.steps[..j]))
  }

  /** Dependencies are earlier steps, so each has an output to hand over. */
  lemma DependenciesAreHandedOver(r: Run, j: nat)
    requires j < |r.steps| && Distinct(Ids(r.steps)) && ToSet(r.steps[j].dependsOn) <= ToSet(Ids(r.steps[..j]))
    ensures HandsOver(r, r.CallOf(j), j)
  {
    ContextHolds(r, j);
    forall d | d in r.steps[j].dependsOn
      ensures d in Ids(r.steps[..j])
    {
      assert d in ToSet(r.steps[j].dependsOn);
    }
  }

  lemma ObligationJsonId(o: Obligation)
    ensures ObligationJson(o).Obj? && Get(ObligationJson(o).fields, "obligation_id") == Str(o.id)
  {
  }

  lemma {:induction false} ScopedObligations(obligations: seq<Obligation>, ids: seq<string>)
    ensures Keep(ObligationsJson(obligations),
        (item: Json) => item.Obj? && Get(item.fields, "obligation_id").Str? && Get(item.fields, "obligation_id").s in ids)
      == ObligationsJson(Keep(obligations, (o: Obligation) => o.id in ids))
  {
    if obligations != [] {
      ObligationJsonId(obligations[0]);
      ScopedObligations(obligations[1..], ids);
      assert ObligationsJson(obligations)[1..] == ObligationsJson(obligations[1..]);
      var kept := Keep(obligations[1..], (o: Obligation) => o.id in ids);
      assert ObligationsJson([obligations[0]] + kept) == [ObligationJson(obligations[0])] + ObligationsJson(kept);
    }
  }

  lemma StepObligationsScoped(plan: Plan, ids: seq<string>)
    ensures StepObligations(PlanJson(plan), ids) == ObligationsJson(Keep(plan.obligations, (o: Obligation) => o.id in ids))
  {
    PlanOfFields(plan.obligations, StepsJson(plan.steps));
    ScopedObligations(plan.obligations, ids);
  }

  /** The next step after the first i. */
  ghost predicate NextFact(r: Run, i: nat)
    requires i <= |r.steps|
  {
    ChooseNext(r.plan, Ids(r.steps[..i]), Claims(r.steps[..i])) == if i < |r.steps| then RunStep(r.steps[i]) else AllDone
  }

  /** What completing step i adds to the coverage. */
  ghost predicate ClaimFact(r: Run, i: nat)
    requires i < |r.steps|
  {
    && r.steps[i].Executable()
    && ExtendUnique(Claims(r.steps[..i]), r.steps[i].obligationIds) == Claims(r.steps[..i + 1])
    && (r.steps[i].stepType.Sql? ==> FindSqlStep(r.plan.steps, r.steps[i].id) == Some(r.steps[i]))
  }

  /** What step i is given. */
  ghost predicate ScopeFact(r: Run, i: nat)
    requires i < |r.steps|
  {
    && ScopedContext(r.ContextAfter(i), ToSet(Ids(r.steps[..i])), r.steps[i].dependsOn)
        == Some(Restricted(r.ContextAfter(i), ToSet(r.steps[i].dependsOn)))
    && StepObligations(r.stored, r.steps[i].obligationIds)
        == ObligationsJson(Keep(r.plan.obligations, (o: Obligation) => o.id in r.steps[i].obligationIds))
  }

  /** The facts about single steps that the visits rely on. */
  ghost predicate Scheduled(r: Run) {
    && (forall i: nat | i <= |r.steps| :: NextFact(r, i))
    && (forall i: nat | i < |r.steps| :: ClaimFact(r, i))
    && (forall i: nat | i < |r.steps| :: ScopeFact(r, i))
  }

  lemma NextFactHolds(r: Run, i: nat)
    requires i <= |r.steps| && Schedule(r.plan, r.steps)
    ensures NextFact(r, i)
  {
    NextIsTheNextStep(r.plan, r.steps, i);
  }

  lemma ClaimFactHolds(r: Run, i: nat)
    requires i < |r.steps| && Schedule(r.plan, r.steps)
    ensures ClaimFact(r, i)
  {
    ClaimsGrow(r.steps, i);
  }

  lemma ScopeFactHolds(r: Run, i: nat)
    requires i < |r.steps| && r.stored == PlanJson(r.plan) && Distinct(Ids(r.steps))
    requires ToSet(r.steps[i].dependsOn) <= ToSet(Ids(r.steps[..i]))
    ensures ScopeFact(r, i)
  {
    ContextHolds(r, i);
    ScopedIsRestriction(r.ContextAfter(i), ToSet(Ids(r.steps[..i])), r.steps[i].dependsOn);
    StepObligationsScoped(r.plan, r.steps[i].obligationIds);
  }

  lemma ScheduleHolds(r: Run)
    requires Schedule(r.plan, r.steps) && r.stored == PlanJson(r.plan)
    ensures Scheduled(r)
  {
    forall i: nat | i <= |r.steps|
      ensures NextFact(r, i)
    {
      NextFactHolds(r, i);
    }
    forall i: nat | i < |r.steps|
      ensures ClaimFact(r, i) && ScopeFact(r, i)
    {
      ClaimFactHolds(r, i);
      ScopeFactHolds(r, i);
    }
  }

  lemma PerformScopes(r: Run, i: nat)
    requires i < |r.steps| && Scheduled(r)
    ensures Perform(r.Dispatched(i).st, r.Calls(i), r.env.child) ==
      if r.Raised(i) then Performed(r.Dispatched(i).st, r.RaisedAt(i).calls, true)
      else Performed(r.PerformedAt(i).st, r.PerformedAt(i).calls, false)
  {
    assert ScopeFact(r, i) && ClaimFact(r, i);
    HistoryGrows(r, i);
  }

  lemma AdvancePerform(env: Env, c: Config)
    requires c.node.PerformNode?
    ensures var p := Perform(c.st, c.calls, env.child);
      Advance(env, c) == Config(if p.raised then CrashNode else NormalizerNode, p.st, p.calls, c.visits + 1)
  {
  }

  lemma PerformMovesOn(r: Run, i: nat)
    requires i < |r.steps| && Scheduled(r)
    ensures Advance(r.env, r.Dispatched(i)) == if r.Raised(i) then r.RaisedAt(i) else r.PerformedAt(i)
  {
    PerformScopes(r, i);
    AdvancePerform(r.env, r.Dispatched(i));
  }

  lemma AdvanceNormalizer(env: Env, c: Config)
    requires c.node.NormalizerNode?
    ensures Advance(env, c) == Visit(c, ExecutorNode, Normalizer(c.st))
  {
  }

  lemma HistoryGrows(r: Run, i: nat)
    requires i < |r.steps|
    ensures Ids(r.steps[..i + 1]) == Ids(r.steps[..i]) + [r.steps[i].id]
    ensures r.Results(i + 1) == r.Results(i) + [NormalizeResult(r.steps[i], r.Result(i))]
    ensures r.Calls(i + 1) == r.Calls(i) + [r.CallOf(i)]
    ensures r.ContextAfter(i + 1) == r.ContextAfter(i)[r.steps[i].id := r.Result(i).output]
  {
  }

  lemma SuccessRecorded(r: Run, i: nat)
    requires i < |r.steps| && Scheduled(r) && r.Answered(i)
    ensures RecordSuccess(r.PerformedAt(i).st, r.steps[i], NormalizeResult(r.steps[i], r.Result(i))) == r.Entry(i + 1).st
  {
    assert ClaimFact(r, i);
    HistoryGrows(r, i);
  }

  /** An answered step leads to the next executor visit. */
  lemma NormalizerMovesOn(r: Run, i: nat)
    requires i < |r.steps| && Scheduled(r) && r.Answered(i)
    ensures Advance(r.env, r.PerformedAt(i)) == r.Entry(i + 1)
  {
    AdvanceNormalizer(r.env, r.PerformedAt(i));
    SuccessRecorded(r, i);
  }

  lemma NormalizerGivesUp(r: Run, i: nat)
    requires i < |r.steps| && !r.Answered(i) && !r.Raised(i)
    ensures Advance(r.env, r.PerformedAt(i)) == r.FailedAt(i)
  {
    AdvanceNormalizer(r.env, r.PerformedAt(i));
  }

  lemma ExecutorGivesUp(r: Run, i: nat)
    requires i < |r.steps| && Settled(r) && !r.Answered(i) && !r.Raised(i)
    ensures Advance(r.env, r.FailedAt(i)) == r.StoppedAt(i)
  {
    var st := r.FailedAt(i).st;
    if Blank(r.steps[i].goal) {
      AdvanceExecutor(r.env, r.FailedAt(i), st);
    } else {
      var stopped := ExecuteOn(st, Checked(r.plan, r.stored), r.env.gate);
      assert Executor(st, r.env.validate, r.env.gate) == Some(stopped);
      AdvanceExecutor(r.env, r.FailedAt(i), stopped);
    }
  }

  lemma ExecuteStops(s: State, checked: Checked, gate: Output -> Option<GateReason>)
    requires s.results != [] && s.results[|s.results| - 1].status.Success?
    requires SqlCoverage(s.results, checked.plan, s.covered, gate).GateClosed?
    ensures ExecuteOn(s, checked, gate) ==
      Fail(s, ExecutorNode, UncoveredByGate, InvalidPlan).(plan := checked.normalized)
  {
  }

  lemma GateStops(r: Run, i: nat)
    requires i < |r.steps| && Echoing(r) && Scheduled(r) && r.Answered(i) && !r.Passed(i)
    ensures ExecuteOn(r.Entry(i + 1).st, Checked(r.plan, r.stored), r.env.gate) ==
      Fail(r.Entry(i + 1).st, ExecutorNode, UncoveredByGate, InvalidPlan).(plan := r.stored)
  {
    CoverageAtEntry(r, i + 1);
    LastResult(r, i + 1);
    ExecuteStops(r.Entry(i + 1).st, Checked(r.plan, r.stored), r.env.gate);
  }

  lemma GateCloses(r: Run, i: nat)
    requires i < |r.steps| && Settled(r) && Echoing(r) && Scheduled(r) && r.Answered(i) && !r.Passed(i)
    ensures Advance(r.env, r.Entry(i + 1)) == r.StoppedAt(i)
  {
    GateStops(r, i);
    ExecutorSeesThePlan(r, i + 1);
    AdvanceExecutor(r.env, r.Entry(i + 1), Fail(r.Entry(i + 1).st, ExecutorNode, UncoveredByGate, InvalidPlan).(plan := r.stored));
  }

  /*** The whole run ***/

  /** Some dispatched child raises. */
  predicate ChildRaises(r: Run) {
    var m := r.FirstStop(0);
    m < |r.steps| && r.Raised(m)
  }

  /** The results that the run leaves for the bundle; none if the engine itself has refused a step. */
  function ResultsToBundle(r: Run): seq<StepResult> {
    var m := r.FirstStop(0);
    if m == |r.steps| then r.Results(m)
    else if Blank(r.steps[m].goal) || r.Answered(m) then []
    else r.Results(m) + [r.FailureOf(m)]
  }

  /** A result reaches the bundle whose columns can be neither ignored nor iterated. */
  predicate BundleRaises(r: Run) {
    AnyColumnsRaise(ResultsToBundle(r))
  }

  /** The points of the trajectory. */
  datatype Point =
    | Starting | Planning
    | Entering(i: nat) | Dispatching(i: nat) | Performing(i: nat) | Failing(i: nat) | Raising(i: nat)
    | Closing | Breaking | Adapting | Ending

  /** The points that the run can come to. */
  ghost predicate Reachable(r: Run, p: Point) {
    match p
    case Entering(i) => i <= |r.steps| && (i > 0 ==> r.AllPassed(i - 1) && r.Answered(i - 1))
    case Dispatching(i) => i < |r.steps| && r.AllPassed(i)
    case Performing(i) => i < |r.steps| && r.AllPassed(i) && !r.Raised(i)
    case Failing(i) => i < |r.steps| && r.AllPassed(i) && !r.Raised(i) && !r.Answered(i)
    case Raising(i) => i < |r.steps| && r.AllPassed(i) && r.Raised(i)
    case Closing => !ChildRaises(r)
    case Breaking => !ChildRaises(r) && BundleRaises(r)
    case Adapting => !ChildRaises(r) && !BundleRaises(r)
    case Ending => !ChildRaises(r) && !BundleRaises(r)
    case _ => true
  }

  /** The configuration of the engine at a point. */
  ghost function Place(r: Run, p: Point): Config
    requires Reachable(r, p)
  {
    match p
    case Starting => START
    case Planning => Config(PlannerNode, FRESH_STATE, [], 1)
    case Entering(i) => r.Entry(i)
    case Dispatching(i) => r.Dispatched(i)
    case Performing(i) => r.PerformedAt(i)
    case Failing(i) => r.FailedAt(i)
    case Raising(i) => r.RaisedAt(i)
    case _ => ClosingPlace(r.Last(), p)
  }

  function ClosingPlace(last: Config, p: Point): Config {
    match p
    case Breaking => Broken(last)
    case Adapting => Bundled(last)
    case Ending => Adapted(last)
    case _ => last
  }

  function Broken(c: Config): Config {
    Visit(c, CrashNode, c.st)
  }

  function Bundled(c: Config): Config {
    Visit(c, AdapterNode, WithBundle(c.st))
  }

  function Adapted(c: Config): Config {
    Config(EndNode, WithToolResult(WithBundle(c.st)), c.calls, c.visits + 2)
  }

  /** The point after a point: steps go on while they pass. */
  ghost function Following(r: Run, p: Point): (q: Point)
    requires Reachable(r, p)
    ensures Reachable(r, q)
  {
    match p
    case Starting => Planning
    case Planning => Entering(0)
    case Entering(i) =>
      if i > 0 && !r.Passed(i - 1) then
        FirstStopIs(r, i - 1);
        Closing
      else if i < |r.steps| then Dispatching(i)
      else
        FirstStopIs(r, i);
        Closing
    case Dispatching(i) => if r.Raised(i) then Raising(i) else Performing(i)
    case Performing(i) => if r.Answered(i) then Entering(i + 1) else Failing(i)
    case Failing(i) =>
      FirstStopIs(r, i);
      Closing
    case Raising(i) => p
    case Closing => if BundleRaises(r) then Breaking else Adapting
    case Breaking => Breaking
    case Adapting => Ending
    case Ending => Ending
  }

  lemma FirstStopIs(r: Run, i: nat)
    requires i <= |r.steps| && r.AllPassed(i) && (i < |r.steps| ==> !r.Passed(i))
    ensures r.FirstStop(0) == i
  {
  }

  lemma FirstVisits(r: Run)
    requires PastPlanner(r)
    ensures Advance(r.env, START) == Config(PlannerNode, FRESH_STATE, [], 1)
    ensures Advance(r.env, Config(PlannerNode, FRESH_STATE, [], 1)) == r.Entry(0)
  {
    assert Ids(r.steps[..0]) == [] && r.Results(0) == [] && r.Calls(0) == [];
  }

  /** The results that the last two nodes look at. */
  function Presented(s: State): seq<StepResult> {
    if s.bundle.Some? then s.bundle.value.outputs else s.results
  }

  lemma LastVisits(env: Env, c: Config)
    requires c.node.BundleNode? && !AnyColumnsRaise(Presented(c.st))
    ensures Advance(env, c) == Bundled(c) && Advance(env, Bundled(c)) == Adapted(c) && Advance(env, Adapted(c)) == Adapted(c)
  {
  }

  lemma BrokenVisit(env: Env, c: Config)
    requires c.node.BundleNode? && c.st.bundle.None? && AnyColumnsRaise(c.st.results)
    ensures Advance(env, c) == Broken(c) && Advance(env, Broken(c)) == Broken(c)
  {
  }

  /** The run hands over what is left for the bundle, or an empty bundle of its own. */
  lemma LastPresents(r: Run)
    ensures Presented(r.Last().st) == ResultsToBundle(r)
    ensures r.Last().st.bundle.Some? ==> ResultsToBundle(r) == []
  {
  }

  /** Where the executor goes from the first i steps. */
  ghost predicate ExecutorMoves(r: Run, next: Config -> Config, i: nat)
    requires i <= |r.steps|
  {
    if i > 0 && !r.Passed(i - 1) then r.Answered(i - 1) ==> next(r.Entry(i)) == r.StoppedAt(i - 1)
    else next(r.Entry(i)) == if i < |r.steps| then r.Dispatched(i) else r.Finished()
  }

  /** Where the other visits of step i go. */
  ghost predicate StepMoves(r: Run, next: Config -> Config, i: nat)
    requires i < |r.steps|
  {
    if r.Raised(i) then next(r.Dispatched(i)) == r.RaisedAt(i) && next(r.RaisedAt(i)) == r.RaisedAt(i)
    else
      && next(r.Dispatched(i)) == r.PerformedAt(i)
      && next(r.PerformedAt(i)) == (if r.Answered(i) then r.Entry(i + 1) else r.FailedAt(i))
      && (!r.Answered(i) ==> next(r.FailedAt(i)) == r.StoppedAt(i))
  }

  /** Where the nodes before the loop go. */
  ghost predicate OpeningMoves(r: Run, next: Config -> Config) {
    && next(START) == Config(PlannerNode, FRESH_STATE, [], 1)
    && next(Config(PlannerNode, FRESH_STATE, [], 1)) == r.Entry(0)
  }

  /** Where the nodes after the loop go. */
  ghost predicate ClosingMoves(next: Config -> Config, last: Config, raises: bool) {
    if raises then next(last) == Broken(last) && next(Broken(last)) == Broken(last)
    else next(last) == Bundled(last) && next(Bundled(last)) == Adapted(last) && next(Adapted(last)) == Adapted(last)
  }

  ghost predicate Moves(r: Run, next: Config -> Config) {
    && OpeningMoves(r, next)
    && ClosingMoves(next, r.Last(), BundleRaises(r))
    && (forall i: nat | i <= |r.steps| :: ExecutorMoves(r, next, i))
    && (forall i: nat | i < |r.steps| :: StepMoves(r, next, i))
  }

  lemma ExecutorMovesSo(r: Run, i: nat)
    requires i <= |r.steps| && Settled(r) && Echoing(r) && Scheduled(r)
    ensures ExecutorMoves(r, Visits(r.env), i)
  {
    if i == 0 || r.Passed(i - 1) {
      ExecutorMovesOn(r, i);
    } else if r.Answered(i - 1) {
      GateCloses(r, i - 1);
    }
  }

  lemma StepMovesSo(r: Run, i: nat)
    requires i < |r.steps| && Settled(r) && Scheduled(r)
    ensures StepMoves(r, Visits(r.env), i)
  {
    PerformMovesOn(r, i);
    if r.Raised(i) {
    } else if r.Answered(i) {
      NormalizerMovesOn(r, i);
    } else {
      NormalizerGivesUp(r, i);
      ExecutorGivesUp(r, i);
    }
  }

  lemma OpeningMovesSo(r: Run)
    requires PastPlanner(r)
    ensures OpeningMoves(r, Visits(r.env))
  {
    FirstVisits(r);
  }

  lemma ClosingMovesSo(r: Run)
    ensures ClosingMoves(Visits(r.env), r.Last(), BundleRaises(r))
  {
    LastCloses(r);
    LastPresents(r);
    if BundleRaises(r) {
      BrokenVisit(r.env, r.Last());
    } else {
      LastVisits(r.env, r.Last());
    }
  }

  lemma EngineMoves(r: Run)
    requires AcceptedRun(r) && Echoing(r) && Schedule(r.plan, r.steps)
    ensures Moves(r, Visits(r.env))
  {
    ScheduleHolds(r);
    OpeningMovesSo(r);
    ClosingMovesSo(r);
    forall i: nat | i <= |r.steps|
      ensures ExecutorMoves(r, Visits(r.env), i)
    {
      ExecutorMovesSo(r, i);
    }
    forall i: nat | i < |r.steps|
      ensures StepMoves(r, Visits(r.env), i)
    {
      StepMovesSo(r, i);
    }
  }

  /** Where the steps end is where the run is handed over. */
  lemma LastIs(r: Run, i: nat)
    requires i <= |r.steps| && r.AllPassed(i) && (i < |r.steps| ==> !r.Passed(i))
    ensures r.Last() == if i < |r.steps| then r.StoppedAt(i) else r.Finished()
    ensures r.Last().node.BundleNode?
  {
    FirstStopIs(r, i);
  }

  lemma LastCloses(r: Run)
    ensures r.Last().node.BundleNode?
  {
  }

  lemma EntryFollows(r: Run, next: Config -> Config, i: nat)
    requires i <= |r.steps| && ExecutorMoves(r, next, i) && Reachable(r, Entering(i))
    ensures next(r.Entry(i)) == Place(r, Following(r, Entering(i)))
  {
    if i > 0 && !r.Passed(i - 1) {
      LastIs(r, i - 1);
    } else if i == |r.steps| {
      LastIs(r, i);
    }
  }

  lemma StepFollows(r: Run, next: Config -> Config, p: Point)
    requires (p.Dispatching? || p.Performing? || p.Failing? || p.Raising?) && Reachable(r, p) && StepMoves(r, next, p.i)
    ensures next(Place(r, p)) == Place(r, Following(r, p))
  {
    if p.Failing? {
      LastIs(r, p.i);
    }
  }

  lemma OpeningFollows(r: Run, next: Config -> Config, p: Point)
    requires (p.Starting? || p.Planning?) && OpeningMoves(r, next)
    ensures next(Place(r, p)) == Place(r, Following(r, p))
  {
  }

  lemma ClosingGoesOn(next: Config -> Config, last: Config, raises: bool, p: Point, q: Point)
    requires ClosingMoves(next, last, raises)
    requires p.Closing? || (p.Breaking? && raises) || ((p.Adapting? || p.Ending?) && !raises)
    requires q == if raises then Breaking else if p.Closing? then Adapting else Ending
    ensures next(ClosingPlace(last, p)) == ClosingPlace(last, q)
  {
  }

  lemma ClosingFollows(r: Run, next: Config -> Config, p: Point)
    requires (p.Closing? || p.Breaking? || p.Adapting? || p.Ending?) && Reachable(r, p)
    requires ClosingMoves(next, r.Last(), BundleRaises(r))
    ensures next(Place(r, p)) == Place(r, Following(r, p))
  {
    ClosingGoesOn(next, r.Last(), BundleRaises(r), p, Following(r, p));
  }

  /** Each visit goes from the place of a point to the place of the point after it. */
  lemma MovesFollow(r: Run, next: Config -> Config, p: Point)
    requires Moves(r, next) && Reachable(r, p)
    ensures next(Place(r, p)) == Place(r, Following(r, p))
  {
    match p
    case Entering(i) =>
      assert ExecutorMoves(r, next, i);
      EntryFollows(r, next, i);
    case Dispatching(i) =>
      assert StepMoves(r, next, i);
      StepFollows(r, next, p);
    case Performing(i) =>
      assert StepMoves(r, next, i);
      StepFollows(r, next, p);
    case Failing(i) =>
      assert StepMoves(r, next, i);
      StepFollows(r, next, p);
    case Raising(i) =>
      assert StepMoves(r, next, i);
      StepFollows(r, next, p);
    case Starting => OpeningFollows(r, next, p);
    case Planning => OpeningFollows(r, next, p);
    case _ => ClosingFollows(r, next, p);
  }

  lemma RunStaysOnTrajectory(r: Run, n: nat) returns (p: Point)
    requires AcceptedRun(r) && Echoing(r) && Schedule(r.plan, r.steps)
    ensures Reachable(r, p) && RunFor(r.env, n) == Place(r, p)
  {
    var next := Visits(r.env);
    EngineMoves(r);
    var place: Point -> Config := (q: Point) => if Reachable(r, q) then Place(r, q) else START;
    var good: Point -> bool := (q: Point) => Reachable(r, q);
    var after: Point -> Point := (q: Point) => if Reachable(r, q) then Following(r, q) else q;
    forall q | good(q)
      ensures good(after(q)) && next(place(q)) == place(after(q))
    {
      MovesFollow(r, next, q);
    }
    StepsAreMirrored(place, good, after, next, Starting, n);
    p := Iterate(after, Starting, n);
  }

  lemma {:induction false} VisitsAreCounted(env: Env, n: nat)
    ensures RunFor(env, n).visits <= n
    ensures RunFor(env, n).node.EndNode? || RunFor(env, n).node.CrashNode? || RunFor(env, n).visits == n
  {
    if n > 0 {
      VisitsAreCounted(env, n - 1);
    }
  }

  /** The steps that a run tries: up to and with the first that does not pass. */
  function Tried(r: Run): nat {
    var m := r.FirstStop(0);
    if m < |r.steps| then m + 1 else m
  }

  /** How many node visits a run takes: three for every step it tries, five around them, fewer if it raises. */
  function TotalVisits(r: Run): nat {
    if ChildRaises(r) then 3 * Tried(r) + 1
    else if BundleRaises(r) then 3 * Tried(r) + 4
    else 3 * Tried(r) + 5
  }

  /** Where the run ends, in closed form. */
  function EndOf(r: Run): Config {
    if ChildRaises(r) then r.RaisedAt(r.FirstStop(0))
    else if BundleRaises(r) then Broken(r.Last())
    else Adapted(r.Last())
  }

  predicate Raises(r: Run) {
    ChildRaises(r) || BundleRaises(r)
  }

  predicate Final(node: Node) {
    node.EndNode? || node.CrashNode?
  }

  lemma LastVisitCount(r: Run)
    ensures r.Last().node.BundleNode? && r.Last().visits == 3 * Tried(r) + 3
  {
  }

  lemma EndIsFinal(r: Run)
    ensures EndOf(r).node == (if Raises(r) then CrashNode else EndNode)
    ensures EndOf(r).visits == TotalVisits(r) <= 3 * |r.steps| + 5
  {
    LastVisitCount(r);
  }

  lemma ClosingPointsAreEarly(r: Run, last: Config, p: Point)
    requires last == r.Last() && Reachable(r, p)
    requires p.Closing? || p.Breaking? || p.Adapting? || p.Ending?
    ensures Final(ClosingPlace(last, p).node) ==> ClosingPlace(last, p) == EndOf(r)
    ensures !Final(ClosingPlace(last, p).node) ==> ClosingPlace(last, p).visits < 3 * |r.steps| + 5
  {
    LastVisitCount(r);
  }

  lemma StepPointsAreEarly(r: Run, p: Point)
    requires Reachable(r, p) && (p.Entering? || p.Dispatching? || p.Performing? || p.Failing? || p.Raising?)
    ensures Final(Place(r, p).node) <==> p.Raising?
    ensures Place(r, p).visits < 3 * |r.steps| + 5
  {
  }

  lemma PointsAreEarly(r: Run, p: Point)
    requires Reachable(r, p)
    ensures Final(Place(r, p).node) ==> Place(r, p) == EndOf(r)
    ensures !Final(Place(r, p).node) ==> Place(r, p).visits < 3 * |r.steps| + 5
  {
    match p
    case Starting =>
    case Planning =>
    case Raising(i) =>
      FirstStopIs(r, i);
    case Entering(_) => StepPointsAreEarly(r, p);
    case Dispatching(_) => StepPointsAreEarly(r, p);
    case Performing(_) => StepPointsAreEarly(r, p);
    case Failing(_) => StepPointsAreEarly(r, p);
    case _ => ClosingPointsAreEarly(r, r.Last(), p);
  }

  /**
   Every run over an accepted plan ends, after exactly TotalVisits node visits; it raises exactly
   if a dispatched child raises or the columns of a bundled result cannot be iterated.
   */
  lemma AcceptedRunEnds(r: Run)
    requires AcceptedRun(r) && Echoing(r) && Schedule(r.plan, r.steps)
    ensures var end := RunFor(r.env, 3 * |r.steps| + 5);
      && end == EndOf(r)
      && end.node == (if Raises(r) then CrashNode else EndNode)
      && end.visits == TotalVisits(r) <= 3 * |r.steps| + 5
  {
    var n := 3 * |r.steps| + 5;
    var p := RunStaysOnTrajectory(r, n);
    VisitsAreCounted(r.env, n);
    PointsAreEarly(r, p);
    EndIsFinal(r);
  }

  /** What holds at every point of the run. */
  ghost predicate Sound(r: Run, c: Config) {
    var done := |c.st.completed|;
    && done <= |r.steps|
    && c.st.completed == Ids(r.steps[..done])
    && |c.calls| <= |r.steps|
    && c.calls == r.Calls(|c.calls|)
    && (c.node.PerformNode? ==>
         done < |r.steps| && c.st.currentStep == Some(r.steps[done]) && c.st.covered == Claims(r.steps[..done]))
    && (c.st.status.Complete? ==> c.st.completed == Ids(r.steps) && c.st.covered == Claims(r.steps))
    && (c.visits >= 3 ==> c.st.plan == r.stored)
  }

  lemma StopsAreSound(r: Run, i: nat)
    requires i < |r.steps|
    ensures Sound(r, r.StoppedAt(i))
  {
    assert |Ids(r.steps[..i])| == i;
    assert |Ids(r.steps[..i + 1])| == i + 1;
  }

  lemma LastIsSound(r: Run)
    ensures Sound(r, r.Last())
  {
    assert r.steps[..|r.steps|] == r.steps;
    if r.FirstStop(0) < |r.steps| {
      StopsAreSound(r, r.FirstStop(0));
    }
  }

  lemma StepPointsAreSound(r: Run, p: Point)
    requires Reachable(r, p) && (p.Entering? || p.Dispatching? || p.Performing? || p.Failing? || p.Raising?)
    ensures Sound(r, Place(r, p))
  {
    assert |Ids(r.steps[..p.i])| == p.i;
  }

  lemma PointsAreSound(r: Run, p: Point)
    requires Reachable(r, p)
    ensures Sound(r, Place(r, p))
  {
    match p
    case Starting => assert Ids(r.steps[..0]) == [] && r.Calls(0) == [];
    case Planning => assert Ids(r.steps[..0]) == [] && r.Calls(0) == [];
    case Closing => LastIsSound(r);
    case Adapting => LastIsSound(r);
    case Ending => LastIsSound(r);
    case Breaking => LastIsSound(r);
    case _ => StepPointsAreSound(r, p);
  }

  /**
   At every point of every run the completed steps are a duplicate-free prefix of the executable
   steps, the child calls are made once each in plan order with the outputs of their declared
   dependencies, the executor dispatches the first incomplete step with every obligation of the
   earlier ones covered, and the plan never changes.
   */
  lemma RunIsSound(r: Run, n: nat)
    requires AcceptedRun(r) && Echoing(r) && Schedule(r.plan, r.steps)
    ensures Sound(r, RunFor(r.env, n))
  {
    var p := RunStaysOnTrajectory(r, n);
    PointsAreSound(r, p);
  }

  /*** The final status ***/

  /** Step j leaves something to answer with: a SQL result, or non-empty document evidence. */
  predicate Contributes(r: Run, j: nat)
    requires j < |r.steps|
  {
    r.steps[j].stepType.Sql? || ListOrEmpty(Get(r.Result(j).output, "validated_evidence")) != []
  }

  function ExpectedStatus(r: Run): ResultStatus {
    var m := r.FirstStop(0);
    if m < |r.steps| then (if r.Answered(m) then ValidationFailed else r.FailureOf(m).status)
    else if exists j: nat | j < |r.steps| :: Contributes(r, j) then Success
    else InsufficientEvidence
  }

  lemma ResultsSucceed(r: Run, i: nat)
    requires i <= |r.steps| && r.AllAnswered(i)
    ensures forall j | 0 <= j < i :: r.Results(i)[j].status.Success?
  {
    forall j: nat | j < i
      ensures r.Results(i)[j].status.Success?
    {
      assert r.Answered(j);
    }
  }

  lemma GateOpensContract(output: Output)
    requires SqlGate(output).None?
    ensures ValidContract(output)
  {
  }

  lemma OutputIsContribution(r: Run, j: nat)
    requires j < |r.steps| && Echoing(r) && r.Passed(j) && r.steps[j].Executable() && r.env.gate == SqlGate
    ensures HasOutput(NormalizeResult(r.steps[j], r.Result(j))) <==> Contributes(r, j)
  {
    assert EchoesAt(r, j);
    if r.steps[j].stepType.Sql? {
      GateOpensContract(r.Result(j).output);
    }
  }

  lemma OutputsAreContributions(r: Run)
    requires Echoing(r) && Schedule(r.plan, r.steps) && r.AllPassed(|r.steps|) && r.env.gate == SqlGate
    ensures AnyOutput(r.Results(|r.steps|)) <==> exists j: nat | j < |r.steps| :: Contributes(r, j)
  {
    var results := r.Results(|r.steps|);
    forall j: nat | j < |r.steps|
      ensures HasOutput(results[j]) <==> Contributes(r, j)
    {
      assert r.Passed(j);
      OutputIsContribution(r, j);
    }
    if AnyOutput(results) {
      var j: nat :| j < |r.steps| && HasOutput(results[j]);
      assert Contributes(r, j);
    }
    if j: nat :| j < |r.steps| && Contributes(r, j) {
      assert HasOutput(results[j]);
    }
  }

  lemma AllSucceeded(results: seq<StepResult>, errors: seq<Issue>)
    requires results != [] && forall j | 0 <= j < |results| :: results[j].status.Success?
    ensures BundleOf(results, errors).status == if AnyOutput(results) then Success else InsufficientEvidence
  {
  }

  lemma StatusWhenFinished(r: Run)
    requires Echoing(r) && Schedule(r.plan, r.steps) && r.AllPassed(|r.steps|) && r.env.gate == SqlGate
    ensures BundleOf(r.Results(|r.steps|), []).status == ExpectedStatus(r)
  {
    FirstStopIs(r, |r.steps|);
    PassedIsAnswered(r, |r.steps|);
    ResultsSucceed(r, |r.steps|);
    OutputsAreContributions(r);
    AllSucceeded(r.Results(|r.steps|), []);
  }

  /** One failed result after successful ones decides the status. */
  lemma StatusOfOneFailure(results: seq<StepResult>, failure: StepResult)
    requires forall j | 0 <= j < |results| :: results[j].status.Success?
    requires !failure.status.Success?
    ensures StatusOfResults(results + [failure]) == failure.status
  {
    var all := results + [failure];
    assert all[|results|] == failure;
    assert forall j | 0 <= j < |all| :: all[j].status.Success? || all[j] == failure;
  }

  lemma StatusWhenStopped(r: Run, m: nat)
    requires m < |r.steps| && r.AllPassed(m) && !r.Passed(m)
    ensures WithBundle(r.StoppedAt(m).st).bundle.Some?
    ensures WithBundle(r.StoppedAt(m).st).bundle.value.status ==
      if r.Answered(m) then ValidationFailed else r.FailureOf(m).status
  {
    if !Blank(r.steps[m].goal) && !r.Answered(m) {
      PassedIsAnswered(r, m);
      ResultsSucceed(r, m);
      StatusOfOneFailure(r.Results(m), r.FailureOf(m));
    }
  }

  /**
   The status reported to the caller unless the run raises: success exactly when every step
   passed and some step left an answer, insufficient_evidence when every step passed and none did, validation_failed for a
   closed gate, a blank goal or malformed child output, and otherwise the failing child's own.
   */
  lemma FinalStatusIsExact(r: Run)
    requires AcceptedRun(r) && Echoing(r) && Schedule(r.plan, r.steps) && r.env.gate == SqlGate
    ensures var end := RunFor(r.env, 3 * |r.steps| + 5);
      if Raises(r) then end.node.CrashNode?
      else end.node.EndNode? && end.st.toolResult.Some? && end.st.toolResult.value.status == ExpectedStatus(r)
  {
    AcceptedRunEnds(r);
    LastStatus(r);
  }

  lemma LastStatus(r: Run)
    requires Echoing(r) && Schedule(r.plan, r.steps) && r.env.gate == SqlGate
    ensures var end := Adapted(r.Last()).st;
      end.toolResult.Some? && end.toolResult.value.status == ExpectedStatus(r)
  {
    var m := r.FirstStop(0);
    if m < |r.steps| {
      StatusWhenStopped(r, m);
    } else {
      StatusWhenFinished(r);
    }
  }

  /** What the last nodes leave as it is. */
  lemma ClosingKeeps(c: Config, d: Config)
    requires d == Broken(c) || d == Adapted(c)
    ensures d.calls == c.calls && d.st.status == c.st.status && d.st.results == c.st.results
    ensures d.st.covered == c.st.covered && d.st.completed == c.st.completed
    ensures d == Adapted(c) && c.st.bundle.None? ==>
      d.st.toolResult.Some? && d.st.toolResult.value.outputs == c.st.results
  {
  }

  lemma StoppedState(r: Run, m: nat)
    requires m < |r.steps| && !Blank(r.steps[m].goal) && !r.Answered(m)
    ensures var st := r.StoppedAt(m).st;
      st.status.Blocked? && st.results == r.Results(m) + [r.FailureOf(m)] && st.bundle.None?
  {
  }

  /** A run stopped by a child's answer keeps the successes and adds one failure, the last result. */
  lemma StoppedByChild(r: Run)
    requires AcceptedRun(r) && Echoing(r) && Schedule(r.plan, r.steps)
    requires r.FirstStop(0) < |r.steps| && !Blank(r.steps[r.FirstStop(0)].goal) && !r.Answered(r.FirstStop(0))
    requires !ChildRaises(r)
    ensures var m, end := r.FirstStop(0), RunFor(r.env, 3 * |r.steps| + 5).st;
      && end.status.Blocked?
      && end.results == r.Results(m) + [r.FailureOf(m)]
      && (forall j | 0 <= j < m :: end.results[j].status.Success?)
      && !end.results[m].status.Success?
      && (!BundleRaises(r) ==> end.toolResult.Some? && end.toolResult.value.outputs == end.results)
  {
    var m := r.FirstStop(0);
    AcceptedRunEnds(r);
    StoppedState(r, m);
    ClosingKeeps(r.Last(), EndOf(r));
    PassedIsAnswered(r, m);
    ResultsSucceed(r, m);
  }

  /*** From validation to the run ***/

  function RunOf(env: Env, raw: Json, plan: Plan): Run {
    Run(env, raw, plan, PlanJson(plan), ExecutableSteps(plan))
  }

  /** The planner's answer is worth validating, its step types apart. */
  predicate WorthValidating(raw: Json) {
    raw.Obj? && Get(raw.fields, "status") == Str("planned") && ListOrEmpty(Get(raw.fields, "obligations")) != []
  }

  lemma PlannerVerdict(raw: Json)
    ensures var st := Planner(FRESH_STATE, Answer(raw));
      && (st.None? <==> WorthValidating(raw) && !TypesHashable(ListOrEmpty(Get(raw.fields, "steps"))))
      && (st.Some? && st.value.status.Planned? <==>
            WorthValidating(raw) && TypesHashable(ListOrEmpty(Get(raw.fields, "steps"))))
      && (st.Some? && st.value.status.Planned? ==> st.value == FRESH_STATE.(plan := raw, status := Planned))
  {
  }

  lemma ShapedTypeIsHashable(item: Json)
    requires RawStepShape(item)
    ensures item.Obj? && !Unhashable(Get(item.fields, "step_type"))
  {
  }

  lemma ShapedTypesAreHashable(items: seq<Json>)
    requires forall item | item in items :: StepShape(item)
    ensures TypesHashable(items)
  {
    forall i | 0 <= i < |items|
      ensures items[i].Obj? && !Unhashable(Get(items[i].fields, "step_type"))
    {
      assert items[i] in items;
      ShapedTypeIsHashable(items[i]);
    }
  }

  lemma ShapedPlanIsWorthValidating(raw: Json)
    requires PlanShape(raw)
    ensures WorthValidating(raw) && TypesHashable(ListOrEmpty(Get(raw.fields, "steps")))
  {
    ShapedTypesAreHashable(Get(raw.fields, "steps").items);
  }

  lemma PlannerAccepts(raw: Json)
    requires PlanShape(raw)
    ensures Planner(FRESH_STATE, Answer(raw)) == Some(FRESH_STATE.(plan := raw, status := Planned))
  {
    ShapedPlanIsWorthValidating(raw);
    PlannerVerdict(raw);
  }

  /** A plan that validation accepts puts the run on its trajectory. */
  lemma ValidationStartsTheRun(env: Env, raw: Json, plan: Plan)
    requires env.input.InputOk? && env.planner == Answer(raw) && env.validate == CheckPlan
    requires Validated(raw) == Accepted(plan)
    ensures AcceptedRun(RunOf(env, raw, plan)) && Schedule(plan, ExecutableSteps(plan))
  {
    ValidatorIsExact(raw);
    ValidationIsIdempotent(raw);
    PlannerAccepts(raw);
    AcceptedPlanHasSchedule(raw, plan);
  }

  lemma StoppedSteps(r: Run, m: nat)
    requires m < |r.steps| && !r.Raised(m)
    ensures r.StoppedAt(m).calls == r.Calls(if Blank(r.steps[m].goal) then m else m + 1)
    ensures !r.StoppedAt(m).st.status.Complete?
  {
  }

  lemma LastSteps(r: Run)
    requires !ChildRaises(r)
    ensures var m, last := r.FirstStop(0), r.Last();
      && last.calls == r.Calls(if m < |r.steps| && !Blank(r.steps[m].goal) then m + 1 else m)
      && (last.st.status.Complete? <==> m == |r.steps|)
      && (m == |r.steps| ==> last.st.covered == Claims(r.steps) && last.st.completed == Ids(r.steps))
  {
    var m := r.FirstStop(0);
    if m < |r.steps| {
      StoppedSteps(r, m);
      assert r.Last() == r.StoppedAt(m);
    } else {
      assert r.Last() == r.Finished();
    }
  }

  lemma RaisedSteps(r: Run, m: nat)
    requires m < |r.steps| && r.Raised(m)
    ensures r.RaisedAt(m).calls == r.Calls(m + 1) && !r.RaisedAt(m).st.status.Complete?
  {
  }

  lemma EndOfRaised(r: Run)
    requires ChildRaises(r)
    ensures var m, end := r.FirstStop(0), EndOf(r);
      m < |r.steps| && !Blank(r.steps[m].goal) && end.calls == r.Calls(m + 1) && !end.st.status.Complete?
  {
    RaisedSteps(r, r.FirstStop(0));
  }

  lemma EndOfRun(r: Run)
    requires Schedule(r.plan, r.steps)
    ensures var m, end := r.FirstStop(0), EndOf(r);
      && end.calls == r.Calls(if m < |r.steps| && !Blank(r.steps[m].goal) then m + 1 else m)
      && (end.st.status.Complete? <==> m == |r.steps|)
      && (m == |r.steps| ==> end.st.covered == Claims(r.steps) && end.st.completed == Ids(r.steps))
  {
    if ChildRaises(r) {
      EndOfRaised(r);
    } else {
      LastSteps(r);
      ClosingKeeps(r.Last(), EndOf(r));
    }
  }

  lemma CallsHandOver(r: Run, n: nat)
    requires Schedule(r.plan, r.steps) && n <= |r.steps|
    ensures forall j: nat | j < n :: HandsOver(r, r.Calls(n)[j], j)
  {
    forall j: nat | j < n
      ensures HandsOver(r, r.Calls(n)[j], j)
    {
      DependenciesAreHandedOver(r, j);
    }
  }

  /** What the engine promises about a run over an accepted plan. */
  ghost predicate RunsAsPromised(r: Run) {
    var m, end := r.FirstStop(0), RunFor(r.env, 3 * |r.steps| + 5);
    && end.node == (if Raises(r) then CrashNode else EndNode) && end.visits == TotalVisits(r)
    && end.calls == r.Calls(if m < |r.steps| && !Blank(r.steps[m].goal) then m + 1 else m)
    && (forall j: nat | j < |end.calls| && j < |r.steps| :: HandsOver(r, end.calls[j], j))
    && (end.st.status.Complete? <==> m == |r.steps|)
    && (end.st.status.Complete? ==> end.st.completed == Ids(r.steps))
    && (end.st.status.Complete? ==> Distinct(end.st.covered))
    && (end.st.status.Complete? ==> ToSet(end.st.covered) == ToSet(ObligationIds(r.plan.obligations)))
    && (!Raises(r) ==> end.st.toolResult.Some? && end.st.toolResult.value.status == ExpectedStatus(r))
  }

  /**
   The run ends after exactly TotalVisits visits; children are called in plan order up to the
   first step that does not pass, each with the outputs of all its declared dependencies; the
   steps complete exactly when every step passes, and then every obligation is covered exactly
   once; and the reported status is ExpectedStatus, unless a child or the bundle raises.
   */
  lemma EngineIsCorrect(r: Run)
    requires AcceptedRun(r) && Echoing(r) && Schedule(r.plan, r.steps) && r.env.gate == SqlGate
    ensures RunsAsPromised(r)
  {
    AcceptedRunEnds(r);
    EndOfRun(r);
    var m := r.FirstStop(0);
    CallsHandOver(r, if m < |r.steps| && !Blank(r.steps[m].goal) then m + 1 else m);
    FinalStatusIsExact(r);
  }

  /** The same from the planner's answer: acceptance by the validator is all the plan needs. */
  lemma AcceptedPlanRunsAsPromised(env: Env, raw: Json, plan: Plan)
    requires env.input.InputOk? && env.planner == Answer(raw) && env.validate == CheckPlan
    requires env.gate == SqlGate && Validated(raw) == Accepted(plan) && Echoing(RunOf(env, raw, plan))
    ensures RunsAsPromised(RunOf(env, raw, plan))
  {
    ValidationStartsTheRun(env, raw, plan);
    EngineIsCorrect(RunOf(env, raw, plan));
  }

  lemma TwoVisits(env: Env)
    requires env.input.InputOk?
    ensures RunFor(env, 2) ==
      var st := Planner(FRESH_STATE, env.planner);
      TryVisit(Config(PlannerNode, FRESH_STATE, [], 1), if st.Some? then AfterPlanner(st.value) else CrashNode, st)
  {
    assert RunFor(env, 1) == Config(PlannerNode, FRESH_STATE, [], 1);
  }

  /** A rejected plan that gets past the planner ends the run after five visits, with no child called. */
  lemma RejectedPlanEnds(env: Env, raw: Json, code: string)
    requires env.input.InputOk? && env.planner == Answer(raw)
    requires Planner(FRESH_STATE, env.planner).Some? && Planner(FRESH_STATE, env.planner).value.status.Planned?
    requires env.validate(raw) == Rejected(code)
    ensures var end := RunFor(env, 5);
      && end.node.EndNode? && end.calls == [] && end.visits == 5
      && end.st.failedNode == Some(ExecutorNode) && end.st.failure == Some(PlanReason(code))
      && end.st.errors == [Own(PlanReason(code))]
      && end.st.toolResult == Some(EmptyBundle(ValidationFailed, [Own(PlanReason(code))]))
  {
    var planned := Config(ExecutorNode, FRESH_STATE.(plan := raw, status := Planned), [], 2);
    TwoVisits(env);
    assert RunFor(env, 2) == planned;
    var c := Advance(env, planned);
    assert RunFor(env, 3) == c;
    LastVisits(env, c);
    assert RunFor(env, 4) == Bundled(c);
  }

  /** Unusable input or a failed planner ends the run even earlier. */
  lemma RunWithoutPlanEnds(env: Env)
    requires env.input.InputOk? ==>
      Planner(FRESH_STATE, env.planner).Some? && !Planner(FRESH_STATE, env.planner).value.status.Planned?
    ensures var end := RunFor(env, 4);
      && end.node.EndNode? && end.calls == []
      && end.st.toolResult.Some?
      && end.st.toolResult.value.status ==
          (if env.input.InputOk? then ErrorStatus
           else if env.input.PermissionProblem? then AccessFailed
           else ValidationFailed)
  {
    if env.input.InputOk? {
      TwoVisits(env);
      var d := RunFor(env, 2);
      LastVisits(env, d);
      assert RunFor(env, 3) == Bundled(d);
    } else {
      var c := Advance(env, START);
      assert RunFor(env, 1) == c;
      LastVisits(env, c);
      assert RunFor(env, 2) == Bundled(c);
      assert RunFor(env, 3) == Adapted(c);
    }
  }

  /*** When a run raises ***/

  /** The executor's first validation of a plan fails on the id of a later step. */
  ghost predicate ValidationRaises(raw: Json) {
    && HeaderShape(raw)
    && ObligationsFieldHolds(Get(raw.fields, "obligations"))
    && Get(raw.fields, "steps").Arr? && 1 <= |Get(raw.fields, "steps").items| <= MAX_RUNTIME_STEPS
    && exists i :: LaterIdCrashesAt(Get(raw.fields, "steps").items, i)
  }

  /**
   The plan has a step type that is a list or an object; or validation fails on a later id; or the
   plan is good and a dispatched child raises or a bundled result has impossible columns.
   */
  ghost predicate RunRaises(env: Env) {
    && env.input.InputOk? && env.planner.Answer? && WorthValidating(env.planner.plan)
    && var raw := env.planner.plan;
    (|| !TypesHashable(ListOrEmpty(Get(raw.fields, "steps")))
     || ValidationRaises(raw)
     || (PlanShape(raw) && Consistent(AsPlan(raw)) && Raises(RunOf(env, raw, AsPlan(raw)))))
  }

  /** The engine with its own validator and gate, and children that echo the step they were given. */
  ghost predicate RealEngine(env: Env) {
    && env.validate == CheckPlan && env.gate == SqlGate
    && (env.planner.Answer? && Validated(env.planner.plan).Accepted? ==>
          Echoing(RunOf(env, env.planner.plan, Validated(env.planner.plan).value)))
  }

  const LONGEST_RUN := 26

  lemma {:induction false} FinalStays(env: Env, n: nat, k: nat)
    requires Final(RunFor(env, n).node)
    ensures RunFor(env, n + k) == RunFor(env, n)
  {
    if k > 0 {
      FinalStays(env, n, k - 1);
    }
  }

  /** Past the planner, only the id of a later step can make validation raise. */
  lemma ValidationRaisesOnLaterIds(raw: Json)
    requires WorthValidating(raw) && TypesHashable(ListOrEmpty(Get(raw.fields, "steps")))
    ensures Validated(raw).Crashed? <==> ValidationRaises(raw)
  {
    ValidatorCrashesExactly(raw);
    var steps := Get(raw.fields, "steps");
    if steps.Arr? {
      forall i
        ensures !TypeCrashesAt(steps.items, i)
      {
      }
    }
  }

  lemma PlannerStopsRun(env: Env, raw: Json)
    requires env.input.InputOk? && env.planner == Answer(raw) && Planner(FRESH_STATE, env.planner).None?
    ensures RunFor(env, 2).node.CrashNode?
  {
    TwoVisits(env);
  }

  lemma ValidatorStopsRun(env: Env, raw: Json)
    requires env.input.InputOk? && env.planner == Answer(raw)
    requires Planner(FRESH_STATE, env.planner) == Some(FRESH_STATE.(plan := raw, status := Planned))
    requires env.validate(raw).Crashed?
    ensures RunFor(env, 3).node.CrashNode?
  {
    TwoVisits(env);
    assert RunFor(env, 2) == Config(ExecutorNode, FRESH_STATE.(plan := raw, status := Planned), [], 2);
  }

  lemma AcceptedRunIsFinal(r: Run)
    requires AcceptedRun(r) && Echoing(r) && Schedule(r.plan, r.steps)
    ensures RunFor(r.env, LONGEST_RUN).node == if Raises(r) then CrashNode else EndNode
  {
    var n := 3 * |r.steps| + 5;
    AcceptedRunEnds(r);
    FinalStays(r.env, n, LONGEST_RUN - n);
  }

  /** A plan past the planner, by what validation makes of it. */
  lemma PlannedRunEnds(env: Env, r: Run, verdict: Outcome<Checked>)
    requires env.input.InputOk? && env.planner == Answer(r.raw) && r.env == env
    requires Planner(FRESH_STATE, env.planner) == Some(FRESH_STATE.(plan := r.raw, status := Planned))
    requires env.validate(r.raw) == verdict
    requires verdict.Accepted? ==> AcceptedRun(r) && Echoing(r) && Schedule(r.plan, r.steps)
    ensures RunFor(env, LONGEST_RUN).node ==
      if verdict.Crashed? || (verdict.Accepted? && Raises(r)) then CrashNode else EndNode
  {
    match verdict
    case Crashed =>
      ValidatorStopsRun(env, r.raw);
      FinalStays(env, 3, LONGEST_RUN - 3);
    case Rejected(code) =>
      RejectedPlanEnds(env, r.raw, code);
      FinalStays(env, 5, LONGEST_RUN - 5);
    case Accepted(_) => AcceptedRunIsFinal(r);
  }

  lemma AcceptedRunOf(env: Env, raw: Json)
    requires RealEngine(env) && env.input.InputOk? && env.planner == Answer(raw) && Validated(raw).Accepted?
    ensures Validated(raw) == Accepted(AsPlan(raw))
    ensures var r := RunOf(env, raw, AsPlan(raw)); AcceptedRun(r) && Echoing(r) && Schedule(r.plan, r.steps)
  {
    ValidatorIsExact(raw);
    ValidationStartsTheRun(env, raw, AsPlan(raw));
  }

  lemma CheckPlanAgrees(raw: Json)
    ensures CheckPlan(raw).Crashed? <==> Validated(raw).Crashed?
    ensures CheckPlan(raw).Accepted? <==> Validated(raw).Accepted?
  {
  }

  lemma WorthwhileRunEnds(env: Env, raw: Json)
    requires RealEngine(env) && env.input.InputOk? && env.planner == Answer(raw)
    requires WorthValidating(raw) && TypesHashable(ListOrEmpty(Get(raw.fields, "steps")))
    ensures RunFor(env, LONGEST_RUN).node ==
      if Validated(raw).Crashed? || (Validated(raw).Accepted? && Raises(RunOf(env, raw, AsPlan(raw)))) then CrashNode
      else EndNode
  {
    PlannerVerdict(raw);
    CheckPlanAgrees(raw);
    if Validated(raw).Accepted? {
      AcceptedRunOf(env, raw);
    }
    PlannedRunEnds(env, RunOf(env, raw, AsPlan(raw)), env.validate(raw));
  }

  /**
   Every run, whatever the input, the planner and the children, ends within 26 node visits, and
   raises exactly in the cases of RunRaises.
   */
  lemma RunRaisesExactly(env: Env)
    requires RealEngine(env)
    ensures Final(RunFor(env, LONGEST_RUN).node)
    ensures RunFor(env, LONGEST_RUN).node.CrashNode? <==> RunRaises(env)
  {
    if env.input.InputOk? && env.planner.Answer? && WorthValidating(env.planner.plan) {
      WorthwhileRunRaises(env, env.planner.plan);
    } else {
      WorthlessRunEnds(env);
    }
  }

  lemma WorthlessRunEnds(env: Env)
    requires !(env.input.InputOk? && env.planner.Answer? && WorthValidating(env.planner.plan))
    ensures RunFor(env, LONGEST_RUN).node.EndNode?
  {
    if env.planner.Answer? {
      PlannerVerdict(env.planner.plan);
    }
    RunWithoutPlanEnds(env);
    FinalStays(env, 4, LONGEST_RUN - 4);
  }

  lemma WorthwhileRunRaises(env: Env, raw: Json)
    requires RealEngine(env) && env.input.InputOk? && env.planner == Answer(raw) && WorthValidating(raw)
    ensures Final(RunFor(env, LONGEST_RUN).node)
    ensures RunFor(env, LONGEST_RUN).node.CrashNode? <==> RunRaises(env)
  {
    if TypesHashable(ListOrEmpty(Get(raw.fields, "steps"))) {
      WorthwhileRunEnds(env, raw);
      ValidationRaisesOnLaterIds(raw);
      ValidatorIsExact(raw);
    } else {
      PlannerVerdict(raw);
      PlannerStopsRun(env, raw);
      FinalStays(env, 2, LONGEST_RUN - 2);
    }
  }

  /** Only document results and the result of a failing child can have columns that the bundle trips over. */
  lemma ColumnsOfPassedSql(r: Run, j: nat)
    requires j < |r.steps| && r.Passed(j) && r.env.gate == SqlGate && r.steps[j].stepType.Sql?
    ensures !ColumnsRaise(r.Result(j).output)
  {
  }

  /** The bundle is built, and step j leaves columns that are true but cannot be iterated. */
  ghost predicate BadColumns(r: Run, j: nat)
    requires j < |r.steps|
  {
    var m := r.FirstStop(0);
    && (m < |r.steps| ==> !Blank(r.steps[m].goal) && !r.Answered(m))
    && (if j < m then r.steps[j].stepType.Rag? else j == m && r.Reported(m).Some?)
    && ColumnsRaise(r.Result(j).output)
  }

  /** The bundle raises exactly over a document result, or over what a failing child reports. */
  lemma BundleRaisesExactly(r: Run)
    requires r.env.gate == SqlGate && Schedule(r.plan, r.steps)
    ensures BundleRaises(r) <==> exists j: nat | j < |r.steps| :: BadColumns(r, j)
  {
    var m := r.FirstStop(0);
    var bundled := ResultsToBundle(r);
    if i :| 0 <= i < |bundled| && ColumnsRaise(bundled[i].output) {
      BundledOutput(r, i);
      if i < m && r.steps[i].stepType.Sql? {
        ColumnsOfPassedSql(r, i);
      }
      assert BadColumns(r, i);
    }
    if j: nat :| j < |r.steps| && BadColumns(r, j) {
      BundledOutput(r, j);
    }
  }

  lemma BundledOutput(r: Run, i: nat)
    requires var m := r.FirstStop(0);
      i < |r.steps| && i <= m && (m < |r.steps| ==> !Blank(r.steps[m].goal) && !r.Answered(m))
    ensures i < |ResultsToBundle(r)|
    ensures ResultsToBundle(r)[i].output ==
      if i == r.FirstStop(0) && r.Reported(i).None? then map[] else r.Result(i).output
  {
  }

  /*** Runs that raise ***/

  const SOME_OBLIGATION := Obligation("o1", "d")

  lemma SomeObligationIsTyped()
    ensures TypedObligation(SOME_OBLIGATION) && Distinct(ObligationIds([SOME_OBLIGATION]))
  {
    assert "o1"[0] == 'o' && "d"[0] == 'd';
  }

  /** A step without an id whose type is a list. */
  const NAMELESS_STEP := Obj(map["step_id" := Str(""), "step_type" := Arr([])])

  lemma NamelessStep()
    ensures Get(NAMELESS_STEP.fields, "step_id") == Str("") && Get(NAMELESS_STEP.fields, "step_type") == Arr([])
    ensures FreeOfForbiddenFields(NAMELESS_STEP)
  {
    var f := NAMELESS_STEP.fields;
    forall key | key in f
      ensures !ForbiddenKey(key) && FreeOfForbiddenFields(f[key])
    {
      StepKeyAllowed(key);
    }
  }

  /** Validation would reject this plan, but the planner raises before. */
  lemma ListTypeRaises(env: Env)
    requires env.input.InputOk? && env.planner == Answer(PlanOf([SOME_OBLIGATION], [NAMELESS_STEP]))
    ensures Validated(PlanOf([SOME_OBLIGATION], [NAMELESS_STEP])) == Rejected("runtime_plan_missing_step_id")
    ensures RunFor(env, LONGEST_RUN).node.CrashNode?
  {
    var raw := PlanOf([SOME_OBLIGATION], [NAMELESS_STEP]);
    NamelessStep();
    NamelessStepIsRejected();
    PlanOfFields([SOME_OBLIGATION], [NAMELESS_STEP]);
    PlannerVerdict(raw);
    assert [NAMELESS_STEP][0] == NAMELESS_STEP;
    PlannerStopsRun(env, raw);
    FinalStays(env, 2, LONGEST_RUN - 2);
  }

  lemma OnlyStepRejected(item: Json, code: string)
    requires CheckStep(item, {}, []) == Rejected(code)
    ensures CheckSteps([item]) == Rejected(code)
  {
    assert [item][1..] == [];
  }

  lemma OnlyStepDecides(raw: Json, item: Json, code: string)
    requires HeaderShape(raw) && ObligationsFieldHolds(Get(raw.fields, "obligations"))
    requires Get(raw.fields, "steps") == Arr([item]) && CheckSteps([item]) == Rejected(code)
    ensures Validated(raw) == Rejected(code)
  {
    HeaderAccepted(raw);
    ObligationsAccepted(Get(raw.fields, "obligations").items, {});
  }

  lemma NamelessStepIsRejected()
    ensures Validated(PlanOf([SOME_OBLIGATION], [NAMELESS_STEP])) == Rejected("runtime_plan_missing_step_id")
  {
    NamelessStep();
    SomeObligationIsTyped();
    PlanOfFields([SOME_OBLIGATION], [NAMELESS_STEP]);
    PlanOfHeader([SOME_OBLIGATION], [NAMELESS_STEP]);
    OnlyStepRejected(NAMELESS_STEP, "runtime_plan_missing_step_id");
    OnlyStepDecides(PlanOf([SOME_OBLIGATION], [NAMELESS_STEP]), NAMELESS_STEP, "runtime_plan_missing_step_id");
  }

  /** A step that waits for an unknown one, and after it a step whose id is a list. */
  const WAITING_STEP := Step("s1", Sql, "g", ["o1"], ["x"])

  lemma WaitingStep()
    ensures TypedStep(WAITING_STEP)
  {
    assert "s1"[0] == 's' && "s1"[1] == '1' && "o1" != "";
  }

  const LIST_NAMED_STEP := Obj(map["step_id" := Arr([])])

  lemma ListNamedStep()
    ensures FutureId(LIST_NAMED_STEP) == Arr([]) && Get(LIST_NAMED_STEP.fields, "step_type") == Null
    ensures FreeOfForbiddenFields(LIST_NAMED_STEP)
  {
    var f := LIST_NAMED_STEP.fields;
    forall key | key in f
      ensures !ForbiddenKey(key) && FreeOfForbiddenFields(f[key])
    {
      StepKeyAllowed(key);
    }
  }

  lemma FirstOfTwoFails(first: Json, second: Json, d: string)
    requires RawStepShape(first) && AsRawStep(first).dependsOn == [d]
    requires second.Obj? && Unhashable(FutureId(second)) && !Unhashable(Get(second.fields, "step_type"))
    ensures LaterIdCrashesAt([first, second], 0) && TypesHashable([first, second])
  {
    var items := [first, second];
    assert items[..0] == [] && AsRawSteps(items[..0]) == [];
    assert d in ToSet(AsRawStep(first).dependsOn);
    assert Unhashable(FutureId(items[1]));
    ShapedTypeIsHashable(first);
  }

  lemma LaterIdRaises(env: Env, raw: Json, items: seq<Json>)
    requires env.validate == CheckPlan && env.input.InputOk? && env.planner == Answer(raw)
    requires HeaderShape(raw) && ObligationsFieldHolds(Get(raw.fields, "obligations"))
    requires Get(raw.fields, "steps") == Arr(items) && |items| <= MAX_RUNTIME_STEPS
    requires LaterIdCrashesAt(items, 0) && TypesHashable(items)
    ensures RunFor(env, LONGEST_RUN).node.CrashNode?
  {
    ValidatorCrashesExactly(raw);
    PlannerVerdict(raw);
    CheckPlanAgrees(raw);
    ValidatorStopsRun(env, raw);
    FinalStays(env, 3, LONGEST_RUN - 3);
  }

  lemma PlannedFields(o: Obligation, items: seq<Json>, raw: Json)
    requires raw == PlanOf([o], items) && TypedObligation(o)
    requires forall item | item in items :: FreeOfForbiddenFields(item)
    ensures HeaderShape(raw) && ObligationsFieldHolds(Get(raw.fields, "obligations"))
    ensures Get(raw.fields, "steps") == Arr(items)
  {
    PlanOfFields([o], items);
    PlanOfHeader([o], items);
  }

  lemma PlannedItemsRaise(env: Env, o: Obligation, items: seq<Json>, raw: Json)
    requires env.validate == CheckPlan && env.input.InputOk? && env.planner == Answer(raw)
    requires raw == PlanOf([o], items) && TypedObligation(o) && |items| <= MAX_RUNTIME_STEPS
    requires forall item | item in items :: FreeOfForbiddenFields(item)
    requires LaterIdCrashesAt(items, 0) && TypesHashable(items)
    ensures RunFor(env, LONGEST_RUN).node.CrashNode?
  {
    PlannedFields(o, items, raw);
    LaterIdRaises(env, raw, items);
  }

  lemma PairIsFree(first: Json, second: Json, items: seq<Json>, free: Json -> bool)
    requires items == [first, second] && free(first) && free(second)
    ensures forall item | item in items :: free(item)
  {
  }

  lemma TwoItemsRaise(env: Env, o: Obligation, first: Json, second: Json, items: seq<Json>)
    requires env.validate == CheckPlan && env.input.InputOk? && env.planner == Answer(PlanOf([o], items))
    requires items == [first, second] && TypedObligation(o)
    requires FreeOfForbiddenFields(first) && FreeOfForbiddenFields(second)
    requires LaterIdCrashesAt(items, 0) && TypesHashable(items)
    ensures RunFor(env, LONGEST_RUN).node.CrashNode?
  {
    PairIsFree(first, second, items, (item: Json) => FreeOfForbiddenFields(item));
    PlannedItemsRaise(env, o, items, PlanOf([o], items));
  }

  lemma TypedStepIsShaped(step: Step)
    requires TypedStep(step)
    ensures RawStepShape(StepJson(step)) && AsRawStep(StepJson(step)).dependsOn == step.dependsOn
    ensures FreeOfForbiddenFields(StepJson(step))
  {
    StepJsonShape(step);
    StepJsonAllowed(step);
    assert AsRawStep(StepJson(step)).dependsOn == AsRawStep(StepJson(step)).ToStep().dependsOn;
  }

  /** A good step that waits for something unknown, before a step whose id cannot be looked up. */
  lemma TwoStepsRaise(env: Env, o: Obligation, first: Step, second: Json, d: string)
    requires env.validate == CheckPlan && env.input.InputOk?
    requires env.planner == Answer(PlanOf([o], [StepJson(first), second]))
    requires TypedObligation(o) && TypedStep(first) && first.dependsOn == [d]
    requires FreeOfForbiddenFields(second) && second.Obj?
    requires Unhashable(FutureId(second)) && !Unhashable(Get(second.fields, "step_type"))
    ensures RunFor(env, LONGEST_RUN).node.CrashNode?
  {
    TypedStepIsShaped(first);
    FirstOfTwoFails(StepJson(first), second, d);
    TwoItemsRaise(env, o, StepJson(first), second, [StepJson(first), second]);
  }

  /** This plan gets past the planner; the executor's validation raises. */
  lemma ListIdRaises(env: Env)
    requires env.validate == CheckPlan && env.input.InputOk?
    requires env.planner == Answer(PlanOf([SOME_OBLIGATION], [StepJson(WAITING_STEP), LIST_NAMED_STEP]))
    ensures RunFor(env, LONGEST_RUN).node.CrashNode?
  {
    WaitingStep();
    ListNamedStep();
    SomeObligationIsTyped();
    TwoStepsRaise(env, SOME_OBLIGATION, WAITING_STEP, LIST_NAMED_STEP, "x");
  }
}
