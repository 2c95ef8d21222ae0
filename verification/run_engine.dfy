/**
 The SQL/RAG run engine: the state record, the seven nodes that patch it and the edges between
 them. A node returns the state with the keys of its patch overwritten. Models and child
 workflows are an environment that may answer anything.
 */
module RunEngine {
  import opened Iteration
  import opened Json
  import opened PlanProperties
  import opened RuntimePlan
  import opened Sequences
  import opened Text
  import opened Wrappers

  /*** State ***/

  datatype Node =
    | AgentNode | PlannerNode | ExecutorNode | PerformNode | NormalizerNode | BundleNode | AdapterNode | EndNode
    | CrashNode

  datatype RunStatus = NotStarted | Planned | PlanningFailed | InvalidPlan | Running | Complete | Blocked | Errored

  datatype ResultStatus = Success | InsufficientEvidence | ValidationFailed | AccessFailed | ErrorStatus

  /** Why a node gives up; the spelling the callers see is in OwnText. */
  datatype Reason =
    | InputReason(text: string)
    | RuntimePlanModelUnavailable | RuntimePlanModelError | RuntimePlanUnreadable
    | RuntimePlanInvalidStatus | RuntimePlanMissingObligations
    | PlanReason(text: string)
    | ChildReason(text: string) | ChildWorkflowFailed
    | UncoveredByGate | UncoveredAtEnd | RuntimePlanBlocked
    | MissingCurrentStep | UnsupportedRuntimeStep | InvalidRuntimeStepGoal | MissingDependencyContext
    | MalformedChildOutput | NoValidatedOutputs | MissingFinalResultBundle

  /** The code and message of a reason; the messages of rejected inputs and plans are not carried. */
  function OwnText(r: Reason): (string, string) {
    match r
    case InputReason(text) => (text, "")
    case RuntimePlanModelUnavailable => ("runtime_plan_model_unavailable", "Runtime plan model is unavailable.")
    case RuntimePlanModelError => ("runtime_plan_model_error", "Runtime plan model call failed.")
    case RuntimePlanUnreadable => ("runtime_plan_unreadable", "Runtime plan output was unreadable.")
    case RuntimePlanInvalidStatus => ("runtime_plan_invalid_status", "Runtime plan status was invalid.")
    case RuntimePlanMissingObligations => ("runtime_plan_missing_obligations", "Runtime plan must contain obligations.")
    case PlanReason(text) => (text, "")
    case ChildReason(text) => (text, "")
    case ChildWorkflowFailed => ("child_workflow_failed", "")
    case UncoveredByGate => ("uncovered_obligation", "SQL step output did not pass runtime coverage validation.")
    case UncoveredAtEnd => ("uncovered_obligation", "Runtime plan completed without covering every obligation.")
    case RuntimePlanBlocked => ("runtime_plan_blocked", "Runtime plan could not make progress.")
    case MissingCurrentStep => ("missing_current_step", "Runtime step was missing.")
    case UnsupportedRuntimeStep => ("unsupported_runtime_step", "Runtime step was unsupported.")
    case InvalidRuntimeStepGoal => ("invalid_runtime_step_goal", "Runtime step goal was missing or invalid.")
    case MissingDependencyContext => ("missing_dependency_context", "Dependency context was unavailable.")
    case MalformedChildOutput => ("malformed_child_output", "Child workflow output was malformed.")
    case NoValidatedOutputs => ("no_validated_outputs", "SQL/RAG tool produced no validated outputs.")
    case MissingFinalResultBundle => ("missing_final_result_bundle", "SQL/RAG final result bundle was missing.")
  }

  /** An error entry: the engine's own, or one that a child workflow reported. */
  datatype Issue = Own(reason: Reason) | Foreign(code: string, message: string)

  type Output = map<string, Json>

  /** What a child workflow reports; an empty step id or type stands for a missing one. */
  datatype ChildResult = ChildResult(
    stepId: string, stepType: string, status: ResultStatus, output: Output, limitations: seq<Json>, errors: seq<Issue>)

  /** A result that is absent, not an object or without a terminal status is None. */
  datatype ChildOutput = ChildOutput(rag: Option<ChildResult>, sql: Option<ChildResult>)

  datatype StepResult = StepResult(
    stepId: string, stepType: string, status: ResultStatus, output: Output, limitations: seq<Json>, errors: seq<Issue>)

  datatype Bundle = Bundle(
    status: ResultStatus, outputs: seq<StepResult>, evidence: seq<Json>, citations: seq<Json>, rows: seq<Json>,
    limitations: seq<Json>, errors: seq<Issue>)

  datatype State = State(
    status: RunStatus,
    plan: Json,
    currentStep: Option<Step>,
    childResult: Option<ChildOutput>,
    completed: seq<string>,
    covered: seq<string>,
    results: seq<StepResult>,
    context: map<string, Output>,
    bundle: Option<Bundle>,
    toolResult: Option<Bundle>,
    errors: seq<Issue>,
    failedNode: Option<Node>,
    failure: Option<Reason>)

  const FRESH_STATE := State(NotStarted, Null, None, None, [], [], [], map[], None, None, [], None, None)

  function EmptyBundle(status: ResultStatus, errors: seq<Issue>): Bundle {
    Bundle(status, [], [], [], [], [], errors)
  }

  function ResultOfStatus(status: RunStatus): ResultStatus {
    if status.InvalidPlan? then ValidationFailed else ErrorStatus
  }

  function FailWith(s: State, node: Node, reason: Reason, status: RunStatus, result: ResultStatus): State {
    s.(status := status,
       failedNode := Some(node),
       failure := Some(reason),
       errors := [Own(reason)],
       bundle := Some(EmptyBundle(result, [Own(reason)])))
  }

  function Fail(s: State, node: Node, reason: Reason, status: RunStatus): State {
    FailWith(s, node, reason, status, ResultOfStatus(status))
  }

  /*** Environment ***/

  datatype InputCheck = InputOk | PermissionProblem(code: string) | InputProblem(code: string)

  datatype PlannerAnswer = ModelUnavailable | ModelFailed | Unreadable | Answer(plan: Json)

  /** An accepted plan, and the object the validator returns for it. */
  datatype Checked = Checked(plan: Plan, normalized: Json)

  function CheckPlan(plan: Json): Outcome<Checked> {
    match Validated(plan)
    case Accepted(p) => Accepted(Checked(p, PlanJson(p)))
    case Rejected(code) => Rejected(code)
    case Crashed => Crashed
  }

  /**
   What a run depends on: the input check, the planner's answer, the plan validator and the gate
   for SQL outputs, and what the n-th child workflow call of the run returns, None if it raises.
   In the engine the validator is CheckPlan and the gate SqlGate.
   */
  datatype Env = Env(
    input: InputCheck, planner: PlannerAnswer, validate: Json -> Outcome<Checked>,
    gate: Output -> Option<GateReason>, child: nat -> Option<ChildOutput>)

  /** What one child workflow call is given. */
  datatype Call = Call(step: Step, obligations: seq<Json>, context: map<string, Output>)

  /*** sql_rag_agent and runtime_obligation_planner ***/

  function Agent(s: State, input: InputCheck): State {
    match input
    case InputOk => FRESH_STATE
    case PermissionProblem(code) => FailWith(s, AgentNode, InputReason(code), Blocked, AccessFailed)
    case InputProblem(code) => Fail(s, AgentNode, InputReason(code), InvalidPlan)
  }

  /** The audit of a parsed plan looks every step type up in a set. */
  predicate TypesHashable(steps: seq<Json>) {
    forall i | 0 <= i < |steps| && steps[i].Obj? :: !Unhashable(Get(steps[i].fields, "step_type"))
  }

  /** None: the planner raises. */
  function Planner(s: State, answer: PlannerAnswer): Option<State> {
    match answer
    case ModelUnavailable => Some(Fail(s, PlannerNode, RuntimePlanModelUnavailable, PlanningFailed))
    case ModelFailed => Some(Fail(s, PlannerNode, RuntimePlanModelError, PlanningFailed))
    case Unreadable => Some(Fail(s, PlannerNode, RuntimePlanUnreadable, PlanningFailed))
    case Answer(plan) =>
      if !plan.Obj? then Some(Fail(s, PlannerNode, RuntimePlanUnreadable, PlanningFailed))
      else if Get(plan.fields, "status") != Str("planned")
      then Some(Fail(s, PlannerNode, RuntimePlanInvalidStatus, PlanningFailed))
      else if ListOrEmpty(Get(plan.fields, "obligations")) == []
      then Some(Fail(s, PlannerNode, RuntimePlanMissingObligations, PlanningFailed))
      else if !TypesHashable(ListOrEmpty(Get(plan.fields, "steps"))) then None
      else Some(s.(plan := plan, status := Planned))
  }

  /*** multi_step_runtime_executor ***/

  function ExecutableSteps(plan: Plan): seq<Step> {
    Keep(plan.steps, (s: Step) => s.Executable())
  }

  predicate NonEmptyStrings(j: Json) {
    j.Arr? && j.items != [] && forall i | 0 <= i < |j.items| :: NonEmptyText(j.items[i])
  }

  predicate Objects(j: Json) {
    j.Arr? && forall i | 0 <= i < |j.items| :: j.items[i].Obj?
  }

  predicate HasValue(rows: seq<Json>, column: string) {
    exists r | 0 <= r < |rows| :: rows[r].Obj? && Get(rows[r].fields, column) != Null
  }

  datatype GateReason = MissingOutputContractKey | InvalidColumns | InvalidRows | InvalidRowCount | AllNullColumn

  /** The reason a SQL output does not earn its step's obligations, if there is one. */
  function SqlGate(output: Output): Option<GateReason> {
    var columns, rows, count := Get(output, "columns"), Get(output, "rows"), Get(output, "row_count");
    if "columns" !in output || "rows" !in output || "row_count" !in output then Some(MissingOutputContractKey)
    else if !NonEmptyStrings(columns) then Some(InvalidColumns)
    else if !Objects(rows) then Some(InvalidRows)
    else if !count.Int? || count.n < 0 then Some(InvalidRowCount)
    else if count.n > 0 && exists i | 0 <= i < |columns.items| :: !HasValue(rows.items, columns.items[i].s)
    then Some(AllNullColumn)
    else None
  }

  /** `covered.extend(id for id in ids if id not in covered)`, which sees its own additions. */
  function ExtendUnique(covered: seq<string>, ids: seq<string>): seq<string>
    decreases |ids|
  {
    if ids == [] then covered
    else ExtendUnique(if ids[0] in covered then covered else covered + [ids[0]], ids[1..])
  }

  datatype Coverage = NotSql | GateClosed | Credited(covered: seq<string>)

  function FindSqlStep(steps: seq<Step>, id: string): Option<Step> {
    if steps == [] then None
    else if steps[0].id == id && steps[0].stepType.Sql? then Some(steps[0])
    else FindSqlStep(steps[1..], id)
  }

  function SqlCoverage(
    results: seq<StepResult>, plan: Plan, covered: seq<string>, gate: Output -> Option<GateReason>): Coverage
  {
    if results == [] then NotSql
    else
      var last := results[|results| - 1];
      if !last.status.Success? || last.stepType != "sql" then NotSql
      else
        var step := FindSqlStep(plan.steps, last.stepId);
        if step.None? || gate(last.output).Some? then GateClosed
        else Credited(ExtendUnique(covered, step.value.obligationIds))
  }

  datatype NextStep = RunStep(step: Step) | NothingReady | Uncovered | AllDone

  function ReadyScan(steps: seq<Step>, completed: set<string>): Option<Step> {
    if steps == [] then None
    else if steps[0].id !in completed && forall d | d in steps[0].dependsOn :: d in completed then Some(steps[0])
    else ReadyScan(steps[1..], completed)
  }

  function ChooseNext(plan: Plan, completed: seq<string>, covered: seq<string>): NextStep {
    var steps := ExecutableSteps(plan);
    match ReadyScan(steps, ToSet(completed))
    case Some(step) => RunStep(step)
    case None =>
      if ToSet(Ids(steps)) - ToSet(completed) != {} then NothingReady
      else if ToSet(covered) != ToSet(ObligationIds(plan.obligations)) then Uncovered
      else AllDone
  }

  function ApplyNext(s: State, next: NextStep): State {
    match next
    case RunStep(step) => s.(status := Running, currentStep := Some(step))
    case NothingReady => Fail(s, ExecutorNode, RuntimePlanBlocked, Blocked)
    case Uncovered => Fail(s, ExecutorNode, UncoveredAtEnd, InvalidPlan)
    case AllDone => s.(status := Complete, currentStep := None)
  }

  function ChildFailure(result: StepResult): Reason {
    if result.errors == [] then ChildWorkflowFailed
    else
      match result.errors[0]
      case Own(reason) => reason
      case Foreign(code, _) => if code == "" then ChildWorkflowFailed else ChildReason(code)
  }

  /** The executor once the plan in the state has been validated. */
  function ExecuteOn(s: State, checked: Checked, gate: Output -> Option<GateReason>): State {
    var plan, stored := checked.plan, checked.normalized;
    if s.results != [] && !s.results[|s.results| - 1].status.Success? then
      s.(status := Blocked, currentStep := None, childResult := None,
         failedNode := Some(ExecutorNode),
         failure := Some(ChildFailure(s.results[|s.results| - 1])),
         plan := stored)
    else
      match SqlCoverage(s.results, plan, s.covered, gate)
      case GateClosed => Fail(s, ExecutorNode, UncoveredByGate, InvalidPlan).(plan := stored)
      case NotSql => ApplyNext(s, ChooseNext(plan, s.completed, s.covered)).(plan := stored)
      case Credited(covered) =>
        ApplyNext(s, ChooseNext(plan, s.completed, covered)).(covered := covered, plan := stored)
  }

  /** None: the validator raised something the executor does not catch. */
  function Executor(s: State, validate: Json -> Outcome<Checked>, gate: Output -> Option<GateReason>): Option<State> {
    if s.status.Blocked? || s.status.InvalidPlan? || s.status.Errored? then Some(s)
    else
      match validate(s.plan)
      case Rejected(code) => Some(Fail(s, ExecutorNode, PlanReason(code), InvalidPlan))
      case Crashed => None
      case Accepted(checked) => Some(ExecuteOn(s, checked, gate))
  }

  /*** perform_rag_sql ***/

  /** The outputs of the declared dependencies; None if one is missing. */
  function ScopedContext(available: map<string, Output>, completed: set<string>, dependsOn: seq<string>): Option<map<string, Output>> {
    if dependsOn == [] then Some(map[])
    else
      var last := dependsOn[|dependsOn| - 1];
      match ScopedContext(available, completed, dependsOn[..|dependsOn| - 1])
      case None => None
      case Some(scoped) =>
        if last !in completed || last !in available then None else Some(scoped[last := available[last]])
  }

  method RequiredDependencyContext(available: map<string, Output>, completed: set<string>, dependsOn: seq<string>)
    returns (r: Option<map<string, Output>>)
    ensures r == ScopedContext(available, completed, dependsOn)
  {
    var scoped: map<string, Output> := map[];
    for i := 0 to |dependsOn|
      invariant ScopedContext(available, completed, dependsOn[..i]) == Some(scoped)
    {
      var producer := dependsOn[i];
      assert dependsOn[..i + 1][..i] == dependsOn[..i];
      if producer !in completed || producer !in available {
        ScopedContextStuck(available, completed, dependsOn, i + 1);
        return None;
      }
      scoped := scoped[producer := available[producer]];
    }
    assert dependsOn[..|dependsOn|] == dependsOn;
    r := Some(scoped);
  }

  lemma {:induction false} ScopedContextStuck(available: map<string, Output>, completed: set<string>, dependsOn: seq<string>, i: nat)
    requires i <= |dependsOn| && ScopedContext(available, completed, dependsOn[..i]).None?
    ensures ScopedContext(available, completed, dependsOn).None?
    decreases |dependsOn| - i
  {
    if i == |dependsOn| {
      assert dependsOn[..i] == dependsOn;
    } else {
      assert dependsOn[..i + 1][..i] == dependsOn[..i];
      ScopedContextStuck(available, completed, dependsOn, i + 1);
    }
  }

  function StepObligations(plan: Json, ids: seq<string>): seq<Json> {
    Keep(ListOrEmpty(Get(Fields(plan), "obligations")),
         (item: Json) => item.Obj? && Get(item.fields, "obligation_id").Str? && Get(item.fields, "obligation_id").s in ids)
  }

  datatype Performed = Performed(st: State, calls: seq<Call>, raised: bool)

  function Perform(s: State, calls: seq<Call>, child: nat -> Option<ChildOutput>): Performed {
    if s.currentStep.None? then Performed(Fail(s, PerformNode, MissingCurrentStep, Blocked), calls, false)
    else
      var step := s.currentStep.value;
      if !step.Executable() then Performed(Fail(s, PerformNode, UnsupportedRuntimeStep, InvalidPlan), calls, false)
      else if Blank(step.goal) then Performed(Fail(s, PerformNode, InvalidRuntimeStepGoal, InvalidPlan), calls, false)
      else
        match ScopedContext(s.context, ToSet(s.completed), step.dependsOn)
        case None => Performed(Fail(s, PerformNode, MissingDependencyContext, Blocked), calls, false)
        case Some(scoped) =>
          var after := calls + [Call(step, StepObligations(s.plan, step.obligationIds), scoped)];
          match child(|calls|)
          case None => Performed(s, after, true)
          case Some(output) => Performed(s.(childResult := Some(output)), after, false)
  }

  /*** normalizer_transformer ***/

  function Malformed(step: Option<Step>): StepResult {
    var error := Own(MalformedChildOutput);
    match step
    case None => StepResult("", "", ValidationFailed, map[], [], [error])
    case Some(s) => StepResult(s.id, StepTypeName(s.stepType), ValidationFailed, map[], [], [error])
  }

  function ResultFor(step: Step, child: ChildOutput): Option<ChildResult> {
    if step.stepType.Rag? then child.rag else child.sql
  }

  function NormalizeResult(step: Step, r: ChildResult): StepResult {
    StepResult(
      if r.stepId == "" then step.id else r.stepId,
      if r.stepType == "" then StepTypeName(step.stepType) else r.stepType,
      r.status, r.output, r.limitations, r.errors)
  }

  function RecordFailure(s: State, result: StepResult): State {
    s.(results := s.results + [result], currentStep := None, childResult := None, errors := s.errors + result.errors)
  }

  function RecordSuccess(s: State, step: Step, result: StepResult): State {
    s.(results := s.results + [result],
       completed := s.completed + [step.id],
       covered := if step.stepType.Rag? then ExtendUnique(s.covered, step.obligationIds) else s.covered,
       context := s.context[step.id := result.output],
       currentStep := None,
       childResult := None)
  }

  function Normalizer(s: State): State {
    if s.currentStep.None? || s.childResult.None? then RecordFailure(s, Malformed(s.currentStep))
    else
      var step := s.currentStep.value;
      match ResultFor(step, s.childResult.value)
      case None => RecordFailure(s, Malformed(Some(step)))
      case Some(r) =>
        if r.status.Success? then RecordSuccess(s, step, NormalizeResult(step, r))
        else RecordFailure(s, NormalizeResult(step, r))
  }

  /*** final_result_bundle and adapter ***/

  function StatusOfResults(results: seq<StepResult>): ResultStatus {
    if results == [] then InsufficientEvidence
    else if exists i | 0 <= i < |results| :: results[i].status.AccessFailed? then AccessFailed
    else if exists i | 0 <= i < |results| :: results[i].status.ValidationFailed? then ValidationFailed
    else if exists i | 0 <= i < |results| :: results[i].status.ErrorStatus? then ErrorStatus
    else if exists i | 0 <= i < |results| :: results[i].status.InsufficientEvidence? then InsufficientEvidence
    else Success
  }

  predicate ValidContract(output: Output) {
    var columns, rows, count := Get(output, "columns"), Get(output, "rows"), Get(output, "row_count");
    columns.Arr? && AllStrings(columns.items) && Objects(rows) && count.Int? && count.n >= 0
  }

  function RowsOf(r: StepResult): seq<Json> {
    if r.stepType == "sql" && ValidContract(r.output) then Get(r.output, "rows").items else []
  }

  function EvidenceOf(r: StepResult): seq<Json> {
    if r.stepType == "rag" then ListOrEmpty(Get(r.output, "validated_evidence")) else []
  }

  function CitationsOf(r: StepResult): seq<Json> {
    if r.stepType == "rag" then ListOrEmpty(Get(r.output, "validated_citations")) else []
  }

  predicate HasOutput(r: StepResult) {
    r.status.Success? && ((r.stepType == "sql" && ValidContract(r.output)) || EvidenceOf(r) != [])
  }

  function IssueKey(i: Issue): (string, string) {
    match i
    case Own(reason) => OwnText(reason)
    case Foreign(code, message) => (code, message)
  }

  function Deduped(errors: seq<Issue>): seq<Issue> {
    FirstBy(errors, IssueKey, {})
  }

  method DedupeErrors(errors: seq<Issue>) returns (unique: seq<Issue>)
    ensures unique == Deduped(errors)
  {
    var seen: set<(string, string)> := {};
    unique := [];
    for i := 0 to |errors|
      invariant Deduped(errors) == unique + FirstBy(errors[i..], IssueKey, seen)
    {
      FirstByRound(errors, i, IssueKey, seen, unique);
      var key := IssueKey(errors[i]);
      if key in seen {
        continue;
      }
      seen := seen + {key};
      unique := unique + [errors[i]];
    }
  }

  /** The reported errors are the first ones of each code and message, in order. */
  lemma FirstErrorsAreKept(errors: seq<Issue>)
    ensures Deduped(errors) == Select(errors, (i: nat) => New(errors, IssueKey, i))
    ensures Distinct(Map(Deduped(errors), IssueKey))
  {
    assert errors[..|errors|] == errors;
    FirstByIsSelection(errors, |errors|, IssueKey);
    FirstByDistinct(errors, IssueKey, {});
  }

  function ErrorsOf(r: StepResult): seq<Issue> {
    r.errors
  }

  function LimitationsOf(r: StepResult): seq<Json> {
    r.limitations
  }

  function BundleOf(results: seq<StepResult>, errors: seq<Issue>): Bundle {
    var status := StatusOfResults(results);
    var empty := status.Success? && !AnyOutput(results);
    var reported := errors + Concat(results, ErrorsOf) + if empty then [Own(NoValidatedOutputs)] else [];
    Bundle(
      if empty then InsufficientEvidence else status,
      results,
      Concat(results, EvidenceOf),
      Concat(results, CitationsOf),
      Concat(results, RowsOf),
      Concat(results, LimitationsOf),
      Deduped(reported))
  }

  /** What one step result adds to the bundle. */
  method StepMaterial(r: StepResult)
    returns (rows: seq<Json>, evidence: seq<Json>, citations: seq<Json>, useful: bool)
    ensures rows == RowsOf(r) && evidence == EvidenceOf(r) && citations == CitationsOf(r) && useful == HasOutput(r)
  {
    rows, evidence, citations, useful := [], [], [], false;
    if r.stepType == "sql" {
      if ValidContract(r.output) {
        rows := Get(r.output, "rows").items;
        useful := r.status.Success?;
      }
    } else if r.stepType == "rag" {
      evidence := ListOrEmpty(Get(r.output, "validated_evidence"));
      citations := ListOrEmpty(Get(r.output, "validated_citations"));
      useful := r.status.Success? && evidence != [];
    }
  }

  predicate AnyOutput(results: seq<StepResult>) {
    exists i | 0 <= i < |results| :: HasOutput(results[i])
  }

  /** The loop of the node. */
  method FoldResults(results: seq<StepResult>, stateErrors: seq<Issue>)
    returns (evidence: seq<Json>, citations: seq<Json>, rows: seq<Json>, limitations: seq<Json>, errors: seq<Issue>, hasOutput: bool)
    ensures evidence == Concat(results, EvidenceOf)
    ensures citations == Concat(results, CitationsOf)
    ensures rows == Concat(results, RowsOf)
    ensures limitations == Concat(results, LimitationsOf)
    ensures errors == stateErrors + Concat(results, ErrorsOf)
    ensures hasOutput == AnyOutput(results)
  {
    evidence, citations, rows, limitations, errors, hasOutput := [], [], [], [], stateErrors, false;
    for i := 0 to |results|
      invariant evidence == Concat(results[..i], EvidenceOf)
      invariant citations == Concat(results[..i], CitationsOf)
      invariant rows == Concat(results[..i], RowsOf)
      invariant limitations == Concat(results[..i], LimitationsOf)
      invariant errors == stateErrors + Concat(results[..i], ErrorsOf)
      invariant hasOutput == AnyOutput(results[..i])
    {
      var r := results[i];
      ConcatNext(results, i, EvidenceOf);
      ConcatNext(results, i, CitationsOf);
      ConcatNext(results, i, RowsOf);
      ConcatNext(results, i, LimitationsOf);
      ErrorsNext(results, i, stateErrors);
      AnyOutputNext(results, i);
      var stepRows, stepEvidence, stepCitations, useful := StepMaterial(r);
      limitations := limitations + r.limitations;
      errors := errors + r.errors;
      rows := rows + stepRows;
      evidence := evidence + stepEvidence;
      citations := citations + stepCitations;
      hasOutput := hasOutput || useful;
    }
    assert results[..|results|] == results;
  }

  lemma ErrorsNext(results: seq<StepResult>, i: nat, stateErrors: seq<Issue>)
    requires i < |results|
    ensures stateErrors + Concat(results[..i + 1], ErrorsOf)
      == (stateErrors + Concat(results[..i], ErrorsOf)) + results[i].errors
  {
    ConcatNext(results, i, ErrorsOf);
    assert (stateErrors + Concat(results[..i], ErrorsOf)) + results[i].errors
      == stateErrors + (Concat(results[..i], ErrorsOf) + results[i].errors);
  }

  lemma AnyOutputNext(results: seq<StepResult>, i: nat)
    requires i < |results|
    ensures AnyOutput(results[..i + 1]) <==> AnyOutput(results[..i]) || HasOutput(results[i])
  {
    if HasOutput(results[i]) {
      assert HasOutput(results[..i + 1][i]);
    }
    if j :| 0 <= j < i && HasOutput(results[..i][j]) {
      assert HasOutput(results[..i + 1][j]);
    }
  }

  method BuildBundle(results: seq<StepResult>, stateErrors: seq<Issue>) returns (b: Bundle)
    ensures b == BundleOf(results, stateErrors)
  {
    var status := StatusOfResults(results);
    var evidence, citations, rows, limitations, errors, hasOutput := FoldResults(results, stateErrors);
    if status.Success? && !hasOutput {
      status := InsufficientEvidence;
      errors := errors + [Own(NoValidatedOutputs)];
    } else {
      assert errors + [] == errors;
    }
    var unique := DedupeErrors(errors);
    b := Bundle(status, results, evidence, citations, rows, limitations, unique);
  }

  /** Collecting the columns of a result raises on a true value that cannot be iterated. */
  predicate ColumnsRaise(output: Output) {
    match Get(output, "columns")
    case Bool(b) => b
    case Int(n) => n != 0
    case Real(r) => r != 0.0
    case _ => false
  }

  predicate AnyColumnsRaise(results: seq<StepResult>) {
    exists i | 0 <= i < |results| :: ColumnsRaise(results[i].output)
  }

  function WithBundle(s: State): State {
    if s.bundle.Some? then s else s.(bundle := Some(BundleOf(s.results, s.errors)))
  }

  /** None: the node raises. */
  function FinalResultBundle(s: State): Option<State> {
    if s.bundle.None? && AnyColumnsRaise(s.results) then None else Some(WithBundle(s))
  }

  function WithToolResult(s: State): State {
    s.(toolResult :=
      if s.bundle.Some? then s.bundle
      else Some(EmptyBundle(ErrorStatus, [Own(MissingFinalResultBundle)])))
  }

  /** None: the node raises. */
  function Adapter(s: State): Option<State> {
    if s.bundle.Some? && AnyColumnsRaise(s.bundle.value.outputs) then None else Some(WithToolResult(s))
  }

  /*** The graph ***/

  function AfterAgent(s: State): Node {
    if s.status.NotStarted? then PlannerNode else BundleNode
  }

  function AfterPlanner(s: State): Node {
    if s.status.Planned? then ExecutorNode else BundleNode
  }

  function AfterExecutor(s: State): Node {
    if s.status.Running? && s.currentStep.Some? then PerformNode else BundleNode
  }

  /** A point of a run: the node about to be visited, the state, the child calls and visits so far. */
  datatype Config = Config(node: Node, st: State, calls: seq<Call>, visits: nat)

  const START := Config(AgentNode, FRESH_STATE, [], 0)

  function Visit(c: Config, node: Node, st: State): Config {
    Config(node, st, c.calls, c.visits + 1)
  }

  /** A visit to a node that may raise. */
  function TryVisit(c: Config, node: Node, st: Option<State>): Config {
    if st.Some? then Visit(c, node, st.value) else Visit(c, CrashNode, c.st)
  }

  function Advance(env: Env, c: Config): Config {
    match c.node
    case AgentNode => var st := Agent(c.st, env.input); Visit(c, AfterAgent(st), st)
    case PlannerNode =>
      var st := Planner(c.st, env.planner);
      TryVisit(c, if st.Some? then AfterPlanner(st.value) else CrashNode, st)
    case ExecutorNode =>
      var st := Executor(c.st, env.validate, env.gate);
      TryVisit(c, if st.Some? then AfterExecutor(st.value) else CrashNode, st)
    case PerformNode =>
      var p := Perform(c.st, c.calls, env.child);
      Config(if p.raised then CrashNode else NormalizerNode, p.st, p.calls, c.visits + 1)
    case NormalizerNode => Visit(c, ExecutorNode, Normalizer(c.st))
    case BundleNode => TryVisit(c, AdapterNode, FinalResultBundle(c.st))
    case AdapterNode => TryVisit(c, EndNode, Adapter(c.st))
    case EndNode => c
    case CrashNode => c
  }

  function Visits(env: Env): Config -> Config {
    (c: Config) => Advance(env, c)
  }

  /** The run after n node visits. */
  function RunFor(env: Env, n: nat): Config {
    Iterate(Visits(env), START, n)
  }
}
