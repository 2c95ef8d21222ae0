/**
 What a run over an accepted plan leaves behind, said in terms of the children's answers alone:
 which steps deliver, what is credited, and what the caller is told.
 */
module RunReport {
  import opened Json
  import opened PlanProperties
  import opened RunEngine
  import opened RunProperties
  import opened RuntimePlan
  import opened Sequences
  import opened Text
  import opened Wrappers

  /*** What a SQL output has to be ***/

  predicate HasKeys(output: Output) {
    "columns" in output && "rows" in output && "row_count" in output
  }

  /** At least one column, each named by a text that is not empty. */
  predicate NamesColumns(columns: Json) {
    columns.Arr? && columns.items != [] && forall c | c in columns.items :: c.Str? && c.s != ""
  }

  predicate ListsObjects(rows: Json) {
    rows.Arr? && forall row | row in rows.items :: row.Obj?
  }

  predicate IsCount(count: Json) {
    count.Int? && count.n >= 0
  }

  /** Some row has a value in the column. */
  ghost predicate Filled(rows: seq<Json>, column: string) {
    exists row :: row in rows && row.Obj? && column in row.fields && row.fields[column] != Null
  }

  /** Every column has a value, where rows are promised. */
  ghost predicate NoEmptyColumn(output: Output)
    requires HasKeys(output) && NamesColumns(output["columns"]) && ListsObjects(output["rows"]) && IsCount(output["row_count"])
  {
    output["row_count"].n > 0 ==> forall c | c in output["columns"].items :: Filled(output["rows"].items, c.s)
  }

  ghost predicate Deliverable(output: Output) {
    && HasKeys(output)
    && NamesColumns(output["columns"]) && ListsObjects(output["rows"]) && IsCount(output["row_count"])
    && NoEmptyColumn(output)
  }

  lemma ColumnsAgree(j: Json)
    ensures NonEmptyStrings(j) <==> NamesColumns(j)
  {
    if j.Arr? {
      assert forall i | 0 <= i < |j.items| :: j.items[i] in j.items;
    }
  }

  lemma RowsAgree(j: Json)
    ensures Objects(j) <==> ListsObjects(j)
  {
    if j.Arr? {
      assert forall i | 0 <= i < |j.items| :: j.items[i] in j.items;
    }
  }

  lemma ValueAgrees(rows: seq<Json>, column: string)
    ensures HasValue(rows, column) <==> Filled(rows, column)
  {
    if i :| 0 <= i < |rows| && rows[i].Obj? && Get(rows[i].fields, column) != Null {
      assert rows[i] in rows;
    }
    if row :| row in rows && row.Obj? && column in row.fields && row.fields[column] != Null {
      var i :| 0 <= i < |rows| && rows[i] == row;
    }
  }

  lemma EmptyColumnsAgree(columns: seq<Json>, rows: seq<Json>)
    requires forall c | c in columns :: c.Str?
    ensures (exists i | 0 <= i < |columns| :: !HasValue(rows, columns[i].s)) <==>
      !(forall c | c in columns :: Filled(rows, c.s))
  {
    forall i | 0 <= i < |columns|
      ensures columns[i].Str? && (HasValue(rows, columns[i].s) <==> Filled(rows, columns[i].s))
    {
      assert columns[i] in columns;
      ValueAgrees(rows, columns[i].s);
    }
  }

  /** The gate opens for deliverable outputs and gives the first clause that is broken otherwise. */
  lemma GateIsExact(output: Output)
    ensures SqlGate(output) == None <==> Deliverable(output)
    ensures SqlGate(output) == Some(MissingOutputContractKey) <==> !HasKeys(output)
    ensures SqlGate(output) == Some(InvalidColumns) <==> HasKeys(output) && !NamesColumns(output["columns"])
    ensures SqlGate(output) == Some(InvalidRows) <==>
      HasKeys(output) && NamesColumns(output["columns"]) && !ListsObjects(output["rows"])
    ensures SqlGate(output) == Some(InvalidRowCount) <==>
      HasKeys(output) && NamesColumns(output["columns"]) && ListsObjects(output["rows"]) && !IsCount(output["row_count"])
  {
    if HasKeys(output) {
      ColumnsAgree(output["columns"]);
      RowsAgree(output["rows"]);
      if NamesColumns(output["columns"]) && ListsObjects(output["rows"]) {
        EmptyColumnsAgree(output["columns"].items, output["rows"].items);
      }
    }
  }

  /*** Which steps deliver ***/

  /** What the child of step j reports under the name of its kind. */
  function Said(r: Run, j: nat): Option<ChildResult>
    requires j < |r.steps|
  {
    if r.env.child(j).None? then None
    else
      match r.steps[j].stepType
      case Sql => r.env.child(j).value.sql
      case Rag => r.env.child(j).value.rag
      case FinalResult => None
  }

  /** The step's child is asked and reports success. */
  predicate Succeeds(r: Run, j: nat)
    requires j < |r.steps|
  {
    Visible(r.steps[j].goal) && Said(r, j).Some? && Said(r, j).value.status.Success?
  }

  ghost predicate Delivers(r: Run, j: nat)
    requires j < |r.steps|
  {
    Succeeds(r, j) && (r.steps[j].stepType.Sql? ==> Deliverable(Said(r, j).value.output))
  }

  /** The first m steps deliver. */
  ghost predicate Delivered(r: Run, m: nat)
    requires m <= |r.steps|
  {
    forall j: nat | j < m :: Delivers(r, j)
  }

  /** An accepted run of the engine with its own gate. */
  ghost predicate EngineRun(r: Run) {
    AcceptedRun(r) && Echoing(r) && Schedule(r.plan, r.steps) && r.env.gate == SqlGate
  }

  lemma ReportedIsSaid(r: Run, j: nat)
    requires j < |r.steps| && r.steps[j].Executable()
    ensures r.Reported(j) == Said(r, j)
    ensures Said(r, j).Some? ==> r.Result(j) == Said(r, j).value
    ensures r.Answered(j) <==> Succeeds(r, j)
    ensures r.Raised(j) <==> Visible(r.steps[j].goal) && r.env.child(j).None?
  {
    VisibleIsNotBlank(r.steps[j].goal);
  }

  /** A step passes exactly if it delivers. */
  lemma PassingIsDelivering(r: Run, j: nat)
    requires j < |r.steps| && r.steps[j].Executable() && r.env.gate == SqlGate
    ensures r.Passed(j) <==> Delivers(r, j)
  {
    ReportedIsSaid(r, j);
    if Said(r, j).Some? {
      GateIsExact(Said(r, j).value.output);
    }
  }

  lemma DeliveredIsPassed(r: Run, m: nat)
    requires EngineRun(r) && m <= |r.steps|
    ensures r.AllPassed(m) <==> Delivered(r, m)
    ensures Delivered(r, m) && (m < |r.steps| ==> !Delivers(r, m)) ==> r.FirstStop(0) == m
  {
    forall j: nat | j < |r.steps|
      ensures r.Passed(j) <==> Delivers(r, j)
    {
      PassingIsDelivering(r, j);
    }
    if Delivered(r, m) && (m < |r.steps| ==> !Delivers(r, m)) {
      FirstStopIs(r, m);
    }
  }

  /*** What is recorded ***/

  function TypeText(t: StepType): string {
    if t.Sql? then "sql" else if t.Rag? then "rag" else "final_result"
  }

  /** The record of a step whose child succeeded: the step's own id and type, the child's content. */
  function SuccessOf(step: Step, said: ChildResult): StepResult {
    StepResult(step.id, TypeText(step.stepType), Success, said.output, said.limitations, said.errors)
  }

  ghost predicate RecordsSuccesses(r: Run, results: seq<StepResult>, m: nat)
    requires m <= |r.steps| && m <= |results|
  {
    forall j: nat | j < m :: Said(r, j).Some? && results[j] == SuccessOf(r.steps[j], Said(r, j).value)
  }

  lemma ResultIsSuccess(r: Run, j: nat)
    requires j < |r.steps| && r.steps[j].Executable() && Echoing(r) && Succeeds(r, j)
    ensures NormalizeResult(r.steps[j], r.Result(j)) == SuccessOf(r.steps[j], Said(r, j).value)
  {
    ReportedIsSaid(r, j);
    assert EchoesAt(r, j);
  }

  lemma SuccessesRecorded(r: Run, m: nat)
    requires EngineRun(r) && m <= |r.steps| && Delivered(r, m)
    ensures RecordsSuccesses(r, r.Results(m), m)
  {
    forall j: nat | j < m
      ensures Said(r, j).Some? && r.Results(m)[j] == SuccessOf(r.steps[j], Said(r, j).value)
    {
      assert Delivers(r, j);
      ResultIsSuccess(r, j);
    }
  }

  /** The record of a step whose child did not succeed. */
  function FailureRecord(step: Step, said: Option<ChildResult>): StepResult {
    match said
    case None =>
      StepResult(step.id, TypeText(step.stepType), ValidationFailed, map[], [], [Own(MalformedChildOutput)])
    case Some(c) =>
      StepResult(
        if c.stepId != "" then c.stepId else step.id,
        if c.stepType != "" then c.stepType else TypeText(step.stepType),
        c.status, c.output, c.limitations, c.errors)
  }

  lemma FailureRecorded(r: Run, m: nat)
    requires m < |r.steps| && r.steps[m].Executable() && Visible(r.steps[m].goal)
    ensures r.FailureOf(m) == FailureRecord(r.steps[m], Said(r, m))
  {
    ReportedIsSaid(r, m);
    VisibleIsNotBlank(r.steps[m].goal);
  }

  /*** What is bundled ***/

  /** A SQL result with a list of texts as columns, a list of objects as rows and a count. */
  predicate CarriesRows(s: StepResult) {
    && s.stepType == "sql" && HasKeys(s.output)
    && s.output["columns"].Arr? && (forall c | c in s.output["columns"].items :: c.Str?)
    && ListsObjects(s.output["rows"]) && IsCount(s.output["row_count"])
  }

  /** The rows of the first n results, result by result. */
  function RowsIn(results: seq<StepResult>, n: nat): seq<Json>
    requires n <= |results|
  {
    if n == 0 then []
    else RowsIn(results, n - 1) + if CarriesRows(results[n - 1]) then results[n - 1].output["rows"].items else []
  }

  predicate CarriesList(s: StepResult, key: string) {
    s.stepType == "rag" && key in s.output && s.output[key].Arr?
  }

  /** The items that document results list under a key. */
  function ItemsIn(results: seq<StepResult>, key: string, n: nat): seq<Json>
    requires n <= |results|
  {
    if n == 0 then []
    else ItemsIn(results, key, n - 1) + if CarriesList(results[n - 1], key) then results[n - 1].output[key].items else []
  }

  function LimitationsIn(results: seq<StepResult>, n: nat): seq<Json>
    requires n <= |results|
  {
    if n == 0 then [] else LimitationsIn(results, n - 1) + results[n - 1].limitations
  }

  function ErrorsIn(results: seq<StepResult>, n: nat): seq<Issue>
    requires n <= |results|
  {
    if n == 0 then [] else ErrorsIn(results, n - 1) + results[n - 1].errors
  }

  lemma ContractAgrees(s: StepResult)
    ensures s.stepType == "sql" ==> (ValidContract(s.output) <==> CarriesRows(s))
  {
    if "rows" in s.output {
      RowsAgree(s.output["rows"]);
    }
    if "columns" in s.output && s.output["columns"].Arr? {
      var items := s.output["columns"].items;
      assert forall i | 0 <= i < |items| :: items[i] in items;
    }
  }

  lemma ProjectionsAgree(s: StepResult)
    ensures RowsOf(s) == if CarriesRows(s) then s.output["rows"].items else []
    ensures EvidenceOf(s) ==
      if CarriesList(s, "validated_evidence") then s.output["validated_evidence"].items else []
    ensures CitationsOf(s) ==
      if CarriesList(s, "validated_citations") then s.output["validated_citations"].items else []
  {
    ContractAgrees(s);
  }

  lemma {:induction false} BundledParts(results: seq<StepResult>, n: nat)
    requires n <= |results|
    ensures Concat(results[..n], RowsOf) == RowsIn(results, n)
    ensures Concat(results[..n], EvidenceOf) == ItemsIn(results, "validated_evidence", n)
    ensures Concat(results[..n], CitationsOf) == ItemsIn(results, "validated_citations", n)
    ensures Concat(results[..n], LimitationsOf) == LimitationsIn(results, n)
    ensures Concat(results[..n], ErrorsOf) == ErrorsIn(results, n)
  {
    if n > 0 {
      BundledParts(results, n - 1);
      ProjectionsAgree(results[n - 1]);
      ConcatNext(results, n - 1, RowsOf);
      ConcatNext(results, n - 1, EvidenceOf);
      ConcatNext(results, n - 1, CitationsOf);
      ConcatNext(results, n - 1, LimitationsOf);
      ConcatNext(results, n - 1, ErrorsOf);
    }
  }

  /** A successful SQL result with rows to show, or a successful document result with evidence. */
  predicate Useful(s: StepResult) {
    && s.status.Success?
    && (CarriesRows(s) || (CarriesList(s, "validated_evidence") && s.output["validated_evidence"].items != []))
  }

  /** The first failing status in the order of gravity; nothing at all is insufficient evidence. */
  ghost predicate GravestStatus(results: seq<StepResult>, status: ResultStatus) {
    if results == [] then status == InsufficientEvidence
    else if exists s :: s in results && s.status.AccessFailed? then status == AccessFailed
    else if exists s :: s in results && s.status.ValidationFailed? then status == ValidationFailed
    else if exists s :: s in results && s.status.ErrorStatus? then status == ErrorStatus
    else if exists s :: s in results && s.status.InsufficientEvidence? then status == InsufficientEvidence
    else status == Success
  }

  lemma StatusAgrees(results: seq<StepResult>)
    ensures GravestStatus(results, StatusOfResults(results))
  {
    assert forall i | 0 <= i < |results| :: results[i] in results;
    assert forall s | s in results :: exists i | 0 <= i < |results| :: results[i] == s;
  }

  ghost predicate SomeUseful(results: seq<StepResult>) {
    exists s :: s in results && Useful(s)
  }

  /** All results succeeded, and none of them has anything to show. */
  ghost predicate Barren(results: seq<StepResult>) {
    GravestStatus(results, Success) && !SomeUseful(results)
  }

  function KeyOfIssue(i: Issue): (string, string) {
    match i
    case Own(reason) => OwnText(reason)
    case Foreign(code, message) => (code, message)
  }

  /** The bundle of some results and of the errors the state already holds. */
  ghost predicate BundleHolds(b: Bundle, results: seq<StepResult>, errors: seq<Issue>) {
    var n := |results|;
    var reported := errors + ErrorsIn(results, n) + if Barren(results) then [Own(NoValidatedOutputs)] else [];
    && b.outputs == results
    && (if Barren(results) then b.status == InsufficientEvidence else GravestStatus(results, b.status))
    && b.rows == RowsIn(results, n)
    && b.evidence == ItemsIn(results, "validated_evidence", n)
    && b.citations == ItemsIn(results, "validated_citations", n)
    && b.limitations == LimitationsIn(results, n)
    && b.errors == Select(reported, (i: nat) => New(reported, KeyOfIssue, i))
  }

  lemma UsefulAgrees(s: StepResult)
    ensures HasOutput(s) <==> Useful(s)
  {
    ContractAgrees(s);
  }

  lemma AnyOutputAgrees(results: seq<StepResult>)
    ensures AnyOutput(results) <==> SomeUseful(results)
  {
    forall i | 0 <= i < |results|
      ensures results[i] in results && (HasOutput(results[i]) <==> Useful(results[i]))
    {
      UsefulAgrees(results[i]);
    }
    if s :| s in results && Useful(s) {
      var i :| 0 <= i < |results| && results[i] == s;
    }
  }

  lemma KeysAgree(errors: seq<Issue>)
    ensures Deduped(errors) == Select(errors, (i: nat) => New(errors, KeyOfIssue, i))
  {
    FirstErrorsAreKept(errors);
    SelectSame(errors, (i: nat) => New(errors, IssueKey, i), (i: nat) => New(errors, KeyOfIssue, i));
  }

  lemma {:induction false} SelectSame<T>(s: seq<T>, p: nat -> bool, q: nat -> bool)
    requires forall i: nat | i < |s| :: p(i) == q(i)
    ensures Select(s, p) == Select(s, q)
  {
    if s != [] {
      SelectSame(s[..|s| - 1], p, q);
    }
  }

  lemma OneGravestStatus(results: seq<StepResult>, a: ResultStatus, b: ResultStatus)
    requires GravestStatus(results, a) && GravestStatus(results, b)
    ensures a == b
  {
  }

  /** The bundle holds the rows, evidence, citations, limitations and errors of the results, in their order. */
  lemma BundleIsExact(results: seq<StepResult>, errors: seq<Issue>)
    ensures BundleHolds(BundleOf(results, errors), results, errors)
  {
    var n := |results|;
    var reported := errors + ErrorsIn(results, n) + if Barren(results) then [Own(NoValidatedOutputs)] else [];
    BundledParts(results, n);
    assert results[..n] == results;
    AnyOutputAgrees(results);
    StatusAgrees(results);
    if GravestStatus(results, Success) {
      OneGravestStatus(results, Success, StatusOfResults(results));
    }
    KeysAgree(reported);
  }

  /*** What the caller is told ***/

  function BareBundle(status: ResultStatus, reason: Reason): Bundle {
    Bundle(status, [], [], [], [], [], [Own(reason)])
  }

  /** A node has given up: the reason is the only error, and the bundle holds nothing else. */
  predicate GaveUp(st: State, node: Node, reason: Reason, status: ResultStatus) {
    && st.failedNode == Some(node) && st.failure == Some(reason) && st.errors == [Own(reason)]
    && st.toolResult == Some(BareBundle(status, reason))
  }

  /** The goal is the reason; the node after it adds the output that is missing. */
  predicate BlankGoalNoted(st: State) {
    && st.failedNode == Some(PerformNode) && st.failure == Some(InvalidRuntimeStepGoal)
    && st.errors == [Own(InvalidRuntimeStepGoal), Own(MalformedChildOutput)]
    && st.toolResult == Some(BareBundle(ValidationFailed, InvalidRuntimeStepGoal))
  }

  lemma StepsAreExecutable(r: Run, j: nat)
    requires Schedule(r.plan, r.steps) && j < |r.steps|
    ensures r.steps[j].Executable()
  {
  }

  lemma FinishedEnds(r: Run)
    requires r.FirstStop(0) == |r.steps| && !BundleRaises(r)
    ensures var st := EndOf(r).st;
      && EndOf(r).node.EndNode?
      && st.status.Complete? && st.completed == Ids(r.steps) && st.covered == Claims(r.steps)
      && st.results == r.Results(|r.steps|) && st.errors == []
      && st.toolResult == Some(BundleOf(r.Results(|r.steps|), []))
  {
  }

  /** All steps deliver: everything is completed and credited, and the results are bundled. */
  lemma CompletedReport(r: Run)
    requires EngineRun(r) && Delivered(r, |r.steps|) && !BundleRaises(r)
    ensures var end := RunFor(r.env, 3 * |r.steps| + 5);
      && end.node.EndNode?
      && end.st.status.Complete? && end.st.completed == Ids(r.steps) && end.st.covered == Claims(r.steps)
      && |end.st.results| == |r.steps| && RecordsSuccesses(r, end.st.results, |r.steps|)
      && end.st.toolResult.Some? && BundleHolds(end.st.toolResult.value, end.st.results, [])
  {
    DeliveredIsPassed(r, |r.steps|);
    AcceptedRunEnds(r);
    FinishedEnds(r);
    SuccessesRecorded(r, |r.steps|);
    BundleIsExact(r.Results(|r.steps|), []);
  }

  lemma FailedEnds(r: Run, m: nat)
    requires r.FirstStop(0) == m < |r.steps| && !Blank(r.steps[m].goal) && !r.Answered(m) && !r.Raised(m) && !BundleRaises(r)
    ensures var st := EndOf(r).st;
      && EndOf(r).node.EndNode?
      && st.status.Blocked? && st.completed == Ids(r.steps[..m]) && st.covered == Claims(r.steps[..m])
      && st.results == r.Results(m) + [r.FailureOf(m)] && st.errors == r.FailureOf(m).errors
      && st.toolResult == Some(BundleOf(st.results, st.errors))
      && st.failedNode == Some(ExecutorNode) && st.failure == Some(ChildFailure(r.FailureOf(m)))
  {
    assert [] + r.FailureOf(m).errors == r.FailureOf(m).errors;
  }

  /** The reason is the first error's code, if there is one. */
  ghost predicate ReasonHolds(reason: Reason, errors: seq<Issue>) {
    if errors == [] then reason == ChildWorkflowFailed
    else
      match errors[0]
      case Own(own) => reason == own
      case Foreign(code, _) => reason == if code == "" then ChildWorkflowFailed else ChildReason(code)
  }

  /** Step m is asked and its child answers, but does not succeed; the steps before it deliver. */
  ghost predicate FailsAt(r: Run, m: nat) {
    && m < |r.steps| && Delivered(r, m) && !BundleRaises(r)
    && Visible(r.steps[m].goal) && r.env.child(m).Some? && !Succeeds(r, m)
  }

  lemma FailedState(r: Run, m: nat)
    requires EngineRun(r) && FailsAt(r, m)
    ensures r.FailureOf(m) == FailureRecord(r.steps[m], Said(r, m))
    ensures var end := RunFor(r.env, 3 * |r.steps| + 5);
      && end.node.EndNode?
      && end.st.status.Blocked? && end.st.completed == Ids(r.steps[..m]) && end.st.covered == Claims(r.steps[..m])
      && end.st.results == r.Results(m) + [r.FailureOf(m)]
      && end.st.failedNode == Some(ExecutorNode) && end.st.failure == Some(ChildFailure(r.FailureOf(m)))
      && end.st.toolResult == Some(BundleOf(r.Results(m) + [r.FailureOf(m)], r.FailureOf(m).errors))
  {
    StepsAreExecutable(r, m);
    ReportedIsSaid(r, m);
    PassingIsDelivering(r, m);
    DeliveredIsPassed(r, m);
    VisibleIsNotBlank(r.steps[m].goal);
    AcceptedRunEnds(r);
    FailedEnds(r, m);
    FailureRecorded(r, m);
  }

  lemma RecordsWithFailure(r: Run, results: seq<StepResult>, failure: StepResult, m: nat)
    requires m <= |r.steps| && |results| == m && RecordsSuccesses(r, results, m)
    ensures RecordsSuccesses(r, results + [failure], m) && (results + [failure])[m] == failure
  {
  }

  /** Its record is the last result, with its errors up front. */
  lemma FailedReport(r: Run, m: nat)
    requires EngineRun(r) && FailsAt(r, m)
    ensures var end, failure := RunFor(r.env, 3 * |r.steps| + 5), FailureRecord(r.steps[m], Said(r, m));
      && end.node.EndNode?
      && end.st.status.Blocked? && end.st.completed == Ids(r.steps[..m]) && end.st.covered == Claims(r.steps[..m])
      && |end.st.results| == m + 1 && RecordsSuccesses(r, end.st.results, m) && end.st.results[m] == failure
      && end.st.toolResult.Some? && BundleHolds(end.st.toolResult.value, end.st.results, failure.errors)
      && end.st.failedNode == Some(ExecutorNode) && end.st.failure.Some? && ReasonHolds(end.st.failure.value, failure.errors)
  {
    var results, failure := r.Results(m), r.FailureOf(m);
    FailedState(r, m);
    SuccessesRecorded(r, m);
    RecordsWithFailure(r, results, failure, m);
    BundleIsExact(results + [failure], failure.errors);
    ReasonOfFailure(failure);
  }

  lemma ReasonOfFailure(failure: StepResult)
    ensures ReasonHolds(ChildFailure(failure), failure.errors)
  {
  }

  lemma GatedEnds(r: Run, m: nat)
    requires r.FirstStop(0) == m < |r.steps| && !Blank(r.steps[m].goal) && r.Answered(m) && r.steps[m].stepType.Sql?
    ensures var st := EndOf(r).st;
      && EndOf(r).node.EndNode?
      && st.status.InvalidPlan? && st.completed == Ids(r.steps[..m + 1]) && st.covered == Claims(r.steps[..m])
      && GaveUp(st, ExecutorNode, UncoveredByGate, ValidationFailed)
  {
  }

  lemma ClaimsApart(r: Run, m: nat)
    requires m < |r.steps| && Distinct(Claims(r.steps))
    ensures forall o | o in r.steps[m].obligationIds :: o !in Claims(r.steps[..m])
  {
    ClaimsGrow(r.steps, m);
    ConcatNext(r.steps, m, ClaimsOf);
    assert r.steps == r.steps[..m + 1] + r.steps[m + 1..];
    ConcatAppend(r.steps[..m + 1], r.steps[m + 1..], ClaimsOf);
    DistinctAppend(Claims(r.steps[..m + 1]), Claims(r.steps[m + 1..]));
    DistinctAppend(Claims(r.steps[..m]), r.steps[m].obligationIds);
    assert forall o | o in r.steps[m].obligationIds :: o in ToSet(r.steps[m].obligationIds);
    assert forall o | o in Claims(r.steps[..m]) :: o in ToSet(Claims(r.steps[..m]));
  }

  /**
   The first step that does not deliver is a SQL step whose child succeeds with an output that
   breaks a clause: the run ends with validation_failed, nothing is bundled, and none of the step's
   obligations is credited.
   */
  lemma GateReport(r: Run, m: nat)
    requires EngineRun(r) && m < |r.steps| && Delivered(r, m)
    requires r.steps[m].stepType.Sql? && Succeeds(r, m) && !Deliverable(Said(r, m).value.output)
    ensures var end := RunFor(r.env, 3 * |r.steps| + 5);
      && end.node.EndNode?
      && end.st.status.InvalidPlan? && end.st.completed == Ids(r.steps[..m + 1])
      && end.st.covered == Claims(r.steps[..m])
      && (forall o | o in r.steps[m].obligationIds :: o !in end.st.covered)
      && GaveUp(end.st, ExecutorNode, UncoveredByGate, ValidationFailed)
  {
    StepsAreExecutable(r, m);
    ReportedIsSaid(r, m);
    PassingIsDelivering(r, m);
    DeliveredIsPassed(r, m);
    VisibleIsNotBlank(r.steps[m].goal);
    AcceptedRunEnds(r);
    GatedEnds(r, m);
    ClaimsApart(r, m);
  }

  lemma BlankEnds(r: Run, m: nat)
    requires r.FirstStop(0) == m < |r.steps| && Blank(r.steps[m].goal)
    ensures var end := EndOf(r);
      && end.node.EndNode? && end.calls == r.Calls(m)
      && end.st.status.InvalidPlan? && end.st.completed == Ids(r.steps[..m]) && end.st.covered == Claims(r.steps[..m])
      && BlankGoalNoted(end.st)
  {
  }

  /** A goal of white space only: the step's child is not asked and the run ends with validation_failed. */
  lemma BlankGoalReport(r: Run, m: nat)
    requires EngineRun(r) && m < |r.steps| && Delivered(r, m) && !Visible(r.steps[m].goal)
    ensures var end := RunFor(r.env, 3 * |r.steps| + 5);
      && end.node.EndNode? && |end.calls| == m
      && end.st.status.InvalidPlan? && end.st.completed == Ids(r.steps[..m]) && end.st.covered == Claims(r.steps[..m])
      && BlankGoalNoted(end.st)
  {
    StepsAreExecutable(r, m);
    PassingIsDelivering(r, m);
    DeliveredIsPassed(r, m);
    VisibleIsNotBlank(r.steps[m].goal);
    AcceptedRunEnds(r);
    BlankEnds(r, m);
  }

  /*** When there is nothing to run ***/

  /** Neither null, false, zero nor empty. */
  predicate IsTrue(j: Json) {
    match j
    case Null => false
    case Bool(b) => b
    case Int(n) => n != 0
    case Real(x) => x != 0.0
    case Str(s) => s != ""
    case Arr(items) => items != []
    case Obj(fields) => fields != map[]
  }

  predicate IsIterable(j: Json) {
    j.Str? || j.Arr? || j.Obj?
  }

  /** What the last nodes trip over. */
  lemma ColumnsRaiseExactly(output: Output)
    ensures ColumnsRaise(output) <==>
      "columns" in output && IsTrue(output["columns"]) && !IsIterable(output["columns"])
  {
  }

  /** The reason and the status of a run that never gets a plan, by what stopped it. */
  lemma ReportWithoutPlan(env: Env)
    requires env.input.InputOk? ==>
      Planner(FRESH_STATE, env.planner).Some? && !Planner(FRESH_STATE, env.planner).value.status.Planned?
    ensures var end := RunFor(env, 4);
      && (env.input.PermissionProblem? ==> GaveUp(end.st, AgentNode, InputReason(env.input.code), AccessFailed))
      && (env.input.InputProblem? ==> GaveUp(end.st, AgentNode, InputReason(env.input.code), ValidationFailed))
      && (env.input.InputOk? ==> GaveUp(end.st, PlannerNode, PlannerReason(env.planner), ErrorStatus))
  {
    if env.input.InputOk? {
      TwoVisits(env);
      var d := RunFor(env, 2);
      LastVisits(env, d);
      assert RunFor(env, 3) == Bundled(d);
    } else {
      var c := Advance(env, START);
      assert RunFor(env, 1) == c;
      LastVisits(env, c);
      assert RunFor(env, 2) == Bundled(c);
      assert RunFor(env, 3) == Adapted(c);
    }
  }

  /** Why an answer is no plan. */
  function PlannerReason(answer: PlannerAnswer): Reason {
    match answer
    case ModelUnavailable => RuntimePlanModelUnavailable
    case ModelFailed => RuntimePlanModelError
    case Unreadable => RuntimePlanUnreadable
    case Answer(plan) =>
      if !plan.Obj? then RuntimePlanUnreadable
      else if "status" !in plan.fields || plan.fields["status"] != Str("planned") then RuntimePlanInvalidStatus
      else RuntimePlanMissingObligations
  }

  function CodeOf(r: Reason): string {
    OwnText(r).0
  }

  /** The codes of runs without a plan. */
  lemma PlanningCodes()
    ensures CodeOf(RuntimePlanModelUnavailable) == "runtime_plan_model_unavailable"
    ensures CodeOf(RuntimePlanModelError) == "runtime_plan_model_error"
    ensures CodeOf(RuntimePlanUnreadable) == "runtime_plan_unreadable"
    ensures CodeOf(RuntimePlanInvalidStatus) == "runtime_plan_invalid_status"
    ensures CodeOf(RuntimePlanMissingObligations) == "runtime_plan_missing_obligations"
  {
  }

  /** The codes of runs over an accepted plan. */
  lemma RunCodes()
    ensures CodeOf(ChildWorkflowFailed) == "child_workflow_failed"
    ensures CodeOf(UncoveredByGate) == "uncovered_obligation"
    ensures CodeOf(InvalidRuntimeStepGoal) == "invalid_runtime_step_goal"
    ensures CodeOf(MalformedChildOutput) == "malformed_child_output"
    ensures CodeOf(NoValidatedOutputs) == "no_validated_outputs"
  {
  }

  /** The codes that come from elsewhere are kept. */
  lemma ForeignCodes(text: string)
    ensures CodeOf(InputReason(text)) == CodeOf(PlanReason(text)) == CodeOf(ChildReason(text)) == text
  {
  }
}
