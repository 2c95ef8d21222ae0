/**
 The SQL child workflow: a chain of preparing nodes, then generate, validate, execute and check,
 with one regeneration when the candidate has unbound parameters. Models, the catalog and the
 database are an environment; the parameter count and the read-only verdict are functions of
 the SQL text that come from its parser.
 */
module SqlChild {
  import opened Json
  import RunEngine
  import opened Text
  import opened Wrappers

  datatype SqlStatus = Running | Success | InsufficientEvidence | ValidationFailed | AccessFailed | Error

  datatype Node =
    | Intake | BuildSchema | LoadJoins | ReadSchema | BuildIntent | SelectResources
    | Generate | Validate | Execute | ValidateResult | EmitResult | EmitFailure | End | Crash

  datatype Reason =
    | Preparation | ModelUnavailable | CandidateUnparseable | EmptyCandidateQuery
    | MissingCandidateSql | UnboundSqlParameter | NotReadOnly
    | MissingValidatedSql | RestrictedAccess | ExecutorUnavailable | ExecutionFailed
    | MissingExecutionResult | MalformedExecutionResult

  datatype State = State(
    status: SqlStatus, candidate: Option<string>, regenerations: nat, validated: Option<string>,
    execution: Option<Json>, checked: Option<map<string, Json>>, failedNode: Option<Node>, failure: Option<Reason>)

  const FRESH := State(Running, None, 0, None, None, None, None, None)

  datatype ModelAnswer = Unavailable | Unparseable | Sql(text: string)

  /** The database may also raise what its caller does not catch. */
  datatype DatabaseAnswer = PermissionDenied | NoExecutor | Failed | Raises | Rows(result: Json)

  datatype Preparing = Prepared | Unprepared(status: SqlStatus) | PreparingRaises

  /**
   What a run depends on: how the preparing nodes fare, the answers of the SQL model one after
   another, the unbound parameters that the parser counts in a text, None if it raises, and the
   read-only verdict on a text that it has parsed.
   */
  datatype Env = Env(
    prepare: Node -> Preparing, model: nat -> ModelAnswer,
    parameters: string -> Option<nat>, readOnly: string -> bool, database: string -> DatabaseAnswer)

  function Fail(s: State, node: Node, reason: Reason, status: SqlStatus): State {
    s.(status := status, failedNode := Some(node), failure := Some(reason))
  }

  /** None: the node raises. */
  function Prepare(s: State, node: Node, env: Env): Option<State> {
    match env.prepare(node)
    case Prepared => Some(s)
    case PreparingRaises => None
    case Unprepared(status) => Some(Fail(s, node, Preparation, if status.Running? || status.Success? then Error else status))
  }

  /*** generate_candidate_sql ***/

  datatype Candidate = Found(sql: string) | NotFound(reason: Reason)

  datatype Generation = Generation(candidate: Candidate, attempts: nat)

  function ParseAnswer(a: ModelAnswer): Candidate {
    match a
    case Unavailable => NotFound(ModelUnavailable)
    case Unparseable => NotFound(CandidateUnparseable)
    case Sql(text) => if Blank(text) then NotFound(EmptyCandidateQuery) else Found(Strip(text))
  }

  /** One model call, and a second one when the first answer is blank. */
  function GenerateOnce(model: nat -> ModelAnswer, calls: nat): Generation {
    var first := model(calls);
    if first.Sql? && Blank(first.text) then Generation(ParseAnswer(model(calls + 1)), 2)
    else Generation(ParseAnswer(first), 1)
  }

  /** What one answer of the model comes to: its text without outer white space, or a reason. */
  ghost predicate ComesTo(a: ModelAnswer, c: Candidate) {
    match a
    case Unavailable => c == NotFound(ModelUnavailable)
    case Unparseable => c == NotFound(CandidateUnparseable)
    case Sql(text) => if Visible(text) then c == Found(Strip(text)) else c == NotFound(EmptyCandidateQuery)
  }

  /** Only a blank first answer is followed by a second call, which then decides. */
  ghost predicate GeneratedFrom(g: Generation, first: ModelAnswer, second: ModelAnswer) {
    if first.Sql? && !Visible(first.text) then g.attempts == 2 && ComesTo(second, g.candidate)
    else g.attempts == 1 && ComesTo(first, g.candidate)
  }

  lemma AnswerIsExact(a: ModelAnswer)
    ensures ComesTo(a, ParseAnswer(a))
  {
    if a.Sql? {
      VisibleIsNotBlank(a.text);
    }
  }

  lemma GenerationIsExact(model: nat -> ModelAnswer, calls: nat)
    ensures GeneratedFrom(GenerateOnce(model, calls), model(calls), model(calls + 1))
  {
    AnswerIsExact(model(calls));
    AnswerIsExact(model(calls + 1));
    if model(calls).Sql? {
      VisibleIsNotBlank(model(calls).text);
    }
  }

  method GenerateCandidate(model: nat -> ModelAnswer, calls: nat) returns (g: Generation)
    ensures g == GenerateOnce(model, calls)
    ensures GeneratedFrom(g, model(calls), model(calls + 1))
  {
    GenerationIsExact(model, calls);
    var attempts := 1;
    var raw := model(calls);
    if raw.Sql? && Blank(raw.text) {
      attempts := 2;
      raw := model(calls + 1);
    }
    match raw {
      case Unavailable => return Generation(NotFound(ModelUnavailable), attempts);
      case Unparseable => return Generation(NotFound(CandidateUnparseable), attempts);
      case Sql(text) =>
        var candidate := Strip(text);
        StripEmpty(text);
        if candidate == "" {
          return Generation(NotFound(EmptyCandidateQuery), attempts);
        }
        return Generation(Found(candidate), attempts);
    }
  }

  /** The audit of a candidate counts its parameters. None: the node raises. */
  function ApplyGeneration(s: State, g: Generation, env: Env): Option<State> {
    match g.candidate
    case Found(sql) => if env.parameters(sql).None? then None else Some(s.(candidate := Some(sql)))
    case NotFound(reason) => Some(Fail(s, Generate, reason, Error))
  }

  /*** validate_sql_before_execution ***/

  /** None: the node raises. */
  function ValidateCandidate(s: State, env: Env): Option<State> {
    if s.candidate.None? || Blank(s.candidate.value) then Some(Fail(s, Validate, MissingCandidateSql, ValidationFailed))
    else
      var sql := s.candidate.value;
      match env.parameters(sql)
      case None => None
      case Some(count) =>
        if count > 0 then
          if s.regenerations == 0 then Some(s.(candidate := None, validated := None, regenerations := 1))
          else Some(Fail(s, Validate, UnboundSqlParameter, ValidationFailed))
        else if env.readOnly(sql) then Some(s.(validated := Some(sql)))
        else Some(Fail(s, Validate, NotReadOnly, ValidationFailed))
  }

  /*** execute_sql and validate_sql_result ***/

  /** None: the node raises. */
  function ExecuteSql(s: State, env: Env): Option<State> {
    match s.validated
    case None => Some(Fail(s, Execute, MissingValidatedSql, Error))
    case Some(sql) =>
      match env.database(sql)
      case PermissionDenied => Some(Fail(s, Execute, RestrictedAccess, AccessFailed))
      case NoExecutor => Some(Fail(s, Execute, ExecutorUnavailable, Error))
      case Failed => Some(Fail(s, Execute, ExecutionFailed, ValidationFailed))
      case Raises => None
      case Rows(result) => Some(s.(execution := Some(result)))
  }

  predicate AllObjects(items: seq<Json>) {
    forall i | 0 <= i < |items| :: items[i].Obj?
  }

  /** The checked result, or None if the database handed back something malformed. */
  function CheckResult(fields: map<string, Json>): Option<map<string, Json>> {
    var rows := GetOr(fields, "rows", Arr([]));
    var columns := GetOr(fields, "columns", Arr([]));
    var count := GetOr(fields, "row_count", Int(|ListOrEmpty(rows)|));
    if rows.Arr? && columns.Arr? && AllStrings(columns.items) && AllObjects(rows.items) && count.Int? && count.n >= 0
    then Some(map["rows" := rows, "columns" := columns, "row_count" := count])
    else None
  }

  predicate ListsObjects(j: Json) {
    j.Arr? && forall x | x in j.items :: x.Obj?
  }

  predicate ListsTexts(j: Json) {
    j.Arr? && forall x | x in j.items :: x.Str?
  }

  /** What the database handed back: objects as rows, texts as columns and a count, as far as they are there. */
  predicate WellFormedResult(fields: map<string, Json>) {
    && ("rows" in fields ==> ListsObjects(fields["rows"]))
    && ("columns" in fields ==> ListsTexts(fields["columns"]))
    && ("row_count" in fields ==> fields["row_count"].Int? && fields["row_count"].n >= 0)
  }

  /** The output has the database's rows, columns and count, and what is missing is filled in. */
  ghost predicate CheckedFrom(output: map<string, Json>, fields: map<string, Json>) {
    && output.Keys == {"rows", "columns", "row_count"}
    && output["rows"] == (if "rows" in fields then fields["rows"] else Arr([]))
    && output["columns"] == (if "columns" in fields then fields["columns"] else Arr([]))
    && output["rows"].Arr?
    && output["row_count"] == (if "row_count" in fields then fields["row_count"] else Int(|output["rows"].items|))
  }

  lemma ItemsAgree(items: seq<Json>)
    ensures AllObjects(items) <==> ListsObjects(Arr(items))
    ensures AllStrings(items) <==> ListsTexts(Arr(items))
  {
    assert forall i | 0 <= i < |items| :: items[i] in items;
  }

  lemma ResultCheckIsExact(fields: map<string, Json>)
    ensures CheckResult(fields).Some? <==> WellFormedResult(fields)
    ensures CheckResult(fields).Some? ==> CheckedFrom(CheckResult(fields).value, fields)
  {
    ItemsAgree(ListOrEmpty(GetOr(fields, "rows", Arr([]))));
    ItemsAgree(ListOrEmpty(GetOr(fields, "columns", Arr([]))));
  }

  function ValidateExecution(s: State): State {
    if s.execution.None? || !s.execution.value.Obj? then Fail(s, ValidateResult, MissingExecutionResult, Error)
    else
      match CheckResult(s.execution.value.fields)
      case None => Fail(s, ValidateResult, MalformedExecutionResult, Error)
      case Some(output) => s.(checked := Some(output))
  }

  /*** The graph ***/

  /** The node that follows if the workflow is still running. */
  function NextNode(node: Node): Node {
    match node
    case Intake => BuildSchema
    case BuildSchema => LoadJoins
    case LoadJoins => ReadSchema
    case ReadSchema => BuildIntent
    case BuildIntent => SelectResources
    case SelectResources => Generate
    case Generate => Validate
    case Validate => Execute
    case Execute => ValidateResult
    case ValidateResult => EmitResult
    case EmitResult => End
    case EmitFailure => End
    case End => End
    case Crash => Crash
  }

  function NextOrFailure(node: Node, s: State): Node {
    if s.status.Running? then NextNode(node) else EmitFailure
  }

  function AfterValidation(s: State): Node {
    if !s.status.Running? then EmitFailure
    else if s.validated.Some? then Execute
    else if s.regenerations == 1 && s.candidate.None? then Generate
    else EmitFailure
  }

  /** A point of a run, with what has happened so far. */
  datatype Config = Config(
    node: Node, st: State, generated: nat, modelCalls: nat, executed: seq<string>, emitted: seq<Node>, visits: nat)

  const START := Config(Intake, FRESH, 0, 0, [], [], 0)

  /** Emitting a failure reports the status reached, or `error` if that is not a failure. */
  function FailureStatus(status: SqlStatus): SqlStatus {
    if status.Running? || status.Success? then Error else status
  }

  /** The configuration after a node that may raise. */
  function Leave(c: Config, st: Option<State>, route: State -> Node): Config {
    if st.None? then c.(node := Crash, visits := c.visits + 1)
    else c.(node := route(st.value), st := st.value, visits := c.visits + 1)
  }

  function RouteFrom(node: Node): State -> Node {
    (s: State) => if node.Validate? then AfterValidation(s) else NextOrFailure(node, s)
  }

  function Advance(env: Env, c: Config): Config {
    match c.node
    case End => c
    case Crash => c
    case EmitResult => c.(node := End, st := c.st.(status := Success), emitted := c.emitted + [EmitResult], visits := c.visits + 1)
    case EmitFailure =>
      c.(node := End, st := c.st.(status := FailureStatus(c.st.status)), emitted := c.emitted + [EmitFailure], visits := c.visits + 1)
    case Generate =>
      var g := GenerateOnce(env.model, c.modelCalls);
      Leave(c.(generated := c.generated + 1, modelCalls := c.modelCalls + g.attempts),
            ApplyGeneration(c.st, g, env), RouteFrom(Generate))
    case Validate => Leave(c, ValidateCandidate(c.st, env), RouteFrom(Validate))
    case Execute =>
      Leave(c.(executed := if c.st.validated.Some? then c.executed + [c.st.validated.value] else c.executed),
            ExecuteSql(c.st, env), RouteFrom(Execute))
    case ValidateResult => Leave(c, Some(ValidateExecution(c.st)), RouteFrom(ValidateResult))
    case _ => Leave(c, Prepare(c.st, c.node, env), RouteFrom(c.node))
  }

  function RunFor(env: Env, n: nat): Config {
    if n == 0 then START else Advance(env, RunFor(env, n - 1))
  }

  /*** What every run keeps ***/

  function Position(node: Node): nat {
    match node
    case Intake => 0
    case BuildSchema => 1
    case LoadJoins => 2
    case ReadSchema => 3
    case BuildIntent => 4
    case SelectResources => 5
    case Generate => 6
    case Validate => 7
    case Execute => 8
    case ValidateResult => 9
    case EmitResult => 10
    case EmitFailure => 10
    case End => 11
    case Crash => 11
  }

  /** The only SQL ever executed: free of unbound parameters and read-only. */
  predicate Safe(env: Env, sql: string) {
    env.parameters(sql) == Some(0) && env.readOnly(sql)
  }

  predicate Bounded(env: Env, c: Config) {
    && c.st.regenerations <= 1
    && c.generated <= c.st.regenerations + 1
    && c.modelCalls <= 2 * c.generated
    && |c.executed| <= 1
    && (forall sql | sql in c.executed :: Safe(env, sql))
  }

  predicate Keeps(env: Env, c: Config) {
    && Bounded(env, c)
    && (match c.node
        case Generate =>
          c.st.status.Running? && c.generated == c.st.regenerations && c.st.validated.None? && c.executed == []
        case Validate =>
          c.st.status.Running? && c.generated == c.st.regenerations + 1 && c.st.validated.None? && c.executed == []
          && c.st.candidate.Some?
        case Execute =>
          c.st.status.Running? && c.executed == [] && c.st.validated.Some? && Safe(env, c.st.validated.value)
        case ValidateResult => c.st.status.Running? && |c.executed| == 1
        case EmitResult => c.st.status.Running? && |c.executed| == 1 && c.st.checked.Some?
        case EmitFailure => !c.st.status.Running? && !c.st.status.Success?
        case Crash => true
        case End => c.emitted == [if c.st.status.Success? then EmitResult else EmitFailure]
        case _ => c.st == FRESH && c.generated == 0 && c.executed == [])
    && (c.node.End? || c.emitted == [])
    && (c.node.End? ==>
          && (c.st.status.Success? ==> |c.executed| == 1 && c.st.checked.Some?)
          && !c.st.status.Running?)
    && (if c.node.EmitFailure? || c.node.End? || c.node.Crash? then c.visits <= Position(c.node) + 2
        else c.visits == Position(c.node) + 2 * c.st.regenerations)
  }

  lemma GenerationStaysBounded(env: Env, c: Config)
    requires Keeps(env, c) && c.node.Generate?
    ensures Keeps(env, Advance(env, c))
  {
  }

  lemma StepKeeps(env: Env, c: Config)
    requires Keeps(env, c)
    ensures Keeps(env, Advance(env, c))
  {
    if c.node.Generate? {
      GenerationStaysBounded(env, c);
    }
  }

  lemma {:induction false} RunKeeps(env: Env, n: nat)
    ensures Keeps(env, RunFor(env, n))
    ensures RunFor(env, n).node.End? || RunFor(env, n).node.Crash? || RunFor(env, n).visits == n
  {
    if n > 0 {
      RunKeeps(env, n - 1);
      StepKeeps(env, RunFor(env, n - 1));
    }
  }

  /**
   Every run ends or raises within thirteen node visits, having visited the generate node at most
   twice, called the SQL model at most four times and executed at most one statement, one that
   has no unbound parameter and is read-only; a run that ends has visited exactly one of the two
   emitting nodes, a run that raises neither.
   */
  lemma RunIsBounded(env: Env)
    ensures var c := RunFor(env, 13);
      && (c.node.End? || c.node.Crash?) && c.visits <= 13
      && c.generated <= 2 && c.modelCalls <= 4
      && |c.executed| <= 1 && (forall sql | sql in c.executed :: Safe(env, sql))
      && c.emitted == (if c.node.Crash? then [] else [if c.st.status.Success? then EmitResult else EmitFailure])
      && (c.node.End? && c.st.status.Success? ==> |c.executed| == 1)
  {
    RunKeeps(env, 13);
  }

  /** The bounds hold at every point, not only at the end. */
  lemma RunIsBoundedThroughout(env: Env, n: nat)
    ensures RunFor(env, n).generated <= 2 && RunFor(env, n).modelCalls <= 4
    ensures |RunFor(env, n).executed| <= 1 && forall sql | sql in RunFor(env, n).executed :: Safe(env, sql)
  {
    RunKeeps(env, n);
  }

  /*** What a run amounts to ***/

  const PREPARING := [Intake, BuildSchema, LoadJoins, ReadSchema, BuildIntent, SelectResources]

  /** The position of the first preparing node, from i on, that fails or raises. */
  function FirstFailure(env: Env, i: nat): (m: nat)
    requires i <= 6
    ensures i <= m <= 6
    ensures forall j | i <= j < m :: env.prepare(PREPARING[j]).Prepared?
    ensures m < 6 ==> !env.prepare(PREPARING[m]).Prepared?
    decreases 6 - i
  {
    if i < 6 && env.prepare(PREPARING[i]).Prepared? then FirstFailure(env, i + 1) else i
  }

  /** How a run ends: with a status and a reason, or by raising; and what it has executed. */
  datatype Ending =
    | Succeeds(executed: seq<string>, output: map<string, Json>)
    | Fails(executed: seq<string>, status: SqlStatus, reason: Reason)
    | RunRaises(executed: seq<string>)

  /** The end of a run whose database has answered. */
  function EndingOfResult(sql: string, result: Json): Ending {
    if !result.Obj? then Fails([sql], Error, MissingExecutionResult)
    else
      match CheckResult(result.fields)
      case None => Fails([sql], Error, MalformedExecutionResult)
      case Some(output) => Succeeds([sql], output)
  }

  /** The end of a run on a candidate without unbound parameters. */
  function EndingOfCandidate(env: Env, sql: string): Ending {
    if !env.readOnly(sql) then Fails([], ValidationFailed, NotReadOnly)
    else
      match env.database(sql)
      case PermissionDenied => Fails([sql], AccessFailed, RestrictedAccess)
      case NoExecutor => Fails([sql], Error, ExecutorUnavailable)
      case Failed => Fails([sql], ValidationFailed, ExecutionFailed)
      case Raises => RunRaises([sql])
      case Rows(result) => EndingOfResult(sql, result)
  }

  /** The end of a run on its second generation. */
  function EndingOfSecond(env: Env, second: Candidate): Ending {
    if second.NotFound? then Fails([], Error, second.reason)
    else
      match env.parameters(second.sql)
      case None => RunRaises([])
      case Some(count) =>
        if count == 0 then EndingOfCandidate(env, second.sql) else Fails([], ValidationFailed, UnboundSqlParameter)
  }

  /** A failing status is kept, anything else becomes an error. */
  function FailingStatus(status: SqlStatus): SqlStatus {
    match status
    case InsufficientEvidence => InsufficientEvidence
    case ValidationFailed => ValidationFailed
    case AccessFailed => AccessFailed
    case _ => Error
  }

  /** The end of a run: the first candidate decides unless it has unbound parameters, then the second does. */
  function Expected(env: Env): Ending {
    var m := FirstFailure(env, 0);
    if m < 6 then
      var failed := env.prepare(PREPARING[m]);
      if failed.PreparingRaises? then RunRaises([]) else Fails([], FailingStatus(failed.status), Preparation)
    else
      var first := GenerateOnce(env.model, 0);
      if first.candidate.NotFound? then Fails([], Error, first.candidate.reason)
      else
        match env.parameters(first.candidate.sql)
        case None => RunRaises([])
        case Some(count) =>
          if count == 0 then EndingOfCandidate(env, first.candidate.sql)
          else EndingOfSecond(env, GenerateOnce(env.model, first.attempts).candidate)
  }

  predicate Ended(c: Config, e: Ending) {
    && c.executed == e.executed
    && match e
       case Succeeds(_, output) => c.node.End? && c.st.status.Success? && c.st.checked == Some(output)
       case Fails(_, status, reason) => c.node.End? && c.st.status == status && c.st.failure == Some(reason)
       case RunRaises(_) => c.node.Crash?
  }

  lemma FinalIsFixed(env: Env, c: Config)
    requires c.node.End? || c.node.Crash?
    ensures Advance(env, c) == c
  {
  }

  lemma {:induction false} FixedPointStays(advance: Config -> Config, run: nat -> Config, n: nat, k: nat)
    requires forall i: nat, j: nat | j == i + 1 :: run(j) == advance(run(i))
    requires advance(run(n)) == run(n)
    ensures run(n + k) == run(n)
  {
    if k > 0 {
      FixedPointStays(advance, run, n, k - 1);
      assert run(n + k) == advance(run(n + (k - 1)));
    }
  }

  lemma NextConfig(env: Env, i: nat)
    ensures RunFor(env, i + 1) == Advance(env, RunFor(env, i))
  {
  }

  lemma FinalStays(env: Env, n: nat, k: nat)
    requires RunFor(env, n).node.End? || RunFor(env, n).node.Crash?
    ensures RunFor(env, n + k) == RunFor(env, n)
  {
    var advance, run := (c: Config) => Advance(env, c), (i: nat) => RunFor(env, i);
    forall i: nat, j: nat | j == i + 1
      ensures run(j) == advance(run(i))
    {
      NextConfig(env, i);
    }
    FinalIsFixed(env, run(n));
    FixedPointStays(advance, run, n, k);
  }

  lemma {:induction false} PreparingGoesOn(env: Env, i: nat)
    requires i <= FirstFailure(env, 0)
    ensures RunFor(env, i) == START.(node := if i < 6 then PREPARING[i] else Generate, visits := i)
  {
    if i > 0 {
      PreparingGoesOn(env, i - 1);
      assert env.prepare(PREPARING[i - 1]).Prepared?;
    }
  }

  /** From a failed node the run ends in two visits. */
  lemma FailureEnds(env: Env, n: nat, reason: Reason)
    requires n <= 12 && RunFor(env, n).node.EmitFailure? && RunFor(env, n).st.failure == Some(reason)
    ensures Ended(RunFor(env, 13), Fails(RunFor(env, n).executed, FailingStatus(RunFor(env, n).st.status), reason))
  {
    assert RunFor(env, n + 1) == Advance(env, RunFor(env, n));
    FinalStays(env, n + 1, 12 - n);
  }

  lemma CrashEnds(env: Env, n: nat)
    requires n <= 13 && RunFor(env, n).node.Crash?
    ensures Ended(RunFor(env, 13), RunRaises(RunFor(env, n).executed))
  {
    FinalStays(env, n, 13 - n);
  }

  /** A result that is about to be checked. */
  lemma ResultEnds(env: Env, n: nat, sql: string, result: Json)
    requires n <= 11 && RunFor(env, n).node.ValidateResult? && RunFor(env, n).st.status.Running?
    requires RunFor(env, n).st.execution == Some(result) && RunFor(env, n).executed == [sql]
    ensures Ended(RunFor(env, 13), EndingOfResult(sql, result))
  {
    var checked := RunFor(env, n + 1);
    assert checked == Advance(env, RunFor(env, n));
    if !result.Obj? {
      FailureEnds(env, n + 1, MissingExecutionResult);
    } else if CheckResult(result.fields).None? {
      FailureEnds(env, n + 1, MalformedExecutionResult);
    } else {
      assert RunFor(env, n + 2) == Advance(env, checked);
      FinalStays(env, n + 2, 11 - n);
    }
  }

  /** A statement that is about to be executed. */
  lemma StatementEnds(env: Env, n: nat, sql: string)
    requires n <= 10 && RunFor(env, n).node.Execute? && RunFor(env, n).st.status.Running?
    requires RunFor(env, n).st.validated == Some(sql) && env.readOnly(sql) && RunFor(env, n).executed == []
    ensures Ended(RunFor(env, 13), EndingOfCandidate(env, sql))
  {
    assert RunFor(env, n + 1) == Advance(env, RunFor(env, n));
    assert [] + [sql] == [sql];
    match env.database(sql)
    case PermissionDenied => FailureEnds(env, n + 1, RestrictedAccess);
    case NoExecutor => FailureEnds(env, n + 1, ExecutorUnavailable);
    case Failed => FailureEnds(env, n + 1, ExecutionFailed);
    case Raises => CrashEnds(env, n + 1);
    case Rows(result) => ResultEnds(env, n + 1, sql, result);
  }

  /** A candidate without unbound parameters that is about to be validated. */
  lemma CandidateEnds(env: Env, n: nat, sql: string)
    requires n <= 9 && RunFor(env, n).node.Validate? && RunFor(env, n).st.status.Running?
    requires RunFor(env, n).st.candidate == Some(sql) && !Blank(sql) && env.parameters(sql) == Some(0)
    requires RunFor(env, n).executed == []
    ensures Ended(RunFor(env, 13), EndingOfCandidate(env, sql))
  {
    assert RunFor(env, n + 1) == Advance(env, RunFor(env, n));
    if env.readOnly(sql) {
      StatementEnds(env, n + 1, sql);
    } else {
      FailureEnds(env, n + 1, NotReadOnly);
    }
  }

  lemma GeneratedIsNotBlank(model: nat -> ModelAnswer, calls: nat)
    ensures var g := GenerateOnce(model, calls); g.candidate.Found? ==> !Blank(g.candidate.sql)
  {
    var first := model(calls);
    var text := if first.Sql? && Blank(first.text) then model(calls + 1) else first;
    if text.Sql? {
      StripEmpty(text.text);
    }
  }

  /** Every run ends exactly as Expected says. */
  lemma StatusIsExact(env: Env)
    ensures Ended(RunFor(env, 13), Expected(env))
  {
    var m := FirstFailure(env, 0);
    PreparingGoesOn(env, m);
    if m < 6 {
      assert RunFor(env, m + 1) == Advance(env, RunFor(env, m));
      if env.prepare(PREPARING[m]).PreparingRaises? {
        CrashEnds(env, m + 1);
      } else {
        FailureEnds(env, m + 1, Preparation);
      }
    } else {
      FirstCandidate(env);
    }
  }

  lemma FirstCandidate(env: Env)
    requires FirstFailure(env, 0) == 6 && RunFor(env, 6) == START.(node := Generate, visits := 6)
    ensures Ended(RunFor(env, 13), Expected(env))
  {
    var first := GenerateOnce(env.model, 0);
    GeneratedIsNotBlank(env.model, 0);
    assert RunFor(env, 7) == Advance(env, RunFor(env, 6));
    if first.candidate.NotFound? {
      FailureEnds(env, 7, first.candidate.reason);
    } else {
      match env.parameters(first.candidate.sql)
      case None => CrashEnds(env, 7);
      case Some(count) =>
        if count == 0 {
          CandidateEnds(env, 7, first.candidate.sql);
        } else {
          SecondCandidate(env, first);
        }
    }
  }

  lemma SecondCandidate(env: Env, first: Generation)
    requires first.candidate.Found? && !Blank(first.candidate.sql)
    requires env.parameters(first.candidate.sql).Some? && env.parameters(first.candidate.sql).value > 0
    requires RunFor(env, 7) ==
      START.(node := Validate, st := FRESH.(candidate := Some(first.candidate.sql)), generated := 1,
             modelCalls := first.attempts, visits := 7)
    ensures Ended(RunFor(env, 13), EndingOfSecond(env, GenerateOnce(env.model, first.attempts).candidate))
  {
    var second := GenerateOnce(env.model, first.attempts);
    GeneratedIsNotBlank(env.model, first.attempts);
    assert RunFor(env, 8) == Advance(env, RunFor(env, 7));
    assert RunFor(env, 9) == Advance(env, RunFor(env, 8));
    if second.candidate.NotFound? {
      FailureEnds(env, 9, second.candidate.reason);
    } else {
      match env.parameters(second.candidate.sql)
      case None => CrashEnds(env, 9);
      case Some(count) =>
        if count == 0 {
          CandidateEnds(env, 9, second.candidate.sql);
        } else {
          assert RunFor(env, 10) == Advance(env, RunFor(env, 9));
          FailureEnds(env, 10, UnboundSqlParameter);
        }
    }
  }

  /** After a blank answer the model is asked again, and its second answer is executed. */
  lemma RetrySucceeds(env: Env, blank: string, text: string, fields: map<string, Json>)
    requires forall i | 0 <= i < 6 :: env.prepare(PREPARING[i]).Prepared?
    requires env.model(0) == Sql(blank) && !Visible(blank) && env.model(1) == Sql(text) && Visible(text)
    requires env.parameters(Strip(text)) == Some(0) && env.readOnly(Strip(text))
    requires env.database(Strip(text)) == Rows(Obj(fields)) && WellFormedResult(fields)
    ensures var end := RunFor(env, 13);
      && end.node.End? && end.st.status.Success? && end.executed == [Strip(text)]
      && end.st.checked.Some? && CheckedFrom(end.st.checked.value, fields)
  {
    GenerationIsExact(env.model, 0);
    ResultCheckIsExact(fields);
    StatusIsExact(env);
  }

  /** A checked result can fail the engine's output gate only over its columns. */
  lemma CheckedResultMeetsContract(fields: map<string, Json>)
    requires CheckResult(fields).Some?
    ensures var output := CheckResult(fields).value;
      && RunEngine.ValidContract(output)
      && (RunEngine.SqlGate(output) == None
          || RunEngine.SqlGate(output) == Some(RunEngine.InvalidColumns)
          || RunEngine.SqlGate(output) == Some(RunEngine.AllNullColumn))
  {
    var output := CheckResult(fields).value;
    assert Get(output, "rows") == output["rows"] && Get(output, "columns") == output["columns"];
    assert Get(output, "row_count") == output["row_count"];
  }
}
