/**
 The contract of a runtime plan (contracts.py): which planner outputs are accepted, in which
 order the rejections are tried, and what the accepted plan looks like. The two free-text
 `reason` fields are not carried.
 */
module RuntimePlan {
  import opened Json
  import opened Sequences
  import opened Text
  import opened Wrappers

  const MAX_RUNTIME_STEPS := 8

  datatype StepType = Sql | Rag | FinalResult

  datatype Obligation = Obligation(id: string, description: string)

  datatype Step = Step(id: string, stepType: StepType, goal: string, obligationIds: seq<string>, dependsOn: seq<string>)
  {
    predicate Executable() {
      !stepType.FinalResult?
    }
  }

  datatype Plan = Plan(obligations: seq<Obligation>, steps: seq<Step>)

  /** A step whose obligation_ids have not been looked at yet. */
  datatype RawStep = RawStep(id: string, stepType: StepType, goal: string, obligationIds: seq<Json>, dependsOn: seq<string>)
  {
    predicate Executable() {
      !stepType.FinalResult?
    }

    function ToStep(): Step {
      Step(id, stepType, goal, Texts(obligationIds), dependsOn)
    }
  }

  const FORBIDDEN_FIELD_PARTS: set<seq<string>> := {
    ["required", "inputs"],
    ["expected", "outputs"],
    ["raw", "sql"],
    ["table", "names"],
    ["source", "ids"],
    ["catalog", "entry", "ids"],
    ["retrieval", "query"],
    ["chunk", "ids"],
    ["join", "plan"],
    ["approved", "join", "details"],
    ["sample", "rows"],
    ["column", "profiles"],
    ["schema", "enrichment", "payload"],
    ["rag", "raw", "chunks"],
    ["sql", "result", "rows"]
  }

  predicate ForbiddenKey(key: string) {
    Words(SnakeCase(key)) in FORBIDDEN_FIELD_PARTS
  }

  /** No object, at any depth, has a tool-internal key. */
  predicate FreeOfForbiddenFields(j: Json) {
    match j
    case Obj(fields) => forall key | key in fields :: !ForbiddenKey(key) && FreeOfForbiddenFields(fields[key])
    case Arr(items) => forall i | 0 <= i < |items| :: FreeOfForbiddenFields(items[i])
    case _ => true
  }

  predicate EmptyListOrAbsent(fields: map<string, Json>, key: string) {
    GetOr(fields, key, Arr([])) == Arr([])
  }

  /** An identifier: a non-blank string without a dot. */
  predicate IsIdentifier(j: Json) {
    j.Str? && !Blank(j.s) && '.' !in j.s
  }

  function StepTypeOf(j: Json): Option<StepType> {
    if j == Str("sql") then Some(Sql)
    else if j == Str("rag") then Some(Rag)
    else if j == Str("final_result") then Some(FinalResult)
    else None
  }

  function StepTypeName(t: StepType): string {
    match t
    case Sql => "sql"
    case Rag => "rag"
    case FinalResult => "final_result"
  }

  /** An absent list and a null one are both empty here. */
  function DependsOnField(fields: map<string, Json>): Json {
    var field := GetOr(fields, "depends_on", Arr([]));
    if field.Null? then Arr([]) else field
  }

  function CheckObligation(item: Json, seen: set<string>): Outcome<Obligation> {
    if !item.Obj? then Rejected("runtime_plan_invalid_obligation")
    else
      var id := Get(item.fields, "obligation_id");
      var description := Get(item.fields, "description");
      if !IsIdentifier(id) then Rejected("runtime_plan_invalid_obligation")
      else if id.s in seen then Rejected("runtime_plan_duplicate_obligation_id")
      else if !description.Str? || Blank(description.s) then Rejected("runtime_plan_invalid_obligation")
      else Accepted(Obligation(id.s, description.s))
  }

  function CheckObligations(items: seq<Json>, seen: set<string>): Outcome<seq<Obligation>> {
    if items == [] then Accepted([])
    else
      match CheckObligation(items[0], seen)
      case Accepted(o) => Prepend([o], CheckObligations(items[1..], seen + {o.id}))
      case Rejected(code) => Rejected(code)
      case Crashed => Crashed
  }

  /** The step_id of a later step, as far as the lookup of future ids gets. */
  function FutureId(item: Json): Json {
    if item.Obj? then Get(item.fields, "step_id") else Null
  }

  function CheckDependencies(dependsOn: seq<string>, seen: set<string>, later: seq<Json>): Outcome<seq<string>> {
    if forall d | d in dependsOn :: d in seen then Accepted(dependsOn)
    else if exists i | 0 <= i < |later| :: Unhashable(FutureId(later[i])) then Crashed
    else if exists d | d in dependsOn :: d !in seen && exists i | 0 <= i < |later| :: FutureId(later[i]) == Str(d)
    then Rejected("runtime_plan_future_dependency")
    else Rejected("runtime_plan_unknown_dependency")
  }

  function CheckStep(item: Json, seen: set<string>, later: seq<Json>): Outcome<RawStep> {
    if !item.Obj? then Rejected("runtime_plan_invalid_step")
    else
      var f := item.fields;
      var id := Get(f, "step_id");
      var kind := Get(f, "step_type");
      var goal := Get(f, "goal");
      var dependsOn := DependsOnField(f);
      var obligationIds := GetOr(f, "obligation_ids", Arr([]));
      if !IsIdentifier(id) then Rejected("runtime_plan_missing_step_id")
      else if id.s in seen then Rejected("runtime_plan_duplicate_step_id")
      else if Unhashable(kind) then Crashed
      else if StepTypeOf(kind).None? then Rejected("runtime_plan_unsupported_step_type")
      else if !goal.Str? || goal.s == "" then Rejected("runtime_plan_missing_goal")
      else if !dependsOn.Arr? || !AllStrings(dependsOn.items) then Rejected("runtime_plan_invalid_dependency")
      else
        match CheckDependencies(Texts(dependsOn.items), seen, later)
        case Rejected(code) => Rejected(code)
        case Crashed => Crashed
        case Accepted(deps) =>
          if !obligationIds.Arr? then Rejected("runtime_plan_missing_obligation_ids")
          else Accepted(RawStep(id.s, StepTypeOf(kind).value, goal.s, obligationIds.items, deps))
  }

  /** A check of one step, given the ids before it and the items after it. */
  type StepCheck = (Json, set<string>, seq<Json>) -> Outcome<RawStep>

  function CheckEach(items: seq<Json>, seen: set<string>, check: StepCheck): Outcome<seq<RawStep>> {
    if items == [] then Accepted([])
    else
      match check(items[0], seen, items[1..])
      case Accepted(s) => Prepend([s], CheckEach(items[1..], seen + {s.id}, check))
      case Rejected(code) => Rejected(code)
      case Crashed => Crashed
  }

  function CheckSteps(items: seq<Json>): Outcome<seq<RawStep>> {
    CheckEach(items, {}, CheckStep)
  }

  predicate NonEmptyText(j: Json) {
    j.Str? && j.s != ""
  }

  /** Gives the listed obligations to one step; the result is the set assigned so far. */
  function AssignAll(ids: seq<string>, known: set<string>, taken: set<string>): Outcome<set<string>> {
    if ids == [] then Accepted(taken)
    else if ids[0] !in known then Rejected("runtime_plan_unknown_obligation")
    else if ids[0] in taken then Rejected("runtime_plan_duplicate_obligation_assignment")
    else AssignAll(ids[1..], known, taken + {ids[0]})
  }

  function AssignStep(step: RawStep, known: set<string>, taken: set<string>): Outcome<set<string>> {
    if step.obligationIds == [] || exists i | 0 <= i < |step.obligationIds| :: !NonEmptyText(step.obligationIds[i])
    then Rejected("runtime_plan_missing_obligation_ids")
    else AssignAll(Texts(step.obligationIds), known, taken)
  }

  function Assign(steps: seq<RawStep>, known: set<string>, taken: set<string>): Outcome<set<string>> {
    if steps == [] then Accepted(taken)
    else
      match AssignStep(steps[0], known, taken)
      case Accepted(more) => Assign(steps[1..], known, more)
      case Rejected(code) => Rejected(code)
      case Crashed => Crashed
  }

  function Executables(steps: seq<RawStep>): seq<RawStep> {
    Keep(steps, (s: RawStep) => s.Executable())
  }

  function Finals(steps: seq<RawStep>): seq<RawStep> {
    Keep(steps, (s: RawStep) => !s.Executable())
  }

  function StepIds(steps: seq<RawStep>): seq<string> {
    seq(|steps|, i requires 0 <= i < |steps| => steps[i].id)
  }

  function ObligationIds(obligations: seq<Obligation>): seq<string> {
    seq(|obligations|, i requires 0 <= i < |obligations| => obligations[i].id)
  }

  function Normalize(steps: seq<RawStep>): seq<Step> {
    seq(|steps|, i requires 0 <= i < |steps| => steps[i].ToStep())
  }

  /** The checks after the last loop: nothing uncovered, one final step that waits for all others. */
  function CheckCompletion(obligations: seq<Obligation>, steps: seq<RawStep>, taken: set<string>): Outcome<Plan> {
    var finals := Finals(steps);
    if ToSet(ObligationIds(obligations)) - taken != {} then Rejected("uncovered_obligation")
    else if finals == [] then Rejected("runtime_plan_missing_final_result")
    else if |finals| > 1 then Rejected("runtime_plan_multiple_final_results")
    else if finals[0].obligationIds != [] then Rejected("runtime_plan_final_result_has_obligations")
    else if ToSet(finals[0].dependsOn) != ToSet(StepIds(Executables(steps)))
    then Rejected("runtime_plan_incomplete_final_dependencies")
    else Accepted(Plan(obligations, Normalize(steps)))
  }

  function CheckHeader(plan: Json): Outcome<map<string, Json>> {
    if !plan.Obj? then Rejected("runtime_plan_unreadable")
    else if !FreeOfForbiddenFields(plan) then Rejected("runtime_plan_forbidden_field")
    else CheckHeaderFields(plan.fields)
  }

  function CheckHeaderFields(fields: map<string, Json>): Outcome<map<string, Json>> {
    if Get(fields, "status") != Str("planned") then Rejected("runtime_plan_invalid_status")
    else if !EmptyListOrAbsent(fields, "limitations") then Rejected("runtime_plan_has_limitations")
    else if !EmptyListOrAbsent(fields, "errors") then Rejected("runtime_plan_has_errors")
    else Accepted(fields)
  }

  /** The assignment loop and the checks after it. */
  function Complete(declared: seq<Obligation>, raw: seq<RawStep>): Outcome<Plan> {
    match Assign(Executables(raw), ToSet(ObligationIds(declared)), {})
    case Rejected(code) => Rejected(code)
    case Crashed => Crashed
    case Accepted(taken) => CheckCompletion(declared, raw, taken)
  }

  /** The part of the validator that starts at the steps field. */
  function CheckStepsField(steps: Json, declared: seq<Obligation>): Outcome<Plan> {
    if !steps.Arr? || steps.items == [] then Rejected("runtime_plan_missing_steps")
    else if |steps.items| > MAX_RUNTIME_STEPS then Rejected("runtime_plan_too_many_steps")
    else
      match CheckSteps(steps.items)
      case Rejected(code) => Rejected(code)
      case Crashed => Crashed
      case Accepted(raw) =>
        Complete(declared, raw)
  }

  /** What the validator answers, rejection codes and their order included. */
  function Validated(plan: Json): Outcome<Plan> {
    match CheckHeader(plan)
    case Rejected(code) => Rejected(code)
    case Crashed => Crashed
    case Accepted(fields) =>
      var obligations := Get(fields, "obligations");
      if !obligations.Arr? || obligations.items == [] then Rejected("runtime_plan_missing_obligations")
      else
        match CheckObligations(obligations.items, {})
        case Rejected(code) => Rejected(code)
        case Crashed => Crashed
        case Accepted(declared) => CheckStepsField(Get(fields, "steps"), declared)
  }

  method NormalizeObligations(items: seq<Json>) returns (r: Outcome<seq<Obligation>>)
    ensures r == CheckObligations(items, {})
  {
    var known: set<string> := {};
    var normalized: seq<Obligation> := [];
    PrependNothing(items, CheckObligations(items, {}));
    for i := 0 to |items|
      invariant CheckObligations(items, {}) == Prepend(normalized, CheckObligations(items[i..], known))
    {
      assert items[i..][1..] == items[i + 1..];
      var checked := CheckObligation(items[i], known);
      if !checked.Accepted? {
        return if checked.Rejected? then Rejected(checked.code) else Crashed;
      }
      var o := checked.value;
      PrependPrepend(normalized, [o], CheckObligations(items[i + 1..], known + {o.id}));
      known, normalized := known + {o.id}, normalized + [o];
    }
    assert normalized + [] == normalized;
    r := Accepted(normalized);
  }

  method NormalizeSteps(items: seq<Json>) returns (r: Outcome<seq<RawStep>>)
    ensures r == CheckSteps(items)
  {
    r := NormalizeEach(items, CheckStep);
  }

  method NormalizeEach(items: seq<Json>, check: StepCheck) returns (r: Outcome<seq<RawStep>>)
    ensures r == CheckEach(items, {}, check)
  {
    var seen: set<string> := {};
    var normalized: seq<RawStep> := [];
    PrependNothing(items, CheckEach(items, {}, check));
    for i := 0 to |items|
      invariant CheckEach(items, {}, check) == Prepend(normalized, CheckEach(items[i..], seen, check))
    {
      assert items[i..][1..] == items[i + 1..];
      var checked := check(items[i], seen, items[i + 1..]);
      if !checked.Accepted? {
        return if checked.Rejected? then Rejected(checked.code) else Crashed;
      }
      var s := checked.value;
      PrependPrepend(normalized, [s], CheckEach(items[i + 1..], seen + {s.id}, check));
      seen, normalized := seen + {s.id}, normalized + [s];
    }
    assert normalized + [] == normalized;
    r := Accepted(normalized);
  }

  method AssignObligations(executables: seq<RawStep>, known: set<string>) returns (r: Outcome<set<string>>)
    ensures r == Assign(executables, known, {})
  {
    var taken: set<string> := {};
    for i := 0 to |executables|
      invariant Assign(executables, known, {}) == Assign(executables[i..], known, taken)
    {
      assert executables[i..][1..] == executables[i + 1..];
      var step := executables[i];
      if step.obligationIds == [] || exists a | 0 <= a < |step.obligationIds| :: !NonEmptyText(step.obligationIds[a]) {
        return Rejected("runtime_plan_missing_obligation_ids");
      }
      var ids := Texts(step.obligationIds);
      ghost var before := taken;
      for a := 0 to |ids|
        invariant AssignAll(ids, known, before) == AssignAll(ids[a..], known, taken)
      {
        assert ids[a..][1..] == ids[a + 1..];
        if ids[a] !in known {
          return Rejected("runtime_plan_unknown_obligation");
        }
        if ids[a] in taken {
          return Rejected("runtime_plan_duplicate_obligation_assignment");
        }
        taken := taken + {ids[a]};
      }
    }
    r := Accepted(taken);
  }

  /** The validator as the engine runs it: its three loops grow sets and lists as they go. */
  method ValidateRuntimePlan(plan: Json) returns (r: Outcome<Plan>)
    ensures r == Validated(plan)
  {
    var header := CheckHeader(plan);
    if !header.Accepted? {
      return if header.Rejected? then Rejected(header.code) else Crashed;
    }
    var obligations := Get(header.value, "obligations");
    if !obligations.Arr? || obligations.items == [] {
      return Rejected("runtime_plan_missing_obligations");
    }
    var declared := NormalizeObligations(obligations.items);
    if !declared.Accepted? {
      return if declared.Rejected? then Rejected(declared.code) else Crashed;
    }
    var steps := Get(header.value, "steps");
    if !steps.Arr? || steps.items == [] {
      return Rejected("runtime_plan_missing_steps");
    }
    if |steps.items| > MAX_RUNTIME_STEPS {
      return Rejected("runtime_plan_too_many_steps");
    }
    var normalized := NormalizeSteps(steps.items);
    if !normalized.Accepted? {
      return if normalized.Rejected? then Rejected(normalized.code) else Crashed;
    }
    var taken := AssignObligations(Executables(normalized.value), ToSet(ObligationIds(declared.value)));
    if !taken.Accepted? {
      return if taken.Rejected? then Rejected(taken.code) else Crashed;
    }
    r := CheckCompletion(declared.value, normalized.value, taken.value);
  }

  lemma PrependNothing<S, T>(items: seq<S>, tail: Outcome<seq<T>>)
    ensures items[0..] == items && Prepend([], tail) == tail
  {
    if tail.Accepted? {
      assert [] + tail.value == tail.value;
    }
  }

  lemma PrependPrepend<T>(a: seq<T>, b: seq<T>, tail: Outcome<seq<T>>)
    ensures Prepend(a, Prepend(b, tail)) == Prepend(a + b, tail)
  {
    if tail.Accepted? {
      assert a + (b + tail.value) == (a + b) + tail.value;
    }
  }
}
