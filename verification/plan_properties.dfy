/**
 What acceptance of a runtime plan means, stated without the validator's loops, and the proof
 that the validator decides exactly that.
 */
module PlanProperties {
  import opened FieldNames
  import opened Json
  import opened RuntimePlan
  import opened Sequences
  import opened Text
  import opened Wrappers

  /*** The declarative contract ***/

  function Fields(item: Json): map<string, Json> {
    if item.Obj? then item.fields else map[]
  }

  /** An id: text with a visible character and without a dot. */
  predicate IsName(j: Json) {
    j.Str? && Visible(j.s) && '.' !in j.s
  }

  predicate ObligationShape(item: Json) {
    && item.Obj?
    && IsName(Get(item.fields, "obligation_id"))
    && Get(item.fields, "description").Str? && Visible(Get(item.fields, "description").s)
  }

  predicate NamesStepType(j: Json) {
    j == Str("sql") || j == Str("rag") || j == Str("final_result")
  }

  predicate ListsTexts(j: Json) {
    j.Arr? && forall x | x in j.items :: x.Str?
  }

  /** Missing dependencies, null for them and missing obligations are all allowed here. */
  predicate RawStepShape(item: Json) {
    && item.Obj?
    && IsName(Get(item.fields, "step_id"))
    && NamesStepType(Get(item.fields, "step_type"))
    && Get(item.fields, "goal").Str? && Get(item.fields, "goal").s != ""
    && (Get(item.fields, "depends_on") == Null || ListsTexts(Get(item.fields, "depends_on")))
    && ("obligation_ids" in item.fields ==> item.fields["obligation_ids"].Arr?)
  }

  /** Executable steps name at least one obligation, the final step names none. */
  predicate ClaimShape(step: RawStep) {
    if step.Executable()
    then step.obligationIds != [] && forall x | x in step.obligationIds :: x.Str? && x.s != ""
    else step.obligationIds == []
  }

  predicate StepShape(item: Json) {
    RawStepShape(item) && ClaimShape(AsRawStep(item))
  }

  predicate HeaderFields(fields: map<string, Json>) {
    && Get(fields, "status") == Str("planned")
    && ("limitations" in fields ==> fields["limitations"] == Arr([]))
    && ("errors" in fields ==> fields["errors"] == Arr([]))
  }

  ghost predicate HeaderShape(plan: Json) {
    plan.Obj? && !HoldsInternalField(plan) && HeaderFields(plan.fields)
  }

  /** At most eight steps. */
  ghost predicate PlanShape(plan: Json) {
    && HeaderShape(plan)
    && Get(plan.fields, "obligations").Arr?
    && Get(plan.fields, "obligations").items != []
    && (forall item | item in Get(plan.fields, "obligations").items :: ObligationShape(item))
    && Get(plan.fields, "steps").Arr?
    && 1 <= |Get(plan.fields, "steps").items| <= 8
    && (forall item | item in Get(plan.fields, "steps").items :: StepShape(item))
  }

  function AsObligation(item: Json): Obligation {
    Obligation(TextOf(Get(Fields(item), "obligation_id")), TextOf(Get(Fields(item), "description")))
  }

  function TypeNamed(name: string): StepType {
    if name == "sql" then Sql else if name == "rag" then Rag else FinalResult
  }

  function AsRawStep(item: Json): RawStep {
    RawStep(
      TextOf(Get(Fields(item), "step_id")),
      TypeNamed(TextOf(Get(Fields(item), "step_type"))),
      TextOf(Get(Fields(item), "goal")),
      ListOrEmpty(Get(Fields(item), "obligation_ids")),
      Texts(ListOrEmpty(Get(Fields(item), "depends_on"))))
  }

  function AsObligations(items: seq<Json>): seq<Obligation> {
    seq(|items|, i requires 0 <= i < |items| => AsObligation(items[i]))
  }

  function Made(items: seq<Json>, make: Json -> RawStep): seq<RawStep> {
    seq(|items|, i requires 0 <= i < |items| => make(items[i]))
  }

  function AsRawSteps(items: seq<Json>): seq<RawStep> {
    Made(items, AsRawStep)
  }

  function AsPlan(plan: Json): Plan {
    Plan(
      AsObligations(ListOrEmpty(Get(Fields(plan), "obligations"))),
      Normalize(AsRawSteps(ListOrEmpty(Get(Fields(plan), "steps")))))
  }

  /** The obligations claimed by the executable steps, in plan order, repetitions kept. */
  function Claimed(steps: seq<Step>): seq<string> {
    if steps == [] then []
    else (if steps[0].Executable() then steps[0].obligationIds else []) + Claimed(steps[1..])
  }

  function Ids(steps: seq<Step>): seq<string> {
    seq(|steps|, i requires 0 <= i < |steps| => steps[i].id)
  }

  ghost predicate DependenciesEarlier(steps: seq<Step>) {
    forall i | 0 <= i < |steps| :: ToSet(steps[i].dependsOn) <= ToSet(Ids(steps[..i]))
  }

  /** Step f is the only final step and waits for exactly the others. */
  ghost predicate IsOnlyFinal(steps: seq<Step>, f: int) {
    && 0 <= f < |steps|
    && (forall i | 0 <= i < |steps| :: steps[i].Executable() <==> i != f)
    && ToSet(steps[f].dependsOn) == ToSet(Ids(steps[..f] + steps[f + 1..]))
  }

  ghost predicate Consistent(plan: Plan) {
    && Distinct(ObligationIds(plan.obligations))
    && Distinct(Ids(plan.steps))
    && DependenciesEarlier(plan.steps)
    && Distinct(Claimed(plan.steps))
    && ToSet(Claimed(plan.steps)) == ToSet(ObligationIds(plan.obligations))
    && exists f :: IsOnlyFinal(plan.steps, f)
  }

  /*** The loops, one by one ***/

  lemma IdentifierIsName(j: Json)
    ensures IsIdentifier(j) <==> IsName(j)
  {
    if j.Str? {
      VisibleIsNotBlank(j.s);
    }
  }

  lemma ObligationAccepted(item: Json, seen: set<string>)
    ensures CheckObligation(item, seen).Accepted? <==> ObligationShape(item) && AsObligation(item).id !in seen
    ensures CheckObligation(item, seen).Accepted? ==> CheckObligation(item, seen).value == AsObligation(item)
  {
    IdentifierIsName(Get(Fields(item), "obligation_id"));
    VisibleIsNotBlank(TextOf(Get(Fields(item), "description")));
  }

  predicate ObligationShapes(items: seq<Json>) {
    forall item | item in items :: ObligationShape(item)
  }

  lemma ShapesCons(items: seq<Json>)
    requires items != []
    ensures ObligationShapes(items) <==> ObligationShape(items[0]) && ObligationShapes(items[1..])
  {
    assert items == [items[0]] + items[1..];
  }

  lemma {:induction false} ObligationsAccepted(items: seq<Json>, seen: set<string>)
    ensures CheckObligations(items, seen).Accepted? <==>
      && ObligationShapes(items)
      && Distinct(ObligationIds(AsObligations(items)))
      && ToSet(ObligationIds(AsObligations(items))) !! seen
    ensures CheckObligations(items, seen).Accepted? ==> CheckObligations(items, seen).value == AsObligations(items)
  {
    if items != [] {
      var ids := ObligationIds(AsObligations(items));
      assert ids[1..] == ObligationIds(AsObligations(items[1..]));
      ShapesCons(items);
      NewCons(ids, seen);
      ObligationAccepted(items[0], seen);
      ObligationsAccepted(items[1..], seen + {ids[0]});
      assert AsObligations(items) == [AsObligation(items[0])] + AsObligations(items[1..]);
    }
  }

  predicate DependenciesSeen(steps: seq<RawStep>, seen: set<string>) {
    steps == [] || (ToSet(steps[0].dependsOn) <= seen && DependenciesSeen(steps[1..], seen + {steps[0].id}))
  }

  lemma StepAccepted(item: Json, seen: set<string>, later: seq<Json>)
    ensures CheckStep(item, seen, later).Accepted? <==>
      RawStepShape(item) && AsRawStep(item).id !in seen && ToSet(AsRawStep(item).dependsOn) <= seen
    ensures CheckStep(item, seen, later).Accepted? ==> CheckStep(item, seen, later).value == AsRawStep(item)
  {
    IdentifierIsName(Get(Fields(item), "step_id"));
    if item.Obj? {
      StepFieldsAgree(item);
    }
    var deps := AsRawStep(item).dependsOn;
    assert ToSet(deps) <= seen <==> forall d | d in deps :: d in seen;
  }

  lemma StepFieldsAgree(item: Json)
    requires item.Obj?
    ensures var f := item.fields;
      && (StepTypeOf(Get(f, "step_type")).Some? <==> NamesStepType(Get(f, "step_type")))
      && (StepTypeOf(Get(f, "step_type")).Some? ==>
            StepTypeOf(Get(f, "step_type")).value == TypeNamed(TextOf(Get(f, "step_type"))))
      && (DependsOnField(f).Arr? && AllStrings(DependsOnField(f).items) <==>
            Get(f, "depends_on") == Null || ListsTexts(Get(f, "depends_on")))
      && ListOrEmpty(DependsOnField(f)) == ListOrEmpty(Get(f, "depends_on"))
  {
    TextsAgree(Get(item.fields, "depends_on"));
  }

  lemma TextsAgree(j: Json)
    ensures ListsTexts(j) <==> j.Arr? && AllStrings(j.items)
  {
    if j.Arr? {
      assert forall i | 0 <= i < |j.items| :: j.items[i] in j.items;
    }
  }

  /** The check accepts the good items with a new id and known dependencies, whatever comes later. */
  ghost predicate Decides(check: StepCheck, good: Json -> bool, make: Json -> RawStep) {
    forall item, seen, later ::
      var r := check(item, seen, later);
      && (r.Accepted? <==> good(item) && make(item).id !in seen && ToSet(make(item).dependsOn) <= seen)
      && (r.Accepted? ==> r.value == make(item))
  }

  lemma CheckStepDecides()
    ensures Decides(CheckStep, RawStepShape, AsRawStep)
  {
    forall item, seen, later
      ensures var r := CheckStep(item, seen, later);
        && (r.Accepted? <==>
             RawStepShape(item) && AsRawStep(item).id !in seen && ToSet(AsRawStep(item).dependsOn) <= seen)
        && (r.Accepted? ==> r.value == AsRawStep(item))
    {
      StepAccepted(item, seen, later);
    }
  }

  predicate AllGood(items: seq<Json>, good: Json -> bool) {
    forall item | item in items :: good(item)
  }

  lemma {:induction false} EachAccepted(
    items: seq<Json>, seen: set<string>, check: StepCheck, good: Json -> bool, make: Json -> RawStep)
    requires Decides(check, good, make)
    ensures CheckEach(items, seen, check).Accepted? <==>
      && AllGood(items, good)
      && Distinct(StepIds(Made(items, make)))
      && ToSet(StepIds(Made(items, make))) !! seen
      && DependenciesSeen(Made(items, make), seen)
    ensures CheckEach(items, seen, check).Accepted? ==> CheckEach(items, seen, check).value == Made(items, make)
  {
    if items != [] {
      var ids := StepIds(Made(items, make));
      assert items == [items[0]] + items[1..];
      assert ids[1..] == StepIds(Made(items[1..], make));
      NewCons(ids, seen);
      EachAccepted(items[1..], seen + {ids[0]}, check, good, make);
      assert Made(items, make)[1..] == Made(items[1..], make);
      assert Made(items, make) == [make(items[0])] + Made(items[1..], make);
    }
  }

  lemma StepsAccepted(items: seq<Json>)
    ensures CheckSteps(items).Accepted? <==>
      && AllGood(items, RawStepShape)
      && Distinct(StepIds(AsRawSteps(items)))
      && DependenciesSeen(AsRawSteps(items), {})
    ensures CheckSteps(items).Accepted? ==> CheckSteps(items).value == AsRawSteps(items)
  {
    CheckStepDecides();
    EachAccepted(items, {}, CheckStep, RawStepShape, AsRawStep);
  }

  lemma {:induction false} AssignAllAccepted(ids: seq<string>, known: set<string>, taken: set<string>)
    ensures AssignAll(ids, known, taken).Accepted? <==>
      Distinct(ids) && ToSet(ids) !! taken && ToSet(ids) <= known
    ensures AssignAll(ids, known, taken).Accepted? ==> AssignAll(ids, known, taken).value == taken + ToSet(ids)
  {
    if ids != [] {
      DistinctCons(ids);
      AssignAllAccepted(ids[1..], known, taken + {ids[0]});
    }
  }

  function ClaimedRaw(steps: seq<RawStep>): seq<string> {
    if steps == [] then [] else Texts(steps[0].obligationIds) + ClaimedRaw(steps[1..])
  }

  lemma AssignStepAccepted(step: RawStep, known: set<string>, taken: set<string>)
    requires step.Executable()
    ensures AssignStep(step, known, taken).Accepted? <==>
      && ClaimShape(step)
      && Distinct(Texts(step.obligationIds)) && ToSet(Texts(step.obligationIds)) !! taken
      && ToSet(Texts(step.obligationIds)) <= known
    ensures AssignStep(step, known, taken).Accepted? ==>
      AssignStep(step, known, taken).value == taken + ToSet(Texts(step.obligationIds))
  {
    AssignAllAccepted(Texts(step.obligationIds), known, taken);
  }

  lemma {:induction false} AssignAccepted(steps: seq<RawStep>, known: set<string>, taken: set<string>)
    requires forall s | s in steps :: s.Executable()
    ensures Assign(steps, known, taken).Accepted? <==>
      && (forall s | s in steps :: ClaimShape(s))
      && Distinct(ClaimedRaw(steps)) && ToSet(ClaimedRaw(steps)) !! taken && ToSet(ClaimedRaw(steps)) <= known
    ensures Assign(steps, known, taken).Accepted? ==>
      Assign(steps, known, taken).value == taken + ToSet(ClaimedRaw(steps))
  {
    if steps != [] {
      assert steps == [steps[0]] + steps[1..];
      var first := Texts(steps[0].obligationIds);
      AssignStepAccepted(steps[0], known, taken);
      DistinctAppend(first, ClaimedRaw(steps[1..]));
      AssignAccepted(steps[1..], known, taken + ToSet(first));
    }
  }

  ghost predicate DependenciesEarlierOrSeen(steps: seq<RawStep>, seen: set<string>) {
    forall i | 0 <= i < |steps| :: ToSet(steps[i].dependsOn) <= seen + ToSet(StepIds(steps[..i]))
  }

  lemma {:induction false} SeenMeansEarlier(steps: seq<RawStep>, seen: set<string>)
    ensures DependenciesSeen(steps, seen) <==> DependenciesEarlierOrSeen(steps, seen)
  {
    if steps != [] {
      var rest := steps[1..];
      SeenMeansEarlier(rest, seen + {steps[0].id});
      forall i | 0 <= i < |rest|
        ensures seen + {steps[0].id} + ToSet(StepIds(rest[..i])) == seen + ToSet(StepIds(steps[..i + 1]))
      {
        assert StepIds(steps[..i + 1]) == [steps[0].id] + StepIds(rest[..i]);
      }
      assert forall i | 0 <= i < |rest| :: rest[i] == steps[i + 1];
      if DependenciesEarlierOrSeen(steps, seen) {
        forall i | 0 <= i < |rest|
          ensures ToSet(rest[i].dependsOn) <= seen + {steps[0].id} + ToSet(StepIds(rest[..i]))
        {
          assert ToSet(steps[i + 1].dependsOn) <= seen + ToSet(StepIds(steps[..i + 1]));
        }
        assert StepIds(steps[..0]) == [];
      }
      if DependenciesSeen(steps, seen) {
        forall i | 0 <= i < |steps|
          ensures ToSet(steps[i].dependsOn) <= seen + ToSet(StepIds(steps[..i]))
        {
          if i > 0 {
            assert ToSet(rest[i - 1].dependsOn) <= seen + {steps[0].id} + ToSet(StepIds(rest[..i - 1]));
          }
        }
      }
    }
  }

  /*** Executable and final steps ***/

  lemma {:induction false} ClaimedByExecutables(steps: seq<RawStep>)
    ensures Claimed(Normalize(steps)) == ClaimedRaw(Executables(steps))
    ensures forall s :: s in Executables(steps) <==> s in steps && s.Executable()
  {
    if steps != [] {
      ClaimedByExecutables(steps[1..]);
      assert Normalize(steps)[1..] == Normalize(steps[1..]);
      assert Normalize(steps)[0] == steps[0].ToStep();
      if steps[0].Executable() {
        assert Executables(steps)[1..] == Executables(steps[1..]);
      } else {
        assert Executables(steps) == Executables(steps[1..]);
      }
      assert steps == [steps[0]] + steps[1..];
    }
  }

  lemma {:induction false} NoFinalStep(steps: seq<RawStep>)
    requires forall i | 0 <= i < |steps| :: steps[i].Executable()
    ensures Finals(steps) == [] && Executables(steps) == steps
  {
    if steps != [] {
      NoFinalStep(steps[1..]);
    }
  }

  lemma {:induction false} FinalStepAt(steps: seq<RawStep>, f: nat)
    requires f < |steps|
    requires forall i | 0 <= i < |steps| :: steps[i].Executable() <==> i != f
    ensures Finals(steps) == [steps[f]] && Executables(steps) == steps[..f] + steps[f + 1..]
  {
    if f == 0 {
      NoFinalStep(steps[1..]);
    } else {
      FinalStepAt(steps[1..], f - 1);
      assert steps[1..][..f - 1] == steps[1..f] && steps[1..][f..] == steps[f + 1..];
      assert [steps[0]] + steps[1..f] == steps[..f];
    }
  }

  lemma {:induction false} FindFinalStep(steps: seq<RawStep>) returns (f: nat)
    requires |Finals(steps)| == 1
    ensures f < |steps| && forall i | 0 <= i < |steps| :: steps[i].Executable() <==> i != f
  {
    if steps[0].Executable() {
      f := FindFinalStep(steps[1..]);
      f := f + 1;
    } else {
      f := 0;
      NoFinalsLeft(steps[1..]);
    }
    assert forall i | 1 <= i < |steps| :: steps[i] == steps[1..][i - 1];
  }

  lemma {:induction false} NoFinalsLeft(steps: seq<RawStep>)
    requires Finals(steps) == []
    ensures forall i | 0 <= i < |steps| :: steps[i].Executable()
  {
    if steps != [] {
      NoFinalsLeft(steps[1..]);
      assert forall i | 1 <= i < |steps| :: steps[i] == steps[1..][i - 1];
    }
  }

  lemma NormalizeKeeps(steps: seq<RawStep>)
    ensures Ids(Normalize(steps)) == StepIds(steps)
    ensures DependenciesEarlier(Normalize(steps)) <==> DependenciesEarlierOrSeen(steps, {})
  {
    forall i | 0 <= i < |steps|
      ensures Ids(Normalize(steps)[..i]) == StepIds(steps[..i])
      ensures Normalize(steps)[i].dependsOn == steps[i].dependsOn
    {
    }
  }

  ghost predicate CompletionHolds(obligations: seq<Obligation>, steps: seq<RawStep>, taken: set<string>) {
    && ToSet(ObligationIds(obligations)) <= taken
    && (forall s | s in steps && !s.Executable() :: ClaimShape(s))
    && exists f :: IsOnlyFinal(Normalize(steps), f)
  }

  /** The checks after the last loop of the validator. */
  lemma CompletionAccepted(obligations: seq<Obligation>, steps: seq<RawStep>, taken: set<string>)
    ensures CheckCompletion(obligations, steps, taken).Accepted? <==> CompletionHolds(obligations, steps, taken)
    ensures CheckCompletion(obligations, steps, taken).Accepted? ==>
      CheckCompletion(obligations, steps, taken).value == Plan(obligations, Normalize(steps))
  {
    if CompletionHolds(obligations, steps, taken) {
      var f :| IsOnlyFinal(Normalize(steps), f);
      assert forall i | 0 <= i < |steps| :: Normalize(steps)[i].Executable() == steps[i].Executable();
      OnlyFinalIsTheFinal(steps, f);
      assert steps[f] in steps;
    }
    if CheckCompletion(obligations, steps, taken).Accepted? {
      var f := FindFinalStep(steps);
      OnlyFinalIsTheFinal(steps, f);
      forall s | s in steps && !s.Executable()
        ensures ClaimShape(s)
      {
        var i :| 0 <= i < |steps| && steps[i] == s;
        assert i == f;
      }
      assert IsOnlyFinal(Normalize(steps), f);
      forall x | x in ToSet(ObligationIds(obligations))
        ensures x in taken
      {
        assert x !in ToSet(ObligationIds(obligations)) - taken;
      }
    }
  }

  lemma OnlyFinalIsTheFinal(steps: seq<RawStep>, f: nat)
    requires f < |steps|
    requires forall i | 0 <= i < |steps| :: steps[i].Executable() <==> i != f
    ensures Finals(steps) == [steps[f]]
    ensures IsOnlyFinal(Normalize(steps), f) <==>
      ToSet(steps[f].dependsOn) == ToSet(StepIds(Executables(steps)))
  {
    var normal := Normalize(steps);
    FinalStepAt(steps, f);
    assert Ids(normal[..f] + normal[f + 1..]) == StepIds(steps[..f] + steps[f + 1..]);
    assert forall i | 0 <= i < |steps| :: normal[i].Executable() == steps[i].Executable();
  }

  ghost predicate ConsistentSteps(steps: seq<Step>, known: set<string>) {
    && Distinct(Ids(steps))
    && DependenciesEarlier(steps)
    && Distinct(Claimed(steps))
    && ToSet(Claimed(steps)) == known
    && exists f :: IsOnlyFinal(steps, f)
  }

  lemma StepsFieldIsExact(steps: Json, declared: seq<Obligation>)
    ensures CheckStepsField(steps, declared).Accepted? <==>
      && steps.Arr? && 1 <= |steps.items| <= 8
      && (forall item | item in steps.items :: StepShape(item))
      && ConsistentSteps(Normalize(AsRawSteps(steps.items)), ToSet(ObligationIds(declared)))
    ensures CheckStepsField(steps, declared).Accepted? ==>
      CheckStepsField(steps, declared).value == Plan(declared, Normalize(AsRawSteps(steps.items)))
  {
    var items := ListOrEmpty(steps);
    var raw := AsRawSteps(items);
    var known := ToSet(ObligationIds(declared));
    if steps.Arr? {
      StepListAccepted(items);
      StepShapes(items);
      AssignmentAndCompletion(declared, raw);
      assert (forall s | s in raw :: ClaimShape(s)) <==>
        (forall s | s in raw && s.Executable() :: ClaimShape(s)) && (forall s | s in raw && !s.Executable() :: ClaimShape(s));
    }
  }

  lemma StepListAccepted(items: seq<Json>)
    ensures CheckSteps(items).Accepted? <==>
      && (forall item | item in items :: RawStepShape(item))
      && Distinct(Ids(Normalize(AsRawSteps(items))))
      && DependenciesEarlier(Normalize(AsRawSteps(items)))
    ensures CheckSteps(items).Accepted? ==> CheckSteps(items).value == AsRawSteps(items)
  {
    StepsAccepted(items);
    SeenMeansEarlier(AsRawSteps(items), {});
    NormalizeKeeps(AsRawSteps(items));
  }

  lemma CompleteAccepted(declared: seq<Obligation>, raw: seq<RawStep>)
    ensures var steps, known := Executables(raw), ToSet(ObligationIds(declared));
      var claims := ClaimedRaw(steps);
      Complete(declared, raw).Accepted? <==>
        && (forall s | s in steps :: ClaimShape(s))
        && Distinct(claims) && ToSet(claims) <= known
        && CompletionHolds(declared, raw, ToSet(claims))
    ensures Complete(declared, raw).Accepted? ==> Complete(declared, raw).value == Plan(declared, Normalize(raw))
  {
    ClaimedByExecutables(raw);
    AssignAccepted(Executables(raw), ToSet(ObligationIds(declared)), {});
    CompletionAccepted(declared, raw, ToSet(ClaimedRaw(Executables(raw))));
  }

  lemma AssignmentAndCompletion(declared: seq<Obligation>, raw: seq<RawStep>)
    ensures Complete(declared, raw).Accepted? <==>
      && (forall s | s in raw && s.Executable() :: ClaimShape(s))
      && (forall s | s in raw && !s.Executable() :: ClaimShape(s))
      && Distinct(Claimed(Normalize(raw)))
      && ToSet(Claimed(Normalize(raw))) == ToSet(ObligationIds(declared))
      && exists f :: IsOnlyFinal(Normalize(raw), f)
    ensures Complete(declared, raw).Accepted? ==> Complete(declared, raw).value == Plan(declared, Normalize(raw))
  {
    ClaimedByExecutables(raw);
    CompleteAccepted(declared, raw);
  }

  lemma HeaderFieldsAccepted(plan: Json, clean: bool)
    requires FreeOfForbiddenFields(plan) == clean
    ensures CheckHeader(plan).Accepted? <==> plan.Obj? && clean && HeaderFields(plan.fields)
    ensures CheckHeader(plan).Accepted? ==> CheckHeader(plan).value == plan.fields
  {
  }

  lemma HeaderAccepted(plan: Json)
    ensures CheckHeader(plan).Accepted? <==> HeaderShape(plan)
    ensures HeaderShape(plan) ==> CheckHeader(plan).value == plan.fields
  {
    SearchIsExact(plan);
    HeaderFieldsAccepted(plan, !HoldsInternalField(plan));
  }

  /** The validator accepts exactly the plans that meet the declarative contract. */
  lemma ValidatorIsExact(plan: Json)
    ensures Validated(plan).Accepted? <==> PlanShape(plan) && Consistent(AsPlan(plan))
    ensures Validated(plan).Accepted? ==> Validated(plan).value == AsPlan(plan)
  {
    HeaderAccepted(plan);
    var obligations := ListOrEmpty(Get(Fields(plan), "obligations"));
    ObligationsAccepted(obligations, {});
    StepsFieldIsExact(Get(Fields(plan), "steps"), AsObligations(obligations));
  }

  lemma StepShapes(items: seq<Json>)
    ensures (forall item | item in items :: StepShape(item)) <==>
      (forall item | item in items :: RawStepShape(item)) && forall s | s in AsRawSteps(items) :: ClaimShape(s)
  {
    if forall item | item in items :: StepShape(item) {
      forall s | s in AsRawSteps(items)
        ensures ClaimShape(s)
      {
        var i :| 0 <= i < |items| && s == AsRawStep(items[i]);
        assert items[i] in items;
      }
    }
    if forall s | s in AsRawSteps(items) :: ClaimShape(s) {
      forall item | item in items
        ensures ClaimShape(AsRawStep(item))
      {
        var i :| 0 <= i < |items| && items[i] == item;
        assert AsRawSteps(items)[i] in AsRawSteps(items);
      }
    }
  }

  /*** Consequences ***/

  lemma LastIdIsNew(steps: seq<Step>, f: nat)
    requires Distinct(Ids(steps)) && f < |steps| - 1
    ensures steps[|steps| - 1].id !in Ids(steps[..f])
  {
    forall h | 0 <= h < f
      ensures Ids(steps[..f])[h] != steps[|steps| - 1].id
    {
      assert Ids(steps)[h] != Ids(steps)[|steps| - 1];
    }
  }

  lemma FinalWaitsForLast(steps: seq<Step>, f: nat)
    requires IsOnlyFinal(steps, f) && f < |steps| - 1
    ensures steps[|steps| - 1].id in ToSet(steps[f].dependsOn)
  {
    var others := Ids(steps[..f] + steps[f + 1..]);
    assert others[|steps| - 2] == steps[|steps| - 1].id;
  }

  /** An accepted plan ends with its only final step, so nothing executable can wait for it. */
  lemma FinalStepIsLast(plan: Plan)
    requires Consistent(plan)
    ensures plan.steps != [] && IsOnlyFinal(plan.steps, |plan.steps| - 1)
  {
    var f :| IsOnlyFinal(plan.steps, f);
    if f < |plan.steps| - 1 {
      LastIdIsNew(plan.steps, f);
      FinalWaitsForLast(plan.steps, f);
    }
  }

  /*** Validating a validated plan ***/

  function ObligationJson(o: Obligation): Json {
    Obj(map["obligation_id" := Str(o.id), "description" := Str(o.description)])
  }

  function StepJson(s: Step): Json {
    Obj(map[
      "step_id" := Str(s.id),
      "step_type" := Str(StepTypeName(s.stepType)),
      "goal" := Str(s.goal),
      "obligation_ids" := Arr(FromTexts(s.obligationIds)),
      "depends_on" := Arr(FromTexts(s.dependsOn))])
  }

  lemma ForbiddenParts()
    ensures forall parts | parts in FORBIDDEN_FIELD_PARTS ::
      2 <= |parts| && |parts[0]| < 10 && 3 <= |parts[1]|
  {
  }

  lemma ForbiddenSecondParts()
    ensures forall parts | parts in FORBIDDEN_FIELD_PARTS :: 2 <= |parts| && parts[1] != "" && parts[1][0] != 't'
  {
  }

  lemma OneWordKey(key: string)
    requires key != "" && Snake(key) && '_' !in key
    ensures !ForbiddenKey(key)
  {
    SnakeCaseIdempotent(key);
    WordsOfOne(key);
    ForbiddenParts();
  }

  lemma TwoWordKey(key: string, n: nat)
    requires Snake(key) && 0 < n < |key| - 1
    requires forall i | 0 <= i < |key| :: key[i] == '_' <==> i == n
    requires n >= 10 || |key| < n + 4 || key[n + 1] == 't'
    ensures !ForbiddenKey(key)
  {
    SnakeCaseIdempotent(key);
    WordsOfTwo(key[..n], key[n + 1..]);
    assert key == key[..n] + "_" + key[n + 1..];
    ForbiddenParts();
    ForbiddenSecondParts();
  }

  lemma PlanKeyAllowed(key: string)
    requires key == "status" || key == "obligations" || key == "steps"
    ensures !ForbiddenKey(key)
  {
    OneWordKey(key);
  }

  lemma ObligationKeyAllowed(key: string)
    requires key == "obligation_id" || key == "description"
    ensures !ForbiddenKey(key)
  {
    if key == "description" {
      OneWordKey(key);
    } else {
      TwoWordKey(key, 10);
    }
  }

  lemma StepKeyAllowed(key: string)
    requires key == "step_id" || key == "step_type" || key == "goal" || key == "obligation_ids" || key == "depends_on"
    ensures !ForbiddenKey(key)
  {
    if key == "goal" {
      OneWordKey(key);
    } else {
      TwoWordKey(key, if key == "obligation_ids" then 10 else if key == "depends_on" then 7 else 4);
    }
  }

  predicate TypedObligation(o: Obligation) {
    IsName(Str(o.id)) && Visible(o.description)
  }

  predicate TypedStep(s: Step) {
    && IsName(Str(s.id))
    && s.goal != ""
    && if s.Executable() then s.obligationIds != [] && "" !in s.obligationIds else s.obligationIds == []
  }

  /** What the shape of the planner's output guarantees about the normalized plan. */
  ghost predicate WellTyped(plan: Plan) {
    && plan.obligations != []
    && 1 <= |plan.steps| <= 8
    && (forall o | o in plan.obligations :: TypedObligation(o))
    && (forall s | s in plan.steps :: TypedStep(s))
  }

  lemma ShapedStepIsTyped(item: Json)
    requires StepShape(item)
    ensures TypedStep(AsRawStep(item).ToStep())
  {
    var raw := AsRawStep(item);
    assert forall a | 0 <= a < |raw.obligationIds| :: raw.ToStep().obligationIds[a] == TextOf(raw.obligationIds[a]);
  }

  lemma ShapedItemsAreTyped(obligations: seq<Json>, steps: seq<Json>)
    requires forall item | item in obligations :: ObligationShape(item)
    requires forall item | item in steps :: StepShape(item)
    ensures forall o | o in AsObligations(obligations) :: TypedObligation(o)
    ensures forall s | s in Normalize(AsRawSteps(steps)) :: TypedStep(s)
  {
    forall o | o in AsObligations(obligations)
      ensures TypedObligation(o)
    {
      var i :| 0 <= i < |obligations| && o == AsObligation(obligations[i]);
      assert ObligationShape(obligations[i]);
    }
    forall s | s in Normalize(AsRawSteps(steps))
      ensures TypedStep(s)
    {
      var i :| 0 <= i < |steps| && s == AsRawStep(steps[i]).ToStep();
      ShapedStepIsTyped(steps[i]);
    }
  }

  lemma ShapedPlanIsWellTyped(plan: Json)
    requires PlanShape(plan)
    ensures WellTyped(AsPlan(plan))
  {
    ShapedItemsAreTyped(Get(plan.fields, "obligations").items, Get(plan.fields, "steps").items);
  }

  lemma TextsRoundTrip(texts: seq<string>)
    ensures AllStrings(FromTexts(texts)) && Texts(FromTexts(texts)) == texts
    ensures FreeOfForbiddenFields(Arr(FromTexts(texts)))
  {
  }

  lemma ObligationJsonShape(o: Obligation)
    requires TypedObligation(o)
    ensures ObligationShape(ObligationJson(o)) && AsObligation(ObligationJson(o)) == o
    ensures FreeOfForbiddenFields(ObligationJson(o))
  {
    forall key | key in ObligationJson(o).fields
      ensures !ForbiddenKey(key) && FreeOfForbiddenFields(ObligationJson(o).fields[key])
    {
      ObligationKeyAllowed(key);
    }
  }

  lemma StepJsonFields(s: Step)
    ensures var f := StepJson(s).fields;
      && Get(f, "step_id") == Str(s.id)
      && Get(f, "step_type") == Str(StepTypeName(s.stepType))
      && Get(f, "goal") == Str(s.goal)
      && GetOr(f, "obligation_ids", Arr([])) == Arr(FromTexts(s.obligationIds))
      && DependsOnField(f) == Arr(FromTexts(s.dependsOn))
  {
  }

  lemma StepJsonShape(s: Step)
    requires TypedStep(s)
    ensures StepShape(StepJson(s)) && AsRawStep(StepJson(s)).ToStep() == s
  {
    StepJsonFields(s);
    TextsRoundTrip(s.obligationIds);
    TextsRoundTrip(s.dependsOn);
    assert StepTypeOf(Str(StepTypeName(s.stepType))) == Some(s.stepType);
  }

  lemma StepJsonValue(s: Step, key: string)
    requires key in StepJson(s).fields
    ensures StepJson(s).fields[key].Str? || exists texts :: StepJson(s).fields[key] == Arr(FromTexts(texts))
  {
  }

  lemma StepJsonKey(s: Step, key: string)
    requires key in StepJson(s).fields
    ensures !ForbiddenKey(key)
  {
    StepKeyAllowed(key);
  }

  lemma StepJsonAllowed(s: Step)
    ensures FreeOfForbiddenFields(StepJson(s))
  {
    var f := StepJson(s).fields;
    forall key | key in f
      ensures !ForbiddenKey(key) && FreeOfForbiddenFields(f[key])
    {
      StepJsonKey(s, key);
      StepJsonValue(s, key);
      if !f[key].Str? {
        var texts :| f[key] == Arr(FromTexts(texts));
        TextsRoundTrip(texts);
      }
    }
  }

  function ObligationsJson(obligations: seq<Obligation>): seq<Json> {
    seq(|obligations|, i requires 0 <= i < |obligations| => ObligationJson(obligations[i]))
  }

  function StepsJson(steps: seq<Step>): seq<Json> {
    seq(|steps|, i requires 0 <= i < |steps| => StepJson(steps[i]))
  }

  /** A plan object with the given steps, good or bad. */
  function PlanOf(obligations: seq<Obligation>, steps: seq<Json>): Json {
    Obj(map["status" := Str("planned"), "obligations" := Arr(ObligationsJson(obligations)), "steps" := Arr(steps)])
  }

  /** The normalized plan as the engine stores it in its state. */
  function PlanJson(plan: Plan): Json {
    PlanOf(plan.obligations, StepsJson(plan.steps))
  }

  lemma ObligationsJsonShape(obligations: seq<Obligation>)
    requires forall o | o in obligations :: TypedObligation(o)
    ensures AsObligations(ObligationsJson(obligations)) == obligations
    ensures forall item | item in ObligationsJson(obligations) :: ObligationShape(item)
    ensures FreeOfForbiddenFields(Arr(ObligationsJson(obligations)))
  {
    forall i | 0 <= i < |obligations|
      ensures var item := ObligationsJson(obligations)[i];
        ObligationShape(item) && AsObligation(item) == obligations[i] && FreeOfForbiddenFields(item)
    {
      ObligationJsonShape(obligations[i]);
    }
  }

  lemma StepsJsonShape(steps: seq<Step>)
    requires forall s | s in steps :: TypedStep(s)
    ensures Normalize(AsRawSteps(StepsJson(steps))) == steps
    ensures forall item | item in StepsJson(steps) :: StepShape(item)
    ensures FreeOfForbiddenFields(Arr(StepsJson(steps)))
  {
    forall i | 0 <= i < |steps|
      ensures var item := StepsJson(steps)[i];
        StepShape(item) && AsRawStep(item).ToStep() == steps[i] && FreeOfForbiddenFields(item)
    {
      StepJsonShape(steps[i]);
      StepJsonAllowed(steps[i]);
    }
  }

  lemma PlanOfFields(obligations: seq<Obligation>, steps: seq<Json>)
    ensures var f := PlanOf(obligations, steps).fields;
      && Get(f, "status") == Str("planned")
      && Get(f, "obligations") == Arr(ObligationsJson(obligations))
      && Get(f, "steps") == Arr(steps)
      && HeaderFields(f)
  {
  }

  lemma PlanOfAllowed(obligations: seq<Obligation>, steps: seq<Json>)
    requires forall o | o in obligations :: TypedObligation(o)
    requires FreeOfForbiddenFields(Arr(steps))
    ensures FreeOfForbiddenFields(PlanOf(obligations, steps))
  {
    var f := PlanOf(obligations, steps).fields;
    ObligationsJsonShape(obligations);
    forall key | key in f
      ensures !ForbiddenKey(key) && FreeOfForbiddenFields(f[key])
    {
      PlanKeyAllowed(key);
    }
  }

  lemma PlanOfHeader(obligations: seq<Obligation>, steps: seq<Json>)
    requires obligations != [] && Distinct(ObligationIds(obligations))
    requires forall o | o in obligations :: TypedObligation(o)
    requires FreeOfForbiddenFields(Arr(steps))
    ensures HeaderShape(PlanOf(obligations, steps))
    ensures ObligationsFieldHolds(Get(PlanOf(obligations, steps).fields, "obligations"))
  {
    PlanOfFields(obligations, steps);
    PlanOfAllowed(obligations, steps);
    CleanHeader(PlanOf(obligations, steps));
    ObligationsJsonShape(obligations);
  }

  lemma CleanHeader(plan: Json)
    requires plan.Obj? && FreeOfForbiddenFields(plan) && HeaderFields(plan.fields)
    ensures HeaderShape(plan)
  {
    SearchIsExact(plan);
  }

  lemma PlanJsonShape(plan: Plan)
    requires WellTyped(plan)
    ensures PlanShape(PlanJson(plan)) && AsPlan(PlanJson(plan)) == plan
  {
    StepsJsonShape(plan.steps);
    PlanOfFields(plan.obligations, StepsJson(plan.steps));
    PlanOfAllowed(plan.obligations, StepsJson(plan.steps));
    CleanHeader(PlanJson(plan));
    ObligationsJsonShape(plan.obligations);
  }

  /** Re-validating a normalized plan returns the same plan. */
  lemma ValidationIsIdempotent(plan: Json)
    requires Validated(plan).Accepted?
    ensures Validated(PlanJson(Validated(plan).value)) == Validated(plan)
  {
    ValidatorIsExact(plan);
    ShapedPlanIsWellTyped(plan);
    PlanJsonShape(AsPlan(plan));
    ValidatorIsExact(PlanJson(AsPlan(plan)));
  }

  /*** Plans that make the validator raise something else ***/

  /** Steps with the right fields, distinct ids and dependencies on earlier ones only. */
  ghost predicate InOrder(items: seq<Json>) {
    && (forall item | item in items :: RawStepShape(item))
    && Distinct(Ids(Normalize(AsRawSteps(items))))
    && DependenciesEarlier(Normalize(AsRawSteps(items)))
  }

  function EarlierIds(items: seq<Json>, i: nat): set<string>
    requires i <= |items|
  {
    ToSet(StepIds(AsRawSteps(items[..i])))
  }

  /** A step whose type is a list or an object. */
  ghost predicate TypeFails(items: seq<Json>, i: nat)
    requires i < |items|
  {
    && items[i].Obj?
    && IsName(Get(items[i].fields, "step_id"))
    && AsRawStep(items[i]).id !in EarlierIds(items, i)
    && IsContainer(Get(items[i].fields, "step_type"))
  }

  predicate IsContainer(j: Json) {
    j.Arr? || j.Obj?
  }

  /** A step that depends on something else than earlier steps, with a later step whose id is a list or an object. */
  ghost predicate LaterIdFails(items: seq<Json>, i: nat)
    requires i < |items|
  {
    && items[i].Obj?
    && IsName(Get(items[i].fields, "step_id"))
    && AsRawStep(items[i]).id !in EarlierIds(items, i)
    && NamesStepType(Get(items[i].fields, "step_type"))
    && Get(items[i].fields, "goal").Str? && Get(items[i].fields, "goal").s != ""
    && (Get(items[i].fields, "depends_on") == Null || ListsTexts(Get(items[i].fields, "depends_on")))
    && !(ToSet(AsRawStep(items[i]).dependsOn) <= EarlierIds(items, i))
    && exists later | i < later < |items| ::
        items[later].Obj? && IsContainer(Get(items[later].fields, "step_id"))
  }

  ghost predicate TypeCrashesAt(items: seq<Json>, i: int) {
    0 <= i < |items| && InOrder(items[..i]) && TypeFails(items, i)
  }

  ghost predicate LaterIdCrashesAt(items: seq<Json>, i: int) {
    0 <= i < |items| && InOrder(items[..i]) && LaterIdFails(items, i)
  }

  lemma StepCrash(items: seq<Json>, i: nat)
    requires i < |items|
    ensures CheckStep(items[i], EarlierIds(items, i), items[i + 1..]).Crashed? <==>
      TypeFails(items, i) || LaterIdFails(items, i)
  {
    var deps, earlier, rest := AsRawStep(items[i]).dependsOn, EarlierIds(items, i), items[i + 1..];
    assert ToSet(deps) <= earlier <==> forall d | d in deps :: d in earlier;
    IdentifierIsName(Get(Fields(items[i]), "step_id"));
    if items[i].Obj? {
      StepFieldsAgree(items[i]);
    }
    assert forall later | i < later < |items| :: items[later] == rest[later - i - 1];
    assert forall h | 0 <= h < |rest| :: rest[h] == items[h + i + 1];
  }

  /** The items before i pass and the check of item i raises. */
  ghost predicate StuckAt(items: seq<Json>, i: int, seen: set<string>, check: StepCheck, make: Json -> RawStep) {
    && 0 <= i < |items|
    && CheckEach(items[..i], seen, check).Accepted?
    && check(items[i], seen + ToSet(StepIds(Made(items[..i], make))), items[i + 1..]).Crashed?
  }

  lemma StuckLater(
    items: seq<Json>, i: nat, seen: set<string>, check: StepCheck, good: Json -> bool, make: Json -> RawStep)
    requires Decides(check, good, make) && 0 < i < |items|
    ensures StuckAt(items, i, seen, check, make) <==>
      check(items[0], seen, items[1..]).Accepted? && StuckAt(items[1..], i - 1, seen + {make(items[0]).id}, check, make)
  {
    var rest, part := items[1..], items[..i];
    assert part[1..] == rest[..i - 1] && rest[i..] == items[i + 1..];
    assert check(items[0], seen, part[1..]).Accepted? <==> check(items[0], seen, rest).Accepted?;
    assert StepIds(Made(part, make)) == [make(items[0]).id] + StepIds(Made(rest[..i - 1], make));
    assert seen + ToSet(StepIds(Made(part, make)))
      == seen + {make(items[0]).id} + ToSet(StepIds(Made(rest[..i - 1], make)));
  }

  lemma {:induction false} EachCrash(
    items: seq<Json>, seen: set<string>, check: StepCheck, good: Json -> bool, make: Json -> RawStep)
    requires Decides(check, good, make)
    ensures CheckEach(items, seen, check).Crashed? <==> exists i :: StuckAt(items, i, seen, check, make)
  {
    if items != [] {
      var none := Made(items[..0], make);
      assert none == [] && seen + ToSet(StepIds(none)) == seen;
      assert StuckAt(items, 0, seen, check, make) <==> check(items[0], seen, items[1..]).Crashed?;
      forall i | 0 < i < |items|
        ensures StuckAt(items, i, seen, check, make) <==>
          check(items[0], seen, items[1..]).Accepted? && StuckAt(items[1..], i - 1, seen + {make(items[0]).id}, check, make)
      {
        StuckLater(items, i, seen, check, good, make);
      }
      if check(items[0], seen, items[1..]).Accepted? {
        var deeper := seen + {make(items[0]).id};
        EachCrash(items[1..], deeper, check, good, make);
        if j :| StuckAt(items[1..], j, deeper, check, make) {
          assert StuckAt(items, j + 1, seen, check, make);
        }
      }
    }
  }

  lemma StuckMeansCrash(items: seq<Json>, i: int)
    ensures StuckAt(items, i, {}, CheckStep, AsRawStep) <==> TypeCrashesAt(items, i) || LaterIdCrashesAt(items, i)
  {
    if 0 <= i < |items| {
      StepListAccepted(items[..i]);
      assert {} + EarlierIds(items, i) == EarlierIds(items, i);
      StepCrash(items, i);
    }
  }

  lemma StepsCrash(items: seq<Json>)
    ensures CheckSteps(items).Crashed? <==> StepsRaise(items)
  {
    CheckStepDecides();
    EachCrash(items, {}, CheckStep, RawStepShape, AsRawStep);
    forall i
      ensures StuckAt(items, i, {}, CheckStep, AsRawStep) <==> TypeCrashesAt(items, i) || LaterIdCrashesAt(items, i)
    {
      StuckMeansCrash(items, i);
    }
  }

  ghost predicate StepsRaise(items: seq<Json>) {
    exists i :: TypeCrashesAt(items, i) || LaterIdCrashesAt(items, i)
  }

  lemma StepsFieldCrash(steps: Json, declared: seq<Obligation>)
    ensures CheckStepsField(steps, declared).Crashed? <==>
      steps.Arr? && 1 <= |steps.items| <= 8 && StepsRaise(steps.items)
  {
    if steps.Arr? {
      StepsCrash(steps.items);
      if CheckSteps(steps.items).Accepted? {
        var raw := CheckSteps(steps.items).value;
        AssignmentNeverCrashes(Executables(raw), ToSet(ObligationIds(declared)), {});
      }
    }
  }

  ghost predicate ObligationsFieldHolds(obligations: Json) {
    && obligations.Arr? && obligations.items != []
    && (forall item | item in obligations.items :: ObligationShape(item))
    && Distinct(ObligationIds(AsObligations(obligations.items)))
  }

  /** The only exceptions besides rejection are failed lookups, and they strike exactly here. */
  lemma ValidatorCrashesExactly(plan: Json)
    ensures Validated(plan).Crashed? <==>
      && HeaderShape(plan)
      && ObligationsFieldHolds(Get(plan.fields, "obligations"))
      && Get(plan.fields, "steps").Arr? && 1 <= |Get(plan.fields, "steps").items| <= 8
      && StepsRaise(Get(plan.fields, "steps").items)
  {
    HeaderAccepted(plan);
    var obligations := ListOrEmpty(Get(Fields(plan), "obligations"));
    ObligationsAccepted(obligations, {});
    ObligationsNeverCrash(obligations, {});
    StepsFieldCrash(Get(Fields(plan), "steps"), AsObligations(obligations));
  }

  lemma {:induction false} ObligationsNeverCrash(items: seq<Json>, seen: set<string>)
    ensures !CheckObligations(items, seen).Crashed?
  {
    if items != [] && CheckObligation(items[0], seen).Accepted? {
      ObligationsNeverCrash(items[1..], seen + {CheckObligation(items[0], seen).value.id});
    }
  }

  lemma {:induction false} AssignmentNeverCrashes(steps: seq<RawStep>, known: set<string>, taken: set<string>)
    ensures !Assign(steps, known, taken).Crashed?
  {
    if steps != [] {
      ClaimsNeverCrash(Texts(steps[0].obligationIds), known, taken);
      if AssignStep(steps[0], known, taken).Accepted? {
        AssignmentNeverCrashes(steps[1..], known, AssignStep(steps[0], known, taken).value);
      }
    }
  }

  lemma {:induction false} ClaimsNeverCrash(ids: seq<string>, known: set<string>, taken: set<string>)
    ensures !AssignAll(ids, known, taken).Crashed?
  {
    if ids != [] {
      ClaimsNeverCrash(ids[1..], known, taken + {ids[0]});
    }
  }

  const LIST_TYPED_STEP := Obj(map["step_id" := Str("s1"), "step_type" := Arr([])])

  lemma ListTypedStepCrashes(items: seq<Json>)
    requires items == [LIST_TYPED_STEP]
    ensures TypeCrashesAt(items, 0)
  {
    var f := LIST_TYPED_STEP.fields;
    assert Get(f, "step_id") == Str("s1") && Get(f, "step_type") == Arr([]);
    assert "s1"[0] == 's' && !IsSpace('s');
    assert items[..0] == [] && AsRawSteps(items[..0]) == [];
  }

  /** A step whose type is a list: the validator on its own raises TypeError instead of rejecting the plan. */
  lemma CrashExample(plan: Json)
    requires HeaderShape(plan)
    requires ObligationsFieldHolds(Get(plan.fields, "obligations"))
    requires Get(plan.fields, "steps") == Arr([LIST_TYPED_STEP])
    ensures Validated(plan).Crashed?
  {
    ListTypedStepCrashes(Get(plan.fields, "steps").items);
    ValidatorCrashesExactly(plan);
  }
}
