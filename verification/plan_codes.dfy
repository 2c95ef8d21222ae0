/**
 Which code a refused plan gets: that of the first clause it breaks, the header before the
 obligations before the steps before the claims before the final step, and items in their order.
 */
module PlanCodes {
  import opened FieldNames
  import opened Json
  import opened PlanProperties
  import opened RuntimePlan
  import opened Sequences
  import opened Text
  import opened Wrappers

  /*** The header ***/

  lemma HeaderFieldCodes(fields: map<string, Json>)
    ensures Get(fields, "status") != Str("planned") ==>
      CheckHeaderFields(fields) == Rejected("runtime_plan_invalid_status")
    ensures Get(fields, "status") == Str("planned") && Present(fields, "limitations") ==>
      CheckHeaderFields(fields) == Rejected("runtime_plan_has_limitations")
    ensures Get(fields, "status") == Str("planned") && !Present(fields, "limitations") && Present(fields, "errors") ==>
      CheckHeaderFields(fields) == Rejected("runtime_plan_has_errors")
  {
  }

  /** There is something else than an empty list under the key. */
  predicate Present(fields: map<string, Json>, key: string) {
    key in fields && fields[key] != Arr([])
  }

  /** Every code but that of internal fields, told apart by its length or its fifteenth character. */
  predicate OtherCode(code: string) {
    |code| != 28 || code[14] != 'o'
  }

  predicate NotForbidden<T>(r: Outcome<T>) {
    r.Rejected? ==> OtherCode(r.code)
  }

  lemma ForbiddenCode()
    ensures !OtherCode("runtime_plan_forbidden_field")
  {
  }

  lemma HeaderFieldCodesDiffer(fields: map<string, Json>)
    ensures NotForbidden(CheckHeaderFields(fields))
  {
  }

  lemma HeaderIs(plan: Json, clean: bool)
    requires FreeOfForbiddenFields(plan) == clean
    ensures !plan.Obj? ==> CheckHeader(plan) == Rejected("runtime_plan_unreadable")
    ensures plan.Obj? ==>
      CheckHeader(plan) == if clean then CheckHeaderFields(plan.fields) else Rejected("runtime_plan_forbidden_field")
  {
  }

  lemma ObligationCodesDiffer(item: Json, seen: set<string>)
    ensures NotForbidden(CheckObligation(item, seen))
  {
  }

  lemma {:induction false} ObligationsCodesDiffer(items: seq<Json>, seen: set<string>)
    ensures NotForbidden(CheckObligations(items, seen))
  {
    if items != [] {
      ObligationCodesDiffer(items[0], seen);
      if CheckObligation(items[0], seen).Accepted? {
        ObligationsCodesDiffer(items[1..], seen + {CheckObligation(items[0], seen).value.id});
      }
    }
  }

  lemma StepCodesDiffer(item: Json, seen: set<string>, later: seq<Json>)
    ensures NotForbidden(CheckStep(item, seen, later))
  {
  }

  lemma {:induction false} EachCodeDiffers(items: seq<Json>, seen: set<string>, check: StepCheck)
    requires forall item, ids, later :: NotForbidden(check(item, ids, later))
    ensures NotForbidden(CheckEach(items, seen, check))
  {
    if items != [] && check(items[0], seen, items[1..]).Accepted? {
      EachCodeDiffers(items[1..], seen + {check(items[0], seen, items[1..]).value.id}, check);
    }
  }

  lemma StepsCodesDiffer(items: seq<Json>)
    ensures NotForbidden(CheckSteps(items))
  {
    forall item, ids, later
      ensures NotForbidden(CheckStep(item, ids, later))
    {
      StepCodesDiffer(item, ids, later);
    }
    EachCodeDiffers(items, {}, CheckStep);
  }

  lemma {:induction false} ClaimCodesDiffer(ids: seq<string>, known: set<string>, taken: set<string>)
    ensures NotForbidden(AssignAll(ids, known, taken))
  {
    if ids != [] && ids[0] in known && ids[0] !in taken {
      ClaimCodesDiffer(ids[1..], known, taken + {ids[0]});
    }
  }

  lemma {:induction false} ClaimsCodesDiffer(steps: seq<RawStep>, known: set<string>, taken: set<string>)
    ensures NotForbidden(Assign(steps, known, taken))
  {
    if steps != [] {
      ClaimCodesDiffer(Texts(steps[0].obligationIds), known, taken);
      if AssignStep(steps[0], known, taken).Accepted? {
        ClaimsCodesDiffer(steps[1..], known, AssignStep(steps[0], known, taken).value);
      }
    }
  }

  lemma CompletionCodesDiffer(declared: seq<Obligation>, steps: seq<RawStep>, taken: set<string>)
    ensures NotForbidden(CheckCompletion(declared, steps, taken))
  {
  }

  lemma StepsFieldCodesDiffer(steps: Json, declared: seq<Obligation>)
    ensures NotForbidden(CheckStepsField(steps, declared))
  {
    var items := ListOrEmpty(steps);
    StepsCodesDiffer(items);
    if CheckSteps(items).Accepted? {
      var raw := CheckSteps(items).value;
      var claims := Assign(Executables(raw), ToSet(ObligationIds(declared)), {});
      ClaimsCodesDiffer(Executables(raw), ToSet(ObligationIds(declared)), {});
      if claims.Accepted? {
        CompletionCodesDiffer(declared, raw, claims.value);
      }
    }
  }

  lemma CleanPlanCodes(plan: Json)
    requires plan.Obj? && FreeOfForbiddenFields(plan)
    ensures NotForbidden(Validated(plan))
  {
    HeaderIs(plan, true);
    HeaderFieldCodesDiffer(plan.fields);
    var items := ListOrEmpty(Get(plan.fields, "obligations"));
    ObligationsCodesDiffer(items, {});
    if CheckObligations(items, {}).Accepted? {
      StepsFieldCodesDiffer(Get(plan.fields, "steps"), CheckObligations(items, {}).value);
    }
  }

  /**
   An object with an internal field, at any depth and in any spelling, is refused as such, and no
   other object is.
   */
  lemma InternalFieldsAreRefused(plan: Json)
    requires plan.Obj?
    ensures Validated(plan) == Rejected("runtime_plan_forbidden_field") <==> HoldsInternalField(plan)
  {
    SearchIsExact(plan);
    HeaderIs(plan, !HoldsInternalField(plan));
    ForbiddenCode();
    if !HoldsInternalField(plan) {
      CleanPlanCodes(plan);
    }
  }

  /** What is wrong with the header of an object without internal fields. */
  lemma RefusedAtHeader(plan: Json)
    ensures !plan.Obj? ==> Validated(plan) == Rejected("runtime_plan_unreadable")
    ensures plan.Obj? && !HoldsInternalField(plan) && CheckHeaderFields(plan.fields).Rejected? ==>
      Validated(plan) == Rejected(CheckHeaderFields(plan.fields).code)
    ensures HeaderShape(plan) && ListOrEmpty(Get(plan.fields, "obligations")) == [] ==>
      Validated(plan) == Rejected("runtime_plan_missing_obligations")
  {
    SearchIsExact(plan);
    HeaderIs(plan, !HoldsInternalField(plan));
    HeaderAccepted(plan);
  }

  /*** The obligations ***/

  lemma ObligationCodes(item: Json, earlier: set<string>)
    ensures !item.Obj? ==> CheckObligation(item, earlier) == Rejected("runtime_plan_invalid_obligation")
    ensures item.Obj? && !IsName(Get(item.fields, "obligation_id")) ==>
      CheckObligation(item, earlier) == Rejected("runtime_plan_invalid_obligation")
    ensures item.Obj? && IsName(Get(item.fields, "obligation_id")) && AsObligation(item).id in earlier ==>
      CheckObligation(item, earlier) == Rejected("runtime_plan_duplicate_obligation_id")
    ensures item.Obj? && IsName(Get(item.fields, "obligation_id")) && AsObligation(item).id !in earlier ==>
      (!ObligationShape(item) ==> CheckObligation(item, earlier) == Rejected("runtime_plan_invalid_obligation"))
  {
    IdentifierIsName(Get(Fields(item), "obligation_id"));
    VisibleIsNotBlank(TextOf(Get(Fields(item), "description")));
  }

  /** The ids up to the i-th obligation, with the first one set apart. */
  lemma IdsWithFirst(items: seq<Json>, i: nat, seen: set<string>)
    requires 0 < i <= |items|
    ensures seen + ToSet(ObligationIds(AsObligations(items[..i])))
      == (seen + {AsObligation(items[0]).id}) + ToSet(ObligationIds(AsObligations(items[1..][..i - 1])))
  {
    var part, rest := items[..i], items[1..][..i - 1];
    assert part[1..] == rest && part[0] == items[0];
    assert ObligationIds(AsObligations(part)) == [AsObligation(items[0]).id] + ObligationIds(AsObligations(rest));
  }

  lemma FirstIsKept(items: seq<Json>, i: nat, seen: set<string>)
    requires 0 < i <= |items| && CheckObligations(items[..i], seen).Accepted?
    ensures CheckObligation(items[0], seen) == Accepted(AsObligation(items[0]))
    ensures CheckObligations(items[1..][..i - 1], seen + {AsObligation(items[0]).id}).Accepted?
  {
    var part := items[..i];
    ObligationAccepted(items[0], seen);
    assert part[1..] == items[1..][..i - 1] && part[0] == items[0];
  }

  lemma {:induction false} FirstBadObligation(items: seq<Json>, i: nat, seen: set<string>, code: string)
    requires i < |items| && CheckObligations(items[..i], seen).Accepted?
    requires CheckObligation(items[i], seen + ToSet(ObligationIds(AsObligations(items[..i])))) == Rejected(code)
    ensures CheckObligations(items, seen) == Rejected(code)
  {
    if i == 0 {
      assert ObligationIds(AsObligations(items[..0])) == [] && seen + ToSet([]) == seen;
    } else {
      FirstIsKept(items, i, seen);
      IdsWithFirst(items, i, seen);
      FirstBadObligation(items[1..], i - 1, seen + {AsObligation(items[0]).id}, code);
    }
  }

  /** The first bad obligation decides; its code is one of ObligationCodes. */
  lemma RefusedAtObligation(plan: Json, i: nat, code: string)
    requires HeaderShape(plan) && i < |ListOrEmpty(Get(plan.fields, "obligations"))|
    requires var items := ListOrEmpty(Get(plan.fields, "obligations"));
      && ObligationShapes(items[..i]) && Distinct(ObligationIds(AsObligations(items[..i])))
      && CheckObligation(items[i], ToSet(ObligationIds(AsObligations(items[..i])))) == Rejected(code)
    ensures Validated(plan) == Rejected(code)
  {
    var items := ListOrEmpty(Get(plan.fields, "obligations"));
    HeaderAccepted(plan);
    ObligationsAccepted(items[..i], {});
    assert {} + ToSet(ObligationIds(AsObligations(items[..i]))) == ToSet(ObligationIds(AsObligations(items[..i])));
    FirstBadObligation(items, i, {}, code);
  }

  /*** The steps ***/

  predicate HasGoal(item: Json)
    requires item.Obj?
  {
    Get(item.fields, "goal").Str? && Get(item.fields, "goal").s != ""
  }

  predicate ListsDependencies(item: Json)
    requires item.Obj?
  {
    Get(item.fields, "depends_on") == Null || ListsTexts(Get(item.fields, "depends_on"))
  }

  /** A new name, a known type and a goal. */
  predicate GoodStart(item: Json, earlier: set<string>) {
    && item.Obj? && IsName(Get(item.fields, "step_id")) && AsRawStep(item).id !in earlier
    && NamesStepType(Get(item.fields, "step_type")) && HasGoal(item)
  }

  predicate NamedLater(d: string, later: seq<Json>) {
    exists h | 0 <= h < |later| :: later[h].Obj? && Get(later[h].fields, "step_id") == Str(d)
  }

  predicate ContainerLater(later: seq<Json>) {
    exists h | 0 <= h < |later| :: later[h].Obj? && IsContainer(Get(later[h].fields, "step_id"))
  }

  lemma StepCodes(item: Json, earlier: set<string>, later: seq<Json>)
    ensures !item.Obj? ==> CheckStep(item, earlier, later) == Rejected("runtime_plan_invalid_step")
    ensures item.Obj? && !IsName(Get(item.fields, "step_id")) ==>
      CheckStep(item, earlier, later) == Rejected("runtime_plan_missing_step_id")
    ensures item.Obj? && IsName(Get(item.fields, "step_id")) ==>
      (AsRawStep(item).id in earlier ==> CheckStep(item, earlier, later) == Rejected("runtime_plan_duplicate_step_id"))
    ensures item.Obj? && IsName(Get(item.fields, "step_id")) && AsRawStep(item).id !in earlier ==>
      (!NamesStepType(Get(item.fields, "step_type")) && !IsContainer(Get(item.fields, "step_type")) ==>
        CheckStep(item, earlier, later) == Rejected("runtime_plan_unsupported_step_type"))
    ensures item.Obj? && IsName(Get(item.fields, "step_id")) && AsRawStep(item).id !in earlier ==>
      (NamesStepType(Get(item.fields, "step_type")) && !HasGoal(item) ==>
        CheckStep(item, earlier, later) == Rejected("runtime_plan_missing_goal"))
    ensures GoodStart(item, earlier) && !ListsDependencies(item) ==>
      CheckStep(item, earlier, later) == Rejected("runtime_plan_invalid_dependency")
  {
    IdentifierIsName(Get(Fields(item), "step_id"));
    if item.Obj? {
      StepFieldsAgree(item);
    }
  }

  lemma DependencyCodes(deps: seq<string>, earlier: set<string>, later: seq<Json>)
    requires !(ToSet(deps) <= earlier) && !ContainerLater(later)
    ensures CheckDependencies(deps, earlier, later) ==
      if exists d | d in deps :: d !in earlier && NamedLater(d, later) then Rejected("runtime_plan_future_dependency")
      else Rejected("runtime_plan_unknown_dependency")
  {
    forall d | d in deps
      ensures NamedLater(d, later) <==> exists i | 0 <= i < |later| :: FutureId(later[i]) == Str(d)
    {
    }
    assert !exists i | 0 <= i < |later| :: Unhashable(FutureId(later[i]));
    var d :| d in ToSet(deps) && d !in earlier;
  }

  /** Dependencies on later steps and on no step at all are told apart; then only the claims can be bad. */
  lemma LateStepCodes(item: Json, earlier: set<string>, later: seq<Json>)
    requires GoodStart(item, earlier) && ListsDependencies(item)
    ensures !(ToSet(AsRawStep(item).dependsOn) <= earlier) && !ContainerLater(later) ==>
      CheckStep(item, earlier, later) ==
        if exists d | d in AsRawStep(item).dependsOn :: d !in earlier && NamedLater(d, later)
        then Rejected("runtime_plan_future_dependency")
        else Rejected("runtime_plan_unknown_dependency")
    ensures ToSet(AsRawStep(item).dependsOn) <= earlier ==>
      ("obligation_ids" in item.fields && !item.fields["obligation_ids"].Arr? ==>
        CheckStep(item, earlier, later) == Rejected("runtime_plan_missing_obligation_ids"))
  {
    IdentifierIsName(Get(Fields(item), "step_id"));
    StepFieldsAgree(item);
    var deps := AsRawStep(item).dependsOn;
    assert deps == Texts(DependsOnField(item.fields).items);
    if ToSet(deps) <= earlier {
      assert forall d | d in deps :: d in ToSet(deps);
    } else if !ContainerLater(later) {
      DependencyCodes(deps, earlier, later);
    }
  }

  lemma {:induction false} FirstRejected(
    items: seq<Json>, i: nat, seen: set<string>, check: StepCheck, good: Json -> bool, make: Json -> RawStep, code: string)
    requires Decides(check, good, make) && i < |items| && CheckEach(items[..i], seen, check).Accepted?
    requires check(items[i], seen + ToSet(StepIds(Made(items[..i], make))), items[i + 1..]) == Rejected(code)
    ensures CheckEach(items, seen, check) == Rejected(code)
  {
    if i == 0 {
      assert StepIds(Made(items[..0], make)) == [] && seen + ToSet([]) == seen;
    } else {
      var rest, part := items[1..], items[..i];
      var deeper := seen + {make(items[0]).id};
      assert part[1..] == rest[..i - 1] && part[0] == items[0] && rest[i..] == items[i + 1..];
      assert check(items[0], seen, part[1..]).Accepted? <==> check(items[0], seen, rest).Accepted?;
      assert StepIds(Made(part, make)) == [make(items[0]).id] + StepIds(Made(rest[..i - 1], make));
      assert seen + ToSet(StepIds(Made(part, make))) == deeper + ToSet(StepIds(Made(rest[..i - 1], make)));
      FirstRejected(rest, i - 1, deeper, check, good, make, code);
    }
  }

  /** The first bad step decides; its code is one of StepCodes and LateStepCodes. */
  lemma RefusedAtStep(plan: Json, i: nat, code: string)
    requires HeaderShape(plan) && ObligationsFieldHolds(Get(plan.fields, "obligations"))
    requires i < |ListOrEmpty(Get(plan.fields, "steps"))| <= 8
    requires var items := ListOrEmpty(Get(plan.fields, "steps"));
      InOrder(items[..i]) && CheckStep(items[i], EarlierIds(items, i), items[i + 1..]) == Rejected(code)
    ensures Validated(plan) == Rejected(code)
  {
    var items := ListOrEmpty(Get(plan.fields, "steps"));
    HeaderAccepted(plan);
    ObligationsAccepted(Get(plan.fields, "obligations").items, {});
    StepListAccepted(items[..i]);
    CheckStepDecides();
    assert {} + EarlierIds(items, i) == EarlierIds(items, i);
    FirstRejected(items, i, {}, CheckStep, RawStepShape, AsRawStep, code);
  }

  lemma RefusedForStepCount(plan: Json)
    requires HeaderShape(plan) && ObligationsFieldHolds(Get(plan.fields, "obligations"))
    ensures ListOrEmpty(Get(plan.fields, "steps")) == [] ==> Validated(plan) == Rejected("runtime_plan_missing_steps")
    ensures |ListOrEmpty(Get(plan.fields, "steps"))| > 8 ==> Validated(plan) == Rejected("runtime_plan_too_many_steps")
  {
    HeaderAccepted(plan);
    ObligationsAccepted(Get(plan.fields, "obligations").items, {});
  }

  /*** The claims ***/

  lemma {:induction false} ClaimCodes(ids: seq<string>, i: nat, known: set<string>, taken: set<string>)
    requires i < |ids| && ToSet(ids[..i]) <= known && Distinct(ids[..i]) && ToSet(ids[..i]) !! taken
    ensures ids[i] !in known ==> AssignAll(ids, known, taken) == Rejected("runtime_plan_unknown_obligation")
    ensures ids[i] in known && (ids[i] in taken || ids[i] in ids[..i]) ==>
      AssignAll(ids, known, taken) == Rejected("runtime_plan_duplicate_obligation_assignment")
  {
    if i > 0 {
      var part, rest := ids[..i], ids[1..];
      DistinctCons(part);
      assert part[1..] == rest[..i - 1] && part[0] in ToSet(part);
      assert part == [part[0]] + part[1..];
      ClaimCodes(rest, i - 1, known, taken + {ids[0]});
    }
  }

  /** An executable step without claims, or with one that is not a text or empty. */
  lemma StepClaimCodes(step: RawStep, known: set<string>, taken: set<string>)
    requires step.Executable()
    ensures !ClaimShape(step) ==> AssignStep(step, known, taken) == Rejected("runtime_plan_missing_obligation_ids")
    ensures ClaimShape(step) ==> AssignStep(step, known, taken) == AssignAll(Texts(step.obligationIds), known, taken)
  {
    assert forall i | 0 <= i < |step.obligationIds| :: step.obligationIds[i] in step.obligationIds;
  }

  lemma {:induction false} FirstBadClaimer(steps: seq<RawStep>, i: nat, known: set<string>, taken: set<string>, code: string)
    requires i < |steps| && (forall s | s in steps :: s.Executable())
    requires Assign(steps[..i], known, taken).Accepted?
    requires AssignStep(steps[i], known, taken + ToSet(ClaimedRaw(steps[..i]))) == Rejected(code)
    ensures Assign(steps, known, taken) == Rejected(code)
  {
    if i == 0 {
      assert taken + ToSet(ClaimedRaw(steps[..0])) == taken;
    } else {
      var part, rest := steps[..i], steps[1..];
      assert part[1..] == rest[..i - 1] && part[0] == steps[0];
      AssignStepAccepted(steps[0], known, taken);
      var deeper := taken + ToSet(Texts(steps[0].obligationIds));
      DistinctAppend(Texts(steps[0].obligationIds), ClaimedRaw(rest[..i - 1]));
      assert taken + ToSet(ClaimedRaw(part)) == deeper + ToSet(ClaimedRaw(rest[..i - 1]));
      FirstBadClaimer(rest, i - 1, known, deeper, code);
    }
  }

  /** The plan's steps, all of them in order. */
  ghost predicate StepsInOrder(plan: Json) {
    && HeaderShape(plan) && ObligationsFieldHolds(Get(plan.fields, "obligations"))
    && 1 <= |ListOrEmpty(Get(plan.fields, "steps"))| <= 8
    && InOrder(ListOrEmpty(Get(plan.fields, "steps")))
  }

  function StepsOf(plan: Json): seq<RawStep> {
    AsRawSteps(ListOrEmpty(Get(Fields(plan), "steps")))
  }

  function DeclaredIds(plan: Json): set<string> {
    ToSet(ObligationIds(AsObligations(ListOrEmpty(Get(Fields(plan), "obligations")))))
  }

  lemma ThenComplete(plan: Json)
    requires StepsInOrder(plan)
    ensures Validated(plan) == Complete(AsObligations(ListOrEmpty(Get(plan.fields, "obligations"))), StepsOf(plan))
  {
    HeaderAccepted(plan);
    ObligationsAccepted(Get(plan.fields, "obligations").items, {});
    StepListAccepted(ListOrEmpty(Get(plan.fields, "steps")));
  }

  /** The first executable step with a bad claim decides; its code is one of StepClaimCodes and ClaimCodes. */
  lemma RefusedAtClaim(plan: Json, i: nat, code: string)
    requires StepsInOrder(plan) && i < |Executables(StepsOf(plan))|
    requires var steps := Executables(StepsOf(plan));
      && (forall s | s in steps[..i] :: ClaimShape(s))
      && Distinct(ClaimedRaw(steps[..i])) && ToSet(ClaimedRaw(steps[..i])) <= DeclaredIds(plan)
      && AssignStep(steps[i], DeclaredIds(plan), ToSet(ClaimedRaw(steps[..i]))) == Rejected(code)
    ensures Validated(plan) == Rejected(code)
  {
    var steps := Executables(StepsOf(plan));
    ThenComplete(plan);
    ClaimedByExecutables(StepsOf(plan));
    assert forall s | s in steps[..i] :: s in steps;
    AssignAccepted(steps[..i], DeclaredIds(plan), {});
    assert {} + ToSet(ClaimedRaw(steps[..i])) == ToSet(ClaimedRaw(steps[..i]));
    FirstBadClaimer(steps, i, DeclaredIds(plan), {}, code);
  }

  /*** The end ***/

  /** All claims are good. */
  ghost predicate ClaimsGood(plan: Json) {
    var steps := Executables(StepsOf(plan));
    && StepsInOrder(plan)
    && (forall s | s in steps :: ClaimShape(s))
    && Distinct(ClaimedRaw(steps)) && ToSet(ClaimedRaw(steps)) <= DeclaredIds(plan)
  }

  lemma FinalCodes(declared: seq<Obligation>, steps: seq<RawStep>, taken: set<string>)
    requires ToSet(ObligationIds(declared)) <= taken
    ensures (forall i | 0 <= i < |steps| :: !steps[i].stepType.FinalResult?) ==>
      CheckCompletion(declared, steps, taken) == Rejected("runtime_plan_missing_final_result")
    ensures (exists i, j :: 0 <= i < j < |steps| && steps[i].stepType.FinalResult? && steps[j].stepType.FinalResult?) ==>
      CheckCompletion(declared, steps, taken) == Rejected("runtime_plan_multiple_final_results")
  {
    assert ToSet(ObligationIds(declared)) - taken == {};
    if forall i | 0 <= i < |steps| :: !steps[i].stepType.FinalResult? {
      NoFinalStep(steps);
    }
    if i, j :| 0 <= i < j < |steps| && steps[i].stepType.FinalResult? && steps[j].stepType.FinalResult? {
      if |Finals(steps)| <= 1 {
        if Finals(steps) == [] {
          NoFinalsLeft(steps);
        } else {
          var f := FindFinalStep(steps);
        }
        assert false;
      }
    }
  }

  lemma FinalStepCodes(declared: seq<Obligation>, steps: seq<RawStep>, taken: set<string>, f: nat)
    requires ToSet(ObligationIds(declared)) <= taken && f < |steps|
    requires forall i | 0 <= i < |steps| :: steps[i].stepType.FinalResult? <==> i == f
    ensures steps[f].obligationIds != [] ==>
      CheckCompletion(declared, steps, taken) == Rejected("runtime_plan_final_result_has_obligations")
    ensures steps[f].obligationIds == [] && ToSet(steps[f].dependsOn) != ToSet(StepIds(steps[..f] + steps[f + 1..])) ==>
      CheckCompletion(declared, steps, taken) == Rejected("runtime_plan_incomplete_final_dependencies")
  {
    assert ToSet(ObligationIds(declared)) - taken == {};
    FinalStepAt(steps, f);
  }

  lemma ThenCheckCompletion(plan: Json)
    requires ClaimsGood(plan)
    ensures Validated(plan) == CheckCompletion(
      AsObligations(ListOrEmpty(Get(plan.fields, "obligations"))), StepsOf(plan), ToSet(ClaimedRaw(Executables(StepsOf(plan)))))
  {
    var steps := Executables(StepsOf(plan));
    ThenComplete(plan);
    ClaimedByExecutables(StepsOf(plan));
    AssignAccepted(steps, DeclaredIds(plan), {});
    assert {} + ToSet(ClaimedRaw(steps)) == ToSet(ClaimedRaw(steps));
  }

  /** With all claims good: an obligation left over, no final step, two, or one that is not as it has to be. */
  lemma RefusedAtEnd(plan: Json)
    requires ClaimsGood(plan)
    ensures var steps, claimed := StepsOf(plan), ToSet(ClaimedRaw(Executables(StepsOf(plan))));
      && (!(DeclaredIds(plan) <= claimed) ==> Validated(plan) == Rejected("uncovered_obligation"))
      && (DeclaredIds(plan) <= claimed ==>
        && ((forall i | 0 <= i < |steps| :: !steps[i].stepType.FinalResult?) ==>
              Validated(plan) == Rejected("runtime_plan_missing_final_result"))
        && ((exists i, j :: 0 <= i < j < |steps| && steps[i].stepType.FinalResult? && steps[j].stepType.FinalResult?) ==>
              Validated(plan) == Rejected("runtime_plan_multiple_final_results")))
  {
    var declared := AsObligations(ListOrEmpty(Get(plan.fields, "obligations")));
    var claimed := ToSet(ClaimedRaw(Executables(StepsOf(plan))));
    ThenCheckCompletion(plan);
    if DeclaredIds(plan) <= claimed {
      FinalCodes(declared, StepsOf(plan), claimed);
    } else {
      var o :| o in DeclaredIds(plan) && o !in claimed;
      assert o in ToSet(ObligationIds(declared)) - claimed;
    }
  }

  lemma RefusedAtFinalStep(plan: Json, f: nat)
    requires ClaimsGood(plan) && DeclaredIds(plan) <= ToSet(ClaimedRaw(Executables(StepsOf(plan))))
    requires f < |StepsOf(plan)| && forall i | 0 <= i < |StepsOf(plan)| :: StepsOf(plan)[i].stepType.FinalResult? <==> i == f
    ensures StepsOf(plan)[f].obligationIds != [] ==>
      Validated(plan) == Rejected("runtime_plan_final_result_has_obligations")
    ensures var steps := StepsOf(plan);
      steps[f].obligationIds == [] && ToSet(steps[f].dependsOn) != ToSet(StepIds(steps[..f] + steps[f + 1..])) ==>
        Validated(plan) == Rejected("runtime_plan_incomplete_final_dependencies")
  {
    ThenCheckCompletion(plan);
    FinalStepCodes(
      AsObligations(ListOrEmpty(Get(plan.fields, "obligations"))), StepsOf(plan),
      ToSet(ClaimedRaw(Executables(StepsOf(plan)))), f);
  }
}
