# Verification of the orchestrator's plan engine, SQL child and permission services

This project models the parts of the orchestrator whose correctness depends on many steps working
together, and states what they promise as Dafny contracts and lemmas.

- **Run engine** (`runtime_plan`, `field_names`, `plan_properties`,
  `plan_codes`, `run_engine`, `run_properties`, `run_report`). An untrusted
  plan of obligations and steps is validated; the graph then loops executor, perform and normalizer
  until the plan is complete or something fails, and folds the step results into one bundle. The
  validator is characterised by a declarative contract. Every run over an accepted plan is shown to
  follow one trajectory, from which order, coverage, dependency scoping, the number of node visits
  and the final status are read off.
- **SQL child** (`sql_child`, `catalog`, `catalog_properties`, `selection_properties`). The generate, validate, execute
  and check machine with its single regeneration, and the catalog pipeline it works on: permission
  filter, join loading and selection resolution.
- **Dataset services** (`watchdog_queue`, `reconciliation`, `structured_import`,
  `import_properties`, `join_approval`).
  The coalescing event queue, the comparison of disk and catalog, type inference and conversion of
  imported columns, and the approval of joins that a model proposed.
- **Permission schema** (`permission_resources`, `permission_graph`). The permission-schema graph
  with its cache, over whole sequences of requests.

The remaining files hold shared vocabulary: optional values and outcomes (`wrappers`), decoded JSON
(`json`), sequences, repeated steps (`iteration`), strings, decimal numerals and lexicographic order.

Loops and objects that the system updates in place are methods and classes here, each specified by a
function or predicate; nodes and routers that map a state to a patch are functions.

## Assumptions

- Children, language models and the database are arbitrary functions: the n-th call returns any
  value of its type, or raises. A successful child is assumed to echo the step id and type it was
  given, or to leave them out (`Echoing`), as `emit_sql_result.py:44-46` and
  `emit_rag_result.py:38-40` do.
- A child result has the types that the public result builders give it: id and type are text, the
  status is a text, limitations and errors are lists, an error is an object, and the output is an
  object with arbitrary values. The exceptions that `normalizer_transformer.py:23-33` and
  `final_result_bundle.py:35,164-173` would raise on other types are outside the model.
- The check of the run's input is a parameter with three outcomes; other exceptions in it are
  outside the model.
- The identity service confirms an identity in any way; groups and permissions depend on the
  lower-case email only, as in the demo service.
- The read-only verdict on a statement does not raise once its parameters could be counted: both
  parse the same text.
- Parser facts about SQL text (number of unbound parameters, read-only or not), redaction of free
  text, the test for unsafe text, content hashes and directory listings are parameters.
- The claims about join loading assume distinct resource keys, which `db/runtime_store.py:184-185`
  provides by collecting resources under their key.
- The identity service does not change during a sequence of requests. Where a claim says so, the
  hash is collision-free and identifiers hold no `|`. Clock readings are arbitrary.
- Letter case and white space are those of ASCII.

## Where the code does not do what one might expect

- The validator accepts a goal that is only white space (`contracts.py:131`), but the dispatching
  node refuses it: the run then ends with validation_failed without calling that child.
- A step type that is a list or an object makes the planner raise TypeError, also where validation
  would have rejected the plan (`runtime_obligation_planner.py:91`, `ListTypeRaises`).
- A step id that is a list or an object, in a step after one with an unknown dependency, makes the
  validator raise TypeError, which the executor does not catch (`ListIdRaises`).
- A result whose `columns` is a true value that cannot be iterated makes the last nodes raise while
  they collect audit material (`BundleRaisesExactly`). `RunRaisesExactly` puts these cases together.
- The SQL child does not catch what its parser raises besides parse errors (`StatusIsExact`).
- Coalescing can lose the last content that could be parsed (`LostContentExample`);
  `CoalescingRefinesReplay` says exactly when.
- Loaded joins with an empty name are counted as loaded and as invalid (`JoinCountsAddUp`).
- Python's limit of 4300 digits makes the conversion of a longer integer fail (`ConversionIsSound`).
- Two spellings of one email share a cache key: the second one is refused while the first one's
  entry is live (`OtherSpellingIsRefused`). The demo service confirms lower-case emails only, so it
  never happens there (`DemoServiceAlwaysAgrees`).
- Separators inside identifiers make different requests share a cache key
  (`SeparatorsServeTheWrongDataset`).
- The architecture documentation says that SQL validation checks the selected resources; the code
  validates the statement without looking at them, and so does the model.

## Model

| member | source | states |
|---|---|---|
| `RuntimePlan.ValidateRuntimePlan` | orchestrator-api/app/tools/sql_rag/contracts.py:76-204 | The validator with its three loops answers, code for code and in the order the checks are tried, what the recursive specification `Validated` answers. |
| `FieldNames.ForbiddenKeyIsExact` | orchestrator-api/app/tools/sql_rag/contracts.py:20-36 | A key is internal if and only if it spells one of the fifteen names, written out here, in any letter case, with hyphens for underscores, and with doubled or outer separators. |
| `FieldNames.SearchIsExact` | orchestrator-api/app/tools/sql_rag/contracts.py:260-270 | The search finds such a key in every object at every depth of lists and objects, and nothing else. |
| `PlanCodes.InternalFieldsAreRefused` | orchestrator-api/app/tools/sql_rag/contracts.py:79-80 | An object plan is refused for an internal field if and only if it holds one at some depth; this comes before everything else. |
| `PlanCodes.RefusedAtHeader` | orchestrator-api/app/tools/sql_rag/contracts.py:64-92 | The codes for a plan that is no object, has the wrong status, limitations or errors, or no obligations. |
| `PlanCodes.RefusedAtObligation` | orchestrator-api/app/tools/sql_rag/contracts.py:93-106 | The first bad obligation decides the code (`ObligationCodes` gives it). |
| `PlanCodes.RefusedAtStep` | orchestrator-api/app/tools/sql_rag/contracts.py:119-146 | The first bad step decides the code (`StepCodes`, `LateStepCodes`). |
| `PlanCodes.LateStepCodes` | orchestrator-api/app/tools/sql_rag/contracts.py:134-147 | A dependency on a later step and one on no step at all have different codes; a step with good dependencies can only fail over its claims. |
| `PlanCodes.RefusedAtClaim` | orchestrator-api/app/tools/sql_rag/contracts.py:159-178 | The first executable step with a bad claim decides the code (`StepClaimCodes`, `ClaimCodes`). |
| `PlanCodes.RefusedAtEnd` | orchestrator-api/app/tools/sql_rag/contracts.py:180-198 | The codes for uncovered obligations, no final step or several, and for a final step with obligations or with other dependencies. |
| `RuntimePlan.AssignObligations` | orchestrator-api/app/tools/sql_rag/contracts.py:162-178 | The nested assignment loop gives each claimed obligation to one step, and stops at the first unknown or repeated one. |
| `PlanProperties.ValidatorIsExact` | orchestrator-api/app/tools/sql_rag/contracts.py:76-204 | A plan is accepted if and only if it has the declared shape, written out without the validator's own tests, and is consistent: unique ids, dependencies on earlier steps only, the obligations partitioned among the executable steps, and one final step that waits for exactly the others. The accepted plan is the one that was written down. |
| `PlanProperties.FinalStepIsLast` | orchestrator-api/app/tools/sql_rag/contracts.py:138-198 | In an accepted plan the final step is the last one, so no executable step can depend on it. |
| `PlanProperties.ValidationIsIdempotent` | orchestrator-api/app/tools/sql_rag/contracts.py:199-204 | Validating a normalized plan accepts it and returns the same plan. |
| `PlanProperties.ValidatorCrashesExactly` | orchestrator-api/app/tools/sql_rag/contracts.py:129-141 | The validator raises something other than its own error if and only if the checks before the steps pass and some step, after steps in good order, has a type that is a list or an object, or waits for something unknown while a later step has such an id. |
| `PlanProperties.CrashExample` | orchestrator-api/app/tools/sql_rag/contracts.py:129 | The validator on its own raises on a step whose type is a list; in a run the planner raises before (`ListTypeRaises`). |
| `RunEngine.RequiredDependencyContext` | orchestrator-api/app/tools/sql_rag/nodes/perform_rag_sql.py:62-76 | The loop collects the outputs of the declared dependencies, or reports that one is missing. |
| `RunEngine.DedupeErrors` | orchestrator-api/app/tools/sql_rag/nodes/final_result_bundle.py:164-173 | The loop keeps the first error of each code and message, in order. |
| `RunEngine.FirstErrorsAreKept` | orchestrator-api/app/tools/sql_rag/nodes/final_result_bundle.py:164-173 | The errors kept are exactly those at positions where the code and message are new, and they are pairwise different. |
| `RunEngine.BuildBundle` | orchestrator-api/app/tools/sql_rag/nodes/final_result_bundle.py:11-88 | The fold of the step results gives the rows, evidence, citations, limitations and errors in step order, and downgrades a success without any output to insufficient_evidence. |
| `RunReport.BundleIsExact` | orchestrator-api/app/tools/sql_rag/nodes/final_result_bundle.py:11-117 | What the bundle holds, from the outputs' fields alone: the items under `rows` of every SQL result with text columns, object rows and a count, the lists under `validated_evidence` and `validated_citations` of every document result, all limitations, and the first error of each code and message; the status is the gravest one, or insufficient_evidence if all succeeded with nothing to show. |
| `RunReport.GateIsExact` | orchestrator-api/app/tools/sql_rag/nodes/multi_step_runtime_executor.py:143-161 | A SQL output opens the gate if and only if it has the three keys, at least one column, all named by non-empty texts, a list of objects as rows, a count, and, where the count is positive, a value that is not null in every column; otherwise the reason is the first of these clauses that is broken. |
| `RunReport.PassingIsDelivering` | orchestrator-api/app/tools/sql_rag/nodes/multi_step_runtime_executor.py:96-161 | A step passes if and only if its goal is visible, its child reports success under the name of the step's kind, and the output of a SQL step meets the clauses of the gate. |
| `RunProperties.ScanPicksFirst` | orchestrator-api/app/tools/sql_rag/nodes/multi_step_runtime_executor.py:197-210 | When the completed steps are a prefix, the ready-scan picks the step right after it. |
| `RunProperties.ChoiceIsExact` | orchestrator-api/app/tools/sql_rag/nodes/multi_step_runtime_executor.py:197-225 | Whatever is completed and covered: the executor runs the first step that is not completed and waits for completed steps only; without one it is blocked while steps are open, uncovered while obligations are, and done otherwise. |
| `RunProperties.NextIsTheNextStep` | orchestrator-api/app/tools/sql_rag/nodes/multi_step_runtime_executor.py:197-225 | The executor runs the next step or is done: the blocked and uncovered branches are not reached. |
| `RunProperties.CoverageAtEntry` | orchestrator-api/app/tools/sql_rag/nodes/multi_step_runtime_executor.py:96-140 | Whether a step is credited by the normalizer (RAG) or at the next executor visit (SQL), the executor ends up with the obligations of all completed steps, or with a closed gate. |
| `RunProperties.PerformScopes` | orchestrator-api/app/tools/sql_rag/nodes/perform_rag_sql.py:8-76 | A dispatched step is given its own obligations and the outputs of its declared dependencies, or its child raises; the missing-context branch is not reached. |
| `RunProperties.DependenciesAreHandedOver` | orchestrator-api/app/tools/sql_rag/nodes/perform_rag_sql.py:62-76 | The context of a call has exactly the declared dependencies as keys, and under each the output of the step of that id. |
| `RunProperties.RunStaysOnTrajectory` | orchestrator-api/app/tools/sql_rag/graph.py:17-49 | Every point of every run over an accepted plan lies on one fixed trajectory, given in closed form. |
| `RunProperties.RunIsSound` | orchestrator-api/app/tools/sql_rag/nodes/normalizer_transformer.py:15-75 | At every point the completed steps are a prefix of the executable steps, each child has been called at most once and in plan order, the dispatched step is the first incomplete one, coverage at dispatch and at completion is the concatenation of the completed steps' obligations, and from the executor's first visit on the stored plan is the same. |
| `RunProperties.AcceptedRunEnds` | orchestrator-api/app/tools/sql_rag/graph.py:31-49 | Every run over a plan with k executable steps ends within 3k + 5 node visits, exactly three per step tried plus five; it raises if and only if a dispatched child raises or a bundled result has columns that cannot be iterated, and then after an exact number of visits too. |
| `RunProperties.BundleRaisesExactly` | orchestrator-api/app/tools/sql_rag/nodes/final_result_bundle.py:131-181 | The bundle raises if and only if the run reaches it with a RAG success, or a failing child's result, whose `columns` is a true value that cannot be iterated; a SQL output that got through the gate never does this. |
| `RunProperties.FinalStatusIsExact` | orchestrator-api/app/tools/sql_rag/nodes/final_result_bundle.py:11-88 | The reported status, unless the run raises: success iff every step passes and a SQL step or non-empty document evidence exists, insufficient_evidence iff every step passes and there is none, validation_failed for a closed gate, a blank goal or malformed child output, otherwise the failing child's own status. |
| `RunProperties.StoppedByChild` | orchestrator-api/app/tools/sql_rag/contracts.py:245-257 | A run stopped by a child's answer has exactly one result that is not a success, the last, and its bundle carries all results. |
| `RunProperties.AcceptedPlanRunsAsPromised` | orchestrator-api/app/tools/sql_rag/nodes/multi_step_runtime_executor.py:19-78 | From acceptance by the validator alone: the run ends in the exact number of visits, children are called in plan order up to the first step that does not pass, each with all its declared dependencies, the steps complete iff all pass, completion covers every obligation exactly once, and the status is the expected one unless the run raises. |
| `RunReport.CompletedReport` | orchestrator-api/app/tools/sql_rag/nodes/normalizer_transformer.py:15-75 | If all steps deliver, everything is completed and credited, the results carry the children's own outputs in plan order, and the caller is given their bundle. |
| `RunReport.FailedReport` | orchestrator-api/app/tools/sql_rag/nodes/multi_step_runtime_executor.py:81-93 | If a child answers without success, its record is the last result after those of the steps before it, the reason is its first error's code, and the caller is given the bundle of all results. |
| `RunReport.GateReport` | orchestrator-api/app/tools/sql_rag/nodes/multi_step_runtime_executor.py:96-127 | If the first step that does not deliver is a SQL step whose output breaks a clause of the gate, an all-null column included, the run ends with validation_failed and none of its obligations is credited. |
| `RunReport.BlankGoalReport` | orchestrator-api/app/tools/sql_rag/nodes/perform_rag_sql.py:16-23 | If it is a step with a goal of white space only, its child is not asked and the run ends with validation_failed; the malformed output that the next node notes is kept as a second error. |
| `RunProperties.RejectedPlanEnds` | orchestrator-api/app/tools/sql_rag/state.py:66-99 | A plan that gets past the planner and is rejected by the validator ends the run after five visits with validation_failed, the validator's code as reason, and no child called. |
| `RunProperties.RunRaisesExactly` | orchestrator-api/app/tools/sql_rag/nodes/runtime_obligation_planner.py:75-113 | Every run, whatever the input, the planner's answer and the children, ends within 26 node visits, and it raises if and only if the plan has a step type that cannot be hashed, or validation fails on the id of a later step, or the plan is good and a child or the bundle raises. |
| `RunProperties.ListTypeRaises` | orchestrator-api/app/tools/sql_rag/nodes/runtime_obligation_planner.py:90-91 | A plan the validator would reject, with a list as step type: the run raises in the planner. |
| `RunProperties.ListIdRaises` | orchestrator-api/app/tools/sql_rag/contracts.py:138-141 | A plan that gets past the planner, with a list as the id of a later step: the run raises in the executor. |
| `RunProperties.RunWithoutPlanEnds` | orchestrator-api/app/tools/sql_rag/nodes/sql_rag_agent.py:7-44 | Unusable input and a failed planner end the run within four visits, without child calls, with access_failed, validation_failed or error. |
| `RunReport.ReportWithoutPlan` | orchestrator-api/app/tools/sql_rag/nodes/runtime_obligation_planner.py:44-89 | The reason and the bundle of such a run, by what stopped it. |
| `SqlChild.GenerateCandidate` | orchestrator-api/app/tools/sql_rag/sql/nodes/generate_candidate_sql.py:43-90 | A visible first answer gives that text without outer white space after one call, an unavailable or unparseable one its reason after one call, and only a blank one is followed by a second call, which then decides alone. |
| `SqlChild.RunKeeps` | orchestrator-api/app/tools/sql_rag/sql/graph.py:22-69 | An invariant of the child workflow that holds from the start through every node visit. |
| `SqlChild.RunIsBounded` | orchestrator-api/app/tools/sql_rag/sql/nodes/validate_sql_before_execution.py:9-75 | Every run ends or raises within thirteen visits, with at most two generations, four model calls and one executed statement, which has no unbound parameter and is read-only; a run that ends has reached exactly one of the two emitting nodes, a run that raises neither. |
| `SqlChild.RunIsBoundedThroughout` | orchestrator-api/app/tools/sql_rag/sql/graph.py:29-69 | The same bounds at every point of a run. |
| `SqlChild.StatusIsExact` | orchestrator-api/app/tools/sql_rag/sql/nodes/validate_sql_result.py:9-42 | How a run ends as a function of the environment, raising included, with its status, reason, output and the statements executed: the first candidate decides unless it has unbound parameters, then the second one does. |
| `SqlChild.RetrySucceeds` | orchestrator-api/app/tools/sql_rag/sql/nodes/generate_candidate_sql.py:50-55 | After a blank first answer, a second one without parameters that is read-only and answered by the database ends in success, with that text and no other executed and the database's own rows, columns and count as output. |
| `SqlChild.ResultCheckIsExact` | orchestrator-api/app/tools/sql_rag/sql/services/executor.py:52-76 | A database result is accepted if and only if its rows are objects, its columns texts and its count a natural number, as far as they are there; the output has exactly these, and the number of rows where the count is missing. |
| `SqlChild.CheckedResultMeetsContract` | orchestrator-api/app/tools/sql_rag/sql/services/executor.py:52-76 | A result the child checked meets the bundle's contract, and can fail the engine's output gate only over its column names or an all-null column. |
| `Catalog.BuildFilteredSchema` | orchestrator-api/app/tools/sql_rag/sql/services/schema.py:10-53 | The loop numbers the allowed resources and their columns in catalog order and skips the others. |
| `SelectionProperties.FilteredIsExact` | orchestrator-api/app/tools/sql_rag/sql/services/schema.py:10-53 | The tables are the resources that are allowed by key, scope or one of several scopes, in catalog order and numbered from one, each with all its columns. |
| `Catalog.LoadApprovedJoins` | orchestrator-api/app/tools/sql_rag/sql/services/schema.py:56-86 | The loop keeps exactly the joins whose four names are in the filtered schema and numbers them. |
| `SelectionProperties.LoadedIsExact` | orchestrator-api/app/tools/sql_rag/sql/services/schema.py:56-86 | The joins both of whose ends name a column of the schema are loaded, in order and numbered from one, with the keys of those ends; of tables with one resource key and of columns with one name the last counts. |
| `Catalog.DropCounts` | orchestrator-api/app/tools/sql_rag/sql/nodes/load_approved_join_relationships.py:37-56 | The counters count the joins on unknown resources as denied and those with a missing or unknown name as invalid. |
| `SelectionProperties.DropCountsAreExact` | orchestrator-api/app/tools/sql_rag/sql/nodes/load_approved_join_relationships.py:37-56 | Denied are the joins with all names that touch a resource outside the schema, invalid those with a missing name or between resources of the schema with a column that is not there. |
| `Catalog.OrderedUnique` | orchestrator-api/app/tools/sql_rag/sql/nodes/select_relevant_structured_resources.py:339-349 | Repetitions are dropped and counted; set and order of first occurrence stay. |
| `Catalog.ResolveSelection` | orchestrator-api/app/tools/sql_rag/sql/nodes/select_relevant_structured_resources.py:153-251 | The resolution depends on the proposal only through its sets of table, column and join keys. |
| `SelectionProperties.SelectedTablesAreExact` | orchestrator-api/app/tools/sql_rag/sql/nodes/select_relevant_structured_resources.py:163-226 | Selected are, in catalog order, exactly the tables that are proposed and those with a proposed column. |
| `SelectionProperties.SelectedJoinsAreExact` | orchestrator-api/app/tools/sql_rag/sql/nodes/select_relevant_structured_resources.py:181-203 | Selected are, in order, exactly the proposed joins whose two tables are selected and list the join's columns. |
| `SelectionProperties.SelectedColumnsAreExact` | orchestrator-api/app/tools/sql_rag/sql/nodes/select_relevant_structured_resources.py:205-228 | The source columns are exactly the proposed ones; the columns are those and the ends of the selected joins, table by table. |
| `CatalogProperties.ResolutionIsClosed` | orchestrator-api/app/tools/sql_rag/sql/nodes/select_relevant_structured_resources.py:164-228 | The owner of every source column and both tables and both columns of every matched join are selected. |
| `CatalogProperties.ResolutionIsMonotone` | orchestrator-api/app/tools/sql_rag/sql/nodes/select_relevant_structured_resources.py:153-228 | A smaller proposal selects an in-order part of what a larger one selects. |
| `CatalogProperties.ResolutionIsIdempotent` | orchestrator-api/app/tools/sql_rag/sql/nodes/select_relevant_structured_resources.py:153-228 | Feeding the selected table, source-column and join keys back reproduces the selection. |
| `CatalogProperties.ResolutionAbsorbsEndpoints` | orchestrator-api/app/tools/sql_rag/sql/nodes/select_relevant_structured_resources.py:153-228 | Feeding all selected columns back turns join endpoints into source columns and changes nothing else. |
| `CatalogProperties.ColumnKeyInjective` | orchestrator-api/app/tools/sql_rag/sql/services/schema.py:25-31 | Generated column keys determine the table number and the column number. |
| `CatalogProperties.ProposedJoinsAreClassified` | orchestrator-api/app/tools/sql_rag/sql/nodes/select_relevant_structured_resources.py:186-203 | For distinct resource keys, a loaded join is never incomplete, and each proposed join key is exactly one of matched, outside and unknown. |
| `CatalogProperties.CatalogJoinsAreClassified` | orchestrator-api/app/tools/sql_rag/sql/services/schema.py:56-86 | The same from end to end: for a catalog with distinct resource keys, whatever the permissions, the joins and the proposal. |
| `CatalogProperties.FilteredKeepsAllowed` | orchestrator-api/app/tools/sql_rag/sql/services/schema.py:125-135 | The filtered schema holds the keys of the allowed resources and no others. |
| `CatalogProperties.DeniedHasNoInfluence` | orchestrator-api/app/tools/sql_rag/sql/services/schema.py:17-46 | Changing denied resources, or joins that touch them, changes neither the schema nor the joins nor any resolution. |
| `CatalogProperties.JoinCountsAddUp` | orchestrator-api/app/tools/sql_rag/sql/nodes/load_approved_join_relationships.py:37-56 | For distinct resource keys, loaded plus denied plus invalid is the number of stored joins if and only if no loaded join has an empty name. |
| `WatchdogQueue.WatchdogEventQueue.Enqueue` | orchestrator-api/app/services/watchdog_sync.py:37-48 | The new queue: the event appended, merged into the one held for its path, or the queue given up. |
| `WatchdogQueue.WatchdogEventQueue.Drain` | orchestrator-api/app/services/watchdog_sync.py:50-66 | One event per path in first-seen order, and an empty queue; or the full-rebuild event, and the queue unchanged. |
| `WatchdogQueue.ApplyEventBatch` | orchestrator-api/app/services/watchdog_sync.py:69-98 | Store and report after the batch, event by event. |
| `WatchdogQueue.EventReportIsExact` | orchestrator-api/app/services/watchdog_sync.py:101-169 | Which events ask for a full rebuild, fail, are skipped, refresh or delete. |
| `WatchdogQueue.EventEffectIsExact` | orchestrator-api/app/services/watchdog_sync.py:101-169 | A deletion that is not passed over removes its path, a readable file is refreshed to its parsed content, and nothing else changes the store. |
| `WatchdogQueue.BatchCountersAddUp` | orchestrator-api/app/services/watchdog_sync.py:183-194 | The counters of a batch are the totals of its events' counters. |
| `WatchdogQueue.HeldEventIsExact` | orchestrator-api/app/services/watchdog_sync.py:171-180 | Which event the queue holds for a path, from the logged events of that path. |
| `WatchdogQueue.BatchIsFirstSeen` | orchestrator-api/app/services/watchdog_sync.py:32-66 | Unless the queue has given up, the batch has one event for each path, in the order in which the paths were first seen. |
| `WatchdogQueue.CoalescingRefinesReplay` | orchestrator-api/app/services/watchdog_sync.py:32-66 | Applying the drained batch equals replaying the whole log if and only if no path whose last content cannot be parsed had parsed content to lose. |
| `WatchdogQueue.ParsableLogsRefineReplay` | orchestrator-api/app/services/watchdog_sync.py:101-119 | When every logged content can be parsed the two always agree. |
| `WatchdogQueue.LostContentExample` | orchestrator-api/app/services/watchdog_sync.py:171-180 | A file created with readable content and overwritten with unreadable content: replay keeps the first content, the coalesced batch has nothing. |
| `WatchdogQueue.AmbiguousExactly` | orchestrator-api/app/services/watchdog_sync.py:171-180 | The queue gives up if and only if some path lives on after a deletion or is created again after its first event was a modification. |
| `WatchdogQueue.GivingUpIsFinal` | orchestrator-api/app/services/watchdog_sync.py:50-66 | Once given up, the queue returns the full-rebuild event and nothing else, whatever is put in or drained. |
| `WatchdogQueue.RebuildEventIsSafe` | orchestrator-api/app/services/watchdog_sync.py:101-104 | The full-rebuild event changes nothing in the store and asks for a full rebuild. |
| `WatchdogQueue.BatchStatusIsExact` | orchestrator-api/app/services/watchdog_sync.py:183-194 | The batch status is full_rebuild_required iff some event asks for it, otherwise validation_failed iff some event failed, whatever the order. |
| `Reconciliation.RunReconciliation` | orchestrator-api/app/services/watchdog_reconciliation.py:17-50 | The report is current iff the paths of files and records are the same set and every path agrees on all six clauses; a mismatch is listed iff the clause of its code is violated at its path. |
| `Reconciliation.CheckFile` | orchestrator-api/app/services/watchdog_reconciliation.py:29-41 | The clauses of one file, each exactly when violated. |
| `Reconciliation.ScanIsExact` | orchestrator-api/app/services/watchdog_reconciliation.py:53-60 | The files compared are the readable ones in folders with a scope, in the order of the listing. |
| `Reconciliation.ScopesAreFolderKeys` | orchestrator-api/app/schemas/watchdog_sync.py:9-14 | Four folders have a scope, and it is their name in small letters with underscores. |
| `Reconciliation.RecordsByPath` | orchestrator-api/app/services/watchdog_reconciliation.py:22 | Of several records with one path the last counts. |
| `Ordering.SortComparesMultisets` | orchestrator-api/app/services/watchdog_reconciliation.py:38-39 | Comparing sorted column lists compares the columns as multisets. |
| `StructuredImport.DecimalRoundTrip` | orchestrator-api/app/services/structured_file_import.py:156-164 | Every integer or decimal literal, converted and printed again, is the same literal without a leading plus sign. |
| `StructuredImport.DecimalColumnRoundTrip` | orchestrator-api/app/tools/sql_rag/sql/services/executor.py:83-88 | So is every literal of a column that was inferred to be decimal. |
| `StructuredImport.IntegerColumnRoundTrip` | orchestrator-api/app/services/structured_file_import.py:156-162 | In an integer column only the plus sign and the sign of zero are lost. |
| `StructuredImport.TypeIgnoresOrder` | orchestrator-api/app/services/structured_file_import.py:115-126 | The inferred type does not depend on the order of the rows. |
| `ImportProperties.TextKindIsExact` | orchestrator-api/app/services/structured_file_import.py:129-153 | A text cell is null if blank and text if padded; else boolean if it spells true or false in any case, an integer if it is a sign and a numeral without superfluous zeros, a decimal if such a numeral is followed by a point and digits. |
| `ImportProperties.InferredTypeIsExact` | orchestrator-api/app/services/structured_file_import.py:115-126 | A column is boolean, integer or decimal according to which kinds occur among its cells, nulls aside, and text otherwise. |
| `ImportProperties.TextsAreExact` | orchestrator-api/app/services/structured_file_import.py:156-167 | What a cell becomes in a text column; `BooleansAreExact`, `IntegersAreExact` and `DecimalsAreExact` say it of the other columns. |
| `StructuredImport.TypeOfBlocks` | orchestrator-api/app/services/structured_file_import.py:115-126 | The type of a column cut into blocks is the join of the blocks' types, all-null blocks being the least element. |
| `StructuredImport.JoinIsSemilattice` | orchestrator-api/app/services/structured_file_import.py:115-126 | That join is idempotent, commutative and associative. |
| `StructuredImport.ConversionIsSound` | orchestrator-api/app/services/structured_file_import.py:129-167 | Conversion succeeds on every cell of its own column unless an integer exceeds Python's limit on digits, gives nothing exactly for null cells, and otherwise a value of the column's type. |
| `StructuredImport.SafeNamesAreFixed` | orchestrator-api/app/services/structured_file_import.py:37-39 | Safe names consist of lower-case letters, digits and inner underscores, and are exactly the names that are their own safe name. |
| `StructuredImport.ProfileIsExact` | orchestrator-api/app/services/structured_file_import.py:69-112 | With headers given or taken from the first row: when a table is accepted and with which error it is refused; every accepted row has exactly one converted value per column, of the column's type, and the relation has a safe name. |
| `ImportProperties.ProfileInFull` | orchestrator-api/app/services/structured_file_import.py:69-112 | The names, positions and descriptions of an accepted table's columns, its keys, and for every row and header the cell converted for the type of that header's cells. |
| `JoinApproval.ValidateLlmJoinOutput` | orchestrator-api/app/services/join_discovery_approved_joins.py:329-396 | The fold over the candidates gives the verdict that is defined by position: approved are the eligible candidates with no earlier eligible candidate on the same pair. |
| `JoinApproval.EarlyExits` | orchestrator-api/app/services/join_discovery_approved_joins.py:334-340 | An error status, warnings or limitations of the whole answer: nothing is approved or rejected, and every candidate is skipped. |
| `JoinApproval.WinnersAreApproved` | orchestrator-api/app/services/join_discovery_approved_joins.py:353-396 | Otherwise the approved joins and summaries are those of the winning candidates, in their order, each with the candidate's own type and score. |
| `JoinApproval.NoReasonMeansWinning` | orchestrator-api/app/services/join_discovery_approved_joins.py:399-425 | A candidate has no skip reason, given the pairs taken so far, iff it is eligible and first on its pair in either direction. |
| `JoinApproval.PairsApprovedOnce` | orchestrator-api/app/services/join_discovery_approved_joins.py:353-361 | Every unordered pair of columns with an eligible candidate is approved exactly once, by an eligible candidate. |
| `JoinApproval.ApprovalsAreSound` | orchestrator-api/app/services/join_discovery_approved_joins.py:359-396 | Approved ids are those of two different columns of the packet, the last ones under their keys, with a score of at least 0.9, and the summaries stand in the same order and name the same columns. |
| `JoinApproval.EveryCandidateCounted` | orchestrator-api/app/services/join_discovery_approved_joins.py:334-396 | Approved, rejected and skipped add up to the number of candidates on every return path. |
| `Ordering.SortedPairIsUnordered` | orchestrator-api/app/services/join_discovery_approved_joins.py:428-431 | Normalized pairs are equal iff the pairs are equal in one direction or the other. |
| `PermissionResources.BuildAllowedResourceMap` | orchestrator-api/app/services/permissions/schema_builder.py:38-54 | The loop refuses a record without a scope and otherwise builds the six lists from the first record of each scope. |
| `PermissionResources.ResourcesAreExact` | orchestrator-api/app/services/permissions/schema_builder.py:38-54 | Each scope is listed once, at one place in all six lists, with the references of its first record; the map is empty only if there are no records. |
| `PermissionResources.ScopesAreRequired` | orchestrator-api/app/services/permissions/schema_builder.py:43-46 | The map is refused if and only if some record has no scope with a visible character. |
| `PermissionResources.LeadingRecordsAreListed` | orchestrator-api/app/services/permissions/schema_builder.py:38-54 | The first record of each scope is listed, in order and at one place in all six lists, each missing reference replaced by the one derived from the scope. |
| `PermissionGraph.PermissionCache.constructor` | orchestrator-api/app/services/permissions/cache.py:15 | The cache starts empty. |
| `PermissionGraph.PermissionCache.Get` | orchestrator-api/app/services/permissions/cache.py:18-22 | The entry under the key, if there is one. |
| `PermissionGraph.PermissionCache.Store` | orchestrator-api/app/services/permissions/cache.py:25-29 | The entry under the key is replaced by one that expires 300 seconds later; no other key changes. |
| `PermissionGraph.PermissionCache.Clear` | orchestrator-api/app/services/permissions/cache.py:32-33 | No entry is left. |
| `PermissionGraph.PermissionCache.GetUserPermissionSchema` | orchestrator-api/app/graphs/permission_schema/graph.py:21-61 | One request through the graph gives the response and the cache of `Run`. |
| `PermissionGraph.RunIs` | orchestrator-api/app/graphs/permission_schema/graph.py:35-61 | Without a live entry a confirmed request gets a fresh build, which is stored under its key iff it was granted. |
| `PermissionGraph.FreshInFull` | orchestrator-api/app/graphs/permission_schema/graph.py:35-61 | What a fresh build answers to a confirmed identity, from the answers of the service alone, with each code of refusal and the whole schema. |
| `PermissionGraph.EntriesLiveFor300Seconds` | orchestrator-api/app/services/permissions/cache.py:25-29 | A granted build is found under its key by requests less than 300 seconds after its storing, and by no later ones. |
| `PermissionGraph.LiveRun` | orchestrator-api/app/graphs/permission_schema/nodes/cache_validation.py:9-34 | With a live entry it is served that entry if the emails are the same and otherwise fails closed; the cache stays as it is. |
| `PermissionGraph.UnconfirmedFails` | orchestrator-api/app/graphs/permission_schema/nodes/request_intake.py:6-11 | Without a confirmed identity a request fails closed, whatever the cache holds. |
| `PermissionGraph.RawKeyParts` | orchestrator-api/app/services/permissions/schema_builder.py:20-35 | Keys made of identifiers without separators determine the identifiers. |
| `PermissionGraph.EntriesAreBuilt` | orchestrator-api/app/services/permissions/cache.py:25-29 | After any sequence of requests every cache entry was built by one of them for its own key. |
| `PermissionGraph.CacheAnswersExactly` | orchestrator-api/app/graphs/permission_schema/nodes/cache_validation.py:9-34 | Over every sequence of requests, with no assumption on identifiers or hash: access is refused iff a fresh build refuses it or a live entry belongs to another email; an answer with access agrees with a fresh build iff it is one or the live entry names the dataset and version asked for, up to missing and empty; a served entry was stored less than 300 seconds earlier; an answer without access has no schema and no cards. |
| `PermissionGraph.KeysAreSharedExactly` | orchestrator-api/app/services/permissions/schema_builder.py:20-35 | With a collision-free hash two requests share a key iff their joined identifiers are equal. |
| `PermissionGraph.CacheAgreesWithFreshBuild` | orchestrator-api/app/graphs/permission_schema/nodes/cache_validation.py:9-34 | With identifiers free of separators and a collision-free hash every answer with access agrees with a fresh build on email, dataset, version, groups, resources and cards, and a live entry differs from the request at most in the spelling of the email. |
| `PermissionGraph.LowerCaseEmailsAlwaysAgree` | orchestrator-api/app/graphs/permission_schema/nodes/cache_validation.py:22-25 | If the service confirms lower-case emails only, cached and fresh answers agree on access for every request. |
| `PermissionGraph.DemoServiceAlwaysAgrees` | orchestrator-api/app/services/permissions/demo_adapter.py:27-67 | The demo service is such a service. |
| `PermissionGraph.DemoAccessExactly` | orchestrator-api/app/services/permissions/demo_adapter.py:27-67 | With records kept under their own email, access is granted if and only if the stripped lower-case email has a record with groups and with scopes that are all visible, and the source of the identity, if named, is the expected one. |
| `PermissionGraph.OtherSpellingIsRefused` | orchestrator-api/app/graphs/permission_schema/nodes/cache_validation.py:22-25 | A user who is confirmed under two spellings of one email is refused under the second while the entry of the first is live, although a fresh build would grant access. |
| `PermissionGraph.SeparatorsServeTheWrongDataset` | orchestrator-api/app/services/permissions/schema_builder.py:27-34 | With separators in the identifiers a request can be served the schema of another dataset. |

## Left out

- Free-text `reason` fields of plans and steps, and the messages of rejected plans.
- Decoding the planner's JSON text: the model starts at the decoded value. Keys of objects are strings.
- Audit events, traces, durations and answer material, except where building them raises: step types in the planner, columns in the last two nodes, parameter counts in the SQL child.
- Child results of other types than the public result builders give them.
- The graph library's own limit on steps.
- The RAG child, the main graph, tool selection and the final answer composer: routing with a single branch.
- Language-model prompts and providers, SQL parsing, PostgreSQL, row-level security and the runtime store.
- Sample rows, column profiles and semantic tags of the catalog; evaluation metadata of the selection beyond the classes of its join keys.
- Calculation and execution metadata of SQL results, and the JSON-safe conversion of rows other than decimals.
- `moved` events in the replay claims: `rename_path` rewrites catalog rows only. The replay claims are for logs of created, modified and deleted events.
- Watchdog reports: the counters of documents and tables are added up, and the join-refresh recommendation is not carried.
- Reading CSV and XLSX files, and writing imported rows to the database and back.
- Repetitions in reconciliation reports: the claims say which mismatches are listed.
- Discovery packets: building, bounding and sampling them; the text filters for unsafe reasons.
- The snapshot hash and expiry text inside a permission schema, and its limitation lists, which are always empty in this graph.
- `force_cache_entry`, a hook that writes entries no request has built.
- Bridges, deployment scripts and migrations.
