# Verification model of the APCore Rust SDK

A Dafny model of the parts of the SDK whose correctness is hardest to see from
one function at a time, and proofs of what they promise:

- **Access control** (`Kleene`, `Conditions`, `ConditionWalks`, `ConditionLaws`,
  `ConditionAnswers`, `Patterns`, `AclRules`, `AclDecision`, `Acl`, `AclAnswers`,
  `AclLaws`, `Projection`). Rules
  are scanned first-match-wins over condition trees in three-valued logic. Each
  walk of a tree, on either path, is a method proved against one order-free
  meaning; both rule loops are proved against one declarative decision; the
  laws are about the whole decision: answering what nobody could answer never
  takes a grant back, the synchronous path is never more permissive, and the
  static precheck agrees with the evaluator path by path. The two modules of
  answers say what a condition and a decision come to in the terms of the rules,
  the call and the handlers' own answers.
- **Tracked executions** (`CancelTokens`, `CancelProofs`, `CancelLaws`,
  `CancelRuns`). The tree of cancel tokens as a state machine of one lock
  section or atomic access per step, from a call's cancellation check, flag by
  flag up the chain, to the last drop of its registration, with the invariant
  kept by every interleaving: no abort is lost, a drain is safe, no wakeup is
  missed, and behind a set flag exactly the calls already past its check can
  still come to life.
- **Background tasks** (`TaskManager`, `TaskProofs`, `TaskTokens`, `TaskExtras`,
  `TaskLaws`, `TaskRecords`, `TaskMoves`, `TaskScopes`, `TaskFutures`,
  `TaskWitness`). Submissions, workers,
  cancellations and cleanups as a second state machine composed with the first,
  and laws over every run: terminal records are final, deleted ones never
  return, one cancellation at most answers true, capacity is never exceeded, and
  exactly what a cancelled task leaves running. `TaskStore` is the store class,
  proved to be a list of records; `TaskStoreOrder` says in which order, and
  `TaskStoreView` ties it to the machine. `Retry` is the worker's loop over that
  store, with the delays of `Backoff`, and `TaskTurns` proves each of its runs to
  be a run of the machine's worker.
- **A governed call** (`Pipeline`, `Calls`). The standard steps in order, with
  the access check and the approval gate in full, and the exact condition under
  which module code runs; and a call as the row of runs that retry signals make
  of it, each ruled on by its own verdict and its own question to the handler.
- **Smaller pieces**: `Version` (parse, print, order, negotiate), `ErrorCodes`
  (the registry and its derived index), `Extensions` (the parallel vectors).

`Wrappers`, `Json`, `Decimal` and `Texts` are shared vocabulary.

Findings, where the code is narrower than its promise or than its comments:

- `cancel` answering true does not by itself mean that nothing is live beneath
  the task's token. A call made there by another background task, or by code
  that has detached itself, may be between its cancellation check
  (src/builtin_steps.rs:1240-1242) and its registration (src/cancel.rs:203-222)
  while `cancel` signals and drains, and is spawned after the answer.
  `TaskWitness.NestedCallOutlivesCancel` and `DetachedCallOutlivesCancel` are
  two such runs. `TaskScopes.DisturbedExactlyBy` proves the condition: something
  is live after the drain exactly if a call that had passed its check of the
  token before the signal is spawned late; a call that reaches the check after
  the signal is refused. `TaskFutures.QuietForGoodExactly` says it of what can
  still happen, and `TaskScopes.QuietOnceOver` that the scope is quiet for good
  once those calls are over. What is spawned late is aborted all the same
  (`TaskScopes.CancelReachesAll`). All this holds while nobody resets the flag.
- The comment at src/async_task.rs:1127-1135 allows a cancellation to slip
  between a worker's last look and its save. With one manager it cannot: the
  canceller joins the worker first (`TaskLaws.WorkerWritesActive`).
- The comment at src/acl.rs:52-60 says that wildcards do not reach external
  callers; the code at src/acl.rs:2597-2606 lets `*`, and every pattern that
  globs `@external`, match them. The model follows the code
  (`AclRules.WildcardsReachExternalCallers`).
- A prerelease is compared as one text and may not contain a dot, unlike
  Semantic Versioning 2.0.0 section 11; the round trip holds exactly for the
  prereleases that parse (`Version.RoundTrip`).
- `compute_delay_ms` departs from its documented formula, and from its own
  comment that a NaN saturates to zero. With a finite multiplier it does so
  exactly when the base delay is zero, the cap is not, and the power overflows:
  zero times infinity is a NaN, which `f64::min` gives up for the cap
  (`Backoff.DelayIsTheFormula`, `Backoff.NaNTakesTheCap`). A base delay of 0
  under the default multiplier 2.0 gives no delay up to attempt 1023 and the
  whole cap from attempt 1024 on (`Backoff.ZeroDelaySleepsTheCap`).
- A retry signal runs the strategy again in the context the last run derived
  (src/executor.rs:1206-1217, src/builtin_steps.rs:238), so the module is its own
  caller there. The retried run asks the ACL what the first one did exactly when
  the module was its own caller already (`Calls.RetryAsksAboutItself`); an
  allowed call may be denied on retry (`Calls.RetryOfAllowedIsDenied`). The
  chain also grows by the module with each retry, which is why the frequency
  guard ends every retry loop (`Calls.RunsAreFew`).

## Model

| member | source | states |
|---|---|---|
| `ConditionWalks.EvaluateConditions` | src/acl.rs:1518-1593 | the synchronous walk, in any order the map yields its keys, computes the order-free meaning of a condition object; the paths it reports are exactly the reference set; the path prefix is back where it was |
| `ConditionWalks.EvaluateConditionsAsync` | src/acl_handlers.rs:628-684 | the asynchronous twin: async registry first, the instance found decides the mode of the sub-conditions, a panic is unevaluable and reported; same reference, same reports, prefix restored |
| `ConditionWalks.OrOutcome` | src/acl_handlers.rs:1012-1038 | `$or` is the disjunction of its branches as a set, a branch that is not an object being unevaluable; each branch reports under its own indexed path |
| `ConditionWalks.NotOutcome` | src/acl_handlers.rs:1065-1075 | `$not` negates its object operand and is unevaluable, and reported, on anything else |
| `ConditionWalks.DecideArguments` | src/acl_handlers.rs:847-882 | the `arguments` condition against the projection: unevaluable without a projection or on a malformed operand, else the conjunction of its predicates |
| `ConditionWalks.DecideOne` | src/acl_handlers.rs:884-923 | one argument predicate, visited name by name, answers what `ConditionAnswers.PredicateAnswers` says of it and is reported exactly when it cannot be asked |
| `ConditionWalks.CollectConditionFaults` | src/acl_handlers.rs:1153-1248 | the precheck pushes exactly the faults of the tree under the given path, in any order of the map |
| `ConditionWalks.CollectKeyFaults` | src/acl_handlers.rs:1165-1247 | one key's faults: not resolvable on the path asked about, a compound with a wrong operand, or the faults beneath it |
| `ConditionWalks.CollectBranchFaults` | src/acl_handlers.rs:1198-1209 | the branches of an `$or` contribute their faults each under its own index |
| `ConditionWalks.CollectArgumentFaults` | src/acl_handlers.rs:1250-1290 | the faults of an `arguments` operand: not an object, empty, an unknown predicate or a malformed key list |
| `ConditionAnswers.ObjectIsItsKeys` | src/acl_handlers.rs:649-683 | an object is satisfied exactly when each of its keys alone is, and unsatisfied exactly when one of them is |
| `ConditionAnswers.LeafAnswersSync` | src/acl.rs:1546-1590 | on the synchronous path a leaf has the outcome of its one poll, and none when it is pending or panics |
| `ConditionAnswers.LeafAnswersAsync` | src/acl_handlers.rs:665-681 | on the asynchronous path it has the outcome its handler answers, the asynchronous registry asked first |
| `ConditionAnswers.UnknownKey` | src/acl_handlers.rs:651-661 | a key in neither registry of its path is unevaluable |
| `ConditionAnswers.LeavesDecideSync` | src/acl.rs:1518-1593 | an object of leaves that answer is satisfied exactly when every handler answered so, and unsatisfied exactly when one answered that |
| `ConditionAnswers.LeavesDecideAsync` | src/acl_handlers.rs:628-684 | the same on the asynchronous path |
| `ConditionAnswers.NotIsOpposite` | src/acl_handlers.rs:1065-1075 | `$not` is the opposite of its object on the path of the instance found, and unevaluable on anything else |
| `ConditionAnswers.NotLeafSync` | src/acl_handlers.rs:1065-1075 | a leaf under `$not` answers the opposite of its handler's answer |
| `ConditionAnswers.OrIsSome` | src/acl_handlers.rs:1012-1038 | `$or` is satisfied exactly when one of its objects is, and unsatisfied exactly when it is a list of objects that all are |
| `ConditionAnswers.PredicateAnswers` | src/acl_handlers.rs:884-923 | `has_key` asks for some key named, `has_all_keys` for all, `has_none_of` for none, among the projection's keys; any other name, an operand that is no list of names, or a call without a projection cannot be answered |
| `ConditionAnswers.ArgumentsAnswer` | src/acl_handlers.rs:847-923 | `arguments` is satisfied exactly when it is an object of at least one predicate and all hold of the argument keys, and unsatisfied exactly when one fails |
| `ConditionAnswers.ArgumentsKeyAnswers` | src/acl_handlers.rs:847-882 | the key of the arguments handler alone is answered by its operand against the projection of the call |
| `ConditionAnswers.UnknownKeyPath` | src/acl_handlers.rs:221-228 | a key nobody resolves is reported under the prefix, a dot and its name |
| `ConditionAnswers.LeafPaths` | src/acl_handlers.rs:379-386 | a leaf that answered reports what it noted, one that did not is itself reported |
| `ConditionAnswers.NotPaths` | src/acl_handlers.rs:1065-1075 | paths inside `$not` go on under its segment |
| `ConditionAnswers.OrPaths` | src/acl_handlers.rs:1012-1038 | paths inside `$or` go on under the index of their branch, and a branch that is no object is reported there |
| `ConditionAnswers.ArgumentPaths` | src/acl_handlers.rs:847-908 | `arguments` is reported itself when it is no object of predicates, else each predicate that cannot be asked, under its name |
| `ConditionAnswers.UnknownKeyFault` | src/acl_handlers.rs:1165-1190 | the fault of a key nobody resolves names its path and which of the two paths would find it |
| `ConditionAnswers.NoObjectFault` | src/acl_handlers.rs:1153-1164 | a tree that is no object is one fault, at `$` or at its path |
| `ConditionLaws.PrecheckAgreesWithEvaluator` | src/acl_handlers.rs:1124-1290 | with built-in compounds, leaves that answer and note nothing themselves, and a projection: the paths evaluation reports are exactly the paths of the precheck's faults, on every tree, prefix and mode |
| `ConditionLaws.CleanPrecheckIsAnswered` | src/acl_handlers.rs:1124-1133 | an empty precheck means the evaluation is not unevaluable |
| `ConditionLaws.EvalMonotone` | src/acl_handlers.rs:74-105 | whoever can answer more than before gives, on every tree, the same outcome as before or one where there was none |
| `ConditionLaws.CleanPrecheckMonotone` | src/acl_handlers.rs:1153-1248 | what the precheck accepts it still accepts when more keys resolve |
| `ConditionLaws.AsyncExtendsSync` | src/acl_handlers.rs:568-585 | the asynchronous path answers whatever the synchronous one does, and the same, when the async registry overrides only `$or` and `$not` and ready answers agree |
| `Kleene.AndIsStrongKleene` | src/acl_handlers.rs:74-82 | `and` is definite exactly when every way of answering its unevaluable operands gives that same two-valued conjunction |
| `Kleene.OrIsStrongKleene` | src/acl_handlers.rs:86-94 | the same for `or` |
| `Kleene.NegateIsStrongKleene` | src/acl_handlers.rs:99-105 | the same for `negate` |
| `Kleene.AllOfRefines` | src/acl_handlers.rs:74-82 | a conjunction refines a conjunction whenever its children do |
| `Kleene.ChildrenDecide` | src/acl_handlers.rs:649-683 | a conjunction holds when all its children do and fails when one does, a disjunction the other way round, and none of them is the vacuous case |
| `Patterns.MatchPattern` | src/utils/helpers.rs:29-66 | the greedy left-to-right search decides exactly the declarative meaning of a pattern in which `*` stands for any text |
| `Patterns.GlobIsSegments` | src/utils/helpers.rs:37-45 | a pattern means: its first piece is a prefix, the others follow in order with gaps |
| `Patterns.GreedyIsComplete` | src/utils/helpers.rs:47-58 | taking the leftmost occurrence of each piece loses no match |
| `Patterns.FindSegments` | src/utils/helpers.rs:47-58 | the interior loop refuses only what cannot match, and leaves only the end of the value to be asked about |
| `AclRules.ShapeFaultsAreTheTable` | src/acl.rs:150-208 | a pattern array has no shape fault exactly when it is plain patterns, `$or` before some, or `$not` before one |
| `AclRules.MatchPatterns` | src/acl.rs:2567-2589 | the array matcher decides the meaning of `$or`, `$not` and plain arrays over single patterns |
| `AclRules.MatchAclPattern` | src/acl.rs:2597-2619 | `@system` asks the identity, `@external` is a literal, everything else is a wildcard pattern |
| `AclRules.OnePatternMeans` | src/acl.rs:2597-2619 | alone in its array, `@system` matches a system caller and nobody else, `@external` that very text, and any other pattern the texts it globs |
| `AclRules.ArraysMean` | src/acl.rs:2567-2589 | `$not` before a pattern matches exactly what the pattern alone does not; `$or` before some, or no operator, exactly what one of them alone matches |
| `AclRules.ShapeFaultIsTheFirst` | src/acl.rs:150-208 | which fault an illegal array is reported for, and at which index |
| `AclRules.NeverMatchesExactly` | src/acl.rs:227-273 | what the diagnostics report as unmatchable, and nothing else |
| `AclRules.NeverMatchesIsSound` | src/acl.rs:227-273 | an array the diagnostics call unmatchable matches no legal module id, whoever calls |
| `AclRules.WildcardsReachExternalCallers` | src/acl.rs:2597-2606 | any other pattern reaches an external caller exactly when it globs the sentinel's text; `*` does |
| `AclRules.ValidateRuleIsTheDoor` | src/acl.rs:1356-1388 | a rule passes validation exactly when its effect is known, a deny asks for no approval, and both arrays are of a legal shape |
| `AclRules.RuleDefectIsTheFirst` | src/acl.rs:1356-1388 | which defect a refused rule is refused for: effect, approval, callers, targets |
| `AclDecision.DecisionIsUnique` | src/acl.rs:1932-1973 | every list of rule outcomes determines exactly one decision |
| `AclAnswers.WhoDecides` | src/acl.rs:1932-1973 | the first rule that matched, or denies and could not be answered, decides with its own effect and index; without one the access is the default effect; when approval is on it |
| `AclAnswers.RuleIsTheTable` | src/acl.rs:2420-2455 | the outcome of one rule for one call, case by case from its arrays, the caller or the sentinel, the identity type, the faults and the evaluation; and when it is skipped with a warning |
| `AclAnswers.RuleReportsAreTheTable` | src/acl.rs:2498-2560 | the paths one rule reports, case by case |
| `AclAnswers.OutOfScopeGetsDefault` | src/acl.rs:2777-2807 | a call in the scope of no rule gets the default effect, without approval |
| `AclAnswers.SystemOnlyDecides` | src/acl.rs:2608-2619 | under one rule for `@system` exactly the calls are allowed whose context has the identity type `system` |
| `AclAnswers.ExternalOnlyDecides` | src/acl.rs:2597-2606 | under one rule for `@external` exactly the calls are allowed without a caller or with that very name |
| `AclAnswers.LeafConditionDecides` | src/acl.rs:2629-2690 | under one rule on one leaf condition exactly the calls with a context are allowed whose handler answers that it is satisfied, on both paths |
| `Acl.ValidateAll` | src/acl.rs:1200-1235 | a rule list is accepted exactly when the default effect and every rule are legal; a refusal names the lowest-indexed bad rule and its first defect |
| `Acl.ValidateRules` | src/acl.rs:1753-1790 | the diagnostics find exactly the pattern findings and condition faults of every rule |
| `Acl.FindingsAre` | src/acl.rs:1753-1790 | exactly what is found of a rule: each array that is illegal or matches nothing, and each fault of its conditions |
| `Acl.ACL.TryAddRule` | src/acl.rs:1683-1695 | an illegal rule changes nothing; a legal one goes first, its instance is new, and no marker of another rule can silence it |
| `Acl.ACL.RemoveRule` | src/acl.rs:1805-1826 | removes exactly the first rule with these arrays and conditions, and keeps the markers true to the rules they were recorded for |
| `Acl.ACL.Reload` | src/acl.rs:2266-2305 | all or nothing: the new list in full with no markers, or everything as it was |
| `Acl.ACL.WarnConditionalRuleWithoutContext` | src/acl.rs:2462-2482 | the first context-less skip of a rule is always warned about, and recorded for that very rule |
| `Acl.ACL.MatchesRule` | src/acl.rs:2420-2455 | one rule for one call: its outcome, the paths it reports and whether it is skipped for want of a context are the declared ones |
| `Acl.ACL.MatchesRuleAsync` | src/acl.rs:2967-3003 | the same on the asynchronous path |
| `Acl.ACL.ScanRules` | src/acl.rs:1932-1973 | the loop stops at the first rule that matched, or that nobody could answer and that denies; decision, reports and warnings are those of the rules visited |
| `Acl.ACL.ScanRulesAsync` | src/acl.rs:2919-2960 | the asynchronous loop, written a second time, computes the same declarative decision over its own outcomes |
| `Acl.ACL.CheckInner` | src/acl.rs:1906-1974 | the synchronous decision is the one its rule outcomes determine |
| `Acl.ACL.AsyncCheckInner` | src/acl.rs:2895-2961 | the asynchronous decision is the one its rule outcomes determine |
| `Acl.ACL.CheckAccess` | src/acl.rs:1883-1900 | a check changes no rule and keeps every marker true |
| `Acl.ACL.AsyncCheckAccess` | src/acl.rs:2875-2890 | the same on the asynchronous path |
| `Acl.ScopeOf` | src/acl.rs:2528-2560 | a rule with a bad pattern array is unanswerable and reported before any matching; a rule out of scope is no match |
| `Acl.PrecheckFailed` | src/acl.rs:2498-2507 | the static precheck fails exactly on a faulty tree and reports exactly the faults' paths |
| `AclLaws.ApprovalExactly` | src/acl.rs:2733-2807 | approval is required exactly when access is allowed and the deciding rule, or an earlier allow rule nobody could answer, asks for it; a denial never carries it |
| `AclLaws.AllowSurvivesResolution` | src/acl.rs:2371-2413 | whatever answers the unanswered rules are given, an allow stays an allow, no approval appears, and `check` stays true |
| `AclLaws.CheckSurvivesMoreAnswers` | src/acl.rs:1859-1974 | the same from the leaves: registering handlers, panics or pending futures that come to answer, or a projection, through nested `$or` and `$not` and the rule loop |
| `AclLaws.SyncNeverMorePermissive` | src/acl.rs:2895-3003 | what the synchronous check grants the asynchronous one grants, with no more approval |
| `AclLaws.ValidatedRulesAreAnswered` | src/acl.rs:1753-1790 | a list in which `validate_rules` finds nothing, with answering handlers and a projection, leaves no rule unanswerable and no inherited approval |
| `AclLaws.TokenNeverChangesTheVerdict` | src/acl.rs:566-576 | the decision is the same with and without the resume token in the arguments |
| `Projection.ProjectionIgnoresTokenAndValues` | src/acl.rs:462-606 | the projection depends on nothing but the keys other than the token and their JSON types |
| `Projection.ProjectionIsKeysAndTypes` | src/acl.rs:462-606 | the view has exactly the keys other than the token, each with the type of its value |
| `Projection.StrippedOfTheToken` | src/builtin_steps.rs:652-659 | stripping takes the token and nothing else |
| `CancelTokens.IsCancelled` | src/cancel.rs:271-282 | the walk to the root answers whether the token or any ancestor is cancelled |
| `CancelLaws.NoNewPast` | src/builtin_steps.rs:1240-1242 | while a flag is set no call passes its check of that token, whoever makes it and wherever beneath the token it starts |
| `CancelProofs.StepKeepsInv` | src/cancel.rs:26-267 | every atomic step of checks, spawns, finishers, aborts and drains keeps the protocol's invariant |
| `CancelProofs.PublishIsGood` | src/cancel.rs:229-245 | publishing in a scope fires the abort if that scope's record was marked, and disturbs no other execution |
| `CancelProofs.SweepKeeps` | src/cancel.rs:252-262 | behind a sweep every record of the scope is marked, and published ones are collected to be fired |
| `CancelLaws.LiveIsActive` | src/cancel.rs:203-229 | live module code is in the active set of every scope on its token's chain |
| `CancelLaws.NoLostAbort` | src/cancel.rs:198-267 | once a sweep and its firing are done, every execution beneath whose spawn has returned is over or has had its abort fired, inserted before the sweep or after it |
| `CancelLaws.DrainIsSafe` | src/cancel.rs:175-195 | where a drain finds its scope empty every execution beneath is unspawned and not yet registered in that scope, or already removed from it while it is dropped, or gone; so none is live |
| `CancelLaws.NoMissedWakeup` | src/cancel.rs:31-43 | a waiter parked on an empty scope has been notified, or some finisher's next step notifies it |
| `CancelLaws.RemovedStaysRemoved` | src/cancel.rs:31-43 | over every run: an id removed from one scope never reappears in that scope, whether or not it is still in others |
| `CancelLaws.AbortedStaysAborted` | src/cancel.rs:229-245 | an abort that has fired is never taken back |
| `CancelLaws.PlainDrainsStayPlain` | src/cancel.rs:175-195 | `drain` waits and aborts nothing from its start to its end |
| `CancelLaws.AbortsAreAskedFor` | src/cancel.rs:229-267 | a scope is flagged by `abort_owned_executions` alone, and an abort is fired by its sweeper or, at publication, by the mark on the record |
| `CancelLaws.OnlySpawnRevives` | src/cancel.rs:198-229 | module code comes to life by the spawn of its own call, behind its whole check and registration, and by no other step |
| `CancelLaws.RevivedExactlyBy` | src/cancel.rs:198-229 | with nothing live beneath a token, a step brings something to life exactly when it is the spawn of a call that was past its check of that token |
| `CancelLaws.QuietStaysQuiet` | src/builtin_steps.rs:1240-1260 | a scope with nothing live and no call between check and spawn stays so over every step, whoever holds the token, while its flag is set |
| `CancelRuns.DisturbedExactlyBy` | src/builtin_steps.rs:1240-1260 | over every stretch with the flag set and nothing live at its start: something is live in it exactly if a call that was past its check when the flag was set is spawned in it |
| `CancelRuns.QuietOnceOver` | src/builtin_steps.rs:1240-1260 | once the calls pending at the start of the stretch are over the scope is quiet for the rest of it |
| `TaskStore.InMemoryTaskStore.Save` | src/async_task.rs:153-169 | the list of records gets the record in its old place, or at the end if it is new |
| `TaskStore.InMemoryTaskStore.Get` | src/async_task.rs:171-173 | the record the list holds for that id, if any |
| `TaskStore.InMemoryTaskStore.Collect` | src/async_task.rs:175-188 | collecting from the map in any order and sorting by sequence number gives exactly the list's passing records in first-save order |
| `TaskStore.InMemoryTaskStore.List` | src/async_task.rs:175-188 | all records, or those of one status, in first-save order |
| `TaskStore.InMemoryTaskStore.ListExpired` | src/async_task.rs:195-213 | exactly the records that are Completed, Failed or Cancelled and were completed strictly before the time, in first-save order |
| `TaskStore.InMemoryTaskStore.Delete` | src/async_task.rs:190-193 | the record leaves the list, the others keep their order |
| `TaskStore.AscendingIsUnique` | src/async_task.rs:186-187 | sorting by distinct sequence numbers has one possible result |
| `TaskStore.OverwriteKeepsPosition` | src/async_task.rs:156-160 | a status transition is not a re-submission: only that one position changes |
| `TaskStore.DeleteThenSave` | src/async_task.rs:161-168 | deleting and saving again moves a record to the end |
| `TaskStore.FilterIsInOrder` | src/async_task.rs:186-187 | a listing keeps the list's own order |
| `TaskStore.ExpiredAreTerminal` | src/async_task.rs:195-213 | listed as expired is exactly what was over strictly before the time, so never a pending or running record |
| `TaskStore.ExpiredStaysExpired` | src/async_task.rs:195-213 | what is listed for one time is listed for any later one, and what was completed at the time or after it is not |
| `TaskStore.LookupIs` | src/async_task.rs:171-173 | the record looked up is the one with the id |
| `TaskStore.SavedHolds` | src/async_task.rs:153-169 | a save puts the record in for any other of its id |
| `TaskStore.DeletedHolds` | src/async_task.rs:190-193 | a delete takes exactly the records of the id out |
| `TaskStore.LatestIs` | src/async_task.rs:153-193 | what a run leaves for an id is the record of a save of it behind which nothing was done to it |
| `TaskStore.RunIsLatest` | src/async_task.rs:153-193 | after any run of saves and deletes the list holds, once, exactly the record last saved for each id and not deleted since |
| `TaskStoreOrder.OrderIsFirstSave` | src/async_task.rs:128-188 | after any run of saves and deletes one record stands before another exactly when its first save since its last deletion came earlier |
| `TaskStoreOrder.ListedHasEntered` | src/async_task.rs:153-193 | an id is listed exactly when it has a save that was not followed by its deletion |
| `TaskStoreView.SaveShows` | src/async_task.rs:153-169 | a save is the map update the protocol makes of it |
| `TaskStoreView.DeleteShows` | src/async_task.rs:190-193 | a delete is the protocol's removal |
| `TaskStoreView.CountsActiveIds` | src/async_task.rs:1020-1021 | counting active records of the list gives the size of the protocol's active set |
| `TaskStoreView.CheckCapacityAndSave` | src/async_task.rs:1015-1030 | the check refuses exactly when the protocol's count refuses, and then changes nothing |
| `Backoff.DelayWithinCap` | src/async_task.rs:276-296 | a delay never exceeds the configured maximum, in floating point with overflow, infinities and NaN |
| `Backoff.DelayIsTheFormula` | src/async_task.rs:262-296 | rounding apart and for every finite multiplier, the delay is the documented formula in real arithmetic exactly unless the base delay is zero, the cap is positive and the power overflows |
| `Backoff.NaNTakesTheCap` | src/async_task.rs:285-292 | when the product is a NaN, for any multiplier, and that the delay is then the cap |
| `Backoff.InfiniteMultiplier` | src/async_task.rs:276-296 | an infinite multiplier gives the cap from the second attempt on, or none for a negative one at odd attempts |
| `Backoff.ZeroDelaySleepsTheCap` | src/async_task.rs:285-292 | base delay 0 and multiplier 2.0: zero up to attempt 1023, the cap from 1024 on |
| `Backoff.DelayGrows` | src/async_task.rs:276-296 | with a multiplier of at least one, infinite included, the delay never decreases with the attempt |
| `Backoff.ConstantDelay` | src/async_task.rs:276-296 | a multiplier of one means a constant delay, clamped |
| `Backoff.DelayDoubles` | src/async_task.rs:276-296 | a multiplier of two doubles the delay from attempt to attempt, up to the cap, exactly unless the base delay is zero, the cap is positive and the attempt is 1023 |
| `Retry.RunTask` | src/async_task.rs:1035-1125 | against any cancellation of an active record or deletion of a terminal one before each look: terminates after at most max_retries + 1 calls and at most max_retries times the cap of sleep; calls, sleep and record are those of the turns taken one by one; other records stay as they are; a record left alone ends Completed by the first success or Failed by the last allowed attempt, with the exact count and the exact total delay |
| `Retry.RunLeftAlone` | src/async_task.rs:1035-1125 | turns left alone go on exactly until the first success or the last attempt the policy allows, with the exact delays between |
| `Retry.EndIs` | src/async_task.rs:1080-1123 | field by field what a run left alone leaves: status, result or error of the last answer, the count of retries, the times |
| `Retry.TotalDelayIs` | src/async_task.rs:1092-1113 | the delays add up one by one, from attempt zero |
| `Retry.CancelledStays` | src/async_task.rs:1047-1090 | a record cancelled before the call is not called for, and one cancelled during it stays cancelled whatever the call answers |
| `Retry.TouchedIs` | src/async_task.rs:703-722 | what a cancellation and a deletion do to a record in each status |
| `Retry.TakeTurn` | src/async_task.rs:1047-1123 | one turn of the loop, against any cancellation or deletion before each of its looks |
| `Retry.Settle` | src/async_task.rs:1080-1123 | from the answered call on: retry exactly while the policy allows and the call failed |
| `Retry.SaveTerminalIfNotCancelled` | src/async_task.rs:1136-1151 | a Cancelled record found by the last look stays; anything else, a missing record too, becomes the terminal record |
| `TaskTurns.TurnIsWork` | src/async_task.rs:1047-1123 | a turn of the loop is a sequence of steps of the protocol's worker, with what others did before each look between them: same record, same call of the module, and on to the next permit or to the drain |
| `TaskTurns.RunTaskIsWork` | src/async_task.rs:1035-1125 | what `RunTask` ensures of the list, the calls and the record is what the protocol's worker does step by step from the permit to the drain, over a store that shows that list |
| `TaskTurns.RunTaskIsARun` | src/async_task.rs:1035-1125 | a `RunTask` left alone is a run of the task manager: the state it leads to is reachable and shows the list it left |
| `TaskProofs.ManagerKeepsLife` | src/async_task.rs:522-904 | every step of submission, worker, cancellation and cleanup keeps the invariant of records, handles, lock and sweeps |
| `TaskProofs.TaskStep` | src/async_task.rs:522-1151 | no step writes a record that is terminal or deleted, revives a stopped worker or changes a task's token |
| `TaskProofs.CancelOthers` | src/async_task.rs:702 | the cancellation lock keeps cancellers out of each other's way |
| `TaskTokens.StepKeepsInv` | src/async_task.rs:591-610 | every step of the composition with the token protocol keeps that tokens belong to their tasks, that a worker inside a call is calling its module, and that a cancellation drains only behind its own sweep |
| `TaskExtras.TokensStayKept` | src/async_task.rs:606-609 | the token of a task with an active record stays in the map, until a cancellation that is about to answer takes it out |
| `TaskScopes.CleanupWaits` | src/async_task.rs:896-901 | cleanup takes a token out of the map only when nothing beneath it is live |
| `TaskExtras.ActiveOnlyBySaving` | src/async_task.rs:1047-1123 | nothing but the save of a new submission makes a record active |
| `TaskExtras.AdmissionStays` | src/async_task.rs:552-555 | the admission lock makes the check and the save one, so capacity is kept by every step |
| `TaskLaws.ClosedForEver` | src/async_task.rs:701-760 | over every run: a record that is terminal or deleted is at any later moment gone or field for field what it was |
| `TaskLaws.TerminalIsFinal` | src/async_task.rs:701-760 | over every run: a terminal status is left only by deletion |
| `TaskLaws.DeletedStaysDeleted` | src/async_task.rs:878-904 | over every run: a deleted record never returns |
| `TaskLaws.WorkerWritesActive` | src/async_task.rs:1127-1151 | with one manager, whatever a worker writes it writes over its own active record: the window between its last look and its save never meets a cancellation |
| `TaskLaws.CancelOverwritesActive` | src/async_task.rs:711-722 | cancel overwrites only an active record, with the copy it last read, and only when the worker is gone; never Completed or Failed |
| `TaskLaws.FalseIsFinal` | src/async_task.rs:703-717 | over every run: cancel answers false only for a record that is terminal or gone, and terminal or gone it stays |
| `TaskLaws.AtMostOneTrue` | src/async_task.rs:701-722 | at most one cancellation of a task ever answers true |
| `TaskLaws.TrueMeansCancelled` | src/async_task.rs:701-722 | once cancel has answered true the record is Cancelled or gone, for good |
| `TaskLaws.CapacityHolds` | src/async_task.rs:547-555 | no reachable state holds more than max_tasks active records |
| `TaskRecords.RecordChanges` | src/async_task.rs:522-904 | over every reachable state, any change of a record is one of six: saved anew, set running, back to pending with one more retry, to its outcome, to cancelled behind its worker, or deleted when it is over |
| `TaskRecords.RetriesAreBounded` | src/async_task.rs:1092-1108 | a record never counts more retries than its task allows |
| `TaskRecords.OutcomeIsTheModules` | src/async_task.rs:1066-1123 | over every run, a record becomes Completed only where the module's last answer was a success, and Failed only where it was an error with no retry left |
| `TaskMoves.AdmissionIs` | src/async_task.rs:1015-1030 | a submission is let in exactly while fewer records are pending or running than the limit |
| `TaskMoves.CleanupIs` | src/async_task.rs:878-904 | a cleanup takes each task out of the store, the handles and, unless something is tracked beneath it, the tokens |
| `TaskMoves.ReaperIs` | src/async_task.rs:970-981 | the reaper takes the record alone |
| `TaskMoves.SweepsBegin` | src/async_task.rs:878-904 | a sweep is over records that are Completed, Failed or Cancelled only, and over any of them |
| `TaskMoves.SubmissionsGoOn` | src/async_task.rs:522-629 | a submission never gets stuck but for the admission lock |
| `TaskMoves.WorkersGoOn` | src/async_task.rs:591-612 | a worker never gets stuck but in its call and its drain, and can end once its abort is asked for |
| `TaskMoves.CancellationsGoOn` | src/async_task.rs:701-760 | a cancellation never gets stuck but for the lock, the worker and its drain, and can be given up there |
| `TaskMoves.WhoAborts` | src/async_task.rs:606-758 | a worker that is over only drains its token, a cancellation begins by flagging it for abort |
| `TaskMoves.FlagIs` | src/cancel.rs:336-339 | raising and resetting a token's flag touch that flag alone |
| `TaskLaws.HandlesFollowWorkers` | src/async_task.rs:573-626 | a task that may still write has its handle in the map or in a canceller's hands; a worker that ended unaborted leaves no handle behind |
| `TaskLaws.TokensFollowWorkers` | src/async_task.rs:606-609 | a worker that ended unaborted, and a cancellation that answered true, leave no token in the map |
| `TaskScopes.TrueWasStopped` | src/async_task.rs:701-760 | over every run: cancel answers true only when the worker has ended and, for a task of this manager, after it set the flag of the token and then saw its scope empty |
| `TaskScopes.CancelledIsQuiet` | src/async_task.rs:701-760 | cancel answering true means nothing tracked beneath the token is live then or later, while the flag is set, if no call there was between its check and its spawn when the drain ended |
| `TaskScopes.DisturbedExactlyBy` | src/builtin_steps.rs:1240-1260 | over every run, while the flag is set: something is live beneath the token after the drain exactly if a call that had passed its check of the token before the signal is spawned after the drain |
| `TaskScopes.QuietOnceOver` | src/async_task.rs:752-758 | once the calls that were pending when the drain ended are over, the scope is quiet for good, nested tasks or not |
| `TaskScopes.WhoIsPending` | src/async_task.rs:562-568 | such a call is not the cancelled task's own worker's, nor made by code tracked beneath the token: it is another task's or detached code's |
| `TaskFutures.PendingCanSpawn` | src/cancel.rs:203-229 | a call past its check of a token always has a continuation of its own steps that ends with it live, the flag set all along |
| `TaskFutures.QuietForGoodExactly` | src/builtin_steps.rs:1240-1260 | with the flag set and nothing live: nothing comes to life over any continuation that leaves the flag set, exactly if no call is between its check and its spawn |
| `TaskScopes.CancelReachesAll` | src/async_task.rs:752-758 | from the end of a cancellation's drain on, everything beneath the token whose spawn has returned is over or has had its abort fired |
| `TaskWitness.NestedCallOutlivesCancel` | src/builtin_steps.rs:1240-1260 | a run: task 1, submitted by the module of task 0, passes the check of a call on that call's own child token; cancel(0) signals, drains and answers true; the call is live beneath the token of task 0 |
| `TaskWitness.DetachedCallOutlivesCancel` | src/builtin_steps.rs:1240-1260 | the same with a call of detached code, on a child of its context's token, and no other task |
| `Version.RoundTrip` | src/version.rs:19-25 | parsing a printed version gives it back exactly when its prerelease is absent, or not empty and without a dot |
| `Version.ParsedIsPrintable` | src/version.rs:53-79 | whatever parses survives printing and parsing again |
| `Version.OrderIsTotal` | src/version.rs:28-42 | the order is total, antisymmetric and agrees with equality |
| `Version.OrderIsTransitive` | src/version.rs:28-42 | the order is transitive |
| `Version.OrderIs` | src/version.rs:26-42 | a version is below another by major, minor, patch in turn; of equal numbers a prerelease is below the release and, of two, the one whose text comes first |
| `Version.NumberIs` | src/version.rs:53-79 | a number is digits, perhaps behind one plus sign, that fit 64 bits |
| `Version.NumberOnly` | src/version.rs:53-79 | no other text is a number |
| `Version.DecimalValue` | src/version.rs:53-79 | its value is decimal, most significant digit first |
| `Version.PatchIs` | src/version.rs:53-79 | a patch is a number, or one before the first dash with some text behind it |
| `Version.VersionIs` | src/version.rs:53-79 | a version is a number, a number and a patch with dots between them |
| `Version.VersionOnly` | src/version.rs:53-79 | no other text parses |
| `Version.NegotiatedFits` | src/version.rs:86-130 | negotiation succeeds exactly on versions of one major with the declared minor not above the SDK's; the answer has the SDK's major, the declared minor, is not below the declared version, and means one of the two |
| `Version.NegotiationIs` | src/version.rs:86-130 | each refusal exactly by its cause; an older minor is answered as declared, word for word, an equal one with the later of the two |
| `Version.NegotiateIsIdempotent` | src/version.rs:86-130 | negotiating the answer again changes nothing |
| `ErrorCodes.ErrorCodeRegistry.Register` | src/errors.rs:1374-1427 | succeeds exactly when every code is free, in whatever order the sets are walked; a failure changes nothing and names a code with what it really collides with |
| `ErrorCodes.ErrorCodeRegistry.CheckCode` | src/errors.rs:1379-1420 | a code is refused exactly when it is a framework code, starts with a reserved prefix or has another owner; the first of these that applies is named |
| `ErrorCodes.FreeIs` | src/errors.rs:1379-1420 | a module may claim exactly the codes that are no framework codes, start with no reserved prefix and are nobody else's |
| `ErrorCodes.FrameworkWordsAreReserved` | src/errors.rs:1379-1400 | whatever starts with one of the fourteen words of the framework is reserved |
| `ErrorCodes.ErrorCodeRegistry.FindOwner` | src/errors.rs:1436-1443 | finds an owner whenever there is one |
| `ErrorCodes.ErrorCodeRegistry.Unregister` | src/errors.rs:1430-1433 | frees exactly that module's codes and keeps the index true |
| `ErrorCodes.ErrorCodeRegistry.RebuildAllCodes` | src/errors.rs:1447-1455 | the index is the framework codes together with every module's |
| `ErrorCodes.RegisteringAgain` | src/errors.rs:1370-1373 | registering the same codes again is accepted and changes nothing |
| `ErrorCodes.OrderDoesNotMatter` | src/errors.rs:1374-1427 | two modules can register in one order exactly when they can in the other, with the same result; only a shared code stands in the way |
| `ErrorCodes.UnregisteringFrees` | src/errors.rs:1430-1433 | unregistering makes claimable exactly the codes that module owned |
| `Extensions.ExtensionManager.Register` | src/extensions.rs:260-314 | a new handle for exactly this extension; a multiple point gains it at the end, a single-slot point has its entry replaced; an unknown point or a wrong kind changes nothing |
| `Extensions.ExtensionManager.Unregister` | src/extensions.rs:418-446 | removes exactly the earliest registration of that object at that point, from both vectors |
| `Extensions.ExtensionManager.UnregisterHandle` | src/extensions.rs:453-467 | removes exactly the registration of that handle, and says whether there was one |
| `Extensions.ExtensionManager.GetAll` | src/extensions.rs:389-391 | the point's registrations in the order they were made, at most one for a single-slot point |
| `Extensions.ExtensionManager.Clear` | src/extensions.rs:501-515 | drops exactly the registrations of that point |
| `Extensions.ExtensionManager.ClearAll` | src/extensions.rs:518-525 | drops every registration |
| `Extensions.VectorsAreTheTable` | src/extensions.rs:176-190 | the aligned vectors of a point are determined by the table from handle to extension |
| `Extensions.PointChanged` | src/extensions.rs:290-311 | changing one point's two vectors together keeps every point aligned |
| `Pipeline.PipelineContext.ModuleLookup` | src/builtin_steps.rs:301-353 | succeeds exactly for a module that is there and enabled, and fixes the projection of the inputs as they are then |
| `Pipeline.PipelineContext.ACLCheck` | src/builtin_steps.rs:399-458 | passes exactly when the asynchronous decision allows, and carries its approval requirement on, denied or not, whatever a run before this one left there |
| `Pipeline.PipelineContext.TakeApprovalToken` | src/builtin_steps.rs:643-678 | the token is gone from the inputs on every exit; a token that is not a string is refused |
| `Pipeline.PipelineContext.ApprovalGate` | src/builtin_steps.rs:694-1035 | opens exactly when nothing requires approval, or the handler says approved, or there is no handler and no strict policy; the handler is asked once at most, about the caller's token or with a new request without it, and the gate opens behind a question exactly when the answer approves; a refusal is told apart as pending with its approval id, timed out, denied, or the handler's own failure; the token is gone from the inputs on every exit |
| `Pipeline.PipelineContext.Execute` | src/builtin_steps.rs:1194-1308 | the module's code runs on the inputs exactly when neither the deadline nor a cancellation stops it first |
| `Pipeline.PipelineContext.Run` | src/builtin_steps.rs:1419-1451 | over the standard steps: the module's code runs exactly when every governing condition holds for the one access decision of this call, on the inputs without the token; in the log of one run of the strategy the handler is asked once at most, only about an allowed call that needs approval, and the code runs once at most and never behind a refusal; a result is the module's own, validated and passed through the after step |
| `Pipeline.VerdictIsUnique` | src/acl.rs:2895-2961 | every call has exactly one access decision, with or without an ACL |
| `Pipeline.GovernedExecution` | src/builtin_steps.rs:694-1035 | code that ran was allowed, and if the ACL, the policy or an unoverridden declaration asked for approval its run in the log comes after an approving answer of the handler to this call, or there was nobody to ask and no strict policy |
| `Pipeline.RunsExactlyWhen` | src/builtin_steps.rs:694-1308 | in the fields of the world: exactly when module code is run, all governing conditions in one |
| `Pipeline.ApprovalIsNeeded` | src/builtin_steps.rs:746-835 | approval is needed exactly when the ACL asks, or the policy does on the union of the declarations, or without a policy either declaration does |
| `Pipeline.UnionAsksForBoth` | src/module.rs:497-509 | two declarations ask for what either asks for, one alone stands |
| `Pipeline.HandlerIsAsked` | src/builtin_steps.rs:862-960 | what the handler is asked: about the token, or with a request of the arguments that is marked destructive as the policy or the declarations say |
| `Pipeline.VerdictIs` | src/builtin_steps.rs:399-458 | without an ACL every call is allowed; with one the verdict is its asynchronous decision on the projected arguments |
| `Pipeline.RunsSurvivesMoreAnswers` | src/builtin_steps.rs:399-458 | a call that runs still runs when conditions nobody could answer are answered |
| `Pipeline.TokenNeverMovesTheVerdict` | src/acl.rs:566-576 | the access decision of a call is the same with its resume token and without |
| `Pipeline.RefusedNeverRuns` | src/builtin_steps.rs:862-1035 | with a handler that approves nothing, the log of a gated run of the strategy holds no run of the code, whatever token it brings |
| `Calls.Call` | src/executor.rs:1125-1225 | a call is a row of runs of the strategy, each ruled on by its own verdict on its own inputs in the context derived from the last; one follows another only by a retry signal behind an opened gate; an output is a run's own or a middleware's recovery |
| `Calls.RunsAreFew` | src/utils/helpers.rs:286-326 | whatever the middlewares signal, a call ends: the frequency guard bounds its runs |
| `Calls.GuardPassesWhen` | src/utils/helpers.rs:200-326 | the guard lets a call through exactly within its limits on depth and repeats, unless the module occurs earlier with another right before the call |
| `Calls.CircularCallIsRefused` | src/utils/helpers.rs:257-284 | a call that comes back to a module through another is refused before any question or code, and not retried |
| `Calls.RefusedIsNotRetried` | src/executor.rs:1188-1221 | a run that the guards, the ACL or the gate stopped is the last of its call |
| `Calls.EachRunIsApproved` | src/builtin_steps.rs:694-1035 | in the whole log of a call whose runs are gated each run of the module's code stands right behind an approval: none is carried over to a retry |
| `Calls.RetryAsksAboutItself` | src/executor.rs:1206-1217 | a retried run has the module as its caller, so it asks what the first run did exactly when the chain already ended with the module |
| `Calls.RetryOfAllowedIsDenied` | src/executor.rs:1206-1217 | under one rule that lets external callers in, every first run of an external call is allowed and every retry denied |

## Left out

- Message texts, sorting of fault lists for display, audit entries, events, spans and log lines: side channels that decide nothing. Reported fault paths are kept as a set.
- YAML and JSON loading, `ACL::discover`, `reject_unknown_rule_keys`: rules start parsed; `Reload` takes the parsed document or its absence.
- Leaf condition handlers (`identity_types`, `roles`, `max_call_depth`): opaque answers, with panics and pending futures kept.
- A synchronous check nested in an asynchronous capture scope: each check opens one scope of its own kind.
- JSON object key order and duplicate keys; numbers are real numbers.
- `FRAMEWORK_CODES` as a table: any set of framework codes, the fourteen prefixes as they are.
- The shared objects of src/cancel.rs and src/async_task.rs are one state value moved by atomic steps, because their methods interleave: one lock section, atomic access or store call is one step. Aliasing of `Arc`s is kept as identity of tokens, tasks and executions.
- Tokio: spawn, abort, join and notify are abstract steps; an aborted future is dropped at some later moment unless it is inside `spawn_tracked`, which does not await.
- Executions that are not tracked: with a timeout of zero (src/builtin_steps.rs:1277-1279) the module's code runs in its caller, without `spawn_tracked`. The earlier cancellation check in the call-chain guard is the same walk as the one in the model and refuses nothing more.
- A reset of a cancelled flag is a step of the model, and the laws about quiet scopes speak of stretches without one.
- `shutdown`, cancelling an id whose `submit` has not returned, dropping a `submit` half way, store failures, several managers over one store: the code promises none of the lifecycle laws there.
- The semaphore: it is never closed, so `mark_cancelled` is unreachable; waiting for a permit is one step.
- The reaper's start and stop handles; its sweep is in the protocol.
- Timestamps in the task protocol; `TaskStore` and `Retry` carry them as real numbers, one time per run.
- 64-bit counters (sequence numbers, handles, execution ids) do not wrap. Version numbers are 64-bit.
- Rounding of floating point in `compute_delay_ms`: finite values are exact; overflow, infinities and NaN are kept.
- The execution policy's own resolution, middlewares, schema validation, redaction and timeouts of the pipeline: opaque answers of the world around a call; a middleware may put any key into the inputs it returns.
- `dry_run`, streaming and the other preset strategies of the pipeline; `call_with_trace`. Two of the presets drop the call-chain guard, and with it the bound of `Calls.RunsAreFew`.
- Changes of the ACL between the runs of one call.
- `ExtensionManager::apply` and the six concrete extension traits: an extension is its point's name and an address.
- Retry.RunTask: others may cancel an active record or delete a terminal one before each look; a save by another manager between a look and the save behind it is not modelled. With one manager nobody touches the record of a writing worker (`TaskLaws.WorkerWritesActive`).
