# cleaner-controller, modelled in Dafny

cleaner-controller is a Kubernetes controller for the `ConditionalTTL` resource. A
ConditionalTTL names some target objects (one by name, or a collection by label
selector), a time-to-live and a list of CEL conditions. Once the TTL has passed, the
controller resolves the targets and evaluates the conditions against their state with
`time` bound to the current instant. When every condition holds, it freezes the targets'
state and the evaluation time in the status, adds its three finalizers and deletes the
ConditionalTTL. Deletion then runs the finalizers one per reconcile pass:

- the target finalizer deletes the targets marked `delete`;
- the release finalizer uninstalls a Helm release;
- the cloud-event finalizer sends a `conditionalTTL.deleted` CloudEvent.

The CEL environment carries a small list extension: `pair(k, v)`, `sort(list, order)` and
the macro `list.sort_by(v, key[, order])`. A second, unused library sorts objects by
creation timestamp.

The model has these modules:

- `Wrappers`: `Option` and `Result`.
- `CelValues`: the CEL values the extension handles, their comparison, and order names.
- `Sorting`: an in-place insertion sort on arrays. Its specification is a function on sequences, proved a sorted permutation.
- `ApiTypes`: the API types, the Ready reasons and the target-name pattern.
- `CelAst` and `CelReference`: the CEL expression tree, and a small evaluator that gives the `sort_by` expansion a meaning.
- `Lists`: `pair`, `sort`, and the `sort_by` macro.
- `Unstructured`: `sortUnstructured`.
- `Cel`: options, context and condition evaluation.
- `Controller`: target resolution, the three finalizers, the stored object as a class, and `Reconcile`.

The model has these parameters:

- The Kubernetes API, Helm, the CloudEvents client and cel-go's compile and evaluate.
- The clock: the reconcile time is an argument.

Each operation's outcome is a function of its inputs. What the controller asks of the world
(deleting an object, uninstalling a release, sending an event) is recorded as a sequence
of effects.

## Model

| member | source | states |
|---|---|---|
| ApiTypes.TargetNamePattern | api/v1alpha1/conditionalttl_types.go:70-74 | for names without a newline, the pattern accepts exactly the non-empty names other than `time` |
| ApiTypes.TimeIsRefused | api/v1alpha1/conditionalttl_types.go:72-73 | the reserved name `time` is rejected |
| ApiTypes.MatchesAtStart | api/v1alpha1/conditionalttl_types.go:73 | a valid name matches an alternative anchored at its start |
| ApiTypes.TargetNamePatternRejectsTimeNewline | api/v1alpha1/conditionalttl_types.go:73 | the pattern as written rejects the valid name "time\nx" (see Findings) |
| CelValues.Compare | custom_cel/lists.go:126-148 | values of different kinds are incomparable; equal means identical |
| CelValues.CompareStrings | custom_cel/lists.go:126-148 | string comparison is total, and Equal only for equal strings |
| CelValues.CompareFlip | custom_cel/lists.go:126-148 | a < b exactly when b > a |
| CelValues.CompareStringsFlip | custom_cel/lists.go:126-148 | the same for strings (lexicographic by code point) |
| CelValues.CompareStringsTransitive | custom_cel/lists.go:126-148 | string order is transitive |
| CelValues.CompareTransitive | custom_cel/lists.go:126-148 | ≤ is transitive among keys of one comparable kind |
| CelValues.ToLower | custom_cel/lists.go:150 | lower-casing keeps the length and maps each character |
| CelValues.ParseOrder | custom_cel/lists.go:150-157 | the order names are matched ignoring letter case |
| CelValues.ParseOrderCaseInsensitive | custom_cel/lists.go:150-157 | ascending exactly for "asc" and descending exactly for "desc", in any letter case |
| CelValues.BeforeAsymmetric | custom_cel/lists.go:126-148 | the asc and desc less-functions are asymmetric |
| CelValues.NatToString | custom_cel/cel.go:74 | the printed index is a string of decimal digits denoting the index, without leading zeros |
| Sorting.AdjacentSortedIsSorted | custom_cel/lists.go:152-154 | adjacent order plus transitivity gives order for every pair |
| Sorting.InsertPermutation | custom_cel/lists.go:152-154 | inserting one element adds exactly that element |
| Sorting.InsertionSortedPermutation | custom_cel/lists.go:152-154 | the sort result is a permutation of its input |
| Sorting.InsertAdjacentSorted | custom_cel/lists.go:152-154 | insertion keeps a sequence ordered |
| Sorting.InsertionSortedAdjacentSorted | custom_cel/lists.go:152-154 | the sort result is ordered for any asymmetric less-function |
| Sorting.InsertLast | custom_cel/lists.go:152-154 | where the inserted element and the former last element end up |
| Sorting.InsertAt | custom_cel/lists.go:152-154 | one in-place insertion step: the prefix becomes the prefix with the element inserted, and the rest is untouched |
| Sorting.InsertionSort | custom_cel/lists.go:152-154 | the in-place sort leaves the array equal to the insertion-sorted input |
| Sorting.FirstWhere | custom_cel/lists.go:113-117 | the first index meeting a predicate, or none |
| Sorting.MapSeq | custom_cel/lists.go:159-162 | an element-wise map of the same length |
| Sorting.MapSeqPermutation | custom_cel/lists.go:159-162 | mapping preserves permutations |
| Lists.MakePair | custom_cel/lists.go:90-98 | fails exactly for an incomparable key; otherwise a record with exactly the fields `order` and `value`, holding the arguments |
| Lists.ValuesOf | custom_cel/lists.go:159-162 | one value per pair |
| Lists.CollectPairs | custom_cel/lists.go:111-124 | reads every element's order and value, or reports the first element that is not a record |
| Lists.ExtractValues | custom_cel/lists.go:159-164 | the pairs' values, in order |
| Lists.SortInput | custom_cel/lists.go:100-157 | accepted input is a list of records with a known order name, one pair per element; an unknown order name is always an error |
| Lists.Sort | custom_cel/lists.go:100-165 | a sort that succeeds returns a list of the same length, and fails exactly when its input is refused |
| Lists.SortByOrder | custom_cel/lists.go:100-165 | `sortByOrder` computes `Sort` |
| Lists.PairLessAsymmetric | custom_cel/lists.go:126-148 | the pair comparators are asymmetric |
| Lists.NotBeforeTransitive | custom_cel/lists.go:126-148 | "not before" is transitive on keys of one kind |
| Lists.HomogeneousPermutation | custom_cel/lists.go:126-148 | a permutation keeps keys of one kind |
| Lists.InsertionSortedIsSortedArrangement | custom_cel/lists.go:150-154 | the sorted pairs are a permutation, adjacent-ordered, and fully ordered when keys share a kind |
| Lists.ValuesOfPairs | custom_cel/lists.go:119-122 | each pair's value is its element's `value` field |
| Lists.SortResult | custom_cel/lists.go:100-165 | a successful sort returns a permutation of the elements' values, arranged as some sorted arrangement of the pairs |
| Lists.SortAcceptsPairs | custom_cel/lists.go:90-124 | a list of records built by `pair` with a known order is accepted, with the pairs' keys and values |
| Lists.ExtractIdent | custom_cel/lists.go:167-172 | succeeds exactly on identifiers, with their name |
| Lists.ExtractOrder | custom_cel/lists.go:174-179 | the third argument's literal, otherwise "asc" |
| Lists.MakeSortBy | custom_cel/lists.go:181-220 | rejected with "argument is not an identifier" at the first argument exactly when it is not an identifier |
| CelReference.EvalFrame | custom_cel/lists.go:198-204 | binding a name an expression does not mention changes nothing |
| CelReference.FoldFrame | custom_cel/lists.go:198-204 | the same for a comprehension's fold |
| CelReference.StepMeaning | custom_cel/lists.go:192-194 | the step appends `pair(key(x), x)` to the accumulator |
| CelReference.FoldKeepsError | custom_cel/lists.go:192-194 | an error in the accumulator survives the fold |
| CelReference.FoldMeaning | custom_cel/lists.go:189-211 | the fold from `[]` appends one pair record per element, in input order |
| CelReference.ResultMeaning | custom_cel/lists.go:212-216 | the result expression sorts the accumulator with the given order |
| CelReference.SortByExpansion | custom_cel/lists.go:181-220 | the expansion evaluates to: key each element, build pairs in order, then sort them with the extracted order |
| CelReference.KeyedRecordsOk | custom_cel/lists.go:192-194 | with comparable keys, each element becomes the record `pair(key, element)` |
| CelReference.RecordValues | custom_cel/lists.go:119-122 | those records' values are the original elements |
| CelReference.SortBySorts | custom_cel/lists.go:181-220 | `sort_by` returns a permutation of the list, ordered by key as a sorted arrangement of the keyed pairs |
| CelReference.EvalExample | custom_cel/lists.go:33 | the example list evaluates to [3,1,2] |
| CelReference.SortExamplePairs | custom_cel/lists.go:33-35 | the example pairs sort to 1,2,3 ascending and 3,2,1 descending |
| CelReference.SortByExamples | custom_cel/lists.go:33-35 | `[3,1,2].sort_by(i, i, "asc")` is [1,2,3] and `[3,1,2].sort_by(i, i, "desc")` is [3,2,1] |
| CelReference.SortByDefaultExample | custom_cel/lists.go:33 | `[3,1,2].sort_by(i, i)`, with the order left out, is [1,2,3] |
| Unstructured.SortUnstructured | custom_cel/unstructured.go:46-83 | `sortUnstructured` computes `SortByCreation` |
| Unstructured.CreatedBeforeAsymmetric | custom_cel/unstructured.go:60-70 | the timestamp comparators are asymmetric |
| Unstructured.SortByCreationSorts | custom_cel/unstructured.go:46-83 | a permutation of the items, with creation timestamps non-decreasing for "asc" and non-increasing for "desc" |
| Cel.IncludedVariables | custom_cel/cel.go:22-26 | at most one declaration per target |
| Cel.IncludedVariablesDeclare | custom_cel/cel.go:22-26 | a name is declared dynamic exactly when an included target has it |
| Cel.BuildCELOptions | custom_cel/cel.go:16-28 | strings, lists and `time` as a timestamp, then the included targets in spec order |
| Cel.BuildCELContext | custom_cel/cel.go:32-42 | the loop builds `CelContext` |
| Cel.TargetBindingsDomain | custom_cel/cel.go:34-39 | exactly the included targets' names are bound |
| Cel.TargetBindingsLast | custom_cel/cel.go:34-39 | a name is bound to the state of the last included target of that name |
| Cel.CelContextMeaning | custom_cel/cel.go:32-42 | `time` is the instant, even when a target has that name; other names map as above |
| Cel.Evaluation | custom_cel/cel.go:50-57 | an environment that cannot be built gives status False, reason ConditionEnvironmentError with its message, not met and not retryable |
| Cel.EvaluateCELConditions | custom_cel/cel.go:49-110 | the loop computes the verdict `Evaluation` |
| Cel.ScanMet | custom_cel/cel.go:58-109 | from any index, the scan is met exactly when every remaining condition holds |
| Cel.EvaluationMet | custom_cel/cel.go:49-110 | conditions are met exactly when the environment builds and every condition compiles and yields true (an empty list included) |
| Cel.ScanFirstFailure | custom_cel/cel.go:59-97 | the first condition that fails to compile, fails to evaluate or is not boolean decides the verdict |
| Cel.EvaluationFirstFailure | custom_cel/cel.go:59-97 | the same from the start, with its index in the message, whatever an earlier false said |
| Cel.ScanAllValid | custom_cel/cel.go:95-109 | with only booleans, the verdict is Terminating or WaitingForConditions |
| Cel.EvaluationAllValid | custom_cel/cel.go:100-109 | with only booleans the status is True, and the reason is Terminating exactly when all are true |
| Cel.ScanConsistent | custom_cel/cel.go:49-110 | every scan verdict has the flags its reason calls for |
| Cel.EvaluationConsistent | custom_cel/cel.go:49-110 | met exactly for Terminating; retryable exactly for EvaluationError and WaitingForConditions; status True exactly for those two |
| Controller.Then | controllers/conditionalttl_controller.go:283-299 | a failed step stops the sequence; otherwise effects accumulate |
| Controller.ResolveTarget | controllers/conditionalttl_controller.go:199-235 | a name resolves to one object, a selector to a collection, and a reference with neither gives the "can't both be nil" error |
| Controller.ResolveTargetByName | api/v1alpha1/conditionalttl_types.go:55-63 | with a name set, the label selector is ignored and the object must exist |
| Controller.EmptyCollectionResolves | api/v1alpha1/conditionalttl_types.go:44-49 | an empty selected collection is a valid resolution |
| Controller.ResolveTargetNotFound | controllers/conditionalttl_controller.go:199-235 | only the cluster's Get or List reports NotFound |
| Controller.ResolvedTargets | controllers/conditionalttl_controller.go:239-256 | one status per target |
| Controller.ResolvedTargetsMeaning | controllers/conditionalttl_controller.go:239-256 | succeeds exactly when every target resolves; the i-th status copies the i-th target's name, flags and state |
| Controller.ResolvedTargetsFirstError | controllers/conditionalttl_controller.go:241-245 | the first failing target is the one reported |
| Controller.ResolveTargets | controllers/conditionalttl_controller.go:239-256 | the loop filling the slice computes `ResolvedTargets` |
| Controller.DeleteEach | controllers/conditionalttl_controller.go:288-292 | deletes the list's items in order, stopping at the first failure |
| Controller.FinalizeTarget | controllers/conditionalttl_controller.go:277-299 | one target: skipped unless marked, NotFound tolerated, then its objects deleted |
| Controller.TargetFinalizer | controllers/conditionalttl_controller.go:276-302 | the loop computes `TargetFinalizerRun` |
| Controller.DeleteAllRunMeaning | controllers/conditionalttl_controller.go:260-271 | succeeds exactly when every delete succeeds or finds nothing; deletes only the listed items, and all of them on success |
| Controller.TargetRunMeaning | controllers/conditionalttl_controller.go:277-299 | the same for one target, which succeeds at once when not marked |
| Controller.TargetFinalizerMeaning | controllers/conditionalttl_controller.go:276-302 | succeeds exactly when every marked target is cleared; deletes only objects of marked targets, and all of them on success |
| Controller.HelmReleaseFinalizerRun | controllers/conditionalttl_controller.go:306-336 | no-op without `helm.delete`; otherwise one uninstall, failing only on a real error (not-found is success) |
| Controller.CloudEventFinalizerRun | controllers/conditionalttl_controller.go:341-365 | no-op without a sink; otherwise one event from the frozen status, failing exactly when not acknowledged |
| Controller.FirstPresentFrom | controllers/conditionalttl_controller.go:84-88 | the first finalizer of the table present, with none before it |
| Controller.Without | controllers/conditionalttl_controller.go:92 | removing a finalizer drops every occurrence and keeps everything else |
| Controller.AddFinalizers | controllers/conditionalttl_controller.go:172-181 | appends the missing names and keeps the old list as a prefix; unchanged exactly when none is missing |
| Controller.AddFinalizersAppendsMissing | controllers/conditionalttl_controller.go:172-181 | for distinct names, the result is the old list followed by exactly the missing names, each once, in table order |
| Controller.MissingFromDistinct | controllers/conditionalttl_controller.go:172-181 | the names appended are distinct |
| Controller.FinalizersPresentOnce | controllers/conditionalttl_controller.go:172-181 | afterwards each of the three finalizers is present exactly once, unless it was already duplicated |
| Controller.HandleFinalizer | controllers/conditionalttl_controller.go:47-54 | dispatches to the handler of the table entry |
| Controller.RunFinalizers | controllers/conditionalttl_controller.go:83-102 | the deletion branch's loop computes `FinalizeStep` |
| Controller.EnsureFinalizers | controllers/conditionalttl_controller.go:172-186 | the loop computes `AddFinalizers`, and `needsUpdate` exactly when the list changed |
| Controller.ReconcileStep | controllers/conditionalttl_controller.go:75-195 | a removed object is left alone (NotFound is no error); a failed Get changes nothing; a pass never changes metadata or spec, and never clears a deletion |
| Controller.Reconcile | controllers/conditionalttl_controller.go:75-195 | one pass updates the stored object and answers as `ReconcileStep` says |
| Controller.ReconcileExpired | controllers/conditionalttl_controller.go:121-194 | the part after the TTL, as `ExpiredStep` says |
| Controller.ConditionalTTL.constructor | api/v1alpha1/conditionalttl_types.go:142-151 | a new object has no finalizers and an empty status |
| Controller.NewObjectFrozen | controllers/conditionalttl_controller.go:167-171 | a new object satisfies the invariant |
| Controller.ReconcileKeepsFrozen | controllers/conditionalttl_controller.go:162-186 | every pass keeps the invariant that the controller's finalizers imply a recorded evaluation time |
| Controller.CloudEventCarriesSnapshot | controllers/conditionalttl_controller.go:341-365 | under the invariant, the event carries the frozen evaluation time and targets, and is never a nil dereference |
| Controller.DeletionHandlesFirstFinalizer | controllers/conditionalttl_controller.go:83-102 | while deleting, only the first present finalizer runs; on success only it is removed and later passes move past it; on failure nothing changes; the status is never touched |
| Controller.ManualDeletionLeavesTargets | controllers/conditionalttl_controller.go:83-102 | a deleted object without the controller's finalizers is left alone, and nothing is deleted |
| Controller.NothingBeforeExpiry | controllers/conditionalttl_controller.go:104-119 | before expiry: no effects and no finalizer change; on success Ready is Unknown/NotExpired and the requeue is exactly expiresAt - now |
| Controller.ResolveFailureReported | controllers/conditionalttl_controller.go:121-139 | an unresolvable target: Ready False/TargetResolveError with the message, the error returned, no finalizers, no deletion |
| Controller.UnmetConditionsWait | controllers/conditionalttl_controller.go:141-160 | conditions not met: the verdict is recorded, nothing is deleted, and the requeue is after the retry period exactly when retryable and a period is set |
| Controller.MetConditionsDelete | controllers/conditionalttl_controller.go:162-194 | conditions met: targets and evaluation time frozen; the missing finalizers appended in table order, each present once; deletion requested |
| Controller.EffectsOnlyFromFinalizers | controllers/conditionalttl_controller.go:83-102 | deletes, uninstalls and events happen only while deleting, from the first present finalizer; target deletes only under the target finalizer and only of objects of marked targets |
| Controller.FinalizersOnlyAfterConditionsMet | controllers/conditionalttl_controller.go:167-171 | a finalizer is added only in a pass after the TTL that met the conditions and froze targets and time |
| Controller.DeletionOnlyWhenAllConditionsHold | api/v1alpha1/conditionalttl_types.go:113-116 | deletion is requested only after the TTL, when every condition compiles and is true against the targets resolved in that pass |

## Left out

- Kubernetes, Helm, CloudEvents and cel-go are parameters. The model does not cover:
  - API semantics beyond these: resource versions and conflicts are folded into an update error;
  - GroupVersionKind handling;
  - label-selector matching;
  - the `apiVersion`, `kind` and `metadata` of a listed collection (its state is recorded as `{items}`);
  - parsing and type-checking CEL.
- The Recorder's Kubernetes events (TargetDeleted, HelmUninstallFailed, …) and logging are left out; they carry no decision.
- Setting up the Helm client is folded into the uninstall outcome: a setup failure is `HelmFailed`, still recorded as an uninstall request.
- `clientForNamespace` and main.go are process plumbing and are not modelled.
- Integer time in seconds stands for `time.Time` and `metav1.Duration`; RFC 3339 parsing and sub-second precision are not modelled.
- Doubles, unsigned integers, bytes and durations as sort keys are not modelled. Booleans, integers, strings and timestamps are comparable; null, lists and maps are not.
- Lists.SortInput: a key that cannot be compared makes the source panic inside the comparator, and only when it is the left operand of a comparison. The model reports an error naming the first such element whenever the list has two or more elements.
- Lists.SortInput: a record without a `value` field is an error in the model. The source carries cel-go's error value into the list.
- Lists.SortInput: a record without an `order` field reads its order as null. Null is not comparable, just as the error value cel-go returns is not.
- Lists.SortResult: `sort.Slice` is not stable, and the order of equal keys is unspecified. The model sorts by insertion, which agrees with Go's algorithm for up to twelve elements, so the lemmas promise only "some sorted arrangement" and a permutation.
- Lists.SortResult: for keys of mixed kinds the source's comparator is not a strict weak order. The model promises the permutation and adjacent order only, and full order when all keys share a kind.
- CelValues.ToLower: lower-casing covers ASCII letters only; Go's `strings.ToLower` also folds other scripts.
- Unstructured.SortByCreation: an item that is not a record is an error here; the source panics on the type assertion. A missing or malformed creation timestamp reads as the zero time, as `GetCreationTimestamp` does.
- The `Unstructured()` library is not part of the environment: `BuildCELOptions` installs `Lists()` only. `sortUnstructured` is modelled on its own.
- CelReference covers only the CEL needed to give `sort_by` a meaning: identifiers, literals, list construction, field selection, `_+_` on lists, `pair`, `sort` and comprehensions over lists.
- Quote: `%q` escaping of names with special characters is not modelled. Names are quoted as written.
- `SetStatusCondition`: only the Ready condition is kept, and `LastTransitionTime` is not modelled.
- Controller.CloudEventFinalizerRun: the source dereferences `status.evaluationTime` unconditionally. Without one, the model returns the Go runtime's nil-dereference message as an error. Whether the panic is recovered depends on the controller-runtime configuration. `CloudEventCarriesSnapshot` shows the case cannot arise on an object that keeps the invariant.
- Requeue scheduling is not modelled: `RequeueAfter` is an output value (0 means none), and the backoff after a returned error is controller-runtime's.
- The ConditionalTTL as stored keeps the fields the controller reads or writes. Labels, annotations and the other conditions are not modelled.

Where the documentation and the code disagree, the model follows the code:

- EvaluateCELConditions sets the Ready status to True for WaitingForConditions as well as for Terminating.
- `sort` is unstable.
- `sort` requires `{order, value}` records, not plain values.

## Findings

| source | as written | input that shows it | evidently intended | confidence | as-written member | corrected member |
|---|---|---|---|---|---|---|
| api/v1alpha1/conditionalttl_types.go:73 | the pattern is applied as an unanchored search in which only the first alternative carries `^`, and `.` does not match a newline | the name "time\nx" is non-empty and not `time`, yet no alternative matches it | every non-empty name other than `time` is accepted | medium, not executed | ApiTypes.MatchesTargetNamePattern (shown by ApiTypes.TargetNamePatternRejectsTimeNewline) | ApiTypes.ValidTargetName (proved equal to the pattern on names without a newline by ApiTypes.TargetNamePattern) |
