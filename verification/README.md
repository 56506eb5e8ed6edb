# Provider shims: a verified model

The providers under `providers/` each turn a ModelDeployment into objects of an upstream operator and keep those
objects, and the ModelDeployment's status, up to date. This project models the decisions they take and proves what
they guarantee. It also covers three backend pieces with exact specifications. All of it is checked by
`dafny verify dfyconfig.toml`.

JSON is one datatype (`JsonValues.Json`); a map range is a loop that takes the keys in an arbitrary order; everything
a pass learns from outside (reads, writes, probes, registries, clocks, random factors) is a parameter, so every
statement holds for every combination of answers. Code that changes state step by step is a method or a class, proved
against a specification function; the properties are proved about that function, for all inputs and whole runs.

| file | what it is about |
|---|---|
| `JsonValues`, `Texts`, `Sorting` | values, string functions, sorting that forgets the order of collection |
| `KaitoMerge`, `KaitoOperator`, `KaitoRuns`, `KaitoHistory` | KAITO's three-way merge, the operator's share, one pass, whole histories |
| `DynamoDrift` | Dynamo's decision whether the stored spec has drifted |
| `Overrides` | `provider.overrides`: the deep merges and the root-key policies |
| `OptimisticWrites` | Dynamo and KubeRay writes among other actors and stale reads |
| `Reconciling`, `StatusProtocol`, `StatusEnds` | the reconcile pass of KubeRay, KAITO, llm-d and vLLM, what its status can be trusted for, and what each end of it leaves |
| `Deletion` | finalizers: when they go and when they never go |
| `Images` | image references, and pinning the default vLLM image to a digest |
| `VllmArgs`, `VllmFlagCounts`, `DynamoArgs`, `CommandLines` | command lines |
| `Storage`, `Retry`, `FrontendService` | storage rules and defaults, retry backoff, service references |

## What the proofs brought out

- The KAITO comparison and merge agree exactly (`MatchIffMergeIsIdentity`), and so do the whole pass's "nothing to
  write" and its update, with one exception: a desired section that is an empty map counts as matching an object that
  lacks the section (`NothingToWriteIffUpdateIsIdentity`; `EmptySectionIsNeverWritten` is a concrete case).
- KAITO's `deepMerge` is RFC 7396 merge patch exactly on patches that place no object with a null inside; on all other
  patches it differs, and it is not idempotent on them either (`DeepMergeIsMergePatch`, `DeepMergeIdempotent`;
  `PlacedNullSurvives` is a concrete case).
- A failing compatibility check sets Failed and leaves a true Ready condition, the endpoint and the replicas as they
  were. `ReadyStaysTrustworthyExactly` says that this, with vLLM's failing image resolution, is the only transition
  that breaks "Ready implies Running or Terminating"; `IncompatibleEditLeavesReadyStale` is a concrete case.
- In Dynamo and KubeRay deletion the error of `Delete` is a new variable that hides the error of `Get`, so an object
  that goes away between the two makes Dynamo wait for the timeout and KubeRay report a failure, where both log that
  they go on. `GoneDuringDelete` says for every provider when such a pass finishes and what it asks for otherwise.
- The five-minute timeout does not simply free the finalizer. `TimeoutFreesExactly` lists, for every provider, the
  answers on which a late pass gives it up: Dynamo and KAITO on all but an accepted Delete of an object that was still
  there; KubeRay also not on a failing Get or a Delete that finds nothing; llm-d also not on a failing Get or a Delete
  that finds no object; vLLM whenever its Get is answered.
  An object that stays while its Deletes are accepted keeps the finalizer for ever at every provider but vLLM
  (`CanTerminateForever`), where one of the first 62 answered passes asks for its removal (`VllmDeletionEnds`).
- The whole answer of the vLLM argument builder is independent of the map's iteration order if and only if at most one
  key of `engine.args` is reserved (`AnswersAgreeExactly`); otherwise any reserved key may be the one that its error
  names (`AnyReservedKeyMayBeNamed`). Success and the command line never depend on the order (`SuccessIsSettled`).
- The vLLM provider lets an explicit flag replace a derived one, Dynamo emits both: `FlagsRepeatExactly` and
  `FlagsOnTheLine` count the copies of every flag.

## Model

| member | source | states |
|---|---|---|
| KaitoMerge.MergeManaged | providers/kaito/controller.go:579-614 | the merge loops, in any iteration order, compute the one merged map of the specification |
| KaitoMerge.MergedKeysExactly | providers/kaito/controller.go:597-609 | a recorded map loses exactly what was recorded and is no longer desired; an unrecorded one keeps every live key, except that `resource.labelSelector` and its `matchLabels` keep the desired keys only |
| KaitoMerge.MatchIffMergeIsIdentity | providers/kaito/controller.go:761-802 | for all maps, records and paths: the comparison is quiet if and only if the merge returns the live map unchanged |
| KaitoMerge.MergeCommutesWithLookup | providers/kaito/controller.go:579-614 | reading the merge at any path where an object stays desired gives the merge of what was live, desired and recorded there, with that path's ownership rule |
| KaitoMerge.MergeAtPath | providers/kaito/controller.go:579-614 | under any such path: desired leaves read back, recorded keys no longer desired are gone (in label selectors also unrecorded ones), every other live value is untouched |
| KaitoOperator.MergeReplacesOwnWrite | providers/kaito/controller.go:579-614 | over an object that still equals its record the merge yields exactly the desired object |
| KaitoOperator.MergeKeepsOperatorPart | providers/kaito/controller.go:579-614 | merging into "previous desired plus operator fields" gives "new desired plus the same operator fields", at every depth |
| KaitoOperator.OverlayKeepsOperatorPart | providers/kaito/controller.go:579-614 | the operator's share of the result is the operator's share of what was there before |
| KaitoOperator.EditKeepsFaithful | providers/kaito/controller.go:579-614 | an operator's write to keys no desired object names keeps the live object one desired object plus the operator's share |
| KaitoRuns.MergeStrings | providers/kaito/controller.go:629-653 | the label and annotation merge loops compute the merge of the specification |
| KaitoRuns.MergeTopLevel | providers/kaito/controller.go:552-577 | one section: merged, removed when recorded and no longer desired, or refused when it is not a map |
| KaitoRuns.WorkspaceStore.CreateOrUpdateResource | providers/kaito/controller.go:454-509 | the stored Workspace and the outcome after a pass, for every stored state and every answer of the API server |
| KaitoRuns.ForeignWorkspaceIsUntouched | providers/kaito/controller.go:480-482 | a Workspace of another owner is never written: the pass ends in an ownership conflict, or in a read failure |
| KaitoRuns.PassReportsItsWrite | providers/kaito/controller.go:454-509 | the stored object changes only in a pass that ends Created or Updated, and when a pass ends in which outcome |
| KaitoRuns.UpdateExactly | providers/kaito/controller.go:537-577 | for any drift of an object whose sections are maps or absent: owners and all other root fields stay, the new record is stored, labels, annotations and sections follow their own record |
| KaitoRuns.SectionIsMerged | providers/kaito/controller.go:552-577 | a section is merged, dropped or left alone, no other field changes, and the update is refused if and only if the section is not a map on either side |
| KaitoRuns.UnrecordedSelectorIsReplaced | providers/kaito/controller.go:820-822 | a Workspace without a record ends with exactly the desired node selector |
| KaitoRuns.MergeSettles | providers/kaito/controller.go:579-614 | merging again with the record the first merge left changes nothing, whatever was live |
| KaitoRuns.StringsMatchIffIdentity | providers/kaito/controller.go:517-535 | labels and annotations: the comparison is quiet if and only if the merge changes nothing |
| KaitoRuns.QuietAfterWrite | providers/kaito/controller.go:489-509 | the pass after a successful create or update with the same desired object makes no write |
| KaitoRuns.NothingToWriteIffUpdateIsIdentity | providers/kaito/controller.go:489-550 | a pass makes no write if and only if the update would store what is there, an empty desired section that is missing live excepted |
| KaitoRuns.EmptySectionIsNeverWritten | providers/kaito/controller.go:489-509 | an empty desired inference section that is missing live is not written, though an update would add it |
| KaitoHistory.RootMerge | providers/kaito/controller.go:537-577 | the two section merges are one merge of the whole object |
| KaitoHistory.ReconcileInStep | providers/kaito/controller.go:454-550 | one pass turns "earlier desired plus operator" into "latest desired plus the same operator fields", or leaves the object as it was if the write is refused |
| KaitoHistory.AlwaysInStep | providers/kaito/controller.go:454-509 | over every run of passes, refused writes, operator writes and removals the stored Workspace is one applied desired object plus the operator's fields |
| KaitoHistory.HistoryIndependence | providers/kaito/controller.go:454-727 | after any such run a pass leaves exactly the latest desired resource, inference, labels and annotations plus the operator's: nothing dropped survives, nothing of the operator's is lost |
| KaitoHistory.ForeignWorkspaceStays | providers/kaito/controller.go:444-482 | over any passes with any desired objects, a Workspace that is not owned stays as it is |
| Sorting.SortForgetsOrder | providers/vllm/transformer.go:486-490 | two collections with the same members sort to the same list |
| Sorting.LeqIsLexicographic | providers/vllm/transformer.go:490 | the order sorted by is that of a dictionary |
| Sorting.CollectSorted | providers/dynamo/transformer.go:1218-1243 | collecting keys in any order and sorting them gives the one sorted listing of the keys |
| Overrides.Unstructured.DeepMerge | providers/dynamo/transformer.go:1248-1261 | the merge loop turns the object into the overlay of the specification |
| Overrides.Unstructured.DeepMergeDeletingNulls | providers/kaito/transformer.go:450-467 | KAITO's merge loop, with assignment and deletion, computes its specification |
| Overrides.Unstructured.ApplyDynamo | providers/dynamo/transformer.go:1166-1212 | which documents are refused with which error; a refused one changes nothing, of an accepted one only spec is merged |
| Overrides.Unstructured.ApplyVllm | providers/vllm/transformer.go:856-893 | the same for the vLLM provider, which allows spec only |
| Overrides.Unstructured.ApplyKaito | providers/kaito/transformer.go:385-435 | the same for KAITO, which allows resource and inference and refuses a replica count |
| Overrides.CheckRootKeys | providers/dynamo/transformer.go:1218-1243 | the error, text included, depends on the document alone and not on the order of its keys |
| Overrides.RootErrorExactly | providers/dynamo/transformer.go:1218-1243 | which error a document gets: the first blocked key, else all unsupported keys in sorted order; null is an empty document |
| Overrides.DynamoAcceptsExactly | providers/dynamo/transformer.go:1218-1243 | accepted if and only if every root key is spec or, in any case, routerMode, frontend or epp |
| Overrides.VllmAcceptsExactly | providers/vllm/transformer.go:856-893 | accepted if and only if there is no root key but spec |
| Overrides.KaitoAcceptsExactly | providers/kaito/transformer.go:398-427 | accepted if and only if there is no root key but resource and inference and no resource.count, which is looked at first |
| Overrides.DeepMergeIsMergePatch | providers/kaito/transformer.go:450-467 | KAITO's deepMerge equals MergePatch of section 2 of RFC 7396 if and only if every object placed where the base has none is free of nulls |
| Overrides.DeepMergeIdempotent | providers/kaito/transformer.go:450-467 | applying a patch twice equals applying it once if and only if the same holds |
| Overrides.PlacedNullSurvives | providers/kaito/transformer.go:450-467 | a null two maps deep survives over an empty base, against RFC 7396, and a second application removes it |
| Overrides.PatchingNothing | providers/kaito/transformer.go:450-467 | patching a value that is not an object yields the patch itself if and only if the patch is free of nulls |
| Overrides.OverlayAtPath | providers/dynamo/transformer.go:1248-1261 | for every path: an override leaf reads back its value, an override map stays a map, a path the override does not reach keeps the base value |
| Overrides.DynamoOverridesAreContained | providers/dynamo/transformer.go:1166-1261 | an accepted document leaves every root field but spec as rendered; inside spec leaves read back and unreached paths keep the rendered value |
| Overrides.VllmOverridesAreContained | providers/vllm/transformer.go:856-910 | the same for vLLM |
| Overrides.DeletingOverlayAtPath | providers/kaito/transformer.go:450-467 | for every path: override leaves read back, override maps stay maps, unreached paths keep the base value |
| Overrides.NullAtPath | providers/kaito/transformer.go:450-467 | a null removes what the base has at its path if the base has an object around it, and stays as it is otherwise |
| Overrides.KaitoKeepsReplicaCount | providers/kaito/transformer.go:385-435 | an accepted document leaves every root field but the two sections as rendered, and a resource that is still a map keeps the rendered count |
| DynamoDrift.StripMap | providers/dynamo/controller.go:658-678 | the loop that fills a fresh map computes the normalised map, in any iteration order |
| DynamoDrift.StripElements | providers/dynamo/controller.go:680-693 | list elements are normalised inside and never dropped |
| DynamoDrift.DroppedIffEmptyish | providers/dynamo/controller.go:658-678 | a member is dropped if and only if it is an empty string or a map of such values at every depth |
| DynamoDrift.StripEqualIffSame | providers/dynamo/controller.go:658-693 | two values normalise to the same if and only if they differ in empty members only |
| DynamoDrift.OverlayHoldsOverrides | providers/dynamo/transformer.go:1248-1261 | the rendered spec holds every key of the overrides, so the skip for an absent desired key is never taken |
| DynamoDrift.SelectedAgreeIffHolds | providers/dynamo/controller.go:616-652 | where the desired spec holds the selection, the presence-aware comparison is quiet if and only if the stored spec holds it too |
| DynamoDrift.DecideUpdate | providers/dynamo/controller.go:574-586 | an update is sent exactly when one of the two comparisons differs |
| DynamoDrift.DriftIsExact | providers/dynamo/controller.go:574-614 | no update is sent if and only if stored and desired agree up to empties and the stored spec holds everything the overrides name |
| DynamoDrift.AddedEmptiesAreIgnored | providers/dynamo/controller.go:570-583 | empty members added at any depth do not count as a difference |
| DynamoDrift.QuietOnServerDefaults | providers/dynamo/controller.go:570-586 | once the desired spec is stored, empties the API server adds anywhere never cause an update |
| DynamoDrift.NoOverrideIsLost | providers/dynamo/controller.go:579-614 | if no update is sent, every path of the overrides, explicitly empty ones included, is present in the stored spec with an agreeing value |
| OptimisticWrites.StepKeepsConsistent | providers/dynamo/controller.go:538-590 | every step of any actor keeps versions unique and every read a version that was stored |
| OptimisticWrites.WritesLandWhereVerified | providers/dynamo/controller.go:538-590 | whatever the others do and however stale the read: a Create or Update that succeeds lands on a free name or on the very version whose owner was verified |
| OptimisticWrites.WriteExactly | providers/dynamo/controller.go:545-590 | after every run: a write stores the desired body, owned by the deployment and with the uid it had, exactly when the name is free, or the object read is still stored, owned and different; otherwise nothing changes |
| OptimisticWrites.UndisturbedPassRepairsDrift | providers/kuberay/controller.go:446-480 | after every run an undisturbed pass leaves the desired body under its name unless the object is someone else's, and does not write an object that has it already |
| OptimisticWrites.ForeignObjectsAreUntouched | providers/kuberay/controller.go:439-481 | no write changes an object that the deployment does not own at that moment |
| OptimisticWrites.OnlyTheVersionRefuses | providers/kuberay/controller.go:472-477 | there is a run in which the ownership check passes on a stale read and only the version comparison keeps a foreign object from being overwritten |
| Reconciling.SnapshotServing | providers/vllm/controller.go:568-601 | the snapshot loop answers true exactly when every resource was readable, not terminating, owned and, if a Deployment, Running, and there is a Deployment |
| Reconciling.ModelDeployment.WriteAll | providers/llmd/controller.go:300-390 | the write loop with its preserve flag yields the pass result of the specification and the status that goes with it |
| Reconciling.ModelDeployment.Stop | providers/vllm/controller.go:344-418 | what a refused write does to conditions, phase, endpoint, replicas and the time of the next pass, for every kind of error |
| Reconciling.ModelDeployment.SyncStatus | providers/llmd/controller.go:552-596 | the fields and the Ready condition that a translated upstream status sets |
| Reconciling.ModelDeployment.Reconcile | providers/llmd/controller.go:284-422 | the status and the requeue time of a whole pass, for every combination of answers |
| StatusProtocol.NeverPreservesOnceUnsafe | providers/vllm/controller.go:416-421 | after a successful write the pass can only complete or fail closed |
| StatusProtocol.WritePassEndsInOneOfThreeWays | providers/vllm/controller.go:333-421 | a pass completes, fails closed, or keeps Phase, Ready, Endpoint and Replicas; the last if and only if the first write was refused transiently and every resource was seen owned, not terminating and serving |
| StatusProtocol.SingleWriteEndsInOneOfThreeWays | providers/kuberay/controller.go:290-357 | the same three ends for the providers that write one resource |
| StatusProtocol.ReconciledStatusIsTrustworthy | providers/kuberay/controller.go:241-383 | a pass keeps "Ready implies Running or Terminating" if and only if no early check failed while Ready was true |
| StatusProtocol.ReadyStaysTrustworthyExactly | providers/kuberay/controller.go:243-248 | the same for every transition of a stored deployment, refused status updates and deletion included |
| StatusProtocol.ReadyIsTrustworthyAlways | providers/kaito/controller.go:257-400 | over every run whose compatibility checks pass, Ready is true only while the phase is Running or Terminating |
| StatusProtocol.IncompatibleEditLeavesReadyStale | providers/kuberay/controller.go:243-248 | a concrete run that ends Failed with Ready true and the old endpoint |
| StatusProtocol.PassStopsAtFirstRejection | providers/llmd/controller.go:306-390 | the first refused write decides the pass; what was written before it only takes away the right to keep the serving state |
| StatusProtocol.RefusalIsRecordedAndRetried | providers/llmd/controller.go:322-384 | that refusal is recorded in ResourceCreated, and when the pass comes back depends on its error alone |
| StatusProtocol.PassComesBackExactly | providers/kuberay/controller.go:243-383 | a pass asks for a later pass if and only if no early check failed and something could be rendered |
| StatusProtocol.RepeatedRejectionRewritesExactly | providers/llmd/controller.go:322-338 | a second refusal rewrites the stored status if and only if its stored detail differs |
| StatusProtocol.RefusalsSettleAtOnce | providers/llmd/controller.go:101-113 | however the API server varies the field it names, a run of refusals stores one status and never rewrites it |
| StatusProtocol.ServingExactly | providers/vllm/controller.go:568-601 | the serving snapshot, resource by resource |
| StatusEnds.ConditionIsSet | providers/llmd/controller.go:679-689 | a condition is set for the current generation, its transition time moves exactly when its status does, and nothing else changes |
| StatusEnds.AfterFailedCheck | providers/kuberay/controller.go:243-248 | a failing early check sets Failed and its message and leaves Ready, ResourceCreated, endpoint and replicas alone |
| StatusEnds.AfterUnhealthyUpstream | providers/kaito/controller.go:257-269 | an unhealthy upstream sets Ready false with the probe's reason and leaves the rest alone |
| StatusEnds.AfterFailedRendering | providers/kuberay/controller.go:252-267 | a failed rendering fails closed, with TransformFailed in both conditions |
| StatusEnds.AfterRefusedWrite | providers/llmd/controller.go:306-385 | a refused write keeps the serving state, message included, or fails closed; its reason and text are those of the first refusal |
| StatusEnds.AfterTranslatedStatus | providers/llmd/controller.go:392-422 | after accepted writes and a translated status: replicas and endpoint as translated, Ready true exactly for Running, Deploying for everything but Running and Failed |
| StatusEnds.AfterMissingStatus | providers/vllm/controller.go:423-461 | after accepted writes without a translated status: endpoint, replicas and Ready as before, Deploying unless Running or Failed, or unless vLLM failed to read |
| StatusEnds.TypedErrorsStoreOneText | providers/llmd/controller.go:102-179 | whatever a typed-patch error spells out, one fixed text is stored, and it is never retried as transient |
| StatusEnds.OtherErrorsByKind | providers/kuberay/controller.go:104-153 | of every other error the text is stored as it is, and its kind alone decides whether it is a schema rejection, whether it is transient and when the pass comes back |
| Deletion.Terminating.HandleDynamo | providers/dynamo/controller.go:744-838 | effects, finalizer and next pass for every combination of answers |
| Deletion.Terminating.HandleKubeRay | providers/kuberay/controller.go:531-601 | the same for KubeRay |
| Deletion.Terminating.HandleKaito | providers/kaito/controller.go:884-966 | the same for KAITO |
| Deletion.Terminating.HandleLlmd | providers/llmd/controller.go:599-676 | the same for llm-d |
| Deletion.Terminating.HandleVllm | providers/vllm/controller.go:651-732 | the same for vLLM, which looks at the timeout before it deletes |
| Deletion.DynamoRemovalIsJustified | providers/dynamo/controller.go:744-838 | the finalizer is given up if and only if the object is not owned, or gone with both cleanups done in the same pass, or time is up and no Delete was just accepted |
| Deletion.DynamoStorageOutlivesUpstream | providers/dynamo/controller.go:805-835 | Jobs and PVCs are deleted exactly in passes that found the upstream object or its type gone |
| Deletion.DynamoFinalizerNeverDropsUnjustified | providers/dynamo/controller.go:744-838 | in every run that ends without the finalizer some pass saw one of the justifications |
| Deletion.EffectsExactly | providers/vllm/controller.go:651-732 | every provider: the object is deleted exactly when it is found owned (at vLLM until the timeout), Jobs and PVCs exactly when Dynamo finds nothing, and removal is asked for last |
| Deletion.NextPassExactly | providers/dynamo/controller.go:744-838 | every provider: a pass is the last one exactly when its request for removal is accepted; which others report an error, and when the rest come back |
| Deletion.TimeoutIsFiveMinutes | providers/llmd/controller.go:630-643 | a refused Delete is given up after 300 seconds and not before |
| Deletion.RemovalExactly | providers/llmd/controller.go:599-676 | every provider, before and after the timeout: exactly when a pass asks for the removal of the finalizer |
| Deletion.TimeoutFreesExactly | providers/kuberay/controller.go:531-601 | every provider: the answers on which a pass after the timeout asks for removal, and no others |
| Deletion.GoneDuringDelete | providers/kuberay/controller.go:569-594 | every provider, when a Delete finds nothing: exactly when the pass asks for removal, and whether it finishes, fails or when it comes back otherwise |
| Deletion.FinalizerStaysExactly | providers/kaito/controller.go:884-966 | every provider: which runs of passes, however long, keep the finalizer |
| Deletion.CanTerminateForever | providers/dynamo/controller.go:776-800 | at every provider but vLLM a deletion whose object stays while its Deletes are accepted never ends |
| Deletion.VllmRemovalIsJustified | providers/vllm/controller.go:676-731 | vLLM asks for removal if and only if the Deployment is gone, not owned, or still there after the timeout |
| Deletion.TimePassesUntilRemoval | providers/vllm/controller.go:676-731 | as long as removal is not asked for, each pass whose Get is answered brings the timeout at least five seconds closer |
| Deletion.VllmDeletionEnds | providers/vllm/controller.go:676-731 | whatever Delete answers, and however many Gets fail in between, one of the first 62 passes whose Get is answered asks for removal |
| Images.ParseReadsBackExactly | providers/vllm/controller.go:913-934 | printing and parsing an image reference is the identity if and only if repository and tag are readable: no '@', no ':' or '/' in the tag, and without a tag no ':' after the last '/' |
| Images.PartsIgnoreOuterSpace | providers/vllm/controller.go:913-918 | white space around a reference does not matter to its parts |
| Images.ImageState.SetImageResolutionStatus | providers/vllm/controller.go:742-820 | the stored image status, and whether the pass fails, for every stored status and resolver answer |
| Images.OverrideIsRenderedAsGiven | providers/vllm/transformer.go:803-813 | an override is rendered as given and never fails a pass |
| Images.UntaggedOrPinnedIsItsOwnAnswer | providers/vllm/controller.go:803-805 | a reference without a tag or with a digest is its own answer, whatever is stored or answered |
| Images.TaggedReferenceIsResolved | providers/vllm/controller.go:774-802 | a reported digest is stored behind the repository; without one the reference stays unresolved, and only the default image fails the pass |
| Images.StoredDigestIsReused | providers/vllm/controller.go:822-839 | a digest stored for this reference is taken over, whatever the registry answers |
| Images.DigestIsNotCarriedOver | providers/vllm/controller.go:822-839 | a digest stored for another reference has no influence |
| Images.RemoteAnswerNamesDigest | providers/vllm/image_resolver.go:47-94 | whatever the resolver answers names a digest |
| Images.PinnedForGood | providers/vllm/controller.go:742-839 | once a digest of the default image is stored, every later pass without an override renders and keeps that digest, whatever the registry answers |
| Images.ResolutionNamesDigest | providers/vllm/controller.go:742-839 | a pass without an override that does not fail stores a reference with a digest |
| Images.BareDefaultIsNeverRendered | providers/vllm/transformer.go:803-813 | from a new deployment on, with overrides coming and going, no pass without an override renders the bare default tag |
| Images.ShippedVersionIsValid | providers/vllm/transformer.go:68 | the version built in meets what the two results above ask of a version |
| VllmArgs.ValidateReserved | providers/vllm/transformer.go:510-525 | for every order in which the range visits the map: the first reserved key of that order, or else the first raw token that sets host or port |
| VllmArgs.CollectExplicit | providers/vllm/transformer.go:417-425 | the loops collect the keys of the map and of all tokens that set a flag |
| VllmArgs.AppendArgs | providers/vllm/transformer.go:486-501 | the first invalid key, or all flags of the map in sorted order |
| VllmArgs.BuildVllmArgs | providers/vllm/transformer.go:393-508 | the command line or the error, for every order in which the range visits the map |
| VllmArgs.SuccessIsSettled | providers/vllm/transformer.go:393-508 | the builder succeeds if and only if no key or token is reserved, invalid or set twice, and then with one command line, whatever the order |
| VllmArgs.SetTwiceExactly | controller/api/v1alpha1/modeldeployment_validation.go:51-69 | a raw token is refused for setting a key of the map exactly when the keys of map and tokens overlap |
| VllmArgs.AnyReservedKeyMayBeNamed | providers/vllm/transformer.go:510-515 | every reserved map key is the one named for some order |
| VllmArgs.AnswersAgreeExactly | providers/vllm/transformer.go:393-525 | the whole answer is the same for all orders if and only if at most one map key is reserved |
| VllmFlagCounts.EachDerivedFlagOnce | providers/vllm/transformer.go:417-483 | a flag is derived exactly once if the spec asks for it and the user has not set it, and not at all otherwise, the two prefix-caching flags counted as one; a KV-transfer flag does not yield |
| VllmFlagCounts.EachMapKeyOnce | providers/vllm/transformer.go:486-501 | every key of the map that is not skipped becomes a flag exactly once |
| VllmFlagCounts.FlagTokenReadsBack | providers/vllm/transformer.go:547-564 | the token printed for a valid key reads back as that key |
| VllmFlagCounts.NamingOnTheLine | providers/vllm/transformer.go:431-505 | how often a command line sets any flag: derived copies, the map's, the raw tokens', and values that read like it |
| VllmFlagCounts.HostAndPortOnce | providers/vllm/transformer.go:431-432 | on the whole command line host and port are each set once, values that happen to read like the flag aside |
| CommandLines.FlagsReadBack | providers/vllm/transformer.go:431-501 | printed flags read back, keys and values, unless a value looks like a flag |
| CommandLines.DerivedExactly | providers/vllm/transformer.go:431-483 | the derived flags and their values are exactly what the spec asks for and the user does not set |
| CommandLines.MapFlagsExactly | providers/vllm/transformer.go:486-501 | the flags of the map and their values, in sorted order |
| CommandLines.VllmLineReadsBack | providers/vllm/transformer.go:431-507 | the command line reads back as derived flags, then the map's, and ends with the user's raw tokens |
| CommandLines.ErrorsInOrder | providers/vllm/transformer.go:393-525 | the order of the four errors, each naming the first of its kind |
| CommandLines.InlineValueSetsTheKey | providers/vllm/transformer.go:547-564 | a flag with an inline value sets its key, whatever the value; a token without two dashes sets nothing |
| CommandLines.ReservedExactly | providers/vllm/transformer.go:527-545 | host and port are reserved bare, as a flag and with an inline value; no other valid key is |
| CommandLines.ReservedTokensExactly | providers/vllm/transformer.go:517-522 | the same for raw tokens |
| CommandLines.StructuredExactly | providers/dynamo/transformer.go:797-857 | Dynamo's derived flags and their values for each engine |
| CommandLines.DynamoLineReadsBack | providers/dynamo/transformer.go:797-886 | Dynamo's command line reads back in the same way |
| DynamoArgs.BuildEngineArgs | providers/dynamo/transformer.go:797-886 | the arguments or the first invalid key, independent of the map's order; "connector" in the map is not passed on to vLLM |
| DynamoArgs.SucceedsExactly | providers/dynamo/transformer.go:858-883 | the arguments are built if and only if every key of the map is valid |
| DynamoArgs.FlagsRepeatExactly | providers/dynamo/transformer.go:797-880 | for every name: one copy if the spec asks for that flag plus one if the map holds it, "connector" for vLLM excepted |
| DynamoArgs.FlagsOnTheLine | providers/dynamo/transformer.go:797-886 | for every name: how often the finished command line sets it, raw tokens included |
| Storage.Validate | backend/src/routes/deployments.ts:184-367 | the issues raised are exactly those that hold of the list, so none is raised exactly for accepted lists |
| Storage.CheckVolume | backend/src/routes/deployments.ts:252-350 | for one volume each issue is raised exactly when its rule is broken |
| Storage.AcceptedIffNothingBreaks | backend/src/routes/deployments.ts:184-367 | a list meets all rules if and only if there is no issue to raise about it |
| Storage.DefaultedListIsAccepted | backend/src/routes/deployments.ts:1104-1131 | an accepted list stays accepted under the preview's defaults, and then all mount paths are absolute, outside system paths and pairwise distinct, and all claim names non-empty and pairwise distinct |
| Storage.DefaultingIsIdempotent | backend/src/routes/deployments.ts:1104-1131 | defaulting twice is defaulting once |
| Storage.DefaultsExactly | backend/src/routes/deployments.ts:1104-1131 | each default that is filled in, and that given values and all other fields stay |
| Storage.SystemPathsExactly | backend/src/routes/deployments.ts:80 | the system paths and everything below them, but not their namesakes |
| Storage.ClaimNamesFit | backend/src/routes/deployments.ts:339-349 | a generated claim name is accepted if and only if it has at most 253 characters |
| Retry.WithRetry | backend/src/lib/retry.ts:78-131 | at most maxRetries + 1 calls, up to the first outcome that ends the loop, one sleep fewer than calls, the length of each sleep, and the outcome of the last call for the caller |
| Retry.BackoffBounds | backend/src/lib/retry.ts:125-126 | one backoff step keeps the delay between the slow and the fast exponential, both capped |
| Retry.DelayBounds | backend/src/lib/retry.ts:91-128 | for every jitter sequence and every factor that is not negative, each sleep lies between the capped exponentials of 0.85 and 1.15 times the factor |
| Retry.DoublingDelayBounds | backend/src/lib/retry.ts:91-128 | with factor 2 the i-th sleep lies between min(initial·1.7^i, max) and min(initial·2.3^i, max) |
| Retry.DelayIsCappedProduct | backend/src/lib/retry.ts:91-128 | as long as no factor times jitter shrinks a delay, the i-th delay is in closed form the capped product of them |
| Retry.DoublingDelayIsCappedProduct | backend/src/lib/retry.ts:91-128 | with factor 2 this holds for every jitter sequence |
| FrontendService.ParseReadsBackExactly | shared/types/deployment.ts:343-379 | printing and parsing a service reference is the identity if and only if the name has no ':' |
| FrontendService.ReprintingIsStable | shared/types/deployment.ts:343-379 | a parsed reference survives printing and parsing, for every input |
| FrontendService.ParseExactly | shared/types/deployment.ts:357-379 | what parsing makes of every text |
| FrontendService.ParseIntExactly | shared/types/deployment.ts:370 | white space, a sign and leading digits count, the rest is ignored, and without a digit there is no port |

## Left out

- HistoryIndependence: operator writes that touch keys a desired object names, or that turn a section into something
  other than a map, are outside the runs considered; a read that fails leaves everything as it was (`CreateOrUpdate`).
- QuietAfterWrite: asks for a rendered object whose sections are maps or absent; anything else is the `UnreadableField`
  outcome.
- WritesLandWhereVerified: covers Create and Update of Dynamo and KubeRay; KAITO, vLLM and llm-d send no resource
  version and deletes carry no precondition, so nothing of the kind holds for them.
- DynamoFinalizerNeverDropsUnjustified: the reconcile code before the Get (finalizer absent, Terminating phase update)
  is not part of it.
- ReadyIsTrustworthyAlways: Dynamo is not included: its storage branches set Pending and leave Ready alone.
- RefusalsSettleAtOnce: covers all of llm-d's status and of vLLM's the part modelled here, without its image messages and
  conditions; for KubeRay, KAITO and Dynamo the raw error text is stored, so only
  `RepeatedRejectionRewritesExactly` holds of them.
- BareDefaultIsNeverRendered: an image set through `provider.overrides` is not considered, and a status written by
  something other than this provider is not either.
- ReprintingIsStable: ports are exact integers, not IEEE doubles; white space is that of Latin-1.
- JSON text and kinds of numbers: scalars are opaque values with equality, and encoding and decoding are inverse.
- The library diff behind a merge patch: an accepted patch stores the intended object, with null-free desired values.
- Update of nested maps in place: maps are values, a nested merge works on an object of its own and is put back, so
  aliasing between an input and the result is not captured.
- `ToLower` covers ASCII, which is all the root keys it is compared with contain.
- The wording of status messages is shortened, and error classes (conflict, transient, unknown field) are given
  abstractly; the typed-patch wrapper texts, which the code matches, are kept.
- SetImageResolutionStatus: states the image reference, its parts, the digest and whether the pass fails; the age, check
  time, source, conditions, messages and recipe provenance stored beside them are not modelled.
- DelayBounds: an initial delay above the cap is outside it: the first sleep is not cut off.
- Prefill resources in vLLM and llm-d deletion, pausing, adding the finalizer, events, watches and predicates.
- The llm-d copy of the argument builder, which is the vLLM one without the reserved-flag check.
- Rendering of workers, probes, tolerations, volumes and services field by field: nothing hard to prove.
- PVC and download-job handling beyond its success or failure, installation metadata, provider config, HTTP routing,
  authentication, cost lookup and the user interface.
- The regular expressions of the storage schema (names, quantities) and its limit of eight volumes.
