# A verified model of FluxFast

FluxFast keeps a browser page in step with its server: it compiles JSON Schema contracts into
validation plans and evaluates them under limits, and its client router lets navigations, loads,
prefetches, mutations and live events race for the same resources. This project models the parts
where that is hardest to get right and proves what they promise.

* **Validation.** `Json`, `JsonSchema` (the schema's own meaning), `ValidationPlan` (the meaning of
  a plan), `References`, `ValidatorCompiler`, `SupportedSchemas` (what compiles) and
  `CompilerCorrectness` (the compiler preserves meaning), `LeastFixedPoint` (the reference guard
  computes the least fixed point of recursive definitions), `RankedReferences` (where guard and
  unrolling agree even with `oneOf`), `EvaluationSpend`, `EvaluationWalk`, `NestingDepth` and
  `DepthLimits` (how deep an accepted value nests), `LooseReading`, `OneOfLimits`, `Evaluator` and
  `Validate` (the limited evaluator against the unlimited one), `PlanGraph` and `PlanBounds` (the
  bounds check of plans).
* **Client router.** `ResourceEpochs` (the bounded epoch map refines an unbounded history),
  `RecentEpochs` (which keys it knows exactly), `Recency` and `ResourceStore` (records in order of
  use), `StoreEffects`, `PageEffects`, `SweepEffects` and `StoreWrites` (what the store shows after an
  operation), `RouterProtocol` and `Router` (one method per stretch of code between two awaits),
  `RouterRuns` (every script of steps), `PageCache` and `PageCacheRuns`.
* **Live updates.** `EventFraming`, `SseParser` and `SseStandard` (the event stream does not depend
  on how the network cuts it, and where it is the standard's), `LiveManager` (connection, timer, network
  and generations).
* **Type generation.** `RenderedTypes`, `UnknownAnalysis` and `UnknownDefinitions` (which generated
  types contain `unknown`), `TypeSoundness` (generated types hold the instances of their
  schemas) and `TypeMeaning` (what they hold, keyword by keyword).

Responses, the network and what the host platform supplies (regular expressions, string formats,
decimal divisibility, URI decoding, payload decoding, patches) are arguments about which nothing is
assumed. Listeners are taken not to call back into the object that notifies them.

Seven findings are stated as theorems, each with its input and the condition under which the code does
meet the property.

* A definition called `#` is taken for the root. This is the only confusion of references: they are
  safe in every contract if and only if none of them decodes to `#` (`HashNameIsConfused`,
  `SafeReferences`). Such a reference compiles even where no definition has that name
  (`SupportedSchemas.Resolvable`).
* A `oneOf` may wrongly accept when operations or depth run out (`OneOfBeyondOperations`,
  `OneOfBeyondDepth`). For simple branches `OneOfWronglyAccepted` says exactly when; for branches of
  any kind some limit on operations does it if and only if two of them hold (`SomeLimitIsWrong`).
* With `oneOf`, recursive definitions need not have a verdict that unrolling settles on
  (`LiarAlternates`). They do where no chain of references returns to a name on the same value, and
  then it is the evaluator's (`GuardIsLongUnrolling`).
* The event parser is independent of chunking exactly for texts whose frames leave room for all but
  the last character of their separator (`ExactlyWhenRoomy`). Within the limit but without that room
  (`FullFrameIsNotRoomy`), a frame that parses when it arrives at once fails when it arrives one
  character at a time.
* The event parser merges events that the standard keeps apart (`BlurredExample`), exactly where lines
  are parted by line ends of mixed kind that form no separator (`FramesFollowStandard`). It also reads
  what a stream leaves unfinished at its end as a last event, which the standard discards.
* A generated type need not hold every valid instance: a record without properties or further keys is
  rendered as one without any keys (`OpenRecordIsRefused`), and a tuple asks for items that its schema
  leaves optional (`ShortArrayIsRefused`). `TypesAreSound` says where types are sound, and `ShapeIsExact`
  that nothing less will do.
* An explicit `connect()` loses a pending resync exactly when the manager is offline, the network is
  up and the transport opens (`LiveManager.Connect`, `LostResync`).

Run `dafny verify dfyconfig.toml` to check everything.

## Model

| member | source | states |
|---|---|---|
| `References.UnescapeIsPointerDecode` | packages/codegen/src/validator-compiler.ts:606-654 | the two replacement passes over a reference token (`~1`, then `~0`) compute the left-to-right decoding of section 4 of RFC 6901, for every token |
| `References.EncodeRoundTrip` | packages/codegen/src/validator-compiler.ts:606-654 | decoding the RFC 6901 encoding of any name gives the name back |
| `References.LookupIsExact` | packages/core/src/validation/plan.ts:1002-1014 | for every reference the compiler accepts, the evaluator looks up the name the compiler decoded; `#` alone points to the root and every other reference to the definition of its name |
| `References.DecodeMeans` | packages/codegen/src/validator-compiler.ts:606-654 | a reference decodes to a name if and only if it points to it, by a definition of pointing that does not decode: behind one of the two prefixes stands a single token that spells the name |
| `SupportedSchemas.CompilesIfSupported` | packages/codegen/src/validator-compiler.ts:606-1127 | a contract compiles if and only if it is supported, by a condition on its schemas alone: references point to the root or to a definition, lists that must not be empty are not, a keyword for one type stands beside a type, bounds do not cross, types, formats and patterns are among those allowed, `required` has no duplicates |
| `CompilerCorrectness.CompilePreserves` | packages/codegen/src/validator-compiler.ts:822-1127 | for every schema node the compiler accepts, every instance and every way of unrolling references, the compiled plan holds exactly when the schema's own semantics (JSON Schema Core 10.2.1, 10.3.1, 10.3.2 and Validation 6) does |
| `CompilerCorrectness.ReferencePreserved` | packages/codegen/src/validator-compiler.ts:827-840 | a `$ref` beside other keywords becomes one conjunct with the meaning of its target |
| `CompilerCorrectness.ApplicatorsPreserved` | packages/codegen/src/validator-compiler.ts:852-881 | `anyOf`, `oneOf` and `allOf` keep "some", "exactly one" and "all" |
| `CompilerCorrectness.TypePartPreserved` | packages/codegen/src/validator-compiler.ts:883-946 | a type list becomes a union in which each type keeps only its own keywords, and together they mean what the keywords mean apart |
| `CompilerCorrectness.ArrayPreserved` | packages/codegen/src/validator-compiler.ts:1051-1075 | `prefixItems` before `items`, with the length bounds |
| `CompilerCorrectness.ObjectPreserved` | packages/codegen/src/validator-compiler.ts:1077-1127 | `properties`, `required`, and `additionalProperties` for exactly the undeclared keys |
| `CompilerCorrectness.ContractPreserved` | packages/codegen/src/validator-compiler.ts:779-820 | the document compiled from a contract with its definitions accepts exactly the instances of the contract, when no reference decodes to `#` |
| `CompilerCorrectness.HashNameIsConfused` | packages/codegen/src/validator-compiler.ts:827-840 | for every reference other than `#` that decodes to `#`: the contract that is this reference to a definition `true` compiles, its schema accepts every instance and the evaluator rejects all of them |
| `CompilerCorrectness.SafeReferences` | packages/core/src/validation/plan.ts:1002-1014 | exactly which references are safe: the evaluator agrees with the schema on every contract that uses references from a set, and every instance, if and only if none of the set is mistaken for the root |
| `LeastFixedPoint.GuardIsFiniteUnrolling` | packages/core/src/validation/plan.ts:1446-1476 | without `oneOf`, the evaluator with its reference guard accepts exactly what some finite unrolling of the definitions accepts |
| `LeastFixedPoint.VerdictsAreFixedPoint` | packages/core/src/validation/plan.ts:1446-1476 | the guard's verdicts on the definitions are a fixed point of the operator that the document denotes |
| `LeastFixedPoint.VerdictsAreLeast` | packages/core/src/validation/plan.ts:1446-1476 | and the least one: they are below every interpretation closed under the definitions |
| `LeastFixedPoint.FuelGrows` | packages/core/src/validation/plan.ts:1446-1476 | without `oneOf`, more unrolling never turns an acceptance into a rejection |
| `RankedReferences.GuardIsLongUnrolling` | packages/core/src/validation/plan.ts:1446-1476 | with `oneOf`: where no chain of references returns to a name on the same value, the evaluator accepts exactly what every unrolling accepts that is long enough |
| `RankedReferences.LiarAlternates` | packages/core/src/validation/plan.ts:1398-1476 | without that condition: a document that is exactly one of itself and `true` is accepted by every other unrolling |
| `RankedReferences.LiarIsRejected` | packages/core/src/validation/plan.ts:1398-1476 | and the evaluator's guard rejects it |
| `Evaluator.IssueCollector.Add` | packages/core/src/validation/plan.ts:696-705 | an issue is appended unless the collector is full |
| `Evaluator.EvaluationState.ConsumeOperation` | packages/core/src/validation/plan.ts:765-782 | one operation is taken unless the limit is reached; a refusal takes none and adds one issue to the primary collector if it is the first and there is room, and none otherwise |
| `Evaluator.EvaluationState.ReadKeys` | packages/core/src/validation/plan.ts:860-895 | reading keys costs one operation and one more per key, and succeeds if and only if both limits allow it |
| `Evaluator.EvaluationState.DeepEqual` | packages/core/src/validation/plan.ts:897-1000 | the explicit-stack comparison decides structural equality and takes exactly the operations of a comparison in order up to the first difference; a cut-off comparison never says "equal" wrongly |
| `Evaluator.EvaluationState.Evaluate` | packages/core/src/validation/plan.ts:1478-1545 | unless a limit was hit, the verdict is the unlimited one and exactly `Spend` operations are taken; where nothing to check lies too deep or is too wide a limit is hit exactly if the operations do not cover `Spend`; whatever the limits, an acceptance passes: it is right with each `oneOf` read as `anyOf`, and everything it rests on lies within the limit on depth, each step down counting one; for simple plans and unions of them the verdict is given for every limit on operations and depth; a rejection is explained by an issue; collector, reference stack and active values are restored |
| `Evaluator.EvaluationState.EvaluateReference` | packages/core/src/validation/plan.ts:1446-1476 | follows a name at most once per value, with the same guarantees, its target one step deeper |
| `Evaluator.EvaluationState.EvaluateUnion` | packages/core/src/validation/plan.ts:1398-1426 | some branch, or exactly one for `oneOf`, with private collectors; an acceptance has a branch that passes one step deeper; when the operations run out, the verdict of the branches paid for in full, or of one more if the next one had two operations or more |
| `Evaluator.EvaluationState.CountMatches` | packages/core/src/validation/plan.ts:1403-1418 | the branches one by one: each that is reached has its unlimited verdict and cost unless a limit was hit, and the loop ends after the last branch or when no operation is left |
| `Evaluator.EvaluationState.EvaluateIntersection` | packages/core/src/validation/plan.ts:1428-1444 | the conjunction of all branches, each one step deeper, with the same guarantees as `Evaluate` |
| `Evaluator.EvaluationState.EvaluateArray` | packages/core/src/validation/plan.ts:1265-1330 | length bounds, prefix and rest items, each item one step deeper |
| `Evaluator.EvaluationState.EvaluateTuple` | packages/core/src/validation/plan.ts:1332-1396 | members, missing members and the rest, each one step deeper |
| `Evaluator.EvaluationState.EvaluateObject` | packages/core/src/validation/plan.ts:1172-1263 | required keys, declared and additional properties, each value one step deeper |
| `Evaluator.EvaluationState.EvaluateString` | packages/core/src/validation/plan.ts:1125-1170 | length, pattern and format, at one operation per character |
| `Evaluator.EvaluationState.EvaluateNumber` | packages/core/src/validation/plan.ts:1073-1123 | type and range |
| `Evaluator.EvaluationState.EnterValue` | packages/core/src/validation/plan.ts:797-808 | a value is entered unless it is being walked already |
| `Validate.ValidateWithPlan` | packages/core/src/validation/plan.ts:1548-1577 | a rejection carries between one and `maxIssues` issues; without hitting a limit the verdict is the unlimited one, and where nothing to check lies too deep or is too wide a limit is hit exactly if the operations do not cover the evaluation. Nesting bounds acceptance: for every plan and all limits, an accepted value has no chain of steps without a choice that leads to something to check more than `maxDepth` steps down; without unions no chain at all, and with enough operations and width the accepted values are exactly those that hold and do not nest too deep. An acceptance is right with each `oneOf` read as `anyOf`; without `oneOf` it never depends on the limits; for a root `oneOf` of `oneOf`-free branches some branch holds whenever it accepts |
| `DepthLimits.PassesAlong` | packages/core/src/validation/plan.ts:1172-1545 | along every chain of steps through items, members, properties, additional properties, conjuncts and references, what passes at one end passes at the other, as many steps deeper; no reference on such a chain is refused |
| `DepthLimits.PassesNear` | packages/core/src/validation/plan.ts:1490-1493 | so nothing to check at the end of such a chain lies beyond the limit on depth |
| `DepthLimits.PlainlyIsNear` | packages/core/src/validation/plan.ts:1490-1493 | in a document without unions these are all the chains there are |
| `DepthLimits.PassesLoosely` | packages/core/src/validation/plan.ts:1478-1545 | a limit on depth only ever refuses: what passes holds without limits, with each `oneOf` read as `anyOf` |
| `Validate.ValidateInstance` | packages/core/src/validation/plan.ts:1550-1577 | compiler and evaluator together: a contract compiles if and only if it is supported; without hitting a limit the verdict is the schema's own; without `oneOf` this is the verdict of the unrolled schema, with no guard, and every acceptance is right, whatever the limits |
| `Validate.RankedContract` | packages/core/src/validation/plan.ts:1446-1470 | where no chain of references returns to a name on the same value, the schema's guarded verdict is that of every unrolling that is long enough, `oneOf` included |
| `Validate.OneOfBeyondOperations` | packages/core/src/validation/plan.ts:1405-1416 | an input for which the limit on operations makes the evaluator accept wrongly: `oneOf` of two branches that accept everything, with three operations |
| `Validate.OneOfBeyondDepth` | packages/core/src/validation/plan.ts:1490-1493 | an input for which the limit on depth does: `oneOf` of `true` and `any` with no depth to spare |
| `OneOfLimits.OneOfWronglyAccepted` | packages/core/src/validation/plan.ts:1404-1417 | for a `oneOf` of simple branches under any limits on operations and depth, the exact condition for a wrong acceptance: one branch accepts alone among those reached, and another holds that is not reached or lies too deep |
| `OneOfLimits.OperationsBetween` | packages/core/src/validation/plan.ts:1405-1415 | within the limit on depth: the operations reach the first branch that holds and not the second, 2(i + 1) <= operations - 1 < 2(j + 1) |
| `OneOfLimits.SomeLimitIsWrong` | packages/core/src/validation/plan.ts:1406-1414 | for branches of any kind: some number of operations counts one match where the verdict is another, if and only if at least two branches hold |
| `Validate.AcceptsWrongly` | packages/core/src/validation/plan.ts:1404-1414 | with that number of operations the validator accepts, wrongly |
| `PlanBounds.AssertPlanBounds` | packages/core/src/validation/plan.ts:146-282 | every verdict is justified by what can be reached from root and definitions. Accepted: no cycle, at most 10000 children a node, leaves admissible, at most 100000 values in all, and a chain of depth at most 64 to every node. Rejected: a cycle, a chain deeper than 64, a node with too many children, nodes with too many values, or a leaf that is too long, not finite or not JSON, as the verdict says |
| `PlanBounds.UnsharedIsShallow` | packages/core/src/validation/plan.ts:180-210 | in an accepted plan without shared nodes no chain is deeper than 64 |
| `PlanBounds.AcceptableYetDeep` | packages/core/src/validation/plan.ts:180-211 | a graph with a shared node that has all that an accepted plan must have, and a chain of 120 nodes |
| `PlanGraph.NoCycle` | packages/core/src/validation/plan.ts:146-282 | a duplicate-free list of nodes, children before parents, that covers the roots excludes every reachable cycle |
| `PlanGraph.MetAgain` | packages/core/src/validation/plan.ts:204-208 | a node met again while its exit frame is on the stack lies on a reachable cycle, which is returned |
| `PlanGraph.ReachedIsFine` | packages/core/src/validation/plan.ts:146-282 | and every reachable node has at most 10000 children and holds only admissible values |
| `PlanBounds.Enters` | packages/core/src/validation/plan.ts:209-280 | pushing the exit frame and the children keeps all that is owed on the stack |
| `PlanBounds.Leaves` | packages/core/src/validation/plan.ts:160-163 | popping an exit frame: all children are cleared, so the node may be listed as done |
| `ResourceEpochs.RefinesMeans` | packages/core/src/resource-epochs.ts:20-26 | a reader of the bounded map sees an epoch and an authority at least as large as the exact ones, and exactly those unless the result is flagged conservative |
| `ResourceEpochs.BumpRefines` | packages/core/src/resource-epochs.ts:28-41 | one bump, eviction included, keeps the bounded map a refinement of the unbounded history |
| `ResourceEpochs.RunsRefine` | packages/core/src/resource-epochs.ts:16-48 | the same for every run of authoritative and speculative bumps since a clear |
| `ResourceEpochs.EpochGrows` | packages/core/src/resource-epochs.ts:16-48 | the epoch read for a key never goes down between two clears |
| `ResourceEpochs.SameEpochMeansUntouched` | packages/core/src/resource-epochs.ts:16-48 | whoever still reads an old epoch knows that no run since has bumped the key, even where the entry was evicted and only the watermark is compared |
| `ResourceEpochs.SpeculationNeverVetoes` | packages/core/src/router.ts:1307-1318 | any number of speculative bumps, with any evictions, raises no authority above the epoch at which they began |
| `RecentEpochs.RecentAreExact` | packages/core/src/resource-epochs.ts:28-41 | after the last bump of a key, as long as fewer than 1024 other keys were bumped since, it reads the epoch of that bump, with its authority and unflagged if the bump had authority; from the 1024th on every reading is flagged |
| `RecentEpochs.OrderBehind` | packages/core/src/resource-epochs.ts:28-41 | a use of another key drops a key exactly when it was the oldest of a full list |
| `ResourceEpochs.ResourceEpochMap.Lookup` | packages/core/src/resource-epochs.ts:20-26 | entry, watermark or nothing, as the specification says |
| `ResourceEpochs.ResourceEpochMap.Store` | packages/core/src/resource-epochs.ts:28-41 | re-inserts as newest and evicts the oldest into the watermarks |
| `ResourceEpochs.ResourceEpochMap.Advance` | packages/core/src/router.ts:1307-1318 | one bump of the map is one step of the ledger that pairs it with the unbounded history |
| `ResourceEpochs.ResourceEpochMap.Clear` | packages/core/src/resource-epochs.ts:43-47 | forgets entries and watermarks, while the counter goes on |
| `ResourceStore.ResourceStore.Set` | packages/core/src/store.ts:159-188 | unless the same version is fresh, ready and free of errors, the record is replaced; the key becomes the most recent and survives eviction, other keys that survive are as they were |
| `ResourceStore.ResourceStore.Patch` | packages/core/src/store.ts:260-284 | a held value is replaced and counts as stale |
| `ResourceStore.ResourceStore.Mark` | packages/core/src/store.ts:208-236 | pending, loading and error states keep the data and make it stale |
| `ResourceStore.ResourceStore.MarkPending` | packages/core/src/store.ts:208-216 | every listed key that survives is pending, with the data it had as stale; no other key changes |
| `ResourceStore.ResourceStore.SetResourceError` | packages/core/src/store.ts:230-236 | the error shows beside the data that is held |
| `ResourceStore.ResourceStore.ClearResourceError` | packages/core/src/store.ts:239-255 | the error is gone; the status follows from whether a record is held |
| `ResourceStore.ResourceStore.Invalidate` | packages/core/src/store.ts:289-298 | nothing of the key is left; every other key is as it was |
| `ResourceStore.ResourceStore.MarkStale` | packages/core/src/store.ts:301-308 | a held record becomes stale and stays visible |
| `ResourceStore.ResourceStore.EvictIfNeeded` | packages/core/src/store.ts:441-452 | exactly the most recent `maxResources` keys survive, unchanged, and all invariants hold |
| `ResourceStore.ResourceStore.UpdateState` | packages/core/src/store.ts:357-406 | the snapshot is replaced, dropped or kept, and the recency list follows |
| `ResourceStore.ResourceStore.Sizes` | packages/core/src/store.ts:441-452 | both maps are within the bound of the recency list |
| `ResourceStore.ResourceStore.ExportKnownVersions` | packages/core/src/store.ts:321-336 | exactly the versions of fresh, versioned records among the most recent keys, at most 100 |
| `ResourceStore.ResourceStore.GetStateSnapshot` | packages/core/src/store.ts:118-123 | reading returns the snapshot and makes a held key the most recent |
| `Recency.TouchedAgain` | packages/core/src/store.ts:429-439 | touching a key twice, or again after an eviction, changes nothing |
| `Recency.DropsOldest` | packages/core/src/store.ts:441-452 | a use of a key drops at most the oldest of the others, and only from a full list that did not have the key |
| `StoreEffects.BroughtMore` | packages/core/src/store.ts:159-188 | one write more: the key shows what was done to it, a value, an error or a waiting state, and with room in the store no other key is lost |
| `StoreEffects.ShowsTwice` | packages/core/src/store.ts:159-236 | of two writes to a key the second settles the state it shows, and its record is one of those given |
| `Router.FluxRouter.BumpResourceEpoch` | packages/core/src/router.ts:1307-1318 | the key gets the next epoch; writes and loads in flight stay consistent with the epochs |
| `Router.FluxRouter.BeginLoad` | packages/core/src/router.ts:472-514 | each distinct non-empty key gets a new epoch with authority, which the load remembers; those keys show as loading beside the data they had as stale, the last one is listed, with room no key is lost and no other key changes; a live load is registered |
| `Router.FluxRouter.SettleLoad` | packages/core/src/router.ts:525-682 | writes exactly the keys that still read the captured epoch, and the store shows it: an answered value as a fresh, ready record of that version, an error beside the data held before, and after an abort or without an answer the record held before, or nothing. The last key given a value or an error is listed, with room no key is lost, and keys that were not settled are as they were; a superseded load changes nothing |
| `Router.FluxRouter.Restore` | packages/core/src/router.ts:574-599 | putting a key back keeps its record and sets its staleness |
| `Router.FluxRouter.AbortActiveDeferred` | packages/core/src/router.ts:1400-1432 | no deferred batch is left, its load has lost all its keys, and the records of the keys taken back are kept as stale |
| `Router.FluxRouter.RetireBatch` | packages/core/src/router.ts:1409-1425 | every key that the batch's load captured has moved on, with its record kept as stale if the batch still held it |
| `Router.FluxRouter.SupersedeLiveWork` | packages/core/src/router.ts:1277-1297 | no live load is left that still holds a key; the records of the keys taken back are kept as stale |
| `Router.FluxRouter.StartDeferredBatch` | packages/core/src/router.ts:1328-1398 | replaces the batch; its load is accounted for and its keys show as loading |
| `Router.FluxRouter.FinishDeferred` | packages/core/src/router.ts:1388-1396 | a batch is forgotten only by its own controller |
| `Router.FluxRouter.BeginVisit` | packages/core/src/router.ts:259-272 | a new visit calls off the deferred batch, the previous visit and, with live on, live loads |
| `Router.FluxRouter.ApplyPageEnvelope` | packages/core/src/router.ts:940-1010 | every write goes to a key without authority later than the visit's start, and every value, error and deferred key of the envelope for such a key is applied with a new epoch: the store shows values as fresh, errors beside a value, deferred keys as pending, and no other key changes except to make room in a full store |
| `Router.FluxRouter.SettleVisit` | packages/core/src/router.ts:331-343 | applies the envelope, and the store shows it, if the visit is still the current one; otherwise page, store, epochs and log are unchanged |
| `RouterProtocol.PrefetchesBlockNothing` | packages/core/src/router.ts:955-960 | if only prefetches completed since the visit began, everything in its envelope is applied |
| `Router.FluxRouter.SettlePrefetch` | packages/core/src/router.ts:714-748 | writes only keys that nothing touched since the start, and all of those, with speculative epochs alone, and the store shows their values; cacheable exactly if no key of the page was touched; from another generation it changes nothing |
| `Router.FluxRouter.SettleMutation` | packages/core/src/router.ts:796-842 | every key named moves, with authority, beyond all epochs given out so far and is patched, dropped or invalidated: the store shows, key by key, the patches in order and then the invalidations, and nothing else changes; a redirect is allowed exactly if no navigation began since; from another generation nothing changes |
| `RouterProtocol.SweptTwice` | packages/core/src/router.ts:796-842 | a sweep of patches followed by one of invalidations gives every key of both an epoch with authority and a write |
| `Router.FluxRouter.ApplyChange` | packages/core/src/router.ts:798-821 | a patch writes the new version of a held value, or drops the key; no other key changes |
| `Router.FluxRouter.Obsolete` | packages/core/src/router.ts:824-831 | an invalidated key in use is kept as stale, any other is dropped; no other key changes |
| `Router.FluxRouter.HandleLiveEvent` | packages/core/src/router.ts:1072-1151 | events of this client and unrelated ones change nothing; others move exactly the manifest's keys, with authority, and return them for a refresh; a patch never drops a key, an invalidation reaches every one, and the store shows exactly that |
| `Router.FluxRouter.RestoreCached` | packages/core/src/router.ts:191-228 | a cached page is a newer navigation: everything in flight is called off, and the pending keys of the page wait |
| `Router.FluxRouter.StopLive` | packages/core/src/router.ts:461-469 | no live load is left that still holds a key |
| `Router.FluxRouter.Clear` | packages/core/src/router.ts:899-915 | a new generation with an empty store and no epochs; nothing is in flight |
| `Router.FluxRouter.Destroy` | packages/core/src/router.ts:917-938 | a new generation in which nothing is in flight |
| `Router.FluxRouter.LoadsAge` | packages/core/src/router.ts:472-1010 | over any step, a started load stays known, a superseded one stays superseded, and a live or deferred one has ended, is superseded or can still be called off |
| `Router.FluxRouter.VisitsAge` | packages/core/src/router.ts:259-343 | a visit that lost its turn never gets it back |
| `RouterProtocol.AppendWrite` | packages/core/src/router.ts:472-1010 | a write in the name of an operation that made the last bump of the key keeps the writes of each key in issuing order |
| `RouterProtocol.StillCurrent` | packages/core/src/router.ts:529-531 | a key that reads its captured epoch, exactly or by watermark, was not touched by anyone else |
| `RouterProtocol.ForwardChain` | packages/core/src/router.ts:191-1432 | what each step guarantees composes over any sequence of steps |
| `RouterRuns.Session.EndLoad` | packages/core/src/router.ts:1277-1432 | in every state that any run can reach: all writes are by this load, to keys that nothing touched since and under the epochs it captured, and the store shows what the load's end prescribes for them; page and epochs stay; a live load after its work was superseded, a deferred load after its batch was aborted or replaced, and any load from before a clear end without changing log or store |
| `RouterRuns.Session.EndVisit` | packages/core/src/router.ts:331-340 | in every state that any run can reach, the end of a visit that is not the current one changes neither page, store, epochs nor log |
| `RouterRuns.Session.EndPrefetch` | packages/core/src/router.ts:714-749 | a prefetch gives speculative epochs alone, writes only keys that nothing touched since its start, which the store then shows, and leaves page and navigation as they were |
| `RouterRuns.Session.EndMutation` | packages/core/src/router.ts:796-843 | a mutation moves exactly the keys it names, with authority, and the store shows its patches and invalidations; one from another generation changes nothing |
| `RouterRuns.Session.NavigateAmidPrefetches` | packages/core/src/router.ts:259-343 | a navigation during which only prefetches complete, in any number: its page is shown, all values, errors and deferred keys of its envelope are applied and the store shows them |
| `RouterRuns.Session.StepLasts` | packages/core/src/router.ts:191-1432 | any one step keeps every load and visit ever started accounted for |
| `RouterRuns.Session.Run` | packages/core/src/router.ts:191-1432 | after every script of loads, batches, visits, prefetches, mutations, live events, restores, clears and destroys, with any answers in any order: each write carries the epoch of the operation that issued it, that of a load the epoch the load captured, and each key's writes are in this order; everything in flight is accounted for |
| `RouterRuns.NewSession` | packages/core/src/router.ts:96-190 | a router from nothing is a state in which every script can start |
| `PageCache.PageCache.Set` | packages/core/src/cache.ts:30-53 | the page is the most recent of at most `maxPages`, with the keys and versions given; other pages that survive are as they were; pending keys stay within owned ones |
| `PageCache.PageCache.GetValid` | packages/core/src/cache.ts:55-82 | a hit if and only if every owned key that is not pending is fresh at the recorded version or, without one, failed; a page that is not usable is dropped |
| `PageCache.PageCache.SettleResources` | packages/core/src/cache.ts:85-123 | the page becomes what settling its keys one by one gives, or is dropped |
| `PageCache.SettleAllMeans` | packages/core/src/cache.ts:93-114 | an owned key whose load ended is no longer pending and is kept; any other key is as it was |
| `PageCache.SettledOrGone` | packages/core/src/cache.ts:93-114 | the page is given up exactly when a settled key of its own is neither ready nor failed nor awaited |
| `PageCache.SettledIsUsable` | packages/core/src/cache.ts:55-123 | after settling, the page is usable exactly when the keys that were not settled are kept, and its pending keys are owned |
| `PageCache.PageCache.CachePageEnvelope` | packages/core/src/router.ts:1012-1056 | the page owns the keys listed for it, or all known keys where none are listed; the versions recorded are exactly those exported for owned keys; pending keys are the deferred ones that are owned |
| `PageCacheRuns.PageSession.Revisit` | packages/core/src/cache.ts:55-82 | in every state that any run can reach, a page that is found has, for each key that is not pending, the version held now, which is fresh and was the fresh one when this page was cached or settled, or a key that failed |
| `PageCacheRuns.PageSession.Run` | packages/core/src/cache.ts:30-123 | after every run of store writes, cached pages, settled loads and visits back, every version a page records was fresh when this page was cached or when its loads settled since, and no page waits for a key that is not its own |
| `PageCacheRuns.SettledIsHonest` | packages/core/src/cache.ts:85-123 | settling records only versions that are fresh at that moment and keeps the others |
| `EventFraming.FoundEarly` | packages/core/src/live/transport.ts:119-123 | a separator found in a prefix is the one found in the whole text |
| `EventFraming.DrainedInParts` | packages/core/src/live/transport.ts:117-127 | draining a prefix first, then the rest, gives the same frames |
| `EventFraming.ChunksDoNotMatter` | packages/core/src/live/transport.ts:103-147 | if every frame leaves room for its separator, any cut of the text into chunks gives the same events, or the same first error, as the whole text at once |
| `EventFraming.ExactlyWhenRoomy` | packages/core/src/live/transport.ts:103-147 | for a text that parses at once, the result is the same for all chunkings if and only if the text is roomy; otherwise it fails one character at a time |
| `SseParser.ParseFrame` | packages/core/src/live/transport.ts:71-100 | the loop over lines computes event name and data as specified |
| `SseStandard.FramesFollowStandard` | packages/core/src/live/transport.ts:117-137 | the frames of a text hold exactly the blocks of lines of section 9.2.6 of the WHATWG HTML Standard if and only if no two lines that are not blank are parted by line ends of mixed kind without a separator (LF CR, LF CR LF, CR LF CR, LF CR LF CR) |
| `SseStandard.FramesMerge` | packages/core/src/live/transport.ts:119-127 | otherwise blocks are merged: there are fewer |
| `SseStandard.BlurredExample` | packages/core/src/live/transport.ts:119-123 | an input: a line feed and a CR LF between two lines |
| `SseStandard.OneKindIsPure` | packages/core/src/live/transport.ts:119-124 | texts with line ends of a single kind are never affected |
| `SseStandard.BlockFollowsStandard` | packages/core/src/live/transport.ts:71-100 | a block yields an event exactly when the standard would dispatch one of this type with a payload that decodes, with the same payload; a block that is skipped is not dispatched |
| `SseStandard.StreamFollowsStandard` | packages/core/src/live/transport.ts:71-137 | over whole streams: the events of a text that the parser accepts are exactly those that the standard dispatches, line by line, for the text closed by a blank line |
| `SseParser.FluxSseParser.Push` | packages/core/src/live/transport.ts:107-110 | complete frames are taken off the buffer, and what remains fits |
| `SseParser.FluxSseParser.Finish` | packages/core/src/live/transport.ts:112-115 | the remaining text counts as a last frame |
| `SseParser.ReadAll` | packages/core/src/live/transport.ts:223-229 | reading a connection ends as the text as a whole does, however a roomy text is cut; what is yielded before a failure is exactly what `Handed` says |
| `EventFraming.HandedMeans` | packages/core/src/live/transport.ts:117-147 | before a failure, the events yielded are those of all frames completed by the chunks before the failing one |
| `EventFraming.CutDecides` | packages/core/src/live/transport.ts:117-137 | so the cut decides what is yielded before the same failure: two chunks yield the first one's events, the same text at once yields none |
| `SseParser.FullFrameIsNotRoomy` | packages/core/src/live/transport.ts:103-147 | a comment of the largest size allowed is a text that parses at once, is not roomy, and fails one character at a time |
| `LiveManager.LiveManager.UpdateManifest` | packages/core/src/live/manager.ts:201-225 | a different manifest starts a new generation: one connection if the network is up and the transport opens, a timer if it does not, offline without a network; the same manifest changes nothing |
| `LiveManager.LiveManager.Connect` | packages/core/src/live/manager.ts:228-237 | idempotent while a connection or timer exists; otherwise a connection, a timer or offline as network and transport say; a pending resync is lost if and only if the manager is offline, the network is up and the transport opens |
| `LiveManager.LiveManager.Disconnect` | packages/core/src/live/manager.ts:240-252 | no connection is open, no timer and no network subscription is held |
| `LiveManager.LiveManager.Reconnect` | packages/core/src/live/manager.ts:255-270 | a new generation, from which on a resync is owed: with a manifest, a connection whose attempt is the next one if the network is up and the transport opens, a timer if it does not, offline without a network |
| `LiveManager.LiveManager.Clear` | packages/core/src/live/manager.ts:273-282 | everything is given up, the manifest included |
| `LiveManager.LiveManager.StartConnection` | packages/core/src/live/manager.ts:303-367 | one open connection for a new generation, or a retry |
| `LiveManager.LiveManager.Arrive` | packages/core/src/live/manager.ts:369-407 | a superseded loop hands out nothing; a ready event after a loss of the stream is followed by a resync of every key of the manifest |
| `LiveManager.LiveManager.StreamStops` | packages/core/src/live/manager.ts:408-462 | an ended or failed stream of the current generation leads to a timer or to offline; of another one to nothing |
| `LiveManager.LiveManager.ScheduleReconnect` | packages/core/src/live/manager.ts:464-491 | a timer if online, offline otherwise |
| `LiveManager.LiveManager.TimerFires` | packages/core/src/live/manager.ts:482-490 | the retry keeps its attempt number, so a resync will follow |
| `LiveManager.LiveManager.GoesOnline` | packages/core/src/live/manager.ts:528-533 | a connection is tried at once, with a resync to follow |
| `LiveManager.LiveManager.GoesOffline` | packages/core/src/live/manager.ts:535-544 | the connection is closed in a new generation and the loss is remembered |
| `LiveManager.Step` | packages/core/src/live/manager.ts:201-544 | a loss of the stream is forgotten by exactly these inputs: the ready event that resynchronises, a connect from offline that opens, a manifest change unless its connection fails to open, a disconnect, a clear; events go out in the name of the current generation, and none for a superseded loop; no input during which the network is up leaves the manager newly offline |
| `LiveManager.LostResync` | packages/core/src/live/manager.ts:228-237 | a run that loses a resync: the stream ends while the network is down, the application connects when it is up, and the ready event is the last thing handed out |
| `LiveManager.Run` | packages/core/src/live/manager.ts:201-614 | after every run: at most one connection is open, all others are closed or ended, every event was handed out in the name of the loop it came from and in generation order, and while live is wanted exactly one of connection, timer and offline holds, and not offline where the network stayed up |
| `LiveManager.ReadyAfterLoss` | packages/core/src/live/manager.ts:369-544 | after a loss and any run of inputs that neither connect, replace nor give up, the next ready event of the connection is followed by a resync of every key |
| `UnknownAnalysis.UniteAgrees` | packages/codegen/src/schema-compiler.ts:340-344 | the analysis of a union agrees with the rendered union, with duplicates and `never` removed |
| `UnknownAnalysis.IntersectAgrees` | packages/codegen/src/schema-compiler.ts:346-353 | the analysis of an intersection agrees with the rendered one |
| `UnknownAnalysis.AnalysisAgrees` | packages/codegen/src/schema-compiler.ts:529-598 | for every schema, the analysis says unknown, never, contains-unknown and which references exactly as the rendered type does |
| `UnknownAnalysis.ObjectAgrees` | packages/codegen/src/schema-compiler.ts:428-479 | properties, and an index signature that becomes `unknown` beside named properties |
| `UnknownAnalysis.ArrayAgrees` | packages/codegen/src/schema-compiler.ts:481-512 | tuples with and without rest, and arrays |
| `TypeSoundness.TypesAreSound` | packages/codegen/src/schema-compiler.ts:428-598 | every instance that is valid against a schema inhabits the type rendered for it, whatever closed environment reads the names of definitions, for every way of unrolling references, where the schema can be put as a type: a record names a property or says what other keys hold, and the length bounds of an array with prefix items are those of its tuple |
| `TypeSoundness.ShapeIsExact` | packages/codegen/src/schema-compiler.ts:428-598 | of the schemas with a type keyword and its keywords alone, whose items are satisfiable, exactly those of this shape have a type that holds all their instances |
| `TypeMeaning.TypesMean` | packages/codegen/src/schema-compiler.ts:428-598 | for every schema and value, the value inhabits the rendered type if and only if it fits the schema as far as types can tell, read off the keywords: bounds, patterns and formats dropped, an integer a number, `oneOf` as `anyOf`, tuples of their length, records without properties or further keys empty, no demand on other keys where properties are named |
| `TypeMeaning.NeverMeans` | packages/codegen/src/schema-compiler.ts:346-353 | a schema is rendered as `never` exactly if it is `false` or, not nullable, has a conjunct that is |
| `TypeSoundness.OpenRecordIsRefused` | packages/codegen/src/schema-compiler.ts:471-473 | an input: `{type: object}` accepts `{a: null}`, and its type is a record without keys |
| `TypeSoundness.ShortArrayIsRefused` | packages/codegen/src/schema-compiler.ts:486-494 | an input: an array with one prefix item accepts `[]`, and its tuple does not |
| `TypeSoundness.ObjectHolds` | packages/codegen/src/schema-compiler.ts:428-479 | an object whose properties hold inhabits the record, whose index signature binds declared keys too, unless the record is rendered as one without keys |
| `TypeSoundness.IndexIsLoose` | packages/codegen/src/schema-compiler.ts:454-470 | a number under `count` beside strings under other keys: an index signature for strings would lose this instance, the one for `unknown` keeps it |
| `TypeSoundness.ArrayHolds` | packages/codegen/src/schema-compiler.ts:481-512 | an array whose items hold inhabits the rendered array exactly if it is as long as the tuple |
| `TypeSoundness.UniteMeans` | packages/codegen/src/schema-compiler.ts:340-344 | a rendered union holds what one of its members holds, and everything if there is nothing but `never` |
| `TypeSoundness.IntersectMeans` | packages/codegen/src/schema-compiler.ts:346-353 | a rendered intersection holds exactly what all its members hold |
| `UnknownDefinitions.FindUnknownDefinitions` | packages/codegen/src/schema-compiler.ts:714-751 | the worklist terminates with exactly the definitions from which a chain of references leads to a type that holds `unknown` |
| `UnknownDefinitions.SchemaContainsUnknown` | packages/codegen/src/schema-compiler.ts:703-712 | a contract is reported exactly when its rendered type holds `unknown` or names a definition that leads to one |

## Left out

- Evaluator.EvaluationState.EvaluateUnion: leaves open, when operations run out inside a branch, whether that one branch accepts; when something lies too deep or is too wide, the verdict of a `oneOf` is given for simple branches only. In all cases an acceptance is right with `oneOf` read as `anyOf`.
- Validate.ValidateWithPlan: with unions among the plans, gives what an acceptance implies about depth, not the exact verdict of a value that nests too deep inside an alternative; the width that a comparison with a literal needs is bounded by the sizes of both trees, not given exactly.
- Evaluator.EvaluationState.Evaluate: says that issues exist, how many and in which collector, not their paths, codes and wording.
- Evaluator.EvaluationState.DeepEqual: does not model the map of pairs already seen, since trees share nothing, nor the difference between 0 and -0.
- Validation of JavaScript values that are not JSON trees (throwing getters, prototypes, `undefined`, shared or cyclic instances); the fields of objects are listed in the order of sorted keys.
- Plan well-formedness checks (packages/core/src/validation/plan.ts:312-676), schema-size checks and the collection of nested definitions (packages/codegen/src/validator-compiler.ts:311-604, 690-743): independent checks; contracts start from the flattened definitions.
- The compiler's branch for object or array keywords without a type (packages/codegen/src/validator-compiler.ts:947-955), which its own earlier check makes unreachable.
- PlanBounds.AssertPlanBounds: does not say which of two verdicts a plan with shared nodes gets whose chains are deeper than 64 on one way and not on another (`AcceptableYetDeep`): a shared node is walked only where it is met first; reading errors of hostile objects are not modelled.
- Router steps that only schedule others: the timer that batches live refreshes, recovery loads for missing keys, redirects and the first deferred batch. Loads and batches may begin at any time in the model, so every schedule is covered; that the recovery load is issued is not stated.
- RouterRuns.Session.Run: says nothing about progress, only about what no interleaving can break.
- Diagnostics, event emitters, correlation ids, browser history and scrolling, which never influence the protocol.
- Subscribers of the store and the time of an update are not modelled.
- Version strings of patches carry an arbitrary suffix in place of the clock.
- Prefetch internals (time to live, fingerprints): a prefetch or visit may receive any envelope, fetched at any time; admission is relative to the operation's own start, not to the age of the data.
- Freshness after an abort: an aborted load stores the same record again and so clears its stale mark (packages/core/src/router.ts:629-635); staleness until a refetch is therefore not claimed.
- SseParser.FluxSseParser.Push: starts from decoded text; UTF-8 decoding of byte chunks and the byte order mark are not modelled.
- LiveManager.LiveManager.UpdateManifest: takes the manifest after the sorting and checking of its keys; the delay before a retry and the time of the last event are not modelled.
- References that do not resolve raise the same error in the renderer and in the analysis of generated types; the model has a total resolver.
- UnknownAnalysis.AnalysisAgrees: is about the structure of a rendered type, not its text; naming of definitions, layout and interfaces are left out.
- TypeSoundness.TypesAreSound: reads a rendered type as a set of JSON values; assignability between types, which TypeScript checks without instances, is not modelled. Where applicators or references stand beside the type keyword, the shape required is sufficient and `ShapeIsExact` does not say that it is necessary.
- Fetch transports, server-side rendering, framework hosts, command line, scaffolding, React bindings and developer tools.
