# Verified model of the Tuple routing service

Tuple routes LLM requests: it meters them against a monthly plan, scores them to pick a tier, merges
configured parameters into their bodies, forwards them, reads the streamed answers back, and publishes
usage statistics. This project models the parts of it that hold state, loop or compute, and proves what
they are for. `dafny verify dfyconfig.toml` checks everything.

Each module follows one source component. Code that changes fields, maps or arrays is written as classes
and loops and proved against specification functions; what the component promises is then proved of those
functions, over every input or every run. Where the source awaits, a protocol module describes the steps
as a state machine, and the methods of the class are proved to take exactly those steps.

| module | component |
|---|---|
| `QuotaProtocol`, `QuotaOvershoot`, `Plan` | the request quota: a counter row, racing initializers, the admission gate, throttled warnings |
| `KeywordSearch`, `Trie`, `Overrides` | the keyword trie, the naive search it must agree with, the formal-logic override |
| `JsonPaths`, `ParamSpecs`, `RequestParams`, `ParamSnapshot` | nested JSON paths, applicability rules, merging and recording request parameters |
| `StreamOps`, `StreamResponse`, `StreamCalls`, `ServerSentEvents` | reassembling streamed tool calls and text; the event-stream parser |
| `CatalogProtocol`, `CatalogService`, `ModelRegistry`, `OrderedMaps`, `SessionCache` | a shared-fetch catalog cache, the confirmed-model registry, the session cache |
| `PublicStats`, `AliasIndex` | the public usage statistics; the model-name alias index |
| `Scoring`, `Specificity` | momentum, confidence and tier floors; the specificity detector |

## Main results

- Quota: `QuotaProtocol.CountIsExact` and `ReturnedCountIsLinearizable` hold in every interleaving of live
  traffic and racing initializers; `SettleAnswersWaiters`, `VerdictsGoByTotals` and `LookupCanBeAnswered` say
  that every lookup under way can be answered, with what, and how the gate decides on it;
  `QuotaOvershoot.OvershootIsBounded` bounds each tenant's overshoot
  whatever other tenants do, and `OvershootExactly` says that no smaller bound holds.
- Keyword search: `Trie.KeywordTrie.Scan` computes the naive search of the pairs it can reach;
  `KeywordSearch.ScanIsNaiveExactly` says on which texts that is the search of all pairs; `Overrides.OverrideAgreesAnywhere`
  says when the trie and the direct search give the same verdict.
- Request parameters: the path laws (`JsonPaths.SetFrame`, `DeleteFrame`, `DeleteUndoesSet`), what stands at
  every spec path after expansion and after merging (`ParamSpecs.ExpandedExactly`, `RequestParams.SpecPathsDecided`,
  with the documented example in `ThinkingIsSentComplete`), when merging is associative
  (`DeepMergeAssociativeExactly`), and when one pass of omission is enough (`OnePassExactly`).
- Streams: `StreamResponse.Reassembly.Handle` refines a fold, which is per key (`StreamOps.ReassemblyIsPerKey`)
  and blind to how delta payloads are cut (`StreamResponse.SplittingLinesIsInvisible`); by the fields of
  the payloads, a call is what its opening event says and every later fragment
  (`StreamCalls.ItemThenFragments`, `BlockThenFragments`, `EntryThenFragments`), and a stream of one call is
  answered with that call (`OneItemOneCall`, `OneBlockOneCall`, `OneEntryOneCall`);
  `ServerSentEvents.BlocksRefineLines`, `SaysExactly` and `ParsingUndoesEveryLayout` settle the event-stream parser.
- Caches and registries: `CatalogProtocol.AlwaysConsistent`, `ListFetchesAreSpaced`, `LandsInStartOrder`;
  `ModelRegistry.LoadPages`, `NeverHalfLoaded`, `LastEndpointsCount`; `SessionCache.HitsAreFresh`, `HitsExactly`,
  `OrderIsRecency`.
- Statistics and names: `PublicStats.TokensAreConserved`, `EntriesAreExact`, `ProvidersAreCreditedExactly`,
  `AuthTypesAreCreditedExactly`, `ListedTokensAreExact`, `TrafficIsAnonymousExactly`;
  `AliasIndex.IndexIsExact`, `CanonicalNamesAreStable`, `SpellingsReachCanonicalNames`.
- Scoring: `Scoring.FloorsHoldExactly`, `DefaultTierIsSoundAndMonotone`; `Specificity.DetectSpecificity`, `BestIgnoresOrder`.

Proving these brought out where the code does less than one could expect. Each gap is stated with a
concrete input and with the condition under which it does not arise:

- A cap on requests that are admitted but not yet recorded does not bound the quota overshoot, since
  counts read long ago still admit (`AdmittedCapBoundsNothing`); a cap on all requests in flight does.
- A keyword with a surrogate pair is inserted by code points and never found by the scan, which walks
  code units: a text is scanned as it should be exactly when no such keyword stands in it
  (`ScanIsNaiveExactly`). The direct search loops for ever exactly on an empty keyword that does not stand
  as a whole word (`SearchEnds`).
- Deleting a path does not undo setting it when an empty record or a non-record was on the way
  (`DeleteUndoesSet`).
- Merging is not associative when a scalar in the middle hides a record that the last record does not
  cover (`DeepMergeNotAssociative`, `DeepMergeAssociativeExactly`).
- Dropping inapplicable parameters is one pass and can leave a parameter whose companion it dropped
  (`OmissionIsOnePass`, `OnePassExactly`).
- An older catalog list can replace a newer one when two fetches overlap (`OlderFetchCanLandLast`,
  `TwoInFlightCanReverse`), and never when no fetch is started before the last one has landed
  (`LandsInStartOrder`, `OneAtATimeExactly`), as when `list` is the only caller (`ListAloneIsOneAtATime`).
- Models of two providers can share one entry of the statistics exactly when one provider's name is the
  other's followed by a colon (`ProvidersCollideExactly`).
- The ten-tenant floor guards `custom:` references only, but the service also publishes under the custom
  label any model recorded with a provider that reads as "custom" or "custom:…"
  (`ServiceMissesTheFloor`, `ReadsCustomExactly`). Without colons in
  providers and auth types, traffic keeps within the floor exactly when every such row bears a name that
  ten tenants back, or the bucket's own (`TrafficIsAnonymousExactly`).
- The tier floors survive the low-confidence demotion only because the configured threshold is at most
  one half (`FloorsHoldExactly`).

## Model

| member | source | states |
|---|---|---|
| `QuotaProtocol.StepKeepsInv` | packages/backend/src/billing/plan.service.ts:176-303 | every step of every process keeps the inductive invariant: exact rows, one running initialization per process and key, every waiting call joined to an initialization of its own key |
| `QuotaProtocol.CountIsExact` | packages/backend/src/billing/plan.service.ts:283-302 | in every reachable state the row is the live increments plus the baseline if counted, so the baseline is added once however many initializers race; no process runs two initializations of one key |
| `QuotaProtocol.TriggerKeepsRow` | packages/backend/src/database/migrations/1801300000000-AddTenantRequestUsage.ts:153-166 | the trigger's insert-or-increment keeps the row exact, including the row it creates after the cutover |
| `QuotaProtocol.BaselineNeverReverts` | packages/backend/src/billing/plan.service.ts:291-298 | between any two moments of a run a counted baseline stays counted and the true total never falls |
| `QuotaProtocol.StepOffersFreshOrOld` | packages/backend/src/billing/plan.service.ts:188-203 | a step hands a call either the total of this very moment or what it was already going to be handed |
| `QuotaProtocol.ReturnedCountIsLinearizable` | packages/backend/src/billing/plan.service.ts:176-203 | every count a call returns was the true total at some moment while the call ran, also when it shares an initialization another caller began; that calls do get counts is `SettleAnswersWaiters` and `LookupCanBeAnswered` |
| `QuotaProtocol.SettleAnswersWaiters` | packages/backend/src/billing/plan.service.ts:188-203 | a promise that settles answers exactly the calls that wait for it: they hold the count n exactly when the initialization returned n, and have failed exactly when it was rejected; every other call is as it was |
| `QuotaProtocol.WaitersGetTotals` | packages/backend/src/billing/plan.service.ts:188-203 | over runs, a waiting call whose initialization returned is handed that count, and it was the key's true total at some moment while the call ran |
| `QuotaProtocol.SelectAnswers` | packages/backend/src/billing/plan.service.ts:179-188 | a counted row answers with the total of this moment; a missing or uncounted one does not answer |
| `QuotaProtocol.FailuresAreFailures` | packages/backend/src/billing/plan.service.ts:283-302 | a failed SELECT fails the lookup; a rejected initialization writes nothing; one whose answer is lost has written the counted row, with the total |
| `QuotaProtocol.TrafficCounts` | packages/backend/src/database/migrations/1801300000000-AddTenantRequestUsage.ts:153-166 | every counted request adds one to its key's total and nothing to any other; a row it creates is a counted one exactly in a window without a baseline |
| `QuotaProtocol.GateVerdict` | packages/backend/src/billing/plan.service.ts:374-383 | a held count admits a gate call exactly when it is below the limit of its key, and ends the call otherwise; no other call is touched |
| `QuotaProtocol.FailedLookupAdmits` | packages/backend/src/billing/plan.service.ts:366-373 | a failed lookup lets the gate's request through |
| `QuotaProtocol.VerdictsGoByTotals` | packages/backend/src/billing/plan.service.ts:359-384 | over runs, a gate decides by a total of its key that was true while its check ran: it admits exactly when that total is below the limit |
| `QuotaProtocol.InitAdvances` | packages/backend/src/billing/plan.service.ts:205-303 | an initialization's own next step is possible and brings it nearer to returning, and what it returns is the total |
| `QuotaProtocol.WaiterCanBeAnswered` | packages/backend/src/billing/plan.service.ts:188-203 | a call that waits for an initialization that was not rejected is answered once that has run, with the count it has returned or else with the total |
| `QuotaProtocol.LookupCanBeAnswered` | packages/backend/src/billing/plan.service.ts:176-203 | in every reachable state a lookup under way whose initialization was not rejected can be answered within six steps: with the count already promised to it, or else with the total of this moment |
| `QuotaOvershoot.NewPassersSeeTotal` | packages/backend/src/billing/plan.service.ts:359-384 | a request that starts to pass its gate does so on a total of its key that is below the key's limit at that moment |
| `QuotaOvershoot.OvershootIsBounded` | packages/backend/src/billing/plan.service.ts:359-384 | with at most n requests of a key in flight, none let through uncounted and none recorded without a gate, that key's total and stored count never pass max(initial total, its limit + n - 1), in any interleaving and whatever happens to other keys |
| `QuotaOvershoot.BoundIsReached` | packages/backend/src/billing/plan.service.ts:352-358 | for every limit and n some run within the cap starts below the limit and ends at limit + n - 1 |
| `QuotaOvershoot.OvershootExactly` | packages/backend/src/billing/plan.service.ts:352-384 | for positive limit, m and n, every metered run with at most m requests of a key in flight stays within max(initial total, limit + n - 1) exactly when m is at most n |
| `QuotaOvershoot.AdmittedCapBoundsNothing` | packages/backend/src/billing/plan.service.ts:352-374 | with never more than one admitted, unrecorded request the overshoot can still be made as large as one likes |
| `Plan.PlanService.ShareOrStart` | packages/backend/src/billing/plan.service.ts:190-202 | shares the pending initialization of the key or starts one, and leaves the object's map equal to its part of the protocol state after that step |
| `Plan.PlanService.Release` | packages/backend/src/billing/plan.service.ts:194-200 | the settling callback removes exactly its own promise, as the protocol's settle step does, and no other key |
| `Plan.PlanService.OthersLeaveMeAlone` | packages/backend/src/billing/plan.service.ts:74 | no step of another process changes what this process's map must hold |
| `Plan.PlanService.WarnCountFailureThrottled` | packages/backend/src/billing/plan.service.ts:316-332 | logs at most once per window and reports how many failures it swallowed since |
| `Plan.PlanService.WarnLimitFailureThrottled` | packages/backend/src/billing/plan.service.ts:334-350 | the same for the limit lookup |
| `Plan.EveryFailureIsAccountedFor` | packages/backend/src/billing/plan.service.ts:310-315 | over any outage every failure is a logged line, part of a later line's suppressed count, or still pending |
| `Plan.LinesAreSpaced` | packages/backend/src/billing/plan.service.ts:310-324 | two lines are never logged within one window, whatever the clock does |
| `Plan.NoSilentWindow` | packages/backend/src/billing/plan.service.ts:310-324 | every failure has a line, of this outage or the last before it, less than a window before it or its own |
| `KeywordSearch.PathOfUnits` | packages/backend/src/scoring/keyword-trie.ts:42-52 | a keyword's code-point path is spelled by code units exactly when it is that word and has no surrogate pair |
| `KeywordSearch.AllReachable` | packages/backend/src/scoring/keyword-trie.ts:44 | the walk by code units can reach every inserted pair exactly when no keyword has a surrogate pair |
| `KeywordSearch.WordStandsBetween` | packages/backend/src/scoring/keyword-trie.ts:62-75 | between what is before and after it, a keyword stands as a whole word exactly when neither neighbour is a word character |
| `KeywordSearch.WordCharacters` | packages/backend/src/scoring/keyword-trie.ts:16-24 | word characters are the digits, the Latin letters of both cases and the underscore |
| `KeywordSearch.NaiveContents` | packages/backend/src/scoring/keyword-trie.ts:59-89 | the naive search reports exactly the inserted pairs whose non-empty keyword stands as a whole word inside the scanned part |
| `KeywordSearch.ScanReports` | packages/backend/src/scoring/keyword-trie.ts:62-73 | a keyword of a dimension is reported somewhere exactly when the pair was inserted, the keyword is non-empty and has no surrogate pair, and it stands as a whole word in the scanned part |
| `KeywordSearch.ScanIsNaiveExactly` | packages/backend/src/scoring/keyword-trie.ts:59-89 | on each text, the scan's answer equals the naive answer over all inserted pairs exactly when no keyword with a surrogate pair stands as a whole word in the scanned part |
| `KeywordSearch.ScanIsNaiveEverywhere` | packages/backend/src/scoring/keyword-trie.ts:57-89 | the two agree on every text exactly when each keyword has no surrogate pair or is longer than the scan limit |
| `Trie.KeywordTrie.constructor` | packages/backend/src/scoring/keyword-trie.ts:34-40 | builds a valid trie of all pairs in configuration order |
| `Trie.KeywordTrie.InsertAll` | packages/backend/src/scoring/keyword-trie.ts:36-38 | appends the lowered keywords of one dimension, in order |
| `Trie.KeywordTrie.Insert` | packages/backend/src/scoring/keyword-trie.ts:42-54 | appends exactly one pair and keeps every node's terminals the pairs that spell its path |
| `Trie.KeywordTrie.AddChild` | packages/backend/src/scoring/keyword-trie.ts:45-49 | hangs one fresh node under the missing character and changes no contents |
| `Trie.KeywordTrie.AddTerminal` | packages/backend/src/scoring/keyword-trie.ts:52-53 | pushes the pair at the one node its keyword spells, and counts it |
| `Trie.KeywordTrie.PathsAreUnique` | packages/backend/src/scoring/keyword-trie.ts:44-51 | no two nodes of the heap spell the same path |
| `Trie.KeywordTrie.ScanFrom` | packages/backend/src/scoring/keyword-trie.ts:67-85 | the walk from one start finds what the naive search finds from there, in the same order |
| `Trie.Push` | packages/backend/src/scoring/keyword-trie.ts:77-83 | the innermost loop appends one match per terminal, in order |
| `Trie.KeywordTrie.Scan` | packages/backend/src/scoring/keyword-trie.ts:59-89 | the scan returns exactly the naive triple loop's sequence of matches, multiplicity and order included |
| `Trie.SpelledIsTerminals` | packages/backend/src/scoring/keyword-trie.ts:77-83 | the terminals of a node, as matches, are the naive matches of the word that reaches it |
| `Overrides.HasWordBoundaryMatch` | packages/backend/src/scoring/overrides.ts:4-15 | true exactly when the lowered keyword stands somewhere as a whole word |
| `Overrides.SearchEnds` | packages/backend/src/scoring/overrides.ts:6-13 | the search loop ends exactly when the keyword is non-empty or stands as a whole word |
| `Overrides.FindIsFirst` | packages/backend/src/scoring/overrides.ts:17-19 | the dimension searched is the first of its name |
| `Overrides.CheckFormalLogicOverride` | packages/backend/src/scoring/overrides.ts:17-26 | on every input on which the code ends, true exactly when a keyword of the first formal-logic dimension stands as a whole word in the non-empty text |
| `Overrides.TriePairs` | packages/backend/src/scoring/index.ts:56-61 | the trie is built from exactly the configured (keyword, dimension) pairs |
| `Overrides.TrieSeesFormalLogic` | packages/backend/src/scoring/index.ts:56-61 | for any configuration with unique dimension names and any text, the trie reports a formal-logic match exactly when a formal-logic keyword is non-empty, has no surrogate pair and stands as a whole word in the scanned part |
| `Overrides.OverrideAgreesAnywhere` | packages/backend/src/scoring/overrides.ts:17-26 | on any text the override and the trie give the same verdict exactly when the trie can see some keyword if the override fires, and the cut at the scan limit completes none if it does not |
| `Overrides.OnlyTheCutAddsWords` | packages/backend/src/scoring/keyword-trie.ts:62-75 | a keyword stands as a whole word in the scanned part without doing so in the text only when the cut completes it |
| `Overrides.OverrideAgreesExactly` | packages/backend/src/scoring/overrides.ts:17-26 | within the scan limit the override and the trie give the same verdict exactly when, if the override fires, some keyword it can fire on is non-empty and has no surrogate pair |
| `Overrides.OverrideAgreesWithTrie` | packages/backend/src/scoring/overrides.ts:17-26 | within the scan limit, with non-empty formal-logic keywords free of surrogate pairs, the override fires exactly when the trie of the same configuration reports a formal-logic match, whatever the other dimensions hold |
| `JsonPaths.GetPath` | packages/shared/src/provider-params-spec.ts:389-397 | the walk finds the value at the path, or none when a key is missing or a non-record is in the way |
| `JsonPaths.SetPath` | packages/shared/src/provider-params-spec.ts:409-419 | the write replaces whatever non-record is on the way and nothing else |
| `JsonPaths.GetAfterSet` | packages/shared/src/provider-params-spec.ts:409-419 | reading where one has just written gives the value written |
| `JsonPaths.SetFrame` | packages/shared/src/provider-params-spec.ts:409-419 | a write changes nothing at any path that is neither a prefix nor an extension of its own |
| `JsonPaths.DeletePath` | packages/shared/src/provider-params-spec.ts:421-440 | the two loops remove the path and then, upward, every record left empty on the way |
| `JsonPaths.DeletedIsAbsent` | packages/shared/src/provider-params-spec.ts:430-431 | after a delete the path is absent |
| `JsonPaths.NoEmptyAncestor` | packages/shared/src/provider-params-spec.ts:433-439 | deleting an existing path leaves no empty record on the way to it |
| `JsonPaths.DeleteFrame` | packages/shared/src/provider-params-spec.ts:421-440 | a delete changes nothing at any unrelated path |
| `JsonPaths.DeleteAbsent` | packages/shared/src/provider-params-spec.ts:421-440 | deleting an absent path changes the record exactly when its parent is an empty record below the root |
| `JsonPaths.DeleteUndoesSet` | packages/shared/src/provider-params-spec.ts:409-440 | deleting what was just set restores the record exactly when the path was absent and its way was open |
| `JsonPaths.OpenWayMeaning` | packages/shared/src/provider-params-spec.ts:412-417 | the way is open exactly when no proper prefix of the path holds an empty record or a non-record |
| `ParamSpecs.CheckEntries` | packages/shared/src/provider-params-spec.ts:326-338 | the early-exit loop holds exactly when every entry of the rule is met |
| `ParamSpecs.ApplicabilityIsLocal` | packages/shared/src/provider-params-spec.ts:193-203 | whether a parameter applies depends on nothing but the values at the paths its rules name |
| `ParamSpecs.RulesAreAnyOfAll` | packages/shared/src/provider-params-spec.ts:321-338 | a rule holds when all entries of any of its alternatives do: none without alternatives, always with an empty one |
| `ParamSpecs.EntriesMean` | packages/shared/src/provider-params-spec.ts:326-349 | what an entry asks of the value at its path: to be the one or one of those named, or absent; negated, to be there and none of them |
| `ParamSpecs.ExpandConfiguredParamDefaults` | packages/shared/src/provider-params-spec.ts:272-292 | the loop, with its early return, folds applicable defaults into the configured roots in spec order; what stands at each path is `ExpandedExactly` |
| `ParamSpecs.ExpandKeepsConfigured` | packages/shared/src/provider-params-spec.ts:284-290 | for any roots, with prefix-free paths a configured value stays, and a missing default is written exactly when the spec reaches into a root and applies in the record built so far |
| `ParamSpecs.ExpandedExactly` | packages/shared/src/provider-params-spec.ts:272-292 | with prefix-free paths, what stands at each spec path after expansion: the configured value if present; else the default exactly when a record is configured under the path's first key and the spec applies in the record built so far, which is the expansion by the specs before it; else nothing |
| `ParamSpecs.BuiltSoFar` | packages/shared/src/provider-params-spec.ts:284-290 | the record built so far, when a spec is reached, is the expansion by the specs before it |
| `ParamSpecs.ExpandFillsRecordsOnly` | packages/shared/src/provider-params-spec.ts:277-281 | expansion adds no top-level key and changes none that does not hold a record, whatever the specs |
| `ParamSpecs.ThinkingExample` | packages/shared/src/provider-params-spec.ts:266-271 | the documented example: with the type of thinking enabled the default budget is filled in; without it, or with a scalar in place of the record, nothing is |
| `ParamSpecs.ExpandFrame` | packages/shared/src/provider-params-spec.ts:284-291 | expansion changes nothing at paths unrelated to every spec |
| `ParamSpecs.PickProviderCompatibleParams` | packages/shared/src/provider-params-spec.ts:225-239 | the loop collects the spec values of the expanded parameters |
| `ParamSpecs.PickedExactly` | packages/shared/src/provider-params-spec.ts:232-236 | with prefix-free paths a spec's value is picked exactly when it is present and applies |
| `ParamSpecs.OmitProviderInapplicableParams` | packages/shared/src/provider-params-spec.ts:252-264 | the loop deletes the present, inapplicable spec paths, judged on the input |
| `ParamSpecs.OmitRemoves` | packages/shared/src/provider-params-spec.ts:257-262 | no spec path that is inapplicable in the input survives |
| `ParamSpecs.OmitFrame` | packages/shared/src/provider-params-spec.ts:252-264 | a path unrelated to every removed path keeps its value |
| `RequestParams.DeepMergeLoop` | packages/shared/src/request-params.ts:40-53 | the recursive loop merges key by key, records into records, whatever the order of the keys |
| `RequestParams.DeepMergeIdempotent` | packages/shared/src/request-params.ts:40-53 | merging the same overrides twice is merging them once |
| `RequestParams.DeepMergeAssociativeExactly` | packages/shared/src/request-params.ts:40-53 | three records merge alike under either grouping exactly when, wherever the first and last hold records under one key, the middle one holds none there, a record on which they agree in turn, or a scalar over what the last covers |
| `RequestParams.CoversExactly` | packages/shared/src/request-params.ts:45-51 | merging leaves nothing of the base exactly when the overrides have a value wherever the base has one |
| `RequestParams.DeepMergeNotAssociative` | packages/shared/src/request-params.ts:46-50 | three records on which the grouping of merges changes the result, by the condition of `DeepMergeAssociativeExactly` |
| `RequestParams.MergeOverrides` | packages/shared/src/request-params.ts:45-51 | an override present at a path wins there, a record by merging into a record |
| `RequestParams.MergeLeavesAlone` | packages/shared/src/request-params.ts:44-52 | overrides that do not reach a path leave it as it is |
| `RequestParams.ApplyRequestParamDefaults` | packages/shared/src/request-params.ts:21-38 | the method computes expansion, picking, merging and omission in that order, for any order of the specs; what that leaves at each path is `SpecPathsDecided` with `ParamSpecs.ExpandedExactly` |
| `RequestParams.UnrelatedPathsUntouched` | packages/shared/src/request-params.ts:21-38 | every body path that no spec path touches comes through unchanged |
| `RequestParams.InapplicablePathsRemoved` | packages/shared/src/request-params.ts:37 | the result holds no spec path that does not apply under the merged body |
| `RequestParams.SpecPathsDecided` | packages/shared/src/request-params.ts:29-37 | with prefix-free paths, what stands at each spec path: nothing if inapplicable, else the configured value over the caller's, else the caller's |
| `RequestParams.ThinkingIsSentComplete` | packages/shared/src/request-params.ts:21-38 | the documented example end to end: configuring that thinking is enabled sends the default budget with it, whatever the caller's body holds |
| `RequestParams.MergedHoldsConfigured` | packages/shared/src/request-params.ts:29-36 | with prefix-free paths a configured, applicable value is what the merged body holds at its path, a record merged over the caller's |
| `RequestParams.OmitChangesNothingExactly` | packages/shared/src/provider-params-spec.ts:252-264 | omission leaves a record alone exactly when no present spec path is inapplicable in it |
| `RequestParams.OmitKeepsExactly` | packages/shared/src/provider-params-spec.ts:252-264 | any path is left by omission exactly when some leaf at or below it lies below no present, inapplicable spec path |
| `RequestParams.OnePassExactly` | packages/shared/src/provider-params-spec.ts:252-264 | for any specs, a second pass changes nothing exactly when every parameter that is left applies once the paths under which nothing is left read as absent |
| `RequestParams.OnePassSuffices` | packages/shared/src/provider-params-spec.ts:252-264 | when no kept parameter's rules read around a removed path, every spec path left applies and a second pass changes nothing |
| `RequestParams.OmissionIsOnePass` | packages/shared/src/provider-params-spec.ts:257-262 | a body on which a second pass of omission would remove more |
| `ParamSnapshot.FitsAtEveryDepth` | packages/shared/src/request-params-snapshot.ts:124-134 | a value fits exactly when every string in it has at most 64 characters and every structure serializes to at most 2048, at every depth |
| `ParamSnapshot.FitsExactly` | packages/shared/src/request-params-snapshot.ts:124-134 | the limits written out: every string reached has at most 64 characters, every structure serializes to at most 2048; scalars fit |
| `ParamSnapshot.AddSpeclessKnobs` | packages/shared/src/request-params-snapshot.ts:100-116 | throws exactly when a knob key is not a legal path segment; else adds exactly the knobs, in any order of the body's keys |
| `ParamSnapshot.SnapshotRequestParams` | packages/shared/src/request-params-snapshot.ts:26-60 | the snapshot is the walk without inapplicable paths plus the knobs, or nothing when that is empty |
| `ParamSnapshot.SnapshotCharacterised` | packages/shared/src/request-params-snapshot.ts:36-58 | under spec roots the snapshot is the walk; outside them it holds exactly the body's undenied, undotted, fitting keys, unchanged |
| `ParamSnapshot.KnobsExactly` | packages/shared/src/request-params-snapshot.ts:100-116 | outside spec roots a key is in the snapshot exactly when it is in the body, not denied, without a dot and fits; its value is the body's |
| `ParamSnapshot.WalkPrecedence` | packages/shared/src/request-params-snapshot.ts:36-52 | with prefix-free paths a spec path records the configured value, else the caller's, else the default exactly when the spec applies in the record built so far |
| `ParamSnapshot.SnapshotPrecedence` | packages/shared/src/request-params-snapshot.ts:26-52 | the same from the parameters themselves: their expansion, else what the caller sent, else an applicable default |
| `ParamSnapshot.SnapshotAtSpecPath` | packages/shared/src/request-params-snapshot.ts:54-58 | a spec path is in the snapshot exactly when the walk recorded it and it applies there |
| `StreamOps.ReassemblyIsPerKey` | packages/shared/src/chat-message.ts:281-330 | the interleaved accumulation is a fold per key: text is the text deltas in order, each call appears once in first-seen order and depends on its own key's events alone |
| `StreamOps.ArgumentsAreLastOverwriteAndFragments` | packages/shared/src/chat-message.ts:298-301 | a call's arguments are its last overwrite followed by every later fragment in order |
| `StreamOps.SplittingDeltasIsInvisible` | packages/shared/src/chat-message.ts:298-330 | cutting any text, name or argument delta in two, anywhere in the stream, changes nothing |
| `StreamOps.ChatCallAppends` | packages/shared/src/chat-message.ts:313-328 | a continuing tool-call delta with a name or an argument fragment asks for one append to its own call, whatever other fields it holds |
| `StreamOps.OneChatCall` | packages/shared/src/chat-message.ts:309-329 | a chat delta without content and with one tool call performs exactly that call's operations |
| `StreamOps.AskedCuts` | packages/shared/src/chat-message.ts:298-330 | payloads that ask for one operation each are cut when the operations are |
| `StreamOps.ResponsesTextCuts` | packages/shared/src/chat-message.ts:330-332 | any output-text event is cut by cutting its delta, its other fields kept |
| `StreamOps.ResponsesArgumentsCuts` | packages/shared/src/chat-message.ts:356-363 | any argument event is cut by cutting its delta, its other fields kept |
| `StreamOps.AnthropicTextCuts` | packages/shared/src/chat-message.ts:375-376 | any text block delta is cut by cutting its text, its other fields kept |
| `StreamOps.AnthropicArgumentsCuts` | packages/shared/src/chat-message.ts:377-385 | any input-json block delta is cut by cutting its fragment, its other fields kept |
| `StreamOps.OpeningCuts` | packages/shared/src/chat-message.ts:314-328 | a tool-call delta that also opens its call, with id, type and name, is cut in its arguments, the first part opening the call |
| `StreamOps.SplittingPayloadsIsInvisible` | packages/shared/src/chat-message.ts:303-390 | cutting any delta payload in two, in any text, name or argument fragment and with whatever else it asks going before or after, anywhere in a stream, leaves the reassembled message as it is |
| `StreamResponse.SplittingLinesIsInvisible` | packages/shared/src/chat-message.ts:281-400 | replacing the line of any such payload by the two lines of its parts leaves the answer of the stream as it is |
| `StreamOps.ChatTextAppends` | packages/shared/src/chat-message.ts:309-312 | a chat delta with content and no tool calls asks for one text append and nothing else, whatever other fields the payload holds |
| `StreamOps.ResponsesTextAppends` | packages/shared/src/chat-message.ts:330-332 | an output-text delta event asks for one text append, whatever other fields it holds |
| `StreamOps.ResponsesArgumentsAppend` | packages/shared/src/chat-message.ts:356-363 | a responses argument delta asks for one append to the call of its item, or of its output index, whatever other fields it holds |
| `StreamOps.AnthropicTextAppends` | packages/shared/src/chat-message.ts:375-376 | a text block delta asks for one text append, whatever other fields it holds |
| `StreamOps.AnthropicArgumentsAppend` | packages/shared/src/chat-message.ts:377-385 | an input-json block delta asks for one append to the call of its block, whatever other fields it holds |
| `StreamResponse.Reassembly.CallFor` | packages/shared/src/chat-message.ts:289-296 | finds or creates the call of a key, in both the map and the list |
| `StreamResponse.Reassembly.Assign` | packages/shared/src/chat-message.ts:318-325 | a write through one owner of a shared call changes that call's value and no other part of the message |
| `StreamResponse.ToolCall.Apply` | packages/shared/src/chat-message.ts:298-301 | each assignment to a call's fields has the effect of the edit it stands for |
| `StreamResponse.Reassembly.HandleChatCall` | packages/shared/src/chat-message.ts:314-328 | one entry of a tool-call delta performs its operations on its own key |
| `StreamResponse.Reassembly.HandleChatCalls` | packages/shared/src/chat-message.ts:313-329 | the loop over the entries performs their operations in order |
| `StreamResponse.Reassembly.HandleChoice` | packages/shared/src/chat-message.ts:309-329 | the first record among the choices contributes its text and its tool calls |
| `StreamResponse.Reassembly.HandleOutputItem` | packages/shared/src/chat-message.ts:333-355 | an output-item event performs its operations, with the id taken from the call id first; what they add up to is `StreamCalls.ItemThenFragments` |
| `StreamResponse.Reassembly.AppendArguments` | packages/shared/src/chat-message.ts:298-301 | appends to text arguments and replaces anything else, on one key |
| `StreamResponse.Reassembly.HandleArgumentsDelta` | packages/shared/src/chat-message.ts:356-363 | an argument event appends to the call of its item, or of its output index |
| `StreamResponse.Reassembly.HandleBlockStart` | packages/shared/src/chat-message.ts:364-374 | a tool-use block start performs its operations on its own key |
| `StreamResponse.Reassembly.HandleBlockDelta` | packages/shared/src/chat-message.ts:375-386 | a block delta appends text and, for input-json, arguments |
| `StreamResponse.Reassembly.Handle` | packages/shared/src/chat-message.ts:308-386 | handling a payload on the shared heap objects is folding its operations over the abstract message |
| `StreamResponse.Reassemble` | packages/shared/src/chat-message.ts:303-390 | the loop over the lines computes the fold over all decodable payloads |
| `StreamResponse.Reassembly.ReadCalls` | packages/shared/src/chat-message.ts:391-398 | the list handed out holds each call's final value, in first-seen order, though calls were changed through the map |
| `StreamResponse.ExtractStreamResponse` | packages/shared/src/chat-message.ts:281-400 | the answer is the assistant message of that fold, or none when it holds neither text nor calls; by the fields of the payloads, `StreamCalls.OneItemOneCall`, `OneBlockOneCall`, `OneEntryOneCall` and `TextOnlyAnswers` |
| `StreamCalls.ItemThenFragments` | packages/shared/src/chat-message.ts:333-363 | an output-item event and then argument deltas of the same item, with anything else before and between: the call has the call id (or the id), the item's name, and its arguments followed by every later fragment; an item goes by its id, else its call id, else its place |
| `StreamCalls.OneItemOneCall` | packages/shared/src/chat-message.ts:333-363 | a stream of one item event and argument deltas of that item, and payloads that say nothing, is answered with exactly that one call, of type "function" |
| `StreamCalls.BlockThenFragments` | packages/shared/src/chat-message.ts:364-386 | a tool-use block start and then input-json deltas of its index, with anything else before and between: the call has the block's id and name, and the fragments after its text input or in place of any other |
| `StreamCalls.OneBlockOneCall` | packages/shared/src/chat-message.ts:364-386 | a stream of one tool-use block and its input-json deltas is answered with exactly that one call |
| `StreamCalls.EntryThenFragments` | packages/shared/src/chat-message.ts:309-329 | a chat tool-call entry and then entries of the same index with arguments only, also beside other entries: the call has the id and type given, the name appended, and every argument fragment in order |
| `StreamCalls.OneEntryOneCall` | packages/shared/src/chat-message.ts:309-329 | a stream of one opening entry and its continuations is answered with exactly that one call |
| `StreamCalls.CallAfter` | packages/shared/src/chat-message.ts:289-301 | from any message on, a call changes by its own key's operations alone, and appears exactly when there are any |
| `StreamCalls.ChatDeltaExactly` | packages/shared/src/chat-message.ts:309-311 | the chat delta is that of the first record among the choices, whatever follows |
| `StreamCalls.FieldsRead` | packages/shared/src/chat-message.ts:309-386 | a field is read exactly when the payload is a record that has it, of the kind asked for |
| `StreamCalls.OtherLinesAreInvisible` | packages/shared/src/chat-message.ts:303-307 | a line that does not start with "data:", or whose rest does not decode, may be inserted anywhere |
| `StreamCalls.DataLinesDecode` | packages/shared/src/chat-message.ts:303-308 | lines that start with "data:" give the payloads of what follows, in order |
| `StreamCalls.TextOnlyAnswers` | packages/shared/src/chat-message.ts:391-400 | a stream of text deltas is answered with their concatenation and no calls, or not at all when that is empty |
| `StreamCalls.AnswerExactly` | packages/shared/src/chat-message.ts:391-400 | a stream is left unanswered exactly when it has neither text nor calls; else the answer holds the whole text, if any, and all calls in first-seen order |
| `ServerSentEvents.ReadBlock` | nodes/Tuple/Tuple.node.ts:110-125 | the loop over a block's lines leaves the name, id and data the lines set, in order; what a line sets is `SaysExactly` |
| `ServerSentEvents.ReadBlocks` | nodes/Tuple/Tuple.node.ts:109-135 | one event per block that has data lines, in order |
| `ServerSentEvents.BlocksRefineLines` | nodes/Tuple/Tuple.node.ts:105-138 | cutting into blocks and reading each computes what a machine reading one line at a time and dispatching at blank lines and at the end computes |
| `ServerSentEvents.ParseServerSentEvents` | nodes/Tuple/Tuple.node.ts:105-138 | the parser's events are those of that line machine on the normalized text; over any layout of the lines, `ParsingUndoesEveryLayout` |
| `ServerSentEvents.LineEndingsAgree` | nodes/Tuple/Tuple.node.ts:107 | LF, CRLF and CR endings give the same events, and a last line without an ending is read like any other |
| `ServerSentEvents.SaysExactly` | nodes/Tuple/Tuple.node.ts:117-120 | the parser reads field f and value v exactly from the lines "f: v", "f:v" where v does not start with a space, and "f" where v is empty, f being free of colons: one leading space is dropped and no other character |
| `ServerSentEvents.SilentLinesAreInvisible` | nodes/Tuple/Tuple.node.ts:115-124 | a comment, a line of any other field such as retry, or an empty event name may be inserted anywhere |
| `ServerSentEvents.LastNameAndIdCount` | nodes/Tuple/Tuple.node.ts:122-123 | within a block the last name that is not empty counts, and the last id |
| `ServerSentEvents.CommentsAreInvisible` | nodes/Tuple/Tuple.node.ts:115 | a comment line may be inserted anywhere |
| `ServerSentEvents.LinesJoin` | nodes/Tuple/Tuple.node.ts:131 | joining the lines of a text gives the text back |
| `ServerSentEvents.ParsingUndoesEveryLayout` | nodes/Tuple/Tuple.node.ts:105-138 | whatever layout each line of each event is written in, with or without the space and with or without a default name, and under any line ending, parsing gives back the same events |
| `ServerSentEvents.ParsingUndoesPrinting` | nodes/Tuple/Tuple.node.ts:105-138 | in particular printing any events in the standard layout, under any line ending, and parsing gives the same names, ids and data; an empty name reads as "message" |
| `CatalogProtocol.Parse` | packages/backend/src/model-discovery/opencode-go-catalog.service.ts:196-219 | the loop over the Endpoints rows keeps the first row of each id and joins its cost by normalized name |
| `CatalogProtocol.ParseLimits` | packages/backend/src/model-discovery/opencode-go-catalog.service.ts:226-241 | the loop over the limit rows keeps the first positive row of each name |
| `CatalogProtocol.ParsedIdsAreUnique` | packages/backend/src/model-discovery/opencode-go-catalog.service.ts:201-218 | no model is listed twice |
| `CatalogProtocol.ParsedEntriesAreFirstRows` | packages/backend/src/model-discovery/opencode-go-catalog.service.ts:203-217 | the entries are exactly those the first row of each id makes |
| `CatalogProtocol.ParsedEntryExactly` | packages/backend/src/model-discovery/opencode-go-catalog.service.ts:196-219 | a listed model has the id and name of its first row, the format of its endpoint, and the budget over the first positive limit under its normalized name, or no cost without one |
| `CatalogProtocol.LimitsExactly` | packages/backend/src/model-discovery/opencode-go-catalog.service.ts:226-241 | a name has a cost exactly when some row has a positive limit for it, and it is 12 over the first such limit |
| `CatalogProtocol.EntriesKeepOrder` | packages/backend/src/model-discovery/opencode-go-catalog.service.ts:201-218 | models are listed in the order of the table |
| `CatalogProtocol.IndexesProject` | packages/backend/src/model-discovery/opencode-go-catalog.service.ts:243-254 | an index answers for exactly the listed models (with a cost), with the listed value |
| `CatalogProtocol.AlwaysConsistent` | packages/backend/src/model-discovery/opencode-go-catalog.service.ts:72-130 | in every interleaving a non-null cache holds the last good list or the empty one, and both indexes are the last good list's projections |
| `CatalogProtocol.LastGoodWasParsed` | packages/backend/src/model-discovery/opencode-go-catalog.service.ts:115-122 | the last good list is a non-empty one some earlier fetch parsed |
| `CatalogProtocol.ListServesWhileFresh` | packages/backend/src/model-discovery/opencode-go-catalog.service.ts:72-130 | a landed list is served for an hour after its fetch began, the fallback for five minutes; then list starts one fetch unless one is in flight |
| `CatalogProtocol.StartsAndResets` | packages/backend/src/model-discovery/opencode-go-catalog.service.ts:72-103 | the first list starts a fetch and every refresh does; a reset forgets the cache, the last good list and the indexes |
| `CatalogProtocol.LandsInStartOrder` | packages/backend/src/model-discovery/opencode-go-catalog.service.ts:94-130 | in every run that starts no fetch while another has not landed, fetches land in start order, whatever the clock does |
| `CatalogProtocol.OneAtATimeExactly` | packages/backend/src/model-discovery/opencode-go-catalog.service.ts:90-103 | a run starts no fetch over another exactly when none of its states has two fetches that have not landed |
| `CatalogProtocol.TwoInFlightCanReverse` | packages/backend/src/model-discovery/opencode-go-catalog.service.ts:105-124 | from any state with two such fetches either list can be made to land last and replace the other |
| `CatalogProtocol.OlderFetchCanLandLast` | packages/backend/src/model-discovery/opencode-go-catalog.service.ts:90-92 | a run in which two fetches overlap, the one started first lands last, and its older list is put back |
| `CatalogProtocol.FinalizeSparesNewer` | packages/backend/src/model-discovery/opencode-go-catalog.service.ts:96-100 | only its own callback, a refresh or a reset ever takes a fetch out of flight |
| `CatalogProtocol.ListFetchesAreSpaced` | packages/backend/src/model-discovery/opencode-go-catalog.service.ts:72-83 | with list as the only caller at most one fetch is outstanding and starts are at least the error backoff apart, whatever fetches return and whatever the clock does |
| `CatalogProtocol.ListAloneIsOneAtATime` | packages/backend/src/model-discovery/opencode-go-catalog.service.ts:72-83 | with list as the only caller no fetch ever starts over another, so lists land in start order |
| `CatalogService.OpencodeGoCatalogService.List` | packages/backend/src/model-discovery/opencode-go-catalog.service.ts:72-83 | serves a fresh cache, shares the fetch in flight or starts one, as the protocol's step |
| `CatalogService.OpencodeGoCatalogService.Refresh` | packages/backend/src/model-discovery/opencode-go-catalog.service.ts:90-92 | always starts a fetch, as the protocol's step |
| `CatalogService.OpencodeGoCatalogService.RebuildIndexes` | packages/backend/src/model-discovery/opencode-go-catalog.service.ts:243-254 | both indexes become the projections of the list |
| `CatalogService.OpencodeGoCatalogService.Land` | packages/backend/src/model-discovery/opencode-go-catalog.service.ts:105-130 | a landing fetch changes the fields as the protocol's settle step does, success or failure |
| `CatalogService.OpencodeGoCatalogService.ClearInflight` | packages/backend/src/model-discovery/opencode-go-catalog.service.ts:96-100 | the callback clears the field only if it still names its own promise |
| `CatalogService.OpencodeGoCatalogService.GetCostPerRequest` | packages/backend/src/model-discovery/opencode-go-catalog.service.ts:139-143 | looks the model up under its bare name, given with or without the prefix |
| `CatalogService.BareNames` | packages/backend/src/model-discovery/opencode-go-catalog.service.ts:139-153 | the bare name is the name without the prefix, if it has it |
| `CatalogService.LookupsFollowLastGood` | packages/backend/src/model-discovery/opencode-go-catalog.service.ts:139-153 | in every reachable state a lookup answers exactly from the last good list |
| `ModelRegistry.RegisterInto` | packages/backend/src/model-discovery/provider-model-registry.service.ts:65-84 | the loop merges each registration under its lowered id, keeping earlier endpoints a new one does not bring |
| `ModelRegistry.CleanIsClean` | packages/backend/src/model-discovery/provider-model-registry.service.ts:187-197 | an entry keeps exactly the non-empty endpoints, each once |
| `ModelRegistry.RegisteredIds` | packages/backend/src/model-discovery/provider-model-registry.service.ts:65-84 | registering adds exactly the lowered non-empty ids to that provider and nothing to any other |
| `ModelRegistry.LastEndpointsCount` | packages/backend/src/model-discovery/provider-model-registry.service.ts:65-84 | among registrations of an id the last one that brings endpoints decides which are recorded |
| `ModelRegistry.EndpointsAreKept` | packages/backend/src/model-discovery/provider-model-registry.service.ts:75-80 | registrations that bring no endpoints keep those recorded before |
| `ModelRegistry.PublishedEndpoints` | packages/backend/src/model-discovery/provider-model-registry.service.ts:151-155 | after publishing, a cached model has the endpoints it was cached with, or, cached without any, those of its live registration |
| `ModelRegistry.CleanKeepsOrder` | packages/backend/src/model-discovery/provider-model-registry.service.ts:187-197 | the endpoints kept stand in first-seen order |
| `ModelRegistry.FilterIsRedundant` | packages/backend/src/model-discovery/provider-model-registry.service.ts:133-140 | filtering cached models without an id before registering changes nothing |
| `ModelRegistry.PageIsSlice` | packages/backend/src/model-discovery/provider-model-registry.service.ts:169-180 | the page after the cursor is the next slice of the table, and a short page is the last |
| `ModelRegistry.FetchTablePage` | packages/backend/src/model-discovery/provider-model-registry.service.ts:169-180 | the query answers with the next slice of the table, shorter than a page only at its end |
| `ModelRegistry.StageOneRow` | packages/backend/src/model-discovery/provider-model-registry.service.ts:130-145 | stages the row's models that have an id; a row without any stages nothing |
| `ModelRegistry.StagePage` | packages/backend/src/model-discovery/provider-model-registry.service.ts:130-145 | the loop over a page stages its rows one after another |
| `ModelRegistry.LoadPages` | packages/backend/src/model-discovery/provider-model-registry.service.ts:126-149 | the paging loop ends, visits every row exactly once in order, and stages what one pass over the table stages |
| `ModelRegistry.PublishModels` | packages/backend/src/model-discovery/provider-model-registry.service.ts:153-155 | merging one provider's staged models, in any order, puts each over the live one |
| `ModelRegistry.ProviderModelRegistryService.Publish` | packages/backend/src/model-discovery/provider-model-registry.service.ts:151-155 | merges everything staged over the live registry; a provider registered meanwhile survives |
| `ModelRegistry.ProviderModelRegistryService.IsModelConfirmed` | packages/backend/src/model-discovery/provider-model-registry.service.ts:99-103 | true, false or no data, from the lowered provider and id |
| `ModelRegistry.StageSettled` | packages/backend/src/model-discovery/provider-model-registry.service.ts:182-203 | whatever is staged registers again as itself, which is what publishing relies on |
| `ModelRegistry.NeverHalfLoaded` | packages/backend/src/model-discovery/provider-model-registry.service.ts:113-166 | in every reachable state a provider's ids are its live registrations alone, or those plus its complete cached set |
| `ModelRegistry.ConfirmedIdsStay` | packages/backend/src/model-discovery/provider-model-registry.service.ts:151-155 | between any two moments of a run no confirmed id is lost |
| `ModelRegistry.CachedModelsAreNotPhantoms` | packages/backend/src/model-discovery/provider-model-registry.service.ts:115-121 | a cached model is called unconfirmed exactly when the load has not succeeded and its provider has live registrations without it |
| `SessionCache.SessionGuard.Lookup` | packages/backend/src/auth/session.guard.ts:62-74 | a live entry is returned and moved to the tail as it is; otherwise nothing changes |
| `SessionCache.SessionGuard.EvictExpired` | packages/backend/src/auth/session.guard.ts:162-167 | deleting while iterating keeps exactly the unexpired entries, in order |
| `SessionCache.SessionGuard.StoreInCache` | packages/backend/src/auth/session.guard.ts:148-160 | evicts the expired, then from the head until there is room, then sets the key |
| `SessionCache.CapacityHolds` | packages/backend/src/auth/session.guard.ts:148-160 | in every run the cache never exceeds 5,000 entries and never holds a key twice |
| `SessionCache.StoreEvicts` | packages/backend/src/auth/session.guard.ts:148-160 | a store leaves no expired entry exactly as long as the clock does not jump back by a whole entry life during it, and gives up live ones only from the head, and only down to one below capacity |
| `SessionCache.HitsAreFresh` | packages/backend/src/auth/session.guard.ts:62-74 | a hit returns exactly what an earlier store put under the key less than 60 seconds before, with no invalidation or newer store in between |
| `SessionCache.HitsExactly` | packages/backend/src/auth/session.guard.ts:62-74 | as long as fewer than 5,000 keys were stored, a lookup hits exactly when the key was stored, not overridden since, and neither the lookup nor any eviction since found it expired |
| `SessionCache.StoredStays` | packages/backend/src/auth/session.guard.ts:148-167 | then what was stored and not overridden is still cached exactly when every eviction since found it live |
| `SessionCache.OrderIsRecency` | packages/backend/src/auth/session.guard.ts:65-67 | in every run the entries stand in the order in which they were last put at the tail; storing a live key again keeps its place |
| `OrderedMaps.GetPut` | packages/backend/src/auth/session.guard.ts:155-159 | setting a key of an insertion-ordered map changes that key's value and no other |
| `OrderedMaps.SumPut` | packages/backend/src/public-stats/public-stats.service.ts:392-397 | setting a key moves the sum over the values by the difference it makes |
| `PublicStats.ScrubDropsTheProviderId` | packages/backend/src/public-stats/public-stats.service.ts:103-112 | a reference is published as its bare name, or as the common bucket when that name is itself a reference |
| `PublicStats.ScrubbedIsNoReference` | packages/backend/src/public-stats/public-stats.service.ts:107-112 | no scrubbed name is a raw reference |
| `PublicStats.OthersScrub` | packages/backend/src/public-stats/public-stats.service.ts:103-112 | a model without the prefix keeps its name; a reference without an id or a name part goes to the bucket |
| `PublicStats.PublishableCustomModels` | packages/backend/src/public-stats/public-stats.service.ts:336-349 | the two loops compute exactly the names that ten distinct tenants back |
| `PublicStats.PublishableNamesMeaning` | packages/backend/src/public-stats/public-stats.service.ts:346-349 | a name is publishable exactly when at least ten distinct tenants back it |
| `PublicStats.TenantsMeaning` | packages/backend/src/public-stats/public-stats.service.ts:336-345 | a tenant backs a name exactly when one of its pairs scrubs to it |
| `PublicStats.CollectTenants` | packages/backend/src/public-stats/public-stats.service.ts:336-345 | the loop collects exactly the distinct tenants of each scrubbed name |
| `PublicStats.GroupRow` | packages/backend/src/public-stats/public-stats.service.ts:364-397 | one row adds its tokens, cost and day to the entry of its key, or is skipped when it has no public provider; under which name a row counts is `LabelMeaning` |
| `PublicStats.GroupRows` | packages/backend/src/public-stats/public-stats.service.ts:363-398 | the first loop groups the rows by their published label and auth type, in first-seen order |
| `PublicStats.GroupModel` | packages/backend/src/public-stats/public-stats.service.ts:410-438 | one entry joins its provider's models and totals, and its auth type's total and model count |
| `PublicStats.GroupModels` | packages/backend/src/public-stats/public-stats.service.ts:409-439 | the second loop groups the models by provider and by auth type |
| `PublicStats.GetProviderDailyTokens` | packages/backend/src/public-stats/public-stats.service.ts:336-439 | the method computes both groupings with exactly the publishable names; what each provider's list then shows is `ListedTokensAreExact` |
| `PublicStats.LabelMeaning` | packages/backend/src/public-stats/public-stats.service.ts:364-374 | a custom row counts under "Custom" for its scrubbed name when at least ten distinct tenants back that, and for the bucket otherwise; any other row for its own model under the provider it resolves to, or not at all |
| `PublicStats.ListedExactly` | packages/backend/src/public-stats/public-stats.service.ts:336-439 | without colons, a model is listed for a provider exactly when some row counts for it there |
| `PublicStats.ListedTokensAreExact` | packages/backend/src/public-stats/public-stats.service.ts:336-439 | without colons, a provider's list shows for each model the tokens of exactly the rows that count for it: a custom name those of the references that scrub to it, the bucket those of all other references |
| `PublicStats.TokensAreConserved` | packages/backend/src/public-stats/public-stats.service.ts:363-439 | provider totals add up to the kept rows, each provider's total is the sum of its models' and of its auth types', each model's total the sum of its days |
| `PublicStats.EntriesAreExact` | packages/backend/src/public-stats/public-stats.service.ts:378-397 | each model's total and each of its days is the tokens of exactly the rows published under its key (and date) |
| `PublicStats.CostsAreExact` | packages/backend/src/public-stats/public-stats.service.ts:392-395 | each model's cost is that of exactly the rows published under its key, and none when none of them has one |
| `PublicStats.KeyIsInjective` | packages/backend/src/public-stats/public-stats.service.ts:376-378 | without colons in providers and auth types, keys agree exactly when provider, model and auth type do |
| `PublicStats.ProvidersCollideExactly` | packages/backend/src/public-stats/public-stats.service.ts:378 | whatever the colons, two providers' keys meet for some model names exactly when one name is the other's followed by a colon and more |
| `PublicStats.ProvidersAreCreditedExactly` | packages/backend/src/public-stats/public-stats.service.ts:409-439 | without colons, a provider's total is the tokens of exactly the rows published for it |
| `PublicStats.AuthTypesAreCreditedExactly` | packages/backend/src/public-stats/public-stats.service.ts:426-438 | without colons, an auth type of a provider is credited with the tokens of exactly the provider's rows with it; those whose auth type is missing, empty or the default share two keys, credited together with exactly theirs |
| `PublicStats.MissingAuthIsDefault` | packages/backend/src/public-stats/public-stats.service.ts:426-438 | without empty auth types each has a key of its own, and a missing one that of the default |
| `PublicStats.ModelCountsAreExact` | packages/backend/src/public-stats/public-stats.service.ts:432-438 | an auth type's model count is the number of the provider's models with it that have any tokens |
| `PublicStats.CustomNamesAreBacked` | packages/backend/src/public-stats/public-stats.service.ts:366-369 | every listed model comes from a row of that label, and a custom row lends its own name only if ten distinct tenants back it |
| `PublicStats.EntriesAreLabelled` | packages/backend/src/public-stats/public-stats.service.ts:379-390 | an entry keeps the label of a row, whatever rows share its key |
| `PublicStats.FloorHoldsExactly` | packages/backend/src/public-stats/public-stats.service.ts:366-374 | for any resolver, everything listed under the custom label is anonymous, whatever the traffic, exactly when the resolver gives that label to no model without the custom prefix (but one named like the bucket) |
| `PublicStats.ReadsCustomExactly` | packages/backend/src/public-stats/public-stats.service.ts:118-132 | a recorded provider is published under the custom label exactly when its trimmed, lowered form is "custom" or starts with "custom:", given that the registry reserves the label |
| `PublicStats.ProviderNames` | packages/backend/src/public-stats/public-stats.service.ts:118-150 | the recorded provider decides unless missing, blank or unknown, then the price's; each goes by its id's display name, else its normalized id's, else as recorded |
| `PublicStats.ServiceMissesTheFloor` | packages/backend/src/public-stats/public-stats.service.ts:142-150 | under the service's own resolver the floor does not hold: model "llama-3" recorded with provider "custom" is listed by name with no tenant behind it |
| `PublicStats.TrafficIsAnonymousExactly` | packages/backend/src/public-stats/public-stats.service.ts:336-439 | under the service's resolver, without colons in providers and auth types, traffic lists only anonymous names under the custom label exactly when each row is harmless: kept apart from that label, or of a name ten tenants back |
| `PublicStats.RowHasEntry` | packages/backend/src/public-stats/public-stats.service.ts:378-390 | without colons, every published row has an entry with its label |
| `PublicStats.EntryIsListed` | packages/backend/src/public-stats/public-stats.service.ts:409-424 | every entry is listed for its provider |
| `PublicStats.LoneRowExactly` | packages/backend/src/public-stats/public-stats.service.ts:366-374 | under the service's resolver one row's traffic, whatever the tenants, keeps within the floor exactly when the row is harmless |
| `PublicStats.KeptTrafficIsAnonymous` | packages/backend/src/public-stats/public-stats.service.ts:366-374 | rows that are all references, bear the bucket's name or resolve to no custom provider keep within the floor, whatever the tenants and the keys |
| `AliasIndex.AddVariants` | packages/backend/src/model-prices/model-name-normalizer.ts:84-88 | each variant is claimed only if still free |
| `AliasIndex.IndexName` | packages/backend/src/model-prices/model-name-normalizer.ts:82-110 | one canonical name claims its keys in order, each only if still free |
| `AliasIndex.BuildAliasMap` | packages/backend/src/model-prices/model-name-normalizer.ts:79-122 | the two loops index all names and then add the fixed aliases where free |
| `AliasIndex.StripPrefixExactly` | packages/backend/src/model-prices/model-name-normalizer.ts:66-73 | exactly the first prefix that the name has is taken off, and nothing from a name without one |
| `AliasIndex.ClaimsExactly` | packages/backend/src/model-prices/model-name-normalizer.ts:82-110 | a canonical name claims its short variants, its bare name, that without version or variant, and the bare name's short variants, and nothing else |
| `AliasIndex.FirstClaimantExactly` | packages/backend/src/model-prices/model-name-normalizer.ts:82-110 | the first claimant is the one no name before shares the key with |
| `AliasIndex.IndexIsExact` | packages/backend/src/model-prices/model-name-normalizer.ts:82-111 | a canonical name stands for itself whoever else claims it; any other key for the first name that claims it |
| `AliasIndex.BareNamesAreIndexed` | packages/backend/src/model-prices/model-name-normalizer.ts:91-95 | a canonical name's bare name is indexed: for itself if canonical, else for a canonical name |
| `AliasIndex.ValuesAreKnown` | packages/backend/src/model-prices/model-name-normalizer.ts:79-122 | every value of the finished map is canonical or the target of a fixed alias |
| `AliasIndex.ResolveIsFirstHit` | packages/backend/src/model-prices/model-name-normalizer.ts:128-161 | the branching lookup is the first hit among six candidate names |
| `AliasIndex.CanonicalNamesAreStable` | packages/backend/src/model-prices/model-name-normalizer.ts:128-130 | a canonical name resolves to itself exactly when it is not empty, in any order of names and whatever collides with it |
| `AliasIndex.SpellingsReachCanonicalNames` | packages/backend/src/model-prices/model-name-normalizer.ts:128-161 | a name reaches a canonical one as it is, without its prefix, without its date, without its variant, with dashes for dots, or with those and without its date; the first of these that the index knows decides |
| `AliasIndex.ResolvedNamesAreKnown` | packages/backend/src/model-prices/model-name-normalizer.ts:128-161 | whatever the resolver returns is canonical or an alias target, and a canonical result resolves to itself |
| `AliasIndex.AliasesReachCanonicalNames` | packages/backend/src/model-prices/model-name-normalizer.ts:113-119 | an unclaimed alias resolves to the canonical name it is listed with |
| `AliasIndex.AliasesFollowTheIndex` | packages/backend/src/model-prices/model-name-normalizer.ts:113-119 | an unclaimed alias takes what its target stands for in the index, or else the target |
| `Scoring.AverageRecent` | packages/backend/src/scoring/momentum.ts:42-47 | the loop averages the tier scores of at most five recent tiers |
| `Scoring.ApplyMomentum` | packages/backend/src/scoring/momentum.ts:16-60 | computes the blended score, the weight, the average of at most five recent tiers, and whether momentum changed the score |
| `Scoring.WeightFalls` | packages/backend/src/scoring/momentum.ts:33-40 | the weight lies in [0, 0.6] and never grows with the length of the message |
| `Scoring.WeightIsTwoLines` | packages/backend/src/scoring/momentum.ts:33-40 | the weight falls in two straight lines, from 0.6 to 0.3 over 30 characters and from there to nothing at 100 |
| `Scoring.HistoryOfOneTier` | packages/backend/src/scoring/momentum.ts:42-47 | a history of one tier averages to its score |
| `Scoring.TierScoresAreEven` | packages/backend/src/scoring/momentum.ts:7-12 | the tiers score evenly around standard, a fifth apart |
| `Scoring.OnlyRecentTiersCount` | packages/backend/src/scoring/momentum.ts:42 | only the first five tiers count |
| `Scoring.AppliedExactly` | packages/backend/src/scoring/momentum.ts:57 | momentum counts as applied exactly when it changed the score |
| `Scoring.BlendIsBetween` | packages/backend/src/scoring/momentum.ts:42-49 | the effective score lies between the raw score and the history average |
| `Scoring.BlendMoves` | packages/backend/src/scoring/momentum.ts:49 | momentum moves the score towards the average by the weight's share of the distance |
| `Scoring.BlendIsMonotone` | packages/backend/src/scoring/momentum.ts:49 | a higher raw score never lowers the effective one |
| `Scoring.ComputeConfidence` | packages/backend/src/scoring/sigmoid.ts:10-20 | the loop finds the distance to the nearest boundary and passes it through the sigmoid |
| `Scoring.ConfidenceBounds` | packages/backend/src/scoring/sigmoid.ts:13-19 | confidence lies in [1/2, 1) |
| `Scoring.ConfidenceGrows` | packages/backend/src/scoring/sigmoid.ts:13-19 | confidence never falls with the distance from the nearest boundary, and is one half on it |
| `Scoring.MinDistanceIsLeast` | packages/backend/src/scoring/sigmoid.ts:13-17 | the distance is that of the nearest boundary |
| `Scoring.TierCountsBoundaries` | packages/backend/src/scoring/sigmoid.ts:3-8 | the tier counts the boundaries that the score reaches |
| `Scoring.ApplyTierFloors` | packages/backend/src/scoring/index.ts:255-284 | the tier is the higher of the score's and the request's floor; the reason says exactly which of momentum, size, tools or none decided |
| `Scoring.ScoreFully` | packages/backend/src/scoring/index.ts:225-243 | the full-scoring path: momentum, floors, confidence and the demotion, in that order, with the reason it gives |
| `Scoring.NoDemotion` | packages/backend/src/scoring/index.ts:240-243 | a confidence threshold of at most one half never demotes |
| `Scoring.FloorsHoldExactly` | packages/backend/src/scoring/index.ts:225-243 | every request keeps its floor exactly when the threshold is at most one half |
| `Scoring.DefaultTierIsSoundAndMonotone` | packages/backend/src/scoring/config.ts:105-108 | with the default configuration tools give at least standard, over 50,000 tokens at least complex, without either the tier is the blended score's, and it is monotone in the raw score |
| `Specificity.ComputeScores` | packages/backend/src/scoring/specificity-detector.ts:106-137 | the loops over matches, tools, signals, history and penalties compute each category's additive score |
| `Specificity.AddMatches` | packages/backend/src/scoring/specificity-detector.ts:114-118 | the loop adds to each category the weights of exactly its own matches |
| `Specificity.ApplySessionBias` | packages/backend/src/scoring/specificity-detector.ts:170-183 | exactly the category of three agreeing recent messages gains the bias |
| `Specificity.ApplyToolHeuristics` | packages/backend/src/scoring/specificity-detector.ts:185-199 | each tool adds its weight to the category of its first matching prefix |
| `Specificity.MatchAdds` | packages/backend/src/scoring/specificity-detector.ts:114-118 | one more match adds its weight to its dimension's category and nothing to any other |
| `Specificity.ToolCounts` | packages/backend/src/scoring/specificity-detector.ts:185-199 | a named tool counts three points for the category of the first pattern its name starts with |
| `Specificity.ToolAdds` | packages/backend/src/scoring/specificity-detector.ts:120-129 | one more tool adds its points, and with text the first coding tool one more to coding |
| `Specificity.SignalsAdd` | packages/backend/src/scoring/specificity-detector.ts:124-129 | what each text signal adds, and to which category |
| `Specificity.HistoryAdds` | packages/backend/src/scoring/specificity-detector.ts:170-183 | three agreeing recent messages add two points to their category |
| `Specificity.PenaltyComesOff` | packages/backend/src/scoring/specificity-detector.ts:133-137 | a penalty comes off its category's sum, not below zero, and touches no other |
| `Specificity.DetectSpecificity` | packages/backend/src/scoring/specificity-detector.ts:139-154 | for any thresholds: null exactly when no positive score reaches its threshold; else the earliest category of maximal score among those that do, with its exact confidence |
| `Specificity.ConfidenceBounds` | packages/backend/src/scoring/specificity-detector.ts:152-153 | with a threshold that is not negative an answer's confidence lies in [1/3, 1], and is 1 exactly from three times the threshold on; below 1 it is the score's share of that; with a negative threshold it is negative |
| `Specificity.PositiveThresholdsDecide` | packages/backend/src/scoring/specificity-detector.ts:142-148 | with positive thresholds reaching one is all that eligibility asks |
| `Specificity.BestIsUnique` | packages/backend/src/scoring/specificity-detector.ts:142-148 | that description determines the category |
| `Specificity.DetectionIgnoresOrder` | packages/backend/src/scoring/specificity-detector.ts:114-131 | no category's score changes when the matches or the tools are permuted |
| `Specificity.BestIgnoresOrder` | packages/backend/src/scoring/specificity-detector.ts:106-155 | nor does the detected category |

## Left out

- SetPath: JSON records are values, so writing in place is not modelled; every caller passes a fresh clone. A record used as a default would be shared between its spec and the written record, which no spec path that is prefix-free reaches.
- DeletePath: the same; the records on the way are rebuilt instead of changed in place.
- DeepMergeLoop: the same; the copy made by parsing and printing JSON is the identity.
- ApplyRequestParamDefaults: the order in which specs are sorted is not modelled; the method is proved for every order, as is `SnapshotRequestParams`.
- SetPath: paths are lists of segments; splitting at dots and refusing unsafe segments appear only where the snapshot writes body keys. Object prototypes and inherited properties are not modelled.
- OnePassSuffices: one direction only, as a handier form of `OnePassExactly`.
- Reassemble: lines come already split, and trimming and parsing the text after `data:` is one function; JavaScript's String() is a total function on JSON.
- ParseServerSentEvents: data stays text; decoding it as JSON is left out.
- StreamResponse: the non-streaming response shapes, request messages and tools are expressions over one body.
- QuotaProtocol: the historical count is a fixed number per key, and the trigger's choice of which request counts, and once, is one step per counted request; process crashes, the tenant-less call, the calendar month and the plan lookup are left out.
- OvershootIsBounded: the limits and the window are fixed during the run, and requests of the key itself let through on a lookup failure or recorded without a gate are excluded, since nothing bounds those.
- CatalogProtocol: table rows are taken as the two patterns match them; the fetch itself is a step that succeeds or fails.
- ModelRegistry: row ids are integers for their order alone; the table does not change while it is read.
- SessionCache: cookie hashing, the session lookup, tenant resolution and the loopback user; the cleanup timer is an event that evicts.
- GetProviderDailyTokens: the queries and their row limits, the provider registry behind the resolver, and the presentation order of the output; `getAgentDailyTokens` groups the same way by agent.
- TrafficIsAnonymousExactly: with a colon in a provider or an auth type, rows of different labels can share an entry that bears one of the labels only; for such traffic the direction of `HarmlessTrafficIsAnonymous` remains.
- AliasIndex: suffix patterns, short-id variants and the prefix and alias tables are parameters.
- Scoring: the early answers of `scoreRequest`, the dimension scorers and token estimation; numbers are reals, and the exponential is any positive monotone function that is 1 at 0.
- DetectSpecificity: the category header, which skips detection, and the text patterns and keyword weights, which are parameters.
- Trie: lower-casing is a parameter, and `size` only reports the count.
- Wiring, controllers, migrations other than the usage trigger, region and URL rules, billing integration, the frontend and the deploy scripts.
