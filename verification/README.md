# A verified model of AXIOM's evolution loop and of the router's attempt protocol

This project models, in Dafny 4.11, the two engines of the repository and the self-contained algorithms
around them, and proves what they promise. `dafny verify dfyconfig.toml` checks everything.

**AXIOM** (`packages/axiom-core`) improves an agent by building one-change candidate versions, measuring them
against a suite, and promoting or rejecting them.

- `PromptPatches`, `PatchRoundTrip`, `PatchAccounting`, `PatchTerms`: printing, scanning, parsing and applying
  prompt patches.
  The pattern that finds blocks is an explicit left-to-right scanner. A prompt *dangles* a header when it ends
  in the beginning of one that an appended block would complete.
- `CandidateVersions`: one-change candidates and the guardian's check on the prompt.
- `Statistics`, `NoiseFloor`, `Headroom`: means, spreads, and the two noise estimates. Values are reals and a
  spread is kept as its square, so "beyond noise" compares a squared delta with a variance.
- `Guardian`, `Roles`, `Promotion`, `PromotionTerms`: the ten checks, the four reviews, what their conjunction
  implies, and what it is in the stored data's own words.
- `Evaluation`, `CompleteResults`: the suite runner with its abort signal, and what a complete result adds up to.
- `VersionStore`, `VersionChain`, `Pipeline`: the store of versions, every run of validations and rollbacks over
  it, and the loop's own methods.
- `SteadyRuns`, `EditedSuite`: runs known in advance, and what becomes of the loop when a suite is edited under
  its id.
- `TracePairing`, `PairingLaws`, `TraceMetrics`: pairing tool calls with answers through per-name queues.

**The router** (`packages/router-core`) serves a request by trying a plan of candidates.

- `AttemptProtocol`: one streaming execution as a step machine. What an adapter, a consumer, the abort signal
  and the limiter do next is an event; the machine answers every admissible one.
- `SharedLimiter`: any number of text and image executions over one limiter, under any schedule.
- `ProviderLimiting`, `ExecutionEngine`, `EngineRuns`: the same as objects: the limiter with its release handles,
  the fields and arms of both failover loops, and many of them sharing a limiter; each method is proved against
  its machine.
- `ImageAttempts`: the image path as a step machine. `ErrorClasses`: the error taxonomy.
- `HealthTracking`, `DeadKeys`, `RetryHints`: cooldowns and the auth breaker against the full log, how often a
  revoked key is tried when attempts overlap, and the retry hint.
- `DriftMonitoring`: the pruned sliding window against the unpruned log, under any clock.
- `ContextCompression`, `CompressionLaws`, `SummarisedCompression`: dropping whole turns, and the summary tier.
  A message carries the identity of its object, since kept messages are collected in a set of objects.
- `JsonPath`, `JsonPathLaws`: the JSONPath subset.

**Stand-alone algorithms**: `RustMasking`, `TokenLaws`, `MaskingLaws`, `TestItems`, `StrippingLaws`, `TestItemLaws`
(the panic census's masker and stripper), `LineFraming`, `FramedLines` (a streamed body cut into lines)
and `TextLines` (splitting at newlines).

Runners, adapters, clocks, abort signals, minted ids, the summariser and the policy predicates are parameters:
functions of a position, or events of a script. Loops and objects of the source are methods and classes here,
each tied by its contract to a function or predicate about which the laws are proved.

## Where the code and its documentation part

The model follows the code. These are proved, each with its exact condition.

- A loop-parameter candidate over a configuration without an override is measured by the prompt-budget check as
  if its prompt were empty, so it fails exactly when the built-in prompt has unmarked text (`LoopCandidateBudget`).
- The verifier's noise estimate counts the spread between tasks, which the guardian's was designed to leave out;
  some gain in pass rate clears it exactly when more than a third of the baseline fails (`SomeGainClearsIff`), and
  the two estimates part on a full repair exactly below that (`EstimatorsPartIff`, `OneTaskRepairedIsRefused`).
- A revoked key costs one failed authentication a window exactly when attempts on it never overlap; with c under way
  at a time it costs up to c (`OneFailureAWindowIff`, `BoundIsReached`, `TwoAtOnce`).
- A stored measurement is reused by suite id, version, model and repeats, whatever tasks it covers: after an edit of
  the suite a promotion can lower the pass rate exactly when the suite kept all stored tasks and holds another
  (`LowersIff`, `PromotionLowersThePassRate`); it cannot when each reused result covers the suite as it is (`Improve`).
- A minted version id that a stored version names as its missing parent breaks the order of the chain (`ChainKeptIff`).
- The drift monitor's window is that of the whole log exactly when no attempt of it was pruned earlier, as happens
  when the clock is set back (`WindowIsWholeIff`, `ClockSetBack`).
- A body whose first pass was left without the signal, or whose read rejected, can never be read again (`Lines`).
- A promotion over the built-in configuration cannot be rolled back (`RollbackUndoesPromotion`).
- When the parent a promotion should retire is not in the store, that is noticed after the candidate is active
  (`RecordVerdict`).
- Listing results with an empty suite or version id does not filter by it (`ListSuiteResults`).
- The retry hint skips attempts that named no wait, though the tracker cools their keys for the floor, and counts
  none for a skipped candidate, though its key is free; it is exact under the conditions of `EngineHintIsExactIff`.
- With a summary, a message object cut away in one place and kept in another is not reported as dropped
  (`DroppedIsTheRestIff`).
- Replaying a remembered body yields one empty line more than reading it when it is empty or ends in a newline
  (`ReplayAgreesIff`).
- An aborted image request fails with the all-failed error, an aborted text request ends silently
  (`ExecutionEngine.ExecuteImage`, `FailsExactlyKept`); a negative bound means different things on the two paths
  (`PathsAllowTheSameIff`).
- A JSON field named `*` cannot be addressed (`StarIsAlwaysTheWildcard`); calls of two different tools can look like a
  repeat exactly when one name with a NUL behind it begins the other (`NamesCollideIff`).

## Model

| member | source | states |
|---|---|---|
| PromptPatches.ParsePromptPatches | packages/axiom-core/src/version.ts:346-356 | the parsing loop returns exactly the blocks of the left-to-right scan, each match without its leading blank line and split at its first `]` + newline; a match with no closing bracket contributes nothing |
| PromptPatches.ApplyPromptPatches | packages/axiom-core/src/version.ts:306-334 | the application loop equals the fold of the single-patch step: already present (plain substring), then the patch cap, then the character cap, then appended; the lemmas below say what that fold keeps |
| PromptPatches.SeamHeader | packages/axiom-core/src/version.ts:280 | behind an appended block, a header starts inside the base exactly where one was already, or where the base dangles one that the block completes |
| PatchRoundTrip.MatchesTile | packages/axiom-core/src/version.ts:280-287 | from any position, the matches laid end to end are the prompt from its next header on: the pattern leaves no gap between blocks |
| PatchRoundTrip.PatchCharsIsTail | packages/axiom-core/src/version.ts:283-300 | for every prompt, the counted characters are the whole tail from the first header and the unmarked text is everything before it |
| PatchRoundTrip.ParsePrints | packages/axiom-core/src/version.ts:336-356 | each parsed block prints back to the very match it came from |
| PatchRoundTrip.PrintAfterParse | packages/axiom-core/src/version.ts:336-356 | for every prompt whatsoever, the unmarked text followed by the parsed blocks printed again is the prompt, character for character |
| PatchRoundTrip.AppendMatches | packages/axiom-core/src/version.ts:280 | the matches of a prompt with a block appended are the old ones and the block, if and only if the base does not dangle and the block's text holds no header |
| PatchRoundTrip.AppendRoundTrip | packages/axiom-core/src/version.ts:302-356 | appending one block with a well-formed marker is parsed back as exactly that patch behind the old ones, if and only if the base does not dangle and the text embeds no header |
| PatchAccounting.AppendCharge | packages/axiom-core/src/version.ts:270-300 | an appended block adds exactly its own length to the counted characters, and leaves the unmarked text alone, if and only if the base already holds a header or dangles none |
| PatchAccounting.ApplyRoundTrip | packages/axiom-core/src/version.ts:302-356 | for well-formed patches over a base that does not dangle, parsing the patched prompt gives the blocks of the base, then the applied patches in order, and the count, the counted characters and the unmarked text move by exactly what was appended |
| PatchAccounting.ApplyRespectsCaps | packages/axiom-core/src/version.ts:317-330 | whatever the texts hold, over a base that holds a header or dangles none, the counted characters never exceed the larger of the cap and what the base had; nor does the number of blocks, when texts and base hide no header |
| PatchAccounting.EveryPatchAccountedFor | packages/axiom-core/src/version.ts:312-333 | for every base, list and cap, every input patch ends in exactly one of applied, already present and refused |
| PatchAccounting.ApplyTwice | packages/axiom-core/src/version.ts:302-334 | for every base, list and cap: applying the same list to the result again changes no character and applies nothing |
| PatchAccounting.ReapplyParsed | packages/axiom-core/src/version.ts:336-356 | re-applying what was parsed out of a prompt finds every patch already present |
| PatchTerms.HeaderIs | packages/axiom-core/src/version.ts:280 | a header starts exactly where two newlines, `[axiom:`, one or more lower-case letters, digits and dashes, a closing bracket and a newline stand |
| PatchTerms.PatchBecomes | packages/axiom-core/src/version.ts:312-333 | what becomes of each patch behind any others: set aside when its marker occurs in the prompt so far, else refused when the cap on blocks is reached, else refused when its print takes the blocks past the cap on characters, else appended as a block |
| CandidateVersions.PromptCandidateBuiltWhen | packages/axiom-core/src/version.ts:383-398 | a prompt proposal is refused exactly when its marker is already in the amended prompt or a cap leaves no room |
| CandidateVersions.PromptCandidatePassesBudget | packages/axiom-core/src/guardian.ts:385-412 | every candidate built from a well-formed patch over a non-dangling prompt within the caps passes the prompt-budget check, and carries exactly one block more than its base |
| CandidateVersions.LoopCandidateBudget | packages/axiom-core/src/guardian.ts:385-397 | a loop-parameter candidate passes the prompt-budget check if and only if it has an override within the caps, or has none and the built-in prompt has no unmarked text: the check compares the absent override as an empty prompt |
| CandidateVersions.LoopCandidateOverBuiltinFails | packages/axiom-core/src/guardian.ts:386-397 | a concrete loop-parameter candidate over the built-in configuration that the prompt-budget check refuses |
| CandidateVersions.CandidateIsOneChange | packages/axiom-core/src/version.ts:373-434 | a built candidate is an undecided child of its parent differing in exactly one configuration field, save when the loop change names the value already in force, when it differs in none |
| CandidateVersions.CandidateIs | packages/axiom-core/src/version.ts:373-434 | what is built is an undecided child of its parent with the proposal's targets and evidence and exactly the proposed change: the amended prompt with the patch printed behind it and the loop as it was, or the named loop field at its proposed value, the other field and the override as they were |
| CandidateVersions.RefusedBecause | packages/axiom-core/src/version.ts:373-434 | and why nothing is built: a manual proposal, a missing change, a marker already in the prompt, six blocks already there, or 2400 characters exceeded, each exactly when |
| Statistics.ValuesByTask | packages/axiom-core/src/guardian.ts:93-103 | the grouping loop lists the tasks in first-appearance order and gives each exactly its own values in order |
| Statistics.WithinTaskSpread | packages/axiom-core/src/guardian.ts:137-150 | the accumulation over both sides' groups is the pooled within-task variance, absent exactly when no task has two attempts |
| Statistics.DeviationAbout | packages/axiom-core/src/guardian.ts:142-146 | squared deviation about any point is the scatter about the mean plus the count times the squared distance: the identity the split of the spread rests on |
| NoiseFloor.DifficultyIsNotNoise | packages/axiom-core/src/guardian.ts:82-150 | adding any constant per task to all its attempts, different for every task, leaves the pooled spread unchanged |
| NoiseFloor.DifficultyMovesNoVerdict | packages/axiom-core/src/guardian.ts:172-202 | with equally many attempts per task on both sides, the same shifts leave delta and the beyond-noise verdict unchanged |
| NoiseFloor.TotalScatterSplits | packages/axiom-core/src/guardian.ts:82-150 | total squared deviation over all attempts is the within-task part plus the between-task part |
| NoiseFloor.EstimatesAgreeOnOneTask | packages/axiom-core/src/roles.ts:230-247 | on one task with equally many attempts per side the guardian's and the verifier's noise estimates, hence their verdicts, coincide |
| Headroom.NoRoomAboveTwoThirds | packages/axiom-core/src/roles.ts:230-247 | whatever the suite: if at most a third of the baseline's attempts fail, no gain in pass rate clears the verifier's across-task estimate |
| Headroom.SomeGainClearsIff | packages/axiom-core/src/roles.ts:218-252 | for every baseline of n attempts, k of them failed: some gain in pass rate clears the verifier's estimate if and only if k(3n - 2) > n * n, which from three attempts on is 3k > n |
| Headroom.RepairClearsIff | packages/axiom-core/src/roles.ts:230-247 | repairing every failed attempt clears the verifier's estimate under exactly that condition, so no candidate can do where a full repair does not |
| Headroom.EstimatorsPartIff | packages/axiom-core/src/guardian.ts:82-150 | over a baseline whose tasks always go the same way, a full repair is beyond the guardian's noise and not beyond the verifier's if and only if something failed and k(3n - 2) <= n * n |
| Headroom.GuardianAcceptsWhatVerifierRefuses | packages/axiom-core/src/guardian.ts:82-92 | a family of repairs the within-task floor is meant to let through and the verifier's estimate refuses: the two estimators do disagree |
| Headroom.OneTaskRepairedIsRefused | packages/axiom-core/src/roles.ts:218-252 | an input of that family: three tasks run twice, one always failing, all passing afterwards |
| Guardian.CompareMetric | packages/axiom-core/src/guardian.ts:172-202 | one metric compared: no delta when any attempt on either side lacks the value or there is none, else the two means, their difference and the beyond-noise verdict against the within-task spread |
| Guardian.RunGuardian | packages/axiom-core/src/guardian.ts:245-444 | the report lists the source's checks in its order (nine when no metric is targeted, else ten), each passed exactly when its condition holds of the input; it passes exactly when all ten conditions hold; the deltas compared are listed, target first |
| Guardian.ReportIsUnique | packages/axiom-core/src/guardian.ts:245-444 | every input has exactly one such report |
| PromotionTerms.ChecksListed | packages/axiom-core/src/guardian.ts:245-444 | the ten checks by name in the source's order, nine when the proposal names no field that can be a target |
| Roles.Investigate | packages/axiom-core/src/roles.ts:57-90 | approves exactly when the proposal targets findings, cites evidence, and each target is in the register with evidence that names its steps and more than a single occurrence behind it (or a differential) |
| Roles.ReviewArchitecture | packages/axiom-core/src/roles.ts:92-156 | approves exactly when the change is automatic and not blamed on the model, does not answer a runaway, waste or loop by raising a bound, differs from its parent in exactly one field, and is explained in forty characters or more |
| Roles.Critique | packages/axiom-core/src/roles.ts:158-200 | approves exactly when the suite has two tasks of two capabilities and three repeats, some baseline attempt failed, and a prompt patch does not answer a perfect pass rate |
| Roles.Verify | packages/axiom-core/src/roles.ts:211-265 | approves exactly when every check passed, the means and the noise verdict recomputed from the raw attempts agree with the reported delta, and the version is still a candidate |
| Roles.RecomputesIff | packages/axiom-core/src/roles.ts:218-252 | the recomputation agrees exactly when both reported means are within a billionth of the raw values' and the verdict is that of the mean of the two sides' variances |
| Roles.SingleRecomputes | packages/axiom-core/src/roles.ts:218-252 | with a single value on a side there is no variance, and the recomputation agrees only with a verdict of not beyond noise |
| Promotion.Decide | packages/axiom-core/src/pipeline.ts:318-345 | promote exactly when the guardian passes and all four roles approve |
| Promotion.VerifierAddsOneEstimate | packages/axiom-core/src/roles.ts:202-265 | given the guardian's report, the verifier approves if and only if the report passed, the version is a candidate and the target's movement clears the across-task estimate as well: its other recomputations can never disagree |
| Promotion.PromotionIsSound | packages/axiom-core/src/pipeline.ts:318-353 | a promotion implies the same suite, model and repeats (three or more), no task's pass rate fell, the target moved the right way by the minimum effect and beyond both noise estimates, tokens and duration within tolerance, the prompt budget, one changed field, and supported findings |
| Promotion.PassRatePromotionNeedsRoom | packages/axiom-core/src/roles.ts:230-247 | a change judged on the pass rate is promoted only if k of the baseline's n attempts fail with k(3n - 2) > n * n, which is more than a third |
| PromotionTerms.TargetImprovedIff | packages/axiom-core/src/guardian.ts:204-210 | the check on the target passes if and only if the mean of the field the proposal names, a sum over the attempts' own field, has moved by at least the minimum effect to its better side: up for passes (also when no field is named) and verification calls, down for iterations, tokens, duration, tool failures, denied calls and the repeat ratio; tool calls and unknown names never pass |
| PromotionTerms.TolerancesIff | packages/axiom-core/src/guardian.ts:350-384 | the cost and the latency check pass if and only if the mean tokens and the mean duration, over attempts that all ended, are within their tolerance of the baseline's |
| PromotionTerms.PromotesIff | packages/axiom-core/src/pipeline.ts:318-345 | a version is promoted if and only if it meets the terms, each a condition on what was measured and stored: same conditions, no task fell, the named field's movement clears both spreads, tokens and time within tolerance, the prompt within its budget, evidence and findings on file, one field changed by a change of the right kind, and an experiment that could have told |
| Evaluation.RunAttempts | packages/axiom-core/src/evaluate.ts:268-296 | the runner is asked along the script (every task in suite order, every repeat in turn), each time after finding the signal down, until the script ends, the signal is up or the runner throws; each attempt tells the trial at its place field by field and each token counter is the sum over those trials |
| Evaluation.ScriptFollowsSchedule | packages/axiom-core/src/evaluate.ts:268-269 | that script is the schedule of all tasks' repeats |
| Evaluation.ScriptAt | packages/axiom-core/src/evaluate.ts:268-269 | repeat r of task i stands in the script behind i whole rows of repeats, with what the runner does there |
| Evaluation.AttemptAt | packages/axiom-core/src/evaluate.ts:209-227 | wherever a run stops, attempt i * repeats + r tells the trial the runner gave for repeat r of task i, field by field |
| Evaluation.RecordsPay | packages/axiom-core/src/evaluate.ts:282-283 | prompt and completion tokens together are what the attempts add up to |
| Evaluation.EvaluateSuite | packages/axiom-core/src/evaluate.ts:259-317 | the result holds exactly the attempts so made under the asked-for conditions (three repeats unless asked, at least one); its pass rate, and each task's attempts, passes and pass rate, are the score of the runner's own outcomes so far; `aborted` exactly when attempts are missing; it is stored unless aborted, and a runner that throws yields and stores nothing |
| Evaluation.FinishedRunIsComplete | packages/axiom-core/src/evaluate.ts:268-316 | for unique task ids the result is complete if and only if the run was not aborted |
| Evaluation.MemoryResultStore.PutSuiteResult | packages/axiom-core/src/inmemory.ts:75-77 | a result is appended and none changes |
| Evaluation.MemoryResultStore.ListSuiteResults | packages/axiom-core/src/inmemory.ts:79-84 | the stored results of that suite and version in order; an empty id does not filter |
| CompleteResults.EveryTaskAttempted | packages/axiom-core/src/evaluate.ts:229-257 | in a complete result every task has exactly `repeats` attempts |
| CompleteResults.TotalsAreSums | packages/axiom-core/src/evaluate.ts:229-316 | for unique task ids, finished or aborted, the per-task attempts and passes sum to the totals behind the pass rate |
| CompleteResults.NoRegressionLiftsPassRate | packages/axiom-core/src/guardian.ts:281-303 | between any two complete results with equal repeats: if no task of the baseline fell, the candidate's rate over the baseline's tasks is not below the baseline's, and only tasks the baseline has not measured can take its overall rate below |
| VersionStore.MemoryConfigStore.Put | packages/axiom-core/src/inmemory.ts:38-41 | stores a version whose id is new and refuses any other, changing nothing |
| VersionStore.MemoryConfigStore.SetState | packages/axiom-core/src/inmemory.ts:43-52 | sets one version's state and, when activating, retires every other active one; an unknown id changes nothing and is refused |
| VersionStore.MemoryConfigStore.GetVersion | packages/axiom-core/src/inmemory.ts:29-31 | the one stored version of that id, absent exactly when none has it |
| VersionStore.MemoryConfigStore.ActiveVersion | packages/axiom-core/src/inmemory.ts:33-36 | the search loop returns a stored active version with no active one before it, and nothing exactly when none is active |
| VersionStore.MemoryConfigStore.EffectiveConfig | packages/axiom-core/src/inmemory.ts:60-63 | the configuration of the stored active version that no active one precedes; the built-in one when no stored version is active |
| VersionStore.Rollback | packages/axiom-core/src/pipeline.ts:533-552 | refused for want of an active version, of a parent, or of the parent in the store; otherwise the active version is retired and its parent made active; a refusal changes nothing |
| VersionStore.ValidatedIs | packages/axiom-core/src/pipeline.ts:291-362 | the chain after a validation, version by version: the candidate at the end, undecided, rejected or active and linked to its decision; a promotion retires whatever was active and the baseline, and nothing else changes |
| VersionStore.RollbackIs | packages/axiom-core/src/pipeline.ts:533-552 | the chain after a rollback, version by version: refused exactly when nothing is active, the first active version names no parent, or that parent is not stored; else the parent is active and whatever else was active is retired |
| VersionChain.ChainKeptIff | packages/axiom-core/src/pipeline.ts:291-362 | a validation that stores a new id keeps the chain's order if and only if no stored version names that id as its parent and the candidate's parent has another id |
| VersionChain.EveryRunIsSafe | packages/axiom-core/src/pipeline.ts:291-362 | for every sequence of validations (promoted, rejected, aborted) and rollbacks from a well-formed chain: at most one version is active, ids stay distinct, parents precede their children, and no stored configuration changes |
| VersionChain.NoConfigurationEverChanges | packages/axiom-core/src/inmemory.ts:38-58 | between any two moments of any run from the empty store every stored version keeps everything but its state and decision, and none disappears |
| VersionChain.OnlyPromotionChangesActive | packages/axiom-core/src/pipeline.ts:299-315 | a rejected or aborted validation leaves the active version alone |
| VersionChain.PromotionActivates | packages/axiom-core/src/pipeline.ts:355-362 | a promotion makes exactly the candidate active |
| VersionChain.RollbackUndoesPromotion | packages/axiom-core/src/pipeline.ts:533-552 | rolling back a promotion restores exactly the parent's configuration; over the built-in configuration, or a parent the store lacks, it is refused |
| VersionChain.RollbackRestoresActive | packages/axiom-core/src/pipeline.ts:533-552 | a promotion over the active version, rolled back, restores the previous effective configuration |
| VersionChain.RollbackActivatesParent | packages/axiom-core/src/pipeline.ts:541-549 | a rollback that is not refused makes the parent the one active version, strictly earlier in the chain |
| VersionChain.RollbacksTerminate | packages/axiom-core/src/pipeline.ts:533-552 | after more rollbacks than there are versions before the active one, the next is refused and changes nothing |
| Pipeline.Axiom.Benchmark | packages/axiom-core/src/pipeline.ts:224-258 | the first stored result of that suite, version, model and repeats is returned and nothing is run; failing that the suite is run along its script, a finished run stored, a stopped one not; the stored results stay complete, and what is returned unstopped is complete under the asked-for conditions |
| Pipeline.FoundIsFirst | packages/axiom-core/src/pipeline.ts:233-239 | what a benchmark finds in the listing is the first stored result of that suite, version, model and repeats, and it finds none exactly when there is none |
| Pipeline.Axiom.Validate | packages/axiom-core/src/pipeline.ts:260-372 | one validation performs exactly one operation of the version chain on the candidate the proposal builds, which carries exactly the proposed change: refused, or an id the store already has (nothing changes), stopped or failed with its benchmark (candidate stored, undecided), or decided on the complete result its benchmark gave, with the decision recorded and promoted exactly when it meets the terms of a promotion; the stored versions are those of before with the candidate and the verdict's states; a chain stays one if and only if nothing was stored or the new id was named by no stored version and not by the baseline |
| Pipeline.Axiom.RecordVerdict | packages/axiom-core/src/pipeline.ts:355-362 | the decision is linked, the candidate's state set and a promoted candidate's parent retired; a parent that is neither stored nor the candidate itself is noticed only after the activation |
| Pipeline.Axiom.Improve | packages/axiom-core/src/pipeline.ts:374-486 | a whole improvement step: the baseline of the active version is benchmarked first, and exactly its failure, its stop, the lack of a proposal or a complete baseline decide how the step ends; a decision compares two complete results of equal conditions and promotes exactly on the terms; both cover the suite as it is now if and only if each reused one does, and then a promotion never lowers the pass rate; otherwise no version and no decision changes |
| Pipeline.Axiom.RollBack | packages/axiom-core/src/pipeline.ts:533-552 | the loop's rollback performs the chain's rollback, version by version, and reports its refusal |
| Pipeline.PromotionNeverLowersThePassRate | packages/axiom-core/src/pipeline.ts:318-353 | between complete results a promotion never lowers the pass rate over the tasks the baseline measured, nor the overall one when the candidate measured no other task |
| Pipeline.FreshRunCovers | packages/axiom-core/src/pipeline.ts:230-258 | a benchmark that was not reused covers exactly the suite's tasks, in order |
| EditedSuite.LowersIff | packages/axiom-core/src/pipeline.ts:233-258 | for every list of stored tasks and every suite: some promotion of a built candidate over a complete baseline of those tasks lowers the pass rate if and only if the baseline is not empty, both lists have unique ids, the suite holds every stored task, two capabilities and a task that is not stored |
| EditedSuite.EditIsPromoted | packages/axiom-core/src/pipeline.ts:233-345 | for every such edit the stored baseline is reused, and every report of a candidate that is faster and fails the new tasks promotes it |
| EditedSuite.PromotionLowersThePassRate | packages/axiom-core/src/pipeline.ts:233-239 | an instance: a third task is added to a suite of two, and the promoted pass rate falls from 2/3 to 4/9 |
| ProviderLimiting.ProviderLimiter.Acquire | packages/router-core/src/concurrency.ts:69-85 | refuses exactly when the cap now in force is above zero and as many handles of the provider are live; otherwise counts one more and hands out a fresh handle, never past the cap |
| ProviderLimiting.ReleaseHandle.Release | packages/router-core/src/concurrency.ts:78-84 | gives one slot back the first time and changes nothing after; a count reaching zero is removed |
| ProviderLimiting.NothingLiveNothingCounted | packages/router-core/src/concurrency.ts:54-84 | the map is empty if and only if no handle is live |
| AttemptProtocol.FailureClassesAreFailures | packages/router-core/src/execution-engine.ts:257-279 | whatever an attempt threw, its class is neither OK nor NO_OUTPUT |
| ErrorClasses.ClassOf | packages/router-core/src/errors.ts:83-102 | each class exactly when its status and hint give it; a status alone never means empty or unreadable output |
| ErrorClasses.DriftClasses | packages/router-core/src/errors.ts:39-44 | the four classes that count as drift |
| AttemptProtocol.FailureClassIs | packages/router-core/src/execution-engine.ts:272-279 | before any output: anything but an HTTP error is NETWORK, a stated timeout TIMEOUT, a break in mid-stream or under a status of success PARSE_ERROR, else what the status and the hint say |
| AttemptProtocol.BreakClassIs | packages/router-core/src/execution-engine.ts:257-265 | after output has been delivered, a break is read from its status and hint alone |
| AttemptProtocol.BeginIs | packages/router-core/src/execution-engine.ts:119-127 | an execution starts at the first candidate with nothing done, allowed as many attempts as the bound, or six, says but never more than the plan has |
| AttemptProtocol.BeginInvariant | packages/router-core/src/execution-engine.ts:119-127 | a new execution satisfies the protocol's invariant for every plan and bound, negative bounds included |
| AttemptProtocol.OneVoiceKept | packages/router-core/src/execution-engine.ts:140-305 | every step keeps: all chunks and tool calls delivered come from the one served candidate, and after the first delivery no other is moved to |
| AttemptProtocol.DialledInOrderKept | packages/router-core/src/execution-engine.ts:141-150 | every step keeps: candidates are dialled in plan order, each at most once, none after the served one |
| AttemptProtocol.AlignedKept | packages/router-core/src/execution-engine.ts:141-296 | every step keeps: entry k of the fallback chain is plan entry k, and the chain is never longer than the allowed attempts |
| AttemptProtocol.FailsExactlyKept | packages/router-core/src/execution-engine.ts:234-305 | every step keeps: the all-failed ending is reached exactly when all allowed entries failed, none for lack of output, with nothing delivered, no abort seen and no consumer's return |
| AttemptProtocol.HealthToldKept | packages/router-core/src/execution-engine.ts:229-293 | every step keeps: the health tracker hears of exactly the dialled attempts that failed without output, in the chain's own words, then of the success of the last one dialled if the stream ended; skipped candidates and mid-stream breaks are not reported |
| AttemptProtocol.NextIs | packages/router-core/src/execution-engine.ts:140-305 | every event's whole effect: what it adds to the chain, to what the tracker hears, to what is delivered and dialled, who is served, where the loop stands and what comes next |
| AttemptProtocol.NextKeepsInvariant | packages/router-core/src/execution-engine.ts:140-305 | the five properties together are inductive for every adapter, abort and consumer behaviour |
| AttemptProtocol.EveryEventButADeliveryUsesWork | packages/router-core/src/execution-engine.ts:1-7 | there is no hidden retry: every event but a delivery uses up work bounded by the allowed attempts |
| SharedLimiter.ResumeKeepsCounts | packages/router-core/src/execution-engine.ts:146-150 | one resumption of any text execution keeps every provider's count equal to the executions of either kind holding its slot, and stores no zero |
| SharedLimiter.ResumeImageKeepsCounts | packages/router-core/src/execution-engine.ts:328-355 | so does one resumption of any image execution: a slot taken before the adapter is asked, given back when it answers or throws |
| SharedLimiter.StepKeepsSafe | packages/router-core/src/execution-engine.ts:140-358 | so does every step of the shared system: resumptions of text and image executions, new requests of both kinds, cap changes; and each execution keeps its invariant |
| SharedLimiter.NoAcquirePastTheCap | packages/router-core/src/concurrency.ts:64-76 | no step raises a count past the cap then in force |
| SharedLimiter.EveryScheduleIsSafe | packages/router-core/src/execution-engine.ts:140-358 | in every state any schedule of any number of text and image executions reaches from an idle system, counts match holders, every text execution speaks with one voice, and every image execution is what its own signals, slots and answers make of its plan |
| SharedLimiter.AllEndedAllFree | packages/router-core/src/execution-engine.ts:297-355 | once every text and image execution has ended, by success, failure, break, abort or early return, the map is empty |
| SharedLimiter.NeverMoreThanTheBound | packages/router-core/src/concurrency.ts:50-76 | while all caps ever set lie within a bound, no provider ever has more in flight |
| ExecutionEngine.TextExecution.Advance | packages/router-core/src/execution-engine.ts:141-160 | the loop top as code: abort, acquire, skip or dial; the object's state moves as the protocol's step, the shared map as its slot rule |
| ExecutionEngine.TextExecution.OnChunk | packages/router-core/src/execution-engine.ts:223-227 | a chunk marks the candidate served once and is the protocol's step |
| ExecutionEngine.TextExecution.OnToolCall | packages/router-core/src/execution-engine.ts:181-187 | a tool call counts as output and serves the candidate unless one is served already |
| ExecutionEngine.TextExecution.OnFinish | packages/router-core/src/execution-engine.ts:229-250 | a stream that ends is reported OK, recorded as NO_OUTPUT when it delivered nothing, and its slot is released |
| ExecutionEngine.TextExecution.OnFailure | packages/router-core/src/execution-engine.ts:251-300 | a failure after output ends the execution; before output it is recorded, reported and passed over unless the signal is up; the slot is released either way |
| ExecutionEngine.TextExecution.OnReturn | packages/router-core/src/execution-engine.ts:297-300 | a consumer closing the stream releases the slot |
| EngineRuns.Dispatch | packages/router-core/src/execution-engine.ts:140-305 | whichever event drives it, an execution object does the protocol's step and the slot rule, and no other handle is touched |
| EngineRuns.Engine.Resume | packages/router-core/src/execution-engine.ts:107-117 | resuming one of many text executions over one limiter is the shared system's step |
| EngineRuns.Engine.ResumeImage | packages/router-core/src/execution-engine.ts:318-358 | and so is resuming one of many image executions over that limiter |
| EngineRuns.Drive | packages/router-core/src/execution-engine.ts:107-358 | a whole schedule run on the objects of both kinds ends in the state the shared system ends in |
| ImageAttempts.FollowsKept | packages/router-core/src/execution-engine.ts:328-356 | every step keeps: the run so far is what the signal, the slots and the answers make of its plan: candidates in order, the first with a slot and an image wins, the rest leave their entry; every attempt with a slot is reported and no other |
| ImageAttempts.ImageInvariantKept | packages/router-core/src/execution-engine.ts:328-356 | every event keeps: the run is what the signals, slots and answers of its own course so far, candidate by candidate, make of its plan |
| ImageAttempts.ImageLimitIs | packages/router-core/src/execution-engine.ts:328 | the image path goes through as many entries as the bound, or six, says; a negative bound leaves out so many from the end |
| ExecutionEngine.ImageExecution.Advance | packages/router-core/src/execution-engine.ts:328-335 | the loop top as code: abort, acquire, skip or ask the adapter; the object's state moves as the machine's step, the shared map as its slot rule |
| ExecutionEngine.ImageExecution.OnAnswer | packages/router-core/src/execution-engine.ts:336-355 | an image ends the run, a refusal or an exception moves to the next candidate; recorded and reported as the machine does, and the slot is released either way |
| ExecutionEngine.ExecuteImage | packages/router-core/src/execution-engine.ts:318-358 | with no other request between, the whole call ends as the signal, the free providers and the answers make it, and the limiter's map and live handles are what they were |
| ImageAttempts.PathsAllowTheSameIff | packages/router-core/src/execution-engine.ts:328 | the text and the image path allow equally many attempts if and only if the bound is not negative or cuts the whole plan away |
| HealthTracking.HealthTracker.IsKeyUsable | packages/router-core/src/health-tracker.ts:88-95 | the answer is a predicate on the key's record and its whole history since its last OK, and asking changes no answer |
| HealthTracking.HealthTracker.RecordResult | packages/router-core/src/health-tracker.ts:102-125 | the key's fields become those of its log with one entry more |
| HealthTracking.HealthTracker.ResetKey | packages/router-core/src/health-tracker.ts:127-129 | the key's history is forgotten and no other key's |
| HealthTracking.UsableIffHistoryAdmits | packages/router-core/src/health-tracker.ts:83-125 | usable at a moment if and only if the record admits it, the latest rate limit since the last OK has been waited out, and after three or more auth failures a minute has passed since the latest |
| DeadKeys.DeadKeyIsRarelyTried | packages/router-core/src/health-tracker.ts:38-62 | with at most c attempts on the key under way at a time, each begun only while the key is usable, at most 2 + c(1 + L/60000) of them fail authentication in any span of length L in which the key neither succeeds nor is reset |
| DeadKeys.BoundIsReached | packages/router-core/src/health-tracker.ts:45-48 | that bound is met for every c above zero and every number of minutes |
| DeadKeys.OneFailureAWindowIff | packages/router-core/src/health-tracker.ts:46-48 | one auth failure a window past the three that open the breaker, in every span, if and only if attempts on the key never overlap |
| DeadKeys.TwoAtOnce | packages/router-core/src/route-planner.ts:156 | an input: two failures, then two attempts that both begin at 0 and fail at 1: four failures in a millisecond |
| DeadKeys.OneByOneIsRarelyTried | packages/router-core/src/health-tracker.ts:38-62 | one attempt after another, at most 3 + L/60000 auth failures in any span of length L of the key's log without an OK |
| DeadKeys.HealthIsTracked | packages/router-core/src/health-tracker.ts:68-129 | the health such a timeline leads to is the one replayed from the notes it leaves with the tracker |
| RetryHints.MinRetryAfterMs | packages/router-core/src/execution-engine.ts:388-395 | the shortest named wait, floored at a second; zero exactly when none was named |
| RetryHints.EachKeyToldOnce | packages/router-core/src/health-tracker.ts:102-113 | recording a chain of distinct keys at one instant gives each key exactly its own outcome and leaves all others alone |
| RetryHints.HintIsExactIff | packages/router-core/src/execution-engine.ts:371-395 | for a chain of rate limits on distinct usable keys at one instant, the first moment any key is usable again is exactly the hint later if and only if every attempt named its wait or some named wait is within the floor |
| RetryHints.FailedExecutionToldItsChain | packages/router-core/src/execution-engine.ts:280-293 | a failed execution that got a slot for every candidate has told the health tracker exactly its fallback chain |
| RetryHints.EngineHintIsExactIff | packages/router-core/src/execution-engine.ts:302-395 | the hint a failed request carries is exact, against the tracker that request itself informed, under the same condition when every candidate got a slot; when one was skipped as saturated its key is usable at once, and the hint is exact if and only if no attempt named a wait |
| DriftMonitoring.PruneAgain | packages/router-core/src/drift-monitor.ts:71-74 | pruning a pruned window at a later cutoff is pruning the whole log there |
| DriftMonitoring.WindowIsWholeIff | packages/router-core/src/drift-monitor.ts:71-74 | after any pushes and prunes, whatever the clock does, the pruned list gives for a cutoff what the entire log gives if and only if no attempt of that window was pruned before; it never gives more |
| DriftMonitoring.SteadyClockLosesNothing | packages/router-core/src/drift-monitor.ts:71-74 | so a clock that never runs back loses nothing |
| DriftMonitoring.ClockSetBack | packages/router-core/src/drift-monitor.ts:71-74 | an input: the clock is set back by more than a window and an attempt of the window is gone |
| DriftMonitoring.DriftMonitor.Prune | packages/router-core/src/drift-monitor.ts:71-74 | what is kept is the part inside the window of what was kept, and that of the entire log under exactly that condition |
| DriftMonitoring.DistinctModels | packages/router-core/src/drift-monitor.ts:82 | each model once, all of them |
| DriftMonitoring.DriftingIff | packages/router-core/src/drift-monitor.ts:76-88 | a provider drifts, counted at the places of the stream: enough of its attempts from the cutoff on, over enough models, one of them for a model that another provider served |
| DriftMonitoring.EvidenceCounts | packages/router-core/src/drift-monitor.ts:89-96 | the evidence counts the attempts and the models at those places, and its slug is that of the last of them |
| DriftMonitoring.DriftMonitor.Evaluate | packages/router-core/src/drift-monitor.ts:76-98 | triggers if and only if the provider's cooldown has run out and its kept attempts inside the window meet the error, model and isolation thresholds; errors, models and slug of the evidence are theirs; with nothing lost from the window, verdict and evidence are those of the entire log |
| DriftMonitoring.DriftMonitor.Observe | packages/router-core/src/drift-monitor.ts:64-69 | the same verdict and evidence for one observed attempt, with three readings of any clock; an attempt of no drift class changes nothing and never triggers |
| DriftMonitoring.SpacedSnoc | packages/router-core/src/drift-monitor.ts:78-88 | a trigger outside the cooldown keeps successive triggers of one provider, with nothing cleared between, a cooldown apart; clearing and resetting keep it too |
| DriftMonitoring.DriftMonitor.ForceClearCooldown | packages/router-core/src/drift-monitor.ts:100-103 | clears one provider's cooldown, and the history stays spaced |
| DriftMonitoring.DriftMonitor.Reset | packages/router-core/src/drift-monitor.ts:105-109 | forgets the attempts and all cooldowns |
| DriftMonitoring.Defaults | packages/router-core/src/drift-monitor.ts:57-60 | five errors over two models in a quarter of an hour, and an hour of rest |
| ContextCompression.EstimateTokens | packages/router-core/src/context-compress.ts:82-90 | the estimate is the sum of each message's characters over four, rounded up, plus four |
| ContextCompression.EstimateIs | packages/router-core/src/context-compress.ts:82-90 | a message is charged four tokens and the least number of fours its characters fit in |
| ContextCompression.SplitSystem | packages/router-core/src/context-compress.ts:106-111 | cuts behind the leading run of system messages |
| ContextCompression.ToTurns | packages/router-core/src/context-compress.ts:121-128 | the turns joined are the input; each but the first starts at a user message and none holds another |
| ContextCompression.CompressMessages | packages/router-core/src/context-compress.ts:137-179 | the result is the system prefix and everything from the earliest turn boundary whose suffix fits, or the newest turn's; unchanged when it fits or is all system; dropped messages, counts and flag agree |
| CompressionLaws.KeepsTheLongestThatFits | packages/router-core/src/context-compress.ts:130-166 | no whole-turn suffix that fits is longer than what is kept, and if the result does not fit, none is shorter |
| CompressionLaws.TurnsMoveTogether | packages/router-core/src/context-compress.ts:25-27 | a message and whatever follows it up to the next user message are kept or dropped together |
| CompressionLaws.DroppedAndKeptRejoin | packages/router-core/src/context-compress.ts:168-178 | system prefix, dropped and kept messages rejoin to the input in order, and a cut falls right before a user message |
| CompressionLaws.CompressingAgainChangesNothing | packages/router-core/src/context-compress.ts:137-179 | compressing the result to the same budget changes nothing and drops nothing |
| CompressionLaws.ResultFitsIff | packages/router-core/src/context-compress.ts:161-166 | the result fits the budget if and only if the conversation did, or the system prefix with the newest turn does |
| SummarisedCompression.CompressWithSummary | packages/router-core/src/context-compress.ts:206-252 | the summariser is asked at most once, about exactly the dropped messages; with nothing dropped, an exception, a non-string or a blank answer the result is Tier 1's; otherwise it is the conversation with the summary behind the system prefix, compressed again |
| SummarisedCompression.SummaryTextIs | packages/router-core/src/context-compress.ts:210-225 | a summary is published exactly when turns were dropped, the summariser answered for them, and something is left of the answer without the white space at its ends; that is its text |
| SummarisedCompression.SummaryThenSuffix | packages/router-core/src/context-compress.ts:225-237 | a published summary sits between the system prefix and a whole-turn suffix no longer than Tier 1's, the longest that still fits with the summary, or the newest turn |
| SummarisedCompression.NewestTurnSurvives | packages/router-core/src/context-compress.ts:202-205 | the newest turn survives the second cut, and the result fits exactly when prefix, summary and newest turn do |
| SummarisedCompression.DroppedIsTheRestIff | packages/router-core/src/context-compress.ts:239-246 | kept originals and reported dropped messages make up the input in order if and only if no message object between the leading system messages and the cut occurs among those or after the cut as well |
| SummarisedCompression.DistinctObjectsArePartitioned | packages/router-core/src/context-compress.ts:239-246 | so for messages that are objects of their own nothing is reported kept and dropped, or neither |
| RustMasking.BlankOut | scripts/panic-census.py:50-53 | the stretch is overwritten with spaces, newlines kept, the rest untouched |
| RustMasking.TokenEnd | scripts/panic-census.py:56-104 | which literal or comment starts at a position, tried in the scanner's order, and where it ends |
| RustMasking.Mask | scripts/panic-census.py:39-107 | the in-place scan computes the recursive masking of the source |
| MaskingLaws.MaskKeepsShape | scripts/panic-census.py:39-45 | the masked source has the source's length and newlines, each character the original or a space |
| MaskingLaws.NothingSurvives | scripts/panic-census.py:39-45 | no double quote, line-comment opener or block-comment opener is left anywhere |
| MaskingLaws.MaskingAgainChangesNothing | scripts/panic-census.py:39-107 | masking twice is masking once |
| MaskingLaws.CodeIsKept | scripts/panic-census.py:39-45 | source without quotes and slashes is left alone |
| TokenLaws.StringBlanked | scripts/panic-census.py:83-99 | a string, plain or byte, of plain characters and escaped pairs is blanked from its quote to its closing quote, and the scan goes on behind it |
| TokenLaws.RawStringBlanked | scripts/panic-census.py:75-82 | a raw string, plain or byte, with any number of hashes ends at the first quote followed by as many |
| TokenLaws.BlockCommentBlanked | scripts/panic-census.py:59-74 | a block comment ends where its nested comments are closed and it is too |
| TokenLaws.LineCommentBlanked | scripts/panic-census.py:54-58 | a line comment ends before its newline |
| TokenLaws.CharBlanked | scripts/panic-census.py:100-104 | a character literal, plain or escaped, is blanked |
| TokenLaws.LifetimeKept | scripts/panic-census.py:44 | a lifetime is kept |
| TokenLaws.UnclosedString | scripts/panic-census.py:83-99 | a string that is never closed is blanked to the end |
| TokenLaws.UnclosedBlock | scripts/panic-census.py:59-74 | so is a block comment that is never closed |
| TokenLaws.UnclosedRaw | scripts/panic-census.py:75-82 | and a raw string whose quote and hashes never come |
| TokenLaws.KeptIff | scripts/panic-census.py:52-106 | the character the scan stands at is kept exactly when no token starts there |
| TokenLaws.MaskKeepsExactlyTheCode | scripts/panic-census.py:39-107 | of any sequence of code characters, literals and comments, each read where the last ended, masking keeps exactly the code and blanks the rest in place |
| TextLines.SplitJoin | scripts/panic-census.py:117 | newline-free lines joined and split again are those lines |
| TextLines.JoinSplit | scripts/panic-census.py:212-214 | text split and joined again is that text |
| TestItems.BlankItem | scripts/panic-census.py:134-142 | the brace-counting loop blanks the lines through the first at which the braces balance, or to the end |
| TestItems.StripTestItems | scripts/panic-census.py:110-147 | the stripping loop computes the line-by-line scan with its waiting marker |
| StrippingLaws.StrippedOnlyBlanks | scripts/panic-census.py:110-116 | the line count is kept, each line is the original or empty, and no test marker is left |
| StrippingLaws.StrippingAgainChangesNothing | scripts/panic-census.py:110-147 | stripping the stripped text gives the same lines |
| StrippingLaws.TestItemGoesWhole | scripts/panic-census.py:122-142 | a marker, the attributes behind it and the braced item they announce are blanked whole, and scanning goes on right behind |
| TestItemLaws.MarkerIs | scripts/panic-census.py:121-122 | a line is a marker exactly when it opens, behind white space, with one of the three attributes |
| TestItemLaws.InBetweenIs | scripts/panic-census.py:128 | between a marker and its item stand exactly the white lines, attributes and line comments |
| TestItemLaws.StripKeepsExactlyTheCode | scripts/panic-census.py:110-147 | of lines of code with test items among them, each running from its marker through the first line at which its braces close, or over its one line, stripping keeps every line of code in its place and empties every line of every item |
| TestItemLaws.LoneMarkerGoes | scripts/panic-census.py:118-131 | a marker with no item behind it goes with what stands below it |
| TestItemLaws.CutOffGoes | scripts/panic-census.py:133-141 | an item the file runs out on is emptied to the end |
| StrippingLaws.CensusKeepsLineNumbers | scripts/panic-census.py:212-218 | line n of what the census searches is line n of the file, masked to the same shape, or empty |
| TracePairing.PairOrdered | packages/axiom-core/src/trace.ts:66-102 | the loop over per-name queues yields one invocation per call in order, and each name's are what a first-in-first-out ledger of its own steps gives |
| TracePairing.CallKeeps | packages/axiom-core/src/trace.ts:68-84 | a call opens an invocation and joins the end of its name's queue, no other name's |
| TracePairing.AnswerKeeps | packages/axiom-core/src/trace.ts:86-100 | an answer closes the earliest waiting invocation of its name, no other |
| PairingLaws.BySeqSorts | packages/axiom-core/src/trace.ts:66 | the sort puts the steps in order, keeps exactly them, and keeps equal seqs in arrival order |
| PairingLaws.PairInvocations | packages/axiom-core/src/trace.ts:62-103 | the whole pairing is that of the sorted steps |
| PairingLaws.PairingIsUnique | packages/axiom-core/src/trace.ts:62-103 | the description determines the pairing |
| PairingLaws.ArrivalOrderDoesNotMatter | packages/axiom-core/src/trace.ts:66 | with distinct seqs the result does not depend on the order the steps arrive in |
| PairingLaws.InterleavingDoesNotMatter | packages/axiom-core/src/trace.ts:56-59 | a name's pairing depends only on the steps carrying that name |
| PairingLaws.AnsweredIsAPrefix | packages/axiom-core/src/trace.ts:86-100 | the answered calls of a name are a prefix of its calls, each with its own answer's verdict; the rest are unanswered |
| PairingLaws.AnswersServeEarlierCalls | packages/axiom-core/src/trace.ts:56-60 | each answer serves at most one call, of its own name and earlier in the run |
| PairingLaws.CallsAreAll | packages/axiom-core/src/trace.ts:68-84 | a name's calls are exactly the tool calls that carry it, a step without a label carrying `?` |
| PairingLaws.AnswersAreThose | packages/axiom-core/src/trace.ts:86-100 | a name's answers are results and denials that carry it, and one goes unused only when every call before it is answered |
| PairingLaws.UnansweredIsTheMaximalSuffix | packages/axiom-core/src/trace.ts:58-60 | a name's unanswered calls are the maximum, over all suffixes of the run, of its calls minus its answers |
| TraceMetrics.LongestRepeat | packages/axiom-core/src/trace.ts:117-135 | the streak scan finds the longest run of equal consecutive keys, the earliest of that length, and none when no key repeats |
| TraceMetrics.FirstDone | packages/axiom-core/src/trace.ts:137-138 | the smallest seq of a `done` step, absent exactly when there is none, whatever the order of the steps |
| TraceMetrics.NamesCollideIff | packages/axiom-core/src/trace.ts:114-115 | calls of two names can share a key if and only if the names are equal or one, with a NUL behind it, begins the other |
| TraceMetrics.KeysTellCallsApart | packages/axiom-core/src/trace.ts:114 | so for names without a NUL, equal keys mean equal name and arguments |
| TraceMetrics.NulNamesCollide | packages/axiom-core/src/trace.ts:114-115 | and every name holding a NUL shares a key with what stands before the NUL |
| TraceMetrics.CollidingCalls | packages/axiom-core/src/trace.ts:114-115 | one such pair of calls: they count as a repeat of each other |
| TraceMetrics.UnansweredCallsOfAName | packages/axiom-core/src/trace.ts:160 | the unanswered invocations of a name number what its ledger leaves open |
| TraceMetrics.DeriveMetrics | packages/axiom-core/src/trace.ts:105-165 | the counts of the pairing: calls, failures, denials, unanswered, distinct keys, longest repeat with its first call, and checks made no later than the first claim of being done; no call is counted under two verdicts |
| LineFraming.Body.TakeLines | apps/desktop/e2e/host-http.ts:211-222 | all lines the pending text completes, in order, the unfinished rest left pending, unless the consumer stops or the signal is seen; only the signal marks the body as read |
| LineFraming.Body.Lines | apps/desktop/e2e/host-http.ts:206-248 | a first pass gives the body split at newlines, one carriage return trimmed, an empty last piece omitted, whatever the chunks; it is left with the lines so far at the first after which the consumer stops or the signal is up, and when a read rejects; a body read to its end or to the signal is replayed, any other rejects for good |
| LineFraming.Body.Text | apps/desktop/e2e/host-http.ts:198-204 | the whole body, read once and remembered; nothing when a read rejects, now or ever after |
| FramedLines.FramedRows | apps/desktop/e2e/host-http.ts:211-236 | a body written row by row, each row ended by a newline with or without a carriage return, comes back as its rows; an unended last row too unless it is empty |
| LineFraming.SplitMore | apps/desktop/e2e/host-http.ts:191-196 | more text only extends the last piece |
| LineFraming.ReplayAgreesIff | apps/desktop/e2e/host-http.ts:207-210 | a replay gives the first pass's lines if and only if the body is not empty and does not end in a newline; otherwise one empty line more |
| JsonPath.ParsePath | packages/router-core/src/jsonpath.ts:15-38 | the index loop computes the recursive parse, with the first error of each kind |
| JsonPathLaws.PrintThenParse | packages/router-core/src/jsonpath.ts:15-43 | every list of steps that can be written is read back as it was |
| JsonPathLaws.ParseReachesExactlyThePrintable | packages/router-core/src/jsonpath.ts:15-43 | a list of steps is what some path parses to if and only if each step can be written: an index, a name without dot or opening bracket, or one without closing bracket and line end |
| JsonPathLaws.StarIsAlwaysTheWildcard | packages/router-core/src/jsonpath.ts:31-56 | a field named `*` cannot be asked for, quoted or not |
| JsonPathLaws.SelectorIs | packages/router-core/src/jsonpath.ts:30-43 | a bracket holds the star, decimal digits, or a name without line ends in quotes of one kind, and is read as exactly that; anything else is refused |
| JsonPathLaws.FollowIs | packages/router-core/src/jsonpath.ts:45-67 | where one step leads: the star to every item or value in order, an index to the item there, a name to the value of that name, if there is one, and no step anywhere from a scalar |
| JsonPathLaws.WalkComposes | packages/router-core/src/jsonpath.ts:51-67 | walking two paths one behind the other is walking the second from each match of the first, in order |
| JsonPathLaws.PlainPathsSelectOne | packages/router-core/src/jsonpath.ts:51-67 | without a wildcard there is at most one match |
| JsonPathLaws.OneIsTheFirstOfAll | packages/router-core/src/jsonpath.ts:69-76 | selecting one value fails exactly when the path does not parse, and without a wildcard it is all there is |

## Left out

- Characters are Unicode scalar values; UTF-16 code units and byte-level UTF-8 decoding are not modelled.
- Floating point: values are exact reals, token and time arithmetic is on integers, and the verifier's tolerance of 1e-9 is met by equality.
- Message wording, titles, rationales, blind spots and the detail texts of checks and objections.
- Diagnosis, detectors, the capability map and the choice of the proposal: a step is given its target proposal.
- The expectations that judge a run, JSON parsing of arguments and the completion predicates: a trial says whether it passed, and an uninterpreted function says whether arguments are readable.
- Consent and pricing of paid runs: consent is assumed granted.
- MemoryConfigStore hands out live objects; the model's versions are values, so writes through a returned object are not captured.
- Pipeline.Axiom.Improve: requires unique task ids, which suite parsing enforces (packages/axiom-core/src/suite.ts:83-123).
- The engine's observation, reasoning and finish-reason buffers and usage box: evidence for display, no branch reads them.
- An engine without a limiter behaves as one with a cap of zero, and is modelled as that.
- The detectors that read an error body are represented by what they find in it; a stated timeout is a flag.
- The clamp on a stored concurrency cap (packages/router-core/src/concurrency.ts:37-48) and the limiter's diagnostic snapshot.
- Route planning, the manifest interpreter, the sandboxed adapter and the host bridge: a plan and an adapter's events are inputs.
- The prompt budget from a model's window (one arithmetic line) and the reading of multi-part message content.
- LineFraming.Body.Lines: a second pass begun before the first has ended is not modelled; the source excludes it.
- JsonPath: names inherited from the prototype of a JavaScript object (such as `toString`) are found by the source and not by the model, and array indices beyond exact doubles are not rounded.
- The census's search for panics in the stripped lines, its file walk and its report.
- The trace's durations, token sums and assistant texts, which are copied, and the ratio of repeats.
