# Caption protocol, Delivery Gate and companions

A Dafny model of the parts of LexiFlow in which several functions have to agree over time, with
proofs about all their inputs and all their runs.

- **Captions (browser extension).** `Utf16`, `Decimals`, `Protocol`, `CaptionSnapshot`, `Stream*`, `CaptionRun`,
  `SealedRows`, `Page*` and `Pipeline` model the incremental caption protocol: the tracker that gives keys to
  caption text, the coordinator that sends one request at a time and keeps hints on the screen while the
  caption scrolls, and the page lifecycle and capture that feed it across an asynchronous hash. Each class
  updates its fields in place and every method is proved equal to one step of a state machine (`Stream`,
  `Page`); the theorems are about all runs of those machines, alone and composed (`CaptionRun`, `Pipeline`).
- **Delivery Gate.** `Gate` defines acceptance of a submission as a least fixed point over the records of a frozen
  store. `GateContext` is the memoised walk with its caches, `GateCheck` the decision and the publication,
  `GatePublish` what a published check means afterwards.
- **Check reuse.** `Reuse` runs frozen profiles without any reuse; `ReuseLedger` replays from the execution ledger of
  one call and `ReuseCall` runs all its profiles, both proved against the plain run by what `ReuseAgreement` shows.
- **Lexicon filtering.** `Lexicon`, `LexiconBuild` and `LexiconRows` model which dictionary rows are kept, the passes
  that select them, and the row map.
- **Dispatch paths and subjects.** `DispatchPath` models path patterns and their intersection, `TaskSubject` the set of
  changed files a delivery answers for.
- **Debug text.** `CaptionDebug` models the text shown for newly processed ranges.

`Wrappers`, `OrderedKeys` and `Sorting` are helpers: an option type, insertion-ordered sets of keys as JavaScript
keeps them, and a stable sort.

## Conventions

- Text is a sequence of UTF-16 code units. Which units are word characters or white space, which gloss and
  identifier fields are sound evidence, which texts are normalized, and what an execution key yields are
  parameters; the theorems hold for every choice. Assumed of them: no surrogate is white space; characters in
  the ASCII range at the end of a text do not affect normalization; a full inflection match is also found by
  the search pattern; a topic hash is a bounded identifier.
- A segment key is a prefix and a serial; `RenderInjective` shows that the rendered string tells keys apart.
- What the surroundings provide at each callback (document, player, caption on screen, clock, current video) is an
  argument of the step. Captions are well-formed text with at most as many line breaks as units. Page keys are
  fresh. Theorems about whole runs assume that the serial counter stays a safe integer.
- Every call of `invalidate` in the source asks for a full reset, so the partial one is not modelled. A transport
  that throws is a request that is answered with a failure.
- A lifecycle handler returns which of its two callbacks it makes; the capture object is then called in that order.
- Gate: authority, independence and attachment checks of a record are facts stored with it (`sound`,
  `sourceSound`); hashes are identities. The catalog either serves a definition or gives an error code.
- Reuse: an execution is a function of its execution key, down to the toolchain it leaves behind. What the
  surroundings of a check show (whether its inputs are current, environment, toolchain, final look) is the same
  whether the checks before it were executed or replayed. The report stands for its own descriptor.

## Model

| member | source | states |
|---|---|---|
| `Utf16.LoneSurrogateScan` | extension/src/protocol.ts:39 | Iterating by code point meets a lone surrogate exactly when some surrogate is unpaired (sections 3.8 and 3.9 of the Unicode Standard) |
| `Utf16.SliceWellFormed` | extension/src/protocol.ts:56-58 | A slice whose two ends split no surrogate pair is whole text again, so cutting at checked offsets never produces a broken code point |
| `Protocol.RenderInjective` | extension/src/caption-snapshot.ts:41 | Under one prefix two rendered keys are equal only if their serials are |
| `Protocol.IsCaptionSnapshot` | extension/src/protocol.ts:29-47 | The one-pass validator accepts exactly the snapshots that are legal as a whole: bounded distinct keys, whole non-empty texts, at most 500 units, legal metadata; its extra limit on the number of keys can never be what rejects |
| `Protocol.ResolveHintIff` | extension/src/protocol.ts:60-83 | Over distinct keys a keyed hint resolves to h exactly when some group holds both its keys in order as a hintable span, its two offsets lie inside those segments, and h is the non-empty range they give when counted from the start of the caption |
| `Protocol.ResolveHintMeaning` | extension/src/protocol.ts:60-83 | Whatever the keys, a hint that resolves does so to such a range, within the caption |
| `Protocol.ParseHints` | extension/src/protocol.ts:91-99 | The loop that remembers only the last end and the last version accepts exactly the lists of sound hints with consecutive disjoint ranges and one version |
| `Protocol.ParseHintResponse` | extension/src/protocol.ts:85-101 | A body is taken exactly when it answers this request: the appended keys in order, and good hints |
| `CaptionSnapshot.OverlapLongest` | extension/src/caption-snapshot.ts:6-11 | The retained overlap is the longest suffix of the old text that starts the new one without splitting a pair, and zero only when there is none |
| `CaptionSnapshot.FindRetainedOverlap` | extension/src/caption-snapshot.ts:6-11 | The downward loop computes that overlap |
| `CaptionSnapshot.RemapOneKeepsText` | extension/src/caption-snapshot.ts:15-20 | A migrated hint covers the very same text, keeps its evidence, and stands on word boundaries of the new caption |
| `CaptionSnapshot.RemapSurvival` | extension/src/caption-snapshot.ts:15-20 | A displayable hint survives exactly when it starts beyond the removed prefix and no word unit now follows it at the end of the old caption |
| `CaptionSnapshot.RemapDisplayable` | extension/src/caption-snapshot.ts:13-22 | Migration keeps hints sorted, disjoint, of one version and on word boundaries, and every result descends from a hint over the same words |
| `CaptionSnapshot.TokensTile` | extension/src/caption-snapshot.ts:39-42 | The tokens of a suffix tile it with non-empty pieces |
| `CaptionSnapshot.KeptText` | extension/src/caption-snapshot.ts:32-38 | Keeping the segments beyond a cut keeps exactly the text beyond the cut |
| `CaptionSnapshot.CaptureTiles` | extension/src/caption-snapshot.ts:29-59 | The segments of a captured snapshot spell the caption exactly, whatever was shown before |
| `CaptionSnapshot.CaptureValid` | extension/src/caption-snapshot.ts:29-59 | Every captured snapshot is legal on the wire |
| `CaptionSnapshot.CaptureAdvances` | extension/src/caption-snapshot.ts:33-42 | Consecutive captures show a moving window of serials: kept keys have suffixes of their old texts, new keys are new |
| `CaptionSnapshot.CaptionSnapshotTracker.CaptureSource` | extension/src/caption-snapshot.ts:29-59 | The loops over kept segments, matches and groups leave the tracker in exactly the captured state and return its snapshot |
| `CaptionSnapshot.CaptionSnapshotTracker.Reset` | extension/src/caption-snapshot.ts:28 | Forgetting the caption keeps the serial counter |
| `StreamRequests.RunDisciplined` | extension/src/stream.ts:33-127 | Every run of submits, timers, clears and answers keeps the request discipline |
| `StreamRequests.RequestEconomy` | extension/src/stream.ts:89-111 | In every run requests are for ever later captions, none twice and no more than effective submits; timer and request never coexist; unprocessed text has one of them or a failure on display |
| `StreamRequests.LateAnswersInert` | extension/src/stream.ts:77-113 | After a clear or a restart, an answer to any earlier request changes nothing at all, however late it comes |
| `StreamRequests.LateIffNotInFlight` | extension/src/stream.ts:112-113 | The three guards on an answer together say that its request is the one in flight |
| `StreamHints.EveryViewFaithful` | extension/src/stream.ts:135-160 | Every view of every run shows hints that are sorted, disjoint, non-empty, on word boundaries, of one version, each over exactly the words it covered in the request that produced it, a request about the topic of the view whose answer was accepted before the view |
| `StreamHints.AcceptKeepsHeld` | extension/src/stream.ts:139-157 | An answer never moves or removes a held hint, and adds only its own hints that touch no sealed row and cross no row |
| `StreamHints.SubmitSurvival` | extension/src/stream.ts:52-58 | Across a submit without restart a held hint is still shown, shifted, exactly when it starts beyond the removed prefix and no word unit follows it at the old end |
| `StreamRows.EveryViewRows` | extension/src/stream.ts:59-74 | In every view sealed keys are on display, finished keys are not, neither repeats, and at most 256 finished keys are kept |
| `StreamRows.SubmitKeepsSeal` | extension/src/stream.ts:52-70 | A sealed key still shown stays sealed through any submit without restart |
| `StreamRows.AcceptGainsNone` | extension/src/stream.ts:139-156 | An answer adds no hint to a sealed row: the hints on each of its keys, by their two ends relative to that segment, evidence and words, form a subset of those before |
| `StreamRows.SubmitGainsNone` | extension/src/stream.ts:57 | Scrolling to the next capture adds no hint to a sealed key: those on it afterwards form the same kind of subset |
| `StreamRows.DistinctOrigins` | extension/src/stream.ts:57 | Two different hints on such a key afterwards were two different hints on it before, at the same places |
| `SealedRows.RunKeeps` | extension/src/stream.ts:33-157 | Every run of tracker and coordinator ends in a world from which sealed rows are kept |
| `SealedRows.ScrollBegins` | extension/src/stream.ts:33-76 | From any such world, with captures skipped before, the next submitted scroll begins a run that keeps them |
| `SealedRows.SealedRowsStaySealed` | extension/src/stream.ts:47-72 | Over any run of submitted scrolls, timers and answers without restart, a sealed key still shown is still sealed, and the set of hints on it, by place in the segment, evidence and words, never gains a member |
| `CaptionRun.RunAdvances` | extension/src/caption-snapshot.ts:23-59 | Any two captions of a run, however many scrolls and resets apart, show windows of one stream of keys: the later window is further on, and a key in both has a suffix of its earlier text |
| `CaptionRun.KeysNeverReturn` | extension/src/caption-snapshot.ts:23-59 | Over any run of captures and resets, a key shown after one operation and after a later one was shown after every operation between: keys are never reused |
| `CaptionRun.WorldRunSound` | extension/src/stream.ts:98-134 | Tracker and coordinator together keep their joint invariant over every run, with captures skipped and answers late, failed or lost |
| `CaptionRun.EveryRequestGood` | extension/src/stream.ts:98-134 | Every request of every run is legal and marks as new exactly the keys absent from the last acknowledged snapshot; processed keys are always the acknowledged keys still on display |
| `StreamObject.ScanRows` | extension/src/stream.ts:140-153 | The pass that remembers only the row touched last finds a sealed key under the hint, and a crossing between any two rows, exactly when there is one |
| `StreamObject.MergeHints` | extension/src/stream.ts:138-156 | The loop over mapped hints holds exactly the admissible ones beside those held before |
| `StreamObject.CaptionStreamCoordinator.SubmitEvent` | extension/src/stream.ts:33-76 | Updating the fields in place is the submit step of the machine the theorems are about |
| `StreamObject.CaptionStreamCoordinator.ClearAt` | extension/src/stream.ts:77-81 | Clearing is the clear step |
| `StreamObject.CaptionStreamCoordinator.InvalidateAll` | extension/src/stream.ts:82-88 | Cancels timer and request and empties coverage, hints and rows under a new generation |
| `StreamObject.CaptionStreamCoordinator.IsPending` | extension/src/stream.ts:89-91 | True exactly when a shown segment is unprocessed |
| `StreamObject.CaptionStreamCoordinator.TimerFires` | extension/src/stream.ts:94-111 | The timer callback is the dispatch step |
| `StreamObject.CaptionStreamCoordinator.AcceptAnswer` | extension/src/stream.ts:112-170 | Handling an answer is the answer step |
| `PageSafety.TopicsBelongToTheirVideo` | extension/src/caption-capture.ts:84-184 | In every interleaving of page events and hash results each submit carries the topic of the video shown at that moment and the caption then on screen, and sequence numbers strictly increase |
| `PageSafety.PageRunSafe` | extension/src/caption-capture.ts:45-184 | The joint invariant of lifecycle and capture holds in every run |
| `PageObject.PageLifecycle.OnEvent` | extension/src/page-lifecycle.ts:56-122 | Every event, page refresh included, changes the fields of the lifecycle and makes the callbacks of its reaction |
| `PageObject.CaptionCapture.OnPageEvent` | extension/src/caption-capture.ts:45-184 | An event of the page, whatever it is, is one step of the page machine the run theorems are about |
| `Pipeline.EndToEnd` | extension/src/caption-capture.ts:98-184 | From page events to requests: every request sent is legal, exactly marked, names the video the page was showing and the caption then on screen; every view is faithful to answers accepted before it about its own topic, and its rows are sound |
| `Pipeline.SubmitsOwnSnapshot` | extension/src/caption-capture.ts:141-184 | However long a capture awaits its topic and whatever happens meanwhile, if it is then accepted, what it submits is the very snapshot it was given when it was captured |
| `Pipeline.RunWholesome` | extension/src/caption-capture.ts:45-184 | All invariants of page, tracker and coordinator hold together after every run of the whole extension |
| `Pipeline.GuardNeverDrops` | extension/src/stream.ts:33-35 | What the page hands over always passes the guard on sequence numbers |
| `Gate.AcceptedFixed` | scripts/acceptance/task_operations/evaluate_task_acceptance.py:262-367 | Acceptance is a fixed point of the rule: the catalog agrees, and every hard edge has clean candidates with exactly one successful check that is complete, accepted, and records the receipts of the store |
| `Gate.AcceptedLeast` | scripts/acceptance/task_operations/evaluate_task_acceptance.py:262-367 | It is the least one: nothing is accepted that some set closed under the rule leaves out |
| `Gate.OutcomeIsAcceptance` | scripts/acceptance/task_operations/evaluate_task_acceptance.py:272-367 | The outcome of a fresh evaluation is positive exactly for accepted submissions, and its details are then their tree of dependencies |
| `Gate.TreeUnique` | scripts/acceptance/task_operations/evaluate_task_acceptance.py:348-361 | The details do not depend on how deep the evaluation was allowed to go |
| `Gate.GoodReceipts` | scripts/acceptance/task_operations/evaluate_task_acceptance.py:327-336 | The receipts read off good details are those recomputed from the store |
| `Gate.NoAcceptanceThroughItself` | scripts/acceptance/task_operations/evaluate_task_acceptance.py:270-271 | A submission met again below itself is not accepted in any number of levels, so the cycle answer is never wrong |
| `GateContext.AnswerIsAcceptance` | scripts/acceptance/task_operations/evaluate_task_acceptance.py:262-275 | Whatever path led there, the answer is positive exactly when the submission is accepted |
| `GateContext.ConeExamined` | scripts/acceptance/task_operations/evaluate_task_acceptance.py:200-218 | Whatever a positive result rests on, through any number of links, is among the examined candidates and remembered requirements that are read again before success is reported |
| `GateContext.EvaluationContext.DependencyStatus` | scripts/acceptance/task_operations/evaluate_task_acceptance.py:262-367 | The memoised walk terminates on every store, cycles included, and answers as a function of store and visited tasks alone; caches stay sound, and after a positive answer everything examined is clean |
| `GateContext.EvaluationContext.EdgeStatus` | scripts/acceptance/task_operations/evaluate_task_acceptance.py:285-364 | One edge: candidates in order up to the first that spoils it, reported as the store alone determines |
| `GateContext.EvaluationContext.CandidateStatus` | scripts/acceptance/task_operations/evaluate_task_acceptance.py:306-347 | One candidate: whether it spoils its edge, independent of caches and path |
| `GateContext.EvaluationContext.ReadEvidence` | scripts/acceptance/task_operations/evaluate_task_acceptance.py:307-318 | Evidence is read once and remembered only when readable |
| `GateCheck.EvaluateConditions` | scripts/acceptance/task_operations/evaluate_task_acceptance.py:428-737 | The evaluation with its early refusals, caches, candidate proof and final recheck decides as the store alone determines, and publishes exactly when a missing check passes |
| `GateCheck.Recheck` | scripts/acceptance/task_operations/evaluate_task_acceptance.py:552-565 | Over an unchanged store the final recheck never refuses what the walk accepted |
| `GateCheck.PublishedIff` | scripts/acceptance/task_operations/evaluate_task_acceptance.py:465-486 | A check can be published exactly for accepted, approved submissions with current inputs and authenticated sources, over legible records, whose own evidence bears them out |
| `GatePublish.OutcomeUnchanged` | scripts/acceptance/task_operations/evaluate_task_acceptance.py:472-486 | Nothing done to the checks of an accepted submission changes its own dependencies, details or receipts |
| `GatePublish.Idempotent` | scripts/acceptance/task_operations/evaluate_task_acceptance.py:645-693 | Evaluating again after publication gives the same conditions and reports that very check as already there |
| `GatePublish.Composable` | scripts/acceptance/task_operations/evaluate_task_acceptance.py:326-345 | Dependents recompute for a published submission exactly the receipts its check records; it counts as checked and spoils no edge |
| `GatePublish.DependentPasses` | scripts/acceptance/task_operations/evaluate_task_acceptance.py:306-364 | An edge the published submission fills rests on its new check exactly when every other candidate is clean and unchecked, and then passes with its hash and details |
| `GatePublish.SecondCheckAmbiguous` | scripts/acceptance/task_operations/evaluate_task_acceptance.py:348-351 | A second published check for the same task version makes every edge the first one satisfied ambiguous |
| `ReuseCall.VerifyProfiles` | scripts/verification/execution/check_plan_runner.py:972-1137 | Refusals of the request, stale profiles, hooks, fail-fast and padding included: with the ledger every profile gets the same verdict, reason, coverage and statuses as without, and every replayed result points at an earlier passing report of the same call that shows the execution |
| `ReuseCall.RunProfiles` | scripts/verification/execution/check_plan_runner.py:1063-1107 | The loop over profiles publishes what passed, stops after the first failure, and agrees with the run without the ledger |
| `ReuseLedger.VerificationTransaction.Execute` | scripts/verification/execution/check_plan_runner.py:154-340 | The checks in order with fail-fast: results agree with the run without reuse, replayed ones are traced, recorded ones are backed |
| `ReuseLedger.VerificationTransaction.Replay` | scripts/verification/execution/check_plan_runner.py:239-300 | A replayed result has the status, environment and toolchain the check would have had, and its original is always found |
| `ReuseLedger.VerificationTransaction.VerifyProfile` | scripts/verification/execution/check_plan_runner.py:826-968 | Closing look and report of a profile agree with those of the run without reuse |
| `ReuseLedger.VerificationTransaction.Close` | scripts/verification/execution/same_run_check_reuse.py:44-49 | Nothing can be replayed once the call is over |
| `ReuseAgreement.ReportAgrees` | scripts/verification/execution/check_runner.py:719-750 | Agreeing results aggregate to the same verdict, reason and coverage gaps |
| `ReuseAgreement.PassingClosed` | scripts/verification/execution/check_plan_runner.py:343-380 | In a passing report the closing look changed nothing, so what it publishes is what was executed |
| `Lexicon.NoCascade` | ops/dataset/prepare_ecdict_bundle.py:347-396 | When a word is removed as a covered inflection, every line of its translation names another word that claims it, is not removed itself, and is in the output |
| `Lexicon.SafeStays` | ops/dataset/prepare_ecdict_bundle.py:347-368 | A safe base form is never removed itself |
| `Lexicon.OutputExactly` | ops/dataset/prepare_ecdict_bundle.py:369-417 | The output is exactly the curated rows, the baseline rows nothing removes, and every Oxford row, no physical row twice |
| `Lexicon.ProtectedPresent` | ops/dataset/prepare_ecdict_bundle.py:369-396 | Ranked, tagged and Oxford words are never lost |
| `Lexicon.PrefilterConserves` | ops/dataset/prepare_ecdict_bundle.py:323-342 | Every base row is in exactly one prefilter class or in the baseline |
| `Lexicon.SplitConserves` | ops/dataset/prepare_ecdict_bundle.py:369-396 | Every baseline row is retained or removed, with multiplicity |
| `LexiconBuild.BuildRows` | ops/dataset/prepare_ecdict_bundle.py:313-458 | The passes compute that output in its final order, one audit entry a removed row and one a derived row nothing retained covers, and counters that add up to the rows read and to the audit |
| `LexiconBuild.GapsExactly` | ops/dataset/prepare_ecdict_bundle.py:419-449 | A derived row is reported exactly when no row of the final output with one of its base forms claims it |
| `LexiconBuild.Coverage` | ops/dataset/prepare_ecdict_bundle.py:348-368 | The coverage maps filled in a loop hold for each word exactly the safe words that claim it |
| `LexiconRows.SortCorrect` | ops/dataset/prepare_ecdict_bundle.py:418 | Sorting gives one strict order and neither loses nor adds a row |
| `LexiconRows.RowMapFaithful` | ops/dataset/prepare_ecdict_bundle.py:461-474 | The sorted output holds what was selected, and no two of its lines get the same row-map marker |
| `LexiconRows.Serialize` | ops/dataset/prepare_ecdict_bundle.py:469-473 | The i-th marker is that of the i-th row |
| `DispatchPath.IntersectIff` | scripts/agents/work_packages/work_package_contract_checks.py:111-125 | Two valid patterns intersect exactly when some exact path matches both; a witness is constructed |
| `DispatchPath.OverlapIff` | scripts/agents/work_packages/work_package_contract_checks.py:111-125 | Two parsed patterns overlap exactly when some path is admitted by both, and the constructed witness is one |
| `DispatchPath.IntersectSymmetric` | scripts/agents/work_packages/work_package_contract_checks.py:111-125 | The order of the patterns does not matter, errors included |
| `DispatchPath.BelowParses` | scripts/agents/work_packages/work_package_contract_checks.py:54-89 | Replacing the final wildcard of a valid pattern by a file name gives a valid exact path |
| `TaskSubject.DeriveTaskSubject` | scripts/acceptance/task_definition/task_acceptance_scope.py:32-84 | Under the scope rules: refused exactly when a file is refused or none is taken; otherwise the taken files, closed under the inputs of the checks they select |
| `TaskSubject.CloseSubject` | scripts/acceptance/task_definition/task_acceptance_scope.py:59-84 | The growing loop terminates with a closed set of changed files in two disjoint parts, and the least closed one when check selection is monotone |
| `TaskSubject.RejectedIff` | scripts/acceptance/task_definition/task_acceptance_scope.py:39-51 | The body is refused exactly when some changed file is |
| `TaskSubject.BodyExactly` | scripts/acceptance/task_definition/task_acceptance_scope.py:39-51 | The body holds exactly the changed files the scope takes |
| `CaptionDebug.ShownWhole` | extension/src/caption-debug.ts:10-18 | What is shown contains the clipped new range, and every hint is wholly inside it or wholly outside |
| `CaptionDebug.PieceBare` | extension/src/caption-debug.ts:19-26 | With its glosses deleted a piece is one contiguous slice of the caption |
| `CaptionDebug.NoteBehind` | extension/src/caption-debug.ts:20-24 | Every gloss stands directly behind the text up to the end of its hint |
| `CaptionDebug.OrderedChained` | extension/src/caption-debug.ts:20-21 | Exactly the hints inside the slice are taken, each once, in order and without overlap |
| `CaptionDebug.ExtractIncrementalText` | extension/src/caption-debug.ts:10-30 | The loops render the pieces of all ranges, one a line, or nothing when there is no text or too much |

## Left out

- Diagnostics, timings, debug events, request identifiers, runtime mode and render reentrancy of the coordinator: they do not feed back into its state.
- `inlineParts` in protocol.ts, the overlay, viewport geometry, native track matching and Chrome APIs: the caption on screen, its metadata and its track are inputs.
- Layout key, topic-pending flag and observer callbacks of the capture, and listener registration and motion frames of the lifecycle: a handler may run at any time.
- The regular expressions themselves: white space and word units are predicates, the inflection, institution and domain patterns are fields of a row, and the gloss, entry and sense formats are one evidence predicate.
- Pipeline.EndToEnd: assumes fewer than 2^53 serials on one page and captions of whole text; beyond that the source does not promise legal keys either.
- SealedRows.SealedRowsStaySealed: assumes that every capture is submitted; with captures skipped, migration works on text across several captures at once and the keys under a hint are no longer determined by it.
- Composition of migrations (from one caption to a second to a third against the direct step): not a property of the source, since the longest overlap of the outer pair may differ.
- Store changes during an evaluation: the store is frozen, so the drift refusals of the final recheck are shown unreachable rather than triggered.
- GateCheck.EvaluateConditions: malformed acceptance plans are not modelled; whether the frozen inputs still match, sources authenticate, records can be read and a candidate is proved by the chain are facts given with submission, store and call; the approval record is modelled by the fields the decision reads.
- ReuseCall.VerifyProfiles: window and thread checks are not modelled, and a report that changed on disk cannot occur.
- Reuse of release-runtime children is excluded as in the source, but their stdin envelope is not modelled.
- Archive, lock, hash and CSV handling of the dictionary bundle.
- LexiconBuild.BuildRows: removals are counted in total and not by reason; the counters of protected evidence, curated rows, Oxford rows seen and final rows are not modelled.
- TaskSubject.DeriveTaskSubject: check selection and dependency closure are one function from changed files to inputs; leastness needs that function to be monotone, closure does not.
- `rememberBounded` in caption-debug.ts, release promotion, registry choreography, runtime status and host identity: shape checks and remote input or output.
