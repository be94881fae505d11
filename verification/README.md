# Skill Doctor: a verified model

Skill Doctor diagnoses agent skills. A local worker accepts jobs over a request channel and keeps them in a
SQLite store; a coordinator thread runs them one at a time; clients poll for events. A job discovers copies of a
skill, analyses their content, may run approved sandbox trials with and without the skill, and writes a report
whose state and exit code follow from what was found. This project models that logic in Dafny and proves what
holds of it for every input, every run and every reachable state.

| module | models |
|---|---|
| `JobStore`, `LocalStore` | the job and event tables: each SQL statement as a function on the tables, and a class that performs it in place; the event emitter; the client's loop over a reply |
| `WorkerProtocol` | handler, coordinator, heartbeat, client and process life as a step machine: one transaction or one queue operation is one step, and a crash may come anywhere |
| `ProtocolInvariants`, `ProtocolSafety`, `ProtocolTheorems` | what every step keeps and what every run keeps |
| `ProtocolConflicts`, `ProtocolStops`, `ProtocolDeaths`, `ProtocolWitnesses` | the refused inserts: exactly when one can stop the worker or kill the coordinator, and runs in which it does |
| `FlightRecorder` | the bounded ring of flight records and its files |
| `RulePacks` | active pack, history, pin and feed of the signed rule packs |
| `Frontmatter`, `FrontmatterRoundTrip`, `FrontmatterValues` | the frontmatter parser, a writer whose documents it reads back, and the grammar of its values and lines |
| `RegexSubset`, `SessionText` | the output-regex checker against Python's own reading; the bounded collection of session text |
| `Settings` | layered settings and their recursive merge |
| `Discovery`, `DiscoveryTheorems` | the passes over the list of skill copies, and what each platform's inventory promises |
| `Causal`, `CausalTheorems` | grouping of trials, the confirmation rule and its independence of order |
| `DynamicPlan`, `Orchestration` | the advertised plan, the approval token, the guards, the trials that are run and the exceptions that escape |
| `Identities` | the identities of trial evidence and causal findings, and when a report repeats one |
| `Suppressions`, `ResultStates` | flagged, suppressed and blocking findings; report states and exit codes |
| `StaticCache`, `Inventory` | the analysis cache and its key; the analysis of grouped copies |

SHA-256 is taken to be injective and appears as a datatype that holds what is hashed, except where the program
itself keeps only a prefix of the digits. Times that SQL compares are keys in the order of the query.

## Findings

Where a tempting promise is false of the code, the code is modelled as it is, a lemma gives a failing input, and
another says exactly when the promise holds.

- A start of the worker reloads at most 1,000 rows. With more, the oldest queued jobs are forgotten
  (`RestartCanLoseAJob`); which ones is exact (`RestartLosesExactly`).
- A queued job is always on its way while the handler lives (`NoJobIsLost`). A handler that a refused insert has
  killed holds back at most the one job that it was announcing (`StoppedWorkerHoldsOne`), and a restart brings it
  back (`RestartReloads`).
- A resume or a cancel opens a log, and its announcement meets the primary key if somebody writes to the log in
  between; nothing in the request loop handles that, and the worker stops (`ResumeCanStopTheWorker`,
  `CancelCanStopTheWorker`). Some interleaving does so exactly if the coordinator or a heartbeat may still write
  to that log (`ResumeStopsIff`, `CancelStopsIff`): an emitter that has fallen too far behind no longer can. A
  submit never stops the worker (`SubmitNeverStops`).
- The coordinator thread can die: an announcement inside its own error handling is refused (`CoordinatorCanDie`).
  It dies in exactly that step (`CoordinatorDiesIffBehind`), and no state in which the worker serves requests is
  safe from it: some run without a crash leads there (`CoordinatorIsNeverSafe`). Requests are then still accepted,
  and the queue has no reader until a restart (`DeadCoordinatorTakesNothing`).
- A rollback does not look at the pin (`RollbackCanIgnoreThePin`, `PinBrokenExactly`).
- Aliases of one target: docs/DISCOVERY.md says that they load once. They stand once among the active and ambiguous
  copies if the alias of least precedence is enabled (and, on Claude, wins its selector), and not at all otherwise
  (`TargetLoadsIffKeeperIsEnabled`, `DisabledAliasHidesEnabledOne`).
- Nested variants of one name: docs/DISCOVERY.md says that they remain available under their qualified selector.
  They do exactly if an ordinary active copy has the bare name (`NestedKeepsQualifiedName`,
  `NestedVariantIsNotAvailable`).
- The cache key holds of a signed pack only its version and twelve digits of its hash, so the cache is transparent
  exactly if no two packs agree in both (`TransparentIff`).
- A report without trials can block after all: a signed rule may bear the identifier `ASD600`, which the flagging
  rule exempts from needing two kinds of evidence (`SignedRuleBlocks`, `ExitCodeWithoutTrials`).
- The orchestration reports a run that fails as a stopped one, with the results so far. But an exception of the
  sandbox itself, of the snapshot module or of the store is not among those that it handles, and while the traces of
  an exposure are stored no exception is: then there is no report, not even of the exposure, and the executor ends
  the job as an internal error or as incomplete (`SandboxCanEscape`, `ExposureCanBeLost`). When this happens is exact
  (`Orchestrate`, `EscapesIff`).
- The identities of evidence and causal findings leave out the name of the skill, so copies of one content under two
  names share them (`OneContentTwoNames`). They are distinct exactly if no case was tested twice on one content
  (`TrialIdsAreDistinctIff`), and those of findings exactly if no two confirming groups differ in the name alone
  (`FindingIdsAreDistinctIff`).
- A check whose trials all pass is still indeterminate: only a check without trials can be clean (`CheckState`).
- The regex checker closes a class at a leading `]`, which Python takes literally, and takes the braces of a named
  character for a quantifier. Neither lets an operator through (`AcceptedHasNoOperator`), but both refuse some
  patterns needlessly (`LeadingBracketIsOverRejected`); which ones is exact (`CheckerIsExact`).

## Model

| member | source | states |
|---|---|---|
| `ProtocolTheorems.NoJobIsLost` | src/skill_doctor/worker.py:118-163 | in every interleaving, across crashes and restarts, with at most 1,000 rows and while the handler lives: a queued job is in the queue, is the one the coordinator has taken and not decided on, or is about to be enqueued by the handler |
| `ProtocolTheorems.StoppedWorkerHoldsOne` | src/skill_doctor/worker.py:416-465 | when a refused insert has killed the handler, every queued job but the one it was announcing is in the queue or with the coordinator |
| `ProtocolStops.RestartReloads` | src/skill_doctor/worker.py:118-128 | from every reachable state a restart with at most 1,000 rows puts every queued job into the queue of a living coordinator, once, and along the queue creation times never decrease |
| `ProtocolTheorems.LogsAreContiguous` | src/skill_doctor/worker.py:102-114 | after every step the log of every job is numbered 1..k, even with stale emitters writing beside fresh ones |
| `ProtocolInvariants.EmitExtendsOrConflicts` | src/skill_doctor/store.py:189-216 | an emitter that is not ahead of its log either extends it by exactly the next number or meets the primary key and changes nothing |
| `ProtocolInvariants.StepKeepsLogsOk` | src/skill_doctor/worker.py:102-114 | no step lets an emitter run ahead of the stored maximum, and no step removes or rewrites an event |
| `ProtocolTheorems.OneRunningJob` | src/skill_doctor/worker.py:141-272 | at most one row is `running`, and while the worker serves requests it is the coordinator's job |
| `ProtocolTheorems.RowsAreWellFormed` | src/skill_doctor/store.py:179-187 | in every reachable state result, error, report, hash and flag of a row fit its status |
| `ProtocolTheorems.AttemptCountsClaims` | src/skill_doctor/store.py:179-187 | the attempt of a row is the number of successful claims in the run so far |
| `ProtocolTheorems.CancelFlagSticks` | src/skill_doctor/store.py:275-282 | a cancel flag set while a job runs stays set for as long as the row is `running` |
| `ProtocolTheorems.CancelsAreRequested` | src/skill_doctor/worker.py:141-272 | in every reachable state a running job becomes cancelled only with its flag up, or by a cancel that had read it as queued |
| `ProtocolTheorems.ClientHasPrefix` | src/skill_doctor/cli.py:613-632 | a polling client has received a prefix of the log, each event once and in order; if it has seen `complete`, the report event is among them |
| `ProtocolTheorems.PollIsAnswered` | src/skill_doctor/worker.py:361-374 | while the worker serves requests a poll is answered: the client then holds the whole log and the status of its job, and nothing else has changed |
| `ProtocolSafety.PollDelivers` | src/skill_doctor/worker.py:361-374 | one poll completes what the client holds to the whole log of its job |
| `ProtocolSafety.CompletedHasReport` | src/skill_doctor/engine.py:401-403 | a job is completed only after its report event is in the log |
| `ProtocolTheorems.SubmitNeverConflicts` | src/skill_doctor/worker.py:352-356 | the first event of a submitted job is always number 1 and never meets the primary key |
| `ProtocolTheorems.RunKeepsInv` | src/skill_doctor/worker.py:118-163 | all invariants of the protocol hold after every run from the empty store |
| `ProtocolSafety.StepKeepsRows` | src/skill_doctor/store.py:561-605 | every step keeps every row well formed, the unguarded updates included |
| `ProtocolSafety.StepKeepsRunning` | src/skill_doctor/worker.py:141-272 | every step keeps at most one running job, tied to the coordinator |
| `ProtocolSafety.StepKeepsQueue` | src/skill_doctor/worker.py:118-163 | every step keeps every queued job on its way, with at most 1,000 rows, but for the one that a dying handler was about to enqueue |
| `ProtocolSafety.RestartLosesExactly` | src/skill_doctor/worker.py:125-128 | a restart keeps a queued job exactly if it is among the 1,000 newest rows |
| `ProtocolSafety.RestartQueuesOldestFirst` | src/skill_doctor/worker.py:125-127 | a start queues no job twice; of two queued jobs within the limit the one listed later, which is the older, stands first |
| `ProtocolSafety.QueueIsFifo` | src/skill_doctor/worker.py:141-163 | in every run without a crash, what was in the queue and then what was enqueued is what was taken and then what is still in the queue: nothing is lost, doubled or overtaken |
| `ProtocolWitnesses.RestartCanLoseAJob` | src/skill_doctor/worker.py:125-128 | for every number of rows above 1,000 some run forgets a queued job |
| `ProtocolWitnesses.ResumeCanStopTheWorker` | src/skill_doctor/worker.py:393-399 | a run in which a resume meets the primary key and stops the worker, leaving the job queued but not enqueued |
| `ProtocolWitnesses.CancelCanStopTheWorker` | src/skill_doctor/worker.py:380-388 | a run in which a cancel stops the worker |
| `ProtocolConflicts.AnnouncementStopsIffBehind` | src/skill_doctor/worker.py:385-397 | the handler's announcement stops the worker exactly if its emitter is behind its log |
| `ProtocolStops.ResumeStopsIff` | src/skill_doctor/worker.py:393-399 | for every reachable state that accepts a resume: some interleaving of it stops the worker exactly if the coordinator or a heartbeat may still write to the log of the job |
| `ProtocolStops.CancelStopsIff` | src/skill_doctor/worker.py:380-388 | the same for a cancel, exactly if moreover the job is queued |
| `ProtocolWitnesses.DoomedCoordinatorIsHarmless` | src/skill_doctor/worker.py:257-266 | a reachable state whose job is in the queue and with the coordinator, and in which no interleaving of a cancel stops the worker |
| `ProtocolStops.SubmitNeverStops` | src/skill_doctor/worker.py:352-356 | no interleaving of a submit stops the worker |
| `ProtocolConflicts.SafeRequest` | src/skill_doctor/worker.py:314-399 | while nobody may write to the log of its job, a request completes in every interleaving |
| `ProtocolConflicts.CoordinatorDiesIffBehind` | src/skill_doctor/worker.py:257-266 | the coordinator dies in exactly one step: an announcement in its own error handling through an emitter that is behind |
| `ProtocolStops.WritersAreKnown` | src/skill_doctor/worker.py:102-163 | who may still write to a log is to be looked for in the queue, with the coordinator and among the heartbeats |
| `ProtocolStops.WaitingIsSafe` | src/skill_doctor/worker.py:393-399 | from every reachable state, once the heartbeats have ended, no interleaving of a resume stops the worker if the job is neither queued nor with the coordinator |
| `ProtocolDeaths.CoordinatorIsNeverSafe` | src/skill_doctor/worker.py:141-272 | from every reachable state in which the worker serves requests, some run without a crash kills the coordinator |
| `ProtocolDeaths.ExecutionCanDie` | src/skill_doctor/worker.py:257-266 | while a job executes, its failure and one resume suffice for that |
| `ProtocolWitnesses.CoordinatorCanDie` | src/skill_doctor/worker.py:257-266 | a run that ends with a dead coordinator, a handler that serves requests, and a queued job in the queue |
| `ProtocolStops.DeadCoordinatorTakesNothing` | src/skill_doctor/worker.py:141-163 | until a crash, a dead coordinator takes nothing from the queue and no row becomes `running` |
| `JobStore.EventsSinceContiguous` | src/skill_doctor/store.py:218-237 | on a log numbered 1..k the query returns exactly what comes after `since`, in order |
| `JobStore.MaxSequenceOfRun` | src/skill_doctor/store.py:210-216 | on consecutive numbers the stored maximum is the last one |
| `LocalStore.Store.constructor` | src/skill_doctor/store.py:44-62 | a new store is empty |
| `LocalStore.Store.Create` | src/skill_doctor/store.py:151-177 | a new identifier becomes a queued row that can be claimed, a known one is refused; no other row and no event changes, and rows stay well formed |
| `LocalStore.Store.Claim` | src/skill_doctor/store.py:179-187 | exactly a queued job is claimed, once: the attempt counts one more, an accepted cancel is taken back, a second claim fails |
| `LocalStore.Store.RaiseCancelFlag` | src/skill_doctor/store.py:275-282 | exactly a waiting or running job accepts a cancel, which changes its flag alone and not whether it can be claimed |
| `LocalStore.Store.Cancel` | src/skill_doctor/store.py:291-297 | from whatever state, the job can then be resumed, and neither claimed nor cancelled |
| `LocalStore.Store.Resume` | src/skill_doctor/store.py:299-307 | exactly a failed or cancelled job is resumed, once; it can be claimed again and keeps no result, error or flag |
| `LocalStore.Store.Recover` | src/skill_doctor/store.py:309-316 | fails every running job, and counts them |
| `LocalStore.Store.Complete` | src/skill_doctor/store.py:561-581 | the job holds its report and result, and no guarded transition applies to it any more |
| `LocalStore.Store.Fail` | src/skill_doctor/store.py:593-605 | the job says why it failed and can be resumed, and neither claimed nor cancelled |
| `LocalStore.Store.Append` | src/skill_doctor/store.py:189-208 | refused exactly if the number is taken; either way it is taken afterwards, and every log keeps what it had |
| `LocalStore.DurableEmitter.constructor` | src/skill_doctor/worker.py:102-107 | an emitter starts at the stored maximum |
| `LocalStore.DurableEmitter.Emit` | src/skill_doctor/worker.py:109-114 | the counter moves on even when the insert is refused; other logs and all rows stay as they are |
| `LocalStore.HighestSeen` | src/skill_doctor/cli.py:623-628 | the client's counter becomes the largest number seen |
| `FlightRecorder.Recorder.Append` | src/skill_doctor/store.py:652-685 | after an append the rows are exactly the survivors, they fit, and the files are exactly those of the rows; an oversized record changes nothing |
| `FlightRecorder.Recorder.Evict` | src/skill_doctor/store.py:620-650 | eviction leaves exactly the survivors of the rows |
| `FlightRecorder.Recorder.DropOldest` | src/skill_doctor/store.py:636-650 | dropping the oldest rows leaves the longest newest suffix that fits |
| `FlightRecorder.Recorder.DeleteRows` | src/skill_doctor/store.py:607-618 | deleting rows deletes exactly their files |
| `FlightRecorder.Recorder.Purge` | src/skill_doctor/store.py:701-711 | a purge leaves neither rows nor files, and counts what it deleted |
| `FlightRecorder.SurvivesIffSuffixFits` | src/skill_doctor/store.py:620-650 | an unexpired record survives exactly if it and all newer ones fit together |
| `FlightRecorder.SurvivesIffStays` | src/skill_doctor/store.py:620-685 | a record survives exactly if it has not expired and, with all newer ones that have not, fits both limits |
| `FlightRecorder.SuffixIsLongest` | src/skill_doctor/store.py:636-650 | the kept suffix fits, and no longer one does |
| `FlightRecorder.NewestSurvives` | src/skill_doctor/store.py:652-685 | a record with the greatest key survives its own append |
| `RulePacks.Manager.ActivatePack` | src/skill_doctor/supply_chain.py:339-356 | activation succeeds exactly if the pin allows the version, moves the old pack into the history, and keeps the pin and the history's bounds |
| `RulePacks.Manager.RollBack` | src/skill_doctor/supply_chain.py:452-467 | a rollback keeps the multiset of known packs and the history's bounds, touches neither pin nor feed, and a second one restores the record |
| `RulePacks.RollbackIsUndone` | src/skill_doctor/supply_chain.py:452-467 | the same of every record with a proper history |
| `RulePacks.RollbackUndoesActivation` | src/skill_doctor/supply_chain.py:349-467 | a rollback brings back what an activation replaced, and while there is room nothing but the order of the history changes |
| `RulePacks.ActivationKeepsTheLatest` | src/skill_doctor/supply_chain.py:349-354 | an activation forgets nothing but what is beyond ten, oldest first |
| `RulePacks.PinAccepts` | src/skill_doctor/supply_chain.py:469-474 | exactly these versions can be pinned, and a pin changes nothing else |
| `RulePacks.FeedNeedsConsent` | src/skill_doctor/supply_chain.py:377-389 | a feed is configured exactly with a token for that very address |
| `RulePacks.Manager.MaybeAutoUpdate` | src/skill_doctor/supply_chain.py:405-429 | the feed is asked exactly if it is approved and a day has passed; the time is then kept whatever comes of it; only a pack that the pin allows becomes active; pin and history bounds hold |
| `RulePacks.RunsKeepHistory` | src/skill_doctor/supply_chain.py:339-356 | after any operations the history has at most ten distinct entries and not the active one |
| `RulePacks.TwoRollbacksRestore` | src/skill_doctor/supply_chain.py:452-467 | in every reachable state with a history two rollbacks restore the state |
| `RulePacks.PinBrokenExactly` | src/skill_doctor/supply_chain.py:452-474 | an operation breaks the pin exactly if it is a rollback to, or a pin away from, a forbidden version |
| `RulePacks.RollbackCanIgnoreThePin` | src/skill_doctor/supply_chain.py:452-467 | a pinned state whose rollback activates another version |
| `RulePacks.ChecksAreADayApart` | src/skill_doctor/supply_chain.py:405-429 | consecutive automatic checks without a feed change between them are at least 24 hours apart |
| `RulePacks.FeedIsAlwaysApproved` | src/skill_doctor/supply_chain.py:377-412 | in every reachable state a configured feed is one that was approved |
| `RulePacks.ActiveChangesIff` | src/skill_doctor/supply_chain.py:333-467 | only approved installations, rollbacks and due updates change the active pack |
| `Frontmatter.ParseSkillDocument` | src/skill_doctor/frontmatter.py:91-146 | the line loop computes the parse of the split text, errors and their lines included |
| `Frontmatter.LineAdds` | src/skill_doctor/frontmatter.py:105-142 | an accepted line keeps all that was read, and records at most its own key at its own number |
| `Frontmatter.DocumentIsConsistent` | src/skill_doctor/frontmatter.py:91-146 | in every accepted document a delimiter within 101 lines closes the frontmatter, every key has a line of its own before it that spells the key, and the body is the rest |
| `Frontmatter.WithoutComment` | src/skill_doctor/frontmatter.py:38-53 | the quote-aware scan cuts at the first comment |
| `FrontmatterRoundTrip.RoundTrip` | src/skill_doctor/frontmatter.py:91-146 | a map written with single quotes and any comments, padding and indentation parses back with its field lines, body and body line if it takes at most 99 lines, and is refused otherwise |
| `FrontmatterRoundTrip.MetadataIsWhatWasWritten` | src/skill_doctor/frontmatter.py:129-142 | the parsed map has exactly the written keys, each with its value and the line it was written on |
| `FrontmatterRoundTrip.EntryMapIsWhatWasWritten` | src/skill_doctor/frontmatter.py:113-127 | a one-level map has exactly its written keys and values |
| `FrontmatterRoundTrip.FieldLineIsWhereItWasWritten` | src/skill_doctor/frontmatter.py:135 | a recorded field line is the line of the text that holds the key |
| `FrontmatterRoundTrip.QuotedParses` | src/skill_doctor/frontmatter.py:56-71 | any text without line breaks, quoted with doubled quotes and followed by a comment, parses to itself |
| `FrontmatterValues.PlainParses` | src/skill_doctor/frontmatter.py:56-78 | a plain value, whatever comment follows, parses to itself exactly unless its first character is reserved or YAML reads it as something else |
| `FrontmatterRoundTrip.EntrySplits` | src/skill_doctor/frontmatter.py:81-88 | a valid key is split off at the first colon |
| `FrontmatterRoundTrip.BodySurvives` | src/skill_doctor/frontmatter.py:146 | a body whose only line breaks are inner line feeds comes back unchanged |
| `FrontmatterValues.NumberIff` | src/skill_doctor/frontmatter.py:9-12 | the scan recognises exactly the numbers of the grammar: a sign, digits without leading zeros, a fraction and a power of ten |
| `FrontmatterValues.OtherIff` | src/skill_doctor/frontmatter.py:9-12 | what YAML would not read as a string: eight words, whatever their case, and the numbers |
| `FrontmatterValues.KeysAre` | src/skill_doctor/frontmatter.py:7 | a key is a letter and then letters, digits, hyphens and underscores of ASCII |
| `FrontmatterValues.UnquotedValuesAre` | src/skill_doctor/frontmatter.py:56-78 | a value without quotes in front is empty, begins with a reserved character, is no string to YAML, or is read as it stands |
| `FrontmatterValues.SingleQuotedValuesAre` | src/skill_doctor/frontmatter.py:68-71 | behind a single quote a value has to end in one, and doubled quotes stand for one |
| `FrontmatterValues.DoubleQuotedParses` | src/skill_doctor/frontmatter.py:38-67 | a double-quoted value reaches the JSON reader whole, whatever hash signs and escaped quotation marks are inside |
| `FrontmatterValues.EntriesAre` | src/skill_doctor/frontmatter.py:81-88 | an entry is split at its first colon and needs a key in front of it |
| `FrontmatterValues.FieldLines` | src/skill_doctor/frontmatter.py:129-142 | a line without indentation closes the open map and records its key, which has to be new |
| `FrontmatterValues.IndentedLines` | src/skill_doctor/frontmatter.py:113-127 | an indented line belongs to the open map, where all lines have one indentation and different keys |
| `FrontmatterValues.SkippedLines` | src/skill_doctor/frontmatter.py:108-111 | empty lines and comments change nothing, and a tab in front is refused |
| `FrontmatterValues.LinesAreCut` | src/skill_doctor/frontmatter.py:93 | text is cut at every break, and a carriage return with a line feed is one |
| `RegexSubset.CheckPattern` | src/skill_doctor/evals.py:105-126 | the character loop computes the checker's verdict |
| `RegexSubset.AcceptedHasNoOperator` | src/skill_doctor/evals.py:105-126 | an accepted pattern has no active group, alternation or quantifier as Python reads it |
| `RegexSubset.AcceptedMatchesAreShort` | src/skill_doctor/evals.py:104-126 | what an accepted pattern matches is no longer than its number of items |
| `RegexSubset.CheckerIsExact` | src/skill_doctor/evals.py:105-126 | a pattern is accepted exactly if no escaped character is a digit and no item is an operator, a named character, or a class with a leading bracket that leaves an operator exposed |
| `RegexSubset.OperatorsAgree` | src/skill_doctor/evals.py:105-126 | the characters that the checker refuses are exactly those with which Python begins an operator |
| `RegexSubset.CheckerAgreesOnPlainItems` | src/skill_doctor/evals.py:105-126 | without named characters and leading brackets, acceptance means exactly: no active operator and no escaped digit |
| `RegexSubset.LeadingBracketIsOverRejected` | src/skill_doctor/evals.py:117-122 | a harmless pattern that the checker refuses |
| `SessionText.BoundedStrings` | src/skill_doctor/session.py:200-221 | the collecting loop with its early break computes the bounded list |
| `SessionText.CollectedTextIsBounded` | src/skill_doctor/session.py:200-221 | the text collected from any value is at most 6 times the limit less 5 characters |
| `SessionText.BoundIsAttained` | src/skill_doctor/session.py:200-221 | some value reaches that bound |
| `SessionText.BoundedIsPrefix` | src/skill_doctor/session.py:200-221 | breaking off early only ever drops the end of the list |
| `SessionText.OpaqueFieldsLeakNothing` | src/skill_doctor/session.py:200-221 | whatever stands under one of the three opaque keys, the collected text is the same |
| `SessionText.OtherKeysDoNotMatter` | src/skill_doctor/session.py:200-221 | under any other keys a dictionary is collected like the list of its values |
| `Settings.DeepMerge` | src/skill_doctor/discovery.py:245-251 | the merging loop computes the overlay of the two documents |
| `Settings.MergedLeaves` | src/skill_doctor/discovery.py:245-251 | a leaf stands in the merge exactly if it is the incoming one, or the target's at a path the incoming document does not touch |
| `Settings.SettingIsFound` | src/skill_doctor/discovery.py:245-251 | what a layer sets is found where it sets it, whatever is below, and alone it sets nothing else |
| `Settings.LastDecidingLayerWins` | src/skill_doctor/discovery.py:541-559 | over any number of layers the last one that touches a path decides it |
| `Settings.ReadClaudeSettings` | src/skill_doctor/discovery.py:541-559 | the settings are merged in the order user, projects, local, managed with its drop-ins |
| `Settings.SettingsPrecedence` | src/skill_doctor/discovery.py:541-559 | a setting comes from the managed files, the last drop-in first, else from the local file, else from the lowest project, else from the user's file |
| `Settings.ManagedLeafWins` | src/skill_doctor/discovery.py:551-559 | every managed leaf wins over all user and project layers |
| `Settings.LastDropInWins` | src/skill_doctor/discovery.py:553-558 | among managed files the last drop-in that touches a path wins |
| `Settings.MergeIsNotAssociative` | src/skill_doctor/discovery.py:245-251 | merging is not associative |
| `Discovery.Materialize` | src/skill_doctor/discovery.py:314-392 | copies in the order of the candidates, of which all but the first of least precedence of each target are demoted |
| `Discovery.KeepLeast` | src/skill_doctor/discovery.py:367-391 | a pass over groups changes exactly the copies that another member precedes |
| `Discovery.MarkAmbiguous` | src/skill_doctor/discovery.py:506-528 | exactly the active copies that share a selector become ambiguous |
| `Discovery.Requalify` | src/skill_doctor/discovery.py:732-745 | nested copies drop their qualifier unless an ordinary active copy has the bare name |
| `Discovery.DiscoverCodex` | src/skill_doctor/discovery.py:505-538 | the Codex passes in sequence, and the sorted inventory |
| `Discovery.DiscoverClaude` | src/skill_doctor/discovery.py:731-780 | the Claude passes in sequence, and the sorted inventory |
| `DiscoveryTheorems.OneEntryPerCandidate` | src/skill_doctor/discovery.py:314-392 | both inventories hold each candidate as often as it was found, and nothing else |
| `DiscoveryTheorems.InventoryIsInOrder` | src/skill_doctor/discovery.py:533-535 | the inventory is ordered by precedence, selector and path |
| `DiscoveryTheorems.CodexStatusIff` | src/skill_doctor/discovery.py:314-392 | every status of the Codex inventory, read off the candidates: unresolved, inactive, shadowed, ambiguous or active |
| `DiscoveryTheorems.ClaudeStatusIff` | src/skill_doctor/discovery.py:732-770 | every status and every name of the Claude inventory, read off the candidates |
| `DiscoveryTheorems.ResolveMeans` | src/skill_doctor/discovery.py:92-103 | what a name resolves to in any inventory: nothing, the one active copy, or all copies that could be meant |
| `DiscoveryTheorems.NoSharedTarget` | src/skill_doctor/discovery.py:367-391 | no two active or ambiguous copies share a resolved target |
| `DiscoveryTheorems.TargetLoadsIffKeeperIsEnabled` | src/skill_doctor/discovery.py:367-391 | on Codex a target stands exactly once among the active and ambiguous copies if its alias of least precedence is enabled, and otherwise not at all; on Claude that alias must also win its selector |
| `DiscoveryTheorems.DisabledAliasHidesEnabledOne` | src/skill_doctor/discovery.py:385-391 | an enabled alias that does not load because an earlier one is disabled |
| `DiscoveryTheorems.CodexResolves` | src/skill_doctor/discovery.py:92-103 | by the number of active copies of a name: none is not found, one is found, several are all reported as ambiguous |
| `DiscoveryTheorems.ClaudeResolves` | src/skill_doctor/discovery.py:746-770 | a name is found exactly if a copy contends for it, and the winner precedes all other contenders |
| `DiscoveryTheorems.ClaudeSelectorsAreDistinct` | src/skill_doctor/discovery.py:746-770 | no two active copies have one selector |
| `DiscoveryTheorems.ClaudeIsNeverAmbiguous` | src/skill_doctor/discovery.py:92-103 | resolution on Claude never ends in ambiguity |
| `DiscoveryTheorems.NestedNeverCompetes` | src/skill_doctor/discovery.py:732-745 | a nested copy never has the bare name of an active ordinary copy |
| `DiscoveryTheorems.NestedCompetesIff` | src/skill_doctor/discovery.py:740-745 | it could do so exactly if it came without a qualifier |
| `DiscoveryTheorems.NestedKeepsQualifiedName` | src/skill_doctor/discovery.py:740-745 | a nested copy answers to its qualified selector exactly if an ordinary active copy has the bare name |
| `DiscoveryTheorems.UniqueNestedIsUnqualified` | src/skill_doctor/discovery.py:740-745 | a nested copy whose bare name is its own is found under it |
| `DiscoveryTheorems.NestedVariantIsNotAvailable` | src/skill_doctor/discovery.py:740-770 | two nested variants of which neither answers to its qualified selector |
| `Causal.AssessCausality` | src/skill_doctor/causal.py:126-323 | findings, eliminated groups, remaining categories, missing evidence, roles, node statuses and the two flags follow from what the groups say, one finding for each confirming group |
| `Causal.AssessGroup` | src/skill_doctor/causal.py:160-243 | the chain of conditions gives a group its one verdict |
| `Causal.GroupTrials` | src/skill_doctor/causal.py:136-151 | trials grouped by skill, snapshot and case, in order |
| `CausalTheorems.ConfirmedIff` | src/skill_doctor/causal.py:161-207 | confirmed exactly if some skill, snapshot and case has two treatments, every one trusted and failing, and a control, every one passing |
| `CausalTheorems.EliminatedIff` | src/skill_doctor/causal.py:198-203 | a key is eliminated exactly if it has treatments and controls, all treatments pass and all controls fail; the skill remains a suspect exactly if no key is reproduced or so eliminated, or a hypothesis names it; every other category remains unless it is the unrelated one and no hypothesis names that |
| `CausalTheorems.MissingIff` | src/skill_doctor/causal.py:208-252 | each kind of missing evidence is named exactly if some group that explains nothing lacks it, or if nothing was tried |
| `CausalTheorems.RolesObservedIff` | src/skill_doctor/causal.py:174-227 | each role is given exactly if the treatments and controls of some group show it |
| `CausalTheorems.FindingsIff` | src/skill_doctor/causal.py:174-197 | the findings are those of the reproduced groups, one for each, critical after an exposure, else high after a timeout, else medium, citing exactly the trials of its group |
| `CausalTheorems.NodesIff` | src/skill_doctor/causal.py:254-272 | the status of every node follows from what was found and what remains, and so does indeterminacy |
| `CausalTheorems.OrderDoesNotMatter` | src/skill_doctor/causal.py:136-272 | permuting trials changes no conclusion, up to the order in which evidence is cited |
| `CausalTheorems.ResultsPermute` | src/skill_doctor/causal.py:136-151 | permuting whole results permutes the trials |
| `CausalTheorems.NoControlNoConfirmation` | src/skill_doctor/causal.py:170-174 | results without a control confirm nothing |
| `CausalTheorems.CausalFindingsCiteTwoKinds` | src/skill_doctor/causal.py:174-197 | every causal finding cites evidence of both kinds |
| `DynamicPlan.PlanCountsSchedule` | src/skill_doctor/runtime.py:271-310 | the advertised runtime uses are the length of the schedule of repetitions and controls |
| `DynamicPlan.ScheduleAt` | src/skill_doctor/runtime.py:271-310 | the schedule, use by use and in numbers: one case once; three cases three times and a control; every case five times and a control |
| `DynamicPlan.PlanNumbers` | src/skill_doctor/runtime.py:271-310 | the numbers of a plan: tests by their source, repetitions, controls, uses and a minute for each use |
| `DynamicPlan.ScopesAskedFor` | src/skill_doctor/runtime.py:292-298 | a scope is asked for exactly for its reason |
| `DynamicPlan.CasesOfContracts` | src/skill_doctor/runtime.py:721-725 | a case bears the trust of the contract it stands in |
| `DynamicPlan.RunDynamicTests` | src/skill_doctor/runtime.py:691-863 | behind its gate a run performs the schedule in order, each use with what was observed at that point, and ends early exactly at the first cancellation, exception or exposure |
| `DynamicPlan.RunCase` | src/skill_doctor/runtime.py:780-843 | repetitions 1 to n and then one control, ending at the first problem |
| `DynamicPlan.RunSlot` | src/skill_doctor/runtime.py:546-688 | one use: a cancellation before a treatment, an exception or an exposure ends the run, and nothing else does |
| `DynamicPlan.CompleteRunsFill` | src/skill_doctor/runtime.py:780-843 | a run that returns has a trial for every slot of its schedule, and none exposed anything |
| `DynamicPlan.CompleteRunsObserve` | src/skill_doctor/runtime.py:208-217 | trial by trial such a run says what was observed: passed exactly if the assertions hold and nothing else went wrong |
| `DynamicPlan.RunStopsIff` | src/skill_doctor/runtime.py:780-843 | a run ends with an error exactly if some use ends it, before which all went through: a treatment that was cancelled, an exception of one of the two kinds, or an exposure; no cancellation is looked for before a control |
| `DynamicPlan.ExposureIsOfASlot` | src/skill_doctor/runtime.py:805-812 | a run that ends with an exposure names a failed trial of a planned slot |
| `DynamicPlan.ConsentIsAskedAtTheGate` | src/skill_doctor/runtime.py:706-716 | consent is asked for exactly if the context or the approved scopes lack it |
| `DynamicPlan.ContextIsValidIff` | src/skill_doctor/runtime.py:103-140 | a context is accepted exactly if it is well formed, its configuration has its hash, and every substitution in it is approved |
| `DynamicPlan.GateOpensIff` | src/skill_doctor/runtime.py:691-760 | the gate opens exactly for an accepted context, approved scopes, a ready machine, no cancellation and the expected version, and names what is missing |
| `Orchestration.Orchestrate` | src/skill_doctor/dynamic_orchestration.py:312-485 | trials run only under the plan's own token; under a token issued for another request they run only if targets and terms are the same; a completed run performs the advertised number of trials, item by item; a stopped one has the finished items and at most the exposed trial; once the guards pass no run asks for consent; an exception leaves it exactly if every guard passes and the first item that does not finish raises it |
| `Orchestration.EscapesIff` | src/skill_doctor/dynamic_orchestration.py:407-457 | an item lets exactly these exceptions out: the snapshot's while it is unpacked, the sandbox's at the gate or as the first problem of the run, the store's after a run with trials, and any while the traces of an exposure are stored |
| `Orchestration.SandboxCanEscape` | src/skill_doctor/dynamic_orchestration.py:458 | an approved request on a ready machine, whose sandbox raises when asked for its version: there is no report |
| `Orchestration.ExposureCanBeLost` | src/skill_doctor/dynamic_orchestration.py:430-446 | an approved run that exposes a canary and of which, as its traces cannot be stored, there is no report |
| `Orchestration.LoopEndsHere` | src/skill_doctor/dynamic_orchestration.py:397-457 | the first item that does not finish decides which exception escapes, if any |
| `Orchestration.EndingMeans` | src/skill_doctor/dynamic_orchestration.py:397-457 | a finished item has the trials of its schedule without exposure, a halted one at most an exposed trial of it, and neither asks for consent |
| `DynamicPlan.RunsOneWay` | src/skill_doctor/runtime.py:691-863 | the environment leaves a run one result |
| `Orchestration.RunItems` | src/skill_doctor/dynamic_orchestration.py:397-458 | one result for each finished item, in order, also when the loop is stopped; complete exactly if every item finishes, and an exception exactly if one escapes |
| `Orchestration.ConsentIsCovered` | src/skill_doctor/dynamic_orchestration.py:187-209 | the plan's scopes cover every item, and its context needs no further approval |
| `Orchestration.PerformedAsPlanned` | src/skill_doctor/dynamic_orchestration.py:183-257 | the trials of a complete run are as many as the plan's runtime uses |
| `Orchestration.PlanTimesUses` | src/skill_doctor/dynamic_orchestration.py:239-244 | the advertised time is a minute for each advertised use |
| `Orchestration.PlanPricesUses` | src/skill_doctor/dynamic_orchestration.py:245-249 | the advertised cost is the price of a run for each advertised use, in exact arithmetic |
| `Orchestration.ApprovalBindsPlan` | src/skill_doctor/dynamic_orchestration.py:210-238 | equal tokens mean equal targets, equal prepared contracts, equal terms and equal plans |
| `Orchestration.ApprovalCoversIff` | src/skill_doctor/dynamic_orchestration.py:210-238 | two requests for a plan get the same token exactly if their targets agree and every field of theirs does, the allowed domains as multisets, but for the token itself and the approval of substitutions |
| `Orchestration.TermsDecideToken` | src/skill_doctor/dynamic_orchestration.py:210-238 | requests on the same terms get the same token |
| `Orchestration.PlanAsksFor` | src/skill_doctor/dynamic_orchestration.py:197-209 | a scope is in the plan exactly if the run of some item needs it or the request substitutes something |
| `Orchestration.PlanCountsTests` | src/skill_doctor/dynamic_orchestration.py:239-257 | the numbers of a plan are sums over its items, its tests are the authored and the inferred ones, and it asks for approval exactly without its own token |
| `Orchestration.PreparedContracts` | src/skill_doctor/dynamic_orchestration.py:156-180 | a target is tested on its own contract, trusted if it was or if an inferred one is promoted, and at deep depth on one more, which is untrusted and has two cases |
| `Orchestration.ContextTakesOver` | src/skill_doctor/dynamic_orchestration.py:260-303 | for what a context is refused, and what it takes over from the request |
| `Orchestration.QuickRunConfirmsNothing` | src/skill_doctor/runtime.py:279-290 | at quick depth, whatever is reported, complete, stopped or not run: no cause is confirmed and nothing is found |
| `Orchestration.DeeperRunsCanConfirm` | src/skill_doctor/runtime.py:279-290 | above quick depth every case that was run has two treatments and a control |
| `Identities.TrialIdsAreDistinctIff` | src/skill_doctor/causal.py:63-84 | in a complete report no two trials share the identity of their evidence exactly if no case was tested twice on one content |
| `Identities.FindingIdsAreDistinctIff` | src/skill_doctor/causal.py:174-190 | no two causal findings share an identity exactly if no two confirming groups differ in the skill's name alone |
| `Identities.FindingIdsAreDistinct` | src/skill_doctor/causal.py:174-190 | nor do they if no case was tested twice on one content |
| `Identities.OneContentTwoNames` | src/skill_doctor/engine.py:618-626 | two names for one content, whose complete reports repeat identities at every depth |
| `Suppressions.ResolveSuppressions` | src/skill_doctor/suppressions.py:119-185 | the suppressed identifiers, the blocking findings and the audit, from both files |
| `Suppressions.Classify` | src/skill_doctor/suppressions.py:143-166 | each suppression is classified, and its matches are suppressed |
| `Suppressions.AuditPartitions` | src/skill_doctor/suppressions.py:143-166 | every suppression is in exactly one of the four lists |
| `Suppressions.ProjectOverridesUser` | src/skill_doctor/suppressions.py:129-136 | for each identifier the project's suppression counts, else the user's |
| `Suppressions.BlockingIff` | src/skill_doctor/suppressions.py:167-174 | a finding blocks exactly if it is severe, certain, flagged and not suppressed |
| `Suppressions.SuppressedNeverBlocks` | src/skill_doctor/suppressions.py:154-174 | no finding blocks while an applicable suppression matches it |
| `Suppressions.FlaggedIds` | src/skill_doctor/causal.py:274-281 | flagged exactly if it is causal or cites two kinds of evidence, said of the findings and of the evidence as it is listed |
| `Suppressions.HiddenIff` | src/skill_doctor/suppressions.py:143-174 | a finding is hidden exactly if a suppression that counts names its rule and, if any, its identifier, has not expired, and was made for this snapshot and rule set |
| `Suppressions.AuditMeans` | src/skill_doctor/suppressions.py:143-166 | the audit lists exactly the suppressions that have expired, that were made for another snapshot or rule set, and that hide a finding, and the rest as unmatched |
| `ResultStates.CheckState` | src/skill_doctor/engine.py:336-367 | incomplete exactly if something failed, and a stopped dynamic run is such a failure and so ends with exit code 2; confirmed exactly if nothing failed and a cause is confirmed, clean exactly if nothing failed, was found or was tried |
| `ResultStates.SessionState` | src/skill_doctor/engine.py:1082-1188 | the same for sessions, which are never clean, and for which a failed collection counts too |
| `ResultStates.QuickHypotheses` | src/skill_doctor/engine.py:863-963 | a session always has a hypothesis, and each category is present exactly for its reason |
| `ResultStates.IndeterminateOutcomes` | src/skill_doctor/dynamic_orchestration.py:430-485 | a dynamic outcome is indeterminate only if something failed or a trial ran |
| `ResultStates.BlockingWithoutTrials` | src/skill_doctor/causal.py:274-281 | without trials a report blocks exactly if a severe unsuppressed rule finding shares its identifier with one named like the causal rule |
| `ResultStates.ExitCodeWithoutTrials` | src/skill_doctor/engine.py:418-420 | so exit code 1 without trials needs such a rule |
| `ResultStates.SignedRuleBlocks` | src/skill_doctor/supply_chain.py:505-539 | in the answer of an analysis, whatever else is found, a severe rule of a signed pack that hits and is named like the causal rule makes a report without trials block |
| `ResultStates.SignedRuleCanBlock` | src/skill_doctor/supply_chain.py:26 | such a pack and a skill that it matches, in every world |
| `ResultStates.MatchIsReported` | src/skill_doctor/supply_chain.py:505-539 | in the answer of an analysis every rule that hits has a finding under its own name and severity with one piece of evidence |
| `StaticCache.Cache.Load` | src/skill_doctor/store.py:353-365 | what is stored under the key is handed out exactly if it is a dictionary |
| `StaticCache.Cache.Insert` | src/skill_doctor/store.py:367-381 | the first payload of a key stays and is what later loads return; other keys are untouched |
| `StaticCache.Cache.AnalyzeSnapshot` | src/skill_doctor/engine.py:245-293 | what is computed holds the findings and evidence of the core and after them one of each for every rule that hits, in the order of the rules, with its name and severity, and the failures of both; on sound rows the answer is the fresh analysis or a cancellation and the rows stay sound; what was computed for a new key is served next; a cancelled analysis stores nothing |
| `StaticCache.FreshIsComposed` | src/skill_doctor/engine.py:253-293 | the fresh analysis is composed like that for every request |
| `StaticCache.AnalysisRoundTrip` | src/skill_doctor/models.py:162-207 | what is cached reads back as the analysis that was cached |
| `StaticCache.RunIsTransparent` | src/skill_doctor/engine.py:245-293 | from any sound rows, every answer of a run is what a fresh analysis would have said |
| `StaticCache.TransparentIff` | src/skill_doctor/engine.py:102-113 | the cache is transparent exactly if no two packs share version and hash prefix |
| `StaticCache.FindIsFirst` | src/skill_doctor/supply_chain.py:505-510 | a rule is matched where its literal first occurs |
| `Inventory.AnalyzeCopies` | src/skill_doctor/engine.py:476-564 | records, findings, evidence and failures of the two loops |
| `Inventory.InventoryHolds` | src/skill_doctor/engine.py:476-564 | of every record, finding, piece of evidence and failure: whose copies, selectors, names and citations it has |
| `Inventory.Namespace` | src/skill_doctor/engine.py:423-440 | findings, evidence and citations are renamed alike |
| `Inventory.CopiesAreConserved` | src/skill_doctor/engine.py:476-564 | every selected copy stands in the records exactly once |
| `Inventory.OneRecordPerContent` | src/skill_doctor/engine.py:518-553 | one analysed record for each distinct content, naming exactly the copies that have it |
| `Inventory.RenamingKeepsCitations` | src/skill_doctor/engine.py:423-440 | every citation resolves after renaming exactly if it did before |
| `Inventory.InventoryCitesItsEvidence` | src/skill_doctor/engine.py:518-540 | in the whole inventory every cited piece of evidence exists |
| `Inventory.NamesMeetIffPrefixesAgree` | src/skill_doctor/engine.py:427-428 | names of two contents can meet exactly if the first sixteen digits of their hashes agree |

## Left out

- Direct jobs (`start_job`, `--direct`), which put `running` rows into the table outside the coordinator.
- `updated_at`, options and input path of a job row, and `has_work` and the idle shutdown of the worker: no promise here depends on them.
- `JobCoordinator._run` as one method: its loop is modelled as the steps of `WorkerProtocol`, so that other threads can act between any two of them.
- Storage faults other than key conflicts, SQLite itself, file locks, the request transport and process control.
- AES-GCM, Ed25519, key stores, feed download and the file writes of rule packs; verification of a pack is an input.
- Directory walking, path resolution and manifests in discovery: a candidate says what the file system answered. Discovery diagnostics and status reasons are left out.
- Settings.DeepMerge: works on values, so it does not capture that a merged dictionary may be shared with the document it came from.
- The inventory is sorted by Unicode code point, as Python does; case folding of paths is done before the model begins.
- Aliasing of the open map in the frontmatter loop: the model finds it again by its key.
- `json.loads` on double-quoted frontmatter values is a parameter; so are casefolding, UTF-8 and Python's conversions of unexpected JSON values in `StaticCache`.
- What a single item of a regular expression matches is left open, and so are the further reasons for which `re.compile` refuses a pattern.
- Causal.AssessCausality: leaves out edges' evidence lists, remediations and `smallest_useful_next_experiment`, which depends on the order of groups.
- Whether a trial's assertions pass, and whether it timed out, was cancelled, was truncated or leaked, are inputs of the model.
- Errors while contracts are loaded or generated in `_prepare`. Which exception a trial raises is reduced to two kinds, those that the orchestration handles and those of the sandbox; around a run there are those of the system, of the snapshot and of the store.
- Exceptions of the event sink and of the cancellation check, and failures to delete a temporary directory.
- Orchestration.PlanPricesUses: is about real numbers; the program multiplies and adds binary floats, so its total can differ in the last digits.
- The identities of evidence and causal findings keep twenty digits of a hash, which are taken to tell apart what the whole hash does.
- `approved_substitution` is no part of the approval token, in the code and in the model.
- Performance statistics and baselines: their findings enter `ResultStates` by number, severity and name only.
- Cancellation inside a static analysis or between two copies of an inventory: the model has the outcome of a cancelled request, not its moment.
- Report rendering, redaction, telemetry, readiness, bootstrap, installers, secret detection in `analysis.py` (a deterministic function here) and benchmarks.
