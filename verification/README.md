# Verification of the safety and control core

This project models five parts of the monorepo in Dafny and proves what they are for. Each part has
a cheap form that runs step by step and a specification over whole histories or whole runs; the
proofs connect the two.

**Tamper-evident log.** `Json` and `Pipeline` redact, sort, print and sign an event. The keyed hash is
a free constructor of its inputs; the text that is hashed is modelled down to its characters, so that
its injectivity is proved, not assumed. `TamperLogger` is the logger as a machine whose steps are the
stretches between two awaits, with the class that updates its fields. `LoggerRuns` proves what holds on
every schedule, `LoggerContents` what the events say and that no secret is among it, `VerifyChain`
characterises the offline verifier exactly, and `LoggerFile` joins them: what the verifier says of a file
the logger wrote.

**Rule engine.** `DeviceCatalog`, `CycleSnapshotStore`, `RuleEvaluator`, `RuleHistory`, `ManagementService`.
The store purges and the evaluator keeps only a few numbers per rule, yet a cycle returns exactly the
rules that fire on the full record of telemetry. `RuleMeaning` says what the
operators mean and when a threshold rule fires, `RuleArming` which rules fire before they should.

**Device telemetry.** `AlarmTransitionDetector`, `AlarmStateRepository`, `AlarmProjection` follow an alarm
from readings to its row; `TelemetryWriteFilter` bounds the error of what is held back;
`CommandExecution` ties the audit record to what the device confirmed.

**Tunnel agent.** `EnvFile`, `AgentConfig`, `ConfigRoundTrip` are the configuration file, printed and read
back; `ConfigMeaning` says which inputs are refused and which defaults apply; `BootstrapClaim` starts the agent over and over; `SetupServer` is the first-boot form.

**Single flight.** `RefreshQueue` is the 401 handling of both API clients as one state machine with
`ApiClient` as its imperative form, and `RefreshOutcome` says who is sent again and what becomes of the
session; `TicketStore` interleaves callers, acquisitions, invalidations and
file operations, with `EpiasTicketStore` as its imperative form. `TicketFile` says what overlapping saves
do to the ticket file, `TicketOverlaps` gives runs on which they lose entries, `TicketSaves` says what
holds when saves come one at a time, `TicketReuse` when a stored ticket is returned.

Conventions. Time is an integer number of milliseconds. Measurements are reals, or integers where only
equality matters. An outcome decided elsewhere (a sink, the hub, the disk, the server, a URL parser) is a
parameter. A class method is proved equal to a specification function of the old state; the theorems are
about that function.

## Where the code and its documentation differ

The model follows the code; each point is a lemma.

- Sink writes keep chain order only if no call starts while an audit call waits for its flush
  (`LoggerRuns.OrderKeptIffNeverOvertakes`, `LoggerRuns.OverlappingAuditsOvertake`); the class comment
  promises it without that condition.
- A rule that arms after a false also arms while a debounce is pending, exactly when it has a condition
  that waits (`RuleHistory.ArmsOnRealFalseIffNoDebounce`, `RuleHistory.PendingDebounceArms`). Those are
  statements about observations; conditions that contradict each other or select no device are never
  observed to hold, and `RuleArming.FiresEarlyIffPendingShown` says which rules real telemetry makes fire.
- Two alarms whose device id and name join to the same key share one memory, and an edge of one goes
  unnoticed; without such a pair it never does (`AlarmTransitionDetector.EdgesReliableIffNoClash`,
  `AlarmTransitionDetector.ClashHidesEdge`). A reset of one device forgets alarms of another exactly when
  one prefix begins with the other (`AlarmTransitionDetector.SparesIffNotNested`).
- A value wrapped in matching quotes parses, and changes when the file is written and read
  (`ConfigRoundTrip.RoundTripIffClean`, `ConfigRoundTrip.QuotedTokenChanges`).
- The hub may issue a secret that reads as nothing where it was written; exactly then a claim is not
  final (`BootstrapClaim.ClaimIsFinalIff`). A blank secret does so (`BootstrapClaim.BlankSecretIsClaimedTwice`),
  and one of several lines can undo itself (`BootstrapClaim.SecretUndoesItself`).
- The key of the setup cache joins its parts with vertical bars, so a save can write the secret issued to
  another peer; `SetupServer.SecretReusedIff` says for which peers.
- Overlapping ticket saves share one temporary file and each writes back all it read. A rename fails
  exactly as `TicketFile.RenameFailsIffTaken` says, an entry of another user is reverted exactly as
  `TicketFile.RenamePutsBackWhatWasRead` says; `TicketOverlaps.SecondRenameFails`,
  `TicketOverlaps.LaterSaveDropsEarlier` and `TicketOverlaps.EveryEntryIsLost` are runs on which it
  happens. Saves one at a time do neither (`TicketSaves.NoSaveFails`, `TicketSaves.SavesApplyInOrder`).
- The signed text joins its fields with line breaks: an event can be replaced under its own signature
  exactly when event code, message, correlation id, service or host contains one, or the time stamp
  hides lines that read as level and category (`Pipeline.AmbiguousIff`, `Pipeline.ForgeableIff`).

## Model

| member | source | states |
|---|---|---|
| `VerifyChain.ValidIffPrefixesOfRuns` | packages/tamper-logger/src/verify-chain.ts:36-82 | among files whose verifying events were really emitted, valid exactly when the file is a concatenation of non-empty prefixes of emitted runs, up to canonical equality |
| `VerifyChain.SegmentsCountRuns` | packages/tamper-logger/src/verify-chain.ts:45-81 | such a file is reported valid with as many segments as it has prefixes, however it is cut |
| `VerifyChain.DeletionsReported` | packages/tamper-logger/src/verify-chain.ts:47-74 | deleting any events of one run, order kept, gives exactly one missing_event at the first survivor after each gap, a leading gap included |
| `VerifyChain.OnlyTruncationIsSilent` | packages/tamper-logger/src/verify-chain.ts:47-74 | a deletion goes unreported exactly when only a tail is missing |
| `VerifyChain.AuthenticNeverOutOfOrder` | packages/tamper-logger/src/verify-chain.ts:57-64 | on authentic events in any order, deleted or repeated, nothing but missing_event is reported |
| `VerifyChain.MismatchesNameTheUnsigned` | packages/tamper-logger/src/verify-chain.ts:71-73 | in any file, signature_mismatch names exactly the events whose signature does not verify, in order |
| `VerifyChain.AlteredContentReported` | packages/tamper-logger/src/verify-chain.ts:45-74 | content altered under an old signature, anywhere in a run, is reported as one signature_mismatch at that event |
| `VerifyChain.AlteredNumberReported` | packages/tamper-logger/src/verify-chain.ts:52-73 | an altered number is reported for its signature, and at the event and the next one as out_of_order where numbers do not rise and missing_event where they jump |
| `VerifyChain.SignatureFixesHistory` | packages/tamper-logger/src/pipeline.ts:111-131 | a signature fixes the position and the whole history behind it |
| `VerifyChain.SplitIntoPrefixes` | packages/tamper-logger/src/verify-chain.ts:47-74 | a file without violations splits into prefixes of emitted runs, one for each counted segment |
| `VerifyChain.PrefixesPass` | packages/tamper-logger/src/verify-chain.ts:47-74 | a concatenation of prefixes passes with one segment for each |
| `VerifyChain.NoViolationsIffGood` | packages/tamper-logger/src/verify-chain.ts:71-78 | no violation is reported exactly when every event attaches and verifies |
| `VerifyChain.VerifyChain` | packages/tamper-logger/src/verify-chain.ts:36-82 | the index loop computes the verdict the theorems above are about |
| `Pipeline.SigningTextIff` | packages/tamper-logger/src/pipeline.ts:111-117 | the hashed text of an event with one-line fields determines previous hash, number and content, whatever event is offered instead |
| `Pipeline.TamperingDetected` | packages/tamper-logger/src/pipeline.ts:124-131 | any event found, however laid out, that carries the signature of an event with one-line fields verifies exactly under the same key, place and content |
| `Pipeline.OneLineCanonicalFixesContent` | packages/tamper-logger/src/pipeline.ts:91-108 | an event with one-line fields shares its canonical text with exactly the events of the same content, up to context key order and absent-field defaults |
| `Pipeline.AmbiguousIff` | packages/tamper-logger/src/pipeline.ts:91-108 | any event shares its canonical text with one of other content exactly when event code, message, correlation id, service or host contains a line break, or the time stamp hides lines that read as level and category |
| `Pipeline.Twin` | packages/tamper-logger/src/pipeline.ts:96-107 | for each such line break, the event of other content that has the same canonical text |
| `Pipeline.ForgeableIff` | packages/tamper-logger/src/pipeline.ts:124-131 | a verifying event, whatever its text, can be replaced under its own signature exactly when one of those five fields contains a line break or the time stamp hides lines that read as level and category |
| `Pipeline.RedactionRemovesSecrets` | packages/tamper-logger/src/pipeline.ts:21-36 | no value is left under a sensitive key at any depth, and a value is left alone exactly when it holds none |
| `Pipeline.RedactionKeepsTheRest` | packages/tamper-logger/src/pipeline.ts:21-36 | redaction forgets exactly what lies below sensitive keys |
| `Pipeline.RedactionKeepsWellFormed` | packages/tamper-logger/src/pipeline.ts:21-51 | redaction keeps keys unique |
| `Pipeline.SensitiveIff` | packages/tamper-logger/src/pipeline.ts:27-29 | a key is sensitive exactly when a redaction key stands anywhere in it, letter case aside |
| `Pipeline.CanonicalIsJoin` | packages/tamper-logger/src/pipeline.ts:91-108 | the canonical text is the ten fields in the order listed, joined by line breaks |
| `Pipeline.SampleText` | packages/tamper-logger/src/pipeline.ts:91-108 | the canonical text of a sample event, character by character |
| `Pipeline.AbsentFields` | packages/tamper-logger/src/pipeline.ts:91-107 | an absent context counts as an empty object, other absent fields as empty texts |
| `Pipeline.RedactValue` | packages/tamper-logger/src/pipeline.ts:21-36 | the loops compute the redaction the lemmas are about |
| `Json.SortKeys` | packages/tamper-logger/src/pipeline.ts:76-88 | the loops compute the key-sorted tree |
| `Json.SortedIffSimilar` | packages/tamper-logger/src/pipeline.ts:76-88 | sorted trees agree exactly when the trees differ only in key order, at every depth |
| `Json.KeyLessIff` | packages/tamper-logger/src/pipeline.ts:82-84 | keys are sorted by character code at their first difference, a beginning before what it begins |
| `Json.PrintPrefixFree` | packages/tamper-logger/src/pipeline.ts:91-95 | printed contexts are prefix-free, so the text determines the tree |
| `Json.PrintOneLine` | packages/tamper-logger/src/pipeline.ts:91-95 | a printed context contains no newline |
| `Json.PrintedPairs` | packages/tamper-logger/src/pipeline.ts:91-95 | pairs are printed in brackets with a comma, a field in braces with a colon |
| `Json.ContextTextIffSimilar` | packages/tamper-logger/src/pipeline.ts:91-95 | context texts agree exactly for contexts that differ only in key order |
| `TamperLogger.Logger.constructor` | packages/tamper-logger/src/tamper-logger.ts:40-47 | a new logger starts at the genesis hash with number 1 and nothing pending |
| `TamperLogger.Logger.Log` | packages/tamper-logger/src/tamper-logger.ts:102-144 | the synchronous stretch of log: refusal, level filter, chain, ring, batch or suspended audit call |
| `TamperLogger.Logger.PushToRing` | packages/tamper-logger/src/tamper-logger.ts:180-185 | the new event enters the ring and the oldest leaves when it is over size |
| `TamperLogger.Logger.Flush` | packages/tamper-logger/src/tamper-logger.ts:187-191 | hands over everything pending as one batch |
| `TamperLogger.Logger.WriteSerialized` | packages/tamper-logger/src/tamper-logger.ts:197-207 | a batch joins the end of the write chain |
| `TamperLogger.Logger.ResumeCall` | packages/tamper-logger/src/tamper-logger.ts:140-144 | an audit call past its flush enqueues its own event, fail-closed |
| `TamperLogger.Logger.DeliverHead` | packages/tamper-logger/src/tamper-logger.ts:209-248 | the head batch is written, refused or dropped, with counters and degradation |
| `TamperLogger.Logger.CountDrops` | packages/tamper-logger/src/tamper-logger.ts:238-245 | every dropped event is counted once, error and fatal apart |
| `TamperLogger.Logger.CloseLogger` | packages/tamper-logger/src/tamper-logger.ts:171-175 | closing flushes what is pending, once |
| `TamperLogger.Logger.DroppedEvents` | packages/tamper-logger/src/tamper-logger.ts:147-150 | the counters are the numbers of dropped app events in the whole history, the error and fatal ones apart |
| `TamperLogger.Logger.IsDegraded` | packages/tamper-logger/src/tamper-logger.ts:159-168 | degraded is reported exactly when an error or fatal event was ever dropped |
| `LoggerRuns.EmittedIsOneChain` | packages/tamper-logger/src/tamper-logger.ts:128-130 | on every schedule the signed events form one chain 1, 2, 3, ... and the ring is its last ringSize events |
| `LoggerRuns.NoEventLost` | packages/tamper-logger/src/tamper-logger.ts:132-163 | on every schedule each accepted app event is pending, queued, written or dropped; degraded exactly when an error or fatal event was dropped; a batch never overfills |
| `LoggerContents.CallIsTold` | packages/tamper-logger/src/tamper-logger.ts:102-137 | on every schedule a call that counts emits one event with the call's level, category, code and message, its context but for secrets, and the environment's values for absent fields; any other call changes nothing |
| `LoggerContents.AcceptsIff` | packages/tamper-logger/src/tamper-logger.ts:103-119 | a call counts exactly when the logger is open, the code is allowed, and it is no app event below the threshold |
| `LoggerContents.NoSecretIsLogged` | packages/tamper-logger/src/tamper-logger.ts:120-131 | on every schedule no event has a value under a sensitive key, as signed, in the ring or in any sink's file |
| `LoggerContents.AuditGoesAfterItsFlush` | packages/tamper-logger/src/tamper-logger.ts:140-144 | on every schedule an audit call that found app events pending goes on only when every app event logged before it has been delivered |
| `LoggerContents.WaitsIfPending` | packages/tamper-logger/src/tamper-logger.ts:187-191 | an audit call waits exactly when it finds something pending |
| `LoggerRuns.OrderKeptIffNeverOvertakes` | packages/tamper-logger/src/tamper-logger.ts:132-144 | the sinks are handed the chain in order without holes exactly on the schedules where nothing overtakes a suspended audit call |
| `LoggerRuns.ExclusiveKeepsOrder` | packages/tamper-logger/src/tamper-logger.ts:140-144 | callers that start no call while an audit call is suspended keep the order |
| `LoggerRuns.OverlappingAuditsOvertake` | packages/tamper-logger/src/tamper-logger.ts:142-143 | a schedule on which the sinks see numbers 1, 3, 2 |
| `LoggerFile.VerifierReportsLostBatches` | packages/tamper-logger/src/tamper-logger.ts:209-248 | as long as nothing overtakes, a sink's file lacks exactly the events of the batches it refused, and the verifier reports exactly the gaps this leaves |
| `LoggerFile.FileAndRefusedSplit` | packages/tamper-logger/src/tamper-logger.ts:209-228 | on every schedule each delivered event is either in a sink's file or was refused by it, once |
| `LoggerFile.MissingIffRefused` | packages/tamper-logger/src/tamper-logger.ts:209-228 | an event is missing from a file exactly when its batch was refused |
| `LoggerFile.FileValidIffNeverOvertaken` | packages/tamper-logger/src/tamper-logger.ts:187-207 | once all is delivered, the file of a sink that never refused is valid exactly when no call overtook, and then has one segment |
| `LoggerFile.ReliableSinkHasAll` | packages/tamper-logger/src/tamper-logger.ts:213-216 | a sink that never refuses holds every delivered event, in order |
| `DeviceCatalog.Catalog.constructor` | services/management-service/src/device-catalog.ts:25-27 | the catalog holds the given entries |
| `DeviceCatalog.Catalog.ResolveTargets` | services/management-service/src/device-catalog.ts:30-55 | the loops compute the ordered union |
| `DeviceCatalog.Catalog.AddType` | services/management-service/src/device-catalog.ts:49-53 | the devices of one type are added in catalog order |
| `DeviceCatalog.ResolvedIsSelection` | services/management-service/src/device-catalog.ts:30-55 | targets are exactly the selected known devices, each once |
| `DeviceCatalog.DistinctKeepsOrder` | services/management-service/src/device-catalog.ts:34-39 | targets keep the order in which they are first met |
| `DeviceCatalog.IdsComeFirst` | services/management-service/src/device-catalog.ts:40-54 | the devices named by id come first, those that only their type brings in come after |
| `CycleSnapshotStore.Store.constructor` | services/management-service/src/cycle-snapshot-store.ts:65-72 | an empty store |
| `CycleSnapshotStore.Store.Record` | services/management-service/src/cycle-snapshot-store.ts:75-94 | the new telemetry overwrites both indexes |
| `CycleSnapshotStore.Store.Snapshot` | services/management-service/src/cycle-snapshot-store.ts:97-127 | store and copy hold what is fresh; a device without fresh names goes away |
| `CycleSnapshotStore.Store.DropStale` | services/management-service/src/cycle-snapshot-store.ts:100-109 | exactly the stale entries of one index go |
| `CycleSnapshotStore.StoreStaysFaithful` | services/management-service/src/cycle-snapshot-store.ts:75-127 | every canonical entry has a name entry at least as fresh, and both indexes hold the latest |
| `CycleSnapshotStore.PurgingChangesNoAnswer` | services/management-service/src/cycle-snapshot-store.ts:37-41 | every query on a snapshot answers as the full unpurged record would, and the devices listed are exactly those with a fresh name |
| `CycleSnapshotStore.FreshSampleAnswers` | services/management-service/src/cycle-snapshot-store.ts:97-127 | the last sample of a device and name is what a snapshot answers as long as it is at most maxAgeMs old |
| `CycleSnapshotStore.NoAnswerIsStale` | services/management-service/src/cycle-snapshot-store.ts:100-109 | no answer of a snapshot is older than maxAgeMs |
| `CycleSnapshotStore.TagAnswers` | services/management-service/src/cycle-snapshot-store.ts:88-92 | a canonical tag answers where no fresh name does, and the empty tag never does |
| `RuleEvaluator.Evaluator.constructor` | services/management-service/src/rule-evaluator.ts:51-54 | no rule has state yet |
| `RuleEvaluator.Evaluator.Evaluate` | services/management-service/src/rule-evaluator.ts:60-117 | the loop over the rules is the sequential specification, each state kept under the rule's name |
| `RuleEvaluator.Evaluator.EvaluateRule` | services/management-service/src/rule-evaluator.ts:66-115 | one rule: debounce, edge, arming, cooldown |
| `RuleEvaluator.Evaluator.DebounceAll` | services/management-service/src/rule-evaluator.ts:74-84 | held-since times and debounced truths of all conditions |
| `RuleEvaluator.Evaluator.TestCondition` | services/management-service/src/rule-evaluator.ts:133-145 | true exactly when some target has a value that satisfies the operator |
| `RuleEvaluator.Evaluator.TestPresence` | services/management-service/src/rule-evaluator.ts:147-152 | true exactly when every condition has a value on some target |
| `RuleHistory.EvaluatorRefinesHistory` | services/management-service/src/rule-evaluator.ts:60-117 | after any history the state is its summary (fired, armed, last firing, held-since as start of the maximal true suffix), and the rule is returned exactly when the history specification fires |
| `RuleHistory.FiringsAreApart` | services/management-service/src/rule-evaluator.ts:105-114 | two firings are at least the cooldown apart with the rule false in between |
| `RuleHistory.SwallowedEdgeStaysSilent` | services/management-service/src/rule-evaluator.ts:100-111 | an edge consumed by cooldown or arming never fires late |
| `RuleHistory.FiresIff` | services/management-service/src/rule-evaluator.ts:100-114 | a rule fires exactly on an armed rising edge with no firing less than the cooldown ago |
| `RuleHistory.RepeatedTickIsSilent` | services/management-service/src/rule-evaluator.ts:56-59 | evaluating again with the same values at the same time returns nothing |
| `RuleHistory.ArmingNeedsRealFalse` | services/management-service/src/rule-evaluator.ts:90-103 | without a waiting condition, an armAfterFalse rule fires only after an evaluation with all values present whose conditions did not hold |
| `RuleHistory.PendingDebounceArms` | services/management-service/src/rule-evaluator.ts:90-95 | for any rule with a waiting condition, a history on which it fires although its conditions held from the first evaluation |
| `RuleHistory.ArmsOnRealFalseIffNoDebounce` | services/management-service/src/rule-evaluator.ts:90-103 | of all histories of observations: exactly the armAfterFalse rules none of whose conditions waits fire only after a really false evaluation |
| `RuleHistory.CombinedIffRuleTrue` | services/management-service/src/rule-evaluator.ts:74-88 | the debounced truths combine to the history's rule value |
| `ManagementService.Service.constructor` | services/management-service/src/management-service.ts:47-54 | the service holds its rules, evaluator and store |
| `ManagementService.Service.OnManagementJob` | services/management-service/src/management-service.ts:61-68 | a job's telemetry is recorded |
| `ManagementService.Service.RunCycle` | services/management-service/src/management-service.ts:77-84 | a cycle purges at the store's reading of the clock, takes a snapshot and evaluates all rules on it at the evaluator's own reading |
| `ManagementService.RulesAreIndependent` | services/management-service/src/rule-evaluator.ts:64-117 | with unique names each rule goes its own way |
| `ManagementService.StatesSummarise` | services/management-service/src/management-service.ts:77-84 | along any run the state kept under a rule's name summarises that rule's own record |
| `ManagementService.CycleReturnsFiringRules` | services/management-service/src/management-service.ts:77-84 | a cycle returns exactly the rules that fire on the full telemetry record, in rule order |
| `ManagementService.FiringRestsOnFreshSamples` | services/management-service/src/management-service.ts:77-84 | an `all` rule fires only if each condition was met by a fresh sample of a selected device at every cycle of its debounce window |
| `RuleMeaning.OrderOperators` | services/management-service/src/rule-evaluator.ts:154-176 | gt begins strictly above the threshold and holds from there up, gte adds the threshold, lte and lt are what is left, the absolute ones look both ways |
| `RuleMeaning.OnlyNumbersCompare` | services/management-service/src/rule-evaluator.ts:154-176 | a value that is no number satisfies neq and nothing else |
| `RuleMeaning.FiringRestsOnLevels` | services/management-service/src/management-service.ts:77-84 | an `all` rule fires only if each condition had a fresh sample at the level it asks for at every cycle of its debounce window, told by the numbers themselves |
| `RuleMeaning.AnyFiringRestsOnLevels` | services/management-service/src/management-service.ts:77-84 | an `any` rule fires only if some condition of it had |
| `RuleMeaning.FiresOnCrossing` | services/management-service/src/management-service.ts:77-84 | a plain threshold rule over one device is returned by a cycle exactly when the value owed to it is at the level now and was not at the cycle before |
| `RuleArming.FiresEarlyIffPendingShown` | services/management-service/src/management-service.ts:77-84 | an armAfterFalse rule is returned on some run without a really false cycle before exactly when some telemetry shows it pending: all values there and satisfied, a debounce still running |
| `RuleArming.PendingFiresEarly` | services/management-service/src/management-service.ts:77-84 | telemetry that shows a rule pending, recorded again when the debounces are over, makes the cycle return it |
| `RuleArming.EarlyFiringShowsPending` | services/management-service/src/rule-evaluator.ts:90-103 | a run on which a rule is returned too early has a cycle that finds it pending |
| `RuleArming.OneSampleShowsPending` | services/management-service/src/rule-evaluator.ts:74-95 | one satisfying sample of a known device shows any rule of one waiting condition pending |
| `AlarmTransitionDetector.GroupByName` | services/device-service/src/alarm-transition-detector.ts:27-32 | readings grouped by name, in order |
| `AlarmTransitionDetector.AlarmSamples` | services/device-service/src/alarm-transition-detector.ts:21-50 | one sample for each rule with a reading, active when any reading triggers it |
| `AlarmTransitionDetector.AlarmOnIff` | services/device-service/src/alarm-transition-detector.ts:36-39 | an alarm is on for any reading of its name but the number 0, an active-low one for a reading that is the number 0 |
| `AlarmTransitionDetector.SamplesOfRules` | services/device-service/src/alarm-transition-detector.ts:33-49 | each rule with a reading gives the sample with its name, severity and description |
| `AlarmTransitionDetector.Detector.constructor` | services/device-service/src/alarm-transition-detector.ts:57-58 | no memory yet |
| `AlarmTransitionDetector.Detector.Detect` | services/device-service/src/alarm-transition-detector.ts:61-85 | transitions on edges only, and the memory of the last activity |
| `AlarmTransitionDetector.Detector.Reset` | services/device-service/src/alarm-transition-detector.ts:88-93 | exactly the keys with the device's prefix are forgotten |
| `AlarmTransitionDetector.TransitionsAreEdges` | services/device-service/src/alarm-transition-detector.ts:61-85 | over any polls of any devices, the transitions of an alarm are exactly the edges of what was observed of it, unless another device's polled alarm has the same key |
| `AlarmTransitionDetector.EdgesReliableIffNoClash` | services/device-service/src/alarm-transition-detector.ts:65-81 | the transitions of an alarm can be relied on for every sequence of polls exactly when no other configured alarm has its key |
| `AlarmTransitionDetector.ClashHidesEdge` | services/device-service/src/alarm-transition-detector.ts:65-81 | with two alarms of one key, the second comes on unnoticed after the first |
| `AlarmTransitionDetector.EdgesAlternate` | services/device-service/src/alarm-transition-detector.ts:67-81 | edges strictly alternate set, clear, set, ...; an odd number means on |
| `AlarmTransitionDetector.ResetForgetsItsOwn` | services/device-service/src/alarm-transition-detector.ts:88-93 | with colon-free ids a reset forgets its own device and no other |
| `AlarmTransitionDetector.SparesIffNotNested` | services/device-service/src/alarm-transition-detector.ts:88-93 | for any ids, a reset of one device never touches another exactly when neither prefix begins with the other |
| `AlarmStateRepository.Repository.constructor` | services/device-service/src/alarm-state-repository.ts:34-40 | the table at hand |
| `AlarmStateRepository.Repository.ActivateAlarm` | services/device-service/src/alarm-state-repository.ts:45-61 | the upsert, new episode or running one |
| `AlarmStateRepository.Repository.DeactivateAlarm` | services/device-service/src/alarm-state-repository.ts:64-71 | closes an active row only |
| `AlarmStateRepository.Repository.ResolveAlarm` | services/device-service/src/alarm-state-repository.ts:77-90 | marks an active row only, and reports whether there was one |
| `AlarmStateRepository.Repository.ResetDevices` | services/device-service/src/alarm-state-repository.ts:93-103 | closes the rows of the devices, keeping an earlier end |
| `AlarmStateRepository.RowsStayConsistent` | services/device-service/src/alarm-state-repository.ts:45-103 | under any mix of the four statements: active means started and not ended, inactive means ended no earlier than started, and a mark lies within its episode |
| `AlarmStateRepository.MarkBelongsToEpisode` | services/device-service/src/alarm-state-repository.ts:45-90 | a resolved mark is made on an active row and never survives into a new episode |
| `AlarmStateRepository.ActiveRowTellsStart` | services/device-service/src/alarm-state-repository.ts:45-61 | the start of an active row is the time of the statement that began its running episode |
| `AlarmStateRepository.EndedRowTellsEnd` | services/device-service/src/alarm-state-repository.ts:64-103 | the end of an inactive row is the time of the statement that ended its last episode, whatever came later, and the start is that episode's |
| `AlarmStateRepository.RowTellsLastActivation` | services/device-service/src/alarm-state-repository.ts:45-61 | severity and description are those of the last activation |
| `AlarmStateRepository.OnlyItsRowsChange` | services/device-service/src/alarm-state-repository.ts:45-103 | a statement changes only rows it names, a changed row carries its time, and a reset leaves none of its devices' rows active |
| `AlarmProjection.AlarmPath.constructor` | services/device-service/src/device-service.ts:321-327 | detector and table together |
| `AlarmProjection.AlarmPath.Start` | services/device-service/src/device-service.ts:321-327 | start-up closes stale rows and forgets every started device |
| `AlarmProjection.AlarmPath.EvaluateAlarms` | services/device-service/src/device-service.ts:452-499 | a poll issues one statement for each transition, lost ones included, here in order |
| `AlarmProjection.PollOrderIsFree` | services/device-service/src/device-service.ts:452-473 | with one rule per alarm the concurrent writes of a poll leave the same table in whatever order they take effect |
| `AlarmProjection.RowShowsTransition` | services/device-service/src/device-service.ts:482-488 | the row of a transition that got through is active with the transition's severity and description |
| `AlarmProjection.RowFollowsLastWrite` | services/device-service/src/device-service.ts:482-492 | a row is active exactly when the last statement that reached the table was a set |
| `AlarmProjection.TableMirrorsDetector` | services/device-service/src/device-service.ts:452-499 | from start-up on, unless another polled alarm has the same key, a row agrees with the last observation exactly when the last statement that got through says the same as the last one issued; always when every write succeeds |
| `TelemetryWriteFilter.Filter.constructor` | services/device-service/src/telemetry-write-filter.ts:27-30 | nothing written yet |
| `TelemetryWriteFilter.Filter.Select` | services/device-service/src/telemetry-write-filter.ts:32-65 | the loop computes the due samples |
| `TelemetryWriteFilter.Filter.MarkWritten` | services/device-service/src/telemetry-write-filter.ts:67-79 | the numeric samples of the job become the reference, now |
| `TelemetryWriteFilter.HeldBackIsClose` | services/device-service/src/telemetry-write-filter.ts:41-62 | on every interleaving of publications a held-back sample differs by less than the deadband from a value of that name really enqueued less than maxStaleMs ago |
| `TelemetryWriteFilter.SelectionIsDue` | services/device-service/src/telemetry-write-filter.ts:41-62 | of each sample exactly the due occurrences are published, as often as they are there |
| `TelemetryWriteFilter.SelectionJoins` | services/device-service/src/telemetry-write-filter.ts:41-64 | the selection keeps the order of the samples |
| `TelemetryWriteFilter.RefusedStaysDue` | services/device-service/src/device-service.ts:629-643 | a due sample stays due until some write job of its device is enqueued |
| `TelemetryWriteFilter.DueAfterMark` | services/device-service/src/telemetry-write-filter.ts:55-61 | after a mark a sample is due exactly when it moved by the deadband or went stale |
| `TelemetryWriteFilter.OnlyTheWriteJobCounts` | services/device-service/src/device-scheduler.ts:61-110 | the reference values move exactly when the publication's write job was taken, whatever became of its other two jobs, and then the job carried the samples selected |
| `CommandExecution.ValidateReadBack` | services/device-service/src/device-service.ts:759-800 | succeeds exactly when some read that begins in the window meets all expectations; starts no read at or after the deadline; at most ceil(timeoutMs/50) reads |
| `CommandExecution.ExecuteCommand` | services/device-service/src/device-service.ts:645-752 | exactly one audit for a known device, `executed` exactly when written and, where asked, confirmed; the caller is told the same; order of effects |
| `CommandExecution.BeginsLate` | services/device-service/src/device-service.ts:770-792 | the k-th read begins no earlier than 50 k ms, and exactly 50 ms and the lag after the one before has ended |
| `CommandExecution.MeetsIff` | services/device-service/src/device-service.ts:773-776 | an expectation is met exactly when there is a reading of its name and the first one holds |
| `CommandExecution.ConfirmedWasSeen` | services/device-service/src/device-service.ts:770-777 | for a confirmed command one read in the window showed every expected name with a value that holds |
| `EnvFile.ReadEnvFile` | packages/ws-tunnel-agent/src/config.ts:150-169 | the line loop computes the environment the lemmas are about |
| `EnvFile.ReadPrinted` | packages/ws-tunnel-agent/src/config.ts:153-166 | a printed entry is read as its key and its trimmed, unquoted value |
| `EnvFile.ReadPrintedFile` | packages/ws-tunnel-agent/src/config.ts:206-211 | reading a printed file gives its entries back, later ones winning |
| `EnvFile.ReadAnyFile` | packages/ws-tunnel-agent/src/config.ts:206-211 | any printed file, values of several lines included, is read entry by entry, each by its own text, later ones winning |
| `EnvFile.ReadEnvHasNoNewline` | packages/ws-tunnel-agent/src/config.ts:152-167 | no value read from a file spans lines |
| `EnvFile.DefinesIff` | packages/ws-tunnel-agent/src/config.ts:152-157 | a line defines something exactly when it is no comment and has a key before its first equals sign |
| `EnvFile.QuotesComeOff` | packages/ws-tunnel-agent/src/config.ts:159-165 | one pair of matching quotes of either kind comes off, and no more |
| `EnvFile.TrimFacts` | packages/ws-tunnel-agent/src/config.ts:153-158 | trimming only cuts, ends trimmed, and leaves exactly trimmed texts alone |
| `EnvFile.BlankIff` | packages/ws-tunnel-agent/src/config.ts:153-155 | a text is blank exactly when it is white space throughout, among ASCII characters tabs, line breaks, form feeds and spaces |
| `EnvFile.JoinThenNewline` | packages/ws-tunnel-agent/src/config.ts:207-210 | joining and a final newline end every line |
| `AgentConfig.ParseAgentConfig` | packages/ws-tunnel-agent/src/config.ts:75-147 | the error list in order, or the configuration |
| `AgentConfig.CheckEnv` | packages/ws-tunnel-agent/src/config.ts:85-128 | the checks push their errors in source order |
| `AgentConfig.CheckUrl` | packages/ws-tunnel-agent/src/config.ts:85-89 | an address is missing, not http(s), or fine |
| `AgentConfig.PositiveInt` | packages/ws-tunnel-agent/src/config.ts:50-64 | fallback when blank, an error when not a positive integer |
| `AgentConfig.MergeConfigEnv` | packages/ws-tunnel-agent/src/config.ts:176-184 | the environment overrides, except where the file holds a secret |
| `AgentConfig.ConfigLines` | packages/ws-tunnel-agent/src/config.ts:186-203 | the entries in file order, optional ones only when present |
| `ConfigMeaning.FaultsReported` | packages/ws-tunnel-agent/src/config.ts:75-128 | the errors are exactly the faults of the environment, each once, in order |
| `ConfigMeaning.DefaultsApply` | packages/ws-tunnel-agent/src/config.ts:80-128 | 1000 ms, 60000 ms, device, and the host name or agent, where nothing is given |
| `ConfigMeaning.GivenIsTaken` | packages/ws-tunnel-agent/src/config.ts:105-146 | what is given is taken, and TLS checks are left out for https targets only |
| `ConfigMeaning.WhoSpeaks` | packages/ws-tunnel-agent/src/config.ts:176-184 | the environment speaks for a key if it says anything, but never over a secret of the file |
| `ConfigRoundTrip.ParsedIsNormal` | packages/ws-tunnel-agent/src/config.ts:130-146 | what every parsed configuration satisfies |
| `ConfigRoundTrip.RoundTrip` | packages/ws-tunnel-agent/src/config.ts:206-211 | a normal configuration with clean values is what its own file parses to |
| `ConfigRoundTrip.RoundTripIffClean` | packages/ws-tunnel-agent/src/config.ts:75-211 | every parsed configuration survives its own file exactly when its values are trimmed, one-line and not quote-wrapped |
| `ConfigRoundTrip.OnlyCleanSurvives` | packages/ws-tunnel-agent/src/config.ts:158-165 | a configuration with any other value does not survive |
| `ConfigRoundTrip.QuotedTokenChanges` | packages/ws-tunnel-agent/src/config.ts:159-165 | a token typed in quotes is accepted and changed by writing the file |
| `ConfigRoundTrip.FileReadsAs` | packages/ws-tunnel-agent/src/config.ts:186-211 | value by value, what becomes of any one-line configuration |
| `ConfigRoundTrip.NumberBack` | packages/ws-tunnel-agent/src/config.ts:194-195 | a printed interval is clean and reads as itself |
| `BootstrapClaim.Host.constructor` | packages/ws-tunnel-agent/src/cli.ts:68-70 | a machine with its file |
| `BootstrapClaim.Host.ClaimAndPersist` | packages/ws-tunnel-agent/src/cli.ts:35-58 | asks the hub once; on success writes secret and hub secret and drops the token |
| `BootstrapClaim.Host.RunCommand` | packages/ws-tunnel-agent/src/cli.ts:68-96 | one start: setup, refusal, claim or run |
| `BootstrapClaim.SecretIsKept` | packages/ws-tunnel-agent/src/config.ts:176-184 | a file that holds a secret: no environment makes a start claim, change the file or use another secret |
| `BootstrapClaim.ClaimedOnce` | packages/ws-tunnel-agent/src/cli.ts:82-87 | after a written claim whose secret reads as something, through any further starts the file is unchanged, the hub is not asked, and a running agent uses that secret |
| `BootstrapClaim.AtMostOneClaimKept` | packages/ws-tunnel-agent/src/cli.ts:82-87 | over any starts at most one claim is ever written, when every written secret reads as something |
| `BootstrapClaim.KeptSecret` | packages/ws-tunnel-agent/src/cli.ts:49-57 | whatever the other values contain, the file written by a claim holds what its last two entries, secret and hub secret, give when read |
| `BootstrapClaim.NeverAsksIffSecret` | packages/ws-tunnel-agent/src/cli.ts:82-87 | no start in any environment asks the hub exactly when the file holds a secret |
| `BootstrapClaim.ClaimIsFinalIff` | packages/ws-tunnel-agent/src/cli.ts:49-57 | after any written claim no later start in any environment asks again exactly when the issued secret, with the hub secret printed after it, reads as something; any value may span lines |
| `BootstrapClaim.OneLineHubSecret` | packages/ws-tunnel-agent/src/config.ts:200-201 | beside a one-line hub secret only the text `PEER_SECRET=` with the issued secret counts, and of a one-line secret its trimmed, unquoted value |
| `BootstrapClaim.SecretUndoesItself` | packages/ws-tunnel-agent/src/cli.ts:49-57 | an issued secret of two lines that is not blank and yet reads as nothing |
| `BootstrapClaim.BlankSecretIsClaimedTwice` | packages/ws-tunnel-agent/src/cli.ts:83-84 | a hub that issues a blank secret is asked again at the next start |
| `BootstrapClaim.RunsWith` | packages/ws-tunnel-agent/src/cli.ts:35-96 | the agent runs with its configuration, a hub secret in any case, and after a claim the issued secret in place of the token |
| `BootstrapClaim.StartTurnsOut` | packages/ws-tunnel-agent/src/cli.ts:68-96 | each outcome of a start, told by what went wrong |
| `SetupServer.SetupAgent.constructor` | packages/ws-tunnel-agent/src/setup-server.ts:78-82 | nothing claimed yet |
| `SetupServer.SetupAgent.EnsureClaimed` | packages/ws-tunnel-agent/src/setup-server.ts:184-204 | the cached credential for the same key, else one claim |
| `SetupServer.SetupAgent.TestForm` | packages/ws-tunnel-agent/src/setup-server.ts:84-122 | the test button |
| `SetupServer.SetupAgent.SaveForm` | packages/ws-tunnel-agent/src/setup-server.ts:124-171 | the save button, with the busy flag released on every path |
| `SetupServer.OneClaimPerKey` | packages/ws-tunnel-agent/src/setup-server.ts:184-204 | any tests and saves that agree on the key make at most one successful claim |
| `SetupServer.SavedSecretWasIssued` | packages/ws-tunnel-agent/src/setup-server.ts:142-159 | what a save writes was issued by the hub for its key, and the token is gone |
| `SetupServer.SavedSecretIsThisPeers` | packages/ws-tunnel-agent/src/setup-server.ts:188-194 | without a bar in hub and peer it was issued to that very hub, peer and token |
| `SetupServer.KeyIsInjective` | packages/ws-tunnel-agent/src/setup-server.ts:188 | without a bar a key stands for one hub, peer and token |
| `SetupServer.TokensCanMeetIff` | packages/ws-tunnel-agent/src/setup-server.ts:188 | for any names, two peers can share a key for tokens the form takes exactly when one key prefix begins with the other and goes on as a token can begin |
| `SetupServer.SecretReusedIff` | packages/ws-tunnel-agent/src/setup-server.ts:124-204 | exactly for those peers, a save after a test of the other peer can write the secret that was issued to the other peer |
| `SetupServer.SetupIsOfferedWhenDue` | packages/ws-tunnel-agent/src/setup-server.ts:44-51 | a start offers the form exactly when there is no file and the environment is no configuration |
| `SetupServer.SavedClaimHolds` | packages/ws-tunnel-agent/src/setup-server.ts:148-159 | a saved claim whose secret reads as something survives every later start |
| `SetupServer.SaveAnswers` | packages/ws-tunnel-agent/src/setup-server.ts:124-171 | a save answers 200 exactly when a configuration was written, and otherwise 400, 502 or 500 for the form, the hub or the disk |
| `SetupServer.TestAnswers` | packages/ws-tunnel-agent/src/setup-server.ts:84-122 | a test writes nothing and answers 200 exactly when the form parses, the hub is reachable and a claim it needs can be had |
| `SetupServer.SaveWrites` | packages/ws-tunnel-agent/src/setup-server.ts:142-159 | what is written is the form's configuration with a hub secret, and the issued secret in place of a token |
| `SetupServer.FormChoices` | packages/ws-tunnel-agent/src/setup-server.ts:53-63 | the form's one token counts as peer or bootstrap token by its mode, and its box as the TLS setting |
| `RefreshQueue.SingleFlight` | apps/demo-field/src/lib/api-client.ts:98-139 | on every schedule of either client: one leader at most, nobody queued without one, waiters let go once, two sendings at most, refresh calls never queued |
| `RefreshQueue.WorkIsBounded` | apps/demo-field/src/lib/api-client.ts:68-140 | a request accounts for at most eight further stretches, so handlers come to rest |
| `RefreshQueue.NobodyIsStuck` | apps/container-web/src/lib/api-client.ts:213-266 | while a request is unsettled an answer is due or a handler can continue |
| `RefreshQueue.TunnelIsInert` | apps/demo-field/src/lib/api-client.ts:75-76 | in tunnel mode nothing is refreshed, stored, cleared, redirected or sent again |
| `RefreshQueue.RunKeepsInv` | apps/container-web/src/lib/api-client.ts:175-267 | the invariant of flag, queue and requests over every run |
| `RefreshQueue.ReleaseAllAt` | apps/demo-field/src/lib/api-client.ts:37-46 | letting the queue go touches exactly the waiting requests, each once |
| `RefreshQueue.FinishAt` | apps/demo-field/src/lib/api-client.ts:113-125 | what the end of an attempt does to each request |
| `RefreshQueue.FinishKeeps` | apps/container-web/src/lib/api-client.ts:233-252 | after an attempt nobody is left waiting |
| `RefreshQueue.AwaitKeeps` | apps/demo-field/src/lib/api-client.ts:109-113 | a handler that sends a call of its own and suspends keeps flag, queue and requests in order |
| `RefreshOutcome.LeaderDecides` | apps/container-web/src/lib/api-client.ts:213-252 | on every schedule: with a token everyone who waited and the leader are sent again for the second time; without one they fail after one sending; a failed refresh of container-web goes on with a guest login while the others wait |
| `RefreshOutcome.SessionFollows` | apps/container-web/src/lib/api-client.ts:204-252 | on every schedule tokens are stored exactly when a call of the client's own succeeds, and the session is cleared exactly when a refresh request is refused, a leader has no token, or its refresh has failed |
| `RefreshOutcome.FirstUnauthorized` | apps/demo-field/src/lib/api-client.ts:98-138 | the first 401 of a page request waits behind a refresh under way, else leads one, else fails or leads a guest login |
| `RefreshOutcome.OthersPass` | apps/demo-field/src/lib/api-client.ts:75-89 | any other answer is passed on, a success with what it carries, and nothing else happens |
| `RefreshOutcome.RefusedRefresh` | apps/container-web/src/lib/api-client.ts:204-211 | the first 401 of a refresh request fails at once in demo-field, after a guest login in container-web |
| `RefreshOutcome.GuestDoesNotSave` | apps/container-web/src/lib/api-client.ts:204-211 | whatever came of that guest login, the refresh request fails and no other request changes |
| `ApiClient.Interceptor.constructor` | apps/demo-field/src/lib/api-client.ts:31-35 | no refresh, empty queue |
| `ApiClient.Interceptor.ProcessQueue` | apps/demo-field/src/lib/api-client.ts:37-46 | the loop lets everyone go and empties the queue |
| `ApiClient.Interceptor.Issue` | apps/demo-field/src/lib/api-client.ts:59-66 | the page sends a request |
| `ApiClient.Interceptor.Wait` | apps/demo-field/src/lib/api-client.ts:130-138 | a request joins the queue |
| `ApiClient.Interceptor.DemoOnError` | apps/demo-field/src/lib/api-client.ts:70-139 | the error handler of demo-field up to its first await |
| `ApiClient.Interceptor.ContainerOnError` | apps/container-web/src/lib/api-client.ts:177-266 | the error handler of container-web up to its first await |
| `ApiClient.Interceptor.OnAnswer` | apps/container-web/src/lib/api-client.ts:175-177 | an answer arrives |
| `ApiClient.Interceptor.AfterRefreshCall` | apps/container-web/src/lib/api-client.ts:222-240 | the handler after its refresh call |
| `ApiClient.Interceptor.AfterGuestLogin` | apps/container-web/src/lib/api-client.ts:240-249 | the handler after the guest login |
| `ApiClient.Interceptor.OnResume` | apps/container-web/src/lib/api-client.ts:204-252 | a suspended handler continues |
| `TicketStore.OneAcquisitionPerUser` | packages/epias-client/src/ticket-store.ts:66-75 | on every interleaving at most one acquisition per user is under way, it is the registered one, and who joined waits for an acquisition of that user |
| `TicketStore.ReturnedTicketsAreTheUsers` | packages/epias-client/src/ticket-store.ts:57-76 | every ticket handed out was issued to that user; a cached one had more than the renewal margin left; any other is the ticket of a finished acquisition of that user |
| `TicketStore.JoinersShareTheOutcome` | packages/epias-client/src/ticket-store.ts:66-69 | on every interleaving all who joined an acquisition get its outcome: its ticket when it ended with one, an error only when it failed |
| `TicketReuse.ReadDecides` | packages/epias-client/src/ticket-store.ts:57-76 | on every interleaving a caller gets the ticket it read exactly when that is good for more than the margin, and otherwise joins the acquisition under way or a new one |
| `TicketReuse.AskingAgainIsFree` | packages/epias-client/src/ticket-store.ts:57-76 | with saves one at a time, a caller that reads after an acquisition for its user ended well and goes on within ttlMs - renewBeforeMs of the server's answer gets that very ticket, and the server is not asked |
| `TicketReuse.ServedIsStored` | packages/epias-client/src/ticket-store.ts:125-130 | an acquisition that ended well has stored its ticket for a lifetime from the server's answer or longer |
| `TicketReuse.OnlyAnswersIssue` | packages/epias-client/src/ticket-store.ts:96-129 | of all stretches only an answer with a ticket adds to what the server issued, for the user who asked, at that time |
| `TicketStore.StepKeeps` | packages/epias-client/src/ticket-store.ts:57-159 | every stretch of every call keeps entries genuine and acquisitions registered |
| `TicketFile.RenameFailsIffTaken` | packages/epias-client/src/ticket-store.ts:154-159 | on every interleaving, whatever else failed or was torn, a rename the disk does not refuse fails exactly when, since the call opened the temporary file, another call renamed it and nobody has opened it since |
| `TicketFile.RenameTakesAnothersFile` | packages/epias-client/src/ticket-store.ts:154-159 | after another call's rename, a third call's open lets the rename succeed and put an unwritten file in place |
| `TicketFile.RenamePutsBackWhatWasRead` | packages/epias-client/src/ticket-store.ts:125-130 | on every interleaving a rename of the call's own file changes another user's entry exactly when that entry differs from what the call read, and sets or drops the entry of its own user; a failed read counts as reading nothing |
| `TicketFile.UndisturbedFindsItsFile` | packages/epias-client/src/ticket-store.ts:156-158 | a call has its own file to rename when no other call touched the temporary file since it opened it |
| `TicketFile.RenameInstallsTheLastWrite` | packages/epias-client/src/ticket-store.ts:156-158 | on every interleaving any successful rename installs what the last event to open or write that very file left in it: a whole write of some call's edit of what it read, or nothing that parses |
| `TicketFile.LastTouchDecides` | packages/epias-client/src/ticket-store.ts:156-157 | a file holds what the last event to open or write it left |
| `TicketFile.FailureEndsTheCall` | packages/epias-client/src/ticket-store.ts:154-159 | when the disk refuses, the call is over without success and the file is the one it was |
| `TicketOverlaps.SecondRenameFails` | packages/epias-client/src/ticket-store.ts:125-158 | for any two users a run without file errors on which the acquisition that the server answered fails at its rename, and the one that ends well has put the other's entry in place |
| `TicketOverlaps.LaterSaveDropsEarlier` | packages/epias-client/src/ticket-store.ts:125-130 | for any two users a run without file errors on which both acquisitions end well and the earlier entry is gone |
| `TicketOverlaps.EveryEntryIsLost` | packages/epias-client/src/ticket-store.ts:79-158 | with an invalidation in between, a run on which both acquisitions end well and no entry is left to read |
| `TicketSaves.SavesApplyInOrder` | packages/epias-client/src/ticket-store.ts:79-130 | with saves one at a time, the file holds exactly what the saves made of it, each in its turn |
| `TicketSaves.NoSaveFails` | packages/epias-client/src/ticket-store.ts:125-158 | with saves one at a time no rename fails, nor any acquisition that was given a ticket |
| `TicketSaves.EntryUntilNextSave` | packages/epias-client/src/ticket-store.ts:125-130 | with saves one at a time, an acquisition that ended well has its ticket in the file until that user's next save |
| `EpiasTicketStore.Store.constructor` | packages/epias-client/src/ticket-store.ts:45-49 | no acquisition under way |
| `EpiasTicketStore.Store.Ticket` | packages/epias-client/src/ticket-store.ts:57-58 | a caller asks and starts to read |
| `EpiasTicketStore.Store.Invalidate` | packages/epias-client/src/ticket-store.ts:79-80 | an invalidation starts to read |
| `EpiasTicketStore.Store.ReadFile` | packages/epias-client/src/ticket-store.ts:137-152 | a missing or unparsable file counts as empty |
| `EpiasTicketStore.Store.AfterRead` | packages/epias-client/src/ticket-store.ts:58-75 | cached ticket, join, or start, in one stretch |
| `EpiasTicketStore.Store.EditUsers` | packages/epias-client/src/ticket-store.ts:80-82 | the entry is set or dropped in what was read |
| `EpiasTicketStore.Store.Respond` | packages/epias-client/src/ticket-store.ts:96-125 | the server's answer |
| `EpiasTicketStore.Store.OpenTemporary` | packages/epias-client/src/ticket-store.ts:156-157 | the shared temporary file is truncated or created |
| `EpiasTicketStore.Store.RenameTemporary` | packages/epias-client/src/ticket-store.ts:158 | the temporary file becomes the file, if it is still there |
| `EpiasTicketStore.Store.Forget` | packages/epias-client/src/ticket-store.ts:71-73 | what is removed is this very acquisition |
| `EpiasTicketStore.Store.AfterJoin` | packages/epias-client/src/ticket-store.ts:66-69 | a joiner gets what the acquisition came to |

## Left out

- HMAC-SHA256 and its hex text: a signature is a term built from key, previous hash, number and canonical text.
- Console, file and database sinks, alert routing and key loading: a sink accepts or refuses a batch.
- `lastFlushAt`, `recentEvents` and a `close` that races with a suspended audit call.
- Order of microtasks between two awaits: a stretch that is ready may run at any later step.
- JSON numbers other than integers, `undefined` values, integer-like object keys and UTF-16 surrogates in key order; letter case outside ASCII when matching redaction keys.
- The copy `snapshot` makes: Dafny maps are values, so aliasing between copy and store cannot arise.
- `Object.entries` order, `NaN` and non-finite measurements in rule comparisons.
- Execution of the actions of fired rules, the timer that drives cycles, and worker registration.
- SQL, the message queue and Modbus: each statement, job and read succeeds or fails.
- AlarmProjection.AlarmPath.EvaluateAlarms: the writes of one poll take effect in order, where the source starts them concurrently; by `AlarmProjection.PollOrderIsFree` any order gives the same table when no alarm has two rules.
- The signed log entry of an alarm transition and the offline and reminder bookkeeping of the device service.
- `minWaitMs` before a read-back, the values an expectation accepts (a predicate here), and errors of the pulse, republish and finalize steps, which the code swallows.
- `new URL`, the text of numbers that are not safe integers and how such texts read back: functions of the platform, with the one law of ECMAScript that a printed number reads as itself.
- `maskConfig`, command-line arguments, the wizard, systemd units, file modes, and a write of the configuration cut short by a crash.
- Two setup requests that overlap: tests and saves are taken one after the other, and a busy save is refused.
- The must-change-password redirect, the stored user record, headers, exceptions of browser storage, and request URLs that name two endpoints at once.
- What a browser request carries, and whether the token it is sent with is valid.
- JSON text of the ticket file, passwords, the time limit of the CAS request, and user names that collide with object prototype keys.
- Times beyond what a JavaScript number represents exactly.
