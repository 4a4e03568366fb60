# Models of the evidence and control protocols

This project models the parts of the repository that decide whether a long unattended
soak run, a continuous-integration candidate or a phase report can be believed, and proves
what those decisions amount to over every input, every run and every failure.

- **Soak qualification** (`SoakSeries`, `FaultLedger`, `Qualification`, `SeriesStory`,
  `Recoveries`). Two validators read the sampled process table and the ledger of injected faults.
  If both accept, faults and observed restarts are in bijection, and the ledger tells exactly what
  the samples show.
- **Evidence** (`EvidenceMachine`, `EvidenceRuns`, `EvidenceChecks`, `EvidenceObject`,
  `EvidenceInterrupts`). A write-once state machine that may end in Pass only after one-shot
  authorities have been consumed and every check has held, with any of its steps failing, and with
  interrupts that nothing catches.
- **Bridge stream** (`BridgeStream`). Handshake, data and turnover records fold into an
  epoch, cross-checked by a guard.
- **Receipts** (`ReceiptLedger`, `ReceiptSink`, `ReceiptRuns`). Files and ledger records become
  durable before they are acknowledged; the ledger can be replayed, and every acknowledged frame's
  photo is on disk.
- **Strict guards** (`GuardText`, `GuardNames`, `GuardReceipt`, `GuardProtocol`, `GuardOutput`,
  `GuardHistories`). A receipt producer fed by test hooks and an independently written validator, as
  values and as text, and which histories of hooks they accept.
- **Red reproductions** (`RedReproduction`). What a candidate commit may change about recorded
  evidence, and what survives a chain of accepted commits.
- **Resource evaluation** (`Ordering`, `RobustSlope`, `Resources`, `ResourceLimits`) and the **phase
  detector** (`LeastSquares`, `LineFit`, `PhaseDetector`, `PhaseRuns`, `PhaseMemory`, `PhaseReports`,
  `ZeroThresholds`). A bounded Theil-Sen estimate and the limits it is held against, a hand-written
  least-squares rate, and a classifier with memory.
- **Logs** (`LogDrain`, `LogTail`, `Utf8`, `LogPublish`). A bounded drain, a record-aligned
  tail of a file that the measured process can replace, and the repair of a UTF-8 tail cut at
  an arbitrary byte (section 3 of RFC 3629).
- **Process trees** (`Descendants`), the **report cadence** (`Schedule`), the **subreaper
  boundary** (`Subreaper`), the **failure relay** (`Relay`), and **candidate manifests**
  (`ManifestFrame`, `ManifestTree`, `Export`, `ExportRuns`, `Resolution`, `ExportStory`).

Objects that the source updates in place are classes whose methods are tied to a step
function on values; loops are methods with invariants; theorems about runs are lemmas about
the step functions. A failing step is a value of an outlook, attempt or read that is passed
in, and every combination is allowed. Where a step function or a method is tied to a predicate
that makes the same tests, a further lemma says what the predicate means, both ways, in terms of
the raw samples, events, readings, lines or paths (`Recoveries`, `EvidenceChecks`, `GuardHistories`,
`PhaseReports`, `SeriesStory`, `ResourceLimits`, `ReceiptRuns`, `Resolution`, `ExportStory`).
`Counting` and `Ordering` hold the finite counting and sorting facts the theorems share.

## Where the code does less than it seems to

Each of these is stated exactly and has a concrete instance.

- `plugins/phase_detector.py:212-218`: a rate branch writes the warmup flag before it computes a
  confidence, and that computation divides by the branch's own threshold. With
  `warmup_rate_threshold: 0` a rising batch raises after it has set the flag; the plug-in loader
  (`src/cryodaq/analytics/plugin_loader.py:702-711`) logs that and goes on, and the next reading
  at room temperature is reported as a teardown although no warmup was ever reported
  (`PhaseMemory.UnearnedTeardown` says exactly when this happens,
  `ZeroThresholds.TeardownWithoutWarmup` is such a run). With
  `cooldown_rate_threshold: 0` a falling batch after a reported warmup raises after it has
  cleared the flag, and only the second half of the teardown test still fires
  (`PhaseMemory.SecondDisjunctDecides`, `ZeroThresholds.FlagForgotten`). With a non-zero warmup
  threshold every teardown follows a warmup; with a non-zero cooldown threshold the second half
  of the test (`plugins/phase_detector.py:205`) is redundant.
- `scripts/soak_mock_stack.py:1691-1706`: the guard of the evidence mutations catches `Exception`.
  Under the handlers that `main` installs (`scripts/soak_mock_stack.py:2779-2825`) a signal raises
  one between any two writes, and the guard then ends the call in Fail, except exactly when the
  state had already become Pass: such a call raises and stays in Pass
  (`EvidenceInterrupts.CaughtEndsInFail`). A `KeyboardInterrupt` outside those handlers, or a
  signal while a failure is being recorded, passes the guard. Between the PASS summary and the
  state it announces it leaves open evidence whose stored summary says PASS; closing it puts that
  right. While the failure after it is being recorded, it leaves the PASS summary in Fail for good
  (`EvidenceInterrupts.InterruptMisleads`, `EvidenceInterrupts.CloseSettles`). Even then the
  summary is backed by all required artifacts and a consumed authority of each kind
  (`EvidenceInterrupts.StoredPassIsBacked`).
- `tools/ci_guard_execution.py:264-277`: a receipt is printed on one line by JSON that leaves
  U+0085, U+2028 and U+2029 as they are, and `tools/ci_candidate_runner.py:377` cuts the output
  into lines at exactly those characters. A history without any violation whose skip reason,
  warning filter or node name holds one is refused (`GuardOutput.HalvesAgree` is exact,
  `GuardOutput.SeparatorRefused` is such a history).
- `scripts/soak_mock_stack_runner.py:3376-3380`: "data resumed" can hold with no data after the
  last turnover if a start identity recurs (`BridgeStream.RecurrenceMisleads`).
- `tools/ci_active_checkout_runner.py:112-121,222-232`: an interrupt inside the call that restores
  the kernel flag is not one of the caught errors; it can leave the lock held with nothing
  open, or a free process with the wrong flag (`Subreaper.StepKeeps` says exactly when).
- `tools/candidate_evidence.py:191-203`: a link is checked against the tree as it is when the link
  is written. A later link can change where it leads, and then the finished export fails its
  own revalidation (`ExportRuns.ExportRevalidates`, `ExportRuns.ExportCanFailRevalidation`).
- `scripts/soak_mock_stack_runner.py:2690-2695`: the test for duplicate receipts never decides
  (`ReceiptLedger.ReceiptsDistinct`). `tools/ci_candidate_evidence.py:791-793`: the second
  fallback is unreachable (`Relay.Select`).

## Model

| member | source | states |
|---|---|---|
| SoakSeries.ValidateSampleSeries | scripts/soak_mock_stack.py:457-525 | The one-pass validator, with its tables of epochs and identities, returns no error exactly for the series whose roles have valid records, epochs that stay or advance by one, one identity per epoch and no identity in two epochs, within the sampling cadence |
| SoakSeries.CheckRoles | scripts/soak_mock_stack.py:479-508 | One sample folded into the tables: after clean predecessors the errors are empty exactly when every role's history is still regular, and the tables then say what the histories say |
| SoakSeries.CheckRole | scripts/soak_mock_stack.py:483-508 | One role entry: errors exactly for a bad record, a skipped or falling epoch, or a changed identity within an epoch |
| SoakSeries.TracksAppend | scripts/soak_mock_stack.py:498-508 | The incrementally built tables agree with the whole history of a role after one more record |
| SoakSeries.ReuseVisible | scripts/soak_mock_stack.py:522-524 | The final table test finds an identity used in two epochs exactly when the history has one |
| SeriesStory.SeriesMeans | scripts/soak_mock_stack.py:457-525 | The accepted series, pair of samples by pair: times move on by at most 7.5 seconds a step, epochs by at most one, and two samples of a role show the same process exactly when they are in the same epoch |
| SeriesStory.RunWatched | scripts/soak_mock_stack.py:470-521 | At every moment of an accepted run some sample was taken within five seconds |
| SeriesStory.NeverComesBack | scripts/soak_mock_stack.py:498-524 | A process seen in two samples of a role is seen in every sample between them |
| FaultLedger.ValidateFaults | scripts/soak_mock_stack.py:1455-1644 | The fault validator, all tests in order, returns no error exactly when the ledger matches the schedule, every record is borne out by the samples, and the cross-correlation with the observed restarts holds |
| FaultLedger.CheckHistory | scripts/soak_mock_stack.py:1524-1558 | A record is accepted against the samples exactly when its old identity is last seen before the fault, its replacement is the next epoch and the recovery times agree |
| FaultLedger.CheckFields | scripts/soak_mock_stack.py:1479-1523 | Exactly the well-formed records pass the field tests |
| FaultLedger.CollectTransitions | scripts/soak_mock_stack.py:1566-1580 | The pairwise scan lists every epoch change of every role |
| FaultLedger.CheckPaired | scripts/soak_mock_stack.py:1618-1641 | No error exactly when every listed restart has exactly one record that explains it |
| FaultLedger.CheckCorrelation | scripts/soak_mock_stack.py:1581-1644 | No error exactly when restarts and records are paired in the code's one-sided sense, with equal counts |
| Recoveries.LedgerTellsStory | scripts/soak_mock_stack.py:1455-1644 | Over an accepted series the fault validator accepts exactly the ledgers that tell its story: each record is sound and on schedule; after the last sample not later than the fault, the hit process stays in its epoch until a sample shows the replacement in the next one, within 60 seconds and when recovery_s says; each engine or assistant restart is told by exactly one record, each bridge restart follows exactly one engine fault and each engine fault has exactly one, and the launcher never restarts |
| Recoveries.HistoryMeans | scripts/soak_mock_stack.py:1524-1558 | The two filtered lists, the search and the tests on them, as one statement about which samples show whom |
| Recoveries.SoundMeans | scripts/soak_mock_stack.py:1479-1523 | A record passes its field tests and its place in the schedule exactly when it is the injected signal with a positive old identity unchanged at the recheck, another replacement, ready, recovered within a minute, with its target's own proof of recovery, observed within five seconds of its event |
| Recoveries.CorrelationMeans | scripts/soak_mock_stack.py:1581-1644 | Among such records, the counting loops and the length test hold exactly when restarts and records are told one by one |
| Qualification.FaultsAreRestarts | scripts/soak_mock_stack.py:1563-1644 | If both validators accept, engine and assistant restarts and fault records are in bijection, in both directions, although the code only checks one direction and the lengths |
| Qualification.BridgeFollowsEngine | scripts/soak_mock_stack.py:1618-1628 | If both validators accept, bridge restarts and engine faults are in bijection |
| Qualification.IdentityCensus | scripts/soak_mock_stack.py:457-525 | If both validators accept, engine and bridge each show 1 + the scheduled engine faults identities, the assistant 1 + its own, the launcher exactly one |
| Qualification.RestartsMatchFaults | scripts/soak_mock_stack.py:1563-1644 | For engine and assistant alone, as many observed restarts as recorded faults |
| Qualification.NoLauncherRestart | scripts/soak_mock_stack.py:1581-1583 | No launcher transition in the list means the launcher never changed epoch |
| Qualification.IdentitiesCounted | scripts/soak_mock_stack.py:499-524 | A regular role history has one identity more than it has restarts |
| Qualification.TransitionsMembers | scripts/soak_mock_stack.py:1566-1580 | The collected list holds exactly the epoch changes of the samples |
| Qualification.TransitionsOrdered | scripts/soak_mock_stack.py:1566-1580 | Each epoch change is listed once, oldest first |
| Qualification.SameArrival | scripts/soak_mock_stack.py:499-524 | Two restarts of a role that arrive at the same identity are one restart (from the no-reuse rule) |
| Qualification.EachExplained | scripts/soak_mock_stack.py:1630-1643 | One-sided unique explanation plus equal counts is already a bijection |
| EvidenceRuns.CallOutcome | scripts/soak_mock_stack.py:1681-1710 | Any public call, with any of its steps failing in a way its guard catches: Fail stays Fail, Pass stays or is lost with the directory, anything else advances one stage or ends in Fail |
| EvidenceRuns.RunKeepsInv | scripts/soak_mock_stack.py:1681-1930 | Over every run, the state determines which milestones were reached, which authorities were consumed and what is on disk |
| EvidenceRuns.FailIsFinal | scripts/soak_mock_stack.py:2555-2596 | Fail is never left, over any continuation of any run |
| EvidenceRuns.PassLeftOnlyByLoss | scripts/soak_mock_stack.py:1778-1805 | Pass is left exactly when a call on the open evidence finds the directory capability lost, at the entry or while a refusal is recorded; it then ends failed, closed and without a summary |
| EvidenceRuns.OutOfOrderFails | scripts/soak_mock_stack.py:1904-1912 | A guarded call out of order, or one that raises, ends in Fail whatever the outside world does |
| EvidenceRuns.PassHistory | scripts/soak_mock_stack.py:2598-2634 | A run in Pass reached all eight stages once, in order, and consumed exactly one authority of each kind, both issued to this Evidence and used by nobody else |
| EvidenceRuns.SummaryTellsState | scripts/soak_mock_stack.py:2532-2634 | While capability and failure writes hold, the stored summary reads PASS at every method boundary exactly when the state is Pass |
| EvidenceChecks.CallReturns | scripts/soak_mock_stack.py:1914-2176 | A guarded call returns exactly when the evidence is in order for it and every probe it asks for holds, listed call by call |
| EvidenceChecks.MilestonesEarned | scripts/soak_mock_stack.py:1914-2634 | Over every run, each milestone was reached by its own call, in the order of the log, with the payload, policy, write, read-back, ledger and directory probes of that call all holding |
| EvidenceChecks.ArtifactsChecked | scripts/soak_mock_stack.py:1914-2176 | Every artifact on disk was written by a call that had checked its payload and content first, failed runs included |
| EvidenceChecks.PassWasChecked | scripts/soak_mock_stack.py:2533-2634 | A run in Pass was sealed by a call whose ledger was sound, and passed by a later one whose ledger was sound three times over; samples, faults and logs went through their checks |
| EvidenceRuns.OneShotInvoked | scripts/soak_mock_stack_runner.py:3084-3089 | A call that takes an authority out of a registry keeps every authority single-use and bound to its owner |
| EvidenceRuns.OneShotIssued | scripts/soak_mock_stack_runner.py:4406-4425 | Issuing authorities, and other Evidence objects consuming theirs, keeps that too |
| EvidenceObject.AuthorityRegistry.ConsumeExactSix | scripts/soak_mock_stack_runner.py:4411-4418 | The in-place registry gives up the authority it holds for this Evidence and records its provenance, or changes nothing |
| EvidenceObject.AuthorityRegistry.ConsumeDelivery | scripts/soak_mock_stack_runner.py:3084-3089 | The in-place registry gives up the delivery authority of this Evidence, or changes nothing |
| EvidenceObject.EvidenceDirectory.Perform | scripts/soak_mock_stack.py:1681-1710 | The object, updating its fields step by step through guard, body and exit, follows the specified call on every path |
| EvidenceObject.Replay | scripts/soak_mock_stack.py:1681-1710 | Any run of calls on a new object and registry, with authorities issued and consumed by others in between: where it ends Fail was never left, Pass was reached through all stages with one authority of each kind and every ledger sound, and the stored word agrees with the state if failures could be recorded |
| EvidenceInterrupts.CallIsCut | scripts/soak_mock_stack.py:1681-1710 | Every whole call, however its steps go, ends at a point of the list of its writes in code order, so that list is complete |
| EvidenceInterrupts.TornRunSurvives | scripts/soak_mock_stack.py:1691-1706 | Over every run with any calls cut off between any two writes: authorities stay single-use and bound to their owner, and a PASS summary is stored only beside everything it stands for |
| EvidenceInterrupts.StoredPassIsBacked | scripts/soak_mock_stack.py:2598-2634 | After any such run, a stored PASS summary or the state Pass means all required artifacts and one consumed authority of each kind, issued to this Evidence and used by nobody else |
| EvidenceInterrupts.TornFailIsFinal | scripts/soak_mock_stack.py:2555-2596 | Interrupted or not, Fail is never left, and the word stored by then is never replaced |
| EvidenceInterrupts.CloseSettles | scripts/soak_mock_stack.py:1807-1842 | After any such run one whole close of open evidence makes stored word and state agree, except exactly when they disagreed in Fail |
| EvidenceInterrupts.InterruptMisleads | scripts/soak_mock_stack.py:2598-2634 | A concrete run that passes, and the two cuts of its last call that leave a PASS summary outside Pass |
| EvidenceInterrupts.CaughtEndsInFail | scripts/soak_mock_stack.py:1691-1706 | A call on live evidence interrupted between any two writes by an exception the guard catches ends in Fail, except exactly when the state had become Pass with the directory held |
| EvidenceInterrupts.CaughtIsCut | scripts/soak_mock_stack.py:1691-1706 | What such a call leaves is a cut, so all that holds of interrupted runs holds of runs with such calls |
| BridgeStream.StreamKeeps | scripts/soak_mock_stack_runner.py:3401-3452 | For every accepted stream: guard and epoch are the same incarnation, the restart count is 1 + turnovers, the sampled counter is the turnovers since the startup cut, sequence numbers strictly increase across both kinds |
| BridgeStream.AcceptedStreams | scripts/soak_mock_stack_runner.py:3401-3452 | A stream is accepted exactly when every record is proper: data only from the incarnation in force, with its number, its count and the process the table shows; turnovers only from it to a different live bridge process of the launcher; sequence numbers beyond all before |
| BridgeStream.ResumedMeans | scripts/soak_mock_stack_runner.py:3376-3380 | "Data resumed" holds exactly when the last data record lies beyond the marker and came from the identity now in force |
| BridgeStream.ResumedAfterLastTurnover | scripts/soak_mock_stack_runner.py:5152-5170 | If start identities never recur: exactly when some data record beyond the marker follows the last turnover |
| BridgeStream.RecurrenceMisleads | scripts/soak_mock_stack_runner.py:3376-3380 | A concrete stream returning to an earlier identity counts old data as resumed |
| BridgeStream.StreamTracksData | scripts/soak_mock_stack_runner.py:3401-3452 | The epoch's data fields are always those of the last data record and the identity in force at it |
| BridgeStream.ConsumeRecord | scripts/soak_mock_stack_runner.py:3401-3452 | The loop body with its shared guard object follows the specified session, on refusals too |
| BridgeStream.BridgeEpochGuard.ObserveIdentity | scripts/soak_mock_stack_runner.py:3279-3284 | The guard becomes terminal exactly on a foreign identity or count |
| BridgeStream.BridgeEpochGuard.AdvanceTo | scripts/soak_mock_stack_runner.py:3286-3301 | The guard moves by exactly one restart to a new identity, or becomes terminal |
| ReceiptSink.AcknowledgedIsDurable | scripts/soak_mock_stack_runner.py:2452-2528 | In every run, wherever it fails: no acknowledgement byte precedes the durability of its file and ledger record, and both are on disk |
| ReceiptSink.LiveLedgerReopens | scripts/soak_mock_stack_runner.py:2599-2702 | While live, the ledger folds to the sink's own position and passes the reopen check |
| ReceiptSink.TerminalIsFinal | scripts/soak_mock_stack_runner.py:2452-2528 | Once terminal nothing is accepted or changed, and the ledger is at most one record, possibly torn, ahead |
| ReceiptSink.LedgerCountsSuccesses | scripts/soak_mock_stack_runner.py:2530-2615 | One ledger record per accepted call while live, at most one more after |
| ReceiptSink.RunKeeps | scripts/soak_mock_stack_runner.py:2452-2615 | The order of durable events and the ledger's relation to the sink hold after every prefix of every run |
| ReceiptRuns.AcknowledgedIsStored | scripts/soak_mock_stack_runner.py:2452-2615 | In every run, wherever it fails: each acknowledgement was sent by one call, for the frame it received under the expected binding, nonce and sequence, and from then on the file named in the receipt holds exactly that frame's photo |
| ReceiptRuns.LiveAcceptsExactly | scripts/soak_mock_stack_runner.py:2452-2702 | After any run the sink accepts exactly the frame it awaits, provided no step outside fails: no earlier file or ledger line of a live sink is ever in the way |
| ReceiptSink.ArtifactReceiptSink.AcceptFrame | scripts/soak_mock_stack_runner.py:2452-2528 | The object follows the specified call; every exception makes it terminal |
| ReceiptSink.ArtifactReceiptSink.PersistFrame | scripts/soak_mock_stack_runner.py:2530-2615 | File first, whatever bytes reach it, refused unless they are the frame's; then the ledger record; each step able to fail |
| ReceiptSink.ArtifactReceiptSink.AppendRecord | scripts/soak_mock_stack_runner.py:2599-2609 | An append leaves the ledger unchanged, torn, or one record longer |
| ReceiptLedger.CheckLedger | scripts/soak_mock_stack_runner.py:2617-2702 | The reopen check accepts exactly the untorn ledgers of valid records numbered without a gap from (1,1) |
| ReceiptLedger.CheckRecord | scripts/soak_mock_stack_runner.py:2660-2702 | One line: accepted exactly when valid, next in order and not seen |
| ReceiptLedger.ReceiptsDistinct | scripts/soak_mock_stack_runner.py:2690-2702 | In a gap-free ledger receipt identifiers are distinct, so the explicit duplicate test never decides |
| ReceiptLedger.StartsAtOne | scripts/soak_mock_stack_runner.py:2660-2702 | The first record of a gap-free ledger is generation 1, sequence 1 |
| ReceiptLedger.Increasing | scripts/soak_mock_stack_runner.py:2660-2702 | (generation, sequence) strictly increases along the ledger |
| ReceiptLedger.ReceiptIdInjective | scripts/soak_mock_stack_runner.py:2757-2765 | The printed identifier determines generation and sequence |
| ReceiptLedger.LedgerStep | scripts/soak_mock_stack_runner.py:2660-2702 | One more record extends a gap-free ledger exactly when it is valid and follows; the duplicate test agrees |
| ReceiptLedger.GapFreeMeans | scripts/soak_mock_stack_runner.py:2660-2702 | The walk with its running position, record by record: identifier, file name and digest spelled from the numbers, each number the next in its generation or the first of the next |
| GuardOutput.HalvesAgree | tools/ci_candidate_runner.py:368-482 | On every history of hooks and any other output: if no recorded string holds U+0085, U+2028 or U+2029, the validator accepts the output exactly when the producer saw no violation and every expected guard is scoped to the platform that ran; otherwise it refuses, unless siblings are allowed and the recorded strings themselves spell an acceptable receipt line |
| GuardOutput.HalvesAgreePlainly | tools/ci_candidate_runner.py:368-482 | Without siblings, or when no recorded string spells a receipt line: accepted exactly when nothing was violated, every guard is scoped, and nothing is broken |
| GuardOutput.AcceptedOutputRan | tools/ci_candidate_runner.py:368-482 | Acceptance of such an output means every expected guard has a matching node that passed each phase exactly once |
| GuardOutput.SeparatorRefused | tools/ci_candidate_runner.py:377-393 | A concrete clean history whose skip reason holds U+2028 and whose output is refused |
| GuardOutput.PrintedLines | tools/ci_guard_execution.py:264-277 | The printed receipt is one canonical line exactly when nothing recorded is broken; otherwise the line that starts it does not decode |
| GuardOutput.OutputLines | tools/ci_candidate_runner.py:377-377 | The receipt lines of an output are those of what came before, of the printed line and of what came after |
| GuardHistories.AcceptedHistories | tools/ci_candidate_runner.py:368-482 | From the hooks to the verdict: an output is accepted exactly when the history is clean, the guards are declared for the platform that ran and nothing recorded breaks a line; a clean history binds only items of expected guards of one platform with proper markers, binds one for every guard, deselects and warns about none of them, and reports each phase of each bound node once, passed |
| GuardOutput.ValidateOutput | tools/ci_candidate_runner.py:377-482 | Cutting the output into lines, selecting and decoding them, then validating accepts exactly the described outputs |
| GuardProtocol.ReceiptAgrees | tools/ci_candidate_runner.py:394-482 | On every history: the receipt, once read, is acceptable exactly when the producer saw no violation and every expected guard is scoped to the platform that ran |
| GuardProtocol.AcceptedGuardsRan | tools/ci_candidate_runner.py:398-482 | An accepted receipt means every expected guard has a matching node that passed setup, call and teardown exactly once without xfail |
| GuardProtocol.CleanIsClean | tools/ci_guard_execution.py:416-444 | The violations list is empty exactly when nothing was left unselected, deselected, unexpected, warned about, mis-marked, or reported other than passed once per phase |
| GuardHistories.NoViolationExactly | tools/ci_guard_execution.py:316-444 | A history of hooks records no violation exactly when it is clean, told from the events alone |
| GuardHistories.MarkerReasonsMean | tools/ci_guard_execution.py:316-367 | An item's markers violate nothing exactly when none is forbidden, every warning filter has only positional error actions, and skip conditions fit the scope |
| GuardNames.ErrorFilterMeans | tools/ci_guard_execution.py:330-336 | A filter has the action error exactly when it is that word, perhaps between blanks, up to the first colon |
| GuardNames.MatchesMeans | tools/ci_guard_execution.py:308-313 | A node belongs to a guard exactly when it is the guard, an item of the file the guard names, or a parameter set of a guard whose last part has no bracket |
| GuardProtocol.RunKeeps | tools/ci_guard_execution.py:396-414 | After any hooks, guards and nodes point at each other, a node's guards are all that match it, and unblamed nodes have one scope |
| GuardProtocol.CleanReceiptAccepted | tools/ci_guard_execution.py:446-474 | A clean, scoped state's receipt satisfies the independently written acceptance condition |
| GuardProtocol.AcceptedIsScoped | tools/ci_candidate_runner.py:432-482 | Acceptance alone forces every guard's platform to be the one that ran |
| GuardProtocol.MarkerDetailsSound | tools/ci_guard_execution.py:316-367 | Marker details recorded without a violation are what the validator requires for that scope |
| GuardProtocol.GuardState.BindItem | tools/ci_guard_execution.py:396-414 | The mutable tables gain exactly the item's matching guards, details and violations |
| GuardProtocol.GuardState.BuildReceipt | tools/ci_guard_execution.py:446-474 | One entry per bound node with exactly its guards, details and phases; passed exactly when nothing was violated |
| GuardProtocol.GuardState.LogReport | tools/ci_guard_execution.py:576-584 | A report is appended to its bound node's phase and an xfail remembered; reports of other nodes change nothing |
| GuardReceipt.Validate | tools/ci_candidate_runner.py:378-482 | The validating loops accept exactly one canonical receipt line that covers the expected guards with acceptable, distinct nodes |
| GuardReceipt.CheckNode | tools/ci_candidate_runner.py:416-478 | One node passes exactly when its guards are expected, share one platform, match its identifier, and its phases and markers are in order |
| GuardReceipt.CheckMarkers | tools/ci_candidate_runner.py:436-471 | Markers pass exactly when sorted, well formed and with one skip condition exactly for scoped nodes |
| GuardReceipt.CheckEach | tools/ci_candidate_runner.py:413-480 | The node loop passes exactly when each node passes and none repeats, and returns exactly the guards named |
| GuardHistories.AcceptedHeader | tools/ci_candidate_runner.py:394-412 | Two receipts accepted for the same suite, guards and platform agree in everything but their nodes, which are distinct and cover every guard |
| GuardHistories.AcceptedNode | tools/ci_candidate_runner.py:413-480 | What an accepted node is: expected guards of one scope that fits the platform, bound to one of them, three phases passed once, only proper sorted details, one skip condition exactly if scoped |
| GuardHistories.AcceptedNodesEqual | tools/ci_candidate_runner.py:413-480 | Two accepted nodes with the same name, guards and details are equal |
| RedReproduction.Compare | tools/ci_active_checkout_runner.py:753-869 | The comparison accepts exactly the candidates that keep every trusted binding or make one of its permitted moves |
| RedReproduction.BindingsSurvive | tools/ci_active_checkout_runner.py:764-862 | Along any accepted chain every original binding survives with locator, mode and kind |
| RedReproduction.NeverDowngraded | tools/ci_active_checkout_runner.py:800-862 | A receipt that binds nodes binds nodes in every later commit |
| RedReproduction.ChangesAtMostOnce | tools/ci_active_checkout_runner.py:651-732 | While recorded guard blobs and node list stand still, a self-consistent receipt changes at most once in a whole chain, and only by the schema 1 to 2 migration |
| RedReproduction.StillStep | tools/ci_active_checkout_runner.py:800-862 | One accepted step while everything stands still changes nothing or is the migration |
| RedReproduction.SameDigests | tools/ci_active_checkout_runner.py:609-648 | Two self-consistent receipts over the same blobs and nodes have the same digests |
| RedReproduction.ChangedIsRed | tools/ci_active_checkout_runner.py:651-862 | Along any accepted chain a bound receipt's bytes change exactly when its registered digest does, and then the new bytes decode to a failing local run of the guard files and nodes that the commit holds, with a reason to replace the old one |
| RedReproduction.ReceiptsArriveRed | tools/ci_active_checkout_runner.py:651-862 | Whatever receipt a later commit carries is the original one or arrived at some step as a red receipt of that step |
| RedReproduction.CheckHonest | tools/ci_active_checkout_runner.py:651-732 | Accepts exactly the receipts bound to the commit that carries them, red, and rederivable |
| RedReproduction.CheckNodes | tools/ci_active_checkout_runner.py:711-732 | Accepts exactly when recorded guard files and named nodes are as committed |
| RedReproduction.CheckMove | tools/ci_active_checkout_runner.py:803-857 | Accepts exactly the permitted simultaneous moves of receipt and digest |
| RedReproduction.CheckDerived | tools/ci_active_checkout_runner.py:628-648 | Accepts exactly the digests derived from the recorded blobs, one per node |
| RobustSlope.LeakAlwaysFlagged | scripts/soak_mock_stack.py:418-436 | If every step grows at least L per hour, so does the subsampled median slope, and the fitted growth is at least L times the span |
| RobustSlope.QuietNeverFlagged | scripts/soak_mock_stack.py:535-549 | If every step is below L per hour, the slope is below L |
| RobustSlope.AffineExact | scripts/soak_mock_stack.py:418-436 | An affine series gets its exact slope and its real growth |
| RobustSlope.MajorityDecides | scripts/soak_mock_stack.py:418-430 | A strict majority of pairwise slopes on one side of a level puts the median there, outliers notwithstanding |
| RobustSlope.SlopeMirrors | scripts/soak_mock_stack.py:418-436 | Opposite values have the opposite slope and growth, so neither half of an even median is preferred |
| RobustSlope.SubsampleKeepsEnds | scripts/soak_mock_stack.py:404-415 | The subsample is a strictly increasing choice of indices that keeps both ends and the bound |
| RobustSlope.IndexIncreasing | scripts/soak_mock_stack.py:404-415 | The rounded index formula is strictly increasing |
| RobustSlope.IndexInRange | scripts/soak_mock_stack.py:404-415 | It stays within the series |
| Resources.EvaluateResources | scripts/soak_mock_stack.py:528-628 | The evaluation reports nothing exactly for an accepted series whose totals, roles, restart epochs and recoveries stay within every limit |
| Resources.EvaluateRole | scripts/soak_mock_stack.py:558-626 | One role: nothing exactly when its epochs start at zero and the whole run, every epoch and every recovery are within limits |
| Resources.EvaluatePost | scripts/soak_mock_stack.py:532-556 | After warm-up: totals and all four roles together |
| ResourceLimits.PassesExactly | scripts/soak_mock_stack.py:528-628 | The evaluation sample by sample: which slopes, fitted growths and differences between which samples stay within which limits, over the totals, over each role, over each restart epoch as one stretch of samples, and from one epoch to the next |
| ResourceLimits.EpochSpans | scripts/soak_mock_stack.py:559-565 | Every restart epoch that occurs after warm-up is one stretch of consecutive samples |
| Resources.GroupByEpoch | scripts/soak_mock_stack.py:559-562 | The grouping loop yields exactly the samples of each epoch that occurs |
| Resources.PeakExceeds | scripts/soak_mock_stack.py:553-556 | Exactly when some sampled total is above the limit |
| Resources.EpochsOccur | scripts/soak_mock_stack.py:563-565 | In an accepted series no epoch between the first and the last is missing, so only a late start can break contiguity |
| Resources.PostIsSuffix | scripts/soak_mock_stack.py:532-534 | What is kept is the end of the series, from the first sample that is not before the end of warm-up |
| Resources.LeaksNeverPass | scripts/soak_mock_stack.py:528-628 | A run that passes has no steady leak of memory or descriptors: not in the totals, not in a role over the run, not in a role within one epoch |
| Resources.StillPasses | scripts/soak_mock_stack.py:528-628 | Every accepted run whose roles stand still after warm-up and start at epoch zero passes every profile with sensible limits, restarts included |
| LeastSquares.ComputeRate | plugins/phase_detector.py:152-173 | The hand-written loop computes the moment quotient of the last window, and 0 in its three degenerate cases |
| LeastSquares.Accumulate | plugins/phase_detector.py:161-169 | The running sums are the sums of the whole window |
| LeastSquares.SpreadSign | plugins/phase_detector.py:170-173 | The denominator is never negative and is zero exactly when all times coincide |
| LeastSquares.MomentNonNegative | plugins/phase_detector.py:171-173 | Chebyshev's sum inequality for the numerator |
| LeastSquares.MomentIsPairs | plugins/phase_detector.py:171-173 | n times the product sum less the product of sums is a sum over pairs of points |
| LeastSquares.AffineRate | plugins/phase_detector.py:152-173 | Points on a line have exactly its slope per minute, unless the window is degenerate |
| LeastSquares.NonDecreasingRate | plugins/phase_detector.py:152-173 | A window whose value is never lower at a later time never has a negative rate, whatever stands at equal times |
| LeastSquares.RateNonNegative | plugins/phase_detector.py:152-173 | The same for any buffer and any window length |
| LineFit.RateIsLeastSquares | plugins/phase_detector.py:152-173 | The rate of a window that is not degenerate is the slope of the one line with the least sum of squared distances to its points |
| LineFit.RateOfWindow | plugins/phase_detector.py:152-173 | The window is the points no older than its length before the last, and fewer than five, or coinciding times, give zero |
| PhaseDetector.Detector.Process | plugins/phase_detector.py:96-150 | The object follows the specified step for every batch: gap reset, too few points, trimming, division by zero, report |
| PhaseDetector.Detector.Ingest | plugins/phase_detector.py:100-115 | Readings are fed in order into the bounded buffers until one is more than 300 s late, which resets everything and drops the rest |
| PhaseDetector.Detector.TrimBuffers | plugins/phase_detector.py:120-126 | Both loops drop exactly the points older than two rate windows |
| PhaseDetector.Detector.TrackStability | plugins/phase_detector.py:175-182 | The clock starts at the first observation inside tolerance, keeps its start, and stops outside |
| PhaseDetector.Detector.ClassifyNow | plugins/phase_detector.py:184-226 | The branches with their flag updates follow the specified decision, the flag written before a division by zero |
| PhaseDetector.Detector.EvaluateNow | plugins/phase_detector.py:128-150 | Rates, clock, classification and last phase together |
| PhaseReports.ReportsByZone | plugins/phase_detector.py:184-226 | Every report of every run, from the reports before it: which phase and confidence each temperature zone gets, from the rate of the buffered temperatures, the stable time since the streak began, whether a warmup is pending and whether the pressure falls |
| PhaseReports.CallAnswers | plugins/phase_detector.py:96-150 | Exactly when a call says nothing, starts over after a gap of more than 300 seconds between neighbouring temperatures, or raises |
| PhaseReports.BuffersAreRecent | plugins/phase_detector.py:96-126 | With times in order the buffers are exactly the recent readings since the last reset: the newest 2000, pressures positive and as logarithms, and after an evaluation none older than two windows |
| PhaseReports.ConfidenceRange | plugins/phase_detector.py:191-226 | With a positive window and thresholds on their own sides of zero, a confidence lies between 0.1 and 1, above 0.5 where a rate decided |
| PhaseMemory.ClassifyConsistent | plugins/phase_detector.py:184-226 | A classification keeps "last warmup implies flag, last cooldown implies no flag" exactly when it is not a rate branch raising on its own zero threshold against the remembered phase |
| PhaseMemory.RunMemory | plugins/phase_detector.py:184-226 | In every run, whatever the thresholds: the last phase is the last one reported since the reset, the flag is the last one written, and what the writes and reports can look like together |
| PhaseMemory.LastWriteMeans | plugins/phase_detector.py:212-218 | The last write is the step that wrote the flag with no later write or reset |
| PhaseMemory.WarmupPendingMeans | plugins/phase_detector.py:204-206 | The reports, in words: some warmup since the last reset with no later cooldown |
| PhaseMemory.UnearnedTeardown | plugins/phase_detector.py:204-218 | For all runs and thresholds: teardown is reported without a pending warmup exactly when the flag was last written by a warming branch that raised while none was pending |
| PhaseMemory.TeardownFollowsWarmup | plugins/phase_detector.py:204-206 | With a non-zero warmup threshold, teardown is only reported after a warmup since the last reset with no later cooldown |
| PhaseMemory.SecondDisjunctDecides | plugins/phase_detector.py:204-206 | For all runs and thresholds: the second half of the teardown test decides exactly when warmup is the last phase reported and the flag was last written by a cooling branch that raised |
| PhaseMemory.SecondDisjunctRedundant | plugins/phase_detector.py:204-206 | With a non-zero cooldown threshold it never does, in any reachable state |
| PhaseMemory.RunRemembers | plugins/phase_detector.py:184-226 | With both thresholds non-zero, the flag says exactly whether a warmup is pending |
| ZeroThresholds.TeardownWithoutWarmup | plugins/phase_detector.py:212-218 | A concrete run from the fresh state with a zero warmup threshold that reports teardown and never a warmup |
| ZeroThresholds.FlagForgotten | plugins/phase_detector.py:212-218 | A concrete run from the fresh state with a zero cooldown threshold in which only the second half of the teardown test fires |
| PhaseRuns.RunKeepsClock | plugins/phase_detector.py:175-182 | In every run, whatever the thresholds, the clock is the start of the unbroken streak inside tolerance since the last reset |
| PhaseRuns.StreakStartMeans | plugins/phase_detector.py:175-182 | The streak start is the time of the first of the unbroken observations, and the one before it was outside |
| PhaseRuns.FullWindowWasSteady | plugins/phase_detector.py:191-193 | With timestamps in order, a full-window measurement means every evaluation since the claimed start ended inside tolerance, back to the start of the streak; only a negative window reports one for a batch outside, and then the claimed period is empty |
| PhaseRuns.RunTimely | plugins/phase_detector.py:100-132 | Readings in time order give evaluations in time order |
| PhaseRuns.RisingNeverCools | plugins/phase_detector.py:212-214 | With a non-positive threshold, a run whose temperatures never fall in time never reports cooldown |
| LogDrain.DrainAll | scripts/soak_mock_stack_runner.py:905-938 | However the stream is cut into reads, the result is exactly its last min(total, limit) bytes and its size, or failure if a read fails or the drain does not settle |
| LogDrain.StreamMeans | scripts/soak_mock_stack_runner.py:905-923 | The stream is the data of the first reads, up to one that is empty or fails |
| LogDrain.BoundedDrain.Take | scripts/soak_mock_stack_runner.py:907-919 | After each chunk the retained chunks concatenate to exactly the end of everything received |
| LogDrain.BoundedDrain.Shrink | scripts/soak_mock_stack_runner.py:911-919 | The trimming loop ends and leaves exactly the last limit bytes |
| LogDrain.BoundedDrain.Drain | scripts/soak_mock_stack_runner.py:905-923 | The read loop stops at the end of the stream or a failed read |
| LogDrain.BoundedDrain.Finish | scripts/soak_mock_stack_runner.py:930-938 | The joined chunks and the total, unless the drain has not settled or a read failed |
| LogTail.ReadTail | scripts/soak_mock_stack_runner.py:1243-1272 | Of an unchanged file, a truncated read is the longest non-empty suffix within the bound that starts right after a newline, refused exactly when there is none; of one that changed since it was opened, what is returned still starts at a record and stays within the bound |
| LogTail.ReadLeaf | scripts/soak_mock_stack_runner.py:1185-1274 | Only a lone regular file, the one that was measured, gives bytes, and if it did not change exactly its bounded tail; every refusal names a condition that was seen |
| LogTail.Align | scripts/soak_mock_stack_runner.py:1251-1271 | A truncated read keeps what follows its first newline, refused when nothing does |
| LogTail.TailUnique | scripts/soak_mock_stack_runner.py:1249-1272 | That description leaves one answer |
| Utf8.StripRepairs | scripts/soak_mock_stack_runner.py:954-956 | Stripping leading continuation bytes from any suffix of an encoding drops at most three bytes and leaves the encoding of the longest text suffix that fits |
| Utf8.RoundTrip | scripts/soak_mock_stack_runner.py:948-957 | Decoding an encoding, even leniently, gives the text back |
| LogPublish.PublishLauncherLog | scripts/soak_mock_stack_runner.py:940-960 | Refused exactly when inconsistent or truncated without leave; otherwise the published bytes are valid UTF-8, within 8 MiB, and the whole text or the marker with the longest text suffix that fits |
| LogPublish.RepairedTail | scripts/soak_mock_stack_runner.py:953-957 | The stripping loop leaves the longest text suffix that fits beside the notices |
| LogPublish.CollectLogs | scripts/soak_mock_stack_runner.py:1527-1552 | Walking the rotated files from the newest, each is read within the room that the newer ones left of the ceiling, what is kept is joined in the order of the files, sizes add up, and every refusal is listed, once |
| LogPublish.AllKept | scripts/soak_mock_stack_runner.py:1527-1552 | While the files read stay as they are, no more is kept than they hold, and all of it if it fits |
| LogPublish.PublishChildLog | scripts/soak_mock_stack_runner.py:1566-1577 | Any list of different refusal notices leaves room for text; the published bytes are notices and text, or marker, notices and the longest end of the text that fits, and within 8 MiB |
| LogPublish.FewRefusals | scripts/soak_mock_stack_runner.py:1152-1166 | A list of refusals without repetitions is at most six long |
| Descendants.LiveFamily | scripts/soak_mock_stack.py:208-225 | Empty unless the root is live with its exact start; otherwise exactly the root and everything reachable from it, on cyclic tables too |
| Descendants.ByPid | scripts/soak_mock_stack.py:211-211 | The last running snapshot of each process number |
| Descendants.LiveMeans | scripts/soak_mock_stack.py:211-211 | The snapshot of a number is that of the last running process with it |
| Descendants.Expand | scripts/soak_mock_stack.py:217-223 | One level, in any iteration order |
| Descendants.FindDescendants | scripts/soak_mock_stack_runner.py:2043-2061 | Exactly one process for each reachable non-service number, service processes traversed but not counted; refused exactly above 128 |
| Descendants.ScanDescendants | scripts/soak_mock_stack_runner.py:2012-2063 | The whole scan answers exactly when the leader is itself before and after, no listed process is in doubt and the ceiling holds; vanished processes are skipped |
| Descendants.SweepLevel | scripts/soak_mock_stack_runner.py:2047-2061 | One pass sees every child of the frontier and counts each number once |
| Descendants.LeaderExcluded | scripts/soak_mock_stack_runner.py:2043-2063 | On an acyclic table the leader is not among its descendants |
| Descendants.RosterIdentities | scripts/soak_mock_stack_runner.py:2043-2063 | With unique numbers the roster is exactly the reachable non-service identities |
| Descendants.SearchesAgree | scripts/soak_mock_stack.py:208-225 | Without services, on an acyclic table of unique numbers, the first search finds what the second finds and the root |
| Schedule.SelectCadence | scripts/soak_mock_stack_runner.py:860-873 | The smallest qualifying interval, or nothing exactly when none from 600 to 3600 qualifies |
| Schedule.CheckRuntime | scripts/soak_mock_stack_runner.py:876-886 | Accepts exactly the permitted intervals and offsets, and returns the offset of the first boundary |
| Schedule.OffsetIsFirst | scripts/soak_mock_stack_runner.py:882-882 | The modular formula gives the first aligned boundary strictly after now, and only it does |
| Schedule.QualifiesMeans | scripts/soak_mock_stack_runner.py:860-873 | An interval qualifies exactly when the first boundary after now is 450 to 600 seconds away and the next one 1050 or more |
| Schedule.RuntimeMeans | scripts/soak_mock_stack_runner.py:876-886 | The check after startup accepts exactly the intervals of a minute to a day whose first boundary is 395 to 700 seconds away and whose second lies beyond the run |
| Schedule.SelectedIsInManifest | scripts/soak_mock_stack.py:2332-2343 | Every selected cadence meets the manifest's bounds |
| Schedule.SelectedSurvivesStartup | scripts/soak_mock_stack_runner.py:876-886 | Every selected cadence passes the runtime check after any delay of up to 55 seconds |
| Schedule.StartupBudget | scripts/soak_mock_stack_runner.py:876-886 | Before the boundary, exactly the delays that leave it 395 seconds away and the next one beyond the run are accepted |
| Schedule.FiftySixCanFail | scripts/soak_mock_stack_runner.py:860-886 | A concrete moment at which 56 seconds are too many |
| Schedule.ExactlyOneBoundary | scripts/soak_mock_stack_runner.py:884-886 | A passing check leaves exactly one aligned boundary in the next 900 seconds, at 395 or later |
| Subreaper.StepKeeps | tools/ci_active_checkout_runner.py:91-121 | One call keeps the lock, poison and flag protocol exactly when no interrupt escapes the restoring prctl |
| Subreaper.RunKeeps | tools/ci_active_checkout_runner.py:91-232 | Over every run without such an interrupt: the lock is held exactly while one boundary is open, and the flag is on exactly as it must be |
| Subreaper.RunKeepsExactly | tools/ci_active_checkout_runner.py:91-232 | A run keeps the protocol at every point exactly when no interrupt escapes the restoring prctl |
| Subreaper.SettlesMeans | tools/ci_active_checkout_runner.py:187-213 | Settled exactly when some round of the two grace periods finds the root gone, nothing running and nothing unreaped, and none before it raised |
| Subreaper.OpensExactly | tools/ci_active_checkout_runner.py:91-121 | An open succeeds exactly on a free, unpoisoned process when none of its steps fails; the flag is set only if it was not set, and what it was is remembered |
| Subreaper.FailedOpenUndoes | tools/ci_active_checkout_runner.py:112-121 | A failed open leaves a free, unpoisoned process as it was, unless its undo goes wrong |
| Subreaper.UnsettledClosePoisons | tools/ci_active_checkout_runner.py:215-232 | How a close ends: unsettled it raises and poisons; settled it poisons exactly when restoring a changed flag fails |
| Subreaper.UseRestores | tools/ci_active_checkout_runner.py:91-232 | Opening, settling and closing a boundary without failures leaves the process as it was |
| Subreaper.FlagRestored | tools/ci_active_checkout_runner.py:215-232 | Whenever the lock is free and nothing is poisoned, the kernel flag is the original |
| Subreaper.PoisonIsPermanent | tools/ci_active_checkout_runner.py:91-121 | Poison survives every continuation |
| Subreaper.PoisonedNeverOpens | tools/ci_active_checkout_runner.py:97-98 | After poison no open succeeds, and one on a new object leaves the process untouched |
| Subreaper.PoisonedTouch | tools/ci_active_checkout_runner.py:112-121 | Exactly when a poisoned process is still touched: reopening an object whose earlier open changed the flag |
| Subreaper.PoisonedReopen | tools/ci_active_checkout_runner.py:97-121 | A concrete run in which reopening the same object changes the flag of a poisoned process |
| Subreaper.InterruptedCloseForgets | tools/ci_active_checkout_runner.py:222-232 | A concrete interrupt that leaves a free, unpoisoned process with the wrong flag |
| Subreaper.InterruptedUndoHoldsLock | tools/ci_active_checkout_runner.py:112-121 | A concrete interrupt that leaves the lock held with no boundary open |
| Subreaper.LinuxBoundary.Open | tools/ci_active_checkout_runner.py:91-121 | The in-place open with its exception path follows the specified step |
| Subreaper.LinuxBoundary.RollBack | tools/ci_active_checkout_runner.py:112-121 | Undo, poison and release in the code's order |
| Subreaper.LinuxBoundary.Close | tools/ci_active_checkout_runner.py:215-232 | The in-place close follows the specified step and always releases the lock it holds |
| Subreaper.LinuxBoundary.Settle | tools/ci_active_checkout_runner.py:187-213 | The rounds of both grace periods: only a boundary with nothing left is marked settled, nothing else changes |
| Relay.RelayFailure | tools/ci_candidate_evidence.py:747-797 | With nothing rendered the fallback; otherwise the largest end of the rendered lines within four items and 16384 bytes including a due notice, with the notice exactly when a marked line is missing |
| Relay.Select | tools/ci_candidate_evidence.py:782-793 | The dropping loop stops at the largest fitting end, which is never empty, so the second fallback is unreachable |
| Relay.Collect | tools/ci_candidate_evidence.py:763-777 | The bounded deque holds the last rendered lines and the omission flag is exact |
| Relay.RenderedMeans | tools/ci_candidate_evidence.py:763-777 | The rendered texts are the whole summaries of the marked lines that parse and are short enough, in their order |
| Relay.NoticeIff | tools/ci_candidate_evidence.py:794-797 | Without the notice every marked line was rendered and relayed |
| Relay.WithinBudget | tools/ci_candidate_evidence.py:783-790 | Everything relayed, notice included, stays within the budget |
| Relay.LargestUnique | tools/ci_candidate_evidence.py:782-790 | No two different selections are both the largest that fits |
| Relay.EmitAll | tools/ci_candidate_evidence.py:794-795 | The selected lines are emitted in order |
| ManifestFrame.FrameInjective | tools/candidate_evidence.py:120-129 | Framed bytes of records with NUL-free fields determine the records |
| ManifestFrame.FrameCollides | tools/candidate_evidence.py:120-129 | Two concrete records that frame alike without that condition |
| ManifestFrame.FrameRecords | tools/candidate_evidence.py:120-129 | The byte-appending loop builds the frame |
| ManifestFrame.ListingRoundTrip | tools/candidate_evidence.py:141-160 | Reading back what Git prints for proper records gives exactly the records |
| ManifestFrame.ParsesExactly | tools/candidate_evidence.py:141-160 | A piece of the listing is read as a record exactly when it is Git's line for it, with a normal path, one of four modes, the type that goes with it and a 40-digit identifier |
| ManifestFrame.ReadsExactly | tools/candidate_evidence.py:141-160 | The listing is read as these records exactly when its non-empty pieces are their lines |
| ManifestFrame.ReadListing | tools/candidate_evidence.py:141-160 | The splitting loop returns every entry in order, or nothing exactly when one is malformed |
| ManifestTree.TreeManifest | tools/candidate_evidence.py:132-165 | A manifest exactly when the listing parses, no two paths alias and none repeats |
| ManifestTree.ManifestMeans | tools/candidate_evidence.py:132-165 | A manifest is exactly the records of the listing's lines, each as often, in byte order of their paths, none twice, and no two with the same spelling |
| ManifestTree.CheckAliases | tools/candidate_evidence.py:107-117 | Refuses exactly when two different paths share a spelling |
| ManifestTree.CheckPaths | tools/candidate_evidence.py:163-164 | Accepts exactly one record per path |
| ManifestTree.ListingOrderIrrelevant | tools/candidate_evidence.py:161-165 | Listings of the same records in any order have the same manifest |
| ManifestTree.ManifestFree | tools/candidate_evidence.py:140-165 | No field of a manifest holds a NUL |
| ManifestTree.DigestIdentifiesTree | tools/candidate_evidence.py:120-165 | Two manifests have the same digest exactly when they hold the same records |
| Export.ExportRecords | tools/candidate_evidence.py:177-208 | Succeeds exactly when each record can be written in its turn, links with a non-empty, NUL-free, UTF-8, relative target that stays inside, and then the leaves are exactly the records' paths, modes and contents |
| Export.Validate | tools/candidate_evidence.py:238-272 | Exactly which paths are missing, unexpected or changed, with an escaping destination refused |
| Export.CheckLeaves | tools/candidate_evidence.py:252-272 | The loop over the records reports exactly the changed ones, in order |
| Export.CheckExport | tools/candidate_evidence.py:238-272 | Accepted exactly when the leaf set is the manifest's, every destination stays inside, and every leaf has its mode and blob |
| Resolution.ResolvesExactly | tools/candidate_evidence.py:168-174 | The recursive resolver with its bound on nested links finds an end exactly when the walk through one component after another has that end: a walk that ends never needs a link inside itself |
| ExportStory.ExportsExactly | tools/candidate_evidence.py:177-208 | An export succeeds exactly when every blob is there and every record in its turn leads below the root, link targets relative, textual and leading below it too |
| ExportStory.ExportLeaves | tools/candidate_evidence.py:177-208 | What each record leaves behind, and nothing else: its bytes under its path, as a link or as a file that is executable or not |
| ExportStory.PassesExactly | tools/candidate_evidence.py:238-272 | Revalidation accepts exactly the directories that hold a fitting leaf for every record and no others, each reached below the root |
| ExportRuns.AcceptsExactly | tools/candidate_evidence.py:238-272 | Revalidation accepts exactly the exported leaf map, provided its links stay inside |
| ExportRuns.AcceptedTreesEqual | tools/candidate_evidence.py:238-272 | Two accepted leaf maps are equal |
| ExportRuns.ExportRevalidates | tools/candidate_evidence.py:177-272 | A finished export passes revalidation exactly when no destination escapes through its own links |
| ExportRuns.FilesAlwaysPass | tools/candidate_evidence.py:177-272 | A manifest of ordinary files always exports and always passes |
| ExportRuns.ExportCanFailRevalidation | tools/candidate_evidence.py:191-203 | Two relative links, each inside when written, in a manifest read from Git over an honest store: the export succeeds and is refused afterwards |
| ExportRuns.GitlinkRefused | tools/candidate_evidence.py:186-187 | A gitlink is never exported and never accepted |

## Left out

- Floating point: times, rates, slopes and confidences are real numbers; non-finite readings do not occur, except where a validator refuses them.
- JSON, YAML, regular expressions, redaction, Unicode normalization, case folding, SHA-1 and SHA-256: uninterpreted; digests and blob identifiers are injective functions, malformed records are one value.
- Processes, signals, `psutil`, `prctl`, Windows job objects, pipes, sockets and deadlines: outcomes that are passed in.
- File descriptors, `O_NOFOLLOW`, stat identity, file modes of the evidence files and directory locking: only whether a step succeeds and what is durable before what.
- Concurrent change of the evidence directory by anyone else, and errors while closing descriptors, are not modelled.
- EvidenceObject.EvidenceDirectory.Perform: exceptions that the guard catches; interrupts that it does not catch are modelled on values, in EvidenceInterrupts.
- EvidenceRuns.CallOutcome: exceptions of a call's own steps. One that a signal raises between two writes is EvidenceInterrupts.Caught, one that nothing catches EvidenceInterrupts.Cut.
- EvidenceRuns.OutOfOrderFails: likewise; a signal after the state became Pass raises without ending in Fail, as EvidenceInterrupts.CaughtEndsInFail says.
- FaultLedger.ValidateFaults: samples are taken as decoded, as they are once the series validator has accepted; a malformed sample makes the source raise instead of returning errors.
- Sorted lists in receipts and in the runner's search result: contents are modelled as sets or duplicate-free listings, their order is not.
- GuardProtocol.GuardState.BindItem: the order of guards and reasons within one node is not modelled.
- GuardOutput.HalvesAgree: JSON is an encoding of which only this is used: a receipt's text decodes to the receipt, no proper beginning of it decodes, and it holds a line end exactly when a recorded string holds one that is not a control character; strings have no lone surrogates.
- ReceiptSink.ArtifactReceiptSink.PersistFrame: what the file holds when it is read back is one observation; the staging name and the clean-up of a failed call are left out.
- RedReproduction.Compare: Git reads that fail are absent tree entries or malformed contents; the fields of a receipt that are only compared for equality are one value.
- Resources.EvaluateResources: errors name the limit group, role and epoch, not every single comparison; the source's two descriptor-envelope tests on the totals are one, because the last total is among the maxima.
- LogTail.ReadLeaf: one read sees one content of the file; that content may differ from what was there at the opening.
- LogPublish.PublishChildLog: the bound is on the text handed to `write_log`, which redacts once more before it stores it, as it does for LogPublish.PublishLauncherLog; the first redaction happens before it; the choice of rotated files and the refusals of the log directory as a whole are left out, and no contiguity between files is claimed.
- Descendants.ScanDescendants: how one observation fails is one outcome.
- Subreaper.LinuxBoundary.Settle: a round of signalling and reaping is what it saw in the end; interrupts are modelled only inside flag changes.
- Relay.RelayFailure: the two renderers are a summary that parses or does not; their field limits are left out.
- Export.ExportRecords: record paths never run through one another's files, as in every Git tree; the file system is case-sensitive and below the root only exported links exist; a failed export's leftovers and other refusals of the file system, such as names too long, are not modelled.
- Export.Validate: the executable bit is read as on POSIX; on Windows the source takes the expected mode. Which of several escaping paths is named is not stated.
- PhaseDetector.Detector.Process: metric objects carry only phase, confidence, rate and stable time; the configuration parser is left out.
- `plugins/cooldown_estimator.py`, `plugins/thermal_calculator.py`, `build_scripts/`, the diagnostic tools, GitHub identity checks and the GUI: not modelled.
