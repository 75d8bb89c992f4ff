# Relayer signer: verified model

A Dafny model of the relayer's durable transaction signing, its durable request
scanning, and the text scrubber that guards its diagnostics, with proofs of what
they keep over every run.

One signer allocates nonces, signs, records every signed transaction in a
write-ahead journal, broadcasts, reconciles against a chain that may reorganize,
and retires an attempt only on durable evidence. The main results are statements
about every reachable state of a machine whose events are the code segments
between two awaits, interleaved with process exits, power losses, failed writes,
offline nonce repairs and arbitrary RPC replies:

- any two transactions ever sent at one nonce are the same bytes of the same
  attempt, every image a power loss could leave remembers each of them, and each
  send happens when the only possible disk image is the journal that marks it;
- an open gate means the observed count equals the next nonce and everything
  retained is included below it; recorded unattributed activity keeps the gate
  closed across restarts until a repair is committed;
- nonces are conserved: allocated = resolved + repaired over + retained;
- an attempt leaves the journal only by a resolution on evidence about that very
  attempt, in a block at or below a durable anchor;
- stored search positions are true of content-addressed blocks across any
  reorganization, and with truthful counts the search finds the spending block;
- under every interleaving an owned inspection excludes all other work, an
  abandoned one leaves no authorization, and a stale handle is inert;
- a checkpoint never passes a block with an unfulfilled request, whatever the
  imports did and whatever a power loss leaves, and never moves back; several
  consumers share one file without disturbing one another, and over a settled node
  the durable head is reached in exactly ceil(blocks / range) passes;
- a position of a text is cut exactly when it contributes to a secret or a recognized
  span in some decoded view of it.

## How it is laid out

| files | what they hold |
|---|---|
| Journal, JournalHistory | snapshots, the structural invariant, the writes that may follow one another, and facts about every finite history |
| Blocks, ReplacementSearch, Receipts, Inspections | content-addressed blocks, a node that may switch forks at every call, and the reads made of it |
| Serialization, DurableFiles, JournalStore | encoding, temporary-file replacement on a disk that can lose power, the journal file and its persistence object |
| SignerGate, Transitions, NonceSync | the gate and the planned journal writes |
| CoordinatorState, World, RunInvariant | the coordinator as a value, all runs, and the invariant every event keeps |
| SignerSafety, InspectionOwnership, SubmissionRecording, Retirement, TruthfulRuns | theorems about every reachable state |
| FailedSubmissions | a concrete run that shows where a report falls short |
| SignerCoordinator, RetrySchedules, RecoveryCycle, TransactionManager | the objects in their own form; each operation is tied to machine events, so the theorems hold of them |
| Requests, Daemon | request grouping, durable scans, the checkpoint file, the daemon's iteration and its cycle over all consumers |
| PercentText, Scrubber | percent-decoding with positions, matching, and redaction |

Conventions: identifiers, hashes and addresses are held case-folded; an operation
returns, throws, or its process dies inside it (`Completion`). A node or a clock is
modelled by everything it would ever answer, call by call or moment by moment, as
constants that only its own calls consult; a result is then stated in terms of the
answers it rests on, all given after the operation was called.

Assumptions, each named where it is used: block hashes determine their blocks
(`Chain`); a block moves an account's count only by spending the nonces in between
(`NonceRule`, Ethereum Yellow Paper, section 6); a registry node answers from the chain
it is on at the moment of the call, in call order, and does not come back to a block
it left (`RegistryNode.Honest`); a journal's text is at least as long as the signed
bytes it spells out (`CountsSignedBytes`); a recognizer marks ranges inside the text it
is given (`Recognizes`).

## Where the code is narrower than its words

- A failed submission is reported with recording `none` when preparation had not
  started, even if the work is retained or its write uncertain. The code does so on
  purpose. `UnrecordedIsExact` proves when `none` is the truth however the recovery before
  it goes: exactly when the process holds no trace of the work at the call, neither
  acknowledged nor in a write that is running or failed. `FailedSubmissions` exhibits a
  run in which it is not.
- Recovery does not bound the anchor's block number. Evidence and searches refuse a
  number beyond 256 bits as they read; a first baseline, an empty queue or an unconsumed
  nonce seen at such an anchor is refused only by the structural check of the planned
  write. `RecoveryFollows` and `SavesAreValid` state exactly when,
  `UnboundedAnchorIsRefused` gives an input, and `HeadedPassIsStored` shows that a cycle
  that is given a head never gets there.

## Model

| member | source | states |
|---|---|---|
| Journal.ValidateStructure | apps/relayer/src/state/transaction-journal-validation.ts:51-129 | the validator accepts exactly the snapshots of this identity that satisfy the structural invariant |
| Journal.ValidateQueue | apps/relayer/src/state/transaction-journal-validation.ts:71-117 | one pass with three growing sets decides the pairwise invariant: consecutive nonces, distinct ids, work and hashes |
| Journal.CollectHashes | apps/relayer/src/state/transaction-journal-validation.ts:108-117 | a hash is refused exactly when it was seen before, and the set grows by exactly the attempt's hashes |
| Journal.ValidateRepairs | apps/relayer/src/state/transaction-journal-validation.ts:74-86 | stored repairs are accepted exactly when bounded, valid, ordered and below the durable counter |
| JournalHistory.NoncesConserved | apps/relayer/src/state/signer-coordinator.ts:1111-1134 | over any history, allocation since the baseline equals resolutions plus repair widths plus retained attempts, and the stored repairs are the last eight |
| JournalHistory.CountersGrow | apps/relayer/src/state/plan-nonce-sync.ts:93-136 | both counters only grow and the durable one never passes the observed count |
| JournalHistory.AttemptPersists | apps/relayer/src/state/transaction-journal.ts:102-175 | an allocated nonce keeps its attempt and signed bytes, never back in the signed phase, until it is durably resolved |
| JournalHistory.ActivityPersists | apps/relayer/src/state/signer-coordinator.ts:1087-1100 | recorded unattributed activity survives every write except a repair |
| Blocks.Rpc.CheckAnchor | apps/relayer/src/chain/block-anchor.ts:23-44 | a changed anchor is reported with the different block seen at its number |
| ReplacementSearch.FindSpend | apps/relayer/src/chain/search-attempt-replacement.ts:284-310 | a block's scan finds the one transaction that spends the nonce, none, or refuses two |
| ReplacementSearch.SearchAttemptReplacement | apps/relayer/src/chain/search-attempt-replacement.ts:119-354 | every answer is true of parent-linked blocks: nothing before a found spend, nothing up to a saved position, exact scanned and remaining counts; numbers beyond 256 bits are refused, and the anchor was shown after the call |
| ReplacementSearch.ResumeSound | apps/relayer/src/state/signer-coordinator.ts:1156-1175 | resuming keeps the claim of the saved position over any reorganization |
| ReplacementSearch.SearchFinds | apps/relayer/src/chain/search-attempt-replacement.ts:235-353 | with truthful counts fewer than gap / range consecutive calls can miss the spending block, so it is found before nothing remains |
| Receipts.ReadReceipt | apps/relayer/src/chain/reconcile-attempt-receipt.ts:144-218 | every answer rests on the node's own replies: a verified outcome on a receipt for that hash and status in a block at or below the anchor, which the node then showed at its number; a fork on another block shown there; none on a missing receipt; all of it given after the call, and no evidence at an anchor beyond 256 bits |
| Receipts.ReconcileAttemptReceipt | apps/relayer/src/chain/reconcile-attempt-receipt.ts:65-142 | the answer for an attempt is its only inclusion, else the first fork-served receipt, else none; two inclusions are refused |
| Receipts.InspectInclusionEvidence | apps/relayer/src/chain/recheck-attempt-inclusion.ts:134-204 | a saved inclusion stands only when the node showed its block and then gave the saved receipt again, and falls only to a different block shown at its number |
| Receipts.ReadAnchoredNonce | apps/relayer/src/chain/read-anchored-nonce.ts:58-120 | a verified count is the one the node gave for the anchor's number between two looks at exactly that anchor, and fits a safe integer |
| Inspections.InspectSignerRecovery | apps/relayer/src/chain/inspect-signer-recovery.ts:97-242 | what each recovery decision establishes about the oldest attempt and its nonce; a success or revert is backed by a receipt in a block seen canonical, a replacement by the block's content, and the count by a bracketed reply |
| Inspections.LookAt | apps/relayer/src/chain/inspect-signer-inclusions.ts:154-242 | one attempt's new state, confirmation and candidacy are exactly what its recheck or its receipts call for; a confirmation rests on a receipt and its block as the node showed them, and a missing one on a missing receipt for every hash |
| Inspections.LookAtAttempts | apps/relayer/src/chain/inspect-signer-inclusions.ts:149-242 | after the first loop every attempt was rechecked or looked up, with confirmed positions and candidates exactly recorded |
| Inspections.SearchReplacements | apps/relayer/src/chain/inspect-signer-inclusions.ts:276-330 | exactly the candidates below the count are searched, and exactly the replaced ones become included and verified |
| Inspections.InspectSignerInclusions | apps/relayer/src/chain/inspect-signer-inclusions.ts:105-381 | every attempt's new state, completeness and the one resendable attempt are exact functions of what was read, all of it borne out by the node's replies; a complete pass verified every attempt below the count, and a resendable one is the oldest unresolved at exactly the count |
| Inspections.SweepKeeps | apps/relayer/src/chain/inspect-signer-inclusions.ts:166-200 | the pass changes no allocation or signed bytes, and a lost inclusion restarts its search from the preserved bound |
| Inspections.CompleteSweepCounts | apps/relayer/src/chain/inspect-signer-inclusions.ts:344-345 | a complete pass has seen every allocated nonce consumed |
| Serialization.DecimalRoundTrip | apps/relayer/src/state/transaction-journal-serialization.ts:236-248 | every 256-bit value prints as a canonical decimal of at most 78 digits that reads back, and only such spellings are accepted |
| Serialization.SnapshotRoundTrip | apps/relayer/src/state/transaction-journal-serialization.ts:75-103 | decoding an encoded valid snapshot gives the identical snapshot |
| Serialization.EncodeJournal | apps/relayer/src/state/transaction-journal-serialization.ts:29-73 | encoding succeeds exactly for the valid, verified snapshots of this signer whose text is within the size bound; counting signed bytes first refuses nothing more; and what it gives decodes to the same snapshot |
| DurableFiles.DurableReplace | apps/relayer/src/state/durable-replace.ts:28-108 | wherever it fails or the process dies, the file is whole and shows the old or the requested contents; an acknowledged replacement survives any power loss |
| JournalStore.FileTransactionJournalStore.Save | apps/relayer/src/state/file-transaction-journal-store.ts:208-241 | a save leaves the old or the requested journal, and only the requested one once acknowledged |
| JournalStore.FileTransactionJournalStore.Open | apps/relayer/src/state/file-transaction-journal-store.ts:138-158 | what opening loaded is the only image left on disk |
| JournalStore.RestartAfterOpen | apps/relayer/src/state/file-transaction-journal-store.ts:138-206 | a second crash after opening cannot revert what was loaded |
| JournalStore.JournalPersistence.Save | apps/relayer/src/state/journal-persistence.ts:122-142 | while idle the disk is the current journal; a failed save keeps the exact pending snapshot and nothing else is on disk |
| JournalStore.JournalPersistence.Retry | apps/relayer/src/state/journal-persistence.ts:147-159 | a retry commits exactly the retained snapshot or keeps it pending |
| SignerGate.GateMeaning | apps/relayer/src/state/signer-gate.ts:58-104 | the gate is open exactly when idle, both passes complete, all included, room left and nothing latched; a closed one names its highest reason |
| SignerGate.SelectExact | apps/relayer/src/state/signer-gate.ts:93-102 | the ordered reasons are exactly the chosen ones, first by precedence |
| Transitions.RecoveryFollows | apps/relayer/src/state/signer-coordinator.ts:1069-1190 | every planned recovery write is one the history admits, its internal errors cannot happen, and it passes the structural check exactly when the anchor's number fits 256 bits |
| Transitions.UnboundedAnchorIsRefused | apps/relayer/src/state/signer-coordinator.ts:1087-1100 | an input for which it does not: an empty journal observed again at block 2^256 |
| Transitions.SavedBoundIsSearched | apps/relayer/src/state/signer-coordinator.ts:1136-1175 | the lower bound that is saved is the one the search used |
| Transitions.SavedSearchAdvances | apps/relayer/src/state/signer-coordinator.ts:1156-1175 | the saved position is the search that was run, advanced by exactly what it covered |
| Transitions.PassesAreSearches | apps/relayer/src/state/signer-coordinator.ts:1135-1183 | successive saved recovery passes, whatever is latched at each, are one resumed search |
| Transitions.RecoveryFindsSpend | apps/relayer/src/state/signer-coordinator.ts:1135-1183 | with truthful counts fewer than gap / range recovery passes can miss the consuming transaction |
| Transitions.TruthfulCountsNeverExhaust | apps/relayer/src/state/signer-coordinator.ts:1170-1174 | with truthful counts the exhausted-search blocker is never latched by a pass |
| TruthfulRuns.TruthfulRunsNeverExhaust | apps/relayer/src/state/signer-coordinator.ts:1170-1190 | in every run whose reported counts are all true, no search is ever latched as exhausted, across restarts and repairs |
| Transitions.InclusionsFollow | apps/relayer/src/state/signer-coordinator.ts:1342-1354 | a saved inclusion pass is an admitted, valid write |
| Transitions.PrepareFollows | apps/relayer/src/state/signer-coordinator.ts:715-739 | preparing gives a valid journal exactly when id, work and hash are new |
| Transitions.MarkFollows | apps/relayer/src/state/signer-coordinator.ts:828-842 | the broadcast marker is a valid write of the oldest unresolved attempt |
| Transitions.RecoveryStaysTruthful | apps/relayer/src/state/signer-coordinator.ts:1135-1183 | a recovery write keeps every stored search and replacement true |
| Transitions.InclusionsStayTruthful | apps/relayer/src/chain/inspect-signer-inclusions.ts:276-330 | an inclusion pass keeps every stored search and replacement true |
| NonceSync.RepairFollows | apps/relayer/src/state/plan-nonce-sync.ts:52-143 | a planned repair is a valid write that clears unattributed activity, and repairing again changes nothing |
| RunInvariant.StepKeeps | apps/relayer/src/state/signer-coordinator.ts:295-1829 | every event of every run keeps the invariant that ties process, disk, history and sends |
| RunInvariant.AcknowledgeKeeps | apps/relayer/src/state/signer-coordinator.ts:1627-1663 | the code after an acknowledged save keeps it for each kind of write |
| RunInvariant.LatchesMatch | apps/relayer/src/state/signer-coordinator.ts:1665-1678 | unattributed activity is latched exactly when the committed journal shows it |
| RunInvariant.BootKeeps | apps/relayer/src/state/signer-coordinator.ts:330-386 | a restarted process starts from the durable journal with its latches rebuilt |
| RunInvariant.RepairKeeps | apps/relayer/src/cli/sync-nonce.ts:78-217 | an offline repair keeps disk and sends consistent, whether or not its save completed |
| SignerSafety.OneAttemptPerNonce | apps/relayer/src/state/signer-coordinator.ts:635-938 | any two sends at one nonce are the same bytes of the same attempt |
| SignerSafety.EverySendIsRemembered | apps/relayer/src/state/journal-persistence.ts:122-182 | every image the disk could hold, committed or unconfirmed, still holds each sent attempt, not merely signed, or has resolved its nonce |
| SignerSafety.SendDiscipline | apps/relayer/src/state/signer-coordinator.ts:813-871 | at each send the only possible image is the journal marking the oldest unresolved attempt at the observed count, and no authorization remains |
| SignerSafety.PassBetweenSends | apps/relayer/src/state/signer-coordinator.ts:1196-1214 | between any two sends a recovery pass was persisted |
| SignerSafety.PredecessorsIncluded | apps/relayer/src/chain/inspect-signer-inclusions.ts:347-367 | at each send every older retained attempt was included and the nonce was the observed count |
| SignerSafety.BroadcastConsumesPermit | apps/relayer/src/state/signer-coordinator.ts:787-825 | starting a broadcast needs and uses up the one permit |
| SignerSafety.PermitMeansBroadcast | apps/relayer/src/state/signer-coordinator.ts:571-599 | in every reachable state a released signer may broadcast exactly when it holds a permit, and the permit names the oldest unresolved attempt at the observed count |
| SignerSafety.OpenGateMeaning | apps/relayer/src/state/signer-coordinator.ts:601-621 | an open gate implies observed count = next nonce, all retained attempts included below it, room left, and a durable journal |
| SignerSafety.ClosedGateHasReason | apps/relayer/src/state/transaction-manager.ts:322-331 | a released closed gate always has a reason, so the manager's internal error is unreachable |
| SignerSafety.ActivityClosesGate | apps/relayer/src/state/signer-coordinator.ts:1087-1100 | once committed, unattributed activity stays latched and keeps gate and broadcast closed until a repair |
| SignerSafety.RunConservesNonces | apps/relayer/src/state/signer-coordinator.ts:1111-1134 | conservation, validity and the unchecked bound hold in every reachable state |
| SignerSafety.RunCountersGrow | apps/relayer/src/state/plan-nonce-sync.ts:93-136 | neither counter moves back between commits of any run |
| SignerSafety.DiskMatchesProcess | apps/relayer/src/state/journal-persistence.ts:144-182 | idle means disk = current; otherwise the disk is the current or the exact pending journal |
| SignerSafety.StoredEvidenceIsTrue | apps/relayer/src/state/signer-coordinator.ts:1135-1183 | every stored search position and replacement of every run is true of the blocks it names |
| SignerSafety.RecoveryNeverFailsInternally | apps/relayer/src/state/signer-coordinator.ts:1112-1163 | the recovery pass's own error branches are unreachable, and its write passes the structural check exactly when the anchor's number fits 256 bits |
| Retirement.RetiredOnEvidence | apps/relayer/src/state/signer-coordinator.ts:1105-1134 | in every run an attempt that one journal retains and a later one, committed or uncertain, does not was dropped in between by a resolution naming an outcome of its own bytes, or a replacement its block holds, at or below a durable anchor, with its nonce counted as consumed |
| SignerSafety.SavesAreValid | apps/relayer/src/state/journal-persistence.ts:130-137 | every save passes verification, except a first observation beyond 256 bits |
| SignerSafety.RevisionIsCurrent | apps/relayer/src/state/signer-coordinator.ts:1804-1809 | the cached revision is current whenever recovery counts as complete |
| InspectionOwnership.OwnedSignerIsClosed | apps/relayer/src/state/signer-coordinator.ts:388-480 | while owned, gate and broadcast are closed and new work of any caller has no effect |
| InspectionOwnership.UntrustedInspectionGrantsNothing | apps/relayer/src/state/signer-coordinator.ts:1452-1545 | an unused inspection or a failed head bracket leaves no authorization |
| InspectionOwnership.AbandonmentRevokes | apps/relayer/src/state/signer-coordinator.ts:1587-1625 | an abandoned inspection stays owned until it settles and is released with no authorization, whatever its operation granted |
| InspectionOwnership.StaleHandleIsInert | apps/relayer/src/state/signer-coordinator.ts:1500-1509 | a finished or abandoned handle never has an effect again |
| InspectionOwnership.AuthorityNeedsInspection | apps/relayer/src/state/signer-coordinator.ts:682-775 | outside an inspection authorization only comes from a stored preparation or is put back after a refused one |
| SubmissionRecording.RecordingIsTrue | apps/relayer/src/state/signer-coordinator.ts:522-558 | retained, uncertain and unrecorded mean what they say of the acknowledged journal, the failed write, and every possible image |
| SubmissionRecording.UnrecordedMeansAbsent | apps/relayer/src/state/transaction-manager.ts:389-400 | a submission that fails before preparing reports no recording; if the caller saw no trace of the work before it submitted, that is true of every image a power loss could leave, whatever the recovery before it did; what the caller can see is exactly the coordinator's own recording |
| SubmissionRecording.UnrecordedIsExact | apps/relayer/src/state/transaction-manager.ts:389-400 | that condition is exact: the process holds no trace of the work exactly when no run of the recovery, however it ends and whenever the report is made, can leave the work in an image |
| SubmissionRecording.RunBringsNoWork | apps/relayer/src/state/signer-coordinator.ts:635-775 | no stretch of events without a signing brings work into a process's journals |
| FailedSubmissions.UnrecordedCanBeUncertain | apps/relayer/src/state/transaction-manager.ts:389-400 | a reachable run in which the work was seen before, the recovery's retry fails, the report is `none`, and a power loss can leave an image that holds the work |
| SignerCoordinators.OperationIsRun | apps/relayer/src/state/signer-coordinator.ts:295-1829 | what an operation of the object performs is a stretch of a run of the machine |
| SignerCoordinators.SignerCoordinator.FilesRememberSends | apps/relayer/src/state/journal-persistence.ts:122-182 | every file a power loss could leave of the object's own journal shows an image that remembers every transaction sent |
| SignerCoordinators.SignerCoordinator.constructor | apps/relayer/src/state/signer-coordinator.ts:330-386 | the object starts in the machine's initial process state |
| SignerCoordinators.SignerCoordinator.CompleteWrite | apps/relayer/src/state/signer-coordinator.ts:1627-1663 | finishing a write applies its latches, releases it and recomputes the revision |
| SignerCoordinators.SignerCoordinator.BeginInspection | apps/relayer/src/state/signer-coordinator.ts:388-480 | ownership is taken, with a new generation and no authorization, exactly when nothing else runs or is pending |
| SignerCoordinators.SignerCoordinator.FinishInspection | apps/relayer/src/state/signer-coordinator.ts:1547-1585 | ownership ends only for the owner, with no open or failed bracket and nothing pending |
| SignerCoordinators.SignerCoordinator.AbandonInspection | apps/relayer/src/state/signer-coordinator.ts:1587-1625 | abandoning releases ownership and every authorization |
| SignerCoordinators.SignerCoordinator.OpenHead | apps/relayer/src/state/signer-coordinator.ts:1452-1493 | a bracket opens only at the checked head; any other reply leaves it failed |
| SignerCoordinators.SignerCoordinator.Recover | apps/relayer/src/state/signer-coordinator.ts:962-1229 | a recovery performs the machine's events from its call on; a returned result leaves exactly the planned journal with recovery complete, or the old one; a deferral is of a missing journal, on counts the node gave that disagree |
| SignerCoordinators.SignerCoordinator.InspectSignerBootstrap | apps/relayer/src/chain/inspect-signer-bootstrap.ts:59-128 | a baseline is ready exactly when the bracketed count at the anchor and both live counts agree, deferred with the counts that do not, and all of them were given in this order after the call |
| SignerCoordinators.SignerCoordinator.CheckInclusions | apps/relayer/src/state/signer-coordinator.ts:1255-1396 | an inclusion check performs the machine's events from its call on; only a stored pass sets the authorization, to the pass's own completeness |
| SignerCoordinators.SignerCoordinator.RetryPersistence | apps/relayer/src/state/signer-coordinator.ts:1714-1736 | a retry starts exactly for a released coordinator with a failed write, and returns once exactly the pending snapshot is committed |
| SignerCoordinators.SignerCoordinator.PrepareAttempt | apps/relayer/src/state/signer-coordinator.ts:635-775 | a preparation returns only behind an open gate; it appends exactly one signed attempt at the next nonce and grants its permit, and retained work changes nothing |
| SignerCoordinators.SignerCoordinator.FailPreparation | apps/relayer/src/state/signer-coordinator.ts:756-770 | a refused snapshot restores the inclusion check, an unconfirmed one closes the gate |
| SignerCoordinators.SignerCoordinator.CanBroadcast | apps/relayer/src/state/signer-coordinator.ts:571-599 | the object's test is the machine's |
| SignerCoordinators.SignerCoordinator.BroadcastAttempt | apps/relayer/src/state/signer-coordinator.ts:781-938 | a broadcast starts exactly with the matching permit, uses it up, and sends retained work, marked first when it was only signed |
| SignerCoordinators.SignerCoordinator.CaptureRecording | apps/relayer/src/state/signer-coordinator.ts:522-558 | the object's recording is the specified one |
| RetrySchedules.DelayDoubles | apps/relayer/src/state/broadcast-retry-schedule.ts:134-139 | capping after each doubling is capping the doubled delay |
| RetrySchedules.ClaimsSpan | apps/relayer/src/state/broadcast-retry-schedule.ts:121-142 | n claims of one attempt take at least n - 1 initial delays |
| RetrySchedules.BroadcastRetrySchedule.Track | apps/relayer/src/state/broadcast-retry-schedule.ts:61-100 | repeated tracking keeps the schedule; a possibly sent attempt first waits the initial delay |
| RetrySchedules.BroadcastRetrySchedule.Claim | apps/relayer/src/state/broadcast-retry-schedule.ts:121-142 | the gap after the k-th claim is at least min(max, initial * 2^k), for any clock |
| RetrySchedules.BroadcastRetrySchedule.DelayMs | apps/relayer/src/state/broadcast-retry-schedule.ts:105-114 | waiting the reported whole milliseconds is enough and one less is not |
| RetrySchedules.BroadcastRetrySchedule.ReadNow | apps/relayer/src/state/broadcast-retry-schedule.ts:144-164 | the schedule's time is the latest usable reading so far: it never goes back and never leaves its safe range, and an unusable reading throws |
| RetrySchedules.DurableRecoverySchedule.IsDue | apps/relayer/src/state/durable-recovery-schedule.ts:40-64 | not due exactly at the completed anchor, within the interval by the clock's next reading; the clock is read only then |
| RecoveryCycle.CompletionMeaning | apps/relayer/src/state/is-durable-recovery-complete.ts:21-63 | completion means an empty queue, or an unconsumed oldest nonce with no served fork, and conversely |
| RecoveryCycle.RevisionDecides | apps/relayer/src/state/durable-recovery-revision.ts:19-113 | revisions are equal exactly when all content a durable pass depends on is |
| RecoveryCycle.SignerRecoveryCycle.CanReuse | apps/relayer/src/state/signer-recovery-cycle.ts:150-163 | a pass is reused exactly at the same anchor, within the interval by the clock's next reading, on unchanged content |
| RecoveryCycle.SignerRecoveryCycle.RecoverUntilSettled | apps/relayer/src/state/signer-recovery-cycle.ts:181-206 | the pass loop ends with a result that is no resolution, or with an empty queue |
| RecoveryCycle.SignerRecoveryCycle.RecordPass | apps/relayer/src/state/signer-recovery-cycle.ts:210-224 | completion is recorded exactly when the pass completed, with the content it completed on and the time the clock gave |
| RecoveryCycle.SignerRecoveryCycle.SendWhenDue | apps/relayer/src/state/signer-recovery-cycle.ts:265-283 | the oldest unresolved attempt is sent exactly when the coordinator permits it and the schedule is due: a send had permission and was claimed no earlier than it was due, and without a send one of the two was missing |
| RecoveryCycle.HeadedPassIsStored | apps/relayer/src/state/signer-recovery-cycle.ts:121-136 | in every reachable state a durable pass of a cycle with a head plans nothing the structural check refuses, whatever the node replies |
| RecoveryCycle.SignerRecoveryCycle.Run | apps/relayer/src/state/signer-recovery-cycle.ts:91-297 | a durable pass is skipped exactly when a head is given, the last pass completed lately at this anchor and nothing it depended on changed, never after a retried write; a failed cycle forgets completion, a returned one keeps it only with a complete inclusion check; ownership is always released and no new work enters the journals |
| TransactionManagers.TransactionManager.Reconcile | apps/relayer/src/state/transaction-manager.ts:224-292 | a reported broadcast always names retained work; the internal error is unreachable |
| TransactionManagers.TransactionManager.SubmitTransaction | apps/relayer/src/execution/submit-transaction.ts:50-97 | a returned broadcast is of an attempt the journal retains |
| TransactionManagers.TransactionManager.Submit | apps/relayer/src/state/transaction-manager.ts:294-404 | one operation at a time; once preparation started a failure's recording is true; unrecorded work is in no file a power loss could leave, when preparation had started or the caller saw no trace of the work before |
| Requests.FirstBlocks | apps/relayer/src/consumers/request-processor.ts:92-103 | the map holds each distinct round, in first-appearance order, with its lowest block |
| Requests.ProcessQuicknetRequestsWithOutcomes | apps/relayer/src/consumers/request-processor.ts:87-214 | one outcome per distinct round; imports run on a prefix that ends at the first failure or unavailable signer |
| Requests.ScansArrive | apps/relayer/src/consumers/request-scanner.ts:49-76 | the scan arithmetic: repeated scans leave no gap and arrive after the durable head in exactly ceil(blocks / range) steps |
| Requests.ReadFulfillment | apps/relayer/src/consumers/durable-requests.ts:190-221 | the next block is the lowest first block not known to be stored, or the scan's end |
| Requests.ReconcileDurableRequests | apps/relayer/src/consumers/durable-requests.ts:99-260 | the result is exactly what the node said, call by call: anchor, requests, one answer per round and the second look at the anchor; only a cancelled import is not the node's doing |
| Requests.VerifiedIsFulfilled | apps/relayer/src/consumers/durable-requests.ts:190-241 | a verified pass never moves back, stops exactly at the first block whose round is not known stored, and leaves everything before it stored at the anchor, whatever the imports did |
| Requests.SettledScansAll | apps/relayer/src/consumers/durable-requests.ts:126-259 | while the node answers from one chain on which all requests of the range are stored, a pass verifies its whole range |
| Requests.StoredRoundsFinishScan | apps/relayer/src/consumers/durable-requests.ts:215-236 | a scan covers its whole range exactly when every round is stored |
| Daemons.FileCheckpointStore.InitializeState | apps/relayer/src/state/file-checkpoint-store.ts:147-166 | opening makes what the disk shows durable and changes no checkpoint |
| Daemons.FileCheckpointStore.Load | apps/relayer/src/state/file-checkpoint-store.ts:99-106 | a load returns the disk's checkpoint of that consumer |
| Daemons.FileCheckpointStore.Save | apps/relayer/src/state/file-checkpoint-store.ts:108-145 | a save leaves old, rewritten or advanced contents only, refuses to move back, and keeps other consumers |
| Daemons.GetSoftNextBlock | apps/relayer/src/daemon/daemon-iteration.ts:460-477 | the soft scan starts at the highest of cursor, checkpoint and first non-durable block |
| Daemons.Daemon.SaveCheckpoint | apps/relayer/src/daemon/daemon-iteration.ts:244-270 | the checkpoint moves to the end of a verified pass or the save failed; the store's refusal to move backwards is unreachable; the pass joins the log with exactly that outcome |
| Daemons.Daemon.ScanDurable | apps/relayer/src/daemon/daemon-iteration.ts:176-300 | exactly one pass is run and logged as the node answered it; the checkpoint moves exactly when it verified a later block; whatever a power loss leaves is covered by logged passes, and other consumers' entries are untouched |
| Daemons.Daemon.constructor | apps/relayer/src/daemon/daemon.ts:84-111 | a daemon takes over a file whose checkpoint, if any, is accounted for by the passes of the daemons before it |
| Daemons.Daemon.RunDaemonIteration | apps/relayer/src/daemon/daemon-iteration.ts:104-406 | however it ends, every surviving checkpoint is backed, block by block, by a pass that saw one anchor above the block before and after finding everything requested there stored; it never moves back and touches no other consumer; when heads are read and blocks are left it runs exactly one pass from the loaded checkpoint, and the soft cursor advances by one scan |
| Daemons.Daemon.SettledPassesArrive | apps/relayer/src/daemon/daemon-iteration.ts:176-300 | over a settled node each acknowledged pass covers its whole range, and the checkpoint is right after the durable head after exactly ceil(blocks / range) of them |
| Daemons.PassesArrive | apps/relayer/src/consumers/request-scanner.ts:49-76 | linked full passes leave no gap and arrive in exactly that many |
| Daemons.OtherStaysSafe | apps/relayer/src/state/file-checkpoint-store.ts:108-145 | one consumer's iteration leaves every other consumer's promise standing, with the resume points it had |
| Daemons.RunDaemonCycle | apps/relayer/src/daemon/daemon-cycle.ts:103-245 | a cycle over all consumers of one file keeps every checkpoint safe and forward, and what each iteration reported is still on disk at its end |
| Daemons.Daemon.Restart | apps/relayer/src/state/file-checkpoint-store.ts:147-166 | a power loss keeps all of that and moves no checkpoint |
| PercentText.LowercaseAscii | apps/relayer/src/diagnostics/text-scrubber.ts:288-302 | folding keeps every position |
| PercentText.NormalizePercentEscapes | apps/relayer/src/diagnostics/text-scrubber.ts:304-335 | the in-place pass computes the normal form of the same length |
| PercentText.NormalForm | apps/relayer/src/diagnostics/text-scrubber.ts:304-335 | the normal form lowers exactly the two digits of every escape, nested ones skipped, and nothing else |
| PercentText.CaseDoesNotMatter | apps/relayer/src/diagnostics/text-scrubber.ts:304-335 | two texts have one normal form exactly when they differ in nothing but the case of the digits of their escapes |
| PercentText.NormalizingSettles | apps/relayer/src/diagnostics/text-scrubber.ts:304-335 | normalizing twice changes nothing more |
| PercentText.Utf8Decodes | apps/relayer/src/diagnostics/text-scrubber.ts:497-502 | decoding inverts the UTF-8 encoding of every scalar (RFC 3629, section 3) |
| PercentText.Utf8Unique | apps/relayer/src/diagnostics/text-scrubber.ts:497-502 | only the encoding of a scalar decodes to it |
| PercentText.ReadPercentCharacter | apps/relayer/src/diagnostics/text-scrubber.ts:452-507 | a character is read exactly when a well-formed percent-encoded scalar stands there (RFC 3986, section 2.1) |
| PercentText.DecodePercentView | apps/relayer/src/diagnostics/text-scrubber.ts:415-450 | a pass decodes every escape once and its units still tile the original positions |
| PercentText.RunCoversExactly | apps/relayer/src/diagnostics/text-scrubber.ts:241-246 | a match's mapped range is exactly the original positions of its units |
| PercentText.DecodingInvertsEncoding | apps/relayer/src/diagnostics/text-scrubber.ts:415-450 | one pass gives back any Unicode text from its percent-encoded form |
| Scrubber.CollectLiteralRanges | apps/relayer/src/diagnostics/text-scrubber.ts:537-557 | exactly the occurrences are added, overlapping ones included |
| Scrubber.MergeRanges | apps/relayer/src/diagnostics/text-scrubber.ts:563-578 | merging sorted ranges leaves disjoint runs with the same cover |
| Scrubber.RedactRanges | apps/relayer/src/diagnostics/text-scrubber.ts:559-595 | the output is the order-free rendering: uncovered units in order, one mark per run |
| Scrubber.SearchView | apps/relayer/src/diagnostics/text-scrubber.ts:175-246 | a view adds exactly the original places of its matches: literal secrets in its normal form, case-insensitive ones folded, and what the recognizer marks |
| Scrubber.MatchesAreCovered | apps/relayer/src/diagnostics/text-scrubber.ts:237-261 | an original position is cut exactly when it contributes to a match in some view, literal or recognized |
| Scrubber.SearchViews | apps/relayer/src/diagnostics/text-scrubber.ts:229-261 | all views up to two decodings are searched; the ranges to cut are the original places of their matches, all of them and nothing else; it succeeds exactly when the last view decodes to itself |
| Scrubber.Scrub | apps/relayer/src/diagnostics/text-scrubber.ts:221-285 | what is published is the bounded, control-free form of the text with exactly the matches of all its views cut; an unmarked result is the text itself |
| Scrubber.RenderedUnits | apps/relayer/src/diagnostics/text-scrubber.ts:580-594 | whatever stands after redaction stood at an uncovered position |

## Left out

- SearchAttemptReplacement: does not say that a found block is an ancestor of the anchor, because the code stops reading at it and only rechecks the anchor.
- ReadAnchoredNonce: whether the node's count is the account's true one is not established here; `TruthfulRuns` states what follows when it is.
- VerifiedIsFulfilled: rests on a node that never returns to a block it left; two reads of one anchor cannot otherwise rule out a detour.
- SearchView: which URLs, authorization headers and tokens a text holds is given by a recognizer function; how it recognizes them is not modelled.
- Submit: the selection of chain heads and fee preparation are arbitrary outcomes.
- BroadcastRetrySchedule: clock readings are real numbers, not binary floating point.
- RunDaemonIteration: progress reports and the operation context are not modelled; an abort signal is seen only at the checks between node calls, and the head reader's cache is left out.
- SignerCoordinator: its operations run without interleaving; every interleaving of their segments is covered by the machine in World.
- Reading and writing JSON text, hex, UUID, work-identifier and timestamp formats: values are typed and case-folded.
- Signing, hashing and transaction serialization: a signed transaction is an arbitrary hash with bytes.
- Logs, events, blocked-since bookkeeping, error summaries and abort signals; a cancelled call is an early exit between steps.
- The identity of the RPC client inside a head bracket; one node is assumed per inspection.
- The service lock, file modes, hard links and temporary-file names: one process owns the state directory.
- Building the scrubber's secret list from URLs and keys; the list is an input.
- Beacon fetching, round import itself, the registry contract, CLI rendering and status output.
