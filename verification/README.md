# TRAM manager/worker layer: a Dafny model

This project models the crash-tolerant core of TRAM in Dafny 4.11 and proves what its parts
keep over whole runs. `dafny verify dfyconfig.toml` checks all of it.

The system has a manager that dispatches pipeline runs to workers. A worker admits a run
against a signed start token, records everything in a local journal, and delivers the result
through an outbox. Sinks write files in numbered parts and publish them by rename.

| area | modules |
|---|---|
| worker journal, start tokens, timestamps | `JournalTables`, `JournalRuns`, `JournalLaws`, `WorkerJournal`, `AuthTokens`, `Timestamps` |
| outbox delivery, run index, handshake | `OutboxDrain`, `OutboxOverflow`, `OutboxPass`, `WorkerState`, `Handshake` |
| manager worker pool | `Fairness`, `Placement`, `PoolHealth`, `PoolRuns`, `WorkerPool` |
| rolling file writer and publication | `Payloads`, `CsvParts`, `FileNames`, `RollingWriter`, `PartLimits`, `WriterRuns`, `WriterRolls`, `WriterFiles`, `WriterResults`, `TemplateNames`, `Publication`, `PublishedRuns` |
| bridge queue, rate limiter | `BridgeQueue`, `BridgeFairness`, `RateLimit` |
| shared vocabulary, text order and numerals | `Basics`, `Text` |

Each stateful component appears twice. A class with the component's own fields and methods
follows the source step by step, and every method is proved equal to a step function on values.
The theorems are then proved about all sequences of those steps: any order of calls, crashes,
clock readings, losses and failures that the event type lists.

## What is assumed

- Journal tables are maps and each transaction is one atomic step; `token_hash` is the token
  itself, so hash collisions are out. The signature is an arbitrary function of payload and secret.
- Instants are whole microseconds. Values read from a clock, the network or a random source are
  parameters of the step that reads them.
- The drain results cover the completion paths and the drain itself; the raw enqueue, ack and failure
  primitives of the journal are not called by anything else in them.
- The writer results cover one life of a unit's bookkeeping (no finalisation in the middle) and keys
  whose parts have different file names; `PartTemplateSeparates` says which templates give that. The
  published result also takes that no staging file is left over and that nothing writes to the unit
  between two attempts.
- The limiter is modelled behind its guard: a positive limit and a limited path.

## Where the code does less than its text says

| what fails | shown by | holds when |
|---|---|---|
| Anti-starvation in placement | `FourthWorkerNeverChosen`, `HeavierWorkerStarves` | exactly: healthy workers number at most the threshold plus one (`SkipBound`, `HeavyWorkerNeverChosen`) |
| "Newest attempt answers" in the run index, once the newest ended | `OldestAnswersAfterNewestEnds` | exactly, if no live attempt is added again: at most one attempt of the run remains (`ReindexIsNewestIff`) |
| Outbox backoff: the 1025th rejection of a row raises an overflow, the row is never backed off again and blocks the rows behind it | `RejectionsBlock`, `OverflowedRowBlocksOutbox` | exactly, for a pass alone: no rejected row of its batch failed 1024 times before (`ReachablePassCutShortIff`); with overlapping passes also: the rejected row is still in the outbox (`RejectionRaisesIff`, `LateRejectionRaises`) |
| An ack means the manager accepted the stored result | `RenewedResultSwallowed` | exactly, per ack: the acked row carries the stored result or that was accepted before (`HeldRowAckTrueIff`); over runs: the attempt is not completed anew while a pass holds the row of its deleted result (`StoredCompletionIsPendingOrDelivered`) |
| Pool bookkeeping in step | `MovedRunLeavesOrphan` | exactly: a run id is never moved away from a pipeline as its last live run (`AssignKeepsInvIff`) |
| Blocking put on an empty queue | `OversizedPutStalls` | exactly: every payload fits the byte bound (`NoLostWakeup`) |
| A put that fits is not left asleep unnotified | `MixedSizesOverlook`, `ThirtySleepsThroughRoom` | there is no byte bound or payloads have one size (`NobodyOverlooked`) |
| One CSV header per part, then rows only | `EmptyOpeningLosesHeader`, `QuotedHeaderLeaks`, `UnterminatedFuses` | exactly: the part was opened by a non-empty chunk, every later chunk's header record is one line, and every append falls on a record end (`CsvPartHasOneHeader`); chunks ending in LF outside quotes meet the last one (`WrittenReadsBackIff`) |
| ndjson records stay apart | `EmptyNewlineFuses`, `BorderedFuses` | exactly: the newline is not empty and no proper prefix of it is its suffix (`RecordsSurviveIff`) |
| Every state key has its own files | `XyzTwice`, `AdjacentFieldsShareAFile` | the template has the part number and at most one token of varying width (`PartTemplateSeparates`) |
| A confirmed final holds the staged content | `EmptyChunkConfirmsStaleFinal` | every part of the unit received bytes (`PublishedFilesHoldTheChunks`), which is exactly when all its targets are staged (`UnitReadyIff`) |
| Replacing a final file is atomic, so an abort keeps the older one | `RenameThenAbortLosesBoth` | exactly: no attempt displaced it, that is, overwriting is off or every attempt that reached the target failed at the fsync or the unlink (`OlderFinalSurvivesAbortIff`) |
| Clock recovery reopens admission | `RecoveryReopensAdmission` | exactly: the configured skew is not negative |

## Model

| member | source | states |
|---|---|---|
| `JournalRuns.AdmittedAtMostOnce` | tram/agent/journal.py:586-732 | over every run of journal events, each attempt gets the outcome admitted at most once |
| `JournalRuns.RevokedStaysOut` | tram/agent/journal.py:851-871 | an attempt that was ever tombstoned is not admitted by any later event, even after GC or retention removed the tombstone |
| `JournalRuns.StepKeepsInv` | tram/agent/journal.py:612-727 | authorizations imply reservations, tombstoned attempts stay tombstoned or reserved, and no epoch above the current one has a watermark: kept by every transaction |
| `JournalRuns.RunRises` | tram/agent/journal.py:836-847 | across any run no reservation disappears or moves back in reserved, running, interrupted, completed, and no watermark falls |
| `JournalRuns.CompletedHasRow` | tram/agent/journal.py:885-924 | over every run a completed reservation has its completion row unless a sweep of the run counted it among the aged ones, and no watermark is above the current epoch; `CompletedKeepsResult` says on fields what such a sweep met |
| `JournalLaws.CompletedKeepsResult` | tram/agent/journal.py:1303-1313 | over every run a completed attempt has its result, or some sweep of the run met it acked at least the audit period before |
| `JournalLaws.AdmittedIff` | tram/agent/journal.py:612-727 | in every reachable journal a granted decision is admitted exactly when the journal is healthy, the watermark is at most the clock plus the skew, the attempt has no tombstone and no reservation, and the token belongs to no other attempt |
| `JournalLaws.ClosedIff` | tram/agent/journal.py:609-635 | admission is closed exactly when the journal is unhealthy, the skew is negative, or the current epoch's watermark is above the clock plus the skew |
| `JournalLaws.RevokedIff` | tram/agent/journal.py:659-672 | an open journal answers revoked, with reason and time, exactly when the attempt has a tombstone and its token is not another attempt's |
| `JournalLaws.AlreadyAdmittedIff` | tram/agent/journal.py:690-725 | it answers already admitted, with that reservation, exactly when one with the same run, generation and slot stands |
| `JournalLaws.ConflictIff` | tram/agent/journal.py:636-719 | it answers conflict exactly when the reservation has another identity or the token is another attempt's |
| `JournalLaws.RefusalStands` | tram/agent/journal.py:596-601 | a refused decision is passed on and writes nothing |
| `JournalLaws.AdmissionWrites` | tram/agent/journal.py:636-727 | every field of the reservation and authorization that an admission adds, the watermark it leaves, and that nothing else changes; other outcomes write nothing |
| `JournalLaws.JudgedBy` | tram/agent/journal.py:780-834 | a token that validates is refused exactly when it is on record under another epoch, or on no record with its window passed by the watermark; otherwise its own fields are granted |
| `JournalLaws.InvalidIsRefused` | tram/agent/journal.py:734-834 | a token that does not validate is refused with that reason and nothing is written |
| `JournalLaws.StatusLaw` | tram/agent/journal.py:1201-1231 | the reported watermark status is admitting exactly up to the skew behind the watermark, which for a skew that is not negative is when admission is open |
| `JournalLaws.FirstPresentationAdmitted` | tram/agent/journal.py:734-834 | a token minted under the current or previous secret and in bounds, presented first for a new attempt at a clock not behind the watermark, is admitted and filed with its fields |
| `JournalLaws.RepetitionAlreadyAdmitted` | tram/agent/journal.py:734-834 | presented again it is recognised with the reservation it made, and nothing changes |
| `JournalLaws.PresentedTwice` | tram/agent/journal.py:734-834 | the two in a row: admitted, then already admitted |
| `JournalLaws.UnitsAreTruncated` | tram/agent/journal.py:621-621 | milliseconds and seconds of an instant are cut off toward zero |
| `JournalLaws.RunningLaw` | tram/agent/journal.py:836-847 | only that attempt changes, only from reserved to running, with its thread marked started |
| `JournalLaws.BootLaw` | tram/agent/journal.py:1130-1145 | after a boot no attempt is reserved or running, completed ones stay completed, and no other field changes |
| `JournalLaws.TombstoneLaw` | tram/agent/journal.py:851-871 | run, reason, time and epoch of the tombstone, the latest one winning, and no other change |
| `JournalLaws.NewEpochLaw` | tram/agent/journal.py:1157-1174 | in every reachable journal the next epoch has no watermark yet, so its clock gate is open at any clock |
| `JournalLaws.RecoveryLaw` | tram/agent/journal.py:1176-1197 | after recovery the gate is open exactly at clocks no further back than the skew from the one it read |
| `JournalLaws.GcLaw` | tram/agent/journal.py:1246-1273 | an authorization, and its attempt's tombstone, go exactly when its expiry plus the skew has passed; nothing else goes and the watermark rises to the clock |
| `JournalLaws.RetentionLaw` | tram/agent/journal.py:1289-1332 | a completion goes with its rows exactly when it was acked at least the audit period ago; a tombstone exactly when it is older than the replay period and its token has expired |
| `JournalLaws.AckedResultLasts` | tram/agent/journal.py:1303-1313 | a result acked at x stays stored unchanged through every run whose sweeps all come before x plus the audit period |
| `JournalLaws.UnackedResultStays` | tram/agent/journal.py:1303-1313 | a result never acked stays stored unchanged through every run |
| `JournalLaws.CompletionLaw` | tram/agent/journal.py:896-924 | the first result is stored with its run id and time, its reservation becomes completed, and nothing else changes |
| `JournalLaws.AckLaw` | tram/agent/journal.py:978-989 | an unacked result is stamped, an acked one keeps its stamp, and exactly the rows of the attempt go |
| `JournalLaws.RespoolLaw` | tram/agent/journal.py:937-958 | exactly an unacked result without a completion row gets one: last in line, due at once, with its stored result and a new number |
| `JournalLaws.FetchTakesFirstDue` | tram/agent/journal.py:991-1003 | a fetch is the first rows, up to the limit, of all due rows in sequence order |
| `JournalLaws.BackoffDoubles` | tram/agent/journal.py:1017-1020 | the delays are 1, 2, 4, 8, 16, 32, 64, 128, 256 seconds and 300 from then on |
| `JournalLaws.FailureLaw` | tram/agent/journal.py:1011-1028 | the row gets one more failure, the error and the delay from now; every other row is untouched |
| `JournalLaws.AttemptReport` | tram/agent/journal.py:1032-1079 | which kind an attempt is reported as, exactly: tombstone before completion before reservation |
| `JournalRuns.RecoveryReopensAdmission` | tram/agent/journal.py:1176-1197 | recovery sets the new epoch's watermark to the clock it read, so admission is open there exactly when the skew is not negative |
| `JournalRuns.CollectedTokenStaysRefused` | tram/agent/journal.py:1233-1273 | a token whose row GC deleted is refused, without effect, at every later presentation in that epoch, whatever the clock or the secrets |
| `JournalRuns.LiveTokenNotRetired` | tram/agent/journal.py:803-818 | with a skew of a second or more, a token that still validates at a clock not behind the watermark is never refused as retired |
| `JournalRuns.GcRetires` | tram/agent/journal.py:1246-1261 | the watermark that GC leaves is past the collected token's window, through the truncation of seconds and milliseconds |
| `WorkerJournal.Journal.Admit` | tram/agent/journal.py:586-732 | the statement-by-statement transaction with its rollbacks has exactly the outcome and tables of the step that `AdmittedIff` to `AdmissionWrites` describe field by field; every outcome but admitted restores all tables |
| `WorkerJournal.Journal.ValidateAndAdmit` | tram/agent/journal.py:734-834 | validation, epoch and watermark checks followed by admission equal one presentation step, the step of `PresentedTwice` |
| `WorkerJournal.Journal.MarkRunning` | tram/agent/journal.py:836-847 | only a reserved attempt becomes running |
| `WorkerJournal.Journal.RecordTombstone` | tram/agent/journal.py:851-871 | the tombstone is recorded under the current epoch and nothing else changes |
| `WorkerJournal.Journal.RecordCompletion` | tram/agent/journal.py:885-924 | the first result wins, and without a run id or reservation nothing commits |
| `WorkerJournal.Journal.RespoolAttempt` | tram/agent/journal.py:937-958 | an unacked completion gets a row unless it has one |
| `WorkerJournal.Journal.RespoolUnacked` | tram/agent/journal.py:937-958 | the scan over all completions equals respooling them one by one |
| `WorkerJournal.Journal.MarkAcked` | tram/agent/journal.py:978-989 | the first ack time stays and all rows of the attempt go |
| `WorkerJournal.Journal.RecordOutboxFailure` | tram/agent/journal.py:1005-1028 | count, error and delay of that row are updated, or nothing is and the call fails |
| `WorkerJournal.Journal.MarkInterruptedOnBoot` | tram/agent/journal.py:1130-1145 | exactly the reserved and running attempts become interrupted |
| `WorkerJournal.Journal.AdvanceSessionEpoch` | tram/agent/journal.py:1157-1174 | the epoch rises by one and no table changes |
| `WorkerJournal.Journal.RecoverClockLowering` | tram/agent/journal.py:1176-1197 | the epoch rises by one and its watermark is the clock read |
| `WorkerJournal.Journal.GcExpired` | tram/agent/journal.py:1233-1273 | the watermark advances, then expired authorizations and their tombstones go |
| `WorkerJournal.Journal.CleanupRetention` | tram/agent/journal.py:1275-1332 | the deletions equal the sweep of `RetentionLaw`: completions acked at least the audit period ago, their rows, and resolved tombstones go |
| `WorkerJournal.DrainOutboxOnce` | tram/agent/server.py:970-1042 | the delivery loop with its skip of acked attempts and its early exit equals one specified pass |
| `OutboxDrain.StoredCompletionHasItsRow` | tram/agent/journal.py:896-989 | after any moves, crashes and overlapping passes a stored completion carries its first result; unacked it has exactly one row with that result, acked none |
| `OutboxDrain.StoredCompletionIsPendingOrDelivered` | tram/agent/journal.py:896-989 | and if the attempt was never completed anew while a pass held the row of its deleted result, acked means the manager accepted that result |
| `OutboxDrain.MoveKeepsStored` | tram/agent/server.py:994-1042 | every worker event, fetch, post, ack and crash keeps one row per unacked completion, with its stored result |
| `OutboxDrain.MoveKeepsTruth` | tram/agent/server.py:994-1042 | every move but such a renewal keeps that the held rows of an attempt carry its stored result and that its ack is true |
| `OutboxDrain.BootRespoolRepairs` | tram/agent/journal.py:937-958 | the boot respool leaves no unacked completion without a row |
| `OutboxDrain.FetchLaw` | tram/agent/journal.py:991-1003 | a fetch takes up the first ten due rows and changes no table |
| `OutboxDrain.ClearLaw` | tram/agent/server.py:994-1005 | a held row is cleared for sending exactly unless its result is acked and not revoked |
| `OutboxDrain.RenewedResultSwallowed` | tram/agent/journal.py:1303-1320 | a run of nine moves in which retention deletes an acked result, the attempt completes anew, and an overlapping pass acks the new result unsent |
| `OutboxDrain.HeldRowAckTrueIff` | tram/agent/server.py:994-1042 | the ack after a delivery is true exactly when the delivered row carries the stored result or that result was accepted before |
| `OutboxDrain.DeliverRemoves` | tram/agent/server.py:994-1042 | against an accepting manager a pass removes exactly the rows of the attempts it fetched |
| `OutboxDrain.PassesDeliver` | tram/agent/server.py:970-1042 | a row due at every pass is gone once ten times the passes reach the due rows, for passes at different clocks |
| `OutboxDrain.DueRowsGoneAfterCeilPasses` | tram/agent/server.py:970-1042 | N due rows are gone after ceil(N/10) passes |
| `OutboxOverflow.BackoffBoundedUntilOverflow` | tram/agent/journal.py:1005-1028 | the delay is 1 to 300 seconds, at the cap from the tenth failure, and the failure is recorded exactly below 1024 earlier failures |
| `OutboxOverflow.OverflowedRowBlocksOutbox` | tram/agent/journal.py:1005-1028 | a rejected row past that count at the head of the due rows stops every pass and nothing behind it moves |
| `OutboxOverflow.RejectionsReach` | tram/agent/journal.py:1005-1028 | from a fresh journal with one completion, n rejecting passes spaced by the cap leave the row with exactly n failures, for every n up to 1024 |
| `OutboxOverflow.RejectionsBlock` | tram/agent/server.py:994-1042 | so the blocking state is reached: after 1024 of them every later pass raises and changes nothing |
| `OutboxOverflow.PassCutShortIff` | tram/agent/server.py:994-1042 | a pass over rows with distinct sequence numbers is cut short exactly when it meets a rejected row that failed 1024 times |
| `OutboxOverflow.MovesKeepSeqs` | tram/agent/journal.py:960-976 | in every run outbox sequence numbers are distinct and below the next one |
| `OutboxOverflow.StepKeepsSeqs` | tram/agent/journal.py:960-976 | every journal transaction, the raw enqueue included, keeps them so |
| `OutboxOverflow.ReachablePassCutShortIff` | tram/agent/server.py:970-1042 | hence in every reachable journal a pass that runs alone is cut short exactly when its batch has a rejected row that failed 1024 times |
| `OutboxOverflow.RejectionRaisesIff` | tram/agent/server.py:994-1042 | with passes overlapping, recording the rejection of a held row raises exactly when the row is gone from the outbox or has failed 1024 times |
| `OutboxOverflow.LateRejectionRaises` | tram/agent/journal.py:1005-1028 | a run in which a row that one pass has acked raises for the other pass that still held it |
| `OutboxPass.EachRowSettled` | tram/agent/server.py:994-1042 | whatever the manager answers, a pass without an overflowing row sends each row once: accepted rows leave and their results are acked now, rejected ones stay backed off, no other row or result changes |
| `OutboxPass.ReachablePassSettles` | tram/agent/server.py:970-1042 | so it is in every reachable journal for the ten first due rows |
| `AuthTokens.PayloadInjective` | tram/agent/auth_tokens.py:56-97 | separator-free fields with the same payload text are the same fields |
| `AuthTokens.PartsSeparatorFree` | tram/agent/auth_tokens.py:56-97 | the payload is separator-free as soon as its four text fields are |
| `AuthTokens.MintThenValidate` | tram/agent/auth_tokens.py:100-163 | validating a minted token under its secret as current or previous returns exactly the minted fields |
| `AuthTokens.AcceptedIffCertified` | tram/agent/auth_tokens.py:120-163 | a token is accepted exactly when it is seven fields plus that payload's signature under the current or previous secret, for this session and inside the time bounds |
| `AuthTokens.JudgedOnItsFields` | tram/agent/auth_tokens.py:120-163 | a spelled-out token is judged on its own fields and signature only |
| `AuthTokens.ParseIntOfText` | tram/agent/auth_tokens.py:120-163 | reading back the decimal text of an integer gives the integer |
| `AuthTokens.ParsesIff` | tram/agent/auth_tokens.py:120-163 | a field is read as an integer exactly when it is blanks, a sign, digits with single underscores between them, and blanks |
| `AuthTokens.TokenLayout` | tram/agent/auth_tokens.py:56-97 | the seven fields in wire order, their separators, and the signature of exactly that text |
| `AuthTokens.MintRefusedIff` | tram/agent/auth_tokens.py:56-97 | minting is refused exactly when one of the four text fields has a separator |
| `AuthTokens.MalformedReasons` | tram/agent/auth_tokens.py:120-163 | the reason for a token without a separator, with a wrong number of fields, or with a field that is no integer |
| `AuthTokens.RejectionReasons` | tram/agent/auth_tokens.py:120-163 | the reason for every other refusal, in order: secret, MAC text, signature, session, issue time, lifetime, expiry |
| `Timestamps.IsoOrderIsTimeOrder` | tram/agent/journal.py:465-475 | text order of UTC ISO stamps is time order for every pair, with or without microseconds |
| `Timestamps.FractionOrder` | tram/agent/journal.py:997-1002 | at equal seconds the stamp without a fraction sorts first, because '+' sorts before '.' |
| `Timestamps.DateOrder` | tram/agent/journal.py:1249-1261 | calendar dates, leap years included, are ordered as their day numbers |
| `Timestamps.StampText` | tram/agent/journal.py:465-475 | the text is year-month-day, T, hour:minute:second, a six-digit fraction unless it is zero, and the UTC offset, each field reading back as its value |
| `Handshake.Secrets.Rotate` | tram/agent/server.py:1402-1404 | the fresh secret becomes current and the one before it previous |
| `Handshake.SecretKnownIff` | tram/agent/server.py:1384-1431 | the manager's secret is current or previous exactly while at most one reply was lost since the last received |
| `Handshake.ManagerTokenAccepted` | tram/agent/worker_pool.py:440-496 | so any in-bounds token the manager mints then is accepted with exactly its fields |
| `WorkerState.State.AddRun` | tram/agent/server.py:339-382 | the dictionary and the index after an add, with a present key keeping its place |
| `WorkerState.State.RemoveRun` | tram/agent/server.py:339-382 | the entry goes and the index is moved only if it pointed there |
| `WorkerState.State.ReindexRun` | tram/agent/server.py:339-382 | the scan finds the first remaining entry of the run, or drops the run from the index |
| `WorkerState.State.GetRun` | tram/agent/server.py:339-382 | lookup through the index, falling back to the run id as key |
| `WorkerState.IndexAnswers` | tram/agent/server.py:339-382 | for all adds and removes the index never dangles, covers every live run and answers with the last added attempt until it is removed |
| `WorkerState.FiledIff` | tram/agent/server.py:339-382 | over every run an attempt is filed exactly when it was added and its key was not added or removed since |
| `WorkerState.AttemptAnswersItself` | tram/agent/server.py:339-382 | asked by attempt id, a filed attempt answers itself |
| `WorkerState.SupersededRemovalIsInvisible` | tram/agent/server.py:339-382 | removing an attempt that the index does not answer with changes the answer for no run id |
| `WorkerState.ReindexIsNewestIff` | tram/agent/server.py:250-260 | over runs that add no live attempt again, the attempt added first among those left answers after the indexed one ends, which is the newest exactly when one is left |
| `WorkerState.ReindexIsFirst` | tram/agent/server.py:370-377 | the index moves to the first remaining dictionary entry of the run, or drops the run |
| `WorkerState.ReaddedAttemptAnswers` | tram/agent/server.py:343-349 | an attempt added again while live keeps its place and so can answer as first and last added at once |
| `WorkerState.OldestAnswersAfterNewestEnds` | tram/agent/server.py:339-382 | three attempts, the third ends: the first answers, not the second |
| `Fairness.SkipBound` | tram/agent/worker_pool.py:525-569 | under any loads, tie-breaks and counters, with n at most threshold + 1 no worker is skipped more than threshold + n - 1 times in a row |
| `Fairness.HeavyWorkerNeverChosen` | tram/agent/worker_pool.py:525-569 | with n at least threshold + 2 a heavier worker is skipped in runs of every length, whatever the tie-break |
| `Placement.PickIsEligible` | tram/agent/worker_pool.py:528-569 | the worker chosen by filtering, minimum, sort and round robin is a least loaded one of the starved tier, or of all when none is starved |
| `Fairness.BumpKeepsOthers` | tram/agent/worker_pool.py:567-568 | workers that are not candidates keep their counters |
| `Placement.SortAscending` | tram/agent/worker_pool.py:545-546 | the sorted ties are an ascending permutation |
| `Placement.NoWorkerStarves` | tram/agent/worker_pool.py:525-569 | the bound for the pool's own decisions under arbitrary loads |
| `Placement.HeavierWorkerStarves` | tram/agent/worker_pool.py:525-569 | the failure for the pool's own decisions from fresh counters |
| `Placement.FourthWorkerNeverChosen` | tram/agent/worker_pool.py:525-569 | threshold 2, loads 0, 0, 0, 1: the fourth worker is never chosen |
| `Placement.LevelPick` | tram/agent/worker_pool.py:545-549 | with equal loads and nobody starved the choice goes by turn through the sorted workers |
| `Placement.RoundRobinTakesAll` | tram/agent/worker_pool.py:545-569 | n successive decisions under equal loads with nobody near starvation choose all n workers, by turn from the round-robin counter |
| `WorkerPool.Pool.SelectOne` | tram/agent/worker_pool.py:510-569 | the loops choose the specified worker and move the skip counters and the round-robin counter as specified; nothing moves without a healthy worker |
| `WorkerPool.Pool.StarvedTier` | tram/agent/worker_pool.py:531-543 | the starved workers in order, or all when there are none |
| `WorkerPool.Pool.LeastScore` | tram/agent/worker_pool.py:545-545 | the least load of the tier |
| `WorkerPool.Pool.CountSkips` | tram/agent/worker_pool.py:567-569 | the chosen worker's counter is reset and every other healthy one grows by one |
| `WorkerPool.Pool.RecordProbe` | tram/agent/worker_pool.py:342-391 | health, failure count and pending refresh after a probe, and reaping exactly on the step from healthy to down |
| `WorkerPool.Pool.RegisterWorkerSession` | tram/agent/worker_pool.py:867-898 | the reply's session and secret replace the worker's |
| `WorkerPool.Pool.ConcludeRefresh` | tram/agent/worker_pool.py:393-402 | the refresh ends, and the worker is usable, only if the registered session is the awaited one |
| `WorkerPool.Pool.RecordAssignment` | tram/agent/worker_pool.py:1045-1052 | the three maps after a dispatch or an adoption, worker lists staying free of repeats |
| `WorkerPool.Pool.OnRunComplete` | tram/agent/worker_pool.py:1354-1367 | the run goes, its pipeline goes exactly with its last run, and by `CompleteTouches` no other run and no other list moves |
| `WorkerPool.Pool.ReapAssignments` | tram/agent/worker_pool.py:1381-1398 | the loop over the down worker's runs equals removing them all at once |
| `PoolHealth.HealthyIff` | tram/agent/worker_pool.py:342-402 | in every reachable state a worker is healthy exactly when its failures are below the limit and no refresh is pending |
| `PoolHealth.MintNamesNewestSession` | tram/agent/worker_pool.py:1025-1035 | a minted token names the newest session heard of for that worker, with no refresh pending |
| `PoolHealth.DownAfterLimitFailures` | tram/agent/worker_pool.py:366-376 | a healthy worker that stops answering is down after exactly the limit of probes |
| `PoolHealth.HealthyIffNotLost` | tram/agent/worker_pool.py:342-391 | over every run a worker is healthy exactly when no refresh is pending and neither did its last `limit` probes fail nor every probe since a failed start-up one |
| `PoolHealth.MintAnswersIff` | tram/agent/worker_pool.py:1025-1035 | a mint answers with a session exactly when that one is registered and no refresh is pending |
| `PoolHealth.StepTouchesOneWorker` | tram/agent/worker_pool.py:299-402 | no event changes health, session, pending refresh or observed session of another worker |
| `PoolHealth.GoodProbeHeals` | tram/agent/worker_pool.py:350-394 | a good probe without news makes the worker healthy with no failures, and a handshake follows exactly if it was not |
| `PoolHealth.FailedProbeCounts` | tram/agent/worker_pool.py:362-372 | a failed probe adds one failure, or the limit at start-up, and takes a healthy worker down exactly at the limit |
| `PoolHealth.NewSessionFencesOff` | tram/agent/worker_pool.py:346-361 | a good probe that names another session, or any while a refresh is pending, fences the worker off and awaits that session |
| `PoolHealth.ReturnsIffHandshakeAgrees` | tram/agent/worker_pool.py:389-402 | after probe, reply and conclusion the worker is healthy, unfenced and minted for exactly when the reply named the session the probe saw, with a secret |
| `PoolHealth.StepKeepsInv` | tram/agent/worker_pool.py:299-402 | probes, replies, conclusions and concurrent registrations in any order keep the invariant |
| `PoolRuns.AssignKeepsInvIff` | tram/agent/worker_pool.py:841-848 | recording a dispatch keeps the maps in step exactly when it leaves no pipeline without its last live run |
| `PoolRuns.MovedRunLeavesOrphan` | tram/agent/worker_pool.py:1045-1052 | a run dispatched for one pipeline and again for another leaves the first one's worker list behind |
| `PoolRuns.CompleteKeepsInv` | tram/agent/worker_pool.py:1354-1367 | completion keeps the maps in step; every other run keeps its worker, its pipeline and that pipeline's worker list |
| `PoolRuns.CompleteTouches` | tram/agent/worker_pool.py:1354-1367 | one run is forgotten; a pipeline loses its list exactly if that was its last live run; every other run, pipeline and list is as before |
| `PoolRuns.AssignTouches` | tram/agent/worker_pool.py:1045-1052 | the run's worker and pipeline are recorded, the worker is listed once behind those listed, and nothing else changes |
| `PoolRuns.ReapTouches` | tram/agent/worker_pool.py:1381-1398 | exactly the runs on that worker are forgotten |
| `PoolRuns.ReapTouchesList` | tram/agent/worker_pool.py:1381-1398 | a pipeline stays listed exactly if it has a run elsewhere, and its list loses the worker exactly if it had a run there |
| `PoolRuns.WithoutTakesOut` | tram/agent/worker_pool.py:1392-1394 | taking a worker out of a list without repeats leaves the others in order |
| `PoolRuns.AssignedIff` | tram/agent/worker_pool.py:1354-1398 | over every run a run id is assigned exactly when, since its last dispatch, it has neither completed nor lost that dispatch's worker, and it is assigned to that worker |
| `PoolRuns.ReapKeepsInv` | tram/agent/worker_pool.py:1381-1398 | reaping keeps the maps in step, leaves no run on the down worker and touches no other run |
| `PoolRuns.BookkeepingInStep` | tram/agent/worker_pool.py:1045-1052 | with run ids bound to pipelines, the run maps have the same keys, the pipeline map lists exactly the pipelines with a live run and is no larger than the live runs, and each run's worker is listed |
| `BridgeQueue.Queue.TryPut` | tram/connectors/bridge.py:78-97 | an item is appended exactly when both bounds leave room |
| `BridgeQueue.Queue.TryGet` | tram/connectors/bridge.py:55-68 | the oldest item is taken and its bytes given back |
| `BridgeQueue.AccountingAndFifo` | tram/connectors/bridge.py:55-97 | in every interleaving the byte counter is the queued total, both bounds hold and items leave in the order they were accepted |
| `BridgeQueue.RoomIff` | tram/connectors/bridge.py:55-60 | there is room for an item exactly when the queue with it keeps both bounds |
| `BridgeQueue.UnsizedNeedsNoBytes` | tram/connectors/bridge.py:47-53 | an item without a length needs room by count only |
| `BridgeQueue.PutLaw` | tram/connectors/bridge.py:72-97 | a put, arriving, resuming or timing out, appends its item and notifies one consumer exactly when there is room, and otherwise sleeps if it may |
| `BridgeQueue.GetLaw` | tram/connectors/bridge.py:65-68 | a get takes the first item and notifies one producer exactly when there is an item, and otherwise sleeps if it may |
| `BridgeQueue.NoLostWakeup` | tram/connectors/bridge.py:78-97 | if every payload fits, no interleaving leaves the queue empty with a producer asleep and none notified, nor everybody asleep |
| `BridgeQueue.OversizedPutStalls` | tram/connectors/bridge.py:78-97 | a blocking put that does not fit stalls an empty queue and never finds room |
| `BridgeFairness.NobodyOverlooked` | tram/connectors/bridge.py:78-97 | without a byte bound, or with payloads of one size, no interleaving leaves a producer that fits asleep with nobody notified |
| `BridgeFairness.StepKeepsCovered` | tram/connectors/bridge.py:78-97 | every put, get and timeout keeps that the notified producers cover the free room |
| `BridgeFairness.MixedSizesOverlook` | tram/connectors/bridge.py:55-97 | with payloads of different sizes a get can notify a producer that still does not fit while one that fits sleeps on |
| `BridgeFairness.ThirtySleepsThroughRoom` | tram/connectors/bridge.py:55-97 | that run at a bound of 100 bytes, with 60 and 40 queued and 80 and 30 waiting |
| `RateLimit.LimiterRefinesLog` | tram/api/middleware.py:199-238 | over every interleaving of clients, cancellations and sweeps, a request is admitted exactly when fewer than the limit of its IP's earlier requests were admitted in the window |
| `RateLimit.OneLockPerIp` | tram/api/middleware.py:203-210 | two requests of one IP in flight always wait on the same lock |
| `RateLimit.EvictKeepsLogged` | tram/api/middleware.py:242-262 | eviction loses no admission that the window still counts |
| `RateLimit.EvictKeepsGuarded` | tram/api/middleware.py:254-262 | eviction drops no slot with a request in flight |
| `RateLimit.EvictionLaw` | tram/api/middleware.py:242-262 | above 500 windows a slot goes, whole, exactly when it has a lock, no request in flight and no admission within a minute and two windows; at or below nothing goes |
| `RateLimit.Limiter.EnterSlot` | tram/api/middleware.py:203-207 | a lock is created once per slot and the request counted in |
| `RateLimit.Limiter.DecideSlot` | tram/api/middleware.py:211-231 | the expiry loop and the decision under the lock |
| `RateLimit.Limiter.LeaveSlot` | tram/api/middleware.py:232-238 | the request is counted out, then the sweep |
| `RateLimit.Limiter.EvictIfLarge` | tram/api/middleware.py:242-262 | above 500 slots exactly the idle ones without a request in flight go |
| `Payloads.LaterCsvIsBody` | tram/connectors/file_sink_common.py:348-352 | splitting into lines and joining all but the first gives everything after the first line terminator |
| `Payloads.PayloadSize` | tram/connectors/file_sink_common.py:338-359 | a payload outgrows its chunk by at most the newline, and an opening payload is empty only for an empty chunk; the bytes themselves are in `ConcatOfWritten`, `PlainPartIsConcat` and `CsvPartByLines` |
| `Payloads.NdjsonEndsInNewline` | tram/connectors/file_sink_common.py:354-357 | every non-empty ndjson payload ends in the newline |
| `Payloads.EndsWithIff` | tram/connectors/file_sink_common.py:354-357 | a chunk ends in the newline exactly when it is some text followed by it |
| `Payloads.CsvPartByLines` | tram/connectors/file_sink_common.py:348-352 | by physical lines, a CSV part is the first line of its opening chunk and then all other lines of its chunks |
| `Payloads.FirstLineEnds` | tram/connectors/file_sink_common.py:348-352 | the first line is text without LF or CR up to the first LF, CR LF, lone CR, or the end |
| `Payloads.ConcatOfWritten` | tram/connectors/file_sink_common.py:338-359 | a part without header removal is the concatenation of its chunks, for ndjson each followed by the newline where a non-empty chunk lacks it |
| `Payloads.PlainPartIsConcat` | tram/connectors/file_sink_common.py:338-359 | for headerless CSV and other formats that is byte for byte the concatenation of the chunks |
| `CsvParts.RecordsConcatIff` | tram/connectors/file_sink_common.py:348-352 | two texts put together read as their own CSV records exactly when the first ends at a record end and no CR LF is put together |
| `CsvParts.ReadsBackIff` | tram/connectors/file_sink_common.py:348-352 | a CSV part, read by quote parity, gives the opening chunk's records and the rows of every later chunk exactly when later headers are one line and appends fall on record ends |
| `CsvParts.CsvPartHasOneHeader` | tram/connectors/file_sink_common.py:348-352 | it has one header and then rows only exactly when, besides, the opening chunk is not empty |
| `CsvParts.WrittenReadsBackIff` | tram/connectors/file_sink_common.py:348-352 | for chunks that end in LF outside quotes the one question is whether every later header is one line |
| `CsvParts.QuotedHeaderLeaks` | tram/connectors/file_sink_common.py:348-352 | a header with a quoted line break leaves its second half in the part |
| `CsvParts.UnterminatedFuses` | tram/connectors/file_sink_common.py:348-352 | a chunk without a final line terminator fuses with the next chunk's first row |
| `CsvParts.EmptyOpeningLosesHeader` | tram/connectors/file_sink_common.py:345-352 | an empty chunk followed by a header and a row leaves only the row |
| `Payloads.NdjsonPartKeepsRecords` | tram/connectors/file_sink_common.py:354-357 | reading an ndjson part back gives the records of its chunks in order |
| `Payloads.BorderedFuses` | tram/connectors/file_sink_common.py:354-357 | for a newline whose prefix is its suffix, a terminated chunk fuses with the next one |
| `Payloads.EmptyNewlineFuses` | tram/connectors/file_sink_common.py:354-357 | with an empty newline any two non-empty chunks become one record |
| `Payloads.RecordsSurviveIff` | tram/connectors/file_sink_common.py:354-357 | every two chunks read back as their own records exactly when the newline is not empty and has no such overlap |
| `FileNames.PartTextOrder` | tram/connectors/file_sink_common.py:114-116 | part numbers up to the cap have one width, are distinct, and sort as text in part order |
| `FileNames.PartTextReadsBack` | tram/connectors/file_sink_common.py:114-116 | a part number is digits that read back as the index, as wide as the cap or, past it, as the index |
| `FileNames.RenderJoins` | tram/connectors/file_sink_common.py:262-297 | names and state keys are made piece by piece, in template order |
| `FileNames.RenderOne` | tram/connectors/file_sink_common.py:229-297 | what each kind of piece contributes to the name and to the state key |
| `FileNames.RenderInjective` | tram/connectors/file_sink_common.py:262-297 | renderings with pieces of equal lengths are equal exactly when every piece is |
| `FileNames.SameKeySameValues` | tram/connectors/file_sink_common.py:229-246 | state keys are equal exactly when the template's stable fields have equal values |
| `FileNames.NamesSeparateParts` | tram/connectors/file_sink_common.py:262-297 | with the part number in the template and at most one token of varying width, field or clock, equal names mean the same part of the same state key |
| `FileNames.AdjacentFieldsCollide` | tram/connectors/file_sink_common.py:262-297 | two adjacent fields that cut one text differently are two state keys and one name, whatever follows them |
| `FileNames.XyzTwice` | tram/connectors/file_sink_common.py:262-297 | ("x", "yz") and ("xy", "z") under `{field.a}{field.b}_{part}` |
| `FileNames.PartsOfOneKeyDiffer` | tram/connectors/file_sink_common.py:262-297 | distinct parts of one state key have distinct names if all clock tokens but one keep their width |
| `TemplateNames.PartTemplateSeparates` | tram/connectors/file_sink_common.py:686-721 | over the keys and opening times in use, such a template gives every part a file of its own |
| `TemplateNames.OneKeySeparates` | tram/connectors/file_sink_common.py:686-721 | for one state key this needs no condition on its fields |
| `TemplateNames.NameUnderRoot` | tram/connectors/file_sink_common.py:686-721 | a part's file is the rendered template under the sink's root |
| `TemplateNames.AdjacentFieldsShareAFile` | tram/connectors/file_sink_common.py:686-721 | two state keys whose adjacent fields cut one text differently write to one file |
| `RollingWriter.Sink.WriteChunk` | tram/connectors/file_sink_common.py:723-791 | roll, open, stage, prepare and append leave exactly the writer whose rolls `PartsRollOnlyWhenForced` and whose bytes `KeyFilesHoldTheBytes` describe; refused past the cap, nothing for an empty payload |
| `RollingWriter.Sink.OpenPart` | tram/connectors/file_sink_common.py:678-721 | the next index is opened, or past the cap only the drop counter moves |
| `RollingWriter.Sink.AppendPayload` | tram/connectors/file_sink_common.py:778-790 | the prepared bytes go to the end of the open part's file and into its totals, or nothing changes |
| `RollingWriter.Sink.AddStagedTarget` | tram/connectors/file_sink_common.py:51-58 | a target is appended unless one with both paths is registered |
| `RollingWriter.AddTargetLaw` | tram/connectors/file_sink_common.py:51-58 | only a target with both paths registered is dropped; otherwise it is last |
| `WriterRuns.StepKeepsKeyInv` | tram/connectors/file_sink_common.py:742-791 | every write keeps each key's counters, open part, running totals, limits and logs in step |
| `WriterResults.RefusalIsFinal` | tram/connectors/file_sink_common.py:686-710 | once a write of a key was refused in a run, every later one is |
| `WriterResults.PartsHoldTheChunks` | tram/connectors/file_sink_common.py:742-791 | a key's chunks are those in its parts, in order, followed by the refused ones; each file is its part's bytes behind what it held before; no other file changes |
| `WriterResults.PartsWithinLimits` | tram/connectors/file_sink_common.py:317-335 | indexes run from 1 to at most the cap; over the record limit only with one counted write; two or more non-empty writes stay within the byte limit plus a newline; no write after the time limit; every refusal is counted once |
| `WriterRolls.PartsRollOnlyWhenForced` | tram/connectors/file_sink_common.py:317-335 | over every run the first chunk of each later part was forced out of the part before by its age, its records or its bytes, no chunk that joined a part was, and the first refused chunk was forced out of the last part unless no part is allowed |
| `WriterRolls.NoLimitsOnePart` | tram/connectors/file_sink_common.py:317-335 | without limits a key has at most one part, and it holds all its chunks |
| `WriterRolls.StepKeepsRollInv` | tram/connectors/file_sink_common.py:742-791 | every write keeps that, with the last part open until a chunk is refused |
| `WriterResults.KeyFilesHoldTheBytes` | tram/connectors/file_sink_common.py:742-791 | over every run without header removal, a key's files read in part order are its accepted chunks one behind the other: byte for byte, or newline-terminated for ndjson |
| `WriterResults.CsvFilesHaveOneHeader` | tram/connectors/file_sink_common.py:742-791 | in every run a CSV file has one header and then the rows of its chunks exactly under that condition on the part's chunks |
| `WriterResults.NdjsonKeyReadsBack` | tram/connectors/file_sink_common.py:742-791 | however a run is cut into parts, reading a key's files in order gives the records of its accepted chunks in order |
| `WriterResults.RunKeepsManifests` | tram/connectors/file_sink_common.py:825-835 | a unit's manifest lists exactly the parts of its keys |
| `Publication.TargetStaysRecoverable` | tram/connectors/file_sink_common.py:90-111 | whichever call fails, the content stays staged or under its final name, and a successful call leaves it there |
| `Publication.PublishedContent` | tram/connectors/file_sink_common.py:90-111 | a successful call leaves the staged file under the final name, or what stood there when none was staged; with neither it always fails |
| `Publication.AttemptKeepsInv` | tram/connectors/file_sink_common.py:72-87 | an attempt under any faults keeps all content recoverable and all confirmed finals, only adds confirmations, and confirms everything if it returns |
| `Publication.ReturnedMeansPublished` | tram/connectors/file_sink_common.py:72-111 | under any schedule of failures, an attempt that returns leaves every final file with exactly its staged content |
| `Publication.ConfirmedStays` | tram/connectors/file_sink_common.py:72-87 | a confirmed target stays confirmed and its file unchanged through every later run |
| `Publication.DiscardRemovesOnlyTemps` | tram/connectors/file_sink_common.py:904-923 | an abort removes the staged files of unconfirmed targets and nothing else |
| `Publication.AbortKeepsConfirmed` | tram/connectors/file_sink_common.py:904-923 | an abort after any run keeps every confirmed final as published |
| `Publication.OlderFinalSurvivesAbortIff` | tram/connectors/file_sink_common.py:484-493 | over any run of attempts, an older file under a final name survives an abort exactly when no attempt displaced it |
| `Publication.RenameThenAbortLosesBoth` | tram/connectors/file_sink_common.py:484-493 | a rename that fails after the unlink, then an abort: the older file and the staged one are both gone |
| `Publication.CleanAttemptReturnsIff` | tram/connectors/file_sink_common.py:484-493 | without faults an attempt returns exactly when no staged file waits for a taken name that may not be overwritten |
| `Publication.MissingTempConfirmsStaleFinal` | tram/connectors/file_sink_common.py:104-106 | a target never staged is confirmed on whatever final file exists |
| `Publication.FileSystem.Rename` | tram/connectors/file_sink_common.py:484-493 | unlink and rename with their failure points |
| `Publication.Manifest.PublishStaged` | tram/connectors/file_sink_common.py:90-111 | fsync, replace and directory fsync of one target, in order |
| `Publication.Manifest.PublishAll` | tram/connectors/file_sink_common.py:72-87 | the loop with its skips and early exit equals one specified attempt |
| `Publication.Manifest.DiscardAll` | tram/connectors/file_sink_common.py:904-923 | the loop equals the specified discard |
| `PublishedRuns.StagedPartIff` | tram/connectors/file_sink_common.py:755-790 | after any staged run a part's staging file exists exactly when the part received bytes, and holds just those |
| `PublishedRuns.UnitReadyIff` | tram/connectors/file_sink_common.py:755-790 | the unit is ready for publication exactly when each of its parts received bytes |
| `PublishedRuns.NonEmptyChunksGetBytes` | tram/connectors/file_sink_common.py:785-790 | a run that gives the unit no empty chunk leaves none of its parts without bytes |
| `PublishedRuns.PublishedFilesHoldTheChunks` | tram/connectors/file_sink_common.py:865-887 | end to end, for a unit whose parts all received bytes: whatever rolled and failed before, a returned attempt leaves the final file of every part with exactly the bytes of its chunks, and the parts hold the key's accepted chunks in order |
| `PublishedRuns.PublishedFilesHoldTheBytes` | tram/connectors/file_sink_common.py:865-887 | and so are the final files read in part order once a publication attempt returns |
| `PublishedRuns.EmptyChunkConfirmsStaleFinal` | tram/connectors/file_sink_common.py:785-786 | a unit opened by an empty chunk is never staged, and publication confirms an older file under its final name |

## Left out

- AuthTokens.AcceptedIffCertified: the integer fields are read as ASCII numerals; Unicode digits and spaces and the digit limit of Python's `int()` are not modelled, because no token the manager mints has them.
- WorkerPool.Pool.RecordProbe: does not model the active-run count, the running-pipeline list and the worker id maps, which a probe overwrites and no result here depends on.
- WorkerPool.Pool.RegisterWorkerSession: does not model the manager's retained previous secret and its deadline, which are stored but never used to mint.
- WorkerPool.Pool.RecordAssignment: does not model the active-run count of the worker.
- WorkerPool.Pool.OnRunComplete: does not model the active-run count and the attempt identities kept by run id.
- WorkerPool.Pool.ReapAssignments: does not model the active-run count and the attempt identities kept by run id.
- RollingWriter.Sink.WriteChunk: does not model `cleanup_stale_temp`, which removes staging files of other runs, nor single-file mode.
- CsvParts.ReadsBackIff: the reader goes by quote parity of a one-byte quote character; a stray quote inside an unquoted field, which the serializer never writes, is taken as a quote.
- Payloads.Records: the ndjson reader splits at the configured newline; TRAM's own parser, which splits at every line terminator, is not modelled.
- SQLite itself, quarantine, quota probing and file modes of the journal: tables are maps.
- HMAC and SHA-256 strength: the signature is an arbitrary function.
- HTTP, routing, threads, pipeline execution, logging and metrics: only success or failure of a call is a step.
- The worker's run endpoint beyond admitting a token before it starts the run.
- Broadcast placement (`count > 1`).
- The SFTP backend, and clearing of bookkeeping after a unit is finalised.
- Format specifications and conversions in file name templates; only plain fields are rendered.
- Durability: no claim that `publish_all` makes rolled, non-staged parts durable, because it fsyncs current paths only.
- Crash of the process during publication: the manifest is in memory, so runs of attempts stay within one process.
- `tram/agent/reconciler.py`, `file_tracker_client.py`, `metrics.py`, `stats_store.py`, `assets.py`, the CLI, alerts and configuration modules: batching, counters, wiring and user interface without state that these results rest on.
