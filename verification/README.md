# AgentTrial: a Dafny model of its durable jobs, evidence and exact algorithms

AgentTrial evaluates agents: a worker runs sealed trials against a target, a signer recomputes the
verdict and issues a signed receipt, and anyone can check the resulting bundle offline. This
project models the parts of it whose correctness is easiest to lose and proves what they promise.
`dafny verify dfyconfig.toml` checks all of it.

**The durable job protocol.** `JobQueue` is the fenced-lease protocol that PostgreSQL carries out
twice, for evaluation and for signing jobs; `Persistence` puts the two queues beside the revisioned
run rows; `Worker` is the attempt that drives one claimed job; `Signing` puts the signer on the store;
`Executions` builds concrete runs from the empty store. Each SQL statement or transaction is one
atomic step. A `class` holds the tables and its methods run the statements; each method is proved
equal to a step function `Next`, and the theorems speak of every sequence of steps, in any order,
under a clock that never goes back. `Authorization`, `Idempotency` and `RateLimit` model the
one-time authorizations (any number of requests suspended between their read and their
compare-and-swap, reading a clock of their own; `TokenHolders` says who can use them) and the two
services that exist both in memory and in SQL.

**The evidence core.** `Hashing`, `EventChain`, `EvidenceRoot`, `Bundle`, `Signer`, `Scoring` and
`Tamper` model the hash-chained events, the layered evidence root, the verifier, the signer, the
scorer and the portable research bundle; `Acceptance` says, condition by condition, when a bundle is
accepted, and what a forged one is reported as. SHA-256 and Ed25519 (section 5.1 of RFC 8032) are
parameters. Nothing is assumed of the hash but that a digest is 64 hexadecimal characters; a theorem
that needs collision resistance asks for it on the finitely many inputs that the bundles in question
hash, since no function into 64 characters is injective everywhere. The string layouts with their
`\0` separators are modelled character by character. The verifier's event list is any list of JSON
objects, because it is given uploaded files (`apps/web/components/receipt-verifier.tsx:17-35`).

**The exact algorithms.** `EditDistance`, `McNemar`, `Holm`, `Bootstrap`, `Keys` and `Redaction` give
each loop of the source an independent definition (recursive distance and edit scripts, Pascal's triangle
and the two-sided tail, an order-free Holm formula, path lookup) and prove the loop equal to it.
Integers and exact reals replace floating point.

`Wrappers`, `Numerals` and `Records` hold shared data types.

## Where the code does not keep the promise

Each of these is a theorem of the model: a condition that holds exactly when the promise is kept, a
reachable counterexample, or both.

- The verifier remembers a bad event by its id and later tests that value for truth, so a bad event
  whose id is absent, null, false, 0 or the empty text goes unnoticed, with everything after it
  (`Bundle.FalsyIdHidesTail`); an empty object is enough (`Bundle.EmptyObjectGoesUnnoticed`). The whole
  event list of an accepted bundle is a valid chain exactly when every event has a truthy id
  (`Bundle.AcceptedChainIsWholeIff`).
- `docs/limitations.md` promises bounded lease recovery. A recovered attempt replays from the enqueued
  run, while the leased save refuses any log shorter than the stored one. So, as long as it holds its
  lease, its saves are all accepted if the stored log was at most one event longer than the enqueued
  run's when the job was reclaimed, and all refused otherwise (`Worker.RecoverySucceedsIff`). In the
  second case giving up fails the job for ever and leaves the unfinished run where the earlier attempt
  left it (`Worker.RefusedRecoveryLeavesRow`), and this happens (`Executions.RecoveryCanFail`).
- A committed cancellation stays final exactly as long as nobody stages an unsigned result over it,
  adds the signing job that was missing, or enqueues the evaluation job that was missing when the
  cancellation committed (`Persistence.CancellationIsFinalIff`). The last case happens when the
  cancellation overtakes the enqueue (`Executions.CancellationCanBeUndone`).
- A signer that saves a completed run but loses its lease before finishing the job is followed by
  another, which finds no pending payload, rejects the run and overwrites the completed one as failed
  (`Executions.SignedRunCanBeOverwritten`). From any store where nobody else holds the signing job, some
  other signer can overwrite the run exactly when the job is queued or running with fewer than three
  attempts (`Signing.OverwritableIff`): finished, failed, cancelled and spent jobs are safe
  (`Signing.SafeFromOtherSigners`). The first signer's own rejection never overwrites what it saved
  (`Signing.SignerOutcome`).
- Nothing sweeps the signing queue: a signing job whose third lease runs out stays running for ever,
  exactly until a cancellation of its run commits (`Persistence.SpentSigningJobIsStuck`); three lost
  leases in a row get there (`Executions.SigningJobCanBeSpent`).
- Redaction assigns to `result[key]`, and assigning `__proto__` stores no field: such a field is lost
  although the detector finds nothing (`Redaction.PrototypeKeyIsLost`). Redaction changes nothing
  exactly when the detector finds nothing and no object has that key
  (`Redaction.UnchangedIffNothingFound`).
- The in-memory finalize ignores the expiry that the SQL finalize respects
  (`Idempotency.ExpiredFinalizeDiverges`); the answers differ exactly on an expired pending record that
  memory still holds (`Idempotency.RelatedStoresReply`).
- The two rate limiters agree exactly when the limit is at least 1 and the window lies between one
  second and 24 hours (`RateLimit.LimitersAgreeIff`).
- The write that would mark an authorization expired wants the expiry to lie ahead. It commits exactly
  while the record is as it was read and the database's clock is before an expiry that the
  application's clock had already reached when it read the record
  (`Authorization.ExpiryNeedsAheadClock`, `Authorization.AheadClockStoresExpired`); otherwise no record
  is ever stored as expired (`Authorization.ExpiredIsNeverStored`).

Two conditions are worth knowing although nothing is broken: tested and untested claims add up to all
claims exactly when no tested claim id is listed twice (`Scoring.ClaimsPartition`), and the in-memory
idempotency key, which joins its parts with a colon, would be ambiguous for a hash with a colon in it
(`Idempotency.ColonInHashSeparatesTheStores`) - but the routes pass hexadecimal digests only.

## Model

| member | source | states |
|---|---|---|
| JobQueue.Table.InsertJob | packages/runtime/src/persistence.ts:286-302 | a job row is added once; an existing row is left alone |
| JobQueue.Table.ClaimJob | packages/runtime/src/persistence.ts:317-343 | the claim takes a row the statement may pick (claimable, not locked by others, available longest), or none if there is none; the returned lease is issued and current |
| JobQueue.Table.RenewLease | packages/runtime/src/persistence.ts:345-352 | succeeds exactly for a current lease and then moves the lock time; otherwise nothing changes |
| JobQueue.Table.FinishJob | packages/runtime/src/persistence.ts:354-362 | succeeds exactly for a current lease and closes the job under its outcome; otherwise nothing changes |
| JobQueue.Table.CancelJob | packages/runtime/src/persistence.ts:363-368 | closes a queued or running job and no other |
| JobQueue.Table.SweepExhausted | packages/runtime/src/persistence.ts:304-315 | fails exactly the expired running jobs that have used up their attempts |
| JobQueue.Earliest | packages/runtime/src/persistence.ts:321-327 | among the candidates, one that has been available at least as long as every other |
| JobQueue.StepKeepsInv | packages/runtime/src/persistence.ts:304-362 | every statement keeps: running iff token and lock time are set and an issued lease holds the row, at most three attempts, token and attempt number identify an issued lease |
| JobQueue.LeaseLasts | packages/runtime/src/persistence.ts:317-352 | a claimed or renewed lease is current for exactly leaseMs from the statement on |
| JobQueue.RunningJobTimeline | packages/runtime/src/persistence.ts:304-343 | a running job is held before its lock time, claimable or sweepable after it, and neither at that instant |
| JobQueue.OneCurrentLease | packages/runtime/src/persistence.ts:345-362 | no two issued leases of a job pass the guard together |
| JobQueue.LossSurvivesStep | packages/runtime/src/persistence.ts:304-362 | a lease that fails the guard fails it after any one statement and at any later time |
| JobQueue.LossIsPermanent | packages/runtime/src/persistence.ts:304-362 | over every sequence of statements, a lease that failed the guard once never passes it again |
| JobQueue.AttemptsNeverFall | packages/runtime/src/persistence.ts:317-343 | over every sequence attempts only grow, to three at most, and the row of an ended job is never written again |
| JobQueue.GuardFollowsAttempts | packages/runtime/src/persistence.ts:317-362 | leases of a job pass the guard in strictly increasing attempt order, and an earlier one never after a later one |
| JobQueue.FinishesAtMostOnce | packages/runtime/src/persistence.ts:354-362 | after one successful finish of a job no finish of it succeeds, whatever lease it carries |
| JobQueue.EveryStatusIsExplained | packages/runtime/src/persistence.ts:286-368 | over every sequence from the empty table, each job has its status from the one statement meant to give it: queued by its insert, running by a claim whose worker and token it shows, finished by its holder without an error, failed by its holder with one or by a sweep after the third lease ran out, cancelled while queued or running |
| JobQueue.EmptyClaimMeansNoWork | packages/runtime/src/persistence.ts:317-343 | a claim that returns nothing passed over no work: every job it could see has ended, is under an unexpired lock, or has had three attempts |
| Persistence.Store.SaveRun | packages/runtime/src/persistence.ts:247-273 | a leased save writes, or is refused, exactly by revision and current lease; an unleased one never lowers the revision nor leaves CANCELLED |
| Persistence.Store.EnqueueRun | packages/runtime/src/persistence.ts:286-302 | refused at capacity; otherwise adds the run row and the job row if they are missing |
| Persistence.Store.FailExhaustedJobs | packages/runtime/src/persistence.ts:304-315 | the same sweep fails the jobs and marks their runs, keeping revisions |
| Persistence.Store.ClaimRun | packages/runtime/src/persistence.ts:317-343 | the claim on the evaluation queue, with the run rows untouched |
| Persistence.Store.RenewRunLease | packages/runtime/src/persistence.ts:345-352 | the renewal on the evaluation queue |
| Persistence.Store.FinishRunJob | packages/runtime/src/persistence.ts:354-362 | the finish on the evaluation queue |
| Persistence.Store.CancelQueuedJob | packages/runtime/src/persistence.ts:363-368 | cancels the job without touching the run row |
| Persistence.Store.CancelRunDurably | packages/runtime/src/persistence.ts:370-403 | with the right token and a run not yet ended, one transaction appends the cancellation event, closes both jobs and writes the run; otherwise nothing |
| Persistence.Store.StageSigningJob | packages/runtime/src/persistence.ts:571-575 | overwrites an existing run row without any guard |
| Persistence.Store.EnqueueSigningJob | packages/runtime/src/persistence.ts:576-578 | adds the signing job of an existing run once |
| Persistence.Store.ClaimSigningJob | packages/runtime/src/persistence.ts:580-597 | the claim on the signing queue |
| Persistence.Store.SaveSignedRun | packages/runtime/src/persistence.ts:599-611 | writes the run exactly under a current signing lease |
| Persistence.Store.FinishSigningJob | packages/runtime/src/persistence.ts:613-620 | the finish on the signing queue |
| Persistence.TraceKeepsInv | packages/runtime/src/persistence.ts:247-403 | in every state reached from one that satisfies it: revision is the snapshot's event count, the state column is the snapshot's state, both queues keep their protocol, no job lacks its run |
| Persistence.InitHoldsInv | packages/runtime/src/persistence.ts:138-238 | the empty database satisfies it |
| Persistence.RevisionNeverFalls | packages/runtime/src/persistence.ts:247-273 | no step lowers a revision except the two writes that carry no revision guard |
| Persistence.EveryRowIsExplained | packages/runtime/src/persistence.ts:247-403 | over every sequence from the empty store, each run row was written by one statement entitled to it: a cancellation with the run's own token before its end, a leased or signed write by the holder of the lease, an unleased one that neither lowered the revision nor left CANCELLED, a sweep after the third lease ran out |
| Persistence.QueuesFollowProtocol | packages/runtime/src/persistence.ts:317-362 | each queue, seen alone in any interleaving of all operations, goes through a run of the lease protocol |
| Persistence.LeasedWritesFollowAttempts | packages/runtime/src/persistence.ts:251-266 | successful leased snapshot writes of a run come in attempt order, and no write under an earlier lease succeeds after one under a later lease |
| Persistence.SignedWritesFollowAttempts | packages/runtime/src/persistence.ts:599-611 | the same law for signed writes |
| Persistence.LostLeaseDoesNothing | packages/runtime/src/persistence.ts:251-362 | once a lease failed the guard, its renewals, finishes and leased writes leave the whole store as it is, for ever |
| Persistence.CancelCommits | packages/runtime/src/persistence.ts:370-403 | a committed cancellation leaves the run CANCELLED, one revision further, and neither job queued or running |
| Persistence.FinalStep | packages/runtime/src/persistence.ts:247-403 | a cancelled, unclaimable run stays so over one step exactly unless the step is one of the three that revive it |
| Persistence.CancellationIsFinalIff | packages/runtime/src/persistence.ts:370-403 | over every sequence of steps the run stays cancelled and unclaimable exactly when no reviving step occurs |
| Persistence.LateEnqueueRevives | packages/runtime/src/persistence.ts:286-302 | after a cancellation that found no job row, a late enqueue of the run, a claim and a leased save carry the row out of CANCELLED, however short the enqueued log |
| Persistence.LostSigningLeaseDoesNothing | packages/runtime/src/persistence.ts:599-620 | once a signing lease failed the guard, its finishes and writes, a late rejection included, leave the whole store as it is |
| Persistence.FinishedSigningIsFinal | packages/runtime/src/persistence.ts:599-620 | after a successful finish of a signing job no signed write of its run ever succeeds again, under any lease |
| Persistence.SpentSigningJobIsStuck | packages/runtime/src/persistence.ts:580-597 | a signing job whose third lease ran out keeps its row for ever, exactly until a cancellation of its run commits |
| Worker.Attempt.Start | packages/runtime/src/index.ts:390-409 | the first attempt goes on from the loaded snapshot; a later one starts from the enqueued run with one more event, which is its first checkpoint |
| Worker.RecoveredSays | packages/runtime/src/index.ts:390-409 | a recovered run differs from the enqueued one by its state and one more event, which names the attempt that begins and the one given up |
| Worker.Attempt.Checkpoint | packages/runtime/src/index.ts:240-272 | a lost attempt writes nothing; a refused checkpoint makes the attempt lost |
| Worker.LastWriter | packages/runtime/src/persistence.ts:247-403 | over every interleaving that a lease survives, its run row is as it was or as the last effective write left it |
| Worker.Attempt.Renew | packages/runtime/src/index.ts:411-430 | a failed renewal makes the attempt lost; a lost attempt no longer renews |
| Worker.Attempt.SaveResult | packages/runtime/src/index.ts:436-439 | the final save happens only for an attempt that is not lost |
| Worker.Attempt.Finish | packages/runtime/src/index.ts:439-443 | a saved run closes its job under its own outcome, anything else as a failure, each only under a current lease |
| Worker.HolderKeepsRow | packages/runtime/src/persistence.ts:247-403 | while a lease stays current its run row changes only by its own saves and by the writes that no evaluation lease guards |
| Worker.FinishSealsSavedRun | packages/runtime/src/index.ts:431-443 | over every interleaving, the run row at a successful finish is what the last effective write since the final save put there, hence the saved snapshot if there was none, and the job keeps its outcome for ever |
| Worker.SaveAcceptedIff | packages/runtime/src/persistence.ts:251-266 | over every interleaving, lease-less writes included, a leased save is accepted exactly when its lease is current and its log is not shorter than what the last effective write left, or than the row if there was none |
| Worker.FirstSaveIff | packages/runtime/src/index.ts:394-409 | the first checkpoint of a recovered attempt that holds its lease is accepted exactly when, at its claim, the stored log was at most one event longer than the enqueued run's |
| Worker.RecoverySucceedsIff | packages/runtime/src/index.ts:394-443 | under the same number at the claim every save of a recovered attempt that holds its lease is accepted, and otherwise none is, over every interleaving without effective lease-less writes of the run |
| Worker.RefusedRecoveryLeavesRow | packages/runtime/src/index.ts:394-443 | otherwise the attempt's finish fails the job for ever, and the run row stays as the earlier attempt left it until a cancellation or a lease-less write |
| Executions.RecoveryCanFail | packages/runtime/src/index.ts:394-443 | from the empty store: a second attempt's first checkpoint is refused under its current lease, its job fails and the unfinished run stays |
| Executions.CancellationCanBeUndone | packages/runtime/src/persistence.ts:286-302 | from the empty store: save, cancel, late enqueue, two claims and the second attempt's checkpoint leave the cancelled run in CREATED |
| Executions.SignedRunCanBeOverwritten | packages/runtime/src/index.ts:1440-1476 | from the empty store: a claimed attempt hands its result to the signer, a signer saves the completed run but finishes too late, and the next signer's rejection of it overwrites it as failed |
| Executions.SigningJobCanBeSpent | packages/runtime/src/persistence.ts:580-597 | from the empty store: three signers in turn lose their leases, and the job is left running with three attempts and an expired lock |
| Signing.OverwritableIff | packages/runtime/src/persistence.ts:580-611 | from any store that keeps the invariant and where nobody else holds the signing job, some continuation ends with an accepted write of the run by another signer exactly when the job is queued or running with fewer than three attempts |
| Signing.SafeFromOtherSigners | packages/runtime/src/persistence.ts:580-611 | otherwise, over every interleaving, no signed write of the run under another token is ever accepted |
| Signing.OtherSignerOverwrites | packages/runtime/src/persistence.ts:580-611 | in that case waiting, one claim and one save by a signer with any fresh token overwrite the run |
| Signing.SignerOutcome | packages/runtime/src/index.ts:1455-1473 | over every interleaving of a signer's own statements with others': if its finish succeeds so did its save and no signed write of the run is accepted afterwards; if it fails, its rejection and later finish change nothing |
| Signing.ProcessSigningJob | packages/runtime/src/index.ts:1440-1476 | undisturbed, the run completes exactly if its report validates and the lease is current; under a current lease the store then holds the run as it ended and the job has ended with it, otherwise the store is untouched |
| Authorization.Database.Issue | packages/runtime/src/authorizations.ts:127-206 | stores an issued record that expires ten minutes after the application's clock reading |
| Authorization.Database.Transition | packages/runtime/src/persistence.ts:786-799 | replaces the record exactly if the stored status is the expected one and the expiry lies ahead |
| Authorization.Database.Start | packages/runtime/src/authorizations.ts:208-215 | the read: refused unless token, status and expiry fit, otherwise the request is suspended with the record it read |
| Authorization.Database.CompleteVerify | packages/runtime/src/authorizations.ts:216-248 | accepted exactly if proof and card match and the swap commits |
| Authorization.Database.CompleteConsume | packages/runtime/src/authorizations.ts:250-267 | accepted exactly if the swap from verified commits |
| Authorization.Database.CompleteExpire | packages/runtime/src/authorizations.ts:213-215 | the attempted expiry write |
| Authorization.ReachableInv | packages/runtime/src/authorizations.ts:71-82 | under every interleaving of reads and swaps: columns agree with the record, status matches what has been committed, a suspended request whose status is still current holds the current record |
| Authorization.SingleUse | packages/runtime/src/authorizations.ts:208-267 | for arbitrarily differing clocks, at most one verification and one consumption ever commit, each consumption after a verification and before the expiry by the database's clock |
| TokenHolders.OnlyTheHolderCommits | packages/runtime/src/authorizations.ts:208-267 | over every interleaving, whoever commits a verification or a consumption earlier presented the token whose hash was issued, before the expiry; a verification also showed the issued document and card |
| TokenHolders.HolderCanVerify | packages/runtime/src/authorizations.ts:208-248 | after any execution that leaves it issued, presenting token, document and card before the expiry verifies the authorization, and changes this record in just status, proof and time |
| TokenHolders.HolderCanConsume | packages/runtime/src/authorizations.ts:250-267 | after any execution that leaves it verified, presenting the token before the expiry consumes it, and changes this record in just status and time |
| TokenHolders.IssuedForTenMinutes | packages/runtime/src/authorizations.ts:127-206 | a new challenge stands issued, untouched and valid for ten minutes of the application's clock, beside all earlier records |
| Authorization.NoLostUpdate | packages/runtime/src/persistence.ts:786-799 | comparing the status alone suffices: every committed swap overwrites exactly the record it was computed from, and the issued terms never change |
| Authorization.ExpiredIsNeverStored | packages/runtime/src/authorizations.ts:213-215 | unless some request reads a clock ahead of the database's, no execution stores the status expired |
| Authorization.ExpiryNeedsAheadClock | packages/runtime/src/authorizations.ts:213-215 | a suspended expiry write commits exactly while the record is as it was read and the database's clock is before its expiry, which the application's clock had reached, so that clock was ahead |
| Authorization.AheadClockStoresExpired | packages/runtime/src/authorizations.ts:213-215 | with a clock one millisecond ahead, an execution stores expired while the database still holds the record valid |
| Idempotency.MemoryStore.Reserve | packages/runtime/src/index.ts:125-143 | purges what has expired, then answers reserved, replay, pending or conflict |
| Idempotency.MemoryStore.Finalize | packages/runtime/src/index.ts:145-157 | fills in the run exactly for a pending record with the same request, expired or not |
| Idempotency.MemoryStore.Abandon | packages/runtime/src/index.ts:159-169 | removes exactly a pending record with the same request |
| Idempotency.SqlStore.Reserve | packages/runtime/src/persistence.ts:457-483 | inserts, reads the unexpired row, or deletes the expired one and starts over |
| Idempotency.SqlStore.Finalize | packages/runtime/src/persistence.ts:485-497 | fills in the run exactly for an unexpired pending row with the same request |
| Idempotency.SqlStore.Abandon | packages/runtime/src/persistence.ts:499-507 | removes exactly a pending row with the same request |
| Idempotency.StringKeyInjective | packages/runtime/src/index.ts:135 | without a colon in the hashes, equal joined keys mean equal scope and equal hash |
| Idempotency.ColonInHashSeparatesTheStores | packages/runtime/src/index.ts:135 | with a colon in a hash the stores answer differently |
| Idempotency.RelatedStoresReply | packages/runtime/src/index.ts:125-157 | stores with the same unexpired records give the same reserve answers, and different finalize answers exactly on an expired pending record that memory still holds |
| Idempotency.StoresStayRelated | packages/runtime/src/index.ts:125-169 | every ordered call sequence keeps the unexpired records of both stores equal, despite eager purging and lazy deletion |
| Idempotency.StoresAgree | packages/runtime/src/persistence.ts:457-507 | after any history on empty stores the next reserve, and the next finalize on an unexpired record, is answered alike |
| Idempotency.ExpiredFinalizeDiverges | packages/runtime/src/index.ts:145-157 | an expired reservation is finalized in memory and refused by SQL |
| Idempotency.FinalizedReplaysUntilExpiry | packages/runtime/src/persistence.ts:457-497 | once finalized, whatever follows, every matching reserve before expiry replays that run and every other conflicts, in both stores |
| Idempotency.ReservedForADay | packages/runtime/src/persistence.ts:457-497 | a new or expired key is reserved by the first call; for a day, whatever else is called, the same request is told to wait, another that it conflicts, and only a finalize of the same request succeeds; then the key is free - in the table and in memory |
| Idempotency.AbandonFrees | packages/runtime/src/persistence.ts:499-507 | an abandon frees the key of its own pending request at once and leaves every other answer as it was - in the table and in memory |
| Idempotency.SoloReserve | packages/runtime/src/persistence.ts:464-482 | the separate insert, select, delete and insert of one undisturbed reserve do what the reserve does as a whole |
| Idempotency.OneReservationPerWindow | packages/runtime/src/persistence.ts:464-482 | over every interleaving of single statements, two callers are told reserved for one key at least a full window apart, unless it was abandoned in between |
| RateLimit.MemoryLimiter.Consume | packages/security/src/index.ts:162-171 | opens a window, counts in it, or denies without counting |
| RateLimit.SqlLimiter.Consume | packages/runtime/src/persistence.ts:801-817 | opens a bounded window or counts in it, denying past the limit |
| RateLimit.LimitersAgreeIff | packages/runtime/src/persistence.ts:801-817 | both answer every call sequence identically exactly when limit >= 1 and the window needs no clamping |
| RateLimit.AtMostTwiceTheLimit | packages/runtime/src/persistence.ts:801-817 | a half-open interval of one window length admits at most twice the limit, from any starting state |
| RateLimit.MemoryAtMostTwiceTheLimit | packages/security/src/index.ts:162-171 | the same bound for the in-process limiter, for every limit and every window, from any state with positive counts |
| RateLimit.OneWindow | packages/runtime/src/persistence.ts:801-817 | for both limiters, from any state: once a call opens a window, because the key is new or its last window is over, the k-th call on the key before the end is admitted iff k is within the limit, with limit - k left and the same end, whatever happens on other keys; of n calls min(n, limit) are admitted |
| RateLimit.EveryWindow | packages/security/src/index.ts:162-171 | the same over every history of an empty store of either kind, where a window is over when the end that the last answer named has come: so a full key is admitted again |
| EventChain.EventIdInjective | packages/evidence/src/index.ts:51 | zero-padded event ids of different positions differ, at any number of digits |
| EventChain.EventIdText | packages/evidence/src/index.ts:51 | an id is evt_ and the number in decimal, padded to three digits and no further |
| EventChain.EventLog.Append | packages/evidence/src/index.ts:44-58 | appends one event that carries its position, its id, its predecessor's hash and its own hash |
| EventChain.SealedSays | packages/evidence/src/index.ts:44-58 | an appended event says exactly what the caller gave, beside position, id, the hash of the event before it or 64 zeros, and its own hash |
| EventChain.ScanChain | packages/evidence/src/index.ts:211-229 | returns the id, of whatever type, of the first event that is not linked and the head of the linked events before it |
| EventChain.AppendKeepsChain | packages/evidence/src/index.ts:44-58 | appending to a valid chain gives a valid chain |
| EventChain.AppendedIsLinked | packages/evidence/src/index.ts:44-58 | whatever is appended to an empty log, the scan accepts all of it |
| EventChain.HeadBindsChain | packages/evidence/src/index.ts:211-229 | two valid chains with the same head are equal, hence of equal length |
| EvidenceRoot.NextLayer | packages/evidence/src/index.ts:140-145 | the next layer hashes neighbours in pairs, the last one with an empty right child if alone |
| EvidenceRoot.ComputeRoot | packages/evidence/src/index.ts:137-147 | the loop ends and gives the recursive root, the empty list included |
| EvidenceRoot.SmallRoots | packages/evidence/src/index.ts:137-147 | the very texts that are hashed for no, one, two and three items, tags, separators, count and empty partner included |
| EvidenceRoot.TopBindsLayer | packages/evidence/src/index.ts:140-145 | layers of equal length with the same top are equal |
| EvidenceRoot.RootBindsItems | packages/evidence/src/index.ts:137-147 | equal roots mean the same items in the same order, for all lengths: the empty list, odd layers and the leaf, node and root tags included |
| Bundle.VerifyBundle | packages/evidence/src/index.ts:204-405 | the verdict is the list of all checks in order; valid means none failed, and the mismatch is the first that failed |
| Bundle.FirstInvalid | packages/evidence/src/index.ts:403-404 | none exactly if all checks hold, otherwise the name of the first that does not |
| Bundle.MismatchMeansDifferent | packages/evidence/src/index.ts:239-244 | no differing item hash and equal counts mean equal lists |
| Bundle.AcceptedChainIsWholeIff | packages/evidence/src/index.ts:211-231 | for any uploaded event objects: an accepted list is a valid chain to the signed head exactly when every event has a truthy id |
| Bundle.FalsyIdHidesTail | packages/evidence/src/index.ts:221-233 | behind the whole chain of any accepted bundle, any tail that starts with an event of falsy id is accepted, although the list is then no valid chain |
| Bundle.EmptyObjectGoesUnnoticed | packages/evidence/src/index.ts:221-233 | an empty object appended to the events of an accepted bundle is accepted |
| Bundle.ReceiptBindsContent | packages/evidence/src/index.ts:204-281 | two accepted bundles with the same receipt payload have the same report and the same checked events, and equal event lists if every event has a truthy id |
| Bundle.ReceiptBindsEvidence | packages/evidence/src/index.ts:258-266 | the signed evidence root alone forces equal evidence items in order |
| Bundle.TrustedPublicKeysAt | packages/evidence/src/index.ts:192-203 | exactly the keys neither revoked nor outside their validity at the date; none if the date does not parse |
| Acceptance.AcceptedIff | packages/evidence/src/index.ts:204-405 | acceptance in full: the signature verifies under the receipt's key, a trusted key equals it up to case, and each of chain head, item hashes, root, report, plan, seed, provenance, verdict, claims and anchored attachment is that of the bundle's own content |
| Acceptance.ChainCheckIff | packages/evidence/src/index.ts:211-237 | the chain check holds iff some number of leading events are numbered, named, linked and hashed up to the signed head, and the event after them, if any, has a falsy id |
| Acceptance.ForgedSignatureIsReported | packages/evidence/src/index.ts:363-368 | an accepted bundle under another signature that does not verify is rejected with first mismatch signature |
| Acceptance.UntrustedSignerIsReported | packages/evidence/src/index.ts:369-379 | an accepted bundle checked with no keys, or with keys of others, is rejected with first mismatch trusted-signer |
| Acceptance.ChecksInOrder | packages/evidence/src/index.ts:204-404 | which checks are made, and in which order they are reported |
| Acceptance.ClaimsCheckIff | packages/evidence/src/index.ts:339-357 | the receipt's claims one by one: versions, run, target, seed, mode by its three cases, key id, and score and coverage rounded to basis points |
| Acceptance.AttachmentCheckIff | packages/evidence/src/index.ts:380-394 | an anchored attachment names Base Sepolia and four hexadecimal words, and its payload hash is that of the fields it must be bound to |
| Acceptance.RegistryKeyIff | packages/evidence/src/index.ts:192-203 | a receipt's key is trusted at a date iff the registry has it, unrevoked, within its period, both ends included |
| Acceptance.RecomputedInPlanOrder | packages/evidence/src/index.ts:313-318 | the recomputed assertions are those of the observed trials, in plan order |
| Acceptance.EarliestObservationCounts | packages/evidence/src/index.ts:314-316 | of several observations of a trial the earliest counts |
| Acceptance.TestedClaimsAre | packages/evidence/src/index.ts:319-327 | a claim is tested iff a trial of it has an observation other than not tested |
| Signer.ValidatedIsOneToOne | packages/runtime/src/index.ts:1340-1362 | a validated report has exactly one observation per trial and one trial per observation |
| Signer.ValidateIff | packages/runtime/src/index.ts:1327-1375 | a report is validated iff plan hash, opened seed and provenance agree with the signer's own, claims and evidence have ids of their own, trials and observations correspond one to one, cited evidence exists, and verdict and score recompute |
| Signer.SignedEventsSay | packages/runtime/src/index.ts:1381-1399 | behind the run's events exactly three more, each with its state, type, message and detail |
| Signer.SignedBundleSays | packages/runtime/src/index.ts:1400-1435 | every field of the receipt and of the bundle around it |
| Signer.RejectedSays | packages/runtime/src/index.ts:1457-1472 | what the rejection event says |
| Signer.Run.AppendSignerEvent | packages/runtime/src/index.ts:1310-1325 | sets the state and appends one sealed event |
| Signer.Run.FinalizePendingRun | packages/runtime/src/index.ts:1377-1438 | refuses and leaves the run alone, or completes it with three more events and the signed bundle |
| Signer.Run.RejectPendingRun | packages/runtime/src/index.ts:1457-1472 | the run ends failed, without report or bundle, with one more event |
| Signer.Run.ProcessPendingRun | packages/runtime/src/index.ts:1440-1476 | whatever the outcomes of the leased save and of the finish: the run completes exactly if its report validates and both succeed, otherwise it ends failed without a bundle; its chain stays valid either way |
| Signer.SignedBundleIsAcceptedIff | packages/runtime/src/index.ts:1327-1438 | a validated report's signed bundle passes every check of the verifier exactly when report, mode and published key fit the run and the key is trusted |
| Scoring.OverallScore | packages/core/src/scoring.ts:30-65 | overall is the sum of the six rounded dimensions, lies in [0, 100] and within 0.3 of the unrounded score |
| Scoring.DimensionRange | packages/core/src/scoring.ts:36-43 | each dimension lies between 0 and its points and within half a tenth of its exact value |
| Scoring.DimensionFormula | packages/core/src/scoring.ts:36-47 | for any weights: each dimension is the passed share of its weight times 30, 20, 20, 15, 10 or 5, rounded half up to a tenth, 0 without weight; overall is their sum |
| Scoring.CoverageDecides | packages/core/src/scoring.ts:43-53 | coverage is the rounded percentage of listed claims that were tested; badge and confidence follow from it by their thresholds and the number of assertions |
| Scoring.CriticalIs | packages/core/src/scoring.ts:48-50 | critical findings are, in order, the descriptions of failed assertions on safety or of weight at least 3 |
| Scoring.UntestedIs | packages/core/src/scoring.ts:46 | untested claims are, in order, the ids of the listed claims not tested |
| Scoring.OrderIrrelevant | packages/core/src/scoring.ts:30-65 | reordering the assertions changes nothing but the order of the critical findings |
| Scoring.ScaleIrrelevant | packages/core/src/scoring.ts:36-43 | multiplying all weights by a positive factor changes no dimension and not the overall score |
| Scoring.PassingNeverHurts | packages/core/src/scoring.ts:36-48 | turning a failed assertion into a passed one lowers no dimension and not the overall score |
| Scoring.ClaimsPartition | packages/core/src/scoring.ts:44-47 | tested plus untested claims are all claims exactly when no tested id is listed twice |
| Tamper.VerifyPortable | packages/research/src/tamper.ts:113-165 | the loop reports the first mismatch in the order of the checks |
| Tamper.CreateBundle | packages/research/src/tamper.ts:60-111 | for every plan, events, assertions and metadata the created bundle carries them and is accepted |
| Tamper.AcceptedIff | packages/research/src/tamper.ts:113-165 | acceptance in full: every event in place, linked and hashed, every hash that of its document, every signed field that of the bundle, and the signature verifies |
| Tamper.TouchedEventIsLocated | packages/research/src/tamper.ts:116-126 | touching an event's index, link or hash is reported as that very field of that event |
| Tamper.ChangedPayloadIsLocated | packages/research/src/tamper.ts:135-164 | each of the seven signed fields that disagrees is reported under its own name, and a signature that does not verify as signature |
| Tamper.EditedEventIsLocated | packages/research/src/tamper.ts:174-180 | editing type or data of event k is reported at events[k].hash, for every k and length |
| Tamper.DeletedEventIsLocated | packages/research/src/tamper.ts:181-187 | deleting event k, not the last, is reported at events[k].index |
| Tamper.SwappedEventsAreLocated | packages/research/src/tamper.ts:188-194 | swapping events i < j is reported at events[i].index |
| Tamper.DeletedLastEventIsLocated | packages/research/src/tamper.ts:113-137 | deleting the last event, also the only one, is reported at evidenceRoot |
| Tamper.ChangedFieldIsLocated | packages/research/src/tamper.ts:195-238 | a changed plan, assertion list, root, build, key or metadata is reported under its own name |
| Tamper.LastBindsEvents | packages/research/src/tamper.ts:116-126 | the last hash of a valid chain determines all its events |
| Tamper.PayloadBindsContent | packages/research/src/tamper.ts:113-165 | two accepted bundles with the same signed payload differ at most in their signature bytes |
| EditDistance.WordErrorRate | scripts/mimo-demo-audio.mts:109-125 | the row overwritten in place ends with the recursive edit distance; the rate divides it by the expected length, at least 1 |
| EditDistance.Metric | scripts/mimo-demo-audio.mts:109-125 | the distance is zero iff the lists are equal, symmetric, satisfies the triangle inequality and lies between the length difference and the larger length |
| EditDistance.LeastScriptCost | scripts/mimo-demo-audio.mts:109-125 | the distance is the least cost of any script of insertions, deletions and replacements, and some script attains it |
| McNemar.ExactStep | packages/research/src/analysis.ts:25-31 | every division of the multiply-then-divide loop is exact |
| McNemar.Combination | packages/research/src/analysis.ts:25-31 | the loop computes Pascal's binomial coefficient, and 0 outside its range |
| McNemar.ExactMcNemar | packages/research/src/analysis.ts:33-41 | the capped doubled tail is the share of outcomes at least as imbalanced as the observed one |
| McNemar.CapCutsOnlyTies | packages/research/src/analysis.ts:40 | the doubled tail exceeds the whole distribution exactly when the two counts are equal |
| McNemar.PValueSymmetric | packages/research/src/analysis.ts:33-41 | swapping the two counts changes nothing |
| McNemar.PValueRange | packages/research/src/analysis.ts:33-41 | the p-value lies in (0, 1] and is 1 exactly when the counts differ by at most one |
| McNemar.AllOnOneSide | packages/research/src/analysis.ts:33-41 | n discordant pairs all on one side have p-value 2 in 2 to the n |
| McNemar.PValueFallsWithImbalance | packages/research/src/analysis.ts:33-41 | for a fixed total, more imbalance never raises the p-value |
| Holm.HolmAdjust | packages/research/src/analysis.ts:63-75 | the sorted loop with its running maximum stores the order-free adjusted value of every hypothesis, for any real values |
| Holm.RunningMaxIsAdjusted | packages/research/src/analysis.ts:69-73 | what is stored at a rank does not depend on how ties were sorted |
| Holm.AdjustedDecidesStepDown | packages/research/src/analysis.ts:63-75 | an adjusted value is at most alpha exactly when Holm's sequential procedure rejects the hypothesis |
| Holm.BetweenRawAndBonferroni | packages/research/src/analysis.ts:63-75 | never below the raw value, never above the Bonferroni value |
| Holm.KeepsOrder | packages/research/src/analysis.ts:71 | larger raw values get adjusted values at least as large, equal ones equal values |
| Holm.MonotoneInEveryPValue | packages/research/src/analysis.ts:63-75 | raising any of the p-values lowers no adjusted value |
| Holm.PermutationEquivariant | packages/research/src/analysis.ts:63-75 | permuting the hypotheses permutes the result, ties included |
| Bootstrap.PairedDifference | packages/research/src/analysis.ts:43-61 | the difference is (baseline-only minus agenttrial-only) over n and lies in [-1, 1]; it is undefined only without records |
| Bootstrap.GeneratorIsExactPermutation | packages/research/src/analysis.ts:77-80 | the product stays below 2^53 and the step permutes the 32-bit states, with an explicit inverse |
| Bootstrap.Generator.Pick | packages/research/src/analysis.ts:77-80 | one step of the state, and the pick that this state gives, written out over the integers |
| Bootstrap.DrawIff | packages/research/src/analysis.ts:77-80 | a pick is i exactly when the next state, times the bound, lies in the i-th stretch of 2^32 |
| Bootstrap.PicksAreUniform | packages/research/src/analysis.ts:77-80 | every index below the bound is picked from the floor or the ceiling of 2^32 / bound of the 32-bit states, so from at least one |
| Bootstrap.Group | packages/research/src/analysis.ts:87-91 | the configurations in order of first appearance, each with its records |
| Bootstrap.GroupsPartition | packages/research/src/analysis.ts:87-91 | the groups together hold every record exactly once |
| Bootstrap.Resample | packages/research/src/analysis.ts:96-102 | the nested loops draw as many groups as there are and resample each to its size, with the generator threaded through |
| Bootstrap.BlocksDrawn | packages/research/src/analysis.ts:96-102 | a sample is one block for each group: the group that the generator picked, and from it as many picked records as it has |
| Bootstrap.EstimatesDrawn | packages/research/src/analysis.ts:93-104 | the differences of as many samples as iterations, each from where the generator stopped before |
| Bootstrap.CountsAre | packages/research/src/analysis.ts:43-61 | the discordant counts are of the records with just those two outcomes |
| Bootstrap.HierarchicalBootstrap | packages/research/src/analysis.ts:82-112 | the interval is that of the specified resampling, zero without records |
| Bootstrap.IntervalIsOrdered | packages/research/src/analysis.ts:105-111 | -1 <= lower <= upper <= 1, and without iterations both are the observed difference |
| Bootstrap.BoundsAreOrderStatistics | packages/research/src/analysis.ts:105-111 | the bounds are the 2.5 and 97.5 per cent order statistics of the resampled differences, counted in the order drawn |
| Redaction.RedactGroundTruth | packages/research/src/target-adapter.ts:138-147 | the loop with its assignments gives the recursive redaction |
| Keys.ForbiddenIff | packages/research/src/target-adapter.ts:98-132 | a key is forbidden iff it spells one of the 27 listed names, whatever the case of its letters and whatever separators stand between them |
| Keys.SpellingIrrelevant | packages/research/src/target-adapter.ts:130-132 | inserting or deleting a separator and changing the case of a letter, anywhere in a key, never change whether it is forbidden |
| Redaction.RedactionIsExact | packages/research/src/target-adapter.ts:138-147 | a path that crosses no dropped key finds the redaction of what it found before; one that crosses a dropped key finds nothing |
| Redaction.FindsNothingIffFree | packages/research/src/target-adapter.ts:149-157 | the detector finds nothing exactly when no object anywhere owns a forbidden key |
| Redaction.DetectorListsExactly | packages/research/src/target-adapter.ts:149-157 | the detector lists exactly the written-out paths of the fields, anywhere inside, whose key is forbidden |
| Redaction.RedactedIsClean | packages/research/src/target-adapter.ts:138-157 | after redaction the detector finds nothing, and redacting again changes nothing |
| Redaction.UnchangedIffNothingFound | packages/research/src/target-adapter.ts:138-157 | redaction changes nothing exactly when the detector finds nothing and no object owns the prototype key |
| Redaction.PrototypeKeyIsLost | packages/research/src/target-adapter.ts:141-144 | a field under the prototype key is lost although the detector is silent |
| Redaction.ProjectionIsClean | packages/research/src/target-adapter.ts:311-333 | the forbidden-field error cannot occur |
| Redaction.LockedIff | packages/research/src/target-adapter.ts:197-203 | the entry's own locked values: its family, its case id, and its fault type if that contains an underscore |
| Redaction.CreateBlindedProjection | packages/research/src/target-adapter.ts:311-338 | never a forbidden-field error; a projection exactly when its text contains no locked value, otherwise a locked value it contains |

## Left out

- Deletion of expired database records (`persistence.ts:420-450`), which would remove rows under the theorems.
- Queue capacity under concurrent enqueues: the count takes no lock, while the model makes each enqueue atomic.
- `started_at`, `finished_at` and `updated_at`, which no guard reads.
- PostgreSQL's READ COMMITTED re-evaluation: a statement that waits for another transaction's row lock rechecks its condition on the new row but its subquery on its old snapshot. A leased save that waits for a cancelling transaction could thus pass its EXISTS test. Here statements do not overlap, and `Persistence.CancellationIsFinalIff` and `Authorization.ExpiredIsNeverStored` rest on that.
- Timers, promise order and abort signals of `processNextRun`: the attempt's calls may come in any order and at any time, which includes the orders the timers produce.
- Outside `Authorization` the database clock and the application clock are one clock, and each statement, transaction or in-memory call reads it once.
- Elements of an uploaded event list that are no objects: they act like objects without fields, except null, on which the source throws. The other parts of a bundle have the types that the source declares for them.
- Database errors: every statement completes. A failed renewal query counts as a lost lease in the source too.
- Foreign keys and migrations, except that a signing job needs its run.
- The bodies of SHA-256, Ed25519 and canonical JSON (section 3.2 of RFC 8785): parameters, with collision-freeness assumed on finite sets only. Key order in canonical JSON is modelled by comparing records field by field.
- The per-assertion tests of `assertions.ts:15-60` and its dotted field lookup: one deterministic function that signer and verifier share. Its result records are modelled.
- Floating-point rounding: scores, p-values and differences are exact reals, binomials exact integers, and the bootstrap positions use 25/1000 and 975/1000.
- `wilson` and the simulations of `power.ts`: floating point throughout.
- Detail texts of checks and messages of errors; a date in an anchored attestation that does not parse is a failed check here, while the source throws.
- Lower-casing in key and address comparisons covers ASCII, as do hexadecimal keys; in redaction the two other characters that lower-case to an ASCII letter are covered.
- Registration, revocation and storage of signing keys; attestation writes; the memory mode of authorizations, which has no compare-and-swap; local snapshot files.
- The fields `task` and `finalOutput` of a projection, which come from unredacted input; the adapters that build projections from particular data sets.
- The tampering classes change a bundle in place; here they build the changed bundle as a new value, for every index instead of the fixture's.
- Network fetching, DNS pinning, agent calls, on-chain encoding and the user interface.
- Idempotency.SqlStore.Reserve: runs its statements as one step; their interleaving is the subject of Idempotency.OneReservationPerWindow.
- Scoring.OverallScore: assumes positive weights, as the plans contain; with weights that sum to 0 or below the quotient has no such bounds.
- Worker.RecoverySucceedsIff: excludes, between the claim and the save, effective writes of the same run that carry no evaluation lease; the staging for the signer is one, and its order against checkpoints still queued is not fixed. Worker.SaveAcceptedIff covers every kind of write.
- Signer.Run.ProcessPendingRun: takes the outcomes of its two statements as given; what they can be on the store is the subject of Signing.SignerOutcome and Signing.ProcessSigningJob.
