# gocell adapters: protocol models and proofs

A Dafny model of the protocol cores of the gocell adapters. Tables are maps or sequences, SQL
statements are atomic steps on them, and PostgreSQL transactions are READ COMMITTED: a statement
sees committed rows and the transaction's own. Row locks, advisory locks and unique indexes are
explicit; a step that has to wait changes nothing. Advisory lock keys are an arbitrary function,
so hashes may collide. Each protocol is a total step function over arbitrary sequences of steps of
any number of participants. The theorems therefore speak of every interleaving, including roll
backs and calls that never finish. Beside the machines stand classes whose methods perform the
source's operations step by step, each proved against the machine or against a reference function.

| files | models |
|---|---|
| `Transactions.dfy` | nested RunInTx scopes on savepoints, with the after-commit hook registry |
| `RefreshTokens.dfy`, `RefreshInvariants.dfy`, `RefreshTheorems.dfy`, `RefreshRows.dfy`, `RefreshStore.dfy`, `RefreshRevoke.dfy`, `RefreshRuns.dfy` | refresh token rotation with replay detection, as recommended in section 4.14.2 of RFC 9700, and the revocation of a session beside it |
| `AuditLedger.dfy`, `AuditVerify.dfy`, `LedgerStore.dfy` | the audit hash chain, its locked append and its range verifier |
| `Outbox.dfy`, `OutboxStore.dfy` | the outbox lease machine |
| `Checkpoint.dfy`, `CheckpointCommits.dfy`, `CheckpointStore.dfy` | the owner-fenced projection checkpoint |
| `Leader.dfy` | leader election by row time-to-live |
| `CommandQueue.dfy`, `CommandInvariants.dfy`, `CommandTheorems.dfy`, `CommandStore.dfy`, `CommandScopes.dfy` | the device command queue, also inside nested scopes of its callers |
| `Intake.dfy`, `Connection.dfy` | MQTT intake drain and connection state broadcast |
| `Labels.dfy`, `GaugeVec.dfy` | label keys and the bounded gauge cache |
| `Statements.dfy`, `OutboxWriter.dfy`, `Journal.dfy`, `JournalFailures.dfy`, `JournalStore.dfy` | batched outbox writes and the projection journal |
| `Options.dfy`, `Collections.dfy` | optional values, set sizes and the oldest of a set |

What the model takes as given: hash functions, UUIDs and JSON encodings are abstract functions or
fresh values; the database clock never runs backwards where leases depend on it; lease ids and
holder ids are fresh; callbacks are finite decision trees that may swallow or pass on every error
and every panic.

## Where the code and its promises part

- The ledger hashes an entry's times to the nanosecond (`framework/runtime/audit/ledger/protocol.go:222-223`)
  and stores them in columns that hold microseconds
  (`adapters/postgres/migrations/055_audit_entries_per_tenant_rls.sql:84-85`). The verifier rehashes what
  it reads. `AuditLedger.VerifiesIffWholeMicros`: a range verifies if and only if both times of every
  entry appended in it were whole microseconds, and the first position reported is the first that was
  not. `AuditLedger.NanosecondEntryFailsVerify` is a run of one append whose chain fails.
- A scope whose own context expires after its last statement returns an error from RELEASE without
  rolling back (`adapters/postgres/tx_manager.go:313-315`). If that context was derived for the
  scope alone, the enclosing callback can swallow the error and commit: rows and hooks of a failed
  scope survive. `Transactions.DerivedContextLeaks` is the example. `Transactions.RunInTx` says what
  is committed in every case; `Transactions.KeptIffNothingLeft` and `Transactions.HooksIffNoneLeft` say
  exactly when that is the work of the unfailed scopes alone. When every callback passes on the context
  it was given, it is.
- The reuse cascade runs on a connection of its own. `RefreshTheorems.OnlyPresenterBlocks`: it is blocked
  if and only if the presenting transaction has itself rotated an unrevoked token of the session before.
  Then it times out, the call fails, and the session is not revoked: `RefreshRuns.CascadeBlocksItself` is
  the run, in which the child of the reused token still validates. `RefreshTheorems.ReuseRevokesForGood` is
  about all other cases.
- RevokeSession takes no session lock (`adapters/postgres/refresh_store.go:573-579`). A rotation that has
  validated its token goes on to leave an unrevoked child (`RefreshRuns.RotationOutrunsRevoke`).
  `RefreshRevoke.RevokeSessionIff`: the session is revoked for good if and only if nothing of it was
  committed since the statement's snapshot and nothing of it is in flight. Under the session lock nothing
  of it is in flight elsewhere (`RefreshRevoke.ClearUnderLock`).
- The comment of WriteBatch says that nothing is written if any entry is invalid
  (`adapters/postgres/outbox_writer.go:132-135`). Oversized metadata and encoding failures are found
  only while a chunk is put together, and a payload that is not JSON only by the server, so an entry
  beyond the first 5400 fails after earlier chunks are in the table. `OutboxWriter.HalfWrittenBatch` is
  the example; `OutboxWriter.FailedBatchWritesNothing` is the exact condition. The caller's transaction
  has to be rolled back.
- If it is not rolled back, the journal falls behind the outbox: the decorator returns the error before
  it journals anything (`adapters/postgres/journaling_outbox_writer.go:85-90`). A server error aborts the
  transaction, a failure on the Go side does not. `JournalFailures.JournaledIffGapsUndone` is the exact
  condition over every run and `Journal.SwallowedFailureShows` the run that breaks it;
  `OutboxWriter.FailedBatchInStep` and `OutboxWriter.HalfWrittenBatchUnjournaled` say the same of one call.
- The cache key comment calls collisions impossible (`adapters/otel/metric_provider.go:177-182`). The
  validator compares label counts, so if a name is registered twice a label outside the key is
  accepted, and two label sets share a key. `Labels.KeyInjective` and `Labels.RepeatedNameCollides`
  together say: injective exactly when the registered names are distinct.
- A checkpoint transaction that takes the row ahead and then steps back as its owner commits a new
  owner at a lower offset (`Checkpoint.CommitMayLowerOffset`). The owner rule holds write by write
  (`Checkpoint.OwnerChangesRaiseOffset`). `CheckpointCommits.OwnerRuleIff`: for a transaction that
  advances a row to a sequence of offsets it holds commit by commit, in every run, if and only if the
  last offset is not below the first.
- The comment on the gauge vector allows one slot more than the cap for its map
  (`adapters/otel/metric_provider.go:298-300`); the overflow slot is a field of its own, so the map
  never passes the cap (`GaugeVec.Vec.With`).

## Model

| member | source | states |
|---|---|---|
| `Transactions.RunInTx` | adapters/postgres/tx_manager.go:193-265 | the outcome is that of the leaf the callback reaches, errors and panics kept apart: one that does not end well changes no row and runs no hook; on success the rows are those of replaying, and the hooks run are those of, exactly what no scope undid, which is the work of the unfailed scopes alone if and only if no expired scope outside an undone one left anything, and always when contexts are passed on; unless only the acknowledgement was lost, a failure changes no row |
| `Transactions.OutIsLeaf` | adapters/postgres/tx_manager.go:232-257 | for every tree: what comes out is the outcome at the leaf that the answers to its statements and scopes lead to |
| `Transactions.ScopeIsLeaf` | adapters/postgres/tx_manager.go:285-316 | a nested scope comes out as its leaf says; an error instead exactly if it cannot be entered, the transaction is down or the context expired |
| `Transactions.RunInSavepoint` | adapters/postgres/tx_manager.go:269-317 | the savepoint and mark protocol gives the outcome, rows and hooks of the value semantics of a scope, although rolled-back savepoints stay on the stack; savepoints below are untouched |
| `Transactions.RunFn` | adapters/postgres/tx_manager.go:193-317 | for every callback tree: the live transaction and registry stay in step with the reference evaluation |
| `Transactions.HookRegistry.TruncateTo` | framework/kernel/persistence/aftercommit.go:106-112 | drops what was registered after the mark and nothing else |
| `Transactions.RunKeeps` | adapters/postgres/tx_manager.go:278-316 | for every callback tree: a transaction that is live at the end has exactly the statements and hooks that were not undone |
| `Transactions.ScopeKeeps` | adapters/postgres/tx_manager.go:285-316 | a failing scope keeps nothing, unless its context expired before RELEASE; then it keeps all that its callback had not undone |
| `Transactions.KeptIffNothingLeft` | adapters/postgres/tx_manager.go:285-316 | over every tree of scopes: what stays is what the unfailed scopes did if and only if no expired scope outside an undone one did anything that stays |
| `Transactions.HooksIffNoneLeft` | adapters/postgres/tx_manager.go:285-316 | the same of the hooks that run |
| `Transactions.StaysDown` | adapters/postgres/tx_manager.go:269-317 | an aborted or lost transaction stays so until an enclosing scope rolls back |
| `Transactions.CancellationStays` | adapters/postgres/tx_manager.go:193-317 | when contexts are passed on, a cancellation is never undone, so a scope that expires and leaves something cannot be followed by a commit |
| `Transactions.DerivedContextLeaks` | adapters/postgres/tx_manager.go:313-315 | the concrete scope whose hook survives its error |
| `RefreshTheorems.ReuseRevokesForGood` | adapters/postgres/refresh_store.go:520-608 | unless the presenting transaction blocks itself: from the cascade on, in every continuation, every row of the session's lineages is revoked, no rotation adds an unrevoked one, and every such token is rejected, even if the presenting transaction rolls back |
| `RefreshTheorems.OnlyPresenterBlocks` | adapters/postgres/refresh_store.go:592-608 | in every reachable state the cascade is blocked if and only if the presenting transaction has itself written an unrevoked row of the session |
| `RefreshTheorems.GraceBudget` | adapters/postgres/refresh_store.go:63-75 | in every committed state the children of a row number used_times plus one if rotated, at most 1 + GraceMaxReuses; session, subject and epoch are inherited |
| `RefreshRows.RowsOnlyMoveForward` | adapters/postgres/refresh_store.go:63-100 | from every reachable state on, whatever happens, committed rows are never lost and keep lineage, verifier and deadlines; rotation, first use and revocation keep their time once set, and the use count never falls |
| `RefreshTheorems.CascadeBurns` | adapters/postgres/refresh_store.go:592-608 | a cascade that is not blocked catches everything in flight on the session |
| `RefreshTheorems.GraceRunsOut` | adapters/postgres/refresh_store.go:484-569 | a rotated parent is given grace exactly GraceMaxReuses times within the interval and is reuse otherwise |
| `RefreshInvariants.StepKeeps` | adapters/postgres/refresh_store.go:357-437 | every statement of Issue, Peek and Rotate keeps lineage, budget and lock invariants |
| `RefreshInvariants.CommitLeavesOthers` | adapters/postgres/refresh_store.go:419-437 | a commit leaves what other transactions read under their session lock valid |
| `RefreshStore.LockGuardsRow` | adapters/postgres/refresh_store.go:455-460 | once the session lock is free for a transaction, no other one has written the row |
| `RefreshStore.Store.Issue` | adapters/postgres/refresh_store.go:212-241 | starts a lineage whose root passes exactly with its verifier until its first deadline; epoch zero is refused |
| `RefreshStore.Store.Peek` | adapters/postgres/refresh_store.go:260-301 | in the columns of the row: denied exactly if the verifier differs, the token is revoked or a deadline has passed; else passed, or reuse if it was rotated and its interval or budget is over; no budget is used |
| `RefreshStore.Store.Rotate` | adapters/postgres/refresh_store.go:357-411 | the same answer; a passed token gets exactly one child, with its own verifier and deadlines counted from now, and is marked spent; nothing else changes in what the transaction sees; reuse revokes the whole session |
| `RefreshStore.Store.LockAndReread` | adapters/postgres/refresh_store.go:419-437 | the verdict is on the row as it is under the session lock |
| `RefreshStore.Store.RevokeSessionDetached` | adapters/postgres/refresh_store.go:592-608 | reuse is reported exactly when every committed row of the session is revoked |
| `RefreshStore.Store.InsertAndMark` | adapters/postgres/refresh_store.go:376-401 | adds the child and, on first rotation, sets rotated_at, and touches no other row |
| `RefreshRevoke.RevokeSessionIff` | adapters/postgres/refresh_store.go:573-579 | RevokeSession revokes the session's lineages for good, in every continuation of every run, if and only if its snapshot had all of them and nothing of them is in flight |
| `RefreshRevoke.CompleteRevokes` | adapters/postgres/refresh_store.go:573-579 | if so, every row of those lineages is revoked after any further steps |
| `RefreshRevoke.ClearUnderLock` | adapters/postgres/refresh_store.go:455-460 | a transaction without the session's lock has nothing of the session in flight |
| `RefreshRuns.RotationOutrunsRevoke` | adapters/postgres/refresh_store.go:376-394 | the rotation that leaves a valid token of a session that was just revoked |
| `RefreshRuns.CascadeBlocksItself` | adapters/postgres/refresh_store.go:592-608 | the transaction that rotates a token and presents it again after the interval: its cascade is blocked, and after its commit no row of the session is revoked and the child validates |
| `AuditVerify.VerifyChain` | adapters/postgres/audit_verify_core.go:36-49 | on any table whatever: valid exactly when every position is present, linked and rehashes, else the least bad position and its fault |
| `AuditVerify.VerifyBaseline` | adapters/postgres/audit_verify_core.go:54-74 | the hash the first position has to link to, or that there is none |
| `AuditVerify.VerifyRange` | adapters/postgres/audit_verify_core.go:82-129 | the row loop finds the least bad position, gaps at the end included |
| `AuditVerify.ReportUnique` | adapters/postgres/audit_verify_core.go:36-129 | the report is determined by the table and the range |
| `AuditVerify.VerifySplits` | adapters/postgres/audit_verify_core.go:36-129 | a range verifies exactly when both of its parts do, and the fault reported is that of the first bad part |
| `AuditVerify.TailFixesChain` | adapters/postgres/audit_ledger_store.go:287-290 | under a collision-free, never empty hash, chains with the same tail hash have the same length and the same hashed fields |
| `AuditVerify.TruncationDetected` | adapters/postgres/audit_verify_core.go:121-128 | a chain cut after k reports position k + 1 as missing |
| `AuditVerify.TraceIdNotCovered` | framework/runtime/audit/ledger/protocol.go:166-244 | changing trace ids changes no report |
| `AuditLedger.ChainsStayLinked` | adapters/postgres/audit_ledger_store.go:246-341 | in every interleaving every chain is numbered 1..n, has one row per event id, and every row carries the hash of what was sent onto the hash before it |
| `AuditLedger.VerifiesIffWholeMicros` | adapters/postgres/audit_verify_core.go:96-114 | under a collision-free hash a range of any reachable chain verifies if and only if both times of every entry were whole microseconds; else the first position that was not is reported |
| `AuditLedger.WholeMicrosVerify` | adapters/postgres/audit_verify_core.go:96-114 | under any hash such a range verifies |
| `AuditLedger.NanosecondEntryFailsVerify` | framework/runtime/audit/ledger/protocol.go:222-223 | the append after which its chain fails at position 1 |
| `AuditLedger.StoredIsSent` | adapters/postgres/migrations/055_audit_entries_per_tenant_rls.sql:84-85 | what is stored is what was hashed exactly for whole microseconds |
| `AuditLedger.StepKeeps` | adapters/postgres/audit_ledger_store.go:246-341 | every statement of Append keeps all chains well formed for every transaction's view |
| `AuditLedger.InsertNeverConflicts` | adapters/postgres/audit_ledger_store.go:246-307 | under the chain lock the INSERT never meets a taken position or event id, even with colliding lock hashes |
| `AuditLedger.TailIsLast` | adapters/postgres/audit_ledger_store.go:329-341 | the row with the highest position is the n-th |
| `LedgerStore.Store.Append` | adapters/postgres/audit_ledger_store.go:246-307 | waits exactly while another transaction has the chain's lock; duplicate exactly if a row of the chain has the very event id; else stores the entry as number n + 1 with the hash of what was sent onto the tail and its times cut to whole microseconds |
| `LedgerStore.Store.Tail` | adapters/postgres/audit_ledger_store.go:390-411 | length, hash and count of the chain agree: the hash of the last row, or the empty one of an empty chain |
| `Outbox.GrantsSettledOnce` | adapters/postgres/outbox_store.go:88-168 | over every run each (row, lease) grant is settled at most once by marks and sweep together, and only grants are settled |
| `Outbox.LostLeaseIsInert` | adapters/postgres/outbox_store.go:117-129 | a mark under a settled or never granted lease changes nothing |
| `Outbox.FinalRowsStay` | adapters/postgres/outbox_store.go:113-176 | published and dead rows never change, and only a cleanup of their own kind that picks them, with a cutoff after they became final, removes them |
| `Outbox.AbandonedRowDies` | adapters/postgres/outbox_store.go:131-168 | a row only claimed and abandoned is dead exactly from its maxAttempts-th reclaim on (the first, if the limit is lower), with the k-th delay min(base * 2^k, max) |
| `Outbox.BackoffGrows` | adapters/postgres/outbox_store.go:150-168 | delays never shrink and never exceed the cap |
| `OutboxStore.Store.Write` | adapters/postgres/outbox_writer.go:97-123 | a new row is pending, unclaimed and due at any time |
| `OutboxStore.Store.ClaimPending` | adapters/postgres/outbox_store.go:200-238 | claims and returns the first due unlocked rows, those without a retry time first, then by retry time, age and id; a row left out of a batch that is not full is locked, not pending or not due yet |
| `OutboxStore.Store.ClaimWritten` | adapters/postgres/outbox_store.go:200-238 | a row just written is in the next claim that has room, unless it is locked |
| `OutboxStore.Store.MarkPublished` | adapters/postgres/outbox_store.go:244-250 | settles the caller's grant exactly if the row is still claimed under its lease; only status and time change |
| `OutboxStore.Store.MarkRetry` | adapters/postgres/outbox_store.go:255-275 | likewise; the row is pending without a lease and due exactly from its delay on |
| `OutboxStore.Store.MarkDead` | adapters/postgres/outbox_store.go:279-288 | likewise; the row is dead and keeps its lease as a record |
| `OutboxStore.Store.ReclaimStale` | adapters/postgres/outbox_store.go:295-324 | takes the oldest claims that have outlived their time to live and settles their grants; each is dead with its last lease, or pending with the base delay doubled per attempt up to the maximum; no other row is touched |
| `OutboxStore.Store.CleanupPublished` | adapters/postgres/outbox_store.go:328-334 | removes published rows from before the cutoff, up to the batch size, and nothing else |
| `OutboxStore.Store.CleanupDead` | adapters/postgres/outbox_store.go:338-344 | the same for dead rows |
| `Checkpoint.OwnerChangesRaiseOffset` | adapters/postgres/projection_checkpoint_store.go:208-273 | in the committed history of every row each advance obeys the fence against the version it replaced, so owner changes strictly raise the offset |
| `Checkpoint.LockedGuardAgrees` | adapters/postgres/projection_checkpoint_store.go:23-57 | inside a transaction the UPDATE's guard neither waits nor rejects what the check accepted |
| `Checkpoint.UnlockedGuardMayReject` | adapters/postgres/projection_checkpoint_store.go:55-57 | without a transaction it does reject a caller that was overtaken |
| `Checkpoint.WriteAdvancesOrNothing` | adapters/postgres/projection_checkpoint_store.go:208-273 | a write step appends one fenced version of its own row or changes nothing |
| `Checkpoint.QuietAdvance` | adapters/postgres/projection_checkpoint_store.go:164-176 | an uninterrupted call decides exactly by the fence; the same owner may go back |
| `Checkpoint.ColdRaceLoserRejected` | adapters/postgres/projection_checkpoint_store.go:31-37 | of two cold claimants the later INSERT is rejected even if it is ahead |
| `Checkpoint.CommitMayLowerOffset` | adapters/postgres/projection_checkpoint_store.go:251-273 | the transaction that commits a new owner at a lower offset |
| `Checkpoint.CommitOfOneAdvance` | adapters/postgres/projection_checkpoint_store.go:251-273 | a transaction that wrote the row once changes its owner only by raising the committed offset |
| `CheckpointCommits.OwnerRuleIff` | adapters/postgres/projection_checkpoint_store.go:208-273 | a transaction advancing a row to any sequence of offsets changes the committed owner only by raising the committed offset, in every run, if and only if its last offset is not below its first |
| `CheckpointCommits.CommitOfAdvances` | adapters/postgres/projection_checkpoint_store.go:251-273 | its commit leaves the last offset, and the first one was above the offset of the owner it replaced |
| `CheckpointStore.Store.AdvanceIfOwner` | adapters/postgres/projection_checkpoint_store.go:208-273 | whatever others do between its two statements: accepted leaves its offset and token, rejected leaves nothing; in a transaction on an existing row, and whenever nobody comes in between, it is accepted exactly for the owner or an offset ahead |
| `CheckpointStore.Store.CommitTx` | adapters/postgres/projection_checkpoint_store.go:23-57 | adds the transaction's versions to each row's history, in order, and gives up its locks |
| `CheckpointStore.Store.RollbackTx` | adapters/postgres/projection_checkpoint_store.go:23-57 | leaves no trace of the transaction |
| `CheckpointStore.Store.SaveOffset` | adapters/postgres/projection_checkpoint_store.go:151-161 | moves the offset and never the owner |
| `CheckpointStore.Store.LoadOffset` | adapters/postgres/projection_checkpoint_store.go:128-143 | the offset of the newest version the caller can see, outside a transaction of the newest committed one; 0 before the first |
| `Leader.EpochsOnlyGrow` | adapters/postgres/reconcile_leader.go:37-66 | epochs never decrease and each keeps its holder and start for good |
| `Leader.OneHolderPerEpoch` | adapters/postgres/reconcile_leader.go:120-134 | all tokens of an epoch belong to one holder |
| `Leader.LiveWindowsDisjoint` | adapters/postgres/reconcile_leader.go:37-66 | no two epochs were ever live at the same instant |
| `Leader.RaisedOnlyWhenOver` | adapters/postgres/reconcile_leader.go:37-51 | an epoch is raised, by one, only by an acquire after the previous window ended |
| `Leader.Leases.AcquireLease` | adapters/postgres/reconcile_leader.go:120-134 | fails exactly against an unexpired lease of another; the epoch is kept exactly by the live holder and raised by one otherwise; it is above those of all other holders |
| `Leader.Leases.RenewLease` | adapters/postgres/reconcile_leader.go:138-147 | succeeds exactly for the live holder and keeps the epoch |
| `Leader.Leases.ReleaseLease` | adapters/postgres/reconcile_leader.go:152-157 | the lease is over a second ago: anybody may acquire at once, and nobody keeps the epoch |
| `CommandTheorems.PendingNeverAboveCap` | adapters/postgres/command_queue_store.go:227-264 | a device whose enqueues all use a cap of at most k never has more than k committed pending commands |
| `CommandTheorems.TerminalNeverChanges` | adapters/postgres/command_queue_store.go:404-431 | terminal commands never change, in every continuation of every run |
| `CommandTheorems.LeasesAndKeys` | adapters/postgres/command_queue_store.go:89-174 | a lease exactly while Sent or Delivered; at most one non-terminal command per key |
| `CommandTheorems.RowsFollow` | framework/kernel/command/status.go:88-93 | commands keep device and key and move only along the transition table |
| `CommandQueue.OnwardIffPath` | framework/kernel/command/status.go:88-98 | the order on statuses that this is about is reachability by transitions of the table |
| `CommandScopes.CapHoldsWithScopes` | adapters/postgres/command_queue_store.go:227-264 | the cap holds in every run in which callers also nest scopes around operations and roll them back |
| `CommandScopes.KeysUniqueWithScopes` | adapters/postgres/command_queue_store.go:165-174 | so do the lease rule and the uniqueness of keys, in what every transaction sees now and after a rollback to any of its savepoints |
| `CommandScopes.RowsFollowWithScopes` | framework/kernel/command/status.go:88-93 | and committed commands keep to the transition table |
| `CommandScopes.WorldSteps` | adapters/postgres/tx_manager.go:269-317 | a step with scopes is, wherever each transaction would roll back to, a step without scopes or none |
| `CommandScopes.RollbackRestores` | adapters/postgres/tx_manager.go:269-317 | whatever is done inside a scope, its rollback gives the transaction the rows, locks and savepoints it had when it opened it |
| `CommandScopes.LeaveKeeps` | adapters/postgres/tx_manager.go:269-317 | a released scope leaves everything that was done in it |
| `CommandScopes.OnlySavedKeysWait` | adapters/postgres/command_queue_store.go:165-174 | savepoints hold up nothing but the insert of a key that another transaction had under way at one of its own |
| `CommandScopes.WithoutScopes` | adapters/postgres/command_queue_store.go:199-483 | without scopes of the callers both machines run alike |
| `CommandInvariants.StepKeeps` | adapters/postgres/command_queue_store.go:227-483 | every statement of every operation keeps these for every transaction's view |
| `CommandInvariants.CommitKeepsKeys` | adapters/postgres/command_queue_store.go:165-174 | a commit brings no second holder of a key into any other transaction's view |
| `CommandStore.Store.Enqueue` | adapters/postgres/command_queue_store.go:199-328 | in the columns of the rows seen: coalesced exactly if a pending, sent or delivered command has the key, then conflict, unknown device, over the cap, or stored as a new pending command; it waits exactly while another transaction has the quota lock, has the key in the index of active commands, or is inserting the same id |
| `CommandStore.Store.EnforcePendingLimit` | adapters/postgres/command_queue_store.go:254-264 | rejects exactly when the device was at its cap before the insert |
| `CommandStore.Store.Dequeue` | adapters/postgres/command_queue_store.go:333-355 | claims the oldest free pending commands of the device, up to n, under a lease in the future |
| `CommandStore.Store.Report` | adapters/postgres/command_queue_store.go:360-387 | Sent becomes Delivered; Delivered keeps its first time; all else is an error and changes nothing |
| `CommandStore.Store.Conclude` | adapters/postgres/command_queue_store.go:404-431 | the row lock makes read and update one: steps of others in between do not change the outcome |
| `CommandStore.Store.Ack` | adapters/postgres/command_queue_store.go:392-431 | success, failure, timeout and rejection end a command as succeeded, failed, expired and canceled; a command that has that status already stays, one under way takes it unless it is pending and would succeed, all else is an error |
| `CommandStore.Store.Cancel` | adapters/postgres/command_queue_store.go:456-483 | succeeds exactly on non-terminal commands |
| `CommandStore.Store.ExtendLease` | adapters/postgres/command_queue_store.go:436-451 | succeeds exactly for Sent and Delivered commands |
| `Intake.DrainIsFinal` | adapters/mqtt/subscriber.go:610-639 | once a StopIntake returned nil no handler runs and none ever starts, in every interleaving |
| `Intake.CountsAreExact` | adapters/mqtt/subscriber.go:349-399 | the count is the number of deliveries not yet over, the semaphore the number of slot holders, never above its capacity |
| `Intake.Subscriber.Receive` | adapters/mqtt/subscriber.go:349-390 | a delivery is dropped only after the stop, and always then; a dispatched one holds a slot; it blocks only without slot and stop |
| `Intake.Subscriber.Work` | adapters/mqtt/subscriber.go:376-390 | the handler of a dispatched delivery runs once, then slot and count are given back |
| `Intake.StopIsFinal` | adapters/mqtt/subscriber.go:610-639 | what a StopIntake returned stays, and the intake stays closed |
| `Intake.Subscriber.StopIntake` | adapters/mqtt/subscriber.go:610-639 | returns nil only when every delivery is over, at once if all are over and at the next tick otherwise; an error only after the drain timeout or the end of its context |
| `Connection.NoLostWakeUp` | adapters/mqtt/connection.go:968-1001 | a sleeper on an open channel saw the current fields; once up, closed or rejected every sleeper is awake and returns exactly that |
| `Connection.OutcomeSentOnce` | adapters/mqtt/connection.go:351-365 | at most one bootstrap outcome is ever put on the channel, and the select never drops one |
| `Connection.ClaimIsDelivered` | adapters/mqtt/connection.go:323-365 | whatever else happens, the outcome of the emitter that claimed is all that ever is on the channel, so it is the one received |
| `Connection.ClosedForGood` | adapters/mqtt/connection.go:907-916 | after Close every caller that looks is told so |
| `Connection.ReturnedStays` | adapters/mqtt/connection.go:968-1001 | what a caller was told is never changed |
| `Connection.Client.Shut` | adapters/mqtt/connection.go:907-916 | sets the closed flag and wakes every sleeper; the second time it does nothing |
| `Connection.Client.OnConnectionUp` | adapters/mqtt/connection.go:381-392 | whoever looks now is told up (or closed), sleepers are woken, and only the first time an outcome is due |
| `Connection.Client.OnConnectionDown` | adapters/mqtt/connection.go:447-452 | callers wait again unless closed or rejected, and sleepers are woken |
| `Connection.Client.RecordPermanent` | adapters/mqtt/connection.go:514-519 | callers are told of the rejection unless closed, and sleepers are woken |
| `Connection.Client.EmitFirstOutcome` | adapters/mqtt/connection.go:351-365 | the first caller finds an unused channel and leaves its outcome there; later calls change nothing on it; nothing is dropped |
| `Connection.Client.WaitConnected` | adapters/mqtt/connection.go:968-1001 | closed first, then the rejection, then connected, as the fields say; asleep means none of them; cancelled only by its own context |
| `Labels.ValidateLabels` | framework/kernel/observability/metrics/metrics.go:192-209 | accepts exactly as many labels as names, all names present with values free of bars and equal signs |
| `Labels.BuildKey` | adapters/otel/metric_provider.go:183-198 | the buffer loop renders the pairs in registration order |
| `Labels.KeyInjective` | adapters/otel/metric_provider.go:177-198 | over distinct names valid label sets with one key are equal |
| `Labels.RepeatedNameCollides` | adapters/otel/metric_provider.go:177-198 | with any repeated name two different valid label sets share a key |
| `GaugeVec.Vec.Lookup` | adapters/otel/metric_provider.go:200-228 | admits a key exactly while there is room; the cache holds the first keys looked up |
| `GaugeVec.Vec.With` | adapters/otel/metric_provider.go:318-345 | the same gauge on every call, whatever other callers do between its two critical sections, and every other label set keeps its gauge; late keys share one; neither map passes the cap; misfit labels are rejected |
| `GaugeVec.Vec.Others` | adapters/otel/metric_provider.go:200-228 | how a key was decided survives any lookups, bindings and operations of other callers |
| `GaugeVec.Vec.Perform` | adapters/otel/metric_provider.go:364-399 | after any operations each admitted gauge has the last value of the unbounded map, the shared one that of all other operations; Set gives the value, Inc and Dec move it by one, Add by its argument |
| `GaugeVec.AdmittedSize` | adapters/otel/metric_provider.go:200-228 | min(distinct keys seen, cap) keys are admitted |
| `Statements.AppendPlaceholders` | adapters/postgres/outbox_writer.go:266-276 | one parenthesised tuple of consecutive parameters |
| `Statements.Render` | adapters/postgres/outbox_writer.go:186-216 | one tuple per row and the values row after row |
| `Statements.RenderedIsRead` | adapters/postgres/outbox_writer.go:186-216 | within 65535 parameters the server binds parameter i*cols+j+1 to column j of row i, so it proposes exactly the rows rendered |
| `OutboxWriter.Write` | adapters/postgres/outbox_writer.go:57-123 | adds the pending row, column by column, exactly if the entry is valid, its id neither blank nor zero, its metadata encodable within 64 KiB, its JSON taken by the server and its id new; otherwise changes nothing |
| `OutboxWriter.WriteBatchChunk` | adapters/postgres/outbox_writer.go:186-216 | never exceeds the parameter limit; adds all rows of the chunk or none, and says on which side it failed |
| `OutboxWriter.WriteBatch` | adapters/postgres/outbox_writer.go:141-177 | the validated, chunked write that the next two rows are about; an entry that is not sound refuses the batch before anything is written |
| `OutboxWriter.BatchIsOneByOne` | adapters/postgres/outbox_writer.go:141-177 | a batch succeeds exactly when writing one by one does, and leaves the same rows in the same order |
| `OutboxWriter.FailedBatchWritesNothing` | adapters/postgres/outbox_writer.go:132-177 | a failed batch leaves the table alone if and only if an entry is unacceptable or the first chunk does not fit |
| `OutboxWriter.HalfWrittenBatch` | adapters/postgres/outbox_writer.go:132-177 | the batch of 5401 entries whose last one fails on the Go side and that leaves 5400 rows |
| `OutboxWriter.AppendProjectionEvents` | adapters/postgres/journaling_outbox_writer.go:143-163 | chunked appends equal appending row by row; ids already there are skipped |
| `OutboxWriter.Filter` | adapters/postgres/journaling_outbox_writer.go:96-105 | the entries on projection topics, in order |
| `OutboxWriter.WriteBatchJournaled` | adapters/postgres/journaling_outbox_writer.go:85-90 | succeeds with the plain batch; then every projection row has its journal row and earlier journal rows have not moved; if it fails, the journal is as before and the outbox has what the plain batch left |
| `OutboxWriter.FailedBatchInStep` | adapters/postgres/journaling_outbox_writer.go:85-90 | after a failed batch the tables are in step if and only if an entry was unacceptable or every projection entry of the chunks written was journaled before |
| `OutboxWriter.HalfWrittenBatchUnjournaled` | adapters/postgres/journaling_outbox_writer.go:85-90 | the half-written batch leaves 5400 projection rows without a journal row |
| `OutboxWriter.WriteJournaled` | adapters/postgres/journaling_outbox_writer.go:76-81 | the same for one entry |
| `OutboxWriter.StillJournaled` | adapters/postgres/journaling_outbox_writer.go:96-116 | journaling the projection subset keeps outbox and journal in step |
| `OutboxWriter.JournalAgreesWithOutbox` | adapters/postgres/journaling_outbox_writer.go:193-213 | journal and outbox rows agree on every column they share |
| `JournalFailures.JournaledIffGapsUndone` | adapters/postgres/journaling_outbox_writer.go:76-163 | over every run: at all times every committed outbox row on a projection topic has its journal row if and only if every call that failed on the Go side with a projection row the journal did not know was undone by a rollback of a scope around it or of its transaction |
| `Journal.JournaledIffNothingSwallowed` | adapters/postgres/journaling_outbox_writer.go:76-163 | the same in terms of the rows that were committed without a journal row |
| `Journal.ExactlyOneJournalRow` | adapters/postgres/journaling_outbox_writer.go:76-163 | in every committed state no id has two journal rows, and each projection row that was not so swallowed has one |
| `Journal.SwallowedFailureShows` | adapters/postgres/journaling_outbox_writer.go:85-90 | the run that commits a projection row without a journal row |
| `JournalStore.Server.WriteOne` | adapters/postgres/journaling_outbox_writer.go:76-81 | waits exactly while another transaction has the id, is refused exactly if the id is taken, and otherwise adds the outbox row and, on a projection topic, one journal row at the next position unless the id has one |
| `JournalStore.Server.InsertRows` | adapters/postgres/outbox_writer.go:186-216 | all rows of the chunk or none; a taken id aborts the transaction |
| `JournalStore.Server.Fail` | adapters/postgres/journaling_outbox_writer.go:85-90 | a failure on the Go side leaves the rows of the call and a usable transaction; its gaps are exactly the projection rows without a position |
| `JournalStore.Server.CommitTx` | adapters/postgres/tx_manager.go:247-266 | all rows of both tables or, after an abort, none |
| `Journal.PositionsNeverMove` | adapters/postgres/journaling_outbox_writer.go:127-133 | committed journal rows keep their positions and ids stay unique, in every continuation |

## Left out

- `AuditVerify.TailFixesChain`: assumes the hash is collision-free and never empty; a real digest has these properties only in practice.
- `Outbox.AbandonedRowDies`: computes delays over integers; the overflow of power(2, n) in double precision is not modelled, nor are negative attempt counts given by a caller.
- `OutboxStore.Store.ClaimPending`: entries are row ids; decoding of the stored JSON columns is not modelled.
- `GaugeVec.Vec.Perform`: values are real numbers; floating-point rounding and the exported Record calls are not modelled.
- `Intake.Subscriber.StopIntake`: timers and the context are events given with the call; the UNSUBSCRIBE round trips before the poll are not modelled.
- `Transactions.RunInTx`: the tenant setting is a success flag; hook panics and logging are not modelled.
- `RefreshRevoke.RevokeSessionIff`: takes RevokeSession in a transaction of its own; one inside a caller's transaction holds its rows until that ends.
- `OutboxWriter.WriteBatch`: what JSONB accepts is an arbitrary predicate; other refusals of the server, such as NUL bytes in text columns, are not modelled.
- `AuditLedger.VerifiesIffWholeMicros`: assumes a collision-free hash; the direction without it is `AuditLedger.WholeMicrosVerify`.
- `RefreshRows.RowsOnlyMoveForward`: the garbage collection of the refresh store, which deletes expired rows, is not a step of the machine.
- RevokeUser of the refresh store: the same update by subject.
- GetBySeq, GetByID, Query and ScanActive: filters and row visibility, easy members.
- The order in which Dequeue returns its rows: the statement fixes only the claimed set.
- Route registration and resubscription of the MQTT connection: removal is by filter text.
- Counter and histogram vectors: the same cache without a last value.
- Schema guards, migrations, pool configuration, error classification tables, tracing, gRPC, OIDC and RabbitMQ adapters: long but shallow, or wrappers over libraries that are not visible.
