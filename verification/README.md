# Verified models of the XELIS wallet core

This project models the parts of the wallet bridge whose correctness is hardest to see by reading: the XSWD event
dispatcher and its session registry, the connection-attempt protocol, the prepared-transaction slot with its guards and
the multisig finalization that feeds it, the two codecs that cross the bridge, the address-book migration, history pages
and the shared table cache.  `dafny verify dfyconfig.toml` checks everything.  Automatic induction is switched off on
every lemma, so each proof is the one that is written.

## How the code is represented

* **XSWD dispatcher** (`Registry`, `Dispatcher*`, `Payload`, `Decimal`, `Utf8`).  An `Arc<AppState>` is a number and `Arc::ptr_eq`
  is equality of numbers; a state whose last reference is dropped is in `dead`.  One `Turn` is one iteration of
  the loop.  The channel, the readiness of the callback future and the work of other tasks on the shared registry (at each
  of the up to three points where the iteration takes the lock) are arbitrary inputs.  Reply channels are named by arrival
  number, so `answers` is a complete ledger.  `Dispatcher` is the machine on values, `DispatcherLoop.XswdHandler` is the
  imperative loop with its in-place queue, and `Loop` proves that it goes through the states of the machine.
* **Connection attempts** (`Connection*`, `CompletionWait`).  The tasks are a machine over their atomic steps: any number
  of successive attempts, each with a caller and a worker, and any number of cancellers (`offline_mode`, `close`, a caller
  whose timeout fired).  A caller or canceller may be dropped at an await point.  A caller that stops a stale connection
  holds the lock of `active_connection` meanwhile, as the temporary of the source does.  A timeout cancels whatever attempt is
  current, as the code does, which need not be its own.  `set_offline_mode` and `Wallet::close` are taken to leave no
  handler installed, an installation may fail or succeed, and the worker does not panic.  The mutex around the attempt's
  API handle and the socket calls have no effect on the modelled state.
* **Prepared transactions and multisig** (`Prepared*`, `Multisig`).  The store and the two guards are classes with the
  source's fields.  `PreparedRuns` is the machine of all interleavings of guard owners and other tasks.  Hashes are opaque
  names; cryptography is a record of functions.
* **Data elements** (`DataElement`).  Ordered maps are sequences of fields; the element's own type guarantees (integer
  widths, 32-byte hashes, distinct keys) are the predicate `Valid`.
* **Address book** (`AddressBook`, `Migration`, `MigrationRuns`).  The address codec and the entry hash are functions about
  which only `Lawful` is assumed: parsing inverts printing, printing does not lengthen, printed text has no outer white
  space, and the hash prints as 64 hexadecimal digits.  The hash may collide.  A user operation reaches the storage some
  time after a successful migration call of its own, with anything in between.  Maps are iterated by choosing any
  remaining key, which covers every iteration order; a storage write is atomic, and the process may stop before any of
  them.
* **History** (`History`).  The storage, asked with no skip, returns the first `limit` entries that satisfy its base
  filter, which is an arbitrary predicate.
* **Table cache** (`TableCache`).  A handle is an object with a strong count.  A loader returns an unshared table of the
  requested size.

Two places where the code says more than its comments: a page number is ignored when the history filter has no limit
(every page is the whole history), and a conflicting entry found in the version 2 tree stops a migration with the entries
written before it already stored.  The models follow the code.

## Model

| member | source | states |
|---|---|---|
| `Registry.ApplyKeepsTombstone` | rust/src/api/xswd/impl/registry.rs:51-142 | no registry operation re-activates a tombstoned live session |
| `Registry.TombstonePermanent` | rust/src/api/xswd/impl/registry.rs:51-142 | a tombstone of a live session survives every sequence of operations, also after the 64-bit reference counter is exhausted, and no reference resolves to that session again |
| `Registry.InvalidateTombstones` | rust/src/api/xswd/impl/registry.rs:99-129 | invalidation always leaves the session tombstoned: its entries inactive, or a fresh inactive entry, or (counter exhausted) nothing that could ever be granted |
| `Registry.RegisterGrantsIffNotTombstoned` | rust/src/api/xswd/impl/registry.rs:51-60 | a live session is granted a reference if and only if it is not tombstoned |
| `Registry.ApplyAllKeepsValid` | rust/src/api/xswd/impl/registry.rs:50-142 | every mix of operations keeps references distinct and below the counter; a state dies only by being dropped |
| `Registry.GrantLasts` | rust/src/api/xswd/impl/registry.rs:50-142 | a granted reference resolves to its own session exactly until that session is invalidated, cleared or dropped, whatever else other tasks do, and then to nothing |
| `Registry.ClearTombstones` | rust/src/api/xswd/impl/registry.rs:131-136 | after clearing no reference resolves, and every live known session is tombstoned |
| `Registry.ApplyKeepsName` | rust/src/api/xswd/impl/registry.rs:62-89 | a reference that was handed out never names another session |
| `Registry.SessionRegistry.ProjectState` | rust/src/api/xswd/impl/registry.rs:62-89 | result and new registry of `project`: the existing reference, or a fresh one, or exhaustion |
| `Registry.SessionRegistry.Register` | rust/src/api/xswd/impl/registry.rs:51-60 | result and new registry of `register`: an inactive session is refused |
| `Registry.SessionRegistry.InvalidateState` | rust/src/api/xswd/impl/registry.rs:99-129 | new registry of `invalidate_state`: every entry of the session inactive, a tombstone inserted when there was none |
| `Registry.SessionRegistry.ClearAuthority` | rust/src/api/xswd/impl/registry.rs:131-136 | every entry becomes inactive, none disappears but dead ones, and every live session that was known is tombstoned |
| `Registry.SessionRegistry.ResolveSession` | rust/src/api/xswd/impl/registry.rs:91-97 | a reference resolves only to its own, live, active session |
| `Registry.SessionRegistry.RemoveDeadEntries` | rust/src/api/xswd/impl/registry.rs:138-142 | exactly the entries of dropped states are removed |
| `DispatcherRuns.AnsweredExactlyOnce` | rust/src/api/xswd/impl/dispatcher.rs:50-248 | in every state of every run a request is pending once or answered once, never both and never twice; when the loop has ended it has been answered; nothing that expects no reply is answered |
| `DispatcherLedger.StepConserves` | rust/src/api/xswd/impl/dispatcher.rs:50-248 | one iteration moves requests between queue, callback and answers without losing or duplicating one, and adds exactly the one it receives |
| `DispatcherLedger.OutcomeKindsMatch` | rust/src/api/xswd/impl/dispatcher.rs:423-435 | the branch that would drop a response because the outcome has the other type is unreachable; completing answers exactly the active request |
| `DispatcherLedger.CancelMoves` | rust/src/api/xswd/impl/dispatcher.rs:477-506 | cancelling a session moves each of its queued decisions to the answers and touches no other item |
| `DispatcherLedger.RetainedIsFilter` | rust/src/api/xswd/impl/dispatcher.rs:477-506 | what stays queued is exactly what is not a decision of that session |
| `DispatcherLedger.SaturationYieldsNote` | rust/src/api/xswd/impl/dispatcher.rs:527-568 | the saturated branch is reached exactly when the queue is full of notifications, and then always has a notification to start: the oldest |
| `DispatcherLedger.StepKeepsShape` | rust/src/api/xswd/impl/dispatcher.rs:50-248 | queue bound, queued kinds, arrival numbers, callback kinds and the names of a running prefetch are kept by every iteration |
| `DispatcherRuns.RevokedNeverAccepted` | rust/src/api/xswd/impl/dispatcher.rs:152-206 | after a disconnect, or a cancel that hit a pending admission, no later answer of this dispatcher to that session is an acceptance, whatever other tasks do to the registry |
| `DispatcherRuns.WhoIsRevoked` | rust/src/api/xswd/impl/dispatcher.rs:152-206 | a disconnect always revokes; a cancel revokes if and only if an admission of that session was pending |
| `DispatcherRuns.AdmissionPendingExact` | rust/src/api/xswd/impl/dispatcher.rs:153-165 | what the dispatcher computes from its queue and callback is true exactly when an unanswered admission request of that session has been received |
| `DispatcherRuns.CancelAcknowledged` | rust/src/api/xswd/impl/dispatcher.rs:152-195 | when a cancel is acknowledged every earlier decision of that session has been answered once, the decisions of other sessions are queued in their order and other callbacks still run; the session is revoked by it, hence tombstoned, and the notification carries the cancelled-admission flag, exactly when an admission was pending |
| `DispatcherRuns.CancelNoteFlag` | rust/src/api/xswd/impl/dispatcher.rs:172-194 | the notification started or queued for a cancel carries a flag that is true exactly when an unanswered admission of that session has been received |
| `DispatcherRuns.CancelTombstones` | rust/src/api/xswd/impl/dispatcher.rs:158-165 | in every run a cancel that finds an admission pending leaves the session tombstoned, and a cancel revokes in no other case |
| `DispatcherAuthority.AuthorityAfterUpholds` | rust/src/api/xswd/impl/dispatcher.rs:152-206 | an iteration never un-revokes a session: every session it revoked is tombstoned or dropped, interleaved registry work included |
| `DispatcherAuthority.StepKeepsGranted` | rust/src/api/xswd/impl/dispatcher.rs:68-110 | a running decision always belongs to a session that has not been revoked |
| `DispatcherRuns.QueueInvariant` | rust/src/api/xswd/impl/dispatcher.rs:186-244 | at most 64 queued items, none a raw cancel or disconnect, one disconnect notification per session in queue and callback together, and a queued notification leaves only by being started, oldest first |
| `DispatcherOrder.StepFifo` | rust/src/api/xswd/impl/dispatcher.rs:207-244 | one iteration: the queued notifications are kept in order, or exactly the oldest is started |
| `DispatcherOrder.StepKeepsDisconnects` | rust/src/api/xswd/impl/dispatcher.rs:207-244 | one iteration keeps the one-disconnect-per-session invariant |
| `DispatcherOrder.StepKeepsOrdered` | rust/src/api/xswd/impl/dispatcher.rs:50-110 | one iteration keeps the queue in arrival order behind everything already shown |
| `DispatcherRuns.BoundedBypass` | rust/src/api/xswd/impl/dispatcher.rs:112-150 | a ready callback is passed by at most 16 events before it is completed, cancelled or replaced |
| `DispatcherRuns.ShownInArrivalOrder` | rust/src/api/xswd/impl/dispatcher.rs:51-110 | decisions are shown to the user in the order they arrived |
| `DispatcherRuns.ClosedLeavesNoAuthority` | rust/src/api/xswd/impl/dispatcher.rs:139-146 | when the loop has ended every live session it heard from is tombstoned |
| `DispatcherRuns.UserDecides` | rust/src/api/xswd/impl.rs:885-1026 | a reply is an acceptance exactly when the user accepted (and, for prefetch, something was asked); a decided permission is answered with that decision, a failed callback with its failure; a granted prefetch lists exactly the names asked for, once each |
| `DispatcherReplies.DecisionTold` | rust/src/api/xswd/impl.rs:885-1026 | in every run, completing the callback of the request last shown sends exactly one answer, to that request: the very decision of the user, or the failure of the callback, or for a prefetch the names asked for in order of first occurrence, or none when rejected |
| `DispatcherReplies.ReplyWarranted` | rust/src/api/xswd/impl/dispatcher.rs:50-248 | every answer of every run says why it is sent: decisions only by completion, acknowledgements only to the cancel received, and each failure (closed, cancelled, queue full, overloaded, payload, reference, callback) only when that happened to that request |
| `DispatcherReplies.RequestShown` | rust/src/api/xswd/impl.rs:625-723 | a request that is taken up is shown exactly when its payload projects and its session is not tombstoned; otherwise it is refused at once with the failure of the one or the other |
| `DispatcherReplies.RequestQueued` | rust/src/api/xswd/impl/dispatcher.rs:508-525 | a request that arrives while a callback runs waits at the end of the queue while there is room for it, and is refused when there are 64 items |
| `DispatcherReplies.DisconnectNotified` | rust/src/api/xswd/impl/dispatcher.rs:196-243 | after a disconnect its notification runs or is queued, unless the 64-bit reference counter is exhausted |
| `DispatcherReplies.CancelNotified` | rust/src/api/xswd/impl/dispatcher.rs:166-195 | a cancel is notified at once or in the queue; only a full queue or an exhausted counter loses the notification |
| `DispatcherReplies.NotesNameTheirSession` | rust/src/api/xswd/impl/dispatcher.rs:166-243 | the reference that a notification carries was given out for its own session and never names another |
| `DispatcherReplies.OverloadRevokes` | rust/src/api/xswd/impl/dispatcher.rs:218-243 | when an admission is given up to an overload, its session loses its authority in the same iteration |
| `DispatcherReplies.ExactBypass` | rust/src/api/xswd/impl/dispatcher.rs:112-150 | with events always waiting, a callback that is ready from its start is completed after exactly 16 of them |
| `DispatcherReplies.DistinctFirst` | rust/src/api/xswd/impl.rs:1009-1026 | the granted names are the first occurrences of the names asked for, in order |
| `DispatcherLoop.XswdHandler.CancelDeferred` | rust/src/api/xswd/impl/dispatcher.rs:477-506 | the in-place sweep of the queue: new queue, answers and admission flag |
| `DispatcherLoop.XswdHandler.FailDeferred` | rust/src/api/xswd/impl/dispatcher.rs:581-611 | everything queued is failed in order |
| `DispatcherLoop.XswdHandler.DeferDisconnectNote` | rust/src/api/xswd/impl/dispatcher.rs:527-568 | new queue, answers and notification to start |
| `DispatcherLoop.XswdHandler.DeferDecision` | rust/src/api/xswd/impl/dispatcher.rs:508-525 | queued, or answered queue-full |
| `DispatcherLoop.XswdHandler.InvalidateObserved` | rust/src/api/xswd/impl/dispatcher.rs:658-671 | every observed live session is revoked |
| `DispatcherLoop.XswdHandler.ReceiveEvent` | rust/src/api/xswd/impl/dispatcher.rs:637-656 | the event is recorded and its session tracked once, dead ones forgotten |
| `DispatcherLoop.XswdHandler.OpenRequest` | rust/src/api/xswd/impl.rs:625-723 | a request is shown, or refused because its payload or its session is |
| `DispatcherLoop.XswdHandler.OpenLifecycle` | rust/src/api/xswd/impl/dispatcher.rs:83-98 | an idle dispatcher acknowledges, revokes on disconnect, and starts the notification if the session projects |
| `DispatcherLoop.XswdHandler.HandleCancel` | rust/src/api/xswd/impl/dispatcher.rs:152-195 | desk and authority after a cancel, other tasks interleaved at both locks |
| `DispatcherLoop.XswdHandler.HandleDisconnect` | rust/src/api/xswd/impl/dispatcher.rs:196-243 | desk and authority after a disconnect, other tasks interleaved at all three locks |
| `DispatcherLoop.XswdHandler.CompleteCallback` | rust/src/api/xswd/impl/dispatcher.rs:133-138 | the callback is cleared and its request answered once, with what the user decided |
| `DispatcherLoop.XswdHandler.CloseDown` | rust/src/api/xswd/impl/dispatcher.rs:139-146 | authority revoked, everything pending failed, loop left |
| `DispatcherLoop.XswdHandler.Iterate` | rust/src/api/xswd/impl/dispatcher.rs:50-248 | one iteration of the imperative loop is one step of the machine |
| `DispatcherLoop.XswdHandler.Loop` | rust/src/api/xswd/impl/dispatcher.rs:50-248 | the imperative loop goes through exactly the states of the run it is fed |
| `Payload.ProjectPayload` | rust/src/api/models/xswd_dtos.rs:170-188 | projection succeeds if and only if the tree is an object within all five measures; it then emits exactly the flattened tree with the measured token count; each error names a limit that is really exceeded |
| `Payload.PayloadProjection.ProjectValue` | rust/src/api/models/xswd_dtos.rs:337-385 | the accumulator walk: succeeds exactly when the value fits what is left of the limits, appends exactly its tokens and its text |
| `Payload.PayloadProjection.ProjectMembers` | rust/src/api/models/xswd_dtos.rs:374-384 | the object loop, against the measures of all fields |
| `Payload.PayloadProjection.ProjectElements` | rust/src/api/models/xswd_dtos.rs:366-373 | the array loop, against the measures of all elements |
| `Payload.PayloadProjection.Push` | rust/src/api/models/xswd_dtos.rs:387-393 | appends, or reports the token limit |
| `Payload.PayloadProjection.AddText` | rust/src/api/models/xswd_dtos.rs:402-416 | counts text against both text limits |
| `Payload.FlattenLength` | rust/src/api/models/xswd_dtos.rs:337-385 | the measured token count is the length of the stream |
| `Payload.ReadInvertsFlatten` | lib/src/bridge/adapters/xelis_xswd_adapter.dart:109-254 | the reader, given the stream of a value and any suffix, returns that value and exactly that suffix |
| `Payload.ReadIsCanonical` | lib/src/bridge/adapters/xelis_xswd_adapter.dart:109-254 | whatever the reader accepts is the stream of what it returns, within the limits: no second encoding is accepted |
| `Payload.BridgeAgrees` | lib/src/bridge/adapters/xelis_xswd_adapter.dart:78-107 | native and Dart side agree: a stream is emitted for an object if and only if it decodes to that object |
| `Payload.FlattenInjective` | rust/src/api/models/xswd_dtos.rs:337-385 | streams are self-delimiting: equal streams, with anything after them, come from equal values |
| `Payload.NumberRanges` | rust/src/api/models/xswd_dtos.rs:337-365 | integers are those of 64 bits, signed or unsigned: -2^63 up to 2^64 exclusive |
| `Utf8.LengthOfEncoding` | rust/src/api/models/xswd_dtos.rs:402-416 | the counted text length is that of the UTF-8 encoding, which reads back as the same characters |
| `Decimal.CanonicalIntExact` | lib/src/bridge/adapters/xelis_xswd_adapter.dart:233-244 | a text is accepted as an integer exactly when it is the canonical decimal of that integer |
| `ConnectionRuns.InstalledImpliesActivated` | rust/src/api/wallet/runtime.rs:203-283 | an attempt that completed with its handler installed had active_connection set to its API before it completed |
| `ConnectionRuns.OkNeverRollsBack` | rust/src/api/wallet/runtime.rs:655-684 | `online_mode` returned Ok: its worker installed, its caller activated, and in the whole run its worker never rolls back |
| `ConnectionRuns.TimeoutLeavesNoHandler` | rust/src/api/wallet/runtime.rs:101-116 | a timeout error: from then on the handler of that attempt is not installed and active_connection is not its API |
| `ConnectionRuns.CloseIsFinal` | rust/src/api/wallet/runtime.rs:740-748 | after `close` returned there is no handler and no active connection, and no step begins an attempt, installs or activates |
| `ConnectionRuns.OfflineStops` | rust/src/api/wallet/runtime.rs:702-718 | when `offline_mode` (or `close`) has returned, every attempt begun before its first step has completed, the one found in progress was cancelled, and from then on neither the handler nor the active connection is one of theirs |
| `ConnectionRuns.OldConnectionGone` | rust/src/api/wallet/runtime.rs:615-622 | from the spawn of its worker until an attempt completes, no other attempt is the active connection |
| `ConnectionCauses.OutcomeHasCause` | rust/src/api/wallet/runtime.rs:559-697 | every outcome but Ok has its cause earlier in the run: cancelled by a canceller, a failed network operation, a timeout, a wallet already online, a failed stop, a dropped future |
| `ConnectionCauses.RollbackHasCause` | rust/src/api/wallet/runtime.rs:641-650 | a worker rolls back only an attempt that was cancelled or whose caller gave up |
| `ConnectionRuns.WaitingCallerHasReleased` | rust/src/api/wallet/runtime.rs:101-123 | whenever a caller waits for its worker, both acknowledgements have been sent or dropped |
| `ConnectionRuns.WorkerFailedUnreachable` | rust/src/api/wallet/runtime.rs:655-684 | the worker-failed error is never returned |
| `ConnectionRuns.OneAttemptAtATime` | rust/src/api/wallet/runtime.rs:154-193 | an attempt that has not completed is the one in the slot, so there is one at most |
| `ConnectionSteps.StepKeepsInv` | rust/src/api/wallet/runtime.rs:559-748 | every step of every caller, worker and canceller, drops included, keeps the protocol invariant |
| `ConnectionInvariant.WorkerKeepsLocal` | rust/src/api/wallet/runtime.rs:631-654 | worker steps keep the relation between the two tasks of an attempt |
| `ConnectionInvariant.CallerKeepsLocal` | rust/src/api/wallet/runtime.rs:655-697 | caller steps keep it |
| `ConnectionProgress.NoDeadlock` | rust/src/api/wallet/runtime.rs:615-697 | in every reachable state with an uncompleted attempt or an unreturned caller some participant can step by itself: no timeout, no dropped future and no failure of a task that waits for a lock is counted |
| `ConnectionProgress.StuckMeansDone` | rust/src/api/wallet/runtime.rs:559-748 | when nobody can step, every attempt has completed, every call has returned and the slot is free |
| `ConnectionProgress.QuietRunEnds` | rust/src/api/wallet/runtime.rs:559-748 | without new calls a run takes at most as many further steps as the rank of its present state |
| `ConnectionSlot.WalletConnectionAttempts.Acquire` | rust/src/api/wallet/runtime.rs:155-174 | refused when closed or occupied, changing nothing; otherwise a fresh attempt occupies the slot |
| `ConnectionSlot.WalletConnectionAttempts.DropGuard` | rust/src/api/wallet/runtime.rs:181-193 | completes its own attempt and empties the slot only if the slot still holds it |
| `ConnectionSlot.WalletConnectionAttempts.CancelCurrent` | rust/src/api/wallet.rs:106-120 | flags the current attempt, keeps it in the slot, and closes the slot when terminal |
| `ConnectionSlot.WalletConnectionAttempt.Complete` | rust/src/api/wallet.rs:69-72 | stores the flag and then notifies |
| `CompletionWait.NeverSleepsThrough` | rust/src/api/wallet.rs:69-85 | a waiter returns only after completion, and once the notice is out no waiter is blocked |
| `CompletionWait.ReturnsAfterNotice` | rust/src/api/wallet.rs:74-85 | after the notice every own step of a waiter brings its return closer |
| `PreparedRuns.GuardsMatchStore` | rust/src/api/wallet/transactions/prepared.rs:114-366 | in every run a live preparation guard exists iff the store records its generation, a live submission guard iff the slot is in flight under its capability, and the two never coexist |
| `PreparedRuns.NeverInconsistent` | rust/src/api/wallet/transactions/prepared.rs:374-499 | no run sees an inconsistency or empty-guard error; commit, restore and finish never fail |
| `PreparedRuns.CapabilityNamesOneValue` | rust/src/api/wallet/transactions/prepared.rs:142-365 | whatever is ever handed out under a generation is the hash and transaction it was published with |
| `PreparedRuns.RetryGivesBack` | rust/src/api/wallet/transactions/prepared.rs:451-499 | a restored or interrupted submission leaves the store exactly as before the take, whatever was tried meanwhile |
| `PreparedRuns.AbandonGivesBack` | rust/src/api/wallet/transactions/prepared.rs:399-408 | an abandoned preparation leaves the slot as it found it and spends one generation number |
| `PreparedRuns.EndsExactly` | rust/src/api/wallet/transactions/prepared.rs:168-366 | a capability leaves the slot exactly by replacement, commit, cancellation or a finished submission |
| `PreparedRuns.EndedForever` | rust/src/api/wallet/transactions/prepared.rs:142-366 | from then on it is refused in every state of the run, and nothing is handed out under it |
| `PreparedRuns.EndsAtMostOnce` | rust/src/api/wallet/transactions/prepared.rs:168-366 | each generation ends at most once |
| `PreparedRuns.RefusedExactly` | rust/src/api/wallet/transactions/prepared.rs:142-158 | in every run the capability of a published transaction is accepted exactly when no guard is out and it was not replaced, cancelled or finished; a preparation, a submission and a lost or wrong capability are refused each with its own error |
| `PreparedRuns.PublishedUntilEnded` | rust/src/api/wallet/transactions/prepared.rs:168-366 | a published generation is in the slot exactly until it ends |
| `PreparedRuns.ReplaceRefusedExactly` | rust/src/api/wallet/transactions/prepared.rs:115-140 | a new preparation is refused exactly while a guard is out or when the 64-bit generations are exhausted |
| `PreparedRuns.HashRefusedExactly` | rust/src/api/wallet/transactions/prepared.rs:221-287 | the operations that name only a hash are refused exactly while a guard is out or when the slot holds nothing published with that hash |
| `PreparedRuns.StepKeepsInv` | rust/src/api/wallet/transactions/prepared.rs:114-499 | every store and guard operation keeps the invariant |
| `Prepared.GuardFreezesAll` | rust/src/api/wallet/transactions/prepared.rs:124-140 | while a guard is out no sequence of operations by others changes the store |
| `Prepared.PreparedTransactionStore.AllocateGeneration` | rust/src/api/wallet/transactions/prepared.rs:115-122 | the next number, or overflow at the 64-bit limit |
| `Prepared.PreparedTransactionStore.EnsureReadyExact` | rust/src/api/wallet/transactions/prepared.rs:142-158 | which capabilities are refused, and with which error |
| `Prepared.PreparedTransactionStore.ReadyExact` | rust/src/api/wallet/transactions/prepared.rs:160-166 | gives the transaction exactly to the capability in the slot |
| `Prepared.PreparedTransactionStore.Replace` | rust/src/api/wallet/transactions/prepared.rs:168-181 | new store and result |
| `Prepared.PreparedTransactionStore.BeginPreparation` | rust/src/api/wallet/transactions/prepared.rs:183-188 | new store and result |
| `Prepared.PreparedTransactionStore.CommitPreparation` | rust/src/api/wallet/transactions/prepared.rs:190-210 | new store and result |
| `Prepared.PreparedTransactionStore.AbandonPreparation` | rust/src/api/wallet/transactions/prepared.rs:212-219 | new store and result |
| `Prepared.PreparedTransactionStore.Cancel` | rust/src/api/wallet/transactions/prepared.rs:221-244 | new store and result; the inconsistency branch is dead |
| `Prepared.PreparedTransactionStore.CancelExact` | rust/src/api/wallet/transactions/prepared.rs:246-270 | new store and result; the inconsistency branch is dead |
| `Prepared.PreparedTransactionStore.TakeForSubmission` | rust/src/api/wallet/transactions/prepared.rs:272-287 | new store and result |
| `Prepared.PreparedTransactionStore.TakeForSubmissionExact` | rust/src/api/wallet/transactions/prepared.rs:289-311 | new store and result; the inconsistency branch is dead |
| `Prepared.PreparedTransactionStore.RestoreAfterSubmission` | rust/src/api/wallet/transactions/prepared.rs:330-350 | new store and result |
| `Prepared.PreparedTransactionStore.FinishSubmission` | rust/src/api/wallet/transactions/prepared.rs:352-365 | new store and result |
| `PreparedGuards.PreparationGuard.Begin` | rust/src/api/wallet/transactions/prepared.rs:375-384 | a live guard for a fresh generation, or the refusal |
| `PreparedGuards.PreparationGuard.Commit` | rust/src/api/wallet/transactions/prepared.rs:386-397 | publishes if the guard is live; otherwise the preparation is abandoned |
| `PreparedGuards.PreparationGuard.Drop` | rust/src/api/wallet/transactions/prepared.rs:399-408 | abandons the open preparation |
| `PreparedGuards.SubmissionGuard.TakeExact` | rust/src/api/wallet/transactions/prepared.rs:431-443 | a live guard holding the published transaction, or the refusal |
| `PreparedGuards.SubmissionGuard.Take` | rust/src/api/wallet/transactions/prepared.rs:418-429 | the same by hash alone |
| `PreparedGuards.SubmissionGuard.Restore` | rust/src/api/wallet/transactions/prepared.rs:451-459 | a live guard puts its transaction back |
| `PreparedGuards.SubmissionGuard.Finish` | rust/src/api/wallet/transactions/prepared.rs:461-477 | a live guard hands out its transaction and empties the slot |
| `PreparedGuards.SubmissionGuard.Drop` | rust/src/api/wallet/transactions/prepared.rs:480-499 | an interrupted submission is restored |
| `PreparedGuards.BroadcastPreparedTransaction` | rust/src/api/wallet/transactions.rs:790-905 | succeeds exactly for the capability in the slot; each of the five outcomes is returned exactly for its own answer of the daemon, being offline counting as retryable; all but retryable empty the slot; retryable and every error leave the store as it was; what is sent is the prepared transaction |
| `Multisig.BuildVerifiedMultisig` | rust/src/api/wallet/multisig/protocol.rs:146-167 | succeeds exactly on threshold-many valid shares of distinct participants, carries exactly their signatures, and otherwise reports the first bad share |
| `Multisig.VerifyMultisigSignature` | rust/src/api/wallet/multisig/protocol.rs:169-196 | succeeds exactly when the share is the canonical text of a signature of a configured participant on the hash, and every error says what is wrong with the share |
| `Multisig.SufficientMeans` | rust/src/api/wallet/multisig/protocol.rs:146-196 | the result holds exactly threshold-many distinct participants, each with a verified signature on the pending hash |
| `Multisig.PendingMultisigStore.Insert` | rust/src/api/wallet/multisig.rs:73-85 | new store and result |
| `Multisig.PendingMultisigStore.Cancel` | rust/src/api/wallet/multisig.rs:93-97 | removes exactly the request named, whose number is then spent |
| `Multisig.ConsumedNeverReturns` | rust/src/api/wallet/multisig.rs:72-137 | in every life of the store a request that is cancelled or consumed is refused ever after under its number, whatever hash is given |
| `Multisig.InsertedIsPending` | rust/src/api/wallet/multisig.rs:72-137 | an inserted request is accepted under its number and hash, with its payload, exactly until that very request is cancelled |
| `Multisig.InsertedCanFinalize` | rust/src/api/wallet/multisig.rs:99-123 | whatever happened since, an inserted request can be finalized exactly if it was not cancelled and the shares suffice for its own configuration |
| `Multisig.InsertRefusedWhen` | rust/src/api/wallet/multisig.rs:73-85 | a request is refused exactly while another is pending or when the 64-bit numbers are exhausted |
| `Multisig.SpentStays` | rust/src/api/wallet/multisig.rs:72-137 | a number given out and no longer pending never becomes pending again |
| `Multisig.NumberedStays` | rust/src/api/wallet/multisig.rs:72-137 | a pending request always carries a number that has been given out |
| `Multisig.TakeValidated` | rust/src/api/wallet/multisig.rs:99-123 | the request is consumed, and its number spent, exactly when the shares are sufficient |
| `Multisig.FinalizeMultisigTransaction` | rust/src/api/wallet/multisig.rs:572-640 | all or nothing across both stores with other tasks interleaved: on failure slot and request are untouched, on success the request is consumed and a fresh generation carries the attested transaction |
| `DataElement.RoundTrip` | rust/src/api/models/address_dtos.rs:86-139 | a data element survives encoding and decoding exactly when it is within the collection and blob limits, at any depth, field order kept |
| `DataElement.Accepted` | rust/src/api/models/address_dtos.rs:107-139 | an accepted wire value decodes to a valid element within the limits, and encodes back to itself exactly when its hashes are in lower case |
| `DataElement.DecodesExactly` | rust/src/api/models/address_dtos.rs:107-139 | a wire value decodes to an element exactly when that element is valid and within the limits and the wire value, its hashes in lower case, is its encoding |
| `DataElement.DecodeIgnoresCase` | rust/src/api/models/address_dtos.rs:173-181 | decoding, errors included, does not depend on the case of hashes |
| `DataElement.FaultFound` | rust/src/api/models/address_dtos.rs:107-249 | every error names a fault that the wire value has, at whatever depth |
| `DataElement.LargestOfWidth` | rust/src/api/models/address_dtos.rs:215-249 | the ranges are those of 8, 16, 32, 64 and 128 bits |
| `DataElement.ParseUnsignedExact` | rust/src/api/models/address_dtos.rs:215-249 | the accepted integer texts are exactly the canonical decimals in range of their width |
| `DataElement.ToHexOfFromHex` | rust/src/api/models/address_dtos.rs:173-181 | a hash text prints back to itself exactly when it was lower case |
| `DataElement.EncodeInjective` | rust/src/api/models/address_dtos.rs:86-106 | two elements within the limits never share a wire form |
| `DataElement.KeysDistinct` | rust/src/api/models/address_dtos.rs:118-137 | decoded fields have distinct keys |
| `DataElement.IntoXelis` | rust/src/api/models/address_dtos.rs:107-139 | the recursion of the source, with its element and insertion loops, computes the decoding function |
| `DataElement.ConvertElements` | rust/src/api/models/address_dtos.rs:110-117 | elements are converted in order up to the first error |
| `DataElement.InsertFields` | rust/src/api/models/address_dtos.rs:118-137 | the loop stops at the first bad key, repeated key or bad value, in that order per field |
| `AddressBook.NormalizeMeans` | rust/src/api/address_book_v2.rs:71-258 | an entry is accepted exactly when the texts describe one: name, label and note without outer white space and within their limits (label and note absent when blank), the printed form of an address of this network, and the identifier of that address |
| `AddressBook.NormalizeFault` | rust/src/api/address_book_v2.rs:71-258 | every refusal names a fault of the given texts |
| `AddressBook.TrimStrips` | rust/src/api/address_book_v2.rs:71-199 | trimming removes white space at both ends, and all of it |
| `AddressBook.StripsUnique` | rust/src/api/address_book_v2.rs:71-199 | there is one such text, empty exactly when all was white space |
| `AddressBook.DecodeMeans` | rust/src/api/address_book_v2.rs:319-358 | a stored value is read exactly when it has the version, the texts of an entry, and one identifier in key, value and address |
| `AddressBook.ReadStoredMeans` | rust/src/api/address_book_v2.rs:405-425 | only the marker is skipped, and only an entry under its own key is read |
| `AddressBook.NormalizeIdempotent` | rust/src/api/address_book_v2.rs:71-258 | normalizing a normalized entry changes nothing |
| `AddressBook.DecodeEncodeEntry` | rust/src/api/address_book_v2.rs:286-358 | a stored normalized entry reads back as itself |
| `AddressBook.DecodeEncodeMarker` | rust/src/api/address_book_v2.rs:360-395 | the marker reads back its count |
| `AddressBook.KeysApart` | rust/src/api/address_book_v2.rs:25-26 | entry keys are distinct from each other and from the marker key |
| `AddressBook.StoredReadsBack` | rust/src/api/address_book_v2.rs:405-425 | a normalized entry under its own key is read as itself |
| `Migration.CollectEntries` | rust/src/api/address_book_v2.rs:490-528 | the first loop, in any order: succeeds exactly on clean legacy data and then holds exactly its entries |
| `Migration.LegacyMeans` | rust/src/api/address_book_v2.rs:490-520 | a legacy entry is accepted exactly when it stands for an entry: its name and note without outer white space (the note absent when missing or blank), no destination label, the printed form of its address, which the key must be an address of too |
| `Migration.LegacyFaultFound` | rust/src/api/address_book_v2.rs:490-520 | every refusal names a fault of that legacy entry |
| `Migration.CompletedIsMigrated` | rust/src/api/address_book_v2.rs:466-577 | after a completed migration every legacy entry stands for an entry, and reading the new tree finds that entry |
| `Migration.CollectsUnique` | rust/src/api/address_book_v2.rs:490-528 | every iteration order collects the same entries |
| `Migration.CleanCollects` | rust/src/api/address_book_v2.rs:490-528 | clean legacy data have contents to collect |
| `Migration.AddressBookStorage.WriteEntries` | rust/src/api/address_book_v2.rs:530-556 | the second loop, in any order: adds exactly missing entries, and stops early only on a stored disagreement or when writes run out |
| `Migration.AddressBookStorage.MigrateAddressBook` | rust/src/api/address_book_v2.rs:466-577 | one call, interrupted at any write: nothing is written over unclean data or after the marker; it succeeds whenever the data allow it and the writes last; after a success every legacy entry is read back from the new tree with its trimmed name and note and its printed address |
| `Migration.PartialStaysCompatible` | rust/src/api/address_book_v2.rs:530-556 | what an interrupted call wrote never conflicts with the next call |
| `Migration.PartialThenComplete` | rust/src/api/address_book_v2.rs:466-577 | an interrupted call followed by a completed one ends where one uninterrupted call ends |
| `MigrationRuns.ResumedEqualsUninterrupted` | rust/src/api/address_book_v2.rs:466-577 | after any number of failed calls the first success leaves the tree and count of a single uninterrupted call, for every iteration order of each |
| `MigrationRuns.StillReady` | rust/src/api/address_book_v2.rs:466-577 | a failed call never makes a later one fail for another reason than writes |
| `MigrationRuns.UserFindsMarker` | rust/src/api/address_book_v2.rs:643-692 | whenever upsert or remove reaches the storage after its successful migration call, the marker is there |
| `MigrationRuns.MarkerStays` | rust/src/api/address_book_v2.rs:643-692 | no operation ever removes or changes the marker |
| `MigrationRuns.UncleanStaysEmpty` | rust/src/api/address_book_v2.rs:490-528 | over unclean legacy data the book stays empty for ever |
| `MigrationRuns.NoUserEntryBeforeMarker` | rust/src/api/address_book_v2.rs:643-692 | in every life of the book, as long as the marker is absent the tree holds entries of the migration and nothing else |
| `MigrationRuns.LaterCallsOnlyRead` | rust/src/api/address_book_v2.rs:466-485 | once there, the marker stays, and every later call reports the number of legacy entries and changes nothing |
| `MigrationRuns.ReachableBookReads` | rust/src/api/address_book_v2.rs:397-433 | in every reachable book the marker is skipped and every other key reads back as the normalized entry stored under it |
| `Migration.ReadV2Entries` | rust/src/api/address_book_v2.rs:405-425 | the reading loop, in any order: every entry once, unless some key cannot be read |
| `MigrationRuns.MigratedReadsBack` | rust/src/api/address_book_v2.rs:319-358 | every collected entry reads back from the finished tree as itself |
| `MigrationRuns.MigratedHoldsOnly` | rust/src/api/address_book_v2.rs:466-577 | the finished tree holds nothing else but the marker |
| `MigrationRuns.MigratedOnlyLegacy` | rust/src/api/address_book_v2.rs:466-577 | a new book holds nothing but the entries that legacy entries stand for and the marker, and the reported count is theirs |
| `MigrationRuns.UpsertReadsBack` | rust/src/api/address_book_v2.rs:643-669 | a write by the user reads back as the entry that the given texts describe, and touches nothing else |
| `History.Prepare` | rust/src/api/models/wallet_dtos.rs:276-348 | the checked arithmetic of both preparations: refused exactly for page 0, limit 0, a bad address, a bad asset or an overflowing range |
| `History.ReadHistory` | rust/src/api/wallet/history.rs:193-256 | a page is exactly positions (page-1)*limit up to page*limit of the described history, without a limit the whole: the accepted transactions in order and, for an integrated address, of these the ones with a hit, each with its hits only |
| `History.ApplyExactIntegratedDestination` | rust/src/api/wallet/history.rs:64-100 | kept are exactly the transactions with a hit, in order, with their information unchanged, each with exactly its hits, as often as they were there and in order |
| `History.RetainHits` | rust/src/api/wallet/history.rs:71-95 | kept are exactly the transfers that hit, as often as they were there, at increasing positions |
| `History.ExactKeepsTheHits` | rust/src/api/wallet/history.rs:64-100 | the exact filter keeps a transaction if and only if one of its transfers hits, and of its transfers exactly those that hit |
| `History.FullHistoryMeans` | rust/src/api/wallet/history.rs:193-256 | the described history: accepted transactions only, each as often as stored, in order |
| `History.ServedFilters` | rust/src/api/models/wallet_dtos.rs:276-348 | a filter is served exactly for a page from 1 on, a limit other than 0, a good address and asset and a range below 2^64; each refusal says which of these failed |
| `History.SliceOfPrefix` | rust/src/api/wallet/history.rs:31-54 | skipping locally in a prefix of offset + limit entries gives the same page |
| `History.PagesAreAPrefix` | rust/src/api/wallet/history.rs:31-54 | successive pages put together are exactly the first entries: no gap, no repeat |
| `History.OnExactlyOnePage` | rust/src/api/wallet/history.rs:31-54 | every entry is on exactly one page, at the place its position gives |
| `History.LastPages` | rust/src/api/wallet/history.rs:31-54 | enough pages hold everything, and later pages are empty |
| `TableCache.PrecomputedTablesCache.GetOrRequireLoad` | rust/src/api/wallet/runtime/table_cache.rs:46-67 | the cached handle for a small enough request, a load when empty or at the low size, an error otherwise |
| `TableCache.PrecomputedTablesCache.Install` | rust/src/api/wallet/runtime/table_cache.rs:69-116 | first install, reuse of a larger table, one in-place upgrade from the low size, or refusal; all holders keep one handle and none sees its table shrink |
| `TableCache.PrecomputedTablesCache.ClearIfUnused` | rust/src/api/wallet/runtime/table_cache.rs:33-44 | clears exactly when no wallet holds the tables |
| `TableCache.PrecomputedTablesCache.Use` | rust/src/api/wallet/runtime/table_cache.rs:24-116 | any mix of operations keeps the shared handle, the recorded size, the sufficient size and the single upgrade |
| `TableCache.PrecomputedTablesCache.GetOrLoad` | rust/src/api/wallet/runtime/table_cache.rs:140-173 | fails with a refused upgrade exactly when a size other than the low one, smaller than requested, is met on the way, with a failed load exactly when the loader is run and fails, and otherwise succeeds, holding the cached handle at the size asked for or larger, with other tasks at work while it waits and loads |

## Left out

- Error codes, messages and their classification: errors are enumerated where they steer control flow and not otherwise.
- Transport and lifecycle of the XSWD server (`start_xswd`, relayers, permission editing): wrappers over libraries.
- Validation of the projection limits against their technical maxima: five comparisons.
- The Dart reader of payload tokens is modelled on values: its cursor and text counter are threaded through functions, so updating them in place is not captured.
- The tasks of the connection protocol are modelled on values as atomic steps; only the slot and the attempt's flags are objects.
- Liveness under a fair scheduler: proved are the absence of stuck states and a bound on the steps of every run, not a timing.
- A canceller of the timeout kind is dropped together with its caller, since both are one future.
- Broadcasting by hash alone (`broadcast_transaction`): the same guard, driven the same way.
- Parsing of the signing hash and of signature-share envelopes, participant resolution and transaction building.
- Failing storage reads in the migration: a read is taken to succeed; writes may fail or be cut off at any point.
- Address-book search, sorting and matching, and destinations built from parts.
- The base history filter's own fields (topoheight, timestamps, accepted kinds) and CSV export.
- Floating-point payload numbers are reals: non-finite values and rounding are not represented.
- Fees, amounts, seeds, logging, progress reporting, generated bridge code and the Dart façade.
- DispatcherRuns.BoundedBypass: counts iterations of the loop, not time spent in one.
- TableCache.PrecomputedTablesCache.Install: a poisoned lock is not represented, because nothing in the model panics.
