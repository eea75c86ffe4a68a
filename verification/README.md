# MiniSMS, verified

A Dafny model of the MiniSMS send pipeline and of the small stateful components around it, with
proofs of what they promise. `dafny verify dfyconfig.toml` checks the whole project.

## The pipeline

A client has a prepaid balance and an append-only ledger (`Ledger.dfy`). A message is a row; every
SQL statement that writes rows is a function (`SmsRows.dfy`). The same statements are used twice:
`SmsStore.dfy` carries them out in place, transaction by transaction, and `Pipeline.dfy` interleaves
them as the steps of a machine in which any number of workers, synchronous requests, the reaper, the
boot recovery, receipts, the age-out sweep and crashes act on one store, and any transaction may
abort. `Worker.dfy` shows that the worker loop and the synchronous send, as code, are runs of that
machine, so the theorems about runs speak about them. Carriers have accounts of their own, charged when
their bills commit (`CarrierBilling.dfy`). `Receipts.dfy` looks at one message more closely,
with receipts and sweeps taken apart into their reads, updates and forwards; `Projection.dfy` shows
that every run of the pipeline, watched at one row, is a run of that finer machine. The notification
after a message is given up is one more receipt there.

Amounts are whole micro-units (numeric(18,6) scaled by a million). Time is one clock that does not go
back. Queue mode or synchronous mode is fixed for a run.

Some results hold of every run. Others need a hypothesis, each a named predicate on runs:

- `Leased`: a claimed row is finished before the stuck interval has passed since its claim.
- `QuietBoot`: the boot recovery lists its rows while no send is in flight.
- `FinalWrites`: after a carrier accepts there is no crash before the exit write, and the forced
  write succeeds when billing does not.
- `ReceiptsAfterExit`: no receipt is applied before the first exit write.
- `SingleExit`: a message is written out of the queue once. `Leased` and `QuietBoot` give it (`OneExit`).
- `NoStaleDecision`: no intermediate receipt is chosen for forwarding on a read that an applied
  receipt has overtaken; receipts and sweeps run one after another (`Serial`) keep to it.

For each there is a concrete run without it in which the property fails, and its exact condition: at
the step concerned (`ReaperIsSafeExactly`, `RecoveryIsExclusiveExactly`, `LostWriteIsSafeExactly`,
`AgeOutOverwritesExactly`) and over whole runs (`SafeRunsExactly`, `OneFinalExactly`,
`OneFinalNeedsOneExit`, `OneInterimExactly`).

## Where the code differs from its comments

- The comment on the boot recovery says no send is in flight when it runs. The runtime starts the
  SMPP listener first (`minisms/internal/runtime/runtime.go:54-61`, then `:80`), so a live send can
  be listed and refunded; `QuietBootIsNeeded` is such a run.
- The age-out guard is said to make a real receipt win. The write to 'accepted' has no status guard, so
  it hides a final receipt already stored, and the sweep then overwrites it. That takes a receipt, named
  by message id, that lands while its row is still sending (`EarlyReceiptIsOverwritten`), or a second
  exit write: of a worker that lost its lease (`ReceiptNeedsLease`), or of a live send that the boot
  recovery refunded (`ReceiptNeedsQuietBoot`). `AgeOutOverwritesExactly` says when.
- A trailing intermediate receipt is said not to be forwarded twice. Two that are read before either
  is applied are both forwarded (`StaleDecisionForwardsTwice`); `OneInterimExactly` says when.
- The in-loss check and the billing are two queries without an order, and one takes the last
  catch-all where the other takes the first. A group with two catch-alls or a repeated prefix can be
  sold at a loss (`TwoCatchAllsCanLose`, `RepeatedPrefixCanLose`); `ProtectionIsExact` says when.
  Rates that cannot be read pass the check (`UnreadableIsSafeExactly`).
- The answer that all carriers were skipped is also given when a contacted carrier failed without a
  response code (`SkipReportCanBeWrong`).
- Rate rows are unique per prefix and effective date, so overlapping dates repeat a prefix, and the
  unordered query then decides the price (`RepeatedPrefixDependsOnOrder`); `OrderIsIrrelevantExactly`
  says for which destinations.
- The throttle's limit of five failures and a client's bind limit are each compared in one critical
  section and raised in another. With c attempts in flight they become 4 + c and limit + c - 1
  (`CountBoundIsExact`, `FiveIsExact`, `LimitIsKeptExactly`); an attempt marked five minutes late can
  even undo a block (`StaleMarkUnblocks`). A successful bind clears the key, so that failures with
  successes between them are not bounded in number (`SuccessesForget`).
- The client ledger checks that an amount is positive (`minisms/deploy/minisms_db.sql:344`): a
  zero-charge message always fails its debit and is answered as insufficient balance. The carrier
  ledger has the same check (`:193`), so a zero-cost carrier is never billed and its messages are
  always forced accepted.

## Beside the pipeline

`RoundRobin.dfy`, `Prefix.dfy`, `InLoss.dfy`, `Eligibility.dfy` and `Failover.dfy` are the selection of
carriers;
`BindThrottle.dfy`, `ThrottleWindows.dfy`, `ThrottleRace.dfy`, `ThrottleIntervals.dfy`,
`ThrottleLimits.dfy`, `Sessions.dfy`, `BindLimit.dfy` and
`SmppServer.dfy` the SMPP ingress; `SessionGroup.dfy` the egress
group; `LogHub.dfy` and `WireLog.dfy` the live and the rotated logs. The web login throttle
(`minisms/internal/web/auth.go:97-126`) is the machine of `BindThrottle.dfy` under other names.

## Model

| member | source | states |
|---|---|---|
| `Ledger.ChainedReplays` | minisms/deploy/minisms_db.sql:684-770 | A ledger whose entries chain gives a non-negative balance, and replaying it from the opening balance gives the stored balance |
| `Ledger.PostingKeepsChain` | minisms/deploy/minisms_db.sql:684-770 | Every debit and credit that does not raise keeps the ledger chained and the balance non-negative |
| `Conservation.StepPosts` | minisms/internal/sending/queue.go:52-108 | One step moves a balance by exactly what payments, refunds and charges on record moved by, and only appends ledger entries |
| `Conservation.RunSolvent` | minisms/internal/sending/queue.go:294-316 | Every reachable state is solvent, with no hypothesis on the run |
| `Conservation.BalanceIsAccountedFor` | minisms/internal/sending/submit.go:93-154 | In every reachable state, over every interleaving, crash and aborted transaction: balance >= 0, balance == opening + payments - charges of created rows + refunds == the ledger replayed == the last entry |
| `Conservation.LedgerOnlyGrows` | minisms/deploy/minisms_db.sql:498-506 | Over a run every earlier ledger is a prefix of every later one |
| `Ledger.ChargeIsAccountedFor` | minisms/internal/billing/carrier_charge.go:29-39 | A charge posts exactly its amount: off the balance, onto the total, and as one new debit from the old balance; only a positive amount posts, and the ledger keeps replaying |
| `CarrierBilling.CarrierIsAccountedFor` | minisms/deploy/minisms_db.sql:613-680 | In every reachable state a carrier has its opening balance less the costs of the bills committed to it; its totals are their costs, number and segments, and its ledger has one entry for each and replays |
| `NetCharge.ClientPaysForUnrefundedOnly` | minisms/internal/sending/queue.go:294-316 | Under lease and quiet boot the balance is opening + payments - charges of the rows never refunded: no charge is both kept and refunded, or refunded twice |
| `NetCharge.RunRefundTotal` | minisms/internal/sending/queue.go:294-316 | The refund events on record are, row by row, whole charges of rows of that client |
| `Exclusivity.StepRow` | minisms/internal/db/sms_queue.go:85-173 | What any step can do to one row: client, charge, receipt time and expiry never change, and every other change is one named statement, an exit step's included |
| `Exclusivity.StepStatus` | minisms/internal/db/sms_queue.go:85-173 | The life of a message: how every step moves its status, by step and status alone; the carrier is set only by the write that accepts it, the next due time only by what requeues it |
| `Exclusivity.StepCount` | minisms/internal/sending/queue.go:221-256 | How many events of each kind a step records for a message |
| `Exclusivity.StepNeverRequeues` | minisms/internal/db/sms_queue.go:125-147 | No step puts a row that is neither queued nor sending back into the queue |
| `Exclusivity.StepSafe` | minisms/internal/db/sms_queue.go:85-159 | Exclusive claims, held rows still owed, and refunds only of rows out of the queue are kept by every step that spares held rows: no reaping of a held stuck row, no listing of a held row in sending |
| `Exclusivity.SafeRunsExactly` | minisms/internal/db/sms_queue.go:85-159 | Every state of a run is safe if and only if no reaper step meets a held stuck row and no boot recovery lists a held row in sending |
| `Exclusivity.RunSafe` | minisms/internal/db/sms_queue.go:85-159 | Runs under lease and quiet boot are of that kind |
| `Exclusivity.HeldOnceRefundedOnce` | minisms/internal/sending/queue.go:212-316 | Over every such run, crashes included: a row is held by at most one worker and once, a held row is not queued, a charge is refunded at most once and then the row is out of the queue |
| `Exclusivity.ReaperIsSafeExactly` | minisms/internal/sending/queue.go:318-332 | The reaper keeps a safe state safe if and only if no held row is stuck at that instant: the lease is exactly what is needed |
| `Exclusivity.RecoveryIsExclusiveExactly` | minisms/internal/runtime/runtime.go:54-83 | Listing for the boot recovery keeps claims exclusive if and only if no held row is sending when it lists |
| `AcceptedOnce.LeavingIsPermanent` | minisms/internal/db/sms_queue.go:89-173 | With no hypothesis at all: once a row is outside queued and sending no step of any run puts it back |
| `AcceptedOnce.RunSafeAccept` | minisms/internal/sending/queue.go:255-290 | Accepted messages are in good hands: out of the queue, or still held by the worker they were accepted for |
| `AcceptedOnce.AcceptedOnceNeverRefunded` | minisms/internal/sending/queue.go:262-316 | With final writes too: at most one acceptance per message, never both refunded and accepted, carriers billed only for what they accepted |
| `AcceptedOnce.AcceptedIsNeverRedispatched` | minisms/internal/sending/queue.go:255-290 | Once accepted, the number of dispatches of a message is final |
| `AcceptedOnce.LostWriteIsSafeExactly` | minisms/internal/sending/queue.go:285-290 | A crash or a failed forced write keeps accepted messages safe if and only if no accepted message it abandons is still in the queue |
| `RetryBound.RetriesEnd` | minisms/internal/sending/queue.go:245-254 | A message with validity ttl is claimed unexpired at most ceil(ttl / delta) times in any leased run, delta = min(backoff base, backoff cap, stuck) |
| `RetryBound.StepSpacedRow` | minisms/internal/sending/queue.go:318-343 | Each attempt costs at least delta, whether the row returns by requeue or by the reaper |
| `RetryBound.BackoffAtLeastDelta` | minisms/internal/sending/queue.go:334-343 | The backoff never falls below delta |
| `RetryBound.BackoffIsExact` | minisms/internal/sending/queue.go:334-343 | The backoff of attempt n is n times the base if that is at most the cap, else the cap; before any attempt it is the base; a base beyond the cap gives the cap |
| `RetryBound.BackoffGrowsToTheCap` | minisms/internal/sending/queue.go:334-343 | So it never shrinks as attempts grow, and stays at the cap once there |
| `RetryBound.AttemptsAreClaims` | minisms/internal/db/sms_queue.go:89-123 | In every run the attempts stored on a row are the number of claims made of it |
| `RetryBound.RetryIsScheduled` | minisms/internal/sending/queue.go:245-254 | In any leased run a message whose attempt failed is due again n times the base later, at most the cap, n being the claims made of it so far |
| `Counterexamples.LeaseIsNeeded` | minisms/internal/db/sms_queue.go:137-147 | A run breaking only the lease refunds one charge twice: the client ends with more than was paid in |
| `Counterexamples.FinalWriteIsNeeded` | minisms/internal/sending/queue.go:255-290 | A run breaking only the final write has the same message accepted twice |
| `Counterexamples.QuietBootIsNeeded` | minisms/internal/sending/sync_recover.go:20-51 | A run breaking only the quiet boot ends with a message accepted, billed and refunded, each once |
| `Counterexamples.BilledAgainIsReplaced` | minisms/internal/db/sms_logs.go:77-102 | From any state in which a message already written out is about to be billed, a receipt, the billing and a sweep replace its final receipt |
| `Counterexamples.ReceiptNeedsLease` | minisms/internal/db/sms_queue.go:137-147 | A run breaking only the lease, with receipts after the exit write, in which two workers bill a message and the final receipt between is replaced |
| `Counterexamples.ReceiptNeedsQuietBoot` | minisms/internal/sending/sync_recover.go:20-51 | The same in a run breaking only the quiet boot |
| `SmsStore.Store.DeductClientBalance` | minisms/deploy/minisms_db.sql:684-730 | Debits and appends one entry, or raises and changes nothing |
| `SmsStore.Store.CreditClientBalance` | minisms/deploy/minisms_db.sql:732-770 | Credits and appends one entry, or raises and changes nothing |
| `SmsStore.Store.Enqueue` | minisms/internal/sending/queue.go:77-124 | From the balance lock to the commit: row and debit together or neither; which outcome is answered when; a zero charge passes the balance check and is answered as insufficient balance |
| `SmsStore.Store.ReserveSend` | minisms/internal/sending/submit.go:93-154 | The same reservation for a synchronous send |
| `SmsStore.Store.ClaimQueuedForSend` | minisms/internal/db/sms_queue.go:89-123 | Claims at most limit distinct due unlocked rows, none of those left out comes before a claimed one, and nobody is left out while there is room |
| `SmsStore.Store.FirstDue` | minisms/internal/db/sms_queue.go:93-104 | The first claimable row in claim order |
| `SmsStore.Store.RequeueSMS` | minisms/internal/db/sms_queue.go:125-135 | Only a row still sending returns to the queue |
| `SmsStore.Store.ReapStuckSending` | minisms/internal/db/sms_queue.go:137-147 | Exactly the stuck rows return to the queue, and how many |
| `SmsStore.Store.ForceMarkAccepted` | minisms/internal/db/sms_queue.go:165-173 | Only a row still sending is forced accepted |
| `SmsStore.Store.FinalizeSent` | minisms/internal/sending/queue.go:262-290 | Carrier charged, usage counted and row accepted in one transaction, else forced, else unchanged; a zero cost or an unknown carrier never bills |
| `SmsStore.Store.DeductCarrierBalance` | minisms/deploy/minisms_db.sql:613-680 | Balance, ledger entry and usage totals move together, or the statement raises and nothing moves |
| `SmsStore.Store.FinalizeUndelivered` | minisms/internal/sending/queue.go:294-316 | Undelivered and refunded together or neither; the client is notified only then |
| `SmsStore.Store.FinalizeSendFailed` | minisms/internal/sending/submit.go:230-262 | Failed, with the refund when the setting says so, together or neither |
| `SmsStore.Store.UpdateDLRReceived` | minisms/internal/db/dlr.go:82-107 | First final wins: applies exactly while no final status is stored |
| `SmsStore.Store.AgeOutAcceptedNoDLR` | minisms/internal/db/sms_aging.go:44-56 | Applies exactly to a row still accepted |
| `SmsStore.Store.ListStuckSending` | minisms/internal/db/sms_queue.go:45-68 | Exactly the rows still sending |
| `Pipeline.SendingIds` | minisms/internal/db/sms_queue.go:45-68 | Lists each row still sending exactly once and no other |
| `Worker.DispatchOne` | minisms/internal/sending/queue.go:221-256 | One claimed message, at the store and clock its turn finds: the store after it, carriers included; notification exactly when it is given up and its refund commits |
| `Worker.WorkRows` | minisms/internal/sending/queue.go:212-217 | Each row in order at the store its turn finds, others acting in between, stopping where told: the store after every turn |
| `Worker.WorkBatch` | minisms/internal/sending/queue.go:193-219 | One round of the worker loop: the claim, then the store after every row worked |
| `Worker.SubmitQueued` | minisms/internal/sending/queue.go:25-124 | The queued submit: the early answers for rate, charge and route write nothing; otherwise the reservation of a queued row, or no change |
| `Worker.SubmitSync` | minisms/internal/sending/submit.go:31-85 | The synchronous send: the early answers for rate, charge and route write nothing; otherwise the reservation, and after anything others do, the last phase and its answer |
| `Worker.RowFollows` | minisms/internal/sending/queue.go:221-290 | Handling a claimed message is a sequence of enabled machine steps with the same effect |
| `Worker.WorkIsARun` | minisms/internal/sending/queue.go:193-219 | A whole worker round, with any steps of others between its rows and an early stop, is a run of the machine that ends with the loop's store |
| `Worker.SendIsARun` | minisms/internal/sending/submit.go:74-85 | So is a synchronous send, whatever others do while it is with the carriers |
| `Worker.FollowExtendsRun` | minisms/internal/sending/queue.go:193-219 | Such steps extend any run, so every theorem about runs holds of the loops |
| `Worker.GivenUpSettles` | minisms/internal/sending/queue.go:294-316 | A message given up is marked undelivered and its charge paid back in one go, or nothing happens; the fields of the row, the account and its ledger |
| `Worker.AcceptedSettles` | minisms/internal/sending/queue.go:262-290 | An accepted message leaves the queue with its carrier charged exactly the cost, else is forced out with nobody charged, else nothing happens |
| `Worker.LostSettles` | minisms/internal/sending/queue.go:243-254 | A message no carrier took is due again n times the base later, at most the cap, n being its attempts so far; nothing else changes |
| `Worker.RefundedSendIsFree` | minisms/internal/sending/submit.go:226-262 | A failed send that refunds leaves every balance as it was and two ledger entries |
| `Worker.UnrefundedSendIsPaid` | minisms/internal/sending/submit.go:226-262 | A failed send that does not refund leaves the charge paid |
| `Recovery.RecoverStuckSyncSends` | minisms/internal/sending/sync_recover.go:20-51 | The loop, with any set of failing transactions, computes RecoverAll and its count |
| `Recovery.RecoveryRepairs` | minisms/internal/sending/sync_recover.go:20-51 | Balances change by exactly the charges of the rows moved out of sending; exactly the refundable rows whose transaction succeeds move; every other row is untouched |
| `Recovery.RecoveredCount` | minisms/internal/sending/sync_recover.go:25-50 | The number reported is the number of rows moved |
| `Recovery.RecoveryConverges` | minisms/internal/sending/sync_recover.go:25-46 | What failed is exactly the next worklist; after a pass without failure a second pass recovers nothing |
| `Recovery.RunRowsRefundable` | minisms/internal/sending/submit.go:93-154 | Every row any run creates can be refunded |
| `Recovery.CrashIsRepaired` | minisms/internal/runtime/runtime.go:75-83 | From any reachable state a recovery without failures leaves no row sending and gives every client back what its sending rows cost |
| `Recovery.RecoveryIsARun` | minisms/internal/sending/sync_recover.go:20-51 | The recovery loop is a run of the machine: it lists, then undelivers row after row, whichever transactions fail |
| `Receipts.RunFinalsOk` | minisms/internal/db/dlr.go:82-107 | In every run, with any number of exit writes at any time: a final status is stored exactly when one was recorded, the stored one is the last, and a row once written out stays out of the queue |
| `Receipts.AgeOutOverwritesExactly` | minisms/internal/db/sms_aging.go:38-56 | In every run: an age-out that applies overwrites a final receipt if and only if the last write to accepted found one stored; final statuses are at most one more than such writes, and all but the first are age-outs |
| `Receipts.OnlyAgeOutRecordsAnother` | minisms/internal/db/sms_aging.go:44-56 | With a final status stored a step records another if and only if it is an age-out of an accepted row |
| `Receipts.OneFinalExactly` | minisms/internal/db/sms_aging.go:38-56 | A run records at most one final status if and only if no sweep marks the row while the last write to accepted hides its final receipt |
| `Receipts.OneFinalStatus` | minisms/internal/dlr/processor.go:64-103 | With one exit write and receipts after it: one final status at most, it never changes, nor does the status, and age-out cannot apply after it |
| `Receipts.StatusFollowsReceipt` | minisms/internal/db/dlr.go:86-97 | With one exit write and receipts after it: delivered, failed or rejected is the status exactly as the stored final receipt reports delivered, undelivered or rejected |
| `Receipts.OtherReceiptsKeepStatus` | minisms/internal/db/dlr.go:86-103 | In every run an intermediate receipt leaves the status as it is, and one after a final receipt leaves the whole row |
| `ReceiptForwards.ForwardsAreAccountedFor` | minisms/internal/dlr/processor.go:96-103 | In every run: no more final forwards than final statuses recorded, and no more other forwards than decisions to forward an intermediate receipt |
| `ReceiptForwards.OneFinalForward` | minisms/internal/dlr/processor.go:235-237 | With one exit write and receipts after it, however receipts and sweeps interleave, the client is sent a final status at most once |
| `ReceiptForwards.AtMostTwoForwards` | minisms/internal/dlr/processor.go:96-103 | With no stale decision either, at most two forwards in all |
| `ReceiptForwards.OneInterimExactly` | minisms/internal/dlr/processor.go:77-101 | In every run at most one intermediate receipt is chosen for forwarding if and only if no such choice is made on a read that an applied receipt has overtaken |
| `ReceiptForwards.SerialHasNoStaleDecision` | minisms/internal/dlr/processor.go:64-103 | Receipts and sweeps run one after another make no such choice |
| `ReceiptLimits.FinalsAreReached` | minisms/internal/db/sms_logs.go:77-102 | For every n: n exit writes with n final statuses, all receipts after the first exit, and n + 1 final statuses with an earlier receipt |
| `ReceiptLimits.OneFinalNeedsOneExit` | minisms/internal/db/sms_logs.go:77-102 | With receipts after the first exit write, one final status is the limit of all runs of at most n exit writes if and only if n is at most one |
| `ReceiptLimits.EarlyReceiptIsOverwritten` | minisms/internal/db/sms_logs.go:77-102 | A run with one exit write in which an early delivered is replaced by undelivered |
| `ReceiptLimits.SecondExitOverwrites` | minisms/internal/db/sms_logs.go:77-102 | A run with receipts after the first exit write in which a second one does the same |
| `ReceiptLimits.StaleDecisionForwardsTwice` | minisms/internal/dlr/processor.go:77-101 | A run with one exit write, and receipts after it, in which two interleaved intermediate receipts are both forwarded |
| `Projection.RunProjects` | minisms/internal/db/sms_queue.go:89-173 | Every run of the pipeline, watched at one row, is a run of the receipts machine with the same row and as many exit writes, and with receipts after the first when that is so of the pipeline |
| `Projection.OneExit` | minisms/internal/sending/queue.go:255-316 | Under lease and quiet boot a message is written out of the queue at most once, and is then in nobody's hands |
| `Projection.FinalReceiptIsKept` | minisms/internal/db/dlr.go:82-107 | In the pipeline, under lease and quiet boot and with receipts after the exit write: once a final receipt is stored the status is the one it reports, and no step of any run changes it, its time or the status |
| `Inbound.HandleInbound` | minisms/internal/dlr/processor.go:64-103 | The row after one receipt, and exactly when and what is forwarded |
| `Inbound.FirstAndFinalAreForwarded` | minisms/internal/dlr/processor.go:96-103 | Of receipts in sequence the client hears exactly the first and, if another, the first final one, which is the one stored |
| `Inbound.InboundIsARun` | minisms/internal/dlr/processor.go:64-103 | One undisturbed receipt is the machine steps read, update, forward |
| `Ageing.ListStuckAcceptedNoDLR` | minisms/internal/db/sms_aging.go:14-36 | At most limit distinct overdue rows, earliest received first, and none earlier left out |
| `Ageing.TakeTurn` | minisms/internal/runtime/aging.go:68-77 | One turn: any receipts land first, then the guarded close |
| `Ageing.Sweep` | minisms/internal/runtime/aging.go:60-95 | Every row after the sweep and whom it notifies, with any receipts landing before each turn, a clock per turn, and marks failing; no account is written |
| `Ageing.ClosedUnlessReceipted` | minisms/internal/runtime/aging.go:68-78 | A listed message is closed if and only if no final receipt came by its turn (and the mark succeeds); whichever came first stays |
| `Ageing.NotifiedWhenClosed` | minisms/internal/runtime/aging.go:86-90 | A message is notified if and only if its own turn closed it |
| `Ageing.FinalRowStays` | minisms/internal/runtime/aging.go:68-78 | A row with a final status is changed by no later turn |
| `Ageing.SweepIsARun` | minisms/internal/runtime/aging.go:60-95 | Watched at one row the sweep, with all receipts that land during it, is a run of the receipts machine: the same row after every turn, and about to notify exactly when the row's own turn closed it |
| `RoundRobin.RouteCounters.Next` | minisms/internal/sending/failover.go:29-34 | Increments this route only and returns the new count |
| `RoundRobin.WalkTo` | minisms/internal/sending/failover.go:90-104 | The weighted walk picks the owner of the position; the nobody-picked fallback is unreachable |
| `RoundRobin.Fronted` | minisms/internal/sending/failover.go:104-112 | The pick is tried first, the others behind it as they stand in the route |
| `RoundRobin.OrderLoadbalance` | minisms/internal/sending/failover.go:79-112 | No weight: slot order and an untouched counter; otherwise the owner of the counter modulo the total is tried first and the others follow in slot order |
| `RoundRobin.OwnerIsUnique` | minisms/internal/sending/failover.go:93-103 | Each position has one owner |
| `RoundRobin.ExactShareOfATurn` | minisms/internal/sending/failover.go:79-112 | Of the orders that any W consecutive calls return, exactly weight-many try carrier i first |
| `RoundRobin.ShareOfAnyWindow` | minisms/internal/sending/failover.go:79-112 | Of the orders that any n consecutive calls return, floor(n/W) * weight try it first, plus at most min(weight, n mod W) |
| `Failover.OrderOverflow` | minisms/internal/sending/failover.go:116-129 | Every ready carrier before every other, each group in slot order, and each carrier once |
| `Failover.OrderCarriers` | minisms/internal/sending/failover.go:45-67 | In every mode the candidates of the route, each once and with its own slot, in the order that mode promises |
| `Failover.OrderIsDetermined` | minisms/internal/sending/failover.go:45-129 | In every mode that rule, and that each carrier of the route is tried once, leave exactly one order |
| `Failover.CandidatesAreTheSlots` | minisms/internal/sending/failover.go:49-57 | The candidates are the carriers of the occupied slots, each once, in slot order and with the weight of its slot |
| `Failover.ContactedExactly` | minisms/internal/sending/dispatch.go:52-150 | A carrier of the order is contacted if and only if it is known, active and eligible, and skipped if and only if a policy skips it |
| `Failover.WinnerIsFirst` | minisms/internal/sending/dispatch.go:52-150 | The winner is the first contacted carrier that accepts |
| `Failover.FailureIsReported` | minisms/internal/sending/dispatch.go:52-150 | 503 for a carrier that could not be asked, otherwise what it answered; a skip or no answer reports nothing |
| `Failover.Outcome.TryDispatch` | minisms/internal/sending/dispatch.go:230-366 | What every kind of answer writes into every field of the shared record, and what it leaves stale |
| `Failover.Outcome.HandleCarrier` | minisms/internal/sending/dispatch.go:52-150 | One turn of the loop; on acceptance every billed or stored field describes this carrier |
| `Failover.DispatchWithFailover` | minisms/internal/sending/dispatch.go:33-152 | Contacts exactly the eligible carriers up to the first acceptance; on success the record describes the winner only; on failure the last code and body are those of the last turn that set them |
| `Failover.WinnerIsNotSoldAtALoss` | minisms/internal/carrier/eligibility.go:86-127 | When every verdict is that of the check for a client not to be served at a loss, whatever carrier failover selects, the cost billed later, from another read of the rates, is at most the client charge for all segments |
| `Failover.SkipReportIsExact` | minisms/internal/sending/submit.go:230-236 | When the all-carriers-skipped answer is right: if and only if no contacted carrier failed without a code, or somebody set one |
| `Failover.SkipReportCanBeWrong` | minisms/internal/sending/submit.go:230-236 | Two carriers for which it is wrong |
| `Eligibility.CheckCarrierEligibility` | minisms/internal/carrier/eligibility.go:24-130 | The four verdicts, each if and only if; which sender the carrier sees; refused in loss only when a row that may answer is dearer, and never when losses are allowed or no rates are read; eligible only when no such row is |
| `Eligibility.AdmittedSenders` | minisms/internal/carrier/eligibility.go:18-88 | Whom each policy lets send, in characters: any, one to fifteen digits, a plus and seven to fifteen digits not starting with zero, those listed, or nobody |
| `Eligibility.SegmentInfo` | minisms/internal/billing/rate.go:69-85 | The least number of 160- or 70-character segments that hold the message, at least one; the small size exactly when some character is outside the 7-bit table |
| `Prefix.NormalizeDestination` | minisms/internal/billing/rate.go:111-121 | Trimming and dropping a plus change nothing: the result is the digits |
| `Prefix.DigitsAreKept` | minisms/internal/billing/rate.go:111-121 | The digits of a text are those of its parts in order, and a character counts exactly when it is 0 to 9 |
| `Prefix.ActiveRows` | minisms/internal/routing/matcher.go:11-50 | The active rows are exactly the entries of active listings |
| `Prefix.LongestPrefix` | minisms/internal/billing/rate.go:87-109 | The rate loop (and, same loop, the route, cache and simulator ones) returns the chosen entry |
| `Prefix.LongestPrefixMatch` | minisms/internal/routing/matcher.go:16-51 | Filtering by status inside the loop is choosing among the active entries |
| `Prefix.BestMatch` | minisms/internal/routecache/cache.go:243-265 | A longest matching entry, or none exactly when nothing matches |
| `Prefix.FirstCatchAll` | minisms/internal/sending/route.go:77-99 | The first catch-all, or none exactly when there is none |
| `Prefix.ChooseIsChoice` | minisms/internal/billing/rate.go:87-109 | The choice is a longest match, else a catch-all, and is absent exactly when neither exists |
| `Prefix.ChoiceIsUnique` | minisms/internal/routecache/cache.go:243-265 | With distinct prefixes there is only one such entry |
| `Prefix.OrderIsIrrelevantExactly` | minisms/internal/billing/rate.go:40-67 | For a destination the answer is the same for every order of the rows if and only if only one row can be the answer |
| `Prefix.DistinctPrefixesLeaveOneChoice` | minisms/internal/routecache/cache.go:243-265 | Distinct prefixes are enough for that |
| `Prefix.EveryChoiceIsChosen` | minisms/internal/billing/rate.go:87-109 | Any row that may be the answer is the answer in some order |
| `Prefix.OrderDoesNotMatter` | minisms/internal/web/simulate.go:302-324 | When one row only can be the answer, order and repetition of the rows do not matter |
| `Prefix.RepeatedPrefixDependsOnOrder` | minisms/internal/billing/rate.go:40-67 | Two rows for one prefix: the order decides |
| `InLoss.ScanCarrierRate` | minisms/internal/carrier/eligibility.go:102-119 | The scan takes the longest match, else the last catch-all |
| `InLoss.ProtectionIsExact` | minisms/internal/carrier/eligibility.go:86-127 | A carrier that passes costs no more than the client pays, for every client rate and every order in which the check and the billing read the rows, if and only if the rows that may answer have one rate |
| `InLoss.CostIsExact` | minisms/internal/billing/carrier_charge.go:10-27 | The cost per segment is the rate of a row that may answer, or the client's own rate exactly when none may |
| `InLoss.MarginIsNotNegative` | minisms/internal/sending/helpers.go:26-32 | Then the cost billed for all segments is at most the charge, though the billing reads again |
| `InLoss.DistinctPrefixesHaveOneRate` | minisms/internal/billing/carrier_charge.go:10-27 | Distinct prefixes, so at most one catch-all, are enough |
| `InLoss.UnreadableIsSafeExactly` | minisms/internal/carrier/eligibility.go:95-99 | A check whose query failed protects if and only if the billing finds no rate either |
| `InLoss.RepeatedPrefixCanLose` | minisms/internal/billing/rate.go:40-43 | A repeated prefix, read in two orders, is sold at a loss |
| `InLoss.TwoCatchAllsCanLose` | minisms/internal/carrier/eligibility.go:102-119 | Two catch-alls with which a passing carrier is billed more, even read in one order |
| `BindThrottle.Throttle.IsBindBlocked` | minisms/internal/smpp/server/bind_limit.go:31-46 | Whether the key is blocked, and the entry it leaves |
| `BindThrottle.Throttle.MarkBindFailure` | minisms/internal/smpp/server/bind_limit.go:48-60 | The entry after one failure; other keys untouched |
| `BindThrottle.Throttle.ClearBindFailures` | minisms/internal/smpp/server/bind_limit.go:62-66 | The key is forgotten; other keys untouched |
| `ThrottleRace.CountIsBounded` | minisms/internal/smpp/server/bind_limit.go:31-60 | With check and mark apart and at most c attempts at one key in flight, one at a time or less than five minutes apart, the count never exceeds 4 + c, whatever successful binds clear the key between |
| `ThrottleLimits.CountBoundIsExact` | minisms/internal/smpp/server/bind_limit.go:31-60 | 4 + c bounds the count of all such runs if and only if c = 1 or attempts in flight read the clock less than five minutes apart |
| `ThrottleLimits.FiveIsExact` | minisms/internal/smpp/server/bind_limit.go:22-60 | The count never exceeds five in all such runs if and only if attempts come one at a time |
| `ThrottleLimits.CountIsReached` | minisms/internal/smpp/server/server.go:284-293 | For every c a run that counts 4 + c |
| `ThrottleLimits.StaleMarkUnblocks` | minisms/internal/smpp/server/bind_limit.go:55-59 | Two attempts five minutes apart, the older marked last: its block ends inside the window and a full entry lets an attempt pass |
| `ThrottleIntervals.FailuresAreBounded` | minisms/internal/smpp/server/bind_limit.go:22-60 | With no success between, any closed ten-minute interval holds at most 7 + c recorded failures when attempts in flight read the clock together, and 10 + c when they are less than five minutes apart |
| `ThrottleLimits.SpreadIsReached` | minisms/internal/smpp/server/bind_limit.go:48-60 | Both are reached, for every number in flight and every distance |
| `ThrottleLimits.EightIsExact` | minisms/internal/smpp/server/bind_limit.go:22-60 | With no success between, no ten minutes hold more than eight failures in all such runs if and only if attempts come one at a time |
| `ThrottleLimits.SuccessesForget` | minisms/internal/smpp/server/bind_limit.go:62-66 | With successes between there is no bound: for every n a run, one attempt at a time, with n failures at one instant |
| `ThrottleIntervals.ExaminedAreBounded` | minisms/internal/smpp/server/server.go:283-316 | The same bounds hold for credentials examined, marked or still in flight, when every attempt is wrong |
| `ThrottleLimits.AttemptsAreARun` | minisms/internal/smpp/server/bind_limit.go:31-60 | Failed attempts one after another are a run with one in flight |
| `ThrottleLimits.ThrottleBound` | minisms/internal/smpp/server/bind_limit.go:22-60 | One after another and with no success between: at most five counted and eight in any ten minutes |
| `Sessions.SessionRegistry.Add` | minisms/internal/smpp/server/sessions.go:59-67 | Appends to the live sessions; counts, set and delivery lists stay views of that sequence |
| `Sessions.SessionRegistry.Remove` | minisms/internal/smpp/server/sessions.go:71-95 | Takes the session out of all views; true exactly when it was live |
| `Sessions.SessionRegistry.BindCount` | minisms/internal/smpp/server/sessions.go:113-117 | The count kept for the client |
| `Sessions.CountIsNumber` | minisms/internal/smpp/server/sessions.go:113-117 | It is the number of live sessions of the client |
| `Sessions.SessionRegistry.PickDeliver` | minisms/internal/smpp/server/sessions.go:119-127 | The earliest-bound live session that can receive, or none exactly when there is none |
| `Sessions.CutOut` | minisms/internal/smpp/server/sessions.go:84-90 | The scan drops the first occurrence |
| `Sessions.RemovedOncePerBind` | minisms/internal/smpp/server/sessions.go:69-95 | Over any add/remove run, binds == successful removals + (1 if still live) |
| `Sessions.WithoutDeliverable` | minisms/internal/smpp/server/sessions.go:84-93 | Removing commutes with taking the delivery list |
| `SmppServer.Server.HandleBind` | minisms/internal/smpp/server/server.go:268-342 | A bind in its three critical sections, with whatever other connections do between them: exactly which requests are accepted, what the others are told, and that the session is of the mode asked for, for the client found, on this connection |
| `SmppServer.UndisturbedThrottle` | minisms/internal/smpp/server/server.go:276-323 | Undisturbed, a bind records a failure for a wrong credential of any kind and nothing else, and forgets the key on success |
| `SmppServer.Server.BeginBind` | minisms/internal/smpp/server/server.go:276-287 | Blank credentials and blocked keys are refused before the lookup; otherwise the entry is as the check leaves it |
| `SmppServer.Server.SettleBind` | minisms/internal/smpp/server/server.go:288-322 | The credential checks and the count, at the entry and the sessions found after the lookup |
| `SmppServer.Server.AcceptBind` | minisms/internal/smpp/server/server.go:323-330 | Failures forgotten and the session added |
| `SmppServer.WrongBindIsAnAttempt` | minisms/internal/smpp/server/server.go:284-316 | A wrong bind of any kind is one attempt of the throttle race: its check, and later its mark at whatever entry it finds |
| `SmppServer.RightBindIsAdmitted` | minisms/internal/smpp/server/server.go:317-322 | A right bind passes the count exactly when the bind-limit machine admits it |
| `BindLimit.SessionsAreBounded` | minisms/internal/smpp/server/server.go:317-330 | With at most c binds of a client between count and add, it never has more than limit + c - 1 sessions |
| `BindLimit.BoundIsReached` | minisms/internal/smpp/server/server.go:317-330 | One short of the limit, c binds pass the count together and all are added |
| `BindLimit.LimitIsKeptExactly` | minisms/internal/smpp/server/server.go:317-330 | The limit is kept by all such runs if and only if binds of the client come one at a time |
| `SmppServer.Server.EndSession` | minisms/internal/smpp/server/server.go:348-353 | Removes the session and logs exactly when it was present |
| `SmppServer.Server.HandlePdu` | minisms/internal/smpp/server/server.go:203-255 | One PDU of the connection loop |
| `SmppServer.Server.HandleConn` | minisms/internal/smpp/server/server.go:182-257 | The whole connection, with other connections acting between its reads and inside its binds; its log answers what was read, PDU by PDU |
| `SmppServer.ConnIsADialogue` | minisms/internal/smpp/server/server.go:203-255 | Each PDU is answered in turn by its kind and by the session bound: the right response, a session of the mode asked for, silence and the end otherwise |
| `SmppServer.EverySessionWasAskedFor` | minisms/internal/smpp/server/server.go:269-276 | Every session of a connection answers a bind PDU read in it, with its mode and its client |
| `SmppServer.ReceiverNeverSubmits` | minisms/internal/smpp/server/server.go:216-221 | In a connection whose session is a receiver nothing is ever submitted |
| `SmppServer.ConnIsLegal` | minisms/internal/smpp/server/server.go:182-257 | For every PDU sequence the trace is one the session states of SMPP v3.4, section 2.2, allow: submits only in a transmit-capable state, a second bind refused, nothing after the end |
| `SmppServer.EverySubmitIsPassedOn` | minisms/internal/smpp/server/server.go:216-221 | In a transmit-capable session every submit_sm read is submitted exactly once |
| `SmppServer.BindIsEndedOnce` | minisms/internal/smpp/server/server.go:189-193 | At most one accepted bind per connection, followed by exactly one end |
| `SmppServer.ConnLeavesNoTrace` | minisms/internal/smpp/server/server.go:187-193 | Once over, the registry is what the other connections alone would have left |
| `LogHub.FlattenedIsOneLine` | minisms/internal/smpp/egresslog/hub.go:106-106 | No line break survives and no other character changes |
| `LogHub.Hub.Append` | minisms/internal/smpp/egresslog/hub.go:102-120 | Logs one line, keeps the last 500, offers it to each subscriber without blocking; all promises kept |
| `LogHub.Hub.Subscribe` | minisms/internal/smpp/egresslog/hub.go:151-161 | A snapshot of the history as it stands and an empty channel from there on |
| `LogHub.Hub.Cancel` | minisms/internal/smpp/egresslog/hub.go:163-172 | No further sends; nothing received or queued is lost |
| `LogHub.Hub.Receive` | minisms/internal/smpp/egresslog/hub.go:151-174 | The oldest queued line |
| `LogHub.GapFreeExactly` | minisms/internal/smpp/egresslog/hub.go:102-120 | Snapshot and received lines together are the last lines of the log without a gap if and only if no line was dropped on a full buffer |
| `LogHub.SendKeeps` | minisms/internal/smpp/egresslog/hub.go:113-118 | A viewer always holds, in order, exactly the lines its channel took |
| `LogHub.AppendOk` | minisms/internal/smpp/egresslog/hub.go:102-120 | One append keeps every viewer of every key |
| `WireLog.FileLogger.Open` | minisms/internal/wirelog/wirelog.go:149-165 | Opens or creates the live file and takes over its size |
| `WireLog.FileLogger.Rotate` | minisms/internal/wirelog/wirelog.go:168-181 | Every generation up to maxFiles moves up by one, the last of them goes, an empty live file is opened; files numbered higher stay |
| `WireLog.FileLogger.RenameOlder` | minisms/internal/wirelog/wirelog.go:175-177 | The downward rename loop moves every generation exactly once |
| `WireLog.FileLogger.Write` | minisms/internal/wirelog/wirelog.go:128-147 | The files after one write, from any state a restart may find |
| `WireLog.WriteLosesOldestOnly` | minisms/internal/wirelog/wirelog.go:128-181 | What is lost plus what is kept is what was there plus the line: nothing is lost when the line fits, else the oldest generation alone |
| `WireLog.WrittenIs` | minisms/internal/wirelog/wirelog.go:128-181 | File by file: appended to the live file if it fits, else every generation moves up by one, the live file holds the line and leftovers stay |
| `WireLog.LogIsASuffix` | minisms/internal/wirelog/wirelog.go:128-181 | After any writes the generations joined are a suffix of everything written |
| `WireLog.LogIsBounded` | minisms/internal/wirelog/wirelog.go:135-137 | At most maxFiles + 1 managed files, each within maxBytes as long as every line is; leftovers of a larger setting are untouched |
| `SessionGroup.Group.Submit` | minisms/internal/smpp/egress/group.go:71-84 | Unavailable exactly when no session is ready, else the first ready one going round from the counter |
| `SessionGroup.ScanIsComplete` | minisms/internal/smpp/egress/group.go:77-82 | A round from anywhere meets every session |
| `SessionGroup.EachOncePerRound` | minisms/internal/smpp/egress/group.go:76-78 | With all n ready, any n consecutive submits use each session exactly once |
| `SessionGroup.LoadsAreEven` | minisms/internal/smpp/egress/group.go:76-78 | Over any k submits two ready sessions differ by at most one |

## Left out

- Pipeline.Apply: a batch claim may take any due, distinct rows; the order, the limit and the locks of the claim statement are in `Store.ClaimQueuedForSend`.
- Failed reservations, failed payments and statements that match no row are not steps of the machine: they change nothing.
- CarrierBilling.CarrierIsAccountedFor: the cost of a bill is an input of the machine; how it comes about is `InLoss.CostIsExact`. Carrier top-ups are not steps of it.
- Worker.DispatchOne: others act before a message's turn, not between its failed billing and the forced write; the machine lets them act there too.
- ThrottleIntervals.FailuresAreBounded: nothing is claimed for two or more attempts in flight that read the clock five minutes or more apart.
- ThrottleRace.CountIsBounded: an attempt reads the clock and is checked in one step.
- InLoss.MarginIsNotNegative: the rows do not change between the check and the billing.
- RoundRobin.RouteCounters.Next: the counter is unbounded; the original wraps after 2^64 calls, which breaks the share once unless the total divides it.
- SessionGroup.Group.Submit: the counter is unbounded; the original wraps and its conversion to int can turn negative.
- Overflow of numeric(18,6); amounts are unbounded integers.
- WireLog.FileLogger.Write: file operations succeed; a failed write or open, which drops lines, is not modelled.
- LogHub: the debug window and the counter of unmatched receipts.
- Eligibility.CheckCarrierEligibility: the lookups of the default sender and of the sender list, and whether the rates can be read, are inputs.
- Number rules, templates, and what transports send: each carrier's rewritten numbers and reply are inputs.
- Eligibility.SegmentInfo: the 7-bit table is a parameter, and the original's floating-point ceiling is exact integer arithmetic here.
- Tokens of carrier receipts: receipts arrive already normalized; the token tables are in `minisms/internal/dlr/status.go`.
- Timeline events, audit rows, wire-log contents, response codes and bodies stored on rows: no effect on the properties.
- A commit whose result is unknown to the client of the database, and clock skew between the two.
- The administrative currency conversion that rewrites balances, operator resend, and manual edits.
- Session supervision, reconnect backoff, web pages, the API handlers, reports, invoices and the editor.
