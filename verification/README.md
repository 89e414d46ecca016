# Verified models of the bank_dcn and commerce cores

A Dafny 4.11 project that models the parts of the templates whose correctness spans several functions, and
proves properties of the models over all inputs, all runs or all reachable states. `dafny verify
dfyconfig.toml` checks everything.

## What is modelled

**Cross-unit transfers (bank_dcn).** The RMB coordinator (`RmbCore`, and `RmbCoordinator` as the class that
updates its rows in place), the DCN units that execute steps against a journal with a unique key
(`Ledger`, `DcnUnit`), and the ADM mirror rebuilt from balance events (`AdmMirror`). `RmbProtocol` puts the
coordinator, the broker and the units together as one transition system: the broker is a bag, so messages
may be duplicated, delayed and reordered, a publish may fail, a unit may commit and crash before its receipt
is accepted, and the coordinator may time a transaction out, crash half way through that and restart. A receipt
may be handled in one go or in two - its writes, decided by readings made earlier, and `advance` later - with
timeouts, other receipts, crashes and redeliveries in between.
`RmbRows`, `RmbRuns`, `RmbTransfer` and `RmbConservation` prove what every run keeps, `RmbDelivery` what the coordinator
sends and that nothing it waits for is stranded, `RmbProgress` what `advance` decides row by row and that every request
can commit, `RmbTermination` that runs make boundedly many changes, `RmbBank` runs any number of transfers over shared balances, with accounts opened all
along, and checks the mirror and the reconciliation against them, `RmbLateDebit` is the run in which money is
lost, and `RmbStale` is about receipts that decide on readings gone stale. `Gns` is the id allocation and the
route cache.

**Inventory reservations (commerce).** `InventoryModel`, `InventoryStore` (greedy allocation over locations,
terminal fences, the movement ledger), `InventoryLines`, `InventoryInvariant`, `InventoryLedger` (the ledger row by row),
`InventoryGreedy`, `InventoryReplay` and `InventoryCommand` (trimming, merging and ordering a command). `CheckoutReservation` is what checkout makes of
the inventory service's answer.

**Order money (commerce).** `OrderMoney` (checked arithmetic, largest-remainder allocation), `Checkout`
(totals and reconciliation) and `CheckoutBuild` (pricing a cart).

**Order saga and payment (commerce).** `OrderSaga`, `SagaInvariant`, `SagaProgress` (what each
command and event does, and that the saga can end), `PaymentIntent`, `OrderPayment` (the two services with the events between them) and `RefundOutcome` (whether a cancelled order is paid back).

**Money text (bank).** `MoneyText`, over the text functions of `Text`.

Code that updates rows step by step is a class or a loop, proved equal to a specification function; the
theorems are about those functions.

## Findings

Each is a theorem with the exact condition.

- A transfer whose DEBIT receipt turns DONE after the CREDIT was already compensated gets a second CREDIT
  compensation and the DEBIT is never given back. A resting COMPENSATED transfer nets to zero if and only if
  no such receipt was handled; the target's account is always left as it was, and the source's is short of
  the amount in exactly the other runs (`RmbConservation.TransferConservation`). `RmbLateDebit` gives the
  run, for every transfer. Reconciliation does not show the loss: the mirror follows the units
  (`RmbBank.MirrorOfBank`).
- `handleReceipt` decides on statuses it has read before it writes. The writes are those of an atomic receipt if
  and only if the readings are still right (`RmbRows.StaleReadings`), and they keep the protocol's invariant
  if and only if a DONE receipt gets its step to DONE (`RmbStale.TakeKeepsIff`). Otherwise money can go wrong in
  two ways.
  - A DONE receipt that read FAILED but not the settling sets its step DONE and reopens nothing, with no crash
    at all: `RmbStale.StaleReceiptReopensNothing`, and `RmbStale.OverlookedArises` for the exact readings. A
    crash between the step's UPDATE and the reopening leaves the same rows. The transaction stays COMPENSATED
    with that original DONE and uncompensated over every run of the protocol from there if and only if no DONE receipt for
    another, FAILED original is handled (`RmbStale.OverlookedExactly`). Once one is, the transaction commits
    if every original is then DONE, and otherwise every DONE original is compensated
    (`RmbStale.ReopenedMeaning`). While it rests, a transfer's journals are off by the DEBIT or by the CREDIT
    (`RmbStale.OverlookedNet`).
  - A DONE receipt that read PENDING and is overtaken by a timeout matches no row and is acknowledged. The
    movement stays journaled with its step FAILED and uncompensated in every continuation
    (`RmbStale.LostReceiptIsForever`); it can happen to any step of any request (`RmbStale.LastReceiptHappens`).
- Reconciliation asks only units whose route is ACTIVE but compares with the mirror of all: once every event
  has arrived it reports consistent if and only if every ACTIVE unit answers and every account of the other
  units is empty (`AdmMirror.ReconcileAgrees`); before that, if and only if the missing events sum to the
  balances of the units left out (`AdmMirror.ReconcileMeaning`). No code in the repository sets a route to
  another status (templates/bank_dcn/ARCHITECTURE.md:189 names DRAINING), so leaving a unit out takes an
  operator's change.
- `SaveRefund` writes the intent's status before the refund row, and the refund table's trigger then refuses
  the row that completes a refund. A request is recorded if and only if it is otherwise valid and leaves
  something unrefunded (`PaymentSpec.RefundMeaning`, `PaymentSpec.FullRefundRefused`). Over whole runs on the
  migrated schema: no intent is ever 'refunded', and a cancelled order that was paid for stays in
  'compensating' for ever, still owing (`RefundOutcome.NeverPaidInFull`). Every request the order sends asks
  for the whole total, so with the trigger nothing at all is paid back
  (`RefundOutcome.OwnRequestsAllOrNothing`). Some run ends the compensation if and only if the trigger is
  missing (`RefundOutcome.CompensationEndsIffUnguarded`).
- A reservation the inventory service grants is refused by checkout unless every SKU was sent once and every
  line was drawn whole from one location (`CheckoutReservation.GrantedIsAcceptedIffUnsplit`). A stored cart
  holds a SKU once (templates/commerce/db/migrations/order_db.sql:20), so the split line is the case that
  happens; `CheckoutReservation.SplitLineIsRefused` gives it, for any SKU and any two stocks. Only the durable
  checkout validates (templates/commerce/internal/order/service.go:492); `checkoutLegacy`, line 575, does not.
- An order cancelled before it has seen its payment never asks for a refund, even when the capture event
  arrives later; an accepted cancellation can lead to a refund if and only if the payment had been seen
  (`SagaInvariant.RefundNeedsPaymentFirst`).
- Printing then parsing money is the identity if and only if the amount is not the smallest int64
  (`MoneyText.RoundTrip`).

## Assumptions

- The journal and the event log have the unique key (tx_id, account_id, direction)
  (templates/bank_dcn/db/init/dcn/01_init.sql:15, templates/bank_dcn/db/init/adm/01_init.sql:10); comments
  in the code name only two of the columns, and the model follows the schema.
- A transaction id chosen by a caller does not end in ":comp" and does not start with "local-", "interest-"
  or "init-"; otherwise it takes another movement's journal key. With such ids the text keys and the model's
  keys collide in the same cases (`JournalText.KeyTextsAgree`). Account ids are unique bank-wide.
- A receipt's writes are one step, and in the run theorems its readings are still right when they are made
  (`RmbCore.StillRight`); `RmbStale` says what happens when they are not.
- A message the broker accepted is not lost. Balance events are published at most once after commit; the
  mirror's theorems say what holds once all of them have arrived, or with some of them missing.
- Amounts are whole cents, as the DECIMAL(18,2) columns hold. They may have any sign: a zero amount is refused,
  because the driver counts the rows an update changes, and the account table's CHECK (balance >= 0) rejects
  a negative CREDIT beyond the balance, whose message is then requeued. Only local transfers are positive,
  as the transfer endpoint demands.
- A refund is handled atomically. The source reads before its transaction, and `SaveRefund` inserts the event
  even when ON CONFLICT DO NOTHING skipped the refund row (templates/commerce/internal/payment/store.go:221-261),
  so two concurrent deliveries of one request could publish two refund events.
- Ids built from hashes are opaque and distinct for distinct inputs; the
  handlers' events are decoded and addressed to the order at hand; the clock is a parameter.

## Model

| member | source | states |
|---|---|---|
| Contracts.ReverseUndoes | templates/bank_dcn/internal/contracts/messages.go:34-57 | a reversed action is a compensation under the other journal key and moves exactly the opposite amount |
| Contracts.PrefixDecides | templates/bank_dcn/internal/rmb/coordinator.go:313-316 | an action the units do not know counts as a compensation exactly when its name starts like one |
| Ledger.PostKeepsBooks | templates/bank_dcn/internal/dcnapp/transfer.go:124-155 | for an amount of any sign every balance stays opening plus signed journal and non-negative; a movement goes through exactly when its key is new, it is not zero and the account can take it, each refusal has its own cause, and the total changes by the movement's own amount |
| Ledger.ReplayAddsNothing | templates/bank_dcn/internal/dcnapp/transfer.go:124-135 | replaying a movement after anything else is a duplicate that changes nothing |
| JournalText.KeyTextsCollide | templates/bank_dcn/internal/contracts/messages.go:34-46 | exactly when two steps share the text of a journal key |
| JournalText.KeyTextsAgree | templates/bank_dcn/internal/dcnapp/transfer.go:102 | two rows of one account share the text of their journal key exactly when the model's keys are equal, for transaction ids that imitate no other key |
| DcnSpec.TransferConserves | templates/bank_dcn/internal/dcnapp/transfer.go:101-120 | a local transfer keeps the unit's total, is all or nothing, and goes through exactly under the stated condition |
| DcnSpec.PostedGrows | templates/bank_dcn/internal/dcnapp/steps.go:16-29 | a movement answered DONE has its key in the journal, and no posting removes a key |
| DcnSpec.BatchCovers | templates/bank_dcn/internal/dcnapp/interest.go:73-106 | one batch settles every listed account and touches no other balance |
| DcnSpec.RerunIsNoOp | templates/bank_dcn/internal/dcnapp/interest.go:73-106 | a batch over settled accounts changes nothing |
| DcnSpec.PostedIsSkipped | templates/bank_dcn/internal/dcnapp/interest.go:73-106 | a batch passes over an account whose interest of the date is journaled, whatever was read |
| DcnSpec.InterestBatchIdempotent | templates/bank_dcn/internal/dcnapp/interest.go:38-110 | whatever was posted in between, a later batch of the date adds no row and no amount to an account the first one paid; straight afterwards it changes nothing |
| DcnSpec.InterestOnceInterleaved | templates/bank_dcn/internal/dcnapp/interest.go:73-104 | with the postings of several batches and other movements interleaved in any way, an account is paid the interest of a date exactly when some batch asked for it, and once |
| DcnSpec.BatchPays | templates/bank_dcn/internal/dcnapp/interest.go:73-104 | a batch pays every listed account exactly its interest on the balance read, unless the date is journaled already |
| DcnUnit.RowTexts | templates/bank_dcn/internal/dcnapp/steps.go:33-63 | the account, direction, amount and tx_id text of every row a unit makes up |
| DcnSpec.BatchIsPosts | templates/bank_dcn/internal/dcnapp/interest.go:73-104 | a batch is its postings, each in its own transaction |
| DcnUnit.Unit.CreateAccount | templates/bank_dcn/internal/dcnapp/server.go:73-99 | an existing account is left alone; a new one adds its opening balance and, if positive, its event |
| DcnUnit.Unit.ApplyMovement | templates/bank_dcn/internal/dcnapp/transfer.go:124-155 | the in-place update is the Movement function |
| DcnUnit.Unit.ApplyStep | templates/bank_dcn/internal/dcnapp/steps.go:66-84 | commit and report, or roll back, keeping the unit's invariant, for an amount of any sign |
| DcnUnit.Unit.HandleStep | templates/bank_dcn/internal/dcnapp/steps.go:16-63 | an unknown action is dropped; otherwise the receipt says DONE exactly when the key is journaled afterwards, and only a negative CREDIT the table rejects is requeued |
| DcnUnit.Unit.LocalTransfer | templates/bank_dcn/internal/dcnapp/transfer.go:101-120 | is the Transfer function, keeps the invariant and the unit's total |
| DcnUnit.Unit.PostInterest | templates/bank_dcn/internal/dcnapp/interest.go:84-104 | one posting in its own transaction, reported by what the balances grew |
| DcnUnit.Unit.InterestBatch | templates/bank_dcn/internal/dcnapp/interest.go:38-110 | is the Batch function; the reported count and total are exactly what the journal and the balances grew by |
| AdmMirror.Mirror.HandleEvent | templates/bank_dcn/internal/adm/server.go:55-88 | is the Absorb function: deduplicate, then add |
| AdmMirror.Reconcile | templates/bank_dcn/internal/adm/server.go:147-187 | consistent exactly when every ACTIVE unit answered and their sums add up to the mirror's total; other units are not asked |
| AdmMirror.AbsorbAllMeaning | templates/bank_dcn/internal/adm/server.go:55-88 | the log holds each delivered event once and the mirror is its signed sum |
| AdmMirror.MirrorIgnoresOrderAndDuplicates | templates/bank_dcn/internal/adm/server.go:55-88 | the mirror depends only on the set of delivered events |
| AdmMirror.MirrorEqualsBooks | templates/bank_dcn/internal/adm/server.go:55-88 | once every event has arrived the mirror equals the books account by account |
| AdmMirror.MirrorLacks | templates/bank_dcn/internal/adm/server.go:55-88 | what the mirror's total lacks is exactly the sum of the events that have not arrived |
| AdmMirror.AnswersTotal | templates/bank_dcn/internal/dcnapp/server.go:120-129 | the ACTIVE units' balance sums add up to the balances of their accounts |
| AdmMirror.ReconcileMeaning | templates/bank_dcn/internal/adm/server.go:133-196 | reconcile is consistent exactly when every ACTIVE unit answers and the missing events sum to the balances of the units left out |
| AdmMirror.ReconcileAgrees | templates/bank_dcn/internal/adm/server.go:133-196 | once every event has arrived reconcile is consistent exactly when every ACTIVE unit answers and the other units' accounts are empty |
| RmbCoordinator.Coordinator.RegisterTx | templates/bank_dcn/internal/rmb/coordinator.go:135-180 | a known id is answered with its status and publishes nothing; of a new one every requested step is published, PENDING and in order |
| RmbCoordinator.Coordinator.PublishPending | templates/bank_dcn/internal/rmb/coordinator.go:184-212 | publishes PendingRows, which RmbRows.PublishedRows and RmbRows.PublishedIsPending say are the PENDING rows |
| RmbCoordinator.Coordinator.HandleReceiptMessage | templates/bank_dcn/internal/rmb/coordinator.go:238-284 | is the HandleReceipt function on the named transaction and leaves every other alone |
| RmbCoordinator.Coordinator.AdvanceTx | templates/bank_dcn/internal/rmb/coordinator.go:291-430 | the scans and branches are the Advance function |
| RmbCoordinator.Coordinator.ExpireTx | templates/bank_dcn/internal/rmb/coordinator.go:533-569 | is the Expire function |
| RmbCoordinator.Coordinator.Recover | templates/bank_dcn/internal/rmb/coordinator.go:573-591 | republishes a row if and only if it is a PENDING row of a PROCESSING transaction, and changes no row |
| RmbCoordinator.ScanSteps | templates/bank_dcn/internal/rmb/coordinator.go:309-325 | DONE originals and compensations in order, and whether an original FAILED or is PENDING |
| RmbCoordinator.BuildCompensations | templates/bank_dcn/internal/rmb/coordinator.go:332-357 | the creation loop is NewCompensations, numbered after the highest row |
| RmbRows.NewCompensationsMeaning | templates/bank_dcn/internal/rmb/coordinator.go:332-357 | exactly as many rows as missing, reversing the highest-numbered DONE originals, numbered on |
| RmbRows.PublishedRows | templates/bank_dcn/internal/rmb/coordinator.go:184-212 | the published rows are exactly the PENDING ones, each once and in order |
| RmbRows.PublishedIsPending | templates/bank_dcn/internal/rmb/coordinator.go:184-212 | a row is published if and only if it is one of the transaction's and PENDING |
| RmbRows.AppendCompensations | templates/bank_dcn/internal/rmb/coordinator.go:332-365 | creating compensations keeps them at most as many as DONE originals |
| RmbRows.AdvanceKeeps | templates/bank_dcn/internal/rmb/coordinator.go:291-430 | advance keeps the rows well formed, only appends, and turns no row DONE |
| RmbRows.ReceiptKeeps | templates/bank_dcn/internal/rmb/coordinator.go:238-284 | only the named step can turn DONE, and does when the receipt says so; DONE is final |
| RmbRows.ExpireKeeps | templates/bank_dcn/internal/rmb/coordinator.go:533-569 | a timeout keeps the rows well formed and revokes no DONE |
| RmbRows.CommittedIsFinal | templates/bank_dcn/internal/rmb/coordinator.go:298-304 | no receipt and no timeout changes a COMMITTED transaction |
| RmbProtocol.KeyDeterminesRow | templates/bank_dcn/internal/dcnapp/steps.go:33-63 | within a transaction a journal key determines the movement |
| RmbProtocol.StepKeepsInvariant | templates/bank_dcn/internal/rmb/coordinator.go:238-591 | every event of the protocol, receipts handled in two parts included, keeps: DONE is journaled once, a journaled original is DONE or has a message in flight |
| RmbRuns.InvariantAlways | templates/bank_dcn/internal/rmb/coordinator.go:135-591 | so it holds after every run, for any number of steps and any faults |
| RmbRuns.CommittedForGood | templates/bank_dcn/internal/rmb/coordinator.go:417-430 | once any run has reached COMMITTED the journals hold exactly the requested movements, each once, no compensation exists, and no continuation changes it |
| RmbDelivery.SentIsPublished | templates/bank_dcn/internal/rmb/coordinator.go:184-212 | when no publish call fails the broker gets exactly the messages of the published rows |
| RmbDelivery.SentMeaning | templates/bank_dcn/internal/rmb/coordinator.go:184-212 | with failing calls, exactly the messages of the PENDING rows whose call does not fail |
| RmbDelivery.NewlyPendingIsSent | templates/bank_dcn/internal/rmb/coordinator.go:332-379 | whatever a receipt, its advance or a timeout adds or sets back to PENDING has its message in flight unless its publish call failed |
| RmbDelivery.TimeoutRedelivers | templates/bank_dcn/internal/rmb/coordinator.go:548-555 | a timeout during compensation changes no row and sends every PENDING one again |
| RmbDelivery.NothingStrandedAlways | templates/bank_dcn/internal/rmb/coordinator.go:184-591 | over every run without failing publish calls every PENDING step has its message or its receipt in flight |
| RmbDelivery.RepublishRecovers | templates/bank_dcn/internal/rmb/coordinator.go:573-591 | with failing calls, one republication that gets through restores that |
| RmbDelivery.CrashLosesNothing | templates/bank_dcn/internal/rmb/coordinator.go:55-61 | a restart keeps rows and journals, delivers again what was being handled and forgets the retry counters |
| RmbDelivery.InterruptedFails | templates/bank_dcn/internal/rmb/coordinator.go:556-569 | a timeout that stops half way has failed the PENDING rows and decided nothing |
| RmbProgress.AdvanceDecides | templates/bank_dcn/internal/rmb/coordinator.go:291-430 | which of compensating, retrying, giving up after three retries, settling, committing and waiting happens, and whether it publishes, told from the rows alone, for any number of steps |
| RmbProgress.EveryRequestCanCommit | templates/bank_dcn/internal/rmb/coordinator.go:135-430 | every request can commit: each step and each receipt delivered once brings it to COMMITTED |
| RmbTransfer.CreateTransfer | templates/bank_dcn/internal/rmb/coordinator.go:328-365 | the missing-compensation rule on a transfer, late DEBIT included |
| RmbTransfer.RecordBetween | templates/bank_dcn/internal/rmb/coordinator.go:252-282 | what the writes of a receipt keep of a transfer whatever came since the last advance, and when they are the harmful ones |
| RmbTransfer.ReceiptTransfer | templates/bank_dcn/internal/rmb/coordinator.go:238-284 | what a receipt keeps of a transfer, and when it is the harmful one |
| RmbTransfer.ExpireTransfer | templates/bank_dcn/internal/rmb/coordinator.go:533-569 | what a timeout, complete or interrupted, keeps of a transfer |
| RmbConservation.BetweenAlways | templates/bank_dcn/internal/rmb/coordinator.go:238-475 | over every run a transfer's rows tell whether the harmful receipt has happened |
| RmbConservation.RestingJournal | templates/bank_dcn/internal/dcnapp/steps.go:33-84 | what the journals hold when a transfer rests in COMPENSATED |
| RmbConservation.TransferConservation | templates/bank_dcn/internal/rmb/coordinator.go:238-475 | at rest in COMPENSATED the journals net to zero, and DONE originals pair one to one with DONE compensations, exactly when no late DEBIT was handled; otherwise the source, and only the source, is short of the amount |
| RmbLateDebit.Transfer.LateDebitLosesMoney | templates/bank_dcn/internal/rmb/coordinator.go:332-342 | for every transfer a run that rests in COMPENSATED with the amount gone |
| RmbRows.StaleReadings | templates/bank_dcn/internal/rmb/coordinator.go:238-280 | a receipt with stale readings writes what the atomic one writes exactly when they are still right |
| RmbStale.TakeKeepsIff | templates/bank_dcn/internal/rmb/coordinator.go:238-284 | the writes of a receipt keep the invariant exactly when a DONE one gets its step to DONE |
| RmbStale.OverlookedArises | templates/bank_dcn/internal/rmb/coordinator.go:252-268 | a DONE receipt reopens nothing on a settled transaction exactly when it read the failure but not the settling |
| RmbStale.StaleReceiptReopensNothing | templates/bank_dcn/internal/rmb/coordinator.go:248-304 | a timeout between its commit and its advance makes that happen without a crash |
| RmbStale.ReopenedMeaning | templates/bank_dcn/internal/rmb/coordinator.go:252-365 | once another original turns DONE the transaction commits if all are, otherwise every DONE original gets a compensation |
| RmbStale.OverlookedExactly | templates/bank_dcn/internal/rmb/coordinator.go:238-591 | over every continuation the original stays DONE and uncompensated in COMPENSATED exactly as long as no DONE receipt for another FAILED one is handled |
| RmbStale.OverlookedNet | templates/bank_dcn/internal/dcnapp/steps.go:33-84 | a transfer resting so is off by the DEBIT or the CREDIT |
| RmbStale.LostReceiptIsForever | templates/bank_dcn/internal/rmb/coordinator.go:270-284 | a DONE that read PENDING and is overtaken by a timeout is lost: journaled, FAILED and uncompensated in every continuation |
| RmbStale.LastReceiptHappens | templates/bank_dcn/internal/rmb/coordinator.go:184-212 | a reachable state where this can happen, for any step of any request |
| RmbTermination.StepCloser | templates/bank_dcn/internal/rmb/coordinator.go:238-475 | every event but a restart leaves the transaction as it is or lowers a measure |
| RmbTermination.BoundedChanges | templates/bank_dcn/internal/rmb/coordinator.go:434-447 | n steps allow at most 22n + 1 changes in one coordinator lifetime |
| RmbTermination.ReopenedOncePerOriginal | templates/bank_dcn/internal/rmb/coordinator.go:451-462 | over any number of lifetimes COMPENSATED is left at most once per DONE original, and no counter exceeds three retries |
| RmbBank.KeyLinked | templates/bank_dcn/internal/dcnapp/transfer.go:124-135 | a transfer's key is taken in a unit exactly when its own run has taken it |
| RmbBank.BankInvariantAlways | templates/bank_dcn/internal/dcnapp/transfer.go:101-192 | over every run of the bank, accounts being opened all along, no balance is negative and the total is openings plus interest plus the transfers' nets |
| RmbBank.BankConservation | templates/bank_dcn/internal/dcnapp/transfer.go:159-192 | once every transfer has ended the total is openings plus interest less the amounts of exactly the late-DEBIT transfers |
| RmbBank.MirrorOfBank | templates/bank_dcn/internal/adm/server.go:133-196 | the mirror's total is the same once every event has arrived, and reconcile confirms it exactly when every ACTIVE unit answers and the others are empty |
| RmbBank.TransferGoesThrough | templates/bank_dcn/internal/dcnapp/transfer.go:159-192 | a transfer the source can pay can end COMMITTED with the amount on the target, taken from the source and nothing else |
| Gns.PickSegment | templates/bank_dcn/internal/gns/segment.go:13-27 | an ACTIVE segment with the fewest accounts, ties by the smaller start, or none if none is ACTIVE |
| Gns.StepKeeps | templates/bank_dcn/internal/gns/server.go:63-225 | every step of every handler, on readings however stale, keeps routes, cache and readings inside their segments |
| Gns.RoutesAgree | templates/bank_dcn/internal/gns/server.go:63-225 | over every interleaving each routed id is in its unit's segment and a cached route never contradicts a row |
| Gns.NextIsFree | templates/bank_dcn/internal/gns/segment.go:31-40 | from a current reading the next id is a free one of the segment, one above the highest, and none exactly when the segment is full |
| Gns.OpeningRoutes | templates/bank_dcn/internal/gns/server.go:198-225 | opening without interference routes that id to the segment's unit and leaves every other route alone |
| Gns.LocatingFinds | templates/bank_dcn/internal/gns/server.go:63-82 | on a cache miss a routed id is found with its unit's endpoint and cached so; another is not found |
| InventoryModel.ApplyMeaning | templates/commerce/internal/inventory/model.go:118-165 | the level effect fails exactly as the bare transition does or when the hold was never reserved, keeps the level valid, and is idempotent; a release undoes a reserve |
| InventoryStore.Store.ReserveAtLevel | templates/commerce/internal/inventory/store.go:245-288 | is the ReserveAt function |
| InventoryStore.Store.DrainLine | templates/commerce/internal/inventory/store.go:138-167 | the candidate loop is the Drain function |
| InventoryStore.Store.Reserve | templates/commerce/internal/inventory/store.go:92-177 | is the Reserve function; a refused command is rolled back |
| InventoryStore.Store.SettleAll | templates/commerce/internal/inventory/store.go:345-402 | the transition loop is the Settle function |
| InventoryStore.Store.TransitionOrder | templates/commerce/internal/inventory/store.go:290-411 | is the TransitionOrder function |
| InventorySpec.CanApplyTerminalFence | templates/commerce/internal/inventory/store.go:413-423 | an expiry may fence exactly when no active reservation of the order is unexpired |
| InventorySpec.AllocationsMatch | templates/commerce/internal/inventory/store.go:550-570 | the accumulating loop decides Matches |
| InventoryInvariant.ReserveKeeps | templates/commerce/internal/inventory/store.go:92-177 | Reserve keeps levels, reservations, movements and fences in agreement |
| InventoryInvariant.SettleOneKeeps | templates/commerce/internal/inventory/model.go:133-165 | an active reservation is always covered, so the "exceeds reserved" refusal is unreachable |
| InventoryInvariant.TransitionKeeps | templates/commerce/internal/inventory/store.go:290-411 | which of no-op, refusal and fencing happens, and exactly what it changes |
| InventoryInvariant.StockAlwaysAgrees | templates/commerce/internal/inventory/store.go:92-411 | over every run 0 <= reserved <= on hand, reserved is the active reservations, stock left is the committed ones, movements sum to the change in available stock |
| InventoryInvariant.FenceIsPermanent | templates/commerce/internal/inventory/store.go:302-346 | a fenced order keeps the same reservations in the fence's state for ever; its event is a no-op and any other is refused |
| InventoryInvariant.ExpireWaits | templates/commerce/internal/inventory/store.go:413-423 | an expiry fences an order only when all its reservations have run out |
| InventoryLedger.LedgerPerReservation | templates/commerce/internal/inventory/store.go:245-402 | over every run no two reservations share a key and number, each has exactly the rows of its life - out when reserved, back when released or expired, back and sold when committed - and every row belongs to one |
| InventoryLedger.LedgerPerCell | templates/commerce/internal/inventory/store.go:345-402 | over every run and per cell the sales sum to on hand less opening, which is minus the committed reservations, and the adjustments to minus what is reserved |
| InventoryLedger.ReservationsNumbered | templates/commerce/internal/inventory/store.go:128-167 | a granted command's reservations are numbered from one in the order they were made |
| InventoryGreedy.DrainMeaning | templates/commerce/internal/inventory/store.go:138-167 | the candidate loop in closed form: each location gives its share, the rest is left over |
| InventoryGreedy.ReserveSucceedsIffCovered | templates/commerce/internal/inventory/store.go:128-177 | with a fresh key and no fence Reserve succeeds exactly when every SKU is covered; allocations sum to the request; a refusal names the first shortage and changes nothing |
| InventoryGreedy.RefusedAtFirstShortage | templates/commerce/internal/inventory/store.go:130-170 | a refusal is about the first uncovered line: unknown exactly when no location at all has a level of its SKU, short otherwise |
| InventoryGreedy.PriorityOrder | templates/commerce/internal/inventory/store.go:187-243 | a location gives something only when all before it are emptied |
| InventoryReplay.MatchMeaning | templates/commerce/internal/inventory/store.go:550-570 | counting SKUs and comparing lines is equality of order and of every SKU's quantity |
| InventoryReplay.SuccessMatches | templates/commerce/internal/inventory/store.go:92-177 | a successful attempt leaves rows that match its command |
| InventoryReplay.ReplayIsFree | templates/commerce/internal/inventory/store.go:111-121 | repeating it after anything, a fence included, returns the same allocations and changes nothing |
| InventoryReplay.OtherCommandConflicts | templates/commerce/internal/inventory/store.go:116-120 | a different command under the key is refused |
| InventoryCommand.Prepare | templates/commerce/internal/inventory/service.go:152-180 | refused exactly when a name is blank, the lines are empty, too many, unusable or overflowing, or the expiry is not in the future; otherwise the trimmed names, distinct SKUs in order wanting the same, and the expiry given or fifteen minutes ahead |
| InventoryCommand.PreparedAlike | templates/commerce/internal/inventory/service.go:159-170 | how lines were spelled, split or ordered does not matter |
| CheckoutReservation.ValidateReservationResult | templates/commerce/internal/order/service.go:661-682 | the checking loop accepts exactly one active allocation per line, of its quantity, with no SKU repeated |
| CheckoutReservation.AcceptedMeaning | templates/commerce/internal/order/service.go:661-682 | with no SKU sent twice an answer is accepted exactly when it is about the order, every allocation is active and has an id, and the allocations are the lines |
| CheckoutReservation.DrainPieces | templates/commerce/internal/inventory/store.go:138-167 | a covered line is drawn in one piece exactly when one location's share is all of it |
| CheckoutReservation.OnePlaceMeaning | templates/commerce/internal/inventory/store.go:138-167 | that location is the first with any stock |
| CheckoutReservation.SentAndMerged | templates/commerce/internal/order/service.go:661-682 | with a SKU sent twice or with spaces around it every answer is refused; otherwise the merged lines decide alike |
| CheckoutReservation.GrantedIsAcceptedIffUnsplit | templates/commerce/internal/order/service.go:661-682 | checkout accepts a granted reservation exactly when every SKU was sent once, without spaces around it, and every line was drawn whole from one location |
| CheckoutReservation.SplitLineIsRefused | templates/commerce/internal/order/service.go:483-492 | one line and two locations that only together cover it: granted and refused |
| OrderMoney.CheckedMultiply | templates/commerce/internal/order/money.go:79-87 | refused exactly on a negative factor or a product beyond int64 |
| OrderMoney.CheckedAdd | templates/commerce/internal/order/money.go:89-94 | refused exactly on a negative summand or a sum beyond int64 |
| OrderMoney.AllocatePercentageDiscount | templates/commerce/internal/order/money.go:98-137 | accepts exactly what fits int64; sums exactly to the rounded-down share of the total, every line rounded down or up, larger remainders then lower indices first |
| OrderMoney.SpreadExtras | templates/commerce/internal/order/money.go:133-135 | the countdown over the ranking yields that allocation |
| OrderMoney.ExtrasHaveRemainders | templates/commerce/internal/order/money.go:129-135 | there are fewer units to hand out than lines with a remainder |
| OrderMoney.AllocationUnique | templates/commerce/internal/order/money.go:96-137 | no other allocation has these properties |
| OrderMoney.SortMeaning | templates/commerce/internal/order/money.go:130-132 | the stable descending sort ranks by remainder, then index, losing nothing |
| Checkout.CalculateTotals | templates/commerce/internal/order/money.go:31-77 | the order equation over sums that fit int64, refused exactly otherwise |
| Checkout.ReconcileOrderAmounts | templates/commerce/internal/order/service.go:828-853 | accepts exactly lines and totals that reconcile |
| Checkout.ReconcileStoredOrder | templates/commerce/internal/order/store.go:815-832 | accepts exactly what StoreAccepts describes |
| CheckoutBuild.RegionalTax | templates/commerce/internal/order/money.go:142-170 | the rounded-down tax at the rate of the trimmed, upper-cased codes, refused exactly without a country or beyond int64 |
| CheckoutBuild.TaxPolicy | templates/commerce/internal/order/money.go:142-170 | the rate in basis points by country and, in the United States, by state |
| CheckoutBuild.CodesFolded | templates/commerce/internal/order/money.go:142-170 | codes are read whatever their case and the spaces around them |
| CheckoutBuild.PlaceDecides | templates/commerce/internal/order/service.go:774-790 | the province decides the state, the region only where there is none |
| CheckoutBuild.CustomerRefused | templates/commerce/internal/order/service.go:696-710 | no order for somebody else's cart, for a customer without email or name, or without a country |
| CheckoutBuild.IndexSnapshots | templates/commerce/internal/order/service.go:711-721 | refused exactly on an invalid or repeated snapshot; otherwise a SKU has a price exactly when a snapshot has it, and it is that snapshot's |
| CheckoutBuild.ApplyCoupon | templates/commerce/internal/order/service.go:747-760 | the coupon's allocation written into the lines |
| CheckoutBuild.TaxAllocatable | templates/commerce/internal/order/service.go:796-803 | a tax that could be computed can be spread |
| CheckoutBuild.NoTotalOverflow | templates/commerce/internal/order/money.go:58-67 | shipping and tax can no longer overflow the total |
| CheckoutBuild.ReconcilesItself | templates/commerce/internal/order/service.go:809-813 | the final reconciliation of a built order never rejects |
| CheckoutBuild.BuildCheckoutOrder | templates/commerce/internal/order/service.go:696-826 | an order comes out exactly when the request, customer included, is buildable; every line has its snapshot's price, and line discounts, totals and taxes add up to the order's |
| CheckoutBuild.StoreAcceptsExactly | templates/commerce/internal/order/store.go:815-832 | the store accepts an order if and only if its lines, totals and sums add up |
| CheckoutBuild.StoreAcceptsAnyOrder | templates/commerce/internal/order/store.go:815-832 | the store accepts a built order with its lines in any order |
| OrderStore.OrderRow.CancelOrder | templates/commerce/internal/order/store.go:956-1066 | is the Cancel function, replays and conflicts included |
| OrderStore.OrderRow.HandleEvent | templates/commerce/internal/order/store.go:1084-1120 | an event id is applied at most once, and not recorded when rejected |
| SagaSpec.ValidateInventoryResult | templates/commerce/internal/order/store.go:1417-1456 | the counting loop decides ValidResult |
| SagaInvariant.DoKeeps | templates/commerce/internal/order/store.go:956-1644 | every command and event keeps the saga's invariant |
| SagaInvariant.FailedMeansSettled | templates/commerce/internal/order/store.go:1358-1415 | 'failed' is reached only cancelled, fully refunded and with nothing held |
| SagaInvariant.ReachableRows | templates/commerce/internal/seed/verify.go:97-144 | every reachable row passes the matrix, has captured nothing or the total, and its payment status tells the refunds |
| SagaInvariant.NothingWaitsUnasked | templates/commerce/internal/order/store.go:1031-1066 | over every run a waiting saga has put the request it waits for in the outbox, and what is owed has been asked for exactly |
| SagaInvariant.PathExtends | templates/commerce/internal/order/store.go:1663-1678 | a recorded transition along an edge keeps the history a path ending at the status |
| SagaInvariant.Edges | templates/commerce/internal/order/state.go:32-65 | the store's transitions are edges of the status machine |
| SagaInvariant.ResultNamesExactly | templates/commerce/internal/order/store.go:1417-1456 | an accepted inventory result names exactly the stored allocations |
| SagaInvariant.RefundNeedsPaymentFirst | templates/commerce/internal/order/store.go:1031-1037 | an accepted cancellation can lead to a refund exactly when the payment had been seen |
| SagaProgress.ResultIsExactly | templates/commerce/internal/order/store.go:1417-1456 | an inventory result is accepted if and only if it is the stored allocations, in any order, named and in the expected status |
| SagaProgress.PaymentArrives | templates/commerce/internal/order/store.go:1216-1267 | a capture is applied exactly to a pending unpaid order for its own money, which then asks inventory to commit |
| SagaProgress.PaymentFails | templates/commerce/internal/order/store.go:1168-1214 | a failed payment cancels exactly a pending unpaid order and asks its stock back |
| SagaProgress.StockCommitted | templates/commerce/internal/order/store.go:1296-1356 | a committed result naming its allocations confirms exactly a pending authorized order, marks it paid, commits its allocations and announces it |
| SagaProgress.StockReleased | templates/commerce/internal/order/store.go:1358-1415 | a released result winds up exactly a cancelled order with no refund and no fulfillment cancellation outstanding |
| SagaProgress.Delivered | templates/commerce/internal/order/store.go:1511-1544 | a completed fulfillment completes exactly a confirmed order that was paid for |
| SagaProgress.CalledOff | templates/commerce/internal/order/store.go:1458-1509 | a cancelled fulfillment leads to the refund of exactly what is owed, or to the release when nothing is |
| SagaProgress.Refunded | templates/commerce/internal/order/store.go:1546-1609 | a refund is recorded exactly up to what was captured; the rest is asked for again, or the stock asked back |
| SagaProgress.Cancelling | templates/commerce/internal/order/store.go:956-1066 | exactly when a cancellation is replayed, a conflict, refused or accepted, and every row it then writes |
| SagaProgress.EveryOrderCanComplete | templates/commerce/internal/order/store.go:1216-1544 | from every placed order with named distinct allocations a run reaches confirmed and then completed with nothing left waiting |
| SagaProgress.EveryDeclinedOrderEnds | templates/commerce/internal/order/store.go:1168-1415 | and another cancelled, declined and with nothing held |
| PaymentSpec.TransitionEdges | templates/commerce/internal/payment/state.go:38-60 | the machine edge by edge, and no others |
| PaymentSpec.TransitionRepeats | templates/commerce/internal/payment/state.go:62-81 | which events are repeats that change nothing |
| PaymentSpec.CancelMeaning | templates/commerce/internal/payment/service.go:367-395 | exactly an intent that is not settled yet is cancelled |
| PaymentSpec.TransitionIdempotent | templates/commerce/internal/payment/state.go:38-81 | an event applied twice is applied once, and no event moves an intent back |
| PaymentSpec.CaptureLoop | templates/commerce/internal/payment/service.go:225-290 | succeeds at the first charge that does, fails only after the last, and stores nothing when a call fails on the way |
| PaymentSpec.RefundMeaning | templates/commerce/internal/payment/service.go:305-361 | exactly when a refund is recorded, replayed or exceeds the capture, with and without the trigger; refunds never exceed the capture; 'refunded' exactly when they add up to it |
| PaymentSpec.FullRefundRefused | templates/commerce/internal/payment/store.go:221-261 | the request for all that remains completes the refund without the trigger and is refused with it |
| PaymentStore.PaymentRow.CaptureOrder | templates/commerce/internal/payment/store.go:117-189 | a first capture stores the outcome with the attempts made and publishes one event; a second is a replay, and a provider error stores nothing |
| PaymentStore.PaymentRow.RequestRefund | templates/commerce/internal/payment/service.go:305-361 | is the RequestRefund function and publishes exactly when it records |
| OrderPayment.DeliveredOnce | templates/commerce/internal/order/store.go:1084-1099 | a delivery takes effect once, ignored events included; a rejected one leaves everything as it was |
| OrderPayment.RefundDeliveryApplies | templates/commerce/internal/order/store.go:1546-1609 | a delivered refund is always recorded: "refund exceeds remaining" is unreachable |
| OrderPayment.RefundsAgree | templates/commerce/internal/order/store.go:1546-1609 | refunds recorded by the order plus those on their way are payment's refunds, and never exceed the capture, with and without the trigger |
| OrderPayment.OwnRequestsFit | templates/commerce/internal/order/store.go:1497-1506 | the order asks for a refund only when cancelled, for exactly what remains |
| OrderPayment.CancelChangesNothing | templates/commerce/internal/payment/service.go:363-395 | the order's cancellation finds every stored intent settled and changes nothing |
| RefundOutcome.NeverPaidInFull | templates/commerce/db/migrations/payment_db.sql:101-146 | over every run with the trigger no intent is refunded and a cancelled order that was paid for stays in compensation, still owing |
| RefundOutcome.OwnRequestsAllOrNothing | templates/commerce/internal/order/store.go:1497-1506 | every request the order sends asks for the total, so partial refunds never happen, and with the trigger nothing is paid back |
| RefundOutcome.CompensationEndsIffUnguarded | templates/commerce/internal/payment/store.go:221-261 | some run of a paid order ends its compensation exactly when the trigger is missing |
| MoneyText.ParseCents | templates/bank/internal/corebanking/domain/money.go:22-50 | the trimming and the padding loop compute Parse |
| MoneyText.ParseMeaning | templates/bank/internal/corebanking/domain/money.go:22-50 | digits, a dot and at most two digits, either part possibly empty and with or without a minus, are read as their cents exactly when they fit |
| MoneyText.ParseWhole | templates/bank/internal/corebanking/domain/money.go:22-50 | so are digits without a dot |
| MoneyText.ParseSigns | templates/bank/internal/corebanking/domain/money.go:22-50 | a second sign is read as one, so a doubled minus is positive |
| MoneyText.ParseRefuses | templates/bank/internal/corebanking/domain/money.go:22-50 | a third fraction digit, or anything but digits after the dot, is refused |
| Text.SpacesAre | templates/bank/internal/corebanking/domain/money.go:23 | the code points that count as spaces |
| Text.TrimMeaning | templates/bank/internal/corebanking/domain/money.go:23 | trimming removes exactly the spaces around a trimmed text |
| MoneyText.ParsePlain | templates/bank/internal/corebanking/domain/money.go:22-50 | a plain text within int64 parses to its cents, and with a sign to their negative |
| MoneyText.SmallestText | templates/bank/internal/corebanking/domain/money.go:62-73 | the text of the smallest amount does not parse |
| MoneyText.RoundTrip | templates/bank/internal/corebanking/domain/money.go:22-73 | printing and parsing, surrounding spaces included, is the identity exactly off the smallest amount |

## Left out

- Conservation for RMB transactions in status FAILED, or with more than two steps once compensation starts: the code does not promise it.
- RmbConservation.TransferConservation: runs in which a receipt decides on readings that are no longer right; `RmbStale` takes such a receipt alone, with every continuation.
- RmbTermination.BoundedChanges: the bound is per coordinator lifetime, because a restart forgets the retry counters.
- The batch scheduler across units, the interest rate itself (an arbitrary function of the balance) and account status or holds.
- The row order of inventory query results: reservations are visited in the order they were inserted, which for one command is the query's order.
- Unknown action names on which `advance` and the timeout disagree: the timeout's LIKE pattern (templates/bank_dcn/internal/rmb/coordinator.go:546) reads its underscore as any character, the model uses the prefix test of line 314 in both.
- Locks and concurrent transactions inside the commerce stores: each handler is one atomic step.
- CheckoutBuild.BuildCheckoutOrder: the address is what decodes from its JSON, ids and descriptive fields are omitted, and which error is returned is not distinguished.
- CheckoutReservation.GrantedIsAcceptedIffUnsplit: for a fresh key; what happens to the stock of a refused reservation is not modelled.
- The checkout lease, resumed checkouts, carts, catalog, customer and fulfillment services.
- The order's 'partial' fulfillment status, which nothing writes, and the payment webhook, which may capture another amount than the order's.
- OrderPayment.RefundsAgree: requests for any amount are allowed, but only for a cancelled order with a recorded capture, as the order's own are; nothing else publishes them.
- PaymentStore.PaymentRow.CaptureOrder: one intent per order.
- DcnUnit.Unit.InterestBatch: other movements between its postings are left to DcnSpec.InterestOnceInterleaved.
- DcnUnit.Unit.LocalTransfer: positive amounts only, since the endpoint refuses others.
- Liveness of compensation under every schedule: the inventory fence refuses a release after a commit, so what is stated is safety, what each event does and that runs to the end exist.
- Overlapping or edited GNS segments, and cache expiry as anything but an eviction.
- The bank payment saga, HTTP handlers, message encoding, telemetry, seed generators and the command line tools.
