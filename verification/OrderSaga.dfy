/** The order saga: cancellation commands and the events of payment, inventory and fulfillment, over one
    order's rows (templates/commerce/internal/order/store.go), as functions of the rows. Events arrive
    decoded and addressed to this order. */
module SagaSpec {
  import opened Common
  import opened Text

  datatype Status = Pending | Confirmed | Cancelled | Completed
  /** 'pending' is Unpaid, 'failed' is Declined. */
  datatype Payment = Unpaid | Authorized | Paid | Declined | PartiallyRefunded | Refunded
  /** 'partial' is never written. */
  datatype Fulfillment = Unfulfilled | Fulfilled
  /** order_saga.state; 'completed' is Done. */
  datatype Saga = Paying | Reserving | Done | Compensating | Failed

  datatype Step = PaymentRequested | CommitRequested | ReleaseRequested | RefundRequested
                | FulfillmentRequested | FulfillmentCancelRequested
  datatype StepStatus = Waiting | Finished | Broken

  datatype AllocationStatus = Active | Committed | Released | Expired
  datatype Allocation = Allocation(id: string, sku: string, quantity: int, status: AllocationStatus)

  /** A row of order_status_history. */
  datatype Change = Change(from: Option<Status>, to: Status)

  datatype Outgoing = OrderCancelled | ReleaseWanted | CommitWanted | FulfillmentCancelWanted | RefundWanted(amount: int) | OrderPaid

  /** sales_order, order_payment_projection, order_saga, order_saga_step, order_inventory_allocation,
      order_status_history, the outbox, and order_command (idempotency key to reason). */
  datatype Order = Order(status: Status, payment: Payment, fulfillment: Fulfillment, currency: string, total: int,
                         captured: int, refunded: int, saga: Saga, steps: map<Step, StepStatus>,
                         allocations: seq<Allocation>, history: seq<Change>, outbox: seq<Outgoing>,
                         commands: map<string, string>)

  datatype Incoming =
    | PaymentFailed(code: string)
    | PaymentPaid(currency: string, amount: int)
    | InventoryCommitted(result: seq<Allocation>)
    | InventoryReleased(result: seq<Allocation>)
    | FulfillmentCancelled
    | FulfillmentCompleted
    | RefundSucceeded(currency: string, amount: int)

  datatype Outcome = Applied | Ignored | Rejected

  // ---------- saga steps ----------

  /** INSERT .. ON CONFLICT DO NOTHING. */
  function Ensure(steps: map<Step, StepStatus>, s: Step): map<Step, StepStatus> {
    if s in steps then steps else steps[s := Waiting]
  }

  /** upsertPendingSagaStep: a finished step stays finished. */
  function Upsert(steps: map<Step, StepStatus>, s: Step): map<Step, StepStatus> {
    if s in steps && steps[s].Finished? then steps else steps[s := Waiting]
  }

  predicate IsWaiting(steps: map<Step, StepStatus>, s: Step) {
    s in steps && steps[s].Waiting?
  }

  function Settle(steps: map<Step, StepStatus>, s: Step, to: StepStatus): map<Step, StepStatus> {
    if IsWaiting(steps, s) then steps[s := to] else steps
  }

  // ---------- handlers ----------

  /** insertOrder. */
  function Placed(currency: string, total: int, allocations: seq<Allocation>): Order {
    Order(Pending, Unpaid, Unfulfilled, currency, total, 0, 0, Paying, map[PaymentRequested := Waiting],
          allocations, [Change(None, Pending)], [], map[])
  }

  datatype Answer = Accepted | Replayed | Conflict | Invalid

  /** CancelOrder. */
  function Cancel(o: Order, key: string, reason: string): (Answer, Order) {
    if key in o.commands then (if o.commands[key] == reason then Replayed else Conflict, o)
    else if !(o.status.Pending? || o.status.Confirmed?) || o.saga.Failed? then (Invalid, o)
    else
      var viaFulfillment := o.payment in {Paid, Authorized, PartiallyRefunded};
      (Accepted, o.(status := Cancelled, saga := Compensating,
                 history := o.history + [Change(Some(o.status), Cancelled)],
                 outbox := o.outbox + [OrderCancelled, if viaFulfillment then FulfillmentCancelWanted else ReleaseWanted],
                 steps := Ensure(o.steps, if viaFulfillment then FulfillmentCancelRequested else ReleaseRequested),
                 commands := o.commands[key := reason]))
  }

  function ApplyPaymentFailed(o: Order, code: string): (Outcome, Order) {
    if Trim(code) == "" then (Rejected, o)
    else if !o.status.Pending? || !o.payment.Unpaid? then (Ignored, o)
    else
      (Applied, o.(status := Cancelled, payment := Declined,
                   history := o.history + [Change(Some(Pending), Cancelled)],
                   saga := if o.saga.Paying? || o.saga.Reserving? then Compensating else o.saga,
                   steps := Ensure(Settle(o.steps, PaymentRequested, Broken), ReleaseRequested),
                   outbox := o.outbox + [ReleaseWanted, OrderCancelled]))
  }

  function ApplyPaymentPaid(o: Order, currency: string, amount: int): (Outcome, Order) {
    if !o.status.Pending? || !o.payment.Unpaid? then (Ignored, o)
    else if currency != o.currency || amount != o.total then (Rejected, o)
    else
      (Applied, o.(payment := Authorized,
                   captured := if o.captured == 0 then amount else o.captured,
                   saga := if o.saga.Paying? || o.saga.Reserving? then Reserving else o.saga,
                   steps := Ensure(Settle(o.steps, PaymentRequested, Finished), CommitRequested),
                   outbox := o.outbox + [CommitWanted]))
  }

  function WithStatus(allocations: seq<Allocation>, from: set<AllocationStatus>,
                      to: AllocationStatus): (r: seq<Allocation>)
    ensures |r| == |allocations|
    ensures forall i :: 0 <= i < |r| ==>
              r[i] == if allocations[i].status in from then allocations[i].(status := to) else allocations[i]
  {
    seq(|allocations|, i requires 0 <= i < |allocations| =>
      if allocations[i].status in from then allocations[i].(status := to) else allocations[i])
  }

  /** A stored allocation with the result's identity. */
  predicate Known(stored: seq<Allocation>, a: Allocation) {
    exists i :: 0 <= i < |stored| && stored[i].id == a.id && stored[i].sku == a.sku && stored[i].quantity == a.quantity
  }

  /** validateInventoryResult. */
  predicate ValidResult(stored: seq<Allocation>, result: seq<Allocation>, expected: AllocationStatus) {
    && |result| == |stored|
    && (forall i :: 0 <= i < |result| ==> result[i].id != "" && result[i].status == expected && Known(stored, result[i]))
    && (forall i, j :: 0 <= i < j < |result| ==> result[i].id != result[j].id)
  }

  function ApplyInventoryCommitted(o: Order, result: seq<Allocation>): (Outcome, Order) {
    if !ValidResult(o.allocations, result, Committed) then (Rejected, o)
    else if !o.status.Pending? || !o.payment.Authorized? then (Ignored, o)
    else
      (Applied, o.(status := Confirmed, payment := Paid,
                   allocations := WithStatus(o.allocations, {Active}, Committed),
                   history := o.history + [Change(Some(Pending), Confirmed)],
                   saga := if o.saga.Reserving? then Done else o.saga,
                   steps := Settle(o.steps, CommitRequested, Finished),
                   outbox := o.outbox + [OrderPaid]))
  }

  function ApplyInventoryReleased(o: Order, result: seq<Allocation>): (Outcome, Order) {
    if !ValidResult(o.allocations, result, Released) then (Rejected, o)
    else if !o.status.Cancelled? then (Ignored, o)
    else if IsWaiting(o.steps, RefundRequested) || IsWaiting(o.steps, FulfillmentCancelRequested) then (Rejected, o)
    else
      (Applied, o.(allocations := WithStatus(o.allocations, {Active, Committed}, Released),
                   steps := Settle(o.steps, ReleaseRequested, Finished),
                   saga := if o.saga.Compensating? then Failed else o.saga))
  }

  /** requestInventoryRelease. */
  function WantRelease(o: Order): Order {
    o.(steps := Upsert(o.steps, ReleaseRequested), outbox := o.outbox + [ReleaseWanted])
  }

  function ApplyFulfillmentCancelled(o: Order): (Outcome, Order) {
    if !o.status.Cancelled? || !IsWaiting(o.steps, FulfillmentCancelRequested) then (Ignored, o)
    else
      var settled := o.(steps := o.steps[FulfillmentCancelRequested := Finished]);
      if o.captured > o.refunded then
        (Applied, settled.(steps := Upsert(settled.steps, RefundRequested),
                           outbox := o.outbox + [RefundWanted(o.captured - o.refunded)]))
      else (Applied, WantRelease(settled))
  }

  function ApplyFulfillmentCompleted(o: Order): (Outcome, Order) {
    if !(o.status.Confirmed? && o.payment in {Paid, PartiallyRefunded, Refunded} && !o.fulfillment.Fulfilled?) then (Ignored, o)
    else
      (Applied, o.(status := Completed, fulfillment := Fulfilled,
                   history := o.history + [Change(Some(Confirmed), Completed)],
                   steps := Settle(o.steps, FulfillmentRequested, Finished)))
  }

  function ApplyRefunded(o: Order, currency: string, amount: int): (Outcome, Order) {
    if !o.status.Cancelled? then (Ignored, o)
    else if currency != o.currency || amount <= 0 || amount > o.captured - o.refunded then (Rejected, o)
    else
      var refunded := o.refunded + amount;
      var recorded := o.(refunded := refunded, payment := if refunded == o.captured then Refunded else PartiallyRefunded);
      if refunded < o.captured then (Applied, recorded.(outbox := o.outbox + [RefundWanted(o.captured - refunded)]))
      else (Applied, WantRelease(recorded.(steps := Settle(o.steps, RefundRequested, Finished))))
  }

  /** applyEvent: a rejected event rolls back. */
  function Apply(o: Order, e: Incoming): (Outcome, Order) {
    match e
    case PaymentFailed(code) => ApplyPaymentFailed(o, code)
    case PaymentPaid(currency, amount) => ApplyPaymentPaid(o, currency, amount)
    case InventoryCommitted(result) => ApplyInventoryCommitted(o, result)
    case InventoryReleased(result) => ApplyInventoryReleased(o, result)
    case FulfillmentCancelled => ApplyFulfillmentCancelled(o)
    case FulfillmentCompleted => ApplyFulfillmentCompleted(o)
    case RefundSucceeded(currency, amount) => ApplyRefunded(o, currency, amount)
  }

  /** validateInventoryResult: count, then status, distinctness and membership one by one. */
  method ValidateInventoryResult(stored: seq<Allocation>, result: seq<Allocation>,
                                 expected: AllocationStatus) returns (ok: bool)
    ensures ok <==> ValidResult(stored, result, expected)
  {
    if |stored| == 0 && |result| == 0 { return true; }
    if |result| != |stored| { return false; }
    var seen: set<string> := {};
    for i := 0 to |result|
      invariant forall x :: x in seen <==> exists j :: 0 <= j < i && result[j].id == x
      invariant forall j :: 0 <= j < i ==> result[j].id != "" && result[j].status == expected && Known(stored, result[j])
      invariant forall j, k :: 0 <= j < k < i ==> result[j].id != result[k].id
    {
      var a := result[i];
      if a.id == "" || a.status != expected || a.id in seen { return false; }
      seen := seen + {a.id};
      if !Known(stored, a) { return false; }
    }
    return true;
  }
}

/** The store: one order's rows updated in place. Each method is proved equal to its function in SagaSpec. */
module OrderStore {
  import opened Common
  import opened Text
  import opened SagaSpec

  class OrderRow {
    var status: Status
    var payment: Payment
    var fulfillment: Fulfillment
    const currency: string
    const total: int
    var captured: int
    var refunded: int
    var saga: Saga
    var steps: map<Step, StepStatus>
    var allocations: seq<Allocation>
    var history: seq<Change>
    var outbox: seq<Outgoing>
    var commands: map<string, string>
    var inbox: set<string>             // events handled, by id

    function Rows(): Order
      reads this
    {
      Order(status, payment, fulfillment, currency, total, captured, refunded, saga, steps, allocations, history, outbox, commands)
    }

    constructor (currency: string, total: int, allocations: seq<Allocation>)
      ensures Rows() == Placed(currency, total, allocations) && inbox == {}
    {
      this.currency, this.total, this.allocations := currency, total, allocations;
      status, payment, fulfillment, captured, refunded := Pending, Unpaid, Unfulfilled, 0, 0;
      saga, steps := Paying, map[PaymentRequested := Waiting];
      history, outbox, commands, inbox := [Change(None, Pending)], [], map[], {};
    }

    method CancelOrder(key: string, reason: string) returns (answer: Answer)
      modifies this
      ensures (answer, Rows()) == Cancel(old(Rows()), key, reason) && inbox == old(inbox)
    {
      if key in commands { return if commands[key] == reason then Replayed else Conflict; }
      if status.Cancelled? || !(status.Pending? || status.Confirmed?) { return Invalid; }
      if saga.Failed? { return Invalid; }
      status, saga, history := Cancelled, Compensating, history + [Change(Some(status), Cancelled)];
      if payment == Paid || payment == Authorized || payment == PartiallyRefunded {
        outbox := outbox + [OrderCancelled, FulfillmentCancelWanted];
        steps := Ensure(steps, FulfillmentCancelRequested);
      } else {
        outbox := outbox + [OrderCancelled, ReleaseWanted];
        steps := Ensure(steps, ReleaseRequested);
      }
      commands := commands[key := reason];
      return Accepted;
    }

    /** HandleEvent: at most once per event id; a rejected event is not recorded as handled. */
    method HandleEvent(id: string, e: Incoming) returns (outcome: Outcome)
      modifies this
      ensures id in old(inbox) ==> outcome == Ignored && Rows() == old(Rows()) && inbox == old(inbox)
      ensures id !in old(inbox) ==> (outcome, Rows()) == Apply(old(Rows()), e)
      ensures id !in old(inbox) ==> inbox == if outcome.Rejected? then old(inbox) else old(inbox) + {id}
    {
      if id in inbox { return Ignored; }
      match e {
        case PaymentFailed(code) => outcome := HandlePaymentFailed(code);
        case PaymentPaid(c, amount) => outcome := HandlePaymentPaid(c, amount);
        case InventoryCommitted(result) => outcome := HandleInventoryCommitted(result);
        case InventoryReleased(result) => outcome := HandleInventoryReleased(result);
        case FulfillmentCancelled => outcome := HandleFulfillmentCancelled();
        case FulfillmentCompleted => outcome := HandleFulfillmentCompleted();
        case RefundSucceeded(c, amount) => outcome := HandleRefunded(c, amount);
      }
      if !outcome.Rejected? { inbox := inbox + {id}; }
    }

    method UpdateSagaForPayment(state: Saga, step: StepStatus)
      modifies this
      ensures Rows() == old(Rows()).(saga := if old(saga) in {Paying, Reserving} then state else old(saga),
                                     steps := Settle(old(steps), PaymentRequested, step))
      ensures inbox == old(inbox)
    {
      if saga == Paying || saga == Reserving { saga := state; }
      steps := Settle(steps, PaymentRequested, step);
    }

    method HandlePaymentFailed(code: string) returns (outcome: Outcome)
      modifies this
      ensures (outcome, Rows()) == ApplyPaymentFailed(old(Rows()), code) && inbox == old(inbox)
    {
      if Trim(code) == "" { return Rejected; }
      if status != Pending || payment != Unpaid { return Ignored; }
      status, payment := Cancelled, Declined;
      history := history + [Change(Some(Pending), Cancelled)];
      UpdateSagaForPayment(Compensating, Broken);
      steps := Ensure(steps, ReleaseRequested);
      outbox := outbox + [ReleaseWanted, OrderCancelled];
      return Applied;
    }

    method HandlePaymentPaid(c: string, amount: int) returns (outcome: Outcome)
      modifies this
      ensures (outcome, Rows()) == ApplyPaymentPaid(old(Rows()), c, amount) && inbox == old(inbox)
    {
      if status != Pending || payment != Unpaid { return Ignored; }
      if c != currency || amount != total { return Rejected; }
      payment := Authorized;
      if captured == 0 { captured := amount; }
      UpdateSagaForPayment(Reserving, Finished);
      steps := Ensure(steps, CommitRequested);
      outbox := outbox + [CommitWanted];
      return Applied;
    }

    method HandleInventoryCommitted(result: seq<Allocation>) returns (outcome: Outcome)
      modifies this
      ensures (outcome, Rows()) == ApplyInventoryCommitted(old(Rows()), result) && inbox == old(inbox)
    {
      hide ValidResult, Settle, WithStatus;
      var valid := ValidateInventoryResult(allocations, result, Committed);
      if !valid { return Rejected; }
      if status != Pending || payment != Authorized { return Ignored; }
      status, payment, history := Confirmed, Paid, history + [Change(Some(Pending), Confirmed)];
      allocations := WithStatus(allocations, {Active}, Committed);
      if saga == Reserving { saga := Done; }
      steps := Settle(steps, CommitRequested, Finished);
      outbox := outbox + [OrderPaid];
      return Applied;
    }

    method HandleInventoryReleased(result: seq<Allocation>) returns (outcome: Outcome)
      modifies this
      ensures (outcome, Rows()) == ApplyInventoryReleased(old(Rows()), result) && inbox == old(inbox)
    {
      var valid := ValidateInventoryResult(allocations, result, Released);
      if !valid { return Rejected; }
      if status != Cancelled { return Ignored; }
      if IsWaiting(steps, RefundRequested) || IsWaiting(steps, FulfillmentCancelRequested) { return Rejected; }
      allocations := WithStatus(allocations, {Active, Committed}, Released);
      steps := Settle(steps, ReleaseRequested, Finished);
      if saga == Compensating { saga := Failed; }
      return Applied;
    }

    method RequestInventoryRelease()
      modifies this
      ensures Rows() == WantRelease(old(Rows())) && inbox == old(inbox)
    {
      steps := Upsert(steps, ReleaseRequested);
      outbox := outbox + [ReleaseWanted];
    }

    method HandleFulfillmentCancelled() returns (outcome: Outcome)
      modifies this
      ensures (outcome, Rows()) == ApplyFulfillmentCancelled(old(Rows())) && inbox == old(inbox)
    {
      if status != Cancelled { return Ignored; }
      if !IsWaiting(steps, FulfillmentCancelRequested) { return Ignored; }
      steps := steps[FulfillmentCancelRequested := Finished];
      if captured > refunded {
        steps := Upsert(steps, RefundRequested);
        outbox := outbox + [RefundWanted(captured - refunded)];
      } else {
        RequestInventoryRelease();
      }
      return Applied;
    }

    method HandleFulfillmentCompleted() returns (outcome: Outcome)
      modifies this
      ensures (outcome, Rows()) == ApplyFulfillmentCompleted(old(Rows())) && inbox == old(inbox)
    {
      if status != Confirmed || fulfillment == Fulfilled { return Ignored; }
      if !(payment == Paid || payment == PartiallyRefunded || payment == Refunded) { return Ignored; }
      status, fulfillment := Completed, Fulfilled;
      history := history + [Change(Some(Confirmed), Completed)];
      steps := Settle(steps, FulfillmentRequested, Finished);
      return Applied;
    }

    method HandleRefunded(c: string, amount: int) returns (outcome: Outcome)
      modifies this
      ensures (outcome, Rows()) == ApplyRefunded(old(Rows()), c, amount) && inbox == old(inbox)
    {
      if status != Cancelled { return Ignored; }
      if c != currency || amount <= 0 { return Rejected; }
      if amount > captured - refunded { return Rejected; }
      refunded := refunded + amount;
      payment := if refunded == captured then Refunded else PartiallyRefunded;
      if refunded < captured {
        outbox := outbox + [RefundWanted(captured - refunded)];
        return Applied;
      }
      steps := Settle(steps, RefundRequested, Finished);
      RequestInventoryRelease();
      return Applied;
    }
  }
}
