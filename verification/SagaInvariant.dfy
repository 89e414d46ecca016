/** What every run of the order saga keeps, and what its final state means. */
module SagaInvariant {
  import opened Common
  import opened SagaSpec

  datatype Input =
    | Command(key: string, reason: string)
    | Event(e: Incoming)

  /** One input, whoever sent it and however often. */
  function Do(o: Order, i: Input): Order {
    match i
    case Command(key, reason) => Cancel(o, key, reason).1
    case Event(e) => Apply(o, e).1
  }

  function Exec(o: Order, run: seq<Input>): Order {
    if run == [] then o else Do(Exec(o, run[..|run| - 1]), run[|run| - 1])
  }

  // ---------- the invariant ----------

  /** Status, payment and saga move together, and the amounts with them. */
  predicate Coupled(o: Order) {
    && o.total >= 0 && (o.captured == 0 || o.captured == o.total)
    && 0 <= o.refunded <= o.captured
    && (o.fulfillment.Fulfilled? <==> o.status.Completed?)
    && match o.status
       case Pending => o.refunded == 0 && ((o.payment.Unpaid? && o.saga.Paying? && o.captured == 0)
                                           || (o.payment.Authorized? && o.saga.Reserving? && o.captured == o.total))
       case Confirmed => o.payment.Paid? && o.saga.Done? && o.captured == o.total && o.refunded == 0
       case Completed => o.payment.Paid? && o.saga.Done? && o.captured == o.total && o.refunded == 0
       case Cancelled =>
         && (o.saga.Compensating? || o.saga.Failed?)
         && (o.payment.Unpaid? || o.payment.Declined? ==> o.captured == 0)
         && (o.payment.Authorized? || o.payment.Paid? ==> o.captured == o.total && o.refunded == 0)
         && (o.payment.PartiallyRefunded? <==> 0 < o.refunded < o.captured)
         && (o.payment.Refunded? <==> 0 < o.refunded == o.captured)
  }

  /** A cancelled order that still owes money has the step pending that will pay it back. */
  predicate Owes(o: Order) {
    && (o.status.Cancelled? && o.captured > o.refunded ==>
          IsWaiting(o.steps, FulfillmentCancelRequested) || IsWaiting(o.steps, RefundRequested))
    && (RefundRequested in o.steps || FulfillmentCancelRequested in o.steps ==> o.status.Cancelled?)
    && (RefundRequested in o.steps && o.steps[RefundRequested].Finished? ==> o.captured == o.refunded)
    && (o.saga.Failed? ==> o.status.Cancelled? && o.captured == o.refunded && NothingHeld(o.allocations))
  }

  predicate NothingHeld(allocations: seq<Allocation>) {
    forall i :: 0 <= i < |allocations| ==> !allocations[i].status.Active? && !allocations[i].status.Committed?
  }

  /** An edge of the status machine in templates/commerce/internal/order/state.go. */
  datatype Lifecycle = PaymentSucceeded | PaymentDeclined | CancellationRequested | DeliveryCompleted

  /** order.Transition on the stored states. */
  function Transition(from: Status, e: Lifecycle): Option<Status> {
    match e
    case PaymentSucceeded => if from.Pending? || from.Confirmed? then Some(Confirmed)
                             else if from.Completed? then Some(Completed) else None
    case PaymentDeclined => if from.Pending? || from.Cancelled? then Some(Cancelled) else None
    case CancellationRequested => if from.Completed? then None else Some(Cancelled)
    case DeliveryCompleted => if from.Confirmed? || from.Completed? then Some(Completed) else None
  }

  predicate Edge(from: Status, to: Status) {
    from != to && exists e :: Transition(from, e) == Some(to)
  }

  /** The status history is a path of the machine from 'pending' to the current status. */
  predicate Path(history: seq<Change>, status: Status) {
    && history != [] && history[0] == Change(None, Pending) && history[|history| - 1].to == status
    && forall i :: 0 < i < |history| ==>
         history[i].from == Some(history[i - 1].to) && Edge(history[i - 1].to, history[i].to)
  }

  predicate Invariant(o: Order) {
    Coupled(o) && Owes(o) && Path(o.history, o.status)
  }

  // ---------- preservation ----------

  lemma PathExtends(history: seq<Change>, from: Status, to: Status)
    requires Path(history, from) && Edge(from, to)
    ensures Path(history + [Change(Some(from), to)], to)
  {
  }

  lemma Edges()
    ensures Edge(Pending, Confirmed) && Edge(Pending, Cancelled) && Edge(Confirmed, Cancelled) && Edge(Confirmed, Completed)
  {
    assert Transition(Pending, PaymentSucceeded) == Some(Confirmed);
    assert Transition(Pending, PaymentDeclined) == Some(Cancelled);
    assert Transition(Confirmed, CancellationRequested) == Some(Cancelled);
    assert Transition(Confirmed, DeliveryCompleted) == Some(Completed);
  }

  lemma CancelKeeps(o: Order, key: string, reason: string)
    requires Invariant(o)
    ensures Invariant(Cancel(o, key, reason).1)
  {
    Edges();
    var o' := Cancel(o, key, reason).1;
    if o' != o { PathExtends(o.history, o.status, Cancelled); }
    hide Path, Edge;
  }

  lemma PaymentKeeps(o: Order, code: string, currency: string, amount: int)
    requires Invariant(o)
    ensures Invariant(ApplyPaymentFailed(o, code).1)
    ensures Invariant(ApplyPaymentPaid(o, currency, amount).1)
  {
    Edges();
    if o.status.Pending? { PathExtends(o.history, Pending, Cancelled); }
    hide Path, Edge;
  }

  lemma InventoryKeeps(o: Order, result: seq<Allocation>)
    requires Invariant(o)
    ensures Invariant(ApplyInventoryCommitted(o, result).1)
    ensures Invariant(ApplyInventoryReleased(o, result).1)
  {
    Edges();
    if o.status.Pending? { PathExtends(o.history, Pending, Confirmed); }
    hide Path, Edge, ValidResult;
  }

  lemma FulfillmentKeeps(o: Order)
    requires Invariant(o)
    ensures Invariant(ApplyFulfillmentCancelled(o).1)
    ensures Invariant(ApplyFulfillmentCompleted(o).1)
  {
    Edges();
    if o.status.Confirmed? { PathExtends(o.history, Confirmed, Completed); }
    hide Path, Edge;
  }

  lemma RefundKeeps(o: Order, currency: string, amount: int)
    requires Invariant(o)
    ensures Invariant(ApplyRefunded(o, currency, amount).1)
  {
    hide Path;
  }

  lemma DoKeeps(o: Order, i: Input)
    requires Invariant(o)
    ensures Invariant(Do(o, i))
  {
    hide Invariant, Cancel, ApplyPaymentFailed, ApplyPaymentPaid, ApplyInventoryCommitted, ApplyInventoryReleased,
         ApplyFulfillmentCancelled, ApplyFulfillmentCompleted, ApplyRefunded;
    match i
    case Command(key, reason) => CancelKeeps(o, key, reason);
    case Event(PaymentFailed(code)) => PaymentKeeps(o, code, "", 0);
    case Event(PaymentPaid(currency, amount)) => PaymentKeeps(o, "", currency, amount);
    case Event(InventoryCommitted(result)) => InventoryKeeps(o, result);
    case Event(InventoryReleased(result)) => InventoryKeeps(o, result);
    case Event(FulfillmentCancelled) => FulfillmentKeeps(o);
    case Event(FulfillmentCompleted) => FulfillmentKeeps(o);
    case Event(RefundSucceeded(currency, amount)) => RefundKeeps(o, currency, amount);
  }

  lemma {:induction false} InvariantAlways(currency: string, total: int, allocations: seq<Allocation>, run: seq<Input>)
    requires total >= 0
    ensures Invariant(Exec(Placed(currency, total, allocations), run))
  {
    if run != [] {
      hide Invariant, Do;
      InvariantAlways(currency, total, allocations, run[..|run| - 1]);
      DoKeeps(Exec(Placed(currency, total, allocations), run[..|run| - 1]), run[|run| - 1]);
    }
  }

  // ---------- what it means ----------

  /** Allocations change status only, and an expired one stays expired. */
  predicate SameAllocations(a: seq<Allocation>, b: seq<Allocation>) {
    |a| == |b| && forall i :: 0 <= i < |a| ==>
      b[i] == a[i].(status := b[i].status) && (b[i].status.Expired? <==> a[i].status.Expired?)
  }

  lemma DoAllocations(o: Order, i: Input)
    ensures SameAllocations(o.allocations, Do(o, i).allocations)
  {
  }

  lemma {:induction false} ExecAllocations(o: Order, run: seq<Input>)
    ensures SameAllocations(o.allocations, Exec(o, run).allocations)
  {
    if run != [] {
      ExecAllocations(o, run[..|run| - 1]);
      DoAllocations(Exec(o, run[..|run| - 1]), run[|run| - 1]);
      hide Do;
    }
  }

  /** MAIN THEOREM. Whatever arrives, in any order and any number of times, the saga ends in 'failed' only
      when the order is cancelled, every captured unit has been refunded, and no stored allocation is held
      any more: each is released, unless it had expired before the order was placed. */
  lemma FailedMeansSettled(currency: string, total: int, allocations: seq<Allocation>, run: seq<Input>)
    requires total >= 0 && Exec(Placed(currency, total, allocations), run).saga.Failed?
    ensures var o := Exec(Placed(currency, total, allocations), run);
            && o.status.Cancelled? && o.captured == o.refunded
            && |o.allocations| == |allocations|
            && forall i :: 0 <= i < |allocations| ==>
                 o.allocations[i] == allocations[i].(status := if allocations[i].status.Expired? then Expired else Released)
  {
    InvariantAlways(currency, total, allocations, run);
    ExecAllocations(Placed(currency, total, allocations), run);
    hide Exec, Path, Coupled;
    var o := Exec(Placed(currency, total, allocations), run);
    assert SameAllocations(allocations, o.allocations);
    forall i | 0 <= i < |allocations|
      ensures o.allocations[i] == allocations[i].(status := if allocations[i].status.Expired? then Expired else Released)
    {
      assert o.allocations[i] == allocations[i].(status := o.allocations[i].status);
    }
  }

  /** The matrix of templates/commerce/internal/seed/verify.go and of the table's CHECK constraints. */
  predicate Matrix(o: Order) {
    var paidFamily := o.payment in {Paid, PartiallyRefunded, Refunded};
    && (o.status.Completed? ==> paidFamily && o.fulfillment.Fulfilled?)
    && (o.payment.Declined? ==> o.status.Cancelled?)
    && (!o.fulfillment.Unfulfilled? ==> o.status in {Confirmed, Completed, Cancelled} && paidFamily)
  }

  /** Every reachable row passes the verifier's matrix, has captured nothing or the total, has refunded no
      more than that, and its payment status tells how much was refunded. */
  lemma ReachableRows(currency: string, total: int, allocations: seq<Allocation>, run: seq<Input>)
    requires total >= 0
    ensures var o := Exec(Placed(currency, total, allocations), run);
            && Matrix(o)
            && (o.captured == 0 || o.captured == o.total) && 0 <= o.refunded <= o.captured
            && (o.payment.Refunded? <==> 0 < o.refunded == o.captured)
            && (o.payment.PartiallyRefunded? <==> 0 < o.refunded < o.captured)
            && (o.payment in {Unpaid, Declined} ==> o.captured == 0)
            && (o.payment in {Authorized, Paid} ==> o.captured == o.total)
            && Path(o.history, o.status)
  {
    InvariantAlways(currency, total, allocations, run);
    hide Exec, Path;
  }

  // ---------- nothing waits unasked ----------

  /** What the order waits for it has asked for, and what has happened to it it has announced. */
  predicate Asked(o: Order) {
    && (!o.status.Cancelled? ==> ReleaseRequested !in o.steps)
    && (o.status.Pending? && o.payment.Unpaid? ==> CommitRequested !in o.steps)
    && (o.saga.Reserving? ==> IsWaiting(o.steps, CommitRequested) && CommitWanted in o.outbox)
    && (o.saga.Compensating? ==>
          IsWaiting(o.steps, FulfillmentCancelRequested) || IsWaiting(o.steps, RefundRequested) || IsWaiting(o.steps, ReleaseRequested))
    && (ReleaseRequested in o.steps && !o.steps[ReleaseRequested].Waiting? ==> o.saga.Failed?)
    && (IsWaiting(o.steps, FulfillmentCancelRequested) ==> FulfillmentCancelWanted in o.outbox)
    && (IsWaiting(o.steps, ReleaseRequested) ==> ReleaseWanted in o.outbox)
    && (o.status.Cancelled? && o.captured > o.refunded && !IsWaiting(o.steps, FulfillmentCancelRequested) ==>
          RefundWanted(o.captured - o.refunded) in o.outbox)
    && (IsWaiting(o.steps, RefundRequested) ==> o.captured > o.refunded)
    && (o.status.Cancelled? ==> OrderCancelled in o.outbox)
    && (o.status in {Confirmed, Completed} ==> OrderPaid in o.outbox)
  }

  lemma AskedStep(o: Order, i: Input)
    requires Invariant(o) && Asked(o)
    ensures Asked(Do(o, i))
  {
    hide Invariant, Asked, Cancel, ApplyPaymentFailed, ApplyPaymentPaid, ApplyInventoryCommitted, ApplyInventoryReleased,
         ApplyFulfillmentCancelled, ApplyFulfillmentCompleted, ApplyRefunded;
    match i
    case Command(key, reason) => AskedCancel(o, key, reason);
    case Event(PaymentFailed(code)) => AskedPayment(o, code, "", 0);
    case Event(PaymentPaid(currency, amount)) => AskedPayment(o, "", currency, amount);
    case Event(InventoryCommitted(result)) => AskedInventory(o, result);
    case Event(InventoryReleased(result)) => AskedInventory(o, result);
    case Event(FulfillmentCancelled) => AskedFulfillment(o);
    case Event(FulfillmentCompleted) => AskedFulfillment(o);
    case Event(RefundSucceeded(currency, amount)) => AskedRefund(o, currency, amount);
  }

  lemma AskedCancel(o: Order, key: string, reason: string)
    requires Invariant(o) && Asked(o)
    ensures Asked(Cancel(o, key, reason).1)
  {
    hide Path, Edge, NothingHeld;
  }

  lemma AskedPayment(o: Order, code: string, currency: string, amount: int)
    requires Invariant(o) && Asked(o)
    ensures Asked(ApplyPaymentFailed(o, code).1) && Asked(ApplyPaymentPaid(o, currency, amount).1)
  {
    hide Path, Edge, NothingHeld;
  }

  lemma AskedInventory(o: Order, result: seq<Allocation>)
    requires Invariant(o) && Asked(o)
    ensures Asked(ApplyInventoryCommitted(o, result).1) && Asked(ApplyInventoryReleased(o, result).1)
  {
    hide Path, Edge, NothingHeld, ValidResult, WithStatus;
  }

  lemma AskedFulfillment(o: Order)
    requires Invariant(o) && Asked(o)
    ensures Asked(ApplyFulfillmentCancelled(o).1) && Asked(ApplyFulfillmentCompleted(o).1)
  {
    hide Path, Edge, NothingHeld;
  }

  lemma AskedRefund(o: Order, currency: string, amount: int)
    requires Invariant(o) && Asked(o)
    ensures Asked(ApplyRefunded(o, currency, amount).1)
  {
    hide Path, Edge, NothingHeld;
  }

  /** MAIN THEOREM. The saga never waits for an answer to a question it has not put: while it reserves it has
      asked for the commit; while it compensates some step is pending and its request is in the outbox; and
      money still owed has been asked for, to the unit, once fulfillment is out of the way. */
  lemma {:induction false} NothingWaitsUnasked(currency: string, total: int, allocations: seq<Allocation>,
                                               run: seq<Input>)
    requires total >= 0
    ensures Asked(Exec(Placed(currency, total, allocations), run))
  {
    if run != [] {
      hide Invariant, Do, Asked;
      NothingWaitsUnasked(currency, total, allocations, run[..|run| - 1]);
      InvariantAlways(currency, total, allocations, run[..|run| - 1]);
      AskedStep(Exec(Placed(currency, total, allocations), run[..|run| - 1]), run[|run| - 1]);
    }
  }

  // ---------- inventory results ----------

  predicate DistinctIds(a: seq<Allocation>) {
    forall i, j :: 0 <= i < j < |a| ==> a[i].id != a[j].id
  }

  ghost function Ids(a: seq<Allocation>): set<string> {
    set i | 0 <= i < |a| :: a[i].id
  }

  lemma {:induction false} IdsCount(a: seq<Allocation>)
    requires DistinctIds(a)
    ensures |Ids(a)| == |a|
  {
    if a != [] {
      var rest, last := a[..|a| - 1], a[|a| - 1].id;
      IdsCount(rest);
      forall x ensures x in Ids(a) <==> x in Ids(rest) || x == last {
        if x in Ids(rest) { var i :| 0 <= i < |rest| && rest[i].id == x; assert a[i].id == x; }
        if x in Ids(a) && x != last { var i :| 0 <= i < |a| && a[i].id == x; assert rest[i].id == x; }
        assert a[|a| - 1].id == last;
      }
      assert Ids(a) == Ids(rest) + {last};
      assert last !in Ids(rest);
    }
  }

  /** An accepted result names exactly the stored allocations: none is missing and none is made up. The
      check itself only counts, looks for repeats, and looks each one up. */
  lemma ResultNamesExactly(stored: seq<Allocation>, result: seq<Allocation>, expected: AllocationStatus)
    requires DistinctIds(stored) && ValidResult(stored, result, expected)
    ensures Ids(result) == Ids(stored)
    ensures forall i :: 0 <= i < |stored| ==> Known(result, stored[i])
  {
    IdsCount(stored);
    IdsCount(result);
    forall x | x in Ids(result) ensures x in Ids(stored) {
      var i :| 0 <= i < |result| && result[i].id == x;
      assert Known(stored, result[i]);
    }
    SubsetSize(Ids(result), Ids(stored));
    forall i | 0 <= i < |stored| ensures Known(result, stored[i]) {
      assert stored[i].id in Ids(result);
      var j :| 0 <= j < |result| && result[j].id == stored[i].id;
      assert Known(stored, result[j]);
      var k :| 0 <= k < |stored| && stored[k].id == result[j].id && stored[k].sku == result[j].sku && stored[k].quantity == result[j].quantity;
      assert k == i;
    }
  }

  // ---------- captured after the cancellation ----------

  /** A cancellation accepted while the payment is still pending. */
  predicate CancelledUnpaid(o: Order) {
    o.status.Cancelled? && o.payment.Unpaid? && o.captured == 0 && o.refunded == 0
    && !IsWaiting(o.steps, FulfillmentCancelRequested)
    && forall i :: 0 <= i < |o.outbox| ==> !o.outbox[i].RefundWanted?
  }

  lemma {:induction false} StrandedForever(o: Order, run: seq<Input>)
    requires CancelledUnpaid(o)
    ensures CancelledUnpaid(Exec(o, run))
  {
    if run != [] {
      StrandedForever(o, run[..|run| - 1]);
      StrandedStep(Exec(o, run[..|run| - 1]), run[|run| - 1]);
      hide Do;
    }
  }

  lemma StrandedStep(o: Order, i: Input)
    requires CancelledUnpaid(o)
    ensures CancelledUnpaid(Do(o, i))
  {
    hide ValidResult;
  }

  predicate NoRefundWanted(outbox: seq<Outgoing>) {
    forall i :: 0 <= i < |outbox| ==> !outbox[i].RefundWanted?
  }

  lemma {:induction false} NoRefundBefore(currency: string, total: int, allocations: seq<Allocation>, run: seq<Input>)
    requires total >= 0 && !Exec(Placed(currency, total, allocations), run).status.Cancelled?
    ensures NoRefundWanted(Exec(Placed(currency, total, allocations), run).outbox)
  {
    if run != [] {
      var o := Exec(Placed(currency, total, allocations), run[..|run| - 1]);
      StaysCancelled(o, run[|run| - 1]);
      NoRefundBefore(currency, total, allocations, run[..|run| - 1]);
      NoRefundStep(o, run[|run| - 1]);
      hide Do;
    }
  }

  lemma StaysCancelled(o: Order, i: Input)
    ensures o.status.Cancelled? ==> Do(o, i).status.Cancelled?
  {
    hide ValidResult;
  }

  lemma NoRefundStep(o: Order, i: Input)
    requires !o.status.Cancelled? && NoRefundWanted(o.outbox)
    ensures NoRefundWanted(Do(o, i).outbox)
  {
    hide ValidResult;
  }

  lemma {:induction false} MoneyFixed(o: Order, run: seq<Input>)
    ensures Exec(o, run).total == o.total && Exec(o, run).currency == o.currency
  {
    if run != [] {
      MoneyFixed(o, run[..|run| - 1]);
      DoMoney(Exec(o, run[..|run| - 1]), run[|run| - 1]);
      hide Do;
    }
  }

  lemma DoMoney(o: Order, i: Input)
    ensures Do(o, i).total == o.total && Do(o, i).currency == o.currency
  {
    hide ValidResult, Ensure, Settle, Upsert, WithStatus, IsWaiting;
    match i
    case Command(_, _) =>
    case Event(PaymentFailed(_)) =>
    case Event(PaymentPaid(_, _)) =>
    case Event(InventoryCommitted(_)) =>
    case Event(InventoryReleased(_)) =>
    case Event(FulfillmentCancelled) =>
    case Event(FulfillmentCompleted) =>
    case Event(RefundSucceeded(_, _)) =>
  }

  lemma RefundAsked(c: Order)
    requires c.status.Cancelled? && IsWaiting(c.steps, FulfillmentCancelRequested) && c.captured > c.refunded
    ensures !NoRefundWanted(Exec(c, [Event(FulfillmentCancelled)]).outbox)
  {
    var later := [Event(FulfillmentCancelled)];
    assert later[..0] == [] && Exec(c, []) == c;
    assert Exec(c, later) == Do(c, Event(FulfillmentCancelled));
    assert ApplyFulfillmentCancelled(c).1.outbox[|c.outbox|].RefundWanted?;
  }

  /** When an accepted cancellation leads to money being paid back: the order asks payment for a refund in
      some continuation exactly when it had seen the payment at the moment of cancelling. If the payment's
      event arrives later it is ignored in every continuation, the order never records a capture and never
      asks for a refund: the customer has paid for a cancelled order. */
  lemma RefundNeedsPaymentFirst(currency: string, total: int, allocations: seq<Allocation>, run: seq<Input>,
                                key: string, reason: string)
    requires total > 0
    requires var o := Exec(Placed(currency, total, allocations), run); Cancel(o, key, reason).0 == Accepted
    ensures var o := Exec(Placed(currency, total, allocations), run);
            var c := Cancel(o, key, reason).1;
            (exists later :: !NoRefundWanted(Exec(c, later).outbox)) <==> !o.payment.Unpaid?
  {
    InvariantAlways(currency, total, allocations, run);
    var o := Exec(Placed(currency, total, allocations), run);
    var c := Cancel(o, key, reason).1;
    NoRefundBefore(currency, total, allocations, run);
    MoneyFixed(Placed(currency, total, allocations), run);
    hide Exec, Path;
    assert o.total == total;
    if o.payment.Unpaid? {
      assert CancelledUnpaid(c);
      forall later ensures NoRefundWanted(Exec(c, later).outbox) { StrandedForever(c, later); }
    } else {
      assert IsWaiting(c.steps, FulfillmentCancelRequested) && c.captured > c.refunded;
      RefundAsked(c);
    }
  }
}
