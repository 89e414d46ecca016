/** Whether a cancelled order is paid back, over whole runs of the two services: on the schema the migration
    installs, and without its refund trigger (templates/commerce/internal/payment/store.go,
    templates/commerce/db/migrations/payment_db.sql). */
module RefundOutcome {
  import opened Common
  import opened OrderPayment
  import Saga = SagaSpec
  import Inv = SagaInvariant
  import Pay = PaymentSpec

  // ---------- with the trigger nothing is paid back in full ----------

  predicate Unfinished(s: Shop) {
    s.guarded && (s.intent.Some? ==> PaidBack(s) < s.intent.value.amount)
  }

  lemma StepUnfinished(s: Shop, a: Action)
    requires Invariant(s) && Unfinished(s)
    ensures Unfinished(Step(s, a))
  {
    hide Inv.Invariant, OnTheWay, Saga.Apply, Inv.Do;
    match a
    case AskRefund(key, amount) =>
      if s.intent.Some? { Pay.RefundMeaning(s.intent.value, key, amount, true); }
      hide Pay.RequestRefund, Pay.SumRefunded;
    case CancelIntent => CancelChangesNothing(s);
    case _ =>
  }

  lemma {:induction false} UnfinishedAlways(currency: string, total: int, allocations: seq<Saga.Allocation>, run: seq<Action>)
    requires total >= 0
    ensures Unfinished(Exec(Start(true, currency, total, allocations), run))
  {
    if run != [] {
      hide Invariant, Unfinished, Step;
      InvariantAlways(true, currency, total, allocations, run[..|run| - 1]);
      UnfinishedAlways(currency, total, allocations, run[..|run| - 1]);
      StepUnfinished(Exec(Start(true, currency, total, allocations), run[..|run| - 1]), run[|run| - 1]);
    }
  }

  lemma WayIsPart(s: Shop)
    requires Invariant(s)
    ensures s.order.refunded <= PaidBack(s)
    ensures s.intent.None? ==> PaidBack(s) == 0
    ensures s.intent.Some? ==> s.intent.value.amount == s.order.total && (s.intent.value.status.Refunded? <==> PaidBack(s) == s.order.total)
  {
    WayNonNegative(s.sent, s.inbox);
    hide OnTheWay, Inv.Invariant;
  }

  /** MAIN THEOREM. With the trigger, whatever requests are made: no intent is ever 'refunded', what payment has
      paid back stays below the total, and a cancelled order that was paid for stays in 'compensating' for
      ever, still owing. */
  lemma NeverPaidInFull(currency: string, total: int, allocations: seq<Saga.Allocation>, run: seq<Action>)
    requires total >= 0
    ensures var s := Exec(Start(true, currency, total, allocations), run);
            && (s.intent.Some? ==> PaidBack(s) < total && !s.intent.value.status.Refunded?)
            && (s.order.status.Cancelled? && s.order.captured > 0 ==>
                  s.order.refunded < s.order.captured && s.order.saga.Compensating?)
  {
    InvariantAlways(true, currency, total, allocations, run);
    UnfinishedAlways(currency, total, allocations, run);
    ShopTotal(Start(true, currency, total, allocations), run);
    WayIsPart(Exec(Start(true, currency, total, allocations), run));
    hide Exec, PaidBack, OnTheWay, EventsFit, IntentFits, Inv.Path;
  }

  // ---------- without it the saga can end ----------

  predicate Releasable(allocations: seq<Saga.Allocation>) {
    Inv.DistinctIds(allocations) && forall i :: 0 <= i < |allocations| ==> allocations[i].id != ""
  }

  lemma ExecNext(s: Shop, run: seq<Action>, a: Action)
    ensures Exec(s, run + [a]) == Step(Exec(s, run), a)
  {
    assert (run + [a])[..|run|] == run;
  }

  lemma ExecNone(s: Shop)
    ensures Exec(s, []) == s
  {
  }

  function Released(allocations: seq<Saga.Allocation>): (r: seq<Saga.Allocation>)
    ensures |r| == |allocations|
    ensures forall i :: 0 <= i < |r| ==> r[i] == allocations[i].(status := Saga.Released)
  {
    seq(|allocations|, i requires 0 <= i < |allocations| => allocations[i].(status := Saga.Released))
  }

  lemma ReleasedIsValid(allocations: seq<Saga.Allocation>)
    requires Releasable(allocations)
    ensures Saga.ValidResult(allocations, Released(allocations), Saga.Released)
  {
    var r := Released(allocations);
    forall i | 0 <= i < |r| ensures Saga.Known(allocations, r[i]) {
      assert allocations[i].id == r[i].id && allocations[i].sku == r[i].sku && allocations[i].quantity == r[i].quantity;
    }
  }

  /** Paid, then cancelled and fulfillment called off: the order asks for the total. */
  function Cancelling(): seq<Action> {
    [Capture([Pay.Approved]), Deliver(0), Other(Inv.Command("cancel", "changed my mind")), Other(Inv.Event(Saga.FulfillmentCancelled))]
  }

  /** The order once it has seen its payment. */
  predicate PaidFor(s: Shop, total: int) {
    && s.intent == Some(Pay.Intent(total, s.order.currency, Pay.Succeeded, []))
    && |s.sent| == 1 && s.inbox == {0}
    && s.order.status.Pending? && s.order.payment.Authorized? && s.order.saga.Reserving?
    && s.order.captured == total && s.order.refunded == 0 && s.order.commands == map[]
    && s.order.steps == map[Saga.PaymentRequested := Saga.Finished, Saga.CommitRequested := Saga.Waiting]
  }

  lemma PayingReaches(guarded: bool, currency: string, total: int, allocations: seq<Saga.Allocation>)
    requires total > 0
    ensures var s0 := Start(guarded, currency, total, allocations);
            var s := Step(Step(s0, Cancelling()[0]), Cancelling()[1]);
            PaidFor(s, total) && s.guarded == guarded && s.order.allocations == allocations
  {
  }

  /** Cancelled and paid for, fulfillment called off, the refund asked for. */
  predicate Owing(s: Shop, allocations: seq<Saga.Allocation>) {
    var total := s.order.captured;
    && total > 0 && s.intent == Some(Pay.Intent(total, s.order.currency, Pay.Succeeded, []))
    && |s.sent| == 1 && s.inbox == {0}
    && s.order.status.Cancelled? && s.order.saga.Compensating? && s.order.refunded == 0
    && s.order.allocations == allocations
    && Saga.RefundRequested in s.order.steps && s.order.steps[Saga.RefundRequested].Waiting?
    && Saga.FulfillmentCancelRequested in s.order.steps && s.order.steps[Saga.FulfillmentCancelRequested].Finished?
  }

  lemma CancellingReaches(s: Shop, total: int)
    requires total > 0 && PaidFor(s, total)
    ensures var s' := Step(Step(s, Cancelling()[2]), Cancelling()[3]);
            Owing(s', s.order.allocations) && s'.guarded == s.guarded && s'.order.captured == total
  {
  }

  /** The refund is granted without the trigger, recorded, and the stock released. */
  function Settling(total: int, allocations: seq<Saga.Allocation>): seq<Action> {
    [AskRefund("refund", total), Deliver(1), Other(Inv.Event(Saga.InventoryReleased(Released(allocations))))]
  }

  lemma SettlingReaches(s: Shop, allocations: seq<Saga.Allocation>)
    requires Releasable(allocations) && Owing(s, allocations) && !s.guarded
    ensures var run := Settling(s.order.captured, allocations);
            var s' := Step(Step(Step(s, run[0]), run[1]), run[2]);
            s'.order.saga.Failed? && s'.order.captured > 0
  {
    ReleasedIsValid(allocations);
    var total := s.order.captured;
    assert Pay.SumRefunded([]) == 0;
    var s1 := Step(s, AskRefund("refund", total));
    assert s1 == s.(intent := s1.intent, sent := s.sent + [Saga.RefundSucceeded(s.order.currency, total)]);
    var s2 := Step(s1, Deliver(1));
    assert s2.order.refunded == total && s2.order.captured == total && s2.order.saga.Compensating?;
    hide Saga.ValidResult;
  }

  /** MAIN THEOREM. Some run of a paid order ends its compensation, in 'failed', if and only if the refund
      table's trigger is missing. */
  lemma CompensationEndsIffUnguarded(guarded: bool, currency: string, total: int, allocations: seq<Saga.Allocation>)
    requires total > 0 && Releasable(allocations)
    ensures (exists run :: Exec(Start(guarded, currency, total, allocations), run).order.saga.Failed?
                           && Exec(Start(guarded, currency, total, allocations), run).order.captured > 0)
       <==> !guarded
  {
    var s0 := Start(guarded, currency, total, allocations);
    if guarded {
      forall run ensures !(Exec(s0, run).order.saga.Failed? && Exec(s0, run).order.captured > 0) {
        NeverPaidInFull(currency, total, allocations, run);
        InvariantAlways(true, currency, total, allocations, run);
        hide Exec;
      }
    } else {
      PayingReaches(guarded, currency, total, allocations);
      var first, more := Cancelling(), Settling(total, allocations);
      hide *;
      var paid := Step(Step(s0, first[0]), first[1]);
      CancellingReaches(paid, total);
      SettlingReaches(Step(Step(paid, first[2]), first[3]), allocations);
      assert Exec(s0, []) == s0 by { ExecNone(s0); }
      ExecNext(s0, [], first[0]);
      ExecNext(s0, [] + [first[0]], first[1]);
      var run := [] + [first[0]] + [first[1]];
      ExecNext(s0, run, first[2]);
      ExecNext(s0, run + [first[2]], first[3]);
      run := run + [first[2]] + [first[3]];
      ExecNext(s0, run, more[0]);
      ExecNext(s0, run + [more[0]], more[1]);
      ExecNext(s0, run + [more[0]] + [more[1]], more[2]);
    }
  }

  // ---------- what the order itself asks for ----------

  /** A refund request comes from the order's own outbox. */
  predicate OwnAction(s: Shop, a: Action) {
    a.AskRefund? ==> Saga.RefundWanted(a.amount) in s.order.outbox
  }

  predicate OwnRun(s: Shop, run: seq<Action>) {
    run != [] ==> OwnRun(s, run[..|run| - 1]) && OwnAction(Exec(s, run[..|run| - 1]), run[|run| - 1])
  }

  /** The order asks for the total or for nothing. */
  predicate WantsAll(o: Saga.Order) {
    && (o.refunded == 0 || o.refunded == o.total)
    && forall e :: e in o.outbox && e.RefundWanted? ==> e.amount == o.total == o.captured && o.captured > 0 && o.status.Cancelled?
  }

  predicate AllOrNothing(s: Shop) {
    && WantsAll(s.order)
    && (PaidBack(s) == 0 || PaidBack(s) == s.order.total)
    && (s.guarded ==> PaidBack(s) == 0)
    && forall j :: 0 <= j < |s.sent| && s.sent[j].RefundSucceeded? ==> s.sent[j].amount == s.order.total
  }

  lemma OrderWantsAll(o: Saga.Order, i: Inv.Input)
    requires Inv.Invariant(o) && WantsAll(o)
    requires i.Event? && i.e.RefundSucceeded? ==> i.e.amount == o.total
    ensures WantsAll(Inv.Do(o, i)) && Inv.Do(o, i).total == o.total
  {
    hide Inv.Path, Inv.Owes, Saga.ValidResult, Saga.WithStatus, Saga.Ensure, Saga.Settle, Saga.Upsert;
  }

  lemma StepAllOrNothing(s: Shop, a: Action)
    requires Invariant(s) && AllOrNothing(s) && OwnAction(s, a)
    ensures AllOrNothing(Step(s, a))
  {
    match a
    case Capture(charges) => hide Inv.Invariant, Pay.CaptureStatus;
    case CancelIntent => CancelChangesNothing(s);
    case AskRefund(key, amount) =>
      if s.intent.Some? {
        Pay.RefundMeaning(s.intent.value, key, amount, s.guarded);
        hide Pay.RequestRefund, Pay.SumRefunded, Inv.Invariant;
      }
    case Deliver(j) =>
      if j < |s.sent| { OrderWantsAll(s.order, Inv.Event(s.sent[j])); }
      hide Inv.Invariant, Saga.ApplyRefunded, Saga.ApplyPaymentPaid, Saga.ApplyPaymentFailed, WantsAll;
    case Other(input) =>
      if NotFromPayment(input) { OrderWantsAll(s.order, input); }
      hide Inv.Invariant, Inv.Do, WantsAll;
  }

  lemma {:induction false} AllOrNothingAlways(guarded: bool, currency: string, total: int,
                                              allocations: seq<Saga.Allocation>, run: seq<Action>)
    requires total >= 0 && OwnRun(Start(guarded, currency, total, allocations), run)
    ensures AllOrNothing(Exec(Start(guarded, currency, total, allocations), run))
  {
    if run != [] {
      hide Invariant, AllOrNothing, Step, OwnAction;
      InvariantAlways(guarded, currency, total, allocations, run[..|run| - 1]);
      AllOrNothingAlways(guarded, currency, total, allocations, run[..|run| - 1]);
      StepAllOrNothing(Exec(Start(guarded, currency, total, allocations), run[..|run| - 1]), run[|run| - 1]);
    }
  }

  lemma {:induction false} GuardFixed(s: Shop, run: seq<Action>)
    ensures Exec(s, run).guarded == s.guarded
  {
    if run != [] {
      GuardFixed(s, run[..|run| - 1]);
      hide Saga.Apply, Inv.Do, Pay.RequestRefund;
    }
  }

  /** MAIN THEOREM. When every refund request is one the order sent, in any order and with any repeats: each
      asks for the whole total, so partial refunds never happen; payment pays back all or nothing, and with
      the trigger it pays back nothing in any run. */
  lemma OwnRequestsAllOrNothing(guarded: bool, currency: string, total: int, allocations: seq<Saga.Allocation>,
                                run: seq<Action>)
    requires total >= 0 && OwnRun(Start(guarded, currency, total, allocations), run)
    ensures var s := Exec(Start(guarded, currency, total, allocations), run);
            && (forall e :: e in s.order.outbox && e.RefundWanted? ==> e.amount == total && s.order.status.Cancelled?)
            && (PaidBack(s) == 0 || PaidBack(s) == total) && (guarded ==> PaidBack(s) == 0)
            && !s.order.payment.PartiallyRefunded?
            && (s.intent.Some? ==> !s.intent.value.status.PartiallyRefunded?)
            && (guarded ==> s.order.refunded == 0)
  {
    var s0 := Start(guarded, currency, total, allocations);
    AllOrNothingAlways(guarded, currency, total, allocations, run);
    InvariantAlways(guarded, currency, total, allocations, run);
    ShopTotal(s0, run);
    GuardFixed(s0, run);
    WayIsPart(Exec(s0, run));
    hide Exec, OnTheWay, EventsFit, Inv.Path, Inv.Owes;
  }
}
