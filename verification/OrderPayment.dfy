/** One order and its payment across the two services: what the order records as refunded, what payment has
    refunded, and the events between them. Captures come from order.placed, the cancellation of the intent
    from order.cancelled. A refund request may ask for any amount; it is made for a cancelled order with a
    recorded capture, as every request the order itself sends is (OwnRequestsFit). Events are delivered in
    any order, at least once, and applied at most once. */
module OrderPayment {
  import opened Common
  import Saga = SagaSpec
  import Inv = SagaInvariant
  import Pay = PaymentSpec

  /** `guarded`: payment's schema has the refund table's trigger, as the migration installs it. `sent` are
      payment's events to the order, `inbox` the indices of those the order has handled. */
  datatype Shop = Shop(guarded: bool, order: Saga.Order, intent: Option<Pay.Intent>, sent: seq<Saga.Incoming>, inbox: set<nat>)

  datatype Action =
    | Capture(charges: seq<Pay.Charge>)
    | CancelIntent
    | AskRefund(key: string, amount: int)
    | Deliver(j: nat)
    | Other(input: Inv.Input)

  /** Anything the order reacts to that is not payment's. */
  predicate NotFromPayment(i: Inv.Input) {
    i.Command? || i.e.InventoryCommitted? || i.e.InventoryReleased? || i.e.FulfillmentCancelled? || i.e.FulfillmentCompleted?
  }

  function Captured(s: Shop, charges: seq<Pay.Charge>): Shop {
    match Pay.CaptureStatus(charges)
    case None => s
    case Some(status) =>
      s.(intent := Some(Pay.Intent(s.order.total, s.order.currency, status, [])),
         sent := s.sent + [if status.Succeeded? then Saga.PaymentPaid(s.order.currency, s.order.total)
                           else Saga.PaymentFailed("declined")])
  }

  function Asked(s: Shop, key: string, amount: int): Shop
    requires s.intent.Some?
  {
    var (answer, intent) := Pay.RequestRefund(s.intent.value, key, amount, s.guarded);
    if answer.Recorded? then s.(intent := Some(intent), sent := s.sent + [Saga.RefundSucceeded(intent.currency, amount)])
    else s
  }

  function Delivered(s: Shop, j: nat): Shop
    requires j < |s.sent|
  {
    var (outcome, order) := Saga.Apply(s.order, s.sent[j]);
    if outcome.Rejected? then s else s.(order := order, inbox := s.inbox + {j})
  }

  function Step(s: Shop, a: Action): Shop {
    match a
    case Capture(charges) => if s.intent.None? && s.order.total > 0 then Captured(s, charges) else s
    case CancelIntent => if s.intent.Some? then s.(intent := Some(Pay.CancelIntent(s.intent.value).1)) else s
    case AskRefund(key, amount) =>
      if s.intent.Some? && s.order.status.Cancelled? && s.order.captured > 0 then Asked(s, key, amount) else s
    case Deliver(j) => if j < |s.sent| && j !in s.inbox then Delivered(s, j) else s
    case Other(input) => if NotFromPayment(input) then s.(order := Inv.Do(s.order, input)) else s
  }

  function Start(guarded: bool, currency: string, total: int, allocations: seq<Saga.Allocation>): Shop {
    Shop(guarded, Saga.Placed(currency, total, allocations), None, [], {})
  }

  function Exec(s: Shop, run: seq<Action>): Shop {
    if run == [] then s else Step(Exec(s, run[..|run| - 1]), run[|run| - 1])
  }

  /** The refunds still on their way to the order. */
  function OnTheWay(sent: seq<Saga.Incoming>, inbox: set<nat>): int {
    if sent == [] then 0
    else
      var n := |sent| - 1;
      OnTheWay(sent[..n], inbox) + (if sent[n].RefundSucceeded? && n !in inbox then sent[n].amount else 0)
  }

  function PaidBack(s: Shop): int {
    if s.intent.Some? then Pay.SumRefunded(s.intent.value.refunds) else 0
  }

  // ---------- the invariant ----------

  /** Payment's events: first the capture's outcome, then refunds in the order's money. */
  predicate EventsFit(s: Shop) {
    && (s.intent.None? ==> s.sent == [])
    && (s.intent.Some? ==> s.sent != [] && (s.sent[0].PaymentPaid? || s.sent[0].PaymentFailed?))
    && (forall j :: 0 < j < |s.sent| ==> s.sent[j].RefundSucceeded? && s.sent[j].currency == s.order.currency && s.sent[j].amount > 0)
  }

  predicate IntentFits(s: Shop) {
    s.intent.Some? ==>
      && Pay.Sound(s.intent.value)
      && s.intent.value.amount == s.order.total && s.intent.value.currency == s.order.currency
      && (s.intent.value.status.Failed? || Pay.Captured(s.intent.value.status))
      && s.sent != []
      && (s.sent[0].PaymentPaid? ==> s.sent[0] == Saga.PaymentPaid(s.order.currency, s.order.total))
  }

  ghost predicate Invariant(s: Shop) {
    && Inv.Invariant(s.order)
    && EventsFit(s) && IntentFits(s)
    && (|s.sent| > 1 ==> s.order.status.Cancelled? && s.order.captured == s.order.total > 0)
    && (forall j :: j in s.inbox ==> j < |s.sent|)
    && s.order.refunded + OnTheWay(s.sent, s.inbox) == PaidBack(s)
  }

  // ---------- the sum on the way ----------

  lemma SentMore(sent: seq<Saga.Incoming>, e: Saga.Incoming, inbox: set<nat>)
    requires |sent| !in inbox
    ensures OnTheWay(sent + [e], inbox) == OnTheWay(sent, inbox) + (if e.RefundSucceeded? then e.amount else 0)
  {
    assert (sent + [e])[..|sent|] == sent;
  }

  /** Handling event j takes it off the way. */
  lemma {:induction false} HandledOne(sent: seq<Saga.Incoming>, inbox: set<nat>, j: nat)
    requires j < |sent| && j !in inbox
    ensures OnTheWay(sent, inbox + {j}) == OnTheWay(sent, inbox) - (if sent[j].RefundSucceeded? then sent[j].amount else 0)
  {
    var n := |sent| - 1;
    if j < n {
      HandledOne(sent[..n], inbox, j);
    } else {
      HandledLater(sent[..n], inbox, j);
    }
  }

  lemma {:induction false} HandledLater(sent: seq<Saga.Incoming>, inbox: set<nat>, j: nat)
    requires j >= |sent|
    ensures OnTheWay(sent, inbox + {j}) == OnTheWay(sent, inbox)
  {
    if sent != [] { HandledLater(sent[..|sent| - 1], inbox, j); }
  }

  /** One event on the way is part of what is on the way. */
  lemma {:induction false} PartOfTheWay(sent: seq<Saga.Incoming>, inbox: set<nat>, j: nat)
    requires j < |sent| && j !in inbox && sent[j].RefundSucceeded?
    requires forall k :: 0 <= k < |sent| && sent[k].RefundSucceeded? ==> sent[k].amount > 0
    ensures sent[j].amount <= OnTheWay(sent, inbox)
  {
    var n := |sent| - 1;
    WayNonNegative(sent[..n], inbox);
    if j < n { PartOfTheWay(sent[..n], inbox, j); }
  }

  lemma {:induction false} WayNonNegative(sent: seq<Saga.Incoming>, inbox: set<nat>)
    requires forall k :: 0 <= k < |sent| && sent[k].RefundSucceeded? ==> sent[k].amount > 0
    ensures OnTheWay(sent, inbox) >= 0
  {
    if sent != [] { WayNonNegative(sent[..|sent| - 1], inbox); }
  }

  // ---------- preservation ----------

  /** A capture is stored as succeeded or failed. */
  lemma {:induction false} CaptureSettles(charges: seq<Pay.Charge>)
    ensures Pay.CaptureStatus(charges) in {None, Some(Pay.Succeeded), Some(Pay.Failed)}
  {
    if charges != [] { CaptureSettles(charges[1..]); }
  }

  lemma FreshIntent(total: int, currency: string, status: Pay.Status)
    requires total > 0 && (status.Succeeded? || status.Failed?)
    ensures Pay.Sound(Pay.Intent(total, currency, status, [])) && Pay.SumRefunded([]) == 0
  {
  }

  lemma CapturedKeeps(s: Shop, charges: seq<Pay.Charge>)
    requires Invariant(s) && s.intent.None? && s.order.total > 0
    ensures Invariant(Captured(s, charges))
  {
    hide Inv.Invariant, Pay.CaptureStatus, Pay.Sound, Pay.SumRefunded;
    CaptureSettles(charges);
    var s' := Captured(s, charges);
    if s' != s {
      FreshIntent(s.order.total, s.order.currency, s'.intent.value.status);
      assert s.sent == [] && s'.sent == [s'.sent[0]];
      SentMore(s.sent, s'.sent[0], s.inbox);
    }
    hide OnTheWay;
  }

  /** A stored intent is always settled when the cancellation arrives, so that event changes nothing. */
  lemma CancelChangesNothing(s: Shop)
    requires IntentFits(s)
    ensures Step(s, CancelIntent) == s
  {
  }

  /** A recorded request adds its event and its amount. */
  lemma AskedRecords(s: Shop, key: string, amount: int)
    requires s.intent.Some? && Pay.Sound(s.intent.value) && s.intent.value.currency == s.order.currency
    ensures var s' := Asked(s, key, amount);
            s' == s
            || (&& amount > 0 && s'.intent.Some? && Pay.Sound(s'.intent.value) && Pay.Captured(s'.intent.value.status)
                && s' == s.(intent := s'.intent, sent := s.sent + [Saga.RefundSucceeded(s.order.currency, amount)])
                && s'.intent.value.amount == s.intent.value.amount && s'.intent.value.currency == s.intent.value.currency
                && PaidBack(s') == PaidBack(s) + amount)
  {
    Pay.RefundMeaning(s.intent.value, key, amount, s.guarded);
    hide Pay.RequestRefund, Pay.Sound, Pay.SumRefunded, Pay.HasKey;
  }

  lemma AskedKeeps(s: Shop, key: string, amount: int)
    requires Invariant(s) && s.intent.Some? && s.order.status.Cancelled? && s.order.captured > 0
    ensures Invariant(Asked(s, key, amount))
  {
    AskedRecords(s, key, amount);
    SentMore(s.sent, Saga.RefundSucceeded(s.order.currency, amount), s.inbox);
    CapturedIsTotal(s.order);
    hide Asked, OnTheWay, PaidBack, Pay.Sound, Pay.Captured, Inv.Invariant;
  }

  lemma CapturedIsTotal(o: Saga.Order)
    requires Inv.Invariant(o) && o.captured > 0
    ensures o.captured == o.total
  {
  }

  /** A delivered refund is always recorded: the order's "exceeds remaining" refusal cannot happen. */
  lemma RefundDeliveryApplies(s: Shop, j: nat)
    requires Invariant(s) && 0 < j < |s.sent| && j !in s.inbox
    ensures Saga.Apply(s.order, s.sent[j]).0.Applied?
    ensures var o := Saga.Apply(s.order, s.sent[j]).1;
            && o.refunded == s.order.refunded + s.sent[j].amount && o.captured == s.order.captured
            && o.status.Cancelled? && o.total == s.order.total && o.currency == s.order.currency
  {
    PartOfTheWay(s.sent, s.inbox, j);
    hide Inv.Invariant, OnTheWay;
  }

  /** A delivery the order does not reject takes effect once: the event is handled for good, ignored ones included,
      and delivering it again changes nothing. A rejected one leaves everything as it was. */
  lemma DeliveredOnce(s: Shop, j: nat)
    requires j < |s.sent| && j !in s.inbox
    ensures var (outcome, order) := Saga.Apply(s.order, s.sent[j]);
            var s' := Step(s, Deliver(j));
            && (outcome.Rejected? ==> s' == s)
            && (!outcome.Rejected? ==> s'.order == order && s'.inbox == s.inbox + {j} && Step(s', Deliver(j)) == s')
            && s'.sent == s.sent && s'.intent == s.intent
  {
    hide Saga.Apply;
  }

  /** What the order keeps of its money, whatever it is given. */
  lemma OrderMoney(o: Saga.Order, i: Inv.Input)
    requires Inv.Invariant(o)
    ensures var o' := Inv.Do(o, i);
            && o'.total == o.total && o'.currency == o.currency
            && (o.status.Cancelled? ==> o'.status.Cancelled? && o'.captured == o.captured)
            && (NotFromPayment(i) ==> o'.captured == o.captured && o'.refunded == o.refunded)
            && (i.Event? && !i.e.RefundSucceeded? ==> o'.refunded == o.refunded)
  {
    hide Inv.Path, Inv.Owes, Saga.ValidResult, Saga.WithStatus, Saga.Ensure, Saga.Settle, Saga.Upsert;
  }

  lemma DeliveredKeeps(s: Shop, j: nat)
    requires Invariant(s) && j < |s.sent| && j !in s.inbox
    ensures Invariant(Delivered(s, j))
  {
    var input := Inv.Event(s.sent[j]);
    Inv.DoKeeps(s.order, input);
    OrderMoney(s.order, input);
    HandledOne(s.sent, s.inbox, j);
    if j > 0 { RefundDeliveryApplies(s, j); }
    hide Inv.Invariant, OnTheWay, Saga.ApplyRefunded, Saga.ApplyPaymentPaid, Saga.ApplyPaymentFailed;
    assert Inv.Do(s.order, input) == Saga.Apply(s.order, s.sent[j]).1;
    hide Saga.Apply, Inv.Do;
  }

  lemma StepKeeps(s: Shop, a: Action)
    requires Invariant(s)
    ensures Invariant(Step(s, a))
  {
    hide Captured, Asked, Delivered, Inv.Do;
    match a
    case Capture(charges) => if s.intent.None? && s.order.total > 0 { CapturedKeeps(s, charges); }
    case CancelIntent => CancelChangesNothing(s);
    case AskRefund(key, amount) =>
      if s.intent.Some? && s.order.status.Cancelled? && s.order.captured > 0 { AskedKeeps(s, key, amount); }
    case Deliver(j) => if j < |s.sent| && j !in s.inbox { DeliveredKeeps(s, j); }
    case Other(input) =>
      Inv.DoKeeps(s.order, input);
      OrderMoney(s.order, input);
      hide Inv.Invariant, OnTheWay;
  }

  lemma {:induction false} InvariantAlways(guarded: bool, currency: string, total: int,
                                           allocations: seq<Saga.Allocation>, run: seq<Action>)
    requires total >= 0
    ensures Invariant(Exec(Start(guarded, currency, total, allocations), run))
  {
    if run == [] {
      Inv.InvariantAlways(currency, total, allocations, []);
      assert Inv.Exec(Saga.Placed(currency, total, allocations), []) == Saga.Placed(currency, total, allocations);
    } else {
      hide Invariant, Step;
      InvariantAlways(guarded, currency, total, allocations, run[..|run| - 1]);
      StepKeeps(Exec(Start(guarded, currency, total, allocations), run[..|run| - 1]), run[|run| - 1]);
    }
  }

  /** MAIN THEOREM. Over every run of the two services: what the order has recorded as refunded plus what is
      still on its way is what payment has refunded, and that never exceeds the captured amount; so a
      refund event can always be recorded when it arrives; and the intent is 'refunded' exactly when its
      refunds add up to it. */
  lemma RefundsAgree(guarded: bool, currency: string, total: int, allocations: seq<Saga.Allocation>, run: seq<Action>)
    requires total >= 0
    ensures var s := Exec(Start(guarded, currency, total, allocations), run);
            && s.order.refunded + OnTheWay(s.sent, s.inbox) == PaidBack(s)
            && PaidBack(s) <= total
            && (s.intent.Some? ==> s.intent.value.amount == total
                                   && (s.intent.value.status.Refunded? <==> PaidBack(s) == total))
            && (forall j :: 0 < j < |s.sent| && j !in s.inbox ==> Saga.Apply(s.order, s.sent[j]).0.Applied?)
  {
    InvariantAlways(guarded, currency, total, allocations, run);
    var s := Exec(Start(guarded, currency, total, allocations), run);
    ShopTotal(Start(guarded, currency, total, allocations), run);
    forall j | 0 < j < |s.sent| && j !in s.inbox ensures Saga.Apply(s.order, s.sent[j]).0.Applied? {
      RefundDeliveryApplies(s, j);
    }
    hide Exec, Inv.Invariant, OnTheWay;
  }

  lemma {:induction false} ShopTotal(s: Shop, run: seq<Action>)
    requires Inv.Invariant(s.order)
    ensures Exec(s, run).order.total == s.order.total && Inv.Invariant(Exec(s, run).order)
  {
    if run != [] {
      ShopTotal(s, run[..|run| - 1]);
      var before := Exec(s, run[..|run| - 1]);
      match run[|run| - 1]
      case Deliver(j) =>
        if j < |before.sent| {
          Inv.DoKeeps(before.order, Inv.Event(before.sent[j]));
          OrderMoney(before.order, Inv.Event(before.sent[j]));
        }
        hide Saga.Apply, Inv.Invariant;
      case Other(input) =>
        Inv.DoKeeps(before.order, input);
        OrderMoney(before.order, input);
        hide Inv.Do, Inv.Invariant;
      case _ =>
    }
  }

  /** Every refund the order itself asks for meets the assumption on refund requests. */
  lemma OwnRequestsFit(o: Saga.Order, i: Inv.Input, k: nat)
    requires Inv.Invariant(o) && |o.outbox| <= k < |Inv.Do(o, i).outbox| && Inv.Do(o, i).outbox[k].RefundWanted?
    ensures var o' := Inv.Do(o, i);
            o'.status.Cancelled? && o'.captured > 0 && o'.outbox[k].amount == o'.captured - o'.refunded > 0
  {
    hide Inv.Path, Saga.ValidResult;
  }
}
