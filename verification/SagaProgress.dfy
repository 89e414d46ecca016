/** What each event and command makes of an order that is due for it, answer and rows, and that the saga gets
    where it should (templates/commerce/internal/order/store.go). */
module SagaProgress {
  import opened Common
  import opened Text
  import opened SagaSpec
  import opened SagaInvariant

  // ---------- inventory results ----------

  /** The stored allocations as a result reports them. */
  function Reported(stored: seq<Allocation>, status: AllocationStatus): (r: seq<Allocation>)
    ensures |r| == |stored|
    ensures forall i :: 0 <= i < |r| ==> r[i] == stored[i].(status := status)
  {
    seq(|stored|, i requires 0 <= i < |stored| => stored[i].(status := status))
  }

  /** A list whose ids differ holds each of its elements once. */
  lemma {:induction false} OnceEach(a: seq<Allocation>, x: Allocation)
    requires DistinctIds(a)
    ensures multiset(a)[x] == if x in a then 1 else 0
  {
    if a != [] {
      var n := |a| - 1;
      OnceEach(a[..n], x);
      assert a == a[..n] + [a[n]];
      if x == a[n] { assert forall i :: 0 <= i < n ==> a[i].id != a[n].id; }
    }
  }

  predicate NamedAll(a: seq<Allocation>) {
    forall i :: 0 <= i < |a| ==> a[i].id != ""
  }

  /** An inventory result is accepted if and only if it is the stored allocations, in any order, all with a name and
      the expected status. */
  lemma ResultIsExactly(stored: seq<Allocation>, result: seq<Allocation>, expected: AllocationStatus)
    requires DistinctIds(stored)
    ensures ValidResult(stored, result, expected) <==>
              NamedAll(stored) && multiset(result) == multiset(Reported(stored, expected))
  {
    if ValidResult(stored, result, expected) { AcceptedIsExact(stored, result, expected); }
    if NamedAll(stored) && multiset(result) == multiset(Reported(stored, expected)) { ExactIsAccepted(stored, result, expected); }
  }

  lemma AcceptedIsExact(stored: seq<Allocation>, result: seq<Allocation>, expected: AllocationStatus)
    requires DistinctIds(stored) && ValidResult(stored, result, expected)
    ensures NamedAll(stored) && multiset(result) == multiset(Reported(stored, expected))
  {
    var want := Reported(stored, expected);
    assert DistinctIds(result) && DistinctIds(want);
    ResultNamesExactly(stored, result, expected);
    forall i | 0 <= i < |stored| ensures want[i] in result && stored[i].id != "" { WantedInResult(stored, result, expected, i); }
    forall j | 0 <= j < |result| ensures result[j] in want { ResultInWanted(stored, result, expected, j); }
    hide ValidResult, Known, DistinctIds;
    forall x ensures multiset(result)[x] == multiset(want)[x] {
      OnceEach(result, x);
      OnceEach(want, x);
    }
  }

  lemma WantedInResult(stored: seq<Allocation>, result: seq<Allocation>, expected: AllocationStatus, i: nat)
    requires ValidResult(stored, result, expected) && i < |stored| && Known(result, stored[i])
    ensures Reported(stored, expected)[i] in result && stored[i].id != ""
  {
    var j :| 0 <= j < |result| && result[j].id == stored[i].id && result[j].sku == stored[i].sku && result[j].quantity == stored[i].quantity;
    assert result[j] == Reported(stored, expected)[i];
  }

  lemma ResultInWanted(stored: seq<Allocation>, result: seq<Allocation>, expected: AllocationStatus, j: nat)
    requires ValidResult(stored, result, expected) && j < |result|
    ensures result[j] in Reported(stored, expected)
  {
    assert Known(stored, result[j]);
    var i :| 0 <= i < |stored| && stored[i].id == result[j].id && stored[i].sku == result[j].sku && stored[i].quantity == result[j].quantity;
    assert Reported(stored, expected)[i] == result[j];
  }

  lemma ExactIsAccepted(stored: seq<Allocation>, result: seq<Allocation>, expected: AllocationStatus)
    requires DistinctIds(stored) && NamedAll(stored) && multiset(result) == multiset(Reported(stored, expected))
    ensures ValidResult(stored, result, expected)
  {
    var want := Reported(stored, expected);
    assert |multiset(result)| == |result| && |multiset(want)| == |want|;
    forall i | 0 <= i < |result| ensures result[i].id != "" && result[i].status == expected && Known(stored, result[i]) {
      assert result[i] in multiset(want);
      var k :| 0 <= k < |want| && want[k] == result[i];
      assert stored[k].id == result[i].id && stored[k].sku == result[i].sku && stored[k].quantity == result[i].quantity;
    }
    forall i, j | 0 <= i < j < |result| ensures result[i].id != result[j].id { IdsDiffer(stored, result, expected, i, j); }
  }

  /** A repeated element would count twice. */
  lemma IdsDiffer(stored: seq<Allocation>, result: seq<Allocation>, expected: AllocationStatus, i: nat, j: nat)
    requires DistinctIds(stored) && multiset(result) == multiset(Reported(stored, expected)) && i < j < |result|
    ensures result[i].id != result[j].id
  {
    var want := Reported(stored, expected);
    assert result[i] in multiset(want) && result[j] in multiset(want);
    var k :| 0 <= k < |want| && want[k] == result[i];
    var l :| 0 <= l < |want| && want[l] == result[j];
    if result[i].id == result[j].id {
      assert k == l;
      OnceEach(want, result[i]);
      TwiceCounted(result, i, j);
    }
  }

  lemma TwiceCounted<T>(a: seq<T>, i: nat, j: nat)
    requires i < j < |a| && a[i] == a[j]
    ensures multiset(a)[a[i]] >= 2
  {
    assert a == a[..i] + [a[i]] + a[i + 1..j] + [a[j]] + a[j + 1..];
  }

  // ---------- saga steps ----------

  /** The step is as it was. */
  predicate Same(before: map<Step, StepStatus>, after: map<Step, StepStatus>, s: Step) {
    (s in before <==> s in after) && (s in before ==> after[s] == before[s])
  }

  /** A step that was waited for has ended so; any other is as it was. */
  predicate Ends(before: map<Step, StepStatus>, after: map<Step, StepStatus>, s: Step, to: StepStatus) {
    if IsWaiting(before, s) then s in after && after[s] == to else Same(before, after, s)
  }

  /** A step not yet begun is waited for now. */
  predicate Begins(before: map<Step, StepStatus>, after: map<Step, StepStatus>, s: Step) {
    if s in before then Same(before, after, s) else IsWaiting(after, s)
  }

  /** A step not finished is waited for now. */
  predicate Reopens(before: map<Step, StepStatus>, after: map<Step, StepStatus>, s: Step) {
    if s in before && before[s].Finished? then Same(before, after, s) else IsWaiting(after, s)
  }

  // ---------- payment ----------

  /** payment.captured: applied exactly to a pending unpaid order and exactly for its money, which it then asks
      inventory to commit for; anything else is refused or ignored and changes nothing. */
  lemma PaymentArrives(o: Order, currency: string, amount: int)
    requires Invariant(o)
    ensures var (outcome, o') := Apply(o, PaymentPaid(currency, amount));
            var due := o.status.Pending? && o.payment.Unpaid?;
            && (outcome.Ignored? <==> !due)
            && (outcome.Rejected? <==> due && !(currency == o.currency && amount == o.total))
            && (!outcome.Applied? ==> o' == o)
            && (outcome.Applied? ==>
                  && o' == o.(payment := Authorized, captured := o.total, saga := Reserving, steps := o'.steps,
                              outbox := o.outbox + [CommitWanted])
                  && Ends(o.steps, o'.steps, PaymentRequested, Finished) && Begins(o.steps, o'.steps, CommitRequested)
                  && forall s :: s !in {PaymentRequested, CommitRequested} ==> Same(o.steps, o'.steps, s))
  {
    hide Path;
  }

  /** payment.failed: a pending unpaid order is cancelled and its stock asked back. */
  lemma PaymentFails(o: Order, code: string)
    requires Invariant(o)
    ensures var (outcome, o') := Apply(o, PaymentFailed(code));
            var due := o.status.Pending? && o.payment.Unpaid?;
            && (outcome.Rejected? <==> Trim(code) == "")
            && (outcome.Applied? <==> Trim(code) != "" && due)
            && (!outcome.Applied? ==> o' == o)
            && (outcome.Applied? ==>
                  && o' == o.(status := Cancelled, payment := Declined, saga := Compensating, steps := o'.steps,
                              history := o.history + [Change(Some(Pending), Cancelled)],
                              outbox := o.outbox + [ReleaseWanted, OrderCancelled])
                  && Ends(o.steps, o'.steps, PaymentRequested, Broken) && Begins(o.steps, o'.steps, ReleaseRequested)
                  && forall s :: s !in {PaymentRequested, ReleaseRequested} ==> Same(o.steps, o'.steps, s))
  {
    hide Path;
  }

  // ---------- inventory ----------

  /** inventory.committed for all of a pending authorized order's allocations confirms it. */
  lemma StockCommitted(o: Order, result: seq<Allocation>)
    requires Invariant(o) && DistinctIds(o.allocations)
    ensures var (outcome, o') := Apply(o, InventoryCommitted(result));
            var exact := NamedAll(o.allocations) && multiset(result) == multiset(Reported(o.allocations, Committed));
            && (outcome.Rejected? <==> !exact)
            && (outcome.Applied? <==> exact && o.status.Pending? && o.payment.Authorized?)
            && (!outcome.Applied? ==> o' == o)
            && (outcome.Applied? ==>
                  && o' == o.(status := Confirmed, payment := Paid, saga := Done, allocations := o'.allocations,
                              steps := o'.steps, history := o.history + [Change(Some(Pending), Confirmed)],
                              outbox := o.outbox + [OrderPaid])
                  && |o'.allocations| == |o.allocations|
                  && (forall i :: 0 <= i < |o.allocations| ==>
                        o'.allocations[i] == if o.allocations[i].status.Active? then o.allocations[i].(status := Committed)
                                             else o.allocations[i])
                  && Ends(o.steps, o'.steps, CommitRequested, Finished)
                  && forall s :: s != CommitRequested ==> Same(o.steps, o'.steps, s))
  {
    ResultIsExactly(o.allocations, result, Committed);
    hide Path, ValidResult;
  }

  /** inventory.released: a cancelled order with no refund and no fulfillment cancellation outstanding is wound up. */
  lemma StockReleased(o: Order, result: seq<Allocation>)
    requires Invariant(o) && DistinctIds(o.allocations)
    ensures var (outcome, o') := Apply(o, InventoryReleased(result));
            var exact := NamedAll(o.allocations) && multiset(result) == multiset(Reported(o.allocations, Released));
            var early := IsWaiting(o.steps, RefundRequested) || IsWaiting(o.steps, FulfillmentCancelRequested);
            && (outcome.Rejected? <==> !exact || (o.status.Cancelled? && early))
            && (outcome.Applied? <==> exact && o.status.Cancelled? && !early)
            && (!outcome.Applied? ==> o' == o)
            && (outcome.Applied? ==>
                  && o' == o.(saga := Failed, allocations := o'.allocations, steps := o'.steps)
                  && |o'.allocations| == |o.allocations|
                  && (forall i :: 0 <= i < |o.allocations| ==>
                        o'.allocations[i] == if o.allocations[i].status in {Active, Committed}
                                             then o.allocations[i].(status := Released) else o.allocations[i])
                  && Ends(o.steps, o'.steps, ReleaseRequested, Finished)
                  && forall s :: s != ReleaseRequested ==> Same(o.steps, o'.steps, s))
  {
    ResultIsExactly(o.allocations, result, Released);
    hide Path, ValidResult;
  }

  // ---------- fulfillment ----------

  /** fulfillment.completed completes a confirmed order. */
  lemma Delivered(o: Order)
    requires Invariant(o)
    ensures var (outcome, o') := Apply(o, FulfillmentCompleted);
            && (outcome.Applied? <==> o.status.Confirmed?) && !outcome.Rejected?
            && (!outcome.Applied? ==> o' == o)
            && (outcome.Applied? ==>
                  && o' == o.(status := Completed, fulfillment := Fulfilled, steps := o'.steps,
                              history := o.history + [Change(Some(Confirmed), Completed)])
                  && Ends(o.steps, o'.steps, FulfillmentRequested, Finished)
                  && forall s :: s != FulfillmentRequested ==> Same(o.steps, o'.steps, s))
  {
    hide Path;
  }

  /** fulfillment.cancelled moves a cancelled order that waits for it on: to the refund of what is still owed, or
      straight to the release of its stock. */
  lemma CalledOff(o: Order)
    requires Invariant(o)
    ensures var (outcome, o') := Apply(o, FulfillmentCancelled);
            && (outcome.Applied? <==> o.status.Cancelled? && IsWaiting(o.steps, FulfillmentCancelRequested)) && !outcome.Rejected?
            && (!outcome.Applied? ==> o' == o)
            && (outcome.Applied? ==>
                  var next := if o.captured > o.refunded then RefundRequested else ReleaseRequested;
                  && o' == o.(steps := o'.steps, outbox := o.outbox
                              + [if o.captured > o.refunded then RefundWanted(o.captured - o.refunded) else ReleaseWanted])
                  && Ends(o.steps, o'.steps, FulfillmentCancelRequested, Finished) && Reopens(o.steps, o'.steps, next)
                  && forall s :: s !in {FulfillmentCancelRequested, next} ==> Same(o.steps, o'.steps, s))
  {
    hide Path;
  }

  // ---------- refunds and cancellation ----------

  /** refund.succeeded: recorded on a cancelled order up to what was captured; the rest is asked for again, and when
      nothing is left the stock is asked back. */
  lemma Refunded(o: Order, currency: string, amount: int)
    requires Invariant(o)
    ensures var (outcome, o') := Apply(o, RefundSucceeded(currency, amount));
            var owed := o.captured - o.refunded;
            && (outcome.Ignored? <==> !o.status.Cancelled?)
            && (outcome.Applied? <==> o.status.Cancelled? && currency == o.currency && 0 < amount <= owed)
            && (!outcome.Applied? ==> o' == o)
            && (outcome.Applied? ==>
                  && o' == o.(refunded := o.refunded + amount, payment := if amount == owed then SagaSpec.Refunded else PartiallyRefunded,
                              steps := o'.steps,
                              outbox := o.outbox + [if amount == owed then ReleaseWanted else RefundWanted(owed - amount)])
                  && (amount < owed ==> o'.steps == o.steps)
                  && (amount == owed ==>
                        && Ends(o.steps, o'.steps, RefundRequested, Finished) && Reopens(o.steps, o'.steps, ReleaseRequested)
                        && forall s :: s !in {RefundRequested, ReleaseRequested} ==> Same(o.steps, o'.steps, s)))
  {
    hide Path;
  }

  /** A cancellation: a known key is a replay of its reason or a conflict; otherwise an order that is pending or
      confirmed is cancelled, by way of fulfillment when it was paid for. */
  lemma Cancelling(o: Order, key: string, reason: string)
    requires Invariant(o)
    ensures var (answer, o') := Cancel(o, key, reason);
            && (answer == Replayed <==> key in o.commands && o.commands[key] == reason)
            && (answer == Conflict <==> key in o.commands && o.commands[key] != reason)
            && (answer == Accepted <==> key !in o.commands && (o.status.Pending? || o.status.Confirmed?))
            && (answer != Accepted ==> o' == o)
            && (answer == Accepted ==>
                  var paid := o.captured > 0 || o.payment in {Authorized, Paid};
                  var next := if paid then FulfillmentCancelRequested else ReleaseRequested;
                  && o' == o.(status := Cancelled, saga := Compensating, steps := o'.steps,
                              history := o.history + [Change(Some(o.status), Cancelled)],
                              outbox := o.outbox + [OrderCancelled, if paid then FulfillmentCancelWanted else ReleaseWanted],
                              commands := o.commands[key := reason])
                  && Begins(o.steps, o'.steps, next)
                  && forall s :: s != next ==> Same(o.steps, o'.steps, s))
  {
    hide Path;
  }

  // ---------- the saga gets there ----------

  function Paying(currency: string, total: int, allocations: seq<Allocation>): seq<Input> {
    [Event(PaymentPaid(currency, total)), Event(InventoryCommitted(Reported(allocations, Committed))), Event(FulfillmentCompleted)]
  }

  lemma ExecNext(o: Order, run: seq<Input>, i: Input)
    ensures Exec(o, run + [i]) == Do(Exec(o, run), i)
  {
    assert (run + [i])[..|run|] == run;
  }

  lemma ExecNone(o: Order)
    ensures Exec(o, []) == o
  {
  }

  /** A placed order waits for its payment and for nothing else. */
  lemma PlacedWaits(currency: string, total: int, allocations: seq<Allocation>)
    ensures var o := Placed(currency, total, allocations);
            && (forall s :: IsWaiting(o.steps, s) <==> s == PaymentRequested) && o.steps.Keys == {PaymentRequested}
            && o.saga.Paying? && o.status.Pending? && o.payment.Unpaid? && o.captured == o.refunded == 0
            && o.allocations == allocations && o.outbox == [] && o.commands == map[] && |o.history| == 1
  {
  }

  /** The steps of an order that was paid for and delivered. */
  lemma PaidSteps(o: Order, o1: Order, o2: Order, o3: Order)
    requires o.steps.Keys == {PaymentRequested} && IsWaiting(o.steps, PaymentRequested)
    requires Ends(o.steps, o1.steps, PaymentRequested, Finished) && Begins(o.steps, o1.steps, CommitRequested)
    requires forall s :: s != PaymentRequested && s != CommitRequested ==> Same(o.steps, o1.steps, s)
    requires Ends(o1.steps, o2.steps, CommitRequested, Finished)
    requires forall s :: s != CommitRequested ==> Same(o1.steps, o2.steps, s)
    requires Ends(o2.steps, o3.steps, FulfillmentRequested, Finished)
    requires forall s :: s != FulfillmentRequested ==> Same(o2.steps, o3.steps, s)
    ensures o3.steps == map[PaymentRequested := Finished, CommitRequested := Finished]
  {
    assert Same(o1.steps, o2.steps, PaymentRequested) && Same(o2.steps, o3.steps, PaymentRequested);
    assert Same(o2.steps, o3.steps, CommitRequested) && CommitRequested !in o.steps;
    forall s | s != PaymentRequested && s != CommitRequested ensures s !in o3.steps {
      assert Same(o.steps, o1.steps, s) && Same(o1.steps, o2.steps, s) && s !in o2.steps;
      assert s != FulfillmentRequested ==> Same(o2.steps, o3.steps, s);
    }
  }

  /** MAIN THEOREM. Every order with named, distinct allocations can be paid and confirmed, and then completed, with
      nothing left waiting. */
  lemma EveryOrderCanComplete(currency: string, total: int, allocations: seq<Allocation>)
    requires total >= 0 && DistinctIds(allocations) && NamedAll(allocations)
    ensures var run := Paying(currency, total, allocations);
            && Exec(Placed(currency, total, allocations), run[..2]).status.Confirmed?
            && Exec(Placed(currency, total, allocations), run[..2]).payment.Paid?
            && Exec(Placed(currency, total, allocations), run).status.Completed?
            && Exec(Placed(currency, total, allocations), run).steps == map[PaymentRequested := Finished, CommitRequested := Finished]
  {
    var o, run := Placed(currency, total, allocations), Paying(currency, total, allocations);
    assert run[..2] == [] + [run[0]] + [run[1]] && run == [] + [run[0]] + [run[1]] + [run[2]];
    InvariantAlways(currency, total, allocations, []);
    var result := Reported(allocations, Committed);
    ExecNone(o);
    ExecNext(o, [], run[0]);
    ExecNext(o, [] + [run[0]], run[1]);
    ExecNext(o, [] + [run[0]] + [run[1]], run[2]);
    PaymentArrives(o, currency, total);
    var o1 := Apply(o, PaymentPaid(currency, total)).1;
    DoKeeps(o, run[0]);
    StockCommitted(o1, result);
    DoKeeps(o1, run[1]);
    var o2 := Apply(o1, InventoryCommitted(result)).1;
    Delivered(o2);
    PlacedWaits(currency, total, allocations);
    hide Apply, Exec, Invariant, Same, Ends, Begins;
    PaidSteps(o, o1, o2, Apply(o2, FulfillmentCompleted).1);
  }

  /** MAIN THEOREM. And every order whose payment fails can be wound up: cancelled, declined, nothing held. */
  lemma EveryDeclinedOrderEnds(currency: string, total: int, allocations: seq<Allocation>, code: string)
    requires total >= 0 && DistinctIds(allocations) && NamedAll(allocations) && Trim(code) != ""
    ensures var o := Exec(Placed(currency, total, allocations),
                          [Event(PaymentFailed(code)), Event(InventoryReleased(Reported(allocations, Released)))]);
            && o.status.Cancelled? && o.payment.Declined? && o.saga.Failed?
            && forall i :: 0 <= i < |o.allocations| ==> !o.allocations[i].status.Active? && !o.allocations[i].status.Committed?
  {
    var o := Placed(currency, total, allocations);
    var e1, e2 := Event(PaymentFailed(code)), Event(InventoryReleased(Reported(allocations, Released)));
    assert [e1, e2] == [] + [e1] + [e2];
    InvariantAlways(currency, total, allocations, []);
    ExecNone(o);
    ExecNext(o, [], e1);
    ExecNext(o, [] + [e1], e2);
    PaymentFails(o, code);
    var o1 := Apply(o, PaymentFailed(code)).1;
    DoKeeps(o, e1);
    StockReleased(o1, Reported(allocations, Released));
    hide Apply, Exec, Invariant;
  }
}
