/** Payment intents: the status machine, the capture loop and refunds with the database's own triggers
    (templates/commerce/internal/payment, templates/commerce/db/migrations/payment_db.sql). */
module PaymentSpec {
  import opened Common

  datatype Status = RequiresMethod | Processing | Authorized | Succeeded | Failed | Cancelled | PartiallyRefunded | Refunded

  datatype Event = MethodAttached | Authorize | Capture | Fail | Cancel | PartialRefund | Refund

  /** duplicatePaymentEvent. */
  predicate Duplicate(s: Status, e: Event) {
    match e
    case MethodAttached => s.Processing?
    case Authorize => s.Authorized?
    case Capture => s.Succeeded? || s.PartiallyRefunded? || s.Refunded?
    case Fail => s.Failed?
    case Cancel => s.Cancelled?
    case PartialRefund => s.PartiallyRefunded? || s.Refunded?
    case Refund => s.Refunded?
  }

  function Transition(s: Status, e: Event): Option<Status> {
    if Duplicate(s, e) then Some(s)
    else if s.RequiresMethod? && e.MethodAttached? then Some(Processing)
    else if s.Processing? && e.Authorize? then Some(Authorized)
    else if s.Authorized? && e.Capture? then Some(Succeeded)
    else if s.Processing? && e.Fail? then Some(Failed)
    else if (s.RequiresMethod? || s.Processing? || s.Authorized?) && e.Cancel? then Some(Cancelled)
    else if s.Succeeded? && e.PartialRefund? then Some(PartiallyRefunded)
    else if (s.Succeeded? || s.PartiallyRefunded?) && e.Refund? then Some(Refunded)
    else None
  }

  /** How far along a status is; the machine never goes back. */
  function Rank(s: Status): nat {
    match s
    case RequiresMethod => 0
    case Processing => 1
    case Authorized => 2
    case Succeeded => 3
    case Failed => 5
    case Cancelled => 5
    case PartiallyRefunded => 4
    case Refunded => 5
  }

  /** The machine, edge by edge: these steps and no others, besides the repeats that change nothing. */
  lemma TransitionEdges(s: Status, e: Event, t: Status)
    requires s != t
    ensures Transition(s, e) == Some(t) <==> (s, e, t) in {
              (RequiresMethod, MethodAttached, Processing), (Processing, Authorize, Authorized), (Authorized, Capture, Succeeded),
              (Processing, Fail, Failed),
              (RequiresMethod, Cancel, Cancelled), (Processing, Cancel, Cancelled), (Authorized, Cancel, Cancelled),
              (Succeeded, PartialRefund, PartiallyRefunded), (Succeeded, Refund, Refunded), (PartiallyRefunded, Refund, Refunded)}
  {
    match e
    case MethodAttached =>
    case Authorize =>
    case Capture =>
    case Fail =>
    case Cancel =>
    case PartialRefund =>
    case Refund =>
  }

  lemma TransitionRepeats(s: Status, e: Event)
    ensures Transition(s, e) == Some(s) <==> (s, e) in {
              (Processing, MethodAttached), (Authorized, Authorize), (Failed, Fail), (Cancelled, Cancel),
              (Succeeded, Capture), (PartiallyRefunded, Capture), (Refunded, Capture),
              (PartiallyRefunded, PartialRefund), (Refunded, PartialRefund), (Refunded, Refund)}
  {
  }

  /** Applying an event twice is applying it once, and no event moves an intent backwards: an accepted event
      either leaves it where it is or takes it strictly further. */
  lemma TransitionIdempotent(s: Status, e: Event)
    requires Transition(s, e).Some?
    ensures Transition(Transition(s, e).value, e) == Transition(s, e)
    ensures Transition(s, e).value == s || Rank(Transition(s, e).value) > Rank(s)
  {
  }

  /** A succeeded row of the refund table. */
  datatype RefundRow = RefundRow(key: string, amount: int)

  /** A payment_intent row with its refunds, oldest first. */
  datatype Intent = Intent(amount: int, currency: string, status: Status, refunds: seq<RefundRow>)

  predicate Captured(s: Status) {
    s.Succeeded? || s.PartiallyRefunded? || s.Refunded?
  }

  /** The provider's answer to one charge; `Unreachable` is an error of the call itself. */
  datatype Charge = Approved | Refused | Unreachable

  /** The status CaptureOrder stores, from the answers in order; None when a call failed and nothing is stored. */
  function CaptureStatus(charges: seq<Charge>): Option<Status> {
    if charges == [] then Some(Failed)
    else match charges[0]
      case Approved => Some(Succeeded)
      case Unreachable => None
      case Refused => CaptureStatus(charges[1..])
  }

  /** The charges CaptureOrder makes: up to the first that is not refused. */
  function Attempts(charges: seq<Charge>): seq<Charge> {
    if charges == [] then [] else if !charges[0].Refused? then [charges[0]] else [charges[0]] + Attempts(charges[1..])
  }

  /** A refusal leaves the decision to the rest. */
  lemma OneRefusal(charges: seq<Charge>, n: nat)
    requires n < |charges| && charges[n].Refused?
    ensures CaptureStatus(charges[n..]) == CaptureStatus(charges[n + 1..])
    ensures Attempts(charges[n..]) == [charges[n]] + Attempts(charges[n + 1..])
  {
    assert charges[n..][0] == charges[n] && charges[n..][1..] == charges[n + 1..];
  }

  /** After n refusals the rest decides. */
  lemma {:induction false} Refusals(charges: seq<Charge>, n: nat)
    requires n <= |charges| && forall i :: 0 <= i < n ==> charges[i].Refused?
    ensures CaptureStatus(charges) == CaptureStatus(charges[n..])
    ensures Attempts(charges) == charges[..n] + Attempts(charges[n..])
  {
    hide CaptureStatus, Attempts;
    if n > 0 {
      Refusals(charges, n - 1);
      OneRefusal(charges, n - 1);
      var made, rest := charges[..n - 1], Attempts(charges[n..]);
      assert made + ([charges[n - 1]] + rest) == made + [charges[n - 1]] + rest;
      assert charges[..n] == made + [charges[n - 1]];
    } else {
      assert charges[n..] == charges && charges[..n] == [];
    }
  }

  /** The charge that decides. */
  lemma OneCharge(charges: seq<Charge>, n: nat)
    requires n < |charges| && (charges[n].Refused? ==> n + 1 == |charges|)
    ensures Attempts(charges[n..]) == [charges[n]]
    ensures CaptureStatus(charges[n..])
         == if charges[n].Approved? then Some(Succeeded) else if charges[n].Refused? then Some(Failed) else None
  {
    assert charges[n..][0] == charges[n];
    if charges[n].Refused? { assert charges[n..][1..] == []; }
  }

  /** How the loop ends after n charges, all but the last refused. */
  lemma LastCharge(charges: seq<Charge>, n: nat)
    requires 1 <= n <= |charges| && forall i :: 0 <= i < n - 1 ==> charges[i].Refused?
    requires charges[n - 1].Refused? ==> n == |charges|
    ensures Attempts(charges) == charges[..n]
    ensures CaptureStatus(charges)
         == if charges[n - 1].Approved? then Some(Succeeded) else if charges[n - 1].Refused? then Some(Failed) else None
  {
    hide CaptureStatus, Attempts;
    Refusals(charges, n - 1);
    OneCharge(charges, n - 1);
    assert charges[..n] == charges[..n - 1] + [charges[n - 1]];
  }

  /** CaptureOrder's attempt loop: the intent succeeds at the first charge that does, fails only after the last,
      and an error on the way leaves it unstored. Every charge but the last one made was refused. */
  method CaptureLoop(charges: seq<Charge>) returns (outcome: Option<Status>, attempts: nat)
    requires |charges| >= 1
    ensures 1 <= attempts <= |charges| && charges[..attempts] == Attempts(charges)
    ensures outcome == CaptureStatus(charges)
    ensures outcome.Some? ==> outcome.value.Succeeded? || outcome.value.Failed?
    ensures forall i :: 0 <= i < attempts - 1 ==> charges[i].Refused?
    ensures outcome == Some(Succeeded) <==> charges[attempts - 1].Approved?
    ensures outcome.None? <==> charges[attempts - 1].Unreachable?
    ensures outcome == Some(Failed) <==> forall i :: 0 <= i < |charges| ==> charges[i].Refused?
  {
    hide CaptureStatus, Attempts;
    var attached := Transition(RequiresMethod, MethodAttached);
    var status := attached.value;
    attempts := 0;
    while attempts < |charges|
      invariant 0 <= attempts < |charges| && status.Processing?
      invariant forall i :: 0 <= i < attempts ==> charges[i].Refused?
    {
      var charge := charges[attempts];
      attempts := attempts + 1;
      if !charge.Refused? || attempts == |charges| { LastCharge(charges, attempts); }
      if charge.Unreachable? { return None, attempts; }
      if charge.Approved? {
        var authorized := Transition(status, Authorize);
        var captured := Transition(authorized.value, Capture);
        return captured, attempts;
      }
      if attempts < |charges| { continue; }
      return Transition(status, Fail), attempts;
    }
  }

  /** CancelIntent: whether the stored intent was cancelled, and the intent. A settled one is left alone. */
  function CancelIntent(i: Intent): (bool, Intent) {
    match Transition(i.status, Cancel)
    case Some(next) => if i.status.Cancelled? then (false, i) else (true, i.(status := next))
    case None => (false, i)
  }

  /** Exactly an intent that is not settled yet is cancelled. */
  lemma CancelMeaning(i: Intent)
    ensures CancelIntent(i) == if i.status in {RequiresMethod, Processing, Authorized} then (true, i.(status := Cancelled)) else (false, i)
  {
  }

  // ---------- refunds ----------

  datatype Answer = Recorded | Replayed | Invalid | ExceedsCaptured | RefusedByTrigger

  /** sumRefunded. */
  function SumRefunded(refunds: seq<RefundRow>): int {
    if refunds == [] then 0 else SumRefunded(refunds[..|refunds| - 1]) + refunds[|refunds| - 1].amount
  }

  predicate HasKey(refunds: seq<RefundRow>, key: string) {
    exists i :: 0 <= i < |refunds| && refunds[i].key == key
  }

  function ChooseRefundEvent(amount: int, remaining: int): Event {
    if amount >= remaining then Refund else PartialRefund
  }

  /** The refund table's trigger, which the migration installs (guarded): it looks at the intent's status as
      it is when the refund row goes in. */
  predicate TriggerAllows(guarded: bool, i: Intent, amount: int) {
    guarded ==> (i.status.Succeeded? || i.status.PartiallyRefunded?) && amount <= i.amount - SumRefunded(i.refunds)
  }

  /** Refund with SaveRefund: the status is written before the row. */
  function RequestRefund(i: Intent, key: string, amount: int, guarded: bool): (Answer, Intent) {
    var remaining := i.amount - SumRefunded(i.refunds);
    if amount <= 0 then (Invalid, i)
    else if HasKey(i.refunds, key) then (Replayed, i)
    else if !i.status.Succeeded? && !i.status.PartiallyRefunded? then (Invalid, i)
    else if remaining <= 0 || amount > remaining then (ExceedsCaptured, i)
    else
      match Transition(i.status, ChooseRefundEvent(amount, remaining))
      case None => (Invalid, i)
      case Some(next) =>
        var updated := i.(status := next);
        if TriggerAllows(guarded, updated, amount)
        then (Recorded, updated.(refunds := i.refunds + [RefundRow(key, amount)]))
        else (RefusedByTrigger, i)
  }

  /** The refunds add up to the status. */
  predicate Sound(i: Intent) {
    && i.amount > 0 && 0 <= SumRefunded(i.refunds) <= i.amount
    && (forall k :: 0 <= k < |i.refunds| ==> i.refunds[k].amount > 0)
    && (i.status.Refunded? <==> SumRefunded(i.refunds) == i.amount)
    && (i.status.PartiallyRefunded? <==> 0 < SumRefunded(i.refunds) < i.amount)
  }

  lemma SumAppend(refunds: seq<RefundRow>, r: RefundRow)
    ensures SumRefunded(refunds + [r]) == SumRefunded(refunds) + r.amount
  {
    assert (refunds + [r])[..|refunds|] == refunds;
  }

  /** The outcome of a request in closed form, for an intent whose status tells its refunds. */
  lemma RequestOutcome(i: Intent, key: string, amount: int, guarded: bool)
    requires i.amount > 0 && 0 <= SumRefunded(i.refunds) <= i.amount
    requires i.status.Refunded? <==> SumRefunded(i.refunds) == i.amount
    requires i.status.PartiallyRefunded? <==> 0 < SumRefunded(i.refunds) < i.amount
    ensures var remaining := i.amount - SumRefunded(i.refunds);
            var (answer, i') := RequestRefund(i, key, amount, guarded);
            var valid := !HasKey(i.refunds, key) && Captured(i.status) && 0 < amount <= remaining;
            && (answer.Recorded? <==> valid && (guarded ==> amount < remaining))
            && (answer.RefusedByTrigger? <==> valid && guarded && amount == remaining)
            && (answer.Replayed? <==> amount > 0 && HasKey(i.refunds, key))
            && (answer.ExceedsCaptured? <==>
                  0 < amount && !HasKey(i.refunds, key) && (i.status.Succeeded? || i.status.PartiallyRefunded?) && amount > remaining)
            && i' == if answer.Recorded? then i.(refunds := i.refunds + [RefundRow(key, amount)],
                                                 status := if amount == remaining then Refunded else PartiallyRefunded)
                     else i
  {
    hide SumRefunded, HasKey;
  }

  /** What a sound intent's status tells. */
  lemma SoundParts(i: Intent)
    requires Sound(i)
    ensures i.amount > 0 && 0 <= SumRefunded(i.refunds) <= i.amount
    ensures i.status.Refunded? <==> SumRefunded(i.refunds) == i.amount
    ensures i.status.PartiallyRefunded? <==> 0 < SumRefunded(i.refunds) < i.amount
  {
    hide SumRefunded;
  }

  /** A refund within what remains keeps the intent sound. */
  lemma SoundAfter(i: Intent, r: RefundRow)
    requires Sound(i) && 0 < r.amount <= i.amount - SumRefunded(i.refunds)
    ensures SumRefunded(i.refunds + [r]) == SumRefunded(i.refunds) + r.amount
    ensures Sound(i.(refunds := i.refunds + [r],
                     status := if r.amount == i.amount - SumRefunded(i.refunds) then Refunded else PartiallyRefunded))
  {
    SumAppend(i.refunds, r);
    hide SumRefunded;
  }

  /** A refund request, with and without the trigger. Refunds never exceed the capture and an intent is
      'refunded' exactly when they add up to it. A request is recorded exactly when its key is new, money
      was captured and the amount is positive and within what remains - and, with the trigger, strictly
      less than what remains: the intent is marked 'refunded' before the row that completes it goes in,
      and the trigger then refuses the row. */
  lemma RefundMeaning(i: Intent, key: string, amount: int, guarded: bool)
    requires Sound(i)
    ensures var (answer, i') := RequestRefund(i, key, amount, guarded);
            && Sound(i') && i'.amount == i.amount && i'.currency == i.currency
            && (answer.Recorded? <==>
                  && !HasKey(i.refunds, key) && Captured(i.status)
                  && 0 < amount <= i.amount - SumRefunded(i.refunds)
                  && (guarded ==> amount < i.amount - SumRefunded(i.refunds)))
            && (answer.Recorded? ==> i'.refunds == i.refunds + [RefundRow(key, amount)]
                                     && SumRefunded(i'.refunds) == SumRefunded(i.refunds) + amount)
            && (!answer.Recorded? ==> i' == i)
            && (answer.Recorded? ==> i'.status == if SumRefunded(i'.refunds) == i.amount then Refunded else PartiallyRefunded)
            && (answer.Replayed? <==> amount > 0 && HasKey(i.refunds, key))
            && (answer.ExceedsCaptured? <==>
                  0 < amount && !HasKey(i.refunds, key) && (i.status.Succeeded? || i.status.PartiallyRefunded?)
                  && amount > i.amount - SumRefunded(i.refunds))
            && (answer.RefusedByTrigger? <==>
                  guarded && !HasKey(i.refunds, key) && Captured(i.status) && 0 < amount == i.amount - SumRefunded(i.refunds))
  {
    hide *;
    SoundParts(i);
    RequestOutcome(i, key, amount, guarded);
    if RequestRefund(i, key, amount, guarded).0.Recorded? { SoundAfter(i, RefundRow(key, amount)); }
  }

  /** So a request for all that remains completes the refund without the trigger and is refused with it;
      RefundOutcome draws the consequence for whole runs. */
  lemma FullRefundRefused(i: Intent, key: string)
    requires Sound(i) && Captured(i.status) && !HasKey(i.refunds, key) && SumRefunded(i.refunds) < i.amount
    ensures RequestRefund(i, key, i.amount - SumRefunded(i.refunds), true) == (RefusedByTrigger, i)
    ensures RequestRefund(i, key, i.amount - SumRefunded(i.refunds), false).1.status.Refunded?
  {
    RefundMeaning(i, key, i.amount - SumRefunded(i.refunds), true);
    RefundMeaning(i, key, i.amount - SumRefunded(i.refunds), false);
  }
}

/** The payment service's rows of one order, updated in place. */
module PaymentStore {
  import opened Common
  import opened PaymentSpec

  datatype Published = PaymentCaptured(amount: int, currency: string) | PaymentFailed | RefundSucceeded(amount: int, currency: string)

  class PaymentRow {
    const guarded: bool
    var intent: Option<Intent>
    var attempts: seq<Charge>       // table payment_attempt
    var outbox: seq<Published>

    constructor (guarded: bool)
      ensures intent.None? && attempts == [] && outbox == [] && this.guarded == guarded
    {
      this.guarded := guarded;
      intent, attempts, outbox := None, [], [];
    }

    /** CaptureOrder with SaveCapture: a second capture of the order is a replay, and an error of the provider
        stores nothing. */
    method CaptureOrder(amount: int, currency: string, charges: seq<Charge>)
      requires amount > 0 && |charges| >= 1
      modifies this
      ensures old(intent).Some? || CaptureStatus(charges).None? ==>
                intent == old(intent) && attempts == old(attempts) && outbox == old(outbox)
      ensures old(intent).None? && CaptureStatus(charges).Some? ==>
                var status := CaptureStatus(charges).value;
                && intent == Some(Intent(amount, currency, status, [])) && Sound(intent.value)
                && attempts == old(attempts) + Attempts(charges)
                && outbox == old(outbox) + [if status.Succeeded? then PaymentCaptured(amount, currency) else PaymentFailed]
    {
      if intent.Some? { return; }
      var outcome, n := CaptureLoop(charges);
      if outcome.None? { return; }
      attempts := attempts + charges[..n];
      var status := outcome.value;
      intent := Some(Intent(amount, currency, status, []));
      outbox := outbox + [if status.Succeeded? then PaymentCaptured(amount, currency) else PaymentFailed];
    }

    method CancelOrderIntent() returns (cancelled: bool)
      requires intent.Some?
      modifies this`intent
      ensures intent.Some? && (cancelled, intent.value) == CancelIntent(old(intent).value)
    {
      var i := intent.value;
      if i.status.Cancelled? || i.status.Failed? || i.status.Succeeded? || i.status.PartiallyRefunded? || i.status.Refunded? {
        return false;
      }
      var next := Transition(i.status, Cancel);
      intent := Some(i.(status := next.value));
      return true;
    }

    method RequestRefund(key: string, amount: int) returns (answer: Answer)
      requires intent.Some?
      modifies this`intent, this`outbox
      ensures intent.Some? && (answer, intent.value) == PaymentSpec.RequestRefund(old(intent).value, key, amount, guarded)
      ensures outbox == old(outbox) + if answer.Recorded? then [RefundSucceeded(amount, intent.value.currency)] else []
    {
      var i := intent.value;
      if amount <= 0 { return Invalid; }
      if HasKey(i.refunds, key) { return Replayed; }
      if !i.status.Succeeded? && !i.status.PartiallyRefunded? { return Invalid; }
      var remaining := i.amount - SumRefunded(i.refunds);
      if remaining <= 0 || amount > remaining { return ExceedsCaptured; }
      var next := Transition(i.status, ChooseRefundEvent(amount, remaining));
      if next.None? { return Invalid; }
      intent := Some(i.(status := next.value));
      if !TriggerAllows(guarded, intent.value, amount) {
        intent := Some(i);      // the transaction rolls back
        return RefusedByTrigger;
      }
      intent := Some(intent.value.(refunds := i.refunds + [RefundRow(key, amount)]));
      outbox := outbox + [RefundSucceeded(amount, i.currency)];
      return Recorded;
    }
  }
}
