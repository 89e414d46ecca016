/** handleReceipt reads the step and the transaction, and writes afterwards: another handler or a timeout may
    have moved the rows in between (templates/bank_dcn/internal/rmb/coordinator.go). What such a receipt breaks,
    exactly when, and for how long. */
module RmbStale {
  import opened Common
  import opened Contracts
  import opened Ledger
  import opened RmbCore
  import opened RmbRows
  import opened RmbProtocol
  import opened RmbRuns
  import opened RmbTransfer
  import opened RmbConservation

  /** The writes of a receipt keep the protocol's invariant if and only if a DONE one gets its step to DONE. */
  lemma TakeKeepsIff(id: string, reqs: seq<Request>, l: World, m: Message, stepRead: StepStatus, txRead: TxStatus)
    requires ValidRequest(reqs) && Invariant(id, reqs, l) && m in l.bag && m.Receipt?
    ensures 1 <= m.stepNo <= |l.tx.steps|
    ensures Invariant(id, reqs, ReceiptTaken(l, m, stepRead, txRead))
       <==> (m.done ==> Lands(stepRead, l.tx.steps[m.stepNo - 1].status))
  {
    hide Invariant, WellFormed, Evolves, ValidRequest, RecordRead, Lands;
    InvariantParts(id, reqs, l);
    WellFormedNumbered(reqs, l.tx);
    RecordReadRows(l.tx, stepRead, txRead, m.stepNo, m.done);
    var l' := ReceiptTaken(l, m, stepRead, txRead);
    if m.done ==> Lands(stepRead, l.tx.steps[m.stepNo - 1].status) {
      TakeKeeps(id, reqs, l, m, stepRead, txRead);
    } else {
      assert m in l'.handling;
      assert !HandledIsRecorded(l'.tx.steps, l'.handling);
      if Invariant(id, reqs, l') { InvariantParts(id, reqs, l'); }
    }
  }

  // ---------- a DONE that reopens nothing ----------

  /** A COMPENSATED transaction without compensations in which original k is DONE. */
  ghost predicate Overlooked(reqs: seq<Request>, tx: Tx, k: nat) {
    && WellFormed(reqs, tx) && tx.status.Compensated? && k < |reqs| == |tx.steps| && tx.steps[k].status.Done?
    && forall i :: 0 <= i < |tx.steps| ==> !tx.steps[i].status.Pending?
  }

  /** A DONE receipt for a FAILED original of a settled transaction leaves it overlooked if and only if it has
      read the failure but not the settling. */
  lemma OverlookedArises(reqs: seq<Request>, tx: Tx, stepRead: StepStatus, txRead: TxStatus, no: nat)
    requires ValidRequest(reqs) && WellFormed(reqs, tx) && tx.status.Compensated? && |tx.steps| == |reqs|
    requires forall i :: 0 <= i < |tx.steps| ==> !tx.steps[i].status.Pending?
    requires 1 <= no <= |tx.steps| && tx.steps[no - 1].status.Failed?
    ensures Overlooked(reqs, RecordRead(tx, stepRead, txRead, no, true), no - 1)
       <==> stepRead.Failed? && !txRead.Compensated?
  {
    RecordReadRows(tx, stepRead, txRead, no, true);
    EvolveKeepsWellFormed(reqs, tx, RecordRead(tx, stepRead, txRead, no, true));
    hide WellFormed, ValidRequest;
  }

  /** A timed-out transaction: every row an original set FAILED, nothing compensated yet. */
  ghost predicate TimedOutRows(reqs: seq<Request>, tx: Tx) {
    && WellFormed(reqs, tx) && tx.status.Processing? && |tx.steps| == |reqs|
    && forall i :: 0 <= i < |tx.steps| ==> tx.steps[i].status.Failed?
  }

  lemma {:induction false} NoneDone(steps: seq<StepRow>)
    requires forall i :: 0 <= i < |steps| ==> !steps[i].status.Done?
    ensures DoneOriginals(steps) == []
  {
    if steps != [] { NoneDone(steps[..|steps| - 1]); }
  }

  /** It happens without a crash: a receipt reads FAILED and PROCESSING while expire is between its commit and
      its advance. Advance settles the transaction, and the receipt's own advance finds nothing to do. */
  lemma StaleReceiptReopensNothing(reqs: seq<Request>, tx: Tx, no: nat)
    requires ValidRequest(reqs) && TimedOutRows(reqs, tx) && 1 <= no <= |tx.steps|
    ensures var settled := Advance(tx).0;
            var stale := RecordRead(settled, Failed, Processing, no, true);
            && settled == tx.(status := Compensated)
            && Overlooked(reqs, stale, no - 1) && Advance(stale) == (stale, false)
  {
    ShapedScan(reqs, tx.steps);
    NoneDone(tx.steps);
    assert IsRowOf(tx.steps[0], 0, reqs[0]);
    assert HasOriginal(tx.steps, Failed) by { assert tx.steps[0].status.Failed?; }
    AdvanceKeeps(reqs, tx);
    hide WellFormed, ValidRequest, DoneOriginals, Compensations, RecordRead;
    OverlookedArises(reqs, tx.(status := Compensated), Failed, Processing, no);
  }

  /** The event handles, with right readings, a DONE receipt for an original that is FAILED. */
  predicate Reopening(l: World, e: Event) {
    && Enabled(l, e) && (e.DeliverReceipt? || e.TakeReceipt?) && e.m.done
    && 1 <= e.m.stepNo <= |l.tx.steps| && l.tx.steps[e.m.stepNo - 1].status.Failed?
  }

  lemma {:induction false} DoneRowIsScanned(steps: seq<StepRow>, i: nat)
    requires i < |steps| && !IsCompensation(steps[i].action) && steps[i].status.Done?
    ensures exists q :: 0 <= q < |DoneOriginals(steps)| && DoneOriginals(steps)[q] == steps[i]
  {
    var n := |steps| - 1;
    if i < n {
      DoneRowIsScanned(steps[..n], i);
      var q :| 0 <= q < |DoneOriginals(steps[..n])| && DoneOriginals(steps[..n])[q] == steps[..n][i];
      assert DoneOriginals(steps)[q] == steps[i];
    } else {
      assert DoneOriginals(steps)[|DoneOriginals(steps)| - 1] == steps[n];
    }
  }

  /** Every DONE original has a compensation. */
  ghost predicate AllReversed(n: nat, steps: seq<StepRow>)
    requires n <= |steps|
  {
    forall i :: 0 <= i < n && steps[i].status.Done? ==> exists j :: n <= j < |steps| && Reverses(steps[j], steps[i])
  }

  /** Creating all compensations at once. */
  lemma CreatesAll(reqs: seq<Request>, tx: Tx)
    requires ValidRequest(reqs) && WellFormed(reqs, tx) && tx.status.Processing? && |tx.steps| == |reqs|
    requires HasOriginal(tx.steps, Failed) && DoneOriginals(tx.steps) != []
    ensures var tx' := Advance(tx).0; tx'.status.Processing? && |tx'.steps| >= |reqs| && AllReversed(|reqs|, tx'.steps)
  {
    var created := AllCreated(reqs, tx);
    var done, n := DoneOriginals(tx.steps), |reqs|;
    hide Advance, DoneOriginals, WellFormed, ValidRequest, HasOriginal, Reverses;
    var steps' := tx.steps + created;
    forall i | 0 <= i < n && steps'[i].status.Done? ensures exists j :: n <= j < |steps'| && Reverses(steps'[j], steps'[i]) {
      OriginalAction(reqs, tx, i);
      DoneRowIsScanned(tx.steps, i);
      var q :| 0 <= q < |done| && done[q] == tx.steps[i];
      assert Reverses(created[|done| - 1 - q], done[|done| - 1 - (|done| - 1 - q)]);
      assert steps'[n + |done| - 1 - q] == created[|done| - 1 - q];
    }
  }

  lemma AllCreated(reqs: seq<Request>, tx: Tx) returns (created: seq<StepRow>)
    requires ValidRequest(reqs) && WellFormed(reqs, tx) && tx.status.Processing? && |tx.steps| == |reqs|
    requires HasOriginal(tx.steps, Failed) && DoneOriginals(tx.steps) != []
    ensures var done := DoneOriginals(tx.steps);
            && |created| == |done| && Advance(tx).0 == tx.(steps := tx.steps + created)
            && forall i :: 0 <= i < |done| ==> Reverses(created[i], done[|done| - 1 - i])
  {
    ShapedScan(reqs, tx.steps);
    var done := DoneOriginals(tx.steps);
    assert tx.steps[..|reqs|] == tx.steps;
    CreatedRows(reqs, tx.steps, |done|);
    hide WellFormed, ValidRequest, DoneOriginals, Compensations, NewCompensations, MaxNo, HasOriginal, Reverses, ReversesSomeDone;
    created := NewCompensations(done, |done|, MaxNo(tx.steps));
  }

  lemma OriginalAction(reqs: seq<Request>, tx: Tx, i: nat)
    requires ValidRequest(reqs) && WellFormed(reqs, tx) && i < |reqs|
    ensures !IsCompensation(tx.steps[i].action)
  {
    assert IsRowOf(tx.steps[i], i, reqs[i]);
  }

  /** What reopening comes to once advance has run: with every original DONE the transaction commits, otherwise
      every DONE original, the overlooked one included, gets its compensation. */
  lemma ReopenedMeaning(reqs: seq<Request>, tx: Tx, k: nat, no: nat)
    requires ValidRequest(reqs) && Overlooked(reqs, tx, k) && 1 <= no <= |tx.steps| && tx.steps[no - 1].status.Failed?
    ensures var tx' := HandleReceipt(tx, no, true).0;
            && |tx'.steps| >= |reqs|
            && if forall i :: 0 <= i < |reqs| && i != no - 1 ==> tx.steps[i].status.Done?
               then tx'.status.Committed? && |tx'.steps| == |reqs| && AllDone(tx'.steps)
               else tx'.status.Processing? && AllReversed(|reqs|, tx'.steps)
  {
    NumberedStatus(tx.steps, 0, no);
    MarkChanges(tx.steps, no, Failed, Done);
    RecordKeeps(reqs, tx, no, true);
    var marked := Record(tx, no, true);
    assert marked == Tx(Processing, tx.steps[no - 1 := tx.steps[no - 1].(status := Done)], tx.attempts);
    hide Record, WellFormed, ValidRequest, Mark, StatusOf;
    ReopenedAdvance(reqs, marked, no);
  }

  lemma ReopenedAdvance(reqs: seq<Request>, tx: Tx, no: nat)
    requires ValidRequest(reqs) && WellFormed(reqs, tx) && tx.status.Processing? && |tx.steps| == |reqs|
    requires 1 <= no <= |tx.steps| && tx.steps[no - 1].status.Done?
    requires forall i :: 0 <= i < |tx.steps| ==> !tx.steps[i].status.Pending?
    ensures var tx' := Advance(tx).0;
            && |tx'.steps| >= |reqs|
            && if AllDone(tx.steps) then tx'.status.Committed? && tx'.steps == tx.steps
               else tx'.status.Processing? && AllReversed(|reqs|, tx'.steps)
  {
    ShapedScan(reqs, tx.steps);
    if AllDone(tx.steps) {
      hide WellFormed, ValidRequest, DoneOriginals, Compensations;
    } else {
      var i :| 0 <= i < |tx.steps| && !tx.steps[i].status.Done?;
      OriginalAction(reqs, tx, i);
      OriginalAction(reqs, tx, no - 1);
      DoneRowIsScanned(tx.steps, no - 1);
      hide WellFormed, ValidRequest, DoneOriginals, Compensations, Advance, AllReversed;
      CreatesAll(reqs, tx);
    }
  }

  lemma OverlookedIdle(reqs: seq<Request>, tx: Tx, k: nat, no: nat, done: bool)
    requires Overlooked(reqs, tx, k)
    ensures Advance(tx) == (tx, false) && Expire(tx) == (tx, false)
    ensures !(done && 1 <= no <= |tx.steps| && tx.steps[no - 1].status.Failed?) ==> Record(tx, no, done) == tx
  {
    NumberedStatus(tx.steps, 0, no);
    assert Mark(tx.steps, no, Pending, if done then Done else Failed) == tx.steps;
  }

  /** One event leaves an overlooked original overlooked if and only if it is not Reopening. */
  lemma OverlookedStep(id: string, reqs: seq<Request>, l: World, e: Event, k: nat)
    requires ValidRequest(reqs) && Overlooked(reqs, l.tx, k)
    ensures Overlooked(reqs, Step(id, l, e).tx, k) <==> !Reopening(l, e)
  {
    hide Advance, Expire, HandleReceipt, Record, RecordRead, StillRight, WellFormed, ValidRequest, UnitStep, Sent;
    if !Enabled(l, e) { return; }
    match e
    case DeliverReceipt(m, _) => OverlookedReceipt(reqs, l.tx, k, m.stepNo, m.done);
    case TakeReceipt(m, stepRead, txRead) =>
      WellFormedNumbered(reqs, l.tx);
      StaleReadings(l.tx, stepRead, txRead, m.stepNo, m.done);
      OverlookedRecord(reqs, l.tx, k, m.stepNo, m.done);
    case FinishReceipt(m, _) => OverlookedIdle(reqs, l.tx, k, 0, false);
    case Timeout(_) => OverlookedIdle(reqs, l.tx, k, 0, false);
    case Restart => RestartedRows(reqs, l.tx);
    case _ =>
  }

  lemma OverlookedRecord(reqs: seq<Request>, tx: Tx, k: nat, no: nat, done: bool)
    requires ValidRequest(reqs) && Overlooked(reqs, tx, k)
    ensures Overlooked(reqs, Record(tx, no, done), k)
       <==> !(done && 1 <= no <= |tx.steps| && tx.steps[no - 1].status.Failed?)
  {
    OverlookedIdle(reqs, tx, k, no, done);
    NumberedStatus(tx.steps, 0, no);
    hide WellFormed, ValidRequest, Mark;
  }

  lemma OverlookedReceipt(reqs: seq<Request>, tx: Tx, k: nat, no: nat, done: bool)
    requires ValidRequest(reqs) && Overlooked(reqs, tx, k)
    ensures Overlooked(reqs, HandleReceipt(tx, no, done).0, k)
       <==> !(done && 1 <= no <= |tx.steps| && tx.steps[no - 1].status.Failed?)
  {
    OverlookedIdle(reqs, tx, k, no, done);
    if done && 1 <= no <= |tx.steps| && tx.steps[no - 1].status.Failed? { ReopenedMeaning(reqs, tx, k, no); }
    hide WellFormed, ValidRequest, Record, Advance;
  }

  /** Original k stays overlooked all through the run. */
  ghost predicate OverlookedThroughout(id: string, reqs: seq<Request>, l: World, k: nat, run: seq<Event>) {
    Overlooked(reqs, Exec(id, l, run).tx, k) && (run != [] ==> OverlookedThroughout(id, reqs, l, k, run[..|run| - 1]))
  }

  predicate ReopenedIn(id: string, l: World, run: seq<Event>) {
    run != [] && (ReopenedIn(id, l, run[..|run| - 1]) || Reopening(Exec(id, l, run[..|run| - 1]), run[|run| - 1]))
  }

  /** MAIN THEOREM. Over every continuation - receipts handled in one part or two, timeouts, restarts, repeats -
      the transaction stays COMPENSATED with the DONE original uncompensated if and only if no DONE receipt for
      another, FAILED original is handled. */
  lemma {:induction false} OverlookedExactly(id: string, reqs: seq<Request>, l: World, k: nat, run: seq<Event>)
    requires ValidRequest(reqs) && Overlooked(reqs, l.tx, k)
    ensures OverlookedThroughout(id, reqs, l, k, run) <==> !ReopenedIn(id, l, run)
  {
    if run != [] {
      hide Step, Reopening, Overlooked, ValidRequest;
      var prefix := run[..|run| - 1];
      OverlookedExactly(id, reqs, l, k, prefix);
      if OverlookedThroughout(id, reqs, l, k, prefix) {
        OverlookedStep(id, reqs, Exec(id, l, prefix), run[|run| - 1], k);
      }
    }
  }

  /** What the overlooked transfer holds when it rests: a DEBIT alone is money lost, a CREDIT alone money made. */
  lemma OverlookedNet(id: string, from: Account, to: Account, amount: int, l: World, k: nat)
    requires var reqs := TransferSteps(from, to, amount); Invariant(id, reqs, l) && Overlooked(reqs, l.tx, k) && Resting(l)
    ensures Net(l.journal) == (if l.tx.steps[0].status.Done? then -amount else 0)
                            + (if l.tx.steps[1].status.Done? then amount else 0)
  {
    var reqs := TransferSteps(from, to, amount);
    var (o1, o2, c1, c2) := TransferPostings(id, from, to, amount);
    TransferIsValid(from, to, amount);
    RestingOriginal(id, reqs, l, 0);
    RestingOriginal(id, reqs, l, 1);
    PostingOfRow(id, from, to, amount, l.tx, 0);
    PostingOfRow(id, from, to, amount, l.tx, 1);
    InvariantUnique(id, reqs, l);
    forall r | r in l.journal ensures r == o1 || r == o2 {
      var i :| 0 <= i < |l.tx.steps| && r == Posting(id, l.tx.steps[i]);
    }
    assert o1 in l.journal <==> l.tx.steps[0].status.Done?;
    assert o2 in l.journal <==> l.tx.steps[1].status.Done?;
    hide Invariant, WellFormed, ValidRequest, UniqueKeys, Net;
    NetOfPostings(id, from, to, amount, l.journal);
  }

  // ---------- a DONE that is lost ----------

  /** None of these messages leads to original k turning DONE. */
  ghost predicate Silent(messages: multiset<Message>, k: nat) {
    forall m :: m in messages ==> m.stepNo != k + 1 || (m.Receipt? && !m.done)
  }

  /** Messages drawn from silent ones are silent. */
  lemma SilentFrom(messages: multiset<Message>, a: multiset<Message>, b: multiset<Message>, c: multiset<Message>, k: nat)
    requires Silent(a, k) && Silent(b, k) && Silent(c, k)
    requires forall m :: m in messages ==> m in a || m in b || m in c
    ensures Silent(messages, k)
  {
  }

  /** Nothing in flight can still turn FAILED original k DONE. */
  ghost predicate Forgotten(reqs: seq<Request>, l: World, k: nat) {
    && WellFormed(reqs, l.tx) && k < |reqs| && l.tx.steps[k].status.Failed?
    && Silent(l.bag, k) && Silent(l.handling, k)
  }

  lemma {:induction false} SentArePending(steps: seq<StepRow>, lost: set<nat>, m: Message)
    requires m in Sent(steps, lost)
    ensures exists i :: 0 <= i < |steps| && steps[i].status.Pending? && m == MessageOf(steps[i])
  {
    var n := |steps| - 1;
    if m in Sent(steps[..n], lost) {
      SentArePending(steps[..n], lost, m);
      var i :| 0 <= i < n && steps[..n][i].status.Pending? && m == MessageOf(steps[..n][i]);
      assert steps[i] == steps[..n][i];
    } else {
      assert steps[n].status.Pending? && m == MessageOf(steps[n]);
    }
  }

  lemma SentForOthers(reqs: seq<Request>, tx: Tx, lost: set<nat>, k: nat)
    requires WellFormed(reqs, tx) && k < |reqs| && !tx.steps[k].status.Pending?
    ensures Silent(Sent(tx.steps, lost), k)
  {
    forall m | m in Sent(tx.steps, lost) ensures m.stepNo != k + 1 {
      SentArePending(tx.steps, lost, m);
      var i :| 0 <= i < |tx.steps| && tx.steps[i].status.Pending? && m == MessageOf(tx.steps[i]);
      assert tx.steps[i].stepNo == i + 1;
    }
  }

  /** advance never touches an original. */
  lemma AdvanceLeavesOriginals(reqs: seq<Request>, tx: Tx, k: nat)
    requires ValidRequest(reqs) && WellFormed(reqs, tx) && k < |reqs|
    ensures |Advance(tx).0.steps| >= |reqs| && Advance(tx).0.steps[k] == tx.steps[k]
  {
    RetriedIsCompensation(reqs, tx);
    KnownOriginals(reqs, tx);
    hide ValidRequest, WellFormed, DoneOriginals, Compensations, FirstFailed, NewCompensations, MaxNo, HasOriginal;
  }

  /** The row a retry marks is no original. */
  lemma RetriedIsCompensation(reqs: seq<Request>, tx: Tx)
    requires ValidRequest(reqs) && WellFormed(reqs, tx)
    ensures var failed := FirstFailed(Compensations(tx.steps));
            failed.Some? ==> forall i :: 0 <= i < |reqs| ==> tx.steps[i].stepNo != failed.value.stepNo
  {
    ShapedScan(reqs, tx.steps);
    var comps := Compensations(tx.steps);
    FirstFailedIsFailed(comps);
    if FirstFailed(comps).Some? {
      var j :| 0 <= j < |comps| && comps[j] == FirstFailed(comps).value;
      assert comps[j] == tx.steps[|reqs| + j];
    }
    hide ValidRequest, DoneOriginals, FirstFailed, Compensations, ReversesSomeDone;
  }

  lemma ForgottenReceipt(reqs: seq<Request>, tx: Tx, k: nat, no: nat, done: bool)
    requires ValidRequest(reqs) && WellFormed(reqs, tx) && k < |reqs| && tx.steps[k].status.Failed?
    requires no != k + 1 || !done
    ensures WellFormed(reqs, Record(tx, no, done)) && Record(tx, no, done).steps[k] == tx.steps[k]
    ensures var tx' := HandleReceipt(tx, no, done).0; WellFormed(reqs, tx') && tx'.steps[k] == tx.steps[k]
  {
    NumberedStatus(tx.steps, 0, no);
    RecordKeeps(reqs, tx, no, done);
    assert tx.steps[k].stepNo == k + 1;
    assert Record(tx, no, done).steps[k] == tx.steps[k];
    hide Record, WellFormed, ValidRequest, Advance, StatusOf;
    AdvanceLeavesOriginals(reqs, Record(tx, no, done), k);
    AdvanceKeeps(reqs, Record(tx, no, done));
  }

  lemma ForgottenExpire(reqs: seq<Request>, tx: Tx, k: nat)
    requires ValidRequest(reqs) && WellFormed(reqs, tx) && k < |reqs| && !tx.steps[k].status.Done?
    ensures var tx' := Expire(tx).0;
            && WellFormed(reqs, tx')
            && (tx.steps[k].status.Failed? ==> tx'.steps[k] == tx.steps[k])
            && (tx.status.Processing? && |Compensations(tx.steps)| == 0 ==> tx'.steps[k].status.Failed?)
  {
    hide Advance, WellFormed, ValidRequest;
    ExpireKeeps(reqs, tx);
    if tx.status.Processing? {
      FailPendingKeeps(reqs, tx);
      AdvanceLeavesOriginals(reqs, tx.(steps := FailPending(tx.steps)), k);
    }
    KnownOriginals(reqs, tx);
  }

  lemma KnownOriginals(reqs: seq<Request>, tx: Tx)
    requires WellFormed(reqs, tx)
    ensures |reqs| <= |tx.steps|
  {
  }

  /** What an event does to the rows of a forgotten original. */
  lemma ForgottenRows(id: string, reqs: seq<Request>, l: World, e: Event, k: nat)
    requires ValidRequest(reqs) && WellFormed(reqs, l.tx) && k < |reqs| && l.tx.steps[k].status.Failed? && Enabled(l, e)
    requires (e.DeliverReceipt? || e.TakeReceipt?) && e.m.done ==> e.m.stepNo != k + 1
    ensures var tx' := Step(id, l, e).tx; WellFormed(reqs, tx') && tx'.steps[k].status.Failed?
  {
    hide Advance, Expire, HandleReceipt, Record, RecordRead, StillRight, WellFormed, ValidRequest, UnitStep, Sent, FailPending;
    match e
    case DeliverReceipt(m, _) => ForgottenReceipt(reqs, l.tx, k, m.stepNo, m.done);
    case TakeReceipt(m, stepRead, txRead) =>
      WellFormedNumbered(reqs, l.tx);
      StaleReadings(l.tx, stepRead, txRead, m.stepNo, m.done);
      ForgottenReceipt(reqs, l.tx, k, m.stepNo, m.done);
    case FinishReceipt(_, _) => AdvanceKeeps(reqs, l.tx); AdvanceLeavesOriginals(reqs, l.tx, k);
    case Timeout(_) => ForgottenExpire(reqs, l.tx, k);
    case TimeoutInterrupted => ForgottenInterrupted(reqs, l.tx, k);
    case Restart => RestartedRows(reqs, l.tx);
    case _ =>
  }

  /** The messages an event may add. */
  function Added(id: string, l: World, e: Event): multiset<Message> {
    match e
    case DeliverStep(m, _, _) => multiset{Receipt(m.stepNo, true), Receipt(m.stepNo, false)}
    case DeliverReceipt(_, lost) => Sent(Step(id, l, e).tx.steps, lost)
    case FinishReceipt(_, lost) => Sent(Step(id, l, e).tx.steps, lost)
    case Timeout(lost) => Sent(Step(id, l, e).tx.steps, lost)
    case Republish(lost) => Sent(l.tx.steps, lost)
    case _ => multiset{}
  }

  /** l' has nothing in flight but what l had and `added`. */
  ghost predicate Adds(l: World, l': World, added: multiset<Message>) {
    && (forall m :: m in l'.bag ==> m in l.bag || m in l.handling || m in added)
    && (forall m :: m in l'.handling ==> m in l.bag || m in l.handling)
  }

  lemma AddedOnly(id: string, l: World, e: Event)
    requires Enabled(l, e)
    ensures Adds(l, Step(id, l, e), Added(id, l, e))
  {
    hide Adds, Sent, StillRight, StepDelivered, ReceiptDelivered, ReceiptTaken, ReceiptFinished, TimedOut, Interrupted,
         Republished, Restarted;
    match e
    case DeliverStep(m, funds, acked) => DeliveryAdds(id, l, m, funds, acked);
    case DeliverReceipt(m, lost) => ReceiptAdds(l, m, lost);
    case TakeReceipt(m, stepRead, txRead) => TakeAdds(l, m, stepRead, txRead);
    case FinishReceipt(m, lost) => FinishAdds(l, m, lost);
    case Requeue(m) => AgainAdds(l, m);
    case Redeliver(m) => AgainAdds(l, m);
    case Timeout(lost) => TimeoutAdds(l, lost);
    case Republish(lost) => QuietAdds(l, lost);
    case TimeoutInterrupted => QuietAdds(l, {});
    case Restart => QuietAdds(l, {});
  }

  lemma ReceiptAdds(l: World, m: Message, lost: set<nat>)
    requires m.Receipt?
    ensures Adds(l, ReceiptDelivered(l, m, lost), Sent(ReceiptDelivered(l, m, lost).tx.steps, lost))
  {
    hide HandleReceipt, Sent;
  }

  lemma TakeAdds(l: World, m: Message, stepRead: StepStatus, txRead: TxStatus)
    requires m.Receipt? && m in l.bag
    ensures Adds(l, ReceiptTaken(l, m, stepRead, txRead), multiset{})
  {
    hide RecordRead;
  }

  lemma FinishAdds(l: World, m: Message, lost: set<nat>)
    ensures Adds(l, ReceiptFinished(l, m, lost), Sent(ReceiptFinished(l, m, lost).tx.steps, lost))
  {
    hide Advance, Sent;
  }

  lemma AgainAdds(l: World, m: Message)
    requires m in l.bag || m in l.handling
    ensures Adds(l, l.(bag := l.bag + multiset{m}, handling := l.handling - multiset{m}), multiset{})
    ensures Adds(l, l.(bag := l.bag + multiset{m}), multiset{})
  {
  }

  lemma TimeoutAdds(l: World, lost: set<nat>)
    ensures Adds(l, TimedOut(l, lost), Sent(TimedOut(l, lost).tx.steps, lost))
  {
    hide Expire, Sent;
  }

  lemma QuietAdds(l: World, lost: set<nat>)
    ensures Adds(l, Republished(l, lost), Sent(l.tx.steps, lost))
    ensures Adds(l, Interrupted(l), multiset{}) && Adds(l, Restarted(l), multiset{})
  {
    hide Sent, FailPending;
  }

  lemma DeliveryAdds(id: string, l: World, m: Message, funds: bool, acked: bool)
    requires m.StepMessage?
    ensures Adds(l, StepDelivered(id, l, m, funds, acked), multiset{Receipt(m.stepNo, true), Receipt(m.stepNo, false)})
  {
    hide UnitStep;
  }

  lemma AddedSilent(id: string, reqs: seq<Request>, l: World, e: Event, k: nat)
    requires Forgotten(reqs, l, k) && Enabled(l, e)
    requires var tx' := Step(id, l, e).tx; WellFormed(reqs, tx') && tx'.steps[k].status.Failed?
    ensures Silent(Added(id, l, e), k)
  {
    var steps := Step(id, l, e).tx.steps;
    hide Step, WellFormed, Sent;
    match e
    case DeliverReceipt(_, lost) => SentForOthers(reqs, Step(id, l, e).tx, lost, k);
    case FinishReceipt(_, lost) => SentForOthers(reqs, Step(id, l, e).tx, lost, k);
    case Timeout(lost) => SentForOthers(reqs, Step(id, l, e).tx, lost, k);
    case Republish(lost) => SentForOthers(reqs, l.tx, lost, k);
    case _ =>
  }

  lemma ForgottenStep(id: string, reqs: seq<Request>, l: World, e: Event, k: nat)
    requires ValidRequest(reqs) && Forgotten(reqs, l, k)
    ensures Forgotten(reqs, Step(id, l, e), k)
  {
    if !Enabled(l, e) { return; }
    hide Step, Added, WellFormed, ValidRequest, Enabled;
    SilentMessage(l, e, k);
    ForgottenRows(id, reqs, l, e, k);
    AddedOnly(id, l, e);
    AddedSilent(id, reqs, l, e, k);
    KnownOriginals(reqs, Step(id, l, e).tx);
    hide Silent;
    SilentFrom(Step(id, l, e).bag, l.bag, l.handling, Added(id, l, e), k);
    SilentFrom(Step(id, l, e).handling, l.bag, l.handling, Added(id, l, e), k);
  }

  lemma SilentMessage(l: World, e: Event, k: nat)
    requires Enabled(l, e) && Silent(l.bag, k)
    ensures (e.DeliverReceipt? || e.TakeReceipt?) && e.m.done ==> e.m.stepNo != k + 1
  {
  }

  lemma ForgottenInterrupted(reqs: seq<Request>, tx: Tx, k: nat)
    requires ValidRequest(reqs) && WellFormed(reqs, tx) && k < |reqs| && tx.steps[k].status.Failed?
    ensures tx.status.Processing? ==>
              WellFormed(reqs, tx.(steps := FailPending(tx.steps))) && FailPending(tx.steps)[k] == tx.steps[k]
  {
    if tx.status.Processing? { FailPendingKeeps(reqs, tx); }
    hide WellFormed, ValidRequest;
  }

  lemma JournalGrows(id: string, l: World, e: Event, r: Row)
    requires r in l.journal
    ensures r in Step(id, l, e).journal
  {
    hide HandleReceipt, Advance, Expire, Sent, RecordRead;
  }

  /** Forgotten once is forgotten for ever, and a movement journaled stays journaled. */
  lemma {:induction false} ForgottenForever(id: string, reqs: seq<Request>, l: World, k: nat, r: Row, run: seq<Event>)
    requires ValidRequest(reqs) && Forgotten(reqs, l, k) && r in l.journal
    ensures Forgotten(reqs, Exec(id, l, run), k) && r in Exec(id, l, run).journal
  {
    if run != [] {
      hide Step, Forgotten, ValidRequest;
      ForgottenForever(id, reqs, l, k, r, run[..|run| - 1]);
      ForgottenStep(id, reqs, Exec(id, l, run[..|run| - 1]), run[|run| - 1], k);
      JournalGrows(id, Exec(id, l, run[..|run| - 1]), run[|run| - 1], r);
    }
  }

  /** A compensation reverses an original that is DONE. */
  lemma UndoneIsUnreversed(id: string, reqs: seq<Request>, tx: Tx, k: nat, j: nat)
    requires ValidRequest(reqs) && WellFormed(reqs, tx) && k < |reqs| <= j < |tx.steps| && !tx.steps[k].status.Done?
    ensures !Reverses(tx.steps[j], tx.steps[k])
  {
    ghost var s := Source(reqs, tx.steps, j);
    assert IsRowOf(tx.steps[s], s, reqs[s]) && IsRowOf(tx.steps[k], k, reqs[k]);
  }

  /** The one copy of a DONE receipt in flight for PENDING original k, whose message is used up. */
  ghost predicate LastReceipt(l: World, k: nat)
    requires k < |l.tx.steps|
  {
    && l.bag[Receipt(k + 1, true)] == 1 && MessageOf(l.tx.steps[k]) !in l.bag
    && Receipt(k + 1, true) !in l.handling
    && l.tx.status.Processing? && l.tx.steps[k].status.Pending? && Compensations(l.tx.steps) == []
  }

  /** The timeout overtakes the receipt between its reading, PENDING, and its writes; then it is acknowledged. */
  function Overtaken(l: World, k: nat, txRead: TxStatus, lost: set<nat>, lost': set<nat>): World {
    ReceiptFinished(ReceiptTaken(TimedOut(l, lost), Receipt(k + 1, true), Pending, txRead), Receipt(k + 1, true), lost')
  }

  lemma OvertakenIsForgotten(id: string, reqs: seq<Request>, l: World, k: nat, txRead: TxStatus, lost: set<nat>, lost': set<nat>)
    requires ValidRequest(reqs) && Invariant(id, reqs, l) && k < |reqs| && LastReceipt(l, k)
    ensures Forgotten(reqs, Overtaken(l, k, txRead, lost, lost'), k)
    ensures Overtaken(l, k, txRead, lost, lost').journal == l.journal && Posting(id, l.tx.steps[k]) in l.journal
  {
    var m := Receipt(k + 1, true);
    var t := Expire(l.tx).0;
    LastParts(l, k);
    hide *;
    InvariantParts(id, reqs, l);
    ReportedIsPosted(id, reqs, l, k);
    ForgottenExpire(reqs, l.tx, k);
    FailedIsPassedOver(reqs, t, k, txRead);
    AdvanceKeeps(reqs, t);
    AdvanceLeavesOriginals(reqs, t, k);
    SentForOthers(reqs, t, lost, k);
    SentForOthers(reqs, Advance(t).0, lost', k);
    NotAwaited(reqs, l, k);
    OvertakenWorld(l, k, txRead, lost, lost');
    SilentFrom(Overtaken(l, k, txRead, lost, lost').bag, l.bag - multiset{m}, Sent(t.steps, lost), Sent(Advance(t).0.steps, lost'), k);
    IsForgotten(reqs, Overtaken(l, k, txRead, lost, lost'), k);
  }

  lemma IsForgotten(reqs: seq<Request>, l: World, k: nat)
    requires WellFormed(reqs, l.tx) && k < |reqs| && |reqs| <= |l.tx.steps| && l.tx.steps[k].status.Failed?
    requires Silent(l.bag, k) && Silent(l.handling, k)
    ensures Forgotten(reqs, l, k)
  {
  }

  lemma LastParts(l: World, k: nat)
    requires k < |l.tx.steps| && LastReceipt(l, k)
    ensures Receipt(k + 1, true) in l.bag && l.tx.status.Processing? && l.tx.steps[k].status.Pending?
    ensures |Compensations(l.tx.steps)| == 0
  {
  }

  /** Expire, writes that change nothing, advance: the receipt is gone, and messages have been added. */
  lemma OvertakenWorld(l: World, k: nat, txRead: TxStatus, lost: set<nat>, lost': set<nat>)
    requires var t := Expire(l.tx).0; RecordRead(t, Pending, txRead, k + 1, true) == t
    requires Receipt(k + 1, true) in l.bag
    ensures var t, m := Expire(l.tx).0, Receipt(k + 1, true);
            var l' := Overtaken(l, k, txRead, lost, lost');
            && l'.tx == Advance(t).0 && l'.journal == l.journal && l'.handling == l.handling
            && l'.bag == l.bag - multiset{m} + (if Expire(l.tx).1 then Sent(t.steps, lost) else multiset{})
                         + (if Advance(t).1 then Sent(Advance(t).0.steps, lost') else multiset{})
  {
    hide Expire, Advance, RecordRead, Sent;
    var m := Receipt(k + 1, true);
    assert l.handling + multiset{m} - multiset{m} == l.handling;
    var sent := if Expire(l.tx).1 then Sent(Expire(l.tx).0.steps, lost) else multiset{};
    assert l.bag + sent - multiset{m} == l.bag - multiset{m} + sent;
  }

  lemma ReportedIsPosted(id: string, reqs: seq<Request>, l: World, k: nat)
    requires Invariant(id, reqs, l) && k < |l.tx.steps| && Receipt(k + 1, true) in l.bag
    ensures Understood(l.tx.steps) && Posting(id, l.tx.steps[k]) in l.journal
  {
    hide WellFormed, PostedIsKnown, BagMatches, HandledIsRecorded;
  }

  /** Besides its last DONE receipt, nothing in flight concerns original k but FAILED receipts. */
  lemma NotAwaited(reqs: seq<Request>, l: World, k: nat)
    requires WellFormed(reqs, l.tx) && BagMatches(l.tx.steps, l.bag) && HandledIsRecorded(l.tx.steps, l.handling)
    requires k < |reqs| && LastReceipt(l, k)
    ensures Silent(l.bag - multiset{Receipt(k + 1, true)}, k) && Silent(l.handling, k)
  {
    KnownOriginals(reqs, l.tx);
    hide WellFormed;
    var m0 := Receipt(k + 1, true);
    forall m | m in l.bag - multiset{m0} ensures m.stepNo != k + 1 || (m.Receipt? && !m.done) {
      assert m in l.bag && m != m0;
    }
  }

  /** The conditional update of a receipt that read PENDING matches no FAILED row. */
  lemma FailedIsPassedOver(reqs: seq<Request>, tx: Tx, k: nat, txRead: TxStatus)
    requires WellFormed(reqs, tx) && k < |reqs| && tx.steps[k].status.Failed?
    ensures RecordRead(tx, Pending, txRead, k + 1, true) == tx
  {
    MarkChanges(tx.steps, k + 1, Pending, Done);
  }

  /** MAIN THEOREM. Then the movement is in the unit's journal while its step stays FAILED and uncompensated in
      every continuation: nothing will ever record it or reverse it. */
  lemma LostReceiptIsForever(id: string, reqs: seq<Request>, l: World, k: nat, txRead: TxStatus, lost: set<nat>,
                             lost': set<nat>, run: seq<Event>)
    requires ValidRequest(reqs) && Invariant(id, reqs, l) && k < |reqs| && LastReceipt(l, k)
    ensures var l' := Exec(id, Overtaken(l, k, txRead, lost, lost'), run);
            && Posting(id, l.tx.steps[k]) in l'.journal
            && |reqs| <= |l'.tx.steps| && l'.tx.steps[k].status.Failed?
            && forall j :: |reqs| <= j < |l'.tx.steps| ==> !Reverses(l'.tx.steps[j], l'.tx.steps[k])
  {
    OvertakenIsForgotten(id, reqs, l, k, txRead, lost, lost');
    var l0 := Overtaken(l, k, txRead, lost, lost');
    ForgottenForever(id, reqs, l0, k, Posting(id, l.tx.steps[k]), run);
    var tx' := Exec(id, l0, run).tx;
    hide Exec, Overtaken, LastReceipt, Invariant, WellFormed, ValidRequest;
    KnownOriginals(reqs, tx');
    forall j | |reqs| <= j < |tx'.steps| ensures !Reverses(tx'.steps[j], tx'.steps[k]) {
      UndoneIsUnreversed(id, reqs, tx', k, j);
    }
  }

  /** Every message is sent once. */
  lemma {:induction false} SentOnce(steps: seq<StepRow>, lost: set<nat>, m: Message)
    requires Numbered(steps)
    ensures Sent(steps, lost)[m] <= 1
    ensures m in Sent(steps, lost) ==> m.StepMessage? && 1 <= m.stepNo <= |steps|
  {
    if steps != [] { SentOnce(steps[..|steps| - 1], lost, m); }
  }

  /** And such a receipt exists for every step of every request: its unit has just applied and reported it. */
  lemma LastReceiptHappens(id: string, reqs: seq<Request>, k: nat)
    requires ValidRequest(reqs) && k < |reqs|
    ensures var m := MessageOf(Register(reqs).steps[k]);
            var l := Exec(id, Start(reqs, {}), [DeliverStep(m, true, true)]);
            Invariant(id, reqs, l) && k < |l.tx.steps| && LastReceipt(l, k)
  {
    var steps := Register(reqs).steps;
    var m := MessageOf(steps[k]);
    forall i | 0 <= i < |steps| ensures !IsCompensation(steps[i].action) { }
    hide Invariant, ValidRequest, Sent, Compensations, IsCompensation, Exec, Step;
    ExecOne(id, Start(reqs, {}), DeliverStep(m, true, true));
    InvariantAlways(id, reqs, {}, [DeliverStep(m, true, true)]);
    SentAll(steps, k);
    SentOnce(steps, {}, m);
    SentOnce(steps, {}, Receipt(k + 1, true));
    NoCompensations(steps);
    FirstDelivery(id, reqs, k);
  }

  lemma ExecOne(id: string, l: World, e: Event)
    ensures Exec(id, l, [e]) == Step(id, l, e)
  {
    assert [e][..0] == [] && Exec(id, l, [e][..0]) == l;
    hide Step;
  }

  lemma {:induction false} SentAll(steps: seq<StepRow>, k: nat)
    requires k < |steps| && steps[k].status.Pending?
    ensures MessageOf(steps[k]) in Sent(steps, {})
  {
    if k < |steps| - 1 { SentAll(steps[..|steps| - 1], k); }
  }

  lemma FirstDelivery(id: string, reqs: seq<Request>, k: nat)
    requires ValidRequest(reqs) && k < |reqs| && MessageOf(Register(reqs).steps[k]) in Start(reqs, {}).bag
    ensures var m := MessageOf(Register(reqs).steps[k]);
            var l := Step(id, Start(reqs, {}), DeliverStep(m, true, true));
            && l.tx == Register(reqs) && l.handling == multiset{}
            && l.bag == Start(reqs, {}).bag - multiset{m} + multiset{Receipt(k + 1, true)}
  {
    hide Sent;
  }
}
