/** What the coordinator sends (templates/bank_dcn/internal/rmb/coordinator.go): which rows are published, that
    whatever a handler makes PENDING goes out with it, and that without lost publishes no PENDING step is
    ever stranded. */
module RmbDelivery {
  import opened Common
  import opened Contracts
  import opened Ledger
  import opened RmbCore
  import opened RmbRows
  import opened RmbProtocol
  import opened RmbRuns
  import opened RmbTransfer
  import opened RmbConservation
  import opened RmbStale

  // ---------- what publishPending sends ----------

  function Messages(rows: seq<StepRow>): multiset<Message> {
    if rows == [] then multiset{} else Messages(rows[..|rows| - 1]) + multiset{MessageOf(rows[|rows| - 1])}
  }

  /** When no publish call fails, the broker gets exactly the messages of the published rows. */
  lemma {:induction false} SentIsPublished(steps: seq<StepRow>)
    ensures Sent(steps, {}) == Messages(PendingRows(steps))
  {
    if steps != [] {
      var n := |steps| - 1;
      SentIsPublished(steps[..n]);
      var before := PendingRows(steps[..n]);
      assert (before + [steps[n]])[..|before|] == before && before + [] == before;
    }
  }

  /** The row's publish call is made and does not fail. */
  predicate Goes(row: StepRow, lost: set<nat>) {
    row.status.Pending? && row.stepNo !in lost
  }

  /** What gets through: the messages of the PENDING rows whose publish call does not fail. */
  lemma SentMeaning(steps: seq<StepRow>, lost: set<nat>, m: Message)
    ensures m in Sent(steps, lost) <==> exists i :: 0 <= i < |steps| && Goes(steps[i], lost) && m == MessageOf(steps[i])
  {
    if m in Sent(steps, lost) { SentGoes(steps, lost, m); }
    if i :| 0 <= i < |steps| && Goes(steps[i], lost) && m == MessageOf(steps[i]) { GoesIsSent(steps, lost, i); }
  }

  lemma {:induction false} SentGoes(steps: seq<StepRow>, lost: set<nat>, m: Message)
    requires m in Sent(steps, lost)
    ensures exists i :: 0 <= i < |steps| && Goes(steps[i], lost) && m == MessageOf(steps[i])
  {
    var n := |steps| - 1;
    if m in Sent(steps[..n], lost) {
      SentGoes(steps[..n], lost, m);
      var i :| 0 <= i < n && Goes(steps[..n][i], lost) && m == MessageOf(steps[..n][i]);
      assert steps[i] == steps[..n][i];
    } else {
      assert Goes(steps[n], lost) && m == MessageOf(steps[n]);
    }
  }

  lemma {:induction false} GoesIsSent(steps: seq<StepRow>, lost: set<nat>, i: nat)
    requires i < |steps| && Goes(steps[i], lost)
    ensures MessageOf(steps[i]) in Sent(steps, lost)
  {
    if i < |steps| - 1 { GoesIsSent(steps[..|steps| - 1], lost, i); }
  }

  // ---------- what a handler makes PENDING it sends ----------

  /** Row i of the new rows was not waiting before. */
  predicate NewlyPending(s: seq<StepRow>, t: seq<StepRow>, i: nat) {
    i < |t| && t[i].status.Pending? && (i >= |s| || !s[i].status.Pending?)
  }

  /** advance publishes whenever it makes a row PENDING. */
  lemma AdvancePublishes(reqs: seq<Request>, tx: Tx, i: nat)
    requires ValidRequest(reqs) && WellFormed(reqs, tx) && NewlyPending(tx.steps, Advance(tx).0.steps, i)
    ensures Advance(tx).1
  {
    hide ValidRequest, WellFormed, DoneOriginals, Compensations, FirstFailed, NewCompensations, Mark, HasOriginal;
  }

  lemma ReceiptPublishes(reqs: seq<Request>, tx: Tx, no: nat, done: bool, i: nat)
    requires ValidRequest(reqs) && WellFormed(reqs, tx) && NewlyPending(tx.steps, HandleReceipt(tx, no, done).0.steps, i)
    ensures HandleReceipt(tx, no, done).1
  {
    RecordKeeps(reqs, tx, no, done);
    RecordRows(tx, no, done);
    RecordNeverPending(tx, no, done);
    if StatusOf(tx.steps, no).Some? {
      hide Advance, Record, WellFormed, ValidRequest, StatusOf;
      AdvancePublishes(reqs, Record(tx, no, done), i);
    }
  }

  lemma RecordNeverPending(tx: Tx, no: nat, done: bool)
    ensures var t := Record(tx, no, done).steps;
            |t| == |tx.steps| && forall i :: 0 <= i < |t| && t[i].status.Pending? ==> tx.steps[i].status.Pending?
  {
  }

  lemma ExpirePublishes(reqs: seq<Request>, tx: Tx, i: nat)
    requires ValidRequest(reqs) && WellFormed(reqs, tx) && NewlyPending(tx.steps, Expire(tx).0.steps, i)
    ensures Expire(tx).1
  {
    if tx.status.Processing? && |Compensations(tx.steps)| == 0 {
      FailPendingKeeps(reqs, tx);
      AdvancePublishes(reqs, tx.(steps := FailPending(tx.steps)), i);
    }
    hide WellFormed, ValidRequest, Advance, Compensations;
  }

  /** A publishing handler run by this event, and the publish calls that fail. */
  predicate Publishing(e: Event) {
    e.DeliverReceipt? || e.FinishReceipt? || e.Timeout?
  }

  /** MAIN THEOREM, one event. Whatever a receipt, its advance or a timeout makes PENDING, a new compensation or
      one set back for another attempt, has its message in flight afterwards unless its publish call failed. */
  lemma NewlyPendingIsSent(id: string, reqs: seq<Request>, l: World, e: Event, i: nat)
    requires ValidRequest(reqs) && WellFormed(reqs, l.tx) && Enabled(l, e) && Publishing(e)
    requires NewlyPending(l.tx.steps, Step(id, l, e).tx.steps, i) && Step(id, l, e).tx.steps[i].stepNo !in e.lost
    ensures MessageOf(Step(id, l, e).tx.steps[i]) in Step(id, l, e).bag
  {
    SentMeaning(Step(id, l, e).tx.steps, e.lost, MessageOf(Step(id, l, e).tx.steps[i]));
    hide ValidRequest, WellFormed, HandleReceipt, Advance, Expire, Sent;
    match e
    case DeliverReceipt(m, _) => ReceiptPublishes(reqs, l.tx, m.stepNo, m.done, i);
    case FinishReceipt(_, _) => AdvancePublishes(reqs, l.tx, i);
    case Timeout(_) => ExpirePublishes(reqs, l.tx, i);
  }

  /** A timeout of a transaction that is being compensated changes no row and sends every PENDING one again. */
  lemma TimeoutRedelivers(id: string, l: World, lost: set<nat>, i: nat)
    requires l.tx.status.Processing? && Compensations(l.tx.steps) != []
    requires i < |l.tx.steps| && l.tx.steps[i].status.Pending? && l.tx.steps[i].stepNo !in lost
    ensures Step(id, l, Timeout(lost)).tx == l.tx
    ensures MessageOf(l.tx.steps[i]) in Step(id, l, Timeout(lost)).bag
  {
    SentMeaning(l.tx.steps, lost, MessageOf(l.tx.steps[i]));
  }

  // ---------- over runs ----------

  /** Every PENDING step has its message in flight, or a receipt. */
  ghost predicate NothingStranded(l: World) {
    forall i :: 0 <= i < |l.tx.steps| && l.tx.steps[i].status.Pending? ==> Awaited(l, i)
  }

  ghost predicate Awaited(l: World, i: nat)
    requires i < |l.tx.steps|
  {
    MessageOf(l.tx.steps[i]) in l.bag || Receipt(i + 1, true) in l.bag || Receipt(i + 1, false) in l.bag
  }

  /** Recording a receipt settles the step it names. */
  lemma RecordSettles(tx: Tx, no: nat, done: bool)
    requires Numbered(tx.steps) && 1 <= no <= |tx.steps|
    ensures |Record(tx, no, done).steps| == |tx.steps| && !Record(tx, no, done).steps[no - 1].status.Pending?
    ensures forall i :: 0 <= i < |tx.steps| && i != no - 1 ==> Record(tx, no, done).steps[i] == tx.steps[i]
  {
    NumberedStatus(tx.steps, 0, no);
  }

  /** A publishing advance whose calls all succeed leaves every PENDING row awaited. */
  lemma SentAwaits(l: World, i: nat)
    requires i < |l.tx.steps| && l.tx.steps[i].status.Pending?
    requires forall m :: m in Sent(l.tx.steps, {}) ==> m in l.bag
    ensures Awaited(l, i)
  {
    SentMeaning(l.tx.steps, {}, MessageOf(l.tx.steps[i]));
    assert Goes(l.tx.steps[i], {});
  }

  /** What is in flight for another step stays in flight. */
  lemma KeptAwaits(l: World, l': World, i: nat)
    requires i < |l.tx.steps| && i < |l'.tx.steps| && l.tx.steps[i].stepNo == i + 1
    requires MessageOf(l'.tx.steps[i]) == MessageOf(l.tx.steps[i]) && Awaited(l, i)
    requires forall m :: m in l.bag && m.stepNo == i + 1 ==> m in l'.bag
    ensures Awaited(l', i)
  {
  }

  lemma DeliveryAwaits(id: string, l: World, m: Message, funds: bool, acked: bool, i: nat)
    requires i < |l.tx.steps| && l.tx.steps[i].stepNo == i + 1 && Awaited(l, i)
    requires m.StepMessage? && m in l.bag && StepDirection(m.action).Some?
    ensures Awaited(StepDelivered(id, l, m, funds, acked), i)
  {
    hide UnitStep;
    var l' := StepDelivered(id, l, m, funds, acked);
    assert l'.tx == l.tx;
    forall x | x in l.bag && x != m ensures x in l'.bag { }
    if acked && m.stepNo == i + 1 { assert Receipt(i + 1, true) in l'.bag || Receipt(i + 1, false) in l'.bag; }
  }

  /** The rows a receipt leaves PENDING without publishing were so before, and it names none of them. */
  lemma UnsentRows(reqs: seq<Request>, tx: Tx, no: nat, done: bool, i: nat)
    requires ValidRequest(reqs) && WellFormed(reqs, tx) && 1 <= no <= |tx.steps|
    requires var (tx', publish) := HandleReceipt(tx, no, done); !publish && i < |tx'.steps| && tx'.steps[i].status.Pending?
    ensures i != no - 1 && i < |tx.steps| && tx.steps[i].status.Pending?
  {
    WellFormedNumbered(reqs, tx);
    NumberedStatus(tx.steps, 0, no);
    RecordSettles(tx, no, done);
    RecordKeeps(reqs, tx, no, done);
    hide Advance, Record, WellFormed, ValidRequest, StatusOf;
    if NewlyPending(Record(tx, no, done).steps, Advance(Record(tx, no, done)).0.steps, i) {
      AdvancePublishes(reqs, Record(tx, no, done), i);
    }
  }

  lemma ReceiptAwaits(id: string, reqs: seq<Request>, l: World, m: Message, i: nat)
    requires ValidRequest(reqs) && Invariant(id, reqs, l) && NothingStranded(l) && m in l.bag && m.Receipt?
    requires var l' := ReceiptDelivered(l, m, {}); i < |l'.tx.steps| && l'.tx.steps[i].status.Pending?
    ensures Awaited(ReceiptDelivered(l, m, {}), i)
  {
    var l' := ReceiptDelivered(l, m, {});
    InvariantParts(id, reqs, l);
    WellFormedNumbered(reqs, l.tx);
    KnownMessage(l, m);
    ReceiptKeeps(reqs, l.tx, m.stepNo, m.done);
    hide HandleReceipt, WellFormed, ValidRequest, Invariant, Sent;
    if HandleReceipt(l.tx, m.stepNo, m.done).1 {
      SentAwaits(l', i);
    } else {
      UnsentRows(reqs, l.tx, m.stepNo, m.done, i);
      assert SameButStatus(l.tx.steps[i], l'.tx.steps[i]);
      hide Awaited;
      KeptAwaits(l, l', i);
    }
  }

  lemma KnownMessage(l: World, m: Message)
    requires BagMatches(l.tx.steps, l.bag) && m in l.bag
    ensures 1 <= m.stepNo <= |l.tx.steps|
    ensures m.StepMessage? ==> m == MessageOf(l.tx.steps[m.stepNo - 1])
  {
  }

  lemma TakeAwaits(id: string, reqs: seq<Request>, l: World, m: Message, stepRead: StepStatus, txRead: TxStatus, i: nat)
    requires ValidRequest(reqs) && Invariant(id, reqs, l) && NothingStranded(l) && Enabled(l, TakeReceipt(m, stepRead, txRead))
    requires var l' := ReceiptTaken(l, m, stepRead, txRead); i < |l'.tx.steps| && l'.tx.steps[i].status.Pending?
    ensures Awaited(ReceiptTaken(l, m, stepRead, txRead), i)
  {
    InvariantParts(id, reqs, l);
    WellFormedNumbered(reqs, l.tx);
    TakenIsRecorded(reqs, l, m, stepRead, txRead);
    var l' := ReceiptTaken(l, m, stepRead, txRead);
    assert forall x :: x in l.bag && x != m ==> x in l'.bag;
    hide *;
    SettledAwaits(l, l', m, i);
  }

  lemma SettledAwaits(l: World, l': World, m: Message, i: nat)
    requires NothingStranded(l) && Numbered(l.tx.steps) && m.Receipt? && 1 <= m.stepNo <= |l.tx.steps|
    requires l'.tx == Record(l.tx, m.stepNo, m.done) && i < |l'.tx.steps| && l'.tx.steps[i].status.Pending?
    requires forall x :: x in l.bag && x != m ==> x in l'.bag
    ensures Awaited(l', i)
  {
    RecordSettles(l.tx, m.stepNo, m.done);
    hide Record, Awaited;
    KeptAwaits(l, l', i);
  }

  /** A handler that only adds messages. */
  lemma GrownAwaits(reqs: seq<Request>, l: World, l': World, publish: bool, i: nat)
    requires NothingStranded(l) && Numbered(l.tx.steps) && Evolves(l.tx.steps, l'.tx.steps)
    requires i < |l'.tx.steps| && l'.tx.steps[i].status.Pending?
    requires forall m :: m in l.bag ==> m in l'.bag
    requires NewlyPending(l.tx.steps, l'.tx.steps, i) ==> publish
    requires publish ==> forall m :: m in Sent(l'.tx.steps, {}) ==> m in l'.bag
    ensures Awaited(l', i)
  {
    hide Sent;
    if publish {
      SentAwaits(l', i);
    } else {
      assert SameButStatus(l.tx.steps[i], l'.tx.steps[i]);
      KeptAwaits(l, l', i);
    }
  }

  lemma FinishAwaits(reqs: seq<Request>, l: World, m: Message, i: nat)
    requires ValidRequest(reqs) && WellFormed(reqs, l.tx) && NothingStranded(l)
    requires var l' := ReceiptFinished(l, m, {}); i < |l'.tx.steps| && l'.tx.steps[i].status.Pending?
    ensures Awaited(ReceiptFinished(l, m, {}), i)
  {
    var l' := ReceiptFinished(l, m, {});
    AdvanceKeeps(reqs, l.tx);
    WellFormedNumbered(reqs, l.tx);
    hide Advance, WellFormed, ValidRequest, Sent, NothingStranded, Numbered;
    if NewlyPending(l.tx.steps, l'.tx.steps, i) { AdvancePublishes(reqs, l.tx, i); }
    GrownAwaits(reqs, l, l', Advance(l.tx).1, i);
  }

  lemma TimeoutAwaits(reqs: seq<Request>, l: World, i: nat)
    requires ValidRequest(reqs) && WellFormed(reqs, l.tx) && NothingStranded(l)
    requires var l' := TimedOut(l, {}); i < |l'.tx.steps| && l'.tx.steps[i].status.Pending?
    ensures Awaited(TimedOut(l, {}), i)
  {
    var l' := TimedOut(l, {});
    ExpireKeeps(reqs, l.tx);
    WellFormedNumbered(reqs, l.tx);
    hide Expire, WellFormed, ValidRequest, Sent, NothingStranded, Numbered;
    if NewlyPending(l.tx.steps, l'.tx.steps, i) { ExpirePublishes(reqs, l.tx, i); }
    GrownAwaits(reqs, l, l', Expire(l.tx).1, i);
  }

  lemma QuietAwaits(id: string, reqs: seq<Request>, l: World, e: Event, i: nat)
    requires ValidRequest(reqs) && WellFormed(reqs, l.tx) && NothingStranded(l) && Enabled(l, e)
    requires e.TimeoutInterrupted? || e.Requeue? || e.Redeliver? || e.Republish? || e.Restart?
    requires var l' := Step(id, l, e); i < |l'.tx.steps| && l'.tx.steps[i].status.Pending?
    ensures Awaited(Step(id, l, e), i)
  {
    var l' := Step(id, l, e);
    WellFormedNumbered(reqs, l.tx);
    if e.TimeoutInterrupted? && l.tx.status.Processing? { FailPendingKeeps(reqs, l.tx); }
    assert Evolves(l.tx.steps, l'.tx.steps);
    assert forall m :: m in l.bag ==> m in l'.bag;
    assert !NewlyPending(l.tx.steps, l'.tx.steps, i);
    hide Step, WellFormed, ValidRequest, NothingStranded, Numbered;
    GrownAwaits(reqs, l, l', false, i);
  }

  /** A row that is PENDING after an event was awaited before, or is sent by it. */
  lemma StillAwaited(id: string, reqs: seq<Request>, l: World, e: Event, i: nat)
    requires ValidRequest(reqs) && Invariant(id, reqs, l) && NothingStranded(l) && Enabled(l, e)
    requires Publishing(e) ==> e.lost == {}
    requires var l' := Step(id, l, e); i < |l'.tx.steps| && l'.tx.steps[i].status.Pending?
    ensures Awaited(Step(id, l, e), i)
  {
    InvariantParts(id, reqs, l);
    WellFormedNumbered(reqs, l.tx);
    hide Invariant, WellFormed, ValidRequest, StillRight, StepDelivered, ReceiptDelivered, ReceiptTaken, ReceiptFinished,
         TimedOut, Awaited;
    match e
    case DeliverStep(m, funds, acked) => UnderstoodDelivery(id, reqs, l, m); DeliveryLeavesRows(id, l, m, funds, acked);
                                         DeliveryAwaits(id, l, m, funds, acked, i);
    case DeliverReceipt(m, _) => ReceiptAwaits(id, reqs, l, m, i);
    case TakeReceipt(m, stepRead, txRead) => TakeAwaits(id, reqs, l, m, stepRead, txRead, i);
    case FinishReceipt(m, _) => FinishAwaits(reqs, l, m, i);
    case Timeout(_) => TimeoutAwaits(reqs, l, i);
    case _ => QuietAwaits(id, reqs, l, e, i);
  }

  lemma UnderstoodDelivery(id: string, reqs: seq<Request>, l: World, m: Message)
    requires Invariant(id, reqs, l) && m in l.bag && m.StepMessage?
    ensures StepDirection(m.action).Some?
  {
    KnownMessage(l, m);
    hide WellFormed, DoneIsPosted, PostedIsKnown, HandledIsRecorded;
  }

  /** No publish call of these events fails. */
  predicate LossFree(run: seq<Event>) {
    forall k :: 0 <= k < |run| && Publishing(run[k]) ==> run[k].lost == {}
  }

  lemma StartAwaits(reqs: seq<Request>)
    ensures NothingStranded(Start(reqs, {}))
  {
    var l := Start(reqs, {});
    forall i | 0 <= i < |l.tx.steps| && l.tx.steps[i].status.Pending? ensures Awaited(l, i) { SentAwaits(l, i); }
  }

  /** MAIN THEOREM. As long as no publish call fails, every PENDING step, original or compensation, first attempt or
      repeated, has its message or its receipt in flight: whatever is duplicated, delayed or reordered, however the
      units, receipts, timeouts, crashes and restarts fall. */
  lemma {:induction false} NothingStrandedAlways(id: string, reqs: seq<Request>, run: seq<Event>)
    requires ValidRequest(reqs) && LossFree(run)
    ensures NothingStranded(Exec(id, Start(reqs, {}), run))
  {
    if run == [] {
      StartAwaits(reqs);
    } else {
      var n := |run| - 1;
      assert LossFree(run[..n]);
      NothingStrandedAlways(id, reqs, run[..n]);
      InvariantAlways(id, reqs, {}, run[..n]);
      var l := Exec(id, Start(reqs, {}), run[..n]);
      hide Invariant, ValidRequest, Awaited, Step, Publishing;
      forall i | 0 <= i < |Step(id, l, run[n]).tx.steps| && Step(id, l, run[n]).tx.steps[i].status.Pending?
        ensures Awaited(Step(id, l, run[n]), i)
      {
        if Enabled(l, run[n]) { StillAwaited(id, reqs, l, run[n], i); } else { NotEnabled(id, l, run[n]); }
      }
    }
  }

  lemma NotEnabled(id: string, l: World, e: Event)
    requires !Enabled(l, e)
    ensures Step(id, l, e) == l
  {
  }

  /** And with failing publish calls: one republication of a PROCESSING transaction that gets through makes up for
      all that were lost. */
  lemma RepublishRecovers(id: string, l: World)
    requires l.tx.status.Processing?
    ensures NothingStranded(Step(id, l, Republish({})))
  {
    var l' := Step(id, l, Republish({}));
    forall i | 0 <= i < |l'.tx.steps| && l'.tx.steps[i].status.Pending? ensures Awaited(l', i) { SentAwaits(l', i); }
  }

  /** A crash loses no row, no journaled movement and no message: what was being handled is delivered again. */
  lemma CrashLosesNothing(id: string, l: World)
    ensures var l' := Step(id, l, Restart);
            && l'.tx.steps == l.tx.steps && l'.tx.status == l.tx.status && l'.journal == l.journal
            && l'.handling == multiset{} && (forall m :: l'.bag[m] == l.bag[m] + l.handling[m])
            && (forall no: nat :: Attempts(l'.tx, no) == 0)
  {
  }

  /** A refused or duplicated delivery only moves messages. */
  lemma MessagesMove(id: string, l: World, m: Message)
    ensures m in l.handling ==>
              Step(id, l, Requeue(m)) == l.(bag := l.bag + multiset{m}, handling := l.handling - multiset{m})
    ensures m in l.bag ==> Step(id, l, Redeliver(m)) == l.(bag := l.bag + multiset{m})
  {
  }

  /** A timeout that stops half way has failed the PENDING rows of a transaction without compensations, and done
      nothing else; the coordinator decides nothing until something advances it. */
  lemma InterruptedFails(id: string, l: World)
    requires l.tx.status.Processing? && forall i :: 0 <= i < |l.tx.steps| ==> !IsCompensation(l.tx.steps[i].action)
    ensures var l' := Step(id, l, TimeoutInterrupted);
            && |l'.tx.steps| == |l.tx.steps| && l' == l.(tx := l.tx.(steps := l'.tx.steps))
            && forall i :: 0 <= i < |l.tx.steps| ==>
                 l'.tx.steps[i] == l.tx.steps[i].(status := if l.tx.steps[i].status.Pending? then Failed else l.tx.steps[i].status)
  {
    NoCompensations(l.tx.steps);
  }
}
