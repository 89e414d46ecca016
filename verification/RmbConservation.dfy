/** The main theorem about transfers, over whole runs. */
module RmbConservation {
  import opened Common
  import opened Contracts
  import opened Ledger
  import opened RmbCore
  import opened RmbRows
  import opened RmbProtocol
  import opened RmbRuns
  import opened RmbTransfer

  /** The event delivers a LateDebit receipt. */
  predicate LateEvent(l: World, e: Event) {
    Enabled(l, e) && (e.DeliverReceipt? || e.TakeReceipt?) && LateDebit(l.tx, e.m.stepNo, e.m.done)
  }

  /** Some event of the run was a LateDebit. */
  predicate LateIn(id: string, l: World, run: seq<Event>) {
    run != [] && (LateIn(id, l, run[..|run| - 1]) || LateEvent(Exec(id, l, run[..|run| - 1]), run[|run| - 1]))
  }

  lemma StepKeepsBetween(id: string, reqs: seq<Request>, l: World, e: Event, late: bool)
    requires ValidRequest(reqs) && Invariant(id, reqs, l) && Between(reqs, l.tx, late)
    ensures Between(reqs, Step(id, l, e).tx, late || LateEvent(l, e))
  {
    hide HandleReceipt, Advance, StillRight, Expire, Invariant, StepDelivered, ReceiptTaken, Sent, Between, LateDebit, FailPending;
    match e
    case DeliverStep(m, funds, acked) => if Enabled(l, e) { DeliveryLeavesRows(id, l, m, funds, acked); }
    case DeliverReceipt(m, _) =>
      if Enabled(l, e) {
        KnownReceipt(id, reqs, l, m);
        ReceiptTransfer(reqs, l.tx, m.stepNo, m.done, late);
        StableIsBetween(reqs, HandleReceipt(l.tx, m.stepNo, m.done).0, late || LateDebit(l.tx, m.stepNo, m.done));
      }
    case TakeReceipt(m, stepRead, txRead) =>
      if Enabled(l, e) { TakenBetween(id, reqs, l, m, stepRead, txRead, late); }
    case FinishReceipt(m, _) =>
      AdvanceTransfer(reqs, l.tx, late);
      StableIsBetween(reqs, Advance(l.tx).0, late);
    case Timeout(_) => ExpireTransfer(reqs, l.tx, late);
    case TimeoutInterrupted => ExpireTransfer(reqs, l.tx, late);
    case Restart => RestartBetween(reqs, l.tx, late);
    case _ =>
  }

  lemma DeliveryLeavesRows(id: string, l: World, m: Message, funds: bool, acked: bool)
    requires m.StepMessage?
    ensures StepDelivered(id, l, m, funds, acked).tx == l.tx
  {
    hide UnitStep;
  }

  lemma KnownReceipt(id: string, reqs: seq<Request>, l: World, m: Message)
    requires Invariant(id, reqs, l) && m in l.bag
    ensures 1 <= m.stepNo <= |l.tx.steps|
  {
    InvariantParts(id, reqs, l);
    hide Invariant, WellFormed;
  }

  lemma TakenBetween(id: string, reqs: seq<Request>, l: World, m: Message, stepRead: StepStatus, txRead: TxStatus, late: bool)
    requires ValidRequest(reqs) && Invariant(id, reqs, l) && Between(reqs, l.tx, late)
    requires Enabled(l, TakeReceipt(m, stepRead, txRead))
    ensures Between(reqs, ReceiptTaken(l, m, stepRead, txRead).tx, late || LateDebit(l.tx, m.stepNo, m.done))
  {
    hide Invariant, Between, Record, RecordRead, StillRight, WellFormed, LateDebit;
    InvariantParts(id, reqs, l);
    TakenIsRecorded(reqs, l, m, stepRead, txRead);
    RecordBetween(reqs, l.tx, m.stepNo, m.done, late);
  }

  lemma StableIsBetween(reqs: seq<Request>, tx: Tx, late: bool)
    requires Stable(reqs, tx, late)
    ensures Between(reqs, tx, late)
  {
  }

  lemma RestartBetween(reqs: seq<Request>, tx: Tx, late: bool)
    requires Between(reqs, tx, late)
    ensures Between(reqs, tx.(attempts := map[]), late)
  {
  }

  lemma {:induction false} BetweenAlways(id: string, reqs: seq<Request>, lost: set<nat>, run: seq<Event>)
    requires ValidRequest(reqs) && |reqs| == 2 && reqs[0].action.DebitAction? && reqs[1].action.CreditAction?
    ensures var l0 := Start(reqs, lost);
            Between(reqs, Exec(id, l0, run).tx, LateIn(id, l0, run))
  {
    hide Between, Invariant, Step, LateEvent;
    var l0 := Start(reqs, lost);
    if run == [] {
      RegisterStable(reqs);
    } else {
      var prefix := run[..|run| - 1];
      BetweenAlways(id, reqs, lost, prefix);
      InvariantAlways(id, reqs, lost, prefix);
      StepKeepsBetween(id, reqs, Exec(id, l0, prefix), run[|run| - 1], LateIn(id, l0, prefix));
    }
  }

  // ---------- the journal of a resting transfer ----------

  function Worth(journal: seq<Row>, row: Row): int {
    if row in journal then Delta(row.dir, row.amount) else 0
  }

  lemma LastIsNew(journal: seq<Row>)
    requires UniqueKeys(journal) && journal != []
    ensures var n := |journal| - 1;
            && UniqueKeys(journal[..n]) && journal[n] in journal && journal[n] !in journal[..n]
            && forall r :: r in journal <==> r in journal[..n] || r == journal[n]
  {
    var n := |journal| - 1;
    assert journal == journal[..n] + [journal[n]];
    assert forall i :: 0 <= i < n ==> !SameKey(journal[i], journal[n]);
  }

  /** A journal without repeated rows, all of them among four different ones, sums to those it holds. */
  lemma {:induction false} NetOfFour(journal: seq<Row>, a: Row, b: Row, c: Row, d: Row)
    requires UniqueKeys(journal)
    requires a != b && a != c && a != d && b != c && b != d && c != d
    requires forall r :: r in journal ==> r == a || r == b || r == c || r == d
    ensures Net(journal) == Worth(journal, a) + Worth(journal, b) + Worth(journal, c) + Worth(journal, d)
  {
    if journal != [] {
      var rest := journal[..|journal| - 1];
      LastIsNew(journal);
      hide UniqueKeys;
      NetOfFour(rest, a, b, c, d);
    }
  }

  function WorthTo(journal: seq<Row>, row: Row, x: Account): int {
    if row in journal && row.account == x then Delta(row.dir, row.amount) else 0
  }

  /** The same for what it posts to one account. */
  lemma {:induction false} SignedOfFour(journal: seq<Row>, a: Row, b: Row, c: Row, d: Row, x: Account)
    requires UniqueKeys(journal)
    requires a != b && a != c && a != d && b != c && b != d && c != d
    requires forall r :: r in journal ==> r == a || r == b || r == c || r == d
    ensures Signed(journal, x)
         == WorthTo(journal, a, x) + WorthTo(journal, b, x) + WorthTo(journal, c, x) + WorthTo(journal, d, x)
  {
    if journal != [] {
      var rest := journal[..|journal| - 1];
      LastIsNew(journal);
      hide UniqueKeys;
      SignedOfFour(rest, a, b, c, d, x);
    }
  }

  /** The four movements a transfer can ever post. */
  function TransferPostings(id: string, from: Account, to: Account, amount: int): (r: (Row, Row, Row, Row)) {
    (Row(Original(id), from, Debit, amount), Row(Original(id), to, Credit, amount),
     Row(Compensation(id), from, Credit, amount), Row(Compensation(id), to, Debit, amount))
  }

  /** Which of the four a row posts. */
  lemma PostingOfRow(id: string, from: Account, to: Account, amount: int, tx: Tx, i: nat)
    requires TransferRows(TransferSteps(from, to, amount), tx) && i < |tx.steps|
    ensures StepDirection(tx.steps[i].action).Some?
    ensures var (o1, o2, c1, c2) := TransferPostings(id, from, to, amount);
            Posting(id, tx.steps[i])
            == if i == 0 then o1 else if i == 1 then o2
               else if tx.steps[i].action.CompensateDebit? then c1 else c2
  {
    var reqs := TransferSteps(from, to, amount);
    assert IsRowOf(tx.steps[0], 0, reqs[0]) && IsRowOf(tx.steps[1], 1, reqs[1]);
    TransferRow(reqs, tx, i);
  }

  /** An original is journaled exactly when it is recorded DONE, once nothing is in flight. */
  lemma RestingOriginal(id: string, reqs: seq<Request>, l: World, i: nat)
    requires ValidRequest(reqs) && Invariant(id, reqs, l) && l.bag == multiset{} && i < |reqs|
    ensures Posting(id, l.tx.steps[i]) in l.journal <==> l.tx.steps[i].status.Done?
  {
  }

  /** A transaction rests: it is COMPENSATED, none of its messages is in flight and none is being handled. */
  ghost predicate Resting(l: World) {
    l.tx.status.Compensated? && l.bag == multiset{} && l.handling == multiset{}
  }

  /** Does the transfer have a compensation of this action. */
  predicate HasComp(steps: seq<StepRow>, action: Action) {
    exists i :: 2 <= i < |steps| && steps[i].action == action
  }

  /** The journal of a resting transfer holds an original exactly when it is DONE and a compensation
      exactly when such a step exists. */
  lemma RestingJournal(id: string, from: Account, to: Account, amount: int, l: World, late: bool)
    requires var reqs := TransferSteps(from, to, amount);
             ValidRequest(reqs) && Invariant(id, reqs, l) && Stable(reqs, l.tx, late) && Resting(l)
    ensures |l.tx.steps| >= 2
    ensures var (o1, o2, c1, c2) := TransferPostings(id, from, to, amount);
            && (o1 in l.journal <==> l.tx.steps[0].status.Done?)
            && (o2 in l.journal <==> l.tx.steps[1].status.Done?)
            && (c1 in l.journal <==> HasComp(l.tx.steps, CompensateDebit))
            && (c2 in l.journal <==> HasComp(l.tx.steps, CompensateCredit))
            && (forall r :: r in l.journal ==> r == o1 || r == o2 || r == c1 || r == c2)
  {
    var reqs := TransferSteps(from, to, amount);
    var (o1, o2, c1, c2) := TransferPostings(id, from, to, amount);
    RestingOriginal(id, reqs, l, 0);
    RestingOriginal(id, reqs, l, 1);
    PostingOfRow(id, from, to, amount, l.tx, 0);
    PostingOfRow(id, from, to, amount, l.tx, 1);
    forall r | r in l.journal
      ensures r == o1 || r == o2 || r == c1 || r == c2
      ensures r == c1 ==> HasComp(l.tx.steps, CompensateDebit)
      ensures r == c2 ==> HasComp(l.tx.steps, CompensateCredit)
    {
      var i :| 0 <= i < |l.tx.steps| && r == Posting(id, l.tx.steps[i]);
      PostingOfRow(id, from, to, amount, l.tx, i);
      TransferRow(reqs, l.tx, i);
    }
    forall i | 2 <= i < |l.tx.steps|
      ensures (if l.tx.steps[i].action.CompensateDebit? then c1 else c2) in l.journal
    {
      PostingOfRow(id, from, to, amount, l.tx, i);
      assert l.tx.steps[i].status.Done?;
    }
    forall i | 2 <= i < |l.tx.steps| ensures l.tx.steps[i].action.CompensateDebit? || l.tx.steps[i].action.CompensateCredit? {
      TransferRow(reqs, l.tx, i);
    }
  }

  predicate IsReversed(steps: seq<StepRow>, k: nat)
    requires k < |steps|
  {
    exists i :: 2 <= i < |steps| && Reverses(steps[i], steps[k])
  }

  /** DONE originals and DONE compensations pair one to one: every compensation is DONE and reverses a DONE
      original, no two reverse the same one, and no DONE original is left over. */
  ghost predicate PairedOneToOne(steps: seq<StepRow>)
    requires |steps| >= 2
  {
    && (forall i :: 2 <= i < |steps| ==>
          steps[i].status.Done? && ReversesSomeDone(steps[i], steps[..2]))
    && (forall i, j, k :: 2 <= i < j < |steps| && 0 <= k < 2 ==>
          !(Reverses(steps[i], steps[k]) && Reverses(steps[j], steps[k])))
    && (steps[0].status.Done? ==> IsReversed(steps, 0))
    && (steps[1].status.Done? ==> IsReversed(steps, 1))
  }

  /** The rows of a resting transfer, one by one. */
  lemma RestingRows(reqs: seq<Request>, tx: Tx, late: bool)
    requires Stable(reqs, tx, late) && tx.status.Compensated?
    ensures var s := tx.steps;
            && 2 <= |s| == 2 + DoneCount(s) <= 4
            && s[0].action.DebitAction? && s[1].action.CreditAction?
            && (forall i :: 2 <= i < |s| ==> s[i].status.Done? && ReversesSomeDone(s[i], s[..2]))
            && (forall i :: 2 <= i < |s| ==>
                  if s[i].action.CompensateDebit? then Reverses(s[i], s[0]) && s[0].status.Done?
                  else s[i].action.CompensateCredit? && Reverses(s[i], s[1]) && s[1].status.Done?)
            && (|s| > 3 ==> s[3].action.CompensateCredit?)
            && (late <==> |s| > 2 && s[2].action.CompensateCredit? && DoneCount(s) == 2)
  {
    TransferScan(reqs, tx);
    var steps := tx.steps;
    TransferRow(reqs, tx, 0);
    TransferRow(reqs, tx, 1);
    if |steps| > 2 { TransferRow(reqs, tx, 2); }
    if |steps| > 3 { TransferRow(reqs, tx, 3); }
    forall i | 2 <= i < |steps| ensures ReversesSomeDone(steps[i], steps[..2]) { }
  }

  /** Which compensations a resting transfer has. */
  lemma RestingComps(reqs: seq<Request>, tx: Tx, late: bool)
    requires Stable(reqs, tx, late) && tx.status.Compensated?
    ensures !late ==> HasComp(tx.steps, CompensateDebit) == tx.steps[0].status.Done?
    ensures !late ==> HasComp(tx.steps, CompensateCredit) == tx.steps[1].status.Done?
    ensures late ==> tx.steps[0].status.Done? && tx.steps[1].status.Done?
    ensures late ==> !HasComp(tx.steps, CompensateDebit) && HasComp(tx.steps, CompensateCredit)
  {
    RestingRows(reqs, tx, late);
    hide Stable, ReversesSomeDone, Reverses;
    var steps := tx.steps;
    if late {
      assert !HasComp(steps, CompensateDebit);
    } else {
      if |steps| > 2 && steps[2].action.CompensateDebit? { assert HasComp(steps, CompensateDebit); }
      if |steps| > 2 && steps[2].action.CompensateCredit? { assert HasComp(steps, CompensateCredit); }
      if |steps| > 3 { assert steps[3].action.CompensateCredit? && HasComp(steps, CompensateCredit); }
    }
  }

  lemma RestingPairs(reqs: seq<Request>, tx: Tx, late: bool)
    requires Stable(reqs, tx, late) && tx.status.Compensated?
    ensures PairedOneToOne(tx.steps) <==> !late
  {
    RestingRows(reqs, tx, late);
    hide Stable, ReversesSomeDone;
    var steps := tx.steps;
    if late {
      assert Reverses(steps[2], steps[1]) && Reverses(steps[3], steps[1]);
    }
  }

  /** MAIN THEOREM. After any run of a transfer — any duplication, delay, reordering, failed publish, unit
      crash, timeout, interrupted timeout, receipt handled in two parts or restart — whenever it rests in COMPENSATED, the units'
      journals net to zero exactly when no LateDebit happened, and the DONE originals pair one to one
      with DONE compensations in exactly those runs. Account by account: the target is always left as it
      was, and so is the source, except after a LateDebit, which leaves it without the amount: the
      CREDIT's compensation was created a second time and the DEBIT is never given back. */
  lemma TransferConservation(id: string, from: Account, to: Account, amount: int, lost: set<nat>, run: seq<Event>)
    requires Resting(Exec(id, Start(TransferSteps(from, to, amount), lost), run))
    ensures var l0 := Start(TransferSteps(from, to, amount), lost);
            var l := Exec(id, l0, run);
            && Net(l.journal) == (if LateIn(id, l0, run) then -amount else 0)
            && (amount != 0 ==> (Net(l.journal) == 0 <==> !LateIn(id, l0, run)))
            && (from != to ==> Signed(l.journal, to) == 0)
            && (from != to ==> Signed(l.journal, from) == if LateIn(id, l0, run) then -amount else 0)
            && |l.tx.steps| >= 2
            && (PairedOneToOne(l.tx.steps) <==> !LateIn(id, l0, run))
  {
    var reqs := TransferSteps(from, to, amount);
    TransferIsValid(from, to, amount);
    BetweenAlways(id, reqs, lost, run);
    InvariantAlways(id, reqs, lost, run);
    var l0 := Start(reqs, lost);
    RestingNet(id, from, to, amount, Exec(id, l0, run), LateIn(id, l0, run));
  }

  lemma RestingNet(id: string, from: Account, to: Account, amount: int, l: World, late: bool)
    requires var reqs := TransferSteps(from, to, amount);
             ValidRequest(reqs) && Invariant(id, reqs, l) && Stable(reqs, l.tx, late) && Resting(l)
    ensures Net(l.journal) == if late then -amount else 0
    ensures from != to ==> Signed(l.journal, to) == 0
    ensures from != to ==> Signed(l.journal, from) == if late then -amount else 0
    ensures |l.tx.steps| >= 2 && (PairedOneToOne(l.tx.steps) <==> !late)
  {
    hide Invariant, Stable, HasComp, PairedOneToOne;
    InvariantUnique(id, TransferSteps(from, to, amount), l);
    RestingJournal(id, from, to, amount, l, late);
    RestingComps(TransferSteps(from, to, amount), l.tx, late);
    RestingPairs(TransferSteps(from, to, amount), l.tx, late);
    NetOfPostings(id, from, to, amount, l.journal);
  }

  lemma NetOfPostings(id: string, from: Account, to: Account, amount: int, journal: seq<Row>)
    requires UniqueKeys(journal)
    requires var (o1, o2, c1, c2) := TransferPostings(id, from, to, amount);
             forall r :: r in journal ==> r == o1 || r == o2 || r == c1 || r == c2
    ensures var (o1, o2, c1, c2) := TransferPostings(id, from, to, amount);
            && Net(journal) == (if o1 in journal then -amount else 0) + (if o2 in journal then amount else 0)
                             + (if c1 in journal then amount else 0) + (if c2 in journal then -amount else 0)
            && (from != to ==>
                  && Signed(journal, from) == (if o1 in journal then -amount else 0) + (if c1 in journal then amount else 0)
                  && Signed(journal, to) == (if o2 in journal then amount else 0) + (if c2 in journal then -amount else 0))
  {
    var (o1, o2, c1, c2) := TransferPostings(id, from, to, amount);
    NetOfFour(journal, o1, o2, c1, c2);
    SignedOfFour(journal, o1, o2, c1, c2, from);
    SignedOfFour(journal, o1, o2, c1, c2, to);
    hide Net, Signed, UniqueKeys;
  }
}
