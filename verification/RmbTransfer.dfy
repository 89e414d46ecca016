/** Conservation for the two-step transfer that submitRMB registers (DEBIT then CREDIT): over every run,
    what the units' journals hold when the transaction rests in COMPENSATED with nothing in flight. */
module RmbTransfer {
  import opened Common
  import opened Contracts
  import opened Ledger
  import opened RmbCore
  import opened RmbRows
  import opened RmbProtocol

  function TransferSteps(from: Account, to: Account, amount: int): seq<Request> {
    [Request(DebitAction, from, amount), Request(CreditAction, to, amount)]
  }

  lemma TransferIsValid(from: Account, to: Account, amount: int)
    ensures ValidRequest(TransferSteps(from, to, amount))
  {
  }

  /** Two originals followed by compensations; reqs is a transfer. */
  ghost predicate TransferRows(reqs: seq<Request>, tx: Tx) {
    && |reqs| == 2 && reqs[0].action.DebitAction? && reqs[1].action.CreditAction?
    && ValidRequest(reqs)
    && WellFormed(reqs, tx)
  }

  /** How many originals are DONE. */
  function DoneCount(steps: seq<StepRow>): nat
    requires |steps| >= 2
  {
    (if steps[0].status.Done? then 1 else 0) + (if steps[1].status.Done? then 1 else 0)
  }

  /** The guard of the harmful branch, readable off the rows before the call: a DONE receipt for the
      FAILED DEBIT while a compensation (it can only be the CREDIT's) exists. */
  predicate LateDebit(tx: Tx, no: nat, done: bool) {
    done && no == 1 && |tx.steps| > 2 && tx.steps[0].status.Failed?
  }

  /** True at any time, also between a recording and advance. `late`: some receipt so far was a LateDebit. */
  ghost predicate Mid(reqs: seq<Request>, tx: Tx, late: bool) {
    && TransferRows(reqs, tx)
    && (|tx.steps| > 2 ==> !tx.steps[0].status.Pending? && !tx.steps[1].status.Pending?)
    && (|tx.steps| > 3 ==> tx.steps[3].action.CompensateCredit?)
    && (!tx.status.Aborted? ==>
          (late <==> |tx.steps| > 2 && tx.steps[2].action.CompensateCredit? && DoneCount(tx.steps) == 2))
  }

  /** True after advance. */
  ghost predicate Stable(reqs: seq<Request>, tx: Tx, late: bool) {
    && Mid(reqs, tx, late)
    && (!tx.status.Aborted? && (|tx.steps| > 2 || tx.status.Compensated?) ==> |tx.steps| - 2 == DoneCount(tx.steps))
    && (tx.status.Compensated? ==> forall i :: 0 <= i < |tx.steps| ==>
          if i < 2 then !tx.steps[i].status.Pending? else tx.steps[i].status.Done?)
  }

  /** True between any two events, receipts half handled included: a settled transaction is stable. */
  ghost predicate Between(reqs: seq<Request>, tx: Tx, late: bool) {
    Mid(reqs, tx, late) && (!tx.status.Processing? ==> Stable(reqs, tx, late))
  }

  // ---------- the scans on a transfer ----------

  lemma TransferScan(reqs: seq<Request>, tx: Tx)
    requires TransferRows(reqs, tx)
    ensures 2 <= |tx.steps| <= 4 && Numbered(tx.steps)
    ensures DoneOriginals(tx.steps) == (if tx.steps[0].status.Done? then [tx.steps[0]] else [])
                                     + (if tx.steps[1].status.Done? then [tx.steps[1]] else [])
    ensures Compensations(tx.steps) == tx.steps[2..]
    ensures |tx.steps| - 2 <= DoneCount(tx.steps)
    ensures !IsCompensation(tx.steps[0].action) && !IsCompensation(tx.steps[1].action)
    ensures forall i :: 2 <= i < |tx.steps| ==> IsCompensation(tx.steps[i].action)
  {
    ShapedScan(reqs, tx.steps);
    TwoDone(tx.steps[..2]);
    assert IsRowOf(tx.steps[0], 0, reqs[0]) && IsRowOf(tx.steps[1], 1, reqs[1]);
    forall i | 2 <= i < |tx.steps| ensures IsCompensation(tx.steps[i].action) { TransferRow(reqs, tx, i); }
  }

  lemma TwoDone(s: seq<StepRow>)
    requires |s| == 2 && !IsCompensation(s[0].action) && !IsCompensation(s[1].action)
    ensures DoneOriginals(s) == (if s[0].status.Done? then [s[0]] else []) + (if s[1].status.Done? then [s[1]] else [])
  {
    assert s[..1][..0] == [];
    assert s[..1] == [s[0]];
    assert DoneOriginals([s[0]]) == (if s[0].status.Done? then [s[0]] else []);
  }

  /** A row of a transfer: one of the two originals, or the compensation of a DONE one. */
  lemma TransferRow(reqs: seq<Request>, tx: Tx, i: nat)
    requires TransferRows(reqs, tx) && i < |tx.steps|
    ensures i == 0 ==> tx.steps[i].action.DebitAction?
    ensures i == 1 ==> tx.steps[i].action.CreditAction?
    ensures i >= 2 ==> tx.steps[i].action.CompensateDebit? || tx.steps[i].action.CompensateCredit?
    ensures tx.steps[i].action.CompensateDebit? ==> Reverses(tx.steps[i], tx.steps[0]) && tx.steps[0].status.Done?
    ensures tx.steps[i].action.CompensateCredit? ==> Reverses(tx.steps[i], tx.steps[1]) && tx.steps[1].status.Done?
  {
    assert IsRowOf(tx.steps[0], 0, reqs[0]) && IsRowOf(tx.steps[1], 1, reqs[1]);
    ghost var source := Source(reqs, tx.steps, i);
  }

  lemma OriginalStatuses(reqs: seq<Request>, tx: Tx, status: StepStatus)
    requires TransferRows(reqs, tx)
    ensures HasOriginal(tx.steps, status) <==> tx.steps[0].status == status || tx.steps[1].status == status
  {
    TransferScan(reqs, tx);
  }

  // ---------- what each handler keeps ----------

  function Recorded(before: StepStatus, done: bool): StepStatus {
    if done then Done else if before.Pending? then Failed else before
  }

  /** Recording, row by row: only the named row moves, PENDING to the reported status or FAILED to DONE. */
  lemma RecordOnlyNamed(tx: Tx, no: nat, done: bool)
    requires Numbered(tx.steps)
    ensures var tx' := Record(tx, no, done);
            && |tx'.steps| == |tx.steps|
            && (forall i :: 0 <= i < |tx.steps| ==> tx'.steps[i].action == tx.steps[i].action)
            && (forall i :: 0 <= i < |tx.steps| && i != no - 1 ==> tx'.steps[i] == tx.steps[i])
            && (1 <= no <= |tx.steps| ==> tx'.steps[no - 1].status == Recorded(tx.steps[no - 1].status, done))
            && tx'.status == if tx.status.Compensated? && done && 1 <= no <= |tx.steps| && tx.steps[no - 1].status.Failed?
                             then Processing else tx.status
  {
    NumberedStatus(tx.steps, 0, no);
  }

  lemma RecordTransfer(reqs: seq<Request>, tx: Tx, no: nat, done: bool, late: bool)
    requires Between(reqs, tx, late)
    ensures Mid(reqs, Record(tx, no, done), late || LateDebit(tx, no, done))
    ensures Record(tx, no, done).status.Compensated? ==> Record(tx, no, done) == tx
    ensures !Record(tx, no, done).status.Processing? ==> Record(tx, no, done).status == tx.status
  {
    TransferScan(reqs, tx);
    RecordKeeps(reqs, tx, no, done);
    if |tx.steps| > 2 { TransferRow(reqs, tx, 2); }
    RecordOnlyNamed(tx, no, done);
    RecordAttempts(tx, no, done);
    hide WellFormed, Shaped, ValidRequest, DoneOriginals, Compensations, Record, Reverses, Numbered;
    var tx' := Record(tx, no, done);
    if tx'.status.Compensated? { assert tx'.steps == tx.steps; }
  }

  lemma RecordAttempts(tx: Tx, no: nat, done: bool)
    ensures Record(tx, no, done).attempts == tx.attempts
  {
  }

  /** The row that creation adds to a transfer: the reversal of the highest-numbered DONE original. */
  ghost predicate NewRow(steps: seq<StepRow>, c: StepRow)
    requires |steps| >= 2
  {
    && c.status.Pending?
    && (if steps[1].status.Done? then c.action.CompensateCredit? else c.action.CompensateDebit?)
  }

  lemma CreatedTransferRow(reqs: seq<Request>, tx: Tx)
    requires TransferRows(reqs, tx) && tx.status.Processing?
    requires HasOriginal(tx.steps, Failed) || |tx.steps| > 2
    requires DoneCount(tx.steps) == |tx.steps| - 1
    ensures exists c :: NewRow(tx.steps, c) && Advance(tx).0 == tx.(steps := tx.steps + [c])
  {
    var done := DoneOriginals(tx.steps);
    var created := NewCompensations(done, 1, MaxNo(tx.steps));
    OneCreated(reqs, tx, created);
    hide WellFormed, ValidRequest, DoneOriginals, Compensations, NewCompensations, MaxNo, HasOriginal, TransferRows, NewRow;
    assert created == [created[0]];
    assert Advance(tx).0 == tx.(steps := tx.steps + created);
  }

  /** With one compensation missing, the creation loop builds one row. */
  lemma OneCreated(reqs: seq<Request>, tx: Tx, created: seq<StepRow>)
    requires TransferRows(reqs, tx) && DoneCount(tx.steps) == |tx.steps| - 1
    requires created == NewCompensations(DoneOriginals(tx.steps), 1, MaxNo(tx.steps))
    ensures |created| == 1 && NewRow(tx.steps, created[0])
    ensures |DoneOriginals(tx.steps)| == |tx.steps| - 1 && |Compensations(tx.steps)| == |tx.steps| - 2
  {
    TransferScan(reqs, tx);
    assert DoneOriginals(tx.steps[..2]) == DoneOriginals(tx.steps) by { ShapedScan(reqs, tx.steps); }
    CreatedRows(reqs, tx.steps, 1);
    TransferRow(reqs, tx, 0);
    TransferRow(reqs, tx, 1);
    hide WellFormed, ValidRequest, DoneOriginals, Compensations, NewCompensations, MaxNo;
  }

  lemma AppendedStable(reqs: seq<Request>, tx: Tx, tx': Tx, c: StepRow, late: bool)
    requires Mid(reqs, tx, late) && tx.status.Processing? && WellFormed(reqs, tx')
    requires |tx.steps| > 2 || tx.steps[0].status.Failed? || tx.steps[1].status.Failed?
    requires DoneCount(tx.steps) == |tx.steps| - 1
    requires NewRow(tx.steps, c) && tx' == tx.(steps := tx.steps + [c])
    ensures Stable(reqs, tx', late)
  {
    hide WellFormed, ValidRequest;
  }

  /** Creation: at most one compensation is missing, and it is built for the highest-numbered DONE original. */
  lemma CreateTransfer(reqs: seq<Request>, tx: Tx, late: bool)
    requires Mid(reqs, tx, late) && tx.status.Processing?
    requires HasOriginal(tx.steps, Failed) || |tx.steps| > 2
    requires DoneCount(tx.steps) > |tx.steps| - 2
    ensures Stable(reqs, Advance(tx).0, late)
  {
    OriginalStatuses(reqs, tx, Failed);
    AdvanceKeeps(reqs, tx);
    hide WellFormed, ValidRequest, Advance, NewRow, HasOriginal;
    CreatedTransferRow(reqs, tx);
    var c :| NewRow(tx.steps, c) && Advance(tx).0 == tx.(steps := tx.steps + [c]);
    AppendedStable(reqs, tx, Advance(tx).0, c, late);
  }

  /** Resetting a failed compensation touches no original. */
  lemma RetryTransfer(reqs: seq<Request>, tx: Tx, late: bool, st: StepRow, attempts: map<nat, nat>)
    requires Mid(reqs, tx, late) && tx.status.Processing?
    requires |tx.steps| > 2 && DoneCount(tx.steps) == |tx.steps| - 2
    requires st in tx.steps[2..]
    ensures var tx' := Tx(Processing, Mark(tx.steps, st.stepNo, Failed, Pending), attempts);
            WellFormed(reqs, tx') ==> Stable(reqs, tx', late)
  {
    assert Numbered(tx.steps);
    var k :| 0 <= k < |tx.steps[2..]| && tx.steps[2..][k] == st;
    assert st == tx.steps[k + 2] && st.stepNo == k + 3;
    var marked := Mark(tx.steps, st.stepNo, Failed, Pending);
    assert forall i :: 0 <= i < |marked| && i != k + 2 ==> marked[i] == tx.steps[i];
    assert forall i :: 0 <= i < |marked| ==> marked[i].action == tx.steps[i].action;
    hide WellFormed, ValidRequest, Numbered, Mark;
  }

  lemma SettleTransfer(reqs: seq<Request>, tx: Tx, late: bool)
    requires Mid(reqs, tx, late) && tx.status.Processing?
    requires |tx.steps| > 2 && DoneCount(tx.steps) <= |tx.steps| - 2
    ensures Stable(reqs, Advance(tx).0, late)
  {
    TransferScan(reqs, tx);
    AdvanceKeeps(reqs, tx);
    var comps := Compensations(tx.steps);
    FirstFailedIsFailed(comps);
    hide WellFormed, ValidRequest, DoneOriginals, Compensations, FirstFailed, Mark, HasOriginal;
    if FirstFailed(comps).Some? {
      RetryTransfer(reqs, tx, late, FirstFailed(comps).value, Advance(tx).0.attempts);
    } else if AllDone(comps) {
      forall i | 2 <= i < |tx.steps| ensures tx.steps[i].status.Done? { assert comps[i - 2] == tx.steps[i]; }
    }
  }

  lemma AdvanceTransfer(reqs: seq<Request>, tx: Tx, late: bool)
    requires Between(reqs, tx, late)
    ensures Stable(reqs, Advance(tx).0, late)
  {
    if tx.status.Processing? {
      TransferScan(reqs, tx);
      OriginalStatuses(reqs, tx, Failed);
      OriginalStatuses(reqs, tx, Pending);
      if HasOriginal(tx.steps, Failed) || |tx.steps| > 2 {
        if DoneCount(tx.steps) > |tx.steps| - 2 {
          CreateTransfer(reqs, tx, late);
          return;
        } else if |tx.steps| > 2 {
          SettleTransfer(reqs, tx, late);
          return;
        }
      }
      AdvanceKeeps(reqs, tx);
      hide WellFormed, Shaped, ValidRequest, DoneOriginals, Compensations, HasOriginal;
    }
  }

  /** The writes of a receipt, whatever has happened since the last advance. */
  lemma RecordBetween(reqs: seq<Request>, tx: Tx, no: nat, done: bool, late: bool)
    requires Between(reqs, tx, late)
    ensures Between(reqs, Record(tx, no, done), late || LateDebit(tx, no, done))
  {
    RecordTransfer(reqs, tx, no, done, late);
    if !Record(tx, no, done).status.Processing? { RestingRecord(reqs, tx, no, done, late); }
    hide Mid, Stable, Record;
  }

  lemma ReceiptTransfer(reqs: seq<Request>, tx: Tx, no: nat, done: bool, late: bool)
    requires Between(reqs, tx, late) && 1 <= no <= |tx.steps|
    ensures Stable(reqs, HandleReceipt(tx, no, done).0, late || LateDebit(tx, no, done))
  {
    NumberedStatus(tx.steps, 0, no);
    RecordBetween(reqs, tx, no, done, late);
    AdvanceTransfer(reqs, Record(tx, no, done), late || LateDebit(tx, no, done));
    hide Stable, Advance, Record, StatusOf;
  }

  /** A receipt that leaves the transaction in a final state leaves it stable. */
  lemma RestingRecord(reqs: seq<Request>, tx: Tx, no: nat, done: bool, late: bool)
    requires Between(reqs, tx, late) && !Record(tx, no, done).status.Processing?
    requires Mid(reqs, Record(tx, no, done), late || LateDebit(tx, no, done))
    ensures Stable(reqs, Record(tx, no, done), late || LateDebit(tx, no, done))
  {
    RecordTransfer(reqs, tx, no, done, late);
    var tx' := Record(tx, no, done);
    hide Mid, Record;
    if tx'.status.Compensated? {
      LateNeedsFailedDebit(reqs, tx, no, done, late);
    } else if tx'.status.Committed? {
      assert |tx'.steps| == 2 by { CommittedHasTwo(reqs, tx', late || LateDebit(tx, no, done)); }
    }
  }

  lemma CommittedHasTwo(reqs: seq<Request>, tx: Tx, late: bool)
    requires Mid(reqs, tx, late) && tx.status.Committed?
    ensures |tx.steps| == 2
  {
  }

  /** In COMPENSATED a late DEBIT reopens the transaction. */
  lemma LateNeedsFailedDebit(reqs: seq<Request>, tx: Tx, no: nat, done: bool, late: bool)
    requires Between(reqs, tx, late) && Record(tx, no, done) == tx && tx.status.Compensated?
    ensures !LateDebit(tx, no, done)
  {
    NumberedStatus(tx.steps, 0, no);
  }

  lemma ExpireTransfer(reqs: seq<Request>, tx: Tx, late: bool)
    requires Between(reqs, tx, late)
    ensures Between(reqs, Expire(tx).0, late)
    ensures tx.status.Processing? && |Compensations(tx.steps)| == 0 ==>
              Between(reqs, tx.(steps := FailPending(tx.steps)), late)
  {
    if tx.status.Processing? {
      TransferScan(reqs, tx);
      if |tx.steps| == 2 {
        FailPendingKeeps(reqs, tx);
        var tx' := tx.(steps := FailPending(tx.steps));
        assert Mid(reqs, tx', late);
        AdvanceTransfer(reqs, tx', late);
      }
    }
  }

  lemma RegisterStable(reqs: seq<Request>)
    requires ValidRequest(reqs) && |reqs| == 2 && reqs[0].action.DebitAction? && reqs[1].action.CreditAction?
    ensures Between(reqs, Register(reqs), false)
  {
    RegisterWellFormed(reqs);
  }
}
