/** What the coordinator's handlers keep about one transaction's rows, whatever receipts arrive:
    originals are immutable but for their status, DONE is final, every compensation reverses a DONE
    original, compensations never outnumber DONE originals, and COMMITTED has none. */
module RmbRows {
  import opened Common
  import opened Contracts
  import opened Ledger
  import opened RmbCore

  /** A request the units understand: DEBIT and CREDIT steps on pairwise different journal keys. */
  ghost predicate ValidRequest(reqs: seq<Request>) {
    && reqs != []
    && (forall i :: 0 <= i < |reqs| ==> reqs[i].action.DebitAction? || reqs[i].action.CreditAction?)
    && (forall i, j :: 0 <= i < j < |reqs| ==> reqs[i].account != reqs[j].account || reqs[i].action != reqs[j].action)
  }

  predicate IsRowOf(row: StepRow, i: nat, r: Request) {
    row == StepRow(i + 1, r.action, r.account, r.amount, row.status)
  }

  /** c is the compensation of original o. */
  predicate Reverses(c: StepRow, o: StepRow) {
    ReverseAction(o.action) == Some(c.action) && c.account == o.account && c.amount == o.amount
  }

  ghost predicate ReversesSomeDone(c: StepRow, originals: seq<StepRow>) {
    exists k :: 0 <= k < |originals| && originals[k].status.Done? && Reverses(c, originals[k])
  }

  predicate Numbered(steps: seq<StepRow>) {
    forall i :: 0 <= i < |steps| ==> steps[i].stepNo == i + 1
  }

  /** The shape of a transaction's rows: the originals as requested, then compensations. */
  ghost predicate Shaped(reqs: seq<Request>, steps: seq<StepRow>) {
    && |reqs| <= |steps|
    && Numbered(steps)
    && (forall i :: 0 <= i < |reqs| ==> IsRowOf(steps[i], i, reqs[i]))
    && (forall i :: |reqs| <= i < |steps| ==> ReversesSomeDone(steps[i], steps[..|reqs|]))
  }

  ghost predicate WellFormed(reqs: seq<Request>, tx: Tx) {
    && Shaped(reqs, tx.steps)
    && |tx.steps| - |reqs| <= |DoneOriginals(tx.steps[..|reqs|])|
    && (tx.status.Committed? ==> |tx.steps| == |reqs| && AllDone(tx.steps))
  }

  predicate SameButStatus(a: StepRow, b: StepRow) {
    a.(status := b.status) == b
  }

  /** Rows keep their contents, DONE stays DONE, and rows are only added, PENDING, at the end. */
  predicate Evolves(s: seq<StepRow>, t: seq<StepRow>) {
    && |s| <= |t|
    && (forall i :: 0 <= i < |s| ==> SameButStatus(s[i], t[i]) && (s[i].status.Done? ==> t[i].status.Done?))
    && (forall i :: |s| <= i < |t| ==> t[i].status.Pending?)
  }

  predicate NoNewDone(s: seq<StepRow>, t: seq<StepRow>) {
    |s| <= |t| && forall i :: 0 <= i < |s| && t[i].status.Done? ==> s[i].status.Done?
  }

  // ---------- the scans on shaped rows ----------

  /** On originals followed by compensations, the scans of advance are the two halves. */
  lemma {:induction false} ScanSplit(steps: seq<StepRow>, n: nat)
    requires n <= |steps|
    requires forall i :: 0 <= i < n ==> !IsCompensation(steps[i].action)
    requires forall i :: n <= i < |steps| ==> IsCompensation(steps[i].action)
    ensures DoneOriginals(steps) == DoneOriginals(steps[..n])
    ensures Compensations(steps) == steps[n..]
    decreases |steps|
  {
    var m := |steps| - 1;
    if n == |steps| {
      assert steps[..n] == steps;
      NoCompensations(steps);
    } else {
      ScanSplit(steps[..m], n);
      assert steps[..m][..n] == steps[..n];
      assert steps[..m][n..] + [steps[m]] == steps[n..];
    }
  }

  lemma {:induction false} NoCompensations(steps: seq<StepRow>)
    requires forall i :: 0 <= i < |steps| ==> !IsCompensation(steps[i].action)
    ensures Compensations(steps) == []
  {
    if steps != [] { NoCompensations(steps[..|steps| - 1]); }
  }

  lemma ShapedScan(reqs: seq<Request>, steps: seq<StepRow>)
    requires ValidRequest(reqs) && Shaped(reqs, steps)
    ensures DoneOriginals(steps) == DoneOriginals(steps[..|reqs|])
    ensures Compensations(steps) == steps[|reqs|..]
  {
    forall i | |reqs| <= i < |steps| ensures IsCompensation(steps[i].action) {
      assert ReversesSomeDone(steps[i], steps[..|reqs|]);
    }
    ScanSplit(steps, |reqs|);
  }

  lemma {:induction false} NumberedMax(steps: seq<StepRow>)
    requires Numbered(steps)
    ensures MaxNo(steps) == |steps|
  {
    if steps != [] { NumberedMax(steps[..|steps| - 1]); }
  }

  /** On numbered rows a step number addresses exactly one row. */
  lemma {:induction false} NumberedStatus(steps: seq<StepRow>, k: nat, no: nat)
    requires forall i :: 0 <= i < |steps| ==> steps[i].stepNo == k + i + 1
    ensures StatusOf(steps, no) == if k < no <= k + |steps| then Some(steps[no - k - 1].status) else None
    decreases |steps|
  {
    if steps != [] && steps[0].stepNo != no { NumberedStatus(steps[1..], k + 1, no); }
  }

  lemma {:induction false} FirstFailedIsFailed(rows: seq<StepRow>)
    ensures FirstFailed(rows).Some? ==> FirstFailed(rows).value in rows && FirstFailed(rows).value.status.Failed?
    ensures FirstFailed(rows).None? ==> forall i :: 0 <= i < |rows| ==> !rows[i].status.Failed?
  {
    if rows != [] && !rows[0].status.Failed? {
      FirstFailedIsFailed(rows[1..]);
      if FirstFailed(rows).None? {
        forall i | 0 <= i < |rows| ensures !rows[i].status.Failed? {
          if i > 0 { assert rows[i] == rows[1..][i - 1]; }
        }
      }
    }
  }

  /** Every DONE original found by the scan is one of the rows. */
  lemma {:induction false} DoneOriginalsAreRows(steps: seq<StepRow>, k: nat)
    requires k < |DoneOriginals(steps)|
    ensures exists i :: 0 <= i < |steps| && steps[i] == DoneOriginals(steps)[k]
    ensures DoneOriginals(steps)[k].status.Done? && !IsCompensation(DoneOriginals(steps)[k].action)
  {
    var m := |steps| - 1;
    if k < |DoneOriginals(steps[..m])| {
      DoneOriginalsAreRows(steps[..m], k);
      var i :| 0 <= i < m && steps[..m][i] == DoneOriginals(steps[..m])[k];
      assert steps[i] == DoneOriginals(steps)[k];
    }
  }

  /** More DONE rows, at least as many DONE originals, and never more than rows. */
  lemma {:induction false} DoneCountMonotone(s: seq<StepRow>, t: seq<StepRow>)
    requires |s| == |t|
    requires forall i :: 0 <= i < |s| ==> SameButStatus(s[i], t[i]) && (s[i].status.Done? ==> t[i].status.Done?)
    ensures |DoneOriginals(s)| <= |DoneOriginals(t)| <= |t|
  {
    if s != [] {
      DoneCountMonotone(s[..|s| - 1], t[..|t| - 1]);
    }
  }

  /** Compensations are built for DONE originals only, numbered on from n, and exactly as many as wanted. */
  lemma {:induction false} NewCompensationsMeaning(done: seq<StepRow>, want: nat, n: nat)
    requires want <= |done|
    requires forall k :: 0 <= k < |done| ==> ReverseAction(done[k].action).Some?
    ensures var r := NewCompensations(done, want, n);
            && |r| == want
            && (forall i :: 0 <= i < want ==> r[i].stepNo == n + i + 1 && r[i].status.Pending?)
            && (forall i :: 0 <= i < want ==> Reverses(r[i], done[|done| - 1 - i]))
    decreases |done|
  {
    if want > 0 {
      var rest := done[..|done| - 1];
      NewCompensationsMeaning(rest, want - 1, n + 1);
      var r := NewCompensations(done, want, n);
      var tail := NewCompensations(rest, want - 1, n + 1);
      forall i | 0 <= i < want
        ensures r[i].stepNo == n + i + 1 && r[i].status.Pending? && Reverses(r[i], done[|done| - 1 - i])
      {
        if i > 0 { assert r[i] == tail[i - 1]; }
      }
    }
  }

  // ---------- what is published ----------

  /** These indices, in order, are exactly those of the PENDING rows. */
  ghost predicate ArePending(steps: seq<StepRow>, at: seq<nat>) {
    && (forall k :: 0 <= k < |at| ==> at[k] < |steps| && steps[at[k]].status.Pending?)
    && (forall j, k :: 0 <= j < k < |at| ==> at[j] < at[k])
    && (forall i :: 0 <= i < |steps| && steps[i].status.Pending? ==> i in at)
  }

  /** The published rows are exactly the PENDING ones, each once and in order. */
  lemma {:induction false} PublishedRows(steps: seq<StepRow>) returns (at: seq<nat>)
    ensures ArePending(steps, at) && |PendingRows(steps)| == |at|
    ensures forall k :: 0 <= k < |at| ==> PendingRows(steps)[k] == steps[at[k]]
  {
    if steps == [] {
      at := [];
    } else {
      var n := |steps| - 1;
      var before := PublishedRows(steps[..n]);
      at := if steps[n].status.Pending? then before + [n] else before;
      PendingSnoc(steps, before);
      hide ArePending;
    }
  }

  lemma PendingSnoc(steps: seq<StepRow>, at: seq<nat>)
    requires steps != [] && ArePending(steps[..|steps| - 1], at)
    ensures var n := |steps| - 1; ArePending(steps, if steps[n].status.Pending? then at + [n] else at)
    ensures forall k :: 0 <= k < |at| ==> at[k] < |steps| - 1 && steps[..|steps| - 1][at[k]] == steps[at[k]]
  {
    var n := |steps| - 1;
    var at' := if steps[n].status.Pending? then at + [n] else at;
    forall i | 0 <= i < |steps| && steps[i].status.Pending? ensures i in at' {
      if i < n { assert steps[..n][i].status.Pending?; }
    }
  }

  /** As a set: the PENDING rows. */
  lemma {:induction false} PublishedIsPending(steps: seq<StepRow>, row: StepRow)
    ensures row in PendingRows(steps) <==> row in steps && row.status.Pending?
  {
    if steps != [] {
      var n := |steps| - 1;
      PublishedIsPending(steps[..n], row);
      assert steps == steps[..n] + [steps[n]];
    }
  }

  /** A new transaction publishes every requested step. */
  lemma {:induction false} AllPendingPublished(steps: seq<StepRow>)
    requires forall i :: 0 <= i < |steps| ==> steps[i].status.Pending?
    ensures PendingRows(steps) == steps
  {
    if steps != [] {
      AllPendingPublished(steps[..|steps| - 1]);
      assert steps == steps[..|steps| - 1] + [steps[|steps| - 1]];
    }
  }

  // ---------- what each handler keeps ----------

  /** A status change that never revokes DONE keeps the shape. */
  lemma EvolveKeepsShape(reqs: seq<Request>, s: seq<StepRow>, t: seq<StepRow>)
    requires ValidRequest(reqs) && Shaped(reqs, s) && |s| == |t| && Evolves(s, t)
    ensures Shaped(reqs, t)
    ensures |DoneOriginals(s[..|reqs|])| <= |DoneOriginals(t[..|reqs|])|
  {
    var n := |reqs|;
    forall i | n <= i < |t| ensures ReversesSomeDone(t[i], t[..n]) {
      assert ReversesSomeDone(s[i], s[..n]);
      var k :| 0 <= k < n && s[..n][k].status.Done? && Reverses(s[i], s[..n][k]);
      assert s[..n][k] == s[k] && t[..n][k] == t[k];
      assert SameButStatus(s[k], t[k]) && SameButStatus(s[i], t[i]);
      assert Reverses(t[i], t[..n][k]);
    }
    DoneCountMonotone(s[..n], t[..n]);
  }

  lemma MarkEvolves(steps: seq<StepRow>, no: nat, from: StepStatus, to: StepStatus)
    requires !from.Done?
    ensures Evolves(steps, Mark(steps, no, from, to))
    ensures !to.Done? ==> NoNewDone(steps, Mark(steps, no, from, to))
  {
  }

  /** Every DONE original can be reversed. */
  lemma DoneOriginalsReversible(reqs: seq<Request>, originals: seq<StepRow>)
    requires ValidRequest(reqs) && |originals| == |reqs|
    requires forall i :: 0 <= i < |reqs| ==> IsRowOf(originals[i], i, reqs[i])
    ensures forall k :: 0 <= k < |DoneOriginals(originals)| ==> ReverseAction(DoneOriginals(originals)[k].action).Some?
  {
    forall k | 0 <= k < |DoneOriginals(originals)|
      ensures ReverseAction(DoneOriginals(originals)[k].action).Some?
    {
      DoneOriginalsAreRows(originals, k);
      var i :| 0 <= i < |originals| && originals[i] == DoneOriginals(originals)[k];
      assert IsRowOf(originals[i], i, reqs[i]);
    }
  }

  /** Rows that reverse DONE originals may be appended. */
  lemma AppendKeepsShape(reqs: seq<Request>, steps: seq<StepRow>, created: seq<StepRow>)
    requires Shaped(reqs, steps)
    requires forall i :: 0 <= i < |created| ==> created[i].stepNo == |steps| + i + 1
    requires forall i :: 0 <= i < |created| ==> ReversesSomeDone(created[i], steps[..|reqs|])
    ensures Shaped(reqs, steps + created)
  {
    var n := |reqs|;
    var steps' := steps + created;
    assert steps'[..n] == steps[..n];
    forall i | n <= i < |steps'| ensures ReversesSomeDone(steps'[i], steps'[..n]) {
      if i < |steps| {
        assert ReversesSomeDone(steps[i], steps[..n]);
      } else {
        assert ReversesSomeDone(created[i - |steps|], steps[..n]);
      }
    }
  }

  /** What the creation loop builds on shaped rows: one compensation per missing one, taken from the
      highest-numbered DONE originals down. */
  lemma CreatedRows(reqs: seq<Request>, steps: seq<StepRow>, want: nat)
    requires ValidRequest(reqs) && Shaped(reqs, steps)
    requires want <= |DoneOriginals(steps[..|reqs|])|
    ensures var done := DoneOriginals(steps[..|reqs|]);
            var created := NewCompensations(done, want, MaxNo(steps));
            && |created| == want
            && (forall i :: 0 <= i < want ==> created[i].stepNo == |steps| + i + 1 && created[i].status.Pending?)
            && (forall i :: 0 <= i < want ==> Reverses(created[i], done[|done| - 1 - i]))
            && (forall i :: 0 <= i < want ==> ReversesSomeDone(created[i], steps[..|reqs|]))
  {
    var originals := steps[..|reqs|];
    var done := DoneOriginals(originals);
    NumberedMax(steps);
    DoneOriginalsReversible(reqs, originals);
    NewCompensationsMeaning(done, want, |steps|);
    var created := NewCompensations(done, want, |steps|);
    forall i | 0 <= i < want ensures ReversesSomeDone(created[i], originals) {
      DoneOriginalsAreRows(originals, |done| - 1 - i);
      var p :| 0 <= p < |originals| && originals[p] == done[|done| - 1 - i];
      assert Reverses(created[i], originals[p]);
    }
  }

  lemma AppendCompensations(reqs: seq<Request>, tx: Tx)
    requires ValidRequest(reqs) && WellFormed(reqs, tx) && tx.status.Processing?
    requires |DoneOriginals(tx.steps)| > |Compensations(tx.steps)|
    requires HasOriginal(tx.steps, Failed) || |Compensations(tx.steps)| > 0
    ensures WellFormed(reqs, Advance(tx).0)
    ensures Evolves(tx.steps, Advance(tx).0.steps) && NoNewDone(tx.steps, Advance(tx).0.steps)
  {
    ShapedScan(reqs, tx.steps);
    var n := |reqs|;
    var done := DoneOriginals(tx.steps[..n]);
    var want := |done| - (|tx.steps| - n);
    var created := NewCompensations(done, want, MaxNo(tx.steps));
    CreatedRows(reqs, tx.steps, want);
    AppendKeepsShape(reqs, tx.steps, created);
    assert (tx.steps + created)[..n] == tx.steps[..n];
  }

  /** Status changes that revoke no DONE keep the rows well formed. */
  lemma EvolveKeepsWellFormed(reqs: seq<Request>, tx: Tx, tx': Tx)
    requires ValidRequest(reqs) && WellFormed(reqs, tx)
    requires |tx'.steps| == |tx.steps| && Evolves(tx.steps, tx'.steps)
    requires tx'.status.Committed? ==> tx.status.Committed?
    ensures WellFormed(reqs, tx')
  {
    EvolveKeepsShape(reqs, tx.steps, tx'.steps);
    hide Shaped;
  }

  lemma StatusOnly(reqs: seq<Request>, tx: Tx, tx': Tx)
    requires WellFormed(reqs, tx) && tx'.steps == tx.steps
    requires tx'.status.Committed? ==> |tx.steps| == |reqs| && AllDone(tx.steps)
    ensures WellFormed(reqs, tx') && Evolves(tx.steps, tx'.steps) && NoNewDone(tx.steps, tx'.steps)
  {
  }

  lemma RetryOrSettle(reqs: seq<Request>, tx: Tx)
    requires ValidRequest(reqs) && WellFormed(reqs, tx) && tx.status.Processing?
    requires |DoneOriginals(tx.steps)| <= |Compensations(tx.steps)| && |Compensations(tx.steps)| > 0
    ensures WellFormed(reqs, Advance(tx).0)
    ensures Evolves(tx.steps, Advance(tx).0.steps) && NoNewDone(tx.steps, Advance(tx).0.steps)
  {
    var failed := FirstFailed(Compensations(tx.steps));
    if failed.Some? && Attempts(tx, failed.value.stepNo) < MAX_RETRIES {
      MarkEvolves(tx.steps, failed.value.stepNo, Failed, Pending);
      EvolveKeepsWellFormed(reqs, tx, Advance(tx).0);
    } else {
      StatusOnly(reqs, tx, Advance(tx).0);
    }
  }

  /** advance keeps the rows well formed and turns no row DONE. */
  lemma AdvanceKeeps(reqs: seq<Request>, tx: Tx)
    requires ValidRequest(reqs) && WellFormed(reqs, tx)
    ensures WellFormed(reqs, Advance(tx).0)
    ensures Evolves(tx.steps, Advance(tx).0.steps) && NoNewDone(tx.steps, Advance(tx).0.steps)
  {
    var done, comps := |DoneOriginals(tx.steps)|, |Compensations(tx.steps)|;
    if tx.status.Processing? && (HasOriginal(tx.steps, Failed) || comps > 0) && done > comps {
      AppendCompensations(reqs, tx);
    } else if tx.status.Processing? && comps > 0 {
      RetryOrSettle(reqs, tx);
    } else {
      ShapedScan(reqs, tx.steps);
      StatusOnly(reqs, tx, Advance(tx).0);
    }
  }

  /** Recording a receipt touches the named row only, and never revokes DONE. */
  lemma RecordRows(tx: Tx, no: nat, done: bool)
    requires Numbered(tx.steps)
    ensures var t := Record(tx, no, done).steps;
            && |t| == |tx.steps| && Evolves(tx.steps, t)
            && (forall i :: 0 <= i < |t| && t[i].status.Done? && !tx.steps[i].status.Done? ==> done && i == no - 1)
            && (done && 1 <= no <= |t| ==> t[no - 1].status.Done?)
  {
    NumberedStatus(tx.steps, 0, no);
  }

  /** Marking a numbered row changes it exactly when it stands in the status looked for. */
  lemma MarkChanges(steps: seq<StepRow>, no: nat, from: StepStatus, to: StepStatus)
    requires Numbered(steps) && 1 <= no <= |steps| && from != to
    ensures Mark(steps, no, from, to)
         == if steps[no - 1].status == from then steps[no - 1 := steps[no - 1].(status := to)] else steps
    ensures Mark(steps, no, from, to) == steps <==> steps[no - 1].status != from
  {
    if steps[no - 1].status == from { assert Mark(steps, no, from, to)[no - 1] != steps[no - 1]; }
  }

  /** The receipt writes what it would write atomically if and only if its readings are still right. */
  lemma StaleReadings(tx: Tx, stepRead: StepStatus, txRead: TxStatus, no: nat, done: bool)
    requires Numbered(tx.steps) && 1 <= no <= |tx.steps|
    ensures RecordRead(tx, stepRead, txRead, no, done) == Record(tx, no, done)
       <==> StillRight(tx, stepRead, txRead, tx.steps[no - 1].status, done)
  {
    NumberedStatus(tx.steps, 0, no);
    var to := if done then Done else Failed;
    MarkChanges(tx.steps, no, Pending, to);
    MarkChanges(tx.steps, no, Failed, Done);
  }

  /** What the writes do to the rows, whatever was read: only the named row can turn DONE, and a DONE receipt
      gets it there if and only if it Lands. */
  lemma RecordReadRows(tx: Tx, stepRead: StepStatus, txRead: TxStatus, no: nat, done: bool)
    requires Numbered(tx.steps) && 1 <= no <= |tx.steps|
    ensures var tx' := RecordRead(tx, stepRead, txRead, no, done);
            && |tx'.steps| == |tx.steps| && Evolves(tx.steps, tx'.steps)
            && (forall i :: 0 <= i < |tx.steps| && tx'.steps[i].status.Done? && !tx.steps[i].status.Done? ==> done && i == no - 1)
            && (done ==> (tx'.steps[no - 1].status.Done? <==> Lands(stepRead, tx.steps[no - 1].status)))
            && (tx'.status.Committed? ==> tx.status.Committed?)
  {
  }

  lemma RecordKeeps(reqs: seq<Request>, tx: Tx, no: nat, done: bool)
    requires ValidRequest(reqs) && WellFormed(reqs, tx)
    ensures WellFormed(reqs, Record(tx, no, done))
  {
    RecordRows(tx, no, done);
    hide WellFormed, Evolves;
    EvolveKeepsWellFormed(reqs, tx, Record(tx, no, done));
  }

  /** A receipt, in any state: only the step it names can turn DONE, and does when it reports DONE. */
  lemma ReceiptKeeps(reqs: seq<Request>, tx: Tx, no: nat, done: bool)
    requires ValidRequest(reqs) && WellFormed(reqs, tx)
    ensures var tx' := HandleReceipt(tx, no, done).0;
            && WellFormed(reqs, tx') && Evolves(tx.steps, tx'.steps)
            && (forall i :: 0 <= i < |tx.steps| && tx'.steps[i].status.Done? && !tx.steps[i].status.Done?
                  ==> done && i == no - 1)
            && (done && 1 <= no <= |tx.steps| ==> tx'.steps[no - 1].status.Done?)
  {
    NumberedStatus(tx.steps, 0, no);
    RecordRows(tx, no, done);
    RecordKeeps(reqs, tx, no, done);
    AdvanceKeeps(reqs, Record(tx, no, done));
    hide WellFormed, Advance, Record, StatusOf;
  }

  lemma FailPendingKeeps(reqs: seq<Request>, tx: Tx)
    requires ValidRequest(reqs) && WellFormed(reqs, tx) && tx.status.Processing?
    ensures WellFormed(reqs, tx.(steps := FailPending(tx.steps)))
    ensures Evolves(tx.steps, FailPending(tx.steps)) && NoNewDone(tx.steps, FailPending(tx.steps))
  {
    hide WellFormed;
    EvolveKeepsWellFormed(reqs, tx, tx.(steps := FailPending(tx.steps)));
  }

  lemma ExpireKeeps(reqs: seq<Request>, tx: Tx)
    requires ValidRequest(reqs) && WellFormed(reqs, tx)
    ensures WellFormed(reqs, Expire(tx).0)
    ensures Evolves(tx.steps, Expire(tx).0.steps) && NoNewDone(tx.steps, Expire(tx).0.steps)
  {
    hide WellFormed, Advance, FailPending;
    if tx.status.Processing? {
      var tx' := tx.(steps := FailPending(tx.steps));
      FailPendingKeeps(reqs, tx);
      AdvanceKeeps(reqs, tx');
    }
  }

  lemma RegisterWellFormed(reqs: seq<Request>)
    requires ValidRequest(reqs)
    ensures WellFormed(reqs, Register(reqs))
  {
  }

  /** COMMITTED is absorbing: no receipt and no timeout changes a committed transaction in any way, so no
      compensation is ever created for it. */
  lemma CommittedIsFinal(reqs: seq<Request>, tx: Tx, no: nat, done: bool)
    requires ValidRequest(reqs) && WellFormed(reqs, tx) && tx.status.Committed?
    ensures Record(tx, no, done) == tx && Advance(tx) == (tx, false)
    ensures HandleReceipt(tx, no, done) == (tx, false)
    ensures Expire(tx) == (tx, false)
  {
    NumberedStatus(tx.steps, 0, no);
    assert Mark(tx.steps, no, Pending, if done then Done else Failed) == tx.steps;
  }
}
