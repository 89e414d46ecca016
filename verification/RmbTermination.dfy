/** A transaction cannot change forever. Within one coordinator lifetime every handler call either leaves
    the transaction as it is or lowers a measure, so n steps allow at most 22n + 1 changes, whatever the
    broker and the units do. Over any number of lifetimes COMPENSATED is left at most once per original. */
module RmbTermination {
  import opened Common
  import opened Contracts
  import opened RmbCore
  import opened RmbRows
  import opened RmbProtocol

  /** The retry counters belong to compensations and stay within the limit; COMPENSATED means that every
      compensation is DONE. */
  ghost predicate Bounded(reqs: seq<Request>, tx: Tx) {
    && WellFormed(reqs, tx)
    && (forall no :: no in tx.attempts ==> |reqs| < no <= |tx.steps| && tx.attempts[no] <= MAX_RETRIES)
    && (tx.status.Compensated? ==> forall i :: |reqs| <= i < |tx.steps| ==> tx.steps[i].status.Done?)
  }

  /** How many more changes a row can make. */
  function RowRank(n: nat, row: StepRow, attempts: map<nat, nat>): nat {
    var left := if row.stepNo <= n then 0
                else if row.stepNo !in attempts then 2 * MAX_RETRIES
                else if attempts[row.stepNo] < MAX_RETRIES then 2 * (MAX_RETRIES - attempts[row.stepNo])
                else 0;
    match row.status
    case Pending => left + 2
    case Failed => left + 1
    case Done => 0
  }

  function Ranks(n: nat, steps: seq<StepRow>, attempts: map<nat, nat>): nat {
    if steps == [] then 0
    else Ranks(n, steps[..|steps| - 1], attempts) + RowRank(n, steps[|steps| - 1], attempts)
  }

  const NEW_ROW: nat := 2 * MAX_RETRIES + 3

  /** Twice the row changes still possible, counting compensations not yet created, plus the status. */
  ghost function Measure(reqs: seq<Request>, tx: Tx): nat
    requires WellFormed(reqs, tx)
  {
    AtMostTwice(reqs, tx);
    2 * Ranks(|reqs|, tx.steps, tx.attempts) + 2 * NEW_ROW * (2 * |reqs| - |tx.steps|)
    + (if tx.status.Processing? then 1 else 0)
  }

  lemma AtMostTwice(reqs: seq<Request>, tx: Tx)
    requires WellFormed(reqs, tx)
    ensures |tx.steps| <= 2 * |reqs|
  {
    DoneCountMonotone(tx.steps[..|reqs|], tx.steps[..|reqs|]);
  }

  lemma {:induction false} RanksDrop(n: nat, s: seq<StepRow>, a: map<nat, nat>, t: seq<StepRow>, b: map<nat, nat>)
    requires |s| == |t|
    requires forall i :: 0 <= i < |s| ==> RowRank(n, t[i], b) <= RowRank(n, s[i], a)
    ensures Ranks(n, t, b) <= Ranks(n, s, a)
    ensures (exists i :: 0 <= i < |s| && RowRank(n, t[i], b) < RowRank(n, s[i], a)) ==> Ranks(n, t, b) < Ranks(n, s, a)
  {
    if s != [] { RanksDrop(n, s[..|s| - 1], a, t[..|t| - 1], b); }
  }

  lemma {:induction false} RanksAppend(n: nat, s: seq<StepRow>, created: seq<StepRow>, a: map<nat, nat>)
    requires forall i :: 0 <= i < |created| ==> RowRank(n, created[i], a) < NEW_ROW
    ensures Ranks(n, s + created, a) <= Ranks(n, s, a) + (NEW_ROW - 1) * |created|
    decreases |created|
  {
    if created == [] {
      assert s + created == s;
    } else {
      var k := |created| - 1;
      RanksAppend(n, s, created[..k], a);
      assert (s + created)[..|s| + k] == s + created[..k];
      assert (s + created)[|s| + k] == created[k];
    }
  }

  /** The transaction is unchanged, or strictly closer to its end. */
  ghost predicate Closer(reqs: seq<Request>, tx: Tx, tx': Tx)
    requires WellFormed(reqs, tx)
  {
    tx' == tx || (WellFormed(reqs, tx') && Measure(reqs, tx') < Measure(reqs, tx))
  }

  lemma MeasureIs(reqs: seq<Request>, tx: Tx)
    requires WellFormed(reqs, tx)
    ensures |tx.steps| <= 2 * |reqs|
    ensures Measure(reqs, tx) == 2 * Ranks(|reqs|, tx.steps, tx.attempts) + 2 * NEW_ROW * (2 * |reqs| - |tx.steps|)
                               + (if tx.status.Processing? then 1 else 0)
  {
    AtMostTwice(reqs, tx);
    hide WellFormed, Ranks;
  }

  /** Rows that only move down the ranks. */
  lemma RowsCloser(reqs: seq<Request>, tx: Tx, tx': Tx, k: nat)
    requires WellFormed(reqs, tx) && WellFormed(reqs, tx') && |tx'.steps| == |tx.steps| && k < |tx.steps|
    requires forall i :: 0 <= i < |tx.steps| ==>
               RowRank(|reqs|, tx'.steps[i], tx'.attempts) <= RowRank(|reqs|, tx.steps[i], tx.attempts)
    requires RowRank(|reqs|, tx'.steps[k], tx'.attempts) < RowRank(|reqs|, tx.steps[k], tx.attempts)
    ensures Closer(reqs, tx, tx')
  {
    hide WellFormed, RowRank, Ranks, Measure;
    RanksDrop(|reqs|, tx.steps, tx.attempts, tx'.steps, tx'.attempts);
    MeasureIs(reqs, tx);
    MeasureIs(reqs, tx');
  }

  /** Recording moves no row up the ranks. */
  lemma RecordRanks(n: nat, tx: Tx, no: nat, done: bool, i: nat)
    requires Numbered(tx.steps) && i < |tx.steps|
    ensures var tx' := Record(tx, no, done);
            && |tx'.steps| == |tx.steps|
            && RowRank(n, tx'.steps[i], tx'.attempts) <= RowRank(n, tx.steps[i], tx.attempts)
            && (tx'.steps[i] != tx.steps[i] ==>
                  RowRank(n, tx'.steps[i], tx'.attempts) < RowRank(n, tx.steps[i], tx.attempts))
  {
    NumberedStatus(tx.steps, 0, no);
  }

  lemma RecordBounded(reqs: seq<Request>, tx: Tx, no: nat, done: bool)
    requires ValidRequest(reqs) && Bounded(reqs, tx)
    ensures Bounded(reqs, Record(tx, no, done))
    ensures Record(tx, no, done).steps == tx.steps ==> Record(tx, no, done) == tx
  {
    RecordKeeps(reqs, tx, no, done);
    RecordRows(tx, no, done);
    NumberedStatus(tx.steps, 0, no);
    hide ValidRequest, DoneOriginals, Reverses, WellFormed;
  }

  lemma RecordCloser(reqs: seq<Request>, tx: Tx, no: nat, done: bool)
    requires ValidRequest(reqs) && Bounded(reqs, tx)
    ensures Bounded(reqs, Record(tx, no, done)) && Closer(reqs, tx, Record(tx, no, done))
  {
    var tx' := Record(tx, no, done);
    RecordBounded(reqs, tx, no, done);
    assert Numbered(tx.steps);
    forall i | 0 <= i < |tx.steps| { RecordRanks(|reqs|, tx, no, done, i); }
    hide ValidRequest, Numbered, WellFormed, Record, RowRank, Measure;
    if tx'.steps != tx.steps {
      RecordRanks(|reqs|, tx, no, done, 0);
      var k :| 0 <= k < |tx.steps| && tx'.steps[k] != tx.steps[k];
      RecordRanks(|reqs|, tx, no, done, k);
      RowsCloser(reqs, tx, tx', k);
    }
  }

  lemma FailPendingCloser(reqs: seq<Request>, tx: Tx)
    requires ValidRequest(reqs) && Bounded(reqs, tx) && tx.status.Processing?
    ensures var tx' := tx.(steps := FailPending(tx.steps)); Bounded(reqs, tx') && Closer(reqs, tx, tx')
  {
    FailPendingKeeps(reqs, tx);
    var tx' := tx.(steps := FailPending(tx.steps));
    hide ValidRequest, DoneOriginals, Reverses, WellFormed;
    if tx'.steps != tx.steps {
      var k :| 0 <= k < |tx.steps| && tx'.steps[k] != tx.steps[k];
      RowsCloser(reqs, tx, tx', k);
    }
  }

  lemma FreshRowRank(reqs: seq<Request>, tx: Tx, row: StepRow)
    requires Bounded(reqs, tx) && row.stepNo > |tx.steps| && row.status.Pending?
    ensures RowRank(|reqs|, row, tx.attempts) < NEW_ROW
  {
    hide WellFormed;
  }

  lemma AppendedCloser(reqs: seq<Request>, tx: Tx, tx': Tx, created: seq<StepRow>)
    requires Bounded(reqs, tx) && WellFormed(reqs, tx')
    requires created != [] && tx' == tx.(steps := tx.steps + created)
    requires forall i :: 0 <= i < |created| ==> created[i].stepNo == |tx.steps| + i + 1 && created[i].status.Pending?
    ensures Closer(reqs, tx, tx')
  {
    forall i | 0 <= i < |created| ensures RowRank(|reqs|, created[i], tx.attempts) < NEW_ROW {
      FreshRowRank(reqs, tx, created[i]);
    }
    hide Bounded, WellFormed, Ranks, RowRank, Measure;
    RanksAppend(|reqs|, tx.steps, created, tx.attempts);
    MeasureIs(reqs, tx);
    MeasureIs(reqs, tx');
  }

  /** The rows the creation branch appends. */
  lemma CreationResult(reqs: seq<Request>, tx: Tx) returns (created: seq<StepRow>)
    requires ValidRequest(reqs) && WellFormed(reqs, tx) && tx.status.Processing?
    requires |DoneOriginals(tx.steps)| > |Compensations(tx.steps)|
    requires HasOriginal(tx.steps, Failed) || |Compensations(tx.steps)| > 0
    ensures created != [] && Advance(tx).0 == tx.(steps := tx.steps + created)
    ensures forall i :: 0 <= i < |created| ==> created[i].stepNo == |tx.steps| + i + 1 && created[i].status.Pending?
  {
    ShapedScan(reqs, tx.steps);
    var want := |DoneOriginals(tx.steps)| - |Compensations(tx.steps)|;
    CreatedRows(reqs, tx.steps, want);
    hide ValidRequest, DoneOriginals, Compensations, Reverses, Shaped, NewCompensations, HasOriginal, MaxNo;
    created := NewCompensations(DoneOriginals(tx.steps), want, MaxNo(tx.steps));
  }

  lemma CreationCloser(reqs: seq<Request>, tx: Tx)
    requires ValidRequest(reqs) && Bounded(reqs, tx) && tx.status.Processing?
    requires |DoneOriginals(tx.steps)| > |Compensations(tx.steps)|
    requires HasOriginal(tx.steps, Failed) || |Compensations(tx.steps)| > 0
    ensures Bounded(reqs, Advance(tx).0) && Closer(reqs, tx, Advance(tx).0)
  {
    hide ValidRequest, DoneOriginals, Compensations, WellFormed, Advance, HasOriginal, Closer;
    AppendCompensations(reqs, tx);
    var created := CreationResult(reqs, tx);
    AppendedCloser(reqs, tx, Advance(tx).0, created);
  }

  /** Resetting failed compensation k for one more attempt. */
  lemma ResetCloser(reqs: seq<Request>, tx: Tx, tx': Tx, k: nat)
    requires Bounded(reqs, tx) && tx.status.Processing? && WellFormed(reqs, tx')
    requires |reqs| <= k < |tx.steps| && tx.steps[k].status.Failed? && Attempts(tx, k + 1) < MAX_RETRIES
    requires tx' == Tx(Processing, Mark(tx.steps, k + 1, Failed, Pending), tx.attempts[k + 1 := Attempts(tx, k + 1) + 1])
    ensures Bounded(reqs, tx') && Closer(reqs, tx, tx')
  {
    assert Numbered(tx.steps);
    hide WellFormed, Closer;
    RowsCloser(reqs, tx, tx', k);
  }

  /** The row the retry branch addresses. */
  lemma FailedCompensation(reqs: seq<Request>, tx: Tx) returns (k: nat)
    requires ValidRequest(reqs) && WellFormed(reqs, tx) && FirstFailed(Compensations(tx.steps)).Some?
    ensures |reqs| <= k < |tx.steps| && tx.steps[k].status.Failed?
    ensures FirstFailed(Compensations(tx.steps)).value == tx.steps[k] && tx.steps[k].stepNo == k + 1
  {
    ShapedScan(reqs, tx.steps);
    var comps := tx.steps[|reqs|..];
    FirstFailedIsFailed(comps);
    var j :| 0 <= j < |comps| && comps[j] == FirstFailed(comps).value;
    k := |reqs| + j;
  }

  /** The retry branch of advance. */
  lemma RetryResult(tx: Tx)
    requires tx.status.Processing? && 0 < |Compensations(tx.steps)|
    requires |DoneOriginals(tx.steps)| <= |Compensations(tx.steps)| && FirstFailed(Compensations(tx.steps)).Some?
    ensures var no := FirstFailed(Compensations(tx.steps)).value.stepNo;
            Advance(tx).0 == if Attempts(tx, no) >= MAX_RETRIES then tx.(status := Aborted)
              else Tx(Processing, Mark(tx.steps, no, Failed, Pending), tx.attempts[no := Attempts(tx, no) + 1])
  {
    hide DoneOriginals, Compensations, FirstFailed, Mark, HasOriginal;
  }

  lemma RetryCloser(reqs: seq<Request>, tx: Tx)
    requires ValidRequest(reqs) && Bounded(reqs, tx) && tx.status.Processing?
    requires 0 < |Compensations(tx.steps)| && |DoneOriginals(tx.steps)| <= |Compensations(tx.steps)|
    requires FirstFailed(Compensations(tx.steps)).Some?
    ensures Bounded(reqs, Advance(tx).0) && Closer(reqs, tx, Advance(tx).0)
  {
    hide ValidRequest, DoneOriginals, Compensations, FirstFailed, Mark, WellFormed, Advance, HasOriginal, Attempts;
    RetryOrSettle(reqs, tx);
    RetryResult(tx);
    var k := FailedCompensation(reqs, tx);
    if Attempts(tx, k + 1) < MAX_RETRIES {
      hide Closer;
      ResetCloser(reqs, tx, Advance(tx).0, k);
    }
  }

  lemma AdvanceCloser(reqs: seq<Request>, tx: Tx)
    requires ValidRequest(reqs) && Bounded(reqs, tx)
    ensures Bounded(reqs, Advance(tx).0) && Closer(reqs, tx, Advance(tx).0)
  {
    BoundedShape(reqs, tx);
    hide *;
    var done, comps := DoneOriginals(tx.steps), Compensations(tx.steps);
    if !tx.status.Processing? {
      AdvanceIdle(tx);
      CloserSelf(reqs, tx);
    } else if (HasOriginal(tx.steps, Failed) || |comps| > 0) && |done| > |comps| {
      CreationCloser(reqs, tx);
    } else if |comps| > 0 && FirstFailed(comps).Some? {
      RetryCloser(reqs, tx);
    } else {
      AdvanceKeeps(reqs, tx);
      SettledComps(reqs, tx);
      SettledCloser(reqs, tx, Advance(tx).0);
    }
  }

  lemma AdvanceIdle(tx: Tx)
    requires !tx.status.Processing?
    ensures Advance(tx).0 == tx
  {
  }

  lemma BoundedShape(reqs: seq<Request>, tx: Tx)
    requires Bounded(reqs, tx)
    ensures WellFormed(reqs, tx)
  {
  }

  lemma SettledCloser(reqs: seq<Request>, tx: Tx, tx': Tx)
    requires Bounded(reqs, tx) && tx.status.Processing? && WellFormed(reqs, tx')
    requires tx' == tx || tx' == tx.(status := Committed) || tx' == tx.(status := Compensated)
    requires tx'.status.Compensated? ==> forall i :: |reqs| <= i < |tx.steps| ==> tx.steps[i].status.Done?
    ensures Bounded(reqs, tx') && Closer(reqs, tx, tx')
  {
    hide WellFormed, Ranks;
  }

  /** Nothing to create and nothing to retry: at most the status moves, and COMPENSATED only with every
      compensation DONE. */
  lemma SettledComps(reqs: seq<Request>, tx: Tx)
    requires ValidRequest(reqs) && WellFormed(reqs, tx) && tx.status.Processing?
    requires var done, comps := |DoneOriginals(tx.steps)|, |Compensations(tx.steps)|;
             !((HasOriginal(tx.steps, Failed) || comps > 0) && done > comps)
             && !(comps > 0 && FirstFailed(Compensations(tx.steps)).Some?)
    ensures Advance(tx).0 == tx || Advance(tx).0 == tx.(status := Committed) || Advance(tx).0 == tx.(status := Compensated)
    ensures Advance(tx).0.status.Compensated? ==> forall i :: |reqs| <= i < |tx.steps| ==> tx.steps[i].status.Done?
  {
    assert |reqs| <= |tx.steps|;
    ShapedScan(reqs, tx.steps);
    var comps := Compensations(tx.steps);
    hide WellFormed, ValidRequest, Shaped, DoneOriginals, Compensations, HasOriginal;
    if Advance(tx).0.status.Compensated? && |comps| > 0 {
      forall i | |reqs| <= i < |tx.steps| ensures tx.steps[i].status.Done? { assert comps[i - |reqs|] == tx.steps[i]; }
    }
  }

  lemma CloserTransitive(reqs: seq<Request>, a: Tx, b: Tx, c: Tx)
    requires WellFormed(reqs, a) && WellFormed(reqs, b) && Closer(reqs, a, b) && Closer(reqs, b, c)
    ensures Closer(reqs, a, c)
  {
  }

  /** A receipt leaves the transaction as it is or brings it closer to its end. */
  lemma ReceiptCloser(reqs: seq<Request>, tx: Tx, no: nat, done: bool)
    requires ValidRequest(reqs) && Bounded(reqs, tx)
    ensures Bounded(reqs, HandleReceipt(tx, no, done).0) && Closer(reqs, tx, HandleReceipt(tx, no, done).0)
  {
    hide WellFormed, ValidRequest, Closer, Advance, Record, StatusOf;
    RecordCloser(reqs, tx, no, done);
    AdvanceCloser(reqs, Record(tx, no, done));
    CloserSelf(reqs, tx);
    CloserTransitive(reqs, tx, Record(tx, no, done), Advance(Record(tx, no, done)).0);
  }

  /** So does a timeout. */
  lemma ExpireCloser(reqs: seq<Request>, tx: Tx)
    requires ValidRequest(reqs) && Bounded(reqs, tx)
    ensures Bounded(reqs, Expire(tx).0) && Closer(reqs, tx, Expire(tx).0)
  {
    hide WellFormed, ValidRequest, Closer, Advance, FailPending, Compensations;
    CloserSelf(reqs, tx);
    if tx.status.Processing? {
      var failed := tx.(steps := FailPending(tx.steps));
      FailPendingCloser(reqs, tx);
      AdvanceCloser(reqs, failed);
      CloserTransitive(reqs, tx, failed, Advance(failed).0);
    }
  }

  lemma CloserSelf(reqs: seq<Request>, tx: Tx)
    requires WellFormed(reqs, tx)
    ensures Closer(reqs, tx, tx)
  {
  }

  lemma StepCloser(id: string, reqs: seq<Request>, l: World, e: Event)
    requires ValidRequest(reqs) && Bounded(reqs, l.tx)
    ensures Bounded(reqs, Step(id, l, e).tx)
    ensures !e.Restart? ==> Closer(reqs, l.tx, Step(id, l, e).tx)
  {
    if !Enabled(l, e) { return; }
    hide HandleReceipt, Advance, Record, RecordRead, StillRight, Expire, WellFormed, UnitStep, Sent, Measure;
    match e
    case DeliverReceipt(m, _) => ReceiptCloser(reqs, l.tx, m.stepNo, m.done);
    case TakeReceipt(m, stepRead, txRead) =>
      TakenIsRecorded(reqs, l, m, stepRead, txRead);
      RecordCloser(reqs, l.tx, m.stepNo, m.done);
    case FinishReceipt(m, _) => AdvanceCloser(reqs, l.tx);
    case Timeout(_) => ExpireCloser(reqs, l.tx);
    case TimeoutInterrupted => if l.tx.status.Processing? { FailPendingCloser(reqs, l.tx); }
    case Restart => RestartBounded(reqs, l.tx);
    case _ =>
  }

  lemma RestartBounded(reqs: seq<Request>, tx: Tx)
    requires Bounded(reqs, tx)
    ensures Bounded(reqs, tx.(attempts := map[]))
  {
  }

  // ---------- over runs ----------

  /** How many events of the run changed the transaction. */
  function Changes(id: string, l: World, run: seq<Event>): nat {
    if run == [] then 0
    else
      var before := Exec(id, l, run[..|run| - 1]);
      Changes(id, l, run[..|run| - 1]) + (if Step(id, before, run[|run| - 1]).tx == before.tx then 0 else 1)
  }

  /** How many events of the run took the transaction out of COMPENSATED. */
  function Reopenings(id: string, l: World, run: seq<Event>): nat {
    if run == [] then 0
    else
      var before := Exec(id, l, run[..|run| - 1]);
      var after := Step(id, before, run[|run| - 1]);
      Reopenings(id, l, run[..|run| - 1])
      + (if before.tx.status.Compensated? && after.tx != before.tx && after.tx.status != before.tx.status then 1 else 0)
  }

  /** Within one lifetime, changes so far and changes still possible never exceed the initial measure. */
  lemma {:induction false} ChangesBounded(id: string, reqs: seq<Request>, l: World, run: seq<Event>)
    requires ValidRequest(reqs) && Bounded(reqs, l.tx)
    requires forall i :: 0 <= i < |run| ==> !run[i].Restart?
    ensures Bounded(reqs, Exec(id, l, run).tx)
    ensures Changes(id, l, run) + Measure(reqs, Exec(id, l, run).tx) <= Measure(reqs, l.tx)
  {
    hide WellFormed, Step, Measure;
    if run != [] {
      var prefix := run[..|run| - 1];
      ChangesBounded(id, reqs, l, prefix);
      StepCloser(id, reqs, Exec(id, l, prefix), run[|run| - 1]);
    }
  }

  lemma {:induction false} FreshRanks(n: nat, steps: seq<StepRow>)
    requires forall i :: 0 <= i < |steps| ==> steps[i].stepNo <= n && steps[i].status.Pending?
    ensures Ranks(n, steps, map[]) == 2 * |steps|
  {
    if steps != [] { FreshRanks(n, steps[..|steps| - 1]); }
  }

  lemma StartMeasure(reqs: seq<Request>)
    requires ValidRequest(reqs)
    ensures Bounded(reqs, Register(reqs)) && Measure(reqs, Register(reqs)) == 22 * |reqs| + 1
  {
    RegisterWellFormed(reqs);
    FreshRanks(|reqs|, Register(reqs).steps);
    hide WellFormed, ValidRequest, Ranks;
  }

  /** MAIN THEOREM. A transaction of n steps changes at most 22n + 1 times in one coordinator lifetime. */
  lemma BoundedChanges(id: string, reqs: seq<Request>, lost: set<nat>, run: seq<Event>)
    requires ValidRequest(reqs)
    requires forall i :: 0 <= i < |run| ==> !run[i].Restart?
    ensures Changes(id, Start(reqs, lost), run) <= 22 * |reqs| + 1
  {
    hide Bounded, Measure;
    StartMeasure(reqs);
    ChangesBounded(id, reqs, Start(reqs, lost), run);
  }

  /** The number of DONE originals. */
  function DoneNow(reqs: seq<Request>, tx: Tx): nat
    requires |reqs| <= |tx.steps|
  {
    |DoneOriginals(tx.steps[..|reqs|])|
  }

  lemma {:induction false} DoneCountStrict(s: seq<StepRow>, t: seq<StepRow>, k: nat)
    requires |s| == |t| && k < |s|
    requires forall i :: 0 <= i < |s| ==> SameButStatus(s[i], t[i]) && (s[i].status.Done? ==> t[i].status.Done?)
    requires !IsCompensation(s[k].action) && !s[k].status.Done? && t[k].status.Done?
    ensures |DoneOriginals(s)| < |DoneOriginals(t)|
  {
    var n := |s| - 1;
    DoneCountMonotone(s[..n], t[..n]);
    if k < n { DoneCountStrict(s[..n], t[..n], k); }
  }

  /** COMPENSATED is left only by a late DONE of an original, which is then DONE for good. */
  lemma ReopeningCounts(reqs: seq<Request>, tx: Tx, no: nat, done: bool)
    requires ValidRequest(reqs) && Bounded(reqs, tx)
    ensures |HandleReceipt(tx, no, done).0.steps| >= |reqs|
    ensures DoneNow(reqs, HandleReceipt(tx, no, done).0) >= DoneNow(reqs, tx)
    ensures tx.status.Compensated? && HandleReceipt(tx, no, done).0.status != Compensated ==>
              DoneNow(reqs, HandleReceipt(tx, no, done).0) > DoneNow(reqs, tx)
  {
    ReceiptKeeps(reqs, tx, no, done);
    NumberedStatus(tx.steps, 0, no);
    var n, s, t := |reqs|, tx.steps, HandleReceipt(tx, no, done).0.steps;
    DoneCountMonotone(s[..n], t[..n]);
    if tx.status.Compensated? && HandleReceipt(tx, no, done).0.status != Compensated {
      assert done && 1 <= no <= |s| && s[no - 1].status.Failed?;
      assert no <= n && IsRowOf(s[no - 1], no - 1, reqs[no - 1]);
      hide HandleReceipt, WellFormed, Shaped;
      DoneCountStrict(s[..n], t[..n], no - 1);
    }
  }

  /** The same of its recording alone. */
  lemma ReopeningRecord(reqs: seq<Request>, tx: Tx, no: nat, done: bool)
    requires ValidRequest(reqs) && Bounded(reqs, tx)
    ensures |Record(tx, no, done).steps| >= |reqs|
    ensures DoneNow(reqs, Record(tx, no, done)) >= DoneNow(reqs, tx)
    ensures tx.status.Compensated? && Record(tx, no, done).status != Compensated ==>
              DoneNow(reqs, Record(tx, no, done)) > DoneNow(reqs, tx)
  {
    RecordRows(tx, no, done);
    NumberedStatus(tx.steps, 0, no);
    var n, s, t := |reqs|, tx.steps, Record(tx, no, done).steps;
    DoneCountMonotone(s[..n], t[..n]);
    if tx.status.Compensated? && Record(tx, no, done).status != Compensated {
      assert done && 1 <= no <= |s| && s[no - 1].status.Failed?;
      assert no <= n && IsRowOf(s[no - 1], no - 1, reqs[no - 1]);
      hide Record, WellFormed, Shaped;
      DoneCountStrict(s[..n], t[..n], no - 1);
    }
  }

  lemma EvolvesDone(reqs: seq<Request>, tx: Tx, tx': Tx)
    requires |reqs| <= |tx.steps| && Evolves(tx.steps, tx'.steps)
    ensures |reqs| <= |tx'.steps| && DoneNow(reqs, tx') >= DoneNow(reqs, tx)
  {
    DoneCountMonotone(tx.steps[..|reqs|], tx'.steps[..|reqs|]);
  }

  lemma ReopeningStep(id: string, reqs: seq<Request>, l: World, e: Event)
    requires ValidRequest(reqs) && Bounded(reqs, l.tx)
    ensures |Step(id, l, e).tx.steps| >= |reqs|
    ensures DoneNow(reqs, Step(id, l, e).tx) >= DoneNow(reqs, l.tx)
    ensures l.tx.status.Compensated? && Step(id, l, e).tx.status != Compensated ==>
              DoneNow(reqs, Step(id, l, e).tx) > DoneNow(reqs, l.tx)
  {
    if !Enabled(l, e) { return; }
    hide HandleReceipt, Record, RecordRead, StillRight, DoneNow, Shaped, UnitStep, Sent;
    match e
    case DeliverReceipt(m, _) => ReopeningCounts(reqs, l.tx, m.stepNo, m.done);
    case TakeReceipt(m, stepRead, txRead) =>
      TakenIsRecorded(reqs, l, m, stepRead, txRead);
      ReopeningRecord(reqs, l.tx, m.stepNo, m.done);
    case FinishReceipt(m, _) => AdvanceKeeps(reqs, l.tx); EvolvesDone(reqs, l.tx, Advance(l.tx).0);
    case Timeout(_) => ExpireKeeps(reqs, l.tx); EvolvesDone(reqs, l.tx, Expire(l.tx).0);
    case TimeoutInterrupted => EvolvesDone(reqs, l.tx, l.tx.(steps := FailPending(l.tx.steps)));
    case Restart =>
      assert l.tx.(attempts := map[]).steps == l.tx.steps;
      EvolvesDone(reqs, l.tx, l.tx.(attempts := map[]));
    case _ =>
  }

  /** MAIN THEOREM. Over every run, restarts included, COMPENSATED is left at most once per DONE original. */
  lemma {:induction false} ReopenedOncePerOriginal(id: string, reqs: seq<Request>, lost: set<nat>, run: seq<Event>)
    requires ValidRequest(reqs)
    ensures var tx := Exec(id, Start(reqs, lost), run).tx;
            && Bounded(reqs, tx)
            && Reopenings(id, Start(reqs, lost), run) <= DoneNow(reqs, tx) <= |reqs|
  {
    var l0 := Start(reqs, lost);
    if run == [] {
      RegisterWellFormed(reqs);
      DoneCountMonotone(l0.tx.steps[..|reqs|], l0.tx.steps[..|reqs|]);
    } else {
      var prefix := run[..|run| - 1];
      ReopenedOncePerOriginal(id, reqs, lost, prefix);
      var l := Exec(id, l0, prefix);
      StepCloser(id, reqs, l, run[|run| - 1]);
      ReopeningStep(id, reqs, l, run[|run| - 1]);
      var steps := Step(id, l, run[|run| - 1]).tx.steps;
      DoneCountMonotone(steps[..|reqs|], steps[..|reqs|]);
    }
  }
}
