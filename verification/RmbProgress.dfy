/** What the coordinator decides, row by row, and that every request can commit
    (templates/bank_dcn/internal/rmb/coordinator.go). */
module RmbProgress {
  import opened Common
  import opened Contracts
  import opened Ledger
  import opened DcnSpec
  import opened RmbCore
  import opened RmbRows
  import opened RmbProtocol
  import opened RmbRuns
  import opened RmbTransfer
  import opened RmbConservation
  import opened RmbStale
  import opened RmbDelivery

  // ---------- the decision, in terms of rows ----------

  /** The DONE originals among the first n rows. */
  function DoneSet(steps: seq<StepRow>, n: nat): set<nat>
    requires n <= |steps|
  {
    set i: nat | i < n && steps[i].status.Done?
  }

  lemma {:induction false} DoneSetCount(steps: seq<StepRow>, n: nat)
    requires n <= |steps| && forall i :: 0 <= i < n ==> !IsCompensation(steps[i].action)
    ensures |DoneOriginals(steps[..n])| == |DoneSet(steps, n)|
  {
    if n == 0 {
      assert DoneSet(steps, 0) == {};
    } else {
      DoneSetCount(steps, n - 1);
      assert steps[..n][..n - 1] == steps[..n - 1];
      assert DoneSet(steps, n) == if steps[n - 1].status.Done? then DoneSet(steps, n - 1) + {n - 1} else DoneSet(steps, n - 1);
    }
  }

  predicate SomeRow(steps: seq<StepRow>, from: nat, to: nat, status: StepStatus) {
    exists i :: from <= i < to && i < |steps| && steps[i].status == status
  }

  /** Row k is the first FAILED compensation. */
  predicate FirstFailedRow(steps: seq<StepRow>, n: nat, k: nat) {
    n <= k < |steps| && steps[k].status.Failed? && forall i :: n <= i < k ==> !steps[i].status.Failed?
  }

  /** What a PROCESSING transaction with n originals must become, told from its rows alone. */
  ghost predicate Decided(n: nat, tx: Tx, tx': Tx, publish: bool)
    requires n <= |tx.steps|
  {
    var all := |tx.steps|;
    var missing := |DoneSet(tx.steps, n)| - (all - n);
    if (SomeRow(tx.steps, 0, n, Failed) || all > n) && missing > 0 then
      Compensates(tx, tx', missing) && publish
    else if all > n && SomeRow(tx.steps, n, all, Failed) then
      exists k :: FirstFailedRow(tx.steps, n, k) && Retries(tx, tx', k, publish)
    else if all > n then
      tx' == (if SomeRow(tx.steps, n, all, Pending) then tx else tx.(status := Compensated)) && !publish
    else if SomeRow(tx.steps, 0, n, Failed) then
      tx' == (if SomeRow(tx.steps, 0, n, Pending) then tx else tx.(status := Compensated)) && !publish
    else
      tx' == (if SomeRow(tx.steps, 0, n, Pending) then tx else tx.(status := Committed)) && !publish
  }

  /** The missing compensations are added, PENDING, and nothing else changes. */
  predicate Compensates(tx: Tx, tx': Tx, missing: int) {
    && tx'.status.Processing? && tx'.attempts == tx.attempts
    && |tx'.steps| == |tx.steps| + missing && tx.steps <= tx'.steps
    && forall i :: |tx.steps| <= i < |tx'.steps| ==> tx'.steps[i].status.Pending?
  }

  /** A FAILED compensation gets another attempt; after three the transaction is given up. */
  predicate Retries(tx: Tx, tx': Tx, k: nat, publish: bool)
    requires k < |tx.steps|
  {
    if k + 1 in tx.attempts && tx.attempts[k + 1] >= 3 then tx' == tx.(status := Aborted) && !publish
    else
      && tx' == Tx(Processing, tx.steps[k := tx.steps[k].(status := Pending)],
                   tx.attempts[k + 1 := (if k + 1 in tx.attempts then tx.attempts[k + 1] else 0) + 1])
      && publish
  }

  /** FirstFailed is the first FAILED row. */
  lemma {:induction false} FirstFailedIsFirst(rows: seq<StepRow>)
    ensures FirstFailed(rows).Some? ==>
              exists j :: 0 <= j < |rows| && rows[j] == FirstFailed(rows).value && rows[j].status.Failed?
                          && forall i :: 0 <= i < j ==> !rows[i].status.Failed?
    ensures FirstFailed(rows).None? <==> forall i :: 0 <= i < |rows| ==> !rows[i].status.Failed?
  {
    if rows != [] && !rows[0].status.Failed? {
      FirstFailedIsFirst(rows[1..]);
      if FirstFailed(rows).Some? {
        var j :| 0 <= j < |rows[1..]| && rows[1..][j] == FirstFailed(rows).value && rows[1..][j].status.Failed?
                 && forall i :: 0 <= i < j ==> !rows[1..][i].status.Failed?;
        forall i | 0 <= i < j + 1 ensures !rows[i].status.Failed? { if i > 0 { assert rows[i] == rows[1..][i - 1]; } }
        assert rows[j + 1] == rows[1..][j];
      } else {
        forall i | 0 <= i < |rows| ensures !rows[i].status.Failed? { if i > 0 { assert rows[i] == rows[1..][i - 1]; } }
      }
    }
  }

  /** The scans in terms of rows. */
  lemma ScansAre(reqs: seq<Request>, tx: Tx)
    requires ValidRequest(reqs) && WellFormed(reqs, tx)
    ensures var n, all := |reqs|, |tx.steps|;
            && n <= all && |DoneOriginals(tx.steps)| == |DoneSet(tx.steps, n)| && |Compensations(tx.steps)| == all - n
            && (HasOriginal(tx.steps, Failed) <==> SomeRow(tx.steps, 0, n, Failed))
            && (HasOriginal(tx.steps, Pending) <==> SomeRow(tx.steps, 0, n, Pending))
            && Compensations(tx.steps) == tx.steps[n..]
  {
    ShapedScan(reqs, tx.steps);
    forall i | 0 <= i < |reqs| ensures !IsCompensation(tx.steps[i].action) { OriginalAction(reqs, tx, i); }
    DoneSetCount(tx.steps, |reqs|);
    OriginalStatus(reqs, tx, Failed);
    OriginalStatus(reqs, tx, Pending);
    hide ValidRequest, WellFormed, DoneOriginals, Compensations, DoneSet, HasOriginal, SomeRow;
    KnownOriginals(reqs, tx);
  }

  lemma OriginalStatus(reqs: seq<Request>, tx: Tx, status: StepStatus)
    requires ValidRequest(reqs) && WellFormed(reqs, tx)
    ensures HasOriginal(tx.steps, status) <==> SomeRow(tx.steps, 0, |reqs|, status)
  {
    KnownOriginals(reqs, tx);
    forall i | 0 <= i < |tx.steps| ensures IsCompensation(tx.steps[i].action) <==> i >= |reqs| {
      if i < |reqs| { OriginalAction(reqs, tx, i); } else { assert ReversesSomeDone(tx.steps[i], tx.steps[..|reqs|]); }
    }
    hide ValidRequest, WellFormed;
    if HasOriginal(tx.steps, status) {
      var i :| 0 <= i < |tx.steps| && !IsCompensation(tx.steps[i].action) && tx.steps[i].status == status;
      assert i < |reqs|;
    }
  }

  /** MAIN THEOREM. advance decides exactly so, for every well formed transaction of any number of steps. */
  lemma AdvanceDecides(reqs: seq<Request>, tx: Tx)
    requires ValidRequest(reqs) && WellFormed(reqs, tx)
    ensures |reqs| <= |tx.steps|
    ensures tx.status.Processing? ==> Decided(|reqs|, tx, Advance(tx).0, Advance(tx).1)
    ensures !tx.status.Processing? ==> Advance(tx) == (tx, false)
  {
    ScansAre(reqs, tx);
    if tx.status.Processing? {
      var n, all := |reqs|, |tx.steps|;
      var missing := |DoneSet(tx.steps, n)| - (all - n);
      hide ValidRequest, WellFormed, DoneSet, DoneOriginals, Compensations, HasOriginal, SomeRow;
      if (SomeRow(tx.steps, 0, n, Failed) || all > n) && missing > 0 {
        AdvanceCompensates(reqs, tx, missing);
      } else if all > n {
        AdvanceSettlesOrRetries(reqs, tx);
      } else {
        AdvanceFinishes(reqs, tx);
      }
    }
  }

  lemma CompensateBranch(tx: Tx)
    requires tx.status.Processing? && (HasOriginal(tx.steps, Failed) || |Compensations(tx.steps)| > 0)
    requires |DoneOriginals(tx.steps)| > |Compensations(tx.steps)|
    ensures var missing := |DoneOriginals(tx.steps)| - |Compensations(tx.steps)|;
            Advance(tx)
            == (tx.(steps := tx.steps + NewCompensations(DoneOriginals(tx.steps), missing, MaxNo(tx.steps))), true)
  {
    hide DoneOriginals, Compensations, HasOriginal, NewCompensations, MaxNo;
  }

  lemma AdvanceCompensates(reqs: seq<Request>, tx: Tx, missing: int)
    requires ValidRequest(reqs) && WellFormed(reqs, tx) && tx.status.Processing?
    requires HasOriginal(tx.steps, Failed) || |Compensations(tx.steps)| > 0
    requires missing == |DoneOriginals(tx.steps)| - |Compensations(tx.steps)| > 0
    ensures Compensates(tx, Advance(tx).0, missing) && Advance(tx).1
  {
    ShapedScan(reqs, tx.steps);
    CreatedRows(reqs, tx.steps, missing);
    CompensateBranch(tx);
    hide ValidRequest, WellFormed, DoneOriginals, Compensations, HasOriginal, NewCompensations, MaxNo, Reverses, ReversesSomeDone,
         Advance, Shaped;
  }

  /** The branches of advance once no compensation is missing. */
  lemma RetryBranch(tx: Tx)
    requires tx.status.Processing? && |DoneOriginals(tx.steps)| <= |Compensations(tx.steps)| && |Compensations(tx.steps)| > 0
    requires FirstFailed(Compensations(tx.steps)).Some?
    ensures var no := FirstFailed(Compensations(tx.steps)).value.stepNo;
            Advance(tx) == if Attempts(tx, no) >= 3 then (tx.(status := Aborted), false)
              else (Tx(Processing, Mark(tx.steps, no, Failed, Pending), tx.attempts[no := Attempts(tx, no) + 1]), true)
  {
    hide DoneOriginals, Compensations, FirstFailed, Mark, HasOriginal;
  }

  lemma SettleBranch(tx: Tx)
    requires tx.status.Processing? && |DoneOriginals(tx.steps)| <= |Compensations(tx.steps)| && |Compensations(tx.steps)| > 0
    requires FirstFailed(Compensations(tx.steps)).None?
    ensures Advance(tx) == (if AllDone(Compensations(tx.steps)) then tx.(status := Compensated) else tx, false)
  {
    hide DoneOriginals, Compensations, FirstFailed, HasOriginal, AllDone;
  }

  /** The first FAILED compensation, as a row. */
  lemma FailedRow(steps: seq<StepRow>, n: nat) returns (k: nat)
    requires n <= |steps| && Numbered(steps)
    ensures FirstFailed(steps[n..]).None? <==> !SomeRow(steps, n, |steps|, Failed)
    ensures FirstFailed(steps[n..]).Some? ==>
              k < |steps| && FirstFailedRow(steps, n, k) && FirstFailed(steps[n..]).value == steps[k] && steps[k].stepNo == k + 1
  {
    var rows := steps[n..];
    FirstFailedIsFirst(rows);
    hide FirstFailed;
    if FirstFailed(rows).Some? {
      var j :| 0 <= j < |rows| && rows[j] == FirstFailed(rows).value && rows[j].status.Failed?
               && forall i :: 0 <= i < j ==> !rows[i].status.Failed?;
      k := n + j;
      forall i | n <= i < k ensures !steps[i].status.Failed? { assert rows[i - n] == steps[i]; }
      assert rows[j] == steps[k];
    } else {
      k := 0;
      forall i | n <= i < |steps| ensures !steps[i].status.Failed? { assert rows[i - n] == steps[i]; }
    }
  }

  lemma AdvanceSettlesOrRetries(reqs: seq<Request>, tx: Tx)
    requires ValidRequest(reqs) && WellFormed(reqs, tx) && tx.status.Processing? && |reqs| < |tx.steps|
    requires |DoneOriginals(tx.steps)| <= |Compensations(tx.steps)| == |tx.steps| - |reqs|
    requires Compensations(tx.steps) == tx.steps[|reqs|..]
    ensures var n, all := |reqs|, |tx.steps|;
            if SomeRow(tx.steps, n, all, Failed) then
              exists k :: FirstFailedRow(tx.steps, n, k) && Retries(tx, Advance(tx).0, k, Advance(tx).1)
            else
              Advance(tx) == (if SomeRow(tx.steps, n, all, Pending) then tx else tx.(status := Compensated), false)
  {
    var n := |reqs|;
    hide *;
    WellFormedNumbered(reqs, tx);
    var k := FailedRow(tx.steps, n);
    if SomeRow(tx.steps, n, |tx.steps|, Failed) {
      RetryBranch(tx);
      RetriesRow(tx, n, k);
    } else {
      NoneFailed(tx.steps, n);
      CompsSettled(tx.steps, n);
      SettleBranch(tx);
    }
  }

  lemma NoneFailed(steps: seq<StepRow>, n: nat)
    requires !SomeRow(steps, n, |steps|, Failed)
    ensures forall i :: n <= i < |steps| ==> !steps[i].status.Failed?
  {
  }

  lemma RetriesRow(tx: Tx, n: nat, k: nat)
    requires Numbered(tx.steps) && FirstFailedRow(tx.steps, n, k)
    ensures k < |tx.steps|
    ensures Attempts(tx, k + 1) >= 3 ==> Retries(tx, tx.(status := Aborted), k, false)
    ensures Attempts(tx, k + 1) < 3 ==>
              Retries(tx, Tx(Processing, Mark(tx.steps, k + 1, Failed, Pending), tx.attempts[k + 1 := Attempts(tx, k + 1) + 1]), k, true)
  {
    MarkChanges(tx.steps, k + 1, Failed, Pending);
    hide Mark;
  }

  /** Without a FAILED row, all are DONE unless one is PENDING. */
  lemma CompsSettled(steps: seq<StepRow>, n: nat)
    requires n <= |steps| && forall i :: n <= i < |steps| ==> !steps[i].status.Failed?
    ensures AllDone(steps[n..]) <==> !SomeRow(steps, n, |steps|, Pending)
  {
    if AllDone(steps[n..]) {
      forall i | n <= i < |steps| ensures steps[i].status.Done? { assert steps[n..][i - n] == steps[i]; }
    }
  }

  lemma AdvanceFinishes(reqs: seq<Request>, tx: Tx)
    requires ValidRequest(reqs) && WellFormed(reqs, tx) && tx.status.Processing? && |tx.steps| == |reqs|
    requires |Compensations(tx.steps)| == 0 && (|DoneOriginals(tx.steps)| == 0 || !HasOriginal(tx.steps, Failed))
    requires HasOriginal(tx.steps, Failed) <==> SomeRow(tx.steps, 0, |reqs|, Failed)
    requires HasOriginal(tx.steps, Pending) <==> SomeRow(tx.steps, 0, |reqs|, Pending)
    ensures Advance(tx) == (if SomeRow(tx.steps, 0, |reqs|, Pending) then tx
                            else if SomeRow(tx.steps, 0, |reqs|, Failed) then tx.(status := Compensated)
                            else tx.(status := Committed), false)
  {
    if !SomeRow(tx.steps, 0, |reqs|, Failed) { CompsSettled(tx.steps, 0); assert tx.steps[0..] == tx.steps; }
    hide ValidRequest, WellFormed, DoneOriginals, Compensations, HasOriginal, SomeRow, AllDone;
  }

  // ---------- every request can commit ----------

  /** The rows with the first k DONE and the rest PENDING. */
  function Progressed(reqs: seq<Request>, k: nat): (r: seq<StepRow>)
    ensures |r| == |reqs|
    ensures forall i :: 0 <= i < |r| ==>
              r[i] == StepRow(i + 1, reqs[i].action, reqs[i].account, reqs[i].amount, if i < k then Done else Pending)
  {
    seq(|reqs|, i requires 0 <= i < |reqs| =>
      StepRow(i + 1, reqs[i].action, reqs[i].account, reqs[i].amount, if i < k then Done else Pending))
  }

  /** Step by step: the unit applies and reports it, the coordinator records it. */
  function Committing(reqs: seq<Request>, k: nat): seq<Event>
    requires k <= |reqs|
  {
    if k == 0 then []
    else
      Committing(reqs, k - 1)
      + [DeliverStep(MessageOf(Progressed(reqs, 0)[k - 1]), true, true), DeliverReceipt(Receipt(k, true), {})]
  }

  /** Where that has led. */
  ghost predicate HasReached(id: string, reqs: seq<Request>, l: World, k: nat) {
    && l.tx == Tx(if k == |reqs| then Committed else Processing, Progressed(reqs, k), map[])
    && l.bag == Sent(Progressed(reqs, k), {}) && l.handling == multiset{}
  }

  lemma ProgressedAdvance(reqs: seq<Request>, k: nat)
    requires ValidRequest(reqs) && 0 < k <= |reqs|
    ensures HandleReceipt(Tx(Processing, Progressed(reqs, k - 1), map[]), k, true)
         == (Tx(if k == |reqs| then Committed else Processing, Progressed(reqs, k), map[]), false)
  {
    var before, after := Tx(Processing, Progressed(reqs, k - 1), map[]), Tx(Processing, Progressed(reqs, k), map[]);
    ProgressedWellFormed(reqs, k);
    assert Numbered(before.steps);
    NumberedStatus(before.steps, 0, k);
    MarkChanges(before.steps, k, Pending, Done);
    assert before.steps[k - 1 := before.steps[k - 1].(status := Done)] == after.steps;
    AdvanceDecides(reqs, after);
    assert !SomeRow(after.steps, 0, |reqs|, Failed);
    if k < |reqs| { assert after.steps[k].status.Pending? && SomeRow(after.steps, 0, |reqs|, Pending); }
    hide ValidRequest, WellFormed, Advance, Mark, DoneSet, Numbered;
  }

  lemma ProgressedWellFormed(reqs: seq<Request>, k: nat)
    requires ValidRequest(reqs) && k <= |reqs|
    ensures WellFormed(reqs, Tx(Processing, Progressed(reqs, k), map[]))
  {
    var steps := Progressed(reqs, k);
    assert steps[..|reqs|] == steps;
  }

  function SentOf(row: StepRow): multiset<Message> {
    if row.status.Pending? then multiset{MessageOf(row)} else multiset{}
  }

  lemma SentSnoc(rest: seq<StepRow>, row: StepRow)
    ensures Sent(rest + [row], {}) == Sent(rest, {}) + SentOf(row)
  {
    assert (rest + [row])[..|rest|] == rest;
  }

  /** Recording a PENDING row takes its message out of what would be sent. */
  lemma {:induction false} SentSettled(steps: seq<StepRow>, k: nat)
    requires k < |steps| && steps[k].status.Pending?
    ensures MessageOf(steps[k]) in Sent(steps, {})
    ensures Sent(steps[k := steps[k].(status := Done)], {}) == Sent(steps, {}) - multiset{MessageOf(steps[k])}
  {
    hide Sent;
    var n, done := |steps| - 1, steps[k].(status := Done);
    var rest := steps[..n];
    assert steps == rest + [steps[n]];
    SentSnoc(rest, steps[n]);
    if k < n {
      SentSettled(rest, k);
      assert steps[k := done] == rest[k := done] + [steps[n]];
      SentSnoc(rest[k := done], steps[n]);
      hide *;
      MovePast(Sent(rest, {}), SentOf(steps[n]), MessageOf(steps[k]));
    } else {
      assert steps[k := done] == rest + [done];
      SentSnoc(rest, done);
      TakeAway(Sent(rest, {}), MessageOf(steps[k]));
    }
  }

  lemma TakeAway<T>(a: multiset<T>, m: T)
    ensures a + multiset{m} - multiset{m} == a + multiset{} && m in a + multiset{m}
  {
  }

  lemma ProgressedNext(reqs: seq<Request>, k: nat)
    requires 0 < k <= |reqs|
    ensures var before := Progressed(reqs, k - 1);
            && before[k - 1].status.Pending?
            && Progressed(reqs, k) == before[k - 1 := before[k - 1].(status := Done)]
            && MessageOf(before[k - 1]) == MessageOf(Progressed(reqs, 0)[k - 1])
  {
    var before, after := Progressed(reqs, k - 1), Progressed(reqs, k);
    forall i | 0 <= i < |reqs| ensures after[i] == before[k - 1 := before[k - 1].(status := Done)][i] { }
  }

  lemma SentWithout(reqs: seq<Request>, k: nat)
    requires 0 < k <= |reqs|
    ensures Sent(Progressed(reqs, k), {}) == Sent(Progressed(reqs, k - 1), {}) - multiset{MessageOf(Progressed(reqs, 0)[k - 1])}
    ensures MessageOf(Progressed(reqs, 0)[k - 1]) in Sent(Progressed(reqs, k - 1), {})
  {
    hide *;
    ProgressedNext(reqs, k);
    SentSettled(Progressed(reqs, k - 1), k - 1);
  }

  lemma MovePast<T>(a: multiset<T>, b: multiset<T>, m: T)
    requires m in a
    ensures a - multiset{m} + b == a + b - multiset{m} && m in a + b
  {
  }

  lemma ExecSnoc(id: string, l: World, run: seq<Event>, e: Event)
    ensures Exec(id, l, run + [e]) == Step(id, Exec(id, l, run), e)
  {
    assert (run + [e])[..|run|] == run;
    hide Step;
  }

  /** A unit that can take the movement reports it. */
  lemma TakenAndReported(id: string, l: World, m: Message)
    requires m in l.bag && m.StepMessage? && StepDirection(m.action).Some?
    ensures var l' := Step(id, l, DeliverStep(m, true, true));
            && l'.tx == l.tx && l'.handling == l.handling
            && l'.bag == l.bag - multiset{m} + multiset{Receipt(m.stepNo, true)}
  {
    hide Posted;
  }

  lemma CommitStep(id: string, reqs: seq<Request>, l: World, k: nat)
    requires ValidRequest(reqs) && 0 < k <= |reqs| && HasReached(id, reqs, l, k - 1)
    ensures var m := MessageOf(Progressed(reqs, 0)[k - 1]);
            HasReached(id, reqs, Step(id, Step(id, l, DeliverStep(m, true, true)), DeliverReceipt(Receipt(k, true), {})), k)
  {
    var m := MessageOf(Progressed(reqs, 0)[k - 1]);
    SentWithout(reqs, k);
    ProgressedAdvance(reqs, k);
    assert reqs[k - 1].action.DebitAction? || reqs[k - 1].action.CreditAction?;
    assert m.StepMessage? && m.stepNo == k && StepDirection(m.action).Some?;
    TakenAndReported(id, l, m);
    var l1 := Step(id, l, DeliverStep(m, true, true));
    hide ValidRequest, HandleReceipt, Sent, Progressed, StepDelivered;
    TakeAway(l.bag - multiset{m}, Receipt(k, true));
    RecordedAndDone(id, l1, k);
  }

  lemma RecordedAndDone(id: string, l: World, k: nat)
    requires Receipt(k, true) in l.bag && !HandleReceipt(l.tx, k, true).1
    ensures Step(id, l, DeliverReceipt(Receipt(k, true), {}))
         == l.(tx := HandleReceipt(l.tx, k, true).0, bag := l.bag - multiset{Receipt(k, true)})
  {
    hide HandleReceipt, Sent;
    var rest := l.bag - multiset{Receipt(k, true)};
    assert rest + multiset{} == rest;
  }

  lemma {:induction false} CommittingReaches(id: string, reqs: seq<Request>, k: nat)
    requires ValidRequest(reqs) && k <= |reqs|
    ensures HasReached(id, reqs, Exec(id, Start(reqs, {}), Committing(reqs, k)), k)
    decreases k
  {
    if k == 0 {
      NothingReached(id, reqs);
    } else {
      var run := Committing(reqs, k - 1);
      var m := MessageOf(Progressed(reqs, 0)[k - 1]);
      var e1, e2 := DeliverStep(m, true, true), DeliverReceipt(Receipt(k, true), {});
      assert Committing(reqs, k) == run + [e1] + [e2];
      hide *;
      CommittingReaches(id, reqs, k - 1);
      ExecSnoc(id, Start(reqs, {}), run, e1);
      ExecSnoc(id, Start(reqs, {}), run + [e1], e2);
      CommitStep(id, reqs, Exec(id, Start(reqs, {}), run), k);
    }
  }

  lemma NothingReached(id: string, reqs: seq<Request>)
    requires ValidRequest(reqs)
    ensures HasReached(id, reqs, Exec(id, Start(reqs, {}), Committing(reqs, 0)), 0)
  {
    assert Progressed(reqs, 0) == Register(reqs).steps;
    hide Sent;
  }

  /** MAIN THEOREM. Every request can commit: when the units can take every movement and nothing is lost, delivering
      each step and each receipt once brings the transaction to COMMITTED. */
  lemma EveryRequestCanCommit(id: string, reqs: seq<Request>)
    requires ValidRequest(reqs)
    ensures Exec(id, Start(reqs, {}), Committing(reqs, |reqs|)).tx.status.Committed?
  {
    CommittingReaches(id, reqs, |reqs|);
    hide Exec, Start, Committing;
  }
}
