/** The protocol's invariant over whole runs, and what COMMITTED means. */
module RmbRuns {
  import opened Common
  import opened Contracts
  import opened Ledger
  import opened RmbCore
  import opened RmbRows
  import opened RmbProtocol

  lemma StartInvariant(id: string, reqs: seq<Request>, lost: set<nat>)
    requires ValidRequest(reqs)
    ensures Invariant(id, reqs, Start(reqs, lost))
  {
    RegisterWellFormed(reqs);
    ShapedUnderstood(reqs, Register(reqs).steps);
    SentMatches(Register(reqs).steps, lost);
    SentHasNoReceipts(Register(reqs).steps, lost);
  }

  /** The invariant holds after every run, for any number of steps and any faults. */
  lemma {:induction false} InvariantAlways(id: string, reqs: seq<Request>, lost: set<nat>, run: seq<Event>)
    requires ValidRequest(reqs)
    ensures Invariant(id, reqs, Exec(id, Start(reqs, lost), run))
  {
    if run == [] {
      StartInvariant(id, reqs, lost);
    } else {
      InvariantAlways(id, reqs, lost, run[..|run| - 1]);
      StepKeepsInvariant(id, reqs, Exec(id, Start(reqs, lost), run[..|run| - 1]), run[|run| - 1]);
    }
  }

  // ---------- COMMITTED ----------

  /** In COMMITTED, the journal of the transaction is exactly its requested movements, each once. */
  lemma CommittedExactlyOnce(id: string, reqs: seq<Request>, l: World)
    requires ValidRequest(reqs) && Invariant(id, reqs, l) && l.tx.status.Committed?
    ensures |l.tx.steps| == |reqs| && UniqueKeys(l.journal)
    ensures forall r :: r in l.journal <==> exists i :: 0 <= i < |reqs| && r == Posting(id, l.tx.steps[i])
  {
  }

  /** A step message of a committed transaction is a duplicate at its unit. */
  lemma CommittedDelivery(id: string, reqs: seq<Request>, l: World, m: Message, funds: bool, acked: bool)
    requires ValidRequest(reqs) && Invariant(id, reqs, l) && l.tx.status.Committed? && m in l.bag && m.StepMessage?
    ensures StepDelivered(id, l, m, funds, acked).tx == l.tx
    ensures StepDelivered(id, l, m, funds, acked).journal == l.journal
  {
    UnitDelivery(id, reqs, l, m, funds, acked);
    PostedIsOwn(id, reqs, l, m.stepNo - 1);
    assert l.tx.steps[m.stepNo - 1].status.Done?;
    assert Posting(id, l.tx.steps[m.stepNo - 1]) in l.journal;
    hide WellFormed, DoneIsPosted, PostedIsKnown, BagMatches, UnitMove, Posted;
  }

  lemma CommittedTake(reqs: seq<Request>, l: World, m: Message, stepRead: StepStatus, txRead: TxStatus)
    requires ValidRequest(reqs) && WellFormed(reqs, l.tx) && l.tx.status.Committed?
    requires Enabled(l, TakeReceipt(m, stepRead, txRead))
    ensures ReceiptTaken(l, m, stepRead, txRead).tx == l.tx && ReceiptTaken(l, m, stepRead, txRead).journal == l.journal
  {
    hide Record, RecordRead, StillRight, WellFormed;
    TakenIsRecorded(reqs, l, m, stepRead, txRead);
    CommittedIsFinal(reqs, l.tx, m.stepNo, m.done);
  }

  /** And nothing that can still happen changes it. */
  lemma CommittedStep(id: string, reqs: seq<Request>, l: World, e: Event)
    requires ValidRequest(reqs) && Invariant(id, reqs, l) && l.tx.status.Committed?
    ensures var l' := Step(id, l, e);
            l'.tx.status.Committed? && l'.tx.steps == l.tx.steps && l'.journal == l.journal
  {
    InvariantParts(id, reqs, l);
    hide HandleReceipt, Advance, Record, RecordRead, StillRight, Expire, StepDelivered, WellFormed, Invariant, ValidRequest,
         Sent, FailPending;
    if !Enabled(l, e) { return; }
    match e
    case DeliverStep(m, funds, acked) => CommittedDelivery(id, reqs, l, m, funds, acked);
    case DeliverReceipt(m, _) => CommittedIsFinal(reqs, l.tx, m.stepNo, m.done);
    case TakeReceipt(m, stepRead, txRead) => CommittedTake(reqs, l, m, stepRead, txRead);
    case FinishReceipt(m, _) => CommittedIsFinal(reqs, l.tx, 0, false);
    case Timeout(_) => CommittedIsFinal(reqs, l.tx, 0, false);
    case _ =>
  }

  /** COMMITTED is absorbing over every continuation of a run. */
  lemma {:induction false} CommittedForever(id: string, reqs: seq<Request>, l: World, run: seq<Event>)
    requires ValidRequest(reqs) && Invariant(id, reqs, l) && l.tx.status.Committed?
    ensures var l' := Exec(id, l, run);
            Invariant(id, reqs, l') && l'.tx.status.Committed? && l'.tx.steps == l.tx.steps && l'.journal == l.journal
  {
    if run != [] {
      var prefix := run[..|run| - 1];
      CommittedForever(id, reqs, l, prefix);
      CommittedStep(id, reqs, Exec(id, l, prefix), run[|run| - 1]);
      StepKeepsInvariant(id, reqs, Exec(id, l, prefix), run[|run| - 1]);
    }
  }

  /** MAIN THEOREM. Whenever a run, with any faults, has brought a transaction of any number of steps to
      COMMITTED, the units' journals hold exactly its requested movements, each once, no compensation exists,
      and nothing that can still happen changes any of it. */
  lemma CommittedForGood(id: string, reqs: seq<Request>, lost: set<nat>, run: seq<Event>, later: seq<Event>)
    requires ValidRequest(reqs) && Exec(id, Start(reqs, lost), run).tx.status.Committed?
    ensures var l := Exec(id, Start(reqs, lost), run);
            var l' := Exec(id, l, later);
            && |l.tx.steps| == |reqs| && UniqueKeys(l.journal)
            && (forall i :: 0 <= i < |reqs| ==> IsRowOf(l.tx.steps[i], i, reqs[i]) && StepDirection(l.tx.steps[i].action).Some?)
            && (forall r :: r in l.journal <==> exists i :: 0 <= i < |reqs| && r == Posting(id, l.tx.steps[i]))
            && l'.tx.status.Committed? && l'.tx.steps == l.tx.steps && l'.journal == l.journal
  {
    var l := Exec(id, Start(reqs, lost), run);
    InvariantAlways(id, reqs, lost, run);
    hide Exec, Start, BagMatches, DoneIsPosted, PostedIsKnown;
    CommittedExactlyOnce(id, reqs, l);
    CommittedForever(id, reqs, l, later);
  }
}
