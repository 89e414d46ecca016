/** One global transaction with its messages and its journal rows: coordinator, broker and units
    together. The broker is a bag: messages may be duplicated, delayed and reordered, never lost once
    accepted; a publish may fail outright; a unit may commit and crash before its receipt is accepted;
    the coordinator may time the transaction out, crash half way through that, and restart.
    A receipt is handled in one go or in two: its writes first, decided by readings made earlier, and
    advance later, with anything in between. RmbStale says what happens when such a reading is no longer
    right. */
module RmbProtocol {
  import opened Common
  import opened Contracts
  import opened Ledger
  import opened RmbCore
  import opened RmbRows
  import opened DcnSpec

  datatype Message =
    | StepMessage(stepNo: nat, action: Action, account: Account, amount: int)
    | Receipt(stepNo: nat, done: bool)

  /** `handling`: receipts whose writes are made and whose advance is still to come, not yet acknowledged.
      `journal` holds the rows of this transaction in the units' journals, oldest first. */
  datatype World = World(tx: Tx, bag: multiset<Message>, handling: multiset<Message>, journal: seq<Row>)

  datatype Event =
    | DeliverStep(m: Message, funds: bool, acked: bool)
        // funds: the account can take the movement; acked: the receipt was accepted by the broker
    | DeliverReceipt(m: Message, lost: set<nat>)
        // lost: steps whose publish call fails
    | TakeReceipt(m: Message, stepRead: StepStatus, txRead: TxStatus)
        // the statuses read some time before the writes
    | FinishReceipt(m: Message, lost: set<nat>)
    | Requeue(m: Message)
        // a receipt given back to the broker after its writes
    | Timeout(lost: set<nat>)
    | TimeoutInterrupted
    | Republish(lost: set<nat>)
    | Redeliver(m: Message)
    | Restart

  function MessageOf(row: StepRow): Message {
    StepMessage(row.stepNo, row.action, row.account, row.amount)
  }

  /** The messages publishPending gets through to the broker. */
  function Sent(steps: seq<StepRow>, lost: set<nat>): multiset<Message> {
    if steps == [] then multiset{}
    else
      var last := steps[|steps| - 1];
      Sent(steps[..|steps| - 1], lost)
      + (if last.status.Pending? && last.stepNo !in lost then multiset{MessageOf(last)} else multiset{})
  }

  predicate Enabled(l: World, e: Event) {
    match e
    case DeliverStep(m, _, _) => m in l.bag && m.StepMessage?
    case DeliverReceipt(m, _) => m in l.bag && m.Receipt?
    case TakeReceipt(m, stepRead, txRead) =>
      && m in l.bag && m.Receipt? && 1 <= m.stepNo <= |l.tx.steps|
      && StillRight(l.tx, stepRead, txRead, l.tx.steps[m.stepNo - 1].status, m.done)
    case FinishReceipt(m, _) => m in l.handling
    case Requeue(m) => m in l.handling
    case Redeliver(m) => m in l.bag
    case _ => true
  }

  /** handleStep at the unit: is the movement (now) journaled, and the journal after it. */
  function UnitStep(journal: seq<Row>, row: Row, funds: bool): (bool, seq<Row>) {
    if Posted(journal, row) then (true, journal)
    else if funds then (true, journal + [row])
    else (false, journal)
  }

  function StepDelivered(id: string, l: World, m: Message, funds: bool, acked: bool): World
    requires m.StepMessage?
  {
    match StepRowOf(id, m.action, m.account, m.amount)
    case None => l.(bag := l.bag - multiset{m})
    case Some(row) =>
      var (ok, journal) := UnitStep(l.journal, row, funds);
      l.(bag := if acked then l.bag - multiset{m} + multiset{Receipt(m.stepNo, ok)} else l.bag, journal := journal)
  }

  function ReceiptDelivered(l: World, m: Message, lost: set<nat>): World
    requires m.Receipt?
  {
    var (tx, publish) := HandleReceipt(l.tx, m.stepNo, m.done);
    l.(tx := tx, bag := l.bag - multiset{m} + (if publish then Sent(tx.steps, lost) else multiset{}))
  }

  /** The writes of a receipt, decided by readings. */
  function ReceiptTaken(l: World, m: Message, stepRead: StepStatus, txRead: TxStatus): World
    requires m.Receipt?
  {
    l.(tx := RecordRead(l.tx, stepRead, txRead, m.stepNo, m.done),
       bag := l.bag - multiset{m}, handling := l.handling + multiset{m})
  }

  /** Its advance, with the messages that follow, and the acknowledgement. */
  function ReceiptFinished(l: World, m: Message, lost: set<nat>): World {
    var (tx, publish) := Advance(l.tx);
    l.(tx := tx, bag := l.bag + (if publish then Sent(tx.steps, lost) else multiset{}),
       handling := l.handling - multiset{m})
  }

  function TimedOut(l: World, lost: set<nat>): World {
    var (tx, publish) := Expire(l.tx);
    l.(tx := tx, bag := l.bag + (if publish then Sent(tx.steps, lost) else multiset{}))
  }

  function Interrupted(l: World): World {
    if l.tx.status.Processing? && |Compensations(l.tx.steps)| == 0
    then l.(tx := l.tx.(steps := FailPending(l.tx.steps))) else l
  }

  function Republished(l: World, lost: set<nat>): World {
    if l.tx.status.Processing? then l.(bag := l.bag + Sent(l.tx.steps, lost)) else l
  }

  /** A crash forgets the retry counters, and the broker delivers again what was not acknowledged. */
  function Restarted(l: World): World {
    World(l.tx.(attempts := map[]), l.bag + l.handling, multiset{}, l.journal)
  }

  /** One event; one that is not enabled does not happen. */
  function Step(id: string, l: World, e: Event): World {
    if !Enabled(l, e) then l
    else
      match e
      case DeliverStep(m, funds, acked) => StepDelivered(id, l, m, funds, acked)
      case DeliverReceipt(m, lost) => ReceiptDelivered(l, m, lost)
      case TakeReceipt(m, stepRead, txRead) => ReceiptTaken(l, m, stepRead, txRead)
      case FinishReceipt(m, lost) => ReceiptFinished(l, m, lost)
      case Requeue(m) => l.(bag := l.bag + multiset{m}, handling := l.handling - multiset{m})
      case Timeout(lost) => TimedOut(l, lost)
      case TimeoutInterrupted => Interrupted(l)
      case Republish(lost) => Republished(l, lost)
      case Redeliver(m) => l.(bag := l.bag + multiset{m})
      case Restart => Restarted(l)
  }

  function Start(reqs: seq<Request>, lost: set<nat>): World {
    World(Register(reqs), Sent(Register(reqs).steps, lost), multiset{}, [])
  }

  /** A run is any sequence of events. */
  function Exec(id: string, l: World, run: seq<Event>): World {
    if run == [] then l else Step(id, Exec(id, l, run[..|run| - 1]), run[|run| - 1])
  }

  // ---------- the invariant, for any number of steps ----------

  /** The journal row a tx_step_log row asks for. */
  function Posting(id: string, row: StepRow): Row
    requires StepDirection(row.action).Some?
  {
    StepRowOf(id, row.action, row.account, row.amount).value
  }

  ghost predicate Understood(steps: seq<StepRow>) {
    forall i :: 0 <= i < |steps| ==> StepDirection(steps[i].action).Some?
  }

  /** Messages in flight belong to rows. */
  ghost predicate BagMatches(steps: seq<StepRow>, bag: multiset<Message>) {
    forall m :: m in bag ==> 1 <= m.stepNo <= |steps| && (m.StepMessage? ==> m == MessageOf(steps[m.stepNo - 1]))
  }

  /** What is recorded or reported DONE is journaled, once. */
  ghost predicate DoneIsPosted(id: string, l: World)
    requires Understood(l.tx.steps)
  {
    && UniqueKeys(l.journal)
    && (forall i :: 0 <= i < |l.tx.steps| && l.tx.steps[i].status.Done? ==> Posting(id, l.tx.steps[i]) in l.journal)
    && (forall i :: 0 <= i < |l.tx.steps| && Receipt(i + 1, true) in l.bag ==> Posting(id, l.tx.steps[i]) in l.journal)
    && (forall r :: r in l.journal ==> exists i :: 0 <= i < |l.tx.steps| && r == Posting(id, l.tx.steps[i]))
  }

  /** A journaled original is recorded DONE, or a message that will record it is in flight. */
  ghost predicate PostedIsKnown(id: string, n: nat, l: World)
    requires Understood(l.tx.steps) && n <= |l.tx.steps|
  {
    forall i :: 0 <= i < n && Posting(id, l.tx.steps[i]) in l.journal ==>
      || l.tx.steps[i].status.Done?
      || MessageOf(l.tx.steps[i]) in l.bag
      || Receipt(i + 1, true) in l.bag
  }

  /** A receipt being handled has been recorded. */
  ghost predicate HandledIsRecorded(steps: seq<StepRow>, handling: multiset<Message>) {
    forall m :: m in handling ==>
      m.Receipt? && 1 <= m.stepNo <= |steps| && (m.done ==> steps[m.stepNo - 1].status.Done?)
  }

  ghost predicate Invariant(id: string, reqs: seq<Request>, l: World) {
    && WellFormed(reqs, l.tx)
    && Understood(l.tx.steps)
    && BagMatches(l.tx.steps, l.bag)
    && HandledIsRecorded(l.tx.steps, l.handling)
    && DoneIsPosted(id, l)
    && PostedIsKnown(id, |reqs|, l)
  }

  // ---------- small facts ----------

  lemma ShapedUnderstood(reqs: seq<Request>, steps: seq<StepRow>)
    requires ValidRequest(reqs) && Shaped(reqs, steps)
    ensures Understood(steps)
  {
    forall i | 0 <= i < |steps| ensures StepDirection(steps[i].action).Some? {
      if i < |reqs| { assert IsRowOf(steps[i], i, reqs[i]); }
      else { assert ReversesSomeDone(steps[i], steps[..|reqs|]); }
    }
  }

  /** Within one transaction a journal key determines the row: originals have distinct keys, and a
      compensation carries the account and amount of the original it reverses. */
  lemma KeyDeterminesRow(id: string, reqs: seq<Request>, steps: seq<StepRow>, i: nat, j: nat)
    requires ValidRequest(reqs) && Shaped(reqs, steps) && Understood(steps) && i < |steps| && j < |steps|
    requires SameKey(Posting(id, steps[i]), Posting(id, steps[j]))
    ensures Posting(id, steps[i]) == Posting(id, steps[j])
    ensures i < |reqs| && j < |reqs| ==> i == j
  {
    var n := |reqs|;
    var a, b := Source(reqs, steps, i), Source(reqs, steps, j);
    assert IsRowOf(steps[a], a, reqs[a]) && IsRowOf(steps[b], b, reqs[b]);
  }

  /** The original a row stands for: itself, or the one it reverses. */
  ghost function Source(reqs: seq<Request>, steps: seq<StepRow>, i: nat): (k: nat)
    requires ValidRequest(reqs) && Shaped(reqs, steps) && i < |steps|
    ensures k < |reqs| && (if i < |reqs| then k == i else Reverses(steps[i], steps[k]) && steps[k].status.Done?)
  {
    if i < |reqs| then i
    else
      assert ReversesSomeDone(steps[i], steps[..|reqs|]);
      var k :| 0 <= k < |reqs| && steps[..|reqs|][k].status.Done? && Reverses(steps[i], steps[..|reqs|][k]);
      k
  }

  lemma {:induction false} SentAreRows(steps: seq<StepRow>, lost: set<nat>, m: Message)
    requires m in Sent(steps, lost)
    ensures exists i :: 0 <= i < |steps| && m == MessageOf(steps[i])
  {
    var n := |steps| - 1;
    if m in Sent(steps[..n], lost) {
      SentAreRows(steps[..n], lost, m);
      var i :| 0 <= i < n && m == MessageOf(steps[..n][i]);
      assert m == MessageOf(steps[i]);
    } else {
      assert m == MessageOf(steps[n]);
    }
  }

  lemma SentMatches(steps: seq<StepRow>, lost: set<nat>)
    requires Numbered(steps)
    ensures BagMatches(steps, Sent(steps, lost))
  {
    forall m | m in Sent(steps, lost)
      ensures 1 <= m.stepNo <= |steps| && (m.StepMessage? ==> m == MessageOf(steps[m.stepNo - 1]))
    {
      SentAreRows(steps, lost, m);
      var i :| 0 <= i < |steps| && m == MessageOf(steps[i]);
    }
  }

  lemma WellFormedNumbered(reqs: seq<Request>, tx: Tx)
    requires WellFormed(reqs, tx)
    ensures Numbered(tx.steps)
  {
  }

  /** Only step messages are sent. */
  lemma SentHasNoReceipts(steps: seq<StepRow>, lost: set<nat>)
    ensures forall no :: Receipt(no, true) !in Sent(steps, lost)
  {
    forall no ensures Receipt(no, true) !in Sent(steps, lost) {
      if Receipt(no, true) in Sent(steps, lost) { SentAreRows(steps, lost, Receipt(no, true)); }
    }
  }

  lemma EvolvedBag(s: seq<StepRow>, t: seq<StepRow>, bag: multiset<Message>)
    requires BagMatches(s, bag) && Evolves(s, t)
    ensures BagMatches(t, bag)
  {
    forall m | m in bag ensures 1 <= m.stepNo <= |t| && (m.StepMessage? ==> m == MessageOf(t[m.stepNo - 1])) {
      assert SameButStatus(s[m.stepNo - 1], t[m.stepNo - 1]);
    }
  }

  /** Rows that keep their postings and messages. */
  ghost predicate SamePostings(id: string, s: seq<StepRow>, t: seq<StepRow>)
    requires Understood(s) && Understood(t)
  {
    |s| <= |t| && forall i :: 0 <= i < |s| ==> Posting(id, t[i]) == Posting(id, s[i]) && MessageOf(t[i]) == MessageOf(s[i])
  }

  /** Rows that evolve do. */
  lemma EvolvedPostings(id: string, s: seq<StepRow>, t: seq<StepRow>)
    requires Understood(s) && Understood(t) && Evolves(s, t)
    ensures SamePostings(id, s, t)
  {
    forall i | 0 <= i < |s| ensures Posting(id, t[i]) == Posting(id, s[i]) && MessageOf(t[i]) == MessageOf(s[i]) {
      assert SameButStatus(s[i], t[i]);
    }
  }

  // ---------- preservation ----------

  lemma StillPosted(id: string, l: World, l': World)
    requires Understood(l.tx.steps) && Understood(l'.tx.steps) && SamePostings(id, l.tx.steps, l'.tx.steps)
    requires DoneIsPosted(id, l) && l'.journal == l.journal && BagMatches(l.tx.steps, l.bag)
    requires forall i :: |l.tx.steps| <= i < |l'.tx.steps| ==> !l'.tx.steps[i].status.Done?
    requires forall no :: Receipt(no, true) in l'.bag ==> Receipt(no, true) in l.bag
    requires forall i :: 0 <= i < |l.tx.steps| && l'.tx.steps[i].status.Done? && !l.tx.steps[i].status.Done?
               ==> Receipt(i + 1, true) in l.bag
    ensures DoneIsPosted(id, l')
  {
    hide Posting, MessageOf, UniqueKeys;
    var s, t := l.tx.steps, l'.tx.steps;
    forall r | r in l'.journal ensures exists i :: 0 <= i < |t| && r == Posting(id, t[i]) {
      var i :| 0 <= i < |s| && r == Posting(id, s[i]);
      assert r == Posting(id, t[i]);
    }
    forall i | 0 <= i < |t| && Receipt(i + 1, true) in l'.bag ensures Posting(id, t[i]) in l'.journal {
      assert Receipt(i + 1, true) in l.bag;
    }
  }

  lemma StillKnown(id: string, n: nat, l: World, l': World, used: multiset<Message>, sent: multiset<Message>)
    requires Understood(l.tx.steps) && Understood(l'.tx.steps) && SamePostings(id, l.tx.steps, l'.tx.steps)
    requires n <= |l.tx.steps| && PostedIsKnown(id, n, l) && l'.journal == l.journal && l'.bag == l.bag - used + sent
    requires forall m :: m in used ==> m.Receipt?
    requires forall i :: 0 <= i < |l.tx.steps| && l.tx.steps[i].status.Done? ==> l'.tx.steps[i].status.Done?
    requires forall i :: 0 <= i < |l.tx.steps| && Receipt(i + 1, true) in used ==> l'.tx.steps[i].status.Done?
    ensures PostedIsKnown(id, n, l')
  {
    hide Posting;
    var s, t := l.tx.steps, l'.tx.steps;
    forall i | 0 <= i < n && Posting(id, t[i]) in l'.journal
      ensures t[i].status.Done? || MessageOf(t[i]) in l'.bag || Receipt(i + 1, true) in l'.bag
    {
      if MessageOf(s[i]) in l.bag { assert MessageOf(s[i]) !in used; }
    }
  }

  /** A coordinator step that evolves the rows, uses up at most one receipt and sends messages. */
  lemma CoordinatorKeeps(id: string, reqs: seq<Request>, l: World, l': World, used: multiset<Message>,
                         sent: multiset<Message>)
    requires ValidRequest(reqs) && Invariant(id, reqs, l)
    requires WellFormed(reqs, l'.tx) && Evolves(l.tx.steps, l'.tx.steps) && l'.journal == l.journal
    requires l'.bag == l.bag - used + sent && HandledIsRecorded(l'.tx.steps, l'.handling)
    requires BagMatches(l'.tx.steps, sent) && forall no :: Receipt(no, true) !in sent
    requires forall m :: m in used ==> m.Receipt? && m in l.bag
    requires forall i :: 0 <= i < |l.tx.steps| && l'.tx.steps[i].status.Done? && !l.tx.steps[i].status.Done?
               ==> Receipt(i + 1, true) in l.bag
    requires forall i :: 0 <= i < |l.tx.steps| && Receipt(i + 1, true) in used ==> l'.tx.steps[i].status.Done?
    ensures Invariant(id, reqs, l')
  {
    var s, t := l.tx.steps, l'.tx.steps;
    ShapedUnderstood(reqs, t);
    hide Posting, MessageOf, WellFormed, ValidRequest, Understood, DoneIsPosted, PostedIsKnown;
    EvolvedPostings(id, s, t);
    EvolvedBag(s, t, l.bag);
    StillPosted(id, l, l');
    StillKnown(id, |reqs|, l, l', used, sent);
  }

  /** What evolves keeps the receipts being handled recorded. */
  lemma EvolvedHandling(s: seq<StepRow>, t: seq<StepRow>, handling: multiset<Message>)
    requires HandledIsRecorded(s, handling) && Evolves(s, t)
    ensures HandledIsRecorded(t, handling)
  {
  }

  /** The parts of the invariant that the coordinator's own steps need. */
  lemma InvariantParts(id: string, reqs: seq<Request>, l: World)
    requires Invariant(id, reqs, l)
    ensures WellFormed(reqs, l.tx) && BagMatches(l.tx.steps, l.bag) && HandledIsRecorded(l.tx.steps, l.handling)
  {
    hide WellFormed, BagMatches, HandledIsRecorded, DoneIsPosted, PostedIsKnown, Understood;
  }

  lemma ReceiptStepKeeps(id: string, reqs: seq<Request>, l: World, m: Message, lost: set<nat>)
    requires ValidRequest(reqs) && Invariant(id, reqs, l) && m in l.bag && m.Receipt?
    ensures Invariant(id, reqs, ReceiptDelivered(l, m, lost))
  {
    hide Invariant, HandleReceipt, WellFormed, HandledIsRecorded, Evolves, ValidRequest, Sent;
    InvariantParts(id, reqs, l);
    var l' := ReceiptDelivered(l, m, lost);
    ReceiptKeeps(reqs, l.tx, m.stepNo, m.done);
    WellFormedNumbered(reqs, l'.tx);
    SentMatches(l'.tx.steps, lost);
    SentHasNoReceipts(l'.tx.steps, lost);
    EvolvedHandling(l.tx.steps, l'.tx.steps, l.handling);
    var sent := if HandleReceipt(l.tx, m.stepNo, m.done).1 then Sent(l'.tx.steps, lost) else multiset{};
    CoordinatorKeeps(id, reqs, l, l', multiset{m}, sent);
  }

  lemma RecordedOnce(handling: multiset<Message>, steps: seq<StepRow>, m: Message)
    requires HandledIsRecorded(steps, handling) && m.Receipt? && 1 <= m.stepNo <= |steps|
    requires m.done ==> steps[m.stepNo - 1].status.Done?
    ensures HandledIsRecorded(steps, handling + multiset{m})
  {
  }

  /** The writes of a receipt that gets its step to where it says. */
  lemma TakeKeeps(id: string, reqs: seq<Request>, l: World, m: Message, stepRead: StepStatus, txRead: TxStatus)
    requires ValidRequest(reqs) && Invariant(id, reqs, l) && m in l.bag && m.Receipt? && 1 <= m.stepNo <= |l.tx.steps|
    requires m.done ==> Lands(stepRead, l.tx.steps[m.stepNo - 1].status)
    ensures Invariant(id, reqs, ReceiptTaken(l, m, stepRead, txRead))
  {
    hide Invariant, WellFormed, HandledIsRecorded, Evolves, ValidRequest, RecordRead, Lands;
    InvariantParts(id, reqs, l);
    WellFormedNumbered(reqs, l.tx);
    RecordReadRows(l.tx, stepRead, txRead, m.stepNo, m.done);
    var l' := ReceiptTaken(l, m, stepRead, txRead);
    EvolveKeepsWellFormed(reqs, l.tx, l'.tx);
    EvolvedHandling(l.tx.steps, l'.tx.steps, l.handling);
    RecordedOnce(l.handling, l'.tx.steps, m);
    CoordinatorKeeps(id, reqs, l, l', multiset{m}, multiset{});
  }

  /** A receipt taken with right readings is the receipt recorded. */
  lemma TakenIsRecorded(reqs: seq<Request>, l: World, m: Message, stepRead: StepStatus, txRead: TxStatus)
    requires WellFormed(reqs, l.tx) && Enabled(l, TakeReceipt(m, stepRead, txRead))
    ensures ReceiptTaken(l, m, stepRead, txRead).tx == Record(l.tx, m.stepNo, m.done)
  {
    WellFormedNumbered(reqs, l.tx);
    hide WellFormed, StillRight, Record, RecordRead;
    StaleReadings(l.tx, stepRead, txRead, m.stepNo, m.done);
  }

  lemma RightLands(l: World, m: Message, stepRead: StepStatus, txRead: TxStatus)
    requires Enabled(l, TakeReceipt(m, stepRead, txRead))
    ensures m.done ==> Lands(stepRead, l.tx.steps[m.stepNo - 1].status)
  {
  }

  lemma FinishKeeps(id: string, reqs: seq<Request>, l: World, m: Message, lost: set<nat>)
    requires ValidRequest(reqs) && Invariant(id, reqs, l)
    ensures Invariant(id, reqs, ReceiptFinished(l, m, lost))
  {
    hide Invariant, Advance, WellFormed, HandledIsRecorded, Evolves, ValidRequest, Sent;
    InvariantParts(id, reqs, l);
    AdvanceKeeps(reqs, l.tx);
    var l' := ReceiptFinished(l, m, lost);
    WellFormedNumbered(reqs, l'.tx);
    SentMatches(l'.tx.steps, lost);
    SentHasNoReceipts(l'.tx.steps, lost);
    EvolvedHandling(l.tx.steps, l'.tx.steps, l.handling);
    FewerHandled(l'.tx.steps, l.handling, multiset{m});
    var sent := if Advance(l.tx).1 then Sent(l'.tx.steps, lost) else multiset{};
    CoordinatorKeeps(id, reqs, l, l', multiset{}, sent);
  }

  lemma FewerHandled(steps: seq<StepRow>, handling: multiset<Message>, gone: multiset<Message>)
    requires HandledIsRecorded(steps, handling)
    ensures HandledIsRecorded(steps, handling - gone)
  {
  }

  lemma TimeoutStepKeeps(id: string, reqs: seq<Request>, l: World, lost: set<nat>)
    requires ValidRequest(reqs) && Invariant(id, reqs, l)
    ensures Invariant(id, reqs, TimedOut(l, lost))
  {
    hide Invariant, Expire, WellFormed, HandledIsRecorded, Evolves, ValidRequest, Sent;
    InvariantParts(id, reqs, l);
    ExpireKeeps(reqs, l.tx);
    var t := Expire(l.tx).0.steps;
    WellFormedNumbered(reqs, Expire(l.tx).0);
    SentMatches(t, lost);
    SentHasNoReceipts(t, lost);
    EvolvedHandling(l.tx.steps, t, l.handling);
    CoordinatorKeeps(id, reqs, l, TimedOut(l, lost), multiset{},
                     if Expire(l.tx).1 then Sent(t, lost) else multiset{});
  }

  lemma InterruptedKeeps(id: string, reqs: seq<Request>, l: World)
    requires ValidRequest(reqs) && Invariant(id, reqs, l)
    ensures Invariant(id, reqs, Interrupted(l))
  {
    hide Invariant, WellFormed, HandledIsRecorded, ValidRequest, Evolves, FailPending;
    if l.tx.status.Processing? && |Compensations(l.tx.steps)| == 0 {
      InvariantParts(id, reqs, l);
      FailPendingKeeps(reqs, l.tx);
      EvolvedHandling(l.tx.steps, FailPending(l.tx.steps), l.handling);
      CoordinatorKeeps(id, reqs, l, Interrupted(l), multiset{}, multiset{});
    }
  }

  lemma RepublishKeeps(id: string, reqs: seq<Request>, l: World, lost: set<nat>)
    requires ValidRequest(reqs) && Invariant(id, reqs, l)
    ensures Invariant(id, reqs, Republished(l, lost))
  {
    hide Invariant, WellFormed, HandledIsRecorded, ValidRequest, Sent;
    InvariantParts(id, reqs, l);
    WellFormedNumbered(reqs, l.tx);
    SentMatches(l.tx.steps, lost);
    SentHasNoReceipts(l.tx.steps, lost);
    CoordinatorKeeps(id, reqs, l, Republished(l, lost), multiset{},
                     if l.tx.status.Processing? then Sent(l.tx.steps, lost) else multiset{});
  }

  /** Messages in flight or being handled delivered once more. A receipt being handled is recorded, so what it
      reports is journaled. */
  lemma AgainKeeps(id: string, reqs: seq<Request>, l: World, l': World, again: multiset<Message>)
    requires Invariant(id, reqs, l) && l'.tx == l.tx && l'.journal == l.journal && l'.bag == l.bag + again
    requires HandledIsRecorded(l.tx.steps, l'.handling)
    requires forall m :: m in again ==> m in l.bag || m in l.handling
    ensures Invariant(id, reqs, l')
  {
    assert forall m :: m in l'.bag <==> m in l.bag || m in again;
    AgainPosted(id, l, l');
    AgainKnown(id, |reqs|, l, l');
    AgainMatches(l.tx.steps, l, l');
    hide WellFormed, DoneIsPosted, Understood, PostedIsKnown, HandledIsRecorded, BagMatches;
  }

  lemma AgainMatches(steps: seq<StepRow>, l: World, l': World)
    requires BagMatches(steps, l.bag) && HandledIsRecorded(steps, l.handling)
    requires forall m :: m in l'.bag ==> m in l.bag || m in l.handling
    ensures BagMatches(steps, l'.bag)
  {
  }

  lemma AgainKnown(id: string, n: nat, l: World, l': World)
    requires Understood(l.tx.steps) && n <= |l.tx.steps| && PostedIsKnown(id, n, l)
    requires l'.tx == l.tx && l'.journal == l.journal && forall m :: m in l.bag ==> m in l'.bag
    ensures PostedIsKnown(id, n, l')
  {
  }

  lemma AgainPosted(id: string, l: World, l': World)
    requires Understood(l.tx.steps) && DoneIsPosted(id, l) && HandledIsRecorded(l.tx.steps, l.handling)
    requires l'.tx == l.tx && l'.journal == l.journal
    requires forall m :: m in l'.bag ==> m in l.bag || m in l.handling
    ensures DoneIsPosted(id, l')
  {
    forall i | 0 <= i < |l.tx.steps| && Receipt(i + 1, true) in l'.bag ensures Posting(id, l.tx.steps[i]) in l.journal {
      if Receipt(i + 1, true) !in l.bag { assert Receipt(i + 1, true) in l.handling; }
    }
  }

  /** Receipts given back to the broker. */
  lemma GivenBackKeeps(id: string, reqs: seq<Request>, l: World, back: multiset<Message>)
    requires Invariant(id, reqs, l) && back <= l.handling
    ensures Invariant(id, reqs, l.(bag := l.bag + back, handling := l.handling - back))
  {
    hide Invariant, HandledIsRecorded, WellFormed;
    InvariantParts(id, reqs, l);
    forall m | m in back ensures m in l.handling { assert back[m] <= l.handling[m]; }
    FewerHandled(l.tx.steps, l.handling, back);
    AgainKeeps(id, reqs, l, l.(bag := l.bag + back, handling := l.handling - back), back);
  }

  lemma RestartKeeps(id: string, reqs: seq<Request>, l: World)
    requires ValidRequest(reqs) && Invariant(id, reqs, l)
    ensures Invariant(id, reqs, Restarted(l))
  {
    hide Invariant, WellFormed, HandledIsRecorded, ValidRequest;
    GivenBackKeeps(id, reqs, l, l.handling);
    var back := l.(bag := l.bag + l.handling, handling := l.handling - l.handling);
    InvariantParts(id, reqs, back);
    RestartedRows(reqs, l.tx);
    CoordinatorKeeps(id, reqs, back, Restarted(l), multiset{}, multiset{});
  }

  lemma RestartedRows(reqs: seq<Request>, tx: Tx)
    requires WellFormed(reqs, tx)
    ensures WellFormed(reqs, tx.(attempts := map[])) && Evolves(tx.steps, tx.steps)
  {
  }

  /** A key of the transaction is taken only by its own row. */
  lemma PostedIsOwn(id: string, reqs: seq<Request>, l: World, k: nat)
    requires ValidRequest(reqs) && Invariant(id, reqs, l) && k < |l.tx.steps|
    ensures Posted(l.journal, Posting(id, l.tx.steps[k])) <==> Posting(id, l.tx.steps[k]) in l.journal
  {
    var steps := l.tx.steps;
    var row := Posting(id, steps[k]);
    if Posted(l.journal, row) {
      var i :| 0 <= i < |l.journal| && SameKey(l.journal[i], row);
      assert l.journal[i] in l.journal;
      var j :| 0 <= j < |steps| && l.journal[i] == Posting(id, steps[j]);
      KeyDeterminesRow(id, reqs, steps, j, k);
    }
  }

  /** The unit's side: the row named by the message is in the journal afterwards exactly when it is
      answered DONE. */
  lemma UnitStepMeaning(journal: seq<Row>, row: Row, funds: bool)
    requires UniqueKeys(journal) && (Posted(journal, row) <==> row in journal)
    ensures var (ok, journal') := UnitStep(journal, row, funds);
            && (ok <==> row in journal')
            && (forall r :: r in journal' <==> r in journal || (ok && r == row))
            && UniqueKeys(journal')
  {
  }

  /** The journal grows by the row of one step, answered by a receipt. */
  ghost predicate UnitMove(id: string, l: World, l': World, k: nat, ok: bool)
    requires Understood(l.tx.steps) && k < |l.tx.steps|
  {
    && l'.tx == l.tx && l'.handling == l.handling
    && UniqueKeys(l'.journal)
    && (forall r :: r in l'.journal <==> r in l.journal || (ok && r == Posting(id, l.tx.steps[k])))
    && (forall m :: m in l'.bag ==> m in l.bag || m == Receipt(k + 1, ok))
    && (forall m :: m in l.bag && m != MessageOf(l.tx.steps[k]) ==> m in l'.bag)
    && (ok ==> Posting(id, l.tx.steps[k]) in l'.journal)
    && (ok ==> MessageOf(l.tx.steps[k]) in l'.bag || Receipt(k + 1, true) in l'.bag)
    && (!ok ==> Posting(id, l.tx.steps[k]) !in l.journal)
  }

  lemma UnitMovePosted(id: string, l: World, l': World, k: nat, ok: bool)
    requires Understood(l.tx.steps) && k < |l.tx.steps| && DoneIsPosted(id, l) && UnitMove(id, l, l', k, ok)
    ensures DoneIsPosted(id, l')
  {
    var steps := l.tx.steps;
    forall r | r in l'.journal ensures exists i :: 0 <= i < |steps| && r == Posting(id, steps[i]) {
      if r != Posting(id, steps[k]) { assert r in l.journal; }
    }
  }

  lemma UnitMoveKnows(id: string, reqs: seq<Request>, l: World, l': World, k: nat, ok: bool, i: nat)
    requires Understood(l.tx.steps) && k < |l.tx.steps| && i < |l.tx.steps| && UnitMove(id, l, l', k, ok)
    requires Posting(id, l.tx.steps[i]) == Posting(id, l.tx.steps[k]) ==> i == k
    requires Posting(id, l.tx.steps[i]) in l'.journal
    requires i != k && Posting(id, l.tx.steps[i]) in l.journal ==>
               l.tx.steps[i].status.Done? || MessageOf(l.tx.steps[i]) in l.bag || Receipt(i + 1, true) in l.bag
    requires MessageOf(l.tx.steps[i]) == MessageOf(l.tx.steps[k]) ==> i == k
    ensures l.tx.steps[i].status.Done? || MessageOf(l.tx.steps[i]) in l'.bag || Receipt(i + 1, true) in l'.bag
  {
    if i != k { assert Posting(id, l.tx.steps[i]) in l.journal; }
  }

  lemma UnitMoveKnown(id: string, reqs: seq<Request>, l: World, l': World, k: nat, ok: bool)
    requires ValidRequest(reqs) && Invariant(id, reqs, l) && k < |l.tx.steps| && UnitMove(id, l, l', k, ok)
    ensures PostedIsKnown(id, |reqs|, l')
  {
    var steps := l.tx.steps;
    assert Shaped(reqs, steps) && |reqs| <= |steps|;
    hide WellFormed, DoneIsPosted, ValidRequest;
    forall i | 0 <= i < |reqs| && Posting(id, steps[i]) in l'.journal
      ensures steps[i].status.Done? || MessageOf(steps[i]) in l'.bag || Receipt(i + 1, true) in l'.bag
    {
      hide UnitMove, BagMatches;
      assert steps[i].stepNo == i + 1 && steps[k].stepNo == k + 1;
      hide Shaped;
      if Posting(id, steps[i]) == Posting(id, steps[k]) { JournaledHere(id, reqs, steps, k, i); }
      UnitMoveKnows(id, reqs, l, l', k, ok, i);
    }
    assert l'.tx == l.tx;
  }

  /** Delivering a step message, spelled out. */
  lemma DeliveryIsMove(id: string, l: World, m: Message, funds: bool, acked: bool)
    requires Understood(l.tx.steps) && BagMatches(l.tx.steps, l.bag) && UniqueKeys(l.journal)
    requires m in l.bag && m.StepMessage?
    requires var row := Posting(id, l.tx.steps[m.stepNo - 1]); Posted(l.journal, row) <==> row in l.journal
    ensures m == MessageOf(l.tx.steps[m.stepNo - 1])
    ensures var row := Posting(id, l.tx.steps[m.stepNo - 1]);
            UnitMove(id, l, StepDelivered(id, l, m, funds, acked), m.stepNo - 1, UnitStep(l.journal, row, funds).0)
  {
    assert m == MessageOf(l.tx.steps[m.stepNo - 1]);
    var row := Posting(id, l.tx.steps[m.stepNo - 1]);
    UnitStepMeaning(l.journal, row, funds);
    hide Posted, UniqueKeys, UnitStep;
  }

  lemma InvariantUnique(id: string, reqs: seq<Request>, l: World)
    requires Invariant(id, reqs, l)
    ensures UniqueKeys(l.journal)
  {
    hide WellFormed, PostedIsKnown, BagMatches;
  }

  lemma UnitDelivery(id: string, reqs: seq<Request>, l: World, m: Message, funds: bool, acked: bool)
    requires ValidRequest(reqs) && Invariant(id, reqs, l) && m in l.bag && m.StepMessage?
    ensures 1 <= m.stepNo <= |l.tx.steps| && m == MessageOf(l.tx.steps[m.stepNo - 1])
    ensures var row := Posting(id, l.tx.steps[m.stepNo - 1]);
            UnitMove(id, l, StepDelivered(id, l, m, funds, acked), m.stepNo - 1, UnitStep(l.journal, row, funds).0)
  {
    hide WellFormed, PostedIsKnown, DoneIsPosted, UnitMove, UnitStep, StepDelivered, Posted, UniqueKeys;
    InvariantUnique(id, reqs, l);
    PostedIsOwn(id, reqs, l, m.stepNo - 1);
    DeliveryIsMove(id, l, m, funds, acked);
  }

  lemma UnitStepKeeps(id: string, reqs: seq<Request>, l: World, m: Message, funds: bool, acked: bool)
    requires ValidRequest(reqs) && Invariant(id, reqs, l) && m in l.bag && m.StepMessage?
    ensures Invariant(id, reqs, StepDelivered(id, l, m, funds, acked))
  {
    hide WellFormed, DoneIsPosted, PostedIsKnown, BagMatches, UnitMove, UnitStep, StepDelivered, ValidRequest, Posting, StepDirection;
    UnitDelivery(id, reqs, l, m, funds, acked);
    var l' := StepDelivered(id, l, m, funds, acked);
    var ok := UnitStep(l.journal, Posting(id, l.tx.steps[m.stepNo - 1]), funds).0;
    UnitMoveBag(id, l, l', m.stepNo - 1, ok);
    UnitMovePosted(id, l, l', m.stepNo - 1, ok);
    UnitMoveKnown(id, reqs, l, l', m.stepNo - 1, ok);
  }

  lemma UnitMoveBag(id: string, l: World, l': World, k: nat, ok: bool)
    requires Understood(l.tx.steps) && k < |l.tx.steps| && BagMatches(l.tx.steps, l.bag) && UnitMove(id, l, l', k, ok)
    ensures l'.tx == l.tx && l'.handling == l.handling && BagMatches(l'.tx.steps, l'.bag)
  {
  }

  /** Only the message of an original's own row can post it. */
  lemma JournaledHere(id: string, reqs: seq<Request>, steps: seq<StepRow>, k: nat, i: nat)
    requires ValidRequest(reqs) && Shaped(reqs, steps) && Understood(steps) && k < |steps| && i < |reqs|
    requires Posting(id, steps[i]) == Posting(id, steps[k])
    ensures i == k
  {
    if k < |reqs| {
      KeyDeterminesRow(id, reqs, steps, i, k);
    } else {
      OriginalNotReversal(id, reqs, steps, i, k);
    }
  }

  /** An original and a compensation are journaled under different keys. */
  lemma OriginalNotReversal(id: string, reqs: seq<Request>, steps: seq<StepRow>, i: nat, k: nat)
    requires ValidRequest(reqs) && Shaped(reqs, steps) && Understood(steps) && i < |reqs| <= k < |steps|
    ensures Posting(id, steps[i]).jtx == Original(id) && Posting(id, steps[k]).jtx == Compensation(id)
  {
    ghost var source := Source(reqs, steps, k);
    assert IsRowOf(steps[source], source, reqs[source]);
    assert IsRowOf(steps[i], i, reqs[i]);
    hide ValidRequest, Shaped, Understood;
  }

  /** Every event keeps the invariant. */
  lemma StepKeepsInvariant(id: string, reqs: seq<Request>, l: World, e: Event)
    requires ValidRequest(reqs) && Invariant(id, reqs, l)
    ensures Invariant(id, reqs, Step(id, l, e))
  {
    hide Invariant, UnitStep, StepDelivered, ReceiptDelivered, ReceiptTaken, ReceiptFinished, StillRight, TimedOut,
         Interrupted, Republished, Restarted, ValidRequest;
    if !Enabled(l, e) { return; }
    match e
    case DeliverStep(m, funds, acked) => UnitStepKeeps(id, reqs, l, m, funds, acked);
    case DeliverReceipt(m, lost) => ReceiptStepKeeps(id, reqs, l, m, lost);
    case TakeReceipt(m, stepRead, txRead) => RightLands(l, m, stepRead, txRead); TakeKeeps(id, reqs, l, m, stepRead, txRead);
    case FinishReceipt(m, lost) => FinishKeeps(id, reqs, l, m, lost);
    case Requeue(m) => GivenBackKeeps(id, reqs, l, multiset{m});
    case Redeliver(m) => RedeliverKeeps(id, reqs, l, m);
    case Timeout(lost) => TimeoutStepKeeps(id, reqs, l, lost);
    case Republish(lost) => RepublishKeeps(id, reqs, l, lost);
    case TimeoutInterrupted => InterruptedKeeps(id, reqs, l);
    case Restart => RestartKeeps(id, reqs, l);
  }

  lemma RedeliverKeeps(id: string, reqs: seq<Request>, l: World, m: Message)
    requires Invariant(id, reqs, l) && m in l.bag
    ensures Invariant(id, reqs, l.(bag := l.bag + multiset{m}))
  {
    hide Invariant, HandledIsRecorded, WellFormed;
    InvariantParts(id, reqs, l);
    AgainKeeps(id, reqs, l, l.(bag := l.bag + multiset{m}), multiset{m});
  }
}
