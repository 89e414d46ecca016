/** The whole bank: any number of concurrent transfers, local transfers and interest postings over the
    same balances. Each transfer is a run of RmbProtocol in which the units' balances decide whether a
    movement can be taken. */
module RmbBank {
  import opened Common
  import opened Contracts
  import opened Ledger
  import opened Sums
  import opened DcnSpec
  import opened RmbCore
  import opened RmbRows
  import opened RmbProtocol
  import opened RmbRuns
  import opened RmbTransfer
  import opened RmbConservation
  import opened RmbProgress
  import opened AdmMirror
  import opened DcnUnit

  /** A registered transfer and what has happened to it so far. */
  datatype Started = Started(from: Account, to: Account, amount: int, lost: set<nat>, events: seq<Event>)

  /** `opening` holds the balance each account was opened with; `interest` totals the interest posted so far. */
  datatype Bank = Bank(books: Books, opening: map<Account, int>, interest: int, transfers: map<string, Started>)

  datatype BankEvent =
    | OpenAccount(account: Account, balance: int)
    | Submit(id: string, from: Account, to: Account, amount: int, lost: set<nat>)
    | Happens(id: string, e: Event)
    | MoveLocally(nonce: string, from: Account, to: Account, amount: int)
    | PayInterest(date: string, account: Account, amount: int)

  function Initial(s: Started): World {
    RmbProtocol.Start(TransferSteps(s.from, s.to, s.amount), s.lost)
  }

  function WorldOf(id: string, s: Started): World {
    Exec(id, Initial(s), s.events)
  }

  function Next(s: Started, e: Event): Started {
    s.(events := s.events + [e])
  }

  /** The row an event asks a unit to post. */
  function Asked(id: string, l: World, e: Event): Option<Row> {
    if e.DeliverStep? && Enabled(l, e) then StepRowOf(id, e.m.action, e.m.account, e.m.amount) else None
  }

  /** An event of one transfer: a movement goes through exactly when the books can take it. A message whose
      update the account table rejects goes back to the queue. */
  function Happened(b: Bank, id: string, e: Event): Bank
    requires id in b.transfers
  {
    var s := b.transfers[id];
    match Asked(id, WorldOf(id, s), e)
    case None => b.(transfers := b.transfers[id := Next(s, e)])
    case Some(row) =>
      var (r, books) := Post(b.books, row);
      if r.Rejected? then b
      else b.(books := books, transfers := b.transfers[id := Next(s, e.(funds := r.Moved?))])
  }

  function BankStep(b: Bank, e: BankEvent): Bank {
    match e
    case OpenAccount(a, balance) =>
      if a in b.books.accounts || balance < 0 then b
      else b.(books := b.books.(accounts := b.books.accounts[a := balance]), opening := b.opening[a := balance])
    case Submit(id, from, to, amount, lost) =>
      if id in b.transfers then b
      else b.(transfers := b.transfers[id := Started(from, to, amount, lost, [])])
    case Happens(id, ev) => if id in b.transfers then Happened(b, id, ev) else b
    case MoveLocally(nonce, from, to, amount) =>
      if amount <= 0 then b else b.(books := Transfer(b.books, nonce, from, to, amount).1)
    case PayInterest(date, account, amount) =>
      if amount <= 0 then b
      else
        var (r, books) := Post(b.books, InterestRow(date, account, amount));
        b.(books := books, interest := b.interest + if r.Moved? then amount else 0)
  }

  function BankRun(b: Bank, run: seq<BankEvent>): Bank {
    if run == [] then b else BankStep(BankRun(b, run[..|run| - 1]), run[|run| - 1])
  }

  /** The bank before its first account. */
  const EMPTY: Bank := Bank(Books(map[], []), map[], 0, map[])

  // ---------- the invariant ----------

  predicate OwnRow(id: string, r: Row) {
    r.jtx == Original(id) || r.jtx == Compensation(id)
  }

  /** A transfer's rows in the units' journals are those of its own run. */
  ghost predicate Linked(b: Bank) {
    forall id, r {:trigger OwnRow(id, r)} :: OwnRow(id, r) ==>
      (r in b.books.journal <==> id in b.transfers && r in WorldOf(id, b.transfers[id]).journal)
  }

  function Nets(b: Bank): map<string, int> {
    map id | id in b.transfers :: Net(WorldOf(id, b.transfers[id]).journal)
  }

  ghost predicate BankInvariant(b: Bank) {
    && Consistent(b.opening, b.books)
    && (forall a :: a in b.opening ==> b.opening[a] >= 0)
    && Linked(b)
    && NoOpeningRows(b.books.journal)
    && Sum(b.books.accounts) == Sum(b.opening) + b.interest + Sum(Nets(b))
  }

  lemma NextWorld(id: string, s: Started, e: Event)
    ensures WorldOf(id, Next(s, e)) == Step(id, WorldOf(id, s), e)
  {
    assert (s.events + [e])[..|s.events|] == s.events;
    hide Step, Initial;
  }

  /** Every reachable world of a transfer satisfies the protocol invariant. */
  lemma WorldInvariant(id: string, s: Started)
    ensures ValidRequest(TransferSteps(s.from, s.to, s.amount))
    ensures Invariant(id, TransferSteps(s.from, s.to, s.amount), WorldOf(id, s))
  {
    TransferIsValid(s.from, s.to, s.amount);
    InvariantAlways(id, TransferSteps(s.from, s.to, s.amount), s.lost, s.events);
  }

  /** A movement asked by a delivered step message is under one of the transfer's keys. */
  lemma AskedRow(id: string, s: Started, e: Event)
    requires Asked(id, WorldOf(id, s), e).Some?
    ensures OwnRow(id, Asked(id, WorldOf(id, s), e).value)
  {
    hide WorldOf;
  }

  /** The key of a transfer's row is taken in the unit exactly when its own run has taken it. */
  lemma KeyLinked(b: Bank, id: string, row: Row)
    requires Linked(b) && id in b.transfers && OwnRow(id, row)
    ensures Posted(b.books.journal, row) <==> Posted(WorldOf(id, b.transfers[id]).journal, row)
  {
    var world := WorldOf(id, b.transfers[id]).journal;
    hide WorldOf;
    if Posted(b.books.journal, row) {
      var i :| 0 <= i < |b.books.journal| && SameKey(b.books.journal[i], row);
      var r := b.books.journal[i];
      assert OwnRow(id, r) && r in b.books.journal;
      var j :| 0 <= j < |world| && world[j] == r;
      assert SameKey(world[j], row);
    }
    if Posted(world, row) {
      var i :| 0 <= i < |world| && SameKey(world[i], row);
      assert OwnRow(id, world[i]) && world[i] in world;
      var j :| 0 <= j < |b.books.journal| && b.books.journal[j] == world[i];
      assert SameKey(b.books.journal[j], row);
    }
  }

  /** What an event that asks for no row does to a transfer's journal: nothing. */
  lemma UnaskedJournal(id: string, l: World, e: Event)
    requires Asked(id, l, e).None?
    ensures Step(id, l, e).journal == l.journal
  {
    hide HandleReceipt, Expire, Sent, FailPending;
  }

  /** The transfer's journal and the unit's move together. */
  lemma AskedJournal(b: Bank, id: string, e: Event, row: Row)
    requires Linked(b) && id in b.transfers && OwnRow(id, row)
    requires Asked(id, WorldOf(id, b.transfers[id]), e) == Some(row)
    ensures var l := WorldOf(id, b.transfers[id]);
            var (r, books) := Post(b.books, row);
            var l' := Step(id, l, e.(funds := r.Moved?));
            && l'.journal == (if r.Moved? then l.journal + [row] else l.journal)
            && books.journal == (if r.Moved? then b.books.journal + [row] else b.books.journal)
            && (r.Moved? ==> !Posted(l.journal, row))
  {
    KeyLinked(b, id, row);
    hide Posted, WorldOf, HandleReceipt, Expire, Sent;
  }

  lemma NoOpeningsAppend(journal: seq<Row>, rows: seq<Row>)
    requires NoOpeningRows(journal) && forall r :: r in rows ==> !r.jtx.Opening?
    ensures NoOpeningRows(journal + rows)
  {
    forall i | 0 <= i < |journal + rows| ensures !(journal + rows)[i].jtx.Opening? {
      if i >= |journal| { assert (journal + rows)[i] in rows; }
    }
  }

  /** One transfer's entry replaced by one whose journal has moved with the books. */
  lemma EntryKeeps(b: Bank, b': Bank, id: string, rows: seq<Row>)
    requires BankInvariant(b) && id in b.transfers && id in b'.transfers
    requires b'.transfers == b.transfers[id := b'.transfers[id]]
    requires b'.interest == b.interest && b'.opening == b.opening && Consistent(b.opening, b'.books)
    requires b'.books.journal == b.books.journal + rows
    requires WorldOf(id, b'.transfers[id]).journal == WorldOf(id, b.transfers[id]).journal + rows
    requires forall r :: r in rows ==> OwnRow(id, r)
    requires Sum(b'.books.accounts) - Sum(b.books.accounts)
          == Net(WorldOf(id, b'.transfers[id]).journal) - Net(WorldOf(id, b.transfers[id]).journal)
    ensures BankInvariant(b')
  {
    hide WorldOf, Consistent, Net, Sum;
    assert Nets(b') == Nets(b)[id := Net(WorldOf(id, b'.transfers[id]).journal)];
    SumUpdate(Nets(b), id, Net(WorldOf(id, b'.transfers[id]).journal));
    NoOpeningsAppend(b.books.journal, rows);
    forall x, r | OwnRow(x, r)
      ensures r in b'.books.journal <==> x in b'.transfers && r in WorldOf(x, b'.transfers[x]).journal
    {
      assert r in b.books.journal <==> x in b.transfers && r in WorldOf(x, b.transfers[x]).journal;
      if x != id { assert r !in rows; }
    }
  }

  lemma UnaskedKeeps(b: Bank, id: string, e: Event)
    requires BankInvariant(b) && id in b.transfers && Asked(id, WorldOf(id, b.transfers[id]), e).None?
    ensures BankInvariant(Happened(b, id, e))
  {
    hide WorldOf, Consistent, Net, Nets, Sum, Linked, Step, Asked;
    NextWorld(id, b.transfers[id], e);
    UnaskedJournal(id, WorldOf(id, b.transfers[id]), e);
    EntryKeeps(b, Happened(b, id, e), id, []);
  }

  lemma HappenedAsked(b: Bank, id: string, e: Event, row: Row)
    requires id in b.transfers && Asked(id, WorldOf(id, b.transfers[id]), e) == Some(row)
    ensures e.DeliverStep?
    ensures var (r, books) := Post(b.books, row);
            var next := Next(b.transfers[id], e.(funds := r.Moved?));
            Happened(b, id, e) == if r.Rejected? then b else Bank(books, b.opening, b.interest, b.transfers[id := next])
  {
    assert e.DeliverStep?;
    hide Post, WorldOf;
  }

  lemma InvariantParts(b: Bank)
    requires BankInvariant(b)
    ensures Consistent(b.opening, b.books) && Linked(b)
  {
  }

  lemma AskedKeeps(b: Bank, id: string, e: Event, row: Row)
    requires BankInvariant(b) && id in b.transfers && Asked(id, WorldOf(id, b.transfers[id]), e) == Some(row)
    ensures BankInvariant(Happened(b, id, e))
  {
    hide *;
    var s := b.transfers[id];
    InvariantParts(b);
    AskedRow(id, s, e);
    AskedJournal(b, id, e, row);
    PostKeepsBooks(b.opening, b.books, row);
    HappenedAsked(b, id, e, row);
    var r := Post(b.books, row).0;
    if r.Rejected? { return; }
    NextWorld(id, s, e.(funds := r.Moved?));
    NetAppend(WorldOf(id, s).journal, row);
    var rows := if r.Moved? then [row] else [];
    assert WorldOf(id, s).journal + [] == WorldOf(id, s).journal;
    assert b.books.journal + [] == b.books.journal;
    EntryKeeps(b, Happened(b, id, e), id, rows);
  }

  lemma HappensKeeps(b: Bank, id: string, e: Event)
    requires BankInvariant(b) && id in b.transfers
    ensures BankInvariant(Happened(b, id, e))
  {
    hide BankInvariant, Asked, WorldOf;
    match Asked(id, WorldOf(id, b.transfers[id]), e)
    case None => UnaskedKeeps(b, id, e);
    case Some(row) => AskedKeeps(b, id, e, row);
  }

  lemma FreshWorld(id: string, s: Started)
    requires s.events == []
    ensures WorldOf(id, s).journal == [] && Net(WorldOf(id, s).journal) == 0
  {
  }

  lemma SubmitKeeps(b: Bank, id: string, s: Started)
    requires BankInvariant(b) && id !in b.transfers && s.events == []
    ensures BankInvariant(b.(transfers := b.transfers[id := s]))
  {
    var b' := b.(transfers := b.transfers[id := s]);
    hide WorldOf, Consistent, Net, Sum;
    FreshWorld(id, s);
    assert Nets(b') == Nets(b)[id := 0];
    SumInsert(Nets(b), id, 0);
    forall x, r | OwnRow(x, r)
      ensures r in b'.books.journal <==> x in b'.transfers && r in WorldOf(x, b'.transfers[x]).journal
    {
      assert r in b.books.journal <==> x in b.transfers && r in WorldOf(x, b.transfers[x]).journal;
    }
  }

  /** Movements that belong to no transfer. */
  lemma OutsideKeeps(b: Bank, b': Bank, rows: seq<Row>)
    requires BankInvariant(b) && b'.transfers == b.transfers && b'.opening == b.opening && Consistent(b.opening, b'.books)
    requires b'.books.journal == b.books.journal + rows
    requires forall r :: r in rows ==> r.jtx.Local? || r.jtx.Interest?
    requires Sum(b'.books.accounts) - Sum(b.books.accounts) == b'.interest - b.interest
    ensures BankInvariant(b')
  {
    hide WorldOf, Consistent, Net, Sum;
    assert Nets(b') == Nets(b);
    NoOpeningsAppend(b.books.journal, rows);
    forall x, r | OwnRow(x, r)
      ensures r in b'.books.journal <==> x in b'.transfers && r in WorldOf(x, b'.transfers[x]).journal
    {
      assert r in b.books.journal <==> x in b.transfers && r in WorldOf(x, b.transfers[x]).journal;
    }
  }

  /** A new account has nothing posted. */
  lemma OpenConsistent(opening: map<Account, int>, b: Books, a: Account, balance: int)
    requires Consistent(opening, b) && a !in b.accounts && balance >= 0
    ensures Consistent(opening[a := balance], b.(accounts := b.accounts[a := balance]))
  {
    SignedOutside(b.journal, a);
    hide Signed, UniqueKeys;
  }

  lemma OpenKeeps(b: Bank, a: Account, balance: int)
    requires BankInvariant(b) && a !in b.books.accounts && balance >= 0
    ensures BankInvariant(BankStep(b, OpenAccount(a, balance)))
  {
    var b' := BankStep(b, OpenAccount(a, balance));
    OpenConsistent(b.opening, b.books, a, balance);
    SumInsert(b.books.accounts, a, balance);
    SumInsert(b.opening, a, balance);
    assert b.opening.Keys == b.books.accounts.Keys;
    hide WorldOf, Net, Sum, Consistent, NoOpeningRows;
    assert Nets(b') == Nets(b);
    forall x, r | OwnRow(x, r)
      ensures r in b'.books.journal <==> x in b'.transfers && r in WorldOf(x, b'.transfers[x]).journal
    {
      assert r in b.books.journal <==> x in b.transfers && r in WorldOf(x, b.transfers[x]).journal;
    }
  }

  lemma BankStepKeeps(b: Bank, e: BankEvent)
    requires BankInvariant(b)
    ensures BankInvariant(BankStep(b, e))
  {
    hide WorldOf, Net, Sum, Linked, Posted, Consistent;
    match e
    case OpenAccount(a, balance) =>
      if a !in b.books.accounts && balance >= 0 { OpenKeeps(b, a, balance); }
    case Submit(id, from, to, amount, lost) =>
      if id !in b.transfers { SubmitKeeps(b, id, Started(from, to, amount, lost, [])); }
    case Happens(id, ev) => if id in b.transfers { HappensKeeps(b, id, ev); }
    case MoveLocally(nonce, from, to, amount) =>
      if amount > 0 {
        TransferConserves(b.opening, b.books, nonce, from, to, amount);
        hide Transfer;
        var r := Transfer(b.books, nonce, from, to, amount).0;
        OutsideKeeps(b, BankStep(b, e),
          if r.Moved? then [Row(Local(nonce), from, Debit, amount), Row(Local(nonce), to, Credit, amount)] else []);
      }
    case PayInterest(date, account, amount) =>
      if amount > 0 {
        var row := InterestRow(date, account, amount);
        PostKeepsBooks(b.opening, b.books, row);
        hide Post;
        OutsideKeeps(b, BankStep(b, e), if Post(b.books, row).0.Moved? then [row] else []);
      }
  }

  /** Over every run of the bank, accounts being opened all along: no balance is negative, every balance is its
      opening plus its journal, and the grand total is openings plus interest plus what the transfers'
      journals net to. */
  lemma {:induction false} BankInvariantAlways(run: seq<BankEvent>)
    ensures BankInvariant(BankRun(EMPTY, run))
  {
    if run == [] {
      assert Nets(EMPTY) == map[];
    } else {
      BankInvariantAlways(run[..|run| - 1]);
      hide BankInvariant;
      BankStepKeeps(BankRun(EMPTY, run[..|run| - 1]), run[|run| - 1]);
    }
  }

  // ---------- conservation ----------

  /** A transfer that has ended: COMMITTED, or COMPENSATED with nothing in flight. */
  ghost predicate Ended(id: string, s: Started) {
    WorldOf(id, s).tx.status.Committed? || Resting(WorldOf(id, s))
  }

  /** What an ended transfer leaves missing. */
  ghost function Missing(id: string, s: Started): int {
    if WorldOf(id, s).tx.status.Compensated? && LateIn(id, Initial(s), s.events) then s.amount else 0
  }

  /** A committed transfer nets to zero. */
  lemma CommittedNet(id: string, s: Started)
    requires WorldOf(id, s).tx.status.Committed?
    ensures Net(WorldOf(id, s).journal) == 0
  {
    WorldInvariant(id, s);
    var reqs, l := TransferSteps(s.from, s.to, s.amount), WorldOf(id, s);
    CommittedExactlyOnce(id, reqs, l);
    hide WorldOf, DoneIsPosted, PostedIsKnown, BagMatches, Net, UniqueKeys;
    PostingOfRow(id, s.from, s.to, s.amount, l.tx, 0);
    PostingOfRow(id, s.from, s.to, s.amount, l.tx, 1);
    assert Posting(id, l.tx.steps[0]) in l.journal && Posting(id, l.tx.steps[1]) in l.journal;
    NetOfPostings(id, s.from, s.to, s.amount, l.journal);
  }

  lemma EndedNet(id: string, s: Started)
    requires Ended(id, s)
    ensures Net(WorldOf(id, s).journal) == -Missing(id, s)
  {
    if WorldOf(id, s).tx.status.Committed? {
      CommittedNet(id, s);
    } else {
      TransferConservation(id, s.from, s.to, s.amount, s.lost, s.events);
    }
  }

  /** Every registered transfer has ended. */
  ghost predicate AllEnded(b: Bank) {
    forall id :: id in b.transfers ==> Ended(id, b.transfers[id])
  }

  /** What the ended transfers leave missing, one by one. */
  ghost function Losses(b: Bank): map<string, int> {
    map id | id in b.transfers :: Missing(id, b.transfers[id])
  }

  /** MAIN THEOREM. Whatever happened, once every transfer has ended the bank holds its openings and the
      interest it paid, less the amounts of exactly the compensated transfers that saw a LateDebit. */
  lemma BankConservation(run: seq<BankEvent>)
    requires AllEnded(BankRun(EMPTY, run))
    ensures var b := BankRun(EMPTY, run);
            && (forall a :: a in b.books.accounts ==> b.books.accounts[a] >= 0)
            && Sum(b.books.accounts) == Sum(b.opening) + b.interest - Sum(Losses(b))
  {
    BankInvariantAlways(run);
    var b := BankRun(EMPTY, run);
    forall id | id in Nets(b) ensures Nets(b)[id] == -Losses(b)[id] { EndedNet(id, b.transfers[id]); }
    hide BankRun, WorldOf, Missing, Ended, Sum;
    SumNegated(Nets(b), Losses(b));
  }

  lemma InvariantForMirror(b: Bank)
    requires BankInvariant(b)
    ensures Consistent(b.opening, b.books) && NoOpeningRows(b.books.journal)
    ensures forall a :: a in b.opening ==> b.opening[a] >= 0
  {
    hide Consistent, NoOpeningRows;
  }

  /** And once every balance event has reached ADM, in any order and with any repeats, the mirror's total is
      that same amount, whatever the transfers lost; reconcile confirms it if and only if every ACTIVE unit
      answers and the other units' accounts are empty. So reconcile never shows a LateDebit's loss. */
  lemma MirrorOfBank(run: seq<BankEvent>, deliveries: seq<Row>, routes: seq<Route>, answers: seq<Option<int>>)
    requires AllEnded(BankRun(EMPTY, run))
    requires var b := BankRun(EMPTY, run); AllReported(b.opening, b.books.journal, Elements(deliveries))
    requires |answers| == |routes| && DistinctUnits(routes)
    requires Truthful(BankRun(EMPTY, run).books.accounts, routes, answers)
    ensures var b := BankRun(EMPTY, run);
            var mirror := Sum(AbsorbAll(deliveries).balances);
            && mirror == Sum(b.opening) + b.interest - Sum(Losses(b))
            && (AllAnswered(routes, answers) && Total(routes, answers) == mirror
                <==> AllAnswered(routes, answers) && forall a :: a in LeftOut(b.books.accounts, routes) ==> b.books.accounts[a] == 0)
  {
    BankConservation(run);
    BankInvariantAlways(run);
    var b := BankRun(EMPTY, run);
    hide *;
    InvariantForMirror(b);
    MirrorTotal(b.opening, b.books, deliveries);
    ReconcileAgrees(b.opening, b.books, deliveries, routes, answers);
  }

  // ---------- a transfer that goes through ----------

  /** A unit's turn at a step message the books can take. */
  lemma BankApplies(b: Bank, id: string, m: Message, row: Row)
    requires id in b.transfers && m in WorldOf(id, b.transfers[id]).bag && m.StepMessage?
    requires StepRowOf(id, m.action, m.account, m.amount) == Some(row) && Post(b.books, row).0.Moved?
    ensures var e := DeliverStep(m, true, true);
            BankStep(b, Happens(id, e)) == b.(books := Post(b.books, row).1, transfers := b.transfers[id := Next(b.transfers[id], e)])
  {
    hide WorldOf, Post;
  }

  lemma BankHandles(b: Bank, id: string, e: Event)
    requires id in b.transfers && e.DeliverReceipt?
    ensures BankStep(b, Happens(id, e)) == b.(transfers := b.transfers[id := Next(b.transfers[id], e)])
  {
    hide WorldOf, Post;
  }

  lemma BankNext(run: seq<BankEvent>, e: BankEvent)
    ensures BankRun(EMPTY, run + [e]) == BankStep(BankRun(EMPTY, run), e)
  {
    assert (run + [e])[..|run|] == run;
    hide BankStep;
  }

  /** The accounts opened and the transfer submitted. */
  function Submitted(id: string, from: Account, to: Account, x: int, y: int, amount: int): seq<BankEvent> {
    [OpenAccount(from, x), OpenAccount(to, y), Submit(id, from, to, amount, {})]
  }

  lemma SubmittedBank(id: string, from: Account, to: Account, x: int, y: int, amount: int)
    requires from != to && 0 <= x && 0 <= y
    ensures var accounts := map[from := x, to := y];
            BankRun(EMPTY, Submitted(id, from, to, x, y, amount))
            == Bank(Books(accounts, []), accounts, 0, map[id := Started(from, to, amount, {}, [])])
  {
    var run := Submitted(id, from, to, x, y, amount);
    assert run == [] + [run[0]] + [run[1]] + [run[2]];
    assert BankRun(EMPTY, []) == EMPTY;
    BankNext([], run[0]);
    BankNext([] + [run[0]], run[1]);
    BankNext([] + [run[0]] + [run[1]], run[2]);
    hide BankRun;
    assert map[from := x][to := y] == map[from := x, to := y];
    assert EMPTY.books.accounts[from := x] == map[from := x];
  }

  /** One step of the transfer, applied and reported. */
  function OneStep(id: string, m: Message): seq<BankEvent> {
    [Happens(id, DeliverStep(m, true, true)), Happens(id, DeliverReceipt(Receipt(m.stepNo, true), {}))]
  }

  lemma OneStepBank(run: seq<BankEvent>, id: string, m: Message, row: Row)
    requires var b := BankRun(EMPTY, run);
             && id in b.transfers && m in WorldOf(id, b.transfers[id]).bag && m.StepMessage?
             && StepRowOf(id, m.action, m.account, m.amount) == Some(row) && Post(b.books, row).0.Moved?
    ensures var b := BankRun(EMPTY, run);
            var s := b.transfers[id];
            BankRun(EMPTY, run + OneStep(id, m))
            == b.(books := Post(b.books, row).1,
                  transfers := b.transfers[id := s.(events := s.events + [DeliverStep(m, true, true), DeliverReceipt(Receipt(m.stepNo, true), {})])])
  {
    var b := BankRun(EMPTY, run);
    var s := b.transfers[id];
    var e1, e2 := DeliverStep(m, true, true), DeliverReceipt(Receipt(m.stepNo, true), {});
    assert run + OneStep(id, m) == run + [Happens(id, e1)] + [Happens(id, e2)];
    hide *;
    BankApplies(b, id, m, row);
    BankNext(run, Happens(id, e1));
    BankHandles(BankStep(b, Happens(id, e1)), id, e2);
    BankNext(run + [Happens(id, e1)], Happens(id, e2));
    TwoEvents(b.transfers, id, s, e1, e2);
  }

  lemma TwoEvents(transfers: map<string, Started>, id: string, s: Started, e1: Event, e2: Event)
    ensures transfers[id := Next(s, e1)][id := Next(Next(s, e1), e2)] == transfers[id := s.(events := s.events + [e1, e2])]
  {
    assert s.events + [e1] + [e2] == s.events + [e1, e2];
  }

  /** The transfer's world once k of its steps are done. */
  lemma StepsDone(id: string, from: Account, to: Account, amount: int, s: Started, k: nat)
    requires k <= 2 && s == Started(from, to, amount, {}, Committing(TransferSteps(from, to, amount), k))
    ensures var m := if k == 0 then StepMessage(1, DebitAction, from, amount) else StepMessage(2, CreditAction, to, amount);
            k < 2 ==> m in WorldOf(id, s).bag
    ensures k == 2 ==> WorldOf(id, s).tx.status.Committed?
  {
    var reqs := TransferSteps(from, to, amount);
    TransferIsValid(from, to, amount);
    CommittingReaches(id, reqs, k);
    if k < 2 { SentWithout(reqs, k + 1); }
    hide Exec, Committing, Sent, ValidRequest;
  }

  lemma CommittingIs(from: Account, to: Account, amount: int)
    ensures var reqs := TransferSteps(from, to, amount);
            && Committing(reqs, 0) == []
            && Committing(reqs, 1) == [DeliverStep(StepMessage(1, DebitAction, from, amount), true, true), DeliverReceipt(Receipt(1, true), {})]
            && Committing(reqs, 2) == Committing(reqs, 1)
                 + [DeliverStep(StepMessage(2, CreditAction, to, amount), true, true), DeliverReceipt(Receipt(2, true), {})]
  {
    var reqs := TransferSteps(from, to, amount);
    assert Committing(reqs, 0) == [];
  }

  /** MAIN THEOREM. A transfer the source can pay goes through: the bank can come to hold its amount on the target,
      taken from the source and nothing else, with the transaction COMMITTED. */
  lemma TransferGoesThrough(id: string, from: Account, to: Account, x: int, y: int, amount: int)
    requires from != to && 0 < amount <= x && 0 <= y
    ensures var run := Submitted(id, from, to, x, y, amount) + OneStep(id, StepMessage(1, DebitAction, from, amount))
                       + OneStep(id, StepMessage(2, CreditAction, to, amount));
            var b := BankRun(EMPTY, run);
            && b.books.accounts == map[from := x - amount, to := y + amount] && b.interest == 0
            && id in b.transfers && WorldOf(id, b.transfers[id]).tx.status.Committed?
  {
    var m1, m2 := StepMessage(1, DebitAction, from, amount), StepMessage(2, CreditAction, to, amount);
    var row1, row2 := Row(Original(id), from, Debit, amount), Row(Original(id), to, Credit, amount);
    var run := Submitted(id, from, to, x, y, amount);
    SubmittedBank(id, from, to, x, y, amount);
    CommittingIs(from, to, amount);
    var paid := Books(map[from := x - amount, to := y], [row1]);
    BothMove(from, to, x, y, amount, row1, row2);
    var s := Started(from, to, amount, {}, []);
    StepsDone(id, from, to, amount, s, 0);
    hide BankRun, WorldOf, Submitted, OneStep, Committing, Post;
    OneStepBank(run, id, m1, row1);
    var s1 := s.(events := Committing(TransferSteps(from, to, amount), 1));
    StepsDone(id, from, to, amount, s1, 1);
    assert [] + Committing(TransferSteps(from, to, amount), 1) == Committing(TransferSteps(from, to, amount), 1);
    OneStepBank(run + OneStep(id, m1), id, m2, row2);
    StepsDone(id, from, to, amount, s.(events := Committing(TransferSteps(from, to, amount), 2)), 2);
  }

  lemma BothMove(from: Account, to: Account, x: int, y: int, amount: int, row1: Row, row2: Row)
    requires from != to && 0 < amount <= x && 0 <= y
    requires row1.account == from && row1.dir.Debit? && row1.amount == amount
    requires row2.account == to && row2.dir.Credit? && row2.amount == amount
    ensures var paid := Books(map[from := x - amount, to := y], [row1]);
            && Post(Books(map[from := x, to := y], []), row1) == (Moved, paid)
            && Post(paid, row2) == (Moved, Books(map[from := x - amount, to := y + amount], [row1, row2]))
  {
    assert map[from := x, to := y][from := x - amount] == map[from := x - amount, to := y];
    assert map[from := x - amount, to := y][to := y + amount] == map[from := x - amount, to := y + amount];
    assert [] + [row1] == [row1] && [row1] + [row2] == [row1, row2];
    assert !SameKey([row1][0], row2);
  }

  /** Local transfers and interest do to the books what the units do, and nothing to the transfers. */
  lemma OtherBankSteps(b: Bank, nonce: string, from: Account, to: Account, amount: int, date: string)
    requires amount > 0
    ensures BankStep(b, MoveLocally(nonce, from, to, amount)) == b.(books := Transfer(b.books, nonce, from, to, amount).1)
    ensures BankStep(b, PayInterest(date, to, amount)).books == Post(b.books, InterestRow(date, to, amount)).1
    ensures BankStep(b, PayInterest(date, to, amount)).transfers == b.transfers
  {
  }
}
