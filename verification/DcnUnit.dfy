/** What one DCN unit does to its books, as functions of the books
    (templates/bank_dcn/internal/dcnapp). */
module DcnSpec {
  import opened Common
  import opened Contracts
  import opened Ledger
  import opened Sums

  /** What becomes of a step message. */
  datatype Outcome = Dropped | Requeued | Answered(done: bool)

  predicate AnsweredDone(r: MoveResult) {
    r.Moved? || r.Duplicate?
  }

  /** classifyResult: duplicates count as done, and an update the table refused is an infrastructure error. */
  function Classify(r: MoveResult): Outcome {
    if r.Rejected? then Requeued else Answered(AnsweredDone(r))
  }

  /** The row a step message asks the unit to post; None when the action is unknown and the message dropped. */
  function StepRowOf(tx: string, action: Action, account: Account, amount: int): Option<Row> {
    match StepDirection(action)
    case None => None
    case Some((comp, dir)) => Some(Row(if comp then Compensation(tx) else Original(tx), account, dir, amount))
  }

  /** localTransfer: both movements in one transaction, or neither. */
  function Transfer(b: Books, nonce: string, from: Account, to: Account, amount: int): (MoveResult, Books) {
    var (r1, b1) := Movement(b, Row(Local(nonce), from, Debit, amount));
    if !r1.Moved? then (r1, b)
    else
      var (r2, b2) := Movement(b1, Row(Local(nonce), to, Credit, amount));
      if r2.Moved? then (Moved, b2) else (r2, b)
  }

  function InterestRow(date: string, a: Account, amount: int): Row {
    Row(Interest(date, a.id), a, Credit, amount)
  }

  /** handleInterestBatch over the accounts listed so far: interest is computed on the balances read
      before the loop, and each account is posted in its own transaction. */
  function Batch(b: Books, read: map<Account, int>, order: seq<Account>, date: string, interest: int -> int): Books
    requires forall i :: 0 <= i < |order| ==> order[i] in read
  {
    if order == [] then b
    else
      var a := order[|order| - 1];
      var before := Batch(b, read, order[..|order| - 1], date, interest);
      if interest(read[a]) > 0 then Post(before, InterestRow(date, a, interest(read[a]))).1 else before
  }

  lemma BatchNext(b: Books, read: map<Account, int>, order: seq<Account>, k: nat, date: string, interest: int -> int)
    requires k < |order| && forall i :: 0 <= i < |order| ==> order[i] in read
    ensures var before := Batch(b, read, order[..k], date, interest);
            Batch(b, read, order[..k + 1], date, interest)
            == if interest(read[order[k]]) > 0 then Post(before, InterestRow(date, order[k], interest(read[order[k]]))).1
               else before
  {
    assert order[..k + 1][..k] == order[..k];
  }

  predicate Distinct(order: seq<Account>) {
    forall i, j :: 0 <= i < j < |order| ==> order[i] != order[j]
  }

  /** A local transfer keeps the books consistent and the unit's total unchanged; when it is refused
      nothing changes. It goes through exactly when both keys are new, the source can pay and the
      target exists. */
  lemma TransferConserves(opening: map<Account, int>, b: Books, nonce: string, from: Account, to: Account, amount: int)
    requires Consistent(opening, b) && amount > 0
    ensures var (r, after) := Transfer(b, nonce, from, to, amount);
            && Consistent(opening, after)
            && Sum(after.accounts) == Sum(b.accounts)
            && (!r.Moved? ==> after == b)
            && (r.Moved? ==> after.journal == b.journal + [Row(Local(nonce), from, Debit, amount),
                                                           Row(Local(nonce), to, Credit, amount)])
            && (r.Moved? <==> !Posted(b.journal, Row(Local(nonce), from, Debit, amount))
                              && !Posted(b.journal, Row(Local(nonce), to, Credit, amount))
                              && from in b.accounts && b.accounts[from] >= amount && to in b.accounts)
  {
    var debit, credit := Row(Local(nonce), from, Debit, amount), Row(Local(nonce), to, Credit, amount);
    PostKeepsBooks(opening, b, debit);
    var (r1, b1) := Movement(b, debit);
    if r1.Moved? {
      assert Posted(b1.journal, credit) <==> Posted(b.journal, credit) by {
        assert b1.journal == b.journal + [debit];
        if Posted(b.journal, credit) {
          var i :| 0 <= i < |b.journal| && SameKey(b.journal[i], credit);
          assert SameKey(b1.journal[i], credit);
        }
      }
      PostKeepsBooks(opening, b1, credit);
      if Movement(b1, credit).0.Moved? {
        assert b.journal + [debit] + [credit] == b.journal + [debit, credit];
      }
    }
  }

  /** An account is settled for a date: posted, or nothing due on a balance that has not moved. */
  predicate Settled(b: Books, read: map<Account, int>, a: Account, date: string, interest: int -> int)
    requires a in read
  {
    || Posted(b.journal, InterestRow(date, a, 0))
    || (interest(read[a]) <= 0 && a in b.accounts && b.accounts[a] == read[a])
  }

  /** One turn of the interest loop settles its account and unsettles no other. */
  lemma BatchTurn(opening: map<Account, int>, before: Books, read: map<Account, int>, a: Account,
                  date: string, interest: int -> int)
    requires Consistent(opening, before) && a in read && read.Keys == before.accounts.Keys
    requires before.accounts[a] == read[a]
    ensures var after := if interest(read[a]) > 0 then Post(before, InterestRow(date, a, interest(read[a]))).1 else before;
            && Consistent(opening, after)
            && Settled(after, read, a, date, interest)
            && (forall x :: x in read && x != a ==> after.accounts[x] == before.accounts[x])
            && (forall x :: x in read && x != a && Settled(before, read, x, date, interest)
                  ==> Settled(after, read, x, date, interest))
  {
    if interest(read[a]) > 0 {
      var row := InterestRow(date, a, interest(read[a]));
      PostKeepsBooks(opening, before, row);
      PostedGrows(before, row, InterestRow(date, a, 0));
      forall x | x in read && x != a && Settled(before, read, x, date, interest)
        ensures Settled(Post(before, row).1, read, x, date, interest)
      {
        PostedGrows(before, row, InterestRow(date, x, 0));
      }
    }
  }

  /** What one pass of the interest loop leaves behind: consistent books, every listed account settled,
      every other balance untouched. */
  lemma {:induction false} BatchCovers(opening: map<Account, int>, b: Books, order: seq<Account>,
                                       date: string, interest: int -> int)
    requires Consistent(opening, b) && Distinct(order)
    requires forall i :: 0 <= i < |order| ==> order[i] in b.accounts
    ensures var after := Batch(b, b.accounts, order, date, interest);
            && Consistent(opening, after)
            && (forall a :: a in b.accounts && a !in order ==> after.accounts[a] == b.accounts[a])
            && (forall i :: 0 <= i < |order| ==> Settled(after, b.accounts, order[i], date, interest))
  {
    if order != [] {
      var n := |order| - 1;
      BatchCovers(opening, b, order[..n], date, interest);
      var before := Batch(b, b.accounts, order[..n], date, interest);
      assert order[n] !in order[..n];
      BatchTurn(opening, before, b.accounts, order[n], date, interest);
      var after := Batch(b, b.accounts, order, date, interest);
      forall a | a in b.accounts && a !in order ensures after.accounts[a] == b.accounts[a] {
        assert a !in order[..n] && a != order[n];
      }
      forall i | 0 <= i < |order| ensures Settled(after, b.accounts, order[i], date, interest) {
        if i < n { assert order[..n][i] == order[i]; }
      }
    }
  }

  /** What is due to an account that has not been paid for the date. */
  function Due(b: Books, a: Account, date: string, interest: int -> int): int
    requires a in b.accounts
  {
    if Posted(b.journal, InterestRow(date, a, 0)) || interest(b.accounts[a]) < 0 then 0 else interest(b.accounts[a])
  }

  predicate Paid(b: Books, after: Books, a: Account, date: string, due: int)
    requires a in b.accounts
  {
    a in after.accounts && after.accounts[a] == b.accounts[a] + due && (due > 0 ==> InterestRow(date, a, due) in after.journal)
  }

  /** What a batch pays: every listed account not yet paid for the date gets exactly the interest on the balance
      read, in one row. */
  lemma {:induction false} BatchPays(opening: map<Account, int>, b: Books, order: seq<Account>, date: string, interest: int -> int, k: nat)
    requires Consistent(opening, b) && Distinct(order) && k < |order|
    requires forall i :: 0 <= i < |order| ==> order[i] in b.accounts
    ensures Paid(b, Batch(b, b.accounts, order, date, interest), order[k], date, Due(b, order[k], date, interest))
  {
    var n := |order| - 1;
    var before := Batch(b, b.accounts, order[..n], date, interest);
    var last := order[n];
    BeforeLast(opening, b, order, date, interest);
    hide *;
    if k < n {
      BatchPays(opening, b, order[..n], date, interest, k);
      assert order[k] == order[..n][k] != last;
      if interest(b.accounts[last]) > 0 { StillPaid(opening, b, before, last, date, interest(b.accounts[last]), order[k], Due(b, order[k], date, interest)); }
    } else {
      PaysLast(opening, b, before, last, date, interest);
    }
  }

  lemma BeforeLast(opening: map<Account, int>, b: Books, order: seq<Account>, date: string, interest: int -> int)
    requires Consistent(opening, b) && Distinct(order) && order != []
    requires forall i :: 0 <= i < |order| ==> order[i] in b.accounts
    ensures var n := |order| - 1;
            var last := order[n];
            var before := Batch(b, b.accounts, order[..n], date, interest);
            && Distinct(order[..n]) && last !in order[..n]
            && Consistent(opening, before) && last in before.accounts && before.accounts[last] == b.accounts[last]
            && (Posted(before.journal, InterestRow(date, last, 0)) <==> Posted(b.journal, InterestRow(date, last, 0)))
            && Batch(b, b.accounts, order, date, interest)
               == if interest(b.accounts[last]) > 0 then Post(before, InterestRow(date, last, interest(b.accounts[last]))).1 else before
  {
    var n := |order| - 1;
    assert order[n] !in order[..n];
    BatchCovers(opening, b, order[..n], date, interest);
    BatchKeys(b, b.accounts, order[..n], date, interest, order[n]);
    hide Posted, Post, Settled;
  }

  lemma PaysLast(opening: map<Account, int>, b: Books, before: Books, a: Account, date: string, interest: int -> int)
    requires Consistent(opening, before) && a in b.accounts && a in before.accounts && before.accounts[a] == b.accounts[a]
    requires Posted(before.journal, InterestRow(date, a, 0)) <==> Posted(b.journal, InterestRow(date, a, 0))
    ensures var after := if interest(b.accounts[a]) > 0 then Post(before, InterestRow(date, a, interest(b.accounts[a]))).1 else before;
            Paid(b, after, a, date, Due(b, a, date, interest))
  {
    if interest(b.accounts[a]) > 0 { PaidByPost(opening, before, a, date, interest(b.accounts[a])); }
    hide Consistent, Posted, Post;
  }

  lemma StillPaid(opening: map<Account, int>, b: Books, before: Books, a: Account, date: string, amount: int, other: Account, due: int)
    requires Consistent(opening, before) && a != other && other in b.accounts && Paid(b, before, other, date, due)
    ensures Paid(b, Post(before, InterestRow(date, a, amount)).1, other, date, due)
  {
    UntouchedByPost(opening, before, a, date, amount, other);
    hide Consistent, Post;
  }

  /** A batch takes the key of no account it does not list. */
  lemma {:induction false} BatchKeys(b: Books, read: map<Account, int>, order: seq<Account>, date: string, interest: int -> int, a: Account)
    requires forall i :: 0 <= i < |order| ==> order[i] in read
    requires a !in order
    ensures Posted(Batch(b, read, order, date, interest).journal, InterestRow(date, a, 0)) <==> Posted(b.journal, InterestRow(date, a, 0))
  {
    if order != [] {
      var n := |order| - 1;
      assert a !in order[..n] && a != order[n];
      BatchKeys(b, read, order[..n], date, interest, a);
      var before := Batch(b, read, order[..n], date, interest);
      var row := InterestRow(date, order[n], interest(read[order[n]]));
      PostedGrows(before, row, InterestRow(date, a, 0));
      if Posted(Post(before, row).1.journal, InterestRow(date, a, 0)) {
        var i :| 0 <= i < |Post(before, row).1.journal| && SameKey(Post(before, row).1.journal[i], InterestRow(date, a, 0));
        assert i < |before.journal|;
        assert SameKey(before.journal[i], InterestRow(date, a, 0));
      }
    }
  }

  lemma UntouchedByPost(opening: map<Account, int>, b: Books, a: Account, date: string, amount: int, other: Account)
    requires Consistent(opening, b) && a != other && other in b.accounts
    ensures var after := Post(b, InterestRow(date, a, amount)).1;
            other in after.accounts && after.accounts[other] == b.accounts[other] && b.journal <= after.journal
  {
  }

  lemma PaidByPost(opening: map<Account, int>, b: Books, a: Account, date: string, amount: int)
    requires Consistent(opening, b) && a in b.accounts && amount > 0
    ensures var after := Post(b, InterestRow(date, a, amount)).1;
            if Posted(b.journal, InterestRow(date, a, 0)) then after == b
            else after.accounts == b.accounts[a := b.accounts[a] + amount] && InterestRow(date, a, amount) in after.journal
  {
    SameKeySame(b.journal, InterestRow(date, a, amount), InterestRow(date, a, 0));
    PostKeepsBooks(opening, b, InterestRow(date, a, amount));
  }

  /** Posting never removes a key, and a posted or duplicate row leaves its key present. */
  lemma PostedGrows(b: Books, row: Row, key: Row)
    ensures Posted(b.journal, key) ==> Posted(Post(b, row).1.journal, key)
    ensures AnsweredDone(Post(b, row).0) && SameKey(row, key) ==> Posted(Post(b, row).1.journal, key)
  {
    var after := Post(b, row).1.journal;
    if Posted(b.journal, key) {
      var i :| 0 <= i < |b.journal| && SameKey(b.journal[i], key);
      assert SameKey(after[i], key);
    } else if Post(b, row).0.Moved? && SameKey(row, key) {
      assert SameKey(after[|b.journal|], key);
    }
  }

  /** Running the batch of a date again changes nothing. */
  lemma {:induction false} RerunIsNoOp(after: Books, order: seq<Account>, date: string, interest: int -> int)
    requires forall i :: 0 <= i < |order| ==> order[i] in after.accounts
    requires forall i :: 0 <= i < |order| ==>
               Posted(after.journal, InterestRow(date, order[i], 0)) || interest(after.accounts[order[i]]) <= 0
    ensures Batch(after, after.accounts, order, date, interest) == after
  {
    if order != [] {
      var n := |order| - 1;
      RerunIsNoOp(after, order[..n], date, interest);
      var a := order[n];
      if Posted(after.journal, InterestRow(date, a, 0)) {
        var i :| 0 <= i < |after.journal| && SameKey(after.journal[i], InterestRow(date, a, 0));
        assert SameKey(after.journal[i], InterestRow(date, a, interest(after.accounts[a])));
      }
    }
  }

  lemma PostedExtends(journal: seq<Row>, longer: seq<Row>, key: Row)
    requires journal <= longer && Posted(journal, key)
    ensures Posted(longer, key)
  {
    var i :| 0 <= i < |journal| && SameKey(journal[i], key);
    assert SameKey(longer[i], key);
  }

  /** A batch passes over an account whose interest of the date is journaled, whatever the accounts read,
      their order and the rate. */
  lemma {:induction false} PostedIsSkipped(b: Books, read: map<Account, int>, order: seq<Account>,
                                           date: string, interest: int -> int, a: Account)
    requires forall i :: 0 <= i < |order| ==> order[i] in read
    requires Posted(b.journal, InterestRow(date, a, 0))
    ensures var after := Batch(b, read, order, date, interest);
            && b.journal <= after.journal
            && (forall k :: |b.journal| <= k < |after.journal| ==> after.journal[k].account != a)
            && after.accounts.Keys == b.accounts.Keys
            && (a in b.accounts ==> after.accounts[a] == b.accounts[a])
  {
    if order != [] {
      var n := |order| - 1;
      PostedIsSkipped(b, read, order[..n], date, interest, a);
      var before := Batch(b, read, order[..n], date, interest);
      PostedExtends(b.journal, before.journal, InterestRow(date, a, 0));
      if order[n] == a {
        var i :| 0 <= i < |before.journal| && SameKey(before.journal[i], InterestRow(date, a, 0));
        assert SameKey(before.journal[i], InterestRow(date, a, interest(read[a])));
      }
    }
  }

  /** Interest of one date is posted at most once per account, however often the batch runs and whatever is
      posted in between: a later batch of the date adds no row and no amount to an account the first one
      paid. Straight after the first batch a second one changes nothing at all. */
  lemma InterestBatchIdempotent(opening: map<Account, int>, b: Books, order: seq<Account>, date: string, interest: int -> int,
                                since: seq<Row>, accounts: map<Account, int>,
                                read: map<Account, int>, order': seq<Account>, interest': int -> int)
    requires Consistent(opening, b) && Distinct(order)
    requires forall i :: 0 <= i < |order| ==> order[i] in b.accounts
    requires forall i :: 0 <= i < |order'| ==> order'[i] in read
    ensures var once := Batch(b, b.accounts, order, date, interest);
            var later := Books(accounts, once.journal + since);
            var twice := Batch(later, read, order', date, interest');
            && (forall a :: a in order && interest(b.accounts[a]) > 0 ==>
                  && (forall k :: |later.journal| <= k < |twice.journal| ==> twice.journal[k].account != a)
                  && (a in accounts ==> a in twice.accounts && twice.accounts[a] == accounts[a]))
            && once.accounts.Keys == b.accounts.Keys
            && Batch(once, once.accounts, order, date, interest) == once
  {
    BatchCovers(opening, b, order, date, interest);
    var once := Batch(b, b.accounts, order, date, interest);
    RerunIsNoOp(once, order, date, interest);
    forall a | a in order && interest(b.accounts[a]) > 0
      ensures var later := Books(accounts, once.journal + since);
              var twice := Batch(later, read, order', date, interest');
              && (forall k :: |later.journal| <= k < |twice.journal| ==> twice.journal[k].account != a)
              && (a in accounts ==> a in twice.accounts && twice.accounts[a] == accounts[a])
    {
      PostedExtends(once.journal, once.journal + since, InterestRow(date, a, 0));
      PostedIsSkipped(Books(accounts, once.journal + since), read, order', date, interest', a);
    }
  }

  // ---------- postings of several transactions in between ----------

  /** Movements posted one after the other, each in its own transaction. */
  function PostAll(b: Books, rows: seq<Row>): Books {
    if rows == [] then b else Post(PostAll(b, rows[..|rows| - 1]), rows[|rows| - 1]).1
  }

  /** The movements a batch asks for. */
  function BatchRows(read: map<Account, int>, order: seq<Account>, date: string, interest: int -> int): seq<Row>
    requires forall i :: 0 <= i < |order| ==> order[i] in read
  {
    if order == [] then []
    else
      var a := order[|order| - 1];
      BatchRows(read, order[..|order| - 1], date, interest)
      + (if interest(read[a]) > 0 then [InterestRow(date, a, interest(read[a]))] else [])
  }

  lemma {:induction false} BatchIsPosts(b: Books, read: map<Account, int>, order: seq<Account>, date: string, interest: int -> int)
    requires forall i :: 0 <= i < |order| ==> order[i] in read
    ensures Batch(b, read, order, date, interest) == PostAll(b, BatchRows(read, order, date, interest))
  {
    if order != [] {
      var n := |order| - 1;
      BatchIsPosts(b, read, order[..n], date, interest);
      var before, rows := BatchRows(read, order[..n], date, interest), BatchRows(read, order, date, interest);
      if rows != before { assert rows[..|rows| - 1] == before; }
    }
  }

  /** MAIN THEOREM on interest. Let the postings of any number of batches and any other movements fall between
      each other in any way: the books stay consistent, the interest of a date is journaled for an account
      exactly when it was before or some batch asked for it, and never twice. */
  lemma {:induction false} InterestOnceInterleaved(opening: map<Account, int>, b: Books, rows: seq<Row>, date: string, a: Account)
    requires Consistent(opening, b) && a in b.accounts
    requires forall i :: 0 <= i < |rows| && SameKey(rows[i], InterestRow(date, a, 0)) ==> rows[i].amount > 0
    ensures var key := InterestRow(date, a, 0);
            var after := PostAll(b, rows);
            && Consistent(opening, after) && after.accounts.Keys == b.accounts.Keys
            && (Posted(after.journal, key) <==>
                  Posted(b.journal, key) || exists i :: 0 <= i < |rows| && SameKey(rows[i], key))
            && (forall i, j :: 0 <= i < j < |after.journal| && SameKey(after.journal[i], key) ==> !SameKey(after.journal[j], key))
  {
    var key := InterestRow(date, a, 0);
    if rows != [] {
      var n := |rows| - 1;
      InterestOnceInterleaved(opening, b, rows[..n], date, a);
      PostedAfter(opening, PostAll(b, rows[..n]), rows[n], key);
      assert (exists i :: 0 <= i < |rows| && SameKey(rows[i], key)) <==>
               SameKey(rows[n], key) || exists i :: 0 <= i < n && SameKey(rows[..n][i], key) by {
        if i :| 0 <= i < n && SameKey(rows[i], key) { assert SameKey(rows[..n][i], key); }
      }
      hide SameKey, Posted, Post, PostAll;
    }
    UniqueInterest(PostAll(b, rows).journal, key);
  }

  lemma UniqueInterest(journal: seq<Row>, key: Row)
    requires UniqueKeys(journal)
    ensures forall i, j :: 0 <= i < j < |journal| && SameKey(journal[i], key) ==> !SameKey(journal[j], key)
  {
  }

  /** One posting takes a CREDIT's key exactly when it is posted under it, with a positive amount. */
  lemma PostedAfter(opening: map<Account, int>, b: Books, row: Row, key: Row)
    requires Consistent(opening, b) && key.account in b.accounts && key.dir.Credit?
    requires SameKey(row, key) ==> row.amount > 0
    ensures var after := Post(b, row).1;
            && Consistent(opening, after) && after.accounts.Keys == b.accounts.Keys
            && (Posted(after.journal, key) <==> Posted(b.journal, key) || SameKey(row, key))
  {
    PostKeepsBooks(opening, b, row);
    PostedGrows(b, row, key);
    var after := Post(b, row).1;
    if Posted(after.journal, key) {
      var i :| 0 <= i < |after.journal| && SameKey(after.journal[i], key);
      assert i < |b.journal| ==> Posted(b.journal, key);
    }
    if SameKey(row, key) {
      assert b.accounts[key.account] >= 0;
      assert Posted(b.journal, row) <==> Posted(b.journal, key) by { SameKeySame(b.journal, row, key); }
    }
  }

  lemma SameKeySame(journal: seq<Row>, row: Row, key: Row)
    requires SameKey(row, key)
    ensures Posted(journal, row) <==> Posted(journal, key)
  {
    if i :| 0 <= i < |journal| && SameKey(journal[i], row) { assert SameKey(journal[i], key); }
    if i :| 0 <= i < |journal| && SameKey(journal[i], key) { assert SameKey(journal[i], row); }
  }
}

/** The unit itself: tables updated in place, with the transactions the source opens around them. */
module DcnUnit {
  import opened Common
  import opened Contracts
  import opened Ledger
  import opened Sums
  import opened DcnSpec
  import opened JournalText
  import opened Text

  class Unit {
    const dcn: string
    var accounts: map<Account, int>
    var journal: seq<Row>
    var events: seq<Row>                  // balance events handed to the broker, in order
    ghost var opening: map<Account, int>  // balance each account was created with

    ghost predicate Valid()
      reads this
    {
      && Consistent(opening, Books(accounts, journal))
      && (forall a :: a in accounts ==> a.dcn == dcn)
      && (forall i :: 0 <= i < |journal| ==> !journal[i].jtx.Opening?)
      && (forall e :: e in events <==> Reported(opening, journal, e))
    }

    constructor (dcn: string)
      ensures Valid() && accounts == map[] && journal == [] && events == [] && this.dcn == dcn
    {
      this.dcn := dcn;
      accounts, journal, events, opening := map[], [], [], map[];
    }

    /** handleCreateAccount: an account that exists is left alone. */
    method CreateAccount(id: int, balance: int) returns (created: bool)
      requires Valid() && balance >= 0
      modifies this
      ensures Valid() && journal == old(journal)
      ensures created == (Account(dcn, id) !in old(accounts))
      ensures created ==> accounts == old(accounts)[Account(dcn, id) := balance]
                          && opening == old(opening)[Account(dcn, id) := balance]
                          && Sum(accounts) == old(Sum(accounts)) + balance
      ensures !created ==> accounts == old(accounts) && opening == old(opening) && events == old(events)
    {
      var a := Account(dcn, id);
      if a in accounts { return false; }
      SumInsert(accounts, a, balance);
      SignedOutside(journal, a);
      accounts := accounts[a := balance];
      opening := opening[a := balance];
      if balance > 0 {
        events := events + [OpeningEvent(a, balance)];
      }
      assert forall e :: Reported(opening, journal, e) <==>
               Reported(old(opening), journal, e) || (balance > 0 && e == OpeningEvent(a, balance));
      return true;
    }

    /** applyMovement: one journal insert and one balance update in the caller's transaction. */
    method ApplyMovement(row: Row) returns (r: MoveResult)
      modifies this`accounts, this`journal
      ensures (r, Books(accounts, journal)) == Movement(old(Books(accounts, journal)), row)
    {
      if Posted(journal, row) { return Duplicate; }
      journal := journal + [row];
      match row.dir {
        case Debit =>
          if row.account !in accounts || accounts[row.account] < row.amount || row.amount == 0 { return Insufficient; }
          accounts := accounts[row.account := accounts[row.account] - row.amount];
        case Credit =>
          if row.account !in accounts || row.amount == 0 { return NotFound; }
          if accounts[row.account] + row.amount < 0 { return Rejected; }
          accounts := accounts[row.account := accounts[row.account] + row.amount];
      }
      return Moved;
    }

    /** applyStep: commit and report a new movement, roll anything else back. */
    method ApplyStep(row: Row) returns (r: MoveResult)
      requires Valid() && !row.jtx.Opening?
      modifies this
      ensures Valid() && opening == old(opening)
      ensures (r, Books(accounts, journal)) == Post(old(Books(accounts, journal)), row)
      ensures events == if r.Moved? then old(events) + [row] else old(events)
    {
      PostKeepsBooks(opening, Books(accounts, journal), row);
      var savedAccounts, savedJournal := accounts, journal;
      r := ApplyMovement(row);
      if r.Moved? {
        events := events + [row];
      } else {
        accounts, journal := savedAccounts, savedJournal;
      }
    }

    /** handleStep: drop an unknown action, otherwise post and answer with a receipt, or requeue. The amount
        may have any sign: a receipt says DONE exactly when the key is journaled afterwards, and only a
        negative CREDIT beyond the balance is requeued. */
    method HandleStep(tx: string, action: Action, id: int, amount: int) returns (outcome: Outcome)
      requires Valid()
      modifies this
      ensures Valid() && opening == old(opening)
      ensures match StepRowOf(tx, action, Account(dcn, id), amount)
              case None => outcome.Dropped? && Books(accounts, journal) == old(Books(accounts, journal))
              case Some(row) =>
                && outcome == Classify(Post(old(Books(accounts, journal)), row).0)
                && Books(accounts, journal) == Post(old(Books(accounts, journal)), row).1
                && (outcome == Answered(true) <==> Posted(journal, row)) && !outcome.Dropped?
                && (outcome.Requeued? <==> Post(old(Books(accounts, journal)), row).0.Rejected?)
                && (outcome.Requeued? ==> row.dir.Credit? && amount < 0)
    {
      var ask := StepRowOf(tx, action, Account(dcn, id), amount);
      match ask {
        case None => return Dropped;
        case Some(row) =>
          PostedGrows(Books(accounts, journal), row, row);
          PostKeepsBooks(opening, Books(accounts, journal), row);
          var r := ApplyStep(row);
          return Classify(r);
      }
    }

    /** localTransfer: debit then credit in one transaction, both reported after commit. */
    method LocalTransfer(nonce: string, fromId: int, toId: int, amount: int) returns (r: MoveResult)
      requires Valid() && amount > 0
      modifies this
      ensures Valid() && opening == old(opening)
      ensures (r, Books(accounts, journal))
           == Transfer(old(Books(accounts, journal)), nonce, Account(dcn, fromId), Account(dcn, toId), amount)
      ensures Sum(accounts) == old(Sum(accounts))
    {
      var debit := Row(Local(nonce), Account(dcn, fromId), Debit, amount);
      var credit := Row(Local(nonce), Account(dcn, toId), Credit, amount);
      TransferConserves(opening, Books(accounts, journal), nonce, debit.account, credit.account, amount);
      var savedAccounts, savedJournal := accounts, journal;
      r := ApplyMovement(debit);
      if r.Moved? {
        r := ApplyMovement(credit);
      }
      if !r.Moved? {
        accounts, journal := savedAccounts, savedJournal;
        return;
      }
      events := events + [debit, credit];
    }

    /** One turn of the interest loop: its own transaction, a posted date is skipped. */
    method PostInterest(row: Row) returns (moved: bool)
      requires Valid() && row.amount > 0 && row.jtx.Interest? && row.dir.Credit?
      modifies this
      ensures Valid() && opening == old(opening)
      ensures Books(accounts, journal) == Post(old(Books(accounts, journal)), row).1
      ensures Sum(accounts) == old(Sum(accounts)) + (if moved then row.amount else 0)
      ensures |journal| == old(|journal|) + (if moved then 1 else 0)
    {
      PostKeepsBooks(opening, Books(accounts, journal), row);
      var r := ApplyStep(row);
      moved := r.Moved?;
    }

    /** handleInterestBatch: `order` is the account list the query returns. The reported total is exactly
        what the unit's balances grew by. */
    method InterestBatch(date: string, order: seq<Account>, interest: int -> int) returns (count: nat, total: int)
      requires Valid() && Distinct(order)
      requires forall a :: a in order <==> a in accounts
      modifies this
      ensures Valid() && opening == old(opening)
      ensures Books(accounts, journal)
           == Batch(old(Books(accounts, journal)), old(accounts), order, date, interest)
      ensures Sum(accounts) == old(Sum(accounts)) + total
      ensures |journal| == old(|journal|) + count
    {
      count, total := 0, 0;
      var read := accounts;
      for k := 0 to |order|
        invariant Valid() && opening == old(opening)
        invariant Books(accounts, journal)
               == Batch(old(Books(accounts, journal)), old(accounts), order[..k], date, interest)
        invariant Sum(accounts) == old(Sum(accounts)) + total
        invariant |journal| == old(|journal|) + count
      {
        BatchNext(old(Books(accounts, journal)), read, order, k, date, interest);
        var due := interest(read[order[k]]);
        if due > 0 {
          var moved := PostInterest(InterestRow(date, order[k], due));
          if moved {
            count, total := count + 1, total + due;
          }
        }
      }
      assert order[..|order|] == order;
    }
  }

  function OpeningEvent(a: Account, balance: int): Row {
    Row(Opening(a.id), a, Credit, balance)
  }

  /** What the rows the units make up themselves look like in the tables. */
  lemma RowTexts(date: string, a: Account, amount: int, tx: string)
    ensures var paid := InterestRow(date, a, amount);
            paid.account == a && paid.dir.Credit? && paid.amount == amount
            && KeyText(paid.jtx) == "interest-" + date + "-" + PrintInt(a.id)
    ensures var first := OpeningEvent(a, amount);
            first.account == a && first.dir.Credit? && first.amount == amount && KeyText(first.jtx) == "init-" + PrintInt(a.id)
    ensures forall action :: StepRowOf(tx, action, a, amount).Some? ==>
              var row := StepRowOf(tx, action, a, amount).value;
              && row.account == a && row.amount == amount
              && KeyText(row.jtx) == (if IsCompensation(action) then tx + ":comp" else tx)
              && (row.dir.Debit? <==> action in {DebitAction, CompensateCredit})
  {
  }

  /** The events a unit reports: one per journal row, and one per positive opening balance. */
  ghost predicate Reported(opening: map<Account, int>, journal: seq<Row>, e: Row) {
    || e in journal
    || (e.account in opening && opening[e.account] > 0 && e == OpeningEvent(e.account, opening[e.account]))
  }

  /** An account no row mentions has nothing posted. */
  lemma {:induction false} SignedOutside(journal: seq<Row>, a: Account)
    requires forall i :: 0 <= i < |journal| ==> journal[i].account != a
    ensures Signed(journal, a) == 0
  {
    if journal != [] {
      SignedOutside(journal[..|journal| - 1], a);
    }
  }
}
