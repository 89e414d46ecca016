/** Sums of integer-valued maps. */
module Sums {

  ghost function Pick<K>(m: map<K, int>): (k: K)
    requires m != map[]
    ensures k in m
  {
    var k :| k in m;
    k
  }

  /** The sum of all values of a map. */
  ghost function Sum<K>(m: map<K, int>): int
    decreases |m|
  {
    if m == map[] then 0
    else
      var k := Pick(m);
      m[k] + Sum(m - {k})
  }

  /** The order in which keys are taken does not matter. */
  lemma {:induction false} SumRemove<K>(m: map<K, int>, k: K)
    requires k in m
    ensures Sum(m) == m[k] + Sum(m - {k})
    decreases |m|
  {
    var p := Pick(m);
    if p != k {
      SumRemove(m - {p}, k);
      SumRemove(m - {k}, p);
      assert m - {p} - {k} == m - {k} - {p};
    }
  }

  lemma SumInsert<K>(m: map<K, int>, k: K, v: int)
    requires k !in m
    ensures Sum(m[k := v]) == Sum(m) + v
  {
    SumRemove(m[k := v], k);
    assert m[k := v] - {k} == m;
  }

  lemma SumUpdate<K>(m: map<K, int>, k: K, v: int)
    requires k in m
    ensures Sum(m[k := v]) == Sum(m) - m[k] + v
  {
    SumRemove(m, k);
    SumRemove(m[k := v], k);
    assert m[k := v] - {k} == m - {k};
  }

  /** The entries with a key in `part`. */
  function Within<K>(m: map<K, int>, part: set<K>): map<K, int> {
    m - (m.Keys - part)
  }

  /** A sum taken in two parts. */
  lemma {:induction false} SumSplit<K>(m: map<K, int>, part: set<K>)
    ensures Sum(m) == Sum(m - part) + Sum(Within(m, part))
    decreases |m|
  {
    if m != map[] {
      var k := Pick(m);
      SumSplit(m - {k}, part);
      if k in part {
        SumRemove(Within(m, part), k);
        assert Within(m, part) - {k} == Within(m - {k}, part);
        assert m - {k} - part == m - part;
      } else {
        SumRemove(m - part, k);
        assert m - {k} - part == m - part - {k};
        assert Within(m - {k}, part) == Within(m, part);
      }
    } else {
      assert m - part == map[] && Within(m, part) == map[];
    }
  }

  /** Values that are not negative sum to zero only when all are zero. */
  lemma {:induction false} SumOfNonNegative<K>(m: map<K, int>)
    requires forall k :: k in m ==> m[k] >= 0
    ensures Sum(m) >= 0
    ensures Sum(m) == 0 <==> forall k :: k in m ==> m[k] == 0
    decreases |m|
  {
    if m != map[] {
      var p := Pick(m);
      SumOfNonNegative(m - {p});
      assert forall k :: k in m ==> k == p || k in m - {p};
    }
  }

  lemma {:induction false} SumNegated<K>(a: map<K, int>, b: map<K, int>)
    requires a.Keys == b.Keys && forall k :: k in a ==> a[k] == -b[k]
    ensures Sum(a) == -Sum(b)
    decreases |a|
  {
    if a != map[] {
      var k := Pick(a);
      SumRemove(b, k);
      SumNegated(a - {k}, b - {k});
    } else {
      assert b == map[];
    }
  }
}

/** Accounts, the journal and a single fund movement
    (templates/bank_dcn/internal/dcnapp/transfer.go, templates/bank_dcn/db/init/dcn/01_init.sql). */
module Ledger {
  import opened Common
  import opened Contracts
  import opened Sums

  /** An account of one DCN unit. */
  datatype Account = Account(dcn: string, id: int)

  /** The tx_id of a journal row or balance event. JournalText says what text each key stands for;
      `Opening` is used by events only, never journaled. */
  datatype JournalTx =
    | Original(tx: string)
    | Compensation(tx: string)
    | Local(nonce: string)
    | Interest(date: string, id: int)
    | Opening(id: int)

  datatype Row = Row(jtx: JournalTx, account: Account, dir: Direction, amount: int)

  /** The tables of the units: `account` and `journal`. One unit holds the accounts of its own dcn;
      the books of the whole bank are the union of the units' books. */
  datatype Books = Books(accounts: map<Account, int>, journal: seq<Row>)

  /** `Rejected`: the account table's CHECK (balance >= 0) refused the update. */
  datatype MoveResult = Moved | Duplicate | Insufficient | NotFound | Rejected

  /** Unique key uk_tx_acct (tx_id, account_id, direction). */
  predicate SameKey(a: Row, b: Row) {
    a.jtx == b.jtx && a.account == b.account && a.dir == b.dir
  }

  predicate Posted(journal: seq<Row>, row: Row) {
    exists i :: 0 <= i < |journal| && SameKey(journal[i], row)
  }

  predicate UniqueKeys(journal: seq<Row>) {
    forall i, j :: 0 <= i < j < |journal| ==> !SameKey(journal[i], journal[j])
  }

  /** applyMovement inside an open transaction, for an amount of any sign: the journal row goes in first,
      then the balance moves. An update that changes nothing counts no row, so an amount of zero is refused
      like a missing account. A refused movement leaves the row in the open transaction; the caller rolls
      it back. */
  function Movement(b: Books, row: Row): (MoveResult, Books) {
    if Posted(b.journal, row) then (Duplicate, b)
    else
      var inserted := b.(journal := b.journal + [row]);
      if row.dir.Debit? then
        if row.account in b.accounts && b.accounts[row.account] >= row.amount && row.amount != 0 then
          (Moved, inserted.(accounts := b.accounts[row.account := b.accounts[row.account] - row.amount]))
        else (Insufficient, inserted)
      else
        if row.account !in b.accounts || row.amount == 0 then (NotFound, inserted)
        else if b.accounts[row.account] + row.amount < 0 then (Rejected, inserted)
        else (Moved, inserted.(accounts := b.accounts[row.account := b.accounts[row.account] + row.amount]))
  }

  /** applyMovement in a transaction of its own: committed when it moved, rolled back otherwise. */
  function Post(b: Books, row: Row): (MoveResult, Books) {
    var (r, after) := Movement(b, row);
    if r.Moved? then (r, after) else (r, b)
  }

  /** The signed sum of the journal rows of one account. */
  function Signed(journal: seq<Row>, a: Account): int {
    if journal == [] then 0
    else
      var last := journal[|journal| - 1];
      Signed(journal[..|journal| - 1], a) + (if last.account == a then Delta(last.dir, last.amount) else 0)
  }

  /** The signed sum of journal rows over all accounts. */
  function Net(journal: seq<Row>): int {
    if journal == [] then 0
    else Net(journal[..|journal| - 1]) + Delta(journal[|journal| - 1].dir, journal[|journal| - 1].amount)
  }

  /** The books agree with the openings and the journal, and no balance is negative. */
  ghost predicate Consistent(opening: map<Account, int>, b: Books) {
    && opening.Keys == b.accounts.Keys
    && UniqueKeys(b.journal)
    && (forall i :: 0 <= i < |b.journal| ==> b.journal[i].account in b.accounts)
    && (forall a :: a in b.accounts ==> b.accounts[a] >= 0)
    && (forall a {:trigger Signed(b.journal, a)} :: a in b.accounts ==> b.accounts[a] == opening[a] + Signed(b.journal, a))
  }

  lemma SignedAppend(journal: seq<Row>, row: Row, a: Account)
    ensures Signed(journal + [row], a)
         == Signed(journal, a) + (if row.account == a then Delta(row.dir, row.amount) else 0)
  {
    assert (journal + [row])[..|journal|] == journal;
  }

  lemma NetAppend(journal: seq<Row>, row: Row)
    ensures Net(journal + [row]) == Net(journal) + Delta(row.dir, row.amount)
  {
    assert (journal + [row])[..|journal|] == journal;
  }

  /** Whatever the amount and its sign, every balance stays the opening plus the signed journal and never
      goes negative; a movement is applied exactly when its key is new, its amount is not zero and the
      account can take it, and it changes nothing else. Each refusal has its own cause; only a negative CREDIT is
      ever rejected. */
  lemma PostKeepsBooks(opening: map<Account, int>, b: Books, row: Row)
    requires Consistent(opening, b)
    ensures Consistent(opening, Post(b, row).1)
    ensures Post(b, row).0.Moved? <==>
              !Posted(b.journal, row) && row.amount != 0 && row.account in b.accounts
              && b.accounts[row.account] + Delta(row.dir, row.amount) >= 0
    ensures Post(b, row).0.Duplicate? <==> Posted(b.journal, row)
    ensures Post(b, row).0.Insufficient? <==>
              !Posted(b.journal, row) && row.dir.Debit?
              && !(row.amount != 0 && row.account in b.accounts && b.accounts[row.account] >= row.amount)
    ensures Post(b, row).0.NotFound? <==>
              !Posted(b.journal, row) && row.dir.Credit? && (row.account !in b.accounts || row.amount == 0)
    ensures Post(b, row).0.Rejected? <==>
              !Posted(b.journal, row) && row.dir.Credit? && row.account in b.accounts && b.accounts[row.account] + row.amount < 0
              && row.amount != 0
    ensures Post(b, row).0.Moved? ==> Post(b, row).1.journal == b.journal + [row]
    ensures !Post(b, row).0.Moved? ==> Post(b, row).1 == b
    ensures Sum(Post(b, row).1.accounts)
         == Sum(b.accounts) + (if Post(b, row).0.Moved? then Delta(row.dir, row.amount) else 0)
  {
    if Post(b, row).0.Moved? {
      MovedKeeps(opening, b, row);
    }
  }

  lemma MovedKeeps(opening: map<Account, int>, b: Books, row: Row)
    requires Consistent(opening, b) && Post(b, row).0.Moved?
    ensures Consistent(opening, Post(b, row).1)
    ensures Sum(Post(b, row).1.accounts) == Sum(b.accounts) + Delta(row.dir, row.amount)
  {
    var after := Post(b, row).1;
    assert after == Books(b.accounts[row.account := b.accounts[row.account] + Delta(row.dir, row.amount)], b.journal + [row]);
    SumUpdate(b.accounts, row.account, b.accounts[row.account] + Delta(row.dir, row.amount));
    forall i | 0 <= i < |b.journal| ensures !SameKey(b.journal[i], row) { }
    assert !Posted(b.journal, row);
    hide Movement, Post, Posted, SameKey, Sum;
    forall a | a in after.accounts ensures after.accounts[a] == opening[a] + Signed(after.journal, a) {
      SignedAppend(b.journal, row, a);
    }
  }

  /** Replaying a movement any number of times adds nothing more, whatever happened in between. */
  lemma ReplayAddsNothing(b: Books, row: Row, later: seq<Row>, accounts: map<Account, int>)
    requires Post(b, row).0.Moved?
    ensures var after := Books(accounts, Post(b, row).1.journal + later);
            Post(after, row) == (Duplicate, after)
  {
    var journal := Post(b, row).1.journal + later;
    assert journal[|b.journal|] == row;
  }
}

/** The text of a journal key (templates/bank_dcn/internal/contracts/messages.go, and transfer.go, interest.go
    and server.go of templates/bank_dcn/internal/dcnapp). */
module JournalText {
  import opened Text
  import opened Ledger

  /** The tx_id text a coordinator step is journaled under: the transaction id, with the ":comp" suffix
      for a compensation. */
  function StepText(tx: string, comp: bool): string {
    if comp then tx + ":comp" else tx
  }

  predicate EndsWith(s: string, suffix: string) {
    |suffix| <= |s| && s[|s| - |suffix|..] == suffix
  }

  /** Two steps share a journal key text exactly when they are the same step kind of the same transaction,
      or one transaction id is the other's id with ":comp" appended. So with no id ending in ":comp" the
      `Original`/`Compensation` keys stand for distinct texts. */
  lemma KeyTextsCollide(a: string, ca: bool, b: string, cb: bool)
    ensures StepText(a, ca) == StepText(b, cb) <==>
              (ca == cb && a == b) || (ca && !cb && b == a + ":comp") || (!ca && cb && a == b + ":comp")
    ensures !EndsWith(a, ":comp") && !EndsWith(b, ":comp") && StepText(a, ca) == StepText(b, cb) ==> a == b && ca == cb
  {
    if ca && cb && StepText(a, ca) == StepText(b, cb) {
      assert StepText(a, ca)[..|a|] == a;
      assert StepText(b, cb)[..|b|] == b;
    }
    assert EndsWith(a + ":comp", ":comp") && EndsWith(b + ":comp", ":comp");
  }

  /** The tx_id column. */
  function KeyText(k: JournalTx): string {
    match k
    case Original(tx) => StepText(tx, false)
    case Compensation(tx) => StepText(tx, true)
    case Local(nonce) => "local-" + nonce
    case Interest(date, id) => "interest-" + date + "-" + PrintInt(id)
    case Opening(id) => "init-" + PrintInt(id)
  }

  /** A transaction id that looks like none of the keys the units make up themselves. */
  predicate Plain(tx: string) {
    !EndsWith(tx, ":comp") && !("local-" <= tx) && !("interest-" <= tx) && !("init-" <= tx)
  }

  /** The key of a row of account `id`: interest and opening keys name their account. */
  predicate KeyOf(k: JournalTx, id: int) {
    match k
    case Interest(_, account) => account == id
    case Opening(account) => account == id
    case _ => true
  }

  predicate PlainKey(k: JournalTx) {
    match k
    case Original(tx) => Plain(tx)
    case Compensation(tx) => Plain(tx)
    case _ => true
  }

  /** Appending ":comp" does not make a text start with a prefix that has no colon. */
  lemma PrefixOfComp(tx: string, prefix: string)
    requires prefix <= tx + ":comp" && ':' !in prefix
    ensures prefix <= tx
  {
    assert (tx + ":comp")[|tx|] == ':';
    assert (tx + ":comp")[..|tx|] == tx;
  }

  /** What kind of key a text belongs to. */
  lemma KindOfText(k: JournalTx)
    requires PlainKey(k)
    ensures "local-" <= KeyText(k) <==> k.Local?
    ensures "interest-" <= KeyText(k) <==> k.Interest?
    ensures "init-" <= KeyText(k) <==> k.Opening?
    ensures k.Original? || k.Compensation? ==> (EndsWith(KeyText(k), ":comp") <==> k.Compensation?)
  {
    match k
    case Compensation(tx) =>
      if "local-" <= KeyText(k) { PrefixOfComp(tx, "local-"); }
      if "interest-" <= KeyText(k) { PrefixOfComp(tx, "interest-"); }
      if "init-" <= KeyText(k) { PrefixOfComp(tx, "init-"); }
    case Original(_) =>
    case Local(nonce) => assert KeyText(k)[0] == 'l';
    case Interest(_, _) => assert KeyText(k)[0] == 'i' && KeyText(k)[2] == 't';
    case Opening(_) => assert KeyText(k)[0] == 'i' && KeyText(k)[2] == 'i';
  }

  lemma AppendCancels(prefix: string, a: string, b: string, suffix: string)
    requires prefix + a + suffix == prefix + b + suffix
    ensures a == b
  {
    var s, t := prefix + a + suffix, prefix + b + suffix;
    assert s[|prefix|..|s| - |suffix|] == a && t[|prefix|..|t| - |suffix|] == b;
  }

  lemma InterestTexts(date: string, other: string, id: int)
    requires KeyText(Interest(date, id)) == KeyText(Interest(other, id))
    ensures date == other
  {
    hide PrintInt;
    var suffix := "-" + PrintInt(id);
    assert KeyText(Interest(date, id)) == "interest-" + date + suffix;
    assert KeyText(Interest(other, id)) == "interest-" + other + suffix;
    hide KeyText;
    AppendCancels("interest-", date, other, suffix);
  }

  lemma StepTexts(tx: string, other: string)
    requires KeyText(Compensation(tx)) == KeyText(Compensation(other)) || KeyText(Original(tx)) == KeyText(Original(other))
          || KeyText(Local(tx)) == KeyText(Local(other))
    ensures tx == other
  {
    if KeyText(Compensation(tx)) == KeyText(Compensation(other)) {
      assert "" + tx == tx && "" + other == other;
      AppendCancels("", tx, other, ":comp");
    }
    if KeyText(Local(tx)) == KeyText(Local(other)) {
      assert "local-" + tx + "" == "local-" + tx && "local-" + other + "" == "local-" + other;
      AppendCancels("local-", tx, other, "");
    }
  }

  /** Two rows of one account share the text of their tx_id exactly when the model's keys are equal, provided
      the transaction ids are plain. So the unique key on texts is the unique key on keys. */
  lemma KeyTextsAgree(k: JournalTx, l: JournalTx, id: int)
    requires PlainKey(k) && PlainKey(l) && KeyOf(k, id) && KeyOf(l, id)
    ensures KeyText(k) == KeyText(l) <==> k == l
  {
    hide KeyText, PlainKey, EndsWith;
    if KeyText(k) == KeyText(l) {
      KindOfText(k);
      KindOfText(l);
      match k
      case Original(tx) => StepTexts(tx, l.tx);
      case Compensation(tx) => StepTexts(tx, l.tx);
      case Local(nonce) => StepTexts(nonce, l.nonce);
      case Interest(date, _) => InterestTexts(date, l.date, id);
      case Opening(_) =>
    }
  }
}
