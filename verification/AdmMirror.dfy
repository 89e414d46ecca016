/** The ADM global mirror: balances rebuilt from deduplicated balance events
    (templates/bank_dcn/internal/adm/server.go). Account ids are unique bank-wide, so an event's
    account names its unit as well. */
module AdmMirror {
  import opened Common
  import opened Contracts
  import opened Ledger
  import opened Sums
  import opened DcnUnit

  /** Tables event_log and global_balance. */
  datatype View = View(log: seq<Row>, balances: map<Account, int>)

  /** handleEvent: the event_log insert deduplicates by uk_event (tx_id, account_id, direction). */
  function Absorb(v: View, e: Row): View {
    if Posted(v.log, e) then v
    else View(v.log + [e], v.balances[e.account := Mirrored(v, e.account) + Delta(e.dir, e.amount)])
  }

  function Mirrored(v: View, a: Account): int {
    if a in v.balances then v.balances[a] else 0
  }

  /** The mirror after a delivery sequence, duplicates and all. */
  function AbsorbAll(deliveries: seq<Row>): View {
    if deliveries == [] then View([], map[])
    else Absorb(AbsorbAll(deliveries[..|deliveries| - 1]), deliveries[|deliveries| - 1])
  }

  class Mirror {
    var log: seq<Row>
    var balances: map<Account, int>

    constructor ()
      ensures View(log, balances) == AbsorbAll([])
    {
      log, balances := [], map[];
    }

    method HandleEvent(e: Row)
      modifies this
      ensures View(log, balances) == Absorb(old(View(log, balances)), e)
    {
      if Posted(log, e) { return; }
      log := log + [e];
      var delta := if e.dir.Debit? then -e.amount else e.amount;
      if e.account in balances {
        balances := balances[e.account := balances[e.account] + delta];
      } else {
        balances := balances[e.account := delta];
      }
    }
  }

  /** A row of the route table, one per unit; `active` is its status 'ACTIVE'. */
  datatype Route = Route(dcn: string, active: bool)

  /** dcn is the route table's primary key. */
  predicate DistinctUnits(routes: seq<Route>) {
    forall i, j :: 0 <= i < j < |routes| ==> routes[i].dcn != routes[j].dcn
  }

  /** Every ACTIVE unit answered. */
  predicate AllAnswered(routes: seq<Route>, answers: seq<Option<int>>)
    requires |answers| == |routes|
  {
    forall i :: 0 <= i < |routes| && routes[i].active ==> answers[i].Some?
  }

  /** The sum of the ACTIVE units' answers. */
  function Total(routes: seq<Route>, answers: seq<Option<int>>): int
    requires |answers| == |routes|
  {
    if routes == [] then 0
    else
      var n := |routes| - 1;
      Total(routes[..n], answers[..n])
      + (if routes[n].active && answers[n].Some? then answers[n].value else 0)
  }

  /** handleReconcile: `answers` are the balance sums the units would give, None for one that fails to; units
      that are not ACTIVE are not asked. */
  method Reconcile(admTotal: int, routes: seq<Route>, answers: seq<Option<int>>) returns (consistent: bool)
    requires |answers| == |routes|
    ensures consistent <==> AllAnswered(routes, answers) && Total(routes, answers) == admTotal
  {
    var total, failed := 0, false;
    for i := 0 to |routes|
      invariant total == Total(routes[..i], answers[..i])
      invariant failed <==> exists j :: 0 <= j < i && routes[j].active && answers[j].None?
    {
      assert routes[..i + 1][..i] == routes[..i] && answers[..i + 1][..i] == answers[..i];
      if !routes[i].active { continue; }
      match answers[i] {
        case None => failed := true;
        case Some(sum) => total := total + sum;
      }
    }
    assert routes[..|routes|] == routes && answers[..|answers|] == answers;
    return !failed && total == admTotal;
  }

  // ---------- what the mirror holds ----------

  /** Events that share a key are the same event. */
  ghost predicate KeysAgree(events: set<Row>) {
    forall x, y :: x in events && y in events && SameKey(x, y) ==> x == y
  }

  ghost function Elements(s: seq<Row>): set<Row> {
    set i | 0 <= i < |s| :: s[i]
  }

  lemma ElementsAppend(s: seq<Row>, e: Row)
    ensures Elements(s + [e]) == Elements(s) + {e}
  {
    var t := s + [e];
    assert t[|s|] == e;
    forall x | x in Elements(s) ensures x in Elements(t) {
      var i :| 0 <= i < |s| && s[i] == x;
      assert t[i] == x;
    }
  }

  /** The log holds each delivered event exactly once, and the mirror is the signed sum of the log. */
  lemma {:induction false} AbsorbAllMeaning(deliveries: seq<Row>)
    requires KeysAgree(Elements(deliveries))
    ensures var v := AbsorbAll(deliveries);
            && UniqueKeys(v.log)
            && Elements(v.log) == Elements(deliveries)
            && (forall a :: Mirrored(v, a) == Signed(v.log, a))
  {
    if deliveries != [] {
      var rest, e := deliveries[..|deliveries| - 1], deliveries[|deliveries| - 1];
      assert deliveries == rest + [e];
      ElementsAppend(rest, e);
      AbsorbAllMeaning(rest);
      var v := AbsorbAll(rest);
      if Posted(v.log, e) {
        var i :| 0 <= i < |v.log| && SameKey(v.log[i], e);
        assert v.log[i] in Elements(v.log);
      } else {
        ElementsAppend(v.log, e);
        forall a ensures Mirrored(Absorb(v, e), a) == Signed(v.log + [e], a) {
          SignedAppend(v.log, e, a);
        }
      }
    }
  }

  lemma {:induction false} SignedRemove(s: seq<Row>, i: nat, a: Account)
    requires i < |s|
    ensures Signed(s, a) == Signed(s[..i] + s[i + 1..], a) + (if s[i].account == a then Delta(s[i].dir, s[i].amount) else 0)
  {
    var n := |s| - 1;
    if i < n {
      SignedRemove(s[..n], i, a);
      assert (s[..i] + s[i + 1..])[..n - 1] == s[..n][..i] + s[..n][i + 1..];
    } else {
      assert s[..i] + s[i + 1..] == s[..n];
    }
  }

  /** Taking one row out of a list without repeated keys. */
  lemma RemoveRow(s: seq<Row>, i: nat)
    requires i < |s| && UniqueKeys(s)
    ensures UniqueKeys(s[..i] + s[i + 1..])
    ensures Elements(s[..i] + s[i + 1..]) == Elements(s) - {s[i]}
  {
    var t := s[..i] + s[i + 1..];
    forall x | x in Elements(s) - {s[i]} ensures x in Elements(t) {
      var j :| 0 <= j < |s| && s[j] == x;
      assert t[if j < i then j else j - 1] == x;
    }
    forall j | 0 <= j < |t| ensures t[j] in Elements(s) && !SameKey(t[j], s[i]) {
      var k := if j < i then j else j + 1;
      assert t[j] == s[k];
    }
  }

  /** Two lists without repeated keys and with the same rows post the same amounts. */
  lemma {:induction false} SameRowsSameSum(s: seq<Row>, t: seq<Row>, a: Account)
    requires UniqueKeys(s) && UniqueKeys(t) && Elements(s) == Elements(t)
    ensures Signed(s, a) == Signed(t, a)
    decreases |s|
  {
    assert |t| > 0 ==> t[0] in Elements(t);
    if s == [] {
      assert Elements(t) == {};
    } else {
      var n := |s| - 1;
      assert s[n] in Elements(t);
      var i :| 0 <= i < |t| && t[i] == s[n];
      RemoveRow(s, n);
      RemoveRow(t, i);
      assert s[..n] + s[n + 1..] == s[..n];
      SameRowsSameSum(s[..n], t[..i] + t[i + 1..], a);
      SignedRemove(t, i, a);
    }
  }

  /** The mirror depends only on the set of events delivered: order and duplicates do not matter. */
  lemma MirrorIgnoresOrderAndDuplicates(d1: seq<Row>, d2: seq<Row>, a: Account)
    requires Elements(d1) == Elements(d2) && KeysAgree(Elements(d1))
    ensures Mirrored(AbsorbAll(d1), a) == Mirrored(AbsorbAll(d2), a)
  {
    AbsorbAllMeaning(d1);
    AbsorbAllMeaning(d2);
    SameRowsSameSum(AbsorbAll(d1).log, AbsorbAll(d2).log, a);
  }

  // ---------- the mirror against the units' books ----------

  /** All events of the bank: one per journal row, one per positive opening balance. */
  ghost predicate AllReported(opening: map<Account, int>, journal: seq<Row>, events: set<Row>) {
    forall e :: e in events <==> Reported(opening, journal, e)
  }

  predicate NoOpeningRows(journal: seq<Row>) {
    forall i :: 0 <= i < |journal| ==> !journal[i].jtx.Opening?
  }

  lemma ReportedKeysAgree(opening: map<Account, int>, journal: seq<Row>, events: set<Row>)
    requires AllReported(opening, journal, events) && UniqueKeys(journal) && NoOpeningRows(journal)
    ensures KeysAgree(events)
  {
    forall x, y | x in events && y in events && SameKey(x, y) ensures x == y {
      assert Reported(opening, journal, x) && Reported(opening, journal, y);
    }
  }

  /** A log of opening events alone sums to the opening balance. */
  lemma {:induction false} OpeningsSum(opening: map<Account, int>, log: seq<Row>, a: Account)
    requires UniqueKeys(log)
    requires forall i :: 0 <= i < |log| ==> Reported(opening, [], log[i])
    ensures Signed(log, a)
         == if a in opening && opening[a] > 0 && OpeningEvent(a, opening[a]) in log then opening[a] else 0
  {
    if log != [] {
      var n := |log| - 1;
      OpeningsSum(opening, log[..n], a);
      assert Reported(opening, [], log[n]);
      if a in opening && opening[a] > 0 {
        var e := OpeningEvent(a, opening[a]);
        assert e in log <==> e in log[..n] || e == log[n];
        assert forall i :: 0 <= i < n ==> !SameKey(log[i], log[n]);
      }
    }
  }

  /** A log holding the journal rows and the opening events sums to opening plus journal. */
  lemma {:induction false} LogSum(opening: map<Account, int>, journal: seq<Row>, log: seq<Row>, a: Account)
    requires UniqueKeys(journal) && NoOpeningRows(journal) && UniqueKeys(log)
    requires AllReported(opening, journal, Elements(log))
    requires a in opening && opening[a] >= 0
    ensures Signed(log, a) == opening[a] + Signed(journal, a)
    decreases |journal|
  {
    if journal == [] {
      forall i | 0 <= i < |log| ensures Reported(opening, [], log[i]) { assert log[i] in Elements(log); }
      if opening[a] > 0 { assert Reported(opening, [], OpeningEvent(a, opening[a])); }
      OpeningsSum(opening, log, a);
    } else {
      var n := |journal| - 1;
      var row := journal[n];
      assert Reported(opening, journal, row);
      var i :| 0 <= i < |log| && log[i] == row;
      var log' := log[..i] + log[i + 1..];
      RemoveRow(log, i);
      RemoveRow(journal, n);
      assert journal[..n] + journal[n + 1..] == journal[..n];
      forall e ensures e in Elements(log') <==> Reported(opening, journal[..n], e) {
        assert e in journal[..n] <==> e in Elements(journal[..n]);
        assert e in journal <==> e in Elements(journal);
      }
      LogSum(opening, journal[..n], log', a);
      SignedRemove(log, i, a);
    }
  }

  /** Once every event has arrived at least once, in any order and with any duplicates, the mirror equals
      the units' balances account by account. */
  lemma MirrorEqualsBooks(opening: map<Account, int>, b: Books, deliveries: seq<Row>, a: Account)
    requires Consistent(opening, b) && NoOpeningRows(b.journal)
    requires forall x :: x in opening ==> opening[x] >= 0
    requires AllReported(opening, b.journal, Elements(deliveries))
    requires a in b.accounts
    ensures Mirrored(AbsorbAll(deliveries), a) == b.accounts[a]
  {
    ReportedKeysAgree(opening, b.journal, Elements(deliveries));
    AbsorbAllMeaning(deliveries);
    LogSum(opening, b.journal, AbsorbAll(deliveries).log, a);
  }

  /** Accounts that never had an event are missing from the mirror and hold zero. */
  lemma {:induction false} SumOfMirror(mirror: map<Account, int>, accounts: map<Account, int>)
    requires mirror.Keys <= accounts.Keys
    requires forall a :: a in accounts ==> accounts[a] == if a in mirror then mirror[a] else 0
    ensures Sum(mirror) == Sum(accounts)
    decreases |accounts|
  {
    if accounts == map[] {
      assert mirror == map[];
    } else {
      var k := Pick(accounts);
      SumRemove(accounts, k);
      if k in mirror { SumRemove(mirror, k); } else { assert mirror - {k} == mirror; }
      SumOfMirror(mirror - {k}, accounts - {k});
    }
  }

  lemma {:induction false} MirrorKeys(deliveries: seq<Row>, a: Account)
    requires a in AbsorbAll(deliveries).balances
    ensures exists i :: 0 <= i < |deliveries| && deliveries[i].account == a
  {
    var n := |deliveries| - 1;
    if deliveries[n].account != a {
      MirrorKeys(deliveries[..n], a);
      var i :| 0 <= i < n && deliveries[i].account == a;
      assert deliveries[i].account == a;
    }
  }

  /** Then the mirror's total is the bank's. */
  lemma MirrorTotal(opening: map<Account, int>, b: Books, deliveries: seq<Row>)
    requires Consistent(opening, b) && NoOpeningRows(b.journal)
    requires forall x :: x in opening ==> opening[x] >= 0
    requires AllReported(opening, b.journal, Elements(deliveries))
    ensures Sum(AbsorbAll(deliveries).balances) == Sum(b.accounts)
  {
    var mirror := AbsorbAll(deliveries).balances;
    forall a | a in mirror ensures a in b.accounts {
      MirrorKeys(deliveries, a);
      var i :| 0 <= i < |deliveries| && deliveries[i].account == a;
      assert deliveries[i] in Elements(deliveries);
      assert Reported(opening, b.journal, deliveries[i]);
    }
    forall a | a in b.accounts ensures b.accounts[a] == if a in mirror then mirror[a] else 0 {
      MirrorEqualsBooks(opening, b, deliveries, a);
    }
    SumOfMirror(mirror, b.accounts);
  }

  // ---------- reconciliation ----------

  /** The accounts of the listed units that are ACTIVE. */
  function QueriedAccounts(accounts: map<Account, int>, routes: seq<Route>): set<Account> {
    set a | a in accounts && exists i :: 0 <= i < |routes| && routes[i].active && routes[i].dcn == a.dcn
  }

  /** What a unit's balance-sum adds up: the accounts of its own table. */
  function OfUnit(accounts: map<Account, int>, dcn: string): map<Account, int> {
    map a | a in accounts && a.dcn == dcn :: accounts[a]
  }

  /** Every unit that answers gives the sum of its own accounts. */
  ghost predicate Truthful(accounts: map<Account, int>, routes: seq<Route>, answers: seq<Option<int>>)
    requires |answers| == |routes|
  {
    forall i :: 0 <= i < |routes| && routes[i].active && answers[i].Some? ==>
      answers[i].value == Sum(OfUnit(accounts, routes[i].dcn))
  }

  /** One more unit on the list adds its own accounts and no others. */
  lemma QueriedNext(accounts: map<Account, int>, routes: seq<Route>)
    requires routes != [] && DistinctUnits(routes)
    ensures var n := |routes| - 1;
            var before := QueriedAccounts(accounts, routes[..n]);
            var now := QueriedAccounts(accounts, routes);
            && before <= now
            && Within(accounts, now) - before == if routes[n].active then OfUnit(accounts, routes[n].dcn) else map[]
  {
    var n := |routes| - 1;
    var before, now := QueriedAccounts(accounts, routes[..n]), QueriedAccounts(accounts, routes);
    forall a | a in accounts
      ensures a in now <==> a in before || (routes[n].active && routes[n].dcn == a.dcn)
      ensures a in before ==> a.dcn != routes[n].dcn
    {
      if a in before {
        var i :| 0 <= i < n && routes[..n][i].active && routes[..n][i].dcn == a.dcn;
        assert routes[i].active && routes[i].dcn == a.dcn;
      }
      if routes[n].active && routes[n].dcn == a.dcn { assert a in now; }
    }
  }

  /** The answers add up to the balances of the accounts behind them. */
  lemma {:induction false} AnswersTotal(accounts: map<Account, int>, routes: seq<Route>, answers: seq<Option<int>>)
    requires |answers| == |routes| && DistinctUnits(routes)
    requires AllAnswered(routes, answers) && Truthful(accounts, routes, answers)
    ensures Total(routes, answers) == Sum(Within(accounts, QueriedAccounts(accounts, routes)))
  {
    if routes == [] {
      assert Within(accounts, QueriedAccounts(accounts, routes)) == map[];
    } else {
      var n := |routes| - 1;
      var before, now := QueriedAccounts(accounts, routes[..n]), QueriedAccounts(accounts, routes);
      AnswersTotal(accounts, routes[..n], answers[..n]);
      QueriedNext(accounts, routes);
      SumSplit(Within(accounts, now), before);
      assert Within(Within(accounts, now), before) == Within(accounts, before);
    }
  }

  lemma AbsorbNew(v: View, e: Row)
    requires !Posted(v.log, e)
    ensures Sum(Absorb(v, e).balances) == Sum(v.balances) + Delta(e.dir, e.amount)
    ensures Absorb(v, e).log == v.log + [e]
  {
    if e.account in v.balances {
      SumUpdate(v.balances, e.account, v.balances[e.account] + Delta(e.dir, e.amount));
    } else {
      SumInsert(v.balances, e.account, Delta(e.dir, e.amount));
    }
  }

  /** A key outside a log is also outside the log with other keys added. */
  lemma NotPostedAfter(log: seq<Row>, more: seq<Row>, e: Row)
    requires !Posted(log, e) && forall i :: 0 <= i < |more| ==> !SameKey(more[i], e)
    ensures !Posted(log + more, e)
  {
    forall k | 0 <= k < |log + more| ensures !SameKey((log + more)[k], e) {
      if k < |log| { assert (log + more)[k] == log[k]; } else { assert (log + more)[k] == more[k - |log|]; }
    }
  }

  lemma AbsorbAllNext(deliveries: seq<Row>, e: Row)
    ensures AbsorbAll(deliveries + [e]) == Absorb(AbsorbAll(deliveries), e)
  {
    assert (deliveries + [e])[..|deliveries|] == deliveries;
  }

  /** Events under new keys add their net. */
  lemma {:induction false} AbsorbedTotal(deliveries: seq<Row>, missing: seq<Row>)
    requires UniqueKeys(missing)
    requires forall i :: 0 <= i < |missing| ==> !Posted(AbsorbAll(deliveries).log, missing[i])
    ensures Sum(AbsorbAll(deliveries + missing).balances) == Sum(AbsorbAll(deliveries).balances) + Net(missing)
    ensures AbsorbAll(deliveries + missing).log == AbsorbAll(deliveries).log + missing
  {
    hide SameKey, Posted, Sum, Absorb, AbsorbAll;
    if missing == [] {
      assert deliveries + missing == deliveries;
    } else {
      var n := |missing| - 1;
      var rest, e := missing[..n], missing[n];
      AbsorbedTotal(deliveries, rest);
      assert deliveries + missing == deliveries + rest + [e] && missing == rest + [e];
      AbsorbAllNext(deliveries + rest, e);
      NotPostedAfter(AbsorbAll(deliveries).log, rest, e);
      AbsorbNew(AbsorbAll(deliveries + rest), e);
    }
  }

  /** `missing` lists the reported events that have not arrived, each once. */
  ghost predicate StillMissing(opening: map<Account, int>, journal: seq<Row>, deliveries: seq<Row>, missing: seq<Row>) {
    && UniqueKeys(missing)
    && AllReported(opening, journal, Elements(deliveries) + Elements(missing))
    && (forall i :: 0 <= i < |missing| ==> missing[i] !in Elements(deliveries))
  }

  /** What the mirror's total lacks is exactly the sum of the events that have not arrived. */
  lemma MirrorLacks(opening: map<Account, int>, b: Books, deliveries: seq<Row>, missing: seq<Row>)
    requires Consistent(opening, b) && NoOpeningRows(b.journal)
    requires forall x :: x in opening ==> opening[x] >= 0
    requires StillMissing(opening, b.journal, deliveries, missing)
    ensures Sum(AbsorbAll(deliveries).balances) + Net(missing) == Sum(b.accounts)
  {
    var all := deliveries + missing;
    assert Elements(all) == Elements(deliveries) + Elements(missing) by {
      forall i | 0 <= i < |deliveries| ensures all[i] == deliveries[i] { }
      forall i | 0 <= i < |missing| ensures all[|deliveries| + i] == missing[i] { }
    }
    ReportedKeysAgree(opening, b.journal, Elements(all));
    AbsorbAllMeaning(deliveries);
    var log := AbsorbAll(deliveries).log;
    forall i | 0 <= i < |missing| ensures !Posted(log, missing[i]) {
      assert missing[i] in Elements(missing);
      forall k | 0 <= k < |log| ensures !SameKey(log[k], missing[i]) { assert log[k] in Elements(log); }
    }
    AbsorbedTotal(deliveries, missing);
    MirrorTotal(opening, b, all);
  }

  /** The accounts no ACTIVE unit on the list answers for. */
  function LeftOut(accounts: map<Account, int>, routes: seq<Route>): map<Account, int> {
    accounts - QueriedAccounts(accounts, routes)
  }

  /** MAIN THEOREM. Reconcile reports consistent if and only if every ACTIVE unit answers and the events that
      have not arrived sum to the balances of the units left out. */
  lemma ReconcileMeaning(opening: map<Account, int>, b: Books, deliveries: seq<Row>, missing: seq<Row>,
                         routes: seq<Route>, answers: seq<Option<int>>)
    requires Consistent(opening, b) && NoOpeningRows(b.journal)
    requires forall x :: x in opening ==> opening[x] >= 0
    requires StillMissing(opening, b.journal, deliveries, missing)
    requires |answers| == |routes| && DistinctUnits(routes) && Truthful(b.accounts, routes, answers)
    ensures AllAnswered(routes, answers) && Total(routes, answers) == Sum(AbsorbAll(deliveries).balances)
       <==> AllAnswered(routes, answers) && Net(missing) == Sum(LeftOut(b.accounts, routes))
  {
    MirrorLacks(opening, b, deliveries, missing);
    SumSplit(b.accounts, QueriedAccounts(b.accounts, routes));
    if AllAnswered(routes, answers) { AnswersTotal(b.accounts, routes, answers); }
  }

  /** So once every event has arrived, in any order and with any repeats, it reports consistent if and only if
      every ACTIVE unit answers and every account of the other units is empty. */
  lemma ReconcileAgrees(opening: map<Account, int>, b: Books, deliveries: seq<Row>,
                        routes: seq<Route>, answers: seq<Option<int>>)
    requires Consistent(opening, b) && NoOpeningRows(b.journal)
    requires forall x :: x in opening ==> opening[x] >= 0
    requires AllReported(opening, b.journal, Elements(deliveries))
    requires |answers| == |routes| && DistinctUnits(routes) && Truthful(b.accounts, routes, answers)
    ensures AllAnswered(routes, answers) && Total(routes, answers) == Sum(AbsorbAll(deliveries).balances)
       <==> AllAnswered(routes, answers) && forall a :: a in LeftOut(b.accounts, routes) ==> b.accounts[a] == 0
  {
    assert Elements(deliveries) + Elements([]) == Elements(deliveries);
    ReconcileMeaning(opening, b, deliveries, [], routes, answers);
    SumOfNonNegative(LeftOut(b.accounts, routes));
  }
}
