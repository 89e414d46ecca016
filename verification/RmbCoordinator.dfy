/** The coordinator as the source writes it: rows and retry counters updated in place, `advance`
    scanning the steps with loops. Each method is proved equal to its function in RmbCore. */
module RmbCoordinator {
  import opened Common
  import opened Contracts
  import opened RmbCore
  import opened RmbRows

  class Coordinator {
    var txs: map<string, Tx>
    var published: seq<(string, StepRow)>   // publish calls, in order

    constructor ()
      ensures txs == map[] && published == []
    {
      txs, published := map[], [];
    }

    /** register: an id already present is answered with its current status and left alone; of a new one every
        step is published, in order. */
    method RegisterTx(id: string, steps: seq<Request>) returns (status: TxStatus)
      requires steps != []
      modifies this
      ensures id in old(txs) ==> txs == old(txs) && published == old(published) && status == txs[id].status
      ensures id !in old(txs) ==>
                && txs == old(txs)[id := Register(steps)] && status.Processing?
                && published == old(published) + Tagged(id, Register(steps).steps)
    {
      if id in txs { return txs[id].status; }
      AllPendingPublished(Register(steps).steps);
      txs := txs[id := Register(steps)];
      PublishPending(id);
      return Processing;
    }

    method PublishPending(id: string)
      requires id in txs
      modifies this`published
      ensures published == old(published) + Tagged(id, PendingRows(txs[id].steps))
    {
      var steps := txs[id].steps;
      for i := 0 to |steps|
        invariant published == old(published) + Tagged(id, PendingRows(steps[..i]))
      {
        assert steps[..i + 1][..i] == steps[..i];
        if steps[i].status.Pending? {
          published := published + [(id, steps[i])];
        }
      }
      assert steps[..|steps|] == steps;
    }

    method HandleReceiptMessage(id: string, no: nat, done: bool)
      modifies this
      ensures id !in old(txs) ==> txs == old(txs) && published == old(published)
      ensures id in old(txs) ==>
                && txs == old(txs)[id := HandleReceipt(old(txs)[id], no, done).0]
                && published == old(published)
                     + (if HandleReceipt(old(txs)[id], no, done).1 then Tagged(id, PendingRows(txs[id].steps)) else [])
    {
      if id !in txs { return; }
      var status := StatusOf(txs[id].steps, no);
      if status.None? {
        assert txs == txs[id := txs[id]];
        return;
      }
      txs := txs[id := Record(txs[id], no, done)];
      AdvanceTx(id);
    }

    method ExpireTx(id: string)
      modifies this
      ensures id !in old(txs) ==> txs == old(txs) && published == old(published)
      ensures id in old(txs) ==>
                && txs == old(txs)[id := Expire(old(txs)[id]).0]
                && published == old(published)
                     + (if Expire(old(txs)[id]).1 then Tagged(id, PendingRows(txs[id].steps)) else [])
    {
      if id !in txs { return; }
      assert txs == txs[id := txs[id]];
      if !txs[id].status.Processing? { return; }
      var comps := Compensations(txs[id].steps);
      if |comps| > 0 {
        PublishPending(id);
        return;
      }
      txs := txs[id := txs[id].(steps := FailPending(txs[id].steps))];
      AdvanceTx(id);
    }

    /** advance with its row scans. */
    method AdvanceTx(id: string)
      requires id in txs
      modifies this
      ensures txs == old(txs)[id := Advance(old(txs)[id]).0]
      ensures published == old(published)
                + (if Advance(old(txs)[id]).1 then Tagged(id, PendingRows(txs[id].steps)) else [])
    {
      var tx := txs[id];
      assert txs == txs[id := tx];
      if !tx.status.Processing? { return; }
      var doneOriginals, compSteps, hasFailed, hasPending := ScanSteps(tx.steps);
      if hasFailed || |compSteps| > 0 {
        var missing := |doneOriginals| - |compSteps|;
        if missing > 0 {
          var created := BuildCompensations(tx.steps, doneOriginals, missing);
          txs := txs[id := tx.(steps := tx.steps + created)];
          PublishPending(id);
          return;
        }
        if |compSteps| > 0 {
          var failed := FindFailed(compSteps);
          if failed.Some? {
            var st := failed.value;
            if Attempts(tx, st.stepNo) >= MAX_RETRIES {
              txs := txs[id := tx.(status := Aborted)];
              return;
            }
            txs := txs[id := tx.(steps := Mark(tx.steps, st.stepNo, Failed, Pending),
                                 attempts := tx.attempts[st.stepNo := Attempts(tx, st.stepNo) + 1])];
            PublishPending(id);
            return;
          }
          var waiting := AnyNotDone(compSteps);
          if waiting { return; }
          txs := txs[id := tx.(status := Compensated)];
          return;
        }
        if hasPending { return; }
        txs := txs[id := tx.(status := Compensated)];
        return;
      }
      var open := AnyNotDone(tx.steps);
      if open { return; }
      txs := txs[id := tx.(status := Committed)];
    }

    /** recover: `ids` are the PROCESSING transactions the query lists. Published is every PENDING row of every
        PROCESSING transaction and nothing else. */
    method Recover(ids: seq<string>)
      requires forall id :: id in ids <==> id in txs && txs[id].status.Processing?
      modifies this`published
      ensures published == old(published) + AllTagged(txs, ids)
      ensures forall id, row :: (id, row) in AllTagged(txs, ids) <==>
                id in txs && txs[id].status.Processing? && row in txs[id].steps && row.status.Pending?
    {
      for k := 0 to |ids|
        invariant published == old(published) + AllTagged(txs, ids[..k])
      {
        assert ids[..k + 1][..k] == ids[..k];
        assert ids[k] in ids;
        PublishPending(ids[k]);
      }
      assert ids[..|ids|] == ids;
      forall id, row ensures (id, row) in AllTagged(txs, ids) <==> id in ids && row in txs[id].steps && row.status.Pending? {
        AllTaggedMeaning(txs, ids, id, row);
      }
    }

    /** A restart keeps the tables and forgets the retry counters. */
    method Restart()
      modifies this`txs
      ensures txs == map id | id in old(txs) :: old(txs)[id].(attempts := map[])
    {
      txs := map id | id in txs :: txs[id].(attempts := map[]);
    }
  }

  function AllTagged(txs: map<string, Tx>, ids: seq<string>): seq<(string, StepRow)>
    requires forall i :: 0 <= i < |ids| ==> ids[i] in txs
  {
    if ids == [] then []
    else
      var last := ids[|ids| - 1];
      AllTagged(txs, ids[..|ids| - 1]) + Tagged(last, PendingRows(txs[last].steps))
  }

  lemma {:induction false} AllTaggedMeaning(txs: map<string, Tx>, ids: seq<string>, id: string, row: StepRow)
    requires forall i :: 0 <= i < |ids| ==> ids[i] in txs
    ensures (id, row) in AllTagged(txs, ids) <==> id in ids && row in txs[id].steps && row.status.Pending?
  {
    if ids != [] {
      var n := |ids| - 1;
      AllTaggedMeaning(txs, ids[..n], id, row);
      assert ids == ids[..n] + [ids[n]];
      PublishedIsPending(txs[ids[n]].steps, row);
      TaggedMeaning(ids[n], PendingRows(txs[ids[n]].steps), id, row);
    }
  }

  lemma TaggedMeaning(tag: string, rows: seq<StepRow>, id: string, row: StepRow)
    ensures (id, row) in Tagged(tag, rows) <==> id == tag && row in rows
  {
    if id == tag && row in rows {
      var i :| 0 <= i < |rows| && rows[i] == row;
      assert Tagged(tag, rows)[i] == (id, row);
    }
  }

  function Tagged(id: string, rows: seq<StepRow>): (r: seq<(string, StepRow)>)
    ensures |r| == |rows| && forall i :: 0 <= i < |rows| ==> r[i] == (id, rows[i])
  {
    seq(|rows|, i requires 0 <= i < |rows| => (id, rows[i]))
  }

  method ScanSteps(steps: seq<StepRow>)
    returns (doneOriginals: seq<StepRow>, compSteps: seq<StepRow>, hasFailed: bool, hasPending: bool)
    ensures doneOriginals == DoneOriginals(steps) && compSteps == Compensations(steps)
    ensures hasFailed == HasOriginal(steps, Failed) && hasPending == HasOriginal(steps, Pending)
  {
    doneOriginals, compSteps, hasFailed, hasPending := [], [], false, false;
    for i := 0 to |steps|
      invariant doneOriginals == DoneOriginals(steps[..i]) && compSteps == Compensations(steps[..i])
      invariant hasFailed == HasOriginal(steps[..i], Failed) && hasPending == HasOriginal(steps[..i], Pending)
    {
      assert steps[..i + 1][..i] == steps[..i];
      HasOriginalNext(steps, i, Failed);
      HasOriginalNext(steps, i, Pending);
      var st := steps[i];
      if IsCompensation(st.action) {
        compSteps := compSteps + [st];
      } else {
        match st.status {
          case Done => doneOriginals := doneOriginals + [st];
          case Failed => hasFailed := true;
          case Pending => hasPending := true;
        }
      }
    }
    assert steps[..|steps|] == steps;
  }

  lemma HasOriginalNext(steps: seq<StepRow>, i: nat, status: StepStatus)
    requires i < |steps|
    ensures HasOriginal(steps[..i + 1], status)
        <==> HasOriginal(steps[..i], status) || (!IsCompensation(steps[i].action) && steps[i].status == status)
  {
    var next := steps[..i + 1];
    assert next[i] == steps[i];
    if HasOriginal(steps[..i], status) {
      var k :| 0 <= k < i && !IsCompensation(steps[..i][k].action) && steps[..i][k].status == status;
      assert next[k] == steps[..i][k];
    }
  }

  method HighestNo(steps: seq<StepRow>) returns (n: nat)
    ensures n == MaxNo(steps)
  {
    n := 0;
    for k := 0 to |steps|
      invariant n == MaxNo(steps[..k])
    {
      assert steps[..k + 1][..k] == steps[..k];
      if steps[k].stepNo > n { n := steps[k].stepNo; }
    }
    assert steps[..|steps|] == steps;
  }

  lemma NewCompensationsTurn(done: seq<StepRow>, i: nat, want: nat, n: nat)
    requires i < |done|
    ensures NewCompensations(done[..i + 1], want, n)
         == if want == 0 then [] else
            match ReverseAction(done[i].action)
            case None => NewCompensations(done[..i], want, n)
            case Some(rev) =>
              [StepRow(n + 1, rev, done[i].account, done[i].amount, Pending)] + NewCompensations(done[..i], want - 1, n + 1)
  {
    assert done[..i + 1][..i] == done[..i];
  }

  lemma AppendOne<T>(a: seq<T>, x: T, b: seq<T>)
    ensures a + ([x] + b) == a + [x] + b
  {
  }

  /** The creation loop of advance: walk the DONE originals backwards, numbering after the highest row. */
  method BuildCompensations(steps: seq<StepRow>, done: seq<StepRow>, missing: nat) returns (created: seq<StepRow>)
    ensures created == NewCompensations(done, missing, MaxNo(steps))
  {
    var n := HighestNo(steps);
    created := [];
    var i := |done|;
    assert done[..i] == done;
    ghost var all := NewCompensations(done, missing, n);
    ghost var rest := all;
    assert created + rest == all;
    hide *;
    while i > 0 && |created| < missing
      invariant 0 <= i <= |done| && |created| <= missing
      invariant rest == NewCompensations(done[..i], missing - |created|, n)
      invariant created + rest == all
    {
      i := i - 1;
      var st := done[i];
      NewCompensationsTurn(done, i, missing - |created|, n);
      match ReverseAction(st.action) {
        case None =>
        case Some(rev) =>
          n := n + 1;
          var row := StepRow(n, rev, st.account, st.amount, Pending);
          rest := NewCompensations(done[..i], missing - |created| - 1, n);
          AppendOne(created, row, rest);
          created := created + [row];
      }
    }
    NothingLeft(done, i, missing - |created|, n);
    assert created + [] == created;
  }

  lemma NothingLeft(done: seq<StepRow>, i: nat, want: nat, n: nat)
    requires i <= |done| && (i == 0 || want == 0)
    ensures NewCompensations(done[..i], want, n) == []
  {
  }

  method FindFailed(rows: seq<StepRow>) returns (r: Option<StepRow>)
    ensures r == FirstFailed(rows)
  {
    for i := 0 to |rows|
      invariant FirstFailed(rows) == FirstFailed(rows[i..])
    {
      if rows[i].status.Failed? { return Some(rows[i]); }
      assert rows[i..][1..] == rows[i + 1..];
    }
    return None;
  }

  method AnyNotDone(rows: seq<StepRow>) returns (r: bool)
    ensures r <==> !AllDone(rows)
  {
    for i := 0 to |rows|
      invariant AllDone(rows[..i])
    {
      if !rows[i].status.Done? { return true; }
    }
    assert rows[..|rows|] == rows;
    return false;
  }
}
