/** The hypothesis of the conservation theorem is needed: a run, for every transfer, that ends COMPENSATED
    with the amount gone. The CREDIT is applied and reported, the transaction times out while the DEBIT
    message is delayed, the CREDIT is compensated, and only then the DEBIT is applied and reported. */
module RmbLateDebit {
  import opened Common
  import opened Contracts
  import opened Ledger
  import opened RmbCore
  import opened RmbRows
  import opened RmbProtocol
  import opened RmbTransfer
  import opened RmbConservation
  import opened DcnSpec

  datatype Transfer = Transfer(id: string, from: Account, to: Account, amount: int) {

    function Message(no: nat): Message
      requires 1 <= no <= 4
    {
      if no == 1 then StepMessage(1, DebitAction, from, amount)
      else if no == 2 then StepMessage(2, CreditAction, to, amount)
      else StepMessage(no, CompensateCredit, to, amount)
    }

    function RowAt(i: nat, status: StepStatus): StepRow {
      if i == 0 then StepRow(1, DebitAction, from, amount, status)
      else if i == 1 then StepRow(2, CreditAction, to, amount, status)
      else StepRow(i + 1, CompensateCredit, to, amount, status)
    }

    /** The first rows of the run with the given statuses. */
    function Rows(statuses: seq<StepStatus>): (r: seq<StepRow>)
      requires 2 <= |statuses| <= 4
      ensures |r| == |statuses|
      ensures forall i :: 0 <= i < |r| ==> r[i] == RowAt(i, statuses[i])
    {
      seq(|statuses|, i requires 0 <= i < |statuses| => RowAt(i, statuses[i]))
    }

    function At(status: TxStatus, statuses: seq<StepStatus>): Tx
      requires 2 <= |statuses| <= 4
    {
      Tx(status, Rows(statuses), map[])
    }

    function Start(): World {
      RmbProtocol.Start(TransferSteps(from, to, amount), {})
    }

    function LossRun(): seq<Event> {
      [DeliverStep(Message(2), true, true), DeliverReceipt(Receipt(2, true), {}),
       Timeout({}),
       DeliverStep(Message(3), true, true), DeliverReceipt(Receipt(3, true), {}),
       DeliverStep(Message(1), true, true), DeliverReceipt(Receipt(1, true), {}),
       DeliverStep(Message(4), true, true), DeliverReceipt(Receipt(4, true), {})]
    }

    // The scans on rows of this run.

    lemma Scans(statuses: seq<StepStatus>)
      requires 2 <= |statuses| <= 4
      ensures var s := Rows(statuses);
              && DoneOriginals(s) == (if statuses[0].Done? then [s[0]] else []) + (if statuses[1].Done? then [s[1]] else [])
              && Compensations(s) == s[2..] && MaxNo(s) == |s| && Numbered(s)
              && (HasOriginal(s, Failed) <==> statuses[0].Failed? || statuses[1].Failed?)
    {
      var s := Rows(statuses);
      ScanSplit(s, 2);
      TwoDone(s[..2]);
      assert s[..2][0] == s[0] && s[..2][1] == s[1];
      NumberedMax(s);
      assert statuses[0].Failed? ==> !IsCompensation(s[0].action) && s[0].status == Failed;
      assert statuses[1].Failed? ==> !IsCompensation(s[1].action) && s[1].status == Failed;
    }

    /** Advance with one compensation missing for the DONE CREDIT. */
    lemma AdvanceCreates(statuses: seq<StepStatus>)
      requires 2 <= |statuses| <= 3 && statuses[1].Done?
      requires if |statuses| == 2 then statuses[0].Failed? else statuses[0].Done?
      ensures Advance(At(Processing, statuses)) == (At(Processing, statuses + [Pending]), true)
    {
      Scans(statuses);
      var s := Rows(statuses);
      var done := DoneOriginals(s);
      assert |Compensations(s)| == |s| - 2;
      assert NewCompensations(done[..|done| - 1], 0, |s| + 1) == [];
      assert NewCompensations(done, 1, |s|) == [StepRow(|s| + 1, CompensateCredit, to, amount, Pending)];
      assert s + [StepRow(|s| + 1, CompensateCredit, to, amount, Pending)] == Rows(statuses + [Pending]);
    }

    /** Advance with every compensation DONE. */
    lemma AdvanceSettles(statuses: seq<StepStatus>)
      requires 3 <= |statuses| <= 4 && statuses[1].Done? && statuses[2].Done?
      requires if |statuses| == 3 then statuses[0].Failed? else statuses[0].Done? && statuses[3].Done?
      ensures Advance(At(Processing, statuses)) == (At(Compensated, statuses), false)
    {
      Scans(statuses);
      FirstFailedIsFailed(Compensations(Rows(statuses)));
    }

    lemma MarkRow(statuses: seq<StepStatus>, no: nat, from: StepStatus, to: StepStatus)
      requires 2 <= |statuses| <= 4 && 1 <= no <= |statuses| && statuses[no - 1] == from
      ensures Mark(Rows(statuses), no, from, to) == Rows(statuses[no - 1 := to])
      ensures StatusOf(Rows(statuses), no) == Some(from)
    {
      assert Numbered(Rows(statuses));
      NumberedStatus(Rows(statuses), 0, no);
    }

    lemma SentOne(statuses: seq<StepStatus>)
      requires 3 <= |statuses| <= 4 && statuses[|statuses| - 1].Pending?
      requires forall i :: 0 <= i < |statuses| - 1 ==> !statuses[i].Pending?
      ensures Sent(Rows(statuses), {}) == multiset{Message(|statuses|)}
    {
      var s := Rows(statuses);
      NoneSent(s[..|s| - 1]);
    }

    // The four coordinator steps of the run.

    lemma CreditReported()
      ensures HandleReceipt(At(Processing, [Pending, Pending]), 2, true) == (At(Processing, [Pending, Done]), false)
    {
      MarkRow([Pending, Pending], 2, Pending, Done);
      assert [Pending, Pending][1 := Done] == [Pending, Done];
      Scans([Pending, Done]);
      assert !Rows([Pending, Done])[0].status.Done?;
    }

    lemma TimesOut()
      ensures Expire(At(Processing, [Pending, Done])) == (At(Processing, [Failed, Done, Pending]), true)
    {
      Scans([Pending, Done]);
      assert FailPending(Rows([Pending, Done])) == Rows([Failed, Done]);
      AdvanceCreates([Failed, Done]);
      assert [Failed, Done] + [Pending] == [Failed, Done, Pending];
    }

    lemma FirstCompensationReported()
      ensures HandleReceipt(At(Processing, [Failed, Done, Pending]), 3, true) == (At(Compensated, [Failed, Done, Done]), false)
    {
      MarkRow([Failed, Done, Pending], 3, Pending, Done);
      assert [Failed, Done, Pending][2 := Done] == [Failed, Done, Done];
      AdvanceSettles([Failed, Done, Done]);
    }

    lemma DebitReportedLate()
      ensures HandleReceipt(At(Compensated, [Failed, Done, Done]), 1, true) == (At(Processing, [Done, Done, Done, Pending]), true)
    {
      MarkRow([Failed, Done, Done], 1, Failed, Done);
      assert [Failed, Done, Done][0 := Done] == [Done, Done, Done];
      AdvanceCreates([Done, Done, Done]);
      assert [Done, Done, Done] + [Pending] == [Done, Done, Done, Pending];
    }

    lemma SecondCompensationReported()
      ensures HandleReceipt(At(Processing, [Done, Done, Done, Pending]), 4, true) == (At(Compensated, [Done, Done, Done, Done]), false)
    {
      MarkRow([Done, Done, Done, Pending], 4, Pending, Done);
      assert [Done, Done, Done, Pending][3 := Done] == [Done, Done, Done, Done];
      AdvanceSettles([Done, Done, Done, Done]);
    }

    // The worlds of the run, one after each event.

    function CreditRow(): Row { Row(Original(id), to, Credit, amount) }
    function UndoRow(): Row { Row(Compensation(id), to, Debit, amount) }
    function DebitRow(): Row { Row(Original(id), from, Debit, amount) }

    function Worlds(k: nat): World
      requires k <= 9
    {
      if k == 0 then World(At(Processing, [Pending, Pending]), multiset{Message(1), Message(2)}, multiset{}, [])
      else if k == 1 then World(At(Processing, [Pending, Pending]), multiset{Message(1), Receipt(2, true)}, multiset{}, [CreditRow()])
      else if k == 2 then World(At(Processing, [Pending, Done]), multiset{Message(1)}, multiset{}, [CreditRow()])
      else if k == 3 then World(At(Processing, [Failed, Done, Pending]), multiset{Message(1), Message(3)}, multiset{}, [CreditRow()])
      else if k == 4 then World(At(Processing, [Failed, Done, Pending]), multiset{Message(1), Receipt(3, true)}, multiset{}, [CreditRow(), UndoRow()])
      else if k == 5 then World(At(Compensated, [Failed, Done, Done]), multiset{Message(1)}, multiset{}, [CreditRow(), UndoRow()])
      else if k == 6 then World(At(Compensated, [Failed, Done, Done]), multiset{Receipt(1, true)}, multiset{}, [CreditRow(), UndoRow(), DebitRow()])
      else if k == 7 then World(At(Processing, [Done, Done, Done, Pending]), multiset{Message(4)}, multiset{}, [CreditRow(), UndoRow(), DebitRow()])
      else if k == 8 then World(At(Processing, [Done, Done, Done, Pending]), multiset{Receipt(4, true)}, multiset{}, [CreditRow(), UndoRow(), DebitRow()])
      else World(At(Compensated, [Done, Done, Done, Done]), multiset{}, multiset{}, [CreditRow(), UndoRow(), DebitRow()])
    }

    lemma StartsAt()
      ensures Start() == Worlds(0)
    {
      var s := Register(TransferSteps(from, to, amount)).steps;
      assert s == Rows([Pending, Pending]);
      SentTwo(s[0], s[1]);
      assert s == [s[0], s[1]];
      hide Sent, Rows, Register;
    }

    /** A step message whose movement is new and fundable. */
    lemma Posts(l: World, m: Message, row: Row)
      requires m in l.bag && m.StepMessage? && StepRowOf(id, m.action, m.account, m.amount) == Some(row)
      requires !Posted(l.journal, row)
      ensures Step(id, l, DeliverStep(m, true, true))
           == l.(bag := l.bag - multiset{m} + multiset{Receipt(m.stepNo, true)}, journal := l.journal + [row])
    {
      hide Posted, HandleReceipt, Expire, Sent;
    }

    /** A step message whose movement is journaled already, as row i. */
    lemma Repeats(l: World, m: Message, row: Row, i: nat)
      requires m in l.bag && m.StepMessage? && StepRowOf(id, m.action, m.account, m.amount) == Some(row)
      requires i < |l.journal| && SameKey(l.journal[i], row)
      ensures Step(id, l, DeliverStep(m, true, true))
           == l.(bag := l.bag - multiset{m} + multiset{Receipt(m.stepNo, true)})
    {
      hide HandleReceipt, Expire, Sent;
    }

    lemma Move0()
      ensures Step(id, Worlds(0), LossRun()[0]) == Worlds(1)
    {
      hide HandleReceipt, Expire, Sent, Rows, Step, StepDelivered;
      Posts(Worlds(0), Message(2), CreditRow());
    }

    lemma Move1()
      ensures Step(id, Worlds(1), LossRun()[1]) == Worlds(2)
    {
      CreditReported();
      hide HandleReceipt, Expire, Sent, Rows;
    }

    lemma Move2()
      ensures Step(id, Worlds(2), LossRun()[2]) == Worlds(3)
    {
      TimesOut();
      SentOne([Failed, Done, Pending]);
      hide HandleReceipt, Expire, Sent, Rows;
    }

    lemma Move3()
      ensures Step(id, Worlds(3), LossRun()[3]) == Worlds(4)
    {
      hide HandleReceipt, Expire, Sent, Rows, Step, StepDelivered;
      Posts(Worlds(3), Message(3), UndoRow());
      assert Worlds(3).bag - multiset{Message(3)} == multiset{Message(1)};
      assert [CreditRow()] + [UndoRow()] == [CreditRow(), UndoRow()];
    }

    lemma Move4()
      ensures Step(id, Worlds(4), LossRun()[4]) == Worlds(5)
    {
      FirstCompensationReported();
      hide HandleReceipt, Expire, Sent, Rows;
    }

    lemma Move5()
      ensures Step(id, Worlds(5), LossRun()[5]) == Worlds(6)
    {
      hide HandleReceipt, Expire, Sent, Rows, Step, StepDelivered;
      Posts(Worlds(5), Message(1), DebitRow());
      assert Worlds(5).bag - multiset{Message(1)} == multiset{};
      assert [CreditRow(), UndoRow()] + [DebitRow()] == [CreditRow(), UndoRow(), DebitRow()];
    }

    lemma Move6()
      ensures Step(id, Worlds(6), LossRun()[6]) == Worlds(7)
    {
      DebitReportedLate();
      SentOne([Done, Done, Done, Pending]);
      hide HandleReceipt, Expire, Sent, Rows;
    }

    lemma Move7()
      ensures Step(id, Worlds(7), LossRun()[7]) == Worlds(8)
    {
      hide HandleReceipt, Expire, Sent, Rows, Step, StepDelivered;
      Repeats(Worlds(7), Message(4), UndoRow(), 1);
      assert Worlds(7).bag - multiset{Message(4)} == multiset{};
    }

    lemma Move8()
      ensures Step(id, Worlds(8), LossRun()[8]) == Worlds(9)
    {
      SecondCompensationReported();
      hide HandleReceipt, Expire, Sent, Rows;
    }

    lemma {:induction false} Reaches(k: nat)
      requires k <= 9
      ensures Exec(id, Start(), LossRun()[..k]) == Worlds(k)
    {
      if k == 0 {
        StartsAt();
      } else {
        Reaches(k - 1);
        assert LossRun()[..k][..k - 1] == LossRun()[..k - 1];
        NextWorld(k - 1);
      }
    }

    lemma NextWorld(k: nat)
      requires k < 9
      ensures Step(id, Worlds(k), LossRun()[k]) == Worlds(k + 1)
    {
      hide Step, Worlds, LossRun;
      Move0(); Move1(); Move2(); Move3(); Move4(); Move5(); Move6(); Move7(); Move8();
    }

    /** For every transfer there is a run that rests in COMPENSATED with the amount missing, taken from the
        source for good. */
    lemma LateDebitLosesMoney()
      requires amount > 0
      ensures Resting(Exec(id, Start(), LossRun()))
      ensures LateIn(id, Start(), LossRun())
      ensures Net(Exec(id, Start(), LossRun()).journal) == -amount
      ensures from != to ==> Signed(Exec(id, Start(), LossRun()).journal, from) == -amount
                             && Signed(Exec(id, Start(), LossRun()).journal, to) == 0
    {
      Reaches(9);
      assert LossRun()[..9] == LossRun();
      TransferConservation(id, from, to, amount, {}, LossRun());
      LossIsLate();
    }

    lemma EventSixIsLate()
      ensures LateEvent(Worlds(6), LossRun()[6])
    {
      hide HandleReceipt, Expire, Sent;
    }

    lemma {:induction false} StillLate(k: nat)
      requires 7 <= k <= 9
      ensures LateIn(id, Start(), LossRun()[..k])
      decreases k
    {
      hide Worlds, LateEvent, Start, Exec;
      var run := LossRun();
      assert |run| == 9;
      hide LossRun;
      assert run[..k][..k - 1] == run[..k - 1];
      if k == 7 {
        Reaches(6);
        EventSixIsLate();
      } else {
        StillLate(k - 1);
      }
    }

    lemma LossIsLate()
      ensures LateIn(id, Start(), LossRun())
    {
      StillLate(9);
      assert LossRun()[..9] == LossRun();
    }
  }

  lemma SentTwo(a: StepRow, b: StepRow)
    requires a.status.Pending? && b.status.Pending?
    ensures Sent([a, b], {}) == multiset{MessageOf(a), MessageOf(b)}
  {
    assert [a, b][..1] == [a];
    assert [a][..0] == [];
    assert Sent([a], {}) == multiset{MessageOf(a)};
  }

  lemma {:induction false} NoneSent(s: seq<StepRow>)
    requires forall i :: 0 <= i < |s| ==> !s[i].status.Pending?
    ensures Sent(s, {}) == multiset{}
  {
    if s != [] { NoneSent(s[..|s| - 1]); }
  }
}
