/** The RMB coordinator's state machine as functions of one transaction's rows
    (templates/bank_dcn/internal/rmb/coordinator.go). */
module RmbCore {
  import opened Common
  import opened Contracts
  import opened Ledger

  datatype StepStatus = Pending | Done | Failed

  /** A tx_step_log row; `payload` repeats stepNo, action, account and amount. */
  datatype StepRow = StepRow(stepNo: nat, action: Action, account: Account, amount: int, status: StepStatus)

  /** tx_log.status; the source's 'FAILED' is `Aborted`. */
  datatype TxStatus = Processing | Committed | Compensated | Aborted

  /** One transaction: its tx_log row, its tx_step_log rows ordered by step_no, and its share of the
      in-memory retry counter. */
  datatype Tx = Tx(status: TxStatus, steps: seq<StepRow>, attempts: map<nat, nat>)

  const MAX_RETRIES: nat := 3

  // ---------- the scans of advance ----------

  function DoneOriginals(steps: seq<StepRow>): seq<StepRow> {
    if steps == [] then []
    else
      var last := steps[|steps| - 1];
      DoneOriginals(steps[..|steps| - 1])
      + (if !IsCompensation(last.action) && last.status.Done? then [last] else [])
  }

  function Compensations(steps: seq<StepRow>): seq<StepRow> {
    if steps == [] then []
    else
      var last := steps[|steps| - 1];
      Compensations(steps[..|steps| - 1]) + (if IsCompensation(last.action) then [last] else [])
  }

  predicate HasOriginal(steps: seq<StepRow>, status: StepStatus) {
    exists i :: 0 <= i < |steps| && !IsCompensation(steps[i].action) && steps[i].status == status
  }

  predicate AllDone(steps: seq<StepRow>) {
    forall i :: 0 <= i < |steps| ==> steps[i].status.Done?
  }

  function MaxNo(steps: seq<StepRow>): nat {
    if steps == [] then 0
    else
      var rest := MaxNo(steps[..|steps| - 1]);
      if steps[|steps| - 1].stepNo > rest then steps[|steps| - 1].stepNo else rest
  }

  /** Compensation rows for at most `want` of the DONE originals, last original first, numbered after n. */
  function NewCompensations(done: seq<StepRow>, want: nat, n: nat): seq<StepRow>
    decreases |done|
  {
    if done == [] || want == 0 then []
    else
      var st, rest := done[|done| - 1], done[..|done| - 1];
      match ReverseAction(st.action)
      case None => NewCompensations(rest, want, n)
      case Some(rev) =>
        [StepRow(n + 1, rev, st.account, st.amount, Pending)] + NewCompensations(rest, want - 1, n + 1)
  }

  function FirstFailed(rows: seq<StepRow>): Option<StepRow> {
    if rows == [] then None
    else if rows[0].status.Failed? then Some(rows[0])
    else FirstFailed(rows[1..])
  }

  /** UPDATE tx_step_log SET status = to WHERE step_no = no AND status = from. */
  function Mark(steps: seq<StepRow>, no: nat, from: StepStatus, to: StepStatus): (r: seq<StepRow>)
    ensures |r| == |steps|
    ensures forall i :: 0 <= i < |steps| ==>
              r[i] == if steps[i].stepNo == no && steps[i].status == from then steps[i].(status := to) else steps[i]
  {
    seq(|steps|, i requires 0 <= i < |steps| =>
      if steps[i].stepNo == no && steps[i].status == from then steps[i].(status := to) else steps[i])
  }

  /** UPDATE tx_step_log SET status = 'FAILED' WHERE status = 'PENDING'. */
  function FailPending(steps: seq<StepRow>): (r: seq<StepRow>)
    ensures |r| == |steps|
    ensures forall i :: 0 <= i < |steps| ==>
              r[i] == if steps[i].status.Pending? then steps[i].(status := Failed) else steps[i]
  {
    seq(|steps|, i requires 0 <= i < |steps| =>
      if steps[i].status.Pending? then steps[i].(status := Failed) else steps[i])
  }

  function StatusOf(steps: seq<StepRow>, no: nat): Option<StepStatus> {
    if steps == [] then None
    else if steps[0].stepNo == no then Some(steps[0].status)
    else StatusOf(steps[1..], no)
  }

  function Attempts(tx: Tx, no: nat): nat {
    if no in tx.attempts then tx.attempts[no] else 0
  }

  // ---------- the handlers ----------

  /** advance: the new rows, and whether publishPending follows. */
  function Advance(tx: Tx): (Tx, bool) {
    var done, comps := DoneOriginals(tx.steps), Compensations(tx.steps);
    if !tx.status.Processing? then (tx, false)
    else if HasOriginal(tx.steps, Failed) || |comps| > 0 then
      if |done| > |comps| then
        (tx.(steps := tx.steps + NewCompensations(done, |done| - |comps|, MaxNo(tx.steps))), true)
      else if |comps| > 0 then
        match FirstFailed(comps)
        case Some(st) =>
          if Attempts(tx, st.stepNo) >= MAX_RETRIES then (tx.(status := Aborted), false)
          else
            (tx.(steps := Mark(tx.steps, st.stepNo, Failed, Pending),
                 attempts := tx.attempts[st.stepNo := Attempts(tx, st.stepNo) + 1]), true)
        case None =>
          if AllDone(comps) then (tx.(status := Compensated), false) else (tx, false)
      else if HasOriginal(tx.steps, Pending) then (tx, false)
      else (tx.(status := Compensated), false)
    else if AllDone(tx.steps) then (tx.(status := Committed), false)
    else (tx, false)
  }

  /** The step update of handleReceipt, and the reopening of a COMPENSATED transaction by a late DONE. */
  function Record(tx: Tx, no: nat, done: bool): Tx {
    if done && StatusOf(tx.steps, no) == Some(Failed) then
      Tx(if tx.status.Compensated? then Processing else tx.status, Mark(tx.steps, no, Failed, Done), tx.attempts)
    else
      tx.(steps := Mark(tx.steps, no, Pending, if done then Done else Failed))
  }

  /** The writes of handleReceipt on the rows as they are now, decided by what was read before. */
  function RecordRead(tx: Tx, stepRead: StepStatus, txRead: TxStatus, no: nat, done: bool): Tx {
    if done && stepRead.Failed? then
      Tx(if txRead.Compensated? && tx.status.Compensated? then Processing else tx.status,
         Mark(tx.steps, no, Failed, Done), tx.attempts)
    else
      tx.(steps := Mark(tx.steps, no, Pending, if done then Done else Failed))
  }

  /** A reading that decides as the current rows would. A FAILED receipt may be as stale as it likes; a DONE
      one must not have missed the step failing, being set back or turning DONE beside a reopening, nor the
      transaction settling. */
  predicate StillRight(tx: Tx, stepRead: StepStatus, txRead: TxStatus, now: StepStatus, done: bool) {
    done ==>
      match now
      case Pending => !stepRead.Failed?
      case Failed => stepRead.Failed? && (tx.status.Compensated? ==> txRead.Compensated?)
      case Done => stepRead.Failed? && txRead.Compensated? ==> !tx.status.Compensated?
  }

  /** A DONE receipt gets its step to DONE: it has not missed the step failing or being set back. */
  predicate Lands(stepRead: StepStatus, now: StepStatus) {
    now.Done? || (stepRead.Failed? <==> now.Failed?)
  }

  function HandleReceipt(tx: Tx, no: nat, done: bool): (Tx, bool) {
    if StatusOf(tx.steps, no).None? then (tx, false) else Advance(Record(tx, no, done))
  }

  function Expire(tx: Tx): (Tx, bool) {
    if !tx.status.Processing? then (tx, false)
    else if |Compensations(tx.steps)| > 0 then (tx, true)
    else Advance(tx.(steps := FailPending(tx.steps)))
  }

  /** A requested step; the account names its unit. */
  datatype Request = Request(action: Action, account: Account, amount: int)

  function Register(steps: seq<Request>): (tx: Tx)
    ensures |tx.steps| == |steps| && tx.status.Processing?
    ensures forall i :: 0 <= i < |steps| ==>
              tx.steps[i] == StepRow(i + 1, steps[i].action, steps[i].account, steps[i].amount, Pending)
  {
    Tx(Processing,
       seq(|steps|, i requires 0 <= i < |steps| =>
         StepRow(i + 1, steps[i].action, steps[i].account, steps[i].amount, Pending)),
       map[])
  }

  /** publishPending: the rows delivered to the unit queues. */
  function PendingRows(steps: seq<StepRow>): seq<StepRow> {
    if steps == [] then []
    else
      var last := steps[|steps| - 1];
      PendingRows(steps[..|steps| - 1]) + (if last.status.Pending? then [last] else [])
  }
}
