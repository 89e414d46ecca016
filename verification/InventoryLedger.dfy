/** The movement ledger, row by row (templates/commerce/internal/inventory/store.go): every reservation has
    exactly the rows of its life, every row belongs to a reservation, and per cell the sales account for the
    stock that left while the adjustments account for the stock that is held. */
module InventoryLedger {
  import opened Common
  import opened InventoryModel
  import opened InventorySpec
  import opened InventoryInvariant

  /** The unique idempotency key of a reservation row. */
  predicate SameReservation(a: Hold, b: Hold) {
    a.key == b.key && a.index == b.index
  }

  /** The ledger rows of one reservation, in order. */
  function Of(movements: seq<Movement>, h: Hold): seq<Movement> {
    if movements == [] then []
    else
      var last := movements[|movements| - 1];
      Of(movements[..|movements| - 1], h) + (if SameReservation(last.hold, h) then [last] else [])
  }

  /** What a reservation must have in the ledger: its quantity out when it was made, and back when it was released
      or ran out; a commit gives it back and sells it. */
  function Expected(h: Hold): seq<Movement> {
    var made := Movement(h.cell, -h.quantity, "adjustment", "reserve", h.(state := Active));
    match h.state
    case Active => [made]
    case Released => [made, Movement(h.cell, h.quantity, "adjustment", "release", h)]
    case Expired => [made, Movement(h.cell, h.quantity, "adjustment", "expire", h)]
    case Committed => [made, Movement(h.cell, h.quantity, "adjustment", "commit_release", h),
                       Movement(h.cell, -h.quantity, "sale", "commit", h)]
  }

  function DeltasAt(movements: seq<Movement>, c: Cell, reason: string): int {
    if movements == [] then 0
    else
      var last := movements[|movements| - 1];
      DeltasAt(movements[..|movements| - 1], c, reason) + (if last.cell == c && last.reason == reason then last.delta else 0)
  }

  /** Sales are the committed quantities, adjustments the active ones. */
  predicate Summed(s: Stock, c: Cell) {
    && DeltasAt(s.movements, c, "sale") == -SumAt(s.holds, c, Committed)
    && DeltasAt(s.movements, c, "adjustment") == -SumAt(s.holds, c, Active)
  }

  ghost predicate DistinctReservations(holds: seq<Hold>) {
    forall i, j :: 0 <= i < j < |holds| ==> !SameReservation(holds[i], holds[j])
  }

  ghost predicate Booked(s: Stock) {
    && DistinctReservations(s.holds)
    && (forall k :: 0 <= k < |s.movements| ==> Owned(s.holds, s.movements[k].hold))
    && (forall i :: 0 <= i < |s.holds| ==> Of(s.movements, s.holds[i]) == Expected(s.holds[i]))
  }

  ghost predicate Owned(holds: seq<Hold>, h: Hold) {
    exists i :: 0 <= i < |holds| && SameReservation(h, holds[i])
  }

  ghost predicate Exact(s: Stock) {
    Booked(s) && forall c {:trigger Summed(s, c)} :: Summed(s, c)
  }

  // ---------- one row at a time ----------

  lemma OfAppend(movements: seq<Movement>, m: Movement, h: Hold)
    ensures Of(movements + [m], h) == Of(movements, h) + (if SameReservation(m.hold, h) then [m] else [])
  {
    assert (movements + [m])[..|movements|] == movements;
  }

  lemma DeltasAppend(movements: seq<Movement>, m: Movement, c: Cell, reason: string)
    ensures DeltasAt(movements + [m], c, reason)
         == DeltasAt(movements, c, reason) + (if m.cell == c && m.reason == reason then m.delta else 0)
  {
    assert (movements + [m])[..|movements|] == movements;
  }

  /** A reservation nothing belongs to has no rows. */
  lemma {:induction false} OfNone(movements: seq<Movement>, h: Hold)
    requires forall k :: 0 <= k < |movements| ==> !SameReservation(movements[k].hold, h)
    ensures Of(movements, h) == []
  {
    if movements != [] { OfNone(movements[..|movements| - 1], h); }
  }

  /** Rows of reservations depend on the reservation's key and index alone. */
  lemma {:induction false} OfSame(movements: seq<Movement>, a: Hold, b: Hold)
    requires SameReservation(a, b)
    ensures Of(movements, a) == Of(movements, b)
  {
    if movements != [] { OfSame(movements[..|movements| - 1], a, b); }
  }

  // ---------- reserve ----------

  /** No reservation of the command's key has a higher index yet. */
  predicate BelowIndex(holds: seq<Hold>, key: string, index: nat) {
    forall i :: 0 <= i < |holds| && holds[i].key == key ==> holds[i].index <= index
  }

  /** The tables a single allocation leaves. */
  lemma AllocationIs(s: Stock, cmd: Command, cell: Cell, quantity: int, index: nat)
    requires cell in s.levels && ReserveAt(s, cmd, cell, quantity, index).Ok?
    ensures var s' := ReserveAt(s, cmd, cell, quantity, index).value;
            var h := Hold(cmd.order, cmd.key, index, cell, quantity, Active, cmd.expiresAt);
            s'.holds == s.holds + [h] && s'.movements == s.movements + [Movement(cell, -quantity, "adjustment", "reserve", h)]
  {
  }

  lemma NewIsBooked(s: Stock, s': Stock, h: Hold, m: Movement)
    requires Booked(s) && !Owned(s.holds, h) && m.hold == h && Expected(h) == [m]
    requires s'.holds == s.holds + [h] && s'.movements == s.movements + [m]
    ensures Booked(s')
  {
    hide Expected, SameReservation;
    forall k | 0 <= k < |s'.movements| ensures Owned(s'.holds, s'.movements[k].hold) {
      if k < |s.movements| {
        assert Owned(s.holds, s.movements[k].hold);
        var i :| 0 <= i < |s.holds| && SameReservation(s.movements[k].hold, s.holds[i]);
        assert s'.holds[i] == s.holds[i];
      } else {
        SameItself(h);
        assert s'.holds[|s.holds|] == h;
      }
    }
    forall i | 0 <= i < |s'.holds| ensures Of(s'.movements, s'.holds[i]) == Expected(s'.holds[i]) {
      OfAppend(s.movements, m, s'.holds[i]);
      if i < |s.holds| {
        NotOwned(s.holds, h, i);
      } else {
        SameItself(h);
        forall k | 0 <= k < |s.movements| ensures !SameReservation(s.movements[k].hold, h) {
          OwnedElsewhere(s.holds, s.movements[k].hold, h);
        }
        OfNone(s.movements, h);
      }
    }
    forall i, j | 0 <= i < j < |s'.holds| ensures !SameReservation(s'.holds[i], s'.holds[j]) {
      if j == |s.holds| { NotOwned(s.holds, h, i); }
    }
  }

  lemma SameItself(h: Hold)
    ensures SameReservation(h, h)
  {
  }

  lemma NotOwned(holds: seq<Hold>, h: Hold, i: nat)
    requires !Owned(holds, h) && i < |holds|
    ensures !SameReservation(h, holds[i]) && !SameReservation(holds[i], h)
  {
  }

  lemma OwnedElsewhere(holds: seq<Hold>, a: Hold, h: Hold)
    requires Owned(holds, a) && !Owned(holds, h)
    ensures !SameReservation(a, h)
  {
    var i :| 0 <= i < |holds| && SameReservation(a, holds[i]);
    assert !SameReservation(h, holds[i]);
  }

  lemma AllocationKeeps(s: Stock, cmd: Command, cell: Cell, quantity: int, index: nat)
    requires Exact(s) && BelowIndex(s.holds, cmd.key, index) && cell in s.levels
    requires ReserveAt(s, cmd, cell, quantity, index + 1).Ok?
    ensures var s' := ReserveAt(s, cmd, cell, quantity, index + 1).value;
            Exact(s') && BelowIndex(s'.holds, cmd.key, index + 1)
  {
    AllocationIs(s, cmd, cell, quantity, index + 1);
    var s' := ReserveAt(s, cmd, cell, quantity, index + 1).value;
    var h := Hold(cmd.order, cmd.key, index + 1, cell, quantity, Active, cmd.expiresAt);
    var m := Movement(cell, -quantity, "adjustment", "reserve", h);
    assert Expected(h) == [m];
    HigherIndex(s.holds, h, index);
    hide ReserveAt, Booked, Owned, Summed, Expected;
    NewIsBooked(s, s', h, m);
    forall c ensures Summed(s', c) {
      assert Summed(s, c);
      AllocationSums(s, s', h, m, c);
    }
  }

  lemma HigherIndex(holds: seq<Hold>, h: Hold, index: nat)
    requires BelowIndex(holds, h.key, index) && h.index == index + 1
    ensures !Owned(holds, h) && BelowIndex(holds + [h], h.key, index + 1)
  {
  }

  lemma AllocationSums(s: Stock, s': Stock, h: Hold, m: Movement, c: Cell)
    requires Summed(s, c) && h.state.Active? && m == Movement(h.cell, -h.quantity, "adjustment", "reserve", h)
    requires s'.holds == s.holds + [h] && s'.movements == s.movements + [m]
    ensures Summed(s', c)
  {
    SumAppend(s.holds, h, c, Active);
    SumAppend(s.holds, h, c, Committed);
    DeltasAppend(s.movements, m, c, "sale");
    DeltasAppend(s.movements, m, c, "adjustment");
    hide SumAt, DeltasAt;
  }

  lemma {:induction false} DrainExact(s: Stock, locs: seq<Location>, cmd: Command, sku: string, remaining: int, index: nat)
    requires Exact(s) && BelowIndex(s.holds, cmd.key, index) && Drain(s, locs, cmd, sku, remaining, index).Ok?
    ensures var (s', _, index') := Drain(s, locs, cmd, sku, remaining, index).value;
            Exact(s') && BelowIndex(s'.holds, cmd.key, index')
    decreases |locs|
  {
    if locs != [] {
      var cell := Cell(sku, locs[0].id);
      hide Exact, ReserveAt, BelowIndex;
      if cell !in s.levels || !locs[0].fulfills || s.levels[cell].Available() == Some(0) {
        DrainExact(s, locs[1..], cmd, sku, remaining, index);
      } else {
        var available := s.levels[cell].Available().value;
        var quantity := if remaining > available then available else remaining;
        AllocationKeeps(s, cmd, cell, quantity, index);
        if remaining != quantity {
          DrainExact(ReserveAt(s, cmd, cell, quantity, index + 1).value, locs[1..], cmd, sku, remaining - quantity, index + 1);
        }
      }
    }
  }

  lemma {:induction false} LinesExact(s: Stock, locs: seq<Location>, cmd: Command, lines: seq<Line>, index: nat)
    requires Exact(s) && BelowIndex(s.holds, cmd.key, index) && ReserveLines(s, locs, cmd, lines, index).Ok?
    ensures Exact(ReserveLines(s, locs, cmd, lines, index).value)
    decreases |lines|
  {
    if lines != [] {
      hide Exact, Drain, BelowIndex;
      DrainExact(s, locs, cmd, lines[0].sku, lines[0].quantity, index);
      var (s', _, index') := Drain(s, locs, cmd, lines[0].sku, lines[0].quantity, index).value;
      LinesExact(s', locs, cmd, lines[1..], index');
    }
  }

  /** A key without reservations is a fresh one. */
  lemma {:induction false} FreshKey(holds: seq<Hold>, key: string)
    requires Existing(holds, key) == []
    ensures BelowIndex(holds, key, 0)
  {
    if holds != [] { FreshKey(holds[..|holds| - 1], key); }
  }

  lemma ReserveExact(s: Stock, locs: seq<Location>, cmd: Command)
    requires Exact(s)
    ensures Exact(Reserve(s, locs, cmd).1)
  {
    hide Exact, ReserveLines, Matches, Existing, BelowIndex;
    if Existing(s.holds, cmd.key) == [] && cmd.order !in s.fences && ReserveLines(s, locs, cmd, cmd.lines, 0).Ok? {
      FreshKey(s.holds, cmd.key);
      LinesExact(s, locs, cmd, cmd.lines, 0);
    }
  }

  /** The rows one line adds are numbered on. */
  lemma {:induction false} DrainNumbers(s: Stock, locs: seq<Location>, cmd: Command, sku: string, remaining: int, index: nat)
    requires Drain(s, locs, cmd, sku, remaining, index).Ok?
    ensures var (s', _, index') := Drain(s, locs, cmd, sku, remaining, index).value;
            && index' == index + |s'.holds| - |s.holds|
            && forall i :: |s.holds| <= i < |s'.holds| ==> s'.holds[i].index == index + 1 + i - |s.holds|
    decreases |locs|
  {
    if locs != [] {
      var cell := Cell(sku, locs[0].id);
      hide ReserveAt;
      if cell !in s.levels || !locs[0].fulfills || s.levels[cell].Available() == Some(0) {
        DrainNumbers(s, locs[1..], cmd, sku, remaining, index);
      } else {
        var available := s.levels[cell].Available().value;
        var quantity := if remaining > available then available else remaining;
        AllocationIs(s, cmd, cell, quantity, index + 1);
        if remaining != quantity {
          DrainNumbers(ReserveAt(s, cmd, cell, quantity, index + 1).value, locs[1..], cmd, sku, remaining - quantity, index + 1);
        }
      }
    }
  }

  lemma {:induction false} LinesNumber(s: Stock, locs: seq<Location>, cmd: Command, lines: seq<Line>, index: nat)
    requires ReserveLines(s, locs, cmd, lines, index).Ok?
    ensures var s' := ReserveLines(s, locs, cmd, lines, index).value;
            forall i :: |s.holds| <= i < |s'.holds| ==> s'.holds[i].index == index + 1 + i - |s.holds|
    decreases |lines|
  {
    if lines != [] {
      hide Drain;
      DrainNumbers(s, locs, cmd, lines[0].sku, lines[0].quantity, index);
      var (s', _, index') := Drain(s, locs, cmd, lines[0].sku, lines[0].quantity, index).value;
      LinesNumber(s', locs, cmd, lines[1..], index');
    }
  }

  /** A granted command's new reservations are numbered from one, in the order they were made. */
  lemma ReservationsNumbered(s: Stock, locs: seq<Location>, cmd: Command)
    requires Existing(s.holds, cmd.key) == [] && Reserve(s, locs, cmd).0.Ok?
    ensures var made := Reserve(s, locs, cmd).0.value;
            && Reserve(s, locs, cmd).1.holds == s.holds + made
            && forall i :: 0 <= i < |made| ==> made[i].index == i + 1
  {
    LinesNumber(s, locs, cmd, cmd.lines, 0);
    hide ReserveLines, Existing;
  }

  // ---------- commit, release, expire ----------

  /** The rows the end of an active reservation adds. */
  function Ending(h: Hold, e: HoldEvent): seq<Movement> {
    var ended := h.(state := Target(e));
    Expected(ended)[1..]
  }

  lemma SettledIs(s: Stock, i: nat, e: HoldEvent)
    requires i < |s.holds| && s.holds[i].state.Active? && SettleOne(s, i, e).Ok?
    ensures var s' := SettleOne(s, i, e).value;
            s'.holds == s.holds[i := s.holds[i].(state := Target(e))] && s'.movements == s.movements + Ending(s.holds[i], e)
  {
  }

  lemma {:induction false} OfConcat(a: seq<Movement>, b: seq<Movement>, h: Hold)
    requires forall k :: 0 <= k < |b| ==> SameReservation(b[k].hold, h)
    ensures Of(a + b, h) == Of(a, h) + b
  {
    if b == [] {
      assert a + b == a;
    } else {
      var n := |b| - 1;
      hide Of, SameReservation;
      OfConcat(a, b[..n], h);
      assert a + b == a + b[..n] + [b[n]] && Of(a, h) + b == Of(a, h) + b[..n] + [b[n]];
      OfAppend(a + b[..n], b[n], h);
    }
  }

  lemma {:induction false} OfOther(a: seq<Movement>, b: seq<Movement>, h: Hold)
    requires forall k :: 0 <= k < |b| ==> !SameReservation(b[k].hold, h)
    ensures Of(a + b, h) == Of(a, h)
  {
    if b == [] {
      assert a + b == a;
    } else {
      var n := |b| - 1;
      OfOther(a, b[..n], h);
      assert a + b == a + b[..n] + [b[n]];
      OfAppend(a + b[..n], b[n], h);
    }
  }

  lemma EndingIs(h: Hold, e: HoldEvent)
    requires h.state.Active?
    ensures Expected(h.(state := Target(e))) == Expected(h) + Ending(h, e)
    ensures forall k :: 0 <= k < |Ending(h, e)| ==> SameReservation(Ending(h, e)[k].hold, h)
  {
    assert h.(state := Active) == h;
  }

  lemma EndedIsBooked(s: Stock, s': Stock, i: nat, e: HoldEvent)
    requires Booked(s) && i < |s.holds| && s.holds[i].state.Active?
    requires s'.holds == s.holds[i := s.holds[i].(state := Target(e))] && s'.movements == s.movements + Ending(s.holds[i], e)
    ensures Booked(s')
  {
    var h, rows := s.holds[i], Ending(s.holds[i], e);
    EndingIs(h, e);
    hide Ending, Expected;
    forall j | 0 <= j < |s'.holds| ensures Of(s'.movements, s'.holds[j]) == Expected(s'.holds[j]) {
      if j == i {
        OfSame(s.movements, s'.holds[i], h);
        OfConcat(s.movements, rows, s'.holds[i]);
      } else {
        forall k | 0 <= k < |rows| ensures !SameReservation(rows[k].hold, s.holds[j]) { }
        OfOther(s.movements, rows, s.holds[j]);
      }
    }
    forall k | 0 <= k < |s'.movements| ensures Owned(s'.holds, s'.movements[k].hold) {
      if k < |s.movements| {
        assert Owned(s.holds, s.movements[k].hold);
        var j :| 0 <= j < |s.holds| && SameReservation(s.movements[k].hold, s.holds[j]);
        assert SameReservation(s.movements[k].hold, s'.holds[j]);
      } else {
        assert s'.movements[k] == rows[k - |s.movements|];
        assert SameReservation(s'.movements[k].hold, s'.holds[i]);
      }
    }
  }

  lemma EndedSums(s: Stock, s': Stock, i: nat, e: HoldEvent, c: Cell)
    requires Summed(s, c) && i < |s.holds| && s.holds[i].state.Active?
    requires s'.holds == s.holds[i := s.holds[i].(state := Target(e))] && s'.movements == s.movements + Ending(s.holds[i], e)
    ensures Summed(s', c)
  {
    var h := s.holds[i];
    var ended := h.(state := Target(e));
    var back := Movement(h.cell, h.quantity, "adjustment", EndAction(e), ended);
    var sale := Movement(h.cell, -h.quantity, "sale", "commit", ended);
    EndingRows(h, e);
    assert s.movements + [back] + [sale] == s.movements + [back, sale];
    hide SumAt, DeltasAt, Ending, EndAction;
    SumUpdateAt(s.holds, i, ended, c, Active);
    SumUpdateAt(s.holds, i, ended, c, Committed);
    DeltasAppend(s.movements, back, c, "sale");
    DeltasAppend(s.movements, back, c, "adjustment");
    DeltasAppend(s.movements + [back], sale, c, "sale");
    DeltasAppend(s.movements + [back], sale, c, "adjustment");
  }

  function EndAction(e: HoldEvent): string {
    match e
    case Commit => "commit_release"
    case Release => "release"
    case Expire => "expire"
  }

  lemma EndingRows(h: Hold, e: HoldEvent)
    ensures var ended := h.(state := Target(e));
            var back := Movement(h.cell, h.quantity, "adjustment", EndAction(e), ended);
            Ending(h, e) == if e.Commit? then [back, Movement(h.cell, -h.quantity, "sale", "commit", ended)] else [back]
  {
  }

  lemma SettleOneExact(s: Stock, i: nat, e: HoldEvent)
    requires Exact(s) && i < |s.holds| && s.holds[i].state.Active? && SettleOne(s, i, e).Ok?
    ensures Exact(SettleOne(s, i, e).value) && |SettleOne(s, i, e).value.holds| == |s.holds|
  {
    SettledIs(s, i, e);
    var s' := SettleOne(s, i, e).value;
    hide SettleOne, Booked, Ending, Summed;
    EndedIsBooked(s, s', i, e);
    forall c ensures Summed(s', c) { EndedSums(s, s', i, e, c); }
  }

  lemma {:induction false} SettleExact(s: Stock, order: string, e: HoldEvent, now: int, i: nat)
    requires Exact(s) && i <= |s.holds| && Settle(s, order, e, now, i).Ok?
    ensures Exact(Settle(s, order, e, now, i).value)
    decreases |s.holds| - i
  {
    hide Exact, SettleOne;
    if i < |s.holds| {
      if Concerned(s.holds[i], order, e, now) {
        SettleOneExact(s, i, e);
        SettleExact(SettleOne(s, i, e).value, order, e, now, i + 1);
      } else {
        SettleExact(s, order, e, now, i + 1);
      }
    }
  }

  lemma TransitionExact(s: Stock, order: string, e: HoldEvent, now: int)
    requires Exact(s)
    ensures Exact(TransitionOrder(s, order, e, now).1)
  {
    if order !in s.fences && CanFence(s.holds, order, e, now) {
      var s1 := s.(fences := s.fences[order := e]);
      FencesAside(s, s.fences[order := e]);
      hide Exact, Settle;
      if Settle(s1, order, e, now, 0).Ok? { SettleExact(s1, order, e, now, 0); }
    }
  }

  lemma FencesAside(s: Stock, fences: map<string, HoldEvent>)
    requires Exact(s)
    ensures Exact(s.(fences := fences))
  {
    var s' := s.(fences := fences);
    hide Of, Expected, SumAt, DeltasAt;
    forall c ensures Summed(s', c) { assert Summed(s, c); }
  }

  // ---------- over runs ----------

  lemma {:induction false} ExactAlways(opening: map<Cell, int>, locs: seq<Location>, run: seq<Op>)
    ensures Exact(Exec(Opened(opening), locs, run))
  {
    if run != [] {
      hide Exact, Reserve, TransitionOrder;
      ExactAlways(opening, locs, run[..|run| - 1]);
      var s := Exec(Opened(opening), locs, run[..|run| - 1]);
      match run[|run| - 1]
      case DoReserve(cmd) => ReserveExact(s, locs, cmd);
      case DoTransition(order, e, now) => TransitionExact(s, order, e, now);
    }
  }

  /** The row is one a reservation must have. */
  predicate Accounted(holds: seq<Hold>, m: Movement) {
    exists i :: 0 <= i < |holds| && m in Expected(holds[i])
  }

  /** MAIN THEOREM, reservation by reservation. After any interleaving of operations no two reservations share a key
      and index, every reservation has exactly the rows of its life in the ledger, and every ledger row is one of
      these. */
  lemma LedgerPerReservation(opening: map<Cell, int>, locs: seq<Location>, run: seq<Op>)
    ensures var s := Exec(Opened(opening), locs, run);
            && (forall i, j :: 0 <= i < j < |s.holds| ==> !SameReservation(s.holds[i], s.holds[j]))
            && (forall i :: 0 <= i < |s.holds| ==> Of(s.movements, s.holds[i]) == Expected(s.holds[i]))
            && (forall k :: 0 <= k < |s.movements| ==> Accounted(s.holds, s.movements[k]))
  {
    ExactAlways(opening, locs, run);
    var s := Exec(Opened(opening), locs, run);
    hide Exec, Expected, Summed;
    forall k | 0 <= k < |s.movements| ensures Accounted(s.holds, s.movements[k]) {
      assert Owned(s.holds, s.movements[k].hold);
      var i :| 0 <= i < |s.holds| && SameReservation(s.movements[k].hold, s.holds[i]);
      RowInOf(s.movements, k, s.holds[i]);
      assert s.movements[k] in Expected(s.holds[i]);
    }
  }

  lemma {:induction false} RowInOf(movements: seq<Movement>, k: nat, h: Hold)
    requires k < |movements| && SameReservation(movements[k].hold, h)
    ensures movements[k] in Of(movements, h)
  {
    if k < |movements| - 1 { RowInOf(movements[..|movements| - 1], k, h); }
  }

  /** MAIN THEOREM, cell by cell. The sales are exactly the stock that has left the shelves, and the adjustments
      exactly the stock that is reserved. */
  lemma LedgerPerCell(opening: map<Cell, int>, locs: seq<Location>, run: seq<Op>, c: Cell)
    requires (forall x :: x in opening ==> opening[x] >= 0) && c in opening
    ensures var s := Exec(Opened(opening), locs, run);
            && c in s.levels
            && DeltasAt(s.movements, c, "sale") == s.levels[c].onHand - opening[c] == -SumAt(s.holds, c, Committed)
            && DeltasAt(s.movements, c, "adjustment") == -s.levels[c].reserved
  {
    ExactAlways(opening, locs, run);
    StockAlwaysAgrees(opening, locs, run, c);
    var s := Exec(Opened(opening), locs, run);
    assert Summed(s, c);
    hide Exec, Booked;
  }
}
