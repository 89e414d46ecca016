/** What every interleaving of reserve, commit, release and expire keeps: levels, reservations, movements
    and fences agree. */
module InventoryInvariant {
  import opened Common
  import opened InventoryModel
  import opened InventorySpec

  /** The three stores agree: with `opening` stock per cell, reserved stock is the active reservations, the
      stock on hand is the opening less the committed ones, and the movements sum to the change in
      available stock. */
  ghost predicate Counted(opening: map<Cell, int>, s: Stock) {
    && s.levels.Keys == opening.Keys
    && (forall i :: 0 <= i < |s.holds| ==> s.holds[i].quantity > 0 && s.holds[i].cell in s.levels)
    && (forall c :: c in s.levels ==> CellCounted(opening, s, c))
  }

  ghost predicate CellCounted(opening: map<Cell, int>, s: Stock, c: Cell)
    requires c in s.levels && c in opening
  {
    && s.levels[c].Valid()
    && s.levels[c].reserved == SumAt(s.holds, c, Active)
    && s.levels[c].onHand == opening[c] - SumAt(s.holds, c, Committed)
    && MovedAt(s.movements, c) == (s.levels[c].onHand - s.levels[c].reserved) - opening[c]
  }

  function StateOf(fences: map<string, HoldEvent>, order: string): HoldState {
    if order in fences then Target(fences[order]) else Active
  }

  /** All reservations of an order are active until its fence is set, and in the fence's state from then on. */
  ghost predicate Fenced(s: Stock) {
    forall i :: 0 <= i < |s.holds| ==> s.holds[i].state == StateOf(s.fences, s.holds[i].order)
  }

  ghost predicate Consistent(opening: map<Cell, int>, s: Stock) {
    Counted(opening, s) && Fenced(s)
  }

  // ---------- reserve ----------

  lemma ReserveAtKeeps(opening: map<Cell, int>, s: Stock, cmd: Command, cell: Cell, quantity: int, index: nat)
    requires Consistent(opening, s) && cell in s.levels && cmd.order !in s.fences
    requires ReserveAt(s, cmd, cell, quantity, index).Ok?
    ensures Consistent(opening, ReserveAt(s, cmd, cell, quantity, index).value)
    ensures ReserveAt(s, cmd, cell, quantity, index).value.fences == s.fences
  {
    var s' := ReserveAt(s, cmd, cell, quantity, index).value;
    var h := Hold(cmd.order, cmd.key, index, cell, quantity, Active, cmd.expiresAt);
    assert s'.holds == s.holds + [h];
    forall c | c in s'.levels ensures CellCounted(opening, s', c) {
      assert CellCounted(opening, s, c);
      SumAppend(s.holds, h, c, Active);
      SumAppend(s.holds, h, c, Committed);
      MovedAppend(s.movements, Movement(cell, -quantity, "adjustment", "reserve", h), c);
    }
  }

  lemma {:induction false} DrainKeeps(opening: map<Cell, int>, s: Stock, locs: seq<Location>, cmd: Command,
                                      sku: string, remaining: int, index: nat)
    requires Consistent(opening, s) && cmd.order !in s.fences && Drain(s, locs, cmd, sku, remaining, index).Ok?
    ensures var s' := Drain(s, locs, cmd, sku, remaining, index).value.0; Consistent(opening, s') && s'.fences == s.fences
    decreases |locs|
  {
    if locs != [] {
      var cell := Cell(sku, locs[0].id);
      hide Consistent, ReserveAt;
      if cell !in s.levels || !locs[0].fulfills || s.levels[cell].Available() == Some(0) {
        DrainKeeps(opening, s, locs[1..], cmd, sku, remaining, index);
      } else {
        var available := s.levels[cell].Available().value;
        var quantity := if remaining > available then available else remaining;
        ReserveAtKeeps(opening, s, cmd, cell, quantity, index + 1);
        if remaining != quantity {
          DrainKeeps(opening, ReserveAt(s, cmd, cell, quantity, index + 1).value, locs[1..], cmd, sku, remaining - quantity, index + 1);
        }
      }
    }
  }

  lemma {:induction false} ReserveLinesKeeps(opening: map<Cell, int>, s: Stock, locs: seq<Location>, cmd: Command,
                                             lines: seq<Line>, index: nat)
    requires Consistent(opening, s) && cmd.order !in s.fences && ReserveLines(s, locs, cmd, lines, index).Ok?
    ensures var s' := ReserveLines(s, locs, cmd, lines, index).value; Consistent(opening, s') && s'.fences == s.fences
    decreases |lines|
  {
    if lines != [] {
      hide Consistent, Drain;
      DrainKeeps(opening, s, locs, cmd, lines[0].sku, lines[0].quantity, index);
      var (s', _, index') := Drain(s, locs, cmd, lines[0].sku, lines[0].quantity, index).value;
      ReserveLinesKeeps(opening, s', locs, cmd, lines[1..], index');
    }
  }

  /** Reserve keeps the tables consistent whatever the command, and never touches a fence. */
  lemma ReserveKeeps(opening: map<Cell, int>, s: Stock, locs: seq<Location>, cmd: Command)
    requires Consistent(opening, s)
    ensures Consistent(opening, Reserve(s, locs, cmd).1) && Reserve(s, locs, cmd).1.fences == s.fences
    ensures Reserve(s, locs, cmd).0.Err? ==> Reserve(s, locs, cmd).1 == s
  {
    hide Consistent, ReserveLines, Matches, Existing;
    if Existing(s.holds, cmd.key) == [] && cmd.order !in s.fences && ReserveLines(s, locs, cmd, cmd.lines, 0).Ok? {
      ReserveLinesKeeps(opening, s, locs, cmd, cmd.lines, 0);
    }
  }

  // ---------- commit, release, expire ----------

  lemma SettleOneResult(s: Stock, i: nat, e: HoldEvent)
    requires i < |s.holds| && s.holds[i].cell in s.levels && s.holds[i].state.Active?
    requires s.levels[s.holds[i].cell].Valid() && 0 < s.holds[i].quantity <= s.levels[s.holds[i].cell].reserved
    ensures SettleOne(s, i, e).Ok?
    ensures var s', h := SettleOne(s, i, e).value, s.holds[i];
            && s'.fences == s.fences && s'.holds == s.holds[i := h.(state := Target(e))]
            && s'.levels.Keys == s.levels.Keys
            && (forall c :: c in s.levels && c != h.cell ==> s'.levels[c] == s.levels[c])
            && s'.levels[h.cell].Valid()
  {
    ApplyMeaning(s.levels[s.holds[i].cell], s.holds[i], e);
  }

  /** What settling reservation i adds up to at one cell. */
  lemma SettledCell(s: Stock, s': Stock, i: nat, e: HoldEvent, c: Cell)
    requires i < |s.holds| && s.holds[i].state.Active? && SettleOne(s, i, e) == Ok(s') && s.holds[i].quantity > 0
    requires c in s.levels
    ensures var q := if s.holds[i].cell == c then s.holds[i].quantity else 0;
            && SumAt(s'.holds, c, Active) == SumAt(s.holds, c, Active) - q
            && SumAt(s'.holds, c, Committed) == SumAt(s.holds, c, Committed) + (if e.Commit? then q else 0)
            && MovedAt(s'.movements, c) == MovedAt(s.movements, c) + (if e.Commit? then 0 else q)
            && s'.levels[c] == Level(s.levels[c].onHand - (if e.Commit? then q else 0), s.levels[c].reserved - q)
  {
    hide SumAt, MovedAt;
    var h := s.holds[i];
    var h' := h.(state := Target(e));
    SumUpdateAt(s.holds, i, h', c, Active);
    SumUpdateAt(s.holds, i, h', c, Committed);
    if e.Commit? {
      var back := Movement(h.cell, h.quantity, "adjustment", "commit_release", h');
      var sale := Movement(h.cell, -h.quantity, "sale", "commit", h');
      MovedAppend(s.movements, back, c);
      MovedAppend(s.movements + [back], sale, c);
      assert s'.movements == s.movements + [back] + [sale];
    } else {
      MovedAppend(s.movements, s'.movements[|s.movements|], c);
    }
  }

  /** An active reservation is always covered by its level's reserved stock, so the "exceeds reserved
      stock" refusal cannot happen. */
  lemma SettleOneKeeps(opening: map<Cell, int>, s: Stock, i: nat, e: HoldEvent)
    requires Counted(opening, s) && i < |s.holds| && s.holds[i].state.Active?
    ensures SettleOne(s, i, e).Ok?
    ensures var s' := SettleOne(s, i, e).value;
            Counted(opening, s') && s'.fences == s.fences && s'.holds == s.holds[i := s.holds[i].(state := Target(e))]
  {
    assert CellCounted(opening, s, s.holds[i].cell);
    HoldWithinSum(s.holds, i);
    SettleOneResult(s, i, e);
    hide SettleOne, SumAt, MovedAt;
    var s' := SettleOne(s, i, e).value;
    forall c | c in s'.levels ensures CellCounted(opening, s', c) {
      assert CellCounted(opening, s, c);
      SettledCell(s, s', i, e, c);
    }
  }

  /** The whole loop: it never fails, and moves exactly the order's concerned reservations. */
  lemma {:induction false} SettleKeeps(opening: map<Cell, int>, s: Stock, order: string, e: HoldEvent, now: int, i: nat)
    requires Counted(opening, s) && i <= |s.holds|
    ensures Settle(s, order, e, now, i).Ok?
    ensures var s' := Settle(s, order, e, now, i).value;
            && Counted(opening, s') && s'.fences == s.fences && |s'.holds| == |s.holds|
            && (forall j :: 0 <= j < |s.holds| ==>
                  s'.holds[j] == if j >= i && Concerned(s.holds[j], order, e, now) then s.holds[j].(state := Target(e))
                                 else s.holds[j])
    decreases |s.holds| - i
  {
    hide Counted, SettleOne;
    if i < |s.holds| {
      if Concerned(s.holds[i], order, e, now) {
        SettleOneKeeps(opening, s, i, e);
        var s1 := SettleOne(s, i, e).value;
        SettleKeeps(opening, s1, order, e, now, i + 1);
      } else {
        SettleKeeps(opening, s, order, e, now, i + 1);
      }
    }
  }

  lemma FencingCounts(opening: map<Cell, int>, s: Stock, fences: map<string, HoldEvent>)
    requires Counted(opening, s)
    ensures Counted(opening, s.(fences := fences))
  {
    var s' := s.(fences := fences);
    forall c | c in s'.levels ensures CellCounted(opening, s', c) { assert CellCounted(opening, s, c); }
  }

  /** TransitionOrder on consistent tables. The fence decides everything: a fenced order answers its own
      event with a no-op and refuses any other; an unfenced one is fenced with all its reservations moved at
      once, except that an expiry does nothing while one of them is active and unexpired. No other error is
      reachable. */
  lemma TransitionKeeps(opening: map<Cell, int>, s: Stock, order: string, e: HoldEvent, now: int)
    requires Consistent(opening, s)
    ensures var (r, s') := TransitionOrder(s, order, e, now);
            && Consistent(opening, s') && |s'.holds| == |s.holds|
            && (r.Err? <==> order in s.fences && s.fences[order] != e) && (r.Err? ==> r.error == OrderTerminal)
            && (r == Ok(true) <==>
                  order !in s.fences
                  && !(e.Expire? && exists i :: 0 <= i < |s.holds| && s.holds[i].order == order && s.holds[i].expiresAt > now))
            && (r == Ok(true) ==> s'.fences == s.fences[order := e])
            && (r == Ok(true) ==> forall j :: 0 <= j < |s.holds| ==>
                  s'.holds[j] == if s.holds[j].order == order then s.holds[j].(state := Target(e)) else s.holds[j])
            && (r != Ok(true) ==> s' == s)
  {
    hide Counted, Settle;
    if order !in s.fences && CanFence(s.holds, order, e, now) {
      var s1 := s.(fences := s.fences[order := e]);
      FencingCounts(opening, s, s1.fences);
      SettleKeeps(opening, s1, order, e, now, 0);
      var s' := Settle(s1, order, e, now, 0).value;
      forall j | 0 <= j < |s.holds|
        ensures s'.holds[j] == if s.holds[j].order == order then s.holds[j].(state := Target(e)) else s.holds[j]
      {
        assert s.holds[j].state == StateOf(s.fences, s.holds[j].order);
      }
    } else if order !in s.fences {
      var i :| 0 <= i < |s.holds| && s.holds[i].order == order && s.holds[i].state.Active? && s.holds[i].expiresAt > now;
      assert exists k :: 0 <= k < |s.holds| && s.holds[k].order == order && s.holds[k].expiresAt > now;
    }
  }

  // ---------- over runs ----------

  datatype Op =
    | DoReserve(cmd: Command)
    | DoTransition(order: string, e: HoldEvent, now: int)

  function Do(s: Stock, locs: seq<Location>, op: Op): Stock {
    match op
    case DoReserve(cmd) => Reserve(s, locs, cmd).1
    case DoTransition(order, e, now) => TransitionOrder(s, order, e, now).1
  }

  function Exec(s: Stock, locs: seq<Location>, run: seq<Op>): Stock {
    if run == [] then s else Do(Exec(s, locs, run[..|run| - 1]), locs, run[|run| - 1])
  }

  /** Stock on the shelves, nothing reserved yet. */
  function Opened(opening: map<Cell, int>): Stock {
    Stock(map c | c in opening :: Level(opening[c], 0), [], [], map[])
  }

  lemma DoKeeps(opening: map<Cell, int>, s: Stock, locs: seq<Location>, op: Op)
    requires Consistent(opening, s)
    ensures Consistent(opening, Do(s, locs, op))
  {
    hide Consistent, Reserve, TransitionOrder;
    match op
    case DoReserve(cmd) => ReserveKeeps(opening, s, locs, cmd);
    case DoTransition(order, e, now) => TransitionKeeps(opening, s, order, e, now);
  }

  lemma {:induction false} RunKeeps(opening: map<Cell, int>, s: Stock, locs: seq<Location>, run: seq<Op>)
    requires Consistent(opening, s)
    ensures Consistent(opening, Exec(s, locs, run))
  {
    hide Consistent, Do;
    if run != [] {
      RunKeeps(opening, s, locs, run[..|run| - 1]);
      DoKeeps(opening, Exec(s, locs, run[..|run| - 1]), locs, run[|run| - 1]);
    }
  }

  /** MAIN THEOREM. After any interleaving of operations every level has 0 <= reserved <= on hand, reserved
      stock is exactly the active reservations there, stock left the shelves exactly by commits, and the
      movement ledger accounts for all of the change in available stock. */
  lemma StockAlwaysAgrees(opening: map<Cell, int>, locs: seq<Location>, run: seq<Op>, c: Cell)
    requires (forall x :: x in opening ==> opening[x] >= 0) && c in opening
    ensures var s := Exec(Opened(opening), locs, run);
            && c in s.levels
            && 0 <= s.levels[c].reserved <= s.levels[c].onHand
            && s.levels[c].reserved == SumAt(s.holds, c, Active)
            && s.levels[c].onHand == opening[c] - SumAt(s.holds, c, Committed)
            && MovedAt(s.movements, c) == (s.levels[c].onHand - s.levels[c].reserved) - opening[c]
  {
    var s0 := Opened(opening);
    forall x | x in s0.levels ensures CellCounted(opening, s0, x) { }
    hide Exec;
    RunKeeps(opening, s0, locs, run);
    assert CellCounted(opening, Exec(s0, locs, run), c);
  }

  /** The order's reservations are the same rows in both tables. */
  predicate SameHolds(s: Stock, s': Stock, order: string) {
    && |s.holds| <= |s'.holds|
    && (forall i :: 0 <= i < |s.holds| && s.holds[i].order == order ==> s'.holds[i] == s.holds[i])
    && (forall i :: 0 <= i < |s.holds| ==> s'.holds[i].order == s.holds[i].order)
    && (forall i :: |s.holds| <= i < |s'.holds| ==> s'.holds[i].order != order)
  }

  lemma {:induction false} DrainAdds(s: Stock, locs: seq<Location>, cmd: Command, sku: string, remaining: int,
                                     index: nat)
    requires Drain(s, locs, cmd, sku, remaining, index).Ok?
    ensures var s' := Drain(s, locs, cmd, sku, remaining, index).value.0;
            s.holds <= s'.holds && forall i :: |s.holds| <= i < |s'.holds| ==>
              s'.holds[i].order == cmd.order && s'.holds[i].key == cmd.key && s'.holds[i].quantity > 0
              && s'.holds[i].state.Active? && s'.holds[i].expiresAt == cmd.expiresAt
    decreases |locs|
  {
    if locs != [] {
      var cell := Cell(sku, locs[0].id);
      if cell !in s.levels || !locs[0].fulfills || s.levels[cell].Available() == Some(0) {
        DrainAdds(s, locs[1..], cmd, sku, remaining, index);
      } else {
        var available := s.levels[cell].Available().value;
        var quantity := if remaining > available then available else remaining;
        if remaining != quantity {
          DrainAdds(ReserveAt(s, cmd, cell, quantity, index + 1).value, locs[1..], cmd, sku, remaining - quantity, index + 1);
        }
      }
    }
  }

  /** Every row Reserve adds belongs to the command: its order, key and expiry, active and positive. */
  lemma {:induction false} LinesAdd(s: Stock, locs: seq<Location>, cmd: Command, lines: seq<Line>, index: nat)
    requires ReserveLines(s, locs, cmd, lines, index).Ok?
    ensures var s' := ReserveLines(s, locs, cmd, lines, index).value;
            s.holds <= s'.holds && forall i :: |s.holds| <= i < |s'.holds| ==>
              s'.holds[i].order == cmd.order && s'.holds[i].key == cmd.key && s'.holds[i].quantity > 0
              && s'.holds[i].state.Active? && s'.holds[i].expiresAt == cmd.expiresAt
    decreases |lines|
  {
    if lines != [] {
      hide Drain;
      DrainAdds(s, locs, cmd, lines[0].sku, lines[0].quantity, index);
      var (s', _, index') := Drain(s, locs, cmd, lines[0].sku, lines[0].quantity, index).value;
      LinesAdd(s', locs, cmd, lines[1..], index');
    }
  }

  lemma FencedStep(opening: map<Cell, int>, s: Stock, locs: seq<Location>, op: Op, order: string)
    requires Consistent(opening, s) && order in s.fences
    ensures var s' := Do(s, locs, op);
            order in s'.fences && s'.fences[order] == s.fences[order] && SameHolds(s, s', order)
  {
    match op
    case DoReserve(cmd) =>
      ReserveKeeps(opening, s, locs, cmd);
      hide Consistent, ReserveLines, Matches, Existing;
      if Existing(s.holds, cmd.key) == [] && cmd.order !in s.fences && ReserveLines(s, locs, cmd, cmd.lines, 0).Ok? {
        LinesAdd(s, locs, cmd, cmd.lines, 0);
      }
    case DoTransition(o, e, now) =>
      TransitionKeeps(opening, s, o, e, now);
      hide Consistent, TransitionOrder;
  }

  /** MAIN THEOREM. A terminal fence is for ever: whatever follows, the order keeps exactly the same
      reservations, all of them in the fence's state; its own event is a no-op and any other is refused. */
  lemma {:induction false} FenceIsPermanent(opening: map<Cell, int>, s: Stock, locs: seq<Location>, run: seq<Op>,
                                            order: string, e: HoldEvent, now: int)
    requires Consistent(opening, s) && order in s.fences
    ensures var s' := Exec(s, locs, run);
            && order in s'.fences && s'.fences[order] == s.fences[order]
            && SameHolds(s, s', order)
            && (forall i :: 0 <= i < |s'.holds| && s'.holds[i].order == order ==> s'.holds[i].state == Target(s.fences[order]))
            && TransitionOrder(s', order, e, now) == (if e == s.fences[order] then Ok(false) else Err(OrderTerminal), s')
    decreases |run|
  {
    RunKeeps(opening, s, locs, run);
    hide Counted, Do;
    if run != [] {
      var prefix := run[..|run| - 1];
      FenceIsPermanent(opening, s, locs, prefix, order, e, now);
      RunKeeps(opening, s, locs, prefix);
      FencedStep(opening, Exec(s, locs, prefix), locs, run[|run| - 1], order);
    }
  }

  /** An expiry fences an order only when every reservation it holds has run out. */
  lemma ExpireWaits(opening: map<Cell, int>, s: Stock, order: string, now: int, i: nat)
    requires Consistent(opening, s) && order !in s.fences && i < |s.holds| && s.holds[i].order == order
    requires TransitionOrder(s, order, Expire, now).0 == Ok(true)
    ensures s.holds[i].expiresAt <= now
    ensures var s' := TransitionOrder(s, order, Expire, now).1; i < |s'.holds| && s'.holds[i].state.Expired?
  {
    TransitionKeeps(opening, s, order, Expire, now);
  }
}
