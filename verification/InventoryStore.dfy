/** Reserve and TransitionOrder over the levels, the reservations, the movement ledger and the terminal
    fences (templates/commerce/internal/inventory/store.go), as functions of the tables. */
module InventorySpec {
  import opened Common
  import opened InventoryModel

  /** A location with its profile's fulfills_orders flag (false when it has no profile). */
  datatype Location = Location(id: string, fulfills: bool)

  datatype Line = Line(sku: string, quantity: int)

  datatype Command = Command(order: string, key: string, lines: seq<Line>, expiresAt: int)

  datatype Stock = Stock(levels: map<Cell, Level>, holds: seq<Hold>, movements: seq<Movement>, fences: map<string, HoldEvent>)

  /** reserveAtLevel. */
  function ReserveAt(s: Stock, cmd: Command, cell: Cell, quantity: int, index: nat): Result<Stock>
    requires cell in s.levels
  {
    match NewReservation(cmd.order, cmd.key, index, cell, quantity, cmd.expiresAt)
    case Err(e) => Err(e)
    case Ok(h) =>
      match s.levels[cell].Reserve(h)
      case Err(e) => Err(e)
      case Ok(level) =>
        Ok(s.(levels := s.levels[cell := level], holds := s.holds + [h],
              movements := s.movements + [Movement(cell, -quantity, "adjustment", "reserve", h)]))
  }

  /** The candidate loop for one line, over the locations in (priority, id) order: the tables, the quantity
      still wanted and the number of allocations made so far. */
  function Drain(s: Stock, locs: seq<Location>, cmd: Command, sku: string, remaining: int,
                 index: nat): (r: Result<(Stock, int, nat)>)
    ensures r.Ok? ==> s.holds <= r.value.0.holds
    decreases |locs|
  {
    if locs == [] then Ok((s, remaining, index))
    else
      var cell := Cell(sku, locs[0].id);
      if cell !in s.levels || !locs[0].fulfills then Drain(s, locs[1..], cmd, sku, remaining, index)
      else
        match s.levels[cell].Available()
        case None => Err(InvalidInventory)
        case Some(available) =>
          if available == 0 then Drain(s, locs[1..], cmd, sku, remaining, index)
          else
            var quantity := if remaining > available then available else remaining;
            match ReserveAt(s, cmd, cell, quantity, index + 1)
            case Err(e) => Err(e)
            case Ok(s') =>
              if remaining == quantity then Ok((s', 0, index + 1))
              else Drain(s', locs[1..], cmd, sku, remaining - quantity, index + 1)
  }

  predicate HasLevel(levels: map<Cell, Level>, locs: seq<Location>, sku: string) {
    exists k :: 0 <= k < |locs| && Cell(sku, locs[k].id) in levels
  }

  function ReserveLines(s: Stock, locs: seq<Location>, cmd: Command, lines: seq<Line>, index: nat): (r: Result<Stock>)
    ensures r.Ok? ==> s.holds <= r.value.holds
    decreases |lines|
  {
    if lines == [] then Ok(s)
    else if !HasLevel(s.levels, locs, lines[0].sku) then Err(SkuNotFound)
    else
      match Drain(s, locs, cmd, lines[0].sku, lines[0].quantity, index)
      case Err(e) => Err(e)
      case Ok((s', remaining, index')) =>
        if remaining != 0 then Err(InsufficientStock) else ReserveLines(s', locs, cmd, lines[1..], index')
  }

  function Existing(holds: seq<Hold>, key: string): seq<Hold> {
    if holds == [] then []
    else
      var last := holds[|holds| - 1];
      Existing(holds[..|holds| - 1], key) + (if last.key == key then [last] else [])
  }

  function Totals(allocations: seq<Hold>): map<string, int> {
    if allocations == [] then map[]
    else
      var last := allocations[|allocations| - 1];
      var before := Totals(allocations[..|allocations| - 1]);
      before[last.cell.sku := Total(before, last.cell.sku) + last.quantity]
  }

  /** A Go map read: a missing SKU reads as zero. */
  function Total(totals: map<string, int>, sku: string): int {
    if sku in totals then totals[sku] else 0
  }

  /** allocationsMatchCommand. */
  predicate Matches(allocations: seq<Hold>, cmd: Command) {
    && allocations != []
    && (forall i :: 0 <= i < |allocations| ==> allocations[i].order == cmd.order)
    && |Totals(allocations)| == |cmd.lines|
    && (forall i :: 0 <= i < |cmd.lines| ==> Total(Totals(allocations), cmd.lines[i].sku) == cmd.lines[i].quantity)
  }

  /** Reserve, one transaction: a refused command leaves the tables as they were. */
  function Reserve(s: Stock, locs: seq<Location>, cmd: Command): (Result<seq<Hold>>, Stock) {
    var existing := Existing(s.holds, cmd.key);
    if existing != [] then
      (if Matches(existing, cmd) then Ok(existing) else Err(IdempotencyConflict), s)
    else if cmd.order in s.fences then (Err(OrderTerminal), s)
    else
      match ReserveLines(s, locs, cmd, cmd.lines, 0)
      case Err(e) => (Err(e), s)
      case Ok(s') => (Ok(s'.holds[|s.holds|..]), s')
  }

  /** The event's turn at reservation i. */
  function SettleOne(s: Stock, i: nat, e: HoldEvent): Result<Stock>
    requires i < |s.holds|
  {
    var h := s.holds[i];
    if h.cell !in s.levels then Err(MissingLevel)
    else
      match s.levels[h.cell].Apply(h, e)
      case Err(err) => Err(err)
      case Ok((level, h')) =>
        Ok(s.(levels := s.levels[h.cell := level], holds := s.holds[i := h'],
              movements := s.movements +
                if e.Commit? then [Movement(h.cell, h.quantity, "adjustment", "commit_release", h'),
                                   Movement(h.cell, -h.quantity, "sale", "commit", h')]
                else [Movement(h.cell, h.quantity, "adjustment", if e.Release? then "release" else "expire", h')]))
  }

  predicate Concerned(h: Hold, order: string, e: HoldEvent, now: int) {
    h.order == order && h.state.Active? && !(e.Expire? && h.expiresAt > now)
  }

  /** The loop of TransitionOrder from reservation i on. */
  function Settle(s: Stock, order: string, e: HoldEvent, now: int, i: nat): Result<Stock>
    requires i <= |s.holds|
    decreases |s.holds| - i
  {
    if i == |s.holds| then Ok(s)
    else if !Concerned(s.holds[i], order, e, now) then Settle(s, order, e, now, i + 1)
    else
      match SettleOne(s, i, e)
      case Err(err) => Err(err)
      case Ok(s') => Settle(s', order, e, now, i + 1)
  }

  /** canApplyTerminalFence: an expiry waits for every active reservation of the order to run out. */
  predicate CanFence(holds: seq<Hold>, order: string, e: HoldEvent, now: int) {
    e.Expire? ==> forall i :: 0 <= i < |holds| && holds[i].order == order ==> !(holds[i].state.Active? && holds[i].expiresAt > now)
  }

  /** TransitionOrder: whether it changed anything, and the tables after it. */
  function TransitionOrder(s: Stock, order: string, e: HoldEvent, now: int): (Result<bool>, Stock) {
    if order in s.fences then (if s.fences[order] == e then Ok(false) else Err(OrderTerminal), s)
    else if !CanFence(s.holds, order, e, now) then (Ok(false), s)
    else
      match Settle(s.(fences := s.fences[order := e]), order, e, now, 0)
      case Err(err) => (Err(err), s)
      case Ok(s') => (Ok(true), s')
  }

  // ---------- the loops behind two of these predicates ----------

  method CanApplyTerminalFence(holds: seq<Hold>, order: string, e: HoldEvent, now: int) returns (r: bool)
    ensures r <==> CanFence(holds, order, e, now)
  {
    if !e.Expire? { return true; }
    for i := 0 to |holds|
      invariant CanFence(holds[..i], order, e, now)
    {
      assert holds[..i + 1][i] == holds[i];
      if holds[i].order == order && holds[i].state.Active? && holds[i].expiresAt > now { return false; }
    }
    assert holds[..|holds|] == holds;
    return true;
  }

  method AllocationsMatch(allocations: seq<Hold>, cmd: Command) returns (r: bool)
    ensures r <==> Matches(allocations, cmd)
  {
    if |allocations| == 0 { return false; }
    var totals: map<string, int> := map[];
    for i := 0 to |allocations|
      invariant totals == Totals(allocations[..i])
      invariant forall j :: 0 <= j < i ==> allocations[j].order == cmd.order
    {
      assert allocations[..i + 1][..i] == allocations[..i];
      if allocations[i].order != cmd.order { return false; }
      var sku := allocations[i].cell.sku;
      totals := totals[sku := Total(totals, sku) + allocations[i].quantity];
    }
    assert allocations[..|allocations|] == allocations;
    if |totals| != |cmd.lines| { return false; }
    for i := 0 to |cmd.lines|
      invariant forall j :: 0 <= j < i ==> Total(totals, cmd.lines[j].sku) == cmd.lines[j].quantity
    {
      if Total(totals, cmd.lines[i].sku) != cmd.lines[i].quantity { return false; }
    }
    return true;
  }
}

/** The store as the source writes it: tables updated in place inside a transaction, and rolled back when
    an operation fails. Each method is proved equal to its function in InventorySpec. */
module InventoryStore {
  import opened Common
  import opened InventoryModel
  import opened InventorySpec

  class Store {
    const locs: seq<Location>
    var levels: map<Cell, Level>
    var holds: seq<Hold>
    var movements: seq<Movement>
    var fences: map<string, HoldEvent>

    function Tables(): Stock
      reads this
    {
      Stock(levels, holds, movements, fences)
    }

    constructor (locs: seq<Location>, levels: map<Cell, Level>)
      ensures this.locs == locs && Tables() == Stock(levels, [], [], map[])
    {
      this.locs, this.levels, holds, movements, fences := locs, levels, [], [], map[];
    }

    /** Roll the open transaction back. */
    method Rollback(saved: Stock)
      modifies this
      ensures Tables() == saved
    {
      levels, holds, movements, fences := saved.levels, saved.holds, saved.movements, saved.fences;
    }

    method ReserveAtLevel(cmd: Command, cell: Cell, quantity: int, index: nat) returns (error: Option<Error>)
      requires cell in levels
      modifies this
      ensures error == (match ReserveAt(old(Tables()), cmd, cell, quantity, index)
                        case Ok(_) => None
                        case Err(e) => Some(e))
      ensures error.None? ==> Ok(Tables()) == ReserveAt(old(Tables()), cmd, cell, quantity, index)
    {
      match NewReservation(cmd.order, cmd.key, index, cell, quantity, cmd.expiresAt) {
        case Err(e) => return Some(e);
        case Ok(h) =>
          match levels[cell].Reserve(h) {
            case Err(e) => return Some(e);
            case Ok(level) =>
              levels := levels[cell := level];
              holds := holds + [h];
              movements := movements + [Movement(cell, -quantity, "adjustment", "reserve", h)];
              return None;
          }
      }
    }

    /** The candidate loop of one line. */
    method DrainLine(cmd: Command, line: Line, index: nat) returns (error: Option<Error>, remaining: int, made: nat)
      modifies this
      ensures match Drain(old(Tables()), locs, cmd, line.sku, line.quantity, index)
              case Err(e) => error == Some(e)
              case Ok((s', left, index')) => error.None? && Tables() == s' && remaining == left && made == index'
    {
      remaining, made := line.quantity, index;
      var k := 0;
      assert locs[0..] == locs;
      while k < |locs|
        invariant 0 <= k <= |locs|
        invariant Drain(old(Tables()), locs, cmd, line.sku, line.quantity, index)
               == Drain(Tables(), locs[k..], cmd, line.sku, remaining, made)
      {
        var cell := Cell(line.sku, locs[k].id);
        assert locs[k..][1..] == locs[k + 1..];
        if cell in levels && locs[k].fulfills {
          match levels[cell].Available() {
            case None => return Some(InvalidInventory), remaining, made;
            case Some(available) =>
              if available != 0 {
                var quantity := if remaining > available then available else remaining;
                made := made + 1;
                error := ReserveAtLevel(cmd, cell, quantity, made);
                if error.Some? { return; }
                remaining := remaining - quantity;
                if remaining == 0 { return; }
              }
          }
        }
        k := k + 1;
      }
      return None, remaining, made;
    }

    method AllocateLines(cmd: Command) returns (error: Option<Error>)
      modifies this
      ensures match ReserveLines(old(Tables()), locs, cmd, cmd.lines, 0)
              case Err(e) => error == Some(e)
              case Ok(s') => error.None? && Tables() == s'
    {
      var index := 0;
      assert cmd.lines[0..] == cmd.lines;
      for i := 0 to |cmd.lines|
        invariant ReserveLines(old(Tables()), locs, cmd, cmd.lines, 0)
               == ReserveLines(Tables(), locs, cmd, cmd.lines[i..], index)
      {
        assert cmd.lines[i..][1..] == cmd.lines[i + 1..];
        if !(exists k :: 0 <= k < |locs| && Cell(cmd.lines[i].sku, locs[k].id) in levels) {
          return Some(SkuNotFound);
        }
        var remaining;
        error, remaining, index := DrainLine(cmd, cmd.lines[i], index);
        if error.Some? { return; }
        if remaining != 0 { return Some(InsufficientStock); }
      }
      return None;
    }

    method Reserve(cmd: Command) returns (reply: Result<seq<Hold>>)
      modifies this
      ensures (reply, Tables()) == InventorySpec.Reserve(old(Tables()), locs, cmd)
    {
      var existing := Existing(holds, cmd.key);
      if existing != [] {
        var same := AllocationsMatch(existing, cmd);
        return if same then Ok(existing) else Err(IdempotencyConflict);
      }
      if cmd.order in fences { return Err(OrderTerminal); }
      var saved := Tables();
      var error := AllocateLines(cmd);
      if error.Some? {
        Rollback(saved);
        return Err(error.value);
      }
      return Ok(holds[|saved.holds|..]);
    }

    /** The allocation loop of TransitionOrder. */
    method SettleAll(order: string, e: HoldEvent, now: int) returns (error: Option<Error>)
      modifies this
      ensures match Settle(old(Tables()), order, e, now, 0)
              case Err(err) => error == Some(err)
              case Ok(s') => error.None? && Tables() == s'
    {
      var i := 0;
      while i < |holds|
        invariant 0 <= i <= |holds|
        invariant Settle(old(Tables()), order, e, now, 0) == Settle(Tables(), order, e, now, i)
        decreases |holds| - i
      {
        var h := holds[i];
        if Concerned(h, order, e, now) {
          if h.cell !in levels { return Some(MissingLevel); }
          match levels[h.cell].Apply(h, e) {
            case Err(err) => return Some(err);
            case Ok((level, h')) =>
              levels := levels[h.cell := level];
              holds := holds[i := h'];
              if e.Commit? {
                movements := movements + [Movement(h.cell, h.quantity, "adjustment", "commit_release", h'),
                                          Movement(h.cell, -h.quantity, "sale", "commit", h')];
              } else {
                movements := movements
                  + [Movement(h.cell, h.quantity, "adjustment", if e.Release? then "release" else "expire", h')];
              }
          }
        }
        i := i + 1;
      }
      return None;
    }

    method TransitionOrder(order: string, e: HoldEvent, now: int) returns (changed: Result<bool>)
      modifies this
      ensures (changed, Tables()) == InventorySpec.TransitionOrder(old(Tables()), order, e, now)
    {
      if order in fences {
        return if fences[order] == e then Ok(false) else Err(OrderTerminal);
      }
      var fence := CanApplyTerminalFence(holds, order, e, now);
      if !fence { return Ok(false); }
      var saved := Tables();
      fences := fences[order := e];
      var error := SettleAll(order, e, now);
      if error.Some? {
        Rollback(saved);
        return Err(error.value);
      }
      return Ok(true);
    }
  }
}
