/** Stock levels and reservations as values (templates/commerce/internal/inventory/model.go). Quantities are
    unbounded here; the source's int64 sums stay within the 32-bit columns because no reservation exceeds
    the available stock of its level. */
module InventoryModel {
  import opened Common

  datatype Error =
    | InvalidInventory | InvalidTransition | InvalidCommand
    | SkuNotFound | InsufficientStock | IdempotencyConflict | OrderTerminal | MissingLevel

  datatype Result<+T> = Ok(value: T) | Err(error: Error)

  datatype HoldState = Active | Committed | Released | Expired

  datatype HoldEvent = Commit | Release | Expire

  /** One SKU at one location. */
  datatype Cell = Cell(sku: string, loc: string)

  /** A reservation row. The source hashes (key, order, sku, location, index) into its id, and (key, index)
      into its unique idempotency key. */
  datatype Hold = Hold(order: string, key: string, index: nat, cell: Cell, quantity: int, state: HoldState, expiresAt: int)

  datatype Level = Level(onHand: int, reserved: int) {

    predicate Valid() { 0 <= reserved <= onHand }

    function Available(): Option<int> {
      if onHand < 0 || reserved < 0 || reserved > onHand then None else Some(onHand - reserved)
    }

    function Reserve(h: Hold): Result<Level> {
      match Available()
      case None => Err(InvalidInventory)
      case Some(available) =>
        if h.quantity <= 0 || !h.state.Active? || h.quantity > available then Err(InvalidInventory)
        else Ok(Level(onHand, reserved + h.quantity))
    }

    /** applyReservationEffect. */
    function Apply(h: Hold, e: HoldEvent): Result<(Level, Hold)> {
      if Available().None? then Err(InvalidInventory)
      else if h.state == Target(e) then Ok((this, h))
      else if !h.state.Active? then Err(InvalidTransition)
      else if h.quantity <= 0 || h.quantity > reserved then Err(InvalidInventory)
      else
        var next := Level(if e.Commit? then onHand - h.quantity else onHand, reserved - h.quantity);
        if next.Available().None? then Err(InvalidInventory) else Ok((next, h.(state := Target(e))))
    }
  }

  function Target(e: HoldEvent): HoldState {
    match e
    case Commit => Committed
    case Release => Released
    case Expire => Expired
  }

  /** Reservation.Transition. */
  function Transition(h: Hold, e: HoldEvent): Result<Hold> {
    if h.state == Target(e) then Ok(h)
    else if !h.state.Active? then Err(InvalidTransition)
    else Ok(h.(state := Target(e)))
  }

  /** NewReservation. */
  function NewReservation(order: string, key: string, index: nat, cell: Cell, quantity: int,
                          expiresAt: int): Result<Hold> {
    if order == "" || cell.sku == "" || cell.loc == "" || key == "" then Err(InvalidInventory)
    else if quantity <= 0 then Err(InvalidInventory)
    else Ok(Hold(order, key, index, cell, quantity, Active, expiresAt))
  }

  /** On a valid level an effect fails only as the bare transition does, or because the hold was never
      counted in `reserved`; the level stays valid and available stock grows by the hold exactly when it is
      given back. Applying the same event again changes nothing. */
  lemma ApplyMeaning(l: Level, h: Hold, e: HoldEvent)
    requires l.Valid() && h.quantity > 0
    ensures l.Apply(h, e).Ok? <==> Transition(h, e).Ok? && (h.state.Active? ==> h.quantity <= l.reserved)
    ensures l.Apply(h, e).Ok? ==>
              var (l', h') := l.Apply(h, e).value;
              && l'.Valid() && Transition(h, e) == Ok(h')
              && l'.onHand - l'.reserved
                 == l.onHand - l.reserved + (if h.state.Active? && !e.Commit? then h.quantity else 0)
              && l'.Apply(h', e) == Ok((l', h'))
    ensures l.Reserve(h).Ok? && h.state.Active? ==> l.Reserve(h).value.Apply(h, Release) == Ok((l, h.(state := Released)))
  {
  }

  // ---------- sums over the tables ----------

  datatype Movement = Movement(cell: Cell, delta: int, reason: string, action: string, hold: Hold)

  /** The quantity of the holds in one state at one cell. */
  function SumAt(holds: seq<Hold>, c: Cell, st: HoldState): int {
    if holds == [] then 0
    else
      var last := holds[|holds| - 1];
      SumAt(holds[..|holds| - 1], c, st) + (if last.cell == c && last.state == st then last.quantity else 0)
  }

  function MovedAt(movements: seq<Movement>, c: Cell): int {
    if movements == [] then 0
    else
      var last := movements[|movements| - 1];
      MovedAt(movements[..|movements| - 1], c) + (if last.cell == c then last.delta else 0)
  }

  lemma SumAppend(holds: seq<Hold>, h: Hold, c: Cell, st: HoldState)
    ensures SumAt(holds + [h], c, st) == SumAt(holds, c, st) + (if h.cell == c && h.state == st then h.quantity else 0)
  {
    assert (holds + [h])[..|holds|] == holds;
  }

  lemma {:induction false} SumUpdateAt(holds: seq<Hold>, i: nat, h: Hold, c: Cell, st: HoldState)
    requires i < |holds|
    ensures SumAt(holds[i := h], c, st)
         == SumAt(holds, c, st) - (if holds[i].cell == c && holds[i].state == st then holds[i].quantity else 0)
            + (if h.cell == c && h.state == st then h.quantity else 0)
  {
    var n := |holds| - 1;
    if i < n {
      SumUpdateAt(holds[..n], i, h, c, st);
      assert holds[i := h][..n] == holds[..n][i := h];
    } else {
      assert holds[i := h][..n] == holds[..n];
    }
  }

  lemma MovedAppend(movements: seq<Movement>, m: Movement, c: Cell)
    ensures MovedAt(movements + [m], c) == MovedAt(movements, c) + (if m.cell == c then m.delta else 0)
  {
    assert (movements + [m])[..|movements|] == movements;
  }

  /** One hold is part of the sum it belongs to. */
  lemma {:induction false} HoldWithinSum(holds: seq<Hold>, i: nat)
    requires i < |holds| && forall k :: 0 <= k < |holds| ==> holds[k].quantity > 0
    ensures holds[i].quantity <= SumAt(holds, holds[i].cell, holds[i].state)
    decreases |holds|
  {
    var n := |holds| - 1;
    if i < n {
      HoldWithinSum(holds[..n], i);
    } else {
      SumNonNegative(holds[..n], holds[i].cell, holds[i].state);
    }
  }

  lemma {:induction false} SumNonNegative(holds: seq<Hold>, c: Cell, st: HoldState)
    requires forall k :: 0 <= k < |holds| ==> holds[k].quantity > 0
    ensures SumAt(holds, c, st) >= 0
  {
    if holds != [] { SumNonNegative(holds[..|holds| - 1], c, st); }
  }
}
