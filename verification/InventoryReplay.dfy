/** Idempotency keys: a repeated command is answered with its own allocations for ever, a different command
    under the same key is refused, and neither changes anything. */
module InventoryReplay {
  import opened Common
  import opened InventoryModel
  import opened InventorySpec
  import opened InventoryInvariant
  import opened InventoryLines
  import opened InventoryGreedy

  /** On distinct SKUs a line is all that is wanted of its SKU. */
  lemma {:induction false} WantedMeaning(lines: seq<Line>, x: string)
    requires CanonicalLines(lines)
    ensures x !in Skus(lines) ==> Wanted(lines, x) == 0
    ensures forall i :: 0 <= i < |lines| && lines[i].sku == x ==> Wanted(lines, x) == lines[i].quantity
  {
    if lines != [] {
      var rest := lines[1..];
      WantedMeaning(rest, x);
      assert forall i :: 0 <= i < |rest| ==> rest[i] == lines[i + 1];
      assert lines[0].sku in Skus(lines);
      if lines[0].sku == x {
        assert x !in Skus(rest);
      } else {
        assert x in Skus(rest) ==> x in Skus(lines);
        forall i | 0 <= i < |lines| && lines[i].sku == x ensures Wanted(lines, x) == lines[i].quantity {
          assert rest[i - 1] == lines[i];
        }
      }
    }
  }

  lemma {:induction false} TotalsMeaning(a: seq<Hold>, x: string)
    requires forall i :: 0 <= i < |a| ==> a[i].quantity > 0
    ensures Total(Totals(a), x) == Taken(a, x) >= 0
    ensures x in Totals(a) <==> Taken(a, x) > 0
  {
    if a != [] { TotalsMeaning(a[..|a| - 1], x); }
  }

  /** A map of positive totals with as many SKUs as the command, agreeing on each of its lines. */
  predicate LinewiseEqual(totals: map<string, int>, lines: seq<Line>) {
    |totals| == |lines| && forall i :: 0 <= i < |lines| ==> Total(totals, lines[i].sku) == lines[i].quantity
  }

  lemma CountingSuffices(totals: map<string, int>, lines: seq<Line>, x: string)
    requires CanonicalLines(lines) && LinewiseEqual(totals, lines)
    ensures Total(totals, x) == Wanted(lines, x)
  {
    var skus := Skus(lines);
    SkuCount(lines);
    WantedMeaning(lines, x);
    forall y | y in skus ensures y in totals.Keys {
      var i :| 0 <= i < |lines| && lines[i].sku == y;
      assert Total(totals, lines[i].sku) == lines[i].quantity;
    }
    SubsetSize(skus, totals.Keys);
    hide Wanted;
    if x in skus {
      var i :| 0 <= i < |lines| && lines[i].sku == x;
      assert Total(totals, lines[i].sku) == lines[i].quantity;
    }
  }

  lemma CountingNecessary(totals: map<string, int>, lines: seq<Line>)
    requires CanonicalLines(lines) && forall x :: Total(totals, x) == Wanted(lines, x)
    requires forall x :: x in totals ==> totals[x] > 0
    ensures LinewiseEqual(totals, lines)
  {
    var skus := Skus(lines);
    SkuCount(lines);
    forall i | 0 <= i < |lines| ensures Total(totals, lines[i].sku) == lines[i].quantity { WantedMeaning(lines, lines[i].sku); }
    hide Wanted;
    forall x ensures x in totals.Keys <==> x in skus {
      WantedMeaning(lines, x);
      assert Total(totals, x) == Wanted(lines, x);
      if x in skus { var i :| 0 <= i < |lines| && lines[i].sku == x; }
    }
    assert totals.Keys == skus;
  }

  ghost predicate TakenAsWanted(a: seq<Hold>, lines: seq<Line>) {
    forall x :: Taken(a, x) == Wanted(lines, x)
  }

  lemma LinewiseMeaning(a: seq<Hold>, lines: seq<Line>)
    requires CanonicalLines(lines) && forall i :: 0 <= i < |a| ==> a[i].quantity > 0
    ensures LinewiseEqual(Totals(a), lines) <==> TakenAsWanted(a, lines)
  {
    var totals := Totals(a);
    forall x ensures Total(totals, x) == Taken(a, x) && (x in totals ==> totals[x] > 0) { TotalsMeaning(a, x); }
    hide Totals, Taken, Wanted, CanonicalLines, LinewiseEqual, Total;
    if LinewiseEqual(totals, lines) {
      forall x ensures Taken(a, x) == Wanted(lines, x) { CountingSuffices(totals, lines, x); }
    }
    if TakenAsWanted(a, lines) {
      CountingNecessary(totals, lines);
    }
  }

  /** allocationsMatchCommand counts SKUs and compares quantities line by line; for a canonical command that
      is exactly: the same order, and every SKU taken as wanted. */
  lemma MatchMeaning(a: seq<Hold>, cmd: Command)
    requires CanonicalLines(cmd.lines) && forall i :: 0 <= i < |a| ==> a[i].quantity > 0
    ensures Matches(a, cmd) <==>
              a != [] && (forall i :: 0 <= i < |a| ==> a[i].order == cmd.order) && TakenAsWanted(a, cmd.lines)
  {
    LinewiseMeaning(a, cmd.lines);
    hide Totals, TakenAsWanted, CanonicalLines;
  }

  // ---------- the rows of a key ----------

  /** The same rows up to their state. */
  predicate SameRows(a: seq<Hold>, b: seq<Hold>) {
    |a| == |b| && forall i :: 0 <= i < |a| ==> b[i] == a[i].(state := b[i].state)
  }

  lemma {:induction false} ExistingSame(a: seq<Hold>, b: seq<Hold>, key: string)
    requires SameRows(a, b)
    ensures SameRows(Existing(a, key), Existing(b, key))
  {
    if a != [] { ExistingSame(a[..|a| - 1], b[..|b| - 1], key); }
  }

  lemma {:induction false} ExistingAppend(a: seq<Hold>, b: seq<Hold>, key: string)
    requires forall i :: 0 <= i < |b| ==> b[i].key != key
    ensures Existing(a + b, key) == Existing(a, key)
    decreases |b|
  {
    if b == [] {
      assert a + b == a;
    } else {
      ExistingAppend(a, b[..|b| - 1], key);
      assert (a + b)[..|a + b| - 1] == a + b[..|b| - 1];
    }
  }

  lemma {:induction false} ExistingOwn(a: seq<Hold>, b: seq<Hold>, key: string)
    requires Existing(a, key) == [] && forall i :: 0 <= i < |b| ==> b[i].key == key
    ensures Existing(a + b, key) == b
    decreases |b|
  {
    if b == [] {
      assert a + b == a;
    } else {
      ExistingOwn(a, b[..|b| - 1], key);
      assert (a + b)[..|a + b| - 1] == a + b[..|b| - 1];
    }
  }

  lemma {:induction false} ExistingAreRows(a: seq<Hold>, key: string)
    ensures forall h :: h in Existing(a, key) ==> h in a && h.key == key
  {
    if a != [] { ExistingAreRows(a[..|a| - 1], key); }
  }

  lemma {:induction false} TakenSame(a: seq<Hold>, b: seq<Hold>, x: string)
    requires SameRows(a, b)
    ensures Taken(a, x) == Taken(b, x)
  {
    if a != [] { TakenSame(a[..|a| - 1], b[..|b| - 1], x); }
  }

  lemma PositiveRows(opening: map<Cell, int>, s: Stock, key: string)
    requires Consistent(opening, s)
    ensures forall i :: 0 <= i < |Existing(s.holds, key)| ==> Existing(s.holds, key)[i].quantity > 0
  {
    ExistingAreRows(s.holds, key);
    hide Existing;
    forall i | 0 <= i < |Existing(s.holds, key)| ensures Existing(s.holds, key)[i].quantity > 0 {
      assert Existing(s.holds, key)[i] in s.holds;
    }
  }

  /** Once a key has rows, no operation adds or removes any of them, or changes more than their state. */
  lemma KeyStep(opening: map<Cell, int>, s: Stock, locs: seq<Location>, op: Op, key: string)
    requires Consistent(opening, s) && Existing(s.holds, key) != []
    ensures SameRows(Existing(s.holds, key), Existing(Do(s, locs, op).holds, key))
  {
    var s' := Do(s, locs, op);
    match op
    case DoReserve(cmd) =>
      hide Consistent, ReserveLines, Matches;
      if Existing(s.holds, cmd.key) == [] && cmd.order !in s.fences && ReserveLines(s, locs, cmd, cmd.lines, 0).Ok? {
        LinesAdd(s, locs, cmd, cmd.lines, 0);
        FreshReserve(s, locs, cmd);
        ExistingAppend(s.holds, s'.holds[|s.holds|..], key);
      }
    case DoTransition(o, e, now) =>
      TransitionKeeps(opening, s, o, e, now);
      hide Consistent, TransitionOrder, Existing;
      assert SameRows(s.holds, s'.holds);
      ExistingSame(s.holds, s'.holds, key);
  }

  lemma {:induction false} KeyRun(opening: map<Cell, int>, s: Stock, locs: seq<Location>, run: seq<Op>, key: string)
    requires Consistent(opening, s) && Existing(s.holds, key) != []
    ensures SameRows(Existing(s.holds, key), Existing(Exec(s, locs, run).holds, key))
  {
    hide Consistent, Do, Existing;
    if run != [] {
      var prefix := run[..|run| - 1];
      KeyRun(opening, s, locs, prefix, key);
      RunKeeps(opening, s, locs, prefix);
      KeyStep(opening, Exec(s, locs, prefix), locs, run[|run| - 1], key);
    }
  }

  /** A successful first attempt leaves rows that match its command. */
  lemma SuccessMatches(opening: map<Cell, int>, s: Stock, locs: seq<Location>, cmd: Command)
    requires Consistent(opening, s) && DistinctIds(locs) && Named(locs) && Canonical(cmd)
    requires Existing(s.holds, cmd.key) == [] && cmd.order !in s.fences && Reserve(s, locs, cmd).0.Ok?
    ensures var (r, s') := Reserve(s, locs, cmd);
            Existing(s'.holds, cmd.key) == r.value && Matches(r.value, cmd)
  {
    hide Consistent, ReserveLines, Reserve, Matches, Existing, Taken, Wanted, Named, DistinctIds, CanonicalLines, AllShared, Covered;
    ReserveSucceedsIffCovered(opening, s, locs, cmd);
    FreshReserve(s, locs, cmd);
    LinesAdd(s, locs, cmd, cmd.lines, 0);
    var rows := Reserve(s, locs, cmd).0.value;
    ExistingOwn(s.holds, rows, cmd.key);
    MatchMeaning(rows, cmd);
    if rows == [] {
      assert Taken([], cmd.lines[0].sku) == Wanted(cmd.lines, cmd.lines[0].sku);
      SomethingWanted(cmd);
    }
  }

  lemma SomethingWanted(cmd: Command)
    requires Canonical(cmd)
    ensures Taken([], cmd.lines[0].sku) != Wanted(cmd.lines, cmd.lines[0].sku)
  {
    WantedMeaning(cmd.lines, cmd.lines[0].sku);
  }

  /** MAIN THEOREM. Once a command has succeeded, repeating it after anything else has happened, a terminal
      fence included, returns the same allocations (in their current state) and changes nothing. */
  lemma ReplayIsFree(opening: map<Cell, int>, s: Stock, locs: seq<Location>, cmd: Command, run: seq<Op>)
    requires Consistent(opening, s) && Canonical(cmd) && Matches(Existing(s.holds, cmd.key), cmd)
    ensures var s' := Exec(s, locs, run);
            && Reserve(s', locs, cmd) == (Ok(Existing(s'.holds, cmd.key)), s')
            && SameRows(Existing(s.holds, cmd.key), Existing(s'.holds, cmd.key))
  {
    hide Consistent, Existing, Exec, Taken, Wanted, CanonicalLines, ReserveLines;
    var s' := Exec(s, locs, run);
    var a, b := Existing(s.holds, cmd.key), Existing(s'.holds, cmd.key);
    KeyRun(opening, s, locs, run, cmd.key);
    RunKeeps(opening, s, locs, run);
    PositiveRows(opening, s, cmd.key);
    PositiveRows(opening, s', cmd.key);
    MatchMeaning(a, cmd);
    MatchMeaning(b, cmd);
    forall x ensures Taken(b, x) == Wanted(cmd.lines, x) { TakenSame(a, b, x); }
    hide Matches;
  }

  /** Another command under the key, for another order or other quantities, is always refused. */
  lemma OtherCommandConflicts(opening: map<Cell, int>, s: Stock, locs: seq<Location>, cmd: Command, other: Command,
                              x: string)
    requires Consistent(opening, s) && Canonical(cmd) && Canonical(other) && other.key == cmd.key
    requires Matches(Existing(s.holds, cmd.key), cmd)
    requires other.order != cmd.order || Wanted(other.lines, x) != Wanted(cmd.lines, x)
    ensures Reserve(s, locs, other) == (Err(IdempotencyConflict), s)
  {
    hide Consistent, Existing, Taken, Wanted, CanonicalLines, ReserveLines;
    var a := Existing(s.holds, cmd.key);
    PositiveRows(opening, s, cmd.key);
    MatchMeaning(a, cmd);
    MatchMeaning(a, other);
    assert a[0].order == cmd.order;
    hide Matches;
  }
}
