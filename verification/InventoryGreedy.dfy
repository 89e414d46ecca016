/** What a fresh Reserve allocates: exactly when it succeeds and how much it takes at each location. */
module InventoryGreedy {
  import opened Common
  import opened InventoryModel
  import opened InventorySpec
  import opened InventoryLines
  import opened InventoryInvariant

  predicate DistinctIds(locs: seq<Location>) {
    forall i, j :: 0 <= i < j < |locs| ==> locs[i].id != locs[j].id
  }

  /** A command as Service.Reserve passes it on: named, with distinct SKUs and positive quantities. */
  predicate Canonical(cmd: Command) {
    cmd.order != "" && cmd.key != "" && cmd.lines != [] && CanonicalLines(cmd.lines)
  }

  predicate CanonicalLines(lines: seq<Line>) {
    && (forall i :: 0 <= i < |lines| ==> lines[i].sku != "" && lines[i].quantity > 0)
    && DistinctLines(lines)
  }

  predicate Named(locs: seq<Location>) {
    forall i :: 0 <= i < |locs| ==> locs[i].id != ""
  }

  /** Stock a location can give for a SKU. */
  function OpenAt(levels: map<Cell, Level>, loc: Location, sku: string): int {
    var cell := Cell(sku, loc.id);
    if cell in levels && loc.fulfills then levels[cell].onHand - levels[cell].reserved else 0
  }

  function OpenOver(levels: map<Cell, Level>, locs: seq<Location>, sku: string): int {
    if locs == [] then 0 else OpenAt(levels, locs[0], sku) + OpenOver(levels, locs[1..], sku)
  }

  /** What location k must give towards `wanted`: all it has until the locations before it have given enough. */
  function Share(levels: map<Cell, Level>, locs: seq<Location>, sku: string, wanted: int, k: nat): int
    requires k < |locs|
  {
    var open, before := OpenAt(levels, locs[k], sku), OpenOver(levels, locs[..k], sku);
    if wanted <= before then 0 else if wanted - before < open then wanted - before else open
  }

  ghost predicate AllValid(levels: map<Cell, Level>) {
    forall c :: c in levels ==> levels[c].Valid()
  }

  /** The levels of the SKU at these locations moved by their shares, all other levels untouched. */
  ghost predicate Shared(before: map<Cell, Level>, after: map<Cell, Level>, locs: seq<Location>, sku: string,
                         wanted: int) {
    && after.Keys == before.Keys
    && (forall k {:trigger locs[k]} :: 0 <= k < |locs| && Cell(sku, locs[k].id) in before ==>
          var cell := Cell(sku, locs[k].id);
          after[cell] == Level(before[cell].onHand, before[cell].reserved + Share(before, locs, sku, wanted, k)))
    && (forall c :: c in before && (c.sku != sku || forall k :: 0 <= k < |locs| ==> locs[k].id != c.loc) ==>
          after[c] == before[c])
  }

  lemma {:induction false} OpenNonNegative(levels: map<Cell, Level>, locs: seq<Location>, sku: string)
    requires AllValid(levels)
    ensures OpenOver(levels, locs, sku) >= 0
    ensures forall k :: 0 <= k < |locs| ==> OpenAt(levels, locs[k], sku) >= 0
  {
    if locs != [] {
      OpenNonNegative(levels, locs[1..], sku);
      forall k | 0 <= k < |locs| ensures OpenAt(levels, locs[k], sku) >= 0 { }
    }
  }

  lemma {:induction false} OpenSame(a: map<Cell, Level>, b: map<Cell, Level>, locs: seq<Location>, sku: string)
    requires forall k :: 0 <= k < |locs| ==> OpenAt(a, locs[k], sku) == OpenAt(b, locs[k], sku)
    ensures OpenOver(a, locs, sku) == OpenOver(b, locs, sku)
  {
    if locs != [] {
      assert OpenAt(a, locs[0], sku) == OpenAt(b, locs[0], sku);
      forall k | 0 <= k < |locs[1..]| ensures OpenAt(a, locs[1..][k], sku) == OpenAt(b, locs[1..][k], sku) {
        assert locs[1..][k] == locs[k + 1];
      }
      OpenSame(a, b, locs[1..], sku);
    }
  }

  /** The share of a later location, seen from the rest of the list. */
  lemma ShareTail(levels: map<Cell, Level>, locs: seq<Location>, sku: string, wanted: int, k: nat)
    requires 0 < k < |locs|
    ensures OpenOver(levels, locs[..k], sku) == OpenAt(levels, locs[0], sku) + OpenOver(levels, locs[1..][..k - 1], sku)
    ensures Share(levels, locs, sku, wanted, k)
         == Share(levels, locs[1..], sku, wanted - OpenAt(levels, locs[0], sku), k - 1)
  {
    assert locs[..k][1..] == locs[1..][..k - 1];
    assert locs[..k][0] == locs[0];
  }

  /** Taking the first location's share, then sharing the rest over the rest, is sharing the whole. */
  lemma SharedCons(before: map<Cell, Level>, mid: map<Cell, Level>, after: map<Cell, Level>,
                   locs: seq<Location>, sku: string, wanted: int)
    requires locs != [] && DistinctIds(locs) && AllValid(before) && wanted > 0
    requires var cell := Cell(sku, locs[0].id);
             mid == if cell in before
                    then before[cell := Level(before[cell].onHand, before[cell].reserved + Share(before, locs, sku, wanted, 0))]
                    else before
    requires var open := OpenAt(before, locs[0], sku);
             if wanted <= open then after == mid else Shared(mid, after, locs[1..], sku, wanted - open)
    ensures Shared(before, after, locs, sku, wanted)
  {
    var open, rest := OpenAt(before, locs[0], sku), locs[1..];
    hide DistinctIds;
    assert forall i :: 0 < i < |locs| ==> locs[i].id != locs[0].id by { DistinctHead(locs); }
    forall k | 0 <= k < |locs| && Cell(sku, locs[k].id) in before
      ensures var cell := Cell(sku, locs[k].id);
              after[cell] == Level(before[cell].onHand, before[cell].reserved + Share(before, locs, sku, wanted, k))
    {
      if k == 0 {
        if wanted > open { assert forall j :: 0 <= j < |rest| ==> rest[j].id != locs[0].id; }
      } else {
        assert rest[k - 1] == locs[k];
        ShareTail(before, locs, sku, wanted, k);
        OpenNonNegative(before, rest[..k - 1], sku);
        ShareMid(before, mid, locs, sku, wanted - open, k);
      }
    }
    forall c | c in before && (c.sku != sku || forall k :: 0 <= k < |locs| ==> locs[k].id != c.loc)
      ensures after[c] == before[c]
    {
      assert c != Cell(sku, locs[0].id);
      if wanted > open { assert c.sku != sku || forall j :: 0 <= j < |rest| ==> rest[j].id != c.loc; }
    }
  }

  lemma DistinctHead(locs: seq<Location>)
    requires locs != [] && DistinctIds(locs)
    ensures forall i :: 0 < i < |locs| ==> locs[i].id != locs[0].id
    ensures DistinctIds(locs[1..])
  {
  }

  /** Changing the first location's level leaves the later shares alone. */
  lemma ShareMid(before: map<Cell, Level>, mid: map<Cell, Level>, locs: seq<Location>, sku: string, wanted: int, k: nat)
    requires 0 < k < |locs| && forall i :: 0 < i < |locs| ==> locs[i].id != locs[0].id
    requires mid.Keys == before.Keys && forall c :: c in before && c != Cell(sku, locs[0].id) ==> mid[c] == before[c]
    ensures Share(mid, locs[1..], sku, wanted, k - 1) == Share(before, locs[1..], sku, wanted, k - 1)
  {
    var rest := locs[1..];
    forall j | 0 <= j < |rest| ensures OpenAt(mid, rest[j], sku) == OpenAt(before, rest[j], sku) { assert rest[j] == locs[j + 1]; }
    OpenSame(mid, before, rest[..k - 1], sku);
  }

  /** The tables a single allocation leaves. */
  lemma ReserveAtResult(s: Stock, cmd: Command, cell: Cell, quantity: int, index: nat)
    requires cell in s.levels && s.levels[cell].Valid()
    requires cmd.order != "" && cmd.key != "" && cell.sku != "" && cell.loc != ""
    requires 0 < quantity <= s.levels[cell].onHand - s.levels[cell].reserved
    ensures ReserveAt(s, cmd, cell, quantity, index).Ok?
    ensures var s' := ReserveAt(s, cmd, cell, quantity, index).value;
            && s'.levels == s.levels[cell := Level(s.levels[cell].onHand, s.levels[cell].reserved + quantity)]
            && s'.holds == s.holds + [Hold(cmd.order, cmd.key, index, cell, quantity, Active, cmd.expiresAt)]
  {
  }

  /** The quantity the holds take of a SKU. */
  function Taken(holds: seq<Hold>, sku: string): int {
    if holds == [] then 0
    else
      var last := holds[|holds| - 1];
      Taken(holds[..|holds| - 1], sku) + (if last.cell.sku == sku then last.quantity else 0)
  }

  lemma TakenAppend(holds: seq<Hold>, h: Hold, sku: string)
    ensures Taken(holds + [h], sku) == Taken(holds, sku) + (if h.cell.sku == sku then h.quantity else 0)
  {
    assert (holds + [h])[..|holds|] == holds;
  }

  function Min(a: int, b: int): int { if a < b then a else b }

  lemma SharedNothing(levels: map<Cell, Level>, sku: string, wanted: int)
    ensures Shared(levels, levels, [], sku, wanted)
  {
  }

  lemma ShareHead(levels: map<Cell, Level>, locs: seq<Location>, sku: string, wanted: int)
    requires locs != [] && wanted > 0 && AllValid(levels)
    ensures Share(levels, locs, sku, wanted, 0) == Min(wanted, OpenAt(levels, locs[0], sku))
    ensures OpenOver(levels, locs, sku) == OpenAt(levels, locs[0], sku) + OpenOver(levels, locs[1..], sku)
    ensures OpenOver(levels, locs[1..], sku) >= 0 && OpenAt(levels, locs[0], sku) >= 0
  {
    OpenNonNegative(levels, locs, sku);
    OpenNonNegative(levels, locs[1..], sku);
  }

  /** A step of the candidate loop: how the rest is called. */
  lemma DrainStep(s: Stock, locs: seq<Location>, cmd: Command, sku: string, remaining: int, index: nat)
    returns (s1: Stock, made: nat)
    requires locs != [] && AllValid(s.levels) && remaining > 0
    requires cmd.order != "" && cmd.key != "" && sku != "" && locs[0].id != ""
    ensures var open, cell := OpenAt(s.levels, locs[0], sku), Cell(sku, locs[0].id);
            && AllValid(s1.levels) && s1.levels.Keys == s.levels.Keys
            && (open <= 0 ==> s1 == s)
            && (open > 0 ==>
                  cell in s.levels
                  && s1.levels == s.levels[cell := Level(s.levels[cell].onHand, s.levels[cell].reserved + Min(remaining, open))]
                  && s1.holds == s.holds + [Hold(cmd.order, cmd.key, made, cell, Min(remaining, open), Active, cmd.expiresAt)])
            && Drain(s, locs, cmd, sku, remaining, index)
               == if remaining <= open then Ok((s1, 0, made)) else Drain(s1, locs[1..], cmd, sku, remaining - open, made)
  {
    var cell := Cell(sku, locs[0].id);
    var open := OpenAt(s.levels, locs[0], sku);
    if cell in s.levels && locs[0].fulfills && open != 0 {
      ReserveAtResult(s, cmd, cell, Min(remaining, open), index + 1);
      s1, made := ReserveAt(s, cmd, cell, Min(remaining, open), index + 1).value, index + 1;
    } else {
      s1, made := s, index;
    }
  }

  /** The candidate loop in closed form: it takes what is there up to what is wanted, each location giving
      its share, and the new reservations add up to what was taken. */
  lemma {:induction false} DrainMeaning(s: Stock, locs: seq<Location>, cmd: Command, sku: string, remaining: int,
                                        index: nat)
    requires DistinctIds(locs) && Named(locs) && AllValid(s.levels) && remaining > 0
    requires cmd.order != "" && cmd.key != "" && sku != ""
    ensures Drain(s, locs, cmd, sku, remaining, index).Ok?
    ensures var (s', left, _) := Drain(s, locs, cmd, sku, remaining, index).value;
            && left == remaining - Min(remaining, OpenOver(s.levels, locs, sku))
            && Shared(s.levels, s'.levels, locs, sku, remaining)
            && AllValid(s'.levels)
            && (forall x :: Taken(s'.holds, x) == Taken(s.holds, x) + if x == sku then remaining - left else 0)
    decreases |locs|
  {
    hide Shared, Drain, Share, Named, DistinctIds;
    if locs == [] {
      EmptyDrain(s, cmd, sku, remaining, index);
      SharedNothing(s.levels, sku, remaining);
    } else {
      NamedTail(locs);
      var open := OpenAt(s.levels, locs[0], sku);
      var s1, made := DrainStep(s, locs, cmd, sku, remaining, index);
      DistinctHead(locs);
      ShareHead(s.levels, locs, sku, remaining);
      forall x ensures Taken(s1.holds, x) == Taken(s.holds, x) + if x == sku then Min(remaining, open) else 0 {
        if open > 0 { TakenAppend(s.holds, s1.holds[|s.holds|], x); }
      }
      hide Taken, OpenAt, OpenOver;
      if remaining > open {
        RestOpen(s.levels, s1.levels, locs, sku);
        DrainMeaning(s1, locs[1..], cmd, sku, remaining - open, made);
      }
      var s' := Drain(s, locs, cmd, sku, remaining, index).value.0;
      FirstShare(s.levels, s1.levels, locs, sku, remaining);
      SharedCons(s.levels, s1.levels, s'.levels, locs, sku, remaining);
    }
  }

  lemma NamedTail(locs: seq<Location>)
    requires Named(locs) && locs != []
    ensures locs[0].id != "" && Named(locs[1..])
  {
  }

  lemma EmptyDrain(s: Stock, cmd: Command, sku: string, remaining: int, index: nat)
    ensures Drain(s, [], cmd, sku, remaining, index) == Ok((s, remaining, index))
  {
  }

  /** The level update of a step is the head's share, also when the head has nothing to give. */
  lemma FirstShare(before: map<Cell, Level>, mid: map<Cell, Level>, locs: seq<Location>, sku: string, wanted: int)
    requires locs != [] && wanted > 0
    requires var open, cell := OpenAt(before, locs[0], sku), Cell(sku, locs[0].id);
             && 0 <= open && Share(before, locs, sku, wanted, 0) == Min(wanted, open)
             && (open == 0 ==> mid == before)
             && (open > 0 ==>
                   cell in before
                   && mid == before[cell := Level(before[cell].onHand, before[cell].reserved + Min(wanted, open))])
    ensures var cell := Cell(sku, locs[0].id);
            mid == if cell in before
                   then before[cell := Level(before[cell].onHand, before[cell].reserved + Share(before, locs, sku, wanted, 0))]
                   else before
  {
    hide OpenAt, Share;
  }

  lemma RestOpen(before: map<Cell, Level>, mid: map<Cell, Level>, locs: seq<Location>, sku: string)
    requires locs != [] && forall i :: 0 < i < |locs| ==> locs[i].id != locs[0].id
    requires mid.Keys == before.Keys && forall c :: c in before && c != Cell(sku, locs[0].id) ==> mid[c] == before[c]
    ensures OpenOver(mid, locs[1..], sku) == OpenOver(before, locs[1..], sku)
  {
    var rest := locs[1..];
    forall j | 0 <= j < |rest| ensures OpenAt(mid, rest[j], sku) == OpenAt(before, rest[j], sku) { assert rest[j] == locs[j + 1]; }
    OpenSame(mid, before, rest, sku);
  }

  // ---------- all lines of a command ----------

  predicate Covered(levels: map<Cell, Level>, locs: seq<Location>, line: Line) {
    OpenOver(levels, locs, line.sku) >= line.quantity
  }

  /** Why a command is refused: at its first uncovered line. */
  function Refusal(levels: map<Cell, Level>, locs: seq<Location>, lines: seq<Line>): Option<Error> {
    if lines == [] then None
    else if Covered(levels, locs, lines[0]) then Refusal(levels, locs, lines[1..])
    else Some(if HasLevel(levels, locs, lines[0].sku) then InsufficientStock else SkuNotFound)
  }

  function Wanted(lines: seq<Line>, sku: string): int {
    if lines == [] then 0 else (if lines[0].sku == sku then lines[0].quantity else 0) + Wanted(lines[1..], sku)
  }

  /** Every line's SKU shared over the locations; the levels of all other SKUs and places untouched. */
  ghost predicate AllShared(before: map<Cell, Level>, after: map<Cell, Level>, locs: seq<Location>, lines: seq<Line>) {
    && after.Keys == before.Keys
    && (forall i, k :: 0 <= i < |lines| && 0 <= k < |locs| ==> LineShared(before, after, locs, lines[i], k))
    && (forall c :: c in before && (forall i :: 0 <= i < |lines| ==> lines[i].sku != c.sku) ==> after[c] == before[c])
    && (forall c :: c in before && (forall k :: 0 <= k < |locs| ==> locs[k].id != c.loc) ==> after[c] == before[c])
  }

  /** Sharing one SKU leaves what every other SKU has open, and so its shares, alone. */
  lemma OtherSku(before: map<Cell, Level>, mid: map<Cell, Level>, locs: seq<Location>, sku: string, wanted: int,
                 other: string)
    requires Shared(before, mid, locs, sku, wanted) && other != sku
    ensures OpenOver(mid, locs, other) == OpenOver(before, locs, other)
    ensures forall q, k :: 0 <= k < |locs| ==> Share(mid, locs, other, q, k) == Share(before, locs, other, q, k)
    ensures HasLevel(mid, locs, other) == HasLevel(before, locs, other)
  {
    forall j | 0 <= j < |locs| ensures OpenAt(mid, locs[j], other) == OpenAt(before, locs[j], other) { }
    hide Shared;
    assert mid.Keys == before.Keys;
    OpenSame(mid, before, locs, other);
    forall q, k | 0 <= k < |locs| ensures Share(mid, locs, other, q, k) == Share(before, locs, other, q, k) {
      OpenSame(mid, before, locs[..k], other);
    }
  }

  lemma {:induction false} RefusalSame(before: map<Cell, Level>, mid: map<Cell, Level>, locs: seq<Location>,
                                       sku: string, wanted: int, lines: seq<Line>)
    requires Shared(before, mid, locs, sku, wanted) && forall i :: 0 <= i < |lines| ==> lines[i].sku != sku
    ensures Refusal(mid, locs, lines) == Refusal(before, locs, lines)
  {
    hide Shared, OpenOver, HasLevel;
    if lines != [] {
      assert lines[0].sku != sku;
      OtherSku(before, mid, locs, sku, wanted, lines[0].sku);
      RefusalSame(before, mid, locs, sku, wanted, lines[1..]);
    }
  }

  /** A covered line has a level somewhere, since it wants something. */
  lemma {:induction false} CoveredHasLevel(levels: map<Cell, Level>, locs: seq<Location>, sku: string)
    requires OpenOver(levels, locs, sku) > 0
    ensures HasLevel(levels, locs, sku)
  {
    if OpenAt(levels, locs[0], sku) == 0 {
      CoveredHasLevel(levels, locs[1..], sku);
      var k :| 0 <= k < |locs[1..]| && Cell(sku, locs[1..][k].id) in levels;
      assert locs[k + 1] == locs[1..][k];
    } else {
      assert Cell(sku, locs[0].id) in levels;
    }
  }

  /** The level of line i at location k moved by its share. */
  predicate LineShared(before: map<Cell, Level>, after: map<Cell, Level>, locs: seq<Location>, line: Line, k: nat)
    requires k < |locs|
  {
    var cell := Cell(line.sku, locs[k].id);
    cell in before && cell in after ==>
      after[cell] == Level(before[cell].onHand, before[cell].reserved + Share(before, locs, line.sku, line.quantity, k))
  }

  /** The first line's levels are left alone by the other lines. */
  lemma FirstLineShared(before: map<Cell, Level>, mid: map<Cell, Level>, after: map<Cell, Level>,
                        locs: seq<Location>, lines: seq<Line>, k: nat)
    requires lines != [] && CanonicalLines(lines) && k < |locs|
    requires Shared(before, mid, locs, lines[0].sku, lines[0].quantity) && AllShared(mid, after, locs, lines[1..])
    ensures LineShared(before, after, locs, lines[0], k)
  {
    hide Share;
    CanonicalTail(lines);
    var cell := Cell(lines[0].sku, locs[k].id);
    if cell in before { assert after[cell] == mid[cell]; }
  }

  /** The other lines do not notice the first. */
  lemma LaterLineShared(before: map<Cell, Level>, mid: map<Cell, Level>, after: map<Cell, Level>,
                        locs: seq<Location>, lines: seq<Line>, i: nat, k: nat)
    requires 0 < i < |lines| && CanonicalLines(lines) && k < |locs|
    requires Shared(before, mid, locs, lines[0].sku, lines[0].quantity) && AllShared(mid, after, locs, lines[1..])
    ensures LineShared(before, after, locs, lines[i], k)
  {
    hide Share;
    CanonicalTail(lines);
    assert lines[1..][i - 1] == lines[i] && lines[i].sku != lines[0].sku;
    assert LineShared(mid, after, locs, lines[1..][i - 1], k);
    OtherSku(before, mid, locs, lines[0].sku, lines[0].quantity, lines[i].sku);
  }

  lemma AllSharedCons(before: map<Cell, Level>, mid: map<Cell, Level>, after: map<Cell, Level>, locs: seq<Location>,
                      lines: seq<Line>)
    requires lines != [] && CanonicalLines(lines)
    requires Shared(before, mid, locs, lines[0].sku, lines[0].quantity) && AllShared(mid, after, locs, lines[1..])
    ensures AllShared(before, after, locs, lines)
  {
    var rest := lines[1..];
    forall i, k | 0 <= i < |lines| && 0 <= k < |locs| ensures LineShared(before, after, locs, lines[i], k) {
      if i == 0 { FirstLineShared(before, mid, after, locs, lines, k); }
      else { LaterLineShared(before, mid, after, locs, lines, i, k); }
    }
    hide Share, CanonicalLines;
    forall c | c in before && (forall i :: 0 <= i < |lines| ==> lines[i].sku != c.sku) ensures after[c] == before[c] {
      assert c.sku != lines[0].sku;
      forall j | 0 <= j < |rest| ensures rest[j].sku != c.sku { assert rest[j] == lines[j + 1]; }
    }
  }

  lemma CanonicalTail(lines: seq<Line>)
    requires lines != [] && CanonicalLines(lines)
    ensures lines[0].sku != "" && lines[0].quantity > 0 && CanonicalLines(lines[1..])
    ensures forall j :: 0 <= j < |lines[1..]| ==> lines[1..][j].sku != lines[0].sku
  {
  }

  /** One line of the loop over lines. */
  lemma LineStep(s: Stock, locs: seq<Location>, cmd: Command, lines: seq<Line>, index: nat)
    returns (s1: Stock, index': nat)
    requires DistinctIds(locs) && Named(locs) && AllValid(s.levels) && lines != [] && CanonicalLines(lines)
    requires cmd.order != "" && cmd.key != ""
    ensures Covered(s.levels, locs, lines[0]) ==>
              ReserveLines(s, locs, cmd, lines, index) == ReserveLines(s1, locs, cmd, lines[1..], index')
    ensures !Covered(s.levels, locs, lines[0]) ==>
              ReserveLines(s, locs, cmd, lines, index)
              == Err(if HasLevel(s.levels, locs, lines[0].sku) then InsufficientStock else SkuNotFound)
    ensures Shared(s.levels, s1.levels, locs, lines[0].sku, lines[0].quantity) && AllValid(s1.levels)
    ensures Covered(s.levels, locs, lines[0]) ==>
              forall x :: Taken(s1.holds, x) == Taken(s.holds, x) + if x == lines[0].sku then lines[0].quantity else 0
  {
    CanonicalTail(lines);
    hide DistinctIds, Named, CanonicalLines, Drain, Shared, HasLevel, Taken;
    DrainMeaning(s, locs, cmd, lines[0].sku, lines[0].quantity, index);
    if Covered(s.levels, locs, lines[0]) { CoveredHasLevel(s.levels, locs, lines[0].sku); }
    var (t, left, made) := Drain(s, locs, cmd, lines[0].sku, lines[0].quantity, index).value;
    s1, index' := t, made;
  }

  /** All lines, in closed form: refused at the first uncovered line, else every line shared. */
  lemma {:induction false} LinesMeaning(s: Stock, locs: seq<Location>, cmd: Command, lines: seq<Line>, index: nat)
    requires DistinctIds(locs) && Named(locs) && AllValid(s.levels) && CanonicalLines(lines)
    requires cmd.order != "" && cmd.key != ""
    ensures match Refusal(s.levels, locs, lines)
            case Some(e) => ReserveLines(s, locs, cmd, lines, index) == Err(e)
            case None =>
              && ReserveLines(s, locs, cmd, lines, index).Ok?
              && var s' := ReserveLines(s, locs, cmd, lines, index).value;
              && AllShared(s.levels, s'.levels, locs, lines)
              && (forall x :: Taken(s'.holds, x) == Taken(s.holds, x) + Wanted(lines, x))
    decreases |lines|
  {
    if lines == [] {
      NoLines(s, locs, cmd, index);
    } else {
      var s1, index' := LineStep(s, locs, cmd, lines, index);
      CanonicalTail(lines);
      hide DistinctIds, Named, Shared, HasLevel, ReserveLines, AllShared, Taken, AllValid, Covered;
      if Covered(s.levels, locs, lines[0]) {
        RefusalSame(s.levels, s1.levels, locs, lines[0].sku, lines[0].quantity, lines[1..]);
        LinesMeaning(s1, locs, cmd, lines[1..], index');
        if Refusal(s.levels, locs, lines).None? {
          var s' := ReserveLines(s, locs, cmd, lines, index).value;
          AllSharedCons(s.levels, s1.levels, s'.levels, locs, lines);
        }
      }
    }
  }

  lemma NoLines(s: Stock, locs: seq<Location>, cmd: Command, index: nat)
    ensures ReserveLines(s, locs, cmd, [], index) == Ok(s) && AllShared(s.levels, s.levels, locs, [])
  {
  }

  lemma {:induction false} RefusalMeaning(levels: map<Cell, Level>, locs: seq<Location>, lines: seq<Line>)
    ensures Refusal(levels, locs, lines).None? <==> forall i :: 0 <= i < |lines| ==> Covered(levels, locs, lines[i])
    ensures Refusal(levels, locs, lines).Some? ==> Refusal(levels, locs, lines).value in {InsufficientStock, SkuNotFound}
  {
    if lines != [] {
      RefusalMeaning(levels, locs, lines[1..]);
      hide Covered;
      if forall i :: 0 <= i < |lines| ==> Covered(levels, locs, lines[i]) {
        forall i | 0 <= i < |lines[1..]| ensures Covered(levels, locs, lines[1..][i]) { assert lines[1..][i] == lines[i + 1]; }
      } else {
        var i :| 0 <= i < |lines| && !Covered(levels, locs, lines[i]);
        if i > 0 { assert lines[1..][i - 1] == lines[i]; }
      }
    }
  }

  lemma {:induction false} TakenConcat(a: seq<Hold>, b: seq<Hold>, sku: string)
    ensures Taken(a + b, sku) == Taken(a, sku) + Taken(b, sku)
    decreases |b|
  {
    if b == [] {
      assert a + b == a;
    } else {
      TakenConcat(a, b[..|b| - 1], sku);
      assert (a + b)[..|a + b| - 1] == a + b[..|b| - 1];
    }
  }

  lemma ConsistentValid(opening: map<Cell, int>, s: Stock)
    requires Consistent(opening, s)
    ensures AllValid(s.levels)
  {
    forall c | c in s.levels ensures s.levels[c].Valid() { assert CellCounted(opening, s, c); }
  }

  lemma FreshReserve(s: Stock, locs: seq<Location>, cmd: Command)
    requires Existing(s.holds, cmd.key) == [] && cmd.order !in s.fences
    ensures match ReserveLines(s, locs, cmd, cmd.lines, 0)
            case Err(e) => Reserve(s, locs, cmd) == (Err(e), s)
            case Ok(s') => Reserve(s, locs, cmd) == (Ok(s'.holds[|s.holds|..]), s') && s'.holds == s.holds + s'.holds[|s.holds|..]
  {
    hide ReserveLines, Existing;
  }

  lemma CanonicalParts(cmd: Command)
    requires Canonical(cmd)
    ensures CanonicalLines(cmd.lines) && cmd.order != "" && cmd.key != ""
  {
  }

  /** MAIN THEOREM. A canonical command with a fresh key on an unfenced order succeeds exactly when every
      SKU's open stock over the fulfilling locations covers its line. Its allocations then add up to the
      request, SKU by SKU, and every location gives its share: all it has open until the locations before
      it have given enough. A refused command changes nothing and says which kind of shortage came first. */
  lemma ReserveSucceedsIffCovered(opening: map<Cell, int>, s: Stock, locs: seq<Location>, cmd: Command)
    requires Consistent(opening, s) && DistinctIds(locs) && Named(locs) && Canonical(cmd)
    requires Existing(s.holds, cmd.key) == [] && cmd.order !in s.fences
    ensures var (r, s') := Reserve(s, locs, cmd);
            && (r.Ok? <==> forall i :: 0 <= i < |cmd.lines| ==> Covered(s.levels, locs, cmd.lines[i]))
            && (r.Ok? ==> forall x :: Taken(r.value, x) == Wanted(cmd.lines, x))
            && (r.Ok? ==> AllShared(s.levels, s'.levels, locs, cmd.lines) && s'.holds == s.holds + r.value)
            && (r.Err? ==> s' == s && Refusal(s.levels, locs, cmd.lines) == Some(r.error))
  {
    hide *;
    ConsistentValid(opening, s);
    CanonicalParts(cmd);
    LinesMeaning(s, locs, cmd, cmd.lines, 0);
    RefusalMeaning(s.levels, locs, cmd.lines);
    FreshReserve(s, locs, cmd);
    var (r, s') := Reserve(s, locs, cmd);
    if r.Ok? {
      forall x ensures Taken(r.value, x) == Wanted(cmd.lines, x) { TakenConcat(s.holds, r.value, x); }
    }
  }

  lemma {:induction false} RefusalNamesFirst(levels: map<Cell, Level>, locs: seq<Location>, lines: seq<Line>) returns (i: nat)
    requires Refusal(levels, locs, lines).Some?
    ensures i < |lines| && !Covered(levels, locs, lines[i]) && forall j :: 0 <= j < i ==> Covered(levels, locs, lines[j])
    ensures Refusal(levels, locs, lines).value in {SkuNotFound, InsufficientStock}
    ensures Refusal(levels, locs, lines) == Some(SkuNotFound)
       <==> forall k :: 0 <= k < |locs| ==> Cell(lines[i].sku, locs[k].id) !in levels
  {
    i := 0;
    if Covered(levels, locs, lines[0]) {
      var rest := RefusalNamesFirst(levels, locs, lines[1..]);
      i := rest + 1;
    }
    hide Covered;
  }

  /** A refused command names its first uncovered line: a SKU stocked nowhere, whether a location fulfills or not, is
      unknown, any other is short. */
  lemma RefusedAtFirstShortage(opening: map<Cell, int>, s: Stock, locs: seq<Location>, cmd: Command) returns (i: nat)
    requires Consistent(opening, s) && DistinctIds(locs) && Named(locs) && Canonical(cmd)
    requires Existing(s.holds, cmd.key) == [] && cmd.order !in s.fences && Reserve(s, locs, cmd).0.Err?
    ensures i < |cmd.lines| && !Covered(s.levels, locs, cmd.lines[i])
    ensures forall j :: 0 <= j < i ==> Covered(s.levels, locs, cmd.lines[j])
    ensures Reserve(s, locs, cmd)
         == (Err(if exists k :: 0 <= k < |locs| && Cell(cmd.lines[i].sku, locs[k].id) in s.levels
                 then InsufficientStock else SkuNotFound), s)
  {
    hide *;
    ReserveSucceedsIffCovered(opening, s, locs, cmd);
    i := RefusalNamesFirst(s.levels, locs, cmd.lines);
  }

  /** So locations drain in order: one that gave anything had every fulfilling location before it emptied. */
  lemma PriorityOrder(levels: map<Cell, Level>, locs: seq<Location>, sku: string, wanted: int, j: nat, k: nat)
    requires j < k < |locs| && AllValid(levels) && Share(levels, locs, sku, wanted, k) > 0
    ensures Share(levels, locs, sku, wanted, j) == OpenAt(levels, locs[j], sku)
  {
    OpenPrefix(levels, locs[..k], sku, j);
    assert locs[..k][..j] == locs[..j] && locs[..k][j] == locs[j];
  }

  lemma {:induction false} OpenPrefix(levels: map<Cell, Level>, locs: seq<Location>, sku: string, j: nat)
    requires j < |locs| && AllValid(levels)
    ensures OpenOver(levels, locs[..j], sku) + OpenAt(levels, locs[j], sku) <= OpenOver(levels, locs, sku)
  {
    if j == 0 {
      OpenNonNegative(levels, locs[1..], sku);
    } else {
      OpenPrefix(levels, locs[1..], sku, j - 1);
      assert locs[..j][1..] == locs[1..][..j - 1];
    }
  }
}
