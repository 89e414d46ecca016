/** What checkout makes of the inventory service's answer (templates/commerce/internal/order/service.go). The
    allocator may draw one SKU from several locations; checkout then refuses the reservation. */
module CheckoutReservation {
  import opened Common
  import opened Text
  import opened InventoryModel
  import opened InventorySpec
  import opened InventoryInvariant
  import opened InventoryLines
  import opened InventoryGreedy
  import opened InventoryCommand

  /** An allocation as the order service decodes it. */
  datatype Allocation = Allocation(id: string, sku: string, quantity: int, active: bool)

  /** The quantities by SKU; a SKU listed twice counts with its last line. */
  function Expected(lines: seq<Line>): map<string, int> {
    if lines == [] then map[]
    else Expected(lines[..|lines| - 1])[lines[|lines| - 1].sku := lines[|lines| - 1].quantity]
  }

  predicate DistinctSkus(allocations: seq<Allocation>) {
    forall i, j :: 0 <= i < j < |allocations| ==> allocations[i].sku != allocations[j].sku
  }

  /** The answer is for this order and has one active allocation for each line, of the line's quantity. */
  predicate Accepted(order: string, lines: seq<Line>, answered: string, allocations: seq<Allocation>) {
    && answered == order && |allocations| == |lines|
    && (forall i :: 0 <= i < |allocations| ==>
          var a := allocations[i];
          a.id != "" && a.active && Total(Expected(lines), a.sku) == a.quantity)
    && DistinctSkus(allocations)
  }

  method ValidateReservationResult(order: string, lines: seq<Line>, answered: string,
                                   allocations: seq<Allocation>) returns (ok: bool)
    ensures ok <==> Accepted(order, lines, answered, allocations)
  {
    if answered != order || |allocations| != |lines| { return false; }
    var expected: map<string, int> := map[];
    for i := 0 to |lines|
      invariant expected == Expected(lines[..i])
    {
      assert lines[..i + 1][..i] == lines[..i];
      expected := expected[lines[i].sku := lines[i].quantity];
    }
    assert lines[..|lines|] == lines;
    var seen: set<string> := {};
    for i := 0 to |allocations|
      invariant forall x :: x in seen <==> exists j :: 0 <= j < i && allocations[j].sku == x
      invariant forall j :: 0 <= j < i ==>
                  var a := allocations[j];
                  a.id != "" && a.active && Total(expected, a.sku) == a.quantity
      invariant forall j, k :: 0 <= j < k < i ==> allocations[j].sku != allocations[k].sku
    {
      var a := allocations[i];
      if a.id == "" || !a.active || a.sku in seen || Total(expected, a.sku) != a.quantity { return false; }
      seen := seen + {a.sku};
    }
    return true;
  }

  // ---------- one location for a line ----------

  /** One location's share is the whole line. */
  predicate FromOnePlace(levels: map<Cell, Level>, locs: seq<Location>, line: Line) {
    exists k :: 0 <= k < |locs| && Share(levels, locs, line.sku, line.quantity, k) == line.quantity
  }

  lemma ShareBound(levels: map<Cell, Level>, locs: seq<Location>, sku: string, wanted: int, k: nat)
    requires k < |locs| && AllValid(levels) && wanted > 0
    ensures Share(levels, locs, sku, wanted, k) <= wanted
  {
    OpenNonNegative(levels, locs[..k], sku);
  }

  /** That is the first location with any stock, when it has enough. */
  lemma OnePlaceMeaning(levels: map<Cell, Level>, locs: seq<Location>, line: Line)
    requires AllValid(levels) && line.quantity > 0
    ensures FromOnePlace(levels, locs, line) <==>
              exists k :: 0 <= k < |locs| && OpenOver(levels, locs[..k], line.sku) == 0 && OpenAt(levels, locs[k], line.sku) >= line.quantity
  {
    forall k | 0 <= k < |locs|
      ensures Share(levels, locs, line.sku, line.quantity, k) == line.quantity
         <==> OpenOver(levels, locs[..k], line.sku) == 0 && OpenAt(levels, locs[k], line.sku) >= line.quantity
    {
      OpenNonNegative(levels, locs[..k], line.sku);
    }
    hide Share, OpenOver, OpenAt;
  }

  /** A line is drawn whole from the rest of the list when the first location has nothing, whole from the first
      when that has enough, and in pieces otherwise. */
  lemma OnePlaceStep(levels: map<Cell, Level>, locs: seq<Location>, line: Line)
    requires locs != [] && AllValid(levels) && line.quantity > 0
    ensures var open := OpenAt(levels, locs[0], line.sku);
            && 0 <= open
            && (open == 0 ==> (FromOnePlace(levels, locs, line) <==> FromOnePlace(levels, locs[1..], line)))
            && (open >= line.quantity ==> FromOnePlace(levels, locs, line))
            && (0 < open < line.quantity ==> !FromOnePlace(levels, locs, line))
  {
    var sku, wanted := line.sku, line.quantity;
    var open := OpenAt(levels, locs[0], sku);
    ShareHead(levels, locs, sku, wanted);
    forall k | 0 < k < |locs|
      ensures Share(levels, locs, sku, wanted, k) == Share(levels, locs[1..], sku, wanted - open, k - 1)
      ensures open < wanted ==> Share(levels, locs, sku, wanted, k) <= wanted - open
    {
      ShareTail(levels, locs, sku, wanted, k);
      if open < wanted { ShareBound(levels, locs[1..], sku, wanted - open, k - 1); }
    }
    hide Share, OpenAt, OpenOver, AllValid;
    if open == 0 && FromOnePlace(levels, locs[1..], line) {
      var j :| 0 <= j < |locs[1..]| && Share(levels, locs[1..], sku, wanted, j) == wanted;
      assert Share(levels, locs, sku, wanted, j + 1) == wanted;
    }
    if open >= wanted { assert Share(levels, locs, sku, wanted, 0) == wanted; }
  }

  /** The reservations one command makes are active, named and positive. */
  predicate Pieces(holds: seq<Hold>, sku: string) {
    forall i :: 0 <= i < |holds| ==> holds[i].cell.sku == sku && holds[i].state.Active? && holds[i].quantity > 0
  }

  /** A covered line is drawn in at least one piece, and in exactly one, of the whole quantity, when one location
      gives it all. */
  lemma {:induction false} DrainPieces(s: Stock, locs: seq<Location>, cmd: Command, line: Line, index: nat)
    requires DistinctIds(locs) && Named(locs) && AllValid(s.levels) && line.quantity > 0
    requires cmd.order != "" && cmd.key != "" && line.sku != "" && Covered(s.levels, locs, line)
    ensures Drain(s, locs, cmd, line.sku, line.quantity, index).Ok?
    ensures var holds := Drain(s, locs, cmd, line.sku, line.quantity, index).value.0.holds;
            && s.holds <= holds && Pieces(holds[|s.holds|..], line.sku)
            && |holds| >= |s.holds| + 1
            && (|holds| == |s.holds| + 1 <==> FromOnePlace(s.levels, locs, line))
            && (|holds| == |s.holds| + 1 ==> holds[|s.holds|].quantity == line.quantity)
    decreases |locs|
  {
    hide Drain, Share, Named, DistinctIds, FromOnePlace, AllValid;
    assert locs != [];
    var open := OpenAt(s.levels, locs[0], line.sku);
    NamedTail(locs);
    var s1, made := DrainStep(s, locs, cmd, line.sku, line.quantity, index);
    DistinctHead(locs);
    ShareHead(s.levels, locs, line.sku, line.quantity);
    OnePlaceStep(s.levels, locs, line);
    hide OpenAt, OpenOver;
    if line.quantity > open {
      RestOpen(s.levels, s1.levels, locs, line.sku);
      var rest := Line(line.sku, line.quantity - open);
      DrainPieces(s1, locs[1..], cmd, rest, made);
    }
  }

  /** The same location gives it all whatever happened at other SKUs. */
  lemma OnePlaceElsewhere(before: map<Cell, Level>, mid: map<Cell, Level>, locs: seq<Location>, sku: string,
                          wanted: int, line: Line)
    requires Shared(before, mid, locs, sku, wanted) && line.sku != sku
    ensures FromOnePlace(mid, locs, line) <==> FromOnePlace(before, locs, line)
    ensures Covered(mid, locs, line) <==> Covered(before, locs, line)
  {
    OtherSku(before, mid, locs, sku, wanted, line.sku);
  }

  /** New reservations, line by line, one piece each. */
  predicate OnePieceEach(holds: seq<Hold>, lines: seq<Line>) {
    && |holds| == |lines|
    && forall i :: 0 <= i < |lines| ==>
         holds[i].cell.sku == lines[i].sku && holds[i].quantity == lines[i].quantity && holds[i].state.Active?
  }

  /** All lines: at least one piece each, and as many pieces as lines exactly when no line is split. */
  lemma {:induction false} LinesPieces(s: Stock, locs: seq<Location>, cmd: Command, lines: seq<Line>, index: nat)
    requires DistinctIds(locs) && Named(locs) && AllValid(s.levels) && CanonicalLines(lines)
    requires cmd.order != "" && cmd.key != ""
    requires forall i :: 0 <= i < |lines| ==> Covered(s.levels, locs, lines[i])
    ensures ReserveLines(s, locs, cmd, lines, index).Ok?
    ensures var holds := ReserveLines(s, locs, cmd, lines, index).value.holds;
            && |holds| >= |s.holds| + |lines|
            && (forall i :: |s.holds| <= i < |holds| ==> holds[i].quantity > 0)
            && (|holds| == |s.holds| + |lines| <==> forall i :: 0 <= i < |lines| ==> FromOnePlace(s.levels, locs, lines[i]))
            && (|holds| == |s.holds| + |lines| ==> OnePieceEach(holds[|s.holds|..], lines))
    decreases |lines|
  {
    hide ReserveLines;
    if lines == [] {
      NoLines(s, locs, cmd, index);
    } else {
      CanonicalTail(lines);
      var line, rest := lines[0], lines[1..];
      hide DistinctIds, Named, CanonicalLines, AllValid, Shared, Drain, Covered, FromOnePlace, Share, OpenOver;
      DrainMeaning(s, locs, cmd, line.sku, line.quantity, index);
      DrainPieces(s, locs, cmd, line, index);
      var (s1, left, index') := Drain(s, locs, cmd, line.sku, line.quantity, index).value;
      FirstLineTaken(s, locs, cmd, lines, index);
      forall i | 0 <= i < |rest|
        ensures Covered(s1.levels, locs, rest[i])
        ensures FromOnePlace(s1.levels, locs, rest[i]) <==> FromOnePlace(s.levels, locs, lines[i + 1])
      {
        assert rest[i] == lines[i + 1];
        OnePlaceElsewhere(s.levels, s1.levels, locs, line.sku, line.quantity, rest[i]);
      }
      LinesPieces(s1, locs, cmd, rest, index');
      var holds := ReserveLines(s, locs, cmd, lines, index).value.holds;
      forall i | |s.holds| <= i < |holds| ensures holds[i].quantity > 0 {
        if i < |s1.holds| { assert holds[i] == s1.holds[|s.holds|..][i - |s.holds|]; }
      }
      if |holds| == |s.holds| + |lines| {
        assert holds[|s1.holds|..] == holds[|s.holds|..][1..];
      }
    }
  }

  lemma FirstLineTaken(s: Stock, locs: seq<Location>, cmd: Command, lines: seq<Line>, index: nat)
    requires lines != [] && lines[0].quantity > 0 && Covered(s.levels, locs, lines[0])
    requires Drain(s, locs, cmd, lines[0].sku, lines[0].quantity, index).Ok?
    requires Drain(s, locs, cmd, lines[0].sku, lines[0].quantity, index).value.1 == 0
    ensures var (s1, _, index') := Drain(s, locs, cmd, lines[0].sku, lines[0].quantity, index).value;
            ReserveLines(s, locs, cmd, lines, index) == ReserveLines(s1, locs, cmd, lines[1..], index')
  {
    CoveredHasLevel(s.levels, locs, lines[0].sku);
  }

  // ---------- the answer ----------

  /** The wire form of a reservation; `name` stands for the reservation's id. */
  function Answered(holds: seq<Hold>, name: Hold -> string): (r: seq<Allocation>)
    ensures |r| == |holds|
  {
    seq(|holds|, i requires 0 <= i < |holds| =>
      Allocation(name(holds[i]), holds[i].cell.sku, holds[i].quantity, holds[i].state.Active?))
  }

  lemma {:induction false} ExpectedOf(lines: seq<Line>, i: nat)
    requires DistinctLines(lines) && i < |lines|
    ensures Total(Expected(lines), lines[i].sku) == lines[i].quantity
  {
    var n := |lines| - 1;
    if i < n { ExpectedOf(lines[..n], i); }
  }

  lemma OnePieceAccepted(order: string, lines: seq<Line>, holds: seq<Hold>, name: Hold -> string)
    requires CanonicalLines(lines) && OnePieceEach(holds, lines) && forall h :: name(h) != ""
    ensures Accepted(order, lines, order, Answered(holds, name))
  {
    forall i | 0 <= i < |lines| ensures Total(Expected(lines), holds[i].cell.sku) == holds[i].quantity {
      ExpectedOf(lines, i);
    }
  }

  // ---------- the lines as checkout sent them ----------

  lemma {:induction false} WantedSkus(lines: seq<Line>, x: string)
    requires PositiveLines(lines)
    ensures Wanted(lines, x) >= 0
    ensures Wanted(lines, x) > 0 <==> x in Skus(lines)
  {
    if lines != [] {
      WantedSkus(lines[1..], x);
      if x in Skus(lines[1..]) {
        var i :| 0 <= i < |lines[1..]| && lines[1..][i].sku == x;
        assert lines[i + 1].sku == x;
      }
      if x in Skus(lines) && x != lines[0].sku {
        var i :| 0 <= i < |lines| && lines[i].sku == x;
        assert lines[1..][i - 1].sku == x;
      }
    }
  }

  lemma {:induction false} ExpectedSkus(lines: seq<Line>)
    ensures Expected(lines).Keys == Skus(lines)
  {
    if lines != [] {
      SkusSnoc(lines);
      ExpectedSkus(lines[..|lines| - 1]);
      hide Skus;
    }
  }

  lemma {:induction false} ExpectedIsWanted(lines: seq<Line>, x: string)
    requires DistinctLines(lines) && PositiveLines(lines)
    ensures Total(Expected(lines), x) == Wanted(lines, x)
  {
    if lines != [] {
      var n := |lines| - 1;
      SkusSnoc(lines);
      ExpectedIsWanted(lines[..n], x);
      assert lines == lines[..n] + [lines[n]];
      WantedSnoc(lines[..n], lines[n], x);
      WantedSkus(lines[..n], x);
      hide Skus, Wanted;
    }
  }

  /** An accepted answer names every SKU sent, so none was sent twice. */
  lemma AcceptedNamesAll(order: string, sent: seq<Line>, allocations: seq<Allocation>)
    requires Accepted(order, sent, order, allocations)
    requires forall i :: 0 <= i < |allocations| ==> allocations[i].quantity > 0
    ensures DistinctLines(sent)
    ensures forall x :: x in Skus(sent) ==> exists j :: 0 <= j < |allocations| && allocations[j].sku == x
  {
    ExpectedSkus(sent);
    var named := seq(|allocations|, i requires 0 <= i < |allocations| => Line(allocations[i].sku, allocations[i].quantity));
    SkuCount(named);
    SkuCount(sent);
    forall x | x in Skus(named) ensures x in Skus(sent) {
      var i :| 0 <= i < |named| && named[i].sku == x;
      assert Total(Expected(sent), allocations[i].sku) == allocations[i].quantity;
    }
    SubsetSize(Skus(named), Skus(sent));
    forall x | x in Skus(sent) ensures exists j :: 0 <= j < |allocations| && allocations[j].sku == x {
      assert x in Skus(named);
      var i :| 0 <= i < |named| && named[i].sku == x;
      assert allocations[i].sku == x;
    }
  }

  /** What an answer allocates, as lines. */
  function AsLines(allocations: seq<Allocation>): (r: seq<Line>)
    ensures |r| == |allocations| && forall i :: 0 <= i < |r| ==> r[i] == Line(allocations[i].sku, allocations[i].quantity)
  {
    seq(|allocations|, i requires 0 <= i < |allocations| => Line(allocations[i].sku, allocations[i].quantity))
  }

  /** As many allocations as lines, one of them for each. */
  predicate OneForEach(lines: seq<Line>, allocations: seq<Allocation>) {
    |allocations| == |lines| && forall line :: line in lines ==> line in AsLines(allocations)
  }

  lemma SkuOf(lines: seq<Line>, i: nat)
    requires i < |lines|
    ensures lines[i].sku in Skus(lines)
  {
  }

  lemma LineOf(lines: seq<Line>, x: string) returns (i: nat)
    requires x in Skus(lines)
    ensures i < |lines| && lines[i].sku == x
  {
    i :| 0 <= i < |lines| && lines[i].sku == x;
  }

  lemma OnlyLine(lines: seq<Line>, i: nat, j: nat)
    requires DistinctLines(lines) && i < |lines| && j < |lines| && lines[i].sku == lines[j].sku
    ensures i == j
  {
  }

  /** As many lines, and all the lines of a list without repeats: the same lines, none of them twice. */
  lemma SameLines(a: seq<Line>, b: seq<Line>)
    requires DistinctLines(a) && |a| == |b| && forall line :: line in a ==> line in b
    ensures DistinctLines(b) && forall j :: 0 <= j < |b| ==> b[j] in a
  {
    hide *;
    SkuCount(a);
    SkuCount(b);
    forall x | x in Skus(a) ensures x in Skus(b) {
      var i := LineOf(a, x);
      assert a[i] in a;
      var j :| 0 <= j < |b| && b[j] == a[i];
      SkuOf(b, j);
    }
    SubsetSize(Skus(a), Skus(b));
    forall j | 0 <= j < |b| ensures b[j] in a {
      SkuOf(b, j);
      var i := LineOf(a, b[j].sku);
      assert a[i] in a;
      var k :| 0 <= k < |b| && b[k] == a[i];
      OnlyLine(b, k, j);
    }
  }

  /** What is checked when no SKU is sent twice: the answer is about this order, every allocation is active and has
      an id, and each line has its own allocation. */
  lemma AcceptedMeaning(order: string, lines: seq<Line>, answered: string, allocations: seq<Allocation>)
    requires DistinctLines(lines) && forall i :: 0 <= i < |allocations| ==> allocations[i].quantity > 0
    ensures Accepted(order, lines, answered, allocations)
       <==> answered == order && (forall i :: 0 <= i < |allocations| ==> allocations[i].id != "" && allocations[i].active)
            && OneForEach(lines, allocations)
  {
    if Accepted(order, lines, answered, allocations) { AcceptedIsOneForEach(order, lines, allocations); }
    if OneForEach(lines, allocations) { OneForEachIsExpected(lines, allocations); }
    hide OneForEach, Expected;
  }

  lemma AcceptedIsOneForEach(order: string, lines: seq<Line>, allocations: seq<Allocation>)
    requires DistinctLines(lines) && Accepted(order, lines, order, allocations)
    requires forall i :: 0 <= i < |allocations| ==> allocations[i].quantity > 0
    ensures OneForEach(lines, allocations)
  {
    AcceptedNamesAll(order, lines, allocations);
    forall i | 0 <= i < |lines| ensures lines[i] in AsLines(allocations) {
      SkuOf(lines, i);
      var j :| 0 <= j < |allocations| && allocations[j].sku == lines[i].sku;
      ExpectedOf(lines, i);
      assert AsLines(allocations)[j] == lines[i];
    }
    hide Skus, Expected;
  }

  lemma OneForEachIsExpected(lines: seq<Line>, allocations: seq<Allocation>)
    requires DistinctLines(lines) && OneForEach(lines, allocations)
    ensures DistinctSkus(allocations)
    ensures forall j :: 0 <= j < |allocations| ==> Total(Expected(lines), allocations[j].sku) == allocations[j].quantity
  {
    var named := AsLines(allocations);
    SameLines(lines, named);
    forall j, k | 0 <= j < k < |allocations| ensures allocations[j].sku != allocations[k].sku {
      assert named[j].sku != named[k].sku;
    }
    hide Expected, Total;
    forall j | 0 <= j < |allocations| ensures Total(Expected(lines), allocations[j].sku) == allocations[j].quantity {
      assert named[j] in lines;
      var i :| 0 <= i < |lines| && lines[i] == named[j];
      ExpectedOf(lines, i);
    }
  }

  /** Lists without repeats that want the same expect the same. */
  lemma SameWantsAccept(order: string, a: seq<Line>, b: seq<Line>, allocations: seq<Allocation>)
    requires PositiveLines(a) && PositiveLines(b) && DistinctLines(a) && DistinctLines(b)
    requires forall x :: Wanted(a, x) == Wanted(b, x)
    ensures Accepted(order, a, order, allocations) <==> Accepted(order, b, order, allocations)
  {
    SkuCount(a);
    SkuCount(b);
    forall x ensures x in Skus(a) <==> x in Skus(b) { WantedSkus(a, x); WantedSkus(b, x); }
    assert Skus(a) == Skus(b);
    forall x ensures Total(Expected(a), x) == Total(Expected(b), x) {
      ExpectedIsWanted(a, x);
      ExpectedIsWanted(b, x);
    }
  }

  /** Lines whose SKUs are trimmed already. */
  predicate AsTrimmed(lines: seq<Line>) {
    TrimLines(lines) == lines
  }

  lemma TrimmedSkus(sent: seq<Line>, merged: seq<Line>)
    requires PositiveLines(sent) && PositiveLines(merged) && forall x :: Wanted(TrimLines(sent), x) == Wanted(merged, x)
    ensures forall x :: x in Skus(merged) ==> Trim(x) == x
  {
    forall x | x in Skus(merged) ensures Trim(x) == x {
      WantedSkus(merged, x);
      assert Wanted(TrimLines(sent), x) == Wanted(merged, x);
      WantedSkus(TrimLines(sent), x);
      var i :| 0 <= i < |TrimLines(sent)| && TrimLines(sent)[i].sku == x;
    }
  }

  /** Checking against the lines sent is checking against the merged ones when every SKU was sent once and
      without spaces around it; otherwise every answer about the merged lines is refused. */
  lemma SentAndMerged(order: string, sent: seq<Line>, merged: seq<Line>, allocations: seq<Allocation>)
    requires PositiveLines(sent) && PositiveLines(merged) && DistinctLines(merged)
    requires forall x :: Wanted(TrimLines(sent), x) == Wanted(merged, x)
    requires forall i :: 0 <= i < |allocations| ==> allocations[i].quantity > 0 && allocations[i].sku in Skus(merged)
    ensures Accepted(order, sent, order, allocations)
       <==> AsTrimmed(sent) && DistinctLines(sent) && Accepted(order, merged, order, allocations)
  {
    TrimmedSkus(sent, merged);
    if Accepted(order, sent, order, allocations) {
      AcceptedNamesAll(order, sent, allocations);
      hide Accepted, Trim;
      forall i | 0 <= i < |sent| ensures Trim(sent[i].sku) == sent[i].sku {
        assert sent[i].sku in Skus(sent);
        var j :| 0 <= j < |allocations| && allocations[j].sku == sent[i].sku;
      }
    }
    hide Accepted, Trim, Skus;
    if AsTrimmed(sent) && DistinctLines(sent) { SameWantsAccept(order, sent, merged, allocations); }
  }

  /** Whatever is reserved is of a SKU that was wanted. */
  lemma {:induction false} TakenOf(holds: seq<Hold>, i: nat)
    requires i < |holds| && forall k :: 0 <= k < |holds| ==> holds[k].quantity > 0
    ensures Taken(holds, holds[i].cell.sku) > 0
    decreases |holds|
  {
    var n := |holds| - 1;
    TakenNonNegative(holds[..n], holds[i].cell.sku);
    if i < n { TakenOf(holds[..n], i); }
  }

  lemma {:induction false} TakenNonNegative(holds: seq<Hold>, sku: string)
    requires forall k :: 0 <= k < |holds| ==> holds[k].quantity > 0
    ensures Taken(holds, sku) >= 0
  {
    if holds != [] { TakenNonNegative(holds[..|holds| - 1], sku); }
  }

  /** MAIN THEOREM. A reservation the inventory service grants is accepted by checkout if and only if every SKU
      was sent once, without spaces around it, and every line was drawn whole from one location. A line that only
      several locations together cover is reserved and then refused. `cmd` is what Prepare makes of the lines
      sent. */
  lemma GrantedIsAcceptedIffUnsplit(opening: map<Cell, int>, s: Stock, locs: seq<Location>, cmd: Command,
                                    sent: seq<Line>, name: Hold -> string)
    requires Consistent(opening, s) && DistinctIds(locs) && Named(locs) && Canonical(cmd)
    requires Existing(s.holds, cmd.key) == [] && cmd.order !in s.fences && Reserve(s, locs, cmd).0.Ok?
    requires PositiveLines(sent) && forall x :: Wanted(TrimLines(sent), x) == Wanted(cmd.lines, x)
    requires forall h :: name(h) != ""
    ensures Accepted(cmd.order, sent, cmd.order, Answered(Reserve(s, locs, cmd).0.value, name))
       <==> AsTrimmed(sent) && DistinctLines(sent)
            && forall i :: 0 <= i < |cmd.lines| ==> FromOnePlace(s.levels, locs, cmd.lines[i])
  {
    hide *;
    ConsistentValid(opening, s);
    CanonicalParts(cmd);
    CanonicalPositive(cmd.lines);
    ReserveSucceedsIffCovered(opening, s, locs, cmd);
    LinesPieces(s, locs, cmd, cmd.lines, 0);
    FreshReserve(s, locs, cmd);
    var holds := Reserve(s, locs, cmd).0.value;
    AnsweredLines(holds, cmd.lines, name);
    SentAndMerged(cmd.order, sent, cmd.lines, Answered(holds, name));
    if |holds| == |cmd.lines| {
      OnePieceAccepted(cmd.order, cmd.lines, holds, name);
    } else {
      WrongCount(cmd.order, cmd.lines, Answered(holds, name));
    }
  }

  lemma CanonicalPositive(lines: seq<Line>)
    requires CanonicalLines(lines)
    ensures PositiveLines(lines) && DistinctLines(lines)
  {
  }

  /** What an answer says when its reservations add up to the lines. */
  lemma AnsweredLines(holds: seq<Hold>, lines: seq<Line>, name: Hold -> string)
    requires PositiveLines(lines) && forall i :: 0 <= i < |holds| ==> holds[i].quantity > 0
    requires forall x :: Taken(holds, x) == Wanted(lines, x)
    ensures forall i :: 0 <= i < |Answered(holds, name)| ==>
              Answered(holds, name)[i].quantity > 0 && Answered(holds, name)[i].sku in Skus(lines)
  {
    forall i | 0 <= i < |holds| ensures holds[i].cell.sku in Skus(lines) {
      TakenOf(holds, i);
      assert Taken(holds, holds[i].cell.sku) == Wanted(lines, holds[i].cell.sku);
      WantedSkus(lines, holds[i].cell.sku);
    }
    hide Taken, Wanted, Skus;
  }

  lemma WrongCount(order: string, lines: seq<Line>, allocations: seq<Allocation>)
    requires |allocations| != |lines|
    ensures !Accepted(order, lines, order, allocations)
  {
  }

  // ---------- the failing case ----------

  /** Two locations with some of a SKU each, and one line that wants all of it. */
  function SplitStock(sku: string, a: string, b: string, left: int, right: int): Stock {
    Stock(map[Cell(sku, a) := Level(left, 0), Cell(sku, b) := Level(right, 0)], [], [], map[])
  }

  function SplitCommand(order: string, key: string, sku: string, quantity: int, expiresAt: int): Command {
    Command(order, key, [Line(sku, quantity)], expiresAt)
  }

  /** It is granted, and refused by checkout. */
  lemma SplitLineIsRefused(order: string, key: string, sku: string, a: string, b: string, left: int, right: int,
                           expiresAt: int, name: Hold -> string)
    requires order != "" && key != "" && sku != "" && Trim(sku) == sku && a != "" && b != "" && a != b
    requires 0 < left && 0 < right && forall h :: name(h) != ""
    ensures var s := SplitStock(sku, a, b, left, right);
            var locs := [Location(a, true), Location(b, true)];
            var cmd := SplitCommand(order, key, sku, left + right, expiresAt);
            Reserve(s, locs, cmd).0.Ok?
            && !Accepted(order, cmd.lines, order, Answered(Reserve(s, locs, cmd).0.value, name))
  {
    var s := SplitStock(sku, a, b, left, right);
    var locs := [Location(a, true), Location(b, true)];
    var cmd := SplitCommand(order, key, sku, left + right, expiresAt);
    var opening := SplitConsistent(sku, a, b, left, right);
    SplitShares(sku, a, b, left, right);
    SplitIsCanonical(order, key, sku, left + right, expiresAt);
    assert Existing(s.holds, key) == [];
    hide Reserve, Consistent, Accepted, Covered, FromOnePlace, Canonical, Trim, Existing;
    ReserveSucceedsIffCovered(opening, s, locs, cmd);
    assert TrimLines(cmd.lines) == cmd.lines;
    GrantedIsAcceptedIffUnsplit(opening, s, locs, cmd, cmd.lines, name);
    assert !FromOnePlace(s.levels, locs, cmd.lines[0]);
  }

  lemma SplitIsCanonical(order: string, key: string, sku: string, quantity: int, expiresAt: int)
    requires order != "" && key != "" && sku != "" && quantity > 0
    ensures Canonical(SplitCommand(order, key, sku, quantity, expiresAt))
  {
  }

  lemma SplitConsistent(sku: string, a: string, b: string, left: int, right: int) returns (opening: map<Cell, int>)
    requires a != b && 0 < left && 0 < right
    ensures Consistent(opening, SplitStock(sku, a, b, left, right))
  {
    opening := map[Cell(sku, a) := left, Cell(sku, b) := right];
  }

  lemma SplitShares(sku: string, a: string, b: string, left: int, right: int)
    requires a != b && 0 < left && 0 < right
    ensures var s, locs := SplitStock(sku, a, b, left, right), [Location(a, true), Location(b, true)];
            Covered(s.levels, locs, Line(sku, left + right)) && !FromOnePlace(s.levels, locs, Line(sku, left + right))
  {
    var s, locs := SplitStock(sku, a, b, left, right), [Location(a, true), Location(b, true)];
    assert locs[..0] == [] && locs[..1] == [locs[0]] && locs[1..] == [locs[1]] && locs[..1][1..] == [] && locs[1..][1..] == [];
    assert OpenAt(s.levels, locs[0], sku) == left && OpenAt(s.levels, locs[1], sku) == right;
    assert OpenOver(s.levels, locs[..1], sku) == left && OpenOver(s.levels, locs, sku) == left + right;
  }
}
