/** Service.Reserve's preparation of a command (templates/commerce/internal/inventory/service.go): texts are
    trimmed, lines of the same SKU are merged and the result is put in SKU order, so that it depends only on
    what is wanted. Times are in nanoseconds. */
module InventoryCommand {
  import opened Common
  import opened Text
  import opened InventoryModel
  import opened InventorySpec
  import opened InventoryGreedy

  const MAX_LINES: nat := 100

  /** DefaultReservationTTL, fifteen minutes. */
  const RESERVATION_TTL: int := 15 * 60 * 1_000_000_000

  /** The lines with their SKUs trimmed. */
  function TrimLines(lines: seq<Line>): (r: seq<Line>)
    ensures |r| == |lines| && forall i :: 0 <= i < |r| ==> r[i] == Line(Trim(lines[i].sku), lines[i].quantity)
  {
    seq(|lines|, i requires 0 <= i < |lines| => Line(Trim(lines[i].sku), lines[i].quantity))
  }

  /** The order of strings. */
  predicate Less(a: string, b: string) {
    b != "" && (a == "" || (if a[0] != b[0] then a[0] < b[0] else Less(a[1..], b[1..])))
  }

  lemma {:induction false} LessTotal(a: string, b: string)
    ensures !(Less(a, b) && Less(b, a)) && !Less(a, a)
    ensures a != b ==> Less(a, b) || Less(b, a)
  {
    if a != "" && b != "" && a[0] == b[0] {
      LessTotal(a[1..], b[1..]);
      assert a == [a[0]] + a[1..] && b == [b[0]] + b[1..];
    }
    if a != "" { LessTotal(a[1..], a[1..]); }
  }

  lemma {:induction false} LessTransitive(a: string, b: string, c: string)
    requires Less(a, b) && Less(b, c)
    ensures Less(a, c)
  {
    if a != "" && a[0] == b[0] == c[0] { LessTransitive(a[1..], b[1..], c[1..]); }
  }

  predicate SortedLines(lines: seq<Line>) {
    && (forall i :: 0 <= i < |lines| ==> lines[i].sku != "" && lines[i].quantity > 0)
    && (forall i, j :: 0 <= i < j < |lines| ==> Less(lines[i].sku, lines[j].sku))
  }

  /** The commands Service.Reserve lets through. */
  ghost predicate Acceptable(lines: seq<Line>) {
    && 1 <= |lines| <= MAX_LINES
    && (forall i :: 0 <= i < |lines| ==> lines[i].sku != "" && lines[i].quantity > 0)
    && (forall x :: Wanted(lines, x) <= MAX_INT64)
  }

  lemma {:induction false} WantedSnoc(lines: seq<Line>, line: Line, x: string)
    ensures Wanted(lines + [line], x) == Wanted(lines, x) + (if line.sku == x then line.quantity else 0)
  {
    if lines == [] {
      assert lines + [line] == [line];
    } else {
      WantedSnoc(lines[1..], line, x);
      assert (lines + [line])[1..] == lines[1..] + [line];
    }
  }

  lemma {:induction false} WantedPrefix(lines: seq<Line>, k: nat, x: string)
    requires k <= |lines| && forall i :: 0 <= i < |lines| ==> lines[i].quantity > 0
    ensures 0 <= Wanted(lines[..k], x) <= Wanted(lines, x)
  {
    if lines != [] {
      if k == 0 {
        WantedPrefix(lines[1..], 0, x);
      } else {
        WantedPrefix(lines[1..], k - 1, x);
        assert lines[..k][1..] == lines[1..][..k - 1];
      }
    }
  }

  function Insert(lines: seq<Line>, line: Line): seq<Line> {
    if lines == [] || Less(line.sku, lines[0].sku) then [line] + lines
    else [lines[0]] + Insert(lines[1..], line)
  }

  lemma {:induction false} InsertMeaning(lines: seq<Line>, line: Line)
    requires SortedLines(lines) && line.sku != "" && line.quantity > 0
    requires forall i :: 0 <= i < |lines| ==> lines[i].sku != line.sku
    ensures SortedLines(Insert(lines, line))
    ensures forall x :: Wanted(Insert(lines, line), x) == Wanted(lines, x) + (if x == line.sku then line.quantity else 0)
    ensures forall l :: l in Insert(lines, line) <==> l in lines || l == line
  {
    var r := Insert(lines, line);
    if lines == [] {
    } else if Less(line.sku, lines[0].sku) {
      forall i | 1 <= i < |lines| ensures Less(line.sku, lines[i].sku) { LessTransitive(line.sku, lines[0].sku, lines[i].sku); }
    } else {
      InsertMeaning(lines[1..], line);
      LessTotal(line.sku, lines[0].sku);
      var tail := Insert(lines[1..], line);
      forall l | l in tail ensures Less(lines[0].sku, l.sku) { assert l in lines[1..] || l == line; }
      assert r == [lines[0]] + tail;
      forall i, j | 0 <= i < j < |r| ensures Less(r[i].sku, r[j].sku) {
        if i == 0 { assert tail[j - 1] in tail; } else { assert r[i] == tail[i - 1] && r[j] == tail[j - 1]; }
      }
    }
  }

  /** A sorted list of positive lines is determined by what it wants. */
  lemma {:induction false} SortedUnique(a: seq<Line>, b: seq<Line>)
    requires SortedLines(a) && SortedLines(b) && forall x :: Wanted(a, x) == Wanted(b, x)
    ensures a == b
  {
    if a == [] {
      if b != [] {
        assert Wanted(a, b[0].sku) == Wanted(b, b[0].sku) == 0;
        SmallestWanted(b);
      }
    } else if b == [] {
      assert Wanted(b, a[0].sku) == Wanted(a, a[0].sku) == 0;
      SmallestWanted(a);
    } else {
      SmallestWanted(a);
      SmallestWanted(b);
      assert Wanted(a, a[0].sku) == Wanted(b, a[0].sku);
      assert Wanted(a, b[0].sku) == Wanted(b, b[0].sku);
      LessTotal(a[0].sku, b[0].sku);
      assert a[0].sku == b[0].sku;
      forall x ensures Wanted(a[1..], x) == Wanted(b[1..], x) { assert Wanted(a, x) == Wanted(b, x); }
      SortedUnique(a[1..], b[1..]);
      assert a == [a[0]] + a[1..] && b == [b[0]] + b[1..];
    }
  }

  lemma {:induction false} NothingBelow(lines: seq<Line>, x: string)
    requires forall i :: 0 <= i < |lines| ==> lines[i].sku != x
    ensures Wanted(lines, x) == 0
  {
    if lines != [] { NothingBelow(lines[1..], x); }
  }

  /** The first line's SKU is the smallest one wanted, and wanted as the line says. */
  lemma SmallestWanted(lines: seq<Line>)
    requires SortedLines(lines) && lines != []
    ensures Wanted(lines, lines[0].sku) == lines[0].quantity > 0
    ensures forall x :: Less(x, lines[0].sku) ==> Wanted(lines, x) == 0
  {
    forall i | 0 < i < |lines| ensures lines[i].sku != lines[0].sku { LessTotal(lines[0].sku, lines[i].sku); }
    NothingBelow(lines[1..], lines[0].sku);
    forall x | Less(x, lines[0].sku) ensures Wanted(lines, x) == 0 {
      forall i | 0 <= i < |lines| ensures lines[i].sku != x {
        LessTotal(x, lines[0].sku);
        if i > 0 { LessTotal(x, lines[i].sku); LessTransitive(x, lines[0].sku, lines[i].sku); }
      }
      NothingBelow(lines, x);
    }
  }

  lemma SortedCanonical(lines: seq<Line>)
    requires SortedLines(lines)
    ensures CanonicalLines(lines)
  {
    forall i, j | 0 <= i < j < |lines| ensures lines[i].sku != lines[j].sku { LessTotal(lines[i].sku, lines[j].sku); }
  }

  ghost predicate Tally(quantities: map<string, int>, lines: seq<Line>) {
    forall x :: Total(quantities, x) == Wanted(lines, x)
  }

  /** The first i lines are usable and merged. */
  ghost predicate MergedTo(quantities: map<string, int>, lines: seq<Line>, i: nat) {
    && i <= |lines| && Tally(quantities, lines[..i])
    && (forall j :: 0 <= j < i ==> lines[j].sku != "" && lines[j].quantity > 0)
    && (forall x :: x in quantities ==> x != "" && 0 < quantities[x] <= MAX_INT64)
  }

  /** One more line. It is refused only when no acceptable command has it. */
  lemma MergeStep(lines: seq<Line>, i: nat, quantities: map<string, int>)
    requires i < |lines| && MergedTo(quantities, lines, i)
    ensures var line := lines[i];
            if line.sku == "" || line.quantity <= 0 || Total(quantities, line.sku) > MAX_INT64 - line.quantity
            then !Acceptable(lines)
            else MergedTo(quantities[line.sku := Total(quantities, line.sku) + line.quantity], lines, i + 1)
  {
    var line := lines[i];
    assert lines[..i + 1] == lines[..i] + [line];
    var merged := quantities[line.sku := Total(quantities, line.sku) + line.quantity];
    forall x ensures Total(merged, x) == Wanted(lines[..i + 1], x) {
      WantedSnoc(lines[..i], line, x);
      assert Total(quantities, x) == Wanted(lines[..i], x);
    }
    assert Wanted(lines[..i + 1], line.sku) == Total(merged, line.sku);
    if Wanted(lines[..i + 1], line.sku) > MAX_INT64 && forall j :: 0 <= j < |lines| ==> lines[j].quantity > 0 {
      WantedPrefix(lines, i + 1, line.sku);
    }
    hide Wanted;
  }

  lemma MergeDone(lines: seq<Line>, quantities: map<string, int>)
    requires 1 <= |lines| <= MAX_LINES && MergedTo(quantities, lines, |lines|)
    ensures Acceptable(lines) && Tally(quantities, lines)
    ensures forall x :: x in quantities ==> x != "" && quantities[x] > 0
  {
    assert lines[..|lines|] == lines;
    forall x ensures Wanted(lines, x) <= MAX_INT64 { assert Total(quantities, x) == Wanted(lines, x); }
  }

  /** The quantity loop: None at the first line that is unusable or overflows its SKU's total. */
  method MergeLines(given: seq<Line>) returns (r: Option<map<string, int>>)
    requires 1 <= |given| <= MAX_LINES
    ensures r.Some? <==> Acceptable(TrimLines(given))
    ensures r.Some? ==> Tally(r.value, TrimLines(given))
    ensures r.Some? ==> forall x :: x in r.value ==> x != "" && r.value[x] > 0
  {
    ghost var lines := TrimLines(given);
    var quantities: map<string, int> := map[];
    assert MergedTo(quantities, lines, 0);
    hide Acceptable, MergedTo, Tally, TrimLines, Trim;
    for i := 0 to |given|
      invariant MergedTo(quantities, lines, i)
    {
      var sku, quantity := Trim(given[i].sku), given[i].quantity;
      MergeStep(lines, i, quantities);
      if sku == "" || quantity <= 0 { return None; }
      if Total(quantities, sku) > MAX_INT64 - quantity { return None; }
      quantities := quantities[sku := Total(quantities, sku) + quantity];
    }
    MergeDone(lines, quantities);
    return Some(quantities);
  }

  /** Putting the merged quantities in order. Map iteration is arbitrary. */
  method SortLines(quantities: map<string, int>) returns (sorted: seq<Line>)
    requires forall x :: x in quantities ==> x != "" && quantities[x] > 0
    ensures SortedLines(sorted) && forall x :: Wanted(sorted, x) == Total(quantities, x)
  {
    var todo := quantities;
    sorted := [];
    while todo != map[]
      invariant SortedLines(sorted)
      invariant forall l :: l in sorted ==> l.sku !in todo
      invariant forall x :: x in todo ==> x != "" && todo[x] > 0
      invariant forall x :: Wanted(sorted, x) + Total(todo, x) == Total(quantities, x)
      decreases |todo|
    {
      var sku :| sku in todo;
      InsertMeaning(sorted, Line(sku, todo[sku]));
      sorted := Insert(sorted, Line(sku, todo[sku]));
      todo := todo - {sku};
    }
  }

  /** A command as it arrives; the expiry may be missing. */
  datatype Request = Request(order: string, key: string, lines: seq<Line>, expiresAt: Option<int>)

  /** The whole preparation: refused exactly when a name is blank, the lines are not acceptable or the expiry is
      not in the future; otherwise the one sorted list of distinct SKUs that wants what the given lines want. */
  method Prepare(request: Request, now: int) returns (r: Result<Command>)
    ensures r.Ok? <==>
              && Trim(request.order) != "" && Trim(request.key) != "" && Acceptable(TrimLines(request.lines))
              && (request.expiresAt.Some? ==> request.expiresAt.value > now)
    ensures r.Err? ==> r.error == InvalidCommand
    ensures r.Ok? ==> Canonical(r.value) && SortedLines(r.value.lines)
    ensures r.Ok? ==> forall x :: Wanted(r.value.lines, x) == Wanted(TrimLines(request.lines), x)
    ensures r.Ok? ==> r.value.order == Trim(request.order) && r.value.key == Trim(request.key)
    ensures r.Ok? ==> now < r.value.expiresAt
                      && (request.expiresAt.Some? ==> r.value.expiresAt == request.expiresAt.value)
                      && (request.expiresAt.None? ==> r.value.expiresAt == now + 900_000_000_000)
  {
    var order, key := Trim(request.order), Trim(request.key);
    if order == "" || key == "" || |request.lines| == 0 || |request.lines| > MAX_LINES { return Err(InvalidCommand); }
    var merged := MergeLines(request.lines);
    if merged.None? { return Err(InvalidCommand); }
    var sorted := SortLines(merged.value);
    ghost var first := TrimLines(request.lines);
    assert Wanted(sorted, first[0].sku) == Wanted(first, first[0].sku) > 0 by { WantedPrefix(first[1..], 0, first[0].sku); }
    SortedCanonical(sorted);
    var expires := if request.expiresAt.Some? then request.expiresAt.value else now + RESERVATION_TTL;
    if expires <= now { return Err(InvalidCommand); }
    return Ok(Command(order, key, sorted, expires));
  }

  /** So commands that want the same are prepared the same, however their lines were spelled, split or ordered. */
  lemma PreparedAlike(a: seq<Line>, b: seq<Line>, preparedA: seq<Line>, preparedB: seq<Line>)
    requires forall x :: Wanted(TrimLines(a), x) == Wanted(TrimLines(b), x)
    requires SortedLines(preparedA) && forall x :: Wanted(preparedA, x) == Wanted(TrimLines(a), x)
    requires SortedLines(preparedB) && forall x :: Wanted(preparedB, x) == Wanted(TrimLines(b), x)
    ensures preparedA == preparedB
  {
    forall x ensures Wanted(preparedA, x) == Wanted(preparedB, x) {
      assert Wanted(TrimLines(a), x) == Wanted(TrimLines(b), x);
    }
    SortedUnique(preparedA, preparedB);
  }
}
