/** Exact order money in integer minor units (templates/commerce/internal/order/money.go). Amounts are
    integers; every place where the source relies on int64 is bounded by MAX_INT64 explicitly. */
module OrderMoney {
  import opened Common

  predicate Fits(x: int) { -MAX_INT64 - 1 <= x <= MAX_INT64 }

  // ---------- sums ----------

  function SumOf(s: seq<int>): int {
    if s == [] then 0 else SumOf(s[..|s| - 1]) + s[|s| - 1]
  }

  lemma SumAppend(s: seq<int>, x: int)
    ensures SumOf(s + [x]) == SumOf(s) + x
  {
    assert (s + [x])[..|s|] == s;
  }

  lemma {:induction false} SumUpdate(s: seq<int>, i: nat, x: int)
    requires i < |s|
    ensures SumOf(s[i := x]) == SumOf(s) - s[i] + x
  {
    var n := |s| - 1;
    if i < n {
      SumUpdate(s[..n], i, x);
      assert s[i := x][..n] == s[..n][i := x];
    } else {
      assert s[i := x][..n] == s[..n];
    }
  }

  lemma {:induction false} SumConcat(a: seq<int>, b: seq<int>)
    ensures SumOf(a + b) == SumOf(a) + SumOf(b)
    decreases |b|
  {
    if b == [] {
      assert a + b == a;
    } else {
      SumConcat(a, b[..|b| - 1]);
      assert (a + b)[..|a + b| - 1] == a + b[..|b| - 1];
    }
  }

  /** A prefix of non-negative amounts never exceeds the whole. */
  lemma {:induction false} SumPrefix(s: seq<int>, k: nat)
    requires k <= |s| && forall i :: 0 <= i < |s| ==> s[i] >= 0
    ensures 0 <= SumOf(s[..k]) <= SumOf(s)
  {
    if k < |s| {
      SumPrefix(s[..|s| - 1], k);
      assert s[..|s| - 1][..k] == s[..k];
    } else {
      assert s[..k] == s;
      if k > 0 { SumPrefix(s[..k - 1], k - 1); assert s[..k - 1][..k - 1] == s[..k - 1]; }
    }
  }

  lemma {:induction false} SumMonotone(a: seq<int>, b: seq<int>)
    requires |a| == |b| && forall i :: 0 <= i < |a| ==> a[i] <= b[i]
    ensures SumOf(a) <= SumOf(b)
    ensures a != b ==> SumOf(a) < SumOf(b)
  {
    if a != [] {
      var n := |a| - 1;
      SumMonotone(a[..n], b[..n]);
      if a[..n] == b[..n] && a[n] == b[n] {
        assert a == a[..n] + [a[n]] && b == b[..n] + [b[n]];
      }
    }
  }

  lemma RemoveOne<T>(s: seq<T>, i: nat)
    requires i < |s|
    ensures multiset(s[..i] + s[i + 1..]) == multiset(s) - multiset{s[i]}
  {
    assert s == s[..i] + [s[i]] + s[i + 1..];
  }

  function Map<T>(s: seq<T>, f: T -> int): (r: seq<int>)
    ensures |r| == |s| && forall i :: 0 <= i < |r| ==> r[i] == f(s[i])
  {
    seq(|s|, i requires 0 <= i < |s| => f(s[i]))
  }

  lemma MapRemove<T>(s: seq<T>, f: T -> int, i: nat)
    requires i < |s|
    ensures SumOf(Map(s, f)) == SumOf(Map(s[..i] + s[i + 1..], f)) + f(s[i])
  {
    var v := Map(s, f);
    assert Map(s[..i] + s[i + 1..], f) == v[..i] + v[i + 1..];
    assert v == v[..i] + [v[i]] + v[i + 1..];
    SumConcat(v[..i], v[i + 1..]);
    SumConcat(v[..i] + [v[i]], v[i + 1..]);
    SumAppend(v[..i], v[i]);
  }

  /** Sums do not depend on the order of the summands. */
  lemma {:induction false} SumPermuted<T>(a: seq<T>, b: seq<T>, f: T -> int)
    requires multiset(a) == multiset(b)
    ensures SumOf(Map(a, f)) == SumOf(Map(b, f))
    decreases |a|
  {
    hide SumOf, Map;
    if a == [] {
      assert |multiset(a)| == |multiset(b)|;
      assert b == [];
    } else {
      var n := |a| - 1;
      assert a[n] in multiset(b);
      var i :| 0 <= i < |b| && b[i] == a[n];
      RemoveOne(a, n);
      RemoveOne(b, i);
      SumPermuted(a[..n] + a[n + 1..], b[..i] + b[i + 1..], f);
      MapRemove(a, f, n);
      MapRemove(b, f, i);
    }
  }

  /** Division undoes multiplication, which is why the source's overflow tests are exact. */
  lemma MultiplyFits(a: int, b: int)
    requires a > 0
    ensures b > MAX_INT64 / a <==> a * b > MAX_INT64
  {
    var q := MAX_INT64 / a;
    assert q * a <= MAX_INT64 < (q + 1) * a;
    if b > q { assert a * b >= a * (q + 1); } else { assert a * b <= a * q; }
  }

  /** checkedMultiply: refused exactly on a negative factor or a product beyond int64. */
  function CheckedMultiply(left: int, right: int): (r: Option<int>)
    ensures r.Some? <==> left >= 0 && right >= 0 && left * right <= MAX_INT64
    ensures r.Some? ==> r.value == left * right
  {
    if left < 0 || right < 0 then None
    else if left != 0 && right > MAX_INT64 / left then
      assert left * right > MAX_INT64 by { MultiplyFits(left, right); }
      None
    else
      assert left * right <= MAX_INT64 by { if left != 0 { MultiplyFits(left, right); } }
      Some(left * right)
  }

  function CheckedAdd(left: int, right: int): (r: Option<int>)
    ensures r.Some? <==> left >= 0 && right >= 0 && left + right <= MAX_INT64
    ensures r.Some? ==> r.value == left + right
  {
    if left < 0 || right < 0 || right > MAX_INT64 - left then None else Some(left + right)
  }

  // ---------- largest-remainder allocation ----------

  datatype Remainder = Remainder(index: nat, value: int)

  /** The order the source sorts into: larger remainder first, then lower index. */
  predicate Before(a: Remainder, b: Remainder) {
    a.value > b.value || (a.value == b.value && a.index < b.index)
  }

  predicate Ordered(rs: seq<Remainder>) {
    forall p, q :: 0 <= p < q < |rs| ==> Before(rs[p], rs[q])
  }

  /** One step of a stable descending sort: after everything not smaller. */
  function InsertStable(sorted: seq<Remainder>, r: Remainder): seq<Remainder> {
    if sorted == [] || sorted[0].value < r.value then [r] + sorted
    else [sorted[0]] + InsertStable(sorted[1..], r)
  }

  /** sort.SliceStable by descending value. */
  function SortStable(rs: seq<Remainder>): seq<Remainder> {
    if rs == [] then [] else InsertStable(SortStable(rs[..|rs| - 1]), rs[|rs| - 1])
  }

  lemma {:induction false} InsertMeaning(sorted: seq<Remainder>, r: Remainder)
    requires Ordered(sorted) && forall k :: 0 <= k < |sorted| ==> sorted[k].index < r.index
    ensures Ordered(InsertStable(sorted, r))
    ensures multiset(InsertStable(sorted, r)) == multiset(sorted) + multiset{r}
  {
    if sorted != [] && sorted[0].value >= r.value {
      var rest := sorted[1..];
      InsertMeaning(rest, r);
      assert sorted == [sorted[0]] + rest;
      var tail := InsertStable(rest, r);
      forall k | 0 <= k < |tail| ensures Before(sorted[0], tail[k]) {
        assert tail[k] in multiset(rest) + multiset{r};
        if tail[k] != r { assert tail[k] in rest; }
      }
    }
  }

  /** The stable sort orders a list given in index order, losing nothing. */
  lemma {:induction false} SortMeaning(rs: seq<Remainder>)
    requires forall k :: 0 <= k < |rs| ==> rs[k].index == k
    ensures Ordered(SortStable(rs)) && multiset(SortStable(rs)) == multiset(rs) && |SortStable(rs)| == |rs|
  {
    if rs != [] {
      var n := |rs| - 1;
      SortMeaning(rs[..n]);
      var sorted := SortStable(rs[..n]);
      forall k | 0 <= k < |sorted| ensures sorted[k].index < n {
        assert sorted[k] in multiset(rs[..n]);
      }
      InsertMeaning(sorted, rs[n]);
      assert rs == rs[..n] + [rs[n]];
      assert |multiset(SortStable(rs))| == |multiset(rs)|;
    }
  }

  /** amount * bp, kept apart from the linear arithmetic around it. */
  function Scaled(amount: int, bp: int): int { amount * bp }

  function Floor(amount: int, bp: int): int { Scaled(amount, bp) / 10000 }
  function Rest(amount: int, bp: int): int { Scaled(amount, bp) % 10000 }

  /** The share of line i was rounded up. */
  predicate RoundedUp(amounts: seq<int>, bp: int, r: seq<int>, i: nat)
    requires |r| == |amounts| && i < |r|
  {
    r[i] == Floor(amounts[i], bp) + 1
  }

  /** The largest-remainder allocation: exact in total; every line its exact share rounded down or, with a
      remainder left, up, and so never more than its amount; larger remainders, then lower indices, first. */
  ghost predicate IsAllocation(amounts: seq<int>, bp: int, r: seq<int>) {
    && |r| == |amounts|
    && SumOf(r) == Scaled(SumOf(amounts), bp) / 10000
    && (forall i :: 0 <= i < |r| ==>
          || r[i] == Floor(amounts[i], bp)
          || (RoundedUp(amounts, bp, r, i) && Rest(amounts[i], bp) > 0))
    && (forall i :: 0 <= i < |r| ==> 0 <= r[i] <= amounts[i])
    && (forall i, j :: 0 <= i < |r| && 0 <= j < |r| && RoundedUp(amounts, bp, r, i) && !RoundedUp(amounts, bp, r, j) ==>
          Before(Remainder(i, Rest(amounts[i], bp)), Remainder(j, Rest(amounts[j], bp))))
  }

  /** Of two allocations neither can round up a line the other passes over in favour of a third. */
  lemma NoSwap(amounts: seq<int>, bp: int, r1: seq<int>, r2: seq<int>, i: nat, j: nat)
    requires IsAllocation(amounts, bp, r1) && IsAllocation(amounts, bp, r2)
    requires i < |amounts| && j < |amounts| && r1[i] > r2[i]
    ensures r2[j] <= r1[j]
  {
    assert RoundedUp(amounts, bp, r1, i) && !RoundedUp(amounts, bp, r2, i);
  }

  /** There is only one such allocation. */
  lemma AllocationUnique(amounts: seq<int>, bp: int, r1: seq<int>, r2: seq<int>)
    requires IsAllocation(amounts, bp, r1) && IsAllocation(amounts, bp, r2)
    ensures r1 == r2
  {
    if exists i :: 0 <= i < |r1| && r1[i] > r2[i] {
      var i :| 0 <= i < |r1| && r1[i] > r2[i];
      forall j | 0 <= j < |r1| ensures r2[j] <= r1[j] { NoSwap(amounts, bp, r1, r2, i, j); }
      SumMonotone(r2, r1);
    } else {
      SumMonotone(r1, r2);
    }
  }

  lemma ScaledBound(amount: int, bp: int)
    requires amount >= 0 && 0 <= bp <= 10000
    ensures 0 <= Scaled(amount, bp) <= 10000 * amount
  {
  }

  lemma ScaledAdd(a: int, b: int, bp: int)
    ensures Scaled(a + b, bp) == Scaled(a, bp) + Scaled(b, bp)
  {
  }

  lemma ScaledMonotone(a: int, b: int, bp: int)
    requires a <= b && bp >= 0
    ensures Scaled(a, bp) <= Scaled(b, bp)
  {
  }

  /** The source's overflow test before it multiplies. */
  lemma ScaledFits(amount: int, bp: int)
    requires amount > 0
    ensures bp > MAX_INT64 / amount <==> Scaled(amount, bp) > MAX_INT64
  {
    MultiplyFits(amount, bp);
  }

  /** What one line's exact share splits into. */
  lemma ShareSplit(amount: int, bp: int)
    requires amount >= 0 && 0 <= bp <= 10000
    ensures Scaled(amount, bp) == 10000 * Floor(amount, bp) + Rest(amount, bp) && 0 <= Rest(amount, bp) < 10000
    ensures 0 <= Floor(amount, bp) <= amount
    ensures Rest(amount, bp) > 0 ==> Floor(amount, bp) + 1 <= amount
  {
    ScaledBound(amount, bp);
    hide Scaled;
  }

  function Floors(amounts: seq<int>, bp: int): (r: seq<int>)
    ensures |r| == |amounts| && forall i :: 0 <= i < |r| ==> r[i] == Floor(amounts[i], bp)
  {
    seq(|amounts|, i requires 0 <= i < |amounts| => Floor(amounts[i], bp))
  }

  function Remainders(amounts: seq<int>, bp: int): (r: seq<Remainder>)
    ensures |r| == |amounts| && forall i :: 0 <= i < |r| ==> r[i] == Remainder(i, Rest(amounts[i], bp))
  {
    seq(|amounts|, i requires 0 <= i < |amounts| => Remainder(i, Rest(amounts[i], bp)))
  }

  function Values(rs: seq<Remainder>): (r: seq<int>)
    ensures |r| == |rs| && forall i :: 0 <= i < |r| ==> r[i] == rs[i].value
  {
    Map(rs, (r: Remainder) => r.value)
  }

  lemma {:induction false} SumOfShares(amounts: seq<int>, bp: int)
    requires 0 <= bp <= 10000 && forall i :: 0 <= i < |amounts| ==> amounts[i] >= 0
    ensures Scaled(SumOf(amounts), bp) == 10000 * SumOf(Floors(amounts, bp)) + SumOf(Values(Remainders(amounts, bp)))
  {
    if amounts != [] {
      hide Scaled;
      var n := |amounts| - 1;
      SumOfShares(amounts[..n], bp);
      ShareSplit(amounts[n], bp);
      assert Floors(amounts, bp)[..n] == Floors(amounts[..n], bp);
      assert Values(Remainders(amounts, bp))[..n] == Values(Remainders(amounts[..n], bp));
      ScaledAdd(SumOf(amounts[..n]), amounts[n], bp);
    }
  }

  lemma ValuesPermuted(a: seq<Remainder>, b: seq<Remainder>)
    requires multiset(a) == multiset(b)
    ensures SumOf(Values(a)) == SumOf(Values(b))
  {
    var value := (r: Remainder) => r.value;
    assert Values(a) == Map(a, value) && Values(b) == Map(b, value);
    SumPermuted(a, b, value);
  }

  /** Beyond the last positive remainder a sorted list adds nothing. */
  lemma {:induction false} SortedSumBound(rs: seq<Remainder>, p: nat)
    requires p <= |rs| && forall k :: 0 <= k < |rs| ==> 0 <= rs[k].value < 10000
    requires forall k :: p <= k < |rs| ==> rs[k].value == 0
    ensures 0 <= SumOf(Values(rs)) <= 9999 * p
    decreases |rs|
  {
    if rs != [] {
      var n := |rs| - 1;
      assert Values(rs)[..n] == Values(rs[..n]);
      SortedSumBound(rs[..n], if p <= n then p else n);
    }
  }

  lemma RemaindersBounded(amounts: seq<int>, bp: int, sorted: seq<Remainder>, k: nat)
    requires 0 <= bp <= 10000 && forall i :: 0 <= i < |amounts| ==> amounts[i] >= 0
    requires multiset(sorted) == multiset(Remainders(amounts, bp)) && k < |sorted|
    ensures 0 <= sorted[k].value < 10000
    ensures sorted[k].index < |amounts| && sorted[k].value == Rest(amounts[sorted[k].index], bp)
  {
    hide Scaled;
    var rs := Remainders(amounts, bp);
    assert sorted[k] in multiset(rs);
    var i :| 0 <= i < |rs| && rs[i] == sorted[k];
    ShareSplit(amounts[i], bp);
  }

  /** How many units are left to hand out. */
  function Extras(amounts: seq<int>, bp: int): int {
    Scaled(SumOf(amounts), bp) / 10000 - SumOf(Floors(amounts, bp))
  }

  /** There are fewer units to hand out than lines with a remainder, so each goes to a line that has one. */
  lemma ExtrasHaveRemainders(amounts: seq<int>, bp: int, sorted: seq<Remainder>, p: nat)
    requires 0 <= bp <= 10000 && forall i :: 0 <= i < |amounts| ==> amounts[i] >= 0
    requires Ordered(sorted) && multiset(sorted) == multiset(Remainders(amounts, bp)) && |sorted| == |amounts|
    ensures 0 <= Extras(amounts, bp) <= |amounts| && (p < Extras(amounts, bp) ==> sorted[p].value > 0)
  {
    hide Scaled, Floor, Rest, SumOf;
    SumOfShares(amounts, bp);
    ValuesPermuted(sorted, Remainders(amounts, bp));
    forall k | 0 <= k < |sorted| ensures 0 <= sorted[k].value < 10000 { RemaindersBounded(amounts, bp, sorted, k); }
    SortedSumBound(sorted, |sorted|);
    if p < Extras(amounts, bp) && sorted[p].value == 0 {
      forall k | p <= k < |sorted| ensures sorted[k].value == 0 {
        if k > p { assert Before(sorted[p], sorted[k]); }
      }
      SortedSumBound(sorted, p);
    }
  }

  /** The inputs AllocatePercentageDiscount accepts. */
  predicate Allocatable(amounts: seq<int>, bp: int) {
    && amounts != [] && 0 <= bp <= 10000
    && (forall i :: 0 <= i < |amounts| ==> amounts[i] >= 0)
    && SumOf(amounts) <= MAX_INT64 && Scaled(SumOf(amounts), bp) <= MAX_INT64
  }

  lemma RoundNone(amounts: seq<int>, bp: int)
    ensures SumOf(amounts[..0]) == SumOf([]) == 0 && Floors(amounts[..0], bp) == [] && Remainders(amounts[..0], bp) == []
  {
  }

  /** Once a prefix is beyond int64, non-negative amounts cannot bring the sum back. */
  lemma OverflowStays(amounts: seq<int>, k: nat)
    requires k <= |amounts| && SumOf(amounts[..k]) > MAX_INT64
    ensures SumOf(amounts) > MAX_INT64 || exists j :: 0 <= j < |amounts| && amounts[j] < 0
  {
    if forall j :: 0 <= j < |amounts| ==> amounts[j] >= 0 { SumPrefix(amounts, k); }
  }

  lemma RoundNext(amounts: seq<int>, i: nat, bp: int)
    requires i < |amounts|
    ensures SumOf(amounts[..i + 1]) == SumOf(amounts[..i]) + amounts[i]
    ensures Floors(amounts[..i + 1], bp) == Floors(amounts[..i], bp) + [Floor(amounts[i], bp)]
    ensures Remainders(amounts[..i + 1], bp) == Remainders(amounts[..i], bp) + [Remainder(i, Rest(amounts[i], bp))]
  {
    assert amounts[..i + 1] == amounts[..i] + [amounts[i]];
    SumAppend(amounts[..i], amounts[i]);
  }

  /** The floor loop: shares rounded down, their remainders and both totals, or None on a bad amount or an
      overflow. */
  method RoundDown(amounts: seq<int>, bp: int) returns (r: Option<(seq<int>, seq<Remainder>, int, int)>)
    requires 0 <= bp <= 10000
    ensures r.Some? <==> (forall i :: 0 <= i < |amounts| ==> amounts[i] >= 0 && Scaled(amounts[i], bp) <= MAX_INT64)
                         && SumOf(amounts) <= MAX_INT64
    ensures r.Some? ==> r.value == (Floors(amounts, bp), Remainders(amounts, bp), SumOf(amounts), SumOf(Floors(amounts, bp)))
  {
    RoundNone(amounts, bp);
    hide Scaled, SumOf, Floors, Remainders;
    var allocations, remainders, total, floored := [], [], 0, 0;
    for i := 0 to |amounts|
      invariant forall j :: 0 <= j < i ==> amounts[j] >= 0 && Scaled(amounts[j], bp) <= MAX_INT64
      invariant allocations == Floors(amounts[..i], bp) && remainders == Remainders(amounts[..i], bp)
      invariant total == SumOf(amounts[..i]) <= MAX_INT64 && 0 <= floored == SumOf(allocations) <= total
    {
      var amount := amounts[i];
      RoundNext(amounts, i, bp);
      if amount < 0 { return None; }
      var t := CheckedAdd(total, amount);
      if t.None? {
        OverflowStays(amounts, i + 1);
        return None;
      }
      if amount != 0 { ScaledFits(amount, bp); }
      if amount != 0 && bp > MAX_INT64 / amount { return None; }
      total := t.value;
      var product := Scaled(amount, bp);
      ScaledBound(amount, bp);
      assert Fits(product);
      ShareSplit(amount, bp);
      var sum := CheckedAdd(floored, product / 10000);
      SumAppend(allocations, product / 10000);
      floored := sum.value;   // never refused: the floors do not exceed the amounts
      allocations := allocations + [product / 10000];
      remainders := remainders + [Remainder(i, product % 10000)];
    }
    assert amounts[..|amounts|] == amounts;
    return Some((allocations, remainders, total, floored));
  }

  /** AllocatePercentageDiscount, its last loop counting down over the array in place. Every intermediate
      value fits int64. */
  method AllocatePercentageDiscount(amounts: seq<int>, bp: int) returns (r: Option<seq<int>>)
    ensures r.Some? <==> Allocatable(amounts, bp)
    ensures r.Some? ==> IsAllocation(amounts, bp, r.value)
  {
    if |amounts| == 0 || bp < 0 || bp > 10000 { return None; }
    var rounded := RoundDown(amounts, bp);
    if rounded.None? {
      NotAllocatable(amounts, bp);
      return None;
    }
    var (floors, remainders, total, floored) := rounded.value;
    SumPrefix(amounts, 0);
    if total != 0 { ScaledFits(total, bp); }
    if total != 0 && bp > MAX_INT64 / total { return None; }
    assert Fits(Scaled(total, bp));
    var target := Scaled(total, bp) / 10000;
    SortMeaning(remainders);
    var sorted := SortStable(remainders);
    ExtrasHaveRemainders(amounts, bp, sorted, 0);
    var result := SpreadExtras(amounts, bp, floors, sorted, target - floored);
    return Some(result);
  }

  lemma NotAllocatable(amounts: seq<int>, bp: int)
    requires 0 <= bp <= 10000
    requires !((forall i :: 0 <= i < |amounts| ==> amounts[i] >= 0 && Scaled(amounts[i], bp) <= MAX_INT64) && SumOf(amounts) <= MAX_INT64)
    ensures !Allocatable(amounts, bp)
  {
    hide Scaled;
    if Allocatable(amounts, bp) {
      forall i | 0 <= i < |amounts| ensures Scaled(amounts[i], bp) <= MAX_INT64 {
        SumPrefix(amounts, i);
        SumPrefix(amounts, i + 1);
        SumAppend(amounts[..i], amounts[i]);
        assert amounts[..i + 1] == amounts[..i] + [amounts[i]];
        ScaledMonotone(amounts[i], SumOf(amounts), bp);
      }
    }
  }

  /** Line i is among the sorted lines p .. q. */
  predicate Among(sorted: seq<Remainder>, p: int, q: int, i: nat) {
    exists k :: 0 <= p <= k < q <= |sorted| && sorted[k].index == i
  }

  /** The countdown: for extra = n .. 1 the line ranked extra - 1 gets one more unit. */
  method SpreadExtras(amounts: seq<int>, bp: int, floors: seq<int>, sorted: seq<Remainder>, extras: int)
    returns (r: seq<int>)
    requires Allocatable(amounts, bp) && floors == Floors(amounts, bp)
    requires Ordered(sorted) && multiset(sorted) == multiset(Remainders(amounts, bp)) && |sorted| == |amounts|
    requires extras == Extras(amounts, bp) && 0 <= extras <= |amounts|
    ensures IsAllocation(amounts, bp, r)
  {
    var allocations := new int[|floors|](i requires 0 <= i < |floors| => floors[i]);
    assert allocations[..] == floors;
    RanksDistinct(amounts, bp, sorted);
    hide *;
    NoneBumped(floors, sorted, extras);
    var extra := extras;
    while extra > 0
      invariant 0 <= extra <= extras
      invariant Bumped(floors, allocations[..], sorted, extra, extras)
    {
      var k := (extra - 1) % |sorted|;
      var i := sorted[k].index;
      assert k == extra - 1 by { SmallMod(extra - 1, |sorted|); }
      OnceRanked(sorted, extra, extras, k);
      ghost var before := allocations[..];
      allocations[i] := allocations[i] + 1;
      assert allocations[..] == before[i := before[i] + 1];
      BumpNext(floors, before, sorted, extra, extras);
      extra := extra - 1;
    }
    r := allocations[..];
    BumpedSum(amounts, bp, floors, r, sorted, extras);
    SpreadMeaning(amounts, bp, sorted, extras, r);
  }

  /** The lines ranked extra .. extras have one unit more than their floor, and nobody else has. */
  ghost predicate Bumped(floors: seq<int>, r: seq<int>, sorted: seq<Remainder>, extra: int, extras: int) {
    && |r| == |floors|
    && SumOf(r) == SumOf(floors) + extras - extra
    && forall i :: 0 <= i < |r| ==> r[i] == floors[i] + if Among(sorted, extra, extras, i) then 1 else 0
  }

  lemma SmallMod(a: int, n: int)
    requires 0 <= a < n
    ensures a % n == a
  {
  }

  lemma BumpNext(floors: seq<int>, before: seq<int>, sorted: seq<Remainder>, extra: int, extras: int)
    requires 0 < extra <= extras <= |sorted| && Bumped(floors, before, sorted, extra, extras)
    requires sorted[extra - 1].index < |floors| && !Among(sorted, extra, extras, sorted[extra - 1].index)
    ensures var i := sorted[extra - 1].index; Bumped(floors, before[i := before[i] + 1], sorted, extra - 1, extras)
  {
    var i := sorted[extra - 1].index;
    SumUpdate(before, i, before[i] + 1);
    AmongNext(sorted, extra, extras);
    hide Among, SumOf;
  }

  lemma BumpedSum(amounts: seq<int>, bp: int, floors: seq<int>, r: seq<int>, sorted: seq<Remainder>, extras: int)
    requires floors == Floors(amounts, bp) && extras == Extras(amounts, bp) && Bumped(floors, r, sorted, 0, extras)
    ensures |r| == |amounts| && SumOf(r) == Scaled(SumOf(amounts), bp) / 10000
    ensures forall i :: 0 <= i < |r| ==> r[i] == Floor(amounts[i], bp) + if Among(sorted, 0, extras, i) then 1 else 0
  {
    hide Among, SumOf, Scaled;
  }

  lemma NoneBumped(floors: seq<int>, sorted: seq<Remainder>, extras: int)
    ensures Bumped(floors, floors, sorted, extras, extras)
  {
    hide SumOf;
  }

  lemma AmongNext(sorted: seq<Remainder>, extra: int, extras: int)
    requires 0 < extra <= extras <= |sorted|
    ensures forall i :: Among(sorted, extra - 1, extras, i) <==> Among(sorted, extra, extras, i) || i == sorted[extra - 1].index
  {
    forall i ensures Among(sorted, extra - 1, extras, i) <==> Among(sorted, extra, extras, i) || i == sorted[extra - 1].index {
      if i == sorted[extra - 1].index { assert Among(sorted, extra - 1, extras, i); }
    }
  }

  /** Every line appears once in the ranking. */
  lemma RanksDistinct(amounts: seq<int>, bp: int, sorted: seq<Remainder>)
    requires 0 <= bp <= 10000 && forall i :: 0 <= i < |amounts| ==> amounts[i] >= 0
    requires Ordered(sorted) && multiset(sorted) == multiset(Remainders(amounts, bp))
    ensures forall k :: 0 <= k < |sorted| ==> sorted[k].index < |amounts|
    ensures forall p, q :: 0 <= p < q < |sorted| ==> sorted[p].index != sorted[q].index
  {
    forall k | 0 <= k < |sorted| ensures sorted[k].index < |amounts| && sorted[k].value == Rest(amounts[sorted[k].index], bp) {
      RemaindersBounded(amounts, bp, sorted, k);
    }
    hide Rest;
    forall p, q | 0 <= p < q < |sorted| ensures sorted[p].index != sorted[q].index { assert Before(sorted[p], sorted[q]); }
  }

  lemma OnceRanked(sorted: seq<Remainder>, extra: int, extras: int, k: nat)
    requires k < extra <= extras <= |sorted|
    requires forall p, q :: 0 <= p < q < |sorted| ==> sorted[p].index != sorted[q].index
    ensures !Among(sorted, extra, extras, sorted[k].index)
  {
  }

  lemma SpreadMeaning(amounts: seq<int>, bp: int, sorted: seq<Remainder>, extras: int, r: seq<int>)
    requires Allocatable(amounts, bp) && |r| == |amounts|
    requires Ordered(sorted) && multiset(sorted) == multiset(Remainders(amounts, bp)) && |sorted| == |amounts|
    requires extras == Extras(amounts, bp) && 0 <= extras <= |amounts|
    requires SumOf(r) == Scaled(SumOf(amounts), bp) / 10000
    requires forall i :: 0 <= i < |r| ==> r[i] == Floor(amounts[i], bp) + if Among(sorted, 0, extras, i) then 1 else 0
    ensures IsAllocation(amounts, bp, r)
  {
    var rs := Remainders(amounts, bp);
    forall i | 0 <= i < |r|
      ensures 0 <= r[i] <= amounts[i]
      ensures RoundedUp(amounts, bp, r, i) ==> Rest(amounts[i], bp) > 0
    {
      ShareSplit(amounts[i], bp);
      if Among(sorted, 0, extras, i) {
        var k :| 0 <= k < extras && sorted[k].index == i;
        ExtrasHaveRemainders(amounts, bp, sorted, k);
        assert sorted[k] in multiset(rs);
      }
    }
    forall i, j | 0 <= i < |r| && 0 <= j < |r| && RoundedUp(amounts, bp, r, i) && !RoundedUp(amounts, bp, r, j)
      ensures Before(Remainder(i, Rest(amounts[i], bp)), Remainder(j, Rest(amounts[j], bp)))
    {
      var k :| 0 <= k < extras && sorted[k].index == i;
      assert sorted[k] in multiset(rs);
      assert rs[j] in multiset(sorted);
      var q :| 0 <= q < |sorted| && sorted[q] == rs[j];
      assert q >= extras;
      assert Before(sorted[k], sorted[q]);
    }
  }
}
