/** The priced order a checkout builds, its own final reconciliation and the store's re-check
    (templates/commerce/internal/order/service.go, templates/commerce/internal/order/store.go). Descriptive
    fields are left out. */
module Checkout {
  import opened Common
  import opened OrderMoney

  // ---------- totals ----------

  datatype OrderLine = OrderLine(sku: string, quantity: int, price: int, discount: int, total: int, taxRate: int, tax: int)

  function Gross(l: OrderLine): int { l.quantity * l.price }

  datatype Totals = Totals(subtotal: int, discount: int, shipping: int, tax: int, total: int)

  function Grosses(lines: seq<OrderLine>): seq<int> { Map(lines, (l: OrderLine) => Gross(l)) }
  function Discounts(lines: seq<OrderLine>): seq<int> { Map(lines, (l: OrderLine) => l.discount) }
  function Nets(lines: seq<OrderLine>): seq<int> { Map(lines, (l: OrderLine) => l.total) }
  function Taxes(lines: seq<OrderLine>): seq<int> { Map(lines, (l: OrderLine) => l.tax) }

  predicate GoodLine(l: OrderLine) {
    l.quantity > 0 && l.price >= 0 && 0 <= l.discount <= Gross(l)
  }

  predicate GoodLines(lines: seq<OrderLine>) {
    forall i :: 0 <= i < |lines| ==> GoodLine(lines[i])
  }

  /** What CalculateTotals computes: the order equation over sums that fit int64, or a refusal. */
  function TotalsOf(lines: seq<OrderLine>, shipping: int, tax: int): Option<Totals> {
    var subtotal, discount := SumOf(Grosses(lines)), SumOf(Discounts(lines));
    if lines != [] && shipping >= 0 && tax >= 0 && GoodLines(lines)
       && subtotal <= MAX_INT64 && subtotal - discount + shipping + tax <= MAX_INT64
    then Some(Totals(subtotal, discount, shipping, tax, subtotal - discount + shipping + tax))
    else None
  }

  /** The sums of a list grown by one line. */
  lemma LineNext(lines: seq<OrderLine>, i: nat)
    requires i < |lines|
    ensures SumOf(Grosses(lines[..i + 1])) == SumOf(Grosses(lines[..i])) + Gross(lines[i])
    ensures SumOf(Discounts(lines[..i + 1])) == SumOf(Discounts(lines[..i])) + lines[i].discount
    ensures SumOf(Nets(lines[..i + 1])) == SumOf(Nets(lines[..i])) + lines[i].total
    ensures SumOf(Taxes(lines[..i + 1])) == SumOf(Taxes(lines[..i])) + lines[i].tax
  {
    assert lines[..i + 1] == lines[..i] + [lines[i]];
    assert Grosses(lines[..i + 1]) == Grosses(lines[..i]) + [Gross(lines[i])];
    assert Discounts(lines[..i + 1]) == Discounts(lines[..i]) + [lines[i].discount];
    assert Nets(lines[..i + 1]) == Nets(lines[..i]) + [lines[i].total];
    assert Taxes(lines[..i + 1]) == Taxes(lines[..i]) + [lines[i].tax];
    SumAppend(Grosses(lines[..i]), Gross(lines[i]));
    SumAppend(Discounts(lines[..i]), lines[i].discount);
    SumAppend(Nets(lines[..i]), lines[i].total);
    SumAppend(Taxes(lines[..i]), lines[i].tax);
  }

  lemma NoLineSums()
    ensures SumOf(Grosses([])) == 0 && SumOf(Discounts([])) == 0 && SumOf(Nets([])) == 0 && SumOf(Taxes([])) == 0
  {
  }

  lemma LineSums(lines: seq<OrderLine>)
    requires lines != []
    ensures var n := |lines| - 1;
            && SumOf(Grosses(lines)) == SumOf(Grosses(lines[..n])) + Gross(lines[n])
            && SumOf(Discounts(lines)) == SumOf(Discounts(lines[..n])) + lines[n].discount
            && SumOf(Nets(lines)) == SumOf(Nets(lines[..n])) + lines[n].total
            && SumOf(Taxes(lines)) == SumOf(Taxes(lines[..n])) + lines[n].tax
  {
    LineNext(lines, |lines| - 1);
    assert lines[..|lines| - 1 + 1] == lines;
  }

  /** Good lines never discount more than they cost, so neither do their sums. */
  lemma {:induction false} GoodSums(lines: seq<OrderLine>)
    requires GoodLines(lines)
    ensures 0 <= SumOf(Discounts(lines)) <= SumOf(Grosses(lines))
  {
    NoLineSums();
    hide SumOf, Grosses, Discounts, Gross;
    if lines != [] {
      LineSums(lines);
      GoodSums(lines[..|lines| - 1]);
    }
  }

  lemma GrossPrefix(lines: seq<OrderLine>, k: nat)
    requires k <= |lines| && forall i :: 0 <= i < |lines| ==> Gross(lines[i]) >= 0
    ensures 0 <= SumOf(Grosses(lines[..k])) <= SumOf(Grosses(lines))
  {
    assert Grosses(lines[..k]) == Grosses(lines)[..k];
    SumPrefix(Grosses(lines), k);
  }

  /** A line beyond int64 puts the whole order beyond it. */
  lemma LineOverflowStays(lines: seq<OrderLine>, k: nat, shipping: int, tax: int)
    requires k < |lines| && Gross(lines[k]) > MAX_INT64
    ensures TotalsOf(lines, shipping, tax).None?
  {
    if GoodLines(lines) {
      hide Gross, SumOf, Grosses;
      GrossPrefix(lines, k);
      LineNext(lines, k);
      GrossPrefix(lines, k + 1);
    }
  }

  lemma GrossOverflowStays(lines: seq<OrderLine>, k: nat, shipping: int, tax: int)
    requires k <= |lines| && SumOf(Grosses(lines[..k])) > MAX_INT64
    ensures TotalsOf(lines, shipping, tax).None?
  {
    if GoodLines(lines) {
      hide Gross;
      GrossPrefix(lines, k);
    }
  }

  lemma NoLinesGood()
    ensures GoodLines([])
  {
  }

  lemma GrossSign(l: OrderLine)
    requires l.quantity >= 0 && l.price >= 0
    ensures Gross(l) >= 0
  {
  }

  /** checkedMultiply of a line's quantity and price. */
  function LineGross(l: OrderLine): (r: Option<int>)
    ensures r.Some? <==> l.quantity >= 0 && l.price >= 0 && Gross(l) <= MAX_INT64
    ensures r.Some? ==> r.value == Gross(l) >= 0
  {
    CheckedMultiply(l.quantity, l.price)
  }

  lemma GoodNext(lines: seq<OrderLine>, i: nat)
    requires i < |lines| && GoodLines(lines[..i])
    ensures GoodLine(lines[i]) <==> lines[i].quantity > 0 && lines[i].price >= 0 && 0 <= lines[i].discount <= Gross(lines[i])
    ensures GoodLine(lines[i]) ==> GoodLines(lines[..i + 1])
  {
  }

  lemma BadLine(lines: seq<OrderLine>, i: nat, shipping: int, tax: int)
    requires i < |lines| && !GoodLine(lines[i])
    ensures TotalsOf(lines, shipping, tax).None?
  {
  }

  lemma TotalsAre(lines: seq<OrderLine>, shipping: int, tax: int)
    requires lines != [] && GoodLines(lines) && SumOf(Grosses(lines)) <= MAX_INT64 && shipping >= 0 && tax >= 0
    ensures var total := SumOf(Grosses(lines)) - SumOf(Discounts(lines)) + shipping + tax;
            TotalsOf(lines, shipping, tax)
            == if total <= MAX_INT64 then Some(Totals(SumOf(Grosses(lines)), SumOf(Discounts(lines)), shipping, tax, total)) else None
  {
    hide GoodLines, SumOf;
  }

  /** CalculateTotals: one checked pass over the lines. */
  method CalculateTotals(lines: seq<OrderLine>, shipping: int, tax: int) returns (r: Option<Totals>)
    ensures r == TotalsOf(lines, shipping, tax)
  {
    if |lines| == 0 { return None; }
    if shipping < 0 || tax < 0 { return None; }
    var subtotal, discount := 0, 0;
    NoLineSums();
    NoLinesGood();
    hide *;
    for i := 0 to |lines|
      invariant GoodLines(lines[..i])
      invariant 0 <= discount == SumOf(Discounts(lines[..i])) <= subtotal
      invariant subtotal == SumOf(Grosses(lines[..i])) <= MAX_INT64
    {
      var line := lines[i];
      LineNext(lines, i);
      GoodNext(lines, i);
      if line.quantity <= 0 || line.price < 0 || line.discount < 0 {
        BadLine(lines, i, shipping, tax);
        return None;
      }
      var gross := LineGross(line);
      if gross.None? {
        LineOverflowStays(lines, i, shipping, tax);
        return None;
      }
      if line.discount > gross.value {
        BadLine(lines, i, shipping, tax);
        return None;
      }
      var sum := CheckedAdd(subtotal, gross.value);
      if sum.None? {
        GrossOverflowStays(lines, i + 1, shipping, tax);
        return None;
      }
      subtotal := sum.value;
      var sumDiscount := CheckedAdd(discount, line.discount);
      discount := sumDiscount.value;   // never refused: discounts do not exceed the subtotal
    }
    assert lines[..|lines|] == lines;
    r := AddUp(lines, subtotal, discount, shipping, tax);
  }

  /** The last two additions. */
  method AddUp(lines: seq<OrderLine>, subtotal: int, discount: int, shipping: int, tax: int) returns (r: Option<Totals>)
    requires lines != [] && GoodLines(lines) && shipping >= 0 && tax >= 0
    requires 0 <= discount == SumOf(Discounts(lines)) <= subtotal == SumOf(Grosses(lines)) <= MAX_INT64
    ensures r == TotalsOf(lines, shipping, tax)
  {
    TotalsAre(lines, shipping, tax);
    hide *;
    var net := CheckedAdd(subtotal - discount, shipping);
    if net.None? { return None; }
    var total := CheckedAdd(net.value, tax);
    if total.None? { return None; }
    return Some(Totals(subtotal, discount, shipping, tax, total.value));
  }

  // ---------- reconciliation ----------

  /** What reconcileOrderAmounts demands of lines and totals. */
  ghost predicate Reconciles(lines: seq<OrderLine>, t: Totals) {
    && (forall i :: 0 <= i < |lines| ==>
          && lines[i].quantity >= 0 && lines[i].price >= 0 && Gross(lines[i]) <= MAX_INT64
          && lines[i].total == Gross(lines[i]) - lines[i].discount
          && lines[i].discount >= 0 && lines[i].total >= 0)
    && SumOf(Grosses(lines)) == t.subtotal <= MAX_INT64
    && SumOf(Discounts(lines)) == t.discount
    && SumOf(Nets(lines)) == t.subtotal - t.discount
    && t.total == t.subtotal - t.discount + t.shipping + t.tax
  }

  lemma {:induction false} SplitSums(lines: seq<OrderLine>)
    requires forall i :: 0 <= i < |lines| ==>
               lines[i].total == Gross(lines[i]) - lines[i].discount && lines[i].discount >= 0 && lines[i].total >= 0
    ensures SumOf(Nets(lines)) == SumOf(Grosses(lines)) - SumOf(Discounts(lines))
    ensures SumOf(Discounts(lines)) >= 0 && SumOf(Nets(lines)) >= 0
  {
    NoLineSums();
    hide SumOf, Grosses, Discounts, Nets;
    if lines != [] {
      var n := |lines| - 1;
      SplitSums(lines[..n]);
      LineNext(lines, n);
      assert lines[..n + 1] == lines;
    }
  }

  lemma ReconcileFails(lines: seq<OrderLine>, k: nat, t: Totals)
    requires k <= |lines| && SumOf(Grosses(lines[..k])) > MAX_INT64
    ensures !Reconciles(lines, t)
  {
    if Reconciles(lines, t) {
      GrossPrefix(lines, k);
    }
  }

  method ReconcileOrderAmounts(lines: seq<OrderLine>, t: Totals) returns (ok: bool)
    ensures ok <==> Reconciles(lines, t)
  {
    var gross, discount, net := 0, 0, 0;
    NoLineSums();
    hide SumOf, Grosses, Discounts, Nets, Gross;
    for i := 0 to |lines|
      invariant forall j :: 0 <= j < i ==>
          && lines[j].quantity >= 0 && lines[j].price >= 0 && Gross(lines[j]) <= MAX_INT64
          && lines[j].total == Gross(lines[j]) - lines[j].discount
          && lines[j].discount >= 0 && lines[j].total >= 0
      invariant gross == SumOf(Grosses(lines[..i])) <= MAX_INT64 && gross == discount + net
      invariant 0 <= discount == SumOf(Discounts(lines[..i]))
      invariant 0 <= net == SumOf(Nets(lines[..i]))
    {
      var line := lines[i];
      LineNext(lines, i);
      var lineGross := LineGross(line);
      if lineGross.None? || line.total != lineGross.value - line.discount { return false; }
      var g := CheckedAdd(gross, lineGross.value);
      if g.None? {
        ReconcileFails(lines, i + 1, t);
        return false;
      }
      gross := g.value;
      var d := CheckedAdd(discount, line.discount);
      if d.None? {
        assert line.discount < 0 || line.total < 0;
        return false;
      }
      discount := d.value;
      var n := CheckedAdd(net, line.total);
      if n.None? {
        assert line.total < 0;
        return false;
      }
      net := n.value;
    }
    assert lines[..|lines|] == lines;
    return gross == t.subtotal && discount == t.discount && net == t.subtotal - t.discount
           && t.total == t.subtotal - t.discount + t.shipping + t.tax;
  }

  datatype Order = Order(lines: seq<OrderLine>, subtotal: int, discount: int, shipping: int, tax: int, total: int)

  /** reconcileStoredOrder: the store recomputes the totals from the lines before it inserts the order. */
  ghost predicate StoreAccepts(o: Order) {
    match TotalsOf(o.lines, o.shipping, o.tax)
    case None => false
    case Some(t) => t.subtotal == o.subtotal && t.discount == o.discount && t.total == o.total && Reconciles(o.lines, t)
  }

  method ReconcileStoredOrder(o: Order) returns (ok: bool)
    ensures ok <==> StoreAccepts(o)
  {
    var totals := CalculateTotals(o.lines, o.shipping, o.tax);
    if totals.None? { return false; }
    var t := totals.value;
    if t.subtotal != o.subtotal || t.discount != o.discount || t.total != o.total { return false; }
    ok := ReconcileOrderAmounts(o.lines, t);
  }
}
