/** buildCheckoutOrder (templates/commerce/internal/order/service.go): price the cart, spread the coupon and
    the tax over the lines, total and reconcile. */
module CheckoutBuild {
  import opened Common
  import opened Text
  import opened OrderMoney
  import opened Checkout

  datatype Snapshot = Snapshot(sku: string, title: string, price: int, currency: string)

  datatype CartLine = CartLine(sku: string, quantity: int)

  /** The customer's address as it decodes: not a JSON object, an object whose codes are no texts, or the codes. */
  datatype Address = NotAnObject | WrongTypes | Address(country: string, province: string, region: string)

  datatype Customer = Customer(id: string, email: string, name: string, address: Address)

  /** `owner` is the cart's customer. */
  datatype Request = Request(owner: string, currency: string, cart: seq<CartLine>, snapshots: seq<Snapshot>,
                             coupon: string, customer: Customer)

  predicate CustomerOk(q: Request) {
    && q.customer.id == q.owner && Trim(q.customer.email) != "" && Trim(q.customer.name) != ""
    && !q.customer.address.NotAnObject?
  }

  /** The country code as the tax policy reads it. */
  function Country(q: Request): string {
    if q.customer.address.Address? then Code(q.customer.address.country) else ""
  }

  function Region(q: Request): string {
    if q.customer.address.Address? then Code(Subdivision(q.customer.address)) else ""
  }

  /** The province, or else the region. */
  function Subdivision(a: Address): string
    requires a.Address?
  {
    if a.province != "" then a.province else a.region
  }

  function Code(s: string): string { Upper(Trim(s)) }

  /** The rate in basis points of a known country. */
  function Rate(country: string, region: string): int {
    if country == "CN" then 1300
    else if country == "US" then if region in {"OR", "DE", "MT", "NH"} then 0 else 725
    else if country == "GB" then 2000
    else 1000
  }

  lemma RateKnown(country: string, region: string)
    ensures Rate(country, region) in {0, 725, 1000, 1300, 2000}
  {
  }

  function RateOf(q: Request): int {
    Rate(Country(q), Region(q))
  }

  /** The tax on a net amount, rounded down. */
  function TaxDue(q: Request, net: int): int {
    Scaled(net, RateOf(q)) / 10000
  }

  predicate TaxFits(q: Request, net: int) {
    Scaled(net, RateOf(q)) <= MAX_INT64
  }

  function RegionalTax(country: string, region: string, taxable: int): (r: Option<(int, int)>)
    ensures r.Some? <==> taxable >= 0 && Code(country) != "" && Scaled(taxable, Rate(Code(country), Code(region))) <= MAX_INT64
    ensures r.Some? ==> r.value.0 == Rate(Code(country), Code(region)) && 0 <= r.value.1 <= taxable
                        && 10000 * r.value.1 <= Scaled(taxable, r.value.0) < 10000 * (r.value.1 + 1)
  {
    if taxable < 0 || Code(country) == "" then None
    else
      var rate := Rate(Code(country), Code(region));
      RateKnown(Code(country), Code(region));
      ScaledBound(taxable, rate);
      assert taxable != 0 ==> (rate > MAX_INT64 / taxable <==> Scaled(taxable, rate) > MAX_INT64) by {
        if taxable != 0 { ScaledFits(taxable, rate); }
      }
      if taxable != 0 && rate > MAX_INT64 / taxable then None else Some((rate, Scaled(taxable, rate) / 10000))
  }

  /** The tax policy: rates in basis points by country and, in the United States, by state. */
  lemma TaxPolicy(country: string, region: string)
    ensures Code(country) == "CN" ==> Rate(Code(country), Code(region)) == 1300
    ensures Code(country) == "GB" ==> Rate(Code(country), Code(region)) == 2000
    ensures Code(country) == "US" ==> Rate(Code(country), Code(region)) == if Code(region) in {"OR", "DE", "MT", "NH"} then 0 else 725
    ensures Code(country) !in {"CN", "GB", "US"} ==> Rate(Code(country), Code(region)) == 1000
  {
    hide Rate, Code;
    RateTable(Code(country), Code(region));
  }

  lemma RateTable(country: string, region: string)
    ensures country == "CN" ==> Rate(country, region) == 1300
    ensures country == "GB" ==> Rate(country, region) == 2000
    ensures country == "US" ==> Rate(country, region) == if region in {"OR", "DE", "MT", "NH"} then 0 else 725
    ensures country !in {"CN", "GB", "US"} ==> Rate(country, region) == 1000
  {
  }

  /** Codes are read whatever their case and the spaces around them. */
  lemma CodesFolded(before: string, code: string, after: string)
    requires AllSpaces(before) && AllSpaces(after) && Trimmed(code)
    ensures Code(before + code + after) == Code(code) && |Code(code)| == |code|
    ensures forall i :: 0 <= i < |code| ==>
              && ('a' <= code[i] <= 'z' ==> Code(code)[i] == code[i] - 'a' + 'A')
              && (code[i] < 'a' ==> Code(code)[i] == code[i])
              && (code[i] == '\U{0131}' ==> Code(code)[i] == 'I') && (code[i] == '\U{017F}' ==> Code(code)[i] == 'S')
  {
    TrimMeaning(before, code, after);
    hide Trim, AllSpaces, Trimmed;
  }

  /** The province decides the state, and the region only where there is no province. */
  lemma PlaceDecides(q: Request)
    requires q.customer.address.Address? && Code(q.customer.address.country) == "US"
    ensures var a := q.customer.address;
            RateOf(q) == if Code(if a.province == "" then a.region else a.province) in {"OR", "DE", "MT", "NH"} then 0 else 725
  {
    hide Code;
  }

  // ---------- what is asked for ----------

  predicate CatalogOk(snapshots: seq<Snapshot>, currency: string) {
    && (forall i :: 0 <= i < |snapshots| ==>
          snapshots[i].sku != "" && snapshots[i].title != "" && snapshots[i].price >= 0 && snapshots[i].currency == currency)
    && (forall i, j :: 0 <= i < j < |snapshots| ==> snapshots[i].sku != snapshots[j].sku)
  }

  /** SKU to price. */
  function Prices(snapshots: seq<Snapshot>): map<string, int> {
    if snapshots == [] then map[]
    else
      var last := snapshots[|snapshots| - 1];
      Prices(snapshots[..|snapshots| - 1])[last.sku := last.price]
  }

  /** Some snapshot of the catalog has the SKU at this price. */
  predicate CatalogPrice(snapshots: seq<Snapshot>, sku: string, price: int) {
    exists j :: 0 <= j < |snapshots| && snapshots[j].sku == sku && snapshots[j].price == price
  }

  /** In a valid catalog a SKU is priced exactly when some snapshot has it, and at that snapshot's price. */
  lemma {:induction false} PricesMeaning(snapshots: seq<Snapshot>, sku: string)
    requires forall i, j :: 0 <= i < j < |snapshots| ==> snapshots[i].sku != snapshots[j].sku
    ensures sku in Prices(snapshots) <==> exists j :: 0 <= j < |snapshots| && snapshots[j].sku == sku
    ensures forall price :: CatalogPrice(snapshots, sku, price) <==> sku in Prices(snapshots) && Prices(snapshots)[sku] == price
  {
    if snapshots != [] {
      var n := |snapshots| - 1;
      PricesMeaning(snapshots[..n], sku);
      forall price ensures CatalogPrice(snapshots, sku, price) <==>
          CatalogPrice(snapshots[..n], sku, price) || (snapshots[n].sku == sku && snapshots[n].price == price) {
        if j :| 0 <= j < n && snapshots[j].sku == sku && snapshots[j].price == price { assert snapshots[..n][j] == snapshots[j]; }
      }
      if j :| 0 <= j < n && snapshots[j].sku == sku { assert snapshots[..n][j] == snapshots[j]; }
    }
  }

  /** A priced line before coupon and tax. */
  function Bare(c: CartLine, prices: map<string, int>): OrderLine {
    var price := if c.sku in prices then prices[c.sku] else 0;
    OrderLine(c.sku, c.quantity, price, 0, c.quantity * price, 0, 0)
  }

  function BareLines(cart: seq<CartLine>, prices: map<string, int>): (r: seq<OrderLine>)
    ensures |r| == |cart| && forall i :: 0 <= i < |r| ==> r[i] == Bare(cart[i], prices)
  {
    seq(|cart|, i requires 0 <= i < |cart| => Bare(cart[i], prices))
  }

  function CouponRate(coupon: string): int { if coupon == "" then 0 else 1000 }

  /** When an order can be built, told from the request alone: everything is known, wanted and priced, and
      the three products the source forms fit int64. */
  ghost predicate Buildable(q: Request) {
    && CustomerOk(q) && CatalogOk(q.snapshots, q.currency) && q.cart != []
    && (forall i :: 0 <= i < |q.cart| ==> q.cart[i].sku in Prices(q.snapshots) && q.cart[i].quantity > 0)
    && q.coupon in {"", "WELCOME10"} && Country(q) != ""
    && var gross := SumOf(Grosses(BareLines(q.cart, Prices(q.snapshots))));
    && gross <= MAX_INT64
    && Scaled(gross, CouponRate(q.coupon)) <= MAX_INT64
    && Scaled(gross - Scaled(gross, CouponRate(q.coupon)) / 10000, RateOf(q)) <= MAX_INT64
  }

  /** No order for somebody else's cart, for a customer who cannot be written to, or with an address that names no
      country. */
  lemma CustomerRefused(q: Request)
    requires q.customer.id != q.owner || Trim(q.customer.email) == "" || Trim(q.customer.name) == ""
          || !q.customer.address.Address? || Trim(q.customer.address.country) == ""
    ensures !Buildable(q)
  {
    hide Trim, CatalogOk, BareLines, SumOf;
  }

  /** A cart line at its catalog price, its discount taken off. */
  predicate LineDiscounted(q: Request, c: CartLine, l: OrderLine) {
    && l.sku == c.sku && l.quantity == c.quantity >= 0
    && l.sku in Prices(q.snapshots) && l.price == Prices(q.snapshots)[l.sku] >= 0
    && l.total == Gross(l) - l.discount
    && 0 <= l.discount <= Gross(l) <= MAX_INT64
  }

  predicate LineTaxed(rate: int, l: OrderLine) {
    l.taxRate == rate && 0 <= l.tax <= l.total
  }

  /** The promises about a built order. */
  ghost predicate WellPriced(q: Request, o: Order) {
    var rate := RateOf(q);
    && |o.lines| == |q.cart| > 0 && o.subtotal <= MAX_INT64 && o.total <= MAX_INT64
    && (forall i :: 0 <= i < |o.lines| ==>
          LineDiscounted(q, q.cart[i], o.lines[i]) && LineTaxed(rate, o.lines[i]) && GoodLine(o.lines[i]))
    && o.subtotal == SumOf(Grosses(o.lines))
    && IsAllocation(Grosses(o.lines), CouponRate(q.coupon), Discounts(o.lines))
    && o.discount == SumOf(Discounts(o.lines)) == Scaled(o.subtotal, CouponRate(q.coupon)) / 10000
    && SumOf(Nets(o.lines)) == o.subtotal - o.discount
    && IsAllocation(Nets(o.lines), rate, Taxes(o.lines))
    && o.tax == SumOf(Taxes(o.lines)) == Scaled(o.subtotal - o.discount, rate) / 10000
    && o.shipping == (if o.subtotal >= 10000 then 0 else 800)
    && o.total == o.subtotal - o.discount + o.shipping + o.tax
  }

  // ---------- the steps ----------

  /** The snapshot loop. */
  method IndexSnapshots(snapshots: seq<Snapshot>, currency: string) returns (r: Option<map<string, int>>)
    ensures r.Some? <==> CatalogOk(snapshots, currency)
    ensures r.Some? ==> r.value == Prices(snapshots)
    ensures r.Some? ==> forall sku, price :: CatalogPrice(snapshots, sku, price) <==> sku in r.value && r.value[sku] == price
  {
    var bySku: map<string, int> := map[];
    for i := 0 to |snapshots|
      invariant CatalogOk(snapshots[..i], currency)
      invariant bySku == Prices(snapshots[..i])
      invariant forall x :: x in bySku <==> exists j :: 0 <= j < i && snapshots[j].sku == x
    {
      var s := snapshots[i];
      assert snapshots[..i + 1][..i] == snapshots[..i];
      if s.sku == "" || s.title == "" || s.price < 0 || s.currency != currency { return None; }
      if s.sku in bySku { return None; }
      bySku := bySku[s.sku := s.price];
      assert forall j :: 0 <= j < i ==> snapshots[..i + 1][j] == snapshots[..i][j];
    }
    assert snapshots[..|snapshots|] == snapshots;
    forall sku, price ensures CatalogPrice(snapshots, sku, price) <==> sku in bySku && bySku[sku] == price {
      PricesMeaning(snapshots, sku);
    }
    return Some(bySku);
  }

  lemma PricesNonNegative(snapshots: seq<Snapshot>)
    requires forall i :: 0 <= i < |snapshots| ==> snapshots[i].price >= 0
    ensures forall x :: x in Prices(snapshots) ==> Prices(snapshots)[x] >= 0
  {
    if snapshots != [] { PricesNonNegative(snapshots[..|snapshots| - 1]); }
  }

  /** The line loop: None when a SKU is unknown or a line's gross amount is refused. */
  method PriceLines(cart: seq<CartLine>, prices: map<string, int>) returns (r: Option<seq<OrderLine>>)
    requires forall x :: x in prices ==> prices[x] >= 0
    ensures r.Some? <==> forall i :: 0 <= i < |cart| ==>
              cart[i].sku in prices && cart[i].quantity >= 0 && Gross(Bare(cart[i], prices)) <= MAX_INT64
    ensures r.Some? ==> r.value == BareLines(cart, prices)
  {
    var lines := [];
    for i := 0 to |cart|
      invariant lines == BareLines(cart[..i], prices)
      invariant forall j :: 0 <= j < i ==>
                  cart[j].sku in prices && cart[j].quantity >= 0 && Gross(Bare(cart[j], prices)) <= MAX_INT64
    {
      var c := cart[i];
      if c.sku !in prices { return None; }
      var gross := CheckedMultiply(c.quantity, prices[c.sku]);
      if gross.None? { return None; }
      lines := lines + [OrderLine(c.sku, c.quantity, prices[c.sku], 0, gross.value, 0, 0)];
    }
    assert cart[..|cart|] == cart;
    return Some(lines);
  }

  /** Line i discounted by a[i]. */
  function Discounted(lines: seq<OrderLine>, a: seq<int>): (r: seq<OrderLine>)
    requires |a| == |lines|
    ensures |r| == |lines| && forall i :: 0 <= i < |r| ==> r[i] == lines[i].(discount := a[i], total := lines[i].total - a[i])
  {
    seq(|lines|, i requires 0 <= i < |lines| => lines[i].(discount := a[i], total := lines[i].total - a[i]))
  }

  function Taxed(lines: seq<OrderLine>, rate: int, a: seq<int>): (r: seq<OrderLine>)
    requires |a| == |lines|
    ensures |r| == |lines| && forall i :: 0 <= i < |r| ==> r[i] == lines[i].(taxRate := rate, tax := a[i])
  {
    seq(|lines|, i requires 0 <= i < |lines| => lines[i].(taxRate := rate, tax := a[i]))
  }

  lemma RateZero(amounts: seq<int>)
    requires forall i :: 0 <= i < |amounts| ==> amounts[i] >= 0
    ensures IsAllocation(amounts, 0, seq(|amounts|, _ => 0))
  {
    var zeros := seq(|amounts|, _ => 0);
    ZeroSum(zeros);
  }

  lemma {:induction false} ZeroSum(s: seq<int>)
    requires forall i :: 0 <= i < |s| ==> s[i] == 0
    ensures SumOf(s) == 0
  {
    if s != [] { ZeroSum(s[..|s| - 1]); }
  }

  /** The coupon block: an allocation of the coupon's rate over the gross amounts, written into the lines. */
  method ApplyCoupon(lines: seq<OrderLine>, coupon: string) returns (r: Option<seq<OrderLine>>)
    requires forall i :: 0 <= i < |lines| ==> lines[i].discount == 0 && lines[i].total == Gross(lines[i]) >= 0
    ensures r.Some? <==> coupon == "" || (coupon == "WELCOME10" && Allocatable(Grosses(lines), 1000))
    ensures r.Some? ==> exists a :: IsAllocation(Grosses(lines), CouponRate(coupon), a) && r.value == Discounted(lines, a)
  {
    if coupon == "" {
      RateZero(Grosses(lines));
      assert lines == Discounted(lines, seq(|lines|, _ => 0));
      return Some(lines);
    }
    if coupon != "WELCOME10" { return None; }
    var a := AllocatePercentageDiscount(Grosses(lines), 1000);
    if a.None? { return None; }
    hide IsAllocation, Allocatable, Grosses, Gross;
    var result := WriteDiscounts(lines, a.value);
    return Some(result);
  }

  method WriteDiscounts(lines: seq<OrderLine>, a: seq<int>) returns (r: seq<OrderLine>)
    requires |a| == |lines|
    ensures r == Discounted(lines, a)
  {
    r := lines;
    for i := 0 to |lines|
      invariant |r| == |lines| && r[..i] == Discounted(lines[..i], a[..i]) && r[i..] == lines[i..]
    {
      assert r[i] == lines[i];
      r := r[i := r[i].(discount := a[i], total := r[i].total - a[i])];
    }
    assert lines[..|lines|] == lines && a[..|lines|] == a;
  }

  method WriteTaxes(lines: seq<OrderLine>, rate: int, a: seq<int>) returns (r: seq<OrderLine>)
    requires |a| == |lines|
    ensures r == Taxed(lines, rate, a)
  {
    r := lines;
    for i := 0 to |lines|
      invariant |r| == |lines| && r[..i] == Taxed(lines[..i], rate, a[..i]) && r[i..] == lines[i..]
    {
      assert r[i] == lines[i];
      r := r[i := r[i].(taxRate := rate, tax := a[i])];
    }
    assert lines[..|lines|] == lines && a[..|lines|] == a;
  }

  predicate SmallLines(lines: seq<OrderLine>) {
    forall i :: 0 <= i < |lines| ==> lines[i].quantity >= 0 && lines[i].price >= 0 && Gross(lines[i]) <= MAX_INT64
  }

  /** The checked pre-total of the gross amounts. */
  method Preliminary(lines: seq<OrderLine>) returns (r: Option<int>)
    requires SmallLines(lines)
    ensures r.Some? <==> SumOf(Grosses(lines)) <= MAX_INT64
    ensures r.Some? ==> r.value == SumOf(Grosses(lines)) >= 0
  {
    var sum := 0;
    NoLineSums();
    forall i | 0 <= i < |lines| ensures Gross(lines[i]) >= 0 { GrossSign(lines[i]); }
    hide *;
    for i := 0 to |lines|
      invariant 0 <= sum == SumOf(Grosses(lines[..i])) <= MAX_INT64
    {
      LineNext(lines, i);
      var gross := LineGross(lines[i]);
      var next := CheckedAdd(sum, gross.value);
      if next.None? {
        GrossPrefix(lines, i + 1);
        return None;
      }
      sum := next.value;
    }
    assert lines[..|lines|] == lines;
    return Some(sum);
  }

  /** The taxable amount: the pre-total less every line's discount. */
  method Taxable(lines: seq<OrderLine>, preliminary: int) returns (r: int)
    ensures r == preliminary - SumOf(Discounts(lines))
  {
    r := preliminary;
    NoLineSums();
    hide *;
    for i := 0 to |lines|
      invariant r == preliminary - SumOf(Discounts(lines[..i]))
    {
      LineNext(lines, i);
      r := r - lines[i].discount;
    }
    assert lines[..|lines|] == lines;
  }

  // ---------- the stages of an order ----------

  /** The cart's lines priced, with the coupon spread over them. */
  ghost predicate AfterCoupon(q: Request, lines: seq<OrderLine>) {
    && |lines| == |q.cart|
    && (forall i :: 0 <= i < |lines| ==> LineDiscounted(q, q.cart[i], lines[i]))
    && Grosses(lines) == Grosses(BareLines(q.cart, Prices(q.snapshots)))
    && IsAllocation(Grosses(lines), CouponRate(q.coupon), Discounts(lines))
  }

  /** And the tax. */
  ghost predicate AfterTax(q: Request, lines: seq<OrderLine>) {
    && AfterCoupon(q, lines)
    && (forall i :: 0 <= i < |lines| ==> LineTaxed(RateOf(q), lines[i]))
    && IsAllocation(Nets(lines), RateOf(q), Taxes(lines))
  }

  /** The part of Buildable that the line loop checks. */
  ghost predicate Priceable(q: Request) {
    forall i :: 0 <= i < |q.cart| ==>
      q.cart[i].sku in Prices(q.snapshots) && q.cart[i].quantity >= 0 && Gross(Bare(q.cart[i], Prices(q.snapshots))) <= MAX_INT64
  }

  lemma BareIs(q: Request, i: nat)
    requires CatalogOk(q.snapshots, q.currency) && Priceable(q) && i < |q.cart|
    ensures var l := BareLines(q.cart, Prices(q.snapshots))[i];
            && l.discount == 0 && l.total == Gross(l) && 0 <= Gross(l) <= MAX_INT64
            && l.quantity >= 0 && l.price == Prices(q.snapshots)[l.sku] >= 0
  {
    PricesNonNegative(q.snapshots);
  }

  lemma CouponStep(q: Request, a: seq<int>)
    requires CatalogOk(q.snapshots, q.currency) && Priceable(q)
    requires var bare := BareLines(q.cart, Prices(q.snapshots)); IsAllocation(Grosses(bare), CouponRate(q.coupon), a)
    ensures AfterCoupon(q, Discounted(BareLines(q.cart, Prices(q.snapshots)), a))
  {
    var bare := BareLines(q.cart, Prices(q.snapshots));
    var lines := Discounted(bare, a);
    forall i | 0 <= i < |bare|
      ensures Gross(lines[i]) == Gross(bare[i]) && Grosses(bare)[i] == Gross(bare[i]) && 0 <= a[i] <= Gross(bare[i])
      ensures bare[i].total == Gross(bare[i]) <= MAX_INT64 && bare[i].quantity >= 0 && bare[i].price >= 0
    {
      BareIs(q, i);
    }
    hide Gross, IsAllocation, Priceable, CatalogOk;
    assert Grosses(lines) == Grosses(bare);
    assert Discounts(lines) == a;
  }

  lemma TaxStep(q: Request, lines: seq<OrderLine>, a: seq<int>)
    requires AfterCoupon(q, lines) && IsAllocation(Nets(lines), RateOf(q), a)
    ensures AfterTax(q, Taxed(lines, RateOf(q), a))
    ensures var taxed := Taxed(lines, RateOf(q), a);
            Grosses(taxed) == Grosses(lines) && Discounts(taxed) == Discounts(lines) && Nets(taxed) == Nets(lines)
  {
    var taxed := Taxed(lines, RateOf(q), a);
    forall i | 0 <= i < |lines| ensures Gross(taxed[i]) == Gross(lines[i]) && 0 <= a[i] <= lines[i].total {
      assert Nets(lines)[i] == lines[i].total;
    }
    hide Gross, IsAllocation, RateOf;
    assert Grosses(taxed) == Grosses(lines) && Discounts(taxed) == Discounts(lines) && Nets(taxed) == Nets(lines);
    assert Taxes(taxed) == a;
  }

  /** The sums after the coupon: the discount is the exact share rounded down, and the lines' totals are
      what is left, which is also the taxable amount. */
  lemma CouponSums(q: Request, lines: seq<OrderLine>)
    requires AfterCoupon(q, lines)
    ensures SumOf(Discounts(lines)) == Scaled(SumOf(Grosses(lines)), CouponRate(q.coupon)) / 10000
    ensures SumOf(Nets(lines)) == SumOf(Grosses(lines)) - SumOf(Discounts(lines))
    ensures 0 <= SumOf(Discounts(lines)) && 0 <= SumOf(Nets(lines))
    ensures forall i :: 0 <= i < |Nets(lines)| ==> Nets(lines)[i] >= 0
  {
    hide Gross, Scaled, SumOf;
    SplitSums(lines);
  }

  lemma RateBounds(net: int, rate: int)
    requires net >= 0 && rate in {0, 725, 1000, 1300, 2000}
    ensures if rate == 0 then Scaled(net, rate) == 0 else 725 * net <= Scaled(net, rate) <= 2000 * net
  {
  }

  /** Neither adding shipping nor tax can overflow once the tax product fits. */
  lemma NoTotalOverflow(subtotal: int, discount: int, tax: int, rate: int)
    requires 0 <= discount && 0 <= subtotal - discount && subtotal <= MAX_INT64
    requires rate in {0, 725, 1000, 1300, 2000}
    requires Scaled(subtotal - discount, rate) <= MAX_INT64 && tax == Scaled(subtotal - discount, rate) / 10000
    ensures subtotal - discount + (if subtotal >= 10000 then 0 else 800) + tax <= MAX_INT64
    ensures tax >= 0
  {
    var net := subtotal - discount;
    RateBounds(net, rate);
    hide Scaled;
  }

  lemma OrderTotalFits(q: Request, subtotal: int, discount: int, tax: int)
    requires 0 <= discount && 0 <= subtotal - discount && subtotal <= MAX_INT64
    requires TaxFits(q, subtotal - discount) && tax == TaxDue(q, subtotal - discount)
    ensures subtotal - discount + (if subtotal >= 10000 then 0 else 800) + tax <= MAX_INT64
    ensures tax >= 0
  {
    RateKnown(Country(q), Region(q));
    NoTotalOverflow(subtotal, discount, tax, RateOf(q));
    hide Scaled, Rate;
  }

  /** The totals of taxed lines exist exactly when every quantity is positive. */
  lemma TaxedTotals(q: Request, lines: seq<OrderLine>, shipping: int, tax: int)
    requires AfterTax(q, lines) && lines != [] && SumOf(Grosses(lines)) <= MAX_INT64
    requires TaxFits(q, SumOf(Nets(lines))) && tax == TaxDue(q, SumOf(Nets(lines)))
    requires shipping == if SumOf(Grosses(lines)) >= 10000 then 0 else 800
    ensures TotalsOf(lines, shipping, tax).Some? <==> AllWanted(q)
  {
    hide *;
    TaxedIsDiscounted(q, lines);
    DiscountedSums(q, lines);
    OrderTotalFits(q, SumOf(Grosses(lines)), SumOf(Discounts(lines)), tax);
    GoodAfterCoupon(q, lines);
    TotalsExist(lines, shipping, tax);
  }

  lemma DiscountedSums(q: Request, lines: seq<OrderLine>)
    requires AfterCoupon(q, lines)
    ensures 0 <= SumOf(Discounts(lines)) && 0 <= SumOf(Nets(lines)) == SumOf(Grosses(lines)) - SumOf(Discounts(lines))
  {
    CouponSums(q, lines);
  }

  lemma TotalsExist(lines: seq<OrderLine>, shipping: int, tax: int)
    ensures TotalsOf(lines, shipping, tax).Some? <==>
              && lines != [] && shipping >= 0 && tax >= 0 && GoodLines(lines) && SumOf(Grosses(lines)) <= MAX_INT64
              && SumOf(Grosses(lines)) - SumOf(Discounts(lines)) + shipping + tax <= MAX_INT64
  {
  }

  lemma TaxedIsDiscounted(q: Request, lines: seq<OrderLine>)
    requires AfterTax(q, lines)
    ensures AfterCoupon(q, lines)
  {
  }

  lemma GoodAfterCoupon(q: Request, lines: seq<OrderLine>)
    requires AfterCoupon(q, lines)
    ensures GoodLines(lines) <==> AllWanted(q)
  {
    hide Gross, IsAllocation, Grosses, Prices, BareLines, CouponRate;
    if GoodLines(lines) {
      forall i | 0 <= i < |q.cart| ensures q.cart[i].quantity > 0 { assert GoodLine(lines[i]); }
    }
  }

  lemma TotalsValue(lines: seq<OrderLine>, shipping: int, tax: int)
    requires TotalsOf(lines, shipping, tax).Some?
    ensures GoodLines(lines) && lines != []
    ensures var t := TotalsOf(lines, shipping, tax).value;
            && t.total <= MAX_INT64
            && t.subtotal == SumOf(Grosses(lines)) <= MAX_INT64 && t.discount == SumOf(Discounts(lines))
            && t.shipping == shipping && t.tax == tax && t.total == t.subtotal - t.discount + shipping + tax
  {
  }

  /** The final reconciliation of a built order never rejects. */
  lemma ReconcilesItself(q: Request, lines: seq<OrderLine>, shipping: int, tax: int)
    requires AfterTax(q, lines) && TotalsOf(lines, shipping, tax).Some?
    ensures Reconciles(lines, TotalsOf(lines, shipping, tax).value)
  {
    CouponSums(q, lines);
    TotalsValue(lines, shipping, tax);
    hide Gross, SumOf, Scaled, IsAllocation, Rate, Grosses, Discounts, Nets, Prices, TotalsOf;
  }

  lemma BuiltIsWellPriced(q: Request, lines: seq<OrderLine>, shipping: int, tax: int)
    requires AfterTax(q, lines) && TotalsOf(lines, shipping, tax).Some?
    requires tax == TaxDue(q, SumOf(Nets(lines)))
    requires shipping == if SumOf(Grosses(lines)) >= 10000 then 0 else 800
    ensures var t := TotalsOf(lines, shipping, tax).value;
            WellPriced(q, Order(lines, t.subtotal, t.discount, t.shipping, t.tax, t.total))
  {
    hide Gross, SumOf, Scaled, Rate, Grosses, Discounts, Nets, Taxes, Prices, TotalsOf, LineDiscounted, LineTaxed, GoodLine, IsAllocation;
    CouponSums(q, lines);
    TotalsValue(lines, shipping, tax);
    AllocationTotal(Nets(lines), RateOf(q), Taxes(lines));
  }

  lemma AllocationTotal(amounts: seq<int>, bp: int, r: seq<int>)
    requires IsAllocation(amounts, bp, r)
    ensures SumOf(r) == Scaled(SumOf(amounts), bp) / 10000
  {
  }

  lemma GrossWithin(q: Request)
    requires CatalogOk(q.snapshots, q.currency) && Buildable(q)
    ensures Priceable(q)
  {
    PricesNonNegative(q.snapshots);
    var lines := BareLines(q.cart, Prices(q.snapshots));
    forall i | 0 <= i < |lines| ensures Gross(lines[i]) >= 0 { GrossSign(lines[i]); }
    forall i | 0 <= i < |lines| ensures Gross(lines[i]) <= MAX_INT64 {
      GrossPrefix(lines, i);
      LineNext(lines, i);
      GrossPrefix(lines, i + 1);
    }
  }

  /** When the discount of a known coupon can be allocated: there is something to discount and its product fits. */
  lemma CouponAllocatable(q: Request)
    requires CatalogOk(q.snapshots, q.currency) && Priceable(q)
    ensures var g := Grosses(BareLines(q.cart, Prices(q.snapshots)));
            Allocatable(g, 1000) <==> q.cart != [] && SumOf(g) <= MAX_INT64 && Scaled(SumOf(g), 1000) <= MAX_INT64
  {
    forall i | 0 <= i < |q.cart| ensures Gross(BareLines(q.cart, Prices(q.snapshots))[i]) >= 0 { BareIs(q, i); }
  }

  /** What can still refuse the discounted lines. */
  ghost predicate TaxesFit(q: Request, lines: seq<OrderLine>) {
    && SumOf(Grosses(lines)) <= MAX_INT64 && Country(q) != "" && lines != []
    && TaxFits(q, SumOf(Nets(lines))) && AllWanted(q)
  }

  predicate AllWanted(q: Request) {
    forall i :: 0 <= i < |q.cart| ==> q.cart[i].quantity > 0
  }

  lemma TaxesFitIs(q: Request, lines: seq<OrderLine>)
    ensures TaxesFit(q, lines) <==>
              && SumOf(Grosses(lines)) <= MAX_INT64 && Country(q) != "" && lines != []
              && TaxFits(q, SumOf(Nets(lines))) && AllWanted(q)
  {
  }

  lemma CouponRefused(q: Request)
    requires CatalogOk(q.snapshots, q.currency) && Priceable(q)
    requires !(q.coupon == "" || (q.coupon == "WELCOME10" && Allocatable(Grosses(BareLines(q.cart, Prices(q.snapshots))), 1000)))
    ensures !Buildable(q)
  {
    CouponAllocatable(q);
    hide SumOf, Scaled, Grosses, Allocatable, Prices;
  }

  lemma CouponAccepted(q: Request, lines: seq<OrderLine>)
    requires CatalogOk(q.snapshots, q.currency) && Priceable(q) && CustomerOk(q) && AfterCoupon(q, lines)
    requires q.coupon == "" || (q.coupon == "WELCOME10" && Allocatable(Grosses(BareLines(q.cart, Prices(q.snapshots))), 1000))
    ensures Buildable(q) <==> TaxesFit(q, lines)
  {
    hide SumOf, Scaled, Grosses, Nets, Discounts, Allocatable, Prices, RateOf, AfterCoupon, BareLines, Bare, CatalogOk, Priceable, Country, Region, CustomerOk;
    CouponFacts(q, lines);
    CouponSums(q, lines);
    CouponAllocatable(q);
    PriceableKnown(q);
    NoCoupon(SumOf(Grosses(lines)));
  }

  lemma PriceableKnown(q: Request)
    requires Priceable(q)
    ensures forall i :: 0 <= i < |q.cart| ==> q.cart[i].sku in Prices(q.snapshots)
  {
  }

  lemma NoCoupon(gross: int)
    ensures Scaled(gross, 0) == 0
  {
  }

  lemma TaxableIs(q: Request, lines: seq<OrderLine>)
    requires AfterCoupon(q, lines)
    ensures SumOf(Grosses(lines)) - SumOf(Discounts(lines)) == SumOf(Nets(lines)) >= 0
    ensures SmallLines(lines)
  {
    CouponSums(q, lines);
    CouponFacts(q, lines);
  }

  /** The rate and the tax of the customer's address. */
  method TaxOf(q: Request, taxable: int) returns (r: Option<(int, int)>)
    ensures r.Some? <==> taxable >= 0 && Country(q) != "" && TaxFits(q, taxable)
    ensures r.Some? ==> r.value == (RateOf(q), TaxDue(q, taxable))
  {
    var address := q.customer.address;
    if !address.Address? { return None; }
    hide Scaled, Code;
    r := RegionalTax(address.country, Subdivision(address), taxable);
  }

  /** The gross total and what of it is taxable. */
  method GrossAndTaxable(q: Request, lines: seq<OrderLine>) returns (r: Option<(int, int)>)
    requires AfterCoupon(q, lines)
    ensures r.Some? <==> SumOf(Grosses(lines)) <= MAX_INT64
    ensures r.Some? ==> r.value == (SumOf(Grosses(lines)), SumOf(Nets(lines))) && SumOf(Nets(lines)) >= 0
  {
    TaxableIs(q, lines);
    hide *;
    var preliminary := Preliminary(lines);
    if preliminary.None? { return None; }
    var taxable := Taxable(lines, preliminary.value);
    return Some((preliminary.value, taxable));
  }

  /** Shipping, tax, totals and reconciliation. */
  method FinishTaxes(q: Request, discounted: seq<OrderLine>) returns (r: Option<Order>)
    requires AfterCoupon(q, discounted)
    ensures r.Some? ==> WellPriced(q, r.value)
    ensures r.Some? <==> TaxesFit(q, discounted)
  {
    TaxesFitIs(q, discounted);
    hide *;
    var amounts := GrossAndTaxable(q, discounted);
    if amounts.None? { return None; }
    var (preliminary, taxable) := amounts.value;
    var regional := TaxOf(q, taxable);
    if regional.None? { return None; }
    var (rate, tax) := regional.value;
    var taxed := SpreadTax(q, discounted, rate);
    if taxed.None? { return None; }
    r := TotalAndReconcile(q, taxed.value, if preliminary >= 10000 then 0 else 800, tax);
  }

  /** The tax written into the lines. */
  method SpreadTax(q: Request, lines: seq<OrderLine>, rate: int) returns (r: Option<seq<OrderLine>>)
    requires AfterCoupon(q, lines) && SumOf(Grosses(lines)) <= MAX_INT64 && rate == RateOf(q)
    ensures r.Some? <==> lines != [] && TaxFits(q, SumOf(Nets(lines)))
    ensures r.Some? ==> AfterTax(q, r.value) && |r.value| == |lines|
                        && Grosses(r.value) == Grosses(lines) && Nets(r.value) == Nets(lines)
  {
    CouponFacts(q, lines);
    hide *;
    var nets := LineTotals(lines);
    TaxAllocatable(q, lines);
    var taxes := AllocatePercentageDiscount(nets, rate);
    if taxes.None? { return None; }
    AllocationLength(nets, rate, taxes.value);
    TaxStep(q, lines, taxes.value);
    var taxed := WriteTaxes(lines, rate, taxes.value);
    return Some(taxed);
  }

  method TotalAndReconcile(q: Request, lines: seq<OrderLine>, shipping: int, tax: int) returns (r: Option<Order>)
    requires AfterTax(q, lines) && lines != [] && SumOf(Grosses(lines)) <= MAX_INT64
    requires TaxFits(q, SumOf(Nets(lines))) && tax == TaxDue(q, SumOf(Nets(lines)))
    requires shipping == if SumOf(Grosses(lines)) >= 10000 then 0 else 800
    ensures r.Some? <==> AllWanted(q)
    ensures r.Some? ==> WellPriced(q, r.value)
  {
    hide *;
    TaxedTotals(q, lines, shipping, tax);
    var totals := CalculateTotals(lines, shipping, tax);
    if totals.None? { return None; }
    var t := totals.value;
    ReconcilesItself(q, lines, shipping, tax);
    BuiltIsWellPriced(q, lines, shipping, tax);
    var reconciled := ReconcileOrderAmounts(lines, t);
    assert reconciled;   // so the source's rejection here is unreachable
    return Some(Order(lines, t.subtotal, t.discount, t.shipping, t.tax, t.total));
  }

  /** Coupon, then the rest. */
  method FinishOrder(q: Request, bare: seq<OrderLine>) returns (r: Option<Order>)
    requires CatalogOk(q.snapshots, q.currency) && Priceable(q) && bare == BareLines(q.cart, Prices(q.snapshots))
    ensures r.Some? ==> WellPriced(q, r.value)
    ensures CustomerOk(q) ==> (r.Some? <==> Buildable(q))
  {
    forall i | 0 <= i < |bare| ensures bare[i].discount == 0 && bare[i].total == Gross(bare[i]) >= 0 { BareIs(q, i); }
    hide *;
    var discounted := ApplyCoupon(bare, q.coupon);
    if discounted.None? {
      CouponRefused(q);
      return None;
    }
    var lines := discounted.value;
    ghost var a :| IsAllocation(Grosses(bare), CouponRate(q.coupon), a) && lines == Discounted(bare, a);
    CouponStep(q, a);
    if CustomerOk(q) { CouponAccepted(q, lines); }
    r := FinishTaxes(q, lines);
  }

  method LineTotals(lines: seq<OrderLine>) returns (r: seq<int>)
    ensures r == Nets(lines)
  {
    r := [];
    for i := 0 to |lines|
      invariant r == Nets(lines[..i])
    {
      assert lines[..i + 1] == lines[..i] + [lines[i]];
      r := r + [lines[i].total];
    }
    assert lines[..|lines|] == lines;
  }

  lemma AllocationLength(amounts: seq<int>, bp: int, r: seq<int>)
    requires IsAllocation(amounts, bp, r)
    ensures |r| == |amounts|
  {
  }

  lemma CouponFacts(q: Request, lines: seq<OrderLine>)
    requires AfterCoupon(q, lines)
    ensures |lines| == |q.cart| && Grosses(lines) == Grosses(BareLines(q.cart, Prices(q.snapshots))) && |Nets(lines)| == |lines|
    ensures SmallLines(lines)
  {
  }

  /** The tax can be spread over the lines whenever it could be computed at all, unless there are none. */
  lemma TaxAllocatable(q: Request, lines: seq<OrderLine>)
    requires AfterCoupon(q, lines) && SumOf(Grosses(lines)) <= MAX_INT64
    ensures Allocatable(Nets(lines), RateOf(q)) <==> lines != [] && TaxFits(q, SumOf(Nets(lines)))
  {
    CouponSums(q, lines);
    hide Gross, SumOf, Scaled, IsAllocation, Grosses, Discounts, Prices;
  }

  /** buildCheckoutOrder. MAIN THEOREM in its contract: an order comes out exactly when the request is
      Buildable, so none of the later checks, the final reconciliation included, ever rejects; and what
      comes out is WellPriced, every line at its catalog price. */
  method BuildCheckoutOrder(q: Request) returns (r: Option<Order>)
    ensures r.Some? <==> Buildable(q)
    ensures r.Some? ==> WellPriced(q, r.value)
    ensures r.Some? ==> forall i :: 0 <= i < |r.value.lines| ==>
              CatalogPrice(q.snapshots, r.value.lines[i].sku, r.value.lines[i].price)
  {
    if !CustomerOk(q) { return None; }
    var prices := IndexSnapshots(q.snapshots, q.currency);
    if prices.None? { return None; }
    PricesNonNegative(q.snapshots);
    if Buildable(q) { GrossWithin(q); }
    var bare := PriceLines(q.cart, prices.value);
    if bare.None? { return None; }
    hide Buildable, WellPriced, CatalogPrice;
    r := FinishOrder(q, bare.value);
    if r.Some? { CatalogPriced(q, r.value); }
  }

  lemma CatalogPriced(q: Request, o: Order)
    requires CatalogOk(q.snapshots, q.currency) && WellPriced(q, o)
    ensures forall i :: 0 <= i < |o.lines| ==> CatalogPrice(q.snapshots, o.lines[i].sku, o.lines[i].price)
  {
    forall i | 0 <= i < |o.lines| ensures CatalogPrice(q.snapshots, o.lines[i].sku, o.lines[i].price) {
      assert LineDiscounted(q, q.cart[i], o.lines[i]);
      PricesMeaning(q.snapshots, o.lines[i].sku);
    }
    hide Prices, IsAllocation, SumOf, Scaled, Gross;
  }

  // ---------- the store's re-check ----------

  /** The store re-reads the order with its lines in another order and still accepts it. */
  lemma StoreAcceptsAnyOrder(q: Request, o: Order, lines: seq<OrderLine>)
    requires WellPriced(q, o) && multiset(lines) == multiset(o.lines)
    ensures StoreAccepts(o.(lines := lines))
  {
    forall i | 0 <= i < |lines|
      ensures GoodLine(lines[i]) && lines[i].total == Gross(lines[i]) - lines[i].discount && lines[i].tax >= 0
    {
      assert lines[i] in multiset(o.lines);
      var j :| 0 <= j < |o.lines| && o.lines[j] == lines[i];
    }
    assert o.lines[0] in multiset(lines);
    WellPricedSums(q, o);
    SamePermutedSums(lines, o.lines);
    Acceptable(o.(lines := lines));
  }

  lemma {:induction false} TaxesNonNegative(lines: seq<OrderLine>)
    requires forall i :: 0 <= i < |lines| ==> lines[i].tax >= 0
    ensures SumOf(Taxes(lines)) >= 0
  {
    NoLineSums();
    hide SumOf, Taxes;
    if lines != [] {
      LineSums(lines);
      TaxesNonNegative(lines[..|lines| - 1]);
    }
  }

  lemma WellPricedSums(q: Request, o: Order)
    requires WellPriced(q, o)
    ensures o.subtotal == SumOf(Grosses(o.lines)) <= MAX_INT64 && o.discount == SumOf(Discounts(o.lines))
    ensures SumOf(Nets(o.lines)) == o.subtotal - o.discount && o.shipping >= 0 && o.tax >= 0
    ensures o.total == o.subtotal - o.discount + o.shipping + o.tax <= MAX_INT64
  {
    hide SumOf, Grosses, Discounts, Nets, Taxes, Scaled, Prices, RateOf, IsAllocation, Gross;
    TaxesNonNegative(o.lines);
  }

  /** What the store's re-check needs of an order. */
  lemma Acceptable(o: Order)
    requires o.lines != [] && o.shipping >= 0 && o.tax >= 0
    requires forall i :: 0 <= i < |o.lines| ==> GoodLine(o.lines[i]) && o.lines[i].total == Gross(o.lines[i]) - o.lines[i].discount
    requires o.subtotal == SumOf(Grosses(o.lines)) <= MAX_INT64 && o.discount == SumOf(Discounts(o.lines))
    requires SumOf(Nets(o.lines)) == o.subtotal - o.discount
    requires o.total == o.subtotal - o.discount + o.shipping + o.tax <= MAX_INT64
    ensures StoreAccepts(o)
  {
    forall i | 0 <= i < |o.lines| ensures 0 <= Gross(o.lines[i]) <= MAX_INT64 {
      GrossSign(o.lines[i]);
      forall j | 0 <= j < |o.lines| ensures Gross(o.lines[j]) >= 0 { GrossSign(o.lines[j]); }
      GrossPrefix(o.lines, i);
      LineNext(o.lines, i);
      GrossPrefix(o.lines, i + 1);
    }
    hide Gross, SumOf, Grosses, Discounts, Nets;
  }

  /** An order whose lines and amounts add up. */
  ghost predicate AddsUp(o: Order) {
    && o.lines != [] && o.shipping >= 0 && o.tax >= 0
    && (forall i :: 0 <= i < |o.lines| ==>
          var l := o.lines[i];
          l.quantity > 0 && l.price >= 0 && 0 <= l.discount <= l.quantity * l.price && l.total == l.quantity * l.price - l.discount)
    && o.subtotal == SumOf(Grosses(o.lines)) <= MAX_INT64 && o.discount == SumOf(Discounts(o.lines))
    && o.total == o.subtotal - o.discount + o.shipping + o.tax <= MAX_INT64
  }

  /** The store accepts exactly the orders that add up. */
  lemma StoreAcceptsExactly(o: Order)
    ensures StoreAccepts(o) <==> AddsUp(o)
  {
    if StoreAccepts(o) {
      TotalsValue(o.lines, o.shipping, o.tax);
      AcceptedLines(o);
      hide SumOf, Grosses, Discounts, Nets, Gross, GoodLines, TotalsOf;
    } else if AddsUp(o) {
      AddsUpLines(o);
      SplitSums(o.lines);
      hide SumOf, Grosses, Discounts, Nets, Gross;
      Acceptable(o);
    }
  }

  lemma AcceptedLines(o: Order)
    requires StoreAccepts(o)
    ensures o.shipping >= 0 && o.tax >= 0
    ensures forall i :: 0 <= i < |o.lines| ==>
              var l := o.lines[i];
              l.quantity > 0 && l.price >= 0 && 0 <= l.discount <= l.quantity * l.price && l.total == l.quantity * l.price - l.discount
  {
    forall i | 0 <= i < |o.lines|
      ensures var l := o.lines[i];
              l.quantity > 0 && l.price >= 0 && 0 <= l.discount <= l.quantity * l.price && l.total == l.quantity * l.price - l.discount
    {
      assert GoodLine(o.lines[i]);
    }
    hide SumOf, Grosses, Discounts, Nets;
  }

  lemma AddsUpLines(o: Order)
    requires AddsUp(o)
    ensures forall i :: 0 <= i < |o.lines| ==> GoodLine(o.lines[i]) && o.lines[i].total == Gross(o.lines[i]) - o.lines[i].discount
  {
    hide SumOf, Grosses, Discounts;
  }

  lemma SamePermutedSums(a: seq<OrderLine>, b: seq<OrderLine>)
    requires multiset(a) == multiset(b)
    ensures SumOf(Grosses(a)) == SumOf(Grosses(b)) && SumOf(Discounts(a)) == SumOf(Discounts(b)) && SumOf(Nets(a)) == SumOf(Nets(b))
  {
    var gross, discount, net := (l: OrderLine) => Gross(l), (l: OrderLine) => l.discount, (l: OrderLine) => l.total;
    SumPermuted(a, b, gross);
    SumPermuted(a, b, discount);
    SumPermuted(a, b, net);
    assert Grosses(a) == Map(a, gross) && Grosses(b) == Map(b, gross);
    assert Discounts(a) == Map(a, discount) && Discounts(b) == Map(b, discount);
    assert Nets(a) == Map(a, net) && Nets(b) == Map(b, net);
  }
}
