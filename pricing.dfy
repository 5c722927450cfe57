/**
 * Pricing the session's lists against the catalogue (backend/helpers.php
 * cartTotals(), wishlistItems(), compareItems()) under the store settings
 * (backend/bootstrap.php currencyRates(), shippingConfig()).
 */
module Pricing {
  import opened Wrappers
  import opened Money
  import opened Catalog
  import opened Cart

  /**
   * The settings pricing reads: the currency rate table (`rates` of the
   * `currency` section) and the `shipping` section, each absent when not
   * configured.
   */
  datatype Config = Config(rates: Option<map<string, real>>, shipping: Option<ShippingConfig>)

  /** The shipping section used when none is configured. */
  const DefaultShipping := ShippingConfig(Some(9.95), Some(1.5), Some(150.0))

  function ShippingSettings(cfg: Config): ShippingConfig {
    cfg.shipping.GetOr(DefaultShipping)
  }

  /** A product's price in `currency`. */
  function UnitPrice(p: Product, table: map<string, real>, currency: string): real {
    ConvertCurrency(p.price, PriceCurrency(p), currency, table)
  }

  // ---------------------------------------------------------------------------
  // cartTotals()
  // ---------------------------------------------------------------------------

  datatype LineItem = LineItem(product: Product, quantity: int, price: real, lineTotal: real)

  datatype Totals = Totals(currency: string, items: seq<LineItem>, subtotal: real, shipping: real, total: real)

  /** The cart lines whose product the lookup knows, in cart order. */
  function KnownLines(cart: seq<CartLine>, lookup: map<int, Product>): (known: seq<CartLine>)
    ensures |known| <= |cart|
  {
    if |cart| == 0 then []
    else
      var init := KnownLines(cart[..|cart| - 1], lookup);
      if cart[|cart| - 1].productId in lookup then init + [cart[|cart| - 1]] else init
  }

  /** A line is known exactly when it is in the cart and its product is in the lookup. */
  lemma {:induction false} KnownLinesMembership(cart: seq<CartLine>, lookup: map<int, Product>, line: CartLine)
    ensures line in KnownLines(cart, lookup) <==> line in cart && line.productId in lookup
  {
    if |cart| > 0 {
      var init := cart[..|cart| - 1];
      KnownLinesMembership(init, lookup, line);
      assert cart == init + [cart[|cart| - 1]];
    }
  }

  /**
   * `$price * $quantity`, written as repeated addition so that proofs about
   * the cart do not meet a product of two unknowns; LineTotalIsProduct shows
   * it is the product.
   */
  function LineTotal(price: real, quantity: int): real
    decreases if quantity >= 0 then quantity else -quantity
  {
    if quantity == 0 then 0.0
    else if quantity > 0 then LineTotal(price, quantity - 1) + price
    else LineTotal(price, quantity + 1) - price
  }

  lemma {:induction false} LineTotalIsProduct(price: real, quantity: int)
    ensures LineTotal(price, quantity) == price * quantity as real
    decreases if quantity >= 0 then quantity else -quantity
  {
    if quantity > 0 {
      LineTotalIsProduct(price, quantity - 1);
    } else if quantity < 0 {
      LineTotalIsProduct(price, quantity + 1);
    }
  }

  /** The line item for a known cart line, priced in `currency`. */
  function ItemFor(line: CartLine, lookup: map<int, Product>, table: map<string, real>, currency: string): (item: LineItem)
    requires line.productId in lookup
  {
    var p := lookup[line.productId];
    var price := UnitPrice(p, table, currency);
    LineItem(p, line.quantity, price, LineTotal(price, line.quantity))
  }

  /**
   * The items the loop of cartTotals() collects from the first `|cart|`
   * lines: lines whose product is missing are skipped; the others become
   * items in cart order.
   */
  function Resolve(cart: seq<CartLine>, lookup: map<int, Product>, table: map<string, real>, currency: string): (items: seq<LineItem>)
    ensures |items| == |KnownLines(cart, lookup)|
    ensures forall k :: 0 <= k < |items| ==>
      KnownLines(cart, lookup)[k].productId in lookup &&
      items[k] == ItemFor(KnownLines(cart, lookup)[k], lookup, table, currency)
  {
    if |cart| == 0 then []
    else
      var init := Resolve(cart[..|cart| - 1], lookup, table, currency);
      var line := cart[|cart| - 1];
      if line.productId in lookup then init + [ItemFor(line, lookup, table, currency)] else init
  }

  lemma ResolveSnoc(cart: seq<CartLine>, line: CartLine, lookup: map<int, Product>, table: map<string, real>, currency: string)
    ensures line.productId in lookup ==>
      Resolve(cart + [line], lookup, table, currency) == Resolve(cart, lookup, table, currency) + [ItemFor(line, lookup, table, currency)]
    ensures line.productId !in lookup ==>
      Resolve(cart + [line], lookup, table, currency) == Resolve(cart, lookup, table, currency)
  {
    assert (cart + [line])[..|cart|] == cart;
  }

  /** `$subtotal += $lineTotal` over the items, in order. */
  function LinesSum(items: seq<LineItem>): real
  {
    if |items| == 0 then 0.0 else LinesSum(items[..|items| - 1]) + items[|items| - 1].lineTotal
  }

  lemma LinesSumSnoc(items: seq<LineItem>, item: LineItem)
    ensures LinesSum(items + [item]) == LinesSum(items) + item.lineTotal
  {
    assert (items + [item])[..|items|] == items;
  }

  /**
   * What cartTotals($currency) returns for the session cart: the subtotal and
   * shipping rounded to the cent each, shipping worked out on the unrounded
   * subtotal and on every cart line's quantity, and the total rounded from the
   * unrounded subtotal plus the unrounded shipping.
   */
  function CartTotalsOf(cart: seq<CartLine>, catalog: seq<Product>, cfg: Config, currency: string): (t: Totals)
    ensures t.currency == currency
    ensures |t.items| <= |cart|
  {
    var items := Resolve(cart, Index(catalog), RateTable(cfg.rates), currency);
    var raw := LinesSum(items);
    var ship := CalculateShipping(raw, ItemCount(cart), ShippingSettings(cfg));
    Totals(currency, items, Round2(raw), Round2(ship), Round2(raw + ship))
  }

  /** cartTotals($currency): the lookup loop, the line loop, then shipping and rounding. */
  method CartTotals(cart: seq<CartLine>, catalog: seq<Product>, cfg: Config, currency: string) returns (t: Totals)
    ensures t == CartTotalsOf(cart, catalog, cfg, currency)
  {
    hide Round2, CalculateShipping, ItemCount, ConvertCurrency, LineTotal, IsCents;  // the loop only builds the items and their sum
    var lookup := BuildLookup(catalog);
    var table := RateTable(cfg.rates);
    var subtotal := 0.0;
    var items: seq<LineItem> := [];
    var i := 0;
    while i < |cart|
      invariant 0 <= i <= |cart|
      invariant items == Resolve(cart[..i], lookup, table, currency)
      invariant subtotal == LinesSum(items)
    {
      assert cart[..i + 1][..i] == cart[..i];
      var line := cart[i];
      ResolveSnoc(cart[..i], line, lookup, table, currency);
      assert cart[..i + 1] == cart[..i] + [line];
      if line.productId in lookup {
        var product := lookup[line.productId];
        var price := ConvertCurrency(product.price, PriceCurrency(product), currency, table);
        var lineTotal := LineTotal(price, line.quantity);
        subtotal := subtotal + lineTotal;
        assert LineItem(product, line.quantity, price, lineTotal) == ItemFor(line, lookup, table, currency);
        LinesSumSnoc(items, LineItem(product, line.quantity, price, lineTotal));
        items := items + [LineItem(product, line.quantity, price, lineTotal)];
      }
      i := i + 1;
    }
    assert cart[..i] == cart;
    var shipping := CalculateShipping(subtotal, ItemCount(cart), ShippingSettings(cfg));
    t := Totals(currency, items, Round2(subtotal), Round2(shipping), Round2(subtotal + shipping));
  }

  /**
   * The figures of any cart: the subtotal is the rounded sum of the line
   * totals, shipping is rounded from the shipping on the unrounded sum and the
   * whole cart's item count, and the total is rounded from the unrounded sum of
   * the two; each is whole cents within half a cent of its exact figure.
   */
  lemma CartTotalsFigures(cart: seq<CartLine>, catalog: seq<Product>, cfg: Config, currency: string)
    ensures var t := CartTotalsOf(cart, catalog, cfg, currency);
      var raw := LinesSum(t.items);
      var ship := CalculateShipping(raw, ItemCount(cart), ShippingSettings(cfg));
      && t.subtotal == Round2(raw) && t.shipping == Round2(ship) && t.total == Round2(raw + ship)
      && IsCents(t.subtotal) && IsCents(t.shipping) && IsCents(t.total)
      && -0.005 <= t.subtotal - raw <= 0.005
      && -0.005 <= t.shipping - ship <= 0.005
      && -0.005 <= t.total - (raw + ship) <= 0.005
  {
    hide Round2, IsCents, CalculateShipping, Resolve, LinesSum, ItemCount, Index;  // Round2's contract gives the bounds
  }

  /** The items are empty (checkout's "Cart is empty") exactly when no cart line names a catalogue product. */
  lemma NoItemsIff(cart: seq<CartLine>, catalog: seq<Product>, cfg: Config, currency: string)
    ensures CartTotalsOf(cart, catalog, cfg, currency).items == [] <==>
      forall k :: 0 <= k < |cart| ==> forall j :: 0 <= j < |catalog| ==> catalog[j].id != cart[k].productId
  {
    var lookup := Index(catalog);
    var known := KnownLines(cart, lookup);
    if known != [] {
      KnownLinesMembership(cart, lookup, known[0]);
      var k :| 0 <= k < |cart| && cart[k] == known[0];
      IndexKeys(catalog, cart[k].productId);
    }
    forall k | 0 <= k < |cart| && (exists j :: 0 <= j < |catalog| && catalog[j].id == cart[k].productId)
      ensures known != []
    {
      IndexKeys(catalog, cart[k].productId);
      KnownLinesMembership(cart, lookup, cart[k]);
    }
  }

  /**
   * Every item carries the catalogue product of a cart line with that line's
   * quantity, the product's price in the requested currency, and price times
   * quantity as its line total.
   */
  lemma ItemsFacts(cart: seq<CartLine>, catalog: seq<Product>, table: map<string, real>, currency: string)
    ensures var items := Resolve(cart, Index(catalog), table, currency);
      forall k :: 0 <= k < |items| ==>
        && items[k].product in catalog
        && items[k].lineTotal == LineTotal(items[k].price, items[k].quantity)
        && items[k].price == UnitPrice(items[k].product, table, currency)
        && CartLine(items[k].product.id, items[k].quantity) in cart
  {
    var items := Resolve(cart, Index(catalog), table, currency);
    forall k | 0 <= k < |items|
      ensures items[k].product in catalog
      ensures CartLine(items[k].product.id, items[k].quantity) in cart
    {
      ItemFacts(cart, catalog, table, currency, k);
    }
  }

  lemma ItemFacts(cart: seq<CartLine>, catalog: seq<Product>, table: map<string, real>, currency: string, k: int)
    requires 0 <= k < |Resolve(cart, Index(catalog), table, currency)|
    ensures var item := Resolve(cart, Index(catalog), table, currency)[k];
      item.product in catalog && CartLine(item.product.id, item.quantity) in cart
  {
    var lookup := Index(catalog);
    var line := KnownLines(cart, lookup)[k];
    IndexEntries(catalog, line.productId);
    KnownLinesMembership(cart, lookup, line);
  }

  /** With whole-cent prices and whole quantities, the subtotal is the exact sum of the line totals. */
  lemma {:induction false} LinesSumCents(items: seq<LineItem>)
    requires forall k :: 0 <= k < |items| ==> IsCents(items[k].lineTotal)
    ensures IsCents(LinesSum(items))
  {
    if |items| > 0 {
      LinesSumCents(items[..|items| - 1]);
      CentsAdd(LinesSum(items[..|items| - 1]), items[|items| - 1].lineTotal);
    }
  }

  lemma CentsAdd(a: real, b: real)
    requires IsCents(a) && IsCents(b)
    ensures IsCents(a + b)
  {
    var n := (a * 100.0).Floor;
    var m := (b * 100.0).Floor;
    assert (a + b) * 100.0 == (n + m) as real;
  }

  /** Rounding a sum once and rounding its two parts apart differ by a cent at most. */
  lemma RoundedSumWithinACent(raw: real, ship: real)
    ensures -0.01 <= Round2(raw + ship) - (Round2(raw) + Round2(ship)) <= 0.01
  {
    var x, y, z := Round2(raw + ship), Round2(raw), Round2(ship);
    var a, b, c := (x * 100.0).Floor, (y * 100.0).Floor, (z * 100.0).Floor;
    assert (x - (y + z)) * 100.0 == (a - b - c) as real;
  }

  /**
   * The total is rounded once from the unrounded figures, so it can differ
   * from the rounded subtotal plus the rounded shipping, but by one cent at
   * most.
   */
  lemma TotalWithinACent(cart: seq<CartLine>, catalog: seq<Product>, cfg: Config, currency: string)
    ensures var t := CartTotalsOf(cart, catalog, cfg, currency);
      -0.01 <= t.total - (t.subtotal + t.shipping) <= 0.01
  {
    var items := Resolve(cart, Index(catalog), RateTable(cfg.rates), currency);
    var raw := LinesSum(items);
    RoundedSumWithinACent(raw, CalculateShipping(raw, ItemCount(cart), ShippingSettings(cfg)));
  }

  /** When the unrounded figures are whole cents, the total is exactly subtotal plus shipping. */
  lemma TotalIsSumForCents(cart: seq<CartLine>, catalog: seq<Product>, cfg: Config, currency: string)
    requires var items := Resolve(cart, Index(catalog), RateTable(cfg.rates), currency);
      && (forall k :: 0 <= k < |items| ==> IsCents(items[k].lineTotal))
      && IsCents(CalculateShipping(LinesSum(items), ItemCount(cart), ShippingSettings(cfg)))
    ensures var t := CartTotalsOf(cart, catalog, cfg, currency);
      t.total == t.subtotal + t.shipping
  {
    hide Round2, IsCents, CalculateShipping, Resolve, LinesSum, ItemCount, Index;  // only CartTotalsOf is unfolded
    var items := Resolve(cart, Index(catalog), RateTable(cfg.rates), currency);
    var raw := LinesSum(items);
    var ship := CalculateShipping(raw, ItemCount(cart), ShippingSettings(cfg));
    LinesSumCents(items);
    CentsRoundExactly(raw, ship);
  }

  /** Rounding whole cents changes nothing, so the rounded sum is the sum of the rounded parts. */
  lemma CentsRoundExactly(a: real, b: real)
    requires IsCents(a) && IsCents(b)
    ensures Round2(a + b) == Round2(a) + Round2(b)
  {
    Round2OfCents(a);
    Round2OfCents(b);
    CentsAdd(a, b);
    Round2OfCents(a + b);
  }

  /** A cart of one line for a one-product catalogue: the figures of that line alone. */
  lemma OneLineCart(p: Product, quantity: int, cfg: Config, currency: string)
    ensures var t := CartTotalsOf([CartLine(p.id, quantity)], [p], cfg, currency);
      var raw := LineTotal(UnitPrice(p, RateTable(cfg.rates), currency), quantity);
      var ship := CalculateShipping(raw, quantity, ShippingSettings(cfg));
      t.items == [LineItem(p, quantity, UnitPrice(p, RateTable(cfg.rates), currency), raw)]
        && t.subtotal == Round2(raw) && t.shipping == Round2(ship) && t.total == Round2(raw + ship)
  {
    hide Round2, CalculateShipping, ConvertCurrency, LineTotal, UnitPrice, IsCents;  // only the arguments the figures are rounded from matter here
    var cart := [CartLine(p.id, quantity)];
    assert [p][..0] == [];
    assert Index([p]) == map[p.id := p];
    assert cart[..0] == [];
    var table := RateTable(cfg.rates);
    var items := Resolve(cart, Index([p]), table, currency);
    assert items == [ItemFor(cart[0], Index([p]), table, currency)];
    assert items[..0] == [];
    assert LinesSum(items) == LineTotal(UnitPrice(p, table, currency), quantity);
    assert cart[1..] == [];
    assert ItemCount(cart) == quantity;
  }

  /** A product priced 0.004 in a currency missing from the table, with shipping of 0.004. */
  const TinyProduct := Product(1, "", "", None, None, 0.004, Some("XXX"), 0, "", false, [])
  const TinyConfig := Config(None, Some(ShippingConfig(Some(0.004), Some(0.0), None)))

  /** The subtotal and shipping both show 0.00 while the total shows 0.01. */
  lemma TotalIsNotSumOfRoundedFigures()
    ensures var t := CartTotalsOf([CartLine(1, 1)], [TinyProduct], TinyConfig, "AUD");
      t.subtotal == 0.0 && t.shipping == 0.0 && t.total == 0.01
  {
    hide CartTotalsOf, Resolve, Index, LinesSum, ItemCount;  // OneLineCart gives the figures
    OneLineCart(TinyProduct, 1, TinyConfig, "AUD");
    assert UnitPrice(TinyProduct, map["AUD" := 1.0], "AUD") == 0.004;
    assert LineTotal(0.004, 1) == 0.004;
    assert CalculateShipping(0.004, 1, ShippingSettings(TinyConfig)) == 0.004;
    assert (0.004 * 100.0 + 0.5).Floor == 0;
    assert (0.008 * 100.0 + 0.5).Floor == 1;
  }

  /**
   * Free shipping is decided on the unrounded subtotal: 149.996 shows as a
   * subtotal of 150.00, yet shipping is charged.
   */
  const NearThresholdProduct := Product(1, "", "", None, None, 149.996, Some("XXX"), 0, "", false, [])

  lemma ShippingChargedAtDisplayedThreshold()
    ensures var t := CartTotalsOf([CartLine(1, 1)], [NearThresholdProduct], Config(None, None), "AUD");
      t.subtotal == 150.0 && t.shipping == 11.45
  {
    hide CartTotalsOf, Resolve, Index, LinesSum, ItemCount;  // OneLineCart gives the figures
    OneLineCart(NearThresholdProduct, 1, Config(None, None), "AUD");
    assert UnitPrice(NearThresholdProduct, map["AUD" := 1.0], "AUD") == 149.996;
    assert LineTotal(149.996, 1) == 149.996;
    assert CalculateShipping(149.996, 1, DefaultShipping) == 11.45;
    assert (149.996 * 100.0 + 0.5).Floor == 15000;
    assert (11.45 * 100.0 + 0.5).Floor == 1145;
  }

  /** Under the default settings shipping is free exactly from a subtotal of 150. */
  lemma DefaultFreeShipping(subtotal: real, itemCount: int)
    ensures CalculateShipping(subtotal, itemCount, DefaultShipping) == 0.0 <==> subtotal >= 150.0
  {
  }

  /** Under the default settings: 150.00 ships free; 149.99 with two items pays 9.95 + 2 * 1.5. */
  lemma DefaultShippingExamples()
    ensures CalculateShipping(150.0, 3, DefaultShipping) == 0.0
    ensures CalculateShipping(149.99, 2, DefaultShipping) == 12.95
    ensures CalculateShipping(10.0, 0, DefaultShipping) == 11.45
  {
  }

  // ---------------------------------------------------------------------------
  // wishlistItems() / compareItems()
  // ---------------------------------------------------------------------------

  datatype ListItem = ListItem(product: Product, price: real)

  datatype Listing = Listing(currency: string, items: seq<ListItem>)

  lemma IndexStoresOwnIds(catalog: seq<Product>)
    ensures forall id :: id in Index(catalog) ==> Index(catalog)[id].id == id
  {
    forall id | id in Index(catalog) ensures Index(catalog)[id].id == id {
      IndexEntries(catalog, id);
    }
  }

  /**
   * The items for the saved ids: ids missing from the catalogue are skipped,
   * the others listed in saved order with the lookup's product, priced in
   * `currency`.
   */
  function ListItemsOf(ids: seq<int>, catalog: seq<Product>, table: map<string, real>, currency: string): (items: seq<ListItem>)
    ensures |items| <= |ids|
    ensures forall k :: 0 <= k < |items| ==>
      && items[k].product.id in ids
      && items[k].product.id in Index(catalog)
      && items[k].product == Index(catalog)[items[k].product.id]
      && items[k].price == UnitPrice(items[k].product, table, currency)
  {
    if |ids| == 0 then []
    else
      var init := ListItemsOf(ids[..|ids| - 1], catalog, table, currency);
      var id := ids[|ids| - 1];
      var lookup := Index(catalog);
      IndexStoresOwnIds(catalog);
      if id in lookup then init + [ListItem(lookup[id], UnitPrice(lookup[id], table, currency))] else init
  }

  /** The saved ids the lookup knows, in saved order, repeats kept. */
  function KnownIds(ids: seq<int>, lookup: map<int, Product>): (known: seq<int>)
    ensures |known| <= |ids|
    ensures forall k :: 0 <= k < |known| ==> known[k] in lookup
  {
    if |ids| == 0 then []
    else
      var init := KnownIds(ids[..|ids| - 1], lookup);
      if ids[|ids| - 1] in lookup then init + [ids[|ids| - 1]] else init
  }

  /** The listing has one item per known saved id, in saved order. */
  lemma {:induction false} ListItemsOfOrder(ids: seq<int>, catalog: seq<Product>, table: map<string, real>, currency: string)
    ensures var items := ListItemsOf(ids, catalog, table, currency);
      var known := KnownIds(ids, Index(catalog));
      |items| == |known| && forall k :: 0 <= k < |items| ==> items[k].product.id == known[k]
  {
    if |ids| > 0 {
      ListItemsOfOrder(ids[..|ids| - 1], catalog, table, currency);
      IndexStoresOwnIds(catalog);
    }
  }

  /** Every saved id that the catalogue knows is listed. */
  lemma {:induction false} ListItemsComplete(ids: seq<int>, catalog: seq<Product>, table: map<string, real>, currency: string, id: int)
    requires id in ids && id in Index(catalog)
    ensures exists k :: 0 <= k < |ListItemsOf(ids, catalog, table, currency)| && ListItemsOf(ids, catalog, table, currency)[k].product.id == id
  {
    var init := ids[..|ids| - 1];
    var items := ListItemsOf(ids, catalog, table, currency);
    IndexStoresOwnIds(catalog);
    if ids[|ids| - 1] == id {
      assert items[|items| - 1].product.id == id;
    } else {
      assert id in init by {
        var i :| 0 <= i < |ids| && ids[i] == id;
        assert init[i] == id;
      }
      ListItemsComplete(init, catalog, table, currency, id);
      var k :| 0 <= k < |ListItemsOf(init, catalog, table, currency)| && ListItemsOf(init, catalog, table, currency)[k].product.id == id;
      assert items[k] == ListItemsOf(init, catalog, table, currency)[k];
    }
  }

  /** wishlistItems($currency) / compareItems($currency) over the saved ids. */
  method ListItems(ids: seq<int>, catalog: seq<Product>, cfg: Config, currency: string) returns (l: Listing)
    ensures l == Listing(currency, ListItemsOf(ids, catalog, RateTable(cfg.rates), currency))
  {
    var lookup := BuildLookup(catalog);
    var table := RateTable(cfg.rates);
    var items: seq<ListItem> := [];
    var i := 0;
    while i < |ids|
      invariant 0 <= i <= |ids|
      invariant items == ListItemsOf(ids[..i], catalog, table, currency)
    {
      assert ids[..i + 1][..i] == ids[..i];
      var id := ids[i];
      if id in lookup {
        var product := lookup[id];
        var price := ConvertCurrency(product.price, PriceCurrency(product), currency, table);
        items := items + [ListItem(product, price)];
      }
      i := i + 1;
    }
    assert ids[..i] == ids;
    l := Listing(currency, items);
  }
}
