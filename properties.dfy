/**
 * Properties of the inventory bookkeeping that relate several operations or
 * whole sessions: how recorded profit accumulates, which operations undo
 * which, how the dashboard projection and the sales log agree, and that
 * stock never goes negative when the inputs are non-negative.
 */
module InventoryProperties {
  import opened Inventory

  // ---------------------------------------------------------------------
  // Total recorded profit
  // ---------------------------------------------------------------------

  /** Appending one record adds exactly its profit to the total. */
  lemma {:induction false} TotalProfitAppend(sales: seq<Sale>, s: Sale)
    ensures TotalProfit(sales + [s]) == TotalProfit(sales) + s.totalProfit
  {
    if sales == [] {
      assert [] + [s] == [s];
    } else {
      assert (sales + [s])[1..] == sales[1..] + [s];
      TotalProfitAppend(sales[1..], s);
    }
  }

  /** A successful sale raises the total profit by exactly
      (selling price - cost price) * quantity sold; the price difference is
      read from the product row at the moment of the sale. */
  lemma SaleAddsItsProfit(t: Tables, sku: Sku, quantitySold: int, today: Date)
    requires sku in t.products && quantitySold <= t.products[sku].quantity
    ensures var p := t.products[sku];
      TotalProfit(Sell(t, sku, quantitySold, today).1.sales)
        == TotalProfit(t.sales) + (p.sellingPrice - p.costPrice) * quantitySold as real
  {
    var r := Sell(t, sku, quantitySold, today);
    TotalProfitAppend(t.sales, r.1.sales[|t.sales|]);
    assert r.1.sales == t.sales + [r.1.sales[|t.sales|]];
  }

  /** A worked example: a product with cost 2.00,
      selling price 5.00 and 10 units; selling 3 records a profit of 9.00,
      leaves 7 units and raises the total by 9.00; refunding the 3 units
      restores 10 units and leaves the total alone. */
  lemma SaleAndRefundExample(today: Date)
    ensures var added := Add(Empty, "SKU1", "Widget", 10, 2.0, 5.0);
      var sold := Sell(added.1, "SKU1", 3, today);
      var refunded := Refund(sold.1, "SKU1", 3);
      && added.0 == Pass
      && sold.0 == Success(9.0)
      && sold.1.products["SKU1"].quantity == 7
      && TotalProfit(sold.1.sales) == TotalProfit(added.1.sales) + 9.0
      && refunded.0 == Pass
      && refunded.1.products["SKU1"].quantity == 10
      && TotalProfit(refunded.1.sales) == TotalProfit(sold.1.sales)
  {
  }

  // ---------------------------------------------------------------------
  // Operations that undo each other
  // ---------------------------------------------------------------------

  /** Refunding the units of a successful sale restores the product table
      exactly; the sale record stays in the log. */
  lemma SaleThenRefundRestoresStock(t: Tables, sku: Sku, quantity: int, today: Date)
    requires sku in t.products && quantity <= t.products[sku].quantity
    ensures var sold := Sell(t, sku, quantity, today).1;
      Refund(sold, sku, quantity) == (Pass, Tables(t.products, sold.sales))
  {
    var sold := Sell(t, sku, quantity, today).1;
    var refunded := Refund(sold, sku, quantity).1;
    assert refunded.products[sku] == t.products[sku];
    assert refunded.products == t.products;
  }

  /** Adding a fresh SKU and removing it again gives back the original tables. */
  lemma AddThenRemove(t: Tables, sku: Sku, name: string, quantity: int, costPrice: real, sellingPrice: real)
    requires sku !in t.products
    ensures Remove(Add(t, sku, name, quantity, costPrice, sellingPrice).1, sku) == t
  {
  }

  // ---------------------------------------------------------------------
  // The dashboard projection and the ledger
  // ---------------------------------------------------------------------

  /** The dashboard's revenue-minus-cost figure equals the margin per unit
      times the units on hand. Kept as a readable corollary of the contract of
      StockProfit. */
  lemma StockProfitIsMarginTimesQuantity(p: Product)
    ensures StockProfit(p) == (p.sellingPrice - p.costPrice) * p.quantity as real
  {
  }

  /** After adding a product, the dashboard shows it with profit
      (selling price - cost price) * quantity. Kept as a readable corollary of
      the contracts of Add and Dashboard. */
  lemma DashboardAfterAdd(t: Tables, sku: Sku, name: string, quantity: int, costPrice: real, sellingPrice: real)
    requires sku !in t.products
    ensures var rows := Dashboard(Add(t, sku, name, quantity, costPrice, sellingPrice).1.products);
      sku in rows && rows[sku] == (sellingPrice - costPrice) * quantity as real
  {
  }

  /** What a sale records as profit is exactly what the dashboard's
      projection for the sold product drops by. */
  lemma SaleProfitIsProjectionDrop(t: Tables, sku: Sku, quantitySold: int, today: Date)
    requires sku in t.products && quantitySold <= t.products[sku].quantity
    ensures var r := Sell(t, sku, quantitySold, today);
      r.0.Success? &&
      Dashboard(t.products)[sku] - Dashboard(r.1.products)[sku] == r.0.value
  {
    var r := Sell(t, sku, quantitySold, today);
    var p, p' := t.products[sku], r.1.products[sku];
    assert Dashboard(t.products)[sku] == StockProfit(p);
    assert Dashboard(r.1.products)[sku] == StockProfit(p');
    ProjectionDrop(p, p', quantitySold);
  }

  /** Selling `sold` units lowers a product's projected profit by the margin
      on those units. */
  lemma ProjectionDrop(p: Product, p': Product, sold: int)
    requires p'.sellingPrice == p.sellingPrice && p'.costPrice == p.costPrice
    requires p'.quantity == p.quantity - sold
    ensures StockProfit(p) - StockProfit(p') == SaleProfit(p, sold)
  {
  }

  // ---------------------------------------------------------------------
  // Low stock
  // ---------------------------------------------------------------------

  /** A sale of a non-negative quantity never clears a low-stock alert:
      every SKU reported before is still reported after. */
  lemma SaleKeepsLowStockAlerts(t: Tables, sku: Sku, quantitySold: int, today: Date)
    requires 0 <= quantitySold
    ensures LowStock(t.products).Keys <= LowStock(Sell(t, sku, quantitySold, today).1.products).Keys
  {
  }

  /** The threshold is inclusive: 5 units are reported, 6 are not. */
  lemma LowStockBoundary(t: Tables, sku: Sku, name: string, costPrice: real, sellingPrice: real)
    requires sku !in t.products
    ensures sku in LowStock(Add(t, sku, name, 5, costPrice, sellingPrice).1.products)
    ensures sku !in LowStock(Add(t, sku, name, 6, costPrice, sellingPrice).1.products)
  {
  }

  // ---------------------------------------------------------------------
  // Sessions: the operations applied one after another
  // ---------------------------------------------------------------------

  /** One user action that reaches the core. */
  datatype Event =
    | AddEvent(sku: Sku, name: string, quantity: int, costPrice: real, sellingPrice: real)
    | SaleEvent(sku: Sku, quantitySold: int, today: Date)
    | RefundEvent(sku: Sku, quantityRefunded: int)
    | RemoveEvent(sku: Sku)

  function Apply(t: Tables, e: Event): Tables
  {
    match e
    case AddEvent(sku, name, quantity, costPrice, sellingPrice) =>
      Add(t, sku, name, quantity, costPrice, sellingPrice).1
    case SaleEvent(sku, quantitySold, today) => Sell(t, sku, quantitySold, today).1
    case RefundEvent(sku, quantityRefunded) => Refund(t, sku, quantityRefunded).1
    case RemoveEvent(sku) => Remove(t, sku)
  }

  function Run(t: Tables, events: seq<Event>): Tables
    decreases |events|
  {
    if events == [] then t else Run(Apply(t, events[0]), events[1..])
  }

  /** No check guards the sign of an added quantity or of a refund; these
      are the inputs for which stock stays non-negative. */
  predicate NonNegativeInput(e: Event)
  {
    match e
    case AddEvent(_, _, quantity, _, _) => quantity >= 0
    case RefundEvent(_, quantityRefunded) => quantityRefunded >= 0
    case _ => true
  }

  /** Every single operation keeps stock non-negative on non-negative input;
      a sale does so whatever its quantity, because of the stock check. */
  lemma ApplyKeepsStockNonNegative(t: Tables, e: Event)
    requires StockNonNegative(t.products) && NonNegativeInput(e)
    ensures StockNonNegative(Apply(t, e).products)
  {
  }

  /** Over a whole session of non-negative inputs, stock never goes negative. */
  lemma {:induction false} RunKeepsStockNonNegative(t: Tables, events: seq<Event>)
    requires StockNonNegative(t.products)
    requires forall i | 0 <= i < |events| :: NonNegativeInput(events[i])
    ensures StockNonNegative(Run(t, events).products)
    decreases |events|
  {
    if events != [] {
      ApplyKeepsStockNonNegative(t, events[0]);
      RunKeepsStockNonNegative(Apply(t, events[0]), events[1..]);
    }
  }

  /** The sales log is append-only: whatever happens, every earlier record
      stays in place and unchanged. */
  lemma {:induction false} RunKeepsEarlierSales(t: Tables, events: seq<Event>)
    ensures var log := Run(t, events).sales;
      |t.sales| <= |log| && log[..|t.sales|] == t.sales
    decreases |events|
  {
    if events != [] {
      var next := Apply(t, events[0]);
      assert |t.sales| <= |next.sales| && next.sales[..|t.sales|] == t.sales;
      RunKeepsEarlierSales(next, events[1..]);
      var log := Run(t, events).sales;
      assert log[..|next.sales|][..|t.sales|] == log[..|t.sales|];
    }
  }
}
