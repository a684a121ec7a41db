/**
 * The bookkeeping core of a single-user inventory tracker: a product table
 * keyed by SKU and an append-only sales log, with the four operations that
 * change them (add, sale, refund, remove) and the three read-only queries the
 * dashboard shows (per-product profit at current stock, total recorded profit,
 * low stock).
 *
 * This module states every operation as a function on the value of the two
 * tables; the class in module InventoryDatabase performs the same operations
 * in place and is proved against these functions.
 */
module Inventory {

  /** A Stock Keeping Unit: the product table's unique key. */
  type Sku = string

  /** The calendar date stored with a sale (sqlite's CURRENT_DATE, as text);
      the caller supplies it, no clock is modelled. */
  type Date = string

  /** Products at or below this quantity are reported as low stock. */
  const LowStockThreshold: int := 5

  /** One row of the `products` table, without its key. Quantities are plain
      integers: no operation checks their sign. */
  datatype Product = Product(name: string, quantity: int, costPrice: real, sellingPrice: real)

  /** One row of the `sales` table. `totalProfit` is computed once, when the
      sale is recorded, and never recomputed. */
  datatype Sale = Sale(sku: Sku, quantity: int, salePrice: real, totalProfit: real, date: Date)

  /** The error kinds that the operations report instead of changing state. */
  datatype Error = DuplicateSku | UnknownSku | InsufficientStock

  datatype Outcome = Pass | Fail(error: Error)

  datatype Result<T> = Success(value: T) | Failure(error: Error)

  /** The two tables. Keying `products` by SKU is the `sku UNIQUE` constraint:
      two rows can never share a SKU. */
  datatype Tables = Tables(products: map<Sku, Product>, sales: seq<Sale>)

  /** The tables as created on a fresh database. */
  const Empty: Tables := Tables(map[], [])

  // ---------------------------------------------------------------------
  // Product repository
  // ---------------------------------------------------------------------

  /** add_product: insert a new row; a SKU that is already present violates
      the uniqueness constraint and nothing is written. */
  function Add(t: Tables, sku: Sku, name: string, quantity: int, costPrice: real, sellingPrice: real)
    : (r: (Outcome, Tables))
    ensures r.0 == Pass <==> sku !in t.products
    ensures r.0 != Pass ==> r.0 == Fail(DuplicateSku) && r.1 == t
    ensures r.0 == Pass ==>
      && r.1.products.Keys == t.products.Keys + {sku}
      && r.1.products[sku] == Product(name, quantity, costPrice, sellingPrice)
    ensures forall k | k in t.products :: k in r.1.products && r.1.products[k] == t.products[k]
    ensures r.1.sales == t.sales
  {
    if sku in t.products then
      (Fail(DuplicateSku), t)
    else
      (Pass, t.(products := t.products[sku := Product(name, quantity, costPrice, sellingPrice)]))
  }

  /** remove_product: delete the row for `sku` if there is one; an absent SKU
      is not an error. Sales recorded for the SKU stay in the log. */
  function Remove(t: Tables, sku: Sku): (r: Tables)
    ensures r.products.Keys == t.products.Keys - {sku}
    ensures forall k | k in r.products :: r.products[k] == t.products[k]
    ensures sku !in t.products ==> r == t
    ensures r.sales == t.sales
  {
    t.(products := t.products - {sku})
  }

  // ---------------------------------------------------------------------
  // Sales ledger
  // ---------------------------------------------------------------------

  /** The profit that selling `quantity` units of `p` records: the margin
      per unit times the units sold. */
  function SaleProfit(p: Product, quantity: int): (profit: real)
    ensures quantity == 0 || p.sellingPrice == p.costPrice ==> profit == 0.0
    ensures quantity > 0 ==> (profit > 0.0 <==> p.sellingPrice > p.costPrice)
    ensures quantity > 0 ==> (profit < 0.0 <==> p.sellingPrice < p.costPrice)
  {
    (p.sellingPrice - p.costPrice) * quantity as real
  }

  /** track_sale: reject an unknown SKU, reject a sale larger than the stock,
      otherwise append one sale record priced at the product's selling price
      and take the sold units off the stock. The success value is the sale's
      profit. */
  function Sell(t: Tables, sku: Sku, quantitySold: int, today: Date): (r: (Result<real>, Tables))
    ensures r.0.Success? <==> sku in t.products && quantitySold <= t.products[sku].quantity
    ensures sku !in t.products ==> r == (Failure(UnknownSku), t)
    ensures sku in t.products && quantitySold > t.products[sku].quantity ==>
      r == (Failure(InsufficientStock), t)
    ensures r.0.Success? ==>
      var p := t.products[sku];
      && r.0.value == SaleProfit(p, quantitySold)
      && r.1.sales == t.sales + [Sale(sku, quantitySold, p.sellingPrice, r.0.value, today)]
      && r.1.products.Keys == t.products.Keys
      && r.1.products[sku].quantity == p.quantity - quantitySold >= 0
      && r.1.products[sku].name == p.name
      && r.1.products[sku].costPrice == p.costPrice
      && r.1.products[sku].sellingPrice == p.sellingPrice
      && (forall k | k in t.products && k != sku :: r.1.products[k] == t.products[k])
  {
    if sku !in t.products then
      (Failure(UnknownSku), t)
    else
      var p := t.products[sku];
      if quantitySold > p.quantity then
        (Failure(InsufficientStock), t)
      else
        var profit := SaleProfit(p, quantitySold);
        var record := Sale(sku, quantitySold, p.sellingPrice, profit, today);
        (Success(profit),
         Tables(t.products[sku := p.(quantity := p.quantity - quantitySold)], t.sales + [record]))
  }

  /** process_refund: reject an unknown SKU, otherwise put the refunded units
      back on the stock. No bound is checked and no sale record is touched. */
  function Refund(t: Tables, sku: Sku, quantityRefunded: int): (r: (Outcome, Tables))
    ensures r.0 == Pass <==> sku in t.products
    ensures sku !in t.products ==> r == (Fail(UnknownSku), t)
    ensures r.1.sales == t.sales
    ensures r.1.products.Keys == t.products.Keys
    ensures sku in t.products ==>
      && r.1.products[sku].quantity == t.products[sku].quantity + quantityRefunded
      && r.1.products[sku] == t.products[sku].(quantity := r.1.products[sku].quantity)
    ensures forall k | k in t.products && k != sku :: r.1.products[k] == t.products[k]
  {
    if sku !in t.products then
      (Fail(UnknownSku), t)
    else
      var p := t.products[sku];
      (Pass, t.(products := t.products[sku := p.(quantity := p.quantity + quantityRefunded)]))
  }

  // ---------------------------------------------------------------------
  // Aggregation queries
  // ---------------------------------------------------------------------

  /** The dashboard's profit column for one product: revenue minus cost of
      the whole current stock, which is what selling all of it would record. */
  function StockProfit(p: Product): (projected: real)
    ensures projected == SaleProfit(p, p.quantity)
  {
    var totalCost := p.costPrice * p.quantity as real;
    var totalRevenue := p.sellingPrice * p.quantity as real;
    totalRevenue - totalCost
  }

  /** The dashboard: one profit figure per product row, the margin per unit
      times the units on hand. */
  function Dashboard(products: map<Sku, Product>): (rows: map<Sku, real>)
    ensures rows.Keys == products.Keys
    ensures forall k | k in products ::
      rows[k] == (products[k].sellingPrice - products[k].costPrice) * products[k].quantity as real
  {
    map k | k in products :: StockProfit(products[k])
  }

  /** `SUM(total_profit) FROM sales`, with the empty sum (NULL) read as 0. */
  function TotalProfit(sales: seq<Sale>): (total: real)
    ensures sales == [] ==> total == 0.0
  {
    if sales == [] then 0.0 else sales[0].totalProfit + TotalProfit(sales[1..])
  }

  /** The columns the low-stock report shows for each SKU. */
  datatype StockAlert = StockAlert(name: string, quantity: int)

  /** `WHERE quantity <= 5`: exactly the products at or below the threshold. */
  function LowStock(products: map<Sku, Product>): (low: map<Sku, StockAlert>)
    ensures forall k :: k in low <==> k in products && products[k].quantity <= LowStockThreshold
    ensures forall k | k in low :: low[k] == StockAlert(products[k].name, products[k].quantity)
  {
    map k | k in products && products[k].quantity <= LowStockThreshold
      :: StockAlert(products[k].name, products[k].quantity)
  }

  /** Every product has a non-negative stock. */
  predicate StockNonNegative(products: map<Sku, Product>)
  {
    forall k | k in products :: products[k].quantity >= 0
  }
}
