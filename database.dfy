/**
 * The inventory database as a mutable object: the `products` table is a map
 * field that the methods update in place, the `sales` table a sequence field
 * that only ever grows at its end. Each method performs the statements of the
 * corresponding operation step by step and is proved to leave exactly the
 * state that the value-level function of module Inventory describes.
 */
module InventoryDatabase {
  import opened Inventory

  class InventoryDb {
    var products: map<Sku, Product>
    var sales: seq<Sale>

    /** The value of both tables. */
    function State(): Tables
      reads this
    {
      Tables(products, sales)
    }

    /** initialize_db on a fresh database: both tables exist and are empty. */
    constructor ()
      ensures State() == Empty
    {
      products := map[];
      sales := [];
    }

    method AddProduct(sku: Sku, name: string, quantity: int, costPrice: real, sellingPrice: real)
      returns (r: Outcome)
      modifies this
      ensures (r, State()) == Add(old(State()), sku, name, quantity, costPrice, sellingPrice)
      ensures r.Fail? ==> unchanged(this)
    {
      if sku in products {
        return Fail(DuplicateSku);
      }
      products := products[sku := Product(name, quantity, costPrice, sellingPrice)];
      r := Pass;
    }

    method TrackSale(sku: Sku, quantitySold: int, today: Date) returns (r: Result<real>)
      modifies this
      ensures (r, State()) == Sell(old(State()), sku, quantitySold, today)
      ensures r.Failure? ==> unchanged(this)
      // a readable corollary of the first clause: the log only grows at its end
      ensures r.Success? ==> |sales| == |old(sales)| + 1 && sales[..|old(sales)|] == old(sales)
    {
      if sku !in products {
        return Failure(UnknownSku);
      }
      var p := products[sku];
      if quantitySold > p.quantity {
        return Failure(InsufficientStock);
      }
      var totalProfit := SaleProfit(p, quantitySold);
      sales := sales + [Sale(sku, quantitySold, p.sellingPrice, totalProfit, today)];
      products := products[sku := p.(quantity := p.quantity - quantitySold)];
      r := Success(totalProfit);
    }

    method ProcessRefund(sku: Sku, quantityRefunded: int) returns (r: Outcome)
      modifies this
      ensures (r, State()) == Refund(old(State()), sku, quantityRefunded)
      ensures r.Fail? ==> unchanged(this)
      // a readable corollary of the first clause: a refund never touches the log
      ensures sales == old(sales)
    {
      if sku !in products {
        return Fail(UnknownSku);
      }
      var p := products[sku];
      products := products[sku := p.(quantity := p.quantity + quantityRefunded)];
      r := Pass;
    }

    method RemoveProduct(sku: Sku)
      modifies this
      ensures State() == Remove(old(State()), sku)
      ensures sku !in old(products) ==> unchanged(this)
    {
      products := products - {sku};
    }
  }
}
