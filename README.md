# Inventory bookkeeping, modelled in Dafny

This project models the bookkeeping core of a single-user desktop inventory
tracker (`product_inventory.py`). The tracker keeps two tables:

- `products`: one row per SKU, with name, quantity on hand, cost price and
  selling price. The SKU is unique.
- `sales`: an append-only log. Each record holds the SKU, the quantity sold,
  the unit sale price, the profit of that sale and the date.

Four operations change the tables:

- add a product. A SKU that already exists is rejected.
- record a sale. An unknown SKU is rejected, and so is a sale larger than the
  stock. Otherwise one record is appended and the stock goes down.
- process a refund. An unknown SKU is rejected. Otherwise the stock goes up,
  with no bound checked.
- remove a product. An absent SKU is a silent no-op.

Three read-only queries feed the interface:

- the dashboard's profit projection per product, revenue minus cost of the
  current stock;
- the total recorded profit shown under the dashboard, which is 0 for an empty
  log;
- the low-stock report, quantity at most 5, shown in a dialog of its own.

The project has three modules:

- `Inventory` (`inventory.dfy`). Value types for the rows and both tables. Each
  operation is a function from the old tables to an outcome and the new tables,
  and each query is a function too. `Sku` is a string. Prices are exact
  `real`s and quantities are `int`s. The sale date is a parameter.
- `InventoryDatabase` (`database.dfy`). The class `InventoryDb`, whose `products`
  map and `sales` sequence the methods update in place, statement by statement
  as the source does. Each method is proved to produce exactly the outcome and
  state that the matching `Inventory` function describes.
- `InventoryProperties` (`properties.dfy`). Lemmas that relate operations and
  queries. It also defines a session, a sequence of operations (`Apply`, `Run`),
  to state the properties that hold over whole histories. Add, sale and remove
  events stand for the interface's button callbacks firing one after another
  (product_inventory.py:260-261 and :309). `process_refund` has no caller in
  the source, so a refund event stands for a direct call of it. `Apply` and
  `Run` model no function of the source.

The source checks no sign. A negative initial quantity, a negative refund and a
negative sale quantity are all accepted. For that reason a product's quantity
is a plain `int`, and the stock-non-negative lemmas assume non-negative added
and refunded quantities. A sale keeps stock non-negative whatever the quantity
sold, because of the stock check. Nothing in the code enforces
`quantity >= 0` or a positive sale quantity, and the model follows the code.

## Model

| member | source | states |
|---|---|---|
| `Inventory.Add` | product_inventory.py:38-52 | Succeeds exactly when the SKU is absent. Then the new row holds the given fields and every other row is kept. A duplicate SKU fails with `DuplicateSku` and changes nothing. The sales log is untouched. |
| `Inventory.Remove` | product_inventory.py:108-119 | Deletes exactly that SKU's row and keeps every other row. An absent SKU leaves both tables unchanged. The sales log, including the removed SKU's sales, is untouched. |
| `Inventory.Sell` | product_inventory.py:55-83 | Succeeds exactly when the SKU exists and the quantity sold is at most the stock. An unknown SKU fails with `UnknownSku` and oversold stock fails with `InsufficientStock`, both with nothing changed. On success it appends exactly one record, whose sale price is the selling price and whose profit is the margin times the quantity. The SKU's quantity drops by exactly the quantity sold and stays non-negative. Its other fields and all other rows are unchanged. |
| `Inventory.Refund` | product_inventory.py:86-105 | Succeeds exactly when the SKU exists. The SKU's quantity rises by exactly the refunded amount and its other fields stay. All other rows and the whole sales log are unchanged. An unknown SKU fails with `UnknownSku` and changes nothing. |
| `Inventory.Dashboard` | product_inventory.py:122-137 | The dashboard has one profit figure per product row, no more and no fewer, and each row's figure is (selling price − cost price) × quantity of that product. |
| `Inventory.SaleProfit` | product_inventory.py:72 | The profit of a sale: zero when nothing is sold or the prices are equal; for a positive quantity, a gain exactly when the selling price exceeds the cost price and a loss exactly when it is below. |
| `Inventory.StockProfit` | product_inventory.py:134-136 | The dashboard's revenue minus cost for one product equals the profit that selling its whole current stock would record. |
| `Inventory.TotalProfit` | product_inventory.py:140-147 | The sum of the stored profits over the log. An empty log gives 0, never an absent value. |
| `Inventory.LowStock` | product_inventory.py:150-161 | A SKU is reported exactly when its product has quantity at most 5. Each report shows that product's name and quantity. |
| `InventoryDatabase.InventoryDb.constructor` | product_inventory.py:7-35 | A fresh database has an empty product table and an empty sales log. |
| `InventoryDatabase.InventoryDb.AddProduct` | product_inventory.py:38-52 | The in-place insert gives the outcome and tables of `Inventory.Add`. On failure the object is unchanged. |
| `InventoryDatabase.InventoryDb.TrackSale` | product_inventory.py:55-83 | The in-place insert and decrement give the outcome and tables of `Inventory.Sell`. On failure the object is unchanged. On success the log grows by one record and keeps its old records as a prefix. |
| `InventoryDatabase.InventoryDb.ProcessRefund` | product_inventory.py:86-105 | The in-place increment gives the outcome and tables of `Inventory.Refund`. The sales log is unchanged, and on failure so is the whole object. |
| `InventoryDatabase.InventoryDb.RemoveProduct` | product_inventory.py:108-119 | The in-place delete gives the tables of `Inventory.Remove`. An absent SKU leaves the object unchanged. |
| `InventoryProperties.TotalProfitAppend` | product_inventory.py:143-144 | Appending one sale record raises the total profit by exactly that record's profit. |
| `InventoryProperties.SaleAddsItsProfit` | product_inventory.py:72-75 | A successful sale raises the total profit by exactly (selling price − cost price) × quantity sold. |
| `InventoryProperties.SaleAndRefundExample` | product_inventory.py:55-105 | Cost 2.00, selling price 5.00 and 10 units: selling 3 records a profit of 9.00, leaves 7 units and raises the total by 9.00. Refunding 3 restores 10 units and leaves the total unchanged. |
| `InventoryProperties.SaleThenRefundRestoresStock` | product_inventory.py:72-102 | Refunding the units of a successful sale succeeds and restores the product table exactly. The sale record stays in the log. |
| `InventoryProperties.AddThenRemove` | product_inventory.py:42-112 | Adding a fresh SKU and then removing it gives back the original tables. |
| `InventoryProperties.StockProfitIsMarginTimesQuantity` | product_inventory.py:134-136 | The dashboard's revenue minus cost equals (selling price − cost price) × quantity. |
| `InventoryProperties.DashboardAfterAdd` | product_inventory.py:128-136 | After a fresh SKU is added, the dashboard shows it with profit (selling price − cost price) × quantity. |
| `InventoryProperties.SaleProfitIsProjectionDrop` | product_inventory.py:72-78 | The profit a sale records equals how far the dashboard's projection for that SKU drops. |
| `InventoryProperties.ProjectionDrop` | product_inventory.py:134-136 | Taking units off a product lowers its projected profit by the margin on those units. |
| `InventoryProperties.SaleKeepsLowStockAlerts` | product_inventory.py:153 | A sale of a non-negative quantity never removes a SKU from the low-stock report. |
| `InventoryProperties.LowStockBoundary` | product_inventory.py:153 | The threshold is inclusive: a product with 5 units is reported and one with 6 is not. |
| `InventoryProperties.ApplyKeepsStockNonNegative` | product_inventory.py:68-101 | Each operation keeps every quantity non-negative, provided added and refunded quantities are non-negative. A sale needs no such condition. |
| `InventoryProperties.RunKeepsStockNonNegative` | product_inventory.py:68-101 | Over any session whose added and refunded quantities are non-negative, every quantity stays non-negative. |
| `InventoryProperties.RunKeepsEarlierSales` | product_inventory.py:74-75 | Over any session, the sales log only grows at its end. Every earlier record stays in place, unchanged. |

## Left out

- The tkinter interface is not modelled: windows, tabs, the Treeview, the profit label and `messagebox` dialogs. A dialog becomes the returned `Outcome` or `Result`. The refresh calls to `update_dashboard` and `update_profit_loss` after an operation are queries the caller can evaluate.
- sqlite plumbing is not modelled: connect, cursor, commit, close, and persistence of the file between runs. The tables are in-memory state. The constructor models `initialize_db` on a fresh file only; on an existing file the tables simply keep their rows.
- Connection handling is not modelled. That covers the connection left open on the early-return paths of `track_sale` and `process_refund`. It also covers atomicity: a sale is one step of the model, matching the single commit that covers both of its writes.
- Storage faults are not modelled, so there is no storage error kind. The generic `except Exception` branches of `add_product` and `remove_product` catch failures of the database itself; the one in `add_product` also catches the `OverflowError` raised when the quantity lies outside sqlite's 64-bit integer range.
- Inventory.Add: does not model sqlite's 64-bit INTEGER bound. A quantity outside [−2^63, 2^63 − 1] cannot be bound, the `except Exception` branch reports an error and nothing is inserted; the model's `Add` succeeds, because quantities are unbounded integers.
- Inventory.Sell: does not model sqlite's 64-bit INTEGER bound. A quantity sold below −2^63 passes the stock check but fails, uncaught, when the sale record is inserted, and nothing is committed; the model's `Sell` succeeds. A difference `quantity - ?` that leaves the 64-bit range is stored by sqlite as a REAL; the model keeps an exact integer.
- Inventory.Refund: does not model sqlite's 64-bit INTEGER bound. A refunded quantity outside the 64-bit range fails, uncaught, at the update and nothing is committed, and a sum `quantity + ?` that leaves the range is stored as a REAL; the model's `Refund` succeeds with an exact integer.
- Float behaviour is not modelled. Prices are exact reals, so the rounding of the `REAL` columns and the `:.2f` display formatting are left out.
- `CURRENT_DATE` is not modelled. The sale date is a parameter of type `Date` (text).
- Row order is not modelled. The `SELECT`s return rows in insertion order, but the model's tables are maps, so `Dashboard` and `LowStock` return maps keyed by SKU.
- The `id INTEGER PRIMARY KEY` columns are not modelled. Nothing in the core reads them.
- Invoice generation is not modelled. It persists nothing and only formats text with float prices.
- Parsing of typed text with `int()` and `float()` is not modelled. Operations receive typed arguments.
