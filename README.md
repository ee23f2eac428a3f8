# Inventory stock mutator and reports, in Dafny

This project models the core of a small Django REST inventory service.

- **Records** (`models.dfy`, module `Models`). These are `Product` and `Transaction` with their defaults and bounds. `unit_price` is kept as integer cents and bounded by `DecimalField(max_digits=10, decimal_places=2)`. The transaction type has exactly two choices, `IN` and `OUT`. `updated_at` is refreshed on every save. Deleting a product or a user cascades to the transactions that reference it.
- **Stock mutator** (`inventory.dfy`, module `Inventory`). It is a class `Store` holding the product table (`map` from id to `Product`) and the append-only transaction log (`seq<Transaction>`). `StockIn` and `StockOut` are methods that check the requested quantity. On success they update the product in place and append one audit row.
- **Read-only aggregates** (`aggregates.dfy`, module `Aggregates`). These are pure functions over the table and the log:
  - the per-product ledger balance (Σ IN − Σ OUT);
  - the daily and monthly report sums and transaction lists;
  - the dashboard counters: product count, Σ quantity × unit_price, today's IN/OUT counts and the low-stock count (threshold 10).

The store's invariant is `Inventory.Consistent`. It states four things:
- every logged transaction refers to an existing product and has a positive quantity;
- transaction ids increase along the log;
- each product's quantity equals its quantity when the store was opened plus Σ IN − Σ OUT of its log entries;
- for every product whose starting quantity was non-negative, every intermediate balance along the log is non-negative too.

`StockIn` and `StockOut` preserve this invariant, so it holds over any sequence of calls.

Time is a `DateTime` record: a calendar day plus a time of day in microseconds. This makes `today.replace(day=1)` exact. The monthly window starts on day 1 at *now's* time of day, not at midnight. `Aggregates.MonthlyWindowSkipsEarlyFirstDay` shows that a transaction on the 1st earlier in the day than now's clock time is left out of the monthly report.

Four facts of the code shape what the model proves:
- `quantity` and `unit_price` carry no non-negativity validator (inventory/models.py:7-8). So non-negativity is proved only for quantities changed by `StockIn`/`StockOut`, and only from a non-negative start.
- `stock_out` answers both a non-positive quantity and insufficient stock with one combined message, "Invalid quantity or insufficient stock" (inventory/views.py:42, 55-56).
- Each action saves the product and then creates the transaction row, with no database transaction around the two (inventory/views.py:23-32, 43-52). The model treats each call as one step (see "Left out").
- A product may be created with any quantity, 0 when none is given (inventory/models.py:7). So the ledger is stated relative to each product's quantity when the store was opened.

`Models.TypeLabel` gives the human-readable label of each transaction type choice ("Stock In", "Stock Out", inventory/models.py:16-19); nothing in the model depends on it.

## Model

| member | source | states |
|---|---|---|
| `Inventory.Store.StockIn` | inventory/views.py:17-35 | unknown id: 404 and nothing changes; quantity ≤ 0 (absent reads as 0): "Invalid quantity" and nothing changes; otherwise that product's quantity rises by exactly q, it is saved (`updated_at` = now, `created_at` kept), exactly one IN transaction (next id, q, this product, this user, notes or "") is appended, other products and earlier log entries are untouched, the invariant is kept, and the stock value rises by q × unit_price |
| `Inventory.Store.StockOut` | inventory/views.py:37-56 | unknown id: 404 and nothing changes; unless 0 < q ≤ current quantity: "Invalid quantity or insufficient stock" and nothing changes; otherwise quantity falls by exactly q and stays ≥ 0, exactly one OUT transaction of q is appended, nothing else changes, the invariant is kept, and the stock value falls by q × unit_price |
| `Inventory.AppendKeepsConsistent` | inventory/views.py:22-32 | appending one positive-quantity transaction with the next id, and storing its product moved by the signed quantity (never negative from a non-negative start), keeps the ledger identity, the running-balance bound, increasing ids and referential integrity |
| `Inventory.Store.SaveAndLog` | inventory/views.py:23-32 | `product.save()` then `Transaction.objects.create`: the product's quantity moves by the transaction's signed quantity and `updated_at` becomes its date, exactly that transaction is appended under the next id, and the invariant is kept |
| `Inventory.ConsistentNonNegative` | inventory/views.py:42-43 | under the invariant, a product whose starting quantity was ≥ 0 still has quantity ≥ 0 |
| `Inventory.Requested` | inventory/views.py:20 | a missing `quantity` reads as 0, a given one as itself |
| `Inventory.StatusCode` | inventory/views.py:34-35 | success is 200, a rejected quantity is 400, an unknown product is 404, each one-to-one |
| `Models.NewProduct` | inventory/models.py:4-10 | a product created without a quantity starts at 0 and without a description is blank; both timestamps are the creation time; the record meets the field bounds |
| `Models.Saved` | inventory/models.py:10 | saving sets `updated_at` to now and changes no other field |
| `Models.TypeCode` | inventory/models.py:22 | each stored type code is non-empty and fits `max_length=3` |
| `Models.ParseType` | inventory/models.py:16-19 | exactly "IN" and "OUT" are valid type codes, each reads back to the type that writes it |
| `Models.FirstOfMonth` | inventory/views.py:113 | `replace(day=1)` keeps the year, month and time of day, stays a valid timestamp, and is never after the original |
| `Models.CascadeProduct` | inventory/models.py:21 | deleting a product removes every transaction referencing it and keeps every other one, with its multiplicity |
| `Models.CascadeUser` | inventory/models.py:25 | deleting a user removes every transaction that user created and keeps every other one, with its multiplicity |
| `Models.DeleteProduct` | inventory/models.py:21 | deleting a product drops exactly that row, keeps the others unchanged, and cascades to the log |
| `Models.DeleteProductKeepsReferences` | inventory/models.py:21 | after the cascade every surviving transaction still references an existing product |
| `Aggregates.NetFlowAppend` | inventory/views.py:23-32 | logging one transaction moves its own product's balance by its signed quantity and no other product's |
| `Aggregates.NetFlowSplits` | inventory/views.py:22-49 | a product's ledger balance is the sum of its IN quantities minus the sum of its OUT quantities |
| `Aggregates.NetFlowCascadeProduct` | inventory/models.py:21 | a product deletion leaves every other product's balance unchanged |
| `Aggregates.NetFlowCascadeUser` | inventory/models.py:25 | a user deletion lowers each product's balance by exactly that user's net contribution to it, and the balance survives the deletion exactly when that contribution is 0 |
| `Aggregates.Selected` | inventory/views.py:96-98 | the listed transactions are exactly the log entries inside the window |
| `Aggregates.Total` | inventory/views.py:101-106 | a type's sum over a window is 0 when no transaction of that type lies in it, and never negative when all quantities are positive |
| `Aggregates.Tally` | inventory/views.py:80-85 | a type's count over a window is at most the log length, and 0 exactly when no transaction of that type lies in it |
| `Aggregates.TotalZeroIff` | inventory/views.py:101-106 | with positive quantities a type's sum is ≥ 0, and it is 0 exactly when no transaction of that type is in the window |
| `Aggregates.TotalAppend` | inventory/views.py:101-106 | one more transaction adds its quantity only to the sum of its own type, and only when it is in the window |
| `Aggregates.TallyAppend` | inventory/views.py:80-85 | one more transaction adds one only to the count of its own type, and only when it is in the window |
| `Aggregates.TallySplit` | inventory/views.py:70-85 | the IN count plus the OUT count is the number of transactions in the window |
| `Aggregates.TallyAtMostTotal` | inventory/views.py:80-82 | with positive quantities the count never exceeds the sum, and equals it exactly when every counted quantity is 1 |
| `Aggregates.TotalsCoverSelected` | inventory/views.py:100-107 | the IN sum plus the OUT sum is the total quantity of the listed transactions |
| `Aggregates.ReportFigures` | inventory/views.py:100-108 | a report's two sums add up to the quantities it lists; with positive quantities each is ≥ 0 and is 0 exactly when no transaction of its type is in the window |
| `Aggregates.DailyWindow` | inventory/views.py:94 | the daily window is the given date, or today when none is given |
| `Aggregates.DailyReport` | inventory/views.py:93-108 | `daily_report` lists exactly the transactions dated on the given date (today when none is given), and its IN and OUT sums add up to the quantities it lists |
| `Aggregates.DailyReportFigures` | inventory/views.py:93-108 | `daily_report` sums are ≥ 0 and are 0 exactly when no IN (OUT) transaction is dated that day; it lists exactly the transactions of that day |
| `Aggregates.MonthlyWindowIff` | inventory/views.py:113-118 | a timestamp is in the monthly window exactly when it lies in now's month, on or after day 1 at now's time of day, and not after now |
| `Aggregates.MonthlyWindowSkipsEarlyFirstDay` | inventory/views.py:113 | on day 1, a transaction earlier than now's time of day is excluded; one at or after it is included once now is past day 1; midnight of day 1 is included only when now is at midnight |
| `Aggregates.MonthlyWindowHoldsNow` | inventory/views.py:116-117 | both ends are inclusive: now itself is in the monthly window |
| `Aggregates.MonthlyWindow` | inventory/views.py:113-118 | every timestamp in the monthly window lies in now's year and month, and a valid now lies in it |
| `Aggregates.MonthlyReport` | inventory/views.py:111-128 | `monthly_report` lists exactly the transactions in the monthly window, all in now's month, and its IN and OUT sums add up to the quantities it lists |
| `Aggregates.MonthlyReportFigures` | inventory/views.py:111-128 | `monthly_report` sums are ≥ 0 and are 0 exactly when no IN (OUT) transaction is in the window; every listed transaction lies in now's month |
| `Aggregates.LoggedNowIsReported` | inventory/views.py:94-106 | a transaction logged at now adds its quantity to its own type's sum in today's daily report and in the monthly report, and adds one to today's dashboard count of its type |
| `Aggregates.ValueOfRemove` | inventory/views.py:64-66 | Σ quantity × unit_price does not depend on the order products are added up |
| `Aggregates.StockValueUpdate` | inventory/views.py:64-66 | replacing one product changes the total stock value by that product's change in quantity × unit_price alone |
| `Aggregates.StockValue` | inventory/views.py:64-66 | the stock value of an empty product table is 0 |
| `Aggregates.ValueOfNonNegative` | inventory/views.py:64-66 | with non-negative quantities and prices, Σ quantity × unit_price is ≥ 0 |
| `Aggregates.StockValueMove` | inventory/views.py:64-66 | moving one product's quantity up (down) by q and saving it raises (lowers) the stock value by exactly q × its unit_price |
| `Aggregates.LowStockCount` | inventory/views.py:75 | the low-stock count is at most the product count, and is 0 exactly when every product has at least 10 units |
| `Aggregates.DashboardOf` | inventory/views.py:61-87 | the dashboard counts every product, reports the table's stock value, its IN and OUT counters together count today's transactions, the low-stock count is at most the product count, and an empty table has value 0 and no alerts |
| `Aggregates.DashboardEmptyTable` | inventory/views.py:63-66 | with no products: 0 products, stock value 0, no low-stock alerts |
| `Aggregates.DashboardTodayCounts` | inventory/views.py:69-85 | today's IN and OUT counters count (not sum) today's transactions and together cover all of them |

## Left out

- `inventory/urls.py`: router registration only, no logic.
- HTTP request and response shaping, the `IsAuthenticated` permission and the serializers are framework glue. The serializers are not part of this model. `get_object`'s 404 is modelled as the `NotFound` response with no change.
- The generic `ModelViewSet` create/update/delete on products is library code. A `Store` is opened over an existing product table and changes it only through `StockIn`/`StockOut`. Cascade deletion is modelled as pure functions over the table and log (`Models.DeleteProduct`, `Models.CascadeProduct`, `Models.CascadeUser`).
- Atomicity and concurrency: the code saves the product and then creates the transaction with no database transaction around them, and concurrent `stock_out` calls can race. The model treats each call as one sequential step.
- Inventory.Store.StockIn: does not model the database's bound on `IntegerField` (a 32-bit column on common backends), because it is a property of the backend, not the code. An overflowing `save()` would fail there; in the model the quantity is unbounded.
- The `float(...)` conversion of `total_stock_value` is floating point. The model keeps the exact value in integer cents.
- Type coercion of request data (a string `quantity` would raise) is left out. So is the string form of the `date` query parameter. The model takes typed integers and a `Date`.
- `timezone.now()` becomes a `now` parameter. The conversion to the current time zone behind the `__date` lookup is left out: timestamps are taken as already local.
- The order in which the database returns report rows is left out: the report lists transactions in log order.
- `Product.__str__` only returns `name` and is not modelled.
- The `User` model is not part of this model. Users are plain ids.
