# Shopping cart: stock, cart, checkout and sales report

This project models the service layer of a small Laravel shop. The four services act on one store of tables:

- **products** (name, price, stock quantity);
- **cart items** (one line per user and product);
- **orders** and **order items**.

The services are:

- **Stock guard.**
  - Answers whether a product has enough stock for a quantity.
  - Fails with "Insufficient stock for *name*. Available: *n*" when it does not.
  - Decrements a product's stock.
  - Tests a product against the low-stock threshold, which defaults to 5.
- **Cart manager.**
  - Shows a user's lines and their total at current prices.
  - Adds units to a cart. An existing line for the product grows; otherwise a new line is created. The stock check covers the combined quantity.
  - Updates a line. It checks ownership, then the quantity, then the product's current stock.
  - Removes a line, or clears a user's whole cart.
- **Checkout.**
  - Turns a user's cart into one completed order, all or nothing.
  - Order creation: an empty cart is refused. Every line is validated against its product's stock before anything is written.
  - What it writes:
    - an order whose total is the sum of quantity × price;
    - one order item per line, at the price the product had at checkout;
    - a stock decrement per line.
  - It then clears the user's cart.
  - `GetLowStockProducts` re-reads the products of an order and returns those at or below the threshold.
- **Sales report.**
  - Selects the order items of completed orders created within a time window.
  - Reports their total revenue and total units.
  - Counts the distinct orders among them.
  - Gives one entry per product with its units and revenue, sorted by revenue, highest first.

Files and modules:

- `wrappers.dfy` — `Option`, `Result` and `Outcome`. Each guard returns an `Outcome`: `Pass`, or `Fail` carrying an error.
- `shop.dfy` — the rows, the sums of revenue and units over order items, the error kinds, their messages, and decimal rendering with the parser that reads it back.
- `database.dfy` — class `Store`, which holds the tables. It has the invariant `Valid()` and a value snapshot `Tables`.
- `stock.dfy`, `cart.dfy`, `checkout.dfy`, `sales_report.dfy` — one module per service.

How the code is modelled:

- Money (`decimal:2` in the schema) is held as integer cents.
- Reads and guards are functions.
- Operations that change the tables are module-level methods of the service modules. Each takes the `Store` as a parameter `db`; the class itself holds only the tables, `Valid()`, `Snapshot()` and its constructor.
- The cart operations, `Stock.ReduceStock`, `Checkout.WriteLine` and `Checkout.WriteOrderItems` name in their `modifies` clauses the fields they write. `Checkout.Commit` and `Checkout.Process` write several tables and declare `modifies db`, the whole store; their contracts then state every table's new contents.
- The two loops of `process` and the loop of `getLowStockProducts` are `while` loops. Each is proved against a specification function: `ValidateAll`, `OrderItemsFor` / `Decremented`, and `LowStockAmong`.
- `Checkout.Committed` relates the tables before and after a successful checkout. Its lemmas show that this relation carries every promise checkout makes. `Checkout.Process` guarantees it on success. On failure, `Process` guarantees that every table is unchanged.

## Model

| member | source | states |
|---|---|---|
| Stock.HasAvailableStock | app/Services/StockService.php:15-18 | the availability test: stock ≥ quantity (its partner is ValidateAvailability, whose pass case it decides exactly) |
| Stock.ValidateAvailability | app/Services/StockService.php:15-32 | passes exactly when stock ≥ quantity (the availability test); otherwise fails with InsufficientStock carrying the product's name and current stock |
| Stock.InsufficientStockMessage | app/Services/StockService.php:28-30 | the failure message is "Insufficient stock for NAME. Available: N", and N reads back as exactly the available stock |
| Stock.Reduced | app/Services/StockService.php:39-42 | the reduced row keeps id, name and price, and new stock + quantity = old stock |
| Stock.ReduceToZero | app/Services/StockService.php:39-42 | reducing by the whole stock leaves exactly 0 |
| Stock.ReductionsCompose | app/Services/StockService.php:39-42 | two reductions equal one reduction by their sum |
| Stock.ReductionChain | tests/Feature/Stock/StockValidationTest.php:98-110 | reductions of 5, 3 and 7 take 20 to 15, 12 and 5 |
| Stock.ReduceStock | app/Services/StockService.php:39-42 | only the product's entry changes, to its reduced row; the store invariant is kept |
| Stock.IsLowStock | app/Services/StockService.php:48-51 | the low-stock test: stock ≤ threshold (its boundaries are stated by LowStockBoundary) |
| Stock.LowStockThreshold | app/Services/StockService.php:56-59 | the configured threshold when one is given; otherwise DefaultLowStockThreshold, which is 5 |
| Stock.LowStockBoundary | app/Services/StockService.php:48-59 | low stock holds at the threshold, fails at threshold + 1, and always holds at stock 0 (the threshold is a nat) |
| Shop.Message | app/Services/StockService.php:28-30 | the text each error is raised with: "Insufficient stock for NAME. Available: N" here (no final period), "Quantity must be at least 1." (CartService.php:121), "Cart item does not belong to this user." (CartService.php:134) and "Cart is empty." (CheckoutService.php:29) |
| Shop.IntToStringRoundTrip | app/Services/StockService.php:28-30 | the decimal text of an integer parses back to it |
| Cart.LinesOf | app/Services/CartService.php:24-27 | a row is in the result exactly when it is in the table and owned by the user |
| Cart.GetCart | app/Services/CartService.php:24-27 | the user's cart holds exactly the table's lines owned by that user |
| Cart.GetCartTotal | app/Services/CartService.php:34-40 | every line's product exists; the total is the sum of quantity × current price over the user's lines; 0 for an empty cart |
| Cart.LinesTotalAppend | app/Services/CartService.php:34-40 | the total of two carts joined is the sum of their totals |
| Cart.ValidateQuantity | app/Services/CartService.php:118-123 | passes exactly when quantity ≥ 1; otherwise fails with InvalidQuantity |
| Cart.AuthorizeCartItem | app/Services/CartService.php:131-136 | passes exactly when the line's owner is the user; otherwise fails with NotOwner |
| Cart.FindLine | app/Services/CartService.php:53-55 | finds the first line of the user for the product, or proves that there is none |
| Cart.Add | app/Services/CartService.php:49-70 | the quantity defaults to 1. Quantity < 1 fails with InvalidQuantity. An existing line is checked against stock for existing + quantity and grows in place. Otherwise a new line with a fresh id is appended after the stock check. Any failure leaves the table as it was. After success the result is the user's only line for that product. Other users' carts are unchanged, and the invariant (at most one line per user and product) is kept |
| Cart.Update | app/Services/CartService.php:79-88 | NotOwner is checked first, then InvalidQuantity, then the current stock. It succeeds exactly when all three pass, and a quantity equal to the stock passes. On success only that line changes, and only its quantity; on failure nothing changes |
| Cart.Remove | app/Services/CartService.php:96-101 | NotOwner leaves the table alone; otherwise it returns true and deletes exactly that line; other users' carts are unchanged; stock is untouched (products are outside its frame) |
| Cart.Clear | app/Services/CartService.php:108-111 | the table becomes the rows of the other users: the user's cart is empty, and every other user's cart is unchanged |
| Cart.WithoutUserCarts | app/Services/CartService.php:108-111 | after removing a user's lines, that user's cart is empty and every other cart is the same |
| Cart.LinesOfDistinctProducts | app/Services/CartService.php:53-69 | under the table invariant, a user's cart has at most one line per product |
| Checkout.ValidateAll | app/Services/CheckoutService.php:34-39 | passes exactly when every line's quantity is within its product's stock; otherwise reports the first short line's InsufficientStock |
| Checkout.ValidateLines | app/Services/CheckoutService.php:34-39 | the validation loop stops at the first short line and returns ValidateAll's outcome |
| Checkout.OrderItemsForRows | app/Services/CheckoutService.php:51-56 | order item k has id firstId + k, the order's id, line k's product and quantity, and the product's price at checkout |
| Checkout.OrderRevenueIsTotal | app/Services/CheckoutService.php:42-56 | the revenue of the written order items equals the cart total, and their units equal the cart's units |
| Checkout.DecrementedProduct | app/Services/CheckoutService.php:51-59 | after all decrements a product is its old row reduced by the total quantity of the lines for it; name, price and id are unchanged |
| Checkout.StockAfterCheckout | app/Services/CheckoutService.php:34-59 | for validated lines with distinct products, each product drops by exactly its line's quantity and stays ≥ 0; other products are unchanged |
| Checkout.WriteOrderItems | app/Services/CheckoutService.php:51-59 | the second loop appends exactly OrderItemsFor(cart), advances the id counter by the number of lines, and leaves the products Decremented |
| Checkout.RecordedIsCommitted | app/Services/CheckoutService.php:32-65 | writing the order, its items, the decrements and the deletions for a validated cart meets every checkout promise |
| Checkout.Commit | app/Services/CheckoutService.php:41-64 | the writes inside the transaction take the store to a Committed state |
| Checkout.Process | app/Services/CheckoutService.php:24-68 | an empty cart gives EmptyCart. A short line gives the first short line's InsufficientStock. It succeeds exactly when neither happens. On failure every table and counter is unchanged. On success there is one new completed order with the cart's total, one order item per line at the checkout price, whose revenue equals the total, and each product's stock drops by its line's quantity, never below 0. Other products are unchanged; the user's cart is empty and other carts are untouched |
| Checkout.CheckoutExample | tests/Feature/Checkout/CheckoutProcessTest.php:28-43 | 2 × 50.00 + 1 × 30.00 totals 130.00 and takes stocks 10 and 5 to 8 and 4; a line exceeding a stock of 1 fails naming that product and 1 |
| Checkout.ItemsOfOrder | app/Services/CheckoutService.php:78 | a row is in the result exactly when it belongs to the order |
| Checkout.LowStockAmongMembers | app/Services/CheckoutService.php:78-84 | a product row is reported exactly when some item refers to it and it is low on stock |
| Checkout.LowStockOfOrder | app/Services/CheckoutService.php:74-87 | the low-stock products of an order are exactly the current rows of its items' products that are at or below the threshold |
| Checkout.GetLowStockProducts | app/Services/CheckoutService.php:74-87 | the loop returns LowStockAmong of the order's items, in item order, re-read from the current products |
| Shop.TotalRevenue | app/Services/SalesReportService.php:76-79 | the sum of quantity × frozen price over the items; not negative when no quantity or price is |
| Shop.TotalQuantity | app/Services/SalesReportService.php:26 | the sum of the items' quantities; not negative when no quantity is |
| Shop.RevenueAppend | app/Services/SalesReportService.php:76-79 | revenue is additive over concatenation |
| SalesReport.HasCompletedOrder | app/Services/SalesReportService.php:44-47 | true exactly when some order with that id is "completed" and was created within [start, end] |
| SalesReport.CompletedOrderItems | app/Services/SalesReportService.php:41-49 | an item is selected exactly when its order is completed and inside the window |
| SalesReport.OrderIds | app/Services/SalesReportService.php:27 | the set of order ids occurring among the items |
| SalesReport.UniqueOrderIds | app/Services/SalesReportService.php:27 | the ids without repeats, exactly those of OrderIds, as many as there are distinct ids |
| SalesReport.OrderCount | app/Services/SalesReportService.php:27 | the number of distinct order ids, at most the number of items |
| SalesReport.ProductIds | app/Services/SalesReportService.php:59 | the set of product ids occurring among the items |
| SalesReport.ItemsOfProduct | app/Services/SalesReportService.php:59 | the items of one product; non-empty exactly when the product occurs |
| SalesReport.AddToGroups | app/Services/SalesReportService.php:59 | adding an item appends it to its product's group only and adds its product to the keys |
| SalesReport.GroupByProduct | app/Services/SalesReportService.php:59 | the groups are non-empty, keyed by exactly the items' products, and each holds exactly its product's items |
| SalesReport.GroupByProductShape | app/Services/SalesReportService.php:59 | no key repeats, and there is one group per distinct product |
| SalesReport.GroupByProductTotals | app/Services/SalesReportService.php:59-66 | the groups' units and revenue add up to those of all items |
| SalesReport.Summaries | app/Services/SalesReportService.php:59-66 | one entry per group: its first item's product name, or "Unknown Product", with the group's units and revenue |
| SalesReport.SummariesOfGrouping | app/Services/SalesReportService.php:59-66 | the entry of each group is the entry of its product |
| SalesReport.ProductOrder | app/Services/SalesReportService.php:59 | the groups' product ids, in group order |
| SalesReport.ProductOrderDistinct | app/Services/SalesReportService.php:59 | ProductOrder lists every distinct product of the items exactly once and nothing else |
| SalesReport.SummariesAreEntries | app/Services/SalesReportService.php:59-66 | the summary of group k is the entry of the k-th product of ProductOrder |
| SalesReport.InsertSorted | app/Services/SalesReportService.php:67 | inserting into a revenue-descending list keeps it sorted |
| SalesReport.SortByRevenueDesc | app/Services/SalesReportService.php:67 | gives a permutation of the entries, sorted by revenue, highest first, with the same sums |
| SalesReport.AggregateByProduct | app/Services/SalesReportService.php:57-68 | one entry per distinct product: as a multiset the entries are exactly EntryFor of each product in ProductOrder, each distinct product once, so an entry occurs as many times as there are products with that entry. Units sum to the total units and revenue to the total revenue; sorted by revenue, highest first |
| SalesReport.DailySalesData | app/Services/SalesReportService.php:16-29 | over the selected items: the total revenue and total units are their sums, and equal the sums over the entries. The entries, as a multiset, are EntryFor of each distinct selected product, once each; the order count is the number of distinct orders, and the entries are sorted by revenue |

## Left out

- The Livewire components, Blade views, routes and seeders. They are UI, routing or static data. They only catch the services' errors and display messages.
- Mail classes, queued jobs, listeners, the daily-report console command and its schedule. These are e-mail and queue plumbing. The low-stock listener repeats `GetLowStockProducts`.
- The OrderCompleted event. The modelled `process` does not dispatch it.
- Database transactions, row locking and concurrency. Checkout is one atomic step: `Checkout.Process` either commits every write or leaves the `Store` snapshot equal to the old one.
- Floating point. Prices, totals and revenue are integer cents, and the float cast of the cart total is not modelled.
- Clocks and Carbon date handling. The order's creation time `now` and the report window's `startOfDay` and `endOfDay` are parameters.
- The configuration lookup of the low-stock threshold. The configured value is an `Option<nat>` given to `Stock.LowStockThreshold`, so a negative configured value is not modelled; the default is 5.
- Eloquent models, relations and lazy loading. They appear only as the fields of the row datatypes.
- Cart.Add: takes the caller's copy of the product row. The stock check reads that copy, as the source reads the model instance it was given, so the check may use a stale stock.
- Cart.Update, Cart.Remove: require the line to be a current row of the table. Route-model binding guarantees this before the service is called.
- Checkout.GetLowStockProducts: requires every order item's product to exist. The source would fail on a missing product.
- Stock.ValidateAvailability: "changes no stock" holds by construction. It and `HasAvailableStock` are pure functions, so they cannot write a table.
- Checkout.Process: the promise that later price changes do not alter an order's items or total is not a separate lemma. It follows from the frames, because no modelled operation writes `orders` or `orderItems` except checkout, which only appends to them.
- SalesReport.SortByRevenueDesc: the sort is stable, matching the collection's sort. The contract states sortedness and the permutation, but not stability.
- SalesReport.DailySalesData: takes the order items, orders and products as values instead of querying them. Reading them from the `Store` is left to the caller.
