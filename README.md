# smart-inventory, modelled in Dafny

smart-inventory is a small shop back office made of three parts:

- **inventory service**: products with their SKU, price and safety stock. Each product has one stock row. Stock is adjusted or set by hand. Both adjusting and setting publish a low-stock alert when the new stock is at or below the safety stock. Adjusting also builds a stock-change message. That message reads a timestamp column the stock row does not have, and the error is swallowed, so the message is never sent (see "## Findings").
- **order service**: creates orders from a list of product lines. Before writing the order it checks and reserves stock through an inventory client. It then moves orders through the workflow CREATED → PAID → SHIPPED → REFUNDED (CREATED may also go to CANCELLED). Cancelling an order releases its stock.
- **browser dashboard**: lists the products with a stock badge, a status filter, a search box and a three-state column sort. It also shows stock alerts and reports built from the orders.

The model has one Dafny module per part of the program:

| module | models |
|---|---|
| `Common` | option, outcome (a value or an HTTP status code), result, Python truthiness, decimal text of integers |
| `OrderModels`, `InventoryModels` | the database tables, as classes with map and sequence fields; the cache keys and the published messages |
| `OrderWorkflow` | the status enum, the transition table, `can_transition`, `get_valid_transitions`, `update_order_status`, `get_order_workflow_info` |
| `Stock` | the stock endpoints: adjust, get, list, low-stock, set |
| `Products` | the product endpoints: create, list, get, update, delete |
| `InventoryClient` | the order service's calls to the inventory service, and the loops of `create_order` and `cancel_order` over the order lines |
| `Orders` | the order endpoints: create, get, update, status change, workflow info, cancel, delete |
| `Seqs`, `StableSort` | JavaScript `Array.prototype.filter`, and the stable `Array.prototype.sort` over a sort key |
| `ViewState` | the product table's badge, status filter, search, sort toggle and the page state (`products`, `filteredProducts`, `currentSort`) |
| `Reports` | the stock alert lists, the dashboard and inventory-report counts, the order report's tallies and top customers, `getStatusClass` |

How each kind of state is modelled:

- **Database tables** are fields of a class. The methods reassign those fields in place and list them in `modifies`.
- **The inventory service as the order service sees it** is the same inventory class. The order service's HTTP calls become calls to the handlers' models.
- **The dashboard's page state** is a class whose methods recompute `filteredProducts`.
- **Pure computations** are functions, with the facts about them proved as lemmas.

## Model

| member | source | states |
|---|---|---|
| OrderWorkflow.Parse | order-service/app/services/order_workflow.py:13-18 | a recognised text names the status it parses to; any other text names no status |
| OrderWorkflow.ParseName | order-service/app/services/order_workflow.py:13-18 | every status's stored text parses back to that status |
| OrderWorkflow.TransitionTableExact | order-service/app/services/order_workflow.py:24-30 | the allowed steps are exactly CREATED→PAID, CREATED→CANCELLED, PAID→SHIPPED, PAID→REFUNDED and SHIPPED→REFUNDED |
| OrderWorkflow.CanTransition | order-service/app/services/order_workflow.py:33-37 | fails (a `ValueError`) exactly when either text is not a status, naming the first bad one; otherwise true exactly when the step is in the table |
| OrderWorkflow.GetValidTransitions | order-service/app/services/order_workflow.py:40-43 | fails exactly when the current text is not a status |
| OrderWorkflow.CanTransitionIffListed | order-service/app/services/order_workflow.py:33-43 | `can_transition(c, t)` is true exactly when `t` is in `get_valid_transitions(c)`; both fail on an unknown current status |
| OrderWorkflow.CanTransitionListedAll | order-service/app/services/order_workflow.py:33-43 | the same equivalence, for every target at once |
| OrderWorkflow.StepRaisesRank | order-service/app/services/order_workflow.py:24-30 | every allowed step moves strictly forward in the order CREATED < PAID, CANCELLED < SHIPPED < REFUNDED |
| OrderWorkflow.RunRaisesRank | order-service/app/services/order_workflow.py:24-30 | along any chain of allowed steps the rank grows by at least one per step |
| OrderWorkflow.RunIsAcyclic | order-service/app/services/order_workflow.py:24-30 | no chain of allowed steps returns to the status it started from |
| OrderWorkflow.RunHasAtMostThreeSteps | order-service/app/services/order_workflow.py:24-30 | an order changes status at most three times, and only CREATED→PAID→SHIPPED→REFUNDED takes three |
| OrderWorkflow.AppendedNotesGrow | order-service/app/services/order_workflow.py:69-74 | an empty note keeps the notes; a note always ends the new notes; existing notes stay in front, followed by a newline |
| OrderWorkflow.StatusUpdateSpec | order-service/app/services/order_workflow.py:46-79 | the update succeeds exactly when the order exists and the step is allowed; a missing order is "not found". On success it sets the status and `updated_at`, sets `paid_at`/`shipped_at` only when moving to PAID/SHIPPED, appends the note, and keeps total, creation time and customer data |
| OrderWorkflow.UpdateOrderStatus | order-service/app/services/order_workflow.py:46-79 | the stored order becomes the updated order on success; on failure nothing changes; order items are never touched |
| OrderWorkflow.GetOrderWorkflowInfo | order-service/app/services/order_workflow.py:82-96 | fails exactly on an unparsable status; otherwise lists exactly the statuses `can_transition` allows |
| Stock.Adjust | inventory-service/app/routers/stock.py:41-54 | fails with 404 when the product or its stock row is missing, with 400 when the stock would go below zero; otherwise only that product's stock changes, by the adjustment |
| Stock.AdjustEvents | inventory-service/app/routers/stock.py:58-87 | an adjustment publishes nothing exactly when it fails or leaves the stock above the safety stock; otherwise it publishes exactly the low-stock alert with the new stock and the safety stock |
| Stock.AdjustPublishesNoChange | inventory-service/app/routers/stock.py:73-87 | as written, no adjustment publishes a stock-change message |
| Stock.IntendedAdjustEvents | inventory-service/app/routers/stock.py:58-87 | the intended messages: nothing exactly when the adjustment fails; otherwise the low-stock alert (if any), then the stock change for that product with the old level, the new level, the adjustment and the low-stock flag |
| Stock.IntendedAdjustEventsChanges | inventory-service/app/routers/stock.py:73-87 | the intended messages hold one stock change per applied adjustment (none for a refused one), for that product, with old level + adjustment = new level |
| Stock.StockChangeLost | inventory-service/app/routers/stock.py:83 | product 1 at stock 5, safety stock 0, adjusted by +1: nothing is published, where the intended message is the change from 5 to 6 |
| Stock.AdjustDropped | inventory-service/app/routers/stock.py:89-95 | an adjustment drops no cache key exactly when it fails |
| Stock.AdjustKeepsNonNegative | inventory-service/app/routers/stock.py:50-54 | a successful adjustment keeps every stock level non-negative |
| Stock.AdjustUndo | inventory-service/app/routers/stock.py:50-54 | adjusting by `-a` after a successful adjustment by `a` restores the stock table |
| Stock.AdjustStock | inventory-service/app/routers/stock.py:37-104 | on failure the table, cache and events are unchanged. On success the stock is the adjusted table and both cache keys are dropped. The only event published is a low-stock alert, when the new stock is at or below the safety stock; no stock change is sent |
| Stock.GetStock | inventory-service/app/routers/stock.py:106-123 | 404 without a stock row, 500 when the product row is missing; otherwise the current stock, with `is_low_stock` exactly when stock ≤ safety stock |
| Stock.ListAllStock | inventory-service/app/routers/stock.py:125-142 | one entry for every product that has a stock row, each equal to `get_stock` of it |
| Stock.GetLowStockProducts | inventory-service/app/routers/stock.py:144-161 | exactly the listed products whose stock is at or below their safety stock, with their listed figures |
| Stock.SetStock | inventory-service/app/routers/stock.py:163-200 | a negative value is 400, a missing stock row 404, and both change nothing. Otherwise the stock row is set. A missing product row then fails with 500. Without that failure the answer is "Stock set to {value} successfully", a low-stock alert (and no stock-change event) is published when at or below the safety stock, and the cache keys are dropped. Non-negative stock stays non-negative |
| Common.NatToString | inventory-service/app/routers/stock.py:200 | the decimal text of a natural number: non-empty, all digits, no leading zero, and its digits read back as the number |
| Common.IntToString | inventory-service/app/routers/stock.py:200 | the decimal text of an integer: a leading minus exactly for a negative number, digits after it, and the text reads back as the number |
| Products.CreateProduct | inventory-service/app/routers/products.py:39-56 | a taken SKU is 409 and changes nothing; otherwise the product and its stock row are added under a fresh id (safety stock and stock default to 0), the list cache is dropped, and SKUs stay unique |
| Products.ListProducts | inventory-service/app/routers/products.py:58-73 | exactly the products that have a stock row, each with its product fields and its stock |
| Products.GetProduct | inventory-service/app/routers/products.py:75-83 | the listed record of that product, or 404 when it is not listed |
| Products.UpdatedChangesOnlySupplied | inventory-service/app/routers/products.py:91-98 | a partial update replaces exactly the supplied fields and never the SKU; an empty update changes nothing |
| Products.UpdateProduct | inventory-service/app/routers/products.py:85-115 | 404 changes nothing. Otherwise the supplied fields are committed and both cache keys dropped. A missing stock row then fails with 500, after the commit |
| Products.DeleteProduct | inventory-service/app/routers/products.py:117-148 | 404 for a missing product, 409 while any order item names it, and neither changes anything. It succeeds exactly when the product exists and nothing references it, and then removes the product and its stock row |
| OrderModels.ItemsOf | order-service/app/models.py:27-33 | the items of one order: the rows of `order_items` with that order id, in table order |
| OrderModels.WithoutOrder | order-service/app/models.py:27-33 | exactly the rows of other orders remain, in table order |
| OrderModels.CountReferences | inventory-service/app/routers/products.py:123-130 | zero exactly when no order item names the product |
| OrderModels.ItemsOfAppend | order-service/app/models.py:27-33 | selecting one order's items distributes over appending item rows |
| OrderModels.ItemsOfNone | order-service/app/models.py:27-33 | rows of other orders contribute no items |
| OrderModels.ItemsOfAll | order-service/app/models.py:27-33 | rows that all belong to the order are all its items |
| InventoryClient.CheckCode | order-service/app/services/inventory_client.py:13-34 | no error exactly when the product and its stock row exist and the stock covers the quantity. Otherwise the error is 404 for a missing stock row, 500 for a missing product, or 409 for too little stock |
| InventoryClient.CheckStock | order-service/app/services/inventory_client.py:13-34 | fails exactly with `CheckCode`'s error; otherwise the stock it returns covers the quantity |
| InventoryClient.GetProductInfo | order-service/app/services/inventory_client.py:74-86 | the product's name, SKU and price when it is listed, 404 otherwise |
| InventoryClient.ReserveCode | order-service/app/services/inventory_client.py:47-52 | the adjust endpoint's 400 becomes 409; other codes pass through |
| InventoryClient.ReserveStock | order-service/app/services/inventory_client.py:36-54 | reserving is adjusting by `-qty`, with 400 reported as 409: the same stock, answer, published events and dropped cache keys as `adjust_stock`; products and the next id are unchanged and a valid database stays valid |
| InventoryClient.ReleaseStock | order-service/app/services/inventory_client.py:56-72 | releasing is adjusting by `+qty`: the same stock, answer, published events, dropped cache keys and failure codes as `adjust_stock`; products and the next id are unchanged and a valid database stays valid |
| InventoryClient.FirstCheckFailure | order-service/app/routers/orders.py:86-89 | no failure exactly when every line passes its check |
| InventoryClient.FirstCheckFailureAt | order-service/app/routers/orders.py:86-89 | the failure reported is that of the first line that fails |
| InventoryClient.CheckItems | order-service/app/routers/orders.py:86-89 | the loop stops at the first failing check with its code; when all pass, the total is the sum of price × quantity |
| InventoryClient.AdjustRun | order-service/app/routers/orders.py:92-93 | the loop over the lines stops at the first failing adjustment, so fewer lines are done exactly when one failed |
| InventoryClient.AdjustRunStops | order-service/app/routers/orders.py:92-93 | after a failure the remaining lines change nothing |
| InventoryClient.AdjustRunFailurePrefix | order-service/app/routers/orders.py:92-93 | the lines before the failing one all succeeded, and the failing line's adjustment fails with the reported code |
| InventoryClient.RunPublishesNoChange | order-service/app/routers/orders.py:92-93 | reserving or releasing the lines of an order never publishes a stock-change message |
| InventoryClient.RunEventsAllLow | order-service/app/routers/orders.py:92-93 | every message published while reserving or releasing the lines of an order is a low-stock alert |
| InventoryClient.RunEventsPerLine | order-service/app/routers/orders.py:92-93 | the run over the lines publishes at most one message (a low-stock alert) per line it adjusted |
| InventoryClient.RunDroppedKeys | order-service/app/routers/orders.py:92-93 | the run drops the product-list key exactly when it adjusted some line, and a product's key exactly when one of the adjusted lines names that product |
| InventoryClient.ReservableShrinks | order-service/app/routers/orders.py:92-93 | if all the lines can be reserved together, so can all but the last |
| InventoryClient.ReserveRunSpec | order-service/app/routers/orders.py:92-93 | reserving every line succeeds exactly when each product's stock covers the total quantity of that product over all lines; the stock then drops by exactly those totals |
| InventoryClient.DistinctItemsReserve | order-service/app/routers/orders.py:86-93 | when no product appears twice, lines that pass the checks can all be reserved |
| InventoryClient.QtyOfDistinct | order-service/app/routers/orders.py:86-93 | without repeated products, a product's total quantity is that of its one line |
| InventoryClient.QtyOfAbsent | order-service/app/routers/orders.py:86-93 | a product on no line has total quantity 0 |
| InventoryClient.ReleaseRaises | order-service/app/routers/orders.py:128-133 | releasing every line while ignoring errors raises each product's stock by its total quantity |
| InventoryClient.ReleaseUndoesReserve | order-service/app/routers/orders.py:92-133 | releasing a fully reserved order restores the stock exactly |
| InventoryClient.ReleaseUndoesPartialReserve | order-service/app/routers/orders.py:92-93 | releasing just the lines reserved before a failure restores the stock exactly |
| InventoryClient.ReleaseMatchesRun | order-service/app/routers/orders.py:128-133 | when no release is refused, ignoring errors changes nothing: same stock, same messages, same dropped keys as the run that stops at an error |
| InventoryClient.DuplicateItemLeaks | order-service/app/routers/orders.py:86-98 | with stock 5 and two lines of 3 for the same product, both checks pass, the second reservation fails with 409, and the stock is left at 2 |
| InventoryClient.ReserveItems | order-service/app/routers/orders.py:92-93 | the reservation loop leaves the stock, the failure and the count of reserved lines of the run above; the messages published are those of the lines adjusted, appended in line order, and the cache keys dropped are theirs; products and the next id are unchanged and a valid database stays valid |
| InventoryClient.ReleaseItems | order-service/app/routers/orders.py:128-133 | the release loop that ignores each error leaves the stock of `ReleaseIgnoringErrors`, appends the messages of the releases that succeed in line order and drops their cache keys; products and the next id are unchanged and a valid database stays valid |
| InventoryClient.ReleaseEach | order-service/app/routers/orders.py:271-273 | the release loop that stops at the first error leaves the stock of the run and reports whether all lines were released; the messages and dropped keys are those of the lines released, in line order; products and the next id are unchanged and a valid database stays valid |
| Orders.ItemView | order-service/app/routers/orders.py:180-201 | an item shows its quantity, unit price and subtotal; the product's name and SKU when the inventory lists it, otherwise "Product <id>" and "N/A" |
| Orders.ItemViews | order-service/app/routers/orders.py:176-201 | one view per order item, in order |
| Orders.GetOrder | order-service/app/routers/orders.py:167-216 | 404 exactly for an unknown order; otherwise every stored field of the order, and exactly its items |
| Orders.RowsTotal | order-service/app/routers/orders.py:89-122 | the stored items' price × quantity add up to the total computed while checking |
| Orders.NewOrderRows | order-service/app/routers/orders.py:100-122 | the new order's items are exactly the new rows, one per line with that line's product, quantity and price, and their sum is the order total |
| Orders.SaveOrder | order-service/app/routers/orders.py:100-135 | a failed write leaves the orders unchanged, releases every line ignoring errors (publishing and dropping what those releases do), and returns 500. Otherwise it adds the order as CREATED with a fresh id and its item rows, publishes nothing, and returns that order as `get_order` shows it. The inventory products and next id never change, and a valid inventory stays valid |
| Orders.CreateOrder | order-service/app/routers/orders.py:74-135 | outcomes in order: 422 for a non-positive quantity; 400 for no items; the first failing check's code; a failed reservation's code, with the lines reserved before it left reserved; 500 with the stock restored when the write fails; otherwise the stock drops by the ordered quantities and the order is stored with a total equal to its items' sum. Nothing is published or dropped before the reservations; then the reservations' messages and keys, followed by those of the rollback releases when the write fails. The inventory next id is unchanged and a valid inventory stays valid |
| Orders.CreateOrderAtomic | order-service/app/routers/orders.py:74-135 | corrected: any failure leaves orders and stock unchanged; success happens exactly when the lines are valid, pass the checks, can be reserved together and the write succeeds. The messages and dropped keys are those of the reservations, followed by those of releasing the reserved lines after a refused reservation or a failed write. The inventory next id is unchanged and a valid inventory stays valid |
| Orders.EditedChangesOnlySupplied | order-service/app/routers/orders.py:230-238 | an edit replaces exactly the supplied customer fields and notes, stamps `updated_at`, and keeps status, total and timestamps |
| Orders.UpdateOrder | order-service/app/routers/orders.py:218-242 | 404 for an unknown order, 400 unless it is CREATED, and both change nothing; otherwise the order is edited and returned |
| Orders.UpdateOrderStatus | order-service/app/routers/orders.py:244-251 | any workflow failure, including an unknown order, is 400 and changes nothing; otherwise the workflow's update is stored and the order returned |
| Orders.GetOrderWorkflow | order-service/app/routers/orders.py:253-260 | 404 for an unknown order, 500 for an unparsable stored status; otherwise the workflow info of the order |
| Orders.Demands | order-service/app/routers/orders.py:270-273 | one release line per order item, with its product and quantity |
| Orders.CancelOrder | order-service/app/routers/orders.py:262-287 | 404 and 400 (status other than CREATED or PAID) change nothing and publish nothing. Otherwise every item's stock is released first, publishing and dropping what that release run does; if a release or the status change fails the result is 500 with the releases kept and the order unchanged; else the order is CANCELLED with the note. Inventory products and next id are unchanged and a valid inventory stays valid |
| Orders.PaidCannotCancel | order-service/app/routers/orders.py:268-281 | a PAID order passes the cancel guard but the workflow refuses PAID→CANCELLED |
| Orders.CancellableIsCreated | order-service/app/routers/orders.py:268-281 | of the two statuses the cancel guard lets through, the workflow lets only CREATED move to CANCELLED |
| Orders.CancelPaidReleasesThenFails | order-service/app/routers/orders.py:268-287 | cancelling a PAID order with 2 units on a product at stock 5 raises the stock to 7 and then fails |
| Orders.CancelOrderChecked | order-service/app/routers/orders.py:262-287 | corrected: only a CREATED order is cancelled, and stock is released (with its messages and dropped keys) only then; success happens exactly when the order is CREATED and every release succeeds, and sets the status to CANCELLED, leaving other orders unchanged. Inventory products and next id are unchanged and a valid inventory stays valid |
| Orders.WithoutOrderKeepsOthers | order-service/app/routers/orders.py:300-304 | deleting an order's items leaves every other order's items as they were |
| Orders.DeleteOrder | order-service/app/routers/orders.py:289-307 | 404 for an unknown order and 400 for a SHIPPED one change nothing; it succeeds exactly otherwise, removing the order and all of its items and nothing else |
| StableSort.SortBySorted | frontend/app.js:247-264 | the sorted list never puts an element before one that the comparator orders strictly ahead of it |
| StableSort.SortByPermutation | frontend/app.js:247-264 | sorting is a permutation |
| StableSort.SortByStable | frontend/app.js:247-264 | elements with equal keys keep their relative order |
| StableSort.CodeUnitsInjective | frontend/app.js:257-261 | distinct strings have distinct UTF-16 code units |
| StableSort.StrLtTotal | frontend/app.js:261-262 | the string `<` is total: of two distinct strings one is below the other |
| StableSort.AstralBeforeHighBmp | frontend/app.js:261-262 | `<` compares UTF-16 code units, so U+1F600 sorts before U+FFFD although its code point is larger |
| ViewState.Classify | frontend/app.js:283-296 | each row gets exactly one badge: Out of Stock at 0, Low Stock at or below the safety stock, In Stock otherwise (missing values count as 0) |
| ViewState.StatusFiltered | frontend/app.js:216-236 | the products the selected status keeps, in order (an empty selection keeps all): a subsequence holding exactly those rows |
| ViewState.FilterMatchesBadge | frontend/app.js:216-236 | with non-negative stock and safety stock each status filter keeps exactly the rows with the matching badge |
| ViewState.NegativeStockMatchesNoFilter | frontend/app.js:216-236 | a row with negative stock shows Low Stock yet matches none of the three status filters |
| ViewState.NegativeSafetyMatchesTwoFilters | frontend/app.js:216-236 | with a negative safety stock a row at 0 matches both 'in-stock' and 'out-of-stock' |
| ViewState.Lower | frontend/app.js:238-243 | lower-casing keeps the length and lowers each character |
| ViewState.LowerIdempotent | frontend/app.js:238-243 | lowered text has no upper-case letter and lowering it again changes nothing |
| ViewState.ContainsAt | frontend/app.js:240-243 | `includes` holds exactly when the term occurs at some position; the empty term occurs everywhere |
| ViewState.Searched | frontend/app.js:238-244 | an empty search keeps the rows; otherwise the rows whose lowered SKU or name contains the lowered term, in order: a subsequence holding exactly those rows |
| ViewState.Toggle | frontend/app.js:323-337 | another column starts at asc, asc goes to desc, desc goes to unsorted; a valid state stays valid, and a column in 'default', which no valid state holds, stays as it is |
| ViewState.ToggleThreeTimes | frontend/app.js:323-337 | three clicks on a column leave the list unsorted and a fourth starts again at asc |
| ViewState.FilteredRows | frontend/app.js:213-244 | the status filter followed by the search keeps, in order, the products both filters keep: a subsequence holding exactly those rows |
| ViewState.VisibleSpec | frontend/app.js:213-267 | the shown rows are a permutation of the filtered rows. Unsorted, they keep the product order. Sorted, they are ordered by the column key, and rows with equal keys keep their order |
| ViewState.StockSortsAsText | frontend/app.js:254-258 | sorting by stock compares text, so 10 sorts before 9 |
| ViewState.ProductsPage.ApplyFiltersAndSort | frontend/app.js:213-269 | `filteredProducts` becomes the visible rows for the current filter, search and sort; the product list and the sort state are kept |
| ViewState.ProductsPage.LoadProducts | frontend/app.js:195-210 | the fetched list becomes `products` and is shown through the current filters |
| ViewState.ProductsPage.SortProducts | frontend/app.js:323-342 | the sort state moves by the toggle and stays valid; the list is shown again |
| ViewState.ProductsPage.constructor | frontend/app.js:8-12 | the page starts with no products and no sort column, direction asc |
| Reports.StockAlerts | frontend/app.js:97-113 | the two alert lists hold exactly the Out of Stock and the Low Stock rows in order, and with the In Stock rows they account for every product once |
| Reports.AlertCount | frontend/app.js:70-76 | the out-of-stock plus low-stock count, plus the rows that are neither, is the number of products |
| Reports.InStockCount | frontend/app.js:1035-1041 | the total minus the two counts is exactly the number of rows that are neither, so never negative |
| Reports.CountsMatchBadges | frontend/app.js:70-113 | without negative stock the alert count equals the two alert lists together and the in-stock count equals the In Stock badges |
| Reports.NegativeStockMiscounted | frontend/app.js:97-113 | a product with stock −1 is listed as a low-stock alert, yet counted as no alert and as in stock |
| Reports.AddLookup | frontend/app.js:1211-1224 | adding an order to a tally changes only its key's entry, by one order of that amount |
| Reports.AddSums | frontend/app.js:1211-1224 | adding an order raises the total count by one and the total amount by the order's total |
| Reports.AddKeys | frontend/app.js:1211-1224 | the keys stay distinct and exactly the order's key is added |
| Reports.GroupByShape | frontend/app.js:1211-1224 | a grouping holds each key once, exactly the keys of the orders, counts each order once and sums to the revenue |
| Reports.GroupByLookup | frontend/app.js:1211-1224 | each key's entry counts the orders with that key and sums their totals |
| Reports.StatusCounts | frontend/app.js:1211-1214 | one entry per status present, each once, with counts summing to the number of orders |
| Reports.StatusCountsCount | frontend/app.js:1211-1214 | each status's count is the number of orders in it |
| Reports.CustomerTotals | frontend/app.js:1217-1225 | one entry per customer (a missing name is "null") except names every JavaScript object inherits (`constructor`, `toString`, `__proto__`, ...), which get none; the entries count the other orders once each and sum their totals, so with no such name they count every order and sum to the revenue |
| Reports.CustomerTotalsEntry | frontend/app.js:1217-1225 | each customer's entry counts and sums exactly that customer's orders; an inherited name reads as no orders |
| Reports.OwnCustomersOccur | frontend/app.js:1217-1225 | the orders that reach the tally are exactly those of customers with a name not inherited; with no inherited name, all of them |
| Reports.OwnCustomers | frontend/app.js:1217-1225 | the tally has an entry exactly for each customer of the orders whose name is not inherited |
| Reports.OwnCustomerEntry | frontend/app.js:1217-1225 | an entry holds the count and total of that customer's orders; an inherited name has no entry |
| Reports.InheritedCustomerIgnored | frontend/app.js:1217-1225 | an order of a customer named like an inherited property leaves the tally, and so the top customers, unchanged |
| Reports.TopCustomersSpec | frontend/app.js:1227-1229 | the top customers are at most five entries, the head of a permutation of all entries sorted by total, non-increasing, and no customer left out has a larger total than one shown |
| Reports.StatusClass | frontend/app.js:662-670 | 'bg-secondary' exactly for a status other than CREATED, PAID, SHIPPED and CANCELLED |
| Reports.StatusClassOfWorkflow | frontend/app.js:662-670 | of the workflow's statuses only REFUNDED gets the fallback class, and the other four get different classes |

## Left out

- HTTP transport and the inventory service being unreachable (the client's 503), the request timeout and the JSON encoding: the client calls are modelled as calls to the handlers' models.
- The Redis cache reads and their expiry, and the pub/sub listeners: the model records which cache keys are dropped and which messages are published, in order.
- Floating point: prices and totals are integers (for example whole cents). The total inventory value, the turnover rate and the average order value of the reports are not modelled.
- Clocks and time zones (AEST, `utcnow`, `isoformat`): the current time and its text are parameters.
- Concurrency: two requests interleaving between a stock check and its reservation are not modelled; each request runs alone.
- Orders.CreateOrder: a failure of the database write is the parameter `saveFails`; why it fails is not modelled. So is the 500 that a non-HTTP exception in the inventory loop would raise.
- Orders.CreateOrder: the request validation of e-mail addresses is not modelled. The quantity check of the request model is kept, as the 422 response.
- Orders.UpdateOrderStatus: the status change commits through the database session; a failed commit is not modelled.
- `list_orders` (`order-service/app/routers/orders.py:137-165`): its ordering and paging are left to the database and are not modelled. Products, stock rows and orders are maps, so their row order is not modelled; the order items are a sequence in insertion order.
- OrderModels.ItemsOf: the model assumes the database returns an order's items in insertion order. The query in `get_order` (`order-service/app/routers/orders.py:175`) has no ORDER BY, so the order of the items in `Orders.ItemViews` and `Orders.GetOrder` is that assumption, not a promise of the service.
- Reports.StatusCounts: a status named like a property every JavaScript object inherits (`constructor`, `__proto__`, ...) would give a garbled entry; it is modelled like any other status. The order service only ever stores the five workflow statuses.
- Products.CreateProduct: the request accepts a negative stock, as the service does. `ViewState.NegativeStockMatchesNoFilter` and `Reports.NegativeStockMiscounted` show what the page then displays.
- Lower-casing is ASCII only; JavaScript's full Unicode `toLowerCase` is not modelled.
- JavaScript's sort is modelled as a stable function on a copy (ECMAScript 2019 requires stability). It is not modelled as an in-place sort.
- Price sort: `parseFloat(price) || 0` is the integer price itself.
- Reports.StatusCounts and Reports.CustomerTotals: the entries keep their first-appearance order. JavaScript lists integer-like keys first, and that is not modelled.
- Rendering (HTML, charts, icons, alerts on screen), the other pages' loaders and the health endpoints are not modelled.
- The database session and engine setup, `main` and the startup code are not modelled.

## Findings

| source | as written | input that shows it | evidently intended | confidence | as-written member | corrected member |
|---|---|---|---|---|---|---|
| order-service/app/routers/orders.py:268-282 | a PAID order passes the cancel guard; its stock is released, then the workflow refuses PAID→CANCELLED and the request fails with 500, leaving the stock released and the order PAID | order 7 PAID with 2 units of product 3, stock 5: the stock becomes 7 and the cancel fails | check the transition before releasing, so that only a cancellable order releases stock | not executed | Orders.CancelOrder, Orders.CancelPaidReleasesThenFails | Orders.CancelOrderChecked |
| order-service/app/routers/orders.py:86-98 | each line is checked alone, then each line is reserved; a product on two lines passes both checks, the second reservation fails with 409, and the first reservation is never returned | stock 5, lines (1, 3) and (1, 3): the result is 409 and the stock is 2 | an order either reserves all of its lines or leaves the stock as it was | not executed | Orders.CreateOrder, InventoryClient.DuplicateItemLeaks | Orders.CreateOrderAtomic, InventoryClient.ReleaseUndoesPartialReserve |
| inventory-service/app/routers/stock.py:73-87 | the stock-change message sets its timestamp from `inventory.updated_at`, but the inventory row has only a product id and a stock level; the attribute error is swallowed by the `except`, so the message is never published | product 1 at stock 5, safety stock 0, adjusted by +1: no message is published | each applied adjustment publishes one stock change with the old level, the new level and the adjustment | not executed | Stock.AdjustEvents, Stock.StockChangeLost | Stock.IntendedAdjustEvents, Stock.IntendedAdjustEventsChanges |
