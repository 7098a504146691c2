# POS system: sale, stock and report logic in Dafny

This project models the backend sale and stock workflow of a small retail point-of-sale
system, along with the pure helpers of its browser client:

- **Sale numbers** (`SaleNumber`). The pre-save hook of the sale model builds a daily number:
  `YYMMDD` from the local date, then a three-digit counter one above the greatest number that
  already has that prefix. If the lookup throws, the number is `ERR` followed by the last nine
  digits of the timestamp. The date, the timestamp and the outcome of the lookup are
  parameters.
- **Records** (`Catalog`, `Ledger`, `SaleRecord`). These are the product, inventory-log and
  sale documents. Each comes with its schema validators, defaults, enums and unique indexes.
- **Checkout** (`Checkout`, `Store`). The create-sale handler checks every line against the
  current stock. It then builds and validates the sale, numbers it and inserts it. The
  post-save hook then walks the lines. For each line it lowers the product's stock and
  appends one `sale` entry to the inventory log. A missing product is skipped. The first save
  that the `min: 0` stock validator refuses ends the walk, and its error is swallowed.
  `Checkout.PostSave` specifies this walk as a function. `Store.PosStore.PostSaveHook` is the
  loop, and it is proved against that function.
- **Manual stock management** (`Store.PosStore`). Create, update, soft delete and signed stock
  adjustment are methods on a class. The class holds the product map, the log, the sale list
  and an id counter. Every method keeps `Valid()`: stored products pass their validators, the
  sku and barcode indexes stay unique, every log entry satisfies
  `newStock == previousStock + quantity`, and sale numbers are unique.
- **Cashier cart** (`Cart`). This covers add, remove and set-quantity, the total, the checkout
  payload and the product search filter. The updaters keep one line per product, and every
  quantity stays between 1 and the product's stock.
- **Reports** (`Reports`). This covers the dashboard sums, the payment split, the low-stock
  count, the daily report, the profit report and the inventory-movement summary. The loops
  are methods proved against recursive sums.
- **Accounts** (`Auth`). This covers the login guard, the duplicate check on user creation,
  and the update rule: which fields may change, and whose account.
- **Client helpers** (`ProductForm`, `MovementExport`). These are the product form's numeric
  check and single-field change, the CSV export of movements, the type badges and icons, and
  how a quantity is shown.
- **String helpers** (`Text`). These are the JavaScript string operations the code relies on
  (`toString`, `padStart`, `slice(-k)`, `parseInt`, `<` on strings, `trim`, `includes`,
  `join`), written over `seq<char>`.

Money and stock counts are `int`, with money in cents. Averages are `real`. Store-generated ids
are `nat`. All requests are modelled as sequential method calls.

Several behaviours of the code as written are proved as lemmas rather than corrected:

- Lines are checked one by one against unchanged stock, so two lines of the same product can
  sell more units than exist (`Checkout.DuplicateLinesOversell`). The hook then stops part-way,
  and the sale stays recorded.
- Past 999 sales in one day, string order ranks `…999` above `…1000`, so the generator issues
  `…1000` again (`SaleNumber.CounterRepeatsAfter999`).
- The subtotal and total are stored as the client sends them, whatever the lines say
  (`SaleRecord.TotalsNotRecomputed`).
- A `type` outside the enum on the stock endpoint saves the new stock, but no log entry is
  written, because the entry's validator refuses it (`Store.PosStore.AdjustStock`). For this
  reason, "stock equals the sum of the log's deltas" is not an invariant of the system.
- CSV cells are not quoted, so a comma inside a cell shifts that row's columns
  (`MovementExport.CommaShiftsColumns`).

## Model

| member | source | states |
|---|---|---|
| `Catalog.NewProduct` | backend/models/Product.js:4-48 | it fails exactly when price, cost or stock is missing; otherwise the document holds the trimmed name, the trimmed description when one is sent, the sent sku, category, price, cost, stock, image and barcode, `minStockLevel` as sent or 10, and `active` as sent or true; when it passes the validators it is a storable document |
| `Catalog.ApplyPatch` | backend/routes/products.js:48-50 | every field the body sends is overwritten (name and description through `trim`), every other field is unchanged, and a stored document stays stored when the result passes the validators |
| `Catalog.EmptyPatchIsIdentity` | backend/routes/products.js:49-50 | an update body that sends nothing leaves any document as it is |
| `Catalog.UniqueKeysAfterWrite` | backend/models/Product.js:9-53 | writing a document whose sku and barcode no other document holds keeps both unique indexes unique |
| `Ledger.ParseMoveType` | backend/models/InventoryLog.js:9-13 | the `type` validator accepts exactly purchase, sale, adjustment and return, and names the type it read |
| `Ledger.ParseTypeName` | backend/models/InventoryLog.js:9-13 | each of the four types' names is accepted and reads back as that type |
| `Ledger.AppendBalanced` | backend/models/InventoryLog.js:14-35 | appending entries with balanced snapshots and a reference to a balanced log keeps it balanced |
| `SaleRecord.ParseMethod` | backend/models/Sale.js:51-55 | the payment-method enum accepts exactly cash, card and other |
| `SaleRecord.ParseMethodName` | backend/models/Sale.js:51-55 | each payment method's name reads back as that method |
| `SaleRecord.BuildSale` | backend/routes/sales.js:23-32 | the built sale has the requester as cashier, the items, subtotal and total as sent, tax defaulting to 0, discount as sent or 0, status `completed` and no number yet; it fails exactly when a line has quantity below 1 or lacks its required price or subtotal, the sale's subtotal or total is missing, or the method is outside the enum |
| `SaleRecord.TotalsNotRecomputed` | backend/routes/sales.js:9-32 | for any accepted body, replacing its subtotal and total by any other numbers is still accepted, stores those numbers as sent, and changes nothing else: the amounts are never checked against the lines |
| `SaleRecord.AppendUnique` | backend/models/Sale.js:4-8 | adding a sale whose number is new keeps sale numbers unique |
| `SaleNumber.AssignNumber` | backend/models/Sale.js:71-96 | a number is generated only for a new document with no number; an existing number is never overwritten |
| `SaleNumber.Greatest` | backend/models/Sale.js:79-81 | the lookup returns nothing exactly when no number has the prefix; otherwise it returns a number with the prefix that no other such number exceeds in string order |
| `SaleNumber.DayPrefixFormat` | backend/models/Sale.js:73-76 | the prefix is six digits: the year modulo 100, then the month, then the day, each zero-padded to two |
| `SaleNumber.DayPrefixInjective` | backend/models/Sale.js:73-80 | two dates with the same prefix agree on the year modulo 100, the month and the day |
| `SaleNumber.YearDigits` | backend/models/Sale.js:74 | the last two characters of the year's digits spell the year modulo 100 |
| `SaleNumber.Pad3Facts` | backend/models/Sale.js:86 | a counter below 1000 pads to three digits that read back as the counter |
| `SaleNumber.FirstSaleOfDay` | backend/models/Sale.js:79-89 | with no number of the day yet, the new number is the prefix followed by `001` |
| `SaleNumber.NextAfterCounter` | backend/models/Sale.js:83-89 | after counter k in 1..998, the next number carries k+1, is nine characters long and is greater than the previous one |
| `SaleNumber.DailySequence` | backend/models/Sale.js:79-89 | when a day holds exactly the counters 1..k (k ≤ 998), the next number is counter k+1, nine characters long, greater than every number of that day and not already issued |
| `SaleNumber.FallbackIsInvisible` | backend/models/Sale.js:90-95 | the `ERR` fallback never starts with a day prefix, so adding it never changes a later lookup |
| `SaleNumber.CounterRepeatsAfter999` | backend/models/Sale.js:81-86 | once `…999` and `…1000` exist, the generator returns `…1000` again, a number already issued |
| `Checkout.ItemError` | backend/routes/sales.js:14-20 | a failing line gets 400 with "Product not found: <id>" when its product is missing, otherwise "Insufficient stock for <name>" |
| `Checkout.FirstItemErrorIsFirst` | backend/routes/sales.js:13-21 | the check passes exactly when every line's product exists with stock ≥ quantity; otherwise it reports the first failing line, and every earlier line passes |
| `Checkout.FirstFailureWins` | backend/routes/sales.js:13-21 | lines after the first failure never change the reply |
| `Checkout.SaleReference` | backend/models/Sale.js:120 | the reference `Sale #<number>` is never empty, so the entry's `required` validator accepts it |
| `Checkout.PostSave` | backend/models/Sale.js:101-128 | the hook never adds or removes a product and writes at most one entry per line |
| `Checkout.PostSaveUnfold` | backend/models/Sale.js:106-123 | one step of the walk: a missing product is skipped, a line that would make stock negative stops the walk with nothing written, and any other line lowers the stock and writes its entry before the rest |
| `Checkout.PostSaveEntries` | backend/models/Sale.js:114-122 | every entry the hook writes is a balanced `sale` entry of the cashier, with the sale's reference, no note and a new stock ≥ 0 |
| `Checkout.PostSaveOnlyStock` | backend/models/Sale.js:109-111 | the hook changes nothing but stock counts, stored documents stay stored, and the unique indexes still hold |
| `Checkout.PostSaveAppliesAll` | backend/models/Sale.js:106-124 | for lines that name distinct products and all pass the check, the hook writes one entry per line in order: a `sale` entry for the line's product with delta −quantity, previous stock the product's stock before the sale and new stock that minus the quantity, the sale's reference and the cashier; and each product's stock drops by exactly the units sold |
| `Checkout.DuplicateLinesOversell` | backend/routes/sales.js:13-21 | two one-unit lines for one product with stock 1 both pass the check; the hook then applies only the first and writes one entry |
| `Store.PosStore.CreateProduct` | backend/routes/products.js:18-38 | a valid body inserts the product under a fresh id and appends one `purchase` entry from 0 to its stock, with reference `Initial stock`; a validation or duplicate-key failure gives 400 and no change |
| `Store.PosStore.UpdateProduct` | backend/routes/products.js:41-70 | an unknown id gives 404; otherwise the patched document is saved, and an `adjustment` entry with delta new−old is appended only when the stock changed; a refused save gives 400 and no change |
| `Store.PosStore.DeleteProduct` | backend/routes/products.js:73-88 | an unknown id gives 404; otherwise only `active` becomes false, and the log and the other products are unchanged |
| `Store.PosStore.AdjustStock` | backend/routes/products.js:116-149 | an unknown id gives 404; a negative result gives 400 with no change; otherwise the stock becomes old+delta and one entry {delta, old, new, type defaulting to adjustment, reference defaulting to `Stock adjustment`} is appended; a type outside the enum keeps the new stock without an entry |
| `Store.PosStore.CheckItems` | backend/routes/sales.js:13-21 | the loop over the lines returns the reply of the first failing line, or nothing |
| `Store.PosStore.PostSaveHook` | backend/models/Sale.js:101-128 | the new stock and log are exactly what `PostSave` gives for the sale's lines, its reference and cashier; the log stays balanced |
| `Store.PosStore.Insert` | backend/routes/sales.js:34 | the numbered sale is appended, sale numbers stay unique, and the post-save hook's stock and log changes follow |
| `Store.PosStore.CreateSale` | backend/routes/sales.js:7-44 | the first failing line aborts with no change; a refused sale gives 400 with no change; a duplicate number gives 400 with no change; otherwise the numbered sale is appended and the hook's stock and log changes follow |
| `Auth.AllowedUpdates` | backend/routes/auth.js:144-149 | name, email, password and active are always allowed, `role` exactly for an admin, and `username` never |
| `Auth.CashierCannotChangeRole` | backend/routes/auth.js:144-158 | a cashier's body that names `role` is refused |
| `Auth.UnknownKeysRefused` | backend/routes/auth.js:152-158 | a body with a key outside the known fields is refused, whatever the role |
| `Auth.UpdateCheck` | backend/routes/auth.js:152-171 | for a body written with each known key in its own field, the key check (400) comes first, then the ownership check (403), then the lookup (404); the update goes ahead exactly when all three pass |
| `Auth.ApplyUserPatch` | backend/routes/auth.js:173 | exactly the fields sent are overwritten; username and last login are unchanged |
| `Auth.UserDirectory.Login` | backend/routes/auth.js:9-25 | an unknown or inactive user and a wrong password all give the same 401 "Invalid credentials" with no change; success records the login time on that user only |
| `Auth.UserDirectory.CreateUser` | backend/routes/auth.js:94-117 | a taken username or email gives 400 with no change; otherwise an active user is inserted under a fresh id |
| `Auth.UserDirectory.UpdateUser` | backend/routes/auth.js:141-174 | a failed check gives its error with no change; otherwise only the target's sent fields change |
| `Cart.Find` | frontend/src/pages/cashier/Sales.jsx:66 | finds a listed product with the id exactly when one is listed |
| `Cart.FindLine` | frontend/src/pages/cashier/Sales.jsx:39 | finds a cart line of the product exactly when the cart holds one |
| `Cart.SetQuantity` | frontend/src/pages/cashier/Sales.jsx:72-78 | only the product's lines get the new quantity; every other line and the order are unchanged |
| `Cart.AddToCart` | frontend/src/pages/cashier/Sales.jsx:32-54 | out of stock leaves the cart unchanged; a product already in the cart gains one unit unless it is at stock; a new product gets one line of quantity 1 at the end |
| `Cart.FindLineUnique` | frontend/src/pages/cashier/Sales.jsx:39 | in a valid cart, the line found for a product is that product's only line |
| `Cart.AddKeepsValid` | frontend/src/pages/cashier/Sales.jsx:32-54 | adding keeps at most one line per product and every quantity between 1 and stock |
| `Cart.AddNeverDuplicates` | frontend/src/pages/cashier/Sales.jsx:39-51 | adding never creates a second line for a product |
| `Cart.RemoveFromCartLines` | frontend/src/pages/cashier/Sales.jsx:56-58 | the result holds no line of the product and exactly the other products' lines |
| `Cart.RemoveAbsent` | frontend/src/pages/cashier/Sales.jsx:56-58 | removing a product the cart does not hold changes nothing |
| `Cart.RemoveAt` | frontend/src/pages/cashier/Sales.jsx:56-58 | when only the line at k holds its product, removing that product cuts out exactly that line and keeps the others in order |
| `Cart.RemoveKeepsValid` | frontend/src/pages/cashier/Sales.jsx:56-58 | removing keeps the cart valid |
| `Cart.UpdateQuantity` | frontend/src/pages/cashier/Sales.jsx:60-79 | a quantity ≤ 0 removes the line; a product missing from the listing, or a quantity above stock, leaves the cart unchanged; otherwise only that line's quantity is replaced |
| `Cart.UpdateKeepsValid` | frontend/src/pages/cashier/Sales.jsx:60-79 | setting a quantity keeps the cart valid |
| `Cart.TotalAppend` | frontend/src/pages/cashier/Sales.jsx:81-83 | the total of two carts joined is the sum of their totals |
| `Cart.TotalSetQuantity` | frontend/src/pages/cashier/Sales.jsx:81-83 | changing one line's quantity changes the total by price × the change |
| `Cart.AddToCartTotal` | frontend/src/pages/cashier/Sales.jsx:32-83 | adding raises the total by the product's price exactly when the cart changed |
| `Cart.PayloadItems` | frontend/src/pages/cashier/Sales.jsx:101-106 | one payload item per cart line, in order, with subtotal = price × quantity |
| `Cart.CheckoutPayload` | frontend/src/pages/cashier/Sales.jsx:93-107 | an empty cart is refused; otherwise the payload carries the cart's items and its total as subtotal |
| `Cart.PayloadConsistent` | frontend/src/pages/cashier/Sales.jsx:100-107 | the payload's subtotal equals the sum of its line subtotals, and every line passes the sale model's item validators: quantity at least 1, price and subtotal present |
| `Cart.Filtered` | frontend/src/pages/cashier/Sales.jsx:178-182 | keeps exactly the products whose name or sku contains the term ignoring case, or whose barcode contains it as typed, each as many times as it is listed |
| `Cart.EmptyTermKeepsAll` | frontend/src/pages/cashier/Sales.jsx:178-182 | an empty search term keeps the whole listing in order |
| `Reports.Completed` | backend/routes/reports.js:23 | keeps exactly the sales with status `completed`, each as many times as it occurs |
| `Reports.PaidWith` | backend/routes/reports.js:37-39 | keeps exactly the sales paid with one method, each as many times as it occurs |
| `Reports.Today` | backend/routes/reports.js:64-68 | keeps exactly the cashier's completed sales since midnight, each as many times as it occurs |
| `Reports.Since` | backend/routes/reports.js:15-18 | keeps exactly the completed sales since midnight, each as many times as it occurs |
| `Reports.Window` | backend/routes/reports.js:105-108 | keeps exactly the completed sales inside the window, each as many times as it occurs |
| `Reports.OnlyCompletedCount` | backend/routes/reports.js:15-23 | a sale that is not completed changes neither the sales total nor a report window |
| `Reports.SplitSums` | backend/routes/reports.js:36-40 | the cash, card and other sums add up to the sum over all sales |
| `Reports.PaymentSplitTotal` | backend/routes/reports.js:23-40 | the payment split adds up to the total of completed sales |
| `Reports.LowStockProducts` | backend/routes/reports.js:27-30 | keeps exactly the active products with stock ≤ their minimum level, each as many times as it occurs |
| `Reports.ActiveProducts` | backend/routes/reports.js:33 | keeps exactly the active products, each as many times as it occurs, so its length is the active count |
| `Reports.LowStockWithinActive` | backend/routes/reports.js:27-33 | the low-stock count never exceeds the active-product count |
| `Reports.AdminDashboard` | backend/routes/reports.js:11-49 | the total is over completed sales, today's total is over completed sales since midnight, the low-stock count is at most the product count, and the split adds up to the total |
| `Reports.Average` | backend/routes/reports.js:126-129 | with a positive count, the average times the count is the total; with a count of 0 it is 0 |
| `Reports.CashierToday` | backend/routes/reports.js:64-87 | the cashier's count and total are those of their completed sales since midnight, and the average is `Average` of the two (total over count, 0 for no sale) |
| `Reports.DistinctDaysSpec` | backend/routes/reports.js:111-120 | each day of a sale appears once, and no other day appears |
| `Reports.CountOnPositive` | backend/routes/reports.js:114-121 | every day in the report has at least one sale |
| `Reports.CountsCoverAll` | backend/routes/reports.js:111-123 | the per-day counts add up to the number of sales |
| `Reports.DailyReport` | backend/routes/reports.js:111-129 | one row per distinct day in order of first appearance, with that day's sale count, revenue and zero-guarded average |
| `Reports.ItemsCost` | backend/routes/reports.js:170-176 | the sale's cost is the sum of cost × quantity over lines whose product resolves |
| `Reports.ProfitReport` | backend/routes/reports.js:153-191 | total revenue and cost are the sums over the sales, profit is revenue − cost, and each day's row holds its revenue, its cost and their difference |
| `Reports.SummarizeMovements` | backend/routes/reports.js:232-243 | each type's counter is the sum of abs(quantity) over the entries of that type, starting from 0 |
| `Reports.SummaryCoversAll` | backend/routes/reports.js:232-243 | the four counters together account for every unit moved |
| `ProductForm.HandleChange` | frontend/src/components/ProductForm.jsx:23-29 | only the named field takes the new value; every other field is unchanged |
| `ProductForm.FirstInvalid` | frontend/src/components/ProductForm.jsx:36-41 | reports nothing exactly when every field passes; otherwise it reports the first failing field, and every earlier field passes |
| `ProductForm.Submit` | frontend/src/components/ProductForm.jsx:31-43 | the form is saved unchanged exactly when price, cost, stockQuantity and minStockLevel all pass (not NaN and ≥ 0); otherwise the message is "Invalid <field> value" for the first failing field |
| `ProductForm.FirstInvalidAgrees` | frontend/src/components/ProductForm.jsx:36-41 | forms whose fields pass or fail alike get the same verdict |
| `ProductForm.ChangeTextKeepsVerdict` | frontend/src/components/ProductForm.jsx:23-43 | editing a non-numeric field never changes whether, or why, submitting fails |
| `ProductForm.EmptyFormPasses` | frontend/src/components/ProductForm.jsx:5-41 | empty numeric fields read as 0, so the untouched form passes the check |
| `ProductForm.NegativePriceFirst` | frontend/src/components/ProductForm.jsx:36-41 | a negative price is reported first, whatever the later fields hold |
| `MovementExport.NameOr` | frontend/src/pages/admin/InventoryMovement.jsx:105-110 | a missing or empty name gives the fallback (`N/A` for a product, `System` for a performer) |
| `MovementExport.Fields` | frontend/src/pages/admin/InventoryMovement.jsx:103-112 | a row has one cell per header column: the date, the product name or `N/A`, the type, the quantity, the previous and new stock as decimal text, the performer's name or `System`, and the reference |
| `MovementExport.Rows` | frontend/src/pages/admin/InventoryMovement.jsx:103-113 | one row per movement, in movement order |
| `MovementExport.HeaderColumns` | frontend/src/pages/admin/InventoryMovement.jsx:102 | the first line splits into exactly the eight header columns |
| `MovementExport.CsvLines` | frontend/src/pages/admin/InventoryMovement.jsx:101-113 | without line breaks in cells, the export has movements + 1 lines: the header, then the rows in order |
| `MovementExport.RowColumns` | frontend/src/pages/admin/InventoryMovement.jsx:103-113 | without commas in cells, a row splits back into its eight cells |
| `MovementExport.CommaShiftsColumns` | frontend/src/pages/admin/InventoryMovement.jsx:113 | a comma inside any cell breaks the row's columns, because cells are not quoted |
| `MovementExport.TypeBadge` | frontend/src/pages/admin/InventoryMovement.jsx:64-72 | the default badge is returned exactly for a type outside the four known ones |
| `MovementExport.TypeIcon` | frontend/src/pages/admin/InventoryMovement.jsx:74-82 | the default icon is returned exactly for a type outside the four known ones |
| `MovementExport.BadgesDistinguishTypes` | frontend/src/pages/admin/InventoryMovement.jsx:64-82 | the four types get four different badges and icons |
| `MovementExport.QuantityText` | frontend/src/pages/admin/InventoryMovement.jsx:262 | the text starts with `+` exactly when the quantity is > 0, and with `-` exactly when it is < 0 |
| `MovementExport.QuantityColour` | frontend/src/pages/admin/InventoryMovement.jsx:261 | green exactly when the quantity carries a plus sign |
| `Text.NatToString` | backend/models/Sale.js:74-76 | decimal digits without a leading zero, reading back as the number |
| `Text.PadStart` | backend/models/Sale.js:75-76 | the result is the string preceded by fill characters up to the width |
| `Text.Last` | backend/models/Sale.js:74 | `slice(-k)` gives the last k characters, or the whole string when it is shorter |
| `Text.ParseInt` | backend/models/Sale.js:85 | NaN exactly when the text does not start with a digit |
| `Text.ParseNatToString` | backend/models/Sale.js:85-86 | `parseInt` reads back what `toString` wrote |
| `Text.LessTransitive` | backend/models/Sale.js:81 | string order is transitive |
| `Text.LessTotal` | backend/models/Sale.js:81 | two different strings are ordered one way or the other |
| `Text.LessDigits3` | backend/models/Sale.js:81-86 | on three-digit counters, string order is numeric order |
| `Text.Lead` | backend/models/Product.js:7 | counts the white-space characters a string starts with: all of them are white space and the next one is not |
| `Text.Trail` | backend/models/Product.js:7 | counts the white-space characters a string ends with: all of them are white space and the one before is not |
| `Text.Trim` | backend/models/Product.js:7 | the result is the infix of the string that starts after its leading white space; everything dropped before and after it is white space, and the result has no white space at either end |
| `Text.TrimTrimmed` | backend/models/Product.js:7 | trimming a trimmed string changes nothing |
| `Text.SplitJoin` | frontend/src/pages/admin/InventoryMovement.jsx:113 | splitting a joined list gives the list back when no part holds the separator |

## Left out

- Concurrency is not modelled. Requests are sequential method calls, so the race between
  two concurrent sales of one product is not captured.
- Database access is abstract state. Queries, `populate`, sorting, Express routing and the
  auth middleware are not modelled. Malformed ids (a failed ObjectId cast) are not modelled,
  because ids are naturals.
- Validation and duplicate-key failures: only the status (400) is modelled. The reply text is
  the database library's own error message, which stands here as the fixed placeholders
  `ValidationFailed` and `DuplicateKey`.
- HTTP 500 replies for an unreachable store are left out. The one store failure that is
  modelled is the sale-number lookup throwing (`lookupFails`).
- JWT signing and password hashing are foreign libraries. The password comparison is a
  boolean parameter. Activity-log writes (`createActivityLog`) are not modelled.
  backend/models/User.js is not part of this model, so a user save refused by its
  validators is not modelled.
- Floating point is not modelled. Money is integer cents, and the 8% client tax, the grand
  total, `toFixed` and the profit margins are left out.
- Clock and time zone are parameters. The local date that feeds the sale number, the UTC day
  key the reports group by, the report window's bounds and the locale date text of the CSV
  are all inputs.
- JavaScript coercion is only partly modelled. A `parseInt` on the stock endpoint is an
  optional integer. The form's `Number(...)` is a parameter function. `Text.ParseInt`
  ignores signs and leading blanks, which the sale numbers it reads never contain.
- `Text.ToLower` folds only the ASCII letters, so `toLowerCase` on other characters is not
  modelled.
- `Cart.CheckoutPayload`: covers the items and the subtotal only. The tax, the grand total
  and the fixed `cash` method are floating point or constants.
- `Cart.AddToCart`: writes the found line's count plus one to every line of the product, where
  the handler adds one to each such line's own count. The two differ only on a cart with two
  lines of one product, which no operation here builds (`Cart.AddKeepsValid`).
- `Store.PosStore.PostSaveHook`: the walk lowers stock in a local copy of the product map and
  writes the store's fields once it ends. Nothing reads the store between two lines, so the
  end state is the same as the per-line saves, but a failure between two saves is not modelled.
- `Reports.SummarizeMovements`: the `!== undefined` guard for unknown types is not
  modelled. Stored entries carry one of the four enum types, so that branch cannot arise.
- `Reports.CashierToday`: the `recentSales` list (sort by date, limit 5) is a query and is
  left out.
- The sales-by-user aggregation, the activity-log routes, the GET handlers, the seed and
  setup scripts, and all rendering are outside the modelled core.
- Sale refunds are not modelled, because no handler in the modelled files changes
  `paymentStatus`.
