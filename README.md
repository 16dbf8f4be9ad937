# Cashier point-of-sale: orders, catalog and cart, in Dafny

This project models the core of a small point-of-sale ("kasir") application: an Express/MySQL
back end and a React cashier dashboard. The model covers five parts.

- **The order transaction manager** (`OrderModel`, server/models/orderModel.js). It works on the
  `users`, `customers`, `orders` and `order_items` tables and has four operations.
  - `create` checks its input and resolves the customer by exact name. It re-prices every line
    from the product catalog, sums the total, and inserts one order and one item row per line.
    All of this is one transaction.
  - `updateOrder` renames the customer and overwrites the order's fields.
  - `deleteOrder` deletes the order's items by hand, then the order.
  - `getReport` aggregates the item rows per order.

  The tables are fields of the class `OrderStore`, each a sequence of rows in key order, next to
  their AUTO_INCREMENT counters. Each operation is first given as a function on a `Tables` value;
  the class method performs it in place and is proved equal to that function. `Create` works on
  candidate copies of the tables and assigns the fields only at its commit. So "all or nothing"
  becomes a postcondition: on error, the state equals the old state.
- **The order HTTP handlers** (`OrderControllers`, server/controllers/orderControllers.js). These
  are pure functions from the request and the model call's outcome to a status and a JSON body.
  End-to-end functions put them in front of the transaction.
- **The products table** (`ProductModel`, server/models/productModel.js). This is the class
  `ProductStore` with `getAll`, `create`, `update` (which writes the image column only for a
  truthy image URL) and `deleteProduct`.
- **The product HTTP handlers** (`ProductControllers`, server/controllers/productControllers.js).
  These cover the upload middleware's checks and the `fileFilter` predicate (an unanchored match
  of `jpeg|jpg|png|gif|webp` on the mimetype and on the lower-cased extension). They also cover
  the `imagePath` derivation, the required-field rule, and the handlers as methods over
  `ProductStore`.
- **The cashier's cart** (`CashierCart`, client/src/components/Dashboard/KasirDashboard.jsx). It
  covers the size price adjustment, the add, reduce, increase and remove handlers, the total, and
  the checkout payload. The checkout payload is the `POST /orders` body the order handlers accept.

Shared pieces live in `Common` (`Option`, `Result`, HTTP `Response`). `Rows` holds the two row
shapes every table uses: `SELECT … WHERE key = ?` (first row) and `DELETE … WHERE key = ?`.

All money is integer cents. The cart's size step of 3 currency units is 300 cents.

Where the code behaves differently from what a reader might expect, the model follows the code.
- An unknown product makes `create` fail, and the handler answers 500 "Error placing order.",
  not 404.
- `create` does not check that quantities are positive; they are stored as given.
- `updateOrder` reads the camelCase fields `customerId`, `customerName`, `totalPrice` and
  `orderDate`.
- On a model error `create` answers with its own fixed message, not with the model's message;
  `updateOrder` and `deleteOrder` pass the database error's message on.

## Model

| member | source | states |
|---|---|---|
| ProductModel.UpdateRowsAt | server/models/productModel.js:26-37 | the UPDATE sets name, price and stock of every row with that id; it replaces the image only when `imageUrl` is truthy and keeps it otherwise; every other row is unchanged and the length is kept |
| ProductModel.UpdateAbsentIsNoop | server/models/productModel.js:36-41 | an UPDATE whose id matches no row leaves the table as it was |
| ProductModel.UpdateKeepsValid | server/models/productModel.js:26-45 | the UPDATE never changes an id, so the table keeps increasing keys below the counter |
| ProductModel.UpdateRows | server/models/productModel.js:26-37 | the UPDATE keeps the number of rows and every row's id |
| ProductModel.RemoveProductEffect | server/models/productModel.js:47-55 | the DELETE leaves no row with that id and keeps the table well formed; it cuts out exactly the one matching row, or changes nothing when no row has that id |
| ProductModel.ProductStore.GetAll | server/models/productModel.js:5-13 | returns every row of the table, each found again by its own id |
| ProductModel.ProductStore.Create | server/models/productModel.js:15-24 | appends exactly one row (name, price, stock, image as given, possibly null) under a fresh id, and returns that id |
| ProductModel.ProductStore.Update | server/models/productModel.js:26-45 | the table becomes the UPDATE's result; the affected-row count is 1 when the id exists and 0 otherwise |
| ProductModel.ProductStore.DeleteProduct | server/models/productModel.js:47-56 | the table becomes the DELETE's result; the affected-row count is the number of rows removed, and it is 0 exactly when the id was absent |
| OrderModel.FindCustomerByName | server/models/orderModel.js:19-26 | finds a customer exactly when some row has that name, and then it is the first such row |
| OrderModel.FindOrInsertCustomer | server/models/orderModel.js:18-33 | the customer step gives the first customer with that exact name, with no insert, or inserts one customer with that name under the next id and returns that id |
| OrderModel.PriceLines | server/models/orderModel.js:36-52 | succeeds exactly when every line's product exists; line k becomes (id, quantity, catalog price of that id), in line order |
| OrderModel.PriceItems | server/models/orderModel.js:35-52 | the pricing loop returns what `PriceLines` specifies, and its running total is the sum of price times quantity |
| OrderModel.CreateOutcome | server/models/orderModel.js:4-77 | an empty customer name or an empty item list is rejected with its own error; success happens exactly when both are present and every product exists; any error leaves every table and counter as it was; on success the returned id is the next order id |
| OrderModel.PriceLinesFirstMissing | server/models/orderModel.js:44-46 | the first line whose product is missing determines the error "Product with ID … not found" |
| OrderModel.CreateFailsOnFirstMissing | server/models/orderModel.js:37-74 | a missing product fails `create` with that product's id and rolls back everything, including a customer inserted earlier in the same call |
| OrderModel.LinesTotalIsCatalogTotal | server/models/orderModel.js:36-51 | the accumulated `totalPrice` equals the sum over the lines of catalog price times quantity |
| OrderModel.CreateIgnoresClientPriceAndName | server/models/orderModel.js:38-50 | two requests whose lines agree on product ids and quantities have the same outcome, whatever `price` and `name` the client sent |
| OrderModel.CreateResolvesCustomer | server/models/orderModel.js:18-33 | on success the first customer with that exact name is reused and no customer is added; otherwise exactly one customer with that name is inserted under the next id and booked to the order |
| OrderModel.CreateAppendsRows | server/models/orderModel.js:54-71 | on success exactly one order row is appended, with the catalog total and `now`, plus one item row per line in line order; each item row is (new order id, product id, quantity as given, catalog price); earlier item rows are kept |
| OrderModel.CreateKeepsValid | server/models/orderModel.js:54-68 | after `create` the keys are still fresh and increasing, and every item row points at an existing order |
| OrderModel.ReportRowsAt | server/models/orderModel.js:143-162 | the report has one row per order, and row k describes order k |
| OrderModel.Report | server/models/orderModel.js:139-171 | the report has one row per order |
| OrderModel.NoItemsNoRevenue | server/models/orderModel.js:150-159 | an order without item rows reports 0 items and 0 revenue |
| OrderModel.CreateReport | server/models/orderModel.js:143-162 | after `create` the new order's row counts one item per line, and its revenue equals the stored total and the catalog total; every earlier order keeps its item count and revenue |
| OrderModel.DeleteOrderTables | server/models/orderModel.js:115-137 | afterwards no order row has that id and no item row refers to it; no row is added; users, customers and counters are not touched |
| OrderModel.DeleteOrderEffect | server/models/orderModel.js:115-137 | `deleteOrder` removes every item of that order and the order row; it keeps every other order and item, leaves customers and users unchanged, and keeps the tables well formed |
| OrderModel.DeleteAbsentOrderIsNoop | server/models/orderModel.js:121-128 | deleting an order id that does not exist changes nothing |
| OrderModel.DeleteOrderReport | server/models/orderModel.js:121-128 | after `deleteOrder` the report is the old report without that order's row |
| OrderModel.UpdateOrderTables | server/models/orderModel.js:80-113 | no row appears or goes and no key changes; users, item rows and counters are not touched |
| OrderModel.FindAfterRename | server/models/orderModel.js:93-94 | after the customer UPDATE, lookups by id find the same customers, and the renamed one carries the new name |
| OrderModel.UpdateOrderKeepsValid | server/models/orderModel.js:80-113 | `updateOrder` keeps keys, rows and item references intact |
| OrderModel.UpdateOrderReport | server/models/orderModel.js:92-104 | after `updateOrder` every order keeps its item count and revenue; the updated order carries the new date and total; every order booked to the renamed, existing customer shows the new name |
| OrderModel.OrderStore.Create | server/models/orderModel.js:4-78 | the result and the new tables are `CreateOutcome`'s; the tables stay valid; on error the state equals the old state; the catalog is not modified |
| OrderModel.OrderStore.UpdateOrder | server/models/orderModel.js:80-113 | the new tables are `UpdateOrderTables`'s; the item rows are unchanged and the tables stay valid |
| OrderModel.OrderStore.DeleteOrder | server/models/orderModel.js:115-137 | the new tables are `DeleteOrderTables`'s; no order has that id and no item belongs to it |
| OrderModel.OrderStore.GetReport | server/models/orderModel.js:139-171 | returns the report of the current tables, one row per order carrying its id and its number of item rows |
| OrderControllers.CreateOrderRequest | server/controllers/orderControllers.js:4-14 | the request is answered 400 "Invalid order data." exactly when `user_id` or `customer_name` is falsy or `items` is not a non-empty array; otherwise the three fields are passed on |
| OrderControllers.CreateOrderReply | server/controllers/orderControllers.js:16-22 | 201 with "Order placed successfully" and the model's order id on success; any model error becomes 500 "Error placing order." |
| OrderControllers.HandleCreateOrder | server/controllers/orderControllers.js:4-23 | `POST /orders` answers 201, 400 or 500, and only a 201 changes the database |
| OrderControllers.CreateOrderEndToEnd | server/controllers/orderControllers.js:4-23 | through the handler an order is placed (201) exactly when the request passes the check and every product exists; the 201 carries the new id, which is then in the orders table; on any other answer the tables are unchanged |
| OrderControllers.OrderReportReply | server/controllers/orderControllers.js:26-34 | the model's rows are returned unchanged with 200; an error gives 500 "Error fetching order report." |
| OrderControllers.UpdateOrderRequest | server/controllers/orderControllers.js:37-48 | the path's order id and the camelCase fields `customerId`, `customerName`, `totalPrice`, `orderDate` are forwarded in that order |
| OrderControllers.WriteReply | server/controllers/orderControllers.js:49-53 | the reply of `updateOrder` and `deleteOrder`: a settled write answers 200 with the success message, a failed one 500 carrying the error's own message |
| OrderControllers.HandleUpdateOrder | server/controllers/orderControllers.js:37-54 | `PUT /orders/:orderId` with both statements accepted answers 200 and keeps the users, the item rows and the number of orders and customers |
| OrderControllers.UpdateOrderEndToEnd | server/controllers/orderControllers.js:37-54 | an update is reported done whether or not the order exists; it keeps the item rows, so every order's report revenue stays the same |
| OrderControllers.DeleteOrderRequest | server/controllers/orderControllers.js:57-63 | a missing order id is answered 400 "Invalid order ID."; otherwise the id is passed on |
| OrderControllers.HandleDeleteOrder | server/controllers/orderControllers.js:57-72 | `DELETE /orders/:orderId` answers 400 and changes nothing without an id; otherwise it answers 200 and no order row with that id remains; users and customers are not touched |
| OrderControllers.DeleteOrderEndToEnd | server/controllers/orderControllers.js:57-72 | a missing id changes nothing; any other id is reported deleted whether or not it existed, after which no order has it |
| ProductControllers.Contains | server/controllers/productControllers.js:24-28 | an unanchored one-alternative regular expression test: true exactly when the pattern occurs at some position |
| ProductControllers.AsciiLower | server/controllers/productControllers.js:26-28 | lower-casing keeps the length and maps each ASCII capital to its small letter |
| ProductControllers.ExtName | server/controllers/productControllers.js:26-28 | `path.extname` of a base name is empty or a '.' with no further '.', and it ends the name; it is empty exactly for ".." or when no '.' follows the first character |
| ProductControllers.FileFilter | server/controllers/productControllers.js:23-34 | an accepted file has a mimetype of at least three characters and an extension of at least four, a '.' and one of the image type names |
| ProductControllers.Decimal | server/controllers/productControllers.js:14 | the timestamp in the stored file name is a non-empty string of decimal digits, with no leading zero, that spells `Date.now()` |
| ProductControllers.Upload | server/controllers/productControllers.js:20-35 | no file, or a file part with an empty file name, gives no image; otherwise a file is stored exactly when it is under the "image" field, passes `fileFilter` and is at most 5 MiB; a file refused by the filter fails with "Only images are allowed" |
| ProductControllers.ImagePath | server/controllers/productControllers.js:60 | `imagePath` is "/uploads/" plus the stored name exactly when a file was stored, else null |
| ProductControllers.StoredImagePath | server/controllers/productControllers.js:11-16 | a stored image's path is truthy, starts with "/uploads/" and ends with the original name's extension |
| ProductControllers.GetAllProducts | server/controllers/productControllers.js:37-45 | answers 200 with every product row |
| ProductControllers.AddProduct | server/controllers/productControllers.js:47-80 | an upload error gives 500 with its message and no insert; a missing name, price or stock gives 400 and no insert; otherwise exactly one row is inserted under the counter's id, the counter advances by one, and the answer is 201 with that id |
| ProductControllers.UpdateProduct | server/controllers/productControllers.js:82-113 | the same upload and required-field rules; otherwise the table becomes the UPDATE's result, the id counter stays, and the answer is "Product updated successfully" whether or not the id existed |
| ProductControllers.DeleteProduct | server/controllers/productControllers.js:115-127 | the table becomes the DELETE's result and the id counter stays; the answer is 404 "Product not found" exactly when no row had that id, and success otherwise |
| ProductControllers.UpdateImageRule | server/controllers/productControllers.js:94-106 | an update with no stored file keeps the product's image; one with a stored file replaces it; name, price and stock are set either way |
| CashierCart.SizePriceAdjustment | client/src/components/Dashboard/KasirDashboard.jsx:71-82 | "small" is the price less one step, "large" the price plus one step, anything else the price |
| CashierCart.TotalPriceConcat | client/src/components/Dashboard/KasirDashboard.jsx:131-138 | the total of a cart is the sum of its parts' totals |
| CashierCart.TotalPriceNonNegative | client/src/components/Dashboard/KasirDashboard.jsx:131-138 | the total is never negative when no entry has a negative price or quantity |
| CashierCart.TotalPriceUpdateAt | client/src/components/Dashboard/KasirDashboard.jsx:131-138 | replacing one entry changes the total by the difference of the two entries' amounts |
| CashierCart.AddToCart | client/src/components/Dashboard/KasirDashboard.jsx:84-99 | afterwards an entry with the product's name and size is in the cart (not necessarily one with its id); at most one entry is added, and no existing entry changes which product or size it holds |
| CashierCart.AddToCartNewEntry | client/src/components/Dashboard/KasirDashboard.jsx:84-99 | with no entry of that name and size, one entry (quantity 1, adjusted price) is appended; earlier entries are unchanged and the total grows by the adjusted price |
| CashierCart.AddToCartExisting | client/src/components/Dashboard/KasirDashboard.jsx:84-96 | with an entry of that name and size, the length is kept; every entry with the product's id, of any size, gets one more unit at the adjusted price; other entries are unchanged |
| CashierCart.AddToCartRepricesOtherSizes | client/src/components/Dashboard/KasirDashboard.jsx:84-96 | adding a small item to a cart with a small and a large one also increments the large entry and reprices it at the small price |
| CashierCart.AddToCartBySizeCharges | client/src/components/Dashboard/KasirDashboard.jsx:84-99 | under the intended handler, adding a product whose matching entry carries the adjusted price raises the total by exactly that price |
| CashierCart.AddToCartBySizeAt | client/src/components/Dashboard/KasirDashboard.jsx:84-99 | with one entry per name and size, the intended handler gives the matching entry one more unit and leaves every other entry as it was |
| CashierCart.AddToCartBySizeKeepsOneEntry | client/src/components/Dashboard/KasirDashboard.jsx:84-99 | the intended handler keeps at most one entry per name and size |
| CashierCart.RemoveFromCart | client/src/components/Dashboard/KasirDashboard.jsx:127-129 | no entry with that id is left, and nothing is added |
| CashierCart.RemoveFromCartEffect | client/src/components/Dashboard/KasirDashboard.jsx:127-129 | every entry with that id goes and the others stay, in their relative order; the total drops by the amount of what went |
| CashierCart.ReduceQuantity | client/src/components/Dashboard/KasirDashboard.jsx:103-116 | the cart never grows; it either keeps its length or holds no entry with that id any more |
| CashierCart.ReduceQuantityEffect | client/src/components/Dashboard/KasirDashboard.jsx:103-116 | for every cart: without an entry with that id nothing changes; otherwise the first such entry decides for all entries with that id, of any size; above one unit each of them loses a unit (one of another size may be left at 0) and the total drops by their unit prices; at one unit all of them are removed and the total drops by their amount |
| CashierCart.DecrementAllTotal | client/src/components/Dashboard/KasirDashboard.jsx:105-112 | one unit less of every entry with that id drops the total by the sum of their unit prices |
| CashierCart.ReduceQuantityOneEntry | client/src/components/Dashboard/KasirDashboard.jsx:103-116 | for a product held in one entry: above one unit it loses exactly one unit and the total drops by its price; otherwise that entry is cut out |
| CashierCart.ReduceQuantityAcrossSizes | client/src/components/Dashboard/KasirDashboard.jsx:103-116 | [Latte small x3, Latte large x1] becomes [small x2, large x0]; [small x1, large x3] becomes the empty cart |
| CashierCart.FirstIndex | client/src/components/Dashboard/KasirDashboard.jsx:119 | `findIndex`: the first position with that id, or -1 when there is none |
| CashierCart.IncreaseQuantity | client/src/components/Dashboard/KasirDashboard.jsx:118-125 | only the first entry with that id gains a unit, which adds its price to the total; without such an entry the cart is unchanged |
| CashierCart.Checkout | client/src/components/Dashboard/KasirDashboard.jsx:140-158 | nothing is sent for an empty cart; otherwise the payload has `user_id` 1, the typed name, and the cart's (id, name, price, quantity) entries in cart order |
| CashierCart.CheckoutPassesOrderCheck | client/src/components/Dashboard/KasirDashboard.jsx:149-158 | a non-empty cart's payload passes the server's request check exactly when a customer name was typed |
| CashierCart.CheckoutIgnoresCartPrices | client/src/components/Dashboard/KasirDashboard.jsx:152-157 | two carts that agree on ids and quantities place the same order, whatever prices or sizes they show; the size adjustment never reaches the stored total |

## Left out

- Database failures are not modelled: connection errors, constraint violations, and the foreign key that stops deleting a product still referenced by order items. The order handlers that map a model error to 500 (`CreateOrderReply`, `OrderReportReply`, `WriteReply`) take the model call's outcome as a `Result` parameter, so those 500 answers are modelled.
- ProductControllers.GetAllProducts, AddProduct, UpdateProduct, DeleteProduct: the 500 answer with `err.message` when the model call throws is not modelled, because the `ProductStore` methods they call never fail; this includes the foreign-key refusal to delete a product that order items still reference.
- OrderModel.OrderStore.Create: on error every counter is rolled back too. MySQL keeps an AUTO_INCREMENT value consumed inside a rolled-back transaction, so real ids can have gaps.
- OrderModel.OrderStore.Create: the `Promise.all` lookups run one after another on a single connection and are modelled as a sequential loop. The error reported is the first missing product in line order. Concurrent checkouts are not modelled, including the race that can insert the same customer name twice; each transaction is one atomic step.
- OrderControllers.UpdateOrderRequest: the body's four camelCase fields are taken as present. A missing one reaches the SQL as NULL. `WHERE id = NULL` renames no customer. Whether the order's columns accept NULL depends on the schema, which is not part of this model, so such a call may set them to NULL or fail with 500 and the database's message. The dashboard's edit form sends snake_case keys, so it produces this case.
- OrderModel.FindCustomerByName: names are compared with exact string equality. `WHERE name = ?` compares under the column's collation; MySQL's default collations ignore case and accents, so "budi" may reuse the customer "Budi". The schema is not part of this model.
- OrderModel.FindCustomerByName: the SELECT has no ORDER BY; the model takes the first match in key order.
- ProductModel.ProductStore.GetAll: `SELECT * FROM products` has no ORDER BY; the model returns the rows in key order.
- OrderModel.Report: the query has no ORDER BY, so the model lists rows in the orders table's order. MySQL's actual row order is unspecified.
- `NOW()` and `Date.now()` are the parameter `now`. Dates are integers, with no calendar or formatting.
- Request values are typed. Path parameters are integers, with `None` for a missing one. JSON and multipart strings such as "12" are not converted. MySQL DECIMAL and JavaScript floating-point money are integer cents.
- The `users` table is only read, by the report's join. Registration, login, JWT and bcrypt are not part of this model.
- ProductControllers.ExtName: Node's `path.extname` also handles '/' and trailing slashes. The multipart parser already reduces the client's file name to a base name, so only that case is modelled.
- ProductControllers.AsciiLower: `toLowerCase` is modelled on ASCII letters only.
- ProductControllers.Upload: the disk write is not modelled, nor multer's other limits (several files, field counts). The model keeps the unexpected-field error, the filter and the size limit, in multer's order. The mimetype is what the client declared.
- CashierCart.IncreaseQuantity: `[...cart]` is a shallow copy, so the JavaScript code also mutates the entry object that the previous cart state shares. The model copies values, so this aliasing is not captured.
- CashierCart.TotalPrice: the `toFixed(2)` formatting and the `parseFloat`/`Number` conversions are not modelled; the total is an integer.
- Cart entries carry the product's other fields (stock, image), which no handler reads, so they are left out.
- Rendering, alerts, polling, receipts, and the client's handling of the checkout response are not part of this model.

## Findings

| source | as written | input that shows it | evidently intended | confidence | as-written member | corrected member |
|---|---|---|---|---|---|---|
| client/src/components/Dashboard/KasirDashboard.jsx:84-96 | `handleAddToCart` finds the existing entry by name and size, but increments and reprices every entry with the product's id | cart [Latte small 22.00 ×1, Latte large 28.00 ×1], add Latte small (list price 25.00): the large entry becomes 22.00 ×2 and the total is 88.00 instead of 72.00 | only the entry of that name and size gains a unit at the adjusted price | high; not executed | CashierCart.AddToCartRepricesOtherSizes | CashierCart.AddToCartBySizeCharges |
