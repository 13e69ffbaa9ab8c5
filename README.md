# Cart and checkout core of the shop backend

A Dafny model of the transactional core of a small FastAPI shop. It covers
three parts.

- The **cart store** (`CartService`). Each user has one cart, created lazily.
  It holds `(product, quantity)` items. Adding a product that is already in the
  cart merges into its item. Updating overwrites a quantity. Removing is an
  idempotent delete. Clearing deletes every item.
- **Checkout** (`OrderService.create_order`). It rejects an empty cart.
  Otherwise it copies each product's current price into an order line, sums
  the lines into `total_price`, appends a `pending` order and deletes the
  cart's items, all in one commit.
- The **Telegram login check** (`validate_telegram_data`). It checks that the
  data is at most 86400 seconds old. It builds the data-check-string (the
  non-`None` fields except `hash` and `photo_url`, as `k=v`, sorted, joined by
  line feeds). It compares the hex HMAC-SHA-256 of that string against the
  received hash.

The database is one sequential in-memory store, `Store.Db`. It holds the
catalog (`product id -> price`), the carts keyed by their unique `user_id`,
the append-only list of orders, and the next primary keys. `Db.Valid()` is
the invariant every operation keeps:
- prices are positive;
- each user has one cart and cart ids are distinct;
- every cart item refers to an existing product;
- no product appears twice in a cart;
- every cart item's quantity fits its `Integer` column, a 32-bit signed
  integer in PostgreSQL (`Models.FitsInt4`);
- every order is `pending`, has one line per product, and has a total equal
  to the sum of its own frozen lines.

The pure functions `AddedItems`, `QuantitySet`, `RemovedItems`,
`OrderLines` and `DataCheckString` state what each operation does. The class
methods are proved to follow them, and the lemmas state what the source
promises about them.

Files: `wrappers.dfy` (Option, Result), `models.dfy` (entities),
`store.dfy` (the database), `cart_schema.dfy` (request validation and
cart total), `cart_service.dfy`, `order_service.dfy`,
`telegram_service.dfy`.

Behaviours of the code that a reader might not expect, all modelled as the code has them:
- The add request schema sets no bound on the quantity: 0 and negative
  values pass it. Only the update request demands `quantity > 0`. So
  positive quantities are not part of `Db.Valid()`.
  `CartService.PositivePreserved` shows which operations keep them.
- The column does bound the quantity. A merged quantity on add, or a new
  quantity on update, outside -2^31 .. 2^31 - 1 fails the commit, so
  `AddItem` and `UpdateItemQuantity` return `Failure(QuantityOutOfRange)`
  and store nothing.
- An unknown product on add is not rejected before any write. The insert
  breaks the foreign key at commit, so `AddItem` returns
  `Failure(UnknownProduct)`. A cart created lazily on the way stays, also
  after a range failure.
- A checkout of an empty cart can still create the (empty) cart, because
  `get_or_create_cart` commits it first.

## Model

| member | source | states |
|---|---|---|
| `Models.ColumnDefaults` | app/models/models.py:64-83 | a cart item made without a quantity has quantity 1, a new cart has no items, a new order is `pending` |
| `Models.LinesTotalAppend` | app/services/order_service.py:22-27 | adding one line to an order adds exactly price_at_purchase × quantity to the total, as checkout's running sum does |
| `Store.Db.PutProductPrice` | app/models/models.py:90-101 | writing a product price changes only the catalog; orders, their frozen lines and totals stay as they were, and the invariant still holds |
| `Store.Db.PutCartItems` | app/services/cart_service.py:39-45 | writing a valid item list into a user's cart changes that cart's items only and keeps the invariant |
| `Store.Db.AppendOrder` | app/services/order_service.py:36-41 | inserting a pending order with the next id, a consistent total and one line per product appends exactly it and keeps the invariant |
| `Store.Db.DeleteCartItems` | app/services/order_service.py:43-45 | deleting the loaded items one by one leaves the user's cart row with no items and every other cart unchanged |
| `CartSchema.ParseAdd` | app/schemas/cart.py:5-7 | an add request is accepted exactly when it has a product id; its quantity defaults to 1 and has no bound |
| `CartSchema.ParseUpdate` | app/schemas/cart.py:34-36 | an update request is accepted exactly when it has a product id and a quantity above 0 |
| `CartSchema.CartTotalConcat` | app/schemas/cart.py:27-29 | the cart total of a concatenation of item lists is the sum of their totals |
| `CartSchema.CartTotalPositive` | app/schemas/cart.py:27-29 | the cart total is 0 for an empty cart and positive for a non-empty cart with positive prices and quantities |
| `CartService.FindItem` | app/services/cart_service.py:37 | returns the index of the first item with the product, or None exactly when no item has it |
| `CartService.AddedQuantity` | app/services/cart_service.py:37-43 | adding q of p raises p's total quantity in the cart by exactly q and leaves every other product's quantity unchanged |
| `CartService.AddExistingIncrements` | app/services/cart_service.py:37-40 | if p is already in the cart, no item is added and only p's item grows, by q |
| `CartService.AddAbsentAppends` | app/services/cart_service.py:41-43 | if p is not in the cart, exactly the item (p, q) is appended after the unchanged items |
| `CartService.AddPreservesUnique` | app/services/cart_service.py:37-43 | adding keeps one item per product and leaves p in the cart |
| `CartService.AddKeepsFit` | app/services/cart_service.py:37-45 | the quantity add_item writes is the one p's item ends up with, and the new item list fits the `Integer` column exactly when that quantity does |
| `CartService.QuantityOfUnique` | app/services/cart_service.py:37 | with one item per product, a product's total quantity is the quantity of the item the search finds, or 0 |
| `CartService.AddTwice` | app/services/cart_service.py:37-43 | adding a then b of the same product equals adding a + b once (one item, summed quantity) |
| `CartService.AddedTotal` | app/services/cart_service.py:37-43 | adding q of p raises the cart total by p's price × q |
| `CartService.QuantitySetOverwrites` | app/services/cart_service.py:64-69 | updating sets p's quantity to q and changes no other item; if p is absent the cart is unchanged |
| `CartService.QuantitySetPreservesUnique` | app/services/cart_service.py:64-69 | updating keeps one item per product |
| `CartService.QuantitySetKeepsFit` | app/services/cart_service.py:64-69 | an update keeps every quantity within the column's range exactly when the new quantity fits or p is not in the cart |
| `CartService.RemovedIsWithout` | app/services/cart_service.py:77-81 | in a cart with one item per product, removal yields the items of all other products in their original order |
| `CartService.RemoveIdempotent` | app/services/cart_service.py:77-81 | after removal p is absent, uniqueness holds, and removing p again changes nothing |
| `CartService.RemovedQuantity` | app/services/cart_service.py:77-81 | after removal p's quantity is 0 and every other product keeps its quantity |
| `CartService.RemovedRowsValid` | app/services/cart_service.py:77-81 | the items left after a removal still refer to existing products and still fit the column |
| `CartService.StaleAddResponse` | app/services/cart_service.py:41-51 | the as-written add response equals the stored cart exactly when p was already in the cart; a newly added product is missing from it |
| `CartService.StaleRemoveResponse` | app/services/cart_service.py:79-83 | the as-written remove response equals the stored cart exactly when p was not in the cart; a removed product is still listed |
| `CartService.MergeItem` | app/services/cart_service.py:36-45 | fails with the merged quantity when it leaves the 32-bit range, else with the product when a new item's product does not exist; otherwise yields the merged list, raises the cart total by price × q, and keeps one item per product and the column range |
| `CartService.PositivePreserved` | app/services/cart_service.py:33-83 | positive quantities survive adding or updating with a positive amount, and removal |
| `CartService.CartService.GetOrCreateCart` | app/services/cart_service.py:12-31 | returns the user's stored cart unchanged if there is one, else stores and returns an empty cart with a fresh id; a second call returns the same cart |
| `CartService.CartService.AddItem` | app/services/cart_service.py:33-51 | the cart becomes the merged item list and the stored cart is returned; a merged quantity outside the 32-bit range, or else an unknown product, fails and leaves only the lazily created cart |
| `CartService.CartService.ClearCart` | app/services/cart_service.py:53-58 | the user's cart still exists and has no items; nothing else changes |
| `CartService.CartService.UpdateItemQuantity` | app/services/cart_service.py:60-72 | if p is in the cart and the quantity leaves the 32-bit range, fails and writes nothing; otherwise the cart becomes the list with p's quantity overwritten (or unchanged) and the stored cart is returned |
| `CartService.CartService.RemoveItem` | app/services/cart_service.py:74-83 | the cart becomes the list without p's item (or unchanged) and the stored cart is returned |
| `OrderService.OrderLinesPointwise` | app/services/order_service.py:25-33 | one order line per cart item, in cart order, with the same product and quantity and the product's catalog price at checkout |
| `OrderService.OrderTotalIsCartTotal` | app/services/order_service.py:22-27 | the order total equals the cart total of the items at checkout time |
| `OrderService.OrderLinesUnique` | app/services/order_service.py:25-33 | a cart with one item per product gives an order with one line per product |
| `OrderService.FindOrder` | app/services/order_service.py:52-59 | the re-read finds a stored order with the requested id, or none when no order has it |
| `OrderService.PriceLines` | app/services/order_service.py:21-33 | the pricing loop builds exactly the order lines and a total equal to Σ price_at_purchase × quantity over them |
| `OrderService.OrderService.CreateOrder` | app/services/order_service.py:14-59 | an empty cart fails with CartIsEmpty and creates no order; otherwise exactly one pending order with the snapshot lines and their total is appended, the cart is emptied in the same step, and the persisted order is returned |
| `TelegramService.ValidateTelegramData` | app/services/telegram_service.py:9-46 | fails exactly when no bot token is set; otherwise true exactly when the data is at most 86400 s old and the HMAC of the data-check-string equals the received hash |
| `TelegramService.CheckEntriesCharacterised` | app/services/telegram_service.py:23-31 | an entry appears exactly when some field that is neither `hash` nor `photo_url` and is not `None` formats to it |
| `TelegramService.CheckEntriesCount` | app/services/telegram_service.py:28-31 | the number of entries is the number of included fields: each contributes one |
| `TelegramService.ExcludedFieldsIgnored` | app/services/telegram_service.py:23-24 | the values of `hash` and `photo_url` never change the data-check-string |
| `TelegramService.SortSortsAndPermutes` | app/services/telegram_service.py:34 | sorting yields an ascending permutation of the entries |
| `TelegramService.SortedUnique` | app/services/telegram_service.py:34 | two ascending lists with the same elements are equal, so the sorted order is canonical |
| `TelegramService.FieldOrderIgnored` | app/services/telegram_service.py:28-37 | fields arriving in any order give the same data-check-string |
| `TelegramService.SplitJoin` | app/services/telegram_service.py:37 | splitting the joined string at line feeds gives back the parts: one separator between parts and none at the end |
| `TelegramService.DataCheckStringLines` | app/services/telegram_service.py:28-37 | the lines of the data-check-string are the entries, in ascending order |
| `TelegramService.LessEqTotal` | app/services/telegram_service.py:34 | any two strings are comparable in the string order |
| `TelegramService.LessEqTransitive` | app/services/telegram_service.py:34 | the string order is transitive |
| `TelegramService.LessEqAntisymmetric` | app/services/telegram_service.py:34 | two strings each below the other are equal |

## Left out

- HTTP routing and app wiring. One mapping matters for callers: the router turns checkout's `ValueError` into HTTP 400. It is not modelled.
- Authentication, JWT, bcrypt, OAuth, S3, the LLM stub, and the product and category services. They are foreign libraries, the network or SQL queries.
- Floating-point prices. Prices are exact reals, so rounding in `total_price += price * quantity` is not modelled.
- Concurrency and async sessions. Operations run one at a time, so the read-then-increment race in `add_item` is not modelled.
- Session mechanics (commit, refresh, eager loading). Each service operation is one state transition, and the re-reads return the stored state. Where the code's re-read returns a stale item list instead, it is recorded under "## Findings".
- `CartService.CartService.AddItem`: returns the stored cart. After adding a product that was not in the cart, the code's response lacks the new item (first row under "## Findings").
- `CartService.CartService.RemoveItem`: returns the stored cart. After a removal, the code's response still lists the removed item (second row under "## Findings").
- Item and order-line row ids. Items are identified by position. Order lines are kept in creation order.
- `created_at` is the server clock. It is the parameter `now` of `CreateOrder`.
- Foreign-key failures other than the one on add. The shipped code only adds products (`create_product`); its update and delete routes call service methods that do not exist. So a cart item's product always exists, and checkout never meets a missing product. `Store.Db.PutProductPrice` stands for a change of a catalog price, the case the price snapshot in order lines is designed for.
- `app/schemas/telegram.py` is not part of this model. The login record is its typed `auth_date` and `hash` plus the dump of all its fields, with each value already formatted as `f"{v}"` formats it.
- SHA-256, HMAC and UTF-8 encoding. The two hash functions are parameters, and strings are passed to them unencoded.
- `TelegramService.ValidateTelegramData`: the bot token is a parameter. The shipped `Settings` (app/core/config.py:4-19) declares no `TG_BOT_TOKEN`, so as shipped the lookup raises `AttributeError` before any check and every call ends in an HTTP 500. The model's success branch describes the function with the setting declared; the shipped configuration behaves like no token, except that the error is a 500 rather than the model's `BotTokenNotConfigured`.
- `time.time()`. It is the parameter `now`, a real number of seconds.
- `list.sort()` and `str.join`. They are library calls, so they are modelled as the functions `Sort` (insertion sort) and `Join`, not as in-place loops.

## Findings

| source | as written | input that shows it | evidently intended | confidence | as-written member | corrected member |
|---|---|---|---|---|---|---|
| app/services/cart_service.py:41-51 | a new product's item is inserted by `cart_id` only; sessions keep loaded objects after commit (app/db/session.py:16), so the re-read returns the loaded cart whose `items` collection lacks it | an empty cart, then add product 7 with quantity 1: the response lists no items, while the stored cart holds (7, 1) | the response is the stored cart, as the comment at lines 47-50 says | not executed; rests on the ORM's rule that a query does not reload an already loaded collection | `CartService.AddResponseAsWritten`, `CartService.StaleAddResponse` | `CartService.CartService.AddItem` |
| app/services/cart_service.py:79-83 | the deleted item is not taken out of the loaded `items` collection, and the re-read returns that collection | a cart holding (7, 1), then remove product 7: the response still lists (7, 1), while the stored cart is empty | the response is the stored cart, without the removed item | not executed; rests on the same loading rule | `CartService.RemoveResponseAsWritten`, `CartService.StaleRemoveResponse` | `CartService.CartService.RemoveItem` |
