# Venus shop: inventory and order engine

A Dafny model of the in-memory store behind the shop's web handlers in
`app.py`: the product catalog, the order ledger and the order id counter,
and the seven handlers that read and change them (add, edit and delete a
product; place an order; approve or reject an order; list pending orders;
list a user's approved orders).

- `records.dfy`, module `Records`: the records (`Product`, `Order`,
  `Status`, `Outcome`), the id lookups, the fresh product id, removal by id,
  the two listings, and the lemmas about them.
- `engine.dfy`, module `Engine`: class `Store` with the fields `products`,
  `orders` and `orderIdCounter`, the invariant `Valid()`, and one method per
  handler. Each method is one atomic step, as the handlers' shared lock makes
  it. Every method keeps `Valid()`: all stock is at least 0 (stock being an
  integer; see "## Left out"), product and order ids grow strictly along
  their lists (so they are pairwise distinct), and every order id is below
  the counter.
- `scenarios.dfy`, module `Scenarios`: three short runs of the store,
  proved from the method contracts alone.

Inputs the handlers take from the request or the clock are parameters: the
already-trimmed name, description and user id; price and stock as integers;
the images as an opaque list; the product id of a new order as an integer in
which 0 stands for every missing or falsy value; the status as the string
sent; and the order's timestamp as an opaque string. A field missing from the
request reaches the model as the default the handler reads it with: an empty
name or description, price 0, no images and stock 0 for add and edit
(app.py:48-52, 79-83), an empty status for the resolve handler (app.py:166),
and product id 0 for a new order (app.py:120). Each of these defaults fails
the corresponding validation, apart from an empty description, an empty
image list and stock 0, which pass; a product added without a stock field
therefore has stock 0, and every order for it is `OutOfStock` (app.py:129).

## Behaviours worth knowing

- Product ids are not fresh for the life of the process. A new id is the
  largest existing id plus 1, or 1 in an empty catalog (app.py:59). Deleting
  the product with the highest id therefore lets the next product take that
  id again. An order placed for the deleted product then refers to the new
  one, and approving it draws the new product's stock
  (`Scenarios.StaleOrderHitsNewProduct`).
- An approval writes the new status at app.py:175 before it looks the product
  up, and a failed approval does not roll that write back. When the product
  is gone (app.py:178-180) or has no stock (app.py:181-182), the order stays
  approved and the stock is untouched. The order can then never be processed
  again, because only pending orders are processed (app.py:173-174)
  (`Scenarios.ApprovalAfterDelete`, `Scenarios.LastUnit`).
- Placing an order checks the user id and the product id for emptiness
  (app.py:121-123) before the product lookup and the stock check
  (app.py:126-130).
- Placing an order reserves no stock: stock only moves on approval
  (app.py:183). Several orders can be placed against the last unit, and all
  but one of their approvals end as `InsufficientStock`.
- The pending listing writes `product_stock` into the stored order records
  themselves (app.py:154-156), not into copies. The model keeps it as
  `Order.productStock`, which is `None` until the order is first listed.

## Model

| member | source | states |
|---|---|---|
| `Records.ParseDecision` | app.py:166-167 | a decision is read exactly for "aprovado" (approve) and "reprovado" (reject); every other string, the empty default included, is refused |
| `Records.MaxId` | app.py:59 | the largest product id, 0 for an empty catalog: no id exceeds it and, unless the catalog is empty, some product has it |
| `Records.ProductIndex` | app.py:126 | the position of the first product with the id, or -1 exactly when no product has it |
| `Records.OrderIndex` | app.py:171-172 | the position of the first order with the id, or -1 exactly when no order has it |
| `Records.WithoutId` | app.py:104-107 | the catalog after removal by id is no longer than before and no product in it has that id |
| `Records.WithoutIdMembers` | app.py:104-107 | the catalog after removal by id holds exactly the products whose id differs |
| `Records.RemoveAtIsWithoutId` | app.py:105-107 | with increasing ids (the store invariant), popping the product found at position i equals removing its id: that one product goes and the rest keep their order |
| `Records.DropAtValid` | app.py:107 | popping a product keeps the catalog valid (stock at least 0, increasing ids) |
| `Records.ReplaceValid` | app.py:85-95 | replacing a product by one that passed the edit validation, under the same id, keeps the catalog valid (stock at least 0, increasing ids) |
| `Records.SetStatusValid` | app.py:175 | writing an order's status keeps the ledger valid |
| `Records.TakeUnitValid` | app.py:181-183 | taking one unit from a product only when its stock is above 0 keeps every stock at least 0 |
| `Records.StockOf` | app.py:155-156 | the stock shown for an order: 0 when no product has its product id, otherwise the stock of a product with that id; never negative in a valid catalog |
| `Records.PendingView` | app.py:152-156 | the pending listing is no longer than the ledger, and every entry in it is pending and carries a stock annotation |
| `Records.PendingViewMembers` | app.py:152-156 | the pending listing holds only pending orders, each annotated with its product's current stock (0 if the product is gone), and every pending order appears in it |
| `Records.PendingViewIncreasing` | app.py:152 | the pending listing keeps the ledger's order: its order ids still increase |
| `Records.AnnotateLedgerValid` | app.py:154-156 | the ledger with its pending records annotated satisfies the same ledger invariant as before |
| `Records.ApprovedFor` | app.py:191 | the user listing holds exactly the ledger's orders with that user id and status approved |
| `Records.ApprovedForIncreasing` | app.py:191 | the user listing keeps the ledger's order: its order ids still increase |
| `Engine.Store.constructor` | app.py:10-12 | the store starts with no products, no orders and the counter at 1, and is valid |
| `Engine.Store.FindProduct` | app.py:89-90 | the handlers' scan for a product returns the first position with that id, or -1 when none has it |
| `Engine.Store.FindOrder` | app.py:171-172 | the scan for an order returns the first position with that id, or -1 when none has it |
| `Engine.Store.AddProduct` | app.py:47-70 | Invalid exactly for an empty name, price at most 0 or negative stock, with nothing changed; otherwise exactly one product appended, with id one more than the largest existing id (so larger than every existing id); ledger and counter untouched; validity kept |
| `Engine.Store.EditProduct` | app.py:78-97 | same validation first; an unknown id is NotFound with nothing changed; otherwise the product with that id gets the new name, description, price, images and stock at the same position and with the same id, every other product is unchanged; validity kept |
| `Engine.Store.DeleteProduct` | app.py:104-109 | an unknown id is NotFound with nothing changed; otherwise the catalog becomes the old one without that id, one shorter, order kept; orders and counter untouched; validity kept |
| `Engine.Store.CreateOrder` | app.py:120-143 | Invalid exactly for an empty user id or product id 0, checked before the lookup; then NotFound for an unknown product and OutOfStock for stock at most 0, with no order and the counter unchanged; on success exactly one pending order appended with the old counter as its id and the product's current id, name and price, the counter up by exactly 1; products never change |
| `Engine.Store.UpdateOrder` | app.py:165-185 | Invalid exactly for a status other than aprovado/reprovado; an unknown order is NotFound and a non-pending one AlreadyProcessed, both with no change; otherwise the order takes the new status whatever follows; rejection succeeds with stock untouched; approval is NotFound for a deleted product and InsufficientStock for stock at most 0, both with stock untouched, else exactly that product's stock drops by 1; counter never changes; validity (stock at least 0) kept |
| `Engine.Store.ApprovedOrders` | app.py:189-192 | the user listing of the current ledger, in increasing order id |
| `Engine.Store.PendingOrders` | app.py:151-157 | every stored pending order annotated with its product's current stock and every other order unchanged; the result is the annotated pending orders in ledger order, with increasing ids; products and counter untouched; validity kept |
| `Scenarios.StaleOrderHitsNewProduct` | app.py:59 | after the highest product is deleted its id 2 is handed to the next product, and approving an old order for id 2 takes one unit from the new product while the order shows the old name |
| `Scenarios.ApprovalAfterDelete` | app.py:173-180 | approving an order whose product was deleted fails with NotFound but leaves the order approved, so a later rejection is AlreadyProcessed and the pending listing is empty |
| `Scenarios.LastUnit` | app.py:176-183 | two orders can be placed against one unit; the first approval succeeds, the second is InsufficientStock yet approved, and a third order is OutOfStock with stock 0 |

## Left out

- HTTP routing, CORS, static files, JSON encoding and status codes (app.py:1-7, 19-21, 194-195): each response is an `Outcome` constructor. The product-not-found and order-not-found responses of the resolve handler are both `NotFound`, as both are 404s.
- The login handler and the password and token checks (app.py:15-17, 28-38 and the checks at the top of the admin handlers and of the order handler): shared-secret string comparisons outside the store; the model's methods are the code after a passed check. The user listing `get_user_orders` (app.py:188-192) has no check at all, so any caller can read any user's approved orders; `Engine.Store.ApprovedOrders` accordingly takes no credential.
- The unguarded catalog listing `get_products` (app.py:24-26): it returns the `products` field as it is.
- The lock (app.py:13 and the `with lock:` blocks): each method is one atomic step; concurrent interleavings are not modelled.
- The clock call `datetime.now().isoformat()` (app.py:138): the timestamp is the `date` parameter.
- `.strip()` on names, descriptions and user ids (app.py:48-49, 79-80, 121): the model takes the trimmed strings.
- JSON typing: price and stock are integers. A float price changes nothing, since it is only compared with 0 and copied. A float stock is a case the model excludes, and the property that stock is never negative holds only for integer stock. A stock of 0.5 passes the add and edit check `stock < 0` (app.py:54, 85) and the order check `stock <= 0` (app.py:129); an approval then passes `stock <= 0` (app.py:181) and subtracts 1 (app.py:183), leaving -0.5. A product id of another JSON type, which the code would compare with Python equality, is not modelled; every falsy product id is 0.
