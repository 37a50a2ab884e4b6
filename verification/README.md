# FoodMafia cart and order bookkeeping, in Dafny

This project models the request handlers of the FoodMafia food-ordering
backend (`lib/server.js`): registration, login, the menu, the per-user cart
(add one unit, remove one unit), checkout into an order, and the order
history. Each HTTP handler is a pure, atomic transition from a `Store` (users
keyed by email, the menu, the orders) and the request's fields to a `Reply`
holding the HTTP status, the JSON body and the store afterwards.

Modules, one concept each:

- `Domain` (`domain.dfy`): `MenuItem`, `CartLine`, `User`, `Order`, `Store`,
  the reply `Body` and `Reply`.
- `Cart` (`cart.dfy`): locating a line the way `Array.prototype.find` does,
  `Add`, `Remove`, the `filter` that deletes lines, the cart total, and the
  cart invariant `WellFormed` (at most one line per item id, every quantity at
  least 1) with the lemmas that add and remove keep it.
- `Menu` (`menu.dfy`): the twenty-item seed catalog, lookup by id the way
  `findOne` does, and the start-up seeding rule.
- `Orders` (`orders.dfy`): the orders of one email, in stored order.
- `Handlers` (`handlers.dfy`): the eight endpoints, a `Request` datatype, a
  dispatcher `Handle`, and `Run` for a sequence of requests.
- `Invariants` (`invariants.dfy`): a whole-store invariant (well-formed carts
  built from menu items, distinct menu ids, every order a non-empty, correctly
  totalled, "completed" snapshot owned by a registered user), preserved by
  every handler and therefore by every request sequence from a fresh start.
- `Properties` (`properties.dfy`): facts relating several requests.
- `Scenarios` (`scenarios.dfy`): concrete request sequences on a fresh store.

Modelling conventions:

- A request field that is absent, `null` or the empty string is written `""`.
  All of these are falsy in JavaScript, and every handler's `!field` guard
  treats them alike.
- `item_id` is a string. Prices and quantities are `int`. The rating is carried
  opaquely in tenths (4.6 is 46) and nothing computes with it.
- The order identifier (`uuidv4()`) and the creation time (`new Date()`) are
  parameters of `Checkout`.
- The remove handler deletes a line with `filter`, which drops every line with
  that id. The model keeps that (`Cart.Without`) and proves that, under the
  cart invariant, it deletes exactly the one line and keeps the others in order.
- The menu lookup returns the first menu item with the id. The cart lookup
  returns the first cart line with the id.

## Model

| member | source | states |
|---|---|---|
| Cart.Find | lib/server.js:135 | the index found is the first line whose id matches; nothing is found exactly when no line has the id |
| Cart.Add | lib/server.js:135-141 | afterwards the cart holds a line for the item; its length is unchanged when the id was present and one longer when it was not |
| Cart.AddIncrements | lib/server.js:135-138 | adding an id already in the cart raises that line's quantity by exactly 1 and keeps every other line and the line order |
| Cart.AddAppends | lib/server.js:139-141 | adding an id not in the cart appends one line at the end, copied from the menu item, with quantity 1 |
| Cart.AddPreservesWellFormed | lib/server.js:135-141 | add keeps the cart invariant: distinct item ids, every quantity at least 1 |
| Cart.Without | lib/server.js:164 | the filtered cart is no longer and holds no line for the id |
| Cart.WithoutMembers | lib/server.js:164 | a line survives the filter exactly when it was in the cart and is for another id |
| Cart.WithoutAbsent | lib/server.js:164 | filtering an id that is not in the cart changes nothing |
| Cart.WithoutSingle | lib/server.js:164 | when exactly one line has the id, the filter deletes that line and keeps the rest in order |
| Cart.Remove | lib/server.js:155-165 | removal fails exactly when no line has the id; otherwise the cart does not grow |
| Cart.RemoveDecrements | lib/server.js:161-162 | removing an id whose line has quantity above 1 lowers it by exactly 1 and keeps every other line |
| Cart.RemoveDeletes | lib/server.js:163-165 | in a well-formed cart, removing an id whose line has quantity 1 deletes that line and keeps the others in relative order |
| Cart.RemovePreservesWellFormed | lib/server.js:155-165 | remove keeps the cart invariant |
| Cart.AddThenRemove | lib/server.js:135-165 | on a well-formed cart, adding an item then removing the same id gives back the original cart |
| Cart.ReduceTotal | lib/server.js:181 | the running sum over the lines, starting at 0, equals the sum of price times quantity |
| Cart.TotalAppend | lib/server.js:181 | the total of two concatenated carts is the sum of their totals |
| Cart.TotalNonNegative | lib/server.js:181 | with quantities at least 1 and no negative prices, the total is not negative, and it is positive when some line has a positive price |
| Cart.AddTotal | lib/server.js:135-141 | adding a unit raises the total by the price on the line that received it: the line's snapshot price, or the menu price for a new line |
| Cart.RemoveTotal | lib/server.js:161-165 | removing a unit from a well-formed cart lowers the total by that line's price |
| Menu.Lookup | lib/server.js:132-133 | the item found has the requested id, is on the menu, and is the first such item; nothing is found exactly when no item has the id |
| Menu.Initialize | lib/server.js:47-73 | an empty menu becomes the catalog; a non-empty menu, the users and the orders are left as they are |
| Menu.InitializeIdempotent | lib/server.js:47-73 | seeding twice equals seeding once, and the menu is non-empty afterwards |
| Menu.CatalogIds | lib/server.js:50-71 | the catalog has twenty items whose ids are "1" to "20" in order |
| Menu.CatalogShape | lib/server.js:50-71 | the catalog's ids are pairwise distinct and every price is positive |
| Orders.OrdersOf | lib/server.js:207 | the listing holds only orders of the email, holds every stored order of the email, and nothing else |
| Orders.OrdersOfAppend | lib/server.js:207 | storing a new order extends its own email's listing by that order at the end and leaves the others unchanged |
| Orders.OrdersOfNone | lib/server.js:207 | an email with no stored orders gets an empty listing |
| Handlers.Register | lib/server.js:81-92 | 400 exactly when email or password is missing, else 409 exactly when the email is registered; errors change nothing; 201 adds only that user, with an empty cart |
| Handlers.Login | lib/server.js:95-105 | never changes the store; 400 exactly when a field is missing; 200 exactly when the user exists and the password matches; otherwise 401 |
| Handlers.GetMenu | lib/server.js:108-111 | always 200 with the stored menu, store unchanged |
| Handlers.GetCart | lib/server.js:114-122 | never changes the store; 400 when the email is missing, 404 when the user is unknown, else 200 with the user's cart |
| Handlers.AddToCart | lib/server.js:125-145 | 400 when a field is missing, 404 when the user or the menu item is unknown, with the user reported first; errors change nothing; 200 changes only that user's cart, which then holds the item |
| Handlers.RemoveFromCart | lib/server.js:148-169 | 400 when a field is missing, 404 when the user is unknown or the id is not in the cart; errors change nothing; 200 changes only that user's cart |
| Handlers.PaymentLabel | lib/server.js:188 | the recorded payment method is the supplied one whenever one was supplied, and "Not specified" when it is missing or empty |
| Handlers.Checkout | lib/server.js:172-200 | 400 when the email is missing or the cart is empty, 404 when the user is unknown, errors change nothing; 200 appends exactly one "completed" order snapshotting the cart with its total, and empties the cart |
| Handlers.ListOrders | lib/server.js:203-209 | never changes the store; 400 exactly when the email is missing, else 200 with that email's orders |
| Handlers.Handle | lib/server.js:81-209 | every reply status is one of 200, 201, 400, 401, 404, 409; a failing request leaves the store unchanged; no request changes the menu |
| Invariants.InitializePreservesValid | lib/server.js:47-76 | seeding keeps the store invariant, and the seeded fresh store satisfies it |
| Invariants.RegisterPreservesValid | lib/server.js:81-92 | register keeps the store invariant |
| Invariants.AddToCartPreservesValid | lib/server.js:125-145 | add-to-cart keeps the store invariant, including that cart lines are menu items |
| Invariants.RemoveFromCartPreservesValid | lib/server.js:148-169 | remove-from-cart keeps the store invariant |
| Invariants.CheckoutPreservesValid | lib/server.js:172-200 | checkout keeps the store invariant: the new order is non-empty, well formed, correctly totalled, "completed" and owned by a registered user |
| Invariants.HandlePreservesValid | lib/server.js:81-209 | every endpoint keeps the store invariant |
| Invariants.RunPreservesValid | lib/server.js:81-209 | any sequence of requests from a valid store ends in a valid store |
| Invariants.FreshStartValid | lib/server.js:47-76 | from an empty store seeded at start-up, every request sequence keeps the invariant |
| Properties.RegisterTwiceConflicts | lib/server.js:83-86 | registering the same email a second time fails with 409 and changes nothing |
| Properties.LoginAfterRegister | lib/server.js:85-104 | after a successful registration, login with that password gives 200 and with any other non-empty password gives 401 |
| Properties.AddThenRemoveRestoresStore | lib/server.js:125-169 | when the user's cart keeps the cart invariant (as in every valid store), a successful add followed by a remove of the same id succeeds and restores the whole store |
| Properties.CheckoutThenQuery | lib/server.js:172-209 | after a successful checkout the cart reads back empty and the email's order listing gained exactly the new order at the end |
| Properties.CheckoutNeedsLines | lib/server.js:179-193 | for a registered user, checkout of an empty cart gives 400 and records no order; a non-empty cart records exactly one |
| Properties.ListOrdersAfterAppend | lib/server.js:203-209 | the listing for an email grows by a newly stored order exactly when the order is that email's |
| Scenarios.AddTwiceRemoveTwice | lib/server.js:125-169 | adding item "1" twice gives one line of quantity 2; removing once gives quantity 1; removing again empties the cart |
| Scenarios.CheckoutExample | lib/server.js:172-199 | two Idli at 40 and one Dosa at 60 check out with total 140 and payment "Not specified", and the cart reads back empty |
| Scenarios.EmptyCheckoutAndEmptyHistory | lib/server.js:172-209 | checkout of an empty cart gives 400 with the store unchanged; an email with no orders lists an empty sequence with 200 |
| Scenarios.FreshMenu | lib/server.js:47-111 | a fresh store serves exactly the twenty catalog items |

## Left out

- HTTP plumbing: Express routing, CORS, JSON body parsing, the port and `listen` call, and console logging. Handlers are called directly with the request's fields.
- The MongoDB layer: the connection, schemas, `findOne`/`save`/`insertMany`, and the `__v` document field that a cart line copies from the menu document (the lookup projects `_id` away). Each handler is one atomic store transition, so checkout's two writes (order saved, then cart cleared) are one step here.
- Change tracking of the cart array: `cart` is a schema-less array, and the in-place `quantity` increment and decrement mutate an element of it. The model assumes these mutations are saved like the `push` and the reassignment are.
- Concurrent requests and their read-modify-write races on a user document: the model serves one request at a time.
- Order identifiers and timestamps: `uuidv4()` and `new Date()` become the `orderId` and `createdAt` parameters of `Handlers.Checkout`. Their freshness is not modelled.
- Floating-point arithmetic: prices and quantities are unbounded integers, so totals never round or overflow. Every seeded price is an integer. The rating is an opaque integer in tenths.
- Non-string request fields and type coercion: `item_id` is a string. A numeric `item_id` may match a menu item at line 132 but never a cart line at line 135, which could append a duplicate line. That path is outside the model.
- Store connectivity failures, which the handlers do not catch.
- `Handlers.Run` has no row: it only serves a sequence of requests for the invariant lemmas.
