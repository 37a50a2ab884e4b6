/** Properties that relate several requests to each other. */
module Properties {
  import opened Domain
  import Cart
  import Menu
  import Orders
  import Handlers
  import Invariants

  /** Registering an email that is already taken fails with 409 whatever the
      first attempt did, so the second registration of an email always
      fails. */
  lemma RegisterTwiceConflicts(s: Store, email: string, password: string, password2: string)
    requires email != "" && password != "" && password2 != ""
    ensures Handlers.Register(Handlers.Register(s, email, password).store, email, password2).status == 409
    ensures Handlers.Register(Handlers.Register(s, email, password).store, email, password2).store
         == Handlers.Register(s, email, password).store
  {
    var r := Handlers.Register(s, email, password);
    assert email in r.store.users;
  }

  /** After a successful registration, logging in with the same password
      succeeds and logging in with any other non-empty password fails with
      401. */
  lemma LoginAfterRegister(s: Store, email: string, password: string, other: string)
    requires Handlers.Register(s, email, password).status == 201
    ensures Handlers.Login(Handlers.Register(s, email, password).store, email, password).status == 200
    ensures other != "" && other != password ==>
      Handlers.Login(Handlers.Register(s, email, password).store, email, other).status == 401
  {
    var r := Handlers.Register(s, email, password);
    assert r.store.users[email] == User(password, []);
  }

  /** When the user's cart keeps the cart invariant (as it does in every
      valid store), a successful add followed by a remove of the same item id
      gives back the store exactly as it was. */
  lemma AddThenRemoveRestoresStore(s: Store, email: string, itemId: string)
    requires email in s.users ==> Cart.WellFormed(s.users[email].cart)
    requires Handlers.AddToCart(s, email, itemId).status == 200
    ensures Handlers.RemoveFromCart(Handlers.AddToCart(s, email, itemId).store, email, itemId).status == 200
    ensures Handlers.RemoveFromCart(Handlers.AddToCart(s, email, itemId).store, email, itemId).store == s
  {
    var u := s.users[email];
    var item := Menu.Lookup(s.menu, itemId).value;
    assert item.id == itemId;
    var cart := Cart.Add(u.cart, item);
    var added := Handlers.AddToCart(s, email, itemId).store;
    Cart.AddThenRemove(u.cart, item);
    assert Cart.Remove(cart, itemId) == Some(u.cart);
    assert added.users[email] == u.(cart := cart);
    assert added.users[email := u] == s.users;
  }

  /** After a successful checkout the user's cart reads back as empty, and
      the user's order history has gained exactly the new order, at the end. */
  lemma CheckoutThenQuery(s: Store, email: string, paymentMethod: string, orderId: string, createdAt: int)
    requires Handlers.Checkout(s, email, paymentMethod, orderId, createdAt).status == 200
    ensures Handlers.GetCart(Handlers.Checkout(s, email, paymentMethod, orderId, createdAt).store, email)
         == Reply(200, CartListing([]), Handlers.Checkout(s, email, paymentMethod, orderId, createdAt).store)
    ensures Handlers.ListOrders(Handlers.Checkout(s, email, paymentMethod, orderId, createdAt).store, email).body.orders
         == Orders.OrdersOf(s.orders, email) + [Handlers.Checkout(s, email, paymentMethod, orderId, createdAt).body.order]
  {
    var r := Handlers.Checkout(s, email, paymentMethod, orderId, createdAt);
    Orders.OrdersOfAppend(s.orders, r.body.order, email);
  }

  /** For a registered user, a checkout of an empty cart fails with 400 and
      records no order; a checkout of a non-empty cart records exactly one. */
  lemma CheckoutNeedsLines(s: Store, email: string, paymentMethod: string, orderId: string, createdAt: int)
    requires email != "" && email in s.users
    ensures |s.users[email].cart| == 0 ==>
      Handlers.Checkout(s, email, paymentMethod, orderId, createdAt).status == 400
      && Handlers.Checkout(s, email, paymentMethod, orderId, createdAt).store.orders == s.orders
    ensures |s.users[email].cart| > 0 ==>
      |Handlers.Checkout(s, email, paymentMethod, orderId, createdAt).store.orders| == |s.orders| + 1
  {
  }

  /** The orders listed for an email are exactly the stored orders under that
      email, in stored order: appending an order to the store extends only
      its own email's listing. */
  lemma ListOrdersAfterAppend(s: Store, o: Order, email: string)
    requires email != ""
    ensures Handlers.ListOrders(s.(orders := s.orders + [o]), email).body.orders
         == Handlers.ListOrders(s, email).body.orders + (if o.email == email then [o] else [])
  {
    Orders.OrdersOfAppend(s.orders, o, email);
  }
}
