/** The store invariant every handler keeps: carts are well formed and built
    from menu items, the menu has distinct ids, and every order is a
    non-empty, correctly totalled snapshot belonging to a registered user. */
module Invariants {
  import opened Domain
  import Cart
  import Menu
  import Handlers

  /** A user record as registration and the cart handlers leave it. */
  predicate ValidUser(u: User, menu: seq<MenuItem>) {
    && u.password != ""
    && Cart.WellFormed(u.cart)
    && forall k :: 0 <= k < |u.cart| ==> u.cart[k].item in menu
  }

  /** An order as checkout creates it. */
  predicate ValidOrder(o: Order) {
    && |o.items| > 0
    && Cart.WellFormed(o.items)
    && o.total == Cart.Total(o.items)
    && o.status == Handlers.Completed
    && o.paymentMethod != ""
  }

  predicate Valid(s: Store) {
    && "" !in s.users
    && (forall e :: e in s.users ==> ValidUser(s.users[e], s.menu))
    && Menu.DistinctIds(s.menu)
    && (forall k :: 0 <= k < |s.orders| ==> ValidOrder(s.orders[k]) && s.orders[k].email in s.users)
  }

  /** Start-up seeding keeps the invariant of a valid store, and the empty
      store, once seeded, satisfies it. */
  lemma InitializePreservesValid(s: Store)
    requires Valid(s)
    ensures Valid(Menu.Initialize(s))
    ensures Valid(Menu.Initialize(EmptyStore))
  {
    Menu.CatalogShape();
    var r := Menu.Initialize(s);
    if |s.menu| == 0 {
      forall e | e in r.users ensures ValidUser(r.users[e], r.menu) {
        var u := s.users[e];
        assert ValidUser(u, s.menu);
      }
    }
  }

  lemma RegisterPreservesValid(s: Store, email: string, password: string)
    requires Valid(s)
    ensures Valid(Handlers.Register(s, email, password).store)
  {
  }

  lemma AddToCartPreservesValid(s: Store, email: string, itemId: string)
    requires Valid(s)
    ensures Valid(Handlers.AddToCart(s, email, itemId).store)
  {
    var r := Handlers.AddToCart(s, email, itemId);
    if r.status == 200 {
      var item := Menu.Lookup(s.menu, itemId).value;
      var cart := s.users[email].cart;
      var added := Cart.Add(cart, item);
      Cart.AddPreservesWellFormed(cart, item);
      assert r.store.users[email].cart == added;
      forall k | 0 <= k < |added| ensures added[k].item in s.menu {
        match Cart.Find(cart, item.id)
        case Some(i) =>
          Cart.AddIncrements(cart, item, i);
        case None =>
          Cart.AddAppends(cart, item);
      }
    }
  }

  lemma RemoveFromCartPreservesValid(s: Store, email: string, itemId: string)
    requires Valid(s)
    ensures Valid(Handlers.RemoveFromCart(s, email, itemId).store)
  {
    var r := Handlers.RemoveFromCart(s, email, itemId);
    if r.status == 200 {
      var cart := s.users[email].cart;
      var removed := Cart.Remove(cart, itemId).value;
      Cart.RemovePreservesWellFormed(cart, itemId);
      assert r.store.users[email].cart == removed;
      var i := Cart.Find(cart, itemId).value;
      if cart[i].quantity > 1 {
        Cart.RemoveDecrements(cart, itemId, i);
      } else {
        Cart.RemoveDeletes(cart, itemId, i);
        forall k | 0 <= k < |removed| ensures removed[k].item in s.menu {
          assert removed[k] == (if k < i then cart[k] else cart[k + 1]);
        }
      }
    }
  }

  lemma CheckoutPreservesValid(s: Store, email: string, paymentMethod: string, orderId: string, createdAt: int)
    requires Valid(s)
    ensures Valid(Handlers.Checkout(s, email, paymentMethod, orderId, createdAt).store)
  {
    var r := Handlers.Checkout(s, email, paymentMethod, orderId, createdAt);
    if r.status == 200 {
      var n := |s.orders|;
      assert r.store.orders[n].items == s.users[email].cart;
      assert ValidUser(s.users[email], s.menu);
      forall k | 0 <= k < |r.store.orders|
        ensures ValidOrder(r.store.orders[k]) && r.store.orders[k].email in r.store.users
      {
        if k < n {
          assert r.store.orders[k] == s.orders[k];
        }
      }
    }
  }

  /** Every handler keeps the store invariant. */
  lemma HandlePreservesValid(s: Store, req: Handlers.Request)
    requires Valid(s)
    ensures Valid(Handlers.Handle(s, req).store)
  {
    match req
    case RegisterRequest(e, p) => RegisterPreservesValid(s, e, p);
    case LoginRequest(e, p) =>
    case MenuRequest =>
    case CartRequest(e) =>
    case AddRequest(e, id) => AddToCartPreservesValid(s, e, id);
    case RemoveRequest(e, id) => RemoveFromCartPreservesValid(s, e, id);
    case CheckoutRequest(e, pm, oid, at) => CheckoutPreservesValid(s, e, pm, oid, at);
    case OrdersRequest(e) =>
  }

  /** Any sequence of requests served from a valid store ends in a valid
      store: at most one line per item id and no quantity below 1, in every
      cart, at every point. */
  lemma {:induction false} RunPreservesValid(s: Store, reqs: seq<Handlers.Request>)
    requires Valid(s)
    ensures Valid(Handlers.Run(s, reqs))
    decreases |reqs|
  {
    if |reqs| > 0 {
      HandlePreservesValid(s, reqs[0]);
      RunPreservesValid(Handlers.Handle(s, reqs[0]).store, reqs[1..]);
    }
  }

  /** From a fresh start (an empty store, then the seeding), every sequence
      of requests keeps the invariant. */
  lemma FreshStartValid(reqs: seq<Handlers.Request>)
    ensures Valid(Handlers.Run(Menu.Initialize(EmptyStore), reqs))
  {
    InitializePreservesValid(EmptyStore);
    RunPreservesValid(Menu.Initialize(EmptyStore), reqs);
  }
}
