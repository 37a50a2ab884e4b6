/** Concrete request sequences on a freshly started store. */
module Scenarios {
  import opened Domain
  import Cart
  import Menu
  import Handlers

  const Alice := "alice@example.com"

  /** A fresh store after seeding, with one registered user. */
  function Started(): (s: Store)
    ensures Alice in s.users && s.users[Alice].cart == [] && s.menu == Menu.Catalog
  {
    Handlers.Register(Menu.Initialize(EmptyStore), Alice, "secret").store
  }

  /** Adding item "1" twice to an empty cart yields one line of quantity 2;
      removing it once leaves quantity 1, and removing it again deletes the
      line. */
  lemma AddTwiceRemoveTwice()
    ensures
      var s1 := Handlers.AddToCart(Started(), Alice, "1").store;
      var s2 := Handlers.AddToCart(s1, Alice, "1").store;
      var s3 := Handlers.RemoveFromCart(s2, Alice, "1").store;
      var s4 := Handlers.RemoveFromCart(s3, Alice, "1").store;
      && s2.users[Alice].cart == [CartLine(Menu.Catalog[0], 2)]
      && s3.users[Alice].cart == [CartLine(Menu.Catalog[0], 1)]
      && s4.users[Alice].cart == []
  {
    var s0 := Started();
    assert Menu.Catalog[0].id == "1";
    assert Menu.Lookup(Menu.Catalog, "1") == Some(Menu.Catalog[0]);
    var s1 := Handlers.AddToCart(s0, Alice, "1").store;
    assert s1.users[Alice].cart == [CartLine(Menu.Catalog[0], 1)];
    var s2 := Handlers.AddToCart(s1, Alice, "1").store;
    assert s2.users[Alice].cart == [CartLine(Menu.Catalog[0], 2)];
    var s3 := Handlers.RemoveFromCart(s2, Alice, "1").store;
    assert s3.users[Alice].cart == [CartLine(Menu.Catalog[0], 1)];
  }

  /** A cart holding two Idli (40 each) and one Dosa (60) checks out with a
      total of 140, and the cart reads back empty. */
  lemma CheckoutExample()
    ensures
      var cart := [CartLine(Menu.Catalog[0], 2), CartLine(Menu.Catalog[1], 1)];
      var s := Started().(users := Started().users[Alice := User("secret", cart)]);
      var r := Handlers.Checkout(s, Alice, "", "order-1", 0);
      && r.status == 200
      && r.body.order.total == 140
      && r.body.order.paymentMethod == "Not specified"
      && Handlers.GetCart(r.store, Alice).body == CartListing([])
  {
    var cart := [CartLine(Menu.Catalog[0], 2), CartLine(Menu.Catalog[1], 1)];
    assert cart[1..] == [CartLine(Menu.Catalog[1], 1)];
    assert Cart.Total(cart[1..]) == 60;
    assert Cart.Total(cart) == 140;
  }

  /** Checking out an empty cart is refused and creates no order; listing the
      orders of a user with none is an empty list, not an error. */
  lemma EmptyCheckoutAndEmptyHistory()
    ensures Handlers.Checkout(Started(), Alice, "Card", "order-1", 0).status == 400
    ensures Handlers.Checkout(Started(), Alice, "Card", "order-1", 0).store == Started()
    ensures Handlers.ListOrders(Started(), Alice) == Reply(200, OrderListing([]), Started())
  {
  }

  /** The fresh menu holds exactly the twenty catalog items. */
  lemma FreshMenu()
    ensures Handlers.GetMenu(Menu.Initialize(EmptyStore)).body == MenuListing(Menu.Catalog)
    ensures |Menu.Catalog| == 20
  {
  }
}
