/** The HTTP handlers, each one atomic transition from a store and the
    request's fields to a reply holding the status, the JSON body and the
    store afterwards. A request field that is absent, null or the empty
    string is written "" here: all of them are falsy, and every handler
    treats them alike. */
module Handlers {
  import opened Domain
  import Cart
  import Menu
  import Orders

  const NotSpecified := "Not specified"
  const Completed := "completed"

  const CredentialsRequired := "Email and password are required"
  const UserExists := "User already exists"
  const InvalidCredentials := "Invalid credentials"
  const EmailRequired := "Email is required"
  const UserNotFound := "User not found"
  const CartFieldsRequired := "Email and item_id are required"
  const ItemNotFound := "Item not found"
  const ItemNotInCart := "Item not in cart"
  const CartEmpty := "Cart is empty"

  /** POST /api/register. */
  function Register(s: Store, email: string, password: string): (r: Reply)
    ensures r.status in {201, 400, 409}
    ensures r.status == 400 <==> email == "" || password == ""
    ensures r.status == 409 <==> email != "" && password != "" && email in s.users
    ensures r.status != 201 ==> r.store == s && r.body.Error?
    ensures r.status == 201 ==> email !in s.users
    ensures r.status == 201 ==> r.store == s.(users := s.users[email := User(password, [])])
    ensures r.status == 201 ==> r.body == Registered("User registered successfully", email)
  {
    if email == "" || password == "" then Reply(400, Error(CredentialsRequired), s)
    else if email in s.users then Reply(409, Error(UserExists), s)
    else
      Reply(201, Registered("User registered successfully", email),
            s.(users := s.users[email := User(password, [])]))
  }

  /** POST /api/login. Never changes the store. */
  function Login(s: Store, email: string, password: string): (r: Reply)
    ensures r.store == s
    ensures r.status in {200, 400, 401}
    ensures r.status == 400 <==> email == "" || password == ""
    ensures r.status == 200 <==>
      email != "" && password != "" && email in s.users && s.users[email].password == password
    ensures r.status == 200 ==> r.body == LoggedIn("Login successful", email)
  {
    if email == "" || password == "" then Reply(400, Error(CredentialsRequired), s)
    else if email !in s.users || s.users[email].password != password then
      Reply(401, Error(InvalidCredentials), s)
    else Reply(200, LoggedIn("Login successful", email), s)
  }

  /** GET /api/menu. Never fails and never changes the store. */
  function GetMenu(s: Store): (r: Reply)
    ensures r.store == s && r.status == 200
    ensures r.body.MenuListing? && r.body.menu == s.menu
  {
    Reply(200, MenuListing(s.menu), s)
  }

  /** GET /api/cart?email=. Never changes the store. */
  function GetCart(s: Store, email: string): (r: Reply)
    ensures r.store == s
    ensures r.status in {200, 400, 404}
    ensures r.status == 400 <==> email == ""
    ensures r.status == 404 <==> email != "" && email !in s.users
    ensures r.status == 200 ==> email in s.users && r.body == CartListing(s.users[email].cart)
  {
    if email == "" then Reply(400, Error(EmailRequired), s)
    else if email !in s.users then Reply(404, Error(UserNotFound), s)
    else Reply(200, CartListing(s.users[email].cart), s)
  }

  /** POST /api/cart/add. The user is looked up before the menu item, so an
      unknown user is reported even when the item is unknown too. */
  function AddToCart(s: Store, email: string, itemId: string): (r: Reply)
    ensures r.status in {200, 400, 404}
    ensures r.status == 400 <==> email == "" || itemId == ""
    ensures r.status == 404 <==>
      email != "" && itemId != "" && (email !in s.users || !Menu.OnMenu(s.menu, itemId))
    ensures r.status != 200 ==> r.store == s
    ensures r.status == 404 && email !in s.users ==> r.body == Error(UserNotFound)
    ensures r.status == 404 && email in s.users ==> r.body == Error(ItemNotFound)
    ensures r.status == 200 ==>
      && email in s.users
      && Menu.Lookup(s.menu, itemId).Some?
      && r.store == s.(users := s.users[email := s.users[email].(
           cart := Cart.Add(s.users[email].cart, Menu.Lookup(s.menu, itemId).value))])
      && Cart.InCart(r.store.users[email].cart, itemId)
      && r.body == CartUpdated("Item added to cart", r.store.users[email].cart)
  {
    if email == "" || itemId == "" then Reply(400, Error(CartFieldsRequired), s)
    else if email !in s.users then Reply(404, Error(UserNotFound), s)
    else match Menu.Lookup(s.menu, itemId)
      case None => Reply(404, Error(ItemNotFound), s)
      case Some(item) =>
        var user := s.users[email];
        var cart := Cart.Add(user.cart, item);
        Reply(200, CartUpdated("Item added to cart", cart),
              s.(users := s.users[email := user.(cart := cart)]))
  }

  /** POST /api/cart/remove. The menu is not consulted: only the cart. */
  function RemoveFromCart(s: Store, email: string, itemId: string): (r: Reply)
    ensures r.status in {200, 400, 404}
    ensures r.status == 400 <==> email == "" || itemId == ""
    ensures r.status == 404 <==>
      email != "" && itemId != "" && (email !in s.users || !Cart.InCart(s.users[email].cart, itemId))
    ensures r.status != 200 ==> r.store == s
    ensures r.status == 404 && email !in s.users ==> r.body == Error(UserNotFound)
    ensures r.status == 404 && email in s.users ==> r.body == Error(ItemNotInCart)
    ensures r.status == 200 ==>
      && email in s.users
      && Cart.Remove(s.users[email].cart, itemId).Some?
      && r.store == s.(users := s.users[email := s.users[email].(
           cart := Cart.Remove(s.users[email].cart, itemId).value)])
      && r.body == CartUpdated("Item removed from cart", r.store.users[email].cart)
  {
    if email == "" || itemId == "" then Reply(400, Error(CartFieldsRequired), s)
    else if email !in s.users then Reply(404, Error(UserNotFound), s)
    else
      var user := s.users[email];
      match Cart.Remove(user.cart, itemId)
      case None => Reply(404, Error(ItemNotInCart), s)
      case Some(cart) =>
        Reply(200, CartUpdated("Item removed from cart", cart),
              s.(users := s.users[email := user.(cart := cart)]))
  }

  /** The payment method recorded on an order: the supplied one, or the
      sentinel when none (or an empty one) was supplied. */
  function PaymentLabel(paymentMethod: string): (r: string)
    ensures r != ""
    ensures paymentMethod != "" ==> r == paymentMethod
    ensures paymentMethod == "" ==> r == NotSpecified
  {
    if paymentMethod == "" then NotSpecified else paymentMethod
  }

  /** POST /api/checkout. The order identifier and the creation time are
      supplied by the caller (a fresh identifier and the current clock). */
  function Checkout(s: Store, email: string, paymentMethod: string, orderId: string, createdAt: int): (r: Reply)
    ensures r.status in {200, 400, 404}
    ensures r.status == 400 <==> email == "" || (email in s.users && |s.users[email].cart| == 0)
    ensures r.status == 404 <==> email != "" && email !in s.users
    ensures r.status != 200 ==> r.store == s
    ensures r.status == 400 && email != "" ==> r.body == Error(CartEmpty)
    ensures r.status == 200 ==> email in s.users && |s.users[email].cart| > 0
    ensures r.status == 200 && email in s.users ==>
      var cart := s.users[email].cart;
      var order := Order(orderId, email, cart, Cart.Total(cart), PaymentLabel(paymentMethod), Completed, createdAt);
      && r.store.orders == s.orders + [order]
      && r.store.users == s.users[email := s.users[email].(cart := [])]
      && r.store.menu == s.menu
      && r.body == OrderPlaced("Order placed successfully", order)
  {
    if email == "" then Reply(400, Error(EmailRequired), s)
    else if email !in s.users then Reply(404, Error(UserNotFound), s)
    else
      var user := s.users[email];
      if |user.cart| == 0 then Reply(400, Error(CartEmpty), s)
      else
        var order := Order(orderId, email, user.cart, Cart.Total(user.cart),
                           PaymentLabel(paymentMethod), Completed, createdAt);
        Reply(200, OrderPlaced("Order placed successfully", order),
              Store(s.users[email := user.(cart := [])], s.menu, s.orders + [order]))
  }

  /** GET /api/orders?email=. No user lookup is made: an unknown email has an
      empty history. Never changes the store. */
  function ListOrders(s: Store, email: string): (r: Reply)
    ensures r.store == s
    ensures r.status in {200, 400}
    ensures r.status == 400 <==> email == ""
    ensures r.status == 200 ==> r.body == OrderListing(Orders.OrdersOf(s.orders, email))
  {
    if email == "" then Reply(400, Error(EmailRequired), s)
    else Reply(200, OrderListing(Orders.OrdersOf(s.orders, email)), s)
  }

  /** One request to any endpoint, with the fields its handler reads. */
  datatype Request =
    | RegisterRequest(email: string, password: string)
    | LoginRequest(email: string, password: string)
    | MenuRequest
    | CartRequest(email: string)
    | AddRequest(email: string, itemId: string)
    | RemoveRequest(email: string, itemId: string)
    | CheckoutRequest(email: string, paymentMethod: string, orderId: string, createdAt: int)
    | OrdersRequest(email: string)

  /** Route a request to its handler. Every failing request leaves the
      store exactly as it was. */
  function Handle(s: Store, req: Request): (r: Reply)
    ensures r.status in {200, 201, 400, 401, 404, 409}
    ensures r.status >= 400 ==> r.store == s
    ensures r.store.menu == s.menu
  {
    match req
    case RegisterRequest(e, p) => Register(s, e, p)
    case LoginRequest(e, p) => Login(s, e, p)
    case MenuRequest => GetMenu(s)
    case CartRequest(e) => GetCart(s, e)
    case AddRequest(e, id) => AddToCart(s, e, id)
    case RemoveRequest(e, id) => RemoveFromCart(s, e, id)
    case CheckoutRequest(e, pm, oid, at) => Checkout(s, e, pm, oid, at)
    case OrdersRequest(e) => ListOrders(s, e)
  }

  /** Serve a sequence of requests one after another. */
  function Run(s: Store, reqs: seq<Request>): (r: Store)
    ensures r.menu == s.menu
    decreases |reqs|
  {
    if |reqs| == 0 then s else Run(Handle(s, reqs[0]).store, reqs[1..])
  }
}
