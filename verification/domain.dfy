/** The entities of the food-ordering backend: menu items, cart lines, users,
    orders, the store that holds all three collections, and the replies the
    HTTP handlers send back. */
module Domain {

  /** The conventional Some/None datatype, used for lookups that may miss. */
  datatype Option<+T> = None | Some(value: T)

  /** A dish on the menu. The rating is carried opaquely, in tenths
      (a rating of 4.6 is stored as 46); nothing computes with it. */
  datatype MenuItem = MenuItem(id: string, name: string, image: string, price: int, rating: int)

  /** One line of a cart: a copy of the menu item taken when the line was
      created, plus how many of it the user wants. */
  datatype CartLine = CartLine(item: MenuItem, quantity: int)

  /** A registered user, keyed by email in the store. The password is kept
      verbatim. */
  datatype User = User(password: string, cart: seq<CartLine>)

  /** A placed order: a snapshot of the cart at checkout time. The identifier
      and the creation time (milliseconds) come from outside the model. */
  datatype Order = Order(
    orderId: string,
    email: string,
    items: seq<CartLine>,
    total: int,
    paymentMethod: string,
    status: string,
    createdAt: int)

  /** The three collections: users by email, the menu and the orders, the
      latter two in the store's native order. */
  datatype Store = Store(users: map<string, User>, menu: seq<MenuItem>, orders: seq<Order>)

  /** The JSON body of a reply. */
  datatype Body =
    | Error(message: string)
    | Registered(message: string, email: string)
    | LoggedIn(message: string, email: string)
    | MenuListing(menu: seq<MenuItem>)
    | CartListing(cart: seq<CartLine>)
    | CartUpdated(message: string, cart: seq<CartLine>)
    | OrderPlaced(message: string, order: Order)
    | OrderListing(orders: seq<Order>)

  /** What a handler produces: the HTTP status, the body and the store after
      the request. */
  datatype Reply = Reply(status: int, body: Body, store: Store)

  /** A store with no users, no menu and no orders, as before the first start. */
  const EmptyStore: Store := Store(map[], [], [])
}
