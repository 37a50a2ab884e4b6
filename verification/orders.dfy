/** Order history: the orders of one email, in the store's order. */
module Orders {
  import opened Domain

  /** The stored orders placed under `email`, in stored order (the query
      `find({ email })`). */
  function OrdersOf(orders: seq<Order>, email: string): (r: seq<Order>)
    ensures |r| <= |orders|
    ensures forall k :: 0 <= k < |r| ==> r[k].email == email
    ensures forall o :: o in orders && o.email == email ==> o in r
    ensures forall o :: o in r ==> o in orders
  {
    if |orders| == 0 then []
    else if orders[0].email == email then [orders[0]] + OrdersOf(orders[1..], email)
    else OrdersOf(orders[1..], email)
  }

  /** Appending an order extends the history of its own email by that
      order, at the end, and leaves every other email's history unchanged. */
  lemma {:induction false} OrdersOfAppend(orders: seq<Order>, o: Order, email: string)
    ensures OrdersOf(orders + [o], email)
         == OrdersOf(orders, email) + (if o.email == email then [o] else [])
    decreases |orders|
  {
    if |orders| == 0 {
      assert orders + [o] == [o];
    } else {
      assert (orders + [o])[1..] == orders[1..] + [o];
      OrdersOfAppend(orders[1..], o, email);
    }
  }

  /** A history with no order for `email` is empty: asking is not an error. */
  lemma {:induction false} OrdersOfNone(orders: seq<Order>, email: string)
    requires forall k :: 0 <= k < |orders| ==> orders[k].email != email
    ensures OrdersOf(orders, email) == []
    decreases |orders|
  {
    if |orders| > 0 {
      OrdersOfNone(orders[1..], email);
    }
  }
}
