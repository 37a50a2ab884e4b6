/** Cart bookkeeping: locating a line, adding one unit of a menu item,
    removing one unit, and the cart total used at checkout. */
module Cart {
  import opened Domain

  /** Some line of `cart` is for the item `id`. */
  predicate InCart(cart: seq<CartLine>, id: string) {
    exists j :: 0 <= j < |cart| && cart[j].item.id == id
  }

  /** `i` is the first line of `cart` for item `id`: the line that
      `cart.find(i => i.id === id)` returns. */
  predicate FirstLine(cart: seq<CartLine>, id: string, i: int) {
    && 0 <= i < |cart|
    && cart[i].item.id == id
    && forall j :: 0 <= j < i ==> cart[j].item.id != id
  }

  /** The cart invariant: at most one line per item id, and no line with a
      quantity below 1. */
  predicate WellFormed(cart: seq<CartLine>) {
    && (forall i, j :: 0 <= i < j < |cart| ==> cart[i].item.id != cart[j].item.id)
    && (forall i :: 0 <= i < |cart| ==> cart[i].quantity >= 1)
  }

  /** The index of the first line for item `id`, if there is one. */
  function Find(cart: seq<CartLine>, id: string): (r: Option<nat>)
    ensures r.Some? ==> FirstLine(cart, id, r.value)
    ensures r.None? <==> !InCart(cart, id)
  {
    if |cart| == 0 then None
    else if cart[0].item.id == id then Some(0)
    else match Find(cart[1..], id)
      case None => None
      case Some(i) => Some(i + 1)
  }

  /** Add one unit of `item`: bump the first line for its id in place, or
      append a fresh line copied from the menu item with quantity 1. */
  function Add(cart: seq<CartLine>, item: MenuItem): (r: seq<CartLine>)
    ensures InCart(r, item.id)
    ensures InCart(cart, item.id) ==> |r| == |cart|
    ensures !InCart(cart, item.id) ==> |r| == |cart| + 1
  {
    match Find(cart, item.id)
    case Some(i) =>
      var r := cart[i := cart[i].(quantity := cart[i].quantity + 1)];
      assert r[i].item.id == item.id;
      r
    case None =>
      var r := cart + [CartLine(item, 1)];
      assert r[|cart|].item.id == item.id;
      r
  }

  /** Every line for item `id` dropped, the rest in their original order
      (the `filter` of the remove handler). */
  function Without(cart: seq<CartLine>, id: string): (r: seq<CartLine>)
    ensures |r| <= |cart|
    ensures !InCart(r, id)
  {
    if |cart| == 0 then []
    else if cart[0].item.id == id then Without(cart[1..], id)
    else [cart[0]] + Without(cart[1..], id)
  }

  /** Remove one unit of item `id`: None when the cart has no line for it;
      otherwise the first such line loses one unit, or, when its quantity is
      not above 1, every line for the id is dropped. */
  function Remove(cart: seq<CartLine>, id: string): (r: Option<seq<CartLine>>)
    ensures r.None? <==> !InCart(cart, id)
    ensures r.Some? ==> |r.value| <= |cart|
  {
    match Find(cart, id)
    case None => None
    case Some(i) =>
      if cart[i].quantity > 1 then Some(cart[i := cart[i].(quantity := cart[i].quantity - 1)])
      else Some(Without(cart, id))
  }

  /** Price times quantity of one line. */
  function Cost(line: CartLine): int {
    line.item.price * line.quantity
  }

  /** One more (or one fewer) unit of a line costs exactly its price. */
  lemma CostStep(line: CartLine, q: int)
    ensures Cost(line.(quantity := q + 1)) == Cost(line.(quantity := q)) + line.item.price
  {
    assert line.item.price * (q + 1) == line.item.price * q + line.item.price;
  }

  /** The cart total: the sum of price times quantity over the lines. */
  function Total(cart: seq<CartLine>): int {
    if |cart| == 0 then 0 else Cost(cart[0]) + Total(cart[1..])
  }

  /** The total as checkout computes it: a left-to-right running sum
      starting at 0, as `reduce` does. */
  method ReduceTotal(cart: seq<CartLine>) returns (sum: int)
    ensures sum == Total(cart)
  {
    sum := 0;
    var k := 0;
    while k < |cart|
      invariant 0 <= k <= |cart|
      invariant sum == Total(cart[..k])
    {
      TotalAppend(cart[..k], [cart[k]]);
      assert cart[..k + 1] == cart[..k] + [cart[k]];
      sum := sum + Cost(cart[k]);
      k := k + 1;
    }
    assert cart[..k] == cart;
  }

  // ---------------------------------------------------------------- totals

  lemma {:induction false} TotalAppend(a: seq<CartLine>, b: seq<CartLine>)
    ensures Total(a + b) == Total(a) + Total(b)
    decreases |a|
  {
    if |a| == 0 {
      assert a + b == b;
    } else {
      assert (a + b)[1..] == a[1..] + b;
      TotalAppend(a[1..], b);
    }
  }

  /** Replacing line `i` changes the total by the difference of the two
      lines' costs. */
  lemma TotalUpdate(cart: seq<CartLine>, i: int, line: CartLine)
    requires 0 <= i < |cart|
    ensures Total(cart[i := line]) == Total(cart) - Cost(cart[i]) + Cost(line)
  {
    var pre, mid, mid', post := cart[..i], [cart[i]], [line], cart[i + 1..];
    assert cart == pre + (mid + post);
    assert cart[i := line] == pre + (mid' + post);
    TotalSingle(cart[i]);
    TotalSingle(line);
    TotalAppend(pre, mid + post);
    TotalAppend(pre, mid' + post);
    TotalAppend(mid, post);
    TotalAppend(mid', post);
  }

  /** Deleting line `i` lowers the total by that line's cost. */
  lemma TotalDelete(cart: seq<CartLine>, i: int)
    requires 0 <= i < |cart|
    ensures Total(cart[..i] + cart[i + 1..]) == Total(cart) - Cost(cart[i])
  {
    var pre, mid, post := cart[..i], [cart[i]], cart[i + 1..];
    assert cart == pre + (mid + post);
    TotalSingle(cart[i]);
    TotalAppend(pre, mid + post);
    TotalAppend(mid, post);
    TotalAppend(pre, post);
  }

  lemma TotalSingle(line: CartLine)
    ensures Total([line]) == Cost(line)
  {
    assert [line][1..] == [];
  }

  /** With all quantities at least 1 and no negative prices, the total is
      never negative, and it is positive when some priced line is present. */
  lemma {:induction false} TotalNonNegative(cart: seq<CartLine>)
    requires forall k :: 0 <= k < |cart| ==> cart[k].quantity >= 1 && cart[k].item.price >= 0
    ensures Total(cart) >= 0
    ensures (exists k :: 0 <= k < |cart| && cart[k].item.price > 0) ==> Total(cart) > 0
    decreases |cart|
  {
    if |cart| > 0 {
      TotalNonNegative(cart[1..]);
      CostNonNegative(cart[0]);
      if exists k :: 0 <= k < |cart| && cart[k].item.price > 0 {
        var k :| 0 <= k < |cart| && cart[k].item.price > 0;
        if k > 0 {
          assert cart[1..][k - 1] == cart[k];
        }
      }
    }
  }

  /** A line with a non-negative price and a positive quantity costs at
      least nothing, and something when its price is positive. */
  lemma CostNonNegative(line: CartLine)
    requires line.quantity >= 1 && line.item.price >= 0
    ensures Cost(line) >= 0
    ensures line.item.price > 0 ==> Cost(line) > 0
  {
  }

  // ------------------------------------------------------------------ add

  /** Adding an item the cart already holds raises that line's quantity by
      exactly 1 and leaves every other line, and the line order, unchanged. */
  lemma AddIncrements(cart: seq<CartLine>, item: MenuItem, i: int)
    requires FirstLine(cart, item.id, i)
    ensures |Add(cart, item)| == |cart|
    ensures Add(cart, item)[i] == CartLine(cart[i].item, cart[i].quantity + 1)
    ensures forall k :: 0 <= k < |cart| && k != i ==> Add(cart, item)[k] == cart[k]
  {
    var r := Find(cart, item.id);
    assert r.Some? by { assert cart[i].item.id == item.id; }
    assert r.value == i;
  }

  /** Adding an item the cart does not hold appends one line at the end,
      copied from the menu item, with quantity 1. */
  lemma AddAppends(cart: seq<CartLine>, item: MenuItem)
    requires !InCart(cart, item.id)
    ensures Add(cart, item) == cart + [CartLine(item, 1)]
  {
  }

  lemma AddPreservesWellFormed(cart: seq<CartLine>, item: MenuItem)
    requires WellFormed(cart)
    ensures WellFormed(Add(cart, item))
  {
    match Find(cart, item.id)
    case Some(i) =>
    case None =>
      var r := cart + [CartLine(item, 1)];
      assert forall k :: 0 <= k < |cart| ==> r[k] == cart[k];
  }

  /** The total grows by the price recorded on the line that received the
      unit: the line's own snapshot price when it already existed, the menu
      item's price when it was appended. */
  lemma AddTotal(cart: seq<CartLine>, item: MenuItem)
    ensures InCart(cart, item.id) ==>
      exists i :: FirstLine(cart, item.id, i) && Total(Add(cart, item)) == Total(cart) + cart[i].item.price
    ensures !InCart(cart, item.id) ==> Total(Add(cart, item)) == Total(cart) + item.price
  {
    var r := Find(cart, item.id);
    if r.Some? {
      var i := r.value;
      var line := cart[i].(quantity := cart[i].quantity + 1);
      assert Add(cart, item) == cart[i := line];
      TotalUpdate(cart, i, line);
      CostStep(cart[i], cart[i].quantity);
      assert cart[i].(quantity := cart[i].quantity) == cart[i];
      assert FirstLine(cart, item.id, i);
    } else {
      assert Add(cart, item) == cart + [CartLine(item, 1)];
      TotalAppend(cart, [CartLine(item, 1)]);
      assert Total([CartLine(item, 1)]) == item.price;
    }
  }

  // --------------------------------------------------------------- remove

  lemma {:induction false} WithoutAbsent(cart: seq<CartLine>, id: string)
    requires !InCart(cart, id)
    ensures Without(cart, id) == cart
    decreases |cart|
  {
    if |cart| > 0 {
      assert !InCart(cart[1..], id) by {
        forall j | 0 <= j < |cart[1..]| ensures cart[1..][j].item.id != id {
          assert cart[1..][j] == cart[j + 1];
        }
      }
      WithoutAbsent(cart[1..], id);
      assert cart == [cart[0]] + cart[1..];
    }
  }

  /** When line `i` is the only line for `id`, dropping every line for `id`
      deletes exactly that line and keeps the others in order. */
  lemma {:induction false} WithoutSingle(cart: seq<CartLine>, id: string, i: int)
    requires 0 <= i < |cart| && cart[i].item.id == id
    requires forall j :: 0 <= j < |cart| && j != i ==> cart[j].item.id != id
    ensures Without(cart, id) == cart[..i] + cart[i + 1..]
    decreases |cart|
  {
    if i == 0 {
      assert !InCart(cart[1..], id) by {
        forall j | 0 <= j < |cart[1..]| ensures cart[1..][j].item.id != id {
          assert cart[1..][j] == cart[j + 1];
        }
      }
      WithoutAbsent(cart[1..], id);
    } else {
      var tail := cart[1..];
      forall j | 0 <= j < |tail| && j != i - 1 ensures tail[j].item.id != id {
        assert tail[j] == cart[j + 1];
      }
      WithoutSingle(tail, id, i - 1);
      assert cart[..i] == [cart[0]] + tail[..i - 1];
      assert cart[i + 1..] == tail[i..];
    }
  }

  /** The lines kept by Without are exactly the lines of the cart for other
      items. */
  lemma {:induction false} WithoutMembers(cart: seq<CartLine>, id: string, l: CartLine)
    ensures l in Without(cart, id) <==> l in cart && l.item.id != id
    decreases |cart|
  {
    if |cart| > 0 {
      WithoutMembers(cart[1..], id, l);
      assert cart == [cart[0]] + cart[1..];
    }
  }

  /** Removing an item whose first line has quantity above 1 lowers that
      line by exactly 1 and leaves every other line unchanged. */
  lemma RemoveDecrements(cart: seq<CartLine>, id: string, i: int)
    requires FirstLine(cart, id, i) && cart[i].quantity > 1
    ensures Remove(cart, id).Some?
    ensures |Remove(cart, id).value| == |cart|
    ensures Remove(cart, id).value[i] == CartLine(cart[i].item, cart[i].quantity - 1)
    ensures forall k :: 0 <= k < |cart| && k != i ==> Remove(cart, id).value[k] == cart[k]
  {
    var r := Find(cart, id);
    assert r.Some? by { assert cart[i].item.id == id; }
    assert r.value == i;
  }

  /** In a well-formed cart, removing an item whose line has quantity 1
      deletes that line, and the remaining lines keep their relative order. */
  lemma RemoveDeletes(cart: seq<CartLine>, id: string, i: int)
    requires WellFormed(cart)
    requires 0 <= i < |cart| && cart[i].item.id == id && cart[i].quantity == 1
    ensures Remove(cart, id) == Some(cart[..i] + cart[i + 1..])
  {
    var r := Find(cart, id);
    assert r.Some? by { assert cart[i].item.id == id; }
    assert r.value == i;
    WithoutSingle(cart, id, i);
  }

  lemma RemovePreservesWellFormed(cart: seq<CartLine>, id: string)
    requires WellFormed(cart) && InCart(cart, id)
    ensures WellFormed(Remove(cart, id).value)
  {
    var i := Find(cart, id).value;
    var r := Remove(cart, id).value;
    if cart[i].quantity > 1 {
      RemoveDecrements(cart, id, i);
      assert forall k :: 0 <= k < |r| ==> r[k].item == cart[k].item && r[k].quantity >= 1;
    } else {
      RemoveDeletes(cart, id, i);
      assert forall k :: 0 <= k < |r| ==> r[k] == (if k < i then cart[k] else cart[k + 1]);
    }
  }

  /** The total falls by the price recorded on the line that lost the unit. */
  lemma RemoveTotal(cart: seq<CartLine>, id: string, i: int)
    requires WellFormed(cart) && 0 <= i < |cart| && cart[i].item.id == id
    ensures Total(Remove(cart, id).value) == Total(cart) - cart[i].item.price
  {
    assert FirstLine(cart, id, i);
    if cart[i].quantity > 1 {
      var line := cart[i].(quantity := cart[i].quantity - 1);
      RemoveDecrements(cart, id, i);
      assert Remove(cart, id).value == cart[i := line];
      TotalUpdate(cart, i, line);
      CostStep(line, line.quantity);
      assert line.(quantity := line.quantity + 1) == cart[i];
    } else {
      RemoveDeletes(cart, id, i);
      TotalDelete(cart, i);
    }
  }

  /** Adding one unit of an item and then removing one unit of the same id
      gives back the original cart. */
  lemma AddThenRemove(cart: seq<CartLine>, item: MenuItem)
    requires WellFormed(cart)
    ensures Remove(Add(cart, item), item.id) == Some(cart)
  {
    var added := Add(cart, item);
    match Find(cart, item.id)
    case Some(i) =>
      AddIncrements(cart, item, i);
      assert FirstLine(added, item.id, i);
      RemoveDecrements(added, item.id, i);
      assert Remove(added, item.id).value == cart;
    case None =>
      AddAppends(cart, item);
      AddPreservesWellFormed(cart, item);
      var n := |cart|;
      assert added[n] == CartLine(item, 1);
      RemoveDeletes(added, item.id, n);
      assert added[..n] == cart;
      assert added[n + 1..] == [];
      assert added[..n] + added[n + 1..] == cart;
  }
}
