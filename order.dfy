/**
 * The order controller: checkout freezes the cart's lines into an order and
 * empties the cart; listings are filtered by owner and sorted newest first;
 * the status is overwritten with whatever value the caller sends.
 */
module OrderController {
  import opened Models
  import CartController

  const CartIsEmpty := BadRequest("Cart is empty")
  const OrderNotFound := NotFound("Order not found")
  /** Freezing a line whose food item is gone fails when its fields are read. */
  const MissingFood := Internal("Cannot read properties of null (reading '_id')")
  const InitialStatus := "Pending"

  // ---------------------------------------------------------------------------
  // Checkout
  // ---------------------------------------------------------------------------

  /** The frozen copy of a cart line: the catalog's name and price at checkout time. */
  function Freeze(line: CartLine, food: FoodItem): (frozen: OrderLine)
    ensures frozen.foodId == line.foodId && frozen.quantity == line.quantity
    ensures frozen.name == food.name && frozen.price == food.price
  {
    OrderLine(line.foodId, food.name, food.price, line.quantity)
  }

  /** The order lines for a cart, or None when a line's food item is gone. */
  function Snapshot(items: seq<CartLine>, foods: map<Id, FoodItem>): (r: Option<seq<OrderLine>>)
    ensures r.Some? <==> CartController.Priced(items, foods)
    ensures r.Some? ==> |r.value| == |items|
    ensures r.Some? ==> forall i :: 0 <= i < |items| ==> r.value[i] == Freeze(items[i], foods[items[i].foodId])
  {
    if |items| == 0 then Some([])
    else
      var last := items[|items| - 1];
      match Snapshot(items[..|items| - 1], foods)
      case None => None
      case Some(lines) =>
        if last.foodId in foods then Some(lines + [Freeze(last, foods[last.foodId])]) else None
  }

  /** The sum over frozen lines of price times quantity. */
  function OrderTotal(lines: seq<OrderLine>): (total: int)
    ensures (forall i :: 0 <= i < |lines| ==> lines[i].price >= 0 && lines[i].quantity >= 0) ==> total >= 0
  {
    if |lines| == 0 then 0
    else OrderTotal(lines[..|lines| - 1]) + lines[|lines| - 1].price * lines[|lines| - 1].quantity
  }

  /** The outcome of checking out the caller's cart. */
  function Checkout(
    carts: map<Id, Cart>, foods: map<Id, FoodItem>, user: Id,
    deliveryAddress: string, paymentMethod: string, id: Id, now: nat): (r: Result<Order>)
    ensures r.Err? ==> r.error == CartIsEmpty || r.error == MissingFood
    ensures r.Err? <==> user !in carts || !CartController.Priced(carts[user].items, foods) || |carts[user].items| == 0
    ensures r.Ok? ==> r.value.id == id && r.value.userId == user && r.value.status == InitialStatus
  {
    if user !in carts || |carts[user].items| == 0 then Err(CartIsEmpty)
    else
      match Snapshot(carts[user].items, foods)
      case None => Err(MissingFood)
      case Some(lines) =>
        Ok(Order(id, user, lines, carts[user].totalAmount, deliveryAddress, paymentMethod, InitialStatus, now))
  }

  /** The frozen lines are priced exactly as the cart's lines are at checkout time. */
  lemma {:induction false} SnapshotTotal(items: seq<CartLine>, foods: map<Id, FoodItem>)
    requires CartController.Priced(items, foods)
    ensures Snapshot(items, foods).Some?
    ensures OrderTotal(Snapshot(items, foods).value) == CartController.LineTotal(items, foods)
  {
    if |items| > 0 {
      var front := items[..|items| - 1];
      SnapshotTotal(front, foods);
      var lines := Snapshot(items, foods).value;
      assert lines[..|lines| - 1] == Snapshot(front, foods).value;
    }
  }

  /** Checkout fails with 400 exactly when the caller has no cart or an empty one. */
  lemma CheckoutEmptyCart(
    carts: map<Id, Cart>, foods: map<Id, FoodItem>, user: Id,
    deliveryAddress: string, paymentMethod: string, id: Id, now: nat)
    ensures Checkout(carts, foods, user, deliveryAddress, paymentMethod, id, now) == Err(CartIsEmpty)
        <==> user !in carts || |carts[user].items| == 0
  {
  }

  /**
   * A successful checkout belongs to the caller, starts as Pending, carries one
   * frozen line per cart line in cart order, and copies the cart's cached total.
   */
  lemma CheckoutFreezesCart(
    carts: map<Id, Cart>, foods: map<Id, FoodItem>, user: Id,
    deliveryAddress: string, paymentMethod: string, id: Id, now: nat)
    requires Checkout(carts, foods, user, deliveryAddress, paymentMethod, id, now).Ok?
    ensures var o := Checkout(carts, foods, user, deliveryAddress, paymentMethod, id, now).value;
      && user in carts
      && o.id == id && o.userId == user && o.status == InitialStatus && o.createdAt == now
      && o.deliveryAddress == deliveryAddress && o.paymentMethod == paymentMethod
      && o.totalAmount == carts[user].totalAmount
      && |o.items| == |carts[user].items| > 0
      && forall i :: 0 <= i < |o.items| ==>
           var line := carts[user].items[i];
           line.foodId in foods && o.items[i] == OrderLine(line.foodId, foods[line.foodId].name, foods[line.foodId].price, line.quantity)
  {
  }

  /**
   * The copied total equals the sum over the frozen lines when the cart's cached
   * total is still the one the current catalog prices give.
   */
  lemma CheckoutTotal(
    carts: map<Id, Cart>, foods: map<Id, FoodItem>, user: Id,
    deliveryAddress: string, paymentMethod: string, id: Id, now: nat)
    requires Checkout(carts, foods, user, deliveryAddress, paymentMethod, id, now).Ok?
    requires CartController.Priced(carts[user].items, foods)
    requires carts[user].totalAmount == CartController.LineTotal(carts[user].items, foods)
    ensures var o := Checkout(carts, foods, user, deliveryAddress, paymentMethod, id, now).value;
      o.totalAmount == OrderTotal(o.items)
  {
    SnapshotTotal(carts[user].items, foods);
  }

  /** A price change after the last cart mutation makes the copied total disagree with the lines. */
  lemma StaleTotalExample()
    ensures var foods := map["f" := FoodItem("r", "Vada Pav", 40, "Snacks", "img", true)];
      var carts := map["u" := Cart([CartLine("f", 2)], 60)];
      var o := Checkout(carts, foods, "u", "addr", "COD", "o1", 0);
      o.Ok? && o.value.totalAmount == 60 && OrderTotal(o.value.items) == 80
  {
    var foods := map["f" := FoodItem("r", "Vada Pav", 40, "Snacks", "img", true)];
    var items := [CartLine("f", 2)];
    assert CartController.Priced(items, foods);
    var lines := Snapshot(items, foods).value;
    assert lines[0] == OrderLine("f", "Vada Pav", 40, 2);
    assert lines == [OrderLine("f", "Vada Pav", 40, 2)];
    assert OrderTotal([OrderLine("f", "Vada Pav", 40, 2)]) == 80 by {
      assert [OrderLine("f", "Vada Pav", 40, 2)][..0] == [];
    }
  }

  // ---------------------------------------------------------------------------
  // Listings
  // ---------------------------------------------------------------------------

  /** `k` names an order created no earlier than any other in `m`. */
  ghost predicate IsLatest(m: map<Id, Order>, k: Id) {
    k in m && forall k' :: k' in m ==> m[k'].createdAt <= m[k].createdAt
  }

  lemma {:induction false} LatestExists(m: map<Id, Order>)
    requires |m| > 0
    ensures exists k :: IsLatest(m, k)
    decreases |m|
  {
    var k0 :| k0 in m;
    var rest := m - {k0};
    assert rest.Keys == m.Keys - {k0};
    if |rest| == 0 {
      assert IsLatest(m, k0);
    } else {
      LatestExists(rest);
      var k1 :| IsLatest(rest, k1);
      assert forall k' :: k' in m ==> k' == k0 || (k' in rest && rest[k'] == m[k']);
      if m[k0].createdAt <= m[k1].createdAt {
        assert IsLatest(m, k1);
      } else {
        assert IsLatest(m, k0);
      }
    }
  }

  /** A latest order of a non-empty map. */
  ghost function Latest(m: map<Id, Order>): (k: Id)
    requires |m| > 0
    ensures IsLatest(m, k)
  {
    LatestExists(m);
    var k :| IsLatest(m, k);
    k
  }

  /** Sorted by creation time, most recent first. */
  predicate NewestFirstOrder(s: seq<Order>) {
    forall i, j :: 0 <= i < j < |s| ==> s[i].createdAt >= s[j].createdAt
  }

  /** The orders of `m` sorted by `createdAt` descending; ties come in no particular order. */
  ghost function NewestFirst(m: map<Id, Order>): (r: seq<Order>)
    ensures |r| == |m|
    decreases |m|
  {
    if |m| == 0 then []
    else
      var k := Latest(m);
      assert (m - {k}).Keys == m.Keys - {k};
      [m[k]] + NewestFirst(m - {k})
  }

  /** NewestFirst lists exactly the orders of `m`. */
  lemma {:induction false} NewestFirstMembers(m: map<Id, Order>)
    ensures forall o :: o in NewestFirst(m) <==> o in m.Values
    decreases |m|
  {
    if |m| > 0 {
      var k := Latest(m);
      var rest := m - {k};
      assert rest.Keys == m.Keys - {k};
      assert NewestFirst(m) == [m[k]] + NewestFirst(rest);
      NewestFirstMembers(rest);
      forall o | o in m.Values ensures o in NewestFirst(m) {
        var k' :| k' in m && m[k'] == o;
        if k' != k {
          assert k' in rest && rest[k'] == o;
        }
      }
    }
  }

  /** NewestFirst lists every order of `m` exactly once, newest first. */
  lemma {:induction false} NewestFirstSpec(m: map<Id, Order>)
    requires KeyedById(m)
    ensures |NewestFirst(m)| == |m|
    ensures forall o :: o in NewestFirst(m) <==> o in m.Values
    ensures forall i, j :: 0 <= i < j < |NewestFirst(m)| ==> NewestFirst(m)[i].id != NewestFirst(m)[j].id
    ensures NewestFirstOrder(NewestFirst(m))
    decreases |m|
  {
    NewestFirstMembers(m);
    if |m| > 0 {
      var k := Latest(m);
      var rest := m - {k};
      assert rest.Keys == m.Keys - {k};
      var r := NewestFirst(m);
      assert r == [m[k]] + NewestFirst(rest);
      NewestFirstSpec(rest);
      forall j | 0 < j < |r| ensures r[0].id != r[j].id && r[0].createdAt >= r[j].createdAt {
        assert r[j] in NewestFirst(rest);
        var k' :| k' in rest && rest[k'] == r[j];
      }
    }
  }

  /** The orders placed by `user`. */
  function OwnedBy(orders: map<Id, Order>, user: Id): (r: map<Id, Order>)
    ensures forall k :: k in r <==> k in orders && orders[k].userId == user
    ensures forall k :: k in r ==> r[k] == orders[k]
  {
    map k | k in orders && orders[k].userId == user :: orders[k]
  }

  /** GET /api/orders/myorders: exactly the caller's orders, each once, newest first. */
  ghost function MyOrders(orders: map<Id, Order>, user: Id): (r: seq<Order>)
    requires KeyedById(orders)
    ensures forall o :: o in r <==> o in orders.Values && o.userId == user
    ensures forall i, j :: 0 <= i < j < |r| ==> r[i].id != r[j].id
    ensures NewestFirstOrder(r)
  {
    var mine := OwnedBy(orders, user);
    NewestFirstSpec(mine);
    assert forall o :: o in orders.Values && o.userId == user ==> o in mine.Values by {
      forall o | o in orders.Values && o.userId == user ensures o in mine.Values {
        var k :| k in orders && orders[k] == o;
        assert k in mine;
      }
    }
    NewestFirst(mine)
  }

  /** GET /api/orders: every order, each once, newest first. */
  ghost function AllOrders(orders: map<Id, Order>): (r: seq<Order>)
    requires KeyedById(orders)
    ensures |r| == |orders|
    ensures forall o :: o in r <==> o in orders.Values
    ensures NewestFirstOrder(r)
  {
    NewestFirstSpec(orders);
    NewestFirst(orders)
  }

  // ---------------------------------------------------------------------------
  // Controller operations that change the store
  // ---------------------------------------------------------------------------

  /**
   * POST /api/orders: freeze the caller's cart into a new Pending order, then
   * empty the cart. `newId` and `now` stand for the store's id and clock.
   */
  method CreateOrder(
    db: Database, user: Id, deliveryAddress: string, paymentMethod: string, newId: Id, now: nat)
    returns (r: Result<Order>)
    requires db.Valid()
    requires newId !in db.orders
    modifies db`carts, db`orders
    ensures db.Valid()
    ensures r == Checkout(old(db.carts), db.foods, user, deliveryAddress, paymentMethod, newId, now)
    ensures r.Err? ==> db.carts == old(db.carts) && db.orders == old(db.orders)
    ensures r.Ok? ==> db.orders == old(db.orders)[newId := r.value]
    ensures r.Ok? ==> db.carts == old(db.carts)[user := EmptyCart]
  {
    if user !in db.carts || |db.carts[user].items| == 0 {
      return Err(CartIsEmpty);
    }
    var cart := db.carts[user];
    var orderItems := Snapshot(cart.items, db.foods);
    if orderItems.None? {
      return Err(MissingFood);
    }
    var order := Order(newId, user, orderItems.value, cart.totalAmount,
                       deliveryAddress, paymentMethod, InitialStatus, now);
    db.orders := db.orders[newId := order];
    db.carts := db.carts[user := EmptyCart];
    r := Ok(order);
  }

  /** PUT /api/orders/:id/status: overwrite the status, with no transition check. */
  method UpdateOrderStatus(db: Database, id: Id, status: string) returns (r: Result<Order>)
    requires db.Valid()
    modifies db`orders
    ensures db.Valid()
    ensures id !in old(db.orders) ==> r == Err(OrderNotFound) && db.orders == old(db.orders)
    ensures id in old(db.orders) ==>
      && r == Ok(old(db.orders)[id].(status := status))
      && db.orders == old(db.orders)[id := r.value]
  {
    if id !in db.orders {
      return Err(OrderNotFound);
    }
    var order := db.orders[id];
    order := order.(status := status);
    db.orders := db.orders[id := order];
    r := Ok(order);
  }
}
