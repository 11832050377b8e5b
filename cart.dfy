/**
 * The cart controller: one cart per user, a list of (food id, quantity) lines
 * whose cached total is recomputed from live catalog prices after every add
 * and remove.
 */
module CartController {
  import opened Models

  const FoodNotFound := NotFound("Food item not found")
  const CartNotFound := NotFound("Cart not found")
  /** Looking up the price of a line whose food item is gone fails inside the loop. */
  const MissingPrice := Internal("Cannot read properties of null (reading 'price')")

  // ---------------------------------------------------------------------------
  // Specification functions
  // ---------------------------------------------------------------------------

  /** `quantity || 1`: a missing or zero quantity means one. */
  function RequestedQuantity(quantity: Option<int>): (q: int)
    ensures q != 0
  {
    match quantity
    case None => 1
    case Some(n) => if n == 0 then 1 else n
  }

  /** The cart a request works on: the stored one, or a new empty one. */
  function CartOf(carts: map<Id, Cart>, user: Id): (cart: Cart)
    ensures user in carts ==> cart == carts[user]
    ensures user !in carts ==> cart.items == [] && cart.totalAmount == 0
  {
    if user in carts then carts[user] else EmptyCart
  }

  /** `findIndex` on the food id: the first matching line, or -1. */
  function IndexOfFood(items: seq<CartLine>, foodId: Id): (i: int)
    ensures -1 <= i < |items|
    ensures i == -1 <==> forall j :: 0 <= j < |items| ==> items[j].foodId != foodId
    ensures 0 <= i ==> items[i].foodId == foodId
    ensures 0 <= i ==> forall j :: 0 <= j < i ==> items[j].foodId != foodId
  {
    if |items| == 0 then -1
    else if items[0].foodId == foodId then 0
    else
      var i := IndexOfFood(items[1..], foodId);
      if i == -1 then -1 else i + 1
  }

  /** The lines after adding `q` of `foodId`: merged into an existing line, or appended. */
  function AddLine(items: seq<CartLine>, foodId: Id, q: int): (r: seq<CartLine>)
    ensures IndexOfFood(r, foodId) != -1
    ensures |r| == |items| + 1 <==> IndexOfFood(items, foodId) == -1
    ensures |r| == |items| <==> IndexOfFood(items, foodId) != -1
  {
    var i := IndexOfFood(items, foodId);
    if i > -1 then
      var r := items[i := items[i].(quantity := items[i].quantity + q)];
      assert r[i].foodId == foodId;
      r
    else
      var r := items + [CartLine(foodId, q)];
      assert r[|items|].foodId == foodId;
      r
  }

  /** `items.filter(item => item.foodId !== foodId)`. */
  function WithoutFood(items: seq<CartLine>, foodId: Id): (r: seq<CartLine>)
    ensures |r| <= |items|
    ensures forall i :: 0 <= i < |r| ==> r[i].foodId != foodId
  {
    if |items| == 0 then []
    else (if items[0].foodId == foodId then [] else [items[0]]) + WithoutFood(items[1..], foodId)
  }

  /** Every line refers to a food item that is still in the catalog. */
  predicate Priced(items: seq<CartLine>, foods: map<Id, FoodItem>)
    ensures Priced(items, foods) <==> forall line :: line in items ==> line.foodId in foods
  {
    forall i :: 0 <= i < |items| ==> items[i].foodId in foods
  }

  /** The sum over the lines of current catalog price times quantity. */
  function LineTotal(items: seq<CartLine>, foods: map<Id, FoodItem>): (total: int)
    requires Priced(items, foods)
    ensures |items| == 0 ==> total == 0
    ensures |items| == 1 ==> total == foods[items[0].foodId].price * items[0].quantity
  {
    if |items| == 0 then 0
    else
      var last := items[|items| - 1];
      LineTotal(items[..|items| - 1], foods) + foods[last.foodId].price * last.quantity
  }

  // ---------------------------------------------------------------------------
  // Properties of the specification
  // ---------------------------------------------------------------------------

  /** A missing or zero quantity means one; any other quantity is taken as given. */
  lemma RequestedQuantityDefault(quantity: Option<int>)
    ensures RequestedQuantity(quantity) != 0
    ensures quantity.None? || quantity.value == 0 ==> RequestedQuantity(quantity) == 1
    ensures quantity.Some? && quantity.value != 0 ==> RequestedQuantity(quantity) == quantity.value
  {
  }

  /** Adding a food already in the cart bumps that line and touches no other. */
  lemma AddLineExisting(items: seq<CartLine>, foodId: Id, q: int, k: int)
    requires DistinctFoods(items)
    requires 0 <= k < |items| && items[k].foodId == foodId
    ensures |AddLine(items, foodId, q)| == |items|
    ensures AddLine(items, foodId, q)[k] == CartLine(foodId, items[k].quantity + q)
    ensures forall j :: 0 <= j < |items| && j != k ==> AddLine(items, foodId, q)[j] == items[j]
  {
    var i := IndexOfFood(items, foodId);
    assert i == k;
  }

  /** Adding a food not in the cart appends exactly one line at the end. */
  lemma AddLineNew(items: seq<CartLine>, foodId: Id, q: int)
    requires forall j :: 0 <= j < |items| ==> items[j].foodId != foodId
    ensures AddLine(items, foodId, q) == items + [CartLine(foodId, q)]
  {
  }

  /** Adding keeps at most one line per food id. */
  lemma AddLineDistinct(items: seq<CartLine>, foodId: Id, q: int)
    requires DistinctFoods(items)
    ensures DistinctFoods(AddLine(items, foodId, q))
  {
  }

  /** Adding with positive quantities keeps every line's quantity positive. */
  lemma AddLinePositive(items: seq<CartLine>, foodId: Id, q: int)
    requires forall j :: 0 <= j < |items| ==> items[j].quantity > 0
    requires q > 0
    ensures forall j :: 0 <= j < |AddLine(items, foodId, q)| ==> AddLine(items, foodId, q)[j].quantity > 0
  {
  }

  /** Two adds of the same food merge into one line: quantities 2 then 3 give one line of 5. */
  lemma AddTwiceMerges(foodId: Id)
    ensures AddLine(AddLine([], foodId, 2), foodId, 3) == [CartLine(foodId, 5)]
  {
    assert AddLine([], foodId, 2) == [CartLine(foodId, 2)];
    assert IndexOfFood([CartLine(foodId, 2)], foodId) == 0;
  }

  /** The filter keeps exactly the lines of other foods. */
  lemma {:induction false} WithoutFoodMembers(items: seq<CartLine>, foodId: Id)
    ensures |WithoutFood(items, foodId)| <= |items|
    ensures forall l :: l in WithoutFood(items, foodId) <==> l in items && l.foodId != foodId
  {
    if |items| > 0 {
      WithoutFoodMembers(items[1..], foodId);
      assert items == [items[0]] + items[1..];
    }
  }

  /** Removing an absent food leaves the lines as they were. */
  lemma {:induction false} WithoutAbsentFood(items: seq<CartLine>, foodId: Id)
    requires forall j :: 0 <= j < |items| ==> items[j].foodId != foodId
    ensures WithoutFood(items, foodId) == items
  {
    if |items| > 0 {
      WithoutAbsentFood(items[1..], foodId);
      assert items == [items[0]] + items[1..];
    }
  }

  /** Removing a food in the cart deletes its one line and keeps the others in order. */
  lemma {:induction false} WithoutPresentFood(items: seq<CartLine>, foodId: Id, k: int)
    requires DistinctFoods(items)
    requires 0 <= k < |items| && items[k].foodId == foodId
    ensures WithoutFood(items, foodId) == items[..k] + items[k + 1..]
  {
    if k == 0 {
      WithoutAbsentFood(items[1..], foodId);
    } else {
      WithoutPresentFood(items[1..], foodId, k - 1);
      assert items[1..][..k - 1] == items[1..k];
      assert items[..k] == [items[0]] + items[1..k];
    }
  }

  /** Removing keeps at most one line per food id. */
  lemma WithoutFoodDistinct(items: seq<CartLine>, foodId: Id)
    requires DistinctFoods(items)
    ensures DistinctFoods(WithoutFood(items, foodId))
  {
    var k := IndexOfFood(items, foodId);
    if k == -1 {
      WithoutAbsentFood(items, foodId);
    } else {
      WithoutPresentFood(items, foodId, k);
      var r := items[..k] + items[k + 1..];
      forall i, j | 0 <= i < j < |r| ensures r[i].foodId != r[j].foodId {
        var i' := if i < k then i else i + 1;
        var j' := if j < k then j else j + 1;
        assert r[i] == items[i'] && r[j] == items[j'];
      }
    }
  }

  /** The total of two runs of lines is the sum of their totals. */
  lemma {:induction false} LineTotalAppend(a: seq<CartLine>, b: seq<CartLine>, foods: map<Id, FoodItem>)
    requires Priced(a, foods) && Priced(b, foods)
    ensures Priced(a + b, foods)
    ensures LineTotal(a + b, foods) == LineTotal(a, foods) + LineTotal(b, foods)
  {
    if |b| == 0 {
      assert a + b == a;
    } else {
      var b' := b[..|b| - 1];
      LineTotalAppend(a, b', foods);
      assert (a + b)[..|a + b| - 1] == a + b';
    }
  }

  /** The total of lines around one line is the two runs' totals plus that line's amount. */
  lemma LineTotalAround(a: seq<CartLine>, line: CartLine, b: seq<CartLine>, foods: map<Id, FoodItem>)
    requires Priced(a, foods) && line.foodId in foods && Priced(b, foods)
    ensures Priced(a + [line] + b, foods)
    ensures LineTotal(a + [line] + b, foods)
         == LineTotal(a, foods) + foods[line.foodId].price * line.quantity + LineTotal(b, foods)
  {
    assert Priced([line], foods);
    LineTotalAppend(a, [line], foods);
    LineTotalAppend(a + [line], b, foods);
  }

  /** Raising one line's quantity by `q` raises the total by that line's price times `q`. */
  lemma LineTotalBump(items: seq<CartLine>, k: int, q: int, foods: map<Id, FoodItem>)
    requires Priced(items, foods)
    requires 0 <= k < |items|
    ensures Priced(items[k := items[k].(quantity := items[k].quantity + q)], foods)
    ensures LineTotal(items[k := items[k].(quantity := items[k].quantity + q)], foods)
         == LineTotal(items, foods) + foods[items[k].foodId].price * q
  {
    var a, b := items[..k], items[k + 1..];
    var line := items[k].(quantity := items[k].quantity + q);
    assert items == a + [items[k]] + b;
    assert items[k := line] == a + [line] + b;
    LineTotalAround(a, items[k], b, foods);
    LineTotalAround(a, line, b, foods);
    Distributes(foods[line.foodId].price, items[k].quantity, q);
  }

  lemma Distributes(p: int, x: int, y: int)
    ensures p * (x + y) == p * x + p * y
  {
  }

  /** Adding `q` of a catalog food raises the recomputed total by its price times `q`. */
  lemma AddLineTotal(items: seq<CartLine>, foodId: Id, q: int, foods: map<Id, FoodItem>)
    requires Priced(items, foods) && foodId in foods
    ensures Priced(AddLine(items, foodId, q), foods)
    ensures LineTotal(AddLine(items, foodId, q), foods) == LineTotal(items, foods) + foods[foodId].price * q
  {
    var i := IndexOfFood(items, foodId);
    if i > -1 {
      assert AddLine(items, foodId, q) == items[i := items[i].(quantity := items[i].quantity + q)];
      LineTotalBump(items, i, q, foods);
    } else {
      assert AddLine(items, foodId, q) == items + [CartLine(foodId, q)];
      assert Priced([CartLine(foodId, q)], foods);
      LineTotalAppend(items, [CartLine(foodId, q)], foods);
    }
  }

  /** Removing a food's line lowers the recomputed total by exactly that line's amount. */
  lemma RemoveLineTotal(items: seq<CartLine>, foodId: Id, foods: map<Id, FoodItem>)
    requires Priced(items, foods) && DistinctFoods(items)
    ensures Priced(WithoutFood(items, foodId), foods)
    ensures IndexOfFood(items, foodId) == -1 ==>
      LineTotal(WithoutFood(items, foodId), foods) == LineTotal(items, foods)
    ensures IndexOfFood(items, foodId) != -1 ==>
      LineTotal(WithoutFood(items, foodId), foods)
        == LineTotal(items, foods) - foods[foodId].price * items[IndexOfFood(items, foodId)].quantity
  {
    var k := IndexOfFood(items, foodId);
    if k == -1 {
      WithoutAbsentFood(items, foodId);
    } else {
      WithoutPresentFood(items, foodId, k);
      RemoveAtTotal(items, k, foods);
    }
  }

  /** Deleting the line at `k` lowers the total by that line's amount. */
  lemma RemoveAtTotal(items: seq<CartLine>, k: int, foods: map<Id, FoodItem>)
    requires Priced(items, foods) && 0 <= k < |items|
    ensures Priced(items[..k] + items[k + 1..], foods)
    ensures LineTotal(items[..k] + items[k + 1..], foods)
         == LineTotal(items, foods) - foods[items[k].foodId].price * items[k].quantity
  {
    var a, b := items[..k], items[k + 1..];
    assert items == a + [items[k]] + b;
    LineTotalAround(a, items[k], b, foods);
    LineTotalAppend(a, b, foods);
  }

  // ---------------------------------------------------------------------------
  // The total loop and the controller operations
  // ---------------------------------------------------------------------------

  /**
   * The total loop: one catalog lookup per line, summing price times quantity;
   * a line whose food item is gone makes the whole request fail.
   */
  method ComputeTotal(items: seq<CartLine>, foods: map<Id, FoodItem>) returns (total: Option<int>)
    ensures total.Some? <==> Priced(items, foods)
    ensures total.Some? ==> total.value == LineTotal(items, foods)
  {
    var sum := 0;
    for i := 0 to |items|
      invariant Priced(items[..i], foods)
      invariant sum == LineTotal(items[..i], foods)
    {
      var item := items[i];
      if item.foodId !in foods {
        return None;
      }
      var f := foods[item.foodId];
      assert items[..i + 1][..i] == items[..i];
      sum := sum + f.price * item.quantity;
    }
    assert items[..|items|] == items;
    return Some(sum);
  }

  /** GET /api/cart: the caller's cart, created empty and stored on first access. */
  method GetCart(db: Database, user: Id) returns (cart: Cart)
    requires db.Valid()
    modifies db`carts
    ensures db.Valid()
    ensures cart == CartOf(old(db.carts), user)
    ensures db.carts == old(db.carts)[user := cart]
  {
    if user in db.carts {
      cart := db.carts[user];
    } else {
      cart := EmptyCart;
      db.carts := db.carts[user := cart];
    }
  }

  /** POST /api/cart: add `quantity || 1` of a catalog food, then recompute the total. */
  method AddToCart(db: Database, user: Id, foodId: Id, quantity: Option<int>) returns (r: Result<Cart>)
    requires db.Valid()
    modifies db`carts
    ensures db.Valid()
    ensures foodId !in db.foods ==> r == Err(FoodNotFound) && db.carts == old(db.carts)
    ensures foodId in db.foods ==>
      var items := AddLine(CartOf(old(db.carts), user).items, foodId, RequestedQuantity(quantity));
      if Priced(items, db.foods) then
        && r == Ok(Cart(items, LineTotal(items, db.foods)))
        && db.carts == old(db.carts)[user := r.value]
      else
        r == Err(MissingPrice) && db.carts == old(db.carts)
  {
    if foodId !in db.foods {
      return Err(FoodNotFound);
    }
    var cart := CartOf(db.carts, user);
    var items := cart.items;
    var q := RequestedQuantity(quantity);
    var itemIndex := IndexOfFood(items, foodId);
    if itemIndex > -1 {
      items := items[itemIndex := items[itemIndex].(quantity := items[itemIndex].quantity + q)];
    } else {
      items := items + [CartLine(foodId, q)];
    }
    assert items == AddLine(cart.items, foodId, q);
    var total := ComputeTotal(items, db.foods);
    if total.None? {
      return Err(MissingPrice);
    }
    AddLineDistinct(cart.items, foodId, q);
    cart := Cart(items, total.value);
    db.carts := db.carts[user := cart];
    r := Ok(cart);
  }

  /** DELETE /api/cart/:foodId: drop the food's line, then recompute the total. */
  method RemoveFromCart(db: Database, user: Id, foodId: Id) returns (r: Result<Cart>)
    requires db.Valid()
    modifies db`carts
    ensures db.Valid()
    ensures user !in old(db.carts) ==> r == Err(CartNotFound) && db.carts == old(db.carts)
    ensures user in old(db.carts) ==>
      var items := WithoutFood(old(db.carts)[user].items, foodId);
      if Priced(items, db.foods) then
        && r == Ok(Cart(items, LineTotal(items, db.foods)))
        && db.carts == old(db.carts)[user := r.value]
      else
        r == Err(MissingPrice) && db.carts == old(db.carts)
  {
    if user !in db.carts {
      return Err(CartNotFound);
    }
    var cart := db.carts[user];
    var items := WithoutFood(cart.items, foodId);
    var total := ComputeTotal(items, db.foods);
    if total.None? {
      return Err(MissingPrice);
    }
    WithoutFoodDistinct(cart.items, foodId);
    cart := Cart(items, total.value);
    db.carts := db.carts[user := cart];
    r := Ok(cart);
  }

  /** DELETE /api/cart: empty the caller's cart and zero its total. */
  method ClearCart(db: Database, user: Id) returns (r: Result<string>)
    requires db.Valid()
    modifies db`carts
    ensures db.Valid()
    ensures user !in old(db.carts) ==> r == Err(CartNotFound) && db.carts == old(db.carts)
    ensures user in old(db.carts) ==> r == Ok("Cart cleared") && db.carts == old(db.carts)[user := EmptyCart]
  {
    if user !in db.carts {
      return Err(CartNotFound);
    }
    db.carts := db.carts[user := EmptyCart];
    r := Ok("Cart cleared");
  }
}
