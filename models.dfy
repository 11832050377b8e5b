/**
 * The records of the food-ordering backend and the document store that holds
 * them. Each collection of the store is a map from a document id to the
 * document; ids are opaque strings compared only for equality.
 */
module Models {

  type Id = string

  datatype Option<+T> = None | Some(value: T)

  /** The error responses of the controllers, each with its HTTP status. */
  datatype Error =
    | BadRequest(message: string)
    | Unauthorized(message: string)
    | Forbidden(message: string)
    | NotFound(message: string)
    | Internal(message: string)
  {
    function Code(): (c: int)
      ensures c in {400, 401, 403, 404, 500}
      ensures c == 400 <==> BadRequest?
      ensures c == 500 <==> Internal?
    {
      match this
      case BadRequest(_) => 400
      case Unauthorized(_) => 401
      case Forbidden(_) => 403
      case NotFound(_) => 404
      case Internal(_) => 500
    }
  }

  datatype Result<+T> = Ok(value: T) | Err(error: Error)

  /** The caller as the authentication layer resolved it. */
  datatype User = User(id: Id, role: string)

  datatype Restaurant = Restaurant(
    name: string,
    image: string,
    description: string,
    address: string,
    owner: Id,
    isActive: bool)

  datatype FoodItem = FoodItem(
    restaurantId: Id,
    name: string,
    price: int,
    category: string,
    image: string,
    isAvailable: bool)

  /** One line of a cart: a reference into the catalog and a quantity. */
  datatype CartLine = CartLine(foodId: Id, quantity: int)

  /** A cart; `totalAmount` is a cached value recomputed on every add and remove. */
  datatype Cart = Cart(items: seq<CartLine>, totalAmount: int)

  /** One line of an order: a frozen copy of the catalog entry at checkout time. */
  datatype OrderLine = OrderLine(foodId: Id, name: string, price: int, quantity: int)

  datatype Order = Order(
    id: Id,
    userId: Id,
    items: seq<OrderLine>,
    totalAmount: int,
    deliveryAddress: string,
    paymentMethod: string,
    status: string,
    createdAt: nat)

  const EmptyCart := Cart([], 0)

  /** The path of an uploaded file, or the empty text when none was sent. */
  function ImagePath(file: Option<string>): (path: string)
    ensures file.Some? ==> path == file.value
    ensures file.None? ==> path == ""
  {
    if file.Some? then file.value else ""
  }

  /** At most one cart line per food id. */
  predicate DistinctFoods(items: seq<CartLine>) {
    forall i, j :: 0 <= i < j < |items| ==> items[i].foodId != items[j].foodId
  }

  /** Each order is stored under its own id. */
  ghost predicate KeyedById(orders: map<Id, Order>) {
    forall k :: k in orders ==> orders[k].id == k
  }

  /** The document store: one map per collection. */
  class Database {
    var carts: map<Id, Cart>
    var orders: map<Id, Order>
    var foods: map<Id, FoodItem>
    var restaurants: map<Id, Restaurant>

    /** Every cart has one line per food id; every order is stored under its own id. */
    ghost predicate Valid()
      reads this
    {
      && (forall u :: u in carts ==> DistinctFoods(carts[u].items))
      && KeyedById(orders)
    }

    constructor ()
      ensures Valid()
      ensures carts == map[] && orders == map[] && foods == map[] && restaurants == map[]
    {
      carts, orders, foods, restaurants := map[], map[], map[], map[];
    }
  }
}
