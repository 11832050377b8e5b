# CraveCart backend domain layer in Dafny

This project models the domain logic of the CraveCart food-ordering backend and proves properties of it. The model covers:

- **Cart controller.** Each user has one cart: a list of (food id, quantity) lines. Adding an item merges a duplicate food id into its existing line. Removing an item filters its line out. After every add or remove, the cached `totalAmount` is recomputed from live catalog prices.
- **Order controller.** Checkout freezes the cart lines into order lines, copies the cart's cached total and empties the cart. The listings are filtered by owner and sorted newest first. A status update overwrites the status with any value.
- **Food and restaurant controllers.** Create validates the fields. Update keeps the old value unless the new one is truthy. Delete removes by id. The listings filter by visibility.
- **Authentication middleware.** `protect` checks the Bearer header and extracts the token. `admin`, `isOwner` and `authorizeRoles` are role gates.

The document store is one `Models.Database` object with four map fields:

- `carts`: user id to cart;
- `orders`: order id to order;
- `foods`: food id to food item;
- `restaurants`: restaurant id to restaurant.

Each controller operation that changes the store is a method. It takes the database and names in its `modifies` clause only the collections it writes. It returns `Ok(value)` or `Err(error)`, where the error carries the HTTP status (400, 401, 403, 404 or 500) and the source's message. Pure parts (validation, the field merge, the listings, the order-line snapshot) are functions. The lemmas about those functions carry the properties.

Modules:

- `Models` (`models.dfy`): records, the `Database` class and its invariant. The invariant says a cart holds one line per food id and every order is stored under its own id.
- `CartController` (`cart.dfy`): `backend/controllers/cartController.js`.
- `OrderController` (`order.dfy`): `backend/controllers/orderController.js`.
- `FoodController` (`food.dfy`): `backend/controllers/foodController.js`.
- `RestaurantController` (`restaurant.dfy`): `backend/controllers/restaurantController.js`.
- `AuthMiddleware` (`auth.dfy`): `backend/middlewares/authMiddleware.js`.

Ids are opaque strings compared only for equality. The store's id generator and clock are parameters (`newId` with `newId !in ...`, and `now`). Each request is one atomic step.

## Model

| member | source | states |
|---|---|---|
| Models.ImagePath | backend/controllers/foodController.js:24 | `req.file ? req.file.path : ''`: the uploaded file's path, or the empty text without a file |
| Models.Database.constructor | backend/server.js:19 | the one store all controllers share starts valid, with no carts, orders, food items or restaurants |
| Models.Database.Valid | backend/controllers/cartController.js:39-45 | the store invariant: a cart holds at most one line per food id (the merge on add keeps it), and every order is stored under its own id |
| CartController.RequestedQuantity | backend/controllers/cartController.js:42-44 | `quantity \|\| 1` is never 0 |
| CartController.CartOf | backend/controllers/cartController.js:33-37 | the caller's stored cart, or a new one with no lines and total 0 |
| CartController.RequestedQuantityDefault | backend/controllers/cartController.js:42-44 | `quantity \|\| 1`: a missing or zero quantity means 1; any other quantity, negative included, is used as given |
| CartController.IndexOfFood | backend/controllers/cartController.js:39 | `findIndex`: -1 exactly when no line has the food id; otherwise the first line with it |
| CartController.AddLine | backend/controllers/cartController.js:39-45 | after an add the food has a line; the list grows by one exactly when the food had no line and keeps its length exactly when it had one |
| CartController.AddLineExisting | backend/controllers/cartController.js:39-42 | adding a food already in the cart keeps the line count, raises that line's quantity by the requested amount and leaves every other line untouched |
| CartController.AddLineNew | backend/controllers/cartController.js:43-45 | adding a food not in the cart appends exactly one line at the end |
| CartController.AddLineDistinct | backend/controllers/cartController.js:39-45 | adding keeps at most one line per food id |
| CartController.AddLinePositive | backend/controllers/cartController.js:42-44 | with positive requested quantities, every line's quantity stays positive |
| CartController.AddTwiceMerges | backend/controllers/cartController.js:39-45 | adding a food with quantity 2 and then 3 gives one line of quantity 5 |
| CartController.WithoutFood | backend/controllers/cartController.js:71 | the filter never grows the list and leaves no line of the removed food |
| CartController.WithoutFoodMembers | backend/controllers/cartController.js:71 | the filter keeps exactly the lines of other foods and never grows the list |
| CartController.WithoutAbsentFood | backend/controllers/cartController.js:71 | removing a food that is not in the cart leaves the lines unchanged |
| CartController.WithoutPresentFood | backend/controllers/cartController.js:71 | removing a food in the cart deletes its one line and keeps the other lines in their original order |
| CartController.WithoutFoodDistinct | backend/controllers/cartController.js:71 | removing keeps at most one line per food id |
| CartController.Priced | backend/controllers/cartController.js:49-51 | the condition under which every `f.price` lookup in the total loop finds its food: every line's food id is in the catalog |
| CartController.LineTotal | backend/controllers/cartController.js:48-53 | the total the loop computes: 0 for no lines, price times quantity for one line (runs combine by `LineTotalAppend`) |
| CartController.LineTotalAppend | backend/controllers/cartController.js:48-53 | the summed total of price times quantity over two runs of lines is the sum of their totals |
| CartController.LineTotalBump | backend/controllers/cartController.js:41-53 | raising one line's quantity by q raises the summed total by that food's price times q and leaves every line priced |
| CartController.AddLineTotal | backend/controllers/cartController.js:39-53 | after an add, the recomputed total is the old one plus the food's current price times the requested quantity |
| CartController.RemoveLineTotal | backend/controllers/cartController.js:71-79 | after a remove, the recomputed total is the old one minus the removed line's price times quantity, or unchanged when no line was removed |
| CartController.ComputeTotal | backend/controllers/cartController.js:48-53 | the total loop succeeds exactly when every line's food is still in the catalog, and then yields the sum of price times quantity |
| CartController.GetCart | backend/controllers/cartController.js:9-13 | an existing cart is returned unchanged; otherwise an empty cart with total 0 is created and stored |
| CartController.AddToCart | backend/controllers/cartController.js:28-53 | an unknown food gives 404 and no cart changes; otherwise the lazily created cart gets the merged lines and the total recomputed from live prices; a line whose food has gone gives 500 and saves nothing |
| CartController.RemoveFromCart | backend/controllers/cartController.js:68-86 | no cart gives 404; otherwise the food's line is filtered out and the total recomputed, with 500 and no change if a line's food has gone |
| CartController.ClearCart | backend/controllers/cartController.js:97-105 | no cart gives 404; otherwise the caller's cart becomes empty with total 0 and no other cart changes |
| OrderController.Freeze | backend/controllers/orderController.js:17-22 | an order line takes the food id and quantity from the cart line and the name and price from the catalog entry |
| OrderController.Snapshot | backend/controllers/orderController.js:17-22 | one order line per cart line, in order, each copying the food id, the catalog name and price at checkout time and the cart quantity; fails when a line's food has gone |
| OrderController.OrderTotal | backend/controllers/orderController.js:17-27 | the sum over order lines of price times quantity is never negative when no price or quantity is |
| OrderController.SnapshotTotal | backend/controllers/orderController.js:17-22 | the frozen lines sum to the cart total computed from the same catalog |
| OrderController.Checkout | backend/controllers/orderController.js:11-30 | checkout fails exactly when the caller has no cart, an empty one, or a line whose food has gone, with 400 "Cart is empty" or 500; a created order carries the new id, the caller and status Pending |
| OrderController.CheckoutEmptyCart | backend/controllers/orderController.js:13-15 | checkout fails with 400 "Cart is empty" exactly when the caller has no cart or an empty one |
| OrderController.CheckoutFreezesCart | backend/controllers/orderController.js:17-30 | a created order is the caller's, Pending, has one frozen line per cart line and copies the cart's cached total |
| OrderController.CheckoutTotal | backend/controllers/orderController.js:27 | the copied total equals the sum over the order lines when the cart's cached total matches current prices |
| OrderController.StaleTotalExample | backend/controllers/orderController.js:27 | after a price change the copied total (60) disagrees with the frozen lines (80) |
| OrderController.NewestFirst | backend/controllers/orderController.js:50 | `sort({ createdAt: -1 })` lists as many orders as are stored |
| OrderController.NewestFirstMembers | backend/controllers/orderController.js:50 | the sorted listing holds exactly the stored orders |
| OrderController.NewestFirstSpec | backend/controllers/orderController.js:50 | the sorted listing holds every stored order exactly once, by descending `createdAt` |
| OrderController.OwnedBy | backend/controllers/orderController.js:50 | the `{ userId }` filter keeps exactly the caller's orders |
| OrderController.MyOrders | backend/controllers/orderController.js:50 | exactly the caller's orders, each once, newest first |
| OrderController.AllOrders | backend/controllers/orderController.js:62 | every order, each once, newest first |
| OrderController.CreateOrder | backend/controllers/orderController.js:11-37 | on failure nothing changes; on success the order is stored under its new id and the caller's cart becomes empty with total 0 |
| OrderController.UpdateOrderStatus | backend/controllers/orderController.js:76-85 | unknown id gives 404 and changes nothing; otherwise only that order's status becomes the given value, with no transition check |
| FoodController.ParseNumber | backend/controllers/foodController.js:36 | `Number(price)`: the empty text is 0, a run of digits is a number of at least 0, and a negative number needs a leading minus sign |
| FoodController.ParseShow | backend/controllers/foodController.js:36 | `Number` applied to the decimal text of a whole number, with or without a minus sign, returns that number |
| FoodController.FoodsByRestaurant | backend/controllers/foodController.js:8-11 | exactly the items of that restaurant with `isAvailable` true |
| FoodController.HasAllFields | backend/controllers/foodController.js:24-26 | the presence check: restaurant id, name, price text, category and uploaded image are all non-empty |
| FoodController.NewFoodItem | backend/controllers/foodController.js:23-47 | a missing field gives 400 before the restaurant lookup; an unknown restaurant gives 404; a price that is not a number above 0 gives 400 "Invalid price"; a created item has price above 0, is available and copies the form, with the price `Number(price)` |
| FoodController.NewFoodItemAcceptsWholePrice | backend/controllers/foodController.js:36-47 | a complete form for a known restaurant with a positive whole price is accepted at that price |
| FoodController.NewFoodItemRejectsNegative | backend/controllers/foodController.js:36-39 | a negative price text passes the presence check and is refused as "Invalid price" |
| FoodController.MergeFood | backend/controllers/foodController.js:70-77 | the merge fails exactly when a non-empty price text is not a number (500 on save); otherwise a non-empty name, price or category replaces the old value and an empty one keeps it, `isAvailable` is replaced exactly when supplied, the image exactly when a file is sent, and the item never moves to another restaurant |
| FoodController.MergeFoodEmpty | backend/controllers/foodController.js:70-77 | an update with no truthy field and no file leaves the item unchanged |
| FoodController.MergeFoodIdempotent | backend/controllers/foodController.js:70-77 | applying the same update twice gives the same item as applying it once |
| FoodController.MergeFoodSkipsPriceCheck | backend/controllers/foodController.js:71 | the price is not checked again on update, so "0" or a negative number is stored |
| FoodController.DisabledFoodHidden | backend/controllers/foodController.js:73 | setting `isAvailable` to false removes the item from its restaurant's menu |
| FoodController.CreateFoodItem | backend/controllers/foodController.js:21-49 | the item is stored under its new id only when validation succeeds |
| FoodController.UpdateFoodItem | backend/controllers/foodController.js:67-82 | unknown id gives 404; otherwise a truthy field replaces and anything else keeps, `isAvailable` is replaced whenever supplied, the image only when a file is given, and a price text that is not a number gives 500 without saving |
| FoodController.DeleteFoodItem | backend/controllers/foodController.js:94-100 | unknown id gives 404; otherwise exactly that item is removed |
| RestaurantController.QueryFor | backend/controllers/restaurantController.js:8-15 | an owner gets the owner query on their own id, an admin the empty query, anyone else the `isActive` query |
| RestaurantController.Matches | backend/controllers/restaurantController.js:8-17 | the empty query matches every restaurant, `{ isActive: true }` exactly the active ones, `{ owner }` exactly that owner's |
| RestaurantController.Find | backend/controllers/restaurantController.js:17 | `Restaurant.find(query)`: exactly the stored restaurants matching the query, values unchanged |
| RestaurantController.GetRestaurants | backend/controllers/restaurantController.js:8-17 | an owner sees exactly their own restaurants, active or not; an admin sees all of them; anyone else sees exactly the active ones |
| RestaurantController.GetRestaurantById | backend/controllers/restaurantController.js:29-34 | the stored restaurant, or 404 when the id is absent |
| RestaurantController.NewRestaurant | backend/controllers/restaurantController.js:45-58 | 400 unless name, description, address and image are all present; a created restaurant is owned by the caller and active |
| RestaurantController.MergeRestaurant | backend/controllers/restaurantController.js:81-88 | a non-empty name, description or address replaces the old value and an empty one keeps it; `isActive` is replaced exactly when supplied, the image exactly when a file is sent; the owner never changes |
| RestaurantController.MergeRestaurantEmpty | backend/controllers/restaurantController.js:81-88 | an update with no truthy field and no file leaves the restaurant unchanged |
| RestaurantController.MergeRestaurantIdempotent | backend/controllers/restaurantController.js:81-88 | applying the same update twice gives the same restaurant as applying it once |
| RestaurantController.DeactivatedHiddenFromPublic | backend/controllers/restaurantController.js:84 | setting `isActive` to false hides the restaurant from the public listing but not from its owner |
| RestaurantController.CreateRestaurant | backend/controllers/restaurantController.js:43-60 | the restaurant is stored under its new id only when validation succeeds |
| RestaurantController.UpdateRestaurant | backend/controllers/restaurantController.js:78-93 | unknown id gives 404; otherwise truthy texts replace, `isActive` is replaced whenever supplied, the image only when a file is given |
| RestaurantController.DeleteRestaurant | backend/controllers/restaurantController.js:105-113 | unknown id gives 404; otherwise exactly that restaurant is removed and the food items are untouched |
| AuthMiddleware.StartsWith | backend/middlewares/authMiddleware.js:7 | `startsWith('Bearer')`: the prefix fits and agrees character by character |
| AuthMiddleware.Split | backend/middlewares/authMiddleware.js:9 | `split(' ')` yields at least one field |
| AuthMiddleware.SplitJoin | backend/middlewares/authMiddleware.js:9 | splitting the header loses nothing: the fields join back to the header and no field contains a space |
| AuthMiddleware.Protect | backend/middlewares/authMiddleware.js:7-21 | 401 "no token" exactly when the header is absent or does not start with "Bearer"; otherwise a non-empty second space-separated field is the token, and a missing or empty one gives 401 "token failed" |
| AuthMiddleware.ProtectReadsBearerHeader | backend/middlewares/authMiddleware.js:7-9 | the header "Bearer " followed by a token without spaces yields that token |
| AuthMiddleware.Admin | backend/middlewares/authMiddleware.js:24-30 | passes exactly when a user with role admin or owner is present; otherwise 401 |
| AuthMiddleware.IsOwner | backend/middlewares/authMiddleware.js:32-38 | passes exactly when the role is owner; otherwise 401 |
| AuthMiddleware.RoleName | backend/middlewares/authMiddleware.js:43 | `req.user?.role \|\| 'User'`: the caller's role when it has a non-empty one, and "User" otherwise |
| AuthMiddleware.AuthorizeRoles | backend/middlewares/authMiddleware.js:40-46 | passes exactly when a user is present and its role is in the list; otherwise 403 |
| AuthMiddleware.OwnerPassesAdmin | backend/middlewares/authMiddleware.js:24-38 | whoever passes `isOwner` also passes `admin` |
| AuthMiddleware.AuthorizeAdminOwnerIsAdmin | backend/middlewares/authMiddleware.js:24-46 | `authorizeRoles('admin', 'owner')` lets through exactly the callers `admin` does, but refuses with 403 instead of 401 |

## Left out

- JWT verification, the user lookup in `protect` and the process environment are left out. The verified caller is an input (`Option<User>`), and `Protect` returns the token it would hand to the verifier.
- AuthMiddleware.Protect keeps only the first answer on a header that starts with "Bearer" but has no non-empty second field. The source sends 401 "token failed" from its catch block. Because the token is still empty, it then also reaches the "no token" branch and calls `res.status(401).json` a second time. That second send throws once the headers are out, and in the asynchronous middleware this surfaces as an unhandled rejection. The model returns the one 401 the client receives and does not model the second send.
- The populated views are left out: the food details resolved into a cart's lines for display, and the owner name and email attached by `getAllOrders`. The model returns the stored records.
- A malformed id makes Mongoose raise a cast error, which the source answers with 500. The model treats every id as a valid key, so a malformed id behaves like an unknown one.
- FoodController.ParseNumber models `Number()` only on whole numbers with an optional sign, and "" is 0. Decimal, exponent, hexadecimal, binary (`0b`), octal (`0o`), `Infinity` and whitespace-padded texts are treated as NaN. So `Number("Infinity")`, which the source accepts as a price above 0, is refused here, because the model takes prices to be whole numbers.
- Money is exact integer arithmetic. JavaScript's floating-point numbers are not modelled.
- The quantity is an integer. A quantity sent as text, which JavaScript's `+=` would concatenate, is not modelled.
- The `Cart`, `Order`, `FoodItem` and `User` schemas are not part of this model. Their defaults are taken from their use: a new order is "Pending", and a new food item is available. Any schema validation they may add on save is not modelled, including required fields and an enum on the status.
- The store failures and the catch-all 500 of every controller are not modelled. The 500 that is modelled is the one from a missing catalog entry or an uncastable price, and its message text stands in for the runtime's.
- The response envelope is not modelled: `{ message }` versus `{ success, message }`, and the 201 status on creates. A result carries only the HTTP status and the message.
- OrderController.MyOrders leaves the order among orders with equal `createdAt` unspecified, as the database sort does.
- Concurrency is out of scope. Each request is one atomic step, so the lost updates of racing add-to-cart calls are not modelled, nor is a failure between saving an order and clearing the cart.
- Routing is not modelled. As routed, `getRestaurants` is not behind `protect`, so in the running server the caller is always absent and only active restaurants are listed. `GetRestaurants` models the controller's role branches as written.
- The image-hosting utility, the frontend, the seed and test scripts and the server wiring are outside the domain layer and not modelled.
- The code validates neither the sign of the quantity nor the order of status changes, and the model follows the code. `RequestedQuantityDefault` shows a negative quantity is used as given, and `UpdateOrderStatus` accepts any status.
