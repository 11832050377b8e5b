/**
 * The restaurant controller: a role-scoped listing, lookup by id, and create,
 * update and delete. Form fields arrive as text; an empty text stands for a
 * field that is missing or falsy.
 */
module RestaurantController {
  import opened Models

  const FieldsRequired := BadRequest("All fields including image are required")
  const RestaurantNotFound := NotFound("Restaurant not found")

  // ---------------------------------------------------------------------------
  // Listing and lookup
  // ---------------------------------------------------------------------------

  /** The three queries the listing can run. */
  datatype Query = ActiveOnly | OwnedBy(owner: Id) | Everything

  /** The query chosen from the caller: owners see their own, admins see all, others the active ones. */
  function QueryFor(caller: Option<User>): (q: Query)
    ensures q.OwnedBy? <==> caller.Some? && caller.value.role == "owner"
    ensures q.OwnedBy? ==> q.owner == caller.value.id
    ensures q == Everything <==> caller.Some? && caller.value.role == "admin"
  {
    if caller.Some? && caller.value.role == "owner" then OwnedBy(caller.value.id)
    else if caller.Some? && caller.value.role == "admin" then Everything
    else ActiveOnly
  }

  /** How `Restaurant.find(query)` matches a document against each of the three queries. */
  predicate Matches(q: Query, r: Restaurant)
    ensures q == Everything ==> Matches(q, r)
    ensures q == ActiveOnly ==> (Matches(q, r) <==> r.isActive)
    ensures q.OwnedBy? ==> (Matches(q, r) <==> r.owner == q.owner)
  {
    match q
    case ActiveOnly => r.isActive
    case OwnedBy(owner) => r.owner == owner
    case Everything => true
  }

  function Find(restaurants: map<Id, Restaurant>, q: Query): (r: map<Id, Restaurant>)
    ensures forall k :: k in r <==> k in restaurants && Matches(q, restaurants[k])
    ensures forall k :: k in r ==> r[k] == restaurants[k]
  {
    map k | k in restaurants && Matches(q, restaurants[k]) :: restaurants[k]
  }

  /** GET /api/restaurants: the restaurants the caller's role lets it see. */
  function GetRestaurants(restaurants: map<Id, Restaurant>, caller: Option<User>): (r: map<Id, Restaurant>)
    ensures forall k :: k in r ==> k in restaurants && r[k] == restaurants[k]
    ensures caller.Some? && caller.value.role == "owner" ==>
      forall k :: k in r <==> k in restaurants && restaurants[k].owner == caller.value.id
    ensures caller.Some? && caller.value.role == "admin" ==> r == restaurants
    ensures caller.None? || caller.value.role !in {"owner", "admin"} ==>
      forall k :: k in r <==> k in restaurants && restaurants[k].isActive
  {
    Find(restaurants, QueryFor(caller))
  }

  /** GET /api/restaurants/:id. */
  function GetRestaurantById(restaurants: map<Id, Restaurant>, id: Id): (r: Result<Restaurant>)
    ensures r.Ok? <==> id in restaurants
    ensures r.Ok? ==> r.value == restaurants[id]
    ensures r.Err? ==> r.error == RestaurantNotFound
  {
    if id in restaurants then Ok(restaurants[id]) else Err(RestaurantNotFound)
  }

  // ---------------------------------------------------------------------------
  // Creation and update
  // ---------------------------------------------------------------------------

  datatype RestaurantForm = RestaurantForm(name: string, description: string, address: string)

  /** POST /api/restaurants: every field present, owned by the caller, active by default. */
  function NewRestaurant(form: RestaurantForm, file: Option<string>, caller: Id): (r: Result<Restaurant>)
    ensures r.Ok? <==> form.name != "" && form.description != "" && form.address != "" && ImagePath(file) != ""
    ensures r.Err? ==> r.error == FieldsRequired
    ensures r.Ok? ==> r.value.owner == caller && r.value.isActive
    ensures r.Ok? ==>
      && r.value.name == form.name && r.value.description == form.description
      && r.value.address == form.address && r.value.image == file.value
  {
    var image := ImagePath(file);
    if form.name == "" || form.description == "" || form.address == "" || image == "" then Err(FieldsRequired)
    else Ok(Restaurant(form.name, image, form.description, form.address, caller, true))
  }

  datatype RestaurantUpdate = RestaurantUpdate(name: string, description: string, address: string, isActive: Option<bool>)

  /** The restaurant after an update: truthy texts replace, `isActive` whenever given, the image when a file is. */
  function MergeRestaurant(r: Restaurant, upd: RestaurantUpdate, file: Option<string>): (m: Restaurant)
    ensures m.owner == r.owner
    ensures upd.name != "" ==> m.name == upd.name
    ensures upd.name == "" ==> m.name == r.name
    ensures upd.description != "" ==> m.description == upd.description
    ensures upd.description == "" ==> m.description == r.description
    ensures upd.address != "" ==> m.address == upd.address
    ensures upd.address == "" ==> m.address == r.address
    ensures file.Some? ==> m.image == file.value
    ensures file.None? ==> m.image == r.image
    ensures upd.isActive.Some? ==> m.isActive == upd.isActive.value
    ensures upd.isActive.None? ==> m.isActive == r.isActive
  {
    Restaurant(
      if upd.name != "" then upd.name else r.name,
      if file.Some? then file.value else r.image,
      if upd.description != "" then upd.description else r.description,
      if upd.address != "" then upd.address else r.address,
      r.owner,
      if upd.isActive.Some? then upd.isActive.value else r.isActive)
  }

  /** An update with no fields and no file leaves the restaurant as it was. */
  lemma MergeRestaurantEmpty(r: Restaurant)
    ensures MergeRestaurant(r, RestaurantUpdate("", "", "", None), None) == r
  {
  }

  /** Applying the same update twice is the same as applying it once. */
  lemma MergeRestaurantIdempotent(r: Restaurant, upd: RestaurantUpdate, file: Option<string>)
    ensures MergeRestaurant(MergeRestaurant(r, upd, file), upd, file) == MergeRestaurant(r, upd, file)
  {
  }

  /** Deactivating hides a restaurant from the public listing but not from its owner. */
  lemma DeactivatedHiddenFromPublic(restaurants: map<Id, Restaurant>, id: Id, upd: RestaurantUpdate, file: Option<string>)
    requires id in restaurants && upd.isActive == Some(false)
    ensures var after := restaurants[id := MergeRestaurant(restaurants[id], upd, file)];
      && id !in GetRestaurants(after, None)
      && id in GetRestaurants(after, Some(User(restaurants[id].owner, "owner")))
  {
  }

  // ---------------------------------------------------------------------------
  // Controller operations that change the store
  // ---------------------------------------------------------------------------

  /** POST /api/restaurants: validate and store the new restaurant under `newId`. */
  method CreateRestaurant(db: Database, form: RestaurantForm, file: Option<string>, caller: Id, newId: Id)
    returns (r: Result<Restaurant>)
    requires newId !in db.restaurants
    modifies db`restaurants
    ensures r == NewRestaurant(form, file, caller)
    ensures r.Err? ==> db.restaurants == old(db.restaurants)
    ensures r.Ok? ==> db.restaurants == old(db.restaurants)[newId := r.value]
  {
    r := NewRestaurant(form, file, caller);
    if r.Ok? {
      db.restaurants := db.restaurants[newId := r.value];
    }
  }

  /** PUT /api/restaurants/:id: assign the fields one by one, then save. */
  method UpdateRestaurant(db: Database, id: Id, upd: RestaurantUpdate, file: Option<string>)
    returns (r: Result<Restaurant>)
    modifies db`restaurants
    ensures id !in old(db.restaurants) ==> r == Err(RestaurantNotFound) && db.restaurants == old(db.restaurants)
    ensures id in old(db.restaurants) ==>
      && r == Ok(MergeRestaurant(old(db.restaurants)[id], upd, file))
      && db.restaurants == old(db.restaurants)[id := r.value]
  {
    if id !in db.restaurants {
      return Err(RestaurantNotFound);
    }
    var restaurant := db.restaurants[id];
    restaurant := restaurant.(name := if upd.name != "" then upd.name else restaurant.name);
    restaurant := restaurant.(description := if upd.description != "" then upd.description else restaurant.description);
    restaurant := restaurant.(address := if upd.address != "" then upd.address else restaurant.address);
    restaurant := restaurant.(isActive := if upd.isActive.Some? then upd.isActive.value else restaurant.isActive);
    if file.Some? {
      restaurant := restaurant.(image := file.value);
    }
    db.restaurants := db.restaurants[id := restaurant];
    r := Ok(restaurant);
  }

  /** DELETE /api/restaurants/:id: remove that restaurant only; its food items stay in the catalog. */
  method DeleteRestaurant(db: Database, id: Id) returns (r: Result<string>)
    modifies db`restaurants
    ensures id !in old(db.restaurants) ==> r == Err(RestaurantNotFound) && db.restaurants == old(db.restaurants)
    ensures id in old(db.restaurants) ==> r == Ok("Restaurant removed") && db.restaurants == old(db.restaurants) - {id}
    ensures db.foods == old(db.foods)
  {
    if id !in db.restaurants {
      return Err(RestaurantNotFound);
    }
    db.restaurants := db.restaurants - {id};
    r := Ok("Restaurant removed");
  }
}
