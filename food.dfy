/**
 * The food controller: the public menu of a restaurant, and create, update
 * and delete of catalog items. Form fields arrive as text; an empty text
 * stands for a field that is missing or falsy.
 */
module FoodController {
  import opened Models

  const FieldsRequired := BadRequest("All fields including image are required")
  const RestaurantNotFound := NotFound("Restaurant not found")
  const InvalidPrice := BadRequest("Invalid price")
  const FoodNotFound := NotFound("Food item not found")
  /** Storing a price text that does not cast to a number fails on save. */
  const PriceCastFailed := Internal("Cast to Number failed for path \"price\"")

  // ---------------------------------------------------------------------------
  // Number(text) on whole numbers
  // ---------------------------------------------------------------------------

  predicate IsDigit(c: char) {
    '0' <= c <= '9'
  }

  predicate AllDigits(s: string) {
    forall i :: 0 <= i < |s| ==> IsDigit(s[i])
  }

  /** The value of a run of decimal digits, most significant first. */
  function DigitsValue(s: string): nat
    requires AllDigits(s)
  {
    if |s| == 0 then 0
    else DigitsValue(s[..|s| - 1]) * 10 + (s[|s| - 1] as int - '0' as int)
  }

  /**
   * `Number(text)` restricted to whole numbers: the empty text is 0, an
   * optional sign followed by digits is their value, anything else is NaN (None).
   */
  function ParseNumber(s: string): (r: Option<int>)
    ensures s == "" ==> r == Some(0)
    ensures AllDigits(s) ==> r.Some? && r.value >= 0
    ensures r.Some? && r.value < 0 ==> s[0] == '-'
  {
    if s == "" then Some(0)
    else if s[0] == '-' || s[0] == '+' then
      if |s| > 1 && AllDigits(s[1..]) then
        var v: int := DigitsValue(s[1..]);
        Some(if s[0] == '-' then -v else v)
      else None
    else if AllDigits(s) then Some(DigitsValue(s))
    else None
  }

  /** The decimal text of a whole number, as a form sends it. */
  function Show(n: nat): string {
    var d := [('0' as int + n % 10) as char];
    if n < 10 then d else Show(n / 10) + d
  }

  lemma {:induction false} ShowDigits(n: nat)
    ensures |Show(n)| > 0 && AllDigits(Show(n))
    ensures DigitsValue(Show(n)) == n
  {
    var s := Show(n);
    if n >= 10 {
      ShowDigits(n / 10);
      assert s[..|s| - 1] == Show(n / 10);
    } else {
      assert s[..0] == [];
    }
  }

  /** The decimal text of a whole number parses back to it, with or without a minus sign. */
  lemma ParseShow(n: nat)
    ensures ParseNumber(Show(n)) == Some(n)
    ensures ParseNumber("-" + Show(n)) == Some(-(n as int))
  {
    ShowDigits(n);
    assert IsDigit(Show(n)[0]);
    assert ("-" + Show(n))[1..] == Show(n);
  }

  // ---------------------------------------------------------------------------
  // Menu listing and creation
  // ---------------------------------------------------------------------------

  /** GET /api/foods/restaurant/:restaurantId: the restaurant's items that are available. */
  function FoodsByRestaurant(foods: map<Id, FoodItem>, restaurantId: Id): (r: map<Id, FoodItem>)
    ensures forall k :: k in r <==> k in foods && foods[k].restaurantId == restaurantId && foods[k].isAvailable
    ensures forall k :: k in r ==> r[k] == foods[k]
  {
    map k | k in foods && foods[k].restaurantId == restaurantId && foods[k].isAvailable :: foods[k]
  }

  datatype FoodForm = FoodForm(restaurantId: Id, name: string, price: string, category: string)

  predicate HasAllFields(form: FoodForm, file: Option<string>) {
    form.restaurantId != "" && form.name != "" && form.price != "" && form.category != "" && ImagePath(file) != ""
  }

  /**
   * The checks of POST /api/foods in their order: every field present (400),
   * then the restaurant exists (404), then the price is a number above zero (400).
   */
  function NewFoodItem(form: FoodForm, file: Option<string>, restaurants: map<Id, Restaurant>): (r: Result<FoodItem>)
    ensures !HasAllFields(form, file) ==> r == Err(FieldsRequired)
    ensures HasAllFields(form, file) && form.restaurantId !in restaurants ==> r == Err(RestaurantNotFound)
    ensures r.Ok? <==>
      HasAllFields(form, file) && form.restaurantId in restaurants
      && ParseNumber(form.price).Some? && ParseNumber(form.price).value > 0
    ensures HasAllFields(form, file) && form.restaurantId in restaurants
      && !(ParseNumber(form.price).Some? && ParseNumber(form.price).value > 0)
      ==> r == Err(InvalidPrice)
    ensures r.Ok? ==> r.value.price > 0 && r.value.isAvailable
    ensures r.Ok? ==> r.value.price == ParseNumber(form.price).value
    ensures r.Ok? ==>
      && r.value.restaurantId == form.restaurantId && r.value.name == form.name
      && r.value.category == form.category && r.value.image == ImagePath(file)
  {
    if !HasAllFields(form, file) then Err(FieldsRequired)
    else if form.restaurantId !in restaurants then Err(RestaurantNotFound)
    else
      var parsed := ParseNumber(form.price);
      if parsed.None? || parsed.value <= 0 then Err(InvalidPrice)
      else Ok(FoodItem(form.restaurantId, form.name, parsed.value, form.category, ImagePath(file), true))
  }

  /** A complete form for a known restaurant with a positive whole price is accepted at that price. */
  lemma NewFoodItemAcceptsWholePrice(form: FoodForm, file: Option<string>, restaurants: map<Id, Restaurant>, n: nat)
    requires HasAllFields(form, file) && form.restaurantId in restaurants
    requires n > 0 && form.price == Show(n)
    ensures NewFoodItem(form, file, restaurants).Ok?
    ensures NewFoodItem(form, file, restaurants).value.price == n
  {
    ParseShow(n);
  }

  /** A negative price text passes the presence check and is refused as an invalid price. */
  lemma NewFoodItemRejectsNegative(form: FoodForm, file: Option<string>, restaurants: map<Id, Restaurant>, n: nat)
    requires HasAllFields(form, file) && form.restaurantId in restaurants
    requires form.price == "-" + Show(n)
    ensures NewFoodItem(form, file, restaurants) == Err(InvalidPrice)
  {
    ParseShow(n);
  }

  // ---------------------------------------------------------------------------
  // Update: a truthy field replaces, anything else keeps
  // ---------------------------------------------------------------------------

  datatype FoodUpdate = FoodUpdate(name: string, price: string, category: string, isAvailable: Option<bool>)

  /** The item after an update; a non-empty price text that is not a number fails on save. */
  function MergeFood(item: FoodItem, upd: FoodUpdate, file: Option<string>): (r: Result<FoodItem>)
    ensures r.Err? <==> upd.price != "" && ParseNumber(upd.price).None?
    ensures r.Err? ==> r.error == PriceCastFailed
    ensures r.Ok? ==> r.value.restaurantId == item.restaurantId
    ensures r.Ok? && upd.name != "" ==> r.value.name == upd.name
    ensures r.Ok? && upd.name == "" ==> r.value.name == item.name
    ensures r.Ok? && upd.price != "" ==> r.value.price == ParseNumber(upd.price).value
    ensures r.Ok? && upd.price == "" ==> r.value.price == item.price
    ensures r.Ok? && upd.category != "" ==> r.value.category == upd.category
    ensures r.Ok? && upd.category == "" ==> r.value.category == item.category
    ensures r.Ok? && file.Some? ==> r.value.image == file.value
    ensures r.Ok? && file.None? ==> r.value.image == item.image
    ensures r.Ok? && upd.isAvailable.Some? ==> r.value.isAvailable == upd.isAvailable.value
    ensures r.Ok? && upd.isAvailable.None? ==> r.value.isAvailable == item.isAvailable
  {
    if upd.price != "" && ParseNumber(upd.price).None? then Err(PriceCastFailed)
    else
      Ok(FoodItem(
        item.restaurantId,
        if upd.name != "" then upd.name else item.name,
        if upd.price != "" then ParseNumber(upd.price).value else item.price,
        if upd.category != "" then upd.category else item.category,
        if file.Some? then file.value else item.image,
        if upd.isAvailable.Some? then upd.isAvailable.value else item.isAvailable))
  }

  /** An update with no fields and no file leaves the item as it was. */
  lemma MergeFoodEmpty(item: FoodItem)
    ensures MergeFood(item, FoodUpdate("", "", "", None), None) == Ok(item)
  {
  }

  /** Applying the same update twice is the same as applying it once. */
  lemma MergeFoodIdempotent(item: FoodItem, upd: FoodUpdate, file: Option<string>)
    requires MergeFood(item, upd, file).Ok?
    ensures MergeFood(MergeFood(item, upd, file).value, upd, file) == MergeFood(item, upd, file)
  {
  }

  /** The price is not checked again on update: a whole-number text below one is stored as is. */
  lemma MergeFoodSkipsPriceCheck(item: FoodItem, n: nat)
    ensures MergeFood(item, FoodUpdate("", "-" + Show(n), "", None), None) == Ok(item.(price := -(n as int)))
    ensures MergeFood(item, FoodUpdate("", "0", "", None), None) == Ok(item.(price := 0))
  {
    ParseShow(n);
    ParseShow(0);
    assert Show(0) == "0";
  }

  /** Setting `isAvailable` to false takes the item off its restaurant's menu. */
  lemma DisabledFoodHidden(foods: map<Id, FoodItem>, id: Id, upd: FoodUpdate, file: Option<string>)
    requires id in foods
    requires upd.isAvailable == Some(false)
    requires MergeFood(foods[id], upd, file).Ok?
    ensures id !in FoodsByRestaurant(foods[id := MergeFood(foods[id], upd, file).value], foods[id].restaurantId)
  {
  }

  // ---------------------------------------------------------------------------
  // Controller operations that change the store
  // ---------------------------------------------------------------------------

  /** POST /api/foods: validate the form and store the new item under `newId`. */
  method CreateFoodItem(db: Database, form: FoodForm, file: Option<string>, newId: Id) returns (r: Result<FoodItem>)
    requires newId !in db.foods
    modifies db`foods
    ensures r == NewFoodItem(form, file, db.restaurants)
    ensures r.Err? ==> db.foods == old(db.foods)
    ensures r.Ok? ==> db.foods == old(db.foods)[newId := r.value]
  {
    r := NewFoodItem(form, file, db.restaurants);
    if r.Ok? {
      db.foods := db.foods[newId := r.value];
    }
  }

  /** PUT /api/foods/:id: assign the truthy fields one by one, then save. */
  method UpdateFoodItem(db: Database, id: Id, upd: FoodUpdate, file: Option<string>) returns (r: Result<FoodItem>)
    modifies db`foods
    ensures id !in old(db.foods) ==> r == Err(FoodNotFound) && db.foods == old(db.foods)
    ensures id in old(db.foods) ==> r == MergeFood(old(db.foods)[id], upd, file)
    ensures id in old(db.foods) && r.Err? ==> db.foods == old(db.foods)
    ensures id in old(db.foods) && r.Ok? ==> db.foods == old(db.foods)[id := r.value]
  {
    if id !in db.foods {
      return Err(FoodNotFound);
    }
    var item := db.foods[id];
    item := item.(name := if upd.name != "" then upd.name else item.name);
    if upd.price != "" {
      var parsed := ParseNumber(upd.price);
      if parsed.None? {
        return Err(PriceCastFailed);
      }
      item := item.(price := parsed.value);
    }
    item := item.(category := if upd.category != "" then upd.category else item.category);
    item := item.(isAvailable := if upd.isAvailable.Some? then upd.isAvailable.value else item.isAvailable);
    if file.Some? {
      item := item.(image := file.value);
    }
    db.foods := db.foods[id := item];
    r := Ok(item);
  }

  /** DELETE /api/foods/:id: remove that item and no other. */
  method DeleteFoodItem(db: Database, id: Id) returns (r: Result<string>)
    modifies db`foods
    ensures id !in old(db.foods) ==> r == Err(FoodNotFound) && db.foods == old(db.foods)
    ensures id in old(db.foods) ==> r == Ok("Food item removed") && db.foods == old(db.foods) - {id}
  {
    if id !in db.foods {
      return Err(FoodNotFound);
    }
    db.foods := db.foods - {id};
    r := Ok("Food item removed");
  }
}
