/**
 * The order page's static reference data: the menu, the pizza sizes and the
 * toppings, with prices in dollars as exact reals.
 */
module Catalog {
  import opened Wrappers

  datatype MenuItem = MenuItem(id: string, name: string, description: Option<string>, price: real)

  datatype MenuCategory = MenuCategory(id: string, title: string, note: Option<string>, items: seq<MenuItem>)

  datatype Size = Size(id: string, name: string, priceDelta: real)

  datatype Topping = Topping(id: string, name: string, price: real)

  /** What the customizer hands to the cart: a size id and the chosen topping ids, in click order. */
  datatype PizzaCustomization = PizzaCustomization(sizeId: string, toppingIds: seq<string>)

  const Margherita := MenuItem("margherita", "Margherita", Some("Fresh mozzarella, basil, extra virgin olive oil."), 16.0)
  const SanPellegrino := MenuItem("water", "San Pellegrino", None, 4.0)

  const Menu: seq<MenuCategory> := [
    MenuCategory("pizzas", "Signature Pizzas", Some("All pizzas are 14\" wood-fired"), [
      MenuItem("classic-pepperoni", "Classic Pepperoni", Some("Old-world pepperoni, mozzarella, tomato sauce."), 18.0),
      Margherita,
      MenuItem("meat-lovers", "The Meat Shack", Some("Pepperoni, sausage, bacon, ham."), 22.0),
      MenuItem("veggie-delight", "Garden Veggie", Some("Bell peppers, onions, mushrooms, olives."), 19.0)
    ]),
    MenuCategory("sides", "Sides & Wings", Some("Perfect pairings"), [
      MenuItem("garlic-knots", "Garlic Knots (6pc)", Some("Served with warm marinara."), 8.0),
      MenuItem("buffalo-wings", "Spicy Buffalo Wings", Some("8 jumbo wings with celery & ranch."), 14.0)
    ]),
    MenuCategory("drinks", "Cold Drinks", None, [
      MenuItem("coke", "Mexican Coke", None, 3.5),
      SanPellegrino
    ])
  ]

  const Sizes: seq<Size> := [
    Size("sm", "Small (12\")", -2.0),
    Size("md", "Medium (14\")", 0.0),
    Size("lg", "Large (16\")", 4.0)
  ]

  const Toppings: seq<Topping> := [
    Topping("extra-cheese", "Extra Cheese", 2.0),
    Topping("mushrooms", "Mushrooms", 2.0),
    Topping("pepperoni", "Pepperoni", 3.0),
    Topping("sausage", "Sausage", 3.0),
    Topping("jalapeno", "Jalapeño", 1.5),
    Topping("basil", "Basil", 1.0)
  ]

  /** `SIZES.find(s => s.id === id)`: the first size with that id, if any. */
  function FindSize(sizes: seq<Size>, id: string): (r: Option<Size>)
    ensures r.Some? <==> exists i :: 0 <= i < |sizes| && sizes[i].id == id
    ensures r.Some? ==> r.value in sizes && r.value.id == id
    ensures r.Some? ==> exists i :: 0 <= i < |sizes| && sizes[i] == r.value && forall j :: 0 <= j < i ==> sizes[j].id != id
  {
    if sizes == [] then None
    else if sizes[0].id == id then Some(sizes[0])
    else FindSize(sizes[1..], id)
  }

  /** `TOPPINGS.find(t => t.id === id)`: the first topping with that id, if any. */
  function FindTopping(toppings: seq<Topping>, id: string): (r: Option<Topping>)
    ensures r.Some? <==> exists i :: 0 <= i < |toppings| && toppings[i].id == id
    ensures r.Some? ==> r.value in toppings && r.value.id == id
    ensures r.Some? ==> exists i :: 0 <= i < |toppings| && toppings[i] == r.value && forall j :: 0 <= j < i ==> toppings[j].id != id
  {
    if toppings == [] then None
    else if toppings[0].id == id then Some(toppings[0])
    else FindTopping(toppings[1..], id)
  }

  /** No size id contains the `|` that pizza keys use as a separator. */
  lemma SizeIdsAreKeySafe()
    ensures forall s :: s in Sizes ==> '|' !in s.id
  {
    assert '|' !in "sm" && '|' !in "md" && '|' !in "lg";
  }

  /** No signature-pizza id contains the key separator `|`. */
  lemma PizzaIdsAreKeySafe()
    ensures forall m :: m in Menu[0].items ==> '|' !in m.id
  {
    forall m | m in Menu[0].items ensures '|' !in m.id {
      assert forall i :: 0 <= i < |m.id| ==> 'a' <= m.id[i] <= 'z' || m.id[i] == '-';
    }
  }

  /** Topping ids are distinct, so `TOPPINGS.find` has one answer per id. */
  lemma ToppingIdsAreDistinct()
    ensures forall i, j :: 0 <= i < j < |Toppings| ==> Toppings[i].id != Toppings[j].id
  {
  }

  /** One topping id is non-empty and free of the key separators `|` and `,`. */
  lemma ToppingIdIsKeySafe(k: int)
    requires 0 <= k < |Toppings|
    ensures Toppings[k].id != "" && ',' !in Toppings[k].id && '|' !in Toppings[k].id
  {
    var id := Toppings[k].id;
    assert forall i :: 0 <= i < |id| ==> 'a' <= id[i] <= 'z' || id[i] == '-';
  }

  /** Every topping id is non-empty and free of the key separators `|` and `,`. */
  lemma ToppingIdsAreKeySafe()
    ensures forall t :: t in Toppings ==> t.id != "" && ',' !in t.id && '|' !in t.id
  {
    forall t | t in Toppings ensures t.id != "" && ',' !in t.id && '|' !in t.id {
      var k :| 0 <= k < |Toppings| && Toppings[k] == t;
      ToppingIdIsKeySafe(k);
    }
  }

  /** Every size delta lies between -2 and 4, and every topping costs between 0 and 3. */
  lemma CatalogPriceBounds()
    ensures forall s :: s in Sizes ==> -2.0 <= s.priceDelta <= 4.0
    ensures forall t :: t in Toppings ==> 0.0 <= t.price <= 3.0
  {
  }
}
