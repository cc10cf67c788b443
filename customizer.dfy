/**
 * The pizza customizer: the size and topping choices for one pizza before it
 * goes into the cart, and the price it shows for them.
 */
module Customizer {
  import opened Catalog
  import opened PizzaKey
  import opened Pricing

  ghost predicate NoDup(ids: seq<string>)
  {
    forall i, j :: 0 <= i < j < |ids| ==> ids[i] != ids[j]
  }

  /** `prev.filter(x => x !== t)`. */
  function Without(ids: seq<string>, t: string): (r: seq<string>)
    ensures t !in r
    ensures forall x :: x in r <==> x in ids && x != t
    ensures t !in ids ==> r == ids
  {
    if ids == [] then []
    else (if ids[0] != t then [ids[0]] else []) + Without(ids[1..], t)
  }

  /** The topping button: a chosen topping is removed, any other one is appended. */
  function Toggle(ids: seq<string>, t: string): (r: seq<string>)
    ensures t in r <==> t !in ids
    ensures forall x :: x != t ==> (x in r <==> x in ids)
  {
    if t in ids then Without(ids, t) else ids + [t]
  }

  /** Removing one topping from a duplicate-free choice takes away exactly one copy of it. */
  lemma {:induction false} WithoutMultiset(ids: seq<string>, t: string)
    requires NoDup(ids) && t in ids
    ensures multiset(Without(ids, t)) + multiset{t} == multiset(ids)
    ensures NoDup(Without(ids, t))
  {
    assert ids == [ids[0]] + ids[1..];
    var rest := ids[1..];
    assert NoDup(rest);
    if ids[0] == t {
      assert t !in rest;
      assert Without(rest, t) == rest;
      assert Without(ids, t) == rest;
    } else {
      assert t in rest;
      WithoutMultiset(rest, t);
      var w := Without(rest, t);
      assert Without(ids, t) == [ids[0]] + w;
      assert ids[0] !in rest;
      assert ids[0] !in w;
      forall i, j | 0 <= i < j < |[ids[0]] + w| ensures ([ids[0]] + w)[i] != ([ids[0]] + w)[j] {
        if i == 0 { assert ([ids[0]] + w)[j] in w; }
      }
    }
  }

  lemma ToggleKeepsNoDup(ids: seq<string>, t: string)
    requires NoDup(ids)
    ensures NoDup(Toggle(ids, t))
  {
    if t in ids {
      WithoutMultiset(ids, t);
    }
  }

  /**
   * Toggling a topping twice gives back the same choice up to order: exactly
   * the same sequence when the topping was not chosen, the same multiset when
   * it was (it comes back at the end).
   */
  lemma ToggleTwice(ids: seq<string>, t: string)
    requires NoDup(ids)
    ensures multiset(Toggle(Toggle(ids, t), t)) == multiset(ids)
    ensures t !in ids ==> Toggle(Toggle(ids, t), t) == ids
  {
    if t in ids {
      WithoutMultiset(ids, t);
      assert Toggle(Toggle(ids, t), t) == Without(ids, t) + [t];
    } else {
      assert t in ids + [t];
      WithoutAppend(ids, t);
    }
  }

  lemma {:induction false} WithoutAppend(ids: seq<string>, t: string)
    requires t !in ids
    ensures Without(ids + [t], t) == ids
  {
    if ids == [] {
      assert [] + [t] == [t];
    } else {
      assert (ids + [t])[1..] == ids[1..] + [t];
      WithoutAppend(ids[1..], t);
      assert ids == [ids[0]] + ids[1..];
    }
  }

  /** So toggling a topping twice leaves the cart key and the price as they were. */
  lemma ToggleTwiceSameKeyAndPrice(base: MenuItem, sizeId: string, ids: seq<string>, t: string)
    requires NoDup(ids)
    ensures MakePizzaKey(base.id, PizzaCustomization(sizeId, Toggle(Toggle(ids, t), t)))
         == MakePizzaKey(base.id, PizzaCustomization(sizeId, ids))
    ensures CustomizerUnitPrice(base.price, sizeId, Toggle(Toggle(ids, t), t))
         == CustomizerUnitPrice(base.price, sizeId, ids)
  {
    ToggleTwice(ids, t);
    MergedPizzasCostTheSame(base, PizzaCustomization(sizeId, Toggle(Toggle(ids, t), t)), PizzaCustomization(sizeId, ids));
  }

  /** The customizer for one pizza on the menu. */
  class PizzaCustomizer {
    const base: MenuItem
    var sizeId: string
    var toppingIds: seq<string>

    /** The toggle keeps the chosen toppings free of duplicates. */
    ghost predicate Valid()
      reads this
    {
      NoDup(toppingIds)
    }

    constructor (base: MenuItem)
      ensures this.base == base && sizeId == "md" && toppingIds == []
      ensures Valid()
    {
      this.base := base;
      sizeId := "md";
      toppingIds := [];
    }

    /** What "Add to cart" hands to the order page. */
    function Choice(): PizzaCustomization
      reads this
    {
      PizzaCustomization(sizeId, toppingIds)
    }

    /** The price shown while customizing; it is the unit price of the line the choice adds. */
    function UnitPrice(): (p: real)
      reads this
      ensures p == PizzaUnitPrice(base, Choice())
    {
      CustomizerUnitPrice(base.price, sizeId, toppingIds)
    }

    method SelectSize(id: string)
      modifies this
      ensures sizeId == id && toppingIds == old(toppingIds)
    {
      sizeId := id;
    }

    method ToggleTopping(t: string)
      modifies this
      ensures old(Valid()) ==> Valid()
      ensures toppingIds == Toggle(old(toppingIds), t) && sizeId == old(sizeId)
      ensures t in toppingIds <==> t !in old(toppingIds)
    {
      if Valid() { ToggleKeepsNoDup(toppingIds, t); }
      toppingIds := Toggle(toppingIds, t);
    }

    method Reset()
      modifies this
      ensures Valid()
      ensures sizeId == "md" && toppingIds == []
    {
      sizeId := "md";
      toppingIds := [];
    }
  }
}
