/**
 * Prices, subtotal, tax, total and the customizer's unit price, in exact
 * dollars. The source's left-to-right `reduce` folds are kept as left folds.
 */
module Pricing {
  import opened Wrappers
  import opened Catalog
  import opened PizzaKey
  import opened Cart

  /** The tax rate, the source's `0.08`. */
  const TaxRate: real := 8.0 / 100.0

  /** `SIZES.find(...)?.priceDelta ?? 0`: an unknown size costs nothing extra. */
  function SizeDelta(sizeId: string): (d: real)
    ensures FindSize(Sizes, sizeId).None? ==> d == 0.0
    ensures FindSize(Sizes, sizeId).Some? ==> d == FindSize(Sizes, sizeId).value.priceDelta
    ensures -2.0 <= d <= 4.0
  {
    CatalogPriceBounds();
    match FindSize(Sizes, sizeId)
    case Some(s) => s.priceDelta
    case None => 0.0
  }

  /** `TOPPINGS.find(...)?.price ?? 0`: an unknown topping costs nothing. */
  function ToppingPrice(id: string): (p: real)
    ensures FindTopping(Toppings, id).None? ==> p == 0.0
    ensures FindTopping(Toppings, id).Some? ==> p == FindTopping(Toppings, id).value.price
    ensures 0.0 <= p <= 3.0
  {
    CatalogPriceBounds();
    match FindTopping(Toppings, id)
    case Some(t) => t.price
    case None => 0.0
  }

  /** `toppingIds.reduce((acc, id) => acc + price(id), 0)`. */
  function ToppingsTotal(ids: seq<string>): real
  {
    if ids == [] then 0.0 else ToppingsTotal(ids[..|ids| - 1]) + ToppingPrice(ids[|ids| - 1])
  }

  /** Toppings never lower a pizza's price. */
  lemma {:induction false} ToppingsTotalNonNegative(ids: seq<string>)
    ensures 0.0 <= ToppingsTotal(ids)
  {
    if ids != [] {
      ToppingsTotalNonNegative(ids[..|ids| - 1]);
    }
  }

  lemma {:induction false} ToppingsTotalAppend(a: seq<string>, b: seq<string>)
    ensures ToppingsTotal(a + b) == ToppingsTotal(a) + ToppingsTotal(b)
  {
    if b == [] {
      assert a + b == a;
    } else {
      assert (a + b)[..|a + b| - 1] == a + b[..|b| - 1];
      ToppingsTotalAppend(a, b[..|b| - 1]);
    }
  }

  /** The toppings' total depends only on which toppings were chosen, not on the order. */
  lemma {:induction false} ToppingsTotalPermutation(a: seq<string>, b: seq<string>)
    requires multiset(a) == multiset(b)
    ensures ToppingsTotal(a) == ToppingsTotal(b)
  {
    if a != [] {
      var x := a[0];
      assert x in multiset(b);
      var k :| 0 <= k < |b| && b[k] == x;
      var b' := b[..k] + b[k + 1..];
      assert b == b[..k] + ([x] + b[k + 1..]);
      assert a == [x] + a[1..];
      assert multiset(b) == multiset(b[..k]) + multiset{x} + multiset(b[k + 1..]);
      assert multiset(b') == multiset(b[..k]) + multiset(b[k + 1..]);
      MultisetCancel(x, multiset(a[1..]), multiset(b'));
      ToppingsTotalPermutation(a[1..], b');
      ToppingsTotalAppend([x], a[1..]);
      ToppingsTotalAppend(b[..k], [x] + b[k + 1..]);
      ToppingsTotalAppend([x], b[k + 1..]);
      ToppingsTotalAppend(b[..k], b[k + 1..]);
      assert [x][..0] == [];
    }
  }

  /** A pizza's unit price: base price, size delta, and every topping's price. */
  function PizzaUnitPrice(base: MenuItem, c: PizzaCustomization): real
  {
    base.price + SizeDelta(c.sizeId) + ToppingsTotal(c.toppingIds)
  }

  /** Size and toppings can lower a pizza's price below its base price by at most the small size's two dollars. */
  lemma PizzaUnitPriceAtLeast(base: MenuItem, c: PizzaCustomization)
    ensures base.price - 2.0 <= PizzaUnitPrice(base, c)
  {
    ToppingsTotalNonNegative(c.toppingIds);
  }

  function UnitPrice(li: LineItem): real
  {
    match li
    case OtherLine(_, item, _) => item.price
    case PizzaLine(_, base, _, c) => PizzaUnitPrice(base, c)
  }

  function LineTotal(li: LineItem): real
  {
    UnitPrice(li) * li.quantity as real
  }

  /** `subtotal`: the sum of unit price times quantity, folded from the left. */
  function Subtotal(lines: seq<LineItem>): real
  {
    if lines == [] then 0.0 else Subtotal(lines[..|lines| - 1]) + LineTotal(lines[|lines| - 1])
  }

  function Tax(subtotal: real): (t: real)
    ensures 0.0 <= subtotal ==> 0.0 <= t <= subtotal
    ensures subtotal < 0.0 ==> subtotal < t <= 0.0
  {
    subtotal * TaxRate
  }

  /** `total = subtotal + tax`: the subtotal plus eight percent. */
  function Total(subtotal: real): (t: real)
    ensures t == subtotal * 108.0 / 100.0
    ensures t - subtotal == Tax(subtotal)
  {
    subtotal + Tax(subtotal)
  }

  lemma {:induction false} SubtotalAppend(a: seq<LineItem>, b: seq<LineItem>)
    ensures Subtotal(a + b) == Subtotal(a) + Subtotal(b)
  {
    if b == [] {
      assert a + b == a;
    } else {
      assert (a + b)[..|a + b| - 1] == a + b[..|b| - 1];
      SubtotalAppend(a, b[..|b| - 1]);
    }
  }

  /** One more unit of a line costs one more unit price. */
  lemma BumpedLineTotal(li: LineItem)
    ensures LineTotal(Bumped(li)) == LineTotal(li) + UnitPrice(li)
  {
    BumpedKeepsUnitPrice(li);
    OneMoreUnit(UnitPrice(Bumped(li)), UnitPrice(li), Bumped(li).quantity as real, li.quantity as real);
  }

  lemma BumpedKeepsUnitPrice(li: LineItem)
    ensures Bumped(li).quantity == li.quantity + 1 && UnitPrice(Bumped(li)) == UnitPrice(li)
  {
    match li
    case OtherLine(_, _, _) =>
    case PizzaLine(_, _, _, _) =>
  }

  lemma OneMoreUnit(u': real, u: real, q': real, q: real)
    requires u' == u && q' == q + 1.0
    ensures u' * q' == u * q + u
  {
  }

  lemma SubtotalSingle(x: LineItem)
    ensures Subtotal([x]) == LineTotal(x)
  {
    assert [x][..0] == [];
  }

  /** Replacing one line changes the subtotal by the difference of the two line totals. */
  lemma SubtotalUpdate(lines: seq<LineItem>, i: int, x: LineItem)
    requires 0 <= i < |lines|
    ensures Subtotal(lines[i := x]) == Subtotal(lines) - LineTotal(lines[i]) + LineTotal(x)
  {
    assert lines == lines[..i] + ([lines[i]] + lines[i + 1..]);
    assert lines[i := x] == lines[..i] + ([x] + lines[i + 1..]);
    SubtotalAppend(lines[..i], [lines[i]] + lines[i + 1..]);
    SubtotalAppend(lines[..i], [x] + lines[i + 1..]);
    SubtotalAppend([lines[i]], lines[i + 1..]);
    SubtotalAppend([x], lines[i + 1..]);
    SubtotalSingle(lines[i]);
    SubtotalSingle(x);
  }

  /**
   * Adding a pizza raises the subtotal by one unit price of the line it lands on:
   * the new pizza's price when it is appended, the merged line's price otherwise.
   */
  lemma UpsertPizzaSubtotal(lines: seq<LineItem>, base: MenuItem, c: PizzaCustomization)
    ensures Subtotal(UpsertPizza(lines, base, c)) == Subtotal(lines) + AddedUnitPrice(lines, base, c)
  {
    var key := MakePizzaKey(base.id, c);
    var idx := FindPizza(lines, key);
    var r := UpsertPizza(lines, base, c);
    if idx >= 0 {
      assert r == lines[idx := Bumped(lines[idx])];
      SubtotalUpdate(lines, idx, Bumped(lines[idx]));
      BumpedLineTotal(lines[idx]);
    } else {
      var n := PizzaLine(key, base, 1, c);
      assert r == lines + [n];
      SubtotalAppend(lines, [n]);
      SubtotalSingle(n);
    }
  }

  /** The price `upsertPizza` adds: the merged line's unit price, or the new pizza's. */
  function AddedUnitPrice(lines: seq<LineItem>, base: MenuItem, c: PizzaCustomization): real
  {
    var idx := FindPizza(lines, MakePizzaKey(base.id, c));
    if idx >= 0 then UnitPrice(lines[idx]) else PizzaUnitPrice(base, c)
  }

  /** Adding a side or drink raises the subtotal by that item's price, whichever line it lands on. */
  lemma AddOtherSubtotal(lines: seq<LineItem>, item: MenuItem)
    ensures var idx := FindOther(lines, item.id);
      Subtotal(AddOther(lines, item)) ==
        Subtotal(lines) + (if idx >= 0 then UnitPrice(lines[idx]) else item.price)
  {
    var idx := FindOther(lines, item.id);
    if idx >= 0 {
      SubtotalUpdate(lines, idx, Bumped(lines[idx]));
      BumpedLineTotal(lines[idx]);
    } else {
      var n := OtherLine(item.id, item, 1);
      SubtotalAppend(lines, [n]);
      SubtotalSingle(n);
    }
  }

  /**
   * Two customizations that `upsertPizza` merges because they differ only in
   * topping order also cost the same, so merging does not change the subtotal.
   */
  lemma MergedPizzasCostTheSame(base: MenuItem, c1: PizzaCustomization, c2: PizzaCustomization)
    requires c1.sizeId == c2.sizeId && multiset(c1.toppingIds) == multiset(c2.toppingIds)
    ensures MakePizzaKey(base.id, c1) == MakePizzaKey(base.id, c2)
    ensures PizzaUnitPrice(base, c1) == PizzaUnitPrice(base, c2)
  {
    PizzaKeyIgnoresToppingOrder(base.id, c1, c2);
    ToppingsTotalPermutation(c1.toppingIds, c2.toppingIds);
  }

  /** `PizzaCustomizer`'s `unitPrice`, computed from the customizer's own state. */
  function CustomizerUnitPrice(basePrice: real, sizeId: string, toppingIds: seq<string>): (p: real)
    ensures forall base: MenuItem :: base.price == basePrice ==>
      p == UnitPrice(PizzaLine(MakePizzaKey(base.id, PizzaCustomization(sizeId, toppingIds)), base, 1, PizzaCustomization(sizeId, toppingIds)))
  {
    var sizeDelta := SizeDelta(sizeId);
    var toppingsTotal := ToppingsTotal(toppingIds);
    basePrice + sizeDelta + toppingsTotal
  }

  /** The key of a large pizza with basil. */
  lemma ExampleKey(base: MenuItem)
    ensures MakePizzaKey(base.id, PizzaCustomization("lg", ["basil"])) == base.id + "|lg|basil"
  {
    assert Sort(["basil"]) == ["basil"];
  }

  /** The large size adds 4. */
  lemma LargeSizeDelta()
    ensures SizeDelta("lg") == 4.0
  {
    assert Sizes[2..][0].id == "lg";
    assert FindSize(Sizes[2..], "lg") == Some(Sizes[2]);
    assert Sizes[1..][1..] == Sizes[2..];
    assert FindSize(Sizes[1..], "lg") == Some(Sizes[2]);
  }

  /** Basil costs 1. */
  lemma BasilPrice()
    ensures ToppingPrice("basil") == 1.0
  {
    assert Toppings[5].id == "basil";
    var r := FindTopping(Toppings, "basil");
    ToppingIdsAreDistinct();
    var k :| 0 <= k < |Toppings| && Toppings[k] == r.value;
    assert k == 5;
  }

  /** A large Margherita with basil costs 16 + 4 + 1. */
  lemma ExamplePizzaPrice()
    ensures PizzaUnitPrice(Margherita, PizzaCustomization("lg", ["basil"])) == 21.0
  {
    LargeSizeDelta();
    BasilPrice();
    assert ToppingsTotal(["basil"]) == 1.0 by {
      assert ["basil"][..0] == [];
    }
  }

  /** The first large Margherita with basil lands on a new line of quantity 1. */
  lemma ExampleFirstPizza()
    ensures var c := PizzaCustomization("lg", ["basil"]);
      UpsertPizza([], Margherita, c) == [PizzaLine("margherita|lg|basil", Margherita, 1, c)]
  {
    var c := PizzaCustomization("lg", ["basil"]);
    ExampleKey(Margherita);
    assert MakePizzaKey(Margherita.id, c) == "margherita|lg|basil";
    assert FindPizza([], MakePizzaKey(Margherita.id, c)) == -1;
  }

  /** The second one merges into that line. */
  lemma ExampleSecondPizza()
    ensures var c := PizzaCustomization("lg", ["basil"]);
      UpsertPizza([PizzaLine("margherita|lg|basil", Margherita, 1, c)], Margherita, c)
        == [PizzaLine("margherita|lg|basil", Margherita, 2, c)]
  {
    var c := PizzaCustomization("lg", ["basil"]);
    ExampleKey(Margherita);
    var first := [PizzaLine("margherita|lg|basil", Margherita, 1, c)];
    assert FindPizza(first, MakePizzaKey(Margherita.id, c)) == 0;
  }

  /** Adding the pizza twice and the water once gives two lines, the pizza at quantity 2. */
  lemma ExampleLines()
    ensures var c := PizzaCustomization("lg", ["basil"]);
      AddOther(UpsertPizza(UpsertPizza([], Margherita, c), Margherita, c), SanPellegrino)
        == [PizzaLine("margherita|lg|basil", Margherita, 2, c), OtherLine("water", SanPellegrino, 1)]
  {
    ExampleFirstPizza();
    ExampleSecondPizza();
    var c := PizzaCustomization("lg", ["basil"]);
    var second := [PizzaLine("margherita|lg|basil", Margherita, 2, c)];
    assert FindOther(second, "water") == -1;
  }

  /**
   * The worked example: a large Margherita with basil added twice and one
   * San Pellegrino make two lines, a subtotal of 46 and a total of 49.68.
   */
  lemma WorkedExample()
    ensures var c := PizzaCustomization("lg", ["basil"]);
      var lines := AddOther(UpsertPizza(UpsertPizza([], Margherita, c), Margherita, c), SanPellegrino);
      && |lines| == 2
      && Subtotal(lines) == 46.0
      && Tax(Subtotal(lines)) == 3.68
      && Total(Subtotal(lines)) == 49.68
  {
    var c := PizzaCustomization("lg", ["basil"]);
    ExampleLines();
    ExamplePizzaPrice();
    var p, w := PizzaLine("margherita|lg|basil", Margherita, 2, c), OtherLine("water", SanPellegrino, 1);
    SubtotalAppend([p], [w]);
    SubtotalSingle(p);
    SubtotalSingle(w);
    assert [p, w] == [p] + [w];
    assert Subtotal([p, w]) == 46.0;
  }
}
