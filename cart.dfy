/**
 * The cart: an ordered sequence of tagged line items and the pure updaters the
 * order page hands to its `setLineItems` state setter.
 */
module Cart {
  import opened Catalog
  import opened PizzaKey

  /** A cart line: a customized pizza or a flat-priced side or drink. */
  datatype LineItem =
    | PizzaLine(id: string, base: MenuItem, quantity: int, customization: PizzaCustomization)
    | OtherLine(id: string, item: MenuItem, quantity: int)

  function Max(a: int, b: int): int { if a < b then b else a }

  /** The key `upsertPizza` recomputes from a pizza line's base and customization. */
  function KeyOf(li: LineItem): string
    requires li.PizzaLine?
  {
    MakePizzaKey(li.base.id, li.customization)
  }

  predicate IsPizzaFor(li: LineItem, key: string)
  {
    li.PizzaLine? && KeyOf(li) == key
  }

  predicate IsOtherFor(li: LineItem, itemId: string)
  {
    li.OtherLine? && li.item.id == itemId
  }

  /** The same line with quantity `q`: the source's `{ ...li.data, quantity: q }`. */
  function WithQuantity(li: LineItem, q: int): LineItem
  {
    match li
    case PizzaLine(id, base, _, c) => PizzaLine(id, base, q, c)
    case OtherLine(id, item, _) => OtherLine(id, item, q)
  }

  function Bumped(li: LineItem): LineItem
  {
    WithQuantity(li, li.quantity + 1)
  }

  // ---------------------------------------------------------------------------
  // The cart invariant the updaters maintain

  ghost predicate AllPositive(lines: seq<LineItem>)
  {
    forall i :: 0 <= i < |lines| ==> lines[i].quantity > 0
  }

  /** Every line's id is the key it was created under. */
  ghost predicate WellKeyed(lines: seq<LineItem>)
  {
    forall i :: 0 <= i < |lines| ==>
      (lines[i].PizzaLine? ==> lines[i].id == KeyOf(lines[i])) &&
      (lines[i].OtherLine? ==> lines[i].id == lines[i].item.id)
  }

  /** Two lines that the add operations would have merged into one. */
  predicate Clash(a: LineItem, b: LineItem)
  {
    (a.PizzaLine? && b.PizzaLine? && KeyOf(a) == KeyOf(b)) ||
    (a.OtherLine? && b.OtherLine? && a.item.id == b.item.id)
  }

  ghost predicate NoClash(lines: seq<LineItem>)
  {
    forall i, j :: 0 <= i < j < |lines| ==> !Clash(lines[i], lines[j])
  }

  ghost predicate CartInvariant(lines: seq<LineItem>)
  {
    AllPositive(lines) && WellKeyed(lines) && NoClash(lines)
  }

  // ---------------------------------------------------------------------------
  // Counting

  /** `totalCount`: the sum of the quantities, folded from the left. */
  function TotalCount(lines: seq<LineItem>): int
  {
    if lines == [] then 0 else TotalCount(lines[..|lines| - 1]) + lines[|lines| - 1].quantity
  }

  lemma {:induction false} TotalCountAppend(a: seq<LineItem>, b: seq<LineItem>)
    ensures TotalCount(a + b) == TotalCount(a) + TotalCount(b)
  {
    if b == [] {
      assert a + b == a;
    } else {
      assert (a + b)[..|a + b| - 1] == a + b[..|b| - 1];
      TotalCountAppend(a, b[..|b| - 1]);
    }
  }

  /** With every quantity positive, the count is at least the number of lines. */
  lemma {:induction false} TotalCountAtLeastLines(lines: seq<LineItem>)
    requires AllPositive(lines)
    ensures TotalCount(lines) >= |lines|
  {
    if lines != [] {
      var init := lines[..|lines| - 1];
      assert AllPositive(init) by {
        forall j | 0 <= j < |init| ensures init[j].quantity > 0 {
          assert init[j] == lines[j];
        }
      }
      TotalCountAtLeastLines(init);
    }
  }

  lemma TotalCountCons(x: LineItem, t: seq<LineItem>)
    ensures TotalCount([x] + t) == x.quantity + TotalCount(t)
  {
    TotalCountAppend([x], t);
    assert [x][..0] == [];
  }

  /** Replacing one line changes the count by the difference of the two quantities. */
  lemma TotalCountUpdate(lines: seq<LineItem>, i: int, x: LineItem)
    requires 0 <= i < |lines|
    ensures TotalCount(lines[i := x]) == TotalCount(lines) - lines[i].quantity + x.quantity
  {
    assert lines == lines[..i] + ([lines[i]] + lines[i + 1..]);
    assert lines[i := x] == lines[..i] + ([x] + lines[i + 1..]);
    TotalCountAppend(lines[..i], [lines[i]] + lines[i + 1..]);
    TotalCountAppend(lines[..i], [x] + lines[i + 1..]);
    TotalCountCons(lines[i], lines[i + 1..]);
    TotalCountCons(x, lines[i + 1..]);
  }

  // ---------------------------------------------------------------------------
  // upsertPizza

  /** The first index at or after `k` holding a pizza line with this key, or -1. */
  function FindPizzaFrom(lines: seq<LineItem>, key: string, k: nat): (r: int)
    requires k <= |lines|
    ensures r == -1 || k <= r < |lines|
    ensures r >= 0 ==> IsPizzaFor(lines[r], key) && forall j :: k <= j < r ==> !IsPizzaFor(lines[j], key)
    ensures r == -1 ==> forall j :: k <= j < |lines| ==> !IsPizzaFor(lines[j], key)
    decreases |lines| - k
  {
    if k == |lines| then -1
    else if IsPizzaFor(lines[k], key) then k
    else FindPizzaFrom(lines, key, k + 1)
  }

  /** `prev.findIndex(li => li.kind === "pizza" && makePizzaKey(...) === key)`: the first match, or -1. */
  function FindPizza(lines: seq<LineItem>, key: string): (r: int)
    ensures -1 <= r < |lines|
    ensures r >= 0 ==> IsPizzaFor(lines[r], key) && forall j :: 0 <= j < r ==> !IsPizzaFor(lines[j], key)
    ensures r == -1 <==> forall j :: 0 <= j < |lines| ==> !IsPizzaFor(lines[j], key)
  {
    FindPizzaFrom(lines, key, 0)
  }

  /** `upsertPizza`: raise the quantity of the line with the same key, or append a new line. */
  function UpsertPizza(lines: seq<LineItem>, base: MenuItem, c: PizzaCustomization): (r: seq<LineItem>)
    ensures |lines| <= |r| <= |lines| + 1
    ensures exists i :: 0 <= i < |r| && IsPizzaFor(r[i], MakePizzaKey(base.id, c))
  {
    var key := MakePizzaKey(base.id, c);
    var idx := FindPizza(lines, key);
    if idx >= 0 then
      var r := lines[idx := Bumped(lines[idx])];
      assert IsPizzaFor(r[idx], key);
      r
    else
      var r := lines + [PizzaLine(key, base, 1, c)];
      assert IsPizzaFor(r[|lines|], key);
      r
  }

  /** With the key present, the first line carrying it gains one and nothing else moves or changes. */
  lemma UpsertPizzaMerges(lines: seq<LineItem>, base: MenuItem, c: PizzaCustomization, i: int)
    requires 0 <= i < |lines| && IsPizzaFor(lines[i], MakePizzaKey(base.id, c))
    requires forall j :: 0 <= j < i ==> !IsPizzaFor(lines[j], MakePizzaKey(base.id, c))
    ensures |UpsertPizza(lines, base, c)| == |lines|
    ensures UpsertPizza(lines, base, c)[i] == Bumped(lines[i])
    ensures forall j :: 0 <= j < |lines| && j != i ==> UpsertPizza(lines, base, c)[j] == lines[j]
  {
    var idx := FindPizza(lines, MakePizzaKey(base.id, c));
    assert idx == i by {
      if idx < i { } else if idx > i { }
    }
  }

  /** With the key absent, one line with quantity 1 and id equal to the key is added at the end. */
  lemma UpsertPizzaAppends(lines: seq<LineItem>, base: MenuItem, c: PizzaCustomization)
    requires forall j :: 0 <= j < |lines| ==> !IsPizzaFor(lines[j], MakePizzaKey(base.id, c))
    ensures UpsertPizza(lines, base, c) == lines + [PizzaLine(MakePizzaKey(base.id, c), base, 1, c)]
  {
  }

  /** Adding a pizza with the same size and the same toppings in another order merges into the same line. */
  lemma {:induction false} UpsertPizzaIgnoresToppingOrder(lines: seq<LineItem>, base: MenuItem, c1: PizzaCustomization, c2: PizzaCustomization, i: int)
    requires c1.sizeId == c2.sizeId && multiset(c1.toppingIds) == multiset(c2.toppingIds)
    requires 0 <= i < |lines| && lines[i] == PizzaLine(MakePizzaKey(base.id, c1), base, 1, c1)
    requires forall j :: 0 <= j < i ==> !IsPizzaFor(lines[j], MakePizzaKey(base.id, c1))
    ensures UpsertPizza(lines, base, c2) == lines[i := WithQuantity(lines[i], 2)]
  {
    PizzaKeyIgnoresToppingOrder(base.id, c1, c2);
    UpsertPizzaMerges(lines, base, c2, i);
  }

  /**
   * With separator-free ids, a pizza whose base, size or topping set differs from
   * every pizza line already in the cart gets a line of its own.
   */
  lemma UpsertPizzaNewChoiceAppends(lines: seq<LineItem>, base: MenuItem, c: PizzaCustomization)
    requires '|' !in base.id && '|' !in c.sizeId && KeySafeToppings(c.toppingIds)
    requires forall j :: 0 <= j < |lines| && lines[j].PizzaLine? ==>
      '|' !in lines[j].base.id && '|' !in lines[j].customization.sizeId &&
      KeySafeToppings(lines[j].customization.toppingIds)
    requires forall j :: 0 <= j < |lines| && lines[j].PizzaLine? ==>
      lines[j].base.id != base.id || lines[j].customization.sizeId != c.sizeId ||
      multiset(lines[j].customization.toppingIds) != multiset(c.toppingIds)
    ensures UpsertPizza(lines, base, c) == lines + [PizzaLine(MakePizzaKey(base.id, c), base, 1, c)]
  {
    forall j | 0 <= j < |lines| ensures !IsPizzaFor(lines[j], MakePizzaKey(base.id, c)) {
      if IsPizzaFor(lines[j], MakePizzaKey(base.id, c)) {
        PizzaKeyDistinguishes(lines[j].base.id, lines[j].customization, base.id, c);
      }
    }
    UpsertPizzaAppends(lines, base, c);
  }

  /** A pizza the customizer builds: a signature pizza, a catalog size and catalog toppings. */
  ghost predicate CatalogChoice(base: MenuItem, c: PizzaCustomization)
  {
    base in Menu[0].items &&
    (exists s :: s in Sizes && s.id == c.sizeId) &&
    forall id :: id in c.toppingIds ==> exists t :: t in Toppings && t.id == id
  }

  /**
   * On a cart whose pizzas all come from the catalog, a new catalog pizza
   * that differs from each of them in base, size or topping set becomes a
   * new last line.
   */
  lemma CatalogNewChoiceAppends(lines: seq<LineItem>, base: MenuItem, c: PizzaCustomization)
    requires CatalogChoice(base, c)
    requires forall j :: 0 <= j < |lines| && lines[j].PizzaLine? ==>
      CatalogChoice(lines[j].base, lines[j].customization)
    requires forall j :: 0 <= j < |lines| && lines[j].PizzaLine? ==>
      lines[j].base.id != base.id || lines[j].customization.sizeId != c.sizeId ||
      multiset(lines[j].customization.toppingIds) != multiset(c.toppingIds)
    ensures UpsertPizza(lines, base, c) == lines + [PizzaLine(MakePizzaKey(base.id, c), base, 1, c)]
  {
    PizzaIdsAreKeySafe();
    SizeIdsAreKeySafe();
    ToppingIdsAreKeySafe();
    UpsertPizzaNewChoiceAppends(lines, base, c);
  }

  lemma UpsertPizzaPreservesInvariant(lines: seq<LineItem>, base: MenuItem, c: PizzaCustomization)
    requires CartInvariant(lines)
    ensures CartInvariant(UpsertPizza(lines, base, c))
  {
    var key := MakePizzaKey(base.id, c);
    var idx := FindPizza(lines, key);
    var r := UpsertPizza(lines, base, c);
    if idx >= 0 {
      forall i, j | 0 <= i < j < |r| ensures !Clash(r[i], r[j]) {
        assert Clash(r[i], r[j]) == Clash(lines[i], lines[j]);
      }
    } else {
      var n := PizzaLine(key, base, 1, c);
      assert KeyOf(n) == key;
      forall i, j | 0 <= i < j < |r| ensures !Clash(r[i], r[j]) {
        if j == |lines| {
          assert !IsPizzaFor(lines[i], key);
        }
      }
    }
  }

  lemma UpsertPizzaCount(lines: seq<LineItem>, base: MenuItem, c: PizzaCustomization)
    ensures TotalCount(UpsertPizza(lines, base, c)) == TotalCount(lines) + 1
  {
    var idx := FindPizza(lines, MakePizzaKey(base.id, c));
    if idx >= 0 {
      TotalCountUpdate(lines, idx, Bumped(lines[idx]));
    } else {
      TotalCountAppend(lines, [PizzaLine(MakePizzaKey(base.id, c), base, 1, c)]);
      assert [PizzaLine(MakePizzaKey(base.id, c), base, 1, c)][..0] == [];
    }
  }

  // ---------------------------------------------------------------------------
  // addOther

  /** The first index at or after `k` holding an `other` line for this item, or -1. */
  function FindOtherFrom(lines: seq<LineItem>, itemId: string, k: nat): (r: int)
    requires k <= |lines|
    ensures r == -1 || k <= r < |lines|
    ensures r >= 0 ==> IsOtherFor(lines[r], itemId) && forall j :: k <= j < r ==> !IsOtherFor(lines[j], itemId)
    ensures r == -1 ==> forall j :: k <= j < |lines| ==> !IsOtherFor(lines[j], itemId)
    decreases |lines| - k
  {
    if k == |lines| then -1
    else if IsOtherFor(lines[k], itemId) then k
    else FindOtherFrom(lines, itemId, k + 1)
  }

  /** `prev.findIndex(li => li.kind === "other" && li.data.item.id === itemId)`. */
  function FindOther(lines: seq<LineItem>, itemId: string): (r: int)
    ensures -1 <= r < |lines|
    ensures r >= 0 ==> IsOtherFor(lines[r], itemId) && forall j :: 0 <= j < r ==> !IsOtherFor(lines[j], itemId)
    ensures r == -1 <==> forall j :: 0 <= j < |lines| ==> !IsOtherFor(lines[j], itemId)
  {
    FindOtherFrom(lines, itemId, 0)
  }

  /** `addOther`: the same dedup-or-append rule, keyed on the menu item's id. */
  function AddOther(lines: seq<LineItem>, item: MenuItem): (r: seq<LineItem>)
    ensures |lines| <= |r| <= |lines| + 1
    ensures exists i :: 0 <= i < |r| && IsOtherFor(r[i], item.id)
  {
    var idx := FindOther(lines, item.id);
    if idx >= 0 then
      var r := lines[idx := Bumped(lines[idx])];
      assert IsOtherFor(r[idx], item.id);
      r
    else
      var r := lines + [OtherLine(item.id, item, 1)];
      assert IsOtherFor(r[|lines|], item.id);
      r
  }

  lemma AddOtherMerges(lines: seq<LineItem>, item: MenuItem, i: int)
    requires 0 <= i < |lines| && IsOtherFor(lines[i], item.id)
    requires forall j :: 0 <= j < i ==> !IsOtherFor(lines[j], item.id)
    ensures |AddOther(lines, item)| == |lines|
    ensures AddOther(lines, item)[i] == Bumped(lines[i])
    ensures forall j :: 0 <= j < |lines| && j != i ==> AddOther(lines, item)[j] == lines[j]
  {
    var idx := FindOther(lines, item.id);
    assert idx == i by {
      if idx < i { } else if idx > i { }
    }
  }

  lemma AddOtherAppends(lines: seq<LineItem>, item: MenuItem)
    requires forall j :: 0 <= j < |lines| ==> !IsOtherFor(lines[j], item.id)
    ensures AddOther(lines, item) == lines + [OtherLine(item.id, item, 1)]
  {
  }

  lemma AddOtherPreservesInvariant(lines: seq<LineItem>, item: MenuItem)
    requires CartInvariant(lines)
    ensures CartInvariant(AddOther(lines, item))
  {
    var idx := FindOther(lines, item.id);
    var r := AddOther(lines, item);
    if idx >= 0 {
      forall i, j | 0 <= i < j < |r| ensures !Clash(r[i], r[j]) {
        assert Clash(r[i], r[j]) == Clash(lines[i], lines[j]);
      }
    } else {
      forall i, j | 0 <= i < j < |r| ensures !Clash(r[i], r[j]) {
        if j == |lines| {
          assert !IsOtherFor(lines[i], item.id);
        }
      }
    }
  }

  lemma AddOtherCount(lines: seq<LineItem>, item: MenuItem)
    ensures TotalCount(AddOther(lines, item)) == TotalCount(lines) + 1
  {
    var idx := FindOther(lines, item.id);
    if idx >= 0 {
      TotalCountUpdate(lines, idx, Bumped(lines[idx]));
    } else {
      TotalCountAppend(lines, [OtherLine(item.id, item, 1)]);
      assert [OtherLine(item.id, item, 1)][..0] == [];
    }
  }

  // ---------------------------------------------------------------------------
  // decLine and incLine

  /** One line of `decLine`'s map: a line with this id (pizza or other) loses one, floored at zero. */
  function DecOne(li: LineItem, id: string): LineItem
  {
    if li.id == id then WithQuantity(li, Max(0, li.quantity - 1)) else li
  }

  /** One line of `incLine`'s map. */
  function IncOne(li: LineItem, id: string): LineItem
  {
    if li.id == id then WithQuantity(li, li.quantity + 1) else li
  }

  function DecrementMatching(lines: seq<LineItem>, id: string): (r: seq<LineItem>)
    ensures |r| == |lines|
    ensures forall i :: 0 <= i < |lines| && lines[i].id == id ==>
      r[i] == WithQuantity(lines[i], Max(0, lines[i].quantity - 1))
    ensures forall i :: 0 <= i < |lines| && lines[i].id != id ==> r[i] == lines[i]
  {
    seq(|lines|, i requires 0 <= i < |lines| => DecOne(lines[i], id))
  }

  /** `decLine`'s filter: drop every line whose quantity is not positive. */
  function KeepPositive(lines: seq<LineItem>): (r: seq<LineItem>)
    ensures AllPositive(r)
    ensures |r| <= |lines|
    ensures forall x :: x in r ==> x in lines
    ensures AllPositive(lines) ==> r == lines
  {
    if lines == [] then []
    else
      assert lines == [lines[0]] + lines[1..];
      (if lines[0].quantity > 0 then [lines[0]] else []) + KeepPositive(lines[1..])
  }

  /** `decLine`. */
  function DecLine(lines: seq<LineItem>, id: string): (r: seq<LineItem>)
    ensures AllPositive(r)
    ensures |r| <= |lines|
  {
    KeepPositive(DecrementMatching(lines, id))
  }

  /** `incLine`. */
  function IncLine(lines: seq<LineItem>, id: string): (r: seq<LineItem>)
    ensures |r| == |lines|
    ensures forall i :: 0 <= i < |lines| ==> r[i].id == lines[i].id && r[i].quantity == if lines[i].id == id then lines[i].quantity + 1 else lines[i].quantity
    ensures forall i :: 0 <= i < |lines| && lines[i].id == id ==> r[i] == WithQuantity(lines[i], lines[i].quantity + 1)
    ensures forall i :: 0 <= i < |lines| && lines[i].id != id ==> r[i] == lines[i]
  {
    seq(|lines|, i requires 0 <= i < |lines| => IncOne(lines[i], id))
  }

  /** The lines whose id is not `id`, in their order. */
  function WithoutId(lines: seq<LineItem>, id: string): seq<LineItem>
  {
    if lines == [] then []
    else (if lines[0].id != id then [lines[0]] else []) + WithoutId(lines[1..], id)
  }

  /** The number of lines whose id is `id`. */
  function CountId(lines: seq<LineItem>, id: string): nat
  {
    if lines == [] then 0
    else (if lines[0].id == id then 1 else 0) + CountId(lines[1..], id)
  }

  lemma {:induction false} KeepPositiveAppend(a: seq<LineItem>, b: seq<LineItem>)
    ensures KeepPositive(a + b) == KeepPositive(a) + KeepPositive(b)
  {
    if a == [] {
      assert a + b == b;
    } else {
      assert (a + b)[1..] == a[1..] + b;
      KeepPositiveAppend(a[1..], b);
      KeepPositiveCons(a + b);
      KeepPositiveCons(a);
      if a[0].quantity > 0 {
        assert [a[0]] + (KeepPositive(a[1..]) + KeepPositive(b)) == ([a[0]] + KeepPositive(a[1..])) + KeepPositive(b);
      }
    }
  }

  lemma DecrementMatchingAppend(a: seq<LineItem>, b: seq<LineItem>, id: string)
    ensures DecrementMatching(a + b, id) == DecrementMatching(a, id) + DecrementMatching(b, id)
  {
  }

  lemma DecLineAppend(a: seq<LineItem>, b: seq<LineItem>, id: string)
    ensures DecLine(a + b, id) == DecLine(a, id) + DecLine(b, id)
  {
    DecrementMatchingAppend(a, b, id);
    KeepPositiveAppend(DecrementMatching(a, id), DecrementMatching(b, id));
  }

  /** On a cart of positive quantities, `decLine` with an id no line has changes nothing. */
  lemma DecLineNoMatch(lines: seq<LineItem>, id: string)
    requires AllPositive(lines)
    requires forall j :: 0 <= j < |lines| ==> lines[j].id != id
    ensures DecLine(lines, id) == lines
  {
    assert DecrementMatching(lines, id) == lines;
  }

  /** A line with the id at quantity 1 disappears; the lines around it stay in order. */
  lemma DecLineAtOneRemoves(lines: seq<LineItem>, id: string, i: int)
    requires AllPositive(lines)
    requires 0 <= i < |lines| && lines[i].id == id && lines[i].quantity == 1
    requires forall j :: 0 <= j < |lines| && j != i ==> lines[j].id != id
    ensures DecLine(lines, id) == lines[..i] + lines[i + 1..]
  {
    assert lines == lines[..i] + ([lines[i]] + lines[i + 1..]);
    DecLineAppend(lines[..i], [lines[i]] + lines[i + 1..], id);
    DecLineAppend([lines[i]], lines[i + 1..], id);
    DecLineNoMatch(lines[..i], id);
    DecLineNoMatch(lines[i + 1..], id);
    assert DecrementMatching([lines[i]], id) == [WithQuantity(lines[i], 0)];
  }

  /** A line with the id above quantity 1 loses one and keeps its place; nothing else changes. */
  lemma DecLineAboveOne(lines: seq<LineItem>, id: string, i: int)
    requires AllPositive(lines)
    requires 0 <= i < |lines| && lines[i].id == id && lines[i].quantity > 1
    requires forall j :: 0 <= j < |lines| && j != i ==> lines[j].id != id
    ensures DecLine(lines, id) == lines[i := WithQuantity(lines[i], lines[i].quantity - 1)]
  {
    var r := lines[i := WithQuantity(lines[i], lines[i].quantity - 1)];
    assert DecrementMatching(lines, id) == r;
    assert AllPositive(r);
  }

  /** On a cart of positive quantities the lines with other ids survive unchanged and in order. */
  lemma {:induction false} DecLineKeepsOthers(lines: seq<LineItem>, id: string)
    requires AllPositive(lines)
    ensures WithoutId(DecLine(lines, id), id) == WithoutId(lines, id)
  {
    if lines != [] {
      assert lines == [lines[0]] + lines[1..];
      DecLineAppend([lines[0]], lines[1..], id);
      DecLineKeepsOthers(lines[1..], id);
      WithoutIdAppend(DecLine([lines[0]], id), DecLine(lines[1..], id), id);
      assert DecrementMatching([lines[0]], id) == [DecOne(lines[0], id)];
      if lines[0].id == id {
        assert WithoutId(DecLine([lines[0]], id), id) == [];
      } else {
        assert DecLine([lines[0]], id) == [lines[0]];
        assert WithoutId([lines[0]], id) == [lines[0]];
      }
    }
  }

  lemma {:induction false} WithoutIdAppend(a: seq<LineItem>, b: seq<LineItem>, id: string)
    ensures WithoutId(a + b, id) == WithoutId(a, id) + WithoutId(b, id)
  {
    if a == [] {
      assert a + b == b;
    } else {
      assert (a + b)[1..] == a[1..] + b;
      assert (a + b)[0] == a[0];
      WithoutIdAppend(a[1..], b, id);
    }
  }

  /** On a cart of positive quantities `decLine` removes exactly one unit per line carrying the id. */
  /** `decLine` on a single line: the decremented line if it is still positive, else nothing. */
  lemma DecLineSingle(li: LineItem, id: string)
    ensures DecLine([li], id) == if DecOne(li, id).quantity > 0 then [DecOne(li, id)] else []
  {
    assert DecrementMatching([li], id) == [DecOne(li, id)];
  }

  lemma DecLineSingleCount(li: LineItem, id: string)
    requires li.quantity > 0
    ensures TotalCount(DecLine([li], id)) == li.quantity - if li.id == id then 1 else 0
  {
    DecLineSingle(li, id);
    if DecOne(li, id).quantity > 0 {
      TotalCountCons(DecOne(li, id), []);
    }
  }

  lemma {:induction false} DecLineCount(lines: seq<LineItem>, id: string)
    requires AllPositive(lines)
    ensures TotalCount(DecLine(lines, id)) == TotalCount(lines) - CountId(lines, id)
  {
    if lines != [] {
      assert lines == [lines[0]] + lines[1..];
      DecLineAppend([lines[0]], lines[1..], id);
      DecLineCount(lines[1..], id);
      TotalCountAppend(DecLine([lines[0]], id), DecLine(lines[1..], id));
      TotalCountCons(lines[0], lines[1..]);
      DecLineSingleCount(lines[0], id);
    }
  }

  /** `incLine` raises only the lines carrying the id, one unit each. */
  lemma {:induction false} IncLineCount(lines: seq<LineItem>, id: string)
    ensures TotalCount(IncLine(lines, id)) == TotalCount(lines) + CountId(lines, id)
  {
    if lines != [] {
      assert lines == [lines[0]] + lines[1..];
      assert IncLine(lines, id) == [IncOne(lines[0], id)] + IncLine(lines[1..], id);
      IncLineCount(lines[1..], id);
      TotalCountCons(lines[0], lines[1..]);
      TotalCountCons(IncOne(lines[0], id), IncLine(lines[1..], id));
    }
  }

  /** On a cart of positive quantities, `decLine` undoes `incLine`. */
  lemma IncThenDec(lines: seq<LineItem>, id: string)
    requires AllPositive(lines)
    ensures DecLine(IncLine(lines, id), id) == lines
  {
    assert DecrementMatching(IncLine(lines, id), id) == lines;
  }

  lemma DecLinePreservesInvariant(lines: seq<LineItem>, id: string)
    requires CartInvariant(lines)
    ensures CartInvariant(DecLine(lines, id))
  {
    var d := DecrementMatching(lines, id);
    assert WellKeyed(d);
    assert NoClash(d) by {
      forall i, j | 0 <= i < j < |d| ensures !Clash(d[i], d[j]) {
        assert Clash(d[i], d[j]) == Clash(lines[i], lines[j]);
      }
    }
    KeepPositiveKeeps(d);
  }

  /** In a clash-free cart the first line clashes with no later one. */
  lemma HeadClashesWithNoLater(lines: seq<LineItem>, y: LineItem)
    requires NoClash(lines) && lines != [] && y in lines[1..]
    ensures !Clash(lines[0], y)
  {
    var k :| 0 <= k < |lines[1..]| && lines[1..][k] == y;
    assert lines[k + 1] == y;
  }

  /** The filter keeps the per-line and pairwise parts of the invariant. */
  lemma {:induction false} KeepPositiveKeeps(lines: seq<LineItem>)
    requires WellKeyed(lines) && NoClash(lines)
    ensures WellKeyed(KeepPositive(lines)) && NoClash(KeepPositive(lines))
  {
    if lines != [] {
      TailKeeps(lines);
      KeepPositiveKeeps(lines[1..]);
      if lines[0].quantity > 0 {
        ConsKeeps(lines[0], KeepPositive(lines[1..]), lines[1..]);
      }
      KeepPositiveCons(lines);
    }
  }

  lemma TailKeeps(lines: seq<LineItem>)
    requires lines != [] && WellKeyed(lines) && NoClash(lines)
    ensures WellKeyed(lines[1..]) && NoClash(lines[1..])
  {
    assert forall j :: 0 <= j < |lines[1..]| ==> lines[1..][j] == lines[j + 1];
  }

  lemma KeepPositiveCons(lines: seq<LineItem>)
    requires lines != []
    ensures lines[0].quantity > 0 ==> KeepPositive(lines) == [lines[0]] + KeepPositive(lines[1..])
    ensures lines[0].quantity <= 0 ==> KeepPositive(lines) == KeepPositive(lines[1..])
  {
  }

  /** Prepending a well-keyed line that clashes with nothing in the tail keeps the invariant parts. */
  lemma ConsKeeps(h: LineItem, kt: seq<LineItem>, t: seq<LineItem>)
    requires WellKeyed(kt) && NoClash(kt)
    requires forall x :: x in kt ==> x in t
    requires WellKeyed([h] + t) && NoClash([h] + t)
    ensures WellKeyed([h] + kt) && NoClash([h] + kt)
  {
    assert ([h] + t)[0] == h;
    forall k | 0 <= k < |kt| ensures !Clash(h, kt[k]) {
      assert kt[k] in kt;
      HeadClashesWithNoLater([h] + t, kt[k]);
    }
    ConsNoClash(h, kt);
    ConsWellKeyed(h, kt);
  }

  lemma ConsNoClash(h: LineItem, kt: seq<LineItem>)
    requires NoClash(kt)
    requires forall k :: 0 <= k < |kt| ==> !Clash(h, kt[k])
    ensures NoClash([h] + kt)
  {
    var r := [h] + kt;
    forall i, j | 0 <= i < j < |r| ensures !Clash(r[i], r[j]) {
      assert r[j] == kt[j - 1];
      if i > 0 {
        assert r[i] == kt[i - 1];
      }
    }
  }

  lemma ConsWellKeyed(h: LineItem, kt: seq<LineItem>)
    requires WellKeyed(kt)
    requires (h.PizzaLine? ==> h.id == KeyOf(h)) && (h.OtherLine? ==> h.id == h.item.id)
    ensures WellKeyed([h] + kt)
  {
    var r := [h] + kt;
    forall i | 0 < i < |r|
      ensures (r[i].PizzaLine? ==> r[i].id == KeyOf(r[i])) && (r[i].OtherLine? ==> r[i].id == r[i].item.id)
    {
      assert r[i] == kt[i - 1];
    }
  }

  lemma IncLinePreservesInvariant(lines: seq<LineItem>, id: string)
    requires CartInvariant(lines)
    ensures CartInvariant(IncLine(lines, id))
  {
    var r := IncLine(lines, id);
    forall i, j | 0 <= i < j < |r| ensures !Clash(r[i], r[j]) {
      assert Clash(r[i], r[j]) == Clash(lines[i], lines[j]);
    }
  }
}
