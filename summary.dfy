/** The cart's display lines: a title, a subtitle naming size and toppings, and a quantity. */
module Summary {
  import opened Wrappers
  import opened Catalog
  import opened PizzaKey
  import opened Cart

  datatype SummaryLine = SummaryLine(id: string, title: string, subtitle: string, qty: int)

  /** `SIZES.find(...)?.name ?? "Medium"`. */
  function SizeName(sizeId: string): (n: string)
    ensures FindSize(Sizes, sizeId).None? ==> n == "Medium"
    ensures FindSize(Sizes, sizeId).Some? ==> n == FindSize(Sizes, sizeId).value.name
  {
    match FindSize(Sizes, sizeId)
    case Some(s) => s.name
    case None => "Medium"
  }

  /** `ids.map(id => TOPPINGS.find(...)?.name).filter(Boolean)`: known, non-empty names, in click order. */
  function ToppingNames(ids: seq<string>): (names: seq<string>)
    ensures |names| <= |ids|
    ensures forall n :: n in names ==> n != "" && exists t :: t in Toppings && t.name == n
  {
    if ids == [] then [] else NameOf(ids[0]) + ToppingNames(ids[1..])
  }

  /** Topping `id` is in the catalog under the name `n`. */
  ghost predicate NamedBy(id: string, n: string)
  {
    FindTopping(Toppings, id).Some? && FindTopping(Toppings, id).value.name == n
  }

  /** The name one id contributes: its catalog name, or nothing when unknown or empty. */
  function NameOf(id: string): (r: seq<string>)
    ensures |r| <= 1
    ensures forall n :: n in r ==> n != "" && NamedBy(id, n)
    ensures forall n :: NamedBy(id, n) && n != "" ==> r == [n]
  {
    match FindTopping(Toppings, id)
    case Some(t) => if t.name != "" then [t.name] else []
    case None => []
  }

  /** Every name shown is the catalog name of one of the chosen ids. */
  lemma {:induction false} ShownNameIsChosen(ids: seq<string>, n: string)
    requires n in ToppingNames(ids)
    ensures exists k :: 0 <= k < |ids| && NamedBy(ids[k], n)
  {
    if n in NameOf(ids[0]) {
      assert NamedBy(ids[0], n);
    } else {
      ShownNameIsChosen(ids[1..], n);
      var k :| 0 <= k < |ids[1..]| && NamedBy(ids[1..][k], n);
      assert ids[1..][k] == ids[k + 1];
    }
  }

  /** Every chosen id the catalog knows under a non-empty name shows that name. */
  lemma {:induction false} ChosenNameIsShown(ids: seq<string>, k: int)
    requires 0 <= k < |ids| && FindTopping(Toppings, ids[k]).Some? && FindTopping(Toppings, ids[k]).value.name != ""
    ensures FindTopping(Toppings, ids[k]).value.name in ToppingNames(ids)
  {
    var n := FindTopping(Toppings, ids[k]).value.name;
    assert ToppingNames(ids) == NameOf(ids[0]) + ToppingNames(ids[1..]);
    if k == 0 {
      assert NameOf(ids[0]) == [n];
      assert ToppingNames(ids)[0] == n;
    } else {
      assert ids[1..][k - 1] == ids[k];
      ChosenNameIsShown(ids[1..], k - 1);
      assert n in ToppingNames(ids[1..]);
    }
  }

  /** The names follow the clicks: the names of a longer list extend those of its prefix. */
  lemma {:induction false} ToppingNamesAppend(a: seq<string>, b: seq<string>)
    ensures ToppingNames(a + b) == ToppingNames(a) + ToppingNames(b)
  {
    if a == [] {
      assert a + b == b;
    } else {
      assert (a + b)[0] == a[0];
      assert (a + b)[1..] == a[1..] + b;
      ToppingNamesAppend(a[1..], b);
    }
  }

  function Subtitle(c: PizzaCustomization): (s: string)
    ensures ToppingNames(c.toppingIds) == [] ==> s == SizeName(c.sizeId)
    ensures ToppingNames(c.toppingIds) != [] ==>
      s == SizeName(c.sizeId) + " • " + Join(", ", ToppingNames(c.toppingIds))
  {
    var size := SizeName(c.sizeId);
    var toppings := Join(", ", ToppingNames(c.toppingIds));
    JoinEmpty(", ", ToppingNames(c.toppingIds));
    if toppings != "" then size + " • " + toppings else size
  }

  /** Joining non-empty names is empty exactly when there are no names. */
  lemma {:induction false} JoinEmpty(sep: string, names: seq<string>)
    requires forall n :: n in names ==> n != ""
    ensures Join(sep, names) == "" <==> names == []
  {
    if |names| > 1 {
      assert names[0] in names;
      assert |Join(sep, names)| >= |names[0]|;
    } else if |names| == 1 {
      assert names[0] in names;
    }
  }

  function SummaryOf(li: LineItem): SummaryLine
  {
    match li
    case OtherLine(id, item, q) => SummaryLine(id, item.name, "", q)
    case PizzaLine(id, base, q, c) => SummaryLine(id, base.name, Subtitle(c), q)
  }

  /** `summaryLines`: one display line per cart line, in cart order, with its id and quantity. */
  function SummaryLines(lines: seq<LineItem>): (r: seq<SummaryLine>)
    ensures |r| == |lines|
    ensures forall i :: 0 <= i < |lines| ==> r[i].id == lines[i].id && r[i].qty == lines[i].quantity
    ensures forall i :: 0 <= i < |lines| && lines[i].OtherLine? ==> r[i].title == lines[i].item.name && r[i].subtitle == ""
    ensures forall i :: 0 <= i < |lines| && lines[i].PizzaLine? ==> r[i].title == lines[i].base.name && r[i].subtitle == Subtitle(lines[i].customization) && r[i].subtitle != ""
  {
    seq(|lines|, i requires 0 <= i < |lines| => SummaryOf(lines[i]))
  }
}
