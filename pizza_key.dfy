/**
 * The cart's deduplication key for a pizza: base id, size id and the topping
 * ids sorted and joined with commas, separated by `|`.
 */
module PizzaKey {
  import opened Catalog

  /**
   * The order `Array.prototype.sort` uses for strings when no comparator is
   * given: character by character, with a proper prefix first.
   */
  predicate StrLe(a: string, b: string)
  {
    if a == [] then true
    else if b == [] then false
    else if a[0] != b[0] then a[0] < b[0]
    else StrLe(a[1..], b[1..])
  }

  lemma {:induction false} StrLeReflexive(a: string)
    ensures StrLe(a, a)
  {
    if a != [] {
      StrLeReflexive(a[1..]);
    }
  }

  lemma {:induction false} StrLeTotal(a: string, b: string)
    ensures StrLe(a, b) || StrLe(b, a)
  {
    if a != [] && b != [] && a[0] == b[0] {
      StrLeTotal(a[1..], b[1..]);
    }
  }

  lemma {:induction false} StrLeAntisymmetric(a: string, b: string)
    requires StrLe(a, b) && StrLe(b, a)
    ensures a == b
  {
    if a != [] && b != [] {
      StrLeAntisymmetric(a[1..], b[1..]);
      assert a == [a[0]] + a[1..] && b == [b[0]] + b[1..];
    }
  }

  lemma {:induction false} StrLeTransitive(a: string, b: string, c: string)
    requires StrLe(a, b) && StrLe(b, c)
    ensures StrLe(a, c)
  {
    if a != [] && b != [] && c != [] && a[0] == b[0] && b[0] == c[0] {
      StrLeTransitive(a[1..], b[1..], c[1..]);
    }
  }

  ghost predicate Sorted(s: seq<string>)
  {
    forall i, j :: 0 <= i < j < |s| ==> StrLe(s[i], s[j])
  }

  /** Inserts `x` in front of the first element it does not exceed. */
  function Insert(x: string, s: seq<string>): (r: seq<string>)
    ensures |r| == |s| + 1
  {
    if s == [] then [x]
    else if StrLe(x, s[0]) then [x] + s
    else [s[0]] + Insert(x, s[1..])
  }

  /** Insertion adds exactly `x` and keeps a sorted sequence sorted. */
  lemma {:induction false} InsertSortedPermutation(x: string, s: seq<string>)
    ensures multiset(Insert(x, s)) == multiset(s) + multiset{x}
    ensures Sorted(s) ==> Sorted(Insert(x, s))
  {
    if s == [] {
    } else if StrLe(x, s[0]) {
      assert s == [s[0]] + s[1..];
      if Sorted(s) {
        forall j | 0 <= j < |s| ensures StrLe(x, s[j]) {
          if j > 0 { StrLeTransitive(x, s[0], s[j]); }
        }
        ConsSorted(x, s);
      }
    } else {
      var rest := Insert(x, s[1..]);
      InsertSortedPermutation(x, s[1..]);
      assert s == [s[0]] + s[1..];
      if Sorted(s) {
        assert Sorted(s[1..]);
        InsertBehindHead(x, s, rest);
        ConsSorted(s[0], rest);
      }
    }
  }

  /** A sorted tail below a head that is at most each of its elements is sorted. */
  lemma ConsSorted(h: string, t: seq<string>)
    requires Sorted(t)
    requires forall j :: 0 <= j < |t| ==> StrLe(h, t[j])
    ensures Sorted([h] + t)
  {
    var r := [h] + t;
    forall i, j | 0 <= i < j < |r| ensures StrLe(r[i], r[j]) {
      assert r[j] == t[j - 1];
      if i > 0 { assert r[i] == t[i - 1]; }
    }
  }

  /** When `x` goes behind the head, the head stays at most every element of the rest. */
  lemma InsertBehindHead(x: string, s: seq<string>, rest: seq<string>)
    requires s != [] && Sorted(s) && !StrLe(x, s[0])
    requires multiset(rest) == multiset(s[1..]) + multiset{x}
    ensures forall j :: 0 <= j < |rest| ==> StrLe(s[0], rest[j])
  {
    StrLeTotal(x, s[0]);
    forall j | 0 <= j < |rest| ensures StrLe(s[0], rest[j]) {
      assert rest[j] in multiset(rest);
      if rest[j] != x {
        assert rest[j] in multiset(s[1..]);
        var k :| 0 <= k < |s[1..]| && s[1..][k] == rest[j];
        assert s[k + 1] == rest[j];
      }
    }
  }

  /** `[...ids].sort()`, as an insertion sort; any sorting algorithm gives the same result (SortIsUnique). */
  function Sort(s: seq<string>): (r: seq<string>)
    ensures |r| == |s|
  {
    if s == [] then [] else Insert(s[0], Sort(s[1..]))
  }

  /** The sort's result is sorted and a permutation of its input. */
  lemma {:induction false} SortSortedPermutation(s: seq<string>)
    ensures Sorted(Sort(s))
    ensures multiset(Sort(s)) == multiset(s)
  {
    if s != [] {
      SortSortedPermutation(s[1..]);
      InsertSortedPermutation(s[0], Sort(s[1..]));
      assert s == [s[0]] + s[1..];
    }
  }

  /** The head of a sorted sequence is at most every member of it. */
  lemma SortedHeadIsLeast(s: seq<string>, x: string)
    requires Sorted(s) && x in s
    ensures StrLe(s[0], x)
  {
    var k :| 0 <= k < |s| && s[k] == x;
    if k == 0 { StrLeReflexive(x); }
  }

  lemma MultisetCancel(x: string, m: multiset<string>, n: multiset<string>)
    requires multiset{x} + m == multiset{x} + n
    ensures m == n
  {
    forall y ensures m[y] == n[y] {
      assert (multiset{x} + m)[y] == (multiset{x} + n)[y];
    }
  }

  /** Two sorted sequences with the same elements are the same sequence. */
  lemma {:induction false} SortedUnique(a: seq<string>, b: seq<string>)
    requires Sorted(a) && Sorted(b)
    requires multiset(a) == multiset(b)
    ensures a == b
  {
    assert |a| == |multiset(a)| == |multiset(b)| == |b|;
    if a != [] {
      assert a[0] in multiset(b) && b[0] in multiset(a);
      SortedHeadIsLeast(b, a[0]);
      SortedHeadIsLeast(a, b[0]);
      StrLeAntisymmetric(a[0], b[0]);
      var a', b' := a[1..], b[1..];
      assert a == [a[0]] + a' && b == [b[0]] + b';
      assert multiset(a) == multiset{a[0]} + multiset(a');
      assert multiset(b) == multiset{b[0]} + multiset(b');
      MultisetCancel(a[0], multiset(a'), multiset(b'));
      assert Sorted(a') && Sorted(b');
      SortedUnique(a', b');
    }
  }

  /** Any sequence that is sorted and has the input's elements is the one Sort returns. */
  lemma SortIsUnique(s: seq<string>, r: seq<string>)
    requires Sorted(r) && multiset(r) == multiset(s)
    ensures r == Sort(s)
  {
    SortSortedPermutation(s);
    SortedUnique(r, Sort(s));
  }

  /** `ids.join(sep)`. */
  function Join(sep: string, s: seq<string>): (r: string)
    ensures |s| == 1 ==> r == s[0]
    ensures |s| == 0 ==> r == ""
  {
    if |s| == 0 then ""
    else if |s| == 1 then s[0]
    else s[0] + sep + Join(sep, s[1..])
  }

  /** `makePizzaKey(baseId, c)`. */
  function MakePizzaKey(baseId: string, c: PizzaCustomization): (k: string)
    ensures |k| > |baseId| + |c.sizeId| + 1
    ensures k[..|baseId|] == baseId && k[|baseId|] == '|'
    ensures k[|baseId| + 1..|baseId| + 1 + |c.sizeId|] == c.sizeId && k[|baseId| + 1 + |c.sizeId|] == '|'
  {
    baseId + "|" + c.sizeId + "|" + Join(",", Sort(c.toppingIds))
  }

  /** The key depends on the topping ids only as a multiset: click order does not matter. */
  lemma {:induction false} PizzaKeyIgnoresToppingOrder(baseId: string, c1: PizzaCustomization, c2: PizzaCustomization)
    requires c1.sizeId == c2.sizeId
    requires multiset(c1.toppingIds) == multiset(c2.toppingIds)
    ensures MakePizzaKey(baseId, c1) == MakePizzaKey(baseId, c2)
  {
    SortSortedPermutation(c1.toppingIds);
    SortSortedPermutation(c2.toppingIds);
    SortedUnique(Sort(c1.toppingIds), Sort(c2.toppingIds));
  }

  /** Cutting at the first separator: a prefix free of `sep` is determined by the whole. */
  lemma SplitAtSeparator(x: string, y: string, x': string, y': string, sep: char)
    requires sep !in x && sep !in x'
    requires x + [sep] + y == x' + [sep] + y'
    ensures x == x' && y == y'
  {
    var w := x + [sep] + y;
    assert w[|x|] == sep && w[|x'|] == sep;
    if |x| != |x'| {
      assert false;
    }
    assert x == w[..|x|] && x' == w[..|x'|];
    assert y == w[|x| + 1..] && y' == w[|x'| + 1..];
  }

  /** Topping ids that a key can be decoded from: none empty, none containing a comma. */
  ghost predicate KeySafeToppings(ids: seq<string>)
  {
    forall t :: t in ids ==> t != "" && ',' !in t
  }

  lemma {:induction false} JoinInjective(a: seq<string>, b: seq<string>)
    requires KeySafeToppings(a) && KeySafeToppings(b)
    requires Join(",", a) == Join(",", b)
    ensures a == b
  {
    if |a| > 1 && |b| > 1 {
      assert a[0] in a && b[0] in b;
      assert Join(",", a) == a[0] + [','] + Join(",", a[1..]);
      assert Join(",", b) == b[0] + [','] + Join(",", b[1..]);
      SplitAtSeparator(a[0], Join(",", a[1..]), b[0], Join(",", b[1..]), ',');
      assert KeySafeToppings(a[1..]) && KeySafeToppings(b[1..]) by {
        forall t | t in a[1..] ensures t in a { }
        forall t | t in b[1..] ensures t in b { }
      }
      JoinInjective(a[1..], b[1..]);
      assert a == [a[0]] + a[1..] && b == [b[0]] + b[1..];
    } else if |a| == 1 && |b| == 1 {
    } else if |a| == 0 && |b| == 0 {
    } else if |a| == 0 {
      JoinHasHead(b);
      assert false;
    } else if |b| == 0 {
      JoinHasHead(a);
      assert false;
    } else if |a| == 1 {
      JoinSingleHasNoComma(a, b);
      assert false;
    } else {
      JoinSingleHasNoComma(b, a);
      assert false;
    }
  }

  /** A join of a non-empty list starts with its (non-empty) first element, so it is not empty. */
  lemma JoinHasHead(a: seq<string>)
    requires |a| > 0 && KeySafeToppings(a)
    ensures Join(",", a) != ""
  {
    assert a[0] in a;
    if |a| > 1 {
      assert |Join(",", a)| >= |a[0]|;
    }
  }

  /** A single comma-free id never joins to the same text as two or more ids. */
  lemma JoinSingleHasNoComma(a: seq<string>, b: seq<string>)
    requires |a| == 1 && KeySafeToppings(a) && |b| > 1
    ensures Join(",", a) != Join(",", b)
  {
    assert a[0] in a;
    var j := Join(",", b);
    assert j == b[0] + [','] + Join(",", b[1..]);
    assert j[|b[0]|] == ',';
  }

  lemma KeyParts(b: string, c: PizzaCustomization)
    ensures MakePizzaKey(b, c) == b + ['|'] + (c.sizeId + ['|'] + Join(",", Sort(c.toppingIds)))
  {
  }

  lemma SortKeepsKeySafe(ids: seq<string>)
    requires KeySafeToppings(ids)
    ensures KeySafeToppings(Sort(ids))
  {
    SortSortedPermutation(ids);
    forall t | t in Sort(ids) ensures t in ids {
      assert t in multiset(Sort(ids));
    }
  }

  /**
   * With ids free of the separators (as every id in the catalog is), equal keys
   * mean the same base, the same size and the same toppings up to order: a
   * pizza with a different topping set gets a line of its own.
   */
  lemma PizzaKeyDistinguishes(b1: string, c1: PizzaCustomization, b2: string, c2: PizzaCustomization)
    requires '|' !in b1 && '|' !in b2 && '|' !in c1.sizeId && '|' !in c2.sizeId
    requires KeySafeToppings(c1.toppingIds) && KeySafeToppings(c2.toppingIds)
    requires MakePizzaKey(b1, c1) == MakePizzaKey(b2, c2)
    ensures b1 == b2 && c1.sizeId == c2.sizeId
    ensures multiset(c1.toppingIds) == multiset(c2.toppingIds)
  {
    var s1, s2 := Sort(c1.toppingIds), Sort(c2.toppingIds);
    var j1, j2 := Join(",", s1), Join(",", s2);
    KeyParts(b1, c1);
    KeyParts(b2, c2);
    SplitAtSeparator(b1, c1.sizeId + ['|'] + j1, b2, c2.sizeId + ['|'] + j2, '|');
    SplitAtSeparator(c1.sizeId, j1, c2.sizeId, j2, '|');
    SortKeepsKeySafe(c1.toppingIds);
    SortKeepsKeySafe(c2.toppingIds);
    JoinInjective(s1, s2);
    SortSortedPermutation(c1.toppingIds);
    SortSortedPermutation(c2.toppingIds);
  }
}
