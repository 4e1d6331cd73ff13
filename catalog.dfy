/**
 * The catalog derivations shared by every product screen: the category filter
 * behind `filteredBikes` and `calculateDiscountedPrice`.
 */
module Catalog {

  /** One product record as the backend returns it. */
  datatype Product = Product(
    id: string,
    name: string,
    price: real,
    discountPercent: real,
    description: string,
    category: string,
    image: string)

  /** The category value that means "no filtering"; it is also the initial selection. */
  const AllCategories: string := "All"

  function ProductCategory(p: Product): string {
    p.category
  }

  /** `items.filter((bike) => bike.category === selected)`. */
  function KeepCategory<T>(items: seq<T>, categoryOf: T -> string, selected: string): (r: seq<T>)
    ensures |r| <= |items|
    ensures forall x :: x in r ==> x in items && categoryOf(x) == selected
    ensures forall x :: x in items && categoryOf(x) == selected ==> x in r
  {
    if items == [] then []
    else if categoryOf(items[0]) == selected then [items[0]] + KeepCategory(items[1..], categoryOf, selected)
    else KeepCategory(items[1..], categoryOf, selected)
  }

  /** `selected === "All" ? items : items.filter(...)`. */
  function Filtered<T>(items: seq<T>, categoryOf: T -> string, selected: string): (r: seq<T>)
    ensures selected == AllCategories ==> r == items
    ensures selected != AllCategories ==> r == KeepCategory(items, categoryOf, selected)
  {
    if selected == AllCategories then items else KeepCategory(items, categoryOf, selected)
  }

  /** `a` can be obtained from `b` by deleting elements, keeping the order of the rest. */
  ghost predicate IsSubsequence<T>(a: seq<T>, b: seq<T>)
    decreases |b|
  {
    if a == [] then true
    else if b == [] then false
    else (a[0] == b[0] && IsSubsequence(a[1..], b[1..])) || IsSubsequence(a, b[1..])
  }

  /** Every list is a subsequence of itself: deleting nothing. */
  lemma {:induction false} IsSubsequenceRefl<T>(a: seq<T>)
    ensures IsSubsequence(a, a)
    decreases |a|
  {
    if a != [] {
      IsSubsequenceRefl(a[1..]);
    }
  }

  /** The filter keeps the relative order of the items it keeps. */
  lemma {:induction false} KeepCategoryIsSubsequence<T>(items: seq<T>, categoryOf: T -> string, selected: string)
    ensures IsSubsequence(KeepCategory(items, categoryOf, selected), items)
  {
    if items != [] {
      KeepCategoryIsSubsequence(items[1..], categoryOf, selected);
      var rest := KeepCategory(items[1..], categoryOf, selected);
      if categoryOf(items[0]) == selected {
        assert ([items[0]] + rest)[1..] == rest;
      } else if rest != [] {
        assert IsSubsequence(rest, items[1..]);
      }
    }
  }

  /**
   * Filtering distributes over concatenation: together with the one-element
   * cases this determines the filter on every list, so the kept items appear
   * exactly once each and in their original order.
   */
  lemma {:induction false} KeepCategoryAppend<T>(a: seq<T>, b: seq<T>, categoryOf: T -> string, selected: string)
    ensures KeepCategory(a + b, categoryOf, selected)
         == KeepCategory(a, categoryOf, selected) + KeepCategory(b, categoryOf, selected)
  {
    if a == [] {
      assert a + b == b;
    } else {
      assert (a + b)[0] == a[0];
      assert (a + b)[1..] == a[1..] + b;
      KeepCategoryAppend(a[1..], b, categoryOf, selected);
    }
  }

  /** A one-element list is kept exactly when its item matches. */
  lemma KeepCategorySingle<T>(x: T, categoryOf: T -> string, selected: string)
    ensures KeepCategory([x], categoryOf, selected) == if categoryOf(x) == selected then [x] else []
  {
    assert [x][1..] == [];
  }

  /** When every item matches, the filter returns the whole list. */
  lemma {:induction false} KeepCategoryAllMatch<T>(items: seq<T>, categoryOf: T -> string, selected: string)
    requires forall i :: 0 <= i < |items| ==> categoryOf(items[i]) == selected
    ensures KeepCategory(items, categoryOf, selected) == items
  {
    if items != [] {
      KeepCategoryAllMatch(items[1..], categoryOf, selected);
    }
  }

  /** A category that no item carries yields the empty list. */
  lemma NoMatchIsEmpty<T>(items: seq<T>, categoryOf: T -> string, selected: string)
    requires forall x :: x in items ==> categoryOf(x) != selected
    ensures KeepCategory(items, categoryOf, selected) == []
  {
  }

  /**
   * When every item carries one of two different categories, the two
   * filters split the list: each item is kept by exactly one of them.
   */
  lemma {:induction false} KeepCategoryPartition<T>(items: seq<T>, categoryOf: T -> string, c1: string, c2: string)
    requires c1 != c2
    requires forall i :: 0 <= i < |items| ==> categoryOf(items[i]) == c1 || categoryOf(items[i]) == c2
    ensures multiset(KeepCategory(items, categoryOf, c1)) + multiset(KeepCategory(items, categoryOf, c2)) == multiset(items)
  {
    if items != [] {
      KeepCategoryPartition(items[1..], categoryOf, c1, c2);
      assert items == [items[0]] + items[1..];
    }
  }

  /** Filtering twice by the same category is filtering once. */
  lemma {:induction false} KeepCategoryIdempotent<T>(items: seq<T>, categoryOf: T -> string, selected: string)
    ensures KeepCategory(KeepCategory(items, categoryOf, selected), categoryOf, selected)
         == KeepCategory(items, categoryOf, selected)
  {
    var r := KeepCategory(items, categoryOf, selected);
    forall i | 0 <= i < |r| ensures categoryOf(r[i]) == selected {
      assert r[i] in r;
    }
    KeepCategoryAllMatch(r, categoryOf, selected);
  }

  /** `price - (price * discountPercent) / 100`, without the display rounding. */
  function DiscountedPrice(price: real, discountPercent: real): (r: real)
    ensures r == price * (1.0 - discountPercent / 100.0)
  {
    price - (price * discountPercent) / 100.0
  }

  /** No discount leaves the price as it is; a full discount brings it to zero. */
  lemma DiscountEnds(price: real)
    ensures DiscountedPrice(price, 0.0) == price
    ensures DiscountedPrice(price, 100.0) == 0.0
  {
  }

  /** A worked value: 10% off 100 is 90. */
  lemma DiscountExample()
    ensures DiscountedPrice(100.0, 10.0) == 90.0
  {
  }

  /** For a non-negative price, a larger percentage never gives a larger price. */
  lemma DiscountMonotone(price: real, d1: real, d2: real)
    requires price >= 0.0 && d1 <= d2
    ensures DiscountedPrice(price, d2) <= DiscountedPrice(price, d1)
  {
    assert DiscountedPrice(price, d1) - DiscountedPrice(price, d2) == price * (d2 - d1) / 100.0;
    assert price * (d2 - d1) >= 0.0;
  }

  /** For a non-negative price and a percentage in [0, 100] the result lies in [0, price]. */
  lemma DiscountWithinPrice(price: real, discountPercent: real)
    requires price >= 0.0 && 0.0 <= discountPercent <= 100.0
    ensures 0.0 <= DiscountedPrice(price, discountPercent) <= price
  {
    DiscountMonotone(price, 0.0, discountPercent);
    DiscountMonotone(price, discountPercent, 100.0);
  }
}
