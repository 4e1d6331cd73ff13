/**
 * The two catalog screens that work on a hard-coded list instead of the
 * store, and the detail screen's price: a local `selectedCategory` state
 * (initially `"All"`), the same category filter, and the discounted price.
 */
module Showcase {
  import opened Basics
  import opened Catalog

  /** One entry of a hard-coded list; `discountPercent` is `None` on the list that has no discounts. */
  datatype LocalBike = LocalBike(
    id: nat,
    name: string,
    price: real,
    discountPercent: Option<real>,
    image: string,
    category: string)

  function BikeCategory(b: LocalBike): string {
    b.category
  }

  function Ids(bikes: seq<LocalBike>): (r: seq<nat>)
    ensures |r| == |bikes|
    ensures forall i :: 0 <= i < |bikes| ==> r[i] == bikes[i].id
  {
    if bikes == [] then [] else [bikes[0].id] + Ids(bikes[1..])
  }

  /** The six bikes of the discounted list, every one at 15% off. */
  const DiscountedBikes: seq<LocalBike> := [
    LocalBike(1, "Pinarello", 1800.0, Some(15.0), "1.png", "Mountain"),
    LocalBike(2, "Pina Mountai", 1700.0, Some(15.0), "2.png", "Mountain"),
    LocalBike(3, "Pina Bike", 1500.0, Some(15.0), "3.png", "Roadbike"),
    LocalBike(4, "Pinarello", 1900.0, Some(15.0), "4.png", "Roadbike"),
    LocalBike(5, "Pinarello", 2700.0, Some(15.0), "5.png", "Mountain"),
    LocalBike(6, "Pinarello", 1350.0, Some(15.0), "6.png", "Mountain")
  ]

  /** The same six bikes without a discount field. */
  const PlainBikes: seq<LocalBike> := [
    LocalBike(1, "Pinarello", 1800.0, None, "1.png", "Mountain"),
    LocalBike(2, "Pina Mountai", 1700.0, None, "2.png", "Mountain"),
    LocalBike(3, "Pina Bike", 1500.0, None, "3.png", "Roadbike"),
    LocalBike(4, "Pinarello", 1900.0, None, "4.png", "Roadbike"),
    LocalBike(5, "Pinarello", 2700.0, None, "5.png", "Mountain"),
    LocalBike(6, "Pinarello", 1350.0, None, "6.png", "Mountain")
  ]

  /** The `useState` initial value of the local filter. */
  const InitialSelection: string := AllCategories

  /** `filteredBikes` over a hard-coded list. */
  function VisibleBikes(bikes: seq<LocalBike>, selected: string): (r: seq<LocalBike>)
    ensures selected == AllCategories ==> r == bikes
    ensures |r| <= |bikes|
    ensures forall b :: b in r ==> b in bikes
    ensures selected != AllCategories ==> forall b :: b in r ==> b.category == selected
    ensures selected != AllCategories ==> forall b :: b in bikes && b.category == selected ==> b in r
  {
    Filtered(bikes, BikeCategory, selected)
  }

  /** The list keeps the order of the bikes it shows. */
  lemma VisibleBikesInOrder(bikes: seq<LocalBike>, selected: string)
    ensures IsSubsequence(VisibleBikes(bikes, selected), bikes)
  {
    if selected == AllCategories {
      IsSubsequenceRefl(bikes);
    } else {
      KeepCategoryIsSubsequence(bikes, BikeCategory, selected);
    }
  }

  /** The price a card or the detail screen shows, before display rounding. */
  function ShownPrice(b: LocalBike): (r: real)
    requires b.discountPercent.Some?
    ensures r == DiscountedPrice(b.price, b.discountPercent.value)
    ensures 0.0 <= b.price && 0.0 <= b.discountPercent.value <= 100.0 ==> 0.0 <= r <= b.price
  {
    DiscountWithinPriceIf(b.price, b.discountPercent.value);
    DiscountedPrice(b.price, b.discountPercent.value)
  }

  lemma DiscountWithinPriceIf(price: real, d: real)
    ensures 0.0 <= price && 0.0 <= d <= 100.0 ==> 0.0 <= DiscountedPrice(price, d) <= price
  {
    if 0.0 <= price && 0.0 <= d <= 100.0 {
      DiscountWithinPrice(price, d);
    }
  }

  /** Before any tap, both screens show their whole list. */
  lemma InitiallyShowsAll(bikes: seq<LocalBike>)
    ensures VisibleBikes(bikes, InitialSelection) == bikes
  {
  }

  /** Both lists lay out their categories as Mountain, Mountain, Roadbike, Roadbike, Mountain, Mountain. */
  predicate ShowcaseLayout(bikes: seq<LocalBike>) {
    && |bikes| == 6
    && bikes[0].category == "Mountain" && bikes[1].category == "Mountain"
    && bikes[2].category == "Roadbike" && bikes[3].category == "Roadbike"
    && bikes[4].category == "Mountain" && bikes[5].category == "Mountain"
  }

  lemma LayoutOfLists()
    ensures ShowcaseLayout(DiscountedBikes) && ShowcaseLayout(PlainBikes)
    ensures Ids(DiscountedBikes) == [1, 2, 3, 4, 5, 6] && Ids(PlainBikes) == [1, 2, 3, 4, 5, 6]
  {
  }

  /** On that layout, "Mountain" keeps the first, second, fifth and sixth bike. */
  lemma MountainSelection(bikes: seq<LocalBike>)
    requires ShowcaseLayout(bikes)
    ensures VisibleBikes(bikes, "Mountain") == [bikes[0], bikes[1], bikes[4], bikes[5]]
  {
    SelectionUnfolded(bikes, "Mountain");
    assert "Mountain"[0] != "Roadbike"[0];
    Kept(bikes[0], "Mountain");
    Kept(bikes[1], "Mountain");
    Dropped(bikes[2], "Mountain");
    Dropped(bikes[3], "Mountain");
    Kept(bikes[4], "Mountain");
    Kept(bikes[5], "Mountain");
  }

  /** On that layout, "Roadbike" keeps the third and fourth bike. */
  lemma RoadbikeSelection(bikes: seq<LocalBike>)
    requires ShowcaseLayout(bikes)
    ensures VisibleBikes(bikes, "Roadbike") == [bikes[2], bikes[3]]
  {
    SelectionUnfolded(bikes, "Roadbike");
    assert "Mountain"[0] != "Roadbike"[0];
    Dropped(bikes[0], "Roadbike");
    Dropped(bikes[1], "Roadbike");
    Kept(bikes[2], "Roadbike");
    Kept(bikes[3], "Roadbike");
    Dropped(bikes[4], "Roadbike");
    Dropped(bikes[5], "Roadbike");
  }

  lemma Kept(b: LocalBike, selected: string)
    requires b.category == selected
    ensures KeepCategory([b], BikeCategory, selected) == [b]
  {
    KeepCategorySingle(b, BikeCategory, selected);
  }

  lemma Dropped(b: LocalBike, selected: string)
    requires b.category != selected
    ensures KeepCategory([b], BikeCategory, selected) == []
  {
    KeepCategorySingle(b, BikeCategory, selected);
  }

  /** The two category filters split the list: together they keep every bike once. */
  lemma SelectionsPartition(bikes: seq<LocalBike>)
    requires ShowcaseLayout(bikes)
    ensures multiset(VisibleBikes(bikes, "Mountain")) + multiset(VisibleBikes(bikes, "Roadbike")) == multiset(bikes)
  {
    assert "Mountain"[0] != "Roadbike"[0];
    KeepCategoryPartition(bikes, BikeCategory, "Mountain", "Roadbike");
  }

  /** A category no bike carries (say, one typed with different case) shows nothing. */
  lemma UnknownSelection(bikes: seq<LocalBike>, selected: string)
    requires ShowcaseLayout(bikes)
    requires selected != AllCategories && selected != "Mountain" && selected != "Roadbike"
    ensures VisibleBikes(bikes, selected) == []
  {
    forall b | b in bikes ensures b.category != selected {
      var i :| 0 <= i < |bikes| && bikes[i] == b;
    }
    NoMatchIsEmpty(bikes, BikeCategory, selected);
  }

  /** Every discounted card shows 85% of the list price: 1800 becomes 1530. */
  lemma ShownPrices()
    ensures forall b :: b in DiscountedBikes ==> ShownPrice(b) == b.price * 0.85
    ensures ShownPrice(DiscountedBikes[0]) == 1530.0
  {
  }

  /** Unfolds the filter over a six-element list one item at a time. */
  lemma SelectionUnfolded(bikes: seq<LocalBike>, selected: string)
    requires |bikes| == 6 && selected != AllCategories
    ensures VisibleBikes(bikes, selected)
         == KeepCategory([bikes[0]], BikeCategory, selected) + KeepCategory([bikes[1]], BikeCategory, selected)
          + KeepCategory([bikes[2]], BikeCategory, selected) + KeepCategory([bikes[3]], BikeCategory, selected)
          + KeepCategory([bikes[4]], BikeCategory, selected) + KeepCategory([bikes[5]], BikeCategory, selected)
  {
    assert bikes == [bikes[0]] + [bikes[1]] + [bikes[2]] + [bikes[3]] + [bikes[4]] + [bikes[5]];
    KeepCategoryAppend([bikes[0]] + [bikes[1]] + [bikes[2]] + [bikes[3]] + [bikes[4]], [bikes[5]], BikeCategory, selected);
    KeepCategoryAppend([bikes[0]] + [bikes[1]] + [bikes[2]] + [bikes[3]], [bikes[4]], BikeCategory, selected);
    KeepCategoryAppend([bikes[0]] + [bikes[1]] + [bikes[2]], [bikes[3]], BikeCategory, selected);
    KeepCategoryAppend([bikes[0]] + [bikes[1]], [bikes[2]], BikeCategory, selected);
    KeepCategoryAppend([bikes[0]], [bikes[1]], BikeCategory, selected);
  }
}
