/**
 * The catalog screen wired to the store: the fetch trigger, the filtered grid
 * and the choice between the loading, error and grid views.
 */
module BikeShopScreen {
  import opened Basics
  import opened Catalog
  import opened BikesSlice

  /** The effect's guard: `if (status === "idle") dispatch(fetchBikes())`. */
  predicate ShouldFetch(status: Status): (b: bool)
    ensures b <==> !(status.Loading? || status.Succeeded? || status.Failed?)
  {
    status == Idle
  }

  /** What the screen renders. */
  datatype View =
    | LoadingView
    | ErrorView(message: Option<string>)
    | GridView(bikes: seq<Product>)

  /** `filteredBikes`: all items for `"All"`, otherwise the items of the selected category, in order. */
  function VisibleBikes(s: BikesState): (r: seq<Product>)
    ensures s.selectedCategory == AllCategories ==> r == s.items
    ensures |r| <= |s.items|
    ensures s.selectedCategory != AllCategories ==>
      forall p :: p in r <==> p in s.items && p.category == s.selectedCategory
  {
    Filtered(s.items, ProductCategory, s.selectedCategory)
  }

  /** The early returns on `status`, then the grid. */
  function SelectView(s: BikesState): (v: View)
    ensures v.LoadingView? <==> s.status == Loading
    ensures v.ErrorView? <==> s.status == Failed
    ensures v.ErrorView? ==> v.message == s.error
    ensures v.GridView? <==> s.status == Idle || s.status == Succeeded
    ensures v.GridView? ==> v.bikes == VisibleBikes(s)
  {
    match s.status
    case Loading => LoadingView
    case Failed => ErrorView(s.error)
    case _ => GridView(VisibleBikes(s))
  }

  /** The grid keeps the store's order: it is a subsequence of `items`. */
  lemma VisibleBikesInOrder(s: BikesState)
    ensures IsSubsequence(VisibleBikes(s), s.items)
  {
    if s.selectedCategory == AllCategories {
      IsSubsequenceRefl(s.items);
    } else {
      KeepCategoryIsSubsequence(s.items, ProductCategory, s.selectedCategory);
    }
  }

  /**
   * Starting from the initial state, the effect asks for the catalog exactly
   * as long as no catalog action has happened; once one has, it never asks
   * again, whatever the outcome.
   */
  lemma FetchTriggeredOnlyBeforeFirstFetch(log: seq<Action>)
    ensures ShouldFetch(ReduceAll(InitialState, log).status)
        <==> forall i :: 0 <= i < |log| ==> !log[i].IsFetch()
  {
    IdleUntilFirstFetch(InitialState, log);
  }

  /** After a failed load the error view shows the message and the filter survives. */
  lemma FailedFetchShowsError(s: BikesState, m: string)
    ensures var t := ReduceAll(s, FetchBikesActions(Err(m)));
      SelectView(t) == ErrorView(Some(m)) && t.selectedCategory == s.selectedCategory && !ShouldFetch(t.status)
  {
    FailedFetchLifecycle(s, m);
  }

  /** A load returning one product from the initial state shows exactly that product. */
  lemma FetchOneProductExample(p: Product)
    ensures var t := ReduceAll(InitialState, FetchBikesActions(Ok([p])));
      t.status == Succeeded && t.items == [p] && SelectView(t) == GridView([p])
  {
    ReduceAllPair(InitialState, FetchPending, FetchFulfilled([p]));
  }
}
