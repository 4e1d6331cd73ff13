/**
 * The `bikes` slice of the Redux store: one state record with two independent
 * request lifecycles (loading the catalog, adding a product) and the selected
 * category filter.
 */
module BikesSlice {
  import opened Basics
  import opened Catalog
  import opened Forms
  import Multipart

  /** `'idle' | 'loading' | 'succeeded' | 'failed'`. */
  datatype Status = Idle | Loading | Succeeded | Failed

  /** A snapshot of the slice. `error` and `addError` are `null` until a rejection sets them. */
  datatype BikesState = BikesState(
    items: seq<Product>,
    status: Status,
    error: Option<string>,
    selectedCategory: string,
    addStatus: Status,
    addError: Option<string>)

  const InitialState: BikesState := BikesState([], Idle, None, AllCategories, Idle, None)

  /** The actions the slice reacts to: its own reducer and the lifecycle actions of the two thunks. */
  datatype Action =
    | SetSelectedCategory(category: string)
    | FetchPending
    | FetchFulfilled(payload: seq<Product>)
    | FetchRejected(message: string)
    | AddPending
    | AddFulfilled(product: Product)
    | AddRejected(message: string)
  {
    predicate IsFetch() {
      FetchPending? || FetchFulfilled? || FetchRejected?
    }

    predicate IsAdd() {
      AddPending? || AddFulfilled? || AddRejected?
    }
  }

  /**
   * The slice reducer: the new state for one action. The two lifecycles and
   * the filter are independent, and only a successful load can drop items.
   */
  function Reduce(s: BikesState, a: Action): (r: BikesState)
    ensures a.IsFetch() ==>
      r.addStatus == s.addStatus && r.addError == s.addError && r.selectedCategory == s.selectedCategory
    ensures a.IsAdd() ==> r.status == s.status && r.error == s.error && r.selectedCategory == s.selectedCategory
    ensures a.SetSelectedCategory? ==> r.items == s.items && r.status == s.status && r.addStatus == s.addStatus
    ensures !a.FetchFulfilled? ==> s.items <= r.items
  {
    match a
    case SetSelectedCategory(c) => s.(selectedCategory := c)
    case FetchPending => s.(status := Loading)
    case FetchFulfilled(payload) => s.(status := Succeeded, items := payload)
    case FetchRejected(m) => s.(status := Failed, error := Some(m))
    case AddPending => s.(addStatus := Loading, addError := None)
    case AddFulfilled(p) => s.(addStatus := Succeeded, items := s.items + [p])
    case AddRejected(m) => s.(addStatus := Failed, addError := Some(m))
  }

  /** The state after a log of actions, applied one at a time from the left. */
  function ReduceAll(s: BikesState, log: seq<Action>): BikesState
    decreases |log|
  {
    if log == [] then s else ReduceAll(Reduce(s, log[0]), log[1..])
  }

  lemma {:induction false} ReduceAllAppend(s: BikesState, log: seq<Action>, a: Action)
    ensures ReduceAll(s, log + [a]) == Reduce(ReduceAll(s, log), a)
    decreases |log|
  {
    if log == [] {
      assert log + [a] == [a];
    } else {
      assert (log + [a])[1..] == log[1..] + [a];
      ReduceAllAppend(Reduce(s, log[0]), log[1..], a);
    }
  }

  lemma ReduceAllPair(s: BikesState, a: Action, b: Action)
    ensures ReduceAll(s, [a, b]) == Reduce(Reduce(s, a), b)
  {
    assert [a, b][0] == a && [a, b][1..] == [b];
    assert ReduceAll(s, [a, b]) == ReduceAll(Reduce(s, a), [b]);
    assert [b][0] == b && [b][1..] == [];
    assert ReduceAll(Reduce(s, a), [b]) == ReduceAll(Reduce(Reduce(s, a), b), []);
  }

  /** The lifecycle of one `fetchBikes` dispatch whose GET resolved with `response`. */
  function FetchBikesActions(response: Result<seq<Product>>): (r: seq<Action>)
    ensures |r| == 2 && r[0] == FetchPending
    ensures r[1].IsFetch() && r[1] != FetchPending
    ensures r[1].FetchFulfilled? <==> response.Ok?
    ensures response.Ok? ==> r[1] == FetchFulfilled(response.value)
    ensures response.Err? ==> r[1] == FetchRejected(response.message)
  {
    match response
    case Ok(payload) => [FetchPending, FetchFulfilled(payload)]
    case Err(m) => [FetchPending, FetchRejected(m)]
  }

  /** The message of the TypeError thrown when the thunk reads `.uri` of a `null` image. */
  const MissingImageMessage: string := "Cannot read property 'uri' of null"

  /**
   * The lifecycle of one `addBike(d)` dispatch. Without an image the thunk
   * throws while building the body (`Multipart.BuildFormData` gives `None`
   * exactly then) and posts nothing; otherwise the POST of that body resolves
   * with `response`.
   */
  function AddBikeActions(d: Draft, response: Result<Product>): (r: seq<Action>)
    ensures |r| == 2 && r[0] == AddPending
    ensures r[1].IsAdd() && r[1] != AddPending
    ensures r[1].AddFulfilled? <==> d.image.Some? && response.Ok?
    ensures d.image.None? ==> r[1] == AddRejected(MissingImageMessage)
    ensures d.image.Some? && response.Ok? ==> r[1] == AddFulfilled(response.value)
    ensures d.image.Some? && response.Err? ==> r[1] == AddRejected(response.message)
  {
    if d.image.None? then [AddPending, AddRejected(MissingImageMessage)]
    else match response
      case Ok(p) => [AddPending, AddFulfilled(p)]
      case Err(m) => [AddPending, AddRejected(m)]
  }

  /** Catalog actions never touch the add lifecycle or the filter. */
  lemma {:induction false} FetchActionsKeepAddAxis(s: BikesState, log: seq<Action>)
    requires forall i :: 0 <= i < |log| ==> log[i].IsFetch()
    ensures ReduceAll(s, log).addStatus == s.addStatus
    ensures ReduceAll(s, log).addError == s.addError
    ensures ReduceAll(s, log).selectedCategory == s.selectedCategory
    decreases |log|
  {
    if log != [] {
      FetchActionsKeepAddAxis(Reduce(s, log[0]), log[1..]);
    }
  }

  /** The products appended by the successful adds of a log, in order. */
  function AddedProducts(log: seq<Action>): seq<Product> {
    if log == [] then []
    else (if log[0].AddFulfilled? then [log[0].product] else []) + AddedProducts(log[1..])
  }

  /**
   * Add actions never touch the catalog lifecycle or the filter, and only ever
   * append to `items`: the old items stay a prefix, followed by the added products.
   */
  lemma {:induction false} AddActionsOnlyAppend(s: BikesState, log: seq<Action>)
    requires forall i :: 0 <= i < |log| ==> log[i].IsAdd()
    ensures ReduceAll(s, log).status == s.status
    ensures ReduceAll(s, log).error == s.error
    ensures ReduceAll(s, log).selectedCategory == s.selectedCategory
    ensures ReduceAll(s, log).items == s.items + AddedProducts(log)
    decreases |log|
  {
    if log != [] {
      var s', rest := Reduce(s, log[0]), log[1..];
      assert forall i :: 0 <= i < |rest| ==> rest[i] == log[i + 1];
      AddActionsOnlyAppend(s', rest);
      var head := if log[0].AddFulfilled? then [log[0].product] else [];
      assert s'.items == s.items + head;
      assert AddedProducts(log) == head + AddedProducts(rest);
      assert s.items + head + AddedProducts(rest) == s.items + (head + AddedProducts(rest));
    }
  }

  /** The category of the last `setSelectedCategory` in the log, or `dflt` if there is none. */
  function LastCategory(log: seq<Action>, dflt: string): string
    decreases |log|
  {
    if log == [] then dflt
    else LastCategory(log[1..], if log[0].SetSelectedCategory? then log[0].category else dflt)
  }

  /** The filter holds exactly what the last `setSelectedCategory` stored, verbatim. */
  lemma {:induction false} SelectedCategoryIsLastSet(s: BikesState, log: seq<Action>)
    ensures ReduceAll(s, log).selectedCategory == LastCategory(log, s.selectedCategory)
    decreases |log|
  {
    if log != [] {
      SelectedCategoryIsLastSet(Reduce(s, log[0]), log[1..]);
    }
  }

  /**
   * Nothing leads back to `idle`: from the initial state the catalog status is
   * `idle` exactly as long as no catalog action has happened.
   */
  lemma {:induction false} IdleUntilFirstFetch(s: BikesState, log: seq<Action>)
    requires s.status == Idle
    ensures ReduceAll(s, log).status == Idle <==> forall i :: 0 <= i < |log| ==> !log[i].IsFetch()
    decreases |log|
  {
    if log != [] {
      if log[0].IsFetch() {
        NeverBackToIdle(Reduce(s, log[0]), log[1..]);
      } else {
        IdleUntilFirstFetch(Reduce(s, log[0]), log[1..]);
        assert forall i :: 1 <= i < |log| ==> log[i] == log[1..][i - 1];
      }
    }
  }

  lemma {:induction false} NeverBackToIdle(s: BikesState, log: seq<Action>)
    requires s.status != Idle
    ensures ReduceAll(s, log).status != Idle
    decreases |log|
  {
    if log != [] {
      NeverBackToIdle(Reduce(s, log[0]), log[1..]);
    }
  }

  /** A failed load keeps the items, and a failed add keeps them too. */
  lemma RejectionsKeepItems(s: BikesState, m: string)
    ensures Reduce(s, FetchRejected(m)).items == s.items
    ensures Reduce(s, AddRejected(m)).items == s.items
    ensures Reduce(s, AddRejected(m)).addError == Some(m)
    ensures Reduce(s, FetchRejected(m)).error == Some(m)
  {
  }

  /** A catalog request that fails leaves the items and the filter as they were, with its message stored. */
  lemma FailedFetchLifecycle(s: BikesState, m: string)
    ensures var t := ReduceAll(s, FetchBikesActions(Err(m)));
      t.status == Failed && t.error == Some(m) && t.items == s.items
      && t.selectedCategory == s.selectedCategory
  {
    ReduceAllPair(s, FetchPending, FetchRejected(m));
  }

  /** A load whose GET succeeds stores exactly the payload and touches nothing else. */
  lemma SucceededFetchLifecycle(s: BikesState, payload: seq<Product>)
    ensures var t := ReduceAll(s, FetchBikesActions(Ok(payload)));
      && t.status == Succeeded && t.items == payload && t.error == s.error
      && t.selectedCategory == s.selectedCategory && t.addStatus == s.addStatus && t.addError == s.addError
  {
    ReduceAllPair(s, FetchPending, FetchFulfilled(payload));
  }

  /**
   * An add that fails leaves the items as they were and stores the message:
   * the POST's, or the TypeError's when there is no image.
   */
  lemma FailedAddLifecycle(s: BikesState, d: Draft, m: string)
    ensures var t := ReduceAll(s, AddBikeActions(d, Err(m)));
      t.addStatus == Failed && t.addError.Some? && t.items == s.items && t.status == s.status
    ensures d.image.Some? ==> ReduceAll(s, AddBikeActions(d, Err(m))).addError == Some(m)
    ensures d.image.None? ==> ReduceAll(s, AddBikeActions(d, Err(m))).addError == Some(MissingImageMessage)
  {
    if d.image.None? {
      ReduceAllPair(s, AddPending, AddRejected(MissingImageMessage));
    } else {
      ReduceAllPair(s, AddPending, AddRejected(m));
    }
  }

  /**
   * The store object: the reducers assign the fields of the draft state in
   * place, one action at a time.
   */
  class BikesStore {
    var items: seq<Product>
    var status: Status
    var error: Option<string>
    var selectedCategory: string
    var addStatus: Status
    var addError: Option<string>

    function Snapshot(): BikesState
      reads this
    {
      BikesState(items, status, error, selectedCategory, addStatus, addError)
    }

    constructor ()
      ensures items == [] && status == Idle && error == None
      ensures selectedCategory == "All" && addStatus == Idle && addError == None
      ensures Snapshot() == InitialState
    {
      items, status, error := [], Idle, None;
      selectedCategory := AllCategories;
      addStatus, addError := Idle, None;
    }

    method SetSelectedCategory(category: string)
      modifies this`selectedCategory
      ensures selectedCategory == category
      ensures Snapshot() == Reduce(old(Snapshot()), Action.SetSelectedCategory(category))
    {
      selectedCategory := category;
    }

    method FetchPending()
      modifies this`status
      ensures status == Loading
      ensures Snapshot() == Reduce(old(Snapshot()), Action.FetchPending)
    {
      status := Loading;
    }

    method FetchFulfilled(payload: seq<Product>)
      modifies this`status, this`items
      ensures status == Succeeded && items == payload
      ensures Snapshot() == Reduce(old(Snapshot()), Action.FetchFulfilled(payload))
    {
      status := Succeeded;
      items := payload;
    }

    method FetchRejected(message: string)
      modifies this`status, this`error
      ensures status == Failed && error == Some(message)
      ensures Snapshot() == Reduce(old(Snapshot()), Action.FetchRejected(message))
    {
      status := Failed;
      error := Some(message);
    }

    method AddPending()
      modifies this`addStatus, this`addError
      ensures addStatus == Loading && addError == None
      ensures Snapshot() == Reduce(old(Snapshot()), Action.AddPending)
    {
      addStatus := Loading;
      addError := None;
    }

    method AddFulfilled(product: Product)
      modifies this`addStatus, this`items
      ensures addStatus == Succeeded
      ensures |items| == |old(items)| + 1 && items[..|old(items)|] == old(items) && items[|old(items)|] == product
      ensures Snapshot() == Reduce(old(Snapshot()), Action.AddFulfilled(product))
    {
      addStatus := Succeeded;
      items := items + [product];
    }

    method AddRejected(message: string)
      modifies this`addStatus, this`addError
      ensures addStatus == Failed && addError == Some(message)
      ensures Snapshot() == Reduce(old(Snapshot()), Action.AddRejected(message))
    {
      addStatus := Failed;
      addError := Some(message);
    }

    /** `dispatch(fetchBikes())`, with the GET's outcome given as `response`. */
    method DispatchFetchBikes(response: Result<seq<Product>>)
      modifies this`status, this`items, this`error
      ensures Snapshot() == ReduceAll(old(Snapshot()), FetchBikesActions(response))
      ensures response.Ok? ==> status == Succeeded && items == response.value && error == old(error)
      ensures response.Err? ==> status == Failed && error == Some(response.message) && items == old(items)
    {
      ghost var log := FetchBikesActions(response);
      ReduceAllPair(Snapshot(), log[0], log[1]);
      FetchPending();
      match response {
        case Ok(payload) => FetchFulfilled(payload);
        case Err(m) => FetchRejected(m);
      }
    }

    /** `dispatch(addBike(d))`, with the POST's outcome given as `response`. */
    method DispatchAddBike(d: Draft, response: Result<Product>)
      modifies this`addStatus, this`addError, this`items
      ensures Snapshot() == ReduceAll(old(Snapshot()), AddBikeActions(d, response))
    {
      ghost var log := AddBikeActions(d, response);
      ReduceAllPair(Snapshot(), log[0], log[1]);
      AddPending();
      var body := Multipart.BuildFormData(d);
      if body.None? {
        AddRejected(MissingImageMessage);
      } else {
        match response {
          case Ok(p) => AddFulfilled(p);
          case Err(m) => AddRejected(m);
        }
      }
    }
  }
}
