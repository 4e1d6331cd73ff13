/**
 * The "Add Product" screen wired to the store: validation of the draft and
 * the submit gate in front of the `addBike` thunk. Its validator does not
 * trim `category` and does not look at `owner`.
 */
module StoreAddForm {
  import opened Basics
  import opened Text
  import opened Catalog
  import opened Forms
  import opened BikesSlice

  /** Every rule of this screen's validator holds. */
  predicate Passes(d: Draft) {
    && !IsBlank(d.name)
    && !IsBlank(d.price) && IsNumeric(d.price)
    && !IsBlank(d.discountPercent) && !DiscountRejected(d.discountPercent)
    && |d.category| != 0
    && !IsBlank(d.description)
    && d.image.Some?
  }

  /**
   * `validateForm`: every check runs; each violated field gets exactly one
   * message, `owner` is never checked, and the form is accepted exactly when
   * no key was set.
   */
  method ValidateForm(d: Draft) returns (errors: FieldErrors, ok: bool)
    ensures errors.HasKey(Name) <==> IsBlank(d.name)
    ensures errors.HasKey(Price) <==> IsBlank(d.price) || !IsNumeric(d.price)
    ensures errors.HasKey(DiscountPercent) <==> IsBlank(d.discountPercent) || DiscountRejected(d.discountPercent)
    ensures errors.HasKey(Category) <==> |d.category| == 0
    ensures errors.HasKey(Description) <==> IsBlank(d.description)
    ensures errors.HasKey(Image) <==> d.image.None?
    ensures !errors.HasKey(Owner)
    ensures errors.name.Some? ==> errors.name.value == NameRequired
    ensures errors.price == Some(PriceRequired) <==> IsBlank(d.price)
    ensures errors.price == Some(PriceNotNumber) <==> !IsBlank(d.price) && !IsNumeric(d.price)
    ensures errors.discountPercent == Some(DiscountRequired) <==> IsBlank(d.discountPercent)
    ensures errors.discountPercent == Some(DiscountOutOfRange) <==> !IsBlank(d.discountPercent) && DiscountRejected(d.discountPercent)
    ensures errors.category.Some? ==> errors.category.value == CategoryRequired
    ensures errors.description.Some? ==> errors.description.value == DescriptionRequired
    ensures errors.image.Some? ==> errors.image.value == ImageRequired
    ensures ok <==> errors == NoErrors
    ensures ok <==> Passes(d)
  {
    var newErrors := NoErrors;
    var e := CheckRequired(d.name, NameRequired);
    newErrors := newErrors.(name := e);
    e := CheckPrice(d.price);
    newErrors := newErrors.(price := e);
    e := CheckDiscount(d.discountPercent);
    newErrors := newErrors.(discountPercent := e);
    if |d.category| == 0 {
      newErrors := newErrors.(category := Some(CategoryRequired));
    }
    e := CheckRequired(d.description, DescriptionRequired);
    newErrors := newErrors.(description := e);
    if d.image.None? {
      newErrors := newErrors.(image := Some(ImageRequired));
    }
    errors := newErrors;
    ok := newErrors.KeyCount() == 0;
  }

  /** A native alert: its title and its message. */
  datatype Alert = Alert(title: string, message: string)

  const AddedAlert: Alert := Alert("Success", "Product added successfully!")
  const FallbackAddError: string := "Failed to add product"

  /** `message || "Failed to add product"`: a missing or empty message falls back to the generic one. */
  function ErrorText(message: Option<string>): (r: string)
    ensures |r| > 0
    ensures message.Some? && |message.value| > 0 ==> r == message.value
    ensures message.None? || |message.value| == 0 ==> r == FallbackAddError
  {
    if message.Some? && |message.value| > 0 then message.value else FallbackAddError
  }

  /**
   * The effect watching `addStatus`: a success alert (whose button goes back)
   * once an add has succeeded, an error alert once one has failed, nothing
   * while idle or loading.
   */
  function StatusAlert(addStatus: Status, addError: Option<string>): (r: Option<Alert>)
    ensures r.Some? <==> addStatus == Succeeded || addStatus == Failed
    ensures r.Some? ==> (r.value.title == "Success" <==> addStatus == Succeeded)
    ensures addStatus == Failed ==> r.value.message == ErrorText(addError)
  {
    match addStatus
    case Succeeded => Some(AddedAlert)
    case Failed => Some(Alert("Error", ErrorText(addError)))
    case _ => None
  }

  /** After an add whose draft had an image and whose POST succeeded, the effect shows the success alert. */
  lemma AddSucceededAlert(s: BikesState, d: Draft, p: Product)
    requires d.image.Some?
    ensures var t := ReduceAll(s, AddBikeActions(d, Ok(p)));
      StatusAlert(t.addStatus, t.addError) == Some(AddedAlert) && t.items == s.items + [p]
  {
    ReduceAllPair(s, AddPending, AddFulfilled(p));
  }

  /** After an add whose POST failed with a message, the effect shows that message. */
  lemma AddFailedAlert(s: BikesState, d: Draft, m: string)
    requires d.image.Some? && |m| > 0
    ensures var t := ReduceAll(s, AddBikeActions(d, Err(m)));
      StatusAlert(t.addStatus, t.addError) == Some(Alert("Error", m)) && t.items == s.items
  {
    ReduceAllPair(s, AddPending, AddRejected(m));
  }

  /**
   * Without an image no request is made, whatever the server would have
   * answered: the effect shows the TypeError's message.
   */
  lemma AddWithoutImageAlert(s: BikesState, d: Draft, response: Result<Product>)
    requires d.image.None?
    ensures var t := ReduceAll(s, AddBikeActions(d, response));
      StatusAlert(t.addStatus, t.addError) == Some(Alert("Error", MissingImageMessage)) && t.items == s.items
  {
    ReduceAllPair(s, AddPending, AddRejected(MissingImageMessage));
  }

  /**
   * The `try` block of `handleSubmit`: dispatch the add and `unwrap` it; a
   * rejected add throws, and the `catch` shows its message in an error alert.
   */
  method DispatchAndUnwrap(store: BikesStore, d: Draft, response: Result<Product>) returns (alert: Option<Alert>)
    modifies store`addStatus, store`addError, store`items
    ensures store.Snapshot() == ReduceAll(old(store.Snapshot()), AddBikeActions(d, response))
    ensures alert.Some? <==> store.addStatus == Failed
    ensures alert.Some? ==> alert.value == Alert("Error", ErrorText(store.addError))
    ensures alert.Some? ==> StatusAlert(store.addStatus, store.addError) == alert
  {
    alert := None;
    store.DispatchAddBike(d, response);
    if store.addStatus == Failed {
      alert := Some(Alert("Error", ErrorText(store.addError)));
    }
  }

  /**
   * `handleSubmit`: `addBike` is dispatched only when validation passes;
   * otherwise the store is left exactly as it was. When the dispatched add
   * is rejected, `unwrap` throws and an error alert shows its message, the
   * same alert the status effect shows, so a failed add is reported twice.
   */
  method HandleSubmit(store: BikesStore, d: Draft, response: Result<Product>)
    returns (errors: FieldErrors, dispatched: bool, alert: Option<Alert>)
    modifies store`addStatus, store`addError, store`items
    ensures dispatched <==> Passes(d)
    ensures dispatched <==> errors == NoErrors
    ensures dispatched ==> store.Snapshot() == ReduceAll(old(store.Snapshot()), AddBikeActions(d, response))
    ensures !dispatched ==> store.Snapshot() == old(store.Snapshot())
    ensures alert.Some? <==> dispatched && store.addStatus == Failed
    ensures alert.Some? ==> alert.value == Alert("Error", ErrorText(store.addError))
    ensures alert.Some? ==> StatusAlert(store.addStatus, store.addError) == alert
  {
    alert := None;
    errors, dispatched := ValidateForm(d);
    if dispatched {
      alert := DispatchAndUnwrap(store, d, response);
    }
  }

  /**
   * No input on this screen sets `price`, so no draft a user can reach passes
   * validation: the price is always reported as required.
   */
  lemma NeverPasses(edits: seq<Edit>)
    ensures !Passes(ApplyEdits(InitialDraft, edits))
  {
    ReachablePriceAndOwnerBlank(edits);
  }

  /** A category of a single space passes this screen's category check, since it is not trimmed. */
  lemma UntrimmedCategoryAccepted(d: Draft)
    requires d.category == " "
    ensures |d.category| != 0
    ensures IsBlank(d.category)
  {
    assert IsSpace(d.category[0]);
    assert TrimStart(d.category) == [];
  }
}
