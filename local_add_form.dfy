/**
 * The stand-alone "Add New Product" screen: the same draft and inputs as the
 * store-wired screen, but its validator trims `category`, requires `owner`,
 * and a successful submit only confirms and goes back; nothing is sent.
 */
module LocalAddForm {
  import opened Basics
  import opened Text
  import opened Forms
  import StoreAddForm

  /** Every rule of this screen's validator holds. */
  predicate Passes(d: Draft) {
    && !IsBlank(d.name)
    && !IsBlank(d.price) && IsNumeric(d.price)
    && !IsBlank(d.discountPercent) && !DiscountRejected(d.discountPercent)
    && !IsBlank(d.category)
    && !IsBlank(d.description)
    && !IsBlank(d.owner)
    && d.image.Some?
  }

  /**
   * `validateForm`: every check runs, each violated field gets exactly one
   * message, and the form is accepted exactly when no key was set.
   */
  method ValidateForm(d: Draft) returns (errors: FieldErrors, ok: bool)
    ensures errors.HasKey(Name) <==> IsBlank(d.name)
    ensures errors.HasKey(Price) <==> IsBlank(d.price) || !IsNumeric(d.price)
    ensures errors.HasKey(DiscountPercent) <==> IsBlank(d.discountPercent) || DiscountRejected(d.discountPercent)
    ensures errors.HasKey(Category) <==> IsBlank(d.category)
    ensures errors.HasKey(Description) <==> IsBlank(d.description)
    ensures errors.HasKey(Owner) <==> IsBlank(d.owner)
    ensures errors.HasKey(Image) <==> d.image.None?
    ensures errors.name.Some? ==> errors.name.value == NameRequired
    ensures errors.price == Some(PriceRequired) <==> IsBlank(d.price)
    ensures errors.price == Some(PriceNotNumber) <==> !IsBlank(d.price) && !IsNumeric(d.price)
    ensures errors.discountPercent == Some(DiscountRequired) <==> IsBlank(d.discountPercent)
    ensures errors.discountPercent == Some(DiscountOutOfRange) <==> !IsBlank(d.discountPercent) && DiscountRejected(d.discountPercent)
    ensures errors.category.Some? ==> errors.category.value == CategoryRequired
    ensures errors.description.Some? ==> errors.description.value == DescriptionRequired
    ensures errors.owner.Some? ==> errors.owner.value == OwnerRequired
    ensures errors.image.Some? ==> errors.image.value == ImageRequired
    ensures ok <==> errors == NoErrors
    ensures ok <==> Passes(d)
  {
    var newErrors := NoErrors;
    var e := CheckRequired(d.name, NameRequired);
    newErrors := newErrors.(name := e);
    e := CheckPrice(d.price);
    newErrors := newErrors.(price := e);
    e := CheckDiscount(d.discountPercent);
    newErrors := newErrors.(discountPercent := e);
    e := CheckRequired(d.category, CategoryRequired);
    newErrors := newErrors.(category := e);
    e := CheckRequired(d.description, DescriptionRequired);
    newErrors := newErrors.(description := e);
    e := CheckRequired(d.owner, OwnerRequired);
    newErrors := newErrors.(owner := e);
    if d.image.None? {
      newErrors := newErrors.(image := Some(ImageRequired));
    }
    errors := newErrors;
    ok := newErrors.KeyCount() == 0;
  }

  /**
   * `handleSubmit`: the success alert (whose button goes back) appears exactly
   * when validation passes; the errors shown are the validator's.
   */
  method HandleSubmit(d: Draft) returns (errors: FieldErrors, showSuccess: bool)
    ensures showSuccess <==> Passes(d)
    ensures showSuccess <==> errors == NoErrors
    ensures errors.HasKey(Owner) <==> IsBlank(d.owner)
  {
    errors, showSuccess := ValidateForm(d);
  }

  /**
   * Neither `price` nor `owner` has an input on this screen, so every draft a
   * user can reach is rejected, with both keys set.
   */
  lemma NeverPasses(edits: seq<Edit>)
    ensures !Passes(ApplyEdits(InitialDraft, edits))
  {
    ReachablePriceAndOwnerBlank(edits);
  }

  /** A category of a single space is rejected here, unlike on the store-wired screen. */
  lemma BlankCategoryRejected(d: Draft)
    requires d.category == " "
    ensures !Passes(d)
  {
    assert IsSpace(d.category[0]);
    assert TrimStart(d.category) == [];
  }

  /** Every draft accepted here is also accepted by the store-wired screen's rules. */
  lemma StricterThanStoreForm(d: Draft)
    requires Passes(d)
    ensures StoreAddForm.Passes(d)
  {
  }
}
