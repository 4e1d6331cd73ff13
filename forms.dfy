/**
 * The product draft both "Add Product" screens edit, the field names their
 * error maps use, and the edits their input handlers make.
 */
module Forms {
  import opened Basics
  import opened Text

  /** The picked image; only its local URI matters to the upload. */
  datatype ImageAsset = ImageAsset(uri: string)

  /** The `productData` record: every text field as typed, the image or `null`. */
  datatype Draft = Draft(
    name: string,
    price: string,
    discountPercent: string,
    description: string,
    category: string,
    owner: string,
    image: Option<ImageAsset>)

  /** The keys a validator may put into its error map. */
  datatype Field = Name | Price | DiscountPercent | Category | Description | Owner | Image

  /**
   * The `newErrors` object: one optional message per key a validator may set.
   * A key is present exactly when its slot holds a message.
   */
  datatype FieldErrors = FieldErrors(
    name: Option<string>,
    price: Option<string>,
    discountPercent: Option<string>,
    category: Option<string>,
    description: Option<string>,
    owner: Option<string>,
    image: Option<string>)
  {
    /** `key in newErrors`. */
    predicate HasKey(key: Field) {
      match key
      case Name => name.Some?
      case Price => price.Some?
      case DiscountPercent => discountPercent.Some?
      case Category => category.Some?
      case Description => description.Some?
      case Owner => owner.Some?
      case Image => image.Some?
    }

    /** `Object.keys(newErrors).length`. */
    function KeyCount(): (n: nat)
      ensures n == 0 <==> !HasKey(Name) && !HasKey(Price) && !HasKey(DiscountPercent) && !HasKey(Category)
                          && !HasKey(Description) && !HasKey(Owner) && !HasKey(Image)
    {
      (if name.Some? then 1 else 0)
      + (if price.Some? then 1 else 0)
      + (if discountPercent.Some? then 1 else 0)
      + (if category.Some? then 1 else 0)
      + (if description.Some? then 1 else 0)
      + (if owner.Some? then 1 else 0)
      + (if image.Some? then 1 else 0)
    }
  }

  /** `{}`: the object a validator starts from. */
  const NoErrors: FieldErrors := FieldErrors(None, None, None, None, None, None, None)

  const NameRequired: string := "Name is required"
  const PriceRequired: string := "Price is required"
  const PriceNotNumber: string := "Price must be a number"
  const DiscountRequired: string := "Discount is required"
  const DiscountOutOfRange: string := "Discount must be between 0 and 100"
  const CategoryRequired: string := "Category is required"
  const DescriptionRequired: string := "Description is required"
  const OwnerRequired: string := "Owner name is required"
  const ImageRequired: string := "Product image is required"

  /** The state both screens start from: every text empty, no image. */
  const InitialDraft: Draft := Draft("", "", "", "", "", "", None)

  /**
   * `isNaN(s) || Number(s) < 0 || Number(s) > 100`, for the non-blank texts
   * the validators ask it about. A blank text is rejected here, while
   * JavaScript reads it as 0; both validators test for blank first.
   */
  predicate DiscountRejected(s: string): (b: bool)
    ensures IsBlank(s) ==> b
    ensures !b <==> IsNumeric(s) && 0.0 <= ToNumber(s) <= 100.0
  {
    !IsNumeric(s) || ToNumber(s) < 0.0 || ToNumber(s) > 100.0
  }

  /** The range check is inclusive: 0 and 100 pass, a negative number and a word do not. */
  lemma DiscountBoundsInclusive()
    ensures !DiscountRejected("0") && !DiscountRejected("100")
    ensures DiscountRejected("-1") && DiscountRejected("abc")
  {
    NumericZero();
    NumericHundred();
    NumericNegative();
    NotNumericWord();
  }

  /** `if (!value.trim()) newErrors.<key> = message`: a required text field. */
  method CheckRequired(value: string, message: string) returns (e: Option<string>)
    ensures e.Some? <==> IsBlank(value)
    ensures e.Some? ==> e.value == message
  {
    e := None;
    if IsBlank(value) {
      e := Some(message);
    }
  }

  /** The price check: required first, then it must read as a number. */
  method CheckPrice(value: string) returns (e: Option<string>)
    ensures e.Some? <==> IsBlank(value) || !IsNumeric(value)
    ensures e == Some(PriceRequired) <==> IsBlank(value)
    ensures e == Some(PriceNotNumber) <==> !IsBlank(value) && !IsNumeric(value)
  {
    e := None;
    if IsBlank(value) {
      e := Some(PriceRequired);
    } else if !IsNumeric(value) {
      e := Some(PriceNotNumber);
    }
  }

  /** The discount check: required first, then a number from 0 to 100 inclusive. */
  method CheckDiscount(value: string) returns (e: Option<string>)
    ensures e.Some? <==> IsBlank(value) || DiscountRejected(value)
    ensures e == Some(DiscountRequired) <==> IsBlank(value)
    ensures e == Some(DiscountOutOfRange) <==> !IsBlank(value) && DiscountRejected(value)
  {
    e := None;
    if IsBlank(value) {
      e := Some(DiscountRequired);
    } else if DiscountRejected(value) {
      e := Some(DiscountOutOfRange);
    }
  }

  /** What an input handler of either screen can do to the draft. */
  datatype Edit =
    | EditName(text: string)
    | EditCategory(text: string)
    | EditDiscount(text: string)
    | EditDescription(text: string)
    | PickImage(asset: ImageAsset)

  /** `setProductData((prev) => ({ ...prev, <field>: value }))`. */
  function ApplyEdit(d: Draft, e: Edit): (r: Draft)
    ensures r.price == d.price && r.owner == d.owner
    ensures e.PickImage? ==> r.image.Some?
    ensures !e.PickImage? ==> r.image == d.image
    ensures e.EditName? ==> r == d.(name := e.text)
    ensures e.EditCategory? ==> r == d.(category := e.text)
    ensures e.EditDiscount? ==> r == d.(discountPercent := e.text)
    ensures e.EditDescription? ==> r == d.(description := e.text)
    ensures e.PickImage? ==> r == d.(image := Some(e.asset))
  {
    match e
    case EditName(t) => d.(name := t)
    case EditCategory(t) => d.(category := t)
    case EditDiscount(t) => d.(discountPercent := t)
    case EditDescription(t) => d.(description := t)
    case PickImage(a) => d.(image := Some(a))
  }

  /** The draft after a session of edits, applied in order. */
  function ApplyEdits(d: Draft, edits: seq<Edit>): Draft
    decreases |edits|
  {
    if edits == [] then d else ApplyEdits(ApplyEdit(d, edits[0]), edits[1..])
  }

  /** No handler writes `price` or `owner`: they keep whatever value the draft started with. */
  lemma {:induction false} EditsKeepPriceAndOwner(d: Draft, edits: seq<Edit>)
    ensures ApplyEdits(d, edits).price == d.price
    ensures ApplyEdits(d, edits).owner == d.owner
    decreases |edits|
  {
    if edits != [] {
      EditsKeepPriceAndOwner(ApplyEdit(d, edits[0]), edits[1..]);
    }
  }

  /** Every draft a user can reach has a blank price and a blank owner. */
  lemma ReachablePriceAndOwnerBlank(edits: seq<Edit>)
    ensures IsBlank(ApplyEdits(InitialDraft, edits).price)
    ensures IsBlank(ApplyEdits(InitialDraft, edits).owner)
  {
    EditsKeepPriceAndOwner(InitialDraft, edits);
  }
}
