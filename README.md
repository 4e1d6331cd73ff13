# Bike shop catalog core, in Dafny

A model of the logic inside a React Native bike shop app, with proofs of its
behaviour. The model covers four pieces:

- **The `bikes` Redux slice.** It holds the product list, the catalog fetch
  lifecycle (`status`, `error`), the selected category filter, and the
  add-product lifecycle (`addStatus`, `addError`).
  - `BikesSlice.Reduce` is the reducer as a pure function, and `ReduceAll`
    applies it to a log of actions.
  - `BikesSlice.BikesStore` is the store object. Each of its methods assigns
    the fields of the state in place, as the reducers do, and is proved to
    agree with `Reduce`.
  - The `fetchBikes` and `addBike` thunks are modelled by the two-action
    lifecycles they dispatch. The HTTP outcome is a parameter.
- **The multipart body that `addBike` posts.** This covers the text parts in
  their order, the file name (`uri.split("/").pop()`), and the MIME type taken
  from `/\.(\w+)$/`.
- **The two "Add Product" screens.** Each has a validator that fills an error
  object key by key (`ValidateForm`) and a submit gate (`HandleSubmit`).
  - The store-wired screen (`screen/add.js`) does not trim `category` and
    ignores `owner`.
  - The stand-alone screen (`screnn/add.js`) trims `category`, requires
    `owner`, and only shows an alert.
  - On both screens the input handlers can never set `price`, so no draft a
    user can reach passes validation.
- **The catalog screens.** This covers the idle-only fetch trigger, the choice
  of loading, error or grid view, the `"All"`-or-category filter, the
  discounted price, and the hard-coded six-bike lists.

JavaScript's string semantics are written out in `Text`:

- `trim` removes the ECMAScript white-space and line-terminator set.
- `!s.trim()` holds exactly when `s` is all white space.
- `isNaN` and `Number` are modelled as a decimal numeral grammar (optional
  sign, digits, optional fraction) read after trimming.

Three behaviours of the code worth stating, since a reader might expect otherwise:

- The reducer has no guard that merges a second fetch into one already in
  flight. A `FetchPending` always sets `loading`.
- `error` is never cleared, not even by a later successful fetch. Only
  `addError` is reset, by `AddPending`.
- The catalog screen dispatches `fetchBikes` only while `status` is `idle`.
  Nothing returns the status to `idle`, so after a failed load the screen
  never fetches again (`FetchTriggeredOnlyBeforeFirstFetch`).

## Model

| member | source | states |
|---|---|---|
| BikesSlice.BikesStore.constructor | redux/bikesSlice.js:56-63 | The initial state: no items, both statuses `idle`, both errors `null`, filter `"All"`. |
| BikesSlice.Reduce | redux/bikesSlice.js:64-95 | Fetch actions leave `addStatus`, `addError` and the filter unchanged. Add actions leave `status`, `error` and the filter unchanged. `setSelectedCategory` touches no list or status. Only a fulfilled fetch can drop items. |
| BikesSlice.BikesStore.SetSelectedCategory | redux/bikesSlice.js:65-67 | Stores the payload verbatim and writes no other field; the new state is `Reduce` of the old one. |
| BikesSlice.BikesStore.FetchPending | redux/bikesSlice.js:71-73 | Sets `status` to loading and writes nothing else. |
| BikesSlice.BikesStore.FetchFulfilled | redux/bikesSlice.js:74-77 | Sets `status` to succeeded and replaces `items` wholesale with the payload. `error` is left as it was. |
| BikesSlice.BikesStore.FetchRejected | redux/bikesSlice.js:78-81 | Sets `status` to failed and stores the message in `error`. `items` is left as it was. |
| BikesSlice.BikesStore.AddPending | redux/bikesSlice.js:83-86 | Sets `addStatus` to loading and clears `addError`. |
| BikesSlice.BikesStore.AddFulfilled | redux/bikesSlice.js:87-90 | Sets `addStatus` to succeeded. The length grows by one, the old items stay a prefix, and the new product comes last. |
| BikesSlice.BikesStore.AddRejected | redux/bikesSlice.js:91-94 | Sets `addStatus` to failed and stores the message in `addError`. `items` is left as it was. |
| BikesSlice.BikesStore.DispatchFetchBikes | redux/bikesSlice.js:5-10 | A `fetchBikes` dispatch takes the store through pending, then fulfilled or rejected, according to the GET's outcome: on success `items` is exactly the returned data and the status is succeeded; on failure the status is failed, `error` holds the message and `items` is kept. |
| BikesSlice.BikesStore.DispatchAddBike | redux/bikesSlice.js:13-52 | An `addBike` dispatch takes the store through pending, then rejected if there is no image or the POST fails, else fulfilled. |
| BikesSlice.FetchBikesActions | redux/bikesSlice.js:5-10 | A fetch dispatches pending first, then one settling fetch action: fulfilled with the GET's data when it succeeded, rejected with its message otherwise. |
| BikesSlice.AddBikeActions | redux/bikesSlice.js:13-52 | An add dispatches pending first, then one settling add action, which is fulfilled exactly when there is an image and the POST succeeded; it carries the POST's product or message, and without an image it is the TypeError's rejection. |
| BikesSlice.ReduceAllAppend | redux/bikesSlice.js:64-95 | Replaying a log and then one more action is the same as reducing that action on the replayed state. |
| BikesSlice.FetchActionsKeepAddAxis | redux/bikesSlice.js:71-81 | A log of fetch actions leaves `addStatus`, `addError` and the filter unchanged. |
| BikesSlice.AddActionsOnlyAppend | redux/bikesSlice.js:83-94 | A log of add actions leaves `status`, `error` and the filter unchanged, and its result is the old items followed by exactly the products it added, in order. |
| BikesSlice.SelectedCategoryIsLastSet | redux/bikesSlice.js:65-67 | After any log, the filter is the payload of the last `setSelectedCategory`, or the starting value if there was none. |
| BikesSlice.IdleUntilFirstFetch | redux/bikesSlice.js:56-81 | From `idle`, the status stays `idle` exactly as long as no fetch action has happened. |
| BikesSlice.NeverBackToIdle | redux/bikesSlice.js:71-81 | Once the status has left `idle`, no log brings it back. |
| BikesSlice.RejectionsKeepItems | redux/bikesSlice.js:78-94 | Either rejection keeps `items` and stores its message. |
| BikesSlice.FailedFetchLifecycle | redux/bikesSlice.js:71-81 | A failed load ends in `failed` with its message and leaves the items and the filter unchanged. |
| BikesSlice.SucceededFetchLifecycle | redux/bikesSlice.js:5-77 | From any state, a successful load ends in succeeded with `items` exactly the payload, and keeps `error`, the filter and the add lifecycle. |
| BikesSlice.FailedAddLifecycle | redux/bikesSlice.js:26-94 | A failed add ends in `failed` and leaves the items and the catalog status unchanged. `addError` is the POST's message, or the TypeError's message when there is no image. |
| Multipart.LastSegment | redux/bikesSlice.js:27 | The file name contains no `/`, ends the URI, and is preceded by a `/` unless it is the whole URI. |
| Multipart.LastSegmentOfPath | redux/bikesSlice.js:27 | A name with no `/` that follows a `/` is exactly what the split returns. |
| Multipart.WordSuffix | redux/bikesSlice.js:28 | Returns the longest run of `\w` characters that ends the text. |
| Multipart.Extension | redux/bikesSlice.js:28 | Present exactly when `/\.(\w+)$/` matches at some position, and then it is the text after the matching `.`. |
| Multipart.ExtensionMatchUnique | redux/bikesSlice.js:28 | The regular expression can match at only one position. |
| Multipart.MimeType | redux/bikesSlice.js:29 | `image/` plus the extension when there is a match, otherwise `image`. |
| Multipart.ExtensionOfDottedName | redux/bikesSlice.js:28 | Worked value: the extension of `b.c.png` is `png`. |
| Multipart.ExtensionOfBareName | redux/bikesSlice.js:28 | Worked value: `photo` has no extension. |
| Multipart.MimeTypeOfDottedName | redux/bikesSlice.js:27-29 | Worked value: the URI `a/b.c.png` gives `image/png`. |
| Multipart.MimeTypeOfBareName | redux/bikesSlice.js:27-29 | Worked value: the URI `a/photo` gives `image`. |
| Multipart.MimeTypeOfDirectory | redux/bikesSlice.js:27-29 | Worked value: the URI `a/` gives an empty file name and `image`. |
| Multipart.BuildFormData | redux/bikesSlice.js:18-35 | There is a body exactly when there is an image; reading the URI of a missing image aborts the thunk. |
| Multipart.TextParts | redux/bikesSlice.js:19-23 | Exactly five parts, all text parts, none of them named `image`. |
| Multipart.ImagePart | redux/bikesSlice.js:26-35 | A file part named `image` that carries the URI unchanged; its name is the URI's last `/`-separated segment (`split("/").pop()`) and its type is the regex-derived MIME type of that name. |
| Multipart.FormDataFieldOrder | redux/bikesSlice.js:19-35 | Parts are in the order `name, price, discountPercent, description, category, image`, carrying the draft's own texts, and the sixth is the image part built from the draft's URI. |
| Multipart.ImagePartShape | redux/bikesSlice.js:26-35 | The image part keeps the URI. Its name has no `/`, ends the URI and is preceded by a `/` unless it is the whole URI. Its type is `image/` plus the extension when the name has one, and `image` otherwise. |
| Text.TrimStart | screen/add.js:82 | Drops exactly the leading white space: the result is a suffix, the dropped part is all white space, and the result does not start with white space. |
| Text.TrimEnd | screen/add.js:82 | Drops exactly the trailing white space, the mirror image of `TrimStart`. |
| Text.Trim | screen/add.js:82 | The trimmed text is never longer than the input and has no white space at either end. |
| Text.TrimIsInnerSlice | screen/add.js:82 | The trimmed text is a contiguous slice of the input with only white space before and after it: nothing is removed from the middle. |
| Text.IsBlank | screen/add.js:82 | `!s.trim()` holds exactly when every character of `s` is white space. |
| Text.EmptyTrimIffAllSpace | screen/add.js:82 | The trimmed text is empty exactly when every character is white space. |
| Text.ParseUnsigned | screen/add.js:88 | An unsigned numeral is never negative and is never empty; a run of digits reads as its decimal value. |
| Text.ParseDecimal | screen/add.js:88-97 | A numeral is never empty, reads negative only when it starts with `-`, and one starting with a digit is read unsigned. |
| Text.ParseUnsignedFractionAt | screen/add.js:88-97 | A numeral `ddd.ddd` is worth its whole part plus its fraction digits divided by ten to the number of fraction digits. |
| Text.ParseUnsignedGrammar | screen/add.js:88-97 | The unsigned parser accepts exactly the unsigned numerals: a non-empty digit run, or digit runs around one point with at least one digit. |
| Text.ParseDecimalGrammar | screen/add.js:88-97 | The signed parser accepts exactly an optional `-` or `+` followed by an unsigned numeral. |
| Text.IsNumeric | screen/add.js:88-97 | A numeric text is never blank, so `isNaN` of a blank field is never what decides it. |
| Text.ToNumber | screen/add.js:88-97 | `Number(s)` is negative only when the trimmed text starts with `-`. |
| Text.DecimalRoundTrip | screen/add.js:88 | For every natural number, its decimal numeral is numeric and reads back as that number. |
| Text.IndexOf | screen/add.js:88 | Finds the first occurrence of a character, or reports that there is none. |
| Text.TrimUnpadded | screen/add.js:82 | A text with no white space at either end is its own trim. |
| Text.NumericUnpadded | screen/add.js:88 | For an unpadded text, the numeric test reads the numeral as written. |
| Text.NumericZero | screen/add.js:94-98 | Worked value: `"0"` is numeric and reads as 0. |
| Text.NumericHundred | screen/add.js:94-98 | Worked value: `"100"` is numeric and reads as 100. |
| Text.NumericPaddedFraction | screnn/add.js:60 | Worked value: `" 12.5 "` is numeric and reads as 12.5, because surrounding white space is ignored. |
| Text.TrimSurroundingSpace | screnn/add.js:60 | One white-space character on each side is exactly what `trim` removes from an unpadded text. |
| Text.NumericNegative | screen/add.js:94-98 | Worked value: `"-1"` reads as -1. |
| Text.NotNumericWord | screen/add.js:88 | Worked value: `"abc"` is not a number. |
| Text.NotNumericTwoPoints | screen/add.js:88 | Worked value: `"1.2.3"` is not a number. |
| Text.NotNumericLonePoint | screen/add.js:88 | Worked value: `"."` is not a number. |
| Forms.FieldErrors.KeyCount | screen/add.js:115 | The key count is zero exactly when no key is present. |
| Forms.DiscountRejected | screen/add.js:95-97 | A discount text passes exactly when it is numeric and its number lies in [0, 100]; a blank text never passes. |
| Forms.ApplyEdit | screen/add.js:68-226 | Each handler writes its own field with the typed text (or the picked image) and keeps every other field, so `price` and `owner` never change. The stand-alone screen's handlers in `screnn/add.js` are the same edits. |
| Forms.DiscountBoundsInclusive | screen/add.js:94-99 | The range is inclusive: `"0"` and `"100"` pass, while `"-1"` and `"abc"` are rejected. |
| Forms.CheckRequired | screen/add.js:82-84 | A required text field gets its message exactly when it is blank after trimming. |
| Forms.CheckPrice | screen/add.js:86-90 | A blank price gets "Price is required". A non-blank, non-numeric price gets "Price must be a number". There is at most one message. |
| Forms.CheckDiscount | screen/add.js:92-100 | A blank discount gets "Discount is required". A non-blank discount that is not a number in [0, 100] gets the range message. |
| Forms.EditsKeepPriceAndOwner | screen/add.js:172-230 | No input handler writes `price` or `owner`. |
| Forms.ReachablePriceAndOwnerBlank | screen/add.js:23-230 | Every draft a user can reach has a blank price and a blank owner. |
| StoreAddForm.ValidateForm | screen/add.js:79-116 | Each key is present exactly when its field breaks its rule, and carries that rule's message. `category` is tested untrimmed and `owner` never. The result is true exactly when no key is set, that is, when every rule holds. |
| StoreAddForm.DispatchAndUnwrap | screen/add.js:120-124 | The store goes through the add lifecycle; an error alert with the add's message appears exactly when the add failed, the same one the status effect shows. |
| StoreAddForm.HandleSubmit | screen/add.js:118-126 | `addBike` is dispatched only when validation passes; otherwise the store is unchanged. A rejected add raises an error alert with its message, which is the same alert the status effect shows. |
| StoreAddForm.ErrorText | screen/add.js:45-123 | The shown text is never empty: it is the message when one is present, else "Failed to add product". |
| StoreAddForm.StatusAlert | screen/add.js:36-47 | An alert appears exactly when the add has succeeded or failed. Its title is "Success" exactly on success. A failure shows the error text. |
| StoreAddForm.AddSucceededAlert | screen/add.js:36-121 | A successful add with an image appends the product and shows the success alert. |
| StoreAddForm.AddFailedAlert | screen/add.js:44-121 | A POST that fails with a message keeps the items and shows that message. |
| StoreAddForm.AddWithoutImageAlert | redux/bikesSlice.js:26 | Without an image, whatever the server would answer, the items are kept and the error alert shows the TypeError's message. |
| StoreAddForm.NeverPasses | screen/add.js:23-230 | No reachable draft passes this screen's validation. |
| StoreAddForm.UntrimmedCategoryAccepted | screen/add.js:102-104 | A category of one space passes the category check although it is blank. |
| LocalAddForm.ValidateForm | screnn/add.js:51-92 | The seven-field variant: `category` is trimmed and `owner` is required. Each key is present exactly when its rule fails, with its message. The result is true exactly when no key is set. |
| LocalAddForm.HandleSubmit | screnn/add.js:94-105 | The success alert appears exactly when validation passes. The owner key is set exactly when the owner is blank. |
| LocalAddForm.NeverPasses | screnn/add.js:17-217 | No reachable draft passes, because `price` and `owner` always stay blank. |
| LocalAddForm.BlankCategoryRejected | screnn/add.js:74-76 | A category of one space is rejected here, unlike on the store-wired screen. |
| LocalAddForm.StricterThanStoreForm | screnn/add.js:51-92 | Every draft this screen accepts is also accepted by the store-wired screen's rules. |
| Catalog.KeepCategory | screen/Screen02.js:36-39 | The filter keeps exactly the items of the selected category and is never longer than the input. |
| Catalog.Filtered | screen/Screen02.js:36-39 | `"All"` returns the items unchanged; any other value applies the category filter. |
| Catalog.IsSubsequenceRefl | screen/Screen02.js:36-38 | A list is a subsequence of itself, which is what `"All"` shows. |
| Catalog.KeepCategoryIsSubsequence | screen/Screen02.js:39 | The filter preserves the relative order of the items it keeps. |
| Catalog.KeepCategoryAppend | screen/Screen02.js:39 | Filtering distributes over concatenation. |
| Catalog.KeepCategorySingle | screen/Screen02.js:39 | A one-item list is kept exactly when its item matches. |
| Catalog.KeepCategoryAllMatch | screen/Screen02.js:39 | When every item matches, the filter returns the whole list. |
| Catalog.NoMatchIsEmpty | screen/Screen02.js:39 | A category that no item carries gives the empty list. |
| Catalog.KeepCategoryPartition | screnn/Screen02.js:66-69 | When every item carries one of two different categories, the two filters together keep every item exactly once (as multisets). |
| Catalog.KeepCategoryIdempotent | screen/Screen02.js:39 | Filtering twice by the same category is the same as filtering once. |
| Catalog.DiscountedPrice | screen/Screen02.js:32-34 | `price - price*d/100` equals `price * (1 - d/100)`. |
| Catalog.DiscountEnds | screnn/Screen03_1.js:16-18 | No discount keeps the price, and a 100% discount gives zero. |
| Catalog.DiscountExample | screen/Screen02.js:32-34 | Worked value: 10% off 100 is 90. |
| Catalog.DiscountMonotone | screnn/Screen03_1.js:16-18 | For a non-negative price, a larger percentage never gives a larger price. |
| Catalog.DiscountWithinPrice | screnn/Screen03_1.js:16-23 | For a price of at least 0 and a percentage in [0, 100], the discounted price lies between 0 and the price. |
| BikeShopScreen.VisibleBikes | screen/Screen02.js:36-39 | `"All"` shows the store's items. Otherwise it shows exactly the items of that category. It is never longer than the item list. |
| BikeShopScreen.ShouldFetch | screen/Screen02.js:21 | The effect fetches exactly when the status is neither loading, succeeded nor failed. |
| BikeShopScreen.SelectView | screen/Screen02.js:72-78 | Loading shows the loading view and failed shows the error view with `error`. Idle and succeeded show the filtered grid. |
| BikeShopScreen.VisibleBikesInOrder | screen/Screen02.js:36-39 | The grid is an order-preserving subsequence of the store's items. |
| BikeShopScreen.FetchTriggeredOnlyBeforeFirstFetch | screen/Screen02.js:20-24 | From the initial state, the effect asks for the catalog exactly as long as no fetch action has happened. |
| BikeShopScreen.FailedFetchShowsError | screen/Screen02.js:20-78 | After a failed load, the screen shows the message, keeps the filter, and does not fetch again. |
| BikeShopScreen.FetchOneProductExample | screen/Screen02.js:20-78 | Worked value: a load returning one product from the initial state ends in succeeded, with a grid of that product. |
| Showcase.Ids | screnn/Screen02_1.js:21-82 | The id list has one entry per bike, in the same order. |
| Showcase.VisibleBikes | screnn/Screen02_1.js:88-91 | `"All"` shows the list as it is. Any other value shows exactly the bikes of that category from the list, never more than the list holds. |
| Showcase.VisibleBikesInOrder | screnn/Screen02_1.js:88-91 | Whatever the selection, the shown list keeps the order of the bikes it shows. |
| Showcase.ShownPrice | screnn/Screen03_1.js:16-23 | The shown price is `calculateDiscountedPrice(price, discountPercent)`; for a price of at least 0 and a discount in [0, 100] it lies between 0 and the list price. |
| Showcase.InitiallyShowsAll | screnn/Screen02.js:13-68 | The initial selection shows the whole list. |
| Showcase.LayoutOfLists | screnn/Screen02_1.js:21-82 | Both hard-coded lists hold bikes 1 to 6 in id order, with categories Mountain, Mountain, Roadbike, Roadbike, Mountain, Mountain. |
| Showcase.MountainSelection | screnn/Screen02_1.js:88-91 | On that layout, "Mountain" shows bikes 1, 2, 5 and 6, in that order. |
| Showcase.RoadbikeSelection | screnn/Screen02.js:66-69 | On that layout, "Roadbike" shows bikes 3 and 4. |
| Showcase.SelectionsPartition | screnn/Screen02.js:66-69 | On the hard-coded layout, the Mountain and Roadbike selections together hold every bike exactly once: their multisets add up to the list's. |
| Showcase.UnknownSelection | screnn/Screen02.js:66-69 | Any other category shows nothing. |
| Showcase.ShownPrices | screnn/Screen02_1.js:84-86 | Every discounted card shows 85% of its price; bike 1 shows 1530. |

## Left out

- HTTP transport: the GET and POST, their headers and the endpoint URL are not modelled. Each request's outcome is a `Result` parameter of the dispatch methods.
- Redux Toolkit, Immer and React scheduling are not modelled. Actions are applied one at a time, in the order given.
- Concurrent or overlapping dispatches are not modelled, and neither is the order in which their results arrive.
- Image picking and its permission request are not modelled; they are device APIs. The draft holds an optional image with its URI.
- `screen/add.js` stores the whole picker result as the image. The model keeps only a URI string for it.
- Layout, styles, navigation and the favourite button are not modelled. The button labels of the alerts are not modelled either.
- `console.log` output is not modelled.
- Showcase.LocalBike: the hard-coded bikes' `description` texts are not modelled; no filter, price or layout computation reads them.
- Text.IsNumeric: a blank text counts as not numeric here, while JavaScript's `isNaN("")` is false and `Number("")` is 0. Neither validator asks about a blank text, since both test for blank first, so no validation result differs.
- JavaScript `Number` coercion is limited to plain decimal numerals. Hexadecimal, exponent and `Infinity` forms are not modelled.
- Floating point and `toFixed(0)` rounding are not modelled. Prices are exact `real`s.
- The detail screen's display of the discount is not modelled beyond the price computation.
- BikesSlice.MissingImageMessage: the TypeError's text depends on the JavaScript engine, so the model uses one fixed message.
- `screnn/Screen03.js`, the two `Screen01.js` screens and `App.js` are not part of this model. They compute nothing.
- Forms.FieldErrors: the error object has a fixed slot per possible key instead of a dynamic dictionary. Key order is not modelled.
