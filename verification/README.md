# Storefront core, modelled in Dafny

A Dafny model of the deterministic logic of a small clothing storefront (a
Next.js application): the client-side shopping cart, the currency tables it
converts prices with, the product slug and discount helpers, the product-create
and image-upload API handlers, the admin product form and its image list, the
search dialog's filter, and the order functions over the hosted database.

One Dafny module per source file:

| module | file | form |
|---|---|---|
| `Cart` | `contexts/cart-context.tsx` | pure list functions plus the class `CartStore`, whose fields `items`, `currency` and `isOpen` are replaced by each operation |
| `CurrencyTables` | `lib/types.ts` | constant maps and lemmas about them |
| `Products` | `lib/products.ts` | `generateSlug` as four string rewrites and `trim`; the discount formula |
| `ProductRoute` | `app/api/products/route.ts` | the `POST` handler as a function of the request and the database's answer |
| `ImageList` | `components/multi-image-upload.tsx` | add/remove as functions; replace as a method that copies into an array and writes one slot |
| `ProductForm` | `components/forms/product-form.tsx` | initial values and checkbox updaters as functions; the component state as the class `ProductFormComponent` |
| `Search` | `components/search-dialog.tsx` | the filter effect as a function |
| `UploadRoute` | `app/api/upload/route.ts` | the `POST` handler as a function of the request, a generated id and the storage outcome |
| `Orders` | `lib/supabase.ts` | `createOrder` / `getOrderByNumber` as functions of the database's answer |

Shared helpers: `Wrappers` (optional values), `Seqs` (`filter`, `slice(0, n)`),
`JsString` (`toLowerCase` on ASCII, the `\s`/`trim` whitespace class, `trim`,
`includes`).

Conventions. An absent or `null` field is `None`. JavaScript truthiness is
written out where the code relies on it (`""`, `0` and a missing value are
falsy; an empty array is truthy). Prices, rates and percentages are `real`;
quantities are `int`. A call into code outside the model (the database, the
file system, `onSubmit`) becomes a parameter carrying its outcome, and the
handler returns, besides its reply, the payload it handed to that call (`None`
when it never made the call), so "rejected before any write" is a statement
about the result.

Notes on behaviour the model makes explicit:

- Cart lines are merged by (product id, size), but `addItem` then increments
  every line whose *id* equals the found line's id, and `removeItem` /
  `updateQuantity` act on every line with the given id. Ids are
  `productId-size-timestamp`, with a missing or empty size both written
  `no-size`, so two lines can share an id; "exactly one line changes" is
  proved under `UniqueIds`.
- The final `trim` of `generateSlug` never has anything to remove: spaces have
  already become hyphens, so a leading or trailing space gives a leading or
  trailing hyphen.
- The product form's "In stock" box is sent to the create route, which stores
  every new product in stock regardless.

## Model

| member | source | states |
|---|---|---|
| `Cart.FindLine` | contexts/cart-context.tsx:56 | the first line whose product id and size both match, or none when no line matches |
| `Cart.LineId` | contexts/cart-context.tsx:65 | a new line's id starts with the product id and a hyphen and ends with a decimal digit; that its last part is the stamp is `DecimalRoundTrip`, that stamps tell lines apart is `LineIdStampsDiffer` |
| `Cart.DecimalRoundTrip` | contexts/cart-context.tsx:65 | reading back the digits the template literal prints for `Date.now()` gives the stamp itself |
| `Cart.DecimalInjective` | contexts/cart-context.tsx:65 | two different stamps are printed as two different digit strings |
| `Cart.LineIdStampsDiffer` | contexts/cart-context.tsx:65 | the same product and size added at two different times get two different ids |
| `Cart.EmptyAndMissingSizeShareId` | contexts/cart-context.tsx:65 | an empty size and a missing size give the same id (both become `no-size`) |
| `Cart.AddedTo` | contexts/cart-context.tsx:54-72 | merge: same length, only quantities change, the found line and every line sharing its id gain exactly 1, lines with other ids are untouched (with unique ids: every other line untouched); otherwise one new line of quantity 1 with the product, the size and the id `LineId(product id, size, stamp)` is appended and earlier lines are untouched; quantities ≥ 1 are preserved |
| `Cart.RemoveLines` | contexts/cart-context.tsx:75-77 | no remaining line has the id, every other line is kept, nothing is invented; unknown id is a no-op; quantities ≥ 1 are preserved |
| `Cart.RemoveLinesAppend` | contexts/cart-context.tsx:75-77 | removal distributes over concatenation, so the remaining lines keep their order whatever the ids |
| `Cart.RemoveLinesCounts` | contexts/cart-context.tsx:75-77 | every line with the id is gone, every other line occurs exactly as often as before |
| `Cart.UpdatedQuantity` | contexts/cart-context.tsx:79-86 | quantity ≤ 0 is exactly `removeItem`; a positive quantity is set exactly (not added) on the lines with that id and nothing else changes; unknown id is a no-op; quantities ≥ 1 are preserved |
| `Cart.TotalItems` | contexts/cart-context.tsx:92-94 | the sum of quantities; at least the number of lines when every quantity is ≥ 1 |
| `Cart.TotalPrice` | contexts/cart-context.tsx:96-100 | the reduce over the lines is never negative for non-negative prices, quantities and rate; its relation to the currency rate is `TotalPriceScales` |
| `Cart.ResolveCurrency` | contexts/cart-context.tsx:41-42 | a mapped country gets `currencies[countryCurrencyMap[c]]`, any other country US dollars; the lookup is always defined and its rate positive |
| `Cart.AddRaisesTotalByOne` | contexts/cart-context.tsx:54-94 | with unique ids, `addItem` raises `getTotalItems` by exactly 1 in both the merge and the append case |
| `Cart.RemoveUniqueLine` | contexts/cart-context.tsx:75-77 | with unique ids, removing line j's id yields the list without position j, others in order |
| `Cart.RemoveLowersTotal` | contexts/cart-context.tsx:75-94 | with unique ids, removing a line lowers the item total by that line's quantity |
| `Cart.AddTwiceMerges` | contexts/cart-context.tsx:54-72 | adding one product and size twice to a cart without it gives one new line of quantity 2 (when the first new id is fresh) |
| `Cart.AddTwoSizesMakesTwoLines` | contexts/cart-context.tsx:54-72 | the same product in two different sizes gives two new lines of quantity 1 |
| `Cart.TotalPriceScales` | contexts/cart-context.tsx:96-100 | the total price is the currency rate times the base-unit total, so switching currency never changes item prices |
| `Cart.SingleLinePrice` | contexts/cart-context.tsx:96-100 | one line at rate 1 costs price × quantity (49 × 1 at USD is 49) |
| `Cart.CartStore.constructor` | contexts/cart-context.tsx:23-25 | the provider starts empty, in US dollars, with the sidebar closed |
| `Cart.CartStore.Hydrate` | contexts/cart-context.tsx:28-47 | a stored list and a stored currency replace the state; country detection is requested exactly when no currency was stored |
| `Cart.CartStore.ApplyDetectedCountry` | contexts/cart-context.tsx:40-45 | the currency becomes the resolved currency of the detected country, a table entry with positive rate |
| `Cart.CartStore.AddItem` | contexts/cart-context.tsx:54-73 | items become `AddedTo` of the old items; quantities ≥ 1 are kept; with unique ids the item total rises by 1 |
| `Cart.CartStore.RemoveItem` | contexts/cart-context.tsx:75-77 | items become `RemoveLines` of the old items; quantities ≥ 1 are kept |
| `Cart.CartStore.UpdateQuantity` | contexts/cart-context.tsx:79-86 | a quantity ≤ 0 delegates to `RemoveItem`; otherwise items become `UpdatedQuantity`; quantities ≥ 1 are kept |
| `Cart.CartStore.ClearCart` | contexts/cart-context.tsx:88-90 | the list is empty and both totals are 0 |
| `Cart.CartStore.SetIsOpen` | contexts/cart-context.tsx:25 | the sidebar flag takes the given value |
| `Cart.CartStore.GetTotalItems` | contexts/cart-context.tsx:92-94 | at least the number of lines while every quantity is ≥ 1 |
| `Cart.CartStore.GetTotalPrice` | contexts/cart-context.tsx:96-100 | the active rate times the base-unit total of the lines |
| `CurrencyTables.CountryMapIsClosed` | lib/types.ts:37-47 | every currency code in the country map is a non-empty key of the currency table |
| `CurrencyTables.CodesMatchKeys` | lib/types.ts:29-35 | each currency's `code` equals its key |
| `CurrencyTables.UsdIsBase` | lib/types.ts:30 | USD exists with rate exactly 1 |
| `CurrencyTables.RatesArePositive` | lib/types.ts:30-34 | every rate is strictly positive |
| `CurrencyTables.CountryAssignments` | lib/types.ts:37-47 | DE, FR, IT, ES, NL map to EUR; US, CA, GB, AU to USD, CAD, GBP, AUD; no other country is mapped |
| `Products.GenerateSlug` | lib/products.ts:17-24 | the slug holds only `a`-`z`, `0`-`9` and `-`, never two hyphens in a row; what it keeps of the name is `SlugKeepsLettersAndDigits`, its idempotence `SlugIdempotent` |
| `Products.StripDisallowed` | lib/products.ts:20 | keeps exactly the characters `a`-`z`, `0`-`9`, space and `-`: every kept character comes from the input, every allowed input character survives, nothing gets longer |
| `Products.ReplaceRuns` | lib/products.ts:21-22 | replacing each run by one character never lengthens the text and leaves it empty exactly when it was empty; its head is `ReplaceRunsHead`, its collapsing `CollapsedHasNoDoubleHyphen` |
| `Products.CollapsedHasNoDoubleHyphen` | lib/products.ts:22 | collapsing hyphen runs leaves no two adjacent hyphens |
| `Products.CollapsedKeepsLettersAndDigits` | lib/products.ts:20-22 | the three replacements keep the lower-cased name's letters and digits, in order, and add none |
| `Products.SlugIsTrimmed` | lib/products.ts:23 | a string of slug characters has no surrounding whitespace, so `trim` returns it |
| `Products.SlugKeepsLettersAndDigits` | lib/products.ts:19-22 | deleting the slug's hyphens gives the lower-cased name's letters and digits in order |
| `Products.SlugOfSlug` | lib/products.ts:17-24 | a string that already is a slug is its own slug |
| `Products.SlugIdempotent` | lib/products.ts:17-24 | `generateSlug(generateSlug(s)) == generateSlug(s)` |
| `Products.TrimIsNoOp` | lib/products.ts:20-23 | the final `trim` returns its input unchanged |
| `Products.LeadingSpaceBecomesHyphen` | lib/products.ts:20-23 | a space before a slug not starting with a hyphen becomes a leading hyphen (" a" gives "-a") |
| `Products.TrailingSpaceBecomesHyphen` | lib/products.ts:20-23 | a space after a slug not ending with a hyphen becomes a trailing hyphen ("a " gives "a-") |
| `Products.TwoWordSlug` | lib/products.ts:18-23 | a name whose lower-cased, stripped form is two words of letters and digits around one space gets the two words joined by one hyphen |
| `Products.RelaxedTrousersSlug` | lib/products.ts:17-24 | "Relaxed Trousers!!" gives "relaxed-trousers" |
| `Products.DiscountedPrice` | lib/products.ts:26-28 | discount 0 gives the price, discount 100 gives 0, and for a non-negative price and a discount in [0, 100] the result lies in [0, price] |
| `Products.DiscountedPriceFactored` | lib/products.ts:26-28 | the result is the price times (100 − discount) / 100 |
| `ProductRoute.NewProductRecord` | app/api/products/route.ts:29-44 | slug is `generateSlug(name)` and a valid slug; missing discount stored as 0 and discounted price from the shared formula; missing description "", missing lists empty; `in_stock` always true |
| `ProductRoute.Post` | app/api/products/route.ts:22-50 | malformed JSON gives 500; a falsy name, price (0 included) or category gives 400 and `createProduct` is never called; otherwise the record is created and the reply is 201 with the stored row, or 500 if creation throws; nothing is created without the required fields |
| `ProductRoute.ZeroPriceIsRejected` | app/api/products/route.ts:25-27 | a price of 0 is rejected with 400 and nothing is created |
| `ProductRoute.TwentyPercentOffHundred` | app/api/products/route.ts:30 | price 100 with 20% discount is stored as 80 |
| `ImageList.AddImage` | components/multi-image-upload.tsx:15-19 | below the limit the URL is appended at the end, at or above it the list is unchanged; earlier images stay first |
| `ImageList.AddsStayBounded` | components/multi-image-upload.tsx:15-19 | from a list at or under the limit, no sequence of adds exceeds it |
| `ImageList.SixthImageIsDropped` | components/multi-image-upload.tsx:13-19 | with the default limit of 5, an upload onto five images is dropped and one onto four is kept |
| `ImageList.RemoveImage` | components/multi-image-upload.tsx:21-24 | the length drops by one exactly when the index is inside the list and is unchanged otherwise; every remaining URL comes from the list |
| `ImageList.RemoveImageAtValidIndex` | components/multi-image-upload.tsx:21-24 | a valid index removes exactly that position, the length drops by one, the rest keep their order |
| `ImageList.RemoveImageOutOfRange` | components/multi-image-upload.tsx:21-24 | an out-of-range index leaves the list unchanged |
| `ImageList.ReplaceImage` | components/multi-image-upload.tsx:26-30 | same length, the new URL at the index, every other slot unchanged |
| `ProductForm.InitialFormData` | components/forms/product-form.tsx:30-40 | no product gives the empty form; fields default to "", 0 or []; `in_stock` defaults to true when absent; an existing value, false included, is kept |
| `ProductForm.Toggled` | components/forms/product-form.tsx:72-84 | checking appends the value at the end without de-duplication; unchecking leaves no copy of it and keeps every other entry |
| `ProductForm.RemoveAllMultiset` | components/forms/product-form.tsx:75 | unchecking removes every occurrence and keeps each other value as often as before |
| `ProductForm.RemoveAllKeepsOrder` | components/forms/product-form.tsx:75 | unchecking distributes over concatenation, so the others keep their order |
| `ProductForm.RemoveAllAbsent` | components/forms/product-form.tsx:75 | unchecking a value not in the list changes nothing |
| `ProductForm.DiscountedPreview` | components/forms/product-form.tsx:42 | the preview equals the price at discount 0 and lies in [0, price] for sensible inputs |
| `ProductForm.PostedFormIsStoredAsPreviewed` | app/api/products/route.ts:29-43 | a posted form that passes the guards is stored with the previewed discounted price, its lists and the slug of its name, and in stock whatever its box said |
| `ProductForm.ProductFormComponent.constructor` | components/forms/product-form.tsx:27-40 | the form starts from `InitialFormData`, not loading, nothing submitted |
| `ProductForm.ProductFormComponent.HandleColorChange` | components/forms/product-form.tsx:72-77 | only `colors` changes, to the toggled list |
| `ProductForm.ProductFormComponent.HandleSizeChange` | components/forms/product-form.tsx:79-84 | only `sizes` changes, to the toggled list |
| `ProductForm.ProductFormComponent.HandleSubmit` | components/forms/product-form.tsx:44-70 | with no image: the error toast, nothing submitted, `loading` untouched; otherwise the form is submitted while loading, loading is false afterwards, and the toast and redirect follow the save's outcome |
| `JsString.Trim` | components/search-dialog.tsx:51 | the result has no surrounding whitespace, is never longer, is empty exactly for an all-whitespace input, and is the input when it has no whitespace |
| `JsString.TrimIsSlice` | components/search-dialog.tsx:51 | the result of `trim` is a slice of the input with only whitespace before and after it |
| `JsString.IncludesIff` | components/search-dialog.tsx:56-58 | `includes` holds exactly when the text occurs at some position |
| `JsString.IncludesNeedsRoom` | components/search-dialog.tsx:56-58 | a text shorter than the searched-for string never includes it |
| `Search.Matches` | components/search-dialog.tsx:54-58 | the empty query matches every product (each field includes "") |
| `Search.LongQueryNeverMatches` | components/search-dialog.tsx:56-58 | a query longer than the name, the category and any description matches nothing |
| `Search.MatchingAreMatches` | components/search-dialog.tsx:54-59 | every filtered product is a catalogue product that matches the query |
| `Search.Results` | components/search-dialog.tsx:50-62 | at most 6 results; a blank query gives the first min(6, n) products; otherwise every result is a matching product, and the results are the first up to 6 matching products in order |
| `Search.FewMatchesAllShown` | components/search-dialog.tsx:54-60 | when at most 6 products match, every matching product is shown |
| `Search.MatchesIgnoresCase` | components/search-dialog.tsx:56-58 | two queries with the same lower-case form match the same products |
| `Search.ResultsIgnoreCase` | components/search-dialog.tsx:51-60 | queries differing only in ASCII case give identical results |
| `Search.UntrimmedQueryMatters` | components/search-dialog.tsx:51-58 | " shirt" does not find a product named "Shirt" while "shirt" does |
| `Search.MissingDescriptionNeverMatches` | components/search-dialog.tsx:58 | without a description only name and category can match |
| `UploadRoute.Extension` | app/api/upload/route.ts:36 | the extension has no dot, is a suffix of the name and follows its last dot; a name without a dot is its own extension |
| `UploadRoute.ExtensionAfterLastDot` | app/api/upload/route.ts:36 | for any stem, the extension of stem + "." + ext is ext |
| `UploadRoute.ExtensionExamples` | app/api/upload/route.ts:36 | "photo.final.JPG" gives "JPG", "archive." gives "", "README" gives itself |
| `UploadRoute.FileName` | app/api/upload/route.ts:36-37 | the stored name starts with the generated id and a dot and has the same extension as the uploaded file's name |
| `UploadRoute.Post` | app/api/upload/route.ts:7-61 | unreadable form 500; missing file 400; then MIME type 400; then size over 5 MiB 400; otherwise 201 with "/uploads/uuid.ext" after writing uuid.ext, 500 when `writeFile` fails, and 500 with nothing written when reading the bytes or creating the directory fails first; nothing is written for a file that failed a check |
| `UploadRoute.ExactlyFiveMiBIsAccepted` | app/api/upload/route.ts:26-29 | a 5 242 880-byte PNG is accepted with 201 |
| `UploadRoute.TypeCheckedBeforeSize` | app/api/upload/route.ts:17-29 | an oversized file of a refused type gets the type error, not the size error |
| `Orders.RoundToCents` | lib/supabase.ts:47-50 | the stored subtotal is a whole number of cents within half a cent of the input |
| `Orders.CreateOrder` | lib/supabase.ts:39-67 | an empty order number, e-mail or name throws before any insert; otherwise the insert gets the order with its subtotal rounded; an error object, no data or a throw all end in a thrown error; only returned data is returned |
| `Orders.GetOrderByNumber` | lib/supabase.ts:69-87 | an empty number gives null without a query; a query error or throw gives null, never a throw; otherwise the queried data |
| `Orders.MissingEmailNeverInserts` | lib/supabase.ts:42-44 | an order without customer e-mail is rejected before any database write |

## Left out

- Browser storage: the `localStorage` reads and writes and JSON parsing of the cart (contexts/cart-context.tsx:28-52) are I/O; the stored list and currency are inputs of `CartStore.Hydrate`.
- `detectCountry` (lib/types.ts:49-58) is a network lookup; its country code is the parameter of `CartStore.ApplyDetectedCountry`.
- `Date.now()` in new line ids is a clock; the stamp is a parameter of `AddedTo` and `CartStore.AddItem`.
- `lib/currency.ts` duplicates the currency tables and formats with `toFixed`; it is not part of this model.
- Floating point: prices, rates and percentages are exact reals, so JavaScript double rounding, `NaN` and `toFixed` display formatting are not modelled; `Orders.RoundToCents` models `toFixed(2)` on the exact value, not on its binary double.
- `Cart.TotalItems`, `Cart.UpdatedQuantity`: quantities are integers; a fractional quantity passed to `updateQuantity` is not modelled.
- `JsString.LowerChar`: `toLowerCase` is modelled on ASCII letters only; non-ASCII lower-casing (which can produce ASCII letters, e.g. from U+212A) is not modelled, so the slug and search properties hold for ASCII letters.
- JSON body coercion: request fields are modelled with the types the forms send; a string price, non-array lists or a non-file form value are not modelled.
- Object-key lookups through the prototype chain (a country code such as "toString") are not modelled: maps are plain maps.
- The auth check of the product route (app/api/products/route.ts:17-20) tests the object `auth()` returns and never rejects; it is not modelled as a gate.
- The database client, the payment API, the admin API routes and the environment checks at lib/supabase.ts:6-8 are foreign calls; the database's answers are parameters (`CreateOutcome`, `InsertOutcome`, `LookupOutcome`, `StoreOutcome`).
- React scheduling, effects, toasts' rendering, navigation and concurrent tabs are framework behaviour; the form's submit outcome records the toast text and the redirect target only.
- The product form's text inputs, category select and in-stock checkbox (components/forms/product-form.tsx:95 onwards) assign one field each; they are not modelled as separate methods.
- The search dialog's product fetch (components/search-dialog.tsx:28-48) is a network call; the fetched list is the parameter of `Search.Results`.
- `ImageList.ReplaceImage`: requires an index inside the list, because the component only offers replacement on a shown image; writing past the end of a JavaScript array (which would pad it with holes) is not modelled.
