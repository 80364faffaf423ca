# Storefront client logic in Dafny

A model of the parts of the e-commerce storefront's React client that compute
something rather than render it:

- **Catalog query** (`src/pages/Products.tsx`): the `filteredProducts`
  computation. It keeps the products that pass a case-insensitive search over
  name, description and brand, a category test (`'all'` is a wildcard), a
  price range decoded from option strings such as `"0-25"` or `"200"`, and an
  on-sale test. Then it sorts the survivors in place, using the comparator
  chosen by `sortBy`. Modules `Catalog`, `CatalogSort` and `CatalogQuery`,
  plus the JavaScript string/number helpers in `JsText` and the generic
  `Array.filter` in `Seqs`.
- **Cart page** (`src/pages/Cart.tsx`): the dispatch of a quantity change to
  `removeItem` or `updateQuantity`, the shipping/tax/total derivation from
  the cart's subtotal, the free-shipping hint, and the per-line totals.
  Module `CartPage`. The cart engine the page talks to is represented only by
  the requests it receives: module `CartEngine`, datatype `CartOp`.
- **Session store** (`src/contexts/AuthContext.tsx`): class
  `Session.AuthProvider` with the fields `user` and `loading` and a
  `map<string, string>` standing for `localStorage`. It has hydration, `login`,
  `register` and `logout`. Pure functions (`Hydrate`, `PersistSession`,
  `WithoutSession`) specify what each method does to the stored data.
- **Product page quantity stepper** (`src/pages/ProductDetail.tsx`): class
  `ProductDetail.ProductDetailPage`, whose quantity stays in [1, 10].
- **Profile page** (`src/pages/Profile.tsx`): address deletion, choosing the
  default address, and one-field form edits.
- **Order history page** (`src/pages/Orders.tsx`): filtering by status, the
  status colour and icon, and what each tab shows.

Money, prices and ratings are exact `real`s. JavaScript truthiness is
written out where the code relies on it:

- `max ? … : true` treats a missing, NaN or zero upper bound as absent;
- `!showOnSale || product.originalPrice` rejects an original price of 0;
- `if (token && userData)` treats an empty stored string as missing.

`localStorage.setItem` can throw. This is the only step inside the `try` of
`login`/`register` that can fail. It is modelled by the parameter
`writesAccepted`: the number of the two writes the storage accepts before one
throws. `JSON.parse`/`JSON.stringify` are the two functions of a
`JsonCodec` value that the provider is constructed with. `parse` returns
`None` where the real one throws.

Some behaviours of the code may surprise a reader; the model keeps them as
written:

- the price range is inclusive at both ends, so a price of exactly 25
  passes both `"0-25"` and `"25-50"`;
- the on-sale test only checks that an original price is truthy, and never
  compares it with the price;
- hydration removes the stored keys only when parsing fails. If one key is
  missing, nothing is removed;
- a failed `login`/`register` rethrows a fixed message (`'Login failed'`,
  `'Registration failed'`). It does not return a typed error.

## Model

| member | source | states |
|---|---|---|
| JsText.ToLowerCase | src/pages/Products.tsx:133-135 | lower-casing keeps the length, maps each character by ASCII lower-casing, and leaves no upper-case ASCII letter |
| JsText.ToLowerCaseIdempotent | src/pages/Products.tsx:133-135 | lower-casing twice is the same as lower-casing once |
| JsText.Includes | src/pages/Products.tsx:133-135 | no contract of its own; `String.prototype.includes`, whose meaning IncludesIffOccurs and IncludesEmpty state |
| JsText.IncludesIffOccurs | src/pages/Products.tsx:133-135 | `hay.includes(needle)` holds exactly when the needle occurs at some position of hay |
| JsText.IncludesEmpty | src/pages/Products.tsx:133-135 | every string includes the empty search term |
| JsText.Split | src/pages/Products.tsx:143 | `split('-')` gives at least one piece, and no piece contains the separator |
| JsText.SplitJoin | src/pages/Products.tsx:143 | joining the pieces of `split` with the separator gives back the original string |
| JsText.SplitWithoutSeparator | src/pages/Products.tsx:143 | a string without '-' splits into itself alone, so `max` is undefined |
| JsText.SplitAtSeparator | src/pages/Products.tsx:143 | `a-b` with no '-' in a or b splits into exactly [a, b] |
| JsText.ToNumber | src/pages/Products.tsx:143 | `Number("")` is 0, and a string is NaN exactly when it is not all digits |
| JsText.LocaleCompare | src/pages/Products.tsx:164 | the name comparison returns -1, 0 or 1 |
| JsText.LocaleCompareZero | src/pages/Products.tsx:164 | names compare equal exactly when they are the same string |
| JsText.LocaleCompareFlip | src/pages/Products.tsx:164 | swapping the names flips the sign |
| JsText.LocaleCompareTransitive | src/pages/Products.tsx:164 | the "not after" relation on names is transitive |
| Catalog.MatchesSearch | src/pages/Products.tsx:133-135 | no contract of its own; the search test, whose meaning SearchMeaning and SearchIgnoresCase state |
| Catalog.SearchMeaning | src/pages/Products.tsx:133-135 | an empty term matches every product; a product matches iff the lower-cased term occurs in its lower-cased name, description or brand |
| Catalog.SearchIgnoresCase | src/pages/Products.tsx:133-135 | the search result does not depend on the case of the term |
| Catalog.MatchesCategory | src/pages/Products.tsx:138 | no contract of its own; the category test, whose meaning CategoryOptionMeaning states |
| Catalog.CategoryOptionMeaning | src/pages/Products.tsx:138 | under "all" or one of the listed categories, a product passes exactly when the option is "all" or names its category; a product of an unlisted category shows only under "all" |
| Catalog.DecodePriceRange | src/pages/Products.tsx:141-143 | no contract of its own; `split('-').map(Number)` on every option but "all", decoded for digit strings by PriceRangeBetween and PriceRangeAtLeast |
| Catalog.WithinBound | src/pages/Products.tsx:144 | no contract of its own; `price >= min && (max ? price <= max : true)`, stated per option by PriceRangeBetween, PriceRangeAtLeast and the PriceOption lemmas |
| Catalog.MatchesPrice | src/pages/Products.tsx:141-145 | no contract of its own; the price test, stated by the same lemmas |
| Catalog.PriceRangeBetween | src/pages/Products.tsx:141-145 | a "lo-hi" range of two digit strings (either may be empty, read as 0) decodes to [lo, hi] with both ends inclusive, and a zero upper end is ignored |
| Catalog.PriceRangeAtLeast | src/pages/Products.tsx:141-145 | a single digit string "lo" (possibly empty, read as 0) means price >= lo with no upper bound |
| Catalog.PriceOption0To25 | src/pages/Products.tsx:240 | the "$0 - $25" option keeps 0 <= price <= 25 |
| Catalog.PriceOption25To50 | src/pages/Products.tsx:241 | the "$25 - $50" option keeps 25 <= price <= 50 |
| Catalog.PriceOption50To100 | src/pages/Products.tsx:242 | the "$50 - $100" option keeps 50 <= price <= 100 |
| Catalog.PriceOption100To200 | src/pages/Products.tsx:243 | the "$100 - $200" option keeps 100 <= price <= 200 |
| Catalog.PriceOption200Plus | src/pages/Products.tsx:244 | the "$200+" option keeps price >= 200 |
| Catalog.BoundaryPriceInBothRanges | src/pages/Products.tsx:240-241 | a price of exactly 25 passes both "0-25" and "25-50" |
| Catalog.MatchesOnSale | src/pages/Products.tsx:148 | no contract of its own; the on-sale truthiness test, stated by OnSaleIgnoresPrice and CartPage.StruckLineIffOnSale |
| Catalog.OnSaleIgnoresPrice | src/pages/Products.tsx:148 | with "on sale" ticked, a product with a non-zero original price passes whatever its current price, and one with no or a zero original price fails |
| Seqs.Filter | src/pages/Products.tsx:131 | `Array.prototype.filter`: the result is no longer than the input and holds only input elements that pass; Seqs.FilterCounts and Seqs.FilterIsSubsequence give multiplicities and order |
| Catalog.Matches | src/pages/Products.tsx:131-151 | no contract of its own; the conjunction of the four tests, as the filter callback returns it |
| Catalog.FilterProducts | src/pages/Products.tsx:131-151 | no contract of its own; the `mockProducts.filter(...)` call, whose meaning FilterProductsMeaning states |
| Catalog.FilterProductsMeaning | src/pages/Products.tsx:131-151 | the filter keeps exactly the products that pass all four tests. Each keeps its multiplicity, in catalog order |
| Catalog.FilterProductsAllPass | src/pages/Products.tsx:131-151 | filtering products that all pass returns them unchanged |
| Catalog.DefaultMatchesAll | src/pages/Products.tsx:122-126 | with the initial criteria (empty search, 'all', 'all', not on sale) every product passes |
| CatalogSort.ModeOf | src/pages/Products.tsx:155-164 | 'name' and every unknown `sortBy` fall through to the name order |
| CatalogSort.Compare | src/pages/Products.tsx:154-166 | no contract of its own; the comparator of the `switch`, whose properties CompareFlip, CompareTransitive, CompareEquivalence and SortedMeaning state |
| CatalogSort.CompareFlip | src/pages/Products.tsx:154-166 | for every mode, swapping the comparator's arguments flips its sign |
| CatalogSort.CompareTransitive | src/pages/Products.tsx:154-166 | for every mode, the comparator's "not after" relation is transitive |
| CatalogSort.CompareEquivalence | src/pages/Products.tsx:154-166 | equal sort keys form an equivalence, and an element after one of a key is after all of that key |
| CatalogSort.SortedMeaning | src/pages/Products.tsx:154-166 | sorted output means: non-decreasing price for 'price-low', non-increasing price for 'price-high', non-increasing rating for 'rating', name order otherwise |
| CatalogSort.Insert | src/pages/Products.tsx:154 | one stable insertion step; its contract gives the length (one more), and InsertAt, InsertPermutation, InsertSorted and InsertSameKey state the rest |
| CatalogSort.SortSpec | src/pages/Products.tsx:154-166 | the stable sort that `filtered.sort(cmp)` performs; its contract keeps the length, and SortPermutation, SortSorted, SortStable and SortOfSorted state the rest |
| CatalogSort.InsertAt | src/pages/Products.tsx:154 | when every element from position j on compares after x and the element before j does not, inserting x places it at j: right after the last element, counting from the right, that does not compare after it |
| CatalogSort.InsertPermutation | src/pages/Products.tsx:154 | insertion adds exactly the inserted element |
| CatalogSort.InsertSorted | src/pages/Products.tsx:154-166 | insertion into a sorted sequence keeps it sorted |
| CatalogSort.InsertSameKey | src/pages/Products.tsx:154-166 | insertion appends the element at the end of its key's run, so every key's elements keep their order |
| CatalogSort.SortPermutation | src/pages/Products.tsx:154 | the sort is a permutation of its input |
| CatalogSort.SortSorted | src/pages/Products.tsx:154-166 | the sort's output is sorted by the comparator |
| CatalogSort.SortStable | src/pages/Products.tsx:154-166 | the sort is stable: for every key, its elements are in input order in the output |
| CatalogSort.SortOfSorted | src/pages/Products.tsx:154-166 | sorting an already sorted sequence leaves it unchanged |
| CatalogSort.ShiftRight | src/pages/Products.tsx:154 | the shifting loop moves one place right the run of elements just before `a[i]` that compare after it, stops at an element that does not (or at the start), and leaves the rest of the array alone |
| CatalogSort.InsertInPlace | src/pages/Products.tsx:154 | one in-place step moves `a[i]` into its stable position within the sorted prefix and leaves the rest of the array alone |
| CatalogSort.SortInPlace | src/pages/Products.tsx:154-166 | the in-place array sort leaves exactly the stable sort of the old contents |
| CatalogQuery.Query | src/pages/Products.tsx:130-169 | no contract of its own; filter then sort, whose meaning QuerySound, QueryCounts, QueryOrdered and QueryIdempotent state |
| CatalogQuery.FilteredProducts | src/pages/Products.tsx:130-169 | the filter-then-sort computation returns the query result; every product in it is from the catalog and passes, and the result is sorted |
| CatalogQuery.QuerySound | src/pages/Products.tsx:131-151 | every product shown comes from the catalog and passes search, category, price and on-sale |
| CatalogQuery.QueryCounts | src/pages/Products.tsx:131-168 | a passing product is shown as often as it is in the catalog, and a failing one never |
| CatalogQuery.QueryOrdered | src/pages/Products.tsx:154-168 | the result is sorted, and products with equal sort keys keep their catalog order |
| CatalogQuery.QueryIdempotent | src/pages/Products.tsx:130-169 | re-running the query on its own output gives the same sequence |
| CatalogQuery.DefaultQueryIsNameOrder | src/pages/Products.tsx:122-126 | with the initial criteria the whole catalog is shown, sorted by name |
| CatalogQuery.EmptyCatalog | src/pages/Products.tsx:130-169 | an empty catalog gives an empty result |
| CatalogQuery.PriceLowExample | src/pages/Products.tsx:156-157 | prices [30, 10, 20] sorted 'price-low' without filters come out as [10, 20, 30] |
| CartPage.HandleQuantityChange | src/pages/Cart.tsx:13-19 | a quantity <= 0 becomes a remove; any other value is passed to `updateQuantity` unchanged, so that call never gets a non-positive quantity |
| CartPage.DecrementButton | src/pages/Cart.tsx:111 | "-" at quantity 1 removes the line; above 1 it updates to quantity - 1 |
| CartPage.IncrementButton | src/pages/Cart.tsx:120 | "+" always goes through `updateQuantity` with quantity + 1 |
| CartPage.Shipping | src/pages/Cart.tsx:21 | shipping is 0 exactly when the subtotal is above 50, and 9.99 otherwise |
| CartPage.Tax | src/pages/Cart.tsx:22 | tax is 8% of the subtotal (2/25 of it), and lies between 0 and the subtotal when the subtotal is non-negative |
| CartPage.FinalTotal | src/pages/Cart.tsx:21-23 | the final total is never below a non-negative subtotal; it is subtotal x 1.08 above 50, and subtotal x 1.08 + 9.99 otherwise |
| CartPage.SummaryAt25 | src/pages/Cart.tsx:21-23 | subtotal 25 gives shipping 9.99, tax 2.00, total 36.99 |
| CartPage.SummaryAt60 | src/pages/Cart.tsx:21-23 | subtotal 60 gives free shipping, tax 4.80, total 64.80 |
| CartPage.FreeShippingHint | src/pages/Cart.tsx:179-183 | the hint appears iff the subtotal is below 50, and the amount shown is then positive and reaches exactly 50 |
| CartPage.HintAndShipping | src/pages/Cart.tsx:179-183 | whenever the hint shows, shipping is charged, even after adding the amount the hint names; at exactly 50 shipping is charged and no hint is shown |
| CartPage.LineTotal | src/pages/Cart.tsx:129 | a line's total (price x quantity) is at least the unit price for a positive quantity |
| CartPage.StruckLineTotal | src/pages/Cart.tsx:130-134 | the struck-through total, originalPrice x quantity, appears exactly when the original price is truthy |
| CartPage.StruckLineIffOnSale | src/pages/Cart.tsx:130-134 | a line shows a struck-through total exactly when its product passes the catalog's on-sale test |
| Session.Stored | src/contexts/AuthContext.tsx:20-23 | no contract of its own; a stored value that is present and truthy (non-empty), as `token && userData` tests it; HydrateCases uses it |
| Session.WithoutSession | src/contexts/AuthContext.tsx:81-85 | removing the session leaves no `token` or `user` key, and every other key is unchanged |
| Session.Hydrate | src/contexts/AuthContext.tsx:18-32 | a user is restored only from two truthy keys whose user parses; storage is either untouched or stripped of both keys, and stripped only when nothing is restored |
| Session.HydrateCases | src/contexts/AuthContext.tsx:20-30 | both keys and a good parse: user restored, storage untouched; both keys and a bad parse: both removed, no user; a key missing: nothing removed, no user |
| Session.HydrateIdempotent | src/contexts/AuthContext.tsx:18-32 | hydrating again from what hydration left gives the same result |
| Session.LoginUser | src/contexts/AuthContext.tsx:38-44 | the mock login user has the given email, id "1" and an avatar; the password plays no part |
| Session.RegisterUser | src/contexts/AuthContext.tsx:62-67 | the registered user takes email, first and last name from the form, has id "1" and no avatar |
| Session.PersistSession | src/contexts/AuthContext.tsx:46-49 | the first accepted write stores the token 'mock-jwt-token', the second stores the serialised user; with fewer than two accepted writes the stored user is untouched, and no other key ever changes |
| Session.SignInSurvivesReload | src/contexts/AuthContext.tsx:48-50 | after a completed sign-in, hydration restores the same user (for a codec that round-trips) |
| Session.HalfWrittenSignInRestoresEarlierUser | src/contexts/AuthContext.tsx:48-49 | a sign-in whose second write throws leaves the new token beside the previously stored user, and a reload restores that earlier user |
| Session.LogoutSurvivesReload | src/contexts/AuthContext.tsx:81-85 | after logout, hydration finds a guest and removes nothing; logging out twice is logging out once |
| Session.AuthProvider.constructor | src/contexts/AuthContext.tsx:15-16 | the provider starts with no user and `loading` true |
| Session.AuthProvider.HydrateFromStorage | src/contexts/AuthContext.tsx:18-32 | the mount effect leaves the storage and user that `Hydrate` prescribes and always ends with `loading` false |
| Session.AuthProvider.SignIn | src/contexts/AuthContext.tsx:34-56 | writes token then user; on success sets the user; a throwing write leaves the user unchanged and reports the fixed message; `loading` ends false on both paths |
| Session.AuthProvider.Login | src/contexts/AuthContext.tsx:34-56 | login stores the token and the mock user with the given email, sets that user, fails only with 'Login failed', and ends with `loading` false |
| Session.AuthProvider.Register | src/contexts/AuthContext.tsx:58-79 | register stores and sets the user built from the form, fails only with 'Registration failed', and ends with `loading` false |
| Session.AuthProvider.Logout | src/contexts/AuthContext.tsx:81-85 | logout removes both keys and sets no user |
| ProductDetail.Step | src/pages/ProductDetail.tsx:78-83 | a change that keeps the quantity within [1, 10] is applied exactly; any other change is ignored |
| ProductDetail.Steps | src/pages/ProductDetail.tsx:78-83 | no contract of its own; a series of clicks through the handler, bounded by StepsStayInBounds |
| ProductDetail.StepsStayInBounds | src/pages/ProductDetail.tsx:78-83 | from a quantity in [1, 10], any series of changes ends in [1, 10] |
| ProductDetail.ProductDetailPage.constructor | src/pages/ProductDetail.tsx:68 | the page opens with quantity 1 |
| ProductDetail.ProductDetailPage.HandleQuantityChange | src/pages/ProductDetail.tsx:78-83 | the handler applies `Step` and keeps the quantity within [1, 10] |
| ProductDetail.ProductDetailPage.HandleAddToCart | src/pages/ProductDetail.tsx:74-76 | adding to the cart asks for the page's product with the current quantity, between 1 and 10 |
| ProductDetail.ProductDetailPage.MinusDisabled | src/pages/ProductDetail.tsx:210 | "-" is disabled exactly when decrementing would be refused |
| ProductDetail.ProductDetailPage.PlusDisabled | src/pages/ProductDetail.tsx:219 | "+" is disabled exactly when incrementing would be refused |
| ProductDetail.PressAll | src/pages/ProductDetail.tsx:68-83 | after any series of clicks on a fresh page, the add-to-cart request asks for `Steps(1, changes)` units, between 1 and 10 |
| Profile.DeleteAddress | src/pages/Profile.tsx:79-81 | no contract of its own; DeleteMeaning and DeleteAbsent state it |
| Profile.DeleteMeaning | src/pages/Profile.tsx:79-81 | deleting an id removes exactly the addresses with it; every other address keeps its multiplicity and order |
| Profile.DeleteAbsent | src/pages/Profile.tsx:80 | deleting an id no address has leaves the list unchanged |
| Profile.SetDefaultAddress | src/pages/Profile.tsx:83-89 | an address is default afterwards iff its id is the chosen one; length, order and every other field are preserved |
| Profile.SetDefaultIdempotent | src/pages/Profile.tsx:83-89 | choosing the same default twice is choosing it once |
| Profile.SetDefaultCount | src/pages/Profile.tsx:83-89 | with unique ids there is exactly one default when the id is present, none otherwise |
| Profile.InitialAddressesWellFormed | src/pages/Profile.tsx:15-36 | the initial addresses have unique ids and exactly one default |
| Profile.InitialForm | src/pages/Profile.tsx:41-46 | the form has the four fields, filled from the user or empty for a guest, with an empty phone |
| Profile.HandleInputChange | src/pages/Profile.tsx:68-71 | the named field takes the input's value; all other fields keep theirs |
| Profile.InputChangeKeepsFields | src/pages/Profile.tsx:68-71 | an edit through one of the four named inputs neither adds nor removes a field |
| Orders.FilterOrdersByStatus | src/pages/Orders.tsx:146-149 | no contract of its own; FilterOrdersMeaning and StatusTabsDisjoint state it |
| Orders.FilterOrdersMeaning | src/pages/Orders.tsx:146-149 | 'all' returns the list itself; any other status returns exactly the orders with that status, in list order, never longer than the list |
| Orders.StatusTabsDisjoint | src/pages/Orders.tsx:146-149 | results for two different statuses (neither 'all') share no order |
| Orders.StatusColor | src/pages/Orders.tsx:99-112 | the colour is the gray default exactly for statuses other than the four known ones |
| Orders.StatusColorsDistinct | src/pages/Orders.tsx:99-112 | the four known statuses get four different classes |
| Orders.StatusIcon | src/pages/Orders.tsx:114-127 | the icon is the package default exactly for unknown statuses |
| Orders.StatusIconsDistinct | src/pages/Orders.tsx:114-127 | the four known statuses get four different icons |
| Orders.TabCount | src/pages/Orders.tsx:252-266 | a tab label's count never exceeds the number of orders, and the "all" tab's count is the whole list, as `mockOrders.length` shows it |
| Orders.TabContent | src/pages/Orders.tsx:269-306 | every tab shows the filtered list except "cancelled", which always shows its empty message |
| Orders.CancelledTabIgnoresOrders | src/pages/Orders.tsx:264-306 | with a cancelled order the tab label counts 1 while the tab still says there are none |
| Orders.MockOrdersHaveNoCancelled | src/pages/Orders.tsx:10-97 | the page's own orders include no cancelled one, and there are three of them in all |

## Left out

- Rendering: all JSX, and the pages `Index`, `Dashboard`, `Header` and `App`, which hold only static data, markup and route wiring. The constants `ROUTES` and `API_BASE_URL` are left out too; `PRODUCT_CATEGORIES` appears as `Catalog.ProductCategories`.
- The cart engine (`@/contexts/CartContext`) is not part of this model. `addItem`, `removeItem`, `updateQuantity`, `clearCart`, the subtotal `total`, `itemCount`, merging and persistence are outside it. The pages' calls are modelled as `CartEngine.CartOp` requests, and the subtotal is a parameter.
- The catalog page's `handleAddToCart` calls `addItem(product)` and relies on the engine's default quantity, so it belongs to the engine and is not modelled.
- Floating point: prices, ratings, tax and totals are exact reals. `toFixed(2)`, the `Math.round` discount percentage and the star counts are display formatting and are not modelled.
- JsText.ToLowerCase: only ASCII letters are lower-cased; Unicode case mapping is not modelled.
- JsText.LocaleCompare: character-by-character lexicographic order stands in for locale-aware collation.
- JsText.ToNumber: only "" and plain digit strings convert to numbers. Whitespace, signs, decimal points, exponents, hex and "Infinity" all become NaN. The price selector offers none of these.
- `JSON.parse`/`JSON.stringify` are parameters (`Session.JsonCodec`). A stored value that parses to something other than a user object (such as `"null"`) is not modelled.
- `async`/`await`: `login` and `register` run to completion. While a call is pending, `loading` is true; that value and overlapping calls are not observable in this model.
- The profile page's `handleSaveProfile` is left out. It only sets the `isEditing`/`showSuccess` flags and uses `setTimeout`. The notification switches, the image gallery index on the product page, and the router hooks (`useParams`, `useNavigate`) are left out too.
- Orders keep only id, date, status, total and tracking number. Their line items and shipping address are display-only.
- The status icons are modelled as the emoji code points the badge is meant to show (✅ 🚚 ⏳ ❌ 📦).
