# Storefront core: cart, catalog filter, purchase controls, user rules

A Dafny model of the parts of the e-commerce storefront that decide what the
shopper sees and what the shop stores:

- **the cart store** (`frontend/src/utils/CartContext.jsx`). This is an ordered list of line items keyed by product id, color and size. It supports add, remove, update-quantity and clear, plus the total and unit-count folds. The module is `Cart`, and its class `Cart.CartStore` holds the list. The pure functions `Added`, `Removed` and `Updated` specify each method.
- **the catalog filter** (`frontend/src/pages/CategoryPage.jsx`), in module `Catalog`. It covers:
  - the active-category lookup;
  - polymorphic category matching;
  - the category, query and price-range filter;
  - the five sort modes, applied by an in-place stable sort of an array;
  - pagination in pages of 12, with the current page clamped.

  The class `Catalog.CategoryView` holds the filter criteria and the current page. Its handlers reset the page to 1.
- **the purchase controls** (`frontend/src/pages/ProductDetail.jsx`), in module `ProductDetail`. It covers:
  - the quantity stepper, which stays within [1, stock || 999];
  - the color and size choices;
  - the guards in front of the cart add, for both add-to-cart and buy-now.
- **the account rules** (`backend/users/views.py`), in module `UserViews`. It covers:
  - the state machine over (status, is_active), including the admin self-protection;
  - the gate order of login;
  - the admin user list, which is filtered and ordered newest first.
- **the user serializers** (`backend/users/serializers.py`), in module `UserSerializers`. It covers:
  - the registration and password-change validators, including how the per-field validators combine with `validate`;
  - `create`, which drops `password_confirm` and creates exactly one profile;
  - the profile update.

Supporting modules:

- `Common` holds Option and Result, ASCII lower-casing, `trim`, `includes` and `String(n)`, plus a lexicographic order.
- `StableSort` holds an insertion sort that is proved ordered, a permutation and stable, and an in-place array version proved equal to it.
- `Users` holds the user and profile records.

Where this model and a prose description of the system differ, the code is followed:

- The cart is not rehydrated with a fallback on corrupt storage. That load is left out; `JSON.parse` is unguarded there.
- Options are not normalised before the lookup. See Findings.

## Model

| member | source | states |
|---|---|---|
| Cart.StockCap | frontend/src/utils/CartContext.jsx:77 | `stock \|\| 999`: the ceiling is the stock when positive, 999 when missing or zero, never below 1 |
| Cart.Find | frontend/src/utils/CartContext.jsx:27-31 | the lookup finds a line iff one matches (id, raw color, raw size), and returns the first such line |
| Cart.AddAppendsNewLine | frontend/src/utils/CartContext.jsx:43-52 | with no match, add appends exactly one line at the end holding the product's id, name, price, image and stock, the given quantity, and each option's value or '' when absent; existing lines are unchanged and in order |
| Cart.AddMergesExisting | frontend/src/utils/CartContext.jsx:27-41 | with a match, the length is unchanged, every matching line gains `quantity` with no clamp, and all other lines are untouched |
| Cart.AddWithoutOptionAppends | frontend/src/utils/CartContext.jsx:28-30 | when a color or size option is absent, add never merges: it always appends |
| Cart.AddTwiceMerges | frontend/src/utils/CartContext.jsx:27-52 | two adds with the same explicit options make one line whose quantity is the sum |
| Cart.AddMayExceedStock | frontend/src/utils/CartContext.jsx:38 | add can push a line above its stock: a line within stock 1 goes to quantity 2 |
| Cart.AddCount | frontend/src/utils/CartContext.jsx:25-54 | add raises the unit count by quantity times the number of matching lines, or by quantity when it appends |
| Cart.CountBumped | frontend/src/utils/CartContext.jsx:34-40 | the merge raises the unit count by quantity for each matching line |
| Cart.MatchCountPositive | frontend/src/utils/CartContext.jsx:27-31 | some line matches iff the number of matching lines is positive |
| Cart.CartStore.AddToCart | frontend/src/utils/CartContext.jsx:25-54 | the new list is `Added(old list)`; the length grows by one exactly when nothing matched |
| Cart.RemovedSpec | frontend/src/utils/CartContext.jsx:56-64 | remove keeps exactly the non-matching lines, each as often as before, and no matching line |
| Cart.RemovedAppend | frontend/src/utils/CartContext.jsx:58-62 | remove distributes over concatenation, so kept lines stay in order |
| Cart.RemovedNoMatch | frontend/src/utils/CartContext.jsx:56-64 | remove is a no-op when nothing matches |
| Cart.RemovedIdempotent | frontend/src/utils/CartContext.jsx:56-64 | removing twice is the same as removing once |
| Cart.CartStore.RemoveFromCart | frontend/src/utils/CartContext.jsx:56-64 | the new list is `Removed(old list)` |
| Cart.UpdateNonPositiveRemoves | frontend/src/utils/CartContext.jsx:67-70 | an update with quantity <= 0 has exactly the effect of remove with the same key |
| Cart.UpdatePositiveClamps | frontend/src/utils/CartContext.jsx:72-80 | a positive update sets each matching line to min(quantity, stock \|\| 999), which lies in [1, ceiling]; length, order and other lines are unchanged |
| Cart.UpdatePreservesWithinStock | frontend/src/utils/CartContext.jsx:66-81 | update and remove keep every line within [1, its stock ceiling] |
| Cart.CartStore.UpdateQuantity | frontend/src/utils/CartContext.jsx:66-81 | the new list is `Updated(old list)`, never longer than before |
| Cart.CartStore.ClearCart | frontend/src/utils/CartContext.jsx:83-85 | the list becomes empty |
| Cart.TotalAppend | frontend/src/utils/CartContext.jsx:87-89 | the total fold is additive over concatenation |
| Cart.TotalPermutationInvariant | frontend/src/utils/CartContext.jsx:87-89 | the total depends only on which lines the cart holds, not on their order |
| Cart.CountAppend | frontend/src/utils/CartContext.jsx:91-93 | the count fold is additive over concatenation |
| Cart.FoldsNonNegative | frontend/src/utils/CartContext.jsx:87-93 | both folds are 0 on an empty cart and non-negative when prices and quantities are |
| Cart.CountAtLeastLines | frontend/src/utils/CartContext.jsx:91-93 | with every quantity at least 1, the count is at least the number of lines; it is 0 on an empty cart |
| Cart.CartStore.GetCartTotal | frontend/src/utils/CartContext.jsx:87-89 | the total is 0 for an empty cart and non-negative for non-negative prices and quantities |
| Cart.CartStore.GetCartCount | frontend/src/utils/CartContext.jsx:91-93 | the count is 0 for an empty cart and at least the number of lines when each quantity is at least 1 |
| Cart.CartStore.constructor | frontend/src/utils/CartContext.jsx:14-18 | the store starts empty |
| Cart.AddWithoutOptionsDuplicatesKey | frontend/src/utils/CartContext.jsx:27-31 | as written, two `addToCart(product, 1)` calls leave two lines with the same key (id, '', '') |
| Cart.Normalized | frontend/src/utils/CartContext.jsx:49-50 | the stored form of each option is its given value, or '' when it is absent, so both are always present |
| Cart.AddedNormalizedKeepsKeysUnique | frontend/src/utils/CartContext.jsx:27-52 | the corrected add, which looks up the normalised key, never creates a second line for a key |
| Cart.AddedNormalizedAgrees | frontend/src/utils/CartContext.jsx:25-54 | with both options given, the corrected add equals the add as written |
| Catalog.SlugFromUrl | frontend/src/pages/CategoryPage.jsx:17-18 | the route slug is '' without a parameter, and the decoded parameter otherwise |
| Catalog.FindCategory | frontend/src/pages/CategoryPage.jsx:63-69 | it returns the first category whose lower-cased slug, name or id equals the lower-cased raw parameter, or none when no category does |
| Catalog.ActiveIdentifier | frontend/src/pages/CategoryPage.jsx:100 | the identifier is the active category's slug, else its name, else `String(id)`, which is 'undefined' without an id; with no active category it is the URL slug |
| Catalog.EmptyIdentifierMatchesAll | frontend/src/pages/CategoryPage.jsx:74 | an empty identifier matches every product |
| Catalog.NoCategoryMatchesNothing | frontend/src/pages/CategoryPage.jsx:76-77 | a product without a category matches no non-empty identifier |
| Catalog.ScalarCategoryMatch | frontend/src/pages/CategoryPage.jsx:79-84 | a string or number category matches iff, lower-cased, either value contains the other |
| Catalog.EmptyStringCategoryMatchesAll | frontend/src/pages/CategoryPage.jsx:82 | the category '' matches every identifier |
| Catalog.ObjectCategoryMatch | frontend/src/pages/CategoryPage.jsx:87-95 | an object category matches iff `id ?? pk` equals the identifier, or `name ?? title` or slug contains it; containment runs one way only |
| Catalog.IdIsNeverMatchedByContainment | frontend/src/pages/CategoryPage.jsx:79-95 | category 12 matches "1", but an object with id 12 does not |
| Catalog.KeptSpec | frontend/src/pages/CategoryPage.jsx:103-119 | the filter keeps exactly the passing products, each as often as in the input |
| Catalog.KeptAppend | frontend/src/pages/CategoryPage.jsx:103-119 | the filter distributes over concatenation, so kept products keep their input order |
| Catalog.KeptIff | frontend/src/pages/CategoryPage.jsx:101-119 | a product is kept iff all of these hold: it matches the category; the trimmed, lower-cased query is empty or in its name or description; min <= price and price <= max, each bound only when set |
| Catalog.ComparatorIsPreorder | frontend/src/pages/CategoryPage.jsx:122-137 | each mode's comparator is total and transitive |
| Catalog.SortedProductsSpec | frontend/src/pages/CategoryPage.jsx:122-137 | the result is always a permutation; relevance and unknown modes leave the order unchanged; price-low is ascending by price, price-high and newest are descending by price and by id, name is ascending (missing values count as 0 or "undefined") |
| Catalog.SortedProductsStable | frontend/src/pages/CategoryPage.jsx:122-137 | products that compare equal keep their filtered order |
| Catalog.SortProducts | frontend/src/pages/CategoryPage.jsx:122-137 | sorting the array in place yields `SortedProducts` of its old contents |
| Catalog.SortedCopy | frontend/src/pages/CategoryPage.jsx:103-139 | sorting a fresh array of the filtered products yields their sorted list |
| Catalog.FilteredProducts | frontend/src/pages/CategoryPage.jsx:99-140 | the result is the filtered list, sorted by the mode of `sortBy` |
| Catalog.VisibleAreThePassing | frontend/src/pages/CategoryPage.jsx:99-140 | after sorting, every listed product passes; every passing product appears as often as in the input; no failing product appears |
| Catalog.TotalPages | frontend/src/pages/CategoryPage.jsx:143-144 | the page count is at least 1 and is the fewest pages of 12 that hold n products |
| Catalog.ClampPage | frontend/src/pages/CategoryPage.jsx:145-147 | a page above the total becomes the total; any other page is kept |
| Catalog.ClampedPageInRange | frontend/src/pages/CategoryPage.jsx:144-147 | a page number of at least 1 lies in [1, totalPages] once clamped |
| Catalog.SliceIndex | frontend/src/pages/CategoryPage.jsx:150 | `slice` reads an index in [0, length] as itself, a negative index as length plus it (0 when that is still negative), and an index past the end as length |
| Catalog.PageContents | frontend/src/pages/CategoryPage.jsx:148-151 | page p >= 1 holds elements [(p-1)*12, p*12) of the list, cut at its end, and so at most 12 |
| Catalog.PastLastPageIsEmpty | frontend/src/pages/CategoryPage.jsx:144-151 | a page past the last shows nothing, so the render before the clamp effect shows an empty slice |
| Catalog.PageEmptyOnlyWhenListEmpty | frontend/src/pages/CategoryPage.jsx:144-151 | for 1 <= p <= totalPages, the page is empty iff the filtered list is |
| Catalog.PagesCoverList | frontend/src/pages/CategoryPage.jsx:143-151 | element k is shown on page k/12+1 at offset k%12, and that page exists |
| Catalog.ClampedPageShowsSomething | frontend/src/pages/CategoryPage.jsx:143-151 | after clamping a page >= 1, the slice has at most 12 items and is empty only when nothing passed the filter |
| Catalog.CategoryView.constructor | frontend/src/pages/CategoryPage.jsx:26-29 | the initial state is query '', no price bounds, sort 'relevance', page 1 |
| Catalog.CategoryView.HandlePriceRangeChange | frontend/src/pages/CategoryPage.jsx:162-166 | sets the range (no bounds when none is given) and resets the page to 1; the other criteria are unchanged |
| Catalog.CategoryView.HandleSortChange | frontend/src/pages/CategoryPage.jsx:167 | sets the sort mode and resets the page to 1; the other criteria are unchanged |
| Catalog.CategoryView.HandleQueryChange | frontend/src/pages/CategoryPage.jsx:168 | sets the query and resets the page to 1; the other criteria are unchanged |
| Catalog.CategoryView.HandleClearFilters | frontend/src/pages/CategoryPage.jsx:171-173 | restores query '', no bounds, 'relevance' and page 1 |
| Catalog.CategoryView.SetPage | frontend/src/pages/CategoryPage.jsx:261 | the pagination control sets the current page and nothing else |
| Catalog.CategoryView.ClampPageEffect | frontend/src/pages/CategoryPage.jsx:145-147 | the current page becomes `ClampPage` of itself; the criteria are unchanged |
| Catalog.CategoryView.Render | frontend/src/pages/CategoryPage.jsx:17-151 | a render, its clamp effect and the re-render: the render computes the filtered, sorted list and the page count and slices with the page as it stands; the effect then clamps the page; the re-render slices the clamped page; the criteria are unchanged |
| ProductDetail.Decremented | frontend/src/pages/ProductDetail.jsx:74-76 | `dec` never goes below 1, lowers a quantity of 2 or more by one, and never raises a quantity of at least 1 |
| ProductDetail.Incremented | frontend/src/pages/ProductDetail.jsx:78-80 | `inc` never exceeds stock \|\| 999 or qty+1; it adds one below the ceiling, and never lowers a quantity within it |
| ProductDetail.StepperStaysInRange | frontend/src/pages/ProductDetail.jsx:74-80 | from a quantity in [1, ceiling], any series of - and + presses stays in [1, ceiling] |
| ProductDetail.IncrementsReachCeiling | frontend/src/pages/ProductDetail.jsx:78-80 | enough + presses reach the ceiling exactly |
| ProductDetail.AddGuardSpec | frontend/src/pages/ProductDetail.jsx:83-90 | the add proceeds iff each variant list is empty or has a choice; a missing color is reported first, then a missing size |
| ProductDetail.DetailAddKeepsKeysUnique | frontend/src/pages/ProductDetail.jsx:92 | adds from this page always pass both options, so they never duplicate a cart key |
| ProductDetail.DetailAddHasLine | frontend/src/pages/ProductDetail.jsx:92 | after the add, a line with the product's id, color and size is in the cart |
| ProductDetail.ProductDetailView.constructor | frontend/src/pages/ProductDetail.jsx:14-16 | the page starts with qty 1 and no color or size, so the stepper starts in range |
| ProductDetail.ProductDetailView.Decrement | frontend/src/pages/ProductDetail.jsx:74-76 | qty becomes `Decremented(qty)`, the choices are unchanged, and the stepper stays in range |
| ProductDetail.ProductDetailView.Increment | frontend/src/pages/ProductDetail.jsx:78-80 | qty becomes `Incremented(qty, stock)`, the choices are unchanged, and the stepper stays in range |
| ProductDetail.ProductDetailView.ChooseColor | frontend/src/pages/ProductDetail.jsx:154 | sets the color only |
| ProductDetail.ProductDetailView.ChooseSize | frontend/src/pages/ProductDetail.jsx:174 | sets the size only |
| ProductDetail.ProductDetailView.HandleAddToCart | frontend/src/pages/ProductDetail.jsx:82-97 | a refused add leaves the cart unchanged; otherwise the cart becomes exactly one `addToCart(product, qty, {color, size})` applied to it |
| ProductDetail.ProductDetailView.HandleBuyNow | frontend/src/pages/ProductDetail.jsx:99-111 | the same guards and single add as add-to-cart, and it navigates to the cart exactly when the add happened |
| UserViews.SetStatusSpec | backend/users/views.py:359-374 | the update succeeds iff the status is active, inactive or suspended and an admin is not demoting itself; a failure is a 400 with the account unchanged; a success sets the status, with is_active consistent |
| UserViews.DeleteSpec | backend/users/views.py:265-343 | an admin delete is refused (400, unchanged) iff it targets the admin itself, and otherwise soft-deletes; a self delete always soft-deletes |
| UserViews.RunKeepsConsistent | backend/users/views.py:265-379 | no sequence of status updates and deletes breaks `is_active == (status == 'active')` |
| UserViews.AdminCannotLockItselfOut | backend/users/views.py:326-379 | an active admin's own status updates and admin deletes aimed at itself, in any number and order, leave it active |
| UserViews.RunAppend | backend/users/views.py:265-379 | running two request sequences one after the other is running their concatenation |
| UserViews.LoginSpec | backend/users/views.py:64-106 | the gates run in order 400, 401, 403; only an authenticated user that is active with status 'active' gets tokens |
| UserViews.ConsistentAccountsPassStatusGate | backend/users/views.py:93-106 | from a consistent account, after any series of status updates and deletes, login's answer is decided by the `is_active` gate alone: 200 when active, 403 otherwise, and an active account has status 'active' |
| UserViews.DeletedCannotLogIn | backend/users/views.py:93-98 | after a soft delete, login is refused with 403 |
| UserViews.UserStatusUpdatePost | backend/users/views.py:352-379 | 403 for a requester who is not staff, before the lookup, with nothing changed; 404 for an unknown user; otherwise the stored user's (status, is_active) follows `SetStatus`, and its other fields are unchanged |
| UserViews.Destroy | backend/users/views.py:323-343 | 403 for a requester who is not staff, with nothing changed; 404 for an unknown user; otherwise the stored user follows `AdminDestroy`, and its other fields are unchanged |
| UserViews.DeleteAccount | backend/users/views.py:263-273 | the requesting user is soft-deleted with 200, and its other fields are unchanged |
| UserViews.LoginPost | backend/users/views.py:59-106 | the response code is `LoginCode` of the input validity and what `authenticate` returned |
| UserViews.ListUsersView | backend/users/views.py:286-310 | a requester who is not staff gets 403 and no row; a staff requester gets `ListUsers` |
| UserViews.SelectedSpec | backend/users/views.py:291-308 | the filter keeps exactly the listed rows, each as often as in the table |
| UserViews.ListUsersSpec | backend/users/views.py:288-310 | the list holds each row matching user_type, status and a case-insensitive search of username or email, each only when given; it holds no other row; it is ordered newest first |
| UserViews.NoParametersListsAll | backend/users/views.py:288-310 | with no parameter, the list is a permutation of the whole table |
| UserSerializers.ValidateUsernameSpec | backend/users/serializers.py:93-104 | rejects a taken username (reported first), then one with a space; otherwise returns it unchanged |
| UserSerializers.ValidateEmailSpec | backend/users/serializers.py:106-112 | rejects an already registered email, otherwise returns it unchanged |
| UserSerializers.ValidateRegistrationAttrsSpec | backend/users/serializers.py:83-91 | rejects iff password != password_confirm, otherwise returns the attrs unchanged |
| UserSerializers.ValidateRegistrationSpec | backend/users/serializers.py:83-112 | a registration is accepted iff all of these hold, and then the data come back unchanged: the username is free and has no space, the email is free, the password meets the rules, and the confirmation matches |
| UserSerializers.MismatchReportedLast | backend/users/serializers.py:83-104 | while the username, email or password rules fail, a password mismatch is not among the errors; a taken username is the first error reported |
| UserSerializers.ValidatePasswordChangeSpec | backend/users/serializers.py:165-182 | a change is accepted iff the old password checks, the new one meets the rules and is confirmed; a wrong old password is always reported |
| UserSerializers.OverwrittenSpec | backend/users/serializers.py:209-213 | each given profile attribute takes its new value and every other attribute is untouched |
| UserSerializers.SetAttributes | backend/users/serializers.py:211-212 | the `setattr` loop leaves the profile's attributes as `Overwritten` of the old ones |
| UserSerializers.Update | backend/users/serializers.py:196-215 | full_name and phone take the given value or keep the old one; other user fields are unchanged; non-empty profile data overwrite the profile's attributes, and an empty or absent dict leaves them unchanged; without a profile row it fails after saving the user fields |
| UserSerializers.ProfileCountNone | backend/users/serializers.py:125 | a user that no profile points to has no profile |
| UserSerializers.Database.constructor | backend/users/serializers.py:114-127 | empty tables, where every user trivially owns exactly one profile |
| UserSerializers.Database.Create | backend/users/serializers.py:114-127 | `password_confirm` is removed before `create_user`; the new user is built from the remaining data and appended; exactly one fresh, empty profile is created for it; every user still owns exactly one profile; the new user takes the next id, which no stored user has, and the next id advances by one |
| Users.User.constructor | backend/users/serializers.py:122 | a new user is active with status 'active', is not staff and has no profile yet |
| Users.Profile.constructor | backend/users/serializers.py:125 | a new profile belongs to the given user and has no attribute set |
| Common.OrElse | frontend/src/pages/CategoryPage.jsx:87-88 | `a ?? b` is a when a is present and b otherwise |
| Common.Lower | frontend/src/pages/CategoryPage.jsx:75 | lower-casing keeps the length and maps A-Z to a-z position by position |
| Common.Trim | frontend/src/pages/CategoryPage.jsx:101 | the query is a white-space prefix, then the result, then a white-space suffix, and the result neither starts nor ends with white space |
| Common.ContainsSelf | frontend/src/pages/CategoryPage.jsx:81-82 | every string contains itself, so equality implies containment |
| Common.LexLeTotal | frontend/src/pages/CategoryPage.jsx:130 | the name order compares every two names |
| Common.LexLeTransitive | frontend/src/pages/CategoryPage.jsx:130 | the name order is transitive |
| StableSort.SortSortedPermutation | frontend/src/pages/CategoryPage.jsx:124-133 | for a total comparator, the sort's result is ordered and a permutation of its input |
| StableSort.SortStable | frontend/src/pages/CategoryPage.jsx:124-133 | for a transitive comparator, each class of equal elements keeps its input order |
| StableSort.SortInPlace | frontend/src/pages/CategoryPage.jsx:124-133 | the in-place sort leaves the array equal to `Sort` of its old contents |

## Left out

- The localStorage load and save of the cart (`CartContext.jsx:14-23`) are I/O. The store starts empty. The load is an unguarded `JSON.parse`, so no fallback on corrupt data is modelled.
- The network fetches, the loading and error states, `navigate`, `alert`, and `decodeURIComponent` are left out. The decoded route parameter is an input to `SlugFromUrl`. Buy-now's navigation is its `goToCart` result.
- `handleCategoryChange` (`CategoryPage.jsx:154-160`) only navigates, so it is not modelled.
- The updater-function form of `handlePriceRangeChange` is not modelled. That form passes a function of the previous range.
- Catalog.NameLe: `localeCompare` is locale-dependent. The name sort uses lexicographic code-point order instead (which differs from UTF-16 code-unit order on characters outside the Basic Multilingual Plane), which is a total preorder like any locale's.
- Common.Lower: only ASCII letters are case-folded.
- Common.Trim: strips the ASCII white space plus NBSP and BOM. U+2028, U+2029 and the other Unicode space separators (Zs), which JS `trim` also strips, are kept.
- Prices are integers, compared and summed exactly. `Number()` coercion of decimal strings, NaN and floating-point sums are left out; a missing price counts as 0. A `null` and a missing name are not distinguished (both sort as "undefined").
- Cart.CartStore.GetCartTotal and Cart.CartStore.GetCartCount state the 0 and sign bounds in their contracts. Their meaning as sums is stated by `TotalAppend`, `CountAppend` and `TotalPermutationInvariant`.
- In the backend, the following are parameters: `authenticate`, JWT creation and blacklisting, Django's `validate_password`, `check_password` and the ORM. Lookups by id are a possibly-null user, and the existence checks are sets of stored usernames and emails. With Django's default backend, `authenticate` already refuses inactive users; that is not modelled.
- UserViews.LoginPost: the serializer's field rules are a boolean input. The `print` logging and the exception paths are left out (`traceback` is not imported in views.py).
- UserViews.ListUsers: rows with equal `created_at` keep table order, where the database leaves their order open. `icontains` is modelled as ASCII case-insensitive containment.
- backend/users/models.py is not part of this model. A new user's defaults are taken as status 'active', is_active true and user_type 'buyer'. Password hashing is not represented.
- UserSerializers.Update: the error when a user has no profile row stands for Django's `RelatedObjectDoesNotExist`. The serializer's restriction of profile keys to the six profile fields is not modelled.
- UserViews.AdminCannotLockItselfOut covers only an admin's status updates and admin deletes aimed at itself. An admin who calls DeleteAccountView on itself is deactivated (`DeleteSpec`). A PATCH through UserManageView can demote an admin too, because `UserSerializer` leaves `status` writable (`serializers.py:41`); that update path is not part of this model.
- Anonymous requests are not modelled. Each view takes an authenticated requester, so DeleteAccountView's `IsAuthenticated` always passes, and the 401 of an anonymous request is left out. `IsAdminUser` is modelled as the `is_staff` test, taken before the view's body.
- Catalog.CategoryView.Render runs the render, the clamp effect and the re-render in one call. React's scheduling of the effect is not modelled; the slice the first render shows is the `firstShown` result.
- Responses are reduced to their status codes; response bodies and messages other than validator errors are left out.

## Findings

| source | as written | input that shows it | evidently intended | confidence | as-written member | corrected member |
|---|---|---|---|---|---|---|
| frontend/src/utils/CartContext.jsx:27-31 | the lookup compares stored color/size with the raw options, but a new line stores `options.color \|\| ''` | `addToCart(product, 1)` twice (the product card's call) on any cart | the second add merges into the line (id, '', '') instead of appending a duplicate | high, not executed | Cart.AddWithoutOptionsDuplicatesKey | Cart.AddedNormalizedKeepsKeysUnique |
