# Storefront client model

A Dafny model of the core of a storefront client for a hosted commerce
platform. The client is a React and TypeScript single-page shop. The model
covers these parts:

- form validation (email, password, postal codes);
- customer registration and its error normalisation;
- the customer's own record: read it, update it through a list of update
  actions, change the password;
- the API facade's instance, token and sign-in logic;
- the cart: read, create, add, remove, change quantity, clear, empty test,
  stock check;
- discount codes: apply, remove, list active codes, format cart discounts;
- the product search's query preparation and the product list page
  (category tree, filters, paging, search);
- the breadcrumb trail, the filter dialog, the product card, and the
  profile page's address lists.

The platform appears as a `Platform.Store`. It holds the carts, the active
cart, the products, a log of posted cart updates and cart drafts, and an
outage switch that makes every call reject. Customer endpoints, the token
endpoint and the product search are parameters: a `Call` that resolves or
rejects. The browser's `localStorage` is a map in `CartQueries.World`. The
cart-change notification is a counter. The current time is a parameter
wherever the program reads the clock, one parameter per reading. JavaScript truthiness, `||`, `??` and
`error instanceof Error ? error.message : fallback` are written out in
`Common`.

One module per source area:

| module | file |
|---|---|
| `Common`, `JsString` | shared result shapes, JavaScript string `trim`/`split`/`join` |
| `Validations` | `validateEmail`, `validatePassword`, `postalCodePatterns` |
| `Registration` | `registerCustomer` |
| `CustomerActions`, `CustomerOps` | customer update actions, `getCurrentCustomer`, `updateCustomer`, `changePassword` |
| `SessionApi` | the `Api` class |
| `Platform`, `CartQueries`, `CartUpdates`, `CartProperties` | the cart operations |
| `Discounts` | discount codes and cart discounts |
| `ProductQuery`, `Pagination`, `ProductList`, `Breadcrumbs`, `Filters` | the product list page |
| `ProductCard`, `UserProfile` | the product card and the profile page |

## Model

| member | source | states |
|---|---|---|
| JsString.Trim | src/utils/validations.ts:4-8 | `trim()` removes exactly the leading and trailing whitespace: the result has none at either end and sits inside the input |
| JsString.TrimIdempotent | src/utils/validations.ts:8 | trimming twice is trimming once, so `email !== email.trim()` holds exactly when there is outer whitespace |
| JsString.Split | src/api/customers/customer-registration.tsx:55 | `split(':')` gives at least one part, no part holds the separator, and joining the parts gives the string back |
| JsString.SplitJoin | src/api/customers/customer-registration.tsx:55-61 | splitting a join of separator-free parts gives the parts back |
| JsString.Utf16Len | src/utils/validations.ts:32 | JavaScript `length`: each character counts one code unit, an astral one two, so the count lies between the character count and twice it |
| JsString.Utf16LenBmp | src/utils/validations.ts:32 | the code-unit length equals the character count exactly when no character is astral |
| JsString.Utf16LenConcat | src/components/ProductCard/ProductCard.tsx:122-123 | the code-unit length of a concatenation is the sum of the lengths |
| JsString.Utf16Prefix | src/components/ProductCard/ProductCard.tsx:122-123 | `substring(0, n)` on whole characters: a prefix of at most n code units that one more character would overflow, and the whole string when it fits |
| Validations.ValidateEmail | src/utils/validations.ts:3-21 | valid iff the email is in the language of `/^[^\s@]+@[^\s@]+\.[^\s@]+$/`; each message is returned exactly when every earlier check passes and its own fails |
| Validations.MatchesEmailIsPattern | src/utils/validations.ts:12-13 | the scanning matcher accepts exactly the language of the regular expression |
| Validations.EmailPatternUntrimmable | src/utils/validations.ts:8-13 | no string in the email language has outer whitespace, so the pattern test on the trimmed string sees the email itself |
| Validations.ValidatePassword | src/utils/validations.ts:23-49 | valid iff there is no outer whitespace, the length is at least 8 UTF-16 code units, and there is an uppercase letter, a lowercase letter and a digit; each message is returned exactly when its check is the first to fail |
| Validations.AstralPasswordAccepted | src/utils/validations.ts:32 | a six-character password of `Aa1` and three emoji is nine code units long and accepted |
| Validations.DigitsLanguage | src/types/interfaces.ts:28-34 | `\d{n}` accepts exactly the strings of n ASCII digits |
| Validations.PostalCodeLanguages | src/types/interfaces.ts:28-34 | Belarus and Russia accept exactly 6 digits, Ukraine 5, the United States 5 with an optional `-` and 4 more, and the unselected country only the empty string |
| Registration.NormalizeError | src/api/customers/customer-registration.tsx:54-70 | a truthy detailed message is split on `:` and trimmed into code, error and the rest rejoined; otherwise the entry takes the top-level fields, with the error falling back from the duplicate value to the message |
| Registration.RegisterCustomer | src/api/customers/customer-registration.tsx:20-75 | registered iff the status code is present and in [200, 300); the catch path yields one normalised entry per platform error, in order, and an empty list when there is no error array |
| Registration.NormalizeAll | src/api/customers/customer-registration.tsx:47-72 | one entry per error, each the normalisation of the error at the same index |
| Registration.DetailedMessageFields | src/api/customers/customer-registration.tsx:55-61 | a detailed message `code: error: message` is taken back apart into exactly those three fields |
| Registration.SimpleErrorExample | src/api/customers/customer-registration.tsx:64-69 | without a detailed message or a duplicate value, every field except the code is the message |
| CustomerActions.ToWire | src/api/customers/customer-actions.tsx:14-67 | every action's wire form decodes back to the same action |
| CustomerActions.ToWireInjective | src/api/customers/customer-actions.tsx:14-67 | distinct actions have distinct wire forms |
| CustomerActions.CreateChangeAddressAction | src/api/customers/customer-actions.tsx:41-48 | the wire form carries `changeAddress` with the address id and the address |
| CustomerActions.CreateSetFirstNameAction | src/api/customers/customer-actions.tsx:14-17 | the wire form is `setFirstName` carrying the first name |
| CustomerActions.CreateSetLastNameAction | src/api/customers/customer-actions.tsx:19-22 | the wire form is `setLastName` carrying the last name |
| CustomerActions.CreateChangeEmailAction | src/api/customers/customer-actions.tsx:24-27 | the wire form is `changeEmail` carrying the email |
| CustomerActions.CreateSetDateOfBirthAction | src/api/customers/customer-actions.tsx:29-34 | the wire form is `setDateOfBirth` carrying the date |
| CustomerActions.CreateAddAddressAction | src/api/customers/customer-actions.tsx:36-39 | the wire form is `addAddress` carrying the address |
| CustomerActions.CreateRemoveAddressAction | src/api/customers/customer-actions.tsx:50-53 | the wire form is `removeAddress` carrying the address id |
| CustomerActions.CreateSetDefaultShippingAddressAction | src/api/customers/customer-actions.tsx:55-60 | the wire form is `setDefaultShippingAddress` carrying the address id |
| CustomerActions.CreateSetDefaultBillingAddressAction | src/api/customers/customer-actions.tsx:62-67 | the wire form is `setDefaultBillingAddress` carrying the address id |
| CustomerActions.DefaultAddressPair | src/api/customers/customer-actions.tsx:55-67 | the default-shipping and default-billing actions for one id carry the same id under different action names |
| CustomerOps.AddressActionFor | src/api/customers/customer-update.tsx:48-60 | the address action is an add when the op is add and an address is given, a change when the op is change with both an id and an address, a remove when the op is remove with an id, and none otherwise |
| CustomerOps.BuildActions | src/api/customers/customer-update.tsx:30-68 | an action is in the list iff its form field is truthy (or it is the selected address action), and the list is in the fixed order first name, last name, email, birth date, address, default shipping, default billing |
| CustomerOps.AtMostOneAddressAction | src/api/customers/customer-update.tsx:48-60 | a list in that order holds at most one address action |
| CustomerOps.GetCurrentCustomer | src/api/customers/customer-get.tsx:4-30 | without a root or a signed-in customer nothing is requested and the result is `User not authenticated`; otherwise one read, success exactly when it resolves, and the thrown message on rejection |
| CustomerOps.UpdateCustomer | src/api/customers/customer-update.tsx:15-92 | unauthenticated calls send nothing; otherwise the record is read, then one post carries the read version and the built action list; success iff both calls resolve |
| CustomerOps.PasswordErrorMessage | src/api/customers/customer-change-password.ts:59-70 | an Error's message, a thrown string itself, or `Failed to change password` |
| CustomerOps.ChangePassword | src/api/customers/customer-change-password.ts:5-72 | without a root nothing is sent; otherwise the password post carries the record's numeric version, or 1 when the read fails or carries no version, and the passwords unchanged |
| SessionApi.GetInstance | src/api/api.ts:14-19 | the first call creates the instance; later calls return it |
| SessionApi.GetInstanceStable | src/api/api.ts:14-19 | every later call returns the object the first call returned and changes nothing |
| SessionApi.GetTokenCustomer | src/api/api.ts:21-23 | the stored token, or undefined when it is unset or empty |
| SessionApi.GetToken | src/api/api.ts:121-149 | a rejected fetch is rethrown as it came; a non-ok answer throws `Auth failed: token not received`; a body that is not a truthy object with a string `access_token` throws `Token not received`; otherwise exactly that token is stored and returned |
| SessionApi.TokenReadBack | src/api/api.ts:21-23 | after a successful `getToken`, `getTokenCustomer` returns the token, or undefined when it was empty |
| SessionApi.FailedTokenKeepsState | src/api/api.ts:138-153 | a failed `getToken` leaves the stored token as it was |
| SessionApi.LoginCustomer | src/api/api.ts:95-117 | the token is requested only after the login post resolved; the result pairs the login body with the token |
| SessionApi.RegistrationBody | src/api/api.ts:65-79 | the posted draft carries the form fields, exactly the one address, and no default addresses |
| CartQueries.CheckItemAvailability | src/api/cart/cart-checkItem.tsx:4-51 | available iff the product reads, has a published projection, has the selected variant with availability data, is on stock, and has at least the requested quantity; each refusal carries its own message |
| CartQueries.SelectVariant | src/api/cart/cart-checkItem.tsx:18-21 | the master variant when no id is given or the id is the master's, else the first variant with that id |
| CartQueries.GetCart | src/api/cart/cart-get.tsx:4-35 | signed in, the active cart is read; anonymous, the cart under the stored id, and no request at all when that id is missing or empty; success iff there is a response |
| CartQueries.GetCartResolves | src/api/cart/cart-get.tsx:4-35 | a successful read returns the cart the store holds under the id read |
| CartQueries.NewCartDraft | src/api/cart/cart-create.tsx:14-21 | EUR and DE, with an anonymous id exactly when not signed in |
| CartQueries.CreateCart | src/api/cart/cart-create.tsx:9-44 | posts one draft on the session's route; signed in without a root it succeeds with no response; a rejection gives its message |
| CartQueries.IsCartEmpty | src/api/cart/cart-is-empty.tsx:3-19 | empty iff the read fails or the cart read has no line items |
| CartQueries.NotEmptyMeansItems | src/api/cart/cart-is-empty.tsx:13-17 | a cart reported not empty was read and has a line item |
| CartUpdates.AddToCart | src/api/cart/cart-add.tsx:11-107 | refuses an unavailable item with the check's message and stops at the attempt limit, changing nothing; with a resolved cart, posts one add line item to that cart's id and version on the session's route, giving `Item added to cart` or the thrown message (`Unknown error` for a non-Error); without one, takes the create-and-retry branch; it only extends the store's history, creates at most one draft per remaining attempt, posts at most one update, notifies exactly on success, and writes no storage except, for a guest, `anonymousCartId` set to the id of a cart drafted during the call |
| CartUpdates.AddToResolved | src/api/cart/cart-add.tsx:37-77 | one add line item for the product and quantity posted to the resolved cart's id and version; `Item added to cart` and one notification when the post returns, its message when it throws; drafts and storage untouched |
| CartUpdates.RetryWithNewCart | src/api/cart/cart-add.tsx:78-99 | when creating a cart fails, gives `Failed to create new cart` with the creation's effects; when it succeeds, the outcome is `addToCart` run again with `attempt + 1` and no variant, on the state where the new cart exists and, for a guest, its id is stored in `anonymousCartId`; either way the call only extends the store's history, posts at most one update, and writes no other storage |
| CartUpdates.StartNewCart | src/api/cart/cart-add.tsx:79-89 | a failed creation gives `Failed to create new cart` and changes no storage; a successful one drafts exactly one cart and, for a guest only, stores that cart's id under `anonymousCartId` |
| CartProperties.SignedInAddCreatesAtMostOneCart | src/api/cart/cart-add.tsx:78-99 | signed in, with the item in stock and a retry left, an add succeeds after posting exactly one update and drafting at most one cart; when a cart is drafted, the update goes through `me().carts()` to that new cart and carries the single add action |
| CartProperties.AnonymousAddCreatesAtMostOneCart | src/api/cart/cart-add.tsx:78-99 | anonymous, with the item in stock and a retry left, an add succeeds after posting exactly one update and drafting at most one cart; when a cart is drafted, its id is what `anonymousCartId` holds and the update goes through `carts()` to that cart with the single add action |
| CartUpdates.RemoveFromCart | src/api/cart/cart-remove.tsx:11-68 | posts one remove line item for the id against the resolved cart, reports `No active cart found` when there is none, gives `Items removed from cart` or the thrown message (`Unknown error` for a non-Error), and notifies on every path |
| CartUpdates.FindLineItem | src/api/cart/cart-change.tsx:35 | the first line item with the id, and none exactly when no line item has it |
| CartUpdates.ChangeQuantity | src/api/cart/cart-change.tsx:10-99 | a negative quantity is refused with nothing changed, zero delegates to removing the item, a missing cart or an unknown item is refused; a failed stock check gives its message or `Not enough stock`; anything posted is one change quantity action at the cart's version after the check passed, giving `Quantity updated successfully` or the thrown message (`Failed to change quantity` for a non-Error); success notifies once |
| CartUpdates.ChangeItemQuantityAsWritten | src/api/cart/cart-change.tsx:44-66 | as written, a positive quantity is posted only when the stock check passes with the variant id as the requested quantity and the new quantity as the variant id |
| CartUpdates.ChangeItemQuantity | src/api/cart/cart-change.tsx:44-66 | with the stock check's arguments in the intended order, a positive quantity is posted only when the item's variant has at least that much stock |
| CartUpdates.ClearActions | src/api/cart/cart-clear.tsx:21-25 | one remove line item per line item, same order, with its id and quantity |
| CartUpdates.ClearCart | src/api/cart/cart-clear.tsx:4-73 | posts one removal per line item to the cart read, at its id and version, on the `me` route with a root and the anonymous route without; succeeds exactly when that post returns, carrying the posted cart and notifying once; a rejected read or post gives its message, `Failed to clear cart` for a non-Error |
| Discounts.ApplyDiscountCode | src/api/discount/discount-apply.tsx:4-32 | exactly one add discount code with the code as given, always through the `me` carts route, at the read cart's id and version; resolves to what the post returns and rethrows its rejection unchanged; rejects with `Cart not found` when no cart resolves |
| Discounts.RemoveDiscountCode | src/api/discount/discount-remove.tsx:4-35 | exactly one remove discount code referencing the id as a `discount-code`, at the read cart's id and version; resolves to what the post returns and rethrows its rejection unchanged; rejects with `Cart not found` when no cart resolves |
| Discounts.GetCartDiscounts | src/api/discount/cart-discounts.tsx:5-24 | the resolved cart's direct discounts and discount codes, unchanged |
| Discounts.FormatCode | src/api/discount/cart-discounts.tsx:36-42 | a missing or empty code reads `Unknown`, a missing or empty name reads `Discount` |
| Discounts.DiscountedAmount | src/api/discount/cart-discounts.tsx:44-48 | zero when the taxed net is missing or zero, else the total minus the net |
| Discounts.GetCartDiscountsFormatted | src/api/discount/cart-discounts.tsx:26-57 | no cart gives null; otherwise both lists formatted element by element (empty when missing), the discount total and the version |
| Discounts.DiscountWhere | src/api/discount/discount-get.tsx:10-13 | the active clause and the validity clause for the given time, joined with ` and ` |
| Discounts.WhereQuotesNow | src/api/discount/discount-get.tsx:12 | the predicate quotes exactly the time it was built with |
| Discounts.GetActiveDiscountCodes | src/api/discount/discount-get.tsx:4-32 | one summary per code returned, in order; a failed query gives no codes and no response |
| ProductQuery.PrepareQueryArgs | src/api/products/product-query.tsx:61-75 | every key comes from the defaults, the caller, or a non-empty search term; each value is the term with `*` for `text.en-US`, else the caller's, else the default; the defaults apply to every key the caller omits; undefined values and `searchTerm` are dropped |
| ProductQuery.NoArgumentsMeansDefaults | src/api/products/product-query.tsx:61-67 | with no arguments the search runs on the defaults alone |
| ProductQuery.GetProductsList | src/api/products/product-query.tsx:55-96 | the request has no `searchTerm` and no undefined value, keeps the defaults the caller omitted, carries a non-empty term as a `text.en-US` prefix match, and a failed search is rethrown with the same error |
| Pagination.CurrentPage | src/components/products-list/PaginationControls.tsx:22 | the page number p satisfies (p − 1)·limit ≤ offset < p·limit |
| Pagination.TotalPages | src/components/products-list/PaginationControls.tsx:23 | the least page count covering the total, and 0 when the total is missing or zero |
| Pagination.IsNextDisabled | src/components/products-list/PaginationControls.tsx:24 | disabled iff the total is known and the next page would start at or past it |
| Pagination.NextDisabledOnLastPage | src/components/products-list/PaginationControls.tsx:22-24 | on a page boundary inside a known list, Next is disabled exactly on the last page |
| Pagination.IsPrevDisabled | src/components/products-list/PaginationControls.tsx:29 | Previous is disabled exactly at offset 0 |
| Pagination.PrevDisabledOnFirstPage | src/components/products-list/PaginationControls.tsx:22-29 | on a page boundary, Previous is disabled exactly on page 1 |
| ProductList.GetTopLevelCategories | src/components/products-list/Products-list.tsx:35-37 | exactly the categories without a truthy parent id, in their order, each as many times as it occurs in the input |
| ProductList.BuildCategoryTree | src/components/products-list/Products-list.tsx:39-57 | the two passes build exactly the forest defined category by category; an id has a node iff some category has it, and the node is the last category with that id; a category is a root iff its parent id is falsy or unknown, otherwise it is listed under its parent, in input order |
| ProductList.MapCategories | src/components/products-list/Products-list.tsx:43-45 | the first pass maps each id to the last category that has it |
| ProductList.PlaceCategories | src/components/products-list/Products-list.tsx:47-54 | the second pass lists the root ids and each parent's child ids in input order |
| ProductList.ChildrenStep | src/components/products-list/Products-list.tsx:47-54 | placing one more category appends its id to its parent's child list when the parent is a known category, and changes no list otherwise |
| ProductList.RootsStep | src/components/products-list/Products-list.tsx:47-54 | placing one more category appends its id to the root list exactly when it is a root |
| ProductList.IdsWherePush | src/components/products-list/Products-list.tsx:47-54 | one more category appends its id exactly when it is kept, as `push` does |
| ProductList.NodeMap | src/components/products-list/Products-list.tsx:41-45 | one entry per id occurring in the list, holding a category with that id; the last one when no later category shares it |
| ProductList.PlacedExactlyOnce | src/components/products-list/Products-list.tsx:47-54 | with unique ids each category is placed exactly once: once among the roots if it is a root, otherwise once under its parent |
| ProductList.RootsAndChildrenDisjoint | src/components/products-list/Products-list.tsx:35-54 | a root is nobody's child, and every top-level category is a root |
| ProductList.SubcategoriesOf | src/components/products-list/Products-list.tsx:76-85 | none when nothing is selected or no root has the selected id; otherwise the nodes behind the selected root's child ids, in order |
| ProductList.NodesOf | src/components/products-list/Products-list.tsx:50 | the nodes of the ids that resolve, in id order, one for one when every id resolves |
| ProductList.SubcategoriesAreChildren | src/components/products-list/Products-list.tsx:47-85 | in a built forest every child id resolves, so the subcategories are the selected root's children one for one, each a category of the list, and with unique ids each hangs under the selected root |
| ProductList.CategoryFilters | src/components/products-list/Products-list.tsx:93-97 | one filter for a selected category, then one for the selected subcategory exactly when it is among the current subcategories |
| ProductList.SubcategoryChange | src/components/products-list/Products-list.tsx:120-123 | selects the subcategory and returns to offset 0; nothing else changes |
| ProductList.SearchChange | src/components/products-list/Products-list.tsx:125-127 | changes only the typed query, not the applied one |
| ProductList.ApplySearch | src/components/products-list/Products-list.tsx:135-138 | the typed query becomes the applied one and the offset returns to 0; nothing else changes |
| ProductList.CategoryChange | src/components/products-list/Products-list.tsx:140-144 | selects the category, clears the subcategory and returns to offset 0; nothing else changes |
| ProductList.LimitChange | src/components/products-list/Products-list.tsx:146-149 | sets the page size and returns to offset 0; nothing else changes |
| ProductList.PrevPage | src/components/products-list/Products-list.tsx:151-153 | moves back one page only when a whole page lies before; only the offset changes |
| ProductList.NextPage | src/components/products-list/Products-list.tsx:155-157 | moves forward one page only when the loaded page is full; only the offset changes |
| ProductList.SearchParams | src/components/products-list/Products-list.tsx:92-104 | the page's limit and offset, the two facets, the category filters or undefined when there are none, and the applied query as `searchTerm` when there is one |
| ProductList.NextThenPrev | src/components/products-list/Products-list.tsx:151-157 | going forward one page and back again returns to the same state |
| ProductList.HandlersKeepAlignment | src/components/products-list/Products-list.tsx:120-157 | every handler keeps the offset a multiple of a positive page size |
| ProductList.PageWindow | src/components/products-list/Products-list.tsx:99-107 | the search receives the page's limit and offset |
| ProductList.PageText | src/components/products-list/Products-list.tsx:99-107 | the search has a text query exactly when a search was applied, as a prefix match on it |
| ProductList.PageFilter | src/components/products-list/Products-list.tsx:99-107 | the search has a filter exactly when there is a category filter to give |
| ProductList.KeyDown | src/components/products-list/Products-list.tsx:129-138 | Enter applies the query only when the Search button would be enabled, so a newly applied query has at least two UTF-16 code units after trimming |
| ProductList.KeyDownAsWritten | src/components/products-list/Products-list.tsx:129-133 | as written, Enter applies the typed query and returns to offset 0 whatever its length; any other key changes nothing |
| ProductList.EnterAppliesShortQuery | src/components/products-list/Products-list.tsx:129-133 | as written, Enter applies a one-letter query the Search button refuses |
| Breadcrumbs.FindCategory | src/components/products-list/Breadcrumbs.tsx:32-47 | finds the node iff some node at any depth has the id, and returns the ancestors it was found under, nearest first, forming a path from the forest down to it |
| Breadcrumbs.DisplayName | src/components/products-list/Breadcrumbs.tsx:41 | the en-US name, else the key, else the fallback |
| Breadcrumbs.FindChild | src/components/products-list/Breadcrumbs.tsx:58 | the first child with the id, and none exactly when no child has it |
| Breadcrumbs.GetBreadcrumbs | src/components/products-list/Breadcrumbs.tsx:24-70 | Home first; only Home when nothing is selected or the id is not in the tree; else the ancestors' crumbs, the category's crumb, and the subcategory's crumb exactly when it is a direct child, named after the first such child with `Unnamed Subcategory` as the fallback |
| Breadcrumbs.NearestAncestorFirst | src/components/products-list/Breadcrumbs.tsx:38-43 | for a category two levels down, the parent's crumb precedes the grandparent's |
| Filters.Toggle | src/components/products-list/FilterModal.tsx:143-153 | flips the value's membership; other values keep their membership, order and counts; an absent value is appended at the end |
| Filters.ToggleTwice | src/components/products-list/FilterModal.tsx:143-147 | toggling an absent value twice restores the selection |
| Filters.GetCachedFacets | src/components/products-list/FilterModal.tsx:120-133 | the stored record exactly while it is younger than 900000 ms |
| Filters.CacheRoundTrip | src/components/products-list/FilterModal.tsx:120-141 | a cached record reads back with the same attributes exactly while it is fresh |
| Filters.CacheFacets | src/components/products-list/FilterModal.tsx:135-141 | the cached record carries exactly the attributes given and the time stamp |
| Filters.AttributesFromFacets | src/components/products-list/FilterModal.tsx:83-104 | terms facets give the colours and finishes; the first price range gives the bounds, a falsy or missing bound falling back to 0 and 10000; a missing facet makes the read fail |
| Filters.OpenDialog | src/components/products-list/FilterModal.tsx:58-118 | queries exactly when the cache is not fresh; a fresh entry is shown unchanged; a failed fetch changes nothing; a successful one shows the fetched attributes, caches them stamped with the clock read after the fetch, and takes the price range from them only when it was (0, 0); selections never change |
| Filters.FetchThenReopen | src/components/products-list/FilterModal.tsx:58-68 | attributes fetched at one opening are served from the cache, without a query, at any opening within fifteen minutes of the fetch |
| Filters.Reset | src/components/products-list/FilterModal.tsx:168-173 | empties both selections and sets the price range to the available bounds |
| Filters.Swatch | src/components/products-list/FilterModal.tsx:234-235 | a colour without `:` is its own name, with the code `#CCCCCC`; otherwise the name runs to the first `:` and the code up to the next `:`, an empty code falling back to `#CCCCCC` |
| Filters.SwatchOfNameAndCode | src/components/products-list/FilterModal.tsx:234-235 | a `name:code` colour is taken apart into its name and code |
| ProductCard.CurrencyCode | src/components/ProductCard/ProductCard.tsx:25 | the first price's currency, `USD` when it has none |
| ProductCard.Preview | src/components/ProductCard/ProductCard.tsx:120-124 | a description of at most 100 UTF-16 code units is shown whole; a longer one as the longest prefix of at most 100 code units that one more character would overflow, then `...` |
| ProductCard.PlainPreview | src/components/ProductCard/ProductCard.tsx:120-124 | without astral characters, a description of at most 100 characters is shown whole and a longer one as its first 100 characters and `...` |
| ProductCard.AstralPreview | src/components/ProductCard/ProductCard.tsx:122-123 | sixty emoji are 120 code units, so only the first fifty are shown, then `...` |
| ProductCard.DiscountNeedsBothAmounts | src/components/ProductCard/ProductCard.tsx:26-29 | a discount is shown exactly when both cent amounts are present; a discounted record without a value shows none |
| ProductCard.ButtonText | src/components/ProductCard/ProductCard.tsx:96-100 | `Loading...`, then `In Cart`, then the availability message, then `Add to Cart` |
| ProductCard.LoadCard | src/components/ProductCard/ProductCard.tsx:41-64 | the message says whether one unit is available; the card is in the cart iff the cart read holds a line item of the product; the button is then disabled iff in the cart or unavailable |
| ProductCard.HandleAddToCart | src/components/ProductCard/ProductCard.tsx:66-80 | does nothing while the button is disabled (in the cart, or unavailable); otherwise adds one unit and marks the card in the cart exactly when the add succeeded |
| ProductCard.HandleAddToCartAsWritten | src/components/ProductCard/ProductCard.tsx:66-80 | as written, does nothing while the button is disabled, and otherwise adds one unit and marks the card in the cart whatever the add returned |
| ProductCard.FailedAddShownInCart | src/components/ProductCard/ProductCard.tsx:72-75 | as written, an add that fails still shows `In Cart` |
| UserProfile.DefaultAddress | src/pages/UserProfile/UserProfile.tsx:46-52 | an undefined or empty id finds nothing; otherwise the first address with the id |
| UserProfile.FindById | src/pages/UserProfile/UserProfile.tsx:48 | the first address with the id, and none exactly when no address has it |
| UserProfile.ByIds | src/pages/UserProfile/UserProfile.tsx:54-60 | equals the lookups of the ids with the misses filtered out: the first address with each id, in the ids' order, a repeated id listing its address again |
| UserProfile.Defined | src/pages/UserProfile/UserProfile.tsx:56 | the filter keeps every found address as many times as it was found, and in the lookups' order (wrapped back as found lookups, the result is a subsequence of them) |
| UserProfile.RepeatedIdListedTwice | src/pages/UserProfile/UserProfile.tsx:54-56 | an id listed twice shows its first address twice |
| UserProfile.Others | src/pages/UserProfile/UserProfile.tsx:62-66 | exactly the addresses with an id in neither list, in their order, each as many times as it occurs in the customer's addresses |
| UserProfile.LoadProfile | src/pages/UserProfile/UserProfile.tsx:27-89 | a rejected load shows `Error loading data`, an unsuccessful one the not-available message; a record without addresses but with ids to look up fails; otherwise billing and shipping are the addresses of their id lists in id order, other the addresses in neither list, and the two defaults |
| UserProfile.EveryAddressListed | src/pages/UserProfile/UserProfile.tsx:54-66 | with unique ids, an address is billing iff its id is a billing id, shipping iff a shipping id, other iff neither; an address without an id is in no list |

## Left out

- The token cache, token revocation, the anonymous-to-customer cart merge and a cart-subscription register are not part of this model. The model treats the facade's `cartGet`, `cartCreate`, `cartCheckItem`, `cartRemoveItems` and `notifyCartSubscribers` as `GetCart`, `CreateCart`, `CheckItemAvailability`, `RemoveFromCart` and a counter increment.
- `validateFirstName`, `validateLastName`, `validateDate`, `validateStreet`, `validateCity` and `validatePostalCode` are not part of this model. The postal-code patterns they would use are modelled.
- ProductCard.AddOne: the model takes the `@/api/cart` wrapper to forward the defaults of `addToCart` (one unit, attempt 0 of 3); the wrapper itself is not part of this model.
- CartUpdates.ROOT_UNDEFINED is the message text V8 gives the TypeError of `getApiRoot!.me()` on an undefined root; other engines word it differently.
- Preview: when the 100th code unit is the first half of a surrogate pair, JavaScript keeps a lone surrogate, which a Dafny string of Unicode scalars cannot hold; the model stops before that character instead.
- HTTP, the SDK client builder and the environment configuration are not modelled. Every platform answer is a parameter or comes from `Platform.Store`.
- The platform's own semantics of cart actions are not modelled. A posted update is logged and bumps the version; the line items, totals and discounts it would change are left as they were.
- Floating point is not modelled: `discountPercentage`, `Intl.NumberFormat`, and prices and bounds, which are integers here.
- React rendering and effect scheduling are not modelled. Each handler and effect is one function from state to state. The diagnostic cart read at the end of the product card's add handler only logs, and is left out.
- `JSON.parse` of the facet cache is not modelled. The stored entry is already classified as missing, unparseable, or a parsed record.
- The discount-code `where` predicate is modelled as the string sent. How the platform evaluates it is not modelled.
- Console logging is not modelled.
- CartQueries.IsCartEmpty: a rejected read is empty, as in `isCartEmpty`. The TypeError that a read resolving without a body would raise is covered by the same path.
- CartUpdates.ClearCart: the `!activeCart` check cannot fire, because a resolved read always has a response. The model has no path for it.
- ProductCard.LoadCard: neither the stock check nor the cart read rejects in this model, since both resolve to result records. The card's `Error checking availability` path is therefore not reachable here.
- SessionApi.GetToken: the URL, the Basic credentials and the form encoding of the token request are not modelled. Only the fetch's outcome and the answer's handling are.
- Breadcrumbs.GetBreadcrumbs: `findCategory` follows `children` only where they exist. Trees here always carry a (possibly empty) child list, as `buildCategoryTree` builds them.

## Findings

| source | as written | input that shows it | evidently intended | confidence | as-written member | corrected member |
|---|---|---|---|---|---|---|
| src/api/cart/cart-change.tsx:44-48 | `cartCheckItem(productId, variant?.id, newQuantity)` passes the variant id as the quantity and the new quantity as the variant id, against the `(productId, requestedQuantity, variantId)` order of src/api/cart/cart-checkItem.tsx:4-8 | a line item of variant 1 with 100 in stock, new quantity 5: the check looks for variant 5 and refuses with `Variant not found` | check the new quantity against the item's variant | high; not executed | CartProperties.SwappedStockCheckRefuses | CartProperties.IntendedStockCheckAccepts |
| src/components/products-list/Products-list.tsx:129-133 | Enter calls `applySearch` with no length check | query `a`: the Search button is disabled (src/components/products-list/Products-list.tsx:204), yet Enter applies it | Enter obeys the same two-character minimum as the button | medium; not executed | ProductList.EnterAppliesShortQuery | ProductList.KeyDown |
| src/components/ProductCard/ProductCard.tsx:72-75 | `addToCart` resolves to `{ success: false, ... }` instead of throwing, and `setIsInCart(true)` runs regardless | the platform unreachable when the button is pressed: the add fails, and the button reads `In Cart` and is disabled | mark the card in the cart only when the add succeeded | medium; not executed | ProductCard.FailedAddShownInCart | ProductCard.HandleAddToCart |
