# Stock manager: a Dafny model of the product service and its pages

This project models the core of a small stock manager. It has two layers that share one
domain: products with an id, a description, a quantity and a soft-delete flag.

- **The product service** (`ProductService.java`) keeps the product table. It has
  operations to create, get, update, list, soft-delete, restore, stock out and stock in.
  `Server.ProductService` is a class over a `map<int, Product>`. Each method changes at
  most one entry, and its contract says exactly what the map becomes. Each operation's
  effect on the product it finds is a pure function (`SoftDeleted`, `Restored`,
  `StockedOut`, `StockedIn`), and lemmas prove laws about those functions: idempotence,
  and each operation undoing the other.
- **The search query** (`ProductRepository.java`) is a pure filter followed by
  `order by p.id desc`. `ProductRepository.Search` returns exactly the matching stored
  rows, each once, with ids strictly descending.
- **The products page** (`Products.jsx`) is the class `InventoryView.ProductsPage`, which
  holds the page's eleven state fields:
  - Each async handler is one atomic method. The replies it awaits are parameters, and
    it returns the requests it sent. An empty list means a client-side check stopped the
    handler before any call.
  - The comparator behind `sortedItems` and the sort itself live in `SortOrder`. They are
    proved to produce a sorted permutation. The order they produce is unique when ids are
    distinct, and DESC is exactly ASC reversed.
- **The sign-in page** (`Login.jsx`) is the class `LoginPage.LoginForm`. It covers the
  login/register mode toggle, the blank check before any request, and the return to
  login mode after a successful registration.
- **`CrossLayer`** connects the two sides:
  - A stock-out that the page allows against an up-to-date row never hits the service's
    insufficient-stock refusal.
  - Quantity 0 is refused by the page but accepted by the service.
  - A control character counts as a description for the page but as blank for the
    service.

Strings are `seq<char>`. The JavaScript and Java string functions the code relies on are
written out in `Text`:
- `trim` uses the full JavaScript whitespace set.
- `isBlank` and `@NotBlank` follow Java's rules.
- Case folding covers ASCII letters only.
- `Number()` is modelled for integer text.
- `localeCompare` is modelled as a case-insensitive code-unit comparison.

The model follows the code in these points, where a reader might expect otherwise:
- `softDelete` and `restore` on the page have no `catch`. A failed call therefore leaves
  `msg`, the listing and the stock-out session as they were, and only resets `loading`;
  the error is not shown.
- `openStockOut` sets the session unconditionally. While one row is being edited, the
  "Saída" button on another row moves the session to that row.
- A delete closes the stock-out session only after the delete call succeeds.
- The status filter reloads the listing only when its value actually changes: the effect
  depends on `[status]`.

## Model

| member | source | states |
|---|---|---|
| Text.Trim | stock-frontend/src/pages/Products.jsx:51 | the trimmed text is a middle slice of the input with only JavaScript whitespace before and after it; it is empty exactly when every character is whitespace, and otherwise neither starts nor ends with whitespace |
| Text.ToNumber | stock-frontend/src/pages/Products.jsx:52 | a number exactly when the trimmed text is empty, a numeral, or a `+` or `-` sign followed by a numeral; the value is 0, the numeral's value, or that value signed; anything else is not a number |
| Text.LetterIsNotANumber | stock-frontend/src/pages/Products.jsx:52 | text with a letter anywhere in it is not a number, because the letter survives the trim and fits neither numeral shape |
| Text.ToNumberOfDecimal | stock-frontend/src/pages/Products.jsx:52 | `Number` reads back the decimal numeral of every natural number |
| Text.ToNumberOfNegativeDecimal | stock-frontend/src/pages/Products.jsx:52 | `Number` reads a minus sign and a numeral as the negated value |
| Text.Lower | src/main/java/com/example/stockmanager/product/ProductRepository.java:12 | `lower` keeps the length and lower-cases each ASCII capital, leaving other characters alone |
| Text.Upper | src/main/java/com/example/stockmanager/product/ProductService.java:44 | `toUpperCase` keeps the length and upper-cases each ASCII small letter, leaving other characters alone |
| Text.CompareCodes | stock-frontend/src/pages/Products.jsx:168 | a three-way comparison in -1..1 that is 0 exactly for equal strings |
| Text.CompareCodesAntisymmetric | stock-frontend/src/pages/Products.jsx:168 | swapping the arguments negates the comparison |
| Text.CompareCodesTransitive | stock-frontend/src/pages/Products.jsx:168 | the strict order is transitive |
| Text.CompareText | stock-frontend/src/pages/Products.jsx:168 | `cmpStr` is 0 exactly when the strings agree up to letter case |
| Text.CompareTextIsTotalPreorder | stock-frontend/src/pages/Products.jsx:168 | `cmpStr` is antisymmetric and transitive in its strict, non-strict and equal forms |
| ProductRepository.MaxId | src/main/java/com/example/stockmanager/product/ProductRepository.java:18 | a non-empty id set has a largest member |
| ProductRepository.IdsDescending | src/main/java/com/example/stockmanager/product/ProductRepository.java:18 | the ids of a set, each once, strictly descending |
| ProductRepository.Collect | src/main/java/com/example/stockmanager/product/ProductRepository.java:11-17 | keeps exactly the matching rows of the given ids, in the order of the ids |
| ProductRepository.Search | src/main/java/com/example/stockmanager/product/ProductRepository.java:10-20 | `search` returns exactly the stored products matching the description and status filters, ordered by id strictly descending |
| ProductRepository.SearchAllIsDisjointUnion | src/main/java/com/example/stockmanager/product/ProductRepository.java:13-17 | the ALL result is the union of the ACTIVE and DELETED results, and those two share no product |
| ProductRepository.SearchHasNoDuplicates | src/main/java/com/example/stockmanager/product/ProductRepository.java:11-18 | no product appears twice in a result |
| ProductRepository.EmptyQueryMatchesAll | src/main/java/com/example/stockmanager/product/ProductRepository.java:12 | a null or empty `q` filters on status alone |
| Server.SoftDeleted | src/main/java/com/example/stockmanager/product/ProductService.java:52-58 | the product ends deleted; an already deleted product is unchanged, its deletion time included; an active product gets deletion time `now`; only the flag and the time can change |
| Server.Restored | src/main/java/com/example/stockmanager/product/ProductService.java:61-67 | the product ends active with no deletion time; only the flag and the time can change |
| Server.StockedOut | src/main/java/com/example/stockmanager/product/ProductService.java:70-78 | CONFLICT "Product is deleted" on a deleted product, CONFLICT "Insufficient stock" when the amount exceeds the stock, and otherwise the stock reduced by the amount, never below zero |
| Server.StockedIn | src/main/java/com/example/stockmanager/product/ProductService.java:81-87 | CONFLICT "Product is deleted" on a deleted product, otherwise the stock increased by the amount |
| Server.WrapInt32 | src/main/java/com/example/stockmanager/product/ProductService.java:85 | Java `int` arithmetic: the result is in the 32-bit range, is congruent to its argument modulo 2^32, and equals its argument when that is in range |
| Server.StockedInAsWritten | src/main/java/com/example/stockmanager/product/ProductService.java:85 | the stock-in addition as the code computes it, in 32-bit arithmetic; a deleted product is refused with the deleted-product conflict |
| Server.StockInAsWrittenOverflows | src/main/java/com/example/stockmanager/product/ProductService.java:85 | a stock-in of 1 on a product holding the largest `int` leaves a negative stock |
| Server.StockInAgreesBelowOverflow | src/main/java/com/example/stockmanager/product/ProductService.java:85 | when the sum fits in an `int`, the code's stock-in and the unbounded one agree |
| Server.SoftDeleteIsIdempotent | src/main/java/com/example/stockmanager/product/ProductService.java:52-58 | a second soft delete changes nothing, whatever its time |
| Server.RestoreIsIdempotent | src/main/java/com/example/stockmanager/product/ProductService.java:61-67 | a second restore changes nothing |
| Server.RestoreUndoesSoftDelete | src/main/java/com/example/stockmanager/product/ProductService.java:52-67 | restoring a soft-deleted active product gives it back exactly |
| Server.SoftDeleteUndoesRestore | src/main/java/com/example/stockmanager/product/ProductService.java:52-67 | soft-deleting a restored product at its original time gives it back exactly |
| Server.StockOutUndoesStockIn | src/main/java/com/example/stockmanager/product/ProductService.java:70-87 | a stock in followed by a stock out of the same amount gives the product back |
| Server.StockInUndoesStockOut | src/main/java/com/example/stockmanager/product/ProductService.java:70-87 | a stock out followed by a stock in of the same amount gives the product back |
| Server.NormalizeStatus | src/main/java/com/example/stockmanager/product/ProductService.java:44 | a null or blank status becomes ACTIVE; any other is upper-cased; the result is always in upper case |
| Server.KnownStatusesIgnoreCase | src/main/java/com/example/stockmanager/product/ProductService.java:44-47 | `list` accepts a status exactly when it is null, blank, or ACTIVE, DELETED or ALL once upper-cased |
| Server.NormalizeStatusIgnoresCase | src/main/java/com/example/stockmanager/product/ProductService.java:44 | the status parameter is read without regard to letter case |
| Server.ProductService.Create | src/main/java/com/example/stockmanager/product/ProductService.java:20-29 | a new active product with no deletion time, carrying the request's description and quantity, is stored under an unused id; nothing else changes |
| Server.ProductService.Update | src/main/java/com/example/stockmanager/product/ProductService.java:31-36 | NOT_FOUND for an unknown id with nothing changed, otherwise only that product's description and quantity are replaced |
| Server.ProductService.Get | src/main/java/com/example/stockmanager/product/ProductService.java:38-41 | the stored product, or NOT_FOUND "Product not found" exactly when the id is unknown |
| Server.ProductService.List | src/main/java/com/example/stockmanager/product/ProductService.java:43-49 | BAD_REQUEST exactly when the normalised status is none of ACTIVE, DELETED and ALL, otherwise exactly the matching stored products, ids descending |
| Server.ProductService.SoftDelete | src/main/java/com/example/stockmanager/product/ProductService.java:51-58 | NOT_FOUND with nothing changed for an unknown id, otherwise only that product becomes `SoftDeleted`; the table invariant is kept |
| Server.ProductService.Restore | src/main/java/com/example/stockmanager/product/ProductService.java:60-67 | NOT_FOUND with nothing changed for an unknown id, otherwise only that product becomes `Restored`; the table invariant is kept |
| Server.ProductService.StockOut | src/main/java/com/example/stockmanager/product/ProductService.java:69-78 | NOT_FOUND for an unknown id, otherwise the result of `StockedOut`; a failure changes nothing, a success replaces only that product; stock never goes negative |
| Server.ProductService.StockIn | src/main/java/com/example/stockmanager/product/ProductService.java:80-87 | NOT_FOUND for an unknown id, otherwise the result of `StockedIn`; a failure changes nothing, a success replaces only that product |
| SortOrder.CompareNum | stock-frontend/src/pages/Products.jsx:167 | `cmpNum` is 0, negative or positive exactly as `a` equals, is below or is above `b` |
| SortOrder.PrimaryLaws | stock-frontend/src/pages/Products.jsx:170-184 | the comparison by the chosen key is antisymmetric and transitive |
| SortOrder.CompareLaws | stock-frontend/src/pages/Products.jsx:163-190 | the full comparator, in either direction, is antisymmetric and transitive and answers 0 only for items with the same id |
| SortOrder.DistinctIdsNeverTie | stock-frontend/src/pages/Products.jsx:186-189 | two items with different ids never compare equal |
| SortOrder.Insert | stock-frontend/src/pages/Products.jsx:170 | inserting adds exactly the one item |
| SortOrder.InsertSorted | stock-frontend/src/pages/Products.jsx:170 | inserting into a sorted sequence keeps it sorted |
| SortOrder.Sort | stock-frontend/src/pages/Products.jsx:170-190 | the sort is a sorted permutation of its input |
| SortOrder.SortedItems | stock-frontend/src/pages/Products.jsx:161-193 | `sortedItems` is a sorted permutation of `items` when that is an array, and empty when it is not |
| SortOrder.SortedPermutationUnique | stock-frontend/src/pages/Products.jsx:170-190 | when ids identify items, two sorted permutations of one collection are equal: the order is total and the sort deterministic |
| SortOrder.SortOfSorted | stock-frontend/src/pages/Products.jsx:170-190 | a sorted sequence is its own sort |
| SortOrder.SortIsIdempotent | stock-frontend/src/pages/Products.jsx:170-190 | sorting a sorted view again changes nothing |
| SortOrder.SortDescIsReverseOfAsc | stock-frontend/src/pages/Products.jsx:163-189 | with distinct ids, the DESC order is exactly the ASC order reversed |
| SortOrder.SortByStatusPutsActiveFirst | stock-frontend/src/pages/Products.jsx:179-187 | STATUS ascending puts every active row before every deleted one, then orders by description, then by id |
| SortOrder.DescriptionScenario | stock-frontend/src/pages/Products.jsx:177-178 | "apple" sorts before "banana" by description ascending |
| InventoryView.CheckCreate | stock-frontend/src/pages/Products.jsx:51-61 | the form passes exactly when the trimmed description is not empty and the quantity reads as a number above 0; a description that is blank once trimmed gives the description message; otherwise a quantity that is not a number above 0 gives the quantity message; a passing form yields the trimmed description and the number |
| InventoryView.CheckStockOut | stock-frontend/src/pages/Products.jsx:120-129 | passes exactly when the draft reads as a number above 0 and at most the stock; otherwise the positivity message, then the stock message |
| InventoryView.CreateAcceptsPositiveNumerals | stock-frontend/src/pages/Products.jsx:51-61 | a described product with a positive numeral quantity passes, carrying that number |
| InventoryView.CreateRejectsZero | stock-frontend/src/pages/Products.jsx:58-61 | quantity "0" never passes |
| InventoryView.CreateRejectsNegative | stock-frontend/src/pages/Products.jsx:58-61 | a negative numeral quantity never passes |
| InventoryView.CreateRejectsLetters | stock-frontend/src/pages/Products.jsx:58-61 | a quantity with a letter in it, such as "abc", gets the quantity message once the description is filled in |
| InventoryView.StockOutCheckOfNumerals | stock-frontend/src/pages/Products.jsx:120-129 | a numeral between 1 and the stock passes with its value; one above the stock gets the stock message |
| InventoryView.FlippedDir | stock-frontend/src/pages/Products.jsx:156-158 | the updater always changes the direction |
| InventoryView.FlippingReversesView | stock-frontend/src/pages/Products.jsx:156-158 | with distinct ids, toggling the direction shows the same rows in exactly the opposite order |
| InventoryView.Reloaded | stock-frontend/src/pages/Products.jsx:28-41 | after `load`, a success replaces `items` wholesale (no rows for a null body) and clears `msg`; a failure keeps `items` and shows the error; `loading` ends false and nothing else moves |
| InventoryView.AtMostOneRowEditing | stock-frontend/src/pages/Products.jsx:310 | with distinct ids, at most one row shows the stock-out editor |
| InventoryView.ProductsPage.View | stock-frontend/src/pages/Products.jsx:161-193 | the displayed rows are a sorted permutation of `items`, or none when `items` is not an array |
| InventoryView.ProductsPage.constructor | stock-frontend/src/pages/Products.jsx:5-20 | the initial field values |
| InventoryView.ProductsPage.Load | stock-frontend/src/pages/Products.jsx:28-41 | sends one list request with the current filter and settles as `Reloaded`; the stock-out invariant `Valid` is kept |
| InventoryView.ProductsPage.Create | stock-frontend/src/pages/Products.jsx:48-78 | a failed check sets only its message and sends nothing; a failed post shows the error and keeps the form; a successful post clears the form and reloads; the stock-out invariant `Valid` is kept |
| InventoryView.ProductsPage.PostCreate | stock-frontend/src/pages/Products.jsx:63-77 | the post, then on success the cleared form and the reload; the stock-out invariant `Valid` is kept |
| InventoryView.ProductsPage.SoftDelete | stock-frontend/src/pages/Products.jsx:80-94 | a failed delete changes only `loading`; a successful one closes the stock-out session exactly when it is on that id, then reloads; the stock-out invariant `Valid` is kept |
| InventoryView.ProductsPage.Restore | stock-frontend/src/pages/Products.jsx:96-104 | a failed restore changes only `loading`; a successful one reloads; the stock-out invariant `Valid` is kept |
| InventoryView.ProductsPage.OpenStockOut | stock-frontend/src/pages/Products.jsx:106-110 | the session moves to the product with an empty draft and the message is cleared; the stock-out invariant `Valid` is kept |
| InventoryView.ProductsPage.CancelStockOut | stock-frontend/src/pages/Products.jsx:112-115 | the session is closed and its draft dropped; the stock-out invariant `Valid` is kept |
| InventoryView.ProductsPage.ConfirmStockOut | stock-frontend/src/pages/Products.jsx:117-145 | a failed check sets only its message and sends nothing; a failed post shows the error and keeps the session; a successful post closes the session and reloads; the stock-out invariant `Valid` is kept |
| InventoryView.ProductsPage.PostStockOut | stock-frontend/src/pages/Products.jsx:131-144 | the post, then on success the closed session and the reload; the stock-out invariant `Valid` is kept |
| InventoryView.ProductsPage.ToggleSortDir | stock-frontend/src/pages/Products.jsx:156-158 | only the direction changes, to the other one; the stock-out invariant `Valid` is kept |
| InventoryView.ProductsPage.SetQuery | stock-frontend/src/pages/Products.jsx:215 | only the query text changes, and nothing is sent; the stock-out invariant `Valid` is kept |
| InventoryView.ProductsPage.SetStatus | stock-frontend/src/pages/Products.jsx:43-46 | choosing the current status does nothing; choosing another one reloads with it; the stock-out invariant `Valid` is kept |
| InventoryView.ProductsPage.SetSortBy | stock-frontend/src/pages/Products.jsx:231 | only the sort key changes; the stock-out invariant `Valid` is kept |
| InventoryView.ProductsPage.SetDescription | stock-frontend/src/pages/Products.jsx:269 | only the description field changes; the stock-out invariant `Valid` is kept |
| InventoryView.ProductsPage.SetQuantity | stock-frontend/src/pages/Products.jsx:280 | only the quantity field changes; the stock-out invariant `Valid` is kept |
| InventoryView.ProductsPage.SetStockOutQty | stock-frontend/src/pages/Products.jsx:351 | only the draft changes, and a draft exists only in an open session |
| LoginPage.Flipped | stock-frontend/src/pages/Login.jsx:31 | the updater always changes the mode |
| LoginPage.FlippedTwice | stock-frontend/src/pages/Login.jsx:29-34 | toggling twice gives back the original mode |
| LoginPage.CheckCredentials | stock-frontend/src/pages/Login.jsx:37-61 | refused with "Preencha usuário e senha." exactly when either field is blank once trimmed; otherwise the register or login request that the mode calls for, with both credentials trimmed |
| LoginPage.WhitespaceOnlyIsRefused | stock-frontend/src/pages/Login.jsx:38-41 | a username made only of whitespace is refused |
| LoginPage.Settled | stock-frontend/src/pages/Login.jsx:43-70 | after the request, `loading` is false; a failure shows its message and keeps mode and fields; a registration returns to login mode with empty fields and the registered message |
| LoginPage.LoginForm.constructor | stock-frontend/src/pages/Login.jsx:9-16 | empty fields, login mode, no message, not loading |
| LoginPage.LoginForm.ResetFeedback | stock-frontend/src/pages/Login.jsx:25-27 | only the message is cleared |
| LoginPage.LoginForm.ToggleMode | stock-frontend/src/pages/Login.jsx:29-34 | the other mode, with the message and both fields cleared |
| LoginPage.LoginForm.SetUsername | stock-frontend/src/pages/Login.jsx:102 | only the username changes |
| LoginPage.LoginForm.SetPassword | stock-frontend/src/pages/Login.jsx:114 | only the password changes |
| LoginPage.LoginForm.HandleSubmit | stock-frontend/src/pages/Login.jsx:36-71 | a failed check sets only its message and sends nothing; otherwise the one request the mode calls for is sent and the form settles as `Settled`; a token is stored only after a successful login |
| LoginPage.LoginForm.Send | stock-frontend/src/pages/Login.jsx:43-70 | the request's effect on the form, and the token stored after a successful login |
| CrossLayer.AsItem | src/main/java/com/example/stockmanager/product/ProductService.java:89-95 | the row the page receives carries the product's id, description, quantity and flag |
| CrossLayer.AsItems | src/main/java/com/example/stockmanager/product/ProductService.java:48 | a list response keeps the service's order, row for row |
| CrossLayer.ConfirmedStockOutIsNeverInsufficient | src/main/java/com/example/stockmanager/product/ProductService.java:74-75 | a stock-out the page allows against a row holding the stored quantity is a valid stock move, is never refused for insufficient stock, and succeeds on an active product |
| CrossLayer.ZeroQuantityRefusedOnlyByPage | src/main/java/com/example/stockmanager/product/dto/ProductCreateRequest.java:9 | quantity 0 is a valid create request for the service, yet the page refuses it |
| CrossLayer.CreateCheckMeetsQuantityBound | src/main/java/com/example/stockmanager/product/dto/ProductCreateRequest.java:9 | every quantity the page sends meets the service's lower bound |
| CrossLayer.ControlCharacterPassesOnlyThePage | src/main/java/com/example/stockmanager/product/dto/ProductCreateRequest.java:8 | a description made of one control character that is not JavaScript whitespace, with a positive quantity, passes the page's check but fails the service's not-blank rule |
| CrossLayer.ListedRowsHaveDistinctIds | src/main/java/com/example/stockmanager/product/ProductRepository.java:18 | the rows of a list response carry distinct ids |
| CrossLayer.FlippingListedRowsReversesView | stock-frontend/src/pages/Products.jsx:163-189 | on the rows of any list response, toggling the direction reverses the displayed order |

## Left out

- The HTTP transport (`api.js`): fetching, JSON parsing, token storage and error text. Each call is an abstract reply, either `Done` with a body or `Failed` with a message. The token stored after login is returned instead of written to storage.
- Routing and navigation (`App.jsx`). Navigation after login is implied by a stored token.
- Authentication on the server (`AuthService.java`, `JwtConfig.java`, `CustomUserDetailsService.java`): password hashing, token signing and the clock are foreign calls. The controllers only delegate.
- Rendering, CSS and the status badge text. The one render guard kept is the row-editing predicate.
- Overlapping handlers: each handler is one atomic step. When replies arrive in another order, a later reload may overwrite an earlier one; that is not modelled.
- `localeCompare` with the pt-BR collation: it is modelled as a case-insensitive comparison of ASCII letters by code unit. Accents and other scripts are not folded.
- `Number()` and `Number.isFinite`: decimal fractions, exponents, hexadecimal and `Infinity` are not modelled. Text that is not an integer reads as no number.
- Unicode case mapping in `toUpperCase` and SQL `lower`: only ASCII letters change case.
- The `%` and `_` wildcards of SQL LIKE: `q` is matched as literal text.
- `@Size(max = 200)` counts UTF-16 code units. The model counts characters.
- Timestamps: `createdAt` and `updatedAt` are not kept. `deletedAt` is an abstract instant, and `now` is a parameter of soft delete.
- Transactions and the persistence layer: each service method applies atomically to the map.
- Server.ProductService.Update: `ProductUpdateRequest.java` is not part of this model. The update requires a non-negative quantity, by analogy with the create request.
- Server.ProductService.Create: ids come from a counter. The database's id generator is not modelled.
- Server.StockedIn: it is unbounded. The code's 32-bit wrap-around is modelled separately, as `StockedInAsWritten` (see Findings).
- InventoryView.ProductsPage.SetStockOutQty: it requires an open session, because the draft input is only rendered on the editing row.
- InventoryView.ProductsPage.ConfirmStockOut: the check reads the quantity shown in the row. The service may still refuse the call for other reasons, and that refusal comes back as a failed reply.
- LoginPage.LoginForm.HandleSubmit: the login reply is modelled as the token itself. A body without a token field is not modelled.

## Findings

| source | as written | input that shows it | evidently intended | confidence | as-written member | corrected member |
|---|---|---|---|---|---|---|
| src/main/java/com/example/stockmanager/product/ProductService.java:85 | `p.getQuantity() + req.quantity()` is 32-bit `int` addition | stock in of 1 on an active product whose quantity is 2147483647 leaves quantity -2147483648 | stock only grows on stock in, and never goes negative | not executed | Server.StockInAsWrittenOverflows | Server.StockedIn |
