# TechHub storefront: cart and session store

This project models the client-side logic of the TechHub storefront in
Dafny. The storefront is a static shop page whose state lives in the
browser's local storage under two keys: the cart, an ordered list of line
items, and the session, an optional user record. The model covers these
parts:

- **Store** (`Storage.Store`) is a class with two optional fields, `cart`
  and `user`; `None` means the key is absent. Its methods update the fields
  the way `Store` in `app/app.js` reads, changes and writes back the two
  keys. The cart operations are also defined as pure functions on
  `seq<Item>` in module `Cart`: `AddedToCart`, `Removed`, `QuantitySet`,
  `CartCount` and `CartTotal`. Each method's `ensures` ties the new state to
  these functions, and the lemmas about the functions say what the
  operations promise.
- **Cart page buttons** (`Pages.HandleCartAction`, `Pages.AfterAction`):
  increase, decrease and remove, built from the Store operations.
- **Order summary** (`OrderSummary`): shipping, 21% tax and total,
  computed from the cart total.
- **Catalog filtering** (`Catalog`): the stock label of a product card, and
  the search, category and price filters of the home page.
- **Form validation** (`Forms`) and the **submit handlers** of the login,
  registration and checkout forms (`Pages.SubmitLogin`,
  `Pages.SubmitRegister`, `Pages.SubmitCheckout`). Each handler marks the
  failing fields. On success, login and registration store a session and
  checkout clears the cart.
- **JavaScript built-ins the code relies on** (`Seqs`, `Text`):
  `Array.prototype.filter`, `String.prototype.trim` and its whitespace
  set, ASCII `toLowerCase`, `includes`, `split(sep)[0]`,
  `replace(/\s/g, '')`, and a string's `length`, which counts UTF-16 code
  units, so a character above U+FFFF counts twice.

Prices are exact `real`s, so IEEE rounding plays no part. Ids, quantities
and stock counts are unbounded `int`s. The login time is a parameter `now`.

Behaviour of the code worth knowing, which the model keeps:

- `addToCart` caps a quantity at the product's stock with `Math.min` and
  never raises it to 1. A product with stock 0 therefore gets a line of
  quantity 0 for a non-negative request, and a negative request gives a
  negative quantity
  (`Cart.AddToCartNewQuantity`). The product page can pass such a request
  (`parseInt` at `app/app.js:354`).
- `addToCart` caps against the product's current stock but keeps the
  line's old `stock` field, so a line can end up above its own stock
  (`Cart.AddToCartStaleStock`).
- One might expect repeated adds to total `min(sum, stock)`.
  `addToCart` does so whenever no request after the first is negative
  (`Cart.AddAllFresh`); a later negative request can break it: 5 then -1
  against stock 3 gives 2, not 3 (`Cart.AddAllNegativeRequest`).
- One might expect `updateQuantity` to always land in `[1, stock]`.
  It gives 1 on a line of stock 0
  (`Cart.QuantitySetZeroStock`).
- Any stock count other than 0 and up to 10 gets the "low stock" label,
  negative counts included (`Catalog.StockLevelOf`).

## Model

| member | source | states |
|---|---|---|
| Storage.Store.constructor | app/app.js:6-9 | the Store starts from whatever the two keys hold |
| Storage.Store.GetCart | app/app.js:7-9 | an absent cart key reads as the empty cart, a present one as its list |
| Storage.Store.AddToCart | app/app.js:16-35 | the new cart is `AddedToCart` of the old one; the session is unchanged; ids stay unique and gain the product's id; the unit count changes by exactly the change of that product's line |
| Storage.Store.RemoveFromCart | app/app.js:37-40 | the new cart is `Removed` of the old one, the id is gone, the session is unchanged, unique ids stay unique and a well-formed cart stays well formed |
| Storage.Store.UpdateQuantity | app/app.js:42-49 | an absent id leaves the stored cart untouched (nothing is written); otherwise the cart is `QuantitySet` of the old one; unique ids stay unique and well-formedness is kept |
| Storage.Store.ClearCart | app/app.js:51-54 | the cart key is absent afterwards and reads back as empty; the session is unchanged |
| Storage.Store.Count | app/app.js:60-62 | an absent cart counts 0 units; a well-formed cart counts at least one unit per line |
| Storage.Store.Total | app/app.js:56-58 | an absent cart totals 0; a well-formed cart with non-negative prices totals at least 0 |
| Storage.Store.Login | app/app.js:78-82 | stores and returns the session record with the given email, name and clock reading; afterwards the user is logged in; the cart is unchanged |
| Storage.Store.Logout | app/app.js:84-86 | afterwards nobody is logged in, whatever the state before; the cart is unchanged |
| Storage.Store.IsLoggedIn | app/app.js:88-90 | `isLoggedIn`: the session key is present; `Login` ensures it holds afterwards and `Logout` that it does not |
| Cart.Find | app/app.js:18 | `Array.prototype.find` by id: the index of the first line holding the id, or none when no line holds it |
| Cart.Min | app/app.js:21 | `Math.min`: the result is at most both arguments and is one of them |
| Cart.Max | app/app.js:46 | `Math.max`: the result is at least both arguments and is one of them |
| Cart.FindUnique | app/app.js:18 | with unique ids, the line found for an id is the one holding it |
| Cart.FindAfterUpdate | app/app.js:21 | changing a found line's quantity does not move any id |
| Cart.AddedToCart | app/app.js:16-33 | `addToCart` on the list: the cart keeps its length when the product already has a line and grows by one line otherwise, and no existing line changes its id (the lemmas below give the line's contents) |
| Cart.NewItem | app/app.js:23-30 | the pushed line copies the product's id, name, price, image and stock with the capped quantity; `AddToCartNew` states it is appended at the end |
| Cart.AddToCartExisting | app/app.js:20-21 | an existing line's quantity becomes `min(old + q, product stock)`; every other line is unchanged |
| Cart.AddToCartNew | app/app.js:22-30 | a product not in the cart is appended at the end as a new line with `min(q, stock)` units |
| Cart.AddToCartIds | app/app.js:16-33 | adding keeps ids unique and adds exactly the product's id |
| Cart.AddToCartWellFormed | app/app.js:16-33 | with a request of at least 1, a product stock of at least 1, and no line with a smaller stock snapshot, adding keeps every quantity within `[1, stock]` |
| Cart.AddToCartNewQuantity | app/app.js:28 | a new line has at least one unit exactly when both the request and the stock are at least 1; stock 0 with a non-negative request gives a line of 0 units; a negative request against a non-negative stock gives a line of exactly that negative quantity |
| Cart.AddToCartStaleStock | app/app.js:21 | a line with stock 3, added to under a product stock of 10, ends with 8 units, above its own recorded stock |
| Cart.AddAllExisting | app/app.js:16-33 | repeated adds of non-negative requests to an existing line total `min(a + sum, stock)` |
| Cart.AddAllFirst | app/app.js:22-30 | the first of several adds of a product not in the cart appends its line |
| Cart.AddAllFresh | app/app.js:16-33 | repeated adds of a new product append one line of `min(sum, stock)` units when no later request is negative |
| Cart.AddAllNegativeRequest | app/app.js:21 | requests 5 then -1 against stock 3 end at 2 units, not at `min(4, 3)` |
| Cart.Removed | app/app.js:38 | `removeFromCart` on the list: no longer than the cart, and no remaining line holds the id |
| Cart.RemovedSound | app/app.js:38 | removal keeps the other lines, in order, as a subsequence, and no line with the id is left |
| Cart.RemovedExact | app/app.js:38 | with unique ids, removing a present line's id yields the cart without exactly that line |
| Cart.RemovedAbsent | app/app.js:38 | removing an absent id changes nothing |
| Cart.RemovedIdempotent | app/app.js:38 | removing twice is removing once |
| Cart.RemovedWellFormed | app/app.js:38 | removal keeps a well-formed cart well formed |
| Cart.KeepUnique | app/app.js:38 | filtering a cart with unique ids keeps its ids unique |
| Cart.RemovedUnique | app/app.js:38 | removal keeps unique ids unique |
| Cart.Clamp | app/app.js:46 | `max(1, min(q, stock))` lies in `[1, stock]` for stock at least 1, takes an in-range request as is, and gives 1 when the stock or the request is below 1 |
| Cart.QuantitySet | app/app.js:42-49 | `updateQuantity` on the list: the cart keeps its length and every line keeps everything but its quantity |
| Cart.QuantitySetPresent | app/app.js:42-49 | only the found line's quantity changes; it lands in `[1, stock]` when the stock is positive and equals `q` when `q` is already in range |
| Cart.QuantitySetAbsent | app/app.js:44-45 | an absent id changes nothing |
| Cart.QuantitySetWellFormed | app/app.js:46 | setting a quantity keeps a well-formed cart well formed |
| Cart.QuantitySetUnique | app/app.js:46 | setting a quantity keeps unique ids unique |
| Cart.QuantitySetZeroStock | app/app.js:46 | on a line of stock 0 the quantity becomes 1, above the stock |
| Cart.CartCount | app/app.js:60-62 | the sum of quantities, 0 for the empty cart |
| Cart.CartTotal | app/app.js:56-58 | the sum of price times quantity, 0 for the empty cart |
| Cart.FoldsAppend | app/app.js:56-62 | both folds distribute over concatenation |
| Cart.FoldsSplit | app/app.js:56-62 | a cart's count and total are those of the lines before a line, that line, and the lines after it |
| Cart.FoldsSingle | app/app.js:56-62 | a one-line cart counts its quantity and totals its amount |
| Cart.FoldsUpdate | app/app.js:56-62 | replacing one line changes the count and the total by that line's difference |
| Cart.FoldsAfterAdd | app/app.js:16-33 | adding a product changes the count and the total by exactly the change of that product's line |
| Cart.FindLast | app/app.js:18 | a line appended for an absent id is found at the end |
| Cart.FoldsAfterRemove | app/app.js:37-40 | removal takes the line's quantity off the count and its amount off the total |
| Cart.FoldsAfterSet | app/app.js:42-49 | setting a quantity changes the count and the total by that line's change |
| Cart.FoldsBounds | app/app.js:56-62 | a well-formed cart counts at least one unit per line and, with non-negative prices, has a non-negative total |
| Cart.TotalExample | app/app.js:56-62 | a 1299.99 laptop and a 49.99 mouse, one each, total 1349.98 over 2 units |
| OrderSummary.Summarize | app/app.js:400-403 | keeps the subtotal; shipping is 0 exactly when the subtotal is above 100, otherwise 9.99 |
| OrderSummary.SummaryOf | app/app.js:607-610 | the checkout page's subtotal is the cart total |
| OrderSummary.TotalClosedForm | app/app.js:400-403 | tax is 21% of the subtotal; the total is 1.21 × subtotal, plus 9.99 when the subtotal is at most 100 |
| OrderSummary.TotalBounds | app/app.js:400-403 | for a non-negative subtotal the total lies between subtotal plus tax and 1.21 × subtotal + 9.99 |
| OrderSummary.TotalMonotoneWithinBand | app/app.js:400-403 | within one shipping band the total grows with the subtotal |
| OrderSummary.TotalDropsAtThreshold | app/app.js:401 | a 100.00 order costs 130.99 and a 100.01 order only 121.0121 |
| OrderSummary.SummaryExample | app/app.js:607-610 | a laptop-and-mouse cart (1299.99 and 49.99, one each) gives free shipping, tax 283.4958 and total 1633.4758 |
| Catalog.StockLevelOf | app/app.js:200-209 | out of stock exactly at 0, low exactly when non-zero and at most 10, in stock above 10 |
| Catalog.InPriceRange | app/app.js:256-259 | a price passes only at or above the lower bound, and only at or below the upper bound when that bound is not 0 |
| Catalog.SearchQuery | app/app.js:233 | the query is no longer than the typed text and holds no upper-case ASCII letter |
| Catalog.CategoryChoice | app/app.js:234 | `categoryFilter.value || 'all'`: never empty, and a non-empty selection is kept as chosen |
| Catalog.MatchesSearch | app/app.js:241-245 | the name, description or category, lower-cased, includes the query; an empty query matches every product; `SearchIgnoresCase` and `FilterProductsExact` use it |
| Catalog.FilterProducts | app/app.js:232-260 | the products shown are never more than the catalog; `FilterProductsExact`, `FilterProductsSound` and `FilterProductsComplete` state which ones |
| Catalog.StageAsKeep | app/app.js:240-251 | a filter stage that may be switched off is a filter that passes everything when off |
| Catalog.FilterProductsExact | app/app.js:232-260 | the three filters in sequence are one filter by the conjunction of the active conditions |
| Catalog.FilterProductsSound | app/app.js:232-260 | the result is a subsequence of the catalog, in catalog order, and each shown product passes every active filter |
| Catalog.FilterProductsComplete | app/app.js:232-260 | every catalog product that passes every active filter is shown |
| Catalog.FilterProductsNoFilter | app/app.js:232-260 | with a blank search, category `all` and price `all`, the whole catalog is shown |
| Catalog.SearchIgnoresCase | app/app.js:233 | two searches that lower-case alike show the same products |
| Seqs.Keep | app/app.js:38 | `Array.prototype.filter`: no longer than the input, and every kept element passes the test (membership both ways is `KeepMembers`) |
| Seqs.KeepMembers | app/app.js:38 | every kept element comes from the input, and every input element that passes the test is kept |
| Seqs.KeepCut | app/app.js:38 | filtering out the one failing element between two passing runs cuts out exactly that element |
| Seqs.KeepIsSubsequence | app/app.js:38 | filtering keeps input order |
| Seqs.KeepAll | app/app.js:38 | filtering by a test every element passes changes nothing |
| Seqs.KeepAppend | app/app.js:38 | filtering distributes over concatenation |
| Seqs.KeepExt | app/app.js:241-259 | filters by tests that agree everywhere give the same result |
| Seqs.KeepKeep | app/app.js:241-259 | two filters in sequence are one filter by the conjunction |
| Seqs.KeepIdempotent | app/app.js:38 | filtering twice by the same test is filtering once |
| Text.LowerChar | app/app.js:233 | ASCII `A`-`Z` map to the letter 32 code points above, `a`-`z`; every other character is kept; whitespace stays whitespace |
| Text.Lower | app/app.js:233 | lower-casing keeps the length, lower-cases each character and leaves no upper-case ASCII letter |
| Text.LowerIdempotent | app/app.js:233 | lower-casing twice is lower-casing once |
| Text.TrimStart | app/app.js:233 | the result is a suffix, starts with a non-whitespace character when not empty, and only whitespace was dropped |
| Text.TrimEnd | app/app.js:233 | the result is a prefix, ends with a non-whitespace character when not empty, and only whitespace was dropped |
| Text.Trim | app/app.js:233 | `trim`: no longer than the input, no whitespace at either end, empty exactly when the input is all whitespace, and a slice of the input |
| Text.TrimKeepsLower | app/app.js:233 | trimming a string without upper-case letters leaves none |
| Text.Includes | app/app.js:242-244 | `includes`: the empty needle is always included, and an included needle is no longer than the text; `IncludesIff` gives the exact meaning |
| Text.IncludesIff | app/app.js:242-244 | `includes` holds exactly when the needle occurs at some position |
| Text.IncludesAt | app/app.js:242-244 | an occurrence at any position makes `includes` hold |
| Text.IncludesWitness | app/app.js:242-244 | when `includes` holds, the needle occurs at some position |
| Text.BeforeFirst | app/app.js:531 | `split(sep)[0]`: a prefix with no separator in it, followed by the separator when there is one, and the whole string when there is none |
| Text.BeforeFirstOfJoin | app/app.js:531 | the text before the first separator of `prefix + sep + rest` is the prefix when the prefix has no separator |
| Text.StripWhitespace | app/app.js:681 | `replace(/\s/g, '')` leaves no whitespace |
| Text.StripIgnoresInsertedWhitespace | app/app.js:681 | inserting a whitespace character changes nothing after stripping |
| Text.Utf16Length | app/app.js:523 | `length` counts UTF-16 code units: between one and two per character, one per character when all lie in the Basic Multilingual Plane |
| Text.Utf16LengthAppend | app/app.js:681 | the code-unit length of a concatenation is the sum of the parts' lengths |
| Forms.LoginErrors | app/app.js:518-528 | only the email and password fields can be marked; `LoginAcceptedIff` says when none is |
| Forms.LoginAcceptedIff | app/app.js:518-528 | login is accepted exactly when the email holds an `@` and the password has at least 3 UTF-16 code units |
| Forms.RegisterErrors | app/app.js:552-567 | only the name, email and password fields can be marked; `RegisterAcceptedIff` says when none is |
| Forms.RegisterAcceptedIff | app/app.js:552-567 | registration is accepted exactly when the name has at least 2 UTF-16 code units, the email an `@`, and the password at least 6 |
| Forms.RegisterStricterThanLogin | app/app.js:518-567 | whatever registration accepts, login accepts |
| Forms.CheckoutErrors | app/app.js:661-694 | the checkout form never marks a password field; `CheckoutAcceptedIff` says when it marks none |
| Forms.CheckoutAcceptedIff | app/app.js:661-694 | checkout is accepted exactly when every field has its shape, lengths in UTF-16 code units: name 2, `@` in the email, address 5, city 2, zip 4, 13 card units other than whitespace, an `NN/NN` expiry, CVC 3 |
| Forms.LongEnough | app/app.js:523 | rejects an empty value or one shorter than `n` UTF-16 code units; `LoginAcceptedIff`, `RegisterAcceptedIff` and `CheckoutAcceptedIff` state each field's threshold |
| Forms.EmailOk | app/app.js:518 | rejects an empty email or one without `@`; the three acceptance lemmas state it as `'@' in email` |
| Forms.ExpiryOk | app/app.js:685 | the expiry regular expression: `ExpiryAcceptsPairs` and `ExpiryIsPair` state exactly which strings it accepts |
| Forms.ExpiryAcceptsPairs | app/app.js:685 | every two digits, a slash and two digits form an accepted expiry |
| Forms.ExpiryIsPair | app/app.js:685 | every accepted expiry is two digits, a slash and two digits |
| Forms.CardNumberOk | app/app.js:681 | the card-number check: `CardNumberIgnoresWhitespace` and the examples below state what it accepts |
| Forms.CardNumberIgnoresWhitespace | app/app.js:681 | whitespace inside a card number does not count towards its length |
| Forms.StripDigits | app/app.js:681 | a string of digits is kept as it is |
| Forms.StripSpaced | app/app.js:681 | stripping two parts joined by a space is stripping each part and joining them, so the code-unit lengths add |
| Forms.StripDigitGroups | app/app.js:681 | two digit runs joined by a space keep all their digits |
| Forms.CardNumberAcceptedExample | app/app.js:681 | `1234 5678 9012 3456` is accepted |
| Forms.CardNumberRejectedExample | app/app.js:681 | `1234 5678 901` has 13 characters but only 11 digits and is rejected |
| Forms.EmojiNameAccepted | app/app.js:552-554 | a name of one emoji counts 2 code units and passes the 2-character name check |
| Pages.HandleCartAction | app/app.js:443-472 | an absent id leaves the stored cart untouched; otherwise the cart becomes `AfterAction` of the old one; the session is unchanged; unique ids stay unique and well-formedness is kept |
| Pages.AfterAction | app/app.js:454-469 | one button press never lengthens the cart, and after remove no line holds the id; the lemmas below give each action exactly |
| Pages.ActionAbsent | app/app.js:451 | every action on an absent id changes nothing |
| Pages.DecreaseRemoves | app/app.js:458-460 | decrease on a line of quantity at most 1 deletes exactly that line |
| Pages.DecreaseByOne | app/app.js:461-462 | decrease on a line of quantity above 1 (within its stock) lowers it by exactly one and touches nothing else |
| Pages.IncreaseBounded | app/app.js:455-456 | increase keeps a line of positive stock within `[1, stock]`: from a non-negative quantity below the stock it adds exactly one, at or above the stock the line sits at the stock |
| Pages.RemoveAction | app/app.js:465-466 | remove deletes exactly the line and its id |
| Pages.ActionWellFormed | app/app.js:454-469 | every action keeps a well-formed cart well formed |
| Pages.IncreaseIsUpdate | app/app.js:455-456 | increase on a found line is an update of that line alone |
| Pages.DecreaseIsUpdate | app/app.js:461-462 | decrease above 1 is an update of that line alone |
| Pages.DecreaseCount | app/app.js:457-463 | on a line within its stock, decrease lowers the unit count by exactly one, whether it removes the line or not |
| Pages.IncreaseCount | app/app.js:455-456 | on a line within its stock, increase adds one unit below the stock and none at the stock |
| Pages.CheckField | app/app.js:518-526 | one validation step marks the field and raises the error flag exactly when its check fails |
| Pages.SubmitLogin | app/app.js:508-532 | marks exactly the failing login fields; on success stores the session under the email's text before its first `@`; otherwise the session is unchanged; the cart is never touched |
| Pages.SubmitRegister | app/app.js:541-570 | marks exactly the failing registration fields; on success stores the session under the given name; otherwise the session is unchanged |
| Pages.SubmitCheckout | app/app.js:641-712 | marks exactly the failing checkout fields; on success the cart key is deleted; otherwise the cart is unchanged; the session is never touched |
| Pages.LoginName | app/app.js:531 | the derived login name holds no `@`, and the email is that name, `@`, and the rest |
| Pages.LoginExample | tests/login.spec.ts:12-13 | `test@test.com` with password `test123` is accepted and logs in as `test` |

## Left out

- The toast messages, all rendering and navigation (`updateCartCount`, the
  navigation bar, the product grid and detail page, the cart page markup,
  the page router, the redirects after login and away from an empty
  checkout) and the `confirm` dialog before clearing the cart. These are
  DOM work with no state of the model behind them.
- `loadProducts`: an asynchronous `fetch` whose only logic is that a
  failure gives an empty catalog. The catalog is an input sequence.
- JSON serialisation and local storage itself. The two keys are the
  optional fields of `Storage.Store`. The model assumes a stored value
  always parses back to what was written. `getUser` is the `user` field.
- The default quantity of 1 in `addToCart`. No caller omits the argument,
  so the model always takes it.
- Display rounding with `toFixed(2)` and IEEE-double arithmetic. Amounts
  are exact reals, so sums such as 1349.98 are exact.
- The clock and the order id. `new Date().toISOString()` is the parameter
  `now` of `Login`, and the order id built from `Date.now()` is not
  modelled.
- `toLowerCase` beyond ASCII. Letters outside `A`-`Z` are kept as they are.
- Parsing the price select into numbers. A `NaN` bound, or a price that is
  not a number, is not modelled; the range arrives already parsed.
- A `NaN` product id from `parseInt` in the cart page's button handler.
  Ids are integers.
- `undefined` form values from missing inputs. Every field is a string,
  and the empty string stands for a missing value.
- The end-to-end browser tests and their configuration.
- Integers at or above 2^53 in magnitude. JavaScript numbers are doubles,
  so ids, quantities and stock counts that large lose precision there,
  while the model's `int`s stay exact.
- Lone surrogate code units. A Dafny `char` is a Unicode scalar value, so
  a string holding half of a surrogate pair cannot be written down;
  `Text.Utf16Length` counts every other character as JavaScript's
  `length` does.
