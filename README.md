# Storefront cart-to-order pipeline, in Dafny

This project models the PHP storefront backend's path from a session cart to a saved order:

- **Pricing.** The rate table and currency conversion, shipping, and cart totals. The wishlist and compare listings are priced the same way. (`money.dfy`, `pricing.dfy`)
- **Session stores.** The cart is kept as an ordered map from product id to quantity, and the wishlist and compare lists as de-duplicated id lists. (`cart.dfy`, the `Session` class in `api.dfy`)
- **Order ledger** on its JSON-file path:
  - saving appends the order with id `count + 1`;
  - listing filters by email case-insensitively, newest first;
  - lookup is by id.

  (`ledger.dfy`, the `Store` class in `api.dfy`)
- **Identity.** The admin credential check and the admin session flag; customer registration, login and the current customer. (`identity.dfy`, `accounts.dfy`, `api.dfy`)
- **Catalogue.** The product lookup table, the tag split, and the category and brand counts sorted by name. (`catalog.dfy`)

Supporting modules:

- `text.dfy` holds `trim`, `strcasecmp` and the byte order `ksort` uses.
- `responses.dfy` holds the error responses.
- `wrappers.dfy` holds `Option`. Its `GetOr` is PHP's `??`.

State:

- `$_SESSION` is the `Session` class.
- The orders and users files are the `Store` class.
- The outcome of a database insert is a `DbInsert` parameter.
- A handler's JSON answer is a `Result`: `Ok` for the body, `Err(failure)` for the error response.

Money is an exact `real`, and `Round2` is PHP's `round($x, 2)`.

Two behaviours of the code worth knowing:

- **The order total rounds the unrounded sum** (`round($subtotal + $shipping, 2)`). Stored subtotal plus stored shipping can therefore be a cent off the stored total. `Pricing.TotalIsNotSumOfRoundedFigures` exhibits this.
- **Shipping uses the unrounded subtotal.** A cart shown with a subtotal of 150.00 can still pay shipping, as `Pricing.ShippingChargedAtDisplayedThreshold` shows.

## Model

| member | source | states |
|---|---|---|
| Money.Round2 | backend/helpers.php:160-161 | `round($x, 2)`: the result is a whole number of cents within half a cent of the input, a tie goes away from zero (up for x >= 0, down for x < 0), and the sign is kept |
| Money.Round2Idempotent | backend/helpers.php:271-278 | rounding an already rounded amount changes nothing |
| Money.RateTable | backend/bootstrap.php:49 | without configured rates the table is `['AUD' => 1.0]`, otherwise the configured one |
| Money.ConvertCurrency | backend/helpers.php:150-158 | fails open: a currency missing from the table, or a non-positive source rate, returns the amount unchanged and unrounded |
| Money.ConvertCurrencyRounds | backend/helpers.php:156-161 | with valid rates the result is whole cents within half a cent of value / rate[from] * rate[to] |
| Money.ConvertSameCurrency | backend/helpers.php:156-161 | converting into the same currency still rounds to the cent |
| Money.RoundTripTolerance | backend/helpers.php:150-162 | amounts within half a cent of the exact A to B and B to A conversions come back within half a cent plus half a cent times rate[A]/rate[B] |
| Money.ConvertRoundTrip | backend/helpers.php:150-162 | ConvertCurrency from A to B and back to A, with valid rates, returns within half a cent plus half a cent times rate[A]/rate[B] of the amount |
| Money.ConvertBack | backend/helpers.php:156-161 | the return leg: from any amount within half a cent of the exact A to B conversion, ConvertCurrency back to A lands within that tolerance |
| Money.RoundTripLosesACent | backend/helpers.php:150-162 | with AUD 1.0 / USD 0.67, 0.05 AUD to USD and back gives 0.04 |
| Money.CalculateShipping | backend/helpers.php:164-172 | 0 at or above the free-over threshold and never 0 by that rule without one; otherwise base + per-item * max(1, item count) |
| Money.ShippingMonotoneInItems | backend/helpers.php:164-172 | with a non-negative per-item rate, more items never ship for less |
| Pricing.DefaultFreeShipping | backend/bootstrap.php:55 | under the default 9.95 / 1.5 / 150 settings, shipping is 0 exactly when the subtotal is at least 150 |
| Pricing.DefaultShippingExamples | backend/helpers.php:164-172 | 150.00 ships free, 149.99 with 2 items pays 12.95, an empty count is charged as one item |
| Pricing.Resolve | backend/helpers.php:255-269 | cart lines whose product is not in the lookup are dropped; the rest become items in cart order, one per line |
| Pricing.ItemsFacts | backend/helpers.php:255-269 | each item comes from a catalogue product and a cart line of that quantity, and carries the converted unit price and price * quantity as its line total |
| Pricing.LineTotalIsProduct | backend/helpers.php:261 | the line total is the unit price times the quantity |
| Pricing.CartTotalsOf | backend/helpers.php:244-280 | the totals cartTotals() answers with are in the requested currency and have at most one item per cart line |
| Pricing.CartTotalsFigures | backend/helpers.php:271-278 | for every cart: subtotal, shipping and total are the rounded line-total sum, the rounded shipping on that unrounded sum and the whole cart's item count, and the rounded unrounded sum of the two; each is whole cents within half a cent of its exact figure |
| Pricing.CartTotals | backend/helpers.php:244-280 | the loop computes the items and the running subtotal, then rounds subtotal, shipping and total as the totals specification says |
| Pricing.NoItemsIff | backend/helpers.php:255-269 | the totals have no items exactly when no cart line names a catalogue product |
| Pricing.TotalWithinACent | backend/helpers.php:271-278 | the total differs from the rounded subtotal plus the rounded shipping by one cent at most |
| Pricing.CentsRoundExactly | backend/helpers.php:276-278 | for whole-cent amounts, rounding the sum gives the sum of the rounded amounts |
| Pricing.TotalIsSumForCents | backend/helpers.php:271-278 | when line totals and shipping are whole cents, the total is exactly subtotal plus shipping |
| Pricing.TotalIsNotSumOfRoundedFigures | backend/helpers.php:276-278 | a 0.004 item in a currency missing from the rate table (so not converted), with 0.004 shipping, shows subtotal 0.00, shipping 0.00 and total 0.01 |
| Pricing.ShippingChargedAtDisplayedThreshold | backend/helpers.php:167-171 | an unconverted 149.996 subtotal is displayed as 150.00 and is still charged 11.45 shipping under the default settings |
| Pricing.OneLineCart | backend/helpers.php:244-280 | a one-line cart's totals carry that product's single item |
| Pricing.ListItemsOf | backend/helpers.php:282-304 | listed products are saved ids known to the catalogue, each with that catalogue entry and its converted price |
| Pricing.ListItemsOfOrder | backend/helpers.php:282-304 | the listing has exactly one item per saved id the catalogue knows, in saved order |
| Pricing.ListItemsComplete | backend/helpers.php:306-328 | every saved id that the catalogue knows is listed |
| Pricing.ListItems | backend/helpers.php:282-328 | the loop builds exactly the listing the specification function describes |
| Catalog.SplitTags | backend/helpers.php:24 | every tag is trimmed, non-empty, not "0" and contains no comma |
| Catalog.KeptTagClean | backend/helpers.php:24 | a kept tag is the trim of a comma-free field and is neither falsy nor blank at either end |
| Catalog.KeptTagsMembership | backend/helpers.php:24 | a tag is kept exactly when it is truthy and is the trim of some comma-separated field |
| Catalog.DropFalsyMembership | backend/helpers.php:24 | array_filter keeps exactly the truthy values |
| Catalog.Index | backend/helpers.php:247-250 | the lookup map the foreach builds holds no more entries than the catalogue has products (a repeated id keeps one entry); IndexKeys, IndexLastWins and IndexEntries state the rest |
| Catalog.IndexKeys | backend/helpers.php:247-250 | an id is in the lookup exactly when some catalogue product has it |
| Catalog.IndexLastWins | backend/helpers.php:247-250 | the lookup holds the last product with a given id |
| Catalog.IndexEntries | backend/helpers.php:247-250 | each lookup entry is a catalogue product stored under its own id |
| Catalog.BuildLookup | backend/helpers.php:247-250 | the foreach builds the lookup table |
| Catalog.SortNames | backend/helpers.php:185 | ksort: the names in strictly ascending byte order, same names |
| Catalog.CountNames | backend/helpers.php:177-183 | the counting loop: each name seen gets its number of occurrences |
| Catalog.Tally | backend/helpers.php:177-187 | rows sorted by name, one per non-empty name, each with its number of occurrences |
| Catalog.TallyNamesDistinct | backend/helpers.php:182-185 | the sorted rows never repeat a name: one row per key |
| Catalog.AvailableCategories | backend/helpers.php:174-188 | category rows with product counts, sorted by name, blank categories skipped |
| Catalog.AvailableBrands | backend/helpers.php:190-204 | brand rows with product counts, sorted by name, blank brands skipped |
| Cart.QuantityOf | backend/api.php:55 | a product's quantity is 0 when it has no line, else the quantity of its line |
| Cart.PutFacts | backend/api.php:53-56 | keyed assignment keeps one line per product, adds exactly the new key, and leaves other quantities alone |
| Cart.AddLine | backend/api.php:52-57 | an existing line keeps its position and gets max(1, quantity) more, other lines untouched; a new product is appended with max(1, quantity) |
| Cart.AddLineQuantities | backend/api.php:52-57 | after adding, the product's quantity is its old quantity plus max(1, quantity), one line per product |
| Cart.RemoveLine | backend/api.php:66-72 | unset: the product is gone, nothing is added, and an absent product leaves the cart unchanged |
| Cart.RemoveLineKeepsOrder | backend/api.php:69 | in a keyed cart, removal cuts out exactly the product's line; the lines before and after it keep their order |
| Cart.RemoveLineFacts | backend/api.php:69 | removal keeps one line per product and every other product's quantity |
| Cart.RemoveUndoesAdd | backend/api.php:47-72 | adding a new product and then removing it gives back the cart |
| Cart.ItemCount | backend/helpers.php:239-242 | cartItemCount(): the sum of every line's quantity, lines for products gone from the catalogue included; with quantities of at least 1 it is at least the number of lines |
| Cart.AddLineItemCount | backend/helpers.php:239-242 | adding raises the item count by max(1, quantity) |
| Cart.RemoveLineItemCount | backend/helpers.php:239-242 | removing lowers the item count by the product's quantity |
| Cart.AddTwice | backend/api.php:52-57 | adding a product twice leaves as many lines as adding it once, its quantity raised by both max(1, quantity) amounts |
| Cart.AddSevenTwice | backend/api.php:52-57 | adding 2 then 3 of product 7 gives one line of 5 |
| Cart.Unique | backend/helpers.php:223-226 | array_unique: no duplicates, the same ids, in first-occurrence order |
| Cart.UniqueIdempotent | backend/helpers.php:234-237 | saving a saved list again changes nothing |
| Ledger.Numbering | backend/helpers.php:106-112 | the saved order is the given one with id count + 1 |
| Ledger.AppendKeepsNumbered | backend/helpers.php:106-112 | appending keeps the file numbered 1, 2, 3, ..., and the new id exceeds every earlier one |
| Ledger.CountPlusOneCanRepeat | backend/helpers.php:108 | with ids [1, 3] in the file, the next order gets id 3 again |
| Ledger.FilterByEmail | backend/helpers.php:144 | keeps exactly the orders whose email matches case-insensitively |
| Ledger.SortByIdDesc | backend/helpers.php:146 | usort: descending ids, a permutation of the input |
| Ledger.AllOrders | backend/helpers.php:142-147 | descending ids; exactly the matching orders, or all of them for a missing or empty email |
| Ledger.ListingOfNumberedLedger | backend/helpers.php:142-147 | on a numbered file the unfiltered listing is the file reversed |
| Ledger.FindOrderById | backend/helpers.php:454-463 | finds an order with exactly that id, and reports none exactly when no order carries it |
| Ledger.LookupOrder | backend/helpers.php:438-452 | not found for id <= 0 or an id no order carries; otherwise an order with that id |
| Ledger.UnnumberedOrderNotLookedUp | backend/helpers.php:440-450 | an order without an id is found under 0 by findOrderById but lookupOrder(0) reports it missing |
| Ledger.LookupNumbered | backend/helpers.php:438-463 | in a numbered file, lookup of k returns the k-th order |
| Text.TrimPiece | backend/helpers.php:178 | what the two strip passes leave is the slice of the input after its leading blanks, followed only by blanks |
| Text.Trim | backend/helpers.php:178 | trim(): the result is the slice of the input left once blanks are stripped from both ends, and neither of its ends is blank |
| Text.TrimKeepsCharacters | backend/helpers.php:24 | trim() removes characters and never adds one |
| Text.EqualsIgnoreCaseIffLowered | backend/helpers.php:49 | `strcasecmp($a, $b) === 0` holds exactly when the two strings are equal once ASCII capitals are lowered |
| Text.BelowTotal | backend/helpers.php:185 | the ksort byte order is total on distinct strings |
| Text.BelowTransitive | backend/helpers.php:185 | the ksort byte order is transitive |
| Text.JoinExplode | backend/helpers.php:24 | explode(',') splits a string into comma-free pieces that join back to it |
| Accounts.FindUserByEmail | backend/helpers.php:46-55 | the first user whose email matches ignoring case; none exactly when no user matches |
| Accounts.CurrentCustomer | backend/helpers.php:57-71 | no customer without a session id; otherwise the first user with that id, and none only when no user has it |
| Accounts.NextUserId | backend/helpers.php:396 | max existing id + 1, or 1 with no users; above every id in use |
| Accounts.Register | backend/helpers.php:379-410 | "required" exactly for an empty trimmed email or an empty password, "exists" exactly for a taken email; otherwise a user with the next id, the trimmed email and the name or 'Customer' |
| Accounts.RegisterKeepsUnique | backend/helpers.php:385-406 | registration keeps emails (ignoring case) and ids unique |
| Accounts.RegisterTwiceConflicts | backend/helpers.php:390-393 | registering the same email again, in any case, is refused |
| Accounts.Login | backend/helpers.php:412-425 | succeeds exactly when the email finds a user whose hash verifies the password; every failure is "Invalid credentials" |
| Accounts.LoginErrorsAlike | backend/helpers.php:412-425 | an unknown email and a wrong password get the same error |
| Accounts.LoginAfterRegister | backend/helpers.php:379-425 | logging in with what was just registered finds the new user |
| Identity.SubmittedAdminEmail | backend/helpers.php:333 | the email field, else the username field, else '' |
| Identity.RequireAdmin | backend/helpers.php:330-336 | requireAdmin() passes only when the submitted email (or username) equals the configured email ignoring ASCII case and the password equals the configured one exactly, a missing entry counting as ''; with no admin section, only the password 'secret' passes |
| Identity.ConfiguredPairPasses | backend/helpers.php:330-336 | the configured email and password, submitted as they are, pass |
| Identity.RequireAdminIgnoresEmailCase | backend/helpers.php:330-336 | payloads whose emails differ only in letter case get the same answer |
| Identity.DefaultAdminExamples | backend/helpers.php:330-336 | with the default credentials, a case-changed email passes and a case-changed password fails |
| Api.Store.SaveOrder | backend/helpers.php:83-113 | with the database, the order gets its row id and the file is untouched; otherwise numbered count + 1 and appended, earlier orders unchanged |
| Api.Store.AddUser | backend/helpers.php:405-406 | the new user is appended to the stored users, the others unchanged |
| Api.OrderFrom | backend/api.php:82-91 | the order checkout builds: no id, customer name or 'Guest', email and phone or '', and currency, items and figures from the same totals |
| Api.Session.AddToCart | backend/api.php:47-64 | known product: the cart becomes AddLine of the old cart, and the AUD totals are returned; unknown product: "Product not found" and the cart unchanged; one line per product kept |
| Api.Session.RemoveFromCart | backend/api.php:66-72 | the cart becomes RemoveLine of the old cart and the AUD totals are returned |
| Api.Session.SaveWishlist | backend/helpers.php:223-226 | the stored wishlist is the ids made unique |
| Api.Session.SaveCompare | backend/helpers.php:234-237 | the stored compare list is the ids made unique |
| Api.Session.WishlistItems | backend/helpers.php:282-304 | the listing of the stored wishlist |
| Api.Session.CompareItems | backend/helpers.php:306-328 | the listing of the stored compare list |
| Api.Session.Checkout | backend/api.php:74-97 | with no items: "Cart is empty", nothing saved, cart kept; otherwise the order built from the same totals with Guest/''/'' defaults is saved, the cart emptied, and the order returned without its id |
| Api.Session.AdminLogin | backend/api.php:99-108 | the admin flag is set exactly when requireAdmin holds, else "Invalid credentials" and the flag unchanged |
| Api.Session.AdminOrders | backend/api.php:110-130 | "Unauthorized" without the flag; otherwise the stored orders in file order |
| Api.Session.CustomerRegister | backend/helpers.php:379-410 | a refusal changes nothing; a success appends the user and logs them in |
| Api.Session.CustomerLogin | backend/helpers.php:412-425 | a success remembers the user's id; a failure is "Invalid credentials" with the session unchanged |
| Api.Session.CustomerOrders | backend/helpers.php:427-436 | "Login required" without a current customer; otherwise their orders, newest first |

## Left out

- **PDO/SQL branches** of loadProducts, saveOrder, allOrders and adminOrders. Only saveOrder's choice between the database and the JSON file is kept, as `DbInsert`. The listing and lookup model the JSON-file path.
- **File and JSON I/O** (readJson, writeJson, json_encode, json_decode, loadProducts). The catalogue, orders and users are in-memory sequences, and the catalogue is a parameter.
- **password_hash and password_verify.** These are opaque: registration is handed the hash, and login is handed the check as a function parameter.
- **date() timestamps** on orders and users.
- **HTTP status codes and exit.** respond() and exit become `Result` values. `Responses.Status` and `Responses.Message` give the code and text of each error.
- **The action router** (backend/api.php:12-41). Each handler is a method of its own.
- **IEEE-754 doubles.** Money is exact rational arithmetic, so float artefacts are not captured. For example, line totals summed in doubles can land a hair below a free-over threshold that the exact sum reaches, and the `>=` at backend/helpers.php:167 then charges shipping.
- **Concurrency.** Concurrent requests racing on the JSON ledger are not modelled.
- **Duplicate admin declarations.** adminLogin and adminOrders also appear in backend/helpers.php:343-362 with another session key and other error texts. The model has one admin flag, with the backend/api.php versions.
- **adminCustomers** (backend/helpers.php:364-377) lists the stored users without their password hashes behind the helpers.php admin flag. It is an admin listing outside the cart-to-order pipeline and is not modelled.
- **intval and string ids.** Ids are already integers, so `intval` coercion of payload strings and PHP's numeric-string array keys are not modelled.
- **ksort of numeric keys.** PHP turns a category or brand name written as a decimal integer into an integer key, and ksort compares numeric keys and numeric strings by value ("9.5" before "10"). The model sorts every name by bytes.
- **Tag keys.** array_filter keeps the original keys (backend/helpers.php:24), so a dropped field leaves a gap and json_encode then writes the tags as an object. The model keeps the tags as a list in order.
- **Integer overflow.** A quantity sum beyond PHP_INT_MAX becomes a float in PHP (backend/api.php:55). Quantities are unbounded integers here.
- **persistCustomerSession and saveCart.** These are the assignments to the session fields, which the `Session` methods make directly.
- **Admin order listing on the database path.** That path sorts by id; the model returns the JSON file in file order, as backend/api.php:128-129 does.
- **Wishlist and compare.** The backend saves these lists whole and reads them back; it has no operation that adds or removes a single id, so neither does the model.
- **Storage errors.** When the database insert fails, saveOrder falls back to the JSON file and never reports a storage error; `DbInsert.Unavailable` is that path.
- Pricing.CartTotals: the subtotal accumulates line totals in `real`, so float accumulation error is not represented.
