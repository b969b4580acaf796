# Storefront core, modelled in Dafny

A model of the server-side core of a Next.js storefront ("prostore"), with
proofs about it. The database is replaced by in-memory tables: a class per
table whose `seq` or `map` field the actions reassign. The request context
is passed in explicitly:

- the session: `Option<Session>`, where `None` means signed out;
- the `sessionCartId` cookie, where `""` means absent;
- the outcome of steps that may throw.

All money is in integer cents.

- **Cart engine** (`cart.dfy`):
  - the pricing rule `calcPrice`: item total, free shipping strictly above 100.00, 15 % tax, grand total;
  - the cart table with `getMyCart`, `addItemToCart` and `removeItemFromCart`;
  - the sign-in hand-over of an anonymous cart;
  - the checkout's cart reset.
- **Checkout** (`orders.dfy`):
  - `createOrder`: the ordered precondition chain, then one all-or-nothing transaction. It creates the order, copies every cart line into an order item, and empties the cart with all four totals set to 0;
  - `getOrderById`.
- **Reviews** (`reviews.dfy`):
  - `upsertReview`: at most one review per product and author, and the product's average rating and review count recomputed in the same step;
  - `getReviewByProductId`.
- **Users** (`users.dfy`):
  - sign-up error routing;
  - lookup by id;
  - the three self-service updates, and the admin update and delete;
  - the admin listing: name filter, newest first, offset pagination, page count.
- **Catalog** (`catalog.dfy`): the product table that the cart reads and the review upsert writes.
- **Helpers**:
  - `formatNumberWithDecimal` over the decimal string of a number (`numberformat.dfy`);
  - the deal countdown's split of milliseconds into days, hours, minutes and seconds (`countdown.dfy`);
  - the pagination buttons (`pagination.dfy`);
  - the middleware's `authorized` decision with its protected-path test (`authconfig.dfy`);
  - the admin search box (`adminsearch.dfy`).
- **Shared vocabulary** (`common.dfy`): `Option`, `Result`, `findFirst` as `FirstWhere`, JavaScript's `includes`, ASCII lower-casing.

Modelling assumptions:

- **Tax rounding.** `round2` is imported but its definition is not part of this model. Tax is taken as 15 % of the items price in cents, rounded to the nearest cent with halves rounded up: `(15 * items + 50) / 100`. Item sums are exact in cents, so the other `round2` calls change nothing.
- **Ids.** Ids (uuids in the store) are natural numbers. Each table draws fresh ids from its own `nextId` counter. The redirect `order/<id>` renders the id in decimal.
- **Errors.** A thrown error is `Redirect` (a Next.js navigation signal, told apart by `isRedirectError`) or `Other(message)`.
  - Where the source formats a caught error with `formatError`, the model returns the error's own message.
  - Where a database call fails (an invalid page, an unknown id in `update`/`delete`), the model returns a fixed message.
- **Stored and read totals differ.** After a checkout, the cart's stored totals are all 0, but every read recomputes them from the lines. An empty cart therefore reads as 10.00 shipping and 10.00 total (`Cart.EmptyCartReadsShippingFee`).
- **No ownership check on orders.** `getOrderById` checks only that somebody is signed in: any signed-in user can read any order.
- **Session without a user id.** `getReviewByProductId` leaves its author filter `undefined` in that case. Prisma drops such a filter, so the first review of the product by anyone is returned. The model keeps this as written.

## Model

| member | source | states |
|---|---|---|
| Common.SessionUserId | lib/actions/cart.action.ts:36-37 | the caller's user id is present exactly when there is a session carrying one, and is that id |
| Common.FirstWhere | lib/actions/cart.action.ts:63-65 | `find`/`findFirst`: an index of a matching element with no match before it; none exactly when no element matches |
| Cart.Shipping | lib/actions/cart.action.ts:17 | shipping is 0 exactly when the items price is above 100.00, otherwise the 10.00 fee |
| Cart.Tax | lib/actions/cart.action.ts:18 | the tax is within half a cent of 15 % of the items price |
| Cart.CalcPrice | lib/actions/cart.action.ts:12-27 | items price is the sum of price times quantity over all lines; shipping iff rule; tax within half a cent of 15 %; total is the sum of the three |
| Cart.ShippingBoundary | lib/actions/cart.action.ts:17 | exactly 100.00 of items still pays 10.00 shipping (total 125.00); 100.01 ships free (total 115.01) |
| Cart.FindLine | lib/actions/cart.action.ts:63-65 | the line of a product, if any; none exactly when no line has that product |
| Cart.AddLine | lib/actions/cart.action.ts:62-77 | an existing product's line gains exactly 1 unit and every other line is unchanged; otherwise the item is appended at the end; product ids stay unique |
| Cart.StockAllows | lib/actions/cart.action.ts:66-75 | an existing line can grow exactly when the stock exceeds its quantity; a new line can be added exactly when the stock is above 0 |
| Cart.AddLineTotal | lib/actions/cart.action.ts:78-84 | after an add, the items total rises by one unit price (existing line) or by the new line's total |
| Cart.AddLineKeepsPositive | lib/actions/cart.action.ts:74-77 | adding a line with a positive quantity keeps every quantity positive |
| Cart.WithoutProduct | lib/actions/cart.action.ts:148-150 | the filter keeps no line of that product and never grows the list |
| Cart.WithoutProductRemovesLine | lib/actions/cart.action.ts:147-150 | with unique product ids the filter removes exactly that one line and keeps the others in order |
| Cart.RemoveLine | lib/actions/cart.action.ts:147-154 | a line with quantity 1 is deleted; any other quantity drops by exactly 1; all other lines are untouched; ids stay unique |
| Cart.RemoveLineTotal | lib/actions/cart.action.ts:156-162 | after a remove, the items total drops by exactly one unit price of that line |
| Cart.RemoveLineKeepsPositive | lib/actions/cart.action.ts:147-154 | removing keeps every remaining quantity positive |
| Cart.WithItems | lib/actions/cart.action.ts:78-84 | the written cart keeps its id and owners and carries totals recomputed from its new lines |
| Cart.FindCart | lib/actions/cart.action.ts:109-113 | the first cart owned by the caller: by user id when signed in, otherwise by session cart id |
| Cart.CartStore.GetMyCart | lib/actions/cart.action.ts:103-122 | error exactly when the cookie is missing; otherwise the first cart the caller owns (the one `FindCart` selects and the writes use) with totals recomputed from its lines, or nothing exactly when the caller owns none |
| Cart.CartStore.AddItemToCart | lib/actions/cart.action.ts:29-101 | succeeds exactly when the cookie is present, the product exists and the stock allows it; failures write nothing and carry their messages; a missing cart is created with just the item (no stock check) under a fresh id; an existing cart gets `AddLine` with recomputed totals and no id is consumed |
| Cart.CartStore.RemoveItemFromCart | lib/actions/cart.action.ts:124-175 | failures in order (cookie, product, cart, line) each write nothing; success writes `RemoveLine` with recomputed totals to the caller's cart only |
| Cart.CartStore.AssignSessionCart | auth.ts:91-100 | the first cart with this session cart id gets the user as owner; nothing else changes |
| Cart.CartStore.ClearCart | lib/actions/order.action.ts:68-77 | the cart's lines become empty and its four stored totals 0; no other cart changes |
| Cart.EmptyCartReadsShippingFee | lib/actions/cart.action.ts:117-121 | a cleared cart read back is priced 0 items, 10.00 shipping, 0 tax, 10.00 total |
| Catalog.ProductStore.SetReviewAggregate | lib/actions/review.actions.ts:59-65 | only the rating and review count of that one product change |
| Orders.SnapshotLine | lib/actions/order.action.ts:60-66 | an order item copies every field of its cart line and adds the order id |
| Orders.SnapshotLines | lib/actions/order.action.ts:59-67 | one order item per cart line, in cart order |
| Orders.SnapshotTotal | lib/actions/order.action.ts:46-67 | the order items add up to the order's items price |
| Orders.CatchCheckoutError | lib/actions/order.action.ts:88-92 | a redirect error becomes a failure result; any other error makes the action return nothing |
| Orders.CheckoutGate | lib/actions/order.action.ts:14-44 | the checks run in order and the first failure wins: no session, no cookie, no user id and no user row abort with their errors; then, for the caller's row, a missing or empty cart is refused with '/cart', else a missing address with '/shipping-address', else a missing payment method with '/payment-method'; passing means all hold |
| Orders.ReadyCustomerProceeds | lib/actions/order.action.ts:16-44 | a signed-in user with a non-empty cart, an address and a payment method passes every check |
| Orders.ItemsOf | lib/actions/order.action.ts:101-107 | exactly the order items belonging to the order |
| Orders.OrderStore.Insert | lib/actions/order.action.ts:56-67 | the order and its items are added together; every item still belongs to an existing order |
| Orders.OrderStore.GetOrderById | lib/actions/order.action.ts:95-115 | no session → 'User not authenticated'; unknown id → 'Order not found'; otherwise the order with exactly its items |
| Orders.CreateOrder | lib/actions/order.action.ts:12-93 | per outcome of the check chain: aborted and refused checkouts write nothing; a failed transaction writes nothing and returns nothing; a committed one adds the order under a fresh id with the cart's recomputed totals, one snapshot item per line, clears the cart and returns 'order/<id>' |
| Reviews.AverageRating | lib/actions/review.actions.ts:51-62 | 0 when the product has no reviews, otherwise the rating sum divided by the review count |
| Reviews.ReviewCount | lib/actions/review.actions.ts:55-57 | the product's review count never exceeds the number of reviews |
| Reviews.NoReviewsIffZeroCount | lib/actions/review.actions.ts:55-57 | the count is 0 exactly when no review is about the product |
| Reviews.RatingSum | lib/actions/review.actions.ts:51-54 | the rating sum is 0 when the product has no reviews |
| Reviews.RatingSumBounds | lib/actions/review.actions.ts:51-57 | with every rating in lo..hi, the sum lies between count·lo and count·hi |
| Reviews.AverageWithinRatings | lib/actions/review.actions.ts:51-62 | with every rating in lo..hi and at least one review, the stored average lies in lo..hi |
| Reviews.EditKeepsValid | lib/actions/review.actions.ts:38-46 | editing a review's text and rating keeps ids unique and one review per author and product |
| Reviews.AppendKeepsValid | lib/actions/review.actions.ts:47-49 | creating the author's first review of a product under the next id keeps the table valid |
| Reviews.AverageOfFiveAndThree | lib/actions/review.actions.ts:51-62 | ratings 5 and 3 give a count of 2 and an average of 4.0 |
| Reviews.AppendAggregates | lib/actions/review.actions.ts:47-57 | inserting a review adds one to its product's count and its rating to the sum, and changes no other product's |
| Reviews.EditAggregates | lib/actions/review.actions.ts:38-57 | editing a review keeps every count and moves its product's sum by the change of rating |
| Reviews.FindOwnReview | lib/actions/review.actions.ts:33-35 | the author's review of the product, if any; none exactly when there is none |
| Reviews.Upserted | lib/actions/review.actions.ts:33-49 | an existing review of this author and product changes only title, description and rating; otherwise exactly one review is appended; one review per author and product is kept; other products' counts and sums are unchanged |
| Reviews.ReviewStore.UpsertReview | lib/actions/review.actions.ts:10-73 | no session, a missing author or an unknown product fail and write nothing; success writes `Upserted`, consumes a fresh id only when it inserts, and sets the product's rating to the new average and its count to the new count, leaving other products alone |
| Reviews.ReviewStore.GetReviewByProductId | lib/actions/review.actions.ts:91-105 | error exactly without a session; with a user id, the caller's own review of the product or nothing exactly when there is none |
| Users.RouteSignUpError | lib/actions/user.actions.ts:75-79 | redirect errors propagate; every other error becomes an unsuccessful result with its message |
| Users.FindUser | lib/actions/user.actions.ts:84-86 | the first row with that id; none exactly when no row has it |
| Users.CurrentUserAsWritten | lib/actions/user.actions.ts:97-102 | the lookup as written: with a user id, the first row with that id; without one, the first row of the table (none only for an empty table) |
| Users.UpdateAddressAsWritten | lib/actions/user.actions.ts:95-109 | the address update as written: the row the written lookup selects gets the address and every other row is unchanged; no write when it selects none |
| Users.UnauthenticatedUpdateWritesFirstUser | lib/actions/user.actions.ts:97-109 | with no session, the address update as written overwrites the first user's address |
| Users.CurrentUser | lib/actions/user.actions.ts:97-102 | the corrected lookup: a row only for a signed-in user, and only that user's own row |
| Users.CurrentUserIsCaller | lib/actions/user.actions.ts:97-102 | the row the corrected lookup selects belongs to the session's user |
| Users.CurrentUserAgreesWhenSignedIn | lib/actions/user.actions.ts:97-102 | with a user id in the session the corrected and the written lookup coincide |
| Users.Matching | lib/actions/user.actions.ts:174-186 | only users whose name contains the query (case-insensitively), all of them, and everybody when the query is empty or 'all' |
| Users.MatchingAppend | lib/actions/user.actions.ts:185-187 | the filter keeps table order: filtering a concatenation concatenates the filtered parts |
| Users.NewestFirst | lib/actions/user.actions.ts:187 | the table in reverse creation order |
| Users.CeilDiv | lib/actions/user.actions.ts:195 | `Math.ceil(count / limit)`: the least page count whose pages hold every row |
| Users.Window | lib/actions/user.actions.ts:188-189 | `skip`/`take`: the consecutive rows starting at `skip`, exactly min(`take`, rows - `skip`) of them; none past the end |
| Users.UserStore.GetUserById | lib/actions/user.actions.ts:83-93 | the row with that id, or 'User not found' exactly when there is none |
| Users.UserStore.GetAllUsers | lib/actions/user.actions.ts:165-200 | exactly min(`limit`, matches - offset) matching users, from offset (page-1)*limit of the newest-first list, in that order; page count over all users, ignoring the filter; a page below 1 is an error |
| Users.UserStore.PageBeyondLastIsEmpty | lib/actions/user.actions.ts:188-195 | a page after the last one is empty, not an error |
| Users.UserStore.SignUpUser | lib/actions/user.actions.ts:49-81 | a failed parse writes nothing; otherwise one user row with the default role is created under a fresh id and stays even if sign-in fails; errors are routed by `RouteSignUpError` |
| Users.UserStore.UpdateUserAddress | lib/actions/user.actions.ts:95-115 | fails with no write when there is no current user; otherwise only that user's address changes |
| Users.UserStore.UpdateUserPaymentMethod | lib/actions/user.actions.ts:117-139 | fails with no write when there is no current user; otherwise only that user's payment method changes |
| Users.UserStore.UpdateUserProfile | lib/actions/user.actions.ts:141-163 | fails with no write when there is no current user; otherwise only that user's name and email change |
| Users.UserStore.UpdateUser | lib/actions/user.actions.ts:213-229 | succeeds exactly when the id exists; then only the name and role of that row change; otherwise nothing is written |
| Users.UserStore.DeleteUser | lib/actions/user.actions.ts:202-211 | succeeds exactly when the id exists; afterwards the table holds exactly the other users, in order |
| NumberFormat.IntPart | lib/utils.ts:12 | the longest dot-free prefix: a prefix of the input holding no '.', followed by the end of the input or a '.' |
| NumberFormat.FracPart | lib/utils.ts:12 | "" when the input has no '.'; otherwise the dot-free piece after the first '.', so that integer part, '.' and it form a prefix of the input followed by its end or another '.' |
| NumberFormat.PadEnd | lib/utils.ts:14 | `padEnd`: pads on the right to the target length and never cuts |
| NumberFormat.FormatNumberWithDecimal | lib/utils.ts:11-15 | no fraction gives '<int>.00'; one digit is padded with '0'; two or more are kept; the output starts with the input's integer part and a single '.' |
| NumberFormat.FormatParts | lib/utils.ts:12-14 | the output's integer part is the input's and its fraction has at least two digits: the input's, padded |
| NumberFormat.Idempotent | lib/utils.ts:11-15 | formatting a formatted value changes nothing |
| DealCountdown.Remaining | components/deal-countdown.tsx:13-16 | `max(target - now, 0)`: never negative |
| DealCountdown.Ended | components/deal-countdown.tsx:68-73 | all four fields are 0 exactly when they stand for 0 ms, and exactly when they stand for 0 whole seconds |
| DealCountdown.CalculateTimeRemaining | components/deal-countdown.tsx:11-26 | hours < 24, minutes < 60, seconds < 60, and the fields' milliseconds are at most the remaining time and within one second of it |
| DealCountdown.EndedIffUnderOneSecond | components/deal-countdown.tsx:68-73 | 'Deal has Ended' shows exactly when less than one second remains |
| DealCountdown.EndedAtTarget | components/deal-countdown.tsx:13-25 | from the target time on, every field is 0 |
| DealCountdown.NeverIncreases | components/deal-countdown.tsx:13-25 | as time passes, the total whole seconds shown never go up |
| Pagination.PageAfterClick | components/shared/pagination.tsx:23 | 'next' moves to page + 1, any other button to page - 1 |
| Pagination.PreviousDisabled | components/shared/pagination.tsx:39 | Previous is disabled exactly when its click would go below page 1 |
| Pagination.NextDisabled | components/shared/pagination.tsx:48 | Next is disabled exactly when its click would pass the last page |
| Pagination.ParamKey | components/shared/pagination.tsx:27 | the URL key is the given name, or 'page' when it is absent or empty |
| Pagination.EnabledClickStaysInRange | components/shared/pagination.tsx:22-48 | from a page in 1..totalPages, a click on an enabled button stays in 1..totalPages |
| Pagination.SinglePageDisablesBoth | components/shared/pagination.tsx:39-48 | with at most one page, both buttons are disabled on page 1 |
| AuthConfig.AnyPatternIff | auth.config.ts:10-20 | `some` holds exactly when one of the patterns occurs in the path |
| AuthConfig.IsProtected | auth.config.ts:10-20 | a path is protected exactly when one of the seven patterns occurs in it |
| AuthConfig.Authorized | auth.config.ts:7-39 | with the cookie: allow; without it: deny exactly an anonymous request for a protected path, otherwise allow with a fresh cookie; signed-in users are never denied |
| AuthConfig.AdminAnywhereIsProtected | auth.config.ts:17-20 | any path containing '/admin' anywhere is protected |
| AuthConfig.PatternsAreUnanchored | auth.config.ts:10-20 | the patterns are unanchored: '/api/admin-report' is protected |
| AuthConfig.BareUserPathIsOpen | auth.config.ts:15 | '/user' without a trailing slash is not protected |
| AdminSearch.FormActionUrl | components/admin/admin-search.tsx:9-13 | '/admin/orders' is tested first, then '/admin/users', else '/admin/products'; always one of the three |
| AdminSearch.FormActionIsProtected | components/admin/admin-search.tsx:9-13 | every search target is a protected path |
| AdminSearch.InitialQuery | components/admin/admin-search.tsx:15 | the 'query' parameter, or "" when absent |
| AdminSearch.SearchBox.constructor | components/admin/admin-search.tsx:15 | the box starts with the 'query' parameter |
| AdminSearch.SearchBox.OnChange | components/admin/admin-search.tsx:28 | typing replaces the text |
| AdminSearch.SearchBox.OnParamsChange | components/admin/admin-search.tsx:17-19 | a change of parameters resyncs the text |

## Left out

- Payment and delivery transitions (paying, delivering, deleting or listing orders): their bodies are not part of this model.
- Payment provider clients, webhooks and e-mail sending: network I/O.
- Password hashing, NextAuth wiring and JWT callbacks (auth.ts), apart from the cart hand-over at sign-in: foreign code.
- The form schemas (lib/validators.ts is not part of this model).
  - A schema failure appears only where it decides a branch: the sign-up parse is an input, and a review without an author fails.
  - Quantities, prices and field contents are not validated.
- `revalidatePath`, `convertToPlainObj`, cookies, `crypto.randomUUID` and response construction: plumbing. A fresh cookie value is a parameter.
- Cart.CalcPrice: models prices in integer cents, not JavaScript floats; the result is numbers, not `toFixed(2)` strings; the tax rounding is assumed half up.
- `formatError` wording: fixed messages stand in for formatted error text.
- Users.UserStore.GetAllUsers: does not model a non-integer or NaN page or limit; a page below 1 yields a fixed "Invalid page" error where the database would raise its own message; `limit` is required positive; `PAGE_SIZE` (the default limit) is not part of this model.
- Users.Matching: case-insensitive matching folds ASCII letters only, with no Unicode case folding.
- Users.NewestFirst: assumes creation order equals table order (`createdAt` timestamps are not modelled).
- The Prisma schema's constraints (unique e-mail, cascading deletes): the schema is not part of this model.
- Orders.OrderStore.GetOrderById: does not return the joined user name and e-mail.
- Orders.CreateOrder: a failed transaction is an input flag (`committed`), not a database error. The unreachable 'Failed to create order' check is omitted, because an inserted order always has an id.
- Concurrency: each transaction is one atomic state change. The read-then-write race in `addItemToCart` is not modelled.
- The countdown's interval timer and React state, and the pagination's URL building (`formUrlQuery`) and `router.push`: UI.
- `getReviews` and the product actions: outside the modelled core.
- Pagination.PageAfterClick: `page` is an integer; the source passes the raw URL value through `Number(page)`, so a non-numeric page (NaN, which enables both buttons and pushes `page=NaN`) and a fractional page (2.5 moves to 3.5) are not modelled. The same holds for `Pagination.PreviousDisabled` and `Pagination.NextDisabled`.

## Findings

| source | as written | input that shows it | evidently intended | confidence | as-written member | corrected member |
|---|---|---|---|---|---|---|
| lib/actions/user.actions.ts:97-102 | `findFirst({ where: { id: session?.user?.id } })`: with no session the id filter is `undefined`, which Prisma drops, so the query matches the first user. The same lookup is at lines 121-124 and 145-148. | no session, a user table with at least one row: the submitted address is written to the first user | with no signed-in user the lookup finds nothing and the update fails with 'User not found' | not executed; follows from Prisma ignoring `undefined` filter values | Users.UnauthenticatedUpdateWritesFirstUser | Users.CurrentUser |
