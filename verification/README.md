# LYHU distribution portal: stores, leads, admin statistics and sign-in, in Dafny

This project models the client-side business core of the LYHU wholesale
portal. That core has six parts:

- **Order store.** A list of orders saved in one storage slot. New codes are
  numbered per year as `ORD-<year>-<nnn>`. The store supports status updates,
  status and customer filters, and a dashboard summary whose revenue leaves
  cancelled orders out.
- **Customer store.** The cart is keyed by product id: adding merges into an
  existing line, and setting a quantity of zero or less removes the line.
  Checkout turns the whole cart into one pending customer order and empties
  the cart.
- **Sales lead funnel.** Five statuses, a seed list shown until the first
  save, and funnel statistics.
- **CTV lead list.** Three statuses, the same seed list behaviour, and lead
  statistics.
- **Admin lead view.** Both lead lists are merged into one shape, with ids
  prefixed by their source. The merged list is sorted newest first, and
  totals are drawn from it.
- **Mock sign-in and page guard.** A fixed list of four accounts is looked up
  by email. The current user sits in a storage slot. A guard decides whether
  a dashboard page lets the user in or where it sends them.

How the model is set up:

- Each list-holding storage slot is an explicit value, `Option<seq<T>>`.
  `None` stands for a slot that is absent or unreadable.
- The session slot is `Auth.Session`: no session, a stored user, or text
  that does not parse.
- Each operation is a pure function from the slot (and its inputs) to what it
  returns and the list it saves.
- The clock is a parameter: a millisecond count `now`, plus its calendar
  year where a code needs one.
- The JavaScript helpers the core relies on are written out in module
  `JsStrings`:
  - `Number.prototype.toString` on naturals;
  - `padStart`;
  - `split`;
  - `startsWith`;
  - `parseInt`, with its leading white space, sign, `0x` prefix and longest
    digit run.

  The order codes' round trip is proved through them.

Modules: `Wrappers` (Option), `Seqs` (filter, count, sum), `JsStrings`,
`Data` (shared records), `OrderCode`, `OrdersStore`, `CustomerStore`,
`SalesLeads`, `CtvLeads`, `AdminStats`, `Auth`, `AuthGuard`.

## Model

| member | source | states |
|---|---|---|
| `OrdersStore.LoadOrders` | src/lib/ordersStore.ts:37-46 | a stored list reads as itself; an absent or unreadable slot reads as no orders |
| `OrdersStore.SaveOrders` | src/lib/ordersStore.ts:48-57 | loading what was saved gives the same list back |
| `OrdersStore.YearIndices` | src/lib/ordersStore.ts:66-70 | the numbers collected from the ids of the year are never negative |
| `OrdersStore.YearIndicesComplete` | src/lib/ordersStore.ts:66-70 | every number parsed from a stored id with the year's prefix is collected |
| `OrdersStore.YearIndicesSound` | src/lib/ordersStore.ts:66-70 | every collected number was parsed from some stored id with the year's prefix |
| `OrdersStore.NextIndex` | src/lib/ordersStore.ts:72 | the next number is at least 1, exceeds every collected number and is one past one of them (the largest); 1 when nothing was collected |
| `OrdersStore.NextIndexOverOrders` | src/lib/ordersStore.ts:66-72 | stated over the stored orders: the next number exceeds the number of every stored id of the year, and is 1 or one past the number of one of them |
| `OrdersStore.NextIndexUnused` | src/lib/ordersStore.ts:66-72 | no stored id of the year already carries the next number |
| `OrdersStore.NextNumber` | src/lib/ordersStore.ts:72 | one past the largest number in the list, above every number in it; 1 for an empty list |
| `OrdersStore.NewOrderId` | src/lib/ordersStore.ts:62-73 | the new id is the code `ORD-<year>-` followed by the next number zero-padded to three digits (exactly as many digits as that needs), and differs from every stored id |
| `OrdersStore.AddOrder` | src/lib/ordersStore.ts:59-85 | the new order is pending, stamped with the clock, copies the input, is first in the saved list, followed by the old list, and its id is the year's next zero-padded code, which is fresh |
| `OrdersStore.UpdateOrderStatus` | src/lib/ordersStore.ts:87-94 | same length; only statuses change; exactly the orders with the id take the new status; an unknown id changes nothing |
| `OrdersStore.FilterOrdersByStatus` | src/lib/ordersStore.ts:96-102 | "all" returns the list as is; a status keeps only orders with that status, every one of them, as many as there are |
| `OrdersStore.GetOrdersByCustomer` | src/lib/ordersStore.ts:104-107 | only stored orders of that customer, every one of them, as many as there are |
| `OrdersStore.CustomerOrdersKeepOrder` | src/lib/ordersStore.ts:106 | the customer view of two lists laid end to end is the two views laid end to end, so stored order is kept |
| `OrdersStore.CustomerOrdersOfOne` | src/lib/ordersStore.ts:106 | a single order appears in its own customer's view and in no other; with the previous row this fixes the view of any list |
| `OrdersStore.GetOrdersSummary` | src/lib/ordersStore.ts:109-121 | each of the four totals counts the orders of its status, and together they make the total; revenue is the sum over all orders minus that over the cancelled ones |
| `OrdersStore.StatusesPartition` | src/lib/ordersStore.ts:113-116 | every order falls in exactly one of the four status counts |
| `OrdersStore.OtherYearsIgnored` | src/lib/ordersStore.ts:67-70 | orders of other years play no part in the numbering |
| `OrdersStore.NoIndicesWithoutPrefix` | src/lib/ordersStore.ts:67-68 | with no id of the year's prefix, no number is in use |
| `OrdersStore.NewYearRestarts` | src/lib/ordersStore.ts:62-73 | when all stored codes are of another year, the next code is `ORD-<year>-001` |
| `OrdersStore.AddOrderAdvances` | src/lib/ordersStore.ts:72-83 | after an add, the year's next number has moved on by exactly one |
| `OrdersStore.AddOrderKeepsIdsUnique` | src/lib/ordersStore.ts:75-83 | adding keeps order ids unique |
| `OrdersStore.UpdateKeepsIdsUnique` | src/lib/ordersStore.ts:89-91 | a status update keeps order ids unique |
| `OrdersStore.UpdateLastWriteWins` | src/lib/ordersStore.ts:87-94 | two updates of one id equal the second update alone |
| `OrdersStore.FilterKeepsOrder` | src/lib/ordersStore.ts:101 | the status filter distributes over concatenation, so it keeps relative order |
| `OrdersStore.StatusFilterOfOne` | src/lib/ordersStore.ts:101 | a single order is in its own status's view and in no other; with `FilterKeepsOrder` this fixes the view of any list |
| `OrdersStore.StatusViewsCoverAll` | src/lib/ordersStore.ts:96-102 | the four status views together are as long as the unfiltered view |
| `OrdersStore.ThirdOrderOf2025` | src/lib/ordersStore.ts:62-73 | with ORD-2025-001 and ORD-2025-002 stored, the next code is ORD-2025-003 |
| `OrdersStore.RevenueExcludesCancelled` | src/lib/ordersStore.ts:117-119 | amounts 100, 200 and 300 with the last one cancelled give revenue 300 |
| `OrderCode.Format` | src/lib/ordersStore.ts:73 | a code starts with `ORD-<year>-`; for a number n >= 0 the rest is n's decimal digits zero-padded to three, so its length is the larger of 3 and n's digit count and its value is n |
| `OrderCode.NumberOf` | src/lib/ordersStore.ts:69 | the number read from a code's third dash field is never negative |
| `OrderCode.FormatRoundTrip` | src/lib/ordersStore.ts:69-73 | reading the number back out of a formatted code gives the number |
| `OrderCode.PrefixExclusive` | src/lib/ordersStore.ts:66-68 | a code of one year never has the prefix of another year |
| `OrderCode.DigitPrefixesExclusive` | src/lib/ordersStore.ts:66-68 | no code starts with the prefixes of two different digit strings |
| `OrderCode.ThirdFieldAfterPrefix` | src/lib/ordersStore.ts:69 | after the prefix, the third dash field is the text up to the next dash |
| `JsStrings.NatToString` | src/lib/ordersStore.ts:73 | decimal text, non-empty, all digits, whose value is the number, with no leading zero except for 0 |
| `JsStrings.NatToStringInjective` | src/lib/customerStore.ts:93 | different clock values print differently |
| `JsStrings.PadStart` | src/lib/ordersStore.ts:73 | the result has the target length (or the text's, if longer), ends with the text and is fill before it |
| `JsStrings.IndexOf` | src/lib/ordersStore.ts:69 | the first occurrence of the character, or none when it does not occur |
| `JsStrings.Split` | src/lib/ordersStore.ts:69 | at least one field, and no field contains the separator |
| `JsStrings.SplitJoin` | src/lib/ordersStore.ts:69 | joining the fields of a split with the separator gives the text back |
| `JsStrings.SplitAfterField` | src/lib/ordersStore.ts:69 | a separator-free head becomes the first field |
| `JsStrings.TrimStartSuffix` | src/lib/ordersStore.ts:69 | trimming removes a prefix made only of white space and leaves a suffix that does not start with white space |
| `JsStrings.DigitRunLongest` | src/lib/ordersStore.ts:69 | the digit run is a prefix of digits of the radix that cannot be extended |
| `JsStrings.ParseInt` | src/lib/ordersStore.ts:69 | a text without a minus sign never parses to a negative number |
| `JsStrings.ParseIntDecimal` | src/lib/ordersStore.ts:69 | a non-empty decimal digit string parses to its value |
| `JsStrings.ParsePadded` | src/lib/ordersStore.ts:69-73 | parsing a zero-padded decimal gives the number back |
| `JsStrings.RadixValueAppend` | src/lib/ordersStore.ts:69 | the value of two digit strings joined is the first shifted by the second's length, plus the second |
| `CustomerStore.GetCart` | src/lib/customerStore.ts:10-19 | a stored cart reads as itself; an absent or unreadable slot is an empty cart |
| `CustomerStore.SaveCart` | src/lib/customerStore.ts:21-24 | reading back what was saved gives the same cart |
| `CustomerStore.GetOrders` | src/lib/customerStore.ts:69-78 | a stored list reads as itself; an absent or unreadable slot holds no orders |
| `CustomerStore.SaveOrders` | src/lib/customerStore.ts:80-83 | reading back what was saved gives the same orders |
| `CustomerStore.FindItem` | src/lib/customerStore.ts:28 | the first line for the product, or none when no line has it |
| `CustomerStore.AddToCart` | src/lib/customerStore.ts:26-41 | an existing line grows by the quantity and nothing else changes; otherwise one line for the product is appended |
| `CustomerStore.RemoveFromCart` | src/lib/customerStore.ts:57-62 | only lines of other products are kept, every one of them, as many as there are |
| `CustomerStore.RemoveKeepsOrder` | src/lib/customerStore.ts:59 | removing from two carts laid end to end is removing from each, so cart order is kept |
| `CustomerStore.RemoveOneLine` | src/lib/customerStore.ts:59 | a one-line cart loses its line exactly when it is the product's; with the previous row this fixes the result for any cart |
| `CustomerStore.UpdateCartQuantity` | src/lib/customerStore.ts:43-55 | zero or less removes the product; a positive value replaces the first line's quantity; an absent product changes nothing |
| `CustomerStore.ClearCart` | src/lib/customerStore.ts:64-67 | the cart then reads as empty |
| `CustomerStore.LinesCostAsCart` | src/lib/customerStore.ts:90-102 | costing the order lines equals costing the cart |
| `CustomerStore.CreateOrder` | src/lib/customerStore.ts:85-112 | an empty cart gives null and changes nothing; otherwise a pending order with id the clock's text, one line per cart line carrying its product id, name, quantity and wholesale price, the cart's total, order number the code of orders+1 in the year zero-padded to three digits, no delivery date, saved first, with the cart emptied |
| `CustomerStore.AddToCartMerges` | src/lib/customerStore.ts:26-41 | the product's quantity in the cart grows by exactly the amount added; other products are untouched |
| `CustomerStore.AddToCartKeepsOneLinePerProduct` | src/lib/customerStore.ts:28-37 | adding never creates a second line for a product |
| `CustomerStore.AddToCartKeepsQuantitiesPositive` | src/lib/customerStore.ts:26-41 | adding a positive amount keeps all quantities positive |
| `CustomerStore.UpdateCartQuantitySets` | src/lib/customerStore.ts:43-55 | after an update the product's quantity is the new value (0 when removed); other products keep theirs |
| `CustomerStore.UpdateCartQuantityKeepsQuantitiesPositive` | src/lib/customerStore.ts:45-51 | updating never leaves a non-positive quantity behind |
| `CustomerStore.RemoveIsZeroQuantity` | src/lib/customerStore.ts:45-46 | removing a product equals setting its quantity to zero |
| `CustomerStore.QuantityOfWithout` | src/lib/customerStore.ts:59 | after removal the product's quantity is 0 and other products' are unchanged |
| `CustomerStore.QuantityOfSingleLine` | src/lib/customerStore.ts:28 | with one line per product, the product's quantity is its line's |
| `CustomerStore.CheckoutTwiceGivesNull` | src/lib/customerStore.ts:86-87 | a second checkout right after one returns null and saves nothing new |
| `SalesLeads.LoadSalesLeads` | src/lib/salesLeads.ts:92-103 | a missing or non-list slot gives the five seed leads with distinct ids; otherwise the stored list |
| `SalesLeads.SaveSalesLeads` | src/lib/salesLeads.ts:105-108 | loading what was saved gives the same list back |
| `SalesLeads.AddSalesLead` | src/lib/salesLeads.ts:110-121 | one lead built from the input, with id the clock's text and status defaulting to NEW, put first |
| `SalesLeads.UpdateSalesLeadStatus` | src/lib/salesLeads.ts:123-130 | only the status of leads with the id changes; an unknown id changes nothing |
| `SalesLeads.GetSalesStats` | src/lib/salesLeads.ts:132-141 | "in progress" and "won" never overlap; revenue sums lost and non-lost leads alike |
| `SalesLeads.DefaultSalesStats` | src/lib/salesLeads.ts:27-90 | the seed shows five leads, two in progress, one won, 128 000 000 estimated |
| `SalesLeads.AddSalesLeadStats` | src/lib/salesLeads.ts:110-121 | adding raises the total by one and the revenue by the new estimate |
| `SalesLeads.UpdateKeepsRevenue` | src/lib/salesLeads.ts:123-130 | a status change keeps the total and the revenue estimate |
| `SalesLeads.AddSalesLeadKeepsIdsUnique` | src/lib/salesLeads.ts:112-118 | adding keeps ids unique when the clock's text is not yet an id |
| `CtvLeads.LoadLeads` | src/lib/ctvLeads.ts:78-89 | a missing or non-list slot gives the five seed leads with distinct ids; otherwise the stored list |
| `CtvLeads.SaveLeads` | src/lib/ctvLeads.ts:91-94 | loading what was saved gives the same list back |
| `CtvLeads.AddLead` | src/lib/ctvLeads.ts:105-116 | a NEW lead from the form, with id the clock's text, put first |
| `CtvLeads.UpdateLeadStatus` | src/lib/ctvLeads.ts:118-125 | only the status of leads with the id changes; an unknown id changes nothing |
| `CtvLeads.GetLeadStats` | src/lib/ctvLeads.ts:127-133 | the three status counts split the total |
| `CtvLeads.StatusesPartition` | src/lib/ctvLeads.ts:129-131 | every lead falls in exactly one status count |
| `CtvLeads.DefaultLeadStats` | src/lib/ctvLeads.ts:18-76 | the seed shows five leads: two NEW, two CONTACTED, one CONVERTED |
| `CtvLeads.AddLeadStats` | src/lib/ctvLeads.ts:105-116 | adding raises the total and the NEW count by one and leaves CONVERTED alone |
| `CtvLeads.UpdateKeepsTotal` | src/lib/ctvLeads.ts:118-125 | a status change never changes the total number of leads |
| `CtvLeads.UpdateMovesLead` | src/lib/ctvLeads.ts:118-133 | with unique ids, a status change moves the lead with that id from its old status's count to the new status's count, and leaves every other count alone |
| `CtvLeads.AddLeadKeepsIdsUnique` | src/lib/ctvLeads.ts:107-113 | adding keeps ids unique when the clock's text is not yet an id |
| `AdminStats.MapCtv` | src/lib/adminStats.ts:32-42 | each CTV lead becomes one admin lead, in order, with id `ctv-<id>`, source CTV, store name, contact, phone and area carried over, its status text, revenue 0 and its creation time |
| `AdminStats.MapSales` | src/lib/adminStats.ts:45-55 | each Sales lead becomes one admin lead, in order, with id `sales-<id>`, source Sales, the same carried fields, its status text, its own estimate and its creation time |
| `AdminStats.CtvMappedInjective` | src/lib/adminStats.ts:32-42 | from a mapped lead one reads back the CTV lead's id, store name, status and creation time |
| `AdminStats.SalesMappedInjective` | src/lib/adminStats.ts:45-55 | from a mapped lead one reads back the Sales lead's id, store name, status, estimate and creation time |
| `AdminStats.Insert` | src/lib/adminStats.ts:59 | inserting adds exactly that lead; the result starts with it or with the old head |
| `AdminStats.InsertNewestFirst` | src/lib/adminStats.ts:59 | inserting into a newest-first list keeps it newest first |
| `AdminStats.SortNewestFirst` | src/lib/adminStats.ts:59 | the sort is a permutation and newest first |
| `AdminStats.SortStable` | src/lib/adminStats.ts:59 | leads with equal creation times keep their input order |
| `AdminStats.SortKeepsCount` | src/lib/adminStats.ts:59 | sorting keeps every count |
| `AdminStats.SortKeepsSum` | src/lib/adminStats.ts:59 | sorting keeps every sum |
| `AdminStats.MergeLeads` | src/lib/adminStats.ts:27-62 | every lead of both sources exactly once, newest first, each tagged with its source's id prefix and CTV leads with no revenue |
| `AdminStats.TaggedIdsDiffer` | src/lib/adminStats.ts:33-46 | the `ctv-` and `sales-` prefixes keep the two sources' ids apart |
| `AdminStats.MergedIdsDistinctAcrossSources` | src/lib/adminStats.ts:33-46 | in the merged list, leads of different sources never share an id |
| `AdminStats.GetAdminLeads` | src/lib/adminStats.ts:27-62 | over the loaded lists (the seeds when nothing is stored): every mapped lead of both exactly once, newest first, each tagged with its source |
| `AdminStats.AdminLeadStatsOf` | src/lib/adminStats.ts:64-92 | CTV and Sales totals add up to the whole; revenue is the Sales estimates; converted counts the WON Sales leads; the latest are the first ten, none older than any omitted lead |
| `AdminStats.MergeIsSorted` | src/lib/adminStats.ts:58-59 | the merged list is the CTV leads followed by the Sales leads, put through the newest-first sort |
| `AdminStats.MergedTotals` | src/lib/adminStats.ts:67-79 | in the merged list, the CTV and Sales counts are the two input lengths, the WON count is that of the Sales input, and the revenue is the Sales estimates |
| `AdminStats.LatestAreNewest` | src/lib/adminStats.ts:82 | on a newest-first list, no lead left out of the first ten is newer than one kept |
| `AdminStats.GetAdminLeadStats` | src/lib/adminStats.ts:64-92 | over the loaded lists: CTV and Sales totals are their lengths and add up to the whole; revenue is the Sales estimates; converted counts the WON Sales leads; the latest are the first ten of `GetAdminLeads`, none older than an omitted lead |
| `AdminStats.SourceCounts` | src/lib/adminStats.ts:68-79 | the source counts are the two list lengths; the converted count is the number of WON Sales leads |
| `AdminStats.SourceSums` | src/lib/adminStats.ts:71-74 | the revenue of the merged list is the Sales leads' estimates |
| `AdminStats.ConvertedAreWon` | src/lib/adminStats.ts:77-79 | a mapped Sales lead reads WON exactly when its status is Won |
| `Auth.MockUsers` | src/lib/auth.ts:15-40 | four built-in accounts, each with a valid role |
| `Auth.FindByEmail` | src/lib/auth.ts:46 | the first account with that email, or none when no account has it |
| `Auth.AuthenticateUser` | src/lib/auth.ts:43-48 | a built-in account with exactly that email, or null precisely when none has it |
| `Auth.MockEmailsDistinct` | src/lib/auth.ts:15-40 | no two built-in accounts share an email, so an email names at most one account |
| `Auth.AuthenticateEachMockUser` | src/lib/auth.ts:15-48 | each built-in account signs in with its own email and gets itself back |
| `Auth.OneMockUserPerRole` | src/lib/auth.ts:15-40 | each role has exactly one built-in account |
| `Auth.SetCurrentUser` | src/lib/auth.ts:50-65 | null clears the slot; reading the slot afterwards gives back exactly the user that was set |
| `Auth.GetCurrentUser` | src/lib/auth.ts:67-77 | the stored account, or null for an empty or unreadable slot |
| `Auth.Logout` | src/lib/auth.ts:79-81 | afterwards there is no current user |
| `Auth.SessionRoundTrip` | src/lib/auth.ts:50-77 | reading the session after storing a user (or null) gives it back |
| `Auth.SignInThenCurrent` | src/lib/auth.ts:43-77 | after signing in and storing the result, the current user is the account signed in with (carrying that email), or none for an unknown email |
| `AuthGuard.HomeOf` | src/hooks/useAuthGuard.ts:8-13 | a known role's dashboard, and the login page exactly for unknown roles |
| `AuthGuard.Decide` | src/hooks/useAuthGuard.ts:19-35 | authorised exactly when the current user has the expected role; no user goes to login; another role goes to that role's dashboard |
| `AuthGuard.RolePathsDistinct` | src/hooks/useAuthGuard.ts:8-13 | the dashboards are distinct and none is the login page |
| `AuthGuard.RolePathsCoverRoles` | src/hooks/useAuthGuard.ts:8-13 | `ROLE_PATHS` has an entry for a role exactly when it is one of the four roles |
| `AuthGuard.RedirectLandsAuthorized` | src/hooks/useAuthGuard.ts:27-31 | a redirect that is not to login lands on a dashboard whose guard lets the user in |
| `AuthGuard.LoggedOutGoesToLogin` | src/hooks/useAuthGuard.ts:20-25 | after logout every guarded page sends to login |
| `AuthGuard.SignInThenGuard` | src/hooks/useAuthGuard.ts:19-34 | a built-in account is let into its own dashboard and sent from any other page to its own dashboard |

## Left out

- Storage, JSON and events:
  - Browser storage and JSON text are not modelled. A slot is `None` when the
    key is missing, its text does not parse, or (for the lead stores) it does
    not hold an array.
  - A JSON value of the wrong shape in a slot without a shape check is not
    modelled. Those slots are the order slot, the cart slot, the customer
    orders slot and the session slot. Whatever the session text parses to
    is taken as a user (src/lib/auth.ts:72-73).
  - `SalesLeads.AddSalesLead` keeps only the fields of a Sales lead. The
    store copies every key of its input into the saved lead
    (src/lib/salesLeads.ts:114), so extra keys a caller passes, such as a
    note or an expected volume, are saved and shown back. Those extra keys
    are not modelled.
  - The `orders-updated` event that saving orders dispatches is not modelled.
  - The server-rendering branches (`typeof window === "undefined"`) are not
    modelled. Loads there return the empty list or the seed, and saves do
    nothing.
- Clock and dates:
  - The clock, `Date.now()` and `new Date().getFullYear()` are parameters:
    `now` in milliseconds and `year`.
  - Timestamps are integers where the code keeps ISO text. The seed leads'
    dates appear as their millisecond values.
  - `new Date(text).getTime()` on unparseable text (NaN in the sort
    comparator) is not modelled.
- JavaScript details:
  - Floating point is not modelled: prices, amounts and quantities are
    unbounded integers. `parseInt` values beyond the safe-integer range are
    not modelled either.
  - `OrdersStore.NextIndex`: `Math.max` over very many arguments, which can
    throw a RangeError in a JavaScript engine, is not modelled.
  - `AuthGuard.HomeOf`: a role equal to an inherited object key such as
    `constructor` finds a prototype property in `ROLE_PATHS`. Such roles are
    not modelled; every role outside the four goes to login.
  - `addToCart` and `updateCartQuantity` mutate the line object they found
    in the loaded cart (src/lib/customerStore.ts:31 and :50). The model returns
    the updated list instead; the saved and returned value is the same.
- Outside the core:
  - `getProducts` returns the constant product catalogue, which belongs to
    the mock data rather than the stores; it is not modelled.
  - `getAllOrders` returns `getOrders()` unchanged; it is not modelled
    separately.
  - `ORDER_STATUS_LABELS`, the navigation constants and all UI components
    are display data and are not modelled.
  - Error logging (`console.error`) is not modelled.
- `AuthGuard.Decide`: models the decision taken inside the effect. The
  React state and router, and the `false` returned before the effect runs,
  are not modelled.
- `Auth.AuthenticateUser`: no password exists in the code, so none is
  modelled.
- `SalesLeads.AddSalesLeadKeepsIdsUnique`, `CtvLeads.AddLeadKeepsIdsUnique`:
  the code uses the clock's text as the id and never checks it against the
  stored ids. Ids stay unique only under the stated precondition that the
  clock's text is not yet an id.

## Notes on the code

- `updateCartQuantity` removes a line whose quantity would drop to zero or
  below, so the evident design is a cart of positive quantities. `addToCart`
  does not check this: it adds whatever quantity it is given. The model
  follows the code, so `CustomerStore.AddToCartKeepsQuantitiesPositive`
  needs a positive amount.
- Customer order numbers are `orders.length + 1` over all stored customer
  orders, so they do not restart with a new year. The order store instead
  uses one past the largest number of the year (`OrdersStore.NextIndex`).
  The two stores share the code format, not the numbering.
- The order store starts empty when its slot is missing; only the two lead
  stores have seed lists.
