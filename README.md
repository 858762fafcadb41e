# Voice cashier order engine in Dafny

This project models the deterministic order engine of a voice-ordering coffee
shop cashier. An order is a list of drinks and pastries. A drink has nullable
modifiers (size, temperature, milk, sweetness, ice level) and a list of add-ons
that may repeat. A pastry has a quantity. The engine has seven parts, one
Dafny module each (plus two shared ones):

- `OrderTypes`: the drink and pastry catalogs, the item, order-state and chat
  reply records, and the order records the dashboard reads.
- `Pricing`: price lookup with its fallbacks, the pastry unit price, the
  title-casing of tokens, and the receipt label of an item.
- `OrderRules`: the order validator. It keeps the 15-item cap and the per-item
  checks. For each drink these are menu membership, required size, temperature
  and milk, iced-only drinks, optional modifier values, ice on a hot drink,
  invalid add-ons, add-on pairings, and shot and pump caps. For each pastry it
  checks menu membership and quantity 1..10. The module also lists the missing
  required fields of a drink. The checks are written imperatively: methods
  append to an error list. Each method is proved equal to a specification
  function, and the rules are proved about that function.
- `ChatRoute`: the "partial restatement" order on drinks, the de-duplication
  pass over the items the assistant returns, and the server-side guard. The
  guard refuses to mark an order complete while validation finds errors.
- `Metrics` and `Ranking`: the building blocks of the owner dashboard. These
  are hour labels, categories, percentages, running tallies, hourly buckets
  and the peak hour, plus a stable descending sort and the top-5 slice.
- `Dashboard`: `computeDashboardMetrics` as one imperative pass. It updates
  running tallies and two 24-slot hourly arrays, and is proved equal to a
  specification function. The dashboard promises are then proved about that
  function.
- `Cart`: the kiosk cart updaters, lifted out of the React state setters as
  functions on the item list. Also the `cartGroups` grouping, written as a
  loop over the cart and proved equal to a specification function, and the
  group buttons.
- `OrdersBoard`: the staff orders board. It covers the status machine, button
  captions, the status filter and counts, and the elapsed-time caption.
- `Util` holds small sequence and string helpers: counting, sums, index search,
  decimal rendering of naturals, and underscore-to-space.

Money is integer cents. Every price in the tables is a multiple of 25 cents, so
the `Math.round(n * 100) / 100` rounding of the source is the identity on these
values. `Math.round(a / b * 100)` is integer round-half-up, and the average
items per order is in tenths. Nullable strings are `Option<string>`.
JavaScript truthiness of a string field ("set and not empty") is
`OrderTypes.Filled`.

## Model

| member | source | states |
|---|---|---|
| OrderTypes.CatalogShape | types/order.ts:6-11 | the drink catalog is the 5 coffees plus the 4 teas; the families are disjoint; the 4 pastries are disjoint from the drinks |
| OrderTypes.CountStatus | lib/metrics.ts:140-145 | the number of orders with one status is at most the number of orders |
| OrderTypes.StatusCountsBounded | lib/metrics.ts:140-145 | the three status counts sum to at most the number of orders, and to exactly that number when every order has a known status |
| Pricing.PriceTablesCoverCatalog | lib/pricing.ts:10-41 | every catalog drink and pastry has a price entry; every large price is at least the small price |
| Pricing.BasePrice | lib/pricing.ts:68-69 | the base price of any drink, priced or not, is at least $3.00 and a multiple of 25 cents |
| Pricing.MilkUpcharge | lib/pricing.ts:70 | the milk upcharge is never negative and a multiple of 25 cents (0 for no milk or an unknown milk) |
| Pricing.AddOnPrice | lib/pricing.ts:71 | an add-on costs a non-negative multiple of 25 cents (0 when unknown) |
| Pricing.AddOnTotal | lib/pricing.ts:71 | the add-on total is between 0 and $1.50 per entry and a multiple of 25 cents |
| Pricing.DrinkPrice | lib/pricing.ts:67-73 | a drink costs at least $3.00, in whole quarters |
| Pricing.PastryUnitPrice | lib/pricing.ts:82-84 | a pastry unit price is positive, in whole quarters |
| Pricing.ItemPrice | lib/pricing.ts:66-79 | every item price is a multiple of 25 cents; a drink costs at least $3.00; a pastry of non-negative quantity costs at least 0 |
| Pricing.AddOnTotalByCounts | lib/pricing.ts:29-34 | the add-on total is $1.50 per espresso or matcha shot and $0.50 per caramel or hazelnut pump, counted per entry; other entries add nothing |
| Pricing.AddOnOrderIrrelevant | lib/pricing.ts:71 | two drinks of the same name, size and milk whose add-on lists are permutations of each other cost the same |
| Pricing.DrinkPriceAdds | lib/pricing.ts:67-72 | appending add-on entries raises the drink price by exactly their total, so repeated entries are charged again |
| Pricing.Fallbacks | lib/pricing.ts:68-77 | an unknown drink is priced from the fallback pair $4.00/$5.00; a missing size is priced as small; an unknown pastry costs $3.00 each; a pastry costs its unit price times its quantity |
| Pricing.TitleCaseIdempotent | lib/pricing.ts:52-56 | title-casing an already title-cased string changes nothing |
| Pricing.TitleCaseAt | lib/pricing.ts:52-56 | title-casing keeps the length; each character becomes its underscore-to-space replacement, upper-cased exactly at the start of a word |
| Pricing.AddOnParts | lib/pricing.ts:95-97 | one "+ <label>" part per add-on entry, in input order, with the friendly label or the title-cased token |
| Pricing.LeadingLabelParts | lib/pricing.ts:89-90 | the size part comes first and the temperature part last, each present only when that field is set |
| Pricing.ModifierLabelParts | lib/pricing.ts:92-94 | one part each for a set milk, a sweetness other than "regular" and an ice level other than "regular", in that order: the milk part is "<Milk> Milk" and comes first, the sweetness part is the title-cased sweetness right after it, and the ice level is last |
| Pricing.DrinkLabelLayout | lib/pricing.ts:86-98 | the drink label parts are size, temperature, name, "<Milk> Milk", sweetness, ice level, then one part per add-on in input order, each present as the field rules say and at that position; it also gives their exact count |
| Pricing.IceLevelShownOnHotDrink | lib/pricing.ts:94 | a hot drink with an ice level other than "regular" still shows that ice level on its label |
| Pricing.PastryLabelQuantity | lib/pricing.ts:100-103 | a pastry label is the title-cased name alone when the quantity is at most 1, and otherwise the name, " ×" and the quantity's decimal digits |
| OrderRules.InvalidAddOnProblems | lib/orderRules.ts:124-128 | at most one invalid add-on problem per entry |
| OrderRules.Report | lib/orderRules.ts:79-189 | error i carries problem i and the item's index, one error per problem in order |
| OrderRules.CheckItem | lib/orderRules.ts:79-188 | checking an item appends exactly that item's problems, as errors with its index |
| OrderRules.CheckDrink | lib/orderRules.ts:80-167 | the drink checks find exactly the specified drink problems; an unknown name stops the checks |
| OrderRules.CheckRequiredFields | lib/orderRules.ts:87-106 | the size, temperature, iced-only and milk checks find exactly their problems, in that order |
| OrderRules.CheckOptionalFields | lib/orderRules.ts:108-120 | the sweetness, ice-level and ice-on-hot checks find exactly their problems, in that order |
| OrderRules.CheckAddOns | lib/orderRules.ts:123-167 | the add-on checks find exactly their problems, and none for an empty list |
| OrderRules.CheckPairings | lib/orderRules.ts:130-141 | the espresso-on-tea and matcha checks find exactly their problems |
| OrderRules.CheckCaps | lib/orderRules.ts:143-166 | the shot and pump cap checks find exactly their problems, with the counts |
| OrderRules.CheckPastry | lib/orderRules.ts:176-185 | the pastry checks find exactly the specified pastry problems |
| OrderRules.ReportConcat | lib/orderRules.ts:79-189 | reporting two problem lists one after the other is reporting their concatenation |
| OrderRules.ValidateOrderState | lib/orderRules.ts:66-192 | the error list built item by item equals the specified one: none for an empty order, only the cap error above 15 items, else each item's errors in item order |
| OrderRules.GetMissingFieldsForDrink | lib/orderRules.ts:194-200 | the result is an in-order sub-list of size, temperature, milk; each name is present exactly when the field is unset, and "milk" only for milk drinks |
| OrderRules.InvalidAddOnProblemsShape | lib/orderRules.ts:124-128 | every invalid add-on problem names an entry of the list that is not a valid add-on; there are none exactly when every entry is valid |
| OrderRules.ItemErrorsIndices | lib/orderRules.ts:79-189 | every per-item error carries the index of an item of the order |
| OrderRules.OrderLevelCap | lib/orderRules.ts:69-77 | an empty order has no errors; more than 15 items give exactly the cap error, with no item index; otherwise every error names a valid item |
| OrderRules.ItemErrorsInItemOrder | lib/orderRules.ts:79-189 | per-item errors appear in non-decreasing item index order |
| OrderRules.ErrorsFor | lib/orderRules.ts:79-189 | the errors selected for one item carry that item's index and come from the list |
| OrderRules.ItemErrorsPerItem | lib/orderRules.ts:79-189 | the errors for item k are exactly that item's own problems, in check order |
| OrderRules.ValidationErrorsPerItem | lib/orderRules.ts:79-189 | in an order of at most 15 items, the errors naming item k are exactly item k's problems |
| OrderRules.DrinkProblemsNone | lib/orderRules.ts:80-167 | a drink has no problems exactly when it is acceptable under all the drink rules |
| OrderRules.ItemProblemsNone | lib/orderRules.ts:79-188 | an item has no problems exactly when it is acceptable |
| OrderRules.NoErrorsIffAcceptable | lib/orderRules.ts:66-192 | an order validates cleanly exactly when it has at most 15 items and every item is acceptable |
| OrderRules.ItemErrorsNone | lib/orderRules.ts:79-189 | there are no per-item errors exactly when no item has a problem |
| OrderRules.InvalidAddOnCounts | lib/orderRules.ts:124-128 | an invalid add-on is reported once per occurrence in the list, a valid one never |
| OrderRules.UnknownDrinkOnly | lib/orderRules.ts:82-85 | an unknown drink gets exactly the one "not on our menu" problem; a drink on the menu never gets it |
| OrderRules.DrinkProblemGroups | lib/orderRules.ts:86-167 | for a drink on the menu, each kind of problem can come only from its own group of checks |
| OrderRules.RequiredFieldRules | lib/orderRules.ts:87-106 | for a drink on the menu: missing size, missing temperature, iced-only served hot and missing milk on a milk drink are each reported exactly when that rule is broken |
| OrderRules.OptionalFieldRules | lib/orderRules.ts:108-120 | for a drink on the menu: a bad sweetness, a bad ice level and a non-regular ice level on a hot drink are each reported exactly when that rule is broken |
| OrderRules.InvalidAddOnRule | lib/orderRules.ts:123-128 | for a drink on the menu, an add-on is reported invalid exactly when it is listed and outside the add-on catalog |
| OrderRules.PairingRules | lib/orderRules.ts:130-141 | for a drink on the menu: espresso on a pure tea and a matcha shot off the matcha latte are each reported exactly when present |
| OrderRules.CapRules | lib/orderRules.ts:143-166 | for a drink on the menu, each cap is reported, with its count, exactly when more than 4 shots or more than 6 pumps of one syrup are listed |
| OrderRules.PastryQuantityRule | lib/orderRules.ts:176-185 | an unknown pastry gets exactly the menu error; a pastry on the menu gets at most one error, too low below 1 and too high above 10 |
| OrderRules.HotColdBrew | lib/orderRules.ts:98-101 | a small hot cold brew with nothing else set gets exactly the iced-only error |
| ChatRoute.FilledFieldCount | app/api/chat/route.ts:20-29 | the filled count is the number of set scalar modifiers (size, temperature, milk, sweetness, ice level) plus one per add-on entry, so between the add-on count and that count plus 5, and equal to the add-on count exactly when no modifier is set |
| ChatRoute.SubsetIrreflexive | app/api/chat/route.ts:44-46 | no drink is a partial restatement of itself |
| ChatRoute.SubsetStrictOrder | app/api/chat/route.ts:31-47 | a partial restatement has the same name and a strictly smaller filled count; the relation is asymmetric and transitive |
| ChatRoute.DeduplicateItems | app/api/chat/route.ts:49-91 | the in-place pass over the items, with push and replacement, computes the specified de-duplication |
| ChatRoute.DrinkStep | app/api/chat/route.ts:53-72 | a drink covered by a kept drink is skipped; otherwise it is kept, replacing the first kept drink it covers, or appended when it covers none |
| ChatRoute.DeduplicateShape | app/api/chat/route.ts:49-91 | the output is no longer than the input and every output item is an input item |
| ChatRoute.IncomparableDrinksKept | app/api/chat/route.ts:53-72 | two drinks neither of which restates the other are both kept, in order |
| ChatRoute.IdenticalDrinksKept | app/api/chat/route.ts:44-46 | two identical drinks are both kept |
| ChatRoute.RestatementMerged | app/api/chat/route.ts:56-72 | a drink and its partial restatement collapse to the fuller drink, whichever comes first |
| ChatRoute.KeepFirst | app/api/chat/route.ts:73-87 | the first occurrences keep every listed pastry, no pastry twice, and in the order of their first appearance in the input |
| ChatRoute.DeduplicatePastries | app/api/chat/route.ts:73-87 | the output pastries are the input pastries with exact duplicates after the first dropped, in input order |
| ChatRoute.DeduplicateNotIdempotent | app/api/chat/route.ts:49-91 | a second pass can drop a drink that the first pass kept |
| ChatRoute.GuardReply | app/api/chat/route.ts:113-127 | the guarded reply is built as specified |
| ChatRoute.GuardedReplyShape | app/api/chat/route.ts:113-127 | the reply carries the de-duplicated items; it is complete only when the model said so and validation finds no error; when it overrides, the message is the first error's text, otherwise the model's message |
| ChatRoute.CompleteReplyIsValid | app/api/chat/route.ts:113-127 | a reply marked complete holds at most 15 items, each acceptable |
| Metrics.Clock12 | lib/metrics.ts:95-100 | the clock hour shown is between 1 and 12 |
| Metrics.FormatHourClock | lib/metrics.ts:95-100 | an hour label is the 12-hour clock number followed by " AM" before noon and " PM" from noon |
| Metrics.FormatHourInjective | lib/metrics.ts:95-100 | different hours get different labels |
| Metrics.CategoryOf | lib/metrics.ts:113-120 | every item falls in Coffee, Tea, Pastry or Other |
| Metrics.CategoryOfCatalog | lib/metrics.ts:110-120 | Pastry exactly for pastries, Coffee exactly for coffee names, Other exactly for drinks outside the catalog |
| Metrics.RoundDiv | lib/metrics.ts:203-204 | the rounded quotient is within half a unit of the exact one, halves rounding up |
| Metrics.Percent | lib/metrics.ts:224 | 0 for a zero total; otherwise 100·count/total rounded half up; between 0 and 100 percent for a count within the total |
| Metrics.RowOf | lib/metrics.ts:182-183 | the tally row of a name is the first row with that name, or none |
| Metrics.BumpLookup | lib/metrics.ts:182-188 | bumping a name's tally adds to that name's count and revenue and changes no other name's |
| Metrics.BumpSums | lib/metrics.ts:182-188 | bumping a tally raises its count and revenue totals by exactly the amounts added |
| Metrics.BumpDistinct | lib/metrics.ts:182-188 | a tally keeps one row per name, and the bumped name has a row |
| Metrics.TallyItemsBalanced | lib/metrics.ts:174-200 | tallying items adds their units to the items sold, their prices to the item revenue, their drinks to the drink count; the category rows keep matching the items sold and the item revenue, and the milk, temperature and size counts stay within the drink count |
| Metrics.TallyOrdersTotals | lib/metrics.ts:164-201 | over all orders, item revenue is the sum of order revenues, items sold the sum of order units, drinks the sum of order drinks |
| Metrics.HourlyOrdersTotal | lib/metrics.ts:161-171 | the hourly order counts are non-negative and sum to the number of orders |
| Metrics.HourlyRevenueTotal | lib/metrics.ts:162-172 | the hourly revenues sum to the total revenue |
| Metrics.HourlyBreakdown | lib/metrics.ts:244-259 | the loop over the 24 hours builds the specified bucket list |
| Metrics.BucketsOrdered | lib/metrics.ts:244-259 | buckets are in ascending hour order and each carries its hour's label, order count and revenue |
| Metrics.BucketsCover | lib/metrics.ts:244-251 | an hour has a bucket exactly when it is shown: with orders today, or between 6 and 21 in all-time mode |
| Metrics.AllTimeBuckets | lib/metrics.ts:250-251 | in all-time mode the buckets are exactly hours 6 to 21, in order |
| Metrics.PeakAt | lib/metrics.ts:263 | the peak is one of the buckets |
| Metrics.PeakHour | lib/metrics.ts:261-263 | there is no peak exactly when there are no buckets |
| Metrics.PeakIsFirstMaximum | lib/metrics.ts:263 | the peak has the most orders, and every earlier bucket has strictly fewer |
| Metrics.TallyStatuses | lib/metrics.ts:140-145 | the status loop counts each of the three statuses and ignores any other |
| Metrics.Shares | lib/metrics.ts:219-225 | one category entry per row, with its count, revenue and percentage of the total |
| Metrics.Stats | lib/metrics.ts:229-235 | one modifier entry per row, with its count and percentage of the drinks |
| Metrics.SharesTotals | lib/metrics.ts:218-225 | the category entries' counts and revenues sum to the tally totals |
| Metrics.StatsTotal | lib/metrics.ts:229-236 | the modifier entries' counts sum to the tally total |
| Ranking.SortDesc | lib/metrics.ts:209 | the ranking is in non-increasing key order and a permutation of its input |
| Ranking.SumOfSortDesc | lib/metrics.ts:209 | ranking does not change any sum over the entries |
| Ranking.Top | lib/metrics.ts:210 | the slice has exactly n entries, or all of them when there are at most n, and they are the leading ones |
| Ranking.TopOfSorted | lib/metrics.ts:207-215 | the top slice of a ranking is sorted, drawn from the ranking, and no entry left out ranks above an entry kept |
| Ranking.TopOfRanking | lib/metrics.ts:207-215 | the first n rows of a ranking are n rows, or all of them, sorted, drawn from the rows, and no row left out ranks above one kept |
| Dashboard.InWindow | lib/metrics.ts:129-135 | the window keeps every order in all-time mode, and exactly today's orders otherwise |
| Dashboard.Average | lib/metrics.ts:203 | the average order value is 0 with no orders, otherwise the rounded quotient |
| Dashboard.AverageTenths | lib/metrics.ts:204 | the average items per order, in tenths, is 0 with no orders, otherwise rounded to the nearest tenth |
| Dashboard.ModStats | lib/metrics.ts:229-236 | a modifier breakdown is its rows' stats sorted by non-increasing count |
| Dashboard.CategoryMix | lib/metrics.ts:218-226 | the category mix is its rows' shares of the total count, sorted by non-increasing count |
| Dashboard.CountAddOns | lib/metrics.ts:196-198 | the add-on loop bumps one count per entry, as specified |
| Dashboard.CountModifiers | lib/metrics.ts:190-199 | the drink branch counts the drink and its set milk, temperature, size and add-ons, as specified |
| Dashboard.CountItem | lib/metrics.ts:175-199 | one item updates the tallies as specified |
| Dashboard.CountItems | lib/metrics.ts:174-200 | the item loop updates the tallies as specified |
| Dashboard.CountOrder | lib/metrics.ts:164-201 | one order adds its revenue to the total, bumps its hour's order count and revenue and no other slot, and tallies its items |
| Dashboard.TallyPass | lib/metrics.ts:156-201 | the pass over the orders yields the specified tallies, total revenue and hourly arrays |
| Dashboard.ComputeDashboardMetrics | lib/metrics.ts:124-282 | the imperative computation returns the specified metrics |
| Dashboard.TopLineFigures | lib/metrics.ts:137-218 | total orders, revenue and items sold are the window's; category counts sum to the items sold and category revenues to the revenue; status counts sum to at most the orders; averages are 0 with no orders |
| Dashboard.Rankings | lib/metrics.ts:207-215 | both top lists have exactly 5 entries, or every tally row when there are at most 5; they are sorted by count and by revenue, drawn from the item tallies, and rank no left-out entry above a kept one |
| Dashboard.ModifierShares | lib/metrics.ts:190-199 | the drink count is the window's drinks; the milk, temperature and size counts each sum to at most the drink count |
| Dashboard.HourlyWindows | lib/metrics.ts:244-259 | the hourly buckets are ascending and faithful to the hourly arrays; all-time mode shows exactly hours 6 to 21; today mode shows exactly the hours with orders |
| Dashboard.PeakHourShape | lib/metrics.ts:261-263 | the peak hour is the peak of the buckets, and always exists in all-time mode |
| Cart.Copies | app/page.tsx:327 | n copies of one item, none for n at most 0 |
| Cart.ConfirmAddToCart | app/page.tsx:315-330 | with no drink selected the cart is unchanged; otherwise exactly qty copies of the configured drink are appended, with no sweetness, ice level or add-ons, and the earlier lines are kept |
| Cart.PastryLine | app/page.tsx:348-350 | the line found is the first pastry line of that name, or none |
| Cart.AddPastryToCart | app/page.tsx:346-367 | a new pastry is appended with quantity 1; an existing one gains 1 in place, other lines unchanged; at 20 or more nothing changes |
| Cart.RemoveFromCart | app/page.tsx:383-385 | removing a line deletes exactly that index and keeps the rest in order; an index out of range changes nothing |
| Cart.UpdatePastryQty | app/page.tsx:369-381 | a non-pastry line is left alone; a new quantity of at most 0 removes the line; above 20 nothing changes; otherwise only that line's quantity changes |
| Cart.SameDrinkEquivalence | app/page.tsx:404-405 | "same drink" (equal fields, add-ons equal as multisets) is reflexive, symmetric and transitive |
| Cart.GroupOf | app/page.tsx:419-421 | the group found is the first drink group of the same drink, or none |
| Cart.GroupCart | app/page.tsx:402-433 | the loop over the cart, updating group records in place, builds the specified groups |
| Cart.CartSums | app/page.tsx:460-461 | the cart count is the number of drinks plus the pastry quantities, and the cart total is the sum of the item prices |
| Cart.CartGroupsFaithful | app/page.tsx:407-431 | every group's lines hold its item; a pastry group is one line counting its quantity, a drink group counts its lines; the line total is unit price times quantity; no two drink groups hold the same drink |
| Cart.CartGroupsPartition | app/page.tsx:407-431 | every cart line is recorded in exactly one group, and nothing else is |
| Cart.SameGroupIffSameDrink | app/page.tsx:404-429 | two drink lines share a group exactly when they are the same drink |
| Cart.IncrementGroup | app/page.tsx:435-443 | at 20 or more nothing changes; a drink group gains a copy of its drink; a pastry group's first line gains 1 |
| Cart.DecrementGroup | app/page.tsx:445-453 | a pastry group's first line loses 1; a drink group loses its last line |
| Cart.RemoveGroup | app/page.tsx:455-458 | removing a group deletes one line per index of the group |
| Cart.RemoveGroupKeepsRest | app/page.tsx:455-458 | every line outside the group survives, in its order |
| Cart.GroupButtons | app/page.tsx:435-453 | a group's first and last lines are lines of the cart holding its item; decrementing a drink group removes one line; incrementing a pastry group below 20 raises its line's quantity by 1 |
| Cart.OutsideGroupDiffers | app/page.tsx:404-429 | a drink line outside a drink group is not the same drink as that group |
| OrdersBoard.NextStatus | app/orders/page.tsx:21-25 | there is no next status exactly for a completed order, and each next status is one stage on |
| OrdersBoard.ActionMatchesCaption | app/orders/page.tsx:33-37 | the action button is offered exactly when its caption is not empty, that is for every status but completed |
| OrdersBoard.AdvanceStages | app/orders/page.tsx:21-25 | k presses move k stages on, capped at completed; the stage never goes back; two presses always reach completed |
| OrdersBoard.StatusLabelsDistinct | app/orders/page.tsx:27-31 | different statuses have different badges |
| OrdersBoard.ShortId | app/orders/page.tsx:167 | the short id is the first 8 characters of the id, or all of a shorter id |
| OrdersBoard.ItemsCaption | app/orders/page.tsx:173 | the caption is the count's decimal digits, then " item", then an "s" exactly when the count is not 1, and nothing else |
| OrdersBoard.EmptyMessageTexts | app/orders/page.tsx:155 | "No orders yet." for the all tab, and "No pending orders.", "No in progress orders." or "No completed orders." for the status tabs |
| OrdersBoard.FilterOrders | app/orders/page.tsx:102 | the all tab shows every order; a status tab shows exactly the orders with that status |
| OrdersBoard.FilterConcat | app/orders/page.tsx:102 | filtering works order by order, so the kept orders keep their relative order |
| OrdersBoard.CountsPartition | app/orders/page.tsx:104-108 | each count is the size of its tab, and the three counts sum to the number of orders |
| OrdersBoard.ElapsedMinutes | app/orders/page.tsx:41 | the elapsed minutes are the milliseconds divided by 60000, rounded down |
| OrdersBoard.TimeAgo | app/orders/page.tsx:39-46 | the caption is "just now" exactly when less than a minute has passed, including a clock ahead of the order |
| OrdersBoard.TimeAgoInjective | app/orders/page.tsx:42-45 | from one minute on, different elapsed minutes give different captions |
| OrdersBoard.DurationHours | app/orders/page.tsx:43-45 | the caption mentions hours exactly from 60 minutes on |
| Util.Prettify | lib/metrics.ts:102-104 | every underscore becomes a space and nothing else changes |
| Util.NatToString | app/orders/page.tsx:43 | the decimal rendering of a count is non-empty digits with no leading zero |
| Util.ParseNatToString | app/orders/page.tsx:43 | reading the decimal rendering back gives the number |

## Left out

- I/O is not modelled: the HTTP handlers, the LLM call, speech, the database, fetch calls (`updateStatus`, placing an order) and their error responses.
- The clock is an input, not read. Each order record carries its hour and whether it falls in today's window, and `OrdersBoard.TimeAgo` takes the elapsed milliseconds.
- Floating point is not modelled. Money is in cents, and `round2` is the identity on the price tables, which are in quarters.
- `clearCart` is not modelled. It only empties the cart and resets order-placement state.
- The `updating` state of the orders board buttons is not modelled. It is UI feedback.
- Object key order is not modelled. Tallies are lists in first-insertion order; JavaScript would put integer-like keys first. No catalog name is integer-like, but the milk tally also counts the milk of a drink outside the milk drinks, which the validator does not check; an integer-like milk such as "2" would then be listed first by JavaScript, changing the order of ties in the milk breakdown.
- The item count and item revenue records are merged into one tally row per name. Both are always bumped together, so their keys agree.
- Items without a drink or pastry tag are not modelled. `OrderItem` is a closed two-case type, so the "Item must be a drink or pastry" branch and the "Unknown item" label cannot arise.
- A missing payload in an order record is read as no items.
- Unknown statuses are not on the orders board. There the status is a closed three-value type; the dashboard's status counts do keep strings and ignore unknown statuses.
- `drinkKeyFn` is modelled as field equality plus equal add-on multisets. String-key collisions between different drinks are not modelled, and neither is its in-place sort of a cart line's add-ons, which changes no price or grouping.
- Aliasing between the group records and the cart is not modelled. `cartGroups` mutates group records in place; the model replaces the group in the list.
- `ChatRoute.FilledFieldCount` is a function rather than a counter method. It is a fixed sequence of increments with no loop.
- Ranking.SortDesc: stability, that equal keys keep their order, is not stated. The contract gives sortedness and permutation only.
- Dashboard.InWindow: the window is stated by membership and length, not by order preservation.
- OrdersBoard.TimeAgo: the contract states the "just now" case; the exact "<m>m ago" and "<h>h <m>m ago" layout is stated through `OrdersBoard.TimeAgoInjective` and `OrdersBoard.DurationHours`, not in full.
- Names that are inherited object properties (`constructor`, `toString`, `__proto__` and the like) are not modelled as such. The price, label and tally tables are plain object literals, so looking up such a name finds the inherited member instead of falling back; the model treats every name outside a table as unknown and applies the fallback. The validator compares drink, pastry and add-on names against lists, so it rejects such names before an order is stored; it checks milk only on milk drinks, so such a milk on another drink would reach the price and the label.
- `ESPRESSO_DRINKS` is unused, and the "degenerate drink" block is a comment only. Neither appears in the model.

Two behaviours of the code may be unexpected. The model follows the code:

- De-duplication is not idempotent. One might expect a second pass to change nothing, but it can drop a drink the first pass kept (`ChatRoute.DeduplicateNotIdempotent`).
- The receipt label shows a non-regular ice level even on a hot drink, where one might expect ice to be left out (`Pricing.IceLevelShownOnHotDrink`).
