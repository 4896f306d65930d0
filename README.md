# Ticket lifecycle of ticket-wave-collective, in Dafny

This project models the core of the ticket-wave-collective event ticketing application and
proves properties of that model:

- **order intake** against an event-wide ticket limit, with the per-type `sold` counters kept
  by a read-then-write loop;
- **ticket issuance**: one ticket row per unit ordered, each carrying the QR payload
  `number|orderId|typeId`;
- **venue validation**: a one-way flip of `is_used`;
- **access gates** for password-protected ticket types;
- **input checks** and the client-side sliding-window rate limiter;
- **event persistence**: rows built from the creation form, partial updates, and wholesale
  replacement of ticket types;
- **cart and reporting**: cart arithmetic on the public event page and the purchase widget,
  and the per-customer report of the organiser's tracking page.

The Supabase backend is modelled as an in-memory store, `Store.Database`, with one sequence of
rows per table: `events`, `ticket_types`, `orders`, `order_items` and `tickets`.

- A `.eq(...)` query is `Store.Filter`. A `.single()` query is `Store.Single`: the one matching
  row, and an error when zero or several rows match.
- Database errors are fault flags passed in. Generated ids, clock readings and the
  `generate_ticket_number` RPC answer are parameters too.
- Operations that write tables in place are methods on the `Database` object: creating an
  order, minting tickets, validating a ticket, creating and updating an event. Each is proved
  against a function of the old tables.
- React component state is a class per component, with one method per handler: the public
  event page, the purchase widget, the password gate, the event-creation modal, the invite
  form and the tracking hook. The in-place `RateLimiter` is a class as well.
- Pure computations are functions, with lemmas for what the source promises about them.

Money (prices, `total_amount`, `price_per_ticket`, revenue) is `real`, so sums are exact. The
source sums JavaScript doubles; the model does not round. Counts (`quantity`, `sold`, the limit)
are `int`. A JavaScript object or `Map` used as a dictionary is a sequence of key/value entries
(`Common.Put`, `Common.Remove`, `Common.Lookup`), kept in insertion order. Key order matters for
`Object.entries` and `Map.values`. A `Map` keeps insertion order for every key; a plain object
lists integer-like keys first, which the model does not (see "Left out").

Two places where the page and the services do not fit together:

- `src/components/PublicEventPage.tsx` imports `createOrderInDatabase` and
  `verifyTicketPasswordInDatabase` from `src/services/eventService.ts`.
  - That file's password check always answers true, and it exports no
    `createOrderInDatabase`, so the page as written cannot place an order.
  - The model takes the verification answer as a parameter of `PublicEventPage.Page.Unlock`.
  - It wires the purchase to `OrderService.CreateOrderInDatabase`, the service the page
    evidently means (see "Left out").
- `getCurrentSoldCount` answers `data.sold || 0`, and `sold` defaults to 0 in the schema. So a
  failed read overwrites the stored count with the item's quantity. The model keeps this (see
  `OrderService.FailedReadResetsSold`).

## Model

| member | source | states |
|---|---|---|
| Store.Filter | src/services/orderService.ts:30-33 | every row a `.eq` filter selects is in the table and matches, every matching row is selected, and no more rows come back than the table holds |
| Store.Single | src/services/orderService.ts:20-24 | `.single()` yields a row exactly when one row matches, and that row is in the table and matches |
| Store.SingleAt | src/services/ticketService.ts:9-13 | when exactly one position matches, `.single()` returns the row at that position |
| Store.SingleIndex | src/services/ticketGenerationService.ts:88-99 | a successful `.single()` found the one position whose row matches; no other position matches |
| Store.SingleMissing | src/services/ticketService.ts:15-18 | when no row matches, `.single()` answers the error case |
| Store.FilterAppend | src/services/eventDatabaseService.ts:130-133 | filtering rows appended to a table keeps the old matches first, then the new ones |
| Store.TypeByIdAt | src/services/ticketService.ts:9-13 | with unique ids, a lookup of a type's id that reaches the database returns that type |
| Store.TypeByIdMissing | src/services/ticketService.ts:36-39 | an unknown id or a failed query gives the error case |
| Common.Utf16Length | src/utils/security.ts:42 | JavaScript's `length` counts UTF-16 units: between the number of characters and twice that |
| Common.Trim | src/utils/security.ts:52 | `trim` never lengthens a string |
| Common.TrimStartSpec | src/utils/security.ts:52 | the part `trim` drops at the start is all white space, and what remains starts with a non-space |
| Common.TrimEndSpec | src/utils/security.ts:52 | the part `trim` drops at the end is all white space, and what remains ends with a non-space |
| Common.TrimEnds | src/utils/eventHelpers.ts:10 | a trimmed string is empty or starts and ends with a non-space character |
| Common.TrimEmptyIffBlank | src/utils/eventHelpers.ts:36 | `s.trim()` is empty exactly when `s` is white space only |
| Common.ToLowerFixedIffNoCapitals | src/pages/TicketTracking.tsx:22 | `toLowerCase` leaves no ASCII capital, and it changes a string exactly when the string holds one |
| Common.IncludesEmpty | src/pages/TicketTracking.tsx:22 | every string includes the empty string |
| Common.Lookup | src/components/TicketPurchase.tsx:140 | `obj[k]` is undefined exactly when no entry has key k, and otherwise a value stored under k |
| Common.LookupAt | src/components/TicketPurchase.tsx:140 | with unique keys, looking up an entry's key reads back that entry's value |
| Common.PutProperties | src/components/TicketPurchase.tsx:47 | after `{...obj, [k]: v}` keys stay unique, k reads back v, and every other key reads as before |
| Common.Remove | src/components/TicketPurchase.tsx:44-45 | the rest of a destructuring drops key k and keeps every other entry |
| Common.RemoveLookup | src/components/TicketPurchase.tsx:44-45 | after removal k is undefined and every other key reads as before |
| Common.SumAfterPut | src/components/TicketPurchase.tsx:62-64 | setting key k to v moves the sum of the values by v minus k's old value (0 when absent) |
| Common.SumAfterRemove | src/components/TicketPurchase.tsx:62-64 | removing key k lowers the sum of the values by k's old value |
| Common.ValuesReadBack | src/components/TicketPurchase.tsx:63 | with unique keys, `Object.values` lists a value exactly when some key reads it back |
| Common.SumIntAppend | src/pages/TicketTracking.tsx:39-41 | a `reduce` sum over a concatenation is the sum of the two sums |
| Common.SumIntZero | src/components/PublicEventPage.tsx:80-86 | a sum of non-negative counts is 0 exactly when every count is 0 |
| Common.Max | src/components/PublicEventPage.tsx:48 | `Math.max` is at least both arguments and equals one of them |
| Common.Find | src/components/PublicEventPage.tsx:75 | `find` returns the first element whose key matches, and nothing exactly when no element matches; `PublicEventPage.FindType` and `TicketPurchase.FindByName` are this search on the id and on the name |
| OrderService.LimitRejectsOverLimit | src/services/orderService.ts:28-43 | with a truthy limit and no read error, the order is refused exactly when sold plus ordered exceeds the limit, and the error reports limit minus sold as remaining |
| OrderService.OrderReachingLimitAccepted | src/services/orderService.ts:40 | the comparison is strict: an order that brings the total exactly to the limit passes |
| OrderService.UnsetLimitSkipsCheck | src/services/orderService.ts:28 | a null or 0 limit skips the check, so no order size is refused for it |
| OrderService.NewOrderReadsBack | src/services/orderService.ts:46-55 | with a fresh order id, `.single()` on that id finds the row just inserted: status 'completed', the caller's event and total, and a user exactly when a non-empty `userId` was given (`userId \|\| null`) |
| OrderService.ItemsReadBack | src/services/orderService.ts:58-65 | with a fresh order id, selecting `order_items` by it gives back exactly the requested items, in order, with their type, quantity and price |
| OrderService.FirstFailure | src/services/orderService.ts:74-86 | the first failing pass of the loop: the least failing index, with every earlier pass succeeding |
| OrderService.BumpPrefixKeepsOtherFields | src/services/orderService.ts:74-86 | the `sold` loop changes no field but `sold`: same rows, ids, capacities and prices |
| OrderService.BumpPrefixKeepsIds | src/services/orderService.ts:74-80 | the loop keeps the number of rows and keeps ids unique |
| OrderService.SoldAccumulates | src/services/orderService.ts:74-86 | with unique ids and no failed read, each type ends with its old `sold` plus the quantities of all items naming it; repeated items accumulate |
| OrderService.FailedReadResetsSold | src/services/ticketService.ts:36-41 | when the read of `sold` fails it answers 0, so the type's `sold` becomes the item's quantity |
| OrderService.SoldCanExceedCapacity | src/services/orderService.ts:74-80 | no per-type capacity check: a type with capacity 1 and 1 sold, in an event without a limit, ends with `sold` 2 |
| OrderService.WriteSold | src/services/orderService.ts:75-80 | one pass writes read-back `sold` plus quantity to the type and changes no other table |
| OrderService.RecordSold | src/services/orderService.ts:74-86 | the loop stops at the first failing update and reports it; `ticket_types` then holds the passes before it, and nothing is undone |
| OrderService.CreateOrderInDatabase | src/services/orderService.ts:15-94 | a refused or failed check writes nothing; otherwise exactly one order row, then its items, then the `sold` passes; a later failure leaves the earlier writes in place; success returns the order id |
| TicketService.VerifyTicketPassword | src/services/ticketService.ts:5-26 | a password is only accepted when the lookup reaches the database and finds the type |
| TicketService.VerifyTicketPasswordExact | src/services/ticketService.ts:21 | with unique ids and no error, the check is exact, case-sensitive equality with the stored `password_hash` |
| TicketService.VerifyTicketPasswordMissing | src/services/ticketService.ts:15-18 | an unknown id or a failed query is never verified, whatever the password |
| TicketService.CurrentSoldCountStored | src/services/ticketService.ts:29-41 | with unique ids and no error, the count read is the stored `sold` |
| TicketService.CurrentSoldCountMissing | src/services/ticketService.ts:36-39 | an id with no row counts as 0 sold, whether or not the query fails |
| TicketService.CurrentSoldCountReadsARow | src/services/ticketService.ts:29-42 | a failed query reads 0 sold; otherwise the count is 0 or the `sold` of a row carrying the id |
| TicketGeneration.TicketNumber | src/services/ticketGenerationService.ts:111-112 | the ticket number is the RPC answer when it is non-empty, otherwise the non-empty fallback |
| TicketGeneration.Split | src/services/ticketGenerationService.ts:113 | `split('\|')` yields at least one part |
| TicketGeneration.JoinSplit | src/services/ticketGenerationService.ts:113 | joining the parts of a split with '\|' gives back the string |
| TicketGeneration.SplitFirst | src/services/ticketGenerationService.ts:113 | a first part without '\|' is split off whole |
| TicketGeneration.QrPayloadRoundTrip | src/services/ticketGenerationService.ts:113 | the QR payload is number, order id and type id joined by '\|', and splitting it recovers the three when none contains '\|' |
| TicketGeneration.UnitsAppend | src/services/ticketGenerationService.ts:108-109 | the unit count of two item lists together is the sum of their counts |
| TicketGeneration.PlanLength | src/services/ticketGenerationService.ts:108-109 | the loop makes one insert attempt per unit: Σ max(0, quantity) over the order's items |
| TicketGeneration.MintedRows | src/services/ticketGenerationService.ts:116-132 | at most one ticket per unit; every ticket belongs to the order, has a planned type, is unused, and carries the QR payload of its number, order and type |
| TicketGeneration.MintedAllSucceed | src/services/ticketGenerationService.ts:127-132 | when no insert fails there is exactly one ticket per unit |
| TicketGeneration.MintedInUnitOrder | src/services/ticketGenerationService.ts:105-132 | when no insert fails, the j-th ticket is the one made for the j-th unit: tickets come in minting order |
| TicketGeneration.InsertTicket | src/services/ticketGenerationService.ts:110-132 | one attempt appends its ticket and id on success and nothing on failure; no other table changes |
| TicketGeneration.MintItem | src/services/ticketGenerationService.ts:109-156 | the inner loop makes `quantity` attempts for one item, skips failures, and returns the ids of the rows it added, in order |
| TicketGeneration.CreateTicketsForOrder | src/services/ticketGenerationService.ts:83-164 | a missing order throws "Failed to fetch order details" and adds nothing; otherwise the tickets table grows by the minted rows for the order's units, and their ids are returned in minting order |
| TicketGeneration.MintedAllOfOrder | src/services/ticketGenerationService.ts:117-122 | every minted ticket references the order it was minted for |
| TicketGeneration.ReissueDuplicates | src/services/ticketGenerationService.ts:83-159 | there is no check for existing tickets: a second successful run for the same order doubles that order's tickets |
| ValidateTicket.StatusAgreesWithValidity | supabase/functions/validate-ticket/index.ts:26-122 | only a successful flip answers `valid: true`; a 200 is a flip or the preflight; every other status carries an error message |
| ValidateTicket.Lookup | supabase/functions/validate-ticket/index.ts:35-51 | a failed query finds nothing; a found ticket is in the table and carries the scanned payload |
| ValidateTicket.Respond | supabase/functions/validate-ticket/index.ts:14-124 | the handler changes a row only on a POST that ends in a flip or a later error, and only by flipping it; a `valid` answer names an unused ticket with that payload, now used |
| ValidateTicket.MissingQrCodeRejected | supabase/functions/validate-ticket/index.ts:26-31 | an absent or empty `qrCode` is answered 400 with nothing looked up or changed |
| ValidateTicket.UnknownQrCodeNotFound | supabase/functions/validate-ticket/index.ts:53-62 | a payload no ticket carries is answered `valid: false`, 404, with nothing changed |
| ValidateTicket.UsedTicketRejected | supabase/functions/validate-ticket/index.ts:65-80 | a used ticket is answered "Ticket already used" with its stored `used_at`, number, event title and type name, and the table is not updated |
| ValidateTicket.FlipChangesOnlyScannedRow | supabase/functions/validate-ticket/index.ts:83-115 | with unique ids, a scan of an unused ticket whose lookup and update succeed flips exactly that row to used at the clock reading; every other row is unchanged |
| ValidateTicket.SecondScanRejected | supabase/functions/validate-ticket/index.ts:65-89 | after a scan has validated a ticket, scanning the same payload again is answered "already used" with the first scan's time, and changes nothing |
| ValidateTicket.Handle | supabase/functions/validate-ticket/index.ts:14-124 | the handler on the database: same checks in the same order, the same answer, only `tickets` written |
| Security.ValidEmailMatchesPattern | src/utils/security.ts:36-39 | the email check accepts exactly the strings `/^[^\s@]+@[^\s@]+\.[^\s@]+$/` matches: no white space, a single '@' not at the start, and a '.' strictly inside the part after it |
| Security.ValidEmail | src/utils/security.ts:36-39 | an accepted address has at least 5 characters and contains '@' |
| Security.ValidEmailIsPattern | src/utils/security.ts:37 | every accepted address splits as run, '@', run, '.', run |
| Security.PatternIsValidEmail | src/utils/security.ts:37 | every string the pattern matches is accepted |
| Security.ValidatePassword | src/utils/security.ts:41-49 | the length test (< 8 UTF-16 units) fires first, then the composition test; valid exactly when both pass, and then the message is '' |
| Security.CompositionOnOneLine | src/utils/security.ts:45 | on a single-line password the look-aheads ask for a lowercase letter, an uppercase letter and a digit anywhere |
| Security.CompositionStopsAtLineBreak | src/utils/security.ts:45 | `.` does not cross a line break: "aB\n1" fails the composition test |
| Security.BlankTitleRejected | src/utils/security.ts:51-53 | a title of white space only is not a valid event title |
| Security.ValidEventTitle | src/utils/security.ts:51-53 | an accepted title trims to 2 to 100 characters (3 to 100 UTF-16 units) |
| Security.EventDateStrictlyAfterNow | src/utils/security.ts:55-59 | the date check is strict: an event at the current instant is refused, one a moment later passes, and an unparsable date never passes |
| Security.PriceBoundsInclusive | src/utils/security.ts:61-63 | prices 0 and 10000 are accepted; anything below 0 or above 10000 is refused |
| Security.ValidQuantityOfInteger | src/utils/security.ts:65-67 | for whole numbers the quantity check is the range 1..10000 |
| Security.ValidQuantity | src/utils/security.ts:65-67 | an accepted quantity is at least 1 |
| Security.FractionalQuantityRejected | src/utils/security.ts:66 | a fractional quantity is refused even inside the range |
| Security.Base36TokenValidIffLongEnough | src/utils/security.ts:100-107 | a token made of base-36 digits, as `generateCSRFToken` builds it, passes `isValidCSRFToken` exactly when it is at least 20 characters long |
| Security.IsValidCSRFToken | src/utils/security.ts:105-107 | an accepted token holds no capital letter: lowering it leaves it unchanged |
| Security.InWindow | src/utils/security.ts:79 | the kept attempts are exactly those with `now - time < windowMs` |
| Security.InWindowKeepsAll | src/utils/security.ts:79 | a history wholly within the window is kept as it is |
| Security.FullWindowRefusesNextCall | src/utils/security.ts:74-88 | the limit holds: once an allowed call fills the window to `maxAttempts`, a further call at the same instant is refused |
| Security.AllowedKeepsHistoryBounded | src/utils/security.ts:76-87 | after an allowed call the key holds between 1 and `maxAttempts` attempts, ending with `now`, and every other key's history is unchanged |
| Security.ResetThenAllowed | src/utils/security.ts:90-92 | after `reset(key)` the key has no history and the next call with `maxAttempts >= 1` is allowed |
| Security.RateLimiter.constructor | src/utils/security.ts:71-72 | a new limiter holds no history for any key |
| Security.RateLimiter.IsAllowed | src/utils/security.ts:74-88 | `isAllowed` on the limiter's map gives the verdict and new map described by `Security.Attempt` |
| Security.RateLimiter.Reset | src/utils/security.ts:90-92 | `reset` deletes the key's history and leaves every other key's history as it was |
| EventHelpers.TicketErrorChecks | src/utils/eventHelpers.ts:53-61 | a ticket passes exactly when its name is not blank, its price is not negative and its quantity is positive; a blank name is reported before a negative price |
| EventHelpers.FirstTicketError | src/utils/eventHelpers.ts:52-62 | the ticket loop reports nothing exactly when every ticket passes |
| EventHelpers.FirstTicketErrorIsFirst | src/utils/eventHelpers.ts:52-62 | the message reported is that of a failing ticket before which every ticket passes |
| EventHelpers.ValidateEventData | src/utils/eventHelpers.ts:35-65 | the result is null or one of the seven messages; a form without ticket types, date or time is never accepted |
| EventHelpers.ValidateEventDataNoneIff | src/utils/eventHelpers.ts:35-65 | `validateEventData` returns null exactly when every check holds |
| EventHelpers.ValidateEventDataOrder | src/utils/eventHelpers.ts:36-62 | the checks fire in order: title, location, date and time, ticket list, then the first failing ticket; blank title and location are rejected |
| EventHelpers.PriceBoundary | src/utils/eventHelpers.ts:56-58 | a free ticket passes the price check and a negative price is rejected |
| EventHelpers.ValidatedMockEventWellFormed | src/utils/eventHelpers.ts:5-33 | a form that passed `validateEventData` gives a local event with a title, a location and at least one ticket type, each named, priced at 0 or more and with a positive quantity |
| EventHelpers.MockEventStartsUnsold | src/utils/eventHelpers.ts:24 | every ticket type of a new event starts with nothing sold |
| EventDatabase.ValidatedEventRowsNotBlank | src/services/eventDatabaseService.ts:43-68 | a form that passed `validateEventData` is stored with a non-empty title, location and date, and at least one ticket_types row, each named, priced at 0 or more, with a positive capacity and `sold` 0 |
| EventDatabase.TicketTypeRowsOfEvent | src/services/eventDatabaseService.ts:60-61 | every row built for an event belongs to it |
| EventDatabase.CreateEventInDatabase | src/services/eventDatabaseService.ts:38-87 | the event row is written first; a failed ticket-type insert is rethrown with the event kept; success appends the rows and returns the event with its types |
| EventDatabase.PatchReadsBack | src/services/eventDatabaseService.ts:93-107 | after an update the row holds a truthy title or location trimmed, a date only when date and time are both truthy, a defined description trimmed, a defined image or limit as given, and otherwise its stored values; id, owner and creation time are kept and `updated_at` is the clock reading |
| EventDatabase.BlankTitleUpdateWritesEmpty | src/services/eventDatabaseService.ts:94 | the truthiness guard looks at the untrimmed title, so a title of spaces is written as '' |
| EventDatabase.EmptyPatchOnlyStamps | src/services/eventDatabaseService.ts:93-107 | a patch that defines no field still rewrites `updated_at`, and nothing else |
| EventDatabase.UpdateIsIdempotent | src/services/eventDatabaseService.ts:102-107 | sending the same `.update(updateData).eq('id', eventId)` twice leaves the table as sending it once |
| EventDatabase.UpdateEventInDatabase | src/services/eventDatabaseService.ts:89-158 | a failed or missing event update throws with nothing written; given ticket types, the old ones are deleted (result unchecked) and the new ones inserted; otherwise the event's stored types are returned, or [] on error |
| EventDatabase.ReplacementDiscardsSold | src/services/eventDatabaseService.ts:112-141 | after a replacement whose delete took effect the event's types are exactly the new rows, all with `sold` 0 |
| EventDatabase.UnappliedDeleteDuplicates | src/services/eventDatabaseService.ts:113-117 | when the unchecked delete did not take effect, the event ends up with its old types and the new ones |
| EventDatabase.NewestFirst | src/services/eventDatabaseService.ts:16 | ordering by `created_at` keeps the number of rows |
| EventDatabase.InsertKeepsRows | src/services/eventDatabaseService.ts:16 | one insertion step of the ordering adds exactly the new row |
| EventDatabase.InsertKeepsOrder | src/services/eventDatabaseService.ts:16 | one insertion step keeps the list newest first |
| EventDatabase.NewestFirstSortsRows | src/services/eventDatabaseService.ts:16 | `.order('created_at', {ascending: false})` is a permutation of the rows, newest first |
| EventDatabase.FetchEvents | src/services/eventDatabaseService.ts:6-36 | an error yields []; otherwise one entry per selected event, each with the event's own ticket types |
| EventDatabase.FetchEventsListsSelection | src/services/eventDatabaseService.ts:10-30 | without a user id every event is listed; with one, exactly that user's; in both cases each once and newest first |
| PublicEventPage.UnknownIdCostsNothing | src/components/PublicEventPage.tsx:73-78 | a selected id that no type carries adds nothing to the total cost |
| PublicEventPage.TotalCost | src/components/PublicEventPage.tsx:73-78 | `getTotalCost` is 0 for an event without ticket types, whatever is selected |
| PublicEventPage.TotalSelected | src/components/PublicEventPage.tsx:80-82 | with no negative quantity selected, `getTotalSelectedTickets` is not negative |
| PublicEventPage.OrderItems | src/components/PublicEventPage.tsx:94-103 | order items have positive quantities, each priced at its type's current price, and there are no more of them than entries |
| PublicEventPage.ItemsComeFromEntries | src/components/PublicEventPage.tsx:94-103 | every order item carries the id and quantity of a selection entry |
| PublicEventPage.PositiveEntriesBecomeItems | src/components/PublicEventPage.tsx:94-103 | every entry with a positive quantity becomes an order item with that id, quantity and price |
| PublicEventPage.EntryCostIsItemAmount | src/components/PublicEventPage.tsx:76-101 | an entry costs its quantity times the price its item carries, or nothing when its quantity is 0 |
| PublicEventPage.TotalCostMatchesItems | src/components/PublicEventPage.tsx:73-109 | with non-negative quantities, `getTotalCost` equals Σ quantity × pricePerTicket over the order items |
| PublicEventPage.NothingSelectedIffNoItems | src/components/PublicEventPage.tsx:80-103 | with non-negative quantities, nothing is selected exactly when there are no order items |
| PublicEventPage.PurchaseRequestConsistent | src/components/PublicEventPage.tsx:94-109 | a purchase that goes ahead sends at least one item, and its total is what the items add up to |
| PublicEventPage.UnlockIsMonotone | src/components/PublicEventPage.tsx:56-59 | setting a flag never locks a type that was unlocked, and it unlocks its own type |
| PublicEventPage.IncrementStaysWithinAvailable | src/components/PublicEventPage.tsx:276-277 | pressing + while it is enabled never selects more than is available |
| PublicEventPage.Page.constructor | src/components/PublicEventPage.tsx:19-20 | the page starts with nothing selected and nothing unlocked |
| PublicEventPage.Page.ChangeQuantity | src/components/PublicEventPage.tsx:45-50 | the id is set to `max(0, q)`, so no stored quantity is negative; every other id keeps its value |
| PublicEventPage.Page.Unlock | src/components/PublicEventPage.tsx:52-71 | the flag is set, and true returned, exactly when verification answers true; a false answer or an error changes nothing |
| PublicEventPage.Page.Purchase | src/components/PublicEventPage.tsx:84-124 | with nothing selected no order is written; otherwise the order request of the selection goes to the order service: a refused or failed check writes nothing, an accepted one appends its order row, and success returns the order id with its items and `sold` passes written and clears the selection; a failure keeps the selection; events and tickets never change |
| PasswordProtectedTicket.EmptyStoredPasswordNeverUnlocks | src/components/PublicEventPage.tsx:223 | a type whose stored hash is null or '' can never be unlocked through the gate, since submit needs a non-empty entry |
| PasswordProtectedTicket.Gate.constructor | src/components/PasswordProtectedTicket.tsx:26-29 | the gate starts unlocked exactly when the ticket is not protected, with an empty entry and no error |
| PasswordProtectedTicket.Gate.ChangeInput | src/components/PasswordProtectedTicket.tsx:74-77 | editing the entry clears the error and changes nothing else |
| PasswordProtectedTicket.Gate.Submit | src/components/PasswordProtectedTicket.tsx:31-40 | a matching entry unlocks, clears the error and calls `onUnlock` once; a mismatch sets the error and calls nothing; the gate never locks again |
| TicketPurchase.UpdatedProperties | src/components/TicketPurchase.tsx:42-49 | a quantity of 0 removes the name and any other value sets it: keys stay unique, the map never stores 0, other names keep their values |
| TicketPurchase.Updated | src/components/TicketPurchase.tsx:42-49 | after an update the name reads back as the quantity set, or undefined when it was 0 |
| TicketPurchase.TotalTicketsAfterUpdate | src/components/TicketPurchase.tsx:42-64 | each update moves `getTotalTickets` by the change of that one name's count |
| TicketPurchase.TotalTickets | src/components/TicketPurchase.tsx:62-64 | with no negative count, `getTotalTickets` is not negative |
| TicketPurchase.TotalPriceNonNegative | src/components/TicketPurchase.tsx:55-60 | with prices and counts not negative, `getTotalPrice` is not negative |
| TicketPurchase.TotalPrice | src/components/TicketPurchase.tsx:55-60 | `getTotalPrice` is 0 for an event without ticket types, whatever is selected |
| TicketPurchase.UnknownNameCostsNothing | src/components/TicketPurchase.tsx:55-60 | a name no type carries adds nothing to the total price |
| TicketPurchase.RemainingIsCapacityMinusSold | src/components/TicketPurchase.tsx:125 | the "tickets remaining" figure is total capacity minus total sold, so an oversold type lowers it |
| TicketPurchase.Remaining | src/components/TicketPurchase.tsx:125 | when no type is oversold the "tickets remaining" figure is not negative |
| TicketPurchase.DecrementFromOneRemoves | src/components/TicketPurchase.tsx:178 | the − button sends `max(0, selected − 1)`, so from 1 it removes the name |
| TicketPurchase.Widget.constructor | src/components/TicketPurchase.tsx:38-40 | the widget starts with nothing selected and nothing unlocked |
| TicketPurchase.Widget.UpdateTicketQuantity | src/components/TicketPurchase.tsx:42-49 | `updateTicketQuantity` keeps the map free of zeros, with unique keys, and moves the ticket total by the change |
| TicketPurchase.Widget.HandleTicketUnlock | src/components/TicketPurchase.tsx:51-53 | `handleTicketUnlock` only ever sets a name's flag to true and leaves the other names' flags alone |
| CreateEventModal.TicketMessages | src/components/SecureCreateEventModal.tsx:90-100 | a ticket gets no message exactly when its price and quantity are valid and it is not a protected ticket with a missing or short password; at most three messages |
| CreateEventModal.TicketErrorsEmptyIff | src/components/SecureCreateEventModal.tsx:90-100 | the ticket loop adds no message exactly when every ticket passes |
| CreateEventModal.FormErrorsEmptyIff | src/components/SecureCreateEventModal.tsx:62-104 | `validateForm` collects no message exactly when every check holds: title, date and time in the future, location, non-empty list, every ticket |
| CreateEventModal.AllFailuresReported | src/components/SecureCreateEventModal.tsx:62-88 | messages are collected, not stopped at the first: a bad title, a blank location and an empty list are all reported, title first |
| CreateEventModal.PushEventErrors | src/components/SecureCreateEventModal.tsx:63-88 | the event-level checks push their messages in order |
| CreateEventModal.PushTicketErrors | src/components/SecureCreateEventModal.tsx:91-99 | one ticket's checks append its messages in order |
| CreateEventModal.CollectFormErrors | src/components/SecureCreateEventModal.tsx:62-101 | the collected list is every failing message of the form, in check order |
| CreateEventModal.FormErrors | src/components/SecureCreateEventModal.tsx:62-101 | a bad title, a blank location and an empty ticket list each put their message in the list |
| CreateEventModal.RemoveAt | src/components/SecureCreateEventModal.tsx:175-177 | removing index i drops only that entry and keeps the others in order; an index out of range changes nothing |
| CreateEventModal.AccessFieldsOnly | src/components/SecureCreateEventModal.tsx:179-184 | setting the password or the protection flag leaves name, price, quantity and description alone |
| CreateEventModal.SubmittedTicketsStillValid | src/components/SecureCreateEventModal.tsx:204-219 | sanitising touches only names and descriptions: a form that passed validation submits at least one ticket, and each submitted ticket passes the ticket checks again |
| CreateEventModal.Modal.constructor | src/components/SecureCreateEventModal.tsx:34-60 | the modal starts with the empty form, the default ticket list, an empty draft and no messages |
| CreateEventModal.Modal.ValidateForm | src/components/SecureCreateEventModal.tsx:62-104 | the shown messages are every failing message, and the form passes exactly when every check holds |
| CreateEventModal.Modal.AddTicketType | src/components/SecureCreateEventModal.tsx:139-173 | a draft with a blank name, invalid price or invalid quantity changes nothing; a valid one is appended once, sanitised, and the draft is cleared |
| CreateEventModal.Modal.RemoveTicketType | src/components/SecureCreateEventModal.tsx:175-177 | removes index i only |
| CreateEventModal.Modal.UpdateTicketPassword | src/components/SecureCreateEventModal.tsx:179-184 | changes field f of entry i only |
| CreateEventModal.Modal.HandleSubmit | src/components/SecureCreateEventModal.tsx:186-246 | the rate limit (3 per 60 s) is consulted first and a refusal changes nothing else; past it, the shown messages become every failing message of the form, an invalid form is never submitted, and the submission is the sanitised form; a `createEvent` that does not throw resets the form and the ticket list to their defaults and leaves no message; one that throws keeps the form |
| CreateEventModal.Modal.SubmitValidForm | src/components/SecureCreateEventModal.tsx:195-242 | after the rate limit: validate, then sanitise and submit; the form is reset only when `createEvent` does not throw |
| TeamInvite.Decide | src/components/team/TeamInviteForm.tsx:29-64 | an invite is sent exactly when email and role are given and the email is neither pending nor a member |
| TeamInvite.PendingCheckedBeforeMembership | src/components/team/TeamInviteForm.tsx:40-50 | an address that is both invited and a member is reported as already invited |
| TeamInvite.MissingFieldsFirst | src/components/team/TeamInviteForm.tsx:30-37 | missing fields are reported whatever the lists hold |
| TeamInvite.CaseSensitiveMatch | src/components/team/TeamInviteForm.tsx:40-41 | only an exact match counts: an address different from every listed one is invited |
| TeamInvite.InviteForm.constructor | src/components/team/TeamInviteForm.tsx:26-27 | the form starts with no email, no role and no invite sent |
| TeamInvite.InviteForm.HandleInvite | src/components/team/TeamInviteForm.tsx:29-64 | an accepted invite calls `onInvite` once with the email and role and clears both fields; a refused one changes nothing |
| TicketTrackingHook.CustomerNeverBlank | src/hooks/useTicketTracking.ts:79-93 | the report never shows an empty customer name or email: a guest, a missing profile and a profile's empty fields all fall back to non-empty text |
| TicketTrackingHook.OneRecordPerItem | src/hooks/useTicketTracking.ts:77-111 | the flattening yields exactly one record per order item |
| TicketTrackingHook.Flatten | src/hooks/useTicketTracking.ts:75-111 | every record carries the id and event of one of the fetched orders |
| TicketTrackingHook.TransformPurchases | src/hooks/useTicketTracking.ts:75-111 | the nested loops build the flattened records |
| TicketTrackingHook.Tracker.constructor | src/hooks/useTicketTracking.ts:31 | the hook starts with no purchases |
| TicketTrackingHook.Tracker.FetchTicketPurchases | src/hooks/useTicketTracking.ts:35-120 | signed out or on a query error the list stays as it was; otherwise it becomes the flattened records |
| TicketTrackingHook.AddPurchaseLookup | src/hooks/useTicketTracking.ts:125-147 | one step updates only the purchase's email: a known customer's entry is bumped, a new one starts from the record |
| TicketTrackingHook.LatestIsMaximum | src/hooks/useTicketTracking.ts:134-136 | lastPurchase is the latest purchase date among a customer's records |
| TicketTrackingHook.Aggregate | src/hooks/useTicketTracking.ts:122-150 | there are no more customers than records, and at least one when there is a record |
| TicketTrackingHook.AggregateSpec | src/hooks/useTicketTracking.ts:122-150 | one entry per distinct email; for each, the totals are those of that customer's records: Σ quantity, Σ totalPrice, one count per record, the latest date, and the name of the first record |
| TicketTrackingHook.Tally | src/hooks/useTicketTracking.ts:125-147 | one step of the `forEach` on the map |
| TicketTrackingHook.GetAttendanceStats | src/hooks/useTicketTracking.ts:122-150 | `getAttendanceStats` returns the map's values in first-seen order |
| TicketTrackingPage.FilteredPurchases | src/pages/TicketTracking.tsx:21-28 | a record is kept exactly when the term is a case-insensitive substring of its name, email or event title and the selector is "all" or its event |
| TicketTrackingPage.FilteredAttendance | src/pages/TicketTracking.tsx:30-33 | a customer is kept exactly when the term is a case-insensitive substring of the name or email |
| TicketTrackingPage.ToLowerIdempotent | src/pages/TicketTracking.tsx:22 | lowering twice is lowering once |
| TicketTrackingPage.SearchIgnoresCase | src/pages/TicketTracking.tsx:22-24 | the match does not depend on the case of the term or of the field |
| TicketTrackingPage.EmptySearchKeepsAll | src/pages/TicketTracking.tsx:21-28 | an empty term with "all" selected keeps every record, in order |
| TicketTrackingPage.EmptySearchKeepsAllCustomers | src/pages/TicketTracking.tsx:30-33 | an empty term keeps every customer |
| TicketTrackingPage.ToLowerAppend | src/pages/TicketTracking.tsx:22 | lowering distributes over concatenation |
| TicketTrackingPage.LongerTermMatchesLess | src/pages/TicketTracking.tsx:22-24 | a field matching a term also matches every prefix of it |
| TicketTrackingPage.TypingNarrowsPurchases | src/pages/TicketTracking.tsx:21-28 | typing more of the term never brings back a record |
| TicketTrackingPage.CustomerFoundByEmailIsListed | src/pages/TicketTracking.tsx:30-33 | a record whose email matches the term has its customer listed in the filtered report |
| TicketTrackingPage.StatsAfterPut | src/hooks/useTicketTracking.ts:128-146 | replacing one customer's entry moves the report's totals by that entry's change |
| TicketTrackingPage.AddPurchaseSums | src/hooks/useTicketTracking.ts:128-146 | each record adds its quantity and its totalPrice to the report's totals |
| TicketTrackingPage.TotalsMatchAttendance | src/pages/TicketTracking.tsx:35-41 | tickets sold and revenue over the records equal the sums over the per-customer report |
| TicketTrackingPage.TotalsAppend | src/pages/TicketTracking.tsx:35-41 | the sums over two record lists together add up |
| TicketTrackingPage.UniqueCustomers | src/pages/TicketTracking.tsx:43-45 | the unique-customer count is at most the number of records, and 0 exactly when there are none |
| TicketTrackingPage.EmailsBound | src/pages/TicketTracking.tsx:43-45 | there are no more distinct emails than records |
| TicketTrackingPage.KeysCount | src/hooks/useTicketTracking.ts:123 | a map with unique keys has as many keys as entries |
| TicketTrackingPage.KeyedIffPurchased | src/hooks/useTicketTracking.ts:122-150 | the report has an entry for an email exactly when some record has that email |
| TicketTrackingPage.UniqueCustomersMatchesAttendance | src/pages/TicketTracking.tsx:43-45 | the unique-customer count equals the number of report entries |

## Left out

- Concurrency. Two requests can interleave the read-then-write `sold` update and the
  validator's lookup-then-update. Each call is modelled as one sequential step over the store.
- Rendering and formatting: JSX, toasts, `console` logging, `toFixed`/`toLocaleString`, date
  formatting, and the CSV export of `src/pages/TicketTracking.tsx:47-68`.
- External libraries. DOMPurify's `sanitizeInput.text` is an uninterpreted `sanitize`
  parameter. URL parsing (`sanitizeInput.url`) is not modelled. PDF and QR rendering
  (`generateTicketPDF`), and the email and invitation functions, are not part of this model.
  A failing PDF step does not skip its ticket, so it changes nothing the model tracks.
- `TicketGeneration.CreateTicketsForOrder`: the `TicketData` record built for the PDF is not
  modelled. When an order's event or ticket-type join is missing, the source dereferences
  null there and throws after the insert; the model keeps the ticket and goes on.
- Clock, randomness and RPC answers are inputs: `Date.now()`, `new Date()`, `crypto.randomUUID`,
  `Math.random`, `generateCSRFToken` and `generate_ticket_number`. Parsing a date string is an
  `Option<int>` instant supplied by the caller (`validateInput.eventDate`,
  `createMockEvent`). The ISO text of a timestamp is not modelled.
- Floating point. Prices and totals are exact reals, so rounding, NaN and Infinity are not
  modelled. `ValidQuantity` reads `Number.isInteger` on finite values only.
- `Common.ToLower` lowers ASCII letters only; Unicode case mapping is not modelled.
- `Common.IsWhiteSpace` covers the characters of ECMAScript's `\s` and `trim`. The surrogate
  handling of `length` is modelled; other UTF-16 details are not.
- `TicketTrackingHook.LatestIsMaximum`: purchase dates are compared as instants. The source
  compares `new Date(...)` values of ISO strings. On equal dates the earlier record's date is
  kept, as in the source.
- `TicketTrackingHook.Tracker.FetchTicketPurchases`: the orders query, its `events!inner` join
  and its ordering are an input list. A failed profile lookup reads as a missing profile, as
  the source's `if (profile)` does.
- `OrderService.CreateOrderInDatabase`: the source takes the `orders` row id from the database.
  The model takes it as a parameter. `created_at` and `payment_method` are not read by the core.
- `EventDatabase.FetchEvents`: rows with equal `created_at` are kept in table order. The
  database promises no particular order for them.
- `EventDatabase.UpdateEventInDatabase`: a description of `null` (as opposed to undefined) is
  not modelled. Neither is the `image_url` of `null`.
- The superseded variants of the forms are not part of this model: `CreateEventModal.tsx`,
  `EditEventModal.tsx`, the mock services and `src/pages/Team.tsx`, which holds the same invite
  logic as `TeamInviteForm.tsx`. Neither are the CRUD hooks without decision logic, nor the
  `custom_query` RPC paths of `useEvents.ts`.
- The banner upload handlers (`handleBannerUpload`, `removeBanner`) of
  `SecureCreateEventModal.tsx` only set the image field and are not modelled.
- `Common.Put` and `PublicEventPage.OrderItems`: JavaScript lists an object's integer-like keys
  (such as "1" and "2") first, in ascending numeric order, and the other keys after them in
  insertion order. The model keeps every key in insertion order. This changes the order of
  `Object.entries` only when a key is integer-like, as the ticket-type ids '1' and '2' of the
  sample event in `src/hooks/useEvents.ts` are; UUID ids and the `Map` of the tracking hook are
  not affected.
- `PublicEventPage.Page.Purchase`: `src/services/eventService.ts` exports no
  `createOrderInDatabase`, so the page's import has nothing behind it. The model sends the
  purchase to `OrderService.CreateOrderInDatabase` instead, and does not model the failure
  of the missing import.
- `EventHelpers.CreateMockEvent`: the source reads the clock in separate `new Date()` calls
  (the event's `created_at` and `updated_at`, and each ticket type's `created_at`, at
  `src/utils/eventHelpers.ts:16-17` and `:28`). The
  model uses one reading, `nowIso`, for all of them.
- `TicketGeneration.ItemsOfOrder`: the `order_items` embedded in the order query are taken in
  table order. PostgREST does not promise an order for embedded rows, so the tickets may be
  minted in a different item order.
