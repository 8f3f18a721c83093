# Gas-distribution inventory core, modelled in Dafny

This project models the inventory engine of a gas-cylinder distribution backend.
Shops sell cylinders of two brands (Laugfs, Litro) in three sizes. The model has
these parts:

- **Shop stock ledger.** One per shop: a list of stock lines keyed by
  (brand, type), each with available and reserved counts, stock levels, a unit
  price and a scheduled next arrival. It also keeps an append-only stock
  history, and a save hook that recomputes the ledger's total value and its
  stock alerts. This is `ShopStock.Ledger`, a class whose methods update the
  lines in place.
- **Stock service.** It normalises gas-type names, looks a line up in three
  stages, and reserves, deducts and restores stock. Each of these works either
  on a shop ledger or on a legacy single-counter record (`StockManager`).
- **Arrival scheduler.** It has running and stopped states. Its scan executes
  every due arrival of every ledger and counts the executions
  (`StockScheduler.Scheduler`).
- **Order documents** (`OrderSchema.Order`). They carry the status, payment and
  quantity enumerations and defaults, and a save hook that appends to the status
  history when the status changed.
- **Order controller** (`OrderController`):
  - order creation, where a paid order reserves stock and a failed reservation
    deletes the order again;
  - the customer's cancel action, which always restores stock;
  - the rating guards;
  - the tracking-progress percentage;
  - the pagination figures.
- **Shop schema and controller** (`ShopSchema`, `ShopController`):
  - the opening-hours check;
  - the default six-line ledger and default week a new shop gets;
  - shop creation, deletion and status update over an in-memory registry;
  - the stock filter of the nearby-shops search.

Persistent documents are in-memory objects, and "save" commits the object's
state. The current time is a parameter wherever the source reads the clock (`now`
in milliseconds; for the opening-hours check, the weekday, hour and minute;
for the scheduler, the end of the current day). Database lookups that can come
back empty are parameters that may be `null`. Examples are the shop ledger for
a shop id, the legacy record for a legacy id, and whether a shop or sales agent
exists. A price lookup that may find nothing is an `Option`.

Where the service returns `undefined`, the model writes `Absent`. That happens
when it is called with neither a shop id nor a legacy id. The controllers then
read `.success` of `undefined`, so that path ends in their catch block and a 500
response. For cancelling, the message is "Error canceling order", because it is
built as `${action}ing`.

Two places where the code and the intended behaviour differ are recorded under
"## Findings". The model then uses the corrected behaviour.

Notes on how the code behaves, where a reading of its intent might suggest
otherwise:

- The service's `reserveStock` moves the quantity from available to reserved.
  The ledger's own `reserveStock` only raises the reserved count, after checking
  available minus reserved. Both are modelled, separately
  (`StockManager.ReservedLine`, `ShopStock.Ledger.ReserveStock`).
- The service's `checkStockAvailability` compares the request with the
  available count alone, and so does the reservation that follows. A positive
  check therefore means the reservation succeeds, whenever both look at the
  same line (`StockManager.AvailableMeansReservable`). They can look at
  different lines: the check always looks up the converted type, while the
  reservation first tries the type as given. A ledger holding both a "2.3kg"
  and a "Small" line is the one case where this matters
  (`StockManager.CheckAndReserveDisagree`). The ledger schema admits only
  Small, Medium and Large as a line's type, so that ledger is not one the
  schema accepts. On a ledger it accepts, a request for a size spelling finds
  no verbatim line, and a request for a size name is its own converted name
  (`StockManager.SizeNamesFixed`), so the lemma's precondition holds.
- Cancelling an order always calls `restoreStock`. This includes an unpaid
  cash-on-delivery order that is still Pending and never reserved anything, so
  such a cancel credits stock that was never taken. The model follows the code.
  A failed restore does not stop the cancellation.
- The scheduler's database query has no `$elemMatch`. Its three conditions may
  therefore be met by different lines of one document. The scan loop applies the
  same three conditions per line, so only due lines are executed.

## Model

| member | source | states |
|---|---|---|
| Text.Trim | services/StockManager.js:16 | `trim` leaves a string no longer than its input that neither starts nor ends with white space, and keeps a first character that is not white space |
| Text.TrimStartSuffix | services/StockManager.js:16 | trimming the front removes only white space: the result is a suffix of the input and every character dropped before it is white space |
| Text.TrimEndSuffix | services/StockManager.js:16 | trimming the end removes only white space: every character after the kept prefix is white space |
| Text.ToLower | services/StockManager.js:16 | lower-casing keeps the length and maps each character through the ASCII lower-case map |
| Text.ToLowerIdempotent | services/StockManager.js:16 | lower-casing twice is lower-casing once |
| Text.RemoveFirst | schema/Shop.js:115-116 | `replace(':', '')` returns a string without a colon unchanged and removes exactly one character from any other |
| Text.RemoveFirstSplit | schema/Shop.js:115-116 | removing the first colon from a colon-free prefix, a colon and a rest gives the prefix followed by the rest |
| Text.ParseInt | schema/Shop.js:115-116 | `parseInt` yields NaN exactly when no digit follows the leading white space and optional sign |
| Text.ParseNumeral | schema/Shop.js:115-116 | a non-empty all-digit string parses to its decimal value |
| Text.ClockReading | schema/Shop.js:110-116 | an "HH:MM" string with its colon removed parses to HH*100+MM, the scale the current time is compared on |
| Text.NatToString | services/StockManager.js:110 | a non-negative number written with `${}` is a non-empty digit string whose decimal value is that number |
| Text.IntToStringParses | services/StockManager.js:110 | a number written out in a message reads back as the same number |
| Text.ParseNegative | services/StockManager.js:110 | a minus sign followed by a numeral parses to the negated value |
| ShopStock.FindLine | schema/ShopStock.js:209-211 | `findIndex` gives the first line with the (brand, type) key, and nothing exactly when no line has it |
| ShopStock.FindLineUnique | schema/ShopStock.js:209-211 | with unique keys, looking up a line's key finds that very line |
| ShopStock.TotalValueAppend | schema/ShopStock.js:175-177 | the total value of two line lists joined is the sum of their values |
| ShopStock.TotalValueUpdate | schema/ShopStock.js:175-177 | replacing one line changes the total value by that line's change in available × price |
| ShopStock.AlertFor | schema/ShopStock.js:180-202 | a line raises out_of_stock iff it is empty and on sale; otherwise low_stock iff it is below its minimum and on sale; otherwise overstocked iff it is above its maximum |
| ShopStock.AlertsAtMostOnePerLine | schema/ShopStock.js:179-203 | the rebuilt alert list has at most one alert per line |
| ShopStock.AlertsComplete | schema/ShopStock.js:179-203 | every line that meets an alert condition has its alert in the list, and every alert in the list comes from some line |
| ShopStock.ActionOf | schema/ShopStock.js:220-245 | exactly the five actions restock, sale, adjustment, return and damage are understood |
| ShopStock.UpdatedQuantity | schema/ShopStock.js:220-245 | restock and return add the quantity; sale and damage subtract it and fail when it exceeds the count; adjustment sets it; an unknown action fails; a successful result is never negative |
| ShopStock.SaleThenReturn | schema/ShopStock.js:225-236 | a sale followed by a return of the same quantity gives back the starting count |
| ShopStock.AdjustmentAbsolute | schema/ShopStock.js:231-233 | an adjustment sets the count absolutely, whatever came before |
| ShopStock.ArrivedLine | schema/ShopStock.js:363-369 | an executed arrival credits the expected quantity, marks the arrival completed with auto-update off, and keeps the key, the reservation and validity |
| ShopStock.ArrivalExecutedOnce | schema/ShopStock.js:359-386 | once executed, an arrival is never ready again, so it cannot be credited twice |
| ShopStock.ArrivalEntry | schema/ShopStock.js:371-381 | the restock entry logs the expected quantity, and its new count minus its previous count is that quantity |
| ShopStock.Ledger.constructor | schema/ShopStock.js:94-167 | a new ledger holds the given lines and an empty history, is valid, and its derived figures match its lines |
| ShopStock.Ledger.Save | schema/ShopStock.js:174-206 | the save hook sets the total value to the sum over the lines and rebuilds the alerts from empty; the lines and the history are unchanged |
| ShopStock.Ledger.GetAvailableStock | schema/ShopStock.js:265-270 | the unreserved count of the first matching line, or 0 when none matches |
| ShopStock.Ledger.UpdateStock | schema/ShopStock.js:208-263 | a missing line changes nothing at all; a failed action changes no line and no history; otherwise exactly the matching line gets its new count (and restock date for a restock), one entry with the old and new counts is logged, and the ledger stays valid; the shop id is always kept |
| ShopStock.Ledger.ReserveStock | schema/ShopStock.js:272-287 | fails with no change when the line is missing or available minus reserved is below the quantity; otherwise only that line's reserved count rises by the quantity; the history, the shop id and the editor are always kept |
| ShopStock.Ledger.ReleaseReservation | schema/ShopStock.js:289-301 | the reserved count becomes max(0, reserved − quantity); the available count, the other lines, the history, the shop id and the editor are untouched |
| ShopStock.Ledger.ScheduleNextArrival | schema/ShopStock.js:303-323 | the line's arrival is overwritten by a scheduled, auto-updating one with the given date, quantity and notes; no other line, the history, the shop id and the editor are untouched |
| ShopStock.Ledger.CancelNextArrival | schema/ShopStock.js:325-352 | only a scheduled arrival becomes cancelled with auto-update off, with one zero-quantity adjustment entry logged; any other status changes nothing; the shop id and the editor are kept |
| ShopStock.Ledger.ExecuteArrival | schema/ShopStock.js:354-387 | a ready arrival is credited once, completed, and logged as one restock entry, and `true` is returned; otherwise `false` and nothing changes; the shop id and the editor are kept |
| StockManager.GasStock.constructor | services/StockManager.js:139-158 | the legacy record holds its name, brand, type and counter |
| StockManager.ConvertGasType | services/StockManager.js:14-49 | each spelling of a size (after lower-casing and trimming) becomes its size name; anything else is returned unchanged |
| StockManager.ConvertGasTypeExact | services/StockManager.js:14-49 | a size name comes back exactly for a spelling of that size |
| StockManager.ConvertGasTypeIdempotent | services/StockManager.js:14-49 | converting twice is converting once |
| StockManager.SizeNamesFixed | services/StockManager.js:19-40 | the size names Small, Medium and Large map to themselves |
| StockManager.FindLoose | services/StockManager.js:73-76 | the first line matching brand and type case-insensitively, and nothing exactly when none does |
| StockManager.FindGasStock | services/StockManager.js:54-79 | an exact match wins; when there is none, an exact match on the converted type wins; only when neither exists is the first case-insensitive match taken; nothing is found exactly when no line matches in any of the three ways |
| StockManager.FindStaged | services/StockManager.js:58-78 | the three stages for a given converted type, in the source's order of precedence: exact, then exact on the converted type, then loose; nothing exactly when none exists |
| StockManager.FindConvertedSameLine | services/StockManager.js:54-79 | when no line carries the verbatim type, looking up the converted type finds the same line |
| StockManager.TypesOfBrand | services/StockManager.js:102-105 | the listed types are exactly the types the ledger holds for the brand |
| StockManager.ReservedLine | services/StockManager.js:109-115 | reservation fails exactly when available is below the quantity, with the "Insufficient stock" message; otherwise it moves the quantity from available to reserved and changes nothing else |
| StockManager.DeductedLine | services/StockManager.js:200-209 | when reserved covers the quantity only reserved drops; otherwise available drops, failing exactly when neither count covers it |
| StockManager.RestoredLine | services/StockManager.js:281-286 | available always rises by the quantity; reserved drops by it only when it covers it; nothing else changes |
| StockManager.OnHandAccounting | services/StockManager.js:114-115 | reserving keeps available + reserved constant; deducting lowers it by exactly the quantity (see also lines 200-209) |
| StockManager.ReserveThenRestore | services/StockManager.js:114-115 | reserving and then restoring the same quantity gives back the line exactly (see also lines 281-286) |
| StockManager.ReserveThenDeduct | services/StockManager.js:114-115 | reserving and then deducting takes the quantity from available once, leaving reserved as before (see also lines 200-204) |
| StockManager.DeductThenRestoreUnreserved | services/StockManager.js:205-209 | deducting from an unreserved line and restoring gives back the line exactly (see also lines 281-286) |
| StockManager.ChangedLinesStayValid | services/StockManager.js:109-115 | reserve, deduct and restore never make a count negative (see also lines 200-209 and 281-286) |
| StockManager.ReserveChange | services/StockManager.js:99-128 | a missing line fails with the message listing the brand's types; otherwise the result is `ReservedLine` on the found line, logged as a "reserved" entry with the counts before and after |
| StockManager.DeductPreviousAsWrittenMisreports | services/StockManager.js:200-222 | for a line with 15 available and 5 reserved, deducting 5 from the reservation logs 20 as the previous available count, although it was 15 |
| StockManager.DeductChange | services/StockManager.js:189-222 | a missing line fails with the type list; otherwise the result is `DeductedLine` on the found line, and its entry records the count before the deduction |
| StockManager.RestoreAction | services/StockManager.js:289 | the logged action is "return" exactly when the lower-cased reason mentions "return", else "cancellation" |
| StockManager.RestoreChange | services/StockManager.js:270-300 | only a missing line fails; otherwise the result is `RestoredLine` on the found line, logged with the action from the reason |
| StockManager.ApplyChange | services/StockManager.js:130 | writing a change replaces exactly one line, appends exactly one entry and keeps the ledger valid (see also lines 226 and 304) |
| StockManager.ReserveStock | services/StockManager.js:88-169 | with a shop id: a missing ledger or a failed `ReserveChange` changes nothing and reports the message; a success applies the change. With only a legacy id: a missing record or a short counter fails with no change; otherwise the counter drops by the quantity. With neither: undefined. Whatever fails, neither stock record changes. The other backend is never touched, and the ledger's shop id and editor and the record's name, brand and type are kept |
| StockManager.DeductStock | services/StockManager.js:178-249 | on a ledger the result and new state follow `DeductChange`; the legacy path is a success that changes nothing; with no id the result is undefined; the ledger's shop id and editor are kept |
| StockManager.RestoreStock | services/StockManager.js:259-336 | on a ledger the result and new state follow `RestoreChange` with the default reason "Order cancelled"; the legacy path raises the counter by the quantity; a missing record fails with no change; with no id the result is undefined; the ledger's shop id and editor and the record's name, brand and type are kept |
| StockManager.LinesOf | services/StockManager.js:348-351 | the lines of the ledger found for a shop, or nothing when none was found |
| StockManager.GetAvailableStock | services/StockManager.js:344-373 | no shop id gives undefined; a missing ledger or line fails; otherwise available, reserved and their sum as the total |
| StockManager.VerdictFor | services/StockManager.js:395-398 | available iff the count covers the request; shortage = max(0, requested − available) (see also lines 410-413) |
| StockManager.CheckStockAvailability | services/StockManager.js:381-425 | with a shop id the verdict is on the available count of the line found for the converted type; with a legacy id it is on the counter; missing records fail; with neither id there is no answer |
| StockManager.CheckAndReserveDisagree | services/StockManager.js:54-79 | on a ledger with an empty "2.3kg" line and a "Small" line of 5, three "2.3kg" cylinders pass the availability check but their reservation is refused (see also lines 386-398) |
| StockManager.AvailableMeansReservable | services/StockManager.js:386-398 | when the check and the reservation look at the same line (no line carries the type as given, or the type is its own converted name), a positive availability check on a ledger means the reservation of the same request succeeds (see also lines 99-115) |
| StockScheduler.ScanLine | utils/stockScheduler.js:56-64 | a line that does not fire is left as it was; a line that fires is arrived; the key and validity are kept |
| StockScheduler.ScanLines | utils/stockScheduler.js:55-74 | the scan treats every line of a ledger independently and keeps their number and order |
| StockScheduler.Fired | utils/stockScheduler.js:62-64 | the number of executed lines never exceeds the number of lines |
| StockScheduler.ScanEntries | utils/stockScheduler.js:62 | a scan logs one restock entry per executed line (see also schema/ShopStock.js:371-381) |
| StockScheduler.RescanFiresNothing | utils/stockScheduler.js:56-57 | a second scan at the same instant executes nothing (see also lines 98-101) |
| StockScheduler.RescanChangesNothing | utils/stockScheduler.js:56-57 | scanning twice at the same instant is scanning once (see also lines 98-101) |
| StockScheduler.ScanCreditsFiredLines | utils/stockScheduler.js:56-64 | exactly the lines that fire are credited with their expected quantity; the others keep their count |
| StockScheduler.DueLaterTodayWaits | utils/stockScheduler.js:43 | an arrival dated later today passes the scan's filter but is not executed until its time (see also lines 56-59 and schema/ShopStock.js:364) |
| StockScheduler.Snapshot | utils/stockScheduler.js:54-55 | the lines of each ledger, one list per ledger, in order |
| StockScheduler.ScanLedger | utils/stockScheduler.js:55-74 | the line loop leaves the lines as `ScanLines` of the old lines, appends `ScanEntries`, and returns exactly the number that fired |
| StockScheduler.ScanDocument | utils/stockScheduler.js:46-55 | only a ledger the query selects is scanned, its lines becoming `ScanLines` and its history growing by `ScanEntries`; any other is left unchanged and counts 0 |
| StockScheduler.ScanAt | utils/stockScheduler.js:56-64 | one loop step changes at most the line at its index, and reports whether it fired |
| StockScheduler.HistorySnapshot | utils/stockScheduler.js:54-55 | the history of each ledger, one list per ledger, in order |
| StockScheduler.Scheduler.constructor | utils/stockScheduler.js:4-7 | a new scheduler is stopped, with no timer |
| StockScheduler.Scheduler.CheckAndExecuteArrivals | utils/stockScheduler.js:39-85 | every ledger ends as its scanned lines with the scan's restock entries appended to its history and stays valid, and the count returned, which stands for the figure the source logs (it returns nothing), is the total fired over all ledgers |
| StockScheduler.Scheduler.Start | utils/stockScheduler.js:10-26 | starting while running changes no ledger and keeps the one timer; otherwise it scans once (lines and histories as in the scan), arms the given timer and sets the running flag |
| StockScheduler.Scheduler.Stop | utils/stockScheduler.js:29-36 | stopping clears the timer and the running flag |
| StockScheduler.Scheduler.ExecuteArrivalsNow | utils/stockScheduler.js:98-101 | an on-demand run is the same scan, lines, histories and count, whatever the running state; the count stands for the logged figure |
| StockScheduler.Scheduler.GetStatus | utils/stockScheduler.js:104-110 | the status reports the running flag, whether a timer is armed, and "Running every hour" exactly when it is |
| OrderSchema.ParseStatus | schema/Order.js:52-56 | a status string is accepted only if it names one of the seven statuses |
| OrderSchema.ParseStatusName | schema/Order.js:52-56 | every status reads back from its stored name |
| OrderSchema.HookEntry | schema/Order.js:84-89 | the hook's entry carries the new status, the save time and "system" |
| OrderSchema.HistoryAfterSave | schema/Order.js:81-91 | exactly one entry for the new status is appended when it differs from the saved one, none otherwise, and the existing entries are kept |
| OrderSchema.SaveTwiceLogsOnce | schema/Order.js:82 | saving again without a status change adds nothing |
| OrderSchema.SaveLogsEachChange | schema/Order.js:81-91 | two saves with two different statuses log both, in order |
| OrderSchema.Order.constructor | schema/Order.js:19-75 | a new order has the given fields, an empty history, no rating, no cancellation reason and refund 0 |
| OrderSchema.Order.Save | schema/Order.js:81-91 | the history becomes `HistoryAfterSave` of the old history; no other field changes |
| OrderController.OrElse | controller/OrderController.js:240 | `value \|\| fallback`: an absent or empty string falls back (see also line 248) |
| OrderController.OrderBook.constructor | controller/OrderController.js:105-116 | the collection starts empty |
| OrderController.Without | controller/OrderController.js:137 | the deleted order is gone, every other order stays, nothing is added, and a collection without it is unchanged |
| OrderController.WithoutAppended | controller/OrderController.js:116 | deleting the order just added gives back the collection as it was (see also line 137) |
| OrderController.InitialPayment | controller/OrderController.js:37-41 | a legacy order is always payment-pending; a new-format order takes the status it was sent, default pending; the method defaults to cash on delivery (see also lines 94-97) |
| OrderController.LegacyOrdersNeverReserve | controller/OrderController.js:96 | a legacy order is never paid at creation, so it never reserves (see also line 119) |
| OrderController.StoreOrder | controller/OrderController.js:105-116 | the new order is appended, pending, with the given fields and one history entry for Pending |
| OrderController.CreateLegacyOrder | controller/OrderController.js:53-116 | a missing id or record gives 404; a short counter gives 400 "Insufficient stock available", then a missing price 400 "Price not available for this gas type", each with nothing changed; otherwise the counter drops by the quantity and a pending order with the record's type and brand, priced at price × quantity, is stored; the record's name, brand and type are kept |
| OrderController.PlacePaidOrder | controller/OrderController.js:105-142 | the order is stored and its stock reserved; the response is the one the reservation result maps to; a failed reservation deletes the order again and leaves every stock record as it was; otherwise the order is kept, pending, with the given fields, and the stock records change as `ReserveStock` states |
| OrderController.SettledResponse | controller/OrderController.js:127-158 | a success gives 201, a failure 400 with "Order cancelled: " and the message, an undefined result 500 |
| OrderController.Settle | controller/OrderController.js:127-142 | exactly a failed reservation removes the order just stored |
| OrderController.CreateNewOrder | controller/OrderController.js:30-52 | a named shop that does not exist gives 404 with nothing changed; an unpaid order is stored with no stock change; a paid order returns the reservation result, answers with the response that result maps to, and carries exactly the stock effects `ReserveStock` states (see also lines 105-143) |
| OrderController.CreateOrder | controller/OrderController.js:9-160 | 201 means a pending order was stored; any other code but 500 leaves the collection unchanged; a legacy order never gives 500, never touches a ledger and has the legacy outcomes of `CreateLegacyOrder`; a new-format order has the outcomes of `CreateNewOrder`, with the reservation result returned; a refused order leaves the ledger's lines and history and the legacy counter as they were |
| OrderController.ReserveAndCompensateAsWritten | controller/OrderController.js:119-135 | as written: when only a legacy id is set and its counter is short, the reservation fails and the counter is still credited with the order quantity |
| OrderController.UpdateOrderStatus | controller/OrderController.js:219-268 | a missing order gives 404, another action 400, a status other than Pending or Confirmed 400, each with no change to the order or either stock record; a cancellable order is cancelled as `CancelOrder` states; the ledger's shop id and editor and the legacy record's name, brand and type are always kept |
| OrderController.CancelOrder | controller/OrderController.js:239-264 | stock is restored (`RestoreChange` on a ledger for a shop order, +quantity on the legacy record otherwise) and the record not used is left as it was; the order is cancelled with its reason, one history entry and 200, even when the restore failed, and its customer, ids, details, payment, rating and refund are kept; with no stock id, 500 and nothing changed |
| OrderController.RatingCheck | controller/OrderController.js:277-293 | accepted iff the rating is in 1..5, the order is delivered and not yet rated; each refusal has its own code and message, in the source's order |
| OrderController.RateOnce | controller/OrderController.js:291-299 | after an accepted rating every further valid rating is refused as already rated |
| OrderController.RateOrder | controller/OrderController.js:271-307 | an accepted rating is recorded with its review and time and gives 200, and no other field of the order changes; a refusal changes nothing; the status history is not touched |
| OrderController.StepIndex | controller/OrderController.js:330-331 | the index lies in −1..4 and is −1 exactly for Cancelled and Returned |
| OrderController.Round | controller/OrderController.js:337 | `Math.round` of a quotient: the nearest integer, halves rounded up |
| OrderController.Progress | controller/OrderController.js:332-337 | 0 for Cancelled, otherwise the rounded share of the five steps reached; never above 100 |
| OrderController.ProgressSteps | controller/OrderController.js:330-337 | each step is worth 20 percent; progress is 0 exactly for Cancelled and Returned and 100 exactly for Delivered |
| OrderController.ProgressMonotone | controller/OrderController.js:330-337 | progress strictly grows along the delivery path |
| OrderController.CeilDiv | controller/OrderController.js:208 | `Math.ceil(a / b)`: the least count of pages of size b that covers a |
| OrderController.Pagination | controller/OrderController.js:200-212 | total pages is ceil(total / limit); hasNextPage iff page < total pages; hasPrevPage iff page > 1; skip is (page − 1) × limit |
| OrderController.HasNextMeansMoreOrders | controller/OrderController.js:208-210 | there is a next page exactly when page × limit < total |
| OrderController.PagesStartInside | controller/OrderController.js:201 | every page from 1 to the last starts inside the result set (see also line 208) |
| ShopSchema.ParseShopStatus | schema/Shop.js:49-53 | a status string is accepted only if it names one of the four shop statuses |
| ShopSchema.ParseShopStatusName | schema/Shop.js:49-53 | every shop status reads back from its name |
| ShopSchema.HoursOn | schema/Shop.js:108-109 | day 0 is Sunday, 1 to 5 Monday to Friday, 6 Saturday (see also line 112) |
| ShopSchema.ClockTime | schema/Shop.js:115-116 | a missing time, an empty one, or one that is empty once its colon is removed reads as the fallback; otherwise the time with its colon removed is parsed |
| ShopSchema.IsOpen | schema/Shop.js:104-119 | closed unless active; closed on a closed day; otherwise open iff both times read and open ≤ hour×100+minute ≤ close |
| ShopSchema.OpenBetween | schema/Shop.js:110-118 | with "HH:MM" times the shop is open from the opening minute to the closing minute, both included |
| ShopSchema.ClockTimeOf | schema/Shop.js:115-116 | an "HH:MM" time reads as HH×100+MM |
| ShopSchema.MissingTimesMeanAllDay | schema/Shop.js:115-116 | with neither time set, an open day covers every minute of the day (0 to 2359) |
| ShopController.InitialLine | controller/ShopController.js:72-82 | a default line is empty, with minimum 10, maximum 100, on sale, no restock date and default arrival, with the table's brand, type, size and price |
| ShopController.DefaultLines | controller/ShopController.js:64-84 | the initial ledger has six lines, one per table entry, in order |
| ShopController.DefaultLinesValid | controller/ShopController.js:64-71 | the six (brand, type) keys are pairwise distinct and all counts are non-negative |
| ShopController.DefaultLinesCover | controller/ShopController.js:64-71 | every brand and size has a line in the initial ledger |
| ShopController.DefaultLedgerAllOutOfStock | controller/ShopController.js:64-84 | a new ledger is worth 0 and raises out_of_stock on each of its six lines (see also schema/ShopStock.js:174-203) |
| ShopController.EmptyLinesWorthNothing | schema/ShopStock.js:175-177 | lines that are all empty are worth 0 |
| ShopController.EmptyLinesAllOut | schema/ShopStock.js:179-203 | empty lines on sale each raise exactly their out_of_stock alert, in order |
| ShopController.DefaultHoursWindows | controller/ShopController.js:46-54 | under the default week an active shop is open 08:00–20:00 on weekdays, 08:00–18:00 on Saturday, and closed on Sunday (see also schema/Shop.js:104-119) |
| ShopController.RecordOf | controller/ShopController.js:40-62 | a new shop is active and gets the given week, or the default one |
| ShopController.CreateShop | controller/ShopController.js:5-100 | a clash on code or licence fails first, then a missing sales agent; otherwise the shop is stored with the six-line default ledger, and creation succeeds exactly when neither failure applies |
| ShopController.CreateShopKeepsValid | controller/ShopController.js:21-29 | creating a shop keeps codes and licences unique and every ledger attached to a shop (see also lines 64-84) |
| ShopController.DeleteShop | controller/ShopController.js:231-254 | deleting fails exactly for an unknown id; otherwise the shop and its ledger are both removed and the rest is kept |
| ShopController.DeleteShopKeepsValid | controller/ShopController.js:241-243 | deletion leaves no ledger without its shop |
| ShopController.CreateThenDelete | controller/ShopController.js:5-100 | creating a shop and deleting it gives back the registry as it was (see also lines 231-254) |
| ShopController.UpdateShopStatus | controller/ShopController.js:368-400 | a status outside the four fails with the list of choices, then an unknown id fails; otherwise only that shop's status changes |
| ShopController.UpdateShopStatusKeepsValid | controller/ShopController.js:368-400 | a status update keeps the registry valid |
| ShopController.AnyWanted | controller/ShopController.js:326-330 | `some` holds iff some line matches every given filter and has stock |
| ShopController.HasRequestedStock | controller/ShopController.js:324-331 | a shop without a ledger, or a search with neither filter, is kept; otherwise it is kept iff some line matches every given filter and has stock |
| ShopController.NearbyFilter | controller/ShopController.js:320-357 | the result holds exactly the candidates that pass, and never more than were found |
| ShopController.NearbyFilterAppend | controller/ShopController.js:320-357 | filtering distributes over concatenation, so the shops kept stay in the order the query returned them |
| ShopController.NoFilterKeepsAll | controller/ShopController.js:324-325 | with neither filter every candidate is kept |

## Left out

- Persistence and HTTP: database queries, saves, population of references, routes and response plumbing. Documents are in-memory objects and a save commits the state.
- Schema validation at save. The service pushes history actions "reserved" and "cancellation", which are outside the history's action list, and writes an `updatedBy` field the history schema does not declare. The model keeps the entries as pushed and does not model a save that the validator would reject. The effect is large:
  - read literally, every ledger save after the service's `reserveStock` is rejected, because of its "reserved" entry. The service's `catch` turns that into a failed reservation, so every paid order on a shop ledger would be deleted again and answered 400 "Order cancelled: " with the validation message;
  - for the same reason, a cancellation's restore reaches a ledger only when its reason contains "return". Otherwise the restore fails, and the order is still cancelled;
  - the model instead lets these saves commit, as the code's evident intent is.
- Concurrency: the code reads, modifies and saves a ledger with nothing that serialises callers. The model is one sequential actor and claims nothing about lost updates.
- Timers and logging: `setInterval`/`clearInterval`, console output and `logArrivalExecution`. A scheduler tick is a method call, and the timer handle is a parameter of `Start`.
- StockScheduler.Scheduler.CheckAndExecuteArrivals: the per-line `try`/`catch` is not modelled, because in the model `executeArrival` and its save cannot fail. The error isolation therefore does not arise.
- Pricing: the price lookup and its discount arithmetic are not part of this model. The legacy order's unit price is a parameter (`finalPrice`).
- Prices: unit prices, an order's `totalPrice`, a ledger's `totalValue` and the legacy order's `finalPrice` are JavaScript floating-point numbers. The model takes them as integers, read as whole units of the smallest currency denomination, so the two-decimal rounding of the price lookup and floating-point products are not modelled.
- OrderController.RatingCheck: a rating is an integer. A fractional rating such as 4.5, which the range check accepts, is not modelled.
- OrderController.Pagination: the defaults `page = 1` and `limit = 10` for a missing query parameter are not modelled; both are always given.
- Ids are `Option`s. The source tests ids by truthiness (`if (shopId)`), so an empty string counts as no id there; the model does not distinguish an empty id from a present one, and an absent id is `None`.
- Floating point: the haversine distance, the distance sort of the nearby search, and the running average of `Shop.updateRating`. Progress is computed on integers, and it agrees with the floating-point formula for the five steps.
- Order numbers, the estimated delivery time and the delivery information of an order, which are time, randomness and pass-through data.
- Authentication and the CRUD controllers and schemas for customers, admins, sales agents, deliveries and legacy gas stock. Also `getOrderById`, `getAllShops`, `getShopById`, `updateShop`, `assignSalesAgent`, `getOrderSummary` and the listing query of `getCustomerOrders` (its status filter, sort, limit and skip of real documents); only its page figures are modelled.
- StockManager.FindGasStock: the non-array case (`null` for a missing list) does not arise, because lines are always a sequence.
- Text.Trim: white space is the ASCII white space, U+00A0, U+2028, U+2029 and U+FEFF; the other Unicode space separators JavaScript also trims are not. The gas-type spellings are ASCII.
- Text.ToLower: case mapping is ASCII only.
- ShopStock.Alert: an alert carries its type, brand and kind. The hook's `message` text for each kind and the `createdAt` and `isResolved` defaults are not modelled.
- Text.ParseInt: decimal only; the hexadecimal prefix `parseInt` also accepts is not modelled.
- The order id passed to the service is only interpolated into a history field, so it is left out. The history entry's `updatedBy` is not modelled.
- OrderSchema.Order.constructor: the order is always created with an explicit status, as the controller does. The case of a default status that `isModified` would treat differently is not modelled.
- Quantities are natural numbers. The source does not validate an order's quantity; the schema's `min: 0` applies to stock counts. A new-format order's quantity is taken as given.
- ShopController.CreateShop: the duplicate check compares the shop code as given. The upper-casing and trimming the schema applies before saving is not modelled. It also does not model assigning the shop to the sales agent's record.
- ShopController.CreateShop: the remaining fields of a new shop (address, location, contact) are not modelled.
- OrderController.Pagination: `page` and `limit` arrive as query strings that JavaScript coerces to numbers; the model takes them as an integer and a natural number. A limit of 0 is modelled as no page count (`None`).
- trackOrder's sort of the status history by time is not modelled; the history is already in time order.
- OrderController.CreateOrder: for a refused order, the ledger is stated to keep its lines and history, and the legacy record its counter; the other fields are kept as `ReserveStock` and `CreateLegacyOrder` state.
- StockManager.ConvertGasType: its own contract gives only the forward direction; the if-and-only-if is `StockManager.ConvertGasTypeExact`. The source's lookup `weightToSize[normalizedType]` is a plain object lookup, so a type that normalises to an inherited key such as "constructor" or "__proto__" yields an object instead of the input. The loose stage of `findGasStock` then throws on `toLowerCase` when a line's brand matches, and the reservation or deduction fails with that TypeError's message. The model returns such a type unchanged and fails with the missing-line message: the same outcome, a failure with no change, with a different message.
- The confirm, deliver and return transitions of an order: the controller contains none, so only the status list and the cancel path are modelled.

## Findings

| source | as written | input that shows it | evidently intended | confidence | as-written member | corrected member |
|---|---|---|---|---|---|---|
| services/StockManager.js:217 | `deductStock` logs `previousQuantity` as the available count after deduction plus the quantity, even when the deduction came out of the reservation and the available count did not move | a line with 15 available and 5 reserved, deduct 5: the entry says 20 before and 15 after, yet available was 15 throughout | the entry records the available count before the deduction | not executed | StockManager.DeductPreviousAsWrittenMisreports | StockManager.DeductChange |
| controller/OrderController.js:127-135 | when a paid order's reservation fails and only a legacy id is set, the legacy counter is credited back by the order quantity, although the failed reservation took nothing | a legacy record with counter 1 and a paid new-format order for 3 with only that legacy id: the reservation fails and the counter ends at 4 | a failed reservation leaves the counter as it was | not executed | OrderController.ReserveAndCompensateAsWritten | OrderController.PlacePaidOrder |
