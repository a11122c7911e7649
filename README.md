# LibertyTour Ops order ledger, in Dafny

This project models the operations core of LibertyTour Ops, a dispatch
console for a chauffeur service. The core is three layers:

- **The order ledger** (`MockDatabase` in `services/db.ts`) holds:
  - the orders, clients, executors and an append-only audit log;
  - the order-status state machine `VALID_TRANSITIONS`;
  - the two writes: a status change and a voucher-token regeneration;
  - the read queries `getOrders` and `getStats`;
  - the start-up seed of fifty orders.
- **The data provider** (`contexts/DataContext.tsx`) keeps the current user.
  It projects the ledger's orders by role: drivers see the orders assigned to
  them, partners their own orders. It forwards writes to the ledger with the
  current user as the actor, and passes ledger errors on.
- **The pages' pure logic**:
  - the search/status filter, role flags and offered actions of the order list (`Orders.tsx`);
  - the revenue and status aggregations of the reports page (`Reports.tsx`);
  - the by-date grouping of the schedule (`Calendar.tsx`);
  - the role-filtered navigation table (`Sidebar.tsx`);
  - the voucher list (`Voucher.tsx`).

Modules:

| module | file | role |
|---|---|---|
| `Wrappers` | wrappers.dfy | `Option`, `Result`, `Outcome` |
| `Seqs` | seqs.dfy | `filter`, `reduce` sums, a stable sort, subsequences |
| `Dict` | dict.dfy | a JavaScript object used as a dictionary: insertion-ordered entries |
| `Strings` | strings.dfy | number formatting, ASCII lower-casing, `includes` |
| `Types` | types.dfy | the records and enumerations of `types.ts` |
| `Transitions` | transitions.dfy | `VALID_TRANSITIONS` and its shape |
| `Ledger` | ledger.dfy | the store, its invariant, both writes, the queries, the seed |
| `DataContext` | data_context.dfy | role projection and the provider's state |
| `OrdersPage`, `Reports`, `Calendar`, `Sidebar`, `VoucherPage` | one file each | the page logic |

Representation choices:

- **Dates.** An ISO date `YYYY-MM-DD` is a day number (`Day = int`), and a
  timestamp is a millisecond count (`Millis`). For four-digit years the
  string order of ISO dates is their chronological order. So the string sort
  of the reports page and the `Date` comparators of `getOrders` and the
  calendar are all sorts on integers.
- **Writes.** Each write method of the ledger class is proved against a pure
  function of the old orders: `UpdateStatus` and `Regenerate`. Each function
  returns either the error the source throws, or the new orders, the value
  returned and the audit entry appended. The lemmas about those functions
  carry the properties.
- **Parameters.** The clock (`now`, `today`), the random token and the random
  draws of the seed are parameters.
- **Sort.** `Array.prototype.sort` is stable, so `getOrders` is modelled by a
  stable insertion sort.

## Model

| member | source | states |
|---|---|---|
| Transitions.TableShape | libertytour-ops/libertytour-ops/services/db.ts:4-13 | a status is terminal (Completed, NoShow, Cancelled) exactly when it has no outgoing move; no status moves to itself; nothing moves back to New; every allowed move strictly raises the lifecycle stage |
| Transitions.PathStages | libertytour-ops/libertytour-ops/services/db.ts:4-13 | along a chain of allowed moves the stage rises by at least one per move |
| Transitions.PathBounded | libertytour-ops/libertytour-ops/services/db.ts:4-13 | a chain of allowed moves never repeats a status and has at most six statuses (fewer the later it starts) |
| Transitions.LongestLifecycle | libertytour-ops/libertytour-ops/services/db.ts:5-9 | New, Confirmed, Assigned, InProgress, PickedUp, Completed is a chain of allowed moves |
| Ledger.FindIndex | libertytour-ops/libertytour-ops/services/db.ts:135 | `findIndex`: -1 exactly when no order has the id, otherwise the first position holding it |
| Ledger.FindUnique | libertytour-ops/libertytour-ops/services/db.ts:135 | with unique ids the lookup of an order's id finds that order |
| Ledger.HistoryBounded | libertytour-ops/libertytour-ops/services/db.ts:147-172 | a history built by status changes traces a path of the state machine, so it holds at most five entries |
| Ledger.UpdateStatusUnknown | libertytour-ops/libertytour-ops/services/db.ts:135-136 | a status change for an unknown id fails with "not found" |
| Ledger.UpdateStatusAt | libertytour-ops/libertytour-ops/services/db.ts:138-175 | from a terminal status every change fails; a target outside the table fails with "invalid transition from … to …"; an allowed one replaces that order only: new status, the old history plus one entry (from, to, time, actor, reason), new `updatedAt`, all else kept; one ORDER / STATUS_CHANGE audit entry by the actor |
| Ledger.ReplaceKeepsInvariant | libertytour-ops/libertytour-ops/services/db.ts:172 | replacing an order by a valid one with the same id keeps ids unique and every order valid |
| Ledger.WithStatusValid | libertytour-ops/libertytour-ops/services/db.ts:165-170 | appending the entry of an allowed move to a consistent history keeps it consistent |
| Ledger.UpdateStatusKeepsInvariant | libertytour-ops/libertytour-ops/services/db.ts:134-176 | a successful status change keeps the store invariant: unique ids, each voucher belonging to its order, each history a chain of allowed moves ending at the current status |
| Ledger.RegenerateUnknown | libertytour-ops/libertytour-ops/services/db.ts:179-180 | a regeneration for an unknown id fails with "not found" |
| Ledger.RegenerateAt | libertytour-ops/libertytour-ops/services/db.ts:182-209 | an order without a voucher fails with "no voucher"; otherwise only that order's voucher changes: new token, active (a cancelled order's too), new `generatedAt`, same order id and expiry; one VOUCHER / REGENERATE_TOKEN audit entry |
| Ledger.RegenerateKeepsInvariant | libertytour-ops/libertytour-ops/services/db.ts:189-206 | a successful regeneration keeps the store invariant |
| Ledger.SeedIdInjective | libertytour-ops/libertytour-ops/services/db.ts:81 | the seeded ids `ORD-${7700 + i}` are pairwise distinct |
| Strings.NatToStringInjective | libertytour-ops/libertytour-ops/services/db.ts:81 | distinct numbers print differently |
| Ledger.SeedOrderShape | libertytour-ops/libertytour-ops/services/db.ts:54-94 | a seeded order's voucher is its own, valid 48 hours and active unless cancelled; its history is empty; its amount lies in 50..549; it has an executor exactly past Confirmed; its day offset lies in -30..6, past days being Completed or Cancelled and today InProgress |
| Ledger.SeedAppendKeepsInvariant | libertytour-ops/libertytour-ops/services/db.ts:54-94 | pushing the next seeded order onto those before it keeps ids unique and every order consistent |
| Ledger.MockDatabase.constructor | libertytour-ops/libertytour-ops/services/db.ts:21-96 | the seed: the five clients, the three executors, fifty orders built by the seed rule, an empty audit log, and the store invariant |
| Ledger.MockDatabase.GetOrders | libertytour-ops/libertytour-ops/services/db.ts:100-107 | a permutation of the stored orders, latest date first |
| Ledger.MockDatabase.GetOrdersKeepsTies | libertytour-ops/libertytour-ops/services/db.ts:103 | orders on the same date keep their stored order |
| Seqs.SortStable | libertytour-ops/libertytour-ops/services/db.ts:103 | the stable sort keeps the relative order of equal keys |
| Ledger.MockDatabase.GetStats | libertytour-ops/libertytour-ops/services/db.ts:117-130 | the total is the number of orders; `activeOrders` is the number of positions holding a NEW, CONFIRMED, ASSIGNED or IN_PROGRESS order; `completedToday` the number holding a COMPLETED order dated today; the two kinds are disjoint, so together they never exceed the total (`revenue`: see `Reports.ReportRevenueVersusStats`) |
| Seqs.FilterCount | libertytour-ops/libertytour-ops/services/db.ts:122-127 | `filter(…).length` is the number of positions whose element passes the predicate |
| Ledger.MockDatabase.UpdateOrderStatus | libertytour-ops/libertytour-ops/services/db.ts:134-176 | the store becomes what `UpdateStatus` says: on failure the error is returned and nothing changes; on success the order is replaced, the audit entry appended, the updated order returned, and the invariant kept |
| Ledger.MockDatabase.RegenerateVoucher | libertytour-ops/libertytour-ops/services/db.ts:178-210 | the store becomes what `Regenerate` says, with the same failure and success shape |
| Ledger.StatusStep | libertytour-ops/libertytour-ops/services/db.ts:134-176 | in a consistent store, a move the table allows succeeds, keeps the store consistent and its size, keeps the order at its place with its id, sets the new status and adds exactly one history entry |
| Ledger.NewHasNoHistory | libertytour-ops/libertytour-ops/services/db.ts:4-13 | no allowed move leads to New, so a consistent order still at New has an empty history |
| Ledger.StatusScenario | libertytour-ops/libertytour-ops/services/db.ts:134-176 | a New order cannot jump to Assigned; confirming it succeeds, keeps the store's size and leaves the order at Confirmed with a history of length 1; assigning it then succeeds and leaves it at Assigned with a history of length 2; completing it from Assigned is then refused as an invalid transition |
| DataContext.MockUsersMatchSeed | libertytour-ops/libertytour-ops/contexts/DataContext.tsx:29-35 | each demo user has its role; the driver is executor EX-001 and the partner client CL-101 of the seed |
| DataContext.VisibleOrders | libertytour-ops/libertytour-ops/contexts/DataContext.tsx:64-75 | the projection keeps, in order and with multiplicity, exactly the orders the user may see: a driver those assigned to them, a partner their own, every other role all |
| DataContext.DataProvider.constructor | libertytour-ops/libertytour-ops/contexts/DataContext.tsx:38-43 | the provider starts as the admin user with nothing loaded and zero stats |
| DataContext.DataProvider.RefreshData | libertytour-ops/libertytour-ops/contexts/DataContext.tsx:52-84 | after a refresh the orders are the role projection of `getOrders` for the override user or the current one, the stats are the ledger's global stats, and never fewer orders are counted than shown |
| DataContext.DataProvider.SwitchRole | libertytour-ops/libertytour-ops/contexts/DataContext.tsx:47-50 | the current user becomes the role's demo user and the orders are projected for it |
| DataContext.DataProvider.UpdateOrder | libertytour-ops/libertytour-ops/contexts/DataContext.tsx:86-94 | the ledger's status change with the current user as actor and no reason; a failure is passed on with the provider unchanged; a success is followed by a refresh; the ledger's clients and executors never change |
| DataContext.DataProvider.RegenerateVoucher | libertytour-ops/libertytour-ops/contexts/DataContext.tsx:96-104 | the ledger's regeneration with the current user as actor; a failure is passed on with the provider unchanged; a success is followed by a refresh; the ledger's clients and executors never change |
| OrdersPage.FilteredOrders | libertytour-ops/libertytour-ops/pages/Orders.tsx:49-55 | the rows are the orders passing the row predicate, as a subsequence of the list, with multiplicity |
| OrdersPage.MatchesIff | libertytour-ops/libertytour-ops/pages/Orders.tsx:50-54 | a row is kept exactly when the lower-cased query occurs in the lower-cased id or client name and the drop-down is "All" or the order's status |
| Strings.IncludesIff | libertytour-ops/libertytour-ops/pages/Orders.tsx:51-52 | `includes` holds exactly when the needle occurs at some position |
| OrdersPage.EmptySearchKeepsAll | libertytour-ops/libertytour-ops/pages/Orders.tsx:40-55 | the initial empty query with "All Statuses" shows every order |
| OrdersPage.StatusFilterNarrows | libertytour-ops/libertytour-ops/pages/Orders.tsx:53 | choosing one status keeps exactly the "All" rows with that status, never more |
| OrdersPage.RoleFlags | libertytour-ops/libertytour-ops/pages/Orders.tsx:83-84 | `canEdit` exactly for admin and dispatcher, `showFinancials` for all but the driver; editors see amounts and every order; drivers and partners are not editors |
| OrdersPage.AvailableActions | libertytour-ops/libertytour-ops/pages/Orders.tsx:236 | no button exactly on a terminal status; every offered target moves the order to a later lifecycle stage, never back to New and never to its current status; at most three buttons |
| OrdersPage.TerminalNoticeIff | libertytour-ops/libertytour-ops/pages/Orders.tsx:246-251 | the terminal-state notice shows exactly for Completed, NoShow and Cancelled |
| OrdersPage.ActionsAreAccepted | libertytour-ops/libertytour-ops/pages/Orders.tsx:236-240 | a target is offered exactly when the ledger accepts that change for the order; any other target is refused as an invalid transition |
| Reports.RevenueMapGet | libertytour-ops/pages/Reports.tsx:27-33 | under a date the revenue map holds the amounts of that day's completed orders, and it has no entry for a day without one |
| Reports.RevenueMapDistinct | libertytour-ops/pages/Reports.tsx:27-33 | the revenue map never lists a date twice |
| Reports.RevenueMapTotal | libertytour-ops/pages/Reports.tsx:27-33 | the revenue map's values add up to `totalRevenue` |
| Reports.RevenueMapSpec | libertytour-ops/pages/Reports.tsx:27-33 | a date is a key exactly when a completed order has it, once, with that day's revenue; the values add up to `totalRevenue` |
| Reports.ReportRevenueVersusStats | libertytour-ops/pages/Reports.tsx:55-57 | over the same order list, the `revenue` of `getStats` (the sum of every amount) equals the completed-order total the report computes plus the amounts of the orders not completed |
| Reports.SortAscendingStrict | libertytour-ops/pages/Reports.tsx:36 | distinct dates sort into strictly ascending order |
| Reports.LastSevenOfAscending | libertytour-ops/pages/Reports.tsx:37 | the tail of an ascending list ascends, and every element cut off is smaller than every element kept |
| Reports.LatestDaysSpec | libertytour-ops/pages/Reports.tsx:35-37 | of distinct dates, the latest seven (all if fewer), strictly ascending; every date left out is older than every date shown |
| Reports.RevenueDataSpec | libertytour-ops/pages/Reports.tsx:35-41 | the chart has min(7, revenue days) bars on strictly ascending revenue days, each with its day's revenue; any revenue day not shown is older than all shown |
| Reports.StatusMapGet | libertytour-ops/pages/Reports.tsx:44-47 | under a status the status map holds the number of orders in it, and no entry for an absent status |
| Reports.StatusMapTotal | libertytour-ops/pages/Reports.tsx:44-47 | the status map lists each status once and its counts add up to `totalOrders` |
| Reports.StatusMapSpec | libertytour-ops/pages/Reports.tsx:44-59 | a status is a key exactly when an order has it, once, with its count; the counts add up to `totalOrders = orders.length` |
| Calendar.GroupedGet | libertytour-ops/libertytour-ops/pages/Calendar.tsx:25-30 | under a date the grouping holds exactly that day's orders in list order, and there is no empty group |
| Calendar.GroupedTotal | libertytour-ops/libertytour-ops/pages/Calendar.tsx:25-30 | no date is listed twice and the group sizes add up to the number of orders |
| Calendar.GroupByDate | libertytour-ops/libertytour-ops/pages/Calendar.tsx:25-30 | the reduce's loop builds the grouping: distinct dates, each group that day's orders in list order, every order in exactly the group of its own date, sizes adding up to the order count |
| Calendar.DateListed | libertytour-ops/libertytour-ops/pages/Calendar.tsx:32 | a date is in `sortedDates` exactly when some order has it |
| Calendar.SortedDatesSpec | libertytour-ops/libertytour-ops/pages/Calendar.tsx:32 | `sortedDates` is strictly descending and lists each order date exactly once |
| Sidebar.AllowedItems | libertytour-ops/components/Sidebar.tsx:39 | the shown entries are the table's entries whose role list exists and contains the role, in table order |
| Sidebar.ShownToIff | libertytour-ops/components/Sidebar.tsx:20-33 | a table entry is shown to a role exactly when its page is one of the role's pages (the table read by role) |
| Sidebar.PagePathInjective | libertytour-ops/components/Sidebar.tsx:20-33 | no two pages of the table share a route |
| Sidebar.AdminSeesAll | libertytour-ops/components/Sidebar.tsx:20-39 | every table entry lists the admin, so the admin's sidebar is the whole table |
| Sidebar.AllowedPages | libertytour-ops/components/Sidebar.tsx:20-39 | the admin sees the whole table of twelve; the accountant exactly pricing and reports; the driver exactly dashboard, orders and calendar; the partner exactly dashboard, orders and voucher; the dispatcher the seven operational pages; always in table order |
| VoucherPage.ActiveVouchers | libertytour-ops/pages/Voucher.tsx:10 | the list is the subsequence of the orders that have a voucher and are not cancelled: each listed order qualifies and each qualifying order is listed |
| VoucherPage.RegenerateKeepsListing | libertytour-ops/pages/Voucher.tsx:10 | a regeneration never changes which orders the list holds |
| VoucherPage.CancelledStaysUnlisted | libertytour-ops/pages/Voucher.tsx:10 | regenerating a cancelled order's voucher makes it active, yet the order stays off the list |
| VoucherPage.SeedListingMatchesFlag | libertytour-ops/libertytour-ops/services/db.ts:75 | on a seeded order the list agrees with the voucher's `isActive` flag |
| Dict.PutKeys | libertytour-ops/pages/Reports.tsx:30 | assigning a present key keeps the key order; a new key is appended, as `Object.keys` lists them |
| Dict.PutGet | libertytour-ops/pages/Reports.tsx:30 | after `acc[k] = v`, reading `k` gives `v` and every other key is unchanged |

## Left out

- Randomness: `Math.random` in the seed and in token generation is not modelled. The day, client, route, amount, executor, status rolls and the token text are parameters (`SeedDraw`, `newToken`).
- The clock: `new Date()`, `Date.now()` and `toISOString` are parameters (`now`, `today`, `todayMs`). An audit id is the decimal text of `now` and is not unique, as in the source.
- The clock is read once per write. The source reads it separately for the history entry, the audit id, the audit timestamp and `updatedAt` (`services/db.ts:150`, `156`, `160`, `169`), and for `generatedAt`, the audit id and the audit timestamp of a regeneration (`193`, `197`, `201`). Those reads can fall on different milliseconds, so the equal timestamps that `Ledger.UpdateStatusAt` and `Ledger.RegenerateAt` state are a property of the model, not a guarantee of the source.
- The message text of thrown errors (`services/db.ts:136`, `144`, `180`, `183`) and the alert that shows it on the order page are not modelled. A failure is the `LedgerError` value, which carries the order id or the two statuses the message names.
- Time zones: `setDate` is local-time and can cross a daylight-saving change. It is modelled as adding whole days of 86 400 000 ms.
- Asynchrony: the promises and the 300 ms `setTimeout` of `getOrders` are left out; every call completes in order. The `loading` flag and the `useEffect` initial load are also left out.
- `getClients` and `getExecutors` return plain copies. `RefreshData` copies the two fields; there is nothing more to prove about them.
- `DataContext.DataProvider.RefreshData`: the source's `try/catch` that logs a failed fetch is not modelled, since the in-memory ledger never fails a read.
- The source comment at `services/db.ts:55` says the day offset runs from -30 to +7. The code `floor(random * 37) - 30` gives -30 to +6; the model follows the code.
- The seeded orders start in any status with an empty history. The model follows the code here, not the rule that an order starts in NEW.
- The reports page's `avgOrderValue` and `cancelRate` are floating-point divisions that can yield NaN or Infinity, so they are left out.
- Presentation is left out: `statusData`, `toLocaleDateString`, `Intl.NumberFormat`, the colour switches, the drawer, alerts and confirms, the optimistic drawer update, and the driver safety notice.
- `toLowerCase` is modelled for ASCII letters only.
- A date string that does not parse, giving `NaN` in the comparators, cannot occur with day numbers and is not modelled.
- The AI assistant (`geminiService.ts`, `AIAssistant.tsx`) is not part of this model.
- The order list offers the status buttons to every role; only "Create Order" depends on `canEdit`. The model states this as it is and adds no role check to `AvailableActions`.
- Sidebar icons are not modelled. A page's id, label and path are fixed per page, so each table entry is modelled as its `Page` plus its role list.
- `Reports.ReportRevenueVersusStats` relates the two revenues over one and the same list. The page aggregates the provider's list, which is sorted by `getOrders` and, for drivers and partners, projected to their own orders. For those two roles the page's total covers the visible orders only, and the model states no equation between it and the ledger's `revenue`.
- `Sidebar.AllowedPages` states each role's pages as a set plus table order (a subsequence of the table), not as a literal list. With the table's twelve distinct pages this determines the list.
