# Transaction dashboard query engine, in Dafny

This project models the data side of a personal-finance dashboard. The dashboard
reads a static list of transactions. Each transaction has a date, an amount, a
deposit/withdrawal type, a currency, an account, an industry and a state.

The model covers:

- **The store** (`src/utils/transactionUtils.ts`): date-bounded, type-filtered,
  newest-first loading; the paged window; the count; field filtering; search.
- **The pagination hook** (`src/hooks/useTransactions.ts`): the first page,
  "load more", the page count, the dashboard totals and the daily money flow.
- **The money-flow chart** (`money-flow.tsx`): buckets the daily flow into day,
  week or month labels.
- **The header** (`header.tsx`): filter removal, URL serialisation and reading
  the URL back.
- **The dashboard filter menu** (`dashboard-filter.tsx`).
- **The transactions table** (`transactions.tsx`): unique option lists,
  clearing filters, selects, and the previous/next pager.

Modules:

| module | contents |
|---|---|
| `Wrappers` | `Option` and `Result`. `Err` stands for a thrown `TypeError`. |
| `Seqs` | Order-preserving `filter` and `Array.prototype.slice`, with their algebra. |
| `Text` | Lower-casing, substring search (`includes`) and the code-unit order that `Array.prototype.sort` uses on strings. |
| `Transactions` | The record, and fixed-length day arithmetic. |
| `Store` | The utility functions over a dataset passed as a parameter. |
| `Pagination` | The hook's state as a record; every callback is a transition. |
| `Aggregation` | The dashboard summary and the per-day money flow. |
| `JsObject` | A `Record<string, string[]>` as an ordered association list, so that `Object.entries` order is kept. |
| `Header` | The header's filter state and its URL parameters. |
| `DashboardFilter` | The menu's option mapping and click handler. |
| `MoneyFlowChart` | The chart's range, granularity and buckets. |
| `TransactionsView` | The table's option lists, filter state and pager. |

Modelling choices that hold throughout:

- Optional numeric arguments follow JavaScript truthiness: `0` and an absent value both switch a bound off.
- Amounts are whole minor units.
- The array `sort` is stable, as ECMAScript 2019 requires.
- The clock, the calendar interval helpers and the date formatter are parameters.

## Model

| member | source | states |
|---|---|---|
| Transactions.TypeName | src/types/dashboard.ts:11 | The two transaction types have distinct names, `"deposit"` and `"withdrawal"`. |
| Transactions.DayStart | src/hooks/useTransactions.ts:122 | Midnight of the transaction's day: the day starts at or before the timestamp, and the timestamp falls within the day. |
| Transactions.EndOfDay | src/hooks/useTransactions.ts:45 | The last millisecond of the same day: it lies in the input's day, and the next millisecond starts the following day. It is never earlier than the input and never zero, so the end bound it produces is always active. |
| Text.Lower | src/utils/transactionUtils.ts:133 | Lower-casing keeps the length and maps each character independently; ASCII capitals become small letters and other ASCII characters are unchanged. |
| Text.LowerIdempotent | src/utils/transactionUtils.ts:133 | Lower-casing a lower-cased string changes nothing. |
| Text.ContainsIff | src/utils/transactionUtils.ts:136-137 | `includes` is true exactly when the needle occurs at some position of the haystack. |
| Text.ContainsEmpty | src/utils/transactionUtils.ts:136-137 | Every string includes the empty string. |
| Text.LessIrreflexive | src/components/dashboard/transactions/transactions.tsx:58-60 | The string order used by `.sort()` is irreflexive. |
| Text.LessTransitive | src/components/dashboard/transactions/transactions.tsx:58-60 | The string order used by `.sort()` is transitive. |
| Text.LessTotal | src/components/dashboard/transactions/transactions.tsx:58-60 | Any two distinct strings are ordered one way or the other. |
| Store.ByPeriod | src/utils/transactionUtils.ts:12-22 | The two successive date filters keep exactly the transactions on or after an active start and on or before an active end, in their order. |
| Store.InactiveBoundsKeepAll | src/utils/transactionUtils.ts:12-22 | With both bounds falsy (absent or 0), the dataset passes through unchanged. |
| Store.SortByDateDesc | src/utils/transactionUtils.ts:24-26 | The sort by `b.date - a.date` yields a newest-first permutation of its input. |
| Store.SortStable | src/utils/transactionUtils.ts:24-26 | Transactions sharing a date keep their relative order through the sort. |
| Store.SortedUnique | src/utils/transactionUtils.ts:24-26 | A newest-first order is fully determined by the order within each date. |
| Store.PresortIrrelevant | src/utils/transactionUtils.ts:76-78 | Sorting the dataset before filtering and sorting does not change the result. |
| Store.InPlaceSortUnobservable | src/utils/transactionUtils.ts:76-78 | Bound-less calls sort the shared dataset in place; later calls return what they would have returned on the unsorted dataset. |
| Store.LoadAll | src/utils/transactionUtils.ts:51-79 | `loadAllTransactions` returns a newest-first list no longer than the dataset. |
| Store.LoadAllSelects | src/utils/transactionUtils.ts:56-74 | Each transaction occurs in the result as often as in the dataset when it is within the active bounds and, if a non-empty type list is given, of a listed type; otherwise it does not occur. |
| Store.LoadAllWithinBounds | src/utils/transactionUtils.ts:58-74 | Every loaded transaction respects the active start, the active end and the type list. |
| Store.LoadAllUntyped | src/utils/transactionUtils.ts:70-78 | Without a type list, loading is the date filters followed by the sort. |
| Store.LoadTransactions | src/utils/transactionUtils.ts:4-29 | `loadTransactions` returns the `slice(offset, offset + limit)` window of the newest-first period listing, never longer than `limit`. |
| Store.WindowWithinBounds | src/utils/transactionUtils.ts:12-28 | Every transaction of a window lies within the active bounds. |
| Store.WindowsTile | src/utils/transactionUtils.ts:28 | Two consecutive windows of size `limit` make the window of size `2 * limit`, so paging neither skips nor repeats. |
| Store.FirstWindowIsPrefix | src/utils/transactionUtils.ts:28 | The window at offset 0 is the first `limit` transactions of the listing. |
| Store.TotalCount | src/utils/transactionUtils.ts:31-49 | `getTotalTransactionsCount` equals the length of the full listing for the same bounds. |
| Store.FilterTransactions | src/utils/transactionUtils.ts:93-126 | `filterTransactions` returns a subsequence of its input. A transaction is kept, with all its occurrences, iff every criterion accepts it. A missing or empty list accepts everything, as does a falsy date bound. |
| Store.FilterTransactionsIdempotent | src/utils/transactionUtils.ts:93-126 | Filtering a filtered list again with the same criteria changes nothing. |
| Store.UnconstrainedKeepsAll | src/utils/transactionUtils.ts:94-116 | Criteria with falsy dates and missing or empty lists keep the whole list. |
| Store.SearchTransactions | src/utils/transactionUtils.ts:129-139 | `searchTransactions` keeps, in order, exactly the transactions whose lower-cased account or industry contains the lower-cased term. Each kept transaction keeps all its occurrences; the others have none. |
| Store.EmptySearchKeepsAll | src/utils/transactionUtils.ts:133-137 | The empty term matches every transaction. |
| Store.SearchIgnoresTermCase | src/utils/transactionUtils.ts:133 | Searching for a term and for its lower-cased form gives the same result. |
| Store.SearchAndFilterCommute | src/utils/transactionUtils.ts:93-139 | Searching then filtering equals filtering then searching. |
| Pagination.TotalPages | src/hooks/useTransactions.ts:155 | `Math.ceil(total / 10)`: the least page count whose pages hold `total` items; zero exactly when there are no transactions. |
| Pagination.PageBounds | src/hooks/useTransactions.ts:36-46 | A page's start bound is the `startDate` parameter as given. Its end is the end of the day of the `endDate` parameter, or of the current time; a zero end stays falsy. |
| Pagination.LoadTransactionsPage | src/hooks/useTransactions.ts:33-57 | Loading a page appends the store window at offset `(page - 1) * 10` to the displayed list. It records the page, clears the loading flag, and leaves the period list and the count alone. |
| Pagination.PageAppendsBoundedWindow | src/hooks/useTransactions.ts:33-57 | Loading a page keeps what was shown as a prefix and adds at most 10 transactions, each inside the page's bounds. |
| Pagination.InitialBounds | src/hooks/useTransactions.ts:63-77 | The initial period ends at the end of the chosen or current day. It starts at the `startDate` parameter when that is truthy, and otherwise 30 days of milliseconds before the end. |
| Pagination.LoadInitialTransactions | src/hooks/useTransactions.ts:61-90 | The initial load stores the whole period newest-first and its size as the total. It shows the period's first 10 transactions (fewer if the period is shorter) as page 1, not loading. |
| Pagination.InitialLoadIgnoresPriorState | src/hooks/useTransactions.ts:61-90 | The initial load sets every state variable, so its result is the same from any prior state as from the `useState` initial values. |
| Pagination.LoadMoreTransactions | src/hooks/useTransactions.ts:144-148 | "Load more" does nothing while a load is in progress. Otherwise it loads the page after the current one at the call's own clock reading. |
| Pagination.SameDayPeriodAgrees | src/hooks/useTransactions.ts:64-73 | The period and the page bounds depend on the clock only through its day: readings on the same day, or any readings once an `endDate` parameter is given, give the same ones. |
| Pagination.LoadMoreExtendsPrefix | src/hooks/useTransactions.ts:144-148 | Take a state showing the period's first pages, loaded at one clock reading. "Load more" at another reading on the same day, with a truthy start and a non-zero end, shows exactly one more page of that period. |
| Pagination.AllPagesShowPeriod | src/hooks/useTransactions.ts:144-155 | Once the current page reaches the page count, the displayed list is the whole period. |
| Pagination.LoadMoreKeepsConsistent | src/hooks/useTransactions.ts:144-148 | "Load more" calls, each with its own clock reading on the initial load's day (or any readings with an `endDate` parameter), keep the display a prefix of the period. Each call advances the page by one. |
| Pagination.PagesConcatenate | src/hooks/useTransactions.ts:33-148 | After the initial load and one "load more" per clock reading, the display is the period's first pages concatenated, provided the readings fall on the initial load's day or an `endDate` parameter is given. |
| Pagination.ScrollingToLastPageShowsPeriod | src/hooks/useTransactions.ts:61-155 | Loading more until at least the last page, at readings as above, shows every transaction of the period exactly once, in the period's order. |
| Pagination.SmallPeriodShownWhole | src/hooks/useTransactions.ts:79-86 | A period of at most 10 transactions is displayed whole by the initial load. |
| Pagination.LaterPagesIgnoreDefaultWindow | src/hooks/useTransactions.ts:37-39 | Without a start parameter, page 2 is loaded with no lower bound. Older transactions then appear, and the display outgrows the total. |
| Pagination.LaterDayMovesPeriodEnd | src/hooks/useTransactions.ts:40-46 | Without an `endDate` parameter, a "load more" after midnight ends its period a day later than the initial load. Transactions from the new day then shift the window, and the display can outgrow the total. |
| Pagination.LoadInitialPeriod | src/hooks/useTransactions.ts:61-90 | The corrected initial load is the original one, and it also records the period bounds it used. |
| Pagination.LoadPeriodPage | src/hooks/useTransactions.ts:33-57 | The corrected page loader reads no clock. It keeps the shown prefix and appends exactly the store's window for that page within the recorded bounds: at most 10 transactions, each inside those bounds. The period and the count stay as they were. |
| Pagination.LoadMorePeriod | src/hooks/useTransactions.ts:144-148 | The corrected "load more" keeps the recorded bounds. It does nothing while loading, and otherwise loads the next page with those bounds. |
| Pagination.LoadMorePeriodExtendsPrefix | src/hooks/useTransactions.ts:144-148 | With the recorded bounds, "load more" shows exactly one more page of the period for every parameter combination. |
| Pagination.PeriodPagesConsistent | src/hooks/useTransactions.ts:144-148 | Any number of corrected "load more" calls keep the display a prefix of the recorded period and advance the page by that number, whatever the parameters and whatever the clock reads meanwhile. |
| Pagination.PeriodPagesShowPeriod | src/hooks/useTransactions.ts:61-155 | With the corrected hook, any number of pages stay consistent with the period and the total, at any clock readings. Reaching the last page shows the whole period. |
| Aggregation.DashboardData | src/hooks/useTransactions.ts:96-114 | Income is the sum of deposit amounts and expenses the sum of the other amounts. The balance is their difference. |
| Aggregation.IncomeAndExpensesPartition | src/hooks/useTransactions.ts:102-111 | Income and expenses split the transactions by type, and together they account for every amount. |
| Aggregation.AccumulateTallies | src/hooks/useTransactions.ts:121-133 | The `forEach` over `dailyData` leaves one entry per day with a transaction, holding that day's deposit and withdrawal sums. |
| Aggregation.UpsertTallies | src/hooks/useTransactions.ts:122-132 | Adding one transaction credits its day's entry, creating it when absent, and leaves the per-day sums correct. |
| Aggregation.SortFlows | src/hooks/useTransactions.ts:135-141 | Sorting the day entries by date gives an ascending permutation with the same totals. |
| Aggregation.MoneyFlowData | src/hooks/useTransactions.ts:116-142 | `moneyFlowData` lists one point per day that has transactions, in ascending date order, each with that day's sums. Its totals equal income and expenses. |
| Aggregation.MoneyFlowMatchesSummary | src/hooks/useTransactions.ts:96-142 | The money-flow totals add up to the same amount as the dashboard's income plus expenses. |
| MoneyFlowChart.DaysDiff | src/components/dashboard/overview/money-flow.tsx:58 | `differenceInDays` counts whole days, truncating toward zero in both directions. |
| MoneyFlowChart.DaysDiffAntisymmetric | src/components/dashboard/overview/money-flow.tsx:58 | Swapping the dates negates the difference. |
| MoneyFlowChart.DaysDiffWholeDays | src/components/dashboard/overview/money-flow.tsx:58 | Dates exactly `k` days apart are `k` days apart. |
| MoneyFlowChart.GranularityFor | src/components/dashboard/overview/money-flow.tsx:62-71 | Ranges of up to 31 days are daily, up to 90 weekly, and longer ones monthly. |
| MoneyFlowChart.GranularityMonotone | src/components/dashboard/overview/money-flow.tsx:62-71 | A longer range never gets a finer granularity. |
| MoneyFlowChart.Bucket | src/components/dashboard/overview/money-flow.tsx:81-99 | A label's point sums the deposits and withdrawals of exactly the flow entries whose formatted date equals the label. |
| MoneyFlowChart.ChartData | src/components/dashboard/overview/money-flow.tsx:49-101 | The chart covers the `startDate` and `endDate` parameters as given. A missing start falls back to January 1 of this year, and a missing end to now. It has one point per interval date of that range, labelled by the formatter. Each point holds the sums of the matching flow entries, and all points are zero when there is no flow. |
| MoneyFlowChart.BucketsConserve | src/components/dashboard/overview/money-flow.tsx:81-100 | With distinct labels, the buckets together hold exactly the flow whose label is on the axis. |
| MoneyFlowChart.ChartConservesTotals | src/components/dashboard/overview/money-flow.tsx:73-100 | With distinct labels, the chart's column totals equal the total flow on the chart's labels. |
| MoneyFlowChart.ChartShowsAllFlow | src/components/dashboard/overview/money-flow.tsx:73-100 | When every flow day's label is on the axis, the chart's deposits and withdrawals equal the dashboard's income and expenses. |
| JsObject.Put | src/components/dashboard/header.tsx:95-96 | Assigning a key of a copied object sets that key and leaves every other key as it was. |
| JsObject.Delete | src/components/dashboard/header.tsx:97-99 | `delete` removes the key and leaves every other key as it was. |
| JsObject.DeleteKeys | src/components/dashboard/header.tsx:97-99 | After `delete`, `Object.keys` lists the other keys in their previous order. |
| JsObject.PutKeys | src/components/dashboard/header.tsx:75 | Assigning an existing key keeps the key order; a new key goes last in `Object.entries`. |
| JsObject.DeletePutNew | src/components/dashboard/dashboard-filter.tsx:43-48 | Adding a new key and deleting it gives back the original object. |
| Header.RemoveFilter | src/components/dashboard/header.tsx:91-102 | Removing `date` clears the date range and nothing else. For another key, the call throws exactly when the key is absent. Otherwise the key's list becomes the old list without the value, in order and with the other values' repetitions kept. When that list is empty the key is deleted; the other keys keep their values and order, and the dates stay put. |
| Header.RemoveAbsentValue | src/components/dashboard/header.tsx:95-100 | Removing a value that is not in a non-empty list leaves the state unchanged. |
| Header.Serialize | src/components/dashboard/header.tsx:66-81 | The URL holds the start and end parameters when exactly two dates are selected, followed by one parameter per filter value. |
| Header.GetAll | src/components/dashboard/header.tsx:48 | `getAll` returns the values of exactly the parameters with that name, in their order, repeats included. A value occurs in the result exactly when such a parameter carries it. |
| Header.GetAllCounts | src/components/dashboard/header.tsx:48 | Each value occurs in `getAll`'s result as often as a parameter with that name carries it. |
| Header.GetAllAppend | src/components/dashboard/header.tsx:48 | `getAll` over two parameter lists one after the other gives the first list's values followed by the second's. |
| Header.GetFirst | src/components/dashboard/header.tsx:46-47 | `get` returns the first value of that name, or nothing when there is none. |
| Header.ReadParams | src/components/dashboard/header.tsx:45-64 | Reading the URL selects two dates iff both date parameters are non-empty. It activates a `transactionType` filter iff that parameter occurs, and no other filter. |
| Header.FilterParamsRoundTrip | src/components/dashboard/header.tsx:74-78 | For a well-formed filter object, `getAll(key)` on the serialised parameters returns that key's values in order. |
| Header.DatesRoundTrip | src/components/dashboard/header.tsx:45-81 | When parsing undoes formatting, serialising a date range and reading it back restores the range. |
| Header.TransactionTypeRoundTrip | src/components/dashboard/header.tsx:45-81 | Serialising a non-empty transaction-type filter and reading it back restores the filter object. |
| DashboardFilter.MapOption | src/components/dashboard/dashboard-filter.tsx:40-41 | The menu label is translated only for the transaction-type category and its two labels. Any other label passes through unchanged. |
| DashboardFilter.MenuOptionsNameTypes | src/components/dashboard/dashboard-filter.tsx:18-27 | "Depósito" and "Saque" map to the dataset's `deposit` and `withdrawal` type names. |
| DashboardFilter.HandleFilterClick | src/components/dashboard/dashboard-filter.tsx:38-51 | A click does nothing iff the mapped value is already active. Otherwise it appends the value to its category's list, creating the list if needed. Other categories, well-formedness and duplicate-freedom are kept. |
| DashboardFilter.SecondClickIgnored | src/components/dashboard/dashboard-filter.tsx:47-50 | Clicking the same option twice changes the filters only once. |
| DashboardFilter.ClickThenRemove | src/components/dashboard/dashboard-filter.tsx:38-51 | Removing the value a click just added, with the header's `removeFilter`, gives back the original filters. |
| TransactionsView.UniqueSorted | src/components/dashboard/transactions/transactions.tsx:58-60 | `Array.from(new Set(...)).sort()` is strictly ascending and holds exactly the input's values. |
| TransactionsView.Options | src/components/dashboard/transactions/transactions.tsx:58-66 | Each select's options are the distinct values of its field over all transactions, strictly ascending. |
| TransactionsView.OptionsDetermined | src/components/dashboard/transactions/transactions.tsx:58-66 | Any strictly ascending list holding exactly those values is the option list. |
| TransactionsView.ClearFilters | src/components/dashboard/transactions/transactions.tsx:68-79 | Clearing switches off both dates, empties every list and empties the search term. |
| TransactionsView.ClearedSelectsEverything | src/components/dashboard/transactions/transactions.tsx:68-79 | After clearing, filtering and searching return the whole list. |
| TransactionsView.SelectDimension | src/components/dashboard/transactions/transactions.tsx:94-150 | Choosing an option sets that field's list to the single value, or to empty for "all", and leaves every other criterion unchanged. |
| TransactionsView.SelectKeeps | src/components/dashboard/transactions/transactions.tsx:94-150 | After choosing `x`, a transaction is kept iff it passes the other criteria and its field equals `x`, or `x` is "all". |
| TransactionsView.SelectedValue | src/components/dashboard/transactions/transactions.tsx:104 | The select shows the list's first value, or "" for an empty list. Reading a missing list throws. |
| TransactionsView.SelectShowsChoice | src/components/dashboard/transactions/transactions.tsx:96-104 | After choosing an option, the select shows that option. |
| TransactionsView.RequestedPage | src/components/dashboard/transactions/transactions.tsx:253-273 | The pager shows only when idle with rows on screen. "Anterior" requests the previous page unless on page 1; "Próxima" requests the next unless on the last page. |
| TransactionsView.RequestsStayInRange | src/components/dashboard/transactions/transactions.tsx:259-270 | From a page within range, both buttons request a page within range. |
| TransactionsView.PreviousPageAppendsAgain | src/components/dashboard/transactions/transactions.tsx:259-261 | "Anterior" appends the previous page's rows again below those already shown, instead of showing that page. |
| TransactionsView.ShowPage | src/components/dashboard/transactions/transactions.tsx:259-270 | The corrected page switch reads no clock. It replaces the displayed rows with the requested page's window of the period recorded by the initial load, so every row lies within that period's bounds. It records the page and keeps the recorded bounds, the period and the count. |
| TransactionsView.ShowPageShowsThatPage | src/components/dashboard/transactions/transactions.tsx:259-270 | With the corrected switch, page `p` shows the `p`-th block of 10 transactions of the recorded period and nothing more. This holds whatever was shown before, for every parameter combination, and whatever the clock reads at the click. |
| TransactionsView.ShownPagesDisjoint | src/components/dashboard/transactions/transactions.tsx:259-270 | With the corrected switch, two different pages of a duplicate-free recorded period show no transaction in common, for every parameter combination. |

## Left out

- Amount parsing: `Number.parseFloat` and `Number` over decimal strings, and floating-point sums, are not modelled. Amounts are whole minor units, so the totals are exact.
- Time zones and daylight-saving time: days have exactly 86,400,000 ms, and `setHours` is midnight or end of day on that grid.
- Date parsing and formatting: `parseBrazilianDate`, `format` and `parse` are not modelled. The hook receives the URL dates already parsed. The header's formatter and parser are parameters, and the round-trip lemmas assume they invert each other.
- Calendar intervals and labels: `eachDayOfInterval`, `eachWeekOfInterval`, `eachMonthOfInterval` and the labels are a parameter of the chart. The chart lemmas assume the labels are distinct.
- The clock: `new Date()` and "January 1 of this year" are parameters. Each modelled call takes its own clock reading, as each call in the source reads the clock again.
- The dataset: `transactions.json` is a parameter of every store function.
- Lower-casing: `toLowerCase` is modelled for ASCII and Latin-1 capitals only; other scripts are not modelled.
- String order: strings are compared by code point, which agrees with `.sort()`'s UTF-16 order outside surrogate pairs.
- Object key order: `Object.entries` ordering of integer-like keys is not modelled. `dailyData`'s day entries are sorted by date afterwards, so their order does not matter.
- Prototype keys: the model assumes no prototype property names as keys.
- Invalid dates and `NaN` are not modelled.
- React: effect scheduling, `useMemo`/`useCallback` caching and re-renders are not modelled. A state's `isLoading` is observed only between transitions, so it is `true` only in a state built that way.
- Rendering is not modelled: JSX, Chakra components, the tags' display labels (`filterLabels`), `formatCurrency`, `formatDateTime` and `getDescription`.
- The hook API used by the table: `transactions.tsx:26-37` destructures `setSearchTerm`, `searchTerm`, `setFilters`, `filters` and `allTransactions`, and calls `useTransactions(false)`. `useTransactions.ts` returns none of these and takes no argument. The table's filter state, search term and period list are therefore inputs of the `TransactionsView` functions.
- Router navigation (`router.push`) is left out. Serialisation stops at the ordered parameter list.
- Pagination.LoadMoreExtendsPrefix: holds only for a truthy start parameter and a non-zero end, with the later clock reading on the initial load's day unless an `endDate` parameter is given. Without a start the hook pages outside the loaded period, and across midnight it moves the period's end (both under Findings).
- Pagination.LoadMoreKeepsConsistent: same restriction as LoadMoreExtendsPrefix, for every clock reading of the run.
- Pagination.PagesConcatenate: same restriction as LoadMoreExtendsPrefix, for every clock reading of the run.
- Pagination.ScrollingToLastPageShowsPeriod: same restriction as LoadMoreExtendsPrefix, for every clock reading of the run.

## Findings

| source | as written | input that shows it | evidently intended | confidence | as-written member | corrected member |
|---|---|---|---|---|---|---|
| src/components/dashboard/transactions/transactions.tsx:259-261 | "Anterior" calls `loadTransactionsPage(currentPage - 1)`, which appends that page's rows to those already displayed (`useTransactions.ts:54`). | A period of 25 transactions scrolled to page 2 shows rows 1-20. Pressing "Anterior" shows rows 1-20 and then rows 1-10 again, labelled page 1. | The table shows exactly the requested page. | not executed | TransactionsView.PreviousPageAppendsAgain | TransactionsView.ShowPageShowsThatPage |
| src/hooks/useTransactions.ts:37-39 | Without a `startDate` parameter, the initial load and the total count use a 30-day default start (lines 75-77), but later pages are loaded with no start bound. | No `startDate` parameter; 5 transactions in the last 30 days and 20 older ones. Page 1 shows the 5 and the total is 5; "load more" then appends 10 older transactions. | Every page comes from the same period as the first page and the total. | not executed | Pagination.LaterPagesIgnoreDefaultWindow | Pagination.PeriodPagesShowPeriod |
| src/hooks/useTransactions.ts:40-46 | Without an `endDate` parameter, every page load reads the clock again for the period's end. A "load more" after midnight therefore uses a period one day longer than the initial load's. | A `startDate` parameter, no `endDate`, 10 transactions in the initial period and one more on the next day; "load more" after midnight shows 11 transactions while the total says 10. | Later pages reuse the period of the initial load. | not executed | Pagination.LaterDayMovesPeriodEnd | Pagination.PeriodPagesShowPeriod |
