# Swiggy expense tracker: order sync and dashboard aggregation

This project is a Dafny model of the two parts of the Swiggy expense tracker
browser extension that contain real logic. Each part is proved against a
specification.

- **The order sync** is `fetchAllOrders` in the content script, together with
  its `fetchData` message reply. It is a loop that pages through the
  order-listing endpoint. A cursor holds the last `order_id` seen. The loop
  stops after 50 pages at most. It filters each page to an inclusive window of
  days. It stops early in four ways:
  - a page whose last raw order is older than the start date;
  - an empty page;
  - a malformed body;
  - a failed or throwing request.

  At the end it overwrites the stored orders wholesale.
- **The dashboard aggregation** is `processAndRender` and the data preparation
  of its two charts and its table. One `forEach` pass builds:
  - the total;
  - the largest order, starting from a `{ net_total: 0 }` sentinel and replaced
    only on a strictly larger amount;
  - the per-restaurant counts and the per-`YYYY-MM` spend, both kept in
    dictionaries.

  From these the page shows four cards, a line chart of the months sorted as
  strings, a doughnut chart of the five most frequent restaurants, and the
  first ten orders. `loadData` reads storage and skips rendering for an empty
  list.

The files:

- `orders.dfy` (module `Orders`) holds the raw order record and the tolerant
  field look-ups (`net_total || order_total || 0`, the restaurant name chain,
  the two ways of reading the order time). JavaScript truthiness is written out
  in full. The restaurant name is
  `restaurant_name || (restaurant ? restaurant.name : 'Unknown')`, so an order
  whose `restaurant` object has no `name` is counted under `"undefined"`.
- `text.dfy` (module `Text`) holds JavaScript's default string order, the
  decimal rendering of integers, and `padStart`.
- `tallies.dfy` (module `Tallies`) models a JavaScript object used as a
  dictionary. It is an association list in insertion order.
- `storage.dfy` (module `Storage`) models `chrome.storage.local` as a class
  with the two keys the extension uses.
- `content.dfy` (module `Content`) holds the sync loop as a method. The method
  is proved against `SyncRun`, a predicate that fixes the run uniquely, and
  `Gathered`, the result it must return.
- `ranking.dfy` (module `Ranking`) holds the month-axis sort, the stable sort
  by count with its top five, and the table slice.
- `dashboard.dfy` (module `Dashboard`) holds the aggregation loop as a method.
  The loop is proved against recursive specification functions. The module
  also holds the view a non-empty list produces (`Presents`) and the page
  class with `loadData` and the "Sync Data" button handler, which ties the two
  parts together.

The endpoint is a parameter, `server(n, request)`: the response to the `n`-th
request of a run. A server whose answers change between calls is therefore
covered. The clock reading stored as `last_synced` is a parameter as well, and
so is the browser's local calendar (`cal`, from an instant to a year and a
month).

## Model

| member | source | states |
|---|---|---|
| Orders.AmountResolution | scripts/dashboard.js:114 | The resolved amount is 0 exactly when neither `net_total` nor `order_total` is truthy. Otherwise it is one of those two fields, and a truthy `net_total` wins. A bare `{}` resolves to amount 0, name "Unknown" and an Invalid Date. |
| Orders.NameResolution | scripts/dashboard.js:118 | A truthy `restaurant_name` wins. Otherwise only the nested object matters: a missing object gives "Unknown", and an object without a name gives "undefined". |
| Content.FilterExact | scripts/content.js:38-43 | A page's filter keeps exactly the orders the callback accepts. Each kept order appears as often as in the page, so nothing is de-duplicated. |
| Content.FilterConcat | scripts/content.js:38-45 | Filtering a concatenation filters each part in place, so the filter never reorders orders. |
| Content.CollectOrders | scripts/content.js:7-74 | The loop's requests form a `SyncRun`: 1 to 50 requests; the first has no cursor; each later one carries the `order_id` of the last raw order of the previous non-empty, well-formed page; every page but the last lets the loop continue; below the cap, the last page stops it. The result is the page-order concatenation of the filtered pages (`Gathered`). |
| Content.FetchAllOrders | scripts/content.js:6-93 | The result comes from such a run. The stored `swiggy_orders` becomes exactly this result and `last_synced` the clock reading; reading the store back (`data.swiggy_orders \|\| []`) gives this result, so no earlier order survives. |
| Content.FetchData | scripts/content.js:96-103 | The reply to `fetchData` is `{success: true, count}`, where `count` is the length of the list just stored. |
| Content.DayWindowIsInclusive | scripts/content.js:13-17 | With both days set, an order with a time is kept exactly when `startOfDay(start) <= order_time <= endOfDay(end)`. The end bound is the millisecond before the next day starts. |
| Content.MissingTimeIsKept | scripts/content.js:39-42 | An order without `order_time` passes every window, because an Invalid Date fails both comparisons. |
| Content.GatheredInWindow | scripts/content.js:38-45 | Every order of the result passes the filter. On each side that has a bound, its time lies within that bound. |
| Content.UnboundedKeepsAll | scripts/content.js:38-45 | Without bounds the result is every fetched order, in page order, duplicates included. |
| Content.EarlierPagesSurvive | scripts/content.js:27-73 | The orders kept from the first `k` pages are a prefix of the result, so a later failure discards nothing gathered before it. |
| Content.StopIsLast | scripts/content.js:49-65 | A page that is thrown, not ok, malformed, empty, or whose last raw order is older than the start date is the last page requested. |
| Content.SyncRunDetermined | scripts/content.js:21-67 | For a given window and server, exactly one request sequence satisfies `SyncRun`. |
| Storage.LocalStore.Set | scripts/content.js:87-90 | Both keys are overwritten with the new values. |
| Tallies.AddGet | scripts/dashboard.js:128 | Adding `d` under `k`, a missing key counting as 0, raises the value under `k` by `d` and leaves every other key's value unchanged. |
| Tallies.AddKeys | scripts/dashboard.js:131 | An existing key keeps its place in the key order, and a new key is added at the end. |
| Tallies.AddSum | scripts/dashboard.js:131 | The sum of the values grows by `d`. |
| Tallies.AddDistinct | scripts/dashboard.js:128 | The keys stay distinct. |
| Text.PadStart | scripts/dashboard.js:117 | `padStart` reaches the requested width, keeps the string as its suffix, and fills only in front. |
| Text.FourDigits | scripts/dashboard.js:117 | A year from 1000 to 9999 prints as exactly four digits. |
| Text.TwoDigits | scripts/dashboard.js:117 | A month padded to two places prints as its two fixed digits. |
| Text.FixedOrder | scripts/dashboard.js:154 | For fixed-width digit strings, the default string order agrees with numeric order, and equal strings mean equal numbers. |
| Text.LessTransitive | scripts/dashboard.js:154 | The default string order is transitive. `LessIrreflexive`, `LessAsymmetric` and `LessTotal` complete it to a strict total order. |
| Text.LessConcat | scripts/dashboard.js:154 | Comparing two concatenations whose first parts have equal length compares the first parts, and the second parts only on a tie. |
| Ranking.SortStringsSorts | scripts/dashboard.js:154 | `Object.keys(data).sort()` is ascending in the default string order and is a permutation of the keys. |
| Ranking.SortedKeysStrictlyIncrease | scripts/dashboard.js:154 | Sorting distinct keys lists every key once, in strictly increasing order, and nothing else. |
| Ranking.MonthlySeries | scripts/dashboard.js:154-155 | The labels are the keys in ascending order. Each value is the one stored under its label. |
| Ranking.SortByCountSorts | scripts/dashboard.js:187 | The entries sorted by `b[1] - a[1]` are in non-increasing count order and are a permutation of the entries. |
| Ranking.SortByCountIsStable | scripts/dashboard.js:187 | Entries with equal counts keep their first-inserted order, so ties are broken by first appearance. |
| Ranking.TopFiveIsTop | scripts/dashboard.js:187 | `slice(0, 5)` holds `min(5, n)` entries, highest count first, all taken from the counts. |
| Ranking.TopFiveKeepsTieOrder | scripts/dashboard.js:187 | Among entries of equal count, the five kept are the first ones in `Object.entries` order, in that order; a tied entry left out comes after every tied entry kept. |
| Ranking.WithCountKeys | scripts/dashboard.js:187 | When each entry holds its key's count, the keys of the entries with count `c`, in order, are exactly the keys counted as `c`, in order. |
| Ranking.TopFiveLeavesOutLower | scripts/dashboard.js:187 | No entry left out has a higher count than an entry kept. |
| Ranking.FirstRows | scripts/dashboard.js:145 | The table gets `min(10, n)` orders, a prefix of the stored list. |
| Dashboard.MonthKeyShape | scripts/dashboard.js:117 | For a four-digit year the month key is four year digits, `-`, and the month zero-padded to two digits: seven characters. |
| Dashboard.MonthKeyOrder | scripts/dashboard.js:117 | For four-digit years, month keys sort as strings in chronological order, and two months share a key only when they are the same month. |
| Dashboard.MaxAmount | scripts/dashboard.js:123-125 | The reference maximum is `max(0, all amounts)`: at least every amount, and either 0 or one of the amounts. |
| Dashboard.MaxOrderOf | scripts/dashboard.js:123-125 | The running candidate's `net_total` is that maximum. |
| Dashboard.MaxOrderIsFirstPeak | scripts/dashboard.js:105 | With a positive maximum, the candidate is a copy of the first order reaching it, with `net_total` replaced by the resolved amount. Every earlier order is strictly smaller. With no positive amount the `{ net_total: 0 }` sentinel remains. |
| Dashboard.NameTallyCounts | scripts/dashboard.js:118-128 | Each restaurant's count is the number of orders resolving to that name. Names appear in first-seen order, and the counts sum to the number of orders. |
| Dashboard.MonthTallySpend | scripts/dashboard.js:115-131 | Each month's value is the summed amount of its orders. Months appear in first-seen order, and the values sum to the total spent. |
| Dashboard.Aggregate | scripts/dashboard.js:102-132 | The `forEach` pass yields all of the following: the total of the resolved amounts; the counts and month sums as above; the largest-order candidate as above. |
| Dashboard.RoundedAverage | scripts/dashboard.js:137 | `Math.round(total / count)` is the integer nearest the exact average, with halves rounded up. |
| Dashboard.AverageAtMostMax | scripts/dashboard.js:137-138 | The average card never exceeds the largest-order card. |
| Dashboard.AverageNotNegative | scripts/dashboard.js:137 | With no negative amounts, the average is not negative. |
| Dashboard.MonthChart | scripts/dashboard.js:154-155 | The line chart lists every month of the orders once, in strictly increasing key order, with that month's spend. |
| Dashboard.TopChart | scripts/dashboard.js:187-199 | The doughnut shows `min(5, number of restaurants)` distinct restaurants, most frequent first, each with its true count. No restaurant left out was ordered more often than one shown. Among restaurants with equal counts, those shown are the first met in the orders, in that order. |
| Dashboard.TopTieOrder | scripts/dashboard.js:187 | Within one count, the doughnut's names are a prefix of the restaurants with that count in first-seen order. |
| Dashboard.TopChartTieExample | scripts/dashboard.js:187 | With one order from "a" and then one from "b", a doughnut showing "b" before "a" does not meet the doughnut's description. |
| Dashboard.ProcessAndRender | scripts/dashboard.js:101-146 | For a non-empty list, the view satisfies `Presents`: the cards (total, count, rounded average, maximum), the line chart, the doughnut (including which tied restaurants it shows, and in what order) and the first ten rows, all stated in terms of the orders alone. |
| Dashboard.DashboardPage.LoadData | scripts/dashboard.js:85-99 | The page's orders become the stored list, and the sync label follows a stored sync time. An empty list leaves the view as it was. Otherwise the view is `Presents` of the list. |
| Dashboard.DashboardPage.RefreshData | scripts/dashboard.js:45-80 | With a Swiggy tab open, the page ends up showing exactly the orders of the new sync run, which are also what the store reads back. The alert's count is their number, the label shows the new sync time, and the view is `Presents` of them. Without a Swiggy tab, neither the page nor the store changes. |

## Left out

- `fetch`, `response.json()` and the network: these are the `server` parameter. A thrown exception, a non-ok status and a parsed body are the three kinds of response it returns.
- The one-second pause between pages (`setTimeout`) and all console logging: they have no effect on the result.
- JavaScript `Date` parsing and the local time zone:
  - The date-picker strings are left out. The sync takes day numbers and a time-zone offset. Start and end of day are computed from these with fixed 24-hour days, so daylight-saving transitions are not modelled.
  - The local calendar used for month keys is the parameter `cal`.
  - The representable range of `Date` is not modelled.
- Floating point: amounts and times are integers. `parseFloat` on non-numeric strings (NaN) is not modelled. `Math.round` is modelled exactly for integer totals.
- Object key order: the dictionaries keep plain insertion order. JavaScript lists integer-like keys (such as a restaurant named "123") first, in numeric order; this is not modelled. It affects only the tie order of the doughnut chart.
- Names inherited from `Object.prototype`: `restaurantCounts` and `monthlySpend` are plain `{}` objects. A restaurant named "constructor" or "toString" would read an inherited function through `|| 0` and get a string count. One named "__proto__" would never be stored. The model treats every name as an ordinary key, so `NameTallyCounts` (counts summing to the number of orders) does not describe the page for such names.
- Text.Less: Dafny's `char` is a Unicode scalar value, while JavaScript's default sort compares UTF-16 code units. The two orders differ for strings with characters above U+FFFF. The month keys are ASCII, so the month axis is not affected.
- `Array.prototype.sort` is modelled as an insertion sort. This gives the same result as any stable sort with the same comparator, which is what the language requires.
- The DOM and Chart.js: element updates, chart creation and destruction, the per-row markup of `renderTable` (including the items column), and `toLocaleString` formatting. The view is the data handed to them.
- Chrome messaging in the dashboard (scripts/dashboard.js:45-80) and in the content-script listener (scripts/content.js:96-106), except the `{success, count}` reply. Whether a Swiggy tab is open is the parameter `swiggyTabOpen`. The button's label and disabled state, the alerts, and the opening of a new Swiggy tab are left out.
- The `{success: false, error}` reply of the listener: the model's storage write cannot fail, so `FetchData` always reports success.
- The date-preset buttons (scripts/dashboard.js:18-43): they only write calendar dates into input fields.
- `background.js` is not part of this model. It only handles the extension lifecycle.
- Content.Cursor: an `order_id` is modelled as a string. A missing id and the empty string are both falsy, so both make the next request the bare listing.
- Dashboard.MonthKeyOrder: the chronological-order guarantee is stated only for four-digit years. Other years print with a different number of digits and the string order differs.
