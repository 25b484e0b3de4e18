/** The dashboard page: it reads the stored orders, folds them into the
    totals, the per-restaurant counts, the per-month spend and the largest
    order in one pass, and prepares the four summary cards, the two charts
    and the table of the ten most recent orders. */
module Dashboard {
  import opened Orders
  import opened Text
  import opened Tallies
  import opened Ranking
  import opened Storage
  import Content

  // ----- the month key ----------------------------------------------------

  type Month = m: int | 1 <= m <= 12 witness 1

  /** The local calendar year and month of an instant, as `getFullYear()` and
      `getMonth() + 1` report them. */
  datatype YearMonth = YearMonth(year: int, month: Month)

  /** The browser's local calendar: which year and month an instant falls in. */
  type Calendar = int -> YearMonth

  /** `${year}-${String(month).padStart(2, '0')}` */
  function MonthKey(ym: YearMonth): string
  {
    Decimal(ym.year) + "-" + PadStart(Natural(ym.month), 2, '0')
  }

  /** The month key of an order; an Invalid Date yields NaN for both parts. */
  function OrderMonth(o: RawOrder, cal: Calendar): string
  {
    match DashboardInstant(o)
    case Invalid => "NaN-NaN"
    case At(t) => MonthKey(cal(t))
  }

  /** For a four-digit year the key is seven characters: four year digits,
      a dash and two month digits. */
  lemma MonthKeyShape(ym: YearMonth)
    requires 1000 <= ym.year <= 9999
    ensures MonthKey(ym) == Fixed(ym.year, 4) + "-" + Fixed(ym.month, 2)
    ensures |MonthKey(ym)| == 7
  {
    FourDigits(ym.year);
    TwoDigits(ym.month);
  }

  /** For four-digit years, sorting the keys as strings sorts the months
      chronologically, and two months share a key only when they are the
      same month. */
  lemma MonthKeyOrder(a: YearMonth, b: YearMonth)
    requires 1000 <= a.year <= 9999 && 1000 <= b.year <= 9999
    ensures Less(MonthKey(a), MonthKey(b)) <==> a.year < b.year || (a.year == b.year && a.month < b.month)
    ensures MonthKey(a) == MonthKey(b) <==> a == b
  {
    MonthKeyShape(a);
    MonthKeyShape(b);
    assert Pow10(4) == 10000 && Pow10(2) == 100;
    var ya, yb := Fixed(a.year, 4), Fixed(b.year, 4);
    var ma, mb := Fixed(a.month, 2), Fixed(b.month, 2);
    FixedOrder(a.year, b.year, 4);
    FixedOrder(a.month, b.month, 2);
    assert MonthKey(a) == ya + ("-" + ma) && MonthKey(b) == yb + ("-" + mb);
    LessConcat(ya, "-" + ma, yb, "-" + mb);
    LessConcat("-", ma, "-", mb);
    assert MonthKey(a) == MonthKey(b) ==> ya == yb && ma == mb by {
      if MonthKey(a) == MonthKey(b) {
        assert ya == MonthKey(a)[..4] && yb == MonthKey(b)[..4];
        assert ma == MonthKey(a)[5..] && mb == MonthKey(b)[5..];
      }
    }
  }

  // ----- what one pass over the orders computes ---------------------------

  /** The sum of the resolved amounts. */
  function TotalSpent(s: seq<RawOrder>): int
  {
    if s == [] then 0 else TotalSpent(s[..|s| - 1]) + Amount(s[|s| - 1])
  }

  /** The resolved restaurant name of each order, in order. */
  function Names(s: seq<RawOrder>): (r: seq<string>)
    ensures |r| == |s|
  {
    if s == [] then [] else Names(s[..|s| - 1]) + [RestaurantName(s[|s| - 1])]
  }

  /** The month key of each order, in order. */
  function MonthsOf(s: seq<RawOrder>, cal: Calendar): (r: seq<string>)
    ensures |r| == |s|
  {
    if s == [] then [] else MonthsOf(s[..|s| - 1], cal) + [OrderMonth(s[|s| - 1], cal)]
  }

  /** The amounts of the orders whose month key is `k`, summed. */
  function MonthSpend(s: seq<RawOrder>, cal: Calendar, k: string): int
  {
    if s == [] then 0
    else MonthSpend(s[..|s| - 1], cal, k) + (if OrderMonth(s[|s| - 1], cal) == k then Amount(s[|s| - 1]) else 0)
  }

  /** The largest resolved amount, or 0 when none is positive. */
  function MaxAmount(s: seq<RawOrder>): (m: int)
    ensures m >= 0
    ensures forall i :: 0 <= i < |s| ==> Amount(s[i]) <= m
    ensures m == 0 || exists i :: 0 <= i < |s| && Amount(s[i]) == m
  {
    if s == [] then 0
    else
      var p := MaxAmount(s[..|s| - 1]);
      var a := Amount(s[|s| - 1]);
      assert forall i :: 0 <= i < |s| - 1 ==> s[..|s| - 1][i] == s[i];
      if a > p then a else p
  }

  /** `restaurantCounts` after the first `|s|` orders. */
  function NameTally(s: seq<RawOrder>): Tally
  {
    if s == [] then [] else Add(NameTally(s[..|s| - 1]), RestaurantName(s[|s| - 1]), 1)
  }

  /** `monthlySpend` after the first `|s|` orders. */
  function MonthTally(s: seq<RawOrder>, cal: Calendar): Tally
  {
    if s == [] then []
    else Add(MonthTally(s[..|s| - 1], cal), OrderMonth(s[|s| - 1], cal), Amount(s[|s| - 1]))
  }

  /** Each restaurant is counted once per order naming it, the names appear
      in the order first seen, and the counts add up to the number of
      orders. */
  lemma {:induction false} NameTallyCounts(s: seq<RawOrder>)
    ensures forall k :: Get(NameTally(s), k) == multiset(Names(s))[k]
    ensures Keys(NameTally(s)) == FirstSeen(Names(s))
    ensures Sum(NameTally(s)) == |s|
  {
    if s != [] {
      var p, x := s[..|s| - 1], RestaurantName(s[|s| - 1]);
      NameTallyCounts(p);
      AddGet(NameTally(p), x, 1);
      AddKeys(NameTally(p), x, 1);
      AddSum(NameTally(p), x, 1);
    }
  }

  /** Each month holds the spend of its own orders, the months appear in the
      order first seen, and the months' spends add up to the total. */
  lemma {:induction false} MonthTallySpend(s: seq<RawOrder>, cal: Calendar)
    ensures forall k :: Get(MonthTally(s, cal), k) == MonthSpend(s, cal, k)
    ensures Keys(MonthTally(s, cal)) == FirstSeen(MonthsOf(s, cal))
    ensures Sum(MonthTally(s, cal)) == TotalSpent(s)
  {
    if s != [] {
      var p, x, a := s[..|s| - 1], OrderMonth(s[|s| - 1], cal), Amount(s[|s| - 1]);
      MonthTallySpend(p, cal);
      AddGet(MonthTally(p, cal), x, a);
      AddKeys(MonthTally(p, cal), x, a);
      AddSum(MonthTally(p, cal), x, a);
    }
  }

  /** `i` is where the largest order first appears: the loop replaces its
      candidate only on a strictly larger amount, so ties keep the earliest. */
  predicate FirstPeak(s: seq<RawOrder>, i: int)
  {
    && 0 <= i < |s|
    && Amount(s[i]) == MaxAmount(s)
    && MaxAmount(s) > 0
    && forall j :: 0 <= j < i ==> Amount(s[j]) < Amount(s[i])
  }

  /** `{ net_total: 0 }`, the starting candidate for the largest order. */
  const NoOrder := EmptyOrder.(netTotal := Some(0))

  datatype Aggregates = Aggregates(
    totalSpent: int,
    restaurantCounts: Tally,
    monthlySpend: Tally,
    maxOrder: RawOrder)

  lemma PrefixStep(orders: seq<RawOrder>, i: nat, cal: Calendar)
    requires i < |orders|
    ensures TotalSpent(orders[..i + 1]) == TotalSpent(orders[..i]) + Amount(orders[i])
    ensures Names(orders[..i + 1]) == Names(orders[..i]) + [RestaurantName(orders[i])]
    ensures MonthsOf(orders[..i + 1], cal) == MonthsOf(orders[..i], cal) + [OrderMonth(orders[i], cal)]
    ensures MaxAmount(orders[..i + 1]) == if Amount(orders[i]) > MaxAmount(orders[..i]) then Amount(orders[i]) else MaxAmount(orders[..i])
    ensures NameTally(orders[..i + 1]) == Add(NameTally(orders[..i]), RestaurantName(orders[i]), 1)
    ensures MonthTally(orders[..i + 1], cal) == Add(MonthTally(orders[..i], cal), OrderMonth(orders[i], cal), Amount(orders[i]))
    ensures MaxOrderOf(orders[..i + 1]) ==
      if Amount(orders[i]) > MaxAmount(orders[..i]) then orders[i].(netTotal := Some(Amount(orders[i]))) else MaxOrderOf(orders[..i])
  {
    assert orders[..i + 1][..i] == orders[..i];
  }

  /** `maxOrder` after the first `|s|` orders: a copy of the first order
      whose amount beats every earlier one, with that amount as its
      `net_total`. */
  function MaxOrderOf(s: seq<RawOrder>): (r: RawOrder)
    ensures r.netTotal == Some(MaxAmount(s))
  {
    if s == [] then NoOrder
    else
      var c := MaxOrderOf(s[..|s| - 1]);
      var a := Amount(s[|s| - 1]);
      if a > c.netTotal.value then s[|s| - 1].(netTotal := Some(a)) else c
  }

  /** The largest order shown is the earliest order of the largest amount,
      and the `{ net_total: 0 }` placeholder when no amount is positive. */
  lemma {:induction false} MaxOrderIsFirstPeak(s: seq<RawOrder>)
    ensures MaxAmount(s) == 0 ==> MaxOrderOf(s) == NoOrder
    ensures MaxAmount(s) > 0 ==>
      exists i :: FirstPeak(s, i) && MaxOrderOf(s) == s[i].(netTotal := Some(Amount(s[i])))
  {
    if s != [] {
      var n := |s| - 1;
      var p := s[..n];
      MaxOrderIsFirstPeak(p);
      assert forall j :: 0 <= j < n ==> p[j] == s[j];
      if Amount(s[n]) > MaxAmount(p) {
        assert FirstPeak(s, n);
      } else if MaxAmount(s) > 0 {
        var k :| FirstPeak(p, k) && MaxOrderOf(p) == p[k].(netTotal := Some(Amount(p[k])));
        assert FirstPeak(s, k);
      }
    }
  }

  /** The `orders.forEach` pass of `processAndRender`. */
  method Aggregate(orders: seq<RawOrder>, cal: Calendar) returns (a: Aggregates)
    ensures a.totalSpent == TotalSpent(orders)
    ensures forall k :: Get(a.restaurantCounts, k) == multiset(Names(orders))[k]
    ensures Keys(a.restaurantCounts) == FirstSeen(Names(orders))
    ensures Sum(a.restaurantCounts) == |orders|
    ensures forall k :: Get(a.monthlySpend, k) == MonthSpend(orders, cal, k)
    ensures Keys(a.monthlySpend) == FirstSeen(MonthsOf(orders, cal))
    ensures Sum(a.monthlySpend) == a.totalSpent
    ensures a.maxOrder.netTotal == Some(MaxAmount(orders))
    ensures MaxAmount(orders) == 0 ==> a.maxOrder == NoOrder
    ensures MaxAmount(orders) > 0 ==>
      exists i :: FirstPeak(orders, i) && a.maxOrder == orders[i].(netTotal := Some(Amount(orders[i])))
  {
    var totalSpent := 0;
    var restaurantCounts: Tally := [];
    var monthlySpend: Tally := [];
    var maxOrder := NoOrder;
    var i := 0;
    while i < |orders|
      invariant 0 <= i <= |orders|
      invariant totalSpent == TotalSpent(orders[..i])
      invariant restaurantCounts == NameTally(orders[..i])
      invariant monthlySpend == MonthTally(orders[..i], cal)
      invariant maxOrder == MaxOrderOf(orders[..i])
    {
      var order := orders[i];
      var amount := Amount(order);
      var monthKey := OrderMonth(order, cal);
      var restName := RestaurantName(order);
      PrefixStep(orders, i, cal);

      totalSpent := totalSpent + amount;
      if amount > maxOrder.netTotal.value {
        maxOrder := order.(netTotal := Some(amount));
      }
      restaurantCounts := Add(restaurantCounts, restName, 1);
      monthlySpend := Add(monthlySpend, monthKey, amount);
      i := i + 1;
    }
    assert orders[..i] == orders;
    NameTallyCounts(orders);
    MonthTallySpend(orders, cal);
    MaxOrderIsFirstPeak(orders);
    a := Aggregates(totalSpent, restaurantCounts, monthlySpend, maxOrder);
  }

  // ----- the cards --------------------------------------------------------

  /** `Math.round(total / count)`: the nearest integer, halves rounded up. */
  function RoundedAverage(total: int, count: int): (r: int)
    requires count > 0
    ensures 2 * count * r - count <= 2 * total < 2 * count * r + count
  {
    (2 * total + count) / (2 * count)
  }

  /** The total never exceeds the order count times the largest amount. */
  lemma {:induction false} TotalAtMostCountTimesMax(s: seq<RawOrder>)
    ensures TotalSpent(s) <= |s| * MaxAmount(s)
  {
    if s != [] {
      var p := s[..|s| - 1];
      var n, m, pm := |p|, MaxAmount(s), MaxAmount(p);
      TotalAtMostCountTimesMax(p);
      assert pm <= m && Amount(s[n]) <= m;
      MultiplyMonotone(n, pm, m);
      assert (n + 1) * m == n * m + m;
    }
  }

  lemma MultiplyMonotone(n: nat, x: int, y: int)
    requires x <= y
    ensures n * x <= n * y
  {
    assert n * y - n * x == n * (y - x);
  }

  /** The average card never shows more than the largest-order card. */
  lemma AverageAtMostMax(orders: seq<RawOrder>)
    requires |orders| > 0
    ensures RoundedAverage(TotalSpent(orders), |orders|) <= MaxAmount(orders)
  {
    TotalAtMostCountTimesMax(orders);
    RoundedAtMost(TotalSpent(orders), |orders|, MaxAmount(orders));
  }

  /** A total of at most `count * m` rounds to an average of at most `m`. */
  lemma RoundedAtMost(total: int, count: int, m: int)
    requires count > 0 && total <= count * m
    ensures RoundedAverage(total, count) <= m
  {
    var r := RoundedAverage(total, count);
    if r > m {
      MultiplyMonotone(2 * count, m + 1, r);
      assert false;
    }
  }

  /** When no order has a negative amount, neither has the average. */
  lemma AverageNotNegative(orders: seq<RawOrder>)
    requires |orders| > 0
    requires forall i :: 0 <= i < |orders| ==> Amount(orders[i]) >= 0
    ensures RoundedAverage(TotalSpent(orders), |orders|) >= 0
  {
    TotalNotNegative(orders);
  }

  lemma {:induction false} TotalNotNegative(s: seq<RawOrder>)
    requires forall i :: 0 <= i < |s| ==> Amount(s[i]) >= 0
    ensures TotalSpent(s) >= 0
  {
    if s != [] {
      var p := s[..|s| - 1];
      assert forall i :: 0 <= i < |p| ==> p[i] == s[i];
      TotalNotNegative(p);
    }
  }

  // ----- the rendered view ------------------------------------------------

  datatype Cards = Cards(totalSpent: int, totalOrders: nat, averageOrderValue: int, maxOrderValue: int)

  /** What `processAndRender` puts on the page: the cards, the line chart's
      labels and values, the doughnut's (name, count) entries, and the rows
      of the table. */
  datatype View = View(
    cards: Cards,
    monthLabels: seq<string>,
    monthValues: seq<int>,
    topRestaurants: Tally,
    table: seq<RawOrder>)

  /** The line chart: every month once, in ascending key order, each with
      the spend of its orders. */
  ghost predicate MonthChartShows(labels: seq<string>, values: seq<int>, orders: seq<RawOrder>, cal: Calendar)
  {
    && Distinct(labels)
    && (forall k :: k in labels <==> k in MonthsOf(orders, cal))
    && (forall i, j :: 0 <= i < j < |labels| ==> Less(labels[i], labels[j]))
    && |values| == |labels|
    && (forall i :: 0 <= i < |labels| ==> values[i] == MonthSpend(orders, cal, labels[i]))
  }

  /** The doughnut: up to five distinct restaurants, each with the number of
      orders naming it, most frequent first, and no restaurant left out that
      was ordered from more often than one shown. Among restaurants with the
      same count, those shown are the first ones met in the orders, in that
      order, so a tied restaurant left out was met after every tied one
      shown. */
  ghost predicate TopChartShows(top: Tally, names: seq<string>)
  {
    && |top| == (if |FirstSeen(names)| < 5 then |FirstSeen(names)| else 5)
    && ByCountDesc(top)
    && Distinct(Keys(top))
    && (forall e :: e in top ==> e.key in names && e.value == multiset(names)[e.key])
    && (forall n, e :: n in names && n !in Keys(top) && e in top ==> multiset(names)[n] <= e.value)
    && (forall c :: Keys(WithCount(top, c)) <= CountedAs(FirstSeen(names), multiset(names), c))
  }

  /** The page shown for a non-empty list of orders, stated in terms of the
      orders alone. */
  ghost predicate Presents(v: View, orders: seq<RawOrder>, cal: Calendar)
  {
    && |orders| > 0
    && v.cards == Cards(TotalSpent(orders), |orders|, RoundedAverage(TotalSpent(orders), |orders|), MaxAmount(orders))
    && MonthChartShows(v.monthLabels, v.monthValues, orders, cal)
    && TopChartShows(v.topRestaurants, Names(orders))
    && v.table == FirstRows(orders, 10)
  }

  /** Sorting the keys of the per-month spend gives the line chart. */
  lemma MonthChart(monthly: Tally, orders: seq<RawOrder>, cal: Calendar)
    requires forall k :: Get(monthly, k) == MonthSpend(orders, cal, k)
    requires Keys(monthly) == FirstSeen(MonthsOf(orders, cal))
    ensures MonthChartShows(MonthlySeries(monthly).0, MonthlySeries(monthly).1, orders, cal)
  {
    SortedKeysStrictlyIncrease(Keys(monthly));
  }

  /** Sorting the per-restaurant counts and keeping five gives the doughnut. */
  lemma TopChart(counts: Tally, names: seq<string>)
    requires forall k :: Get(counts, k) == multiset(names)[k]
    requires Keys(counts) == FirstSeen(names)
    ensures TopChartShows(TopFive(counts), names)
  {
    var top := TopFive(counts);
    TopFiveIsTop(counts);
    TopFiveLeavesOutLower(counts);
    TopEntriesCounted(counts, top, names);
    TopEntriesDistinct(counts, top, names);
    forall n, e | n in names && n !in Keys(top) && e in top
      ensures multiset(names)[n] <= e.value
    {
      EntryOfKey(counts, n);
      var d := Entry(n, Get(counts, n));
      assert d !in top;
    }
    TopTieOrder(counts, names);
  }

  /** Within one count, the doughnut keeps the names in first-seen order and
      leaves out only the later ones. */
  lemma TopTieOrder(counts: Tally, names: seq<string>)
    requires forall k :: Get(counts, k) == multiset(names)[k]
    requires Keys(counts) == FirstSeen(names)
    ensures forall c :: Keys(WithCount(TopFive(counts), c)) <= CountedAs(FirstSeen(names), multiset(names), c)
  {
    forall i | 0 <= i < |counts| ensures counts[i].value == multiset(names)[counts[i].key] {
      GetMember(counts, counts[i]);
    }
    forall c ensures Keys(WithCount(TopFive(counts), c)) <= CountedAs(FirstSeen(names), multiset(names), c) {
      var kept, all := WithCount(TopFive(counts), c), WithCount(counts, c);
      TopFiveKeepsTieOrder(counts, c);
      WithCountKeys(counts, multiset(names), c);
      assert all == kept + all[|kept|..];
      KeysConcat(kept, all[|kept|..]);
    }
  }

  /** Two restaurants ordered from once each, "a" first: a doughnut that
      shows "b" before "a" is not the one the page draws. */
  lemma TopChartTieExample()
    ensures !TopChartShows([Entry("b", 1), Entry("a", 1)], ["a", "b"])
  {
    var names, shown := ["a", "b"], [Entry("b", 1), Entry("a", 1)];
    var tied := CountedAs(FirstSeen(names), multiset(names), 1);
    assert tied[0] == "a" by {
      assert FirstSeen(names[..1]) == ["a"];
      assert names[..1] == ["a"];
      assert FirstSeen(names) == ["a", "b"];
      assert multiset(names)["a"] == 1;
    }
    assert Keys(WithCount(shown, 1))[0] == "b" by {
      assert WithCount(shown, 1)[0] == Entry("b", 1);
    }
  }

  /** An entry kept for the doughnut carries the true count of its name. */
  lemma TopEntriesCounted(counts: Tally, top: Tally, names: seq<string>)
    requires forall k :: Get(counts, k) == multiset(names)[k]
    requires Keys(counts) == FirstSeen(names)
    requires multiset(top) <= multiset(counts)
    ensures forall e :: e in top ==> e in counts && e.key in names && e.value == multiset(names)[e.key]
  {
    forall e | e in top
      ensures e in counts && e.key in names && e.value == multiset(names)[e.key]
    {
      assert e in multiset(top);
      assert e in counts;
      var i :| 0 <= i < |counts| && counts[i] == e;
      assert Keys(counts)[i] == e.key;
      GetMember(counts, e);
    }
  }

  /** No restaurant appears twice among the kept entries. */
  lemma TopEntriesDistinct(counts: Tally, top: Tally, names: seq<string>)
    requires Keys(counts) == FirstSeen(names)
    requires multiset(top) <= multiset(counts)
    requires forall e :: e in top ==> e in counts && e.value == multiset(names)[e.key]
    ensures Distinct(Keys(top))
  {
    forall i, j | 0 <= i < j < |top| ensures top[i].key != top[j].key {
      if top[i].key == top[j].key {
        assert top[i] == top[j];
        OccursTwice(top, i, j);
        EntryOnce(counts, top[i]);
        assert false;
      }
    }
  }

  /** An entry of a tally with distinct keys occurs in it at most once. */
  lemma {:induction false} EntryOnce(t: Tally, e: Entry)
    requires Distinct(Keys(t))
    ensures multiset(t)[e] <= 1
  {
    if t != [] {
      var n := |t| - 1;
      var p := t[..n];
      assert forall i :: 0 <= i < n ==> Keys(p)[i] == Keys(t)[i];
      EntryOnce(p, e);
      assert t == p + [t[n]];
      forall i | 0 <= i < n ensures p[i] != t[n] {
        assert Keys(t)[i] != Keys(t)[n];
      }
    }
  }

  /** `processAndRender(orders)`, for the non-empty list `loadData` passes. */
  method ProcessAndRender(orders: seq<RawOrder>, cal: Calendar) returns (v: View)
    requires |orders| > 0
    ensures Presents(v, orders, cal)
  {
    var a := Aggregate(orders, cal);
    var cards := Cards(a.totalSpent, |orders|, RoundedAverage(a.totalSpent, |orders|), a.maxOrder.netTotal.value);
    var series := MonthlySeries(a.monthlySpend);
    var top := TopFive(a.restaurantCounts);
    v := View(cards, series.0, series.1, top, FirstRows(orders, 10));
    MonthChart(a.monthlySpend, orders, cal);
    TopChart(a.restaurantCounts, Names(orders));
  }

  // ----- the page ---------------------------------------------------------

  /** The dashboard page's state: the orders it last loaded, the "Last
      synced" label, and what it currently shows. */
  class DashboardPage {
    var currentOrders: seq<RawOrder>
    var lastSyncedShown: Option<int>
    var view: Option<View>

    constructor ()
      ensures currentOrders == [] && lastSyncedShown == None && view == None
    {
      currentOrders := [];
      lastSyncedShown := None;
      view := None;
    }

    /** `loadData()`: read storage, remember the orders, refresh the label
        when a sync time is stored, and re-render unless there are no
        orders, in which case the page keeps what it showed. */
    method LoadData(store: LocalStore, cal: Calendar)
      modifies this
      ensures currentOrders == store.StoredOrders()
      ensures lastSyncedShown == if store.lastSynced.Some? then store.lastSynced else old(lastSyncedShown)
      ensures currentOrders == [] ==> view == old(view)
      ensures currentOrders != [] ==> view.Some? && Presents(view.value, currentOrders, cal)
    {
      var orders := store.StoredOrders();
      currentOrders := orders;
      if store.lastSynced.Some? {
        lastSyncedShown := store.lastSynced;
      }
      if |orders| == 0 {
        return;
      }
      var v := ProcessAndRender(orders, cal);
      view := Some(v);
    }

    /** The "Sync Data" button: when a Swiggy tab is open, ask its content
        script to sync the chosen day range and, on success, reload the page
        from storage; the orders shown are then exactly those of the new
        run, and nothing of an earlier sync remains. Without a Swiggy tab
        nothing is synced and the page is left as it was. The returned count
        is the one the "Synced … orders" alert reports. */
    method RefreshData(store: LocalStore, swiggyTabOpen: bool, startDay: Option<int>, endDay: Option<int>,
                       tzOffset: int, server: Content.Server, now: int, cal: Calendar)
      returns (synced: Option<nat>)
      modifies this, store
      ensures !swiggyTabOpen ==> synced == None && unchanged(this) && unchanged(store)
      ensures swiggyTabOpen ==>
        exists requests :: Content.SyncRun(Content.DayWindow(startDay, endDay, tzOffset), server, requests) &&
          currentOrders == Content.Gathered(Content.DayWindow(startDay, endDay, tzOffset), server, requests)
      ensures swiggyTabOpen ==>
        && store.StoredOrders() == currentOrders
        && synced == Some(|currentOrders|)
        && lastSyncedShown == Some(now)
        && (currentOrders == [] ==> view == old(view))
        && (currentOrders != [] ==> view.Some? && Presents(view.value, currentOrders, cal))
    {
      if !swiggyTabOpen {
        return None;
      }
      var reply := Content.FetchData(store, startDay, endDay, tzOffset, server, now);
      if reply.success {
        synced := Some(reply.count);
        LoadData(store, cal);
      }
    }
  }
}
