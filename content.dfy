/** The content script's order sync (`fetchAllOrders` and the `fetchData`
    message handler): a cursor-driven loop over the order-listing endpoint
    with a page cap, a per-page date filter, four ways to stop early, and a
    wholesale overwrite of the stored orders at the end.

    The endpoint is a parameter: `server(n, request)` is what the `n`-th
    request of the run (counting from 0) gets back, so a server whose
    answers change from call to call is covered too. */
module Content {
  import opened Orders
  import opened Storage

  /** `MAX_PAGES` */
  const MaxPages := 50

  const MsPerDay := 86400000

  /** The URL of one request: the bare listing, or the listing after the
      order with the given `order_id`. */
  datatype Request = Latest | After(orderId: string)

  /** `data.data` of a response body. */
  datatype Payload = Payload(orders: Option<seq<RawOrder>>)

  /** What one request yields: an exception (from `fetch` or from parsing
      the body), a response that is not `ok`, or a parsed JSON body. */
  datatype Response = Thrown | NotOk(status: int) | Body(statusCode: int, data: Option<Payload>)

  type Server = (nat, Request) -> Response

  /** The date range, as the two instants the filter compares against;
      `None` for a bound that was not given. */
  datatype Window = Window(start: Option<int>, end: Option<int>)

  /** Local midnight opening day `day` (days since the epoch, local
      calendar) for a zone `tzOffset` milliseconds ahead of UTC:
      `setHours(0, 0, 0, 0)`. */
  function StartOfDay(day: int, tzOffset: int): int
  {
    day * MsPerDay - tzOffset
  }

  /** The last millisecond of that day: `setHours(23, 59, 59, 999)`. */
  function EndOfDay(day: int, tzOffset: int): int
  {
    StartOfDay(day, tzOffset) + MsPerDay - 1
  }

  /** The window for the chosen start and end days. */
  function DayWindow(startDay: Option<int>, endDay: Option<int>, tzOffset: int): Window
  {
    Window(if startDay.Some? then Some(StartOfDay(startDay.value, tzOffset)) else None,
           if endDay.Some? then Some(EndOfDay(endDay.value, tzOffset)) else None)
  }

  /** The filter callback: drop an order that is too recent or too old. An
      Invalid Date compares false both ways, so it is kept. */
  predicate Keep(w: Window, o: RawOrder)
  {
    var t := SyncInstant(o);
    !(w.end.Some? && t.At? && t.ms > w.end.value) &&
    !(w.start.Some? && t.At? && t.ms < w.start.value)
  }

  /** `orders.filter(...)`: the kept orders of a batch, in batch order. */
  function Filter(w: Window, batch: seq<RawOrder>): seq<RawOrder>
  {
    if batch == [] then []
    else (if Keep(w, batch[0]) then [batch[0]] else []) + Filter(w, batch[1..])
  }

  /** The filter keeps exactly the orders the callback accepts: each of them
      as often as the batch holds it, and nothing else. */
  lemma {:induction false} FilterExact(w: Window, batch: seq<RawOrder>)
    ensures forall o :: o in Filter(w, batch) <==> o in batch && Keep(w, o)
    ensures forall o :: multiset(Filter(w, batch))[o] == if Keep(w, o) then multiset(batch)[o] else 0
  {
    if batch != [] {
      FilterExact(w, batch[1..]);
      assert batch == [batch[0]] + batch[1..];
    }
  }

  /** Filtering a concatenation filters each part in place: the filter
      never moves an order past another. */
  lemma {:induction false} FilterConcat(w: Window, a: seq<RawOrder>, b: seq<RawOrder>)
    ensures Filter(w, a + b) == Filter(w, a) + Filter(w, b)
  {
    if a == [] {
      assert a + b == b;
    } else {
      var ab := a + b;
      assert ab[0] == a[0] && ab[1..] == a[1..] + b;
      var head := if Keep(w, a[0]) then [a[0]] else [];
      assert Filter(w, ab) == head + Filter(w, a[1..] + b);
      assert Filter(w, a) == head + Filter(w, a[1..]);
      FilterConcat(w, a[1..], b);
    }
  }

  /** The batch of a well-formed body: `statusCode === 0 && data.data &&
      data.data.orders` (an empty array is truthy). */
  function Batch(r: Response): Option<seq<RawOrder>>
  {
    if r.Body? && r.statusCode == 0 && r.data.Some? && r.data.value.orders.Some?
    then Some(r.data.value.orders.value)
    else None
  }

  /** `order_id` of an order as the cursor variable holds it; a missing id is
      as falsy as the empty string. */
  function Cursor(o: RawOrder): string
  {
    if o.orderId.Some? then o.orderId.value else ""
  }

  /** `nextOrderId ? ORDERS_API_URL + nextOrderId : <bare listing>` */
  function RequestFor(cursor: string): Request
  {
    if cursor != "" then After(cursor) else Latest
  }

  /** The request that follows a non-empty batch. */
  function NextRequest(batch: seq<RawOrder>): Request
  {
    if batch == [] then Latest else RequestFor(Cursor(batch[|batch| - 1]))
  }

  /** With a start date, the last raw order of the batch is older than it. */
  predicate PastStart(w: Window, batch: seq<RawOrder>)
  {
    w.start.Some? && batch != [] &&
    var t := SyncInstant(batch[|batch| - 1]);
    t.At? && t.ms < w.start.value
  }

  /** The loop goes on after this response: a well-formed, non-empty batch
      that has not gone past the start date. */
  predicate Continues(w: Window, r: Response)
  {
    Batch(r).Some? && Batch(r).value != [] && !PastStart(w, Batch(r).value)
  }

  /** What one response adds to the result. */
  function Kept(w: Window, r: Response): seq<RawOrder>
  {
    if Batch(r).Some? then Filter(w, Batch(r).value) else []
  }

  /** The raw orders of one response. */
  function Fetched(r: Response): seq<RawOrder>
  {
    if Batch(r).Some? then Batch(r).value else []
  }

  /** The kept orders of every response of the run, in page order. */
  function Gathered(w: Window, server: Server, requests: seq<Request>): seq<RawOrder>
  {
    if requests == [] then []
    else
      var n := |requests| - 1;
      Gathered(w, server, requests[..n]) + Kept(w, server(n, requests[n]))
  }

  /** Every raw order of the run, in page order. */
  function AllFetched(server: Server, requests: seq<Request>): seq<RawOrder>
  {
    if requests == [] then []
    else
      var n := |requests| - 1;
      AllFetched(server, requests[..n]) + Fetched(server(n, requests[n]))
  }

  /** Response `i` lets the loop go on, and request `i + 1` carries its cursor. */
  predicate Linked(w: Window, server: Server, requests: seq<Request>, i: nat)
    requires i + 1 < |requests|
  {
    Continues(w, server(i, requests[i])) &&
    requests[i + 1] == NextRequest(Batch(server(i, requests[i])).value)
  }

  /** The requests made so far follow the cursor rule. */
  predicate Chained(w: Window, server: Server, requests: seq<Request>)
  {
    (requests != [] ==> requests[0] == Latest) &&
    forall i :: 0 <= i < |requests| - 1 ==> Linked(w, server, requests, i)
  }

  /** The requests of a complete run: the first carries no cursor, each
      later one the cursor of the batch before it; every response but the
      last lets the loop go on, and the last one stops it unless the page
      cap was reached. */
  predicate SyncRun(w: Window, server: Server, requests: seq<Request>)
  {
    && 1 <= |requests| <= MaxPages
    && Chained(w, server, requests)
    && (|requests| < MaxPages ==>
          !Continues(w, server(|requests| - 1, requests[|requests| - 1])))
  }

  lemma GatheredSnoc(w: Window, server: Server, requests: seq<Request>, r: Request)
    ensures Gathered(w, server, requests + [r])
         == Gathered(w, server, requests) + Kept(w, server(|requests|, r))
  {
    assert (requests + [r])[..|requests|] == requests;
  }

  lemma ChainedSnoc(w: Window, server: Server, requests: seq<Request>, last: Response, r: Request)
    requires Chained(w, server, requests)
    requires requests == [] ==> r == Latest
    requires requests != [] ==>
      last == server(|requests| - 1, requests[|requests| - 1]) &&
      Continues(w, last) && r == NextRequest(Batch(last).value)
    ensures Chained(w, server, requests + [r])
  {
    var rs := requests + [r];
    forall i | 0 <= i < |rs| - 1
      ensures Linked(w, server, rs, i)
    {
      assert rs[i] == requests[i];
      if i + 1 < |requests| {
        assert Linked(w, server, requests, i);
      }
    }
  }

  /** The pagination loop of `fetchAllOrders`, up to the storage write. */
  method CollectOrders(w: Window, server: Server) returns (allOrders: seq<RawOrder>, requests: seq<Request>)
    ensures SyncRun(w, server, requests)
    ensures allOrders == Gathered(w, server, requests)
  {
    allOrders := [];
    var nextOrderId := "";
    var hasMore := true;
    var pageCount := 0;
    requests := [];
    ghost var last: Response := Thrown;
    while hasMore && pageCount < MaxPages
      invariant pageCount <= |requests| <= MaxPages
      invariant hasMore ==> pageCount == |requests|
      invariant requests == [] ==> hasMore && nextOrderId == ""
      invariant requests != [] ==> last == server(|requests| - 1, requests[|requests| - 1])
      invariant Chained(w, server, requests)
      invariant hasMore && requests != [] ==>
        Continues(w, last) && RequestFor(nextOrderId) == NextRequest(Batch(last).value)
      invariant !hasMore ==> requests != [] && !Continues(w, last)
      invariant allOrders == Gathered(w, server, requests)
      decreases MaxPages - pageCount + (if hasMore then 1 else 0)
    {
      var request := RequestFor(nextOrderId);
      var response := server(|requests|, request);
      GatheredSnoc(w, server, requests, request);
      ChainedSnoc(w, server, requests, last, request);
      requests := requests + [request];
      last := response;
      if response.Thrown? {
        // the catch block
        hasMore := false;
      } else if response.NotOk? {
        break;
      } else {
        var batch := Batch(response);
        if batch.Some? {
          var orders := batch.value;
          var filteredOrders := Filter(w, orders);
          allOrders := allOrders + filteredOrders;
          if w.start.Some? && |orders| > 0 {
            var oldestInBatch := SyncInstant(orders[|orders| - 1]);
            if oldestInBatch.At? && oldestInBatch.ms < w.start.value {
              hasMore := false;
              break;
            }
          }
          if |orders| > 0 {
            nextOrderId := Cursor(orders[|orders| - 1]);
          } else {
            hasMore := false;
          }
        } else {
          hasMore := false;
        }
        pageCount := pageCount + 1;
      }
    }
  }

  /** `fetchAllOrders`: run the loop, then overwrite the stored orders with
      exactly its result, stamped with the clock reading `now`. */
  method FetchAllOrders(store: LocalStore, w: Window, server: Server, now: int)
    returns (allOrders: seq<RawOrder>)
    modifies store
    ensures exists requests :: SyncRun(w, server, requests) && allOrders == Gathered(w, server, requests)
    ensures store.swiggyOrders == Some(allOrders) && store.lastSynced == Some(now)
    ensures store.StoredOrders() == allOrders
  {
    var requests;
    allOrders, requests := CollectOrders(w, server);
    store.Set(allOrders, now);
  }

  /** The `{success, count}` reply to a `fetchData` message. */
  datatype Reply = Reply(success: bool, count: nat)

  /** The `fetchData` handler: sync the chosen day range and report how
      many orders were stored. */
  method FetchData(store: LocalStore, startDay: Option<int>, endDay: Option<int>, tzOffset: int,
                   server: Server, now: int)
    returns (reply: Reply)
    modifies store
    ensures store.swiggyOrders.Some? && store.lastSynced == Some(now)
    ensures exists requests :: SyncRun(DayWindow(startDay, endDay, tzOffset), server, requests) &&
              store.swiggyOrders.value == Gathered(DayWindow(startDay, endDay, tzOffset), server, requests)
    ensures reply == Reply(true, |store.swiggyOrders.value|)
  {
    var data := FetchAllOrders(store, DayWindow(startDay, endDay, tzOffset), server, now);
    reply := Reply(true, |data|);
  }

  // ---------------------------------------------------------------------
  // Properties of a sync run

  /** Both bounds of a day window are inclusive: an order with a valid time
      is kept exactly when it lies between the first millisecond of the start
      day and the last millisecond of the end day. */
  lemma DayWindowIsInclusive(startDay: int, endDay: int, tzOffset: int, o: RawOrder)
    requires o.orderTime.Some?
    ensures Keep(DayWindow(Some(startDay), Some(endDay), tzOffset), o) <==>
            StartOfDay(startDay, tzOffset) <= o.orderTime.value <= EndOfDay(endDay, tzOffset)
    ensures EndOfDay(endDay, tzOffset) + 1 == StartOfDay(endDay + 1, tzOffset)
  {
  }

  /** An order without `order_time` passes every window (its date is
      Invalid, and every comparison with it is false). */
  lemma MissingTimeIsKept(w: Window, o: RawOrder)
    requires o.orderTime.None?
    ensures Keep(w, o)
  {
  }

  /** Every stored order lies inside the window, on each side that has a
      bound. */
  lemma {:induction false} GatheredInWindow(w: Window, server: Server, requests: seq<Request>)
    ensures forall o :: o in Gathered(w, server, requests) ==> Keep(w, o)
    ensures forall o :: o in Gathered(w, server, requests) && o.orderTime.Some? ==>
              (w.start.Some? ==> w.start.value <= o.orderTime.value) &&
              (w.end.Some? ==> o.orderTime.value <= w.end.value)
  {
    if requests != [] {
      var n := |requests| - 1;
      GatheredInWindow(w, server, requests[..n]);
      FilterExact(w, Fetched(server(n, requests[n])));
    }
  }

  /** Without bounds nothing is filtered out: the result is every fetched
      order, in page order, duplicates included. */
  lemma {:induction false} UnboundedKeepsAll(server: Server, requests: seq<Request>)
    ensures Gathered(Window(None, None), server, requests) == AllFetched(server, requests)
  {
    if requests != [] {
      var n := |requests| - 1;
      UnboundedKeepsAll(server, requests[..n]);
      FilterNothing(Fetched(server(n, requests[n])));
    }
  }

  lemma {:induction false} FilterNothing(batch: seq<RawOrder>)
    ensures Filter(Window(None, None), batch) == batch
  {
    if batch != [] {
      FilterNothing(batch[1..]);
      assert batch == [batch[0]] + batch[1..];
    }
  }

  /** A failure on a later page discards nothing gathered before it: the
      orders kept from the first `k` pages are a prefix of the result. */
  lemma {:induction false} EarlierPagesSurvive(w: Window, server: Server, requests: seq<Request>, k: nat)
    requires k <= |requests|
    ensures Gathered(w, server, requests[..k]) <= Gathered(w, server, requests)
  {
    if k < |requests| {
      var n := |requests| - 1;
      assert requests[..n][..k] == requests[..k];
      EarlierPagesSurvive(w, server, requests[..n], k);
    } else {
      assert requests[..k] == requests;
    }
  }

  /** A page that stops the loop (a failed or throwing request, a malformed
      body, an empty batch, or a batch whose last raw order is older than the
      start date) is the last page requested. */
  lemma StopIsLast(w: Window, server: Server, requests: seq<Request>, i: nat)
    requires SyncRun(w, server, requests)
    requires i < |requests|
    requires var r := server(i, requests[i]);
      r.Thrown? || r.NotOk? || Batch(r).None? || Batch(r).value == [] || PastStart(w, Batch(r).value)
    ensures i == |requests| - 1
  {
    if i < |requests| - 1 {
      LinkedAt(w, server, requests, i);
      assert false;
    }
  }

  lemma LinkedAt(w: Window, server: Server, requests: seq<Request>, i: nat)
    requires Chained(w, server, requests) && i + 1 < |requests|
    ensures Continues(w, server(i, requests[i]))
    ensures requests[i + 1] == NextRequest(Batch(server(i, requests[i])).value)
  {
    assert Linked(w, server, requests, i);
  }

  /** The specification fixes the run: given the window and the server,
      there is exactly one request sequence a sync can make. */
  lemma {:induction false} SyncRunDetermined(w: Window, server: Server, r1: seq<Request>, r2: seq<Request>)
    requires SyncRun(w, server, r1) && SyncRun(w, server, r2)
    ensures r1 == r2
  {
    var m := if |r1| < |r2| then |r1| else |r2|;
    var i := 0;
    while i < m
      invariant i <= m
      invariant forall k :: 0 <= k < i ==> r1[k] == r2[k]
    {
      if i > 0 {
        LinkedAt(w, server, r1, i - 1);
        LinkedAt(w, server, r2, i - 1);
      }
      i := i + 1;
    }
    if |r1| < |r2| {
      LinkedAt(w, server, r2, m - 1);
      assert false;
    } else if |r2| < |r1| {
      LinkedAt(w, server, r1, m - 1);
      assert false;
    }
  }
}
