/** The order record as the order-listing endpoint sends it, and the
    tolerant field look-ups that the content script and the dashboard
    apply to it. JavaScript truthiness is written out: a number is falsy
    when it is 0, a string when it is empty, an absent field always. */
module Orders {

  datatype Option<+T> = None | Some(value: T)

  /** The nested `restaurant` object of a raw order. */
  datatype Restaurant = Restaurant(name: Option<string>)

  /** One raw order; every field may be missing. Amounts are whole currency
      units, times are milliseconds since the epoch. */
  datatype RawOrder = RawOrder(
    orderId: Option<string>,
    orderTime: Option<int>,
    orderDate: Option<int>,
    netTotal: Option<int>,
    orderTotal: Option<int>,
    restaurantName: Option<string>,
    restaurant: Option<Restaurant>)

  /** A JavaScript `Date`: either a valid instant or an Invalid Date (whose
      time value is NaN, so that every comparison with it is false). */
  datatype Instant = Invalid | At(ms: int)

  /** The order with no fields at all (`{}`). */
  const EmptyOrder := RawOrder(None, None, None, None, None, None, None)

  predicate TruthyNumber(x: Option<int>) { x.Some? && x.value != 0 }

  predicate TruthyString(x: Option<string>) { x.Some? && x.value != "" }

  /** `order.net_total || order.order_total || 0` (as a number). */
  function Amount(o: RawOrder): int
  {
    if TruthyNumber(o.netTotal) then o.netTotal.value
    else if TruthyNumber(o.orderTotal) then o.orderTotal.value
    else 0
  }

  /** `order.restaurant_name || (order.restaurant ? order.restaurant.name : 'Unknown')`,
      as the key it becomes in a JavaScript object: a restaurant object
      without a name yields `undefined`, which is stored under "undefined". */
  function RestaurantName(o: RawOrder): string
  {
    if TruthyString(o.restaurantName) then o.restaurantName.value
    else match o.restaurant
      case None => "Unknown"
      case Some(r) => if r.name.Some? then r.name.value else "undefined"
  }

  /** `new Date(order.order_time)`, as the content script's date filter reads it. */
  function SyncInstant(o: RawOrder): Instant
  {
    if o.orderTime.Some? then At(o.orderTime.value) else Invalid
  }

  /** `new Date(order.order_time || order.order_date)`, as the dashboard reads it. */
  function DashboardInstant(o: RawOrder): Instant
  {
    if TruthyNumber(o.orderTime) then At(o.orderTime.value)
    else if o.orderDate.Some? then At(o.orderDate.value)
    else Invalid
  }

  /** The resolved amount is one of the two amount fields, or 0 only when
      neither is truthy; a truthy `net_total` wins over `order_total`; and a
      sparse order degrades to the defaults. */
  lemma AmountResolution(o: RawOrder)
    ensures Amount(o) == 0 <==> !TruthyNumber(o.netTotal) && !TruthyNumber(o.orderTotal)
    ensures Amount(o) != 0 ==> Some(Amount(o)) in {o.netTotal, o.orderTotal}
    ensures TruthyNumber(o.netTotal) ==> Amount(o) == o.netTotal.value
    ensures !TruthyNumber(o.netTotal) && TruthyNumber(o.orderTotal) ==> Amount(o) == o.orderTotal.value
    ensures Amount(EmptyOrder) == 0 && RestaurantName(EmptyOrder) == "Unknown"
    ensures DashboardInstant(EmptyOrder) == Invalid && SyncInstant(EmptyOrder) == Invalid
  {
  }

  /** A truthy `restaurant_name` always wins; otherwise the nested object
      alone decides: "Unknown" stands for a missing object, while an object
      without a `name` is counted under "undefined", not "Unknown". */
  lemma NameResolution(o: RawOrder)
    ensures TruthyString(o.restaurantName) ==> RestaurantName(o) == o.restaurantName.value
    ensures !TruthyString(o.restaurantName) ==> RestaurantName(o) == RestaurantName(o.(restaurantName := None))
    ensures !TruthyString(o.restaurantName) && o.restaurant.None? ==> RestaurantName(o) == "Unknown"
    ensures !TruthyString(o.restaurantName) && o.restaurant == Some(Restaurant(None)) ==> RestaurantName(o) == "undefined"
  {
  }
}
