/** `chrome.storage.local`, reduced to the two keys the extension uses:
    `swiggy_orders` and `last_synced` (the ISO time of the last sync, kept
    here as milliseconds since the epoch). */
module Storage {
  import opened Orders

  class LocalStore {
    var swiggyOrders: Option<seq<RawOrder>>
    var lastSynced: Option<int>

    /** A profile where nothing has been synced yet. */
    constructor ()
      ensures swiggyOrders == None && lastSynced == None
    {
      swiggyOrders := None;
      lastSynced := None;
    }

    /** `chrome.storage.local.set({swiggy_orders, last_synced})`: both keys
        are overwritten; nothing of the previous value survives. */
    method Set(orders: seq<RawOrder>, syncedAt: int)
      modifies this
      ensures swiggyOrders == Some(orders) && lastSynced == Some(syncedAt)
    {
      swiggyOrders := Some(orders);
      lastSynced := Some(syncedAt);
    }

    /** `data.swiggy_orders || []` */
    function StoredOrders(): (s: seq<RawOrder>)
      reads this
      ensures swiggyOrders.Some? ==> s == swiggyOrders.value
      ensures swiggyOrders.None? ==> s == []
    {
      if swiggyOrders.Some? then swiggyOrders.value else []
    }
  }
}
