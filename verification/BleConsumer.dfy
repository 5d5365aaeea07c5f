/** The per-sender record of the observer and the fixed table of such records, updated in place. */
module BleConsumers {
  import opened Bytes
  import opened Crypto
  import opened Options
  import opened TickStamp
  import opened Wire
  import opened KeyCacheSpec
  import opened KeyCaches
  import opened ConsumerSpec
  import opened ProcessorSpec

  class BleConsumer {
    var address: Address
    var lastPduTimestamp: Stamp
    var lastPduKeyId: u16
    var recentlyRemovedKeyId: int
    var processDeferredRequestPending: bool
    var deferredQueue: seq<DataPdu>
    var deferredQueueCount: nat
    const cache: KeyCache

    /** What the fields stand for. */
    ghost var view: Consumer

    /** The separately kept counter is the length of the queue. */
    ghost predicate Valid()
      reads this, cache, cache.slots
    {
      && cache.Valid()
      && view == Consumer(address, lastPduTimestamp, lastPduKeyId, recentlyRemovedKeyId,
                          processDeferredRequestPending, deferredQueue, cache.view)
      && WellFormed(view)
      && deferredQueueCount == |deferredQueue|
    }

    constructor (cacheSize: nat)
      ensures Valid() && fresh(cache) && fresh(cache.slots)
      ensures view == FreshConsumer(cacheSize)
    {
      address, lastPduTimestamp, lastPduKeyId := ZERO_ADDRESS, FRESH, 0;
      recentlyRemovedKeyId, processDeferredRequestPending := 0, false;
      deferredQueue, deferredQueueCount := [], 0;
      cache := new KeyCache(cacheSize);
      view := FreshConsumer(cacheSize);
    }

    method ResetBleConsumer()
      requires Valid()
      modifies this, cache, cache.slots
      ensures Valid() && view == Reset(old(view))
      ensures address == ZERO_ADDRESS && deferredQueue == [] && !processDeferredRequestPending && recentlyRemovedKeyId == -1
      ensures lastPduTimestamp == FRESH && lastPduKeyId == old(lastPduKeyId)
    {
      processDeferredRequestPending := false;
      lastPduTimestamp := FRESH;
      recentlyRemovedKeyId := -1;
      deferredQueueCount := 0;
      address := ZERO_ADDRESS;
      cache.ClearCache();
      deferredQueue := [];
      view := Reset(view);
    }

    /** Takes over a free record for a new sender. */
    method Admit(newAddress: Address, now: nat)
      requires Valid()
      modifies this, cache, cache.slots
      ensures Valid() && view == Admitted(old(view), newAddress, now)
    {
      ResetBleConsumer();
      address := newAddress;
      lastPduTimestamp := Save(lastPduTimestamp, now);
      view := view.(address := newAddress, stamp := lastPduTimestamp);
    }

    /** Marks the record as used now. */
    method SaveTimestamp(now: nat)
      requires Valid()
      modifies this
      ensures Valid() && view == old(view).(stamp := Save(old(view).stamp, now))
    {
      lastPduTimestamp := Save(lastPduTimestamp, now);
      view := view.(stamp := lastPduTimestamp);
    }

    method AddToDeferredQueue(pdu: DataPdu) returns (status: int)
      requires Valid()
      modifies this
      ensures Valid() && view == Defer(old(view), pdu).0
      ensures status == if Defer(old(view), pdu).1 == [] then 0 else -1
      ensures if |old(deferredQueue)| < DEFERRED_QUEUE_SIZE then status == 0 && deferredQueue == old(deferredQueue) + [pdu]
              else status == -1 && deferredQueue == old(deferredQueue)
    {
      if |deferredQueue| < DEFERRED_QUEUE_SIZE {
        deferredQueue := deferredQueue + [pdu];
        deferredQueueCount := deferredQueueCount + 1;
        view := view.(deferred := deferredQueue);
        return 0;
      }
      return -1;
    }

    method GetDeferredQueueItem() returns (item: Option<DataPdu>)
      requires Valid()
      modifies this
      ensures Valid()
      ensures item.None? <==> old(deferredQueue) == []
      ensures item.Some? ==> old(deferredQueue) == [item.value] + deferredQueue
      ensures view == old(view).(deferred := deferredQueue)
      ensures item.None? ==> deferredQueue == []
    {
      if deferredQueue == [] {
        return None;
      }
      item := Some(deferredQueue[0]);
      deferredQueue := deferredQueue[1..];
      if deferredQueueCount > 0 {
        deferredQueueCount := deferredQueueCount - 1;
      }
      view := view.(deferred := deferredQueue);
    }

    /** Looks a session's key up in the cache. */
    method LookUpCached(keyId: u16, now: nat) returns (key: Option<Key>)
      requires Valid()
      modifies this, cache, cache.slots
      ensures Valid() && view == old(view).(cache := Touch(old(view).cache, Low(keyId), now))
      ensures key == Lookup(old(view).cache, Low(keyId))
    {
      key := cache.GetKeyFromCache(Low(keyId), now);
      view := view.(cache := cache.view);
    }

    /** The same for a received frame, which also makes its session the last one seen. */
    method LookUpKey(keyId: u16, now: nat) returns (key: Option<Key>)
      requires Valid()
      modifies this, cache, cache.slots
      ensures Valid() && view == old(view).(cache := Touch(old(view).cache, Low(keyId), now), lastKeyId := keyId)
      ensures key == Lookup(old(view).cache, Low(keyId))
    {
      key := LookUpCached(keyId, now);
      lastPduKeyId := keyId;
      view := view.(lastKeyId := keyId);
    }

    /** Stores a reconstructed key, giving up the least recently used one if the cache is full;
        `stored` says whether draining should be requested. */
    method StoreKey(id: byte, key: Key, now: nat) returns (stored: bool)
      requires Valid()
      modifies this, cache, cache.slots
      ensures Valid()
      ensures view.(pending := view.pending || stored) == CompleteKey(old(view), id, key, now)
      ensures view.pending == old(view).pending
      ensures stored == CompleteKey(old(view).(pending := false), id, key, now).pending
    {
      var alreadyIn := cache.IsKeyInCache(id);
      if alreadyIn {
        return false;
      }
      var status := cache.AddKeyToCache(key, id, now);
      if status == -1 {
        recentlyRemovedKeyId := cache.RemoveLruKeyFromCache();
        status := cache.AddKeyToCache(key, id, now);
      }
      view := view.(cache := cache.view, removedKey := recentlyRemovedKeyId);
      stored := status == 0;
    }

    method IsPduInDeferredQueue() returns (waiting: bool)
      requires Valid()
      ensures waiting == (view.deferred != [])
    {
      waiting := deferredQueueCount != 0;
    }

    method SetDeferredPending(request: bool)
      requires Valid()
      modifies this
      ensures Valid() && view == old(view).(pending := request)
    {
      if processDeferredRequestPending != request {
        processDeferredRequestPending := request;
        view := view.(pending := request);
      }
    }
  }

  // ---- The table -------------------------------------------------------------------------------------

  /** The records share nothing. */
  ghost predicate Separate(arr: seq<BleConsumer>) {
    forall i, j :: 0 <= i < j < |arr| ==>
      arr[i] != arr[j] && arr[i].cache != arr[j].cache && arr[i].cache.slots != arr[j].cache.slots
  }

  ghost function Objects(arr: seq<BleConsumer>): set<object> {
    (set i | 0 <= i < |arr| :: arr[i] as object)
    + (set i | 0 <= i < |arr| :: arr[i].cache as object)
    + (set i | 0 <= i < |arr| :: arr[i].cache.slots as object)
  }

  ghost function Parts(c: BleConsumer): set<object> {
    {c, c.cache, c.cache.slots}
  }

  lemma PartsIn(arr: seq<BleConsumer>, i: nat)
    requires i < |arr|
    ensures Parts(arr[i]) <= Objects(arr)
  {}

  ghost function States(arr: seq<BleConsumer>): (s: seq<Consumer>)
    reads arr
    ensures |s| == |arr| && forall i :: 0 <= i < |arr| ==> s[i] == arr[i].view
  {
    seq(|arr|, i requires 0 <= i < |arr| reads arr => arr[i].view)
  }

  ghost predicate AllValid(arr: seq<BleConsumer>)
    reads Objects(arr)
  {
    forall i :: 0 <= i < |arr| ==> arr[i].Valid()
  }

  /** The C convention: an index, or -1. */
  function IndexIn(states: seq<Consumer>, address: Address): int {
    if Find(states, address) < |states| then Find(states, address) else -1
  }

  /** A record none of whose objects changed is as it was. */
  twostate lemma Kept(c: BleConsumer)
    requires old(c.Valid()) && unchanged(c) && unchanged(c.cache) && unchanged(c.cache.slots)
    ensures c.Valid() && c.view == old(c.view)
  {}

  class BleConsumerCollection {
    const arr: seq<BleConsumer>
    var consumersCount: nat

    /** What the records stand for. */
    ghost var table: Table

    ghost predicate Valid()
      reads this, Objects(arr)
    {
      && Separate(arr) && AllValid(arr)
      && table == Table(States(arr), consumersCount)
    }

    /** Brings `table` up to date after record `i` alone has changed. */
    ghost method Refresh(i: nat, c: Consumer)
      requires Separate(arr) && AllValid(arr) && i < |arr| && arr[i].view == c
      requires |table.arr| == |arr| && forall j :: 0 <= j < |arr| && j != i ==> table.arr[j] == arr[j].view
      modifies this`table
      ensures Valid() && table == Table(old(table.arr)[i := c], consumersCount)
    {
      table := Table(table.arr[i := c], consumersCount);
      assert States(arr) == table.arr;
    }

    constructor (size: nat, cacheSize: nat)
      ensures Valid() && fresh(Objects(arr))
      ensures table == FreshTable(size, cacheSize)
    {
      var cs: seq<BleConsumer> := [];
      for i := 0 to size
        invariant |cs| == i && Separate(cs)
        invariant forall k :: 0 <= k < i ==> fresh(cs[k]) && fresh(cs[k].cache) && fresh(cs[k].cache.slots)
        invariant forall k :: 0 <= k < i ==> cs[k].Valid() && cs[k].view == FreshConsumer(cacheSize)
      {
        var c := new BleConsumer(cacheSize);
        cs := cs + [c];
      }
      arr := cs;
      consumersCount := 0;
      table := FreshTable(size, cacheSize);
    }

    method GetFirstFreeIndex() returns (index: int)
      requires Valid()
      ensures index == if consumersCount < |arr| then IndexIn(table.arr, ZERO_ADDRESS) else -1
    {
      if consumersCount < |arr| {
        for i := 0 to |arr|
          invariant forall j :: 0 <= j < i ==> arr[j].address != ZERO_ADDRESS
        {
          if arr[i].address == ZERO_ADDRESS {
            assert table.arr[i].address == ZERO_ADDRESS;
            return i;
          }
        }
        assert forall j :: 0 <= j < |arr| ==> table.arr[j].address != ZERO_ADDRESS;
      }
      return -1;
    }

    method GetIndexForAddress(address: Address) returns (index: int)
      requires Valid()
      ensures index == IndexIn(table.arr, address)
    {
      for i := 0 to |arr|
        invariant forall j :: 0 <= j < i ==> arr[j].address != address
      {
        if arr[i].address == address {
          assert table.arr[i].address == address;
          return i;
        }
      }
      assert forall j :: 0 <= j < |arr| ==> table.arr[j].address != address;
      return -1;
    }

    /** Finds the sender's record and stamps it. */
    method GetBleConsumer(address: Address, now: nat) returns (index: int)
      requires Valid()
      modifies this`table, Objects(arr)
      ensures Valid()
      ensures index == IndexIn(old(table).arr, address)
      ensures table == if index >= 0 then old(table).(arr := Stamped(old(table).arr, index, now)) else old(table)
    {
      index := GetIndexForAddress(address);
      if index >= 0 {
        PartsIn(arr, index);
        var c := arr[index];
        c.SaveTimestamp(now);
        forall j | 0 <= j < |arr| && j != index
          ensures arr[j].Valid() && arr[j].view == old(arr[j].view)
        {
          Kept(arr[j]);
        }
        Refresh(index, c.view);
      }
    }

    /** Clears the first free record and gives it to the sender. */
    method AddConsumer(address: Address, now: nat) returns (index: int)
      requires Valid()
      modifies this, Objects(arr)
      ensures Valid()
      ensures index == if old(consumersCount) < |arr| then IndexIn(old(table).arr, ZERO_ADDRESS) else -1
      ensures table ==
        if index < 0 then old(table)
        else Table(old(table).arr[index := Admitted(old(table).arr[index], address, now)], old(table).active + 1)
    {
      hide Admitted;
      index := GetFirstFreeIndex();
      if index >= 0 {
        PartsIn(arr, index);
        var c := arr[index];
        c.Admit(address, now);
        consumersCount := consumersCount + 1;
        forall j | 0 <= j < |arr| && j != index
          ensures arr[j].Valid() && arr[j].view == old(arr[j].view)
        {
          Kept(arr[j]);
        }
        Refresh(index, c.view);
      }
    }
  }
}
