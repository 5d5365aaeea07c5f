/** The PDU processor object: its queue, its event bits, the sender table, and what it hands out. */
module Processor {
  import opened Bytes
  import opened Crypto
  import opened Options
  import opened TickStamp
  import opened Wire
  import opened KeyCacheSpec
  import opened ConsumerSpec
  import opened ConsumerTheorems
  import opened ProcessorSpec
  import opened BleConsumers
  import opened Sequences

  datatype Notification = Notification(address: Address, payload: seq<byte>)

  /** Observers hear of every delivered payload that is not empty. */
  function Notified(prims: Primitives, events: seq<Tagged>): seq<Notification> {
    if events == [] then []
    else
      var n := |events| - 1;
      Notified(prims, events[..n]) + NotificationsFor(prims, events[n])
  }

  function NotificationsFor(prims: Primitives, e: Tagged): seq<Notification> {
    if e.event.Delivered? && e.event.pdu.payload != [] then
      [Notification(e.address, Open(prims, e.event.key, e.event.pdu))]
    else []
  }

  predicate Sized(batch: seq<Received>) {
    forall r :: r in batch ==> WellSized(r.frame)
  }

  /** One processing step per received frame, all at one tick. */
  function FrameSteps(batch: seq<Received>, now: nat): (steps: seq<Step>)
    requires Sized(batch)
  {
    seq(|batch|, i requires 0 <= i < |batch| => OnFrame(batch[i].address, Read(batch[i].frame), now))
  }

  function RunFrames(t: Table, batch: seq<Received>, now: nat): (Table, seq<Tagged>)
    requires AllWellFormed(t.arr) && Sized(batch)
  {
    Run(t, FrameSteps(batch, now))
  }

  /** The first `i` of `steps` have been taken, starting from table `t` and trace `from`. */
  ghost predicate TakenTo(t: Table, steps: seq<Step>, i: nat, from: seq<Tagged>, u: Table, trace: seq<Tagged>)
    requires AllWellFormed(t.arr) && i <= |steps|
  {
    var (v, events) := Run(t, steps[..i]);
    u == v && trace == from + events
  }

  lemma TakenNone(t: Table, steps: seq<Step>, trace: seq<Tagged>)
    requires AllWellFormed(t.arr)
    ensures TakenTo(t, steps, 0, trace, t, trace)
  {
    assert trace + [] == trace;
  }

  lemma TakenOneMore(t: Table, steps: seq<Step>, i: nat, from: seq<Tagged>, u: Table, trace: seq<Tagged>)
    requires AllWellFormed(t.arr) && i < |steps| && AllWellFormed(u.arr) && TakenTo(t, steps, i, from, u, trace)
    ensures var (v, own) := Exec(u, steps[i]);
      TakenTo(t, steps, i + 1, from, v, trace + own)
  {
    hide Exec, AllWellFormed;
    RunSnoc(t, steps[..i], steps[i]);
    assert steps[..i + 1] == steps[..i] + [steps[i]];
    var events, own := Run(t, steps[..i]).1, Exec(u, steps[i]).1;
    assert from + (events + own) == (from + events) + own;
  }

  lemma TakenEvery(t: Table, steps: seq<Step>, from: seq<Tagged>, u: Table, trace: seq<Tagged>)
    requires AllWellFormed(t.arr) && TakenTo(t, steps, |steps|, from, u, trace)
    ensures (u, trace) == (Run(t, steps).0, from + Run(t, steps).1)
  {
    assert steps[..|steps|] == steps;
  }

  lemma NotifiedOne(prims: Primitives, trace: seq<Tagged>, e: Tagged)
    ensures Notified(prims, trace + [e]) == Notified(prims, trace) + NotificationsFor(prims, e)
  {
    assert (trace + [e])[..|trace|] == trace;
  }

  /** An observer gets what went into the encryptor, whoever's key it is, unless that was empty. */
  lemma NotifiedSealed(prims: Primitives, address: Address, key: Key, id: KeyId, number: u16, seed: byte, clear: seq<byte>)
    ensures NotificationsFor(prims, Tagged(address, Delivered(Seal(prims, key, id, number, seed, clear), key))) ==
            if clear == [] then [] else [Notification(address, clear)]
  {
    var pdu := Seal(prims, key, id, number, seed, clear);
    CtrInverts(prims, key, NonceOf(MARKER, pdu.sessionData, seed), clear);
  }

  /** A batch is processed from its first frame to its last, each on what those before it left. */
  lemma FrameByFrame(t: Table, r: Received, rest: seq<Received>, now: nat)
    requires AllWellFormed(t.arr) && Sized([r] + rest)
    ensures RunFrames(t, [], now) == (t, [])
    ensures WellSized(r.frame) && Sized(rest)
    ensures var (u, events) := FrameFor(t, r.address, Read(r.frame), now);
      var (v, more) := RunFrames(u, rest, now);
      RunFrames(t, [r] + rest, now) == (v, events + more)
  {
    var batch := [r] + rest;
    assert batch[0] == r && batch[1..] == rest;
    assert r in batch && forall x :: x in rest ==> x in batch;
    var steps := FrameSteps(batch, now);
    assert steps[1..] == FrameSteps(rest, now);
    hide FrameFor, Read;
  }

  /** The data PDUs among a sender's frames. */
  function DataFrom(batch: seq<Received>, address: Address): seq<DataPdu>
    requires Sized(batch)
  {
    if batch == [] then []
    else
      assert batch[0] in batch;
      (if batch[0].address == address && Read(batch[0].frame).ReadData? then [Read(batch[0].frame).pdu] else [])
      + DataFrom(batch[1..], address)
  }

  /** What a batch makes the processor accept for a known sender: its data PDUs, in the order queued. */
  lemma {:induction false} AcceptedInOrder(t: Table, batch: seq<Received>, now: nat, address: Address)
    requires TableOk(t) && Sized(batch) && address != ZERO_ADDRESS && EntryOf(t, address).Some?
    ensures PdusOf(EventsOf(RunFrames(t, batch, now).1, address), Taken) == DataFrom(batch, address)
    decreases |batch|
  {
    if batch != [] {
      var r, rest := batch[0], batch[1..];
      assert [r] + rest == batch && r in batch;
      FrameByFrame(t, r, rest, now);
      var s := OnFrame(r.address, Read(r.frame), now);
      ExecKeepsOk(t, s);
      ExecAdmitted(t, s, address);
      var c := EntryOf(t, address).value;
      FrameAccepts(c, Read(r.frame), now);
      hide Exec, RunFrames, EntryOf, Read, HandleReading;
      var (u, events) := Exec(t, s);
      AcceptedInOrder(u, rest, now, address);
      var more := RunFrames(u, rest, now).1;
      EventsOfConcat(events, more, address);
      PdusOfConcat(EventsOf(events, address), EventsOf(more, address), Taken);
    }
  }

  lemma FrameAccepts(c: Consumer, reading: Reading, now: nat)
    requires WellFormed(c)
    ensures PdusOf(Advance(c, FrameStep(reading, now)).1, Taken) == if reading.ReadData? then [reading.pdu] else []
  {
    var b := c.(stamp := Save(c.stamp, now));
    match reading
    case ReadData(pdu) =>
      PdusOfOne(Accepted(pdu), Taken);
      DataOutcome(b, pdu, now);
      hide Touch, Lookup, PdusOf, HandleData;
      var key := Lookup(b.cache, Low(KeyIdOf(pdu.sessionData)));
      if key.None? || b.deferred != [] {
        var d := b.(cache := Touch(b.cache, Low(KeyIdOf(pdu.sessionData)), now), lastKeyId := KeyIdOf(pdu.sessionData));
        PdusOfConcat([Accepted(pdu)], Defer(d, pdu).1, Taken);
        PdusOfOne(DroppedFull(pdu), Taken);
        NoneOf(Taken);
      } else {
        PdusOfConcat([Accepted(pdu)], [Delivered(pdu, key.value)], Taken);
        PdusOfOne(Delivered(pdu, key.value), Taken);
      }
    case ReadFragment(fragment) =>
      PdusOfOne(FragmentWanted(fragment), Taken);
      NoneOf(Taken);
      hide PdusOf;
    case ReadOther => NoneOf(Taken);
  }

  lemma NoneOf(kind: Kind)
    ensures PdusOf([], kind) == []
  {}

  lemma UnrollTag(address: Address, trace: seq<Tagged>, one: seq<Event>, more: seq<Event>)
    ensures trace + TagAll(address, one + more) == trace + TagAll(address, one) + TagAll(address, more)
  {}

  lemma DataOutcome(c: Consumer, pdu: DataPdu, now: nat)
    requires WellFormed(c)
    ensures var id := KeyIdOf(pdu.sessionData);
      var key := Lookup(c.cache, Low(id));
      var d := c.(cache := Touch(c.cache, Low(id), now), lastKeyId := id);
      HandleData(c, pdu, now) ==
        if key.None? || c.deferred != [] then (Defer(d, pdu).0, [Accepted(pdu)] + Defer(d, pdu).1)
        else (d, [Accepted(pdu)] + [Delivered(pdu, key.value)])
  {
    hide Open, Touch, Lookup, Defer;
    var key := Lookup(c.cache, Low(KeyIdOf(pdu.sessionData)));
    if key.Some? {
      var delivered := Delivered(pdu, key.value);
      assert [Accepted(pdu)] + [delivered] == [Accepted(pdu), delivered];
    }
  }

  /** Whether the callback stores a key and so asks for a drain. */
  predicate NewRequest(t: Table, address: Address, id: byte, key: Key, now: nat)
    requires AllWellFormed(t.arr)
  {
    var i := Find(t.arr, address);
    i < |t.arr| && CompleteKey(Stamped(t.arr, i, now)[i].(pending := false), id, key, now).pending
  }

  lemma PendingAt(arr: seq<Consumer>, i: nat, c: Consumer)
    requires i < |arr|
    ensures AnyPending(arr[i := c]) ==> AnyPending(arr) || c.pending
    ensures arr[i].pending ==> AnyPending(arr)
  {
    var after := arr[i := c];
    if AnyPending(after) {
      var k :| 0 <= k < |after| && after[k].pending;
      assert k != i ==> arr[k].pending;
    }
  }

  /** A drain is due after the callback only if one was before or it has just stored a key. */
  lemma KeyWakes(t: Table, address: Address, id: byte, key: Key, now: nat)
    requires AllWellFormed(t.arr)
    ensures AnyPending(StoreKeyFor(t, address, id, key, now).arr) ==> AnyPending(t.arr) || NewRequest(t, address, id, key, now)
  {
    var i := Find(t.arr, address);
    if i < |t.arr| {
      var c := Stamped(t.arr, i, now)[i];
      PendingAt(t.arr, i, CompleteKey(c, id, key, now));
      assert StoreKeyFor(t, address, id, key, now).arr == t.arr[i := CompleteKey(c, id, key, now)];
      hide AddKey, EvictLru, IsKeyIn;
      assert CompleteKey(c, id, key, now).pending ==> c.pending || CompleteKey(c.(pending := false), id, key, now).pending;
    }
  }

  /** The callback raises the drain event by itself exactly for a sender it knows and a key that is new:
      for a non-zero id, one the cache does not hold. */
  lemma NewRequestIff(t: Table, address: Address, id: byte, key: Key, now: nat)
    requires AllWellFormed(t.arr) && id != 0
    requires var i := Find(t.arr, address); i < |t.arr| ==> Ok(t.arr[i].cache) && |t.arr[i].cache.slots| > 0
    ensures NewRequest(t, address, id, key, now) <==>
      var i := Find(t.arr, address); i < |t.arr| && id !in View(t.arr[i].cache)
  {
    var i := Find(t.arr, address);
    if i < |t.arr| {
      var c := Stamped(t.arr, i, now)[i].(pending := false);
      hide CompleteKey, View, Ok;
      CompleteKeyEffect(c, id, key, now);
    }
  }

  /** Frames make no drain due. */
  lemma FrameWakesNone(t: Table, address: Address, reading: Reading, now: nat)
    requires AllWellFormed(t.arr)
    ensures AnyPending(FrameFor(t, address, reading, now).0.arr) ==> AnyPending(t.arr)
  {
    var (u, index) := Acquire(t, address, now);
    if index.Some? {
      var i := index.value;
      var c := HandleReading(u.arr[i], reading, now).0;
      assert c.pending == u.arr[i].pending by { hide Touch, Lookup; }
      hide HandleReading, Find;
      PendingAt(t.arr, i, c);
      assert FrameFor(t, address, reading, now).0.arr == t.arr[i := c];
      assert u.arr[i].pending ==> t.arr[i].pending;
    }
  }

  class PduProcessor {
    const prims: Primitives
    const collection: BleConsumerCollection
    var processingQueue: seq<Received>
    var newPduEvent: bool
    var processDeferredEvent: bool
    var notifications: seq<Notification>
    /** Everything that has happened, in order. */
    ghost var trace: seq<Tagged>

    /** Table, queue and notifications are in order; what also holds in the middle of a drain event. */
    ghost predicate Orderly()
      reads this, collection, Objects(collection.arr)
    {
      && collection.Valid()
      && notifications == Notified(prims, trace)
      && |processingQueue| <= MAX_PROCESSING_QUEUE_ELEMENTS
    }

    /** And the drain event is raised wherever a drain is due. */
    ghost predicate Valid()
      reads this, collection, Objects(collection.arr)
    {
      Orderly() && (AnyPending(collection.table.arr) ==> processDeferredEvent)
    }

    ghost function Repr(): set<object> {
      {this as object, collection} + Objects(collection.arr)
    }

    constructor (prims: Primitives)
      ensures Valid() && fresh(Repr())
      ensures collection.table == FreshTable(MAX_BLE_CONSUMERS, KEY_CACHE_SIZE)
      ensures processingQueue == [] && trace == [] && this.prims == prims
    {
      this.prims := prims;
      collection := new BleConsumerCollection(MAX_BLE_CONSUMERS, KEY_CACHE_SIZE);
      processingQueue, newPduEvent, processDeferredEvent := [], false, false;
      notifications, trace := [], [];
    }

    /** Fails without effect when the queue is full. */
    method EnqueuePduForProcessing(frame: seq<byte>, address: Address) returns (sent: bool)
      requires Valid()
      modifies this
      ensures Valid() && trace == old(trace)
      ensures sent <==> |old(processingQueue)| < MAX_PROCESSING_QUEUE_ELEMENTS
      ensures processingQueue == Enqueue(old(processingQueue), Received(address, frame))
      ensures newPduEvent == (sent || old(newPduEvent))
    {
      sent := |processingQueue| < MAX_PROCESSING_QUEUE_ELEMENTS;
      if sent {
        processingQueue := processingQueue + [Received(address, frame)];
        newPduEvent := true;
      }
    }

    /** The observers have heard what the trace says they should. */
    ghost predicate Informed()
      reads this`notifications, this`trace
    {
      notifications == Notified(prims, trace)
    }

    /** Records an event; a decrypted payload goes to the observers. */
    method Emit(address: Address, event: Event)
      requires Informed()
      modifies this`notifications, this`trace
      ensures Informed() && trace == old(trace) + TagAll(address, [event])
    {
      NotifiedOne(prims, trace, Tagged(address, event));
      assert TagAll(address, [event]) == [Tagged(address, event)];
      trace := trace + [Tagged(address, event)];
      if event.Delivered? && event.pdu.payload != [] {
        notifications := notifications + [Notification(address, Open(prims, event.key, event.pdu))];
      }
    }

    method DecryptAndNotify(key: Key, pdu: DataPdu, address: Address)
      requires Informed()
      modifies this`notifications, this`trace
      ensures Informed() && trace == old(trace) + TagAll(address, [Delivered(pdu, key)])
      ensures forall id: KeyId, number: u16, seed, clear :: pdu == Seal(prims, key, id, number, seed, clear) ==>
        notifications == old(notifications) + if clear == [] then [] else [Notification(address, clear)]
    {
      NotifiedOne(prims, trace, Tagged(address, Delivered(pdu, key)));
      Emit(address, Delivered(pdu, key));
      assert trace == old(trace) + [Tagged(address, Delivered(pdu, key))];
      forall id: KeyId, number: u16, seed, clear | pdu == Seal(prims, key, id, number, seed, clear)
        ensures NotificationsFor(prims, Tagged(address, Delivered(pdu, key))) ==
                if clear == [] then [] else [Notification(address, clear)]
      {
        NotifiedSealed(prims, address, key, id, number, seed, clear);
      }
      hide Seal, NotificationsFor, Notified;
    }

    /** Puts a PDU behind the waiting ones, or loses it. */
    method AddToConsumerDeferredQueue(c: BleConsumer, pdu: DataPdu)
      requires c.Valid() && Informed()
      modifies c, this`notifications, this`trace
      ensures c.Valid() && c.view == Defer(old(c.view), pdu).0
      ensures Informed() && trace == old(trace) + TagAll(old(c.address), Defer(old(c.view), pdu).1)
    {
      var status := c.AddToDeferredQueue(pdu);
      if status != 0 {
        Emit(c.address, DroppedFull(pdu));
      } else {
        assert trace + TagAll(c.address, []) == trace;
      }
    }

    /** The data branch for one received frame. */
    method HandleDataPdu(c: BleConsumer, pdu: DataPdu, now: nat)
      requires c.Valid() && Informed()
      modifies c, c.cache, c.cache.slots, this`notifications, this`trace
      ensures c.Valid() && c.view == HandleData(old(c.view), pdu, now).0
      ensures Informed() && trace == old(trace) + TagAll(old(c.address), HandleData(old(c.view), pdu, now).1)
    {
      hide Open, Touch, Lookup, Defer, HandleData, TagAll;
      DataOutcome(c.view, pdu, now);
      var keyId := KeyIdOf(pdu.sessionData);
      var key := c.LookUpKey(keyId, now);
      ghost var before := trace;
      Emit(c.address, Accepted(pdu));
      ghost var more := if key.None? || c.deferredQueue != [] then Defer(c.view, pdu).1
                        else [Delivered(pdu, key.value)];
      UnrollTag(c.address, before, [Accepted(pdu)], more);
      var waiting := c.IsPduInDeferredQueue();
      if key.None? || waiting {
        AddToConsumerDeferredQueue(c, pdu);
      } else {
        DecryptAndNotify(key.value, pdu, c.address);
      }
    }

    /** The fragment branch: without a cached key the fragment goes to the reconstructor. */
    method HandleKeyFragmentPdu(c: BleConsumer, fragment: KeyPdu, now: nat)
      requires c.Valid() && Informed()
      modifies c, c.cache, c.cache.slots, this`notifications, this`trace
      ensures c.Valid() && c.view == HandleFragment(old(c.view), fragment, now).0
      ensures Informed() && trace == old(trace) + TagAll(old(c.address), HandleFragment(old(c.view), fragment, now).1)
    {
      var keyId := KeyIdOf(fragment.sessionData);
      var key := c.LookUpKey(keyId, now);
      if key.None? {
        Emit(c.address, FragmentWanted(fragment));
      } else {
        assert trace + TagAll(c.address, []) == trace;
      }
    }

    method HandleReceivedFrame(c: BleConsumer, frame: seq<byte>, now: nat)
      requires c.Valid() && Informed() && WellSized(frame)
      modifies c, c.cache, c.cache.slots, this`notifications, this`trace
      ensures c.Valid() && c.view == HandleReading(old(c.view), Read(frame), now).0
      ensures Informed() && trace == old(trace) + TagAll(old(c.address), HandleReading(old(c.view), Read(frame), now).1)
    {
      hide HandleData, HandleFragment;
      var command := CommandOf(frame);
      if command == DATA_CMD {
        HandleDataPdu(c, ParseData(frame), now);
      } else if command == KEY_FRAGMENT_CMD {
        HandleKeyFragmentPdu(c, ParseKey(frame), now);
      } else {
        assert trace + TagAll(c.address, []) == trace;
      }
    }

    /** Receives from the deferred queue until it is empty or the batch is full. */
    method TakeBatch(c: BleConsumer) returns (batch: seq<DataPdu>)
      requires c.Valid()
      modifies c
      ensures c.Valid() && batch == BatchOf(old(c.view))
      ensures c.view == old(c.view).(deferred := old(c.deferredQueue)[|batch|..])
    {
      batch := [];
      ghost var start, queue := c.view, c.deferredQueue;
      while |batch| < MAX_PROCESSED_PDUS_AT_ONCE
        invariant c.Valid() && |batch| <= MAX_PROCESSED_PDUS_AT_ONCE
        invariant queue == batch + c.deferredQueue
        invariant c.view == start.(deferred := c.deferredQueue)
      {
        var item := c.GetDeferredQueueItem();
        if item.None? {
          break;
        }
        batch := batch + [item.value];
      }
      Halves(batch, c.deferredQueue);
    }

    /** One drained PDU; the key in hand serves as long as the session id stays the same. */
    method DisposeOne(c: BleConsumer, pdu: DataPdu, key: Option<Key>, lastKeyId: u16, now: nat)
      returns (newKey: Option<Key>)
      requires c.Valid() && Informed()
      modifies c, c.cache, c.cache.slots, this`notifications, this`trace
      ensures c.Valid()
      ensures (c.view, newKey) == (DrainOne(old(c.view), pdu, key, lastKeyId, now).0,
                                   DrainOne(old(c.view), pdu, key, lastKeyId, now).1)
      ensures Informed()
      ensures trace == old(trace) + TagAll(old(c.address), DrainOne(old(c.view), pdu, key, lastKeyId, now).2)
    {
      newKey := key;
      var keyId := PduKeyId(pdu);
      if lastKeyId != keyId {
        newKey := c.LookUpCached(keyId, now);
      }
      if newKey.Some? {
        DecryptAndNotify(newKey.value, pdu, c.address);
      } else if keyId == c.lastPduKeyId {
        AddToConsumerDeferredQueue(c, pdu);
      } else {
        Emit(c.address, DroppedStale(pdu));
      }
    }

    /** Takes up to one batch out of the deferred queue, then disposes of it PDU by PDU, looking a
        key up again only when the session id changes. */
    method ProcessDeferredQueue(c: BleConsumer, now: nat) returns (processed: int)
      requires c.Valid() && Informed()
      modifies c, c.cache, c.cache.slots, this`notifications, this`trace
      ensures c.Valid() && c.view == ProcessDeferred(old(c.view), now).0
      ensures Informed() && trace == old(trace) + TagAll(old(c.address), ProcessDeferred(old(c.view), now).1)
      ensures processed == if old(c.deferredQueue) == [] then -1 else |BatchOf(old(c.view))|
    {
      hide DrainOne;
      var batch := TakeBatch(c);
      if batch == [] {
        assert trace + TagAll(c.address, []) == trace;
        return -1;
      }
      var lastKeyId := PduKeyId(batch[0]);
      var key := c.LookUpCached(lastKeyId, now);
      ghost var start, from, key0, id0 := c.view, trace, key, lastKeyId;
      for i := 0 to |batch|
        invariant c.Valid() && Informed() && c.address == start.address
        invariant i > 0 ==> lastKeyId == PduKeyId(batch[i - 1])
        invariant |trace| >= |from|
        invariant i == 0 ==> lastKeyId == id0
        invariant DrainLoop(start, batch, key0, id0, now).0 ==
                  DrainLoop(c.view, batch[i..], key, lastKeyId, now).0
        invariant from + TagAll(start.address, DrainLoop(start, batch, key0, id0, now).1) ==
                  trace + TagAll(start.address, DrainLoop(c.view, batch[i..], key, lastKeyId, now).1)
      {
        var pdu := batch[i];
        assert batch[i..][0] == pdu && batch[i..][1..] == batch[i + 1..];
        ghost var before, keyBefore, idBefore := c.view, key, lastKeyId;
        ghost var traceBefore := trace;
        key := DisposeOne(c, pdu, key, lastKeyId, now);
        lastKeyId := PduKeyId(pdu);
        UnrollTag(start.address, traceBefore, DrainOne(before, pdu, keyBefore, idBefore, now).2,
                  DrainLoop(c.view, batch[i + 1..], key, lastKeyId, now).1);
      }
      processed := |batch|;
    }

    /** One sender's part of a drain event. */
    method DrainRecord(c: BleConsumer, now: nat)
      requires c.Valid() && Informed()
      modifies c, c.cache, c.cache.slots, this`notifications, this`trace, this`processDeferredEvent
      ensures c.Valid() && c.view == Drain(old(c.view), now).0
      ensures Informed() && trace == old(trace) + TagAll(old(c.address), Drain(old(c.view), now).1)
      ensures processDeferredEvent == (old(processDeferredEvent) || c.view.pending)
    {
      hide ProcessDeferred;
      if c.processDeferredRequestPending {
        var _ := ProcessDeferredQueue(c, now);
        var waiting := c.IsPduInDeferredQueue();
        if !waiting {
          c.SetDeferredPending(false);
        } else {
          processDeferredEvent := true;
        }
      } else {
        assert trace + TagAll(c.address, []) == trace;
      }
    }

    method DrainEntry(i: nat, now: nat)
      requires Orderly() && i < |collection.arr|
      modifies this`notifications, this`trace, this`processDeferredEvent, collection`table, Objects(collection.arr)
      ensures Orderly()
      ensures collection.table.arr ==
              old(collection.table.arr)[i := Drain(old(collection.table.arr)[i], now).0]
      ensures trace == old(trace) + TagAll(old(collection.table.arr)[i].address,
                                           Drain(old(collection.table.arr)[i], now).1)
      ensures processDeferredEvent == (old(processDeferredEvent) || collection.table.arr[i].pending)
    {
      hide Drain;
      var arr := collection.arr;
      PartsIn(arr, i);
      DrainRecord(arr[i], now);
      forall j | 0 <= j < |arr| && j != i
        ensures arr[j].Valid() && arr[j].view == old(arr[j].view)
      {
        Kept(arr[j]);
      }
      collection.Refresh(i, arr[i].view);
    }

    /** The drain event: every sender with a pending request gets one batch processed, and the event
        is raised again while any of them has PDUs waiting. */
    method HandleEventProcessDeferredPdus(now: nat)
      requires Valid()
      modifies this`notifications, this`trace, this`processDeferredEvent, collection`table, Objects(collection.arr)
      ensures Valid()
      ensures collection.table.active == old(collection.table.active)
      ensures (collection.table.arr, trace) == (DrainAll(old(collection.table.arr), now).0,
                                                old(trace) + DrainAll(old(collection.table.arr), now).1)
      ensures processDeferredEvent <==> AnyPending(collection.table.arr)
    {
      hide Drain, DrainAll;
      processDeferredEvent := false;
      DrainRecords(now);
    }

    method DrainRecords(now: nat)
      requires Orderly() && !processDeferredEvent
      modifies this`notifications, this`trace, this`processDeferredEvent, collection`table, Objects(collection.arr)
      ensures Orderly()
      ensures (collection.table.arr, trace) == (DrainAll(old(collection.table.arr), now).0,
                                                old(trace) + DrainAll(old(collection.table.arr), now).1)
      ensures processDeferredEvent <==> AnyPending(collection.table.arr)
    {
      hide Drain, DrainAll, DrainedTo, AnyPending;
      ghost var before, from := collection.table.arr, trace;
      DrainedNone(before, now, trace);
      for i := 0 to |collection.arr|
        invariant Orderly() && |collection.table.arr| == |before|
        invariant DrainedTo(before, i, now, from, collection.table.arr, trace)
        invariant processDeferredEvent <==> AnyPending(collection.table.arr[..i])
      {
        ghost var arr, last := collection.table.arr, trace;
        DrainEntry(i, now);
        DrainedOneMore(before, i, now, from, arr, last, collection.table.arr, trace);
      }
      DrainedEvery(before, now, from, collection.table.arr, trace);
    }

    /** The callback for one known sender. */
    method StoreKeyForRecord(c: BleConsumer, id: byte, key: Key, now: nat)
      requires c.Valid()
      modifies c, c.cache, c.cache.slots, this`processDeferredEvent
      ensures c.Valid() && c.view == CompleteKey(old(c.view), id, key, now)
      ensures processDeferredEvent ==
              (old(processDeferredEvent) || CompleteKey(old(c.view).(pending := false), id, key, now).pending)
    {
      hide CompleteKey;
      var stored := c.StoreKey(id, key, now);
      if stored {
        c.SetDeferredPending(true);
        processDeferredEvent := true;
      }
    }

    /** Runs on the reconstructor's task once a key is complete. */
    method KeyReconstructionComplete(id: byte, key: Key, address: Address, now: nat)
      requires Valid()
      modifies this`processDeferredEvent, collection`table, Objects(collection.arr)
      ensures Valid()
      ensures collection.table == StoreKeyFor(old(collection.table), address, id, key, now)
      ensures processDeferredEvent ==
              (old(processDeferredEvent) || NewRequest(old(collection.table), address, id, key, now))
    {
      hide CompleteKey, Save, Find, WellFormed, AnyPending;
      KeyWakes(collection.table, address, id, key, now);
      var index := collection.GetBleConsumer(address, now);
      if index >= 0 {
        CompleteEntry(index, id, key, now);
      }
    }

    method CompleteEntry(i: nat, id: byte, key: Key, now: nat)
      requires Orderly() && i < |collection.arr|
      modifies this`processDeferredEvent, collection`table, Objects(collection.arr)
      ensures Orderly()
      ensures var c := old(collection.table.arr)[i];
        && collection.table.arr == old(collection.table.arr)[i := CompleteKey(c, id, key, now)]
        && processDeferredEvent ==
             (old(processDeferredEvent) || CompleteKey(c.(pending := false), id, key, now).pending)
    {
      hide CompleteKey;
      var arr := collection.arr;
      PartsIn(arr, i);
      StoreKeyForRecord(arr[i], id, key, now);
      forall j | 0 <= j < |arr| && j != i
        ensures arr[j].Valid() && arr[j].view == old(arr[j].view)
      {
        Kept(arr[j]);
      }
      collection.Refresh(i, arr[i].view);
    }

    /** Finds or admits the sender of a frame; -1 if the table is full. */
    method AcquireConsumer(address: Address, now: nat) returns (index: int)
      requires Orderly()
      modifies collection, Objects(collection.arr)
      ensures Orderly()
      ensures -1 <= index < |collection.arr|
      ensures collection.table == Acquire(old(collection.table), address, now).0
      ensures index == if Acquire(old(collection.table), address, now).1.Some?
                       then Acquire(old(collection.table), address, now).1.value else -1
    {
      hide Admitted, Save;
      index := collection.GetBleConsumer(address, now);
      if index < 0 && collection.consumersCount < MAX_BLE_CONSUMERS {
        index := collection.AddConsumer(address, now);
      }
    }

    /** Everything done for one received frame; a frame of a sender that cannot be admitted is lost. */
    method ProcessFrame(r: Received, now: nat)
      requires Valid() && WellSized(r.frame)
      modifies this`notifications, this`trace, collection, Objects(collection.arr)
      ensures Valid()
      ensures collection.table == FrameFor(old(collection.table), r.address, Read(r.frame), now).0
      ensures trace == old(trace) + FrameFor(old(collection.table), r.address, Read(r.frame), now).1
    {
      hide HandleReading, WellFormed, Acquire, Read, TagAll, Informed, AnyPending, Find, Notified, Separate;
      FrameWakesNone(collection.table, r.address, Read(r.frame), now);
      var index := AcquireConsumer(r.address, now);
      if index >= 0 {
        HandleFrameAt(index, r.frame, now);
      }
    }

    method HandleFrameAt(i: nat, frame: seq<byte>, now: nat)
      requires Orderly() && WellSized(frame) && i < |collection.arr|
      modifies this`notifications, this`trace, collection`table, Objects(collection.arr)
      ensures Orderly()
      ensures var c := old(collection.table.arr)[i];
        && collection.table.arr == old(collection.table.arr)[i := HandleReading(c, Read(frame), now).0]
        && trace == old(trace) + TagAll(c.address, HandleReading(c, Read(frame), now).1)
    {
      hide HandleReading;
      var arr := collection.arr;
      PartsIn(arr, i);
      HandleReceivedFrame(arr[i], frame, now);
      forall j | 0 <= j < |arr| && j != i
        ensures arr[j].Valid() && arr[j].view == old(arr[j].view)
      {
        Kept(arr[j]);
      }
      collection.Refresh(i, arr[i].view);
    }

    /** The new-PDU event: receive until the queue is empty or the batch is full, then process the
        batch in order. The event is not raised again for what is left behind a full batch. */
    method HandleEventNewPdu(now: nat)
      requires Valid() && Sized(processingQueue)
      modifies Repr()
      ensures Valid() && processDeferredEvent == old(processDeferredEvent) && !newPduEvent
      ensures processingQueue == [] <==> |old(processingQueue)| <= MAX_PROCESSED_PDUS_AT_ONCE
      ensures var n := if |old(processingQueue)| <= MAX_PROCESSED_PDUS_AT_ONCE then |old(processingQueue)|
                       else MAX_PROCESSED_PDUS_AT_ONCE;
        var (t, events) := RunFrames(old(collection.table), old(processingQueue)[..n], now);
        && processingQueue == old(processingQueue)[n..]
        && collection.table == t && trace == old(trace) + events
    {
      hide Run, RunFrames;
      newPduEvent := false;
      var batch := ReceiveBatch();
      ProcessBatch(batch, now);
    }

    method ReceiveBatch() returns (batch: seq<Received>)
      requires Valid()
      modifies this`processingQueue
      ensures Valid()
      ensures var n := if |old(processingQueue)| <= MAX_PROCESSED_PDUS_AT_ONCE then |old(processingQueue)|
                       else MAX_PROCESSED_PDUS_AT_ONCE;
        batch == old(processingQueue)[..n] && processingQueue == old(processingQueue)[n..]
    {
      batch := [];
      ghost var queue := processingQueue;
      while |batch| < MAX_PROCESSED_PDUS_AT_ONCE && processingQueue != []
        invariant |batch| <= MAX_PROCESSED_PDUS_AT_ONCE && queue == batch + processingQueue
        decreases |processingQueue|
      {
        batch := batch + [processingQueue[0]];
        processingQueue := processingQueue[1..];
      }
      Halves(batch, processingQueue);
    }

    method ProcessBatch(batch: seq<Received>, now: nat)
      requires Valid() && Sized(batch)
      modifies this`notifications, this`trace, collection, Objects(collection.arr)
      ensures Valid()
      ensures (collection.table, trace) == (RunFrames(old(collection.table), batch, now).0,
                                            old(trace) + RunFrames(old(collection.table), batch, now).1)
    {
      hide FrameFor, TakenTo, Read;
      ghost var t, from, steps := collection.table, trace, FrameSteps(batch, now);
      TakenNone(t, steps, trace);
      for i := 0 to |batch|
        invariant Valid()
        invariant TakenTo(t, steps, i, from, collection.table, trace)
      {
        TakenOneMore(t, steps, i, from, collection.table, trace);
        ProcessFrame(batch[i], now);
      }
      TakenEvery(t, steps, from, collection.table, trace);
    }
  }

  /** The first `i` entries have had their part of a drain event, which began with trace `from`. */
  ghost predicate DrainedTo(before: seq<Consumer>, i: nat, now: nat, from: seq<Tagged>,
                            arr: seq<Consumer>, trace: seq<Tagged>)
    requires AllWellFormed(before) && i <= |before|
  {
    var (done, events) := DrainAll(before[..i], now);
    arr == done + before[i..] && trace == from + events
  }

  lemma DrainedNone(before: seq<Consumer>, now: nat, trace: seq<Tagged>)
    requires AllWellFormed(before)
    ensures DrainedTo(before, 0, now, trace, before, trace)
    ensures !AnyPending(before[..0])
  {
    assert before[..0] == [] && trace + [] == trace;
  }

  lemma DrainedOneMore(before: seq<Consumer>, i: nat, now: nat, from: seq<Tagged>,
                       arr: seq<Consumer>, trace: seq<Tagged>, arr': seq<Consumer>, trace': seq<Tagged>)
    requires AllWellFormed(before) && i < |before| == |arr| && WellFormed(arr[i])
    requires DrainedTo(before, i, now, from, arr, trace)
    requires arr' == arr[i := Drain(arr[i], now).0]
    requires trace' == trace + TagAll(arr[i].address, Drain(arr[i], now).1)
    ensures DrainedTo(before, i + 1, now, from, arr', trace')
    ensures AnyPending(arr'[..i + 1]) <==> AnyPending(arr[..i]) || arr'[i].pending
  {
    hide Drain, WellFormed;
    assert before[..i + 1][..i] == before[..i];
    Advanced(DrainAll(before[..i], now).0, before, i, arr'[i]);
    assert arr'[..i + 1] == arr[..i] + [arr'[i]];
    AnyPendingNext(arr[..i], arr'[i]);
  }

  lemma DrainedEvery(before: seq<Consumer>, now: nat, from: seq<Tagged>, arr: seq<Consumer>, trace: seq<Tagged>)
    requires AllWellFormed(before) && |arr| == |before|
    requires DrainedTo(before, |before|, now, from, arr, trace)
    ensures (arr, trace) == (DrainAll(before, now).0, from + DrainAll(before, now).1)
    ensures arr[..|before|] == arr
  {
    hide DrainAll;
    assert before[..|before|] == before && before[|before|..] == [];
    var done := DrainAll(before, now).0;
    assert done + [] == done;
  }

  lemma Advanced(done: seq<Consumer>, before: seq<Consumer>, i: nat, c: Consumer)
    requires |done| == i < |before|
    ensures (done + before[i..])[i := c] == (done + [c]) + before[i + 1..]
    ensures (done + before[i..])[i] == before[i]
  {}

  lemma AnyPendingNext(done: seq<Consumer>, c: Consumer)
    ensures AnyPending(done + [c]) <==> AnyPending(done) || c.pending
  {
    if AnyPending(done) {
      var k :| 0 <= k < |done| && done[k].pending;
      assert (done + [c])[k].pending;
    }
    if c.pending { assert (done + [c])[|done|].pending; }
  }
}
