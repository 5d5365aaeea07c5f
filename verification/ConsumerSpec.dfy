/** What the observer keeps for one sender, as a value, and what each step of the PDU processor
    does to it. */
module ConsumerSpec {
  import opened Bytes
  import opened Crypto
  import opened Options
  import opened TickStamp
  import opened Wire
  import opened KeyCacheSpec

  const DEFERRED_QUEUE_SIZE := 80
  const KEY_CACHE_SIZE := 5
  const MAX_PROCESSED_PDUS_AT_ONCE := 20

  datatype Consumer = Consumer(
    address: Address,
    stamp: Stamp,
    lastKeyId: u16,
    removedKey: int,
    pending: bool,
    deferred: seq<DataPdu>,
    cache: Cache)

  /** What a step lets the outside see, or loses. A PDU is delivered with the key it is opened with. */
  datatype Event =
    | Accepted(pdu: DataPdu)
    | Delivered(pdu: DataPdu, key: Key)
    | DroppedFull(pdu: DataPdu)
    | DroppedStale(pdu: DataPdu)
    | FragmentWanted(fragment: KeyPdu)

  predicate WellFormed(c: Consumer) {
    && InBounds(c.cache)
    && |c.deferred| <= DEFERRED_QUEUE_SIZE
  }

  function FreshConsumer(cacheSize: nat): Consumer {
    Consumer(ZERO_ADDRESS, FRESH, 0, 0, false, [], FreshCache(cacheSize))
  }

  /** The last seen session id is the one field a reset leaves alone. */
  function Reset(c: Consumer): Consumer {
    c.(address := ZERO_ADDRESS, stamp := FRESH, removedKey := -1, pending := false, deferred := [],
       cache := ClearTo(c.cache, |c.cache.slots|))
  }

  function PduKeyId(pdu: DataPdu): KeyId {
    KeyIdOf(pdu.sessionData)
  }

  function Defer(c: Consumer, pdu: DataPdu): (Consumer, seq<Event>) {
    if |c.deferred| < DEFERRED_QUEUE_SIZE then (c.(deferred := c.deferred + [pdu]), [])
    else (c, [DroppedFull(pdu)])
  }

  /** A PDU is decrypted at once only if its key is cached and nothing is waiting. */
  function HandleData(c: Consumer, pdu: DataPdu, now: nat): (r: (Consumer, seq<Event>))
    requires WellFormed(c)
    ensures WellFormed(r.0) && r.0.address == c.address
  {
    var keyId := PduKeyId(pdu);
    var key := Lookup(c.cache, Low(keyId));
    var d := c.(cache := Touch(c.cache, Low(keyId), now), lastKeyId := keyId);
    if key.None? || c.deferred != [] then
      var (e, events) := Defer(d, pdu);
      (e, [Accepted(pdu)] + events)
    else (d, [Accepted(pdu), Delivered(pdu, key.value)])
  }

  /** A fragment is passed on for reconstruction unless its key is cached. */
  function HandleFragment(c: Consumer, fragment: KeyPdu, now: nat): (r: (Consumer, seq<Event>))
    requires WellFormed(c)
    ensures WellFormed(r.0) && r.0.address == c.address
  {
    var keyId := KeyIdOf(fragment.sessionData);
    var key := Lookup(c.cache, Low(keyId));
    var d := c.(cache := Touch(c.cache, Low(keyId), now), lastKeyId := keyId);
    (d, if key.None? then [FragmentWanted(fragment)] else [])
  }

  function HandleReading(c: Consumer, reading: Reading, now: nat): (r: (Consumer, seq<Event>))
    requires WellFormed(c)
    ensures WellFormed(r.0) && r.0.address == c.address
  {
    match reading
    case ReadData(pdu) => HandleData(c, pdu, now)
    case ReadFragment(fragment) => HandleFragment(c, fragment, now)
    case ReadOther => (c, [])
  }

  /** The loop over a drained batch. `key` was looked up for session `lastId` and is looked up
      again only when the session id changes. */
  function DrainLoop(c: Consumer, batch: seq<DataPdu>, key: Option<Key>, lastId: u16, now: nat)
    : (r: (Consumer, seq<Event>))
    requires WellFormed(c)
    ensures WellFormed(r.0) && r.0.address == c.address && r.0.pending == c.pending
    ensures r.0.lastKeyId == c.lastKeyId
    decreases |batch|
  {
    if batch == [] then (c, [])
    else
      var (d, key', events) := DrainOne(c, batch[0], key, lastId, now);
      var (e, more) := DrainLoop(d, batch[1..], key', PduKeyId(batch[0]), now);
      (e, events + more)
  }

  function DrainOne(c: Consumer, pdu: DataPdu, key: Option<Key>, lastId: u16, now: nat)
    : (r: (Consumer, Option<Key>, seq<Event>))
    requires WellFormed(c)
    ensures WellFormed(r.0) && r.0.address == c.address && r.0.pending == c.pending
    ensures r.0.lastKeyId == c.lastKeyId
  {
    var keyId := PduKeyId(pdu);
    if keyId == lastId then
      var (d, events) := Dispose(c, pdu, key);
      (d, key, events)
    else
      var key' := Lookup(c.cache, Low(keyId));
      var (d, events) := Dispose(c.(cache := Touch(c.cache, Low(keyId), now)), pdu, key');
      (d, key', events)
  }

  /** What happens to one drained PDU: delivered with its key, put back if its session is the last
      one seen, lost otherwise. */
  function Dispose(c: Consumer, pdu: DataPdu, key: Option<Key>): (r: (Consumer, seq<Event>))
    requires WellFormed(c)
    ensures WellFormed(r.0) && r.0 == c.(deferred := r.0.deferred)
  {
    if key.Some? then (c, [Delivered(pdu, key.value)])
    else if PduKeyId(pdu) == c.lastKeyId then Defer(c, pdu)
    else (c, [DroppedStale(pdu)])
  }

  function BatchOf(c: Consumer): seq<DataPdu> {
    if |c.deferred| <= MAX_PROCESSED_PDUS_AT_ONCE then c.deferred else c.deferred[..MAX_PROCESSED_PDUS_AT_ONCE]
  }

  function ProcessDeferred(c: Consumer, now: nat): (r: (Consumer, seq<Event>))
    requires WellFormed(c)
    ensures WellFormed(r.0) && r.0.address == c.address && r.0.pending == c.pending
    ensures r.0.lastKeyId == c.lastKeyId
  {
    var batch := BatchOf(c);
    if batch == [] then (c, [])
    else
      var firstId := PduKeyId(batch[0]);
      var d := c.(deferred := c.deferred[|batch|..], cache := Touch(c.cache, Low(firstId), now));
      DrainLoop(d, batch, Lookup(c.cache, Low(firstId)), firstId, now)
  }

  /** One drain event, seen by this sender: the request stays pending while PDUs are waiting. */
  function Drain(c: Consumer, now: nat): (r: (Consumer, seq<Event>))
    requires WellFormed(c)
    ensures WellFormed(r.0) && r.0.address == c.address
  {
    if !c.pending then (c, [])
    else
      var (d, events) := ProcessDeferred(c, now);
      (d.(pending := d.deferred != []), events)
  }

  /** The reconstructor's callback. A full cache gives up its least recently used key; note that
      what is remembered about it is the slot it sat in. */
  function CompleteKey(c: Consumer, id: byte, key: Key, now: nat): (d: Consumer)
    requires WellFormed(c)
    ensures WellFormed(d) && d.address == c.address
  {
    if IsKeyIn(c.cache, id) then c
    else
      var (cache1, status1) := AddKey(c.cache, key, id, now);
      if status1 == -1 then
        var (cache2, index) := EvictLru(cache1);
        var (cache3, status2) := AddKey(cache2, key, id, now);
        c.(cache := cache3, removedKey := index, pending := c.pending || status2 == 0)
      else c.(cache := cache1, pending := c.pending || status1 == 0)
  }

  /** The steps of the processor that can touch one sender. */
  datatype ConsumerStep =
    | FrameStep(reading: Reading, at: nat)
    | KeyStep(id: byte, key: Key, at: nat)
    | DrainStep(at: nat)

  /** Looking a sender up, for a frame or for a key, stamps it first. */
  function Advance(c: Consumer, step: ConsumerStep): (r: (Consumer, seq<Event>))
    requires WellFormed(c)
    ensures WellFormed(r.0) && r.0.address == c.address
  {
    match step
    case FrameStep(reading, at) => HandleReading(c.(stamp := Save(c.stamp, at)), reading, at)
    case KeyStep(id, key, at) => (CompleteKey(c.(stamp := Save(c.stamp, at)), id, key, at), [])
    case DrainStep(at) => Drain(c, at)
  }

  function RunConsumer(c: Consumer, steps: seq<ConsumerStep>): (r: (Consumer, seq<Event>))
    requires WellFormed(c)
    ensures WellFormed(r.0) && r.0.address == c.address
    decreases |steps|
  {
    if steps == [] then (c, [])
    else
      var (d, events) := Advance(c, steps[0]);
      var (e, more) := RunConsumer(d, steps[1..]);
      (e, events + more)
  }
}
