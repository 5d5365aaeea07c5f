/** What it means for keys, frames, PDUs and fragments to be genuine, and that the steps of one
    sender's record at the observer keep them so. Nothing is assumed of the session ids. */
module Genuine {
  import opened Bytes
  import opened Crypto
  import opened Options
  import opened Wire
  import Keys = KeyCacheSpec
  import opened BroadcasterSpec
  import opened ConsumerSpec
  import Rebuild = ReconstructorSpec
  import opened SystemSpec

  // ---- Where keys come from ---------------------------------------------------------------------------

  /** Fragment `f` at index `i` is of a session whose low byte is zero, and fragments of that session have
      been left where any key may come to include them. */
  ghost predicate StrayOrigin(w: World, i: FragmentIndex, f: Fragment) {
    exists o :: o in w.sessions && PairFor(o.address, o.session) in w.strays && Low(o.session.keyId) == 0
      && FragmentOf(o.session.key, i) == f
  }

  /** Fragment `f` at index `i` may turn up in a key collected for `p`: it belongs to a session that goes
      by `p`, or is a stray. */
  ghost predicate Origin(w: World, p: Rebuild.Pair, i: FragmentIndex, f: Fragment) {
    || StrayOrigin(w, i, f)
    || exists o :: o in w.sessions && PairFor(o.address, o.session) == p && FragmentOf(o.session.key, i) == f
  }

  ghost predicate MadeOf(w: World, p: Rebuild.Pair, key: Key) {
    forall i: FragmentIndex :: Origin(w, p, i, FragmentOf(key, i))
  }

  /** A key the observer may use for a PDU of sender `address` whose id has low byte `id`. Low byte zero
      finds any key of that sender, or a blank one. */
  ghost predicate Usable(w: World, address: Address, id: byte, key: Key) {
    if id != 0 then MadeOf(w, Rebuild.Pair(address, id), key)
    else key == BLANK_KEY || exists x: byte :: MadeOf(w, Rebuild.Pair(address, x), key)
  }

  // ---- What is true of the things that travel -------------------------------------------------------

  /** Payloads are sealed with the key of an opened session, and come back under it. */
  ghost predicate WorldOk(prims: Primitives, w: World) {
    && (forall o :: o in w.sessions ==> o.address != ZERO_ADDRESS)
    && (forall r :: r in w.sealed ==>
          && Opened(r.address, Session(r.key, PduKeyId(r.pdu))) in w.sessions
          && Open(prims, r.key, r.pdu) == r.clear)
  }

  /** History only grows. */
  ghost predicate Extends(w: World, v: World) {
    w.sessions <= v.sessions && w.sealed <= v.sealed && w.strays <= v.strays
  }

  ghost predicate Sent(w: World, address: Address, pdu: DataPdu) {
    exists clear, key :: Sealed(address, pdu, clear, key) in w.sealed
  }

  ghost predicate ElementOk(prims: Primitives, w: World, e: Rebuild.Element) {
    exists o :: o in w.sessions && PairFor(o.address, o.session) == Rebuild.PairOf(e)
      && OpenFragment(prims, e.masked, e.seed, e.tag) == Some(FragmentOf(o.session.key, e.index))
  }

  ghost predicate ReadingOk(prims: Primitives, w: World, address: Address, reading: Reading) {
    match reading
    case ReadData(pdu) => Sent(w, address, pdu)
    case ReadFragment(fragment) => ElementOk(prims, w, Rebuild.ElementOf(address, fragment))
    case ReadOther => true
  }

  ghost predicate FrameOk(prims: Primitives, w: World, address: Address, frame: seq<byte>) {
    WellSized(frame) && ReadingOk(prims, w, address, Read(frame))
  }

  ghost predicate EventOk(prims: Primitives, w: World, address: Address, e: Event) {
    match e
    case Delivered(pdu, key) => Sent(w, address, pdu) && Usable(w, address, Low(PduKeyId(pdu)), key)
    case FragmentWanted(fragment) => ElementOk(prims, w, Rebuild.ElementOf(address, fragment))
    case _ => true
  }

  ghost predicate EventsOk(prims: Primitives, w: World, address: Address, events: seq<Event>) {
    forall e :: e in events ==> EventOk(prims, w, address, e)
  }

  /** A live slot holds a key made of its id's fragments; a free one is blank or was filled under id 0. */
  ghost predicate SlotOk(w: World, address: Address, slot: Keys.Slot) {
    (slot.id == 0 && slot.key == BLANK_KEY) || MadeOf(w, Rebuild.Pair(address, slot.id), slot.key)
  }

  ghost predicate CacheOk(w: World, address: Address, cache: Keys.Cache) {
    && Keys.Ok(cache)
    && (forall i :: 0 <= i < |cache.slots| ==> SlotOk(w, address, cache.slots[i]))
  }

  ghost predicate ConsumerOk(w: World, c: Consumer) {
    && WellFormed(c) && CacheOk(w, c.address, c.cache)
    && (forall pdu :: pdu in c.deferred ==> Sent(w, c.address, pdu))
  }

  /** Two keys whose keystreams agree over a PDU's payload. */
  predicate SameKeystream(prims: Primitives, pdu: DataPdu, key: Key, other: Key) {
    var nonce := NonceOf(pdu.marker, pdu.sessionData, pdu.seed);
    forall i :: 0 <= i < |pdu.payload| ==> prims.keystream(key, nonce, i) == prims.keystream(other, nonce, i)
  }

  /** Two keys open a PDU alike exactly when their keystreams agree over its payload. */
  lemma OpensAlikeIff(prims: Primitives, pdu: DataPdu, key: Key, other: Key)
    ensures Open(prims, key, pdu) == Open(prims, other, pdu) <==> SameKeystream(prims, pdu, key, other)
  {
    var nonce := NonceOf(pdu.marker, pdu.sessionData, pdu.seed);
    var one, two := Open(prims, key, pdu), Open(prims, other, pdu);
    forall i | 0 <= i < |pdu.payload|
      ensures one[i] == two[i] <==> prims.keystream(key, nonce, i) == prims.keystream(other, nonce, i)
    {
      XorSameIff(pdu.payload[i], prims.keystream(key, nonce, i), prims.keystream(other, nonce, i));
    }
  }

  // ---- The cache's operations ---------------------------------------------------------------------------

  ghost predicate KeyUsable(w: World, address: Address, id: KeyId, key: Option<Key>) {
    key.Some? ==> Usable(w, address, Low(id), key.value)
  }

  lemma LookupUsable(w: World, address: Address, cache: Keys.Cache, id: KeyId)
    requires CacheOk(w, address, cache)
    ensures KeyUsable(w, address, id, Keys.Lookup(cache, Low(id)))
  {
    var i := Keys.Target(cache, Low(id));
    hide MadeOf;
    if i < |cache.slots| {
      assert SlotOk(w, address, cache.slots[i]);
    }
  }

  lemma TouchKeepsCacheOk(w: World, address: Address, cache: Keys.Cache, id: byte, now: nat)
    requires CacheOk(w, address, cache)
    ensures CacheOk(w, address, Keys.Touch(cache, id, now))
  {
    Keys.TouchOk(cache, id, now);
    hide Keys.Ok, MadeOf;
  }

  lemma AddKeepsCacheOk(w: World, address: Address, cache: Keys.Cache, key: Key, id: byte, now: nat)
    requires CacheOk(w, address, cache) && MadeOf(w, Rebuild.Pair(address, id), key)
    ensures CacheOk(w, address, Keys.AddKey(cache, key, id, now).0)
  {
    Keys.AddOk(cache, key, id, now);
    hide Keys.Ok, MadeOf;
  }

  lemma EvictKeepsCacheOk(w: World, address: Address, cache: Keys.Cache, now: nat)
    requires CacheOk(w, address, cache)
    ensures CacheOk(w, address, Keys.EvictLru(cache).0)
  {
    Keys.OpKeepsOk(cache, Keys.Evict, now);
    hide Keys.Ok, MadeOf;
  }

  lemma {:induction false} ClearedToBlank(cache: Keys.Cache, n: nat)
    requires n <= |cache.slots|
    ensures forall i :: 0 <= i < n ==> Keys.ClearTo(cache, n).slots[i].id == 0 && Keys.ClearTo(cache, n).slots[i].key == BLANK_KEY
  {
    if n > 0 { ClearedToBlank(cache, n - 1); }
  }

  lemma CompleteKeyOk(w: World, c: Consumer, id: byte, key: Key, now: nat)
    requires ConsumerOk(w, c) && MadeOf(w, Rebuild.Pair(c.address, id), key)
    ensures ConsumerOk(w, CompleteKey(c, id, key, now))
  {
    var cache1 := Keys.AddKey(c.cache, key, id, now).0;
    AddKeepsCacheOk(w, c.address, c.cache, key, id, now);
    EvictKeepsCacheOk(w, c.address, cache1, now);
    AddKeepsCacheOk(w, c.address, Keys.EvictLru(cache1).0, key, id, now);
    hide CacheOk, Keys.AddKey, Keys.EvictLru, Keys.IsKeyIn, MadeOf, Sent;
  }

  // ---- One sender's steps at the observer -------------------------------------------------------------

  lemma OpenedOk(prims: Primitives, w: World, address: Address, pdu: DataPdu, key: Option<Key>)
    requires Sent(w, address, pdu) && key.Some? && KeyUsable(w, address, PduKeyId(pdu), key)
    ensures EventOk(prims, w, address, Delivered(pdu, key.value))
  {
    hide Usable, Open, Sent;
  }

  lemma DeferOk(prims: Primitives, w: World, c: Consumer, pdu: DataPdu)
    requires ConsumerOk(w, c) && Sent(w, c.address, pdu)
    ensures ConsumerOk(w, Defer(c, pdu).0) && EventsOk(prims, w, c.address, Defer(c, pdu).1)
  {
    hide CacheOk, Sent;
  }

  lemma HandleDataOk(prims: Primitives, w: World, c: Consumer, pdu: DataPdu, now: nat)
    requires ConsumerOk(w, c) && Sent(w, c.address, pdu)
    ensures var (d, events) := HandleData(c, pdu, now);
      ConsumerOk(w, d) && EventsOk(prims, w, c.address, events)
  {
    var keyId := PduKeyId(pdu);
    LookupUsable(w, c.address, c.cache, keyId);
    TouchKeepsCacheOk(w, c.address, c.cache, Low(keyId), now);
    var key := Keys.Lookup(c.cache, Low(keyId));
    var d := c.(cache := Keys.Touch(c.cache, Low(keyId), now), lastKeyId := keyId);
    hide Keys.Lookup, Keys.Touch, CacheOk, Sent, KeyUsable, Open, Low;
    DeferOk(prims, w, d, pdu);
    if key.Some? { OpenedOk(prims, w, c.address, pdu, key); }
  }

  lemma HandleFragmentOk(prims: Primitives, w: World, c: Consumer, fragment: KeyPdu, now: nat)
    requires ConsumerOk(w, c) && ElementOk(prims, w, Rebuild.ElementOf(c.address, fragment))
    ensures var (d, events) := HandleFragment(c, fragment, now);
      ConsumerOk(w, d) && EventsOk(prims, w, c.address, events)
  {
    TouchKeepsCacheOk(w, c.address, c.cache, Low(KeyIdOf(fragment.sessionData)), now);
    hide Keys.Lookup, Keys.Touch, CacheOk, Sent, ElementOk;
  }

  lemma HandleReadingOk(prims: Primitives, w: World, c: Consumer, reading: Reading, now: nat)
    requires ConsumerOk(w, c) && ReadingOk(prims, w, c.address, reading)
    ensures var (d, events) := HandleReading(c, reading, now);
      ConsumerOk(w, d) && EventsOk(prims, w, c.address, events)
  {
    hide ConsumerOk, Sent, ElementOk, HandleData, HandleFragment;
    match reading
    case ReadData(pdu) => HandleDataOk(prims, w, c, pdu, now);
    case ReadFragment(fragment) => HandleFragmentOk(prims, w, c, fragment, now);
    case ReadOther =>
  }

  lemma DisposeOk(prims: Primitives, w: World, c: Consumer, pdu: DataPdu, key: Option<Key>)
    requires ConsumerOk(w, c) && Sent(w, c.address, pdu) && KeyUsable(w, c.address, PduKeyId(pdu), key)
    ensures var (d, events) := Dispose(c, pdu, key);
      ConsumerOk(w, d) && EventsOk(prims, w, c.address, events)
  {
    if key.Some? { OpenedOk(prims, w, c.address, pdu, key); }
    DeferOk(prims, w, c, pdu);
    hide ConsumerOk, Sent, KeyUsable, Open;
  }

  lemma DrainOneOk(prims: Primitives, w: World, c: Consumer, pdu: DataPdu, key: Option<Key>, lastId: KeyId, now: nat)
    requires ConsumerOk(w, c) && Sent(w, c.address, pdu) && KeyUsable(w, c.address, lastId, key)
    ensures var (d, key', events) := DrainOne(c, pdu, key, lastId, now);
      && ConsumerOk(w, d) && EventsOk(prims, w, c.address, events)
      && KeyUsable(w, c.address, PduKeyId(pdu), key')
  {
    var keyId := PduKeyId(pdu);
    if keyId == lastId {
      DisposeOk(prims, w, c, pdu, key);
    } else {
      LookupUsable(w, c.address, c.cache, keyId);
      TouchKeepsCacheOk(w, c.address, c.cache, Low(keyId), now);
      hide Keys.Lookup, Keys.Touch, CacheOk, KeyUsable, Sent;
      DisposeOk(prims, w, c.(cache := Keys.Touch(c.cache, Low(keyId), now)), pdu, Keys.Lookup(c.cache, Low(keyId)));
    }
    hide ConsumerOk, Sent, KeyUsable, Dispose, Keys.Lookup, Keys.Touch;
  }

  lemma {:induction false} DrainLoopOk(prims: Primitives, w: World, c: Consumer, batch: seq<DataPdu>, key: Option<Key>,
                                       lastId: KeyId, now: nat)
    requires ConsumerOk(w, c) && (forall pdu :: pdu in batch ==> Sent(w, c.address, pdu))
    requires KeyUsable(w, c.address, lastId, key)
    ensures var (d, events) := DrainLoop(c, batch, key, lastId, now);
      ConsumerOk(w, d) && EventsOk(prims, w, c.address, events)
    decreases |batch|
  {
    hide Sent, KeyUsable, DrainOne, CacheOk, EventOk;
    if batch != [] {
      assert batch[0] in batch;
      DrainOneOk(prims, w, c, batch[0], key, lastId, now);
      var (d, key', events) := DrainOne(c, batch[0], key, lastId, now);
      DrainLoopOk(prims, w, d, batch[1..], key', PduKeyId(batch[0]), now);
    }
  }

  lemma DrainOk(prims: Primitives, w: World, c: Consumer, now: nat)
    requires ConsumerOk(w, c)
    ensures var (d, events) := Drain(c, now);
      ConsumerOk(w, d) && EventsOk(prims, w, c.address, events)
  {
    var batch := BatchOf(c);
    if c.pending && batch != [] {
      var firstId := PduKeyId(batch[0]);
      LookupUsable(w, c.address, c.cache, firstId);
      TouchKeepsCacheOk(w, c.address, c.cache, Low(firstId), now);
      hide Sent, KeyUsable, DrainLoop, CacheOk, EventsOk, Keys.Lookup, Keys.Touch;
      var d := c.(deferred := c.deferred[|batch|..], cache := Keys.Touch(c.cache, Low(firstId), now));
      DrainLoopOk(prims, w, d, batch, Keys.Lookup(c.cache, Low(firstId)), firstId, now);
    }
  }

  // ---- The reconstructor's entries ------------------------------------------------------------------------

  /** Where an entry's fragment `f` at index `i` comes from: in a free entry, only strays. */
  ghost predicate HeldOk(w: World, p: Rebuild.Pair, i: FragmentIndex, f: Fragment) {
    if p.id == 0 then StrayOrigin(w, i, f) else Origin(w, p, i, f)
  }

  /** Set flags count, and mark fragments that may turn up in the entry's key. */
  ghost predicate EntryOk(w: World, e: Rebuild.Entry) {
    && e.collected == Rebuild.FlagCount(e.flags)
    && (forall i: FragmentIndex :: e.flags[i] ==> HeldOk(w, Rebuild.Pair(e.address, e.id), i, e.fragments[i]))
  }

  ghost predicate KmOk(w: World, km: seq<Rebuild.Entry>) {
    forall i :: 0 <= i < |km| ==> EntryOk(w, km[i])
  }

  lemma ClaimOk(w: World, km: seq<Rebuild.Entry>, p: Rebuild.Pair)
    requires KmOk(w, km)
    ensures KmOk(w, Rebuild.Claim(km, p))
  {
    var free := Rebuild.FirstFree(km);
    hide StrayOrigin;
    if free < |km| {
      var e := km[free];
      assert EntryOk(w, e);
      assert EntryOk(w, e.(id := p.id, address := p.address));
    }
    hide EntryOk, Rebuild.IndexOf, Rebuild.FirstFree;
  }

  /** Only a fragment with low byte zero finds an entry that counts as free, and only if there is one. */
  lemma FreeEntryFound(km: seq<Rebuild.Entry>, p: Rebuild.Pair)
    ensures var claimed := Rebuild.Claim(km, p);
      var i := Rebuild.IndexOf(claimed, p.address, p.id);
      i < |km| && claimed[i].id == 0 ==> p.id == 0 && Rebuild.FirstFree(km) < |km|
  {}

  lemma FragmentHeld(prims: Primitives, w: World, e: Rebuild.Element, f: Fragment)
    requires ElementOk(prims, w, e) && OpenFragment(prims, e.masked, e.seed, e.tag) == Some(f)
    requires Low(e.keyId) == 0 ==> Rebuild.PairOf(e) in w.strays
    ensures HeldOk(w, Rebuild.PairOf(e), e.index, f)
  {
    hide OpenFragment, FragmentOf;
    var o :| o in w.sessions && PairFor(o.address, o.session) == Rebuild.PairOf(e)
      && OpenFragment(prims, e.masked, e.seed, e.tag) == Some(FragmentOf(o.session.key, e.index));
  }

  lemma OfferedOk(prims: Primitives, w: World, entry: Rebuild.Entry, e: Rebuild.Element)
    requires EntryOk(w, entry) && ElementOk(prims, w, e) && Rebuild.Pair(entry.address, entry.id) == Rebuild.PairOf(e)
    requires Low(e.keyId) == 0 && OpenFragment(prims, e.masked, e.seed, e.tag).Some? ==> Rebuild.PairOf(e) in w.strays
    ensures var after := Rebuild.Offered(prims, entry, e);
      && EntryOk(w, after)
      && (after.collected == NO_KEY_FRAGMENTS ==> MadeOf(w, Rebuild.PairOf(e), Join(after.fragments)))
  {
    var after := Rebuild.Offered(prims, entry, e);
    var clear := OpenFragment(prims, e.masked, e.seed, e.tag);
    if clear.Some? { FragmentHeld(prims, w, e, clear.value); }
    hide HeldOk, FragmentOf, OpenFragment, Rebuild.PairOf;
    assert EntryOk(w, after);
    if after.collected == NO_KEY_FRAGMENTS {
      SplitJoin(after.fragments);
      forall i: FragmentIndex
        ensures Origin(w, Rebuild.PairOf(e), i, FragmentOf(Join(after.fragments), i))
      {
        assert after.flags[i] && Split(Join(after.fragments))[i] == FragmentOf(Join(after.fragments), i);
        HeldIsOrigin(w, Rebuild.PairOf(e), i, after.fragments[i]);
      }
    }
  }

  lemma HeldIsOrigin(w: World, p: Rebuild.Pair, i: FragmentIndex, f: Fragment)
    requires HeldOk(w, p, i, f)
    ensures Origin(w, p, i, f)
  {}

  lemma BlankOk(w: World)
    ensures EntryOk(w, Rebuild.BLANK)
  {}

  /** A key handed to the callback is made of fragments of its own session's pair. */
  lemma ConsumeOk(prims: Primitives, w: World, km: seq<Rebuild.Entry>, e: Rebuild.Element)
    requires KmOk(w, km) && ElementOk(prims, w, e) && LeftBehind(prims, km, e) <= w.strays
    ensures var (after, fired) := Rebuild.Consume(prims, km, e);
      KmOk(w, after) && (fired.Some? ==> MadeOf(w, Rebuild.PairOf(e), fired.value))
  {
    var p := Rebuild.PairOf(e);
    ClaimOk(w, km, p);
    Rebuild.ConsumeAt(prims, km, e);
    BlankOk(w);
    FreeEntryFound(km, p);
    var claimed := Rebuild.Claim(km, p);
    var i := Rebuild.IndexOf(claimed, p.address, p.id);
    hide OpenFragment;
    if i < |km| {
      OfferedOk(prims, w, claimed[i], e);
    }
    hide Rebuild.Consume, Rebuild.Claim, Rebuild.Offered, EntryOk, MadeOf, ElementOk;
  }
}
