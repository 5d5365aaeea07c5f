/** End-to-end safety: over every run of the system, whatever is handed to the observers is the
    payload that was encrypted. The invariant follows keys and frames through every store. */
module EndToEnd {
  import opened Bytes
  import opened Crypto
  import opened Options
  import opened Wire
  import opened BroadcasterSpec
  import opened BroadcasterTheorems
  import opened AuthorizeSpec
  import opened ConsumerSpec
  import Keys = KeyCacheSpec
  import opened ProcessorSpec
  import opened Processor
  import Rebuild = ReconstructorSpec
  import opened SystemSpec
  import opened Genuine

  ghost predicate SenderOk(w: World, address: Address, s: Sender) {
    var b := s.broadcaster;
    address != ZERO_ADDRESS && b.fragments == Split(b.session.key) && Opened(address, b.session) in w.sessions
  }

  ghost predicate SendersOk(w: World, senders: map<Address, Sender>) {
    forall a :: a in senders ==> SenderOk(w, a, senders[a])
  }

  ghost predicate AirOk(prims: Primitives, w: World, air: set<Aired>) {
    forall x :: x in air ==> x.address != ZERO_ADDRESS && FrameOk(prims, w, x.address, x.frame)
  }

  /** A free slot is empty; what another slot holds came from its sender. */
  ghost predicate ScanSlotOk(prims: Primitives, w: World, slot: AuthSlot) {
    && (slot.address == ZERO_ADDRESS ==> slot.queue == [] && slot.last.timestamp == 0)
    && (slot.last.timestamp != 0 ==> FrameOk(prims, w, slot.address, slot.last.frame))
    && ScansOk(prims, w, slot.address, slot.queue)
  }

  ghost predicate ScansOk(prims: Primitives, w: World, address: Address, pdus: seq<ScanPdu>) {
    forall pdu :: pdu in pdus ==> FrameOk(prims, w, address, pdu.frame)
  }

  ghost predicate ScanSlotsOk(prims: Primitives, w: World, slots: seq<AuthSlot>) {
    forall i :: 0 <= i < |slots| ==> ScanSlotOk(prims, w, slots[i])
  }

  ghost predicate QueueOk(prims: Primitives, w: World, queue: seq<Received>) {
    forall r :: r in queue ==> FrameOk(prims, w, r.address, r.frame)
  }

  ghost predicate ArrOk(w: World, arr: seq<Consumer>) {
    forall i :: 0 <= i < |arr| ==> ConsumerOk(w, arr[i])
  }

  ghost predicate ElementsOk(prims: Primitives, w: World, es: seq<Rebuild.Element>) {
    forall e :: e in es ==> ElementOk(prims, w, e)
  }

  ghost predicate TraceOk(prims: Primitives, w: World, trace: seq<Tagged>) {
    forall e :: e in trace ==> EventOk(prims, w, e.address, e.event)
  }

  ghost predicate Inv(prims: Primitives, s: System) {
    && WorldOk(prims, s.world)
    && SendersOk(s.world, s.senders)
    && AirOk(prims, s.world, s.air)
    && ScanSlotsOk(prims, s.world, s.slots)
    && QueueOk(prims, s.world, s.queue)
    && ArrOk(s.world, s.table.arr)
    && ElementsOk(prims, s.world, s.fragments)
    && KmOk(s.world, s.km)
    && TraceOk(prims, s.world, s.trace)
  }

  // ---- History grows --------------------------------------------------------------------------------

  lemma SentGrows(w: World, v: World, address: Address, pdu: DataPdu)
    requires Extends(w, v) && Sent(w, address, pdu)
    ensures Sent(v, address, pdu)
  {
    var clear, key :| Sealed(address, pdu, clear, key) in w.sealed;
    assert Sealed(address, pdu, clear, key) in v.sealed;
  }

  lemma ElementGrows(prims: Primitives, w: World, v: World, e: Rebuild.Element)
    requires Extends(w, v) && ElementOk(prims, w, e)
    ensures ElementOk(prims, v, e)
  {
    hide OpenFragment, Rebuild.PairOf;
    var o :| o in w.sessions && PairFor(o.address, o.session) == Rebuild.PairOf(e)
      && OpenFragment(prims, e.masked, e.seed, e.tag) == Some(FragmentOf(o.session.key, e.index));
    assert o in v.sessions;
  }

  lemma StrayGrows(w: World, v: World, i: FragmentIndex, f: Fragment)
    requires Extends(w, v) && StrayOrigin(w, i, f)
    ensures StrayOrigin(v, i, f)
  {
    hide FragmentOf;
    var o :| o in w.sessions && PairFor(o.address, o.session) in w.strays && Low(o.session.keyId) == 0
      && FragmentOf(o.session.key, i) == f;
    assert o in v.sessions && PairFor(o.address, o.session) in v.strays;
  }

  lemma OriginGrows(w: World, v: World, p: Rebuild.Pair, i: FragmentIndex, f: Fragment)
    requires Extends(w, v) && Origin(w, p, i, f)
    ensures Origin(v, p, i, f)
  {
    hide FragmentOf, StrayOrigin;
    if StrayOrigin(w, i, f) {
      StrayGrows(w, v, i, f);
    } else {
      var o :| o in w.sessions && PairFor(o.address, o.session) == p && FragmentOf(o.session.key, i) == f;
      assert o in v.sessions;
    }
  }

  lemma MadeOfGrows(w: World, v: World, p: Rebuild.Pair, key: Key)
    requires Extends(w, v) && MadeOf(w, p, key)
    ensures MadeOf(v, p, key)
  {
    hide Origin, FragmentOf;
    forall i: FragmentIndex ensures Origin(v, p, i, FragmentOf(key, i)) { OriginGrows(w, v, p, i, FragmentOf(key, i)); }
  }

  lemma FrameGrows(prims: Primitives, w: World, v: World, address: Address, frame: seq<byte>)
    requires Extends(w, v) && FrameOk(prims, w, address, frame)
    ensures FrameOk(prims, v, address, frame)
  {
    hide Read, ElementOk, Sent;
    match Read(frame)
    case ReadData(pdu) => SentGrows(w, v, address, pdu);
    case ReadFragment(fragment) => ElementGrows(prims, w, v, Rebuild.ElementOf(address, fragment));
    case ReadOther =>
  }

  lemma CacheGrows(w: World, v: World, address: Address, cache: Keys.Cache)
    requires Extends(w, v) && CacheOk(w, address, cache)
    ensures CacheOk(v, address, cache)
  {
    hide MadeOf, Keys.Ok;
    forall i | 0 <= i < |cache.slots| ensures SlotOk(v, address, cache.slots[i]) {
      var slot := cache.slots[i];
      if MadeOf(w, Rebuild.Pair(address, slot.id), slot.key) { MadeOfGrows(w, v, Rebuild.Pair(address, slot.id), slot.key); }
    }
  }

  lemma ConsumerGrows(w: World, v: World, c: Consumer)
    requires Extends(w, v) && ConsumerOk(w, c)
    ensures ConsumerOk(v, c)
  {
    hide CacheOk, Sent;
    CacheGrows(w, v, c.address, c.cache);
    forall pdu | pdu in c.deferred ensures Sent(v, c.address, pdu) {
      SentGrows(w, v, c.address, pdu);
    }
  }

  lemma SlotGrows(prims: Primitives, w: World, v: World, slot: AuthSlot)
    requires Extends(w, v) && ScanSlotOk(prims, w, slot)
    ensures ScanSlotOk(prims, v, slot)
  {
    hide FrameOk;
    if slot.last.timestamp != 0 { FrameGrows(prims, w, v, slot.address, slot.last.frame); }
    forall pdu | pdu in slot.queue ensures FrameOk(prims, v, slot.address, pdu.frame) {
      FrameGrows(prims, w, v, slot.address, pdu.frame);
    }
  }

  lemma EntryGrows(w: World, v: World, e: Rebuild.Entry)
    requires Extends(w, v) && EntryOk(w, e)
    ensures EntryOk(v, e)
  {
    hide Origin, StrayOrigin;
    var p := Rebuild.Pair(e.address, e.id);
    forall i: FragmentIndex | e.flags[i] ensures HeldOk(v, p, i, e.fragments[i]) {
      if e.id == 0 { StrayGrows(w, v, i, e.fragments[i]); } else { OriginGrows(w, v, p, i, e.fragments[i]); }
    }
  }

  lemma UsableGrows(w: World, v: World, address: Address, id: byte, key: Key)
    requires Extends(w, v) && Usable(w, address, id, key)
    ensures Usable(v, address, id, key)
  {
    hide MadeOf;
    if id != 0 {
      MadeOfGrows(w, v, Rebuild.Pair(address, id), key);
    } else if key != BLANK_KEY {
      var x: byte :| MadeOf(w, Rebuild.Pair(address, x), key);
      MadeOfGrows(w, v, Rebuild.Pair(address, x), key);
    }
  }

  lemma EventGrows(prims: Primitives, w: World, v: World, address: Address, e: Event)
    requires Extends(w, v) && EventOk(prims, w, address, e)
    ensures EventOk(prims, v, address, e)
  {
    hide Usable, Sent, ElementOk;
    match e
    case Delivered(pdu, key) =>
      SentGrows(w, v, address, pdu);
      UsableGrows(w, v, address, Low(PduKeyId(pdu)), key);
    case FragmentWanted(fragment) => ElementGrows(prims, w, v, Rebuild.ElementOf(address, fragment));
    case _ =>
  }

  /** The invariant survives any growth of history that keeps history itself in order. */
  lemma GrowInv(prims: Primitives, v: World, s: System)
    requires Inv(prims, s) && Extends(s.world, v) && WorldOk(prims, v)
    ensures Inv(prims, s.(world := v))
  {
    hide FrameOk, ScanSlotOk, ConsumerOk, ElementOk, EntryOk, EventOk, WorldOk, Split;
    forall x | x in s.air ensures FrameOk(prims, v, x.address, x.frame) {
      FrameGrows(prims, s.world, v, x.address, x.frame);
    }
    forall i | 0 <= i < |s.slots| ensures ScanSlotOk(prims, v, s.slots[i]) { SlotGrows(prims, s.world, v, s.slots[i]); }
    forall r | r in s.queue ensures FrameOk(prims, v, r.address, r.frame) {
      FrameGrows(prims, s.world, v, r.address, r.frame);
    }
    forall i | 0 <= i < |s.table.arr| ensures ConsumerOk(v, s.table.arr[i]) {
      ConsumerGrows(s.world, v, s.table.arr[i]);
    }
    forall e | e in s.fragments ensures ElementOk(prims, v, e) { ElementGrows(prims, s.world, v, e); }
    forall i | 0 <= i < |s.km| ensures EntryOk(v, s.km[i]) { EntryGrows(s.world, v, s.km[i]); }
    forall e | e in s.trace ensures EventOk(prims, v, e.address, e.event) {
      EventGrows(prims, s.world, v, e.address, e.event);
    }
  }

  // ---- Sending --------------------------------------------------------------------------------------

  lemma LearnOk(prims: Primitives, w: World, address: Address, session: Session)
    requires WorldOk(prims, w) && address != ZERO_ADDRESS
    ensures WorldOk(prims, Learn(w, address, session)) && Extends(w, Learn(w, address, session))
  {
    hide Open;
  }

  lemma StartKeepsInv(p: Params, s: System, address: Address, session: Session)
    requires Inv(p.prims, s) && address != ZERO_ADDRESS
    ensures Inv(p.prims, StartSender(p, s, address, session))
  {
    var v := Learn(s.world, address, session);
    LearnOk(p.prims, s.world, address, session);
    GrowInv(p.prims, v, s);
    hide WorldOk, AirOk, ScanSlotsOk, QueueOk, ArrOk, ElementsOk, KmOk, TraceOk, Split;
    assert SenderOk(v, address, FreshSender(session, p.ratio));
  }

  ghost predicate SealedBy(prims: Primitives, session: Session, clear: seq<byte>, out: Output) {
    match out
    case DataOut(pdu) =>
      exists number: u16, seed: byte :: pdu == Seal(prims, session.key, session.keyId, number, seed, clear)
    case KeyOut(fragment) =>
      exists number: u16, index: FragmentIndex, seed: byte ::
        fragment == SealFragment(prims, session.key, session.keyId, number, index, seed)
    case Refused => true
  }

  /** A sender after a call is in the session it has announced, and has sealed what it sends with it. */
  lemma OnTimerOk(p: Params, s: Sender, input: Input)
    requires p.replaceAfter > 0 && s.broadcaster.fragments == Split(s.broadcaster.session.key)
    ensures var (t, out) := OnTimer(p.prims, s, p.replaceAfter, p.ratio, input);
      var session := t.broadcaster.session;
      && t.broadcaster.fragments == Split(session.key)
      && SealedBy(p.prims, session, input.clear, out)
  {
    var call := if s.sendCounter == p.ratio then ForFragment(input.next, input.seed)
                else ForData(input.clear, input.next, input.seed);
    if !Oversized(call) { OutputOfCall(p.prims, s.broadcaster, p.replaceAfter, call); }
    hide Split, Seal, SealFragment, MakeFragment, Due;
  }

  /** Recording what a sender sealed in its session. */
  lemma RecordOk(prims: Primitives, w: World, address: Address, session: Session, number: u16, seed: byte, clear: seq<byte>)
    requires WorldOk(prims, w) && Opened(address, session) in w.sessions
    ensures var pdu := Seal(prims, session.key, session.keyId, number, seed, clear);
      var v := w.(sealed := w.sealed + {Sealed(address, pdu, clear, session.key)});
      WorldOk(prims, v) && Extends(w, v) && Sent(v, address, pdu)
  {
    var pdu := Seal(prims, session.key, session.keyId, number, seed, clear);
    SessionDataRoundTrip(session.keyId, 0);
    CtrInverts(prims, session.key, NonceOf(MARKER, pdu.sessionData, seed), clear);
    assert PduKeyId(pdu) == session.keyId && Open(prims, session.key, pdu) == clear;
    hide Seal, Open, Low, ProduceKeySessionData, KeyIdOf;
    assert Sealed(address, pdu, clear, session.key) in w.sealed + {Sealed(address, pdu, clear, session.key)};
  }

  lemma DataFrameOk(prims: Primitives, w: World, address: Address, pdu: DataPdu)
    requires Sent(w, address, pdu) && |DataFrame(pdu)| <= MAX_GAP_DATA_LEN
    ensures FrameOk(prims, w, address, DataFrame(pdu))
  {
    DataFrameRoundTrip(pdu);
    hide DataFrame, ParseData, ParseKey, CommandOf, Sent;
  }

  lemma KeyFrameOk(prims: Primitives, w: World, address: Address, session: Session, number: u16, index: FragmentIndex, seed: byte)
    requires Opened(address, session) in w.sessions
    ensures FrameOk(prims, w, address, KeyFrame(SealFragment(prims, session.key, session.keyId, number, index, seed)))
  {
    SealedFragmentRoundTrip(prims, session.key, session.keyId, number, index, seed);
    var o := Opened(address, session);
    assert PairFor(o.address, o.session) == Rebuild.Pair(address, Low(session.keyId));
    hide KeyFrame, SealFragment, ParseKey, CommandOf, OpenFragment, WellSized;
  }

  lemma SentOk(prims: Primitives, w: World, address: Address, session: Session, input: Input, out: Output)
    requires WorldOk(prims, w) && Opened(address, session) in w.sessions && SealedBy(prims, session, input.clear, out)
    ensures var v := Record(w, address, session, input, out);
      && WorldOk(prims, v) && Extends(w, v)
      && (forall frame :: frame in OnAir(out) ==> FrameOk(prims, v, address, frame))
  {
    hide WorldOk, FrameOk, Seal, SealFragment, DataFrame, KeyFrame, Sent;
    match out
    case DataOut(pdu) =>
      var number, seed :| pdu == Seal(prims, session.key, session.keyId, number, seed, input.clear);
      RecordOk(prims, w, address, session, number, seed, input.clear);
      if |DataFrame(pdu)| <= MAX_GAP_DATA_LEN {
        DataFrameOk(prims, Record(w, address, session, input, out), address, pdu);
      }
    case KeyOut(fragment) =>
      var number, index: FragmentIndex, seed :|
        fragment == SealFragment(prims, session.key, session.keyId, number, index, seed);
      KeyFrameOk(prims, w, address, session, number, index, seed);
    case Refused =>
  }

  lemma SendKeepsInv(p: Params, s: System, address: Address, input: Input)
    requires Inv(p.prims, s) && Enabled(p, s, Send(address, input))
    ensures Inv(p.prims, SendNext(p, s, address, input))
  {
    var (sender, out) := OnTimer(p.prims, s.senders[address], p.replaceAfter, p.ratio, input);
    var session := sender.broadcaster.session;
    var w := Learn(s.world, address, session);
    var v := Record(w, address, session, input, out);
    assert SenderOk(s.world, address, s.senders[address]);
    OnTimerOk(p, s.senders[address], input);
    LearnOk(p.prims, s.world, address, session);
    SentOk(p.prims, w, address, session, input, out);
    hide OnTimer, Record, WorldOk, Split, FrameOk, SealedBy, OnAir;
    GrowInv(p.prims, v, s);
    hide ScanSlotsOk, QueueOk, ArrOk, ElementsOk, KmOk, TraceOk;
    assert SenderOk(v, address, sender);
  }

  // ---- Scanning and authorising -----------------------------------------------------------------------

  lemma SlotForOk(prims: Primitives, w: World, slots: seq<AuthSlot>, address: Address)
    requires ScanSlotsOk(prims, w, slots) && address != ZERO_ADDRESS
    ensures ScanSlotsOk(prims, w, SlotFor(slots, address).0)
  {
    hide FrameOk;
    var f := LastFree(slots, |slots|);
    if f >= 0 { assert ScanSlotOk(prims, w, slots[f]); }
  }

  lemma ScanOk(prims: Primitives, w: World, slots: seq<AuthSlot>, timestamp: int, frame: seq<byte>, address: Address)
    requires ScanSlotsOk(prims, w, slots) && address != ZERO_ADDRESS && FrameOk(prims, w, address, frame)
    ensures ScanSlotsOk(prims, w, Scan(slots, timestamp, frame, address).0)
  {
    SlotForOk(prims, w, slots, address);
    hide FrameOk, SlotFor, HasMarker, Passes;
    var (found, index) := SlotFor(slots, address);
    if index >= 0 {
      assert ScanSlotOk(prims, w, found[index]) && ScanSlotOk(prims, w, found[0]);
    }
  }

  /** What a walk forwards, and where it ends, it has been given. */
  lemma {:induction false} WalkForwards(last: ScanPdu, batch: seq<ScanPdu>)
    ensures var (end, out) := Walk(last, batch);
      (end == last || end in batch) && forall pdu :: pdu in out ==> pdu == last || pdu in batch
    decreases |batch|
  {
    hide Vouches;
    if batch != [] {
      WalkForwards(batch[0], batch[1..]);
    }
  }

  lemma AuthoriseSlotOk(prims: Primitives, w: World, slot: AuthSlot)
    requires ScanSlotOk(prims, w, slot)
    ensures var (after, out) := AuthoriseSlot(slot);
      ScanSlotOk(prims, w, after) && ScansOk(prims, w, slot.address, out) && after.address == slot.address
  {
    hide FrameOk, Walk;
    var n := if |slot.queue| <= MAX_PDU_PROCESS_PER_CONSUMER then |slot.queue| else MAX_PDU_PROCESS_PER_CONSUMER;
    var batch := slot.queue[..n];
    if slot.last.timestamp != 0 {
      WalkForwards(slot.last, batch);
    } else if batch != [] {
      assert batch[0] in slot.queue;
      WalkForwards(batch[0], batch[1..]);
    }
  }

  lemma {:induction false} ForwardOk(prims: Primitives, w: World, queue: seq<Received>, address: Address, pdus: seq<ScanPdu>)
    requires QueueOk(prims, w, queue) && ScansOk(prims, w, address, pdus)
    ensures QueueOk(prims, w, Forward(queue, address, pdus))
    decreases |pdus|
  {
    hide FrameOk;
    if pdus != [] {
      assert pdus[0] in pdus;
      ForwardOk(prims, w, Enqueue(queue, Received(address, pdus[0].frame)), address, pdus[1..]);
    }
  }

  // ---- The processor ------------------------------------------------------------------------------------

  lemma AdmittedOk(w: World, c: Consumer, address: Address, now: nat)
    requires ConsumerOk(w, c)
    ensures ConsumerOk(w, Admitted(c, address, now))
  {
    Keys.OpKeepsOk(c.cache, Keys.Clear, now);
    ClearedToBlank(c.cache, |c.cache.slots|);
    hide Keys.ClearTo, Keys.Ok, MadeOf, Sent;
  }

  lemma AcquireOk(w: World, t: Table, address: Address, now: nat)
    requires ArrOk(w, t.arr)
    ensures AllWellFormed(t.arr) && ArrOk(w, Acquire(t, address, now).0.arr)
  {
    var free := Find(t.arr, ZERO_ADDRESS);
    hide CacheOk, Sent, Find, Admitted;
    if free < |t.arr| { AdmittedOk(w, t.arr[free], address, now); }
  }

  lemma TagsOk(prims: Primitives, w: World, address: Address, events: seq<Event>)
    requires EventsOk(prims, w, address, events)
    ensures TraceOk(prims, w, TagAll(address, events))
  {
    hide EventOk;
  }

  lemma FrameForOk(prims: Primitives, w: World, t: Table, address: Address, reading: Reading, now: nat)
    requires ArrOk(w, t.arr) && ReadingOk(prims, w, address, reading)
    ensures AllWellFormed(t.arr)
    ensures var (u, events) := FrameFor(t, address, reading, now);
      ArrOk(w, u.arr) && TraceOk(prims, w, events)
  {
    AcquireOk(w, t, address, now);
    var (u, index) := Acquire(t, address, now);
    hide Acquire, ConsumerOk, HandleReading, EventsOk, TraceOk, ReadingOk;
    if index.Some? {
      HandleReadingOk(prims, w, u.arr[index.value], reading, now);
      TagsOk(prims, w, address, HandleReading(u.arr[index.value], reading, now).1);
    } else {
      NoTags(prims, w);
    }
  }

  lemma NoTags(prims: Primitives, w: World)
    ensures TraceOk(prims, w, [])
  {}

  lemma {:induction false} DrainAllOk(prims: Primitives, w: World, arr: seq<Consumer>, now: nat)
    requires ArrOk(w, arr)
    ensures AllWellFormed(arr)
    ensures var (after, events) := DrainAll(arr, now);
      ArrOk(w, after) && TraceOk(prims, w, events)
    decreases |arr|
  {
    hide CacheOk, Sent, Drain, EventOk;
    assert AllWellFormed(arr);
    if arr != [] {
      var n := |arr| - 1;
      DrainAllOk(prims, w, arr[..n], now);
      DrainOk(prims, w, arr[n], now);
      TagsOk(prims, w, arr[n].address, Drain(arr[n], now).1);
    }
  }

  lemma {:induction false} RequestOk(prims: Primitives, w: World, km: seq<Rebuild.Entry>, fragments: seq<Rebuild.Element>,
                                     events: seq<Tagged>)
    requires ElementsOk(prims, w, fragments) && TraceOk(prims, w, events)
    ensures ElementsOk(prims, w, Request(km, fragments, events))
    decreases |events|
  {
    hide ElementOk, Rebuild.IsKeyAvailable, Rebuild.IsFragmentDecrypted, Rebuild.PairOf, Rebuild.ElementOf;
    if events != [] {
      var e := events[0];
      assert e in events && EventOk(prims, w, e.address, e.event);
      assert forall x :: x in events[1..] ==> x in events;
      var queued := if e.event.FragmentWanted? then
          Rebuild.QueueFragment(km, fragments, Rebuild.ElementOf(e.address, e.event.fragment))
        else fragments;
      RequestOk(prims, w, km, queued, events[1..]);
    }
  }

  // ---- The reconstructor ----------------------------------------------------------------------------------

  lemma StoreKeyOk(w: World, t: Table, address: Address, id: byte, key: Key, now: nat)
    requires ArrOk(w, t.arr) && MadeOf(w, Rebuild.Pair(address, id), key)
    ensures AllWellFormed(t.arr) && ArrOk(w, StoreKeyFor(t, address, id, key, now).arr)
  {
    var i := Find(t.arr, address);
    hide CacheOk, Sent, CompleteKey, Find, MadeOf;
    assert AllWellFormed(t.arr);
    if i < |t.arr| {
      var arr := Stamped(t.arr, i, now);
      CompleteKeyOk(w, arr[i], id, key, now);
    }
  }

  // ---- Runs -------------------------------------------------------------------------------------------------

  lemma InvWellFormed(prims: Primitives, s: System)
    requires Inv(prims, s)
    ensures AllWellFormed(s.table.arr)
    ensures s.queue != [] ==> WellSized(s.queue[0].frame)
  {
    if s.queue != [] { assert s.queue[0] in s.queue; }
  }

  lemma ProcessKeepsInv(p: Params, s: System, at: nat)
    requires Inv(p.prims, s)
    ensures AllWellFormed(s.table.arr) && (s.queue != [] ==> WellSized(s.queue[0].frame))
    ensures Inv(p.prims, ProcessNext(s, at))
  {
    InvWellFormed(p.prims, s);
    if s.queue != [] {
      var r := s.queue[0];
      assert r in s.queue;
      var (table, events) := FrameFor(s.table, r.address, Read(r.frame), at);
      var v := s.world;
      hide FrameFor, FrameOk, Read, EventOk, ElementOk, ConsumerOk;
      FrameForOk(p.prims, v, s.table, r.address, Read(r.frame), at);
      RequestOk(p.prims, v, s.km, s.fragments, events);
    }
  }

  lemma ReconstructKeepsInv(p: Params, s: System, at: nat)
    requires Inv(p.prims, s)
    ensures AllWellFormed(s.table.arr) && Inv(p.prims, ReconstructNext(p, s, at))
  {
    InvWellFormed(p.prims, s);
    if s.fragments != [] {
      var e := s.fragments[0];
      assert e in s.fragments;
      var v := s.world.(strays := s.world.strays + LeftBehind(p.prims, s.km, e));
      GrowInv(p.prims, v, s);
      ConsumeOk(p.prims, v, s.km, e);
      var fired := Rebuild.Consume(p.prims, s.km, e).1;
      hide Rebuild.Consume, StoreKeyFor, WorldOk, SendersOk, AirOk, ScanSlotsOk, QueueOk, ArrOk, KmOk, TraceOk, ElementOk;
      hide Low, MadeOf;
      if fired.Some? { StoreKeyOk(v, s.table, e.address, Low(e.keyId), fired.value, at); }
    }
  }

  /** Every step of every task keeps the invariant. */
  lemma NextKeepsInv(p: Params, s: System, move: Move)
    requires Inv(p.prims, s) && Enabled(p, s, move)
    ensures AllWellFormed(s.table.arr) && Inv(p.prims, Next(p, s, move))
  {
    InvWellFormed(p.prims, s);
    match move
    case Start(address, session) => StartKeepsInv(p, s, address, session);
    case Send(address, input) => SendKeepsInv(p, s, address, input);
    case Hear(address, frame, timestamp) => ScanOk(p.prims, s.world, s.slots, timestamp, frame, address);
    case AuthorizeBatch(index) => AuthorizeKeepsInv(p, s, index);
    case ProcessPdu(at) => ProcessKeepsInv(p, s, at);
    case ProcessFragment(at) => ReconstructKeepsInv(p, s, at);
    case DrainDeferred(at) => DrainAllOk(p.prims, s.world, s.table.arr, at);
  }

  lemma AuthorizeKeepsInv(p: Params, s: System, index: nat)
    requires Inv(p.prims, s) && index < |s.slots|
    ensures Inv(p.prims, AuthorizeNext(s, index))
  {
    AuthoriseSlotOk(p.prims, s.world, s.slots[index]);
    var (slot, pdus) := AuthoriseSlot(s.slots[index]);
    ForwardOk(p.prims, s.world, s.queue, slot.address, pdus);
    hide AuthoriseSlot, WorldOk, SendersOk, AirOk, QueueOk, ArrOk, ElementsOk, KmOk, TraceOk, ScanSlotOk;
  }

  lemma FreshConsumerOk(w: World, cacheSize: nat)
    ensures ConsumerOk(w, FreshConsumer(cacheSize))
  {}

  lemma BootOk(p: Params, slotCount: nat, tableSize: nat, cacheSize: nat, kmSize: nat)
    ensures Inv(p.prims, Boot(slotCount, tableSize, cacheSize, kmSize))
  {
    var s := Boot(slotCount, tableSize, cacheSize, kmSize);
    FreshConsumerOk(s.world, cacheSize);
    BlankOk(s.world);
    hide ConsumerOk, EntryOk;
    assert forall i :: 0 <= i < |s.table.arr| ==> s.table.arr[i] == FreshConsumer(cacheSize);
  }

  lemma {:induction false} PlayKeepsInv(p: Params, s: System, moves: seq<Move>)
    requires Inv(p.prims, s) && AllWellFormed(s.table.arr) && Possible(p, s, moves)
    ensures Inv(p.prims, Play(p, s, moves))
    decreases |moves|
  {
    hide Inv, Next, Enabled;
    if moves != [] {
      NextKeepsInv(p, s, moves[0]);
      PlayKeepsInv(p, Next(p, s, moves[0]), moves[1..]);
    }
  }

  // ---- End to end -----------------------------------------------------------------------------------------

  /** The key a PDU is delivered with is one the sender's fragments account for, and it gives what was
      encrypted into the PDU exactly when its keystream agrees with the sealing key's. */
  ghost predicate Accounted(prims: Primitives, w: World, address: Address, pdu: DataPdu, key: Key) {
    && Sent(w, address, pdu) && Usable(w, address, Low(PduKeyId(pdu)), key)
    && forall r :: r in w.sealed && r.address == address && r.pdu == pdu ==>
         (Open(prims, key, pdu) == r.clear <==> SameKeystream(prims, pdu, key, r.key))
  }

  /** Where payloads come from, with no assumption on ids. Whatever any number of senders do, whatever
      session ids they draw, whatever the air loses, repeats and reorders, and however the observer's
      tasks interleave: every delivery is accounted for. */
  lemma EndToEndProvenance(p: Params, slotCount: nat, tableSize: nat, cacheSize: nat, kmSize: nat, moves: seq<Move>)
    requires Possible(p, Boot(slotCount, tableSize, cacheSize, kmSize), moves)
    ensures var s := Play(p, Boot(slotCount, tableSize, cacheSize, kmSize), moves);
      forall e :: e in s.trace && e.event.Delivered? ==>
        Accounted(p.prims, s.world, e.address, e.event.pdu, e.event.key)
  {
    var boot := Boot(slotCount, tableSize, cacheSize, kmSize);
    BootOk(p, slotCount, tableSize, cacheSize, kmSize);
    PlayKeepsInv(p, boot, moves);
    var s := Play(p, boot, moves);
    hide Play, Possible, Boot, Usable, Sent, SameKeystream, Open;
    forall e | e in s.trace && e.event.Delivered?
      ensures Accounted(p.prims, s.world, e.address, e.event.pdu, e.event.key)
    {
      assert EventOk(p.prims, s.world, e.address, e.event);
      forall r | r in s.world.sealed && r.address == e.address && r.pdu == e.event.pdu
        ensures Open(p.prims, e.event.key, e.event.pdu) == r.clear <==> SameKeystream(p.prims, e.event.pdu, e.event.key, r.key)
      {
        OpensAlikeIff(p.prims, e.event.pdu, e.event.key, r.key);
      }
    }
  }

  predicate GoesBy(o: Opened, address: Address, id: byte) {
    PairFor(o.address, o.session) == Rebuild.Pair(address, id)
  }

  /** `address` has used this non-zero low byte with one key only, and no fragment of a session with low
      byte zero has been left in an entry that counts as free. */
  ghost predicate Clean(w: World, address: Address, id: byte) {
    && id != 0
    && w.strays == {}
    && (forall o, q :: o in w.sessions && q in w.sessions && GoesBy(o, address, id) && GoesBy(q, address, id) ==>
          o.session.key == q.session.key)
  }

  lemma CleanKey(w: World, address: Address, id: byte, key: Key, o: Opened)
    requires Clean(w, address, id) && MadeOf(w, Rebuild.Pair(address, id), key)
    requires o in w.sessions && GoesBy(o, address, id)
    ensures key == o.session.key
  {
    var p := Rebuild.Pair(address, id);
    forall i: FragmentIndex
      ensures FragmentOf(key, i) == FragmentOf(o.session.key, i)
    {
      assert Origin(w, p, i, FragmentOf(key, i));
      hide FragmentOf;
      var q :| q in w.sessions && PairFor(q.address, q.session) == p && FragmentOf(q.session.key, i) == FragmentOf(key, i);
      assert GoesBy(q, address, id);
    }
    JoinSplit(key);
    JoinSplit(o.session.key);
    assert Split(key) == Split(o.session.key);
  }

  /** The sender did encrypt this payload into the PDU, and nothing else ever. */
  ghost predicate RightPayload(w: World, address: Address, pdu: DataPdu, payload: seq<byte>) {
    && (exists key :: Sealed(address, pdu, payload, key) in w.sealed)
    && (forall r :: r in w.sealed && r.address == address && r.pdu == pdu ==> r.clear == payload)
  }

  lemma CleanIsRight(prims: Primitives, w: World, address: Address, pdu: DataPdu, key: Key)
    requires WorldOk(prims, w) && Sent(w, address, pdu)
    requires Clean(w, address, Low(PduKeyId(pdu))) && Usable(w, address, Low(PduKeyId(pdu)), key)
    ensures RightPayload(w, address, pdu, Open(prims, key, pdu))
  {
    var id := Low(PduKeyId(pdu));
    CleanNotZero(w, address, id);
    hide Open, MadeOf, Clean, PduKeyId, Low;
    forall r | r in w.sealed && r.address == address && r.pdu == pdu
      ensures r.clear == Open(prims, key, pdu)
    {
      CleanKey(w, address, id, key, Opened(address, Session(r.key, PduKeyId(pdu))));
    }
    var clear, sealing :| Sealed(address, pdu, clear, sealing) in w.sealed;
    assert Sealed(address, pdu, clear, sealing).clear == Open(prims, key, pdu);
  }

  lemma CleanNotZero(w: World, address: Address, id: byte)
    requires Clean(w, address, id)
    ensures id != 0
  {}

  /** Every key cached under a clean low byte is the key of each session that goes by it. */
  ghost predicate RightKeys(w: World, c: Consumer) {
    forall i, o :: 0 <= i < |c.cache.slots| && Clean(w, c.address, c.cache.slots[i].id) && o in w.sessions ==>
      GoesBy(o, c.address, c.cache.slots[i].id) ==> c.cache.slots[i].key == o.session.key
  }

  lemma CachedKeysRight(w: World, c: Consumer)
    requires ConsumerOk(w, c)
    ensures RightKeys(w, c)
  {
    hide Clean, MadeOf, GoesBy;
    forall i, o | 0 <= i < |c.cache.slots| && Clean(w, c.address, c.cache.slots[i].id) && o in w.sessions
      && GoesBy(o, c.address, c.cache.slots[i].id)
      ensures c.cache.slots[i].key == o.session.key
    {
      assert SlotOk(w, c.address, c.cache.slots[i]);
      CleanNotZero(w, c.address, c.cache.slots[i].id);
      CleanKey(w, c.address, c.cache.slots[i].id, c.cache.slots[i].key, o);
    }
  }

  /** End-to-end safety. In every such run, each payload delivered under a clean low byte is the one its
      sender encrypted into that PDU, and the only one it ever encrypted into it; each key cached under
      a clean low byte is the key of that sender's session. */
  lemma EndToEndSafety(p: Params, slotCount: nat, tableSize: nat, cacheSize: nat, kmSize: nat, moves: seq<Move>)
    requires Possible(p, Boot(slotCount, tableSize, cacheSize, kmSize), moves)
    ensures var s := Play(p, Boot(slotCount, tableSize, cacheSize, kmSize), moves);
      && (forall e :: e in s.trace && e.event.Delivered? && Clean(s.world, e.address, Low(PduKeyId(e.event.pdu))) ==>
            RightPayload(s.world, e.address, e.event.pdu, Open(p.prims, e.event.key, e.event.pdu)))
      && (forall i :: 0 <= i < |s.table.arr| ==> RightKeys(s.world, s.table.arr[i]))
  {
    var boot := Boot(slotCount, tableSize, cacheSize, kmSize);
    BootOk(p, slotCount, tableSize, cacheSize, kmSize);
    PlayKeepsInv(p, boot, moves);
    var s := Play(p, boot, moves);
    hide Play, Possible, Boot, Clean, RightPayload, RightKeys, Usable, Sent, Open;
    forall e | e in s.trace && e.event.Delivered? && Clean(s.world, e.address, Low(PduKeyId(e.event.pdu)))
      ensures RightPayload(s.world, e.address, e.event.pdu, Open(p.prims, e.event.key, e.event.pdu))
    {
      assert EventOk(p.prims, s.world, e.address, e.event);
      CleanIsRight(p.prims, s.world, e.address, e.event.pdu, e.event.key);
    }
    forall i | 0 <= i < |s.table.arr|
      ensures RightKeys(s.world, s.table.arr[i])
    {
      assert ConsumerOk(s.world, s.table.arr[i]);
      CachedKeysRight(s.world, s.table.arr[i]);
    }
  }

  /** What it means for the observers: in every such run each notification stands for a delivery in the
      trace, is not empty, and, if that was under a clean low byte, carries what the sender encrypted. */
  lemma NotificationsRight(p: Params, slotCount: nat, tableSize: nat, cacheSize: nat, kmSize: nat, moves: seq<Move>, n: Notification)
    requires Possible(p, Boot(slotCount, tableSize, cacheSize, kmSize), moves)
    requires n in Notified(p.prims, Play(p, Boot(slotCount, tableSize, cacheSize, kmSize), moves).trace)
    ensures var s := Play(p, Boot(slotCount, tableSize, cacheSize, kmSize), moves);
      exists e :: e in s.trace && e.event.Delivered? && e.address == n.address && n.payload != []
        && (Clean(s.world, e.address, Low(PduKeyId(e.event.pdu))) ==> RightPayload(s.world, e.address, e.event.pdu, n.payload))
  {
    EndToEndSafety(p, slotCount, tableSize, cacheSize, kmSize, moves);
    var s := Play(p, Boot(slotCount, tableSize, cacheSize, kmSize), moves);
    hide Play, Possible, Boot, Clean, RightPayload, RightKeys, Open;
    var e := NotificationFrom(p.prims, s.trace, n);
  }

  lemma {:induction false} NotificationFrom(prims: Primitives, trace: seq<Tagged>, n: Notification) returns (e: Tagged)
    requires n in Notified(prims, trace)
    ensures e in trace && e.event.Delivered? && n == Notification(e.address, Open(prims, e.event.key, e.event.pdu)) && n.payload != []
    decreases |trace|
  {
    hide Open;
    var last := |trace| - 1;
    if n in NotificationsFor(prims, trace[last]) {
      e := trace[last];
      assert |Open(prims, e.event.key, e.event.pdu)| == |e.event.pdu.payload|;
    } else {
      e := NotificationFrom(prims, trace[..last], n);
    }
  }

  /** The safety above is not bought with blocked tasks: in every reachable state every task of the
      observer can take its step. */
  lemma ObserverNeverBlocks(p: Params, slotCount: nat, tableSize: nat, cacheSize: nat, kmSize: nat, moves: seq<Move>,
                            index: nat, at: nat)
    requires p.replaceAfter > 0 && Possible(p, Boot(slotCount, tableSize, cacheSize, kmSize), moves)
    ensures var s := Play(p, Boot(slotCount, tableSize, cacheSize, kmSize), moves);
      && Enabled(p, s, ProcessPdu(at)) && Enabled(p, s, ProcessFragment(at)) && Enabled(p, s, DrainDeferred(at))
      && (index < |s.slots| ==> Enabled(p, s, AuthorizeBatch(index)))
  {
    var boot := Boot(slotCount, tableSize, cacheSize, kmSize);
    BootOk(p, slotCount, tableSize, cacheSize, kmSize);
    PlayKeepsInv(p, boot, moves);
    InvWellFormed(p.prims, Play(p, boot, moves));
    hide Play, Possible, Boot, Inv;
  }
}
