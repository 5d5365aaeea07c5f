/** What a sender's stream comes to at an observer whose tasks are prompt: which of a session's PDUs are
    delivered, in which order and under which key. */
module DeliveryTheorems {
  import opened Bytes
  import opened Crypto
  import opened Options
  import opened Wire
  import opened KeyCacheSpec
  import opened BroadcasterSpec
  import opened BroadcasterTheorems
  import opened ConsumerSpec
  import opened ConsumerTheorems
  import opened OrderTheorems
  import opened ReachableTheorems
  import Rebuild = ReconstructorSpec
  import opened ReconstructorTheorems
  import opened ScheduleTheorems

  /** A sender's record, and what has been gathered of the key of its session. */
  datatype Receiver = Receiver(record: Consumer, gathered: Rebuild.Collected)

  function Drains(n: nat, at: nat): (steps: seq<ConsumerStep>)
    ensures |steps| == n && AllDrains(steps)
  {
    seq(n, _ => DrainStep(at))
  }

  /** A frame, with all it leads to done before the next one: a fragment that is passed on is gathered,
      and once the key is complete it is stored and the drain event raised until nothing is pending. */
  function Prompt(prims: Primitives, r: Receiver, reading: Reading, at: nat): (out: (Receiver, seq<Event>))
    requires WellFormed(r.record)
    ensures WellFormed(out.0.record) && out.0.record.address == r.record.address
  {
    var (d, events) := Advance(r.record, FrameStep(reading, at));
    if reading.ReadFragment? && events != [] then
      var e := Rebuild.ElementOf(d.address, reading.fragment);
      var (gathered, fired) := AloneStep(prims, r.gathered, e);
      if fired.None? then (Receiver(d, gathered), events)
      else
        var stored := Advance(d, KeyStep(Low(e.keyId), fired.value, at)).0;
        var (f, more) := RunConsumer(stored, Drains(Rounds(DEFERRED_QUEUE_SIZE), at));
        (Receiver(f, gathered), events + more)
    else (r.(record := d), events)
  }

  function Hear(prims: Primitives, r: Receiver, readings: seq<Reading>, at: nat): (out: (Receiver, seq<Event>))
    requires WellFormed(r.record)
    ensures WellFormed(out.0.record)
    decreases |readings|
  {
    if readings == [] then (r, [])
    else
      var (q, events) := Prompt(prims, r, readings[0], at);
      var (last, more) := Hear(prims, q, readings[1..], at);
      (last, events + more)
  }

  /** Frames of a session, and fragments that claim to be of it and do not verify. */
  predicate FromSession(prims: Primitives, address: Address, s: Session, reading: Reading) {
    match reading
    case ReadData(pdu) => PduKeyId(pdu) == s.keyId
    case ReadFragment(fragment) =>
      var e := Rebuild.ElementOf(address, fragment);
      var clear := OpenFragment(prims, e.masked, e.seed, e.tag);
      Low(e.keyId) == Low(s.keyId) && (clear.Some? ==> clear.value == FragmentOf(s.key, e.index))
    case ReadOther => true
  }

  function DataOf(readings: seq<Reading>): seq<DataPdu> {
    if readings == [] then [] else DataIn(readings[0]) + DataOf(readings[1..])
  }

  function DataIn(reading: Reading): seq<DataPdu> {
    if reading.ReadData? then [reading.pdu] else []
  }

  /** The index of a fragment that verifies. */
  function Adds(prims: Primitives, address: Address, reading: Reading): set<nat> {
    if !reading.ReadFragment? then {} else
      var e := Rebuild.ElementOf(address, reading.fragment);
      if OpenFragment(prims, e.masked, e.seed, e.tag).Some? then {e.index as nat} else {}
  }

  function Brought(prims: Primitives, address: Address, readings: seq<Reading>): set<nat> {
    if readings == [] then {} else Adds(prims, address, readings[0]) + Brought(prims, address, readings[1..])
  }

  /** Fragments of all four indices, with those gathered already. */
  predicate Covers(prims: Primitives, r: Receiver, readings: seq<Reading>) {
    {0, 1, 2, 3} <= r.gathered.Keys + Brought(prims, r.record.address, readings)
  }

  // ---- Once the key is cached ----------------------------------------------------------------------

  predicate UnderKey(events: seq<Event>, key: Key) {
    forall e :: e in events && e.Delivered? ==> e.key == key
  }

  /** The session's key is cached, and what waits is the session's. */
  predicate HasKey(c: Consumer, s: Session) {
    && WellFormed(c) && Ok(c.cache) && Low(s.keyId) != 0 && Lookup(c.cache, Low(s.keyId)) == Some(s.key)
    && (forall p :: p in c.deferred ==> Low(PduKeyId(p)) == Low(s.keyId))
  }

  /** The key is cached, and so nothing waits and no drain is due. */
  predicate Flows(c: Consumer, s: Session) {
    HasKey(c, s) && c.deferred == [] && !c.pending
  }

  lemma TouchKeepsKey(c: Consumer, s: Session, now: nat)
    requires HasKey(c, s)
    ensures var id := Low(s.keyId);
      var cache := Touch(c.cache, id, now);
      Ok(cache) && Lookup(cache, id) == Some(s.key)
  {
    TouchedAnswers(c.cache, Low(s.keyId), now);
  }

  lemma PromptFlows(prims: Primitives, r: Receiver, s: Session, reading: Reading, at: nat)
    requires Flows(r.record, s) && FromSession(prims, r.record.address, s, reading)
    ensures var (q, events) := Prompt(prims, r, reading, at);
      && Flows(q.record, s) && q.record.address == r.record.address
      && PdusOf(events, Taken) == PdusOf(events, Sent) == DataIn(reading) && UnderKey(events, s.key)
  {
    TouchKeepsKey(r.record, s, at);
    hide Touch, Lookup, Ok, OpenFragment, Low;
    match reading
    case ReadData(pdu) =>
      PdusOfTwo(Accepted(pdu), Delivered(pdu, s.key), Taken);
      PdusOfTwo(Accepted(pdu), Delivered(pdu, s.key), Sent);
      PdusOfOne(Accepted(pdu), Taken);
      PdusOfOne(Accepted(pdu), Sent);
      PdusOfOne(Delivered(pdu, s.key), Taken);
      PdusOfOne(Delivered(pdu, s.key), Sent);
      hide PdusOf;
      assert Prompt(prims, r, reading, at).1 == [Accepted(pdu), Delivered(pdu, s.key)];
    case ReadFragment(fragment) =>
    case ReadOther =>
  }

  lemma {:induction false} HearFlows(prims: Primitives, r: Receiver, s: Session, readings: seq<Reading>, at: nat)
    requires Flows(r.record, s) && forall x :: x in readings ==> FromSession(prims, r.record.address, s, x)
    ensures var (q, events) := Hear(prims, r, readings, at);
      && Flows(q.record, s)
      && PdusOf(events, Taken) == PdusOf(events, Sent) == DataOf(readings) && UnderKey(events, s.key)
    decreases |readings|
  {
    assert WellFormed(r.record);
    hide Flows, Prompt, FromSession, DataIn;
    if readings != [] {
      assert readings[0] in readings;
      PromptFlows(prims, r, s, readings[0], at);
      var (q, events) := Prompt(prims, r, readings[0], at);
      HearFlows(prims, q, s, readings[1..], at);
      var more := Hear(prims, q, readings[1..], at).1;
      PdusOfConcat(events, more, Taken);
      PdusOfConcat(events, more, Sent);
    }
  }

  // ---- When the key is complete ------------------------------------------------------------------------

  lemma {:induction false} ServedUnderKey(batch: seq<DataPdu>, fates: seq<Fate>, key: Key)
    requires |fates| == |batch| && forall i :: 0 <= i < |fates| ==> fates[i] == Served(key)
    ensures UnderKey(EventsFor(batch, fates), key)
  {
    if batch != [] { ServedUnderKey(batch[1..], fates[1..], key); }
  }

  lemma AllServed(c: Consumer, s: Session, queue: seq<DataPdu>)
    requires HasKey(c, s) && forall p :: p in queue ==> Low(PduKeyId(p)) == Low(s.keyId)
    ensures forall i :: 0 <= i < |queue| ==> Fates(c, queue)[i] == Served(s.key)
  {
    hide Lookup, Displaces, Low, PduKeyId, Ok;
    forall i | 0 <= i < |queue|
      ensures Fates(c, queue)[i] == Served(s.key)
    {
      assert queue[i] in queue;
    }
  }

  lemma DrainServes(c: Consumer, s: Session, now: nat)
    requires HasKey(c, s)
    ensures var (d, events) := Drain(c, now);
      && HasKey(d, s) && UnderKey(events, s.key)
      && PdusOf(events, Sent) + d.deferred == c.deferred && PdusOf(events, Taken) == []
  {
    if c.pending {
      var batch := BatchOf(c);
      var fates := Fates(c, batch);
      DrainIsPlain(c, now);
      assert c.deferred == batch + c.deferred[|batch|..];
      hide Drain, BatchOf, Fates, Low, PduKeyId, Lookup, Ok;
      AllServed(c, s, batch);
      ServedIsSafe(batch, fates, c.deferred[|batch|..]);
      SentAreServed(batch, fates);
      ServedUnderKey(batch, fates, s.key);
      FollowsNow(c.cache, IdsOf(batch), Drain(c, now).0.cache, Low(s.keyId));
      hide EventsFor, ServedOf, Back, OrderSafe, PdusOf, Follows, IdsOf;
    } else {
      assert [] + c.deferred == c.deferred;
    }
  }

  lemma {:induction false} DrainsServe(c: Consumer, s: Session, steps: seq<ConsumerStep>)
    requires HasKey(c, s) && AllDrains(steps)
    ensures var (d, events) := RunConsumer(c, steps);
      && HasKey(d, s) && UnderKey(events, s.key)
      && PdusOf(events, Sent) + d.deferred == c.deferred && PdusOf(events, Taken) == []
    decreases |steps|
  {
    assert WellFormed(c);
    hide HasKey, Drain;
    if steps == [] {
      assert [] + c.deferred == c.deferred;
    } else {
      assert steps[0] in steps;
      DrainServes(c, s, steps[0].at);
      var (d, events) := Drain(c, steps[0].at);
      DrainsServe(d, s, steps[1..]);
      var (e, more) := RunConsumer(d, steps[1..]);
      PdusOfConcat(events, more, Sent);
      PdusOfConcat(events, more, Taken);
      Regroup(PdusOf(events, Sent), PdusOf(more, Sent), e.deferred);
    }
  }

  /** Nothing gathered so far completes the key, and what waits is the session's. */
  predicate Awaits(r: Receiver, s: Session) {
    var c := r.record;
    && WellFormed(c) && Ok(c.cache) && |c.cache.slots| > 0 && !c.pending
    && Low(s.keyId) != 0 && Low(s.keyId) !in View(c.cache)
    && (forall p :: p in c.deferred ==> Low(PduKeyId(p)) == Low(s.keyId))
    && PartOf(s.key, r.gathered) && !Rebuild.Complete(r.gathered)
  }

  /** The callback and the drain events it brings about deliver all that waits, in order. */
  lemma CompletionServes(c: Consumer, s: Session, at: nat)
    requires WellFormed(c) && Ok(c.cache) && |c.cache.slots| > 0 && Low(s.keyId) != 0 && Low(s.keyId) !in View(c.cache)
    requires forall p :: p in c.deferred ==> Low(PduKeyId(p)) == Low(s.keyId)
    ensures var stored := Advance(c, KeyStep(Low(s.keyId), s.key, at)).0;
      var (f, events) := RunConsumer(stored, Drains(Rounds(DEFERRED_QUEUE_SIZE), at));
      && Flows(f, s) && f.address == c.address && UnderKey(events, s.key)
      && PdusOf(events, Sent) == c.deferred && PdusOf(events, Taken) == []
  {
    var id := Low(s.keyId);
    var b := c.(stamp := TickStamp.Save(c.stamp, at));
    CompleteKeyEffect(b, id, s.key, at);
    var stored := CompleteKey(b, id, s.key, at);
    LookupIsMapLookup(stored.cache, id);
    hide CompleteKey, View, Lookup, Ok, Low, PduKeyId;
    AllServed(stored, s, stored.deferred);
    assert NoneStuck(stored);
    var steps := Drains(Rounds(DEFERRED_QUEUE_SIZE), at);
    DrainsFinish(stored, steps);
    DrainsServe(stored, s, steps);
    hide RunConsumer, Drains, UnderKey, PdusOf;
    var (f, events) := RunConsumer(stored, steps);
    assert PdusOf(events, Sent) + [] == PdusOf(events, Sent);
  }

  // ---- The whole stream ----------------------------------------------------------------------------------

  lemma DataWaits(c: Consumer, s: Session, pdu: DataPdu, at: nat)
    requires WellFormed(c) && Lookup(c.cache, Low(PduKeyId(pdu))).None?
    ensures var (d, events) := Advance(c, FrameStep(ReadData(pdu), at));
      && d.cache == c.cache && d.pending == c.pending && d.address == c.address && d.deferred == Capped(c.deferred + [pdu])
      && PdusOf(events, Taken) == [pdu] && PdusOf(events, Sent) == [] && UnderKey(events, s.key)
  {
    OfTwo(Accepted(pdu), DroppedFull(pdu), Taken);
    OfTwo(Accepted(pdu), DroppedFull(pdu), Sent);
    hide PdusOf;
    if |c.deferred| < DEFERRED_QUEUE_SIZE {
      assert Advance(c, FrameStep(ReadData(pdu), at)).1 == [Accepted(pdu)];
    } else {
      assert Advance(c, FrameStep(ReadData(pdu), at)).1 == [Accepted(pdu), DroppedFull(pdu)];
      assert (c.deferred + [pdu])[..DEFERRED_QUEUE_SIZE] == c.deferred;
    }
  }

  lemma FragmentPasses(c: Consumer, s: Session, fragment: KeyPdu, at: nat)
    requires WellFormed(c) && Lookup(c.cache, Low(KeyIdOf(fragment.sessionData))).None?
    ensures var (d, events) := Advance(c, FrameStep(ReadFragment(fragment), at));
      && d.cache == c.cache && d.pending == c.pending && d.address == c.address && d.deferred == c.deferred
      && events == [FragmentWanted(fragment)]
      && PdusOf(events, Taken) == [] && PdusOf(events, Sent) == [] && UnderKey(events, s.key)
  {
    PdusOfOne(FragmentWanted(fragment), Taken);
    PdusOfOne(FragmentWanted(fragment), Sent);
    hide PdusOf;
  }

  /** Gathering one fragment of the session. */
  lemma GathersOne(prims: Primitives, c: Rebuild.Collected, address: Address, s: Session, fragment: KeyPdu)
    requires PartOf(s.key, c) && !Rebuild.Complete(c) && FromSession(prims, address, s, ReadFragment(fragment))
    ensures var (after, fired) := AloneStep(prims, c, Rebuild.ElementOf(address, fragment));
      var keys := c.Keys + Adds(prims, address, ReadFragment(fragment));
      if {0, 1, 2, 3} <= keys then fired == Some(s.key)
      else fired == None && PartOf(s.key, after) && !Rebuild.Complete(after) && after.Keys == keys
  {
    hide OpenFragment, FragmentOf, Rebuild.ElementOf;
    var after := Rebuild.Gather(prims, c, Rebuild.ElementOf(address, fragment));
    assert after.Keys == c.Keys + Adds(prims, address, ReadFragment(fragment));
    if Rebuild.Complete(after) { CompleteIsKey(s.key, after); }
  }

  /** A frame that does not complete the key: a data PDU joins the queue. */
  lemma PromptWaits(prims: Primitives, r: Receiver, s: Session, reading: Reading, at: nat)
    requires Awaits(r, s) && FromSession(prims, r.record.address, s, reading)
    requires !({0, 1, 2, 3} <= r.gathered.Keys + Adds(prims, r.record.address, reading))
    ensures var (q, events) := Prompt(prims, r, reading, at);
      var c := r.record;
      && Awaits(q, s) && q.record.address == c.address
      && q.gathered.Keys == r.gathered.Keys + Adds(prims, c.address, reading)
      && q.record.deferred == Capped(c.deferred + DataIn(reading))
      && PdusOf(events, Taken) == DataIn(reading) && PdusOf(events, Sent) == [] && UnderKey(events, s.key)
  {
    var c := r.record;
    LookupIsMapLookup(c.cache, Low(s.keyId));
    assert c.deferred + [] == c.deferred;
    match reading
    case ReadData(pdu) =>
      DataWaits(c, s, pdu, at);
      hide Advance, View, Ok, Low, PduKeyId, PdusOf, Rebuild.Complete, PartOf;
    case ReadFragment(fragment) =>
      FragmentPasses(c, s, fragment, at);
      GathersOne(prims, r.gathered, c.address, s, fragment);
      hide Advance, View, Ok, Low, PduKeyId, PdusOf, FromSession, AloneStep, Rebuild.ElementOf, Adds, UnderKey, RunConsumer;
    case ReadOther =>
  }

  /** The fragment that completes the key: all that waited is delivered, in order. */
  lemma PromptCompletes(prims: Primitives, r: Receiver, s: Session, reading: Reading, at: nat)
    requires Awaits(r, s) && FromSession(prims, r.record.address, s, reading)
    requires {0, 1, 2, 3} <= r.gathered.Keys + Adds(prims, r.record.address, reading)
    ensures var (q, events) := Prompt(prims, r, reading, at);
      && Flows(q.record, s) && q.record.address == r.record.address
      && PdusOf(events, Taken) == DataIn(reading) && PdusOf(events, Sent) == r.record.deferred + DataIn(reading)
      && UnderKey(events, s.key)
  {
    var c := r.record;
    assert reading.ReadFragment?;
    var fragment := reading.fragment;
    LookupIsMapLookup(c.cache, Low(s.keyId));
    assert c.deferred + [] == c.deferred;
    FragmentPasses(c, s, fragment, at);
    GathersOne(prims, r.gathered, c.address, s, fragment);
    var d := Advance(c, FrameStep(reading, at)).0;
    assert Low(Rebuild.ElementOf(c.address, fragment).keyId) == Low(s.keyId);
    hide Advance, View, Ok, Low, PduKeyId, PdusOf, FromSession, AloneStep, Rebuild.ElementOf, Adds, Flows, UnderKey, RunConsumer;
    CompletionServes(d, s, at);
  }

  /** `readings[m]` completes the key. */
  predicate CompletesAt(prims: Primitives, r: Receiver, readings: seq<Reading>, m: nat)
    requires m < |readings|
  {
    !Covers(prims, r, readings[..m]) && Covers(prims, r, readings[..m + 1])
  }

  lemma {:induction false} BroughtConcat(prims: Primitives, address: Address, a: seq<Reading>, b: seq<Reading>)
    ensures Brought(prims, address, a + b) == Brought(prims, address, a) + Brought(prims, address, b)
    ensures DataOf(a + b) == DataOf(a) + DataOf(b)
  {
    hide Adds, DataIn;
    if a == [] {
      assert a + b == b;
    } else {
      assert (a + b)[1..] == a[1..] + b;
      BroughtConcat(prims, address, a[1..], b);
      Regroup(DataIn(a[0]), DataOf(a[1..]), DataOf(b));
    }
  }

  lemma {:induction false} HearConcat(prims: Primitives, r: Receiver, a: seq<Reading>, b: seq<Reading>, at: nat)
    requires WellFormed(r.record)
    ensures var (q, events) := Hear(prims, r, a, at);
      var (last, more) := Hear(prims, q, b, at);
      Hear(prims, r, a + b, at) == (last, events + more)
    decreases |a|
  {
    hide Prompt;
    if a == [] {
      assert a + b == b && [] + Hear(prims, r, b, at).1 == Hear(prims, r, b, at).1;
    } else {
      assert (a + b)[1..] == a[1..] + b;
      var (q, events) := Prompt(prims, r, a[0], at);
      HearConcat(prims, q, a[1..], b, at);
      var (mid, more) := Hear(prims, q, a[1..], at);
      Regroup(events, more, Hear(prims, mid, b, at).1);
    }
  }

  lemma CoversFirst(prims: Primitives, r: Receiver, readings: seq<Reading>)
    requires readings != [] && !Covers(prims, r, readings)
    ensures !({0, 1, 2, 3} <= r.gathered.Keys + Adds(prims, r.record.address, readings[0]))
  {
    hide Adds;
  }

  lemma CoversRest(prims: Primitives, r: Receiver, q: Receiver, readings: seq<Reading>)
    requires readings != [] && q.record.address == r.record.address
    requires q.gathered.Keys == r.gathered.Keys + Adds(prims, r.record.address, readings[0])
    ensures Covers(prims, r, readings) <==> Covers(prims, q, readings[1..])
    ensures q.gathered.Keys + Brought(prims, r.record.address, readings[1..]) ==
            r.gathered.Keys + Brought(prims, r.record.address, readings)
  {
    hide Adds;
  }

  /** As long as the fragments do not cover the key, nothing is delivered, and the queue holds what it can
      of what has come. */
  lemma {:induction false} NothingWithoutKey(prims: Primitives, r: Receiver, s: Session, readings: seq<Reading>, at: nat)
    requires Awaits(r, s) && !Covers(prims, r, readings)
    requires forall x :: x in readings ==> FromSession(prims, r.record.address, s, x)
    ensures var (q, events) := Hear(prims, r, readings, at);
      && Awaits(q, s) && q.record.address == r.record.address
      && q.gathered.Keys == r.gathered.Keys + Brought(prims, r.record.address, readings)
      && q.record.deferred == Capped(r.record.deferred + DataOf(readings))
      && PdusOf(events, Taken) == DataOf(readings) && PdusOf(events, Sent) == [] && UnderKey(events, s.key)
    decreases |readings|
  {
    assert WellFormed(r.record);
    hide Prompt, FromSession, DataIn, Awaits, Adds;
    if readings == [] {
      assert r.record.deferred + [] == r.record.deferred;
    } else {
      assert readings[0] in readings;
      CoversFirst(prims, r, readings);
      PromptWaits(prims, r, s, readings[0], at);
      hide Covers, Capped, PdusOf;
      var (q, events) := Prompt(prims, r, readings[0], at);
      CoversRest(prims, r, q, readings);
      NothingWithoutKey(prims, q, s, readings[1..], at);
      var more := Hear(prims, q, readings[1..], at).1;
      PdusOfConcat(events, more, Taken);
      PdusOfConcat(events, more, Sent);
      CappedAgain(r.record.deferred + DataIn(readings[0]), DataOf(readings[1..]));
      Regroup(r.record.deferred, DataIn(readings[0]), DataOf(readings[1..]));
    }
  }

  /** What a prompt observer makes of the stream of a session, exactly. It accepts every data PDU. While
      the verified fragments heard do not cover the key, nothing is delivered. The fragment that completes
      them brings out all that waits, in order, and every later PDU is delivered as it comes: in order,
      under the session's key, and missing none but those for which no room was left among 80. */
  lemma SessionDelivered(prims: Primitives, r: Receiver, s: Session, readings: seq<Reading>, m: nat, at: nat)
    requires Awaits(r, s) && m < |readings| && CompletesAt(prims, r, readings, m)
    requires forall x :: x in readings ==> FromSession(prims, r.record.address, s, x)
    ensures var (q, events) := Hear(prims, r, readings, at);
      && Flows(q.record, s)
      && PdusOf(events, Taken) == DataOf(readings) && UnderKey(events, s.key)
      && PdusOf(events, Sent) == Capped(r.record.deferred + DataOf(readings[..m])) + DataOf(readings[m..])
  {
    var before, after := readings[..m], readings[m..];
    assert readings == before + after && readings[..m + 1] == before + [readings[m]] && after[0] == readings[m];
    BroughtConcat(prims, r.record.address, before, [readings[m]]);
    BroughtConcat(prims, r.record.address, before, after);
    assert Brought(prims, r.record.address, [readings[m]]) == Adds(prims, r.record.address, readings[m]) + {};
    assert WellFormed(r.record);
    hide Prompt, FromSession, Adds, Capped, Awaits, Hear;
    NothingWithoutKey(prims, r, s, before, at);
    var (q, events) := Hear(prims, r, before, at);
    assert {0, 1, 2, 3} <= q.gathered.Keys + Adds(prims, r.record.address, readings[m]);
    hide Brought, Covers, DataOf;
    DeliveredFromHere(prims, q, s, after, at);
    HearConcat(prims, r, before, after, at);
    var more := Hear(prims, q, after, at).1;
    PdusOfConcat(events, more, Taken);
    PdusOfConcat(events, more, Sent);
    hide PdusOf;
    assert [] + PdusOf(more, Sent) == PdusOf(more, Sent);
  }

  lemma DeliveredFromHere(prims: Primitives, r: Receiver, s: Session, readings: seq<Reading>, at: nat)
    requires Awaits(r, s) && readings != [] && forall x :: x in readings ==> FromSession(prims, r.record.address, s, x)
    requires {0, 1, 2, 3} <= r.gathered.Keys + Adds(prims, r.record.address, readings[0])
    ensures var (q, events) := Hear(prims, r, readings, at);
      && Flows(q.record, s)
      && PdusOf(events, Taken) == DataOf(readings) && UnderKey(events, s.key)
      && PdusOf(events, Sent) == r.record.deferred + DataOf(readings)
  {
    assert WellFormed(r.record) && readings[0] in readings;
    PromptCompletes(prims, r, s, readings[0], at);
    hide Prompt, Awaits, Flows, FromSession, Adds, DataIn;
    var (q, events) := Prompt(prims, r, readings[0], at);
    HearFlows(prims, q, s, readings[1..], at);
    var more := Hear(prims, q, readings[1..], at).1;
    PdusOfConcat(events, more, Taken);
    PdusOfConcat(events, more, Sent);
    hide PdusOf;
    Regroup(r.record.deferred, DataIn(readings[0]), DataOf(readings[1..]));
  }

  /** Everything waiting and coming is delivered exactly when no more than 80 wait before the key. */
  lemma NothingLostIff(queue: seq<DataPdu>, before: seq<DataPdu>, after: seq<DataPdu>)
    ensures Capped(queue + before) + after == queue + (before + after) <==> |queue| + |before| <= DEFERRED_QUEUE_SIZE
  {
    Regroup(queue, before, after);
    assert |queue + (before + after)| == |queue| + |before| + |after|;
  }

  // ---- From the timer to the observers -------------------------------------------------------------------

  function ReadingOf(out: Output): Reading {
    match out
    case DataOut(pdu) => ReadData(pdu)
    case KeyOut(fragment) => ReadFragment(fragment)
    case Refused => ReadOther
  }

  function ReadingsOf(outputs: seq<Output>, turns: seq<nat>): (readings: seq<Reading>)
    requires forall k :: k in turns ==> k < |outputs|
    ensures |readings| == |turns|
    ensures forall i :: 0 <= i < |turns| ==> turns[i] in turns && readings[i] == ReadingOf(outputs[turns[i]])
  {
    seq(|turns|, i requires 0 <= i < |turns| => assert turns[i] in turns; ReadingOf(outputs[turns[i]]))
  }

  /** Turns of one session, data and fragments, among them the fragments of one window of four rounds. */
  predicate HeardTurns(ratio: nat, replaceAfter: nat, count: nat, start: nat, turns: seq<nat>)
    requires replaceAfter > 0
  {
    && start + 4 * (ratio + 1) <= count
    && (forall k :: k in turns ==> k < count && OpenedBy(0, k + 1, replaceAfter) == OpenedBy(0, start + 1, replaceAfter))
    && (forall k :: start <= k < start + 4 * (ratio + 1) && FragmentTurn(ratio, k) ==> k in turns)
  }

  /** What a data turn puts on the air opens, under the session's key, to what the application gave. */
  lemma DataTurn(prims: Primitives, first: Session, replaceAfter: nat, ratio: nat, inputs: seq<Input>, k: nat)
    requires replaceAfter > 0 && OnTime(0, CallsOf(ratio, inputs), replaceAfter)
    requires k < |inputs| && !FragmentTurn(ratio, k)
    ensures var s := SessionOfCall(first, replaceAfter, CallsOf(ratio, inputs), k + 1);
      var out := RunTimer(prims, FreshSender(first, ratio), replaceAfter, ratio, inputs).1[k];
      !out.KeyOut? && (out.DataOut? ==> PduKeyId(out.pdu) == s.keyId && Open(prims, s.key, out.pdu) == inputs[k].clear)
  {
    var calls := CallsOf(ratio, inputs);
    ScheduleClosedForm(prims, first, replaceAfter, ratio, inputs);
    assert calls[k] == ForData(inputs[k].clear, inputs[k].next, inputs[k].seed);
    var s := SessionOfCall(first, replaceAfter, calls, k + 1);
    var number: u16 := (k + 1) % replaceAfter % 0x1_0000;
    SealedData(prims, s, number, inputs[k].seed, inputs[k].clear);
    hide CallsOf, OnTime, SessionOfCall, OutputAt, RunTimer, Seal, Open, PduKeyId, FragmentTurn;
    OutputClosedForm(prims, first, replaceAfter, calls, k);
  }

  lemma SealedData(prims: Primitives, s: Session, number: u16, seed: byte, clear: seq<byte>)
    ensures var pdu := Seal(prims, s.key, s.keyId, number, seed, clear);
      PduKeyId(pdu) == s.keyId && Open(prims, s.key, pdu) == clear
  {
    SessionDataRoundTrip(s.keyId, 0);
    CtrInverts(prims, s.key, NonceOf(MARKER, ProduceKeySessionData(s.keyId, 0), seed), clear);
  }

  /** What is heard at `turns` is of the session open in the window, and covers its key. */
  lemma HeardIsOfSession(prims: Primitives, first: Session, replaceAfter: nat, ratio: nat, inputs: seq<Input>, start: nat,
                         turns: seq<nat>, address: Address, i: nat)
    requires replaceAfter > 0 && OnTime(0, CallsOf(ratio, inputs), replaceAfter)
    requires HeardTurns(ratio, replaceAfter, |inputs|, start, turns) && i < |turns|
    ensures var outputs := RunTimer(prims, FreshSender(first, ratio), replaceAfter, ratio, inputs).1;
      var s := SessionOfCall(first, replaceAfter, CallsOf(ratio, inputs), start + 1);
      var k, reading := turns[i], ReadingsOf(outputs, turns)[i];
      && FromSession(prims, address, s, reading)
      && (reading.ReadData? ==> Open(prims, s.key, reading.pdu) == inputs[k].clear)
      && (FragmentTurn(ratio, k) ==> Adds(prims, address, reading) == {k / (ratio + 1) % 4})
  {
    var k := turns[i];
    assert k in turns;
    var outputs := RunTimer(prims, FreshSender(first, ratio), replaceAfter, ratio, inputs).1;
    var calls := CallsOf(ratio, inputs);
    SameSession(first, replaceAfter, calls, k + 1, start + 1);
    hide RunTimer, SessionOfCall, OnTime, CallsOf, OpenedBy, OpenFragment, Open, PduKeyId, Low;
    if FragmentTurn(ratio, k) {
      HeardTurn(prims, first, replaceAfter, ratio, inputs, start, address, k);
    } else {
      DataTurn(prims, first, replaceAfter, ratio, inputs, k);
    }
  }

  lemma {:induction false} BroughtHas(prims: Primitives, address: Address, readings: seq<Reading>, i: nat)
    requires i < |readings|
    ensures Adds(prims, address, readings[i]) <= Brought(prims, address, readings)
  {
    hide Adds;
    if i > 0 { BroughtHas(prims, address, readings[1..], i - 1); }
  }

  lemma WindowBrings(prims: Primitives, address: Address, ratio: nat, replaceAfter: nat, start: nat, turns: seq<nat>,
                     readings: seq<Reading>, index: FragmentIndex)
    requires |readings| == |turns|
    requires forall k :: start <= k < start + 4 * (ratio + 1) && FragmentTurn(ratio, k) ==> k in turns
    requires forall i :: 0 <= i < |turns| && FragmentTurn(ratio, turns[i]) ==>
      Adds(prims, address, readings[i]) == {turns[i] / (ratio + 1) % 4}
    ensures index as nat in Brought(prims, address, readings)
  {
    WindowExactlyOnce(ratio, start, index);
    var k := TurnFor(ratio, start, index);
    assert ScheduleTheorems.Brings(ratio, k, index) && k in turns;
    hide Adds, TurnFor, Brought;
    var i :| 0 <= i < |turns| && turns[i] == k;
    BroughtHas(prims, address, readings, i);
  }

  /** Some frame completes what the stream as a whole covers. */
  lemma {:induction false} SomeCompletes(prims: Primitives, r: Receiver, readings: seq<Reading>, n: nat) returns (m: nat)
    requires n <= |readings| && !Covers(prims, r, readings[..0]) && Covers(prims, r, readings[..n])
    ensures m < n && CompletesAt(prims, r, readings, m)
  {
    if Covers(prims, r, readings[..n - 1]) { m := SomeCompletes(prims, r, readings, n - 1); } else { m := n - 1; }
  }

  /** Delivery, from a sender's timer to the observers: of a session of which the fragments of one window
      of four rounds are heard, in whatever order and among whatever else of the session, every data PDU
      heard after the one that completes the key is delivered in the order heard, and so are up to 80
      heard before it; each opens to what the application gave. */
  lemma WindowDelivers(prims: Primitives, first: Session, replaceAfter: nat, ratio: nat, inputs: seq<Input>, start: nat,
                       turns: seq<nat>, c: Consumer, at: nat) returns (m: nat)
    requires replaceAfter > 0 && OnTime(0, CallsOf(ratio, inputs), replaceAfter)
    requires HeardTurns(ratio, replaceAfter, |inputs|, start, turns)
    requires Awaits(Receiver(c, map[]), SessionOfCall(first, replaceAfter, CallsOf(ratio, inputs), start + 1))
    ensures var s := SessionOfCall(first, replaceAfter, CallsOf(ratio, inputs), start + 1);
      var outputs := RunTimer(prims, FreshSender(first, ratio), replaceAfter, ratio, inputs).1;
      var readings := ReadingsOf(outputs, turns);
      var (q, events) := Hear(prims, Receiver(c, map[]), readings, at);
      && m < |readings| && CompletesAt(prims, Receiver(c, map[]), readings, m)
      && Flows(q.record, s) && UnderKey(events, s.key)
      && PdusOf(events, Sent) == Capped(c.deferred + DataOf(readings[..m])) + DataOf(readings[m..])
      && (forall i :: 0 <= i < |turns| && readings[i].ReadData? ==> Open(prims, s.key, readings[i].pdu) == inputs[turns[i]].clear)
  {
    var s := SessionOfCall(first, replaceAfter, CallsOf(ratio, inputs), start + 1);
    var outputs := RunTimer(prims, FreshSender(first, ratio), replaceAfter, ratio, inputs).1;
    var readings := ReadingsOf(outputs, turns);
    var r := Receiver(c, map[]);
    forall i | 0 <= i < |turns|
      ensures FromSession(prims, c.address, s, readings[i])
      ensures readings[i].ReadData? ==> Open(prims, s.key, readings[i].pdu) == inputs[turns[i]].clear
      ensures FragmentTurn(ratio, turns[i]) ==> Adds(prims, c.address, readings[i]) == {turns[i] / (ratio + 1) % 4}
    {
      HeardIsOfSession(prims, first, replaceAfter, ratio, inputs, start, turns, c.address, i);
    }
    assert readings[..0] == [] && !Covers(prims, r, []);
    hide SessionOfCall, OnTime, CallsOf, RunTimer, OpenedBy, FromSession, Adds, Open, Awaits, Hear, FragmentTurn, ReadingsOf, Capped;
    WindowBrings(prims, c.address, ratio, replaceAfter, start, turns, readings, 0);
    WindowBrings(prims, c.address, ratio, replaceAfter, start, turns, readings, 1);
    WindowBrings(prims, c.address, ratio, replaceAfter, start, turns, readings, 2);
    WindowBrings(prims, c.address, ratio, replaceAfter, start, turns, readings, 3);
    assert readings[..|readings|] == readings;
    hide Brought;
    assert Covers(prims, r, readings);
    hide Covers;
    m := SomeCompletes(prims, r, readings, |readings|);
    SessionDelivered(prims, r, s, readings, m, at);
  }
}
