/** What goes wrong, from power-up, when the low byte of a session id is zero or is used twice by one
    sender: concrete runs, and exactly when their payloads are right all the same. */
module IdLimits {
  import opened Bytes
  import opened Crypto
  import opened Options
  import opened Wire
  import opened KeyCacheSpec
  import opened ConsumerSpec
  import opened ConsumerTheorems
  import opened ProcessorSpec
  import opened PowerUp
  import opened BroadcasterSpec
  import opened Genuine
  import Rebuild = ReconstructorSpec
  import opened ReconstructorTheorems

  // ---- One frame -----------------------------------------------------------------------------------

  /** With nothing waiting, a PDU is delivered at once exactly when the lookup of its low byte hits, and
      rightly exactly when the keystream of what is hit agrees with the session's. For low byte zero
      that is the slot the hint is on, whatever it holds by now, if the last hit was for id 0 too, and
      the first free slot otherwise. */
  lemma ImmediateDelivery(prims: Primitives, c: Consumer, s: Session, number: u16, seed: byte, clear: seq<byte>, now: nat)
    requires WellFormed(c) && c.deferred == []
    ensures var pdu := Seal(prims, s.key, s.keyId, number, seed, clear);
      var hit := Lookup(c.cache, Low(s.keyId));
      && (hit.Some? <==> HintHits(c.cache, Low(s.keyId)) || First(c.cache.slots, Low(s.keyId)) < |c.cache.slots|)
      && (hit.Some? ==>
            && HandleData(c, pdu, now).1 == [Accepted(pdu), Delivered(pdu, hit.value)]
            && (Open(prims, hit.value, pdu) == clear <==> SameKeystream(prims, pdu, hit.value, s.key)))
      && (hit.None? ==> HandleData(c, pdu, now).1 == [Accepted(pdu)])
  {
    var pdu := Seal(prims, s.key, s.keyId, number, seed, clear);
    SessionDataRoundTrip(s.keyId, 0);
    assert PduKeyId(pdu) == s.keyId;
    var hit := Lookup(c.cache, Low(s.keyId));
    if hit.Some? { RightIff(prims, s, number, seed, clear, hit.value); }
    hide Seal, Open, SameKeystream, Touch;
  }

  /** A PDU opened with `key` gives what was sealed exactly when the keystreams agree. */
  lemma RightIff(prims: Primitives, s: Session, number: u16, seed: byte, clear: seq<byte>, key: Key)
    ensures var pdu := Seal(prims, s.key, s.keyId, number, seed, clear);
      Open(prims, key, pdu) == clear <==> SameKeystream(prims, pdu, key, s.key)
  {
    var pdu := Seal(prims, s.key, s.keyId, number, seed, clear);
    CtrInverts(prims, s.key, NonceOf(MARKER, pdu.sessionData, seed), clear);
    OpensAlikeIff(prims, pdu, key, s.key);
  }

  /** Exactly when a fragment of a session with low byte zero is passed on to the reconstructor: the cache
      of its sender is full, and its hint is not on id 0. */
  lemma StrayPassedOnIff(c: Consumer, fragment: KeyPdu, now: nat)
    requires WellFormed(c) && Low(KeyIdOf(fragment.sessionData)) == 0
    ensures HandleFragment(c, fragment, now).1 ==
      if First(c.cache.slots, 0) == |c.cache.slots| && !HintHits(c.cache, 0) then [FragmentWanted(fragment)] else []
    ensures Ok(c.cache) ==> (First(c.cache.slots, 0) == |c.cache.slots| <==> |View(c.cache)| == |c.cache.slots|)
  {
    hide Touch;
    if Ok(c.cache) { ViewSize(c.cache); }
  }

  // ---- One record ------------------------------------------------------------------------------------

  function Frames(fragments: seq<KeyPdu>, at: nat): seq<ConsumerStep> {
    if fragments == [] then [] else [FrameStep(ReadFragment(fragments[0]), at)] + Frames(fragments[1..], at)
  }

  function Wants(fragments: seq<KeyPdu>): seq<Event> {
    if fragments == [] then [] else [FragmentWanted(fragments[0])] + Wants(fragments[1..])
  }

  predicate GoBy(fragments: seq<KeyPdu>, id: byte) {
    forall f :: f in fragments ==> Low(KeyIdOf(f.sessionData)) == id
  }

  /** Fragments of an id that is not cached are all passed on, and leave the cache alone. */
  lemma {:induction false} MissesPassedOn(c: Consumer, fragments: seq<KeyPdu>, id: byte, at: nat)
    requires WellFormed(c) && GoBy(fragments, id) && Lookup(c.cache, id).None?
    ensures var (d, events) := RunConsumer(c, Frames(fragments, at));
      events == Wants(fragments) && d.cache == c.cache && d.deferred == c.deferred
    decreases |fragments|
  {
    hide Lookup;
    if fragments != [] {
      assert fragments[0] in fragments;
      var steps := Frames(fragments, at);
      assert steps[0] == FrameStep(ReadFragment(fragments[0]), at) && steps[1..] == Frames(fragments[1..], at);
      MissPassedOn(c, fragments[0], at);
      hide Advance;
      MissesPassedOn(Advance(c, steps[0]).0, fragments[1..], id, at);
    }
  }

  lemma MissPassedOn(c: Consumer, fragment: KeyPdu, at: nat)
    requires WellFormed(c) && Lookup(c.cache, Low(KeyIdOf(fragment.sessionData))).None?
    ensures var (d, events) := Advance(c, FrameStep(ReadFragment(fragment), at));
      events == [FragmentWanted(fragment)] && d.cache == c.cache && d.deferred == c.deferred
  {}

  /** The fragments of a session, and its key. */
  function Opening(fragments: seq<KeyPdu>, id: byte, key: Key, at: nat): seq<ConsumerStep> {
    Frames(fragments, at) + [KeyStep(id, key, at)]
  }

  /** A key that is new to a cache with room is stored, its fragments having been passed on. */
  lemma OpeningStores(c: Consumer, fragments: seq<KeyPdu>, id: byte, key: Key, at: nat)
    requires Quiet(c) && GoBy(fragments, id)
    requires id != 0 && id !in View(c.cache) && |View(c.cache)| < |c.cache.slots|
    ensures var (d, events) := RunConsumer(c, Opening(fragments, id, key, at));
      && events == Wants(fragments)
      && Quiet(d) && |d.cache.slots| == |c.cache.slots|
      && View(d.cache).Keys == View(c.cache).Keys + {id}
      && Lookup(d.cache, id) == Some(key)
  {
    LookupIsMapLookup(c.cache, id);
    MissesPassedOn(c, fragments, id, at);
    var d := RunConsumer(c, Frames(fragments, at)).0;
    hide View, Ok, CompleteKey, Lookup;
    StoresNew(d.(stamp := TickStamp.Save(d.stamp, at)), id, key, at);
    OneStep(d, KeyStep(id, key, at));
    RunConsumerConcat(c, Frames(fragments, at), [KeyStep(id, key, at)]);
    assert Wants(fragments) + [] == Wants(fragments);
    hide RunConsumer, Frames;
  }

  lemma StoresNew(c: Consumer, id: byte, key: Key, at: nat)
    requires Quiet(c) && id != 0 && id !in View(c.cache) && |View(c.cache)| < |c.cache.slots|
    ensures var d := CompleteKey(c, id, key, at);
      && Quiet(d) && |d.cache.slots| == |c.cache.slots|
      && View(d.cache).Keys == View(c.cache).Keys + {id}
      && Lookup(d.cache, id) == Some(key)
  {
    ViewSize(c.cache);
    CompleteKeyEffect(c, id, key, at);
    HintStaysOffZero(c, id, key, at);
    hide View, Ok, Lookup, CompleteKey, First, InBounds;
    LookupIsMapLookup(CompleteKey(c, id, key, at).cache, id);
  }

  lemma HintStaysOffZero(c: Consumer, id: byte, key: Key, at: nat)
    requires WellFormed(c) && c.cache.hintId != 0 && id != 0 && First(c.cache.slots, 0) < |c.cache.slots|
    ensures CompleteKey(c, id, key, at).cache.hintId != 0
  {}

  // ---- Low byte zero -----------------------------------------------------------------------------------

  function DataStep(prims: Primitives, s: Session, number: u16, seed: byte, clear: seq<byte>, at: nat): ConsumerStep {
    FrameStep(ReadData(Seal(prims, s.key, s.keyId, number, seed, clear)), at)
  }

  lemma FreshLookups(cacheSize: nat, id: byte)
    requires cacheSize > 0
    ensures Lookup(FreshCache(cacheSize), id) == if id == 0 then Some(BLANK_KEY) else None
    ensures First(FreshCache(cacheSize).slots, id) == if id == 0 then 0 else cacheSize
  {
    var k := First(FreshCache(cacheSize).slots, id);
    assert k < cacheSize ==> FreshCache(cacheSize).slots[k].id == 0;
  }

  /** The very first PDU of a session with low byte zero is delivered at once, under the blank key; so it
      is right exactly when the blank key's keystream agrees with the session's. */
  lemma ZeroLowByteRun(prims: Primitives, size: nat, cacheSize: nat, address: Address, s: Session, number: u16, seed: byte,
                       clear: seq<byte>, at: nat)
    requires size > 0 && cacheSize > 0 && address != ZERO_ADDRESS && Low(s.keyId) == 0
    ensures var pdu := Seal(prims, s.key, s.keyId, number, seed, clear);
      var steps := [DataStep(prims, s, number, seed, clear, at)];
      && Run(FreshTable(size, cacheSize), For(address, steps)).1 == TagAll(address, [Accepted(pdu), Delivered(pdu, BLANK_KEY)])
      && (Open(prims, BLANK_KEY, pdu) == clear <==> SameKeystream(prims, pdu, BLANK_KEY, s.key))
  {
    var step := DataStep(prims, s, number, seed, clear, at);
    PowerUpRun(size, cacheSize, address, [step]);
    NewcomerQuiet(address, cacheSize, at);
    FreshLookups(cacheSize, 0);
    hide Newcomer, FreshTable, Lookup, SameKeystream, Open, HandleData, Run, RunConsumer, Seal;
    var c := Newcomer(address, cacheSize, at);
    OneStep(c, step);
    ImmediateDelivery(prims, c.(stamp := TickStamp.Save(c.stamp, at)), s, number, seed, clear, at);
  }

  /** A key stored in the very slot the hint has for id 0 leaves the hint where it is. */
  lemma HintTaken(c: Consumer, id: byte, key: Key, now: nat)
    requires WellFormed(c) && id != 0 && First(c.cache.slots, id) == |c.cache.slots|
    requires HintHits(c.cache, 0) && c.cache.hintIndex == First(c.cache.slots, 0)
    ensures var d := CompleteKey(c, id, key, now);
      Lookup(d.cache, 0) == Some(key) && d.deferred == c.deferred
  {
    assert !Meets(c.cache.slots, id);
  }

  lemma ThreeSteps(c: Consumer, one: ConsumerStep, two: ConsumerStep, three: ConsumerStep)
    requires WellFormed(c)
    ensures var (d, a) := Advance(c, one);
      var (e, b) := Advance(d, two);
      RunConsumer(c, [one, two, three]).1 == a + b + Advance(e, three).1
  {
    assert [one, two, three] == [one] + ([two] + [three]);
    hide Advance, RunConsumer;
    var (d, a) := Advance(c, one);
    var (e, b) := Advance(d, two);
    OneStep(c, one);
    OneStep(d, two);
    OneStep(e, three);
    RunConsumerConcat(d, [two], [three]);
    RunConsumerConcat(c, [one], [two] + [three]);
    Regroup(a, b, Advance(e, three).1);
  }

  /** The first hit of id 0 puts the hint on the first slot, which stays free. */
  lemma FirstHit(prims: Primitives, c: Consumer, cacheSize: nat, s: Session, number: u16, seed: byte, clear: seq<byte>, at: nat)
    requires cacheSize > 0 && WellFormed(c) && c.cache == FreshCache(cacheSize) && c.deferred == [] && Low(s.keyId) == 0
    ensures var (d, events) := Advance(c, DataStep(prims, s, number, seed, clear, at));
      var pdu := Seal(prims, s.key, s.keyId, number, seed, clear);
      && events == [Accepted(pdu), Delivered(pdu, BLANK_KEY)] && d.deferred == []
      && HintHits(d.cache, 0) && d.cache.hintIndex == First(d.cache.slots, 0)
      && forall id: byte :: id != 0 ==> First(d.cache.slots, id) == |d.cache.slots|
  {
    SessionDataRoundTrip(s.keyId, 0);
    FreshLookups(cacheSize, 0);
    var touched := Touch(FreshCache(cacheSize), 0, at);
    FirstSameIds(FreshCache(cacheSize).slots, touched.slots, 0);
    forall id: byte | id != 0
      ensures First(touched.slots, id) == |touched.slots|
    {
      FreshLookups(cacheSize, id);
      FirstSameIds(FreshCache(cacheSize).slots, touched.slots, id);
    }
    hide First, Seal, FreshCache;
  }

  /** The same session again, after a key of another session has been stored: the hint for id 0 now points
      at that key's slot, and the PDU is delivered under it. */
  lemma ZeroLowByteTakesForeignKey(prims: Primitives, size: nat, cacheSize: nat, address: Address, s: Session, number: u16,
                                   seed: byte, clear: seq<byte>, id: byte, other: Key, at: nat)
    requires size > 0 && cacheSize > 0 && address != ZERO_ADDRESS && Low(s.keyId) == 0 && id != 0
    ensures var pdu := Seal(prims, s.key, s.keyId, number, seed, clear);
      var data := DataStep(prims, s, number, seed, clear, at);
      && Run(FreshTable(size, cacheSize), For(address, [data, KeyStep(id, other, at), data])).1 ==
           TagAll(address, [Accepted(pdu), Delivered(pdu, BLANK_KEY), Accepted(pdu), Delivered(pdu, other)])
      && (Open(prims, other, pdu) == clear <==> SameKeystream(prims, pdu, other, s.key))
  {
    var data, store := DataStep(prims, s, number, seed, clear, at), KeyStep(id, other, at);
    PowerUpRun(size, cacheSize, address, [data, store, data]);
    NewcomerQuiet(address, cacheSize, at);
    var c := Newcomer(address, cacheSize, at);
    ThreeSteps(c, data, store, data);
    FirstHit(prims, c, cacheSize, s, number, seed, clear, at);
    var d := Advance(c, data).0;
    HintTaken(d.(stamp := TickStamp.Save(d.stamp, at)), id, other, at);
    var e := Advance(d, store).0;
    hide Newcomer, FreshTable, Lookup, SameKeystream, Open, HandleData, Run, RunConsumer, Seal, CompleteKey, First, View, Ok;
    ImmediateDelivery(prims, e.(stamp := TickStamp.Save(e.stamp, at)), s, number, seed, clear, at);
  }

  // ---- A low byte used twice ---------------------------------------------------------------------------

  /** A record that has a key under an id delivers a PDU of any session that goes by it under that key. */
  lemma UsesStoredKey(prims: Primitives, c: Consumer, fragments: seq<KeyPdu>, id: byte, key: Key, s: Session, number: u16,
                      seed: byte, clear: seq<byte>, at: nat)
    requires Quiet(c) && GoBy(fragments, id) && Low(s.keyId) == id
    requires id != 0 && id !in View(c.cache) && |View(c.cache)| < |c.cache.slots|
    ensures var pdu := Seal(prims, s.key, s.keyId, number, seed, clear);
      && RunConsumer(c, Opening(fragments, id, key, at) + [DataStep(prims, s, number, seed, clear, at)]).1 ==
           Wants(fragments) + [Accepted(pdu), Delivered(pdu, key)]
      && (Open(prims, key, pdu) == clear <==> SameKeystream(prims, pdu, key, s.key))
  {
    var data := DataStep(prims, s, number, seed, clear, at);
    OpeningStores(c, fragments, id, key, at);
    var d := RunConsumer(c, Opening(fragments, id, key, at)).0;
    RunConsumerConcat(c, Opening(fragments, id, key, at), [data]);
    OneStep(d, data);
    ImmediateDelivery(prims, d.(stamp := TickStamp.Save(d.stamp, at)), s, number, seed, clear, at);
    hide Lookup, SameKeystream, Open, HandleData, RunConsumer, Seal, View, Ok, Opening;
  }

  /** The fragments of a session at the given indices, as they come out of its frames. */
  function FragmentPdus(prims: Primitives, s: Session, number: u16, seed: byte, indices: seq<FragmentIndex>): (pdus: seq<KeyPdu>)
    ensures |pdus| == |indices| && GoBy(pdus, Low(s.keyId))
  {
    if indices == [] then [] else
      SessionDataRoundTrip(s.keyId, indices[0]);
      [SealFragment(prims, s.key, s.keyId, number, indices[0], seed)] + FragmentPdus(prims, s, number, seed, indices[1..])
  }

  /** Once the key of one session is in, a PDU of another whose id has the same low byte is delivered at
      once under the first one's key; so it is right exactly when the two keystreams agree. */
  lemma SharedLowByteRun(prims: Primitives, size: nat, cacheSize: nat, address: Address, s: Session, later: Session,
                         indices: seq<FragmentIndex>, number: u16, seed: byte, clear: seq<byte>, at: nat)
    requires size > 0 && cacheSize > 0 && address != ZERO_ADDRESS && indices != []
    requires Low(later.keyId) == Low(s.keyId) != 0
    ensures var fragments := FragmentPdus(prims, s, number, seed, indices);
      var pdu := Seal(prims, later.key, later.keyId, number, seed, clear);
      var steps := Opening(fragments, Low(s.keyId), s.key, at) + [DataStep(prims, later, number, seed, clear, at)];
      && Run(FreshTable(size, cacheSize), For(address, steps)).1 ==
           TagAll(address, Wants(fragments) + [Accepted(pdu), Delivered(pdu, s.key)])
      && (Open(prims, s.key, pdu) == clear <==> SameKeystream(prims, pdu, s.key, later.key))
  {
    var fragments := FragmentPdus(prims, s, number, seed, indices);
    var steps := Opening(fragments, Low(s.keyId), s.key, at) + [DataStep(prims, later, number, seed, clear, at)];
    OpeningFirst(fragments, Low(s.keyId), s.key, at);
    PowerUpRun(size, cacheSize, address, steps);
    NewcomerQuiet(address, cacheSize, at);
    hide Newcomer, FreshTable, SameKeystream, Open, Run, RunConsumer, Seal, FragmentPdus, Opening, View, Ok;
    UsesStoredKey(prims, Newcomer(address, cacheSize, at), fragments, Low(s.keyId), s.key, later, number, seed, clear, at);
  }

  lemma OpeningFirst(fragments: seq<KeyPdu>, id: byte, key: Key, at: nat)
    ensures NoDrains(Frames(fragments, at)) && NoDrains(Opening(fragments, id, key, at))
    ensures fragments != [] ==>
      Opening(fragments, id, key, at) != [] && Opening(fragments, id, key, at)[0] == FrameStep(ReadFragment(fragments[0]), at)
  {
    if fragments != [] { OpeningFirst(fragments[1..], id, key, at); }
  }

  // ---- A stray of another sender ------------------------------------------------------------------------

  const ALL_INDICES: seq<FragmentIndex> := [0, 1, 2, 3]

  /** Sessions one after the other: the fragments of each, then its key. */
  function Fill(prims: Primitives, sessions: seq<Session>, number: u16, seed: byte, at: nat): seq<ConsumerStep> {
    if sessions == [] then []
    else
      Opening(FragmentPdus(prims, sessions[0], number, seed, ALL_INDICES), Low(sessions[0].keyId), sessions[0].key, at)
      + Fill(prims, sessions[1..], number, seed, at)
  }

  function AllFragments(prims: Primitives, sessions: seq<Session>, number: u16, seed: byte): seq<KeyPdu> {
    if sessions == [] then []
    else FragmentPdus(prims, sessions[0], number, seed, ALL_INDICES) + AllFragments(prims, sessions[1..], number, seed)
  }

  predicate DistinctLowBytes(sessions: seq<Session>) {
    && (forall i :: 0 <= i < |sessions| ==> Low(sessions[i].keyId) != 0)
    && (forall i, j :: 0 <= i < j < |sessions| ==> Low(sessions[i].keyId) != Low(sessions[j].keyId))
  }

  lemma {:induction false} WantsConcat(a: seq<KeyPdu>, b: seq<KeyPdu>)
    ensures Wants(a + b) == Wants(a) + Wants(b)
  {
    if a == [] {
      assert a + b == b;
    } else {
      assert (a + b)[1..] == a[1..] + b;
      WantsConcat(a[1..], b);
    }
  }

  lemma {:induction false} FillsUp(prims: Primitives, c: Consumer, sessions: seq<Session>, number: u16, seed: byte, at: nat)
    requires Quiet(c) && DistinctLowBytes(sessions) && |View(c.cache)| + |sessions| <= |c.cache.slots|
    requires forall i :: 0 <= i < |sessions| ==> Low(sessions[i].keyId) !in View(c.cache)
    ensures var (d, events) := RunConsumer(c, Fill(prims, sessions, number, seed, at));
      && events == Wants(AllFragments(prims, sessions, number, seed))
      && Quiet(d) && |d.cache.slots| == |c.cache.slots| && |View(d.cache)| == |View(c.cache)| + |sessions|
    decreases |sessions|
  {
    hide Low, View, Ok, Opening;
    if sessions != [] {
      var id := Low(sessions[0].keyId);
      var fragments := FragmentPdus(prims, sessions[0], number, seed, ALL_INDICES);
      var opening := Opening(fragments, id, sessions[0].key, at);
      OpeningStores(c, fragments, id, sessions[0].key, at);
      var d := RunConsumer(c, opening).0;
      assert |View(d.cache)| == |View(d.cache).Keys| && |View(c.cache)| == |View(c.cache).Keys|;
      FillsUp(prims, d, sessions[1..], number, seed, at);
      RunConsumerConcat(c, opening, Fill(prims, sessions[1..], number, seed, at));
      WantsConcat(fragments, AllFragments(prims, sessions[1..], number, seed));
      hide RunConsumer, Wants;
    }
  }

  /** A sender that has had as many keys stored as fit gets a stray of its own passed on. */
  lemma FullPassesStray(prims: Primitives, c: Consumer, sessions: seq<Session>, stray: KeyPdu, number: u16, seed: byte, at: nat)
    requires Quiet(c) && DistinctLowBytes(sessions) && View(c.cache) == map[] && |sessions| == |c.cache.slots|
    requires Low(KeyIdOf(stray.sessionData)) == 0
    ensures RunConsumer(c, Fill(prims, sessions, number, seed, at) + [FrameStep(ReadFragment(stray), at)]).1 ==
            Wants(AllFragments(prims, sessions, number, seed) + [stray])
  {
    var fill, last := Fill(prims, sessions, number, seed, at), FrameStep(ReadFragment(stray), at);
    FillsUp(prims, c, sessions, number, seed, at);
    var d := RunConsumer(c, fill).0;
    RunConsumerConcat(c, fill, [last]);
    OneStep(d, last);
    ViewSize(d.cache);
    StrayPassedOnIff(d.(stamp := TickStamp.Save(d.stamp, at)), stray, at);
    WantsConcat(AllFragments(prims, sessions, number, seed), [stray]);
    assert Wants([stray]) == [FragmentWanted(stray)];
    hide RunConsumer, Fill, AllFragments, View, Ok, HandleFragment, Wants, KeyIdOf, Low;
  }

  // ---- What the reconstructor makes of it -----------------------------------------------------------------

  /** The fragments passed on in a trace. */
  function Wanted(events: seq<Tagged>): seq<Rebuild.Element> {
    if events == [] then []
    else
      (if events[0].event.FragmentWanted? then [Rebuild.ElementOf(events[0].address, events[0].event.fragment)] else [])
      + Wanted(events[1..])
  }

  lemma {:induction false} WantedConcat(a: seq<Tagged>, b: seq<Tagged>)
    ensures Wanted(a + b) == Wanted(a) + Wanted(b)
  {
    if a == [] {
      assert a + b == b;
    } else {
      hide Rebuild.ElementOf;
      assert (a + b)[1..] == a[1..] + b;
      WantedConcat(a[1..], b);
      var head := if a[0].event.FragmentWanted? then [Rebuild.ElementOf(a[0].address, a[0].event.fragment)] else [];
      assert Wanted(a + b) == head + Wanted(a[1..] + b) && Wanted(a) == head + Wanted(a[1..]);
      Regroup(head, Wanted(a[1..]), Wanted(b));
    }
  }

  function Elements(address: Address, fragments: seq<KeyPdu>): (es: seq<Rebuild.Element>)
    ensures |es| == |fragments|
    ensures forall i :: 0 <= i < |es| ==> es[i] == Rebuild.ElementOf(address, fragments[i])
  {
    seq(|fragments|, i requires 0 <= i < |fragments| => Rebuild.ElementOf(address, fragments[i]))
  }

  lemma ElementsConcat(address: Address, a: seq<KeyPdu>, b: seq<KeyPdu>)
    ensures Elements(address, a + b) == Elements(address, a) + Elements(address, b)
  {}

  lemma {:induction false} WantedOfWants(address: Address, fragments: seq<KeyPdu>)
    ensures Wanted(TagAll(address, Wants(fragments))) == Elements(address, fragments)
  {
    if fragments != [] {
      var events := Wants(fragments);
      assert TagAll(address, events)[1..] == TagAll(address, events[1..]) && events[1..] == Wants(fragments[1..]);
      WantedOfWants(address, fragments[1..]);
      assert Elements(address, fragments) == [Rebuild.ElementOf(address, fragments[0])] + Elements(address, fragments[1..]);
    }
  }

  /** The key that comes out for each session. */
  function Outs(sessions: seq<Session>): seq<Option<Key>> {
    if sessions == [] then [] else [None, None, None, Some(sessions[0].key)] + Outs(sessions[1..])
  }

  /** What the reconstructor sees of a sealed fragment. */
  lemma SealedElement(prims: Primitives, address: Address, s: Session, number: u16, seed: byte, index: FragmentIndex)
    ensures var e := Rebuild.ElementOf(address, SealFragment(prims, s.key, s.keyId, number, index, seed));
      && e.keyId == s.keyId && e.index == index && e.address == address
      && Verifies(prims, e, FragmentOf(s.key, index))
  {
    SessionDataRoundTrip(s.keyId, index);
    UnmaskMask(FragmentOf(s.key, index), seed);
  }

  lemma SealedElements(prims: Primitives, address: Address, s: Session, number: u16, seed: byte, indices: seq<FragmentIndex>)
    ensures var es := Elements(address, FragmentPdus(prims, s, number, seed, indices));
      forall i :: 0 <= i < |indices| ==>
        && es[i].keyId == s.keyId && es[i].index == indices[i] && es[i].address == address
        && Verifies(prims, es[i], FragmentOf(s.key, indices[i]))
    decreases |indices|
  {
    hide Verifies, FragmentOf, SealFragment, Rebuild.ElementOf;
    if indices != [] {
      SealedElement(prims, address, s, number, seed, indices[0]);
      SealedElements(prims, address, s, number, seed, indices[1..]);
    }
  }

  lemma OpeningRebuilt(prims: Primitives, blanks: seq<Rebuild.Entry>, address: Address, s: Session, number: u16, seed: byte)
    requires AllBlank(blanks) && blanks != [] && address != ZERO_ADDRESS && Low(s.keyId) != 0
    ensures Rebuild.ConsumeAll(prims, blanks, Elements(address, FragmentPdus(prims, s, number, seed, ALL_INDICES))) ==
            (blanks, [None, None, None, Some(s.key)])
  {
    SealedElements(prims, address, s, number, seed, ALL_INDICES);
    hide FragmentPdus, Low, Rebuild.ConsumeAll, Verifies, FragmentOf, Join;
    var es := Elements(address, FragmentPdus(prims, s, number, seed, ALL_INDICES));
    JoinSplit(s.key);
    assert forall i :: 0 <= i < 4 ==> ALL_INDICES[i] == i && Split(s.key)[i] == FragmentOf(s.key, ALL_INDICES[i]);
    FourIntoBlank(prims, blanks, es, Split(s.key));
  }

  lemma {:induction false} FillRebuilt(prims: Primitives, blanks: seq<Rebuild.Entry>, address: Address, sessions: seq<Session>,
                                       number: u16, seed: byte)
    requires AllBlank(blanks) && blanks != [] && address != ZERO_ADDRESS && DistinctLowBytes(sessions)
    ensures Rebuild.ConsumeAll(prims, blanks, Elements(address, AllFragments(prims, sessions, number, seed))) ==
            (blanks, Outs(sessions))
    decreases |sessions|
  {
    hide Low, FragmentPdus;
    if sessions != [] {
      var fragments := FragmentPdus(prims, sessions[0], number, seed, ALL_INDICES);
      var rest := AllFragments(prims, sessions[1..], number, seed);
      hide Rebuild.ConsumeAll, AllBlank;
      OpeningRebuilt(prims, blanks, address, sessions[0], number, seed);
      FillRebuilt(prims, blanks, address, sessions[1..], number, seed);
      ConsumeAllConcat(prims, blanks, Elements(address, fragments), Elements(address, rest));
      ElementsConcat(address, fragments, rest);
      hide Elements, Rebuild.ElementOf, DistinctLowBytes;
    } else {
      assert Elements(address, []) == [];
    }
  }

  const LATER_INDICES: seq<FragmentIndex> := [1, 2, 3]

  /** The key of a session with its first fragment replaced by another session's. */
  function Mixed(other: Session, s: Session): Key {
    Join([FragmentOf(other.key, 0), FragmentOf(s.key, 1), FragmentOf(s.key, 2), FragmentOf(s.key, 3)])
  }

  lemma StrayRebuilt(prims: Primitives, blanks: seq<Rebuild.Entry>, from: Address, other: Session, address: Address, s: Session,
                     number: u16, seed: byte)
    requires AllBlank(blanks) && blanks != [] && from != ZERO_ADDRESS && address != ZERO_ADDRESS
    requires Low(other.keyId) == 0 && Low(s.keyId) != 0
    ensures var stray := Rebuild.ElementOf(from, SealFragment(prims, other.key, other.keyId, number, 0, seed));
      Rebuild.ConsumeAll(prims, blanks, [stray] + Elements(address, FragmentPdus(prims, s, number, seed, LATER_INDICES))) ==
        (blanks, [None, None, None, Some(Mixed(other, s))])
  {
    SealedElement(prims, from, other, number, seed, 0);
    SealedElements(prims, address, s, number, seed, LATER_INDICES);
    hide FragmentPdus, Low, Rebuild.ConsumeAll, Verifies, FragmentOf, Join, SealFragment, Rebuild.ElementOf;
    var stray := Rebuild.ElementOf(from, SealFragment(prims, other.key, other.keyId, number, 0, seed));
    var es := [stray] + Elements(address, FragmentPdus(prims, s, number, seed, LATER_INDICES));
    FourIntoBlank(prims, blanks, es, [FragmentOf(other.key, 0), FragmentOf(s.key, 1), FragmentOf(s.key, 2), FragmentOf(s.key, 3)]);
  }

  function Stray(prims: Primitives, other: Session, number: u16, seed: byte): KeyPdu {
    SealFragment(prims, other.key, other.keyId, number, 0, seed)
  }

  /** A sender that fills its cache before it opens a session with low byte zero. */
  function Before(prims: Primitives, sessions: seq<Session>, other: Session, number: u16, seed: byte, at: nat): seq<ConsumerStep> {
    Fill(prims, sessions, number, seed, at) + [FrameStep(ReadFragment(Stray(prims, other, number, seed)), at)]
  }

  /** A sender of whose session the first fragment is not heard, and a PDU of that session. */
  function After(prims: Primitives, s: Session, key: Key, number: u16, seed: byte, clear: seq<byte>, at: nat): seq<ConsumerStep> {
    Opening(FragmentPdus(prims, s, number, seed, LATER_INDICES), Low(s.keyId), key, at) + [DataStep(prims, s, number, seed, clear, at)]
  }

  /** From power-up, what one sender's low byte zero does to another's PDUs. `from` has as many sessions'
      keys stored as its cache holds, then opens one with low byte zero, a fragment of which is passed on;
      `address` is heard next. The reconstructor, fed what is passed on, hands out the keys of `from`'s
      sessions as they are stored, and for `address` a key with `from`'s fragment in it; under that key
      its PDU is delivered, rightly exactly when the keystreams agree. */
  lemma StrayRun(prims: Primitives, size: nat, cacheSize: nat, blanks: seq<Rebuild.Entry>, from: Address, sessions: seq<Session>,
                 other: Session, address: Address, s: Session, number: u16, seed: byte, clear: seq<byte>, at: nat)
    requires size >= 2 && |sessions| == cacheSize > 0 && AllBlank(blanks) && blanks != []
    requires from != ZERO_ADDRESS && address != ZERO_ADDRESS && from != address
    requires DistinctLowBytes(sessions) && Low(other.keyId) == 0 && Low(s.keyId) != 0
    ensures var pdu := Seal(prims, s.key, s.keyId, number, seed, clear);
      var mixed := Mixed(other, s);
      var steps := For(from, Before(prims, sessions, other, number, seed, at)) + For(address, After(prims, s, mixed, number, seed, clear, at));
      var events := Run(FreshTable(size, cacheSize), steps).1;
      && EventsOf(events, address) ==
           Wants(FragmentPdus(prims, s, number, seed, LATER_INDICES)) + [Accepted(pdu), Delivered(pdu, mixed)]
      && Rebuild.ConsumeAll(prims, blanks, Wanted(events)) == (blanks, Outs(sessions) + [None, None, None, Some(mixed)])
      && (Open(prims, mixed, pdu) == clear <==> SameKeystream(prims, pdu, mixed, s.key))
  {
    var mixed, pdu := Mixed(other, s), Seal(prims, s.key, s.keyId, number, seed, clear);
    var fragments := FragmentPdus(prims, s, number, seed, LATER_INDICES);
    var others := AllFragments(prims, sessions, number, seed) + [Stray(prims, other, number, seed)];
    RightIff(prims, s, number, seed, clear, mixed);
    StrayTrace(prims, size, cacheSize, from, sessions, other, address, s, mixed, number, seed, clear, at);
    StrayOuts(prims, blanks, from, sessions, other, address, s, number, seed);
    hide *;
    EventsOfTwo(from, Wants(others), address, Wants(fragments) + [Accepted(pdu), Delivered(pdu, mixed)]);
    WantedOfTwo(from, others, address, fragments, [Accepted(pdu), Delivered(pdu, mixed)]);
  }

  lemma StrayTrace(prims: Primitives, size: nat, cacheSize: nat, from: Address, sessions: seq<Session>, other: Session,
                   address: Address, s: Session, key: Key, number: u16, seed: byte, clear: seq<byte>, at: nat)
    requires size >= 2 && |sessions| == cacheSize > 0
    requires from != ZERO_ADDRESS && address != ZERO_ADDRESS && from != address
    requires DistinctLowBytes(sessions) && Low(other.keyId) == 0 && Low(s.keyId) != 0
    ensures var pdu := Seal(prims, s.key, s.keyId, number, seed, clear);
      var steps := For(from, Before(prims, sessions, other, number, seed, at)) + For(address, After(prims, s, key, number, seed, clear, at));
      Run(FreshTable(size, cacheSize), steps).1 ==
        TagAll(from, Wants(AllFragments(prims, sessions, number, seed) + [Stray(prims, other, number, seed)]))
        + TagAll(address, Wants(FragmentPdus(prims, s, number, seed, LATER_INDICES)) + [Accepted(pdu), Delivered(pdu, key)])
  {
    var fragments := FragmentPdus(prims, s, number, seed, LATER_INDICES);
    SessionDataRoundTrip(other.keyId, 0);
    FillFirst(prims, sessions, number, seed, at);
    OpeningFirst(fragments, Low(s.keyId), key, at);
    NewcomerQuiet(from, cacheSize, at);
    NewcomerQuiet(address, cacheSize, at);
    hide Fill, Opening, Quiet, View, Newcomer, AllFragments, FragmentPdus, Seal, RunConsumer, Run, Low, KeyIdOf, Wants, SameKeystream, Open;
    FullPassesStray(prims, Newcomer(from, cacheSize, at), sessions, Stray(prims, other, number, seed), number, seed, at);
    UsesStoredKey(prims, Newcomer(address, cacheSize, at), fragments, Low(s.keyId), key, s, number, seed, clear, at);
    TwoSenders(size, cacheSize, from, Before(prims, sessions, other, number, seed, at),
               address, After(prims, s, key, number, seed, clear, at));
  }

  lemma StrayOuts(prims: Primitives, blanks: seq<Rebuild.Entry>, from: Address, sessions: seq<Session>, other: Session,
                  address: Address, s: Session, number: u16, seed: byte)
    requires AllBlank(blanks) && blanks != [] && from != ZERO_ADDRESS && address != ZERO_ADDRESS
    requires DistinctLowBytes(sessions) && Low(other.keyId) == 0 && Low(s.keyId) != 0
    ensures var others := AllFragments(prims, sessions, number, seed) + [Stray(prims, other, number, seed)];
      Rebuild.ConsumeAll(prims, blanks, Elements(from, others) + Elements(address, FragmentPdus(prims, s, number, seed, LATER_INDICES))) ==
        (blanks, Outs(sessions) + [None, None, None, Some(Mixed(other, s))])
  {
    var all, stray := AllFragments(prims, sessions, number, seed), Stray(prims, other, number, seed);
    var own := Elements(address, FragmentPdus(prims, s, number, seed, LATER_INDICES));
    FillRebuilt(prims, blanks, from, sessions, number, seed);
    StrayRebuilt(prims, blanks, from, other, address, s, number, seed);
    hide AllFragments, FragmentPdus, Rebuild.ConsumeAll, Rebuild.ElementOf, Mixed, Outs, Low, AllBlank;
    ConsumeAllConcat(prims, blanks, Elements(from, all), [Rebuild.ElementOf(from, stray)] + own);
    ElementsConcat(from, all, [stray]);
    Regroup(Elements(from, all), Elements(from, [stray]), own);
    assert Elements(from, [stray]) == [Rebuild.ElementOf(from, stray)];
    hide Elements;
  }

  lemma FillFirst(prims: Primitives, sessions: seq<Session>, number: u16, seed: byte, at: nat)
    ensures var fill := Fill(prims, sessions, number, seed, at);
      NoDrains(fill) && (sessions != [] ==> fill != [] && fill[0].FrameStep? && fill[0].at == at)
    decreases |sessions|
  {
    if sessions != [] {
      OpeningFirst(FragmentPdus(prims, sessions[0], number, seed, ALL_INDICES), Low(sessions[0].keyId), sessions[0].key, at);
      FillFirst(prims, sessions[1..], number, seed, at);
    }
  }

  /** Two senders, heard one after the other from power-up, get an entry each. */
  lemma TwoSenders(size: nat, cacheSize: nat, one: Address, steps: seq<ConsumerStep>, two: Address, more: seq<ConsumerStep>)
    requires size >= 2 && one != ZERO_ADDRESS && two != ZERO_ADDRESS && one != two
    requires NoDrains(steps) && steps != [] && steps[0].FrameStep? && NoDrains(more) && more != [] && more[0].FrameStep?
    ensures Run(FreshTable(size, cacheSize), For(one, steps) + For(two, more)).1 ==
            TagAll(one, RunConsumer(Newcomer(one, cacheSize, steps[0].at), steps).1)
            + TagAll(two, RunConsumer(Newcomer(two, cacheSize, more[0].at), more).1)
  {
    var t := FreshTable(size, cacheSize);
    PowerUpRun(size, cacheSize, one, steps);
    var c := RunConsumer(Newcomer(one, cacheSize, steps[0].at), steps).0;
    var u := Table(t.arr[0 := c], 1);
    NewcomerQuiet(one, cacheSize, steps[0].at);
    assert c.address == one;
    assert Find(u.arr, two) == |u.arr|;
    NewcomerRun(u, 1, cacheSize, two, more);
    RunConcat(t, For(one, steps), For(two, more));
    hide Run, RunConsumer, For, Newcomer, FreshTable;
  }

  lemma EventsOfTwo(one: Address, events: seq<Event>, two: Address, more: seq<Event>)
    requires one != two
    ensures EventsOf(TagAll(one, events) + TagAll(two, more), two) == more
  {
    EventsOfConcat(TagAll(one, events), TagAll(two, more), two);
    EventsOfTag(one, events, two);
    EventsOfTag(two, more, two);
  }

  lemma WantedOfTwo(one: Address, fragments: seq<KeyPdu>, two: Address, more: seq<KeyPdu>, others: seq<Event>)
    requires |others| == 2 && !others[0].FragmentWanted? && !others[1].FragmentWanted?
    ensures Wanted(TagAll(one, Wants(fragments)) + TagAll(two, Wants(more) + others)) ==
            Elements(one, fragments) + Elements(two, more)
  {
    WantedOfWants(one, fragments);
    WantedOfWants(two, more);
    var tail := TagAll(two, others);
    assert Wanted(tail) == Wanted(tail[1..]) == Wanted(tail[1..][1..]) == [];
    WantedConcat(TagAll(two, Wants(more)), tail);
    assert TagAll(two, Wants(more) + others) == TagAll(two, Wants(more)) + tail;
    WantedConcat(TagAll(one, Wants(fragments)), TagAll(two, Wants(more) + others));
    assert Elements(two, more) + [] == Elements(two, more);
  }
}
