/** Conservation, order and termination for the PDUs of one sender. */
module ConsumerTheorems {
  import opened Bytes
  import opened Crypto
  import opened Options
  import opened Wire
  import opened KeyCacheSpec
  import opened ConsumerSpec

  datatype Kind = Taken | Sent | Overflowed | Stale

  function KindOf(e: Event): Option<Kind> {
    match e
    case Accepted(_) => Some(Taken)
    case Delivered(_, _) => Some(Sent)
    case DroppedFull(_) => Some(Overflowed)
    case DroppedStale(_) => Some(Stale)
    case FragmentWanted(_) => None
  }

  /** The PDUs of the events of one kind, in order. */
  function PdusOf(events: seq<Event>, kind: Kind): seq<DataPdu> {
    if events == [] then []
    else (if KindOf(events[0]) == Some(kind) then [events[0].pdu] else []) + PdusOf(events[1..], kind)
  }

  lemma {:induction false} PdusOfConcat(a: seq<Event>, b: seq<Event>, kind: Kind)
    ensures PdusOf(a + b, kind) == PdusOf(a, kind) + PdusOf(b, kind)
  {
    if a == [] {
      assert a + b == b;
    } else {
      assert (a + b)[1..] == a[1..] + b;
      PdusOfConcat(a[1..], b, kind);
      var head := if KindOf(a[0]) == Some(kind) then [a[0].pdu] else [];
      assert PdusOf(a + b, kind) == head + (PdusOf(a[1..], kind) + PdusOf(b, kind));
    }
  }

  lemma OneStep(c: Consumer, step: ConsumerStep)
    requires WellFormed(c)
    ensures RunConsumer(c, [step]) == Advance(c, step)
  {
    hide Advance;
    var (d, events) := Advance(c, step);
    assert RunConsumer(d, []) == (d, []) && events + [] == events && [step][1..] == [];
  }

  lemma {:induction false} RunConsumerConcat(c: Consumer, steps: seq<ConsumerStep>, more: seq<ConsumerStep>)
    requires WellFormed(c)
    ensures var (d, events) := RunConsumer(c, steps);
      var (e, others) := RunConsumer(d, more);
      RunConsumer(c, steps + more) == (e, events + others)
    decreases |steps|
  {
    hide Advance;
    if steps == [] {
      assert steps + more == more && [] + RunConsumer(c, more).1 == RunConsumer(c, more).1;
    } else {
      assert (steps + more)[1..] == steps[1..] + more;
      var (d, events) := Advance(c, steps[0]);
      RunConsumerConcat(d, steps[1..], more);
      var (e, mid) := RunConsumer(d, steps[1..]);
      assert events + (mid + RunConsumer(e, more).1) == (events + mid) + RunConsumer(e, more).1;
    }
  }

  // ---- Conservation ------------------------------------------------------------------------

  /** No PDU is created, duplicated or lost without a trace between the queues `before` and `after`. */
  ghost predicate Conserved(before: seq<DataPdu>, events: seq<Event>, after: seq<DataPdu>) {
    multiset(before) + multiset(PdusOf(events, Taken)) ==
      multiset(after) + multiset(PdusOf(events, Sent))
      + multiset(PdusOf(events, Overflowed)) + multiset(PdusOf(events, Stale))
  }

  /** What `events` leave waiting of one PDU: how often it was taken minus how often it left. */
  function Net(events: seq<Event>, x: DataPdu): int {
    if events == [] then 0 else NetOf(events[0], x) + Net(events[1..], x)
  }

  function NetOf(e: Event, x: DataPdu): int {
    if e.FragmentWanted? || e.pdu != x then 0 else if e.Accepted? then 1 else -1
  }

  lemma {:induction false} NetConcat(a: seq<Event>, b: seq<Event>, x: DataPdu)
    ensures Net(a + b, x) == Net(a, x) + Net(b, x)
  {
    if a == [] {
      assert a + b == b;
    } else {
      assert (a + b)[1..] == a[1..] + b;
      NetConcat(a[1..], b, x);
    }
  }

  lemma {:induction false} NetCounts(events: seq<Event>, x: DataPdu)
    ensures Net(events, x) + multiset(PdusOf(events, Sent))[x] + multiset(PdusOf(events, Overflowed))[x]
            + multiset(PdusOf(events, Stale))[x] == multiset(PdusOf(events, Taken))[x]
  {
    hide PdusOf;
    if events == [] {
      NoPdus(Taken);
      NoPdus(Sent);
      NoPdus(Overflowed);
      NoPdus(Stale);
    } else {
      NetCounts(events[1..], x);
      CountFirst(events, Taken, x);
      CountFirst(events, Sent, x);
      CountFirst(events, Overflowed, x);
      CountFirst(events, Stale, x);
    }
  }

  lemma NoPdus(kind: Kind)
    ensures PdusOf([], kind) == []
  {}

  lemma CountFirst(events: seq<Event>, kind: Kind, x: DataPdu)
    requires events != []
    ensures multiset(PdusOf(events, kind))[x] ==
      (if KindOf(events[0]) == Some(kind) && events[0].pdu == x then 1 else 0) + multiset(PdusOf(events[1..], kind))[x]
  {}

  function Waiting(c: Consumer, x: DataPdu): nat {
    multiset(c.deferred)[x]
  }

  lemma NetSingle(e: Event, x: DataPdu)
    ensures Net([e], x) == NetOf(e, x)
  {}

  lemma DeferNet(c: Consumer, pdu: DataPdu, x: DataPdu)
    ensures var (d, events) := Defer(c, pdu);
      Waiting(c, x) + (if x == pdu then 1 else 0) + Net(events, x) == Waiting(d, x)
  {}

  lemma DataNet(c: Consumer, pdu: DataPdu, now: nat, x: DataPdu)
    requires WellFormed(c)
    ensures var (d, events) := HandleData(c, pdu, now);
      Waiting(c, x) + Net(events, x) == Waiting(d, x)
  {
    var keyId := PduKeyId(pdu);
    var key := Lookup(c.cache, Low(keyId));
    var d := c.(cache := Touch(c.cache, Low(keyId), now), lastKeyId := keyId);
    NetSingle(Accepted(pdu), x);
    if key.None? || c.deferred != [] {
      DeferNet(d, pdu, x);
      NetConcat([Accepted(pdu)], Defer(d, pdu).1, x);
    } else {
      var delivered := Delivered(pdu, key.value);
      NetSingle(delivered, x);
      NetConcat([Accepted(pdu)], [delivered], x);
    }
  }

  lemma DrainOneNet(c: Consumer, pdu: DataPdu, key: Option<Key>, lastId: u16, now: nat, x: DataPdu)
    requires WellFormed(c)
    ensures var (d, key', events) := DrainOne(c, pdu, key, lastId, now);
      Waiting(c, x) + (if x == pdu then 1 else 0) + Net(events, x) == Waiting(d, x)
  {
    hide Dispose, Touch, Lookup;
    var keyId := PduKeyId(pdu);
    var fetched := c.(cache := Touch(c.cache, Low(keyId), now));
    if keyId == lastId { DisposeNet(c, pdu, key, x); }
    else { DisposeNet(fetched, pdu, Lookup(c.cache, Low(keyId)), x); }
  }

  lemma DisposeNet(c: Consumer, pdu: DataPdu, key: Option<Key>, x: DataPdu)
    requires WellFormed(c)
    ensures var (d, events) := Dispose(c, pdu, key);
      Waiting(c, x) + (if x == pdu then 1 else 0) + Net(events, x) == Waiting(d, x)
  {
    hide Defer;
    DeferNet(c, pdu, x);
  }

  lemma CountHead(batch: seq<DataPdu>, x: DataPdu)
    requires batch != []
    ensures multiset(batch)[x] == (if x == batch[0] then 1 else 0) + multiset(batch[1..])[x]
  {
    assert batch == [batch[0]] + batch[1..];
  }

  lemma {:induction false} DrainLoopNet(c: Consumer, batch: seq<DataPdu>, key: Option<Key>, lastId: u16, now: nat, x: DataPdu)
    requires WellFormed(c)
    ensures var (d, events) := DrainLoop(c, batch, key, lastId, now);
      Waiting(c, x) + multiset(batch)[x] + Net(events, x) == Waiting(d, x)
    decreases |batch|
  {
    if batch != [] {
      CountHead(batch, x);
      var (d, key', events) := DrainOne(c, batch[0], key, lastId, now);
      DrainOneNet(c, batch[0], key, lastId, now, x);
      var keyId := PduKeyId(batch[0]);
      DrainLoopNet(d, batch[1..], key', keyId, now, x);
      NetConcat(events, DrainLoop(d, batch[1..], key', keyId, now).1, x);
    }
  }

  lemma DrainNet(c: Consumer, now: nat, x: DataPdu)
    requires WellFormed(c)
    ensures Waiting(c, x) + Net(Drain(c, now).1, x) == Waiting(Drain(c, now).0, x)
  {
    var batch := BatchOf(c);
    if c.pending && batch != [] {
      var firstId := PduKeyId(batch[0]);
      var d := c.(deferred := c.deferred[|batch|..], cache := Touch(c.cache, Low(firstId), now));
      DrainLoopNet(d, batch, Lookup(c.cache, Low(firstId)), firstId, now, x);
      assert c.deferred == batch + c.deferred[|batch|..];
    }
  }

  lemma FrameNet(c: Consumer, reading: Reading, now: nat, x: DataPdu)
    requires WellFormed(c)
    ensures var (d, events) := HandleReading(c, reading, now);
      Waiting(c, x) + Net(events, x) == Waiting(d, x)
  {
    if reading.ReadData? {
      DataNet(c, reading.pdu, now, x);
    }
  }

  lemma AdvanceNet(c: Consumer, step: ConsumerStep, x: DataPdu)
    requires WellFormed(c)
    ensures Waiting(c, x) + Net(Advance(c, step).1, x) == Waiting(Advance(c, step).0, x)
  {
    match step
    case FrameStep(reading, at) => FrameNet(c.(stamp := TickStamp.Save(c.stamp, at)), reading, at, x);
    case KeyStep(_, _, _) =>
    case DrainStep(at) => DrainNet(c, at, x);
  }

  lemma {:induction false} RunNet(c: Consumer, steps: seq<ConsumerStep>, x: DataPdu)
    requires WellFormed(c)
    ensures Waiting(c, x) + Net(RunConsumer(c, steps).1, x) == Waiting(RunConsumer(c, steps).0, x)
    decreases |steps|
  {
    if steps != [] {
      var (d, events) := Advance(c, steps[0]);
      AdvanceNet(c, steps[0], x);
      RunNet(d, steps[1..], x);
      NetConcat(events, RunConsumer(d, steps[1..]).1, x);
    }
  }

  lemma ConservedFromNet(before: seq<DataPdu>, events: seq<Event>, after: seq<DataPdu>)
    requires forall x :: multiset(before)[x] + Net(events, x) == multiset(after)[x]
    ensures Conserved(before, events, after)
  {
    var left := multiset(before) + multiset(PdusOf(events, Taken));
    var right := multiset(after) + multiset(PdusOf(events, Sent))
                 + multiset(PdusOf(events, Overflowed)) + multiset(PdusOf(events, Stale));
    forall x: DataPdu
      ensures left[x] == right[x]
    {
      NetCounts(events, x);
      assert multiset(before)[x] + Net(events, x) == multiset(after)[x];
    }
  }

  /** Over any run of one sender, what was waiting plus what was accepted is what was delivered,
      lost to a full queue, dropped as stale, or is still waiting. */
  lemma RunConserves(c: Consumer, steps: seq<ConsumerStep>)
    requires WellFormed(c)
    ensures var (d, events) := RunConsumer(c, steps);
      Conserved(c.deferred, events, d.deferred)
  {
    var (d, events) := RunConsumer(c, steps);
    forall x: DataPdu
      ensures multiset(c.deferred)[x] + Net(events, x) == multiset(d.deferred)[x]
    {
      RunNet(c, steps, x);
    }
    ConservedFromNet(c.deferred, events, d.deferred);
  }

  // ---- The cache's invariant ---------------------------------------------------------------------

  lemma CompleteKeyKeepsOk(c: Consumer, id: byte, key: Key, now: nat)
    requires WellFormed(c) && Ok(c.cache)
    ensures Ok(CompleteKey(c, id, key, now).cache)
  {
    hide AddKey, EvictLru, IsKeyIn, Ok;
    AddOk(c.cache, key, id, now);
    EvictRefines(AddKey(c.cache, key, id, now).0, now);
    AddOk(EvictLru(AddKey(c.cache, key, id, now).0).0, key, id, now);
  }

  lemma {:induction false} DrainLoopKeepsOk(c: Consumer, batch: seq<DataPdu>, key: Option<Key>, lastId: u16, now: nat)
    requires WellFormed(c) && Ok(c.cache)
    ensures Ok(DrainLoop(c, batch, key, lastId, now).0.cache)
    decreases |batch|
  {
    if batch != [] {
      TouchOk(c.cache, Low(PduKeyId(batch[0])), now);
      hide Ok, Touch, Lookup;
      var (d, key', events) := DrainOne(c, batch[0], key, lastId, now);
      DrainLoopKeepsOk(d, batch[1..], key', PduKeyId(batch[0]), now);
    }
  }

  lemma DrainKeepsOk(c: Consumer, now: nat)
    requires WellFormed(c) && Ok(c.cache)
    ensures Ok(Drain(c, now).0.cache)
  {
    var batch := BatchOf(c);
    if c.pending && batch != [] {
      var firstId := PduKeyId(batch[0]);
      TouchOk(c.cache, Low(firstId), now);
      hide Ok, Touch, Lookup, DrainLoop;
      var d := c.(deferred := c.deferred[|batch|..], cache := Touch(c.cache, Low(firstId), now));
      DrainLoopKeepsOk(d, batch, Lookup(c.cache, Low(firstId)), firstId, now);
    }
  }

  lemma FrameKeepsOk(c: Consumer, reading: Reading, now: nat)
    requires WellFormed(c) && Ok(c.cache)
    ensures Ok(HandleReading(c, reading, now).0.cache)
  {
    hide Ok, Touch, Lookup;
    match reading
    case ReadData(pdu) => TouchOk(c.cache, Low(PduKeyId(pdu)), now);
    case ReadFragment(fragment) => TouchOk(c.cache, Low(KeyIdOf(fragment.sessionData)), now);
    case ReadOther =>
  }

  /** Every step of a record keeps the cache's invariant, whatever the ids. */
  lemma AdvanceKeepsOk(c: Consumer, step: ConsumerStep)
    requires WellFormed(c) && Ok(c.cache)
    ensures Ok(Advance(c, step).0.cache)
  {
    match step
    case FrameStep(reading, at) => FrameKeepsOk(c.(stamp := TickStamp.Save(c.stamp, at)), reading, at);
    case KeyStep(id, key, at) => CompleteKeyKeepsOk(c.(stamp := TickStamp.Save(c.stamp, at)), id, key, at);
    case DrainStep(at) => DrainKeepsOk(c, at);
  }

  // ---- What a drain does to each PDU ---------------------------------------------------------------

  predicate Keyed(cache: Cache, pdu: DataPdu)
    requires InBounds(cache)
  {
    Lookup(cache, Low(PduKeyId(pdu))).Some?
  }

  datatype Fate = Served(key: Key) | PutBack | Lost

  function FateWith(key: Option<Key>, pdu: DataPdu, lastKeyId: u16): Fate {
    if key.Some? then Served(key.value) else if PduKeyId(pdu) == lastKeyId then PutBack else Lost
  }

  /** What becomes of `pdu` in a drain that comes to it after PDUs with the low bytes `before`. */
  function FateAfter(c: Consumer, before: set<byte>, pdu: DataPdu): Fate
    requires InBounds(c.cache)
  {
    FateWith(AnswerAfter(c.cache, before, Low(PduKeyId(pdu))), pdu, c.lastKeyId)
  }

  function IdsOf(queue: seq<DataPdu>): set<byte> {
    set p | p in queue :: Low(PduKeyId(p))
  }

  /** The fates of the PDUs of a queue, one drained after the other, told from the record as it stands. */
  function FatesAfter(c: Consumer, before: set<byte>, queue: seq<DataPdu>): (fates: seq<Fate>)
    requires InBounds(c.cache)
    ensures |fates| == |queue|
    ensures forall i :: 0 <= i < |queue| ==> fates[i] == FateAfter(c, before + IdsOf(queue[..i]), queue[i])
  {
    seq(|queue|, i requires 0 <= i < |queue| => FateAfter(c, before + IdsOf(queue[..i]), queue[i]))
  }

  function Fates(c: Consumer, queue: seq<DataPdu>): (fates: seq<Fate>)
    requires InBounds(c.cache)
    ensures |fates| == |queue|
  {
    FatesAfter(c, {}, queue)
  }

  function EventFor(pdu: DataPdu, fate: Fate): seq<Event> {
    match fate
    case Served(key) => [Delivered(pdu, key)]
    case PutBack => []
    case Lost => [DroppedStale(pdu)]
  }

  function EventsFor(batch: seq<DataPdu>, fates: seq<Fate>): seq<Event>
    requires |fates| == |batch|
  {
    if batch == [] then [] else EventFor(batch[0], fates[0]) + EventsFor(batch[1..], fates[1..])
  }

  /** The PDUs that go back to the end of the queue. */
  function Back(batch: seq<DataPdu>, fates: seq<Fate>): seq<DataPdu>
    requires |fates| == |batch|
  {
    if batch == [] then [] else (if fates[0].PutBack? then [batch[0]] else []) + Back(batch[1..], fates[1..])
  }

  lemma IdsOfCons(queue: seq<DataPdu>, i: nat)
    requires i < |queue|
    ensures IdsOf(queue[..i + 1]) == {Low(PduKeyId(queue[0]))} + IdsOf(queue[1..][..i])
  {
    hide Low, PduKeyId;
    assert queue[..i + 1] == [queue[0]] + queue[1..][..i];
  }

  lemma FatesCons(c: Consumer, before: set<byte>, queue: seq<DataPdu>)
    requires InBounds(c.cache) && queue != []
    ensures var fates := FatesAfter(c, before, queue);
      && fates[0] == FateAfter(c, before, queue[0])
      && fates[1..] == FatesAfter(c, before + {Low(PduKeyId(queue[0]))}, queue[1..])
  {
    hide FateAfter, Low, PduKeyId;
    var id := Low(PduKeyId(queue[0]));
    assert IdsOf(queue[..0]) == {} && before + {} == before;
    forall i | 0 <= i < |queue| - 1
      ensures before + IdsOf(queue[..i + 1]) == before + {id} + IdsOf(queue[1..][..i])
    {
      IdsOfCons(queue, i);
      hide IdsOf;
    }
  }

  lemma DisposeIsFate(c: Consumer, pdu: DataPdu, key: Option<Key>)
    requires WellFormed(c) && |c.deferred| < DEFERRED_QUEUE_SIZE
    ensures var fate := FateWith(key, pdu, c.lastKeyId);
      Dispose(c, pdu, key) == (c.(deferred := c.deferred + (if fate.PutBack? then [pdu] else [])), EventFor(pdu, fate))
  {
    hide Low, KeyIdOf;
    assert c.deferred + [] == c.deferred;
  }

  /** `d` is how `c` stands in the middle of a drain, when PDUs with the low bytes `before` have been
      drained, the last one of session `lastId`; `key` is what the loop carries along. */
  ghost predicate Underway(c: Consumer, before: set<byte>, d: Consumer, key: Option<Key>, lastId: KeyId) {
    && WellFormed(c) && WellFormed(d) && Ok(d.cache) && d.lastKeyId == c.lastKeyId
    && Follows(c.cache, before, d.cache)
    && Low(lastId) in before && key == Lookup(d.cache, Low(lastId))
  }

  lemma LookupAgain(c: Consumer, before: set<byte>, d: Cache, id: byte, now: nat)
    requires InBounds(c.cache) && Ok(d) && Follows(c.cache, before, d)
    ensures var e := Touch(d, id, now);
      Ok(e) && Follows(c.cache, before + {id}, e) && Lookup(e, id) == Lookup(d, id) == AnswerAfter(c.cache, before, id)
  {
    var e := Touch(d, id, now);
    TouchFollows(d, id, now);
    FollowsChain(c.cache, before, d, {id}, e);
    FollowsNow(c.cache, before, d, id);
    FollowsNow(d, {id}, e, id);
    assert !(id == 0 && Displaces(d, {id}));
  }

  lemma DrainOneIsFate(c: Consumer, before: set<byte>, d: Consumer, pdu: DataPdu, key: Option<Key>, lastId: KeyId, now: nat)
    requires Underway(c, before, d, key, lastId) && |d.deferred| < DEFERRED_QUEUE_SIZE
    ensures var (e, key', events) := DrainOne(d, pdu, key, lastId, now);
      var fate := FateAfter(c, before, pdu);
      && events == EventFor(pdu, fate)
      && e.deferred == d.deferred + (if fate.PutBack? then [pdu] else [])
      && Underway(c, before + {Low(PduKeyId(pdu))}, e, key', PduKeyId(pdu))
  {
    var id := Low(PduKeyId(pdu));
    LookupAgain(c, before, d.cache, id, now);
    DisposeIsFate(d, pdu, Lookup(d.cache, id));
    DisposeIsFate(d.(cache := Touch(d.cache, id, now)), pdu, Lookup(d.cache, id));
    hide Touch, Lookup, AnswerAfter, Follows, Low, KeyIdOf, Dispose, Ok, EventFor, FateWith;
    if PduKeyId(pdu) == lastId { assert before + {id} == before; }
  }

  /** Reusing the last key while the session id repeats, stamping and moving the hint on each lookup:
      each PDU meets the fate that could be told when the drain began. */
  lemma {:induction false} DrainLoopIsPlain(c: Consumer, before: set<byte>, d: Consumer, batch: seq<DataPdu>, key: Option<Key>,
                                            lastId: KeyId, now: nat)
    requires Underway(c, before, d, key, lastId) && |d.deferred| + |batch| <= DEFERRED_QUEUE_SIZE
    ensures var (e, events) := DrainLoop(d, batch, key, lastId, now);
      var fates := FatesAfter(c, before, batch);
      && events == EventsFor(batch, fates) && e.deferred == d.deferred + Back(batch, fates)
      && Ok(e.cache) && Follows(c.cache, before + IdsOf(batch), e.cache)
    decreases |batch|
  {
    if batch == [] {
      assert IdsOf(batch) == {} && before + {} == before && d.deferred + [] == d.deferred;
    } else {
      var id, fates := Low(PduKeyId(batch[0])), FatesAfter(c, before, batch);
      DrainOneIsFate(c, before, d, batch[0], key, lastId, now);
      FatesCons(c, before, batch);
      IdsOfFirst(batch, before);
      assert WellFormed(c) && WellFormed(d);
      assert EventsFor(batch, fates) == EventFor(batch[0], fates[0]) + EventsFor(batch[1..], fates[1..]);
      var first := if fates[0].PutBack? then [batch[0]] else [];
      assert Back(batch, fates) == first + Back(batch[1..], fates[1..]);
      hide DrainOne, Follows, Low, PduKeyId, FatesAfter, FateAfter, IdsOf, EventFor, Ok, Underway, WellFormed, EventsFor, Back;
      var (e, key', events) := DrainOne(d, batch[0], key, lastId, now);
      DrainLoopIsPlain(c, before + {id}, e, batch[1..], key', PduKeyId(batch[0]), now);
      Regroup(d.deferred, first, Back(batch[1..], fates[1..]));
    }
  }

  lemma Regroup<T>(a: seq<T>, b: seq<T>, c: seq<T>)
    ensures (a + b) + c == a + (b + c)
  {}

  lemma IdsOfFirst(queue: seq<DataPdu>, before: set<byte>)
    requires queue != []
    ensures before + {Low(PduKeyId(queue[0]))} + IdsOf(queue[1..]) == before + IdsOf(queue)
  {
    hide Low, PduKeyId;
    assert queue == [queue[0]] + queue[1..];
  }

  /** A drain event disposes of the first 20 waiting PDUs as their fates are in the record it finds,
      keeps the rest in order, and puts behind them those of the batch that are put back. */
  lemma DrainIsPlain(c: Consumer, now: nat)
    requires WellFormed(c) && Ok(c.cache) && c.pending
    ensures var (d, events) := Drain(c, now);
      var batch := BatchOf(c);
      && events == EventsFor(batch, Fates(c, batch))
      && d.deferred == c.deferred[|batch|..] + Back(batch, Fates(c, batch))
      && d.pending == (d.deferred != []) && d.lastKeyId == c.lastKeyId
      && Ok(d.cache) && Follows(c.cache, IdsOf(batch), d.cache)
  {
    var batch := BatchOf(c);
    if batch == [] {
      FollowsNothing(c.cache);
      assert IdsOf(batch) == {} && c.deferred[0..] + [] == c.deferred;
    } else {
      var firstId := PduKeyId(batch[0]);
      var id := Low(firstId);
      FollowsNothing(c.cache);
      LookupAgain(c, {}, c.cache, id, now);
      assert {} + {id} == {id};
      var d := c.(deferred := c.deferred[|batch|..], cache := Touch(c.cache, id, now));
      FirstTwice(c, batch);
      assert id in IdsOf(batch) by { assert batch[0] in batch; }
      hide Touch, Lookup, Low, PduKeyId, DrainLoop, FatesAfter, IdsOf, Ok, Follows, AnswerAfter;
      DrainLoopIsPlain(c, {id}, d, batch, Lookup(c.cache, id), firstId, now);
      assert {id} + IdsOf(batch) == IdsOf(batch);
    }
  }

  /** Having looked up the first PDU's key already makes no difference. */
  lemma FirstTwice(c: Consumer, batch: seq<DataPdu>)
    requires InBounds(c.cache) && batch != []
    ensures FatesAfter(c, {Low(PduKeyId(batch[0]))}, batch) == Fates(c, batch)
  {
    var id := Low(PduKeyId(batch[0]));
    assert AnswerAfter(c.cache, {id}, id) == AnswerAfter(c.cache, {}, id);
    hide FatesAfter, AnswerAfter, Low, PduKeyId;
    FatesCons(c, {}, batch);
    FatesCons(c, {id}, batch);
    assert {id} + {id} == {} + {id};
    SameHeadAndTail(FatesAfter(c, {id}, batch), FatesAfter(c, {}, batch));
  }

  lemma SameHeadAndTail<T>(a: seq<T>, b: seq<T>)
    requires a != [] && b != [] && a[0] == b[0] && a[1..] == b[1..]
    ensures a == b
  {
    assert a == [a[0]] + a[1..] && b == [b[0]] + b[1..];
  }

  // ---- Order -------------------------------------------------------------------------------------

  ghost predicate InOrder(c: Consumer, events: seq<Event>, d: Consumer) {
    PdusOf(events, Sent) + d.deferred == c.deferred + PdusOf(events, Taken)
  }

  lemma DataInOrder(c: Consumer, pdu: DataPdu, now: nat)
    requires WellFormed(c) && |c.deferred| < DEFERRED_QUEUE_SIZE
    ensures var (d, events) := HandleData(c, pdu, now);
      InOrder(c, events, d) && PdusOf(events, Taken) == [pdu]
  {
    hide Touch, Lookup;
    var key := Lookup(c.cache, Low(PduKeyId(pdu)));
    PdusOfOne(Accepted(pdu), Sent);
    PdusOfOne(Accepted(pdu), Taken);
    if key.Some? && c.deferred == [] {
      var delivered := Delivered(pdu, key.value);
      PdusOfTwo(Accepted(pdu), delivered, Sent);
      PdusOfTwo(Accepted(pdu), delivered, Taken);
    } else {
      assert HandleData(c, pdu, now).1 == [Accepted(pdu)] + [];
    }
  }

  lemma PdusOfOne(e: Event, kind: Kind)
    ensures PdusOf([e], kind) == if KindOf(e) == Some(kind) then [e.pdu] else []
  {
    assert [e][1..] == [];
  }

  lemma PdusOfTwo(e: Event, f: Event, kind: Kind)
    ensures PdusOf([e, f], kind) == PdusOf([e], kind) + PdusOf([f], kind)
  {
    assert [e, f] == [e] + [f];
    PdusOfConcat([e], [f], kind);
  }

  // ---- Termination of draining -----------------------------------------------------------------

  predicate AllDrains(steps: seq<ConsumerStep>) {
    forall s :: s in steps ==> s.DrainStep?
  }

  /** Drain events a queue of `n` needs: one for every 20, and one even for an empty queue. */
  function Rounds(n: nat): (k: nat)
    ensures k == if n == 0 then 1 else (n + MAX_PROCESSED_PDUS_AT_ONCE - 1) / MAX_PROCESSED_PDUS_AT_ONCE
  {
    if n <= MAX_PROCESSED_PDUS_AT_ONCE then 1 else 1 + Rounds(n - MAX_PROCESSED_PDUS_AT_ONCE)
  }

  /** The PDU at `i` is put back when its turn comes. */
  predicate StuckAt(c: Consumer, i: nat)
    requires InBounds(c.cache) && i < |c.deferred|
  {
    Fates(c, c.deferred)[i].PutBack?
  }

  predicate NoneStuck(c: Consumer)
    requires InBounds(c.cache)
  {
    forall i :: 0 <= i < |c.deferred| ==> !StuckAt(c, i)
  }

  /** A PDU that drains do not get rid of waits. */
  predicate Stuck(c: Consumer, p: DataPdu)
    requires InBounds(c.cache)
  {
    exists i :: 0 <= i < |c.deferred| && c.deferred[i] == p && StuckAt(c, i)
  }

  lemma {:induction false} BackIs(batch: seq<DataPdu>, fates: seq<Fate>)
    requires |fates| == |batch|
    ensures forall i :: 0 <= i < |batch| && fates[i].PutBack? ==> batch[i] in Back(batch, fates)
    ensures (forall i :: 0 <= i < |batch| ==> !fates[i].PutBack?) ==> Back(batch, fates) == []
    ensures |Back(batch, fates)| <= |batch|
  {
    if batch != [] { BackIs(batch[1..], fates[1..]); }
  }

  /** The fate of the PDU at `i` of a queue. */
  lemma FateAt(c: Consumer, i: nat)
    requires InBounds(c.cache) && i < |c.deferred|
    ensures StuckAt(c, i) <==> FateAfter(c, IdsOf(c.deferred[..i]), c.deferred[i]).PutBack?
    ensures i < |BatchOf(c)| ==> Fates(c, BatchOf(c))[i] == Fates(c, c.deferred)[i]
  {
    hide FateAfter;
    assert {} + IdsOf(c.deferred[..i]) == IdsOf(c.deferred[..i]);
    if i < |BatchOf(c)| { assert BatchOf(c)[..i] == c.deferred[..i]; }
  }

  /** Fates after a drain are fates as seen before it. */
  lemma FateLater(c: Consumer, d: Consumer, done: set<byte>, before: set<byte>, pdu: DataPdu)
    requires InBounds(c.cache) && InBounds(d.cache) && Follows(c.cache, done, d.cache) && d.lastKeyId == c.lastKeyId
    ensures FateAfter(d, before, pdu) == FateAfter(c, done + before, pdu)
  {
    hide AnswerAfter;
  }

  /** Behind the batch, PDUs keep their fates and move to the front. */
  lemma RestKeepsFate(c: Consumer, now: nat, i: nat)
    requires WellFormed(c) && Ok(c.cache) && c.pending && |BatchOf(c)| <= i < |c.deferred|
    ensures var d := Drain(c, now).0;
      var j := i - |BatchOf(c)|;
      j < |d.deferred| && d.deferred[j] == c.deferred[i] && (StuckAt(d, j) <==> StuckAt(c, i))
  {
    hide Drain, FateAfter, StuckAt, Back, Follows, Ok, IdsOf, Fates, BatchOf, EventsFor;
    DrainIsPlain(c, now);
    BatchIsPrefix(c);
    var d, batch, j := Drain(c, now).0, BatchOf(c), i - |BatchOf(c)|;
    Behind(c.deferred, |batch|, Back(batch, Fates(c, batch)), i);
    FateAt(c, i);
    FateAt(d, j);
    IdsOfConcat(batch, d.deferred[..j]);
    FateLater(c, d, IdsOf(batch), IdsOf(d.deferred[..j]), c.deferred[i]);
  }

  lemma BatchIsPrefix(c: Consumer)
    ensures |BatchOf(c)| <= |c.deferred| && BatchOf(c) == c.deferred[..|BatchOf(c)|]
    ensures forall i :: 0 <= i <= |BatchOf(c)| ==> BatchOf(c)[..i] == c.deferred[..i]
  {}

  lemma Behind<T>(queue: seq<T>, n: nat, back: seq<T>, i: nat)
    requires n <= i < |queue|
    ensures var after := queue[n..] + back;
      after[i - n] == queue[i] && queue[..i] == queue[..n] + after[..i - n]
  {}

  lemma IdsOfConcat(a: seq<DataPdu>, b: seq<DataPdu>)
    ensures IdsOf(a + b) == IdsOf(a) + IdsOf(b)
  {
    hide Low, PduKeyId;
  }

  /** What is put back once is put back whenever its turn comes again. */
  lemma PutBackAgain(c: Consumer, d: Consumer, before: set<byte>, done: set<byte>, later: set<byte>, pdu: DataPdu)
    requires InBounds(c.cache) && InBounds(d.cache) && Follows(c.cache, done, d.cache) && d.lastKeyId == c.lastKeyId
    requires FateAfter(c, before, pdu).PutBack? && before <= done
    ensures FateAfter(d, later, pdu).PutBack?
  {
    hide AnswerAfter, Follows, Low, PduKeyId;
    FateLater(c, d, done, later, pdu);
    MissesStay(c.cache, before, done + later, Low(PduKeyId(pdu)));
  }

  /** A PDU of the batch that is put back will be put back again. */
  lemma BatchStaysStuck(c: Consumer, now: nat, i: nat)
    requires WellFormed(c) && Ok(c.cache) && c.pending && i < |BatchOf(c)| && StuckAt(c, i)
    ensures Stuck(Drain(c, now).0, c.deferred[i])
  {
    hide Drain, FateAfter, Back, Follows, Ok, IdsOf, Fates, EventsFor, BatchOf;
    DrainIsPlain(c, now);
    BatchIsPrefix(c);
    var d, batch, p := Drain(c, now).0, BatchOf(c), c.deferred[i];
    FateAt(c, i);
    BackIs(batch, Fates(c, batch));
    assert p in d.deferred;
    Cut(batch, i);
    IdsOfConcat(batch[..i], batch[i..]);
    var j :| 0 <= j < |d.deferred| && d.deferred[j] == p;
    FateAt(d, j);
    PutBackAgain(c, d, IdsOf(batch[..i]), IdsOf(batch), IdsOf(d.deferred[..j]), p);
  }

  lemma Cut<T>(s: seq<T>, i: nat)
    requires i <= |s|
    ensures s == s[..i] + s[i..]
  {}

  /** A drain shortens a queue without stuck PDUs by a whole batch. */
  lemma DrainShrinks(c: Consumer, now: nat)
    requires WellFormed(c) && Ok(c.cache) && c.pending && NoneStuck(c)
    ensures var d := Drain(c, now).0;
      && d.deferred == c.deferred[|BatchOf(c)|..]
      && d.pending == (d.deferred != [])
      && Ok(d.cache) && NoneStuck(d)
  {
    hide Drain, FateAfter, StuckAt, Follows, Ok, Fates, Back, EventsFor, BatchOf;
    DrainIsPlain(c, now);
    BatchIsPrefix(c);
    var d, batch := Drain(c, now).0, BatchOf(c);
    forall i | 0 <= i < |batch|
      ensures !Fates(c, batch)[i].PutBack?
    {
      NotPutBack(c, i);
    }
    BackIs(batch, Fates(c, batch));
    forall j | 0 <= j < |d.deferred|
      ensures !StuckAt(d, j)
    {
      RestKeepsFate(c, now, j + |batch|);
      assert !StuckAt(c, j + |batch|);
    }
  }

  lemma NotPutBack(c: Consumer, i: nat)
    requires InBounds(c.cache) && NoneStuck(c) && i < |BatchOf(c)| && i < |c.deferred|
    ensures !Fates(c, BatchOf(c))[i].PutBack?
  {
    FateAt(c, i);
    hide Fates, BatchOf, FateAfter;
    assert !StuckAt(c, i);
  }

  /** With nothing stuck, `steps` drain events leave `n - 20 * |steps|` waiting and the request pending
      exactly while fewer than `Rounds(n)` have happened. */
  lemma {:induction false} DrainsFinish(c: Consumer, steps: seq<ConsumerStep>)
    requires WellFormed(c) && Ok(c.cache) && c.pending && NoneStuck(c) && AllDrains(steps)
    ensures var d := RunConsumer(c, steps).0;
      var n := |c.deferred|;
      && |d.deferred| == (if n <= MAX_PROCESSED_PDUS_AT_ONCE * |steps| then 0 else n - MAX_PROCESSED_PDUS_AT_ONCE * |steps|)
      && (d.pending <==> |steps| < Rounds(n))
    decreases |steps|
  {
    hide NoneStuck, Ok;
    if steps != [] {
      assert steps[0] in steps;
      DrainShrinks(c, steps[0].at);
      var d := Advance(c, steps[0]).0;
      if d.pending {
        DrainsFinish(d, steps[1..]);
      } else {
        IdleStaysIdle(d, steps[1..]);
      }
    }
  }

  lemma {:induction false} IdleStaysIdle(c: Consumer, steps: seq<ConsumerStep>)
    requires WellFormed(c) && !c.pending && AllDrains(steps)
    ensures RunConsumer(c, steps) == (c, [])
    decreases |steps|
  {
    if steps != [] {
      assert steps[0] in steps;
      assert Advance(c, steps[0]) == (c, []);
      IdleStaysIdle(c, steps[1..]);
      var none: seq<Event> := [];
      assert none + none == none;
    }
  }

  lemma StuckStays(c: Consumer, now: nat, p: DataPdu)
    requires WellFormed(c) && Ok(c.cache) && c.pending && Stuck(c, p)
    ensures var d := Drain(c, now).0;
      Ok(d.cache) && d.pending && Stuck(d, p)
  {
    DrainIsPlain(c, now);
    hide Drain, StuckAt, Ok, Follows, Back, EventsFor, Fates;
    var i :| 0 <= i < |c.deferred| && c.deferred[i] == p && StuckAt(c, i);
    if i < |BatchOf(c)| { BatchStaysStuck(c, now, i); } else { RestKeepsFate(c, now, i); }
  }

  /** A stuck PDU keeps the request pending through any number of drain events. */
  lemma {:induction false} StuckNeverDrains(c: Consumer, steps: seq<ConsumerStep>, p: DataPdu)
    requires WellFormed(c) && Ok(c.cache) && c.pending && AllDrains(steps) && Stuck(c, p)
    ensures var d := RunConsumer(c, steps).0;
      d.pending && p in d.deferred && Stuck(d, p)
    decreases |steps|
  {
    assert Stuck(c, p) ==> p in c.deferred;
    if steps != [] {
      assert steps[0] in steps;
      StuckStays(c, steps[0].at, p);
      hide Drain, Stuck, Ok;
      StuckNeverDrains(Advance(c, steps[0]).0, steps[1..], p);
    }
  }

  /** Draining comes to an end, after `Rounds` events, if and only if no waiting PDU is stuck. */
  lemma DrainingEndsIff(c: Consumer, steps: seq<ConsumerStep>)
    requires WellFormed(c) && Ok(c.cache) && c.pending && AllDrains(steps)
    requires |steps| >= Rounds(|c.deferred|)
    ensures RunConsumer(c, steps).0.pending <==> !NoneStuck(c)
    ensures NoneStuck(c) ==> RunConsumer(c, steps).0.deferred == []
  {
    if NoneStuck(c) {
      DrainsFinish(c, steps);
    } else {
      var i :| 0 <= i < |c.deferred| && StuckAt(c, i);
      assert Stuck(c, c.deferred[i]);
      StuckNeverDrains(c, steps, c.deferred[i]);
    }
  }

  // ---- The key-complete callback ------------------------------------------------------------------

  /** Afterwards the id maps to the reconstructed key and draining is requested, unless the id was
      already cached. Every other entry survives, except that a full cache gives up one entry,
      one whose combined stamp is no larger than any other's. */
  lemma CompleteKeyEffect(c: Consumer, id: byte, key: Key, now: nat)
    requires WellFormed(c) && Ok(c.cache) && id != 0 && |c.cache.slots| > 0
    ensures var d := CompleteKey(c, id, key, now);
      var before, after := View(c.cache), View(d.cache);
      && Ok(d.cache) && |after| <= |d.cache.slots| == |c.cache.slots|
      && d.deferred == c.deferred
      && (id in before ==> d == c)
      && (id !in before ==>
            && d.pending
            && id in after && after[id].key == key
            && (|before| < |c.cache.slots| ==> after == before[id := after[id]])
            && (|before| == |c.cache.slots| ==>
                  exists victim ::
                    && victim in before
                    && (forall other :: other in before ==> before[victim].last <= before[other].last)
                    && after == (before - {victim})[id := after[id]]
                    && 0 <= d.removedKey < |c.cache.slots| && c.cache.slots[d.removedKey].id == victim)
            && (|before| < |c.cache.slots| ==> d.removedKey == c.removedKey))
  {
    hide AddKey, EvictLru, IsKeyIn, View;
    LookupIsMapLookup(c.cache, id);
    if id !in View(c.cache) {
      ViewSize(c.cache);
      if |View(c.cache)| < |c.cache.slots| {
        AddsWhenRoom(c.cache, id, key, now);
      } else {
        AddsAfterEviction(c.cache, id, key, now);
      }
    }
    ViewSize(CompleteKey(c, id, key, now).cache);
  }

  lemma AddsWhenRoom(c: Cache, id: byte, key: Key, now: nat)
    requires Ok(c) && id != 0 && id !in View(c) && |View(c)| < |c.slots|
    ensures var (d, status) := AddKey(c, key, id, now);
      && status == 0 && Ok(d)
      && id in View(d) && View(d)[id].key == key && View(d) == View(c)[id := View(d)[id]]
  {
    AddOk(c, key, id, now);
    AddRefines(c, key, id, now);
  }

  lemma AddsAfterEviction(c: Cache, id: byte, key: Key, now: nat)
    requires Ok(c) && id != 0 && id !in View(c) && |View(c)| == |c.slots| > 0
    ensures AddKey(c, key, id, now) == (c, -1)
    ensures var freed := EvictLru(c).0;
      var (d, status) := AddKey(freed, key, id, now);
      && status == 0 && Ok(d) && |freed.slots| == |c.slots|
      && id in View(d) && View(d)[id].key == key
      && exists victim ::
           && victim in View(c)
           && (forall other :: other in View(c) ==> View(c)[victim].last <= View(c)[other].last)
           && View(d) == (View(c) - {victim})[id := View(d)[id]]
           && 0 <= EvictLru(c).1 < |c.slots| && c.slots[EvictLru(c).1].id == victim
  {
    ViewSize(c);
    assert AddKey(c, key, id, now) == (c, -1);
    hide View, Ok, EvictLru, AddKey;
    VictimGoes(c);
    var (freed, i) := EvictLru(c);
    AddsWhenRoom(freed, id, key, now);
  }

  /** A full cache gives up the entry with the smallest stamp, and the index returned is where it was. */
  lemma VictimGoes(c: Cache)
    requires Ok(c) && |View(c)| == |c.slots| > 0
    ensures var (freed, i) := EvictLru(c);
      && Ok(freed) && |freed.slots| == |c.slots| && |View(freed)| < |c.slots| && 0 <= i < |c.slots|
      && var victim := c.slots[i].id;
      && victim in View(c) && View(freed) == View(c) - {victim}
      && forall other :: other in View(c) ==> View(c)[victim].last <= View(c)[other].last
  {
    hide View, Oldest, Ok, RemoveAt;
    EvictsOldest(c);
    var (freed, i) := EvictLru(c);
    assert |View(c)| != 0 ==> View(c) != map[];
    assert i >= 0 && freed == RemoveAt(c, i);
    hide EvictLru;
    RemoveAtView(c, i);
    OneLess(View(c), c.slots[i].id);
  }

  lemma OneLess<K, V>(m: map<K, V>, k: K)
    requires k in m
    ensures |m - {k}| < |m|
  {
    assert (m - {k}).Keys == m.Keys - {k};
    assert |m.Keys| == |m| && |(m - {k}).Keys| == |m - {k}|;
  }
}
