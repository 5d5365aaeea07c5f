/** What holds of every record the processor can reach from power-up, for any ids: the cache's
    invariant, and why PDUs wait. */
module ReachableTheorems {
  import opened Bytes
  import opened Crypto
  import opened Options
  import opened Wire
  import opened KeyCacheSpec
  import opened ConsumerSpec
  import opened ConsumerTheorems
  import opened OrderTheorems
  import opened ProcessorSpec
  import opened ProcessorTheorems

  // ---- Why PDUs wait ---------------------------------------------------------------------------------

  /** No wake-up is lost: if PDUs wait and no drain is due, the oldest one's key is missing. */
  predicate HeadWaits(c: Consumer)
    requires InBounds(c.cache)
  {
    !c.pending && c.deferred != [] ==> !Keyed(c.cache, c.deferred[0])
  }

  lemma FrameKeepsHead(c: Consumer, reading: Reading, now: nat)
    requires WellFormed(c) && HeadWaits(c)
    ensures HeadWaits(HandleReading(c, reading, now).0)
  {
    var id := match reading
      case ReadData(pdu) => Low(PduKeyId(pdu))
      case ReadFragment(fragment) => Low(KeyIdOf(fragment.sessionData))
      case ReadOther => 0;
    if c.deferred != [] && !Keyed(c.cache, c.deferred[0]) {
      TouchKeepsMisses(c.cache, id, now, Low(PduKeyId(c.deferred[0])));
    }
    if Lookup(c.cache, id).None? { TouchKeepsMisses(c.cache, id, now, id); }
    hide Touch, Lookup, Low;
  }

  lemma KeyKeepsHead(c: Consumer, id: byte, key: Key, now: nat)
    requires WellFormed(c) && Ok(c.cache) && HeadWaits(c)
    ensures HeadWaits(CompleteKey(c, id, key, now))
  {
    var d := CompleteKey(c, id, key, now);
    if !d.pending {
      NothingStored(c, id, key, now);
    }
  }

  /** Adding fails only in a full cache, and then it succeeds once an entry has been evicted. */
  lemma EvictionMakesRoom(c: Cache, key: Key, id: byte, now: nat)
    requires Ok(c)
    ensures var (d, status) := AddKey(c, key, id, now);
      status == -1 || status == 0
    ensures AddKey(c, key, id, now).1 == -1 ==> AddKey(c, key, id, now).0 == c
    ensures AddKey(c, key, id, now).1 == -1 ==>
      var (freed, index) := EvictLru(c);
      AddKey(freed, key, id, now).1 == 0 || AddKey(freed, key, id, now).0 == c
  {
    AddStatus(c, key, id, now);
    AddStatus(EvictLru(c).0, key, id, now);
    EvictRefines(c, now);
    hide View, MapStep, AddKey, First, Ok;
  }

  lemma AddStatus(c: Cache, key: Key, id: byte, now: nat)
    ensures AddKey(c, key, id, now).1 == if First(c.slots, 0) == |c.slots| then -1 else 0
    ensures First(c.slots, 0) == |c.slots| ==> AddKey(c, key, id, now).0 == c
  {}

  /** A callback that does not ask for a drain leaves the cache alone. */
  lemma NothingStored(c: Consumer, id: byte, key: Key, now: nat)
    requires WellFormed(c) && Ok(c.cache) && !CompleteKey(c, id, key, now).pending
    ensures CompleteKey(c, id, key, now).cache == c.cache && !c.pending
  {
    EvictionMakesRoom(c.cache, key, id, now);
    hide AddKey, EvictLru, IsKeyIn, Ok;
  }

  lemma AdvanceKeepsHead(c: Consumer, step: ConsumerStep)
    requires WellFormed(c) && Ok(c.cache) && HeadWaits(c)
    ensures HeadWaits(Advance(c, step).0)
  {
    match step
    case FrameStep(reading, at) => FrameKeepsHead(c.(stamp := TickStamp.Save(c.stamp, at)), reading, at);
    case KeyStep(id, key, at) => KeyKeepsHead(c.(stamp := TickStamp.Save(c.stamp, at)), id, key, at);
    case DrainStep(at) => if c.pending { hide ProcessDeferred; }
  }

  // ---- Whole tables ------------------------------------------------------------------------------------

  /** Both of the above, for every record. */
  predicate Sound(arr: seq<Consumer>)
    requires AllWellFormed(arr)
  {
    forall i :: 0 <= i < |arr| ==> Ok(arr[i].cache) && HeadWaits(arr[i])
  }

  lemma FreshIsSound(size: nat, cacheSize: nat)
    ensures AllWellFormed(FreshTable(size, cacheSize).arr) && Sound(FreshTable(size, cacheSize).arr)
  {}

  lemma AdmittedIsSound(c: Consumer, address: Address, now: nat)
    requires WellFormed(c) && Ok(c.cache)
    ensures Ok(Admitted(c, address, now).cache) && Admitted(c, address, now).deferred == []
  {
    ClearRefines(c.cache);
  }

  lemma AcquireKeepsSound(t: Table, address: Address, now: nat)
    requires AllWellFormed(t.arr) && Sound(t.arr)
    ensures Sound(Acquire(t, address, now).0.arr)
  {
    var free := Find(t.arr, ZERO_ADDRESS);
    if free < |t.arr| { AdmittedIsSound(t.arr[free], address, now); }
    hide Admitted, Ok, Keyed, Find;
  }

  lemma ExecKeepsSound(t: Table, s: Step)
    requires AllWellFormed(t.arr) && Sound(t.arr)
    ensures Sound(Exec(t, s).0.arr)
  {
    match s
    case OnFrame(address, reading, at) =>
      AcquireKeepsSound(t, address, at);
      var (u, index) := Acquire(t, address, at);
      hide Acquire, HandleReading, Ok, HeadWaits;
      if index.Some? {
        FrameKeepsOk(u.arr[index.value], reading, at);
        FrameKeepsHead(u.arr[index.value], reading, at);
      }
    case OnKey(address, id, key, at) =>
      var i := Find(t.arr, address);
      if i < |t.arr| {
        var c := Stamped(t.arr, i, at)[i];
        assert Ok(c.cache) && HeadWaits(c);
        CompleteKeyKeepsOk(c, id, key, at);
        KeyKeepsHead(c, id, key, at);
      }
      hide Ok, HeadWaits, CompleteKey, Find;
    case OnDrain(at) =>
      DrainAllAt(t.arr, at);
      forall i | 0 <= i < |t.arr|
        ensures Ok(Drain(t.arr[i], at).0.cache) && HeadWaits(Drain(t.arr[i], at).0)
      {
        DrainKeepsOk(t.arr[i], at);
        AdvanceKeepsHead(t.arr[i], DrainStep(at));
      }
      hide Ok, HeadWaits, Drain;
  }

  /** From power-up, whatever frames, keys and drain events follow, with any ids: every cache keeps its
      invariant, and wherever PDUs wait with no drain due, the oldest one's key is missing. */
  lemma {:induction false} RunKeepsSound(t: Table, steps: seq<Step>)
    requires AllWellFormed(t.arr) && Sound(t.arr)
    ensures Sound(Run(t, steps).0.arr)
    decreases |steps|
  {
    hide Exec, Sound;
    if steps != [] {
      ExecKeepsSound(t, steps[0]);
      RunKeepsSound(Exec(t, steps[0]).0, steps[1..]);
    }
  }

  lemma NoWakeUpIsLost(size: nat, cacheSize: nat, steps: seq<Step>)
    ensures var arr := Run(FreshTable(size, cacheSize), steps).0.arr;
      forall i :: 0 <= i < |arr| && !arr[i].pending && arr[i].deferred != [] ==> !Keyed(arr[i].cache, arr[i].deferred[0])
  {
    FreshIsSound(size, cacheSize);
    RunKeepsSound(FreshTable(size, cacheSize), steps);
    hide Run, Keyed, Ok;
  }

  /** What a queue can hold of `q`, and what it cannot. */
  function Capped(q: seq<DataPdu>): seq<DataPdu> {
    if |q| <= DEFERRED_QUEUE_SIZE then q else q[..DEFERRED_QUEUE_SIZE]
  }

  function Beyond(q: seq<DataPdu>): seq<DataPdu> {
    if |q| <= DEFERRED_QUEUE_SIZE then [] else q[DEFERRED_QUEUE_SIZE..]
  }

  lemma CappedAgain(a: seq<DataPdu>, b: seq<DataPdu>)
    ensures Capped(Capped(a) + b) == Capped(a + b)
    ensures Beyond(a) + Beyond(Capped(a) + b) == Beyond(a + b)
  {}

  lemma OnlyPassedOn(c: Consumer, fragment: KeyPdu, at: nat)
    requires WellFormed(c) && c.deferred != []
    ensures var (d, events) := HandleFragment(c, fragment, at);
      PiledUp(c.deferred, events, d.deferred) && d.pending == c.pending && d.deferred != []
  {
    hide Touch, Lookup;
    PdusOfOne(FragmentWanted(fragment), Sent);
    PdusOfOne(FragmentWanted(fragment), Taken);
    PdusOfOne(FragmentWanted(fragment), Overflowed);
    assert c.deferred + [] == c.deferred;
  }

  lemma OnlyDeferred(c: Consumer, pdu: DataPdu, at: nat)
    requires WellFormed(c) && c.deferred != []
    ensures var (d, events) := HandleData(c, pdu, at);
      PiledUp(c.deferred, events, d.deferred) && d.pending == c.pending && d.deferred != []
  {
    hide Touch, Lookup, PdusOf;
    var events := HandleData(c, pdu, at).1;
    if |c.deferred| < DEFERRED_QUEUE_SIZE {
      assert events == [Accepted(pdu)];
    } else {
      assert events == [Accepted(pdu), DroppedFull(pdu)];
      assert (c.deferred + [pdu])[..DEFERRED_QUEUE_SIZE] == c.deferred;
    }
    OfTwo(Accepted(pdu), DroppedFull(pdu), Sent);
    OfTwo(Accepted(pdu), DroppedFull(pdu), Taken);
    OfTwo(Accepted(pdu), DroppedFull(pdu), Overflowed);
  }

  lemma OfTwo(e: Event, f: Event, kind: Kind)
    ensures PdusOf([e], kind) == if KindOf(e) == Some(kind) then [e.pdu] else []
    ensures PdusOf([e, f], kind) == PdusOf([e], kind) + if KindOf(f) == Some(kind) then [f.pdu] else []
  {
    PdusOfOne(e, kind);
    PdusOfOne(f, kind);
    PdusOfTwo(e, f, kind);
  }

  /** Nothing delivered, and the queue holds what it can of what was waiting and what came. */
  predicate PiledUp(before: seq<DataPdu>, events: seq<Event>, after: seq<DataPdu>) {
    var queued := before + PdusOf(events, Taken);
    && PdusOf(events, Sent) == []
    && after == Capped(queued) && PdusOf(events, Overflowed) == Beyond(queued)
  }

  lemma PiledUpNone(queue: seq<DataPdu>)
    requires |queue| <= DEFERRED_QUEUE_SIZE
    ensures PiledUp(queue, [], queue)
  {
    assert queue + [] == queue;
  }

  lemma PiledUpChain(first: seq<DataPdu>, events: seq<Event>, mid: seq<DataPdu>, more: seq<Event>, last: seq<DataPdu>)
    requires PiledUp(first, events, mid) && PiledUp(mid, more, last)
    ensures PiledUp(first, events + more, last)
  {
    PdusOfConcat(events, more, Sent);
    PdusOfConcat(events, more, Overflowed);
    PdusOfConcat(events, more, Taken);
    hide PdusOf, Capped, Beyond;
    CappedAgain(first + PdusOf(events, Taken), PdusOf(more, Taken));
    assert first + (PdusOf(events, Taken) + PdusOf(more, Taken)) == (first + PdusOf(events, Taken)) + PdusOf(more, Taken);
  }

  predicate SameIds(slots: seq<Slot>, slots': seq<Slot>) {
    |slots| == |slots'| && forall i :: 0 <= i < |slots| ==> slots[i].id == slots'[i].id
  }

  /** Frames, drain events, and keys of ids that are already cached. */
  predicate BringsNoKey(c: Consumer, step: ConsumerStep) {
    step.KeyStep? ==> First(c.cache.slots, step.id) < |c.cache.slots|
  }

  lemma StepPilesUp(c: Consumer, step: ConsumerStep)
    requires WellFormed(c) && !c.pending && c.deferred != [] && BringsNoKey(c, step)
    ensures var (d, events) := Advance(c, step);
      PiledUp(c.deferred, events, d.deferred) && !d.pending && d.deferred != [] && SameIds(c.cache.slots, d.cache.slots)
  {
    hide PiledUp;
    match step
    case FrameStep(reading, at) =>
      var b := c.(stamp := TickStamp.Save(c.stamp, at));
      match reading {
        case ReadData(pdu) => OnlyDeferred(b, pdu, at);
        case ReadFragment(fragment) => OnlyPassedOn(b, fragment, at);
        case ReadOther => PiledUpNone(c.deferred);
      }
    case KeyStep(_, _, _) => PiledUpNone(c.deferred);
    case DrainStep(_) => PiledUpNone(c.deferred);
  }

  /** The price: while something waits and no drain is due, nothing of that sender is delivered,
      whether or not its keys are cached, by frames, drain events or keys it already has. PDUs pile up
      behind the oldest one until 80 wait, and the rest is lost. */
  lemma {:induction false} NothingPassesTheHead(c: Consumer, steps: seq<ConsumerStep>)
    requires WellFormed(c) && !c.pending && c.deferred != []
    requires forall s :: s in steps ==> BringsNoKey(c, s)
    ensures var (d, events) := RunConsumer(c, steps);
      PiledUp(c.deferred, events, d.deferred) && !d.pending
    decreases |steps|
  {
    hide PiledUp, Advance;
    if steps == [] {
      PiledUpNone(c.deferred);
    } else {
      assert steps[0] in steps;
      StepPilesUp(c, steps[0]);
      var (d, events) := Advance(c, steps[0]);
      forall s | s in steps[1..]
        ensures BringsNoKey(d, s)
      {
        assert BringsNoKey(c, s);
        if s.KeyStep? { FirstSameIds(c.cache.slots, d.cache.slots, s.id); }
      }
      NothingPassesTheHead(d, steps[1..]);
      var (e, more) := RunConsumer(d, steps[1..]);
      PiledUpChain(c.deferred, events, d.deferred, more, e.deferred);
    }
  }

  // ---- Draining, from power-up -------------------------------------------------------------------------

  /** In every state reached from power-up, by whatever frames and keys with whatever ids: once
      arrivals stop, drain events cease after `Rounds` if and only if no pending record holds a stuck PDU, and every other pending record is emptied. */
  lemma DrainEventsCeaseFromPowerUp(size: nat, cacheSize: nat, before: seq<Step>, drains: seq<Step>)
    requires OnlyDrains(drains)
    requires var arr := Run(FreshTable(size, cacheSize), before).0.arr;
      forall i :: 0 <= i < |arr| && arr[i].pending ==> |drains| >= Rounds(|arr[i].deferred|)
    ensures var t := Run(FreshTable(size, cacheSize), before).0;
      var u := Run(t, drains).0;
      && (AnyPending(u.arr) <==> exists i :: 0 <= i < |t.arr| && t.arr[i].pending && !NoneStuck(t.arr[i]))
      && (forall i :: 0 <= i < |t.arr| && t.arr[i].pending && NoneStuck(t.arr[i]) ==> u.arr[i].deferred == [])
  {
    FreshIsSound(size, cacheSize);
    RunKeepsSound(FreshTable(size, cacheSize), before);
    var t := Run(FreshTable(size, cacheSize), before).0;
    hide Run, Ok, HeadWaits, NoneStuck;
    DrainEventsCease(t, drains);
  }

  // ---- Order in the whole table --------------------------------------------------------------------------

  lemma {:induction false} OwnStepsConcat(a: seq<Step>, b: seq<Step>, address: Address)
    ensures OwnSteps(a + b, address) == OwnSteps(a, address) + OwnSteps(b, address)
  {
    if a == [] {
      assert a + b == b;
    } else {
      assert (a + b)[1..] == a[1..] + b;
      OwnStepsConcat(a[1..], b, address);
    }
  }

  lemma OwnPrefix(steps: seq<Step>, k: nat, address: Address)
    requires k <= |steps|
    ensures OwnSteps(steps[..k], address) <= OwnSteps(steps, address)
  {
    assert steps == steps[..k] + steps[k..];
    OwnStepsConcat(steps[..k], steps[k..], address);
  }

  lemma OwnStepsLast(steps: seq<Step>, address: Address)
    requires steps != []
    ensures var n := |steps| - 1;
      OwnSteps(steps, address) == OwnSteps(steps[..n], address) + OwnStep(steps[n], address)
  {
    var n := |steps| - 1;
    assert steps == steps[..n] + [steps[n]];
    OwnStepsConcat(steps[..n], [steps[n]], address);
    assert [steps[n]][1..] == [];
  }

  /** Every prefix of a sender's steps is what some prefix of all steps has of that sender. */
  lemma {:induction false} PrefixAttained(steps: seq<Step>, m: nat, address: Address) returns (k: nat)
    requires m <= |OwnSteps(steps, address)|
    ensures k <= |steps| && OwnSteps(steps[..k], address) == OwnSteps(steps, address)[..m]
    decreases |steps|
  {
    if m == |OwnSteps(steps, address)| {
      k := |steps|;
      assert steps[..k] == steps;
    } else {
      var n := |steps| - 1;
      OwnStepsLast(steps, address);
      AtMostOneStep(steps[n], address);
      hide OwnSteps, OwnStep;
      k := PrefixAttained(steps[..n], m, address);
      assert steps[..n][..k] == steps[..k];
    }
  }

  lemma AtMostOneStep(s: Step, address: Address)
    ensures |OwnStep(s, address)| <= 1
  {}

  /** The same statement as `InOrderAfter`, about one sender in a whole table. */
  ghost predicate SenderInOrderAfter(t: Table, steps: seq<Step>, k: nat, address: Address)
    requires AllWellFormed(t.arr) && k <= |steps|
  {
    var (u, events) := Run(t, steps[..k]);
    var own := EventsOf(events, address);
    PdusOf(own, Sent) + WaitingOf(u, address) == WaitingOf(t, address) + PdusOf(own, Taken)
  }

  lemma SenderPrefix(t: Table, steps: seq<Step>, k: nat, address: Address, m: nat)
    requires TableOk(t) && k <= |steps|
    requires address != ZERO_ADDRESS && EntryOf(t, address).Some?
    requires m <= |OwnSteps(steps, address)| && OwnSteps(steps[..k], address) == OwnSteps(steps, address)[..m]
    ensures SenderInOrderAfter(t, steps, k, address) <==>
            InOrderAfter(EntryOf(t, address).value, OwnSteps(steps, address), m)
  {
    SenderIsolation(t, steps[..k], address);
    hide Run, RunConsumer, PdusOf, EventsOf, OwnSteps;
  }

  /** Order in a whole table, exactly: whatever the other senders do and however everything is
      interleaved, an admitted sender's PDUs are in order after every step if and only if its own
      steps are orderly: every data frame of its own finds room, and every drain takes a safe batch. */
  lemma InOrderIff(t: Table, steps: seq<Step>, address: Address)
    requires TableOk(t)
    requires address != ZERO_ADDRESS && EntryOf(t, address).Some?
    requires Ok(EntryOf(t, address).value.cache)
    ensures (forall k :: 0 <= k <= |steps| ==> SenderInOrderAfter(t, steps, k, address)) <==>
            OrderlyRun(EntryOf(t, address).value, OwnSteps(steps, address))
  {
    var c := EntryOf(t, address).value;
    var own := OwnSteps(steps, address);
    RunInOrderIff(c, own);
    hide SenderInOrderAfter, InOrderAfter, OrderlyRun, TableOk, Ok, EntryOf, OwnSteps;
    if forall k :: 0 <= k <= |steps| ==> SenderInOrderAfter(t, steps, k, address) {
      forall m | 0 <= m <= |own| ensures InOrderAfter(c, own, m) {
        var k := PrefixAttained(steps, m, address);
        SenderPrefix(t, steps, k, address, m);
      }
    }
    if forall m :: 0 <= m <= |own| ==> InOrderAfter(c, own, m) {
      forall k | 0 <= k <= |steps| ensures SenderInOrderAfter(t, steps, k, address) {
        OwnPrefix(steps, k, address);
        SenderPrefix(t, steps, k, address, |OwnSteps(steps[..k], address)|);
      }
    }
  }
}
