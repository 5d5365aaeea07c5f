/** Conservation, order and termination over interleaved runs of the whole processor. */
module ProcessorTheorems {
  import opened Wire
  import opened Crypto
  import opened KeyCacheSpec
  import opened ConsumerSpec
  import opened ConsumerTheorems
  import opened ProcessorSpec

  function WaitingOf(t: Table, address: Address): seq<DataPdu> {
    if EntryOf(t, address).Some? then EntryOf(t, address).value.deferred else []
  }

  lemma ExecNet(t: Table, s: Step, address: Address, x: DataPdu)
    requires TableOk(t) && address != ZERO_ADDRESS
    ensures var (u, events) := Exec(t, s);
      multiset(WaitingOf(t, address))[x] + Net(EventsOf(events, address), x) == multiset(WaitingOf(u, address))[x]
  {
    var (u, events) := Exec(t, s);
    if EntryOf(t, address).Some? {
      ExecAdmitted(t, s, address);
      if OwnStep(s, address) != [] { AdvanceNet(EntryOf(t, address).value, OwnStep(s, address)[0], x); }
    } else {
      ExecNewcomer(t, s, address);
      if EntryOf(u, address).Some? {
        var i :| 0 <= i < |t.arr| && AdmittedBy(t, i, s, u, EventsOf(events, address));
        FrameNet(Admitted(t.arr[i], address, s.at), s.reading, s.at, x);
      }
    }
  }

  lemma {:induction false} RunTableNet(t: Table, steps: seq<Step>, address: Address, x: DataPdu)
    requires TableOk(t) && address != ZERO_ADDRESS
    ensures var (u, events) := Run(t, steps);
      multiset(WaitingOf(t, address))[x] + Net(EventsOf(events, address), x) == multiset(WaitingOf(u, address))[x]
    decreases |steps|
  {
    if steps != [] {
      var (u, events) := Exec(t, steps[0]);
      ExecKeepsOk(t, steps[0]);
      ExecNet(t, steps[0], address, x);
      RunTableNet(u, steps[1..], address, x);
      var more := Run(u, steps[1..]).1;
      EventsOfConcat(events, more, address);
      NetConcat(EventsOf(events, address), EventsOf(more, address), x);
    }
  }

  /** For every sender, over every interleaved run, whether or not it is admitted on the way: the
      data PDUs accepted are those delivered, dropped because its queue was full, dropped as stale,
      or still waiting. */
  lemma Conservation(t: Table, steps: seq<Step>, address: Address)
    requires TableOk(t) && address != ZERO_ADDRESS
    ensures var (u, events) := Run(t, steps);
      Conserved(WaitingOf(t, address), EventsOf(events, address), WaitingOf(u, address))
  {
    var (u, events) := Run(t, steps);
    forall x: DataPdu
      ensures multiset(WaitingOf(t, address))[x] + Net(EventsOf(events, address), x)
              == multiset(WaitingOf(u, address))[x]
    {
      RunTableNet(t, steps, address, x);
    }
    ConservedFromNet(WaitingOf(t, address), EventsOf(events, address), WaitingOf(u, address));
  }

  // ---- Draining the whole table -------------------------------------------------------------------

  predicate OnlyDrains(steps: seq<Step>) {
    forall s :: s in steps ==> s.OnDrain?
  }

  function EntryDrains(steps: seq<Step>): (own: seq<ConsumerStep>)
    requires OnlyDrains(steps)
    ensures AllDrains(own) && |own| == |steps|
  {
    if steps == [] then [] else [DrainStep(steps[0].at)] + EntryDrains(steps[1..])
  }

  /** Under drain events each entry evolves on its own. */
  lemma {:induction false} DrainsByEntry(t: Table, steps: seq<Step>, i: nat)
    requires AllWellFormed(t.arr) && OnlyDrains(steps) && i < |t.arr|
    ensures Run(t, steps).0.arr[i] == RunConsumer(t.arr[i], EntryDrains(steps)).0
    decreases |steps|
  {
    if steps != [] {
      assert steps[0] in steps;
      DrainAllAt(t.arr, steps[0].at);
      assert EntryDrains(steps)[1..] == EntryDrains(steps[1..]);
      DrainsByEntry(Exec(t, steps[0]).0, steps[1..], i);
    }
  }

  /** With no new arrivals, once every pending entry has had `Rounds` of its queue length, the drain
      event is raised again if and only if some pending entry holds a stuck PDU; every other
      pending entry has been emptied. */
  lemma DrainEventsCease(t: Table, steps: seq<Step>)
    requires AllWellFormed(t.arr) && OnlyDrains(steps)
    requires forall i :: 0 <= i < |t.arr| && t.arr[i].pending ==>
      Ok(t.arr[i].cache) && |steps| >= Rounds(|t.arr[i].deferred|)
    ensures var u := Run(t, steps).0;
      && (AnyPending(u.arr) <==> exists i :: 0 <= i < |t.arr| && t.arr[i].pending && !NoneStuck(t.arr[i]))
      && (forall i :: 0 <= i < |t.arr| && t.arr[i].pending && NoneStuck(t.arr[i]) ==> u.arr[i].deferred == [])
  {
    var u := Run(t, steps).0;
    forall i | 0 <= i < |t.arr|
      ensures u.arr[i].pending <==> t.arr[i].pending && !NoneStuck(t.arr[i])
      ensures t.arr[i].pending && NoneStuck(t.arr[i]) ==> u.arr[i].deferred == []
    {
      DrainsByEntry(t, steps, i);
      if t.arr[i].pending {
        DrainingEndsIff(t.arr[i], EntryDrains(steps));
      } else {
        IdleStaysIdle(t.arr[i], EntryDrains(steps));
      }
    }
  }

  // ---- Who has a record ------------------------------------------------------------------------------

  /** The number of entries in use. */
  function InUse(arr: seq<Consumer>): (n: nat)
    ensures n <= |arr|
    ensures n < |arr| <==> Find(arr, ZERO_ADDRESS) < |arr|
  {
    if arr == [] then 0 else (if arr[0].address != ZERO_ADDRESS then 1 else 0) + InUse(arr[1..])
  }

  /** The separately kept count is the number of entries in use. */
  predicate CountOk(t: Table) {
    t.active == InUse(t.arr)
  }

  lemma {:induction false} InUseUpdate(arr: seq<Consumer>, i: nat, c: Consumer)
    requires i < |arr|
    ensures InUse(arr[i := c]) == InUse(arr) + (if c.address != ZERO_ADDRESS then 1 else 0)
                                  - (if arr[i].address != ZERO_ADDRESS then 1 else 0)
  {
    if i == 0 {
      assert arr[i := c][1..] == arr[1..];
    } else {
      assert arr[i := c][1..] == arr[1..][i - 1 := c];
      InUseUpdate(arr[1..], i - 1, c);
    }
  }

  lemma {:induction false} InUseSame(arr: seq<Consumer>, arr': seq<Consumer>)
    requires |arr| == |arr'| && forall i :: 0 <= i < |arr| ==> arr'[i].address == arr[i].address
    ensures InUse(arr') == InUse(arr)
  {
    if arr != [] { InUseSame(arr[1..], arr'[1..]); }
  }

  lemma ExecKeepsCount(t: Table, s: Step)
    requires AllWellFormed(t.arr) && CountOk(t)
    ensures CountOk(Exec(t, s).0)
  {
    var u := Exec(t, s).0;
    match s
    case OnFrame(address, reading, at) =>
      var (v, index) := Acquire(t, address, at);
      hide HandleReading, Reset;
      if index.Some? {
        assert u.arr == t.arr[index.value := u.arr[index.value]];
        InUseUpdate(t.arr, index.value, u.arr[index.value]);
      }
    case OnKey(address, id, key, at) => hide CompleteKey; InUseSame(t.arr, u.arr);
    case OnDrain(at) => hide Drain; DrainAllAt(t.arr, at); InUseSame(t.arr, u.arr);
  }

  /** Exactly when an unknown sender's frame gets it a record: fewer than two, and fewer than there are,
      are in use. */
  lemma AdmittedIff(t: Table, s: Step)
    requires TableOk(t) && CountOk(t) && s.OnFrame? && s.address != ZERO_ADDRESS && EntryOf(t, s.address).None?
    ensures EntryOf(Exec(t, s).0, s.address).Some? <==> InUse(t.arr) < MAX_BLE_CONSUMERS && InUse(t.arr) < |t.arr|
  {
    hide HandleReading;
    var u := Exec(t, s).0;
    var (v, index) := Acquire(t, s.address, s.at);
    if index.Some? { assert u.arr[index.value].address == s.address; }
  }

  lemma {:induction false} FreshInUse(size: nat, cacheSize: nat)
    ensures CountOk(FreshTable(size, cacheSize))
    decreases size
  {
    if size > 0 {
      FreshInUse(size - 1, cacheSize);
      assert FreshTable(size, cacheSize).arr[1..] == FreshTable(size - 1, cacheSize).arr;
    }
  }

  /** From power-up at most two senders ever have a record, and one that has it keeps it. */
  lemma {:induction false} RecordsKept(t: Table, steps: seq<Step>, address: Address)
    requires TableOk(t) && CountOk(t) && InUse(t.arr) <= MAX_BLE_CONSUMERS && address != ZERO_ADDRESS
    ensures var u := Run(t, steps).0;
      && TableOk(u) && CountOk(u) && InUse(u.arr) <= MAX_BLE_CONSUMERS
      && (EntryOf(t, address).Some? ==> EntryOf(u, address).Some?)
    decreases |steps|
  {
    hide Exec;
    if steps != [] {
      ExecKeepsOk(t, steps[0]);
      ExecKeepsCount(t, steps[0]);
      InUseBound(t, steps[0]);
      if EntryOf(t, address).Some? { ExecAdmitted(t, steps[0], address); }
      hide EntryOf, TableOk, CountOk, OwnEffect;
      RecordsKept(Exec(t, steps[0]).0, steps[1..], address);
    }
  }

  lemma InUseBound(t: Table, s: Step)
    requires AllWellFormed(t.arr) && CountOk(t) && InUse(t.arr) <= MAX_BLE_CONSUMERS
    ensures InUse(Exec(t, s).0.arr) <= MAX_BLE_CONSUMERS
  {
    ExecKeepsCount(t, s);
    hide HandleReading, Drain, CompleteKey, InUse;
  }

  /** What a new sender finds: nothing of the one before, except the session last seen. */
  lemma NewRecord(c: Consumer, address: Address, now: nat)
    requires Ok(c.cache)
    ensures var d := Admitted(c, address, now);
      && d.address == address && d.deferred == [] && !d.pending && d.removedKey == -1 && d.lastKeyId == c.lastKeyId
      && d.stamp == TickStamp.Save(TickStamp.FRESH, now)
      && Ok(d.cache) && |d.cache.slots| == |c.cache.slots| && View(d.cache) == map[]
      && forall i :: 0 <= i < |c.cache.slots| ==> d.cache.slots[i] == Slot(0, BLANK_KEY, c.cache.slots[i].stamp)
  {
    ClearRefines(c.cache);
    ClearedSlots(c.cache, |c.cache.slots|);
  }

  lemma {:induction false} ClearedSlots(c: Cache, n: nat)
    requires n <= |c.slots|
    ensures forall i :: 0 <= i < |c.slots| ==>
      ClearTo(c, n).slots[i] == if i < n then Slot(0, BLANK_KEY, c.slots[i].stamp) else c.slots[i]
  {
    if n > 0 { ClearedSlots(c, n - 1); }
  }

  /** A drain event serves the entries in table order. */
  lemma {:induction false} DrainsInOrder(a: seq<Consumer>, b: seq<Consumer>, now: nat)
    requires AllWellFormed(a) && AllWellFormed(b)
    ensures AllWellFormed(a + b)
    ensures var (first, events) := DrainAll(a, now);
      var (second, more) := DrainAll(b, now);
      DrainAll(a + b, now) == (first + second, events + more)
    decreases |b|
  {
    hide Drain;
    if b == [] {
      assert a + b == a && DrainAll(a, now).0 + [] == DrainAll(a, now).0 && DrainAll(a, now).1 + [] == DrainAll(a, now).1;
    } else {
      var n := |b| - 1;
      assert (a + b)[..|a| + n] == a + b[..n] && (a + b)[|a| + n] == b[n];
      DrainsInOrder(a, b[..n], now);
      var (last, own) := Drain(b[n], now);
      Regroup(DrainAll(a, now).0, DrainAll(b[..n], now).0, [last]);
      Regroup(DrainAll(a, now).1, DrainAll(b[..n], now).1, TagAll(b[n].address, own));
    }
  }
}
