/** The sender table from power-up: what the record of a new sender is, and that steps for one sender in the
    table are that sender's own steps in its entry. */
module PowerUp {
  import opened Bytes
  import opened Crypto
  import opened Options
  import opened Wire
  import opened KeyCacheSpec
  import opened ConsumerSpec
  import opened ProcessorSpec

  /** A record just given to a sender in a table that has never been used. */
  function Newcomer(address: Address, cacheSize: nat, now: nat): Consumer {
    Admitted(FreshConsumer(cacheSize), address, now)
  }

  lemma {:induction false} ClearFresh(cacheSize: nat, n: nat)
    requires n <= cacheSize
    ensures ClearTo(FreshCache(cacheSize), n) == FreshCache(cacheSize)
  {
    if n > 0 {
      ClearFresh(cacheSize, n - 1);
      var c := FreshCache(cacheSize);
      assert c.slots[n - 1 := Slot(0, BLANK_KEY, TickStamp.FRESH)] == c.slots;
    }
  }

  /** Nothing waits, and the cache is in order with its hint not on id 0. */
  predicate Quiet(c: Consumer) {
    WellFormed(c) && c.deferred == [] && Ok(c.cache) && c.cache.hintId != 0
  }

  lemma NewcomerQuiet(address: Address, cacheSize: nat, now: nat)
    ensures var c := Newcomer(address, cacheSize, now);
      Quiet(c) && c.cache == FreshCache(cacheSize) && View(c.cache) == map[] && c.address == address
  {
    ClearFresh(cacheSize, cacheSize);
    var c := FreshCache(cacheSize);
    forall id: byte ensures id !in View(c) { InView(c, id); }
  }

  /** Steps for one sender, put to the table. */
  function For(address: Address, steps: seq<ConsumerStep>): seq<Step> {
    if steps == [] then [] else [ForOne(address, steps[0])] + For(address, steps[1..])
  }

  function ForOne(address: Address, step: ConsumerStep): Step {
    match step
    case FrameStep(reading, at) => OnFrame(address, reading, at)
    case KeyStep(id, key, at) => OnKey(address, id, key, at)
    case DrainStep(at) => OnDrain(at)
  }

  predicate NoDrains(steps: seq<ConsumerStep>) {
    forall s :: s in steps ==> !s.DrainStep?
  }

  lemma KnownStep(t: Table, i: nat, address: Address, step: ConsumerStep)
    requires AllWellFormed(t.arr) && i < |t.arr| && Find(t.arr, address) == i && !step.DrainStep?
    ensures var (c, events) := Advance(t.arr[i], step);
      && Exec(t, ForOne(address, step)) == (t.(arr := t.arr[i := c]), TagAll(address, events))
      && Find(t.arr[i := c], address) == i
  {
    hide HandleReading, CompleteKey;
    assert Stamped(t.arr, i, step.at)[i := Advance(t.arr[i], step).0] == t.arr[i := Advance(t.arr[i], step).0];
    FindSame(t.arr, t.arr[i := Advance(t.arr[i], step).0], address);
  }

  /** Steps for one sender only change its entry. */
  lemma {:induction false} KnownRun(t: Table, i: nat, address: Address, steps: seq<ConsumerStep>)
    requires AllWellFormed(t.arr) && i < |t.arr| && Find(t.arr, address) == i && NoDrains(steps)
    ensures var (c, events) := RunConsumer(t.arr[i], steps);
      Run(t, For(address, steps)) == (t.(arr := t.arr[i := c]), TagAll(address, events))
    decreases |steps|
  {
    hide Advance, Exec, Find;
    if steps == [] {
      assert t.arr[i := t.arr[i]] == t.arr;
    } else {
      assert steps[0] in steps;
      KnownStep(t, i, address, steps[0]);
      var (c, events) := Advance(t.arr[i], steps[0]);
      var u := t.(arr := t.arr[i := c]);
      KnownRun(u, i, address, steps[1..]);
      var (d, more) := RunConsumer(c, steps[1..]);
      assert u.arr[i := d] == t.arr[i := d];
      assert TagAll(address, events + more) == TagAll(address, events) + TagAll(address, more);
      var all := For(address, steps);
      assert all[0] == ForOne(address, steps[0]) && all[1..] == For(address, steps[1..]);
    }
  }

  /** A table whose first `n` entries are taken, and whose others have never been used. */
  predicate HasRoom(t: Table, n: nat, cacheSize: nat) {
    && n == t.active < |t.arr| && n < MAX_BLE_CONSUMERS
    && AllWellFormed(t.arr)
    && (forall j :: 0 <= j < n ==> t.arr[j].address != ZERO_ADDRESS)
    && (forall j :: n <= j < |t.arr| ==> t.arr[j] == FreshConsumer(cacheSize))
  }

  /** A new sender gets the next entry, and its steps go to it. */
  lemma NewcomerRun(t: Table, n: nat, cacheSize: nat, address: Address, steps: seq<ConsumerStep>)
    requires HasRoom(t, n, cacheSize) && address != ZERO_ADDRESS && Find(t.arr, address) == |t.arr|
    requires NoDrains(steps) && steps != [] && steps[0].FrameStep?
    ensures var (c, events) := RunConsumer(Newcomer(address, cacheSize, steps[0].at), steps);
      Run(t, For(address, steps)) == (Table(t.arr[n := c], n + 1), TagAll(address, events))
  {
    var first := steps[0];
    var c0 := Newcomer(address, cacheSize, first.at);
    var u := Table(t.arr[n := c0], n + 1);
    assert Find(t.arr, ZERO_ADDRESS) == n by { assert t.arr[n] == FreshConsumer(cacheSize); }
    assert Find(u.arr, address) == n by { assert u.arr[n].address == address; }
    hide Find, FreshConsumer, Advance, Reset;
    assert Acquire(t, address, first.at) == (u, Some(n));
    assert c0.(stamp := TickStamp.Save(c0.stamp, first.at)) == c0;
    KnownStep(u, n, address, first);
    AdmittedStep(t, u, n, address, first);
    KnownRun(u, n, address, steps);
    var all := For(address, steps);
    assert all[0] == ForOne(address, first);
    assert Run(t, all) == Run(u, all);
    var c := RunConsumer(c0, steps).0;
    assert u.arr[n := c] == t.arr[n := c];
  }

  /** Admitting a sender and looking it up again comes to the same. */
  lemma AdmittedStep(t: Table, u: Table, n: nat, address: Address, first: ConsumerStep)
    requires AllWellFormed(t.arr) && AllWellFormed(u.arr) && first.FrameStep? && n < |u.arr| == |t.arr|
    requires Acquire(t, address, first.at) == (u, Some(n)) && Find(u.arr, address) == n
    requires u.arr[n].(stamp := TickStamp.Save(u.arr[n].stamp, first.at)) == u.arr[n]
    ensures Exec(t, ForOne(address, first)) == Exec(u, ForOne(address, first))
  {
    hide HandleReading;
    assert Stamped(u.arr, n, first.at) == u.arr;
  }

  lemma PowerUpRun(size: nat, cacheSize: nat, address: Address, steps: seq<ConsumerStep>)
    requires size > 0 && address != ZERO_ADDRESS && NoDrains(steps) && steps != [] && steps[0].FrameStep?
    ensures var t := FreshTable(size, cacheSize);
      var (c, events) := RunConsumer(Newcomer(address, cacheSize, steps[0].at), steps);
      Run(t, For(address, steps)) == (Table(t.arr[0 := c], 1), TagAll(address, events))
  {
    NewcomerRun(FreshTable(size, cacheSize), 0, cacheSize, address, steps);
  }
}
