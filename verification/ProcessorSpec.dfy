/** The sender table of the PDU processor and its three kinds of step, as a value. The theorems
    reduce any interleaved run, seen from one sender, to that sender's own steps. */
module ProcessorSpec {
  import opened Bytes
  import opened Crypto
  import opened Options
  import opened TickStamp
  import opened Wire
  import opened ConsumerSpec

  const MAX_BLE_CONSUMERS := 2
  const MAX_PROCESSING_QUEUE_ELEMENTS := 100

  /** A frame waiting in the processor's queue. */
  datatype Received = Received(address: Address, frame: seq<byte>)

  /** A zero address marks a free entry; `active` counts the entries in use. */
  datatype Table = Table(arr: seq<Consumer>, active: nat)

  datatype Tagged = Tagged(address: Address, event: Event)

  predicate AllWellFormed(arr: seq<Consumer>) {
    forall i :: 0 <= i < |arr| ==> WellFormed(arr[i])
  }

  predicate Distinct(arr: seq<Consumer>) {
    forall i, j :: 0 <= i < j < |arr| && arr[i].address != ZERO_ADDRESS ==> arr[i].address != arr[j].address
  }

  /** Non-zero addresses occur once. */
  predicate TableOk(t: Table) {
    AllWellFormed(t.arr) && Distinct(t.arr)
  }

  function FreshTable(size: nat, cacheSize: nat): Table {
    Table(seq(size, _ => FreshConsumer(cacheSize)), 0)
  }

  /** First entry with this address, or the number of entries. */
  function Find(arr: seq<Consumer>, address: Address): (i: nat)
    ensures i <= |arr|
    ensures i < |arr| ==> arr[i].address == address
    ensures forall j :: 0 <= j < i ==> arr[j].address != address
  {
    if arr == [] then 0 else if arr[0].address == address then 0 else 1 + Find(arr[1..], address)
  }

  /** A newly admitted sender. */
  function Admitted(c: Consumer, address: Address, now: nat): Consumer {
    Reset(c).(address := address, stamp := Save(FRESH, now))
  }

  /** A full queue loses the frame. */
  function Enqueue(queue: seq<Received>, r: Received): seq<Received> {
    if |queue| < MAX_PROCESSING_QUEUE_ELEMENTS then queue + [r] else queue
  }

  /** The entries with entry `i` marked as used now. */
  function Stamped(arr: seq<Consumer>, i: nat, now: nat): (r: seq<Consumer>)
    requires i < |arr|
    ensures |r| == |arr| && (AllWellFormed(arr) ==> AllWellFormed(r))
  {
    arr[i := arr[i].(stamp := Save(arr[i].stamp, now))]
  }

  /** The callback's effect on the table: none for an unknown sender. */
  function StoreKeyFor(t: Table, address: Address, id: byte, key: Key, now: nat): (u: Table)
    requires AllWellFormed(t.arr)
    ensures AllWellFormed(u.arr) && |u.arr| == |t.arr|
  {
    var i := Find(t.arr, address);
    if i == |t.arr| then t
    else
      var arr := Stamped(t.arr, i, now);
      t.(arr := arr[i := CompleteKey(arr[i], id, key, now)])
  }

  /** The entry a frame from `address` is handled by: its own, else a free one if the table has
      room, else none. Looking up and admitting both stamp the entry. */
  function Acquire(t: Table, address: Address, now: nat): (r: (Table, Option<nat>))
    requires AllWellFormed(t.arr)
    ensures AllWellFormed(r.0.arr) && |r.0.arr| == |t.arr|
    ensures r.1.Some? ==> r.1.value < |t.arr| && r.0.arr[r.1.value].address == address
  {
    var i := Find(t.arr, address);
    if i < |t.arr| then (t.(arr := Stamped(t.arr, i, now)), Some(i))
    else
      var free := Find(t.arr, ZERO_ADDRESS);
      if t.active < MAX_BLE_CONSUMERS && t.active < |t.arr| && free < |t.arr| then
        (Table(t.arr[free := Admitted(t.arr[free], address, now)], t.active + 1), Some(free))
      else (t, None)
  }

  function TagAll(address: Address, events: seq<Event>): (tagged: seq<Tagged>)
    ensures |tagged| == |events|
    ensures forall i :: 0 <= i < |events| ==> tagged[i] == Tagged(address, events[i])
  {
    seq(|events|, i requires 0 <= i < |events| => Tagged(address, events[i]))
  }

  /** A step of the processor. Frames and keys name the sender they are for; a drain event visits
      every entry with a pending request. */
  datatype Step =
    | OnFrame(address: Address, reading: Reading, at: nat)
    | OnKey(address: Address, id: byte, key: Key, at: nat)
    | OnDrain(at: nat)

  function DrainAll(arr: seq<Consumer>, now: nat): (r: (seq<Consumer>, seq<Tagged>))
    requires AllWellFormed(arr)
    ensures AllWellFormed(r.0) && |r.0| == |arr|
    decreases |arr|
  {
    if arr == [] then ([], [])
    else
      var n := |arr| - 1;
      var (init, before) := DrainAll(arr[..n], now);
      var (last, events) := Drain(arr[n], now);
      (init + [last], before + TagAll(arr[n].address, events))
  }

  lemma {:induction false} DrainAllAt(arr: seq<Consumer>, now: nat)
    requires AllWellFormed(arr)
    ensures var r := DrainAll(arr, now).0;
      forall i :: 0 <= i < |arr| ==> r[i] == Drain(arr[i], now).0
    decreases |arr|
  {
    hide Drain;
    if arr != [] {
      DrainAllAt(arr[..|arr| - 1], now);
    }
  }

  /** A frame's effect: none if its sender cannot be admitted. */
  function FrameFor(t: Table, address: Address, reading: Reading, now: nat): (r: (Table, seq<Tagged>))
    requires AllWellFormed(t.arr)
    ensures AllWellFormed(r.0.arr) && |r.0.arr| == |t.arr|
  {
    var (u, index) := Acquire(t, address, now);
    if index.None? then (u, [])
    else
      var (c, events) := HandleReading(u.arr[index.value], reading, now);
      (u.(arr := u.arr[index.value := c]), TagAll(address, events))
  }

  function Exec(t: Table, s: Step): (r: (Table, seq<Tagged>))
    requires AllWellFormed(t.arr)
    ensures AllWellFormed(r.0.arr) && |r.0.arr| == |t.arr|
  {
    match s
    case OnFrame(address, reading, at) => FrameFor(t, address, reading, at)
    case OnKey(address, id, key, at) => (StoreKeyFor(t, address, id, key, at), [])
    case OnDrain(at) =>
      var (arr, events) := DrainAll(t.arr, at);
      (t.(arr := arr), events)
  }

  function Run(t: Table, steps: seq<Step>): (r: (Table, seq<Tagged>))
    requires AllWellFormed(t.arr)
    ensures AllWellFormed(r.0.arr) && |r.0.arr| == |t.arr|
    decreases |steps|
  {
    if steps == [] then (t, [])
    else
      var (u, events) := Exec(t, steps[0]);
      var (v, more) := Run(u, steps[1..]);
      (v, events + more)
  }

  lemma RunOne(t: Table, s: Step)
    requires AllWellFormed(t.arr)
    ensures Run(t, [s]) == Exec(t, s)
  {
    hide Exec;
    var (u, events) := Exec(t, s);
    assert [s][1..] == [] && events + [] == events;
    assert Run(u, []) == (u, []);
  }

  lemma {:induction false} RunConcat(t: Table, steps: seq<Step>, more: seq<Step>)
    requires AllWellFormed(t.arr)
    ensures var (u, events) := Run(t, steps);
      var (v, others) := Run(u, more);
      Run(t, steps + more) == (v, events + others)
    decreases |steps|
  {
    hide Exec;
    if steps == [] {
      assert steps + more == more && [] + Run(t, more).1 == Run(t, more).1;
    } else {
      assert (steps + more)[1..] == steps[1..] + more;
      var (u, events) := Exec(t, steps[0]);
      RunConcat(u, steps[1..], more);
      var (v, mid) := Run(u, steps[1..]);
      assert events + (mid + Run(v, more).1) == (events + mid) + Run(v, more).1;
    }
  }

  lemma RunSnoc(t: Table, steps: seq<Step>, s: Step)
    requires AllWellFormed(t.arr)
    ensures var (u, events) := Run(t, steps);
      var (v, own) := Exec(u, s);
      Run(t, steps + [s]) == (v, events + own)
  {
    RunConcat(t, steps, [s]);
    RunOne(Run(t, steps).0, s);
    hide Run, Exec;
  }

  /** Whether the drain event is raised again after a drain event. */
  predicate AnyPending(arr: seq<Consumer>) {
    exists i :: 0 <= i < |arr| && arr[i].pending
  }

  // ---- One sender's view -----------------------------------------------------------------------

  function EntryOf(t: Table, address: Address): Option<Consumer> {
    var i := Find(t.arr, address);
    if i < |t.arr| then Some(t.arr[i]) else None
  }

  function EventsOf(events: seq<Tagged>, address: Address): seq<Event> {
    if events == [] then []
    else (if events[0].address == address then [events[0].event] else []) + EventsOf(events[1..], address)
  }

  lemma {:induction false} EventsOfConcat(a: seq<Tagged>, b: seq<Tagged>, address: Address)
    ensures EventsOf(a + b, address) == EventsOf(a, address) + EventsOf(b, address)
  {
    if a == [] {
      assert a + b == b;
    } else {
      assert (a + b)[1..] == a[1..] + b;
      EventsOfConcat(a[1..], b, address);
      var head := if a[0].address == address then [a[0].event] else [];
      assert EventsOf(a + b, address) == head + (EventsOf(a[1..], address) + EventsOf(b, address));
    }
  }

  lemma {:induction false} EventsOfTag(from: Address, events: seq<Event>, address: Address)
    ensures EventsOf(TagAll(from, events), address) == if from == address then events else []
  {
    if events != [] {
      assert TagAll(from, events)[1..] == TagAll(from, events[1..]);
      EventsOfTag(from, events[1..], address);
    }
  }

  /** What one step of the table is for one sender: its own steps, and every drain event. */
  function OwnStep(s: Step, address: Address): seq<ConsumerStep> {
    match s
    case OnFrame(a, reading, at) => if a == address then [FrameStep(reading, at)] else []
    case OnKey(a, id, key, at) => if a == address then [KeyStep(id, key, at)] else []
    case OnDrain(at) => [DrainStep(at)]
  }

  function OwnSteps(steps: seq<Step>, address: Address): seq<ConsumerStep> {
    if steps == [] then [] else OwnStep(steps[0], address) + OwnSteps(steps[1..], address)
  }

  /** Overwriting an entry that neither had nor gets `address` does not disturb the search. */
  lemma FindOther(arr: seq<Consumer>, i: nat, c: Consumer, address: Address)
    requires i < |arr| && arr[i].address != address && c.address != address
    ensures Find(arr[i := c], address) == Find(arr, address)
  {
    var arr' := arr[i := c];
    var k, k' := Find(arr, address), Find(arr', address);
    assert k < |arr| ==> arr'[k].address == address;
    assert k' < |arr| ==> arr[k'].address == address;
  }

  lemma FindSame(arr: seq<Consumer>, arr': seq<Consumer>, address: Address)
    requires |arr| == |arr'| && forall i :: 0 <= i < |arr| ==> arr'[i].address == arr[i].address
    ensures Find(arr', address) == Find(arr, address)
  {
    var k, k' := Find(arr, address), Find(arr', address);
    assert k < |arr| ==> arr'[k].address == address;
    assert k' < |arr| ==> arr[k'].address == address;
  }

  lemma FindDistinct(arr: seq<Consumer>, i: nat)
    requires Distinct(arr) && i < |arr| && arr[i].address != ZERO_ADDRESS
    ensures Find(arr, arr[i].address) == i
  {}

  lemma {:induction false} DrainAllEvents(arr: seq<Consumer>, now: nat, address: Address)
    requires AllWellFormed(arr) && Distinct(arr) && address != ZERO_ADDRESS
    ensures var events := EventsOf(DrainAll(arr, now).1, address);
      var i := Find(arr, address);
      events == if i < |arr| then Drain(arr[i], now).1 else []
    decreases |arr|
  {
    hide Drain, Find, TagAll, EventsOf;
    if arr == [] {
      NoEvents(address);
    } else {
      var n := |arr| - 1;
      DrainAllEvents(arr[..n], now, address);
      EventsOfConcat(DrainAll(arr[..n], now).1, TagAll(arr[n].address, Drain(arr[n], now).1), address);
      EventsOfTag(arr[n].address, Drain(arr[n], now).1, address);
      FindInit(arr, address);
    }
  }

  lemma NoEvents(address: Address)
    ensures EventsOf([], address) == []
  {}

  lemma FindInit(arr: seq<Consumer>, address: Address)
    requires arr != [] && Distinct(arr) && address != ZERO_ADDRESS
    ensures var n := |arr| - 1;
      Find(arr[..n], address) == if Find(arr, address) < n then Find(arr, address) else n
  {
    var n := |arr| - 1;
    var k, k' := Find(arr, address), Find(arr[..n], address);
    assert k < n ==> arr[..n][k].address == address;
    assert k' < n ==> arr[k'].address == address;
  }

  /** A step never leaves two entries with one non-zero address. */
  lemma ExecKeepsOk(t: Table, s: Step)
    requires TableOk(t)
    ensures TableOk(Exec(t, s).0)
  {
    hide HandleReading, Drain, CompleteKey;
    if s.OnDrain? { DrainAllAt(t.arr, s.at); }
  }

  lemma FrameAdmitted(t: Table, s: Step, address: Address)
    requires TableOk(t) && s.OnFrame?
    requires address != ZERO_ADDRESS && EntryOf(t, address).Some?
    ensures var (u, events) := Exec(t, s);
      var c := EntryOf(t, address).value;
      if s.address == address then
        var (d, own) := Advance(c, FrameStep(s.reading, s.at));
        EntryOf(u, address) == Some(d) && EventsOf(events, address) == own
      else EntryOf(u, address) == Some(c) && EventsOf(events, address) == []
  {
    hide HandleReading;
    var u := Exec(t, s).0;
    var (v, index) := Acquire(t, s.address, s.at);
    if index.Some? {
      EventsOfTag(s.address, HandleReading(v.arr[index.value], s.reading, s.at).1, address);
      assert u.arr == t.arr[index.value := u.arr[index.value]];
      if s.address != address { FindOther(t.arr, index.value, u.arr[index.value], address); }
      else { FindSame(t.arr, u.arr, address); }
    }
  }

  lemma KeyAdmitted(t: Table, s: Step, address: Address)
    requires TableOk(t) && s.OnKey?
    requires address != ZERO_ADDRESS && EntryOf(t, address).Some?
    ensures var (u, events) := Exec(t, s);
      var c := EntryOf(t, address).value;
      && events == []
      && EntryOf(u, address) ==
           Some(if s.address == address then Advance(c, KeyStep(s.id, s.key, s.at)).0 else c)
  {
    hide CompleteKey;
    var u := Exec(t, s).0;
    var k := Find(t.arr, s.address);
    if k < |t.arr| {
      assert u.arr == t.arr[k := u.arr[k]];
      if s.address != address { FindOther(t.arr, k, u.arr[k], address); } else { FindSame(t.arr, u.arr, address); }
    }
  }

  lemma DrainAdmitted(t: Table, s: Step, address: Address)
    requires TableOk(t) && s.OnDrain?
    requires address != ZERO_ADDRESS && EntryOf(t, address).Some?
    ensures var (u, events) := Exec(t, s);
      var (d, own) := Advance(EntryOf(t, address).value, DrainStep(s.at));
      EntryOf(u, address) == Some(d) && EventsOf(events, address) == own
  {
    hide Drain;
    DrainAllEvents(t.arr, s.at, address);
    DrainAllAt(t.arr, s.at);
    FindSame(t.arr, Exec(t, s).0.arr, address);
  }

  /** A step, seen from an admitted sender, is its own step or nothing. */
  lemma ExecAdmitted(t: Table, s: Step, address: Address)
    requires TableOk(t) && address != ZERO_ADDRESS && EntryOf(t, address).Some?
    ensures var (u, events) := Exec(t, s);
      var (c, own) := OwnEffect(EntryOf(t, address).value, s, address);
      EntryOf(u, address) == Some(c) && EventsOf(events, address) == own
  {
    match s
    case OnFrame(_, _, _) => FrameAdmitted(t, s, address);
    case OnKey(_, _, _, _) => KeyAdmitted(t, s, address);
    case OnDrain(_) => DrainAdmitted(t, s, address);
  }

  /** The state and events of a sender whose frame has just been given entry `i`. */
  ghost predicate AdmittedBy(t: Table, i: nat, s: Step, u: Table, own: seq<Event>)
    requires AllWellFormed(t.arr) && s.OnFrame? && i < |t.arr|
  {
    var c := Admitted(t.arr[i], s.address, s.at);
    WellFormed(c) && (EntryOf(u, s.address), own) ==
      (Some(HandleReading(c, s.reading, s.at).0), HandleReading(c, s.reading, s.at).1)
  }

  lemma FrameNewcomer(t: Table, s: Step)
    requires TableOk(t) && s.OnFrame?
    requires s.address != ZERO_ADDRESS && EntryOf(t, s.address).None?
    ensures var (u, events) := Exec(t, s);
      || (u == t && events == [])
      || exists i :: 0 <= i < |t.arr| && AdmittedBy(t, i, s, u, EventsOf(events, s.address))
  {
    hide HandleReading;
    var (u, events) := Exec(t, s);
    var (v, index) := Acquire(t, s.address, s.at);
    if index.Some? {
      var i := index.value;
      EventsOfTag(s.address, HandleReading(v.arr[i], s.reading, s.at).1, s.address);
      assert u.arr[i].address == s.address;
      ExecKeepsOk(t, s);
      FindDistinct(u.arr, i);
      assert AdmittedBy(t, i, s, u, EventsOf(events, s.address));
    }
  }

  /** A sender without an entry is silent until a frame of its own admits it. */
  lemma ExecNewcomer(t: Table, s: Step, address: Address)
    requires TableOk(t) && address != ZERO_ADDRESS && EntryOf(t, address).None?
    ensures var (u, events) := Exec(t, s);
      || (EntryOf(u, address).None? && EventsOf(events, address) == [])
      || (s.OnFrame? && s.address == address
          && exists i :: 0 <= i < |t.arr| && AdmittedBy(t, i, s, u, EventsOf(events, address)))
  {
    hide HandleReading, Drain, CompleteKey;
    var u := Exec(t, s).0;
    match s
    case OnFrame(a, reading, at) =>
      if a == address {
        FrameNewcomer(t, s);
      } else {
        var (v, index) := Acquire(t, a, at);
        if index.Some? {
          EventsOfTag(a, HandleReading(v.arr[index.value], reading, at).1, address);
          assert u.arr == t.arr[index.value := u.arr[index.value]];
          FindOther(t.arr, index.value, u.arr[index.value], address);
        }
      }
    case OnKey(a, id, key, at) =>
      var k := Find(t.arr, a);
      if k < |t.arr| {
        assert u.arr == t.arr[k := u.arr[k]];
        FindOther(t.arr, k, u.arr[k], address);
      }
    case OnDrain(at) =>
      DrainAllEvents(t.arr, at, address);
      DrainAllAt(t.arr, at);
      FindSame(t.arr, u.arr, address);
  }

  /** What its part of a step, if any, does to a sender. */
  function OwnEffect(c: Consumer, s: Step, address: Address): (r: (Consumer, seq<Event>))
    requires WellFormed(c)
    ensures WellFormed(r.0)
  {
    var own := OwnStep(s, address);
    if own == [] then (c, []) else Advance(c, own[0])
  }

  /** A sender's own run begins with its part of the first step. */
  lemma FirstOwn(c: Consumer, steps: seq<Step>, address: Address)
    requires WellFormed(c) && steps != []
    ensures var (d, events) := OwnEffect(c, steps[0], address);
      var (e, more) := RunConsumer(d, OwnSteps(steps[1..], address));
      RunConsumer(c, OwnSteps(steps, address)) == (e, events + more)
  {
    var own, first := OwnSteps(steps, address), OwnStep(steps[0], address);
    hide Advance;
    if first == [] {
      assert own == OwnSteps(steps[1..], address);
      var more := RunConsumer(c, own).1;
      assert [] + more == more;
    } else {
      assert own[0] == first[0] && own[1..] == OwnSteps(steps[1..], address);
    }
  }

  /** Isolation: from any table, whatever the other senders' frames and keys and however they are
      interleaved, an admitted sender ends with the state and the events of a run of its own steps
      alone. */
  lemma {:induction false} SenderIsolation(t: Table, steps: seq<Step>, address: Address)
    requires TableOk(t)
    requires address != ZERO_ADDRESS && EntryOf(t, address).Some?
    ensures var (u, events) := Run(t, steps);
      var (c, own) := RunConsumer(EntryOf(t, address).value, OwnSteps(steps, address));
      TableOk(u) && EntryOf(u, address) == Some(c) && EventsOf(events, address) == own
    decreases |steps|
  {
    hide Exec, OwnEffect;
    if steps != [] {
      assert AllWellFormed(t.arr) && WellFormed(EntryOf(t, address).value);
      hide OwnSteps, TableOk;
      var (u, events) := Exec(t, steps[0]);
      ExecKeepsOk(t, steps[0]);
      ExecAdmitted(t, steps[0], address);
      SenderIsolation(u, steps[1..], address);
      EventsOfConcat(events, Run(u, steps[1..]).1, address);
      FirstOwn(EntryOf(t, address).value, steps, address);
    }
  }
}
