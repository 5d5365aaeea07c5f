/** The system with prompt tasks: each frame is processed, the fragment it may pass on consumed, and the
    drain event raised, before the next frame. For one sender this is what `DeliveryTheorems.Hear` says. */
module PromptSystem {
  import opened Bytes
  import opened Crypto
  import opened Options
  import opened Wire
  import Keys = KeyCacheSpec
  import opened BroadcasterSpec
  import opened ConsumerSpec
  import opened ConsumerTheorems
  import opened ProcessorSpec
  import opened PowerUp
  import Rebuild = ReconstructorSpec
  import opened ReconstructorTheorems
  import opened DeliveryTheorems
  import opened SystemSpec
  import SystemTheorems

  // ---- Drain events --------------------------------------------------------------------------------------

  /** No other entry has a drain due. */
  predicate OthersIdle(arr: seq<Consumer>, i: nat) {
    forall j :: 0 <= j < |arr| && j != i ==> !arr[j].pending
  }

  lemma {:induction false} DrainIsOwn(arr: seq<Consumer>, i: nat, now: nat)
    requires AllWellFormed(arr) && i < |arr| && OthersIdle(arr, i)
    ensures DrainAll(arr, now) == (arr[i := Drain(arr[i], now).0], TagAll(arr[i].address, Drain(arr[i], now).1))
    decreases |arr|
  {
    var n := |arr| - 1;
    hide ProcessDeferred;
    var (init, before) := DrainAll(arr[..n], now);
    if i < n {
      DrainIsOwn(arr[..n], i, now);
      assert before + TagAll(arr[n].address, []) == before;
      assert init + [arr[n]] == arr[i := Drain(arr[i], now).0];
    } else {
      NoneDrain(arr[..n], now);
      assert [] + TagAll(arr[n].address, Drain(arr[n], now).1) == TagAll(arr[n].address, Drain(arr[n], now).1);
      assert arr[..n] + [Drain(arr[n], now).0] == arr[n := Drain(arr[n], now).0];
    }
  }

  lemma {:induction false} NoneDrain(arr: seq<Consumer>, now: nat)
    requires AllWellFormed(arr) && forall j :: 0 <= j < |arr| ==> !arr[j].pending
    ensures DrainAll(arr, now) == (arr, [])
    decreases |arr|
  {
    if arr != [] {
      var n := |arr| - 1;
      NoneDrain(arr[..n], now);
      assert Drain(arr[n], now) == (arr[n], []);
      assert arr[..n] + [arr[n]] == arr && [] + TagAll(arr[n].address, []) == [];
    }
  }

  function DrainMoves(n: nat, at: nat): seq<Move> {
    seq(n, _ => DrainDeferred(at))
  }

  /** The system after sender `i`'s record has become `c`, with some more in the trace. */
  function With(s: System, i: nat, c: Consumer, events: seq<Event>): System
    requires i < |s.table.arr|
  {
    s.(table := s.table.(arr := s.table.arr[i := c]), trace := s.trace + TagAll(s.table.arr[i].address, events))
  }

  lemma WithMore(s: System, i: nat, c: Consumer, events: seq<Event>, d: Consumer, more: seq<Event>)
    requires i < |s.table.arr| && c.address == s.table.arr[i].address
    ensures With(With(s, i, c, events), i, d, more) == With(s, i, d, events + more)
    ensures With(s, i, s.table.arr[i], []) == s
  {
    var address := c.address;
    assert s.table.arr[i := c][i := d] == s.table.arr[i := d] && s.table.arr[i := s.table.arr[i]] == s.table.arr;
    assert TagAll(address, events + more) == TagAll(address, events) + TagAll(address, more);
    assert s.trace + TagAll(address, []) == s.trace;
    Regroup(s.trace, TagAll(address, events), TagAll(address, more));
  }

  lemma PlayDrain(p: Params, s: System, i: nat, at: nat)
    requires AllWellFormed(s.table.arr) && i < |s.table.arr| && OthersIdle(s.table.arr, i) && p.replaceAfter > 0
    ensures Enabled(p, s, DrainDeferred(at))
    ensures var (d, events) := Drain(s.table.arr[i], at);
      Next(p, s, DrainDeferred(at)) == With(s, i, d, events) && OthersIdle(With(s, i, d, events).table.arr, i)
  {
    DrainIsOwn(s.table.arr, i, at);
    hide Drain, DrainAll;
  }

  lemma {:induction false} PlayDrains(p: Params, s: System, i: nat, n: nat, at: nat)
    requires AllWellFormed(s.table.arr) && i < |s.table.arr| && OthersIdle(s.table.arr, i) && p.replaceAfter > 0
    ensures var (d, events) := RunConsumer(s.table.arr[i], Drains(n, at));
      && Possible(p, s, DrainMoves(n, at))
      && Play(p, s, DrainMoves(n, at)) == With(s, i, d, events) && OthersIdle(With(s, i, d, events).table.arr, i)
    decreases n
  {
    var c := s.table.arr[i];
    if n == 0 {
      WithMore(s, i, c, [], c, []);
      hide With;
    } else {
      var moves, steps := DrainMoves(n, at), Drains(n, at);
      assert moves[0] == DrainDeferred(at) && moves[1..] == DrainMoves(n - 1, at);
      assert steps[0] == DrainStep(at) && steps[1..] == Drains(n - 1, at);
      PlayDrain(p, s, i, at);
      var (d, events) := Drain(c, at);
      var t := With(s, i, d, events);
      assert t.table.arr[i] == d && |t.table.arr| == |s.table.arr|;
      assert Advance(c, steps[0]) == (d, events);
      hide Drain, Next, Enabled, OthersIdle, With, Advance, Drains, DrainMoves;
      PlayDrains(p, t, i, n - 1, at);
      var (e, more) := RunConsumer(d, Drains(n - 1, at));
      WithMore(s, i, d, events, e, more);
    }
  }

  // ---- One frame -----------------------------------------------------------------------------------------

  /** The collection holds nothing but what has been gathered of one session. */
  ghost predicate Gathers(km: seq<Rebuild.Entry>, gathered: Rebuild.Collected, pair: Rebuild.Pair) {
    Rebuild.Inv(km) && |km| > 0 && Rebuild.View(km).Keys <= {pair} && Held(Rebuild.View(km), pair) == gathered
  }

  /** Where the observer stands that has heard of one sender only: its record is entry `i`. */
  ghost predicate Stands(s: System, i: nat, pair: Rebuild.Pair, c: Consumer, gathered: Rebuild.Collected,
                     queue: seq<Received>, fragments: seq<Rebuild.Element>, trace: seq<Tagged>) {
    && AllWellFormed(s.table.arr) && i < |s.table.arr| && s.table.arr[i] == c
    && Find(s.table.arr, pair.address) == i && OthersIdle(s.table.arr, i)
    && Gathers(s.km, gathered, pair)
    && s.queue == queue && s.fragments == fragments && s.trace == trace
  }

  /** A fragment the collection has no use for would have changed nothing. */
  lemma UselessFragment(prims: Primitives, km: seq<Rebuild.Entry>, e: Rebuild.Element)
    requires Rebuild.Inv(km) && Low(e.keyId) != 0 && !Rebuild.Complete(Held(Rebuild.View(km), Rebuild.PairOf(e)))
    ensures !Rebuild.IsKeyAvailable(km, e.address, Low(e.keyId))
    ensures Rebuild.IsFragmentDecrypted(km, e.address, Low(e.keyId), e.index) ==>
      AloneStep(prims, Held(Rebuild.View(km), Rebuild.PairOf(e)), e) == (Held(Rebuild.View(km), Rebuild.PairOf(e)), None)
  {
    hide OpenFragment;
    Rebuild.InView(km, Rebuild.PairOf(e));
    hide Rebuild.View;
  }

  /** Consuming a fragment of the one session there is. */
  lemma ConsumeAlone(prims: Primitives, km: seq<Rebuild.Entry>, e: Rebuild.Element)
    requires Rebuild.Inv(km) && |km| > 0 && Low(e.keyId) != 0 && Rebuild.View(km).Keys <= {Rebuild.PairOf(e)}
    ensures var (after, fired) := Rebuild.Consume(prims, km, e);
      var pair := Rebuild.PairOf(e);
      && Rebuild.Inv(after) && Rebuild.View(after).Keys <= {pair}
      && (Held(Rebuild.View(after), pair), fired) == AloneStep(prims, Held(Rebuild.View(km), pair), e)
  {
    var m, pair := Rebuild.View(km), Rebuild.PairOf(e);
    Rebuild.ConsumeRefinesMap(prims, km, e);
    hide Rebuild.Consume, Rebuild.View, Rebuild.Inv;
    if pair !in m {
      assert m.Keys == {};
      assert |m| == |m.Keys|;
    }
    MapStepAlone(prims, m, |km|, e, pair);
  }

  lemma Requested(km: seq<Rebuild.Entry>, address: Address, c: Consumer, reading: Reading, at: nat)
    requires WellFormed(c)
    ensures var events := Advance(c, FrameStep(reading, at)).1;
      Request(km, [], TagAll(address, events)) ==
        if reading.ReadFragment? && events != [] then Rebuild.QueueFragment(km, [], Rebuild.ElementOf(address, reading.fragment)) else []
  {
    var events := Advance(c, FrameStep(reading, at)).1;
    hide Keys.Touch, Keys.Lookup, Rebuild.QueueFragment, Rebuild.ElementOf;
    if reading.ReadFragment? && events != [] {
      assert events == [FragmentWanted(reading.fragment)];
      SystemTheorems.RequestOne(km, [], address, reading.fragment);
      assert TagAll(address, events) == [Tagged(address, FragmentWanted(reading.fragment))];
    } else {
      assert forall e :: e in TagAll(address, events) ==> !e.event.FragmentWanted?;
      SystemTheorems.NothingRequested(km, [], TagAll(address, events));
    }
  }

  lemma ConsumesHead(p: Params, s: System, e: Rebuild.Element, at: nat)
    requires AllWellFormed(s.table.arr) && (s.fragments == [] || s.fragments == [e]) && p.replaceAfter > 0
    ensures Enabled(p, s, ProcessFragment(at))
    ensures var t := Next(p, s, ProcessFragment(at));
      var (km, fired) := Rebuild.Consume(p.prims, s.km, e);
      if s.fragments == [] then t == s
      else
        && t.fragments == [] && t.km == km && t.queue == s.queue && t.trace == s.trace
        && t.table == if fired.None? then s.table else StoreKeyFor(s.table, e.address, Low(e.keyId), fired.value, at)
  {
    hide Rebuild.Consume, StoreKeyFor, Low;
    if s.fragments == [e] { assert [e][1..] == []; }
  }

  lemma KeyMove(t: Table, i: nat, address: Address, id: byte, key: Key, at: nat)
    requires AllWellFormed(t.arr) && i < |t.arr| && Find(t.arr, address) == i
    ensures StoreKeyFor(t, address, id, key, at) == t.(arr := t.arr[i := Advance(t.arr[i], KeyStep(id, key, at)).0])
  {
    KnownStep(t, i, address, KeyStep(id, key, at));
    hide CompleteKey;
  }

  lemma OthersStayIdle(arr: seq<Consumer>, i: nat, c: Consumer, address: Address)
    requires AllWellFormed(arr) && i < |arr| && OthersIdle(arr, i) && Find(arr, address) == i && WellFormed(c) && c.address == address
    ensures AllWellFormed(arr[i := c]) && OthersIdle(arr[i := c], i) && Find(arr[i := c], address) == i
  {
    FindSame(arr, arr[i := c], address);
  }

  /** Processing the frame at the head. */
  lemma AtFrame(p: Params, s: System, i: nat, pair: Rebuild.Pair, c: Consumer, gathered: Rebuild.Collected, x: Received,
                rest: seq<Received>, trace: seq<Tagged>, at: nat)
    requires Stands(s, i, pair, c, gathered, [x] + rest, [], trace) && x.address == pair.address && WellSized(x.frame)
    requires p.replaceAfter > 0
    ensures Enabled(p, s, ProcessPdu(at)) && WellFormed(c)
    ensures var t := Next(p, s, ProcessPdu(at));
      var (d, events) := Advance(c, FrameStep(Read(x.frame), at));
      Stands(t, i, pair, d, gathered, rest, Request(s.km, [], TagAll(pair.address, events)), trace + TagAll(pair.address, events))
      && t.km == s.km
  {
    hide FrameFor, Read, Request, Gathers, Advance, Find, OthersIdle;
    var step := FrameStep(Read(x.frame), at);
    KnownStep(s.table, i, pair.address, step);
    assert ([x] + rest)[1..] == rest && s.queue[0] == x;
    OthersStayIdle(s.table.arr, i, Advance(c, step).0, pair.address);
  }

  /** Consuming the fragment that has been offered to the reconstructor. */
  lemma AtFragment(p: Params, s: System, i: nat, pair: Rebuild.Pair, c: Consumer, gathered: Rebuild.Collected, queue: seq<Received>,
                   e: Rebuild.Element, trace: seq<Tagged>, at: nat)
    requires Stands(s, i, pair, c, gathered, queue, Rebuild.QueueFragment(s.km, [], e), trace)
    requires Rebuild.PairOf(e) == pair && pair.id != 0 && !Rebuild.Complete(gathered) && p.replaceAfter > 0
    ensures Enabled(p, s, ProcessFragment(at)) && WellFormed(c)
    ensures var (after, fired) := AloneStep(p.prims, gathered, e);
      var d := if fired.None? then c else Advance(c, KeyStep(pair.id, fired.value, at)).0;
      Stands(Next(p, s, ProcessFragment(at)), i, pair, d, after, queue, [], trace)
  {
    hide Next, Enabled, Advance, StoreKeyFor, AloneStep, Rebuild.Consume, Rebuild.QueueFragment, Rebuild.Complete, Rebuild.PairOf, Low;
    hide Gathers, Find, OthersIdle;
    QueuedOrUseless(p.prims, s.km, gathered, pair, e);
    ConsumesHead(p, s, e, at);
    if s.fragments == [e] {
      ConsumeGathers(p.prims, s.km, gathered, pair, e);
      var fired := Rebuild.Consume(p.prims, s.km, e).1;
      if fired.Some? {
        KeyMove(s.table, i, pair.address, pair.id, fired.value, at);
        OthersStayIdle(s.table.arr, i, Advance(c, KeyStep(pair.id, fired.value, at)).0, pair.address);
      }
    }
  }

  lemma QueuedOrUseless(prims: Primitives, km: seq<Rebuild.Entry>, gathered: Rebuild.Collected, pair: Rebuild.Pair, e: Rebuild.Element)
    requires Gathers(km, gathered, pair) && Rebuild.PairOf(e) == pair && pair.id != 0 && !Rebuild.Complete(gathered)
    ensures var fragments := Rebuild.QueueFragment(km, [], e);
      fragments == [e] || (fragments == [] && AloneStep(prims, gathered, e) == (gathered, None))
    ensures Low(e.keyId) == pair.id && e.address == pair.address
  {
    UselessFragment(prims, km, e);
    hide Rebuild.IsKeyAvailable, Rebuild.IsFragmentDecrypted, Rebuild.Inv, Rebuild.View, Held, AloneStep, Rebuild.Complete;
  }

  lemma ConsumeGathers(prims: Primitives, km: seq<Rebuild.Entry>, gathered: Rebuild.Collected, pair: Rebuild.Pair, e: Rebuild.Element)
    requires Gathers(km, gathered, pair) && Rebuild.PairOf(e) == pair && pair.id != 0
    ensures var (after, fired) := Rebuild.Consume(prims, km, e);
      var (left, key) := AloneStep(prims, gathered, e);
      fired == key && Gathers(after, left, pair)
  {
    ConsumeAlone(prims, km, e);
    hide Rebuild.Consume, AloneStep, Rebuild.Inv, Rebuild.View, Held;
  }

  lemma AtDrains(p: Params, s: System, i: nat, pair: Rebuild.Pair, c: Consumer, gathered: Rebuild.Collected, queue: seq<Received>,
                 trace: seq<Tagged>, n: nat, at: nat)
    requires Stands(s, i, pair, c, gathered, queue, [], trace) && p.replaceAfter > 0
    ensures WellFormed(c) && Possible(p, s, DrainMoves(n, at))
    ensures var (d, events) := RunConsumer(c, Drains(n, at));
      Stands(Play(p, s, DrainMoves(n, at)), i, pair, d, gathered, queue, [], trace + TagAll(pair.address, events))
  {
    hide Play, Possible, RunConsumer, DrainMoves, Drains, Find, OthersIdle, Gathers;
    PlayDrains(p, s, i, n, at);
    var d := RunConsumer(c, Drains(n, at)).0;
    OthersStayIdle(s.table.arr, i, d, pair.address);
  }

  /** What is done for one frame. */
  function Cycle(at: nat): seq<Move> {
    [ProcessPdu(at)] + ([ProcessFragment(at)] + DrainMoves(Rounds(DEFERRED_QUEUE_SIZE), at))
  }

  predicate Goes(r: Receiver, s: Session) {
    Awaits(r, s) || Flows(r.record, s)
  }

  /** One frame leads to the same whether `Prompt` or the system handles it. */
  lemma PromptGoes(prims: Primitives, r: Receiver, s: Session, reading: Reading, at: nat)
    requires Goes(r, s) && FromSession(prims, r.record.address, s, reading)
    ensures WellFormed(r.record)
    ensures var (q, events) := Prompt(prims, r, reading, at);
      Goes(q, s) && q.record.address == r.record.address && !q.record.pending
    ensures var (d, events) := Advance(r.record, FrameStep(reading, at));
      reading.ReadFragment? && events != [] ==> !Rebuild.Complete(r.gathered)
  {
    if Awaits(r, s) {
      hide FromSession, Adds, Advance, Prompt;
      if {0, 1, 2, 3} <= r.gathered.Keys + Adds(prims, r.record.address, reading) {
        PromptCompletes(prims, r, s, reading, at);
      } else {
        PromptWaits(prims, r, s, reading, at);
      }
    } else {
      PromptFlows(prims, r, s, reading, at);
      hide Keys.Touch, Prompt, Low;
    }
  }

  lemma PlayThree(p: Params, s: System, one: Move, two: Move, rest: seq<Move>)
    requires AllWellFormed(s.table.arr) && Enabled(p, s, one) && Enabled(p, Next(p, s, one), two)
    requires Possible(p, Next(p, Next(p, s, one), two), rest)
    ensures var moves := [one] + ([two] + rest);
      Possible(p, s, moves) && Play(p, s, moves) == Play(p, Next(p, Next(p, s, one), two), rest)
  {
    hide Next, Enabled;
    var t := Next(p, s, one);
    SystemTheorems.PlayOne(p, s, one);
    SystemTheorems.PlayOne(p, t, two);
    SystemTheorems.PlayConcat(p, t, [two], rest);
    SystemTheorems.PlayConcat(p, s, [one], [two] + rest);
  }

  /** What `Prompt` makes of a frame, said by cases. */
  lemma PromptCases(prims: Primitives, r: Receiver, reading: Reading, at: nat)
    requires WellFormed(r.record)
    ensures var (d, events) := Advance(r.record, FrameStep(reading, at));
      var out := Prompt(prims, r, reading, at);
      if reading.ReadFragment? && events != [] then
        var e := Rebuild.ElementOf(r.record.address, reading.fragment);
        var (gathered, fired) := AloneStep(prims, r.gathered, e);
        if fired.None? then out == (Receiver(d, gathered), events)
        else
          var stored := Advance(d, KeyStep(Low(e.keyId), fired.value, at)).0;
          var (f, more) := RunConsumer(stored, Drains(Rounds(DEFERRED_QUEUE_SIZE), at));
          out == (Receiver(f, gathered), events + more)
      else out == (r.(record := d), events)
  {
    hide Advance, AloneStep, RunConsumer, Drains, Rebuild.ElementOf, Low;
  }

  /** What is left of a cycle after the frame itself. */
  lemma RestOfCycle(p: Params, s: System, i: nat, r: Receiver, ss: Session, pair: Rebuild.Pair, reading: Reading,
                    queue: seq<Received>, trace: seq<Tagged>, at: nat)
    requires Goes(r, ss) && pair == Rebuild.Pair(r.record.address, Low(ss.keyId)) && p.replaceAfter > 0
    requires FromSession(p.prims, pair.address, ss, reading) && WellFormed(r.record)
    requires var (d, events) := Advance(r.record, FrameStep(reading, at));
      && Stands(s, i, pair, d, r.gathered, queue, s.fragments, trace)
      && s.fragments == if reading.ReadFragment? && events != []
                        then Rebuild.QueueFragment(s.km, [], Rebuild.ElementOf(pair.address, reading.fragment)) else []
    ensures Enabled(p, s, ProcessFragment(at))
    ensures var (q, events) := Prompt(p.prims, r, reading, at);
      var first := Advance(r.record, FrameStep(reading, at)).1;
      var t := Next(p, s, ProcessFragment(at));
      && |first| <= |events| && Possible(p, t, DrainMoves(Rounds(DEFERRED_QUEUE_SIZE), at))
      && events == first + events[|first|..]
      && Stands(Play(p, t, DrainMoves(Rounds(DEFERRED_QUEUE_SIZE), at)), i, pair, q.record, q.gathered, queue, [],
            trace + TagAll(pair.address, events[|first|..]))
  {
    hide Advance, AloneStep, FromSession, Goes, Awaits, Flows, Stands, Next, Enabled, RunConsumer, Prompt, Rebuild.Complete, Rebuild.QueueFragment;
    hide Low, Rebuild.ElementOf;
    var (d, first) := Advance(r.record, FrameStep(reading, at));
    var n := Rounds(DEFERRED_QUEUE_SIZE);
    PromptGoes(p.prims, r, ss, reading, at);
    PromptCases(p.prims, r, reading, at);
    GoesNonZero(r, ss);
    StandsWell(s, i, pair, d, r.gathered, queue, s.fragments, trace);
    More(first, []);
    if reading.ReadFragment? && first != [] {
      var e := Rebuild.ElementOf(pair.address, reading.fragment);
      SessionPair(p.prims, pair.address, ss, reading);
      AtFragment(p, s, i, pair, d, r.gathered, queue, e, trace, at);
      var t := Next(p, s, ProcessFragment(at));
      var (gathered, fired) := AloneStep(p.prims, r.gathered, e);
      if fired.Some? {
        var stored := Advance(d, KeyStep(Low(e.keyId), fired.value, at)).0;
        AtDrains(p, t, i, pair, stored, gathered, queue, trace, n, at);
        More(first, RunConsumer(stored, Drains(n, at)).1);
      } else {
        IdleStaysIdle(d, Drains(n, at));
        AtDrains(p, t, i, pair, d, gathered, queue, trace, n, at);
      }
    } else {
      NothingOffered(p, s, i, pair, d, r.gathered, queue, trace, at);
      var t := Next(p, s, ProcessFragment(at));
      IdleStaysIdle(d, Drains(n, at));
      AtDrains(p, t, i, pair, d, r.gathered, queue, trace, n, at);
    }
  }

  lemma SessionPair(prims: Primitives, address: Address, s: Session, reading: Reading)
    requires FromSession(prims, address, s, reading) && reading.ReadFragment?
    ensures var e := Rebuild.ElementOf(address, reading.fragment);
      Rebuild.PairOf(e) == Rebuild.Pair(address, Low(s.keyId)) && Low(e.keyId) == Low(s.keyId)
  {
    hide OpenFragment, Low, KeyIdOf;
  }

  lemma NothingOffered(p: Params, s: System, i: nat, pair: Rebuild.Pair, c: Consumer, gathered: Rebuild.Collected, queue: seq<Received>,
                       trace: seq<Tagged>, at: nat)
    requires Stands(s, i, pair, c, gathered, queue, [], trace) && p.replaceAfter > 0
    ensures Enabled(p, s, ProcessFragment(at)) && WellFormed(c)
    ensures Stands(Next(p, s, ProcessFragment(at)), i, pair, c, gathered, queue, [], trace)
  {
    hide Gathers, Find, OthersIdle;
    ConsumesHead(p, s, Rebuild.Element(0, 0, BLANK_FRAGMENT, BLANK_FRAGMENT, 0, ZERO_ADDRESS), at);
    hide Next, Enabled;
  }

  lemma More<T>(first: seq<T>, more: seq<T>)
    ensures (first + more)[|first|..] == more && first + [] == first && first[|first|..] == []
  {}

  lemma GoesNonZero(r: Receiver, s: Session)
    requires Goes(r, s)
    ensures WellFormed(r.record) && Low(s.keyId) != 0
  {}

  /** A cycle of the system is a step of the reference. */
  lemma CycleIsPrompt(p: Params, s: System, i: nat, r: Receiver, ss: Session, pair: Rebuild.Pair, x: Received, rest: seq<Received>,
                      trace: seq<Tagged>, at: nat)
    requires Goes(r, ss) && pair == Rebuild.Pair(r.record.address, Low(ss.keyId)) && p.replaceAfter > 0
    requires Stands(s, i, pair, r.record, r.gathered, [x] + rest, [], trace) && x.address == pair.address && WellSized(x.frame)
    requires FromSession(p.prims, pair.address, ss, Read(x.frame))
    ensures AllWellFormed(s.table.arr) && WellFormed(r.record) && Possible(p, s, Cycle(at))
    ensures var (q, events) := Prompt(p.prims, r, Read(x.frame), at);
      && Stands(Play(p, s, Cycle(at)), i, pair, q.record, q.gathered, rest, [], trace + TagAll(pair.address, events))
      && Goes(q, ss) && q.record.address == r.record.address
  {
    hide Read, Next, Enabled, Advance, Goes, FromSession, Prompt, Request, TagAll, Low, Stands, Rebuild.QueueFragment, Rebuild.ElementOf;
    hide Play, Possible, DrainMoves;
    var reading := Read(x.frame);
    StandsWell(s, i, pair, r.record, r.gathered, [x] + rest, [], trace);
    GoesNonZero(r, ss);
    AtFrame(p, s, i, pair, r.record, r.gathered, x, rest, trace, at);
    var (d, first) := Advance(r.record, FrameStep(reading, at));
    var s1 := Next(p, s, ProcessPdu(at));
    Requested(s.km, pair.address, r.record, reading, at);
    PromptGoes(p.prims, r, ss, reading, at);
    var trace1 := trace + TagAll(pair.address, first);
    StandsWell(s1, i, pair, d, r.gathered, rest, Request(s.km, [], TagAll(pair.address, first)), trace1);
    RestOfCycle(p, s1, i, r, ss, pair, reading, rest, trace1, at);
    PlayThree(p, s, ProcessPdu(at), ProcessFragment(at), DrainMoves(Rounds(DEFERRED_QUEUE_SIZE), at));
    var events := Prompt(p.prims, r, reading, at).1;
    TagMore(trace, pair.address, first, events[|first|..]);
  }

  lemma StandsWell(s: System, i: nat, pair: Rebuild.Pair, c: Consumer, gathered: Rebuild.Collected, queue: seq<Received>,
                   fragments: seq<Rebuild.Element>, trace: seq<Tagged>)
    requires Stands(s, i, pair, c, gathered, queue, fragments, trace)
    ensures AllWellFormed(s.table.arr) && WellFormed(c) && s.fragments == fragments && s.queue == queue && s.trace == trace
  {
    hide Gathers, Find, OthersIdle;
  }

  lemma TagMore(trace: seq<Tagged>, address: Address, first: seq<Event>, more: seq<Event>)
    ensures (trace + TagAll(address, first)) + TagAll(address, more) == trace + TagAll(address, first + more)
    ensures trace + TagAll(address, []) == trace
  {
    assert TagAll(address, first + more) == TagAll(address, first) + TagAll(address, more);
  }

  // ---- All frames ------------------------------------------------------------------------------------------

  function Cycles(n: nat, at: nat): seq<Move> {
    if n == 0 then [] else Cycle(at) + Cycles(n - 1, at)
  }

  predicate FramesOf(queue: seq<Received>, address: Address) {
    forall x :: x in queue ==> x.address == address && WellSized(x.frame)
  }

  function Readings(queue: seq<Received>, address: Address): (readings: seq<Reading>)
    requires FramesOf(queue, address)
    ensures |readings| == |queue|
  {
    seq(|queue|, i requires 0 <= i < |queue| => assert queue[i] in queue; Read(queue[i].frame))
  }

  /** Over all the frames of a session that wait: what the system does, with prompt tasks, is what the
      reference does. */
  lemma {:induction false} CyclesAreHear(p: Params, s: System, i: nat, r: Receiver, ss: Session, pair: Rebuild.Pair,
                                         queue: seq<Received>, trace: seq<Tagged>, at: nat)
    requires Goes(r, ss) && pair == Rebuild.Pair(r.record.address, Low(ss.keyId)) && p.replaceAfter > 0
    requires Stands(s, i, pair, r.record, r.gathered, queue, [], trace) && FramesOf(queue, pair.address)
    requires forall x :: x in Readings(queue, pair.address) ==> FromSession(p.prims, pair.address, ss, x)
    ensures AllWellFormed(s.table.arr) && WellFormed(r.record) && Possible(p, s, Cycles(|queue|, at))
    ensures var (q, events) := DeliveryTheorems.Hear(p.prims, r, Readings(queue, pair.address), at);
      Stands(Play(p, s, Cycles(|queue|, at)), i, pair, q.record, q.gathered, [], [], trace + TagAll(pair.address, events))
    decreases |queue|
  {
    hide Stands, Cycle, Prompt, FromSession, Low, Goes, Read, TagAll, Play, Possible, Readings, FramesOf;
    StandsWell(s, i, pair, r.record, r.gathered, queue, [], trace);
    GoesNonZero(r, ss);
    if queue == [] {
      NothingLeft(p, s, trace, pair.address, at);
    } else {
      var x, rest := queue[0], queue[1..];
      FirstReading(queue, pair.address);
      var readings := Readings(queue, pair.address);
      CycleIsPrompt(p, s, i, r, ss, pair, x, rest, trace, at);
      var (q, events) := Prompt(p.prims, r, readings[0], at);
      var t := Play(p, s, Cycle(at));
      CyclesAreHear(p, t, i, q, ss, pair, rest, trace + TagAll(pair.address, events), at);
      SystemTheorems.PlayConcat(p, s, Cycle(at), Cycles(|rest|, at));
      TagMore(trace, pair.address, events, DeliveryTheorems.Hear(p.prims, q, readings[1..], at).1);
    }
  }

  lemma FirstReading(queue: seq<Received>, address: Address)
    requires FramesOf(queue, address) && queue != []
    ensures queue == [queue[0]] + queue[1..] && FramesOf(queue[1..], address)
    ensures var readings := Readings(queue, address);
      && WellSized(queue[0].frame) && queue[0].address == address && readings[0] == Read(queue[0].frame)
      && readings[1..] == Readings(queue[1..], address) && readings[0] in readings && forall y :: y in readings[1..] ==> y in readings
  {
    hide Read, WellSized;
    assert queue[0] in queue && forall y :: y in queue[1..] ==> y in queue;
  }

  lemma NothingLeft(p: Params, s: System, trace: seq<Tagged>, address: Address, at: nat)
    requires AllWellFormed(s.table.arr)
    ensures Cycles(0, at) == [] && Possible(p, s, []) && Play(p, s, []) == s && trace + TagAll(address, []) == trace
    ensures Readings([], address) == []
  {}
}
