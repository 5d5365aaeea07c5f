/** What the parts of the system do over every run, each part described by a machine of its own: the table by
    the steps of the PDU processor, the collection by the fragments it consumes, the slots by scans and
    authorisations, the queues by what enters and leaves them, the air by what is sent. */
module SystemTheorems {
  import opened Crypto
  import opened Options
  import opened Wire
  import opened BroadcasterSpec
  import opened AuthorizeSpec
  import opened FilterTheorems
  import opened AuthorizeRuns
  import opened ConsumerSpec
  import opened ConsumerTheorems
  import Keys = KeyCacheSpec
  import opened ProcessorSpec
  import opened ReconstructorSpec
  import opened ReconstructorTheorems
  import opened Reconstructor
  import opened SystemSpec

  // ---- Runs -----------------------------------------------------------------------------------------

  lemma {:induction false} PlayConcat(p: Params, s: System, a: seq<Move>, b: seq<Move>)
    requires AllWellFormed(s.table.arr) && Possible(p, s, a) && Possible(p, Play(p, s, a), b)
    ensures Possible(p, s, a + b) && Play(p, s, a + b) == Play(p, Play(p, s, a), b)
    decreases |a|
  {
    hide Next, Enabled;
    if a == [] {
      assert a + b == b;
    } else {
      assert (a + b)[0] == a[0] && (a + b)[1..] == a[1..] + b;
      PlayConcat(p, Next(p, s, a[0]), a[1..], b);
    }
  }

  lemma PlayOne(p: Params, s: System, move: Move)
    requires AllWellFormed(s.table.arr) && Enabled(p, s, move)
    ensures Possible(p, s, [move]) && Play(p, s, [move]) == Next(p, s, move)
  {
    hide Next, Enabled;
    assert [move][1..] == [];
  }

  // ---- The table ---------------------------------------------------------------------------------------

  /** The processor's part of a move: the frame at the head of its queue, the key that the fragment at the
      head of the reconstructor's queue completes, or a drain event. */
  function StepOf(p: Params, s: System, move: Move): seq<Step>
    requires Enabled(p, s, move)
  {
    match move
    case ProcessPdu(at) => if s.queue == [] then [] else [OnFrame(s.queue[0].address, Read(s.queue[0].frame), at)]
    case ProcessFragment(at) =>
      if s.fragments == [] then []
      else
        var e := s.fragments[0];
        var fired := Consume(p.prims, s.km, e).1;
        if fired.None? then [] else [OnKey(e.address, Low(e.keyId), fired.value, at)]
    case DrainDeferred(at) => [OnDrain(at)]
    case _ => []
  }

  function Steps(p: Params, s: System, moves: seq<Move>): seq<Step>
    requires AllWellFormed(s.table.arr) && Possible(p, s, moves)
    decreases |moves|
  {
    if moves == [] then [] else StepOf(p, s, moves[0]) + Steps(p, Next(p, s, moves[0]), moves[1..])
  }

  lemma MoveIsSteps(p: Params, s: System, move: Move)
    requires AllWellFormed(s.table.arr) && Enabled(p, s, move)
    ensures var t := Next(p, s, move);
      Run(s.table, StepOf(p, s, move)).0 == t.table && t.trace == s.trace + Run(s.table, StepOf(p, s, move)).1
  {
    var steps := StepOf(p, s, move);
    assert Run(s.table, []) == (s.table, []);
    hide Consume, FrameFor, DrainAll, StoreKeyFor, Read, OnTimer, Scan, AuthoriseSlot, Request;
    if steps != [] { RunOne(s.table, steps[0]); }
    assert s.trace + [] == s.trace;
  }

  /** Over every run: the table, and what the observers have been told, are those of the processor run on
      the frames taken from its queue, the keys completed, and the drain events, in the order they come. */
  lemma {:induction false} TableIsRun(p: Params, s: System, moves: seq<Move>)
    requires AllWellFormed(s.table.arr) && Possible(p, s, moves)
    ensures var t := Play(p, s, moves);
      var (table, events) := Run(s.table, Steps(p, s, moves));
      t.table == table && t.trace == s.trace + events
    decreases |moves|
  {
    hide Next, Enabled, Run, StepOf;
    if moves == [] {
      RunNothing(s.table);
      assert s.trace + [] == s.trace;
    } else {
      MoveIsSteps(p, s, moves[0]);
      var next := Next(p, s, moves[0]);
      TableIsRun(p, next, moves[1..]);
      RunConcat(s.table, StepOf(p, s, moves[0]), Steps(p, next, moves[1..]));
      Regroup(s.trace, Run(s.table, StepOf(p, s, moves[0])).1, Run(next.table, Steps(p, next, moves[1..])).1);
    }
  }

  lemma RunNothing(t: Table)
    requires AllWellFormed(t.arr)
    ensures Run(t, []) == (t, [])
  {}

  // ---- The collection ------------------------------------------------------------------------------------

  /** The fragment a move takes from the reconstructor's queue. */
  function FragmentTaken(s: System, move: Move): seq<Element> {
    if move.ProcessFragment? && s.fragments != [] then [s.fragments[0]] else []
  }

  function FragmentsTaken(p: Params, s: System, moves: seq<Move>): seq<Element>
    requires AllWellFormed(s.table.arr) && Possible(p, s, moves)
    decreases |moves|
  {
    if moves == [] then [] else FragmentTaken(s, moves[0]) + FragmentsTaken(p, Next(p, s, moves[0]), moves[1..])
  }

  /** The keys among the processor's steps, as calls of the callback. */
  function KeysAmong(steps: seq<Step>): seq<Completion> {
    if steps == [] then []
    else (if steps[0].OnKey? then [Completion(steps[0].id, steps[0].key, steps[0].address)] else []) + KeysAmong(steps[1..])
  }

  lemma {:induction false} KeysAmongConcat(a: seq<Step>, b: seq<Step>)
    ensures KeysAmong(a + b) == KeysAmong(a) + KeysAmong(b)
  {
    if a == [] {
      assert a + b == b;
    } else {
      assert (a + b)[1..] == a[1..] + b;
      KeysAmongConcat(a[1..], b);
      Regroup(if a[0].OnKey? then [Completion(a[0].id, a[0].key, a[0].address)] else [], KeysAmong(a[1..]), KeysAmong(b));
    }
  }

  lemma {:induction false} CompletionsConcat(a: seq<Element>, fa: seq<Option<Key>>, b: seq<Element>, fb: seq<Option<Key>>)
    requires |a| == |fa| && |b| == |fb|
    ensures CompletionsOf(a + b, fa + fb) == CompletionsOf(a, fa) + CompletionsOf(b, fb)
    decreases |b|
  {
    hide CompletionOf;
    if b == [] {
      assert a + b == a && fa + fb == fa;
    } else {
      var n := |b| - 1;
      assert (a + b)[..|a| + n] == a + b[..n] && (fa + fb)[..|a| + n] == fa + fb[..n];
      CompletionsConcat(a, fa, b[..n], fb[..n]);
      Regroup(CompletionsOf(a, fa), CompletionsOf(b[..n], fb[..n]), CompletionOf(b[n], fb[n]));
    }
  }

  lemma MoveIsConsumed(p: Params, s: System, move: Move)
    requires AllWellFormed(s.table.arr) && Enabled(p, s, move)
    ensures var (km, fired) := ConsumeAll(p.prims, s.km, FragmentTaken(s, move));
      Next(p, s, move).km == km && KeysAmong(StepOf(p, s, move)) == CompletionsOf(FragmentTaken(s, move), fired)
  {
    hide Consume, FrameFor, DrainAll, StoreKeyFor, Read, OnTimer, Scan, AuthoriseSlot, Request;
    var es := FragmentTaken(s, move);
    if es != [] {
      assert es[1..] == [] && es == [es[0]];
      var (km, fired) := Consume(p.prims, s.km, es[0]);
      assert ConsumeAll(p.prims, km, []) == (km, []);
      assert ConsumeAll(p.prims, s.km, es) == (km, [fired]) by { assert [fired] + [] == [fired]; }
      CompletionsOne(es[0], fired);
      var steps := StepOf(p, s, move);
      assert steps != [] ==> steps[1..] == [];
    }
  }

  lemma CompletionsOne(e: Element, fired: Option<Key>)
    ensures CompletionsOf([e], [fired]) == CompletionOf(e, fired)
  {
    assert [e][..0] == [] && [fired][..0] == [];
  }

  /** Over every run: the collection is what consuming the fragments taken makes of it, and the keys the
      table gets are the ones it hands out, each for the sender and the id of the fragment that completed
      it. */
  lemma {:induction false} KeysAreHandedOut(p: Params, s: System, moves: seq<Move>)
    requires AllWellFormed(s.table.arr) && Possible(p, s, moves)
    ensures var taken := FragmentsTaken(p, s, moves);
      var (km, fired) := ConsumeAll(p.prims, s.km, taken);
      Play(p, s, moves).km == km && KeysAmong(Steps(p, s, moves)) == CompletionsOf(taken, fired)
    decreases |moves|
  {
    hide Next, Enabled, StepOf, FragmentTaken, Consume;
    if moves != [] {
      var next := Next(p, s, moves[0]);
      var first, rest := FragmentTaken(s, moves[0]), FragmentsTaken(p, next, moves[1..]);
      MoveIsConsumed(p, s, moves[0]);
      KeysAreHandedOut(p, next, moves[1..]);
      ConsumeAllConcat(p.prims, s.km, first, rest);
      KeysAmongConcat(StepOf(p, s, moves[0]), Steps(p, next, moves[1..]));
      var (km, fired) := ConsumeAll(p.prims, s.km, first);
      CompletionsConcat(first, fired, rest, ConsumeAll(p.prims, km, rest).1);
    }
  }

  // ---- The slots ------------------------------------------------------------------------------------------

  function ScanPart(move: Move): seq<ScanStep> {
    match move
    case Hear(address, frame, timestamp) => [Arrive(timestamp, frame, address)]
    case AuthorizeBatch(index) => [Take(index)]
    case _ => []
  }

  function ScanParts(moves: seq<Move>): seq<ScanStep> {
    if moves == [] then [] else ScanPart(moves[0]) + ScanParts(moves[1..])
  }

  lemma {:induction false} ScanRunConcat(slots: seq<AuthSlot>, a: seq<ScanStep>, b: seq<ScanStep>)
    ensures ScanRun(slots, a + b) == ScanRun(ScanRun(slots, a), b)
    decreases |b|
  {
    hide StepSlots;
    if b == [] {
      assert a + b == a;
    } else {
      var n := |b| - 1;
      assert (a + b)[..|a| + n] == a + b[..n];
      ScanRunConcat(slots, a, b[..n]);
    }
  }

  /** Over every run: the slots are those of the scans and the authorisations alone. */
  lemma {:induction false} SlotsAreScanned(p: Params, s: System, moves: seq<Move>)
    requires AllWellFormed(s.table.arr) && Possible(p, s, moves)
    ensures Play(p, s, moves).slots == ScanRun(s.slots, ScanParts(moves))
    decreases |moves|
  {
    hide Next, Enabled;
    if moves != [] {
      var next := Next(p, s, moves[0]);
      assert next.slots == ScanRun(s.slots, ScanPart(moves[0])) by { MoveScans(p, s, moves[0]); }
      SlotsAreScanned(p, next, moves[1..]);
      ScanRunConcat(s.slots, ScanPart(moves[0]), ScanParts(moves[1..]));
    }
  }

  lemma MoveScans(p: Params, s: System, move: Move)
    requires AllWellFormed(s.table.arr) && Enabled(p, s, move)
    ensures Next(p, s, move).slots == ScanRun(s.slots, ScanPart(move))
  {
    hide Consume, FrameFor, DrainAll, StoreKeyFor, Read, OnTimer, Scan, AuthoriseSlot, Request, Forward;
    var part := ScanPart(move);
    if part != [] { assert part[..0] == [] && ScanRun(s.slots, []) == s.slots; }
  }

  // ---- The queues -----------------------------------------------------------------------------------------

  function ReceivedOf(address: Address, pdus: seq<ScanPdu>): (r: seq<Received>)
    ensures |r| == |pdus|
    ensures forall i :: 0 <= i < |r| ==> r[i] == Received(address, pdus[i].frame)
  {
    seq(|pdus|, i requires 0 <= i < |pdus| => Received(address, pdus[i].frame))
  }

  /** As much of `more` as a queue of `n` has room for. */
  function Fitting<T>(more: seq<T>, n: nat, capacity: nat): (fit: seq<T>)
    ensures fit <= more && n + |fit| <= (if n <= capacity then capacity else n)
  {
    if n + |more| <= capacity then more else if n < capacity then more[..capacity - n] else []
  }

  /** What is forwarded joins the end of the queue in order, until it is full. */
  lemma {:induction false} ForwardIsAppend(queue: seq<Received>, address: Address, pdus: seq<ScanPdu>)
    requires |queue| <= MAX_PROCESSING_QUEUE_ELEMENTS
    ensures Forward(queue, address, pdus) == queue + Fitting(ReceivedOf(address, pdus), |queue|, MAX_PROCESSING_QUEUE_ELEMENTS)
    decreases |pdus|
  {
    if pdus == [] {
      assert queue + [] == queue;
    } else {
      hide ReceivedOf, Fitting;
      var first := Received(address, pdus[0].frame);
      ReceivedCons(address, pdus);
      FittingCons(queue, first, ReceivedOf(address, pdus[1..]));
      ForwardIsAppend(Enqueue(queue, first), address, pdus[1..]);
    }
  }

  lemma ReceivedCons(address: Address, pdus: seq<ScanPdu>)
    requires pdus != []
    ensures ReceivedOf(address, pdus) == [Received(address, pdus[0].frame)] + ReceivedOf(address, pdus[1..])
  {}

  lemma FittingCons(queue: seq<Received>, first: Received, rest: seq<Received>)
    requires |queue| <= MAX_PROCESSING_QUEUE_ELEMENTS
    ensures var next := Enqueue(queue, first);
      && |next| <= MAX_PROCESSING_QUEUE_ELEMENTS
      && next + Fitting(rest, |next|, MAX_PROCESSING_QUEUE_ELEMENTS) ==
           queue + Fitting([first] + rest, |queue|, MAX_PROCESSING_QUEUE_ELEMENTS)
  {
    var all, room := [first] + rest, MAX_PROCESSING_QUEUE_ELEMENTS - |queue|;
    if 0 < room < |all| { assert all[..room] == [first] + rest[..room - 1]; }
  }

  /** The frames a move forwards, and those of them the processor's queue takes. */
  function SentOn(s: System, move: Move): seq<Received> {
    if move.AuthorizeBatch? && move.index < |s.slots| then
      ReceivedOf(s.slots[move.index].address, AuthoriseSlot(s.slots[move.index]).1)
    else []
  }

  function Accepted(p: Params, s: System, moves: seq<Move>): seq<Received>
    requires AllWellFormed(s.table.arr) && Possible(p, s, moves)
    decreases |moves|
  {
    if moves == [] then []
    else
      Fitting(SentOn(s, moves[0]), |s.queue|, MAX_PROCESSING_QUEUE_ELEMENTS)
      + Accepted(p, Next(p, s, moves[0]), moves[1..])
  }

  function FrameTaken(s: System, move: Move): seq<Received> {
    if move.ProcessPdu? && s.queue != [] then [s.queue[0]] else []
  }

  function FramesTaken(p: Params, s: System, moves: seq<Move>): seq<Received>
    requires AllWellFormed(s.table.arr) && Possible(p, s, moves)
    decreases |moves|
  {
    if moves == [] then [] else FrameTaken(s, moves[0]) + FramesTaken(p, Next(p, s, moves[0]), moves[1..])
  }

  lemma MoveQueues(p: Params, s: System, move: Move)
    requires AllWellFormed(s.table.arr) && Enabled(p, s, move) && |s.queue| <= MAX_PROCESSING_QUEUE_ELEMENTS
    ensures var t := Next(p, s, move);
      && |t.queue| <= MAX_PROCESSING_QUEUE_ELEMENTS
      && FrameTaken(s, move) + t.queue == s.queue + Fitting(SentOn(s, move), |s.queue|, MAX_PROCESSING_QUEUE_ELEMENTS)
  {
    hide Consume, FrameFor, DrainAll, StoreKeyFor, Read, OnTimer, Scan, AuthoriseSlot, Request, Forward, ReceivedOf, Fitting;
    if move.AuthorizeBatch? {
      TakeQueues(s, move.index);
    } else {
      NothingFits(|s.queue|);
      assert s.queue + [] == s.queue && [] + s.queue == s.queue;
      if move.ProcessPdu? && s.queue != [] { assert [s.queue[0]] + s.queue[1..] == s.queue; }
    }
  }

  lemma TakeQueues(s: System, index: nat)
    requires index < |s.slots| && |s.queue| <= MAX_PROCESSING_QUEUE_ELEMENTS
    ensures var t := AuthorizeNext(s, index);
      && |t.queue| <= MAX_PROCESSING_QUEUE_ELEMENTS
      && [] + t.queue == s.queue + Fitting(SentOn(s, AuthorizeBatch(index)), |s.queue|, MAX_PROCESSING_QUEUE_ELEMENTS)
  {
    hide AuthoriseSlot, Forward, ReceivedOf;
    var (slot, pdus) := AuthoriseSlot(s.slots[index]);
    ForwardIsAppend(s.queue, slot.address, pdus);
    SlotKeepsAddress(s.slots[index]);
    var queue := AuthorizeNext(s, index).queue;
    assert [] + queue == queue;
  }

  lemma NothingFits(n: nat)
    ensures Fitting<Received>([], n, MAX_PROCESSING_QUEUE_ELEMENTS) == []
  {}

  lemma SlotKeepsAddress(slot: AuthSlot)
    ensures AuthoriseSlot(slot).0.address == slot.address
  {
    hide Authorise;
  }

  /** Over every run the processor's queue is first in, first out: the frames taken, followed by those
      waiting, are those that were waiting at first, followed by the forwarded ones that found room among
      100, in order. */
  lemma {:induction false} FramesInOrder(p: Params, s: System, moves: seq<Move>)
    requires AllWellFormed(s.table.arr) && Possible(p, s, moves) && |s.queue| <= MAX_PROCESSING_QUEUE_ELEMENTS
    ensures var t := Play(p, s, moves);
      && |t.queue| <= MAX_PROCESSING_QUEUE_ELEMENTS
      && FramesTaken(p, s, moves) + t.queue == s.queue + Accepted(p, s, moves)
    decreases |moves|
  {
    hide Next, Enabled, FrameTaken, SentOn, Fitting;
    if moves == [] {
      assert [] + s.queue == s.queue + [];
    } else {
      MoveQueues(p, s, moves[0]);
      var next := Next(p, s, moves[0]);
      FramesInOrder(p, next, moves[1..]);
      Account(FrameTaken(s, moves[0]), next.queue, Fitting(SentOn(s, moves[0]), |s.queue|, MAX_PROCESSING_QUEUE_ELEMENTS),
              s.queue, FramesTaken(p, next, moves[1..]), Play(p, next, moves[1..]).queue, Accepted(p, next, moves[1..]));
    }
  }

  /** The fragment a move passes on: wanted by the record it was for, of use to the collection, and with
      room among 15. */
  function PassedOn(p: Params, s: System, move: Move): seq<Element>
    requires AllWellFormed(s.table.arr) && Enabled(p, s, move)
  {
    if move.ProcessPdu? && s.queue != [] && Read(s.queue[0].frame).ReadFragment? then
      var r := s.queue[0];
      var e := ElementOf(r.address, Read(r.frame).fragment);
      if FrameFor(s.table, r.address, Read(r.frame), move.at).1 != []
         && !IsKeyAvailable(s.km, e.address, Low(e.keyId)) && !IsFragmentDecrypted(s.km, e.address, Low(e.keyId), e.index)
         && |s.fragments| < MAX_ELEMENTS_IN_QUEUE
      then [e] else []
    else []
  }

  function AllPassedOn(p: Params, s: System, moves: seq<Move>): seq<Element>
    requires AllWellFormed(s.table.arr) && Possible(p, s, moves)
    decreases |moves|
  {
    if moves == [] then [] else PassedOn(p, s, moves[0]) + AllPassedOn(p, Next(p, s, moves[0]), moves[1..])
  }

  /** One frame wants at most one fragment, its own. */
  lemma FrameWants(t: Table, address: Address, reading: Reading, now: nat)
    requires AllWellFormed(t.arr)
    ensures var events := FrameFor(t, address, reading, now).1;
      if reading.ReadFragment? then events == [] || events == [Tagged(address, FragmentWanted(reading.fragment))]
      else forall e :: e in events ==> !e.event.FragmentWanted?
  {
    var (u, index) := Acquire(t, address, now);
    hide Acquire;
    if index.Some? { hide Keys.Touch, Keys.Lookup; }
  }

  lemma {:induction false} NothingRequested(km: seq<Entry>, fragments: seq<Element>, events: seq<Tagged>)
    requires forall e :: e in events ==> !e.event.FragmentWanted?
    ensures Request(km, fragments, events) == fragments
    decreases |events|
  {
    if events != [] {
      assert events[0] in events;
      NothingRequested(km, fragments, events[1..]);
    }
  }

  lemma RequestOne(km: seq<Entry>, fragments: seq<Element>, address: Address, fragment: KeyPdu)
    ensures Request(km, fragments, [Tagged(address, FragmentWanted(fragment))]) ==
            QueueFragment(km, fragments, ElementOf(address, fragment))
  {
    var events := [Tagged(address, FragmentWanted(fragment))];
    assert events[1..] == [];
    hide QueueFragment, ElementOf;
    assert forall queue :: Request(km, queue, []) == queue;
  }

  lemma MovePassesOn(p: Params, s: System, move: Move)
    requires AllWellFormed(s.table.arr) && Enabled(p, s, move)
    ensures FragmentTaken(s, move) + Next(p, s, move).fragments == s.fragments + PassedOn(p, s, move)
  {
    hide Consume, DrainAll, StoreKeyFor, Read, OnTimer, Scan, AuthoriseSlot, Forward, FrameFor, ElementOf;
    assert s.fragments + [] == s.fragments && [] + s.fragments == s.fragments;
    match move
    case ProcessPdu(at) =>
      if s.queue != [] {
        var r := s.queue[0];
        var events := FrameFor(s.table, r.address, Read(r.frame), at).1;
        FrameWants(s.table, r.address, Read(r.frame), at);
        if events == [] || !Read(r.frame).ReadFragment? {
          NothingRequested(s.km, s.fragments, events);
        } else {
          RequestOne(s.km, s.fragments, r.address, Read(r.frame).fragment);
        }
        var fragments := Next(p, s, move).fragments;
        assert [] + fragments == fragments;
      }
    case ProcessFragment(_) => if s.fragments != [] { assert [s.fragments[0]] + s.fragments[1..] == s.fragments; }
    case _ =>
  }

  /** And so is the reconstructor's. */
  lemma {:induction false} FragmentsInOrder(p: Params, s: System, moves: seq<Move>)
    requires AllWellFormed(s.table.arr) && Possible(p, s, moves)
    ensures FragmentsTaken(p, s, moves) + Play(p, s, moves).fragments == s.fragments + AllPassedOn(p, s, moves)
    decreases |moves|
  {
    hide Next, Enabled, FragmentTaken, PassedOn;
    if moves == [] {
      assert [] + s.fragments == s.fragments + [];
    } else {
      MovePassesOn(p, s, moves[0]);
      var next := Next(p, s, moves[0]);
      FragmentsInOrder(p, next, moves[1..]);
      Account(FragmentTaken(s, moves[0]), next.fragments, PassedOn(p, s, moves[0]), s.fragments,
              FragmentsTaken(p, next, moves[1..]), Play(p, next, moves[1..]).fragments, AllPassedOn(p, next, moves[1..]));
    }
  }

  // ---- The authorisation event ------------------------------------------------------------------------------

  /** One authorisation for each of the first `n` slots, in order. */
  function Turns(n: nat): (moves: seq<Move>)
    ensures |moves| == n && forall i :: 0 <= i < n ==> moves[i] == AuthorizeBatch(i)
  {
    seq(n, i requires 0 <= i < n => AuthorizeBatch(i))
  }

  /** Handing what was granted to the processor, one PDU after another. */
  function HandAll(queue: seq<Received>, granted: seq<Granted>): seq<Received>
    decreases |granted|
  {
    if granted == [] then queue
    else HandAll(Enqueue(queue, Received(granted[0].address, granted[0].pdu.frame)), granted[1..])
  }

  lemma {:induction false} HandConcat(queue: seq<Received>, a: seq<Granted>, b: seq<Granted>)
    ensures HandAll(queue, a + b) == HandAll(HandAll(queue, a), b)
    decreases |a|
  {
    if a == [] {
      assert a + b == b;
    } else {
      assert (a + b)[1..] == a[1..] + b;
      HandConcat(Enqueue(queue, Received(a[0].address, a[0].pdu.frame)), a[1..], b);
    }
  }

  lemma {:induction false} HandGrants(queue: seq<Received>, address: Address, pdus: seq<ScanPdu>)
    ensures HandAll(queue, Grants(address, pdus)) == Forward(queue, address, pdus)
    decreases |pdus|
  {
    if pdus != [] {
      assert Grants(address, pdus)[1..] == Grants(address, pdus[1..]);
      HandGrants(Enqueue(queue, Received(address, pdus[0].frame)), address, pdus[1..]);
    }
  }

  /** A turn of a free slot does nothing. */
  lemma TakeTurn(p: Params, s: System, i: nat)
    requires AllWellFormed(s.table.arr) && p.replaceAfter > 0 && SlotsOk(s.slots) && i < |s.slots|
    ensures Enabled(p, s, AuthorizeBatch(i))
    ensures var slot := s.slots[i];
      var (after, pdus) := AuthoriseSlot(slot);
      Next(p, s, AuthorizeBatch(i)) ==
        if slot.active then s.(slots := s.slots[i := after], queue := HandAll(s.queue, Grants(slot.address, pdus))) else s
  {
    hide SlotsOk, AuthoriseSlot;
    var slot := s.slots[i];
    if slot.active {
      HandGrants(s.queue, slot.address, AuthoriseSlot(slot).1);
      SlotKeepsAddress(slot);
    } else {
      FreeSlotIdle(s.slots, i);
      assert s.slots[i := slot] == s.slots;
    }
  }

  /** The authorisation event on the whole system: what it hands out, in its order, is what the turns of the
      slots put into the processor's queue, and nothing else of the system changes. */
  lemma {:induction false} EventIsTurns(p: Params, s: System, n: nat)
    requires AllWellFormed(s.table.arr) && p.replaceAfter > 0 && SlotsOk(s.slots) && n <= |s.slots|
    ensures Possible(p, s, Turns(n))
    ensures var (slots, granted) := ServeTo(s.slots, n);
      Play(p, s, Turns(n)) == s.(slots := slots, queue := HandAll(s.queue, granted))
  {
    hide SlotsOk, AuthoriseSlot, Next, Enabled, AllWellFormed;
    if n == 0 {
      assert Turns(0) == [];
    } else {
      assert Turns(n) == Turns(n - 1) + [AuthorizeBatch(n - 1)];
      EventIsTurns(p, s, n - 1);
      ServedOk(s.slots, n - 1);
      var (slots, granted) := ServeTo(s.slots, n - 1);
      var mid := Play(p, s, Turns(n - 1));
      TakeTurn(p, mid, n - 1);
      PlayOne(p, mid, AuthorizeBatch(n - 1));
      PlayConcat(p, s, Turns(n - 1), [AuthorizeBatch(n - 1)]);
      var slot := s.slots[n - 1];
      HandConcat(s.queue, granted, Grants(slot.address, AuthoriseSlot(slot).1));
    }
  }

  lemma ServedOk(slots: seq<AuthSlot>, n: nat)
    requires SlotsOk(slots) && n <= |slots|
    ensures SlotsOk(ServeTo(slots, n).0)
  {
    hide SlotsOk, ServeTo, ScanRun, Takes;
    EventServesAll(slots, n, 1);
    TakesSnoc(n);
    RunKeepsOk(slots, Takes(n));
  }

  // ---- The senders and the air -------------------------------------------------------------------------------

  /** What a move gives the callback of one sender. */
  function InputOf(move: Move, address: Address): seq<Input> {
    if move.Send? && move.address == address then [move.input] else []
  }

  function InputsOf(moves: seq<Move>, address: Address): seq<Input> {
    if moves == [] then [] else InputOf(moves[0], address) + InputsOf(moves[1..], address)
  }

  predicate NoStart(moves: seq<Move>, address: Address) {
    forall m :: m in moves ==> !(m.Start? && m.address == address)
  }

  /** The frames of a sender's outputs. */
  predicate IsFrameOf(x: Aired, address: Address, outputs: seq<Output>) {
    x.address == address && exists k :: 0 <= k < |outputs| && x.frame in OnAir(outputs[k])
  }

  lemma {:induction false} RunTimerConcat(prims: Primitives, s: Sender, replaceAfter: nat, ratio: nat, a: seq<Input>, b: seq<Input>)
    requires replaceAfter > 0
    ensures var (t, outputs) := RunTimer(prims, s, replaceAfter, ratio, a);
      var (u, more) := RunTimer(prims, t, replaceAfter, ratio, b);
      RunTimer(prims, s, replaceAfter, ratio, a + b) == (u, outputs + more)
    decreases |b|
  {
    hide OnTimer;
    var (t, outputs) := RunTimer(prims, s, replaceAfter, ratio, a);
    if b == [] {
      assert a + b == a && outputs + [] == outputs;
    } else {
      var n := |b| - 1;
      assert (a + b)[..|a| + n] == a + b[..n];
      RunTimerConcat(prims, s, replaceAfter, ratio, a, b[..n]);
      var (u, more) := RunTimer(prims, t, replaceAfter, ratio, b[..n]);
      Regroup(outputs, more, [OnTimer(prims, u, replaceAfter, ratio, b[n]).1]);
    }
  }

  lemma FramesOfConcat(x: Aired, address: Address, a: seq<Output>, b: seq<Output>)
    ensures IsFrameOf(x, address, a + b) <==> IsFrameOf(x, address, a) || IsFrameOf(x, address, b)
  {
    hide OnAir;
    var all := a + b;
    if IsFrameOf(x, address, a) {
      var k :| 0 <= k < |a| && x.frame in OnAir(a[k]);
      assert all[k] == a[k];
    }
    if IsFrameOf(x, address, b) {
      var k :| 0 <= k < |b| && x.frame in OnAir(b[k]);
      assert all[|a| + k] == b[k];
    }
    if IsFrameOf(x, address, all) {
      var k :| 0 <= k < |all| && x.frame in OnAir(all[k]);
      if k < |a| { assert all[k] == a[k]; } else { assert all[k] == b[k - |a|]; }
    }
  }

  lemma MoveSends(p: Params, s: System, move: Move, address: Address, x: Aired)
    requires AllWellFormed(s.table.arr) && Enabled(p, s, move) && address in s.senders
    requires !(move.Start? && move.address == address) && x.address == address
    ensures var t := Next(p, s, move);
      var (sender, outputs) := RunTimer(p.prims, s.senders[address], p.replaceAfter, p.ratio, InputOf(move, address));
      && address in t.senders && t.senders[address] == sender
      && (x in t.air <==> x in s.air || IsFrameOf(x, address, outputs))
  {
    hide Consume, FrameFor, DrainAll, StoreKeyFor, Read, OnTimer, Scan, AuthoriseSlot, Request, Forward, OnAir;
    var inputs := InputOf(move, address);
    if inputs != [] {
      assert inputs[..0] == [];
      var out := OnTimer(p.prims, s.senders[address], p.replaceAfter, p.ratio, inputs[0]).1;
      assert [] + [out] == [out] && [out][0] == out;
      assert RunTimer(p.prims, s.senders[address], p.replaceAfter, p.ratio, inputs).1 == [out];
    }
  }

  /** Over every run without a restart of it: a sender is where its callbacks have brought it, and of its
      frames exactly those of its outputs have been put on the air. */
  lemma {:induction false} AirIsSent(p: Params, s: System, moves: seq<Move>, address: Address, x: Aired)
    requires AllWellFormed(s.table.arr) && Possible(p, s, moves) && p.replaceAfter > 0
    requires address in s.senders && NoStart(moves, address) && x.address == address
    ensures var t := Play(p, s, moves);
      var (sender, outputs) := RunTimer(p.prims, s.senders[address], p.replaceAfter, p.ratio, InputsOf(moves, address));
      && address in t.senders && t.senders[address] == sender
      && (x in t.air <==> x in s.air || IsFrameOf(x, address, outputs))
    decreases |moves|
  {
    hide Next, Enabled, InputOf, RunTimer, IsFrameOf;
    if moves == [] {
      NothingSent(p, s, address, x);
    } else {
      assert moves[0] in moves;
      MoveSends(p, s, moves[0], address, x);
      var next := Next(p, s, moves[0]);
      AirIsSent(p, next, moves[1..], address, x);
      RunTimerConcat(p.prims, s.senders[address], p.replaceAfter, p.ratio, InputOf(moves[0], address), InputsOf(moves[1..], address));
      FramesOfConcat(x, address, RunTimer(p.prims, s.senders[address], p.replaceAfter, p.ratio, InputOf(moves[0], address)).1,
                     RunTimer(p.prims, next.senders[address], p.replaceAfter, p.ratio, InputsOf(moves[1..], address)).1);
    }
  }

  lemma NothingSent(p: Params, s: System, address: Address, x: Aired)
    requires p.replaceAfter > 0 && address in s.senders
    ensures RunTimer(p.prims, s.senders[address], p.replaceAfter, p.ratio, []) == (s.senders[address], [])
    ensures !IsFrameOf(x, address, [])
  {}
}
