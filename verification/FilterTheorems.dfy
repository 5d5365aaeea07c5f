/** The duplicate filter of the scan callback: exactly when a frame passes it, over runs of scans by any
    senders interleaved with authorisation. */
module FilterTheorems {
  import opened Bytes
  import opened Wire
  import opened AuthorizeSpec

  // ---- The record -----------------------------------------------------------------------------------

  /** The last PDU that passed, as slot 0 remembers it for all senders. */
  datatype Mark = Mark(pduNo: u16, keyId: u16)

  predicate Lets(m: Mark, pdu: ScanPdu) {
    Passes(m.pduNo, m.keyId, pdu)
  }

  /** The record after a sequence of PDUs has been seen. */
  function MarkAfter(m: Mark, seen: seq<ScanPdu>): Mark
    decreases |seen|
  {
    if seen == [] then m
    else
      var n := |seen| - 1;
      var before := MarkAfter(m, seen[..n]);
      if Lets(before, seen[n]) then Mark(seen[n].pduNo, seen[n].keyId) else before
  }

  /** From position `i` on, all PDUs of session `keyId` have numbers below `pduNo`. */
  predicate BelowFrom(seen: seq<ScanPdu>, i: nat, keyId: u16, pduNo: u16) {
    forall j :: i <= j < |seen| && seen[j].keyId == keyId ==> seen[j].pduNo < pduNo
  }

  /** At some position another session is seen, and after it only lower numbers of this one. */
  predicate Reopened(seen: seq<ScanPdu>, keyId: u16, pduNo: u16) {
    exists i :: 0 <= i < |seen| && seen[i].keyId != keyId && BelowFrom(seen, i + 1, keyId, pduNo)
  }

  lemma ReopenedNext(seen: seq<ScanPdu>, x: ScanPdu, keyId: u16, pduNo: u16)
    ensures Reopened(seen + [x], keyId, pduNo) <==>
      x.keyId != keyId || (Reopened(seen, keyId, pduNo) && x.pduNo < pduNo)
  {
    var all := seen + [x];
    if Reopened(all, keyId, pduNo) && x.keyId == keyId {
      var i :| 0 <= i < |all| && all[i].keyId != keyId && BelowFrom(all, i + 1, keyId, pduNo);
      assert all[|seen|] == x;
      forall j | i + 1 <= j < |seen| && seen[j].keyId == keyId ensures seen[j].pduNo < pduNo { assert all[j] == seen[j]; }
      assert seen[i].keyId != keyId && BelowFrom(seen, i + 1, keyId, pduNo);
    }
    if x.keyId != keyId {
      assert all[|seen|].keyId != keyId && BelowFrom(all, |seen| + 1, keyId, pduNo);
    } else if Reopened(seen, keyId, pduNo) && x.pduNo < pduNo {
      var i :| 0 <= i < |seen| && seen[i].keyId != keyId && BelowFrom(seen, i + 1, keyId, pduNo);
      assert all[i].keyId != keyId && BelowFrom(all, i + 1, keyId, pduNo);
    }
  }

  lemma BelowNext(seen: seq<ScanPdu>, x: ScanPdu, keyId: u16, pduNo: u16)
    ensures BelowFrom(seen + [x], 0, keyId, pduNo) <==> BelowFrom(seen, 0, keyId, pduNo) && (x.keyId == keyId ==> x.pduNo < pduNo)
  {
    var all := seen + [x];
    if BelowFrom(all, 0, keyId, pduNo) {
      forall j | 0 <= j < |seen| && seen[j].keyId == keyId ensures seen[j].pduNo < pduNo { assert all[j] == seen[j]; }
      assert all[|seen|] == x;
    }
  }

  /** The filter, exactly, over everything seen since a PDU of the same session passed: a PDU gets
      through if and only if another session was seen with only lower numbers of this one after it,
      or the PDU's number is above all of this session, the first one included. */
  lemma {:induction false} LetsIff(m: Mark, seen: seq<ScanPdu>, pdu: ScanPdu)
    requires m.keyId == pdu.keyId
    ensures Lets(MarkAfter(m, seen), pdu) <==>
      Reopened(seen, pdu.keyId, pdu.pduNo) || (BelowFrom(seen, 0, pdu.keyId, pdu.pduNo) && m.pduNo < pdu.pduNo)
    decreases |seen|
  {
    if seen != [] {
      var n := |seen| - 1;
      LetsIff(m, seen[..n], pdu);
      assert seen == seen[..n] + [seen[n]];
      ReopenedNext(seen[..n], seen[n], pdu.keyId, pdu.pduNo);
      BelowNext(seen[..n], seen[n], pdu.keyId, pdu.pduNo);
      hide Reopened, BelowFrom;
      SameSessionMark(m, seen[..n], pdu);
    }
  }

  /** If the record has left the session, the session counts as reopened. */
  lemma {:induction false} SameSessionMark(m: Mark, seen: seq<ScanPdu>, pdu: ScanPdu)
    requires m.keyId == pdu.keyId
    ensures MarkAfter(m, seen).keyId != pdu.keyId ==> Reopened(seen, pdu.keyId, pdu.pduNo)
    decreases |seen|
  {
    if seen != [] {
      var n := |seen| - 1;
      SameSessionMark(m, seen[..n], pdu);
      assert seen == seen[..n] + [seen[n]];
      ReopenedNext(seen[..n], seen[n], pdu.keyId, pdu.pduNo);
      hide Reopened;
    }
  }

  /** A repeat of a PDU that passed gets through if and only if another session, of whichever sender,
      was seen since with only lower numbers of this one after it. */
  lemma RepeatPassesIff(pdu: ScanPdu, seen: seq<ScanPdu>)
    ensures Lets(MarkAfter(Mark(pdu.pduNo, pdu.keyId), seen), pdu) <==> Reopened(seen, pdu.keyId, pdu.pduNo)
  {
    LetsIff(Mark(pdu.pduNo, pdu.keyId), seen, pdu);
  }

  // ---- Runs of scans and authorisations ----------------------------------------------------------------

  datatype ScanStep = Arrive(timestamp: int, frame: seq<byte>, address: Address) | Take(index: nat)

  function StepSlots(slots: seq<AuthSlot>, step: ScanStep): (r: seq<AuthSlot>)
    ensures |r| == |slots|
  {
    match step
    case Arrive(timestamp, frame, address) => Scan(slots, timestamp, frame, address).0
    case Take(index) => if index < |slots| then slots[index := AuthoriseSlot(slots[index]).0] else slots
  }

  function ScanRun(slots: seq<AuthSlot>, steps: seq<ScanStep>): (r: seq<AuthSlot>)
    ensures |r| == |slots|
    decreases |steps|
  {
    if steps == [] then slots
    else
      var n := |steps| - 1;
      StepSlots(ScanRun(slots, steps[..n]), steps[n])
  }

  /** A PDU the filter looked at: whether it is from the sender in question, and whether its private
      queue had room. */
  datatype Arrival = Arrival(pdu: ScanPdu, own: bool, room: bool)

  /** What one step shows the filter: a beacon frame whose sender has or gets a slot. */
  function SeenBy(slots: seq<AuthSlot>, step: ScanStep, address: Address): (seen: seq<Arrival>)
    ensures |seen| <= 1
  {
    if step.Take? || !HasMarker(step.frame) || SlotFor(slots, step.address).1 < 0 then []
    else
      var (found, index) := SlotFor(slots, step.address);
      [Arrival(Scanned(step.timestamp, step.frame), step.address == address,
               |found[index].queue| < CONSUMER_PRIVATE_QUEUE_SIZE)]
  }

  function Arrivals(slots: seq<AuthSlot>, steps: seq<ScanStep>, address: Address): seq<Arrival>
    decreases |steps|
  {
    if steps == [] then []
    else
      var n := |steps| - 1;
      Arrivals(slots, steps[..n], address) + SeenBy(ScanRun(slots, steps[..n]), steps[n], address)
  }

  function PdusSeen(arrivals: seq<Arrival>): (seen: seq<ScanPdu>)
    ensures |seen| == |arrivals|
  {
    seq(|arrivals|, i requires 0 <= i < |arrivals| => arrivals[i].pdu)
  }

  function MarkOf(slots: seq<AuthSlot>): Mark
    requires slots != []
  {
    Mark(slots[0].lastPduNo, slots[0].lastKeyId)
  }

  /** The sender has a slot of its own. */
  predicate Active(slots: seq<AuthSlot>, address: Address) {
    address != ZERO_ADDRESS && FirstWith(slots, address) < |slots|
  }

  /** PDU `i` of those seen enters the sender's queue. */
  predicate Enters(m: Mark, arrivals: seq<Arrival>, i: nat)
    requires i < |arrivals|
  {
    arrivals[i].own && arrivals[i].room && Lets(MarkAfter(m, PdusSeen(arrivals[..i])), arrivals[i].pdu)
  }

  /** The PDUs that enter the sender's queue, in order. */
  function Entered(m: Mark, arrivals: seq<Arrival>): seq<ScanPdu>
    decreases |arrivals|
  {
    if arrivals == [] then []
    else
      var n := |arrivals| - 1;
      Entered(m, arrivals[..n]) + (if Enters(m, arrivals, n) then [arrivals[n].pdu] else [])
  }

  /** What authorisation takes out of the sender's queue. */
  function TakenBy(slots: seq<AuthSlot>, step: ScanStep, address: Address): seq<ScanPdu> {
    if step.Take? && step.index < |slots| && step.index == FirstWith(slots, address) then
      var queue := slots[step.index].queue;
      if |queue| <= MAX_PDU_PROCESS_PER_CONSUMER then queue else queue[..MAX_PDU_PROCESS_PER_CONSUMER]
    else []
  }

  function TakenOut(slots: seq<AuthSlot>, steps: seq<ScanStep>, address: Address): seq<ScanPdu>
    decreases |steps|
  {
    if steps == [] then []
    else
      var n := |steps| - 1;
      TakenOut(slots, steps[..n], address) + TakenBy(ScanRun(slots, steps[..n]), steps[n], address)
  }

  function QueueOf(slots: seq<AuthSlot>, address: Address): seq<ScanPdu>
    requires Active(slots, address)
  {
    slots[FirstWith(slots, address)].queue
  }

  lemma FirstWithKept(slots: seq<AuthSlot>, i: nat, slot: AuthSlot, address: Address)
    requires i < |slots|
    requires slot.address == slots[i].address || (slots[i].address == ZERO_ADDRESS && slot.address != address)
    requires Active(slots, address)
    ensures FirstWith(slots[i := slot], address) == FirstWith(slots, address)
  {
    var after := slots[i := slot];
    var k, k' := FirstWith(slots, address), FirstWith(after, address);
    assert after[k].address == address;
    assert k' < |after| ==> slots[k'].address == address;
  }

  /** Finding or giving a slot leaves the record and every other sender's queue alone. */
  lemma SlotForOthers(slots: seq<AuthSlot>, from: Address, address: Address)
    requires slots != [] && Active(slots, address)
    ensures var found := SlotFor(slots, from).0;
      && MarkOf(found) == MarkOf(slots)
      && FirstWith(found, address) == FirstWith(slots, address)
      && QueueOf(found, address) == QueueOf(slots, address)
      && (from == address ==> found == slots && SlotFor(slots, from).1 == FirstWith(slots, address))
  {
    var f := LastFree(slots, |slots|);
    if FirstWith(slots, from) == |slots| && f >= 0 {
      FirstWithKept(slots, f, slots[f].(address := from, active := true), address);
    }
  }

  /** One PDU at the filter. */
  lemma SeenOne(m: Mark, a: Arrival)
    ensures MarkAfter(m, PdusSeen([a])) == if Lets(m, a.pdu) then Mark(a.pdu.pduNo, a.pdu.keyId) else m
    ensures Entered(m, [a]) == if a.own && a.room && Lets(m, a.pdu) then [a.pdu] else []
  {
    assert [a][..0] == [] && PdusSeen([]) == [] && PdusSeen([a]) == [a.pdu] && [a.pdu][..0] == [];
    assert Entered(m, []) == [];
  }

  lemma SeenNone(m: Mark)
    ensures MarkAfter(m, PdusSeen([])) == m && Entered(m, []) == []
  {
    assert PdusSeen([]) == [];
  }

  /** What the callback writes once it lets a PDU of `from` pass: the queue in its slot, the record in
      slot 0. */
  lemma PassedScan(found: seq<AuthSlot>, index: nat, pdu: ScanPdu, from: Address, address: Address)
    requires index < |found| && found[index].address == from && Active(found, address)
    requires from == address ==> index == FirstWith(found, address)
    ensures var room := |found[index].queue| < CONSUMER_PRIVATE_QUEUE_SIZE;
      var sent := found[index := found[index].(queue := if room then found[index].queue + [pdu] else found[index].queue)];
      var after := sent[0 := sent[0].(lastPduNo := pdu.pduNo, lastKeyId := pdu.keyId)];
      && Active(after, address) && FirstWith(after, address) == FirstWith(found, address)
      && MarkOf(after) == Mark(pdu.pduNo, pdu.keyId)
      && QueueOf(after, address) == QueueOf(found, address) + if from == address && room then [pdu] else []
  {
    var room := |found[index].queue| < CONSUMER_PRIVATE_QUEUE_SIZE;
    var sent := found[index := found[index].(queue := if room then found[index].queue + [pdu] else found[index].queue)];
    FirstWithKept(found, index, sent[index], address);
    FirstWithKept(sent, 0, sent[0].(lastPduNo := pdu.pduNo, lastKeyId := pdu.keyId), address);
    hide FirstWith;
  }

  /** One scan, seen by the filter and by one active sender's queue. */
  lemma ScanSeen(slots: seq<AuthSlot>, timestamp: int, frame: seq<byte>, from: Address, address: Address)
    requires slots != [] && Active(slots, address)
    ensures var step := Arrive(timestamp, frame, from);
      var after := StepSlots(slots, step);
      var arrivals := SeenBy(slots, step, address);
      && Active(after, address) && FirstWith(after, address) == FirstWith(slots, address)
      && MarkOf(after) == MarkAfter(MarkOf(slots), PdusSeen(arrivals))
      && QueueOf(after, address) == QueueOf(slots, address) + Entered(MarkOf(slots), arrivals)
  {
    SlotForOthers(slots, from, address);
    var (found, index) := SlotFor(slots, from);
    var arrivals := SeenBy(slots, Arrive(timestamp, frame, from), address);
    hide SlotFor, HasMarker, Scanned, Passes, FirstWith, PdusSeen, MarkAfter, Entered;
    if arrivals == [] {
      SeenNone(MarkOf(slots));
    } else {
      SeenOne(MarkOf(slots), arrivals[0]);
      assert arrivals == [arrivals[0]];
      PassedScan(found, index, arrivals[0].pdu, from, address);
      hide QueueOf;
    }
  }

  lemma TakeSeen(slots: seq<AuthSlot>, index: nat, address: Address)
    requires slots != [] && Active(slots, address)
    ensures var after := StepSlots(slots, Take(index));
      && Active(after, address) && FirstWith(after, address) == FirstWith(slots, address) && MarkOf(after) == MarkOf(slots)
      && TakenBy(slots, Take(index), address) + QueueOf(after, address) == QueueOf(slots, address)
  {
    hide Authorise;
    if index < |slots| {
      FirstWithKept(slots, index, AuthoriseSlot(slots[index]).0, address);
    }
  }

  lemma StepSeen(slots: seq<AuthSlot>, step: ScanStep, address: Address)
    requires slots != [] && Active(slots, address)
    ensures var after := StepSlots(slots, step);
      var arrivals := SeenBy(slots, step, address);
      && Active(after, address) && FirstWith(after, address) == FirstWith(slots, address)
      && MarkOf(after) == MarkAfter(MarkOf(slots), PdusSeen(arrivals))
      && TakenBy(slots, step, address) + QueueOf(after, address) ==
           QueueOf(slots, address) + Entered(MarkOf(slots), arrivals)
  {
    match step
    case Arrive(timestamp, frame, from) =>
      ScanSeen(slots, timestamp, frame, from, address);
      hide StepSlots, SeenBy, QueueOf, Active, FirstWith;
      var queue := QueueOf(StepSlots(slots, step), address);
      assert [] + queue == queue;
    case Take(index) =>
      TakeSeen(slots, index, address);
      SeenNone(MarkOf(slots));
      hide StepSlots, QueueOf, Active, FirstWith;
      assert QueueOf(slots, address) + [] == QueueOf(slots, address);
  }

  lemma Account<T>(taken: seq<T>, mid: seq<T>, entered: seq<T>, first: seq<T>, out: seq<T>, last: seq<T>, more: seq<T>)
    requires taken + mid == first + entered && out + last == mid + more
    ensures (taken + out) + last == first + (entered + more)
  {
    assert (taken + out) + last == taken + (out + last) == (taken + mid) + more;
    assert (first + entered) + more == first + (entered + more);
  }

  lemma MarkAfterAppend(m: Mark, a: seq<ScanPdu>, b: seq<ScanPdu>)
    requires |b| <= 1
    ensures MarkAfter(m, a + b) == MarkAfter(MarkAfter(m, a), b)
  {
    if b == [] {
      assert a + b == a;
    } else {
      assert (a + b)[..|a|] == a && b[..0] == [];
    }
  }

  lemma PdusSeenConcat(a: seq<Arrival>, b: seq<Arrival>)
    ensures PdusSeen(a + b) == PdusSeen(a) + PdusSeen(b)
  {}

  lemma EnteredAppend(m: Mark, a: seq<Arrival>, b: seq<Arrival>)
    requires |b| <= 1
    ensures Entered(m, a + b) == Entered(m, a) + Entered(MarkAfter(m, PdusSeen(a)), b)
  {
    if b == [] {
      assert a + b == a;
    } else {
      assert (a + b)[..|a|] == a && b[..0] == [] && PdusSeen([]) == [];
    }
  }

  /** The callback over whole runs, any senders interleaved and authorisation taking PDUs out in between:
      slot 0 holds the filter's record over everything seen, and what was in a sender's queue or has
      entered it since has been taken out in order or is still there. */
  lemma {:induction false} RunSeen(slots: seq<AuthSlot>, steps: seq<ScanStep>, address: Address)
    requires slots != [] && Active(slots, address)
    ensures var after := ScanRun(slots, steps);
      var arrivals := Arrivals(slots, steps, address);
      && Active(after, address) && FirstWith(after, address) == FirstWith(slots, address)
      && MarkOf(after) == MarkAfter(MarkOf(slots), PdusSeen(arrivals))
      && TakenOut(slots, steps, address) + QueueOf(after, address) == QueueOf(slots, address) + Entered(MarkOf(slots), arrivals)
    decreases |steps|
  {
    if steps == [] {
      assert PdusSeen([]) == [];
      assert [] + QueueOf(slots, address) == QueueOf(slots, address) + [];
    } else {
      var n := |steps| - 1;
      RunSeen(slots, steps[..n], address);
      var mid := ScanRun(slots, steps[..n]);
      var before := Arrivals(slots, steps[..n], address);
      var now := SeenBy(mid, steps[n], address);
      PdusSeenConcat(before, now);
      hide Active, QueueOf, StepSlots, SeenBy, TakenBy, MarkOf, FirstWith, MarkAfter, Entered, PdusSeen;
      StepSeen(mid, steps[n], address);
      MarkAfterAppend(MarkOf(slots), PdusSeen(before), PdusSeen(now));
      EnteredAppend(MarkOf(slots), before, now);
      Account(TakenOut(slots, steps[..n], address), QueueOf(mid, address), Entered(MarkOf(slots), before), QueueOf(slots, address),
              TakenBy(mid, steps[n], address), QueueOf(StepSlots(mid, steps[n]), address), Entered(MarkOf(mid), now));
    }
  }

  /** The first frame of a sender finds or is given a slot, and is handled as if the sender had it. */
  lemma FirstFrameGetsSlot(slots: seq<AuthSlot>, timestamp: int, frame: seq<byte>, address: Address)
    requires slots != [] && address != ZERO_ADDRESS && SlotFor(slots, address).1 >= 0 && HasMarker(frame)
    ensures var found := SlotFor(slots, address).0;
      && |found| == |slots| && Active(found, address) && MarkOf(found) == MarkOf(slots)
      && StepSlots(slots, Arrive(timestamp, frame, address)) == StepSlots(found, Arrive(timestamp, frame, address))
  {
    var found, index := SlotFor(slots, address).0, SlotFor(slots, address).1;
    assert found[index].address == address;
    assert FirstWith(found, address) == index;
    hide FirstWith, LastFree, Scanned, HasMarker;
  }

  /** Exactly when a repeat is queued again: a frame of a sender that has or gets a slot passes, anything
      happens, and the frame is scanned again. It is queued if and only if there is room and meanwhile
      another session was seen with only lower numbers of this one after it. */
  lemma RepeatQueuedIff(slots: seq<AuthSlot>, first: int, again: int, frame: seq<byte>, address: Address, steps: seq<ScanStep>)
    requires slots != [] && address != ZERO_ADDRESS && SlotFor(slots, address).1 >= 0 && HasMarker(frame)
    requires Lets(MarkOf(slots), Scanned(first, frame))
    ensures var once := StepSlots(slots, Arrive(first, frame, address));
      && Active(once, address)
      && var before := ScanRun(once, steps);
      var after := StepSlots(before, Arrive(again, frame, address));
      var pdu := Scanned(again, frame);
      && Active(before, address) && Active(after, address)
      && QueueOf(after, address) == QueueOf(before, address)
           + if |QueueOf(before, address)| < CONSUMER_PRIVATE_QUEUE_SIZE
                && Reopened(PdusSeen(Arrivals(once, steps, address)), pdu.keyId, pdu.pduNo)
             then [pdu] else []
  {
    FirstFrameGetsSlot(slots, first, frame, address);
    var once := StepSlots(slots, Arrive(first, frame, address));
    OwnScan(SlotFor(slots, address).0, first, frame, address);
    RunSeen(once, steps, address);
    var before := ScanRun(once, steps);
    OwnScan(before, again, frame, address);
    RepeatPassesIff(Scanned(again, frame), PdusSeen(Arrivals(once, steps, address)));
    hide Active, QueueOf, StepSlots, MarkOf, Reopened, SlotFor;
  }

  lemma OwnScan(slots: seq<AuthSlot>, timestamp: int, frame: seq<byte>, address: Address)
    requires slots != [] && Active(slots, address) && HasMarker(frame)
    ensures var after := StepSlots(slots, Arrive(timestamp, frame, address));
      var pdu := Scanned(timestamp, frame);
      && Active(after, address)
      && MarkOf(after) == (if Lets(MarkOf(slots), pdu) then Mark(pdu.pduNo, pdu.keyId) else MarkOf(slots))
      && QueueOf(after, address) == QueueOf(slots, address)
           + if |QueueOf(slots, address)| < CONSUMER_PRIVATE_QUEUE_SIZE && Lets(MarkOf(slots), pdu) then [pdu] else []
  {
    ScanSeen(slots, timestamp, frame, address, address);
    SlotForOthers(slots, address, address);
    var pdu := Scanned(timestamp, frame);
    var arrivals := SeenBy(slots, Arrive(timestamp, frame, address), address);
    hide StepSlots, Scanned, SlotFor, HasMarker, Passes;
    assert PdusSeen(arrivals) == [pdu] && [pdu][..0] == [] && arrivals[..0] == [] && PdusSeen([]) == [];
  }

  // ---- Numbers in a sender's queue -----------------------------------------------------------------------

  /** Between two PDUs of one session that enter a queue the numbers increase, unless another session was
      seen in between. */
  lemma NumbersIncreaseUnlessSwitched(m: Mark, arrivals: seq<Arrival>, i: nat, j: nat)
    requires i < j < |arrivals| && Enters(m, arrivals, i) && Enters(m, arrivals, j)
    requires arrivals[i].pdu.keyId == arrivals[j].pdu.keyId
    ensures arrivals[i].pdu.pduNo < arrivals[j].pdu.pduNo
            || exists k :: i < k < j && arrivals[k].pdu.keyId != arrivals[i].pdu.keyId
  {
    var x, y := arrivals[i].pdu, arrivals[j].pdu;
    var between := PdusSeen(arrivals[i + 1..j]);
    var upTo := PdusSeen(arrivals[..i + 1]);
    assert upTo[..i] == PdusSeen(arrivals[..i]) && upTo[i] == x;
    assert MarkAfter(m, upTo) == Mark(x.pduNo, x.keyId);
    assert PdusSeen(arrivals[..j]) == upTo + between;
    MarkAfterConcat(m, upTo, between);
    LetsIff(Mark(x.pduNo, x.keyId), between, y);
    if Reopened(between, y.keyId, y.pduNo) {
      var k :| 0 <= k < |between| && between[k].keyId != y.keyId && BelowFrom(between, k + 1, y.keyId, y.pduNo);
      assert arrivals[i + 1 + k].pdu == between[k];
    }
  }

  lemma {:induction false} MarkAfterConcat(m: Mark, a: seq<ScanPdu>, b: seq<ScanPdu>)
    ensures MarkAfter(m, a + b) == MarkAfter(MarkAfter(m, a), b)
    decreases |b|
  {
    if b == [] {
      assert a + b == a;
    } else {
      var n := |b| - 1;
      assert (a + b)[..|a| + n] == a + b[..n];
      MarkAfterConcat(m, a, b[..n]);
    }
  }

  /** Neighbours in a queue: their numbers increase unless a PDU of another session passed in between and
      did not enter, because it was another sender's or found no room. */
  lemma NeighboursIncreaseUnlessLost(m: Mark, arrivals: seq<Arrival>, i: nat, j: nat)
    requires i < j < |arrivals| && Enters(m, arrivals, i) && Enters(m, arrivals, j)
    requires arrivals[i].pdu.keyId == arrivals[j].pdu.keyId && forall k :: i < k < j ==> !Enters(m, arrivals, k)
    ensures arrivals[i].pdu.pduNo < arrivals[j].pdu.pduNo
            || exists k :: i < k < j && arrivals[k].pdu.keyId != arrivals[i].pdu.keyId && !(arrivals[k].own && arrivals[k].room)
                 && Lets(MarkAfter(m, PdusSeen(arrivals[..k])), arrivals[k].pdu)
  {
    NumbersIncreaseUnlessSwitched(m, arrivals, i, j);
    if !(arrivals[i].pdu.pduNo < arrivals[j].pdu.pduNo) {
      var k := FirstSwitch(arrivals, i, j);
      MarkStays(m, arrivals, i, k);
      assert !Enters(m, arrivals, k);
    }
  }

  lemma FirstSwitch(arrivals: seq<Arrival>, i: nat, j: nat) returns (k: nat)
    requires i < j < |arrivals| && exists k :: i < k < j && arrivals[k].pdu.keyId != arrivals[i].pdu.keyId
    ensures i < k < j && arrivals[k].pdu.keyId != arrivals[i].pdu.keyId
    ensures forall q :: i < q < k ==> arrivals[q].pdu.keyId == arrivals[i].pdu.keyId
  {
    k := i + 1;
    while arrivals[k].pdu.keyId == arrivals[i].pdu.keyId
      invariant i < k < j
      invariant forall q :: i < q < k ==> arrivals[q].pdu.keyId == arrivals[i].pdu.keyId
      decreases j - k
    {
      k := k + 1;
    }
  }

  lemma {:induction false} MarkStays(m: Mark, arrivals: seq<Arrival>, i: nat, k: nat)
    requires i < k <= |arrivals| && Lets(MarkAfter(m, PdusSeen(arrivals[..i])), arrivals[i].pdu)
    requires forall q :: i < q < k ==> arrivals[q].pdu.keyId == arrivals[i].pdu.keyId
    ensures MarkAfter(m, PdusSeen(arrivals[..k])).keyId == arrivals[i].pdu.keyId
    decreases k
  {
    var seen := PdusSeen(arrivals[..k]);
    assert seen[..k - 1] == PdusSeen(arrivals[..k - 1]) && seen[k - 1] == arrivals[k - 1].pdu;
    if k > i + 1 {
      MarkStays(m, arrivals, i, k - 1);
    }
  }

  /** An instance, from power-up: a frame of another sender in between makes the filter pass a repeat, here
      to the very neighbour of the original. */
  lemma SecondSenderDefeatsFilter(at: int, ours: seq<byte>, we: Address, theirs: seq<byte>, they: Address)
    requires we != they && we != ZERO_ADDRESS && they != ZERO_ADDRESS
    requires HasMarker(ours) && HasMarker(theirs)
    requires Scanned(at, ours).keyId != 0 && Scanned(at, ours).keyId != Scanned(at, theirs).keyId
    ensures var p := Scanned(at, ours);
      var once := Scan([FRESH_SLOT, FRESH_SLOT], at, ours, we).0;
      var between := Scan(once, at, theirs, they).0;
      && Scan(once, at, ours, we).0[1].queue == [p]
      && Scan(between, at, ours, we).0[1].queue == [p, p]
  {
    hide HasMarker, Scanned;
    var p, q := Scanned(at, ours), Scanned(at, theirs);
    var empty, record := [FRESH_SLOT, FRESH_SLOT], FRESH_SLOT.(lastPduNo := p.pduNo, lastKeyId := p.keyId);
    var mine := FRESH_SLOT.(address := we, active := true, queue := [p]);
    TwoSlots(FRESH_SLOT, FRESH_SLOT, we);
    var none: seq<ScanPdu> := [];
    assert none + [p] == [p] && none + [q] == [q];
    var once := Scan(empty, at, ours, we).0;
    assert once[0] == record && once[1] == mine;
    assert once == [record, mine];
    TwoSlots(record, mine, we);
    TwoSlots(record, mine, they);
    var theirSlot := AuthSlot(they, ZERO_PDU, [q], q.pduNo, q.keyId, true);
    var between := Scan(once, at, theirs, they).0;
    assert between[0] == theirSlot && between[1] == mine;
    assert between == [theirSlot, mine];
    TwoSlots(theirSlot, mine, we);
  }

  lemma TwoSlots(a: AuthSlot, b: AuthSlot, address: Address)
    requires a.address != address && address != ZERO_ADDRESS
    ensures SlotFor([a, b], address) ==
      if b.address == address then ([a, b], 1)
      else if b.address == ZERO_ADDRESS then ([a, b.(address := address, active := true)], 1)
      else if a.address == ZERO_ADDRESS then ([a.(address := address, active := true), b], 0)
      else ([a, b], -1)
  {
    assert [a, b][1..] == [b] && [b][1..] == [];
    assert FirstWith([a, b], address) == if b.address == address then 1 else 2;
    assert LastFree([a, b], 1) == if a.address == ZERO_ADDRESS then 0 else -1;
    assert forall x: AuthSlot :: [a, b][1 := x] == [a, x] && [a, b][0 := x] == [x, b];
  }
}
