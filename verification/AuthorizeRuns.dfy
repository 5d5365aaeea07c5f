/** Authorisation over whole runs of scans and authorisation events: what a slot forwards, call after
    call, and that a sender's first frame makes no difference. */
module AuthorizeRuns {
  import opened Bytes
  import opened Wire
  import opened AuthorizeSpec
  import opened AuthorizeTheorems
  import opened FilterTheorems

  /** A free slot is as good as new. */
  predicate FreeSlotsClean(slots: seq<AuthSlot>) {
    forall i :: 0 <= i < |slots| && slots[i].address == ZERO_ADDRESS ==> slots[i].queue == [] && slots[i].last == ZERO_PDU
  }

  /** The step authorises a batch of this sender. */
  predicate Serves(slots: seq<AuthSlot>, step: ScanStep, address: Address) {
    step.Take? && step.index < |slots| && step.index == FirstWith(slots, address)
  }

  /** What a step forwards of the sender's PDUs. */
  function ForwardedBy(slots: seq<AuthSlot>, step: ScanStep, address: Address): seq<ScanPdu> {
    if Serves(slots, step, address) then AuthoriseSlot(slots[step.index]).1 else []
  }

  function Forwarded(slots: seq<AuthSlot>, steps: seq<ScanStep>, address: Address): seq<ScanPdu>
    decreases |steps|
  {
    if steps == [] then []
    else
      var n := |steps| - 1;
      Forwarded(slots, steps[..n], address) + ForwardedBy(ScanRun(slots, steps[..n]), steps[n], address)
  }

  /** The batches taken out of the sender's queue, empty ones included. */
  function Batches(slots: seq<AuthSlot>, steps: seq<ScanStep>, address: Address): seq<seq<ScanPdu>>
    decreases |steps|
  {
    if steps == [] then []
    else
      var n := |steps| - 1;
      var mid := ScanRun(slots, steps[..n]);
      Batches(slots, steps[..n], address) + if Serves(mid, steps[n], address) then [TakenBy(mid, steps[n], address)] else []
  }

  /** The PDU the sender's next batch is compared with. */
  function LastOf(slots: seq<AuthSlot>, address: Address): ScanPdu {
    var i := FirstWith(slots, address);
    if i < |slots| then slots[i].last else ZERO_PDU
  }

  lemma FirstElsewhere(slots: seq<AuthSlot>, i: nat, slot: AuthSlot, address: Address)
    requires i < |slots| && (slot.address == slots[i].address || (slots[i].address != address && slot.address != address))
    ensures FirstWith(slots[i := slot], address) == FirstWith(slots, address)
  {
    var after := slots[i := slot];
    var k, k' := FirstWith(slots, address), FirstWith(after, address);
    assert k < |slots| ==> after[k].address == address;
    assert k' < |slots| ==> slots[k'].address == address;
  }

  /** Changing marks and queues leaves the predecessors alone. */
  lemma LastKept(slots: seq<AuthSlot>, i: nat, slot: AuthSlot, address: Address)
    requires i < |slots| && slot.address == slots[i].address && slot.last == slots[i].last
    ensures LastOf(slots[i := slot], address) == LastOf(slots, address)
  {
    FirstElsewhere(slots, i, slot, address);
  }

  lemma SlotForClean(slots: seq<AuthSlot>, from: Address, address: Address)
    requires FreeSlotsClean(slots) && address != ZERO_ADDRESS && from != ZERO_ADDRESS
    ensures var found := SlotFor(slots, from).0;
      FreeSlotsClean(found) && LastOf(found, address) == LastOf(slots, address)
  {
    var (found, f) := SlotFor(slots, from);
    if found != slots {
      if from == address {
        assert FirstWith(slots, address) == |slots| && found[f].address == address && found[f].last == ZERO_PDU;
        assert FirstWith(found, address) == f;
      } else {
        FirstElsewhere(slots, f, found[f], address);
      }
    }
  }

  lemma ArriveKeepsLast(slots: seq<AuthSlot>, step: ScanStep, address: Address)
    requires FreeSlotsClean(slots) && address != ZERO_ADDRESS && step.Arrive? && step.address != ZERO_ADDRESS
    ensures var after := StepSlots(slots, step);
      FreeSlotsClean(after) && LastOf(after, address) == LastOf(slots, address)
  {
    hide SlotFor, Scanned, HasMarker, Passes, LastOf, FirstWith, FreeSlotsClean;
    SlotForClean(slots, step.address, address);
    var (found, index) := SlotFor(slots, step.address);
    var pdu := Scanned(step.timestamp, step.frame);
    if HasMarker(step.frame) && index >= 0 && Passes(found[0].lastPduNo, found[0].lastKeyId, pdu) {
      var room := |found[index].queue| < CONSUMER_PRIVATE_QUEUE_SIZE;
      var sent := found[index := found[index].(queue := if room then found[index].queue + [pdu] else found[index].queue)];
      LastKept(found, index, sent[index], address);
      CleanWrite(found, index, sent[index]);
      LastKept(sent, 0, sent[0].(lastPduNo := pdu.pduNo, lastKeyId := pdu.keyId), address);
      CleanMark(sent, pdu);
    }
  }

  lemma CleanWrite(slots: seq<AuthSlot>, i: nat, slot: AuthSlot)
    requires FreeSlotsClean(slots) && i < |slots| && slot.address != ZERO_ADDRESS
    ensures FreeSlotsClean(slots[i := slot])
  {}

  lemma CleanMark(slots: seq<AuthSlot>, pdu: ScanPdu)
    requires FreeSlotsClean(slots) && slots != []
    ensures FreeSlotsClean(slots[0 := slots[0].(lastPduNo := pdu.pduNo, lastKeyId := pdu.keyId)])
  {}

  lemma TakeMovesLast(slots: seq<AuthSlot>, step: ScanStep, address: Address)
    requires FreeSlotsClean(slots) && address != ZERO_ADDRESS && step.Take?
    ensures var after := StepSlots(slots, step);
      && FreeSlotsClean(after)
      && if Serves(slots, step, address)
         then (LastOf(after, address), ForwardedBy(slots, step, address)) ==
              Authorise(LastOf(slots, address), TakenBy(slots, step, address))
         else LastOf(after, address) == LastOf(slots, address)
  {
    hide Walk;
    if step.index < |slots| {
      var slot := slots[step.index];
      assert slot.address == ZERO_ADDRESS ==> slot.queue[..0] == [];
      FirstElsewhere(slots, step.index, AuthoriseSlot(slot).0, address);
      assert slot.queue[..|slot.queue|] == slot.queue;
    }
  }

  /** Steps that come from real senders. */
  predicate FromSenders(steps: seq<ScanStep>) {
    forall s :: s in steps ==> s.Arrive? ==> s.address != ZERO_ADDRESS
  }

  lemma {:induction false} AllSnoc(last: ScanPdu, batches: seq<seq<ScanPdu>>, batch: seq<ScanPdu>)
    ensures var (mid, out) := AuthoriseAll(last, batches);
      var (end, more) := Authorise(mid, batch);
      AuthoriseAll(last, batches + [batch]) == (end, out + more)
    decreases |batches|
  {
    hide Authorise;
    if batches == [] {
      assert batches + [batch] == [batch] && [batch][1..] == [];
      var (end, more) := Authorise(last, batch);
      assert AuthoriseAll(end, []) == (end, []) && more + [] == [] + more;
    } else {
      assert (batches + [batch])[1..] == batches[1..] + [batch];
      var (next, first) := Authorise(last, batches[0]);
      AllSnoc(next, batches[1..], batch);
      var (mid, out) := AuthoriseAll(next, batches[1..]);
      var more := Authorise(mid, batch).1;
      assert first + (out + more) == (first + out) + more;
    }
  }

  lemma {:induction false} FlattenSnoc(batches: seq<seq<ScanPdu>>, batch: seq<ScanPdu>)
    ensures Flatten(batches + [batch]) == Flatten(batches) + batch
  {
    if batches == [] {
      assert batches + [batch] == [batch] && [batch][1..] == [] && batch + [] == [] + batch;
    } else {
      assert (batches + [batch])[1..] == batches[1..] + [batch];
      FlattenSnoc(batches[1..], batch);
      assert batches[0] + (Flatten(batches[1..]) + batch) == (batches[0] + Flatten(batches[1..])) + batch;
    }
  }

  /** Each call goes on from where the sender's last one stopped, whatever happens in between. */
  lemma {:induction false} CallsChain(slots: seq<AuthSlot>, steps: seq<ScanStep>, address: Address)
    requires FreeSlotsClean(slots) && address != ZERO_ADDRESS && FromSenders(steps)
    ensures var after := ScanRun(slots, steps);
      var batches := Batches(slots, steps, address);
      && FreeSlotsClean(after)
      && (LastOf(after, address), Forwarded(slots, steps, address)) == AuthoriseAll(LastOf(slots, address), batches)
      && Flatten(batches) == TakenOut(slots, steps, address)
    decreases |steps|
  {
    if steps != [] {
      var n := |steps| - 1;
      assert steps[n] in steps && FromSenders(steps[..n]);
      CallsChain(slots, steps[..n], address);
      var mid := ScanRun(slots, steps[..n]);
      var batches := Batches(slots, steps[..n], address);
      if steps[n].Arrive? {
        ArriveKeepsLast(mid, steps[n], address);
      } else {
        TakeMovesLast(mid, steps[n], address);
        AllSnoc(LastOf(slots, address), batches, TakenBy(mid, steps[n], address));
        FlattenSnoc(batches, TakenBy(mid, steps[n], address));
      }
      assert !Serves(mid, steps[n], address) ==> TakenBy(mid, steps[n], address) == [];
      hide StepSlots, LastOf, Authorise, AuthoriseAll, Flatten, TakenBy, Serves, FreeSlotsClean;
      var out, taken := Forwarded(slots, steps[..n], address), TakenOut(slots, steps[..n], address);
      assert out + [] == out && taken + [] == taken && batches + [] == batches;
    }
  }

  /** Over every run in which the sender is new at first: what is forwarded of it is what one pass over all
      that has been taken out of its queue keeps, if and only if every cut between batches is harmless; so
      always when no timestamp is zero. */
  lemma ForwardsKeptIff(slots: seq<AuthSlot>, steps: seq<ScanStep>, address: Address)
    requires FreeSlotsClean(slots) && address != ZERO_ADDRESS && FromSenders(steps) && LastOf(slots, address) == ZERO_PDU
    ensures var taken := TakenOut(slots, steps, address);
      && (Forwarded(slots, steps, address) == Kept(taken) <==> CutsHarmless([], Batches(slots, steps, address)))
      && ((forall p :: p in taken ==> p.timestamp != 0) ==> Forwarded(slots, steps, address) == Kept(taken))
  {
    CallsChain(slots, steps, address);
    var batches := Batches(slots, steps, address);
    BatchesAgreeIff(batches);
    hide ScanRun, Forwarded, Batches, TakenOut, AuthoriseAll, CutsHarmless, Kept;
    if forall p :: p in TakenOut(slots, steps, address) ==> p.timestamp != 0 { BatchInvariance(batches); }
  }

  // ---- Queues, from the first frame on ------------------------------------------------------------------

  function QueueFor(slots: seq<AuthSlot>, address: Address): seq<ScanPdu> {
    if Active(slots, address) then QueueOf(slots, address) else []
  }

  /** A step while the sender has no slot: it gets one with its first frame, or stays without. */
  lemma StepUnslotted(slots: seq<AuthSlot>, step: ScanStep, address: Address)
    requires slots != [] && FreeSlotsClean(slots) && address != ZERO_ADDRESS && !Active(slots, address)
    requires step.Arrive? ==> step.address != ZERO_ADDRESS
    ensures var after := StepSlots(slots, step);
      var arrivals := SeenBy(slots, step, address);
      && MarkOf(after) == MarkAfter(MarkOf(slots), PdusSeen(arrivals))
      && QueueFor(after, address) == Entered(MarkOf(slots), arrivals)
      && TakenBy(slots, step, address) == []
  {
    var arrivals := SeenBy(slots, step, address);
    SeenNone(MarkOf(slots));
    match step
    case Take(index) =>
      if index < |slots| { FirstElsewhere(slots, index, AuthoriseSlot(slots[index]).0, address); }
    case Arrive(timestamp, frame, from) =>
      if arrivals != [] {
        SeenOne(MarkOf(slots), arrivals[0]);
        assert arrivals == [arrivals[0]];
        if from == address {
          FirstFrame(slots, timestamp, frame, address);
        } else {
          OthersArrive(slots, step, address);
        }
      } else if HasMarker(frame) {
        hide Scanned;
        assert SlotFor(slots, from).1 < 0 && SlotFor(slots, from).0 == slots;
      }
  }

  /** The first frame of a sender that there is room for. */
  lemma FirstFrame(slots: seq<AuthSlot>, timestamp: int, frame: seq<byte>, address: Address)
    requires slots != [] && FreeSlotsClean(slots) && address != ZERO_ADDRESS && !Active(slots, address)
    requires SlotFor(slots, address).1 >= 0 && HasMarker(frame)
    ensures var after := StepSlots(slots, Arrive(timestamp, frame, address));
      var pdu := Scanned(timestamp, frame);
      var passes := Lets(MarkOf(slots), pdu);
      && MarkOf(after) == (if passes then Mark(pdu.pduNo, pdu.keyId) else MarkOf(slots))
      && QueueFor(after, address) == if passes then [pdu] else []
  {
    hide StepSlots, Scanned, HasMarker;
    FirstFrameGetsSlot(slots, timestamp, frame, address);
    var found, index := SlotFor(slots, address).0, SlotFor(slots, address).1;
    assert found[index].address == address && FirstWith(found, address) == index && QueueOf(found, address) == [];
    OwnScan(found, timestamp, frame, address);
  }

  /** Another sender's frame gives this one no slot. */
  lemma OthersArrive(slots: seq<AuthSlot>, step: ScanStep, address: Address)
    requires slots != [] && address != ZERO_ADDRESS && !Active(slots, address)
    requires step.Arrive? && step.address != ZERO_ADDRESS && step.address != address && SeenBy(slots, step, address) != []
    ensures var after := StepSlots(slots, step);
      var pdu := SeenBy(slots, step, address)[0].pdu;
      && !Active(after, address)
      && MarkOf(after) == (if Lets(MarkOf(slots), pdu) then Mark(pdu.pduNo, pdu.keyId) else MarkOf(slots))
  {
    var (found, index) := SlotFor(slots, step.address);
    if found != slots { FirstElsewhere(slots, index, found[index], address); }
    var pdu := Scanned(step.timestamp, step.frame);
    hide SlotFor, Scanned, HasMarker, FirstWith;
    if Lets(MarkOf(slots), pdu) {
      var room := |found[index].queue| < CONSUMER_PRIVATE_QUEUE_SIZE;
      var sent := found[index := found[index].(queue := if room then found[index].queue + [pdu] else found[index].queue)];
      FirstElsewhere(found, index, sent[index], address);
      FirstElsewhere(sent, 0, sent[0].(lastPduNo := pdu.pduNo, lastKeyId := pdu.keyId), address);
    }
  }

  lemma StepQueues(slots: seq<AuthSlot>, step: ScanStep, address: Address)
    requires slots != [] && FreeSlotsClean(slots) && address != ZERO_ADDRESS && (step.Arrive? ==> step.address != ZERO_ADDRESS)
    ensures var after := StepSlots(slots, step);
      var arrivals := SeenBy(slots, step, address);
      && FreeSlotsClean(after)
      && MarkOf(after) == MarkAfter(MarkOf(slots), PdusSeen(arrivals))
      && TakenBy(slots, step, address) + QueueFor(after, address) ==
           QueueFor(slots, address) + Entered(MarkOf(slots), arrivals)
  {
    if step.Arrive? { ArriveKeepsLast(slots, step, address); } else { TakeMovesLast(slots, step, address); }
    if Active(slots, address) {
      StepSeen(slots, step, address);
    } else {
      StepUnslotted(slots, step, address);
      var queue := QueueFor(StepSlots(slots, step), address);
      assert [] + queue == queue == [] + queue;
    }
  }

  /** Over every run: slot 0 holds the filter's record over everything seen, and what was in the sender's
      queue or has entered it since has been taken out in order or is still there. A sender has no queue
      before its first frame. */
  lemma {:induction false} QueuesAccount(slots: seq<AuthSlot>, steps: seq<ScanStep>, address: Address)
    requires slots != [] && FreeSlotsClean(slots) && address != ZERO_ADDRESS && FromSenders(steps)
    ensures var after := ScanRun(slots, steps);
      var arrivals := Arrivals(slots, steps, address);
      && MarkOf(after) == MarkAfter(MarkOf(slots), PdusSeen(arrivals))
      && TakenOut(slots, steps, address) + QueueFor(after, address) ==
           QueueFor(slots, address) + Entered(MarkOf(slots), arrivals)
    decreases |steps|
  {
    if steps == [] {
      assert PdusSeen([]) == [];
      assert [] + QueueFor(slots, address) == QueueFor(slots, address) + [];
    } else {
      var n := |steps| - 1;
      assert steps[n] in steps && FromSenders(steps[..n]);
      QueuesAccount(slots, steps[..n], address);
      CallsChain(slots, steps[..n], address);
      var mid := ScanRun(slots, steps[..n]);
      var before := Arrivals(slots, steps[..n], address);
      var now := SeenBy(mid, steps[n], address);
      PdusSeenConcat(before, now);
      hide QueueFor, StepSlots, SeenBy, TakenBy, MarkOf, MarkAfter, Entered, PdusSeen, FreeSlotsClean;
      StepQueues(mid, steps[n], address);
      MarkAfterAppend(MarkOf(slots), PdusSeen(before), PdusSeen(now));
      EnteredAppend(MarkOf(slots), before, now);
      Account(TakenOut(slots, steps[..n], address), QueueFor(mid, address), Entered(MarkOf(slots), before),
              QueueFor(slots, address), TakenBy(mid, steps[n], address), QueueFor(StepSlots(mid, steps[n]), address),
              Entered(MarkOf(mid), now));
    }
  }

  // ---- The authorisation event --------------------------------------------------------------------------

  /** Exactly when a scan raises the authorisation event: its frame passes the filter, and six PDUs or more
      of its sender wait afterwards. */
  lemma ScanRaisesIff(slots: seq<AuthSlot>, timestamp: int, frame: seq<byte>, address: Address)
    requires slots != [] && FreeSlotsClean(slots) && address != ZERO_ADDRESS
    ensures var after := StepSlots(slots, Arrive(timestamp, frame, address));
      Scan(slots, timestamp, frame, address).1 <==>
        HasMarker(frame) && SlotFor(slots, address).1 >= 0 && Lets(MarkOf(slots), Scanned(timestamp, frame))
        && |QueueFor(after, address)| >= 6
  {
    if HasMarker(frame) && SlotFor(slots, address).1 >= 0 {
      FirstFrameGetsSlot(slots, timestamp, frame, address);
      var (found, index) := SlotFor(slots, address);
      assert found[index].address == address && FirstWith(found, address) == index;
      OwnScan(found, timestamp, frame, address);
      hide Scanned, HasMarker, FirstWith, LastFree;
      assert QueueOf(found, address) == found[index].queue;
    }
  }

  /** No sender has two slots, the slots in use are the active ones, and free ones are as good as new. */
  predicate SlotsOk(slots: seq<AuthSlot>) {
    && FreeSlotsClean(slots)
    && (forall i :: 0 <= i < |slots| ==> (slots[i].active <==> slots[i].address != ZERO_ADDRESS))
    && (forall i, j :: 0 <= i < j < |slots| && slots[i].address != ZERO_ADDRESS ==> slots[i].address != slots[j].address)
  }

  /** A slot may change its predecessor, its queue and its marks. */
  lemma WriteKeepsOk(slots: seq<AuthSlot>, i: nat, slot: AuthSlot)
    requires SlotsOk(slots) && i < |slots| && slot.address == slots[i].address && slot.active == slots[i].active
    requires slot.address == ZERO_ADDRESS ==> slot.queue == [] && slot.last == ZERO_PDU
    ensures SlotsOk(slots[i := slot])
  {}

  lemma FreeIsNew(slots: seq<AuthSlot>, i: nat)
    requires SlotsOk(slots) && i < |slots| && slots[i].address == ZERO_ADDRESS
    ensures slots[i].queue == [] && slots[i].last == ZERO_PDU
  {}

  lemma StepKeepsOk(slots: seq<AuthSlot>, step: ScanStep)
    requires SlotsOk(slots) && (step.Arrive? ==> step.address != ZERO_ADDRESS)
    ensures SlotsOk(StepSlots(slots, step))
  {
    hide SlotsOk, SlotFor, Scanned, HasMarker, Passes, Authorise;
    match step
    case Arrive(timestamp, frame, address) =>
      SlotForOk(slots, address);
      var (found, index) := SlotFor(slots, address);
      if index >= 0 {
        var pdu := Scanned(timestamp, frame);
        var room := |found[index].queue| < CONSUMER_PRIVATE_QUEUE_SIZE;
        var sent := found[index := found[index].(queue := if room then found[index].queue + [pdu] else found[index].queue)];
        WriteKeepsOk(found, index, sent[index]);
        if sent[0].address == ZERO_ADDRESS { FreeIsNew(sent, 0); }
        WriteKeepsOk(sent, 0, sent[0].(lastPduNo := pdu.pduNo, lastKeyId := pdu.keyId));
      }
    case Take(index) =>
      if index < |slots| {
        if slots[index].address == ZERO_ADDRESS { FreeIsNew(slots, index); TakenIdle(slots[index]); }
        WriteKeepsOk(slots, index, AuthoriseSlot(slots[index]).0);
      }
  }

  lemma TakenIdle(slot: AuthSlot)
    requires slot.queue == [] && slot.last == ZERO_PDU
    ensures AuthoriseSlot(slot) == (slot, [])
  {
    assert slot.queue[..0] == [];
  }

  lemma SlotForOk(slots: seq<AuthSlot>, address: Address)
    requires SlotsOk(slots) && address != ZERO_ADDRESS
    ensures SlotsOk(SlotFor(slots, address).0)
  {}

  /** Over every run from unused slots. */
  lemma {:induction false} RunKeepsOk(slots: seq<AuthSlot>, steps: seq<ScanStep>)
    requires SlotsOk(slots) && FromSenders(steps)
    ensures SlotsOk(ScanRun(slots, steps))
    decreases |steps|
  {
    if steps != [] {
      var n := |steps| - 1;
      assert steps[n] in steps && FromSenders(steps[..n]);
      hide SlotsOk, StepSlots;
      RunKeepsOk(slots, steps[..n]);
      StepKeepsOk(ScanRun(slots, steps[..n]), steps[n]);
    }
  }

  /** The step is a beacon frame of this sender, and there is a slot for it. */
  predicate Earns(slots: seq<AuthSlot>, step: ScanStep, address: Address) {
    step.Arrive? && step.address == address && HasMarker(step.frame) && SlotFor(slots, address).1 >= 0
  }

  predicate EarnsAt(slots: seq<AuthSlot>, steps: seq<ScanStep>, k: nat, address: Address)
    requires k < |steps|
  {
    Earns(ScanRun(slots, steps[..k]), steps[k], address)
  }

  lemma StepSlotIff(slots: seq<AuthSlot>, step: ScanStep, address: Address)
    requires slots != [] && FreeSlotsClean(slots) && address != ZERO_ADDRESS && (step.Arrive? ==> step.address != ZERO_ADDRESS)
    ensures Active(StepSlots(slots, step), address) <==> Active(slots, address) || Earns(slots, step, address)
  {
    if Active(slots, address) {
      StepSeen(slots, step, address);
    } else {
      match step
      case Take(index) =>
        if index < |slots| { FirstElsewhere(slots, index, AuthoriseSlot(slots[index]).0, address); }
      case Arrive(timestamp, frame, from) =>
        if HasMarker(frame) && SlotFor(slots, from).1 >= 0 {
          if from == address {
            FirstFrameGetsSlot(slots, timestamp, frame, address);
            OwnScan(SlotFor(slots, address).0, timestamp, frame, address);
            hide StepSlots, HasMarker, SlotFor;
          } else {
            SeenFirst(slots, step, address);
            OthersArrive(slots, step, address);
          }
        }
    }
  }

  lemma SeenFirst(slots: seq<AuthSlot>, step: ScanStep, address: Address)
    requires step.Arrive? && HasMarker(step.frame) && SlotFor(slots, step.address).1 >= 0
    ensures SeenBy(slots, step, address) != []
  {}

  /** Exactly the senders of a beacon frame that found a slot have one; nothing else takes or ends it. */
  lemma {:induction false} SlotIffEarned(slots: seq<AuthSlot>, steps: seq<ScanStep>, address: Address)
    requires slots != [] && FreeSlotsClean(slots) && address != ZERO_ADDRESS && FromSenders(steps)
    ensures Active(ScanRun(slots, steps), address) <==>
      Active(slots, address) || exists k :: 0 <= k < |steps| && EarnsAt(slots, steps, k, address)
    decreases |steps|
  {
    hide StepSlots, Earns, FreeSlotsClean, Active;
    if steps != [] {
      var n := |steps| - 1;
      assert steps[n] in steps && FromSenders(steps[..n]);
      SlotIffEarned(slots, steps[..n], address);
      CallsChain(slots, steps[..n], address);
      StepSlotIff(ScanRun(slots, steps[..n]), steps[n], address);
      forall k | 0 <= k < n
        ensures EarnsAt(slots, steps[..n], k, address) == EarnsAt(slots, steps, k, address)
      {
        assert steps[..n][..k] == steps[..k];
      }
      assert Earns(ScanRun(slots, steps[..n]), steps[n], address) == EarnsAt(slots, steps, n, address);
    }
  }

  function Takes(n: nat): (steps: seq<ScanStep>)
    ensures |steps| == n
  {
    seq(n, i requires 0 <= i < n => Take(i))
  }

  /** What is granted of one sender. */
  function GrantedTo(granted: seq<Granted>, address: Address): seq<ScanPdu> {
    if granted == [] then []
    else (if granted[0].address == address then [granted[0].pdu] else []) + GrantedTo(granted[1..], address)
  }

  lemma {:induction false} GrantedConcat(a: seq<Granted>, b: seq<Granted>, address: Address)
    ensures GrantedTo(a + b, address) == GrantedTo(a, address) + GrantedTo(b, address)
  {
    if a == [] {
      assert a + b == b;
    } else {
      assert (a + b)[1..] == a[1..] + b;
      GrantedConcat(a[1..], b, address);
      var head := if a[0].address == address then [a[0].pdu] else [];
      assert head + (GrantedTo(a[1..], address) + GrantedTo(b, address)) == (head + GrantedTo(a[1..], address)) + GrantedTo(b, address);
    }
  }

  lemma {:induction false} GrantsOne(from: Address, pdus: seq<ScanPdu>, address: Address)
    ensures GrantedTo(Grants(from, pdus), address) == if from == address then pdus else []
  {
    if pdus != [] {
      assert Grants(from, pdus)[1..] == Grants(from, pdus[1..]);
      GrantsOne(from, pdus[1..], address);
    }
  }

  lemma FirstIs(slots: seq<AuthSlot>, i: nat, address: Address)
    requires SlotsOk(slots) && i < |slots| && address != ZERO_ADDRESS
    ensures FirstWith(slots, address) == i <==> slots[i].address == address
  {
    var k := FirstWith(slots, address);
    assert k < |slots| ==> slots[k].address == address;
  }

  lemma FreeSlotIdle(slots: seq<AuthSlot>, i: nat)
    requires SlotsOk(slots) && i < |slots| && !slots[i].active
    ensures AuthoriseSlot(slots[i]) == (slots[i], []) && slots[i].address == ZERO_ADDRESS
  {
    TakenIdle(slots[i]);
  }

  /** What a slot's turn grants of one sender. */
  lemma GrantedInTurn(slots: seq<AuthSlot>, i: nat, address: Address)
    requires SlotsOk(slots) && i < |slots| && address != ZERO_ADDRESS && slots[i].active
    ensures GrantedTo(Grants(slots[i].address, AuthoriseSlot(slots[i]).1), address) == ForwardedBy(slots, Take(i), address)
  {
    hide AuthoriseSlot, FirstWith, SlotsOk;
    FirstIs(slots, i, address);
    GrantsOne(slots[i].address, AuthoriseSlot(slots[i]).1, address);
  }

  lemma NoTurn(slots: seq<AuthSlot>, i: nat, address: Address)
    requires SlotsOk(slots) && i < |slots| && address != ZERO_ADDRESS && !slots[i].active
    ensures StepSlots(slots, Take(i)) == slots && ForwardedBy(slots, Take(i), address) == []
  {
    hide AuthoriseSlot, FirstWith, SlotsOk;
    FreeSlotIdle(slots, i);
    FirstIs(slots, i, address);
    assert slots[i := slots[i]] == slots;
  }

  /** The event serves every sender once: slots and grants are those of one authorisation after another,
      from the first slot to the last, and each sender is granted what its own slot forwards. */
  lemma {:induction false} EventServesAll(slots: seq<AuthSlot>, n: nat, address: Address)
    requires SlotsOk(slots) && n <= |slots| && address != ZERO_ADDRESS
    ensures var (after, granted) := ServeTo(slots, n);
      && after == ScanRun(slots, Takes(n))
      && GrantedTo(granted, address) == Forwarded(slots, Takes(n), address)
  {
    hide AuthoriseSlot, SlotsOk, ForwardedBy, GrantedTo, Takes;
    TakesSnoc(n);
    if n > 0 {
      EventServesAll(slots, n - 1, address);
      RunKeepsOk(slots, Takes(n - 1));
      var (before, granted) := ServeTo(slots, n - 1);
      var slot := slots[n - 1];
      if slot.active {
        GrantedInTurn(before, n - 1, address);
        GrantedConcat(granted, Grants(slot.address, AuthoriseSlot(slot).1), address);
      } else {
        NoTurn(before, n - 1, address);
        assert GrantedTo(granted, address) + [] == GrantedTo(granted, address);
      }
    } else {
      GrantedNone(address);
    }
  }

  lemma TakesSnoc(n: nat)
    ensures FromSenders(Takes(n)) && if n == 0 then Takes(n) == [] else Takes(n)[..n - 1] == Takes(n - 1) && Takes(n)[n - 1] == Take(n - 1)
  {}

  lemma GrantedNone(address: Address)
    ensures GrantedTo([], address) == []
  {}
}
