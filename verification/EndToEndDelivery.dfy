/** Delivery, end to end: from power-up, through timer, air, scanner, authorisation, processor, reconstructor
    and cache, to the observers. */
module EndToEndDelivery {
  import opened Bytes
  import opened Crypto
  import opened Options
  import opened Wire
  import opened BroadcasterSpec
  import opened BroadcasterTheorems
  import opened ScheduleTheorems
  import opened AuthorizeSpec
  import opened AuthorizeTheorems
  import opened FilterTheorems
  import opened AuthorizeRuns
  import Keys = KeyCacheSpec
  import opened ConsumerSpec
  import opened ConsumerTheorems
  import opened ProcessorSpec
  import opened PowerUp
  import Rebuild = ReconstructorSpec
  import opened ReconstructorTheorems
  import opened DeliveryTheorems
  import opened ReachableTheorems
  import opened SystemSpec
  import opened SystemTheorems
  import opened PromptSystem
  import opened Processor

  // ---- Sending -----------------------------------------------------------------------------------------

  function Sends(address: Address, inputs: seq<Input>): seq<Move> {
    if inputs == [] then [] else [Send(address, inputs[0])] + Sends(address, inputs[1..])
  }

  /** Sending changes nothing at the observer. */
  lemma {:induction false} PlaySends(p: Params, s: System, address: Address, inputs: seq<Input>)
    requires AllWellFormed(s.table.arr) && p.replaceAfter > 0 && address in s.senders
    ensures Possible(p, s, Sends(address, inputs))
    ensures var t := Play(p, s, Sends(address, inputs));
      t == s.(senders := t.senders, air := t.air, world := t.world)
    decreases |inputs|
  {
    if inputs != [] {
      var moves := Sends(address, inputs);
      assert moves[1..] == Sends(address, inputs[1..]);
      hide OnTimer, Learn, Record, Broadcast;
      PlaySends(p, Next(p, s, moves[0]), address, inputs[1..]);
    }
  }

  lemma {:induction false} SendsInputs(address: Address, inputs: seq<Input>)
    ensures InputsOf(Sends(address, inputs), address) == inputs && NoStart(Sends(address, inputs), address)
  {
    if inputs != [] {
      SendsInputs(address, inputs[1..]);
      assert Sends(address, inputs)[1..] == Sends(address, inputs[1..]);
      assert inputs == [inputs[0]] + inputs[1..];
    }
  }

  // ---- Scanning ----------------------------------------------------------------------------------------

  function Hears(address: Address, frames: seq<seq<byte>>, times: seq<int>): seq<Move>
    requires |frames| == |times|
  {
    if frames == [] then [] else [SystemSpec.Hear(address, frames[0], times[0])] + Hears(address, frames[1..], times[1..])
  }

  function Arrives(address: Address, frames: seq<seq<byte>>, times: seq<int>): (steps: seq<ScanStep>)
    requires |frames| == |times|
    ensures |steps| == |frames|
  {
    seq(|frames|, i requires 0 <= i < |frames| => Arrive(times[i], frames[i], address))
  }

  function ScannedAll(frames: seq<seq<byte>>, times: seq<int>): (pdus: seq<ScanPdu>)
    requires |frames| == |times|
    ensures |pdus| == |frames|
  {
    seq(|frames|, i requires 0 <= i < |frames| => Scanned(times[i], frames[i]))
  }

  /** Hearing changes nothing but the slots. */
  lemma {:induction false} PlayHears(p: Params, s: System, address: Address, frames: seq<seq<byte>>, times: seq<int>)
    requires AllWellFormed(s.table.arr) && p.replaceAfter > 0 && |frames| == |times|
    requires forall f :: f in frames ==> Aired(address, f) in s.air
    ensures Possible(p, s, Hears(address, frames, times))
    ensures Play(p, s, Hears(address, frames, times)) == s.(slots := ScanRun(s.slots, Arrives(address, frames, times)))
    decreases |frames|
  {
    hide Scan;
    if frames == [] {
      assert ScanRun(s.slots, []) == s.slots;
    } else {
      var moves := Hears(address, frames, times);
      assert frames[0] in frames && forall f :: f in frames[1..] ==> f in frames;
      assert moves[1..] == Hears(address, frames[1..], times[1..]);
      var t := Next(p, s, moves[0]);
      PlayHears(p, t, address, frames[1..], times[1..]);
      var first := Arrive(times[0], frames[0], address);
      assert Arrives(address, frames, times) == [first] + Arrives(address, frames[1..], times[1..]);
      assert [first][..0] == [] && ScanRun(s.slots, []) == s.slots;
      assert ScanRun(s.slots, [first]) == t.slots;
      ScanRunConcat(s.slots, [first], Arrives(address, frames[1..], times[1..]));
    }
  }

  /** PDUs of one session with growing numbers. */
  predicate Growing(pdus: seq<ScanPdu>, keyId: KeyId) {
    && (forall i :: 0 <= i < |pdus| ==> pdus[i].keyId == keyId)
    && (forall i, j :: 0 <= i < j < |pdus| ==> pdus[i].pduNo < pdus[j].pduNo)
  }

  /** Slots that have not heard anything. */
  predicate Unused(slots: seq<AuthSlot>) {
    slots != [] && forall i :: 0 <= i < |slots| ==> slots[i] == FRESH_SLOT
  }

  /** What has been heard waits in the sender's queue. */
  ghost predicate Queued(slots: seq<AuthSlot>, address: Address, pdus: seq<ScanPdu>) {
    && slots != [] && pdus != [] && FreeSlotsClean(slots) && Active(slots, address)
    && FirstWith(slots, address) == |slots| - 1 && QueueOf(slots, address) == pdus && LastOf(slots, address) == ZERO_PDU
    && MarkOf(slots) == Mark(pdus[|pdus| - 1].pduNo, pdus[|pdus| - 1].keyId)
  }

  lemma FirstScan(slots: seq<AuthSlot>, address: Address, frame: seq<byte>, time: int)
    requires Unused(slots) && address != ZERO_ADDRESS && HasMarker(frame) && Scanned(time, frame).keyId != 0
    ensures Queued(StepSlots(slots, Arrive(time, frame, address)), address, [Scanned(time, frame)])
  {
    var f := LastFree(slots, |slots|);
    assert f == |slots| - 1;
    assert FirstWith(slots, address) == |slots|;
    FirstFrameGetsSlot(slots, time, frame, address);
    var found := SlotFor(slots, address).0;
    ArriveKeepsLast(slots, Arrive(time, frame, address), address);
    assert found[f].address == address && FirstWith(found, address) == f;
    OwnScan(found, time, frame, address);
    ScanSeen(found, time, frame, address, address);
    hide Scanned, HasMarker, StepSlots, FirstWith, LastFree;
    assert [] + [Scanned(time, frame)] == [Scanned(time, frame)];
  }

  lemma NextScan(slots: seq<AuthSlot>, address: Address, pdus: seq<ScanPdu>, frame: seq<byte>, time: int)
    requires Queued(slots, address, pdus) && |pdus| < CONSUMER_PRIVATE_QUEUE_SIZE && address != ZERO_ADDRESS && HasMarker(frame)
    requires Scanned(time, frame).keyId == pdus[|pdus| - 1].keyId && Scanned(time, frame).pduNo > pdus[|pdus| - 1].pduNo
    ensures Queued(StepSlots(slots, Arrive(time, frame, address)), address, pdus + [Scanned(time, frame)])
  {
    OwnScan(slots, time, frame, address);
    ScanSeen(slots, time, frame, address, address);
    ArriveKeepsLast(slots, Arrive(time, frame, address), address);
    hide Scanned, HasMarker, StepSlots, QueueOf, Active, LastOf;
  }

  /** All frames of a session heard in order, up to 50, wait in their sender's queue. */
  lemma {:induction false} AllQueued(slots: seq<AuthSlot>, address: Address, frames: seq<seq<byte>>, times: seq<int>, keyId: KeyId)
    requires Unused(slots) && address != ZERO_ADDRESS && keyId != 0 && 0 < |frames| == |times| <= CONSUMER_PRIVATE_QUEUE_SIZE
    requires (forall f :: f in frames ==> HasMarker(f)) && Growing(ScannedAll(frames, times), keyId)
    ensures Queued(ScanRun(slots, Arrives(address, frames, times)), address, ScannedAll(frames, times))
    decreases |frames|
  {
    var n := |frames| - 1;
    var steps, pdus := Arrives(address, frames, times), ScannedAll(frames, times);
    assert frames[n] in frames && pdus[n] == Scanned(times[n], frames[n]);
    assert steps[..n] == Arrives(address, frames[..n], times[..n]) && steps[n] == Arrive(times[n], frames[n], address);
    assert pdus[..n] == ScannedAll(frames[..n], times[..n]) && pdus == pdus[..n] + [pdus[n]];
    assert forall f :: f in frames[..n] ==> f in frames;
    hide Scanned, HasMarker, StepSlots, Queued;
    if n == 0 {
      assert ScanRun(slots, steps[..0]) == slots && pdus == [pdus[0]];
      FirstScan(slots, address, frames[0], times[0]);
    } else {
      AllQueued(slots, address, frames[..n], times[..n], keyId);
      assert pdus[..n][n - 1] == pdus[n - 1];
      NextScan(ScanRun(slots, steps[..n]), address, pdus[..n], frames[n], times[n]);
    }
  }

  // ---- Authorising -------------------------------------------------------------------------------------

  function Authorisations(index: nat, n: nat): seq<Move> {
    if n == 0 then [] else [AuthorizeBatch(index)] + Authorisations(index, n - 1)
  }

  /** A queue cut into `n` batches of up to six. */
  function Cuts(queue: seq<ScanPdu>, n: nat): seq<seq<ScanPdu>> {
    if n == 0 then []
    else
      var k := BatchSize(queue);
      [queue[..k]] + Cuts(queue[k..], n - 1)
  }

  lemma {:induction false} CutsWhole(queue: seq<ScanPdu>, n: nat)
    requires |queue| <= n
    ensures Flatten(Cuts(queue, n)) == queue
    decreases n
  {
    if n > 0 {
      var k := BatchSize(queue);
      CutsWhole(queue[k..], n - 1);
      assert Cuts(queue, n)[1..] == Cuts(queue[k..], n - 1);
      assert queue == queue[..k] + queue[k..];
    }
  }

  lemma {:induction false} WalkShort(last: ScanPdu, batch: seq<ScanPdu>)
    ensures |Walk(last, batch).1| <= |batch|
    decreases |batch|
  {
    hide Vouches;
    if batch != [] { WalkShort(batch[0], batch[1..]); }
  }

  /** Authorising one sender's queue, batch after batch: what the calls forward joins the processor's
      queue. */
  lemma {:induction false} PlayAuthorisations(p: Params, s: System, index: nat, n: nat)
    requires AllWellFormed(s.table.arr) && p.replaceAfter > 0 && index < |s.slots|
    requires |s.queue| + |s.slots[index].queue| <= MAX_PROCESSING_QUEUE_ELEMENTS
    ensures var slot := s.slots[index];
      var out := AuthoriseAll(slot.last, Cuts(slot.queue, n)).1;
      && Possible(p, s, Authorisations(index, n))
      && var t := Play(p, s, Authorisations(index, n));
      t == s.(slots := t.slots, queue := s.queue + ReceivedOf(slot.address, out))
    decreases n
  {
    var slot := s.slots[index];
    hide Authorise, AuthoriseAll, Cuts, Authorisations, ReceivedOf, Next, Enabled;
    if n == 0 {
      NoAuthorisations(s.queue, slot, index);
    } else {
      MoreAuthorisations(slot, index, n);
      OneAuthorisation(p, s, index);
      var k := BatchSize(slot.queue);
      var (last, out) := Authorise(slot.last, slot.queue[..k]);
      AuthoriseShort(slot.last, slot.queue[..k]);
      PlayAuthorisations(p, Next(p, s, AuthorizeBatch(index)), index, n - 1);
      ReceivedMore(s.queue, slot.address, out, AuthoriseAll(last, Cuts(slot.queue[k..], n - 1)).1);
    }
  }

  function BatchSize(queue: seq<ScanPdu>): (k: nat)
    ensures k <= |queue|
  {
    if |queue| <= MAX_PDU_PROCESS_PER_CONSUMER then |queue| else MAX_PDU_PROCESS_PER_CONSUMER
  }

  lemma NoAuthorisations(queue: seq<Received>, slot: AuthSlot, index: nat)
    ensures Authorisations(index, 0) == [] && queue + ReceivedOf(slot.address, AuthoriseAll(slot.last, Cuts(slot.queue, 0)).1) == queue
  {}

  lemma MoreAuthorisations(slot: AuthSlot, index: nat, n: nat)
    requires n > 0
    ensures var moves := Authorisations(index, n);
      moves != [] && moves[0] == AuthorizeBatch(index) && moves[1..] == Authorisations(index, n - 1)
    ensures var k := BatchSize(slot.queue);
      var (last, out) := Authorise(slot.last, slot.queue[..k]);
      AuthoriseAll(slot.last, Cuts(slot.queue, n)).1 == out + AuthoriseAll(last, Cuts(slot.queue[k..], n - 1)).1
  {
    hide Authorise;
    assert Authorisations(index, n)[1..] == Authorisations(index, n - 1);
    assert Cuts(slot.queue, n)[1..] == Cuts(slot.queue[BatchSize(slot.queue)..], n - 1);
  }

  lemma ReceivedMore(queue: seq<Received>, address: Address, a: seq<ScanPdu>, b: seq<ScanPdu>)
    ensures queue + ReceivedOf(address, a) + ReceivedOf(address, b) == queue + ReceivedOf(address, a + b)
  {
    assert ReceivedOf(address, a + b) == ReceivedOf(address, a) + ReceivedOf(address, b);
  }

  lemma OneAuthorisation(p: Params, s: System, index: nat)
    requires AllWellFormed(s.table.arr) && p.replaceAfter > 0 && index < |s.slots|
    requires |s.queue| + |s.slots[index].queue| <= MAX_PROCESSING_QUEUE_ELEMENTS
    ensures var slot := s.slots[index];
      var k := BatchSize(slot.queue);
      var (last, out) := Authorise(slot.last, slot.queue[..k]);
      && Enabled(p, s, AuthorizeBatch(index))
      && Next(p, s, AuthorizeBatch(index)) ==
           s.(slots := s.slots[index := slot.(last := last, queue := slot.queue[k..])], queue := s.queue + ReceivedOf(slot.address, out))
  {
    var slot := s.slots[index];
    var k := BatchSize(slot.queue);
    var out := Authorise(slot.last, slot.queue[..k]).1;
    AuthoriseShort(slot.last, slot.queue[..k]);
    ForwardIsAppend(s.queue, slot.address, out);
    hide Authorise, Forward;
  }

  lemma AuthoriseShort(last: ScanPdu, batch: seq<ScanPdu>)
    ensures |Authorise(last, batch).1| <= |batch|
  {
    if last.timestamp != 0 { WalkShort(last, batch); } else if batch != [] { WalkShort(batch[0], batch[1..]); }
  }

  lemma {:induction false} AllButTheLast(pdus: seq<ScanPdu>, keyId: KeyId)
    requires pdus != [] && forall i :: 0 <= i < |pdus| ==> pdus[i].keyId == keyId
    ensures ButSessionEnds(pdus) == pdus[..|pdus| - 1]
  {
    if |pdus| > 1 {
      AllButTheLast(pdus[1..], keyId);
      assert pdus[..|pdus| - 1] == [pdus[0]] + pdus[1..][..|pdus| - 2];
    }
  }

  /** A punctual session's queue is forwarded but for its last PDU. */
  lemma ForwardedAllButLast(p: Params, s: System, address: Address, pdus: seq<ScanPdu>, keyId: KeyId)
    requires AllWellFormed(s.table.arr) && p.replaceAfter > 0 && Queued(s.slots, address, pdus) && s.queue == []
    requires |pdus| <= MAX_PROCESSING_QUEUE_ELEMENTS && Punctual(pdus)
    requires forall i :: 0 <= i < |pdus| ==> pdus[i].keyId == keyId && pdus[i].timestamp != 0
    ensures var moves := Authorisations(FirstWith(s.slots, address), |pdus|);
      && Possible(p, s, moves)
      && var t := Play(p, s, moves);
      t == s.(slots := t.slots, queue := ReceivedOf(address, pdus[..|pdus| - 1]))
  {
    var i := FirstWith(s.slots, address);
    var batches := Cuts(pdus, |pdus|);
    assert s.slots[i].queue == pdus && s.slots[i].last == ZERO_PDU && s.slots[i].address == address;
    hide Near, JitterUs, Tolerance, AdvInterval, Queued, Vouches;
    PlayAuthorisations(p, s, i, |pdus|);
    CutsWhole(pdus, |pdus|);
    BatchInvariance(batches);
    PunctualAllKept(pdus);
    AllButTheLast(pdus, keyId);
    assert [] + ReceivedOf(address, pdus[..|pdus| - 1]) == ReceivedOf(address, pdus[..|pdus| - 1]);
  }

  // ---- Frames on the air ---------------------------------------------------------------------------------

  /** An output that goes on the air, and what the receiving side reads from it. */
  lemma FrameRead(out: Output, time: int)
    requires !out.Refused? && (out.DataOut? ==> |out.pdu.payload| <= MAX_GAP_DATA_LEN - HEADER_SIZE && out.pdu.marker == MARKER)
    requires out.KeyOut? ==> out.fragment.marker == MARKER
    ensures |OnAir(out)| == 1
    ensures var frame := OnAir(out)[0];
      var pdu := Scanned(time, frame);
      && WellSized(frame) && Read(frame) == ReadingOf(out) && HasMarker(frame)
      && pdu.timestamp == time && pdu.frame == frame && pdu.pduNo == NumberOf(out)
      && pdu.keyId == KeyIdOf(if out.DataOut? then out.pdu.sessionData else out.fragment.sessionData)
  {
    match out
    case DataOut(pdu) =>
      DataFrameRoundTrip(pdu);
      assert ParseData(DataFrame(pdu)).pduNo == WordAt(DataFrame(pdu), 4);
      hide DataFrame, CommandOf, WordAt, HasMarker;
    case KeyOut(fragment) =>
      KeyFrameRoundTrip(fragment);
      assert ParseKey(KeyFrame(fragment)).pduNo == WordAt(KeyFrame(fragment), 4);
      assert ParseKey(KeyFrame(fragment)).sessionData == WordAt(KeyFrame(fragment), 6);
      hide KeyFrame, CommandOf, WordAt, Padded, HasMarker;
  }

  /** The payload of every data turn fits an advertisement. */
  predicate Fits(ratio: nat, inputs: seq<Input>, turns: seq<nat>) {
    forall k :: k in turns && k < |inputs| && !FragmentTurn(ratio, k) ==> |inputs[k].clear| <= MAX_GAP_DATA_LEN - HEADER_SIZE
  }

  /** The number of the packet sent at a turn. */
  function NumberAt(p: Params, k: nat): u16
    requires p.replaceAfter > 0
  {
    (k + 1) % p.replaceAfter % 0x1_0000
  }

  /** What a turn puts on the air. */
  lemma TurnOnAir(p: Params, first: Session, inputs: seq<Input>, k: nat, time: int)
    requires p.replaceAfter > 0 && OnTime(0, CallsOf(p.ratio, inputs), p.replaceAfter) && k < |inputs|
    requires !FragmentTurn(p.ratio, k) ==> |inputs[k].clear| <= MAX_GAP_DATA_LEN - HEADER_SIZE
    ensures var out := RunTimer(p.prims, FreshSender(first, p.ratio), p.replaceAfter, p.ratio, inputs).1[k];
      && |OnAir(out)| == 1 && !out.Refused?
      && var frame := OnAir(out)[0];
      var pdu := Scanned(time, frame);
      && WellSized(frame) && Read(frame) == ReadingOf(out) && HasMarker(frame) && pdu.timestamp == time
      && pdu.pduNo == NumberAt(p, k)
      && pdu.keyId == SessionOfCall(first, p.replaceAfter, CallsOf(p.ratio, inputs), k + 1).keyId
  {
    var calls := CallsOf(p.ratio, inputs);
    var out := RunTimer(p.prims, FreshSender(first, p.ratio), p.replaceAfter, p.ratio, inputs).1[k];
    ScheduleClosedForm(p.prims, first, p.replaceAfter, p.ratio, inputs);
    assert calls[k] == CallOf(p.ratio, k, inputs[k]) && !Oversized(calls[k]);
    var s := SessionOfCall(first, p.replaceAfter, calls, k + 1);
    SessionDataRoundTrip(s.keyId, 0);
    SessionDataRoundTrip(s.keyId, FragmentCalls(calls[..k]) % 4);
    hide CallsOf, OnTime, SessionOfCall, RunTimer, OutputAt, FragmentTurn, FragmentCalls, Scanned, Read, OnAir, HasMarker, WellSized;
    hide ProduceKeySessionData, KeyIdOf, Ctr, Mask;
    OutputClosedForm(p.prims, first, p.replaceAfter, calls, k);
    FrameRead(out, time);
  }

  function OutputsFor(p: Params, first: Session, inputs: seq<Input>): (outputs: seq<Output>)
    requires p.replaceAfter > 0
    ensures |outputs| == |inputs|
  {
    RunTimer(p.prims, FreshSender(first, p.ratio), p.replaceAfter, p.ratio, inputs).1
  }

  /** The session open at the beginning of the window. */
  function SessionAt(p: Params, first: Session, inputs: seq<Input>, start: nat): Session
    requires p.replaceAfter > 0 && start < |inputs|
  {
    SessionOfCall(first, p.replaceAfter, CallsOf(p.ratio, inputs), start + 1)
  }

  /** Turns of one session that are heard in order, up to 50 of them, the fragments of one window of four
      rounds among them and not last; and their payloads fit an advertisement. */
  predicate Hearing(p: Params, inputs: seq<Input>, start: nat, turns: seq<nat>) {
    && 0 < p.replaceAfter <= 0x1_0000 && OnTime(0, CallsOf(p.ratio, inputs), p.replaceAfter)
    && 0 < |turns| <= CONSUMER_PRIVATE_QUEUE_SIZE && Ascending(turns) && Fits(p.ratio, inputs, turns)
    && HeardTurns(p.ratio, p.replaceAfter, |inputs|, start, turns)
    && HeardTurns(p.ratio, p.replaceAfter, |inputs|, start, turns[..|turns| - 1])
  }

  predicate Audible(outputs: seq<Output>, turns: seq<nat>) {
    Within(turns, |outputs|) && forall k :: k in turns ==> |OnAir(outputs[k])| == 1
  }

  predicate Within(turns: seq<nat>, n: nat) {
    forall k :: k in turns ==> k < n
  }

  function FrameOf(out: Output): seq<byte> {
    if OnAir(out) == [] then [] else OnAir(out)[0]
  }

  function FramesHeard(outputs: seq<Output>, turns: seq<nat>): (frames: seq<seq<byte>>)
    requires Within(turns, |outputs|)
    ensures |frames| == |turns|
    ensures forall i :: 0 <= i < |turns| ==> turns[i] in turns && frames[i] == FrameOf(outputs[turns[i]])
  {
    seq(|turns|, i requires 0 <= i < |turns| => assert turns[i] in turns; FrameOf(outputs[turns[i]]))
  }

  lemma HeardOnAir(p: Params, first: Session, inputs: seq<Input>, start: nat, turns: seq<nat>)
    requires Hearing(p, inputs, start, turns)
    ensures Audible(OutputsFor(p, first, inputs), turns)
  {
    forall k | k in turns
      ensures k < |inputs| && |OnAir(OutputsFor(p, first, inputs)[k])| == 1
    {
      hide OnAir, RunTimer, FragmentTurn, OpenedBy, CallsOf, OnTime;
      TurnOnAir(p, first, inputs, k, 0);
    }
  }

  lemma TurnBounds(p: Params, inputs: seq<Input>, start: nat, turns: seq<nat>, i: nat)
    requires Hearing(p, inputs, start, turns) && i < |turns|
    ensures var k := turns[i];
      && k in turns && k < |inputs| && p.replaceAfter > 0 && OnTime(0, CallsOf(p.ratio, inputs), p.replaceAfter)
      && OpenedBy(0, k + 1, p.replaceAfter) == OpenedBy(0, start + 1, p.replaceAfter)
      && (!FragmentTurn(p.ratio, k) ==> |inputs[k].clear| <= MAX_GAP_DATA_LEN - HEADER_SIZE)
  {
    hide OpenedBy, CallsOf, OnTime, FragmentTurn;
  }

  lemma HearingFacts(p: Params, inputs: seq<Input>, start: nat, turns: seq<nat>)
    requires Hearing(p, inputs, start, turns)
    ensures 0 < p.replaceAfter <= 0x1_0000 && 0 < |turns| <= CONSUMER_PRIVATE_QUEUE_SIZE
    ensures Within(turns, |inputs|) && Within(turns[..|turns| - 1], |inputs|)
  {
    hide OnTime, CallsOf, OpenedBy, FragmentTurn, Fits, Ascending;
  }

  /** What is scanned of one turn. */
  lemma ScannedTurn(p: Params, first: Session, inputs: seq<Input>, start: nat, turns: seq<nat>, i: nat, time: int)
    requires Hearing(p, inputs, start, turns) && i < |turns| && start < |inputs|
    ensures Audible(OutputsFor(p, first, inputs), turns)
    ensures turns[i] in turns
    ensures var out := OutputsFor(p, first, inputs)[turns[i]];
      var frame := FramesHeard(OutputsFor(p, first, inputs), turns)[i];
      var pdu := Scanned(time, frame);
      && WellSized(frame) && Read(frame) == ReadingOf(out) && HasMarker(frame) && pdu.timestamp == time && pdu.frame == frame
      && pdu.pduNo == NumberAt(p, turns[i]) && pdu.keyId == SessionAt(p, first, inputs, start).keyId
  {
    hide Hearing, Audible, RunTimer, OnAir, FragmentTurn, OpenedBy, CallsOf, OnTime, SessionOfCall, Scanned, Read, HasMarker, WellSized, NumberAt;
    var k := turns[i];
    HearingFacts(p, inputs, start, turns);
    HeardOnAir(p, first, inputs, start, turns);
    TurnBounds(p, inputs, start, turns, i);
    ScannedFields(time, FramesHeard(OutputsFor(p, first, inputs), turns)[i]);
    SameSession(first, p.replaceAfter, CallsOf(p.ratio, inputs), k + 1, start + 1);
    TurnOnAir(p, first, inputs, k, time);
  }

  lemma ScannedFields(time: int, frame: seq<byte>)
    ensures Scanned(time, frame).frame == frame && Scanned(time, frame).timestamp == time
  {}

  /** The numbers of a session are as far apart as the turns. */
  lemma NumbersApart(p: Params, inputs: seq<Input>, start: nat, turns: seq<nat>, i: nat, j: nat)
    requires Hearing(p, inputs, start, turns) && i < j < |turns|
    ensures NumberAt(p, turns[j]) - NumberAt(p, turns[i]) == turns[j] - turns[i]
  {
    hide Hearing, OpenedBy, OnTime, CallsOf, FragmentTurn;
    HearingFacts(p, inputs, start, turns);
    TurnBounds(p, inputs, start, turns, i);
    TurnBounds(p, inputs, start, turns, j);
    FromZero(turns[i] + 1, p.replaceAfter);
    FromZero(turns[j] + 1, p.replaceAfter);
    SameRound(turns[i] + 1, turns[j] + 1, p.replaceAfter);
  }

  lemma SameRound(a: nat, b: nat, n: nat)
    requires 0 < n <= 0x1_0000 && a - a % n == b - b % n
    ensures b % n % 0x1_0000 - a % n % 0x1_0000 == b - a
  {}

  lemma TurnsAscend(p: Params, inputs: seq<Input>, start: nat, turns: seq<nat>, i: nat, j: nat)
    requires Hearing(p, inputs, start, turns) && i < j < |turns|
    ensures turns[i] < turns[j]
  {
    hide OnTime, CallsOf, OpenedBy, FragmentTurn, Fits, HeardTurns;
  }

  /** The numbers of a session grow with the turns. */
  lemma NumbersGrow(p: Params, inputs: seq<Input>, start: nat, turns: seq<nat>, i: nat, j: nat)
    requires Hearing(p, inputs, start, turns) && i < j < |turns|
    ensures NumberAt(p, turns[i]) < NumberAt(p, turns[j])
  {
    hide Hearing, NumberAt;
    HearingFacts(p, inputs, start, turns);
    NumbersApart(p, inputs, start, turns, i, j);
    TurnsAscend(p, inputs, start, turns, i, j);
  }

  lemma HeardGrow(p: Params, first: Session, inputs: seq<Input>, start: nat, turns: seq<nat>, times: seq<int>)
    requires Hearing(p, inputs, start, turns) && start < |inputs| && |times| == |turns|
    ensures Audible(OutputsFor(p, first, inputs), turns)
    ensures var frames := FramesHeard(OutputsFor(p, first, inputs), turns);
      && (forall f :: f in frames ==> HasMarker(f))
      && Growing(ScannedAll(frames, times), SessionAt(p, first, inputs, start).keyId)
      && forall i :: 0 <= i < |times| ==> ScannedAll(frames, times)[i].timestamp == times[i]
  {
    hide OnAir, RunTimer, SessionAt, Scanned, HasMarker, FramesHeard, OutputsFor, Hearing, Audible, NumberAt, WellSized, Read;
    HearingFacts(p, inputs, start, turns);
    HeardOnAir(p, first, inputs, start, turns);
    var frames := FramesHeard(OutputsFor(p, first, inputs), turns);
    var pdus := ScannedAll(frames, times);
    forall i | 0 <= i < |turns|
      ensures pdus[i].keyId == SessionAt(p, first, inputs, start).keyId && HasMarker(frames[i]) && pdus[i].timestamp == times[i]
      ensures pdus[i].pduNo == NumberAt(p, turns[i])
    {
      ScannedTurn(p, first, inputs, start, turns, i, times[i]);
    }
    forall i, j | 0 <= i < j < |pdus|
      ensures pdus[i].pduNo < pdus[j].pduNo
    {
      NumbersGrow(p, inputs, start, turns, i, j);
    }
  }

  /** What reaches the processor reads as what was put out, but for the last turn. */
  lemma ReadAsSent(p: Params, first: Session, inputs: seq<Input>, start: nat, turns: seq<nat>, times: seq<int>, address: Address)
    requires Hearing(p, inputs, start, turns) && start < |inputs| && |times| == |turns|
    ensures Audible(OutputsFor(p, first, inputs), turns)
    ensures var outputs := OutputsFor(p, first, inputs);
      var n := |turns| - 1;
      var queue := ReceivedOf(address, ScannedAll(FramesHeard(outputs, turns), times)[..n]);
      && FramesOf(queue, address)
      && Within(turns[..n], |outputs|)
      && Readings(queue, address) == ReadingsOf(outputs, turns[..n])
  {
    hide OnAir, RunTimer, SessionAt, Scanned, HasMarker, FramesHeard, OutputsFor, Hearing, Audible, NumberAt, WellSized, Read, ReadingOf;
    hide ReceivedOf, ScannedAll, Within;
    HearingFacts(p, inputs, start, turns);
    HeardOnAir(p, first, inputs, start, turns);
    var outputs, n := OutputsFor(p, first, inputs), |turns| - 1;
    var pdus := ScannedAll(FramesHeard(outputs, turns), times);
    var queue := ReceivedOf(address, pdus[..n]);
    forall i | 0 <= i < n
      ensures turns[i] < |outputs|
      ensures queue[i].address == address && WellSized(queue[i].frame) && Read(queue[i].frame) == ReadingOf(outputs[turns[i]])
    {
      ReadTurn(p, first, inputs, start, turns, times, i);
    }
    SameReadings(queue, address, outputs, turns[..n]);
  }

  lemma ReadTurn(p: Params, first: Session, inputs: seq<Input>, start: nat, turns: seq<nat>, times: seq<int>, i: nat)
    requires Hearing(p, inputs, start, turns) && start < |inputs| && |times| == |turns| && i < |turns|
    ensures Audible(OutputsFor(p, first, inputs), turns) && turns[i] < |inputs|
    ensures var outputs := OutputsFor(p, first, inputs);
      var frame := ScannedAll(FramesHeard(outputs, turns), times)[i].frame;
      WellSized(frame) && Read(frame) == ReadingOf(outputs[turns[i]])
  {
    HearingFacts(p, inputs, start, turns);
    hide OnAir, RunTimer, SessionAt, Scanned, HasMarker, FramesHeard, OutputsFor, Hearing, NumberAt, WellSized, Read, ReadingOf;
    ScannedTurn(p, first, inputs, start, turns, i, times[i]);
  }

  lemma SameReadings(queue: seq<Received>, address: Address, outputs: seq<Output>, turns: seq<nat>)
    requires |queue| == |turns| && Within(turns, |outputs|)
    requires forall i :: 0 <= i < |turns| ==>
      && turns[i] < |outputs| && queue[i].address == address && WellSized(queue[i].frame)
      && Read(queue[i].frame) == ReadingOf(outputs[turns[i]])
    ensures FramesOf(queue, address) && Readings(queue, address) == ReadingsOf(outputs, turns)
  {
    hide WellSized, Read, ReadingOf;
  }

  // ---- The whole way ---------------------------------------------------------------------------------------

  /** Processor and reconstructor have not been at work. */
  predicate SameObserver(s: System, t: System) {
    t.table == s.table && t.fragments == s.fragments && t.km == s.km && t.trace == s.trace
  }

  /** The observer hears frames, and authorises the queue of their slot until it is empty. */
  function HeardAndGranted(address: Address, frames: seq<seq<byte>>, times: seq<int>, slot: nat): seq<Move>
    requires |frames| == |times|
  {
    Hears(address, frames, times) + Authorisations(slot, |frames|)
  }

  /** A punctual session's frames, as many as a private queue holds. */
  predicate Passable(frames: seq<seq<byte>>, times: seq<int>, keyId: KeyId) {
    && 0 < |frames| == |times| <= CONSUMER_PRIVATE_QUEUE_SIZE && keyId != 0
    && (forall f :: f in frames ==> HasMarker(f))
    && Growing(ScannedAll(frames, times), keyId) && Punctual(ScannedAll(frames, times))
    && (forall i :: 0 <= i < |times| ==> times[i] != 0 && ScannedAll(frames, times)[i].timestamp == times[i])
  }

  predicate AllSent(frames: seq<seq<byte>>, address: Address, outputs: seq<Output>) {
    forall f :: f in frames ==> IsFrameOf(Aired(address, f), address, outputs)
  }

  /** The moves can be made, and lead to `t`. */
  ghost predicate Reaches(p: Params, s: System, moves: seq<Move>, t: System) {
    AllWellFormed(s.table.arr) && Possible(p, s, moves) && Play(p, s, moves) == t
  }

  lemma ReachesOnward(p: Params, s: System, a: seq<Move>, t: System, b: seq<Move>, u: System)
    requires Reaches(p, s, a, t) && Reaches(p, t, b, u)
    ensures Reaches(p, s, a + b, u) && AllWellFormed(u.table.arr)
  {
    PlayConcat(p, s, a, b);
    hide Next, Enabled;
  }

  lemma NotEmpty(slots: seq<AuthSlot>, frames: seq<seq<byte>>, times: seq<int>, keyId: KeyId)
    requires Unused(slots) && Passable(frames, times, keyId)
    ensures |slots| > 0 && |frames| > 0
  {}

  /** The system once everything heard has been authorised. */
  lemma UpToQueue(p: Params, s: System, address: Address, inputs: seq<Input>, frames: seq<seq<byte>>, times: seq<int>, keyId: KeyId)
    returns (t: System)
    requires AllWellFormed(s.table.arr) && p.replaceAfter > 0 && Unused(s.slots) && s.queue == [] && address != ZERO_ADDRESS
    requires address in s.senders && |frames| == |times| && Passable(frames, times, keyId)
    requires AllSent(frames, address, RunTimer(p.prims, s.senders[address], p.replaceAfter, p.ratio, inputs).1)
    ensures Reaches(p, s, Sends(address, inputs) + HeardAndGranted(address, frames, times, |s.slots| - 1), t)
    ensures SameObserver(s, t) && t.queue == ReceivedOf(address, ScannedAll(frames, times)[..|frames| - 1])
  {
    hide Reaches, Sends, HeardAndGranted, Passable, AllSent, Unused, ReceivedOf, ScannedAll, RunTimer, AllWellFormed;
    NotEmpty(s.slots, frames, times, keyId);
    var mid := SentAndAired(p, s, address, inputs, frames);
    t := ScannedAndForwarded(p, mid, address, frames, times, keyId);
    ReachesOnward(p, s, Sends(address, inputs), mid, HeardAndGranted(address, frames, times, |s.slots| - 1), t);
  }

  lemma SentAndAired(p: Params, s: System, address: Address, inputs: seq<Input>, frames: seq<seq<byte>>) returns (t: System)
    requires AllWellFormed(s.table.arr) && p.replaceAfter > 0 && address in s.senders
    requires AllSent(frames, address, RunTimer(p.prims, s.senders[address], p.replaceAfter, p.ratio, inputs).1)
    ensures Reaches(p, s, Sends(address, inputs), t) && AllWellFormed(t.table.arr)
    ensures SameObserver(s, t) && t.slots == s.slots && t.queue == s.queue
    ensures forall f :: f in frames ==> Aired(address, f) in t.air
  {
    PlaySends(p, s, address, inputs);
    SendsInputs(address, inputs);
    t := Play(p, s, Sends(address, inputs));
    hide Play, Possible, Sends, IsFrameOf, RunTimer, InputsOf, NoStart;
    forall f | f in frames
      ensures Aired(address, f) in t.air
    {
      AirIsSent(p, s, Sends(address, inputs), address, Aired(address, f));
    }
  }

  lemma ScannedAndForwarded(p: Params, s: System, address: Address, frames: seq<seq<byte>>, times: seq<int>, keyId: KeyId)
    returns (t: System)
    requires AllWellFormed(s.table.arr) && p.replaceAfter > 0 && Unused(s.slots) && s.queue == [] && address != ZERO_ADDRESS
    requires |frames| == |times| && Passable(frames, times, keyId) && forall f :: f in frames ==> Aired(address, f) in s.air
    ensures Reaches(p, s, HeardAndGranted(address, frames, times, |s.slots| - 1), t)
    ensures SameObserver(s, t) && t.queue == ReceivedOf(address, ScannedAll(frames, times)[..|frames| - 1])
  {
    var pdus := ScannedAll(frames, times);
    forall i | 0 <= i < |pdus| ensures pdus[i].keyId == keyId && pdus[i].timestamp != 0 {}
    hide Play, Possible, Hears, Authorisations, Punctual, Scanned, HasMarker, ScanRun, ScannedAll, ReceivedOf;
    PlayHears(p, s, address, frames, times);
    var mid := Play(p, s, Hears(address, frames, times));
    AllQueued(s.slots, address, frames, times, keyId);
    assert Queued(mid.slots, address, pdus);
    assert FirstWith(mid.slots, address) == |s.slots| - 1;
    hide Queued, Growing, Unused;
    ForwardedAllButLast(p, mid, address, pdus, keyId);
    t := Play(p, mid, Authorisations(|s.slots| - 1, |frames|));
    ReachesOnward(p, s, Hears(address, frames, times), mid, Authorisations(|s.slots| - 1, |frames|), t);
  }

  lemma NewcomerAwaits(address: Address, cacheSize: nat, at: nat, ss: Session)
    requires cacheSize > 0 && Low(ss.keyId) != 0
    ensures var c := Newcomer(address, cacheSize, at);
      Awaits(Receiver(c, map[]), ss) && c.address == address && c.deferred == [] && WellFormed(c)
  {
    NewcomerQuiet(address, cacheSize, at);
    hide Keys.View, Keys.Ok;
  }

  lemma BlankGathers(km: seq<Rebuild.Entry>, pair: Rebuild.Pair)
    requires km != [] && AllBlank(km)
    ensures Gathers(km, map[], pair)
  {
    forall p: Rebuild.Pair ensures p !in Rebuild.View(km) { Rebuild.InView(km, p); }
  }

  /** Admitting the sender of the first frame beforehand comes to the same. */
  lemma AdmitsFirst(p: Params, s: System, address: Address, cacheSize: nat, x: Received, rest: seq<Received>, at: nat, pair: Rebuild.Pair)
    requires p.replaceAfter > 0 && s.table.arr != [] && s.table == FreshTable(|s.table.arr|, cacheSize) && s.km != [] && AllBlank(s.km)
    requires s.queue == [x] + rest && x.address == address == pair.address && address != ZERO_ADDRESS && WellSized(x.frame)
    requires s.fragments == [] && s.trace == []
    ensures var c := Newcomer(address, cacheSize, at);
      var u := s.(table := Table(s.table.arr[0 := c], 1));
      && Stands(u, 0, pair, c, map[], [x] + rest, [], [])
      && AllWellFormed(s.table.arr) && Enabled(p, s, ProcessPdu(at)) && Enabled(p, u, ProcessPdu(at))
      && Next(p, s, ProcessPdu(at)) == Next(p, u, ProcessPdu(at))
  {
    var c := Newcomer(address, cacheSize, at);
    var t, v := s.table, Table(s.table.arr[0 := c], 1);
    assert t.arr[0] == FreshConsumer(cacheSize) && Find(t.arr, ZERO_ADDRESS) == 0;
    assert Find(t.arr, address) == |t.arr|;
    NewcomerQuiet(address, cacheSize, at);
    assert v.arr[0] == c && Find(v.arr, address) == 0;
    assert OthersIdle(v.arr, 0);
    BlankGathers(s.km, pair);
    hide Gathers, Read, Reset, FreshConsumer, Keys.Ok, Keys.View, AllBlank;
    assert Acquire(t, address, at) == (v, Some(0));
    assert c.(stamp := TickStamp.Save(c.stamp, at)) == c;
    AdmittedStep(t, v, 0, address, FrameStep(Read(x.frame), at));
    hide Find, Acquire, FrameFor, Request, Newcomer;
  }

  /** The frames of a session that wait at an observer that has heard nothing yet. */
  lemma FromQueue(p: Params, s: System, address: Address, ss: Session, cacheSize: nat, at: nat)
    requires p.replaceAfter > 0 && s.table.arr != [] && s.table == FreshTable(|s.table.arr|, cacheSize) && s.km != [] && AllBlank(s.km)
    requires cacheSize > 0 && s.queue != [] && FramesOf(s.queue, address) && address != ZERO_ADDRESS && Low(ss.keyId) != 0
    requires forall x :: x in Readings(s.queue, address) ==> FromSession(p.prims, address, ss, x)
    requires s.fragments == [] && s.trace == []
    ensures AllWellFormed(s.table.arr) && Possible(p, s, Cycles(|s.queue|, at))
    ensures var c := Newcomer(address, cacheSize, at);
      && WellFormed(c)
      && Play(p, s, Cycles(|s.queue|, at)).trace ==
           TagAll(address, DeliveryTheorems.Hear(p.prims, Receiver(c, map[]), Readings(s.queue, address), at).1)
  {
    var c := Newcomer(address, cacheSize, at);
    var pair := Rebuild.Pair(address, Low(ss.keyId));
    var x, rest := s.queue[0], s.queue[1..];
    var u := s.(table := Table(s.table.arr[0 := c], 1));
    var moves := Cycles(|s.queue|, at);
    assert x in s.queue && s.queue == [x] + rest;
    NewcomerAwaits(address, cacheSize, at, ss);
    AdmitsFirst(p, s, address, cacheSize, x, rest, at, pair);
    assert moves[0] == ProcessPdu(at) && moves != [];
    hide Awaits, Next, Enabled, AllBlank, FreshTable, Newcomer, Cycles, FromSession, FramesOf, Readings, Low, DeliveryTheorems.Hear;
    CyclesAreHear(p, u, 0, Receiver(c, map[]), ss, pair, s.queue, [], at);
    SameFirstMove(p, s, u, moves);
    assert [] + TagAll(address, DeliveryTheorems.Hear(p.prims, Receiver(c, map[]), Readings(s.queue, address), at).1) ==
           TagAll(address, DeliveryTheorems.Hear(p.prims, Receiver(c, map[]), Readings(s.queue, address), at).1);
  }

  lemma SameFirstMove(p: Params, s: System, u: System, moves: seq<Move>)
    requires AllWellFormed(s.table.arr) && AllWellFormed(u.table.arr) && moves != [] && Enabled(p, s, moves[0]) && Enabled(p, u, moves[0])
    requires Next(p, s, moves[0]) == Next(p, u, moves[0]) && Possible(p, u, moves)
    ensures Possible(p, s, moves) && Play(p, s, moves) == Play(p, u, moves)
  {
    hide Next, Enabled;
  }

  // ---- What the observers are told -------------------------------------------------------------------------

  /** The notifications for PDUs opened with one key. */
  function NotesFor(prims: Primitives, address: Address, key: Key, pdus: seq<DataPdu>): seq<Notification> {
    if pdus == [] then []
    else NotificationsFor(prims, Tagged(address, Delivered(pdus[0], key))) + NotesFor(prims, address, key, pdus[1..])
  }

  lemma {:induction false} NotifiedConcat(prims: Primitives, a: seq<Tagged>, b: seq<Tagged>)
    ensures Notified(prims, a + b) == Notified(prims, a) + Notified(prims, b)
    decreases |b|
  {
    hide NotificationsFor;
    if b == [] {
      assert a + b == a;
    } else {
      var n := |b| - 1;
      assert (a + b)[..|a| + n] == a + b[..n];
      NotifiedConcat(prims, a, b[..n]);
      Regroup(Notified(prims, a), Notified(prims, b[..n]), NotificationsFor(prims, b[n]));
    }
  }

  lemma {:induction false} NotedUnderKey(prims: Primitives, address: Address, key: Key, events: seq<Event>)
    requires UnderKey(events, key)
    ensures Notified(prims, TagAll(address, events)) == NotesFor(prims, address, key, PdusOf(events, Sent))
  {
    if events == [] {
      assert TagAll(address, events) == [];
    } else {
      var first, rest := Tagged(address, events[0]), TagAll(address, events[1..]);
      assert TagAll(address, events) == [first] + rest && events[0] in events;
      assert forall e :: e in events[1..] ==> e in events;
      NotedUnderKey(prims, address, key, events[1..]);
      NotifiedConcat(prims, [first], rest);
      assert [first][..0] == [];
      assert Notified(prims, [first]) == NotificationsFor(prims, first);
      var pdus, more := PdusOf(events, Sent), PdusOf(events[1..], Sent);
      hide Open, Notified;
      if events[0].Delivered? {
        assert events[0] == Delivered(events[0].pdu, key) && KindOf(events[0]) == Some(Sent);
        assert pdus == [events[0].pdu] + more && pdus[1..] == more;
      } else {
        assert KindOf(events[0]) != Some(Sent) && pdus == [] + more == more;
        assert NotificationsFor(prims, first) == [];
      }
    }
  }

  /** What the application gave the sender at the data turns heard, but for empty payloads. */
  function Told(address: Address, ratio: nat, inputs: seq<Input>, turns: seq<nat>): seq<Notification>
    requires forall k :: k in turns ==> k < |inputs|
  {
    if turns == [] then []
    else
      assert turns[0] in turns && forall k :: k in turns[1..] ==> k in turns;
      (if FragmentTurn(ratio, turns[0]) || inputs[turns[0]].clear == [] then []
       else [Notification(address, inputs[turns[0]].clear)])
      + Told(address, ratio, inputs, turns[1..])
  }

  /** Every turn heard comes out as what went in. */
  predicate OpensRight(prims: Primitives, key: Key, ratio: nat, inputs: seq<Input>, outputs: seq<Output>, turns: seq<nat>) {
    && (forall k :: k in turns ==> k < |inputs| == |outputs|)
    && (forall k :: k in turns ==> (FragmentTurn(ratio, k) <==> outputs[k].KeyOut?) && !outputs[k].Refused?)
    && (forall k :: k in turns && outputs[k].DataOut? ==> Open(prims, key, outputs[k].pdu) == inputs[k].clear)
  }

  lemma {:induction false} NotesAreTold(prims: Primitives, address: Address, key: Key, ratio: nat, inputs: seq<Input>,
                                        outputs: seq<Output>, turns: seq<nat>)
    requires OpensRight(prims, key, ratio, inputs, outputs, turns)
    ensures NotesFor(prims, address, key, DataOf(ReadingsOf(outputs, turns))) == Told(address, ratio, inputs, turns)
    decreases |turns|
  {
    if turns != [] {
      var k := turns[0];
      assert k in turns && forall j :: j in turns[1..] ==> j in turns;
      NotesAreTold(prims, address, key, ratio, inputs, outputs, turns[1..]);
      var readings := ReadingsOf(outputs, turns);
      assert readings[1..] == ReadingsOf(outputs, turns[1..]) && readings[0] == ReadingOf(outputs[k]);
      hide Open, FragmentTurn;
      if outputs[k].DataOut? {
        assert DataOf(readings) == [outputs[k].pdu] + DataOf(readings[1..]);
        assert DataOf(readings)[1..] == DataOf(readings[1..]);
      } else {
        assert DataOf(readings) == [] + DataOf(readings[1..]) == DataOf(readings[1..]);
      }
    }
  }

  lemma TurnsOpenRight(p: Params, first: Session, inputs: seq<Input>, start: nat, turns: seq<nat>)
    requires Hearing(p, inputs, start, turns) && start < |inputs|
    ensures OpensRight(p.prims, SessionAt(p, first, inputs, start).key, p.ratio, inputs, OutputsFor(p, first, inputs), turns)
  {
    hide Hearing, OutputsFor, SessionAt, FragmentTurn, Open;
    HearingFacts(p, inputs, start, turns);
    forall i | 0 <= i < |turns|
      ensures turns[i] < |inputs| && OpensTurn(p, first, inputs, start, turns[i])
    {
      TurnOpensRight(p, first, inputs, start, turns, i);
    }
  }

  predicate OpensTurn(p: Params, first: Session, inputs: seq<Input>, start: nat, k: nat)
    requires p.replaceAfter > 0 && start < |inputs| && k < |inputs|
  {
    var out := OutputsFor(p, first, inputs)[k];
    && (FragmentTurn(p.ratio, k) <==> out.KeyOut?) && !out.Refused?
    && (out.DataOut? ==> Open(p.prims, SessionAt(p, first, inputs, start).key, out.pdu) == inputs[k].clear)
  }

  lemma TurnOpensRight(p: Params, first: Session, inputs: seq<Input>, start: nat, turns: seq<nat>, i: nat)
    requires Hearing(p, inputs, start, turns) && start < |inputs| && i < |turns|
    ensures p.replaceAfter > 0 && turns[i] < |inputs| && OpensTurn(p, first, inputs, start, turns[i])
  {
    hide Hearing, RunTimer, SessionOfCall, OnTime, CallsOf, OpenedBy, FragmentTurn, Open, PduKeyId, OnAir, Scanned, Read, HasMarker, WellSized;
    hide NumberAt;
    var k := turns[i];
    TurnBounds(p, inputs, start, turns, i);
    SameSession(first, p.replaceAfter, CallsOf(p.ratio, inputs), k + 1, start + 1);
    TurnOnAir(p, first, inputs, k, 0);
    if FragmentTurn(p.ratio, k) {
      FragmentOutput(p.prims, first, p.replaceAfter, p.ratio, inputs, k);
    } else {
      DataTurn(p.prims, first, p.replaceAfter, p.ratio, inputs, k);
    }
  }

  // ---- The theorem -------------------------------------------------------------------------------------------

  /** The turns heard arrive at times, none of them zero, that are as far apart as the session's interval
      says, to within the tolerance. */
  predicate Rhythm(keyId: KeyId, turns: seq<nat>, times: seq<int>) {
    && |times| == |turns| && (forall i :: 0 <= i < |times| ==> times[i] != 0)
    && (forall i, j :: 0 <= i < j < |turns| ==>
          && 0 <= times[j] - times[i] < HALF_WORD * 1000
          && Abs(times[j] - times[i] - (turns[j] - turns[i]) * AdvInterval(keyId) * 1000) <= 1000 * Tolerance(AdvInterval(keyId)))
  }

  lemma RhythmIsPunctual(p: Params, first: Session, inputs: seq<Input>, start: nat, turns: seq<nat>, times: seq<int>)
    requires Hearing(p, inputs, start, turns) && start < |inputs| && Rhythm(SessionAt(p, first, inputs, start).keyId, turns, times)
    ensures Within(turns, |inputs|)
    ensures Punctual(ScannedAll(FramesHeard(OutputsFor(p, first, inputs), turns), times))
  {
    hide Hearing, SessionAt, OutputsFor, Scanned, OnAir, Tolerance, AdvInterval, HasMarker, WellSized, Read, FramesHeard, FrameOf, NumberAt;
    hide Near, JitterUs, Rhythm, Audible, Within;
    HearingFacts(p, inputs, start, turns);
    var id := SessionAt(p, first, inputs, start).keyId;
    HeardOnAir(p, first, inputs, start, turns);
    RhythmTimed(id, turns, times);
    var pdus := ScannedAll(FramesHeard(OutputsFor(p, first, inputs), turns), times);
    forall i, j | 0 <= i < j < |pdus|
      ensures Near(pdus[i], pdus[j]) && Abs(JitterUs(pdus[i], pdus[j])) <= 1000 * Tolerance(AdvInterval(pdus[j].keyId))
    {
      RhythmAt(id, turns, times, i, j);
      ScannedTurn(p, first, inputs, start, turns, i, times[i]);
      ScannedTurn(p, first, inputs, start, turns, j, times[j]);
      NumbersApart(p, inputs, start, turns, i, j);
      TurnsAscend(p, inputs, start, turns, i, j);
      RhythmOfPair(pdus[i], pdus[j], turns[j] - turns[i], id);
    }
  }

  lemma RhythmAt(keyId: KeyId, turns: seq<nat>, times: seq<int>, i: nat, j: nat)
    requires Rhythm(keyId, turns, times) && i < j < |turns|
    ensures |times| == |turns| && 0 <= times[j] - times[i] < HALF_WORD * 1000
    ensures Abs(times[j] - times[i] - (turns[j] - turns[i]) * AdvInterval(keyId) * 1000) <= 1000 * Tolerance(AdvInterval(keyId))
  {
    hide AdvInterval, Tolerance;
  }

  lemma RhythmOfPair(a: ScanPdu, b: ScanPdu, gap: nat, keyId: KeyId)
    requires a.keyId == keyId == b.keyId && b.pduNo - a.pduNo == gap > 0 && 0 <= b.timestamp - a.timestamp < HALF_WORD * 1000
    requires Abs(b.timestamp - a.timestamp - gap * AdvInterval(keyId) * 1000) <= 1000 * Tolerance(AdvInterval(keyId))
    ensures Near(a, b) && Abs(JitterUs(a, b)) <= 1000 * Tolerance(AdvInterval(b.keyId))
  {
    hide AdvInterval, Tolerance;
  }

  lemma HeardPasses(p: Params, address: Address, first: Session, inputs: seq<Input>, start: nat, turns: seq<nat>, times: seq<int>)
    requires Hearing(p, inputs, start, turns) && start < |inputs| && Low(SessionAt(p, first, inputs, start).keyId) != 0
    requires Rhythm(SessionAt(p, first, inputs, start).keyId, turns, times)
    ensures Within(turns, |inputs|)
    ensures var frames := FramesHeard(OutputsFor(p, first, inputs), turns);
      && Passable(frames, times, SessionAt(p, first, inputs, start).keyId)
      && AllSent(frames, address, OutputsFor(p, first, inputs))
  {
    hide Hearing, Rhythm, OutputsFor, SessionAt, FramesHeard, Passable, AllSent, Audible, Within, Low;
    HearingFacts(p, inputs, start, turns);
    HeardOnAir(p, first, inputs, start, turns);
    HeardIsSent(p, address, first, inputs, turns);
    RhythmTimed(SessionAt(p, first, inputs, start).keyId, turns, times);
    HeardGrow(p, first, inputs, start, turns, times);
    RhythmIsPunctual(p, first, inputs, start, turns, times);
    LowNonZero(SessionAt(p, first, inputs, start).keyId);
    IsPassable(FramesHeard(OutputsFor(p, first, inputs), turns), times, SessionAt(p, first, inputs, start).keyId);
  }

  lemma LowNonZero(keyId: KeyId)
    requires Low(keyId) != 0
    ensures keyId != 0
  {}

  lemma RhythmTimed(keyId: KeyId, turns: seq<nat>, times: seq<int>)
    requires Rhythm(keyId, turns, times)
    ensures |times| == |turns| && forall i :: 0 <= i < |times| ==> times[i] != 0
  {
    hide AdvInterval, Tolerance;
  }

  lemma IsPassable(frames: seq<seq<byte>>, times: seq<int>, keyId: KeyId)
    requires 0 < |frames| == |times| <= CONSUMER_PRIVATE_QUEUE_SIZE && keyId != 0 && forall f :: f in frames ==> HasMarker(f)
    requires Growing(ScannedAll(frames, times), keyId) && Punctual(ScannedAll(frames, times))
    requires forall i :: 0 <= i < |times| ==> times[i] != 0 && ScannedAll(frames, times)[i].timestamp == times[i]
    ensures Passable(frames, times, keyId)
  {}

  lemma HeardIsSent(p: Params, address: Address, first: Session, inputs: seq<Input>, turns: seq<nat>)
    requires p.replaceAfter > 0 && Audible(OutputsFor(p, first, inputs), turns)
    ensures AllSent(FramesHeard(OutputsFor(p, first, inputs), turns), address, OutputsFor(p, first, inputs))
  {
    var outputs := OutputsFor(p, first, inputs);
    var frames := FramesHeard(outputs, turns);
    hide OutputsFor, OnAir;
    forall f | f in frames
      ensures IsFrameOf(Aired(address, f), address, outputs)
    {
      var i :| 0 <= i < |frames| && frames[i] == f;
      assert turns[i] in turns && f in OnAir(outputs[turns[i]]);
    }
  }

  /** One sender is switched on and sends, the observer hears some of it, authorises it, and handles what
      passes frame by frame. */
  function DeliveryRun(address: Address, first: Session, inputs: seq<Input>, frames: seq<seq<byte>>, times: seq<int>, slot: nat,
                       at: nat): seq<Move>
    requires |frames| == |times| > 0
  {
    [Start(address, first)] + ((Sends(address, inputs) + HeardAndGranted(address, frames, times, slot)) + Cycles(|frames| - 1, at))
  }

  lemma SmallFits(before: seq<DataPdu>, after: seq<DataPdu>)
    requires |before| <= DEFERRED_QUEUE_SIZE
    ensures Capped([] + before) + after == before + after
  {
    assert [] + before == before;
  }

  lemma {:induction false} DataCount(readings: seq<Reading>)
    ensures |DataOf(readings)| <= |readings|
  {
    if readings != [] { DataCount(readings[1..]); }
  }

  /** All readings are of the session, and the fragments cover its key. */
  lemma TurnsFromSession(p: Params, address: Address, first: Session, inputs: seq<Input>, start: nat, turns: seq<nat>)
    requires p.replaceAfter > 0 && OnTime(0, CallsOf(p.ratio, inputs), p.replaceAfter) && start < |inputs|
    requires HeardTurns(p.ratio, p.replaceAfter, |inputs|, start, turns)
    ensures var readings := ReadingsOf(OutputsFor(p, first, inputs), turns);
      forall x :: x in readings ==> FromSession(p.prims, address, SessionAt(p, first, inputs, start), x)
  {
    var ss, outputs := SessionAt(p, first, inputs, start), OutputsFor(p, first, inputs);
    var readings := ReadingsOf(outputs, turns);
    forall x | x in readings
      ensures FromSession(p.prims, address, ss, x)
    {
      var i :| 0 <= i < |readings| && readings[i] == x;
      hide RunTimer, SessionOfCall, OnTime, CallsOf, OpenedBy, FromSession, Open, FragmentTurn;
      HeardIsOfSession(p.prims, first, p.replaceAfter, p.ratio, inputs, start, turns, address, i);
    }
  }

  /** With no more than 80 PDUs in all, none is lost. */
  lemma AllDelivered(p: Params, first: Session, inputs: seq<Input>, start: nat, turns: seq<nat>, c: Consumer, at: nat)
    requires p.replaceAfter > 0 && OnTime(0, CallsOf(p.ratio, inputs), p.replaceAfter) && start < |inputs| && |turns| <= DEFERRED_QUEUE_SIZE
    requires HeardTurns(p.ratio, p.replaceAfter, |inputs|, start, turns) && c.deferred == []
    requires Awaits(Receiver(c, map[]), SessionAt(p, first, inputs, start))
    ensures WellFormed(c)
    ensures var readings := ReadingsOf(OutputsFor(p, first, inputs), turns);
      var events := DeliveryTheorems.Hear(p.prims, Receiver(c, map[]), readings, at).1;
      UnderKey(events, SessionAt(p, first, inputs, start).key) && PdusOf(events, Sent) == DataOf(readings)
  {
    var readings := ReadingsOf(OutputsFor(p, first, inputs), turns);
    assert WellFormed(c);
    hide Awaits, RunTimer, SessionOfCall, OnTime, CallsOf, OpenedBy, Open, FragmentTurn, CompletesAt, UnderKey, Flows, DeliveryTheorems.Hear;
    var m := WindowDelivers(p.prims, first, p.replaceAfter, p.ratio, inputs, start, turns, c, at);
    DataCount(readings[..m]);
    SmallFits(DataOf(readings[..m]), DataOf(readings[m..]));
    assert readings == readings[..m] + readings[m..];
    BroughtConcat(p.prims, c.address, readings[..m], readings[m..]);
  }

  /** A trace that delivers these PDUs of one sender under one key, in this order. */
  ghost predicate Delivers(trace: seq<Tagged>, address: Address, key: Key, pdus: seq<DataPdu>) {
    exists events :: trace == TagAll(address, events) && UnderKey(events, key) && PdusOf(events, Sent) == pdus
  }

  /** The observer's processor and reconstructor have done nothing yet. */
  predicate Rested(s: System, tableSize: nat, cacheSize: nat) {
    && tableSize > 0 && cacheSize > 0 && s.table == FreshTable(tableSize, cacheSize) && s.km != [] && AllBlank(s.km)
    && s.fragments == [] && s.trace == []
  }

  /** Up to 80 turns of one session, the fragments of one window among them. */
  predicate Covering(p: Params, inputs: seq<Input>, start: nat, turns: seq<nat>) {
    && p.replaceAfter > 0 && OnTime(0, CallsOf(p.ratio, inputs), p.replaceAfter) && start < |inputs| && |turns| <= DEFERRED_QUEUE_SIZE
    && HeardTurns(p.ratio, p.replaceAfter, |inputs|, start, turns)
  }

  /** The observer's half: from the processor's queue to the trace. */
  lemma QueueToObservers(p: Params, s: System, address: Address, first: Session, inputs: seq<Input>, start: nat, turns: seq<nat>,
                         tableSize: nat, cacheSize: nat, at: nat) returns (t: System)
    requires Covering(p, inputs, start, turns) && Rested(s, tableSize, cacheSize)
    requires address != ZERO_ADDRESS && Low(SessionAt(p, first, inputs, start).keyId) != 0
    requires s.queue != [] && FramesOf(s.queue, address) && Readings(s.queue, address) == ReadingsOf(OutputsFor(p, first, inputs), turns)
    ensures Reaches(p, s, Cycles(|s.queue|, at), t)
    ensures Delivers(t.trace, address, SessionAt(p, first, inputs, start).key, DataOf(ReadingsOf(OutputsFor(p, first, inputs), turns)))
  {
    var ss := SessionAt(p, first, inputs, start);
    NewcomerAwaits(address, cacheSize, at, ss);
    var c := Newcomer(address, cacheSize, at);
    TurnsFromSession(p, address, first, inputs, start, turns);
    AllDelivered(p, first, inputs, start, turns, c, at);
    hide Awaits, Newcomer, RunTimer, SessionOfCall, OnTime, CallsOf, HeardTurns, FramesOf, Readings, ReadingsOf, DeliveryTheorems.Hear;
    hide UnderKey, FromSession, Play, Possible, Cycles, Delivers, FreshTable, AllBlank, SessionAt, OutputsFor;
    FromQueue(p, s, address, ss, cacheSize, at);
    t := Play(p, s, Cycles(|s.queue|, at));
    Shown(t.trace, address, ss.key, DataOf(Readings(s.queue, address)),
          DeliveryTheorems.Hear(p.prims, Receiver(c, map[]), Readings(s.queue, address), at).1);
  }

  lemma Shown(trace: seq<Tagged>, address: Address, key: Key, pdus: seq<DataPdu>, events: seq<Event>)
    requires trace == TagAll(address, events) && UnderKey(events, key) && PdusOf(events, Sent) == pdus
    ensures Delivers(trace, address, key, pdus)
  {}

  lemma Started(p: Params, slotCount: nat, tableSize: nat, cacheSize: nat, kmSize: nat, address: Address, first: Session) returns (s: System)
    requires slotCount > 0 && tableSize > 0 && cacheSize > 0 && kmSize > 0 && address != ZERO_ADDRESS && p.replaceAfter > 0
    ensures Reaches(p, Boot(slotCount, tableSize, cacheSize, kmSize), [Start(address, first)], s) && AllWellFormed(s.table.arr)
    ensures s.senders == map[address := FreshSender(first, p.ratio)] && Unused(s.slots) && |s.slots| == slotCount && s.queue == []
    ensures Rested(s, tableSize, cacheSize)
  {
    var boot := Boot(slotCount, tableSize, cacheSize, kmSize);
    assert Enabled(p, boot, Start(address, first));
    s := StartSender(p, boot, address, first);
    PlayOne(p, boot, Start(address, first));
  }

  lemma StaysRested(s: System, t: System, tableSize: nat, cacheSize: nat)
    requires Rested(s, tableSize, cacheSize) && SameObserver(s, t)
    ensures Rested(t, tableSize, cacheSize)
  {
    hide AllBlank;
  }

  /** What is forwarded of the turns heard still covers the window. */
  lemma ForwardedCovers(p: Params, inputs: seq<Input>, start: nat, turns: seq<nat>)
    requires Hearing(p, inputs, start, turns) && start < |inputs|
    ensures Covering(p, inputs, start, turns[..|turns| - 1]) && |turns| > 1 && p.replaceAfter > 0
    ensures Within(turns, |inputs|) && Within(turns[..|turns| - 1], |inputs|)
  {
    WindowExactlyOnce(p.ratio, start, 0);
    var k := TurnFor(p.ratio, start, 0);
    assert ScheduleTheorems.Brings(p.ratio, k, 0) && k in turns[..|turns| - 1];
    hide OnTime, CallsOf, OpenedBy, TurnFor;
  }

  lemma ForwardedOpenRight(p: Params, first: Session, inputs: seq<Input>, start: nat, turns: seq<nat>)
    requires Hearing(p, inputs, start, turns) && start < |inputs|
    ensures Within(turns[..|turns| - 1], |inputs|)
    ensures OpensRight(p.prims, SessionAt(p, first, inputs, start).key, p.ratio, inputs, OutputsFor(p, first, inputs), turns[..|turns| - 1])
  {
    TurnsOpenRight(p, first, inputs, start, turns);
    hide Hearing, SessionAt, OutputsFor, FragmentTurn, Open;
    assert forall k :: k in turns[..|turns| - 1] ==> k in turns;
  }

  lemma ToldWhatIsDelivered(prims: Primitives, trace: seq<Tagged>, address: Address, key: Key, ratio: nat, inputs: seq<Input>,
                            outputs: seq<Output>, turns: seq<nat>)
    requires OpensRight(prims, key, ratio, inputs, outputs, turns)
    requires Within(turns, |outputs|) && Delivers(trace, address, key, DataOf(ReadingsOf(outputs, turns)))
    ensures Within(turns, |inputs|) && Notified(prims, trace) == Told(address, ratio, inputs, turns)
  {
    NotesAreTold(prims, address, key, ratio, inputs, outputs, turns);
    hide UnderKey, Notified, NotesFor, DataOf, ReadingsOf, Open, FragmentTurn;
    var events :| trace == TagAll(address, events) && UnderKey(events, key) && PdusOf(events, Sent) == DataOf(ReadingsOf(outputs, turns));
    NotedUnderKey(prims, address, key, events);
  }

  /** Delivery from power-up. A sender is switched on and calls its timer; the observer hears some turns of
      one session in the session's rhythm, among them the fragments of one window of four rounds;
      authorises them; and handles what passes frame by frame. Then it delivers every data PDU heard but the
      last frame's, in order and under the session's key, and the observers are told exactly what the
      application gave the sender for them. */
  lemma DeliveredFromPowerUp(p: Params, slotCount: nat, tableSize: nat, cacheSize: nat, kmSize: nat, address: Address, first: Session,
                             inputs: seq<Input>, start: nat, turns: seq<nat>, times: seq<int>, at: nat) returns (t: System)
    requires slotCount > 0 && tableSize > 0 && cacheSize > 0 && kmSize > 0 && address != ZERO_ADDRESS
    requires Hearing(p, inputs, start, turns) && start < |inputs|
    requires Low(SessionAt(p, first, inputs, start).keyId) != 0 && Rhythm(SessionAt(p, first, inputs, start).keyId, turns, times)
    ensures Within(turns, |inputs|) && Within(turns[..|turns| - 1], |inputs|)
    ensures Reaches(p, Boot(slotCount, tableSize, cacheSize, kmSize),
                    DeliveryRun(address, first, inputs, FramesHeard(OutputsFor(p, first, inputs), turns), times, slotCount - 1, at), t)
    ensures var forwarded := turns[..|turns| - 1];
      && Delivers(t.trace, address, SessionAt(p, first, inputs, start).key, DataOf(ReadingsOf(OutputsFor(p, first, inputs), forwarded)))
      && Notified(p.prims, t.trace) == Told(address, p.ratio, inputs, forwarded)
  {
    ForwardedCovers(p, inputs, start, turns);
    ForwardedOpenRight(p, first, inputs, start, turns);
    HeardPasses(p, address, first, inputs, start, turns, times);
    ReadAsSent(p, first, inputs, start, turns, times, address);
    var ss, outputs, forwarded := SessionAt(p, first, inputs, start), OutputsFor(p, first, inputs), turns[..|turns| - 1];
    var frames := FramesHeard(outputs, turns);
    var s := Started(p, slotCount, tableSize, cacheSize, kmSize, address, first);
    var mid := UpToQueue(p, s, address, inputs, frames, times, ss.keyId);
    StaysRested(s, mid, tableSize, cacheSize);
    t := QueueToObservers(p, mid, address, first, inputs, start, forwarded, tableSize, cacheSize, at);
    ToldWhatIsDelivered(p.prims, t.trace, address, ss.key, p.ratio, inputs, outputs, forwarded);
    var boot := Boot(slotCount, tableSize, cacheSize, kmSize);
    var middle := Sends(address, inputs) + HeardAndGranted(address, frames, times, slotCount - 1);
    ReachesOnward(p, s, middle, mid, Cycles(|frames| - 1, at), t);
    ReachesOnward(p, boot, [Start(address, first)], s, middle + Cycles(|frames| - 1, at), t);
  }

  // ---- Such runs exist -----------------------------------------------------------------------------------

  function FirstTurns(n: nat): (turns: seq<nat>)
    ensures |turns| == n && forall i :: 0 <= i < n ==> turns[i] == i
  {
    seq(n, i => i)
  }

  function ExactTimes(keyId: KeyId, n: nat): (times: seq<int>)
    ensures |times| == n && forall i :: 0 <= i < n ==> times[i] == 1 + i * (AdvInterval(keyId) * 1000)
  {
    seq(n, i => 1 + i * (AdvInterval(keyId) * 1000))
  }

  /** A sender heard without loss from its first packet on, one packet longer than a window, is heard in
      this sense; so `DeliveredFromPowerUp` is about it, whatever it sends. */
  lemma HeardWithoutLoss(p: Params, inputs: seq<Input>)
    requires var n := 4 * (p.ratio + 1) + 1;
      |inputs| == n <= CONSUMER_PRIVATE_QUEUE_SIZE && n < p.replaceAfter <= 0x1_0000
    requires forall i :: 0 <= i < |inputs| ==> |inputs[i].clear| <= MAX_GAP_DATA_LEN - HEADER_SIZE
    ensures Hearing(p, inputs, 0, FirstTurns(|inputs|))
    ensures forall keyId: KeyId :: Rhythm(keyId, FirstTurns(|inputs|), ExactTimes(keyId, |inputs|))
  {
    var n, turns := |inputs|, FirstTurns(|inputs|);
    assert turns[..n - 1] == FirstTurns(n - 1);
    AllTurns(n);
    OneSession(p, n, n);
    OneSession(p, n, n - 1);
    ShortIsOnTime(p, inputs);
    hide OnTime, CallsOf, HeardTurns, FragmentTurn, FirstTurns;
    forall keyId: KeyId
      ensures Rhythm(keyId, turns, ExactTimes(keyId, n))
    {
      ExactIsRhythm(keyId, n);
    }
  }

  lemma ShortIsOnTime(p: Params, inputs: seq<Input>)
    requires p.replaceAfter > 0 && forall i :: 0 <= i < |inputs| ==> |inputs[i].clear| <= MAX_GAP_DATA_LEN - HEADER_SIZE
    ensures OnTime(0, CallsOf(p.ratio, inputs), p.replaceAfter)
  {
    hide Due, FragmentTurn;
  }

  lemma OneSession(p: Params, count: nat, n: nat)
    requires 4 * (p.ratio + 1) <= n <= count < p.replaceAfter
    ensures HeardTurns(p.ratio, p.replaceAfter, count, 0, FirstTurns(n))
  {
    AllTurns(n);
    hide FragmentTurn, OpenedBy, FirstTurns;
    forall k | k in FirstTurns(n)
      ensures k < count && OpenedBy(0, k + 1, p.replaceAfter) == OpenedBy(0, 0 + 1, p.replaceAfter)
    {
      FromZero(k + 1, p.replaceAfter);
      FromZero(1, p.replaceAfter);
    }
  }

  lemma AllTurns(n: nat)
    ensures forall k: nat :: k in FirstTurns(n) <==> k < n
    ensures Ascending(FirstTurns(n))
  {
    forall k: nat | k < n ensures k in FirstTurns(n) { assert FirstTurns(n)[k] == k; }
  }

  lemma ExactIsRhythm(keyId: KeyId, n: nat)
    requires n <= CONSUMER_PRIVATE_QUEUE_SIZE
    ensures Rhythm(keyId, FirstTurns(n), ExactTimes(keyId, n))
  {
    var turns, times := FirstTurns(n), ExactTimes(keyId, n);
    hide AdvInterval, Tolerance, FirstTurns, ExactTimes;
    forall i, j | 0 <= i < j < n
      ensures 0 < times[j] - times[i] < HALF_WORD * 1000
      ensures times[j] - times[i] == (turns[j] - turns[i]) * AdvInterval(keyId) * 1000
    {
      ExactPair(keyId, i, j);
    }
    forall i | 0 <= i < n ensures times[i] != 0 { ExactPair(keyId, i, i + 1); }
  }

  lemma ExactPair(keyId: KeyId, i: nat, j: nat)
    requires i < j <= 50
    ensures var unit := AdvInterval(keyId) * 1000;
      0 < j * unit - i * unit < HALF_WORD * 1000 && j * unit - i * unit == (j - i) * AdvInterval(keyId) * 1000 && 0 <= i * unit
  {
    AdvIntervalBounds(keyId);
    hide AdvInterval;
    var unit, d := AdvInterval(keyId) * 1000, j - i;
    Arithmetic.MulLe(1, d, unit);
    Arithmetic.MulLe(d, 50, unit);
    assert j * unit == (i + d) * unit == i * unit + d * unit;
    assert d * unit == d * AdvInterval(keyId) * 1000;
  }
}
