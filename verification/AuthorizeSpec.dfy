/** Interval authorisation: which scanned PDUs are forwarded, and the C arithmetic that decides. */
module AuthorizeSpec {
  import opened Bytes
  import opened Wire

  const CONSUMER_PRIVATE_QUEUE_SIZE := 50
  const MAX_PDU_PROCESS_PER_CONSUMER := 6
  const NO_PDU_IN_QUEUE_FOR_PROCESS := 6

  const WORD := 0x1_0000_0000
  const HALF_WORD := 0x8000_0000

  /** A scanned frame with its arrival time in microseconds. */
  datatype ScanPdu = ScanPdu(timestamp: int, frame: seq<byte>, pduNo: u16, keyId: KeyId)

  const ZERO_PDU := ScanPdu(0, [], 0, 0)

  // ---- C arithmetic ---------------------------------------------------------------------------

  /** Signed division truncates toward zero. */
  function TruncDiv(a: int, b: int): int
    requires b > 0
  {
    if a >= 0 then a / b else -(-a / b)
  }

  /** Conversion to `uint32_t`. */
  function ToU32(x: int): int {
    x % WORD
  }

  /** Conversion to `int`. */
  function ToI32(x: int): int {
    (x + HALF_WORD) % WORD - HALF_WORD
  }

  /** The firmware multiplies by 0.05 to 0.30 and truncates; here with exact hundredths. */
  function Tolerance(interval: nat): nat {
    if interval >= 3000 then interval * 5 / 100
    else if interval >= 1000 then interval * 10 / 100
    else if interval > 500 then interval * 15 / 100
    else if interval > 200 then interval * 20 / 100
    else interval * 30 / 100
  }

  /** Expected minus measured milliseconds for a packet-number gap: the product is computed in
      `uint32_t`, the difference narrowed to `int`. */
  function Deviation(gap: int, interval: nat, elapsedUs: int): int {
    ToI32(ToU32(gap * interval) - TruncDiv(elapsedUs, 1000))
  }

  predicate WithinTolerance(gap: int, interval: nat, elapsedUs: int) {
    0 - Tolerance(interval) <= Deviation(gap, interval, elapsedUs) <= Tolerance(interval)
  }

  /** `b` vouches for `a`: same session, and the time between them fits their packet numbers. */
  predicate Vouches(a: ScanPdu, b: ScanPdu) {
    b.keyId == a.keyId && WithinTolerance(b.pduNo - a.pduNo, AdvInterval(b.keyId), b.timestamp - a.timestamp)
  }

  /** What the arrival of `b` forwards. */
  function Link(a: ScanPdu, b: ScanPdu): seq<ScanPdu> {
    if Vouches(a, b) then [a] else []
  }

  // ---- One batch --------------------------------------------------------------------------------

  /** Walks the batch with a moving predecessor: the predecessor is forwarded if vouched for. */
  function Walk(last: ScanPdu, batch: seq<ScanPdu>): (ScanPdu, seq<ScanPdu>)
    decreases |batch|
  {
    if batch == [] then (last, [])
    else
      var (end, more) := Walk(batch[0], batch[1..]);
      (end, Link(last, batch[0]) + more)
  }

  /** A zero timestamp means that nothing has been processed yet. */
  function Authorise(last: ScanPdu, batch: seq<ScanPdu>): (ScanPdu, seq<ScanPdu>) {
    if last.timestamp != 0 then Walk(last, batch)
    else if batch == [] then (ZERO_PDU, [])
    else Walk(batch[0], batch[1..])
  }

  /** Batch after batch, each starting from where the one before stopped. */
  function AuthoriseAll(last: ScanPdu, batches: seq<seq<ScanPdu>>): (ScanPdu, seq<ScanPdu>)
    decreases |batches|
  {
    if batches == [] then (last, [])
    else
      var (mid, out) := Authorise(last, batches[0]);
      var (end, more) := AuthoriseAll(mid, batches[1..]);
      (end, out + more)
  }

  // ---- The scan callback --------------------------------------------------------------------------

  datatype AuthSlot = AuthSlot(
    address: Address, last: ScanPdu, queue: seq<ScanPdu>, lastPduNo: u16, lastKeyId: u16, active: bool)

  const FRESH_SLOT := AuthSlot(ZERO_ADDRESS, ZERO_PDU, [], 0, 0, false)

  function FirstWith(slots: seq<AuthSlot>, address: Address): (i: nat)
    ensures i <= |slots|
    ensures i < |slots| ==> slots[i].address == address
    ensures forall j :: 0 <= j < i ==> slots[j].address != address
  {
    if slots == [] then 0 else if slots[0].address == address then 0 else 1 + FirstWith(slots[1..], address)
  }

  /** The last free slot among the first `n`, or -1. */
  function LastFree(slots: seq<AuthSlot>, n: nat): (i: int)
    requires n <= |slots|
    ensures -1 <= i < n
    ensures i >= 0 ==> slots[i].address == ZERO_ADDRESS
    ensures forall j :: i < j < n ==> slots[j].address != ZERO_ADDRESS
  {
    if n == 0 then -1 else if slots[n - 1].address == ZERO_ADDRESS then n - 1 else LastFree(slots, n - 1)
  }

  /** The slot of a sender; a new sender takes the last free slot and becomes active. -1 if full. */
  function SlotFor(slots: seq<AuthSlot>, address: Address): (r: (seq<AuthSlot>, int))
    ensures |r.0| == |slots| && -1 <= r.1 < |slots|
    ensures r.1 >= 0 ==> r.0[r.1].address == address
  {
    var i := FirstWith(slots, address);
    if i < |slots| then (slots, i)
    else
      var f := LastFree(slots, |slots|);
      if f >= 0 then (slots[f := slots[f].(address := address, active := true)], f) else (slots, -1)
  }

  function Scanned(timestamp: int, frame: seq<byte>): ScanPdu {
    ScanPdu(timestamp, frame, WordAt(frame, 4), KeyIdOf(WordAt(frame, 6)))
  }

  /** A PDU passes the duplicate filter if it starts another session or has a higher number. */
  predicate Passes(lastPduNo: u16, lastKeyId: u16, pdu: ScanPdu) {
    lastKeyId != pdu.keyId || pdu.pduNo > lastPduNo
  }

  /** The record of the last PDU seen is the one in slot 0, whoever the sender is. It moves even
      when the private queue is full and the PDU is lost. */
  function Scan(slots: seq<AuthSlot>, timestamp: int, frame: seq<byte>, address: Address): (r: (seq<AuthSlot>, bool))
    ensures |r.0| == |slots|
  {
    var pdu := Scanned(timestamp, frame);
    var (found, index) := SlotFor(slots, address);
    if !HasMarker(frame) then (slots, false)
    else if index < 0 || !Passes(found[0].lastPduNo, found[0].lastKeyId, pdu) then (found, false)
    else
      var queue := if |found[index].queue| < CONSUMER_PRIVATE_QUEUE_SIZE then found[index].queue + [pdu] else found[index].queue;
      var sent := found[index := found[index].(queue := queue)];
      (sent[0 := sent[0].(lastPduNo := pdu.pduNo, lastKeyId := pdu.keyId)], |queue| >= NO_PDU_IN_QUEUE_FOR_PROCESS)
  }

  /** One authorisation event for one sender: up to six PDUs leave its queue. */
  function AuthoriseSlot(slot: AuthSlot): (AuthSlot, seq<ScanPdu>) {
    var n := if |slot.queue| <= MAX_PDU_PROCESS_PER_CONSUMER then |slot.queue| else MAX_PDU_PROCESS_PER_CONSUMER;
    var (last, out) := Authorise(slot.last, slot.queue[..n]);
    (slot.(last := last, queue := slot.queue[n..]), out)
  }

  /** What the processor is given: a PDU and the address of the slot it waited in. */
  datatype Granted = Granted(address: Address, pdu: ScanPdu)

  function Grants(address: Address, pdus: seq<ScanPdu>): (g: seq<Granted>)
    ensures |g| == |pdus| && forall i :: 0 <= i < |g| ==> g[i] == Granted(address, pdus[i])
  {
    seq(|pdus|, i requires 0 <= i < |pdus| => Granted(address, pdus[i]))
  }

  /** The authorisation event: one batch for each active slot among the first `n`, in order. */
  function ServeTo(slots: seq<AuthSlot>, n: nat): (r: (seq<AuthSlot>, seq<Granted>))
    requires n <= |slots|
    ensures |r.0| == |slots| && forall i :: n <= i < |slots| ==> r.0[i] == slots[i]
  {
    if n == 0 then (slots, [])
    else
      var (before, out) := ServeTo(slots, n - 1);
      var slot := slots[n - 1];
      if !slot.active then (before, out)
      else
        var (after, pdus) := AuthoriseSlot(slot);
        (before[n - 1 := after], out + Grants(slot.address, pdus))
  }
}
