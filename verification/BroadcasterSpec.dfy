/** The sending side as a value: the rolling session, the packet counter, the cyclic fragment index
    and the schedule that mixes key fragments into the data. */
module BroadcasterSpec {
  import opened Bytes
  import opened Crypto
  import opened Wire

  /** A session key and the id it goes by; new ones come from the random generator. */
  datatype Session = Session(key: Key, keyId: KeyId)

  datatype Broadcaster = Broadcaster(session: Session, fragments: Fragments, counter: nat, nextFragment: FragmentIndex)

  function FreshBroadcaster(session: Session): Broadcaster {
    Broadcaster(session, Split(session.key), 0, 0)
  }

  /** One call of the encryptor, with the random values it may draw. */
  datatype Call =
    | ForData(clear: seq<byte>, next: Session, seed: byte)
    | ForFragment(next: Session, seed: byte)

  datatype Output = DataOut(pdu: DataPdu) | KeyOut(fragment: KeyPdu) | Refused

  /** A payload that does not fit the buffer. */
  predicate Oversized(c: Call) {
    c.ForData? && |c.clear| > MAX_PDU_PAYLOAD_SIZE
  }

  /** A new session is due at every multiple of the replacement count. */
  predicate Due(counter: nat, replaceAfter: nat)
    requires replaceAfter > 0
  {
    counter % replaceAfter == 0
  }

  /** Every call counts one packet; reaching a multiple of the replacement count starts a session. */
  function Count(b: Broadcaster, replaceAfter: nat, next: Session): Broadcaster
    requires replaceAfter > 0
  {
    var counter := b.counter + 1;
    if Due(counter, replaceAfter) then b.(session := next, fragments := Split(next.key), counter := 0)
    else b.(counter := counter)
  }

  /** The packet number is cut to 16 bits. */
  function PduNo(b: Broadcaster): u16 {
    b.counter % 0x1_0000
  }

  function NextIndex(i: FragmentIndex): FragmentIndex {
    if i + 1 > 3 then 0 else i + 1
  }

  /** The masked fragment is taken from the stored fragments, not from the key. */
  function MakeFragment(prims: Primitives, b: Broadcaster, seed: byte): KeyPdu {
    var masked := Mask(b.fragments[b.nextFragment], seed);
    KeyPdu(MARKER, PduNo(b), ProduceKeySessionData(b.session.keyId, b.nextFragment), masked, seed,
           prims.tag(b.fragments[b.nextFragment], masked))
  }

  /** An oversized payload is refused, but it has been counted, without a look at the multiple. */
  function Invoke(prims: Primitives, b: Broadcaster, replaceAfter: nat, c: Call): (Broadcaster, Output)
    requires replaceAfter > 0
  {
    if Oversized(c) then (b.(counter := b.counter + 1), Refused)
    else
      var d := Count(b, replaceAfter, c.next);
      match c
      case ForData(clear, _, seed) =>
        (d, DataOut(Seal(prims, d.session.key, d.session.keyId, PduNo(d), seed, clear)))
      case ForFragment(_, seed) =>
        (d.(nextFragment := NextIndex(d.nextFragment)), KeyOut(MakeFragment(prims, d, seed)))
  }

  /** The encryptor after a sequence of calls. */
  function After(prims: Primitives, b: Broadcaster, replaceAfter: nat, calls: seq<Call>): Broadcaster
    requires replaceAfter > 0
    decreases |calls|
  {
    if calls == [] then b
    else
      var n := |calls| - 1;
      Invoke(prims, After(prims, b, replaceAfter, calls[..n]), replaceAfter, calls[n]).0
  }

  /** What call `k` of a sequence returns, counting from 0. */
  function OutputAt(prims: Primitives, b: Broadcaster, replaceAfter: nat, calls: seq<Call>, k: nat): Output
    requires replaceAfter > 0 && k < |calls|
  {
    Invoke(prims, After(prims, b, replaceAfter, calls[..k]), replaceAfter, calls[k]).1
  }

  // ---- The send timer -----------------------------------------------------------------------------

  /** What one timer callback may consume: a payload, a session should one be due, a masking seed. */
  datatype Input = Input(clear: seq<byte>, next: Session, seed: byte)

  datatype Sender = Sender(broadcaster: Broadcaster, sendCounter: nat)

  function FreshSender(session: Session, ratio: nat): Sender {
    Sender(FreshBroadcaster(session), ratio)
  }

  /** One key fragment, then `ratio` data packets, and so on. */
  function OnTimer(prims: Primitives, s: Sender, replaceAfter: nat, ratio: nat, i: Input): (Sender, Output)
    requires replaceAfter > 0
  {
    if s.sendCounter == ratio then
      var (b, out) := Invoke(prims, s.broadcaster, replaceAfter, ForFragment(i.next, i.seed));
      (Sender(b, 0), out)
    else
      var (b, out) := Invoke(prims, s.broadcaster, replaceAfter, ForData(i.clear, i.next, i.seed));
      (Sender(b, s.sendCounter + 1), out)
  }

  function RunTimer(prims: Primitives, s: Sender, replaceAfter: nat, ratio: nat, inputs: seq<Input>)
    : (r: (Sender, seq<Output>))
    requires replaceAfter > 0
    ensures |r.1| == |inputs|
    decreases |inputs|
  {
    if inputs == [] then (s, [])
    else
      var n := |inputs| - 1;
      var (t, outputs) := RunTimer(prims, s, replaceAfter, ratio, inputs[..n]);
      var (u, out) := OnTimer(prims, t, replaceAfter, ratio, inputs[n]);
      (u, outputs + [out])
  }

  /** The frames an output puts on the air: anything longer than one advertisement is not set. */
  function OnAir(out: Output): (frames: seq<seq<byte>>)
    ensures forall f :: f in frames ==> |f| <= MAX_GAP_DATA_LEN
  {
    var frame := match out
      case DataOut(pdu) => DataFrame(pdu)
      case KeyOut(fragment) => KeyFrame(fragment)
      case Refused => [];
    if out == Refused || |frame| > MAX_GAP_DATA_LEN then [] else [frame]
  }
}
