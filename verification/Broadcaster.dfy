/** The encryptor and the sender application as objects. Random values arrive as parameters. */
module Broadcaster {
  import opened Bytes
  import opened Crypto
  import opened Wire
  import Spec = BroadcasterSpec
  import opened BroadcasterSpec

  const NO_PACKET_TO_SEND := 2000

  class PayloadEncryptor {
    const prims: Primitives
    const preSharedKey: array<byte>
    const splittedKey: array<Fragment>
    var keyId: KeyId
    var replacementCount: nat
    var packetCounter: nat
    var keyFragmentNo: FragmentIndex

    ghost predicate Valid()
      reads this
    {
      preSharedKey.Length == KEY_SIZE && splittedKey.Length == NO_KEY_FRAGMENTS && replacementCount > 0
    }

    ghost function Repr(): set<object> {
      {this as object, preSharedKey, splittedKey}
    }

    ghost function State(): Spec.Broadcaster
      requires Valid()
      reads this, preSharedKey, splittedKey
    {
      Spec.Broadcaster(Session(preSharedKey[..], keyId), splittedKey[..], packetCounter, keyFragmentNo)
    }

    constructor (prims: Primitives, first: Session, replacementCount: nat)
      requires replacementCount > 0
      ensures Valid() && fresh(preSharedKey) && fresh(splittedKey)
      ensures this.prims == prims && this.replacementCount == replacementCount
      ensures State() == FreshBroadcaster(first)
    {
      this.prims := prims;
      preSharedKey := new byte[KEY_SIZE](i requires 0 <= i < KEY_SIZE => first.key[i]);
      splittedKey := new Fragment[NO_KEY_FRAGMENTS](_ => BLANK_FRAGMENT);
      keyId, this.replacementCount, packetCounter, keyFragmentNo := first.keyId, replacementCount, 0, 0;
      new;
      assert preSharedKey[..] == first.key;
      SplitKeyToFragments(preSharedKey, splittedKey);
    }

    /** Installs a new key together with its fragments. */
    method KeyReplacement(key: Key)
      requires Valid()
      modifies preSharedKey, splittedKey
      ensures preSharedKey[..] == key && splittedKey[..] == Split(key)
    {
      forall i | 0 <= i < KEY_SIZE {
        preSharedKey[i] := key[i];
      }
      assert preSharedKey[..] == key;
      SplitKeyToFragments(preSharedKey, splittedKey);
    }

    method GetNextKeyFragment() returns (current: FragmentIndex)
      modifies this`keyFragmentNo
      ensures current == old(keyFragmentNo) && keyFragmentNo == (current + 1) % NO_KEY_FRAGMENTS
    {
      current := keyFragmentNo;
      if keyFragmentNo + 1 > 3 {
        keyFragmentNo := 0;
      } else {
        keyFragmentNo := keyFragmentNo + 1;
      }
    }

    /** Counts a packet and starts the session that may be due. */
    method CountPacket(next: Session)
      requires Valid()
      modifies this`packetCounter, this`keyId, preSharedKey, splittedKey
      ensures Valid() && State() == Count(old(State()), replacementCount, next)
    {
      packetCounter := packetCounter + 1;
      if packetCounter % replacementCount == 0 {
        KeyReplacement(next.key);
        keyId := next.keyId;
        packetCounter := 0;
      }
    }

    /** An oversized payload is refused after it has been counted. */
    method EncryptPayload(clear: seq<byte>, next: Session, seed: byte) returns (out: Output)
      requires Valid()
      modifies Repr()
      ensures Valid() && replacementCount == old(replacementCount)
      ensures (State(), out) == Invoke(prims, old(State()), replacementCount, ForData(clear, next, seed))
    {
      hide Split, Ctr, DataFrame;
      if |clear| > MAX_PDU_PAYLOAD_SIZE {
        packetCounter := packetCounter + 1;
        return Refused;
      }
      CountPacket(next);
      var sessionData := ProduceKeySessionData(keyId, 0);
      var nonce := new byte[NONCE_SIZE];
      BuildNonce(nonce, MARKER, sessionData, seed);
      var encrypted := Ctr(prims, preSharedKey[..], nonce[..], clear);
      out := DataOut(DataPdu(MARKER, packetCounter % 0x1_0000, sessionData, seed, encrypted));
    }

    method GetKeyFragmentPdu(next: Session, seed: byte) returns (out: Output)
      requires Valid()
      modifies Repr()
      ensures Valid() && replacementCount == old(replacementCount)
      ensures (State(), out) == Invoke(prims, old(State()), replacementCount, ForFragment(next, seed))
    {
      hide Split, Mask;
      CountPacket(next);
      ghost var counted := State();
      var index := GetNextKeyFragment();
      var fragment := splittedKey[index];
      var masked := MaskFragment(fragment, seed);
      out := KeyOut(KeyPdu(MARKER, packetCounter % 0x1_0000, ProduceKeySessionData(keyId, index), masked, seed,
                           prims.tag(fragment, masked)));
      assert State() == counted.(nextFragment := NextIndex(counted.nextFragment));
    }

    method MaskFragment(fragment: Fragment, seed: byte) returns (masked: Fragment)
      ensures masked == Mask(fragment, seed)
    {
      var clear := new byte[KEY_FRAGMENT_SIZE](i requires 0 <= i < KEY_FRAGMENT_SIZE => fragment[i]);
      var encrypted := new byte[KEY_FRAGMENT_SIZE];
      assert clear[..] == fragment;
      XorEncryptKeyFragment(clear, encrypted, seed);
      masked := encrypted[..];
    }
  }

  class SenderApp {
    const encryptor: PayloadEncryptor
    const ratio: nat
    var pduSendCounter: nat
    var packetSendCounter: nat
    var prevKeyId: int
    /** Frames handed to the controller, oldest first. */
    var onAir: seq<seq<byte>>
    var delayUs: nat

    ghost predicate Valid()
      reads this, encryptor
    {
      encryptor.Valid() && packetSendCounter <= NO_PACKET_TO_SEND
    }

    ghost function Repr(): set<object> {
      {this as object} + encryptor.Repr()
    }

    ghost function State(): Sender
      requires Valid()
      reads this, encryptor, encryptor.preSharedKey, encryptor.splittedKey
    {
      Sender(encryptor.State(), pduSendCounter)
    }

    constructor (prims: Primitives, first: Session, replacementCount: nat, ratio: nat)
      requires replacementCount > 0
      ensures Valid() && fresh(Repr()) && encryptor.replacementCount == replacementCount
      ensures encryptor.prims == prims && this.ratio == ratio
      ensures State() == FreshSender(first, ratio) && packetSendCounter == 0 && prevKeyId == 0 && onAir == []
    {
      encryptor := new PayloadEncryptor(prims, first, replacementCount);
      this.ratio, pduSendCounter, packetSendCounter, prevKeyId, onAir, delayUs := ratio, ratio, 0, 0, [], 0;
    }

    method GetAndIncrementPduSendCounter() returns (value: nat)
      modifies this`pduSendCounter
      ensures value == old(pduSendCounter)
      ensures pduSendCounter == if value == ratio then 0 else value + 1
    {
      value := pduSendCounter;
      if pduSendCounter == ratio {
        pduSendCounter := 0;
      } else {
        pduSendCounter := pduSendCounter + 1;
      }
    }

    /** Frames longer than an advertisement are not taken. On a new session id the broadcast is stopped
        first, to go on with another interval, and a stopped broadcast takes no payload either. */
    method SetBroadcastingPayload(frame: seq<byte>)
      requires encryptor.Valid()
      modifies this`onAir, this`prevKeyId
      ensures prevKeyId == encryptor.keyId
      ensures onAir == old(onAir) +
                       if |frame| <= MAX_GAP_DATA_LEN && encryptor.keyId == old(prevKeyId) then [frame] else []
    {
      var running := prevKeyId == encryptor.keyId;
      if |frame| <= MAX_GAP_DATA_LEN && running {
        onAir := onAir + [frame];
      }
      prevKeyId := encryptor.keyId;
    }

    /** The send timer: silent once all packets are out, else one call of the encryptor, and the
        interval of the session in use until the next. The first frame of a session id is not heard. */
    method PacketSendTimeoutTimer(i: Input)
      requires Valid()
      modifies Repr()
      ensures Valid() && encryptor.replacementCount == old(encryptor.replacementCount)
      ensures if old(packetSendCounter) >= NO_PACKET_TO_SEND then
          State() == old(State()) && packetSendCounter == old(packetSendCounter)
          && onAir == old(onAir) && delayUs == old(delayUs) && prevKeyId == old(prevKeyId)
        else
          var (s, out) := OnTimer(encryptor.prims, old(State()), encryptor.replacementCount, ratio, i);
          var id := s.broadcaster.session.keyId;
          && State() == s && packetSendCounter == old(packetSendCounter) + 1
          && onAir == old(onAir) + (if id == old(prevKeyId) then OnAir(out) else [])
          && prevKeyId == (if out.Refused? then old(prevKeyId) else id)
          && delayUs == AdvInterval(id) * 1000
    {
      hide Invoke, AdvInterval, DataFrame, KeyFrame;
      if packetSendCounter >= NO_PACKET_TO_SEND {
        return;
      }
      var turn := GetAndIncrementPduSendCounter();
      packetSendCounter := packetSendCounter + 1;
      var out;
      if turn == ratio {
        out := encryptor.GetKeyFragmentPdu(i.next, i.seed);
      } else {
        out := encryptor.EncryptPayload(i.clear, i.next, i.seed);
      }
      match out {
        case DataOut(pdu) => SetBroadcastingPayload(DataFrame(pdu));
        case KeyOut(fragment) => SetBroadcastingPayload(KeyFrame(fragment));
        case Refused =>
      }
      delayUs := AdvInterval(encryptor.keyId) * 1000;
    }
  }
}
