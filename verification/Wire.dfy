/** The advertisement layout: session data packing, the two kinds of frame, the nonce both ends
    build, and the advertising interval a session id stands for. */
module Wire {
  import opened Bytes
  import opened Crypto
  import opened Options

  /** A 48-bit device address; the firmware only ever compares addresses for equality. */
  type Address = x: int | 0 <= x < 0x1_0000_0000_0000
  /** Fills every unused sender slot. */
  const ZERO_ADDRESS: Address := 0

  type KeyId = x: int | 0 <= x < 0x4000

  const MARKER_SIZE := 3
  type Marker = s: seq<byte> | |s| == MARKER_SIZE witness [0xFF, 0x08, 0x00]
  const MARKER: Marker := [0xFF, 0x08, 0x00]
  const MAX_GAP_DATA_LEN := 31
  const HEADER_SIZE := 9
  const KEY_FRAME_SIZE := 17
  /** 31 - 2 - 3 - (1 - 2) in unsigned arithmetic. */
  const MAX_PDU_PAYLOAD_SIZE := 27

  const DATA_CMD: byte := 1
  const KEY_FRAGMENT_CMD: byte := 2
  const UNKNOWN_CMD: byte := 255

  const MIN_ADV_TIME_MS := 3000
  const MAX_ADV_TIME_MS := 5000
  const SCALE_SINGLE_MS := 80
  const MAX_KEY_ID_VAL := 0x3FFF

  datatype DataPdu = DataPdu(marker: Marker, pduNo: u16, sessionData: u16, seed: byte, payload: seq<byte>)

  datatype KeyPdu = KeyPdu(marker: Marker, pduNo: u16, sessionData: u16, masked: Fragment, seed: byte, tag: Tag)

  // ---- Session data ----------------------------------------------------------------------

  /** Fragment index in the top two bits, session id in the low fourteen. */
  function ProduceKeySessionData(keyId: u16, keyFragment: byte): u16 {
    if keyFragment > 3 then 0 else keyFragment * 0x4000 + keyId % 0x4000
  }

  function KeyIdOf(sessionData: u16): KeyId {
    sessionData % 0x4000
  }

  function FragmentIndexOf(sessionData: u16): FragmentIndex {
    sessionData / 0x4000
  }

  /** Cache and reconstructor take session ids through `uint8_t` parameters. */
  function Low(keyId: u16): byte {
    keyId % 0x100
  }

  lemma SessionDataRoundTrip(keyId: KeyId, keyFragment: byte)
    requires keyFragment < NO_KEY_FRAGMENTS
    ensures KeyIdOf(ProduceKeySessionData(keyId, keyFragment)) == keyId
    ensures FragmentIndexOf(ProduceKeySessionData(keyId, keyFragment)) == keyFragment
  {}

  /** Index in the top two bits, id in the fourteen below; a value of the caller's that does not fit in
      two bits gives zero. */
  lemma SessionDataLayout(keyId: KeyId, keyFragment: byte)
    ensures ProduceKeySessionData(keyId, keyFragment) ==
            if keyFragment < NO_KEY_FRAGMENTS then keyFragment * 0x4000 + keyId else 0
    ensures forall i :: 0 <= i < 14 && keyFragment < NO_KEY_FRAGMENTS ==>
      Digit(ProduceKeySessionData(keyId, keyFragment), i) == Digit(keyId, i)
  {
    forall i | 0 <= i < 14 && keyFragment < NO_KEY_FRAGMENTS
      ensures Digit(ProduceKeySessionData(keyId, keyFragment), i) == Digit(keyId, i)
    {
      LowDigits(keyId, keyFragment, 14, i);
    }
  }

  lemma {:induction false} LowDigits(x: nat, high: nat, width: nat, i: nat)
    requires i < width
    ensures Digit(high * Pow2(width) + x, i) == Digit(x, i)
    ensures width == 14 ==> Pow2(width) == 0x4000
  {
    assert Pow2(14) == 0x4000 by { assert Pow2(7) == 128; }
    var half := high * Pow2(width - 1);
    assert high * Pow2(width) == 2 * half;
    assert (2 * half + x) / 2 == half + x / 2 && (2 * half + x) % 2 == x % 2;
    if i > 0 { LowDigits(x / 2, high, width - 1, i - 1); }
  }

  /** Two session ids share a cache slot and a collection entry exactly when they agree in their low
      eight bits; low byte zero is every 256th id. */
  lemma LowSameIff(a: KeyId, b: KeyId)
    ensures Low(a) == Low(b) <==> (a - b) % 0x100 == 0
    ensures Low(a) == 0 <==> a % 0x100 == 0
  {}

  // ---- Frames ----------------------------------------------------------------------------

  /** The receive buffer is zero-filled before a frame is copied into it. */
  function At(frame: seq<byte>, i: nat): byte {
    if i < |frame| then frame[i] else 0
  }

  function WordAt(frame: seq<byte>, i: nat): u16 {
    FromLittleEndian(At(frame, i), At(frame, i + 1))
  }

  predicate HasMarker(frame: seq<byte>) {
    |frame| >= MARKER_SIZE && frame[..MARKER_SIZE] == MARKER
  }

  function CommandOf(frame: seq<byte>): byte {
    if |frame| < MARKER_SIZE then UNKNOWN_CMD
    else if At(frame, 3) == DATA_CMD then DATA_CMD
    else if At(frame, 3) == KEY_FRAGMENT_CMD then KEY_FRAGMENT_CMD
    else UNKNOWN_CMD
  }

  /** `size_t` subtraction: wraps for a frame shorter than its header. */
  function PayloadSizeOf(frameSize: nat): nat {
    (frameSize - HEADER_SIZE) % 0x1_0000_0000
  }

  /** Data frames that carry their whole header and fit one advertisement. */
  predicate WellSized(frame: seq<byte>) {
    |frame| <= MAX_GAP_DATA_LEN && (CommandOf(frame) == DATA_CMD ==> |frame| >= HEADER_SIZE)
  }

  function DataFrame(pdu: DataPdu): seq<byte> {
    pdu.marker + [DATA_CMD] + LittleEndian(pdu.pduNo) + LittleEndian(pdu.sessionData) + [pdu.seed] + pdu.payload
  }

  function ParseData(frame: seq<byte>): DataPdu
    requires |frame| >= HEADER_SIZE
  {
    DataPdu(frame[..MARKER_SIZE], WordAt(frame, 4), WordAt(frame, 6), frame[8], frame[HEADER_SIZE..])
  }

  function KeyFrame(pdu: KeyPdu): seq<byte> {
    pdu.marker + [KEY_FRAGMENT_CMD] + LittleEndian(pdu.pduNo) + LittleEndian(pdu.sessionData)
    + pdu.masked + [pdu.seed] + pdu.tag
  }

  /** `n` bytes of the receive buffer. */
  function Padded(frame: seq<byte>, from: nat, n: nat): (bytes: seq<byte>)
    ensures |bytes| == n && forall i :: 0 <= i < n ==> bytes[i] == At(frame, from + i)
  {
    if n == 0 then [] else Padded(frame, from, n - 1) + [At(frame, from + n - 1)]
  }

  function ParseKey(frame: seq<byte>): KeyPdu {
    KeyPdu(Padded(frame, 0, MARKER_SIZE), WordAt(frame, 4), WordAt(frame, 6),
           Padded(frame, 8, KEY_FRAGMENT_SIZE), At(frame, 12), Padded(frame, 13, HMAC_SIZE))
  }

  /** What the processor makes of a frame. */
  datatype Reading = ReadData(pdu: DataPdu) | ReadFragment(fragment: KeyPdu) | ReadOther

  function Read(frame: seq<byte>): Reading
    requires WellSized(frame)
  {
    if CommandOf(frame) == DATA_CMD then ReadData(ParseData(frame))
    else if CommandOf(frame) == KEY_FRAGMENT_CMD then ReadFragment(ParseKey(frame))
    else ReadOther
  }

  /** What a frame is read as goes by its fourth byte alone; one without it is nothing. */
  lemma ReadKinds(frame: seq<byte>)
    requires WellSized(frame)
    ensures Read(frame).ReadData? <==> |frame| > 3 && frame[3] == 1
    ensures Read(frame).ReadFragment? <==> |frame| > 3 && frame[3] == 2
  {}

  /** A key frame that is too short reads as if zeros followed it. */
  lemma ShortKeyFrame(frame: seq<byte>)
    requires |frame| < KEY_FRAME_SIZE
    ensures ParseKey(frame) == ParseKey(frame + Zeros(KEY_FRAME_SIZE - |frame|))
  {
    var long := frame + Zeros(KEY_FRAME_SIZE - |frame|);
    assert forall i: nat :: At(frame, i) == At(long, i);
    hide At;
    PaddedAlike(frame, long, 0, MARKER_SIZE);
    PaddedAlike(frame, long, 8, KEY_FRAGMENT_SIZE);
    PaddedAlike(frame, long, 13, HMAC_SIZE);
  }

  lemma PaddedAlike(a: seq<byte>, b: seq<byte>, from: nat, n: nat)
    requires forall i: nat :: At(a, i) == At(b, i)
    ensures Padded(a, from, n) == Padded(b, from, n)
  {
    hide At;
  }

  lemma WordBytes(frame: seq<byte>, i: nat, x: u16)
    requires i + 2 <= |frame| && frame[i..i + 2] == LittleEndian(x)
    ensures WordAt(frame, i) == x
  {
    assert frame[i] == frame[i..i + 2][0] && frame[i + 1] == frame[i..i + 2][1];
  }

  /** Parsing an emitted data frame recovers every field and the payload length, and the frame
      fits an advertisement exactly when the payload is at most 22 bytes. */
  lemma DataFrameRoundTrip(pdu: DataPdu)
    ensures var f := DataFrame(pdu);
      && |f| == HEADER_SIZE + |pdu.payload|
      && CommandOf(f) == DATA_CMD
      && ParseData(f) == pdu
      && (HasMarker(f) <==> pdu.marker == MARKER)
      && (|pdu.payload| < 0x1_0000_0000 ==> PayloadSizeOf(|f|) == |pdu.payload|)
      && (WellSized(f) <==> |pdu.payload| <= MAX_GAP_DATA_LEN - HEADER_SIZE)
  {
    var f := DataFrame(pdu);
    assert f[..3] == pdu.marker && f[9..] == pdu.payload;
    assert f[4..6] == LittleEndian(pdu.pduNo) && f[6..8] == LittleEndian(pdu.sessionData);
    WordBytes(f, 4, pdu.pduNo);
    WordBytes(f, 6, pdu.sessionData);
  }

  /** Conversely a data frame is determined by what parsing reads from it. */
  lemma DataFrameComplete(frame: seq<byte>)
    requires |frame| >= HEADER_SIZE && CommandOf(frame) == DATA_CMD
    ensures DataFrame(ParseData(frame)) == frame
  {
    var g := DataFrame(ParseData(frame));
    assert frame == frame[..3] + frame[3..9] + frame[9..];
    assert frame[3..9] == [DATA_CMD] + LittleEndian(WordAt(frame, 4)) + LittleEndian(WordAt(frame, 6)) + [frame[8]];
  }

  lemma KeyFrameRoundTrip(pdu: KeyPdu)
    ensures var f := KeyFrame(pdu);
      && |f| == KEY_FRAME_SIZE
      && CommandOf(f) == KEY_FRAGMENT_CMD
      && ParseKey(f) == pdu
      && (HasMarker(f) <==> pdu.marker == MARKER)
      && WellSized(f)
  {
    var f := KeyFrame(pdu);
    assert f[..3] == pdu.marker == [At(f, 0), At(f, 1), At(f, 2)];
    assert f[4..6] == LittleEndian(pdu.pduNo) && f[6..8] == LittleEndian(pdu.sessionData);
    WordBytes(f, 4, pdu.pduNo);
    WordBytes(f, 6, pdu.sessionData);
    assert f[8..12] == pdu.masked == [At(f, 8), At(f, 9), At(f, 10), At(f, 11)];
    assert f[13..] == pdu.tag == [At(f, 13), At(f, 14), At(f, 15), At(f, 16)];
  }

  lemma KeyFrameComplete(frame: seq<byte>)
    requires |frame| == KEY_FRAME_SIZE && CommandOf(frame) == KEY_FRAGMENT_CMD
    ensures KeyFrame(ParseKey(frame)) == frame
  {
    hide ParseKey, LittleEndian, CommandOf;
    KeyFrameWords(frame);
    KeyFrameBytes(frame);
    KeyFrameParts(frame);
  }

  lemma KeyFrameWords(frame: seq<byte>)
    requires |frame| == KEY_FRAME_SIZE && CommandOf(frame) == KEY_FRAGMENT_CMD
    ensures var pdu := ParseKey(frame);
      frame[3..4] == [KEY_FRAGMENT_CMD] && frame[4..6] == LittleEndian(pdu.pduNo) && frame[6..8] == LittleEndian(pdu.sessionData)
  {
    hide Padded;
  }

  lemma KeyFrameBytes(frame: seq<byte>)
    requires |frame| == KEY_FRAME_SIZE
    ensures var pdu := ParseKey(frame);
      frame[..3] == pdu.marker && frame[8..12] == pdu.masked && frame[12..13] == [pdu.seed] && frame[13..] == pdu.tag
  {
    hide Padded, WordAt;
  }

  lemma KeyFrameParts(frame: seq<byte>)
    requires |frame| == KEY_FRAME_SIZE
    ensures frame == frame[..3] + frame[3..4] + frame[4..6] + frame[6..8] + frame[8..12] + frame[12..13] + frame[13..]
  {}

  /** Where each field is in a frame: packed structures, 16-bit words with the low byte first. */
  lemma DataFrameLayout(pdu: DataPdu, i: nat)
    ensures var f := DataFrame(pdu);
      && f[0] == pdu.marker[0] && f[1] == pdu.marker[1] && f[2] == pdu.marker[2] && f[3] == DATA_CMD
      && pdu.pduNo == f[4] as int + 0x100 * f[5] as int && pdu.sessionData == f[6] as int + 0x100 * f[7] as int && f[8] == pdu.seed
      && (i < |pdu.payload| ==> f[9 + i] == pdu.payload[i])
  {}

  lemma KeyFrameLayout(pdu: KeyPdu, i: nat)
    ensures var f := KeyFrame(pdu);
      && f[0] == pdu.marker[0] && f[1] == pdu.marker[1] && f[2] == pdu.marker[2] && f[3] == KEY_FRAGMENT_CMD
      && pdu.pduNo == f[4] as int + 0x100 * f[5] as int && pdu.sessionData == f[6] as int + 0x100 * f[7] as int && f[12] == pdu.seed
      && (i < 4 ==> f[8 + i] == pdu.masked[i] && f[13 + i] == pdu.tag[i])
  {}

  // ---- Nonce, sealing and opening -----------------------------------------------------------

  function NonceOf(marker: Marker, sessionData: u16, seed: byte): Nonce
  {
    marker + LittleEndian(sessionData) + [seed] + Zeros(NONCE_SIZE - 6)
  }

  /** Fills the caller's buffer: zeros first, then the marker, the session data and the seed. */
  method BuildNonce(nonce: array<byte>, marker: Marker, sessionData: u16, seed: byte)
    requires nonce.Length == NONCE_SIZE
    modifies nonce
    ensures nonce[..] == NonceOf(marker, sessionData, seed)
  {
    forall i | 0 <= i < NONCE_SIZE {
      nonce[i] := 0;
    }
    forall i | 0 <= i < MARKER_SIZE {
      nonce[i] := marker[i];
    }
    nonce[MARKER_SIZE] := sessionData % 0x100;
    nonce[MARKER_SIZE + 1] := (sessionData / 0x100) % 0x100;
    nonce[MARKER_SIZE + 2] := seed;
  }

  /** Marker, session data with the low byte first, seed, and zeros. */
  lemma NonceLayout(marker: Marker, sessionData: u16, seed: byte, i: nat)
    ensures var n := NonceOf(marker, sessionData, seed);
      && n[0] == marker[0] && n[1] == marker[1] && n[2] == marker[2]
      && sessionData == n[3] as int + 0x100 * n[4] as int && n[5] == seed && (6 <= i < NONCE_SIZE ==> n[i] == 0)
  {}

  /** One nonce is never built for two different (session data, seed) pairs. */
  lemma NonceInjective(marker: Marker, data1: u16, seed1: byte, data2: u16, seed2: byte)
    requires NonceOf(marker, data1, seed1) == NonceOf(marker, data2, seed2)
    ensures data1 == data2 && seed1 == seed2
  {
    var n1, n2 := NonceOf(marker, data1, seed1), NonceOf(marker, data2, seed2);
    assert n1[3] == data1 % 0x100 && n1[4] == data1 / 0x100 && n1[5] == seed1;
    assert n2[3] == data2 % 0x100 && n2[4] == data2 / 0x100 && n2[5] == seed2;
  }

  /** The data PDU a broadcaster makes from a clear payload. */
  function Seal(prims: Primitives, key: Key, keyId: u16, pduNo: u16, seed: byte, clear: seq<byte>): DataPdu {
    var sessionData := ProduceKeySessionData(keyId, 0);
    DataPdu(MARKER, pduNo, sessionData, seed, Ctr(prims, key, NonceOf(MARKER, sessionData, seed), clear))
  }

  /** What the observer hands on after decrypting a PDU with `key`. */
  function Open(prims: Primitives, key: Key, pdu: DataPdu): (clear: seq<byte>)
    ensures |clear| == |pdu.payload|
  {
    Ctr(prims, key, NonceOf(pdu.marker, pdu.sessionData, pdu.seed), pdu.payload)
  }

  function SealFragment(prims: Primitives, key: Key, keyId: u16, pduNo: u16, index: byte, seed: byte): KeyPdu
    requires index < NO_KEY_FRAGMENTS
  {
    var masked := Mask(FragmentOf(key, index), seed);
    KeyPdu(MARKER, pduNo, ProduceKeySessionData(keyId, index), masked, seed, prims.tag(FragmentOf(key, index), masked))
  }

  /** The clear fragment, if its tag checks. */
  function OpenFragment(prims: Primitives, masked: Fragment, seed: byte, tag: Tag): Option<Fragment> {
    var clear: Fragment := Unmask(masked, seed);
    if prims.tag(clear, masked) == tag then Some(clear) else None
  }

  /** A fragment opens exactly under the tag of what unmasking gives, and to nothing else. */
  lemma OpensIff(prims: Primitives, masked: Fragment, seed: byte, tag: Tag, clear: Fragment)
    ensures OpenFragment(prims, masked, seed, tag) == Some(clear) <==> masked == Mask(clear, seed) && tag == prims.tag(clear, masked)
    ensures OpenFragment(prims, masked, seed, tag).None? <==> tag != prims.tag(Unmask(masked, seed), masked)
  {
    MaskUnmask(masked, seed);
    UnmaskMask(clear, seed);
  }

  /** A sealed payload of a length the radio carries comes back unchanged through the frame. */
  lemma SealedPayloadRoundTrip(prims: Primitives, key: Key, keyId: KeyId, pduNo: u16, seed: byte, clear: seq<byte>)
    requires |clear| <= MAX_GAP_DATA_LEN - HEADER_SIZE
    ensures var f := DataFrame(Seal(prims, key, keyId, pduNo, seed, clear));
      && WellSized(f) && HasMarker(f) && |f| >= HEADER_SIZE && CommandOf(f) == DATA_CMD
      && ParseData(f).pduNo == pduNo
      && ParseData(f).seed == seed
      && KeyIdOf(ParseData(f).sessionData) == keyId
      && PayloadSizeOf(|f|) == |clear|
      && Open(prims, key, ParseData(f)) == clear
  {
    var pdu := Seal(prims, key, keyId, pduNo, seed, clear);
    DataFrameRoundTrip(pdu);
    SessionDataRoundTrip(keyId, 0);
    CtrInverts(prims, key, NonceOf(MARKER, pdu.sessionData, seed), clear);
  }

  lemma SealedFragmentRoundTrip(prims: Primitives, key: Key, keyId: KeyId, pduNo: u16, index: byte, seed: byte)
    requires index < NO_KEY_FRAGMENTS
    ensures var f := KeyFrame(SealFragment(prims, key, keyId, pduNo, index, seed));
      && WellSized(f) && HasMarker(f) && CommandOf(f) == KEY_FRAGMENT_CMD
      && ParseKey(f).pduNo == pduNo
      && KeyIdOf(ParseKey(f).sessionData) == keyId
      && FragmentIndexOf(ParseKey(f).sessionData) == index
      && OpenFragment(prims, ParseKey(f).masked, ParseKey(f).seed, ParseKey(f).tag) == Some(FragmentOf(key, index))
  {
    KeyFrameRoundTrip(SealFragment(prims, key, keyId, pduNo, index, seed));
    SessionDataRoundTrip(keyId, index);
    UnmaskMask(FragmentOf(key, index), seed);
  }

  // ---- Advertising interval ---------------------------------------------------------------

  /** 80 ms times the nearest multiple (halves up) of the id scaled linearly from 3000 to 5000 ms. */
  function RoundedInterval(keyId: u16): nat {
    var num := MIN_ADV_TIME_MS * MAX_KEY_ID_VAL + (MAX_ADV_TIME_MS - MIN_ADV_TIME_MS) * keyId;
    var den := MAX_KEY_ID_VAL * SCALE_SINGLE_MS;
    (2 * num + den) / (2 * den) * SCALE_SINGLE_MS
  }

  function AdvInterval(keyId: u16): nat {
    var rounded := RoundedInterval(keyId);
    if rounded < MIN_ADV_TIME_MS then MIN_ADV_TIME_MS
    else if rounded > MAX_ADV_TIME_MS then MAX_ADV_TIME_MS
    else rounded
  }

  /** Every session id stands for an interval within the limits and at most half a step away
      from its exact linear image; larger ids never have shorter intervals. */
  lemma AdvIntervalBounds(keyId: KeyId)
    ensures MIN_ADV_TIME_MS <= AdvInterval(keyId) <= MAX_ADV_TIME_MS
    ensures var exact := MIN_ADV_TIME_MS as real + 2000.0 * keyId as real / 16383.0;
      exact - 40.0 <= AdvInterval(keyId) as real <= exact + 40.0
    ensures forall larger: KeyId :: keyId <= larger ==> AdvInterval(keyId) <= AdvInterval(larger)
  {
    var num := 3000 * 16383 + 2000 * keyId;
    var q := (2 * num + 1310640) / 2621280;
    assert 2621280 * q <= 2 * num + 1310640 < 2621280 * (q + 1);
  }

  /** `q` steps of 80 ms are nearest to the id's exact image, the larger one of two that are as near. */
  predicate NearestStep(keyId: KeyId, q: nat) {
    var exact := MIN_ADV_TIME_MS as real + 2000.0 * keyId as real / 16383.0;
    exact - 40.0 < (80 * q) as real <= exact + 40.0
  }

  /** The interval is the nearest multiple of 80 ms, kept within the limits. */
  lemma AdvIntervalIsNearest(keyId: KeyId) returns (q: nat)
    ensures NearestStep(keyId, q)
    ensures AdvInterval(keyId) ==
      if 80 * q < MIN_ADV_TIME_MS then MIN_ADV_TIME_MS else if 80 * q > MAX_ADV_TIME_MS then MAX_ADV_TIME_MS else 80 * q
  {
    var num := 3000 * 16383 + 2000 * keyId;
    q := (2 * num + 1310640) / 2621280;
    assert 2621280 * q <= 2 * num + 1310640 < 2621280 * (q + 1);
  }
}
