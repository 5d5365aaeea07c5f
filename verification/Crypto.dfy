/** The crypto layer: key fragments, chained XOR masking, counter-mode encryption over an
    abstract keystream, and the accumulate-compare used on authentication tags. */
module Crypto {
  import opened Bytes

  const KEY_FRAGMENT_SIZE := 4
  const NO_KEY_FRAGMENTS := 4
  const KEY_SIZE := 16
  const HMAC_SIZE := 4
  const NONCE_SIZE := 16

  type FragmentIndex = i: nat | i < NO_KEY_FRAGMENTS
  type Fragment = s: seq<byte> | |s| == KEY_FRAGMENT_SIZE witness [0, 0, 0, 0]
  type Tag = s: seq<byte> | |s| == HMAC_SIZE witness [0, 0, 0, 0]
  type Key = s: seq<byte> | |s| == KEY_SIZE witness seq(16, _ => 0)
  type Nonce = s: seq<byte> | |s| == NONCE_SIZE witness seq(16, _ => 0)

  const BLANK_FRAGMENT: Fragment := Zeros(KEY_FRAGMENT_SIZE)
  type Fragments = s: seq<Fragment> | |s| == NO_KEY_FRAGMENTS
    witness [BLANK_FRAGMENT, BLANK_FRAGMENT, BLANK_FRAGMENT, BLANK_FRAGMENT]
  const BLANK_KEY: Key := Zeros(KEY_SIZE)

  /** What the firmware takes from its crypto library. `keystream(key, nonce, i)` is byte `i` of
      the AES-CTR keystream (section 6.5 of NIST SP 800-38A); `tag(fragment, masked)` is the
      truncated HMAC keyed with the clear fragment (section 2 of RFC 2104). */
  datatype Primitives = Primitives(
    keystream: (Key, Nonce, nat) -> byte,
    tag: (Fragment, Fragment) -> Tag)

  // ---- Chained XOR -------------------------------------------------------------------

  /** Each masked byte is the clear byte XOR the masked byte before it; the first uses `seed`. */
  function Mask(clear: seq<byte>, seed: byte): (masked: seq<byte>)
    ensures |masked| == |clear|
  {
    if clear == [] then []
    else
      var first := Xor(clear[0], seed);
      [first] + Mask(clear[1..], first)
  }

  function Unmask(masked: seq<byte>, seed: byte): (clear: seq<byte>)
    ensures |clear| == |masked|
  {
    if masked == [] then [] else [Xor(masked[0], seed)] + Unmask(masked[1..], masked[0])
  }

  lemma {:induction false} UnmaskMask(clear: seq<byte>, seed: byte)
    ensures Unmask(Mask(clear, seed), seed) == clear
  {
    if clear != [] {
      XorCancels(clear[0], seed);
      UnmaskMask(clear[1..], Xor(clear[0], seed));
    }
  }

  lemma {:induction false} MaskUnmask(masked: seq<byte>, seed: byte)
    ensures Mask(Unmask(masked, seed), seed) == masked
  {
    if masked != [] {
      XorCancels(masked[0], seed);
      MaskUnmask(masked[1..], masked[0]);
    }
  }

  lemma {:induction false} MaskAt(clear: seq<byte>, seed: byte, i: nat)
    requires i < |clear|
    ensures Mask(clear, seed)[i] == Xor(clear[i], if i == 0 then seed else Mask(clear, seed)[i - 1])
  {
    if i > 0 {
      MaskAt(clear[1..], Xor(clear[0], seed), i - 1);
    }
  }

  lemma {:induction false} UnmaskAt(masked: seq<byte>, seed: byte, i: nat)
    requires i < |masked|
    ensures Unmask(masked, seed)[i] == Xor(masked[i], if i == 0 then seed else masked[i - 1])
  {
    if i > 0 {
      UnmaskAt(masked[1..], masked[0], i - 1);
    }
  }

  method XorEncryptKeyFragment(fragment: array<byte>, encrypted: array<byte>, seed: byte)
    requires fragment.Length == encrypted.Length == KEY_FRAGMENT_SIZE
    modifies encrypted
    ensures encrypted[..] == Mask(old(fragment[..]), seed)
  {
    ghost var clear := fragment[..];
    MaskAt(clear, seed, 0);
    encrypted[0] := Xor(fragment[0], seed);
    for i := 1 to KEY_FRAGMENT_SIZE
      invariant forall k :: i <= k < KEY_FRAGMENT_SIZE ==> fragment[k] == clear[k]
      invariant forall k :: 0 <= k < i ==> encrypted[k] == Mask(clear, seed)[k]
    {
      MaskAt(clear, seed, i);
      encrypted[i] := Xor(fragment[i], encrypted[i - 1]);
    }
  }

  /** Into a buffer of its own this unmasks. In place it overwrites what the next byte needs, and so
      masks once more. */
  method XorDecryptKeyFragment(encrypted: array<byte>, decrypted: array<byte>, seed: byte)
    requires encrypted.Length == decrypted.Length == KEY_FRAGMENT_SIZE
    modifies decrypted
    ensures decrypted[..] == if encrypted == decrypted then Mask(old(encrypted[..]), seed)
                             else Unmask(old(encrypted[..]), seed)
  {
    ghost var masked := encrypted[..];
    ghost var result := if encrypted == decrypted then Mask(masked, seed) else Unmask(masked, seed);
    UnmaskAt(masked, seed, 0);
    MaskAt(masked, seed, 0);
    decrypted[0] := Xor(encrypted[0], seed);
    for i := 1 to KEY_FRAGMENT_SIZE
      invariant forall k :: i <= k < KEY_FRAGMENT_SIZE ==> encrypted[k] == masked[k]
      invariant encrypted != decrypted ==> encrypted[i - 1] == masked[i - 1]
      invariant forall k :: 0 <= k < i ==> decrypted[k] == result[k]
    {
      UnmaskAt(masked, seed, i);
      MaskAt(masked, seed, i);
      decrypted[i] := Xor(encrypted[i], encrypted[i - 1]);
    }
  }

  // ---- Splitting and joining a key ----------------------------------------------------

  function FragmentOf(key: Key, index: nat): Fragment
    requires index < NO_KEY_FRAGMENTS
  {
    key[index * KEY_FRAGMENT_SIZE..(index + 1) * KEY_FRAGMENT_SIZE]
  }

  function Split(key: Key): (fragments: Fragments)
  {
    seq(NO_KEY_FRAGMENTS, i requires 0 <= i < NO_KEY_FRAGMENTS => FragmentOf(key, i))
  }

  function Join(fragments: Fragments): Key
  {
    var f0: seq<byte> := fragments[0];
    var f1: seq<byte> := fragments[1];
    f0 + f1 + fragments[2] + fragments[3]
  }

  lemma JoinSplit(key: Key)
    ensures Join(Split(key)) == key
  {
    var s := Split(key);
    assert s[0] == key[0..4] && s[1] == key[4..8] && s[2] == key[8..12] && s[3] == key[12..16];
  }

  lemma SplitJoin(fragments: Fragments)
    ensures Split(Join(fragments)) == fragments
  {
    forall i | 0 <= i < NO_KEY_FRAGMENTS
      ensures FragmentOf(Join(fragments), i) == fragments[i]
    {
      assert i == 0 || i == 1 || i == 2 || i == 3;
    }
  }

  /** Byte `j` of fragment `i` is byte `4 * i + j` of the key, split or joined. */
  lemma FragmentBytes(key: Key, fragments: Fragments, i: FragmentIndex, j: nat)
    requires j < KEY_FRAGMENT_SIZE
    ensures Split(key)[i][j] == FragmentOf(key, i)[j] == key[4 * i + j]
    ensures Join(fragments)[4 * i + j] == fragments[i][j]
  {
    assert i == 0 || i == 1 || i == 2 || i == 3;
  }

  method SplitKeyToFragments(key: array<byte>, fragments: array<Fragment>)
    requires key.Length == KEY_SIZE && fragments.Length == NO_KEY_FRAGMENTS
    modifies fragments
    ensures fragments[..] == Split(key[..])
  {
    for i := 0 to NO_KEY_FRAGMENTS
      invariant forall k :: 0 <= k < i ==> fragments[k] == FragmentOf(key[..], k)
    {
      fragments[i] := key[i * KEY_FRAGMENT_SIZE..(i + 1) * KEY_FRAGMENT_SIZE];
      assert fragments[i] == FragmentOf(key[..], i);
    }
  }

  method KeyFromFragments(key: array<byte>, fragments: array<Fragment>)
    requires key.Length == KEY_SIZE && fragments.Length == NO_KEY_FRAGMENTS
    modifies key
    ensures key[..] == Join(fragments[..])
  {
    for i := 0 to NO_KEY_FRAGMENTS
      invariant forall k :: 0 <= k < i ==> key[4 * k] == fragments[k][0] && key[4 * k + 1] == fragments[k][1]
                                           && key[4 * k + 2] == fragments[k][2] && key[4 * k + 3] == fragments[k][3]
    {
      forall j | 0 <= j < KEY_FRAGMENT_SIZE {
        key[i * KEY_FRAGMENT_SIZE + j] := fragments[i][j];
      }
    }
    forall p | 0 <= p < KEY_SIZE
      ensures key[p] == Join(fragments[..])[p]
    {
      var k := p / 4;
      assert key[4 * k] == fragments[k][0];
      assert p == 4 * k || p == 4 * k + 1 || p == 4 * k + 2 || p == 4 * k + 3;
    }
  }

  // ---- Counter mode --------------------------------------------------------------------

  /** Counter mode XORs the data with the keystream; decryption is the same call. */
  function Ctr(prims: Primitives, key: Key, nonce: Nonce, data: seq<byte>): (out: seq<byte>)
    ensures |out| == |data|
  {
    seq<byte>(|data|, i requires 0 <= i < |data| => Xor(data[i], prims.keystream(key, nonce, i)))
  }

  lemma CtrInverts(prims: Primitives, key: Key, nonce: Nonce, data: seq<byte>)
    ensures Ctr(prims, key, nonce, Ctr(prims, key, nonce, data)) == data
  {
    forall i | 0 <= i < |data|
      ensures Xor(Xor(data[i], prims.keystream(key, nonce, i)), prims.keystream(key, nonce, i)) == data[i]
    {
      XorCancels(data[i], prims.keystream(key, nonce, i));
    }
  }

  /** A longer text begins with the encryption of its beginning, and a text of zeros gives the keystream
      byte for byte. */
  lemma CtrStreams(prims: Primitives, key: Key, nonce: Nonce, data: seq<byte>, more: seq<byte>, n: nat, i: nat)
    ensures Ctr(prims, key, nonce, data + more)[..|data|] == Ctr(prims, key, nonce, data)
    ensures i < n ==> Ctr(prims, key, nonce, Zeros(n))[i] == prims.keystream(key, nonce, i)
  {
    if i < n {
      var k := prims.keystream(key, nonce, i);
      XorZeroLeft(k);
    }
  }

  // ---- Comparison -----------------------------------------------------------------------

  /** Accumulates every difference, so that the running time does not depend on the data. */
  method SecureCompare(a: array<byte>, b: array<byte>, size: nat) returns (result: int)
    requires size <= a.Length && size <= b.Length
    ensures result == 0 || result == 1
    ensures result == 0 <==> a[..size] == b[..size]
  {
    var acc: byte := 0;
    for i := 0 to size
      invariant acc == 0 <==> a[..i] == b[..i]
    {
      XorZeroIffEqual(a[i], b[i]);
      assert a[..i + 1] == a[..i] + [a[i]] && b[..i + 1] == b[..i] + [b[i]];
      acc := Or(acc, Xor(a[i], b[i]));
    }
    result := if acc == 0 then 0 else 1;
  }
}
