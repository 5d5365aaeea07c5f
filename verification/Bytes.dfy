/** Bytes and 16-bit words as bounded integers, with the bit operations the
    firmware uses written out as arithmetic on binary digits. */
module Bytes {

  type byte = x: int | 0 <= x < 0x100

  type u16 = x: int | 0 <= x < 0x1_0000

  /** A zero-filled buffer. */
  function Zeros(n: nat): (zeros: seq<byte>)
    ensures |zeros| == n && forall i :: 0 <= i < n ==> zeros[i] == 0
  {
    if n == 0 then [] else [0] + Zeros(n - 1)
  }

  /** Exclusive or of the `width` low binary digits of `a` and `b`. */
  function XorDigits(a: nat, b: nat, width: nat): nat {
    if width == 0 then 0
    else (if a % 2 == b % 2 then 0 else 1) + 2 * XorDigits(a / 2, b / 2, width - 1)
  }

  function Pow2(width: nat): nat {
    if width == 0 then 1 else 2 * Pow2(width - 1)
  }

  lemma {:induction false} XorDigitsBound(a: nat, b: nat, width: nat)
    ensures XorDigits(a, b, width) < Pow2(width)
    ensures width == 8 ==> Pow2(width) == 0x100
  {
    if width > 0 {
      XorDigitsBound(a / 2, b / 2, width - 1);
    }
    if width == 8 {
      assert Pow2(4) == 16;
    }
  }

  /** The C operator `^` on two `uint8_t`. */
  function Xor(a: byte, b: byte): byte {
    XorDigitsBound(a, b, 8);
    XorDigits(a, b, 8)
  }

  lemma {:induction false} XorDigitsCancel(a: nat, b: nat, width: nat)
    requires a < Pow2(width)
    ensures XorDigits(XorDigits(a, b, width), b, width) == a
  {
    if width > 0 {
      XorDigitsCancel(a / 2, b / 2, width - 1);
    }
  }

  /** Masking twice with the same byte restores the original. */
  lemma XorCancels(a: byte, b: byte)
    ensures Xor(Xor(a, b), b) == a
  {
    XorDigitsBound(a, b, 8);
    XorDigitsCancel(a, b, 8);
  }

  lemma {:induction false} XorDigitsInjective(a: nat, b: nat, c: nat, width: nat)
    requires b < Pow2(width) && c < Pow2(width) && XorDigits(a, b, width) == XorDigits(a, c, width)
    ensures b == c
  {
    if width > 0 {
      XorDigitsInjective(a / 2, b / 2, c / 2, width - 1);
    }
  }

  /** One byte masked with two bytes gives one result only if these are the same. */
  lemma XorSameIff(a: byte, b: byte, c: byte)
    ensures Xor(a, b) == Xor(a, c) <==> b == c
  {
    XorDigitsBound(a, b, 8);
    if Xor(a, b) == Xor(a, c) { XorDigitsInjective(a, b, c, 8); }
  }

  lemma {:induction false} XorDigitsZero(a: nat, b: nat, width: nat)
    requires a < Pow2(width) && b < Pow2(width)
    ensures XorDigits(a, b, width) == 0 <==> a == b
  {
    if width > 0 {
      XorDigitsZero(a / 2, b / 2, width - 1);
    }
  }

  lemma XorZeroIffEqual(a: byte, b: byte)
    ensures Xor(a, b) == 0 <==> a == b
  {
    XorDigitsBound(a, b, 8);
    XorDigitsZero(a, b, 8);
  }

  lemma {:induction false} XorDigitsZeroLeft(b: nat, width: nat)
    requires b < Pow2(width)
    ensures XorDigits(0, b, width) == b
  {
    if width > 0 { XorDigitsZeroLeft(b / 2, width - 1); }
  }

  lemma XorZeroLeft(b: byte)
    ensures Xor(0, b) == b
  {
    XorDigitsBound(0, b, 8);
    XorDigitsZeroLeft(b, 8);
  }

  function OrDigits(a: nat, b: nat, width: nat): nat {
    if width == 0 then 0
    else (if a % 2 == 1 || b % 2 == 1 then 1 else 0) + 2 * OrDigits(a / 2, b / 2, width - 1)
  }

  lemma {:induction false} OrDigitsZero(a: nat, b: nat, width: nat)
    requires a < Pow2(width) && b < Pow2(width)
    ensures OrDigits(a, b, width) < Pow2(width)
    ensures OrDigits(a, b, width) == 0 <==> a == 0 && b == 0
  {
    if width > 0 {
      OrDigitsZero(a / 2, b / 2, width - 1);
    }
  }

  /** The C operator `|` on two `uint8_t`: it is zero only when both sides are. */
  function Or(a: byte, b: byte): (r: byte)
    ensures r == 0 <==> a == 0 && b == 0
  {
    XorDigitsBound(a, b, 8);
    OrDigitsZero(a, b, 8);
    OrDigits(a, b, 8)
  }

  /** Binary digit `i`, counting from the lowest. */
  function Digit(x: nat, i: nat): nat {
    if i == 0 then x % 2 else Digit(x / 2, i - 1)
  }

  lemma {:induction false} DigitsOf(a: nat, b: nat, width: nat, i: nat)
    requires i < width
    ensures Digit(XorDigits(a, b, width), i) == (Digit(a, i) + Digit(b, i)) % 2
    ensures Digit(OrDigits(a, b, width), i) == if Digit(a, i) + Digit(b, i) == 0 then 0 else 1
  {
    hide XorDigits, OrDigits;
    XorHalves(a, b, width);
    OrHalves(a, b, width);
    if i > 0 {
      DigitsOf(a / 2, b / 2, width - 1, i - 1);
    }
  }

  lemma XorHalves(a: nat, b: nat, width: nat)
    requires width > 0
    ensures XorDigits(a, b, width) % 2 == (a % 2 + b % 2) % 2
    ensures XorDigits(a, b, width) / 2 == XorDigits(a / 2, b / 2, width - 1)
  {}

  lemma OrHalves(a: nat, b: nat, width: nat)
    requires width > 0
    ensures OrDigits(a, b, width) % 2 == if a % 2 + b % 2 == 0 then 0 else 1
    ensures OrDigits(a, b, width) / 2 == OrDigits(a / 2, b / 2, width - 1)
  {}

  /** Both operators work digit by digit. */
  lemma XorOrDigits(a: byte, b: byte, i: nat)
    requires i < 8
    ensures Digit(Xor(a, b), i) == (Digit(a, i) + Digit(b, i)) % 2
    ensures Digit(Or(a, b), i) == if Digit(a, i) + Digit(b, i) == 0 then 0 else 1
  {
    DigitsOf(a, b, 8, i);
  }

  /** Little-endian image of a 16-bit word, as the packed structures lay it out. */
  function LittleEndian(x: u16): seq<byte> {
    [x % 0x100, x / 0x100]
  }

  function FromLittleEndian(lo: byte, hi: byte): u16 {
    lo + 0x100 * hi
  }
}
