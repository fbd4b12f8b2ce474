/** Bytes as numbers and strings as bitmaps (bitops.c): bit 0 of a string is the
    most significant bit of its first byte, and a string is taken to go on with
    zeros. */
module Bits {

  type Byte = x: int | 0 <= x < 256

  /** Bit k of a number, (z >> k) & 1. */
  function Bit(z: nat, k: nat): nat {
    if k == 0 then z % 2 else Bit(z / 2, k - 1)
  }

  /** The number with bit k set to v, (z & ~(1 << k)) | (v << k). */
  function SetBit(z: nat, k: nat, v: bool): nat {
    if k == 0 then 2 * (z / 2) + (if v then 1 else 0) else 2 * SetBit(z / 2, k - 1, v) + z % 2
  }

  lemma {:induction false} BitRange(z: nat, k: nat)
    ensures Bit(z, k) == 0 || Bit(z, k) == 1
  {
    if k > 0 {
      BitRange(z / 2, k - 1);
    }
  }

  lemma {:induction false} SetBitMeans(z: nat, k: nat, v: bool, j: nat)
    ensures Bit(SetBit(z, k, v), j) == if j == k then (if v then 1 else 0) else Bit(z, j)
  {
    if k > 0 && j > 0 {
      SetBitMeans(z / 2, k - 1, v, j - 1);
    }
  }

  function Pow2(k: nat): (r: nat)
    ensures r >= 1
  {
    if k == 0 then 1 else 2 * Pow2(k - 1)
  }

  lemma {:induction false} Pow2Grows(a: nat, b: nat)
    requires a <= b
    ensures Pow2(a) <= Pow2(b)
    decreases b
  {
    if a < b {
      Pow2Grows(a, b - 1);
    }
  }

  /** Setting a bit below n keeps an n-bit number within n bits. */
  lemma {:induction false} SetBitStays(z: nat, k: nat, v: bool, n: nat)
    requires z < Pow2(n) && k < n
    ensures SetBit(z, k, v) < Pow2(n)
  {
    Halves(z, Pow2(n - 1));
    if k > 0 {
      SetBitStays(z / 2, k - 1, v, n - 1);
    }
  }

  lemma {:induction false} Halves(z: nat, p: nat)
    requires z < 2 * p
    ensures z / 2 < p && 2 * (z / 2) + 1 < 2 * p
  {
  }

  lemma {:induction false} Pow2Byte()
    ensures Pow2(8) == 256
  {
    assert Pow2(4) == 16;
  }

  function SetByteBit(b: Byte, k: nat, v: bool): (r: Byte)
    requires k < 8
    ensures r == SetBit(b, k, v)
  {
    Pow2Byte();
    SetBitStays(b, k, v, 8);
    SetBit(b, k, v)
  }

  /** Bit i of the zero-padded string. */
  predicate BitAt(s: seq<Byte>, i: nat) {
    i / 8 < |s| && Bit(s[i / 8], 7 - i % 8) == 1
  }

  /** Setting one bit of a string leaves all the others. */
  lemma {:induction false} SetBitAt(s: seq<Byte>, i: nat, v: bool, j: nat)
    requires i / 8 < |s|
    ensures BitAt(s[i / 8 := SetByteBit(s[i / 8], 7 - i % 8, v)], j) == if j == i then v else BitAt(s, j)
  {
    if j / 8 == i / 8 {
      SetBitMeans(s[i / 8], 7 - i % 8, v, 7 - j % 8);
    }
  }

  // ----------------------------------------------------- bytes of a number

  lemma {:induction false} BitStep(z: nat, k: nat)
    requires k > 0
    ensures Bit(z, k) == Bit(z / 2, k - 1)
  {
  }

  lemma {:induction false} BitBeyond(z: nat, k: nat, n: nat)
    requires z < Pow2(n) && k >= n
    ensures Bit(z, k) == 0
    decreases n
  {
    if n > 0 {
      BitBeyond(z / 2, k - 1, n - 1);
    } else {
      BitOfZero(k);
    }
  }

  lemma {:induction false} BitOfZero(k: nat)
    ensures Bit(0, k) == 0
  {
    if k > 0 {
      BitOfZero(k - 1);
    }
  }

  /** Shifting left by n and filling in n bits. */
  lemma {:induction false} BitOfJoined(a: nat, b: nat, n: nat, k: nat)
    requires b < Pow2(n)
    ensures Bit(Pow2(n) * a + b, k) == if k < n then Bit(b, k) else Bit(a, k - n)
    decreases n
  {
    if n > 0 {
      var z := Pow2(n) * a + b;
      HalfJoined(a, b, Pow2(n - 1));
      if k > 0 {
        BitOfJoined(a, b / 2, n - 1, k - 1);
      }
    }
  }

  lemma {:induction false} HalfJoined(a: nat, b: nat, p: nat)
    requires b < 2 * p
    ensures (2 * p * a + b) / 2 == p * a + b / 2 && (2 * p * a + b) % 2 == b % 2
  {
    var m := p * a;
    assert 2 * p * a == 2 * m;
  }

  /** Bytes as a number, the first the most significant. */
  function Number(z: seq<Byte>): nat {
    if z == [] then 0 else 256 * Number(z[..|z| - 1]) + z[|z| - 1]
  }
}
