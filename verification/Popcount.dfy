/** Counting bits 28 bytes at a time (redisPopcount in bitops.c). Bytes and
    32-bit words are numbers; a word is masked by a function that keeps the bits
    its mask keeps. */
module Popcount {
  import opened Bits

  /** The number of one bits of a number; bitsinbyte[b] for a byte. */
  function Ones(n: nat): nat {
    if n == 0 then 0 else n % 2 + Ones(n / 2)
  }

  function OnesOfNibble(n: nat): nat {
    n % 2 + n / 2 % 2 + n / 4 % 2 + n / 8 % 2
  }

  /** The number of one bits in the bytes from `start` up to `end`. */
  function Total(s: seq<Byte>, start: nat, end: nat): nat
    requires start <= end <= |s|
    decreases end
  {
    if start == end then 0 else Total(s, start, end - 1) + Ones(s[end - 1])
  }

  lemma {:induction false} TotalSplit(s: seq<Byte>, a: nat, b: nat, c: nat)
    requires a <= b <= c <= |s|
    ensures Total(s, a, c) == Total(s, a, b) + Total(s, b, c)
    decreases c
  {
    if b < c {
      TotalSplit(s, a, b, c - 1);
    }
  }

  // ------------------------------------------------------------------ masks

  /** z & 0x55555555: every second bit. */
  function Mask5(z: nat): nat {
    if z == 0 then 0 else z % 2 + 4 * Mask5(z / 4)
  }

  /** z & 0x33333333: two bits of every four. */
  function Mask3(z: nat): nat {
    if z == 0 then 0 else z % 4 + 16 * Mask3(z / 16)
  }

  /** z & 0x0F0F0F0F: four bits of every eight. */
  function MaskF(z: nat): nat {
    if z == 0 then 0 else z % 16 + 256 * MaskF(z / 256)
  }

  lemma {:induction false} Unmasked(z: nat)
    ensures Mask5(z) == z % 2 + 4 * Mask5(z / 4)
    ensures Mask3(z) == z % 4 + 16 * Mask3(z / 16)
    ensures MaskF(z) == z % 16 + 256 * MaskF(z / 256)
  {
  }

  /** A number above its last bits, and below. */
  lemma {:induction false} Parts(z: nat, d: nat) returns (q: nat, r: nat)
    requires d > 0
    ensures z == d * q + r && r < d && q == z / d && r == z % d
  {
    q, r := z / d, z % d;
  }

  lemma {:induction false} Mask5Parts(z: nat) returns (q: nat, r: nat, high: nat, low: nat)
    ensures z == 4 * q + r && r < 4 && z == 2 * high + low && low < 2 && Mask5(z) == 4 * Mask5(q) + low
  {
    Unmasked(z);
    q, r := Parts(z, 4);
    high, low := Parts(z, 2);
  }

  lemma {:induction false} Mask3Parts(z: nat) returns (q: nat, r: nat, high: nat, low: nat)
    ensures z == 16 * q + r && r < 16 && z == 4 * high + low && low < 4 && Mask3(z) == 16 * Mask3(q) + low
  {
    Unmasked(z);
    q, r := Parts(z, 16);
    high, low := Parts(z, 4);
  }

  lemma {:induction false} MaskFParts(z: nat) returns (q: nat, r: nat, high: nat, low: nat)
    ensures z == 256 * q + r && r < 256 && z == 16 * high + low && low < 16 && MaskF(z) == 256 * MaskF(q) + low
  {
    Unmasked(z);
    q, r := Parts(z, 256);
    high, low := Parts(z, 16);
  }

  lemma {:induction false} Mask5Step(z: nat, k: nat) returns (q: nat)
    ensures k < 2 ==> Bit(Mask5(z), k) == if k < 1 then Bit(z, k) else 0
    ensures k >= 2 ==> Bit(Mask5(z), k) == Bit(Mask5(q), k - 2) && Bit(z, k) == Bit(q, k - 2)
  {
    SmallPowers();
    var r, high, low;
    q, r, high, low := Mask5Parts(z);
    KeepsLow(Mask5(z), Mask5(q), z, high, low, q, r, 1, 2, k);
  }

  lemma {:induction false} Mask3Step(z: nat, k: nat) returns (q: nat)
    ensures k < 4 ==> Bit(Mask3(z), k) == if k < 2 then Bit(z, k) else 0
    ensures k >= 4 ==> Bit(Mask3(z), k) == Bit(Mask3(q), k - 4) && Bit(z, k) == Bit(q, k - 4)
  {
    SmallPowers();
    var r, high, low;
    q, r, high, low := Mask3Parts(z);
    KeepsLow(Mask3(z), Mask3(q), z, high, low, q, r, 2, 4, k);
  }

  lemma {:induction false} MaskFStep(z: nat, k: nat) returns (q: nat)
    ensures k < 8 ==> Bit(MaskF(z), k) == if k < 4 then Bit(z, k) else 0
    ensures k >= 8 ==> Bit(MaskF(z), k) == Bit(MaskF(q), k - 8) && Bit(z, k) == Bit(q, k - 8)
  {
    SmallPowers();
    var r, high, low;
    q, r, high, low := MaskFParts(z);
    KeepsLow(MaskF(z), MaskF(q), z, high, low, q, r, 4, 8, k);
  }

  /** The masks keep the bits of 0x55555555, 0x33333333 and 0x0F0F0F0F. */
  lemma {:induction false} Mask5Keeps(z: nat, k: nat)
    ensures Bit(Mask5(z), k) == if k % 2 < 1 then Bit(z, k) else 0
    decreases k
  {
    var q := Mask5Step(z, k);
    if k >= 2 {
      BackTwo(k);
      Mask5Keeps(q, k - 2);
    }
  }

  lemma {:induction false} Mask3Keeps(z: nat, k: nat)
    ensures Bit(Mask3(z), k) == if k % 4 < 2 then Bit(z, k) else 0
    decreases k
  {
    var q := Mask3Step(z, k);
    if k >= 4 {
      BackFour(k);
      Mask3Keeps(q, k - 4);
    }
  }

  lemma {:induction false} MaskFKeeps(z: nat, k: nat)
    ensures Bit(MaskF(z), k) == if k % 8 < 4 then Bit(z, k) else 0
    decreases k
  {
    var q := MaskFStep(z, k);
    if k >= 8 {
      BackEight(k);
      MaskFKeeps(q, k - 8);
    }
  }

  lemma {:induction false} BackTwo(k: nat)
    requires k >= 2
    ensures (k - 2) % 2 == k % 2
  {
  }

  lemma {:induction false} BackFour(k: nat)
    requires k >= 4
    ensures (k - 4) % 4 == k % 4
  {
  }

  lemma {:induction false} BackEight(k: nat)
    requires k >= 8
    ensures (k - 8) % 8 == k % 8
  {
  }

  lemma {:induction false} SmallPowers()
    ensures Pow2(1) == 2 && Pow2(2) == 4 && Pow2(4) == 16 && Pow2(8) == 256
  {
    Pow2Byte();
    assert Pow2(2) == 4;
    assert Pow2(4) == 16;
  }

  /** Of every n bits, the lowest m are kept; here for the first n. */
  lemma {:induction false} KeepsLow(y: nat, yq: nat, z: nat, zm: nat, low: nat, zq: nat, zr: nat, m: nat, n: nat,
                                    k: nat)
    requires m <= n && y == Pow2(n) * yq + low
    requires z == Pow2(m) * zm + low && low < Pow2(m)
    requires z == Pow2(n) * zq + zr && zr < Pow2(n)
    ensures k < n ==> Bit(y, k) == if k < m then Bit(z, k) else 0
    ensures k >= n ==> Bit(y, k) == Bit(yq, k - n) && Bit(z, k) == Bit(zq, k - n)
  {
    Pow2Grows(m, n);
    BitOfJoined(yq, low, n, k);
    BitOfJoined(zm, low, m, k);
    BitOfJoined(zq, zr, n, k);
    if k >= m {
      BitBeyond(low, k, m);
    }
  }

  // ------------------------------------------- what the three steps compute

  /** The number of ones of every two bits, in base 4. */
  function InPairs(x: nat): nat {
    if x == 0 then 0 else x % 2 + x / 2 % 2 + 4 * InPairs(x / 4)
  }

  /** Of every four bits, in base 16. */
  function InNibbles(x: nat): nat {
    if x == 0 then 0 else OnesOfNibble(x % 16) + 16 * InNibbles(x / 16)
  }

  /** Of every byte, in base 256. */
  function InBytes(x: nat): nat {
    if x == 0 then 0 else Ones(x % 256) + 256 * InBytes(x / 256)
  }

  lemma {:induction false} TwoBits(x: nat)
    ensures x == 4 * (x / 4) + 2 * (x / 2 % 2) + x % 2 && x / 2 / 4 == x / 4 / 2
  {
    var h, r := x / 2, x % 2;
    var q, s := h / 2, h % 2;
    Div4(x, q, 2 * s + r);
    Div4(h, q / 2, 2 * (q % 2) + s);
  }

  lemma {:induction false} FirstStep(x: nat)
    ensures Mask5(x / 2) <= x && x - Mask5(x / 2) == InPairs(x)
  {
    if x > 0 {
      FirstStep(x / 4);
      TwoBits(x);
      PairsMasked(x, x / 4);
    }
  }

  lemma {:induction false} PairsMasked(x: nat, q: nat)
    requires x > 0 && q == x / 4 && x / 2 / 4 == q / 2
    ensures Mask5(x / 2) == x / 2 % 2 + 4 * Mask5(q / 2) && InPairs(x) == x % 2 + x / 2 % 2 + 4 * InPairs(q)
  {
    Unmasked(x / 2);
  }

  lemma {:induction false} PairsUnfold(x: nat)
    ensures InPairs(x) == (x % 2 + x / 2 % 2) + 4 * (x / 4 % 2 + x / 8 % 2) + 16 * InPairs(x / 16)
  {
    assert InPairs(x / 4) == x / 4 % 2 + x / 4 / 2 % 2 + 4 * InPairs(x / 4 / 4);
    assert x / 4 / 2 == x / 8 && x / 4 / 4 == x / 16;
  }

  lemma {:induction false} NibbleDigits(x: nat)
    ensures OnesOfNibble(x % 16) == x % 2 + x / 2 % 2 + x / 4 % 2 + x / 8 % 2
  {
    var h, n := x / 16, x % 16;
    assert x == 16 * h + n;
    LowBit(x, 8 * h, n);
    LowBit(x / 2, 4 * h, n / 2);
    LowBit(x / 4, 2 * h, n / 4);
    LowBit(x / 8, h, n / 8);
  }

  lemma {:induction false} LowBit(x: nat, h: nat, n: nat)
    requires x == 2 * h + n
    ensures x % 2 == n % 2
  {
  }

  lemma {:induction false} SecondStep(x: nat)
    ensures Mask3(InPairs(x)) + Mask3(InPairs(x) / 4) == InNibbles(x)
  {
    if x > 0 {
      SecondStep(x / 16);
      PairsUnfold(x);
      NibbleDigits(x);
      SplitPairs(InPairs(x), x % 2 + x / 2 % 2, x / 4 % 2 + x / 8 % 2, InPairs(x / 16));
    }
  }

  lemma {:induction false} Div4(x: nat, q: nat, r: nat)
    requires x == 4 * q + r && r < 4
    ensures x / 4 == q && x % 4 == r
  {
  }

  lemma {:induction false} Div16(x: nat, q: nat, r: nat)
    requires x == 16 * q + r && r < 16
    ensures x / 16 == q && x % 16 == r
  {
  }

  lemma {:induction false} Div256(x: nat, q: nat, r: nat)
    requires x == 256 * q + r && r < 256
    ensures x / 256 == q && x % 256 == r
  {
  }

  lemma {:induction false} Halved(x: nat, q: nat, r: nat)
    requires x == 2 * q + r && r < 2
    ensures x / 2 == q && x % 2 == r
  {
  }

  lemma {:induction false} SplitPairs(y: nat, d0: nat, d1: nat, q: nat)
    requires y == d0 + 4 * d1 + 16 * q && d0 <= 2 && d1 <= 2
    ensures Mask3(y) == d0 + 16 * Mask3(q) && Mask3(y / 4) == d1 + 16 * Mask3(q / 4)
  {
    PairParts(y, d0, d1, q);
    Unmasked(y);
    Unmasked(y / 4);
  }

  lemma {:induction false} PairParts(y: nat, d0: nat, d1: nat, q: nat)
    requires y == d0 + 4 * d1 + 16 * q && d0 <= 2 && d1 <= 2
    ensures y % 4 == d0 && y / 16 == q && y / 4 % 4 == d1 && y / 4 / 16 == q / 4
  {
    var z := d1 + 4 * q;
    Div4(y, z, d0);
    Div4(z, q, d1);
    Div16(y, q, d0 + 4 * d1);
    Div16(z, q / 4, d1 + 4 * (q % 4));
  }

  lemma {:induction false} NibblesUnfold(x: nat)
    ensures InNibbles(x) == OnesOfNibble(x % 16) + 16 * OnesOfNibble(x / 16 % 16) + 256 * InNibbles(x / 256)
  {
    assert InNibbles(x / 16) == OnesOfNibble(x / 16 % 16) + 16 * InNibbles(x / 16 / 16);
    TwoNibbles(x);
  }

  lemma {:induction false} TwoNibbles(x: nat)
    ensures x / 16 / 16 == x / 256 && x % 256 == 16 * (x / 16 % 16) + x % 16
  {
    var h := x / 16;
    Div256(x, h / 16, 16 * (h % 16) + x % 16);
  }

  lemma {:induction false} NibbleBound(n: nat)
    ensures OnesOfNibble(n) <= 4
  {
  }

  lemma {:induction false} NibblesDigit(x: nat)
    ensures InNibbles(x) % 16 <= 4
  {
    NibbleBound(x % 16);
    LowNibble(OnesOfNibble(x % 16), InNibbles(x / 16));
    assert InNibbles(x) == OnesOfNibble(x % 16) + 16 * InNibbles(x / 16);
  }

  lemma {:induction false} LowNibble(o: nat, i: nat)
    requires o <= 4
    ensures (o + 16 * i) % 16 == o
  {
  }

  lemma {:induction false} OnesHalved(n: nat)
    ensures Ones(n) == n % 2 + Ones(n / 2)
  {
  }

  lemma {:induction false} OnesByNibble(n: nat)
    ensures Ones(n) == OnesOfNibble(n % 16) + Ones(n / 16)
  {
    OnesHalved(n);
    OnesHalved(n / 2);
    OnesHalved(n / 4);
    OnesHalved(n / 8);
    NibbleDigits(n);
    assert n / 2 / 2 == n / 4 && n / 4 / 2 == n / 8 && n / 8 / 2 == n / 16;
  }

  lemma {:induction false} ByteDigits(x: nat)
    ensures Ones(x % 256) == OnesOfNibble(x % 16) + OnesOfNibble(x / 16 % 16)
  {
    var high, low := x / 16 % 16, x % 16;
    TwoNibbles(x);
    Div16(x % 256, high, low);
    Div16(high, 0, high);
    OnesByNibble(x % 256);
    OnesByNibble(high);
    assert Ones(0) == 0;
  }

  lemma {:induction false} ThirdStep(x: nat)
    ensures MaskF(InNibbles(x) + InNibbles(x) / 16) == InBytes(x)
  {
    if x > 0 {
      ThirdStep(x / 256);
      NibblesUnfold(x);
      NibblesDigit(x / 256);
      NibbleBound(x % 16);
      NibbleBound(x / 16 % 16);
      ByteDigits(x);
      BytesUnfold(x, OnesOfNibble(x % 16), OnesOfNibble(x / 16 % 16), InNibbles(x), InNibbles(x / 256));
    }
  }

  lemma {:induction false} BytesUnfold(x: nat, n0: nat, n1: nat, y: nat, q: nat)
    requires y == n0 + 16 * n1 + 256 * q && n0 <= 4 && n1 <= 4 && q % 16 <= 4
    requires x > 0 && Ones(x % 256) == n0 + n1 && MaskF(q + q / 16) == InBytes(x / 256)
    ensures MaskF(y + y / 16) == InBytes(x)
  {
    SplitNibbles(y, n0, n1, q);
  }

  lemma {:induction false} SplitNibbles(y: nat, n0: nat, n1: nat, q: nat)
    requires y == n0 + 16 * n1 + 256 * q && n0 <= 4 && n1 <= 4 && q % 16 <= 4
    ensures MaskF(y + y / 16) == n0 + n1 + 256 * MaskF(q + q / 16)
  {
    NibbleParts(y, n0, n1, q);
    Unmasked(y + y / 16);
  }

  lemma {:induction false} NibbleParts(y: nat, n0: nat, n1: nat, q: nat)
    requires y == n0 + 16 * n1 + 256 * q && n0 <= 4 && n1 <= 4 && q % 16 <= 4
    ensures (y + y / 16) % 16 == n0 + n1 && (y + y / 16) / 256 == q + q / 16
  {
    var z := y + (n1 + 16 * q);
    Div16(y, n1 + 16 * q, n0);
    Div16(z, n1 + 16 * q + q, n0 + n1);
    Div256(z, q + q / 16, n0 + n1 + 16 * (n1 + q % 16));
  }

  /** The three steps of the source on one word. */
  function Fold(x: nat): nat {
    var a := if Mask5(x / 2) <= x then x - Mask5(x / 2) else 0;
    var b := Mask3(a) + Mask3(a / 4);
    MaskF(b + b / 16)
  }

  lemma {:induction false} FoldSteps(x: nat, a: nat, b: nat, c: nat)
    requires Mask5(x / 2) <= x && a == x - Mask5(x / 2) && b == Mask3(a) + Mask3(a / 4) && c == MaskF(b + b / 16)
    ensures Fold(x) == c
  {
  }

  lemma {:induction false} FoldIsInBytes(x: nat)
    ensures Fold(x) == InBytes(x)
  {
    FirstStep(x);
    SecondStep(x);
    ThirdStep(x);
    FoldSteps(x, InPairs(x), InNibbles(x), InBytes(x));
  }

  // ------------------------------------------------ no step leaves 32 bits

  const WORD: nat := 0x1_0000_0000

  lemma {:induction false} LastNibble(x: nat) returns (q: nat, r: nat, digit: nat)
    requires x > 0
    ensures x == 16 * q + r && q < x && InNibbles(x) == digit + 16 * InNibbles(q) && digit <= 4
  {
    q, r := Parts(x, 16);
    digit := OnesOfNibble(r);
    NibbleBound(r);
  }

  function Pow16(k: nat): nat {
    if k == 0 then 1 else 16 * Pow16(k - 1)
  }

  /** Every hexadecimal digit is at most 4. */
  lemma {:induction false} NibblesBelow(x: nat, k: nat)
    requires x < Pow16(k)
    ensures 15 * InNibbles(x) <= 4 * (Pow16(k) - 1)
    decreases k
  {
    if x > 0 {
      var q, r, digit := LastNibble(x);
      NibblesBelow(q, k - 1);
    }
  }

  /** On a 32-bit word no subtraction goes below zero and no sum leaves 32 bits,
      so the steps of the source do not wrap. */
  lemma {:induction false} FoldFits(x: nat) returns (a: nat, b: nat)
    requires x < WORD
    ensures Mask5(x / 2) <= x && a == x - Mask5(x / 2) && b == Mask3(a) + Mask3(a / 4)
    ensures a < WORD && b < WORD && b + b / 16 < WORD && Fold(x) == MaskF(b + b / 16) < WORD
  {
    a, b := Halfway(x);
    StepsFit(x, a, b);
  }

  lemma {:induction false} Halfway(x: nat) returns (a: nat, b: nat)
    requires x < WORD
    ensures Mask5(x / 2) <= x && a == x - Mask5(x / 2) && b == Mask3(a) + Mask3(a / 4)
    ensures b < WORD && b + b / 16 < WORD
  {
    FirstStep(x);
    SecondStep(x);
    a, b := InPairs(x), InNibbles(x);
    NibblesFit(x);
  }

  lemma {:induction false} StepsFit(x: nat, a: nat, b: nat)
    requires x < WORD && Mask5(x / 2) <= x && a == x - Mask5(x / 2) && b == Mask3(a) + Mask3(a / 4) && b + b / 16 < WORD
    ensures Fold(x) == MaskF(b + b / 16) < WORD && a < WORD
  {
    MaskBelow(b + b / 16);
    FoldSteps(x, a, b, MaskF(b + b / 16));
  }

  lemma {:induction false} NibblesFit(x: nat)
    requires x < WORD
    ensures var b := InNibbles(x); b < WORD && b + b / 16 < WORD
  {
    WordPower();
    NibblesBelow(x, 8);
    SumFits(InNibbles(x));
  }

  lemma {:induction false} WordPower()
    ensures Pow16(8) == WORD
  {
    assert Pow16(4) == 0x1_0000;
  }

  lemma {:induction false} SumFits(b: nat)
    requires 15 * b <= 4 * (WORD - 1)
    ensures b < WORD && b + b / 16 < WORD
  {
  }

  lemma {:induction false} MaskBelow(z: nat)
    ensures MaskF(z) <= z
  {
    if z > 0 {
      MaskBelow(z / 256);
      MaskStep(z, MaskF(z / 256));
    }
  }

  lemma {:induction false} MaskStep(z: nat, m: nat)
    requires m <= z / 256
    ensures z % 16 + 256 * m <= z
  {
    Div256(z, z / 256, z % 256);
    Div16(z, z / 16, z % 16);
    TwoNibbles(z);
  }

  function Word(b0: Byte, b1: Byte, b2: Byte, b3: Byte): nat {
    b0 + 0x100 * b1 + 0x1_0000 * b2 + 0x100_0000 * b3
  }

  lemma {:induction false} InBytesOfWord(b0: Byte, b1: Byte, b2: Byte, b3: Byte)
    ensures InBytes(Word(b0, b1, b2, b3)) == Ones(b0) + 0x100 * Ones(b1) + 0x1_0000 * Ones(b2) + 0x100_0000 * Ones(b3)
  {
    var rest := b1 + 0x100 * b2 + 0x1_0000 * b3;
    InBytesOfThree(b1, b2, b3);
    InBytesJoin(b0, rest, Word(b0, b1, b2, b3), Ones(b1) + 0x100 * Ones(b2) + 0x1_0000 * Ones(b3));
  }

  lemma {:induction false} InBytesJoin(b: Byte, rest: nat, x: nat, lanes: nat)
    requires x == b + 0x100 * rest && InBytes(rest) == lanes
    ensures InBytes(x) == Ones(b) + 0x100 * lanes
  {
    InBytesStep(b, rest);
  }

  lemma {:induction false} InBytesOfThree(b1: Byte, b2: Byte, b3: Byte)
    ensures InBytes(b1 + 0x100 * b2 + 0x1_0000 * b3) == Ones(b1) + 0x100 * Ones(b2) + 0x1_0000 * Ones(b3)
  {
    InBytesOfTwo(b2, b3);
    InBytesJoin(b1, b2 + 0x100 * b3, b1 + 0x100 * b2 + 0x1_0000 * b3, Ones(b2) + 0x100 * Ones(b3));
  }

  lemma {:induction false} InBytesOfTwo(b2: Byte, b3: Byte)
    ensures InBytes(b2 + 0x100 * b3) == Ones(b2) + 0x100 * Ones(b3)
  {
    InBytesStep(b3, 0);
    InBytesStep(b2, b3);
  }

  lemma {:induction false} InBytesStep(b: Byte, rest: nat)
    ensures InBytes(b + 0x100 * rest) == Ones(b) + 0x100 * InBytes(rest)
  {
    var x := b + 0x100 * rest;
    assert x % 256 == b && x / 256 == rest;
  }

  // ------------------------------------------------------------ the method

  lemma {:induction false} OnesBelow(n: nat, k: nat, limit: nat)
    requires n < limit && Pow2(k) == limit
    ensures Ones(n) <= k
    decreases k
  {
    if n > 0 {
      assert k > 0;
      OnesBelow(n / 2, k - 1, Pow2(k - 1));
    }
  }

  lemma {:induction false} OnesBound(b: nat)
    requires b < 256
    ensures Ones(b) <= 8
  {
    Pow2Byte();
    OnesBelow(b, 8, 256);
  }

  /** The multiplication that adds up the four bytes of a word, in 32 bits. */
  lemma {:induction false} Gathered(a0: nat, a1: nat, a2: nat, a3: nat)
    requires a0 <= 56 && a1 <= 56 && a2 <= 56 && a3 <= 56
    ensures (a0 + 0x100 * a1 + 0x1_0000 * a2 + 0x100_0000 * a3) * 0x0101_0101 % 0x1_0000_0000 / 0x100_0000
            == a0 + a1 + a2 + a3
  {
    var low := a0 + 0x100 * (a0 + a1) + 0x1_0000 * (a0 + a1 + a2);
    var high := (a1 + a2 + a3) + 0x100 * (a2 + a3) + 0x1_0000 * a3;
    Product(a0, a1, a2, a3, low, high);
    MiddleByte(high, a0 + a1 + a2 + a3, low);
  }

  lemma {:induction false} Product(a0: nat, a1: nat, a2: nat, a3: nat, low: nat, high: nat)
    requires low == a0 + 0x100 * (a0 + a1) + 0x1_0000 * (a0 + a1 + a2)
    requires high == (a1 + a2 + a3) + 0x100 * (a2 + a3) + 0x1_0000 * a3
    ensures (a0 + 0x100 * a1 + 0x1_0000 * a2 + 0x100_0000 * a3) * 0x0101_0101
            == 0x1_0000_0000 * high + 0x100_0000 * (a0 + a1 + a2 + a3) + low
  {
  }

  lemma {:induction false} LowWord(x: nat, high: nat, rest: nat)
    requires x == 0x1_0000_0000 * high + rest && rest < 0x1_0000_0000
    ensures x % 0x1_0000_0000 == rest
  {
  }

  lemma {:induction false} TopByte(x: nat, middle: nat, low: nat)
    requires x == 0x100_0000 * middle + low && low < 0x100_0000
    ensures x / 0x100_0000 == middle
  {
  }

  lemma {:induction false} MiddleByte(high: nat, middle: nat, low: nat)
    requires middle < 0x100 && low < 0x100_0000
    ensures (0x1_0000_0000 * high + 0x100_0000 * middle + low) % 0x1_0000_0000 / 0x100_0000 == middle
  {
    var rest := 0x100_0000 * middle + low;
    LowWord(0x1_0000_0000 * high + rest, high, rest);
    TopByte(rest, middle, low);
  }

  /** The seven folded words of a block, added up. */
  function Block(s: seq<Byte>, p: nat, words: nat): nat
    requires p + 4 * words <= |s|
  {
    if words == 0 then 0
    else
      var q := p + 4 * (words - 1);
      Block(s, p, words - 1) + Fold(Word(s[q], s[q + 1], s[q + 2], s[q + 3]))
  }

  /** The ones in the bytes k, k + 4, k + 8, ... of a block. */
  function Lane(s: seq<Byte>, p: nat, words: nat, k: nat): nat
    requires p + 4 * words <= |s| && k < 4
  {
    if words == 0 then 0 else Lane(s, p, words - 1, k) + Ones(s[p + 4 * (words - 1) + k])
  }

  lemma {:induction false} LaneBound(s: seq<Byte>, p: nat, words: nat, k: nat)
    requires p + 4 * words <= |s| && k < 4
    ensures Lane(s, p, words, k) <= 8 * words
    decreases words
  {
    if words > 0 {
      LaneBound(s, p, words - 1, k);
      OnesBound(s[p + 4 * (words - 1) + k]);
    }
  }

  /** The bytes of the sum hold the four lanes. */
  lemma {:induction false} BlockLanes(s: seq<Byte>, p: nat, words: nat)
    requires p + 4 * words <= |s|
    ensures Block(s, p, words)
            == Lane(s, p, words, 0) + 0x100 * Lane(s, p, words, 1) + 0x1_0000 * Lane(s, p, words, 2)
              + 0x100_0000 * Lane(s, p, words, 3)
    decreases words
  {
    if words > 0 {
      BlockLanes(s, p, words - 1);
      var q := p + 4 * (words - 1);
      WordLanes(s[q], s[q + 1], s[q + 2], s[q + 3]);
    }
  }

  lemma {:induction false} LanesTotal(s: seq<Byte>, p: nat, words: nat)
    requires p + 4 * words <= |s|
    ensures Lane(s, p, words, 0) + Lane(s, p, words, 1) + Lane(s, p, words, 2) + Lane(s, p, words, 3)
            == Total(s, p, p + 4 * words)
    decreases words
  {
    if words > 0 {
      LanesTotal(s, p, words - 1);
      FourMore(s, p, p + 4 * (words - 1));
    }
  }

  lemma {:induction false} WordLanes(b0: Byte, b1: Byte, b2: Byte, b3: Byte)
    ensures Fold(Word(b0, b1, b2, b3)) == Ones(b0) + 0x100 * Ones(b1) + 0x1_0000 * Ones(b2) + 0x100_0000 * Ones(b3)
    ensures Ones(b0) <= 8 && Ones(b1) <= 8 && Ones(b2) <= 8 && Ones(b3) <= 8
  {
    FoldIsInBytes(Word(b0, b1, b2, b3));
    InBytesOfWord(b0, b1, b2, b3);
    OnesBound(b0);
    OnesBound(b1);
    OnesBound(b2);
    OnesBound(b3);
  }

  lemma {:induction false} FourMore(s: seq<Byte>, p: nat, q: nat)
    requires p <= q && q + 4 <= |s|
    ensures Total(s, p, q + 4) == Total(s, p, q) + Ones(s[q]) + Ones(s[q + 1]) + Ones(s[q + 2]) + Ones(s[q + 3])
  {
    OneMore(s, p, q);
    OneMore(s, p, q + 1);
    OneMore(s, p, q + 2);
    OneMore(s, p, q + 3);
  }

  lemma {:induction false} OneMore(s: seq<Byte>, p: nat, q: nat)
    requires p <= q < |s|
    ensures Total(s, p, q + 1) == Total(s, p, q) + Ones(s[q])
  {
  }

  /** Neither does the sum of the seven words leave 32 bits. */
  lemma {:induction false} BlockFits(s: seq<Byte>, p: nat, words: nat)
    requires p + 4 * words <= |s| && words <= 7
    ensures Block(s, p, words) < WORD
  {
    BlockLanes(s, p, words);
    LaneBound(s, p, words, 0);
    LaneBound(s, p, words, 1);
    LaneBound(s, p, words, 2);
    LaneBound(s, p, words, 3);
  }

  /** What one round of the loop adds. */
  function CountBlock(s: seq<Byte>, p: nat, words: nat): nat
    requires p + 4 * words <= |s|
  {
    Block(s, p, words) * 0x0101_0101 % 0x1_0000_0000 / 0x100_0000
  }

  lemma {:induction false} BlockCount(s: seq<Byte>, p: nat, words: nat)
    requires p + 4 * words <= |s| && words <= 7
    ensures CountBlock(s, p, words) == Total(s, p, p + 4 * words)
  {
    BlockLanes(s, p, words);
    LanesTotal(s, p, words);
    LaneBound(s, p, words, 0);
    LaneBound(s, p, words, 1);
    LaneBound(s, p, words, 2);
    LaneBound(s, p, words, 3);
    Gathered(Lane(s, p, words, 0), Lane(s, p, words, 1), Lane(s, p, words, 2), Lane(s, p, words, 3));
  }

  // --------------------------------------------- bit by bit, the plain count

  /** How many of the first n bits of the string are one. */
  function CountSet(s: seq<Byte>, n: nat): nat {
    if n == 0 then 0 else CountSet(s, n - 1) + if BitAt(s, n - 1) then 1 else 0
  }

  /** The bits k, k + 1, ..., n - 1 of a number. */
  function BitsFrom(z: nat, k: nat, n: nat): nat
    requires k <= n
    decreases n - k
  {
    if k == n then 0 else Bit(z, k) + BitsFrom(z, k + 1, n)
  }

  lemma {:induction false} BitsFromHalf(z: nat, k: nat, n: nat)
    requires 1 <= k <= n
    ensures BitsFrom(z, k, n) == BitsFrom(z / 2, k - 1, n - 1)
    decreases n - k
  {
    if k < n {
      BitStep(z, k);
      BitsFromHalf(z, k + 1, n);
    }
  }

  lemma {:induction false} BitsAreOnes(z: nat, n: nat)
    requires z < Pow2(n)
    ensures BitsFrom(z, 0, n) == Ones(z)
    decreases n
  {
    if n > 0 {
      BitsFromHalf(z, 1, n);
      OnesHalved(z);
      Halves(z, Pow2(n - 1));
      BitsAreOnes(z / 2, n - 1);
    }
  }

  lemma {:induction false} CountInByte(s: seq<Byte>, c: nat, j: nat)
    requires c < |s| && j <= 8
    ensures CountSet(s, 8 * c + j) == CountSet(s, 8 * c) + BitsFrom(s[c], 8 - j, 8)
    decreases j
  {
    if j > 0 {
      CountInByte(s, c, j - 1);
      var i := 8 * c + j - 1;
      assert i / 8 == c && 7 - i % 8 == 8 - j;
      BitRange(s[c], 8 - j);
    }
  }

  /** Adding up bytes counts the bits. */
  lemma {:induction false} TotalIsCount(s: seq<Byte>, c: nat)
    requires c <= |s|
    ensures Total(s, 0, c) == CountSet(s, 8 * c)
    decreases c
  {
    if c > 0 {
      TotalIsCount(s, c - 1);
      ByteCounts(s, c - 1, 8 * (c - 1));
    }
  }

  lemma {:induction false} ByteCounts(s: seq<Byte>, c: nat, n: nat)
    requires c < |s| && n == 8 * c
    ensures CountSet(s, n + 8) == CountSet(s, n) + Ones(s[c])
  {
    CountInByte(s, c, 8);
    Pow2Byte();
    BitsAreOnes(s[c], 8);
  }

  /** redisPopcount: for every string and every number of bytes before the first
      aligned one, the result is the number of one bits. */
  method RedisPopcount(s: seq<Byte>, unaligned: nat) returns (bits: nat)
    requires unaligned < 4
    ensures bits == CountSet(s, 8 * |s|)
  {
    TotalIsCount(s, |s|);
    var start := if unaligned < |s| then unaligned else |s|;
    var head := CountBytes(s, 0, start);
    var blocks, p := CountBlocks(s, start);
    var tail := CountBytes(s, p, |s|);
    bits := head + blocks + tail;
    TotalSplit(s, 0, start, p);
    TotalSplit(s, 0, p, |s|);
  }

  /** Byte by byte. */
  method CountBytes(s: seq<Byte>, start: nat, end: nat) returns (bits: nat)
    requires start <= end <= |s|
    ensures bits == Total(s, start, end)
  {
    bits := 0;
    for p := start to end
      invariant bits == Total(s, start, p)
    {
      OneMore(s, start, p);
      bits := bits + Ones(s[p]);
    }
  }

  /** As long as 28 bytes are left. */
  method CountBlocks(s: seq<Byte>, start: nat) returns (bits: nat, p: nat)
    requires start <= |s|
    ensures start <= p <= |s| && |s| - p < 28 && bits == Total(s, start, p)
  {
    bits, p := 0, start;
    while |s| - p >= 28
      invariant start <= p <= |s| && bits == Total(s, start, p)
    {
      TotalSplit(s, start, p, p + 28);
      var n := CountWords(s, p, 7);
      bits := bits + n;
      p := p + 28;
    }
  }

  method CountWords(s: seq<Byte>, p: nat, words: nat) returns (bits: nat)
    requires p + 4 * words <= |s| && words <= 7
    ensures bits == Total(s, p, p + 4 * words)
  {
    BlockCount(s, p, words);
    bits := CountBlock(s, p, words);
  }
}
