/** BITFIELD (bitops.c): integers of 1 to 63 bits at any bit offset of a string,
    and arithmetic that wraps, saturates or fails. The machine integers of the
    source are written out as integers modulo 2^64. */
module Bitfield {
  import opened Collections
  import opened Bits

  const TWO64: int := 0x1_0000_0000_0000_0000
  const TWO63: int := 0x8000_0000_0000_0000

  lemma {:induction false} Pow2Values()
    ensures Pow2(62) == 0x4000_0000_0000_0000 && Pow2(63) == TWO63 && Pow2(64) == TWO64
  {
    assert Pow2(16) == 0x1_0000;
    Pow2Sum(16, 16);
    Pow2Sum(32, 30);
    assert Pow2(30) == 0x4000_0000 by {
      Pow2Sum(16, 14);
      assert Pow2(14) == 0x4000;
    }
  }

  lemma {:induction false} Pow2Sum(a: nat, b: nat)
    ensures Pow2(a + b) == Pow2(a) * Pow2(b)
  {
    if b > 0 {
      Pow2Sum(a, b - 1);
      assert Pow2(a + b) == 2 * (Pow2(a) * Pow2(b - 1));
    }
  }

  // ------------------------------------------------- reading and writing

  /** The w bits at `off`, most significant first. */
  function Read(s: seq<Byte>, off: nat, w: nat): (r: nat)
    ensures r < Pow2(w)
  {
    if w == 0 then 0 else 2 * Read(s, off, w - 1) + if BitAt(s, off + w - 1) then 1 else 0
  }

  /** Bit k of a number. */
  predicate HasBit(v: nat, k: nat) {
    v / Pow2(k) % 2 == 1
  }

  /** The string q is p with v written into the w bits at `off`. */
  ghost predicate Written(p: seq<Byte>, q: seq<Byte>, off: nat, w: nat, v: nat) {
    && |q| == |p|
    && forall i: nat {:trigger BitAt(q, i)} ::
         BitAt(q, i) == if off <= i < off + w then HasBit(v, off + w - 1 - i) else BitAt(p, i)
  }

  /** setUnsignedBitfield. */
  method SetUnsignedBitfield(p: array<Byte>, offset: nat, bits: nat, value: nat)
    requires offset + bits <= 8 * p.Length
    modifies p
    ensures Written(old(p[..]), p[..], offset, bits, value)
  {
    ghost var was := p[..];
    for j := 0 to bits
      invariant forall i: nat {:trigger BitAt(p[..], i)} ::
          BitAt(p[..], i) == if offset <= i < offset + j then HasBit(value, offset + bits - 1 - i) else BitAt(was, i)
    {
      var bitval := value / Pow2(bits - 1 - j) % 2 == 1;
      var at := offset + j;
      var byte, bit := at / 8, 7 - at % 8;
      ghost var before := p[..];
      p[byte] := SetByteBit(p[byte], bit, bitval);
      assert p[..] == before[byte := SetByteBit(before[byte], bit, bitval)];
      forall i: nat ensures BitAt(p[..], i) == if i == at then bitval else BitAt(before, i) {
        SetBitAt(before, at, bitval, i);
      }
    }
  }

  /** getUnsignedBitfield. */
  method GetUnsignedBitfield(p: array<Byte>, offset: nat, bits: nat) returns (value: nat)
    requires offset + bits <= 8 * p.Length
    ensures value == Read(p[..], offset, bits)
  {
    value := 0;
    for j := 0 to bits
      invariant value == Read(p[..], offset, j)
    {
      var at := offset + j;
      var bitval := Bit(p[at / 8], 7 - at % 8) == 1;
      value := value * 2 + if bitval then 1 else 0;
    }
  }

  /** Two's complement: a w-bit pattern as a signed number. */
  function Signed(u: nat, w: nat): int
    requires w >= 1
  {
    if u >= Pow2(w - 1) then u - Pow2(w) else u
  }

  /** getSignedBitfield. */
  method GetSignedBitfield(p: array<Byte>, offset: nat, bits: nat) returns (value: int)
    requires offset + bits <= 8 * p.Length && 1 <= bits <= 63
    ensures value == Signed(Read(p[..], offset, bits), bits)
  {
    var u := GetUnsignedBitfield(p, offset, bits);
    value := u;
    if u / Pow2(bits - 1) % 2 == 1 {
      value := u - Pow2(bits);
    }
    TopBit(u, bits);
  }

  // --------------------------------------------------------- division facts

  lemma {:induction false} Multiple(k: int, d: int)
    requires d > 0
    ensures k >= 1 ==> k * d >= d
    ensures k <= -1 ==> k * d <= -d
  {
    assert k * d == (k - 1) * d + d == (k + 1) * d - d;
    assert k >= 1 ==> (k - 1) * d >= 0;
    assert k <= -1 ==> (k + 1) * d <= 0;
  }

  lemma {:induction false} DivUnique(x: int, d: int, q: int, r: int)
    requires d > 0 && x == q * d + r && 0 <= r < d
    ensures x / d == q && x % d == r
  {
    var q2, r2 := x / d, x % d;
    assert x == q2 * d + r2;
    assert (q - q2) * d == q * d - q2 * d;
    Multiple(q - q2, d);
  }

  lemma {:induction false} TopBit(u: nat, w: nat)
    requires 1 <= w && u < Pow2(w)
    ensures u / Pow2(w - 1) % 2 == 1 <==> u >= Pow2(w - 1)
  {
    var p := Pow2(w - 1);
    if u >= p {
      DivUnique(u, p, 1, u - p);
    } else {
      DivUnique(u, p, 0, u);
    }
  }

  lemma {:induction false} HalveTwice(v: nat, p: nat)
    requires p >= 1
    ensures v / (2 * p) == v / p / 2
  {
    var q, r := v / p, v % p;
    var a, b := q / 2, q % 2;
    assert v == q * p + r;
    assert q * p == a * (2 * p) + b * p;
    assert b * p + r < 2 * p;
    DivUnique(v, 2 * p, a, b * p + r);
  }

  lemma {:induction false} ModDouble(x: nat, p: nat)
    requires p >= 1
    ensures 2 * (x / 2 % p) + x % 2 == x % (2 * p)
  {
    var h := x / 2;
    var a, b := h / p, h % p;
    assert h == a * p + b;
    assert x == a * (2 * p) + (2 * b + x % 2);
    DivUnique(x, 2 * p, a, 2 * b + x % 2);
  }

  // ------------------------------------------------------ set, then get

  lemma {:induction false} WrittenRead(p: seq<Byte>, q: seq<Byte>, off: nat, w: nat, v: nat, j: nat)
    requires Written(p, q, off, w, v) && j <= w
    ensures Read(q, off, j) == v / Pow2(w - j) % Pow2(j)
    decreases j
  {
    if j > 0 {
      WrittenRead(p, q, off, w, v, j - 1);
      assert BitAt(q, off + j - 1) == HasBit(v, w - j);
      OneMoreBit(v, Pow2(w - j), Pow2(j - 1), Read(q, off, j - 1));
    }
  }

  lemma {:induction false} OneMoreBit(v: nat, p: nat, m: nat, r: nat)
    requires p >= 1 && m >= 1 && r == v / (2 * p) % m
    ensures 2 * r + v / p % 2 == v / p % (2 * m)
  {
    HalveTwice(v, p);
    ModDouble(v / p, m);
  }

  /** What was set is read back modulo 2^w. */
  lemma {:induction false} SetThenGet(p: seq<Byte>, q: seq<Byte>, off: nat, w: nat, v: nat)
    requires Written(p, q, off, w, v)
    ensures Read(q, off, w) == v % Pow2(w)
  {
    WrittenRead(p, q, off, w, v, w);
  }

  /** All other fields read as before. */
  lemma {:induction false} SetLeavesOthers(p: seq<Byte>, q: seq<Byte>, off: nat, w: nat, v: nat, off2: nat, w2: nat)
    requires Written(p, q, off, w, v) && (off2 + w2 <= off || off + w <= off2)
    ensures Read(q, off2, w2) == Read(p, off2, w2)
    decreases w2
  {
    if w2 > 0 {
      SetLeavesOthers(p, q, off, w, v, off2, w2 - 1);
      assert BitAt(q, off2 + w2 - 1) == BitAt(p, off2 + w2 - 1);
    }
  }

  /** setSignedBitfield casts to 64 bits unsigned first; reading back gives the
      number the low w bits stand for. */
  lemma {:induction false} SetThenGetSigned(p: seq<Byte>, q: seq<Byte>, off: nat, w: nat, v: int)
    requires 1 <= w <= 63 && Written(p, q, off, w, v % TWO64)
    ensures Signed(Read(q, off, w), w) == Signed(v % Pow2(w), w)
  {
    SetThenGet(p, q, off, w, v % TWO64);
    ModMod(v, w);
  }

  lemma {:induction false} ModMod(v: int, w: nat)
    requires w <= 64
    ensures v % TWO64 % Pow2(w) == v % Pow2(w)
  {
    Pow2Values();
    Pow2Sum(w, 64 - w);
    ModOfMod(v, Pow2(w), Pow2(64 - w), TWO64);
  }

  lemma {:induction false} ModOfMod(v: int, d: int, e: int, m: int)
    requires d > 0 && e > 0 && m == d * e
    ensures v % m % d == v % d
  {
    var a, r := v / m, v % m;
    var b, t := r / d, r % d;
    assert v == a * m + r;
    assert r == b * d + t;
    assert a * m == (a * e) * d by {
      assert a * m == a * (d * e) == a * (e * d) == (a * e) * d;
    }
    assert (a * e) * d + b * d == (a * e + b) * d;
    DivUnique(v, d, a * e + b, t);
  }

  // ------------------------------------------------------ overflow checks

  datatype Overflow = Wrap | Sat | Fail

  /** Conversion to a signed 64-bit number. */
  function Int64(x: int): int {
    if x % TWO64 >= TWO63 then x % TWO64 - TWO64 else x % TWO64
  }

  predicate IsInt64(x: int) {
    -TWO63 <= x < TWO63
  }

  function Max(sign: bool, w: nat): int
    requires w >= 1
  {
    if sign then Pow2(w - 1) - 1 else Pow2(w) - 1
  }

  function Min(sign: bool, w: nat): int
    requires w >= 1
  {
    if sign then 0 - Pow2(w - 1) else 0
  }

  /** The number of the field that has the same low w bits as x. */
  function Wrapped(sign: bool, w: nat, x: int): int
    requires w >= 1
  {
    if sign then Signed(x % Pow2(w), w) else x % Pow2(w)
  }

  /** checkUnsignedBitfieldOverflow: 0, 1 or -1, and the limit. */
  function CheckUnsigned(value: nat, incr: int, w: nat, ow: Overflow): (int, int)
    requires 1 <= w <= 63
  {
    var max := Max(false, w);
    var maxincr, minincr := Int64(max - value), Int64(0 - value);
    var wrap := (value + incr) % TWO64 % Pow2(w);
    if value > max || (incr > 0 && incr > maxincr) then (1, if ow == Wrap then wrap else max)
    else if incr < 0 && incr < minincr then (if ow == Wrap then (1, wrap) else (-1, 0))
    else (0, 0)
  }

  /** checkSignedBitfieldOverflow for fewer than 64 bits. */
  function CheckSigned(value: int, incr: int, w: nat, ow: Overflow): (int, int)
    requires 1 <= w <= 63
  {
    var max, min := Max(true, w), Min(true, w);
    var maxincr, minincr := Int64(max - value), Int64(min - value);
    var wrap := Signed((value + incr) % TWO64 % Pow2(w), w);
    if value > max || incr > maxincr then (1, if ow == Wrap then wrap else max)
    else if value < min || incr < minincr then (if ow == Wrap then (1, wrap) else (-1, min))
    else (0, 0)
  }

  /** The mathematical meaning: x itself if it fits, and otherwise what the
      overflow mode says. */
  function Target(sign: bool, w: nat, ow: Overflow, x: int): Option<int>
    requires w >= 1
  {
    if Min(sign, w) <= x <= Max(sign, w) then Some(x)
    else match ow
      case Wrap => Some(Wrapped(sign, w, x))
      case Sat => Some(if x > Max(sign, w) then Max(sign, w) else Min(sign, w))
      case Fail => None
  }

  /** The value INCRBY stores and replies, None for a reply of null. */
  function Incremented(sign: bool, w: nat, ow: Overflow, value: int, incr: int): Option<int>
    requires 1 <= w <= 63 && (!sign ==> value >= 0)
  {
    var (code, limit) := if sign then CheckSigned(value, incr, w, ow) else CheckUnsigned(value, incr, w, ow);
    if code == 0 then Some(if sign then Int64(value + incr) else (value + incr) % TWO64)
    else if ow == Fail then None else Some(limit)
  }

  /** The value SET stores; an unsigned one is the argument cast to 64 bits. */
  function Assigned(sign: bool, w: nat, ow: Overflow, arg: int): Option<int>
    requires 1 <= w <= 63
  {
    var x := if sign then arg else arg % TWO64;
    var (code, limit) := if sign then CheckSigned(x, 0, w, ow) else CheckUnsigned(x, 0, w, ow);
    if code == 0 then Some(x) else if ow == Fail then None else Some(limit)
  }

  lemma {:induction false} Int64Same(x: int)
    requires IsInt64(x)
    ensures Int64(x) == x
  {
  }

  lemma {:induction false} WidthBounds(w: nat)
    requires 1 <= w <= 63
    ensures Pow2(w) == 2 * Pow2(w - 1) && Pow2(w) <= TWO63 && Pow2(w - 1) >= 1
  {
    Pow2Grows(w, 63);
    Pow2Values();
  }

  /** INCRBY is exact: for every field value and every 64-bit increment it stores
      the sum, or what the overflow mode makes of it. */
  lemma {:induction false} IncrementIsExact(sign: bool, w: nat, ow: Overflow, value: int, incr: int)
    requires 1 <= w <= 63 && Min(sign, w) <= value <= Max(sign, w) && IsInt64(incr)
    ensures Incremented(sign, w, ow, value, incr) == Target(sign, w, ow, value + incr)
  {
    if sign {
      SignedIncrement(w, ow, value, incr);
    } else {
      UnsignedIncrement(w, ow, value, incr);
    }
  }

  /** The signed check as a comparison of the sum with the limits. */
  lemma {:induction false} SignedCode(w: nat, ow: Overflow, value: int, incr: int)
    requires 1 <= w <= 63 && Min(true, w) <= value <= Max(true, w)
    ensures var sum := value + incr;
            CheckSigned(value, incr, w, ow)
            == if Min(true, w) <= sum <= Max(true, w) then (0, 0)
               else if ow == Wrap then (1, Signed(sum % TWO64 % Pow2(w), w))
               else if sum > Max(true, w) then (1, Max(true, w)) else (-1, Min(true, w))
  {
    WidthBounds(w);
    Int64Same(Max(true, w) - value);
    Int64Same(Min(true, w) - value);
  }

  lemma {:induction false} SignedIncrement(w: nat, ow: Overflow, value: int, incr: int)
    requires 1 <= w <= 63 && Min(true, w) <= value <= Max(true, w)
    ensures Incremented(true, w, ow, value, incr) == Target(true, w, ow, value + incr)
  {
    SignedCode(w, ow, value, incr);
    WidthBounds(w);
    if Min(true, w) <= value + incr <= Max(true, w) {
      Int64Same(value + incr);
    } else {
      ModMod(value + incr, w);
    }
  }

  lemma {:induction false} UnsignedCode(w: nat, ow: Overflow, value: nat, incr: int)
    requires 1 <= w <= 63 && value <= Max(false, w)
    ensures var sum := value + incr;
            CheckUnsigned(value, incr, w, ow)
            == if 0 <= sum <= Max(false, w) then (0, 0)
               else if ow == Wrap then (1, sum % TWO64 % Pow2(w))
               else if sum > Max(false, w) then (1, Max(false, w)) else (-1, 0)
  {
    WidthBounds(w);
    Int64Same(Max(false, w) - value);
    Int64Same(0 - value);
  }

  lemma {:induction false} UnsignedIncrement(w: nat, ow: Overflow, value: nat, incr: int)
    requires 1 <= w <= 63 && value <= Max(false, w)
    ensures Incremented(false, w, ow, value, incr) == Target(false, w, ow, value + incr)
  {
    UnsignedCode(w, ow, value, incr);
    WidthBounds(w);
    if 0 <= value + incr <= Max(false, w) {
      SmallMod(value + incr);
    } else {
      ModMod(value + incr, w);
    }
  }

  lemma {:induction false} SmallMod(x: int)
    requires 0 <= x < TWO64
    ensures x % TWO64 == x
  {
  }

  /** SET of an unsigned field is exact for the argument cast to 64 bits: a
      negative one is a huge number, and saturates to the maximum. */
  lemma {:induction false} UnsignedSetIsExact(w: nat, ow: Overflow, arg: int)
    requires 1 <= w <= 63 && IsInt64(arg)
    ensures Assigned(false, w, ow, arg) == Target(false, w, ow, arg % TWO64)
    ensures arg < 0 && ow == Sat ==> Assigned(false, w, ow, arg) == Some(Max(false, w))
  {
    WidthBounds(w);
    ModMod(arg % TWO64, w);
    assert arg < 0 ==> arg % TWO64 == arg + TWO64;
  }

  /** SET of a signed field is exact unless it saturates an argument so small
      that its distance to the maximum does not fit 64 bits. The source computes
      that distance in a signed integer; it is taken to wrap around. */
  lemma {:induction false} SignedSetIsExact(w: nat, ow: Overflow, arg: int)
    requires 1 <= w <= 63 && IsInt64(arg)
    ensures Assigned(true, w, ow, arg) == Target(true, w, ow, arg) <==> !(ow == Sat && arg <= Max(true, w) - TWO63)
    ensures ow == Sat && arg <= Max(true, w) - TWO63 ==> Assigned(true, w, ow, arg) == Some(Max(true, w))
  {
    WidthBounds(w);
    ModMod(arg, w);
    SetCode(w, ow, arg);
  }

  /** The signed check of SET: with no increment, only the range of the argument
      matters, except that a distance that wraps looks like an overflow. */
  lemma {:induction false} SetCode(w: nat, ow: Overflow, arg: int)
    requires 1 <= w <= 63 && IsInt64(arg)
    ensures CheckSigned(arg, 0, w, ow)
            == if Min(true, w) <= arg <= Max(true, w) then (0, 0)
               else if ow == Wrap then (1, Signed(arg % TWO64 % Pow2(w), w))
               else if arg > Max(true, w) || arg <= Max(true, w) - TWO63 then (1, Max(true, w)) else (-1, Min(true, w))
  {
    WidthBounds(w);
    var maxincr := Int64(Max(true, w) - arg);
    if arg > Max(true, w) - TWO63 && arg <= Max(true, w) {
      Int64Same(Max(true, w) - arg);
    }
    assert arg <= Max(true, w) - TWO63 ==> maxincr < 0;
    if Min(true, w) <= arg <= Max(true, w) {
      Int64Same(Min(true, w) - arg);
    }
  }

  /** The smallest 64-bit number saturates an eight-bit field to 127. */
  lemma {:induction false} SaturatesUpwards()
    ensures Assigned(true, 8, Sat, -TWO63) == Some(127) && Target(true, 8, Sat, -TWO63) == Some(-128)
  {
    SignedSetIsExact(8, Sat, -TWO63);
    assert Pow2(7) == 128;
  }

  // ------------------------------------------------------------ execution

  datatype OpKind = Get | Set | IncrBy

  datatype Op = Op(kind: OpKind, sign: bool, width: nat, offset: nat, arg: int, ow: Overflow)

  predicate Sound(op: Op) {
    1 <= op.width <= 63 && IsInt64(op.arg)
  }

  /** The number in the field of an operation, in the zero-padded string. */
  function Field(s: seq<Byte>, op: Op): int
    requires 1 <= op.width
  {
    if op.sign then Signed(Read(s, op.offset, op.width), op.width) else Read(s, op.offset, op.width)
  }

  lemma {:induction false} FieldInRange(s: seq<Byte>, op: Op)
    requires Sound(op)
    ensures Min(op.sign, op.width) <= Field(s, op) <= Max(op.sign, op.width)
  {
    WidthBounds(op.width);
  }

  lemma {:induction false} TargetInRange(sign: bool, w: nat, ow: Overflow, x: int)
    requires 1 <= w <= 63
    ensures Target(sign, w, ow, x).Some? ==> Min(sign, w) <= Target(sign, w, ow, x).value <= Max(sign, w)
  {
    WidthBounds(w);
  }

  lemma {:induction false} AssignedInRange(sign: bool, w: nat, ow: Overflow, arg: int)
    requires 1 <= w <= 63 && IsInt64(arg)
    ensures Assigned(sign, w, ow, arg).Some? ==> Min(sign, w) <= Assigned(sign, w, ow, arg).value <= Max(sign, w)
  {
    WidthBounds(w);
    if sign {
      SignedSetIsExact(w, ow, arg);
      TargetInRange(true, w, ow, arg);
    } else {
      UnsignedSetIsExact(w, ow, arg);
      TargetInRange(false, w, ow, arg % TWO64);
    }
  }

  /** A number of the field, written and read back. */
  lemma {:induction false} StoreFits(p: seq<Byte>, q: seq<Byte>, op: Op, n: int)
    requires Sound(op) && Min(op.sign, op.width) <= n <= Max(op.sign, op.width)
    requires Written(p, q, op.offset, op.width, n % TWO64)
    ensures Field(q, op) == n
  {
    var w := op.width;
    WidthBounds(w);
    SetThenGet(p, q, op.offset, w, n % TWO64);
    ModMod(n, w);
    if n >= 0 {
      DivUnique(n, Pow2(w), 0, n);
    } else {
      DivUnique(n, Pow2(w), -1, n + Pow2(w));
    }
  }

  /** Nine bytes of the string from `byte` on, zero where it has ended. */
  predicate IsCopy(src: seq<Byte>, buf: seq<Byte>, byte: nat) {
    |buf| == 9 && forall k | 0 <= k < 9 :: buf[k] == if k + byte < |src| then src[k + byte] else 0
  }

  /** The bytes that GET copies to a zeroed buffer. */
  method CopyBytes(src: seq<Byte>, byte: nat) returns (buf: array<Byte>)
    ensures fresh(buf) && IsCopy(src, buf[..], byte)
  {
    buf := new Byte[9](_ => 0);
    var i := 0;
    while i < 9 && i + byte < |src|
      invariant 0 <= i <= 9 && (i > 0 ==> i - 1 + byte < |src|)
      invariant forall k | 0 <= k < 9 :: buf[k] == if k < i then src[k + byte] else 0
      decreases 9 - i
    {
      buf[i] := src[i + byte];
      i := i + 1;
    }
  }

  /** GET reads the copy; the result is that of reading the zero-padded string. */
  method GetField(src: seq<Byte>, op: Op) returns (value: int)
    requires Sound(op)
    ensures value == Field(src, op)
  {
    var byte := op.offset / 8;
    var off := op.offset - byte * 8;
    var buf := CopyBytes(src, byte);
    CopyReads(src, buf[..], byte, off, op.width);
    if op.sign {
      value := GetSignedBitfield(buf, off, op.width);
    } else {
      value := GetUnsignedBitfield(buf, off, op.width);
    }
  }

  lemma {:induction false} CopyReads(src: seq<Byte>, buf: seq<Byte>, byte: nat, off: nat, w: nat)
    requires IsCopy(src, buf, byte) && off + w <= 72
    ensures Read(buf, off, w) == Read(src, byte * 8 + off, w)
    decreases w
  {
    if w > 0 {
      CopyReads(src, buf, byte, off, w - 1);
      CopyBit(src, buf, byte, off + w - 1);
    }
  }

  lemma {:induction false} CopyBit(src: seq<Byte>, buf: seq<Byte>, byte: nat, i: nat)
    requires IsCopy(src, buf, byte) && i < 72
    ensures BitAt(buf, i) == BitAt(src, byte * 8 + i)
  {
    assert (byte * 8 + i) / 8 == byte + i / 8 && (byte * 8 + i) % 8 == i % 8;
    assert buf[i / 8] == if i / 8 + byte < |src| then src[i / 8 + byte] else 0;
    BitOfZero(7 - i % 8);
  }

  /** What an operation is to store, None for nothing. */
  function ToStore(s: seq<Byte>, op: Op): Option<int>
    requires Sound(op)
  {
    match op.kind
    case Get => None
    case Set => Assigned(op.sign, op.width, op.ow, op.arg)
    case IncrBy => Target(op.sign, op.width, op.ow, Field(s, op) + op.arg)
  }

  /** One operation takes the string s to t and replies: GET the field; SET stores
      and replies the old value; INCRBY stores and replies the new one; a failed
      overflow replies null and stores nothing. No other bit changes. */
  ghost predicate Stepped(s: seq<Byte>, t: seq<Byte>, op: Op, reply: Option<int>)
    requires Sound(op)
  {
    && (match ToStore(s, op)
        case None => t == s
        case Some(n) => Field(t, op) == n && Written(s, t, op.offset, op.width, n % TWO64))
    && reply == match op.kind
                case Get => Some(Field(s, op))
                case Set => if ToStore(s, op).Some? then Some(Field(s, op)) else None
                case IncrBy => ToStore(s, op)
  }

  /** One operation of a BITFIELD command. */
  method Execute(p: array<Byte>, op: Op) returns (reply: Option<int>)
    requires Sound(op) && (op.kind != Get ==> op.offset + op.width <= 8 * p.Length)
    modifies p
    ensures Stepped(old(p[..]), p[..], op, reply)
  {
    ghost var was := p[..];
    var before := GetField(p[..], op);
    if op.kind == Get {
      return Some(before);
    }
    var store := None;
    if op.kind == IncrBy {
      FieldInRange(was, op);
      IncrementIsExact(op.sign, op.width, op.ow, before, op.arg);
      TargetInRange(op.sign, op.width, op.ow, before + op.arg);
      store := Incremented(op.sign, op.width, op.ow, before, op.arg);
    } else {
      AssignedInRange(op.sign, op.width, op.ow, op.arg);
      store := Assigned(op.sign, op.width, op.ow, op.arg);
    }
    if store.None? {
      return None;
    }
    SetUnsignedBitfield(p, op.offset, op.width, store.value % TWO64);
    StoreFits(was, p[..], op, store.value);
    reply := Some(if op.kind == IncrBy then store.value else before);
  }

  predicate Fits(op: Op, length: nat) {
    Sound(op) && (op.kind != Get ==> op.offset + op.width <= 8 * length)
  }

  /** The strings between the operations of a command, from first to last. */
  ghost predicate Steps(states: seq<seq<Byte>>, ops: seq<Op>, replies: seq<Option<int>>) {
    && |states| == |ops| + 1 && |replies| == |ops|
    && forall k | 0 <= k < |ops| :: Sound(ops[k]) && Stepped(states[k], states[k + 1], ops[k], replies[k])
  }

  /** A command: the operations in order, each on what the one before left. */
  method ExecuteAll(p: array<Byte>, ops: seq<Op>) returns (replies: seq<Option<int>>, ghost states: seq<seq<Byte>>)
    requires forall i | 0 <= i < |ops| :: Fits(ops[i], p.Length)
    modifies p
    ensures Steps(states, ops, replies) && states[0] == old(p[..]) && states[|ops|] == p[..]
  {
    replies, states := [], [p[..]];
    for k := 0 to |ops|
      invariant Steps(states, ops[..k], replies) && states[0] == old(p[..]) && states[k] == p[..]
    {
      var reply := Execute(p, ops[k]);
      replies, states := replies + [reply], states + [p[..]];
    }
    assert ops[..|ops|] == ops;
  }

  /** No operation that stores there, no change: a bit outside all the fields
      written by a command is what it was. */
  lemma {:induction false} CommandLeavesOthers(states: seq<seq<Byte>>, ops: seq<Op>, replies: seq<Option<int>>, k: nat,
                                               j: nat)
    requires Steps(states, ops, replies) && k <= |ops|
    requires forall i | 0 <= i < |ops| && ops[i].kind != Get :: !(ops[i].offset <= j < ops[i].offset + ops[i].width)
    ensures BitAt(states[k], j) == BitAt(states[0], j)
  {
    if k > 0 {
      CommandLeavesOthers(states, ops, replies, k - 1, j);
      StepLeavesOthers(states[k - 1], states[k], ops[k - 1], replies[k - 1], j);
    }
  }

  lemma {:induction false} StepLeavesOthers(s: seq<Byte>, t: seq<Byte>, op: Op, reply: Option<int>, j: nat)
    requires Sound(op) && Stepped(s, t, op, reply) && (op.kind == Get || !(op.offset <= j < op.offset + op.width))
    ensures BitAt(t, j) == BitAt(s, j)
  {
  }
}
