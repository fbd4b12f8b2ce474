/** BITOP (bitops.c): AND, OR, XOR and NOT of strings, four words at a time as
    long as all strings have data, and byte by byte on the zero-padded strings
    after that. */
module BitOp {
  import opened Bits

  datatype Operation = And | Or | Xor | Not

  /** The operation on one bit of each of two numbers. */
  function OnBits(op: Operation, x: nat, y: nat): nat
    requires x <= 1 && y <= 1
  {
    match op
    case And => x * y
    case Or => if x == 1 || y == 1 then 1 else 0
    case Xor => if x == y then 0 else 1
    case Not => 1 - x
  }

  /** The operation on two n-bit numbers (NOT is of the first). */
  function Combine(op: Operation, x: nat, y: nat, n: nat): nat {
    if n == 0 then 0 else OnBits(op, x % 2, y % 2) + 2 * Combine(op, x / 2, y / 2, n - 1)
  }

  lemma {:induction false} CombineBits(op: Operation, x: nat, y: nat, n: nat, k: nat)
    requires k < n
    ensures Bit(x, k) <= 1 && Bit(y, k) <= 1 && Bit(Combine(op, x, y, n), k) == OnBits(op, Bit(x, k), Bit(y, k))
    decreases n
  {
    BitRange(x, k);
    BitRange(y, k);
    if k > 0 {
      CombineBits(op, x / 2, y / 2, n - 1, k - 1);
    }
  }

  lemma {:induction false} CombineRange(op: Operation, x: nat, y: nat, n: nat)
    ensures Combine(op, x, y, n) < Pow2(n)
  {
    if n > 0 {
      CombineRange(op, x / 2, y / 2, n - 1);
    }
  }

  /** Shifting left by m bits. */
  function Shift(a: nat, m: nat): nat {
    if m == 0 then a else 2 * Shift(a, m - 1)
  }

  lemma {:induction false} ShiftMultiplies(a: nat, m: nat)
    ensures Shift(a, m) == Pow2(m) * a
  {
    if m > 0 {
      ShiftMultiplies(a, m - 1);
      Twice(Pow2(m - 1), a);
    }
  }

  lemma {:induction false} Twice(p: nat, u: nat)
    ensures 2 * p * u == 2 * (p * u)
  {
  }

  /** Words of several parts are combined part by part. */
  lemma {:induction false} CombineParts(op: Operation, a: nat, b: nat, c: nat, d: nat, m: nat, n: nat)
    requires b < Pow2(m) && d < Pow2(m)
    ensures Combine(op, Shift(a, m) + b, Shift(c, m) + d, m + n)
            == Shift(Combine(op, a, c, n), m) + Combine(op, b, d, m)
    decreases m
  {
    if m > 0 {
      CombineParts(op, a, b / 2, c, d / 2, m - 1, n);
      HalfSum(Shift(a, m - 1), b);
      HalfSum(Shift(c, m - 1), d);
    }
  }

  lemma {:induction false} HalfSum(s: nat, b: nat)
    ensures (2 * s + b) / 2 == s + b / 2 && (2 * s + b) % 2 == b % 2
  {
  }

  function OnBytes(op: Operation, x: Byte, y: Byte): (r: Byte)
    ensures r == Combine(op, x, y, 8)
  {
    Pow2Byte();
    CombineRange(op, x, y, 8);
    Combine(op, x, y, 8)
  }

  // ------------------------------------------------------------------ words

  function Bytewise(op: Operation, x: seq<Byte>, y: seq<Byte>): seq<Byte>
    requires |x| == |y|
  {
    seq(|x|, i requires 0 <= i < |x| => OnBytes(op, x[i], y[i]))
  }

  /** The operation on words is the operation on their bytes, in whatever order
      a word holds them. */
  lemma {:induction false} WordIsBytewise(op: Operation, x: seq<Byte>, y: seq<Byte>, bits: nat)
    requires |x| == |y| && bits == 8 * |x|
    ensures Combine(op, Number(x), Number(y), bits) == Number(Bytewise(op, x, y))
    decreases |x|
  {
    if x != [] {
      var n, z := |x| - 1, Bytewise(op, x, y);
      WordIsBytewise(op, x[..n], y[..n], bits - 8);
      assert z[..n] == Bytewise(op, x[..n], y[..n]);
      OneByteMore(op, Number(x[..n]), x[n], Number(y[..n]), y[n], Number(x), Number(y), bits);
    }
  }

  lemma {:induction false} OneByteMore(op: Operation, a: nat, b: Byte, c: nat, d: Byte, x: nat, y: nat, bits: nat)
    requires bits >= 8 && x == 256 * a + b && y == 256 * c + d
    ensures Combine(op, x, y, bits) == 256 * Combine(op, a, c, bits - 8) + OnBytes(op, b, d)
  {
    Pow2Byte();
    LowPart(op, a, b, c, d, x, y, 8, bits);
  }

  lemma {:induction false} LowPart(op: Operation, a: nat, b: nat, c: nat, d: nat, x: nat, y: nat, m: nat, bits: nat)
    requires m <= bits && b < Pow2(m) && d < Pow2(m) && x == Pow2(m) * a + b && y == Pow2(m) * c + d
    ensures Combine(op, x, y, bits) == Pow2(m) * Combine(op, a, c, bits - m) + Combine(op, b, d, m)
  {
    ShiftMultiplies(a, m);
    ShiftMultiplies(c, m);
    ShiftMultiplies(Combine(op, a, c, bits - m), m);
    CombineParts(op, a, b, c, d, m, bits - m);
  }

  /** The bytes of a word are determined by it. */
  function Bytes(w: nat, n: nat): (z: seq<Byte>)
    ensures |z| == n
  {
    if n == 0 then [] else Bytes(w / 256, n - 1) + [w % 256]
  }

  lemma {:induction false} BytesOfWord(z: seq<Byte>)
    ensures Bytes(Number(z), |z|) == z
  {
    if z != [] {
      var n := |z| - 1;
      BytesOfWord(z[..n]);
      LastByte(Number(z[..n]), z[n]);
      assert z == z[..n] + [z[n]];
    }
  }

  lemma {:induction false} LastByte(a: nat, b: Byte)
    ensures (256 * a + b) / 256 == a && (256 * a + b) % 256 == b
  {
  }

  /** One 64-bit operation on eight bytes of two strings. */
  method OnWords(op: Operation, x: seq<Byte>, y: seq<Byte>) returns (z: seq<Byte>)
    requires |x| == |y| == 8
    ensures z == Bytewise(op, x, y)
  {
    var w := Combine(op, Number(x), Number(y), 64);
    z := Bytes(w, 8);
    WordIsBytewise(op, x, y, 64);
    BytesOfWord(Bytewise(op, x, y));
  }

  // --------------------------------------------------------------- strings

  function ByteOrZero(s: seq<Byte>, j: nat): Byte {
    if j < |s| then s[j] else 0
  }

  /** Byte j of the result: the operation over the zero-padded strings in order. */
  function Folded(op: Operation, src: seq<seq<Byte>>, j: nat, n: nat): Byte
    requires 1 <= n <= |src|
  {
    if n == 1 then (if op == Not then OnBytes(Not, ByteOrZero(src[0], j), 0) else ByteOrZero(src[0], j))
    else OnBytes(op, Folded(op, src, j, n - 1), ByteOrZero(src[n - 1], j))
  }

  function Longest(src: seq<seq<Byte>>): nat {
    if src == [] then 0
    else
      var rest, last := Longest(src[..|src| - 1]), |src[|src| - 1]|;
      if last > rest then last else rest
  }

  lemma {:induction false} LongestCovers(src: seq<seq<Byte>>, i: nat)
    requires i < |src|
    ensures |src[i]| <= Longest(src)
  {
    if i < |src| - 1 {
      LongestCovers(src[..|src| - 1], i);
    }
  }

  /** The lengths of the longest and the shortest string, as the lookup loop finds them. */
  method Lengths(src: seq<seq<Byte>>) returns (maxlen: nat, minlen: nat)
    requires src != []
    ensures maxlen == Longest(src) && (forall i | 0 <= i < |src| :: minlen <= |src[i]|)
  {
    maxlen, minlen := 0, 0;
    for j := 0 to |src|
      invariant maxlen == Longest(src[..j]) && (forall i | 0 <= i < j :: minlen <= |src[i]|)
    {
      assert src[..j + 1][..j] == src[..j];
      if |src[j]| > maxlen {
        maxlen := |src[j]|;
      }
      if j == 0 || |src[j]| < minlen {
        minlen := |src[j]|;
      }
    }
    assert src[..|src|] == src;
  }

  /** One block of 32 bytes at j, all strings being longer: word by word. */
  method FastBlock(op: Operation, src: seq<seq<Byte>>, j: nat) returns (block: seq<Byte>)
    requires src != [] && (op == Not ==> |src| == 1) && (forall i | 0 <= i < |src| :: j + 32 <= |src[i]|)
    ensures |block| == 32 && forall k | 0 <= k < 32 :: block[k] == Folded(op, src, j + k, |src|)
  {
    block := [];
    for w := 0 to 4
      invariant |block| == 8 * w && forall k | 0 <= k < 8 * w :: block[k] == Folded(op, src, j + k, |src|)
    {
      var word := FastWord(op, src, j + 8 * w);
      block := block + word;
    }
  }

  method FastWord(op: Operation, src: seq<seq<Byte>>, at: nat) returns (word: seq<Byte>)
    requires src != [] && (op == Not ==> |src| == 1) && (forall i | 0 <= i < |src| :: at + 8 <= |src[i]|)
    ensures |word| == 8 && forall k | 0 <= k < 8 :: word[k] == Folded(op, src, at + k, |src|)
  {
    word := src[0][at..at + 8];
    if op == Not {
      word := OnWords(Not, word, [0, 0, 0, 0, 0, 0, 0, 0]);
      return;
    }
    for i := 1 to |src|
      invariant |word| == 8 && forall k | 0 <= k < 8 :: word[k] == Folded(op, src, at + k, i)
    {
      word := OnWords(op, word, src[i][at..at + 8]);
    }
  }

  /** One byte of the slow path. */
  method SlowByte(op: Operation, src: seq<seq<Byte>>, j: nat) returns (output: Byte)
    requires src != []
    ensures output == Folded(op, src, j, |src|)
  {
    output := if |src[0]| <= j then 0 else src[0][j];
    if op == Not {
      output := OnBytes(Not, output, 0);
    }
    for i := 1 to |src|
      invariant output == Folded(op, src, j, i)
    {
      var byte: Byte := if |src[i]| <= j then 0 else src[i][j];
      output := OnBytes(op, output, byte);
    }
  }

  /** BITOP: the result has the length of the longest string, and every byte is
      the operation over the zero-padded strings, whichever path computed it. */
  method Compute(op: Operation, src: seq<seq<Byte>>) returns (res: seq<Byte>)
    requires src != [] && (op == Not ==> |src| == 1)
    ensures |res| == Longest(src) && forall j | 0 <= j < |res| :: res[j] == Folded(op, src, j, |src|)
  {
    var maxlen, minlen := Lengths(src);
    res := [];
    LongestCovers(src, 0);
    if minlen >= 32 && |src| <= 16 {
      while minlen - |res| >= 32
        invariant |res| <= minlen <= maxlen
        invariant forall j | 0 <= j < |res| :: res[j] == Folded(op, src, j, |src|)
        decreases minlen - |res|
      {
        var block := FastBlock(op, src, |res|);
        res := res + block;
      }
    }
    while |res| < maxlen
      invariant |res| <= maxlen
      invariant forall j | 0 <= j < |res| :: res[j] == Folded(op, src, j, |src|)
    {
      var output := SlowByte(op, src, |res|);
      res := res + [output];
    }
  }
}
