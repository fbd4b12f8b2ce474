/** Finding the first one or zero bit a word at a time (redisBitpos in bitops.c). */
module BitScan {
  import opened Bits

  /** r is the position of the first bit equal to `bit` in the zero-padded
      string, or -1 if there is none. */
  ghost predicate IsFirst(s: seq<Byte>, bit: bool, r: int) {
    if r < 0 then r == -1 && forall i: nat {:trigger BitAt(s, i)} :: BitAt(s, i) != bit
    else BitAt(s, r) == bit && forall i: nat {:trigger BitAt(s, i)} :: i < r ==> BitAt(s, i) != bit
  }

  // ----------------------------------------------------- bits of small numbers

  lemma {:induction false} SomeOne(z: nat, n: nat) returns (k: nat)
    requires 0 < z < Pow2(n)
    ensures k < n && Bit(z, k) == 1
    decreases n
  {
    if z % 2 == 1 {
      k := 0;
    } else {
      var j := SomeOne(z / 2, n - 1);
      k := j + 1;
    }
  }

  lemma {:induction false} SomeZero(z: nat, n: nat) returns (k: nat)
    requires z < Pow2(n) - 1
    ensures k < n && Bit(z, k) == 0
    decreases n
  {
    if z % 2 == 0 {
      k := 0;
    } else {
      var j := SomeZero(z / 2, n - 1);
      k := j + 1;
    }
  }

  lemma {:induction false} AllOnes(n: nat, k: nat)
    requires k < n
    ensures Bit(Pow2(n) - 1, k) == 1
    decreases n
  {
    OddHalf(Pow2(n - 1));
    if k > 0 {
      AllOnes(n - 1, k - 1);
    }
  }

  lemma {:induction false} OddHalf(p: nat)
    requires p >= 1
    ensures (2 * p - 1) / 2 == p - 1 && (2 * p - 1) % 2 == 1
  {
  }

  /** The byte without a bit that is looked for. */
  function Skip(bit: bool): Byte {
    if bit then 0 else 255
  }

  lemma {:induction false} SkipBits(bit: bool, k: nat)
    requires k < 8
    ensures (Bit(Skip(bit), k) == 1) != bit
  {
    Pow2Byte();
    if bit {
      BitOfZero(k);
    } else {
      AllOnes(8, k);
    }
  }

  lemma {:induction false} OtherBits(b: Byte, bit: bool) returns (k: nat)
    requires b != Skip(bit)
    ensures k < 8 && (Bit(b, k) == 1) == bit
  {
    Pow2Byte();
    if bit {
      k := SomeOne(b, 8);
    } else {
      k := SomeZero(b, 8);
    }
  }

  /** A byte to skip has no bit to find. */
  lemma {:induction false} SkippedByte(s: seq<Byte>, bit: bool, c: nat)
    requires c < |s| && s[c] == Skip(bit)
    ensures forall i: nat | 8 * c <= i < 8 * c + 8 :: BitAt(s, i) != bit
  {
    forall i: nat | 8 * c <= i < 8 * c + 8 ensures BitAt(s, i) != bit {
      assert i / 8 == c;
      SkipBits(bit, 7 - i % 8);
    }
  }

  // ------------------------------------------------------------------ words

  /** The bits of the number of a string are its bits, from the top. */
  lemma {:induction false} NumberBit(z: seq<Byte>, i: nat)
    requires i < 8 * |z|
    ensures Bit(Number(z), 8 * |z| - 1 - i) == 1 <==> BitAt(z, i)
    decreases |z|
  {
    var front, last, k := z[..|z| - 1], z[|z| - 1], 8 * |z| - 1 - i;
    Pow2Byte();
    BitOfJoined(Number(front), last, 8, k);
    if k < 8 {
      assert i / 8 == |z| - 1 && 7 - i % 8 == k;
    } else {
      NumberBit(front, i);
      assert front[i / 8] == z[i / 8];
    }
  }

  lemma {:induction false} NumberMore(z: seq<Byte>, b: Byte)
    ensures Number(z + [b]) == 256 * Number(z) + b
  {
    assert (z + [b])[..|z|] == z;
  }

  lemma {:induction false} NumberZero(z: seq<Byte>)
    ensures Number(z) == 0 <==> forall j | 0 <= j < |z| :: z[j] == 0
  {
    if z != [] {
      NumberZero(z[..|z| - 1]);
      assert forall j | 0 <= j < |z| - 1 :: z[..|z| - 1][j] == z[j];
    }
  }

  /** The eight bytes from c on, zero-padded. */
  function Window(s: seq<Byte>, c: nat): (z: seq<Byte>)
    ensures |z| == 8
  {
    seq(8, j requires 0 <= j < 8 => if c + j < |s| then s[c + j] else 0)
  }

  lemma {:induction false} WindowBit(s: seq<Byte>, c: nat, i: nat)
    requires i < 64
    ensures BitAt(Window(s, c), i) == BitAt(s, 8 * c + i)
  {
    assert (8 * c + i) / 8 == c + i / 8 && (8 * c + i) % 8 == i % 8;
    BitOfZero(7 - i % 8);
  }

  // ------------------------------------------------------------ the method

  /** Bytes before the first aligned one. */
  method SkipBytes(s: seq<Byte>, unaligned: nat, bit: bool) returns (c: nat, found: bool)
    ensures c <= |s| && (forall i: nat {:trigger BitAt(s, i)} :: i < 8 * c ==> BitAt(s, i) != bit)
    ensures found ==> c < |s| && s[c] != Skip(bit)
  {
    c, found := 0, false;
    while c < unaligned && c < |s|
      invariant c <= |s| && (forall i: nat {:trigger BitAt(s, i)} :: i < 8 * c ==> BitAt(s, i) != bit)
    {
      if s[c] != Skip(bit) {
        found := true;
        return;
      }
      SkippedByte(s, bit, c);
      c := c + 1;
    }
  }

  predicate AllSkip(s: seq<Byte>, c: nat, bit: bool)
    requires c + 8 <= |s|
  {
    forall j | c <= j < c + 8 :: s[j] == Skip(bit)
  }

  /** Whole words. */
  method SkipWords(s: seq<Byte>, start: nat, bit: bool) returns (c: nat)
    requires start <= |s| && (forall i: nat {:trigger BitAt(s, i)} :: i < 8 * start ==> BitAt(s, i) != bit)
    ensures start <= c <= |s| && (forall i: nat {:trigger BitAt(s, i)} :: i < 8 * c ==> BitAt(s, i) != bit)
    ensures c + 8 <= |s| ==> !AllSkip(s, c, bit)
  {
    c := start;
    while c + 8 <= |s| && AllSkip(s, c, bit)
      invariant start <= c <= |s| && (forall i: nat {:trigger BitAt(s, i)} :: i < 8 * c ==> BitAt(s, i) != bit)
      decreases |s| - c
    {
      forall i: nat | 8 * c <= i < 8 * (c + 8) ensures BitAt(s, i) != bit {
        assert c <= i / 8 < c + 8;
        SkippedByte(s, bit, i / 8);
      }
      c := c + 8;
    }
  }

  /** Up to eight bytes into a word, the first as the most significant. */
  method LoadWord(s: seq<Byte>, start: nat) returns (word: nat)
    requires start <= |s|
    ensures word == Number(Window(s, start))
  {
    word := 0;
    ghost var z := Window(s, start);
    var c := start;
    for j := 0 to 8
      invariant word == Number(z[..j]) && c == if start + j <= |s| then start + j else |s|
    {
      assert z[..j + 1] == z[..j] + [z[j]];
      NumberMore(z[..j], z[j]);
      word := word * 256;
      if c < |s| {
        word := word + s[c];
        c := c + 1;
      }
    }
    assert z[..8] == z;
  }

  /** Where the word is loaded there is something to find, unless the string ends
      first and ones are looked for. */
  ghost predicate Hit(s: seq<Byte>, c: nat, bit: bool) {
    exists i: nat {:trigger BitAt(s, 8 * c + i)} :: i < 64 && BitAt(s, 8 * c + i) == bit
  }

  lemma {:induction false} ByteHits(s: seq<Byte>, c: nat, j: nat, bit: bool)
    requires j < 8 && (if c + j < |s| then s[c + j] else 0) != Skip(bit)
    ensures Hit(s, c, bit)
  {
    var b: Byte := if c + j < |s| then s[c + j] else 0;
    var k := OtherBits(b, bit);
    var i := 8 * j + (7 - k);
    assert i / 8 == j && 7 - i % 8 == k;
    assert Window(s, c)[j] == b;
    WindowBit(s, c, i);
  }

  lemma {:induction false} WordHits(s: seq<Byte>, c: nat, bit: bool, found: bool)
    requires c <= |s| && (found ==> c < |s| && s[c] != Skip(bit)) && (!found && c + 8 <= |s| ==> !AllSkip(s, c, bit))
    requires bit ==> Number(Window(s, c)) != 0
    ensures Hit(s, c, bit)
  {
    if bit {
      NumberZero(Window(s, c));
      var j: nat :| j < 8 && Window(s, c)[j] != 0;
      ByteHits(s, c, j, bit);
    } else if found {
      ByteHits(s, c, 0, bit);
    } else if c + 8 <= |s| {
      var j :| c <= j < c + 8 && s[j] != Skip(bit);
      ByteHits(s, c, j - c, bit);
    } else {
      ByteHits(s, c, |s| - c, bit);
    }
  }

  /** redisBitpos: the first matching bit for every string, alignment and bit;
      the panic at its end is unreachable. */
  method RedisBitpos(s: seq<Byte>, unaligned: nat, bit: bool) returns (r: int)
    requires unaligned < 8
    ensures IsFirst(s, bit, r)
    ensures r == -1 ==> bit
  {
    var c, found := SkipBytes(s, unaligned, bit);
    if !found {
      c := SkipWords(s, c, bit);
    }
    var word := LoadWord(s, c);
    if bit && word == 0 {
      NothingFound(s, c, found);
      return -1;
    }
    WordHits(s, c, bit, found);
    r := ScanWord(s, c, bit, word);
  }

  lemma {:induction false} NothingFound(s: seq<Byte>, c: nat, found: bool)
    requires c <= |s| && Number(Window(s, c)) == 0 && (found ==> c < |s| && s[c] != 0)
             && (!found && c + 8 <= |s| ==> !AllSkip(s, c, true))
    requires forall i: nat {:trigger BitAt(s, i)} :: i < 8 * c ==> !BitAt(s, i)
    ensures forall i: nat {:trigger BitAt(s, i)} :: !BitAt(s, i)
  {
    NumberZero(Window(s, c));
    assert forall j | c <= j < |s| && j < c + 8 :: Window(s, c)[j - c] == s[j];
    forall i: nat ensures !BitAt(s, i) {
      if 8 * c <= i && i / 8 < |s| {
        BitOfZero(7 - i % 8);
      }
    }
  }

  /** Bit by bit from the top of the word. */
  method ScanWord(s: seq<Byte>, c: nat, bit: bool, word: nat) returns (r: int)
    requires word == Number(Window(s, c)) && Hit(s, c, bit)
    requires forall i: nat {:trigger BitAt(s, i)} :: i < 8 * c ==> BitAt(s, i) != bit
    ensures r >= 0 && IsFirst(s, bit, r)
  {
    for k := 0 to 64
      invariant forall i: nat {:trigger BitAt(s, i)} :: i < 8 * c + k ==> BitAt(s, i) != bit
    {
      NumberBit(Window(s, c), k);
      WindowBit(s, c, k);
      if (Bit(word, 63 - k) == 1) == bit {
        return 8 * c + k;
      }
    }
    assert false;
  }
}
