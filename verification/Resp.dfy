/** The RESP encoding of commands in the append-only file (aof.c, sections
    "RESP Arrays" and "RESP Bulk Strings" of the Redis serialization protocol
    specification) and the reading side of the loader: fgets, strtol, fread. */
module Resp {

  type Byte = x: int | 0 <= x < 256

  type Bytes = seq<Byte>

  /** The arguments of a command; the first one is its name. */
  type Argv = seq<Bytes>

  const STAR: Byte := 42
  const DOLLAR: Byte := 36
  const CR: Byte := 13
  const LF: Byte := 10
  const ZERO: Byte := 48
  const CRLF: Bytes := [CR, LF]

  /** sizeof(buf) - 1: the most fgets puts into the line buffer. */
  const LINE_ROOM: nat := 127

  // -------------------------------------------------------------- encoding

  function Decimal(n: nat): Bytes {
    if n < 10 then [ZERO + n] else Decimal(n / 10) + [ZERO + n % 10]
  }

  lemma {:induction false} DecimalDigits(n: nat)
    ensures Decimal(n) != [] && AllDigits(Decimal(n)) && (n > 0 ==> Decimal(n)[0] != ZERO)
  {
    if n >= 10 {
      DecimalDigits(n / 10);
    }
  }

  function Header(mark: Byte, n: nat): Bytes {
    [mark] + Decimal(n) + CRLF
  }

  function Bulk(arg: Bytes): Bytes {
    Header(DOLLAR, |arg|) + arg + CRLF
  }

  function Bulks(args: seq<Bytes>): Bytes {
    if args == [] then [] else Bulks(args[..|args| - 1]) + Bulk(args[|args| - 1])
  }

  function Encode(argv: Argv): Bytes {
    Header(STAR, |argv|) + Bulks(argv)
  }

  function EncodeAll(cmds: seq<Argv>): Bytes {
    if cmds == [] then [] else EncodeAll(cmds[..|cmds| - 1]) + Encode(cmds[|cmds| - 1])
  }

  /** catAppendOnlyGenericCommand. */
  method CatCommand(dst: Bytes, argv: Argv) returns (r: Bytes)
    ensures r == dst + Encode(argv)
  {
    r := dst + Header(STAR, |argv|);
    for j := 0 to |argv|
      invariant r == dst + (Header(STAR, |argv|) + Bulks(argv[..j]))
    {
      assert argv[..j + 1][..j] == argv[..j];
      r := r + Header(DOLLAR, |argv[j]|);
      r := r + argv[j];
      r := r + CRLF;
      Associate(dst, Header(STAR, |argv|), Bulks(argv[..j]), Header(DOLLAR, |argv[j]|), argv[j]);
    }
    assert argv[..|argv|] == argv;
  }

  lemma {:induction false} Associate(dst: Bytes, h: Bytes, done: Bytes, b: Bytes, arg: Bytes)
    ensures dst + (h + done) + b + arg + CRLF == dst + (h + (done + (b + arg + CRLF)))
  {
  }

  lemma {:induction false} Regroup(a: Bytes, b: Bytes, c: Bytes)
    ensures (a + b) + c == a + (b + c)
  {
  }

  lemma {:induction false} EncodeAllAppend(cmds: seq<Argv>, argv: Argv)
    ensures EncodeAll(cmds + [argv]) == EncodeAll(cmds) + Encode(argv)
  {
    assert (cmds + [argv])[..|cmds|] == cmds;
  }

  lemma {:induction false} EncodeAllConcat(a: seq<Argv>, b: seq<Argv>)
    ensures EncodeAll(a + b) == EncodeAll(a) + EncodeAll(b)
  {
    if b == [] {
      assert a + b == a;
    } else {
      var front, last := b[..|b| - 1], b[|b| - 1];
      assert a + b == (a + front) + [last];
      EncodeAllAppend(a + front, last);
      EncodeAllConcat(a, front);
      Regroup(EncodeAll(a), EncodeAll(front), Encode(last));
    }
  }

  lemma {:induction false} BulksAppend(args: seq<Bytes>, arg: Bytes)
    ensures Bulks(args + [arg]) == Bulks(args) + Bulk(arg)
  {
    assert (args + [arg])[..|args|] == args;
  }

  lemma {:induction false} BulksConcat(a: seq<Bytes>, b: seq<Bytes>)
    ensures Bulks(a + b) == Bulks(a) + Bulks(b)
  {
    if b == [] {
      assert a + b == a;
    } else {
      var front, last := b[..|b| - 1], b[|b| - 1];
      assert a + b == (a + front) + [last];
      BulksAppend(a + front, last);
      BulksConcat(a, front);
      Regroup(Bulks(a), Bulks(front), Bulk(last));
    }
  }

  // --------------------------------------------------------------- reading

  /** Where a line read by fgets at `pos` ends. */
  function LineEnd(s: Bytes, pos: nat, room: nat): (r: nat)
    requires pos <= |s|
    ensures pos <= r <= |s| && (room > 0 && pos < |s| ==> pos < r)
    decreases room
  {
    if room == 0 || pos == |s| then pos
    else if s[pos] == LF then pos + 1
    else LineEnd(s, pos + 1, room - 1)
  }

  predicate Digit(b: Byte) {
    ZERO <= b <= ZERO + 9
  }

  predicate Space(b: Byte) {
    b == 32 || 9 <= b <= 13
  }

  function SkipSpace(s: Bytes, i: nat): (r: nat)
    requires i <= |s|
    ensures i <= r <= |s|
    decreases |s| - i
  {
    if i < |s| && Space(s[i]) then SkipSpace(s, i + 1) else i
  }

  function Digits(s: Bytes, i: nat, acc: nat): nat
    requires i <= |s|
    decreases |s| - i
  {
    if i < |s| && Digit(s[i]) then Digits(s, i + 1, acc * 10 + (s[i] - ZERO)) else acc
  }

  /** strtol in base 10 from position i of the line. */
  function Number(s: Bytes, i: nat): int
    requires i <= |s|
  {
    var j := SkipSpace(s, i);
    if j < |s| && s[j] == 45 then 0 - (Digits(s, j + 1, 0) as int)
    else if j < |s| && s[j] == 43 then Digits(s, j + 1, 0)
    else Digits(s, j, 0)
  }

  /** Reading a command: it is there, the log ends here, the log ends inside
      it, a read failed before the end, or it is malformed. */
  datatype Reading<T> = Got(value: T, next: nat) | End | Short | Failed | Malformed

  function ReadBulk(s: Bytes, pos: nat): (r: Reading<Bytes>)
    requires pos <= |s|
    ensures r.Got? ==> pos < r.next <= |s|
  {
    if pos == |s| then Short
    else
      var eol := LineEnd(s, pos, LINE_ROOM);
      var line := s[pos..eol];
      if line[0] != DOLLAR then Malformed
      else
        var len := Number(line, 1);
        if len < 0 then Malformed
        else if eol + len + 2 > |s| then Short
        else Got(s[eol..eol + len], eol + len + 2)
  }

  function ReadBulks(s: Bytes, pos: nat, n: nat): (r: Reading<Argv>)
    requires pos <= |s|
    ensures r.Got? ==> pos <= r.next <= |s| && |r.value| == n
    decreases n
  {
    if n == 0 then Got([], pos)
    else
      match ReadBulks(s, pos, n - 1)
      case Got(args, next) =>
        (match ReadBulk(s, next)
         case Got(arg, end) => Got(args + [arg], end)
         case Malformed => Malformed
         case _ => Short)
      case other => other
  }

  function ReadCommand(s: Bytes, pos: nat): (r: Reading<Argv>)
    requires pos <= |s|
    ensures r.Got? ==> pos < r.next <= |s| && r.value != []
  {
    if pos == |s| then End
    else
      var eol := LineEnd(s, pos, LINE_ROOM);
      var line := s[pos..eol];
      if line[0] != STAR then Malformed
      else if |line| == 1 then Short
      else if line[1] == 0 then (if eol == |s| && line[|line| - 1] != LF && |line| < LINE_ROOM then Short else Failed)
      else
        var argc := Number(line, 1);
        if argc < 1 then Malformed else ReadBulks(s, eol, argc)
  }

  // ------------------------------------------------- positions in the log

  /** The text t stands at `pos`. */
  predicate At(s: Bytes, pos: nat, t: Bytes) {
    pos + |t| <= |s| && s[pos..pos + |t|] == t
  }

  /** The text t would stand at `pos`, but the log ends inside it. */
  predicate Cut(s: Bytes, pos: nat, t: Bytes) {
    pos <= |s| < pos + |t| && s[pos..] == t[..|s| - pos]
  }

  lemma {:induction false} AtSplit(s: Bytes, pos: nat, a: Bytes, b: Bytes)
    ensures At(s, pos, a + b) <==> At(s, pos, a) && At(s, pos + |a|, b)
  {
    if pos + |a| + |b| <= |s| {
      var t := s[pos..pos + |a| + |b|];
      assert t[..|a|] == s[pos..pos + |a|] && t[|a|..] == s[pos + |a|..pos + |a| + |b|];
      assert t == t[..|a|] + t[|a|..];
      assert (a + b)[..|a|] == a && (a + b)[|a|..] == b;
    }
  }

  lemma {:induction false} CutSplit(s: Bytes, pos: nat, a: Bytes, b: Bytes)
    requires Cut(s, pos, a + b)
    ensures Cut(s, pos, a) || (At(s, pos, a) && Cut(s, pos + |a|, b))
  {
    var n := |s| - pos;
    if n < |a| {
      assert (a + b)[..n] == a[..n];
    } else {
      assert (a + b)[..n] == a + b[..n - |a|];
      assert s[pos..][..|a|] == a && s[pos..][|a|..] == b[..n - |a|];
      assert s[pos..][..|a|] == s[pos..pos + |a|] && s[pos..][|a|..] == s[pos + |a|..];
    }
  }

  // ---------------------------------------------------------- header lines

  predicate AllDigits(ds: Bytes) {
    forall k | 0 <= k < |ds| :: Digit(ds[k])
  }

  function Fold(ds: Bytes, acc: nat): nat
    requires AllDigits(ds)
  {
    if ds == [] then acc else Fold(ds[1..], acc * 10 + (ds[0] - ZERO))
  }

  lemma {:induction false} FoldLast(ds: Bytes, d: Byte, acc: nat)
    requires AllDigits(ds) && Digit(d)
    ensures AllDigits(ds + [d]) && Fold(ds + [d], acc) == Fold(ds, acc) * 10 + (d - ZERO)
  {
    if ds != [] {
      assert (ds + [d])[1..] == ds[1..] + [d];
      FoldLast(ds[1..], d, acc * 10 + (ds[0] - ZERO));
    }
  }

  lemma {:induction false} FoldDecimal(n: nat)
    ensures AllDigits(Decimal(n)) && Fold(Decimal(n), 0) == n
  {
    DecimalDigits(n);
    if n >= 10 {
      DecimalDigits(n / 10);
      FoldDecimal(n / 10);
      FoldLast(Decimal(n / 10), ZERO + n % 10, 0);
    }
  }

  lemma {:induction false} FoldGrows(ds: Bytes, acc: nat)
    requires AllDigits(ds)
    ensures Fold(ds, acc) >= acc
  {
    if ds != [] {
      FoldGrows(ds[1..], acc * 10 + (ds[0] - ZERO));
    }
  }

  lemma {:induction false} DigitsFold(s: Bytes, i: nat, ds: Bytes, acc: nat)
    requires AllDigits(ds) && At(s, i, ds)
    requires i + |ds| < |s| ==> !Digit(s[i + |ds|])
    ensures Digits(s, i, acc) == Fold(ds, acc)
    decreases |ds|
  {
    if ds != [] {
      assert s[i] == ds[0];
      assert s[i + 1..i + |ds|] == ds[1..];
      DigitsFold(s, i + 1, ds[1..], acc * 10 + (ds[0] - ZERO));
    }
  }

  function Pow10(k: nat): (r: nat)
    ensures r >= 1
  {
    if k == 0 then 1 else 10 * Pow10(k - 1)
  }

  lemma {:induction false} DecimalShort(n: nat, k: nat)
    requires k >= 1 && n < Pow10(k)
    ensures |Decimal(n)| <= k
  {
    if n >= 10 {
      assert k > 1;
      DecimalShort(n / 10, k - 1);
    }
  }

  /** Argument counts and lengths of the source fit 63 bits, hence the line buffer. */
  const SIZE_LIMIT: nat := 0x8000_0000_0000_0000

  lemma {:induction false} HeaderFits(n: nat)
    requires n < SIZE_LIMIT
    ensures |Decimal(n)| <= 19
  {
    Pow10At19();
    DecimalShort(n, 19);
  }

  lemma {:induction false} Pow10At19()
    ensures Pow10(19) == 10000000000000000000
  {
    assert Pow10(9) == 1000000000 by {
      assert Pow10(5) == 100000;
    }
    assert Pow10(14) == 100000000000000;
  }

  lemma {:induction false} LineWithin(s: Bytes, pos: nat, n: nat, room: nat)
    requires n < room && pos + n < |s| && s[pos + n] == LF && (forall k | pos <= k < pos + n :: s[k] != LF)
    ensures LineEnd(s, pos, room) == pos + n + 1
    decreases n
  {
    if n > 0 {
      LineWithin(s, pos + 1, n - 1, room - 1);
    }
  }

  lemma {:induction false} LineToEnd(s: Bytes, pos: nat, room: nat)
    requires pos <= |s| <= pos + room && (forall k | pos <= k < |s| :: s[k] != LF)
    ensures LineEnd(s, pos, room) == |s|
    decreases room
  {
    if pos < |s| {
      LineToEnd(s, pos + 1, room - 1);
    }
  }

  /** A whole header line is read, and its number is the one written. */
  lemma {:induction false} HeaderRead(s: Bytes, pos: nat, mark: Byte, n: nat)
    requires n < SIZE_LIMIT && mark != LF && At(s, pos, Header(mark, n))
    ensures LineEnd(s, pos, LINE_ROOM) == pos + |Header(mark, n)|
    ensures s[pos..pos + |Header(mark, n)|] == Header(mark, n) && Number(Header(mark, n), 1) == n
  {
    var h, ds := Header(mark, n), Decimal(n);
    HeaderFits(n);
    DecimalDigits(n);
    assert forall k | 0 <= k < |h| - 1 :: h[k] != LF;
    assert forall k | pos <= k < pos + |h| - 1 :: s[k] == h[k - pos];
    LineWithin(s, pos, |h| - 1, LINE_ROOM);
    NumberOf(h, ds, n);
  }

  lemma {:induction false} NumberOf(line: Bytes, ds: Bytes, n: nat)
    requires ds == Decimal(n) && At(line, 1, ds) && (1 + |ds| < |line| ==> !Digit(line[1 + |ds|]))
    ensures Number(line, 1) == n
  {
    DecimalDigits(n);
    assert line[1] == line[1..1 + |ds|][0];
    DigitsFold(line, 1, ds, 0);
    FoldDecimal(n);
  }

  /** A header line cut short by the end of the log still gives a number that
      is no negative one, and a positive one for a positive number whose first
      digit is there. */
  lemma {:induction false} HeaderCut(s: Bytes, pos: nat, mark: Byte, n: nat)
    requires n < SIZE_LIMIT && mark != LF && Cut(s, pos, Header(mark, n)) && pos < |s|
    ensures LineEnd(s, pos, LINE_ROOM) == |s| && s[pos] == mark
    ensures Number(s[pos..], 1) >= 0
    ensures |s| - pos >= 2 ==> s[pos + 1] != 0 && (n > 0 ==> Number(s[pos..], 1) >= 1)
  {
    var line := s[pos..];
    HeaderFits(n);
    PartialHeader(line, mark, n);
    assert forall k | pos <= k < |s| :: s[k] == line[k - pos];
    LineToEnd(s, pos, LINE_ROOM);
  }

  /** What stands at position k of a header. */
  lemma {:induction false} HeaderAt(mark: Byte, n: nat, k: nat)
    requires k < |Header(mark, n)|
    ensures var ds := Decimal(n);
            Header(mark, n)[k]
            == if k == 0 then mark else if k <= |ds| then ds[k - 1] else if k == |ds| + 1 then CR else LF
  {
  }

  lemma {:induction false} PartialHeader(line: Bytes, mark: Byte, n: nat)
    requires 1 <= |line| < |Header(mark, n)| && line == Header(mark, n)[..|line|] && mark != LF
    ensures line[0] == mark && LF !in line && Number(line, 1) >= 0
    ensures |line| >= 2 ==> line[1] != 0 && (n > 0 ==> Number(line, 1) >= 1)
  {
    var ds := Decimal(n);
    DecimalDigits(n);
    forall k | 0 <= k < |line| ensures line[k] == if k == 0 then mark else if k <= |ds| then ds[k - 1] else CR {
      HeaderAt(mark, n, k);
    }
    if |line| >= 2 {
      var m := if |line| - 1 < |ds| then |line| - 1 else |ds|;
      assert line[1..1 + m] == ds[..m];
      assert 1 + m < |line| ==> line[1 + m] == CR;
      PartialNumber(line, ds[..m]);
    }
  }

  lemma {:induction false} PartialNumber(line: Bytes, ds: Bytes)
    requires AllDigits(ds) && ds != [] && At(line, 1, ds) && (1 + |ds| < |line| ==> line[1 + |ds|] == CR)
    ensures line[1] == ds[0] && Number(line, 1) >= ds[0] - ZERO
  {
    assert line[1] == line[1..1 + |ds|][0];
    DigitsFold(line, 1, ds, 0);
    FoldGrows(ds[1..], ds[0] - ZERO);
  }

  // -------------------------------------------------------------- commands

  /** Sizes the source can hold. */
  predicate Fits(argv: Argv) {
    1 <= |argv| < SIZE_LIMIT && forall k | 0 <= k < |argv| :: |argv[k]| < SIZE_LIMIT
  }

  lemma {:induction false} BulkRead(s: Bytes, pos: nat, arg: Bytes, end: nat)
    requires |arg| < SIZE_LIMIT && At(s, pos, Bulk(arg)) && end == pos + |Bulk(arg)|
    ensures end <= |s| && ReadBulk(s, pos) == Got(arg, end)
  {
    var eol := pos + |Header(DOLLAR, |arg|)|;
    BulkParts(s, pos, Header(DOLLAR, |arg|), arg, eol);
    HeaderRead(s, pos, DOLLAR, |arg|);
    BulkAt(s, pos, eol, arg, end);
  }

  lemma {:induction false} BulkParts(s: Bytes, pos: nat, h: Bytes, arg: Bytes, eol: nat)
    requires At(s, pos, h + arg + CRLF) && eol == pos + |h|
    ensures At(s, pos, h) && At(s, eol, arg) && eol + |arg| + 2 <= |s|
  {
    AtSplit(s, pos, h + arg, CRLF);
    AtSplit(s, pos, h, arg);
  }

  lemma {:induction false} BulkAt(s: Bytes, pos: nat, eol: nat, arg: Bytes, end: nat)
    requires pos < eol <= |s| && LineEnd(s, pos, LINE_ROOM) == eol && s[pos..eol][0] == DOLLAR
    requires Number(s[pos..eol], 1) == |arg| && end == eol + |arg| + 2 <= |s| && s[eol..eol + |arg|] == arg
    ensures ReadBulk(s, pos) == Got(arg, end)
  {
  }

  lemma {:induction false} BulksUnfold(args: seq<Bytes>, front: seq<Bytes>, last: Bytes)
    requires args == front + [last]
    ensures Bulks(args) == Bulks(front) + Bulk(last)
  {
    BulksAppend(front, last);
  }

  lemma {:induction false} BulkCut(s: Bytes, pos: nat, arg: Bytes)
    requires |arg| < SIZE_LIMIT && Cut(s, pos, Bulk(arg))
    ensures ReadBulk(s, pos) == Short
  {
    var h := Header(DOLLAR, |arg|);
    assert Bulk(arg) == h + (arg + CRLF);
    CutSplit(s, pos, h, arg + CRLF);
    if Cut(s, pos, h) {
      BulkCutInHeader(s, pos, |arg|);
    } else {
      BulkCutInBody(s, pos, |arg|);
    }
  }

  lemma {:induction false} BulkCutInHeader(s: Bytes, pos: nat, n: nat)
    requires n < SIZE_LIMIT && Cut(s, pos, Header(DOLLAR, n))
    ensures ReadBulk(s, pos) == Short
  {
    if pos < |s| {
      HeaderCut(s, pos, DOLLAR, n);
      assert s[pos..|s|] == s[pos..];
    }
  }

  lemma {:induction false} BulkCutInBody(s: Bytes, pos: nat, n: nat)
    requires n < SIZE_LIMIT && At(s, pos, Header(DOLLAR, n)) && |s| < pos + |Header(DOLLAR, n)| + n + 2
    ensures ReadBulk(s, pos) == Short
  {
    HeaderRead(s, pos, DOLLAR, n);
  }

  /** One more argument after those that were read. */
  lemma {:induction false} ReadOneMore(s: Bytes, pos: nat, args: seq<Bytes>, last: Bytes, mid: nat, end: nat)
    requires pos <= |s| && mid <= |s| && end <= |s|
    requires ReadBulks(s, pos, |args|) == Got(args, mid) && ReadBulk(s, mid) == Got(last, end)
    ensures ReadBulks(s, pos, |args| + 1) == Got(args + [last], end)
  {
  }

  lemma {:induction false} MissOneMore(s: Bytes, pos: nat, args: seq<Bytes>, mid: nat)
    requires pos <= |s| && mid <= |s|
    requires ReadBulks(s, pos, |args|) == Got(args, mid) && ReadBulk(s, mid) == Short
    ensures ReadBulks(s, pos, |args| + 1) == Short
  {
  }

  lemma {:induction false} StayShort(s: Bytes, pos: nat, n: nat)
    requires pos <= |s| && ReadBulks(s, pos, n) == Short
    ensures ReadBulks(s, pos, n + 1) == Short
  {
  }

  lemma {:induction false} BulksRead(s: Bytes, pos: nat, args: seq<Bytes>, end: nat)
    requires At(s, pos, Bulks(args)) && (forall k | 0 <= k < |args| :: |args[k]| < SIZE_LIMIT)
    requires end == pos + |Bulks(args)|
    ensures ReadBulks(s, pos, |args|) == Got(args, end)
    decreases |args|
  {
    if args != [] {
      var front, last := args[..|args| - 1], args[|args| - 1];
      assert args == front + [last];
      BulksUnfold(args, front, last);
      var mid := pos + |Bulks(front)|;
      AtSplit(s, pos, Bulks(front), Bulk(last));
      BulksRead(s, pos, front, mid);
      BulkRead(s, mid, last, end);
      ReadOneMore(s, pos, front, last, mid, end);
    }
  }

  lemma {:induction false} BulksCut(s: Bytes, pos: nat, args: seq<Bytes>)
    requires Cut(s, pos, Bulks(args)) && (forall k | 0 <= k < |args| :: |args[k]| < SIZE_LIMIT)
    ensures ReadBulks(s, pos, |args|) == Short
    decreases |args|
  {
    if args != [] {
      var front, last := args[..|args| - 1], args[|args| - 1];
      if Cut(s, pos, Bulks(front)) {
        BulksCut(s, pos, front);
        StayShort(s, pos, |front|);
      } else {
        CutInLast(s, pos, front, last);
      }
    }
  }

  lemma {:induction false} CutInLast(s: Bytes, pos: nat, front: seq<Bytes>, last: Bytes)
    requires Cut(s, pos, Bulks(front) + Bulk(last)) && !Cut(s, pos, Bulks(front))
    requires |last| < SIZE_LIMIT && (forall k | 0 <= k < |front| :: |front[k]| < SIZE_LIMIT)
    ensures ReadBulks(s, pos, |front| + 1) == Short
  {
    CutSplit(s, pos, Bulks(front), Bulk(last));
    CutBehind(s, pos, front, last, pos + |Bulks(front)|);
  }

  lemma {:induction false} CutBehind(s: Bytes, pos: nat, front: seq<Bytes>, last: Bytes, mid: nat)
    requires At(s, pos, Bulks(front)) && mid == pos + |Bulks(front)| && Cut(s, mid, Bulk(last))
    requires |last| < SIZE_LIMIT && (forall k | 0 <= k < |front| :: |front[k]| < SIZE_LIMIT)
    ensures ReadBulks(s, pos, |front| + 1) == Short
  {
    BulksRead(s, pos, front, mid);
    BulkCut(s, mid, last);
    MissOneMore(s, pos, front, mid);
  }

  /** Past the end of the log every argument is missing. */
  lemma {:induction false} NothingLeft(s: Bytes, n: nat)
    requires n >= 1
    ensures ReadBulks(s, |s|, n) == Short
  {
    if n > 1 {
      NothingLeft(s, n - 1);
    }
  }

  /** What ReadCommand does once the header line is known. */
  lemma {:induction false} AfterHeader(s: Bytes, pos: nat, eol: nat, argc: int)
    requires pos < |s| && LineEnd(s, pos, LINE_ROOM) == eol && s[pos] == STAR
    requires eol >= pos + 2 && s[pos + 1] != 0 && argc == Number(s[pos..eol], 1) >= 1
    ensures ReadCommand(s, pos) == ReadBulks(s, eol, argc)
  {
  }

  /** What was encoded is read back: for arbitrary binary arguments. */
  lemma {:induction false} CommandRead(s: Bytes, pos: nat, argv: Argv, end: nat)
    requires Fits(argv) && At(s, pos, Encode(argv)) && end == pos + |Encode(argv)|
    ensures ReadCommand(s, pos) == Got(argv, end)
  {
    var h, mid := Header(STAR, |argv|), pos + |Header(STAR, |argv|)|;
    AtSplit(s, pos, h, Bulks(argv));
    HeaderThenBulks(s, pos, argv, mid);
    BulksRead(s, mid, argv, end);
  }

  lemma {:induction false} HeaderThenBulks(s: Bytes, pos: nat, argv: Argv, mid: nat)
    requires Fits(argv) && At(s, pos, Header(STAR, |argv|)) && mid == pos + |Header(STAR, |argv|)|
    ensures mid <= |s| && ReadCommand(s, pos) == ReadBulks(s, mid, |argv|)
  {
    var h := Header(STAR, |argv|);
    HeaderRead(s, pos, STAR, |argv|);
    DecimalDigits(|argv|);
    assert h[1] == Decimal(|argv|)[0];
    assert s[pos] == h[0] && s[pos + 1] == h[1];
    AfterHeader(s, pos, mid, |argv|);
  }

  /** A command of which at least one byte is there, and at least one is
      missing, is an unexpected end of the log, wherever the cut is. */
  lemma {:induction false} CommandCut(s: Bytes, pos: nat, argv: Argv)
    requires Fits(argv) && Cut(s, pos, Encode(argv)) && pos < |s|
    ensures ReadCommand(s, pos) == Short
  {
    CutSplit(s, pos, Header(STAR, |argv|), Bulks(argv));
    if Cut(s, pos, Header(STAR, |argv|)) {
      CommandCutInHeader(s, pos, |argv|);
    } else {
      CommandCutInBody(s, pos, argv, pos + |Header(STAR, |argv|)|);
    }
  }

  lemma {:induction false} CommandCutInHeader(s: Bytes, pos: nat, n: nat)
    requires 1 <= n < SIZE_LIMIT && Cut(s, pos, Header(STAR, n)) && pos < |s|
    ensures ReadCommand(s, pos) == Short
  {
    HeaderCut(s, pos, STAR, n);
    HeaderMissing(s, pos);
  }

  lemma {:induction false} CommandCutInBody(s: Bytes, pos: nat, argv: Argv, mid: nat)
    requires Fits(argv) && At(s, pos, Header(STAR, |argv|)) && mid == pos + |Header(STAR, |argv|)|
    requires Cut(s, mid, Bulks(argv))
    ensures ReadCommand(s, pos) == Short
  {
    HeaderThenBulks(s, pos, argv, mid);
    BulksCut(s, mid, argv);
  }

  lemma {:induction false} HeaderMissing(s: Bytes, pos: nat)
    requires pos < |s| && LineEnd(s, pos, LINE_ROOM) == |s| && s[pos] == STAR
    requires |s| - pos >= 2 ==> s[pos + 1] != 0 && Number(s[pos..], 1) >= 1
    ensures ReadCommand(s, pos) == Short
  {
    assert s[pos..|s|] == s[pos..];
    if |s| - pos >= 2 {
      AfterHeader(s, pos, |s|, Number(s[pos..], 1));
      NothingLeft(s, Number(s[pos..], 1));
    }
  }
}
