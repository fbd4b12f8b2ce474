/** Loading the append-only file (loadAppendOnlyFile in aof.c): commands are
    read one by one and run by a fake client, transactions are queued until
    EXEC, and a log that ends inside a command or a transaction is cut back. */
module AofLoad {
  import opened Resp

  /** What looking up a command name gives. */
  datatype Kind = Multi | Exec | Plain | Unknown

  /** The fake client: what it has run, and the open transaction. */
  datatype Client = Client(ran: seq<Argv>, queue: seq<Argv>, multi: bool)

  function Run(c: Client, argv: Argv, kind: Kind): Client {
    if c.multi && kind != Exec then c.(queue := c.queue + [argv])
    else match kind
      case Multi => c.(multi := true, queue := [])
      case Exec => if c.multi then Client(c.ran + c.queue, [], false) else c
      case _ => c.(ran := c.ran + [argv])
  }

  /** The loader between two commands: `valid` and `beforeMulti` are the offsets
      valid_up_to and valid_before_multi. */
  datatype Progress = Progress(client: Client, valid: nat, beforeMulti: nat)

  datatype Outcome =
    | EmptyFile
    | Preamble
    | Loaded(ran: seq<Argv>)
    | Truncated(ran: seq<Argv>, validUpTo: nat)
    | UnexpectedEnd
    | ReadError
    | FormatError
    | UnknownCommand

  function Start(): Progress {
    Progress(Client([], [], false), 0, 0)
  }

  /** A command was read; `end` is where it ends. */
  function Advance(p: Progress, argv: Argv, kind: Kind, end: nat, truncated: bool): Progress {
    Progress(Run(p.client, argv, kind),
             if truncated then end else p.valid,
             if kind == Multi then p.valid else p.beforeMulti)
  }

  /** The label uxeof. `cutOk` says whether truncate and lseek succeed. */
  function AtUnexpectedEnd(c: Client, valid: nat, truncated: bool, cutOk: bool): Outcome {
    if truncated && cutOk then Truncated(c.ran, valid) else UnexpectedEnd
  }

  function AtEnd(p: Progress, truncated: bool, cutOk: bool): Outcome {
    if p.client.multi then AtUnexpectedEnd(p.client, p.beforeMulti, truncated, cutOk) else Loaded(p.client.ran)
  }

  function LoadFrom(s: Bytes, pos: nat, p: Progress, truncated: bool, cutOk: bool, lookup: Bytes -> Kind): Outcome
    requires pos <= |s|
    decreases |s| - pos
  {
    match ReadCommand(s, pos)
    case End => AtEnd(p, truncated, cutOk)
    case Short => AtUnexpectedEnd(p.client, p.valid, truncated, cutOk)
    case Failed => ReadError
    case Malformed => FormatError
    case Got(argv, next) =>
      var kind := lookup(argv[0]);
      if kind == Unknown then UnknownCommand
      else LoadFrom(s, next, Advance(p, argv, kind, next, truncated), truncated, cutOk, lookup)
  }

  const REDIS: Bytes := [82, 69, 68, 73, 83]

  /** `truncated` is the option aof-load-truncated. */
  method Load(s: Bytes, truncated: bool, cutOk: bool, lookup: Bytes -> Kind) returns (r: Outcome)
    ensures s == [] ==> r == EmptyFile
    ensures REDIS <= s ==> r == Preamble
    ensures s != [] && !(REDIS <= s) ==> r == LoadFrom(s, 0, Start(), truncated, cutOk, lookup)
  {
    if s == [] {
      return EmptyFile;
    }
    if REDIS <= s {
      return Preamble;
    }
    var pos, p := 0, Start();
    while true
      invariant pos <= |s|
      invariant LoadFrom(s, 0, Start(), truncated, cutOk, lookup) == LoadFrom(s, pos, p, truncated, cutOk, lookup)
      decreases |s| - pos
    {
      var command := ReadCommand(s, pos);
      match command {
        case End => return AtEnd(p, truncated, cutOk);
        case Short => return AtUnexpectedEnd(p.client, p.valid, truncated, cutOk);
        case Failed => return ReadError;
        case Malformed => return FormatError;
        case Got(argv, next) =>
          var kind := lookup(argv[0]);
          if kind == Unknown {
            return UnknownCommand;
          }
          p := Advance(p, argv, kind, next, truncated);
          pos := next;
      }
    }
  }

  // ----------------------------------------------- logs and their prefixes

  ghost predicate Loadable(cmds: seq<Argv>, lookup: Bytes -> Kind) {
    forall k | 0 <= k < |cmds| :: Fits(cmds[k]) && lookup(cmds[k][0]) != Unknown
  }

  /** The fake client after the commands. */
  function RunAll(cmds: seq<Argv>, lookup: Bytes -> Kind): Client
    requires forall k | 0 <= k < |cmds| :: cmds[k] != []
  {
    if cmds == [] then Client([], [], false)
    else
      var front, last := cmds[..|cmds| - 1], cmds[|cmds| - 1];
      Run(RunAll(front, lookup), last, lookup(last[0]))
  }

  /** The offset of the last MULTI among the commands (0 if there is none). */
  function LastMulti(cmds: seq<Argv>, lookup: Bytes -> Kind): nat
    requires forall k | 0 <= k < |cmds| :: cmds[k] != []
  {
    if cmds == [] then 0
    else
      var front, last := cmds[..|cmds| - 1], cmds[|cmds| - 1];
      if lookup(last[0]) == Multi then |EncodeAll(front)| else LastMulti(front, lookup)
  }

  /** How many of the commands stand before the transaction that is open after
      them; all of them outside one. */
  function BeforeOpen(cmds: seq<Argv>, lookup: Bytes -> Kind): (m: nat)
    requires forall k | 0 <= k < |cmds| :: cmds[k] != []
    ensures m <= |cmds|
  {
    if cmds == [] || !RunAll(cmds, lookup).multi then |cmds| else BeforeOpen(cmds[..|cmds| - 1], lookup)
  }

  lemma {:induction false} TailOf(front: seq<Argv>, last: Argv, i: nat)
    requires i <= |front|
    ensures (front + [last])[i..] == front[i..] + [last]
  {
  }

  /** The open transaction begins with a MULTI, holds back all that follows it,
      and what was run is what had been run before it. */
  lemma {:induction false} OpenTransaction(cmds: seq<Argv>, lookup: Bytes -> Kind)
    requires forall k | 0 <= k < |cmds| :: cmds[k] != []
    ensures var c, m := RunAll(cmds, lookup), BeforeOpen(cmds, lookup);
            && RunAll(cmds[..m], lookup).ran == c.ran && !RunAll(cmds[..m], lookup).multi
            && (c.multi <==> m < |cmds|)
            && (c.multi ==> lookup(cmds[m][0]) == Multi && c.queue == cmds[m + 1..])
  {
    if cmds == [] || !RunAll(cmds, lookup).multi {
      assert cmds[..|cmds|] == cmds;
    } else {
      var front, last := cmds[..|cmds| - 1], cmds[|cmds| - 1];
      OpenTransaction(front, lookup);
      var m := BeforeOpen(front, lookup);
      assert front[..m] == cmds[..m];
      assert cmds == front + [last];
      if RunAll(front, lookup).multi {
        TailOf(front, last, m + 1);
      }
    }
  }

  function After(cmds: seq<Argv>, truncated: bool, lookup: Bytes -> Kind): Progress
    requires forall k | 0 <= k < |cmds| :: cmds[k] != []
  {
    Progress(RunAll(cmds, lookup),
             if truncated then |EncodeAll(cmds)| else 0,
             if truncated then LastMulti(cmds, lookup) else 0)
  }

  lemma {:induction false} AfterStep(cmds: seq<Argv>, argv: Argv, truncated: bool, lookup: Bytes -> Kind, end: nat)
    requires Loadable(cmds, lookup) && argv != [] && end == |EncodeAll(cmds + [argv])|
    ensures forall k | 0 <= k < |cmds + [argv]| :: (cmds + [argv])[k] != []
    ensures After(cmds + [argv], truncated, lookup)
            == Advance(After(cmds, truncated, lookup), argv, lookup(argv[0]), end, truncated)
  {
    assert (cmds + [argv])[..|cmds|] == cmds;
  }

  /** One whole command at a known position. */
  lemma {:induction false} LoadStep(s: Bytes, pos: nat, argv: Argv, end: nat, p: Progress, truncated: bool,
                                    cutOk: bool, lookup: Bytes -> Kind)
    requires Fits(argv) && At(s, pos, Encode(argv)) && end == pos + |Encode(argv)| && lookup(argv[0]) != Unknown
    ensures LoadFrom(s, pos, p, truncated, cutOk, lookup)
            == LoadFrom(s, end, Advance(p, argv, lookup(argv[0]), end, truncated), truncated, cutOk, lookup)
  {
    CommandRead(s, pos, argv, end);
  }

  /** The commands that stand at the beginning of the log are run one by one. */
  lemma {:induction false} LoadReaches(s: Bytes, cmds: seq<Argv>, truncated: bool, cutOk: bool, lookup: Bytes -> Kind)
    requires Loadable(cmds, lookup) && At(s, 0, EncodeAll(cmds))
    ensures LoadFrom(s, 0, Start(), truncated, cutOk, lookup)
            == LoadFrom(s, |EncodeAll(cmds)|, After(cmds, truncated, lookup), truncated, cutOk, lookup)
    decreases |cmds|
  {
    if cmds != [] {
      var front, last := cmds[..|cmds| - 1], cmds[|cmds| - 1];
      assert cmds == front + [last];
      LastStands(s, front, last);
      LoadReaches(s, front, truncated, cutOk, lookup);
      LoadOneMore(s, front, last, |EncodeAll(front)|, |EncodeAll(cmds)|, truncated, cutOk, lookup);
    }
  }

  lemma {:induction false} LastStands(s: Bytes, front: seq<Argv>, last: Argv)
    requires At(s, 0, EncodeAll(front + [last]))
    ensures At(s, 0, EncodeAll(front)) && At(s, |EncodeAll(front)|, Encode(last))
    ensures |EncodeAll(front + [last])| == |EncodeAll(front)| + |Encode(last)|
  {
    EncodeAllAppend(front, last);
    AtSplit(s, 0, EncodeAll(front), Encode(last));
  }

  lemma {:induction false} LoadOneMore(s: Bytes, front: seq<Argv>, last: Argv, pos: nat, end: nat, truncated: bool,
                                       cutOk: bool, lookup: Bytes -> Kind)
    requires Loadable(front, lookup) && Fits(last) && lookup(last[0]) != Unknown
    requires At(s, pos, Encode(last)) && end == pos + |Encode(last)| == |EncodeAll(front + [last])|
    ensures forall k | 0 <= k < |front + [last]| :: (front + [last])[k] != []
    ensures LoadFrom(s, pos, After(front, truncated, lookup), truncated, cutOk, lookup)
            == LoadFrom(s, end, After(front + [last], truncated, lookup), truncated, cutOk, lookup)
  {
    AfterStep(front, last, truncated, lookup, end);
    LoadStep(s, pos, last, end, After(front, truncated, lookup), truncated, cutOk, lookup);
  }

  /** The first k commands of the log lie wholly inside its first n bytes, and the next one does not. */
  predicate WholeCommands(cmds: seq<Argv>, k: nat, n: nat) {
    && k <= |cmds| && |EncodeAll(cmds[..k])| <= n <= |EncodeAll(cmds)|
    && (k < |cmds| ==> n < |EncodeAll(cmds[..k + 1])|)
  }

  /** Where the bytes of a prefix of the log stand. */
  lemma {:induction false} PrefixParts(cmds: seq<Argv>, k: nat, n: nat)
    requires WholeCommands(cmds, k, n)
    ensures At(EncodeAll(cmds)[..n], 0, EncodeAll(cmds[..k]))
    ensures k < |cmds| ==> Cut(EncodeAll(cmds)[..n], |EncodeAll(cmds[..k])|, Encode(cmds[k]))
    ensures k == |cmds| ==> n == |EncodeAll(cmds[..k])|
  {
    SplitLog(cmds, k);
    PrefixAt(EncodeAll(cmds[..k]), EncodeAll(cmds[k..]), n);
    if k < |cmds| {
      SplitAround(cmds, k);
      PrefixCut(EncodeAll(cmds[..k]), Encode(cmds[k]), EncodeAll(cmds[k + 1..]), n);
    } else {
      assert cmds[..k] == cmds;
    }
  }

  lemma {:induction false} SplitLog(cmds: seq<Argv>, k: nat)
    requires k <= |cmds|
    ensures EncodeAll(cmds) == EncodeAll(cmds[..k]) + EncodeAll(cmds[k..])
  {
    assert cmds[..k] + cmds[k..] == cmds;
    EncodeAllConcat(cmds[..k], cmds[k..]);
  }

  lemma {:induction false} SplitAround(cmds: seq<Argv>, k: nat)
    requires k < |cmds|
    ensures EncodeAll(cmds[..k + 1]) == EncodeAll(cmds[..k]) + Encode(cmds[k])
    ensures EncodeAll(cmds) == (EncodeAll(cmds[..k]) + Encode(cmds[k])) + EncodeAll(cmds[k + 1..])
  {
    assert cmds[..k + 1] == cmds[..k] + [cmds[k]];
    EncodeAllAppend(cmds[..k], cmds[k]);
    SplitLog(cmds, k + 1);
  }

  lemma {:induction false} PrefixAt(head: Bytes, tail: Bytes, n: nat)
    requires |head| <= n <= |head| + |tail|
    ensures At((head + tail)[..n], 0, head)
  {
    assert (head + tail)[..n][0..|head|] == head;
  }

  lemma {:induction false} PrefixCut(head: Bytes, e: Bytes, tail: Bytes, n: nat)
    requires |head| <= n < |head| + |e|
    ensures Cut(((head + e) + tail)[..n], |head|, e)
  {
    assert ((head + e) + tail)[..n][|head|..] == e[..n - |head|];
  }

  /** The state of the loader at the cut. */
  lemma {:induction false} LoadPrefix(cmds: seq<Argv>, k: nat, n: nat, truncated: bool, cutOk: bool,
                                      lookup: Bytes -> Kind)
    requires Loadable(cmds, lookup) && WholeCommands(cmds, k, n)
    ensures var p := After(cmds[..k], truncated, lookup);
            LoadFrom(EncodeAll(cmds)[..n], 0, Start(), truncated, cutOk, lookup)
            == if n == |EncodeAll(cmds[..k])| then AtEnd(p, truncated, cutOk)
               else AtUnexpectedEnd(p.client, p.valid, truncated, cutOk)
  {
    var s := EncodeAll(cmds)[..n];
    PrefixParts(cmds, k, n);
    LoadReaches(s, cmds[..k], truncated, cutOk, lookup);
    if n != |EncodeAll(cmds[..k])| {
      CommandCut(s, |EncodeAll(cmds[..k])|, cmds[k]);
    }
  }

  /** With aof-load-truncated every prefix of a log loads, and exactly the
      commands lying wholly inside it are processed. The log is cut back to
      where they end, or, when the log ends with them inside an open
      transaction, to where the last MULTI begins. */
  lemma {:induction false} TruncatedLogLoads(cmds: seq<Argv>, k: nat, n: nat, lookup: Bytes -> Kind)
    requires Loadable(cmds, lookup) && WholeCommands(cmds, k, n)
    ensures var whole := cmds[..k];
            var ran, open := RunAll(whole, lookup).ran, RunAll(whole, lookup).multi;
            LoadFrom(EncodeAll(cmds)[..n], 0, Start(), true, true, lookup)
            == if n != |EncodeAll(whole)| then Truncated(ran, |EncodeAll(whole)|)
               else if open then Truncated(ran, LastMulti(whole, lookup))
               else Loaded(ran)
  {
    LoadPrefix(cmds, k, n, true, true, lookup);
  }

  /** Without transactions, what is run are the commands themselves. */
  lemma {:induction false} PlainRun(cmds: seq<Argv>, lookup: Bytes -> Kind)
    requires forall k | 0 <= k < |cmds| :: cmds[k] != [] && lookup(cmds[k][0]) == Plain
    ensures RunAll(cmds, lookup) == Client(cmds, [], false)
  {
    if cmds != [] {
      PlainRun(cmds[..|cmds| - 1], lookup);
      assert cmds == cmds[..|cmds| - 1] + [cmds[|cmds| - 1]];
    }
  }

  lemma {:induction false} TruncatedPlainLogLoads(cmds: seq<Argv>, k: nat, n: nat, lookup: Bytes -> Kind)
    requires Loadable(cmds, lookup) && WholeCommands(cmds, k, n)
    requires forall i | 0 <= i < |cmds| :: lookup(cmds[i][0]) == Plain
    ensures LoadFrom(EncodeAll(cmds)[..n], 0, Start(), true, true, lookup)
            == if n == |EncodeAll(cmds[..k])| then Loaded(cmds[..k]) else Truncated(cmds[..k], |EncodeAll(cmds[..k])|)
  {
    TruncatedLogLoads(cmds, k, n, lookup);
    PlainRun(cmds[..k], lookup);
  }

  /** Without aof-load-truncated a log loads exactly when it ends at a command
      boundary outside a transaction. */
  lemma {:induction false} StrictLoad(cmds: seq<Argv>, k: nat, n: nat, cutOk: bool, lookup: Bytes -> Kind)
    requires Loadable(cmds, lookup) && WholeCommands(cmds, k, n)
    ensures var r := LoadFrom(EncodeAll(cmds)[..n], 0, Start(), false, cutOk, lookup);
            var whole := cmds[..k];
            r == if n == |EncodeAll(whole)| && !RunAll(whole, lookup).multi then Loaded(RunAll(whole, lookup).ran)
                 else UnexpectedEnd
  {
    LoadPrefix(cmds, k, n, false, cutOk, lookup);
  }

  /** A log cut back to its last whole command loads without complaint, and
      runs the same commands, exactly when no transaction was open there. Inside
      an open one, the first load cuts only the broken command off, and the
      log needs a second cut. */
  lemma {:induction false} CutLogLoadsAgain(cmds: seq<Argv>, k: nat, n: nat, lookup: Bytes -> Kind)
    requires Loadable(cmds, lookup) && WholeCommands(cmds, k, n)
    ensures var cut := |EncodeAll(cmds[..k])|;
            LoadFrom(EncodeAll(cmds)[..n][..cut], 0, Start(), false, true, lookup)
            == if RunAll(cmds[..k], lookup).multi then UnexpectedEnd else Loaded(RunAll(cmds[..k], lookup).ran)
  {
    var cut := |EncodeAll(cmds[..k])|;
    PrefixParts(cmds, k, n);
    assert EncodeAll(cmds)[..n][..cut] == EncodeAll(cmds[..k]) == EncodeAll(cmds[..k])[..cut];
    assert cmds[..k][..k] == cmds[..k];
    StrictLoad(cmds[..k], k, cut, true, lookup);
  }

  const MULTI: Bytes := [77, 85, 76, 84, 73]
  const PING: Bytes := [80, 73, 78, 71]

  /** A MULTI and the first byte of a PING: the first load cuts the PING off, and
      without aof-load-truncated the second one fails on the MULTI that is left. */
  lemma {:induction false} CutInTransaction(lookup: Bytes -> Kind)
    requires lookup(MULTI) == Multi && lookup(PING) == Plain
    ensures var log, cut := EncodeAll([[MULTI], [PING]]), |EncodeAll([[MULTI]])|;
            && cut < |log|
            && LoadFrom(log[..cut + 1], 0, Start(), true, true, lookup) == Truncated([], cut)
            && LoadFrom(log[..cut + 1][..cut], 0, Start(), false, true, lookup) == UnexpectedEnd
  {
    var cmds: seq<Argv> := [[MULTI], [PING]];
    var cut := |EncodeAll([[MULTI]])|;
    assert cmds[..1] == [[MULTI]] && cmds[..2] == cmds == [[MULTI]] + [[PING]];
    EncodeAllAppend([[MULTI]], [PING]);
    assert |Encode([PING])| >= 2;
    assert WholeCommands(cmds, 1, cut + 1);
    OpenMulti(lookup);
    TruncatedLogLoads(cmds, 1, cut + 1, lookup);
    CutLogLoadsAgain(cmds, 1, cut + 1, lookup);
  }

  lemma {:induction false} OpenMulti(lookup: Bytes -> Kind)
    requires lookup(MULTI) == Multi
    ensures RunAll([[MULTI]], lookup) == Client([], [], true)
  {
    var cmds: seq<Argv> := [[MULTI]];
    assert cmds[..|cmds| - 1] == [];
  }

  /** The log of an encoder is never taken for one with an RDB preamble. */
  lemma {:induction false} NoPreamble(cmds: seq<Argv>, n: nat)
    requires 0 < n <= |EncodeAll(cmds)|
    ensures EncodeAll(cmds)[..n][0] == STAR && !(REDIS <= EncodeAll(cmds)[..n])
  {
    FirstByte(cmds);
  }

  lemma {:induction false} FirstByte(cmds: seq<Argv>)
    requires cmds != []
    ensures EncodeAll(cmds) != [] && EncodeAll(cmds)[0] == STAR
  {
    var front, last := cmds[..|cmds| - 1], cmds[|cmds| - 1];
    assert Encode(last)[0] == STAR;
    if front != [] {
      FirstByte(front);
    }
  }
}
