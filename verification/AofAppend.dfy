/** What becomes of the commands that a server appends to its log after loading it
    with aof-load-truncated: a log cut inside an open transaction keeps the MULTI,
    and the next load takes the new commands for part of that transaction. */
module AofAppend {
  import opened Resp
  import opened AofLoad

  /** MULTI only outside a transaction and EXEC only inside one, as the server logs them. */
  predicate Balanced(cmds: seq<Argv>, lookup: Bytes -> Kind)
    requires forall k | 0 <= k < |cmds| :: cmds[k] != []
  {
    forall k | 0 <= k < |cmds| :: BalancedAt(cmds[..k], cmds[k], lookup)
  }

  predicate BalancedAt(before: seq<Argv>, argv: Argv, lookup: Bytes -> Kind)
    requires argv != [] && forall k | 0 <= k < |before| :: before[k] != []
  {
    && (lookup(argv[0]) == Multi ==> !RunAll(before, lookup).multi)
    && (lookup(argv[0]) == Exec ==> RunAll(before, lookup).multi)
  }

  predicate NoExec(cmds: seq<Argv>, lookup: Bytes -> Kind)
    requires forall k | 0 <= k < |cmds| :: cmds[k] != []
  {
    forall k | 0 <= k < |cmds| :: lookup(cmds[k][0]) != Exec
  }

  /** The fake client going on from c. */
  function RunFrom(c: Client, cmds: seq<Argv>, lookup: Bytes -> Kind): Client
    requires forall k | 0 <= k < |cmds| :: cmds[k] != []
  {
    if cmds == [] then c
    else
      var front, last := cmds[..|cmds| - 1], cmds[|cmds| - 1];
      Run(RunFrom(c, front, lookup), last, lookup(last[0]))
  }

  lemma {:induction false} RunAllConcat(a: seq<Argv>, b: seq<Argv>, lookup: Bytes -> Kind)
    requires (forall k | 0 <= k < |a| :: a[k] != []) && (forall k | 0 <= k < |b| :: b[k] != [])
    ensures RunAll(a + b, lookup) == RunFrom(RunAll(a, lookup), b, lookup)
    decreases |b|
  {
    if b == [] {
      assert a + b == a;
    } else {
      assert (a + b)[..|a + b| - 1] == a + b[..|b| - 1];
      RunAllConcat(a, b[..|b| - 1], lookup);
    }
  }

  lemma {:induction false} RunFromConcat(c: Client, a: seq<Argv>, b: seq<Argv>, lookup: Bytes -> Kind)
    requires (forall k | 0 <= k < |a| :: a[k] != []) && (forall k | 0 <= k < |b| :: b[k] != [])
    ensures RunFrom(c, a + b, lookup) == RunFrom(RunFrom(c, a, lookup), b, lookup)
    decreases |b|
  {
    if b == [] {
      assert a + b == a;
    } else {
      assert (a + b)[..|a + b| - 1] == a + b[..|b| - 1];
      RunFromConcat(c, a, b[..|b| - 1], lookup);
    }
  }

  lemma {:induction false} NothingQueued(cmds: seq<Argv>, lookup: Bytes -> Kind)
    requires forall k | 0 <= k < |cmds| :: cmds[k] != []
    ensures !RunAll(cmds, lookup).multi ==> RunAll(cmds, lookup).queue == []
  {
    if cmds != [] {
      NothingQueued(cmds[..|cmds| - 1], lookup);
    }
  }

  /** Outside a transaction the commands run as from the start. */
  lemma {:induction false} RunOutside(ran: seq<Argv>, cmds: seq<Argv>, lookup: Bytes -> Kind)
    requires forall k | 0 <= k < |cmds| :: cmds[k] != []
    ensures var d := RunAll(cmds, lookup);
            RunFrom(Client(ran, [], false), cmds, lookup) == Client(ran + d.ran, d.queue, d.multi)
    decreases |cmds|
  {
    if cmds == [] {
      assert ran + [] == ran;
    } else {
      var front, last := cmds[..|cmds| - 1], cmds[|cmds| - 1];
      RunOutside(ran, front, lookup);
      var d := RunAll(front, lookup);
      OneOutside(ran, d, last, lookup(last[0]));
    }
  }

  lemma {:induction false} OneOutside(ran: seq<Argv>, d: Client, argv: Argv, kind: Kind)
    ensures var e := Run(d, argv, kind);
            Run(Client(ran + d.ran, d.queue, d.multi), argv, kind) == Client(ran + e.ran, e.queue, e.multi)
  {
    assert (ran + d.ran) + d.queue == ran + (d.ran + d.queue);
    assert (ran + d.ran) + [argv] == ran + (d.ran + [argv]);
  }

  /** Inside one they are held back, whatever they are, until an EXEC. */
  lemma {:induction false} HeldBack(c: Client, cmds: seq<Argv>, lookup: Bytes -> Kind)
    requires c.multi && (forall k | 0 <= k < |cmds| :: cmds[k] != []) && NoExec(cmds, lookup)
    ensures RunFrom(c, cmds, lookup) == c.(queue := c.queue + cmds)
    decreases |cmds|
  {
    if cmds == [] {
      assert c.queue + [] == c.queue;
    } else {
      var front, last := cmds[..|cmds| - 1], cmds[|cmds| - 1];
      HeldBack(c, front, lookup);
      assert (c.queue + front) + [last] == c.queue + cmds;
    }
  }

  ghost predicate RunsMulti(cmds: seq<Argv>, lookup: Bytes -> Kind) {
    exists argv :: argv in cmds && argv != [] && lookup(argv[0]) == Multi
  }

  /** Of a balanced log no MULTI is ever queued or run. */
  lemma {:induction false} MultiNotRun(cmds: seq<Argv>, lookup: Bytes -> Kind)
    requires (forall k | 0 <= k < |cmds| :: cmds[k] != []) && Balanced(cmds, lookup)
    ensures var d := RunAll(cmds, lookup); !RunsMulti(d.ran, lookup) && !RunsMulti(d.queue, lookup)
    decreases |cmds|
  {
    if cmds != [] {
      var front, last := cmds[..|cmds| - 1], cmds[|cmds| - 1];
      BalancedFront(cmds, lookup);
      MultiNotRun(front, lookup);
      assert BalancedAt(cmds[..|cmds| - 1], last, lookup);
    }
  }

  lemma {:induction false} BalancedFront(cmds: seq<Argv>, lookup: Bytes -> Kind)
    requires cmds != [] && (forall k | 0 <= k < |cmds| :: cmds[k] != []) && Balanced(cmds, lookup)
    ensures Balanced(cmds[..|cmds| - 1], lookup)
  {
    var front := cmds[..|cmds| - 1];
    forall k | 0 <= k < |front| ensures BalancedAt(front[..k], front[k], lookup) {
      assert front[..k] == cmds[..k] && BalancedAt(cmds[..k], cmds[k], lookup);
    }
  }

  lemma {:induction false} MultiWasThere(cmds: seq<Argv>, lookup: Bytes -> Kind)
    requires (forall k | 0 <= k < |cmds| :: cmds[k] != []) && RunAll(cmds, lookup).multi
    ensures RunsMulti(cmds, lookup)
  {
    var front, last := cmds[..|cmds| - 1], cmds[|cmds| - 1];
    assert cmds == front + [last];
    if lookup(last[0]) == Multi {
      assert last in cmds;
    } else {
      MultiWasThere(front, lookup);
      var argv :| argv in front && argv != [] && lookup(argv[0]) == Multi;
      assert argv in cmds;
    }
  }

  /** Where the first EXEC stands. */
  lemma {:induction false} FirstExec(cmds: seq<Argv>, lookup: Bytes -> Kind) returns (j: nat)
    requires (forall k | 0 <= k < |cmds| :: cmds[k] != []) && !NoExec(cmds, lookup)
    ensures j < |cmds| && lookup(cmds[j][0]) == Exec && NoExec(cmds[..j], lookup)
  {
    var k :| 0 <= k < |cmds| && lookup(cmds[k][0]) == Exec;
    if NoExec(cmds[..k], lookup) {
      j := k;
    } else {
      j := FirstExec(cmds[..k], lookup);
      assert cmds[..k][..j] == cmds[..j];
    }
  }

  /** After an EXEC that ends the old transaction, its commands have been run, and
      the new ones before the EXEC with them. */
  lemma {:induction false} OldTransactionRuns(c: Client, cmds: seq<Argv>, j: nat, lookup: Bytes -> Kind)
    requires c.multi && (forall k | 0 <= k < |cmds| :: cmds[k] != []) && j < |cmds|
    requires lookup(cmds[j][0]) == Exec && NoExec(cmds[..j], lookup)
    ensures c.ran + (c.queue + cmds[..j]) <= RunFrom(c, cmds, lookup).ran
  {
    var a, b := cmds[..j + 1], cmds[j + 1..];
    assert a[..j] == cmds[..j] && a[j] == cmds[j] && a + b == cmds;
    HeldBack(c, cmds[..j], lookup);
    assert RunFrom(c, a, lookup) == Client(c.ran + (c.queue + cmds[..j]), [], false);
    RunFromConcat(c, a, b, lookup);
    RunOutside(c.ran + (c.queue + cmds[..j]), b, lookup);
  }

  /** The new commands run as they were meant to if and only if no transaction is
      open before them. */
  lemma {:induction false} AppendedRunIff(base: seq<Argv>, more: seq<Argv>, lookup: Bytes -> Kind)
    requires (forall k | 0 <= k < |base| :: base[k] != []) && (forall k | 0 <= k < |more| :: more[k] != [])
    requires Balanced(more, lookup) && RunAll(more, lookup).ran != []
    ensures RunAll(base + more, lookup).ran == RunAll(base, lookup).ran + RunAll(more, lookup).ran
            <==> !RunAll(base, lookup).multi
  {
    var c := RunAll(base, lookup);
    RunAllConcat(base, more, lookup);
    NothingQueued(base, lookup);
    if !c.multi {
      RunOutside(c.ran, more, lookup);
    } else if NoExec(more, lookup) {
      HeldBack(c, more, lookup);
      assert |c.ran + RunAll(more, lookup).ran| > |c.ran|;
    } else {
      MixedRuns(c, more, lookup);
    }
  }

  lemma {:induction false} MixedRuns(c: Client, more: seq<Argv>, lookup: Bytes -> Kind)
    requires c.multi && (forall k | 0 <= k < |more| :: more[k] != [])
    requires Balanced(more, lookup) && !NoExec(more, lookup)
    ensures RunFrom(c, more, lookup).ran != c.ran + RunAll(more, lookup).ran
  {
    var j := FirstExec(more, lookup);
    OldTransactionRuns(c, more, j, lookup);
    assert BalancedAt(more[..j], more[j], lookup);
    MultiWasThere(more[..j], lookup);
    var argv :| argv in more[..j] && argv != [] && lookup(argv[0]) == Multi;
    MultiNotRun(more, lookup);
    TailHolds(c.ran, c.queue + more[..j], RunFrom(c, more, lookup).ran, argv);
  }

  lemma {:induction false} TailHolds(ran: seq<Argv>, next: seq<Argv>, all: seq<Argv>, argv: Argv)
    requires ran + next <= all && argv in next
    ensures forall rest :: all == ran + rest ==> argv in rest
  {
    var i :| 0 <= i < |next| && next[i] == argv;
    forall rest | all == ran + rest ensures argv in rest {
      assert rest[i] == all[|ran| + i] == (ran + next)[|ran| + i];
    }
  }

  // ------------------------------------------------------------ cut, append

  /** In a balanced log the last MULTI is the one that opened the transaction. */
  lemma {:induction false} LastMultiOpens(cmds: seq<Argv>, lookup: Bytes -> Kind)
    requires (forall k | 0 <= k < |cmds| :: cmds[k] != []) && Balanced(cmds, lookup) && RunAll(cmds, lookup).multi
    ensures LastMulti(cmds, lookup) == |EncodeAll(cmds[..BeforeOpen(cmds, lookup)])|
  {
    var front, last := cmds[..|cmds| - 1], cmds[|cmds| - 1];
    assert BalancedAt(front, last, lookup);
    if lookup(last[0]) == Multi {
      assert cmds[..|front|] == front;
    } else {
      BalancedFront(cmds, lookup);
      LastMultiOpens(front, lookup);
      assert cmds[..BeforeOpen(cmds, lookup)] == front[..BeforeOpen(front, lookup)];
    }
  }

  /** The log that a load with aof-load-truncated leaves behind. */
  function Remaining(file: Bytes, r: Outcome): Bytes {
    if r.Truncated? && r.validUpTo <= |file| then file[..r.validUpTo] else file
  }

  /** What is left after loading the first n bytes is a whole number of commands,
      and running them runs what was run; a transaction is open after them exactly
      when the log was cut inside a command of it. */
  lemma {:induction false} LeftBehind(cmds: seq<Argv>, k: nat, n: nat, lookup: Bytes -> Kind) returns (base: seq<Argv>)
    requires Loadable(cmds, lookup) && WholeCommands(cmds, k, n) && Balanced(cmds[..k], lookup)
    ensures Loadable(base, lookup)
    ensures var file := EncodeAll(cmds)[..n];
            var r := LoadFrom(file, 0, Start(), true, true, lookup);
            && (r.Loaded? || r.Truncated?) && Remaining(file, r) == EncodeAll(base) && r.ran == RunAll(base, lookup).ran
            && (RunAll(base, lookup).multi <==> RunAll(cmds[..k], lookup).multi && n != |EncodeAll(cmds[..k])|)
  {
    var whole, file := cmds[..k], EncodeAll(cmds)[..n];
    TruncatedLogLoads(cmds, k, n, lookup);
    WholePrefix(cmds, k, n);
    if n == |EncodeAll(whole)| && RunAll(whole, lookup).multi {
      base := whole[..BeforeOpen(whole, lookup)];
      LastMultiOpens(whole, lookup);
      OpenTransaction(whole, lookup);
      FrontPrefix(whole, BeforeOpen(whole, lookup));
      assert file == EncodeAll(whole);
    } else {
      base := whole;
    }
  }

  lemma {:induction false} WholePrefix(cmds: seq<Argv>, k: nat, n: nat)
    requires WholeCommands(cmds, k, n)
    ensures EncodeAll(cmds)[..n][..|EncodeAll(cmds[..k])|] == EncodeAll(cmds[..k])
    ensures n == |EncodeAll(cmds[..k])| ==> EncodeAll(cmds)[..n] == EncodeAll(cmds[..k])
  {
    PrefixParts(cmds, k, n);
    var file := EncodeAll(cmds)[..n];
    assert file[0..|EncodeAll(cmds[..k])|] == file[..|EncodeAll(cmds[..k])|];
    assert file[..|file|] == file;
  }

  lemma {:induction false} FrontPrefix(cmds: seq<Argv>, m: nat)
    requires m <= |cmds|
    ensures |EncodeAll(cmds[..m])| <= |EncodeAll(cmds)|
            && EncodeAll(cmds)[..|EncodeAll(cmds[..m])|] == EncodeAll(cmds[..m])
  {
    SplitLog(cmds, m);
  }

  /** A log is loaded, cut back if need be, and appended to. At the next load the
      new commands run after the old ones if and only if the log was not cut
      inside a command of an open transaction. */
  lemma {:induction false} NewCommandsKeptIff(cmds: seq<Argv>, k: nat, n: nat, more: seq<Argv>, lookup: Bytes -> Kind)
    requires Loadable(cmds, lookup) && WholeCommands(cmds, k, n) && Balanced(cmds[..k], lookup)
    requires Loadable(more, lookup) && Balanced(more, lookup) && RunAll(more, lookup).ran != []
    ensures var file := EncodeAll(cmds)[..n];
            var r := LoadFrom(file, 0, Start(), true, true, lookup);
            var again := LoadFrom(Remaining(file, r) + EncodeAll(more), 0, Start(), true, true, lookup);
            && (r.Loaded? || r.Truncated?) && (again.Loaded? || again.Truncated?)
            && (again.ran == r.ran + RunAll(more, lookup).ran
                <==> !(RunAll(cmds[..k], lookup).multi && n != |EncodeAll(cmds[..k])|))
  {
    var base := LeftBehind(cmds, k, n, lookup);
    var log := base + more;
    EncodeAllConcat(base, more);
    assert Loadable(log, lookup);
    WholeLogLoads(log, lookup);
    AppendedRunIff(base, more, lookup);
  }

  /** A MULTI and one byte of a PING: the load cuts the byte off, a PING is
      appended, and the next load runs nothing. */
  lemma {:induction false} AppendedIsLost(lookup: Bytes -> Kind)
    requires lookup(MULTI) == Multi && lookup(PING) == Plain
    ensures var file, cut := EncodeAll([[MULTI], [PING]]), |EncodeAll([[MULTI]])|;
            && cut < |file| && LoadFrom(file[..cut + 1], 0, Start(), true, true, lookup) == Truncated([], cut)
            && LoadFrom(file[..cut] + EncodeAll([[PING]]), 0, Start(), true, true, lookup).Truncated?
            && LoadFrom(file[..cut] + EncodeAll([[PING]]), 0, Start(), true, true, lookup).ran == []
  {
    var a: seq<Argv>, b: seq<Argv> := [[MULTI]], [[PING]];
    CutInTransaction(lookup);
    assert [[MULTI], [PING]] == a + b && (a + b)[..1] == a;
    FrontPrefix(a + b, 1);
    EncodeAllConcat(a, b);
    OpenMulti(lookup);
    RunAllConcat(a, b, lookup);
    HeldBack(RunAll(a, lookup), b, lookup);
    WholeLogLoads(a + b, lookup);
  }

  lemma {:induction false} WholeLogLoads(log: seq<Argv>, lookup: Bytes -> Kind)
    requires Loadable(log, lookup)
    ensures var r := LoadFrom(EncodeAll(log), 0, Start(), true, true, lookup);
            && (if RunAll(log, lookup).multi then r.Truncated? else r.Loaded?)
            && r.ran == RunAll(log, lookup).ran
  {
    assert log[..|log|] == log && EncodeAll(log)[..|EncodeAll(log)|] == EncodeAll(log);
    TruncatedLogLoads(log, |log|, |EncodeAll(log)|, lookup);
  }
}
