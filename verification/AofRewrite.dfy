/** Rewriting the append-only file in the background (aof.c): the parent goes on
    serving commands and feeding the log, a forked child writes the dataset of
    the moment of the fork, the difference travels through buffer and pipe, and
    a stop/ack handshake separates what the child appends from what the parent
    appends to the new file. */
module AofRewrite {
  import opened Collections
  import opened Resp
  import AofLoad

  // ---------------------------------------------------- meaning of a log

  const SELECT: Bytes := [83, 69, 76, 69, 67, 84]

  function SelectCommand(db: nat): Argv {
    [SELECT, Decimal(db)]
  }

  /** A dataset of any kind and what commands do to it. */
  datatype Semantics<!D> = Semantics(empty: D, apply: (D, nat, Argv) -> D)

  /** A dataset, and the DB the replaying client has selected. */
  datatype Replayed<D> = Replayed(db: nat, data: D)

  function ReplayOne<D>(r: Replayed<D>, argv: Argv, sem: Semantics<D>): Replayed<D> {
    if |argv| == 2 && argv[0] == SELECT then
      var n := Number(argv[1], 0);
      if n >= 0 then r.(db := n) else r
    else r.(data := sem.apply(r.data, r.db, argv))
  }

  function ReplayFrom<D>(r: Replayed<D>, log: seq<Argv>, sem: Semantics<D>): Replayed<D> {
    if log == [] then r else ReplayOne(ReplayFrom(r, log[..|log| - 1], sem), log[|log| - 1], sem)
  }

  /** Loading starts with the empty dataset and DB 0. */
  function Replay<D>(log: seq<Argv>, sem: Semantics<D>): Replayed<D> {
    ReplayFrom(Replayed(0, sem.empty), log, sem)
  }

  function ApplyAll<D>(d: D, db: nat, cmds: seq<Argv>, sem: Semantics<D>): D {
    if cmds == [] then d else sem.apply(ApplyAll(d, db, cmds[..|cmds| - 1], sem), db, cmds[|cmds| - 1])
  }

  lemma {:induction false} ReplayConcat<D>(r: Replayed<D>, a: seq<Argv>, b: seq<Argv>, sem: Semantics<D>)
    ensures ReplayFrom(r, a + b, sem) == ReplayFrom(ReplayFrom(r, a, sem), b, sem)
  {
    if b == [] {
      assert a + b == a;
    } else {
      assert (a + b)[..|a + b| - 1] == a + b[..|b| - 1];
      ReplayConcat(r, a, b[..|b| - 1], sem);
    }
  }

  lemma {:induction false} ReplaySingle<D>(r: Replayed<D>, argv: Argv, sem: Semantics<D>)
    ensures ReplayFrom(r, [argv], sem) == ReplayOne(r, argv, sem)
  {
    var log: seq<Argv> := [argv];
    assert log[..|log| - 1] == [];
  }

  /** A command the server writes to the log for a client; SELECT is not one of them. */
  predicate Loggable(argv: Argv) {
    Fits(argv) && argv[0] != SELECT
  }

  lemma {:induction false} ReplayPlain<D>(r: Replayed<D>, cmds: seq<Argv>, sem: Semantics<D>)
    requires forall k | 0 <= k < |cmds| :: Loggable(cmds[k])
    ensures ReplayFrom(r, cmds, sem) == Replayed(r.db, ApplyAll(r.data, r.db, cmds, sem))
  {
    if cmds != [] {
      ReplayPlain(r, cmds[..|cmds| - 1], sem);
    }
  }

  lemma {:induction false} SelectedNumber(db: nat)
    ensures Number(Decimal(db), 0) == db
  {
    DecimalDigits(db);
    assert Decimal(db)[0..|Decimal(db)|] == Decimal(db);
    DigitsFold(Decimal(db), 0, Decimal(db), 0);
    FoldDecimal(db);
  }

  // --------------------------------------------------------------- feeding

  /** server.aof_selected_db; NoDb is -1. */
  datatype Selected = NoDb | Db(n: nat)

  /** What feedAppendOnlyFile writes for the commands of one call: a SELECT if
      the log is not known to be in that DB, then the commands. */
  function FeedCommands(selected: Selected, db: nat, cmds: seq<Argv>): seq<Argv> {
    (if selected == Db(db) then [] else [SelectCommand(db)]) + cmds
  }

  /** The log was in the DB that `selected` names, if it names one. Then the fed
      commands act on the DB they were issued for, and afterwards the log is in
      that DB. */
  lemma {:induction false} FeedReplays<D>(r: Replayed<D>, selected: Selected, db: nat, cmds: seq<Argv>,
                                          sem: Semantics<D>)
    requires selected.Db? ==> r.db == selected.n
    requires forall k | 0 <= k < |cmds| :: Loggable(cmds[k])
    ensures ReplayFrom(r, FeedCommands(selected, db, cmds), sem) == Replayed(db, ApplyAll(r.data, db, cmds, sem))
  {
    if selected == Db(db) {
      assert FeedCommands(selected, db, cmds) == cmds;
      ReplayPlain(r, cmds, sem);
    } else {
      ReplayConcat(r, [SelectCommand(db)], cmds, sem);
      SelectedNumber(db);
      ReplaySingle(r, SelectCommand(db), sem);
      assert ReplayFrom(r, [SelectCommand(db)], sem) == r.(db := db);
      ReplayPlain(r.(db := db), cmds, sem);
    }
  }

  // ----------------------------------------------------------- the servers

  datatype Phase = Writing | Asked | Finished(tmp: Bytes) | Broken

  /** The child: what it wrote of the dataset, the difference it has received. */
  datatype Child = Child(snapshot: Bytes, diff: Bytes, phase: Phase)

  datatype Mode = Off | WaitRewrite | On

  /** `log`, `snap` and `since` record the commands in the log, in the child's
      snapshot, and fed since the fork. */
  datatype Server<D> = Server(
    mode: Mode, live: D, selected: Selected,
    file: Bytes, buf: Bytes,
    child: Option<Child>, blocks: Bytes, pipe: Bytes, stop: bool, asks: bool, acks: bool,
    log: seq<Argv>, snap: seq<Argv>, since: seq<Argv>)

  datatype Step =
    | Command(db: nat, cmds: seq<Argv>)
    | Flush(n: nat)
    | Fork(dump: seq<Argv>)
    | Send(n: nat)
    | Receive(n: nat)
    | Ask
    | StopSending(acked: bool)
    | Finish
    | Fail
    | Complete(written: bool)
    | Abandon
    | TurnOff(n: nat)
    | TurnOn

  ghost predicate Enabled<D>(s: Server<D>, step: Step, sem: Semantics<D>) {
    match step
    case Command(db, cmds) => cmds != [] && db < SIZE_LIMIT && forall k | 0 <= k < |cmds| :: Loggable(cmds[k])
    case Flush(n) => s.mode == On && n <= |s.buf|
    case Fork(dump) =>
      && s.child.None? && (forall k | 0 <= k < |dump| :: Fits(dump[k]))
      && Replay(dump, sem).data == s.live
    case Send(n) => s.child.Some? && !s.stop && n <= |s.blocks|
    case Receive(n) => s.child.Some? && s.child.value.phase in {Writing, Asked} && n <= |s.pipe|
    case Ask => s.child.Some? && s.child.value.phase == Writing
    case StopSending(acked) => s.child.Some? && s.asks
    case Finish => s.child.Some? && s.child.value.phase == Asked && s.acks
    case Fail => s.child.Some? && !s.child.value.phase.Finished?
    case Complete(written) => s.child.Some? && s.child.value.phase.Finished?
    case Abandon => s.child.Some?
    case TurnOff(n) => s.mode != Off && n <= |s.buf|
    case TurnOn => s.mode == Off
  }

  /** The cleanup of backgroundRewriteDoneHandler and of killAppendOnlyChild. */
  function WithoutChild<D>(s: Server<D>): Server<D> {
    s.(child := None, blocks := [], pipe := [], stop := false, asks := false, acks := false, snap := [], since := [])
  }

  function Feed<D>(s: Server<D>, db: nat, cmds: seq<Argv>): Server<D> {
    var fed := FeedCommands(s.selected, db, cmds);
    var t := s.(selected := Db(db));
    var u := if s.mode == On then t.(buf := s.buf + EncodeAll(fed), log := s.log + fed) else t;
    if s.child.Some? then u.(blocks := s.blocks + EncodeAll(fed), since := s.since + fed) else u
  }

  function Forked<D>(s: Server<D>, dump: seq<Argv>): Server<D> {
    WithoutChild(s).(child := Some(Child(EncodeAll(dump), [], Writing)), snap := dump, selected := NoDb)
  }

  function WithPhase<D>(s: Server<D>, phase: Phase): Server<D>
    requires s.child.Some?
  {
    s.(child := Some(s.child.value.(phase := phase)))
  }

  /** backgroundRewriteDoneHandler after a child that ended well. */
  function Completed<D>(s: Server<D>, tmp: Bytes, written: bool): Server<D> {
    if !written then WithoutChild(s)
    else if s.mode == Off then WithoutChild(s.(file := tmp + s.blocks))
    else WithoutChild(s.(file := tmp + s.blocks, buf := [], selected := NoDb, mode := On, log := s.snap + s.since))
  }

  function Do<D>(s: Server<D>, step: Step, sem: Semantics<D>): Server<D>
    requires Enabled(s, step, sem)
  {
    match step
    case Command(db, cmds) =>
      var live := ApplyAll(s.live, db, cmds, sem);
      if s.mode == Off then s.(live := live) else Feed(s, db, cmds).(live := live)
    case Flush(n) => s.(file := s.file + s.buf[..n], buf := s.buf[n..])
    case Fork(dump) => Forked(s, dump)
    case Send(n) => s.(pipe := s.pipe + s.blocks[..n], blocks := s.blocks[n..])
    case Receive(n) =>
      s.(child := Some(s.child.value.(diff := s.child.value.diff + s.pipe[..n])), pipe := s.pipe[n..])
    case Ask => WithPhase(s, Asked).(asks := true)
    case StopSending(acked) => s.(stop := true, asks := false, acks := acked)
    case Finish =>
      var diff := s.child.value.diff + s.pipe;
      s.(child := Some(Child(s.child.value.snapshot, diff, Finished(s.child.value.snapshot + diff))), pipe := [],
        acks := false)
    case Fail => WithPhase(s, Broken)
    case Complete(written) => Completed(s, s.child.value.phase.tmp, written)
    case Abandon => WithoutChild(s)
    case TurnOff(n) => WithoutChild(s.(file := s.file + s.buf[..n], buf := s.buf[n..], selected := NoDb, mode := Off))
    case TurnOn => WithoutChild(s.(mode := WaitRewrite))
  }

  // ------------------------------------------------------------- invariant

  /** A log rebuilds the live dataset, and is in the selected DB. */
  ghost predicate Describes<D>(log: seq<Argv>, s: Server<D>, sem: Semantics<D>) {
    && (forall k | 0 <= k < |log| :: Fits(log[k]))
    && Replay(log, sem).data == s.live
    && (s.selected.Db? ==> Replay(log, sem).db == s.selected.n)
  }

  /** Nothing fed since the fork is lost, repeated or reordered on its way. */
  ghost predicate Conserved<D>(s: Server<D>) {
    s.child.Some? ==>
      && s.child.value.snapshot == EncodeAll(s.snap)
      && s.child.value.diff + s.pipe + s.blocks == EncodeAll(s.since)
  }

  ghost predicate Handshake<D>(s: Server<D>) {
    && (s.acks ==> s.stop)
    && (s.child.Some? && s.child.value.phase.Finished? ==>
          && s.stop && s.pipe == [] && s.child.value.phase.tmp == s.child.value.snapshot + s.child.value.diff)
  }

  ghost predicate Inv<D>(s: Server<D>, sem: Semantics<D>) {
    LogInv(s, sem) && ChildInv(s, sem)
  }

  ghost predicate LogInv<D>(s: Server<D>, sem: Semantics<D>) {
    s.mode == On ==> s.file + s.buf == EncodeAll(s.log) && Describes(s.log, s, sem)
  }

  ghost predicate ChildInv<D>(s: Server<D>, sem: Semantics<D>) {
    && Conserved(s) && Handshake(s)
    && (s.mode != Off && s.child.Some? ==> Describes(s.snap + s.since, s, sem))
  }

  lemma {:induction false} DescribesMore<D>(log: seq<Argv>, s: Server<D>, t: Server<D>, db: nat, cmds: seq<Argv>,
                                            sem: Semantics<D>)
    requires Describes(log, s, sem) && (forall k | 0 <= k < |cmds| :: Loggable(cmds[k])) && db < SIZE_LIMIT
    requires t.live == ApplyAll(s.live, db, cmds, sem) && t.selected == Db(db)
    ensures Describes(log + FeedCommands(s.selected, db, cmds), t, sem)
  {
    var fed := FeedCommands(s.selected, db, cmds);
    ReplayConcat(Replayed(0, sem.empty), log, fed, sem);
    FeedReplays(Replay(log, sem), s.selected, db, cmds, sem);
    FedFits(log, s.selected, db, cmds);
  }

  lemma {:induction false} FedFits(log: seq<Argv>, selected: Selected, db: nat, cmds: seq<Argv>)
    requires (forall k | 0 <= k < |log| :: Fits(log[k])) && (forall k | 0 <= k < |cmds| :: Loggable(cmds[k]))
    requires db < SIZE_LIMIT
    ensures var all := log + FeedCommands(selected, db, cmds); forall k | 0 <= k < |all| :: Fits(all[k])
  {
    HeaderFits(db);
    assert Fits(SelectCommand(db));
  }

  lemma {:induction false} CommandKept<D>(s: Server<D>, db: nat, cmds: seq<Argv>, sem: Semantics<D>)
    requires Inv(s, sem) && Enabled(s, Command(db, cmds), sem)
    ensures Inv(Do(s, Command(db, cmds), sem), sem)
  {
    if s.mode == On {
      CommandInLog(s, db, cmds, sem);
    }
    if s.mode != Off && s.child.Some? {
      CommandInDiff(s, db, cmds, sem);
    }
  }

  lemma {:induction false} CommandInLog<D>(s: Server<D>, db: nat, cmds: seq<Argv>, sem: Semantics<D>)
    requires LogInv(s, sem) && Enabled(s, Command(db, cmds), sem) && s.mode == On
    ensures LogInv(Do(s, Command(db, cmds), sem), sem)
  {
    LogFed(s.file, s.buf, s.log, FeedCommands(s.selected, db, cmds));
    DescribesMore(s.log, s, Do(s, Command(db, cmds), sem), db, cmds, sem);
  }

  lemma {:induction false} CommandInDiff<D>(s: Server<D>, db: nat, cmds: seq<Argv>, sem: Semantics<D>)
    requires ChildInv(s, sem) && Enabled(s, Command(db, cmds), sem) && s.mode != Off && s.child.Some?
    ensures ChildInv(Do(s, Command(db, cmds), sem), sem)
  {
    var fed := FeedCommands(s.selected, db, cmds);
    var t := Do(s, Command(db, cmds), sem);
    assert t.blocks == s.blocks + EncodeAll(fed) && t.since == s.since + fed && t.pipe == s.pipe && t.child == s.child;
    LogFed(s.child.value.diff + s.pipe, s.blocks, s.since, fed);
    SinceDescribes(s, t, db, cmds, sem);
  }

  lemma {:induction false} SinceDescribes<D>(s: Server<D>, t: Server<D>, db: nat, cmds: seq<Argv>, sem: Semantics<D>)
    requires Describes(s.snap + s.since, s, sem) && (forall k | 0 <= k < |cmds| :: Loggable(cmds[k])) && db < SIZE_LIMIT
    requires t.live == ApplyAll(s.live, db, cmds, sem) && t.selected == Db(db)
    requires t.snap == s.snap && t.since == s.since + FeedCommands(s.selected, db, cmds)
    ensures Describes(t.snap + t.since, t, sem)
  {
    DescribesMore(s.snap + s.since, s, t, db, cmds, sem);
    var fed := FeedCommands(s.selected, db, cmds);
    assert s.snap + (s.since + fed) == (s.snap + s.since) + fed;
  }

  lemma {:induction false} LogFed(head: Bytes, tail: Bytes, log: seq<Argv>, fed: seq<Argv>)
    requires head + tail == EncodeAll(log)
    ensures head + (tail + EncodeAll(fed)) == EncodeAll(log + fed)
  {
    EncodeAllConcat(log, fed);
    Regroup(head, tail, EncodeAll(fed));
  }

  lemma {:induction false} ForkKept<D>(s: Server<D>, dump: seq<Argv>, sem: Semantics<D>)
    requires Inv(s, sem) && Enabled(s, Fork(dump), sem)
    ensures Inv(Do(s, Fork(dump), sem), sem)
  {
    assert dump + [] == dump;
    var none: Bytes := [];
    assert none + none + none == none;
  }

  lemma {:induction false} SendMoves(diff: Bytes, pipe: Bytes, blocks: Bytes, n: nat)
    requires n <= |blocks|
    ensures diff + (pipe + blocks[..n]) + blocks[n..] == diff + pipe + blocks
  {
    Regroup(diff, pipe, blocks[..n]);
    Regroup(diff + pipe, blocks[..n], blocks[n..]);
    assert blocks[..n] + blocks[n..] == blocks;
  }

  lemma {:induction false} ReceiveMoves(diff: Bytes, pipe: Bytes, blocks: Bytes, n: nat)
    requires n <= |pipe|
    ensures (diff + pipe[..n]) + pipe[n..] + blocks == diff + pipe + blocks
  {
    Regroup(diff, pipe[..n], pipe[n..]);
    assert pipe[..n] + pipe[n..] == pipe;
  }

  /** Bytes move from blocks to pipe, from pipe to child. */
  lemma {:induction false} MoveKept<D>(s: Server<D>, step: Step, sem: Semantics<D>)
    requires Inv(s, sem) && Enabled(s, step, sem) && (step.Send? || step.Receive? || step.Finish?)
    ensures Inv(Do(s, step, sem), sem)
  {
    var c := s.child.value;
    match step
    case Send(n) => SendMoves(c.diff, s.pipe, s.blocks, n);
    case Receive(n) => ReceiveMoves(c.diff, s.pipe, s.blocks, n);
    case Finish => assert (c.diff + s.pipe) + [] == c.diff + s.pipe;
  }

  /** The new file is the snapshot and everything fed since the fork. */
  lemma {:induction false} CompleteKept<D>(s: Server<D>, written: bool, sem: Semantics<D>)
    requires Inv(s, sem) && Enabled(s, Complete(written), sem)
    ensures Inv(Do(s, Complete(written), sem), sem)
    ensures written ==> Do(s, Complete(written), sem).file == EncodeAll(s.snap + s.since)
  {
    var c := s.child.value;
    NewFile(c.snapshot, c.diff, s.pipe, s.blocks, s.snap, s.since);
    assert EncodeAll(s.snap + s.since) + [] == EncodeAll(s.snap + s.since);
  }

  lemma {:induction false} NewFile(snapshot: Bytes, diff: Bytes, pipe: Bytes, blocks: Bytes, snap: seq<Argv>,
                                   since: seq<Argv>)
    requires snapshot == EncodeAll(snap) && diff + pipe + blocks == EncodeAll(since)
    ensures pipe == [] ==> (snapshot + diff) + blocks == EncodeAll(snap + since)
  {
    EncodeAllConcat(snap, since);
    assert pipe == [] ==> diff + pipe == diff;
    Regroup(snapshot, diff, blocks);
  }

  lemma {:induction false} FlushKept<D>(s: Server<D>, n: nat, sem: Semantics<D>)
    requires Inv(s, sem) && s.mode == On && n <= |s.buf|
    ensures Inv(Do(s, Flush(n), sem), sem)
  {
    assert s.buf == s.buf[..n] + s.buf[n..];
    assert (s.file + s.buf[..n]) + s.buf[n..] == s.file + s.buf;
  }

  lemma {:induction false} InvKept<D>(s: Server<D>, step: Step, sem: Semantics<D>)
    requires Inv(s, sem) && Enabled(s, step, sem)
    ensures Inv(Do(s, step, sem), sem)
  {
    match step
    case Command(db, cmds) => CommandKept(s, db, cmds, sem);
    case Flush(n) => FlushKept(s, n, sem);
    case Fork(dump) => ForkKept(s, dump, sem);
    case Send(_) => MoveKept(s, step, sem);
    case Receive(_) => MoveKept(s, step, sem);
    case Finish => MoveKept(s, step, sem);
    case Complete(written) => CompleteKept(s, written, sem);
    case _ =>
  }

  // ------------------------------------------------------------------ runs

  /** A server that has just loaded its file (which may be empty). */
  ghost predicate Initial<D>(s: Server<D>, sem: Semantics<D>) {
    && s.selected == NoDb && s.file == EncodeAll(s.log) && s.buf == [] && Describes(s.log, s, sem)
    && s.child.None? && s.blocks == [] && s.pipe == [] && !s.stop && !s.asks && !s.acks
    && s.snap == [] && s.since == []
  }

  ghost predicate IsRun<D(!new)>(steps: seq<Step>, trace: seq<Server<D>>, sem: Semantics<D>) {
    && |trace| == |steps| + 1 && Initial(trace[0], sem)
    && forall i | 0 <= i < |steps| :: Enabled(trace[i], steps[i], sem) && trace[i + 1] == Do(trace[i], steps[i], sem)
  }

  lemma {:induction false} RunsKeepInv<D(!new)>(steps: seq<Step>, trace: seq<Server<D>>, sem: Semantics<D>, i: nat)
    requires IsRun(steps, trace, sem) && i <= |steps|
    ensures Inv(trace[i], sem)
  {
    if i == 0 {
      assert trace[0].file + trace[0].buf == trace[0].file;
    } else {
      RunsKeepInv(steps, trace, sem, i - 1);
      InvKept(trace[i - 1], steps[i - 1], sem);
    }
  }

  /** MULTI and EXEC by themselves do nothing to a dataset, and SELECT is a plain command. */
  ghost predicate Transparent<D(!new)>(sem: Semantics<D>, lookup: Bytes -> AofLoad.Kind) {
    && lookup(SELECT) == AofLoad.Plain
    && forall d, db, argv: Argv ::
         argv != [] && lookup(argv[0]) in {AofLoad.Multi, AofLoad.Exec} ==> sem.apply(d, db, argv) == d
  }

  lemma {:induction false} BracketReplays<D(!new)>(r: Replayed<D>, argv: Argv, sem: Semantics<D>,
                                                   lookup: Bytes -> AofLoad.Kind)
    requires Transparent(sem, lookup) && argv != [] && lookup(argv[0]) in {AofLoad.Multi, AofLoad.Exec}
    ensures ReplayOne(r, argv, sem) == r
  {
    assert argv[0] != SELECT;
  }

  /** The loader runs the commands of a log in an order that means the same: what
      it has run and what it has queued, replayed, is the log replayed. */
  lemma {:induction false} TransactionsReplay<D(!new)>(log: seq<Argv>, sem: Semantics<D>, lookup: Bytes -> AofLoad.Kind)
    requires Transparent(sem, lookup) && AofLoad.Loadable(log, lookup)
    ensures var c := AofLoad.RunAll(log, lookup);
            && (!c.multi ==> c.queue == [])
            && Replay(c.ran + c.queue, sem) == Replay(log, sem)
  {
    if log != [] {
      var front, last := log[..|log| - 1], log[|log| - 1];
      TransactionsReplay(front, sem, lookup);
      var c, d := AofLoad.RunAll(front, lookup), AofLoad.RunAll(log, lookup);
      var kind := lookup(last[0]);
      if (c.multi && kind != AofLoad.Exec) || kind == AofLoad.Plain {
        assert d.ran + d.queue == (c.ran + c.queue) + [last];
        ReplayAppend(c.ran + c.queue, last, sem);
      } else {
        assert d.ran + d.queue == c.ran + c.queue;
        BracketReplays(Replay(front, sem), last, sem, lookup);
      }
    }
  }

  lemma {:induction false} ReplayAppend<D>(log: seq<Argv>, argv: Argv, sem: Semantics<D>)
    ensures Replay(log + [argv], sem) == ReplayOne(Replay(log, sem), argv, sem)
  {
    assert (log + [argv])[..|log|] == log;
  }

  /** In every run and at every moment at which the log is on and outside a
      transaction, whatever rewrites have come and gone: loading file and buffer
      succeeds, and running what the loader runs, each command in the DB it was
      issued for, rebuilds the live dataset. */
  lemma {:induction false} LogRebuildsDataset<D(!new)>(steps: seq<Step>, trace: seq<Server<D>>, sem: Semantics<D>,
                                                       i: nat, lookup: Bytes -> AofLoad.Kind)
    requires IsRun(steps, trace, sem) && i <= |steps| && trace[i].mode == On && Transparent(sem, lookup)
    requires AofLoad.Loadable(trace[i].log, lookup) && !AofLoad.RunAll(trace[i].log, lookup).multi
    ensures var s := trace[i];
            var ran := AofLoad.RunAll(s.log, lookup).ran;
            && AofLoad.LoadFrom(s.file + s.buf, 0, AofLoad.Start(), false, true, lookup) == AofLoad.Loaded(ran)
            && Replay(ran, sem).data == s.live
  {
    RunsKeepInv(steps, trace, sem, i);
    var log := trace[i].log;
    assert log[..|log|] == log && EncodeAll(log)[..|EncodeAll(log)|] == EncodeAll(log);
    AofLoad.StrictLoad(log, |log|, |EncodeAll(log)|, true, lookup);
    TransactionsReplay(log, sem, lookup);
    var c := AofLoad.RunAll(log, lookup);
    assert c.ran + [] == c.ran;
  }

  /** In every run, when a rewrite completes, the new file is the child's
      snapshot followed by exactly the commands fed since the fork, and it
      rebuilds the dataset of this moment. */
  lemma {:induction false} RewriteLosesNothing<D(!new)>(steps: seq<Step>, trace: seq<Server<D>>, sem: Semantics<D>,
                                                        i: nat)
    requires IsRun(steps, trace, sem) && i < |steps| && steps[i] == Complete(true) && trace[i].mode != Off
    ensures var s, t := trace[i], trace[i + 1];
            && t.file == EncodeAll(s.snap + s.since) && t.buf == [] && t.mode == On
            && Replay(s.snap + s.since, sem).data == s.live == t.live
  {
    RunsKeepInv(steps, trace, sem, i);
    CompleteKept(trace[i], true, sem);
  }

  /** `since` is what was fed after the last fork: it starts empty there, and
      grows by what every command writes. */
  lemma {:induction false} SinceMeansSinceFork<D>(s: Server<D>, step: Step, sem: Semantics<D>)
    requires Enabled(s, step, sem)
    ensures step.Fork? ==>
              Do(s, step, sem).since == [] && Do(s, step, sem).snap == step.dump && Do(s, step, sem).selected == NoDb
    ensures s.child.Some? && Do(s, step, sem).child.Some? ==>
              && Do(s, step, sem).snap == s.snap
              && Do(s, step, sem).since
                 == s.since
                    + (if step.Command? && s.mode != Off then FeedCommands(s.selected, step.db, step.cmds) else [])
  {
    assert s.since + [] == s.since;
  }

  /** A crash loses the buffer only: with aof-load-truncated the file alone loads.
      Of the first k commands of the log, those that had reached the file, it
      gives the dataset after the ones before the transaction that is open there,
      or after all of them outside a transaction. */
  lemma {:induction false} CrashKeepsPrefix<D(!new)>(steps: seq<Step>, trace: seq<Server<D>>, sem: Semantics<D>,
                                                     i: nat, k: nat, lookup: Bytes -> AofLoad.Kind)
    requires IsRun(steps, trace, sem) && i <= |steps| && trace[i].mode == On && Transparent(sem, lookup)
    requires AofLoad.Loadable(trace[i].log, lookup) && AofLoad.WholeCommands(trace[i].log, k, |trace[i].file|)
    ensures var s := trace[i];
            var r := AofLoad.LoadFrom(s.file, 0, AofLoad.Start(), true, true, lookup);
            var m := AofLoad.BeforeOpen(s.log[..k], lookup);
            && (r.Loaded? || r.Truncated?) && r.ran == AofLoad.RunAll(s.log[..k], lookup).ran
            && Replay(r.ran, sem) == Replay(s.log[..m], sem)
            && (m < k ==> lookup(s.log[m][0]) == AofLoad.Multi)
  {
    RunsKeepInv(steps, trace, sem, i);
    CutLog(trace[i].log, trace[i].file, trace[i].buf, k, sem, lookup);
  }

  lemma {:induction false} CutLog<D(!new)>(log: seq<Argv>, file: Bytes, buf: Bytes, k: nat, sem: Semantics<D>,
                                           lookup: Bytes -> AofLoad.Kind)
    requires file + buf == EncodeAll(log) && Transparent(sem, lookup)
    requires AofLoad.Loadable(log, lookup) && AofLoad.WholeCommands(log, k, |file|)
    ensures var r := AofLoad.LoadFrom(file, 0, AofLoad.Start(), true, true, lookup);
            var m := AofLoad.BeforeOpen(log[..k], lookup);
            && (r.Loaded? || r.Truncated?) && r.ran == AofLoad.RunAll(log[..k], lookup).ran
            && Replay(r.ran, sem) == Replay(log[..m], sem)
            && (m < k ==> lookup(log[m][0]) == AofLoad.Multi)
  {
    assert EncodeAll(log)[..|file|] == file;
    AofLoad.TruncatedLogLoads(log, k, |file|, lookup);
    SettledPrefix(log, k, sem, lookup);
  }

  lemma {:induction false} SettledPrefix<D(!new)>(log: seq<Argv>, k: nat, sem: Semantics<D>,
                                                  lookup: Bytes -> AofLoad.Kind)
    requires Transparent(sem, lookup) && AofLoad.Loadable(log, lookup) && k <= |log|
    ensures var m := AofLoad.BeforeOpen(log[..k], lookup);
            && Replay(AofLoad.RunAll(log[..k], lookup).ran, sem) == Replay(log[..m], sem)
            && (m < k ==> lookup(log[m][0]) == AofLoad.Multi)
  {
    var m := AofLoad.BeforeOpen(log[..k], lookup);
    AofLoad.OpenTransaction(log[..k], lookup);
    assert log[..k][..m] == log[..m];
    TransactionsReplay(log[..m], sem, lookup);
    var c := AofLoad.RunAll(log[..m], lookup);
    assert c.ran + [] == c.ran;
  }
}
