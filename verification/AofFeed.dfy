/** Feeding the append-only file (feedAppendOnlyFile in aof.c): the commands of
    a call go to the buffer of the file and, while a child rewrites it, to the
    rewrite buffer as well. */
module AofFeed {
  import opened Resp
  import opened AofRewrite
  import RewriteBuffer

  class Feeder {
    var mode: Mode
    var selected: Selected
    var buf: Bytes
    var rewriting: bool
    const diff: RewriteBuffer.Buffer

    constructor ()
      ensures mode == Off && selected == NoDb && buf == [] && !rewriting
      ensures fresh(diff) && diff.Valid() && diff.Contents() == []
    {
      mode, selected, buf, rewriting := Off, NoDb, [], false;
      diff := new RewriteBuffer.Buffer();
    }

    /** Both buffers get the same bytes, and only those. */
    method Feed(db: nat, cmds: seq<Argv>)
      requires diff.Valid() && mode != Off
      modifies this, diff
      ensures diff.Valid() && mode == old(mode) && rewriting == old(rewriting) && selected == Db(db)
      ensures buf == if mode == On then old(buf) + EncodeAll(FeedCommands(old(selected), db, cmds)) else old(buf)
      ensures diff.Contents()
              == if rewriting then old(diff.Contents()) + EncodeAll(FeedCommands(old(selected), db, cmds))
                 else old(diff.Contents())
    {
      var out: Bytes := [];
      ghost var done: seq<Argv> := [];
      if selected != Db(db) {
        out := CatCommand(out, SelectCommand(db));
        done := [SelectCommand(db)];
        EncodeAllAppend([], SelectCommand(db));
        assert [] + done == done;
        selected := Db(db);
      }
      out := CatCommands(out, done, cmds);
      assert done + cmds == FeedCommands(old(selected), db, cmds);
      if mode == On {
        buf := buf + out;
      }
      if rewriting {
        diff.Append(out);
      }
    }

    method CatCommands(dst: Bytes, ghost done: seq<Argv>, cmds: seq<Argv>) returns (out: Bytes)
      requires dst == EncodeAll(done)
      ensures out == EncodeAll(done + cmds)
    {
      out := dst;
      assert done + cmds[..0] == done;
      for i := 0 to |cmds|
        invariant out == EncodeAll(done + cmds[..i])
      {
        EncodeAllAppend(done + cmds[..i], cmds[i]);
        assert (done + cmds[..i]) + [cmds[i]] == done + cmds[..i + 1];
        out := CatCommand(out, cmds[i]);
      }
      assert cmds[..|cmds|] == cmds;
    }
  }
}
