/** The buffer that collects what is written to the log while a child rewrites
    the append-only file (aof.c): a list of blocks of ten megabytes, filled at
    the end and sent from the front. */
module RewriteBuffer {
  import opened Resp
  import opened AofFlush

  const BLOCK_SIZE: nat := 1024 * 1024 * 10

  datatype Block = Block(data: Bytes, free: nat)

  function Join(blocks: seq<Block>): Bytes {
    if blocks == [] then [] else Join(blocks[..|blocks| - 1]) + blocks[|blocks| - 1].data
  }

  lemma {:induction false} JoinConcat(a: seq<Block>, b: seq<Block>)
    ensures Join(a + b) == Join(a) + Join(b)
  {
    if b == [] {
      assert a + b == a;
    } else {
      var front, last := b[..|b| - 1], b[|b| - 1];
      assert (a + b)[..|a + b| - 1] == a + front;
      JoinConcat(a, front);
      Regroup(Join(a), Join(front), last.data);
    }
  }

  lemma {:induction false} JoinFirst(blocks: seq<Block>)
    requires blocks != []
    ensures Join(blocks) == blocks[0].data + Join(blocks[1..])
  {
    assert blocks == [blocks[0]] + blocks[1..];
    JoinConcat([blocks[0]], blocks[1..]);
    assert [blocks[0]][..0] == [];
    assert Join([blocks[0]]) == [] + blocks[0].data == blocks[0].data;
  }

  class Buffer {
    var blocks: seq<Block>

    ghost predicate Valid()
      reads this
    {
      forall k | 0 <= k < |blocks| :: |blocks[k].data| + blocks[k].free == BLOCK_SIZE
    }

    ghost function Contents(): Bytes
      reads this
    {
      Join(blocks)
    }

    /** aofRewriteBufferReset. */
    constructor ()
      ensures Valid() && Contents() == []
    {
      blocks := [];
    }

    /** aofRewriteBufferAppend. */
    method Append(s: Bytes)
      requires Valid()
      modifies this
      ensures Valid() && Contents() == old(Contents()) + s
    {
      var rest := s;
      while rest != []
        invariant Valid() && Contents() + rest == old(Contents()) + s
        decreases |rest|, if blocks == [] || blocks[|blocks| - 1].free == 0 then 1 else 0
      {
        if blocks != [] {
          rest := FillLast(rest);
        }
        if rest != [] {
          AddBlock();
        }
      }
      assert Contents() + [] == Contents();
    }

    /** An empty block at the end. */
    method AddBlock()
      requires Valid()
      modifies this
      ensures Valid() && Contents() == old(Contents()) && blocks == old(blocks) + [Block([], BLOCK_SIZE)]
    {
      ghost var was := blocks;
      blocks := blocks + [Block([], BLOCK_SIZE)];
      assert blocks[..|blocks| - 1] == was;
      assert Join(was) + [] == Join(was);
    }

    /** As much as the last block has room for. */
    method FillLast(s: Bytes) returns (rest: Bytes)
      requires Valid() && blocks != []
      modifies this
      ensures Valid() && |blocks| == |old(blocks)| && Contents() + rest == old(Contents()) + s
      ensures old(blocks[|blocks| - 1].free) == 0 ==> rest == s && blocks == old(blocks)
      ensures old(blocks[|blocks| - 1].free) > 0 && s != [] ==> |rest| < |s|
      ensures rest != [] ==> blocks[|blocks| - 1].free == 0
    {
      var last := |blocks| - 1;
      var block := blocks[last];
      var n := if block.free < |s| then block.free else |s|;
      rest := s[n..];
      if n > 0 {
        ghost var front := blocks[..last];
        blocks := blocks[last := Block(block.data + s[..n], block.free - n)];
        assert blocks[..last] == front;
        assert s == s[..n] + s[n..];
      }
    }

    /** aofChildWriteDiffData: sends blocks from the front until the pipe is full,
        the buffer is empty, or the child asked to stop. */
    method SendDiff(stop: bool, writes: seq<WriteResult>) returns (sent: Bytes)
      requires Valid()
      modifies this
      ensures Valid() && sent + Contents() == old(Contents())
      ensures stop ==> sent == []
    {
      sent := [];
      var i := 0;
      while !stop && blocks != []
        invariant Valid() && sent + Contents() == old(Contents()) && i <= |writes|
        invariant stop ==> sent == []
        decreases |blocks|, |writes| - i
      {
        if blocks[0].data != [] {
          if i == |writes| || !writes[i].Took? || writes[i].n == 0 {
            return;
          }
          var piece := TakeFirst(writes[i].n);
          Regroup(sent, piece, Contents());
          sent := sent + piece;
          i := i + 1;
        }
        DropIfSent();
      }
    }

    /** A first block that is empty goes. */
    method DropIfSent()
      requires Valid() && blocks != []
      modifies this
      ensures Valid() && Contents() == old(Contents())
      ensures |blocks| <= |old(blocks)| && (old(blocks[0].data) == [] ==> |blocks| < |old(blocks)|)
    {
      if blocks[0].data == [] {
        JoinFirst(blocks);
        assert [] + Join(blocks[1..]) == Join(blocks[1..]);
        blocks := blocks[1..];
      }
    }

    /** At most n bytes leave the first block. */
    method TakeFirst(n: nat) returns (piece: Bytes)
      requires Valid() && blocks != []
      modifies this
      ensures Valid() && |blocks| == |old(blocks)| && piece + Contents() == old(Contents())
    {
      var first := blocks[0];
      var k := if n <= |first.data| then n else |first.data|;
      piece := first.data[..k];
      JoinFirst(blocks);
      ghost var tail := blocks[1..];
      blocks := blocks[0 := Block(first.data[k..], first.free + k)];
      JoinFirst(blocks);
      assert blocks[1..] == tail;
      assert first.data == piece + first.data[k..];
    }

    /** aofRewriteBufferWrite: one write for each block, and any short one fails. */
    method WriteAll(writes: seq<WriteResult>) returns (ok: bool, written: Bytes)
      requires Valid()
      ensures ok ==> written == Contents()
      ensures written <= Contents()
    {
      ok, written := true, [];
      var i := 0;
      for b := 0 to |blocks|
        invariant written == Join(blocks[..b]) && i <= |writes|
      {
        assert blocks[..b + 1][..b] == blocks[..b];
        assert blocks == blocks[..b + 1] + blocks[b + 1..];
        JoinConcat(blocks[..b + 1], blocks[b + 1..]);
        if blocks[b].data != [] {
          if i == |writes| || !writes[i].Took? {
            return false, written;
          }
          if writes[i].n < |blocks[b].data| {
            return false, written + blocks[b].data[..writes[i].n];
          }
          written := written + blocks[b].data;
          i := i + 1;
        }
      }
      assert blocks[..|blocks|] == blocks;
    }

    /** aofRewriteBufferSize. */
    method Size() returns (n: nat)
      ensures n == |Contents()|
    {
      n := 0;
      for b := 0 to |blocks|
        invariant n == |Join(blocks[..b])|
      {
        assert blocks[..b + 1][..b] == blocks[..b];
        n := n + |blocks[b].data|;
      }
      assert blocks[..|blocks|] == blocks;
    }
  }
}
