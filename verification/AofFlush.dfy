/** Writing the append-only buffer to the file (aofWrite and
    flushAppendOnlyFile in aof.c), for every outcome of write and ftruncate. */
module AofFlush {
  import opened Resp

  /** What one write(2) call does: it takes some bytes, is interrupted, or fails. */
  datatype WriteResult = Took(n: nat) | Interrupted | Refused

  datatype Policy = Always | EverySec | Never

  /** How a flush ends: the source returns, or it exits the process. */
  datatype FlushResult = Returned | Exited

  /** The environment of one flush: the results of the write calls in order
      (no more calls succeed after them), whether ftruncate works, whether an
      fsync is running, and the time. */
  datatype World = World(writes: seq<WriteResult>, truncates: bool, syncing: bool, now: nat)

  class AppendOnlyLog {
    var file: Bytes
    var currentSize: nat
    var buf: Bytes
    var lastWriteOk: bool
    var postponedSince: nat

    ghost predicate Valid()
      reads this
    {
      currentSize == |file|
    }

    /** Everything in the log: on disk and waiting. */
    ghost function Contents(): Bytes
      reads this
    {
      file + buf
    }

    constructor ()
      ensures Valid() && Contents() == []
    {
      file, currentSize, buf, lastWriteOk, postponedSince := [], 0, [], true, 0;
    }

    /** aofWrite: retries short and interrupted writes, and gives up on an error. */
    method Write(data: Bytes, writes: seq<WriteResult>) returns (n: int)
      modifies `file
      ensures -1 <= n <= |data|
      ensures n == -1 ==> file == old(file)
      ensures n >= 0 ==> file == old(file) + data[..n]
      ensures n == |data| <==> data == [] || file == old(file) + data
    {
      var total := 0;
      var i := 0;
      while total < |data|
        invariant 0 <= total <= |data| && i <= |writes|
        invariant file == old(file) + data[..total]
        decreases |writes| - i
      {
        if i == |writes| || writes[i].Refused? {
          n := if total != 0 then total else -1;
          assert |file| == |old(file)| + total;
          return;
        }
        if writes[i].Took? {
          var took := if writes[i].n <= |data| - total then writes[i].n else |data| - total;
          assert data[..total + took] == data[..total] + data[total..total + took];
          file := file + data[total..total + took];
          total := total + took;
        }
        i := i + 1;
      }
      assert data[..total] == data;
      n := total;
    }

    /** The early returns of a flush: nothing to write, or the write is put off
        for up to two seconds because an fsync is running. */
    method Postpones(force: bool, policy: Policy, w: World) returns (later: bool)
      modifies `postponedSince
      ensures buf == [] ==> later
      ensures buf != [] && later ==> policy == EverySec && !force && w.syncing
      ensures buf != [] && later && old(postponedSince) != 0 ==> w.now < old(postponedSince) + 2
    {
      if buf == [] {
        return true;
      }
      if policy == EverySec && !force && w.syncing {
        if postponedSince == 0 {
          postponedSince := w.now;
          return true;
        } else if w.now < postponedSince + 2 {
          return true;
        }
      }
      return false;
    }

    /** flushAppendOnlyFile. The log is conserved byte by byte, the recorded size
        is the size of the file, and the status tells whether all was written. */
    method Flush(force: bool, policy: Policy, w: World) returns (r: FlushResult)
      requires Valid()
      modifies this
      ensures r == Returned ==> Valid() && Contents() == old(Contents())
      ensures r == Returned ==> |old(file)| <= |file|
      ensures r == Returned && policy == Always ==> buf == []
      ensures r == Exited ==> policy == Always && old(buf) != []
    {
      r := Returned;
      var later := Postpones(force, policy, w);
      if later {
        return;
      }
      var n := Write(buf, w.writes);
      postponedSince := 0;
      if n != |buf| {
        n := Undo(n, w);
        if policy == Always {
          return Exited;
        }
        lastWriteOk := false;
        if n > 0 {
          currentSize := currentSize + n;
          buf := buf[n..];
        }
        return;
      }
      lastWriteOk := true;
      currentSize := currentSize + n;
      buf := [];
    }

    /** After an incomplete write: ftruncate takes the bytes back, if it can. */
    method Undo(n: int, w: World) returns (left: int)
      requires -1 <= n && currentSize + (if n > 0 then n else 0) == |file|
      modifies `file
      ensures left == n || left == -1
      ensures left == -1 ==> file == old(file)[..currentSize]
      ensures left != -1 ==> file == old(file)
    {
      left := n;
      if n == -1 {
        assert file[..currentSize] == file;
      } else if w.truncates {
        file := file[..currentSize];
        left := -1;
      }
    }

    /** The part of feedAppendOnlyFile that appends to the buffer. */
    method Append(data: Bytes)
      requires Valid()
      modifies `buf
      ensures Valid() && Contents() == old(Contents()) + data
    {
      buf := buf + data;
      assert file + buf == old(file + buf) + data;
    }
  }

  datatype Event = Feed(data: Bytes) | Flush(force: bool, policy: Policy, w: World)

  function Fed(events: seq<Event>): Bytes {
    if events == [] then []
    else Fed(events[..|events| - 1]) + (match events[|events| - 1] case Feed(data) => data case _ => [])
  }

  /** Over any run, whatever the system calls did: file and buffer together hold
      everything that was fed, in order, until the process exits. */
  method RunEvents(log: AppendOnlyLog, events: seq<Event>) returns (served: nat)
    requires log.Valid() && log.Contents() == []
    modifies log
    ensures served <= |events| && (served < |events| ==> events[served].Flush?)
    ensures served == |events| ==> log.Valid() && log.Contents() == Fed(events)
  {
    served := 0;
    while served < |events|
      invariant served <= |events|
      invariant log.Valid() && log.Contents() == Fed(events[..served])
    {
      assert events[..served + 1][..served] == events[..served];
      match events[served] {
        case Feed(data) => log.Append(data);
        case Flush(force, policy, w) =>
          var r := log.Flush(force, policy, w);
          if r == Exited {
            return;
          }
      }
      served := served + 1;
    }
    assert events[..served] == events;
  }
}
