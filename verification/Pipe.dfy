/** Pipes (kernel/pipe.c): a 512-byte ring indexed by free-running 32-bit counters. */
module Pipe {
  import opened Wrap

  const PIPESIZE: nat := 512

  type byte = x: int | 0 <= x < 256

  /** How a call leaves the lock: it sleeps (to be resumed), fails with -1, or returns. */
  datatype Exit = Sleep | Fail | Return

  class Ring {
    const data: array<byte>
    var nread: nat              // 32-bit
    var nwrite: nat             // 32-bit
    var readopen: bool
    var writeopen: bool
    ghost var written: seq<byte>   // everything ever put in
    ghost var consumed: nat        // how much of it was taken out
    ghost var delivered: seq<byte> // what readers received
    ghost var lost: nat            // bytes taken out whose copyout failed

    /** FIFO: what was taken out is a prefix of what was put in, the ring holds the rest, and a byte taken
        out fails to reach a reader exactly when its copyout failed. */
    ghost predicate Valid()
      reads this, data
    {
      && data.Length == PIPESIZE
      && consumed <= |written| <= consumed + PIPESIZE
      && nread == U32(consumed) && nwrite == U32(|written|)
      && (forall k :: consumed <= k < |written| ==> data[Slot(k, PIPESIZE)] == written[k])
      && |delivered| + lost == consumed
      && (lost == 0 ==> delivered == written[..consumed])
    }

    /** pipealloc's initial state. */
    constructor ()
      ensures Valid() && fresh(data) && written == [] && consumed == 0 && readopen && writeopen
    {
      data := new byte[PIPESIZE];
      nread, nwrite, readopen, writeopen := 0, 0, true, true;
      written, consumed, delivered, lost := [], 0, [], 0;
    }

    method Put(ch: byte)
      requires Valid() && |written| < consumed + PIPESIZE
      modifies this`nwrite, this`written, data
      ensures Valid() && written == old(written) + [ch]
    {
      forall k | consumed <= k < |written| ensures Slot(k, PIPESIZE) != Slot(|written|, PIPESIZE) {
        SlotsDiffer(k, |written|, PIPESIZE);
      }
      var i := Index(nwrite, PIPESIZE, |written|);
      data[i] := ch;
      nwrite := Inc(nwrite, |written|);
      written := written + [ch];
    }

    /** pipewrite from one acquisition of the lock to the next sleep or return. `src` is what copyin can read
        of the n requested bytes; the first i of them were sent by earlier segments. */
    method Write(src: seq<byte>, n: nat, i: nat, killed: bool) returns (i': nat, e: Exit)
      requires Valid() && i <= n && i <= |src| <= n
      modifies this`nwrite, this`written, data
      ensures Valid() && i <= i' <= |src| && written == old(written) + src[i..i']
      ensures e.Fail? <==> i < n && (!readopen || killed)
      ensures e.Fail? ==> i' == i
      ensures e.Sleep? <==> i' < n && !e.Fail? && |written| == consumed + PIPESIZE
      ensures e.Return? ==> i' == |src|
    {
      i' := i;
      while i' < n
        invariant Valid() && i <= i' <= |src| && written == old(written) + src[i..i']
        invariant i' > i ==> readopen && !killed
      {
        if !readopen || killed { return i', Fail; }
        SameWord(|written|, consumed + PIPESIZE);
        var full := Add512(nread, consumed);
        if nwrite == full { return i', Sleep; }
        if i' >= |src| { break; }
        Put(src[i']);
        assert src[i..i'] + [src[i']] == src[i..i' + 1];
        i' := i' + 1;
      }
      e := Return;
    }

    method Take(ok: bool) returns (ch: byte)
      requires Valid() && consumed < |written|
      modifies this`nread, this`consumed, this`delivered, this`lost
      ensures Valid() && consumed == old(consumed) + 1 && ch == written[old(consumed)]
      ensures delivered == if ok then old(delivered) + [ch] else old(delivered)
      ensures lost == old(lost) + if ok then 0 else 1
    {
      var i := Index(nread, PIPESIZE, consumed);
      ch := data[i];
      nread := Inc(nread, consumed);
      consumed := consumed + 1;
      if ok { delivered := delivered + [ch]; } else { lost := lost + 1; }
      assert written[..consumed] == written[..consumed - 1] + [ch];
    }

    /** piperead from one acquisition of the lock to the next sleep or return. copyout succeeds for the first
        `room` destination bytes. Reading takes the oldest bytes in order; it waits only on an empty pipe with
        a live writer, and loses one byte exactly when copyout runs out of room with data still queued. */
    method Read(n: nat, room: nat, killed: bool) returns (got: seq<byte>, e: Exit)
      requires Valid()
      modifies this`nread, this`consumed, this`delivered, this`lost
      ensures Valid() && delivered == old(delivered) + got
      ensures e.Return? <==> old(consumed) < |written| || !writeopen
      ensures e.Fail? <==> old(consumed) == |written| && writeopen && killed
      ensures var queued := |written| - old(consumed);
        |got| == if n <= queued && n <= room then n else if queued <= room then queued else room
      ensures got == written[old(consumed)..old(consumed) + |got|]
      ensures lost == old(lost) + if room < n && room < |written| - old(consumed) then 1 else 0
    {
      got := [];
      SameWord(consumed, |written|);
      if nread == nwrite && writeopen { return [], if killed then Fail else Sleep; }
      var i := 0;
      while i < n
        invariant Valid() && 0 <= i <= n && i <= room && consumed == old(consumed) + i && |got| == i
        invariant got == written[old(consumed)..old(consumed) + i]
        invariant delivered == old(delivered) + got && lost == old(lost)
      {
        SameWord(consumed, |written|);
        if nread == nwrite { break; }
        var ch := Take(i < room);
        if i >= room { break; }
        got := got + [ch];
        i := i + 1;
      }
      e := Return;
    }

    /** pipeclose: shuts one end; the ring may be freed once both are shut. */
    method Close(writable: bool) returns (free: bool)
      requires Valid()
      modifies this`readopen, this`writeopen
      ensures Valid() && writeopen == (old(writeopen) && !writable) && readopen == (old(readopen) && writable)
      ensures free <==> !readopen && !writeopen
    {
      if writable { writeopen := false; } else { readopen := false; }
      free := !readopen && !writeopen;
    }
  }

  /** piperead loses the byte whose copyout fails: one byte is written, a read finds no room for it, and it is gone. */
  method LosesByte() returns (ring: Ring, got: seq<byte>)
    ensures ring.Valid() && ring.written == [7] && ring.consumed == 1 && got == [] && ring.delivered == []
  {
    ring := new Ring();
    ring.Put(7);
    var e;
    got, e := ring.Read(1, 0, false);
  }
}
