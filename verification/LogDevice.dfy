/** The loops of kernel/log.c, run over a buffered disk. Every method is tied to the write sequences of
    module Log, so the crash theorems there speak about this code. */
module LogDevice {
  import opened Log
  import LogSpace

  datatype Outcome = Done | Panic

  lemma Extend(t: seq<Write>, ws: seq<Write>, k: nat)
    requires k < |ws|
    ensures t + ws[..k] + [ws[k]] == t + ws[..k + 1]
  {}

  lemma Join(t: seq<Write>, a: seq<Write>, b: seq<Write>, c: seq<Write>, d: seq<Write>)
    ensures t + a + b + c + d == t + (a + b + c + d)
  {}

  lemma SameWrites(l: Layout, disk: seq<Block>, tx: Tx)
    requires |tx.blocks| == |tx.data| && l.start + |tx.blocks| < |disk| &&
      forall i :: 0 <= i < |tx.data| ==> tx.data[i] == disk[l.start + 1 + i]
    ensures InstallWrites(l, disk, tx.blocks) == HomeWrites(tx)
  {}

  lemma NothingLogged(l: Layout, disk: seq<Block>, tx: Tx)
    requires l.Valid() && |disk| == l.total && |tx.blocks| == |tx.data| <= LOGSIZE
    ensures tx.blocks == [] ==> CommitWrites(l, disk, tx) == []
  {}

  lemma CommitIs(t: seq<Write>, l: Layout, disk: seq<Block>, tx: Tx)
    requires l.Valid() && |disk| == l.total && 0 < |tx.blocks| == |tx.data| <= LOGSIZE
    ensures var head := Head(disk[l.start], tx.blocks);
      t + LogWrites(l, tx) + [Write(l.start, head)] + HomeWrites(tx) + [Write(l.start, Head(head, []))] ==
      t + CommitWrites(l, disk, tx)
  {
    hide LogWrites, HomeWrites, Head, HeadBlocks;
    var head := Head(disk[l.start], tx.blocks);
    Join(t, LogWrites(l, tx), [Write(l.start, head)], HomeWrites(tx), [Write(l.start, Head(head, []))]);
  }

  /** The first k blocks of the transaction are in the log. */
  ghost predicate LogHolds(l: Layout, disk: seq<Block>, tx: Tx, k: nat) {
    k <= |tx.data| && l.start + k < |disk| && forall i :: 0 <= i < k ==> disk[l.start + 1 + i] == tx.data[i]
  }

  lemma LogStart(l: Layout, disk: seq<Block>, tx: Tx)
    requires l.start < |disk|
    ensures LogHolds(l, disk, tx, 0)
  {}

  lemma LogHeader(l: Layout, disk: seq<Block>, tx: Tx, k: nat, head: Block)
    requires LogHolds(l, disk, tx, k)
    ensures LogHolds(l, disk[l.start := head], tx, k)
  {}

  lemma LogHas(l: Layout, disk: seq<Block>, tx: Tx, k: nat, i: nat)
    requires LogHolds(l, disk, tx, k) && i < k
    ensures l.start + 1 + i < |disk| && i < |tx.data| && disk[l.start + 1 + i] == tx.data[i]
  {}

  lemma LogOutside(l: Layout, disk: seq<Block>, tx: Tx, k: nat, b: nat, data: Block)
    requires LogHolds(l, disk, tx, k) && k < l.size && b < |disk| && !l.InLog(b)
    ensures LogHolds(l, disk[b := data], tx, k)
  {}

  class Device {
    const l: Layout
    const block: array<nat>     // log.lh.block
    var n: nat                  // log.lh.n
    var outstanding: nat        // log.outstanding
    var disk: seq<Block>
    var cache: map<nat, Block>  // contents of cached buffers
    ghost const disk0: seq<Block>
    ghost var pinned: set<nat>  // blocks whose buffer is newer than the disk
    ghost var trace: seq<Write> // every single-block write so far, in order

    /** The disk is what the trace made of it; a cached buffer differs from disk only while its block is pinned. */
    ghost predicate Valid()
      reads this, block
    {
      && l.Valid() && |disk| == |disk0| == l.total && block.Length == LOGSIZE && n <= LOGSIZE
      && Fits(l.total, trace) && disk == Apply(disk0, trace)
      && (forall b :: b in cache ==> b < l.total)
      && (forall b :: b in cache && b !in pinned ==> cache[b] == disk[b])
      && (forall b :: b in pinned ==> b in block[..n] && !l.InLog(b))
    }

    /** Latest contents of a block: what bread returns. */
    function View(b: nat): (data: Block)
      reads this
      requires b < |disk|
    {
      if b in cache then cache[b] else disk[b]
    }

    /** tx is the transaction being collected: the header's blocks with their latest contents. */
    ghost predicate Pends(tx: Tx)
      reads this, block
      requires Valid()
    {
      && tx.blocks == block[..n] && |tx.data| == n
      && forall i :: 0 <= i < n ==> block[i] < l.total && tx.data[i] == View(block[i])
    }

    /** Logged block numbers are distinct, in range and outside the log area, which has room for all of them. */
    ghost predicate GoodHeader()
      reads this`n, block
      requires block.Length == LOGSIZE && n <= LOGSIZE
    {
      && n < l.size && (forall i :: 0 <= i < n ==> block[i] < l.total && !l.InLog(block[i]))
      && (forall i, j :: 0 <= i < j < n ==> block[i] != block[j])
    }

    method Bread(b: nat) returns (data: Block)
      requires Valid() && b < l.total
      modifies this`cache
      ensures Valid() && data == old(View(b)) && cache == old(cache)[b := data]
    {
      data := View(b);
      cache := cache[b := data];
    }

    method Bwrite(b: nat, data: Block)
      requires Valid() && b < l.total
      modifies this`cache, this`disk, this`trace
      ensures Valid() && trace == old(trace) + [Write(b, data)] && disk == old(disk)[b := data]
      ensures cache == old(cache)[b := data]
    {
      ApplyConcat(disk0, trace, [Write(b, data)]);
      cache := cache[b := data];
      disk := disk[b := data];
      trace := trace + [Write(b, data)];
    }

    /** Lists the block in the header, unless it is there. */
    method ListBlock(b: nat)
      requires block.Length == LOGSIZE && n < LOGSIZE && n < l.size - 1 && GoodHeader() && b < l.total && !l.InLog(b)
      modifies this`n, block
      ensures n <= LOGSIZE && GoodHeader() && block[..n] == LogSpace.Absorb(old(block[..n]), b)
    {
      var i := Scan(b);
      ghost var was := block[..n];
      block[i] := b;
      if i == n { n := n + 1; assert block[..n] == was + [b]; } else { assert block[..n] == was; }
    }

    /** Where in the header block b is, or goes. */
    method Scan(b: nat) returns (i: nat)
      requires block.Length == LOGSIZE && n <= LOGSIZE
      ensures i <= n && b !in block[..i] && (i < n ==> block[i] == b)
    {
      i := 0;
      while i < n
        invariant i <= n && b !in block[..i]
      {
        if block[i] == b { return; }
        i := i + 1;
      }
    }

    /** log_write: the block joins the transaction once; n grows exactly when it was not there yet. */
    method LogWrite(b: nat, data: Block) returns (r: Outcome)
      requires Valid() && GoodHeader() && b < l.total && !l.InLog(b)
      modifies this`cache, this`pinned, this`n, block
      ensures r.Panic? <==> old(n) >= LOGSIZE || old(n) >= l.size - 1 || outstanding < 1
      ensures Valid() && GoodHeader()
      ensures r.Panic? ==> block[..n] == old(block[..n]) && cache == old(cache)
      ensures r.Done? ==> block[..n] == LogSpace.Absorb(old(block[..n]), b)
      ensures r.Done? ==> cache == old(cache)[b := data] && pinned == old(pinned) + {b}
    {
      if n >= LOGSIZE || n >= l.size - 1 { return Panic; }
      if outstanding < 1 { return Panic; }
      hide Apply, Fits;
      ghost var was := block[..n];
      ListBlock(b);
      assert forall x :: x in was ==> x in block[..n];
      cache, pinned := cache[b := data], pinned + {b};
      r := Done;
    }

    /** One round of write_log or install_trans: read both buffers, copy, write the destination. */
    method CopyBlock(from: nat, to: nat)
      requires Valid() && from < l.total && to < l.total && from != to
      modifies this`cache, this`disk, this`trace
      ensures Valid() && trace == old(trace) + [Write(to, old(View(from)))]
      ensures disk == old(disk)[to := old(View(from))] && to in cache
      ensures forall x :: 0 <= x < l.total ==> View(x) == if x == to then old(View(from)) else old(View(x))
    {
      var dst := Bread(to);
      var src := Bread(from);
      Bwrite(to, src);
    }

    /** write_log: copies the cached blocks into the log area, in order. */
    method WriteLog(ghost tx: Tx)
      requires Valid() && GoodHeader() && Pends(tx)
      modifies this`cache, this`disk, this`trace
      ensures Valid() && trace == old(trace) + LogWrites(l, tx) && LogHolds(l, disk, tx, n)
      ensures disk[l.start] == old(disk[l.start])
    {
      hide LogWrites, Apply, Fits, LogHolds, Pends;
      PendsSize(tx);
      ghost var ws := LogWrites(l, tx);
      LogStart(l, disk, tx);
      for tail := 0 to n
        invariant Valid() && Pends(tx) && LogHolds(l, disk, tx, tail)
        invariant trace == old(trace) + ws[..tail] && disk[l.start] == old(disk[l.start])
      {
        LogOne(tx, tail);
        Extend(old(trace), ws, tail);
      }
      assert ws[..n] == ws;
    }

    lemma PendsSize(tx: Tx)
      requires Valid() && Pends(tx)
      ensures |tx.blocks| == |tx.data| == n
    {
      hide Apply, Fits;
    }

    method LogOne(ghost tx: Tx, tail: nat)
      requires Valid() && GoodHeader() && tail < n && Pends(tx) && LogHolds(l, disk, tx, tail) &&
        |tx.blocks| == |tx.data|
      modifies this`cache, this`disk, this`trace
      ensures Valid() && Pends(tx) && LogHolds(l, disk, tx, tail + 1) && disk[l.start] == old(disk[l.start])
      ensures trace == old(trace) + [LogWrites(l, tx)[tail]]
    {
      hide Apply, Fits;
      CopyBlock(block[tail], l.start + tail + 1);
    }

    /** install_trans: copies the log area to the home locations, in order, unpinning each. */
    method InstallTrans(ghost tx: Tx)
      requires Valid() && GoodHeader() && tx.blocks == block[..n] && |tx.data| == n
      requires LogHolds(l, disk, tx, n)
      modifies this`cache, this`disk, this`trace, this`pinned
      ensures Valid() && trace == old(trace) + HomeWrites(tx)
      ensures disk[l.start] == old(disk[l.start]) && pinned == {}
    {
      hide HomeWrites, Apply, Fits, LogHolds;
      ghost var ws := HomeWrites(tx);
      for tail := 0 to n
        invariant Valid() && LogHolds(l, disk, tx, n)
        invariant trace == old(trace) + ws[..tail]
        invariant disk[l.start] == old(disk[l.start])
        invariant forall i :: 0 <= i < tail ==> block[i] !in pinned
      {
        InstallOne(tx, tail);
        Extend(old(trace), ws, tail);
      }
      assert ws[..n] == ws;
    }

    method InstallOne(ghost tx: Tx, tail: nat)
      requires Valid() && GoodHeader() && tail < n && tx.blocks == block[..n] && |tx.data| == n
      requires LogHolds(l, disk, tx, n)
      modifies this`cache, this`disk, this`trace, this`pinned
      ensures Valid() && pinned == old(pinned) - {block[tail]} && LogHolds(l, disk, tx, n) &&
        disk[l.start] == old(disk[l.start])
      ensures trace == old(trace) + [HomeWrites(tx)[tail]]
    {
      hide Apply, Fits, LogHolds;
      LogHas(l, disk, tx, n, tail);
      LogOutside(l, disk, tx, n, block[tail], tx.data[tail]);
      CopyBlock(l.start + tail + 1, block[tail]);
      Unpin(block[tail]);
    }

    /** bunpin of a buffer that agrees with the disk. */
    method Unpin(b: nat)
      requires Valid() && b < l.total && View(b) == disk[b]
      modifies this`pinned
      ensures Valid() && pinned == old(pinned) - {b}
    {
      hide Apply, Fits;
      pinned := pinned - {b};
    }

    /** write_head: word 0 gets n, the next n words the block numbers, the rest of the buffer is kept. */
    method WriteHead()
      requires Valid()
      modifies this`cache, this`disk, this`trace
      ensures Valid() && trace == old(trace) + [Write(l.start, disk[l.start])]
      ensures disk == old(disk)[l.start := Head(old(disk[l.start]), block[..n])]
      ensures cache == old(cache)[l.start := disk[l.start]]
    {
      var buf := Bread(l.start);
      ghost var was := buf;
      buf := buf[0 := n];
      for i := 0 to n
        invariant |buf| == WORDS && buf[0] == n
        invariant forall j :: 0 <= j < i ==> buf[j + 1] == block[j]
        invariant forall j :: i < j < WORDS ==> buf[j] == was[j]
      {
        buf := buf[i + 1 := block[i]];
      }
      assert buf == Head(was, block[..n]);
      Bwrite(l.start, buf);
    }

    /** read_head: loads the header's block list. */
    method ReadHead()
      requires Valid() && disk[l.start][0] <= LOGSIZE && pinned == {}
      modifies this`cache, this`n, block
      ensures Valid() && block[..n] == HeadBlocks(disk[l.start])
    {
      var buf := Bread(l.start);
      n := buf[0];
      for i := 0 to n
        invariant Valid() && n == buf[0]
        invariant forall j :: 0 <= j < i ==> block[j] == buf[j + 1]
      {
        block[i] := buf[i + 1];
      }
    }

    /** The second half of commit: install, then clear the header. */
    method InstallAndClear(ghost tx: Tx)
      requires Valid() && GoodHeader() && tx.blocks == block[..n] && |tx.data| == n && LogHolds(l, disk, tx, n)
      modifies this`cache, this`disk, this`trace, this`pinned, this`n
      ensures Valid() && n == 0 && pinned == {}
      ensures trace == old(trace) + HomeWrites(tx) + [Write(l.start, Head(old(disk[l.start]), []))]
    {
      hide Apply, Fits, LogHolds, HomeWrites, Head, GoodHeader;
      InstallTrans(tx);
      n := 0;
      WriteHead();
    }

    /** commit: issues exactly the writes of CommitWrites, and afterwards no buffer differs from disk. */
    method Commit(ghost tx: Tx)
      requires Valid() && GoodHeader() && Pends(tx)
      modifies this`cache, this`disk, this`trace, this`pinned, this`n
      ensures Valid() && n == 0 && pinned == {}
      ensures tx.Valid(l) && trace == old(trace) + CommitWrites(l, old(disk), tx)
    {
      hide Apply, Fits, LogHolds, GoodHeader, Pends, LogWrites, HomeWrites, Head, HeadBlocks, CommitWrites;
      PendsValid(tx);
      NothingLogged(l, disk, tx);
      if n == 0 {
        pinned := {};
        return;
      }
      LogAll(tx);
      InstallAndClear(tx);
      CommitIs(old(trace), l, old(disk), tx);
    }

    /** The first half of commit: the blocks into the log, then the header that lists them. */
    method LogAll(ghost tx: Tx)
      requires Valid() && GoodHeader() && Pends(tx)
      modifies this`cache, this`disk, this`trace
      ensures Valid() && LogHolds(l, disk, tx, n) && disk[l.start] == Head(old(disk[l.start]), block[..n])
      ensures |tx.blocks| == |tx.data| && trace == old(trace) + LogWrites(l, tx) + [Write(l.start, disk[l.start])]
    {
      hide Apply, Fits, LogHolds, GoodHeader, Pends, LogWrites, Head, HeadBlocks;
      PendsSize(tx);
      WriteLog(tx);
      LogHeader(l, disk, tx, n, Head(disk[l.start], block[..n]));
      WriteHead();
    }

    lemma PendsValid(tx: Tx)
      requires Valid() && GoodHeader() && Pends(tx)
      ensures tx.Valid(l) && tx.blocks == block[..n] && |tx.data| == n
    {
      hide Apply, Fits;
    }

    /** recover_from_log, on a header whose block list is sane: issues exactly the writes of RecoverWrites. */
    method RecoverFromLog(ghost tx: Tx)
      requires Valid() && disk[l.start][0] <= LOGSIZE && tx.blocks == HeadBlocks(disk[l.start]) && tx.Valid(l)
      requires forall i :: 0 <= i < |tx.data| ==> tx.data[i] == disk[l.start + 1 + i]
      requires cache == map[] && pinned == {}
      modifies this`cache, this`disk, this`trace, this`pinned, this`n, block
      ensures Valid() && n == 0 && pinned == {}
      ensures trace == old(trace) + RecoverWrites(l, old(disk))
    {
      hide Head, HeadBlocks, Apply, Fits;
      ReadHead();
      assert forall i :: 0 <= i < n ==> block[i] == block[..n][i];
      InstallAndClear(tx);
      SameWrites(l, old(disk), tx);
      assert trace == old(trace) + (HomeWrites(tx) + [Write(l.start, Head(old(disk[l.start]), []))]);
    }
  }
}
