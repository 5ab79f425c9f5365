/** How many free blocks a file operation needs (kernel/fs.c): the bitmap's clear bits against the blocks a range of a
    file lacks. */
module FsSpace {
  import opened FsBits
  import opened Fs
  import opened FsFile

  ghost function FreeBlocks(size: nat, bits: seq<BitBlock>): set<nat> {
    set b | 0 <= b < size && b < |bits| * BPB && !BitUsed(bits, b)
  }

  ghost function Left(d: Disk): nat { |FreeBlocks(d.sb.size, d.bits)| }

  lemma TakeLeft(d: Disk, b: nat)
    requires b < d.sb.size && b < |d.bits| * BPB && !BitUsed(d.bits, b)
    ensures Left(Take(d, b)) == Left(d) - 1
  {
    hide BitUsed, Mark, ZeroBlock;
    var e := Take(d, b);
    var was, now := FreeBlocks(d.sb.size, d.bits), FreeBlocks(e.sb.size, e.bits);
    forall c | 0 <= c < |d.bits| * BPB
      ensures |e.bits| == |d.bits| && (BitUsed(e.bits, c) <==> c == b || BitUsed(d.bits, c)) { MarkBits(d.bits, b, c); }
    assert |e.bits| == |d.bits| by { MarkBits(d.bits, b, b); }
    assert now == was - {b} && b in was;
  }

  lemma FullLeft(d: Disk)
    requires forall c :: 0 <= c < d.sb.size && c < |d.bits| * BPB ==> BitUsed(d.bits, c)
    ensures Left(d) == 0
  {
    hide BitUsed;
    assert FreeBlocks(d.sb.size, d.bits) == {};
  }

  /** How many blocks bmap must allocate for block bn of a file: itself, and the indirect block it is listed in. */
  ghost function Missing(d: Disk, inum: nat, bn: nat): nat
    requires HasInode(d, inum) && bn < MAXFILE
  {
    (if bn >= NDIRECT && d.inodes[inum].addrs[NDIRECT] == 0 then 1 else 0) + (if Addr(d, inum, bn) == 0 then 1 else 0)
  }

  /** From d to e block bn of a file is made sure of, at addr: it fails exactly when too few blocks are free, and
      otherwise takes just the missing ones. */
  ghost predicate Allots(d: Disk, e: Disk, inum: nat, bn: nat, addr: nat) {
    && bn < MAXFILE && HasInode(d, inum) && HasInode(e, inum)
    && (addr == 0 <==> Missing(d, inum, bn) > Left(d))
    && (addr != 0 ==>
      Left(e) == Left(d) - Missing(d, inum, bn) && (bn >= NDIRECT ==> e.inodes[inum].addrs[NDIRECT] != 0))
    && (bn < NDIRECT ==> e.inodes[inum].addrs[NDIRECT] == d.inodes[inum].addrs[NDIRECT])
    && (forall n :: 0 <= n < MAXFILE && n != bn ==> Addr(e, inum, n) == Addr(d, inum, n))
  }

  /** A block that is there needs nothing. */
  lemma AllotsKept(d: Disk, inum: nat, bn: nat)
    requires HasInode(d, inum) && bn < MAXFILE && Addr(d, inum, bn) != 0
    ensures Allots(d, d, inum, bn, Addr(d, inum, bn))
  {
    hide Left, Word;
  }

  lemma AllotsNone(d: Disk, inum: nat, bn: nat)
    requires HasInode(d, inum) && bn < MAXFILE && Addr(d, inum, bn) == 0 && Left(d) == 0
    ensures Allots(d, d, inum, bn, 0)
  {
    hide Left, Addr;
  }

  lemma AllotsOne(d: Disk, e: Disk, b: nat, inum: nat, bn: nat)
    requires Ok(d) && HasInode(d, inum) && bn < MAXFILE && Addr(d, inum, bn) == 0 &&
      (bn >= NDIRECT ==> d.inodes[inum].addrs[NDIRECT] != 0)
    requires 0 < b < d.sb.size && !BitUsed(d.bits, b)
    requires var t := Take(d, b); Ready(t, DataPlace(inum, bn), b) && e == Attach(t, DataPlace(inum, bn), b)
    ensures Allots(d, e, inum, bn, b)
  {
    var t, p := Take(d, b), DataPlace(inum, bn);
    TakeOk(d, b);
    TakeFiles(d, b);
    TakeLeft(d, b);
    AttachedLeft(t, p, b, inum);
    hide Ok, Ptr, IsPlace, Take, Attach, Left, Addr, BitUsed;
    forall n | 0 <= n < MAXFILE && n != bn
      ensures Addr(e, inum, n) == Addr(d, inum, n) { AttachAddr(t, p, b, inum, n); }
  }

  lemma AttachedLeft(t: Disk, p: Place, b: nat, inum: nat)
    requires Ready(t, p, b) && b < 0x1_0000_0000 && HasInode(t, inum)
    ensures var e := Attach(t, p, b);
      && Left(e) == Left(t) && HasInode(e, inum)
      && e.inodes[inum].addrs[NDIRECT] == if p == Indirect(inum) then b else t.inodes[inum].addrs[NDIRECT]
  {
    hide SetWord, FreeBlocks;
  }

  /** From d to e only the indirect block of a file was added. */
  ghost predicate Grows(d: Disk, e: Disk, inum: nat) {
    && HasInode(d, inum) && HasInode(e, inum) && Left(e) == Left(d) - 1
    && d.inodes[inum].addrs[NDIRECT] == 0 && e.inodes[inum].addrs[NDIRECT] != 0
    && (forall n :: 0 <= n < MAXFILE ==> Addr(e, inum, n) == Addr(d, inum, n))
  }

  lemma IndirectGrows(d: Disk, e: Disk, b: nat, inum: nat)
    requires Ok(d) && HasInode(d, inum) && d.inodes[inum].addrs[NDIRECT] == 0 && 0 < b < d.sb.size &&
      !BitUsed(d.bits, b)
    requires var t := Take(d, b); Ready(t, Indirect(inum), b) && e == Attach(t, Indirect(inum), b)
    ensures Grows(d, e, inum)
  {
    var t := Take(d, b);
    TakeOk(d, b);
    TakeFiles(d, b);
    TakeLeft(d, b);
    AttachedLeft(t, Indirect(inum), b, inum);
    hide Ok, Ptr, IsPlace, Take, Attach, Left, Addr, BitUsed;
    forall n | 0 <= n < MAXFILE
      ensures Addr(e, inum, n) == Addr(d, inum, n) { AttachAddr(t, Indirect(inum), b, inum, n); }
  }

  lemma AllotsAfter(d: Disk, e: Disk, f: Disk, inum: nat, bn: nat, addr: nat)
    requires Grows(d, e, inum) && Allots(e, f, inum, bn, addr) && bn >= NDIRECT
    ensures Allots(d, f, inum, bn, addr)
  {
    hide Left, Word;
  }

  /** Writing into the block takes nothing. */
  lemma AllotsPatched(d: Disk, e: Disk, inum: nat, bn: nat, data: Block)
    requires Ok(e) && bn < MAXFILE && HasInode(e, inum) && Addr(e, inum, bn) != 0 &&
      Allots(d, e, inum, bn, Addr(e, inum, bn))
    ensures Allots(d, e.(blocks := e.blocks[Addr(e, inum, bn) := data]), inum, bn, Addr(e, inum, bn))
  {
    var a := Addr(e, inum, bn);
    var f := e.(blocks := e.blocks[a := data]);
    hide Ok, Addr, FreeBlocks;
    forall n | 0 <= n < MAXFILE && n != bn
      ensures Addr(f, inum, n) == Addr(d, inum, n) { SameAddrs(e, inum, bn, data, inum, n); }
  }

  // ---------------------------------------------------------------- a range of blocks

  ghost function Absent(d: Disk, inum: nat, lo: nat, hi: nat): (k: nat)
    requires HasInode(d, inum) && hi <= MAXFILE
  {
    if hi <= lo then 0 else Absent(d, inum, lo, hi - 1) + if Addr(d, inum, hi - 1) == 0 then 1 else 0
  }

  /** How many blocks must be allocated for blocks lo up to hi of a file. */
  ghost function Need(d: Disk, inum: nat, lo: nat, hi: nat): (k: nat)
    requires HasInode(d, inum) && hi <= MAXFILE
  {
    Absent(d, inum, lo, hi) + if lo < hi && NDIRECT < hi && d.inodes[inum].addrs[NDIRECT] == 0 then 1 else 0
  }

  lemma {:induction false} NeedMore(d: Disk, inum: nat, lo: nat, hi: nat, hi': nat)
    requires HasInode(d, inum) && hi <= hi' <= MAXFILE
    ensures Need(d, inum, lo, hi) <= Need(d, inum, lo, hi')
  {
    hide Addr;
    if hi < hi' { NeedMore(d, inum, lo, hi, hi' - 1); }
  }

  /** A file without holes needs nothing for bytes it has. */
  lemma {:induction false} NeedNothing(d: Disk, inum: nat, lo: nat, hi: nat)
    requires HoleFree(d, inum) && hi <= MAXFILE && (lo < hi ==> (hi - 1) * 1024 < d.inodes[inum].size)
    ensures Need(d, inum, lo, hi) == 0
  {
    hide Word;
    if lo < hi {
      NeedNothing(d, inum, lo, hi - 1);
      assert Addr(d, inum, hi - 1) != 0;
    }
  }

  /** From d to e blocks lo up to n of a file have been made sure of, and no more. */
  ghost predicate Allotted(d: Disk, e: Disk, inum: nat, lo: nat, n: nat) {
    && lo <= n <= MAXFILE && HasInode(d, inum) && HasInode(e, inum) && Left(e) + Need(d, inum, lo, n) == Left(d)
    && (e.inodes[inum].addrs[NDIRECT] == 0 <==> d.inodes[inum].addrs[NDIRECT] == 0 && !(lo < n && NDIRECT < n))
    && (forall m :: n <= m < MAXFILE ==> Addr(e, inum, m) == Addr(d, inum, m))
  }

  lemma AllottedNone(d: Disk, inum: nat, lo: nat)
    requires HasInode(d, inum) && lo <= MAXFILE
    ensures Allotted(d, d, inum, lo, lo)
  {
    hide Left, Addr;
  }

  lemma AllottedMore(d: Disk, e: Disk, f: Disk, inum: nat, lo: nat, n: nat, addr: nat)
    requires Allotted(d, e, inum, lo, n) && Allots(e, f, inum, n, addr)
    ensures addr == 0 ==> n < MAXFILE && Need(d, inum, lo, n) <= Left(d) < Need(d, inum, lo, n + 1)
    ensures addr != 0 ==> Allotted(d, f, inum, lo, n + 1)
  {
    hide Left, Addr;
    assert Need(d, inum, lo, n + 1) == Need(d, inum, lo, n) + Missing(e, inum, n);
  }

  /** Block n - 1 is there: a range may begin with it again. */
  ghost predicate Meets(e: Disk, inum: nat, lo: nat, n: nat, lo': nat)
    requires HasInode(e, inum)
  {
    lo' == n || (lo < n <= MAXFILE && lo' == n - 1 && Addr(e, inum, n - 1) != 0)
  }

  lemma {:induction false} AbsentSplit(d: Disk, e: Disk, inum: nat, lo: nat, n: nat, lo': nat, x: nat)
    requires Allotted(d, e, inum, lo, n) && Meets(e, inum, lo, n, lo') && n <= x <= MAXFILE
    ensures Absent(d, inum, lo, x) == Absent(d, inum, lo, n) + Absent(e, inum, lo', x)
    decreases x
  {
    hide Left, Addr, Need;
    if n < x {
      AbsentSplit(d, e, inum, lo, n, lo', x - 1);
    } else if lo' < n {
      assert Absent(e, inum, lo', n - 1) == 0;
    }
  }

  /** What a longer range needs is what the first part needed and what the rest needs now. */
  lemma NeedSplit(d: Disk, e: Disk, inum: nat, lo: nat, n: nat, lo': nat, x: nat)
    requires Allotted(d, e, inum, lo, n) && Meets(e, inum, lo, n, lo') && n <= x <= MAXFILE
    ensures Need(d, inum, lo, x) == Need(d, inum, lo, n) + Need(e, inum, lo', x)
    ensures Left(e) == Left(d) - Need(d, inum, lo, n)
  {
    AbsentSplit(d, e, inum, lo, n, lo', x);
    if lo' < n && NDIRECT < n { EntryNeedsIndirect(e, inum, n - 1); }
    hide Left, Addr, Absent;
  }

  lemma EntryNeedsIndirect(e: Disk, inum: nat, bn: nat)
    requires HasInode(e, inum) && NDIRECT <= bn < MAXFILE && Addr(e, inum, bn) != 0
    ensures e.inodes[inum].addrs[NDIRECT] != 0
  {}

  lemma AllottedJoin(d: Disk, e: Disk, f: Disk, inum: nat, lo: nat, n: nat, lo': nat, x: nat)
    requires Allotted(d, e, inum, lo, n) && Meets(e, inum, lo, n, lo') && Allotted(e, f, inum, lo', x) && n <= x
    ensures Allotted(d, f, inum, lo, x)
  {
    hide Left, Addr, Need;
    NeedSplit(d, e, inum, lo, n, lo', x);
    if lo' < n && NDIRECT < n { EntryNeedsIndirect(e, inum, n - 1); }
  }

  lemma AllottedResized(d: Disk, e: Disk, f: Disk, inum: nat, lo: nat, n: nat)
    requires Allotted(d, e, inum, lo, n) && HasInode(f, inum) && f.inodes[inum].addrs == e.inodes[inum].addrs
    requires f.sb == e.sb && f.bits == e.bits && forall m :: 0 <= m < MAXFILE ==> Addr(f, inum, m) == Addr(e, inum, m)
    ensures Allotted(d, f, inum, lo, n)
  {
    hide FreeBlocks, Addr, Need;
  }

  lemma AllottedLeft(d: Disk, e: Disk, inum: nat, lo: nat, n: nat)
    requires Allotted(d, e, inum, lo, n)
    ensures Need(d, inum, lo, n) <= Left(d)
  {
    hide Left, Addr, Need;
  }
}
