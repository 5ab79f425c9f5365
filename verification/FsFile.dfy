/** Files as bytes: what an inode's block pointers say each byte of a file is. */
module FsFile {
  import opened FsBits
  import opened Fs

  const MAXBYTES: nat := 274432

  ghost predicate HasInode(d: Disk, inum: nat) { inum in d.inodes && |d.inodes[inum].addrs| == 13 }

  ghost function DataPlace(inum: nat, bn: nat): Place {
    if bn < NDIRECT then Direct(inum, bn) else Entry(inum, bn - NDIRECT)
  }

  /** The block that holds block bn of a file, or 0. */
  ghost function Addr(d: Disk, inum: nat, bn: nat): nat
    requires HasInode(d, inum) && bn < MAXFILE
  {
    if IsPlace(d, DataPlace(inum, bn)) then Ptr(d, DataPlace(inum, bn)) else 0
  }

  /** Byte o of a file; bytes never written are 0. */
  ghost function FileByte(d: Disk, inum: nat, o: nat): byte
    requires HasInode(d, inum) && o < MAXBYTES
  {
    var a := Addr(d, inum, o / 1024);
    if a != 0 && a in d.blocks then d.blocks[a][o % 1024] else 0
  }

  /** No file has a different byte, a different size or a lost block. */
  ghost predicate SameFiles(d: Disk, e: Disk) {
    && d.inodes.Keys == e.inodes.Keys
    && (forall i :: HasInode(d, i) ==> HasInode(e, i) && e.inodes[i].size == d.inodes[i].size)
    && (forall i, o :: HasInode(d, i) && HasInode(e, i) && 0 <= o < MAXBYTES ==> FileByte(e, i, o) == FileByte(d, i, o))
    && (forall i, n :: HasInode(d, i) && HasInode(e, i) && 0 <= n < MAXFILE && Addr(d, i, n) != 0 ==>
      Addr(e, i, n) == Addr(d, i, n))
  }

  lemma SameFilesTrans(d: Disk, e: Disk, f: Disk)
    requires SameFiles(d, e) && SameFiles(e, f)
    ensures SameFiles(d, f)
  {
    hide FileByte, Addr;
  }

  lemma SameFilesRefl(d: Disk)
    ensures SameFiles(d, d)
  {
    hide FileByte, Addr;
  }

  lemma DataBlock(d: Disk, inum: nat, bn: nat)
    requires Ok(d) && HasInode(d, inum) && bn < MAXFILE && Addr(d, inum, bn) != 0
    ensures Addr(d, inum, bn) in d.owner && d.owner[Addr(d, inum, bn)] == DataPlace(inum, bn) &&
      Addr(d, inum, bn) in d.blocks
    ensures d.sb.datastart <= Addr(d, inum, bn) < d.sb.size
  {
    OnceAt(d, DataPlace(inum, bn));
    LinkedAt(d, Addr(d, inum, bn));
  }

  /** balloc changes no file. */
  lemma TakeFiles(d: Disk, b: nat)
    requires Ok(d) && b < d.sb.size && !BitUsed(d.bits, b)
    ensures SameFiles(d, Take(d, b)) &&
      (forall i, n :: HasInode(d, i) && 0 <= n < MAXFILE ==> Addr(Take(d, b), i, n) == Addr(d, i, n))
  {
    TakeOk(d, b);
    var e := Take(d, b);
    assert e.inodes == d.inodes && forall c :: c in d.blocks && c != b ==> c in e.blocks && e.blocks[c] == d.blocks[c];
    hide Take, Ptr, IsPlace, BitUsed, Ok;
    forall i, o | HasInode(d, i) && 0 <= o < MAXBYTES ensures FileByte(e, i, o) == FileByte(d, i, o) {
      if Addr(d, i, o / 1024) != 0 { DataBlock(d, i, o / 1024); }
    }
  }

  /** Linking in a zeroed block changes no file: unwritten bytes read 0 before and after. */
  lemma AttachFiles(d: Disk, p: Place, b: nat)
    requires Ok(d) && Ready(d, p, b) && d.blocks[b] == ZeroBlock()
    ensures SameFiles(d, Attach(d, p, b))
    ensures forall i, n :: HasInode(d, i) && 0 <= n < MAXFILE ==>
      HasInode(Attach(d, p, b), i) && Addr(Attach(d, p, b), i, n) == if DataPlace(i, n) == p then b else Addr(d, i, n)
  {
    var e := Attach(d, p, b);
    AttachInodes(d, p, b);
    hide Attach, Ptr, IsPlace, Ok, FileByte, Addr;
    forall i, n | HasInode(d, i) && 0 <= n < MAXFILE
      ensures Addr(e, i, n) == if DataPlace(i, n) == p then b else Addr(d, i, n) {
      AttachAddr(d, p, b, i, n);
    }
    forall i, n | HasInode(d, i) && 0 <= n < MAXFILE && Addr(d, i, n) != 0
      ensures Addr(e, i, n) == Addr(d, i, n) { FullPlace(d, p, b, i, n); }
    forall i, o | HasInode(d, i) && 0 <= o < MAXBYTES ensures FileByte(e, i, o) == FileByte(d, i, o) {
      AttachAddr(d, p, b, i, o / 1024);
      AttachByte(d, p, b, i, o);
    }
  }

  lemma FullPlace(d: Disk, p: Place, b: nat, i: nat, n: nat)
    requires Ready(d, p, b) && HasInode(d, i) && n < MAXFILE && Addr(d, i, n) != 0
    ensures DataPlace(i, n) != p
  {}

  lemma AttachInodes(d: Disk, p: Place, b: nat)
    requires Ready(d, p, b) && b < 0x1_0000_0000
    ensures var e := Attach(d, p, b);
      e.inodes.Keys == d.inodes.Keys &&
      forall i :: HasInode(d, i) ==> HasInode(e, i) && e.inodes[i].size == d.inodes[i].size
  {
    hide SetWord;
  }

  lemma AttachAddr(d: Disk, p: Place, b: nat, i: nat, n: nat)
    requires Ok(d) && Ready(d, p, b) && HasInode(d, i) && n < MAXFILE
    ensures HasInode(Attach(d, p, b), i) &&
      Addr(Attach(d, p, b), i, n) == if DataPlace(i, n) == p then b else Addr(d, i, n)
  {
    AttachInodes(d, p, b);
    AttachPtr(d, p, b, DataPlace(i, n));
    hide Attach, Ptr, IsPlace, Ok;
  }

  lemma AttachByte(d: Disk, p: Place, b: nat, i: nat, o: nat)
    requires Ok(d) && Ready(d, p, b) && d.blocks[b] == ZeroBlock() && HasInode(d, i) && HasInode(Attach(d, p, b), i) &&
      o < MAXBYTES
    requires Addr(Attach(d, p, b), i, o / 1024) == if DataPlace(i, o / 1024) == p then b else Addr(d, i, o / 1024)
    ensures FileByte(Attach(d, p, b), i, o) == FileByte(d, i, o)
  {
    var e := Attach(d, p, b);
    if DataPlace(i, o / 1024) == p {
      AttachKeepsBlock(d, p, b, b);
    } else if Addr(d, i, o / 1024) != 0 {
      DataBlock(d, i, o / 1024);
      AttachKeepsBlock(d, p, b, Addr(d, i, o / 1024));
    }
  }

  /** The only block contents that change are an indirect block's. */
  lemma AttachKeepsBlock(d: Disk, p: Place, b: nat, c: nat)
    requires Ok(d) && Ready(d, p, b) && c in d.blocks && (c == b || (c in d.owner && !d.owner[c].Indirect?))
    ensures c in Attach(d, p, b).blocks && Attach(d, p, b).blocks[c] == d.blocks[c]
  {
    hide SetWord, Word;
    if p.Entry? { OnceAt(d, Indirect(p.inum)); }
  }

  /** Changing the bytes of one data block changes the file it belongs to, there and nowhere else. */
  lemma WriteBlock(d: Disk, inum: nat, bn: nat, data: Block, i: nat, o: nat)
    requires Ok(d) && HasInode(d, inum) && bn < MAXFILE && Addr(d, inum, bn) != 0 && HasInode(d, i) && o < MAXBYTES
    ensures var e := d.(blocks := d.blocks[Addr(d, inum, bn) := data]);
      FileByte(e, i, o) == if i == inum && o / 1024 == bn then data[o % 1024] else FileByte(d, i, o)
  {
    DataBlock(d, inum, bn);
    SameAddrs(d, inum, bn, data, i, o / 1024);
    if Addr(d, i, o / 1024) != 0 {
      DataBlock(d, i, o / 1024);
      if Addr(d, i, o / 1024) == Addr(d, inum, bn) { assert DataPlace(i, o / 1024) == DataPlace(inum, bn); }
    }
    hide Ok, Addr;
  }

  lemma SameAddrs(d: Disk, inum: nat, bn: nat, data: Block, i: nat, n: nat)
    requires Ok(d) && HasInode(d, inum) && bn < MAXFILE && Addr(d, inum, bn) != 0 && HasInode(d, i) && n < MAXFILE
    ensures var e := d.(blocks := d.blocks[Addr(d, inum, bn) := data]); Addr(e, i, n) == Addr(d, i, n)
  {
    hide Word;
    DataBlock(d, inum, bn);
    if IsPlace(d, DataPlace(i, n)) && n >= NDIRECT { OnceAt(d, Indirect(i)); }
  }

  /** ... and keeps every block owned as it was. */
  lemma WriteBlockOk(d: Disk, inum: nat, bn: nat, data: Block)
    requires Ok(d) && HasInode(d, inum) && bn < MAXFILE && Addr(d, inum, bn) != 0
    ensures Ok(d.(blocks := d.blocks[Addr(d, inum, bn) := data]))
  {
    hide Word, BitUsed;
    DataBlock(d, inum, bn);
    var e := d.(blocks := d.blocks[Addr(d, inum, bn) := data]);
    forall p | IsPlace(d, p)
      ensures IsPlace(e, p) && Ptr(e, p) == Ptr(d, p) { if p.Entry? { OnceAt(d, Indirect(p.inum)); } }
    forall p | IsPlace(e, p) ensures IsPlace(d, p) {}
  }

  // ---------------------------------------------------------------- writing and reading

  /** Every block below byte hi of the file is there. */
  ghost predicate Covered(d: Disk, inum: nat, hi: nat) {
    HasInode(d, inum) && forall n :: 0 <= n < MAXFILE && n * 1024 < hi ==> Addr(d, inum, n) != 0
  }

  /** A file has no holes. */
  ghost predicate HoleFree(d: Disk, inum: nat) {
    HasInode(d, inum) && d.inodes[inum].size <= MAXBYTES && Covered(d, inum, d.inodes[inum].size)
  }

  /** From d to e, the first k bytes of src came to be at offset off of one file; no other byte of any file changed, and
      no file lost a block. */
  ghost predicate Spliced(d: Disk, e: Disk, inum: nat, off: nat, src: seq<byte>, k: nat) {
    && k <= |src| && d.inodes.Keys == e.inodes.Keys
    && (forall i :: HasInode(d, i) ==> HasInode(e, i))
    && (forall i, o :: HasInode(d, i) && HasInode(e, i) && 0 <= o < MAXBYTES ==>
          FileByte(e, i, o) == if i == inum && off <= o < off + k then src[o - off] else FileByte(d, i, o))
    && (forall i, n :: HasInode(d, i) && HasInode(e, i) && 0 <= n < MAXFILE && Addr(d, i, n) != 0 ==>
      Addr(e, i, n) != 0)
  }

  /** A write leaves the files it is not to without holes. */
  lemma HoleFreeKept(d: Disk, e: Disk, inum: nat, off: nat, src: seq<byte>, k: nat, i: nat)
    requires Spliced(d, e, inum, off, src, k) && HoleFree(d, i) && i in e.inodes && e.inodes[i].size == d.inodes[i].size
    ensures HoleFree(e, i)
  {
    hide FileByte, Addr;
  }

  // ---------------------------------------------------------------- what is logged

  /** Every block and every block of the free map that differs between d and e is in the given set. */
  ghost predicate Logs(d: Disk, e: Disk, dirty: set<nat>) {
    && |d.bits| == |e.bits| && d.sb == e.sb
    && (forall b :: b in e.blocks ==> b in dirty || (b in d.blocks && e.blocks[b] == d.blocks[b]))
    && (forall k :: 0 <= k < |e.bits| ==> e.bits[k] == d.bits[k] || d.sb.bmapstart + k in dirty)
  }

  lemma LogsThen(d: Disk, e: Disk, f: Disk, a: set<nat>, b: set<nat>)
    requires Logs(d, e, a) && Logs(e, f, b) && a <= b
    ensures Logs(d, f, b)
  {}

  lemma LogsWider(d: Disk, e: Disk, a: set<nat>, b: set<nat>)
    requires Logs(d, e, a) && a <= b
    ensures Logs(d, e, b)
  {}

  lemma LogsTake(d: Disk, b: nat)
    requires b < d.sb.size <= |d.bits| * BPB
    ensures Logs(d, Take(d, b), {d.sb.bmapstart + b / BPB, b})
  {}

  lemma LogsBlock(d: Disk, e: Disk, b: nat, data: Block, dirty: set<nat>)
    requires e.blocks == d.blocks[b := data] && e.bits == d.bits && e.sb == d.sb && b in dirty
    ensures Logs(d, e, dirty)
  {}

  lemma LogsNothing(d: Disk, e: Disk, dirty: set<nat>)
    requires d.blocks == e.blocks && d.bits == e.bits && d.sb == e.sb
    ensures Logs(d, e, dirty)
  {}

  function Patch(b: Block, at: nat, src: seq<byte>, k: nat, m: nat): (r: Block)
    requires at + m <= 1024 && k + m <= |src|
    ensures forall o :: 0 <= o < 1024 ==> r[o] == if at <= o < at + m then src[k + (o - at)] else b[o]
  {
    seq(1024, o requires 0 <= o < 1024 => if at <= o < at + m then src[k + (o - at)] else b[o])
  }

  lemma SplicedNone(d: Disk, inum: nat, off: nat, src: seq<byte>)
    ensures Spliced(d, d, inum, off, src, 0)
  {
    hide FileByte, Addr;
  }

  lemma SplicedSame(d: Disk, e: Disk, f: Disk, inum: nat, off: nat, src: seq<byte>, k: nat)
    requires Spliced(d, e, inum, off, src, k) && SameFiles(e, f)
    ensures Spliced(d, f, inum, off, src, k)
  {
    hide FileByte, Addr;
  }

  lemma CoveredSame(d: Disk, e: Disk, inum: nat, hi: nat)
    requires Covered(d, inum, hi) && SameFiles(d, e)
    ensures Covered(e, inum, hi)
  {
    hide FileByte, Addr;
  }

  lemma CoveredMore(d: Disk, inum: nat, hi: nat, at: nat, m: nat)
    requires Covered(d, inum, hi) && at <= hi && at / 1024 < MAXFILE && Addr(d, inum, at / 1024) != 0 &&
      at % 1024 + m <= 1024
    ensures Covered(d, inum, if at + m > hi then at + m else hi)
  {
    hide Addr;
    forall n | 0 <= n < MAXFILE && n * 1024 < (if at + m > hi then at + m else hi) ensures Addr(d, inum, n) != 0 {
      if n * 1024 >= hi { assert n <= at / 1024; assert n >= at / 1024; }
    }
  }

  lemma InBlock(o: nat, at: nat, m: nat)
    requires at % 1024 + m <= 1024
    ensures at <= o < at + m <==> o / 1024 == at / 1024 && at % 1024 <= o % 1024 < at % 1024 + m
    ensures o / 1024 == at / 1024 ==> o - at == o % 1024 - at % 1024
  {}

  /** Patching one block extends the splice. */
  lemma SplicedMore(d: Disk, e: Disk, inum: nat, off: nat, src: seq<byte>, k: nat, m: nat)
    requires Ok(e) && HasInode(e, inum) && Spliced(d, e, inum, off, src, k) && k + m <= |src|
    requires (off + k) / 1024 < MAXFILE && (off + k) % 1024 + m <= 1024 && Addr(e, inum, (off + k) / 1024) != 0 &&
      Addr(e, inum, (off + k) / 1024) in e.blocks
    ensures var a := Addr(e, inum, (off + k) / 1024);
      Spliced(d, e.(blocks := e.blocks[a := Patch(e.blocks[a], (off + k) % 1024, src, k, m)]), inum, off, src, k + m)
  {
    var bn := (off + k) / 1024;
    var a := Addr(e, inum, bn);
    var data := Patch(e.blocks[a], (off + k) % 1024, src, k, m);
    var f := e.(blocks := e.blocks[a := data]);
    hide Ok, Addr, Patch;
    forall i, o | HasInode(d, i) && HasInode(f, i) && 0 <= o < MAXBYTES
      ensures FileByte(f, i, o) == if i == inum && off <= o < off + (k + m) then src[o - off] else FileByte(d, i, o)
    {
      WriteBlock(e, inum, bn, data, i, o);
      InBlock(o, off + k, m);
      assert FileByte(e, i, o) == if i == inum && off <= o < off + k then src[o - off] else FileByte(d, i, o);
      if i == inum && o / 1024 == bn { assert FileByte(e, i, o) == e.blocks[a][o % 1024]; }
    }
    forall i, n | HasInode(d, i) && HasInode(f, i) && 0 <= n < MAXFILE && Addr(d, i, n) != 0
      ensures Addr(f, i, n) != 0 {
      SameAddrs(e, inum, bn, data, i, n);
    }
  }

  /** Setting the size changes no byte. */
  lemma ResizeFiles(d: Disk, inum: nat, size: nat)
    requires Ok(d) && HasInode(d, inum)
    ensures var e := d.(inodes := d.inodes[inum := d.inodes[inum].(size := size)]);
      && Ok(e) && d.inodes.Keys == e.inodes.Keys && (forall i :: HasInode(d, i) <==> HasInode(e, i))
      && (forall i, n :: HasInode(d, i) && 0 <= n < MAXFILE ==> Addr(e, i, n) == Addr(d, i, n))
      && (forall i, o :: HasInode(d, i) && 0 <= o < MAXBYTES ==> FileByte(e, i, o) == FileByte(d, i, o))
  {
    hide Word, BitUsed;
    var e := d.(inodes := d.inodes[inum := d.inodes[inum].(size := size)]);
    assert forall p :: IsPlace(e, p) <==> IsPlace(d, p);
    forall p | IsPlace(d, p) ensures Ptr(e, p) == Ptr(d, p) {}
    hide IsPlace, Ptr;
  }

  /** dst is what the file has from off on. */
  ghost predicate IsSlice(d: Disk, inum: nat, off: nat, dst: seq<byte>) {
    HasInode(d, inum) && forall j :: 0 <= j < |dst| ==> off + j < MAXBYTES && dst[j] == FileByte(d, inum, off + j)
  }

  lemma SliceNone(d: Disk, inum: nat, off: nat)
    requires HasInode(d, inum)
    ensures IsSlice(d, inum, off, [])
  {}

  /** What is written is what is read: the slice at off of the new contents is src. */
  lemma ReadBack(d: Disk, e: Disk, inum: nat, off: nat, src: seq<byte>, dst: seq<byte>)
    requires Spliced(d, e, inum, off, src, |src|) && HasInode(d, inum) && HasInode(e, inum) &&
      off + |src| <= MAXBYTES && |dst| == |src|
    requires IsSlice(e, inum, off, dst)
    ensures dst == src
  {
    hide FileByte, Addr;
    forall k | 0 <= k < |dst| ensures dst[k] == src[k] { assert FileByte(e, inum, off + k) == src[off + k - off]; }
  }
}
