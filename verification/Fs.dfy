/** Who owns each disk block (kernel/fs.c): the free map against the block pointers of all inodes. */
module Fs {
  import opened FsBits

  const NDIRECT: nat := 12
  const MAXFILE: nat := 268

  datatype Inode = Inode(kind: nat, nlink: nat, size: nat, addrs: seq<nat>)

  /** The superblock, with the number of the first data block. */
  datatype Super = Super(size: nat, inodestart: nat, bmapstart: nat, datastart: nat)

  /** The free map, the data blocks and the inodes; who owns each block; blocks allocated and not yet linked in. */
  datatype Disk = Disk(sb: Super, bits: seq<BitBlock>, blocks: map<nat, Block>, inodes: map<nat, Inode>,
                       owner: map<nat, Place>, held: set<nat>)

  /** Where a block number can be stored: a direct slot, the indirect slot, an entry of the indirect block. */
  datatype Place = Direct(inum: nat, i: nat) | Indirect(inum: nat) | Entry(inum: nat, i: nat)

  predicate BitUsed(bits: seq<BitBlock>, b: nat)
    requires b < |bits| * BPB
  {
    Bit(bits[b / BPB], b % BPB)
  }

  ghost predicate IsPlace(d: Disk, p: Place) {
    && p.inum in d.inodes && |d.inodes[p.inum].addrs| == 13
    && match p
       case Direct(_, i) => i < NDIRECT
       case Indirect(_) => true
       case Entry(inum, i) =>
         i < NINDIRECT && d.inodes[inum].addrs[NDIRECT] != 0 && d.inodes[inum].addrs[NDIRECT] in d.blocks
  }

  /** The block number stored at a place, or 0. */
  ghost function Ptr(d: Disk, p: Place): nat
    requires IsPlace(d, p)
  {
    match p
    case Direct(inum, i) => d.inodes[inum].addrs[i]
    case Indirect(inum) => d.inodes[inum].addrs[NDIRECT]
    case Entry(inum, i) => Word(d.blocks[d.inodes[inum].addrs[NDIRECT]], i)
  }

  ghost predicate Shape(d: Disk) {
    && 0 < d.sb.datastart <= d.sb.size < 0x1_0000_0000 && d.sb.size <= |d.bits| * BPB
    && (forall b :: d.sb.datastart <= b < d.sb.size ==> b in d.blocks)
    && (forall i :: i in d.inodes ==> |d.inodes[i].addrs| == 13)
  }

  /** A block number stored anywhere is stored at one place only, its owner's. */
  ghost predicate Once(d: Disk) {
    forall p :: IsPlace(d, p) && Ptr(d, p) != 0 ==> Ptr(d, p) in d.owner && d.owner[Ptr(d, p)] == p
  }

  ghost predicate Linked(d: Disk) {
    forall b :: b in d.owner ==>
      d.sb.datastart <= b < d.sb.size && b !in d.held && IsPlace(d, d.owner[b]) && Ptr(d, d.owner[b]) == b
  }

  /** A bit is set exactly for metadata, for owned blocks and for blocks on their way to an owner. */
  ghost predicate Mapped(d: Disk) {
    && (forall b :: b in d.held ==> d.sb.datastart <= b < d.sb.size)
    && forall b :: 0 <= b < d.sb.size && b < |d.bits| * BPB ==>
      (BitUsed(d.bits, b) <==> b < d.sb.datastart || b in d.owner || b in d.held)
  }

  ghost predicate Ok(d: Disk) { Shape(d) && Once(d) && Linked(d) && Mapped(d) }

  lemma OnceAt(d: Disk, p: Place)
    requires Once(d) && IsPlace(d, p) && Ptr(d, p) != 0
    ensures Ptr(d, p) in d.owner && d.owner[Ptr(d, p)] == p
  {}

  lemma LinkedAt(d: Disk, b: nat)
    requires Linked(d) && b in d.owner
    ensures d.sb.datastart <= b < d.sb.size && b !in d.held && IsPlace(d, d.owner[b]) && Ptr(d, d.owner[b]) == b
  {}

  lemma MappedAt(d: Disk, b: nat)
    requires Shape(d) && Mapped(d) && b < d.sb.size
    ensures BitUsed(d.bits, b) <==> b < d.sb.datastart || b in d.owner || b in d.held
  {
    hide BitUsed;
  }

  // ---------------------------------------------------------------- the free map

  function Mark(bits: seq<BitBlock>, b: nat): (r: seq<BitBlock>)
    requires b < |bits| * BPB
  {
    bits[b / BPB := SetBit(bits[b / BPB], b % BPB)]
  }

  function Unmark(bits: seq<BitBlock>, b: nat): (r: seq<BitBlock>)
    requires b < |bits| * BPB
  {
    bits[b / BPB := ClearBit(bits[b / BPB], b % BPB)]
  }

  lemma SameBlockBit(a: nat, b: nat)
    ensures a / BPB == b / BPB && a % BPB == b % BPB <==> a == b
  {}

  lemma MarkBits(bits: seq<BitBlock>, b: nat, c: nat)
    requires b < |bits| * BPB && c < |bits| * BPB
    ensures |Mark(bits, b)| == |bits| && (BitUsed(Mark(bits, b), c) <==> c == b || BitUsed(bits, c))
  {
    hide Bit, SetBit;
    BitOfSet(bits[b / BPB], b % BPB, c % BPB);
    SameBlockBit(b, c);
  }

  lemma UnmarkBits(bits: seq<BitBlock>, b: nat, c: nat)
    requires b < |bits| * BPB && c < |bits| * BPB
    ensures |Unmark(bits, b)| == |bits| && (BitUsed(Unmark(bits, b), c) <==> c != b && BitUsed(bits, c))
  {
    hide Bit, ClearBit;
    BitOfClear(bits[b / BPB], b % BPB, c % BPB);
    SameBlockBit(b, c);
  }

  // ---------------------------------------------------------------- balloc

  /** balloc of block b: its bit is set and it is zeroed. */
  ghost function Take(d: Disk, b: nat): (e: Disk)
    requires b < |d.bits| * BPB
  {
    d.(bits := Mark(d.bits, b), blocks := d.blocks[b := ZeroBlock()], held := d.held + {b})
  }

  lemma TakePlaces(d: Disk, b: nat)
    requires Shape(d) && Once(d) && b < d.sb.size && b !in d.owner && b >= d.sb.datastart
    ensures Shape(Take(d, b)) && forall p :: IsPlace(Take(d, b), p) <==> IsPlace(d, p)
    ensures forall p :: IsPlace(d, p) ==> Ptr(Take(d, b), p) == Ptr(d, p)
  {
    hide ZeroBlock, SetBit, Word, Once;
    var e := Take(d, b);
    forall p | IsPlace(d, p)
      ensures IsPlace(e, p) && Ptr(e, p) == Ptr(d, p) { if p.Entry? { OnceAt(d, Indirect(p.inum)); } }
  }

  lemma TakeMapped(d: Disk, b: nat)
    requires Shape(d) && Mapped(d) && d.sb.datastart <= b < d.sb.size
    ensures Mapped(Take(d, b))
  {
    hide BitUsed, Mark, ZeroBlock;
    var e := Take(d, b);
    forall c | 0 <= c < d.sb.size && c < |e.bits| * BPB
      ensures BitUsed(e.bits, c) <==> c < d.sb.datastart || c in e.owner || c in e.held
    {
      MarkBits(d.bits, b, c);
      MappedAt(d, c);
    }
  }

  /** A block whose bit is clear belongs to nobody, so it can be taken. */
  lemma TakeOk(d: Disk, b: nat)
    requires Ok(d) && b < d.sb.size && !BitUsed(d.bits, b)
    ensures d.sb.datastart <= b && b !in d.owner && b !in d.held && Ok(Take(d, b))
    ensures forall p :: IsPlace(Take(d, b), p) <==> IsPlace(d, p)
    ensures forall p :: IsPlace(d, p) ==> Ptr(Take(d, b), p) == Ptr(d, p)
  {
    hide BitUsed, Word, Mark, ZeroBlock;
    MappedAt(d, b);
    TakePlaces(d, b);
    TakeMapped(d, b);
    hide Shape, Mapped, IsPlace, Ptr;
  }

  // ---------------------------------------------------------------- linking a block in

  /** Storing b at an empty place. */
  ghost function Attach(d: Disk, p: Place, b: nat): (e: Disk)
    requires IsPlace(d, p) && b < 0x1_0000_0000
  {
    var ino := d.inodes[p.inum];
    var f := d.(owner := d.owner[b := p], held := d.held - {b});
    match p
    case Direct(inum, i) => f.(inodes := d.inodes[inum := ino.(addrs := ino.addrs[i := b])])
    case Indirect(inum) => f.(inodes := d.inodes[inum := ino.(addrs := ino.addrs[NDIRECT := b])])
    case Entry(inum, i) => f.(blocks := d.blocks[ino.addrs[NDIRECT] := SetWord(d.blocks[ino.addrs[NDIRECT]], i, b)])
  }

  ghost predicate Ready(d: Disk, p: Place, b: nat) {
    && IsPlace(d, p) && Ptr(d, p) == 0 && b in d.held && b !in d.owner && d.sb.datastart <= b < d.sb.size &&
      b in d.blocks
    && (p.Indirect? ==> d.blocks[b] == ZeroBlock())
  }

  lemma AttachPtr(d: Disk, p: Place, b: nat, q: Place)
    requires Shape(d) && Once(d) && Ready(d, p, b)
    ensures IsPlace(d, q) ==> IsPlace(Attach(d, p, b), q) && Ptr(Attach(d, p, b), q) == if q == p then b else Ptr(d, q)
    ensures IsPlace(Attach(d, p, b), q) && !IsPlace(d, q) ==> p.Indirect? && Ptr(Attach(d, p, b), q) == 0
  {
    hide Word, SetWord, ZeroBlock, Once;
    var e := Attach(d, p, b);
    if p.Entry? && q.Entry? && IsPlace(d, q) {
      var ind := d.inodes[p.inum].addrs[NDIRECT];
      WordOfSet(d.blocks[ind], p.i, b, q.i);
      OnceAt(d, Indirect(p.inum));
      if d.inodes[q.inum].addrs[NDIRECT] == ind { OnceAt(d, Indirect(q.inum)); }
    }
    if p.Indirect? && q.Entry? && q.i < NINDIRECT { ZeroWords(q.i); }
  }

  lemma AttachShape(d: Disk, p: Place, b: nat)
    requires Shape(d) && IsPlace(d, p) && b < 0x1_0000_0000
    ensures Shape(Attach(d, p, b))
  {
    hide Word, SetWord;
  }

  lemma AttachMapped(d: Disk, p: Place, b: nat)
    requires Mapped(d) && IsPlace(d, p) && b in d.held && b < 0x1_0000_0000
    ensures Mapped(Attach(d, p, b))
  {
    hide Word, SetWord, BitUsed;
  }

  /** Linking a held block in at an empty place makes it owned there. */
  lemma AttachOk(d: Disk, p: Place, b: nat)
    requires Ok(d) && Ready(d, p, b)
    ensures Ok(Attach(d, p, b))
  {
    var e := Attach(d, p, b);
    AttachShape(d, p, b);
    AttachMapped(d, p, b);
    AttachLinked(d, p, b);
    AttachOnce(d, p, b);
    hide *;
  }

  lemma AttachOnce(d: Disk, p: Place, b: nat)
    requires Shape(d) && Once(d) && Ready(d, p, b)
    ensures Once(Attach(d, p, b))
  {
    var e := Attach(d, p, b);
    assert e.owner == d.owner[b := p];
    hide Attach, Ptr, IsPlace, Shape;
    forall q | IsPlace(e, q) && Ptr(e, q) != 0 ensures Ptr(e, q) in e.owner && e.owner[Ptr(e, q)] == q {
      AttachPtr(d, p, b, q);
      if q != p { OnceAt(d, q); }
    }
  }

  lemma AttachLinked(d: Disk, p: Place, b: nat)
    requires Shape(d) && Once(d) && Linked(d) && Ready(d, p, b)
    ensures Linked(Attach(d, p, b))
  {
    var e := Attach(d, p, b);
    assert e.owner == d.owner[b := p] && e.held == d.held - {b} && e.sb == d.sb;
    hide Attach, Ptr, IsPlace, Shape, Once;
    forall c | c in e.owner
      ensures e.sb.datastart <= c < e.sb.size && c !in e.held && IsPlace(e, e.owner[c]) && Ptr(e, e.owner[c]) == c
    {
      AttachPtr(d, p, b, e.owner[c]);
      if c != b { LinkedAt(d, c); }
    }
  }

  // ---------------------------------------------------------------- itrunc

  ghost predicate Mine(d: Disk, inum: nat, b: nat) { b in d.owner && d.owner[b].inum == inum }

  /** The bits that are left when the blocks of one inode are freed. */
  ghost predicate BitsWithout(d: Disk, bits: seq<BitBlock>, inum: nat) {
    |bits| == |d.bits| &&
      forall b :: 0 <= b < d.sb.size && b < |d.bits| * BPB ==>
      (BitUsed(bits, b) <==> BitUsed(d.bits, b) && !Mine(d, inum, b))
  }

  function NoAddrs(): (a: seq<nat>)
    ensures |a| == 13 && forall i :: 0 <= i < 13 ==> a[i] == 0
  {
    seq(13, i => 0)
  }

  ghost function Truncated(d: Disk, inum: nat, bits: seq<BitBlock>): (e: Disk)
    requires inum in d.inodes
  {
    d.(bits := bits, inodes := d.inodes[inum := d.inodes[inum].(size := 0, addrs := NoAddrs())],
       owner := map b | b in d.owner && d.owner[b].inum != inum :: d.owner[b])
  }

  lemma TruncatedPtr(d: Disk, inum: nat, bits: seq<BitBlock>, q: Place)
    requires Shape(d) && inum in d.inodes
    ensures IsPlace(Truncated(d, inum, bits), q) ==>
      if q.inum == inum then Ptr(Truncated(d, inum, bits), q) == 0
      else IsPlace(d, q) && Ptr(Truncated(d, inum, bits), q) == Ptr(d, q)
    ensures IsPlace(d, q) && q.inum != inum ==> IsPlace(Truncated(d, inum, bits), q)
  {
    hide Word;
  }

  lemma TruncatedMapped(d: Disk, inum: nat, bits: seq<BitBlock>)
    requires Shape(d) && Mapped(d) && Linked(d) && inum in d.inodes && BitsWithout(d, bits, inum)
    ensures Mapped(Truncated(d, inum, bits))
  {
    var e := Truncated(d, inum, bits);
    hide BitUsed, Ptr, IsPlace, NoAddrs;
    forall b | 0 <= b < e.sb.size && b < |e.bits| * BPB
      ensures BitUsed(e.bits, b) <==> b < e.sb.datastart || b in e.owner || b in e.held {
      MappedAt(d, b);
      if b in d.owner { LinkedAt(d, b); }
    }
  }

  /** Freeing exactly the blocks one inode owns, and forgetting them, leaves everybody else's blocks owned as before. */
  lemma TruncatedOk(d: Disk, inum: nat, bits: seq<BitBlock>)
    requires Ok(d) && inum in d.inodes && BitsWithout(d, bits, inum)
    ensures Ok(Truncated(d, inum, bits))
  {
    var e := Truncated(d, inum, bits);
    TruncatedMapped(d, inum, bits);
    assert Shape(e) by { hide NoAddrs; }
    hide Ptr, IsPlace, Shape, Mapped, BitsWithout, NoAddrs;
    forall q | IsPlace(e, q) && Ptr(e, q) != 0 ensures Ptr(e, q) in e.owner && e.owner[Ptr(e, q)] == q {
      TruncatedPtr(d, inum, bits, q);
      OnceAt(d, q);
    }
    forall b | b in e.owner
      ensures e.sb.datastart <= b < e.sb.size && b !in e.held && IsPlace(e, e.owner[b]) && Ptr(e, e.owner[b]) == b {
      LinkedAt(d, b);
      TruncatedPtr(d, inum, bits, d.owner[b]);
    }
  }

  /** The places itrunc has freed after i direct slots, j entries and, at last, the indirect slot. */
  ghost predicate Gone(p: Place, inum: nat, i: nat, j: nat, all: bool) {
    p.inum == inum && match p case Direct(_, k) => k < i case Entry(_, k) => k < j case Indirect(_) => all
  }

  ghost predicate BitsLeft(d: Disk, bits: seq<BitBlock>, inum: nat, i: nat, j: nat, all: bool) {
    && |bits| == |d.bits|
    && forall b :: 0 <= b < d.sb.size && b < |d.bits| * BPB ==>
         (BitUsed(bits, b) <==> BitUsed(d.bits, b) && !(b in d.owner && Gone(d.owner[b], inum, i, j, all)))
  }

  lemma BitsAll(d: Disk, inum: nat)
    ensures BitsLeft(d, d.bits, inum, 0, 0, false)
  {
    hide BitUsed;
  }

  /** The block stored at a place not freed yet still has its bit: freeing it cannot panic, and frees it alone. */
  lemma FreeOne(d: Disk, bits: seq<BitBlock>, inum: nat, i: nat, j: nat, all: bool, p: Place, i': nat, j': nat,
                all': bool)
    requires Ok(d) && BitsLeft(d, bits, inum, i, j, all) && IsPlace(d, p) && Ptr(d, p) != 0 && !Gone(p, inum, i, j, all)
    requires forall q :: Gone(q, inum, i', j', all') <==> Gone(q, inum, i, j, all) || q == p
    ensures Ptr(d, p) < |bits| * BPB && BitUsed(bits, Ptr(d, p)) &&
      BitsLeft(d, Unmark(bits, Ptr(d, p)), inum, i', j', all')
  {
    hide BitUsed, Unmark, Gone, Word;
    var b := Ptr(d, p);
    OnceAt(d, p);
    LinkedAt(d, b);
    MappedAt(d, b);
    hide Ptr, IsPlace;
    forall c | 0 <= c < d.sb.size && c < |d.bits| * BPB
      ensures |Unmark(bits, b)| == |bits| &&
        (BitUsed(Unmark(bits, b), c) <==> BitUsed(d.bits, c) && !(c in d.owner && Gone(d.owner[c], inum, i', j', all')))
    {
      UnmarkBits(bits, b, c);
      if c in d.owner { LinkedAt(d, c); }
    }
    UnmarkBits(bits, b, b);
  }

  /** An empty place has nothing to free. */
  lemma FreeNone(d: Disk, bits: seq<BitBlock>, inum: nat, i: nat, j: nat, all: bool, p: Place, i': nat, j': nat,
                 all': bool)
    requires Ok(d) && BitsLeft(d, bits, inum, i, j, all) && !(IsPlace(d, p) && Ptr(d, p) != 0)
    requires forall q :: Gone(q, inum, i', j', all') <==> Gone(q, inum, i, j, all) || q == p
    ensures BitsLeft(d, bits, inum, i', j', all')
  {
    hide BitUsed, Gone, Word;
    forall b | b in d.owner ensures d.owner[b] != p { LinkedAt(d, b); }
    hide Ptr, IsPlace;
  }

  /** Without an indirect block there are no entries. */
  lemma NoEntries(d: Disk, bits: seq<BitBlock>, inum: nat)
    requires Ok(d) && BitsLeft(d, bits, inum, NDIRECT, 0, false) && inum in d.inodes &&
      d.inodes[inum].addrs[NDIRECT] == 0
    ensures BitsLeft(d, bits, inum, NDIRECT, NINDIRECT, true)
  {
    hide BitUsed, Word;
    forall b | b in d.owner && d.owner[b].inum == inum ensures d.owner[b].Direct? { LinkedAt(d, b); }
  }

  lemma AllGone(d: Disk, bits: seq<BitBlock>, inum: nat)
    requires Ok(d) && BitsLeft(d, bits, inum, NDIRECT, NINDIRECT, true)
    ensures BitsWithout(d, bits, inum)
  {
    hide BitUsed, Word;
    forall b | b in d.owner
      ensures Gone(d.owner[b], inum, NDIRECT, NINDIRECT, true) <==> Mine(d, inum, b) { LinkedAt(d, b); }
  }
}
