/** Blocks, inodes and file contents (kernel/fs.c), as the caller holding the inode lock inside a transaction sees
    them. */
module FsDisk {
  import opened FsBits
  import opened Fs
  import opened FsFile
  import opened FsSpace

  class FileSystem {
    const sb: Super
    var bits: seq<BitBlock>
    var blocks: map<nat, Block>
    var inodes: map<nat, Inode>
    /** The blocks logged by the current operation; and each operation before it, with what it made of the disk. */
    ghost var dirty: set<nat>
    ghost var ops: seq<Op>
    ghost var owner: map<nat, Place>
    ghost var held: set<nat>

    ghost function View(): (d: Disk)
      reads this
    {
      Disk(sb, bits, blocks, inodes, owner, held)
    }

    ghost function BitBlockOf(b: nat): nat { sb.bmapstart + b / BPB }

    constructor (d: Disk)
      requires Ok(d)
      ensures View() == d && dirty == {} && ops == []
    {
      sb, bits, blocks, inodes, owner, held, dirty, ops := d.sb, d.bits, d.blocks, d.inodes, d.owner, d.held, {}, [];
    }

    /** balloc: the first block whose bit is clear, or 0. */
    method Balloc() returns (r: nat)
      requires Ok(View())
      modifies this`bits, this`blocks, this`held, this`dirty
      ensures Ok(View())
      ensures r == 0 ==>
        View() == old(View()) && dirty == old(dirty) &&
        forall c :: 0 <= c < sb.size && c < |bits| * BPB ==> BitUsed(bits, c)
      ensures r != 0 ==>
        r < sb.size <= |old(bits)| * BPB && !BitUsed(old(bits), r) && forall c :: 0 <= c < r ==> BitUsed(old(bits), c)
      ensures r != 0 ==> View() == Take(old(View()), r) && dirty == old(dirty) + {BitBlockOf(r), r}
    {
      hide Once, Linked, Mapped, Bit, SetBit, ZeroBlock;
      var b := 0;
      while b < sb.size
        invariant b % BPB == 0 && View() == old(View()) && dirty == old(dirty)
        invariant forall c :: 0 <= c < b && c < sb.size ==> BitUsed(bits, c)
        decreases sb.size - b
      {
        var bi := 0;
        while bi < BPB && b + bi < sb.size
          invariant bi <= BPB && View() == old(View()) && dirty == old(dirty)
          invariant forall c :: 0 <= c < b + bi && c < sb.size ==> BitUsed(bits, c)
        {
          BlockIndex(b, bi);
          if !Bit(bits[b / BPB], bi) {
            ghost var d := View();
            r := b + bi;
            TakeOk(d, r);
            bits := bits[b / BPB := SetBit(bits[b / BPB], bi)];
            blocks := blocks[r := ZeroBlock()];
            held := held + {r};
            dirty := dirty + {BitBlockOf(r), r};
            assert View() == Take(d, r);
            return;
          }
          bi := bi + 1;
        }
        b := b + BPB;
      }
      r := 0;
    }

    ghost predicate Full()
      reads this`bits
    {
      forall c :: 0 <= c < sb.size && c < |bits| * BPB ==> BitUsed(bits, c)
    }

    /** balloc, in terms of files: none changes, and the block is ready to be linked in anywhere. */
    method Fresh() returns (r: nat)
      requires Ok(View())
      modifies this`bits, this`blocks, this`held, this`dirty
      ensures Ok(View()) && SameFiles(old(View()), View()) && Logs(old(View()), View(), dirty)
      ensures r == 0 ==> View() == old(View()) && dirty == old(dirty) && Full()
      ensures r != 0 ==>
        held == old(held) + {r} && r !in old(held) && r !in owner && dirty == old(dirty) + {BitBlockOf(r), r}
      ensures r != 0 ==> sb.datastart <= r < sb.size && r in blocks && blocks[r] == ZeroBlock()
      ensures r != 0 ==> r < |old(bits)| * BPB && !BitUsed(old(bits), r) && View() == Take(old(View()), r)
      ensures r == 0 ==> Left(View()) == 0
      ensures forall p :: old(IsPlace(View(), p)) ==> IsPlace(View(), p) && Ptr(View(), p) == old(Ptr(View(), p))
    {
      hide Ok, SameFiles, Ptr, IsPlace, BitUsed, Mark, ZeroBlock, Logs, Left;
      ghost var d := View();
      SameFilesRefl(d);
      LogsNothing(d, d, dirty);
      r := Balloc();
      if r == 0 {
        FullLeft(d);
      } else {
        TakeOk(d, r);
        TakeFiles(d, r);
        LogsTake(d, r);
        LogsWider(d, View(), {BitBlockOf(r), r}, dirty);
      }
    }

    /** bfree, of a block whose bit is set: otherwise it panics. */
    method Bfree(b: nat)
      requires b < |bits| * BPB && BitUsed(bits, b)
      modifies this`bits, this`dirty
      ensures bits == Unmark(old(bits), b) && dirty == old(dirty) + {BitBlockOf(b)}
    {
      bits := bits[b / BPB := ClearBit(bits[b / BPB], b % BPB)];
      dirty := dirty + {BitBlockOf(b)};
    }

    /** Linking a freshly allocated block in. */
    method Link(inum: nat, k: nat, b: nat)
      requires Ok(View()) && HasInode(View(), inum) && k <= NDIRECT
      requires var p := if k < NDIRECT then Direct(inum, k) else Indirect(inum);
        Ready(View(), p, b) && blocks[b] == ZeroBlock()
      modifies this`inodes, this`owner, this`held
      ensures var p := if k < NDIRECT then Direct(inum, k) else Indirect(inum);
        Ok(View()) && old(Ready(View(), p, b)) && b < 0x1_0000_0000 && View() == Attach(old(View()), p, b) &&
          SameFiles(old(View()), View())
    {
      hide Ok, SameFiles, ZeroBlock;
      ghost var d := View();
      ghost var p := if k < NDIRECT then Direct(inum, k) else Indirect(inum);
      OkSize(d);
      AttachOk(d, p, b);
      AttachFiles(d, p, b);
      inodes := inodes[inum := inodes[inum].(addrs := inodes[inum].addrs[k := b])];
      owner := owner[b := p];
      held := held - {b};
      assert View() == Attach(d, p, b);
    }

    /** Linking a freshly allocated block in at an entry of the indirect block. */
    method LinkEntry(inum: nat, i: nat, b: nat)
      requires Ok(View()) && Ready(View(), Entry(inum, i), b) && blocks[b] == ZeroBlock()
      modifies this`blocks, this`owner, this`held, this`dirty
      ensures Ok(View()) && old(Ready(View(), Entry(inum, i), b)) && b < 0x1_0000_0000 &&
        View() == Attach(old(View()), Entry(inum, i), b)
      ensures SameFiles(old(View()), View()) && dirty == old(dirty) + {inodes[inum].addrs[NDIRECT]} &&
        held == old(held) - {b}
      ensures Logs(old(View()), View(), dirty)
    {
      hide Ok, SameFiles, ZeroBlock, SetWord, Logs;
      ghost var d := View();
      OkSize(d);
      AttachOk(d, Entry(inum, i), b);
      AttachFiles(d, Entry(inum, i), b);
      var ind := inodes[inum].addrs[NDIRECT];
      blocks := blocks[ind := SetWord(blocks[ind], i, b)];
      owner := owner[b := Entry(inum, i)];
      held := held - {b};
      dirty := dirty + {ind};
      assert View() == Attach(d, Entry(inum, i), b);
      LogsBlock(d, View(), ind, blocks[ind], dirty);
    }

    /** bmap: the block for block bn of the file, allocated if need be, or 0 when the disk is full. */
    method Bmap(inum: nat, bn: nat) returns (addr: nat)
      requires Ok(View()) && HasInode(View(), inum) && bn < MAXFILE
      modifies this`bits, this`blocks, this`held, this`dirty, this`inodes, this`owner
      ensures Ok(View()) && SameFiles(old(View()), View()) && HasInode(View(), inum) && held == old(held)
      ensures old(dirty) <= dirty && Logs(old(View()), View(), dirty)
      ensures addr == Addr(View(), inum, bn)
      ensures addr == 0 ==> Full()
      ensures Allots(old(View()), View(), inum, bn, addr)
      ensures old(Addr(View(), inum, bn)) != 0 ==> View() == old(View()) && dirty == old(dirty)
      ensures old(inodes[inum].addrs[NDIRECT]) != 0 ==> inodes[inum].addrs[NDIRECT] == old(inodes[inum].addrs[NDIRECT])
      ensures bn < NDIRECT ==> inodes[inum].addrs[NDIRECT] == old(inodes[inum].addrs[NDIRECT])
      ensures dirty <=
        old(dirty) + (if addr == 0 then {} else {BitBlockOf(addr), addr}) +
        IndirectDirty(old(inodes[inum].addrs[NDIRECT]), bn, inodes[inum].addrs[NDIRECT])
      ensures inodes == old(inodes)[inum := old(inodes)[inum].(addrs := inodes[inum].addrs)]
    {
      hide Ok, SameFiles, Addr, Logs, Allots, Grows;
      if bn < NDIRECT {
        addr := BmapDirect(inum, bn);
        return;
      }
      ghost var d := View();
      var ok := BmapIndirect(inum, bn);
      if !ok { return 0; }
      ghost var e, a := View(), dirty;
      addr := BmapEntry(inum, bn);
      SameFilesTrans(d, e, View());
      LogsThen(d, e, View(), a, dirty);
      if d.inodes[inum].addrs[NDIRECT] == 0 { AllotsAfter(d, e, View(), inum, bn, addr); }
    }

    /** The part of bmap for the direct slots. */
    method BmapDirect(inum: nat, bn: nat) returns (addr: nat)
      requires Ok(View()) && HasInode(View(), inum) && bn < NDIRECT
      modifies this`bits, this`blocks, this`held, this`dirty, this`inodes, this`owner
      ensures Ok(View()) && SameFiles(old(View()), View()) && HasInode(View(), inum) && held == old(held)
      ensures old(dirty) <= dirty && Logs(old(View()), View(), dirty)
      ensures addr == Addr(View(), inum, bn)
      ensures addr == 0 ==> Full()
      ensures Allots(old(View()), View(), inum, bn, addr)
      ensures old(Addr(View(), inum, bn)) != 0 ==> View() == old(View()) && dirty == old(dirty)
      ensures inodes[inum].addrs[NDIRECT] == old(inodes[inum].addrs[NDIRECT])
      ensures dirty <= old(dirty) + (if addr == 0 then {} else {BitBlockOf(addr), addr})
      ensures inodes == old(inodes)[inum := old(inodes)[inum].(addrs := inodes[inum].addrs)]
    {
      hide Ok, SameFiles, Ptr, IsPlace, BitUsed, ZeroBlock, Addr, Attach, Take, Logs, Allots, Left;
      ghost var d := View();
      SameFilesRefl(d);
      LogsNothing(d, d, dirty);
      DirectAddr(d, inum, bn);
      addr := inodes[inum].addrs[bn];
      if addr != 0 {
        AllotsKept(d, inum, bn);
        return;
      }
      addr := Fresh();
      ghost var e := View();
      DirectAddr(e, inum, bn);
      if addr == 0 {
        AllotsNone(d, inum, bn);
        return;
      }
      LinkDirect(inum, bn, addr);
      AllotsOne(d, View(), addr, inum, bn);
      SameFilesTrans(d, e, View());
      LogsNothing(e, View(), dirty);
      LogsThen(d, e, View(), dirty, dirty);
      assert held == old(held);
    }

    /** The part of bmap that makes sure of the indirect block. */
    method BmapIndirect(inum: nat, bn: nat) returns (ok: bool)
      requires Ok(View()) && HasInode(View(), inum) && NDIRECT <= bn < MAXFILE
      modifies this`bits, this`blocks, this`held, this`dirty, this`inodes, this`owner
      ensures Ok(View()) && SameFiles(old(View()), View()) && HasInode(View(), inum) && held == old(held)
      ensures old(dirty) <= dirty && Logs(old(View()), View(), dirty)
      ensures var was, ind := old(inodes[inum].addrs[NDIRECT]), inodes[inum].addrs[NDIRECT];
        && (ok <==> ind != 0) && (was != 0 ==> View() == old(View()) && dirty == old(dirty))
        && (was == 0 && ok ==> Grows(old(View()), View(), inum) && dirty == old(dirty) + {BitBlockOf(ind), ind})
      ensures !ok ==> View() == old(View()) && dirty == old(dirty) && Full()
      ensures !ok ==> Addr(View(), inum, bn) == 0 && Allots(View(), View(), inum, bn, 0)
      ensures inodes == old(inodes)[inum := old(inodes)[inum].(addrs := inodes[inum].addrs)]
      ensures old(Addr(View(), inum, bn)) != 0 ==> View() == old(View()) && dirty == old(dirty)
    {
      hide Ok, SameFiles, Ptr, IsPlace, BitUsed, ZeroBlock, Addr, Attach, Take, Logs, Allots, Left, Grows;
      ghost var d := View();
      SameFilesRefl(d);
      LogsNothing(d, d, dirty);
      DirectAddr(d, inum, bn);
      if inodes[inum].addrs[NDIRECT] != 0 { return true; }
      var addr := Fresh();
      ghost var e := View();
      DirectAddr(e, inum, bn);
      if addr == 0 {
        AllotsNone(d, inum, bn);
        return false;
      }
      LinkIndirect(inum, addr);
      IndirectGrows(d, View(), addr, inum);
      SameFilesTrans(d, e, View());
      LogsNothing(e, View(), dirty);
      LogsThen(d, e, View(), dirty, dirty);
      assert held == old(held);
      return true;
    }

    method LinkDirect(inum: nat, bn: nat, b: nat)
      requires Ok(View()) && HasInode(View(), inum) && bn < NDIRECT && Ready(View(), Direct(inum, bn), b) &&
        blocks[b] == ZeroBlock()
      modifies this`inodes, this`owner, this`held
      ensures Ok(View()) && SameFiles(old(View()), View()) && HasInode(View(), inum) && Addr(View(), inum, bn) == b &&
        held == old(held) - {b}
      ensures b < 0x1_0000_0000 && old(Ready(View(), Direct(inum, bn), b)) &&
        View() == Attach(old(View()), Direct(inum, bn), b)
      ensures inodes == old(inodes)[inum := old(inodes)[inum].(addrs := old(inodes)[inum].addrs[bn := b])]
    {
      hide Ok, SameFiles, Ptr, ZeroBlock, Addr;
      ghost var d := View();
      OkSize(d);
      Link(inum, bn, b);
      Attached(d, Direct(inum, bn), b, inum, bn);
    }

    method LinkIndirect(inum: nat, b: nat)
      requires Ok(View()) && HasInode(View(), inum) && Ready(View(), Indirect(inum), b) && blocks[b] == ZeroBlock()
      modifies this`inodes, this`owner, this`held
      ensures Ok(View()) && SameFiles(old(View()), View()) && HasInode(View(), inum) && held == old(held) - {b}
      ensures b < 0x1_0000_0000 && old(Ready(View(), Indirect(inum), b)) &&
        View() == Attach(old(View()), Indirect(inum), b)
      ensures inodes == old(inodes)[inum := old(inodes)[inum].(addrs := old(inodes)[inum].addrs[NDIRECT := b])]
    {
      hide Ok, SameFiles, Ptr, ZeroBlock;
      OkSize(View());
      Link(inum, NDIRECT, b);
    }

    /** The part of bmap that reads the indirect block. */
    method BmapEntry(inum: nat, bn: nat) returns (addr: nat)
      requires Ok(View()) && HasInode(View(), inum) && NDIRECT <= bn < MAXFILE && inodes[inum].addrs[NDIRECT] != 0
      modifies this`bits, this`blocks, this`held, this`dirty, this`owner
      ensures Ok(View()) && SameFiles(old(View()), View()) && held == old(held)
      ensures old(dirty) <= dirty && Logs(old(View()), View(), dirty)
      ensures addr == Addr(View(), inum, bn)
      ensures addr == 0 ==> Full()
      ensures Allots(old(View()), View(), inum, bn, addr)
      ensures old(Addr(View(), inum, bn)) != 0 ==> View() == old(View()) && dirty == old(dirty)
      ensures dirty <= old(dirty) + (if addr == 0 then {} else {BitBlockOf(addr), addr}) + {inodes[inum].addrs[NDIRECT]}
    {
      hide Ok, SameFiles, Ptr, IsPlace, BitUsed, ZeroBlock, Addr, Attach, Take, Word, Logs, Allots, Left;
      ghost var d := View();
      SameFilesRefl(d);
      LogsNothing(d, d, dirty);
      EntryAddr(d, inum, bn);
      addr := Word(blocks[inodes[inum].addrs[NDIRECT]], bn - NDIRECT);
      if addr != 0 {
        AllotsKept(d, inum, bn);
        return;
      }
      addr := Fresh();
      ghost var e, a := View(), dirty;
      EntryAddr(e, inum, bn);
      if addr == 0 {
        AllotsNone(d, inum, bn);
        return;
      }
      LinkEntry(inum, bn - NDIRECT, addr);
      Attached(e, Entry(inum, bn - NDIRECT), addr, inum, bn);
      AllotsOne(d, View(), addr, inum, bn);
      SameFilesTrans(d, e, View());
      LogsThen(d, e, View(), a, dirty);
      assert held == old(held);
    }

    ghost function IndirectDirty(was: nat, bn: nat, now: nat): set<nat> {
      if bn < NDIRECT || now == 0 then {} else {now} + (if was == 0 then {BitBlockOf(now)} else {})
    }

    /** itrunc: frees exactly the blocks the inode owns; no bfree on the way can panic. */
    method Itrunc(inum: nat)
      requires Ok(View()) && HasInode(View(), inum)
      modifies this`bits, this`inodes, this`owner, this`dirty
      ensures Ok(View()) && BitsWithout(old(View()), bits, inum) && View() == Truncated(old(View()), inum, bits)
      ensures inodes == old(inodes)[inum := old(inodes)[inum].(size := 0, addrs := NoAddrs())] && blocks == old(blocks)
      ensures KeepsWhole(old(View()), View())
    {
      hide Ok, BitsLeft, Gone, BitUsed, Ptr, IsPlace, Truncated, BitsWithout, NoAddrs, KeepsWhole;
      ghost var d := View();
      FreeDirect(inum);
      if inodes[inum].addrs[NDIRECT] != 0 {
        FreeIndirect(inum, d);
      } else {
        NoEntries(d, bits, inum);
      }
      inodes := inodes[inum := inodes[inum].(size := 0)];
      dirty := dirty + {sb.inodestart + inum / 16};
      AllGone(d, bits, inum);
      TruncatedOk(d, inum, bits);
      owner := Truncated(d, inum, bits).owner;
      SameTruncated(d, View(), inum, bits);
      TruncatedFields(d, inum, bits);
      TruncatedWhole(d, inum, bits);
    }

    /** The first loop of itrunc. */
    method FreeDirect(inum: nat)
      requires Ok(View()) && HasInode(View(), inum)
      modifies this`bits, this`inodes, this`dirty
      ensures BitsLeft(old(View()), bits, inum, NDIRECT, 0, false) && inodes.Keys == old(inodes.Keys) &&
        HasInode(View(), inum)
      ensures OnlyAddrs(old(inodes), inodes, inum, NDIRECT)
    {
      hide Ok, BitsLeft, Gone, BitUsed, Ptr, IsPlace, Unmark;
      ghost var d := View();
      BitsAll(d, inum);
      var i := 0;
      while i < NDIRECT
        invariant i <= NDIRECT && BitsLeft(d, bits, inum, i, 0, false) && inodes.Keys == d.inodes.Keys
        invariant OnlyAddrs(d.inodes, inodes, inum, i) && |inodes[inum].addrs| == 13
      {
        GoneDirect(inum, i);
        DirectAddr(d, inum, i);
        if inodes[inum].addrs[i] != 0 {
          FreeOne(d, bits, inum, i, 0, false, Direct(inum, i), i + 1, 0, false);
          Bfree(inodes[inum].addrs[i]);
          inodes := inodes[inum := inodes[inum].(addrs := inodes[inum].addrs[i := 0])];
        } else {
          FreeNone(d, bits, inum, i, 0, false, Direct(inum, i), i + 1, 0, false);
        }
        i := i + 1;
      }
    }

    /** The second half of itrunc, when there is an indirect block. */
    method FreeIndirect(inum: nat, ghost d: Disk)
      requires Ok(d) && HasInode(d, inum) && HasInode(View(), inum) && d.blocks == blocks && d.sb == sb
      requires BitsLeft(d, bits, inum, NDIRECT, 0, false) && OnlyAddrs(d.inodes, inodes, inum, NDIRECT)
      requires inodes[inum].addrs[NDIRECT] != 0
      modifies this`bits, this`inodes, this`dirty
      ensures BitsLeft(d, bits, inum, NDIRECT, NINDIRECT, true) && HasInode(View(), inum)
      ensures inodes == old(inodes)[inum := old(inodes)[inum].(addrs := old(inodes)[inum].addrs[NDIRECT := 0])]
    {
      hide Ok, BitsLeft, Gone, BitUsed, Ptr, IsPlace, Unmark, Word;
      DirectAddr(d, inum, 0);
      var ind := inodes[inum].addrs[NDIRECT];
      EntryAddr(d, inum, NDIRECT);
      var j := 0;
      while j < NINDIRECT
        invariant j <= NINDIRECT && BitsLeft(d, bits, inum, NDIRECT, j, false) && inodes == old(inodes)
      {
        GoneEntry(inum, j);
        EntryAddr(d, inum, j + NDIRECT);
        if Word(blocks[ind], j) != 0 {
          FreeOne(d, bits, inum, NDIRECT, j, false, Entry(inum, j), NDIRECT, j + 1, false);
          Bfree(Word(blocks[ind], j));
        } else {
          FreeNone(d, bits, inum, NDIRECT, j, false, Entry(inum, j), NDIRECT, j + 1, false);
        }
        j := j + 1;
      }
      GoneIndirect(inum);
      FreeOne(d, bits, inum, NDIRECT, NINDIRECT, false, Indirect(inum), NDIRECT, NINDIRECT, true);
      Bfree(ind);
      inodes := inodes[inum := inodes[inum].(addrs := inodes[inum].addrs[NDIRECT := 0])];
    }

    /** One block of writei: bmap, then the copy into the block and log_write. With a faulting source only the bytes
        before the fault are copied and the block is not logged. */
    method WriteChunk(inum: nat, off: nat, src: seq<byte>, tot: nat, m: nat, ghost d: Disk, ghost top: nat)
      returns (addr: nat)
      requires Ok(View()) && HasInode(View(), inum) && Logs(d, View(), dirty) &&
        Spliced(d, View(), inum, off, src, tot) && Covered(View(), inum, top) && off + tot <= top
      requires (off + tot) / 1024 < MAXFILE && (off + tot) % 1024 + m <= 1024
      modifies this`bits, this`blocks, this`held, this`dirty, this`inodes, this`owner
      ensures Ok(View()) && HasInode(View(), inum) && held == old(held) && SizesSame(old(inodes), inodes)
      ensures inodes == old(inodes)[inum := inodes[inum]] && old(dirty) <= dirty
      ensures Logs(d, View(),
        if addr != 0 && tot + m > |src| > tot then dirty + {Addr(View(), inum, (off + tot) / 1024)} else dirty)
      ensures addr == 0 ==> Full() && Spliced(d, View(), inum, off, src, tot) && Covered(View(), inum, top)
      ensures addr != 0 ==> var k := if tot + m <= |src| then m else |src| - tot;
        Spliced(d, View(), inum, off, src, tot + k) &&
          Covered(View(), inum, if off + tot + m > top then off + tot + m else top)
      ensures Allots(old(View()), View(), inum, (off + tot) / 1024, addr)
      ensures addr == Addr(View(), inum, (off + tot) / 1024)
      ensures var ind, now, bn := old(inodes[inum].addrs[NDIRECT]), inodes[inum].addrs[NDIRECT], (off + tot) / 1024;
        && (ind != 0 || bn < NDIRECT ==> now == ind)
        && (old(Addr(View(), inum, bn)) != 0 ==> now == ind && addr != 0 && dirty <= old(dirty) + {addr})
        && dirty <= old(dirty) + (if addr == 0 then {} else {BitBlockOf(addr), addr}) + IndirectDirty(ind, bn, now)
    {
      hide Ok, SameFiles, BitUsed, Addr, Covered, Spliced, Logs, Allots;
      ghost var d0, a := View(), dirty;
      addr := Bmap(inum, (off + tot) / 1024);
      ghost var e := View();
      LogsThen(d, d0, e, a, dirty);
      SplicedSame(d, d0, e, inum, off, src, tot);
      CoveredSame(d0, e, inum, top);
      if addr != 0 {
        ghost var data := CopyIn(inum, off, src, tot, m, addr, d, top);
        AllotsPatched(d0, e, inum, (off + tot) / 1024, data);
      }
    }

    /** The copy into the block at addr. */
    method CopyIn(inum: nat, off: nat, src: seq<byte>, tot: nat, m: nat, addr: nat, ghost d: Disk, ghost top: nat)
      returns (ghost data: Block)
      requires Ok(View()) && HasInode(View(), inum) && Logs(d, View(), dirty) &&
        Spliced(d, View(), inum, off, src, tot) && Covered(View(), inum, top) && off + tot <= top
      requires (off + tot) / 1024 < MAXFILE && (off + tot) % 1024 + m <= 1024 &&
        addr == Addr(View(), inum, (off + tot) / 1024) != 0
      modifies this`blocks, this`dirty
      ensures Ok(View()) && View() == old(View()).(blocks := old(blocks)[addr := data]) &&
        addr == Addr(View(), inum, (off + tot) / 1024)
      ensures dirty == if tot + m <= |src| then old(dirty) + {addr} else old(dirty)
      ensures Logs(d, View(), if tot + m > |src| > tot then dirty + {addr} else dirty)
      ensures var k := if tot + m <= |src| then m else |src| - tot;
        Spliced(d, View(), inum, off, src, tot + k) &&
          Covered(View(), inum, if off + tot + m > top then off + tot + m else top)
    {
      hide Ok, SameFiles, BitUsed, Addr, Covered, Spliced, Patch, Logs;
      ghost var e := View();
      SplicedBound(d, e, inum, off, src, tot);
      DataBlock(e, inum, (off + tot) / 1024);
      var k := if tot + m <= |src| then m else |src| - tot;
      var new_ := Patch(blocks[addr], (off + tot) % 1024, src, tot, k);
      data := new_;
      SplicedMore(d, e, inum, off, src, tot, k);
      WriteBlockOk(e, inum, (off + tot) / 1024, data);
      CoveredMore(e, inum, top, off + tot, m);
      CoveredPatched(e, inum, (off + tot) / 1024, data, if off + tot + m > top then off + tot + m else top);
      blocks := blocks[addr := new_];
      LogsWider(d, e, dirty, dirty + {addr});
      if k == 0 { assert data == e.blocks[addr] && e.(blocks := e.blocks[addr := data]) == e; }
      LogsBlock(e, View(), addr, data, dirty + {addr});
      LogsThen(d, e, View(), dirty + {addr}, dirty + {addr});
      SameAddrs(e, inum, (off + tot) / 1024, data, inum, (off + tot) / 1024);
      if tot + m <= |src| { dirty := dirty + {addr}; }
      assert View() == e.(blocks := e.blocks[addr := data]);
    }

    /** The end of writei: the size. */
    method Finish(inum: nat, end: nat, ghost d: Disk, ghost off: nat, ghost src: seq<byte>, ghost seen: nat,
                  ghost top: nat)
      requires Ok(View()) && HasInode(View(), inum) && Covered(View(), inum, top) &&
        Spliced(d, View(), inum, off, src, seen)
      requires end <= top && inodes[inum].size <= top && end <= MAXBYTES && inodes[inum].size <= MAXBYTES
      modifies this`inodes
      ensures Ok(View()) && HoleFree(View(), inum) && Spliced(d, View(), inum, off, src, seen)
      ensures HasInode(View(), inum) &&
        forall bn :: 0 <= bn < MAXFILE ==> Addr(View(), inum, bn) == old(Addr(View(), inum, bn))
      ensures inodes ==
        old(inodes)[inum := old(inodes)[inum].(size := if end > old(inodes)[inum].size then end
        else old(inodes)[inum].size)]
    {
      ghost var e, size := View(), if end > inodes[inum].size then end else inodes[inum].size;
      ResizeFiles(e, inum, size);
      if end > inodes[inum].size { inodes := inodes[inum := inodes[inum].(size := end)]; }
      assert View() == e.(inodes := e.inodes[inum := e.inodes[inum].(size := size)]);
      hide Ok, FileByte, Addr;
      ResizeSpliced(d, e, View(), inum, off, src, seen);
      ResizeCovered(e, View(), inum, top, size);
    }

    /** writei: src holds the bytes of the source up to a fault, if any. Every block that changed is logged, but for
        spare, the block in which a fault leaves bytes past those counted. */
    method Writei(inum: nat, src: seq<byte>, off: nat, n: nat) returns (r: int, ghost seen: nat, ghost spare: set<nat>)
      requires Ok(View()) && HoleFree(View(), inum) && |src| <= n < 0x1_0000_0000 && off < 0x1_0000_0000
      modifies this`bits, this`blocks, this`held, this`dirty, this`inodes, this`owner
      ensures Ok(View()) && HoleFree(View(), inum) && held == old(held) && KeepsWhole(old(View()), View())
      ensures r == -1 <==> off > old(inodes[inum].size) || off + n > MAXBYTES
      ensures r == -1 ==> View() == old(View()) && dirty == old(dirty)
      ensures r != -1 ==> 0 <= r <= seen <= |src| && Spliced(old(View()), View(), inum, off, src, seen)
      ensures r != -1 ==>
        HasInode(View(), inum) && inodes == old(inodes)[inum := Sized(old(inodes)[inum], off + r, inodes[inum].addrs)]
      ensures r != -1 ==> sb.inodestart + inum / 16 in dirty && old(dirty) <= dirty
      ensures r != -1 && seen != r ==> (off + r) / 1024 < MAXFILE
      ensures r == n ==> Allotted(old(View()), View(), inum, off / 1024, Next(off, n))
      ensures Logs(old(View()), View(), dirty + spare) &&
        spare == if r == -1 || seen == r then {} else {Addr(View(), inum, (off + r) / 1024)}
      ensures r != -1 ==> Halted(old(View()), inum, off, |src|, n, r, seen)
      ensures r != -1 && !Enough(old(View()), inum, off, |src|, n) ==> Full() && off + n > old(inodes[inum].size)
      ensures n <= 3072 && old(dirty) == {} ==> |dirty| <= 10
      ensures old(Homed(View(), dirty)) ==> Homed(View(), dirty)
    {
      hide Ok, Progress, Full, Budget, Spliced, HoleFree, Logs, Addr, WholeBlocks, Chunks, Halted, Enough, Homed,
        Allotted, Next;
      LogsNothing(View(), View(), dirty + {});
      HoleFreeSize(View(), inum);
      if off > inodes[inum].size || off + n >= 0x1_0000_0000 { return -1, 0, {}; }
      if off + n > MAXBYTES { return -1, 0, {}; }
      ghost var d := View();
      ghost var c, top;
      r, seen, spare, c, top := WriteBlocks(inum, src, off, n);
      FinishWrite(inum, off, r, n, d, old(dirty), src, seen, top, c, spare);
    }

    /** writei's loop. */
    method WriteBlocks(inum: nat, src: seq<byte>, off: nat, n: nat)
      returns (tot: nat, ghost seen: nat, ghost spare: set<nat>, ghost c: Count, ghost top: nat)
      requires Ok(View()) && HoleFree(View(), inum) && off <= inodes[inum].size && off + n <= MAXBYTES && |src| <= n
      modifies this`bits, this`blocks, this`held, this`dirty, this`inodes, this`owner
      ensures held == old(held) &&
        Wrote(old(View()), View(), old(dirty), dirty, inum, off, n, src, tot, seen, spare, c, top)
      ensures !Enough(old(View()), inum, off, |src|, n) ==> Full() && off + n > old(inodes[inum].size)
    {
      hide Ok, Full, HoleFree, Writing, Wrote, Enough, Logs;
      ghost var d, dirty0 := View(), dirty;
      HoleFreeSize(d, inum);
      WritingStarts(d, dirty, inum, off, n, src);
      seen, spare, c, top := 0, {}, Count(0, 0), inodes[inum].size;
      tot := 0;
      while tot < n
        invariant tot <= n && tot <= |src| && held == old(held) &&
          Writing(d, View(), dirty0, dirty, inum, off, n, src, tot, top, c)
        decreases n - tot
      {
        var stop;
        tot, stop, seen, spare, c, top := WriteNext(inum, off, n, src, tot, d, dirty0, top, c);
        if stop { return; }
      }
      seen, spare := tot, {};
      WritingEnds(d, View(), dirty0, dirty, inum, off, n, src, tot, top, c);
    }

    /** One round of writei's loop, or the last. */
    method WriteNext(inum: nat, off: nat, n: nat, src: seq<byte>, tot: nat, ghost d: Disk, ghost dirty0: set<nat>,
                     ghost top: nat, ghost c: Count)
      returns (tot': nat, stop: bool, ghost seen: nat, ghost spare: set<nat>, ghost c': Count, ghost top': nat)
      requires Writing(d, View(), dirty0, dirty, inum, off, n, src, tot, top, c) && tot < n && tot <= |src| <= n &&
        off + n <= MAXBYTES
      modifies this`bits, this`blocks, this`held, this`dirty, this`inodes, this`owner
      ensures held == old(held) && HasInode(d, inum)
      ensures !stop ==>
        Writing(d, View(), dirty0, dirty, inum, off, n, src, tot', top', c') && tot < tot' <= n && tot' <= |src|
      ensures stop ==> Wrote(d, View(), dirty0, dirty, inum, off, n, src, tot', seen, spare, c', top')
      ensures stop && !Enough(d, inum, off, |src|, n) ==> Full() && off + n > d.inodes[inum].size
    {
      hide Ok, Progress, Full, Budget, Logs, Addr, Chunks, Counted, ChunkSize, Allots, Allotted, Halted, Enough, Homed,
        Next;
      ghost var e := View();
      var addr, m;
      assert dirty + {} == dirty;
      addr, m, c', top', spare := WriteStep(inum, off, n, src, tot, d, top, d.inodes[inum].addrs[NDIRECT], c, |dirty0|);
      assert dirty + {} == dirty;
      tot', seen, stop := tot, tot, true;
      if addr == 0 {
        HaltFull(d, e, View(), inum, off, |src|, n, tot, c);
      } else if tot + m > |src| {
        HaltFault(d, e, View(), inum, off, |src|, n, tot, m, c, addr);
        seen := |src|;
      } else {
        NextAllot(d, e, View(), inum, off, n, tot, m, c, addr);
        tot', stop := tot + m, false;
      }
    }

    /** One round of writei's loop. */
    method WriteStep(inum: nat, off: nat, n: nat, src: seq<byte>, tot: nat, ghost d: Disk, ghost top: nat,
                     ghost ind0: nat, ghost c: Count, ghost base: nat)
      returns (addr: nat, m: nat, ghost c': Count, ghost top': nat, ghost spare: set<nat>)
      requires Ok(View()) && HasInode(View(), inum) && Progress(d, View(), inum, off, src, tot, top) && tot < n &&
        off + n <= MAXBYTES && tot <= |src|
      requires Budget(dirty, inodes[inum].addrs[NDIRECT], ind0, c, base) && Counted(off, n, tot, c) &&
        Logs(d, View(), dirty + {})
      modifies this`bits, this`blocks, this`held, this`dirty, this`inodes, this`owner
      ensures Ok(View()) && HasInode(View(), inum) && held == old(held) && 0 < m && tot + m <= n &&
        m == ChunkSize(off, n, tot)
      ensures inodes == old(inodes)[inum := inodes[inum]] && old(dirty) <= dirty && (off + tot) / 1024 < MAXFILE
      ensures Logs(d, View(), dirty + spare)
      ensures spare == if addr != 0 && tot + m > |src| > tot then {Addr(View(), inum, (off + tot) / 1024)} else {}
      ensures top' == if addr != 0 && off + tot + m > top then off + tot + m else top
      ensures addr == 0 ==> Full() && top <= off + tot && Progress(d, View(), inum, off, src, tot, top)
      ensures addr != 0 ==> Progress(d, View(), inum, off, src, if tot + m <= |src| then tot + m else |src|, top')
      ensures Budget(dirty, inodes[inum].addrs[NDIRECT], ind0, c', base) && Chunks(off, n, c'.kept, c'.added)
      ensures addr != 0 && tot + m <= |src| ==> Counted(off, n, tot + m, c')
      ensures Allots(old(View()), View(), inum, (off + tot) / 1024, addr)
      ensures old(Homed(View(), dirty)) ==> Homed(View(), dirty)
    {
      hide Ok, BitUsed, Addr, Covered, Spliced, Full, SizesSame, Rest, Chunks, Logs, Allots, Progress, Budget, Counted,
        Homed;
      m := if n - tot < 1024 - (off + tot) % 1024 then n - tot else 1024 - (off + tot) % 1024;
      ghost var e, dirty0, ind, had := View(), dirty, inodes[inum].addrs[NDIRECT],
        Addr(View(), inum, (off + tot) / 1024) != 0;
      StepReady(d, e, inum, off, src, tot, top, n, m, c);
      assert dirty + {} == dirty;
      addr := WriteChunk(inum, off, src, tot, m, d, top);
      spare := if addr != 0 && tot + m > |src| > tot then {Addr(View(), inum, (off + tot) / 1024)} else {};
      assert dirty + {} == dirty;
      c' := if addr == 0 then c else if had then Count(c.kept + 1, c.added) else Count(c.kept, c.added + 1);
      top' := if addr != 0 && off + tot + m > top then off + tot + m else top;
      StepProgress(d, e, View(), inum, off, src, tot, top,
        if addr == 0 then tot else if tot + m <= |src| then tot + m else |src|, top');
      ghost var now := inodes[inum].addrs[NDIRECT];
      StepBudget(dirty0, dirty, ind, now, BitBlockOf(addr), addr, BitBlockOf(now), had, c, ind0, base);
      HomedStep(d, e, View(), dirty0 + {}, dirty + spare, inum, (off + tot) / 1024, addr, dirty0, dirty);
    }

    /** The end of writei: the size, and iupdate. */
    method FinishWrite(inum: nat, off: nat, tot: nat, n: nat, ghost d: Disk, ghost dirty0: set<nat>,
                       ghost src: seq<byte>, ghost seen: nat,
                       ghost top: nat, ghost c: Count, ghost spare: set<nat>)
      requires Wrote(d, View(), dirty0, dirty, inum, off, n, src, tot, seen, spare, c, top) && off + tot <= MAXBYTES
      requires HasInode(d, inum) && d.inodes[inum].size <= MAXBYTES
      modifies this`inodes, this`dirty
      ensures Ok(View()) && HoleFree(View(), inum) && Spliced(d, View(), inum, off, src, seen) && KeepsWhole(d, View())
      ensures dirty == old(dirty) + {sb.inodestart + inum / 16} && Logs(d, View(), dirty + spare)
      ensures HasInode(View(), inum) &&
        forall bn :: 0 <= bn < MAXFILE ==> Addr(View(), inum, bn) == old(Addr(View(), inum, bn))
      ensures inodes == d.inodes[inum := Sized(d.inodes[inum], off + tot, inodes[inum].addrs)]
      ensures tot == n ==> Allotted(d, View(), inum, off / 1024, Next(off, n))
      ensures n <= 3072 && dirty0 == {} ==> |dirty| <= 10
      ensures Homed(d, dirty0) ==> Homed(View(), dirty)
    {
      hide Ok, Covered, Spliced, SizesSame, Rest, HoleFree, Logs, Addr, Homed, Halted, Allotted, Next;
      ghost var e, a := View(), dirty;
      SizesAt(d.inodes, inodes, inum);
      RestAll(dirty, inodes[inum].addrs[NDIRECT], sb.inodestart + inum / 16);
      Finish(inum, off + tot, d, off, src, seen, top);
      dirty := dirty + {sb.inodestart + inum / 16};
      LogsNothing(e, View(), a + spare);
      LogsThen(d, e, View(), a + spare, a + spare);
      LogsWider(d, View(), a + spare, dirty + spare);
      if tot == n { AllottedResized(d, e, View(), inum, off / 1024, Next(off, n)); }
      HomedInode(e, View(), inum, a);
      forall i | HoleFree(d, i) ensures HoleFree(View(), i) {
        if i != inum { OthersHoleFree(d, View(), inum, off, src, seen, i); }
      }
    }

    /** readi: the bytes of the file from off on, up to its end; room is how much of the destination can be written. */
    method Readi(inum: nat, off: nat, n: nat, room: nat) returns (r: int, dst: seq<byte>)
      requires Ok(View()) && HoleFree(View(), inum) && off < 0x1_0000_0000 && n < 0x1_0000_0000
      modifies this`bits, this`blocks, this`held, this`dirty, this`inodes, this`owner
      ensures View() == old(View()) && dirty == old(dirty)
      ensures var k := Readable(inodes[inum].size, off, n);
        && (r == -1 <==> room < k) && (r != -1 ==> r == k == |dst|)
      ensures IsSlice(View(), inum, off, dst)
    {
      hide Ok, HoleFree, IsSlice, Addr, SameFiles;
      dst := [];
      HoleFreeSize(View(), inum);
      assert IsSlice(View(), inum, off, dst) by { SliceNone(View(), inum, off); }
      if off > inodes[inum].size || off + n >= 0x1_0000_0000 { return 0, dst; }
      var n' := if off + n > inodes[inum].size then inodes[inum].size - off else n;
      while |dst| < n'
        invariant |dst| <= n' && |dst| <= room && View() == old(View()) && dirty == old(dirty)
        invariant IsSlice(View(), inum, off, dst)
        decreases n' - |dst|
      {
        var at := off + |dst|;
        HoleFreeAt(View(), inum, at / 1024);
        var addr := Bmap(inum, at / 1024);
        DataBlock(View(), inum, at / 1024);
        var m := if n' - |dst| < 1024 - at % 1024 then n' - |dst| else 1024 - at % 1024;
        if |dst| + m > room { return -1, dst; }
        SliceMore(View(), inum, off, dst, m, addr);
        dst := dst + blocks[addr][at % 1024..at % 1024 + m];
      }
      return |dst|, dst;
    }

    /** begin_op, writei of one chunk, end_op. */
    method WriteOp(inum: nat, src: seq<byte>, off: nat, n: nat) returns (r: int, ghost seen: nat, ghost spare: set<nat>)
      requires Ok(View()) && HoleFree(View(), inum) && |src| <= n <= 3072 && off < 0x1_0000_0000
      modifies this`bits, this`blocks, this`held, this`dirty, this`inodes, this`owner, this`ops
      ensures Ok(View()) && HoleFree(View(), inum) && KeepsWhole(old(View()), View())
      ensures r == -1 ==> View() == old(View())
      ensures r != -1 ==>
        0 <= r <= seen <= |src| && Spliced(old(View()), View(), inum, off, src, seen) && off + r <= MAXBYTES
      ensures ops == old(ops) + [Op(dirty, View())] && Txn(old(View()), View(), inum, dirty, spare)
      ensures |spare| <= 1 && (r == -1 || seen == r ==> spare == {})
      ensures HasInode(View(), inum) && (r == -1 <==> off > old(inodes[inum].size) || off + n > MAXBYTES)
      ensures r != -1 ==> Halted(old(View()), inum, off, |src|, n, r, seen)
      ensures r != -1 ==> inodes == old(inodes)[inum := Sized(old(inodes)[inum], off + r, inodes[inum].addrs)]
      ensures r == n ==> Allotted(old(View()), View(), inum, off / 1024, Next(off, n))
    {
      hide Ok, HoleFree, Spliced, Full, Logs, Addr, WholeBlocks, Halted, Enough, Allotted, Next;
      ghost var d := View();
      HoleFreeSize(d, inum);
      dirty := {};
      r, seen, spare := Writei(inum, src, off, n);
      ops := ops + [Op(dirty, View())];
    }

    /** One round of filewrite, at byte i. */
    method WriteRound(inum: nat, src: seq<byte>, off: nat, i: nat, n1: nat, ghost d: Disk, ghost mine: seq<Op>,
                      ghost n: nat)
      returns (r: int, ghost seen: nat, ghost spare: set<nat>)
      requires Chunked(d, View(), inum, off, src, i, mine, {}) && i == 3072 * |mine| <= |src| && 0 < n1 <= 3072 &&
        off + i < 0x1_0000_0000
      requires Grown(d, View(), inum, off, i) && |src| <= n && i < n && n1 == Chunk(n, i)
      modifies this`bits, this`blocks, this`held, this`dirty, this`inodes, this`owner, this`ops
      ensures Chunked(d, View(), inum, off, src, seen, mine + [Op(dirty, View())], spare) &&
        ops == old(ops) + [Op(dirty, View())]
      ensures r == -1 ==> seen == i && spare == {}
      ensures r != -1 ==> 0 <= r <= n1 && i + r <= seen <= |src| && seen <= i + n1 && off + i + r <= MAXBYTES
      ensures |spare| <= 1 && (r != -1 && seen == i + r ==> spare == {})
      ensures r == n1 ==> Grown(d, View(), inum, off, i + n1)
      ensures r != n1 ==> ChunkHalted(d, inum, off, |src|, n, i, if r == -1 then i else i + r, seen)
      ensures r != n1 ==> Longer(d, View(), inum, off, if r == -1 then i else i + r)
    {
      hide Ok, HoleFree, Spliced, Full, Logs, Addr, Union, KeepsWhole, EachFits, Chunked, Txn, Halted, Allotted, Next,
        Grown, ChunkHalted, Longer;
      var part := src[i..if i + n1 <= |src| then i + n1 else |src|];
      ghost var e := View();
      ghost var more;
      ChunkedFile(d, e, inum, off, src, i, mine);
      r, more, spare := WriteOp(inum, part, off + i, n1);
      seen := if r == -1 then i else i + more;
      ChunkedMore(d, e, View(), inum, off, src, i, mine, part, r, more, dirty, spare);
      if r == n1 {
        ChunkGrows(d, e, View(), inum, off, i, n1);
      } else if r == -1 {
        ChunkRefused(d, e, inum, off, |src|, n, i);
      } else {
        ChunkStops(d, e, View(), inum, off, |src|, n, i, r, more);
      }
    }

    /** filewrite on an inode: one transaction per chunk of three blocks, added to ops. Together they log every block
        that changed, but for the one a faulting source leaves bytes in. */
    method Filewrite(inum: nat, src: seq<byte>, off: nat, n: nat)
      returns (ret: int, off': nat, ghost seen: nat, ghost spare: set<nat>, ghost mine: seq<Op>)
      requires Ok(View()) && HoleFree(View(), inum) && |src| <= n < 0x8000_0000 && off < 0x1_0000_0000
      modifies this`bits, this`blocks, this`held, this`dirty, this`inodes, this`owner, this`ops
      ensures Ok(View()) && HoleFree(View(), inum) && KeepsWhole(old(View()), View())
      ensures off <= off' && ops == old(ops) + mine && |mine| == Rounds(off' - off, n)
      ensures EachFits(mine) && Runs(old(View()), inum, off, src, mine, seen, spare) &&
        View() == Before(old(View()), mine, |mine|)
      ensures Logs(old(View()), View(), Union(mine) + spare) && |spare| <= 1 && (seen == off' - off ==> spare == {})
      ensures off' - off <= seen <= |src| && Spliced(old(View()), View(), inum, off, src, seen)
      ensures ret == (if off' == off + n then n else -1) && (ret == n ==> seen == n)
      ensures ret == n <==> |src| == n && Fits(old(View()), inum, off, n)
      ensures ret != n ==> var done := off' - off;
        ChunkHalted(old(View()), inum, off, |src|, n, done - done % 3072, done, seen)
      ensures Longer(old(View()), View(), inum, off, off' - off)
    {
      hide Ok, HoleFree, Spliced, Full, Logs, Addr, Union, Rounds, KeepsWhole, EachFits, Chunked, Runs, Before,
        Grown, ChunkHalted, Longer, Fits;
      var max := (MAXOPBLOCKS - 1 - 1 - 2) / 2 * 1024;
      ghost var d := View();
      mine := [];
      HoleFreeSize(d, inum);
      ChunkedNone(d, inum, off, src);
      GrownNone(d, inum, off);
      RoundsMore(0, n, 0);
      var i := 0;
      while i < n
        invariant i <= n && i <= |src| && Chunked(d, View(), inum, off, src, i, mine, {}) &&
          (i > 0 ==> off + i <= MAXBYTES) && Grown(d, View(), inum, off, i)
        invariant ops == old(ops) + mine && (i < n ==> i % 3072 == 0) && |mine| == Rounds(i, n) - if i < n then 1 else 0
        decreases n - i
      {
        var n1 := if n - i > max then max else n - i;
        var r;
        RoundsCount(i, n);
        r, seen, spare := WriteRound(inum, src, off, i, n1, d, mine, n);
        RoundsMore(i, n, r);
        mine := mine + [Op(dirty, View())];
        if r != n1 {
          off' := off + if r == -1 then i else i + r;
          ChunkedMeans(d, View(), inum, off, src, seen, mine, spare);
          HaltedShort(d, inum, off, |src|, n, i, off' - off, seen);
          return -1, off', seen, spare, mine;
        }
        i := i + r;
      }
      ChunkedMeans(d, View(), inum, off, src, n, mine, {});
      GrownFits(d, View(), inum, off, n);
      return n, off + n, n, {}, mine;
    }
  }

  const MAXOPBLOCKS: nat := 10

  /** The inode after a write that ends at byte end. */
  ghost function Sized(ino: Inode, end: nat, addrs: seq<nat>): Inode {
    ino.(size := if end > ino.size then end else ino.size, addrs := addrs)
  }

  /** How many transactions filewrite makes: one for every 3072 bytes written, and one that stops short. */
  function Rounds(done: nat, n: nat): (k: nat) { if done == n then (n + 3071) / 3072 else done / 3072 + 1 }

  lemma RoundsMore(i: nat, n: nat, r: int)
    requires i % 3072 == 0 && i <= n && -1 <= r <= 3072 && i + r <= n
    ensures n == 0 ==> Rounds(0, n) == 0
    ensures i < n && 0 <= r < 3072 && i + r < n ==> Rounds(i + r, n) == Rounds(i, n)
    ensures i < n && r == 3072 && i + r < n ==> Rounds(i + r, n) == Rounds(i, n) + 1
    ensures i < n && i + r == n ==> Rounds(i + r, n) == Rounds(i, n)
    ensures 0 < n ==> Rounds(0, n) == 1
  {}

  lemma RoundsCount(i: nat, n: nat)
    requires i % 3072 == 0 && i < n
    ensures i == 3072 * (Rounds(i, n) - 1)
  {}

  /** One transaction: the blocks it logged, and the disk after it. */
  datatype Op = Op(logged: set<nat>, after: Disk)

  ghost function Union(ops: seq<Op>): (u: set<nat>) {
    if ops == [] then {} else Union(ops[..|ops| - 1]) + ops[|ops| - 1].logged
  }

  ghost predicate EachFits(ops: seq<Op>) { forall j :: 0 <= j < |ops| ==> |ops[j].logged| <= MAXOPBLOCKS }

  /** A block that belongs to the free map, the inodes or the data. */
  ghost predicate InHome(d: Disk, b: nat) {
    || d.sb.datastart <= b < d.sb.size
    || d.sb.bmapstart <= b < d.sb.bmapstart + |d.bits|
    || exists i :: i in d.inodes && b == d.sb.inodestart + i / 16
  }

  ghost predicate Homed(d: Disk, logged: set<nat>) { forall b :: b in logged ==> InHome(d, b) }

  /** From d to e one inode and what belongs to it changed, and all that changed was logged but for spare. */
  ghost predicate Txn(d: Disk, e: Disk, inum: nat, logged: set<nat>, spare: set<nat>) {
    && |logged| <= MAXOPBLOCKS && Homed(e, logged) && Logs(d, e, logged + spare)
    && inum in d.inodes && inum in e.inodes && e.inodes == d.inodes[inum := e.inodes[inum]]
    && e.inodes[inum] == d.inodes[inum].(size := e.inodes[inum].size, addrs := e.inodes[inum].addrs)
    && (e.inodes == d.inodes || d.sb.inodestart + inum / 16 in logged)
  }

  /** How much of the source the round of filewrite at byte i writes. */
  function Chunk(n: nat, i: nat): nat
    requires i <= n
  {
    if n - i > 3072 then 3072 else n - i
  }

  /** k bytes at off fit: they do not begin past the end of the file, do not make it too large, and enough blocks are
      free for them. */
  ghost predicate Fits(d: Disk, inum: nat, off: nat, k: nat) {
    k == 0 || (HasInode(d, inum) && off <= d.inodes[inum].size && off + k <= MAXBYTES &&
      Need(d, inum, off / 1024, Next(off, k)) <= Left(d))
  }

  /** From d to e only the size and the blocks of the inode changed, and the file ends where the done bytes do, if it
      was shorter. */
  ghost predicate Longer(d: Disk, e: Disk, inum: nat, off: nat, done: nat) {
    && HasInode(d, inum) && HasInode(e, inum)
    && e.inodes == d.inodes[inum := if done == 0 then d.inodes[inum].(addrs := e.inodes[inum].addrs)
                                    else Sized(d.inodes[inum], off + done, e.inodes[inum].addrs)]
  }

  /** From d to e the first i bytes at off were written, in whole rounds. */
  ghost predicate Grown(d: Disk, e: Disk, inum: nat, off: nat, i: nat) {
    && Longer(d, e, inum, off, i) && d.inodes[inum].size <= MAXBYTES
    && (if i == 0 then e == d
        else off <= d.inodes[inum].size && off + i <= MAXBYTES && Allotted(d, e, inum, off / 1024, Next(off, i)))
  }

  /** Why and where the round of filewrite at byte i is the last, by the state d before the whole write. Of the source
      `have` bytes can be read. The round is refused, or ends early for a fault or for want of blocks. */
  ghost predicate ChunkHalted(d: Disk, inum: nat, off: nat, have: nat, n: nat, i: nat, done: nat, seen: nat) {
    && HasInode(d, inum) && i < n && i <= have <= n && i <= done < i + Chunk(n, i) && done <= seen &&
      Fits(d, inum, off, i)
    && if (i == 0 && off > d.inodes[inum].size) || off + i + Chunk(n, i) > MAXBYTES then done == seen == i
       else
         var n1 := Chunk(n, i);
         var have1 := if have - i < n1 then have - i else n1;
         var enough := Need(d, inum, off / 1024, Tried(off + i, have1, n1)) <= Left(d);
         && Stopped(!enough, off + i, have1, n1, done - i, seen - i)
         && (!enough ==>
               && seen == done && (off + done) / 1024 < MAXFILE
               && Need(d, inum, off / 1024, (off + done) / 1024) <= Left(d)
               && Left(d) < Need(d, inum, off / 1024, (off + done) / 1024 + 1))
  }

  lemma GrownNone(d: Disk, inum: nat, off: nat)
    requires HasInode(d, inum) && d.inodes[inum].size <= MAXBYTES
    ensures Grown(d, d, inum, off, 0)
  {
    assert d.inodes[inum := d.inodes[inum]] == d.inodes;
  }

  lemma GrownFits(d: Disk, e: Disk, inum: nat, off: nat, i: nat)
    requires Grown(d, e, inum, off, i)
    ensures Fits(d, inum, off, i) && Longer(d, e, inum, off, i)
  {
    hide Allotted, Need, Left, Longer;
    GrownInode(d, e, inum, off, i);
    if i > 0 { AllottedLeft(d, e, inum, off / 1024, Next(off, i)); }
  }

  lemma GrownInode(d: Disk, e: Disk, inum: nat, off: nat, i: nat)
    requires Longer(d, e, inum, off, i)
    ensures HasInode(d, inum) && HasInode(e, inum)
    ensures e.inodes[inum].size == if i > 0 && off + i > d.inodes[inum].size then off + i else d.inodes[inum].size
  {}

  /** The next round begins in the block after those written, or in the last of them. */
  lemma RoundMeets(d: Disk, e: Disk, inum: nat, off: nat, i: nat)
    requires Grown(d, e, inum, off, i) && HoleFree(e, inum) && off <= d.inodes[inum].size
    ensures HasInode(d, inum) && HasInode(e, inum) && Allotted(d, e, inum, off / 1024, Next(off, i))
    ensures Meets(e, inum, off / 1024, Next(off, i), (off + i) / 1024)
  {
    hide Addr, Allotted, Longer;
    GrownInode(d, e, inum, off, i);
    if i == 0 {
      StartAllot(d, inum, off);
    } else if (off + i) % 1024 != 0 {
      HoleFreeAt(e, inum, (off + i - 1) / 1024);
    }
  }

  lemma ChunkGrows(d: Disk, e: Disk, f: Disk, inum: nat, off: nat, i: nat, n1: nat)
    requires Grown(d, e, inum, off, i) && HoleFree(e, inum) && 0 < n1 && HasInode(e, inum) && HasInode(f, inum)
    requires off + i <= e.inodes[inum].size && off + i + n1 <= MAXBYTES
    requires Allotted(e, f, inum, (off + i) / 1024, Next(off + i, n1))
    requires f.inodes == e.inodes[inum := Sized(e.inodes[inum], off + i + n1, f.inodes[inum].addrs)]
    ensures Grown(d, f, inum, off, i + n1)
  {
    hide Addr, Allotted, HoleFree;
    RoundMeets(d, e, inum, off, i);
    AllottedJoin(d, e, f, inum, off / 1024, Next(off, i), (off + i) / 1024, Next(off + i, n1));
  }

  lemma ChunkRefused(d: Disk, e: Disk, inum: nat, off: nat, have: nat, n: nat, i: nat)
    requires Grown(d, e, inum, off, i) && i < n && i <= have <= n && HasInode(e, inum)
    requires off + i > e.inodes[inum].size || off + i + Chunk(n, i) > MAXBYTES
    ensures ChunkHalted(d, inum, off, have, n, i, i, i) && Longer(d, e, inum, off, i)
  {
    hide Allotted, Need, Left, Fits;
    GrownInode(d, e, inum, off, i);
    GrownFits(d, e, inum, off, i);
  }

  lemma ChunkStops(d: Disk, e: Disk, f: Disk, inum: nat, off: nat, have: nat, n: nat, i: nat, r: nat, more: nat)
    requires Grown(d, e, inum, off, i) && HoleFree(e, inum) && HasInode(e, inum) && HasInode(f, inum) && i < n &&
      i <= have <= n
    requires off + i <= e.inodes[inum].size && off + i + Chunk(n, i) <= MAXBYTES && r < Chunk(n, i) && r <= more
    requires Halted(e, inum, off + i, if have - i < Chunk(n, i) then have - i else Chunk(n, i), Chunk(n, i), r, more)
    requires f.inodes == e.inodes[inum := Sized(e.inodes[inum], off + i + r, f.inodes[inum].addrs)]
    ensures ChunkHalted(d, inum, off, have, n, i, i + r, i + more) && Longer(d, f, inum, off, i + r)
  {
    hide Addr, Allotted, HoleFree, Need, Left, Fits, Stopped;
    GrownInode(d, e, inum, off, i);
    GrownFits(d, e, inum, off, i);
    RoundMeets(d, e, inum, off, i);
    var n1 := Chunk(n, i);
    var have1 := if have - i < n1 then have - i else n1;
    var lo, mid, lo' := off / 1024, Next(off, i), (off + i) / 1024;
    NeedSplit(d, e, inum, lo, mid, lo', Tried(off + i, have1, n1));
    if !Enough(e, inum, off + i, have1, n1) {
      NeedSplit(d, e, inum, lo, mid, lo', (off + i + r) / 1024 + 1);
      if (off + i + r) / 1024 >= mid {
        NeedSplit(d, e, inum, lo, mid, lo', (off + i + r) / 1024);
      } else {
        NeedMore(d, inum, lo, (off + i + r) / 1024, mid);
        AllottedLeft(d, e, inum, lo, mid);
      }
    }
  }

  lemma InChunk(n: nat, i: nat, done: nat)
    requires i < n && i % 3072 == 0 && i <= done < i + Chunk(n, i)
    ensures i == done - done % 3072 && done < n
  {}

  lemma TriedWithin(off: nat, n: nat, i: nat)
    requires i < n
    ensures off / 1024 <= Tried(off + i, Chunk(n, i), Chunk(n, i)) <= Next(off, n)
  {}

  lemma AllRead(off: nat, n: nat)
    ensures WholeBlocks(off, n, n) == n
  {}

  /** A write that was cut short could not all be read, or did not fit. */
  lemma HaltedShort(d: Disk, inum: nat, off: nat, have: nat, n: nat, i: nat, done: nat, seen: nat)
    requires ChunkHalted(d, inum, off, have, n, i, done, seen) && i % 3072 == 0
    ensures !(have == n && Fits(d, inum, off, n)) && i == done - done % 3072 && done < n
  {
    hide Need, Left, WholeBlocks;
    InChunk(n, i, done);
    if have == n && Fits(d, inum, off, n) {
      var n1 := Chunk(n, i);
      AllRead(off + i, n1);
      TriedWithin(off, n, i);
      NeedMore(d, inum, off / 1024, Tried(off + i, n1, n1), Next(off, n));
    }
  }

  /** The disk before transaction j, and after the one before it. */
  ghost function Before(d: Disk, ops: seq<Op>, j: nat): Disk
    requires j <= |ops|
  {
    if j == 0 then d else ops[j - 1].after
  }

  /** From d to e the first k bytes of src came to be in the file; the disk and the file are as they should be. */
  ghost predicate Reached(d: Disk, e: Disk, inum: nat, off: nat, src: seq<byte>, k: nat) {
    Ok(e) && HoleFree(e, inum) && KeepsWhole(d, e) && Spliced(d, e, inum, off, src, k)
  }

  /** Transaction j of a write, one of those that add 3072 bytes each but the last, which gets as far as k. */
  ghost predicate RunsAt(d: Disk, inum: nat, off: nat, src: seq<byte>, ops: seq<Op>, k: nat, spare: set<nat>, j: nat)
    requires j < |ops|
  {
    && Txn(Before(d, ops, j), ops[j].after, inum, ops[j].logged, if j == |ops| - 1 then spare else {})
    && Reached(d, ops[j].after, inum, off, src, if j == |ops| - 1 then k else 3072 * (j + 1))
  }

  ghost predicate Runs(d: Disk, inum: nat, off: nat, src: seq<byte>, ops: seq<Op>, k: nat, spare: set<nat>) {
    forall j :: 0 <= j < |ops| ==> RunsAt(d, inum, off, src, ops, k, spare, j)
  }

  lemma RunsMore(d: Disk, e: Disk, f: Disk, inum: nat, off: nat, src: seq<byte>, ops: seq<Op>, logged: set<nat>,
                 k: nat, spare: set<nat>)
    requires Runs(d, inum, off, src, ops, 3072 * |ops|, {}) && e == Before(d, ops, |ops|)
    requires Txn(e, f, inum, logged, spare) && Reached(d, f, inum, off, src, k)
    ensures Runs(d, inum, off, src, ops + [Op(logged, f)], k, spare) && f == Before(d, ops + [Op(logged, f)], |ops| + 1)
  {
    hide Txn, Reached;
    var ops' := ops + [Op(logged, f)];
    forall j | 0 <= j < |ops'| ensures RunsAt(d, inum, off, src, ops', k, spare, j) {
      assert Before(d, ops', j) == Before(d, ops, j);
      if j < |ops| { assert RunsAt(d, inum, off, src, ops, 3072 * |ops|, {}, j); }
    }
  }

  lemma HomedSame(d: Disk, e: Disk, logged: set<nat>)
    requires d.sb == e.sb && |d.bits| == |e.bits| && d.inodes.Keys == e.inodes.Keys && Homed(d, logged)
    ensures Homed(e, logged)
  {}

  lemma HomedInode(d: Disk, e: Disk, inum: nat, logged: set<nat>)
    requires d.sb == e.sb && |d.bits| == |e.bits| && d.inodes.Keys == e.inodes.Keys && inum in e.inodes
    ensures Homed(d, logged) ==> Homed(e, logged + {e.sb.inodestart + inum / 16})
  {
    assert InHome(e, e.sb.inodestart + inum / 16);
    if Homed(d, logged) { HomedSame(d, e, logged); }
  }

  lemma DataHome(e: Disk, b: nat)
    requires Ok(e) && e.sb.datastart <= b < e.sb.size
    ensures InHome(e, b) && InHome(e, e.sb.bmapstart + b / BPB)
  {
    hide Once, Linked, Mapped;
  }

  lemma IndirectHome(e: Disk, inum: nat)
    requires Ok(e) && HasInode(e, inum) && e.inodes[inum].addrs[NDIRECT] != 0
    ensures InHome(e, e.inodes[inum].addrs[NDIRECT]) && InHome(e, e.sb.bmapstart + e.inodes[inum].addrs[NDIRECT] / BPB)
  {
    OnceAt(e, Indirect(inum));
    LinkedAt(e, e.inodes[inum].addrs[NDIRECT]);
    DataHome(e, e.inodes[inum].addrs[NDIRECT]);
  }

  lemma HomedStep(d: Disk, e: Disk, f: Disk, x: set<nat>, y: set<nat>, inum: nat, bn: nat, addr: nat, was: set<nat>,
                  now: set<nat>)
    requires Logs(d, e, x) && Logs(d, f, y) && HasInode(e, inum) && HasInode(f, inum) &&
      f.inodes == e.inodes[inum := f.inodes[inum]] && Ok(f)
    requires bn < MAXFILE && addr == Addr(f, inum, bn)
    requires var ind := f.inodes[inum].addrs[NDIRECT]; var bm := f.sb.bmapstart;
      now <= was + (if addr == 0 then {} else {bm + addr / BPB, addr}) +
        (if ind == 0 then {} else {ind, bm + ind / BPB})
    ensures Homed(e, was) ==> Homed(f, now)
  {
    hide InHome, Addr, Ok;
    if Homed(e, was) {
      assert f.inodes.Keys == e.inodes.Keys;
      HomedSame(e, f, was);
      if addr != 0 {
        DataBlock(f, inum, bn);
        DataHome(f, addr);
      }
      if f.inodes[inum].addrs[NDIRECT] != 0 { IndirectHome(f, inum); }
    }
  }

  /** Files without holes stay so. */
  ghost predicate KeepsWhole(d: Disk, e: Disk) { forall i :: HoleFree(d, i) ==> HoleFree(e, i) }

  lemma KeepsMore(d: Disk, e: Disk, f: Disk)
    requires KeepsWhole(d, e) && KeepsWhole(e, f)
    ensures KeepsWhole(d, f)
  {
    hide HoleFree;
  }

  /** filewrite so far: from d to e, k bytes are in place and the transactions logged every block that changed but
      spare. */
  ghost predicate Chunked(d: Disk, e: Disk, inum: nat, off: nat, src: seq<byte>, k: nat, ops: seq<Op>,
                          spare: set<nat>) {
    && Reached(d, e, inum, off, src, k) && Runs(d, inum, off, src, ops, k, spare) && e == Before(d, ops, |ops|)
    && EachFits(ops) && Logs(d, e, Union(ops) + spare)
  }

  lemma ChunkedMeans(d: Disk, e: Disk, inum: nat, off: nat, src: seq<byte>, k: nat, ops: seq<Op>, spare: set<nat>)
    requires Chunked(d, e, inum, off, src, k, ops, spare)
    ensures Ok(e) && HoleFree(e, inum) && KeepsWhole(d, e) && Spliced(d, e, inum, off, src, k)
    ensures EachFits(ops) && Logs(d, e, Union(ops) + spare) && k <= |src|
    ensures Runs(d, inum, off, src, ops, k, spare) && e == Before(d, ops, |ops|)
  {
    hide Ok, HoleFree, KeepsWhole, Logs, FileByte, Addr, Runs, EachFits;
  }

  lemma ChunkedFile(d: Disk, e: Disk, inum: nat, off: nat, src: seq<byte>, k: nat, ops: seq<Op>)
    requires Chunked(d, e, inum, off, src, k, ops, {})
    ensures Ok(e) && HoleFree(e, inum) && HasInode(e, inum) && e.inodes[inum].size <= MAXBYTES
  {
    hide Ok, HoleFree, KeepsWhole, Logs, Spliced, Runs, EachFits;
    HoleFreeSize(e, inum);
  }

  lemma ChunkedNone(d: Disk, inum: nat, off: nat, src: seq<byte>)
    requires Ok(d) && HoleFree(d, inum)
    ensures Chunked(d, d, inum, off, src, 0, [], {})
  {
    hide Ok, HoleFree, Spliced;
    SplicedNone(d, inum, off, src);
  }

  lemma ChunkedMore(d: Disk, e: Disk, f: Disk, inum: nat, off: nat, src: seq<byte>, i: nat, ops: seq<Op>,
                    part: seq<byte>, r: int, more: nat, dirty: set<nat>, spare: set<nat>)
    requires Chunked(d, e, inum, off, src, i, ops, {}) && Ok(f) && HoleFree(f, inum) && KeepsWhole(e, f)
    requires i + |part| <= |src| && part == src[i..i + |part|] && i == 3072 * |ops| && Txn(e, f, inum, dirty, spare)
    requires if r == -1 then e == f else Spliced(e, f, inum, off + i, part, more)
    ensures Chunked(d, f, inum, off, src, if r == -1 then i else i + more, ops + [Op(dirty, f)], spare)
  {
    hide Ok, HoleFree, Spliced, KeepsWhole, Logs, Union, Runs, Homed;
    assert Union(ops) + {} == Union(ops);
    OneMore(d, e, f, ops, dirty, spare);
    KeepsMore(d, e, f);
    if r != -1 { SplicedAgain(d, e, f, inum, off, src, i, part, more); }
    RunsMore(d, e, f, inum, off, src, ops, dirty, if r == -1 then i else i + more, spare);
  }

  lemma OneMore(d: Disk, e: Disk, f: Disk, ops: seq<Op>, dirty: set<nat>, spare: set<nat>)
    requires Logs(d, e, Union(ops)) && Logs(e, f, dirty + spare)
    ensures Logs(d, f, Union(ops + [Op(dirty, f)]) + spare)
  {
    hide Logs;
    var u := Union(ops) + dirty;
    assert (ops + [Op(dirty, f)])[..|ops|] == ops;
    LogsWider(d, e, Union(ops), u + spare);
    LogsWider(e, f, dirty + spare, u + spare);
    LogsThen(d, e, f, u + spare, u + spare);
  }

  lemma SplicedAgain(d: Disk, e: Disk, f: Disk, inum: nat, off: nat, src: seq<byte>, i: nat, part: seq<byte>, k: nat)
    requires Spliced(d, e, inum, off, src, i) && Spliced(e, f, inum, off + i, part, k)
    requires i + |part| <= |src| && part == src[i..i + |part|]
    ensures Spliced(d, f, inum, off, src, i + k)
  {
    hide FileByte, Addr;
    forall j, o | HasInode(d, j) && HasInode(f, j) && 0 <= o < MAXBYTES
      ensures FileByte(f, j, o) == if j == inum && off <= o < off + (i + k) then src[o - off] else FileByte(d, j, o)
    {
      assert HasInode(e, j);
      assert FileByte(f, j, o) ==
        if j == inum && off + i <= o < off + i + k then part[o - (off + i)] else FileByte(e, j, o);
    }
    forall j, n | HasInode(d, j) && HasInode(f, j) && 0 <= n < MAXFILE && Addr(d, j, n) != 0
      ensures Addr(f, j, n) != 0 {
      assert HasInode(e, j) && Addr(e, j, n) != 0;
    }
  }

  /** How many bytes readi is to return. */
  function Readable(size: nat, off: nat, n: nat): nat {
    if off > size || off + n >= 0x1_0000_0000 then 0 else if off + n > size then size - off else n
  }

  lemma HoleFreeSize(d: Disk, inum: nat)
    requires HoleFree(d, inum)
    ensures HasInode(d, inum) && d.inodes[inum].size <= MAXBYTES
  {}

  lemma HoleFreeAt(d: Disk, inum: nat, n: nat)
    requires HoleFree(d, inum) && n * 1024 < d.inodes[inum].size
    ensures HasInode(d, inum) && n < MAXFILE && Addr(d, inum, n) != 0
  {
    hide Addr;
  }

  lemma SliceMore(d: Disk, inum: nat, off: nat, dst: seq<byte>, m: nat, addr: nat)
    requires IsSlice(d, inum, off, dst) && (off + |dst|) % 1024 + m <= 1024 && off + |dst| + m <= MAXBYTES && m > 0
    requires addr == Addr(d, inum, (off + |dst|) / 1024) != 0 && addr in d.blocks
    ensures var at := (off + |dst|) % 1024; IsSlice(d, inum, off, dst + d.blocks[addr][at..at + m])
  {
    hide Addr;
    var at := (off + |dst|) % 1024;
    var r := dst + d.blocks[addr][at..at + m];
    forall j | 0 <= j < |r| ensures off + j < MAXBYTES && r[j] == FileByte(d, inum, off + j) {
      if j >= |dst| {
        InBlock(off + j, off + |dst|, m);
        assert r[j] == d.blocks[addr][at + (j - |dst|)];
      }
    }
  }

  // ---------------------------------------------------------------- writei, step by step

  /** How many blocks of the range were there already, and how many are new. */
  datatype Count = Count(kept: nat, added: nat)

  ghost predicate Progress(d: Disk, e: Disk, inum: nat, off: nat, src: seq<byte>, k: nat, top: nat) {
    && HasInode(e, inum) && inum in d.inodes && SizesSame(d.inodes, e.inodes) && d.inodes[inum].size <= top
    && off + k <= top && Covered(e, inum, top) && Spliced(d, e, inum, off, src, k)
  }

  ghost predicate Budget(dirty: set<nat>, ind: nat, ind0: nat, c: Count, base: nat) {
    && |Rest(dirty, ind)| <= base + c.kept + 2 * c.added + (if ind != ind0 then 1 else 0)
    && (ind0 != 0 ==> ind == ind0)
  }

  ghost predicate Counted(off: nat, n: nat, tot: nat, c: Count) {
    && (tot == 0 ==> c == Count(0, 0))
    && (0 < tot < n ==> tot == (c.kept + c.added) * 1024 - off % 1024)
    && Chunks(off, n, c.kept, c.added)
  }

  lemma StepReady(d: Disk, e: Disk, inum: nat, off: nat, src: seq<byte>, tot: nat, top: nat, n: nat, m: nat, c: Count)
    requires Progress(d, e, inum, off, src, tot, top) && Counted(off, n, tot, c) && tot < n && off + n <= MAXBYTES &&
      m == ChunkSize(off, n, tot)
    ensures Spliced(d, e, inum, off, src, tot) && Covered(e, inum, top) && off + tot <= top &&
      Chunks(off, n, c.kept, c.added)
    ensures (off + tot) / 1024 < MAXFILE && (off + tot) % 1024 + m <= 1024 && 0 < m && tot + m <= n
    ensures var had := Addr(e, inum, (off + tot) / 1024) != 0;
      var c' := if had then Count(c.kept + 1, c.added) else Count(c.kept, c.added + 1);
      (off + tot < top ==> had) && Chunks(off, n, c'.kept, c'.added) && Counted(off, n, tot + m, c')
  {
    hide Addr, Spliced, SizesSame, Chunks, Covered;
    if off + tot < top { CoveredAt(e, inum, top, (off + tot) / 1024); }
    if tot == 0 && off % 1024 != 0 { CoveredAt(e, inum, top, off / 1024); }
    NextCount(off, n, tot, m, c.kept, c.added, Addr(e, inum, (off + tot) / 1024) != 0);
  }

  lemma StepProgress(d: Disk, e: Disk, f: Disk, inum: nat, off: nat, src: seq<byte>, tot: nat, top: nat, k: nat,
                     top': nat)
    requires Progress(d, e, inum, off, src, tot, top) && SizesSame(e.inodes, f.inodes) && HasInode(f, inum)
    requires Spliced(d, f, inum, off, src, k) && Covered(f, inum, top') && top <= top' && off + k <= top'
    ensures Progress(d, f, inum, off, src, k, top')
  {
    hide Spliced, Covered, SizesSame;
    SizesTrans(d.inodes, e.inodes, f.inodes);
  }

  lemma StepBudget(was: set<nat>, now: set<nat>, ind: nat, ind': nat, bm: nat, addr: nat, bi: nat, had: bool, c: Count,
                   ind0: nat, base: nat)
    requires Budget(was, ind, ind0, c, base) && (ind != 0 ==> ind' == ind) &&
      (had ==> ind' == ind && addr != 0 && now <= was + {addr})
    requires now <= was + (if addr == 0 then {} else {bm, addr}) +
      (if ind' == 0 then {} else {ind'} + (if ind == 0 then {bi} else {}))
    ensures Budget(now, ind', ind0,
      if addr == 0 then c else if had then Count(c.kept + 1, c.added) else Count(c.kept, c.added + 1), base)
  {
    hide Rest;
    RestMore(was, now, ind, ind', bm, addr, bi, had);
  }

  /** writei after tot bytes: from d to e, what is in place, what was logged and what was allocated. */
  ghost predicate Writing(d: Disk, e: Disk, dirty0: set<nat>, dirty: set<nat>, inum: nat, off: nat, n: nat,
                          src: seq<byte>, tot: nat, top: nat, c: Count) {
    && HasInode(d, inum) && Ok(e) && HasInode(e, inum) && e.inodes == d.inodes[inum := e.inodes[inum]]
    && Progress(d, e, inum, off, src, tot, top) &&
      top == (if off + tot > d.inodes[inum].size then off + tot else d.inodes[inum].size)
    && Counted(off, n, tot, c) &&
      Budget(dirty, e.inodes[inum].addrs[NDIRECT], d.inodes[inum].addrs[NDIRECT], c, |dirty0|)
    && dirty0 <= dirty && Logs(d, e, dirty) && (Homed(d, dirty0) ==> Homed(e, dirty)) &&
      Allotted(d, e, inum, off / 1024, Next(off, tot))
  }

  /** ... and at the end of its loop. */
  ghost predicate Wrote(d: Disk, e: Disk, dirty0: set<nat>, dirty: set<nat>, inum: nat, off: nat, n: nat,
                        src: seq<byte>, tot: nat, seen: nat, spare: set<nat>, c: Count, top: nat) {
    && HasInode(d, inum) && Ok(e) && HasInode(e, inum) && e.inodes == d.inodes[inum := e.inodes[inum]]
    && tot <= seen <= |src| && off + tot <= top && Progress(d, e, inum, off, src, seen, top)
    && Chunks(off, n, c.kept, c.added) &&
      Budget(dirty, e.inodes[inum].addrs[NDIRECT], d.inodes[inum].addrs[NDIRECT], c, |dirty0|)
    && dirty0 <= dirty && Logs(d, e, dirty + spare) && (Homed(d, dirty0) ==> Homed(e, dirty))
    && (seen != tot ==> (off + tot) / 1024 < MAXFILE) &&
      spare == (if seen == tot then {} else {Addr(e, inum, (off + tot) / 1024)})
    && Halted(d, inum, off, |src|, n, tot, seen) && (tot == n ==> Allotted(d, e, inum, off / 1024, Next(off, n)))
  }

  lemma WritingStarts(d: Disk, dirty: set<nat>, inum: nat, off: nat, n: nat, src: seq<byte>)
    requires Ok(d) && HoleFree(d, inum) && off <= d.inodes[inum].size
    ensures Writing(d, d, dirty, dirty, inum, off, n, src, 0, d.inodes[inum].size, Count(0, 0))
  {
    hide Ok, HoleFree, Progress, Budget, Counted, Allotted, Next;
    HoleFreeSize(d, inum);
    WriteStarts(d, dirty, inum, off, src);
    StartCount(off, n);
    StartAllot(d, inum, off);
  }

  lemma WritingEnds(d: Disk, e: Disk, dirty0: set<nat>, dirty: set<nat>, inum: nat, off: nat, n: nat, src: seq<byte>,
                    tot: nat, top: nat, c: Count)
    requires Writing(d, e, dirty0, dirty, inum, off, n, src, tot, top, c) && |src| <= n <= tot <= |src| &&
      off + n <= MAXBYTES
    ensures HasInode(d, inum) && Enough(d, inum, off, |src|, n) &&
      Wrote(d, e, dirty0, dirty, inum, off, n, src, tot, tot, {}, c, top)
  {
    hide Ok, Progress, Budget, Counted, Allotted, Next, Logs, Homed, Halted, Enough, Chunks;
    assert dirty + {} == dirty;
    HaltDone(d, e, inum, off, |src|, n, tot, c);
  }

  lemma WriteStarts(d: Disk, dirty: set<nat>, inum: nat, off: nat, src: seq<byte>)
    requires Ok(d) && HoleFree(d, inum)
    ensures off <= d.inodes[inum].size ==> Progress(d, d, inum, off, src, 0, d.inodes[inum].size)
    ensures HasInode(d, inum) && d.inodes[inum].size <= MAXBYTES
    ensures Budget(dirty, d.inodes[inum].addrs[NDIRECT], d.inodes[inum].addrs[NDIRECT], Count(0, 0), |dirty|)
  {
    hide Ok, Spliced, Rest, Addr;
    SplicedNone(d, inum, off, src);
    RestNone(dirty, d.inodes[inum].addrs[NDIRECT]);
  }

  ghost predicate SizesSame(a: map<nat, Inode>, b: map<nat, Inode>) {
    a.Keys == b.Keys && forall i :: i in a ==> b[i] == a[i].(addrs := b[i].addrs)
  }

  lemma SizesTrans(a: map<nat, Inode>, b: map<nat, Inode>, c: map<nat, Inode>)
    requires SizesSame(a, b) && SizesSame(b, c)
    ensures SizesSame(a, c)
  {}

  lemma SizesAt(a: map<nat, Inode>, b: map<nat, Inode>, i: nat)
    requires SizesSame(a, b) && i in a
    ensures i in b && b[i] == a[i].(addrs := b[i].addrs)
  {}

  lemma OthersHoleFree(d: Disk, e: Disk, inum: nat, off: nat, src: seq<byte>, k: nat, i: nat)
    requires Spliced(d, e, inum, off, src, k) && HoleFree(d, i) && i != inum && inum in e.inodes &&
      e.inodes == d.inodes[inum := e.inodes[inum]]
    ensures HoleFree(e, i)
  {
    hide Spliced;
    assert i in d.inodes;
    HoleFreeKept(d, e, inum, off, src, k, i);
  }

  /** How much of a source of which only `have` of the n bytes can be read is counted: whole blocks. */
  function WholeBlocks(off: nat, have: nat, n: nat): (r: nat)
    ensures r <= have || r <= n
  {
    if have >= n then n else if have < 1024 - off % 1024 then 0 else have - (off + have) % 1024
  }

  function ChunkSize(off: nat, n: nat, tot: nat): (m: nat)
    requires tot <= n
  {
    if n - tot < 1024 - (off + tot) % 1024 then n - tot else 1024 - (off + tot) % 1024
  }

  /** writei stops at the end of a block. Unless space runs out, it comes to the end of what can be read and counts the
      whole blocks of it. The bytes past these are in place all the same: there are some exactly when the source ends in
      the middle of a block. */
  ghost predicate Stopped(full: bool, off: nat, have: nat, n: nat, r: nat, seen: nat) {
    && (seen != r ==> 0 < have < n && (off + have) % 1024 != 0) && (0 < r < n ==> (off + r) % 1024 == 0)
    && (!full ==>
          && seen == have && r == WholeBlocks(off, have, n)
          && (seen != r <==> 0 < have < n && (off + have) % 1024 != 0))
  }

  lemma StoppedFull(off: nat, have: nat, n: nat, tot: nat, c: Count)
    requires Counted(off, n, tot, c)
    ensures Stopped(true, off, have, n, tot, tot)
  {
    hide Chunks;
    if 0 < tot < n { assert (off + tot) % 1024 == 0; }
  }

  lemma FaultStop(off: nat, n: nat, tot: nat, m: nat, have: nat, c: Count, full: bool)
    requires Counted(off, n, tot, c) && tot < n && m == ChunkSize(off, n, tot) && tot <= have < tot + m
    ensures have < n && Stopped(full, off, have, n, tot, have)
  {
    hide Chunks;
    if tot > 0 { assert (off + tot) % 1024 == 0; }
  }

  lemma AllWritten(off: nat, have: nat, n: nat, tot: nat, c: Count, full: bool)
    requires have <= n <= tot <= have && Counted(off, n, tot, c)
    ensures Stopped(full, off, have, n, tot, tot) && Chunks(off, n, c.kept, c.added)
  {
    hide Chunks;
  }

  /** The block after the last one writei asks bmap for: that of the byte that cannot be read, or of the last byte. */
  function Tried(off: nat, have: nat, n: nat): (hi: nat) {
    if n == 0 then off / 1024 else (off + (if have < n then have else n - 1)) / 1024 + 1
  }

  /** There are as many free blocks as writei asks for. */
  ghost predicate Enough(d: Disk, inum: nat, off: nat, have: nat, n: nat)
    requires HasInode(d, inum) && off + n <= MAXBYTES
  {
    Need(d, inum, off / 1024, Tried(off, have, n)) <= Left(d)
  }

  /** Where writei stops, by what was free before it: where the first block it lacks room for begins, if there is
      one. */
  ghost predicate Halted(d: Disk, inum: nat, off: nat, have: nat, n: nat, r: nat, seen: nat) {
    && HasInode(d, inum) && off + n <= MAXBYTES
    && (var enough := Enough(d, inum, off, have, n);
        && Stopped(!enough, off, have, n, r, seen)
        && (!enough ==>
              && (off + r) / 1024 < MAXFILE && seen == r < n
              && Need(d, inum, off / 1024, (off + r) / 1024) <=
                Left(d) < Need(d, inum, off / 1024, (off + r) / 1024 + 1)))
  }

  /** The first block past those written so far. */
  function Next(off: nat, tot: nat): (n: nat) { if tot == 0 then off / 1024 else (off + tot - 1) / 1024 + 1 }

  lemma StartAllot(d: Disk, inum: nat, off: nat)
    requires HasInode(d, inum) && off <= MAXBYTES
    ensures Allotted(d, d, inum, off / 1024, Next(off, 0))
  {
    AllottedNone(d, inum, off / 1024);
  }

  /** Between two rounds writei stands at the beginning of a block. */
  lemma NextIs(off: nat, n: nat, tot: nat, m: nat, c: Count)
    requires Counted(off, n, tot, c) && tot < n && m == ChunkSize(off, n, tot)
    ensures Next(off, tot) == (off + tot) / 1024 && Next(off, tot + m) == (off + tot) / 1024 + 1
  {
    hide Chunks;
    if tot > 0 { assert (off + tot) % 1024 == 0; }
  }

  lemma NextAllot(d: Disk, e: Disk, f: Disk, inum: nat, off: nat, n: nat, tot: nat, m: nat, c: Count, addr: nat)
    requires Counted(off, n, tot, c) && tot < n && m == ChunkSize(off, n, tot)
    requires Allotted(d, e, inum, off / 1024, Next(off, tot)) && Allots(e, f, inum, (off + tot) / 1024, addr) &&
      addr != 0
    ensures Allotted(d, f, inum, off / 1024, Next(off, tot + m))
  {
    hide Counted, Allotted, Allots, Next, ChunkSize;
    NextIs(off, n, tot, m, c);
    AllottedMore(d, e, f, inum, off / 1024, (off + tot) / 1024, addr);
  }

  lemma HaltFull(d: Disk, e: Disk, f: Disk, inum: nat, off: nat, have: nat, n: nat, tot: nat, c: Count)
    requires Counted(off, n, tot, c) && tot < n && tot <= have && off + n <= MAXBYTES && HasInode(d, inum)
    requires Allotted(d, e, inum, off / 1024, Next(off, tot)) && Allots(e, f, inum, (off + tot) / 1024, 0)
    ensures !Enough(d, inum, off, have, n) && Halted(d, inum, off, have, n, tot, tot)
  {
    hide Counted, Allotted, Allots, Next, ChunkSize, Need, Left, Stopped;
    NextIs(off, n, tot, ChunkSize(off, n, tot), c);
    AllottedMore(d, e, f, inum, off / 1024, (off + tot) / 1024, 0);
    NeedMore(d, inum, off / 1024, (off + tot) / 1024 + 1, Tried(off, have, n));
    StoppedFull(off, have, n, tot, c);
  }

  lemma HaltFault(d: Disk, e: Disk, f: Disk, inum: nat, off: nat, have: nat, n: nat, tot: nat, m: nat, c: Count,
                  addr: nat)
    requires Counted(off, n, tot, c) && tot < n && m == ChunkSize(off, n, tot) && tot <= have < tot + m &&
      off + n <= MAXBYTES && HasInode(d, inum)
    requires Allotted(d, e, inum, off / 1024, Next(off, tot)) && Allots(e, f, inum, (off + tot) / 1024, addr) &&
      addr != 0
    ensures Enough(d, inum, off, have, n) && Halted(d, inum, off, have, n, tot, have)
  {
    hide Counted, Allotted, Allots, Need, Left, Stopped;
    NextAllot(d, e, f, inum, off, n, tot, m, c, addr);
    NextIs(off, n, tot, m, c);
    FaultStop(off, n, tot, m, have, c, false);
    assert Tried(off, have, n) == Next(off, tot + m);
    AllottedLeft(d, f, inum, off / 1024, Next(off, tot + m));
  }

  lemma HaltDone(d: Disk, e: Disk, inum: nat, off: nat, have: nat, n: nat, tot: nat, c: Count)
    requires have <= n <= tot <= have && Counted(off, n, tot, c) && off + n <= MAXBYTES && HasInode(d, inum)
    requires Allotted(d, e, inum, off / 1024, Next(off, tot))
    ensures Enough(d, inum, off, have, n) && Halted(d, inum, off, have, n, tot, tot) && Chunks(off, n, c.kept, c.added)
  {
    hide Counted, Allotted, Need, Left, Stopped, Chunks;
    AllWritten(off, have, n, tot, c, false);
    AllottedLeft(d, e, inum, off / 1024, Next(off, tot));
  }

  lemma StartCount(off: nat, n: nat)
    ensures Counted(off, n, 0, Count(0, 0))
  {}

  lemma SplicedBound(d: Disk, e: Disk, inum: nat, off: nat, src: seq<byte>, k: nat)
    requires Spliced(d, e, inum, off, src, k)
    ensures k <= |src|
  {}

  lemma CoveredPatched(e: Disk, inum: nat, bn: nat, data: Block, hi: nat)
    requires Ok(e) && Covered(e, inum, hi) && bn < MAXFILE && Addr(e, inum, bn) != 0
    ensures Covered(e.(blocks := e.blocks[Addr(e, inum, bn) := data]), inum, hi)
  {
    var f := e.(blocks := e.blocks[Addr(e, inum, bn) := data]);
    hide Ok, Addr;
    forall n | 0 <= n < MAXFILE && n * 1024 < hi
      ensures Addr(f, inum, n) != 0 { SameAddrs(e, inum, bn, data, inum, n); }
  }

  lemma CoveredAt(e: Disk, inum: nat, hi: nat, n: nat)
    requires Covered(e, inum, hi) && n < MAXFILE && n * 1024 < hi
    ensures Addr(e, inum, n) != 0
  {}

  lemma ResizeSpliced(d: Disk, e: Disk, f: Disk, inum: nat, off: nat, src: seq<byte>, k: nat)
    requires Spliced(d, e, inum, off, src, k) && e.inodes.Keys == f.inodes.Keys &&
      (forall i :: HasInode(e, i) <==> HasInode(f, i))
    requires forall i, o :: HasInode(e, i) && 0 <= o < MAXBYTES ==> FileByte(f, i, o) == FileByte(e, i, o)
    requires forall i, n :: HasInode(e, i) && HasInode(f, i) && 0 <= n < MAXFILE ==> Addr(f, i, n) == Addr(e, i, n)
    ensures Spliced(d, f, inum, off, src, k)
  {
    hide FileByte, Addr;
  }

  lemma ResizeCovered(e: Disk, f: Disk, inum: nat, top: nat, size: nat)
    requires Covered(e, inum, top) && HasInode(f, inum) && f.inodes[inum].size == size <= top && size <= MAXBYTES
    requires forall i, n :: HasInode(e, i) && HasInode(f, i) && 0 <= n < MAXFILE ==> Addr(f, i, n) == Addr(e, i, n)
    ensures HoleFree(f, inum)
  {
    hide Addr;
  }

  /** The logged blocks other than the indirect block. */
  ghost function Rest(dirty: set<nat>, ind: nat): set<nat> { if ind == 0 then dirty else dirty - {ind} }

  lemma RestNone(dirty: set<nat>, ind: nat)
    ensures |Rest(dirty, ind)| <= |dirty|
  {
    if ind != 0 { SubsetSize(dirty - {ind}, dirty); }
  }

  lemma SubsetSize(a: set<nat>, b: set<nat>)
    requires a <= b
    ensures |a| <= |b|
  {
    assert b == a + (b - a);
  }

  lemma SizeWith(a: set<nat>, x: nat)
    ensures |a + {x}| <= |a| + 1
  {}

  /** A block that was there costs one logged block; a new one costs itself and its bitmap block; a new indirect block
      costs one more bitmap block. */
  lemma RestMore(was: set<nat>, now: set<nat>, ind: nat, ind': nat, bm: nat, addr: nat, bi: nat, had: bool)
    requires ind != 0 ==> ind' == ind
    requires had ==> ind' == ind && addr != 0 && now <= was + {addr}
    requires now <= was + (if addr == 0 then {} else {bm, addr}) +
      (if ind' == 0 then {} else {ind'} + (if ind == 0 then {bi} else {}))
    ensures |Rest(now, ind')| <=
      |Rest(was, ind)| + (if addr == 0 then 0 else if had then 1 else 2) + (if ind' != ind then 1 else 0)
  {
    var r := Rest(was, ind);
    if had {
      SubsetSize(Rest(now, ind'), r + {addr});
      SizeWith(r, addr);
    } else {
      var a := if addr == 0 then r else r + {bm} + {addr};
      SizeWith(r, bm);
      SizeWith(r + {bm}, addr);
      if ind' != ind {
        SubsetSize(Rest(now, ind'), a + {bi});
        SizeWith(a, bi);
      } else {
        SubsetSize(Rest(now, ind'), a);
      }
    }
  }

  lemma RestAll(dirty: set<nat>, ind: nat, iblock: nat)
    ensures |dirty + {iblock}| <= |Rest(dirty, ind)| + 2
  {
    SizeWith(dirty, iblock);
    if ind != 0 {
      SizeWith(dirty - {ind}, ind);
      SubsetSize(dirty, dirty - {ind} + {ind});
    }
  }

  /** With chunks of at most three blocks, at most seven data and bitmap blocks. */
  ghost predicate Chunks(off: nat, n: nat, kept: nat, added: nat) {
    (n <= 3072 ==> kept + 2 * added <= 7) && (off % 1024 != 0 && kept + added > 0 ==> kept > 0)
  }

  lemma NextCount(off: nat, n: nat, tot: nat, m: nat, kept: nat, added: nat, had: bool)
    requires tot < n && m == if n - tot < 1024 - (off + tot) % 1024 then n - tot else 1024 - (off + tot) % 1024
    requires tot == 0 ==> kept == added == 0 && (off % 1024 != 0 ==> had)
    requires tot > 0 ==> tot == (kept + added) * 1024 - off % 1024 && Chunks(off, n, kept, added)
    ensures m > 0 && (off + tot) % 1024 + m <= 1024 && tot + m <= n
    ensures Chunks(off, n, if had then kept + 1 else kept, if had then added else added + 1)
    ensures tot + m < n ==> tot + m == (kept + added + 1) * 1024 - off % 1024
  {
    assert tot > 0 ==> (off + tot) % 1024 == 0;
  }

  /** The inodes but for the first k direct slots of one, which are 0. */
  ghost predicate OnlyAddrs(was: map<nat, Inode>, now: map<nat, Inode>, inum: nat, k: nat) {
    && inum in was && inum in now && |was[inum].addrs| == 13 && |now[inum].addrs| == 13
    && now == was[inum := was[inum].(addrs := now[inum].addrs)]
    && (forall i :: 0 <= i < 13 ==> now[inum].addrs[i] == if i < k then 0 else was[inum].addrs[i])
  }

  lemma GoneDirect(inum: nat, i: nat)
    requires i < NDIRECT
    ensures !Gone(Direct(inum, i), inum, i, 0, false) &&
      forall q :: Gone(q, inum, i + 1, 0, false) <==> Gone(q, inum, i, 0, false) || q == Direct(inum, i)
  {}

  lemma GoneEntry(inum: nat, j: nat)
    requires j < NINDIRECT
    ensures !Gone(Entry(inum, j), inum, NDIRECT, j, false)
    ensures forall q :: Gone(q, inum, NDIRECT, j + 1, false) <==>
      Gone(q, inum, NDIRECT, j, false) || q == Entry(inum, j)
  {}

  lemma GoneIndirect(inum: nat)
    ensures !Gone(Indirect(inum), inum, NDIRECT, NINDIRECT, false)
    ensures forall q :: Gone(q, inum, NDIRECT, NINDIRECT, true) <==>
      Gone(q, inum, NDIRECT, NINDIRECT, false) || q == Indirect(inum)
  {}

  /** The emptied file has no holes, and no other file changes. */
  lemma TruncatedWhole(d: Disk, inum: nat, bits: seq<BitBlock>)
    requires inum in d.inodes
    ensures KeepsWhole(d, Truncated(d, inum, bits))
  {
    hide Word;
    var e := Truncated(d, inum, bits);
    forall i | HoleFree(d, i) ensures HoleFree(e, i) {
      if i != inum {
        forall n | 0 <= n < MAXFILE && n * 1024 < e.inodes[i].size
          ensures Addr(e, i, n) != 0 { assert Addr(d, i, n) != 0; }
      }
    }
  }

  lemma TruncatedFields(d: Disk, inum: nat, bits: seq<BitBlock>)
    requires inum in d.inodes
    ensures var e := Truncated(d, inum, bits);
      e.inodes == d.inodes[inum := d.inodes[inum].(size := 0, addrs := NoAddrs())] && e.blocks == d.blocks
  {}

  lemma SameTruncated(d: Disk, e: Disk, inum: nat, bits: seq<BitBlock>)
    requires inum in d.inodes && inum in e.inodes && e.bits == bits && e.blocks == d.blocks && e.sb == d.sb &&
      e.held == d.held
    requires e.owner == Truncated(d, inum, bits).owner && |e.inodes[inum].addrs| == 13
    requires e.inodes == d.inodes[inum := d.inodes[inum].(size := 0, addrs := e.inodes[inum].addrs)]
    requires forall i :: 0 <= i < 13 ==> e.inodes[inum].addrs[i] == 0
    ensures e == Truncated(d, inum, bits)
  {
    assert e.inodes[inum].addrs == NoAddrs();
  }

  lemma DirectAddr(d: Disk, inum: nat, bn: nat)
    requires HasInode(d, inum) && bn < MAXFILE
    ensures bn < NDIRECT ==>
      IsPlace(d, Direct(inum, bn)) && Addr(d, inum, bn) == d.inodes[inum].addrs[bn] == Ptr(d, Direct(inum, bn))
    ensures IsPlace(d, Indirect(inum)) && Ptr(d, Indirect(inum)) == d.inodes[inum].addrs[NDIRECT]
    ensures d.inodes[inum].addrs[NDIRECT] == 0 && bn >= NDIRECT ==> Addr(d, inum, bn) == 0
  {}

  lemma EntryAddr(d: Disk, inum: nat, bn: nat)
    requires Ok(d) && HasInode(d, inum) && NDIRECT <= bn < MAXFILE && d.inodes[inum].addrs[NDIRECT] != 0
    ensures d.inodes[inum].addrs[NDIRECT] in d.blocks && IsPlace(d, Entry(inum, bn - NDIRECT))
    ensures Addr(d, inum, bn) == Word(d.blocks[d.inodes[inum].addrs[NDIRECT]], bn - NDIRECT) ==
      Ptr(d, Entry(inum, bn - NDIRECT))
  {
    OnceAt(d, Indirect(inum));
    LinkedAt(d, d.inodes[inum].addrs[NDIRECT]);
  }

  lemma Attached(d: Disk, p: Place, b: nat, inum: nat, bn: nat)
    requires Ok(d) && Ready(d, p, b) && b < 0x1_0000_0000 && HasInode(d, inum) && bn < MAXFILE &&
      DataPlace(inum, bn) == p
    ensures HasInode(Attach(d, p, b), inum) && Addr(Attach(d, p, b), inum, bn) == b
  {
    hide Ok, Ptr, IsPlace;
    AttachAddr(d, p, b, inum, bn);
  }

  lemma OkSize(d: Disk)
    requires Ok(d)
    ensures d.sb.size < 0x1_0000_0000
  {
    hide Once, Linked, Mapped;
  }

  lemma BlockIndex(b: nat, bi: nat)
    requires b % BPB == 0 && bi < BPB
    ensures (b + bi) / BPB == b / BPB && (b + bi) % BPB == bi
  {}
}
