/** A disk with one file of one block, on which a faulting writei leaves a byte it does not count. */
module FsExamples {
  import opened FsBits
  import opened Fs
  import opened FsFile
  import opened FsDisk
  import opened FsSpace

  function Blank(): BitBlock { seq(1024, i => 0) }

  function Addrs(): seq<nat> { [3, 0, 0, 0, 0, 0, 0, 0, 0, 0, 0, 0, 0] }

  /** Boot block, inodes, free map, and block 3, all in use; inode 1 has block 3. */
  function OneFile(): (d: Disk) {
    Disk(Super(4, 1, 2, 3), Mark(Mark(Mark(Mark([Blank()], 0), 1), 2), 3), map[3 := ZeroBlock()],
         map[1 := Inode(2, 1, 1024, Addrs())], map[3 := Direct(1, 0)], {})
  }

  lemma AllUsed(b: nat)
    requires b < 4
    ensures BitUsed(OneFile().bits, b)
  {
    hide BitUsed;
    MarkBits([Blank()], 0, b);
    MarkBits(Mark([Blank()], 0), 1, b);
    MarkBits(Mark(Mark([Blank()], 0), 1), 2, b);
    MarkBits(Mark(Mark(Mark([Blank()], 0), 1), 2), 3, b);
  }

  lemma OneFileOk()
    ensures Ok(OneFile()) && HoleFree(OneFile(), 1)
  {
    hide BitUsed, Mark, ZeroBlock, Word;
    var d := OneFile();
    assert Shape(d) by { MarkSizes(); }
    assert forall p :: IsPlace(d, p) && Ptr(d, p) != 0 ==> p == Direct(1, 0);
    assert IsPlace(d, Direct(1, 0)) && Ptr(d, Direct(1, 0)) == 3;
    forall b | 0 <= b < 4 ensures BitUsed(d.bits, b) { AllUsed(b); }
    assert forall n :: 0 <= n < MAXFILE && n * 1024 < 1024 ==> n == 0;
    assert Addr(d, 1, 0) == 3;
  }

  lemma MarkSizes()
    ensures |OneFile().bits| == 1
  {}

  /** Of two bytes the second cannot be read: writei counts none and the first is in the file. */
  method FaultLeavesByte() returns (fs: FileSystem, r: int)
    ensures Ok(fs.View()) && HasInode(fs.View(), 1) && r == 0 && FileByte(fs.View(), 1, 0) == 7
    ensures FileByte(OneFile(), 1, 0) == 0
  {
    hide Ok, BitUsed, Mark, HoleFree, Logs, KeepsWhole, Homed, Left;
    OneFileOk();
    ghost var d := OneFile();
    fs := new FileSystem(OneFile());
    ghost var seen, spare;
    HoleFreeSize(d, 1);
    NeedNothing(d, 1, 0, 1);
    r, seen, spare := fs.Writei(1, [7], 0, 2);
    assert HasInode(d, 1) && FileByte(fs.View(), 1, 0) == [7][0 - 0];
    ByteWas();
  }

  lemma ByteWas()
    ensures HasInode(OneFile(), 1) && FileByte(OneFile(), 1, 0) == 0
  {
    hide Mark;
    assert IsPlace(OneFile(), Direct(1, 0));
  }
}
