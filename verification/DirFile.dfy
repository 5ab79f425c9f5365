/** A directory as a file (kernel/fs.c): its entries are the bytes of an inode. */
module DirFile {
  import D = Dir
  import opened FsBits
  import opened Fs
  import opened FsFile
  import opened FsDisk
  import opened FsSpace

  ghost predicate AllStorable(es: seq<D.Dirent>) { forall k :: 0 <= k < |es| ==> D.Storable(es[k]) }

  /** The file of an inode is exactly these entries. */
  ghost predicate IsDirectory(d: Disk, inum: nat, es: seq<D.Dirent>) {
    && HoleFree(d, inum) && d.inodes[inum].size == 16 * |es| && AllStorable(es)
    && forall i :: 0 <= i < 16 * |es| && i < MAXBYTES ==> FileByte(d, inum, i) as nat == D.Bytes(es)[i]
  }

  function EntryBytes(e: D.Dirent): (b: seq<byte>)
    requires D.Storable(e)
    ensures |b| == 16 && forall i :: 0 <= i < 16 ==> b[i] as nat == D.Encode(e)[i]
  {
    var c := D.Encode(e);
    seq(16, i requires 0 <= i < 16 => c[i] as byte)
  }

  ghost function Stored(es: seq<D.Dirent>, k: nat, e: D.Dirent): seq<D.Dirent>
    requires k <= |es|
  {
    if k < |es| then es[k := e] else es + [e]
  }

  /** Splicing the bytes of an entry in at slot k stores that entry and keeps the others. */
  lemma SpliceStores(d: Disk, f: Disk, inum: nat, es: seq<D.Dirent>, k: nat, e: D.Dirent)
    requires IsDirectory(d, inum, es) && k <= |es| && D.Storable(e) && 16 * k + 16 <= MAXBYTES
    requires Spliced(d, f, inum, 16 * k, EntryBytes(e), 16) && HoleFree(f, inum) &&
      f.inodes[inum].size == 16 * |Stored(es, k, e)|
    ensures IsDirectory(f, inum, Stored(es, k, e))
  {
    hide FileByte, Addr;
    var fs := if k < |es| then es[k := e] else es + [e];
    assert fs == Stored(es, k, e) && AllStorable(es) && AllStorable(fs);
    D.WriteEntry(es, k, e);
    hide D.Bytes, D.Encode;
    forall i | 0 <= i < 16 * |fs| && i < MAXBYTES ensures FileByte(f, inum, i) as nat == D.Bytes(fs)[i] {
      assert FileByte(f, inum, i) ==
        if 16 * k <= i < 16 * k + 16 then EntryBytes(e)[i - 16 * k] else FileByte(d, inum, i);
      assert D.Bytes(fs)[i] == if 16 * k <= i < 16 * k + 16 then D.Encode(e)[i - 16 * k] else D.Bytes(es)[i];
    }
  }

  lemma NothingStored(d: Disk, f: Disk, inum: nat, es: seq<D.Dirent>, off: nat, src: seq<byte>)
    requires IsDirectory(d, inum, es) && Spliced(d, f, inum, off, src, 0) && HoleFree(f, inum) &&
      f.inodes[inum].size == 16 * |es|
    ensures IsDirectory(f, inum, es)
  {
    hide FileByte, Addr, D.Bytes;
  }

  /** An entry lies in one block, so there is room for it exactly when there is for that block. */
  lemma EntryRoom(k: nat)
    ensures Tried(16 * k, 16, 16) == 16 * k / 1024 + 1
  {}

  lemma EntryThere(d: Disk, inum: nat, es: seq<D.Dirent>, k: nat)
    requires IsDirectory(d, inum, es) && k < |es|
    ensures 16 * k + 16 <= MAXBYTES && Enough(d, inum, 16 * k, 16, 16)
  {
    hide FileByte, Addr, Left;
    EntryRoom(k);
    NeedNothing(d, inum, 16 * k / 1024, 16 * k / 1024 + 1);
  }

  /** The writei at the end of dirlink: slot k becomes the entry, or the directory is as before. It is as before exactly
      when the file would be too large or there are fewer free blocks than the slot needs, which a slot in use never
      does. */
  method Store(fs: FileSystem, inum: nat, ghost es: seq<D.Dirent>, k: nat, e: D.Dirent) returns (ok: bool)
    requires Ok(fs.View()) && IsDirectory(fs.View(), inum, es) && k <= |es| && D.Storable(e)
    modifies fs
    ensures Ok(fs.View()) && KeepsWhole(old(fs.View()), fs.View())
    ensures IsDirectory(fs.View(), inum, if ok then Stored(es, k, e) else es)
    ensures ok <==>
      16 * k + 16 <= MAXBYTES && old(Need(fs.View(), inum, 16 * k / 1024, 16 * k / 1024 + 1) <= Left(fs.View()))
    ensures !ok ==> k == |es| && (fs.Full() || 16 * k + 16 > MAXBYTES)
    ensures ok ==> Spliced(old(fs.View()), fs.View(), inum, 16 * k, EntryBytes(e), 16)
  {
    hide Ok, Logs, Addr, KeepsWhole, Spliced, HoleFree, EntryBytes, Need, Left, Homed;
    HoleFreeSize(fs.View(), inum);
    EntryRoom(k);
    if k < |es| { EntryThere(fs.View(), inum, es, k); }
    ghost var d := fs.View();
    ghost var seen, spare;
    var r;
    r, seen, spare := fs.Writei(inum, EntryBytes(e), 16 * k, 16);
    ok := r == 16;
    if ok {
      SpliceStores(d, fs.View(), inum, es, k, e);
    } else if r == 0 {
      NothingStored(d, fs.View(), inum, es, 16 * k, EntryBytes(e));
    }
  }
}
