/** Directories (kernel/fs.c): names compared on at most 14 bytes, entries of 16 bytes, lookup and linking. */
module Dir {

  const DIRSIZ: nat := 14

  // ---------------------------------------------------------------- names

  function CharAt(s: string, i: nat): char { if i < |s| then s[i] else '\0' }

  /** A name as the kernel compares it: up to a NUL, and no more than 14 characters. */
  function Name(s: string): (r: string)
    ensures |r| <= DIRSIZ && '\0' !in r
  {
    NameFrom(s, 0)
  }

  function NameFrom(s: string, i: nat): (r: string)
    requires i <= DIRSIZ
    ensures |r| <= DIRSIZ - i && '\0' !in r
    decreases DIRSIZ - i
  {
    if i == DIRSIZ || CharAt(s, i) == '\0' then "" else [s[i]] + NameFrom(s, i + 1)
  }

  /** strncmp with DIRSIZ tells exactly whether two names are the same. */
  method Namecmp(s: string, t: string) returns (same: bool)
    ensures same <==> Name(s) == Name(t)
  {
    var i := 0;
    while i < DIRSIZ && CharAt(s, i) != '\0' && CharAt(s, i) == CharAt(t, i)
      invariant i <= DIRSIZ && (Name(s) == Name(t) <==> NameFrom(s, i) == NameFrom(t, i))
    {
      NameStep(s, t, i);
      i := i + 1;
    }
    if i == DIRSIZ { return true; }
    NameDiffers(s, t, i);
    return CharAt(s, i) == CharAt(t, i);
  }

  lemma NameStep(s: string, t: string, i: nat)
    requires i < DIRSIZ && CharAt(s, i) != '\0' && CharAt(s, i) == CharAt(t, i)
    ensures NameFrom(s, i) == NameFrom(t, i) <==> NameFrom(s, i + 1) == NameFrom(t, i + 1)
  {
    var a, b := NameFrom(s, i), NameFrom(t, i);
    assert a[1..] == NameFrom(s, i + 1) && b[1..] == NameFrom(t, i + 1);
  }

  lemma NameDiffers(s: string, t: string, i: nat)
    requires i < DIRSIZ && (CharAt(s, i) == '\0' || CharAt(s, i) != CharAt(t, i))
    ensures NameFrom(s, i) == NameFrom(t, i) <==> CharAt(s, i) == CharAt(t, i)
  {
    var a, b := NameFrom(s, i), NameFrom(t, i);
    assert CharAt(s, i) != '\0' ==> a[0] == s[i];
    assert CharAt(t, i) != '\0' ==> b[0] == t[i];
  }

  /** strncpy of DIRSIZ characters. */
  method Strncpy(s: string) returns (r: string)
    ensures |r| == DIRSIZ && Name(r) == Name(s)
  {
    r := "";
    var i := 0;
    while i < DIRSIZ && CharAt(s, i) != '\0'
      invariant i <= DIRSIZ && i <= |s| && |r| == i && forall j :: 0 <= j < i ==> r[j] == s[j] && s[j] != '\0'
    {
      r := r + [s[i]];
      i := i + 1;
    }
    ghost var k := i;
    while i < DIRSIZ
      invariant k <= i <= DIRSIZ && |r| == i && Copied(s, r, k)
    {
      r := r + ['\0'];
      i := i + 1;
    }
    CopiedName(s, r, k, 0);
  }

  /** r is the first k characters of s, then NULs; s ends at k if k is short of 14. */
  ghost predicate Copied(s: string, r: string, k: nat) {
    && k <= |r| <= DIRSIZ && k <= |s| && (k < DIRSIZ ==> CharAt(s, k) == '\0')
    && (forall j :: 0 <= j < k ==> r[j] == s[j] && s[j] != '\0') && (forall j :: k <= j < |r| ==> r[j] == '\0')
  }

  lemma {:induction false} CopiedName(s: string, r: string, k: nat, i: nat)
    requires Copied(s, r, k) && |r| == DIRSIZ && i <= k
    ensures NameFrom(r, i) == NameFrom(s, i)
    decreases k - i
  {
    if i < k { CopiedName(s, r, k, i + 1); }
  }

  // ---------------------------------------------------------------- entries

  datatype Dirent = Dirent(inum: nat, name: string)

  ghost predicate Names(e: Dirent, nm: string) { e.inum != 0 && Name(e.name) == nm }

  /** The directory has an entry for nm with the given inode number. */
  ghost predicate Has(es: seq<Dirent>, nm: string, inum: nat) {
    exists k :: 0 <= k < |es| && Names(es[k], nm) && es[k].inum == inum
  }

  /** No two entries have the same name: the directory is a finite map. */
  ghost predicate Unique(es: seq<Dirent>) {
    forall i, j, nm :: 0 <= i < j < |es| && Names(es[i], nm) ==> !Names(es[j], nm)
  }

  lemma Functional(es: seq<Dirent>, nm: string, a: nat, b: nat)
    requires Unique(es) && Has(es, nm, a) && Has(es, nm, b)
    ensures a == b
  {
    var i :| 0 <= i < |es| && Names(es[i], nm) && es[i].inum == a;
    var j :| 0 <= j < |es| && Names(es[j], nm) && es[j].inum == b;
    assert !(i < j) && !(j < i);
  }

  /** dirlookup: the entry for a name, or None. */
  method Dirlookup(es: seq<Dirent>, name: string) returns (found: bool, k: nat)
    ensures found ==>
      k < |es| && Names(es[k], Name(name)) && Has(es, Name(name), es[k].inum) &&
      forall j :: 0 <= j < k ==> !Names(es[j], Name(name))
    ensures !found ==> forall x :: !Has(es, Name(name), x)
  {
    k := 0;
    while k < |es|
      invariant k <= |es| && forall j :: 0 <= j < k ==> !Names(es[j], Name(name))
    {
      if es[k].inum != 0 {
        var same := Namecmp(name, es[k].name);
        if same { return true, k; }
      }
      k := k + 1;
    }
    return false, k;
  }

  /** A directory and how many more entries fit: writei fails when the disk or the file is full. */
  class Directory {
    var es: seq<Dirent>

    /** dirlink: adds one entry, in the first free slot or at the end, unless the name is there or the write fails. */
    method Dirlink(name: string, inum: nat, fits: bool) returns (ok: bool)
      requires Unique(es) && 0 < inum
      modifies this
      ensures Unique(es)
      ensures ok <==> fits && forall x :: !Has(old(es), Name(name), x)
      ensures !ok ==> es == old(es)
      ensures ok ==> exists k :: 0 <= k <= |old(es)| && Added(old(es), es, k, Name(name), inum)
      ensures ok ==> forall nm, x :: Has(es, nm, x) <==> Has(old(es), nm, x) || (nm == Name(name) && x == inum)
    {
      var found, k := Dirlookup(es, name);
      if found { return false; }
      k := 0;
      while k < |es|
        invariant k <= |es| && forall j :: 0 <= j < k ==> es[j].inum != 0
      {
        if es[k].inum == 0 { break; }
        k := k + 1;
      }
      var stored := Strncpy(name);
      if !fits { return false; }
      ghost var was := es;
      es := if k < |es| then es[k := Dirent(inum, stored)] else es + [Dirent(inum, stored)];
      AddedOk(was, es, k, Name(name), inum);
      assert Added(old(es), es, k, Name(name), inum);
      return true;
    }
  }

  /** One slot, free or past the end, became the entry; the others are as before. */
  ghost predicate Added(es: seq<Dirent>, fs: seq<Dirent>, k: nat, nm: string, inum: nat) {
    && k <= |es| && k < |fs| && |fs| == (if k < |es| then |es| else |es| + 1)
    && (k < |es| ==> es[k].inum == 0) && fs[k].inum == inum && Names(fs[k], nm)
    && forall j :: 0 <= j < |es| && j != k ==> fs[j] == es[j]
  }

  lemma AddedOk(es: seq<Dirent>, fs: seq<Dirent>, k: nat, nm: string, inum: nat)
    requires Unique(es) && Added(es, fs, k, nm, inum) && forall x :: !Has(es, nm, x)
    ensures Unique(fs) && forall a, x :: Has(fs, a, x) <==> Has(es, a, x) || (a == nm && x == inum)
  {
    forall j | 0 <= j < |es| ensures !Names(es[j], nm) { assert !Has(es, nm, es[j].inum); }
    forall a, x | Has(fs, a, x) ensures Has(es, a, x) || (a == nm && x == inum) {
      var j :| 0 <= j < |fs| && Names(fs[j], a) && fs[j].inum == x;
      assert j != k ==> Names(es[j], a);
    }
    forall a, x | Has(es, a, x) ensures Has(fs, a, x) {
      var j :| 0 <= j < |es| && Names(es[j], a) && es[j].inum == x;
      assert Names(fs[j], a);
    }
    assert Has(fs, nm, inum);
  }

  // ---------------------------------------------------------------- entries as bytes

  predicate Storable(e: Dirent) {
    e.inum < 0x1_0000 && |e.name| == DIRSIZ && forall i :: 0 <= i < DIRSIZ ==> e.name[i] as nat < 256
  }

  /** The 16 bytes of an entry: the inode number, low byte first, then the name. */
  function Encode(e: Dirent): (b: seq<nat>)
    requires Storable(e)
    ensures |b| == 16 && forall i :: 0 <= i < 16 ==> b[i] < 256
  {
    [e.inum % 256, e.inum / 256] + seq(DIRSIZ, i requires 0 <= i < DIRSIZ => e.name[i] as nat)
  }

  lemma EncodeInjective(d: Dirent, e: Dirent)
    requires Storable(d) && Storable(e) && Encode(d) == Encode(e)
    ensures d == e
  {
    assert Encode(d)[0] == Encode(e)[0] && Encode(d)[1] == Encode(e)[1];
    forall i | 0 <= i < DIRSIZ ensures d.name[i] == e.name[i] { assert Encode(d)[i + 2] == Encode(e)[i + 2]; }
  }

  /** A directory file's bytes. */
  ghost function Bytes(es: seq<Dirent>): (b: seq<nat>)
    requires forall k :: 0 <= k < |es| ==> Storable(es[k])
    ensures |b| == 16 * |es|
  {
    seq(16 * |es|, i requires 0 <= i < 16 * |es| => Encode(es[i / 16])[i % 16])
  }

  /** dirlink's writei of one entry at a multiple of 16 changes that entry and no byte of another. */
  lemma WriteEntry(es: seq<Dirent>, k: nat, e: Dirent)
    requires k <= |es| && Storable(e) && forall j :: 0 <= j < |es| ==> Storable(es[j])
    ensures var fs := if k < |es| then es[k := e] else es + [e];
      && (forall j :: 0 <= j < |fs| ==> Storable(fs[j]))
      && forall i :: 0 <= i < 16 * |fs| ==>
        Bytes(fs)[i] == if 16 * k <= i < 16 * k + 16 then Encode(e)[i - 16 * k] else Bytes(es)[i]
  {
    var fs := if k < |es| then es[k := e] else es + [e];
    forall i | 0 <= i < 16 * |fs|
      ensures Bytes(fs)[i] == if 16 * k <= i < 16 * k + 16 then Encode(e)[i - 16 * k] else Bytes(es)[i]
    {
      assert 16 * k <= i < 16 * k + 16 <==> i / 16 == k;
    }
  }

  /** Such a write lies in one block, so it happens whole or not at all. */
  lemma OneBlock(k: nat, j: nat)
    requires j < 16
    ensures (16 * k + j) / 1024 == 16 * k / 1024 && 16 * k % 1024 + 16 <= 1024
  {}
}
