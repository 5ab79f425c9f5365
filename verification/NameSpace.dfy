/** sys_link, sys_unlink and create (kernel/sysfile.c) step by step, on a name space that no other process changes
    meanwhile. */
module NameSpace {
  import opened Links

  /** iput, where there is a reference to drop. */
  ghost function Put(s: Fs, i: nat): (t: Fs) {
    if i in s.ref && s.ref[i] > 0 && i in s.nlink && i in s.kind then Dropped(s, i) else s
  }

  lemma PutOk(s: Fs, i: nat)
    requires Inv(s)
    ensures Inv(Put(s, i)) && Put(s, i).nlink == s.nlink && Put(s, i).root == s.root
    ensures Live(s, i) ==> Put(s, i).links == s.links && Put(s, i).kind == s.kind
    ensures forall j :: j in s.ref && j != i ==> j in Put(s, i).ref && Put(s, i).ref[j] == s.ref[j]
  {
    hide Inv;
    if i in s.ref && s.ref[i] > 0 { DroppedOk(s, i); }
  }

  /** A name removed: a file's, or an empty directory's. */
  ghost function Unnamed(s: Fs, x: Slot): (t: Fs)
    requires x in s.links && Live(s, s.links[x].to)
    requires IsDir(s, s.links[x].to) ==> Live(s, x.dir) && s.links[x].to != x.dir
  {
    if IsDir(s, s.links[x].to) then Removed(s, x) else Unlinked(s, x)
  }

  lemma ReferenceFacts(s: Fs, i: nat)
    requires Inv(s) && i in s.ref && s.ref[i] > 0
    ensures i in s.kind && s.kind[i] != Free && i in s.nlink
  {
    hide Counted, UniqueNames, Dotted, NamedOnce;
  }

  lemma NameFacts(s: Fs, x: Slot)
    requires Inv(s) && Proper(s, x)
    ensures s.links[x].to in s.kind && s.kind[s.links[x].to] != Free && s.links[x].to in s.ref && Live(s, s.links[x].to)
  {
    hide UniqueNames, Dotted, NamedOnce, Lifetime;
    TypedAt(s, x);
    NamedIsLive(s, x);
  }

  class Inodes {
    var root: nat
    var kind: map<nat, Kind>
    var nlink: map<nat, nat>
    var ref: map<nat, nat>
    var links: map<Slot, Link>
    ghost var dot: map<nat, Slot>
    ghost var dotdot: map<nat, Slot>
    ghost var entry: map<nat, Slot>

    ghost function View(): (s: Fs)
      reads this
    {
      Fs(root, kind, nlink, ref, links, dot, dotdot, entry)
    }

    /** iput: frees the inode exactly when this was the last reference and there is no link. */
    method Iput(i: nat)
      requires Inv(View()) && i in ref && ref[i] > 0
      modifies this`ref, this`kind, this`links
      ensures Inv(View()) && View() == Put(old(View()), i) && i in kind && i in nlink
      ensures kind[i] == Free <==> nlink[i] == 0 && old(ref)[i] == 1
    {
      hide Inv;
      ghost var s := View();
      DroppedOk(s, i);
      if ref[i] == 1 && nlink[i] == 0 {
        links := map x | x in links && x.dir != i :: links[x];
        kind := kind[i := Free];
      }
      ref := ref[i := ref[i] - 1];
      assert View() == Dropped(s, i);
    }

    /** dirlookup. */
    method Lookup(dp: nat, name: string) returns (found: bool, x: Slot)
      ensures found ==> IsEntry(View(), x, dp, name)
      ensures !found ==> forall y :: y in links && y.dir == dp ==> links[y].name != name
    {
      var here := set y | y in links && y.dir == dp && links[y].name == name;
      if here == {} {
        forall y | y in links && y.dir == dp ensures links[y].name != name { assert y !in here; }
        return false, Slot(dp, 0);
      }
      x :| x in here;
      return true, x;
    }

    /** isdirempty. */
    method IsDirEmpty(d: nat) returns (empty: bool)
      ensures empty <==> Empty(View(), d)
    {
      var others := set y | y in links && y.dir == d && !Dots(links[y].name);
      empty := others == {};
      if empty {
        forall y | y in links && y.dir == d ensures Dots(links[y].name) { assert y !in others; }
      } else {
        ghost var y :| y in others;
      }
    }

    /** sys_link, from where both paths are looked up. dp is 0 if there is no parent; slot k of it is free; fits says
        whether the directory write succeeds. A failure after nlink was raised takes it back. */
    method SysLink(ip: nat, dp: nat, name: string, k: nat, fits: bool) returns (ok: bool)
      requires Inv(View()) && ip in ref && ref[ip] > 0
      requires dp != 0 ==>
        dp in ref && ref[dp] > 0 && dp != ip && IsDir(View(), dp) && Live(View(), dp) && Slot(dp, k) !in links
      modifies this`ref, this`kind, this`links, this`nlink
      ensures Inv(View())
      ensures ok <==>
        && old(kind)[ip] != Dir && dp != 0 && fits
        && forall y :: y in old(links) && y.dir == dp ==> old(links)[y].name != name
      ensures ok ==> ip in old(nlink) && View() == Put(Put(Linked(old(View()), Slot(dp, k), name, ip), dp), ip)
      ensures ok ==>
        && links == old(links)[Slot(dp, k) := Link(name, ip)] && nlink == old(nlink)[ip := old(nlink)[ip] + 1]
        && kind == old(kind) && ref == old(ref)[dp := old(ref)[dp] - 1][ip := old(ref)[ip] - 1]
      ensures !ok ==> View() == Put(if dp == 0 || old(kind)[ip] == Dir then old(View()) else Put(old(View()), dp), ip)
    {
      hide Inv, Put, Linked, Referenced;
      ghost var s := View();
      ReferenceFacts(s, ip);
      if kind[ip] == Dir {
        Iput(ip);
        return false;
      }
      nlink := nlink[ip := nlink[ip] + 1];
      if dp != 0 {
        var found, x := Lookup(dp, name);
        if !found && fits {
          links := links[Slot(dp, k) := Link(name, ip)];
          LinkedIs(s, View(), Slot(dp, k), name, ip);
          LinkedOk(s, Slot(dp, k), name, ip);
          PutsLive(View(), dp, ip);
          PutBoth(dp, ip);
          return true;
        }
      }
      nlink := nlink[ip := nlink[ip] - 1];
      assert nlink == s.nlink && View() == s;
      if dp != 0 { PutBoth(dp, ip); } else { Iput(ip); }
      return false;
    }

    method PutBoth(a: nat, b: nat)
      requires Inv(View()) && a in ref && ref[a] > 0 && b in ref && (if a == b then ref[b] > 1 else ref[b] > 0)
      modifies this`ref, this`kind, this`links
      ensures Inv(View()) && View() == Put(Put(old(View()), a), b)
    {
      hide Inv, Put;
      PutRef(View(), a);
      Iput(a);
      Iput(b);
    }

    /** The changes sys_unlink makes once it knows the entry. */
    method Unname(x: Slot)
      requires Inv(View()) && Proper(View(), x) && links[x].to in kind && links[x].to in ref && ref[links[x].to] > 0
      requires IsDir(View(), links[x].to) ==> Empty(View(), links[x].to)
      modifies this`links, this`nlink
      ensures Live(old(View()), old(links)[x].to)
      ensures IsDir(old(View()), old(links)[x].to) ==> Live(old(View()), x.dir) && old(links)[x].to != x.dir
      ensures Inv(View()) && View() == Unnamed(old(View()), x)
    {
      hide Inv, Going, Empty, Dots;
      ghost var s := View();
      var ip, dp := links[x].to, x.dir;
      NameFacts(s, x);
      if kind[ip] == Dir {
        RemovedOk(s, x);
        GoingDomain(s, x);
        links := links - {x};
        nlink := nlink[dp := nlink[dp] - 1];
        nlink := nlink[ip := nlink[ip] - 1];
        RemovedIs(s, View(), x);
      } else {
        UnlinkedOk(s, x);
        links := links - {x};
        nlink := nlink[ip := nlink[ip] - 1];
        UnlinkedIs(s, View(), x);
      }
    }

    /** sys_unlink, from where the parent is looked up. */
    method SysUnlink(dp: nat, name: string) returns (ok: bool, ghost x: Slot)
      requires Inv(View()) && dp in ref && ref[dp] > 0
      modifies this`ref, this`kind, this`links, this`nlink
      ensures Inv(View())
      ensures ok ==> !Dots(name) && IsEntry(old(View()), x, dp, name) && CanUnname(old(View()), x)
      ensures ok ==> View() == Put(Put(Unnamed(Referenced(old(View()), old(links)[x].to), x), dp), old(links)[x].to)
      ensures ok ==> NameGone(old(View()), View(), x)
      ensures !ok ==>
        || Dots(name) || (forall y :: y in old(links) && y.dir == dp ==> old(links)[y].name != name)
        || (IsEntry(old(View()), x, dp, name) && IsDir(old(View()), old(links)[x].to) &&
          !Empty(old(View()), old(links)[x].to))
      ensures !ok ==> View() == Put(old(View()), dp)
    {
      hide Inv, Put, Unnamed, Empty, CanUnname, Dots, Referenced;
      ghost var s := View();
      x := Slot(dp, 0);
      if !Dots(name) {
        var found, y := Lookup(dp, name);
        if found {
          x := y;
          ok := UnlinkEntry(y, dp, name);
          return;
        }
      }
      Iput(dp);
      return false, x;
    }

    method UnlinkEntry(x: Slot, dp: nat, name: string) returns (ok: bool)
      requires Inv(View()) && dp in ref && ref[dp] > 0 && IsEntry(View(), x, dp, name) && !Dots(name)
      modifies this`ref, this`kind, this`links, this`nlink
      ensures Inv(View())
      ensures ok ==> CanUnname(old(View()), x)
      ensures ok ==> View() == Put(Put(Unnamed(Referenced(old(View()), old(links)[x].to), x), dp), old(links)[x].to)
      ensures ok ==> NameGone(old(View()), View(), x)
      ensures !ok ==> IsDir(old(View()), old(links)[x].to) && !Empty(old(View()), old(links)[x].to)
      ensures !ok ==> View() == Put(old(View()), dp)
    {
      hide Inv, Put, Unnamed, Empty, CanUnname;
      ghost var s := View();
      var ip := links[x].to;
      NameFacts(s, x);
      ReferencedOk(s, ip);
      ref := ref[ip := ref[ip] + 1];
      ghost var r := View();
      assert r == Referenced(s, ip);
      EmptySame(s, r, ip);
      var empty := IsDirEmpty(ip);
      if kind[ip] == Dir && !empty {
        ReferencedBack(s, ip);
        Iput(ip);
        Iput(dp);
        return false;
      }
      Unname(x);
      UnnameSame(s, r, x);
      UnnamedRef(r, x);
      ghost var u := View();
      UnnameIs(s, r, x);
      PutBoth(dp, ip);
      GoneAfter(s, u, View(), x);
      return true;
    }

    /** create, from where the parent is looked up: ip is what ialloc found or 0, a and b are its first two slots, x a
        free slot of the parent, and fits says which of the three directory writes succeed. A device is made like a
        file, but is not found when the name is there. Any failure only drops the reference to the parent. */
    method Create(dp: nat, name: string, type_: Kind, device: bool, ip: nat, a: Slot, b: Slot, x: Slot,
                  fits: (bool, bool, bool)) returns (r: nat)
      requires Inv(View()) && dp in ref && ref[dp] > 0 && IsDir(View(), dp) && Live(View(), dp) && type_ != Free
      requires ip != 0 ==> ip in kind && kind[ip] == Free
      requires x.dir == dp && x !in links && a.dir == ip && b.dir == ip && a != b && 0 !in kind
      modifies this`ref, this`kind, this`links, this`nlink, this`dot, this`dotdot, this`entry
      ensures Inv(View())
      ensures old(CanAdd(View(), x, name)) ==> (r != 0 <==> ip != 0 && Fits(type_, fits))
      ensures forall y :: IsEntry(old(View()), y, dp, name) ==> (r != 0 <==> Reusable(old(View()), y, type_, device))
      ensures r == 0 ==> View() == Put(old(View()), dp)
      ensures r != 0 ==>
        && r in kind && kind[r] == type_ && r in ref && ref[r] > 0
        && exists y :: IsEntry(View(), y, dp, name) && links[y].to == r
      ensures r != 0 && old(CanAdd(View(), x, name)) ==> r == ip && IsNew(old(View()), View(), ip, x, name, type_)
      ensures r != 0 ==> Swapped(old(ref), ref, dp, r)
    {
      hide Inv, Put, Claimed, CanAdd, IsNew;
      ghost var s := View();
      var found, y := Lookup(dp, name);
      if found {
        r := CreateExisting(dp, name, type_, device, y);
        NameTaken(s, x, y, name);
        forall z | IsEntry(s, z, dp, name) ensures z == y { OnlyEntry(s, y, z, dp, name); }
        return;
      }
      PutOk(s, dp);
      if ip == 0 {
        Iput(dp);
        return 0;
      }
      CanAddName(s, x, name);
      var ok := Make(dp, name, type_, ip, a, b, x, fits);
      ghost var t := View();
      if ok { NewLive(s, t, ip, x, name, type_); }
      PutOk(t, dp);
      PutRef(t, dp);
      Iput(dp);
      if !ok { return 0; }
      NewStays(s, t, View(), ip, x, name, type_);
      r := ip;
      FreeHasNoRef(s, ip);
      assert IsEntry(View(), x, dp, name) && links[x].to == r;
    }

    method CreateExisting(dp: nat, name: string, type_: Kind, device: bool, y: Slot) returns (r: nat)
      requires Inv(View()) && dp in ref && ref[dp] > 0 && IsDir(View(), dp) && Live(View(), dp) &&
        IsEntry(View(), y, dp, name) && 0 !in kind
      modifies this`ref, this`kind, this`links
      ensures Inv(View()) && links == old(links) && kind == old(kind)
      ensures r != 0 <==> Reusable(old(View()), y, type_, device)
      ensures r == 0 ==> View() == Put(old(View()), dp)
      ensures r == 0 || (r == links[y].to && r in kind && type_ == File == kind[r] && r in ref && ref[r] > 0)
      ensures r != 0 ==> Swapped(old(ref), ref, dp, r)
    {
      hide Inv, Put;
      ghost var s := View();
      var ip := links[y].to;
      EntryFacts(s, y, dp);
      ReferencedOk(s, ip);
      ref := ref[ip := ref[ip] + 1];
      assert View() == Referenced(s, ip);
      ghost var t := View();
      PutOk(t, dp);
      PutRef(t, dp);
      Iput(dp);
      if type_ == File && !device && kind[ip] == File { return ip; }
      PutOk(View(), ip);
      Iput(ip);
      PutBack(s, dp, ip);
      return 0;
    }

    /** The part of create that makes the inode and its names, and its fail label. */
    method Make(dp: nat, name: string, type_: Kind, ip: nat, a: Slot, b: Slot, x: Slot, fits: (bool, bool, bool))
      returns (ok: bool)
      requires Inv(View()) && CanAdd(View(), x, name) && x.dir == dp && ip in kind && kind[ip] == Free &&
        type_ != Free && dp != ip
      requires a.dir == ip && b.dir == ip && a != b
      modifies this`ref, this`kind, this`links, this`nlink, this`dot, this`dotdot, this`entry
      ensures Inv(View())
      ensures ok <==> Fits(type_, fits)
      ensures ok ==> IsNew(old(View()), View(), ip, x, name, type_) && ref == old(ref)[ip := 1]
      ensures !ok ==> View() == old(View())
    {
      hide Inv, CanAdd, IsNew, CanDot, CanAdopt;
      ghost var s := View();
      ClaimedOk(s, ip, type_);
      kind, ref, nlink := kind[ip := type_], ref[ip := 1], nlink[ip := 1];
      ghost var c := Claimed(s, ip, type_);
      assert Unmade(s, View(), c, ip) by { hide Inv; }
      ClaimedCanAdd(s, ip, type_, x, name);
      if type_ == Dir {
        ok := MakeDir(dp, name, ip, a, b, x, fits, s, c);
        return;
      }
      if !fits.2 {
        Unmake(ip, s, c);
        return false;
      }
      LinkedOk(c, x, name, ip);
      links := links[x := Link(name, ip)];
      assert View() == Linked(c, x, name, ip);
      LinkedNew(s, View(), ip, x, name);
      return true;
    }

    method MakeDir(dp: nat, name: string, ip: nat, a: Slot, b: Slot, x: Slot, fits: (bool, bool, bool), ghost s: Fs,
                   ghost c: Fs) returns (ok: bool)
      requires Inv(s) && Inv(c) && c == Claimed(s, ip, Dir) && Unmade(s, View(), c, ip) && CanAdd(s, x, name) &&
        x.dir == dp && dp != ip
      requires a.dir == ip && b.dir == ip && a != b
      modifies this`ref, this`kind, this`links, this`nlink, this`dot, this`dotdot, this`entry
      ensures Inv(View())
      ensures ok <==> fits.0 && fits.1 && fits.2
      ensures ok ==> IsNew(s, View(), ip, x, name, Dir) && ref == s.ref[ip := 1]
      ensures !ok ==> View() == s
    {
      hide Inv, CanAdd, IsNew, CanDot, CanAdopt, Unmade, Claimed;
      ClaimedIs(s, ip);
      UnmadeFacts(s, View(), c, ip);
      DirFacts(s, ip, x, name);
      DotReady(s, View(), c, ip, a);
      if !fits.0 {
        Unmake(ip, s, c);
        return false;
      }
      links := links[a := Link(".", ip)];
      ghost var c1 := WithDot(c, a, ".", ip);
      WithDotOk(c, a, ".", ip);
      DotDotReady(s, View(), c, c1, ip, dp, a, b, x, name);
      if !fits.1 {
        Unmake(ip, s, c1);
        return false;
      }
      links := links[b := Link("..", dp)];
      ghost var c2 := WithDot(c1, b, "..", dp);
      WithDotOk(c1, b, "..", dp);
      AdoptReady(s, View(), c1, c2, ip, dp, a, b, x, name);
      ok := EnterDir(name, ip, a, b, x, fits.2, s, c2);
    }

    /** The new directory's own name, and the link its ".." adds to the parent. */
    method EnterDir(name: string, ip: nat, a: Slot, b: Slot, x: Slot, fits: bool, ghost s: Fs, ghost c: Fs)
      returns (ok: bool)
      requires Inv(s) && Inv(c) && Unmade(s, View(), c, ip) && CanAdopt(c, ip, a, b, x, name)
      requires x.dir in nlink && a in c.links && c.links[a].to == ip
      modifies this`ref, this`kind, this`links, this`nlink, this`dot, this`dotdot, this`entry
      ensures Inv(View())
      ensures ok <==> fits
      ensures ok ==> IsNew(s, View(), ip, x, name, Dir) && ref == s.ref[ip := 1]
      ensures !ok ==> View() == s
    {
      hide Inv, IsNew, CanAdopt, Unmade;
      if !fits {
        Unmake(ip, s, c);
        return false;
      }
      AdoptedOk(c, ip, a, b, x, name);
      ghost var v := View();
      links := links[x := Link(name, ip)];
      nlink := nlink[x.dir := nlink[x.dir] + 1];
      dot, dotdot, entry := dot[ip := a], dotdot[ip := b], entry[ip := x];
      AdoptedIs(s, v, View(), c, ip, a, b, x, name);
      return true;
    }

    /** The fail label: the inode loses its link again and iput frees it. */
    method Unmake(ip: nat, ghost s: Fs, ghost c: Fs)
      requires Inv(s) && Inv(c) && Unmade(s, View(), c, ip)
      modifies this`ref, this`kind, this`links, this`nlink
      ensures View() == s && Inv(View())
    {
      hide Inv;
      nlink := nlink[ip := 0];
      assert View() == c;
      Iput(ip);
      Forgotten(s, c, ip);
    }
  }

  /** Every directory write create needs for the type succeeds. */
  predicate Fits(type_: Kind, fits: (bool, bool, bool)) { fits.2 && (type_ == Dir ==> fits.0 && fits.1) }

  /** create(T_FILE) of a name that a file or device has. */
  ghost predicate Reusable(s: Fs, y: Slot, type_: Kind, device: bool) {
    type_ == File && !device && y in s.links && s.links[y].to in s.kind && s.kind[s.links[y].to] == File
  }

  lemma OnlyEntry(s: Fs, y: Slot, z: Slot, dp: nat, name: string)
    requires Inv(s) && IsEntry(s, y, dp, name) && IsEntry(s, z, dp, name)
    ensures y == z
  {
    hide Typed, Counted, Dotted, NamedOnce, Lifetime;
  }

  /** A reference taken and dropped again around dropping the parent's. */
  lemma PutBack(s: Fs, dp: nat, ip: nat)
    requires Live(s, dp) && dp in s.ref && s.ref[dp] > 0 && dp in s.kind && Live(s, ip) && ip in s.ref && ip in s.kind
    ensures Put(Put(Referenced(s, ip), dp), ip) == Put(s, dp)
  {
    assert Put(Put(Referenced(s, ip), dp), ip).ref == Put(s, dp).ref;
  }

  lemma UnnamedRef(s: Fs, x: Slot)
    requires x in s.links && Live(s, s.links[x].to)
    requires IsDir(s, s.links[x].to) ==> Live(s, x.dir) && s.links[x].to != x.dir
    ensures Unnamed(s, x).ref == s.ref
  {}

  /** What a created name is: an entry, counted once, and for a directory its dots, ".." counted for the parent. */
  ghost predicate IsNew(s: Fs, t: Fs, ip: nat, x: Slot, name: string, type_: Kind) {
    && x in t.links && t.links[x] == Link(name, ip) && ip in t.kind && t.kind[ip] == type_ && Live(t, ip) &&
      t.nlink[ip] == 1
    && (forall y :: y in s.links ==> y in t.links && t.links[y] == s.links[y])
    && (forall y :: y in t.links && y !in s.links ==> y == x || y.dir == ip)
    && (forall i :: i in s.nlink && i != ip ==>
      i in t.nlink && t.nlink[i] == s.nlink[i] + (if i == x.dir && type_ == Dir then 1 else 0))
    && (type_ == Dir ==>
      (exists a :: IsEntry(t, a, ip, ".") && t.links[a].to == ip) &&
      exists b :: IsEntry(t, b, ip, "..") && t.links[b].to == x.dir)
  }

  /** v is c but for a link count of 1, and c is s with ip taken and its dots. */
  ghost predicate Unmade(s: Fs, v: Fs, c: Fs, ip: nat) {
    && ip in s.kind && s.kind[ip] == Free && ip in s.nlink && s.nlink[ip] == 0 && ip in s.ref && s.ref[ip] == 0 &&
      ip in c.kind && c.kind[ip] != Free
    && v == c.(nlink := c.nlink[ip := 1]) &&
      c == s.(kind := s.kind[ip := c.kind[ip]], ref := s.ref[ip := 1], links := c.links)
    && (forall x :: x in s.links ==> x in c.links && c.links[x] == s.links[x] && x.dir != ip)
    && (forall x :: x in c.links && x !in s.links ==> x.dir == ip)
  }

  lemma Forgotten(s: Fs, c: Fs, ip: nat)
    requires Unmade(s, c.(nlink := c.nlink[ip := 1]), c, ip)
    ensures Put(c, ip) == s
  {
    var t := Put(c, ip);
    assert t.kind == s.kind && t.ref == s.ref && t.nlink == s.nlink;
    assert t.links == s.links;
  }

  lemma ClaimedCanAdd(s: Fs, ip: nat, type_: Kind, x: Slot, name: string)
    requires CanAdd(s, x, name) && ip in s.nlink && s.nlink[ip] == 0
    ensures CanAdd(Claimed(s, ip, type_), x, name) && x.dir != ip
  {}

  lemma ClaimedIs(s: Fs, ip: nat)
    ensures var c := Claimed(s, ip, Dir); c.links == s.links && ip in c.kind && c.kind[ip] == Dir && c.nlink == s.nlink
  {}

  lemma UnmadeFacts(s: Fs, v: Fs, c: Fs, ip: nat)
    requires Unmade(s, v, c, ip)
    ensures ip in s.kind && s.kind[ip] == Free && v.links == c.links && v.nlink == c.nlink[ip := 1] &&
      v.ref == s.ref[ip := 1]
  {}

  lemma DirFacts(s: Fs, ip: nat, x: Slot, name: string)
    requires Inv(s) && CanAdd(s, x, name) && ip in s.kind && s.kind[ip] == Free
    ensures ip != s.root && !Dots(name) && x.dir in s.nlink && x.dir in s.kind && s.kind[x.dir] == Dir
  {
    hide Counted, UniqueNames, NamedOnce, Lifetime, Dotted;
    ProperName(s, x, name);
  }

  lemma DotReady(s: Fs, v: Fs, c: Fs, ip: nat, a: Slot)
    requires Unmade(s, v, c, ip) && c.kind[ip] == Dir && a.dir == ip && c.links == s.links
    ensures CanDot(c, a, ".", ip) && v.links == s.links
  {}

  /** "." is there; ".." can be added. */
  lemma DotDotReady(s: Fs, v: Fs, c: Fs, c1: Fs, ip: nat, dp: nat, a: Slot, b: Slot, x: Slot, name: string)
    requires Unmade(s, v.(links := c.links), c, ip) && c.kind[ip] == Dir && c.links == s.links && x.dir == dp != ip &&
      dp in s.kind && s.kind[dp] == Dir
    requires a.dir == ip && b.dir == ip && a != b && c1 == WithDot(c, a, ".", ip) && v.links == c1.links
    ensures CanDot(c1, b, "..", dp) && Unmade(s, v, c1, ip) && c1.links == s.links[a := Link(".", ip)] &&
      c1.kind[ip] == Dir
  {}

  lemma UnmadeMore(s: Fs, v: Fs, c1: Fs, c2: Fs, ip: nat, dp: nat, b: Slot)
    requires Unmade(s, v.(links := c1.links), c1, ip) && b.dir == ip && c2 == WithDot(c1, b, "..", dp) &&
      v.links == c2.links
    ensures Unmade(s, v, c2, ip)
  {}

  lemma AdoptReady(s: Fs, v: Fs, c1: Fs, c2: Fs, ip: nat, dp: nat, a: Slot, b: Slot, x: Slot, name: string)
    requires Unmade(s, v.(links := c1.links), c1, ip) && c1.kind[ip] == Dir && CanAdd(s, x, name) && x.dir == dp != ip
    requires ip != s.root && !Dots(name) && x.dir in s.nlink
    requires a.dir == ip && b.dir == ip && a != b && c1.links == s.links[a := Link(".", ip)] &&
      c2 == WithDot(c1, b, "..", dp) && v.links == c2.links
    ensures CanAdopt(c2, ip, a, b, x, name) && Unmade(s, v, c2, ip) && c2.links[a] == Link(".", ip)
  {
    UnmadeMore(s, v, c1, c2, ip, dp, b);
  }

  lemma AdoptedIs(s: Fs, v: Fs, t: Fs, c2: Fs, ip: nat, a: Slot, b: Slot, x: Slot, name: string)
    requires Unmade(s, v, c2, ip) && CanAdopt(c2, ip, a, b, x, name) && x.dir in v.nlink && a in c2.links &&
      c2.links[a].to == ip
    requires t == v.(links := v.links[x := Link(name, ip)], nlink := v.nlink[x.dir := v.nlink[x.dir] + 1],
                     dot := v.dot[ip := a], dotdot := v.dotdot[ip := b], entry := v.entry[ip := x])
    ensures ip in c2.nlink && x.dir in c2.nlink && t == Adopted(c2, ip, a, b, x, name) &&
      IsNew(s, t, ip, x, name, Dir) && t.ref == s.ref[ip := 1]
  {
    assert t == Adopted(c2, ip, a, b, x, name);
    assert IsEntry(t, a, ip, ".") && IsEntry(t, b, ip, "..");
  }

  lemma LinkedNew(s: Fs, t: Fs, ip: nat, x: Slot, name: string)
    requires ip in s.nlink && s.nlink[ip] == 0 && CanAdd(s, x, name) && t == Linked(Claimed(s, ip, File), x, name, ip)
    ensures IsNew(s, t, ip, x, name, File)
  {}

  lemma NewLive(s: Fs, t: Fs, ip: nat, x: Slot, name: string, type_: Kind)
    requires IsNew(s, t, ip, x, name, type_) && Live(s, x.dir) && x.dir != ip
    ensures Live(t, x.dir)
  {}

  lemma NewStays(s: Fs, t: Fs, u: Fs, ip: nat, x: Slot, name: string, type_: Kind)
    requires IsNew(s, t, ip, x, name, type_) && u.links == t.links && u.nlink == t.nlink && u.kind == t.kind
    ensures IsNew(s, u, ip, x, name, type_) && x in u.links && u.links[x] == Link(name, ip) && ip in u.kind &&
      u.kind[ip] == type_
  {
    if type_ == Dir {
      var a :| IsEntry(t, a, ip, ".") && t.links[a].to == ip;
      var b :| IsEntry(t, b, ip, "..") && t.links[b].to == x.dir;
      assert IsEntry(u, a, ip, ".") && IsEntry(u, b, ip, "..");
    }
  }

  lemma NameTaken(s: Fs, x: Slot, y: Slot, name: string)
    requires IsEntry(s, y, x.dir, name)
    ensures !CanAdd(s, x, name)
  {}

  lemma CanAddName(s: Fs, x: Slot, name: string)
    requires x !in s.links && IsDir(s, x.dir) && Live(s, x.dir) &&
      forall y :: y in s.links && y.dir == x.dir ==> s.links[y].name != name
    ensures CanAdd(s, x, name)
  {}

  /** An entry of a linked directory names an inode in use that is linked. */
  lemma EntryFacts(s: Fs, y: Slot, dp: nat)
    requires Inv(s) && y in s.links && y.dir == dp && Live(s, dp)
    ensures s.links[y].to in s.kind && s.kind[s.links[y].to] != Free && s.links[y].to in s.ref && Live(s, s.links[y].to)
  {
    TypedAt(s, y);
    assert s.kind.Keys == s.nlink.Keys == s.ref.Keys && (s.links[y].name == "." ==> s.links[y].to == dp);
    if s.links[y].name != "." {
      hide UniqueNames, Dotted, NamedOnce, Lifetime;
      CountedAt(s, s.links[y].to);
      Somebody(s, s.links[y].to, y);
    }
  }

  /** An entry names a free inode exactly when it is the ".." of a directory that is no longer linked and the directory
      it names has neither links nor references left. */
  lemma DanglesWhen(s: Fs, y: Slot)
    requires Inv(s) && y in s.links
    ensures var i := s.links[y].to;
      && i in s.kind && i in s.nlink && i in s.ref && y.dir in s.nlink
      && (s.kind[i] == Free <==> s.links[y].name == ".." && s.nlink[y.dir] == 0 && s.nlink[i] == 0 && s.ref[i] == 0)
  {
    TypedAt(s, y);
    var i := s.links[y].to;
    assert s.kind.Keys == s.nlink.Keys == s.ref.Keys;
    hide UniqueNames, Dotted, NamedOnce, Counted;
    if s.kind[i] == Free && Live(s, i) { FreeNotLinked(s, i); }
  }

  lemma FreeNotLinked(s: Fs, i: nat)
    requires Typed(s) && Counted(s) && i in s.kind && Live(s, i)
    ensures s.kind[i] != Free
  {
    CountedAt(s, i);
    hide Counted;
    var x :| x in Refs(s, i);
    TypedAt(s, x);
  }

  /** A directory c somebody still references, in a directory p that nobody does: unlinking first c and then p leaves
      c's ".." naming a free inode. An entry of a linked directory never does. */
  lemma DanglingDotDot(s: Fs, x: Slot, y: Slot)
    requires Inv(s) && Proper(s, x) && IsDir(s, s.links[x].to) && Removable(s, y) && y.dir == s.links[x].to
    requires forall z :: z in s.links && z.dir == s.links[x].to && z != y ==> Dots(s.links[z].name)
    requires s.links[y].to in s.ref && s.ref[s.links[y].to] > 0 && s.links[x].to in s.ref && s.ref[s.links[x].to] == 0
    ensures Going(s, y)
    ensures var p, c := s.links[x].to, s.links[y].to;
      var s1 := Referenced(Removed(s, y), p);
      && Going(s1, x) && p != c && c in s.dotdot
      && var s2 := Put(Removed(s1, x), p);
        && Inv(s2) && s.dotdot[c] in s2.links && s2.links[s.dotdot[c]] == Link("..", p) && p in s2.kind &&
          s2.kind[p] == Free
  {
    hide Typed, Counted, UniqueNames, Dotted, NamedOnce, Lifetime;
    var p, c := s.links[x].to, s.links[y].to;
    RemovedOk(s, y);
    var s0 := Removed(s, y);
    DanglingDir(s, x, y);
    ReferencedOk(s0, p);
    var s1 := Referenced(s0, p);
    RemovedOk(s1, x);
    DroppedOk(Removed(s1, x), p);
  }

  // ---------------------------------------------------------------- a state in which ".." dangles

  function SlotName(k: nat): (name: string) { if k == 0 then "." else if k == 1 then ".." else "a" }

  lemma SlotNames(j: nat, k: nat)
    requires j <= 2 && k <= 2
    ensures SlotName(j) == SlotName(k) ==> j == k
    ensures (SlotName(k) == "." <==> k == 0) && (SlotName(k) == ".." <==> k == 1) && (Dots(SlotName(k)) <==> k < 2)
  {
    assert |SlotName(j)| == (if j == 1 then 2 else 1) && |SlotName(k)| == (if k == 1 then 2 else 1);
    assert SlotName(0)[0] == '.' && SlotName(2)[0] == 'a';
  }

  ghost function SlotTo(x: Slot): (i: int) {
    if x.k == 0 then x.dir else if x.k == 2 then x.dir + 1 else if x.dir == 1 then 1 else x.dir - 1
  }

  /** Slots in use: the dots of directories 1, 2 and 3, and a third one in the first two. */
  ghost predicate Nests(x: Slot) { 1 <= x.dir <= 3 && (x.k < 2 || (x.k == 2 && x.dir < 3)) }

  /** Directories 1, 2 and 3, each naming the next "a"; the last one is referenced. */
  ghost predicate IsNested(s: Fs) {
    && s.root == 1 && (forall i :: i in s.kind <==> 1 <= i <= 3) && (forall i :: i in s.nlink <==> 1 <= i <= 3)
    && (forall i :: i in s.ref <==> 1 <= i <= 3) && (forall i :: i in s.kind ==> s.kind[i] == Dir)
    && (forall i :: i in s.nlink ==> s.nlink[i] == if i == 3 then 1 else 2)
    && (forall i :: i in s.ref ==> s.ref[i] == if i == 3 then 1 else 0)
    && (forall x :: x in s.links <==> Nests(x))
    && (forall x :: x in s.links ==> s.links[x].name == SlotName(x.k) && s.links[x].to == SlotTo(x))
    && (forall i :: 1 <= i <= 3 ==> i in s.dot && s.dot[i] == Slot(i, 0))
    && (forall i :: 1 <= i <= 3 ==> i in s.dotdot && s.dotdot[i] == Slot(i, 1))
    && 2 in s.entry && s.entry[2] == Slot(1, 2) && 3 in s.entry && s.entry[3] == Slot(2, 2)
  }

  lemma NestedLinks() returns (links: map<Slot, Link>)
    ensures forall x :: x in links <==> Nests(x)
    ensures forall x :: x in links ==> links[x].name == SlotName(x.k) && links[x].to == SlotTo(x)
  {
    hide SlotName;
    var slots := {Slot(1, 0), Slot(1, 1), Slot(1, 2), Slot(2, 0), Slot(2, 1), Slot(2, 2), Slot(3, 0), Slot(3, 1)};
    links := map x | x in slots :: Link(SlotName(x.k), if SlotTo(x) >= 0 then SlotTo(x) else 0);
    forall x ensures x in links <==> Nests(x) { assert x == Slot(x.dir, x.k); }
  }

  lemma NestedExists() returns (s: Fs)
    ensures IsNested(s)
  {
    hide SlotName, Nests, SlotTo;
    var links := NestedLinks();
    s := Fs(1, map[1 := Dir, 2 := Dir, 3 := Dir], map[1 := 2, 2 := 2, 3 := 1], map[1 := 0, 2 := 0, 3 := 1], links,
            map[1 := Slot(1, 0), 2 := Slot(2, 0), 3 := Slot(3, 0)],
              map[1 := Slot(1, 1), 2 := Slot(2, 1), 3 := Slot(3, 1)],
            map[2 := Slot(1, 2), 3 := Slot(2, 2)]);
  }

  lemma NestedCounted(s: Fs)
    requires IsNested(s)
    ensures Counted(s)
  {
    hide SlotName;
    SlotNames(2, 0);
    SlotNames(0, 1);
    SlotNames(1, 2);
    assert Refs(s, 1) == {Slot(1, 1), Slot(2, 1)};
    assert Refs(s, 2) == {Slot(1, 2), Slot(3, 1)};
    assert Refs(s, 3) == {Slot(2, 2)};
  }

  lemma NestedNames(s: Fs)
    requires IsNested(s)
    ensures Typed(s) && UniqueNames(s) && Lifetime(s)
  {
    hide SlotName;
    forall x, y | x in s.links && y in s.links && x.dir == y.dir && s.links[x].name == s.links[y].name ensures x == y {
      SlotNames(x.k, y.k);
    }
  }

  lemma NestedTree(s: Fs)
    requires IsNested(s)
    ensures Dotted(s) && NamedOnce(s)
  {
    hide SlotName;
    SlotNames(2, 0);
    SlotNames(0, 1);
    SlotNames(1, 2);
    forall d | IsDir(s, d) ensures DotsOf(s, d) {
      assert Nests(Slot(d, 0)) && Nests(Slot(d, 1)) && Nests(Slot(1, 2)) && Nests(Slot(2, 2));
    }
  }

  lemma NestedReady(s: Fs)
    requires IsNested(s)
    ensures Slot(1, 2) in s.links && Proper(s, Slot(1, 2)) && s.links[Slot(1, 2)].to == 2
    ensures Slot(2, 2) in s.links && Removable(s, Slot(2, 2)) && s.links[Slot(2, 2)].to == 3
    ensures forall z :: z in s.links && z.dir == 2 && z != Slot(2, 2) ==> Dots(s.links[z].name)
    ensures IsDir(s, 2) && 3 in s.dotdot && 3 in s.ref && s.ref[3] > 0 && 2 in s.ref && s.ref[2] == 0
  {
    hide SlotName;
    SlotNames(2, 0);
    SlotNames(0, 1);
    SlotNames(1, 2);
    assert Nests(Slot(1, 2)) && Nests(Slot(2, 2));
  }

  /** With the tree a/a and the inner directory held, unlinking it and then the outer one leaves its ".." naming a free
      inode, in a state that keeps every invariant. */
  lemma DotDotCanDangle() returns (t: Fs, z: Slot)
    ensures Inv(t) && z in t.links && t.links[z].name == ".." && t.links[z].to in t.kind &&
      t.kind[t.links[z].to] == Free
  {
    hide IsNested, Typed, Counted, UniqueNames, Dotted, NamedOnce, Lifetime, Removable, Put, Empty;
    var s := NestedExists();
    var x, y := Slot(1, 2), Slot(2, 2);
    NestedCounted(s);
    NestedNames(s);
    NestedTree(s);
    NestedReady(s);
    DanglingDotDot(s, x, y);
    t, z := Put(Removed(Referenced(Removed(s, y), 2), x), 2), s.dotdot[3];
  }

  lemma DanglingDir(s: Fs, x: Slot, y: Slot)
    requires Going(s, y) && Proper(s, x) && IsDir(s, s.links[x].to) && y.dir == s.links[x].to
    requires forall z :: z in s.links && z.dir == s.links[x].to && z != y ==> Dots(s.links[z].name)
    ensures var p, s0 := s.links[x].to, Removed(s, y);
      x != y && p in s0.kind && s0.kind[p] == Dir && Removable(s0, x) && s0.links[x].to == p
  {}

  /** Putting down two inodes that are linked frees neither. */
  lemma PutsLive(s: Fs, a: nat, b: nat)
    requires Inv(s) && a in s.ref && s.ref[a] > 0 && b in s.ref && s.ref[b] > 0 && a != b && Live(s, a) && Live(s, b)
    ensures Put(Put(s, a), b) == s.(ref := s.ref[a := s.ref[a] - 1][b := s.ref[b] - 1])
  {
    hide Inv;
    ReferenceFacts(s, a);
    ReferenceFacts(s, b);
  }

  /** From s to t entry x went, and what it counted; the caller's reference to its directory went too. Other entries are
      as they were, but for those of a directory that is free now. */
  ghost predicate NameGone(s: Fs, t: Fs, x: Slot) {
    && x in s.links && x !in t.links && s.links[x].to in s.nlink && x.dir in s.nlink && x.dir in s.ref &&
      s.ref[x.dir] > 0
    && (forall y :: y in t.links ==> y in s.links && t.links[y] == s.links[y])
    && (forall y :: y in s.links && y != x && y !in t.links ==> y.dir in t.kind && t.kind[y.dir] == Free)
    && (forall i :: i in s.nlink ==>
          && i in t.nlink
          && s.nlink[i] ==
            t.nlink[i] + (if i == s.links[x].to then 1 else 0) +
            (if i == x.dir && IsDir(s, s.links[x].to) then 1 else 0))
    && t.ref == s.ref[x.dir := s.ref[x.dir] - 1]
  }

  /** What iput changes: one reference, and everything in the directory if it frees one. */
  lemma PutChanges(s: Fs, i: nat)
    requires Inv(s) && i in s.ref && s.ref[i] > 0
    ensures var t := Put(s, i);
      && t.nlink == s.nlink && t.ref == s.ref[i := s.ref[i] - 1] && i in t.kind
      && (forall y :: y in t.links ==> y in s.links && t.links[y] == s.links[y])
      && (forall y :: y in s.links && y !in t.links ==> y.dir == i && t.kind[i] == Free)
      && (forall j :: j in s.kind && j != i ==> j in t.kind && t.kind[j] == s.kind[j])
  {
    hide Inv;
    ReferenceFacts(s, i);
  }

  lemma GoneAfter(s: Fs, u: Fs, t: Fs, x: Slot)
    requires CanUnname(s, x) && s.links[x].to in s.ref && x.dir in s.ref && s.ref[x.dir] > 0
    requires s.links[x].to != x.dir && Inv(s) && Inv(u) && UnnamedIs(s, u, x)
    requires t == Put(Put(u, x.dir), s.links[x].to)
    ensures NameGone(s, t, x)
  {
    hide Inv, Put;
    var ip, dp := s.links[x].to, x.dir;
    PutOk(u, dp);
    PutChanges(u, dp);
    PutChanges(Put(u, dp), ip);
  }

  /** The name and its counts are gone, and the inode it named is held. */
  ghost predicate UnnamedIs(s: Fs, u: Fs, x: Slot) {
    && x in s.links && s.links[x].to in s.nlink && x.dir in s.nlink && s.links[x].to in s.ref
    && u.links == s.links - {x} && u.kind == s.kind && u.ref == s.ref[s.links[x].to := s.ref[s.links[x].to] + 1]
    && (forall i :: i in s.nlink ==>
          && i in u.nlink
          && s.nlink[i] ==
            u.nlink[i] + (if i == s.links[x].to then 1 else 0) +
            (if i == x.dir && IsDir(s, s.links[x].to) then 1 else 0))
  }

  /** The reference to the parent is gone and there is one more to r. */
  ghost predicate Swapped(was: map<nat, nat>, now: map<nat, nat>, dp: nat, r: nat) {
    && dp in was && was[dp] > 0 && r != dp
    && now == was[r := 1 + if r in was then was[r] else 0][dp := was[dp] - 1]
  }

  lemma FreeHasNoRef(s: Fs, i: nat)
    requires Inv(s) && i in s.kind && s.kind[i] == Free
    ensures i in s.ref && s.ref[i] == 0
  {
    hide Counted, UniqueNames, NamedOnce, Dotted;
  }

  lemma PutRef(s: Fs, i: nat)
    requires Inv(s) && i in s.ref && s.ref[i] > 0
    ensures Put(s, i).ref == s.ref[i := s.ref[i] - 1]
  {
    hide Inv;
    DroppedOk(s, i);
  }

  lemma RemovedIs(s: Fs, t: Fs, x: Slot)
    requires x in s.links && Live(s, s.links[x].to) && Live(s, x.dir) && s.links[x].to != x.dir &&
      IsDir(s, s.links[x].to)
    requires var ip, dp := s.links[x].to, x.dir;
      t == s.(links := s.links - {x}, nlink := s.nlink[dp := s.nlink[dp] - 1][ip := s.nlink[ip] - 1])
    ensures t == Removed(s, x) == Unnamed(s, x)
  {
    var ip, dp := s.links[x].to, x.dir;
    assert s.nlink[dp := s.nlink[dp] - 1][ip := s.nlink[ip] - 1] ==
      s.nlink[ip := s.nlink[ip] - 1][dp := s.nlink[dp] - 1];
  }

  lemma UnlinkedIs(s: Fs, t: Fs, x: Slot)
    requires x in s.links && Live(s, s.links[x].to) && !IsDir(s, s.links[x].to)
    requires var ip := s.links[x].to; t == s.(links := s.links - {x}, nlink := s.nlink[ip := s.nlink[ip] - 1])
    ensures t == Unlinked(s, x) == Unnamed(s, x)
  {}

  lemma LinkedIs(s: Fs, t: Fs, x: Slot, name: string, ip: nat)
    requires ip in s.nlink && t == s.(links := s.links[x := Link(name, ip)], nlink := s.nlink[ip := s.nlink[ip] + 1])
    ensures t == Linked(s, x, name, ip)
  {}

  /** Taking a reference and dropping it again changes nothing for a linked inode. */
  lemma ReferencedBack(s: Fs, i: nat)
    requires Live(s, i) && i in s.ref && i in s.kind
    ensures Put(Referenced(s, i), i) == s
  {
    assert s.ref[i := s.ref[i] + 1][i := s.ref[i]] == s.ref;
  }

  lemma EmptySame(s: Fs, r: Fs, i: nat)
    requires s.links == r.links
    ensures Empty(s, i) <==> Empty(r, i)
  {}

  ghost predicate CanUnname(s: Fs, x: Slot) {
    && Proper(s, x) && s.links[x].to in s.ref && Live(s, s.links[x].to)
    && (IsDir(s, s.links[x].to) ==> Live(s, x.dir) && s.links[x].to != x.dir && Empty(s, s.links[x].to))
  }

  lemma UnnameSame(s: Fs, r: Fs, x: Slot)
    requires x in s.links && s.links[x].to in s.ref && r == Referenced(s, s.links[x].to) && Proper(r, x) &&
      Live(r, r.links[x].to)
    requires IsDir(r, r.links[x].to) ==> Live(r, x.dir) && r.links[x].to != x.dir && Empty(r, r.links[x].to)
    ensures CanUnname(s, x)
  {}

  lemma UnnameIs(s: Fs, r: Fs, x: Slot)
    requires Inv(s) && x in s.links && s.links[x].to in s.ref && r == Referenced(s, s.links[x].to) && Proper(r, x) &&
      Live(r, r.links[x].to)
    requires IsDir(r, r.links[x].to) ==> Live(r, x.dir) && r.links[x].to != x.dir && Empty(r, r.links[x].to)
    ensures UnnamedIs(s, Unnamed(r, x), x) && s.links[x].to != x.dir
  {
    hide Counted, UniqueNames, NamedOnce, Dotted, Lifetime;
    TypedAt(s, x);
  }
}
