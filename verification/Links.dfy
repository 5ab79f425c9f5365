/** Link counts and the life of an inode (kernel/sysfile.c, kernel/fs.c): the name space as links between inodes. */
module Links {

  datatype Kind = Free | File | Dir

  /** An entry of a directory file. */
  datatype Slot = Slot(dir: nat, k: nat)

  datatype Link = Link(name: string, to: nat)

  /** Every inode's type, link count and in-memory references, and all directory entries in use. For a linked directory,
      dot and dotdot are where its "." and ".." are, and entry where it is named. */
  datatype Fs = Fs(root: nat, kind: map<nat, Kind>, nlink: map<nat, nat>, ref: map<nat, nat>, links: map<Slot, Link>,
                   dot: map<nat, Slot>, dotdot: map<nat, Slot>, entry: map<nat, Slot>)

  predicate Dots(name: string) { name == "." || name == ".." }

  ghost predicate Live(s: Fs, i: nat) { i in s.nlink && s.nlink[i] > 0 }

  /** Entries that count: not ".", and ".." only in a directory that is itself linked. */
  ghost predicate Refers(s: Fs, x: Slot, i: nat) {
    x in s.links && s.links[x].to == i && s.links[x].name != "." && (s.links[x].name == ".." ==> Live(s, x.dir))
  }

  ghost function Refs(s: Fs, i: nat): set<Slot> { set x | x in s.links && Refers(s, x, i) }

  ghost predicate Proper(s: Fs, x: Slot) { x in s.links && !Dots(s.links[x].name) }

  ghost predicate IsDir(s: Fs, d: nat) { d in s.kind && s.kind[d] == Dir }

  ghost predicate Typed(s: Fs) {
    && s.kind.Keys == s.nlink.Keys == s.ref.Keys && IsDir(s, s.root) && Live(s, s.root)
    && forall x :: x in s.links ==> IsDir(s, x.dir) && s.links[x].to in s.kind && InUse(s, x)
  }

  /** An entry names an inode in use, unless it is the ".." of a directory that is no longer linked. */
  ghost predicate InUse(s: Fs, x: Slot)
    requires x in s.links && s.links[x].to in s.kind
  {
    s.kind[s.links[x].to] != Free || (s.links[x].name == ".." && !Live(s, x.dir))
  }

  /** nlink is the number of entries that count. */
  ghost predicate Counted(s: Fs) { forall i :: i in s.nlink ==> s.nlink[i] == |Refs(s, i)| }

  ghost predicate UniqueNames(s: Fs) {
    forall x, y :: x in s.links && y in s.links && x.dir == y.dir && s.links[x].name == s.links[y].name ==> x == y
  }

  ghost predicate IsEntry(s: Fs, x: Slot, d: nat, name: string) {
    x in s.links && x.dir == d && s.links[x].name == name
  }

  /** A linked directory has its dots, and ".." names the directory that names it, the root for the root. */
  ghost predicate DotsOf(s: Fs, d: nat) {
    && d in s.dot && IsEntry(s, s.dot[d], d, ".") && d in s.dotdot && IsEntry(s, s.dotdot[d], d, "..")
    && if d == s.root then s.links[s.dotdot[d]].to == d
       else
         && d in s.entry && Proper(s, s.entry[d]) && s.links[s.entry[d]].to == d
         && s.links[s.dotdot[d]].to == s.entry[d].dir
  }

  ghost predicate Dotted(s: Fs) { forall d :: IsDir(s, d) && Live(s, d) ==> DotsOf(s, d) }

  /** A directory is named by one entry, and the root by none; an unlinked directory names nothing; "." names itself. */
  ghost predicate NamedOnce(s: Fs) {
    && (forall x :: Proper(s, x) && IsDir(s, s.links[x].to) ==>
          s.links[x].to != s.root && Live(s, s.links[x].to) && s.links[x].to in s.entry && s.entry[s.links[x].to] == x)
    && (forall x :: Proper(s, x) ==> Live(s, x.dir))
    && (forall x :: x in s.links && s.links[x].name == "." ==> s.links[x].to == x.dir)
  }

  /** An inode in use is linked or referenced, and a referenced inode is in use. */
  ghost predicate Lifetime(s: Fs) {
    && (forall i :: i in s.kind && i in s.ref && s.kind[i] != Free ==> Live(s, i) || s.ref[i] > 0)
    && (forall i :: i in s.kind && i in s.ref && s.ref[i] > 0 ==> s.kind[i] != Free)
  }

  ghost predicate Inv(s: Fs) { Typed(s) && Counted(s) && UniqueNames(s) && Dotted(s) && NamedOnce(s) && Lifetime(s) }

  // ---------------------------------------------------------------- counting

  lemma CountedAt(s: Fs, i: nat)
    requires Counted(s) && i in s.nlink
    ensures s.nlink[i] == |Refs(s, i)|
  {}

  lemma SameRefs(s: Fs, t: Fs, i: nat)
    requires forall x :: Refers(s, x, i) <==> Refers(t, x, i)
    ensures Refs(s, i) == Refs(t, i)
  {}

  lemma OneMore(s: Fs, t: Fs, i: nat, x: Slot)
    requires !Refers(s, x, i) && Refers(t, x, i) && forall y :: y != x ==> (Refers(s, y, i) <==> Refers(t, y, i))
    ensures |Refs(t, i)| == |Refs(s, i)| + 1
  {
    assert Refs(t, i) == Refs(s, i) + {x};
  }

  lemma Nobody(s: Fs, i: nat)
    requires forall x :: !Refers(s, x, i)
    ensures |Refs(s, i)| == 0
  {
    assert Refs(s, i) == {};
  }

  lemma Somebody(s: Fs, i: nat, x: Slot)
    requires Refers(s, x, i)
    ensures |Refs(s, i)| > 0
  {
    assert x in Refs(s, i);
  }

  lemma DotsAt(s: Fs, d: nat)
    requires Dotted(s) && IsDir(s, d) && Live(s, d)
    ensures DotsOf(s, d)
  {}

  lemma TypedAt(s: Fs, x: Slot)
    requires Typed(s) && x in s.links
    ensures IsDir(s, x.dir) && s.links[x].to in s.kind && InUse(s, x)
  {}

  // ---------------------------------------------------------------- link and unlink of a file

  /** sys_link, when it succeeds. */
  ghost function Linked(s: Fs, x: Slot, name: string, ip: nat): (t: Fs)
    requires ip in s.nlink
  {
    s.(links := s.links[x := Link(name, ip)], nlink := s.nlink[ip := s.nlink[ip] + 1])
  }

  /** The directory is linked, has no entry of that name, and slot x of it is free. */
  ghost predicate CanAdd(s: Fs, x: Slot, name: string) {
    x !in s.links && IsDir(s, x.dir) && Live(s, x.dir) &&
      forall y :: y in s.links && y.dir == x.dir ==> s.links[y].name != name
  }

  /** A new name is neither "." nor "..": these are there. */
  lemma ProperName(s: Fs, x: Slot, name: string)
    requires Dotted(s) && CanAdd(s, x, name)
    ensures !Dots(name)
  {
    DotsAt(s, x.dir);
  }

  lemma LinkedRefers(s: Fs, x: Slot, name: string, ip: nat, y: Slot, i: nat)
    requires Typed(s) && CanAdd(s, x, name) && !Dots(name) && ip in s.kind && s.kind[ip] == File
    ensures Refers(Linked(s, x, name, ip), y, i) <==> Refers(s, y, i) || (y == x && i == ip)
  {
    if y in s.links { TypedAt(s, y); }
  }

  lemma LinkedCount(s: Fs, x: Slot, name: string, ip: nat, i: nat)
    requires Typed(s) && Counted(s) && CanAdd(s, x, name) && !Dots(name) && ip in s.kind && s.kind[ip] == File &&
      ip in s.nlink && i in s.nlink
    ensures |Refs(Linked(s, x, name, ip), i)| == s.nlink[i] + if i == ip then 1 else 0
  {
    assert !Refers(s, x, ip);
    hide Refers, Refs, Linked, CanAdd, Dots, Typed;
    var t := Linked(s, x, name, ip);
    CountedAt(s, i);
    hide Counted;
    forall y ensures Refers(t, y, i) <==> Refers(s, y, i) || (y == x && i == ip) { LinkedRefers(s, x, name, ip, y, i); }
    if i == ip { OneMore(s, t, i, x); } else { SameRefs(s, t, i); }
  }

  lemma LinkedCounted(s: Fs, x: Slot, name: string, ip: nat)
    requires Typed(s) && Counted(s) && CanAdd(s, x, name) && !Dots(name) && ip in s.kind && s.kind[ip] == File
    ensures Counted(Linked(s, x, name, ip))
  {
    hide Refers, Refs, CanAdd, Dots;
    var t := Linked(s, x, name, ip);
    assert ip in s.nlink && t.nlink == s.nlink[ip := s.nlink[ip] + 1];
    forall i | i in t.nlink ensures t.nlink[i] == |Refs(t, i)| { LinkedCount(s, x, name, ip, i); }
  }

  lemma LinkedNames(s: Fs, x: Slot, name: string, ip: nat)
    requires Typed(s) && UniqueNames(s) && Lifetime(s) && CanAdd(s, x, name) && ip in s.kind && s.kind[ip] == File
    ensures var t := Linked(s, x, name, ip); Typed(t) && UniqueNames(t) && Lifetime(t)
  {
    var t := Linked(s, x, name, ip);
    assert Typed(t) by { hide UniqueNames; }
    assert UniqueNames(t) by { hide Typed, Lifetime; }
    assert Lifetime(t) by { hide Typed, UniqueNames; }
  }

  lemma LinkedTree(s: Fs, x: Slot, name: string, ip: nat)
    requires Typed(s) && Dotted(s) && NamedOnce(s) && CanAdd(s, x, name) && !Dots(name) && ip in s.kind &&
      s.kind[ip] == File
    ensures var t := Linked(s, x, name, ip); Dotted(t) && NamedOnce(t)
  {
    var t := Linked(s, x, name, ip);
    forall d | IsDir(t, d) && Live(t, d) ensures DotsOf(t, d) { DotsAt(s, d); }
  }

  lemma LinkedOk(s: Fs, x: Slot, name: string, ip: nat)
    requires Inv(s) && CanAdd(s, x, name) && ip in s.kind && s.kind[ip] == File
    ensures !Dots(name) && Inv(Linked(s, x, name, ip))
  {
    hide Typed, Counted, UniqueNames, Dotted, NamedOnce, Lifetime, Dots, CanAdd, Linked;
    ProperName(s, x, name);
    LinkedCounted(s, x, name, ip);
    LinkedNames(s, x, name, ip);
    LinkedTree(s, x, name, ip);
  }

  /** sys_unlink of a file. */
  ghost function Unlinked(s: Fs, x: Slot): (t: Fs)
    requires x in s.links && s.links[x].to in s.nlink && s.nlink[s.links[x].to] > 0
  {
    s.(links := s.links - {x}, nlink := s.nlink[s.links[x].to := s.nlink[s.links[x].to] - 1])
  }

  /** A name in use counts, so the nlink < 1 panic of sys_unlink is out of reach. */
  lemma NamedIsLive(s: Fs, x: Slot)
    requires Typed(s) && Counted(s) && Proper(s, x)
    ensures s.links[x].to in s.nlink && s.nlink[s.links[x].to] > 0
  {
    TypedAt(s, x);
    CountedAt(s, s.links[x].to);
    Somebody(s, s.links[x].to, x);
  }

  lemma UnlinkedRefers(s: Fs, x: Slot, y: Slot, i: nat)
    requires Typed(s) && Proper(s, x) && Live(s, s.links[x].to) && s.kind[s.links[x].to] == File
    ensures Refers(Unlinked(s, x), y, i) <==> Refers(s, y, i) && y != x
  {
    if y in s.links { TypedAt(s, y); }
  }

  lemma UnlinkedCounted(s: Fs, x: Slot)
    requires Typed(s) && Counted(s) && Proper(s, x) && Live(s, s.links[x].to) && s.kind[s.links[x].to] == File
    ensures Counted(Unlinked(s, x))
  {
    var t, ip := Unlinked(s, x), s.links[x].to;
    assert t.nlink == s.nlink[ip := s.nlink[ip] - 1] && Refers(s, x, ip) && forall i :: i != ip ==> !Refers(s, x, i);
    hide Refers, Refs, Unlinked, Proper, Live;
    forall i | i in t.nlink ensures t.nlink[i] == |Refs(t, i)| {
      CountedAt(s, i);
      forall y ensures Refers(t, y, i) <==> Refers(s, y, i) && y != x { UnlinkedRefers(s, x, y, i); }
      if i == ip { OneMore(t, s, i, x); } else { SameRefs(s, t, i); }
    }
  }

  lemma UnlinkedTree(s: Fs, x: Slot)
    requires Typed(s) && Dotted(s) && NamedOnce(s) && Proper(s, x) && Live(s, s.links[x].to) &&
      s.kind[s.links[x].to] == File
    ensures var t := Unlinked(s, x); Dotted(t) && NamedOnce(t)
  {
    var t := Unlinked(s, x);
    forall d | IsDir(t, d) && Live(t, d) ensures DotsOf(t, d) { DotsAt(s, d); }
  }

  lemma UnlinkedNames(s: Fs, x: Slot)
    requires Typed(s) && UniqueNames(s) && Lifetime(s) && Proper(s, x) && Live(s, s.links[x].to) &&
      s.kind[s.links[x].to] == File
    requires s.ref[s.links[x].to] > 0
    ensures var t := Unlinked(s, x); Typed(t) && UniqueNames(t) && Lifetime(t)
  {
    var t := Unlinked(s, x);
    assert Typed(t) by { hide UniqueNames; }
    assert UniqueNames(t) by { hide Typed, Lifetime; }
    assert Lifetime(t) by { hide UniqueNames; }
  }

  lemma UnlinkedOk(s: Fs, x: Slot)
    requires Inv(s) && Proper(s, x) && s.links[x].to in s.kind && s.kind[s.links[x].to] == File &&
      s.ref[s.links[x].to] > 0
    ensures Live(s, s.links[x].to) && Inv(Unlinked(s, x))
  {
    NamedIsLive(s, x);
    hide Typed, Counted, UniqueNames, Dotted, NamedOnce, Lifetime, Unlinked, Proper;
    UnlinkedCounted(s, x);
    UnlinkedNames(s, x);
    UnlinkedTree(s, x);
  }

  // ---------------------------------------------------------------- unlink of a directory

  /** isdirempty. */
  ghost predicate Empty(s: Fs, d: nat) { forall y :: y in s.links && y.dir == d ==> Dots(s.links[y].name) }

  /** sys_unlink of a directory: its own count and, for its "..", its parent's. */
  ghost function Removed(s: Fs, x: Slot): (t: Fs)
    requires x in s.links && Live(s, s.links[x].to) && Live(s, x.dir) && s.links[x].to != x.dir
  {
    var ip := s.links[x].to;
    s.(links := s.links - {x}, nlink := s.nlink[ip := s.nlink[ip] - 1][x.dir := s.nlink[x.dir] - 1])
  }

  ghost predicate Removable(s: Fs, x: Slot) { Proper(s, x) && IsDir(s, s.links[x].to) && Empty(s, s.links[x].to) }

  /** Nothing else counts for an empty directory. */
  lemma OnlyReference(s: Fs, x: Slot, y: Slot)
    requires Typed(s) && UniqueNames(s) && Dotted(s) && NamedOnce(s) && Removable(s, x) && Refers(s, y, s.links[x].to)
    ensures y == x
  {
    hide Dotted;
    TypedAt(s, y);
    if s.links[y].name == ".." { DotsAt(s, y.dir); }
  }

  /** What sys_unlink relies on when it removes a directory x names: it is linked once, its ".." counts for the
      directory x is in, and that stays linked. */
  ghost predicate Going(s: Fs, x: Slot) {
    && Proper(s, x) && IsDir(s, s.links[x].to)
    && var ip := s.links[x].to;
      && Live(s, ip) && ip != x.dir && ip != s.root && s.nlink[ip] == 1 && x.dir in s.nlink && s.nlink[x.dir] >= 2
      && ip in s.dotdot && IsEntry(s, s.dotdot[ip], ip, "..") && s.links[s.dotdot[ip]].to == x.dir
  }

  lemma LinkedOnce(s: Fs, x: Slot)
    requires Typed(s) && Counted(s) && UniqueNames(s) && Dotted(s) && NamedOnce(s) && Removable(s, x)
    ensures s.links[x].to in s.nlink && s.nlink[s.links[x].to] == 1
  {
    NamedIsLive(s, x);
    CountedAt(s, s.links[x].to);
    hide *;
    OneRefers(s, x);
  }

  lemma OneRefers(s: Fs, x: Slot)
    requires Typed(s) && UniqueNames(s) && Dotted(s) && NamedOnce(s) && Removable(s, x) && Live(s, s.links[x].to)
    ensures Refs(s, s.links[x].to) == {x}
  {
    hide Typed, UniqueNames, Dotted, NamedOnce, Removable, Refers;
    RemovableRefers(s, x);
    forall y | Refers(s, y, s.links[x].to) ensures y == x { OnlyReference(s, x, y); }
  }

  lemma RemovableRefers(s: Fs, x: Slot)
    requires Removable(s, x)
    ensures Refers(s, x, s.links[x].to)
  {}

  lemma UpFromRemovable(s: Fs, x: Slot)
    requires Typed(s) && Dotted(s) && NamedOnce(s) && Removable(s, x)
    ensures var ip := s.links[x].to;
      && Live(s, ip) && Live(s, x.dir) && ip != x.dir && ip != s.root && IsDir(s, x.dir)
      && ip in s.dotdot && IsEntry(s, s.dotdot[ip], ip, "..") && s.links[s.dotdot[ip]].to == x.dir
  {
    hide Dotted;
    DotsAt(s, s.links[x].to);
  }

  /** The parent stays linked: its own name, or the root's "..", still counts. */
  lemma ParentStays(s: Fs, x: Slot)
    requires Typed(s) && Counted(s) && Dotted(s) && NamedOnce(s) && Removable(s, x)
    ensures x.dir in s.nlink && s.nlink[x.dir] >= 2
  {
    var dp, ip := x.dir, s.links[x].to;
    UpFromRemovable(s, x);
    hide Typed, Counted, Dotted, NamedOnce, Removable;
    DotsAt(s, dp);
    CountedAt(s, dp);
    var own := if dp == s.root then s.dotdot[dp] else s.entry[dp];
    assert Refers(s, own, dp) && Refers(s, s.dotdot[ip], dp) && own != s.dotdot[ip];
    TwoRefs(s, dp, own, s.dotdot[ip]);
  }

  lemma TwoRefs(s: Fs, i: nat, x: Slot, y: Slot)
    requires Refers(s, x, i) && Refers(s, y, i) && x != y
    ensures |Refs(s, i)| >= 2
  {
    var pair := {x, y};
    assert Refs(s, i) == pair + (Refs(s, i) - pair);
  }

  lemma GoesAway(s: Fs, x: Slot)
    requires Inv(s) && Removable(s, x)
    ensures Going(s, x)
  {
    hide Typed, Counted, UniqueNames, Dotted, NamedOnce, Lifetime;
    UpFromRemovable(s, x);
    ParentStays(s, x);
    LinkedOnce(s, x);
  }

  lemma RemovedRefers(s: Fs, x: Slot, y: Slot, i: nat)
    requires UniqueNames(s) && Going(s, x)
    ensures Refers(Removed(s, x), y, i) <==> Refers(s, y, i) && y != x && y != s.dotdot[s.links[x].to]
  {}

  lemma RemovedCounted(s: Fs, x: Slot)
    requires UniqueNames(s) && Counted(s) && Going(s, x)
    ensures Counted(Removed(s, x))
  {
    var t, ip, dp := Removed(s, x), s.links[x].to, x.dir;
    var dd := s.dotdot[ip];
    assert t.nlink == s.nlink[ip := s.nlink[ip] - 1][dp := s.nlink[dp] - 1] && ip != dp;
    assert Refers(s, x, ip) && Refers(s, dd, dp) && (forall i :: i != ip ==> !Refers(s, x, i)) &&
      (forall i :: i != dp ==> !Refers(s, dd, i));
    hide UniqueNames, Counted, Going, Refers, Refs, Removed;
    forall i | i in t.nlink ensures t.nlink[i] == |Refs(t, i)| {
      CountedAt(s, i);
      forall y ensures Refers(t, y, i) <==> Refers(s, y, i) && y != x && y != dd { RemovedRefers(s, x, y, i); }
      if i == ip { OneMore(t, s, i, x); } else if i == dp { OneMore(t, s, i, dd); } else { SameRefs(s, t, i); }
    }
  }

  lemma RemovedTyped(s: Fs, x: Slot)
    requires Typed(s) && Going(s, x)
    ensures Typed(Removed(s, x))
  {}

  lemma RemovedLifetime(s: Fs, x: Slot)
    requires Typed(s) && Lifetime(s) && Going(s, x) && s.ref[s.links[x].to] > 0
    ensures Lifetime(Removed(s, x))
  {}

  lemma RemovedUnique(s: Fs, x: Slot)
    requires UniqueNames(s) && Going(s, x)
    ensures UniqueNames(Removed(s, x))
  {
    hide Going;
    assert x in s.links && Live(s, s.links[x].to) && Live(s, x.dir) && s.links[x].to != x.dir by { GoingDomain(s, x); }
  }

  lemma GoingDomain(s: Fs, x: Slot)
    requires Going(s, x)
    ensures x in s.links && Live(s, s.links[x].to) && Live(s, x.dir) && s.links[x].to != x.dir
  {}

  lemma RemovedDotted(s: Fs, x: Slot)
    requires Typed(s) && Dotted(s) && NamedOnce(s) && Going(s, x)
    ensures Dotted(Removed(s, x))
  {
    var t, ip := Removed(s, x), s.links[x].to;
    hide Dotted, Typed;
    forall d | IsDir(t, d) && Live(t, d) ensures DotsOf(t, d) { DotsAt(s, d); }
  }

  lemma RemovedNamed(s: Fs, x: Slot)
    requires NamedOnce(s) && Going(s, x) && Empty(s, s.links[x].to)
    ensures NamedOnce(Removed(s, x))
  {}

  lemma RemovedOk(s: Fs, x: Slot)
    requires Inv(s) && Removable(s, x) && s.links[x].to in s.ref && s.ref[s.links[x].to] > 0
    ensures Going(s, x) && Inv(Removed(s, x))
  {
    hide Typed, Counted, UniqueNames, Dotted, NamedOnce, Lifetime, Going, Removed;
    GoesAway(s, x);
    GoingDomain(s, x);
    RemovedCounted(s, x);
    RemovedTyped(s, x);
    RemovedUnique(s, x);
    RemovedLifetime(s, x);
    RemovedDotted(s, x);
    RemovedNamed(s, x);
  }

  // ---------------------------------------------------------------- references, and the end of an inode

  ghost function Referenced(s: Fs, i: nat): (t: Fs)
    requires i in s.ref
  {
    s.(ref := s.ref[i := s.ref[i] + 1])
  }

  /** iget and idup of an inode in use. */
  lemma ReferencedOk(s: Fs, i: nat)
    requires Inv(s) && i in s.kind && s.kind[i] != Free
    ensures i in s.ref && Inv(Referenced(s, i))
  {
    hide Counted, UniqueNames, Dotted, NamedOnce;
    ReferencedTyped(s, i);
    hide Typed, Lifetime, Referenced;
    SameLinks(s, Referenced(s, i));
  }

  lemma ReferencedTyped(s: Fs, i: nat)
    requires Typed(s) && Lifetime(s) && i in s.kind && s.kind[i] != Free
    ensures i in s.ref
    ensures var t := Referenced(s, i); t == s.(ref := t.ref) && Lifetime(t) && Typed(t)
  {}

  // what does not look at references or types

  ghost predicate SameNames(s: Fs, t: Fs) {
    t.root == s.root && t.nlink == s.nlink && t.links == s.links && t.dot == s.dot && t.dotdot == s.dotdot &&
      t.entry == s.entry
  }

  lemma CountedSame(s: Fs, t: Fs)
    requires Counted(s) && SameNames(s, t)
    ensures Counted(t)
  {
    forall i | i in t.nlink ensures t.nlink[i] == |Refs(t, i)| { CountedAt(s, i); SameRefs(s, t, i); }
  }

  lemma DottedSame(s: Fs, t: Fs)
    requires Dotted(s) && SameNames(s, t) && forall d :: IsDir(t, d) && Live(t, d) ==> IsDir(s, d)
    ensures Dotted(t)
  {
    forall d | IsDir(t, d) && Live(t, d) ensures DotsOf(t, d) { DotsAt(s, d); }
  }

  lemma NamedSame(s: Fs, t: Fs)
    requires NamedOnce(s) && SameNames(s, t) &&
      forall x :: Proper(t, x) && IsDir(t, t.links[x].to) ==> IsDir(s, t.links[x].to)
    ensures NamedOnce(t)
  {}

  lemma UniqueSame(s: Fs, t: Fs)
    requires UniqueNames(s) && t.links == s.links
    ensures UniqueNames(t)
  {}

  lemma SameLinks(s: Fs, t: Fs)
    requires Inv(s) && t == s.(ref := t.ref) && Lifetime(t) && Typed(t)
    ensures Inv(t)
  {
    hide Typed, Lifetime, Counted, UniqueNames, Dotted, NamedOnce;
    CountedSame(s, t);
    DottedSame(s, t);
    NamedSame(s, t);
    UniqueSame(s, t);
  }

  /** iput. The last reference to an unlinked inode frees it with its blocks; for a directory these are its dots. */
  ghost function Dropped(s: Fs, i: nat): (t: Fs)
    requires i in s.ref && s.ref[i] > 0 && i in s.nlink && i in s.kind
  {
    if s.ref[i] == 1 && s.nlink[i] == 0
    then s.(ref := s.ref[i := 0], kind := s.kind[i := Free], links := map x | x in s.links && x.dir != i :: s.links[x])
    else s.(ref := s.ref[i := s.ref[i] - 1])
  }

  lemma FreedCounted(s: Fs, i: nat)
    requires Typed(s) && NamedOnce(s) && Counted(s) && i in s.kind && s.nlink[i] == 0 && s.ref[i] == 1
    ensures Counted(Dropped(s, i))
  {
    var t := Dropped(s, i);
    forall x, j ensures Refers(t, x, j) <==> Refers(s, x, j) { FreedRefers(s, i, x, j); }
    assert t.nlink == s.nlink;
    hide Typed, NamedOnce, Refers, Refs, Dropped;
    forall j | j in t.nlink ensures t.nlink[j] == |Refs(t, j)| { CountedAt(s, j); SameRefs(s, t, j); }
  }

  lemma FreedRefers(s: Fs, i: nat, x: Slot, j: nat)
    requires Typed(s) && NamedOnce(s) && i in s.kind && s.nlink[i] == 0 && s.ref[i] == 1
    ensures Refers(Dropped(s, i), x, j) <==> Refers(s, x, j)
  {}

  /** Nothing that counts names an inode with nlink 0. */
  lemma FreedTyped(s: Fs, i: nat)
    requires Typed(s) && NamedOnce(s) && Counted(s) && i in s.kind && s.nlink[i] == 0 && s.ref[i] == 1
    ensures Typed(Dropped(s, i))
  {
    hide Dropped, Counted, NamedOnce, InUse;
    var t := Dropped(s, i);
    RootKept(s, i);
    forall x | x in t.links ensures IsDir(t, x.dir) && t.links[x].to in t.kind && InUse(t, x) { FreedTypedAt(s, i, x); }
  }

  lemma RootKept(s: Fs, i: nat)
    requires s.kind.Keys == s.nlink.Keys == s.ref.Keys && IsDir(s, s.root) && Live(s, s.root) && i in s.ref &&
      s.ref[i] > 0 && s.nlink[i] == 0
    ensures var t := Dropped(s, i);
      IsDir(t, t.root) && t.root == s.root && t.nlink == s.nlink && t.kind.Keys == s.kind.Keys &&
        t.ref.Keys == s.ref.Keys
  {}

  lemma FreedTypedAt(s: Fs, i: nat, x: Slot)
    requires Typed(s) && NamedOnce(s) && Counted(s) && i in s.kind && s.nlink[i] == 0 && s.ref[i] == 1 &&
      x in Dropped(s, i).links
    ensures var t := Dropped(s, i); IsDir(t, x.dir) && t.links[x].to in t.kind && InUse(t, x)
  {
    TypedAt(s, x);
    if s.links[x].to == i && Refers(s, x, i) { CountedAt(s, i); Somebody(s, i, x); }
  }

  lemma FreedDotted(s: Fs, i: nat)
    requires Dotted(s) && i in s.kind && i in s.nlink && s.nlink[i] == 0 && i in s.ref && s.ref[i] == 1 && NamedOnce(s)
    ensures Dotted(Dropped(s, i))
  {
    var t := Dropped(s, i);
    hide Dotted;
    forall d | IsDir(t, d) && Live(t, d) ensures DotsOf(t, d) { DotsAt(s, d); }
  }

  lemma FreedNamed(s: Fs, i: nat)
    requires NamedOnce(s) && i in s.kind && i in s.nlink && s.nlink[i] == 0 && i in s.ref && s.ref[i] == 1
    ensures NamedOnce(Dropped(s, i))
  {}

  lemma FreedUnique(s: Fs, i: nat)
    requires UniqueNames(s) && i in s.kind && i in s.nlink && i in s.ref && s.ref[i] > 0
    ensures UniqueNames(Dropped(s, i))
  {}

  lemma DroppedLifetime(s: Fs, i: nat)
    requires Typed(s) && Lifetime(s) && i in s.ref && s.ref[i] > 0
    ensures i in s.nlink && i in s.kind && s.kind[i] != Free && Lifetime(Dropped(s, i))
    ensures Dropped(s, i).kind[i] == Free <==> s.nlink[i] == 0 && s.ref[i] == 1
  {
    assert s.kind.Keys == s.nlink.Keys == s.ref.Keys;
    hide Typed;
  }

  lemma DroppedTyped(s: Fs, i: nat)
    requires Typed(s) && i in s.ref && s.ref[i] > 0 && i in s.nlink && i in s.kind &&
      !(s.ref[i] == 1 && s.nlink[i] == 0)
    ensures Typed(Dropped(s, i))
  {}

  /** iput keeps everything, and frees an inode exactly when no link and no other reference is left. */
  lemma DroppedOk(s: Fs, i: nat)
    requires Inv(s) && i in s.ref && s.ref[i] > 0
    ensures i in s.nlink && i in s.kind && Inv(Dropped(s, i))
    ensures Dropped(s, i).kind[i] == Free <==> s.nlink[i] == 0 && s.ref[i] == 1
  {
    hide Typed, Lifetime, Counted, UniqueNames, Dotted, NamedOnce;
    DroppedLifetime(s, i);
    if s.ref[i] == 1 && s.nlink[i] == 0 {
      FreedCounted(s, i);
      FreedTyped(s, i);
      FreedDotted(s, i);
      FreedNamed(s, i);
      FreedUnique(s, i);
    } else {
      DroppedTyped(s, i);
      SameLinks(s, Dropped(s, i));
    }
  }

  // ---------------------------------------------------------------- new inodes

  /** ialloc and iget: a free inode becomes a referenced inode without links. */
  ghost function Claimed(s: Fs, ip: nat, kind: Kind): (t: Fs) {
    s.(kind := s.kind[ip := kind], ref := s.ref[ip := 1])
  }

  lemma ClaimedOk(s: Fs, ip: nat, kind: Kind)
    requires Inv(s) && ip in s.kind && s.kind[ip] == Free && kind != Free
    ensures Inv(Claimed(s, ip, kind)) && ip in s.ref && s.ref[ip] == 0 && ip in s.nlink && s.nlink[ip] == 0
    ensures forall x :: x in s.links ==> x.dir != ip
  {
    hide Typed, Lifetime, Counted, UniqueNames, Dotted, NamedOnce;
    var t := Claimed(s, ip, kind);
    FreeUnlinked(s, ip);
    ClaimedTyped(s, ip, kind);
    CountedSame(s, t);
    DottedSame(s, t);
    forall x | Proper(t, x) && IsDir(t, t.links[x].to) ensures IsDir(s, t.links[x].to) { NamedIsLive(s, x); }
    NamedSame(s, t);
    UniqueSame(s, t);
  }

  lemma ClaimedTyped(s: Fs, ip: nat, kind: Kind)
    requires Typed(s) && Lifetime(s) && ip in s.kind && s.kind[ip] == Free && kind != Free && s.nlink[ip] == 0
    ensures Typed(Claimed(s, ip, kind)) && Lifetime(Claimed(s, ip, kind)) && s.ref[ip] == 0
    ensures forall x :: x in s.links ==> x.dir != ip
  {}

  lemma FreeUnlinked(s: Fs, ip: nat)
    requires Typed(s) && Counted(s) && ip in s.kind && s.kind[ip] == Free
    ensures ip in s.nlink && ip in s.ref && s.nlink[ip] == 0
  {
    CountedAt(s, ip);
    forall x ensures !Refers(s, x, ip) { if x in s.links { TypedAt(s, x); } }
    Nobody(s, ip);
  }

  /** dirlink of "." or ".." in a directory that is not linked yet. */
  ghost function WithDot(s: Fs, x: Slot, name: string, to: nat): (t: Fs) { s.(links := s.links[x := Link(name, to)]) }

  ghost predicate CanDot(s: Fs, x: Slot, name: string, to: nat) {
    && Dots(name) && x !in s.links && IsDir(s, x.dir) && !Live(s, x.dir) && to in s.kind && s.kind[to] != Free
    && (name == "." ==> to == x.dir) && forall y :: y in s.links && y.dir == x.dir ==> s.links[y].name != name
  }

  lemma WithDotRefers(s: Fs, x: Slot, name: string, to: nat, y: Slot, i: nat)
    requires CanDot(s, x, name, to)
    ensures Refers(WithDot(s, x, name, to), y, i) <==> Refers(s, y, i)
  {}

  lemma WithDotCounted(s: Fs, x: Slot, name: string, to: nat)
    requires Counted(s) && CanDot(s, x, name, to)
    ensures Counted(WithDot(s, x, name, to))
  {
    var t := WithDot(s, x, name, to);
    assert t.nlink == s.nlink;
    hide Refers, Refs, WithDot, CanDot;
    forall i | i in t.nlink ensures t.nlink[i] == |Refs(t, i)| {
      CountedAt(s, i);
      forall y ensures Refers(s, y, i) <==> Refers(t, y, i) { WithDotRefers(s, x, name, to, y, i); }
      SameRefs(s, t, i);
    }
  }

  lemma WithDotDotted(s: Fs, x: Slot, name: string, to: nat)
    requires Dotted(s) && CanDot(s, x, name, to)
    ensures Dotted(WithDot(s, x, name, to))
  {
    var t := WithDot(s, x, name, to);
    forall d | IsDir(t, d) && Live(t, d) ensures DotsOf(t, d) { DotsAt(s, d); }
  }

  lemma WithDotNamed(s: Fs, x: Slot, name: string, to: nat)
    requires NamedOnce(s) && CanDot(s, x, name, to)
    ensures NamedOnce(WithDot(s, x, name, to))
  {}

  lemma WithDotTyped(s: Fs, x: Slot, name: string, to: nat)
    requires Typed(s) && CanDot(s, x, name, to)
    ensures Typed(WithDot(s, x, name, to))
  {}

  lemma WithDotUnique(s: Fs, x: Slot, name: string, to: nat)
    requires UniqueNames(s) && CanDot(s, x, name, to)
    ensures UniqueNames(WithDot(s, x, name, to))
  {}

  lemma WithDotLifetime(s: Fs, x: Slot, name: string, to: nat)
    requires Lifetime(s)
    ensures Lifetime(WithDot(s, x, name, to))
  {}

  lemma WithDotOk(s: Fs, x: Slot, name: string, to: nat)
    requires Inv(s) && CanDot(s, x, name, to)
    ensures Inv(WithDot(s, x, name, to))
  {
    hide Typed, Lifetime, Counted, UniqueNames, Dotted, NamedOnce, WithDot, CanDot;
    WithDotCounted(s, x, name, to);
    WithDotDotted(s, x, name, to);
    WithDotNamed(s, x, name, to);
    WithDotTyped(s, x, name, to);
    WithDotUnique(s, x, name, to);
    WithDotLifetime(s, x, name, to);
  }

  /** The end of create for a directory: its entry in the parent, and the parent's count for "..". */
  ghost function Adopted(s: Fs, ip: nat, a: Slot, b: Slot, x: Slot, name: string): (t: Fs)
    requires ip in s.nlink && x.dir in s.nlink
  {
    s.(links := s.links[x := Link(name, ip)], nlink := s.nlink[ip := 1][x.dir := s.nlink[x.dir] + 1],
       dot := s.dot[ip := a], dotdot := s.dotdot[ip := b], entry := s.entry[ip := x])
  }

  ghost predicate CanAdopt(s: Fs, ip: nat, a: Slot, b: Slot, x: Slot, name: string) {
    && CanAdd(s, x, name) && !Dots(name) && IsDir(s, ip) && ip in s.nlink && s.nlink[ip] == 0 && x.dir in s.nlink &&
      ip != s.root
    && IsEntry(s, a, ip, ".") && IsEntry(s, b, ip, "..") && s.links[b].to == x.dir && Empty(s, ip)
  }

  lemma AdoptedRefers(s: Fs, ip: nat, a: Slot, b: Slot, x: Slot, name: string, y: Slot, i: nat)
    requires Typed(s) && UniqueNames(s) && CanAdopt(s, ip, a, b, x, name)
    ensures Refers(Adopted(s, ip, a, b, x, name), y, i) <==>
      Refers(s, y, i) || (y == x && i == ip) || (y == b && i == x.dir)
  {
    var t := Adopted(s, ip, a, b, x, name);
    assert forall d :: Live(t, d) <==> Live(s, d) || d == ip;
    hide Typed;
    if y in s.links && s.links[y].name == ".." && y.dir == ip { assert y == b; }
  }

  lemma AdoptedCount(s: Fs, ip: nat, a: Slot, b: Slot, x: Slot, name: string, i: nat)
    requires Typed(s) && UniqueNames(s) && Counted(s) && CanAdopt(s, ip, a, b, x, name) && i in s.nlink
    ensures |Refs(Adopted(s, ip, a, b, x, name), i)| == s.nlink[i] + if i == ip || i == x.dir then 1 else 0
  {
    assert !Refers(s, x, ip) && !Refers(s, b, x.dir) && ip != x.dir && x != b;
    hide Refers, Refs, Adopted, CanAdopt, Typed, UniqueNames;
    var t := Adopted(s, ip, a, b, x, name);
    CountedAt(s, i);
    hide Counted;
    forall y ensures Refers(t, y, i) <==> Refers(s, y, i) || (y == x && i == ip) || (y == b && i == x.dir) {
      AdoptedRefers(s, ip, a, b, x, name, y, i);
    }
    if i == ip { OneMore(s, t, i, x); } else if i == x.dir { OneMore(s, t, i, b); } else { SameRefs(s, t, i); }
  }

  lemma AdoptedCounted(s: Fs, ip: nat, a: Slot, b: Slot, x: Slot, name: string)
    requires Typed(s) && UniqueNames(s) && Counted(s) && CanAdopt(s, ip, a, b, x, name)
    ensures Counted(Adopted(s, ip, a, b, x, name))
  {
    var t := Adopted(s, ip, a, b, x, name);
    assert t.nlink == s.nlink[ip := 1][x.dir := s.nlink[x.dir] + 1] && ip != x.dir && s.nlink[ip] == 0;
    hide Refers, Refs, Adopted, CanAdopt, Typed, UniqueNames;
    forall i | i in t.nlink ensures t.nlink[i] == |Refs(t, i)| { AdoptedCount(s, ip, a, b, x, name, i); }
  }

  lemma AdoptedDotted(s: Fs, ip: nat, a: Slot, b: Slot, x: Slot, name: string)
    requires Dotted(s) && CanAdopt(s, ip, a, b, x, name)
    ensures Dotted(Adopted(s, ip, a, b, x, name))
  {
    var t := Adopted(s, ip, a, b, x, name);
    hide Dotted;
    forall d | IsDir(t, d) && Live(t, d) ensures DotsOf(t, d) { if d != ip { DotsAt(s, d); } }
  }

  lemma AdoptedNamed(s: Fs, ip: nat, a: Slot, b: Slot, x: Slot, name: string)
    requires NamedOnce(s) && CanAdopt(s, ip, a, b, x, name)
    ensures NamedOnce(Adopted(s, ip, a, b, x, name))
  {}

  lemma AdoptedTyped(s: Fs, ip: nat, a: Slot, b: Slot, x: Slot, name: string)
    requires Typed(s) && UniqueNames(s) && CanAdopt(s, ip, a, b, x, name)
    ensures Typed(Adopted(s, ip, a, b, x, name))
  {
    var t := Adopted(s, ip, a, b, x, name);
    assert forall d :: Live(t, d) <==> Live(s, d) || d == ip;
    forall y | y in t.links ensures IsDir(t, y.dir) && t.links[y].to in t.kind && InUse(t, y) {
      if y != x { TypedAt(s, y); }
    }
  }

  lemma AdoptedUnique(s: Fs, ip: nat, a: Slot, b: Slot, x: Slot, name: string)
    requires UniqueNames(s) && CanAdopt(s, ip, a, b, x, name)
    ensures UniqueNames(Adopted(s, ip, a, b, x, name))
  {}

  lemma AdoptedLifetime(s: Fs, ip: nat, a: Slot, b: Slot, x: Slot, name: string)
    requires Lifetime(s) && CanAdopt(s, ip, a, b, x, name)
    ensures Lifetime(Adopted(s, ip, a, b, x, name))
  {}

  lemma AdoptedOk(s: Fs, ip: nat, a: Slot, b: Slot, x: Slot, name: string)
    requires Inv(s) && CanAdopt(s, ip, a, b, x, name)
    ensures ip in s.nlink && x.dir in s.nlink && Inv(Adopted(s, ip, a, b, x, name))
  {
    assert ip in s.nlink && x.dir in s.nlink;
    hide Typed, Lifetime, Counted, UniqueNames, Dotted, NamedOnce, Adopted, CanAdopt;
    AdoptedCounted(s, ip, a, b, x, name);
    AdoptedDotted(s, ip, a, b, x, name);
    AdoptedNamed(s, ip, a, b, x, name);
    AdoptedTyped(s, ip, a, b, x, name);
    AdoptedUnique(s, ip, a, b, x, name);
    AdoptedLifetime(s, ip, a, b, x, name);
  }
}
