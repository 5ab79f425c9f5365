/** Path names (kernel/fs.c): skipelem takes a path apart, namex walks it. */
module Path {
  import opened Dir

  // ---------------------------------------------------------------- elements

  /** The non-empty pieces between slashes, up to a NUL: cur is the piece being read. */
  ghost function Pieces(path: string, i: nat, cur: string): (r: seq<string>)
    requires i <= |path|
    decreases |path| - i
  {
    if i == |path| || path[i] == '\0' then (if cur == "" then [] else [cur])
    else if path[i] == '/' then (if cur == "" then [] else [cur]) + Pieces(path, i + 1, "")
    else Pieces(path, i + 1, cur + [path[i]])
  }

  ghost function Elements(path: string): seq<string> { Pieces(path, 0, "") }

  lemma {:induction false} SlashSkips(path: string, i: nat, j: nat)
    requires i <= j <= |path| && forall k :: i <= k < j ==> path[k] == '/'
    ensures Pieces(path, i, "") == Pieces(path, j, "")
    decreases j - i
  {
    if i < j { SlashSkips(path, i + 1, j); }
  }

  lemma {:induction false} WordReads(path: string, i: nat, j: nat, cur: string)
    requires i <= j <= |path| && forall k :: i <= k < j ==> path[k] != '/' && path[k] != '\0'
    ensures Pieces(path, i, cur) == Pieces(path, j, cur + path[i..j])
    decreases j - i
  {
    if i == j {
      assert cur + path[i..j] == cur;
    } else {
      WordReads(path, i + 1, j, cur + [path[i]]);
      assert cur + [path[i]] + path[i + 1..j] == cur + path[i..j];
    }
  }

  /** What skipelem stores in name: at most 14 characters of the element. */
  function Trunc(s: string): string { if |s| >= DIRSIZ then s[..DIRSIZ] else s }

  lemma {:induction false} TruncFrom(s: string, i: nat)
    requires i <= DIRSIZ
    ensures NameFrom(Trunc(s), i) == NameFrom(s, i)
    decreases DIRSIZ - i
  {
    if i < DIRSIZ { TruncFrom(s, i + 1); }
  }

  /** The rest of skipelem, from the first character s of an element on. */
  method Word(path: string, s: nat) returns (next: nat, name: string, ghost piece: string)
    requires s < |path| && path[s] != '/' && path[s] != '\0'
    ensures s < next <= |path| && Pieces(path, s, "") == [piece] + Pieces(path, next, "") && name == Trunc(piece)
    ensures CharAt(path, next) == '\0' <==> Pieces(path, next, "") == []
  {
    hide Pieces;
    var e := s;
    while CharAt(path, e) != '/' && CharAt(path, e) != '\0'
      invariant s <= e <= |path| && forall k :: s <= k < e ==> path[k] != '/' && path[k] != '\0'
      decreases |path| - e
    {
      e := e + 1;
    }
    name := if e - s >= DIRSIZ then path[s..s + DIRSIZ] else path[s..e];
    piece := path[s..e];
    WordReads(path, s, e, "");
    assert "" + path[s..e] == piece;
    next := Slashes(path, e);
    AfterWord(path, e, next, piece);
  }

  method Slashes(path: string, e: nat) returns (p: nat)
    requires e <= |path|
    ensures e <= p <= |path| && CharAt(path, p) != '/' && forall k :: e <= k < p ==> path[k] == '/'
  {
    p := e;
    while CharAt(path, p) == '/'
      invariant e <= p <= |path| && forall k :: e <= k < p ==> path[k] == '/'
      decreases |path| - p
    {
      p := p + 1;
    }
  }

  /** skipelem at position i: the next element, and where the one after it starts; position |path| + 1 is the null
      pointer. */
  method Skipelem(path: string, i: nat) returns (next: nat, name: string, ghost piece: string)
    requires i <= |path|
    ensures next <= |path| + 1 && (next == |path| + 1 <==> Pieces(path, i, "") == [])
    ensures next <= |path| ==>
      i < next && Pieces(path, i, "") == [piece] + Pieces(path, next, "") && name == Trunc(piece)
    ensures next <= |path| ==> (CharAt(path, next) == '\0' <==> Pieces(path, next, "") == [])
  {
    hide Pieces;
    var p := Slashes(path, i);
    SlashSkips(path, i, p);
    if CharAt(path, p) == '\0' {
      EndHere(path, p);
      return |path| + 1, "", "";
    }
    next, name, piece := Word(path, p);
  }

  lemma EndHere(path: string, p: nat)
    requires p <= |path| && CharAt(path, p) == '\0'
    ensures Pieces(path, p, "") == []
  {}

  lemma AfterWord(path: string, e: nat, p: nat, name: string)
    requires e <= p <= |path| && name != "" && (CharAt(path, e) == '/' || CharAt(path, e) == '\0') &&
      CharAt(path, p) != '/'
    requires forall k :: e <= k < p ==> path[k] == '/'
    ensures Pieces(path, e, name) == [name] + Pieces(path, p, "")
    ensures CharAt(path, p) == '\0' <==> Pieces(path, p, "") == []
  {
    SlashSkips(path, e, p);
    if p < |path| && path[p] != '\0' {
      SomeMore(path, p + 1, [path[p]]);
      assert "" + [path[p]] == [path[p]];
    }
    if e < p { SlashSkips(path, e + 1, p); }
  }

  lemma {:induction false} SomeMore(path: string, i: nat, cur: string)
    requires i <= |path| && cur != ""
    ensures Pieces(path, i, cur) != []
    decreases |path| - i
  {
    if i < |path| && path[i] != '\0' && path[i] != '/' { SomeMore(path, i + 1, cur + [path[i]]); }
  }

  ghost predicate AllSlashes(path: string, i: nat, j: nat) {
    i <= j <= |path| && forall k :: i <= k < j ==> path[k] == '/'
  }

  /** A longest stretch without a slash or a NUL. */
  ghost predicate IsWord(path: string, j: nat, k: nat) {
    && j < k <= |path| && (CharAt(path, k) == '/' || CharAt(path, k) == '\0')
    && forall m :: j <= m < k ==> path[m] != '/' && path[m] != '\0'
  }

  /** From i on the path is the elements els, with any number of slashes before, between and after them. */
  ghost predicate Spells(path: string, i: nat, els: seq<string>)
    decreases |els|
  {
    if els == [] then exists j: nat :: AllSlashes(path, i, j) && CharAt(path, j) == '\0'
    else
      exists j: nat, k: nat ::
        AllSlashes(path, i, j) && IsWord(path, j, k) && els[0] == path[j..k] && Spells(path, k, els[1..])
  }

  /** A path has the elements it is spelled from, whatever the slashes ... */
  lemma {:induction false} SpelledElements(path: string, i: nat, els: seq<string>)
    requires i <= |path| && Spells(path, i, els)
    ensures Pieces(path, i, "") == els
    decreases |els|
  {
    if els == [] {
      var j: nat :| AllSlashes(path, i, j) && CharAt(path, j) == '\0';
      SlashSkips(path, i, j);
      EndHere(path, j);
    } else {
      var j: nat, k: nat :|
        AllSlashes(path, i, j) && IsWord(path, j, k) && els[0] == path[j..k] && Spells(path, k, els[1..]);
      SlashSkips(path, i, j);
      WordReads(path, j, k, "");
      SpelledElements(path, k, els[1..]);
      assert "" + path[j..k] == els[0];
    }
  }

  /** ... and it is spelled from its elements. */
  lemma {:induction false} ElementsSpell(path: string, i: nat)
    requires i <= |path|
    ensures Spells(path, i, Pieces(path, i, ""))
    decreases |path| - i
  {
    hide Pieces;
    var j := i;
    while CharAt(path, j) == '/'
      invariant AllSlashes(path, i, j)
      decreases |path| - j
    {
      j := j + 1;
    }
    SlashSkips(path, i, j);
    if CharAt(path, j) == '\0' {
      EndHere(path, j);
    } else {
      var k := j + 1;
      while CharAt(path, k) != '/' && CharAt(path, k) != '\0'
        invariant j < k <= |path| && forall m :: j <= m < k ==> path[m] != '/' && path[m] != '\0'
        decreases |path| - k
      {
        k := k + 1;
      }
      ElementsSpell(path, k);
      WordReads(path, j, k, "");
      WordEnds(path, j, k);
      assert IsWord(path, j, k);
    }
  }

  lemma WordEnds(path: string, j: nat, k: nat)
    requires IsWord(path, j, k)
    ensures Pieces(path, k, "" + path[j..k]) == [path[j..k]] + Pieces(path, k, "")
    ensures ([path[j..k]] + Pieces(path, k, ""))[1..] == Pieces(path, k, "")
  {
    assert "" + path[j..k] == path[j..k];
  }

  // ---------------------------------------------------------------- walking

  datatype Node = Node(isDir: bool, es: seq<Dirent>)

  /** Following names one after another; 0 is failure. */
  ghost function Follow(nodes: map<nat, Node>, start: nat, names: seq<string>): (r: nat)
    decreases |names|
  {
    if names == [] then start
    else if start !in nodes || !nodes[start].isDir then 0
    else
      var k := First(nodes[start].es, Name(names[0]), 0);
      if k == |nodes[start].es| then 0 else Follow(nodes, nodes[start].es[k].inum, names[1..])
  }

  /** The first entry for a name, or the length. */
  ghost function First(es: seq<Dirent>, nm: string, k: nat): (r: nat)
    requires k <= |es|
    ensures k <= r <= |es| && (r < |es| ==> Names(es[r], nm)) && forall j :: k <= j < r ==> !Names(es[j], nm)
    decreases |es| - k
  {
    if k == |es| || Names(es[k], nm) then k else First(es, nm, k + 1)
  }

  lemma {:induction false} FollowConcat(nodes: map<nat, Node>, start: nat, a: seq<string>, b: seq<string>)
    requires 0 !in nodes
    ensures Follow(nodes, start, a + b) == Follow(nodes, Follow(nodes, start, a), b)
    decreases |a|
  {
    if a == [] {
      assert a + b == b;
    } else {
      assert (a + b)[0] == a[0] && (a + b)[1..] == a[1..] + b;
      if start in nodes && nodes[start].isDir {
        var k := First(nodes[start].es, Name(a[0]), 0);
        if k < |nodes[start].es| { FollowConcat(nodes, nodes[start].es[k].inum, a[1..], b); }
      }
    }
  }

  /** The first entry for the name is one for inode x. */
  ghost predicate FirstIs(es: seq<Dirent>, nm: string, x: nat) {
    exists k :: 0 <= k < |es| && Names(es[k], nm) && es[k].inum == x && forall j :: 0 <= j < k ==> !Names(es[j], nm)
  }

  /** In the directory walk[i] the name names[i] is for walk[i + 1]. */
  ghost predicate Walk(nodes: map<nat, Node>, walk: seq<nat>, names: seq<string>) {
    && |walk| == |names| + 1
    && forall i :: 0 <= i < |names| ==>
         walk[i] in nodes && nodes[walk[i]].isDir && FirstIs(nodes[walk[i]].es, Name(names[i]), walk[i + 1])
  }

  /** Names lead where a walk by them ends ... */
  lemma {:induction false} WalkFollows(nodes: map<nat, Node>, walk: seq<nat>, names: seq<string>)
    requires Walk(nodes, walk, names)
    ensures Follow(nodes, walk[0], names) == walk[|names|]
    decreases |names|
  {
    if names != [] { WalkFollows(nodes, walk[1..], names[1..]); }
  }

  /** ... and nowhere else. */
  lemma {:induction false} FollowWalks(nodes: map<nat, Node>, start: nat, names: seq<string>) returns (walk: seq<nat>)
    requires Follow(nodes, start, names) != 0
    ensures Walk(nodes, walk, names) && walk[0] == start && walk[|names|] == Follow(nodes, start, names)
    decreases |names|
  {
    if names == [] {
      walk := [start];
    } else {
      var k := First(nodes[start].es, Name(names[0]), 0);
      var more := FollowWalks(nodes, nodes[start].es[k].inum, names[1..]);
      walk := [start] + more;
    }
  }

  lemma NoEntry(es: seq<Dirent>, nm: string, k: nat)
    requires k <= |es| && forall x :: !Has(es, nm, x)
    ensures First(es, nm, k) == |es|
  {
    var r := First(es, nm, k);
    if r < |es| { assert Has(es, nm, es[r].inum); }
  }

  /** The walk comes to an inode that is not in use with elements still to go: ilock panics. */
  ghost predicate Panics(nodes: map<nat, Node>, start: nat, names: seq<string>)
    decreases |names|
  {
    names != [] &&
    (start !in nodes ||
     (nodes[start].isDir &&
      var k := First(nodes[start].es, Name(names[0]), 0);
        k < |nodes[start].es| && Panics(nodes, nodes[start].es[k].inum, names[1..])))
  }

  lemma PanicsStep(nodes: map<nat, Node>, ip: nat, names: seq<string>)
    requires names != [] && ip in nodes
    ensures !nodes[ip].isDir ==> !Panics(nodes, ip, names)
    ensures nodes[ip].isDir ==> var k := First(nodes[ip].es, Name(names[0]), 0);
      Panics(nodes, ip, names) <==> k < |nodes[ip].es| && Panics(nodes, nodes[ip].es[k].inum, names[1..])
  {}

  /** Where every entry names an inode in use, no path panics. */
  lemma {:induction false} ClosedNeverPanics(nodes: map<nat, Node>, start: nat, names: seq<string>)
    requires Closed(nodes) && start in nodes
    ensures !Panics(nodes, start, names)
    decreases |names|
  {
    if names != [] && nodes[start].isDir {
      var k := First(nodes[start].es, Name(names[0]), 0);
      if k < |nodes[start].es| { ClosedNeverPanics(nodes, nodes[start].es[k].inum, names[1..]); }
    }
  }

  /** Where the walk cannot go on, it fails as a whole. */
  lemma Stuck(nodes: map<nat, Node>, start: nat, els: seq<string>, done: nat)
    requires 0 !in nodes && done < |els|
    requires var ip := Follow(nodes, start, els[..done]);
      ip !in nodes || !nodes[ip].isDir || First(nodes[ip].es, Name(els[done]), 0) == |nodes[ip].es|
    ensures Follow(nodes, start, els) == 0
    ensures done < |els| - 1 ==> Follow(nodes, start, els[..|els| - 1]) == 0
  {
    assert els == els[..done] + els[done..];
    FollowConcat(nodes, start, els[..done], els[done..]);
    if done < |els| - 1 {
      var up := els[..|els| - 1];
      assert up == els[..done] + up[done..];
      FollowConcat(nodes, start, els[..done], up[done..]);
    }
  }

  /** After the first done elements the walk is at ip, and panics from there exactly if it panics at all. */
  ghost predicate Walking(nodes: map<nat, Node>, start: nat, els: seq<string>, done: nat, ip: nat) {
    done <= |els| && ip == Follow(nodes, start, els[..done]) &&
      (Panics(nodes, start, els) <==> Panics(nodes, ip, els[done..]))
  }

  lemma WalkStarts(nodes: map<nat, Node>, path: string, start: nat)
    requires 0 !in nodes && start in nodes
    ensures Elements(path)[0..] == Pieces(path, 0, "") && Walking(nodes, start, Elements(path), 0, start) && start != 0
  {
    assert Elements(path)[0..] == Elements(path);
  }

  lemma BalancedOne(was: map<nat, nat>, ip: nat)
    requires ip in was && ip != 0
    ensures Balanced(was, was[ip := was[ip] + 1], ip)
  {}

  lemma NumbersAt(nodes: map<nat, Node>, inums: set<nat>, ip: nat, k: nat, nm: string)
    requires Numbers(nodes, inums) && ip in nodes && k < |nodes[ip].es| && Names(nodes[ip].es[k], nm)
    ensures nodes[ip].es[k].inum in inums && nodes[ip].es[k].inum != 0 && ip != 0
  {}

  lemma FollowStep(nodes: map<nat, Node>, start: nat, els: seq<string>, done: nat)
    requires 0 !in nodes && done < |els| && Follow(nodes, start, els[..done]) in nodes
    requires var ip := Follow(nodes, start, els[..done]);
      nodes[ip].isDir && First(nodes[ip].es, Name(els[done]), 0) < |nodes[ip].es|
    ensures var ip := Follow(nodes, start, els[..done]);
      Follow(nodes, start, els[..done + 1]) == nodes[ip].es[First(nodes[ip].es, Name(els[done]), 0)].inum
  {
    assert els[..done + 1] == els[..done] + [els[done]];
    FollowConcat(nodes, start, els[..done], [els[done]]);
  }

  lemma NoNamesAfter(nodes: map<nat, Node>, ip: nat, names: seq<string>)
    requires |names| == 1 && ip in nodes
    ensures !Panics(nodes, ip, names)
  {}

  lemma NotInUse(nodes: map<nat, Node>, ip: nat, names: seq<string>)
    requires names != [] && ip !in nodes
    ensures Panics(nodes, ip, names)
  {}

  lemma NextElement(els: seq<string>, done: nat, name: string, rest: seq<string>)
    requires done <= |els| && els[done..] == [name] + rest
    ensures done < |els| && els[done] == name && els[done + 1..] == rest
  {
    assert |els[done..]| == |els| - done && els[done] == els[done..][0];
    assert els[done + 1..] == els[done..][1..];
  }

  /** Entries hold numbers of inodes, in use or not. */
  ghost predicate Numbers(nodes: map<nat, Node>, inums: set<nat>) {
    && 0 !in nodes && nodes.Keys <= inums
    && forall i, k :: i in nodes && 0 <= k < |nodes[i].es| && nodes[i].es[k].inum != 0 ==> nodes[i].es[k].inum in inums
  }

  /** Every entry names an inode in use. */
  ghost predicate Closed(nodes: map<nat, Node>) {
    0 !in nodes && forall i, k :: i in nodes && 0 <= k < |nodes[i].es| && nodes[i].es[k].inum != 0 ==>
      nodes[i].es[k].inum in nodes
  }

  /** One reference more to ip than before, and none to any other inode. */
  ghost predicate Balanced(was: map<nat, nat>, now: map<nat, nat>, ip: nat) {
    now.Keys == was.Keys && forall x :: x in now ==> now[x] == was[x] + (if ip != 0 && x == ip then 1 else 0)
  }

  /** What namex finds: the inode that the names lead to; or, for the parent, the one that all but the last lead to if
      that is a directory, with the last name cut to 14 characters. */
  ghost predicate Reached(nodes: map<nat, Node>, start: nat, els: seq<string>, parent: bool, ip: nat, name: string) {
    if !parent then ip == Follow(nodes, start, els)
    else if els == [] then ip == 0
    else
      var up := Follow(nodes, start, els[..|els| - 1]);
      ip == (if up in nodes && nodes[up].isDir then up else 0) && (ip != 0 ==> name == Trunc(els[|els| - 1]))
  }

  lemma ReachedEnd(nodes: map<nat, Node>, start: nat, els: seq<string>, done: nat, parent: bool, ip: nat, name: string)
    requires done <= |els| && els[done..] == [] && Walking(nodes, start, els, done, ip) && (parent ==> els == [])
    ensures !Panics(nodes, start, els) && Reached(nodes, start, els, parent, if parent then 0 else ip, name)
  {
    assert els[..done] == els;
  }

  lemma ReachedEarly(nodes: map<nat, Node>, start: nat, els: seq<string>, parent: bool, last: bool, done: nat, ip: nat,
                     name: string)
    requires 0 !in nodes && done < |els| && (last <==> parent && done == |els| - 1) && (ip == 0 || last)
    requires last ==> name == Trunc(els[done]) && var up := Follow(nodes, start, els[..done]);
      up in nodes && ip == if nodes[up].isDir then up else 0
    requires !last ==>
      Follow(nodes, start, els) == 0 && (done < |els| - 1 ==> Follow(nodes, start, els[..|els| - 1]) == 0)
    ensures Reached(nodes, start, els, parent, ip, name)
  {}

  /** The in-memory inode table, as far as namex uses it: how many references each inode has. */
  class Inodes {
    var ref: map<nat, nat>

    method Iget(ip: nat)
      requires ip in ref
      modifies this
      ensures ref == old(ref)[ip := old(ref)[ip] + 1]
    {
      ref := ref[ip := ref[ip] + 1];
    }

    method Iput(ip: nat)
      requires ip in ref && ref[ip] > 0
      modifies this
      ensures ref == old(ref)[ip := old(ref)[ip] - 1]
    {
      ref := ref[ip := ref[ip] - 1];
    }

    /** iunlockput of the last reference namex holds. */
    method Drop(ip: nat, ghost was: map<nat, nat>)
      requires Balanced(was, ref, ip) && ip != 0 && ip in ref
      modifies this
      ensures Balanced(was, ref, 0) && ref.Keys == was.Keys
    {
      Iput(ip);
    }

    /** iget of the next inode in dirlookup, then iunlockput of this one. */
    method Move(ip: nat, nip: nat, ghost was: map<nat, nat>)
      requires Balanced(was, ref, ip) && ip != 0 && ip in ref && nip in ref && nip != 0
      modifies this
      ensures Balanced(was, ref, nip) && ref.Keys == was.Keys
    {
      Iget(nip);
      Iput(ip);
    }

    /** dirlookup of the next element in ip, and iunlockput of ip. */
    method Down(nodes: map<nat, Node>, ip: nat, name: string, ghost start: nat, ghost els: seq<string>,
                ghost done: nat, ghost was: map<nat, nat>)
      returns (nip: nat)
      requires Numbers(nodes, was.Keys) && ip in nodes && nodes[ip].isDir && Balanced(was, ref, ip)
      requires done < |els| && ip == Follow(nodes, start, els[..done]) && Name(name) == Name(els[done])
      modifies this
      ensures Balanced(was, ref, nip) && ref.Keys == was.Keys
      ensures nip == 0 ==>
        !Panics(nodes, ip, els[done..]) && Follow(nodes, start, els) == 0 &&
        (done < |els| - 1 ==> Follow(nodes, start, els[..|els| - 1]) == 0)
      ensures nip != 0 ==>
        nip in ref && nip == Follow(nodes, start, els[..done + 1]) &&
        (Panics(nodes, ip, els[done..]) <==> Panics(nodes, nip, els[done + 1..]))
    {
      hide Follow, Has, NameFrom, Names, Panics;
      assert 0 !in nodes && ref.Keys == was.Keys && ip in was;
      hide Numbers, Balanced;
      PanicsStep(nodes, ip, els[done..]);
      assert els[done..][0] == els[done] && els[done..][1..] == els[done + 1..];
      var found, k := Dirlookup(nodes[ip].es, name);
      if !found {
        Drop(ip, was);
        NoEntry(nodes[ip].es, Name(name), 0);
        Stuck(nodes, start, els, done);
        return 0;
      }
      nip := nodes[ip].es[k].inum;
      NumbersAt(nodes, was.Keys, ip, k, Name(name));
      FollowStep(nodes, start, els, done);
      assert First(nodes[ip].es, Name(name), 0) == k;
      Move(ip, nip, was);
    }

    /** One round of namex, at element done of the path; last says that it is the one to leave for the caller. */
    method Visit(nodes: map<nat, Node>, ip: nat, name: string, parent: bool, last: bool, ghost start: nat,
                 ghost els: seq<string>, ghost done: nat, ghost was: map<nat, nat>) returns (nip: nat, panic: bool)
      requires Numbers(nodes, was.Keys) && ip != 0 && ip in ref && Balanced(was, ref, ip) &&
        Walking(nodes, start, els, done, ip)
      requires done < |els| && name == Trunc(els[done]) && (last <==> parent && done == |els| - 1)
      modifies this
      ensures panic ==> Panics(nodes, start, els)
      ensures !panic ==> Balanced(was, ref, nip) && ref.Keys == was.Keys
      ensures !panic && (nip == 0 || last) ==>
        !Panics(nodes, start, els) && Reached(nodes, start, els, parent, nip, name)
      ensures !panic && nip != 0 && !last ==> nip in ref && Walking(nodes, start, els, done + 1, nip)
    {
      TruncFrom(els[done], 0);
      assert 0 !in nodes && ref.Keys == was.Keys;
      hide Follow, Pieces, Balanced, Has, NameFrom, Numbers, Names, First, Panics, Trunc, Reached;
      panic := ip !in nodes;
      if panic {
        NotInUse(nodes, ip, els[done..]);
        return 0, true;
      }
      PanicsStep(nodes, ip, els[done..]);
      if !nodes[ip].isDir {
        Drop(ip, was);
        Stuck(nodes, start, els, done);
        ReachedEarly(nodes, start, els, parent, last, done, 0, name);
        return 0, false;
      }
      if last {
        NoNamesAfter(nodes, ip, els[done..]);
        ReachedEarly(nodes, start, els, parent, last, done, ip, name);
        return ip, false;
      }
      nip := Down(nodes, ip, name, start, els, done, was);
      if nip == 0 { ReachedEarly(nodes, start, els, parent, last, done, 0, name); }
    }

    /** namex: the inode at the end of the path, or at its parent, holding one reference more; 0 and no reference if
        there is none. nodes are the inodes in use; on the way through another one ilock panics. */
    method Namex(nodes: map<nat, Node>, path: string, parent: bool, root: nat, cwd: nat)
      returns (ip: nat, name: string, panic: bool)
      requires Numbers(nodes, ref.Keys) && root in nodes && cwd in nodes
      modifies this
      ensures panic <==> Panics(nodes, if CharAt(path, 0) == '/' then root else cwd, Elements(path))
      ensures !panic ==> Reached(nodes, if CharAt(path, 0) == '/' then root else cwd, Elements(path), parent, ip, name)
      ensures !panic ==> Balanced(old(ref), ref, ip)
    {
      assert 0 !in nodes && root in ref && cwd in ref;
      hide Follow, Pieces, Balanced, Has, NameFrom, Trunc, Numbers, Names, Elements, First, Panics, Reached, Walking;
      panic := false;
      ghost var els := Elements(path);
      ghost var start := if CharAt(path, 0) == '/' then root else cwd;
      ip := if CharAt(path, 0) == '/' then root else cwd;
      WalkStarts(nodes, path, start);
      Iget(ip);
      BalancedOne(old(ref), ip);
      name := "";
      var p: nat := 0;
      ghost var done: nat := 0;
      while true
        invariant p <= |path| && done <= |els| && (parent ==> done < |els| || els == [])
        invariant els[done..] == Pieces(path, p, "") && ip in ref && !panic && Walking(nodes, start, els, done, ip)
        invariant Balanced(old(ref), ref, ip) && ip != 0 && ref.Keys == old(ref.Keys)
        decreases |els| - done
      {
        var next;
        ghost var piece;
        next, name, piece := Skipelem(path, p);
        if next == |path| + 1 {
          ReachedEnd(nodes, start, els, done, parent, ip, name);
          break;
        }
        NextElement(els, done, piece, Pieces(path, next, ""));
        var last := parent && CharAt(path, next) == '\0';
        ip, panic := Visit(nodes, ip, name, parent, last, start, els, done, old(ref));
        if panic || ip == 0 || last { return; }
        p := next;
        done := done + 1;
      }
      if parent {
        Drop(ip, old(ref));
        ip := 0;
      }
    }
  }
}
