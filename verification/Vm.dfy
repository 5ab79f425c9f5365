/** Physical pages and the page tables that use them (kernel/kalloc.c, kernel/vm.c). */
module Vm {
  import opened PageTable
  import opened VmSpec
  import opened VmOwned
  import opened VmCount
  import opened VmGrow
  import opened VmCopy
  import opened VmFree
  import opened VmBytes

  class Memory {
    var tables: map<nat, seq<Pte>>
    var freelist: seq<nat>
    var pool: seq<nat>
    var data: Data
    ghost var at: map<Pos, nat>
    ghost var pos: map<nat, Pos>
    ghost var frames: map<nat, Spot>
    ghost var other: set<nat>
    ghost var all: set<nat>
    ghost var supers: map<nat, Spot>
    ghost var held: set<nat>
    ghost var allSupers: set<nat>
    ghost var users: set<nat>

    ghost function Trees(): (f: Forest)
      reads this`tables, this`at, this`pos
    {
      Forest(tables, at, pos)
    }

    ghost predicate Conserved()
      reads this`tables, this`freelist, this`frames, this`other, this`all
    {
      Shared(all, freelist, tables.Keys, frames.Keys, other)
    }

    ghost predicate SupersConserved()
      reads this`pool, this`supers, this`held, this`allSupers
    {
      Pooled(allSupers, pool, supers.Keys, held)
    }

    ghost predicate LeavesOwned()
      reads this`tables, this`at, this`pos, this`frames, this`supers, this`users
    {
      UserRoots(Trees(), users) && Owned(tables, users, frames, supers)
    }

    /** What every operation on user memory keeps. */
    ghost predicate Sound()
      reads this
    {
      Wf(Trees()) && Conserved() && SupersConserved() && LeavesOwned()
    }

    /** kinit: the top 60 superpages go to the pool, the 4 KiB pages below them from the end of the kernel to the free
        list. What memory holds at first is ram. */
    constructor Kinit(end: nat, ram: Data)
      requires 0 < end <= SUPERBASE
      ensures Sound() && users == {} && tables == map[] && other == {} && held == {}
      ensures forall p :: p in all <==> end <= p < SUPERBASE
      ensures forall s :: s in allSupers <==> SUPERBASE <= s < PHYSTOP && s % 512 == 0
    {
      tables, at, pos, frames, supers := map[], map[], map[], map[], map[];
      freelist, pool, data, other, held, users := [], [], ram, {}, {}, {};
      all, allSupers := {}, {};
      new;
      Boot(end);
    }

    method Boot(end: nat)
      requires 0 < end <= SUPERBASE && tables == map[] && at == map[] && pos == map[] && frames == map[] &&
        supers == map[]
      requires freelist == [] && pool == [] && other == {} && held == {} && users == {} && all == {} && allSupers == {}
      modifies this`freelist, this`pool, this`data, this`all, this`allSupers
      ensures Sound()
      ensures forall p :: p in all <==> end <= p < SUPERBASE
      ensures forall s :: s in allSupers <==> SUPERBASE <= s < PHYSTOP && s % 512 == 0
    {
      hide Wf, Shared, Pooled, Owned, Ram;
      Superinit();
      Freerange(end);
      NoTrees();
      assert tables.Keys == {} && frames.Keys == {} && supers.Keys == {};
    }

    method Superinit()
      requires pool == [] && allSupers == {}
      modifies this`pool, this`allSupers
      ensures Pooled(allSupers, pool, {}, {}) &&
        forall s :: s in allSupers <==> SUPERBASE <= s < PHYSTOP && s % 512 == 0
    {
      hide Pooled, Filling60;
      var top := PHYSTOP;
      NothingPooled();
      for i := 0 to NSUPERPAGES
        invariant top == PHYSTOP - 512 * i && Filling60(allSupers, pool, i, top)
      {
        top := top - 512;
        PoolOneMore(allSupers, pool, i, top);
        pool := pool + [top];
        allSupers := allSupers + {top};
      }
      PoolFull(allSupers, pool);
    }

    method Freerange(end: nat)
      requires freelist == [] && all == {} && 0 < end <= SUPERBASE
      modifies this`freelist, this`all, this`data
      ensures Shared(all, freelist, {}, {}, {}) && forall p :: p in all <==> end <= p < SUPERBASE
    {
      hide Shared;
      NothingShared();
      var p := end;
      while p + 1 <= SUPERBASE
        invariant end <= p <= SUPERBASE && Shared(all, freelist, {}, {}, {}) && (forall x :: x in all <==> end <= x < p)
      {
        FreeOneMore(all, freelist, p);
        all := all + {p};
        data := data[p := Filled(1)];
        freelist := [p] + freelist;
        p := p + 1;
      }
    }

    /** uvmcreate: an empty tree, or 0. */
    method Uvmcreate() returns (root: nat)
      requires Sound()
      modifies this`tables, this`at, this`pos, this`freelist, this`data, this`other, this`users
      ensures Sound() && other == old(other)
      ensures root == 0 ==> Trees() == old(Trees()) && users == old(users) && old(freelist) == []
      ensures root != 0 ==>
        users == old(users) + {root} && root !in old(users) && NoneMapped(tables, root, 0, MAXPAGE) && Top(root) in at
      ensures root != 0 ==> OthersSame(old(Trees()), Trees(), root)
    {
      hide Wf, Shared, Pooled, Owned, UserRoots, Hw, NoneMapped, OthersSame, Filled;
      root := Kalloc();
      if root != 0 { PlantRoot(root); }
    }

    method PlantRoot(root: nat)
      requires Sound() && root in other
      modifies this`tables, this`at, this`pos, this`other, this`users
      ensures Sound() && other == old(other) - {root} && users == old(users) + {root} && root !in old(users)
      ensures NoneMapped(tables, root, 0, MAXPAGE) && Top(root) in at && OthersSame(old(Trees()), Trees(), root)
    {
      hide Wf, Shared, Pooled, Owned, UserRoots, Hw, NoneMapped, OthersSame, EmptyTable;
      ghost var f := Trees();
      ToTable(all, freelist, tables.Keys, frames.Keys, other, root);
      PlantAll(f, users, frames, supers, root);
      assert tables[root := EmptyTable()].Keys == tables.Keys + {root};
      tables := tables[root := EmptyTable()];
      at, pos := at[Top(root) := root], pos[root := Top(root)];
      assert Trees() == Plant(f, root);
      other, users := other - {root}, users + {root};
    }

    /** kalloc: page number 0 stands for the null pointer. */
    method Kalloc() returns (p: nat)
      requires Conserved()
      modifies this`freelist, this`data, this`other
      ensures Conserved()
      ensures p == 0 <==> old(freelist) == []
      ensures p == 0 ==> freelist == old(freelist) && data == old(data) && other == old(other)
      ensures p != 0 ==>
        && freelist == old(freelist)[1..] && p == old(freelist)[0] && data == old(data)[p := Filled(5)]
        && p !in old(other) && other == old(other) + {p} && p !in frames && p !in tables
    {
      if freelist == [] { return 0; }
      TakeFree(all, freelist, tables.Keys, frames.Keys, other);
      p := freelist[0];
      assert p != 0;
      freelist := freelist[1..];
      data := data[p := Filled(5)];
      other := other + {p};
    }

    /** kfree of a page the caller has. */
    method Kfree(p: nat)
      requires Conserved() && p in other
      modifies this`freelist, this`data, this`other
      ensures Conserved()
      ensures freelist == [p] + old(freelist) && data == old(data)[p := Filled(1)] && other == old(other) - {p}
    {
      GiveFree(all, freelist, tables.Keys, frames.Keys, other, p);
      data := data[p := Filled(1)];
      freelist := [p] + freelist;
      other := other - {p};
    }

    /** One level of walk: from the page at q, follow, or with alloc create, the entry for the child place c. */
    method Descend(page: nat, i: nat, alloc: bool, ghost c: Pos) returns (down: bool, leaf: bool, next: nat)
      requires Wf(Trees()) && Conserved() && HasParent(c) && At(Trees(), Parent(c)) &&
        i == IndexIn(c) < (if c.Mid? then 256 else 512)
      requires page == at[Parent(c)]
      modifies this`tables, this`freelist, this`data, this`at, this`pos, this`other
      ensures Wf(Trees()) && Conserved() && SameMaps(old(Trees()), Trees())
      ensures other == old(other) && SameData(old(data), data, old(freelist)) && Taken(old(freelist), freelist)
      ensures old(Entry(Trees(), Parent(c), i)).v || !alloc ==>
        Trees() == old(Trees()) && freelist == old(freelist) && data == old(data)
      ensures At(Trees(), Parent(c)) && at[Parent(c)] == page
      ensures leaf ==> Entry(Trees(), Parent(c), i).v && Leaf(Entry(Trees(), Parent(c), i))
      ensures down ==>
        !leaf && c in at && next == at[c] && At(Trees(), c) && Entry(Trees(), Parent(c), i).v &&
        !Leaf(Entry(Trees(), Parent(c), i))
      ensures !down && !leaf ==>
        !Entry(Trees(), Parent(c), i).v && Trees() == old(Trees()) && (alloc ==> freelist == [])
      ensures old(tables.Keys) <= tables.Keys && (forall q :: q in old(at) ==> q in at) &&
        forall q :: q in at ==> q in old(at) || q == c
      ensures down && !old(Entry(Trees(), Parent(c), i)).v ==>
        next !in old(tables) && Trees() == Grow(old(Trees()), c, next)
    {
      hide Placed, Entries, Rooted, SameMaps, SameData, Taken;
      Reflexive(Trees(), data, freelist);
      EntryAt(Trees(), Parent(c), i);
      var e := tables[page][i];
      if e.v {
        next := e.ppn;
        leaf := Leaf(e);
        down := !leaf;
        if down { AtAt(Trees(), c); }
      } else {
        down, leaf, next := false, false, 0;
        if alloc {
          ghost var f := Trees();
          next := NewTable(page, i, c);
          down := next != 0;
          if down { AfterGrow(f, c, next); }
        }
      }
    }

    /** The allocation branch of walk and superwalk. */
    method NewTable(page: nat, i: nat, ghost c: Pos) returns (p: nat)
      requires Wf(Trees()) && Conserved() && HasParent(c) && At(Trees(), Parent(c)) &&
        i == IndexIn(c) < (if c.Mid? then 256 else 512)
      requires page == at[Parent(c)] && !Entry(Trees(), Parent(c), i).v
      modifies this`tables, this`freelist, this`data, this`at, this`pos, this`other
      ensures Wf(Trees()) && Conserved() && SameMaps(old(Trees()), Trees())
      ensures other == old(other) && SameData(old(data), data, old(freelist)) && Taken(old(freelist), freelist)
      ensures p == 0 ==> Trees() == old(Trees()) && data == old(data) && freelist == old(freelist) == []
      ensures p != 0 ==> p !in old(tables) && Trees() == Grow(old(Trees()), c, p)
      ensures old(tables.Keys) <= tables.Keys
    {
      hide Wf, SameMaps, SameData, Taken, At, Entry, Shared, Ram, Filled;
      Reflexive(Trees(), data, freelist);
      p := Kalloc();
      if p != 0 {
        PopFree(old(data), old(freelist), Filled(5));
        LinkTable(page, i, p, c);
        assert other == old(other);
      }
    }

    /** A zeroed page becomes a table of the tree. */
    method LinkTable(page: nat, i: nat, p: nat, ghost c: Pos)
      requires Wf(Trees()) && Conserved() && HasParent(c) && At(Trees(), Parent(c)) &&
        i == IndexIn(c) < (if c.Mid? then 256 else 512)
      requires page == at[Parent(c)] && !Entry(Trees(), Parent(c), i).v && p in other && p !in tables
      modifies this`tables, this`at, this`pos, this`other
      ensures Wf(Trees()) && Conserved() && SameMaps(old(Trees()), Trees()) && other == old(other) - {p}
      ensures Trees() == Grow(old(Trees()), c, p) && old(tables.Keys) <= tables.Keys
    {
      hide Wf, SameMaps, At, Entry, Shared;
      ghost var f := Trees();
      GrowKeepsMaps(f, c, p);
      ToTable(all, freelist, tables.Keys, frames.Keys, other, p);
      PageAt(f, Parent(c));
      tables := tables[page := tables[page][i := Pointer(p)]][p := EmptyTable()];
      at, pos := at[c := p], pos[p := c];
      assert Trees() == Grow(f, c, p);
      assert tables.Keys == f.tables.Keys + {p};
      other := other - {p};
    }

    /** walk: the entry for page n, and its place; with alloc, missing table pages are made on the way. */
    method Walk(root: nat, n: nat, alloc: bool) returns (found: bool, page: nat, i: nat, ghost s: Slot)
      requires Wf(Trees()) && Conserved() && Top(root) in at && n < MAXPAGE
      modifies this`tables, this`freelist, this`data, this`at, this`pos, this`other
      ensures Wf(Trees()) && Conserved() && SameMaps(old(Trees()), Trees()) && Top(root) in at
      ensures other == old(other) && SameData(old(data), data, old(freelist)) && Taken(old(freelist), freelist)
      ensures !alloc ==> Trees() == old(Trees()) && freelist == old(freelist) && data == old(data)
      ensures s == PathSlot(Trees(), root, n) && (found <==> s.Slot?)
      ensures found ==> page == at[s.q] && i == s.i
      ensures !found && alloc ==> freelist == []
      ensures GrewFor(old(Trees()), Trees(), root, n)
    {
      hide Wf, SameMaps, SameData, Taken, Px2, Px1, Px0, At, Entry, GrewFor;
      Reflexive(Trees(), data, freelist);
      RootPage(Trees(), root);
      GrewNone(Trees(), root, n);
      TopIndex(n);
      page, i, s, found := root, 0, Missing, false;
      var level := 2;
      while level > 0
        invariant 0 <= level <= 2 && Wf(Trees()) && Conserved() && SameMaps(old(Trees()), Trees()) && Top(root) in at
        invariant other == old(other) && SameData(old(data), data, old(freelist)) && Taken(old(freelist), freelist)
        invariant !alloc ==> Trees() == old(Trees()) && freelist == old(freelist) && data == old(data)
        invariant GrewFor(old(Trees()), Trees(), root, n)
        invariant var q := PlaceOf(root, n, level); At(Trees(), q) && q in at && page == at[q]
      {
        ghost var f, d, l := Trees(), data, freelist;
        i := Px(level, n);
        ghost var c := PlaceOf(root, n, level - 1);
        var down, leaf, next := Descend(page, i, alloc, c);
        StillRoot(f, Trees(), root);
        GrewOnPath(f, Trees(), root, n, c);
        GrewMore(old(Trees()), f, Trees(), root, n);
        Chain(old(Trees()), f, Trees(), old(data), d, data, old(freelist), l, freelist);
        if leaf {
          LeafHere(Trees(), root, n, level);
          return true, page, i, Slot(Parent(c), i);
        }
        if !down {
          NothingHere(Trees(), root, n, level);
          return false, page, i, Missing;
        }
        page := next;
        level := level - 1;
      }
      LowHere(Trees(), root, n);
      return true, page, Px(0, n), Slot(PlaceOf(root, n, 0), Px0(n));
    }

    /** superwalk: the level-1 entry for page n, without looking whether the level-2 entry is a leaf. */
    method Superwalk(root: nat, n: nat, alloc: bool) returns (found: bool, page: nat, i: nat)
      requires Wf(Trees()) && Conserved() && Top(root) in at && n < MAXPAGE
      modifies this`tables, this`freelist, this`data, this`at, this`pos, this`other
      ensures Wf(Trees()) && Conserved() && SameMaps(old(Trees()), Trees()) && Top(root) in at
      ensures other == old(other) && SameData(old(data), data, old(freelist)) && Taken(old(freelist), freelist)
      ensures !alloc ==> Trees() == old(Trees()) && freelist == old(freelist) && data == old(data)
      ensures found <==> Mid(root, Px2(n)) in at
      ensures old(Mid(root, Px2(n)) in at) ==> found && Trees() == old(Trees())
      ensures found ==> page == at[Mid(root, Px2(n))] && i == Px1(n) && At(Trees(), Mid(root, Px2(n)))
      ensures found && !old(Mid(root, Px2(n)) in at) ==> !Entry(Trees(), Mid(root, Px2(n)), Px1(n)).v
      ensures forall q :: q in at ==> q in old(at) || q == Mid(root, Px2(n))
      ensures !found && alloc ==> freelist == []
      ensures GrewFor(old(Trees()), Trees(), root, n)
    {
      hide Wf, SameMaps, SameData, Taken, Px2, Px1, Px0, At, Entry, GrewFor;
      RootPage(Trees(), root);
      TopIndex(n);
      ghost var f := Trees();
      ghost var c := Mid(root, Px2(n));
      TopEntry(f, root, n);
      var down, leaf, next := Descend(root, Px2(n), alloc, c);
      StillRoot(f, Trees(), root);
      TopEntry(Trees(), root, n);
      GrewOnPath(f, Trees(), root, n, c);
      if down && c !in f.at { FreshTable(f, Trees(), c, Px1(n)); }
      return down, next, Px1(n);
    }

    /** Storing a leaf or zero in an entry that is not a pointer. */
    method Store(page: nat, i: nat, e: Pte, ghost q: Pos)
      requires Wf(Trees()) && At(Trees(), q) && page == at[q] && i < 512 && Writable(q, e)
      requires !Entry(Trees(), q, i).v || Leaf(Entry(Trees(), q, i)) || q.Low?
      modifies this`tables
      ensures Wf(Trees()) && Trees() == Set(old(Trees()), q, i, e) && Wrote(old(Trees()), Trees(), q, i, e)
      ensures tables.Keys == old(tables.Keys)
    {
      hide Wf, At, Entry, Wrote, Writable;
      ghost var f := Trees();
      SetChanges(f, q, i, e);
      PageAt(f, q);
      tables := tables[page := tables[page][i := e]];
      assert Trees() == Set(f, q, i, e);
    }

    /** One round of mappages. */
    method MapPage(root: nat, n: nat, ppn: nat, perm: Pte) returns (o: Outcome)
      requires Wf(Trees()) && Conserved() && Top(root) in at && n < MAXPAGE && perm.r
      modifies this`tables, this`freelist, this`data, this`at, this`pos, this`other
      ensures Wf(Trees()) && Conserved() && Top(root) in at
      ensures other == old(other) && SameData(old(data), data, old(freelist)) && Taken(old(freelist), freelist)
      ensures o == Remap <==> Hw(old(tables), root, n) != None
      ensures o == Done ==> Edit(old(Trees()), Trees(), root, n, n + 1, Pages(ppn, perm))
      ensures o != Done ==> SameMaps(old(Trees()), Trees())
      ensures o == NoMemory ==> freelist == [] && !(PathOf(root, n) <= at.Keys)
      ensures o == Done ==> at.Keys == old(at.Keys) + PathOf(root, n)
      ensures GrewFor(old(Trees()), Trees(), root, n)
    {
      hide Wf, SameMaps, SameData, Taken, Px2, Px1, Px0, At, Hw, Edit, Filling, PathOf;
      ghost var f := Trees();
      var found, page, i;
      ghost var s;
      found, page, i, s := Walk(root, n, true);
      ghost var g := Trees();
      SameAt(f, g, root, n);
      SlotSays(g, root, n);
      PathMissing(g, root, n);
      if !found { return NoMemory; }
      PageAt(g, s.q);
      if tables[page][i].v { return Remap; }
      SlotIsLow(g, root, n);
      PathMade(f, g, root, n);
      Store(page, i, Make(ppn, perm), s.q);
      StillRootWrote(g, Trees(), s.q, i, Make(ppn, perm), root);
      WroteOnePage(g, Trees(), root, n, ppn, perm);
      SameEdit(f, g, Trees(), root, n, n + 1, Pages(ppn, perm));
      return Done;
    }

    /** mappages: k pages were mapped; a page already mapped is the remap panic. */
    method Mappages(root: nat, n: nat, count: nat, ppn: nat, perm: Pte) returns (o: Outcome, k: nat)
      requires Wf(Trees()) && Conserved() && Top(root) in at && 0 < count && n + count <= MAXPAGE && perm.r
      modifies this`tables, this`freelist, this`data, this`at, this`pos, this`other
      ensures Wf(Trees()) && Conserved() && Top(root) in at
      ensures other == old(other) && SameData(old(data), data, old(freelist)) && Taken(old(freelist), freelist)
      ensures k <= count && Edit(old(Trees()), Trees(), root, n, n + k, Pages(ppn, perm))
      ensures o == Done <==> k == count
      ensures o == Remap ==> Hw(old(tables), root, n + k) != None
      ensures o == NoMemory ==> freelist == [] && Hw(old(tables), root, n + k) == None
      ensures forall m :: n <= m < n + k ==> Hw(old(tables), root, m) == None
    {
      hide Wf, Shared, SameMaps, SameData, Taken, Hw, Edit, GrewFor, Filling, Ram;
      k := 0;
      Reflexive(Trees(), data, freelist);
      EditNone(Trees(), root, n, Pages(ppn, perm));
      while true
        invariant Wf(Trees()) && Conserved() && Top(root) in at && k < count
        invariant other == old(other) && SameData(old(data), data, old(freelist)) && Taken(old(freelist), freelist)
        invariant Edit(old(Trees()), Trees(), root, n, n + k, Pages(ppn, perm))
        invariant forall m :: n <= m < n + k ==> Hw(old(tables), root, m) == None
        decreases count - k
      {
        ghost var f, d, l := Trees(), data, freelist;
        EditAt(old(Trees()), f, root, n, n + k, Pages(ppn, perm), root, n + k);
        o := MapPage(root, n + k, ppn + k, perm);
        ChainData(old(data), d, data, old(freelist), l, freelist);
        if o != Done {
          EditSame(old(Trees()), f, Trees(), root, n, n + k, Pages(ppn, perm));
          return;
        }
        EditMore(old(Trees()), f, Trees(), root, n, n + k, ppn, perm);
        k := k + 1;
        if k == count { return; }
      }
    }

    /** supermappages: it panics exactly when the level-1 entry is taken, be it by a table that maps nothing. */
    method Supermappages(root: nat, n: nat, ppn: nat, perm: Pte) returns (o: Outcome)
      requires Wf(Trees()) && Conserved() && Top(root) in at && n < MAXPAGE && perm.r && n % 512 == 0 && ppn % 512 == 0
      modifies this`tables, this`freelist, this`data, this`at, this`pos, this`other
      ensures Wf(Trees()) && Conserved() && Top(root) in at
      ensures other == old(other) && SameData(old(data), data, old(freelist)) && Taken(old(freelist), freelist)
      ensures o == Remap <==> Occupied(old(Trees()), root, n)
      ensures o == Done ==> Edit(old(Trees()), Trees(), root, n, n + 512, Super(ppn, perm))
      ensures o != Done ==> SameMaps(old(Trees()), Trees())
      ensures o == NoMemory ==> freelist == [] && Mid(root, Px2(n)) !in at && at.Keys == old(at.Keys)
      ensures o == Done ==> at.Keys == old(at.Keys) + {Mid(root, Px2(n))}
      ensures GrewFor(old(Trees()), Trees(), root, n)
    {
      hide Wf, SameMaps, SameData, Taken, Px2, Px1, Px0, Hw, Edit, Filling, Wrote;
      ghost var f := Trees();
      ghost var q := Mid(root, Px2(n));
      if q in at { AtWf(f, q); }
      var found, page, i := Superwalk(root, n, true);
      ghost var g := Trees();
      if !found { return NoMemory; }
      if tables[page][i].v { return Remap; }
      Store(page, i, Make(ppn, perm), q);
      StillRootWrote(g, Trees(), q, i, Make(ppn, perm), root);
      WroteSuper(g, Trees(), root, n, ppn, perm);
      SameEdit(f, g, Trees(), root, n, n + 512, Super(ppn, perm));
      return Done;
    }

    /** superalloc: page number 0 stands for the null pointer. */
    method Superalloc() returns (s: nat)
      requires SupersConserved()
      modifies this`pool, this`held, this`data
      ensures SupersConserved()
      ensures s == 0 <==> old(pool) == []
      ensures s == 0 ==> pool == old(pool) && held == old(held) && data == old(data)
      ensures s != 0 ==>
        && s == old(pool)[|old(pool)| - 1] && pool == old(pool)[..|old(pool)| - 1] &&
          data == FillData(old(data), s, 512, 5)
        && s !in old(held) && held == old(held) + {s} && s !in supers && s % 512 == 0
    {
      hide Pooled, FillData;
      if pool == [] { return 0; }
      TakeSuper(allSupers, pool, supers.Keys, held);
      s := pool[|pool| - 1];
      pool := pool[..|pool| - 1];
      held := held + {s};
      data := FillData(data, s, 512, 5);
    }

    /** superfree: none of its three panics can happen to a superpage the caller holds. */
    method Superfree(s: nat)
      requires SupersConserved() && s in held
      modifies this`pool, this`held, this`data
      ensures SupersConserved()
      ensures pool == old(pool) + [s] && held == old(held) - {s} && data == FillData(old(data), s, 512, 1)
      ensures s % 512 == 0 && SUPERBASE <= s < PHYSTOP && |old(pool)| < NSUPERPAGES
    {
      hide Pooled, FillData;
      PoolHasRoom(allSupers, pool, supers.Keys, held, s);
      GiveSuper(allSupers, pool, supers.Keys, held, s);
      data := FillData(data, s, 512, 1);
      pool := pool + [s];
      held := held - {s};
    }

    method ReleaseSuper(s: nat)
      requires SupersConserved() && s in supers
      modifies this`pool, this`held, this`data, this`supers
      ensures SupersConserved() && supers == old(supers) - {s} && held == old(held)
      ensures Quiet(old(data), data, Elems(freelist), Elems(pool)) && Elems(old(pool)) <= Elems(pool)
    {
      hide Pooled, Quiet, FillData, Elems;
      SuperFromLeaf(allSupers, pool, supers.Keys, held, s);
      SuperNotHeld(allSupers, pool, supers.Keys, held, s);
      assert (supers - {s}).Keys == supers.Keys - {s};
      supers, held := supers - {s}, held + {s};
      QuietFill(data, s, 1, Elems(freelist), pool);
      PoolGrew(pool, s);
      Superfree(s);
      assert held == old(held);
    }

    method ReleasePage(p: nat)
      requires Conserved() && p in frames
      modifies this`freelist, this`other, this`data, this`frames
      ensures Conserved() && frames == old(frames) - {p} && other == old(other)
      ensures Quiet(old(data), data, Elems(freelist), Elems(pool)) && Elems(old(freelist)) <= Elems(freelist)
    {
      hide Shared, Quiet, Filled, Elems;
      FromFrame(all, freelist, tables.Keys, frames.Keys, other, p);
      FrameNotOther(all, freelist, tables.Keys, frames.Keys, other, p);
      assert (frames - {p}).Keys == frames.Keys - {p};
      frames, other := frames - {p}, other + {p};
      QuietStore(data, p, Filled(1), freelist, Elems(pool));
      FreeGrew(freelist, p);
      Kfree(p);
      assert other == old(other);
    }

    /** uvmunmap's superpage branch, freeing the memory. */
    method UnmapSuper(root: nat, a: nat, page: nat, i: nat)
      requires Sound() && root in users && a + 512 <= USERTOP && a % 512 == 0 && IsSuper(Trees(), root, a)
      requires page == at[Mid(root, Px2(a))] && i == Px1(a)
      modifies this`tables, this`pool, this`held, this`data, this`supers
      ensures Sound() && held == old(held) && Edit(old(Trees()), Trees(), root, a, a + 512, Nothing) &&
        tables.Keys == old(tables.Keys)
      ensures Quiet(old(data), data, Elems(freelist), Elems(pool)) && Elems(old(pool)) <= Elems(pool)
    {
      hide Wf, Shared, Pooled, Owned, UserRoots, Hw, Edit, Px1, Px2, Px0, Quiet, FillData, Elems, Wrote, Filled;
      ghost var f := Trees();
      UserRoot(f, users, root);
      SuperEntry(f, root, a);
      SuperOwner(f, users, frames, supers, root, a);
      var spa := tables[page][i].ppn;
      ReleaseSuper(spa);
      Store(page, i, ZERO, Mid(root, Px2(a)));
      WroteNoSuper(f, Trees(), root, a);
      DisownSuper(f, Trees(), users, frames, old(supers), root, a, spa);
    }

    /** uvmunmap's 4 KiB branch, freeing the memory. */
    method UnmapSmall(root: nat, a: nat, page: nat, i: nat)
      requires Sound() && root in users && a < USERTOP && Hw(tables, root, a).Some? &&
        Hw(tables, root, a).value.level == 0
      requires PathSlot(Trees(), root, a).Slot? && page == at[PathSlot(Trees(), root, a).q] &&
        i == PathSlot(Trees(), root, a).i
      modifies this`tables, this`freelist, this`other, this`data, this`frames
      ensures Sound() && other == old(other) && Edit(old(Trees()), Trees(), root, a, a + 1, Nothing) &&
        tables.Keys == old(tables.Keys)
      ensures Quiet(old(data), data, Elems(freelist), Elems(pool)) && Elems(old(freelist)) <= Elems(freelist)
    {
      hide Wf, Shared, Pooled, Owned, UserRoots, Hw, Edit, Px1, Px2, Px0, Quiet, FillData, Elems, Wrote, Filled;
      ghost var f := Trees();
      UserRoot(f, users, root);
      SmallEntry(f, root, a);
      SmallOwner(f, users, frames, supers, root, a);
      var pa := tables[page][i].ppn;
      ReleasePage(pa);
      Store(page, i, ZERO, Low(root, Px2(a), Px1(a)));
      WroteNoPage(f, Trees(), root, a);
      DisownPage(f, Trees(), users, old(frames), supers, root, a, pa);
    }

    /** uvmunmap with do_free, of mapped pages from a mapping boundary on. A superpage that the end cuts goes whole. */
    method Uvmunmap(root: nat, lo: nat, hi: nat)
      requires Sound() && root in users && lo <= hi <= USERTOP && AllMapped(tables, root, lo, hi)
      requires !Inside(tables, root, lo)
      modifies this`tables, this`freelist, this`other, this`data, this`frames, this`pool, this`held, this`supers,
        this`at, this`pos
      ensures Sound() && held == old(held) && other == old(other) && at == old(at) && pos == old(pos) &&
        tables.Keys == old(tables.Keys)
      ensures Edit(old(Trees()), Trees(), root, lo, UnmapEnd(old(tables), root, hi), Nothing)
      ensures Quiet(old(data), data, Elems(freelist), Elems(pool))
    {
      hide Wf, Shared, Pooled, Owned, UserRoots, Hw, Edit, Quiet, Elems, Inside, AllMapped, IsSuper, UnmapEnd;
      var a := lo;
      EditNone(Trees(), root, lo, Nothing);
      QuietNone(data, Elems(freelist), Elems(pool));
      ghost var f := Trees();
      UserRoot(f, users, root);
      EndBounds(root, hi);
      while a < hi
        invariant lo <= a <= UnmapEnd(f.tables, root, hi) && Sound() && held == old(held) && other == old(other)
        invariant at == old(at) && pos == old(pos) && tables.Keys == old(tables.Keys)
        invariant Edit(f, Trees(), root, lo, a, Nothing) && !Inside(f.tables, root, a)
        invariant Quiet(old(data), data, Elems(freelist), Elems(pool))
      {
        ghost var g, d, l, p := Trees(), data, Elems(freelist), Elems(pool);
        NextUnmap(f, g, root, lo, a, hi);
        if Hw(tables, root, a).value.level == 1 { SuperFits(tables, users, frames, supers, root, a); }
        var sz := UnmapStep(root, a);
        EditCleared(f, g, Trees(), root, lo, a, a + sz);
        QuietMore(old(data), d, data, l, p, Elems(freelist), Elems(pool));
        a := a + sz;
      }
      StopsAtEnd(f, root, a, hi);
    }

    lemma EndBounds(root: nat, hi: nat)
      requires Sound() && root in users && hi <= USERTOP
      ensures hi <= UnmapEnd(tables, root, hi) <= MAXPAGE
    {
      hide Wf, Shared, Pooled, Owned, UserRoots, Hw;
      if hi < USERTOP && Inside(tables, root, hi) { SuperFits(tables, users, frames, supers, root, hi); }
    }

    method UnmapStep(root: nat, a: nat) returns (sz: nat)
      requires Sound() && root in users && a < USERTOP && Hw(tables, root, a).Some? &&
        Hw(tables, root, a).value.level <= 1
      requires Hw(tables, root, a).value.level == 1 ==> a % 512 == 0 && a + 512 <= USERTOP
      modifies this`tables, this`freelist, this`other, this`data, this`frames, this`pool, this`held, this`supers,
        this`at, this`pos
      ensures Sound() && held == old(held) && other == old(other) && at == old(at) && pos == old(pos) &&
        tables.Keys == old(tables.Keys)
      ensures sz == (if Hw(old(tables), root, a).value.level == 1 then 512 else 1)
      ensures Edit(old(Trees()), Trees(), root, a, a + sz, Nothing)
      ensures Quiet(old(data), data, Elems(freelist), Elems(pool))
      ensures Elems(old(freelist)) <= Elems(freelist) && Elems(old(pool)) <= Elems(pool)
    {
      hide Wf, Shared, Pooled, Owned, UserRoots, Hw, Edit, Quiet, Elems, Px2, Px1, Px0, At;
      ghost var f := Trees();
      UserRoot(f, users, root);
      SuperEntry(f, root, a);
      var found, page, i;
      ghost var s;
      if a % 512 == 0 {
        found, page, i := Superwalk(root, a, false);
        if found {
          PageAt(f, Mid(root, Px2(a)));
          if tables[page][i].v && tables[page][i].r {
            UnmapSuper(root, a, page, i);
            return 512;
          }
        }
      }
      found, page, i, s := Walk(root, a, false);
      SmallEntry(f, root, a);
      UnmapSmall(root, a, page, i);
      return 1;
    }

    /** uvmunmap without do_free, of any range: what it clears, and whether it panics. */
    method UvmunmapKeep(root: nat, lo: nat, hi: nat) returns (ok: bool)
      requires Wf(Trees()) && Conserved() && Top(root) in at && lo <= hi <= MAXPAGE
      modifies this`tables, this`freelist, this`data, this`at, this`pos, this`other
      ensures Wf(Trees()) && Conserved() && (lo == hi ==> ok && Trees() == old(Trees()))
      ensures ok <==> UnmapTo(old(tables), root, lo, hi, lo).Some?
      ensures ok && lo < hi ==>
        Edit(old(Trees()), Trees(), root, UnmapFrom(old(tables), root, lo),
        UnmapTo(old(tables), root, lo, hi, lo).value, Nothing)
    {
      hide Wf, Hw, Edit, Inside, UnmapFrom;
      ghost var f := Trees();
      ghost var to := lo;
      var a := lo;
      while a < hi
        invariant lo <= a <= to + 512 && Wf(Trees()) && Conserved() && Top(root) in at
        invariant UnmapTo(f.tables, root, lo, hi, lo) == UnmapTo(f.tables, root, a, hi, to)
        invariant
          if a == lo then to == lo && Trees() == f
          else
            && a <= to && Edit(f, Trees(), root, UnmapFrom(f.tables, root, lo), to, Nothing)
            && !Inside(f.tables, root, to)
        decreases hi - a
      {
        ghost var g := Trees();
        if a > lo {
          EditAt(f, g, root, UnmapFrom(f.tables, root, lo), to, Nothing, root, a);
          FromBelow(f.tables, root, lo);
        }
        var sz, ok' := ClearStep(root, a);
        if !ok' { return false; }
        ClearMore(f, g, Trees(), root, lo, a);
        to := ClearHi(Hw(f.tables, root, a).value, a);
        a := a + sz;
      }
      return true;
    }

    method ClearStep(root: nat, a: nat) returns (sz: nat, ok: bool)
      requires Wf(Trees()) && Conserved() && Top(root) in at && a < MAXPAGE
      modifies this`tables, this`freelist, this`data, this`at, this`pos, this`other
      ensures Wf(Trees()) && Conserved() && Top(root) in at
      ensures ok <==> Hw(old(tables), root, a).Some?
      ensures ok ==> var t := Hw(old(tables), root, a).value;
        && sz == (if t.level == 1 && a % 512 == 0 then 512 else 1)
        && Edit(old(Trees()), Trees(), root, ClearLo(t, a), ClearHi(t, a), Nothing)
      ensures !ok ==> Trees() == old(Trees())
    {
      hide Wf, Hw, Edit, Px2, Px1, Px0, Wrote;
      ghost var f := Trees();
      SuperEntry(f, root, a);
      SlotSays(f, root, a);
      var found, page, i;
      ghost var s;
      if a % 512 == 0 {
        found, page, i := Superwalk(root, a, false);
        if found && tables[page][i].v && tables[page][i].r {
          Store(page, i, ZERO, Mid(root, Px2(a)));
          WroteBlock(f, Trees(), root, a);
          return 512, true;
        }
      }
      found, page, i, s := Walk(root, a, false);
      if !found || !tables[page][i].v { return 1, false; }
      SlotKind(f, root, a);
      Store(page, i, ZERO, s.q);
      if s.q.Mid? { WroteBlock(f, Trees(), root, a); } else { WroteNoPage(f, Trees(), root, a); }
      return 1, true;
    }

    // -------------------------------------------------------------- growing

    /** A page of memory with the given contents, mapped at page a: the 4 KiB branches of uvmalloc and uvmcopy. */
    method NewPage(root: nat, a: nat, perm: Pte, contents: Page) returns (o: Outcome, p: nat)
      requires Sound() && root in users && a < USERTOP && Hw(tables, root, a) == None && perm.r
      modifies this`tables, this`freelist, this`other, this`data, this`frames, this`at, this`pos
      ensures Sound() && other == old(other) && o != Remap && GrewFor(old(Trees()), Trees(), root, a)
      ensures Elems(freelist) <= Elems(old(freelist)) && Quiet(old(data), data, Elems(old(freelist)), Elems(pool))
      ensures o == Done ==>
        Edit(old(Trees()), Trees(), root, a, a + 1, Pages(p, perm)) && p in data && data[p] == contents
      ensures o == NoMemory ==> SameMaps(old(Trees()), Trees())
      ensures o == Done ==>
        Took(old(Trees()), old(frames).Keys, supers.Keys, Trees(), frames.Keys, supers.Keys, root, a, false)
      ensures o == NoMemory ==> frames == old(frames) && Short(old(Trees()), |old(freelist)|, |pool|, root, a, false)
    {
      hide Wf, Shared, Pooled, Owned, UserRoots, Hw, Edit, Quiet, Elems, SameData, Taken, SameMaps, GrewFor, PathOf,
        Took, Short;
      ghost var f, l := Trees(), Elems(freelist);
      UserRoot(f, users, root);
      p := PageWith(contents);
      if p == 0 {
        Reflexive(f, data, freelist);
        GrewNone(f, root, a);
        NothingFree(f, 0, root, a);
        return NoMemory, 0;
      }
      ghost var d, m := data, freelist;
      o := MapPage(root, a, p, perm);
      QuietSame(old(data), d, data, l, m, Elems(pool));
      SameDataAt(d, data, m, p);
      TakenLess(l, m, freelist);
      if o == NoMemory {
        PageShort(all, old(other), old(freelist), f, Trees(), frames.Keys, p, root, a);
        OwnedSame(f, Trees(), users, frames, supers);
        PageBack(p, old(data), l);
        assert other == old(other);
        return NoMemory, 0;
      }
      AdoptPage(f, root, a, p, perm);
      TookPage(f, old(frames).Keys, supers.Keys, Trees(), frames.Keys, root, a, p);
      assert other == old(other);
    }

    ghost method AdoptPage(f: Forest, root: nat, a: nat, p: nat, perm: Pte)
      requires Wf(Trees()) && Conserved() && SupersConserved() && UserRoots(f, users) &&
        Owned(f.tables, users, frames, supers)
      requires Edit(f, Trees(), root, a, a + 1, Pages(p, perm)) && Hw(f.tables, root, a) == None
      requires root in users && a < USERTOP && p in other
      modifies this`frames, this`other
      ensures Sound() && other == old(other) - {p} && frames.Keys == old(frames).Keys + {p} && p !in old(frames)
    {
      hide Wf, Shared, Pooled, Owned, UserRoots, Hw, Edit;
      ToFrame(all, freelist, tables.Keys, frames.Keys, other, p);
      NotFrame(all, freelist, tables.Keys, frames.Keys, other, p);
      OwnPage(f, Trees(), users, frames, supers, root, a, p, perm);
      assert frames[p := Spot(root, a)].Keys == frames.Keys + {p};
      frames := frames[p := Spot(root, a)];
      other := other - {p};
    }

    /** kalloc, then memset or memmove. */
    method PageWith(contents: Page) returns (p: nat)
      requires Conserved()
      modifies this`freelist, this`other, this`data
      ensures Conserved() && Elems(freelist) <= Elems(old(freelist)) &&
        Quiet(old(data), data, Elems(old(freelist)), Elems(pool))
      ensures p == 0 ==> freelist == old(freelist) == [] && other == old(other) && data == old(data)
      ensures p != 0 ==> other == old(other) + {p} && p !in old(other) && p in data && data[p] == contents
      ensures p != 0 ==> p !in freelist && p !in frames && p in Elems(old(freelist))
    {
      hide Shared, Quiet, Elems, Filled;
      ghost var l := freelist;
      QuietNone(data, Elems(freelist), Elems(pool));
      p := Kalloc();
      if p != 0 {
        data := data[p := contents];
        QuietPop(old(data), l, Filled(5), contents, Elems(pool));
        PoppedLess(l);
        BusyOther(all, freelist, tables.Keys, frames.Keys, other, p);
      }
    }

    /** kfree of a page taken from free set l when the data was d. */
    method PageBack(p: nat, ghost d: Data, ghost l: set<nat>)
      requires Conserved() && p in other && p in l && Elems(freelist) <= l && Quiet(d, data, l, Elems(pool))
      modifies this`freelist, this`other, this`data
      ensures Conserved() && other == old(other) - {p} && Elems(freelist) <= l && Quiet(d, data, l, Elems(pool))
    {
      hide Shared, Quiet, Elems, Filled;
      FreedLess(l, freelist, p);
      QuietBack(d, data, p, Filled(1), l, Elems(pool));
      Kfree(p);
    }

    /** superalloc, then memset or memmove; the contents are given page by page. */
    method SuperWith(contents: seq<Page>) returns (s: nat)
      requires SupersConserved()
      modifies this`pool, this`held, this`data
      ensures SupersConserved() && Elems(pool) <= Elems(old(pool)) &&
        Quiet(old(data), data, Elems(freelist), Elems(old(pool)))
      ensures s == 0 <==> old(pool) == []
      ensures s == 0 ==> pool == old(pool) && held == old(held) && data == old(data)
      ensures s != 0 ==>
        held == old(held) + {s} && s !in old(held) && s % 512 == 0 && s in Elems(old(pool)) && s !in supers
      ensures s != 0 ==> Holds(data, s, contents)
    {
      hide Pooled, Quiet, Elems, FillData, Holds;
      ghost var l := pool;
      QuietNone(data, Elems(freelist), Elems(pool));
      s := Superalloc();
      if s != 0 {
        data := WriteBlock(data, s, contents);
        QuietSuper(old(data), s, contents, Elems(freelist), l);
        PopLess(l);
        PoolHasRoom(allSupers, pool, supers.Keys, held, s);
        BlockHolds(FillData(old(data), s, 512, 5), s, contents);
      }
    }

    method SuperBack(s: nat, ghost d: Data, ghost l: set<nat>, ghost p: set<nat>)
      requires SupersConserved() && s in held && s in p && Elems(pool) <= p && Quiet(d, data, l, p)
      modifies this`pool, this`held, this`data
      ensures SupersConserved() && held == old(held) - {s} && Elems(pool) <= p && Quiet(d, data, l, p)
    {
      hide Pooled, Quiet, Elems, FillData;
      PoolHasRoom(allSupers, pool, supers.Keys, held, s);
      PushLess(p, pool, s);
      QuietSuperBack(d, data, s, l, p);
      Superfree(s);
    }

    ghost method AdoptSuper(f: Forest, root: nat, a: nat, s: nat, perm: Pte)
      requires Wf(Trees()) && Conserved() && SupersConserved() && UserRoots(f, users) &&
        Owned(f.tables, users, frames, supers)
      requires Edit(f, Trees(), root, a, a + 512, Super(s, perm)) && NoneMapped(f.tables, root, a, a + 512)
      requires root in users && a + 512 <= USERTOP && a % 512 == 0 && s in held
      modifies this`supers, this`held
      ensures Sound() && held == old(held) - {s} && supers.Keys == old(supers).Keys + {s} && s !in old(supers)
    {
      hide Wf, Shared, Pooled, Owned, UserRoots, Hw, Edit, NoneMapped;
      AdoptFacts(f, root, a, s, perm);
      EnterSuper(s, supers[s := Spot(root, a)]);
    }

    lemma AdoptFacts(f: Forest, root: nat, a: nat, s: nat, perm: Pte)
      requires SupersConserved() && UserRoots(f, users) && Owned(f.tables, users, frames, supers)
      requires Edit(f, Trees(), root, a, a + 512, Super(s, perm)) && NoneMapped(f.tables, root, a, a + 512)
      requires root in users && a + 512 <= USERTOP && a % 512 == 0 && s in held
      ensures var su := supers[s := Spot(root, a)];
        && su.Keys == supers.Keys + {s} && s !in supers
        && UserRoots(Trees(), users) && Owned(tables, users, frames, su) && Pooled(allSupers, pool, su.Keys, held - {s})
    {
      hide Wf, Shared, Pooled, Owned, UserRoots, Hw, Edit, NoneMapped;
      SuperToLeaf(allSupers, pool, supers.Keys, held, s);
      NotSuper(allSupers, pool, supers.Keys, held, s);
      OwnSuper(f, Trees(), users, frames, supers, root, a, s, perm);
      assert supers[s := Spot(root, a)].Keys == supers.Keys + {s};
    }

    ghost method EnterSuper(s: nat, su: map<nat, Spot>)
      requires Wf(Trees()) && Conserved() && UserRoots(Trees(), users) && Owned(tables, users, frames, su)
      requires Pooled(allSupers, pool, su.Keys, held - {s})
      modifies this`supers, this`held
      ensures Sound() && held == old(held) - {s} && supers == su
    {
      hide Wf, Shared, Pooled, Owned, UserRoots;
      supers, held := su, held - {s};
    }

    /** A superpage with the given contents, mapped at page a: the superpage branches of uvmalloc and uvmcopy. */
    method NewSuper(root: nat, a: nat, perm: Pte, contents: seq<Page>) returns (o: Outcome, s: nat)
      requires Sound() && root in users && a + 512 <= USERTOP && a % 512 == 0 &&
        NoneMapped(tables, root, a, a + 512) && perm.r
      modifies this`tables, this`freelist, this`other, this`data, this`supers, this`at, this`pos, this`pool, this`held
      ensures o == Remap <==> old(pool) != [] && Occupied(old(Trees()), root, a)
      ensures o != Remap ==> Sound() && other == old(other) && held == old(held)
      ensures GrewFor(old(Trees()), Trees(), root, a)
      ensures Elems(freelist) <= Elems(old(freelist)) && Elems(pool) <= Elems(old(pool))
      ensures Quiet(old(data), data, Elems(old(freelist)), Elems(old(pool)))
      ensures o == Done ==> Edit(old(Trees()), Trees(), root, a, a + 512, Super(s, perm)) && Holds(data, s, contents)
      ensures o == NoMemory ==> SameMaps(old(Trees()), Trees())
      ensures o == Done ==>
        Took(old(Trees()), frames.Keys, old(supers).Keys, Trees(), frames.Keys, supers.Keys, root, a, true)
      ensures o == NoMemory ==>
        supers == old(supers) && Short(old(Trees()), |old(freelist)|, |old(pool)|, root, a, true)
    {
      hide Wf, Shared, Pooled, Owned, UserRoots, Hw, Edit, Quiet, Elems, SameData, Taken, SameMaps, GrewFor, Holds,
        NoneMapped, Occupied, Took, Short;
      ghost var f, l, pl := Trees(), Elems(freelist), Elems(pool);
      UserRoot(f, users, root);
      s := SuperWith(contents);
      if s == 0 {
        Reflexive(f, data, freelist);
        GrewNone(f, root, a);
        NothingFree(f, |freelist|, root, a);
        return NoMemory, 0;
      }
      ghost var d, m := data, freelist;
      o := Supermappages(root, a, s, perm);
      QuietSame(old(data), d, data, l, m, pl);
      TakenLess(l, m, freelist);
      HoldsStill(d, data, m, s, contents, all, f.tables.Keys, frames.Keys, other, allSupers, pool, supers.Keys, held);
      if o == NoMemory {
        BlockShort(all, other, old(freelist), f, Trees(), frames.Keys, root, a);
        OwnedSame(f, Trees(), users, frames, supers);
        SuperBack(s, old(data), l, pl);
        assert held == old(held);
        return NoMemory, 0;
      }
      if o == Done {
        AdoptSuper(f, root, a, s, perm);
        TookBlock(f, frames.Keys, old(supers).Keys, Trees(), supers.Keys, root, a, s);
        assert held == old(held);
      }
    }

    lemma PagesBusy(root: nat, lo: nat, hi: nat)
      requires Sound() && root in users && hi <= USERTOP
      ensures AllBusy(tables, root, lo, hi, Elems(freelist), Elems(pool))
    {
      hide Wf, Shared, Pooled, Owned, UserRoots, Hw, Elems;
      forall n | lo <= n < hi && Hw(tables, root, n).Some?
        ensures IsBusy(Hw(tables, root, n).value.frame, Elems(freelist), Elems(pool))
      {
        FrameBusy(Trees(), users, frames, supers, root, n, all, freelist, other, allSupers, pool, held);
      }
    }

    /** One round of uvmalloc, which chooses a superpage whenever one fits. */
    method AllocStep(root: nat, a: nat, newsz: nat, xw: bool, xx: bool, ghost lo: nat) returns (o: Outcome, sz: nat)
      requires Sound() && root in users && lo <= a < PgUp(newsz) <= USERTOP && NoneMapped(tables, root, a, PgUp(newsz))
      requires AllZero(tables, data, root, lo, a)
      modifies this`tables, this`freelist, this`other, this`data, this`frames, this`supers, this`at, this`pos,
        this`pool, this`held
      ensures o == Remap <==>
        a % 512 == 0 && a + 512 <= newsz / 4096 && old(pool) != [] && Occupied(old(Trees()), root, a)
      ensures o != Remap ==> Sound() && other == old(other) && held == old(held)
      ensures GrewFor(old(Trees()), Trees(), root, a)
      ensures Elems(freelist) <= Elems(old(freelist)) && Elems(pool) <= Elems(old(pool))
      ensures Quiet(old(data), data, Elems(old(freelist)), Elems(old(pool)))
      ensures sz == if a % 512 == 0 && a + 512 <= newsz / 4096 then 512 else 1
      ensures o == NoMemory ==> SameMaps(old(Trees()), Trees())
      ensures o == Done ==> AllZero(tables, data, root, lo, a + sz)
      ensures o == Done && sz == 512 ==>
        exists s :: Edit(old(Trees()), Trees(), root, a, a + 512, Super(s, Pte(0, true, true, true, xx, true)))
      ensures o == Done && sz == 1 ==>
        exists p :: Edit(old(Trees()), Trees(), root, a, a + 1, Pages(p, Pte(0, true, true, xw, xx, true)))
      ensures o == Done ==>
        Took(old(Trees()), old(frames).Keys, old(supers).Keys, Trees(), frames.Keys, supers.Keys, root, a, sz == 512)
      ensures o == NoMemory ==> Short(old(Trees()), |old(freelist)|, |old(pool)|, root, a, sz == 512)
    {
      hide Wf, Shared, Pooled, Owned, UserRoots, Hw, Edit, Quiet, Elems, SameMaps, GrewFor, Holds, Occupied, AllZero,
        AllBusy, Filled, ZeroBlock, Took, Short;
      Sizes(a, newsz);
      PagesBusy(root, lo, a);
      UserRoot(Trees(), users, root);
      ghost var f, d, l, p := Trees(), data, Elems(freelist), Elems(pool);
      if a % 512 == 0 && newsz - a * 4096 >= 2097152 {
        sz := 512;
        var s;
        assert NoneMapped(tables, root, a, a + 512);
        o, s := NewSuper(root, a, Pte(0, true, true, true, xx, true), ZeroBlock());
        if o == Done {
          ZeroKept(f, Trees(), d, data, root, lo, a, 512, Super(s, Pte(0, true, true, true, xx, true)), l, p);
          ZeroSuperAdded(f, Trees(), data, root, lo, a, s, Pte(0, true, true, true, xx, true));
        }
      } else {
        sz := 1;
        var q;
        o, q := NewPage(root, a, Pte(0, true, true, xw, xx, true), Filled(0));
        if o == Done {
          ZeroKept(f, Trees(), d, data, root, lo, a, 1, Pages(q, Pte(0, true, true, xw, xx, true)), l, p);
          ZeroPageAdded(f, Trees(), data, root, lo, a, q, Pte(0, true, true, xw, xx, true));
        }
      }
    }

    /** The error exit of uvmalloc: uvmdealloc of what was mapped since f. */
    method Rollback(root: nat, lo: nat, a: nat, ghost np: nat, ghost whole: nat, ghost xw: bool, ghost xx: bool,
                    ghost f: Forest, ghost fr: map<nat, Spot>, ghost su: map<nat, Spot>)
      requires Sound() && root in users && lo <= a < np <= USERTOP && Grown(f, Trees(), root, lo, a, whole, xw, xx)
      requires UserRoots(f, users) && Owned(f.tables, users, fr, su) && NoneMapped(f.tables, root, lo, np)
      modifies this`tables, this`freelist, this`other, this`data, this`frames, this`pool, this`held, this`supers,
        this`at, this`pos
      ensures Sound() && SameMaps(f, Trees()) && frames == fr && supers == su
      ensures other == old(other) && held == old(held) && tables.Keys == old(tables.Keys)
      ensures Quiet(old(data), data, Elems(freelist), Elems(pool))
    {
      hide Wf, Shared, Pooled, Owned, UserRoots, Hw, Edit, Quiet, Elems, SameMaps, Grown, AllMapped, Inside;
      ghost var g := Trees();
      UserRoot(f, users, root);
      if lo < a {
        GrownBounds(f, g, root, lo, a, whole, xw, xx);
        EndAtBoundary(tables, root, a);
        Uvmunmap(root, lo, a);
      } else {
        EditNone(g, root, lo, Nothing);
        QuietNone(data, Elems(freelist), Elems(pool));
      }
      GrownUndone(f, g, Trees(), root, lo, a, whole, xw, xx);
      OwnedDetermined(f, Trees(), users, fr, su, frames, supers);
    }

    /** uvmalloc: on success the new pages are mapped and zero; when memory runs out every page is given back. A panic
        means that a level-0 table was in the way of a superpage, and success that none was. */
    method Uvmalloc(root: nat, oldsz: nat, newsz: nat, xw: bool, xx: bool)
      returns (o: Outcome, r: nat, ghost stuck: nat)
      requires Sound() && root in users && PgUp(newsz) <= USERTOP && NoneMapped(tables, root, PgUp(oldsz), PgUp(newsz))
      modifies this`tables, this`freelist, this`other, this`data, this`frames, this`supers, this`at, this`pos,
        this`pool, this`held
      ensures o != Remap ==> Sound() && other == old(other) && held == old(held)
      ensures o != Remap ==> Quiet(old(data), data, Elems(old(freelist)), Elems(old(pool)))
      ensures o == Remap ==> SuperBlockFits(stuck, PgUp(oldsz), newsz / 4096) && HasTable(old(Trees()), root, stuck)
      ensures o == Done ==>
        ClearFor(old(Trees()), root, PgUp(oldsz), newsz / 4096) && r == if newsz < oldsz then oldsz else newsz
      ensures o == Done ==> Grown(old(Trees()), Trees(), root, PgUp(oldsz), PgUp(newsz), newsz / 4096, xw, xx)
      ensures o == Done ==> AllZero(tables, data, root, PgUp(oldsz), PgUp(newsz))
      ensures o == NoMemory ==>
        r == 0 && SameMaps(old(Trees()), Trees()) && frames == old(frames) && supers == old(supers)
      ensures o == Done <==>
        && ClearFor(old(Trees()), root, PgUp(oldsz), newsz / 4096)
        && GrowthFits(old(Trees()), root, PgUp(oldsz), PgUp(newsz), newsz / 4096, |old(freelist)|, |old(pool)|)
      ensures o == NoMemory ==>
        !GrowthFits(old(Trees()), root, PgUp(oldsz), PgUp(newsz), newsz / 4096, |old(freelist)|, |old(pool)|)
      ensures o == Done ==>
        var plain, blocks := PlainPages(PgUp(oldsz), PgUp(newsz), newsz / 4096),
          SuperBlocks(PgUp(oldsz), PgUp(newsz), newsz / 4096);
        |freelist| == |old(freelist)| - Demand(old(Trees()), root, plain, blocks) && |pool| == |old(pool)| - |blocks|
    {
      hide Wf, Shared, Pooled, Owned, UserRoots, Hw, Edit, Quiet, Elems, SameMaps, GrewFor, Occupied, AllZero, Grown,
        NoNewTables, HasTable, NoneMapped, Paid, Took, Short, GrowthFits, Demand, PlainPages, SuperBlocks;
      stuck := 0;
      var lo := PgUp(oldsz);
      ghost var f, np, whole := Trees(), PgUp(newsz), newsz / 4096;
      ghost var l, p := freelist, pool;
      QuietNone(data, Elems(l), Elems(p));
      if newsz < oldsz {
        GrownShrunk(f, root, lo, np, whole, xw, xx);
        NothingToPay(f, root, lo, np, whole, |l|, |p|);
        AllZeroEmpty(tables, data, root, lo, np);
        return Done, oldsz, 0;
      }
      UserRoot(f, users, root);
      var a := lo;
      StartGrowth(f, data, root, lo, whole, xw, xx);
      PaidNone(f, frames.Keys, supers.Keys, root, lo, whole);
      while a * 4096 < newsz
        invariant lo <= a <= np && Sound() && other == old(other) && held == old(held)
        invariant Grown(f, Trees(), root, lo, a, whole, xw, xx) && AllZero(tables, data, root, lo, a)
        invariant NoNewTables(f, Trees(), root, a) && f.tables.Keys <= tables.Keys &&
          (forall q :: q in f.at ==> q in at)
        invariant a % 512 != 0 ==> !SuperBlockFits(a - a % 512, lo, whole)
        invariant Paid(f, old(frames).Keys, old(supers).Keys, Trees(), frames.Keys, supers.Keys, root, lo, a, whole)
        invariant Elems(freelist) <= Elems(l) && Elems(pool) <= Elems(p) && Quiet(old(data), data, Elems(l), Elems(p))
        decreases np - a
      {
        Sizes(a, newsz);
        ghost var g, d, m, q := Trees(), data, Elems(freelist), Elems(pool);
        ghost var fr, su, free', pool' := frames.Keys, supers.Keys, |freelist|, |pool|;
        PaidSoFar(f, l, p, old(frames).Keys, old(supers).Keys, root, lo, a, whole);
        StillUnmapped(f, g, root, lo, a, np, whole, xw, xx);
        var sz;
        o, sz := AllocStep(root, a, newsz, xw, xx, lo);
        if o == Remap {
          UnmappedAt(g.tables, root, a, np, a);
          TableInTheWay(f, g, root, a);
          return Remap, 0, a;
        }
        QuietWithin(old(data), d, data, Elems(l), Elems(p), m, q);
        GrewTables(g, Trees(), root, a);
        if o == NoMemory {
          Unpaid(f, old(frames).Keys, old(supers).Keys, g, fr, su, root, lo, a, np, whole, sz, |l|, |p|, free', pool');
          GrownSame(f, g, Trees(), root, lo, a, whole, xw, xx);
          GiveUp(root, lo, a, np, whole, xw, xx, f, old(frames), old(supers), l, p, old(data));
          return NoMemory, 0, 0;
        }
        NoNewMore(f, g, Trees(), root, a, sz);
        GrownStep(f, g, Trees(), root, lo, a, sz, whole, xw, xx);
        PaidMore(f, old(frames).Keys, old(supers).Keys, g, fr, su, Trees(), frames.Keys, supers.Keys, root, lo, a, sz,
          whole);
        a := a + sz;
      }
      Sizes(a, newsz);
      GrownWasClear(f, Trees(), root, lo, np, whole, xw, xx);
      PaidSoFar(f, l, p, old(frames).Keys, old(supers).Keys, root, lo, np, whole);
      AllPaid(f, root, lo, np, whole, |l|, |p|, |freelist|, |pool|);
      return Done, newsz, 0;
    }

    /** What is free of both kinds, by what the growth has needed. */
    lemma PaidSoFar(f: Forest, l: seq<nat>, p: seq<nat>, fr: set<nat>, su: set<nat>, root: nat, lo: nat, a: nat,
                    whole: nat)
      requires Sound() && Wf(f) && Shared(all, l, f.tables.Keys, fr, other) && Pooled(allSupers, p, su, held)
      requires Paid(f, fr, su, Trees(), frames.Keys, supers.Keys, root, lo, a, whole)
      ensures |freelist| + Demand(f, root, PlainPages(lo, a, whole), SuperBlocks(lo, a, whole)) == |l|
      ensures |pool| + |SuperBlocks(lo, a, whole)| == |p|
    {
      hide Wf, Shared, Pooled, Owned, UserRoots, Demand, PlainPages, SuperBlocks;
      var plain, blocks := PlainPages(lo, a, whole), SuperBlocks(lo, a, whole);
      Spent(all, other, f, l, fr, Trees(), freelist, frames.Keys, su, supers.Keys, root, plain, blocks);
      SpentPool(allSupers, held, p, su, pool, supers.Keys, blocks);
    }

    method GiveUp(root: nat, lo: nat, a: nat, ghost np: nat, ghost whole: nat, ghost xw: bool, ghost xx: bool,
                  ghost f: Forest, ghost fr: map<nat, Spot>, ghost su: map<nat, Spot>, ghost l: seq<nat>,
                    ghost p: seq<nat>, ghost d: Data)
      requires Sound() && root in users && lo <= a < np <= USERTOP && Grown(f, Trees(), root, lo, a, whole, xw, xx)
      requires UserRoots(f, users) && Owned(f.tables, users, fr, su) && NoneMapped(f.tables, root, lo, np)
      requires Shared(all, l, f.tables.Keys, fr.Keys, other) && Pooled(allSupers, p, su.Keys, held) &&
        f.tables.Keys <= tables.Keys
      requires Quiet(d, data, Elems(l), Elems(p))
      modifies this`tables, this`freelist, this`other, this`data, this`frames, this`pool, this`held, this`supers,
        this`at, this`pos
      ensures Sound() && SameMaps(f, Trees()) && frames == fr && supers == su && other == old(other) &&
        held == old(held)
      ensures Quiet(d, data, Elems(l), Elems(p))
    {
      hide Wf, Shared, Pooled, Owned, UserRoots, Hw, Quiet, Elems, SameMaps, Grown, NoneMapped;
      ghost var e := data;
      Rollback(root, lo, a, np, whole, xw, xx, f, fr, su);
      FreeLess(all, l, f.tables.Keys, frames.Keys, other, freelist, tables.Keys);
      PoolLess(allSupers, p, supers.Keys, held, pool);
      QuietWithin(d, e, data, Elems(l), Elems(p), Elems(freelist), Elems(pool));
    }

    /** uvmdealloc down to a mapping boundary. */
    method Uvmdealloc(root: nat, oldsz: nat, newsz: nat) returns (r: nat)
      requires Sound() && root in users && PgUp(oldsz) <= USERTOP
      requires newsz < oldsz ==> AllMapped(tables, root, PgUp(newsz), PgUp(oldsz)) && !Inside(tables, root, PgUp(newsz))
      modifies this`tables, this`freelist, this`other, this`data, this`frames, this`pool, this`held, this`supers,
        this`at, this`pos
      ensures Sound() && other == old(other) && held == old(held) &&
        Quiet(old(data), data, Elems(freelist), Elems(pool))
      ensures r == if newsz >= oldsz then oldsz else newsz
      ensures newsz >= oldsz ==> Trees() == old(Trees())
      ensures newsz < oldsz ==>
        Edit(old(Trees()), Trees(), root, PgUp(newsz), UnmapEnd(old(tables), root, PgUp(oldsz)), Nothing)
    {
      hide Wf, Shared, Pooled, Owned, UserRoots, Hw, Edit, Quiet, Elems, AllMapped, Inside;
      QuietNone(data, Elems(freelist), Elems(pool));
      if newsz >= oldsz { return oldsz; }
      if PgUp(newsz) < PgUp(oldsz) {
        Uvmunmap(root, PgUp(newsz), PgUp(oldsz));
      } else {
        EditNone(Trees(), root, PgUp(newsz), Nothing);
        EndAtBoundary(tables, root, PgUp(oldsz));
      }
      return newsz;
    }

    // -------------------------------------------------------------- copying

    /** One round of uvmcopy. */
    method CopyStep(o: nat, w: nat, i: nat) returns (oc: Outcome, sz: nat, ghost p: nat)
      requires Sound() && o in users && w in users && o != w && i < USERTOP && Hw(tables, o, i).Some? &&
        Hw(tables, o, i).value.level <= 1
      requires Hw(tables, o, i).value.pte.r && Hw(tables, w, i) == None
      requires Hw(tables, o, i).value.level == 1 ==>
        i % 512 == 0 && i + 512 <= USERTOP && NoneMapped(tables, w, i, i + 512)
      modifies this`tables, this`freelist, this`other, this`data, this`frames, this`supers, this`at, this`pos,
        this`pool, this`held
      ensures oc == Remap ==> Hw(old(tables), o, i).value.level == 1 && Occupied(old(Trees()), w, i)
      ensures oc != Remap ==> Sound() && other == old(other) && held == old(held)
      ensures GrewFor(old(Trees()), Trees(), w, i)
      ensures Elems(freelist) <= Elems(old(freelist)) && Elems(pool) <= Elems(old(pool))
      ensures Quiet(old(data), data, Elems(old(freelist)), Elems(old(pool)))
      ensures oc == NoMemory ==> SameMaps(old(Trees()), Trees())
      ensures sz == if Hw(old(tables), o, i).value.level == 1 then 512 else 1
      ensures oc == Done && sz == 512 ==>
        && Edit(old(Trees()), Trees(), w, i, i + 512, Super(p, Hw(old(tables), o, i).value.pte))
        && Holds(data, p, BlockOf(old(data), Hw(old(tables), o, i).value.pte.ppn))
      ensures oc == Done && sz == 1 ==>
        && Edit(old(Trees()), Trees(), w, i, i + 1, Pages(p, Hw(old(tables), o, i).value.pte))
        && p in data && data[p] == PageOf(old(data), Hw(old(tables), o, i).value.frame)
      ensures oc == Done ==>
        Took(old(Trees()), old(frames).Keys, old(supers).Keys, Trees(), frames.Keys, supers.Keys, w, i, sz == 512)
      ensures oc == NoMemory ==> Short(old(Trees()), |old(freelist)|, |old(pool)|, w, i, sz == 512)
    {
      hide Wf, Shared, Pooled, Owned, UserRoots, Hw, Edit, Quiet, Elems, SameMaps, GrewFor, Holds, Occupied, Px2, Px1,
        Px0, At, NoneMapped, BlockOf, PageOf, Took, Short;
      ghost var f := Trees();
      UserRoot(f, users, o);
      SuperEntry(f, o, i);
      var found, page, j;
      ghost var s;
      if i % 512 == 0 {
        found, page, j := Superwalk(o, i, false);
        if found {
          PageAt(f, Mid(o, Px2(i)));
          var e := tables[page][j];
          if e.v && e.r {
            sz := 512;
            oc, p := NewSuper(w, i, e, BlockOf(data, e.ppn));
            return;
          }
        }
      }
      sz := 1;
      found, page, j, s := Walk(o, i, false);
      SmallEntry(f, o, i);
      PageAt(f, s.q);
      oc, p := NewPage(w, i, tables[page][j], PageOf(data, tables[page][j].ppn));
    }

    /** uvmcopy: on success the child's pages are like the parent's and hold the same bytes; when memory runs out every
        page is given back. A panic means that a level-0 table was in the way of a superpage. */
    method Uvmcopy(o: nat, w: nat, sz: nat) returns (oc: Outcome, ghost stuck: nat)
      requires Sound() && o in users && w in users && o != w && PgUp(sz) <= USERTOP
      requires AllMapped(tables, o, 0, PgUp(sz)) && !Inside(tables, o, PgUp(sz)) && NoneMapped(tables, w, 0, PgUp(sz))
      modifies this`tables, this`freelist, this`other, this`data, this`frames, this`supers, this`at, this`pos,
        this`pool, this`held
      ensures oc != Remap ==> Sound() && other == old(other) && held == old(held)
      ensures oc != Remap ==> Quiet(old(data), data, Elems(old(freelist)), Elems(old(pool)))
      ensures oc == Remap ==> IsCopySuper(old(Trees()), o, stuck, PgUp(sz)) && HasTable(old(Trees()), w, stuck)
      ensures oc == Done ==> ClearToCopy(old(Trees()), o, w, PgUp(sz))
      ensures oc == Done ==> Copied(old(Trees()), Trees(), o, w, PgUp(sz))
      ensures oc == Done ==> SameBytes(old(Trees()), Trees(), old(data), data, o, w, PgUp(sz))
      ensures oc == NoMemory ==> SameMaps(old(Trees()), Trees()) && frames == old(frames) && supers == old(supers)
      ensures oc == Done <==>
        && ClearToCopy(old(Trees()), o, w, PgUp(sz))
        && CopyFits(old(Trees()), o, w, PgUp(sz), |old(freelist)|, |old(pool)|)
      ensures oc == NoMemory ==> !CopyFits(old(Trees()), o, w, PgUp(sz), |old(freelist)|, |old(pool)|)
      ensures oc == Done ==>
        var plain, blocks := CopyPages(old(Trees()), o, PgUp(sz)), CopySupers(old(Trees()), o, PgUp(sz));
        |freelist| == |old(freelist)| - Demand(old(Trees()), w, plain, blocks) && |pool| == |old(pool)| - |blocks|
    {
      hide Wf, Shared, Pooled, Owned, UserRoots, Hw, Edit, Quiet, Elems, SameMaps, GrewFor, Occupied, NoNewTables,
        HasTable, NoneMapped, Copied, SameBytes, AllMapped, Inside, Holds, AllBusy, BlockOf, PageOf, CopyPaid, Took,
        Short, CopyFits, Demand, CopyPages, CopySupers;
      stuck := 0;
      ghost var f, np, l, pl, d0 := Trees(), PgUp(sz), freelist, pool, data;
      UserRoot(f, users, o);
      UserRoot(f, users, w);
      StartCopy(f, data, o, w, Elems(l), Elems(pl));
      CopyPaidNone(f, frames.Keys, supers.Keys, o, w);
      PagesBusy(o, 0, np);
      var i := 0;
      while i * 4096 < sz
        invariant i <= np && Sound() && other == old(other) && held == old(held)
        invariant Copied(f, Trees(), o, w, i) && SameBytes(f, Trees(), d0, data, o, w, i) && !Inside(f.tables, o, i)
        invariant NoNewTables(f, Trees(), w, i) && f.tables.Keys <= tables.Keys && (forall q :: q in f.at ==> q in at)
        invariant CopyPaid(f, old(frames).Keys, old(supers).Keys, Trees(), frames.Keys, supers.Keys, o, w, i)
        invariant Elems(freelist) <= Elems(l) && Elems(pool) <= Elems(pl) && Quiet(d0, data, Elems(l), Elems(pl))
        decreases np - i
      {
        Sizes(i, sz);
        ghost var g, d, m, q := Trees(), data, Elems(freelist), Elems(pool);
        ghost var fr, su, free', pool' := frames.Keys, supers.Keys, |freelist|, |pool|;
        CopiedSoFar(f, l, pl, old(frames).Keys, old(supers).Keys, o, w, i);
        StillFree(f, g, o, w, i, np);
        UnmappedAt(g.tables, w, i, np, i);
        SourceLeaf(f, g, o, w, i, np);
        if Hw(f.tables, o, i).value.level == 1 { FreeBlock(g, w, i, np); }
        PagesBusy(w, 0, i);
        var inc;
        ghost var p;
        oc, inc, p := CopyStep(o, w, i);
        if oc == Remap {
          TableInTheWay(f, g, w, i);
          return Remap, i;
        }
        QuietWithin(d0, d, data, Elems(l), Elems(pl), m, q);
        GrewTables(g, Trees(), w, i);
        if oc == NoMemory {
          CopyUnpaid(f, old(frames).Keys, old(supers).Keys, g, fr, su, o, w, i, np, inc, |l|, |pl|, free', pool');
          CopiedSame(f, g, Trees(), o, w, i);
          CopyGiveUp(o, w, i, np, f, old(frames), old(supers), l, pl, d0);
          return NoMemory, 0;
        }
        NoNewMore(f, g, Trees(), w, i, inc);
        CopyStepOk(f, g, Trees(), d0, d, data, o, w, i, inc, np, p, m, q, Elems(l), Elems(pl));
        CopyPaidMore(f, old(frames).Keys, old(supers).Keys, g, fr, su, Trees(), frames.Keys, supers.Keys, o, w, i, inc);
        i := i + inc;
      }
      Sizes(i, sz);
      CopiedWasClear(f, Trees(), o, w, np);
      CopiedSoFar(f, l, pl, old(frames).Keys, old(supers).Keys, o, w, np);
      CopyAllPaid(f, o, w, np, |l|, |pl|, |freelist|, |pool|);
      return Done, 0;
    }

    lemma CopiedSoFar(f: Forest, l: seq<nat>, p: seq<nat>, fr: set<nat>, su: set<nat>, o: nat, w: nat, i: nat)
      requires Sound() && Wf(f) && Shared(all, l, f.tables.Keys, fr, other) && Pooled(allSupers, p, su, held)
      requires CopyPaid(f, fr, su, Trees(), frames.Keys, supers.Keys, o, w, i)
      ensures |freelist| + Demand(f, w, CopyPages(f, o, i), CopySupers(f, o, i)) == |l|
      ensures |pool| + |CopySupers(f, o, i)| == |p|
    {
      hide Wf, Shared, Pooled, Owned, UserRoots, Demand, CopyPages, CopySupers;
      var plain, blocks := CopyPages(f, o, i), CopySupers(f, o, i);
      Spent(all, other, f, l, fr, Trees(), freelist, frames.Keys, su, supers.Keys, w, plain, blocks);
      SpentPool(allSupers, held, p, su, pool, supers.Keys, blocks);
    }

    /** The err label of uvmcopy. */
    method CopyGiveUp(ghost o: nat, w: nat, i: nat, ghost np: nat, ghost f: Forest, ghost fr: map<nat, Spot>,
                      ghost su: map<nat, Spot>, ghost l: seq<nat>, ghost p: seq<nat>, ghost d: Data)
      requires Sound() && w in users && i < np <= USERTOP && Copied(f, Trees(), o, w, i)
      requires UserRoots(f, users) && Owned(f.tables, users, fr, su) && NoneMapped(f.tables, w, 0, np)
      requires Shared(all, l, f.tables.Keys, fr.Keys, other) && Pooled(allSupers, p, su.Keys, held) &&
        f.tables.Keys <= tables.Keys
      requires Quiet(d, data, Elems(l), Elems(p))
      modifies this`tables, this`freelist, this`other, this`data, this`frames, this`pool, this`held, this`supers,
        this`at, this`pos
      ensures Sound() && SameMaps(f, Trees()) && frames == fr && supers == su && other == old(other) &&
        held == old(held)
      ensures Quiet(d, data, Elems(l), Elems(p))
    {
      hide Wf, Shared, Pooled, Owned, UserRoots, Hw, Quiet, Elems, SameMaps, Copied, NoneMapped, Edit, AllMapped,
        Inside;
      ghost var e, g := data, Trees();
      UserRoot(f, users, w);
      UnmappedAt(f.tables, w, 0, np, i);
      CopyBounds(f, g, o, w, i);
      EndAtBoundary(tables, w, i);
      Uvmunmap(w, 0, i);
      NoneLess(f.tables, w, np, i);
      CopyUndone(f, g, Trees(), o, w, i);
      OwnedDetermined(f, Trees(), users, fr, su, frames, supers);
      FreeLess(all, l, f.tables.Keys, frames.Keys, other, freelist, tables.Keys);
      PoolLess(allSupers, p, supers.Keys, held, pool);
      QuietWithin(d, e, data, Elems(l), Elems(p), Elems(freelist), Elems(pool));
    }

    // -------------------------------------------------------------- freeing a tree

    /** freewalk of the page at q in a tree without leaves: the page and all below it become free. g is the state just
        before the page itself goes, when nothing is left below it. */
    method Freewalk(page: nat, ghost q: Pos) returns (ghost g: Forest)
      requires Wf(Trees()) && Conserved() && At(Trees(), q) && page == at[q] && NoLeaf(Trees(), q.root)
      modifies this`tables, this`at, this`pos, this`freelist, this`data, this`other
      ensures Freed(old(Trees()), g, q) && At(g, q) && g.at[q] == page && Trees() == Cut(g, q)
      ensures Conserved() && other == old(other) && Quiet(old(data), data, Elems(freelist), Elems(pool))
      ensures Elems(old(freelist)) <= Elems(freelist)
      decreases LevelOf(q)
    {
      hide Wf, Shared, NoLeaf, Freed, Freeing, Quiet, Elems, Cut;
      FreeingStart(Trees(), q);
      QuietNone(data, Elems(freelist), Elems(pool));
      ghost var f := Trees();
      for i := 0 to 512
        invariant Freeing(f, Trees(), q, i) && q in at && page == at[q]
        invariant Conserved() && other == old(other) && Quiet(old(data), data, Elems(freelist), Elems(pool))
        invariant Elems(old(freelist)) <= Elems(freelist)
      {
        ghost var h, d, l := Trees(), data, Elems(freelist);
        FreeingAt(f, h, q, i);
        var e := tables[page][i];
        if e.v && !Leaf(e) {
          ghost var c := ChildOf(q, i);
          g := Freewalk(e.ppn, c);
          QuietMore(old(data), d, data, l, Elems(pool), Elems(freelist), Elems(pool));
          FreedParent(h, g, q, i);
          ClearEntry(page, i, q, c, g);
          FreeingMore(f, h, g, Trees(), q, i);
        } else {
          FreeingSkip(f, h, q, i);
        }
      }
      g := Trees();
      FreeingDone(f, g, q);
      ghost var d, l := data, Elems(freelist);
      TakeOut(page, q);
      QuietMore(old(data), d, data, l, Elems(pool), Elems(freelist), Elems(pool));
    }

    /** pagetable[i] = 0 after the recursive call. */
    method ClearEntry(page: nat, i: nat, ghost q: Pos, ghost c: Pos, ghost g: Forest)
      requires At(g, q) && At(g, c) && HasParent(c) && Parent(c) == q && IndexIn(c) == i < 512 &&
        page == g.at[q] != g.at[c]
      requires Trees() == Cut(g, c) && Conserved()
      modifies this`tables
      ensures Trees() == Prune(g, c) && Conserved()
    {
      hide Shared;
      ClearIsPrune(g, q, c, i);
      ghost var keys := tables.Keys;
      tables := tables[page := tables[page][i := ZERO]];
      assert tables.Keys == keys;
    }

    /** kfree of a table page. */
    method TakeOut(page: nat, ghost q: Pos)
      requires Conserved() && At(Trees(), q) && page == at[q]
      modifies this`tables, this`at, this`pos, this`freelist, this`data, this`other
      ensures Trees() == Cut(old(Trees()), q) && Conserved() && other == old(other)
      ensures Quiet(old(data), data, Elems(freelist), Elems(pool)) && Elems(old(freelist)) <= Elems(freelist)
    {
      hide Shared, Quiet, Elems, Filled;
      FromTable(all, freelist, tables.Keys, frames.Keys, other, page);
      TableNotOther(all, freelist, tables.Keys, frames.Keys, other, page);
      assert (tables - {page}).Keys == tables.Keys - {page};
      other := other + {page};
      tables := tables - {page};
      at, pos := at - {q}, pos - {page};
      QuietStore(data, page, Filled(1), freelist, Elems(pool));
      FreeGrew(freelist, page);
      Kfree(page);
      assert other == old(other);
    }

    /** uvmfree: the user pages and all table pages of the tree become free, and the tree is gone. */
    method Uvmfree(root: nat, sz: nat)
      requires Sound() && root in users && PgUp(sz) <= USERTOP && AllMapped(tables, root, 0, PgUp(sz))
      requires NoneMapped(tables, root, PgUp(sz), MAXPAGE)
      modifies this
      ensures Sound() && users == old(users) - {root} && other == old(other) && held == old(held)
      ensures forall q :: q in at ==> q.root != root
      ensures OthersSame(old(Trees()), Trees(), root)
      ensures Quiet(old(data), data, Elems(freelist), Elems(pool))
    {
      hide Wf, Shared, Pooled, Owned, UserRoots, Hw, Edit, Quiet, Elems, AllMapped, Inside, NoneMapped, OthersSame,
        NoLeaf, Cut;
      ghost var f := Trees();
      UserRoot(f, users, root);
      EditNone(f, root, 0, Nothing);
      QuietNone(data, Elems(freelist), Elems(pool));
      BottomBoundary(f.tables, root);
      UnmappedAt(tables, root, PgUp(sz), MAXPAGE, PgUp(sz));
      UnmappedNotInside(tables, root, PgUp(sz));
      EndAtBoundary(tables, root, PgUp(sz));
      if sz > 0 { Uvmunmap(root, 0, PgUp(sz)); }
      ghost var g, d, l, p := Trees(), data, Elems(freelist), Elems(pool);
      EmptyTree(f, g, root, PgUp(sz));
      AtWf(g, Top(root));
      RootPage(g, root);
      ghost var h := Freewalk(root, Top(root));
      QuietMore(old(data), d, data, l, p, Elems(freelist), Elems(pool));
      TreeGone(g, h, root);
      EditOthers(f, g, Trees(), root, PgUp(sz));
      OwnedWithout(g, Trees(), users, frames, supers, root);
      users := users - {root};
      assert Wf(Trees()) && Conserved() && SupersConserved() && LeavesOwned();
    }

    // -------------------------------------------------------------- bytes

    /** walkaddr, of the page with number n: the base of the leaf that maps it for the user. */
    method Walkaddr(root: nat, n: nat) returns (pa: Option<nat>)
      requires Wf(Trees()) && Conserved() && Top(root) in at
      modifies this`tables, this`freelist, this`data, this`at, this`pos, this`other
      ensures Trees() == old(Trees()) && freelist == old(freelist) && data == old(data) && other == old(other)
      ensures pa.Some? <==> Accessible(tables, root, n, false)
      ensures pa.Some? ==> pa.value == Hw(tables, root, n).value.pte.ppn
      ensures pa.Some? ==> (pa.value == Hw(tables, root, n).value.frame <==> !Inside(tables, root, n))
    {
      hide Wf, Hw, Shared, Px2, Px1, Px0, Inside;
      if n >= MAXPAGE { return None; }
      var found, page, i;
      ghost var s;
      found, page, i, s := Walk(root, n, false);
      SlotSays(Trees(), root, n);
      if !found || !tables[page][i].v || !tables[page][i].u { return None; }
      BaseIsFrame(Trees(), root, n);
      return Some(tables[page][i].ppn);
    }

    /** The permission check at the head of copyout's loop. */
    method MayWrite(root: nat, n: nat) returns (pa: Option<nat>)
      requires Wf(Trees()) && Conserved() && Top(root) in at
      modifies this`tables, this`freelist, this`data, this`at, this`pos, this`other
      ensures Trees() == old(Trees()) && freelist == old(freelist) && data == old(data) && other == old(other)
      ensures pa.Some? <==> Accessible(tables, root, n, true)
      ensures pa.Some? ==> pa.value == Hw(tables, root, n).value.pte.ppn
      ensures pa.Some? ==> (pa.value == Hw(tables, root, n).value.frame <==> !Inside(tables, root, n))
    {
      hide Wf, Hw, Shared, Px2, Px1, Px0, Inside;
      if n >= MAXPAGE { return None; }
      var found, page, i;
      ghost var s;
      found, page, i, s := Walk(root, n, false);
      SlotSays(Trees(), root, n);
      if !found { return None; }
      if !tables[page][i].w { return None; }
      pa := Walkaddr(root, n);
    }

    lemma FrameThere(root: nat, n: nat)
      requires Sound() && root in users && n < USERTOP && Hw(tables, root, n).Some?
      ensures Hw(tables, root, n).value.frame in data
    {
      hide Wf, Hw, Shared, Pooled, Owned, UserRoots;
      FrameBusy(Trees(), users, frames, supers, root, n, all, freelist, other, allSupers, pool, held);
    }

    lemma OnlyFrame(root: nat, m: nat, p: nat)
      requires Sound() && root in users && m < USERTOP && Hw(tables, root, m).Some? &&
        Hw(tables, root, m).value.frame == p
      ensures forall r, n ::
        r in users && 0 <= n < USERTOP && Hw(tables, r, n).Some? && Hw(tables, r, n).value.frame == p ==>
          r == root && n == m
    {
      hide Wf, Hw, Shared, Pooled, Owned, UserRoots;
      forall r, n | r in users && 0 <= n < USERTOP && Hw(tables, r, n).Some? && Hw(tables, r, n).value.frame == p
        ensures r == root && n == m
      {
        FramesApart(Trees(), users, frames, supers, all, freelist, other, allSupers, pool, held, r, n, root, m);
      }
    }

    /** copyout: the bytes up to the first page that is not the user's to write are in place, nothing else changed. */
    method Copyout(root: nat, dst: nat, src: seq<nat>) returns (ok: bool, ghost k: nat)
      requires Sound() && root in users && TopIsKernels(tables, root)
      requires NoInsides(tables, root, dst, |src|)
      modifies this`tables, this`freelist, this`data, this`at, this`pos, this`other
      ensures Trees() == old(Trees()) && freelist == old(freelist) && other == old(other) && Sound()
      ensures k <= |src| && CopiedOut(tables, users, old(data), data, root, dst, src, k)
      ensures ok <==> k == |src|
      ensures !ok ==> !Accessible(tables, root, (dst + k) / 4096, true)
    {
      hide Wf, Hw, Shared, Pooled, Owned, UserRoots, TopIsKernels, NoInsides, CopiedOut, Accessible, Inside, Splice;
      UserRoot(Trees(), users, root);
      CopiedOutNone(tables, users, data, root, dst, src);
      var done := 0;
      while done < |src|
        invariant done <= |src| && Trees() == old(Trees()) && freelist == old(freelist) && other == old(other) &&
          Sound()
        invariant CopiedOut(tables, users, old(data), data, root, dst, src, done)
        decreases |src| - done
      {
        var n, off := (dst + done) / 4096, (dst + done) % 4096;
        var pa := MayWrite(root, n);
        if pa == None { return false, done; }
        var m := 4096 - off;
        if m > |src| - done { m := |src| - done; }
        NextChunk(dst, done, |src|);
        NotInside(tables, root, dst, |src|, done);
        AccessibleMapped(tables, root, n, true);
        UserPage(tables, root, n, true);
        FrameThere(root, n);
        OnlyFrame(root, n, pa.value);
        CopiedOutMore(tables, users, old(data), data, root, dst, src, done, m, pa.value);
        var page := Splice(data[pa.value], off, src, done, m);
        data := data[pa.value := page];
        done := done + m;
      }
      return true, done;
    }

    /** copyin: the bytes up to the first page that is not the user's. */
    method Copyin(root: nat, src: nat, len: nat) returns (ok: bool, dst: seq<nat>)
      requires Sound() && root in users && TopIsKernels(tables, root)
      requires NoInsides(tables, root, src, len)
      modifies this`tables, this`freelist, this`data, this`at, this`pos, this`other
      ensures Trees() == old(Trees()) && freelist == old(freelist) && other == old(other) && data == old(data)
      ensures |dst| <= len && (ok <==> |dst| == len)
      ensures ReadAs(tables, data, root, src, dst)
      ensures !ok ==> !Accessible(tables, root, (src + |dst|) / 4096, false)
    {
      hide Wf, Hw, Shared, Pooled, Owned, UserRoots, TopIsKernels, NoInsides, Accessible, Inside, ReadAs;
      UserRoot(Trees(), users, root);
      dst := [];
      assert ReadAs(tables, data, root, src, dst) by { ReadNone(tables, data, root, src); }
      while |dst| < len
        invariant |dst| <= len && Trees() == old(Trees()) && freelist == old(freelist) && other == old(other) &&
          data == old(data)
        invariant ReadAs(tables, data, root, src, dst)
        decreases len - |dst|
      {
        var k := |dst|;
        var n, off := (src + k) / 4096, (src + k) % 4096;
        var pa := Walkaddr(root, n);
        if pa == None { return false, dst; }
        var m := 4096 - off;
        if m > len - k { m := len - k; }
        NextChunk(src, k, len);
        NotInside(tables, root, src, len, k);
        AccessibleMapped(tables, root, n, false);
        UserPage(tables, root, n, false);
        FrameThere(root, n);
        ReadMore(tables, data, root, src, dst, m, pa.value);
        dst := dst + data[pa.value][off..off + m];
      }
      return true, dst;
    }
  }
}
