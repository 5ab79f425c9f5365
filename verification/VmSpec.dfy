/** Who has each physical page, and what changes of the page tables do to every translation. */
module VmSpec {
  import opened PageTable

  /** The bytes of a page of physical memory. */
  type Page = p: seq<nat> | |p| == 4096 ghost witness seq(4096, i => 0)

  const PHYSTOP: nat := 0x8_8000
  const NSUPERPAGES: nat := 60
  const SUPERBASE: nat := PHYSTOP - NSUPERPAGES * 512

  /** Physical memory: every page below PHYSTOP has its bytes. */
  type Data = d: map<nat, Page> | Ram(d) ghost witness map p: nat | p < PHYSTOP :: Filled(0)

  ghost predicate Ram(d: map<nat, Page>) { forall p :: 0 <= p < PHYSTOP ==> p in d }

  // ---------------------------------------------------------------- who has each physical page

  ghost function Elems(s: seq<nat>): set<nat> { set x | x in s }

  ghost predicate Distinct(s: seq<nat>) { forall i, j :: 0 <= i < j < |s| ==> s[i] != s[j] }

  /** Each page handed to kalloc.c is on exactly one of: the free list, the page tables, the user leaves, or in use
      elsewhere (by the caller of kalloc, a trap frame, a pipe, ...). */
  ghost predicate Shared(all: set<nat>, freelist: seq<nat>, tables: set<nat>, frames: set<nat>, other: set<nat>) {
    && Distinct(freelist) && 0 !in all && (forall p :: p in all ==> p < SUPERBASE)
    && Elems(freelist) + tables + frames + other == all
    && Elems(freelist) !! tables && Elems(freelist) !! frames && Elems(freelist) !! other
    && tables !! frames && tables !! other && frames !! other
  }

  lemma TakeFree(all: set<nat>, freelist: seq<nat>, tables: set<nat>, frames: set<nat>, other: set<nat>)
    requires Shared(all, freelist, tables, frames, other) && |freelist| > 0
    ensures Shared(all, freelist[1..], tables, frames, other + {freelist[0]})
    ensures freelist[0] in all && freelist[0] !in tables && freelist[0] !in frames && freelist[0] !in other
  {
    assert Elems(freelist) == Elems(freelist[1..]) + {freelist[0]};
  }

  lemma GiveFree(all: set<nat>, freelist: seq<nat>, tables: set<nat>, frames: set<nat>, other: set<nat>, p: nat)
    requires Shared(all, freelist, tables, frames, other) && p in other
    ensures Shared(all, [p] + freelist, tables, frames, other - {p})
  {
    assert Elems([p] + freelist) == Elems(freelist) + {p};
  }

  lemma ToTable(all: set<nat>, freelist: seq<nat>, tables: set<nat>, frames: set<nat>, other: set<nat>, p: nat)
    requires Shared(all, freelist, tables, frames, other) && p in other
    ensures p !in tables && Shared(all, freelist, tables + {p}, frames, other - {p})
  {}

  lemma ToFrame(all: set<nat>, freelist: seq<nat>, tables: set<nat>, frames: set<nat>, other: set<nat>, p: nat)
    requires Shared(all, freelist, tables, frames, other) && p in other
    ensures p !in frames && Shared(all, freelist, tables, frames + {p}, other - {p})
  {}

  lemma FromFrame(all: set<nat>, freelist: seq<nat>, tables: set<nat>, frames: set<nat>, other: set<nat>, p: nat)
    requires Shared(all, freelist, tables, frames, other) && p in frames
    ensures Shared(all, freelist, tables, frames - {p}, other + {p})
  {}

  lemma FromTable(all: set<nat>, freelist: seq<nat>, tables: set<nat>, frames: set<nat>, other: set<nat>, p: nat)
    requires Shared(all, freelist, tables, frames, other) && p in tables
    ensures Shared(all, freelist, tables - {p}, frames, other + {p})
  {}

  /** A page of a tree. */
  datatype Spot = Spot(root: nat, n: nat)

  // ---------------------------------------------------------------- memory

  function Filled(b: nat): (p: Page)
    ensures forall i :: 0 <= i < 4096 ==> p[i] == b
  {
    seq(4096, i => b)
  }

  datatype Outcome = Done | NoMemory | Remap

  function Make(ppn: nat, perm: Pte): Pte { perm.(ppn := ppn, v := true) }

  /** What a range of pages is mapped to: nothing, consecutive 4 KiB frames, or one superpage. */
  datatype Fill = Nothing | Pages(ppn: nat, perm: Pte) | Super(ppn: nat, perm: Pte)

  ghost function Filling(fill: Fill, k: nat): (t: Option<Mapping>) {
    match fill
    case Nothing => None
    case Pages(ppn, perm) => Some(Mapping(ppn + k, Make(ppn + k, perm), 0))
    case Super(ppn, perm) => Some(Mapping(ppn + k, Make(ppn, perm), 1))
  }

  /** From f to g, pages lo up to hi of one tree got the given filling; every other page of every tree is as before. */
  ghost predicate Edit(f: Forest, g: Forest, root: nat, lo: nat, hi: nat, fill: Fill) {
    && SameRoots(f, g)
    && forall r, n :: Top(r) in f.at && 0 <= n < MAXPAGE ==>
         Hw(g.tables, r, n) == if r == root && lo <= n < hi then Filling(fill, n - lo) else Hw(f.tables, r, n)
  }

  /** The only table pages that may be new are those on the path of page n. */
  ghost predicate GrewFor(f: Forest, g: Forest, root: nat, n: nat) {
    && f.tables.Keys <= g.tables.Keys && (forall q :: q in f.at ==> q in g.at)
    && forall q :: q in g.at ==> q in f.at || q == Mid(root, Px2(n)) || q == Low(root, Px2(n), Px1(n))
  }

  /** There is a level-0 table for the 2 MiB around page n. */
  ghost predicate HasTable(f: Forest, root: nat, n: nat) { Low(root, Px2(n), Px1(n)) in f.at }

  /** The level-1 entry for page n is valid. */
  ghost predicate Occupied(f: Forest, root: nat, n: nat) {
    Mid(root, Px2(n)) in f.at && At(f, Mid(root, Px2(n))) && Entry(f, Mid(root, Px2(n)), Px1(n)).v
  }

  /** ... because a superpage is mapped there, or because a level-0 table is there, even one that maps nothing. */
  lemma OccupiedWhen(f: Forest, root: nat, n: nat)
    requires Wf(f) && Top(root) in f.at && n < MAXPAGE
    ensures Occupied(f, root, n) <==>
      HasTable(f, root, n) || (Hw(f.tables, root, n).Some? && Hw(f.tables, root, n).value.level == 1)
  {
    SlotSays(f, root, n);
    hide Placed, Px2, Px1, Px0, Hw;
    if Mid(root, Px2(n)) in f.at {
      AtAt(f, Mid(root, Px2(n)));
      HungAt(f, Mid(root, Px2(n)));
      EntryAt(f, Mid(root, Px2(n)), Px1(n));
    }
    if HasTable(f, root, n) { HungAt(f, Low(root, Px2(n), Px1(n))); }
  }

  lemma EditMore(f: Forest, g: Forest, h: Forest, root: nat, lo: nat, hi: nat, ppn: nat, perm: Pte)
    requires lo <= hi && Edit(f, g, root, lo, hi, Pages(ppn, perm)) &&
      Edit(g, h, root, hi, hi + 1, Pages(ppn + (hi - lo), perm))
    ensures Edit(f, h, root, lo, hi + 1, Pages(ppn, perm))
  {
    hide Hw;
  }

  lemma EditSame(f: Forest, g: Forest, h: Forest, root: nat, lo: nat, hi: nat, fill: Fill)
    requires Edit(f, g, root, lo, hi, fill) && SameMaps(g, h)
    ensures Edit(f, h, root, lo, hi, fill)
  {
    hide Hw;
  }

  lemma SameEdit(f: Forest, g: Forest, h: Forest, root: nat, lo: nat, hi: nat, fill: Fill)
    requires SameMaps(f, g) && Edit(g, h, root, lo, hi, fill)
    ensures Edit(f, h, root, lo, hi, fill)
  {
    hide Hw;
  }

  lemma EditNone(f: Forest, root: nat, lo: nat, fill: Fill)
    ensures Edit(f, f, root, lo, lo, fill)
  {
    hide Hw;
  }

  lemma EditAt(f: Forest, g: Forest, root: nat, lo: nat, hi: nat, fill: Fill, r: nat, n: nat)
    requires Edit(f, g, root, lo, hi, fill) && Top(r) in f.at && n < MAXPAGE
    ensures Top(r) in g.at
    ensures Hw(g.tables, r, n) == if r == root && lo <= n < hi then Filling(fill, n - lo) else Hw(f.tables, r, n)
  {
    hide Hw;
  }

  lemma TopEntry(f: Forest, r: nat, n: nat)
    requires Wf(f) && Top(r) in f.at && n < MAXPAGE
    ensures At(f, Top(r)) && Px2(n) < 512 && !(Entry(f, Top(r), Px2(n)).v && Leaf(Entry(f, Top(r), Px2(n))))
    ensures Mid(r, Px2(n)) in f.at <==> Entry(f, Top(r), Px2(n)).v
  {
    hide Placed, Px2;
    TopIndex(n);
    AtAt(f, Top(r));
    EntryAt(f, Top(r), Px2(n));
    if Mid(r, Px2(n)) in f.at { HungAt(f, Mid(r, Px2(n))); }
  }

  lemma SameAt(f: Forest, g: Forest, r: nat, n: nat)
    requires SameMaps(f, g) && Top(r) in f.at && n < MAXPAGE
    ensures Hw(g.tables, r, n) == Hw(f.tables, r, n)
  {
    hide Hw;
  }

  lemma SlotSays(f: Forest, r: nat, n: nat)
    requires Wf(f) && Top(r) in f.at && n < MAXPAGE
    ensures var s := PathSlot(f, r, n);
      Hw(f.tables, r, n) == if s.Slot? && Entry(f, s.q, s.i).v then Some(LeafAt(s.q, Entry(f, s.q, s.i), n)) else None
  {
    hide Wf;
    TranslateIsView(f, r, n);
  }

  lemma SlotIsLow(f: Forest, r: nat, n: nat)
    requires Wf(f) && Top(r) in f.at && n < MAXPAGE && PathSlot(f, r, n).Slot?
    requires !Entry(f, PathSlot(f, r, n).q, PathSlot(f, r, n).i).v
    ensures PathSlot(f, r, n) == Slot(Low(r, Px2(n), Px1(n)), Px0(n))
  {
    hide Placed, Entries, Rooted, Px0, Px1, Px2;
  }

  lemma StillRootWrote(f: Forest, g: Forest, q: Pos, i: nat, e: Pte, r: nat)
    requires Wrote(f, g, q, i, e) && Top(r) in f.at
    ensures Top(r) in g.at
  {
    hide Hw;
  }

  lemma WroteLow(f: Forest, g: Forest, root: nat, n: nat, e: Pte, fill: Fill)
    requires Wrote(f, g, Low(root, Px2(n), Px1(n)), Px0(n), e)
    requires Filling(fill, 0) == if e.v then Some(Mapping(e.ppn, e, 0)) else None
    ensures Edit(f, g, root, n, n + 1, fill)
  {
    hide Hw;
    forall r, m | Top(r) in f.at && 0 <= m < MAXPAGE
      ensures Hw(g.tables, r, m) == if r == root && n <= m < n + 1 then Filling(fill, m - n) else Hw(f.tables, r, m)
    {
      hide Px0, Px1, Px2;
      if r == root && Px2(m) == Px2(n) && Px1(m) == Px1(n) && Px0(m) == Px0(n) { IndexesDetermine(m, n); }
    }
  }

  lemma WroteOnePage(f: Forest, g: Forest, root: nat, n: nat, ppn: nat, perm: Pte)
    requires Wrote(f, g, Low(root, Px2(n), Px1(n)), Px0(n), Make(ppn, perm))
    ensures Edit(f, g, root, n, n + 1, Pages(ppn, perm))
  {
    hide Wrote, Edit;
    WroteLow(f, g, root, n, Make(ppn, perm), Pages(ppn, perm));
  }

  lemma Block(n: nat, m: nat)
    requires n % 512 == 0
    ensures n <= m < n + 512 <==> n / 512 == m / 512
    ensures n <= m < n + 512 ==> Px0(m) == m - n
  {}

  lemma WroteMid(f: Forest, g: Forest, root: nat, n: nat, e: Pte, fill: Fill)
    requires Wrote(f, g, Mid(root, Px2(n)), Px1(n), e) && n % 512 == 0
    requires fill == if e.v then Super(e.ppn, e) else Nothing
    ensures Edit(f, g, root, n, n + 512, fill)
  {
    hide Hw;
    forall r, m | Top(r) in f.at && 0 <= m < MAXPAGE
      ensures Hw(g.tables, r, m) == if r == root && n <= m < n + 512 then Filling(fill, m - n) else Hw(f.tables, r, m)
    {
      SameSuperpage(n, m);
      Block(n, m);
      hide Px0, Px1, Px2;
    }
  }

  function Px(level: nat, n: nat): (i: nat)
    requires level <= 2
  {
    if level == 2 then Px2(n) else if level == 1 then Px1(n) else Px0(n)
  }

  /** The place of the table of a level on the path of page n. */
  ghost function PlaceOf(root: nat, n: nat, level: nat): (q: Pos)
    requires level <= 2
  {
    if level == 2 then Top(root) else if level == 1 then Mid(root, Px2(n)) else Low(root, Px2(n), Px1(n))
  }

  lemma StillRoot(f: Forest, g: Forest, r: nat)
    requires SameMaps(f, g) && Top(r) in f.at
    ensures Top(r) in g.at
  {
    hide Hw;
  }

  lemma PopFree(d: Data, l: seq<nat>, page: Page)
    requires |l| > 0
    ensures SameData(d, d[l[0] := page], l) && Taken(l, l[1..])
  {}

  lemma RootPage(f: Forest, r: nat)
    requires Wf(f) && Top(r) in f.at
    ensures At(f, Top(r)) && f.at[Top(r)] == r
  {
    hide Entries, Rooted;
  }

  lemma LeafHere(f: Forest, root: nat, n: nat, level: nat)
    requires Wf(f) && Top(root) in f.at && n < MAXPAGE && 1 <= level <= 2
    requires var q := PlaceOf(root, n, level);
      At(f, q) && Px(level, n) < 512 && Entry(f, q, Px(level, n)).v && Leaf(Entry(f, q, Px(level, n)))
    ensures PathSlot(f, root, n) == Slot(PlaceOf(root, n, level), Px(level, n))
  {
    hide Placed, Px0, Px1, Px2;
    if level == 2 { EntryAt(f, Top(root), Px2(n)); } else { HungAt(f, Mid(root, Px2(n))); }
  }

  lemma NothingHere(f: Forest, root: nat, n: nat, level: nat)
    requires Wf(f) && Top(root) in f.at && n < MAXPAGE && 1 <= level <= 2
    requires var q := PlaceOf(root, n, level); At(f, q) && Px(level, n) < 512 && !Entry(f, q, Px(level, n)).v
    ensures PathSlot(f, root, n) == Missing
  {
    hide Placed, Px0, Px1, Px2;
  }

  lemma LowHere(f: Forest, root: nat, n: nat)
    requires Wf(f) && Top(root) in f.at && n < MAXPAGE && Low(root, Px2(n), Px1(n)) in f.at
    ensures PathSlot(f, root, n) == Slot(Low(root, Px2(n), Px1(n)), Px0(n))
  {
    hide Placed, Px0, Px1, Px2;
    HungAt(f, Low(root, Px2(n), Px1(n)));
    HungAt(f, Mid(root, Px2(n)));
  }

  /** Only pages that were free are written. */
  ghost predicate SameData(d: Data, d': Data, freelist: seq<nat>) {
    && (forall p :: p in d && p !in freelist ==> p in d' && d'[p] == d[p])
    && (forall p :: p in d' && p !in freelist ==> p in d)
  }

  /** Pages only leave the free list. */
  ghost predicate Taken(l: seq<nat>, l': seq<nat>) { forall p :: p in l' ==> p in l }

  lemma Reflexive(f: Forest, d: Data, l: seq<nat>)
    ensures SameMaps(f, f) && SameData(d, d, l) && Taken(l, l)
  {}

  lemma GrewOnPath(f: Forest, g: Forest, root: nat, n: nat, c: Pos)
    requires c == Mid(root, Px2(n)) || c == Low(root, Px2(n), Px1(n))
    requires f.tables.Keys <= g.tables.Keys && (forall q :: q in f.at ==> q in g.at) &&
      forall q :: q in g.at ==> q in f.at || q == c
    ensures GrewFor(f, g, root, n)
  {}

  lemma GrewNone(f: Forest, root: nat, n: nat)
    ensures GrewFor(f, f, root, n)
  {}

  lemma ChainData(d: Data, e: Data, e': Data, l: seq<nat>, m: seq<nat>, m': seq<nat>)
    requires SameData(d, e, l) && SameData(e, e', m) && Taken(l, m) && Taken(m, m')
    ensures SameData(d, e', l) && Taken(l, m')
  {}

  lemma AtWf(f: Forest, q: Pos)
    requires Wf(f) && q in f.at
    ensures At(f, q)
  {
    hide Entries, Rooted;
  }

  lemma WroteSuper(f: Forest, g: Forest, root: nat, n: nat, ppn: nat, perm: Pte)
    requires Wrote(f, g, Mid(root, Px2(n)), Px1(n), Make(ppn, perm)) && n % 512 == 0
    ensures Edit(f, g, root, n, n + 512, Super(ppn, perm))
  {
    hide Wrote, Hw;
    WroteMid(f, g, root, n, Make(ppn, perm), Super(ppn, Make(ppn, perm)));
  }

  lemma GrewMore(f: Forest, g: Forest, h: Forest, root: nat, n: nat)
    requires GrewFor(f, g, root, n) && GrewFor(g, h, root, n)
    ensures GrewFor(f, h, root, n)
  {}

  lemma Chain(f: Forest, g: Forest, h: Forest, d: Data, e: Data, e': Data, l: seq<nat>, m: seq<nat>, m': seq<nat>)
    requires SameMaps(f, g) && SameMaps(g, h) && SameData(d, e, l) && SameData(e, e', m) && Taken(l, m) && Taken(m, m')
    ensures SameMaps(f, h) && SameData(d, e', l) && Taken(l, m')
  {
    hide Hw;
  }

  lemma PageAt(f: Forest, q: Pos)
    requires At(f, q)
    ensures f.at[q] in f.tables && |f.tables[f.at[q]]| == 512
  {}

  lemma FreshTable(f: Forest, g: Forest, c: Pos, i: nat)
    requires Wf(f) && HasParent(c) && At(f, Parent(c)) && IndexIn(c) < 512 && c !in f.at && i < 512 && c in g.at
    requires exists p :: p !in f.tables && g == Grow(f, c, p)
    ensures At(g, c) && !Entry(g, c, i).v
  {
    var p :| p !in f.tables && g == Grow(f, c, p);
    GrowEntries(f, c, p);
  }

  lemma AfterGrow(f: Forest, c: Pos, p: nat)
    requires Wf(f) && HasParent(c) && At(f, Parent(c)) && IndexIn(c) < 512 && p !in f.tables &&
      !Entry(f, Parent(c), IndexIn(c)).v
    ensures var g := Grow(f, c, p);
      At(g, Parent(c)) && g.at[Parent(c)] == f.at[Parent(c)] && At(g, c) && g.at[c] == p &&
        Entry(g, Parent(c), IndexIn(c)) == Pointer(p)
  {
    Vacant(f, c);
    GrowEntries(f, c, p);
  }
}
