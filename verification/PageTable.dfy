/** Page-table entries as bits (kernel/riscv.h): what the macros put in, they give back. */
module PteBits {
  const PTE_V: bv64 := 1
  const PXMASK: bv64 := 0x1FF

  function Pa2Pte(pa: bv64): bv64 { (pa >> 12) << 10 }

  function Pte2Pa(pte: bv64): bv64 { (pte >> 10) << 12 }

  function PteFlags(pte: bv64): bv64 { pte & 0x3FF }

  function Px(level: bv64, va: bv64): bv64
    requires level <= 2
  {
    if level == 0 then (va >> 12) & PXMASK else if level == 1 then (va >> 21) & PXMASK else (va >> 30) & PXMASK
  }

  /** An entry built for a page-aligned 56-bit address holds that address and exactly the given flags. */
  lemma PteRoundTrip(pa: bv64, perm: bv64)
    requires pa & 0xFFF == 0 && pa >> 56 == 0 && perm >> 10 == 0
    ensures Pte2Pa(Pa2Pte(pa) | perm | PTE_V) == pa
    ensures PteFlags(Pa2Pte(pa) | perm | PTE_V) == perm | PTE_V
  {}

  /** The three indexes and the page offset determine a virtual address below 2^39. */
  lemma VaRoundTrip(va: bv64)
    requires va >> 39 == 0
    ensures va == (Px(2, va) << 30) | (Px(1, va) << 21) | (Px(0, va) << 12) | (va & 0xFFF)
    ensures Px(0, va) < 512 && Px(1, va) < 512 && Px(2, va) < 512
  {}
}

/** Sv39 page tables with 4 KiB and 2 MiB leaves: the translation the hardware does, the trees kernel/vm.c builds,
    and what one change of an entry does to the translation of every page. */
module PageTable {

  // ---------------------------------------------------------------- entries and indexes

  /** A page-table entry; the G, A, D and software bits are zero. */
  datatype Pte = Pte(ppn: nat, v: bool, r: bool, w: bool, x: bool, u: bool)

  const ZERO := Pte(0, false, false, false, false, false)

  predicate Leaf(e: Pte) { e.r || e.w || e.x }

  /** Page number n as three indexes (PX of n * 4096). */
  function Px2(n: nat): nat { n / 262144 }

  function Px1(n: nat): (i: nat)
    ensures i < 512
  {
    n / 512 % 512
  }

  function Px0(n: nat): (i: nat)
    ensures i < 512
  {
    n % 512
  }

  const MAXPAGE: nat := 0x400_0000

  lemma IndexesDetermine(n: nat, m: nat)
    requires Px2(n) == Px2(m) && Px1(n) == Px1(m) && Px0(n) == Px0(m)
    ensures n == m
  {
    assert n == n / 512 * 512 + n % 512 && m == m / 512 * 512 + m % 512;
    assert n / 512 / 512 == n / 262144 && m / 512 / 512 == m / 262144;
  }

  lemma SameSuperpage(n: nat, m: nat)
    ensures n / 512 == m / 512 <==> Px2(n) == Px2(m) && Px1(n) == Px1(m)
  {
    assert n / 512 / 512 == n / 262144 && m / 512 / 512 == m / 262144;
  }

  lemma TopIndex(n: nat)
    requires n < MAXPAGE
    ensures Px2(n) < 256
  {}

  // ---------------------------------------------------------------- the hardware

  datatype Option<T> = None | Some(value: T)

  /** Where a page is, the entry that says so, and that entry's level. */
  datatype Mapping = Mapping(frame: nat, pte: Pte, level: nat)

  function Pow512(level: nat): (p: nat)
    ensures p > 0
  {
    if level == 0 then 1 else 512 * Pow512(level - 1)
  }

  /** Section 4.3.2 of the RISC-V Privileged Architecture (20211203) with the Sv39 parameters of section 4.4,
      for the page numbers kernel/vm.c uses (below MAXVA). None is a page fault. */
  ghost function Translate(tables: map<nat, seq<Pte>>, a: nat, level: nat, n: nat): (t: Option<Mapping>)
    decreases level
  {
    var i := if level == 2 then Px2(n) else if level == 1 then Px1(n) else Px0(n);
    if a !in tables || i >= |tables[a]| then None else
    var e := tables[a][i];
    if !e.v || (!e.r && e.w) then None
    else if e.r || e.x then
      if e.ppn % Pow512(level) != 0 then None else Some(Mapping(e.ppn + n % Pow512(level), e, level))
    else if level == 0 then None
    else Translate(tables, e.ppn, level - 1, n)
  }

  ghost function Hw(tables: map<nat, seq<Pte>>, r: nat, n: nat): (t: Option<Mapping>) { Translate(tables, r, 2, n) }

  // ---------------------------------------------------------------- trees

  /** The place of a table page: the root of a tree, or the page for one index, or for two. */
  datatype Pos = Top(root: nat) | Mid(root: nat, i2: nat) | Low(root: nat, i2: nat, i1: nat)

  /** All table pages, with the page at each place and the place of each page. */
  datatype Forest = Forest(tables: map<nat, seq<Pte>>, at: map<Pos, nat>, pos: map<nat, Pos>)

  /** Every table page has 512 entries and one place: trees neither share nor leak pages. */
  ghost predicate Placed(f: Forest) {
    && (forall p :: p in f.tables ==> |f.tables[p]| == 512)
    && (forall q :: q in f.at ==> f.at[q] in f.tables && f.at[q] in f.pos && f.pos[f.at[q]] == q)
    && (forall p :: p in f.tables ==> p in f.pos && f.pos[p] in f.at && f.at[f.pos[p]] == p)
    && (forall r :: Top(r) in f.at ==> f.at[Top(r)] == r)
  }

  ghost predicate At(f: Forest, q: Pos) { q in f.at && f.at[q] in f.tables && |f.tables[f.at[q]]| == 512 }

  ghost function Entry(f: Forest, q: Pos, i: nat): Pte
    requires At(f, q) && i < 512
  {
    f.tables[f.at[q]][i]
  }

  /** A valid entry of the page at q is a leaf the level allows or points at the page of the next place. */
  ghost predicate EntryOk(f: Forest, q: Pos, i: nat)
    requires At(f, q) && i < 512
  {
    var e := Entry(f, q, i);
    e.v ==>
      match q
      case Top(r) => i < 256 && !Leaf(e) && Mid(r, i) in f.at && e.ppn == f.at[Mid(r, i)]
      case Mid(r, i2) =>
        if Leaf(e) then e.r && e.ppn % 512 == 0 else Low(r, i2, i) in f.at && e.ppn == f.at[Low(r, i2, i)]
      case Low(_, _, _) => e.r
  }

  ghost predicate Entries(f: Forest) { forall q, i :: At(f, q) && 0 <= i < 512 ==> EntryOk(f, q, i) }

  /** Every page but a root hangs off a valid pointer of its parent. */
  ghost predicate Hung(f: Forest, q: Pos) {
    match q
    case Top(r) => true
    case Mid(r, i2) => i2 < 512 && At(f, Top(r)) && Entry(f, Top(r), i2).v
    case Low(r, i2, i1) =>
      i1 < 512 && At(f, Mid(r, i2)) && Entry(f, Mid(r, i2), i1).v && !Leaf(Entry(f, Mid(r, i2), i1))
  }

  ghost predicate Rooted(f: Forest) { forall q :: q in f.at ==> Hung(f, q) }

  ghost predicate Wf(f: Forest) { Placed(f) && Entries(f) && Rooted(f) }

  lemma AtAt(f: Forest, q: Pos)
    requires Placed(f) && q in f.at
    ensures At(f, q)
  {}

  lemma EntryAt(f: Forest, q: Pos, i: nat)
    requires Entries(f) && At(f, q) && i < 512
    ensures EntryOk(f, q, i)
  {}

  lemma HungAt(f: Forest, q: Pos)
    requires Rooted(f) && q in f.at
    ensures Hung(f, q)
  {}

  lemma Apart(f: Forest, p: Pos, q: Pos)
    requires Placed(f) && p in f.at && q in f.at && p != q
    ensures f.at[p] != f.at[q]
  {}

  // ---------------------------------------------------------------- what walk finds

  datatype Slot = Missing | Slot(q: Pos, i: nat)

  /** The entry for page n: the level-1 entry when it is a leaf, else the level-0 entry, if there is a table for it. */
  ghost function PathSlot(f: Forest, r: nat, n: nat): (s: Slot)
    requires Wf(f) && Top(r) in f.at && n < MAXPAGE
    ensures s.Slot? ==> At(f, s.q) && s.i < 512 && !s.q.Top?
  {
    hide Placed, Rooted, Entries, Px2, Px1, Px0;
    TopIndex(n);
    AtAt(f, Top(r));
    EntryAt(f, Top(r), Px2(n));
    if !Entry(f, Top(r), Px2(n)).v then Missing else
    var q1 := Mid(r, Px2(n));
    AtAt(f, q1);
    EntryAt(f, q1, Px1(n));
    var e1 := Entry(f, q1, Px1(n));
    if !e1.v then Missing
    else if Leaf(e1) then Slot(q1, Px1(n))
    else AtAt(f, Low(r, Px2(n), Px1(n))); Slot(Low(r, Px2(n), Px1(n)), Px0(n))
  }

  /** The mapping a leaf e in the page at q gives to page n. */
  ghost function LeafAt(q: Pos, e: Pte, n: nat): Mapping {
    if q.Mid? then Mapping(e.ppn + Px0(n), e, 1) else Mapping(e.ppn, e, 0)
  }

  /** The translation of page n read off the tree. */
  ghost function View(f: Forest, r: nat, n: nat): (t: Option<Mapping>)
    requires Wf(f) && Top(r) in f.at && n < MAXPAGE
  {
    var s := PathSlot(f, r, n);
    if s == Missing || !Entry(f, s.q, s.i).v then None
    else Some(LeafAt(s.q, Entry(f, s.q, s.i), n))
  }

  /** walk finds the entry the hardware would use: the hardware's translation is the one read off the tree. */
  lemma TranslateIsView(f: Forest, r: nat, n: nat)
    requires Wf(f) && Top(r) in f.at && n < MAXPAGE
    ensures Hw(f.tables, r, n) == View(f, r, n)
  {
    hide Placed, Rooted, Entries, Px2, Px1;
    TopIndex(n);
    AtAt(f, Top(r));
    EntryAt(f, Top(r), Px2(n));
    assert f.at[Top(r)] == r by { RootAt(f, r); }
    if Entry(f, Top(r), Px2(n)).v {
      var q1 := Mid(r, Px2(n));
      AtAt(f, q1);
      EntryAt(f, q1, Px1(n));
      var e1 := Entry(f, q1, Px1(n));
      assert Pow512(1) == 512;
      if e1.v && !Leaf(e1) {
        var q0 := Low(r, Px2(n), Px1(n));
        AtAt(f, q0);
        EntryAt(f, q0, Px0(n));
      }
    }
  }

  lemma RootAt(f: Forest, r: nat)
    requires Placed(f) && Top(r) in f.at
    ensures f.at[Top(r)] == r
  {}

  // ---------------------------------------------------------------- writing an entry

  ghost function Set(f: Forest, q: Pos, i: nat, e: Pte): (g: Forest)
    requires At(f, q) && i < 512
  {
    f.(tables := f.tables[f.at[q] := f.tables[f.at[q]][i := e]])
  }

  /** An entry that may be written into the page at q: invalid, or a leaf of that level. */
  ghost predicate Writable(q: Pos, e: Pte) {
    !q.Top? && (e.v ==> e.r && (q.Mid? ==> e.ppn % 512 == 0))
  }

  /** Slot (q, i) is on the path of page n of tree r. */
  ghost predicate Through(q: Pos, i: nat, r: nat, n: nat) {
    match q
    case Top(a) => a == r && Px2(n) == i
    case Mid(a, i2) => a == r && Px2(n) == i2 && Px1(n) == i
    case Low(a, i2, i1) => a == r && Px2(n) == i2 && Px1(n) == i1 && Px0(n) == i
  }

  lemma SetEntries(f: Forest, q: Pos, i: nat, e: Pte)
    requires Placed(f) && At(f, q) && i < 512
    ensures Placed(Set(f, q, i, e)) && Set(f, q, i, e).at == f.at
    ensures forall p :: At(Set(f, q, i, e), p) <==> At(f, p)
    ensures forall p, j :: At(f, p) && 0 <= j < 512 ==>
      Entry(Set(f, q, i, e), p, j) == if p == q && j == i then e else Entry(f, p, j)
  {
    var g := Set(f, q, i, e);
    forall p, j | At(f, p) && 0 <= j < 512 ensures Entry(g, p, j) == if p == q && j == i then e else Entry(f, p, j) {
      if p != q { Apart(f, p, q); }
    }
  }

  /** Overwriting an invalid entry or a leaf keeps the trees well formed. */
  lemma SetWf(f: Forest, q: Pos, i: nat, e: Pte)
    requires Wf(f) && At(f, q) && i < 512 && Writable(q, e)
    requires !Entry(f, q, i).v || Leaf(Entry(f, q, i)) || q.Low?
    ensures Wf(Set(f, q, i, e))
  {
    hide Placed;
    SetEntries(f, q, i, e);
    var g := Set(f, q, i, e);
    hide Entry, Set, At;
    forall p, j | At(g, p) && 0 <= j < 512 ensures EntryOk(g, p, j) { EntryAt(f, p, j); }
    forall p | p in g.at ensures Hung(g, p) { HungAt(f, p); }
  }

  /** ... and changes the translation of exactly the pages whose path goes through it. */
  lemma SetView(f: Forest, q: Pos, i: nat, e: Pte, r: nat, n: nat)
    requires Wf(f) && At(f, q) && i < 512 && Writable(q, e) && Wf(Set(f, q, i, e)) && Top(r) in f.at && n < MAXPAGE
    requires !Entry(f, q, i).v || Leaf(Entry(f, q, i)) || q.Low?
    ensures View(Set(f, q, i, e), r, n) ==
      if !Through(q, i, r, n) then View(f, r, n)
      else if e.v then Some(LeafAt(q, e, n)) else None
  {
    hide Placed, Entries, Rooted, Px0, Px1, Px2;
    var g := Set(f, q, i, e);
    SetEntries(f, q, i, e);
    HungAt(f, q);
    if q.Low? { HungAt(f, Mid(q.root, q.i2)); }
    hide Entry, Set, At;
    TopIndex(n);
    AtAt(f, Top(r));
    EntryAt(f, Top(r), Px2(n));
    if Entry(f, Top(r), Px2(n)).v {
      AtAt(f, Mid(r, Px2(n)));
      EntryAt(f, Mid(r, Px2(n)), Px1(n));
    }
  }

  // ---------------------------------------------------------------- adding and removing a table page

  ghost predicate HasParent(q: Pos) { !q.Top? }

  ghost function Parent(q: Pos): Pos
    requires HasParent(q)
  {
    match q
    case Mid(r, i2) => Top(r)
    case Low(r, i2, i1) => Mid(r, i2)
  }

  ghost function IndexIn(q: Pos): nat
    requires HasParent(q)
  {
    match q
    case Mid(r, i2) => i2
    case Low(r, i2, i1) => i1
  }

  function EmptyTable(): (t: seq<Pte>)
    ensures |t| == 512
    ensures forall i :: 0 <= i < 512 ==> t[i] == ZERO
  {
    seq(512, i => ZERO)
  }

  function Pointer(page: nat): Pte { Pte(page, true, false, false, false, false) }

  /** Linking a zeroed page in as the child at q. */
  ghost function Grow(f: Forest, q: Pos, page: nat): (g: Forest)
    requires HasParent(q) && At(f, Parent(q)) && IndexIn(q) < 512
  {
    var h := Set(f, Parent(q), IndexIn(q), Pointer(page));
    Forest(h.tables[page := EmptyTable()], f.at[q := page], f.pos[page := q])
  }

  lemma GrowEntries(f: Forest, q: Pos, page: nat)
    requires Placed(f) && Rooted(f) && HasParent(q) && At(f, Parent(q)) && IndexIn(q) < 512 && page !in f.tables &&
      q !in f.at
    ensures Placed(Grow(f, q, page)) && Grow(f, q, page).at == f.at[q := page]
    ensures forall p :: At(Grow(f, q, page), p) <==> p == q || At(f, p)
    ensures forall j :: 0 <= j < 512 ==> Entry(Grow(f, q, page), q, j) == ZERO
    ensures forall p, j :: At(f, p) && 0 <= j < 512 ==>
      Entry(Grow(f, q, page), p, j) == if p == Parent(q) && j == IndexIn(q) then Pointer(page) else Entry(f, p, j)
  {
    hide EmptyTable, Rooted;
    var g := Grow(f, q, page);
    forall p, j | At(f, p) && 0 <= j < 512
      ensures Entry(g, p, j) == if p == Parent(q) && j == IndexIn(q) then Pointer(page) else Entry(f, p, j)
    {
      if p != Parent(q) { Apart(f, p, Parent(q)); }
    }
  }

  /** A place whose parent's entry is not a valid pointer is empty, so a page can be linked in there. */
  lemma Vacant(f: Forest, q: Pos)
    requires Rooted(f) && HasParent(q) && At(f, Parent(q)) && IndexIn(q) < 512
    requires !Entry(f, Parent(q), IndexIn(q)).v || (q.Low? && Leaf(Entry(f, Parent(q), IndexIn(q))))
    ensures q !in f.at
  {
    if q in f.at { HungAt(f, q); }
  }

  lemma GrowWf(f: Forest, q: Pos, page: nat)
    requires Wf(f) && HasParent(q) && At(f, Parent(q)) && IndexIn(q) < (if q.Mid? then 256 else 512) &&
      page !in f.tables
    requires !Entry(f, Parent(q), IndexIn(q)).v
    ensures Wf(Grow(f, q, page)) && q !in f.at
  {
    Vacant(f, q);
    hide Placed;
    GrowEntries(f, q, page);
    var g := Grow(f, q, page);
    hide Entry, Grow, At;
    forall p, j | At(g, p) && 0 <= j < 512 ensures EntryOk(g, p, j) {
      if p != q { EntryAt(f, p, j); GrowAt(f, g, q, page, p, j); }
    }
    forall p | p in g.at ensures Hung(g, p) { if p != q { HungAt(f, p); } }
  }

  lemma GrowAt(f: Forest, g: Forest, q: Pos, page: nat, p: Pos, j: nat)
    requires HasParent(q) && At(f, p) && At(g, p) && j < 512 && EntryOk(f, p, j) && q !in f.at &&
      g.at == f.at[q := page]
    requires IndexIn(q) < (if q.Mid? then 256 else 512)
    requires Entry(g, p, j) == if p == Parent(q) && j == IndexIn(q) then Pointer(page) else Entry(f, p, j)
    ensures EntryOk(g, p, j)
  {
    hide Entry, At;
  }

  /** Adding a table page maps nothing and unmaps nothing. */
  lemma GrowView(f: Forest, q: Pos, page: nat, r: nat, n: nat)
    requires Wf(f) && HasParent(q) && At(f, Parent(q)) && IndexIn(q) < 512 && page !in f.tables
    requires !Entry(f, Parent(q), IndexIn(q)).v && Wf(Grow(f, q, page)) && Top(r) in f.at && n < MAXPAGE
    ensures View(Grow(f, q, page), r, n) == View(f, r, n)
  {
    Vacant(f, q);
    hide Placed, Entries, Rooted, Px0, Px1, Px2;
    var g := Grow(f, q, page);
    GrowEntries(f, q, page);
    hide Entry, Grow, At;
    TopIndex(n);
    AtAt(f, Top(r));
    EntryAt(f, Top(r), Px2(n));
    if Entry(f, Top(r), Px2(n)).v {
      AtAt(f, Mid(r, Px2(n)));
      EntryAt(f, Mid(r, Px2(n)), Px1(n));
    }
  }

  // ---------------------------------------------------------------- the same, for all trees and pages at once

  ghost predicate SameRoots(f: Forest, g: Forest) { forall r :: Top(r) in f.at <==> Top(r) in g.at }

  ghost predicate SameMaps(f: Forest, g: Forest) {
    SameRoots(f, g) && forall r, n :: Top(r) in f.at && 0 <= n < MAXPAGE ==> Hw(g.tables, r, n) == Hw(f.tables, r, n)
  }

  /** From f to g exactly the pages through slot (q, i) changed, to what entry e says. */
  ghost predicate Wrote(f: Forest, g: Forest, q: Pos, i: nat, e: Pte) {
    && SameRoots(f, g)
    && forall r, n :: Top(r) in f.at && 0 <= n < MAXPAGE ==>
         Hw(g.tables, r, n) ==
           if !Through(q, i, r, n) then Hw(f.tables, r, n) else if e.v then Some(LeafAt(q, e, n)) else None
  }

  lemma GrowKeepsMaps(f: Forest, q: Pos, page: nat)
    requires Wf(f) && HasParent(q) && At(f, Parent(q)) && IndexIn(q) < (if q.Mid? then 256 else 512) &&
      page !in f.tables
    requires !Entry(f, Parent(q), IndexIn(q)).v
    ensures Wf(Grow(f, q, page)) && SameMaps(f, Grow(f, q, page))
  {
    var g := Grow(f, q, page);
    GrowWf(f, q, page);
    hide Wf, At, Grow, Hw, View, Entry;
    GrowRoots(f, q, page);
    forall r, n | Top(r) in f.at && 0 <= n < MAXPAGE ensures Hw(g.tables, r, n) == Hw(f.tables, r, n) {
      GrowView(f, q, page, r, n);
      TranslateIsView(f, r, n);
      TranslateIsView(g, r, n);
    }
  }

  lemma GrowRoots(f: Forest, q: Pos, page: nat)
    requires HasParent(q) && At(f, Parent(q)) && IndexIn(q) < 512
    ensures SameRoots(f, Grow(f, q, page))
  {}

  lemma SetChanges(f: Forest, q: Pos, i: nat, e: Pte)
    requires Wf(f) && At(f, q) && i < 512 && Writable(q, e)
    requires !Entry(f, q, i).v || Leaf(Entry(f, q, i)) || q.Low?
    ensures Wf(Set(f, q, i, e)) && Wrote(f, Set(f, q, i, e), q, i, e)
  {
    var g := Set(f, q, i, e);
    SetWf(f, q, i, e);
    hide Wf, At, Hw, View, Entry, Writable, Leaf, Through, LeafAt;
    assert g.at == f.at;
    hide Set;
    forall r, n | Top(r) in f.at && 0 <= n < MAXPAGE
      ensures Hw(g.tables, r, n) ==
        if !Through(q, i, r, n) then Hw(f.tables, r, n) else if e.v then Some(LeafAt(q, e, n)) else None
    {
      SetView(f, q, i, e, r, n);
      TranslateIsView(f, r, n);
      TranslateIsView(g, r, n);
    }
  }

  /** An empty root page (uvmcreate). */
  ghost function Plant(f: Forest, page: nat): (g: Forest) {
    Forest(f.tables[page := EmptyTable()], f.at[Top(page) := page], f.pos[page := Top(page)])
  }

  lemma PlantEntries(f: Forest, page: nat)
    requires Placed(f) && page !in f.tables
    ensures Top(page) !in f.at && Placed(Plant(f, page))
    ensures forall p :: At(Plant(f, page), p) <==> p == Top(page) || At(f, p)
    ensures forall j :: 0 <= j < 512 ==> Entry(Plant(f, page), Top(page), j) == ZERO
    ensures forall p, j :: At(f, p) && 0 <= j < 512 ==> Entry(Plant(f, page), p, j) == Entry(f, p, j)
  {
    hide EmptyTable;
  }

  lemma PlantWf(f: Forest, page: nat)
    requires Wf(f) && page !in f.tables
    ensures Wf(Plant(f, page))
  {
    hide Placed;
    PlantEntries(f, page);
    var g := Plant(f, page);
    hide Entry, At;
    forall p, j | At(g, p) && 0 <= j < 512 ensures EntryOk(g, p, j) { if p != Top(page) { EntryAt(f, p, j); } }
    forall p | p in g.at ensures Hung(g, p) { if p != Top(page) { HungAt(f, p); } }
  }

  /** A new tree maps nothing and the other trees are as before. */
  lemma PlantMaps(f: Forest, page: nat, r: nat, n: nat)
    requires Wf(f) && page !in f.tables && (Top(r) in f.at || r == page) && n < MAXPAGE
    ensures Wf(Plant(f, page))
    ensures Hw(Plant(f, page).tables, r, n) == if r == page then None else Hw(f.tables, r, n)
  {
    PlantWf(f, page);
    var g := Plant(f, page);
    TranslateIsView(g, r, n);
    if r != page { TranslateIsView(f, r, n); }
    hide Placed, Entries, Rooted, Px0, Px1, Px2, Hw;
    PlantEntries(f, page);
    hide Entry, At;
    TopIndex(n);
    AtAt(g, Top(r));
    if r != page {
      AtAt(f, Top(r));
      EntryAt(f, Top(r), Px2(n));
      if Entry(f, Top(r), Px2(n)).v {
        AtAt(f, Mid(r, Px2(n)));
        EntryAt(f, Mid(r, Px2(n)), Px1(n));
      }
    }
  }

  // ---------------------------------------------------------------- taking a page out

  ghost predicate Childless(f: Forest, q: Pos) { At(f, q) && forall i :: 0 <= i < 512 ==> !Entry(f, q, i).v }

  /** The page at q is gone, but its parent's entry still points at it. */
  ghost function Cut(f: Forest, q: Pos): (g: Forest)
    requires At(f, q)
  {
    Forest(f.tables - {f.at[q]}, f.at - {q}, f.pos - {f.at[q]})
  }

  /** The page at q is gone and so is its parent's entry. */
  ghost function Prune(f: Forest, q: Pos): (g: Forest)
    requires At(f, q) && (HasParent(q) ==> At(f, Parent(q)) && IndexIn(q) < 512)
  {
    if q.Top? then Cut(f, q) else Cut(Set(f, Parent(q), IndexIn(q), ZERO), q)
  }

  lemma CutEntries(f: Forest, q: Pos)
    requires Placed(f) && At(f, q)
    ensures Placed(Cut(f, q))
    ensures forall p :: At(Cut(f, q), p) <==> p != q && At(f, p)
    ensures forall p, j :: At(f, p) && p != q && 0 <= j < 512 ==> Entry(Cut(f, q), p, j) == Entry(f, p, j)
  {
    forall p | p in f.at && p != q ensures f.at[p] != f.at[q] { Apart(f, p, q); }
  }

  lemma PruneEntries(f: Forest, q: Pos)
    requires Placed(f) && At(f, q) && (HasParent(q) ==> At(f, Parent(q)) && IndexIn(q) < 512)
    ensures Placed(Prune(f, q))
    ensures forall p :: At(Prune(f, q), p) <==> p != q && At(f, p)
    ensures forall p, j :: At(f, p) && p != q && 0 <= j < 512 ==>
      Entry(Prune(f, q), p, j) == if HasParent(q) && p == Parent(q) && j == IndexIn(q) then ZERO else Entry(f, p, j)
  {
    hide Placed, Entry, At;
    if q.Top? {
      CutEntries(f, q);
    } else {
      SetEntries(f, Parent(q), IndexIn(q), ZERO);
      CutEntries(Set(f, Parent(q), IndexIn(q), ZERO), q);
    }
  }

  lemma PruneWf(f: Forest, q: Pos)
    requires Wf(f) && Childless(f, q)
    ensures (HasParent(q) ==> At(f, Parent(q)) && IndexIn(q) < 512) && Wf(Prune(f, q))
  {
    HungAt(f, q);
    hide Placed;
    PruneEntries(f, q);
    var g := Prune(f, q);
    assert forall p :: p in g.at <==> p != q && p in f.at;
    hide Entry, At, Prune;
    forall p, j | At(g, p) && 0 <= j < 512 ensures EntryOk(g, p, j) { EntryAt(f, p, j); PruneAt(f, g, q, p, j); }
    forall p | p in g.at ensures Hung(g, p) { HungAt(f, p); }
  }

  /** Only its own parent's entry points at a page. */
  lemma PruneAt(f: Forest, g: Forest, q: Pos, p: Pos, j: nat)
    requires At(f, p) && At(g, p) && p != q && j < 512 && EntryOk(f, p, j)
    requires forall x :: x in g.at <==> x != q && x in f.at
    requires forall x :: x in g.at ==> g.at[x] == f.at[x]
    requires Entry(g, p, j) == if HasParent(q) && p == Parent(q) && j == IndexIn(q) then ZERO else Entry(f, p, j)
    ensures EntryOk(g, p, j)
  {
    hide Entry, At;
  }

  /** A tree without leaves. */
  ghost predicate NoLeaf(f: Forest, root: nat) {
    forall q, i :: At(f, q) && q.root == root && 0 <= i < 512 && Entry(f, q, i).v ==> !Leaf(Entry(f, q, i))
  }

  function PageNumber(i2: nat, i1: nat, i0: nat): nat { i2 * 262144 + i1 * 512 + i0 }

  lemma PageNumberIndexes(i2: nat, i1: nat, i0: nat)
    requires i2 < 256 && i1 < 512 && i0 < 512
    ensures var n := PageNumber(i2, i1, i0); n < MAXPAGE && Px2(n) == i2 && Px1(n) == i1 && Px0(n) == i0
  {}

  /** A tree that maps nothing has no leaves. */
  lemma NoMapsNoLeaf(f: Forest, root: nat)
    requires Wf(f) && Top(root) in f.at && forall n :: 0 <= n < MAXPAGE ==> Hw(f.tables, root, n) == None
    ensures NoLeaf(f, root)
  {
    hide Wf, Hw, Px0, Px1, Px2;
    forall q, i | At(f, q) && q.root == root && 0 <= i < 512 && Entry(f, q, i).v ensures !Leaf(Entry(f, q, i)) {
      if Leaf(Entry(f, q, i)) {
        LeafIsMapped(f, q, i);
      }
    }
  }

  lemma LeafIsMapped(f: Forest, q: Pos, i: nat)
    requires Wf(f) && At(f, q) && Top(q.root) in f.at && i < 512 && Entry(f, q, i).v && Leaf(Entry(f, q, i))
    ensures exists n :: 0 <= n < MAXPAGE && Hw(f.tables, q.root, n) != None
  {
    hide Placed, Px0, Px1, Px2, Hw, PageNumber;
    EntryAt(f, q, i);
    HungAt(f, q);
    var i2, i1, i0 := q.i2, if q.Mid? then i else q.i1, if q.Mid? then 0 else i;
    if q.Low? { HungAt(f, Mid(q.root, q.i2)); }
    EntryAt(f, Top(q.root), i2);
    PageNumberIndexes(i2, i1, i0);
    TranslateIsView(f, q.root, PageNumber(i2, i1, i0));
  }
}
