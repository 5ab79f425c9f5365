/** What growing user memory leaves behind: which pages are superpages, their permissions and their contents. */
module VmGrow {
  import opened PageTable
  import opened VmSpec
  import opened VmOwned
  import opened VmCount

  // ---------------------------------------------------------------- sizes

  function PgUp(sz: nat): (n: nat) { (sz + 4095) / 4096 }

  /** The byte tests of uvmalloc, in pages. */
  lemma Sizes(a: nat, newsz: nat)
    ensures a * 4096 < newsz <==> a < PgUp(newsz)
    ensures a * 4096 < newsz ==> (newsz - a * 4096 >= 2097152 <==> a + 512 <= newsz / 4096)
    ensures newsz / 4096 <= PgUp(newsz)
  {}

  // ---------------------------------------------------------------- growth

  /** The superpage starting at b lies between the first new page and the last whole page. */
  ghost predicate SuperBlockFits(b: nat, lo: nat, whole: nat) { b % 512 == 0 && lo <= b && b + 512 <= whole }

  /** The new pages up to hi that are mapped one by one, and those at which a superpage is mapped. */
  ghost function PlainPages(lo: nat, hi: nat, whole: nat): set<nat> {
    set n | lo <= n < hi && !SuperBlockFits(n - n % 512, lo, whole)
  }

  ghost function SuperBlocks(lo: nat, hi: nat, whole: nat): set<nat> {
    set b | lo <= b < hi && SuperBlockFits(b, lo, whole)
  }

  /** There are as many free pages as the new pages and the tables they lack, and as many free superpages. */
  ghost predicate GrowthFits(f: Forest, root: nat, lo: nat, hi: nat, whole: nat, free: nat, pool: nat) {
    && Demand(f, root, PlainPages(lo, hi, whole), SuperBlocks(lo, hi, whole)) <= free
    && |SuperBlocks(lo, hi, whole)| <= pool
  }

  lemma PagesNone(lo: nat, hi: nat, whole: nat)
    requires hi <= lo
    ensures PlainPages(lo, hi, whole) == {} && SuperBlocks(lo, hi, whole) == {}
  {}

  lemma NothingNeeded(f: Forest, root: nat)
    ensures Demand(f, root, {}, {}) == 0
  {
    assert TablesFor(root, {}, {}) == {};
  }

  /** The pages one round adds. */
  lemma PagesMore(lo: nat, a: nat, whole: nat, super: bool)
    requires lo <= a && (a % 512 != 0 ==> !SuperBlockFits(a - a % 512, lo, whole)) &&
      (super <==> SuperBlockFits(a, lo, whole))
    ensures a !in PlainPages(lo, a, whole) && a !in SuperBlocks(lo, a, whole)
    ensures super ==>
      PlainPages(lo, a + 512, whole) == PlainPages(lo, a, whole) &&
        SuperBlocks(lo, a + 512, whole) == SuperBlocks(lo, a, whole) + {a}
    ensures !super ==>
      PlainPages(lo, a + 1, whole) == PlainPages(lo, a, whole) + {a} &&
        SuperBlocks(lo, a + 1, whole) == SuperBlocks(lo, a, whole)
  {
    if super {
      assert forall n :: a <= n < a + 512 ==> n - n % 512 == a;
      assert forall b :: a < b < a + 512 ==> b % 512 != 0;
    }
  }

  lemma PagesWithin(lo: nat, a: nat, hi: nat, whole: nat)
    requires a <= hi
    ensures PlainPages(lo, a, whole) <= PlainPages(lo, hi, whole) &&
      SuperBlocks(lo, a, whole) <= SuperBlocks(lo, hi, whole)
  {}

  /** What the growth so far needed, which was there. */
  ghost predicate Paid(f: Forest, fr: set<nat>, su: set<nat>, g: Forest, frames: set<nat>, supers: set<nat>, root: nat,
                       lo: nat, a: nat, whole: nat) {
    Accounts(f, fr, su, g, frames, supers, root, PlainPages(lo, a, whole), SuperBlocks(lo, a, whole))
  }

  lemma PaidNone(f: Forest, fr: set<nat>, su: set<nat>, root: nat, lo: nat, whole: nat)
    ensures Paid(f, fr, su, f, fr, su, root, lo, lo, whole)
  {
    hide Accounts;
    PagesNone(lo, lo, whole);
    AccountsNone(f, fr, su, root);
  }

  lemma PaidMore(f: Forest, fr: set<nat>, su: set<nat>, g: Forest, fr': set<nat>, su': set<nat>, h: Forest,
                 fr'': set<nat>, su'': set<nat>, root: nat, lo: nat, a: nat, sz: nat, whole: nat)
    requires lo <= a && (a % 512 != 0 ==> !SuperBlockFits(a - a % 512, lo, whole))
    requires sz == if a % 512 == 0 && a + 512 <= whole then 512 else 1
    requires Paid(f, fr, su, g, fr', su', root, lo, a, whole) && Took(g, fr', su', h, fr'', su'', root, a, sz == 512)
    ensures Paid(f, fr, su, h, fr'', su'', root, lo, a + sz, whole)
  {
    hide Accounts, Took, PlainPages, SuperBlocks;
    PagesMore(lo, a, whole, sz == 512);
    AccountsMore(f, fr, su, g, fr', su', h, fr'', su'', root, PlainPages(lo, a, whole), SuperBlocks(lo, a, whole), a,
      sz == 512);
  }

  /** A growth that ran out at page a did not fit. */
  lemma Unpaid(f: Forest, fr: set<nat>, su: set<nat>, g: Forest, fr': set<nat>, su': set<nat>, root: nat, lo: nat,
               a: nat, hi: nat, whole: nat, sz: nat, free: nat, pool: nat, free': nat, pool': nat)
    requires lo <= a < hi && whole <= hi && (a % 512 != 0 ==> !SuperBlockFits(a - a % 512, lo, whole))
    requires sz == if a % 512 == 0 && a + 512 <= whole then 512 else 1
    requires Paid(f, fr, su, g, fr', su', root, lo, a, whole) && Short(g, free', pool', root, a, sz == 512)
    requires free' + Demand(f, root, PlainPages(lo, a, whole), SuperBlocks(lo, a, whole)) == free
    requires pool' + |SuperBlocks(lo, a, whole)| == pool
    ensures !GrowthFits(f, root, lo, hi, whole, free, pool)
  {
    hide Accounts, Short, PlainPages, SuperBlocks, Demand, GrowthFits, Paid;
    PagesMore(lo, a, whole, sz == 512);
    if sz == 512 {
      UnpaidBlock(f, fr, su, g, fr', su', root, lo, a, whole, free, pool, free', pool');
    } else {
      UnpaidPage(f, fr, su, g, fr', su', root, lo, a, whole, free, pool, free', pool');
    }
    UnpaidAt(f, root, lo, a + sz, hi, whole, free, pool);
  }

  lemma UnpaidPage(f: Forest, fr: set<nat>, su: set<nat>, g: Forest, fr': set<nat>, su': set<nat>, root: nat, lo: nat,
                   a: nat, whole: nat, free: nat, pool: nat, free': nat, pool': nat)
    requires Paid(f, fr, su, g, fr', su', root, lo, a, whole) && Short(g, free', pool', root, a, false)
    requires free' + Demand(f, root, PlainPages(lo, a, whole), SuperBlocks(lo, a, whole)) == free
    requires pool' + |SuperBlocks(lo, a, whole)| == pool && a !in PlainPages(lo, a, whole)
    ensures Demand(f, root, PlainPages(lo, a, whole) + {a}, SuperBlocks(lo, a, whole)) > free
  {
    hide Accounts, Short, PlainPages, SuperBlocks, Demand;
    var plain, blocks := PlainPages(lo, a, whole), SuperBlocks(lo, a, whole);
    ShortDemand(f, fr, su, g, fr', su', root, plain, blocks, a, false, free, free', pool, pool');
  }

  lemma UnpaidBlock(f: Forest, fr: set<nat>, su: set<nat>, g: Forest, fr': set<nat>, su': set<nat>, root: nat, lo: nat,
                    a: nat, whole: nat, free: nat, pool: nat, free': nat, pool': nat)
    requires Paid(f, fr, su, g, fr', su', root, lo, a, whole) && Short(g, free', pool', root, a, true)
    requires free' + Demand(f, root, PlainPages(lo, a, whole), SuperBlocks(lo, a, whole)) == free
    requires pool' + |SuperBlocks(lo, a, whole)| == pool && a !in SuperBlocks(lo, a, whole)
    ensures var blocks := SuperBlocks(lo, a, whole) + {a};
      Demand(f, root, PlainPages(lo, a, whole), blocks) > free || |blocks| > pool
  {
    hide Accounts, Short, PlainPages, SuperBlocks, Demand;
    var plain, blocks := PlainPages(lo, a, whole), SuperBlocks(lo, a, whole);
    ShortDemand(f, fr, su, g, fr', su', root, plain, blocks, a, true, free, free', pool, pool');
  }

  lemma UnpaidAt(f: Forest, root: nat, lo: nat, x: nat, hi: nat, whole: nat, free: nat, pool: nat)
    requires x <= hi
    requires Demand(f, root, PlainPages(lo, x, whole), SuperBlocks(lo, x, whole)) > free ||
      |SuperBlocks(lo, x, whole)| > pool
    ensures !GrowthFits(f, root, lo, hi, whole, free, pool)
  {
    hide PlainPages, SuperBlocks, Demand;
    PagesWithin(lo, x, hi, whole);
    DemandMore(f, root, PlainPages(lo, x, whole), SuperBlocks(lo, x, whole), PlainPages(lo, hi, whole),
      SuperBlocks(lo, hi, whole));
  }

  lemma NothingToPay(f: Forest, root: nat, lo: nat, hi: nat, whole: nat, free: nat, pool: nat)
    requires hi <= lo
    ensures GrowthFits(f, root, lo, hi, whole, free, pool)
    ensures Demand(f, root, PlainPages(lo, hi, whole), SuperBlocks(lo, hi, whole)) == 0 &&
      |SuperBlocks(lo, hi, whole)| == 0
  {
    PagesNone(lo, hi, whole);
    NothingNeeded(f, root);
  }

  lemma AllPaid(f: Forest, root: nat, lo: nat, hi: nat, whole: nat, free: nat, pool: nat, free': nat, pool': nat)
    requires free' + Demand(f, root, PlainPages(lo, hi, whole), SuperBlocks(lo, hi, whole)) == free
    requires pool' + |SuperBlocks(lo, hi, whole)| == pool
    ensures GrowthFits(f, root, lo, hi, whole, free, pool)
  {
    hide Demand, PlainPages, SuperBlocks;
  }

  ghost predicate GrownPage(o: Option<Mapping>, n: nat, lo: nat, whole: nat, xw: bool, xx: bool) {
    var super := SuperBlockFits(n - n % 512, lo, whole);
    && o.Some? && o.value.level == (if super then 1 else 0)
    && o.value.pte == Pte(o.value.pte.ppn, true, true, super || xw, xx, true)
  }

  /** From f to g, pages lo up to hi came to be mapped user-readable, as superpages where one fits; these are always
      writable. Every other page of every tree is as before. */
  ghost predicate Grown(f: Forest, g: Forest, root: nat, lo: nat, hi: nat, whole: nat, xw: bool, xx: bool) {
    && SameRoots(f, g)
    && forall r, n :: Top(r) in f.at && 0 <= n < MAXPAGE ==>
         if r == root && lo <= n < hi then GrownPage(Hw(g.tables, r, n), n, lo, whole, xw, xx)
         else Hw(g.tables, r, n) == Hw(f.tables, r, n)
  }

  lemma GrownAt(f: Forest, g: Forest, root: nat, lo: nat, hi: nat, whole: nat, xw: bool, xx: bool, n: nat)
    requires Grown(f, g, root, lo, hi, whole, xw, xx) && Top(root) in f.at && n < MAXPAGE
    ensures Top(root) in g.at
    ensures if lo <= n < hi then GrownPage(Hw(g.tables, root, n), n, lo, whole, xw, xx)
      else Hw(g.tables, root, n) == Hw(f.tables, root, n)
  {
    hide Hw;
  }

  lemma GrownByPage(f: Forest, g: Forest, h: Forest, root: nat, lo: nat, a: nat, whole: nat, xw: bool, xx: bool, p: nat)
    requires lo <= a && Grown(f, g, root, lo, a, whole, xw, xx) && !SuperBlockFits(a - a % 512, lo, whole)
    requires Edit(g, h, root, a, a + 1, Pages(p, Pte(0, true, true, xw, xx, true)))
    ensures Grown(f, h, root, lo, a + 1, whole, xw, xx)
  {
    hide Hw, SuperBlockFits;
    forall r, n | Top(r) in f.at && 0 <= n < MAXPAGE
      ensures if r == root && lo <= n < a + 1 then GrownPage(Hw(h.tables, r, n), n, lo, whole, xw, xx)
        else Hw(h.tables, r, n) == Hw(f.tables, r, n)
    {
      EditAt(g, h, root, a, a + 1, Pages(p, Pte(0, true, true, xw, xx, true)), r, n);
    }
  }

  lemma GrownBySuper(f: Forest, g: Forest, h: Forest, root: nat, lo: nat, a: nat, whole: nat, xw: bool, xx: bool,
                     s: nat)
    requires lo <= a && Grown(f, g, root, lo, a, whole, xw, xx) && SuperBlockFits(a, lo, whole)
    requires Edit(g, h, root, a, a + 512, Super(s, Pte(0, true, true, true, xx, true)))
    ensures Grown(f, h, root, lo, a + 512, whole, xw, xx)
  {
    hide Hw;
    forall r, n | Top(r) in f.at && 0 <= n < MAXPAGE
      ensures if r == root && lo <= n < a + 512 then GrownPage(Hw(h.tables, r, n), n, lo, whole, xw, xx)
        else Hw(h.tables, r, n) == Hw(f.tables, r, n)
    {
      EditAt(g, h, root, a, a + 512, Super(s, Pte(0, true, true, true, xx, true)), r, n);
      if r == root && a <= n < a + 512 { BlockStart(a, n); }
    }
  }

  lemma GrownSame(f: Forest, g: Forest, h: Forest, root: nat, lo: nat, a: nat, whole: nat, xw: bool, xx: bool)
    requires Grown(f, g, root, lo, a, whole, xw, xx) && SameMaps(g, h)
    ensures Grown(f, h, root, lo, a, whole, xw, xx)
  {
    hide Hw;
  }

  /** Undoing growth: clearing the grown pages, unmapped before, gives back the old translations. */
  lemma GrownUndone(f: Forest, g: Forest, h: Forest, root: nat, lo: nat, a: nat, whole: nat, xw: bool, xx: bool)
    requires Grown(f, g, root, lo, a, whole, xw, xx) && Edit(g, h, root, lo, a, Nothing)
    requires forall n :: lo <= n < a ==> Hw(f.tables, root, n) == None
    ensures SameMaps(f, h)
  {
    hide Hw;
  }

  /** The grown range starts and ends on mapping boundaries. */
  lemma GrownBounds(f: Forest, g: Forest, root: nat, lo: nat, a: nat, whole: nat, xw: bool, xx: bool)
    requires Grown(f, g, root, lo, a, whole, xw, xx) && Top(root) in f.at && lo < a < MAXPAGE &&
      Hw(f.tables, root, a) == None
    ensures AllMapped(g.tables, root, lo, a) && !Inside(g.tables, root, lo) && !Inside(g.tables, root, a)
  {
    hide Hw;
    GrownAt(f, g, root, lo, a, whole, xw, xx, a);
    GrownAt(f, g, root, lo, a, whole, xw, xx, lo);
    forall n | lo <= n < a ensures Hw(g.tables, root, n).Some? { GrownAt(f, g, root, lo, a, whole, xw, xx, n); }
  }

  /** No level-0 table appeared at or above page a. */
  ghost predicate NoNewTables(f: Forest, g: Forest, root: nat, a: nat) {
    forall b :: b >= a && b % 512 == 0 && HasTable(g, root, b) ==> HasTable(f, root, b)
  }

  lemma NoNewMore(f: Forest, g: Forest, h: Forest, root: nat, a: nat, sz: nat)
    requires NoNewTables(f, g, root, a) && GrewFor(g, h, root, a) && sz > 0
    ensures NoNewTables(f, h, root, a + sz)
  {
    forall b | b >= a + sz && b % 512 == 0 && HasTable(h, root, b) ensures HasTable(f, root, b) {
      SameSuperpage(a, b);
      assert a / 512 != b / 512;
    }
  }

  /** No superpage of the new pages finds a level-0 table in its place. */
  ghost predicate ClearFor(f: Forest, root: nat, lo: nat, whole: nat) {
    forall b :: SuperBlockFits(b, lo, whole) ==> !HasTable(f, root, b)
  }

  lemma NoTableUnder(g: Forest, root: nat, n: nat)
    requires Wf(g) && Top(root) in g.at && n < MAXPAGE && Hw(g.tables, root, n).Some? &&
      Hw(g.tables, root, n).value.level == 1
    ensures !HasTable(g, root, n)
  {
    SuperEntry(g, root, n);
    hide Placed, Entries, Px2, Px1, Px0, Hw;
    if HasTable(g, root, n) { HungAt(g, Low(root, Px2(n), Px1(n))); }
  }

  /** Growth that succeeded met no table. */
  lemma GrownWasClear(f: Forest, g: Forest, root: nat, lo: nat, hi: nat, whole: nat, xw: bool, xx: bool)
    requires Wf(g) && Grown(f, g, root, lo, hi, whole, xw, xx) && Top(root) in f.at && whole <= hi <= MAXPAGE
    requires forall q :: q in f.at ==> q in g.at
    ensures ClearFor(f, root, lo, whole)
  {
    hide Wf, Hw, Grown, Px2, Px1;
    forall b | SuperBlockFits(b, lo, whole) ensures !HasTable(f, root, b) {
      GrownAt(f, g, root, lo, hi, whole, xw, xx, b);
      NoTableUnder(g, root, b);
    }
  }

  // ---------------------------------------------------------------- contents

  ghost predicate ZeroPage(d: Data, p: nat) { p in d && d[p] == Filled(0) }

  ghost predicate AllZero(tables: map<nat, seq<Pte>>, d: Data, root: nat, lo: nat, hi: nat) {
    forall n :: lo <= n < hi ==> Hw(tables, root, n).Some? && ZeroPage(d, Hw(tables, root, n).value.frame)
  }

  /** Memory a user page occupies is there, and neither on the free list nor in the pool. */
  lemma FrameBusy(f: Forest, users: set<nat>, frames: map<nat, Spot>, supers: map<nat, Spot>, root: nat, n: nat,
                  all: set<nat>, freelist: seq<nat>, other: set<nat>, allSupers: set<nat>, pool: seq<nat>,
                    held: set<nat>)
    requires Wf(f) && UserRoots(f, users) && Owned(f.tables, users, frames, supers) && root in users && n < USERTOP
    requires Shared(all, freelist, f.tables.Keys, frames.Keys, other) && Pooled(allSupers, pool, supers.Keys, held)
    requires Hw(f.tables, root, n).Some?
    ensures IsBusy(Hw(f.tables, root, n).value.frame, Elems(freelist), Elems(pool))
  {
    hide Wf, Hw, Owned, UserRoots, Shared, Pooled, Elems, Px0;
    var t := Hw(f.tables, root, n).value;
    LevelOwner(f, users, frames, supers, root, n);
    if t.level == 1 {
      SuperBusy(all, freelist, f.tables.Keys, frames.Keys, other, allSupers, pool, supers.Keys, held, t.pte.ppn,
        t.frame);
    } else {
      PageBusy(all, freelist, f.tables.Keys, frames.Keys, other, allSupers, pool, supers.Keys, held, t.frame);
    }
  }

  lemma LevelOwner(f: Forest, users: set<nat>, frames: map<nat, Spot>, supers: map<nat, Spot>, root: nat, n: nat)
    requires Wf(f) && UserRoots(f, users) && Owned(f.tables, users, frames, supers) && root in users && n < USERTOP
    requires Hw(f.tables, root, n).Some?
    ensures var t := Hw(f.tables, root, n).value;
      && t.level <= 1 && (t.level == 1 ==> t.frame == t.pte.ppn + Px0(n) && t.pte.ppn in supers)
      && (t.level == 0 ==> t.frame in frames)
  {
    hide Wf, Hw;
    LevelBound(f, root, n);
    if Hw(f.tables, root, n).value.level == 1 { SuperFrame(f, root, n); }
    assert HasOwner(Hw(f.tables, root, n).value, root, n, frames, supers);
  }

  lemma PageBusy(all: set<nat>, freelist: seq<nat>, tables: set<nat>, frames: set<nat>, other: set<nat>,
                 allSupers: set<nat>, pool: seq<nat>, supers: set<nat>, held: set<nat>, p: nat)
    requires Shared(all, freelist, tables, frames, other) && Pooled(allSupers, pool, supers, held) && p in frames
    ensures p < PHYSTOP && p !in Elems(freelist) && p - p % 512 !in Elems(pool)
  {
    hide Distinct, Elems;
    assert p in all && p < SUPERBASE;
    assert p - p % 512 !in allSupers;
  }

  lemma SuperBusy(all: set<nat>, freelist: seq<nat>, tables: set<nat>, frames: set<nat>, other: set<nat>,
                  allSupers: set<nat>, pool: seq<nat>, supers: set<nat>, held: set<nat>, s: nat, p: nat)
    requires Shared(all, freelist, tables, frames, other) && Pooled(allSupers, pool, supers, held) && s in supers &&
      s <= p < s + 512
    ensures p < PHYSTOP && p !in Elems(freelist) && p - p % 512 !in Elems(pool)
  {
    hide Distinct, Elems;
    assert s in allSupers && SUPERBASE <= p;
    BlockStart(s, p);
    assert p !in all;
  }

  lemma SuperFrame(f: Forest, root: nat, n: nat)
    requires Wf(f) && Top(root) in f.at && n < MAXPAGE && Hw(f.tables, root, n).Some? &&
      Hw(f.tables, root, n).value.level == 1
    ensures Hw(f.tables, root, n).value.frame == Hw(f.tables, root, n).value.pte.ppn + Px0(n)
  {
    hide Wf;
    SlotSays(f, root, n);
  }

  // ---------------------------------------------------------------- the free list while growing

  lemma QuietPop(d: Data, l: seq<nat>, junk: Page, contents: Page, pool: set<nat>)
    requires |l| > 0
    ensures Quiet(d, d[l[0] := junk][l[0] := contents], Elems(l), pool)
  {
    assert l[0] in Elems(l);
  }

  lemma PoppedLess(l: seq<nat>)
    requires |l| > 0
    ensures Elems(l[1..]) <= Elems(l) && l[0] in Elems(l)
  {}

  lemma BusyOther(all: set<nat>, freelist: seq<nat>, tables: set<nat>, frames: set<nat>, other: set<nat>, p: nat)
    requires Shared(all, freelist, tables, frames, other) && p in other
    ensures p !in freelist
  {}

  lemma QuietSame(d: Data, e: Data, e': Data, l: set<nat>, m: seq<nat>, pool: set<nat>)
    requires Quiet(d, e, l, pool) && SameData(e, e', m) && Elems(m) <= l
    ensures Quiet(d, e', l, pool)
  {
    forall p | p !in l ensures p !in m { assert p !in Elems(m); }
  }

  lemma SameDataAt(d: Data, d': Data, l: seq<nat>, p: nat)
    requires SameData(d, d', l) && p in d && p !in l
    ensures p in d' && d'[p] == d[p]
  {}

  lemma TakenLess(l: set<nat>, m: seq<nat>, m': seq<nat>)
    requires Elems(m) <= l && Taken(m, m')
    ensures Elems(m') <= l
  {}

  lemma FreedLess(l: set<nat>, m: seq<nat>, p: nat)
    requires Elems(m) <= l && p in l
    ensures Elems([p] + m) <= l
  {}

  lemma QuietBack(d: Data, e: Data, p: nat, page: Page, l: set<nat>, pool: set<nat>)
    requires Quiet(d, e, l, pool) && p in l
    ensures Quiet(d, e[p := page], l, pool)
  {}

  // ---------------------------------------------------------------- the pool while growing

  /** The 512 pages from s on get the given contents. */
  function WriteBlock(d: Data, s: nat, contents: seq<Page>): (d': Data) {
    map p | p in d :: if s <= p < s + 512 && p - s < |contents| then contents[p - s] else d[p]
  }

  ghost predicate Holds(d: Data, s: nat, contents: seq<Page>) {
    forall p :: s <= p < s + 512 && p - s < |contents| ==> p in d && d[p] == contents[p - s]
  }

  lemma BlockHolds(d: Data, s: nat, contents: seq<Page>)
    requires s + 512 <= PHYSTOP
    ensures Holds(WriteBlock(d, s, contents), s, contents)
  {}

  lemma QuietSuper(d: Data, s: nat, contents: seq<Page>, free: set<nat>, pool: seq<nat>)
    requires s % 512 == 0 && |pool| > 0 && s == pool[|pool| - 1]
    ensures Quiet(d, WriteBlock(FillData(d, s, 512, 5), s, contents), free, Elems(pool))
  {
    hide Filled;
    forall p | p in d && s <= p < s + 512 ensures p - p % 512 == s { BlockStart(s, p); }
    assert s in Elems(pool);
  }

  lemma QuietSuperBack(d: Data, e: Data, s: nat, l: set<nat>, pool: set<nat>)
    requires Quiet(d, e, l, pool) && s in pool && s % 512 == 0
    ensures Quiet(d, FillData(e, s, 512, 1), l, pool)
  {
    hide Filled;
    forall p | p in d && s <= p < s + 512 ensures p - p % 512 == s { BlockStart(s, p); }
  }

  lemma PopLess(pool: seq<nat>)
    requires |pool| > 0
    ensures Elems(pool[..|pool| - 1]) <= Elems(pool) && pool[|pool| - 1] in Elems(pool)
  {}

  lemma PushLess(p: set<nat>, pool: seq<nat>, s: nat)
    requires Elems(pool) <= p && s in p
    ensures Elems(pool + [s]) <= p
  {}

  /** Table pages taken from the free list are no part of a superpage. */
  lemma HoldsStill(d: Data, d': Data, l: seq<nat>, s: nat, contents: seq<Page>, all: set<nat>, tables: set<nat>,
                   frames: set<nat>, other: set<nat>, allSupers: set<nat>, pool: seq<nat>, supers: set<nat>,
                     held: set<nat>)
    requires Holds(d, s, contents) && SameData(d, d', l)
    requires Shared(all, l, tables, frames, other) && Pooled(allSupers, pool, supers, held) && s in held
    ensures Holds(d', s, contents)
  {
    forall p | s <= p < s + 512 ensures p !in l {
      assert s in allSupers;
      assert p !in Elems(l);
    }
  }

  // ---------------------------------------------------------------- zeroed growth

  function ZeroBlock(): (c: seq<Page>)
    ensures |c| == 512 && forall k :: 0 <= k < 512 ==> c[k] == Filled(0)
  {
    seq(512, k => Filled(0))
  }

  /** The memory of pages lo up to hi is neither free nor in the pool. */
  ghost predicate AllBusy(tables: map<nat, seq<Pte>>, root: nat, lo: nat, hi: nat, free: set<nat>, pool: set<nat>) {
    forall n :: lo <= n < hi && Hw(tables, root, n).Some? ==> IsBusy(Hw(tables, root, n).value.frame, free, pool)
  }

  ghost predicate IsBusy(p: nat, free: set<nat>, pool: set<nat>) { p < PHYSTOP && p !in free && p - p % 512 !in pool }

  lemma ZeroKept(f: Forest, g: Forest, d: Data, d': Data, root: nat, lo: nat, a: nat, sz: nat, fill: Fill,
                 free: set<nat>, pool: set<nat>)
    requires AllZero(f.tables, d, root, lo, a) && AllBusy(f.tables, root, lo, a, free, pool) && Quiet(d, d', free, pool)
    requires Edit(f, g, root, a, a + sz, fill) && Top(root) in f.at && a <= MAXPAGE
    ensures AllZero(g.tables, d', root, lo, a)
  {
    hide Hw, Edit, Filled;
    forall n | lo <= n < a ensures Hw(g.tables, root, n).Some? && ZeroPage(d', Hw(g.tables, root, n).value.frame) {
      EditAt(f, g, root, a, a + sz, fill, root, n);
      var p := Hw(f.tables, root, n).value.frame;
      assert ZeroPage(d, p) && IsBusy(p, free, pool);
    }
  }

  lemma ZeroPageAdded(f: Forest, g: Forest, d: Data, root: nat, lo: nat, a: nat, p: nat, perm: Pte)
    requires AllZero(g.tables, d, root, lo, a) && Edit(f, g, root, a, a + 1, Pages(p, perm)) && Top(root) in f.at &&
      a < MAXPAGE
    requires p in d && d[p] == Filled(0)
    ensures AllZero(g.tables, d, root, lo, a + 1)
  {
    hide Hw, Edit, Filled;
    EditAt(f, g, root, a, a + 1, Pages(p, perm), root, a);
  }

  lemma ZeroSuperAdded(f: Forest, g: Forest, d: Data, root: nat, lo: nat, a: nat, s: nat, perm: Pte)
    requires AllZero(g.tables, d, root, lo, a) && Edit(f, g, root, a, a + 512, Super(s, perm)) && Top(root) in f.at &&
      a + 512 <= MAXPAGE
    requires Holds(d, s, ZeroBlock())
    ensures AllZero(g.tables, d, root, lo, a + 512)
  {
    hide Hw, Edit, Filled, ZeroBlock;
    forall n | lo <= n < a + 512 ensures Hw(g.tables, root, n).Some? && ZeroPage(d, Hw(g.tables, root, n).value.frame) {
      EditAt(f, g, root, a, a + 512, Super(s, perm), root, n);
      if n >= a { assert ZeroBlock()[n - a] == Filled(0); }
    }
  }

  // ---------------------------------------------------------------- steps of uvmalloc

  lemma GrownShrunk(f: Forest, root: nat, lo: nat, hi: nat, whole: nat, xw: bool, xx: bool)
    requires hi <= lo
    ensures Grown(f, f, root, lo, hi, whole, xw, xx)
  {
    hide Hw;
  }

  lemma AllZeroEmpty(tables: map<nat, seq<Pte>>, d: Data, root: nat, lo: nat, hi: nat)
    requires hi <= lo
    ensures AllZero(tables, d, root, lo, hi)
  {}

  lemma StartGrowth(f: Forest, d: Data, root: nat, lo: nat, whole: nat, xw: bool, xx: bool)
    ensures Grown(f, f, root, lo, lo, whole, xw, xx) && AllZero(f.tables, d, root, lo, lo) &&
      NoNewTables(f, f, root, lo)
    ensures lo % 512 != 0 ==> !SuperBlockFits(lo - lo % 512, lo, whole)
  {
    hide Hw;
  }

  lemma StillUnmapped(f: Forest, g: Forest, root: nat, lo: nat, a: nat, hi: nat, whole: nat, xw: bool, xx: bool)
    requires Grown(f, g, root, lo, a, whole, xw, xx) && NoneMapped(f.tables, root, lo, hi) && Top(root) in f.at &&
      lo <= a && hi <= MAXPAGE
    ensures NoneMapped(g.tables, root, a, hi) && Top(root) in g.at
  {
    hide Hw;
    forall n | a <= n < hi ensures Hw(g.tables, root, n) == None { GrownAt(f, g, root, lo, a, whole, xw, xx, n); }
  }

  /** An occupied level-1 entry over unmapped pages holds a table that was there from the start. */
  lemma TableInTheWay(f: Forest, g: Forest, root: nat, a: nat)
    requires Wf(g) && Top(root) in g.at && a < MAXPAGE && a % 512 == 0 && Occupied(g, root, a) &&
      Hw(g.tables, root, a) == None
    requires NoNewTables(f, g, root, a)
    ensures HasTable(f, root, a)
  {
    hide Wf, Hw, Occupied;
    OccupiedWhen(g, root, a);
  }

  lemma QuietWithin(d: Data, e: Data, e': Data, l: set<nat>, p: set<nat>, m: set<nat>, q: set<nat>)
    requires Quiet(d, e, l, p) && Quiet(e, e', m, q) && m <= l && q <= p
    ensures Quiet(d, e', l, p)
  {}

  lemma GrownStep(f: Forest, g: Forest, h: Forest, root: nat, lo: nat, a: nat, sz: nat, whole: nat, xw: bool, xx: bool)
    requires lo <= a && Grown(f, g, root, lo, a, whole, xw, xx) &&
      (a % 512 != 0 ==> !SuperBlockFits(a - a % 512, lo, whole))
    requires sz == if a % 512 == 0 && a + 512 <= whole then 512 else 1
    requires sz == 512 ==> exists s :: Edit(g, h, root, a, a + 512, Super(s, Pte(0, true, true, true, xx, true)))
    requires sz == 1 ==> exists p :: Edit(g, h, root, a, a + 1, Pages(p, Pte(0, true, true, xw, xx, true)))
    ensures Grown(f, h, root, lo, a + sz, whole, xw, xx)
    ensures (a + sz) % 512 != 0 ==> !SuperBlockFits(a + sz - (a + sz) % 512, lo, whole)
  {
    hide Grown, Edit;
    if sz == 512 {
      var s :| Edit(g, h, root, a, a + 512, Super(s, Pte(0, true, true, true, xx, true)));
      GrownBySuper(f, g, h, root, lo, a, whole, xw, xx, s);
    } else {
      var p :| Edit(g, h, root, a, a + 1, Pages(p, Pte(0, true, true, xw, xx, true)));
      GrownByPage(f, g, h, root, lo, a, whole, xw, xx, p);
      if (a + 1) % 512 != 0 { assert a + 1 - (a + 1) % 512 == a - a % 512; }
    }
  }

  // ---------------------------------------------------------------- giving back

  lemma FreeLess(all: set<nat>, l: seq<nat>, tables: set<nat>, frames: set<nat>, other: set<nat>, m: seq<nat>,
                 tables': set<nat>)
    requires Shared(all, l, tables, frames, other) && Shared(all, m, tables', frames, other) && tables <= tables'
    ensures Elems(m) <= Elems(l)
  {
    hide Distinct, Elems;
  }

  lemma PoolLess(all: set<nat>, pool: seq<nat>, supers: set<nat>, held: set<nat>, pool': seq<nat>)
    requires Pooled(all, pool, supers, held) && Pooled(all, pool', supers, held)
    ensures Elems(pool') == Elems(pool)
  {
    hide Distinct, Elems;
    assert forall s :: s in Elems(pool) <==> s in all && s !in supers && s !in held;
    assert forall s :: s in Elems(pool') <==> s in all && s !in supers && s !in held;
  }

  lemma UnmappedAt(tables: map<nat, seq<Pte>>, root: nat, lo: nat, hi: nat, n: nat)
    requires NoneMapped(tables, root, lo, hi) && lo <= n < hi
    ensures Hw(tables, root, n) == None
  {}

  lemma GrewTables(f: Forest, g: Forest, root: nat, n: nat)
    requires GrewFor(f, g, root, n)
    ensures f.tables.Keys <= g.tables.Keys && forall q :: q in f.at ==> q in g.at
  {}
}
