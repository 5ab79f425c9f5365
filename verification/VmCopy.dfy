/** What uvmcopy leaves behind: the child's pages have the parent's permissions, sizes and bytes, in frames of its
    own. */
module VmCopy {
  import opened PageTable
  import opened VmSpec
  import opened VmOwned
  import opened VmGrow
  import opened VmCount

  function PageOf(d: Data, p: nat): Page { if p in d then d[p] else Filled(0) }

  function BlockOf(d: Data, s: nat): (c: seq<Page>)
    ensures |c| == 512 && forall k :: 0 <= k < 512 ==> c[k] == PageOf(d, s + k)
  {
    seq<Page>(512, k requires k >= 0 => PageOf(d, s + k))
  }

  // ---------------------------------------------------------------- what a copy takes

  ghost predicate InSuper(f: Forest, o: nat, n: nat) { Hw(f.tables, o, n).Some? && Hw(f.tables, o, n).value.level == 1 }

  /** The pages below hi that are copied one by one, and those at which a superpage is copied. */
  ghost function CopyPages(f: Forest, o: nat, hi: nat): set<nat> { set n | 0 <= n < hi && !InSuper(f, o, n) }

  ghost function CopySupers(f: Forest, o: nat, hi: nat): set<nat> {
    set b | 0 <= b < hi && b % 512 == 0 && InSuper(f, o, b)
  }

  /** There are as many free pages as the pages to copy and the tables the child lacks, and as many free superpages. */
  ghost predicate CopyFits(f: Forest, o: nat, w: nat, hi: nat, free: nat, pool: nat) {
    Demand(f, w, CopyPages(f, o, hi), CopySupers(f, o, hi)) <= free && |CopySupers(f, o, hi)| <= pool
  }

  lemma CopyMore(f: Forest, o: nat, i: nat, sz: nat)
    requires Wf(f) && Top(o) in f.at && i + sz <= MAXPAGE && i < MAXPAGE
    requires sz == (if InSuper(f, o, i) then 512 else 1) && (InSuper(f, o, i) ==> i % 512 == 0)
    ensures i !in CopyPages(f, o, i) && i !in CopySupers(f, o, i)
    ensures sz == 512 ==>
      CopyPages(f, o, i + sz) == CopyPages(f, o, i) && CopySupers(f, o, i + sz) == CopySupers(f, o, i) + {i}
    ensures sz == 1 ==>
      CopyPages(f, o, i + sz) == CopyPages(f, o, i) + {i} && CopySupers(f, o, i + sz) == CopySupers(f, o, i)
  {
    hide Wf, Hw;
    if sz == 512 {
      forall n | i <= n < i + 512 ensures InSuper(f, o, n) && (n % 512 == 0 ==> n == i) { SuperBlock(f, o, i, n); }
    }
    hide InSuper;
  }

  lemma CopyWithin(f: Forest, o: nat, x: nat, hi: nat)
    requires x <= hi
    ensures CopyPages(f, o, x) <= CopyPages(f, o, hi) && CopySupers(f, o, x) <= CopySupers(f, o, hi)
  {
    hide InSuper;
  }

  /** What the copy so far needed, which was there. */
  ghost predicate CopyPaid(f: Forest, fr: set<nat>, su: set<nat>, g: Forest, frames: set<nat>, supers: set<nat>,
                           o: nat, w: nat, i: nat) {
    Accounts(f, fr, su, g, frames, supers, w, CopyPages(f, o, i), CopySupers(f, o, i))
  }

  lemma CopyPaidNone(f: Forest, fr: set<nat>, su: set<nat>, o: nat, w: nat)
    ensures CopyPaid(f, fr, su, f, fr, su, o, w, 0)
  {
    hide Accounts;
    assert CopyPages(f, o, 0) == {} && CopySupers(f, o, 0) == {};
    AccountsNone(f, fr, su, w);
  }

  lemma CopyPaidMore(f: Forest, fr: set<nat>, su: set<nat>, g: Forest, fr': set<nat>, su': set<nat>, h: Forest,
                     fr'': set<nat>, su'': set<nat>, o: nat, w: nat, i: nat, sz: nat)
    requires Wf(f) && Top(o) in f.at && i + sz <= MAXPAGE && i < MAXPAGE
    requires sz == (if InSuper(f, o, i) then 512 else 1) && (InSuper(f, o, i) ==> i % 512 == 0)
    requires CopyPaid(f, fr, su, g, fr', su', o, w, i) && Took(g, fr', su', h, fr'', su'', w, i, sz == 512)
    ensures CopyPaid(f, fr, su, h, fr'', su'', o, w, i + sz)
  {
    hide Wf, Accounts, Took, CopyPages, CopySupers, InSuper;
    CopyMore(f, o, i, sz);
    AccountsMore(f, fr, su, g, fr', su', h, fr'', su'', w, CopyPages(f, o, i), CopySupers(f, o, i), i, sz == 512);
  }

  /** A copy that ran out at page i did not fit. */
  lemma CopyUnpaid(f: Forest, fr: set<nat>, su: set<nat>, g: Forest, fr': set<nat>, su': set<nat>, o: nat, w: nat,
                   i: nat, hi: nat, sz: nat, free: nat, pool: nat, free': nat, pool': nat)
    requires Wf(f) && Top(o) in f.at && i + sz <= hi <= MAXPAGE && i < MAXPAGE
    requires sz == (if InSuper(f, o, i) then 512 else 1) && (InSuper(f, o, i) ==> i % 512 == 0)
    requires CopyPaid(f, fr, su, g, fr', su', o, w, i) && Short(g, free', pool', w, i, sz == 512)
    requires free' + Demand(f, w, CopyPages(f, o, i), CopySupers(f, o, i)) == free &&
      pool' + |CopySupers(f, o, i)| == pool
    ensures !CopyFits(f, o, w, hi, free, pool)
  {
    hide Wf, Accounts, Short, CopyPages, CopySupers, InSuper, Demand;
    CopyMore(f, o, i, sz);
    CopyWithin(f, o, i + sz, hi);
    ShortDemand(f, fr, su, g, fr', su', w, CopyPages(f, o, i), CopySupers(f, o, i), i, sz ==
      512, free, free', pool, pool');
    DemandMore(f, w, CopyPages(f, o, i + sz), CopySupers(f, o, i + sz), CopyPages(f, o, hi), CopySupers(f, o, hi));
  }

  lemma CopyAllPaid(f: Forest, o: nat, w: nat, hi: nat, free: nat, pool: nat, free': nat, pool': nat)
    requires free' + Demand(f, w, CopyPages(f, o, hi), CopySupers(f, o, hi)) == free &&
      pool' + |CopySupers(f, o, hi)| == pool
    ensures CopyFits(f, o, w, hi, free, pool)
  {
    hide Demand, CopyPages, CopySupers;
  }

  /** Two leaves of the same size and permissions. */
  ghost predicate Alike(x: Option<Mapping>, y: Option<Mapping>) {
    x.Some? && y.Some? && x.value.level == y.value.level && x.value.pte == y.value.pte.(ppn := x.value.pte.ppn)
  }

  /** From f to g, the first hi pages of tree w came to be like those of tree o; nothing else changed. */
  ghost predicate Copied(f: Forest, g: Forest, o: nat, w: nat, hi: nat) {
    && SameRoots(f, g)
    && forall r, n :: Top(r) in f.at && 0 <= n < MAXPAGE ==>
         if r == w && n < hi then Alike(Hw(g.tables, r, n), Hw(f.tables, o, n))
           else Hw(g.tables, r, n) == Hw(f.tables, r, n)
  }

  lemma CopiedAt(f: Forest, g: Forest, o: nat, w: nat, hi: nat, r: nat, n: nat)
    requires Copied(f, g, o, w, hi) && Top(r) in f.at && n < MAXPAGE
    ensures Top(r) in g.at
    ensures if r == w &&
      n < hi then Alike(Hw(g.tables, r, n), Hw(f.tables, o, n)) else Hw(g.tables, r, n) == Hw(f.tables, r, n)
  {
    hide Hw;
  }

  lemma CopiedSame(f: Forest, g: Forest, h: Forest, o: nat, w: nat, hi: nat)
    requires Copied(f, g, o, w, hi) && SameMaps(g, h)
    ensures Copied(f, h, o, w, hi)
  {
    hide Hw;
  }

  lemma CopiedPage(f: Forest, g: Forest, h: Forest, o: nat, w: nat, i: nat, p: nat)
    requires Copied(f, g, o, w, i) && o != w && Top(o) in f.at && i < MAXPAGE
    requires Hw(f.tables, o, i).Some? && Hw(f.tables, o, i).value.level == 0 && Hw(f.tables, o, i).value.pte.v
    requires Edit(g, h, w, i, i + 1, Pages(p, Hw(f.tables, o, i).value.pte))
    ensures Copied(f, h, o, w, i + 1)
  {
    hide Hw, Edit;
    assert SameRoots(f, h) by { EditRoots(g, h, w, i, i + 1, Pages(p, Hw(f.tables, o, i).value.pte)); }
    forall r, n | Top(r) in f.at && 0 <= n < MAXPAGE
      ensures if r == w &&
        n < i + 1 then Alike(Hw(h.tables, r, n), Hw(f.tables, o, n)) else Hw(h.tables, r, n) == Hw(f.tables, r, n)
    {
      EditAt(g, h, w, i, i + 1, Pages(p, Hw(f.tables, o, i).value.pte), r, n);
    }
  }

  lemma EditRoots(f: Forest, g: Forest, root: nat, lo: nat, hi: nat, fill: Fill)
    requires Edit(f, g, root, lo, hi, fill)
    ensures SameRoots(f, g)
  {
    hide Hw;
  }

  lemma CopiedSuper(f: Forest, g: Forest, h: Forest, o: nat, w: nat, i: nat, s: nat)
    requires Wf(f) && Copied(f, g, o, w, i) && o != w && Top(o) in f.at && i + 512 <= MAXPAGE && i % 512 == 0
    requires Hw(f.tables, o, i).Some? && Hw(f.tables, o, i).value.level == 1 && Hw(f.tables, o, i).value.pte.v
    requires Edit(g, h, w, i, i + 512, Super(s, Hw(f.tables, o, i).value.pte))
    ensures Copied(f, h, o, w, i + 512)
  {
    hide Hw, Edit, Wf;
    var e := Hw(f.tables, o, i).value.pte;
    assert SameRoots(f, h) by { EditRoots(g, h, w, i, i + 512, Super(s, e)); }
    forall r, n | Top(r) in f.at && 0 <= n < MAXPAGE
      ensures if r == w &&
        n < i + 512 then Alike(Hw(h.tables, r, n), Hw(f.tables, o, n)) else Hw(h.tables, r, n) == Hw(f.tables, r, n)
    {
      EditAt(g, h, w, i, i + 512, Super(s, e), r, n);
      if r == w && i <= n < i + 512 {
        Block(i, n);
        SuperBlock(f, o, i, n);
      }
    }
  }

  /** Undoing a copy into unmapped pages gives back the old translations. */
  lemma CopyUndone(f: Forest, g: Forest, h: Forest, o: nat, w: nat, i: nat)
    requires Copied(f, g, o, w, i) && Edit(g, h, w, 0, i, Nothing) && NoneMapped(f.tables, w, 0, i)
    ensures SameMaps(f, h)
  {
    hide Hw;
  }

  lemma CopyBounds(f: Forest, g: Forest, o: nat, w: nat, i: nat)
    requires Copied(f, g, o, w, i) && Top(w) in f.at && i < MAXPAGE && Hw(f.tables, w, i) == None
    ensures AllMapped(g.tables, w, 0, i) && !Inside(g.tables, w, 0) && !Inside(g.tables, w, i)
  {
    hide Hw;
    CopiedAt(f, g, o, w, i, w, i);
    forall n | 0 <= n < i ensures Hw(g.tables, w, n).Some? { CopiedAt(f, g, o, w, i, w, n); }
  }

  /** No superpage to copy finds a level-0 table in its place. */
  ghost predicate ClearToCopy(f: Forest, o: nat, w: nat, hi: nat) {
    forall b :: IsCopySuper(f, o, b, hi) ==> !HasTable(f, w, b)
  }

  ghost predicate IsCopySuper(f: Forest, o: nat, b: nat, hi: nat) {
    b < hi && b % 512 == 0 && Hw(f.tables, o, b).Some? && Hw(f.tables, o, b).value.level == 1
  }

  lemma CopiedWasClear(f: Forest, g: Forest, o: nat, w: nat, hi: nat)
    requires Wf(g) && Copied(f, g, o, w, hi) && Top(w) in f.at && hi <= MAXPAGE && forall q :: q in f.at ==> q in g.at
    ensures ClearToCopy(f, o, w, hi)
  {
    hide Wf, Hw, Copied, Px2, Px1;
    forall b | IsCopySuper(f, o, b, hi) ensures !HasTable(f, w, b) {
      CopiedAt(f, g, o, w, hi, w, b);
      NoTableUnder(g, w, b);
    }
  }

  // ---------------------------------------------------------------- bytes

  ghost predicate SamePage(x: Option<Mapping>, d': Data, y: Option<Mapping>, d: Data) {
    x.Some? && y.Some? && x.value.frame in d' && y.value.frame in d && d'[x.value.frame] == d[y.value.frame]
  }

  /** The first hi pages of tree w (in g, with data d') hold the bytes of those of tree o (in f, with data d). */
  ghost predicate SameBytes(f: Forest, g: Forest, d: Data, d': Data, o: nat, w: nat, hi: nat) {
    forall n :: 0 <= n < hi ==> SamePage(Hw(g.tables, w, n), d', Hw(f.tables, o, n), d)
  }

  lemma BytesKept(f: Forest, g: Forest, h: Forest, d: Data, e: Data, e': Data, o: nat, w: nat, i: nat, sz: nat,
                  fill: Fill, free: set<nat>, pool: set<nat>)
    requires SameBytes(f, g, d, e, o, w, i) && AllBusy(g.tables, w, 0, i, free, pool) && Quiet(e, e', free, pool)
    requires Edit(g, h, w, i, i + sz, fill) && Top(w) in g.at && i <= MAXPAGE
    ensures SameBytes(f, h, d, e', o, w, i)
  {
    hide Hw, Edit;
    forall n | 0 <= n < i ensures SamePage(Hw(h.tables, w, n), e', Hw(f.tables, o, n), d) {
      EditAt(g, h, w, i, i + sz, fill, w, n);
      assert SamePage(Hw(g.tables, w, n), e, Hw(f.tables, o, n), d) &&
        IsBusy(Hw(g.tables, w, n).value.frame, free, pool);
    }
  }

  lemma PageCopied(f: Forest, g: Forest, h: Forest, d: Data, e: Data, o: nat, w: nat, i: nat, p: nat)
    requires SameBytes(f, h, d, e, o, w, i) && Top(w) in g.at && i < MAXPAGE && Hw(f.tables, o, i).Some?
    requires Edit(g, h, w, i, i + 1, Pages(p, Hw(f.tables, o, i).value.pte))
    requires Hw(f.tables, o, i).value.frame in d && p in e && e[p] == PageOf(d, Hw(f.tables, o, i).value.frame)
    ensures SameBytes(f, h, d, e, o, w, i + 1)
  {
    hide Hw, Edit;
    EditAt(g, h, w, i, i + 1, Pages(p, Hw(f.tables, o, i).value.pte), w, i);
  }

  lemma SuperCopied(f: Forest, g: Forest, h: Forest, d: Data, e: Data, o: nat, w: nat, i: nat, s: nat)
    requires Wf(f) && SameBytes(f, h, d, e, o, w, i) && Top(w) in g.at && Top(o) in f.at && i + 512 <= MAXPAGE &&
      i % 512 == 0
    requires Hw(f.tables, o, i).Some? && Hw(f.tables, o, i).value.level == 1
    requires Edit(g, h, w, i, i + 512, Super(s, Hw(f.tables, o, i).value.pte))
    requires Holds(e, s, BlockOf(d, Hw(f.tables, o, i).value.pte.ppn)) &&
      Hw(f.tables, o, i).value.pte.ppn + 512 <= PHYSTOP
    ensures SameBytes(f, h, d, e, o, w, i + 512)
  {
    hide Hw, Edit, Wf, BlockOf;
    var t := Hw(f.tables, o, i).value.pte;
    forall n | 0 <= n < i + 512 ensures SamePage(Hw(h.tables, w, n), e, Hw(f.tables, o, n), d) {
      EditAt(g, h, w, i, i + 512, Super(s, t), w, n);
      if n >= i {
        Block(i, n);
        SuperBlock(f, o, i, n);
        assert BlockOf(d, t.ppn)[n - i] == PageOf(d, t.ppn + (n - i));
      }
    }
  }

  /** Pages of the source tree read the same while only free memory is written. */
  lemma SourceKept(f: Forest, d: Data, e: Data, o: nat, n: nat, hi: nat, free: set<nat>, pool: set<nat>)
    requires AllBusy(f.tables, o, 0, hi, free, pool) && Quiet(d, e, free, pool) && n < hi && Hw(f.tables, o, n).Some?
    ensures PageOf(e, Hw(f.tables, o, n).value.frame) == PageOf(d, Hw(f.tables, o, n).value.frame)
    ensures Hw(f.tables, o, n).value.frame < PHYSTOP && Hw(f.tables, o, n).value.frame in d
  {
    hide Hw;
    assert IsBusy(Hw(f.tables, o, n).value.frame, free, pool);
  }

  lemma SourceBlockKept(f: Forest, d: Data, e: Data, o: nat, i: nat, hi: nat, free: set<nat>, pool: set<nat>)
    requires Wf(f) && Top(o) in f.at && AllBusy(f.tables, o, 0, hi, free, pool) && Quiet(d, e, free, pool)
    requires i % 512 == 0 && i + 512 <= hi <= MAXPAGE && Hw(f.tables, o, i).Some? && Hw(f.tables, o, i).value.level == 1
    ensures BlockOf(e, Hw(f.tables, o, i).value.pte.ppn) == BlockOf(d, Hw(f.tables, o, i).value.pte.ppn)
    ensures Hw(f.tables, o, i).value.pte.ppn + 512 <= PHYSTOP
  {
    hide Hw, Wf, BlockOf, PageOf, AllBusy, Quiet;
    var s := Hw(f.tables, o, i).value.pte.ppn;
    forall k | 0 <= k < 512 ensures BlockOf(e, s)[k] == BlockOf(d, s)[k] && s + k < PHYSTOP {
      Block(i, i + k);
      SuperBlock(f, o, i, i + k);
      SourceKept(f, d, e, o, i + k, hi, free, pool);
    }
    assert BlockOf(e, s)[511] == BlockOf(d, s)[511];
  }

  lemma StillFree(f: Forest, g: Forest, o: nat, w: nat, i: nat, hi: nat)
    requires Copied(f, g, o, w, i) && NoneMapped(f.tables, w, 0, hi) && Top(w) in f.at && hi <= MAXPAGE
    ensures NoneMapped(g.tables, w, i, hi) && Top(w) in g.at
  {
    hide Hw;
    forall n | i <= n < hi ensures Hw(g.tables, w, n) == None { CopiedAt(f, g, o, w, i, w, n); }
  }

  /** The leaf at page i of the source, seen from the middle of the copy. */
  lemma SourceLeaf(f: Forest, g: Forest, o: nat, w: nat, i: nat, hi: nat)
    requires Wf(f) && Copied(f, g, o, w, i) && o != w && Top(o) in f.at && i < hi <= USERTOP
    requires AllMapped(f.tables, o, 0, hi) && !Inside(f.tables, o, i) && !Inside(f.tables, o, hi)
    ensures Hw(g.tables, o, i) == Hw(f.tables, o, i) && Hw(f.tables, o, i).Some? && Hw(f.tables, o, i).value.level <= 1
    ensures Hw(f.tables, o, i).value.pte.v && Hw(f.tables, o, i).value.pte.r
    ensures Hw(f.tables, o, i).value.level == 1 ==> i % 512 == 0 && i + 512 <= hi && !Inside(f.tables, o, i + 512)
    ensures Hw(f.tables, o, i).value.level == 0 ==> !Inside(f.tables, o, i + 1)
  {
    hide Wf, Hw, Copied;
    CopiedAt(f, g, o, w, i, o, i);
    LevelBound(f, o, i);
    LeafReadable(f, o, i);
    if Hw(f.tables, o, i).value.level == 1 {
      if hi < i + 512 { NoStraddle(f, o, i, hi); }
    } else {
      NextBoundary(f, o, i);
    }
  }

  lemma LeafReadable(f: Forest, root: nat, n: nat)
    requires Wf(f) && Top(root) in f.at && n < MAXPAGE && Hw(f.tables, root, n).Some?
    ensures Hw(f.tables, root, n).value.pte.v && Hw(f.tables, root, n).value.pte.r
  {
    SlotSays(f, root, n);
    SlotKind(f, root, n);
    hide Placed, Rooted, Px0, Px1, Px2, Hw;
    EntryAt(f, PathSlot(f, root, n).q, PathSlot(f, root, n).i);
  }

  lemma StartCopy(f: Forest, d: Data, o: nat, w: nat, l: set<nat>, p: set<nat>)
    ensures Copied(f, f, o, w, 0) && SameBytes(f, f, d, d, o, w, 0) && !Inside(f.tables, o, 0)
    ensures NoNewTables(f, f, w, 0) && Quiet(d, d, l, p)
  {
    hide Hw;
  }

  lemma FreeBlock(g: Forest, w: nat, i: nat, hi: nat)
    requires NoneMapped(g.tables, w, i, hi) && i + 512 <= hi
    ensures NoneMapped(g.tables, w, i, i + 512)
  {}

  lemma NoneLess(tables: map<nat, seq<Pte>>, w: nat, hi: nat, i: nat)
    requires NoneMapped(tables, w, 0, hi) && i <= hi
    ensures NoneMapped(tables, w, 0, i)
  {}

  /** One round of uvmcopy extends the copy. d0 is the memory at the start, d and d' before and after the round. */
  lemma CopyStepOk(f: Forest, g: Forest, h: Forest, d0: Data, d: Data, d': Data, o: nat, w: nat, i: nat,
                   inc: nat, hi: nat, p: nat, free: set<nat>, pool: set<nat>, free0: set<nat>, pool0: set<nat>)
    requires Wf(f) && o != w && Top(o) in f.at && Top(w) in f.at && i < hi <= USERTOP && Hw(f.tables, o, i).Some?
    requires Hw(g.tables, o, i) == Hw(f.tables, o, i) && Hw(f.tables, o, i).value.pte.v &&
      Hw(f.tables, o, i).value.level <= 1
    requires Hw(f.tables, o, i).value.level == 1 ==> i % 512 == 0 && i + 512 <= hi
    requires inc == if Hw(f.tables, o, i).value.level == 1 then 512 else 1
    requires Copied(f, g, o, w, i) && SameBytes(f, g, d0, d, o, w, i)
    requires AllBusy(g.tables, w, 0, i, free, pool) && Quiet(d, d', free, pool)
    requires AllBusy(f.tables, o, 0, hi, free0, pool0) && Quiet(d0, d, free0, pool0)
    requires inc == 512 ==>
      Edit(g, h, w, i, i + 512, Super(p, Hw(f.tables, o, i).value.pte)) &&
      Holds(d', p, BlockOf(d, Hw(f.tables, o, i).value.pte.ppn))
    requires inc == 1 ==>
      Edit(g, h, w, i, i + 1, Pages(p, Hw(f.tables, o, i).value.pte)) && p in d' &&
      d'[p] == PageOf(d, Hw(f.tables, o, i).value.frame)
    ensures Copied(f, h, o, w, i + inc) && SameBytes(f, h, d0, d', o, w, i + inc)
  {
    hide Wf, Hw, Copied, SameBytes, AllBusy, Quiet, Edit, Holds, BlockOf, PageOf;
    var e := Hw(f.tables, o, i).value.pte;
    CopiedAt(f, g, o, w, i, w, i);
    if inc == 512 {
      BytesKept(f, g, h, d0, d, d', o, w, i, 512, Super(p, e), free, pool);
      SourceBlockKept(f, d0, d, o, i, hi, free0, pool0);
      SuperCopied(f, g, h, d0, d', o, w, i, p);
      CopiedSuper(f, g, h, o, w, i, p);
    } else {
      BytesKept(f, g, h, d0, d, d', o, w, i, 1, Pages(p, e), free, pool);
      SourceKept(f, d0, d, o, i, hi, free0, pool0);
      PageCopied(f, g, h, d0, d', o, w, i, p);
      CopiedPage(f, g, h, o, w, i, p);
    }
  }
}
