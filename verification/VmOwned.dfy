/** Which tree a user page belongs to: the leaves below the trap frame own their frames. */
module VmOwned {
  import opened PageTable
  import opened VmSpec

  /** User memory ends below the trap frame and the trampoline. */
  const USERTOP: nat := MAXPAGE - 2

  // ---------------------------------------------------------------- the superpage pool

  /** Each superpage is on exactly one of: the pool, the user leaves, or the caller of superalloc. */
  ghost predicate Pooled(all: set<nat>, pool: seq<nat>, supers: set<nat>, held: set<nat>) {
    && Distinct(pool) && |all| == NSUPERPAGES && 0 !in all
    && (forall s :: s in all ==> s % 512 == 0 && SUPERBASE <= s && s + 512 <= PHYSTOP)
    && Elems(pool) + supers + held == all
    && Elems(pool) !! supers && Elems(pool) !! held && supers !! held
  }

  lemma {:induction false} DistinctSize(s: seq<nat>)
    requires Distinct(s)
    ensures |Elems(s)| == |s|
  {
    if s == [] {
      assert Elems(s) == {};
    } else {
      var n := |s| - 1;
      DistinctSize(s[..n]);
      assert Elems(s) == Elems(s[..n]) + {s[n]};
      assert s[n] !in Elems(s[..n]);
    }
  }

  lemma SubsetSize(a: set<nat>, b: set<nat>)
    requires a <= b
    ensures |a| <= |b|
  {
    assert b == a + (b - a);
  }

  /** A superpage somebody holds always fits back: the overflow panic of superfree is out of reach. */
  lemma PoolHasRoom(all: set<nat>, pool: seq<nat>, supers: set<nat>, held: set<nat>, s: nat)
    requires Pooled(all, pool, supers, held) && s in held
    ensures |pool| < NSUPERPAGES && s % 512 == 0 && SUPERBASE <= s && s + 512 <= PHYSTOP
  {
    DistinctSize(pool);
    SubsetSize(Elems(pool), all - {s});
  }

  lemma TakeSuper(all: set<nat>, pool: seq<nat>, supers: set<nat>, held: set<nat>)
    requires Pooled(all, pool, supers, held) && |pool| > 0
    ensures var s, n := pool[|pool| - 1], |pool| - 1;
      Pooled(all, pool[..n], supers, held + {s}) && s != 0 && s !in held && s !in supers && s % 512 == 0
  {
    var s, n := pool[|pool| - 1], |pool| - 1;
    assert Elems(pool) == Elems(pool[..n]) + {s};
  }

  lemma GiveSuper(all: set<nat>, pool: seq<nat>, supers: set<nat>, held: set<nat>, s: nat)
    requires Pooled(all, pool, supers, held) && s in held
    ensures Pooled(all, pool + [s], supers, held - {s})
  {
    assert Elems(pool + [s]) == Elems(pool) + {s};
  }

  lemma SuperToLeaf(all: set<nat>, pool: seq<nat>, supers: set<nat>, held: set<nat>, s: nat)
    requires Pooled(all, pool, supers, held) && s in held
    ensures s !in supers && Pooled(all, pool, supers + {s}, held - {s})
  {}

  lemma SuperFromLeaf(all: set<nat>, pool: seq<nat>, supers: set<nat>, held: set<nat>, s: nat)
    requires Pooled(all, pool, supers, held) && s in supers
    ensures Pooled(all, pool, supers - {s}, held + {s})
  {}

  // ---------------------------------------------------------------- owned leaves

  ghost predicate HasOwner(t: Mapping, r: nat, n: nat, frames: map<nat, Spot>, supers: map<nat, Spot>) {
    if t.level == 0 then t.frame in frames && frames[t.frame] == Spot(r, n)
    else t.pte.ppn in supers && supers[t.pte.ppn] == Spot(r, n - n % 512)
  }

  ghost predicate FrameUsed(tables: map<nat, seq<Pte>>, users: set<nat>, p: nat, at: Spot) {
    && at.root in users && at.n < USERTOP && Hw(tables, at.root, at.n).Some?
    && Hw(tables, at.root, at.n).value.level == 0 && Hw(tables, at.root, at.n).value.frame == p
  }

  ghost predicate SuperUsed(tables: map<nat, seq<Pte>>, users: set<nat>, s: nat, at: Spot) {
    && at.root in users && at.n % 512 == 0 && at.n + 512 <= USERTOP && Hw(tables, at.root, at.n).Some?
    && Hw(tables, at.root, at.n).value.level == 1 && Hw(tables, at.root, at.n).value.pte.ppn == s
  }

  /** The leaves of user memory and the frames recorded as owned correspond one to one. */
  ghost predicate Owned(tables: map<nat, seq<Pte>>, users: set<nat>, frames: map<nat, Spot>, supers: map<nat, Spot>) {
    && (forall r, n :: r in users && 0 <= n < USERTOP && Hw(tables, r, n).Some? ==>
      HasOwner(Hw(tables, r, n).value, r, n, frames, supers))
    && (forall p :: p in frames ==> FrameUsed(tables, users, p, frames[p]))
    && (forall s :: s in supers ==> SuperUsed(tables, users, s, supers[s]))
  }

  ghost predicate UserRoots(f: Forest, users: set<nat>) { forall r :: r in users ==> Top(r) in f.at }

  lemma UserRoot(f: Forest, users: set<nat>, r: nat)
    requires UserRoots(f, users) && r in users
    ensures Top(r) in f.at
  {}

  lemma OwnedSame(f: Forest, g: Forest, users: set<nat>, frames: map<nat, Spot>, supers: map<nat, Spot>)
    requires SameMaps(f, g) && UserRoots(f, users) && Owned(f.tables, users, frames, supers)
    ensures UserRoots(g, users) && Owned(g.tables, users, frames, supers)
  {
    hide Hw;
    forall p | p in frames
      ensures FrameUsed(g.tables, users, p, frames[p]) { assert FrameUsed(f.tables, users, p, frames[p]); }
    forall s | s in supers
      ensures SuperUsed(g.tables, users, s, supers[s]) { assert SuperUsed(f.tables, users, s, supers[s]); }
  }

  /** The frames owned are determined by the translations, so equal translations mean equal ownership. */
  lemma OwnedDetermined(f: Forest, g: Forest, users: set<nat>, frames: map<nat, Spot>, supers: map<nat, Spot>,
                        frames': map<nat, Spot>, supers': map<nat, Spot>)
    requires SameMaps(f, g) && UserRoots(f, users)
    requires Owned(f.tables, users, frames, supers) && Owned(g.tables, users, frames', supers')
    ensures frames == frames' && supers == supers'
  {
    hide Hw;
    forall p | p in frames ensures p in frames' && frames'[p] == frames[p] {
      assert FrameUsed(f.tables, users, p, frames[p]);
    }
    forall p | p in frames' ensures p in frames && frames'[p] == frames[p] {
      assert FrameUsed(g.tables, users, p, frames'[p]);
    }
    forall s | s in supers ensures s in supers' && supers'[s] == supers[s] {
      assert SuperUsed(f.tables, users, s, supers[s]);
    }
    forall s | s in supers' ensures s in supers && supers'[s] == supers[s] {
      assert SuperUsed(g.tables, users, s, supers'[s]);
    }
  }

  lemma OwnPage(f: Forest, g: Forest, users: set<nat>, frames: map<nat, Spot>, supers: map<nat, Spot>, root: nat,
                n: nat, p: nat, perm: Pte)
    requires Edit(f, g, root, n, n + 1, Pages(p, perm)) && UserRoots(f, users) && Owned(f.tables, users, frames, supers)
    requires root in users && n < USERTOP && p !in frames && Hw(f.tables, root, n) == None
    ensures UserRoots(g, users) && Owned(g.tables, users, frames[p := Spot(root, n)], supers)
  {
    hide Hw;
    var frames' := frames[p := Spot(root, n)];
    forall x | x in frames' ensures FrameUsed(g.tables, users, x, frames'[x]) {
      if x != p { assert FrameUsed(f.tables, users, x, frames[x]); }
    }
    forall s | s in supers
      ensures SuperUsed(g.tables, users, s, supers[s]) { assert SuperUsed(f.tables, users, s, supers[s]); }
  }

  lemma DisownPage(f: Forest, g: Forest, users: set<nat>, frames: map<nat, Spot>, supers: map<nat, Spot>, root: nat,
                   n: nat, p: nat)
    requires Edit(f, g, root, n, n + 1, Nothing) && UserRoots(f, users) && Owned(f.tables, users, frames, supers)
    requires p in frames && frames[p] == Spot(root, n)
    ensures UserRoots(g, users) && Owned(g.tables, users, frames - {p}, supers)
  {
    hide Hw;
    assert FrameUsed(f.tables, users, p, Spot(root, n));
    var frames' := frames - {p};
    forall x | x in frames'
      ensures FrameUsed(g.tables, users, x, frames'[x]) { assert FrameUsed(f.tables, users, x, frames[x]); }
    forall s | s in supers
      ensures SuperUsed(g.tables, users, s, supers[s]) { assert SuperUsed(f.tables, users, s, supers[s]); }
  }

  lemma BlockStart(n: nat, m: nat)
    requires n % 512 == 0 && n <= m < n + 512
    ensures m - m % 512 == n
  {}

  lemma BlockNumber(n: nat, m: nat)
    requires n % 512 == 0 && m - m % 512 == n
    ensures n <= m < n + 512
  {}

  ghost predicate NoneMapped(tables: map<nat, seq<Pte>>, root: nat, lo: nat, hi: nat) {
    forall n :: lo <= n < hi ==> Hw(tables, root, n) == None
  }

  lemma OwnSuper(f: Forest, g: Forest, users: set<nat>, frames: map<nat, Spot>, supers: map<nat, Spot>, root: nat,
                 n: nat, s: nat, perm: Pte)
    requires Edit(f, g, root, n, n + 512, Super(s, perm)) && UserRoots(f, users) &&
      Owned(f.tables, users, frames, supers)
    requires root in users && n % 512 == 0 && n + 512 <= USERTOP && s !in supers
    requires NoneMapped(f.tables, root, n, n + 512)
    ensures UserRoots(g, users) && Owned(g.tables, users, frames, supers[s := Spot(root, n)])
  {
    hide Hw;
    var supers' := supers[s := Spot(root, n)];
    forall r, m | r in users && 0 <= m < USERTOP && Hw(g.tables, r, m).Some?
      ensures HasOwner(Hw(g.tables, r, m).value, r, m, frames, supers')
    {
      if r == root && n <= m < n + 512 { BlockStart(n, m); } else { assert Hw(g.tables, r, m) == Hw(f.tables, r, m); }
    }
    forall x | x in frames
      ensures FrameUsed(g.tables, users, x, frames[x]) { assert FrameUsed(f.tables, users, x, frames[x]); }
    forall x | x in supers' ensures SuperUsed(g.tables, users, x, supers'[x]) {
      if x != s { assert SuperUsed(f.tables, users, x, supers[x]); }
    }
  }

  lemma DisownSuper(f: Forest, g: Forest, users: set<nat>, frames: map<nat, Spot>, supers: map<nat, Spot>, root: nat,
                    n: nat, s: nat)
    requires Edit(f, g, root, n, n + 512, Nothing) && UserRoots(f, users) && Owned(f.tables, users, frames, supers)
    requires s in supers && supers[s] == Spot(root, n) &&
      forall m :: n <= m < n + 512 ==> Hw(f.tables, root, m).Some? && Hw(f.tables, root, m).value.level == 1
    ensures UserRoots(g, users) && Owned(g.tables, users, frames, supers - {s})
  {
    hide Hw;
    assert SuperUsed(f.tables, users, s, Spot(root, n));
    var supers' := supers - {s};
    forall r, m | r in users && 0 <= m < USERTOP && Hw(g.tables, r, m).Some?
      ensures HasOwner(Hw(g.tables, r, m).value, r, m, frames, supers')
    {
      assert Hw(g.tables, r, m) == Hw(f.tables, r, m);
      if m - m % 512 == n && r == root { BlockNumber(n, m); }
    }
    forall x | x in frames
      ensures FrameUsed(g.tables, users, x, frames[x]) { assert FrameUsed(f.tables, users, x, frames[x]); }
    forall x | x in supers' ensures SuperUsed(g.tables, users, x, supers'[x]) {
      assert SuperUsed(f.tables, users, x, supers[x]);
      if supers[x].root == root && n <= supers[x].n < n + 512 { BlockStart(n, supers[x].n); }
    }
  }

  /** A level-1 leaf maps its whole 2 MiB. */
  lemma SuperBlock(f: Forest, root: nat, n: nat, m: nat)
    requires Wf(f) && Top(root) in f.at && n < MAXPAGE && m < MAXPAGE && n / 512 == m / 512
    requires Hw(f.tables, root, n).Some? && Hw(f.tables, root, n).value.level == 1
    ensures Hw(f.tables, root, m) ==
      Some(Mapping(Hw(f.tables, root, n).value.pte.ppn + Px0(m), Hw(f.tables, root, n).value.pte, 1))
  {
    SlotSays(f, root, n);
    SlotSays(f, root, m);
    SameSuperpage(n, m);
    hide Placed, Entries, Rooted, Px0, Px1, Px2, Hw;
  }

  ghost predicate IsSuper(f: Forest, root: nat, n: nat) {
    && Mid(root, Px2(n)) in f.at && At(f, Mid(root, Px2(n)))
    && Entry(f, Mid(root, Px2(n)), Px1(n)).v && Entry(f, Mid(root, Px2(n)), Px1(n)).r
  }

  /** The test uvmunmap and uvmcopy make finds exactly the superpages. */
  lemma SuperEntry(f: Forest, root: nat, n: nat)
    requires Wf(f) && Top(root) in f.at && n < MAXPAGE
    ensures IsSuper(f, root, n) <==> Hw(f.tables, root, n).Some? && Hw(f.tables, root, n).value.level == 1
    ensures IsSuper(f, root, n) ==> Hw(f.tables, root, n).value.pte == Entry(f, Mid(root, Px2(n)), Px1(n))
  {
    SlotSays(f, root, n);
    hide Placed, Px2, Px1, Px0, Hw;
    if Mid(root, Px2(n)) in f.at {
      AtAt(f, Mid(root, Px2(n)));
      HungAt(f, Mid(root, Px2(n)));
      EntryAt(f, Mid(root, Px2(n)), Px1(n));
    }
  }

  lemma SmallEntry(f: Forest, root: nat, n: nat)
    requires Wf(f) && Top(root) in f.at && n < MAXPAGE && Hw(f.tables, root, n).Some? &&
      Hw(f.tables, root, n).value.level == 0
    ensures PathSlot(f, root, n) == Slot(Low(root, Px2(n), Px1(n)), Px0(n)) && At(f, Low(root, Px2(n), Px1(n)))
    ensures var t := Hw(f.tables, root, n).value;
      t.pte == Entry(f, Low(root, Px2(n), Px1(n)), Px0(n)) && t.frame == t.pte.ppn
  {
    SlotSays(f, root, n);
    hide Placed, Entries, Rooted, Px2, Px1, Px0, Hw;
  }

  lemma SmallOwner(f: Forest, users: set<nat>, frames: map<nat, Spot>, supers: map<nat, Spot>, root: nat, n: nat)
    requires Owned(f.tables, users, frames, supers) && root in users && n < USERTOP
    requires Hw(f.tables, root, n).Some? && Hw(f.tables, root, n).value.level == 0
    ensures var p := Hw(f.tables, root, n).value.frame; p in frames && frames[p] == Spot(root, n)
  {
    hide Hw;
  }

  lemma SuperOwner(f: Forest, users: set<nat>, frames: map<nat, Spot>, supers: map<nat, Spot>, root: nat, n: nat)
    requires Wf(f) && UserRoots(f, users) && Owned(f.tables, users, frames, supers) && root in users && n % 512 == 0 &&
      n + 512 <= USERTOP
    requires Hw(f.tables, root, n).Some? && Hw(f.tables, root, n).value.level == 1
    ensures var s := Hw(f.tables, root, n).value.pte.ppn; s in supers && supers[s] == Spot(root, n)
    ensures forall m :: n <= m < n + 512 ==> Hw(f.tables, root, m).Some? && Hw(f.tables, root, m).value.level == 1
  {
    hide Wf, Hw;
    forall m | n <= m < n + 512 ensures Hw(f.tables, root, m).Some? && Hw(f.tables, root, m).value.level == 1 {
      Block(n, m);
      SuperBlock(f, root, n, m);
    }
  }

  // ---------------------------------------------------------------- contents

  function FillData(d: Data, lo: nat, count: nat, b: nat): (d': Data) {
    map p | p in d :: if lo <= p < lo + count then Filled(b) else d[p]
  }

  /** Only pages in the given free sets are written. */
  ghost predicate Quiet(d: Data, d': Data, free: set<nat>, pool: set<nat>) {
    && (forall p :: p in d && p !in free && p - p % 512 !in pool ==> p in d' && d'[p] == d[p])
    && (forall p :: p in d' && p !in free && p - p % 512 !in pool ==> p in d)
  }

  lemma QuietFill(d: Data, s: nat, b: nat, free: set<nat>, pool: seq<nat>)
    requires s % 512 == 0
    ensures Quiet(d, FillData(d, s, 512, b), free, Elems(pool + [s]))
  {
    hide Filled;
    forall p | p in d && s <= p < s + 512 ensures p - p % 512 == s { BlockStart(s, p); }
    assert s in Elems(pool + [s]) by { assert (pool + [s])[|pool|] == s; }
  }

  lemma QuietStore(d: Data, p: nat, page: Page, l: seq<nat>, pool: set<nat>)
    ensures Quiet(d, d[p := page], Elems([p] + l), pool)
  {
    assert p in Elems([p] + l) by { assert ([p] + l)[0] == p; }
  }

  lemma PoolGrew(pool: seq<nat>, s: nat)
    ensures Elems(pool) <= Elems(pool + [s])
  {}

  lemma FreeGrew(l: seq<nat>, p: nat)
    ensures Elems(l) <= Elems([p] + l)
  {}

  lemma SuperNotHeld(all: set<nat>, pool: seq<nat>, supers: set<nat>, held: set<nat>, s: nat)
    requires Pooled(all, pool, supers, held) && s in supers
    ensures s !in held && s % 512 == 0
  {}

  lemma FrameNotOther(all: set<nat>, freelist: seq<nat>, tables: set<nat>, frames: set<nat>, other: set<nat>, p: nat)
    requires Shared(all, freelist, tables, frames, other) && p in frames
    ensures p !in other
  {}

  lemma WroteNoPage(f: Forest, g: Forest, root: nat, n: nat)
    requires Wrote(f, g, Low(root, Px2(n), Px1(n)), Px0(n), ZERO)
    ensures Edit(f, g, root, n, n + 1, Nothing)
  {
    hide Wrote, Edit;
    WroteLow(f, g, root, n, ZERO, Nothing);
  }

  lemma WroteNoSuper(f: Forest, g: Forest, root: nat, n: nat)
    requires Wrote(f, g, Mid(root, Px2(n)), Px1(n), ZERO) && n % 512 == 0
    ensures Edit(f, g, root, n, n + 512, Nothing)
  {
    hide Wrote, Edit;
    WroteMid(f, g, root, n, ZERO, Nothing);
  }

  // ---------------------------------------------------------------- unmapping a range

  ghost predicate AllMapped(tables: map<nat, seq<Pte>>, root: nat, lo: nat, hi: nat) {
    forall n :: lo <= n < hi ==> Hw(tables, root, n).Some?
  }

  ghost predicate Inside(tables: map<nat, seq<Pte>>, root: nat, b: nat) {
    b % 512 != 0 && Hw(tables, root, b).Some? && Hw(tables, root, b).value.level == 1
  }

  /** How far uvmunmap clears, from page a on, when the pages below `to` are gone already; None is a panic. */
  ghost function UnmapTo(tables: map<nat, seq<Pte>>, root: nat, a: nat, hi: nat, to: nat): (r: Option<nat>)
    decreases hi - a
  {
    if a >= hi then Some(to)
    else if a < to || Hw(tables, root, a) == None then None
    else if Hw(tables, root, a).value.level != 1 then UnmapTo(tables, root, a + 1, hi, a + 1)
    else if a % 512 == 0 then UnmapTo(tables, root, a + 512, hi, a + 512)
    else UnmapTo(tables, root, a + 1, hi, a - a % 512 + 512)
  }

  /** Where the cleared range starts: a superpage is cleared whole. */
  ghost function UnmapFrom(tables: map<nat, seq<Pte>>, root: nat, lo: nat): (r: nat) {
    if Inside(tables, root, lo) then lo - lo % 512 else lo
  }

  /** Two pages of one superpage are both inside it or both not mapped by it. */
  lemma NextBoundary(f: Forest, root: nat, a: nat)
    requires Wf(f) && Top(root) in f.at && a + 1 <= MAXPAGE && Hw(f.tables, root, a).Some? &&
      Hw(f.tables, root, a).value.level == 0
    ensures !Inside(f.tables, root, a + 1)
  {
    hide Wf, Hw;
    if Inside(f.tables, root, a + 1) {
      assert (a + 1) / 512 == a / 512;
      SuperBlock(f, root, a + 1, a);
    }
  }

  lemma NoStraddle(f: Forest, root: nat, a: nat, hi: nat)
    requires Wf(f) && Top(root) in f.at && a < hi <= MAXPAGE && a % 512 == 0 && hi < a + 512
    requires Hw(f.tables, root, a).Some? && Hw(f.tables, root, a).value.level == 1
    ensures Inside(f.tables, root, hi)
  {
    hide Wf, Hw;
    Block(a, hi);
    SuperBlock(f, root, a, hi);
  }

  /** From a clean start, the range is cleared exactly if and only if its end is no superpage's inside. */
  lemma {:induction false} UnmapEnds(f: Forest, root: nat, a: nat, hi: nat)
    requires Wf(f) && Top(root) in f.at && a <= hi <= MAXPAGE && AllMapped(f.tables, root, a, hi) &&
      !Inside(f.tables, root, a)
    ensures UnmapTo(f.tables, root, a, hi, a).Some?
    ensures UnmapTo(f.tables, root, a, hi, a).value >= hi
    ensures UnmapTo(f.tables, root, a, hi, a) == Some(hi) <==> !Inside(f.tables, root, hi)
    decreases hi - a
  {
    hide Wf, Hw;
    if a < hi {
      assert Hw(f.tables, root, a).Some?;
      LevelBound(f, root, a);
      if Hw(f.tables, root, a).value.level == 1 {
        if a + 512 <= hi { UnmapEnds(f, root, a + 512, hi); } else { NoStraddle(f, root, a, hi); }
      } else {
        NextBoundary(f, root, a);
        UnmapEnds(f, root, a + 1, hi);
      }
    }
  }

  lemma LevelBound(f: Forest, root: nat, n: nat)
    requires Wf(f) && Top(root) in f.at && n < MAXPAGE && Hw(f.tables, root, n).Some?
    ensures Hw(f.tables, root, n).value.level <= 1
  {
    hide Wf;
    SlotSays(f, root, n);
  }

  /** uvmunmap over mapped pages clears exactly what was asked, neither more nor with a panic, if and only if neither
      end of the range cuts a superpage. */
  lemma UnmapExactly(f: Forest, root: nat, lo: nat, hi: nat)
    requires Wf(f) && Top(root) in f.at && lo < hi <= MAXPAGE && AllMapped(f.tables, root, lo, hi)
    ensures UnmapFrom(f.tables, root, lo) == lo && UnmapTo(f.tables, root, lo, hi, lo) == Some(hi) <==>
      !Inside(f.tables, root, lo) && !Inside(f.tables, root, hi)
  {
    hide Wf, Hw;
    if !Inside(f.tables, root, lo) { UnmapEnds(f, root, lo, hi); }
  }

  /** For example: unmapping the last page of a superpage clears all 512. */
  lemma UnmapTail(f: Forest, root: nat, n: nat)
    requires Wf(f) && Top(root) in f.at && n + 512 <= MAXPAGE && n % 512 == 0
    requires Hw(f.tables, root, n).Some? && Hw(f.tables, root, n).value.level == 1
    ensures UnmapFrom(f.tables, root, n + 511) == n &&
      UnmapTo(f.tables, root, n + 511, n + 512, n + 511) == Some(n + 512)
  {
    hide Wf, Hw;
    Block(n, n + 511);
    SuperBlock(f, root, n, n + 511);
  }

  lemma EditCleared(f: Forest, g: Forest, h: Forest, root: nat, lo: nat, mid: nat, hi: nat)
    requires lo <= mid <= hi && Edit(f, g, root, lo, mid, Nothing) && Edit(g, h, root, mid, hi, Nothing)
    ensures Edit(f, h, root, lo, hi, Nothing)
  {
    hide Hw;
  }

  lemma QuietMore(d: Data, e: Data, e': Data, l: set<nat>, p: set<nat>, l': set<nat>, p': set<nat>)
    requires Quiet(d, e, l, p) && Quiet(e, e', l', p') && l <= l' && p <= p'
    ensures Quiet(d, e', l', p')
  {}

  lemma WroteBlock(f: Forest, g: Forest, root: nat, n: nat)
    requires Wrote(f, g, Mid(root, Px2(n)), Px1(n), ZERO)
    ensures Edit(f, g, root, n - n % 512, n - n % 512 + 512, Nothing)
  {
    hide Wrote, Edit;
    var b := n - n % 512;
    assert b % 512 == 0 && b / 512 == n / 512;
    SameSuperpage(b, n);
    WroteMid(f, g, root, b, ZERO, Nothing);
  }

  lemma QuietNone(d: Data, l: set<nat>, p: set<nat>)
    ensures Quiet(d, d, l, p)
  {}

  /** Where unmapping up to hi ends: a superpage that hi cuts goes whole. */
  ghost function UnmapEnd(tables: map<nat, seq<Pte>>, root: nat, hi: nat): (r: nat) {
    if Inside(tables, root, hi) then hi - hi % 512 + 512 else hi
  }

  lemma UnmappedNotInside(tables: map<nat, seq<Pte>>, root: nat, n: nat)
    requires Hw(tables, root, n) == None
    ensures !Inside(tables, root, n)
  {}

  lemma EndAtBoundary(tables: map<nat, seq<Pte>>, root: nat, hi: nat)
    requires !Inside(tables, root, hi)
    ensures UnmapEnd(tables, root, hi) == hi
  {}

  /** The only place at or after hi to stop at, before or at the end, is the end. */
  lemma StopsAtEnd(f: Forest, root: nat, a: nat, hi: nat)
    requires Wf(f) && Top(root) in f.at && hi <= a <= UnmapEnd(f.tables, root, hi) <= MAXPAGE &&
      !Inside(f.tables, root, a)
    ensures a == UnmapEnd(f.tables, root, hi)
  {
    hide Wf, Hw;
    if Inside(f.tables, root, hi) && a < UnmapEnd(f.tables, root, hi) {
      assert a / 512 == hi / 512 && a % 512 != 0;
      SuperBlock(f, root, hi, a);
    }
  }

  lemma SuperFits(tables: map<nat, seq<Pte>>, users: set<nat>, frames: map<nat, Spot>, supers: map<nat, Spot>,
                  root: nat, n: nat)
    requires Owned(tables, users, frames, supers) && root in users && n < USERTOP && Hw(tables, root, n).Some? &&
      Hw(tables, root, n).value.level == 1
    ensures n - n % 512 + 512 <= USERTOP
  {
    hide Hw;
    var t := Hw(tables, root, n).value;
    assert HasOwner(t, root, n, frames, supers);
    assert SuperUsed(tables, users, t.pte.ppn, supers[t.pte.ppn]);
  }

  /** The next step of an unmapping that starts at a boundary. */
  lemma NextUnmap(f: Forest, g: Forest, root: nat, lo: nat, a: nat, hi: nat)
    requires Wf(f) && Top(root) in f.at && lo <= a < hi <= USERTOP && AllMapped(f.tables, root, lo, hi)
    requires Edit(f, g, root, lo, a, Nothing) && !Inside(f.tables, root, a)
    ensures Hw(g.tables, root, a) == Hw(f.tables, root, a) && Hw(g.tables, root, a).Some? &&
      Hw(g.tables, root, a).value.level <= 1
    ensures Hw(g.tables, root, a).value.level == 1 ==>
      a % 512 == 0 && a + 512 <= UnmapEnd(f.tables, root, hi) && !Inside(f.tables, root, a + 512)
    ensures Hw(g.tables, root, a).value.level == 0 ==>
      a + 1 <= UnmapEnd(f.tables, root, hi) && !Inside(f.tables, root, a + 1)
  {
    hide Wf, Hw;
    EditAt(f, g, root, lo, a, Nothing, root, a);
    LevelBound(f, root, a);
    if Hw(f.tables, root, a).value.level == 1 {
      if hi < a + 512 { NoStraddle(f, root, a, hi); }
    } else {
      NextBoundary(f, root, a);
    }
  }

  lemma FromBelow(tables: map<nat, seq<Pte>>, root: nat, lo: nat)
    ensures UnmapFrom(tables, root, lo) <= lo
  {}

  /** The pages one step of uvmunmap clears. */
  ghost function ClearLo(t: Mapping, a: nat): nat { if t.level == 1 then a - a % 512 else a }

  ghost function ClearHi(t: Mapping, a: nat): nat { if t.level == 1 then a - a % 512 + 512 else a + 1 }

  /** One step extends the cleared range, and leaves no superpage cut at its new end. */
  lemma ClearMore(f: Forest, g: Forest, h: Forest, root: nat, lo: nat, a: nat)
    requires Wf(f) && Top(root) in f.at && lo <= a < MAXPAGE && Hw(f.tables, root, a).Some?
    requires (a == lo && g == f) ||
      (lo < a && Edit(f, g, root, UnmapFrom(f.tables, root, lo), a, Nothing) && !Inside(f.tables, root, a))
    requires var t := Hw(f.tables, root, a).value; Edit(g, h, root, ClearLo(t, a), ClearHi(t, a), Nothing)
    ensures var t := Hw(f.tables, root, a).value;
      && Edit(f, h, root, UnmapFrom(f.tables, root, lo), ClearHi(t, a), Nothing)
      && !Inside(f.tables, root, ClearHi(t, a)) && a < ClearHi(t, a)
  {
    hide Wf, Hw, Edit;
    var t := Hw(f.tables, root, a).value;
    LevelBound(f, root, a);
    if t.level == 0 { NextBoundary(f, root, a); }
    if a > lo { EditCleared(f, g, h, root, UnmapFrom(f.tables, root, lo), a, ClearHi(t, a)); }
  }

  lemma SlotKind(f: Forest, root: nat, n: nat)
    requires Wf(f) && Top(root) in f.at && n < MAXPAGE && PathSlot(f, root, n).Slot?
    ensures var s := PathSlot(f, root, n);
      || (s == Slot(Mid(root, Px2(n)), Px1(n)) && Leaf(Entry(f, s.q, s.i)))
      || s == Slot(Low(root, Px2(n), Px1(n)), Px0(n))
  {
    hide Placed, Entries, Rooted, Px0, Px1, Px2;
  }
}
