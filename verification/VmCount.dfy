/** How much memory growing a tree takes: one page of kalloc's for every 4 KiB page and for every table page that is
    missing on the way to it, one superpage of the pool for every superpage. */
module VmCount {
  import opened PageTable
  import opened VmSpec
  import opened VmOwned

  // ---------------------------------------------------------------- counting pages

  lemma {:induction false} SameSize(at: map<Pos, nat>, pos: map<nat, Pos>, a: set<Pos>, b: set<nat>)
    requires forall q :: q in a ==> q in at && at[q] in b && at[q] in pos && pos[at[q]] == q
    requires forall p :: p in b ==> p in pos && pos[p] in a && pos[p] in at && at[pos[p]] == p
    ensures |a| == |b|
    decreases |a|
  {
    if a == {} {
      assert b == {};
    } else {
      var q :| q in a;
      SameSize(at, pos, a - {q}, b - {at[q]});
    }
  }

  /** As many table pages as places. */
  lemma TablesCount(f: Forest)
    requires Wf(f)
    ensures |f.tables.Keys| == |f.at.Keys|
  {
    hide Entries, Rooted;
    SameSize(f.at, f.pos, f.at.Keys, f.tables.Keys);
  }

  lemma FreeCount(all: set<nat>, freelist: seq<nat>, tables: set<nat>, frames: set<nat>, other: set<nat>)
    requires Shared(all, freelist, tables, frames, other)
    ensures |freelist| + |tables| + |frames| + |other| == |all|
  {
    DistinctSize(freelist);
    var l := Elems(freelist);
    assert |l + tables| == |l| + |tables|;
    assert |l + tables + frames| == |l| + |tables| + |frames|;
    assert |l + tables + frames + other| == |l| + |tables| + |frames| + |other|;
  }

  lemma PoolCount(all: set<nat>, pool: seq<nat>, supers: set<nat>, held: set<nat>)
    requires Pooled(all, pool, supers, held)
    ensures |pool| + |supers| + |held| == |all|
  {
    DistinctSize(pool);
    assert |Elems(pool) + supers| == |Elems(pool)| + |supers|;
    assert |Elems(pool) + supers + held| == |Elems(pool)| + |supers| + |held|;
  }

  // ---------------------------------------------------------------- what is needed

  /** The table pages on the way to a 4 KiB page. */
  ghost function PathOf(root: nat, n: nat): set<Pos> { {Mid(root, Px2(n)), Low(root, Px2(n), Px1(n))} }

  ghost function MidsFor(root: nat, pages: set<nat>): set<Pos> { set n | n in pages :: Mid(root, Px2(n)) }

  ghost function LowsFor(root: nat, pages: set<nat>): set<Pos> { set n | n in pages :: Low(root, Px2(n), Px1(n)) }

  /** The table pages on the way to 4 KiB pages and to superpages. */
  ghost function TablesFor(root: nat, plain: set<nat>, blocks: set<nat>): set<Pos> {
    MidsFor(root, plain) + LowsFor(root, plain) + MidsFor(root, blocks)
  }

  /** How many of kalloc's pages it takes to map these in tree f. */
  ghost function Demand(f: Forest, root: nat, plain: set<nat>, blocks: set<nat>): nat {
    |plain| + |TablesFor(root, plain, blocks) - f.at.Keys|
  }

  lemma SubsetSize<T>(a: set<T>, b: set<T>)
    requires a <= b
    ensures |a| <= |b|
  {
    assert b == a + (b - a);
  }

  lemma DemandMore(f: Forest, root: nat, plain: set<nat>, blocks: set<nat>, plain': set<nat>, blocks': set<nat>)
    requires plain <= plain' && blocks <= blocks'
    ensures Demand(f, root, plain, blocks) <= Demand(f, root, plain', blocks') && |blocks| <= |blocks'|
  {
    SubsetSize(plain, plain');
    SubsetSize(blocks, blocks');
    SubsetSize(TablesFor(root, plain, blocks) - f.at.Keys, TablesFor(root, plain', blocks') - f.at.Keys);
  }

  lemma TablesAddPage(root: nat, plain: set<nat>, blocks: set<nat>, a: nat)
    ensures TablesFor(root, plain + {a}, blocks) == TablesFor(root, plain, blocks) + PathOf(root, a)
  {
    hide Px2, Px1;
  }

  lemma TablesAddBlock(root: nat, plain: set<nat>, blocks: set<nat>, a: nat)
    ensures TablesFor(root, plain, blocks + {a}) == TablesFor(root, plain, blocks) + {Mid(root, Px2(a))}
  {
    hide Px2, Px1;
  }

  /** walk finds nothing only where a table page is missing. */
  lemma PathMissing(f: Forest, root: nat, n: nat)
    requires Wf(f) && Top(root) in f.at && n < MAXPAGE
    ensures PathSlot(f, root, n) == Missing ==> !(PathOf(root, n) <= f.at.Keys)
  {
    hide Wf, Px2, Px1, Px0;
    if PathOf(root, n) <= f.at.Keys { LowHere(f, root, n); }
  }

  lemma PathMade(f: Forest, g: Forest, root: nat, n: nat)
    requires Wf(g) && Top(root) in g.at && n < MAXPAGE && GrewFor(f, g, root, n)
    requires PathSlot(g, root, n) == Slot(Low(root, Px2(n), Px1(n)), Px0(n))
    ensures g.at.Keys == f.at.Keys + PathOf(root, n)
  {
    hide Placed, Entries, Px2, Px1, Px0;
    HungAt(g, Low(root, Px2(n), Px1(n)));
  }

  // ---------------------------------------------------------------- what was taken

  /** A round that maps page a, or the superpage there, made just the missing tables and took just one page. */
  ghost predicate Took(f: Forest, fr: set<nat>, su: set<nat>, g: Forest, frames: set<nat>, supers: set<nat>, root: nat,
                       a: nat, super: bool) {
    && g.at.Keys == f.at.Keys + (if super then {Mid(root, Px2(a))} else PathOf(root, a))
    && |frames| == |fr| + (if super then 0 else 1) && |supers| == |su| + (if super then 1 else 0)
  }

  /** Too little is free for that round. */
  ghost predicate Short(f: Forest, free: nat, pool: nat, root: nat, a: nat, super: bool) {
    if super then pool == 0 || free < |{Mid(root, Px2(a))} - f.at.Keys| else free < 1 + |PathOf(root, a) - f.at.Keys|
  }

  lemma NotFrame(all: set<nat>, freelist: seq<nat>, tables: set<nat>, frames: set<nat>, other: set<nat>, p: nat)
    requires Shared(all, freelist, tables, frames, other) && p in other
    ensures p !in frames
  {}

  lemma NotSuper(all: set<nat>, pool: seq<nat>, supers: set<nat>, held: set<nat>, s: nat)
    requires Pooled(all, pool, supers, held) && s in held
    ensures s !in supers
  {}

  /** A page was taken and then walk ran out: what was free is less than the page and the tables it lacks. */
  lemma PageShort(all: set<nat>, other: set<nat>, l: seq<nat>, f: Forest, g: Forest, frames: set<nat>, p: nat,
                  root: nat, a: nat)
    requires Wf(f) && Wf(g) && GrewFor(f, g, root, a) && !(PathOf(root, a) <= g.at.Keys) && p !in other
    requires Shared(all, l, f.tables.Keys, frames, other) && Shared(all, [], g.tables.Keys, frames, other + {p})
    ensures forall pool :: Short(f, |l|, pool, root, a, false)
  {
    hide Wf, Shared, Px2, Px1;
    FreeCount(all, l, f.tables.Keys, frames, other);
    FreeCount(all, [], g.tables.Keys, frames, other + {p});
    TablesCount(f);
    TablesCount(g);
    assert f.at.Keys <= g.at.Keys <= f.at.Keys + PathOf(root, a);
    hide PathOf, GrewFor;
    MissingSome(f.at.Keys, g.at.Keys, PathOf(root, a));
  }

  lemma MissingSome(was: set<Pos>, now: set<Pos>, path: set<Pos>)
    requires was <= now <= was + path && !(path <= now)
    ensures |now| < |was| + |path - was|
  {
    assert now == was + (now - was) && now - was <= path - was;
    var q :| q in path && q !in now;
    SubsetSize(now - was, path - was - {q});
  }

  lemma TookPage(f: Forest, fr: set<nat>, su: set<nat>, g: Forest, frames: set<nat>, root: nat, a: nat, p: nat)
    requires g.at.Keys == f.at.Keys + PathOf(root, a) && frames == fr + {p} && p !in fr
    ensures Took(f, fr, su, g, frames, su, root, a, false)
  {}

  lemma TookBlock(f: Forest, fr: set<nat>, su: set<nat>, g: Forest, supers: set<nat>, root: nat, a: nat, s: nat)
    requires g.at.Keys == f.at.Keys + {Mid(root, Px2(a))} && supers == su + {s} && s !in su
    ensures Took(f, fr, su, g, fr, supers, root, a, true)
  {}

  lemma NothingFree(f: Forest, free: nat, root: nat, a: nat)
    ensures Short(f, free, 0, root, a, true) && forall pool :: Short(f, 0, pool, root, a, false)
  {}

  lemma BlockShort(all: set<nat>, other: set<nat>, l: seq<nat>, f: Forest, g: Forest, frames: set<nat>, root: nat,
                   a: nat)
    requires Wf(f) && Wf(g) && g.at.Keys == f.at.Keys && Mid(root, Px2(a)) !in g.at
    requires Shared(all, l, f.tables.Keys, frames, other) && Shared(all, [], g.tables.Keys, frames, other)
    ensures forall pool :: Short(f, |l|, pool, root, a, true)
  {
    hide Wf, Shared, Px2;
    FreeCount(all, l, f.tables.Keys, frames, other);
    FreeCount(all, [], g.tables.Keys, frames, other);
    TablesCount(f);
    TablesCount(g);
    assert {Mid(root, Px2(a))} - f.at.Keys == {Mid(root, Px2(a))};
  }

  /** From f to g the tree came to map these pages and superpages, and took just what they need. */
  ghost predicate Accounts(f: Forest, fr: set<nat>, su: set<nat>, g: Forest, frames: set<nat>, supers: set<nat>,
                           root: nat, plain: set<nat>, blocks: set<nat>) {
    && g.at.Keys == f.at.Keys + TablesFor(root, plain, blocks)
    && |frames| == |fr| + |plain| && |supers| == |su| + |blocks|
  }

  lemma AccountsNone(f: Forest, fr: set<nat>, su: set<nat>, root: nat)
    ensures Accounts(f, fr, su, f, fr, su, root, {}, {})
  {
    assert TablesFor(root, {}, {}) == {};
  }

  lemma AccountsMore(f: Forest, fr: set<nat>, su: set<nat>, g: Forest, fr': set<nat>, su': set<nat>, h: Forest,
                     fr'': set<nat>, su'': set<nat>, root: nat, plain: set<nat>, blocks: set<nat>, a: nat, super: bool)
    requires Accounts(f, fr, su, g, fr', su', root, plain, blocks) && Took(g, fr', su', h, fr'', su'', root, a, super)
    requires if super then a !in blocks else a !in plain
    ensures Accounts(f, fr, su, h, fr'', su'', root,
      if super then plain else plain + {a}, if super then blocks + {a} else blocks)
  {
    hide TablesFor;
    if super { TablesAddBlock(root, plain, blocks, a); } else { TablesAddPage(root, plain, blocks, a); }
  }

  /** What is free is what was free without what was needed. */
  lemma Spent(all: set<nat>, other: set<nat>, f: Forest, l: seq<nat>, fr: set<nat>, g: Forest, m: seq<nat>,
              fr': set<nat>, su: set<nat>, su': set<nat>, root: nat, plain: set<nat>, blocks: set<nat>)
    requires Wf(f) && Wf(g) && Shared(all, l, f.tables.Keys, fr, other) && Shared(all, m, g.tables.Keys, fr', other)
    requires Accounts(f, fr, su, g, fr', su', root, plain, blocks)
    ensures |m| + Demand(f, root, plain, blocks) == |l|
  {
    hide Wf, Shared, TablesFor;
    FreeCount(all, l, f.tables.Keys, fr, other);
    FreeCount(all, m, g.tables.Keys, fr', other);
    TablesCount(f);
    TablesCount(g);
    var t := TablesFor(root, plain, blocks);
    assert g.at.Keys == f.at.Keys + (t - f.at.Keys);
  }

  lemma SpentPool(all: set<nat>, held: set<nat>, p: seq<nat>, su: set<nat>, q: seq<nat>, su': set<nat>,
                  blocks: set<nat>)
    requires Pooled(all, p, su, held) && Pooled(all, q, su', held) && |su'| == |su| + |blocks|
    ensures |q| + |blocks| == |p|
  {
    hide Pooled;
    PoolCount(all, p, su, held);
    PoolCount(all, q, su', held);
  }

  /** When a round finds too little, the pages up to and with it need more than there was. */
  lemma ShortDemand(f: Forest, fr: set<nat>, su: set<nat>, g: Forest, fr': set<nat>, su': set<nat>, root: nat,
                    plain: set<nat>,
                    blocks: set<nat>, a: nat, super: bool, free: nat, free': nat, pool: nat, pool': nat)
    requires Accounts(f, fr, su, g, fr', su', root, plain, blocks) && Short(g, free', pool', root, a, super)
    requires free' + Demand(f, root, plain, blocks) == free && pool' + |blocks| == pool
    requires if super then a !in blocks else a !in plain
    ensures if super then Demand(f, root, plain, blocks + {a}) > free || |blocks + {a}| > pool
      else Demand(f, root, plain + {a}, blocks) > free
  {
    hide TablesFor, PathOf, Px2;
    var t := TablesFor(root, plain, blocks);
    if super {
      TablesAddBlock(root, plain, blocks, a);
      MissingAlso(t, {Mid(root, Px2(a))}, f.at.Keys, g.at.Keys);
    } else {
      TablesAddPage(root, plain, blocks, a);
      MissingAlso(t, PathOf(root, a), f.at.Keys, g.at.Keys);
    }
  }

  lemma MissingAlso(t: set<Pos>, u: set<Pos>, was: set<Pos>, now: set<Pos>)
    requires now == was + t
    ensures |(t + u) - was| == |t - was| + |u - now|
  {
    assert (t + u) - was == (t - was) + (u - now);
    assert (t - was) !! (u - now);
  }
}
