/** What freewalk leaves: a tree without leaves is taken apart page by page and the other trees are untouched. */
module VmFree {
  import opened PageTable
  import opened VmSpec
  import opened VmOwned

  ghost function LevelOf(q: Pos): (l: nat) { match q case Top(_) => 2 case Mid(_, _) => 1 case Low(_, _, _) => 0 }

  /** Place p is q or below it. */
  ghost predicate Under(q: Pos, p: Pos) {
    match q
    case Top(r) => p.root == r
    case Mid(r, i2) => p == q || (p.Low? && p.root == r && p.i2 == i2)
    case Low(_, _, _) => p == q
  }

  /** Every page that is not below q is where it was, with the entries it had. */
  ghost predicate Kept(f: Forest, g: Forest, q: Pos) {
    forall p :: At(f, p) && !Under(q, p) ==> KeptAt(f, g, p)
  }

  ghost predicate KeptAt(f: Forest, g: Forest, p: Pos)
    requires At(f, p)
  {
    At(g, p) && g.at[p] == f.at[p] && g.tables[g.at[p]] == f.tables[f.at[p]]
  }

  ghost predicate NotMore(f: Forest, g: Forest) { g.at.Keys <= f.at.Keys && g.tables.Keys <= f.tables.Keys }

  ghost predicate Freed(f: Forest, g: Forest, q: Pos) {
    Wf(g) && Childless(g, q) && NoLeaf(g, q.root) && Kept(f, g, q) && NotMore(f, g)
  }

  /** freewalk of the page at q after i entries. */
  ghost predicate Freeing(f: Forest, g: Forest, q: Pos, i: nat) {
    && Wf(g) && At(g, q) && NoLeaf(g, q.root) && Kept(f, g, q) && NotMore(f, g)
    && forall j :: 0 <= j < i <= 512 ==> !Entry(g, q, j).v
  }

  ghost function ChildOf(q: Pos, i: nat): Pos {
    match q
    case Top(r) => Mid(r, i)
    case Mid(r, i2) => Low(r, i2, i)
    case Low(_, _, _) => q
  }

  lemma FreeingStart(f: Forest, q: Pos)
    requires Wf(f) && At(f, q) && NoLeaf(f, q.root)
    ensures Freeing(f, f, q, 0)
  {
    hide Wf;
  }

  /** A valid entry that is no leaf leads to a child one level down. */
  lemma FreeingAt(f: Forest, g: Forest, q: Pos, i: nat)
    requires Freeing(f, g, q, i) && i < 512
    ensures Wf(g) && At(g, q) && NoLeaf(g, q.root)
    ensures Entry(g, q, i).v ==> !Leaf(Entry(g, q, i)) && !q.Low?
    ensures Entry(g, q, i).v ==> At(g, ChildOf(q, i)) && Entry(g, q, i).ppn == g.at[ChildOf(q, i)]
  {
    hide Rooted, Kept, Placed;
    EntryAt(g, q, i);
    if Entry(g, q, i).v { AtAt(g, ChildOf(q, i)); }
  }

  lemma FreeingSkip(f: Forest, g: Forest, q: Pos, i: nat)
    requires Freeing(f, g, q, i) && i < 512 && At(g, q) && !Entry(g, q, i).v
    ensures Freeing(f, g, q, i + 1)
  {
    hide Wf, Kept, NoLeaf;
  }

  lemma FreeingDone(f: Forest, g: Forest, q: Pos)
    requires Freeing(f, g, q, 512)
    ensures Freed(f, g, q) && At(g, q)
  {
    hide Wf, Kept, NoLeaf;
  }

  /** The page above is as it was, and is another page. */
  lemma FreedParent(h: Forest, g: Forest, q: Pos, i: nat)
    requires Freed(h, g, ChildOf(q, i)) && At(h, q) && !q.Low? && i < 512
    ensures At(g, ChildOf(q, i)) && At(g, q) && g.at[q] == h.at[q] && g.tables[g.at[q]] == h.tables[h.at[q]]
    ensures g.at[q] != g.at[ChildOf(q, i)] && Parent(ChildOf(q, i)) == q && IndexIn(ChildOf(q, i)) == i
  {
    hide Entries, Rooted, NoLeaf;
    assert KeptAt(h, g, q);
    Apart(g, q, ChildOf(q, i));
  }

  /** Clearing the entry after the recursive call is taking the child out. */
  lemma ClearIsPrune(g: Forest, q: Pos, c: Pos, i: nat)
    requires At(g, q) && At(g, c) && HasParent(c) && Parent(c) == q && IndexIn(c) == i < 512 && g.at[q] != g.at[c]
    ensures var k := Cut(g, c);
      && g.at[q] in k.tables && k.tables[g.at[q]] == g.tables[g.at[q]]
      && Forest(k.tables[g.at[q] := g.tables[g.at[q]][i := ZERO]], k.at, k.pos) == Prune(g, c)
  {
    var k := Cut(g, c);
    var a, b := k.tables[g.at[q] := g.tables[g.at[q]][i := ZERO]], Prune(g, c).tables;
    assert a.Keys == b.Keys;
    forall p | p in a ensures a[p] == b[p] {}
    assert a == b;
  }

  lemma PruneKept(g: Forest, q: Pos, c: Pos, i: nat, p: Pos)
    requires Wf(g) && Childless(g, c) && At(g, q) && HasParent(c) && Parent(c) == q && IndexIn(c) == i < 512 &&
      At(g, p) && p != q && p != c
    ensures KeptAt(g, Prune(g, c), p)
  {
    hide Entries, Rooted;
    assert At(g, c);
    hide Childless;
    Apart(g, p, q);
    Apart(g, p, c);
  }

  lemma PruneNoLeaf(g: Forest, c: Pos, root: nat)
    requires Wf(g) && At(g, c) && NoLeaf(g, root) && (HasParent(c) ==> At(g, Parent(c)) && IndexIn(c) < 512)
    ensures NoLeaf(Prune(g, c), root)
  {
    PruneEntries(g, c);
    hide Wf, Prune, At, Entry;
  }

  lemma FreeingMore(f: Forest, h: Forest, g: Forest, k: Forest, q: Pos, i: nat)
    requires Freeing(f, h, q, i) && i < 512 && !q.Low? && Freed(h, g, ChildOf(q, i)) && At(g, q) && At(h, q) &&
      At(g, ChildOf(q, i))
    requires g.at[q] == h.at[q] && g.tables[g.at[q]] == h.tables[h.at[q]] && k == Prune(g, ChildOf(q, i))
    ensures Freeing(f, k, q, i + 1) && q in k.at && k.at[q] == h.at[q]
  {
    hide Wf, NoLeaf;
    var c := ChildOf(q, i);
    PruneWf(g, c);
    PruneNoLeaf(g, c, q.root);
    assert At(k, q) && k.at[q] == g.at[q] && forall j :: 0 <= j < i + 1 ==> !Entry(k, q, j).v by {
      WfPlaced(g);
      PruneEntries(g, c);
      assert forall j :: 0 <= j < i ==> Entry(g, q, j) == Entry(h, q, j);
    }
    assert Kept(f, k, q) by {
      forall p | At(f, p) && !Under(q, p) ensures KeptAt(f, k, p) {
        assert KeptAt(f, h, p) && KeptAt(h, g, p);
        PruneKept(g, q, c, i, p);
      }
    }
    assert NotMore(f, k);
  }

  lemma WfPlaced(f: Forest)
    requires Wf(f)
    ensures Placed(f)
  {}

  // ---------------------------------------------------------------- the other trees

  ghost predicate OthersSame(f: Forest, g: Forest, root: nat) {
    && (forall r :: r != root && Top(r) in f.at ==> Top(r) in g.at)
    && (forall r, n :: r != root && Top(r) in f.at && 0 <= n < MAXPAGE ==> Hw(g.tables, r, n) == Hw(f.tables, r, n))
  }

  lemma KeptView(f: Forest, g: Forest, root: nat, r: nat, n: nat)
    requires Wf(f) && Wf(g) && Kept(f, g, Top(root)) && r != root && Top(r) in f.at && n < MAXPAGE
    ensures Top(r) in g.at && Hw(g.tables, r, n) == Hw(f.tables, r, n)
  {
    AtWf(f, Top(r));
    assert KeptAt(f, g, Top(r));
    TranslateIsView(f, r, n);
    TranslateIsView(g, r, n);
    hide Placed, Rooted, Entries, Px0, Px1, Px2, Hw;
    TopIndex(n);
    EntryAt(f, Top(r), Px2(n));
    if Entry(f, Top(r), Px2(n)).v {
      AtAt(f, Mid(r, Px2(n)));
      assert KeptAt(f, g, Mid(r, Px2(n)));
      EntryAt(f, Mid(r, Px2(n)), Px1(n));
      if Low(r, Px2(n), Px1(n)) in f.at {
        AtAt(f, Low(r, Px2(n), Px1(n)));
        assert KeptAt(f, g, Low(r, Px2(n), Px1(n)));
      }
    }
    assert PathSlot(g, r, n) == PathSlot(f, r, n);
  }

  /** When the root page goes too, nothing of the tree is left and the other trees translate as before. */
  lemma TreeGone(f: Forest, g: Forest, root: nat)
    requires Wf(f) && Freed(f, g, Top(root)) && At(g, Top(root))
    ensures Wf(Cut(g, Top(root))) && OthersSame(f, Cut(g, Top(root)), root) && NotMore(f, Cut(g, Top(root)))
    ensures forall q :: q in Cut(g, Top(root)).at ==> q.root != root
  {
    var k := Cut(g, Top(root));
    PruneWf(g, Top(root));
    assert k == Prune(g, Top(root));
    assert Kept(f, k, Top(root)) by {
      forall p | At(f, p) && !Under(Top(root), p) ensures KeptAt(f, k, p) {
        assert KeptAt(f, g, p);
        RootKept(g, root, p);
      }
    }
    assert NotMore(f, k) && Top(root) !in k.at;
    hide Hw, Cut, Prune, Kept, Freed, Placed, Entries;
    forall q | q in k.at ensures q.root != root { RootsAbove(k, q); }
    hide Wf, OthersSame;
    KeptOthers(f, k, root);
  }

  lemma KeptOthers(f: Forest, g: Forest, root: nat)
    requires Wf(f) && Wf(g) && Kept(f, g, Top(root))
    ensures OthersSame(f, g, root)
  {
    hide Wf, Hw, Kept;
    forall r | r != root && Top(r) in f.at ensures Top(r) in g.at { KeptView(f, g, root, r, 0); }
    forall r, n | r != root && Top(r) in f.at && 0 <= n < MAXPAGE ensures Hw(g.tables, r, n) == Hw(f.tables, r, n) {
      KeptView(f, g, root, r, n);
    }
  }

  lemma RootKept(g: Forest, root: nat, p: Pos)
    requires Wf(g) && At(g, Top(root)) && At(g, p) && p != Top(root)
    ensures KeptAt(g, Cut(g, Top(root)), p)
  {
    hide Entries, Rooted;
    Apart(g, p, Top(root));
  }

  lemma RootsAbove(f: Forest, q: Pos)
    requires Rooted(f) && q in f.at
    ensures Top(q.root) in f.at
  {
    HungAt(f, q);
    if q.Low? { HungAt(f, Mid(q.root, q.i2)); }
  }

  // ---------------------------------------------------------------- uvmfree

  lemma TableNotOther(all: set<nat>, freelist: seq<nat>, tables: set<nat>, frames: set<nat>, other: set<nat>, p: nat)
    requires Shared(all, freelist, tables, frames, other) && p in tables
    ensures p !in other
  {}

  lemma BottomBoundary(tables: map<nat, seq<Pte>>, root: nat)
    ensures !Inside(tables, root, 0)
  {}

  lemma EmptyTree(f: Forest, g: Forest, root: nat, hi: nat)
    requires Wf(g) && Top(root) in f.at && Edit(f, g, root, 0, hi, Nothing) && NoneMapped(f.tables, root, hi, MAXPAGE)
    ensures NoLeaf(g, root) && Top(root) in g.at && forall n :: 0 <= n < MAXPAGE ==> Hw(g.tables, root, n) == None
  {
    hide Wf, Hw, NoLeaf;
    EditAt(f, g, root, 0, hi, Nothing, root, 0);
    forall n | 0 <= n < MAXPAGE ensures Hw(g.tables, root, n) == None { EditAt(f, g, root, 0, hi, Nothing, root, n); }
    NoMapsNoLeaf(g, root);
  }

  lemma EditOthers(f: Forest, g: Forest, h: Forest, root: nat, hi: nat)
    requires Edit(f, g, root, 0, hi, Nothing) && OthersSame(g, h, root)
    ensures OthersSame(f, h, root)
  {
    hide Hw;
  }

  /** An empty tree owns nothing, so it can go. */
  lemma OwnedWithout(g: Forest, h: Forest, users: set<nat>, frames: map<nat, Spot>, supers: map<nat, Spot>, root: nat)
    requires UserRoots(g, users) && Owned(g.tables, users, frames, supers) && OthersSame(g, h, root)
    requires forall n :: 0 <= n < MAXPAGE ==> Hw(g.tables, root, n) == None
    ensures UserRoots(h, users - {root}) && Owned(h.tables, users - {root}, frames, supers)
  {
    hide Hw;
    forall p | p in frames
      ensures FrameUsed(h.tables, users - {root}, p, frames[p]) { assert FrameUsed(g.tables, users, p, frames[p]); }
    forall s | s in supers
      ensures SuperUsed(h.tables, users - {root}, s, supers[s]) { assert SuperUsed(g.tables, users, s, supers[s]); }
  }

  // ---------------------------------------------------------------- the beginning

  ghost predicate Filling60(all: set<nat>, pool: seq<nat>, i: nat, top: nat) {
    && Distinct(pool) && Elems(pool) == all && |all| == i
    && (forall s :: s in all <==> top <= s < PHYSTOP && s % 512 == 0)
  }

  lemma NothingPooled()
    ensures Filling60({}, [], 0, PHYSTOP)
  {}

  lemma PoolOneMore(all: set<nat>, pool: seq<nat>, i: nat, top: nat)
    requires Filling60(all, pool, i, top + 512) && top % 512 == 0 && top + 512 <= PHYSTOP
    ensures Filling60(all + {top}, pool + [top], i + 1, top)
  {
    assert Elems(pool + [top]) == Elems(pool) + {top};
    assert top !in all;
    assert top !in Elems(pool);
  }

  lemma PoolFull(all: set<nat>, pool: seq<nat>)
    requires Filling60(all, pool, NSUPERPAGES, SUPERBASE)
    ensures Pooled(all, pool, {}, {}) && forall s :: s in all <==> SUPERBASE <= s < PHYSTOP && s % 512 == 0
  {}

  lemma NothingShared()
    ensures Shared({}, [], {}, {}, {})
  {}

  lemma FreeOneMore(all: set<nat>, freelist: seq<nat>, p: nat)
    requires Shared(all, freelist, {}, {}, {}) && p !in all && 0 < p < SUPERBASE
    ensures Shared(all + {p}, [p] + freelist, {}, {}, {})
  {
    assert Elems([p] + freelist) == Elems(freelist) + {p};
    assert p !in Elems(freelist);
  }

  lemma NoTrees()
    ensures Wf(Forest(map[], map[], map[])) && Owned(map[], {}, map[], map[])
  {}

  /** A fresh empty tree owns nothing and changes nothing for the others. */
  lemma PlantAll(f: Forest, users: set<nat>, frames: map<nat, Spot>, supers: map<nat, Spot>, page: nat)
    requires Wf(f) && page !in f.tables && UserRoots(f, users) && Owned(f.tables, users, frames, supers)
    ensures var g := Plant(f, page);
      && Wf(g) && UserRoots(g, users + {page}) && Owned(g.tables, users + {page}, frames, supers)
      && NoneMapped(g.tables, page, 0, MAXPAGE) && OthersSame(f, g, page) && page !in users
  {
    var g := Plant(f, page);
    RootIsTable(f, page);
    PlantHw(f, page);
    hide Wf, Hw, Plant;
    OwnedPlanted(f, g, users, frames, supers, page);
  }

  lemma PlantHw(f: Forest, page: nat)
    requires Wf(f) && page !in f.tables
    ensures var g := Plant(f, page);
      Wf(g) && OthersSame(f, g, page) && NoneMapped(g.tables, page, 0, MAXPAGE) && Top(page) in g.at
  {
    var g := Plant(f, page);
    PlantWf(f, page);
    hide Wf, Hw;
    forall r, n | r != page && Top(r) in f.at && 0 <= n < MAXPAGE ensures Hw(g.tables, r, n) == Hw(f.tables, r, n) {
      PlantMaps(f, page, r, n);
    }
    forall n | 0 <= n < MAXPAGE ensures Hw(g.tables, page, n) == None { PlantMaps(f, page, page, n); }
  }

  lemma OwnedPlanted(f: Forest, g: Forest, users: set<nat>, frames: map<nat, Spot>, supers: map<nat, Spot>, page: nat)
    requires OthersSame(f, g, page) && NoneMapped(g.tables, page, 0, MAXPAGE) && Top(page) in g.at && page !in users
    requires UserRoots(f, users) && Owned(f.tables, users, frames, supers)
    ensures UserRoots(g, users + {page}) && Owned(g.tables, users + {page}, frames, supers)
  {
    hide Hw;
    forall p | p in frames
      ensures FrameUsed(g.tables, users + {page}, p, frames[p]) { assert FrameUsed(f.tables, users, p, frames[p]); }
    forall s | s in supers
      ensures SuperUsed(g.tables, users + {page}, s, supers[s]) { assert SuperUsed(f.tables, users, s, supers[s]); }
  }

  lemma RootIsTable(f: Forest, page: nat)
    requires Wf(f) && page !in f.tables
    ensures Top(page) !in f.at
  {
    hide Entries, Rooted;
  }
}
