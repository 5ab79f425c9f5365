/** One tree with one superpage, where walkaddr, uvmunmap and uvmalloc's permissions go wrong. */
module VmExamples {
  import opened PageTable
  import opened VmSpec
  import opened VmOwned
  import opened VmGrow
  import opened VmFree
  import opened VmBytes

  /** What uvmalloc gives a superpage. */
  const LARGE := Pte(0, true, true, true, false, true)

  /** An empty tree with a level-1 table. */
  lemma EmptyTree() returns (f: Forest)
    ensures Wf(f) && Top(1) in f.at && NoneMapped(f.tables, 1, 0, MAXPAGE)
    ensures At(f, Mid(1, 0)) && !Entry(f, Mid(1, 0), 0).v && f.tables.Keys == {1, 2}
  {
    var f0 := Forest(map[], map[], map[]);
    NoTrees();
    var f1 := Plant(f0, 1);
    PlantWf(f0, 1);
    PlantEntries(f0, 1);
    f := Grow(f1, Mid(1, 0), 2);
    GrowKeepsMaps(f1, Mid(1, 0), 2);
    WfPlaced(f1);
    Vacant(f1, Mid(1, 0));
    GrowEntries(f1, Mid(1, 0), 2);
    assert Top(1) in f1.at && Top(1) in f.at;
    forall n | 0 <= n < MAXPAGE ensures Hw(f.tables, 1, n) == None {
      PlantMaps(f0, 1, 1, n);
      SameAt(f1, f, 1, n);
    }
  }

  /** uvmunmap keeps level-0 tables. A tree that maps nothing at all can have one, and then supermappages panics
      there. */
  lemma StaleTable() returns (f: Forest)
    ensures Wf(f) && Top(1) in f.at && NoneMapped(f.tables, 1, 0, MAXPAGE) && Occupied(f, 1, 0)
  {
    var e := EmptyTree();
    f := Grow(e, Low(1, 0, 0), 3);
    hide Hw, NoneMapped;
    GrowKeepsMaps(e, Low(1, 0, 0), 3);
    assert Top(1) in f.at && HasTable(f, 1, 0);
    hide Wf, Grow;
    OccupiedWhen(f, 1, 0);
    assert NoneMapped(f.tables, 1, 0, MAXPAGE) by { SameUnmapped(e, f); }
  }

  lemma SameUnmapped(e: Forest, f: Forest)
    requires SameMaps(e, f) && Top(1) in e.at && NoneMapped(e.tables, 1, 0, MAXPAGE)
    ensures NoneMapped(f.tables, 1, 0, MAXPAGE)
  {
    hide Hw;
    forall n | 0 <= n < MAXPAGE ensures Hw(f.tables, 1, n) == None { SameAt(e, f, 1, n); }
  }

  /** The first 512 pages of tree 1 become one superpage. */
  lemma OneSuper() returns (f: Forest, g: Forest)
    ensures Wf(f) && Wf(g) && Top(1) in f.at && Top(1) in g.at && NoneMapped(f.tables, 1, 0, MAXPAGE)
    ensures Edit(f, g, 1, 0, 512, Super(SUPERBASE, LARGE))
  {
    f := EmptyTree();
    hide Wf, Hw, At, Entry, NoneMapped, Edit, Wrote;
    var q, e := Mid(1, 0), Make(SUPERBASE, LARGE);
    SetChanges(f, q, 0, e);
    g := Set(f, q, 0, e);
    StillRootWrote(f, g, q, 0, e, 1);
    WroteSuper(f, g, 1, 0, SUPERBASE, LARGE);
  }

  /** walkaddr of the second page of the superpage is the frame of the first. */
  lemma WalkaddrWrong() returns (f: Forest)
    ensures Wf(f) && Top(1) in f.at && Accessible(f.tables, 1, 1, false)
    ensures Hw(f.tables, 1, 1).value.frame == SUPERBASE + 1 && Hw(f.tables, 1, 1).value.pte.ppn == SUPERBASE
  {
    hide Wf, Hw, Edit, NoneMapped;
    var e;
    e, f := OneSuper();
    EditAt(e, f, 1, 0, 512, Super(SUPERBASE, LARGE), 1, 1);
  }

  /** uvmunmap of the last page of the superpage clears the 511 before it too. */
  lemma UnmapTooMuch() returns (f: Forest)
    ensures Wf(f) && Top(1) in f.at && AllMapped(f.tables, 1, 511, 512)
    ensures UnmapFrom(f.tables, 1, 511) == 0 && UnmapTo(f.tables, 1, 511, 512, 511) == Some(512)
  {
    hide Wf, Hw, Edit, NoneMapped, UnmapFrom, UnmapTo;
    var e;
    e, f := OneSuper();
    EditAt(e, f, 1, 0, 512, Super(SUPERBASE, LARGE), 1, 0);
    EditAt(e, f, 1, 0, 512, Super(SUPERBASE, LARGE), 1, 511);
    UnmapTail(f, 1, 0);
  }

  /** uvmalloc from 0 to 2 MiB without PTE_W gives this tree, which is writable. */
  lemma WritableAnyway() returns (f: Forest, g: Forest)
    ensures Wf(f) && Wf(g) && NoneMapped(f.tables, 1, 0, MAXPAGE) && Grown(f, g, 1, 0, 512, 512, false, false)
    ensures Accessible(g.tables, 1, 0, true)
  {
    hide Wf, Hw, Edit, NoneMapped;
    f, g := OneSuper();
    EditAt(f, g, 1, 0, 512, Super(SUPERBASE, LARGE), 1, 0);
    assert SameRoots(f, g) by { EditSuperRoots(f, g); }
    forall r, n | Top(r) in f.at && 0 <= n < MAXPAGE
      ensures if r == 1 &&
        0 <= n < 512 then GrownPage(Hw(g.tables, r, n), n, 0, 512, false, false)
        else Hw(g.tables, r, n) == Hw(f.tables, r, n)
    {
      EditAt(f, g, 1, 0, 512, Super(SUPERBASE, LARGE), r, n);
      if n < 512 { assert n - n % 512 == 0; }
    }
  }

  lemma EditSuperRoots(f: Forest, g: Forest)
    requires Edit(f, g, 1, 0, 512, Super(SUPERBASE, LARGE))
    ensures SameRoots(f, g)
  {
    hide Hw;
  }
}
