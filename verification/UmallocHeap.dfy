/** free, morecore and malloc of user/umalloc.c, proved against module Umalloc's arena. */
module UmallocHeap {
  import opened Umalloc

  const HEADER: nat := 16
  const UINT: nat := 0x1_0000_0000

  /** Units for a request: the payload rounded up, plus the header. */
  function Units(nbytes: nat): (n: nat)
    ensures n >= 1 && (n - 1) * HEADER >= nbytes && (n - 1) * HEADER < nbytes + HEADER
  {
    (nbytes + HEADER - 1) / HEADER + 1
  }

  /** The argument as sbrk's int parameter receives it. */
  function ToInt(x: nat): (r: int) {
    var w := x % UINT;
    if w < UINT / 2 then w else w - UINT
  }

  /** What morecore records is what it asked sbrk for exactly when the request is at most 2^31 - 32 bytes;
      malloc(2^32 - 1), for one, asks for a single unit and records 2^28 + 1. */
  lemma CoreRequest(nbytes: nat)
    requires nbytes < UINT
    ensures ToInt(Units(nbytes) * HEADER) == Units(nbytes) * HEADER <==> nbytes <= 0x7fff_ffe0
    ensures nbytes == UINT - 1 ==> ToInt(Units(nbytes) * HEADER) == HEADER
  {}

  /** d steps round the list from position f. */
  function Round(f: nat, d: nat, n: nat): (i: nat)
    requires f < n && d <= n
    ensures i < n
  {
    if f + d < n then f + d else f + d - n
  }

  lemma RoundHits(f: nat, n: nat, j: nat) returns (d: nat)
    requires f < n && j < n
    ensures 1 <= d <= n && Round(f, d, n) == j
  {
    d := if j > f then j - f else n + j - f;
  }

  /** free's two exit tests hold together exactly at the block after which bp belongs. */
  lemma LocateTest(ptr: map<nat, nat>, order: seq<nat>, i: nat, bp: nat)
    requires Linked(ptr, order) && Sorted(order) && i < |order| && order[0] < bp
    ensures order[i] in ptr
    ensures var p := order[i];
      (bp > p && bp < ptr[p]) || (p >= ptr[p] && (bp > p || bp < ptr[p])) <==> Before(order, i, bp)
  {
    hide Linked, Sorted;
    LinkedAt(ptr, order, i);
    if i + 1 < |order| { SortedAt(order, i, i + 1); }
    if i > 0 { SortedAt(order, 0, i); }
  }

  lemma NotListed(a: Arena, base: nat, bp: nat)
    requires Ok(a, base) && bp in a.blocks && !a.blocks[bp]
    ensures bp !in a.order && base < bp
  {
    hide Covers;
  }

  /** The header fields after free's two coalescing tests, p being the block before bp. */
  ghost function Joined(ptr: map<nat, nat>, size: map<nat, nat>, p: nat, bp: nat): (r: (map<nat, nat>, map<nat, nat>))
    requires p in ptr && p in size && bp in size && p != bp
    requires bp + size[bp] == ptr[p] ==> ptr[p] in size && ptr[p] in ptr
  {
    var nx := ptr[p];
    var up := bp + size[bp] == nx;
    var size1 := if up then size[bp := size[bp] + size[nx]] else size;
    var ptr1 := ptr[bp := if up then ptr[nx] else nx];
    if p + size1[p] == bp then (ptr1[p := ptr1[bp]], size1[p := size1[p] + size1[bp]]) else (ptr1[p := bp], size1)
  }

  lemma JoinedOk(a: Arena, base: nat, i: nat, bp: nat) returns (r: Arena)
    requires Umalloc.Valid(a, base) && bp in a.blocks && !a.blocks[bp] && Before(a.order, i, bp)
    ensures var p := a.order[i];
      && p in a.ptr && p in a.size && bp in a.size && p != bp
      && (bp + a.size[bp] == a.ptr[p] ==> a.ptr[p] in a.size && a.ptr[p] in a.ptr)
      && (r.ptr, r.size) == Joined(a.ptr, a.size, p, bp)
    ensures Umalloc.Valid(r, base) && r.cover.Keys == a.cover.Keys && a.order[i] in r.order
    ensures r.blocks.Keys <= r.size.Keys && a.blocks.Keys <= a.size.Keys && Allocated(r) == Allocated(a) - {bp}
    ensures exists j :: 1 <= j < |r.order| && r.order[j] in r.size && r.size[r.order[j]] >= a.size[bp]
  {
    hide Umalloc.Valid, Ok, Gap, Allocated;
    Sized(a, base);
    var up := FreeUp(a, base, i, bp);
    r := FreeDown(up, base, i, bp);
    var p, nx := a.order[i], a.ptr[a.order[i]];
    var ptr1 := a.ptr[bp := if bp + a.size[bp] == nx then a.ptr[nx] else nx];
    assert up.ptr == ptr1[p := bp];
    assert up.ptr[p := up.ptr[bp]] == ptr1[p := ptr1[bp]];
    assert r.order[i] == p;
    assert (r.ptr, r.size) == Joined(a.ptr, a.size, p, bp);
  }

  lemma Sized(a: Arena, base: nat)
    requires Umalloc.Valid(a, base)
    ensures a.blocks.Keys <= a.size.Keys
  {
    hide Covers, Cycle;
  }

  /** morecore asks for at least 4096 units at a time. */
  function CoreUnits(nunits: nat): (nu: nat)
    ensures nu >= nunits && nu >= 4096
  {
    if nunits < 4096 then 4096 else nunits
  }

  lemma NotLive(a: Arena, base: nat, s: nat, nu: nat)
    requires Umalloc.Valid(a, base) && s !in a.blocks
    ensures a.blocks.Keys <= a.size.Keys && Allocated(a)[s := nu] - {s} == Allocated(a)
  {
    Sized(a, base);
    hide Umalloc.Valid;
  }

  /** The list element d steps after position f. */
  ghost function At(order: seq<nat>, f: nat, d: nat): (p: nat) {
    if f < |order| && d <= |order| then order[Round(f, d, |order|)] else 0
  }

  ghost predicate Small(a: Arena, p: nat, nunits: nat) { p in a.size && a.size[p] < nunits }

  ghost predicate AllSmall(a: Arena, nunits: nat) { forall j :: 0 <= j < |a.order| ==> Small(a, a.order[j], nunits) }

  lemma Roomy(a: Arena, j: nat, nunits: nat)
    requires j < |a.order| && a.order[j] in a.size && a.size[a.order[j]] >= nunits
    ensures !AllSmall(a, nunits)
  {
    assert !Small(a, a.order[j], nunits);
  }

  /** Where malloc's scan stands: the c free blocks after position f are too small. */
  ghost predicate Scan(a: Arena, f: nat, c: nat, nunits: nat) {
    f < |a.order| && c < |a.order| && forall d :: 1 <= d <= c ==> Small(a, At(a.order, f, d), nunits)
  }

  lemma ScanStart(a: Arena, base: nat, f: nat, nunits: nat)
    requires Umalloc.Valid(a, base) && f < |a.order|
    ensures Scan(a, f, 0, nunits) && At(a.order, f, 0) == a.order[f]
    ensures a.order[f] in a.ptr && a.ptr[a.order[f]] == At(a.order, f, 1)
  {
    hide Lists, Covers, Sorted;
  }

  /** One round of malloc's scan: what it reads, when it has come full circle, and what it then knows. */
  lemma ScanHere(a: Arena, base: nat, f: nat, c: nat, nunits: nat)
    requires Umalloc.Valid(a, base) && Scan(a, f, c, nunits) && nunits >= 1
    ensures var j, p, n := Round(f, c + 1, |a.order|), At(a.order, f, c + 1), |a.order|;
      && p == a.order[j] && p in a.size && p in a.ptr
      && (a.size[p] >= nunits ==> j >= 1 && At(a.order, f, c) == a.order[j - 1])
      && (p == At(a.order, f, 0) <==> c + 1 == n)
      && (a.size[p] < nunits && c + 1 < n ==> Scan(a, f, c + 1, nunits) && a.ptr[p] == At(a.order, f, c + 2))
      && (a.size[p] < nunits && c + 1 == n ==> AllSmall(a, nunits))
  {
    hide Lists, Covers, Sorted, Linked;
    var n, j := |a.order|, Round(f, c + 1, |a.order|);
    LinkedAt(a.ptr, a.order, j);
    if j > 0 { ListsAt(a.order, a.blocks, j); }
    if f < j { SortedAt(a.order, f, j); } else if j < f { SortedAt(a.order, j, f); }
    if Small(a, a.order[j], nunits) && c + 1 == n {
      forall k | 0 <= k < n ensures Small(a, a.order[k], nunits) {
        var d := RoundHits(f, n, k);
        assert At(a.order, f, d) == a.order[k];
      }
    }
  }

  class Heap {
    const base: nat
    var freep: Option<nat>
    var ptr: map<nat, nat>
    var size: map<nat, nat>
    ghost var order: seq<nat>
    ghost var blocks: map<nat, bool>
    ghost var cover: map<nat, nat>

    ghost function View(): (a: Arena) reads this { Arena(ptr, size, order, blocks, cover) }

    ghost predicate Ready()
      reads this
    {
      Umalloc.Valid(View(), base) && freep.Some? && freep.value in order
    }

    /** Before the first malloc there is no list and nothing to free. */
    ghost predicate Valid()
      reads this
    {
      Ready() || (freep.None? && blocks == map[] && cover == map[] && order == [])
    }

    /** Blocks handed out and not yet freed. */
    ghost function Live(): (r: map<nat, nat>)
      reads this
      requires Valid()
    {
      Allocated(View())
    }

    constructor (base: nat)
      ensures Valid() && this.base == base && Live() == map[] && cover == map[]
    {
      this.base := base;
      freep, ptr, size, order, blocks, cover := None, map[], map[], [], map[], map[];
    }

    /** free's search loop: terminates at the free block after which bp belongs. */
    method Locate(bp: nat) returns (p: nat, ghost i: nat)
      requires Ready() && bp in blocks && !blocks[bp]
      ensures i < |order| && p == order[i] && Before(order, i, bp)
    {
      hide Covers, Lists, Sorted, Linked;
      NotListed(View(), base, bp);
      ghost var n := |order|;
      ghost var k := PredecessorExists(order, bp, n);
      p := freep.value;
      i :| i < n && order[i] == p;
      LinkedAt(ptr, order, i);
      while !(bp > p && bp < ptr[p])
        invariant i < n && p == order[i] && p in ptr
        decreases if i <= k then k - i else n + k - i
      {
        LocateTest(ptr, order, i, bp);
        LocateTest(ptr, order, k, bp);
        LinkedAt(ptr, order, i);
        if p >= ptr[p] && (bp > p || bp < ptr[p]) { return; }
        p, i := ptr[p], Succ(i, n);
        LinkedAt(ptr, order, i);
      }
      LocateTest(ptr, order, i, bp);
    }

    /** The header updates of free, once the place is found. */
    method Join(p: nat, bp: nat)
      requires p in ptr && p in size && bp in size && p != bp
      requires bp + size[bp] == ptr[p] ==> ptr[p] in size && ptr[p] in ptr
      modifies this`ptr, this`size, this`freep
      ensures (ptr, size) == Joined(old(ptr), old(size), p, bp) && freep == Some(p)
    {
      var nx := ptr[p];
      if bp + size[bp] == nx {
        size, ptr := size[bp := size[bp] + size[nx]], ptr[bp := ptr[nx]];
      } else {
        ptr := ptr[bp := nx];
      }
      if p + size[p] == bp {
        size, ptr := size[p := size[p] + size[bp]], ptr[p := ptr[bp]];
      } else {
        ptr := ptr[p := bp];
      }
      freep := Some(p);
    }

    /** free: the block leaves the live set, every other live block keeps its place and size, and the arena
        stays tiled with no two free blocks touching. */
    method Free(bp: nat)
      requires Ready() && bp in blocks && !blocks[bp]
      modifies this
      ensures Ready() && Live() == old(Live()) - {bp} && cover.Keys == old(cover.Keys)
      ensures exists j :: 1 <= j < |order| && order[j] in size && size[order[j]] >= old(size[bp])
    {
      hide Umalloc.Valid, Allocated, Joined, Before;
      var p;
      ghost var i;
      p, i := Locate(bp);
      ghost var r := JoinedOk(View(), base, i, bp);
      Join(p, bp);
      order, blocks, cover := r.order, r.blocks, r.cover;
      assert View() == r;
    }

    /** morecore: `grant` is where sbrk put the new region, if it could. The region joins the free list. */
    method Morecore(nunits: nat, grant: Option<nat>) returns (ok: bool)
      requires Ready() && nunits >= 1
      requires grant.Some? ==> grant.value > base && Span(grant.value, CoreUnits(nunits)) !! cover.Keys
      modifies this
      ensures Ready() && Live() == old(Live()) && ok == grant.Some?
      ensures cover.Keys == old(cover.Keys) + if ok then Span(grant.value, CoreUnits(nunits)) else {}
      ensures if ok then !AllSmall(View(), nunits) else View() == old(View())
    {
      if grant.None? { return false; }
      var hp, nu := grant.value, CoreUnits(nunits);
      ghost var r := AddCore(View(), base, hp, nu);
      hide Umalloc.Valid, Allocated;
      size := size[hp := nu];
      blocks, cover := r.blocks, r.cover;
      assert View() == r;
      NotLive(old(View()), base, hp, nu);
      Free(hp);
      ok := true;
    }

    /** The allocation step of malloc, at free block p = order[j] with prevp before it. */
    method Take(prevp: nat, p: nat, nunits: nat, ghost j: nat) returns (b: nat)
      requires Ready() && 1 <= j < |order| && order[j] == p && order[j - 1] == prevp
      requires nunits > 0 && p in size && size[p] >= nunits
      modifies this
      ensures Ready() && b !in old(Live()) && Live() == old(Live())[b := nunits] && cover.Keys == old(cover.Keys)
    {
      hide Linked, Lists, Covers;
      if size[p] == nunits {
        ghost var r := TakeWhole(View(), base, j);
        ptr := ptr[prevp := ptr[p]];
        b := p;
        order, blocks := r.order, r.blocks;
        assert View() == r && order[j - 1] == prevp;
      } else {
        ghost var r, t := TakeTail(View(), base, j, nunits);
        size := size[p := size[p] - nunits];
        b := p + size[p];
        size := size[b := nunits];
        blocks, cover := r.blocks, r.cover;
        assert View() == r && order[j - 1] == prevp;
      }
      freep := Some(prevp);
    }

    /** malloc: the result is a new block of exactly the units the request needs, disjoint from every live block
        because the arena stays tiled; it asks sbrk exactly when no free block is large enough, and fails exactly when
        sbrk then refuses. */
    method Malloc(nbytes: nat, grant: Option<nat>) returns (r: Option<nat>)
      requires Valid() && nbytes < UINT
      requires grant.Some? ==> grant.value > base && Span(grant.value, CoreUnits(Units(nbytes))) !! cover.Keys
      modifies this
      ensures Ready() && (r.None? <==> old(AllSmall(View(), Units(nbytes))) && grant.None?)
      ensures cover.Keys ==
        old(cover.Keys) +
        if old(AllSmall(View(), Units(nbytes))) &&
        grant.Some? then Span(grant.value, CoreUnits(Units(nbytes))) else {}
      ensures r.Some? ==> r.value !in old(Live()) && Live() == old(Live())[r.value := Units(nbytes)]
      ensures r.None? ==> Live() == old(Live())
    {
      hide Umalloc.Valid, Allocated, Round, Units, CoreUnits, Span, At, Scan, AllSmall;
      var nunits := Units(nbytes);
      ghost var small := AllSmall(View(), nunits);
      if freep.None? { Start(nunits); }
      ghost var f: nat :| f < |order| && order[f] == freep.value;
      ghost var c: nat := 0;
      var prevp := freep.value;
      ScanStart(View(), base, f, nunits);
      var p := ptr[prevp];
      ghost var grown := false;
      while true
        invariant Ready() && Scan(View(), f, c, nunits) && f < |order| && c < |order|
        invariant freep.value == At(order, f, 0) && prevp == At(order, f, c) && p == At(order, f, c + 1)
        invariant Live() == old(Live()) &&
          (!grown ==> cover.Keys == old(cover.Keys) && (AllSmall(View(), nunits) <==> small))
        invariant grown ==> !AllSmall(View(), nunits) && small && grant.Some?
        invariant grown ==> cover.Keys == old(cover.Keys) + Span(grant.value, CoreUnits(nunits))
        decreases if grown then 0 else 1, |order| - c
      {
        ScanHere(View(), base, f, c, nunits);
        if size[p] >= nunits {
          Roomy(View(), Round(f, c + 1, |order|), nunits);
          var b := Take(prevp, p, nunits, Round(f, c + 1, |order|));
          return Some(b);
        }
        if p == freep.value {
          var ok := Morecore(nunits, grant);
          if !ok { return None; }
          f :| f < |order| && order[f] == freep.value;
          prevp, c, grown := freep.value, 0, true;
          ScanStart(View(), base, f, nunits);
        } else {
          prevp, c := p, c + 1;
        }
        p := ptr[prevp];
      }
    }

    /** malloc's first call: an empty list, base pointing to itself. */
    method Start(ghost nunits: nat)
      requires Valid() && freep.None? && nunits >= 1
      modifies this
      ensures Ready() && Live() == old(Live()) && cover == old(cover)
      ensures AllSmall(View(), nunits) <==> old(AllSmall(View(), nunits))
    {
      ptr, size, freep := ptr[base := base], size[base := 0], Some(base);
      order := [base];
    }
  }
}
