/** The Kernighan & Ritchie allocator of user/umalloc.c. Addresses are counted in Header units; the header of
    a block is its first unit, and malloc hands out the address after it. */
module Umalloc {

  datatype Option<T> = None | Some(value: T)

  /** Header fields, with the ghost view of the arena they describe: the free list in address order starting
      at base, every block and whether it is free, and which block each sbrk'd unit belongs to. */
  datatype Arena = Arena(ptr: map<nat, nat>, size: map<nat, nat>,
                         order: seq<nat>, blocks: map<nat, bool>, cover: map<nat, nat>)

  function Succ(i: nat, n: nat): (j: nat)
    requires i < n
  {
    if i + 1 == n then 0 else i + 1
  }

  function InsertAt(s: seq<nat>, i: nat, x: nat): (r: seq<nat>)
    requires i < |s|
    ensures |r| == |s| + 1
    ensures forall k :: 0 <= k <= i ==> r[k] == s[k]
    ensures r[i + 1] == x
    ensures forall k :: i + 1 < k < |r| ==> r[k] == s[k - 1]
  {
    s[..i + 1] + [x] + s[i + 1..]
  }

  function RemoveAt(s: seq<nat>, j: nat): (r: seq<nat>)
    requires j < |s|
    ensures |r| == |s| - 1
    ensures forall k :: 0 <= k < j ==> r[k] == s[k]
    ensures forall k :: j <= k < |r| ==> r[k] == s[k + 1]
  {
    s[..j] + s[j + 1..]
  }

  ghost predicate Sorted(order: seq<nat>) { forall i, j :: 0 <= i < j < |order| ==> order[i] < order[j] }

  ghost predicate Linked(ptr: map<nat, nat>, order: seq<nat>) {
    forall i :: 0 <= i < |order| ==> order[i] in ptr && ptr[order[i]] == order[Succ(i, |order|)]
  }

  /** Apart from base in front, the list holds exactly the free blocks. */
  ghost predicate Lists(order: seq<nat>, blocks: map<nat, bool>) {
    && (forall i :: 1 <= i < |order| ==> order[i] in blocks && blocks[order[i]])
    && (forall b :: b in blocks && blocks[b] ==> exists i :: 1 <= i < |order| && order[i] == b)
  }

  /** The free list is one cycle in address order with a single wrap, from the last block back to base. */
  ghost predicate Cycle(a: Arena, base: nat) {
    |a.order| > 0 && a.order[0] == base && Sorted(a.order) && Linked(a.ptr, a.order) && Lists(a.order, a.blocks)
  }

  /** Every sbrk'd unit lies in exactly one block. */
  ghost predicate Covers(size: map<nat, nat>, blocks: map<nat, bool>, cover: map<nat, nat>)
    requires blocks.Keys <= size.Keys
  {
    && (forall u :: u in cover ==> cover[u] in blocks && cover[u] <= u < cover[u] + size[cover[u]])
    && (forall b, u :: b in blocks && b <= u < b + size[b] ==> u in cover && cover[u] == b)
  }

  /** Free and allocated blocks exactly tile the sbrk'd units. */
  ghost predicate Tiled(a: Arena, base: nat) {
    && base in a.size && a.size[base] == 0 && a.blocks.Keys <= a.size.Keys
    && (forall b :: b in a.blocks ==> b > base && a.size[b] > 0)
    && Covers(a.size, a.blocks, a.cover)
  }

  /** Free block i ends before the next free block begins. */
  ghost predicate Gap(a: Arena, i: nat) {
    1 <= i && i + 1 < |a.order| && a.order[i] in a.size ==> a.order[i] + a.size[a.order[i]] != a.order[i + 1]
  }

  ghost predicate Ok(a: Arena, base: nat) { Cycle(a, base) && Tiled(a, base) }

  ghost predicate Valid(a: Arena, base: nat) { Ok(a, base) && forall i: nat :: Gap(a, i) }

  /** Index i of the free list is where bp belongs: just after order[i]. */
  ghost predicate Before(order: seq<nat>, i: nat, bp: nat) {
    i < |order| && order[i] < bp && (i + 1 < |order| ==> bp < order[i + 1])
  }

  // ---------------------------------------------------------------- the two list operations free is made of

  /** Linking an allocated block into the list. */
  ghost function Insert(a: Arena, i: nat, bp: nat): (r: Arena)
    requires i < |a.order| && a.order[i] in a.ptr
  {
    Arena(a.ptr[bp := a.ptr[a.order[i]]][a.order[i] := bp], a.size,
          InsertAt(a.order, i, bp), a.blocks[bp := true], a.cover)
  }

  lemma InsertSorted(order: seq<nat>, i: nat, bp: nat)
    requires Sorted(order) && Before(order, i, bp)
    ensures Sorted(InsertAt(order, i, bp)) && bp !in order
  {
    hide InsertAt;
    forall k | 0 <= k < |order| ensures order[k] != bp {
      if k > i + 1 { assert order[i + 1] < order[k]; }
    }
    var r := InsertAt(order, i, bp);
    forall j, k | 0 <= j < k < |r| ensures r[j] < r[k] {
      var j', k' := if j <= i then j else j - 1, if k <= i then k else k - 1;
      if j == i + 1 {
        assert order[i + 1] <= order[k'];
      } else if k == i + 1 {
        assert order[j'] <= order[i];
      }
    }
  }

  lemma InsertLinkedStep(ptr: map<nat, nat>, order: seq<nat>, i: nat, bp: nat, k: nat)
    requires Linked(ptr, order) && Sorted(order) && Before(order, i, bp) && k <= |order| && bp !in order
    ensures order[i] in ptr
    ensures var r, q := InsertAt(order, i, bp), ptr[bp := ptr[order[i]]][order[i] := bp];
      r[k] in q && q[r[k]] == r[Succ(k, |order| + 1)]
  {
    hide InsertAt, Linked, Sorted;
    var n := |order|;
    LinkedAt(ptr, order, i);
    if k < i {
      LinkedAt(ptr, order, k);
      SortedAt(order, k, i);
    } else if k > i + 1 {
      LinkedAt(ptr, order, k - 1);
      SortedAt(order, i, k - 1);
    }
  }

  lemma LinkedAt(ptr: map<nat, nat>, order: seq<nat>, i: nat)
    requires Linked(ptr, order) && i < |order|
    ensures order[i] in ptr && ptr[order[i]] == order[Succ(i, |order|)]
  {}

  lemma SortedAt(order: seq<nat>, i: nat, j: nat)
    requires Sorted(order) && i < j < |order|
    ensures order[i] < order[j]
  {}

  lemma InsertLinked(ptr: map<nat, nat>, order: seq<nat>, i: nat, bp: nat)
    requires Linked(ptr, order) && Sorted(order) && Before(order, i, bp)
    ensures order[i] in ptr && Linked(ptr[bp := ptr[order[i]]][order[i] := bp], InsertAt(order, i, bp))
  {
    hide InsertAt, Sorted;
    InsertSorted(order, i, bp);
    var r, q := InsertAt(order, i, bp), ptr[bp := ptr[order[i]]][order[i] := bp];
    forall k | 0 <= k < |r| ensures r[k] in q && q[r[k]] == r[Succ(k, |r|)] { InsertLinkedStep(ptr, order, i, bp, k); }
  }

  lemma InsertLists(order: seq<nat>, blocks: map<nat, bool>, i: nat, bp: nat)
    requires Lists(order, blocks) && i < |order|
    ensures Lists(InsertAt(order, i, bp), blocks[bp := true])
  {
    hide InsertAt;
    var r := InsertAt(order, i, bp);
    forall b | b in blocks && blocks[b] ensures exists k :: 1 <= k < |r| && r[k] == b {
      var k :| 1 <= k < |order| && order[k] == b;
      assert r[if k <= i then k else k + 1] == b;
    }
    assert r[i + 1] == bp;
  }

  lemma InsertOk(a: Arena, base: nat, i: nat, bp: nat)
    requires Valid(a, base) && bp in a.blocks && !a.blocks[bp] && Before(a.order, i, bp)
    ensures Ok(Insert(a, i, bp), base)
    ensures forall k: nat :: k != i && k != i + 1 ==> Gap(Insert(a, i, bp), k)
  {
    hide InsertAt, Linked, Lists, Covers;
    InsertSorted(a.order, i, bp);
    InsertLinked(a.ptr, a.order, i, bp);
    InsertLists(a.order, a.blocks, i, bp);
    InsertCovers(a, bp);
    var r := Insert(a, i, bp);
    forall k: nat | k != i && k != i + 1 ensures Gap(r, k) {
      if k > 0 { assert Gap(a, if k < i then k else k - 1); }
    }
  }

  lemma InsertCovers(a: Arena, bp: nat)
    requires a.blocks.Keys <= a.size.Keys && Covers(a.size, a.blocks, a.cover) && bp in a.blocks
    ensures a.blocks[bp := true].Keys == a.blocks.Keys && Covers(a.size, a.blocks[bp := true], a.cover)
  {
    assert a.blocks[bp := true].Keys == a.blocks.Keys;
  }

  /** Absorbing the next free block, which starts where block j ends. */
  ghost function Merge(a: Arena, j: nat): (r: Arena)
    requires j + 1 < |a.order| && {a.order[j], a.order[j + 1]} <= a.size.Keys && a.order[j + 1] in a.ptr
  {
    var x, y := a.order[j], a.order[j + 1];
    Arena(a.ptr[x := a.ptr[y]], a.size[x := a.size[x] + a.size[y]], RemoveAt(a.order, j + 1),
          a.blocks - {y}, Recover(a.cover, x, y))
  }

  /** The units of block y now belong to block x. */
  ghost function Recover(cover: map<nat, nat>, x: nat, y: nat): (r: map<nat, nat>) {
    map u | u in cover :: if cover[u] == y then x else cover[u]
  }

  lemma MergeLinkedStep(ptr: map<nat, nat>, order: seq<nat>, j: nat, k: nat)
    requires Linked(ptr, order) && Sorted(order) && j + 1 < |order| && k < |order| - 1
    ensures order[j + 1] in ptr
    ensures var r, q := RemoveAt(order, j + 1), ptr[order[j] := ptr[order[j + 1]]];
      r[k] in q && q[r[k]] == r[Succ(k, |order| - 1)]
  {
    hide RemoveAt, Linked, Sorted;
    LinkedAt(ptr, order, j + 1);
    if k < j {
      LinkedAt(ptr, order, k);
      SortedAt(order, k, j);
    } else if k > j {
      LinkedAt(ptr, order, k + 1);
      SortedAt(order, j, k + 1);
    }
  }

  lemma MergeLinked(ptr: map<nat, nat>, order: seq<nat>, j: nat)
    requires Linked(ptr, order) && Sorted(order) && j + 1 < |order|
    ensures order[j + 1] in ptr && Linked(ptr[order[j] := ptr[order[j + 1]]], RemoveAt(order, j + 1))
  {
    hide RemoveAt, Sorted;
    LinkedAt(ptr, order, j + 1);
    var r, q := RemoveAt(order, j + 1), ptr[order[j] := ptr[order[j + 1]]];
    forall k | 0 <= k < |r| ensures r[k] in q && q[r[k]] == r[Succ(k, |r|)] { MergeLinkedStep(ptr, order, j, k); }
  }

  lemma MergeSorted(order: seq<nat>, j: nat)
    requires Sorted(order) && j + 1 < |order|
    ensures Sorted(RemoveAt(order, j + 1))
  {
    hide RemoveAt;
    var r := RemoveAt(order, j + 1);
    forall i, k | 0 <= i < k < |r| ensures r[i] < r[k] {
      SortedAt(order, if i <= j then i else i + 1, if k <= j then k else k + 1);
    }
  }

  lemma ListsAll(order: seq<nat>, blocks: map<nat, bool>)
    requires forall k :: 1 <= k < |order| ==> order[k] in blocks && blocks[order[k]]
    requires forall b :: b in blocks && blocks[b] ==> exists k :: 1 <= k < |order| && order[k] == b
    ensures Lists(order, blocks)
  {}

  lemma StillListed(order: seq<nat>, blocks: map<nat, bool>, j: nat, b: nat) returns (i: nat)
    requires Lists(order, blocks) && j + 1 < |order| && b in blocks && blocks[b] && b != order[j + 1]
    ensures 1 <= i < |RemoveAt(order, j + 1)| && RemoveAt(order, j + 1)[i] == b
  {
    hide RemoveAt;
    var k :| 1 <= k < |order| && order[k] == b;
    i := if k <= j then k else k - 1;
  }

  lemma ListedStill(order: seq<nat>, blocks: map<nat, bool>, j: nat, k: nat)
    requires Lists(order, blocks) && Sorted(order) && j + 1 < |order| && 1 <= k < |order| - 1
    ensures var b := RemoveAt(order, j + 1)[k]; b in blocks && blocks[b] && b != order[j + 1]
  {
    hide RemoveAt;
    assert RemoveAt(order, j + 1)[k] == order[if k <= j then k else k + 1];
  }

  lemma MergeLists(order: seq<nat>, blocks: map<nat, bool>, j: nat)
    requires Lists(order, blocks) && Sorted(order) && j + 1 < |order|
    ensures Lists(RemoveAt(order, j + 1), blocks - {order[j + 1]})
  {
    hide RemoveAt, Lists, Sorted;
    var r := RemoveAt(order, j + 1);
    forall b | b in blocks && blocks[b] && b != order[j + 1] ensures exists k :: 1 <= k < |r| && r[k] == b {
      var k := StillListed(order, blocks, j, b);
    }
    forall k | 1 <= k < |r| ensures r[k] in blocks && blocks[r[k]] && r[k] != order[j + 1] {
      ListedStill(order, blocks, j, k);
    }
    assert Lists(r, blocks - {order[j + 1]}) by { ListsAll(r, blocks - {order[j + 1]}); }
  }

  lemma MergeUnit(size: map<nat, nat>, blocks: map<nat, bool>, cover: map<nat, nat>, x: nat, y: nat, u: nat)
    requires blocks.Keys <= size.Keys && Covers(size, blocks, cover) && u in cover
    requires x in blocks && y in blocks && x + size[x] == y && size[x] > 0
    ensures var b := Recover(cover, x, y)[u]; b in blocks - {y} && b <= u < b + size[x := size[x] + size[y]][b]
  {
    hide Covers;
    UnitAt(size, blocks, cover, u);
  }

  lemma MergeUnitBack(size: map<nat, nat>, blocks: map<nat, bool>, cover: map<nat, nat>, x: nat, y: nat, b: nat, u: nat)
    requires blocks.Keys <= size.Keys && Covers(size, blocks, cover)
    requires x in blocks && y in blocks && x + size[x] == y && size[x] > 0
    requires b in blocks - {y} && b <= u < b + size[x := size[x] + size[y]][b]
    ensures u in cover && Recover(cover, x, y)[u] == b
  {
    hide Covers;
    CoverAt(size, blocks, cover, if b == x && u >= y then y else b, u);
  }

  lemma MergeCovers(size: map<nat, nat>, blocks: map<nat, bool>, cover: map<nat, nat>, x: nat, y: nat)
    requires blocks.Keys <= size.Keys && Covers(size, blocks, cover)
    requires x in blocks && y in blocks && x + size[x] == y && size[x] > 0
    ensures Covers(size[x := size[x] + size[y]], blocks - {y}, Recover(cover, x, y))
    ensures Recover(cover, x, y).Keys == cover.Keys
  {
    var size', cover' := size[x := size[x] + size[y]], Recover(cover, x, y);
    forall u | u in cover' ensures cover'[u] in blocks - {y} && cover'[u] <= u < cover'[u] + size'[cover'[u]] {
      MergeUnit(size, blocks, cover, x, y, u);
    }
    forall b, u | b in blocks - {y} && b <= u < b + size'[b] ensures u in cover' && cover'[u] == b {
      MergeUnitBack(size, blocks, cover, x, y, b, u);
    }
  }

  lemma UnitAt(size: map<nat, nat>, blocks: map<nat, bool>, cover: map<nat, nat>, u: nat)
    requires blocks.Keys <= size.Keys && Covers(size, blocks, cover) && u in cover
    ensures cover[u] in blocks && cover[u] <= u < cover[u] + size[cover[u]]
  {}

  lemma CoverAt(size: map<nat, nat>, blocks: map<nat, bool>, cover: map<nat, nat>, b: nat, u: nat)
    requires blocks.Keys <= size.Keys && Covers(size, blocks, cover) && b in blocks && b <= u < b + size[b]
    ensures u in cover && cover[u] == b
  {}

  lemma MergeOk(a: Arena, base: nat, j: nat)
    requires Ok(a, base) && 1 <= j < |a.order| - 1
    requires {a.order[j], a.order[j + 1]} <= a.size.Keys && a.order[j] + a.size[a.order[j]] == a.order[j + 1]
    ensures a.order[j + 1] in a.ptr && Ok(Merge(a, j), base) && Merge(a, j).cover.Keys == a.cover.Keys
    ensures forall k: nat :: k < j && Gap(a, k) ==> Gap(Merge(a, j), k)
    ensures forall k: nat :: k > j && Gap(a, k) ==> Gap(Merge(a, j), k - 1)
  {
    hide RemoveAt, Linked, Covers, Recover;
    MergeLinked(a.ptr, a.order, j);
    MergeSorted(a.order, j);
    MergeLists(a.order, a.blocks, j);
    MergeCovers(a.size, a.blocks, a.cover, a.order[j], a.order[j + 1]);
  }

  // ---------------------------------------------------------------- free

  /** The blocks handed out, with their sizes. */
  ghost function Allocated(a: Arena): (r: map<nat, nat>)
    requires a.blocks.Keys <= a.size.Keys
  {
    map b | b in a.blocks && !a.blocks[b] :: a.size[b]
  }

  lemma JoinedGaps(r: Arena, m: Arena, i: nat)
    requires forall k: nat :: k != i && k != i + 1 ==> Gap(r, k)
    requires (forall k: nat :: k < i + 1 && Gap(r, k) ==> Gap(m, k)) &&
      forall k: nat :: k > i + 1 && Gap(r, k) ==> Gap(m, k - 1)
    ensures forall k: nat :: k != i ==> Gap(m, k)
  {
    hide Gap;
    forall k: nat | k != i ensures Gap(m, k) {
      if k <= i { assert Gap(r, k); } else { assert Gap(r, k + 1); }
    }
  }

  lemma ApartGaps(a: Arena, r: Arena, i: nat, bp: nat)
    requires i + 1 < |r.order| && r.order[i + 1] == bp && bp in r.size &&
      (forall k: nat :: k != i && k != i + 1 ==> Gap(r, k))
    requires i + 2 < |r.order| ==> bp + r.size[bp] != r.order[i + 2]
    ensures forall k: nat :: k != i ==> Gap(r, k)
  {}

  /** The order and the pointers once bp is linked in after order[i]. */
  lemma Inserted(a: Arena, base: nat, i: nat, bp: nat) returns (r: Arena)
    requires Valid(a, base) && bp in a.blocks && !a.blocks[bp] && Before(a.order, i, bp)
    ensures a.order[i] in a.ptr && r == Insert(a, i, bp) && Ok(r, base) &&
      forall k: nat :: k != i && k != i + 1 ==> Gap(r, k)
    ensures |r.order| == |a.order| + 1 && r.order[i] == a.order[i] && r.order[i + 1] == bp
    ensures r.blocks.Keys <= r.size.Keys && Allocated(r) == Allocated(a) - {bp} && bp in a.size
    ensures i + 1 < |a.order| ==> r.order[i + 2] == a.order[i + 1] == a.ptr[a.order[i]]
    ensures i + 1 < |a.order| ==>
      a.order[i + 1] in a.size && a.order[i + 1] in a.ptr && a.order[i + 1] in a.blocks && a.blocks[a.order[i + 1]]
    ensures i + 1 == |a.order| ==> a.ptr[a.order[i]] == base
  {
    hide InsertAt, Linked, Lists, Covers, Gap;
    InsertOk(a, base, i, bp);
    LinkedAt(a.ptr, a.order, i);
    r := Insert(a, i, bp);
    if i + 1 < |a.order| {
      LinkedAt(a.ptr, a.order, i + 1);
      ListsAt(a.order, a.blocks, i + 1);
    }
  }

  /** The block above, nx, is absorbed. */
  lemma Absorbed(a: Arena, r: Arena, base: nat, i: nat, bp: nat, nx: nat) returns (m: Arena)
    requires i < |a.order| && a.order[i] in a.ptr && r == Insert(a, i, bp) && Ok(r, base) &&
      (forall k: nat :: k != i && k != i + 1 ==> Gap(r, k))
    requires i + 2 < |r.order| && r.order[i] == a.order[i] && r.order[i + 1] == bp &&
      r.order[i + 2] == nx == a.ptr[a.order[i]]
    requires bp in a.size && nx in a.size && nx in a.ptr && bp + a.size[bp] == nx > bp && bp != a.order[i] &&
      nx != a.order[i] && nx in r.blocks && r.blocks[nx]
    requires r.blocks.Keys <= r.size.Keys
    ensures Ok(m, base) && m.cover.Keys == a.cover.Keys && (forall k: nat :: k != i ==> Gap(m, k))
    ensures i + 1 < |m.order| && m.order[i] == a.order[i] && m.order[i + 1] == bp
    ensures m.blocks.Keys <= m.size.Keys && Allocated(m) == Allocated(r)
    ensures m.size == a.size[bp := a.size[bp] + a.size[nx]] && m.ptr == a.ptr[bp := a.ptr[nx]][a.order[i] := bp]
  {
    hide InsertAt, RemoveAt, Ok, Recover, Gap;
    MergeOk(r, base, i + 1);
    m := Merge(r, i + 1);
    assert m.ptr == a.ptr[bp := a.ptr[nx]][a.order[i] := bp];
    JoinedGaps(r, m, i);
  }

  /** First half of free: link bp in after order[i] and absorb the block above if they touch. */
  lemma FreeUp(a: Arena, base: nat, i: nat, bp: nat) returns (r: Arena)
    requires Valid(a, base) && bp in a.blocks && !a.blocks[bp] && Before(a.order, i, bp)
    ensures Ok(r, base) && r.cover.Keys == a.cover.Keys && (forall k: nat :: k != i ==> Gap(r, k))
    ensures i + 1 < |r.order| && r.order[i] == a.order[i] && r.order[i + 1] == bp
    ensures r.blocks.Keys <= r.size.Keys && Allocated(r) == Allocated(a) - {bp}
    ensures a.order[i] in a.ptr && bp in a.size && bp in r.ptr && bp in r.size && r.size[bp] >= a.size[bp]
    ensures var nx := a.ptr[a.order[i]];
      if bp + a.size[bp] == nx then
        nx in a.size && nx in a.ptr &&
        r.size == a.size[bp := a.size[bp] + a.size[nx]] && r.ptr == a.ptr[bp := a.ptr[nx]][a.order[i] := bp]
      else
        r.size == a.size && r.ptr == a.ptr[bp := nx][a.order[i] := bp]
  {
    hide InsertAt, Linked, Lists, Covers, Gap, Allocated, Tiled;
    r := Inserted(a, base, i, bp);
    if i + 1 < |a.order| && bp + a.size[bp] == a.order[i + 1] {
      r := Absorbed(a, r, base, i, bp, a.order[i + 1]);
    } else {
      ApartGaps(a, r, i, bp);
    }
  }

  lemma ListsAt(order: seq<nat>, blocks: map<nat, bool>, i: nat)
    requires Lists(order, blocks) && 1 <= i < |order|
    ensures order[i] in blocks && blocks[order[i]]
  {}

  /** Second half of free: let order[i] absorb bp if they touch. */
  lemma FreeDown(a: Arena, base: nat, i: nat, bp: nat) returns (r: Arena)
    requires Ok(a, base) && (forall k: nat :: k != i ==> Gap(a, k)) && i + 1 < |a.order| && a.order[i + 1] == bp
    ensures Valid(r, base) && r.cover.Keys == a.cover.Keys && i < |r.order| && r.order[i] == a.order[i]
    ensures r.blocks.Keys <= r.size.Keys && a.blocks.Keys <= a.size.Keys && Allocated(r) == Allocated(a)
    ensures a.order[i] in a.size && bp in a.size && bp in a.ptr
    ensures exists j :: 1 <= j < |r.order| && r.order[j] in r.size && r.size[r.order[j]] >= a.size[bp]
    ensures if a.order[i] + a.size[a.order[i]] == bp then
        r.size == a.size[a.order[i] := a.size[a.order[i]] + a.size[bp]] && r.ptr == a.ptr[a.order[i] := a.ptr[bp]]
      else
        r == a
  {
    hide InsertAt, RemoveAt, Linked, Lists, Covers, Recover;
    var p := a.order[i];
    ListsAt(a.order, a.blocks, i + 1);
    LinkedAt(a.ptr, a.order, i + 1);
    if i > 0 { ListsAt(a.order, a.blocks, i); }
    SortedAt(a.order, i, i + 1);
    if p + a.size[p] == bp {
      MergeOk(a, base, i);
      r := Merge(a, i);
      forall k: nat ensures Gap(r, k) {
        if k < i { assert Gap(a, k); } else { assert Gap(a, k + 1); }
      }
      assert r.order[i] == p && r.size[p] >= a.size[bp];
    } else {
      r := a;
      assert Gap(a, i);
    }
  }

  /** Some position of the list is the predecessor of any address above base. */
  lemma {:induction false} PredecessorExists(order: seq<nat>, bp: nat, n: nat) returns (k: nat)
    requires Sorted(order) && 0 < n <= |order| && order[0] < bp && bp !in order
    ensures k < n && order[k] < bp && (k + 1 < n ==> bp < order[k + 1])
  {
    if n == 1 || order[n - 1] < bp {
      k := n - 1;
    } else {
      k := PredecessorExists(order, bp, n - 1);
    }
  }

  // ---------------------------------------------------------------- malloc

  /** Blocks in address order do not overlap. */
  lemma Disjoint(a: Arena, base: nat, x: nat, y: nat)
    requires Tiled(a, base) && x in a.blocks && y in a.blocks && x < y
    ensures x + a.size[x] <= y
  {
    hide Covers;
    CoverAt(a.size, a.blocks, a.cover, y, y);
    if y < x + a.size[x] { CoverAt(a.size, a.blocks, a.cover, x, y); }
  }

  /** Handing out all of free block j. */
  lemma TakeWhole(a: Arena, base: nat, j: nat) returns (r: Arena)
    requires Valid(a, base) && 1 <= j < |a.order|
    ensures a.order[j] in a.ptr && a.order[j] in a.size && a.order[j] in a.blocks && a.blocks[a.order[j]]
    ensures Valid(r, base) && r.cover == a.cover && |r.order| == |a.order| - 1 && r.order[j - 1] == a.order[j - 1]
    ensures r.ptr == a.ptr[a.order[j - 1] := a.ptr[a.order[j]]] && r.size == a.size
    ensures r.blocks.Keys <= r.size.Keys && Allocated(r) == Allocated(a)[a.order[j] := a.size[a.order[j]]]
  {
    hide InsertAt, RemoveAt, Linked, Lists, Covers;
    var y := a.order[j];
    ListsAt(a.order, a.blocks, j);
    LinkedAt(a.ptr, a.order, j);
    MergeLinked(a.ptr, a.order, j - 1);
    MergeSorted(a.order, j - 1);
    TakeLists(a.order, a.blocks, j);
    CoversSameKeys(a.size, a.blocks, a.blocks[y := false], a.cover);
    r := Arena(a.ptr[a.order[j - 1] := a.ptr[y]], a.size, RemoveAt(a.order, j), a.blocks[y := false], a.cover);
    forall k: nat ensures Gap(r, k) {
      if k >= j {
        assert Gap(a, k + 1);
      } else if k < j - 1 {
        assert Gap(a, k);
      } else if 1 <= k && j + 1 < |a.order| {
        ListsAt(a.order, a.blocks, k);
        SortedAt(a.order, k, j);
        SortedAt(a.order, j, j + 1);
        Disjoint(a, base, a.order[k], y);
      }
    }
  }

  lemma TakeLists(order: seq<nat>, blocks: map<nat, bool>, j: nat)
    requires Lists(order, blocks) && Sorted(order) && 1 <= j < |order|
    ensures Lists(RemoveAt(order, j), blocks[order[j] := false])
  {
    hide RemoveAt;
    MergeLists(order, blocks, j - 1);
    var b' := blocks[order[j] := false];
    assert forall b :: b in b' && b' [b] ==> b in blocks - {order[j]} && (blocks - {order[j]})[b];
  }

  lemma CoversSameKeys(size: map<nat, nat>, b: map<nat, bool>, b': map<nat, bool>, cover: map<nat, nat>)
    requires b.Keys == b'.Keys <= size.Keys && Covers(size, b, cover)
    ensures Covers(size, b', cover)
  {}

  /** Handing out the last nunits units of free block j. */
  lemma TakeTail(a: Arena, base: nat, j: nat, nunits: nat) returns (r: Arena, t: nat)
    requires Valid(a, base) && 1 <= j < |a.order|
    requires a.order[j] in a.size && 0 < nunits < a.size[a.order[j]]
    ensures t == a.order[j] + a.size[a.order[j]] - nunits && t !in a.blocks
    ensures Valid(r, base) && r.cover.Keys == a.cover.Keys && r.order == a.order && r.ptr == a.ptr
    ensures r.size == a.size[a.order[j] := a.size[a.order[j]] - nunits][t := nunits]
    ensures r.blocks.Keys <= r.size.Keys && Allocated(r) == Allocated(a)[t := nunits]
  {
    hide InsertAt, RemoveAt, Linked, Lists, Covers;
    var p := a.order[j];
    t := p + a.size[p] - nunits;
    ListsAt(a.order, a.blocks, j);
    CoverAt(a.size, a.blocks, a.cover, p, t);
    if t in a.blocks { CoverAt(a.size, a.blocks, a.cover, t, t); }
    TailCovers(a.size, a.blocks, a.cover, p, nunits);
    TailLists(a.order, a.blocks, t);
    r := Arena(a.ptr, a.size[p := a.size[p] - nunits][t := nunits], a.order, a.blocks[t := false],
               Carve(a.cover, p, t));
    forall k: nat ensures Gap(r, k) {
      assert Gap(a, k);
      if k == j && j + 1 < |a.order| {
        ListsAt(a.order, a.blocks, j + 1);
        SortedAt(a.order, j, j + 1);
        Disjoint(a, base, p, a.order[j + 1]);
      } else if 1 <= k < |a.order| {
        ListsAt(a.order, a.blocks, k);
        if k < j { SortedAt(a.order, k, j); } else if k > j { SortedAt(a.order, j, k); }
      }
    }
  }

  /** The units of block p from t on become block t. */
  ghost function Carve(cover: map<nat, nat>, p: nat, t: nat): (r: map<nat, nat>) {
    map u | u in cover :: if cover[u] == p && u >= t then t else cover[u]
  }

  lemma TailLists(order: seq<nat>, blocks: map<nat, bool>, t: nat)
    requires Lists(order, blocks) && t !in blocks
    ensures Lists(order, blocks[t := false])
  {}

  lemma TailUnit(size: map<nat, nat>, blocks: map<nat, bool>, cover: map<nat, nat>, p: nat, nunits: nat, u: nat)
    requires blocks.Keys <= size.Keys && Covers(size, blocks, cover) && p in blocks && 0 < nunits < size[p]
    requires p + size[p] - nunits !in blocks && u in Carve(cover, p, p + size[p] - nunits)
    ensures var t := p + size[p] - nunits;
      var size', b := size[p := size[p] - nunits][t := nunits], Carve(cover, p, t)[u];
      b in blocks[t := false] && b <= u < b + size'[b]
  {
    hide Covers;
    UnitAt(size, blocks, cover, u);
  }

  lemma TailCover(size: map<nat, nat>, blocks: map<nat, bool>, cover: map<nat, nat>, p: nat, nunits: nat, b: nat,
                  u: nat)
    requires blocks.Keys <= size.Keys && Covers(size, blocks, cover) && p in blocks && 0 < nunits < size[p]
    requires var t := p + size[p] - nunits;
      t !in blocks && b in blocks[t := false] && b <= u < b + size[p := size[p] - nunits][t := nunits][b]
    ensures var c := Carve(cover, p, p + size[p] - nunits); u in c && c[u] == b
  {
    hide Covers;
    CoverAt(size, blocks, cover, if b == p + size[p] - nunits then p else b, u);
  }

  lemma TailCovers(size: map<nat, nat>, blocks: map<nat, bool>, cover: map<nat, nat>, p: nat, nunits: nat)
    requires blocks.Keys <= size.Keys && Covers(size, blocks, cover) && p in blocks && 0 < nunits < size[p]
    requires p + size[p] - nunits !in blocks
    ensures var t := p + size[p] - nunits;
      Covers(size[p := size[p] - nunits][t := nunits], blocks[t := false], Carve(cover, p, t))
  {
    hide Covers, Carve;
    var t := p + size[p] - nunits;
    var size', blocks', cover' := size[p := size[p] - nunits][t := nunits], blocks[t := false], Carve(cover, p, t);
    forall u | u in cover' ensures cover'[u] in blocks' && cover'[u] <= u < cover'[u] + size'[cover'[u]] {
      TailUnit(size, blocks, cover, p, nunits, u);
    }
    forall b, u | b in blocks' && b <= u < b + size'[b] ensures u in cover' && cover'[u] == b {
      TailCover(size, blocks, cover, p, nunits, b, u);
    }
    CoversAll(size', blocks', cover');
  }

  ghost predicate Within(u: nat, s: nat, nu: nat) { s <= u < s + nu }

  /** The units of a region. */
  ghost function Span(s: nat, nu: nat): (r: set<nat>)
    ensures forall u :: u in r <==> s <= u < s + nu
  {
    set u: nat | s <= u < s + nu && Within(u, s, nu)
  }

  /** Adding a region obtained from sbrk, as one allocated block. */
  lemma AddCore(a: Arena, base: nat, s: nat, nu: nat) returns (r: Arena)
    requires Valid(a, base) && s > base && nu > 0 && Span(s, nu) !! a.cover.Keys
    ensures s !in a.blocks && Valid(r, base) && r.cover.Keys == a.cover.Keys + Span(s, nu)
    ensures r.size == a.size[s := nu] && r.ptr == a.ptr && r.order == a.order
    ensures s in r.blocks && !r.blocks[s] && r.blocks.Keys <= r.size.Keys && Allocated(r) == Allocated(a)[s := nu]
  {
    hide InsertAt, RemoveAt, Linked, Lists, Covers;
    if s in a.blocks { CoverAt(a.size, a.blocks, a.cover, s, s); }
    TailLists(a.order, a.blocks, s);
    var core := map u | u in Span(s, nu) :: s;
    CoreCovers(a.size, a.blocks, a.cover, s, nu, core);
    r := Arena(a.ptr, a.size[s := nu], a.order, a.blocks[s := false], a.cover + core);
    forall k: nat ensures Gap(r, k) {
      assert Gap(a, k);
      if 1 <= k < |a.order| { ListsAt(a.order, a.blocks, k); }
    }
  }

  lemma CoreCovers(size: map<nat, nat>, blocks: map<nat, bool>, cover: map<nat, nat>, s: nat, nu: nat,
                   core: map<nat, nat>)
    requires blocks.Keys <= size.Keys && Covers(size, blocks, cover) && s !in blocks
    requires core == (map u | u in Span(s, nu) :: s) && Span(s, nu) !! cover.Keys
    ensures Covers(size[s := nu], blocks[s := false], cover + core)
  {
    hide Covers, Span;
    var size', blocks', cover' := size[s := nu], blocks[s := false], cover + core;
    forall u | u in cover' ensures cover'[u] in blocks' && cover'[u] <= u < cover'[u] + size'[cover'[u]] {
      CoreUnit(size, blocks, cover, s, nu, core, u);
    }
    forall b, u | b in blocks' && b <= u < b + size'[b] ensures u in cover' && cover'[u] == b {
      CoreUnitBack(size, blocks, cover, s, nu, core, b, u);
    }
    CoversAll(size', blocks', cover');
  }

  lemma CoversAll(size: map<nat, nat>, blocks: map<nat, bool>, cover: map<nat, nat>)
    requires blocks.Keys <= size.Keys
    requires forall u :: u in cover ==> cover[u] in blocks && cover[u] <= u < cover[u] + size[cover[u]]
    requires forall b, u :: b in blocks && b <= u < b + size[b] ==> u in cover && cover[u] == b
    ensures Covers(size, blocks, cover)
  {}

  lemma CoreUnit(size: map<nat, nat>, blocks: map<nat, bool>, cover: map<nat, nat>, s: nat, nu: nat,
                 core: map<nat, nat>, u: nat)
    requires blocks.Keys <= size.Keys && Covers(size, blocks, cover) && s !in blocks
    requires core == (map x | x in Span(s, nu) :: s) && u in cover + core
    ensures var b := (cover + core)[u]; b in blocks[s := false] && b <= u < b + size[s := nu][b]
  {
    hide Covers;
    if u !in core { UnitAt(size, blocks, cover, u); }
  }

  lemma CoreUnitBack(size: map<nat, nat>, blocks: map<nat, bool>, cover: map<nat, nat>, s: nat, nu: nat,
                     core: map<nat, nat>, b: nat, u: nat)
    requires blocks.Keys <= size.Keys && Covers(size, blocks, cover) && s !in blocks && Span(s, nu) !! cover.Keys
    requires core == (map x | x in Span(s, nu) :: s) && b in blocks[s := false] && b <= u < b + size[s := nu][b]
    ensures u in cover + core && (cover + core)[u] == b
  {
    hide Covers;
    if b != s { CoverAt(size, blocks, cover, b, u); }
  }
}
