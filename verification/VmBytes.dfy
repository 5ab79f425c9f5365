/** User memory as bytes, for copyin and copyout. */
module VmBytes {
  import opened PageTable
  import opened VmSpec
  import opened VmOwned
  import opened VmGrow

  function ByteAt(d: Data, p: nat, o: nat): nat { if p in d && o < 4096 then d[p][o] else 0 }

  /** The byte at a virtual address of tree r. */
  ghost function UserByte(tables: map<nat, seq<Pte>>, d: Data, r: nat, n: nat, o: nat): nat {
    if Hw(tables, r, n).Some? then ByteAt(d, Hw(tables, r, n).value.frame, o) else 0
  }

  function Splice(page: Page, off: nat, src: seq<nat>, k: nat, m: nat): (r: Page)
    requires off + m <= 4096 && k + m <= |src|
    ensures forall o :: 0 <= o < 4096 ==> r[o] == if off <= o < off + m then src[k + (o - off)] else page[o]
  {
    seq(4096, o requires 0 <= o < 4096 => if off <= o < off + m then src[k + (o - off)] else page[o])
  }

  /** Page n of tree r can be used by the user, and for writing if asked. */
  ghost predicate Accessible(tables: map<nat, seq<Pte>>, r: nat, n: nat, write: bool) {
    n < MAXPAGE && Hw(tables, r, n).Some? && Hw(tables, r, n).value.pte.u && (write ==> Hw(tables, r, n).value.pte.w)
  }

  /** Different user pages, of one tree or of two, are in different frames. */
  lemma FramesApart(f: Forest, users: set<nat>, frames: map<nat, Spot>, supers: map<nat, Spot>, all: set<nat>,
                    freelist: seq<nat>,
                    other: set<nat>, allSupers: set<nat>, pool: seq<nat>, held: set<nat>, r: nat, n: nat, q: nat,
                      m: nat)
    requires Wf(f) && UserRoots(f, users) && Owned(f.tables, users, frames, supers)
    requires Shared(all, freelist, f.tables.Keys, frames.Keys, other) && Pooled(allSupers, pool, supers.Keys, held)
    requires r in users && q in users && n < USERTOP && m < USERTOP && Hw(f.tables, r, n).Some? &&
      Hw(f.tables, q, m).Some?
    requires Hw(f.tables, r, n).value.frame == Hw(f.tables, q, m).value.frame
    ensures r == q && n == m
  {
    hide Wf, Hw, Owned, UserRoots, Shared, Pooled;
    Located(f, users, frames, supers, all, freelist, other, allSupers, pool, held, r, n);
    Located(f, users, frames, supers, all, freelist, other, allSupers, pool, held, q, m);
  }

  /** Where a frame is tells whose it is. */
  lemma Located(f: Forest, users: set<nat>, frames: map<nat, Spot>, supers: map<nat, Spot>, all: set<nat>,
                freelist: seq<nat>,
                other: set<nat>, allSupers: set<nat>, pool: seq<nat>, held: set<nat>, r: nat, n: nat)
    requires Wf(f) && UserRoots(f, users) && Owned(f.tables, users, frames, supers)
    requires Shared(all, freelist, f.tables.Keys, frames.Keys, other) && Pooled(allSupers, pool, supers.Keys, held)
    requires r in users && n < USERTOP && Hw(f.tables, r, n).Some?
    ensures var p := Hw(f.tables, r, n).value.frame;
      if p < SUPERBASE then p in frames && frames[p] == Spot(r, n)
      else p - p % 512 in supers && supers[p - p % 512] == Spot(r, n - n % 512) && p % 512 == n % 512
  {
    hide Wf, Hw, Owned, UserRoots, Shared, Pooled, Px0;
    var t := Hw(f.tables, r, n).value;
    LevelOwner(f, users, frames, supers, r, n);
    assert HasOwner(t, r, n, frames, supers) by { OwnerAt(f, users, frames, supers, r, n); }
    if t.level == 1 {
      SuperHigh(allSupers, pool, supers.Keys, held, t.pte.ppn);
      InBlock(t.pte.ppn, n);
    } else {
      FrameLow(all, freelist, f.tables.Keys, frames.Keys, other, t.frame);
    }
  }

  lemma OwnerAt(f: Forest, users: set<nat>, frames: map<nat, Spot>, supers: map<nat, Spot>, r: nat, n: nat)
    requires Owned(f.tables, users, frames, supers) && r in users && n < USERTOP && Hw(f.tables, r, n).Some?
    ensures HasOwner(Hw(f.tables, r, n).value, r, n, frames, supers)
  {
    hide Hw;
  }

  lemma SuperHigh(all: set<nat>, pool: seq<nat>, supers: set<nat>, held: set<nat>, s: nat)
    requires Pooled(all, pool, supers, held) && s in supers
    ensures s % 512 == 0 && SUPERBASE <= s
  {}

  lemma FrameLow(all: set<nat>, freelist: seq<nat>, tables: set<nat>, frames: set<nat>, other: set<nat>, p: nat)
    requires Shared(all, freelist, tables, frames, other) && p in frames
    ensures p < SUPERBASE
  {}

  /** Where uvmunmap frees with kfree, it frees one of kalloc's pages exactly outside the inside of superpages; inside,
      it hands kfree the base of the superpage. */
  lemma KfreesItsOwn(f: Forest, users: set<nat>, frames: map<nat, Spot>, supers: map<nat, Spot>, all: set<nat>,
                     freelist: seq<nat>,
                     other: set<nat>, allSupers: set<nat>, pool: seq<nat>, held: set<nat>, r: nat, n: nat)
    requires Wf(f) && UserRoots(f, users) && Owned(f.tables, users, frames, supers)
    requires Shared(all, freelist, f.tables.Keys, frames.Keys, other) && Pooled(allSupers, pool, supers.Keys, held)
    requires r in users && n < USERTOP && Hw(f.tables, r, n).Some? && !(n % 512 == 0 && IsSuper(f, r, n))
    ensures var p := Hw(f.tables, r, n).value.pte.ppn;
      && (p in all <==> !Inside(f.tables, r, n)) && (Inside(f.tables, r, n) ==> p in allSupers && p in supers)
      && (Inside(f.tables, r, n) ==>
        forall tables', frames', other' :: !Shared(all, [p] + freelist, tables', frames', other'))
  {
    hide Wf, Hw, Owned, UserRoots, Shared, Pooled, Px0, IsSuper;
    var t := Hw(f.tables, r, n).value;
    UserRoot(f, users, r);
    LevelOwner(f, users, frames, supers, r, n);
    SuperEntry(f, r, n);
    BaseIsFrame(f, r, n);
    if t.level == 1 {
      SuperNotSmall(all, freelist, f.tables.Keys, frames.Keys, other, allSupers, pool, supers.Keys, held, t.pte.ppn);
      NoAccount(all, freelist, t.pte.ppn);
    } else {
      SmallInAll(all, freelist, f.tables.Keys, frames.Keys, other, t.frame);
    }
  }

  /** With a page on the free list that is none of kalloc's the pages cannot be accounted for, whoever has the
      others. */
  lemma NoAccount(all: set<nat>, freelist: seq<nat>, p: nat)
    requires p !in all
    ensures forall tables', frames', other' :: !Shared(all, [p] + freelist, tables', frames', other')
  {
    assert ([p] + freelist)[0] == p;
    assert p in Elems([p] + freelist);
  }

  lemma SuperNotSmall(all: set<nat>, freelist: seq<nat>, tables: set<nat>, frames: set<nat>, other: set<nat>,
                      allSupers: set<nat>, pool: seq<nat>, supers: set<nat>, held: set<nat>, s: nat)
    requires Shared(all, freelist, tables, frames, other) && Pooled(allSupers, pool, supers, held) && s in supers
    ensures s !in all && s in allSupers
  {
    hide Distinct, Elems;
  }

  lemma SmallInAll(all: set<nat>, freelist: seq<nat>, tables: set<nat>, frames: set<nat>, other: set<nat>, p: nat)
    requires Shared(all, freelist, tables, frames, other) && p in frames
    ensures p in all
  {
    hide Distinct, Elems;
  }

  lemma InBlock(s: nat, n: nat)
    requires s % 512 == 0
    ensures var p := s + Px0(n); p - p % 512 == s && p % 512 == n % 512
  {}

  /** The first k bytes of src are at address dst of tree root, and every other byte of user memory is as before. */
  ghost predicate CopiedOut(tables: map<nat, seq<Pte>>, users: set<nat>, d: Data, d': Data,
                            root: nat, dst: nat, src: seq<nat>, k: nat) {
    forall r, n, o :: r in users && 0 <= n < USERTOP && 0 <= o < 4096 ==>
      UserByte(tables, d', r, n, o) ==
        if r == root && dst <= n * 4096 + o < dst + k &&
          k <= |src| then src[n * 4096 + o - dst] else UserByte(tables, d, r, n, o)
  }

  lemma CopiedOutNone(tables: map<nat, seq<Pte>>, users: set<nat>, d: Data, root: nat, dst: nat, src: seq<nat>)
    ensures CopiedOut(tables, users, d, d, root, dst, src, 0)
  {
    hide UserByte;
  }

  lemma InPage(n: nat, o: nat, dst: nat, k: nat, m: nat)
    requires o < 4096 && (dst + k) % 4096 + m <= 4096
    ensures dst + k <= n * 4096 + o < dst + k + m <==>
      n == (dst + k) / 4096 && (dst + k) % 4096 <= o < (dst + k) % 4096 + m
    ensures n == (dst + k) / 4096 ==> n * 4096 + o - (dst + k) == o - (dst + k) % 4096
  {}

  /** One page more. p is the frame of the page that address dst + k is in, which no other user page has. */
  lemma CopiedOutMore(tables: map<nat, seq<Pte>>, users: set<nat>, d: Data, e: Data,
                      root: nat, dst: nat, src: seq<nat>, k: nat, m: nat, p: nat)
    requires CopiedOut(tables, users, d, e, root, dst, src, k) && k + m <= |src| && (dst + k) % 4096 + m <= 4096 &&
      p in e
    requires root in users && (dst + k) / 4096 < USERTOP
    requires Hw(tables, root, (dst + k) / 4096).Some? && Hw(tables, root, (dst + k) / 4096).value.frame == p
    requires forall r, n ::
      r in users && 0 <= n < USERTOP && Hw(tables, r, n).Some? && Hw(tables, r, n).value.frame == p ==>
        r == root && n == (dst + k) / 4096
    ensures CopiedOut(tables, users, d, e[p := Splice(e[p], (dst + k) % 4096, src, k, m)], root, dst, src, k + m)
  {
    hide Hw, Splice;
    var e' := e[p := Splice(e[p], (dst + k) % 4096, src, k, m)];
    forall r, n, o | r in users && 0 <= n < USERTOP && 0 <= o < 4096
      ensures UserByte(tables, e', r, n, o) ==
        if r == root && dst <= n * 4096 + o < dst + (k + m) &&
          k + m <= |src| then src[n * 4096 + o - dst] else UserByte(tables, d, r, n, o)
    {
      InPage(n, o, dst, k, m);
      OneByte(tables, e, e', root, dst, src, k, m, p, r, n, o);
    }
  }

  lemma OneByte(tables: map<nat, seq<Pte>>, e: Data, e': Data, root: nat, dst: nat, src: seq<nat>,
                k: nat, m: nat, p: nat, r: nat, n: nat, o: nat)
    requires k + m <= |src| && (dst + k) % 4096 + m <= 4096 && p in e && o < 4096
    requires e' == e[p := Splice(e[p], (dst + k) % 4096, src, k, m)]
    requires Hw(tables, r, n).Some? && Hw(tables, r, n).value.frame == p ==> r == root && n == (dst + k) / 4096
    requires Hw(tables, root, (dst + k) / 4096).Some? && Hw(tables, root, (dst + k) / 4096).value.frame == p
    ensures UserByte(tables, e', r, n, o) ==
      if r == root && n == (dst + k) / 4096 &&
        (dst + k) % 4096 <= o < (dst + k) % 4096 + m then src[k + (o - (dst + k) % 4096)]
        else UserByte(tables, e, r, n, o)
  {
    hide Hw, Splice;
  }

  /** The pages above user memory are not for the user. */
  ghost predicate TopIsKernels(tables: map<nat, seq<Pte>>, root: nat) {
    forall n :: USERTOP <= n < MAXPAGE && Hw(tables, root, n).Some? ==> !Hw(tables, root, n).value.pte.u
  }

  /** No page that addresses va up to va + len touch is inside a superpage. */
  ghost predicate NoInsides(tables: map<nat, seq<Pte>>, root: nat, va: nat, len: nat) {
    forall n :: va / 4096 <= n && n * 4096 < va + len ==> !Inside(tables, root, n)
  }

  lemma NotInside(tables: map<nat, seq<Pte>>, root: nat, va: nat, len: nat, k: nat)
    requires NoInsides(tables, root, va, len) && k < len
    ensures !Inside(tables, root, (va + k) / 4096)
  {
    hide Inside;
  }

  lemma UserPage(tables: map<nat, seq<Pte>>, root: nat, n: nat, write: bool)
    requires TopIsKernels(tables, root) && Accessible(tables, root, n, write)
    ensures n < USERTOP && Hw(tables, root, n).Some?
  {
    hide Hw;
  }

  /** walkaddr's answer is right exactly on 4 KiB leaves and on the first page of a superpage. */
  lemma BaseIsFrame(f: Forest, root: nat, n: nat)
    requires Wf(f) && Top(root) in f.at && n < MAXPAGE && Hw(f.tables, root, n).Some?
    ensures Hw(f.tables, root, n).value.pte.ppn == Hw(f.tables, root, n).value.frame <==> !Inside(f.tables, root, n)
  {
    hide Wf;
    SlotSays(f, root, n);
  }

  lemma NextChunk(va: nat, k: nat, len: nat)
    requires k < len
    ensures var off, m := (va + k) % 4096, if 4096 - (va + k) % 4096 > len - k then len - k else 4096 - (va + k) % 4096;
      0 < m && off + m <= 4096 && k + m <= len && (k + m < len ==> (va + k + m) % 4096 == 0)
  {}

  lemma AccessibleMapped(tables: map<nat, seq<Pte>>, root: nat, n: nat, write: bool)
    requires Accessible(tables, root, n, write)
    ensures n < MAXPAGE && Hw(tables, root, n).Some?
  {}

  /** dst is what the user has from address src on. */
  ghost predicate ReadAs(tables: map<nat, seq<Pte>>, d: Data, root: nat, src: nat, dst: seq<nat>) {
    forall k :: 0 <= k < |dst| ==> dst[k] == UserByte(tables, d, root, (src + k) / 4096, (src + k) % 4096)
  }

  lemma ReadMore(tables: map<nat, seq<Pte>>, d: Data, root: nat, src: nat, dst: seq<nat>, m: nat, p: nat)
    requires ReadAs(tables, d, root, src, dst) && (src + |dst|) % 4096 + m <= 4096 && p in d
    requires Hw(tables, root, (src + |dst|) / 4096).Some? && Hw(tables, root, (src + |dst|) / 4096).value.frame == p
    ensures ReadAs(tables, d, root, src, dst + d[p][(src + |dst|) % 4096..(src + |dst|) % 4096 + m])
  {
    hide Hw;
    var off := (src + |dst|) % 4096;
    var dst' := dst + d[p][off..off + m];
    forall j | 0 <= j < |dst'| ensures dst'[j] == UserByte(tables, d, root, (src + j) / 4096, (src + j) % 4096) {
      if j >= |dst| {
        SamePageAs(src, |dst|, j, m);
        assert dst'[j] == d[p][off + (j - |dst|)];
      }
    }
  }

  /** What copyout put there, copyin reads back. */
  lemma ReadBack(tables: map<nat, seq<Pte>>, users: set<nat>, d: Data, d': Data, root: nat, va: nat,
                 src: seq<nat>, dst: seq<nat>)
    requires root in users && CopiedOut(tables, users, d, d', root, va, src, |src|) && ReadAs(tables, d', root, va, dst)
    requires |dst| == |src| && va + |src| <= USERTOP * 4096
    ensures dst == src
  {
    hide UserByte;
    forall k | 0 <= k < |dst| ensures dst[k] == src[k] {
      var n, o := (va + k) / 4096, (va + k) % 4096;
      assert n * 4096 + o == va + k;
      assert UserByte(tables, d', root, n, o) == src[n * 4096 + o - va];
    }
  }

  lemma SamePageAs(src: nat, k: nat, j: nat, m: nat)
    requires k <= j < k + m && (src + k) % 4096 + m <= 4096
    ensures (src + j) / 4096 == (src + k) / 4096 && (src + j) % 4096 == (src + k) % 4096 + (j - k)
  {}

  lemma ReadNone(tables: map<nat, seq<Pte>>, d: Data, root: nat, src: nat)
    ensures ReadAs(tables, d, root, src, [])
  {}
}
