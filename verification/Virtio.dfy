/** The virtio block driver (kernel/virtio_disk.c) and the device it talks to, over one split virtqueue
    (sections 2.6 and 5.2 of OASIS virtio 1.1). Every method is one critical section of vdisk_lock or one step
    of the device; a run is any sequence of them. */
module Virtio {
  import opened Wrap

  const NUM: nat := 8
  const UINT16: nat := 65536

  datatype Option<T> = None | Some(value: T)

  datatype Addr = Null | Header(op: nat) | Data(buf: nat) | Status(op: nat)

  /** struct virtq_desc; `more` and `write` are VRING_DESC_F_NEXT and VRING_DESC_F_WRITE. */
  datatype Desc = Desc(addr: Addr, write: bool, more: bool, next: nat)

  /** struct virtio_blk_req. */
  datatype Op = Op(write: bool, sector: nat)

  datatype Info = Info(buf: Option<nat>, status: nat)

  /** A request in flight: what was asked, and the second and third descriptors of its chain. */
  datatype Request = Request(buf: nat, op: Op, d1: nat, d2: nat)

  /** Where a request is: published in the avail ring at a position, being processed by the device, in the used
      ring at a position, or noticed by the driver. */
  datatype Phase = Waiting(at: nat) | Fetched | Used(at: nat) | Done

  /** 16-bit index arithmetic and ring slots. */
  function U16(k: nat): (r: nat) { k % UINT16 }

  lemma {:induction false} Slot8(k: nat)
    ensures Slot(k, NUM) == k % NUM
  {
    if k >= NUM { Slot8(k - NUM); }
  }

  lemma {:induction false} DropMultiple8(a: nat, b: nat)
    ensures (a + NUM * b) % NUM == a % NUM
  {
    if b > 0 { DropMultiple8(a, b - 1); }
  }

  method Inc16(x: nat, ghost k: nat) returns (y: nat)
    requires x == U16(k)
    ensures y == U16(k + 1)
  {
    y := (x + 1) % UINT16;
  }

  method Index8(x: nat, ghost k: nat) returns (i: nat)
    requires x == U16(k)
    ensures i == Slot(k, NUM)
  {
    DropMultiple8(k % UINT16, k / UINT16 * (UINT16 / NUM));
    Slot8(k);
    i := x % NUM;
  }

  /** While the two indices are at most a ring apart, their words are equal only if they are. */
  lemma Same16(r: nat, e: nat)
    requires r <= e <= r + NUM
    ensures U16(r) == U16(e) <==> r == e
  {}

  ghost predicate Distinct(s: seq<nat>) { forall i, j :: 0 <= i < j < |s| ==> s[i] != s[j] }

  /** Distinct descriptor numbers below n: at most n of them. */
  lemma {:induction false} Pigeonhole(s: seq<nat>, n: nat)
    requires Distinct(s) && forall i :: 0 <= i < |s| ==> s[i] < n
    ensures |s| <= n
  {
    if s == [] {
    } else if i :| 0 <= i < |s| && s[i] == n - 1 {
      var rest := s[..i] + s[i + 1..];
      forall j | 0 <= j < |rest| ensures rest[j] < n - 1 { assert rest[j] == s[if j < i then j else j + 1]; }
      Pigeonhole(rest, n - 1);
    } else {
      assert s[0] < n;
      Pigeonhole(s, n - 1);
    }
  }

  // ---------------------------------------------------------------- descriptor ownership, as values

  /** Descriptors split into free ones and disjoint three-descriptor chains, one per request. */
  ghost predicate Owned(free: seq<bool>, reqs: map<nat, Request>, owner: map<nat, nat>) {
    && |free| == NUM
    && (forall i :: 0 <= i < NUM ==> (free[i] <==> i !in owner))
    && (forall i :: i in owner ==> OwnerAt(reqs, owner, i))
    && (forall h :: h in reqs ==> ChainAt(reqs, owner, h))
  }

  ghost predicate OwnerAt(reqs: map<nat, Request>, owner: map<nat, nat>, i: nat)
    requires i in owner
  {
    i < NUM && owner[i] in reqs && i in Chain(owner[i], reqs[owner[i]])
  }

  ghost predicate ChainAt(reqs: map<nat, Request>, owner: map<nat, nat>, h: nat)
    requires h in reqs
  {
    && ThreeOf(h, reqs[h]) && h in owner && owner[h] == h
    && reqs[h].d1 in owner && owner[reqs[h].d1] == h && reqs[h].d2 in owner && owner[reqs[h].d2] == h
  }

  ghost function Chain(h: nat, r: Request): (s: set<nat>) { {h, r.d1, r.d2} }

  ghost predicate ThreeOf(h: nat, r: Request) {
    h < NUM && r.d1 < NUM && r.d2 < NUM && h != r.d1 && r.d1 != r.d2 && r.d2 != h
  }

  /** The chain is formatted for its request, so that the device finds exactly that request in it. */
  ghost predicate Formatted(desc: seq<Desc>, ops: seq<Op>, info: seq<Info>, h: nat, r: Request)
    requires |desc| == |ops| == |info| == NUM && ThreeOf(h, r)
  {
    && desc[h] == Desc(Header(h), false, true, r.d1) && ops[h] == r.op
    && desc[r.d1] == Desc(Data(r.buf), !r.op.write, true, r.d2)
    && desc[r.d2] == Desc(Status(h), true, false, 0)
    && info[h].buf == Some(r.buf)
  }

  /** What the device reads from a chain, following the next links: header, data buffer, status byte. */
  ghost function DeviceReads(desc: seq<Desc>, ops: seq<Op>, h: nat): (r: Option<(Op, nat, nat)>)
    requires |desc| == |ops| == NUM
  {
    if h < NUM && desc[h].addr.Header? && desc[h].addr.op < NUM && desc[h].more && desc[h].next < NUM then
      var d := desc[desc[h].next];
      if d.addr.Data? && d.more && d.next < NUM && desc[d.next].addr.Status? && !desc[d.next].more && desc[d.next].write
        && d.write == !ops[desc[h].addr.op].write
      then Some((ops[desc[h].addr.op], d.addr.buf, desc[d.next].addr.op)) else None
    else None
  }

  /** A formatted chain carries its request to the device, with the status byte of its own head. */
  lemma DeviceSeesRequest(desc: seq<Desc>, ops: seq<Op>, info: seq<Info>, h: nat, r: Request)
    requires |desc| == |ops| == |info| == NUM && ThreeOf(h, r) && Formatted(desc, ops, info, h, r)
    ensures DeviceReads(desc, ops, h) == Some((r.op, r.buf, h))
  {}

  /** Number of free descriptors. */
  function FreeCount(free: seq<bool>): (n: nat) {
    if free == [] then 0 else FreeCount(free[..|free| - 1]) + if free[|free| - 1] then 1 else 0
  }

  /** Free descriptors and in-flight chains account for all NUM of them. */
  lemma {:induction false} Conservation(free: seq<bool>, reqs: map<nat, Request>, owner: map<nat, nat>)
    requires Owned(free, reqs, owner)
    ensures FreeCount(free) + 3 * |reqs| == NUM
    decreases |reqs|
  {
    hide Owned, FreeCount, Chain;
    if reqs == map[] {
      NoneInFlight(free, reqs, owner);
    } else {
      var h :| h in reqs;
      var r := reqs[h];
      Released(free, reqs, owner, h);
      ThreeFreed(free, reqs, owner, h);
      Conservation(free[h := true][r.d1 := true][r.d2 := true], reqs - {h}, owner - Chain(h, r));
      OneFewer(reqs, h);
    }
  }

  lemma NoneInFlight(free: seq<bool>, reqs: map<nat, Request>, owner: map<nat, nat>)
    requires Owned(free, reqs, owner) && reqs == map[]
    ensures FreeCount(free) == NUM
  {
    hide FreeCount;
    assert forall i :: 0 <= i < NUM ==> free[i];
    AllFree(free);
  }

  lemma ThreeFreed(free: seq<bool>, reqs: map<nat, Request>, owner: map<nat, nat>, h: nat)
    requires Owned(free, reqs, owner) && h in reqs
    ensures var r := reqs[h];
      && h < |free| && r.d1 < |free| && r.d2 < |free|
      && FreeCount(free[h := true][r.d1 := true][r.d2 := true]) == FreeCount(free) + 3
  {
    var r := reqs[h];
    assert h < |free| && r.d1 < |free| && r.d2 < |free| && h != r.d1 && h != r.d2 && r.d1 != r.d2 && !free[h] &&
      !free[r.d1] && !free[r.d2] by {
      hide FreeCount;
    }
    hide Owned, FreeCount;
    FreeCountUpdate(free, h);
    FreeCountUpdate(free[h := true], r.d1);
    FreeCountUpdate(free[h := true][r.d1 := true], r.d2);
  }

  lemma OneFewer(reqs: map<nat, Request>, h: nat)
    requires h in reqs
    ensures |reqs| == |reqs - {h}| + 1
  {
    assert reqs.Keys == (reqs - {h}).Keys + {h};
    assert |reqs| == |reqs.Keys| && |reqs - {h}| == |(reqs - {h}).Keys|;
  }

  lemma {:induction false} AllFree(free: seq<bool>)
    requires forall i :: 0 <= i < |free| ==> free[i]
    ensures FreeCount(free) == |free|
  {
    if free != [] { AllFree(free[..|free| - 1]); }
  }

  lemma {:induction false} NoneFree(free: seq<bool>)
    requires forall i :: 0 <= i < |free| ==> !free[i]
    ensures FreeCount(free) == 0
  {
    if free != [] { NoneFree(free[..|free| - 1]); }
  }

  lemma {:induction false} FreeCountUpdate(free: seq<bool>, i: nat)
    requires i < |free| && !free[i]
    ensures FreeCount(free[i := true]) == FreeCount(free) + 1
  {
    var n := |free| - 1;
    if i < n {
      FreeCountUpdate(free[..n], i);
      assert free[i := true][..n] == free[..n][i := true];
    } else {
      assert free[i := true][..n] == free[..n];
    }
  }

  /** Every descriptor of a chain in flight is allocated, to that chain alone. */
  lemma InChain(free: seq<bool>, reqs: map<nat, Request>, owner: map<nat, nat>, h: nat)
    requires Owned(free, reqs, owner) && h in reqs
    ensures var r := reqs[h];
      && ThreeOf(h, r) && !free[h] && !free[r.d1] && !free[r.d2]
      && h in owner && r.d1 in owner && r.d2 in owner && owner[h] == owner[r.d1] == owner[r.d2] == h
  {
    var r := reqs[h];
    assert h in Chain(h, r) && r.d1 in Chain(h, r) && r.d2 in Chain(h, r);
  }

  /** Requests in flight own pairwise disjoint chains of three descriptors. */
  lemma ChainsDisjoint(free: seq<bool>, reqs: map<nat, Request>, owner: map<nat, nat>, g: nat, h: nat)
    requires Owned(free, reqs, owner) && g in reqs && h in reqs && g != h
    ensures Chain(g, reqs[g]) !! Chain(h, reqs[h]) && |Chain(g, reqs[g])| == 3
  {
    hide Owned;
    InChain(free, reqs, owner, g);
    InChain(free, reqs, owner, h);
    var r := reqs[g];
    assert Chain(g, r) == {g} + ({r.d1} + {r.d2});
  }

  /** Three free descriptors become the chain of a new request. */
  lemma Acquired(free: seq<bool>, reqs: map<nat, Request>, owner: map<nat, nat>, h: nat, r: Request)
    requires Owned(free, reqs, owner) && ThreeOf(h, r) && free[h] && free[r.d1] && free[r.d2]
    ensures h !in reqs
    ensures Owned(free[h := false][r.d1 := false][r.d2 := false], reqs[h := r], owner[h := h][r.d1 := h][r.d2 := h])
  {
    var owner', reqs' := owner[h := h][r.d1 := h][r.d2 := h], reqs[h := r];
    assert h !in owner && r.d1 !in owner && r.d2 !in owner;
    forall g | g in reqs ensures g != h && ChainAt(reqs', owner', g) { assert ChainAt(reqs, owner, g); }
    forall i | i in owner' ensures OwnerAt(reqs', owner', i) { if i in owner { assert OwnerAt(reqs, owner, i); } }
  }

  lemma ReleasedChain(reqs: map<nat, Request>, owner: map<nat, nat>, h: nat, g: nat)
    requires h in reqs && g in reqs && g != h && ChainAt(reqs, owner, h) && ChainAt(reqs, owner, g)
    ensures ChainAt(reqs - {h}, owner - Chain(h, reqs[h]), g)
  {}

  lemma ReleasedOwner(reqs: map<nat, Request>, owner: map<nat, nat>, h: nat, i: nat)
    requires h in reqs && i in owner && i !in Chain(h, reqs[h]) && OwnerAt(reqs, owner, i)
    ensures i in owner - Chain(h, reqs[h]) && OwnerAt(reqs - {h}, owner - Chain(h, reqs[h]), i)
  {}

  /** Releasing the chain of one request leaves the others as they were. */
  lemma Released(free: seq<bool>, reqs: map<nat, Request>, owner: map<nat, nat>, h: nat)
    requires Owned(free, reqs, owner) && h in reqs
    ensures var r := reqs[h];
      && !free[h] && !free[r.d1] && !free[r.d2]
      && Owned(free[h := true][r.d1 := true][r.d2 := true], reqs - {h}, owner - Chain(h, r))
  {
    var r := reqs[h];
    var free' := free[h := true][r.d1 := true][r.d2 := true];
    var owner' := owner - Chain(h, r);
    assert ChainAt(reqs, owner, h);
    hide ChainAt, OwnerAt;
    assert forall i :: 0 <= i < NUM ==> (free'[i] <==> i !in owner');
    forall g | g in reqs && g != h ensures ChainAt(reqs - {h}, owner', g) { ReleasedChain(reqs, owner, h, g); }
    forall i | i in owner' ensures OwnerAt(reqs - {h}, owner', i) { ReleasedOwner(reqs, owner, h, i); }
  }

  // ---------------------------------------------------------------- the two rings, as values

  /** Entries lo..hi of a ring are exactly the requests in the ring's phase, each at its recorded position. */
  ghost predicate AvailRing(ring: seq<nat>, phase: map<nat, Phase>, lo: nat, hi: nat) {
    && |ring| == NUM && lo <= hi <= lo + NUM
    && (forall n :: lo <= n < hi ==> ring[Slot(n, NUM)] in phase && phase[ring[Slot(n, NUM)]] == Waiting(n))
    && (forall h :: h in phase && phase[h].Waiting? ==> lo <= phase[h].at < hi && ring[Slot(phase[h].at, NUM)] == h)
  }

  ghost predicate UsedRing(ring: seq<nat>, phase: map<nat, Phase>, lo: nat, hi: nat) {
    && |ring| == NUM && lo <= hi <= lo + NUM
    && (forall n :: lo <= n < hi ==> ring[Slot(n, NUM)] in phase && phase[ring[Slot(n, NUM)]] == Used(n))
    && (forall h :: h in phase && phase[h].Used? ==> lo <= phase[h].at < hi && ring[Slot(phase[h].at, NUM)] == h)
  }

  /** A head that is not in the ring leaves room for itself. */
  lemma RingRoom(ring: seq<nat>, lo: nat, hi: nat, h: nat)
    requires |ring| == NUM && lo <= hi && h < NUM
    requires forall n :: lo <= n < hi ==> ring[Slot(n, NUM)] < NUM && ring[Slot(n, NUM)] != h
    requires forall m, n :: lo <= m < n < hi ==> ring[Slot(m, NUM)] != ring[Slot(n, NUM)]
    ensures hi - lo < NUM
  {
    var s := seq(hi - lo, k requires 0 <= k < hi - lo => ring[Slot(lo + k, NUM)]) + [h];
    forall i, j | 0 <= i < j < |s| ensures s[i] != s[j] {
      if j < hi - lo { assert s[i] == ring[Slot(lo + i, NUM)] && s[j] == ring[Slot(lo + j, NUM)]; }
    }
    forall i | 0 <= i < |s| ensures s[i] < NUM { if i < hi - lo { assert s[i] == ring[Slot(lo + i, NUM)]; } }
    Pigeonhole(s, NUM);
  }

  lemma Publish(ring: seq<nat>, phase: map<nat, Phase>, lo: nat, hi: nat, h: nat)
    requires AvailRing(ring, phase, lo, hi) && h !in phase && h < NUM && forall g :: g in phase ==> g < NUM
    ensures hi - lo < NUM && AvailRing(ring[Slot(hi, NUM) := h], phase[h := Waiting(hi)], lo, hi + 1)
  {
    RingRoom(ring, lo, hi, h);
    forall n | lo <= n < hi ensures Slot(n, NUM) != Slot(hi, NUM) { SlotsDiffer(n, hi, NUM); }
  }

  lemma Complete(ring: seq<nat>, phase: map<nat, Phase>, lo: nat, hi: nat, h: nat)
    requires UsedRing(ring, phase, lo, hi) && h in phase && phase[h].Fetched? && forall g :: g in phase ==> g < NUM
    ensures hi - lo < NUM && UsedRing(ring[Slot(hi, NUM) := h], phase[h := Used(hi)], lo, hi + 1)
  {
    RingRoom(ring, lo, hi, h);
    forall n | lo <= n < hi ensures Slot(n, NUM) != Slot(hi, NUM) { SlotsDiffer(n, hi, NUM); }
  }

  // ---------------------------------------------------------------- the whole queue

  datatype Queue = Queue(free: seq<bool>, desc: seq<Desc>, ops: seq<Op>, info: seq<Info>, avail: seq<nat>,
    used: seq<nat>,
                         busy: set<nat>, reqs: map<nat, Request>, owner: map<nat, nat>, phase: map<nat, Phase>,
                         fetched: nat, published: nat, seen: nat, completed: nat)

  ghost predicate AllFormatted(q: Queue) {
    && |q.desc| == |q.ops| == |q.info| == NUM
    && forall h :: h in q.reqs ==> ThreeOf(h, q.reqs[h]) && Formatted(q.desc, q.ops, q.info, h, q.reqs[h])
  }

  /** Distinct buffers; a buffer is busy until the driver sees its completion. */
  ghost predicate Tracked(q: Queue) {
    && q.phase.Keys == q.reqs.Keys && |q.info| == NUM
    && (forall h :: h in q.reqs ==> h < NUM && (q.reqs[h].buf in q.busy <==> !q.phase[h].Done?))
    && (forall g, h :: g in q.reqs && h in q.reqs && g != h ==> q.reqs[g].buf != q.reqs[h].buf)
  }

  /** In-flight chains are disjoint and formatted, and both rings hold exactly the requests in their phase. */
  ghost predicate Ok(q: Queue) {
    && Owned(q.free, q.reqs, q.owner) && AllFormatted(q) && Tracked(q)
    && AvailRing(q.avail, q.phase, q.fetched, q.published) && UsedRing(q.used, q.phase, q.seen, q.completed)
  }

  /** Descriptors, ops and info may change where they are free. */
  ghost predicate SameInFlight(q: Queue, desc: seq<Desc>, ops: seq<Op>, info: seq<Info>) {
    && |q.free| == |q.desc| == |q.ops| == |q.info| == |desc| == |ops| == |info| == NUM
    && forall i :: 0 <= i < NUM && !q.free[i] ==> desc[i] == q.desc[i] && ops[i] == q.ops[i] && info[i] == q.info[i]
  }

  lemma SameChain(q: Queue, desc: seq<Desc>, ops: seq<Op>, info: seq<Info>, h: nat)
    requires Owned(q.free, q.reqs, q.owner) && AllFormatted(q) && SameInFlight(q, desc, ops, info) && h in q.reqs
    ensures ThreeOf(h, q.reqs[h]) && Formatted(desc, ops, info, h, q.reqs[h]) && info[h] == q.info[h]
  {
    hide Owned;
    InChain(q.free, q.reqs, q.owner, h);
  }

  lemma FreePartIrrelevant(q: Queue, desc: seq<Desc>, ops: seq<Op>, info: seq<Info>)
    requires Ok(q) && SameInFlight(q, desc, ops, info)
    ensures Ok(q.(desc := desc, ops := ops, info := info))
  {
    hide AvailRing, UsedRing, Owned, Formatted;
    forall h | h in q.reqs
      ensures ThreeOf(h, q.reqs[h]) && Formatted(desc, ops, info, h, q.reqs[h]) && info[h] == q.info[h] {
      SameChain(q, desc, ops, info, h);
    }
  }

  /** The queue after a new request on the chain h, r.d1, r.d2 is formatted and published. */
  ghost function Submitted(q: Queue, h: nat, r: Request): (q': Queue)
    requires |q.free| == |q.desc| == |q.ops| == |q.info| == |q.avail| == NUM && ThreeOf(h, r)
  {
    q.(free := q.free[h := false][r.d1 := false][r.d2 := false],
       desc := q.desc[h := Desc(Header(h), false, true, r.d1)][r.d1 := Desc(Data(r.buf), !r.op.write, true, r.d2)]
                     [r.d2 := Desc(Status(h), true, false, 0)],
       ops := q.ops[h := r.op], info := q.info[h := Info(Some(r.buf), 0xff)],
         avail := q.avail[Slot(q.published, NUM) := h],
       busy := q.busy + {r.buf}, reqs := q.reqs[h := r], owner := q.owner[h := h][r.d1 := h][r.d2 := h],
       phase := q.phase[h := Waiting(q.published)], published := q.published + 1)
  }

  lemma Lengths(q: Queue)
    requires Ok(q)
    ensures |q.free| == |q.desc| == |q.ops| == |q.info| == |q.avail| == |q.used| == NUM
    ensures forall h :: h in q.phase ==> h < NUM
  {}

  lemma SubmitFormatted(q: Queue, h: nat, r: Request)
    requires |q.free| == NUM && Owned(q.free, q.reqs, q.owner) && AllFormatted(q) && |q.avail| == NUM
    requires ThreeOf(h, r) && q.free[h] && q.free[r.d1] && q.free[r.d2]
    ensures AllFormatted(Submitted(q, h, r))
  {
    hide Owned;
    var q' := Submitted(q, h, r);
    forall g | g in q'.reqs ensures ThreeOf(g, q'.reqs[g]) && Formatted(q'.desc, q'.ops, q'.info, g, q'.reqs[g]) {
      if g != h { InChain(q.free, q.reqs, q.owner, g); }
    }
  }

  lemma SubmitTracked(q: Queue, h: nat, r: Request)
    requires Tracked(q) && |q.free| == |q.desc| == |q.ops| == |q.info| == |q.avail| == NUM && ThreeOf(h, r) &&
      h !in q.reqs
    requires forall g :: g in q.reqs ==> q.reqs[g].buf != r.buf
    ensures Tracked(Submitted(q, h, r))
  {
    assert Submitted(q, h, r).phase.Keys == Submitted(q, h, r).reqs.Keys;
  }

  lemma SubmitOk(q: Queue, h: nat, r: Request)
    requires Ok(q) && ThreeOf(h, r) && q.free[h] && q.free[r.d1] && q.free[r.d2]
    requires forall g :: g in q.reqs ==> q.reqs[g].buf != r.buf
    ensures |q.ops| == |q.info| == |q.desc| == |q.avail| == NUM && h !in q.reqs && Ok(Submitted(q, h, r))
  {
    Lengths(q);
    hide AvailRing, UsedRing, Owned, AllFormatted;
    Acquired(q.free, q.reqs, q.owner, h, r);
    Publish(q.avail, q.phase, q.fetched, q.published, h);
    UsedFrame(q.used, q.phase, q.seen, q.completed, h, Waiting(q.published));
    SubmitFormatted(q, h, r);
    SubmitTracked(q, h, r);
    hide Tracked;
  }

  lemma UsedFrame(ring: seq<nat>, phase: map<nat, Phase>, lo: nat, hi: nat, h: nat, p: Phase)
    requires UsedRing(ring, phase, lo, hi) && (h in phase ==> !phase[h].Used?) && !p.Used?
    ensures UsedRing(ring, phase[h := p], lo, hi)
  {}

  lemma AvailFrame(ring: seq<nat>, phase: map<nat, Phase>, lo: nat, hi: nat, h: nat, p: Phase)
    requires AvailRing(ring, phase, lo, hi) && (h in phase ==> !phase[h].Waiting?) && !p.Waiting?
    ensures AvailRing(ring, phase[h := p], lo, hi)
  {}

  /** The device takes the oldest published request. */
  ghost function FetchedOne(q: Queue, h: nat): (q': Queue) {
    q.(phase := q.phase[h := Fetched], fetched := q.fetched + 1)
  }

  lemma FetchRing(ring: seq<nat>, phase: map<nat, Phase>, lo: nat, hi: nat)
    requires AvailRing(ring, phase, lo, hi) && lo < hi
    ensures var h := ring[Slot(lo, NUM)];
      h in phase && phase[h] == Waiting(lo) && AvailRing(ring, phase[h := Fetched], lo + 1, hi)
  {}

  lemma FetchOk(q: Queue)
    requires Ok(q) && q.fetched < q.published
    ensures |q.avail| == |q.desc| == |q.ops| == NUM
    ensures var h := q.avail[Slot(q.fetched, NUM)];
      h in q.reqs && q.phase[h] == Waiting(q.fetched) && Ok(FetchedOne(q, h))
      && DeviceReads(q.desc, q.ops, h) == Some((q.reqs[h].op, q.reqs[h].buf, h))
  {
    Lengths(q);
    hide AvailRing, UsedRing, Owned, DeviceReads, AllFormatted;
    var h := q.avail[Slot(q.fetched, NUM)];
    FetchRing(q.avail, q.phase, q.fetched, q.published);
    FetchReads(q, h);
    UsedFrame(q.used, q.phase, q.seen, q.completed, h, Fetched);
    FetchTracked(q, h);
  }

  lemma FetchReads(q: Queue, h: nat)
    requires AllFormatted(q) && h in q.reqs
    ensures DeviceReads(q.desc, q.ops, h) == Some((q.reqs[h].op, q.reqs[h].buf, h)) && AllFormatted(FetchedOne(q, h))
  {
    DeviceSeesRequest(q.desc, q.ops, q.info, h, q.reqs[h]);
  }

  lemma FetchTracked(q: Queue, h: nat)
    requires Tracked(q) && h in q.reqs && q.phase[h].Waiting?
    ensures Tracked(FetchedOne(q, h))
  {
    assert FetchedOne(q, h).phase.Keys == q.reqs.Keys;
  }

  /** The device finishes a request it has taken, in any order, and reports its head and a status. */
  ghost function CompletedOne(q: Queue, h: nat, status: nat): (q': Queue)
    requires |q.info| == |q.used| == NUM && h < NUM
  {
    q.(info := q.info[h := q.info[h].(status := status)], used := q.used[Slot(q.completed, NUM) := h],
       phase := q.phase[h := Used(q.completed)], completed := q.completed + 1)
  }

  lemma CompleteFormatted(q: Queue, h: nat, status: nat)
    requires AllFormatted(q) && |q.used| == NUM && h < NUM
    ensures AllFormatted(CompletedOne(q, h, status))
  {}

  lemma CompleteOk(q: Queue, h: nat, status: nat)
    requires Ok(q) && h in q.reqs && q.phase[h].Fetched?
    ensures h < NUM && |q.info| == |q.used| == NUM && Ok(CompletedOne(q, h, status))
  {
    Lengths(q);
    hide AvailRing, UsedRing, Owned, AllFormatted;
    Complete(q.used, q.phase, q.seen, q.completed, h);
    AvailFrame(q.avail, q.phase, q.fetched, q.published, h, Used(q.completed));
    CompleteFormatted(q, h, status);
    CompleteTracked(q, h, status);
  }

  lemma CompleteTracked(q: Queue, h: nat, status: nat)
    requires Tracked(q) && |q.used| == NUM && h in q.reqs && q.phase[h].Fetched?
    ensures Tracked(CompletedOne(q, h, status))
  {
    assert CompletedOne(q, h, status).phase.Keys == q.reqs.Keys;
  }

  /** The interrupt handler notices one used entry and clears its buffer's flag. */
  ghost function SeenOne(q: Queue, h: nat): (q': Queue)
    requires h in q.reqs
  {
    q.(busy := q.busy - {q.reqs[h].buf}, phase := q.phase[h := Done], seen := q.seen + 1)
  }

  lemma SeeRing(ring: seq<nat>, phase: map<nat, Phase>, lo: nat, hi: nat)
    requires UsedRing(ring, phase, lo, hi) && lo < hi
    ensures var h := ring[Slot(lo, NUM)];
      h in phase && phase[h] == Used(lo) && UsedRing(ring, phase[h := Done], lo + 1, hi)
  {}

  lemma SeeTracked(q: Queue, h: nat)
    requires Tracked(q) && h in q.reqs
    ensures Tracked(SeenOne(q, h))
  {
    assert SeenOne(q, h).phase.Keys == q.reqs.Keys;
  }

  lemma SeeOk(q: Queue)
    requires Ok(q) && q.seen < q.completed
    ensures |q.used| == |q.info| == NUM
    ensures var h := q.used[Slot(q.seen, NUM)];
      && h in q.reqs && h in q.phase && h < NUM && q.phase[h] == Used(q.seen) && q.info[h].buf == Some(q.reqs[h].buf)
      && Ok(SeenOne(q, h))
  {
    hide AvailRing, UsedRing, Owned, AllFormatted, Tracked;
    Lengths(q);
    var h := q.used[Slot(q.seen, NUM)];
    SeeRing(q.used, q.phase, q.seen, q.completed);
    AvailFrame(q.avail, q.phase, q.fetched, q.published, h, Done);
    SeeFormatted(q, h);
    SeeTracked(q, h);
  }

  lemma SeeFormatted(q: Queue, h: nat)
    requires Tracked(q) && AllFormatted(q) && h in q.phase && q.phase[h].Used? && |q.info| == NUM && h < NUM
    ensures h in q.reqs && q.info[h].buf == Some(q.reqs[h].buf) && AllFormatted(SeenOne(q, h))
  {}

  /** The waiting process clears info and frees the chain. */
  ghost function Finished(q: Queue, h: nat): (q': Queue)
    requires |q.free| == |q.desc| == |q.info| == NUM && h in q.reqs && ThreeOf(h, q.reqs[h])
  {
    var r := q.reqs[h];
    var blank := Desc(Null, false, false, 0);
    q.(free := q.free[h := true][r.d1 := true][r.d2 := true],
       desc := q.desc[h := blank][r.d1 := blank][r.d2 := blank], info := q.info[h := q.info[h].(buf := None)],
       reqs := q.reqs - {h}, owner := q.owner - Chain(h, r), phase := q.phase - {h})
  }

  lemma FinishFormatted(q: Queue, h: nat)
    requires |q.free| == NUM && Owned(q.free, q.reqs, q.owner) && AllFormatted(q) && h in q.reqs
    ensures ThreeOf(h, q.reqs[h]) && AllFormatted(Finished(q, h))
  {
    hide Owned;
    InChain(q.free, q.reqs, q.owner, h);
    var q' := Finished(q, h);
    forall g | g in q'.reqs ensures ThreeOf(g, q.reqs[g]) && Formatted(q'.desc, q'.ops, q'.info, g, q.reqs[g]) {
      InChain(q.free, q.reqs, q.owner, g);
    }
  }

  lemma DropDone(q: Queue, h: nat)
    requires h in q.phase && q.phase[h].Done?
    ensures AvailRing(q.avail, q.phase, q.fetched, q.published) ==>
      AvailRing(q.avail, q.phase - {h}, q.fetched, q.published)
    ensures UsedRing(q.used, q.phase, q.seen, q.completed) ==> UsedRing(q.used, q.phase - {h}, q.seen, q.completed)
  {}

  lemma FinishOk(q: Queue, h: nat)
    requires Ok(q) && h in q.reqs && q.phase[h].Done?
    ensures |q.free| == |q.desc| == |q.info| == NUM && ThreeOf(h, q.reqs[h]) && Ok(Finished(q, h))
  {
    Lengths(q);
    hide Owned, AvailRing, UsedRing, AllFormatted;
    Released(q.free, q.reqs, q.owner, h);
    FinishFormatted(q, h);
    DropDone(q, h);
    FinishTracked(q, h);
  }

  lemma FinishTracked(q: Queue, h: nat)
    requires Tracked(q) && |q.free| == |q.desc| == |q.info| == NUM && h in q.reqs && ThreeOf(h, q.reqs[h])
    ensures Tracked(Finished(q, h))
  {
    assert (q.phase - {h}).Keys == (q.reqs - {h}).Keys;
  }
}
