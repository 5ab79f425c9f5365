/** The driver's critical sections and the device's steps over module Virtio's queue. */
module VirtioDisk {
  import opened Wrap
  import opened Virtio

  const BLANK := Desc(Null, false, false, 0)

  class Disk {
    var free: seq<bool>
    var desc: seq<Desc>
    var ops: seq<Op>
    var info: seq<Info>
    var avail: seq<nat>
    var availIdx: nat      // 16-bit, written by the driver
    var used: seq<nat>
    var usedIdx: nat       // 16-bit, written by the device
    var seenIdx: nat       // 16-bit disk.used_idx
    var fetchIdx: nat      // 16-bit, the device's own place in the avail ring
    var busy: set<nat>     // buffers with b->disk == 1
    var taken: set<nat>    // heads the device has fetched and not completed

    ghost var reqs: map<nat, Request>
    ghost var owner: map<nat, nat>
    ghost var phase: map<nat, Phase>
    ghost var fetched: nat
    ghost var published: nat
    ghost var seen: nat
    ghost var completed: nat

    ghost function View(): (q: Queue)
      reads this
    {
      Queue(free, desc, ops, info, avail, used, busy, reqs, owner, phase, fetched, published, seen, completed)
    }

    ghost predicate Valid()
      reads this
    {
      Ok(View()) && Taken(taken, phase) && availIdx == U16(published) && usedIdx == U16(completed) &&
        seenIdx == U16(seen) && fetchIdx == U16(fetched)
    }

    /** virtio_disk_init: all descriptors free, nothing in flight. */
    constructor ()
      ensures Valid() && reqs == map[] && forall i :: 0 <= i < NUM ==> free[i]
    {
      free, desc := seq(NUM, i => true), seq(NUM, i => BLANK);
      ops, info := seq(NUM, i => Op(false, 0)), seq(NUM, i => Info(None, 0));
      avail, used := seq(NUM, i => 0), seq(NUM, i => 0);
      availIdx, usedIdx, seenIdx, fetchIdx, busy, taken := 0, 0, 0, 0, {}, {};
      reqs, owner, phase, fetched, published, seen, completed := map[], map[], map[], 0, 0, 0, 0;
    }

    /** alloc_desc: the lowest free descriptor, or -1. */
    method AllocDesc() returns (i: int)
      requires |free| == NUM
      modifies this`free
      ensures i == -1 ==> free == old(free) && forall k :: 0 <= k < NUM ==> !free[k]
      ensures i != -1 ==> 0 <= i < NUM && old(free[i]) && free == old(free)[i := false]
    {
      for k := 0 to NUM
        invariant free == old(free) && forall j :: 0 <= j < k ==> !free[j]
      {
        if free[k] {
          free := free[k := false];
          return k;
        }
      }
      i := -1;
    }

    /** free_desc; its two panics are the preconditions. */
    method FreeDesc(i: nat)
      requires |free| == |desc| == NUM && i < NUM && !free[i]
      modifies this`free, this`desc
      ensures free == old(free)[i := true] && desc == old(desc)[i := BLANK]
    {
      desc := desc[i := BLANK];
      free := free[i := true];
    }

    /** The rollback loop of alloc3_desc. */
    method Rollback(idx: seq<nat>)
      requires |free| == |desc| == NUM && Distinct(idx) && forall j :: 0 <= j < |idx| ==> idx[j] < NUM && !free[idx[j]]
      modifies this`free, this`desc
      ensures |free| == |desc| == NUM
      ensures forall d :: 0 <= d < NUM ==> free[d] == (old(free[d]) || d in idx)
      ensures forall d :: 0 <= d < NUM && d !in idx ==> desc[d] == old(desc[d])
    {
      for j := 0 to |idx|
        invariant |free| == |desc| == NUM
        invariant forall d :: 0 <= d < NUM ==> free[d] == (old(free[d]) || d in idx[..j])
        invariant forall d :: 0 <= d < NUM && d !in idx ==> desc[d] == old(desc[d])
      {
        assert idx[..j + 1] == idx[..j] + [idx[j]];
        FreeDesc(idx[j]);
      }
      assert idx[..|idx|] == idx;
    }

    /** alloc3_desc: three distinct descriptors that were free, or nothing and no descriptor lost. */
    method Alloc3() returns (r: Option<(nat, nat, nat)>)
      requires |free| == |desc| == NUM
      modifies this`free, this`desc
      ensures |free| == |desc| == NUM
      ensures r.None? <==> FreeCount(old(free)) < 3
      ensures r.None? ==> free == old(free)
      ensures r.Some? ==> var (a, b, c) := r.value;
        && a < NUM && b < NUM && c < NUM && a != b && b != c && c != a && old(free[a] && free[b] && free[c])
        && free == old(free)[a := false][b := false][c := false]
      ensures forall i :: 0 <= i < NUM && !old(free[i]) ==> desc[i] == old(desc[i])
    {
      hide FreeCount;
      var idx: seq<nat> := [];
      for i := 0 to 3
        invariant |idx| == i && desc == old(desc) && |free| == NUM && Distinct(idx)
        invariant forall j :: 0 <= j < i ==> idx[j] < NUM && old(free[idx[j]])
        invariant forall d :: 0 <= d < NUM ==> free[d] == (old(free[d]) && d !in idx)
        invariant FreeCount(free) + i == FreeCount(old(free))
      {
        ghost var was := free;
        var d := AllocDesc();
        if d < 0 {
          NoneFree(free);
          Rollback(idx);
          return None;
        }
        FreeCountUpdate(free, d);
        assert free[d := true] == was;
        idx := idx + [d];
      }
      assert idx == [idx[0], idx[1], idx[2]];
      r := Some((idx[0], idx[1], idx[2]));
    }

    /** free_chain: terminates after the three descriptors of a formatted chain and frees exactly those. */
    method FreeChain(h: nat, ghost r: Request)
      requires |free| == |desc| == |ops| == |info| == NUM && ThreeOf(h, r) && !free[h] && !free[r.d1] && !free[r.d2]
      requires desc[h].more && desc[h].next == r.d1 && desc[r.d1].more && desc[r.d1].next == r.d2 && !desc[r.d2].more
      modifies this`free, this`desc
      ensures free == old(free)[h := true][r.d1 := true][r.d2 := true]
      ensures desc == old(desc)[h := BLANK][r.d1 := BLANK][r.d2 := BLANK]
    {
      var i := h;
      ghost var k := 0;
      while true
        invariant 0 <= k < 3 && i == (if k == 0 then h else if k == 1 then r.d1 else r.d2)
        invariant free ==
          if k == 0 then old(free) else if k == 1 then old(free)[h := true] else old(free)[h := true][r.d1 := true]
        invariant desc ==
          if k == 0 then old(desc) else if k == 1 then old(desc)[h := BLANK] else old(desc)[h := BLANK][r.d1 := BLANK]
        decreases 3 - k
      {
        var flag, nxt := desc[i].more, desc[i].next;
        FreeDesc(i);
        if !flag { break; }
        i, k := nxt, k + 1;
      }
    }

    /** virtio_disk_rw up to its wait: allocates a chain, formats it, and publishes its head. With two requests in
        flight descriptors are short, and it changes nothing the device or another request can see. */
    method Submit(b: nat, blockno: nat, write: bool) returns (head: Option<nat>, ghost r: Request)
      requires Valid() && forall h :: h in reqs ==> reqs[h].buf != b
      modifies this
      ensures Valid()
      ensures head.None? <==> |old(reqs)| == 2
      ensures head.None? ==> View() == old(View()).(desc := desc)
      ensures head.Some? ==> head.value !in old(reqs) && reqs == old(reqs)[head.value := r]
      ensures head.Some? ==> r.buf == b && r.op.write == write && r.op.sector * 512 == blockno * 1024
      ensures head.Some? ==> head.value < |info| && info[head.value] == Info(Some(b), 0xff)
      ensures head.Some? ==>
        phase == old(phase)[head.value := Waiting(old(published))] && published == old(published) + 1
      ensures head.Some? ==>
        busy == old(busy) + {b} && fetched == old(fetched) && seen == old(seen) && completed == old(completed)
    {
      hide Ok, U16, Slot, FreeCount;
      var op := Op(write, blockno * (1024 / 512));
      ghost var q := View();
      Lengths(q);
      Room(q);
      var idx := Alloc3();
      ghost var q1 := q.(desc := desc);
      FreePartIrrelevant(q, desc, ops, info);
      if idx.None? {
        assert View() == q1;
        return None, Request(b, op, 0, 0);
      }
      var (h, d1, d2) := idx.value;
      r := Request(b, op, d1, d2);
      PublishChain(Request(b, op, d1, d2), h, q1);
      head := Some(h);
    }

    /** With the chain of q1's free descriptors taken: format it and publish its head. */
    method PublishChain(r: Request, h: nat, ghost q1: Queue)
      requires Ok(q1) && ThreeOf(h, r) && |q1.free| == NUM && q1.free[h] && q1.free[r.d1] && q1.free[r.d2]
      requires forall g :: g in q1.reqs ==> q1.reqs[g].buf != r.buf
      requires View() == q1.(free := q1.free[h := false][r.d1 := false][r.d2 := false])
      requires availIdx == U16(published) && usedIdx == U16(completed) && seenIdx == U16(seen) &&
        fetchIdx == U16(fetched) && Taken(taken, phase)
      modifies this
      ensures Valid() && h !in q1.reqs && reqs == q1.reqs[h := r] && phase == q1.phase[h := Waiting(q1.published)]
      ensures published == q1.published + 1 && fetched == q1.fetched && seen == q1.seen && completed == q1.completed
      ensures busy == q1.busy + {r.buf} && h < |info| && info[h] == Info(Some(r.buf), 0xff)
    {
      hide Ok, U16, Slot, Taken;
      SubmitOk(q1, h, r);
      KeysAt(q1);
      TakenNot(taken, phase, h, Waiting(published));
      Format(r.buf, r.op, h, r.d1, r.d2);
      assert View() == Submitted(q1, h, r);
    }

    /** Formatting the three descriptors and publishing the head. */
    method Format(b: nat, op: Op, h: nat, d1: nat, d2: nat)
      requires |desc| == |ops| == |info| == |avail| == NUM && ThreeOf(h, Request(b, op, d1, d2)) &&
        availIdx == U16(published)
      modifies this`desc, this`ops, this`info, this`busy, this`avail, this`availIdx, this`reqs, this`owner, this`phase,
        this`published
      ensures desc == old(desc)[h := Desc(Header(h), false, true, d1)][d1 := Desc(Data(b), !op.write, true, d2)]
                               [d2 := Desc(Status(h), true, false, 0)]
      ensures ops == old(ops)[h := op] && info == old(info)[h := Info(Some(b), 0xff)] && busy == old(busy) + {b}
      ensures avail == old(avail)[Slot(old(published), NUM) := h] && availIdx == U16(published)
      ensures reqs == old(reqs)[h := Request(b, op, d1, d2)] && owner == old(owner)[h := h][d1 := h][d2 := h]
      ensures phase == old(phase)[h := Waiting(old(published))] && published == old(published) + 1
    {
      hide U16, Slot;
      FillChain(b, op, h, d1, d2);
      var slot := Index8(availIdx, published);
      avail := avail[slot := h];
      availIdx := Inc16(availIdx, published);
      reqs, owner := reqs[h := Request(b, op, d1, d2)], owner[h := h][d1 := h][d2 := h];
      phase, published := phase[h := Waiting(published)], published + 1;
    }

    method FillChain(b: nat, op: Op, h: nat, d1: nat, d2: nat)
      requires |desc| == |ops| == |info| == NUM && ThreeOf(h, Request(b, op, d1, d2))
      modifies this`desc, this`ops, this`info, this`busy
      ensures desc == old(desc)[h := Desc(Header(h), false, true, d1)][d1 := Desc(Data(b), !op.write, true, d2)]
                               [d2 := Desc(Status(h), true, false, 0)]
      ensures ops == old(ops)[h := op] && info == old(info)[h := Info(Some(b), 0xff)] && busy == old(busy) + {b}
    {
      ops := ops[h := op];
      desc := desc[h := Desc(Header(h), false, true, d1)];
      desc := desc[d1 := Desc(Data(b), !op.write, true, d2)];
      info := info[h := info[h].(status := 0xff)];
      desc := desc[d2 := Desc(Status(h), true, false, 0)];
      busy := busy + {b};
      info := info[h := info[h].(buf := Some(b))];
      assert info == old(info)[h := Info(Some(b), 0xff)];
    }

    /** The device takes the next published request and finds in its chain exactly what was submitted. */
    method DeviceFetch() returns (h: nat)
      requires Valid() && fetched < published
      modifies this`phase, this`fetched, this`fetchIdx, this`taken
      ensures Valid() && h in reqs && old(phase[h]) == Waiting(old(fetched)) && phase == old(phase)[h := Fetched]
      ensures |desc| == |ops| == NUM && DeviceReads(desc, ops, h) == Some((reqs[h].op, reqs[h].buf, h))
    {
      hide Ok, U16, Slot, DeviceReads;
      ghost var q := View();
      FetchOk(q);
      var slot := Index8(fetchIdx, fetched);
      h := avail[slot];
      fetchIdx := Inc16(fetchIdx, fetched);
      phase, fetched, taken := phase[h := Fetched], fetched + 1, taken + {h};
      assert View() == FetchedOne(q, h);
    }

    /** The device finishes any request it has taken, with any status. */
    method DeviceComplete(h: nat, status: nat)
      requires Valid() && h in taken
      modifies this`info, this`used, this`usedIdx, this`phase, this`completed, this`taken
      ensures Valid() && h in old(phase) && old(phase[h]).Fetched? && phase == old(phase)[h := Used(old(completed))]
      ensures h < |old(info)| && info == old(info)[h := old(info)[h].(status := status)]
    {
      hide Ok, U16, Slot, Taken;
      ghost var q := View();
      KeysAt(q);
      TakenAt(taken, phase, h, Used(completed));
      CompleteOk(q, h, status);
      Report(h, status);
      assert View() == CompletedOne(q, h, status);
    }

    method Report(h: nat, status: nat)
      requires |info| == |used| == NUM && h < NUM && usedIdx == U16(completed)
      modifies this`info, this`used, this`usedIdx, this`phase, this`completed, this`taken
      ensures info == old(info)[h := old(info)[h].(status := status)] &&
        used == old(used)[Slot(old(completed), NUM) := h]
      ensures usedIdx == U16(completed) && completed == old(completed) + 1
      ensures phase == old(phase)[h := Used(old(completed))] && taken == old(taken) - {h}
    {
      hide U16, Slot;
      info := info[h := info[h].(status := status)];
      var slot := Index8(usedIdx, completed);
      used := used[slot := h];
      usedIdx := Inc16(usedIdx, completed);
      phase, completed, taken := phase[h := Used(completed)], completed + 1, taken - {h};
    }

    /** Completions that the device adds while the interrupt handler is at work. */
    method DeviceRaces(late: seq<(nat, nat)>, ghost q: Queue)
      requires Valid() && reqs == q.reqs && phase.Keys == q.phase.Keys == reqs.Keys && |info| == NUM &&
        Handled(q, View())
      modifies this`info, this`used, this`usedIdx, this`phase, this`completed, this`taken
      ensures Valid() && phase.Keys == q.phase.Keys && |info| == NUM && Handled(q, View())
      ensures Pending(phase) == Pending(old(phase))
    {
      hide Ok, U16, Slot, Handled, Pending;
      for i := 0 to |late|
        invariant Valid() && phase.Keys == q.phase.Keys == reqs.Keys && |info| == NUM && Handled(q, View()) &&
          Pending(phase) == Pending(old(phase))
      {
        if late[i].0 in taken {
          ghost var v := View();
          DeviceComplete(late[i].0, late[i].1);
          HandledComplete(q, v, View(), late[i].0, late[i].1);
        }
      }
    }

    /** virtio_disk_intr. Before its k-th test of the used index the device may complete the requests late[k], with any
        status. Every used entry completes exactly the buffer that was submitted under its head, until no completion is
        unseen or until one that did not succeed, where the handler panics. */
    method Intr(late: seq<seq<(nat, nat)>>) returns (panic: bool)
      requires Valid()
      modifies this`busy, this`seenIdx, this`phase, this`seen, this`info, this`used, this`usedIdx, this`completed,
        this`taken
      ensures Valid() && phase.Keys == old(phase.Keys) && Handled(old(View()), View())
      ensures !panic ==> seen == completed && forall h :: h in phase ==> !phase[h].Used?
      ensures panic <==> exists h :: h in phase && phase[h] == Used(seen) && h < |info| && info[h].status != 0
    {
      hide Ok, U16, Slot, Handled, Pending;
      ghost var q := View();
      KeysAt(q);
      HandledNone(q);
      var k := 0;
      panic := false;
      while true
        invariant Valid() && phase.Keys == q.phase.Keys == reqs.Keys && |info| == NUM && reqs == q.reqs &&
          Handled(q, View())
        decreases |Pending(phase)|
      {
        if k < |late| { DeviceRaces(late[k], q); }
        k := k + 1;
        UsedBounds(View());
        Same16(seen, completed);
        if seenIdx == usedIdx { break; }
        ghost var v := View();
        var h;
        h, panic := SeeOne();
        if panic { return; }
        HandledSee(q, v, View(), h);
      }
      NoneUsed(View());
    }

    /** One round of the interrupt handler's loop. */
    method SeeOne() returns (h: nat, panic: bool)
      requires Valid() && seen < completed
      modifies this`busy, this`seenIdx, this`phase, this`seen
      ensures Valid() && h in reqs && h in old(phase) && old(phase[h]) == Used(old(seen)) && h < |info| &&
        (panic <==> info[h].status != 0)
      ensures panic ==> View() == old(View())
      ensures !panic ==> phase == old(phase)[h := Done] && busy == old(busy) - {reqs[h].buf} && seen == old(seen) + 1
    {
      hide Ok, U16, Slot;
      ghost var q := View();
      SeeOk(q);
      var slot := Index8(seenIdx, seen);
      h := used[slot];
      panic := info[h].status != 0;
      if panic { return; }
      var b := info[h].buf.value;
      busy := busy - {b};
      seenIdx := Inc16(seenIdx, seen);
      phase, seen := phase[h := Done], seen + 1;
      assert View() == SeenOne(q, h);
    }

    /** The end of virtio_disk_rw, once b->disk is 0: the chain is freed and nothing else changes. */
    method Finish(h: nat)
      requires Valid() && h in reqs && reqs[h].buf !in busy
      modifies this`info, this`free, this`desc, this`reqs, this`owner, this`phase
      ensures Valid() && reqs == old(reqs) - {h} && phase == old(phase) - {h}
    {
      hide Ok, U16, Slot;
      ghost var q, r := View(), reqs[h];
      ChainLinks(q, h);
      FinishOk(q, h);
      info := info[h := info[h].(buf := None)];
      FreeChain(h, r);
      reqs, owner, phase := reqs - {h}, owner - Chain(h, r), phase - {h};
      assert View() == Finished(q, h);
    }
  }

  /** Eight descriptors are enough for two requests and not for three. */
  lemma Room(q: Queue)
    requires Ok(q)
    ensures |q.reqs| <= 2 && (FreeCount(q.free) < 3 <==> |q.reqs| == 2)
  {
    hide FreeCount, Owned;
    Conservation(q.free, q.reqs, q.owner);
  }

  /** What Finish needs to know of a chain whose buffer is no longer busy. */
  lemma ChainLinks(q: Queue, h: nat)
    requires Ok(q) && h in q.reqs && q.reqs[h].buf !in q.busy
    ensures h in q.phase && q.phase[h].Done?
    ensures |q.free| == |q.desc| == |q.ops| == |q.info| == NUM && ThreeOf(h, q.reqs[h])
    ensures var r := q.reqs[h];
      && !q.free[h] && !q.free[r.d1] && !q.free[r.d2]
      && q.desc[h].more && q.desc[h].next == r.d1 && q.desc[r.d1].more && q.desc[r.d1].next == r.d2 &&
        !q.desc[r.d2].more
  {
    InChain(q.free, q.reqs, q.owner, h);
  }

  ghost predicate Taken(taken: set<nat>, phase: map<nat, Phase>) {
    forall h :: h in taken <==> h in phase && phase[h].Fetched?
  }

  lemma TakenAt(taken: set<nat>, phase: map<nat, Phase>, h: nat, p: Phase)
    requires Taken(taken, phase) && h in taken && !p.Fetched?
    ensures h in phase && phase[h].Fetched? && Taken(taken - {h}, phase[h := p])
  {}

  lemma TakenNot(taken: set<nat>, phase: map<nat, Phase>, h: nat, p: Phase)
    requires Taken(taken, phase) && h !in phase && !p.Fetched?
    ensures Taken(taken, phase[h := p])
  {}

  lemma KeysAt(q: Queue)
    requires Ok(q)
    ensures q.phase.Keys == q.reqs.Keys && |q.info| == NUM
  {}

  /** From q to v the handler saw some completions, each of a request the device had or has completed with status 0, and
      cleared exactly their buffers; nothing else moved but by the device. */
  ghost predicate Handled(q: Queue, v: Queue) {
    && q.reqs == v.reqs && q.phase.Keys == v.phase.Keys == q.reqs.Keys && |v.info| == NUM
    && (forall h :: h in q.phase ==>
      Moved(q.phase[h], v.phase[h]) && (v.phase[h].Done? && !q.phase[h].Done? ==> h < NUM && v.info[h].status == 0))
    && v.busy == q.busy - Turned(q, v)
  }

  ghost predicate Moved(a: Phase, b: Phase) { b == a || (a.Fetched? && (b.Used? || b.Done?)) || (a.Used? && b.Done?) }

  ghost function Turned(q: Queue, v: Queue): set<nat>
    requires q.reqs == v.reqs && q.phase.Keys == v.phase.Keys == q.reqs.Keys
  {
    set h | h in q.reqs && v.phase[h].Done? && !q.phase[h].Done? :: q.reqs[h].buf
  }

  ghost function Pending(phase: map<nat, Phase>): set<nat> { set h | h in phase && !phase[h].Done? }

  lemma HandledNone(q: Queue)
    requires q.phase.Keys == q.reqs.Keys && |q.info| == NUM
    ensures Handled(q, q)
  {
    assert Turned(q, q) == {};
  }

  lemma HandledComplete(q: Queue, v: Queue, w: Queue, h: nat, status: nat)
    requires Handled(q, v) && h in v.phase && v.phase[h].Fetched? && h < NUM && w.reqs == v.reqs && w.busy == v.busy
    requires w.phase == v.phase[h := Used(v.completed)] && w.info == v.info[h := v.info[h].(status := status)]
    ensures Handled(q, w) && w.phase.Keys == v.phase.Keys && Pending(w.phase) == Pending(v.phase)
  {
    assert w.phase.Keys == v.phase.Keys;
    assert Turned(q, w) == Turned(q, v) by { hide Handled; }
    hide Turned;
  }

  lemma HandledSee(q: Queue, v: Queue, w: Queue, h: nat)
    requires Handled(q, v) && h in v.phase && v.phase[h].Used? && h < NUM && v.info[h].status == 0 &&
      w.reqs == v.reqs && w.info == v.info
    requires w.phase == v.phase[h := Done] && w.busy == v.busy - {v.reqs[h].buf}
    ensures Handled(q, w) && w.phase.Keys == v.phase.Keys && |Pending(w.phase)| < |Pending(v.phase)|
  {
    assert w.phase.Keys == v.phase.Keys;
    TurnedSee(q, v, w, h);
    PendingSee(v.phase, h);
    hide Turned;
  }

  lemma TurnedSee(q: Queue, v: Queue, w: Queue, h: nat)
    requires q.reqs == v.reqs == w.reqs && q.phase.Keys == v.phase.Keys == w.phase.Keys == q.reqs.Keys
    requires h in v.phase && v.phase[h].Used? && w.phase == v.phase[h := Done] && !q.phase[h].Done?
    ensures Turned(q, w) == Turned(q, v) + {v.reqs[h].buf}
  {}

  lemma PendingSee(phase: map<nat, Phase>, h: nat)
    requires h in phase && phase[h].Used?
    ensures |Pending(phase[h := Done])| < |Pending(phase)|
  {
    assert Pending(phase) == Pending(phase[h := Done]) + {h} && h !in Pending(phase[h := Done]);
  }

  lemma UsedBounds(q: Queue)
    requires Ok(q)
    ensures q.seen <= q.completed <= q.seen + NUM && q.phase.Keys == q.reqs.Keys
  {}

  lemma NoneUsed(q: Queue)
    requires Ok(q) && q.seen == q.completed
    ensures forall h :: h in q.phase ==> !q.phase[h].Used?
  {}
}
