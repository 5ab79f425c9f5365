/** The operations of kernel/bio.c as methods, and what holds over every run of them. */
module BioCache {
  import opened BufferList
  import opened Bio

  // ---------------------------------------------------------------- runs

  ghost predicate Cached(c: Cache, k: Key) { exists b :: b in c.buf && c.buf[b].key == k }

  /** Buffer cycle[j] is unused and every buffer behind it in the list is in use. */
  ghost predicate Victim(c: Cache, j: nat) {
    && 1 <= j < |c.cycle| && c.cycle[j] in c.buf && c.buf[c.cycle[j]].refcnt == 0
    && forall i :: j < i < |c.cycle| && c.cycle[i] in c.buf ==> c.buf[c.cycle[i]].refcnt > 0
  }

  datatype Event =
    | Get(p: nat, key: Key, got: nat, at: nat)
    | Load(p: nat, b: nat)
    | Change(b: nat, data: Block)
    | Write(b: nat)
    | LogIt(b: nat, absorbed: bool)
    | Unpin(b: nat)
    | Unlock(b: nat)
    | Drop(p: nat, b: nat, at: nat)

  /** When an event may happen: what bio.c checks, and what its callers promise. */
  ghost predicate Enabled(c: Cache, e: Event) {
    match e
    case Get(_, k, b, j) =>
      k in c.disk && b in c.buf && b in c.users &&
        (if Cached(c, k) then c.buf[b].key == k else Victim(c, j) && c.cycle[j] == b)
    case Load(p, b) => b in c.buf && b !in c.locked && b in c.users && p in c.users[b] && c.buf[b].key in c.disk
    case Change(b, _) => b in c.buf && b in c.locked
    case Write(b) => b in c.buf && b in c.locked && c.buf[b].valid
    case LogIt(b, absorbed) => b in c.buf && b in c.locked && c.buf[b].valid && b in c.pins &&
      (absorbed ==> c.pins[b] > 0)
    case Unpin(b) =>
      && b in c.buf && b in c.pins && c.pins[b] > 0 && c.buf[b].refcnt > 0
      && c.buf[b].key in c.disk && c.buf[b].key in c.latest && c.disk[c.buf[b].key] == c.latest[c.buf[b].key]
    case Unlock(b) => b in c.buf && b in c.locked &&
      (c.buf[b].valid ==> c.buf[b].key in c.latest && c.buf[b].data == c.latest[c.buf[b].key])
    case Drop(p, b, j) =>
      && b in c.buf && b in c.users && p in c.users[b] && (b in c.locked ==> c.locked[b] != p) && c.buf[b].refcnt > 0
      && (c.buf[b].refcnt == 1 ==> Movable(c, j) && c.cycle[j] == b)
  }

  ghost predicate Movable(c: Cache, j: nat) {
    1 <= j < |c.cycle| && c.cycle[j] in c.next && c.cycle[j] in c.prev && HEAD in UnlinkNext(c.next, c.prev, c.cycle[j])
  }

  ghost function After(c: Cache, e: Event): (r: Cache)
    requires Enabled(c, e)
  {
    match e
    case Get(p, k, b, _) => if Cached(c, k) then Hit(c, b, p) else Recycle(c, b, k, p)
    case Load(p, b) => LockRead(c, b, p)
    case Change(b, data) => Modify(c, b, data)
    case Write(b) => Written(c, b)
    case LogIt(b, absorbed) => Logged(c, b, absorbed)
    case Unpin(b) => Unpinned(c, b)
    case Unlock(b) => Unlocked(c, b)
    case Drop(p, b, j) => if c.buf[b].refcnt == 1 then Fronted(Dropped(c, b, p), j) else Dropped(c, b, p)
  }

  lemma DiskLatest(c: Cache)
    requires Ok(c)
    ensures c.disk.Keys == c.latest.Keys
  {
    hide Listed, Recency, Counted, Unique;
  }

  lemma MissGivesOk(c: Cache, b: nat, k: Key, p: nat)
    requires Ok(c) && b in c.buf && c.buf[b].refcnt == 0 && !Cached(c, k)
    ensures Ok(Recycle(c, b, k, p))
  {
    hide Ok;
    RecycleOk(c, b, k, p);
  }

  lemma GetOk(c: Cache, e: Event)
    requires Ok(c) && Enabled(c, e) && e.Get?
    ensures Ok(After(c, e))
  {
    hide Ok, Cached, Hit, Recycle;
    if Cached(c, e.key) { HitOk(c, e.got, e.p); } else { MissGivesOk(c, e.got, e.key, e.p); }
  }

  lemma HolderOk(c: Cache, e: Event)
    requires Ok(c) && Enabled(c, e) && (e.Load? || e.Change? || e.Write? || e.LogIt?)
    ensures Ok(After(c, e))
  {
    hide Ok, LockRead, Modify, Written, Logged;
    match e {
      case Load(p, b) => LockReadOk(c, b, p);
      case Change(b, data) => ModifyOk(c, b, data);
      case Write(b) => WrittenOk(c, b);
      case LogIt(b, absorbed) => LoggedOk(c, b, absorbed);
    }
  }

  lemma GiveUpOk(c: Cache, e: Event)
    requires Ok(c) && Enabled(c, e) && (e.Unpin? || e.Unlock?)
    ensures Ok(After(c, e))
  {
    hide Ok, Unpinned, Unlocked;
    DiskLatest(c);
    if e.Unpin? { UnpinnedOk(c, e.b); } else { UnlockedOk(c, e.b); }
  }

  /** Every operation keeps the list, the counts, uniqueness and coherence. */
  lemma StepOk(c: Cache, e: Event)
    requires Ok(c) && Enabled(c, e)
    ensures Ok(After(c, e))
  {
    hide Ok, Enabled, After;
    if e.Get? {
      GetOk(c, e);
    } else if e.Drop? {
      DropOk(c, e.p, e.b, e.at);
    } else if e.Unpin? || e.Unlock? {
      GiveUpOk(c, e);
    } else {
      HolderOk(c, e);
    }
  }

  lemma DropOk(c: Cache, p: nat, b: nat, j: nat)
    requires Ok(c) && Enabled(c, Drop(p, b, j))
    ensures Ok(After(c, Drop(p, b, j)))
  {
    hide Ok;
    DroppedOk(c, b, p);
    if c.buf[b].refcnt == 1 { FrontedOk(Dropped(c, b, p), j); }
  }

  /** A buffer that somebody references or pins keeps its block: its key changes only by being recycled. */
  lemma ReferencedKeepsKey(c: Cache, e: Event, b: nat)
    requires Enabled(c, e) && b in c.buf && c.buf[b].refcnt > 0
    ensures b in After(c, e).buf && After(c, e).buf[b].key == c.buf[b].key
  {
    hide Cached, Movable, After;
    if e.Drop? {
      FrontedBuf(c, e.p, e.b, e.at);
    } else if e.Get? {
      GetBuf(c, e);
    } else {
      OthersKeepKeys(c, e, b);
    }
  }

  lemma GetBuf(c: Cache, e: Event)
    requires Enabled(c, e) && e.Get?
    ensures After(c, e).buf == if Cached(c, e.key) then Hit(c, e.got, e.p).buf else Recycle(c, e.got, e.key, e.p).buf
    ensures After(c, e).users ==
      if Cached(c, e.key) then Hit(c, e.got, e.p).users else Recycle(c, e.got, e.key, e.p).users
    ensures !Cached(c, e.key) ==> c.buf[e.got].refcnt == 0
  {
    hide Cached;
  }

  lemma OthersKeepKeys(c: Cache, e: Event, b: nat)
    requires Enabled(c, e) && !e.Get? && !e.Drop? && b in c.buf
    ensures After(c, e).users == c.users && b in After(c, e).buf && After(c, e).buf[b].key == c.buf[b].key
  {}

  lemma FrontedBuf(c: Cache, p: nat, b: nat, j: nat)
    requires Enabled(c, Drop(p, b, j))
    ensures var d := After(c, Drop(p, b, j));
      d.buf == Dropped(c, b, p).buf && d.users == Dropped(c, b, p).users && d.latest == c.latest
  {}

  /** What a block was last logged or written as changes by nothing else. */
  lemma LatestChanges(c: Cache, e: Event, k: Key)
    requires Enabled(c, e) && k in c.latest
    requires !((e.Write? || e.LogIt?) && c.buf[e.b].key == k)
    ensures k in After(c, e).latest && After(c, e).latest[k] == c.latest[k]
  {
    hide Cached, Movable, Fronted, Victim;
    if e.Drop? { FrontedBuf(c, e.p, e.b, e.at); }
  }

  /** Every state a run passes through. */
  ghost predicate IsRun(states: seq<Cache>, events: seq<Event>) {
    && |states| == |events| + 1
    && forall i :: 0 <= i < |events| ==> Enabled(states[i], events[i]) && states[i + 1] == After(states[i], events[i])
  }

  lemma {:induction false} RunOk(states: seq<Cache>, events: seq<Event>, i: nat)
    requires IsRun(states, events) && Ok(states[0]) && i < |states|
    ensures Ok(states[i])
  {
    if i > 0 {
      RunOk(states, events, i - 1);
      hide Ok, Enabled, After;
      StepOk(states[i - 1], events[i - 1]);
    }
  }

  lemma RunAt(states: seq<Cache>, events: seq<Event>, i: nat)
    requires IsRun(states, events) && i < |events|
    ensures Enabled(states[i], events[i]) && states[i + 1] == After(states[i], events[i])
  {
    hide Enabled, After;
  }

  /** A reference stays until the process that holds it drops it. */
  lemma ReferenceStays(c: Cache, e: Event, b: nat, p: nat)
    requires Enabled(c, e) && b in c.buf && b in c.users && p in c.users[b] && c.buf[b].refcnt > 0 &&
      !(e.Drop? && e.b == b && e.p == p)
    ensures b in After(c, e).users && p in After(c, e).users[b]
  {
    hide Cached, Movable, After;
    if e.Drop? {
      FrontedBuf(c, e.p, e.b, e.at);
    } else if e.Get? {
      GetBuf(c, e);
    } else {
      OthersKeepKeys(c, e, b);
    }
  }

  lemma HeldStep(c: Cache, e: Event, b: nat, p: nat)
    requires Ok(c) && Enabled(c, e) && b in c.users && p in c.users[b] && !(e.Drop? && e.b == b && e.p == p)
    ensures var d := After(c, e);
      && b in c.buf && b in d.buf && d.buf[b].key == c.buf[b].key && b in d.users && p in d.users[b]
  {
    hide Ok, Enabled, After;
    Referenced(c, b, p);
    ReferencedKeepsKey(c, e, b);
    ReferenceStays(c, e, b, p);
  }

  lemma Referenced(c: Cache, b: nat, p: nat)
    requires Ok(c) && b in c.users && p in c.users[b]
    ensures b in c.buf && c.buf[b].refcnt > 0
  {
    hide Listed, Recency, Unique, Coherent;
    Member(c.users[b], p);
  }

  /** p does not drop its reference to b between states i and j. */
  ghost predicate Keeps(events: seq<Event>, p: nat, b: nat, i: nat, j: nat) {
    forall m :: i <= m < j && m < |events| ==> !(events[m].Drop? && events[m].b == b && events[m].p == p)
  }

  /** While a process holds its reference the buffer stays the block's, whatever others do. */
  lemma {:induction false} HeldAcross(states: seq<Cache>, events: seq<Event>, p: nat, b: nat, i: nat, j: nat)
    requires IsRun(states, events) && Ok(states[0]) && i <= j < |states| == |events| + 1 && b in states[i].buf &&
      b in states[i].users && p in states[i].users[b]
    requires Keeps(events, p, b, i, j)
    ensures b in states[j].buf && states[j].buf[b].key == states[i].buf[b].key && b in states[j].users &&
      p in states[j].users[b]
    decreases j - i
  {
    hide Ok, Enabled, After, IsRun;
    if i < j {
      HeldAcross(states, events, p, b, i, j - 1);
      RunOk(states, events, j - 1);
      RunAt(states, events, j - 1);
      HeldStep(states[j - 1], events[j - 1], b, p);
    }
  }

  /** bget and bread are two critical sections apart. Between them anybody may act, but as long as the process does not
      itself give the buffer up, bread hands out the block's latest contents. */
  lemma BreadIsLatest(states: seq<Cache>, events: seq<Event>, p: nat, b: nat, i: nat, j: nat)
    requires IsRun(states, events) && Ok(states[0]) && i < j < |events|
    requires events[i].Get? && events[i].p == p && events[i].got == b && events[j] == Load(p, b) &&
      Keeps(events, p, b, i, j)
    ensures events[i].key in states[j].latest && b in states[j + 1].buf
    ensures states[j + 1].buf[b].key == events[i].key && states[j + 1].buf[b].data == states[j].latest[events[i].key]
  {
    GetKey(states[i], p, events[i].key, b, events[i].at);
    RunOk(states, events, j);
    hide Ok, Cached, Victim;
    HeldAcross(states, events, p, b, i + 1, j);
    LockReadOk(states[j], b, p);
  }

  lemma GetKey(c: Cache, p: nat, k: Key, b: nat, j: nat)
    requires Enabled(c, Get(p, k, b, j))
    ensures var d := After(c, Get(p, k, b, j)); b in d.buf && d.buf[b].key == k && b in d.users && p in d.users[b]
  {
    hide Cached, Victim;
    assert After(c, Get(p, k, b, j)) == if Cached(c, k) then Hit(c, b, p) else Recycle(c, b, k, p);
  }

  /** The recycled buffer was released to refcnt 0 before every other unused buffer. */
  lemma VictimIsLeastRecent(c: Cache, j: nat, b: nat)
    requires Ok(c) && Victim(c, j) && b in c.buf && c.buf[b].refcnt == 0 && b != c.cycle[j]
    ensures b in c.stamp && c.cycle[j] in c.stamp && c.stamp[c.cycle[j]] < c.stamp[b]
  {
    assert exists i :: 1 <= i < |c.cycle| && c.cycle[i] == b by { hide WellLinked; }
    hide Listed, Counted, Unique, Coherent;
    var i :| 1 <= i < |c.cycle| && c.cycle[i] == b;
    assert c.stamp[c.cycle[i]] > c.stamp[c.cycle[j]];
  }

  // ---------------------------------------------------------------- the methods

  lemma ListedAt(c: Cache, i: nat)
    requires Listed(c) && i < |c.cycle|
    ensures c.cycle[0] == HEAD && (i > 0 ==> c.cycle[i] in c.buf && c.cycle[i] != HEAD)
    ensures c.cycle[i] in c.next && c.next[c.cycle[i]] == c.cycle[Succ(i, |c.cycle|)]
    ensures c.cycle[i] in c.prev && c.prev[c.cycle[i]] == c.cycle[if i == 0 then |c.cycle| - 1 else i - 1]
  {
    hide Distinct, Linked;
    LinkedAt(c.next, c.prev, c.cycle, i);
    LinkedAt(c.next, c.prev, c.cycle, if i == 0 then |c.cycle| - 1 else i - 1);
    if i > 0 { DistinctAt(c.cycle, 0, i); }
  }

  lemma NotSelfLinked(c: Cache, j: nat)
    requires Listed(c) && 1 <= j < |c.cycle|
    ensures c.cycle[j] in c.next && c.next[c.cycle[j]] != c.cycle[j]
  {
    hide Distinct, Linked;
    LinkedAt(c.next, c.prev, c.cycle, j);
    DistinctAt(c.cycle, j, Succ(j, |c.cycle|));
  }

  lemma UnpinnedFields(c: Cache, b: nat) returns (u: Cache)
    requires b in c.buf && b in c.pins && c.pins[b] > 0 && c.buf[b].refcnt > 0
    ensures u == Unpinned(c, b) && u == c.(pins := u.pins, buf := u.buf, pinnedAt := u.pinnedAt)
    ensures u.buf == c.buf[b := c.buf[b].(refcnt := c.buf[b].refcnt - 1)]
  {
    u := Unpinned(c, b);
  }

  lemma FrontedFields(c: Cache, j: nat)
    requires Movable(c, j)
    ensures var f, b := Fronted(c, j), c.cycle[j];
      && f.next == PushNext(UnlinkNext(c.next, c.prev, b), b)
      && f.prev == PushPrev(UnlinkNext(c.next, c.prev, b), UnlinkPrev(c.next, c.prev, b), b)
      && f == c.(next := f.next, prev := f.prev, cycle := f.cycle, clock := f.clock, stamp := f.stamp)
  {}

  /** None of the first i - 1 buffers of the list caches k. */
  ghost predicate Passed(c: Cache, k: Key, i: nat) {
    i <= |c.cycle| && forall m :: 1 <= m < i && c.cycle[m] in c.buf ==> c.buf[c.cycle[m]].key != k
  }

  /** The first loop of bget stands at position i of the list, buffer b. */
  ghost predicate Scans(c: Cache, k: Key, i: nat, b: nat) {
    Listed(c) && i < |c.cycle| && b == c.cycle[i] && Passed(c, k, if i == 0 then |c.cycle| else i)
  }

  lemma ScanStarts(c: Cache, k: Key) returns (i: nat)
    requires Ok(c)
    ensures HEAD in c.next && Scans(c, k, i, c.next[HEAD])
  {
    OkListed(c);
    hide Ok, Listed;
    ListedAt(c, 0);
    i := Succ(0, |c.cycle|);
  }

  lemma ScanStep(c: Cache, k: Key, i: nat, b: nat)
    requires Scans(c, k, i, b) && b != HEAD
    ensures b in c.buf && b in c.next && 0 < i < |c.cycle|
    ensures c.buf[b].key != k ==> Scans(c, k, Succ(i, |c.cycle|), c.next[b])
  {
    hide Listed;
    ListedAt(c, i);
  }

  lemma ScanEnds(c: Cache, k: Key, i: nat)
    requires Scans(c, k, i, HEAD)
    ensures !Cached(c, k)
  {
    hide Listed;
    HeadFirst(c, i);
    NotCached(c, k);
  }

  lemma HeadFirst(c: Cache, i: nat)
    requires Listed(c) && i < |c.cycle| && c.cycle[i] == HEAD
    ensures i == 0
  {
    hide Linked, Distinct;
  }

  lemma NotCached(c: Cache, k: Key)
    requires Listed(c) && Passed(c, k, |c.cycle|)
    ensures !Cached(c, k)
  {
    hide WellLinked;
    forall b | b in c.buf ensures c.buf[b].key != k {
      var i :| 1 <= i < |c.cycle| && c.cycle[i] == b;
    }
  }

  lemma AllInUse(c: Cache, b: nat)
    requires Listed(c) && b in c.buf
    requires forall i :: 1 <= i < |c.cycle| && c.cycle[i] in c.buf ==> c.buf[c.cycle[i]].refcnt > 0
    ensures c.buf[b].refcnt > 0
  {
    hide WellLinked;
    var i :| 1 <= i < |c.cycle| && c.cycle[i] == b;
  }

  lemma OkListed(c: Cache)
    requires Ok(c)
    ensures Listed(c) && |c.cycle| > 0
  {
    hide Recency, Counted, Unique, Coherent, Distinct, Linked;
  }

  /** After b - 1 rounds of binit: the buffers from the last down to the first. */
  ghost predicate CountsDown(cycle: seq<nat>, b: nat) {
    |cycle| == b && forall i :: 1 <= i < b ==> cycle[i] == b - i
  }

  ghost predicate Blank(buf: map<nat, Buf>, users: map<nat, multiset<nat>>, pins: map<nat, nat>, stamp: map<nat, nat>,
                        b: nat) {
    && buf.Keys == users.Keys == pins.Keys == stamp.Keys && (forall x :: x in buf <==> 1 <= x < b)
    && forall x :: x in buf ==>
         buf[x].key == Key(0, 0) && !buf[x].valid && buf[x].refcnt == 0 && users[x] == multiset{} && pins[x] == 0 &&
           stamp[x] == x
  }

  lemma PushDown(next: map<nat, nat>, prev: map<nat, nat>, cycle: seq<nat>, b: nat)
    requires WellLinked(next, prev, cycle) && CountsDown(cycle, b) && b >= 1
    ensures |cycle| > 0 && HEAD in next && WellLinked(PushNext(next, b), PushPrev(next, prev, b), InsertAt(cycle, 0, b))
    ensures CountsDown(InsertAt(cycle, 0, b), b + 1)
  {
    hide Distinct, Linked, InsertAt;
    assert b !in cycle;
    Push(next, prev, cycle, b);
  }

  lemma EmptyList(next: map<nat, nat>, prev: map<nat, nat>, cycle: seq<nat>, buf: map<nat, Buf>,
                  users: map<nat, multiset<nat>>, pins: map<nat, nat>, stamp: map<nat, nat>)
    requires next == prev == map[HEAD := HEAD] && cycle == [HEAD] && buf == map[] && users == map[] &&
      pins == stamp == map[]
    ensures WellLinked(next, prev, cycle) && CountsDown(cycle, 1) && Blank(buf, users, pins, stamp, 1)
  {}

  lemma BlankAdd(buf: map<nat, Buf>, users: map<nat, multiset<nat>>, pins: map<nat, nat>, stamp: map<nat, nat>, b: nat)
    requires Blank(buf, users, pins, stamp, b) && b >= 1
    ensures Blank(buf[b := Buf(Key(0, 0), false, 0, [])], users[b := multiset{}], pins[b := 0], stamp[b := b], b + 1)
  {
    var x := Buf(Key(0, 0), false, 0, []);
    assert buf[b := x].Keys == buf.Keys + {b} && users[b := multiset{}].Keys == users.Keys + {b};
    assert pins[b := 0].Keys == pins.Keys + {b} && stamp[b := b].Keys == stamp.Keys + {b};
  }

  lemma BlankKeys(buf: map<nat, Buf>, users: map<nat, multiset<nat>>, pins: map<nat, nat>, stamp: map<nat, nat>, b: nat)
    requires Blank(buf, users, pins, stamp, b)
    ensures forall x :: x in buf <==> 1 <= x < b
    ensures forall x :: x in buf ==> buf[x].refcnt == 0
  {}

  lemma InitOk(c: Cache, n: nat)
    requires WellLinked(c.next, c.prev, c.cycle) && CountsDown(c.cycle, n + 1)
    requires Blank(c.buf, c.users, c.pins, c.stamp, n + 1) && c.clock == n
    requires c.disk == c.latest && c.pinnedAt == map[] && c.locked == map[] && forall k :: k in c.disk ==> k.dev != 0
    ensures Ok(c)
  {
    hide WellLinked, Listed;
    InitListed(c, n);
  }

  lemma InitListed(c: Cache, n: nat)
    requires WellLinked(c.next, c.prev, c.cycle) && CountsDown(c.cycle, n + 1)
    requires Blank(c.buf, c.users, c.pins, c.stamp, n + 1)
    ensures Listed(c)
  {
    hide WellLinked;
    forall b | b in c.buf ensures exists i :: 1 <= i < |c.cycle| && c.cycle[i] == b { assert c.cycle[n + 1 - b] == b; }
  }

  class Bcache {
    var next: map<nat, nat>
    var prev: map<nat, nat>
    var buf: map<nat, Buf>
    var disk: map<Key, Block>
    ghost var cycle: seq<nat>
    ghost var latest: map<Key, Block>
    ghost var users: map<nat, multiset<nat>>
    ghost var pins: map<nat, nat>
    ghost var pinnedAt: map<Key, nat>
    ghost var locked: map<nat, nat>
    ghost var stamp: map<nat, nat>
    ghost var clock: nat

    ghost function View(): (c: Cache)
      reads this
    {
      Cache(next, prev, buf, disk, cycle, latest, users, pins, pinnedAt, locked, stamp, clock)
    }

    /** binit, over a disk whose blocks belong to devices other than 0. */
    constructor (n: nat, d: map<Key, Block>)
      requires forall k :: k in d ==> k.dev != 0
      ensures Ok(View()) && disk == latest == d
      ensures forall b :: b in buf <==> 1 <= b <= n
      ensures forall b :: b in buf ==> buf[b].refcnt == 0
    {
      disk, latest, pinnedAt, locked := d, d, map[], map[];
      next, prev, buf := map[HEAD := HEAD], map[HEAD := HEAD], map[];
      cycle, users, pins, stamp, clock := [HEAD], map[], map[], map[], n;
      new;
      Binit(n);
    }

    /** The loop of binit. */
    method Binit(n: nat)
      requires next == prev == map[HEAD := HEAD] && buf == map[] && cycle == [HEAD] && users == map[] &&
        pins == stamp == map[] && clock == n
      requires disk == latest && pinnedAt == map[] && locked == map[] && forall k :: k in disk ==> k.dev != 0
      modifies this`next, this`prev, this`cycle, this`buf, this`users, this`pins, this`stamp
      ensures Ok(View())
      ensures forall b :: b in buf <==> 1 <= b <= n
      ensures forall b :: b in buf ==> buf[b].refcnt == 0
    {
      hide WellLinked, CountsDown, Blank, Ok;
      var b := 1;
      EmptyList(next, prev, cycle, buf, users, pins, stamp);
      while b <= n
        invariant 1 <= b <= n + 1
        invariant WellLinked(next, prev, cycle) && CountsDown(cycle, b)
        invariant Blank(buf, users, pins, stamp, b)
      {
        Add(b);
        b := b + 1;
      }
      BlankKeys(buf, users, pins, stamp, n + 1);
      InitOk(View(), n);
    }

    /** One round of binit. */
    method Add(b: nat)
      requires WellLinked(next, prev, cycle) && CountsDown(cycle, b) && Blank(buf, users, pins, stamp, b) && b >= 1
      modifies this`next, this`prev, this`cycle, this`buf, this`users, this`pins, this`stamp
      ensures WellLinked(next, prev, cycle) && CountsDown(cycle, b + 1) && Blank(buf, users, pins, stamp, b + 1)
    {
      hide WellLinked, InsertAt, CountsDown, Blank;
      BlankAdd(buf, users, pins, stamp, b);
      PushDown(next, prev, cycle, b);
      cycle := InsertAt(cycle, 0, b);
      prev := prev[b := HEAD][next[HEAD] := b];
      next := next[b := next[HEAD]][HEAD := b];
      buf := buf[b := Buf(Key(0, 0), false, 0, [])];
      users, pins, stamp := users[b := multiset{}], pins[b := 0], stamp[b := b];
    }

    /** The first loop of bget: the position of the buffer caching k, or that no buffer does. */
    method Find(k: Key) returns (b: nat)
      requires Ok(View())
      ensures b != HEAD ==> b in buf && buf[b].key == k
      ensures b == HEAD <==> !Cached(View(), k)
    {
      hide Ok, Cached, Scans;
      ghost var c := View();
      ghost var i := ScanStarts(c, k);
      b := next[HEAD];
      while b != HEAD
        invariant Scans(c, k, i, b)
        decreases if i == 0 then 0 else |cycle| - i
      {
        ScanStep(c, k, i, b);
        if buf[b].key == k {
          CachedBy(c, k, b);
          return;
        }
        b := next[b];
        i := Succ(i, |cycle|);
      }
      ScanEnds(c, k, i);
    }

    /** The second loop of bget, from the back of the list. */
    method FindUnused() returns (b: nat, ghost j: nat)
      requires Ok(View())
      ensures b != HEAD ==> b in buf && buf[b].refcnt == 0 && Victim(View(), j) && cycle[j] == b
      ensures b == HEAD <==> forall x :: x in buf ==> buf[x].refcnt > 0
    {
      hide Ok, Listed;
      OkListed(View());
      ListedAt(View(), 0);
      b := prev[HEAD];
      j := |cycle| - 1;
      while b != HEAD
        invariant 0 <= j < |cycle| && b == cycle[j]
        invariant forall m :: j < m < |cycle| && cycle[m] in buf ==> buf[cycle[m]].refcnt > 0
        decreases j
      {
        ListedAt(View(), j);
        if buf[b].refcnt == 0 { return; }
        if j == 0 { assert false; }
        b := prev[b];
        j := j - 1;
      }
      HeadFirst(View(), j);
      forall x | x in buf ensures buf[x].refcnt > 0 { AllInUse(View(), x); }
    }

    method TakeReference(b: nat, ghost p: nat)
      requires Ok(View()) && b in buf
      modifies this`buf, this`users
      ensures b in old(users) && Ok(View()) && View() == Hit(old(View()), b, p)
    {
      hide Ok;
      ghost var c := View();
      HitOk(c, b, p);
      buf := buf[b := buf[b].(refcnt := buf[b].refcnt + 1)];
      users := users[b := users[b] + multiset{p}];
      assert View() == Hit(c, b, p);
    }

    method Reassign(b: nat, k: Key, ghost p: nat)
      requires Ok(View()) && b in buf && buf[b].refcnt == 0 && !Cached(View(), k)
      modifies this`buf, this`users
      ensures Ok(View()) && View() == Recycle(old(View()), b, k, p)
    {
      hide Ok, Cached;
      ghost var c := View();
      MissGivesOk(c, b, k, p);
      buf := buf[b := Buf(k, false, 1, buf[b].data)];
      users := users[b := multiset{p}];
      assert View() == Recycle(c, b, k, p);
    }

    /** bget up to the release of bcache.lock; HEAD stands for the panic. */
    method Get(k: Key, ghost p: nat) returns (b: nat, ghost j: nat)
      requires Ok(View()) && k in disk
      modifies this`buf, this`users
      ensures Ok(View())
      ensures b == HEAD <==> !old(Cached(View(), k)) && forall x :: x in old(buf) ==> old(buf)[x].refcnt > 0
      ensures b == HEAD ==> View() == old(View())
      ensures b != HEAD && old(Cached(View(), k)) ==>
        b in old(buf) && b in old(users) && old(buf)[b].key == k && View() == Hit(old(View()), b, p)
      ensures b != HEAD && !old(Cached(View(), k)) ==>
        b in old(buf) && Victim(old(View()), j) && old(cycle)[j] == b && View() == Recycle(old(View()), b, k, p)
    {
      j := 0;
      hide Ok, Cached, Victim, Hit, Recycle;
      b := Find(k);
      if b != HEAD {
        TakeReference(b, p);
        return;
      }
      b, j := FindUnused();
      if b != HEAD {
        Reassign(b, k, p);
      }
    }

    /** acquiresleep, then the disk read of bread when the buffer is not valid. */
    method Load(b: nat, ghost p: nat)
      requires Ok(View()) && b in buf && b !in locked && b in users && p in users[b] && buf[b].key in disk
      modifies this`buf, this`locked
      ensures Ok(View()) && View() == LockRead(old(View()), b, p)
      ensures b in buf && buf[b].key in old(latest) && buf[b].data == old(latest)[buf[b].key]
    {
      hide Ok;
      ghost var c := View();
      LockReadOk(c, b, p);
      locked := locked[b := p];
      if !buf[b].valid {
        buf := buf[b := buf[b].(valid := true, data := disk[buf[b].key])];
      }
      assert buf == LockRead(c, b, p).buf;
      assert View() == LockRead(c, b, p);
    }

    /** bwrite. */
    method Write(b: nat)
      requires Ok(View()) && b in buf && b in locked && buf[b].valid
      modifies this`disk, this`latest
      ensures Ok(View()) && View() == Written(old(View()), b)
      ensures disk == old(disk)[buf[b].key := buf[b].data] && latest == old(latest)[buf[b].key := buf[b].data]
    {
      hide Ok;
      WrittenOk(View(), b);
      ghost var c := View();
      disk := disk[buf[b].key := buf[b].data];
      latest := latest[buf[b].key := buf[b].data];
      assert View() == Written(c, b);
    }

    /** bpin, on behalf of a log_write that finds the block not yet in the log header. */
    method Pin(b: nat)
      requires Ok(View()) && b in buf && b in locked && buf[b].valid && b in pins
      modifies this`buf, this`pins, this`pinnedAt, this`latest
      ensures Ok(View()) && View() == Logged(old(View()), b, false)
      ensures latest == old(latest)[buf[b].key := buf[b].data] && pins == old(pins)[b := old(pins)[b] + 1]
      ensures buf == old(buf)[b := old(buf)[b].(refcnt := old(buf)[b].refcnt + 1)]
    {
      hide Ok;
      LoggedOk(View(), b, false);
      ghost var c := View();
      latest := latest[buf[b].key := buf[b].data];
      pins := pins[b := pins[b] + 1];
      pinnedAt := pinnedAt[buf[b].key := b];
      buf := buf[b := buf[b].(refcnt := buf[b].refcnt + 1)];
      assert View() == Logged(c, b, false);
    }

    /** bunpin, once install_trans has written the block home. */
    method Unpin(b: nat)
      requires Ok(View()) && b in buf && b in pins && pins[b] > 0 && buf[b].refcnt > 0
      requires disk.Keys == latest.Keys && buf[b].key in disk && disk[buf[b].key] == latest[buf[b].key]
      modifies this`buf, this`pins, this`pinnedAt
      ensures Ok(View()) && View() == Unpinned(old(View()), b)
    {
      hide Ok, Unpinned;
      ghost var c := View();
      UnpinnedOk(c, b);
      ghost var u := UnpinnedFields(c, b);
      buf := buf[b := buf[b].(refcnt := buf[b].refcnt - 1)];
      pins, pinnedAt := u.pins, u.pinnedAt;
      assert View() == u;
    }

    /** The six assignments by which brelse unlinks a buffer and links it in after the head. */
    method Relink(b: nat)
      requires b in next && b in prev && next[b] != b && HEAD in UnlinkNext(next, prev, b)
      modifies this`next, this`prev
      ensures next == PushNext(UnlinkNext(old(next), old(prev), b), b)
      ensures prev == PushPrev(UnlinkNext(old(next), old(prev), b), UnlinkPrev(old(next), old(prev), b), b)
    {
      prev := prev[next[b] := prev[b]];
      next := next[prev[b] := next[b]];
      next := next[b := next[HEAD]];
      prev := prev[b := HEAD];
      prev := prev[next[HEAD] := b];
      next := next[HEAD := b];
    }

    /** Moving a buffer to the front of the list. */
    method MoveToFront(b: nat, ghost j: nat)
      requires Ok(View()) && 1 <= j < |cycle| && cycle[j] == b
      modifies this`next, this`prev, this`cycle, this`stamp, this`clock
      ensures Movable(old(View()), j) && Ok(View()) && View() == Fronted(old(View()), j)
    {
      hide Ok, Listed, Fronted, UnlinkNext, UnlinkPrev, PushNext, PushPrev;
      ghost var c := View();
      FrontedOk(c, j);
      OkListed(c);
      NotSelfLinked(c, j);
      FrontedFields(c, j);
      Relink(b);
      ghost var f := Fronted(c, j);
      cycle, clock, stamp := f.cycle, f.clock, f.stamp;
      assert View() == f;
    }

    /** The first part of brelse: releasesleep. */
    method Unlock(b: nat)
      requires Ok(View()) && b in buf && b in locked && disk.Keys == latest.Keys
      requires buf[b].valid ==> buf[b].key in latest && buf[b].data == latest[buf[b].key]
      modifies this`locked
      ensures Ok(View()) && View() == Unlocked(old(View()), b)
    {
      hide Ok;
      UnlockedOk(View(), b);
      locked := locked - {b};
    }

    /** The second part, under bcache.lock: the buffer goes to the front of the list exactly when nobody references it
        any more. */
    method Release(b: nat, ghost p: nat, ghost j: nat)
      requires Ok(View()) && b in buf && b in users && p in users[b] && (b in locked ==> locked[b] != p) &&
        buf[b].refcnt > 0
      requires 1 <= j < |cycle| && cycle[j] == b
      modifies this`next, this`prev, this`buf, this`cycle, this`users, this`stamp, this`clock
      ensures Ok(View())
      ensures old(buf)[b].refcnt > 1 ==> View() == Dropped(old(View()), b, p)
      ensures old(buf)[b].refcnt == 1 ==>
        Movable(Dropped(old(View()), b, p), j) && View() == Fronted(Dropped(old(View()), b, p), j)
    {
      hide Ok, Fronted, Movable;
      ghost var c := View();
      DroppedOk(c, b, p);
      users := users[b := users[b] - multiset{p}];
      buf := buf[b := buf[b].(refcnt := buf[b].refcnt - 1)];
      assert View() == Dropped(c, b, p);
      if buf[b].refcnt == 0 {
        MoveToFront(b, j);
      }
    }
  }

  lemma CachedBy(c: Cache, k: Key, b: nat)
    requires b in c.buf && c.buf[b].key == k
    ensures Cached(c, k)
  {}
}
