/** The buffer cache (kernel/bio.c) under the discipline its users follow: a changed buffer is logged or written
    before it is released. Each method is one critical section; `latest` is what a block was last logged or
    written as. */
module Bio {
  import opened BufferList

  type Block = seq<nat>

  datatype Key = Key(dev: nat, blockno: nat)

  datatype Buf = Buf(key: Key, valid: bool, refcnt: nat, data: Block)

  /** bcache and disk, with the ghost state the invariants speak about: the list from head.next on, the
      processes that hold a reference, pins held by the log, which buffer pins a block, who holds the sleep lock of a
      buffer, and when each buffer was last released to refcnt 0. */
  datatype Cache = Cache(next: map<nat, nat>, prev: map<nat, nat>, buf: map<nat, Buf>, disk: map<Key, Block>,
                         cycle: seq<nat>, latest: map<Key, Block>, users: map<nat, multiset<nat>>, pins: map<nat, nat>,
                         pinnedAt: map<Key, nat>, locked: map<nat, nat>, stamp: map<nat, nat>, clock: nat)

  /** The list is well linked and is a permutation of all the buffers. */
  ghost predicate Listed(c: Cache) {
    && WellLinked(c.next, c.prev, c.cycle) && HEAD !in c.buf
    && (forall i :: 1 <= i < |c.cycle| ==> c.cycle[i] in c.buf)
    && (forall b :: b in c.buf ==> exists i :: 1 <= i < |c.cycle| && c.cycle[i] == b)
  }

  /** The list is ordered by last release to refcnt 0, most recent first. */
  ghost predicate Recency(cycle: seq<nat>, stamp: map<nat, nat>, clock: nat) {
    && (forall i :: 1 <= i < |cycle| ==> cycle[i] in stamp && stamp[cycle[i]] <= clock)
    && (forall i, j :: 1 <= i < j < |cycle| ==> stamp[cycle[i]] > stamp[cycle[j]])
  }

  /** refcnt counts callers' references and pins; a locked buffer is referenced by its holder. */
  ghost predicate Counted(c: Cache) {
    && c.users.Keys == c.pins.Keys == c.buf.Keys && c.locked.Keys <= c.buf.Keys
    && forall b :: b in c.buf ==> Tallies(c, b)
  }

  ghost predicate Tallies(c: Cache, b: nat)
    requires b in c.buf && b in c.users && b in c.pins
  {
    c.buf[b].refcnt == |c.users[b]| + c.pins[b] && (b in c.locked ==> c.locked[b] in c.users[b])
  }

  /** At most one buffer per block (dev 0 is what binit leaves in every buffer). */
  ghost predicate Unique(c: Cache) {
    forall a, b :: a in c.buf && b in c.buf && a != b && c.buf[a].key.dev != 0 ==> c.buf[a].key != c.buf[b].key
  }

  /** A valid buffer nobody holds shows the latest contents of its block, and a block whose disk contents are
      stale is held by a pinned valid buffer. */
  ghost predicate Coherent(c: Cache) {
    && c.latest.Keys == c.disk.Keys && c.pins.Keys == c.buf.Keys && (forall k :: k in c.disk ==> k.dev != 0)
    && (forall b :: b in c.buf ==> Shows(c, b))
    && (forall k :: k in c.disk && k !in c.pinnedAt ==> c.disk[k] == c.latest[k])
    && (forall k :: k in c.pinnedAt ==> PinnedBy(c, k, c.pinnedAt[k]))
  }

  ghost predicate Shows(c: Cache, b: nat)
    requires b in c.buf && c.latest.Keys == c.disk.Keys
  {
    c.buf[b].valid ==> c.buf[b].key in c.disk && (b !in c.locked ==> c.buf[b].data == c.latest[c.buf[b].key])
  }

  ghost predicate PinnedBy(c: Cache, k: Key, b: nat) {
    b in c.buf && b in c.pins && c.buf[b].key == k && c.buf[b].valid && c.pins[b] > 0
  }

  ghost predicate Ok(c: Cache) {
    Listed(c) && Recency(c.cycle, c.stamp, c.clock) && Counted(c) && Unique(c) && Coherent(c)
  }

  // ---------------------------------------------------------------- what an operation leaves alone

  lemma ListedFrame(c: Cache, c': Cache)
    requires Listed(c) && c'.next == c.next && c'.prev == c.prev && c'.cycle == c.cycle && SameKeys(c, c')
    ensures Listed(c')
  {
    hide WellLinked;
  }

  ghost predicate SameKeys(c: Cache, c': Cache) {
    c'.buf.Keys == c.buf.Keys && forall b :: b in c.buf ==> c'.buf[b].key == c.buf[b].key
  }

  lemma SameKeysUpdate(c: Cache, c': Cache, b: nat, x: Buf)
    requires b in c.buf && x.key == c.buf[b].key && c'.buf == c.buf[b := x]
    ensures SameKeys(c, c')
  {
    assert c'.buf.Keys == c.buf.Keys;
  }

  lemma UniqueFrame(c: Cache, c': Cache)
    requires Unique(c) && SameKeys(c, c')
    ensures Unique(c')
  {}

  lemma UniqueAt(c: Cache, a: nat, b: nat)
    requires Unique(c) && a in c.buf && b in c.buf && a != b && c.buf[a].key.dev != 0
    ensures c.buf[a].key != c.buf[b].key
  {}

  lemma CountedAt(c: Cache, b: nat)
    requires Counted(c) && b in c.buf
    ensures b in c.users && b in c.pins && c.buf[b].refcnt == |c.users[b]| + c.pins[b] &&
      (b in c.locked ==> c.locked[b] in c.users[b])
  {}

  /** Coherence does not look at reference counts or the list. */
  lemma CoherentFrame(c: Cache, c': Cache)
    requires Coherent(c) && SameKeys(c, c') && c'.locked == c.locked && c'.pins == c.pins
    requires forall b :: b in c.buf ==> c'.buf[b].valid == c.buf[b].valid && c'.buf[b].data == c.buf[b].data
    requires c'.disk == c.disk && c'.latest == c.latest && c'.pinnedAt == c.pinnedAt
    ensures Coherent(c')
  {
    forall k | k in c'.pinnedAt ensures PinnedBy(c', k, c'.pinnedAt[k]) { assert PinnedBy(c, k, c.pinnedAt[k]); }
  }

  // ---------------------------------------------------------------- bget and bread

  /** Taking another reference to a cached buffer. */
  ghost function Hit(c: Cache, b: nat, p: nat): (r: Cache)
    requires b in c.buf && b in c.users
  {
    c.(buf := c.buf[b := c.buf[b].(refcnt := c.buf[b].refcnt + 1)], users := c.users[b := c.users[b] + multiset{p}])
  }

  lemma HitCounted(c: Cache, b: nat, p: nat)
    requires Counted(c) && b in c.buf
    ensures Counted(Hit(c, b, p))
  {
    var c' := Hit(c, b, p);
    assert c'.buf.Keys == c.buf.Keys && c'.users.Keys == c.users.Keys && c'.pins.Keys == c.pins.Keys;
    forall x | x in c'.buf ensures Tallies(c', x) { assert Tallies(c, x); }
  }

  lemma HitOk(c: Cache, b: nat, p: nat)
    requires Ok(c) && b in c.buf
    ensures b in c.users && Ok(Hit(c, b, p))
  {
    hide Recency, Listed, Coherent, Unique, Counted, SameKeys;
    CountedAt(c, b);
    HitCounted(c, b, p);
    var c' := Hit(c, b, p);
    SameKeysUpdate(c, c', b, c'.buf[b]);
    ListedFrame(c, c');
    UniqueFrame(c, c');
    CoherentFrame(c, c');
  }

  /** Giving an unused buffer to a block that is not cached. */
  ghost function Recycle(c: Cache, b: nat, k: Key, p: nat): (r: Cache)
    requires b in c.buf
  {
    c.(buf := c.buf[b := Buf(k, false, 1, c.buf[b].data)], users := c.users[b := multiset{p}])
  }

  lemma RecycleCoherent(c: Cache, b: nat, k: Key, p: nat)
    requires Coherent(c) && b in c.buf && c.pins[b] == 0
    ensures Coherent(Recycle(c, b, k, p))
  {
    var c' := Recycle(c, b, k, p);
    assert c'.buf.Keys == c.buf.Keys;
    forall j | j in c.pinnedAt ensures PinnedBy(c', j, c.pinnedAt[j]) { assert PinnedBy(c, j, c.pinnedAt[j]); }
    forall x | x in c'.buf ensures Shows(c', x) { assert Shows(c, x); }
  }

  lemma RecycleUnique(c: Cache, b: nat, k: Key, p: nat)
    requires Unique(c) && b in c.buf && forall x :: x in c.buf ==> c.buf[x].key != k
    ensures Unique(Recycle(c, b, k, p))
  {}

  lemma RecycleCounted(c: Cache, b: nat, k: Key, p: nat)
    requires Counted(c) && b in c.buf && c.buf[b].refcnt == 0
    ensures Counted(Recycle(c, b, k, p))
  {
    var c' := Recycle(c, b, k, p);
    assert c'.buf.Keys == c.buf.Keys && c'.users.Keys == c.users.Keys;
    forall x | x in c'.buf ensures Tallies(c', x) { assert Tallies(c, x); }
  }

  lemma RecycleListed(c: Cache, b: nat, k: Key, p: nat)
    requires Listed(c) && b in c.buf
    ensures Listed(Recycle(c, b, k, p))
  {
    hide WellLinked;
    assert Recycle(c, b, k, p).buf.Keys == c.buf.Keys;
  }

  /** Only a buffer with no reference and no pin is recycled. */
  lemma RecycleOk(c: Cache, b: nat, k: Key, p: nat)
    requires Ok(c) && b in c.buf && c.buf[b].refcnt == 0 && forall x :: x in c.buf ==> c.buf[x].key != k
    ensures b !in c.locked && b in c.users && b in c.pins && c.users[b] == multiset{} && c.pins[b] == 0 &&
      Ok(Recycle(c, b, k, p))
  {
    hide Recency, Listed, Coherent, Unique, Counted;
    CountedAt(c, b);
    RecycleListed(c, b, k, p);
    RecycleUnique(c, b, k, p);
    RecycleCounted(c, b, k, p);
    RecycleCoherent(c, b, k, p);
  }

  /** Locking a buffer and, if it is not valid, loading it from disk. */
  ghost function LockRead(c: Cache, b: nat, p: nat): (r: Cache)
    requires b in c.buf && c.buf[b].key in c.disk
  {
    var x := c.buf[b];
    c.(locked := c.locked[b := p], buf := c.buf[b := if x.valid then x else x.(valid := true, data := c.disk[x.key])])
  }

  lemma LockReadCoherent(c: Cache, b: nat, p: nat)
    requires Coherent(c) && Unique(c) && b in c.buf && b !in c.locked && c.buf[b].key in c.disk
    ensures Coherent(LockRead(c, b, p)) && LockRead(c, b, p).buf[b].data == c.latest[c.buf[b].key]
    ensures c.disk.Keys == c.latest.Keys
  {
    var c' := LockRead(c, b, p);
    assert c'.buf.Keys == c.buf.Keys;
    ReadLatest(c, b, p);
    hide LockRead, PinnedBy, Shows;
    forall j | j in c.pinnedAt ensures PinnedBy(c', j, c.pinnedAt[j]) { ReadPinned(c, b, p, j); }
    forall x | x in c'.buf ensures Shows(c', x) { ReadShows(c, b, p, x); }
  }

  lemma ReadLatest(c: Cache, b: nat, p: nat)
    requires Coherent(c) && Unique(c) && b in c.buf && b !in c.locked && c.buf[b].key in c.disk
    ensures LockRead(c, b, p).buf[b].data == c.latest[c.buf[b].key]
    ensures var c' := LockRead(c, b, p);
      c'.latest == c.latest && c'.disk == c.disk && c'.pins == c.pins && c'.pinnedAt == c.pinnedAt
  {
    var k := c.buf[b].key;
    assert k in c.pinnedAt ==> PinnedBy(c, k, c.pinnedAt[k]);
    assert Shows(c, b);
  }

  lemma ReadPinned(c: Cache, b: nat, p: nat, j: Key)
    requires b in c.buf && c.buf[b].key in c.disk && j in c.pinnedAt && PinnedBy(c, j, c.pinnedAt[j])
    ensures PinnedBy(LockRead(c, b, p), j, c.pinnedAt[j])
  {}

  lemma ReadShows(c: Cache, b: nat, p: nat, x: nat)
    requires b in c.buf && c.buf[b].key in c.disk && c.latest.Keys == c.disk.Keys && x in c.buf && Shows(c, x)
    ensures x in LockRead(c, b, p).buf && Shows(LockRead(c, b, p), x)
  {}

  lemma LockReadCounted(c: Cache, b: nat, p: nat)
    requires Counted(c) && b in c.buf && b in c.users && p in c.users[b] && c.buf[b].key in c.disk
    ensures Counted(LockRead(c, b, p))
  {
    var c' := LockRead(c, b, p);
    assert c'.buf.Keys == c.buf.Keys && c'.users.Keys == c.users.Keys && c'.pins.Keys == c.pins.Keys;
    forall x | x in c'.buf ensures Tallies(c', x) { assert Tallies(c, x); }
  }

  /** bread returns the latest contents. */
  lemma LockReadOk(c: Cache, b: nat, p: nat)
    requires Ok(c) && b in c.buf && b !in c.locked && b in c.users && p in c.users[b] && c.buf[b].key in c.disk
    ensures c.disk.Keys == c.latest.Keys && Ok(LockRead(c, b, p)) &&
      LockRead(c, b, p).buf[b].data == c.latest[c.buf[b].key]
  {
    hide Recency, Listed, Coherent, Unique, Counted, SameKeys;
    LockReadCoherent(c, b, p);
    LockReadCounted(c, b, p);
    var c' := LockRead(c, b, p);
    SameKeysUpdate(c, c', b, c'.buf[b]);
    ListedFrame(c, c');
    UniqueFrame(c, c');
  }

  // ---------------------------------------------------------------- changing, writing, logging

  /** The holder of the lock changes the data. */
  ghost function Modify(c: Cache, b: nat, data: Block): (r: Cache)
    requires b in c.buf
  {
    c.(buf := c.buf[b := c.buf[b].(data := data)])
  }

  lemma ModifyCoherent(c: Cache, b: nat, data: Block)
    requires Coherent(c) && b in c.buf && b in c.locked
    ensures Coherent(Modify(c, b, data))
  {
    var c' := Modify(c, b, data);
    assert c'.buf.Keys == c.buf.Keys;
    forall j | j in c.pinnedAt ensures PinnedBy(c', j, c.pinnedAt[j]) { assert PinnedBy(c, j, c.pinnedAt[j]); }
    forall x | x in c'.buf ensures Shows(c', x) { assert Shows(c, x); }
  }

  lemma ModifyCounted(c: Cache, b: nat, data: Block)
    requires Counted(c) && b in c.buf
    ensures Counted(Modify(c, b, data))
  {
    var c' := Modify(c, b, data);
    assert c'.buf.Keys == c.buf.Keys && c'.users.Keys == c.users.Keys && c'.pins.Keys == c.pins.Keys;
    forall x | x in c'.buf ensures Tallies(c', x) { assert Tallies(c, x); }
  }

  lemma ModifyOk(c: Cache, b: nat, data: Block)
    requires Ok(c) && b in c.buf && b in c.locked
    ensures Ok(Modify(c, b, data))
  {
    hide Recency, Listed, Coherent, Unique, Counted, SameKeys;
    ModifyCoherent(c, b, data);
    ModifyCounted(c, b, data);
    var c' := Modify(c, b, data);
    SameKeysUpdate(c, c', b, c'.buf[b]);
    ListedFrame(c, c');
    UniqueFrame(c, c');
  }

  /** bwrite. */
  ghost function Written(c: Cache, b: nat): (r: Cache)
    requires b in c.buf
  {
    var k := c.buf[b].key;
    c.(disk := c.disk[k := c.buf[b].data], latest := c.latest[k := c.buf[b].data])
  }

  lemma WrittenCounted(c: Cache, b: nat)
    requires Counted(c) && b in c.buf
    ensures Counted(Written(c, b))
  {
    var c' := Written(c, b);
    assert c'.buf.Keys == c.buf.Keys && c'.users.Keys == c.users.Keys && c'.pins.Keys == c.pins.Keys;
    forall x | x in c'.buf ensures Tallies(c', x) { assert Tallies(c, x); }
  }

  lemma WrittenOk(c: Cache, b: nat)
    requires Ok(c) && b in c.locked && b in c.buf && c.buf[b].valid
    ensures Ok(Written(c, b))
  {
    hide Recency, Listed, Coherent, Unique, Counted, SameKeys;
    WrittenCoherent(c, b);
    WrittenCounted(c, b);
    var c' := Written(c, b);
    SameKeysUpdate(c, c', b, c'.buf[b]);
    ListedFrame(c, c');
    UniqueFrame(c, c');
  }

  lemma WrittenCoherent(c: Cache, b: nat)
    requires Coherent(c) && Unique(c) && b in c.locked && b in c.buf && c.buf[b].valid
    ensures Coherent(Written(c, b))
  {
    hide Unique;
    forall x | x in c.buf && c.buf[x].valid && x !in c.locked
      ensures c.buf[x].key != c.buf[b].key { UniqueAt(c, b, x); }
    var c' := Written(c, b);
    assert c'.disk.Keys == c.disk.Keys && c'.latest.Keys == c.latest.Keys;
    forall j | j in c.pinnedAt ensures PinnedBy(c', j, c.pinnedAt[j]) { assert PinnedBy(c, j, c.pinnedAt[j]); }
    forall x | x in c'.buf ensures Shows(c', x) { assert Shows(c, x); }
  }

  /** log_write: the contents count as the latest and the buffer is pinned, unless the block was already logged. */
  ghost function Logged(c: Cache, b: nat, absorbed: bool): (r: Cache)
    requires b in c.buf && b in c.pins
  {
    var k, n := c.buf[b].key, if absorbed then 0 else 1;
    c.(latest := c.latest[k := c.buf[b].data], pins := c.pins[b := c.pins[b] + n], pinnedAt := c.pinnedAt[k := b],
       buf := c.buf[b := c.buf[b].(refcnt := c.buf[b].refcnt + n)])
  }

  lemma LoggedCoherent(c: Cache, b: nat, absorbed: bool)
    requires Coherent(c) && Unique(c) && b in c.locked && b in c.buf && c.buf[b].valid && (absorbed ==> c.pins[b] > 0)
    ensures Coherent(Logged(c, b, absorbed))
  {
    hide Unique, Shows, PinnedBy;
    var c' := Logged(c, b, absorbed);
    assert c.buf[b].key in c.latest by { ShowsKey(c, b); }
    assert c'.latest.Keys == c.latest.Keys && c'.buf.Keys == c.buf.Keys && c'.pins.Keys == c.pins.Keys;
    forall j | j in c'.pinnedAt ensures PinnedBy(c', j, c'.pinnedAt[j]) { LoggedPinned(c, b, absorbed, j); }
    forall x | x in c'.buf ensures Shows(c', x) { LoggedShows(c, b, absorbed, x); }
  }

  lemma ShowsKey(c: Cache, b: nat)
    requires b in c.buf && c.latest.Keys == c.disk.Keys && Shows(c, b) && c.buf[b].valid
    ensures c.buf[b].key in c.disk
  {}

  lemma LoggedPinned(c: Cache, b: nat, absorbed: bool, j: Key)
    requires b in c.buf && b in c.pins && c.buf[b].valid && (absorbed ==> c.pins[b] > 0) &&
      j in Logged(c, b, absorbed).pinnedAt
    requires j in c.pinnedAt ==> PinnedBy(c, j, c.pinnedAt[j])
    ensures var c' := Logged(c, b, absorbed); PinnedBy(c', j, c'.pinnedAt[j])
  {}

  lemma LoggedShows(c: Cache, b: nat, absorbed: bool, x: nat)
    requires Unique(c) && b in c.buf && b in c.pins && b in c.locked && c.buf[b].valid && c.buf[b].key in c.latest
    requires c.buf[b].key.dev != 0
    requires c.latest.Keys == c.disk.Keys && x in c.buf && Shows(c, x)
    ensures var c' := Logged(c, b, absorbed); c'.latest.Keys == c'.disk.Keys && x in c'.buf && Shows(c', x)
  {
    var c' := Logged(c, b, absorbed);
    assert c'.latest.Keys == c.latest.Keys;
    if x !in c.locked && c.buf[x].valid { UniqueAt(c, b, x); }
  }

  lemma LoggedCounted(c: Cache, b: nat, absorbed: bool)
    requires Counted(c) && b in c.buf && b in c.pins
    ensures Counted(Logged(c, b, absorbed))
  {
    var c' := Logged(c, b, absorbed);
    assert c'.buf.Keys == c.buf.Keys && c'.users.Keys == c.users.Keys && c'.pins.Keys == c.pins.Keys;
    forall x | x in c'.buf ensures Tallies(c', x) { assert Tallies(c, x); }
  }

  lemma LoggedOk(c: Cache, b: nat, absorbed: bool)
    requires Ok(c) && b in c.locked && b in c.buf && c.buf[b].valid && b in c.pins && (absorbed ==> c.pins[b] > 0)
    ensures Ok(Logged(c, b, absorbed))
  {
    hide Recency, Listed, Coherent, Unique, Counted, SameKeys;
    LoggedCoherent(c, b, absorbed);
    LoggedCounted(c, b, absorbed);
    var c' := Logged(c, b, absorbed);
    SameKeysUpdate(c, c', b, c'.buf[b]);
    ListedFrame(c, c');
    UniqueFrame(c, c');
  }

  /** bunpin, once the block's home location has been written. */
  ghost function Unpinned(c: Cache, b: nat): (r: Cache)
    requires b in c.buf && b in c.pins && c.pins[b] > 0 && c.buf[b].refcnt > 0
  {
    c.(pins := c.pins[b := c.pins[b] - 1], buf := c.buf[b := c.buf[b].(refcnt := c.buf[b].refcnt - 1)],
       pinnedAt := if c.pins[b] == 1 then c.pinnedAt - {c.buf[b].key} else c.pinnedAt)
  }

  lemma UnpinnedCoherent(c: Cache, b: nat)
    requires Coherent(c) && b in c.buf && c.pins[b] > 0 && c.buf[b].refcnt > 0
    requires c.buf[b].key in c.disk && c.disk[c.buf[b].key] == c.latest[c.buf[b].key]
    ensures Coherent(Unpinned(c, b))
  {
    hide Shows, PinnedBy;
    var c' := Unpinned(c, b);
    assert c'.buf.Keys == c.buf.Keys && c'.pins.Keys == c.pins.Keys;
    forall j | j in c'.pinnedAt ensures PinnedBy(c', j, c'.pinnedAt[j]) { StillPinned(c, b, j); }
    forall x | x in c'.buf ensures Shows(c', x) { UnpinnedShows(c, b, x); }
  }

  lemma StillPinned(c: Cache, b: nat, j: Key)
    requires b in c.buf && b in c.pins && c.pins[b] > 0 && c.buf[b].refcnt > 0
    requires j in Unpinned(c, b).pinnedAt && j in c.pinnedAt && PinnedBy(c, j, c.pinnedAt[j])
    ensures var c' := Unpinned(c, b); PinnedBy(c', j, c'.pinnedAt[j])
  {}

  lemma UnpinnedShows(c: Cache, b: nat, x: nat)
    requires b in c.buf && b in c.pins && c.pins[b] > 0 && c.buf[b].refcnt > 0
    requires c.latest.Keys == c.disk.Keys && x in c.buf && Shows(c, x)
    ensures x in Unpinned(c, b).buf && Shows(Unpinned(c, b), x)
  {}

  lemma UnpinnedCounted(c: Cache, b: nat)
    requires Counted(c) && b in c.buf && b in c.pins && c.pins[b] > 0 && c.buf[b].refcnt > 0
    ensures Counted(Unpinned(c, b))
  {
    var c' := Unpinned(c, b);
    assert c'.buf.Keys == c.buf.Keys && c'.users.Keys == c.users.Keys && c'.pins.Keys == c.pins.Keys;
    forall x | x in c'.buf ensures Tallies(c', x) { assert Tallies(c, x); }
  }

  lemma UnpinnedOk(c: Cache, b: nat)
    requires Ok(c) && b in c.buf && b in c.pins && c.pins[b] > 0
    requires c.disk.Keys == c.latest.Keys && c.buf[b].key in c.disk && c.disk[c.buf[b].key] == c.latest[c.buf[b].key]
    ensures c.buf[b].refcnt > 0 && Ok(Unpinned(c, b))
  {
    hide Recency, Listed, Coherent, Unique, Counted, SameKeys;
    CountedAt(c, b);
    UnpinnedCoherent(c, b);
    UnpinnedCounted(c, b);
    var c' := Unpinned(c, b);
    SameKeysUpdate(c, c', b, c'.buf[b]);
    ListedFrame(c, c');
    UniqueFrame(c, c');
  }

  // ---------------------------------------------------------------- brelse

  /** releasesleep. */
  ghost function Unlocked(c: Cache, b: nat): (r: Cache) { c.(locked := c.locked - {b}) }

  lemma UnlockedCoherent(c: Cache, b: nat)
    requires Coherent(c) && b in c.buf && (c.buf[b].valid ==> c.buf[b].data == c.latest[c.buf[b].key])
    ensures Coherent(Unlocked(c, b))
  {
    forall j | j in c.pinnedAt
      ensures PinnedBy(Unlocked(c, b), j, c.pinnedAt[j]) { assert PinnedBy(c, j, c.pinnedAt[j]); }
  }

  lemma UnlockedOk(c: Cache, b: nat)
    requires Ok(c) && b in c.buf && c.disk.Keys == c.latest.Keys
    requires c.buf[b].valid ==> c.buf[b].key in c.latest && c.buf[b].data == c.latest[c.buf[b].key]
    ensures Ok(Unlocked(c, b))
  {
    assert Counted(Unlocked(c, b)) by { hide Recency, Listed, Coherent, Unique; }
    hide Recency, Listed, Coherent, Unique, Counted;
    UnlockedCoherent(c, b);
    ListedFrame(c, Unlocked(c, b));
    UniqueFrame(c, Unlocked(c, b));
  }

  /** The reference of process p goes, after its lock. */
  ghost function Dropped(c: Cache, b: nat, p: nat): (r: Cache)
    requires b in c.buf && b in c.users && c.buf[b].refcnt > 0
  {
    c.(users := c.users[b := c.users[b] - multiset{p}], buf := c.buf[b := c.buf[b].(refcnt := c.buf[b].refcnt - 1)])
  }

  lemma DroppedCounted(c: Cache, b: nat, p: nat)
    requires Counted(c) && b in c.buf && b in c.users && p in c.users[b] && c.buf[b].refcnt > 0 &&
      (b in c.locked ==> c.locked[b] != p)
    ensures Counted(Dropped(c, b, p))
  {
    var c' := Dropped(c, b, p);
    assert c'.buf.Keys == c.buf.Keys && c'.users.Keys == c.users.Keys && c'.pins.Keys == c.pins.Keys;
    assert |c.users[b] - multiset{p}| == |c.users[b]| - 1;
    forall x | x in c'.buf ensures Tallies(c', x) { assert Tallies(c, x); }
  }

  lemma DroppedOk(c: Cache, b: nat, p: nat)
    requires Ok(c) && b in c.buf && b in c.users && p in c.users[b] && (b in c.locked ==> c.locked[b] != p)
    ensures c.buf[b].refcnt > 0 && Ok(Dropped(c, b, p))
  {
    hide Recency, Listed, Coherent, Unique, Counted, SameKeys;
    CountedAt(c, b);
    Member(c.users[b], p);
    DroppedCounted(c, b, p);
    var c' := Dropped(c, b, p);
    SameKeysUpdate(c, c', b, c'.buf[b]);
    ListedFrame(c, c');
    UniqueFrame(c, c');
    CoherentFrame(c, c');
  }

  lemma Member(m: multiset<nat>, p: nat)
    requires p in m
    ensures |m| > 0
  {}

  /** Moving buffer cycle[j] to the front of the list, stamped with a new time. */
  ghost function Fronted(c: Cache, j: nat): (r: Cache)
    requires 1 <= j < |c.cycle| && c.cycle[j] in c.next && c.cycle[j] in c.prev
    requires HEAD in UnlinkNext(c.next, c.prev, c.cycle[j])
  {
    var b := c.cycle[j];
    var next', prev' := UnlinkNext(c.next, c.prev, b), UnlinkPrev(c.next, c.prev, b);
    c.(next := PushNext(next', b), prev := PushPrev(next', prev', b), cycle := InsertAt(RemoveAt(c.cycle, j), 0, b),
       clock := c.clock + 1, stamp := c.stamp[b := c.clock + 1])
  }

  lemma FrontedLinks(c: Cache, j: nat)
    requires Listed(c) && 1 <= j < |c.cycle|
    ensures c.cycle[j] in c.next && c.cycle[j] in c.prev && HEAD in UnlinkNext(c.next, c.prev, c.cycle[j])
    ensures WellLinked(Fronted(c, j).next, Fronted(c, j).prev, Fronted(c, j).cycle)
  {
    hide WellLinked;
    Unlink(c.next, c.prev, c.cycle, j);
    NotThere(c.next, c.prev, c.cycle, j);
    var b := c.cycle[j];
    Push(UnlinkNext(c.next, c.prev, b), UnlinkPrev(c.next, c.prev, b), RemoveAt(c.cycle, j), b);
  }

  lemma NotThere(next: map<nat, nat>, prev: map<nat, nat>, cycle: seq<nat>, j: nat)
    requires WellLinked(next, prev, cycle) && j < |cycle|
    ensures cycle[j] !in RemoveAt(cycle, j)
  {
    hide Linked;
  }

  lemma FrontedListed(c: Cache, j: nat)
    requires Listed(c) && 1 <= j < |c.cycle|
    ensures c.cycle[j] in c.next && c.cycle[j] in c.prev && HEAD in UnlinkNext(c.next, c.prev, c.cycle[j])
    ensures Listed(Fronted(c, j))
  {
    hide WellLinked, InsertAt, RemoveAt;
    FrontedLinks(c, j);
    var r := Fronted(c, j).cycle;
    forall b | b in c.buf ensures exists i :: 1 <= i < |r| && r[i] == b {
      var i :| 1 <= i < |c.cycle| && c.cycle[i] == b;
      assert r[if i < j then i + 1 else if i == j then 1 else i] == b;
    }
    forall i | 1 <= i < |r| ensures r[i] in c.buf {
      assert r[i] == c.cycle[if i == 1 then j else if i <= j then i - 1 else i];
    }
  }

  lemma FrontedRecency(cycle: seq<nat>, stamp: map<nat, nat>, clock: nat, j: nat)
    requires Recency(cycle, stamp, clock) && 1 <= j < |cycle| && Distinct(cycle)
    ensures Recency(InsertAt(RemoveAt(cycle, j), 0, cycle[j]), stamp[cycle[j] := clock + 1], clock + 1)
  {
    hide InsertAt, RemoveAt;
    var r := InsertAt(RemoveAt(cycle, j), 0, cycle[j]);
    forall i | 2 <= i < |r| ensures r[i] == cycle[if i <= j then i - 1 else i] && r[i] != cycle[j] {
      DistinctAt(cycle, if i <= j then i - 1 else i, j);
    }
  }

  lemma FrontedOk(c: Cache, j: nat)
    requires Ok(c) && 1 <= j < |c.cycle|
    ensures c.cycle[j] in c.next && c.cycle[j] in c.prev && HEAD in UnlinkNext(c.next, c.prev, c.cycle[j])
    ensures Ok(Fronted(c, j))
  {
    hide Recency, Listed, Coherent, Unique, Counted, Distinct, UnlinkNext, UnlinkPrev, PushNext, PushPrev, InsertAt,
      RemoveAt;
    FrontedListed(c, j);
    ListedDistinct(c);
    FrontedRecency(c.cycle, c.stamp, c.clock, j);
    var c' := Fronted(c, j);
    UniqueFrame(c, c');
    CoherentFrame(c, c');
    assert Counted(c') by { CountedFrame(c, c'); }
  }

  lemma ListedDistinct(c: Cache)
    requires Listed(c)
    ensures Distinct(c.cycle)
  {
    hide Linked;
  }

  lemma CountedFrame(c: Cache, c': Cache)
    requires Counted(c) && c'.buf == c.buf && c'.users == c.users && c'.pins == c.pins && c'.locked == c.locked
    ensures Counted(c')
  {}
}
