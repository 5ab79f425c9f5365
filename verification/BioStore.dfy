/** What the buffer cache is for: to whoever uses it, it is a store of blocks. The store is replayed from the operations
    alone, with neither list nor reference counts nor valid flags. */
module BioStore {
  import opened BufferList
  import opened Bio
  import opened BioCache

  /** Which block each buffer is for, who references, locks and changes it, pins, each block's latest contents and
      contents on disk, and the time each buffer was last given up. */
  datatype Store = Store(keys: map<nat, Key>, users: map<nat, multiset<nat>>, holder: map<nat, nat>,
                         work: map<nat, Block>, pins: map<nat, nat>, latest: map<Key, Block>, disk: map<Key, Block>,
                         idle: map<nat, int>, time: nat)

  function Target(e: Event): nat { if e.Get? then e.got else e.b }

  ghost predicate Fits(m: Store, e: Event) {
    var b := Target(e);
    && b in m.keys && b in m.users && b in m.pins
    && (e.Load? ==> m.keys[b] in m.latest)
    && (e.Write? || e.LogIt? ==> b in m.work)
    && (e.Unpin? ==> m.pins[b] > 0)
  }

  ghost function Next(m: Store, e: Event): (r: Store)
    requires Fits(m, e)
  {
    var b := Target(e);
    var t := m.(time := m.time + 1);
    match e
    case Get(p, k, _, _) => t.(keys := m.keys[b := k], users := m.users[b := m.users[b] + multiset{p}])
    case Load(p, _) => t.(holder := m.holder[b := p], work := m.work[b := m.latest[m.keys[b]]])
    case Change(_, data) => t.(work := m.work[b := data])
    case Write(_) => t.(latest := m.latest[m.keys[b] := m.work[b]], disk := m.disk[m.keys[b] := m.work[b]])
    case LogIt(_, absorbed) =>
      t.(latest := m.latest[m.keys[b] := m.work[b]], pins := m.pins[b := m.pins[b] + if absorbed then 0 else 1])
    case Unpin(_) => t.(pins := m.pins[b := m.pins[b] - 1])
    case Unlock(_) => t.(holder := m.holder - {b}, work := m.work - {b})
    case Drop(p, _, _) =>
      var left := m.users[b] - multiset{p};
      t.(users := m.users[b := left], idle := if |left| + m.pins[b] == 0 then m.idle[b := t.time] else m.idle)
  }

  /** The list has the buffers in the order in which they were given up, the last one first. */
  ghost predicate Ordered(cycle: seq<nat>, idle: map<nat, int>, time: nat) {
    && (forall i :: 1 <= i < |cycle| ==> cycle[i] in idle && idle[cycle[i]] <= time)
    && (forall i, j :: 1 <= i < j < |cycle| ==> idle[cycle[i]] > idle[cycle[j]])
  }

  ghost predicate Keyed(buf: map<nat, Buf>, keys: map<nat, Key>) {
    keys.Keys == buf.Keys && forall b :: b in buf ==> buf[b].key == keys[b]
  }

  /** The holder of a buffer sees its own changes. */
  ghost predicate Working(buf: map<nat, Buf>, locked: map<nat, nat>, work: map<nat, Block>) {
    && work.Keys == locked.Keys
    && forall b :: b in locked ==> b in buf && buf[b].valid && buf[b].data == work[b]
  }

  /** The cache shows what the store holds. */
  ghost predicate Agrees(c: Cache, m: Store) {
    && c.users == m.users && c.locked == m.holder && c.pins == m.pins && c.latest == m.latest && c.disk == m.disk
    && Keyed(c.buf, m.keys) && Working(c.buf, c.locked, m.work) && Ordered(c.cycle, m.idle, m.time)
  }

  lemma KeyedSet(buf: map<nat, Buf>, keys: map<nat, Key>, b: nat, x: Buf)
    requires Keyed(buf, keys) && b in buf
    ensures Keyed(buf[b := x], keys[b := x.key]) && (x.key == buf[b].key ==> Keyed(buf[b := x], keys))
  {
    if x.key == buf[b].key { assert keys[b := x.key] == keys; }
  }

  lemma WorkingSet(buf: map<nat, Buf>, locked: map<nat, nat>, work: map<nat, Block>, b: nat, x: Buf, p: nat)
    requires Working(buf, locked, work) && x.valid
    ensures Working(buf[b := x], locked[b := p], work[b := x.data])
  {}

  lemma WorkingSame(buf: map<nat, Buf>, locked: map<nat, nat>, work: map<nat, Block>, b: nat, x: Buf)
    requires Working(buf, locked, work) && b in buf && (b in locked ==> x.valid && x.data == buf[b].data)
    ensures Working(buf[b := x], locked, work) && Working(buf, locked - {b}, work - {b})
  {}

  lemma AgreesFits(c: Cache, m: Store, e: Event)
    requires Agrees(c, m) && Ok(c) && Enabled(c, e)
    ensures Fits(m, e) && Target(e) in c.buf
  {
    hide Ok, Counted, Ordered, Keyed, Working, Cached, Movable, Victim;
    DiskLatest(c);
    OkCounted(c);
    CountedAt(c, Target(e));
    KeyedAt(c.buf, m.keys, Target(e));
    WorkingAt(c.buf, c.locked, m.work, Target(e));
  }

  lemma OkCounted(c: Cache)
    requires Ok(c)
    ensures Counted(c)
  {
    hide Listed, Recency, Unique, Coherent, Counted;
  }

  lemma OrderedLater(cycle: seq<nat>, idle: map<nat, int>, time: nat)
    requires Ordered(cycle, idle, time)
    ensures Ordered(cycle, idle, time + 1)
  {}

  lemma KeyedAt(buf: map<nat, Buf>, keys: map<nat, Key>, b: nat)
    requires Keyed(buf, keys) && b in buf
    ensures b in keys && keys[b] == buf[b].key
  {}

  lemma WorkingAt(buf: map<nat, Buf>, locked: map<nat, nat>, work: map<nat, Block>, b: nat)
    requires Working(buf, locked, work)
    ensures b in locked ==> b in buf && buf[b].valid && b in work && buf[b].data == work[b]
  {}

  lemma HitAgrees(c: Cache, m: Store, p: nat, b: nat)
    requires Agrees(c, m) && b in c.buf && b in c.users && b in m.keys
    ensures m.keys[b] == c.buf[b].key
    ensures Agrees(Hit(c, b, p), m.(users := m.users[b := m.users[b] + multiset{p}], time := m.time + 1))
  {
    hide Ordered, Keyed, Working;
    OrderedLater(c.cycle, m.idle, m.time);
    KeyedAt(c.buf, m.keys, b);
    KeyedSet(c.buf, m.keys, b, Hit(c, b, p).buf[b]);
    WorkingAt(c.buf, c.locked, m.work, b);
    WorkingSame(c.buf, c.locked, m.work, b, Hit(c, b, p).buf[b]);
  }

  lemma RecycleAgrees(c: Cache, m: Store, p: nat, k: Key, b: nat)
    requires Agrees(c, m) && b in c.buf && b in c.users && b in m.keys && c.users[b] == multiset{} && b !in c.locked
    ensures Agrees(Recycle(c, b, k, p),
      m.(keys := m.keys[b := k], users := m.users[b := multiset{p}], time := m.time + 1))
  {
    hide Ordered, Keyed, Working;
    OrderedLater(c.cycle, m.idle, m.time);
    KeyedSet(c.buf, m.keys, b, Recycle(c, b, k, p).buf[b]);
    WorkingSame(c.buf, c.locked, m.work, b, Recycle(c, b, k, p).buf[b]);
  }

  lemma GetAgrees(c: Cache, m: Store, p: nat, k: Key, b: nat, j: nat)
    requires Agrees(c, m) && Ok(c) && Enabled(c, Get(p, k, b, j)) && Fits(m, Get(p, k, b, j))
    ensures Agrees(After(c, Get(p, k, b, j)), Next(m, Get(p, k, b, j)))
  {
    hide Ok, Agrees, Cached, Victim, Hit, Recycle;
    if Cached(c, k) {
      HitAgrees(c, m, p, b);
      assert m.keys[b := k] == m.keys;
    } else {
      AgreesUsers(c, m);
      GetUnused(c, p, k, b, j);
      RecycleAgrees(c, m, p, k, b);
      assert multiset{} + multiset{p} == multiset{p};
    }
  }

  lemma AgreesUsers(c: Cache, m: Store)
    requires Agrees(c, m)
    ensures c.users == m.users && c.pins == m.pins && c.latest == m.latest
  {}

  lemma GetUnused(c: Cache, p: nat, k: Key, b: nat, j: nat)
    requires Ok(c) && Enabled(c, Get(p, k, b, j)) && !Cached(c, k)
    ensures b in c.users && c.users[b] == multiset{} && b !in c.locked
  {
    hide Listed, Recency, Unique, Coherent, Cached;
    CountedAt(c, b);
  }

  lemma LoadAgrees(c: Cache, m: Store, p: nat, b: nat)
    requires Agrees(c, m) && Ok(c) && Enabled(c, Load(p, b)) && Fits(m, Load(p, b))
    ensures Agrees(After(c, Load(p, b)), Next(m, Load(p, b)))
  {
    hide Ok, Ordered, Keyed, Working, LockRead;
    LockReadOk(c, b, p);
    LockReadFields(c, b, p);
    OrderedLater(c.cycle, m.idle, m.time);
    var x := LockRead(c, b, p).buf[b];
    KeyedAt(c.buf, m.keys, b);
    KeyedSet(c.buf, m.keys, b, x);
    WorkingSet(c.buf, c.locked, m.work, b, x, p);
  }

  lemma LockReadFields(c: Cache, b: nat, p: nat)
    requires b in c.buf && c.buf[b].key in c.disk
    ensures var d := LockRead(c, b, p);
      && b in d.buf && d == c.(locked := c.locked[b := p], buf := c.buf[b := d.buf[b]])
      && d.buf[b].valid && d.buf[b].key == c.buf[b].key
  {}

  lemma ChangeAgrees(c: Cache, m: Store, b: nat, data: Block)
    requires Agrees(c, m) && Enabled(c, Change(b, data)) && Fits(m, Change(b, data))
    ensures Agrees(After(c, Change(b, data)), Next(m, Change(b, data)))
  {
    hide Ordered, Keyed, Working;
    var x := c.buf[b].(data := data);
    OrderedLater(c.cycle, m.idle, m.time);
    KeyedSet(c.buf, m.keys, b, x);
    WorkingAt(c.buf, c.locked, m.work, b);
    WorkingSet(c.buf, c.locked, m.work, b, x, c.locked[b]);
    assert c.locked[b := c.locked[b]] == c.locked;
  }

  lemma WriteAgrees(c: Cache, m: Store, b: nat)
    requires Agrees(c, m) && Enabled(c, Write(b)) && Fits(m, Write(b))
    ensures Agrees(After(c, Write(b)), Next(m, Write(b)))
  {
    hide Ordered, Keyed, Working;
    OrderedLater(c.cycle, m.idle, m.time);
    KeyedAt(c.buf, m.keys, b);
    WorkingAt(c.buf, c.locked, m.work, b);
  }

  lemma LogAgrees(c: Cache, m: Store, b: nat, absorbed: bool)
    requires Agrees(c, m) && Enabled(c, LogIt(b, absorbed)) && Fits(m, LogIt(b, absorbed))
    ensures Agrees(After(c, LogIt(b, absorbed)), Next(m, LogIt(b, absorbed)))
  {
    hide Ordered, Keyed, Working;
    OrderedLater(c.cycle, m.idle, m.time);
    var x := c.buf[b].(refcnt := c.buf[b].refcnt + if absorbed then 0 else 1);
    KeyedAt(c.buf, m.keys, b);
    WorkingAt(c.buf, c.locked, m.work, b);
    KeyedSet(c.buf, m.keys, b, x);
    WorkingSame(c.buf, c.locked, m.work, b, x);
  }

  lemma UnpinAgrees(c: Cache, m: Store, b: nat)
    requires Agrees(c, m) && Enabled(c, Unpin(b)) && Fits(m, Unpin(b))
    ensures Agrees(After(c, Unpin(b)), Next(m, Unpin(b)))
  {
    hide Ordered, Keyed, Working;
    OrderedLater(c.cycle, m.idle, m.time);
    var x := c.buf[b].(refcnt := c.buf[b].refcnt - 1);
    WorkingAt(c.buf, c.locked, m.work, b);
    KeyedSet(c.buf, m.keys, b, x);
    WorkingSame(c.buf, c.locked, m.work, b, x);
  }

  lemma UnlockAgrees(c: Cache, m: Store, b: nat)
    requires Agrees(c, m) && Enabled(c, Unlock(b)) && Fits(m, Unlock(b))
    ensures Agrees(After(c, Unlock(b)), Next(m, Unlock(b)))
  {
    hide Ordered, Keyed, Working;
    OrderedLater(c.cycle, m.idle, m.time);
    WorkingAt(c.buf, c.locked, m.work, b);
    WorkingSame(c.buf, c.locked, m.work, b, c.buf[b]);
  }

  lemma FrontOrdered(cycle: seq<nat>, idle: map<nat, int>, time: nat, j: nat)
    requires Ordered(cycle, idle, time) && 1 <= j < |cycle| && Distinct(cycle)
    ensures Ordered(InsertAt(RemoveAt(cycle, j), 0, cycle[j]), idle[cycle[j] := time + 1], time + 1)
  {
    hide InsertAt, RemoveAt;
    var r := InsertAt(RemoveAt(cycle, j), 0, cycle[j]);
    forall i | 2 <= i < |r| ensures r[i] == cycle[if i <= j then i - 1 else i] && r[i] != cycle[j] {
      DistinctAt(cycle, if i <= j then i - 1 else i, j);
    }
  }

  /** The count of a buffer, and the last reference to it. */
  lemma LastReference(c: Cache, p: nat, b: nat)
    requires Ok(c) && b in c.users && p in c.users[b] && b in c.buf
    ensures b in c.pins && (c.buf[b].refcnt == 1 <==> |c.users[b] - multiset{p}| + c.pins[b] == 0)
  {
    hide Listed, Recency, Unique, Coherent;
    CountedAt(c, b);
    assert |c.users[b] - multiset{p}| == |c.users[b]| - 1;
  }

  lemma DropFields(c: Cache, p: nat, b: nat, j: nat)
    requires Enabled(c, Drop(p, b, j))
    ensures var d := After(c, Drop(p, b, j));
      && d == Dropped(c, b, p).(next := d.next, prev := d.prev, cycle := d.cycle, clock := d.clock, stamp := d.stamp)
      && d.cycle == if c.buf[b].refcnt == 1 then InsertAt(RemoveAt(c.cycle, j), 0, b) else c.cycle
  {
    hide UnlinkNext, UnlinkPrev, PushNext, PushPrev, InsertAt, RemoveAt, Dropped;
    assert Dropped(c, b, p).cycle == c.cycle by { DroppedCycle(c, b, p); }
  }

  lemma DroppedCycle(c: Cache, b: nat, p: nat)
    requires b in c.buf && b in c.users && c.buf[b].refcnt > 0
    ensures Dropped(c, b, p).cycle == c.cycle
  {}

  lemma OkDistinct(c: Cache)
    requires Ok(c)
    ensures Distinct(c.cycle)
  {
    hide Recency, Counted, Unique, Coherent, Linked;
  }

  lemma DropOrdered(c: Cache, m: Store, p: nat, b: nat, j: nat)
    requires Agrees(c, m) && Ok(c) && Enabled(c, Drop(p, b, j)) && Fits(m, Drop(p, b, j))
    ensures var n := Next(m, Drop(p, b, j)); Ordered(After(c, Drop(p, b, j)).cycle, n.idle, n.time)
  {
    hide Ok, Ordered, Keyed, Working, Distinct, After, Movable, InsertAt, RemoveAt;
    LastReference(c, p, b);
    OkDistinct(c);
    DropFields(c, p, b, j);
    if c.buf[b].refcnt == 1 {
      assert 1 <= j < |c.cycle| && c.cycle[j] == b by { MovableAt(c, j); }
      FrontOrdered(c.cycle, m.idle, m.time, j);
    } else {
      OrderedLater(c.cycle, m.idle, m.time);
    }
  }

  lemma MovableAt(c: Cache, j: nat)
    requires Movable(c, j)
    ensures 1 <= j < |c.cycle|
  {}

  lemma DropAgrees(c: Cache, m: Store, p: nat, b: nat, j: nat)
    requires Agrees(c, m) && Ok(c) && Enabled(c, Drop(p, b, j)) && Fits(m, Drop(p, b, j))
    ensures Agrees(After(c, Drop(p, b, j)), Next(m, Drop(p, b, j)))
  {
    hide Ok, Ordered, Keyed, Working, Distinct, After, Movable;
    DropOrdered(c, m, p, b, j);
    DropFields(c, p, b, j);
    var x := c.buf[b].(refcnt := c.buf[b].refcnt - 1);
    KeyedSet(c.buf, m.keys, b, x);
    WorkingAt(c.buf, c.locked, m.work, b);
    WorkingSame(c.buf, c.locked, m.work, b, x);
  }

  /** Every operation does to the cache what it does to the store. */
  lemma StepAgrees(c: Cache, m: Store, e: Event)
    requires Agrees(c, m) && Ok(c) && Enabled(c, e)
    ensures Fits(m, e) && Agrees(After(c, e), Next(m, e))
  {
    hide Ok, Enabled, After, Agrees, Next, Fits;
    AgreesFits(c, m, e);
    match e {
      case Get(p, k, b, j) => GetAgrees(c, m, p, k, b, j);
      case Load(p, b) => LoadAgrees(c, m, p, b);
      case Change(b, data) => ChangeAgrees(c, m, b, data);
      case Write(b) => WriteAgrees(c, m, b);
      case LogIt(b, absorbed) => LogAgrees(c, m, b, absorbed);
      case Unpin(b) => UnpinAgrees(c, m, b);
      case Unlock(b) => UnlockAgrees(c, m, b);
      case Drop(p, b, j) => DropAgrees(c, m, p, b, j);
    }
  }

  /** The store after a run of operations. */
  ghost function Replay(m: Store, events: seq<Event>): (r: Store) {
    if events == [] then m else
      var n := Replay(m, events[..|events| - 1]);
      var e := events[|events| - 1];
      if Fits(n, e) then Next(n, e) else n
  }

  /** What the store is before anything was done with the cache. */
  ghost function Fresh(c: Cache): (m: Store) {
    Store(map b | b in c.buf :: c.buf[b].key, c.users, map[], map[], c.pins, c.disk, c.disk,
          map b | b in c.stamp :: c.stamp[b] - c.clock, 0)
  }

  lemma FreshAgrees(c: Cache)
    requires Ok(c) && c.locked == map[] && c.latest == c.disk
    ensures Agrees(c, Fresh(c))
  {
    hide Listed, Counted, Unique, Coherent;
  }

  /** The cache is transparent: after any run, what each block was last written as, what is on disk, who holds what,
      what a holder sees of its own changes, and the order of the list, are those of the store. */
  lemma {:induction false} Transparent(states: seq<Cache>, events: seq<Event>, i: nat)
    requires IsRun(states, events) && Ok(states[0]) && states[0].locked == map[] && states[0].latest == states[0].disk
    requires i < |states|
    ensures Agrees(states[i], Replay(Fresh(states[0]), events[..i]))
  {
    hide Ok, Enabled, After, Agrees, Next, Fits, Fresh;
    if i == 0 {
      FreshAgrees(states[0]);
    } else {
      Transparent(states, events, i - 1);
      RunOk(states, events, i - 1);
      assert events[..i][..i - 1] == events[..i - 1];
      StepAgrees(states[i - 1], Replay(Fresh(states[0]), events[..i - 1]), events[i - 1]);
    }
  }
}
