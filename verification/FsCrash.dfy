/** A crash in the middle of filewrite: the transactions kernel/file.c makes, over the log of kernel/log.c. */
module FsCrash {
  import L = Log
  import opened FsBits
  import opened Fs
  import opened FsFile
  import opened FsDisk

  /** What is in one block of the disk. */
  datatype Content = Data(data: Block) | FreeMap(bits: BitBlock) | Inodes(inodes: map<nat, Inode>) | Other

  ghost function InodesAt(d: Disk, b: nat): map<nat, Inode> {
    map i | i in d.inodes && d.sb.inodestart + i / 16 == b :: d.inodes[i]
  }

  ghost function ContentAt(d: Disk, b: nat): Content {
    if d.sb.datastart <= b < d.sb.size && b in d.blocks then Data(d.blocks[b])
    else if d.sb.bmapstart <= b < d.sb.bmapstart + |d.bits| then FreeMap(d.bits[b - d.sb.bmapstart])
    else if d.sb.inodestart <= b < d.sb.bmapstart then Inodes(InodesAt(d, b))
    else Other
  }

  /** The order mkfs lays a disk out in: the log, the inodes, the free map, the data. */
  ghost predicate Placed(l: L.Layout, d: Disk) {
    && l.Valid() && l.start + l.size <= d.sb.inodestart <= d.sb.bmapstart && d.sb.bmapstart + |d.bits| <= d.sb.datastart
    && d.sb.size == l.total && forall i :: i in d.inodes ==> d.sb.inodestart + i / 16 < d.sb.bmapstart
  }

  /** The blocks after the log hold d, but for spare, in some encoding of the contents of a block. */
  ghost predicate Holds(l: L.Layout, enc: Content -> L.Block, disk: seq<L.Block>, d: Disk, spare: set<nat>) {
    |disk| == l.total && forall b :: l.start + l.size <= b < l.total && b !in spare ==> disk[b] == enc(ContentAt(d, b))
  }

  /** tx is the transaction of an operation, in whatever order it logged its blocks. */
  ghost predicate Commits(enc: Content -> L.Block, tx: L.Tx, op: Op) {
    && |tx.blocks| == |tx.data| && (forall i, j :: 0 <= i < j < |tx.blocks| ==> tx.blocks[i] != tx.blocks[j])
    && (forall b :: b in op.logged <==> b in tx.blocks)
    && (forall i :: 0 <= i < |tx.blocks| ==> tx.data[i] == enc(ContentAt(op.after, tx.blocks[i])))
  }

  lemma {:induction false} DistinctSize(s: seq<nat>, t: set<nat>)
    requires (forall i, j :: 0 <= i < j < |s| ==> s[i] != s[j]) && forall b :: b in t <==> b in s
    ensures |s| == |t|
  {
    if s == [] {
      assert t == {};
    } else {
      var n := |s| - 1;
      assert s == s[..n] + [s[n]];
      DistinctSize(s[..n], t - {s[n]});
    }
  }

  lemma HomePlace(l: L.Layout, d: Disk, b: nat)
    requires Placed(l, d) && Shape(d) && InHome(d, b)
    ensures l.start + l.size <= b < l.total
  {}

  /** The log takes the transaction of an operation of the file system. */
  lemma CommitsValid(l: L.Layout, enc: Content -> L.Block, tx: L.Tx, op: Op)
    requires Commits(enc, tx, op) && Placed(l, op.after) && Shape(op.after) && Homed(op.after, op.logged) &&
      |op.logged| <= MAXOPBLOCKS < l.size
    ensures tx.Valid(l)
  {
    hide Placed, Shape, InHome, ContentAt;
    DistinctSize(tx.blocks, op.logged);
    forall i | 0 <= i < |tx.blocks|
      ensures tx.blocks[i] < l.total && !l.InLog(tx.blocks[i]) { HomePlace(l, op.after, tx.blocks[i]); }
  }

  lemma PlacedAfter(l: L.Layout, d: Disk, e: Disk, inum: nat, logged: set<nat>, spare: set<nat>)
    requires Placed(l, d) && Txn(d, e, inum, logged, spare)
    ensures Placed(l, e)
  {
    hide Homed;
  }

  /** A block an operation did not log holds what it held. */
  lemma SameContent(d: Disk, e: Disk, inum: nat, logged: set<nat>, spare: set<nat>, b: nat)
    requires Shape(d) && Shape(e) && Txn(d, e, inum, logged, spare) && b !in logged && b !in spare
    ensures ContentAt(e, b) == ContentAt(d, b)
  {
    hide Homed;
    assert InodesAt(e, b) == InodesAt(d, b);
  }

  /** Installing the transaction of an operation turns a disk that holds the state before into one that holds the state
      after. */
  lemma Installs(l: L.Layout, enc: Content -> L.Block, disk: seq<L.Block>, d: Disk, op: Op, tx: L.Tx, inum: nat,
                 spare: set<nat>)
    requires Shape(d) && Shape(op.after) && Holds(l, enc, disk, d, {}) && Txn(d, op.after, inum, op.logged, spare) &&
      Commits(enc, tx, op) && tx.Valid(l)
    ensures Holds(l, enc, L.Apply(disk, L.HomeWrites(tx)), op.after, spare)
  {
    var ws := L.HomeWrites(tx);
    hide ContentAt, Txn, Shape, L.Apply;
    forall b | l.start + l.size <= b < l.total && b !in spare
      ensures L.Apply(disk, ws)[b] == enc(ContentAt(op.after, b)) {
      if i :| 0 <= i < |tx.blocks| && tx.blocks[i] == b {
        L.ApplyLands(disk, ws, i);
      } else {
        L.ApplySkips(disk, ws, b);
        SameContent(d, op.after, inum, op.logged, spare, b);
      }
    }
  }

  /** A write: its transactions, as Filewrite leaves them, and what the log is given for each. */
  datatype Written = Written(d: Disk, inum: nat, off: nat, src: seq<byte>, ops: seq<Op>, seen: nat, spare: set<nat>,
    txs: seq<L.Tx>) {
    ghost predicate Valid(l: L.Layout, enc: Content -> L.Block) {
      && Ok(d) && HoleFree(d, inum) && Runs(d, inum, off, src, ops, seen, spare)
      && Placed(l, d) && MAXOPBLOCKS < l.size && |txs| == |ops| &&
        forall j :: 0 <= j < |ops| ==> Commits(enc, txs[j], ops[j])
    }

    /** The disk after j of the transactions, and how many bytes are in place by then. */
    ghost function State(j: nat): Disk
      requires j <= |ops|
    {
      Before(d, ops, j)
    }

    ghost function Bytes(j: nat): nat { if 0 < j == |ops| then seen else 3072 * j }

    ghost function Spare(j: nat): set<nat> { if 0 < j == |ops| then spare else {} }
  }

  /** After any number of its transactions the file system is as it should be, and a prefix of the source is in the
      file. */
  lemma {:induction false} StateOk(w: Written, l: L.Layout, enc: Content -> L.Block, j: nat)
    requires w.Valid(l, enc) && j <= |w.ops|
    ensures Reached(w.d, w.State(j), w.inum, w.off, w.src, w.Bytes(j)) && Placed(l, w.State(j))
  {
    hide Ok, HoleFree, Spliced, Txn, Placed, Commits;
    if j == 0 {
      SplicedNone(w.d, w.inum, w.off, w.src);
    } else {
      StateOk(w, l, enc, j - 1);
      assert RunsAt(w.d, w.inum, w.off, w.src, w.ops, w.seen, w.spare, j - 1);
      PlacedAfter(l, w.State(j - 1), w.State(j), w.inum, w.ops[j - 1].logged, w.Spare(j));
    }
  }

  lemma StateAfter(w: Written, j: nat)
    requires j < |w.ops|
    ensures w.State(j + 1) == w.ops[j].after
  {}

  lemma TxValid(w: Written, l: L.Layout, enc: Content -> L.Block, j: nat)
    requires w.Valid(l, enc) && j < |w.ops|
    ensures w.txs[j].Valid(l) && Commits(enc, w.txs[j], w.ops[j]) && Shape(w.State(j)) && Shape(w.State(j + 1))
    ensures Txn(w.State(j), w.ops[j].after, w.inum, w.ops[j].logged, w.Spare(j + 1))
  {
    StateOk(w, l, enc, j);
    StateOk(w, l, enc, j + 1);
    hide HoleFree, Spliced, Placed, Commits, Once, Linked, Mapped, Homed, KeepsWhole, Logs;
    assert RunsAt(w.d, w.inum, w.off, w.src, w.ops, w.seen, w.spare, j);
    CommitsValid(l, enc, w.txs[j], w.ops[j]);
  }

  /** The first j transactions of a write, undisturbed. */
  ghost function Done(txs: seq<L.Tx>, j: nat): (es: seq<L.Event>)
    requires j <= |txs|
    ensures |es| == j && forall i :: 0 <= i < j ==> es[i] == L.Commit(txs[i])
  {
    seq(j, i requires 0 <= i < j => L.Commit(txs[i]))
  }

  lemma DoneValid(w: Written, l: L.Layout, enc: Content -> L.Block, j: nat)
    requires w.Valid(l, enc) && j <= |w.ops|
    ensures forall e :: e in Done(w.txs, j) ==> e.tx.Valid(l)
  {
    hide Runs, Placed, Ok, Commits, Shape, Txn, Done;
    forall e | e in Done(w.txs, j) ensures e.tx.Valid(l) {
      var i :| 0 <= i < j && e == Done(w.txs, j)[i];
      TxValid(w, l, enc, i);
    }
  }

  lemma IdealNone(l: L.Layout, disk: seq<L.Block>)
    requires |disk| == l.total
    ensures L.Ideal(l, disk, []) == disk
  {}

  lemma IdealStep(l: L.Layout, disk: seq<L.Block>, es: seq<L.Event>, e: L.Event)
    requires |disk| == l.total && (forall x :: x in es ==> x.tx.Valid(l)) && e.tx.Valid(l)
    ensures var i := L.Ideal(l, disk, es);
      L.Ideal(l, disk, es + [e]) == if e.Crash? && !L.Committed(e.tx, e.k) then i else L.Apply(i, L.HomeWrites(e.tx))
  {
    hide L.Apply, L.HomeWrites;
    assert (es + [e])[..|es|] == es;
  }

  lemma {:induction false} IdealHolds(w: Written, l: L.Layout, enc: Content -> L.Block, disk: seq<L.Block>, j: nat)
    requires w.Valid(l, enc) && Holds(l, enc, disk, w.d, {}) && j <= |w.ops|
    ensures (forall e :: e in Done(w.txs, j) ==> e.tx.Valid(l)) &&
      Holds(l, enc, L.Ideal(l, disk, Done(w.txs, j)), w.State(j), w.Spare(j))
  {
    assert |w.txs| == |w.ops| && l.total == |disk| && l.Valid();
    hide w.Valid, Holds, L.Apply, L.Ideal, Shape, Txn, Commits, Before, Done;
    DoneValid(w, l, enc, j);
    if j == 0 {
      assert Done(w.txs, 0) == [];
      IdealNone(l, disk);
    } else {
      IdealHolds(w, l, enc, disk, j - 1);
      TxValid(w, l, enc, j - 1);
      assert Done(w.txs, j) == Done(w.txs, j - 1) + [L.Commit(w.txs[j - 1])];
      IdealStep(l, disk, Done(w.txs, j - 1), L.Commit(w.txs[j - 1]));
      Installs(l, enc, L.Ideal(l, disk, Done(w.txs, j - 1)), w.State(j - 1), w.ops[j - 1], w.txs[j - 1], w.inum,
        w.Spare(j));
    }
  }

  /** The write and a crash: the first j transactions commit, and the machine stops after k block writes of the next
      one; then any number of recoveries, each cut anywhere, and one that completes. */
  ghost function Crashed(txs: seq<L.Tx>, j: nat, k: nat, crashes: seq<nat>): (es: seq<L.Event>)
    requires j < |txs|
  {
    Done(txs, j) + [L.Crash(txs[j], k, crashes)]
  }

  /** How many transactions of the write survive the crash. */
  function Surviving(txs: seq<L.Tx>, j: nat, k: nat): nat
    requires j < |txs|
  {
    if L.Committed(txs[j], k) then j + 1 else j
  }

  lemma CrashedValid(w: Written, l: L.Layout, enc: Content -> L.Block, disk: seq<L.Block>, j: nat, k: nat,
                     crashes: seq<nat>)
    requires w.Valid(l, enc) && Holds(l, enc, disk, w.d, {}) && j < |w.ops|
    ensures forall e :: e in Crashed(w.txs, j, k, crashes) ==> e.tx.Valid(l)
    ensures Holds(l, enc, L.Ideal(l, disk, Crashed(w.txs, j, k, crashes)), w.State(Surviving(w.txs, j, k)),
      w.Spare(Surviving(w.txs, j, k)))
  {
    assert |w.txs| == |w.ops| && l.total == |disk| && l.Valid();
    hide w.Valid, Holds, L.Apply, L.Ideal, Shape, Txn, Commits, Before, Done;
    IdealHolds(w, l, enc, disk, j);
    TxValid(w, l, enc, j);
    IdealStep(l, disk, Done(w.txs, j), L.Crash(w.txs[j], k, crashes));
    if L.Committed(w.txs[j], k) {
      Installs(l, enc, L.Ideal(l, disk, Done(w.txs, j)), w.State(j), w.ops[j], w.txs[j], w.inum, w.Spare(j + 1));
      assert w.State(j + 1) == w.ops[j].after by { StateAfter(w, j); }
    }
  }

  lemma SameHomeHolds(l: L.Layout, enc: Content -> L.Block, a: seq<L.Block>, b: seq<L.Block>, d: Disk, spare: set<nat>)
    requires L.SameHome(l, a, b) && Holds(l, enc, b, d, spare)
    ensures Holds(l, enc, a, d, spare)
  {}

  /** filewrite and crashes. Wherever in a write the machine stops, and however often recovery is interrupted, the disk
      holds the state after a whole number of the write's transactions: those whose commit was reached. In that state
      every block has its owner, no file has lost a byte or gained a hole, and exactly the first bytes of the source are
      in the file, 3072 for each transaction but the last. */
  lemma WriteSurvivesCrash(w: Written, l: L.Layout, enc: Content -> L.Block, disk: seq<L.Block>, j: nat, k: nat,
                           crashes: seq<nat>)
    requires w.Valid(l, enc) && L.Clean(l, disk) && Holds(l, enc, disk, w.d, {}) && j < |w.ops|
    ensures forall e :: e in Crashed(w.txs, j, k, crashes) ==> e.tx.Valid(l)
    ensures var m, r := Surviving(w.txs, j, k), L.Run(l, disk, Crashed(w.txs, j, k, crashes));
      && L.Clean(l, r) && Holds(l, enc, r, w.State(m), w.Spare(m))
      && Reached(w.d, w.State(m), w.inum, w.off, w.src, w.Bytes(m))
  {
    CrashedValid(w, l, enc, disk, j, k, crashes);
    var m, es := Surviving(w.txs, j, k), Crashed(w.txs, j, k, crashes);
    L.RunIsAtomic(l, disk, es);
    SameHomeHolds(l, enc, L.Run(l, disk, es), L.Ideal(l, disk, es), w.State(m), w.Spare(m));
    StateOk(w, l, enc, m);
  }

  /** Undisturbed, the disk ends up holding the state in memory, but for the bytes a faulting source left unlogged. */
  lemma WriteReachesDisk(w: Written, l: L.Layout, enc: Content -> L.Block, disk: seq<L.Block>)
    requires w.Valid(l, enc) && L.Clean(l, disk) && Holds(l, enc, disk, w.d, {})
    ensures forall e :: e in Done(w.txs, |w.txs|) ==> e.tx.Valid(l)
    ensures var n, r := |w.ops|, L.Run(l, disk, Done(w.txs, |w.txs|));
      L.Clean(l, r) && Holds(l, enc, r, w.State(n), w.Spare(n)) &&
        Reached(w.d, w.State(n), w.inum, w.off, w.src, w.Bytes(n))
  {
    var n, es := |w.ops|, Done(w.txs, |w.txs|);
    IdealHolds(w, l, enc, disk, n);
    L.RunIsAtomic(l, disk, es);
    SameHomeHolds(l, enc, L.Run(l, disk, es), L.Ideal(l, disk, es), w.State(n), w.Spare(n));
    StateOk(w, l, enc, n);
  }

  /** What filewrite does is such a write, in whatever order its transactions list their blocks. */
  method FilewriteSurvives(fs: FileSystem, inum: nat, src: seq<byte>, off: nat, n: nat, ghost l: L.Layout,
                           ghost enc: Content -> L.Block)
    returns (ret: int, off': nat, ghost w: Written)
    requires Ok(fs.View()) && HoleFree(fs.View(), inum) && |src| <= n < 0x8000_0000 && off < 0x1_0000_0000
    requires Placed(l, fs.View()) && MAXOPBLOCKS < l.size
    modifies fs
    ensures w.d == old(fs.View()) && w.State(|w.ops|) == fs.View() && w.inum == inum && w.off == off && w.src == src &&
      w.txs == []
    ensures ret == (if off' == off + n then n else -1) && off' - off <= w.seen &&
      (ret == n ==> w.seen == n && w.spare == {})
    ensures forall txs :: |txs| == |w.ops| && (forall j :: 0 <= j < |txs| ==> Commits(enc, txs[j], w.ops[j])) ==>
      w.(txs := txs).Valid(l, enc)
  {
    hide Ok, HoleFree, Runs, Placed, Logs, Spliced, KeepsWhole, Union, EachFits, Rounds;
    ghost var d := fs.View();
    ghost var seen, spare, mine;
    ret, off', seen, spare, mine := fs.Filewrite(inum, src, off, n);
    w := Written(d, inum, off, src, mine, seen, spare, []);
  }
}
