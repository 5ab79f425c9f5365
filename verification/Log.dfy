/** The write-ahead log of kernel/log.c: which single-block writes a commit and a
    recovery issue, and what is on disk after a crash between any two of them. */
module Log {

  /** MAXOPBLOCKS * 3 (kernel/param.h). */
  const LOGSIZE: nat := 30

  /** BSIZE bytes seen as 32-bit words, the granularity of the log header. */
  const WORDS: nat := 256

  type Block = b: seq<nat> | |b| == WORDS witness seq(WORDS, i => 0)

  datatype Write = Write(addr: nat, data: Block)

  ghost predicate Fits(total: nat, ws: seq<Write>) { forall i :: 0 <= i < |ws| ==> ws[i].addr < total }

  /** The disk after a sequence of single-block writes. */
  ghost function Apply(disk: seq<Block>, ws: seq<Write>): (r: seq<Block>)
    requires Fits(|disk|, ws)
    ensures |r| == |disk|
    decreases |ws|
  {
    if ws == [] then disk else Apply(disk[ws[0].addr := ws[0].data], ws[1..])
  }

  /** Block numbers recorded in the header block, as read_head decodes them. */
  function HeadBlocks(head: Block): (bs: seq<nat>)
    requires head[0] <= LOGSIZE
  {
    head[1..head[0] + 1]
  }

  /** The header block as write_head encodes it: words past the n-th keep what the buffer held. */
  function Head(old_: Block, bs: seq<nat>): (h: Block)
    requires |bs| <= LOGSIZE
    ensures h[0] == |bs| && HeadBlocks(h) == bs
    ensures forall i :: |bs| < i < WORDS ==> h[i] == old_[i]
  {
    [|bs|] + bs + old_[|bs| + 1..]
  }

  /** Where the log lies on a disk of a given number of blocks. */
  datatype Layout = Layout(start: nat, size: nat, total: nat) {
    ghost predicate Valid() { start + size <= total && 0 < size }
    predicate InLog(b: nat) { start <= b < start + size }
  }

  /** A transaction: the logged block numbers and the contents to give them. */
  datatype Tx = Tx(blocks: seq<nat>, data: seq<Block>) {
    /** What log_write guarantees: it fits in the header and in the log, no duplicates, and only blocks outside the log
        area. */
    ghost predicate Valid(l: Layout) {
      && |blocks| == |data| <= LOGSIZE && |blocks| < l.size
      && (forall i :: 0 <= i < |blocks| ==> blocks[i] < l.total && !l.InLog(blocks[i]))
      && (forall i, j :: 0 <= i < j < |blocks| ==> blocks[i] != blocks[j])
    }
  }

  function LogWrites(l: Layout, tx: Tx): (ws: seq<Write>)
    requires |tx.blocks| == |tx.data|
    ensures |ws| == |tx.blocks|
    ensures forall i :: 0 <= i < |ws| ==> ws[i] == Write(l.start + 1 + i, tx.data[i])
  {
    seq(|tx.blocks|, i requires 0 <= i < |tx.data| => Write(l.start + 1 + i, tx.data[i]))
  }

  /** The transaction's contents, written straight to their home blocks. */
  function HomeWrites(tx: Tx): (ws: seq<Write>)
    requires |tx.blocks| == |tx.data|
    ensures |ws| == |tx.blocks|
    ensures forall i :: 0 <= i < |ws| ==> ws[i] == Write(tx.blocks[i], tx.data[i])
  {
    seq(|tx.blocks|, i requires 0 <= i < |tx.blocks| => Write(tx.blocks[i], tx.data[i]))
  }

  function InstallWrites(l: Layout, disk: seq<Block>, bs: seq<nat>): (ws: seq<Write>)
    requires l.start + |bs| < |disk|
    ensures |ws| == |bs|
    ensures forall i :: 0 <= i < |ws| ==> ws[i] == Write(bs[i], disk[l.start + 1 + i])
  {
    seq(|bs|, i requires 0 <= i < |bs| => Write(bs[i], disk[l.start + 1 + i]))
  }

  /** The writes recovery issues on a disk: install what the header lists, then clear the header. */
  function RecoverWrites(l: Layout, disk: seq<Block>): (ws: seq<Write>)
    requires l.Valid() && |disk| == l.total && disk[l.start][0] <= LOGSIZE && disk[l.start][0] < l.size
  {
    InstallWrites(l, disk, HeadBlocks(disk[l.start])) + [Write(l.start, Head(disk[l.start], []))]
  }

  /** The writes commit() issues: log, header, home locations, cleared header. */
  function CommitWrites(l: Layout, disk: seq<Block>, tx: Tx): (ws: seq<Write>)
    requires l.Valid() && |disk| == l.total && |tx.blocks| == |tx.data| <= LOGSIZE
  {
    if tx.blocks == [] then [] else
      var head := Head(disk[l.start], tx.blocks);
      LogWrites(l, tx) + [Write(l.start, head)]
      + HomeWrites(tx)
      + [Write(l.start, Head(head, []))]
  }

  // ---------------------------------------------------------------- replaying writes

  lemma {:induction false} ApplyConcat(disk: seq<Block>, a: seq<Write>, b: seq<Write>)
    requires Fits(|disk|, a) && Fits(|disk|, b)
    ensures Apply(disk, a + b) == Apply(Apply(disk, a), b)
    decreases |a|
  {
    if a == [] {
      assert a + b == b;
    } else {
      assert (a + b)[1..] == a[1..] + b;
      ApplyConcat(disk[a[0].addr := a[0].data], a[1..], b);
    }
  }

  lemma ApplyOne(disk: seq<Block>, w: Write)
    requires w.addr < |disk|
    ensures Fits(|disk|, [w]) && Apply(disk, [w]) == disk[w.addr := w.data]
  {}

  lemma {:induction false} ApplySkips(disk: seq<Block>, ws: seq<Write>, a: nat)
    requires a < |disk| && Fits(|disk|, ws) && forall i :: 0 <= i < |ws| ==> ws[i].addr != a
    ensures Apply(disk, ws)[a] == disk[a]
    decreases |ws|
  {
    if ws != [] { ApplySkips(disk[ws[0].addr := ws[0].data], ws[1..], a); }
  }

  lemma {:induction false} ApplyLands(disk: seq<Block>, ws: seq<Write>, i: nat)
    requires i < |ws| && Fits(|disk|, ws)
    requires forall j :: i < j < |ws| ==> ws[j].addr != ws[i].addr
    ensures Apply(disk, ws)[ws[i].addr] == ws[i].data
    decreases |ws|
  {
    var disk' := disk[ws[0].addr := ws[0].data];
    if i == 0 { ApplySkips(disk', ws[1..], ws[0].addr); } else { ApplyLands(disk', ws[1..], i - 1); }
  }

  // ---------------------------------------------------------------- crash states

  /** The log is empty: recovery would install nothing. */
  ghost predicate Clean(l: Layout, disk: seq<Block>) {
    l.Valid() && |disk| == l.total && disk[l.start][0] == 0
  }

  /** Same contents everywhere outside the log area. */
  ghost predicate SameHome(l: Layout, a: seq<Block>, b: seq<Block>) {
    |a| == |b| && forall i :: 0 <= i < |a| && !l.InLog(i) ==> a[i] == b[i]
  }

  /** The home blocks a transaction asks for. */
  ghost predicate Installed(l: Layout, before: seq<Block>, tx: Tx, disk: seq<Block>)
    requires tx.Valid(l) && |before| == l.total
  {
    && |disk| == l.total
    && (forall i :: 0 <= i < |tx.blocks| ==> disk[tx.blocks[i]] == tx.data[i])
    && (forall b :: 0 <= b < l.total && !l.InLog(b) && b !in tx.blocks ==> disk[b] == before[b])
  }

  /** The header names the transaction and the log holds its data; the named home blocks may hold anything. */
  ghost predicate Logged(l: Layout, before: seq<Block>, tx: Tx, disk: seq<Block>)
    requires l.Valid() && tx.Valid(l) && |before| == l.total
  {
    && |disk| == l.total
    && disk[l.start][0] <= LOGSIZE && HeadBlocks(disk[l.start]) == tx.blocks
    && (forall i :: 0 <= i < |tx.blocks| ==> disk[l.start + 1 + i] == tx.data[i])
    && (forall b :: 0 <= b < l.total && !l.InLog(b) && b !in tx.blocks ==> disk[b] == before[b])
  }

  ghost predicate Durable(l: Layout, before: seq<Block>, tx: Tx, disk: seq<Block>)
    requires l.Valid() && tx.Valid(l) && |before| == l.total
  {
    Logged(l, before, tx, disk) || (Clean(l, disk) && Installed(l, before, tx, disk))
  }

  /** Installing part of a logged transaction leaves it logged. */
  lemma InstallSome(l: Layout, before: seq<Block>, tx: Tx, disk: seq<Block>, k: nat)
    requires l.Valid() && tx.Valid(l) && |before| == l.total && Logged(l, before, tx, disk)
    requires k <= |tx.blocks|
    ensures Fits(|disk|, HomeWrites(tx)[..k])
    ensures Logged(l, before, tx, Apply(disk, HomeWrites(tx)[..k]))
  {
    hide Apply, HeadBlocks;
    var p := HomeWrites(tx)[..k];
    forall b | 0 <= b < l.total && b !in tx.blocks ensures Apply(disk, p)[b] == disk[b] {
      ApplySkips(disk, p, b);
    }
    forall b | l.InLog(b) ensures b !in tx.blocks {}
  }

  /** Installing all of it puts every block home. */
  lemma InstallHome(l: Layout, before: seq<Block>, tx: Tx, disk: seq<Block>)
    requires l.Valid() && tx.Valid(l) && |before| == l.total && Logged(l, before, tx, disk)
    ensures Fits(|disk|, HomeWrites(tx)) && Logged(l, before, tx, Apply(disk, HomeWrites(tx)))
    ensures forall i :: 0 <= i < |tx.blocks| ==> Apply(disk, HomeWrites(tx))[tx.blocks[i]] == tx.data[i]
  {
    hide Apply, HeadBlocks;
    var ws := HomeWrites(tx);
    InstallSome(l, before, tx, disk, |tx.blocks|);
    assert ws[..|tx.blocks|] == ws;
    forall i | 0 <= i < |tx.blocks| ensures Apply(disk, ws)[tx.blocks[i]] == tx.data[i] { ApplyLands(disk, ws, i); }
  }

  /** Installing all of it and then clearing the header finishes the transaction. */
  lemma InstallAll(l: Layout, before: seq<Block>, tx: Tx, disk: seq<Block>, head: Block)
    requires l.Valid() && tx.Valid(l) && |before| == l.total && Logged(l, before, tx, disk)
    requires head[0] == 0
    ensures Fits(|disk|, HomeWrites(tx) + [Write(l.start, head)])
    ensures Clean(l, Apply(disk, HomeWrites(tx) + [Write(l.start, head)]))
    ensures Installed(l, before, tx, Apply(disk, HomeWrites(tx) + [Write(l.start, head)]))
  {
    hide Apply, HomeWrites, HeadBlocks;
    InstallHome(l, before, tx, disk);
    ApplyConcat(disk, HomeWrites(tx), [Write(l.start, head)]);
    ApplyOne(Apply(disk, HomeWrites(tx)), Write(l.start, head));
  }

  /** Any prefix of the install-and-clear writes keeps a logged transaction durable. */
  lemma InstallPrefix(l: Layout, before: seq<Block>, tx: Tx, disk: seq<Block>, head: Block, k: nat)
    requires l.Valid() && tx.Valid(l) && |before| == l.total && Logged(l, before, tx, disk)
    requires head[0] == 0 && k <= |tx.blocks| + 1
    ensures var ws := HomeWrites(tx) + [Write(l.start, head)];
      && Fits(|disk|, ws[..k])
      && Durable(l, before, tx, Apply(disk, ws[..k]))
      && (k == |ws| ==> Clean(l, Apply(disk, ws)) && Installed(l, before, tx, Apply(disk, ws)))
  {
    var ws := HomeWrites(tx) + [Write(l.start, head)];
    if k <= |tx.blocks| {
      assert ws[..k] == HomeWrites(tx)[..k];
      InstallSome(l, before, tx, disk, k);
    } else {
      assert ws[..k] == ws;
      InstallAll(l, before, tx, disk, head);
    }
  }

  /** A prefix of recovery keeps durability; complete recovery leaves a clean log and the new contents. */
  lemma RecoverDurable(l: Layout, before: seq<Block>, tx: Tx, disk: seq<Block>, k: nat)
    requires l.Valid() && tx.Valid(l) && |before| == l.total && Durable(l, before, tx, disk)
    requires k <= |RecoverWrites(l, disk)|
    ensures Fits(|disk|, RecoverWrites(l, disk)[..k])
    ensures Durable(l, before, tx, Apply(disk, RecoverWrites(l, disk)[..k]))
    ensures k == |RecoverWrites(l, disk)| ==>
      var d := Apply(disk, RecoverWrites(l, disk)[..k]); Clean(l, d) && Installed(l, before, tx, d)
  {
    var ws := RecoverWrites(l, disk);
    if Logged(l, before, tx, disk) {
      assert InstallWrites(l, disk, tx.blocks) == HomeWrites(tx);
      InstallPrefix(l, before, tx, disk, Head(disk[l.start], []), k);
      if k == |ws| { assert ws[..k] == ws; }
    } else {
      assert ws == [Write(l.start, Head(disk[l.start], []))];
      if k == 0 { assert ws[..k] == []; } else { assert ws[..k] == ws; ApplyLands(disk, ws, 0); }
      forall b | 0 <= b < l.total && !l.InLog(b) ensures Apply(disk, ws[..k])[b] == disk[b] {
        ApplySkips(disk, ws[..k], b);
      }
    }
  }

  /** Recovery on a clean log rewrites only the header, with the same n. */
  lemma RecoverClean(l: Layout, disk: seq<Block>, k: nat)
    requires Clean(l, disk) && k <= |RecoverWrites(l, disk)|
    ensures Fits(|disk|, RecoverWrites(l, disk)[..k])
    ensures Clean(l, Apply(disk, RecoverWrites(l, disk)[..k]))
    ensures SameHome(l, disk, Apply(disk, RecoverWrites(l, disk)[..k]))
  {
    var none := Tx([], []);
    assert HeadBlocks(disk[l.start]) == [];
    RecoverDurable(l, disk, none, disk, k);
    var ws := RecoverWrites(l, disk);
    assert ws == [Write(l.start, Head(disk[l.start], []))];
    if k == 0 { assert ws[..k] == []; } else { assert ws[..k] == ws; ApplyLands(disk, ws, 0); }
  }

  /** Recovery attempts cut short after crashes[0], crashes[1], ... writes, then one that completes. */
  ghost function Recover(l: Layout, disk: seq<Block>, crashes: seq<nat>): (r: seq<Block>)
    requires l.Valid() && |disk| == l.total
    decreases |crashes|
  {
    if disk[l.start][0] > LOGSIZE || disk[l.start][0] >= l.size then disk else
      var ws := RecoverWrites(l, disk);
      if !Fits(|disk|, ws) then disk
      else if crashes == [] then Apply(disk, ws)
      else
        var k := if crashes[0] <= |ws| then crashes[0] else |ws|;
        Recover(l, Apply(disk, ws[..k]), crashes[1..])
  }

  lemma {:induction false} RecoverFromDurable(l: Layout, before: seq<Block>, tx: Tx, disk: seq<Block>,
                                              crashes: seq<nat>)
    requires l.Valid() && tx.Valid(l) && |before| == l.total && Durable(l, before, tx, disk)
    ensures Clean(l, Recover(l, disk, crashes)) && Installed(l, before, tx, Recover(l, disk, crashes))
    decreases |crashes|
  {
    var ws := RecoverWrites(l, disk);
    RecoverDurable(l, before, tx, disk, |ws|);
    assert ws[..|ws|] == ws;
    if crashes != [] {
      var k := if crashes[0] <= |ws| then crashes[0] else |ws|;
      RecoverDurable(l, before, tx, disk, k);
      RecoverFromDurable(l, before, tx, Apply(disk, ws[..k]), crashes[1..]);
    }
  }

  lemma {:induction false} RecoverFromClean(l: Layout, disk: seq<Block>, crashes: seq<nat>)
    requires Clean(l, disk)
    ensures Clean(l, Recover(l, disk, crashes)) && SameHome(l, disk, Recover(l, disk, crashes))
    decreases |crashes|
  {
    var ws := RecoverWrites(l, disk);
    RecoverClean(l, disk, |ws|);
    assert ws[..|ws|] == ws;
    if crashes != [] {
      var k := if crashes[0] <= |ws| then crashes[0] else |ws|;
      RecoverClean(l, disk, k);
      RecoverFromClean(l, Apply(disk, ws[..k]), crashes[1..]);
    }
  }

  /** The crash point is past the first header write: the transaction has committed. */
  predicate Committed(tx: Tx, k: nat) { tx.blocks != [] && k > |tx.blocks| }

  /** Where a commit cut after k writes leaves the disk. */
  lemma CommitPrefix(l: Layout, disk: seq<Block>, tx: Tx, k: nat)
    requires Clean(l, disk) && tx.Valid(l) && k <= |CommitWrites(l, disk, tx)|
    ensures Fits(|disk|, CommitWrites(l, disk, tx)[..k])
    ensures var d := Apply(disk, CommitWrites(l, disk, tx)[..k]);
      if Committed(tx, k) then Durable(l, disk, tx, d) else Clean(l, d) && SameHome(l, disk, d)
    ensures k == |CommitWrites(l, disk, tx)| ==>
      var d := Apply(disk, CommitWrites(l, disk, tx)[..k]); Clean(l, d) && Installed(l, disk, tx, d)
  {
    var n := |tx.blocks|;
    var ws := CommitWrites(l, disk, tx);
    if n == 0 {
      assert ws[..k] == [];
      return;
    }
    if k <= n {
      LogPrefix(l, disk, tx, k);
      assert ws[..k] == LogWrites(l, tx)[..k];
    } else {
      CommitPast(l, disk, tx, k);
    }
  }

  /** The writes of a commit up to the first header write, and the writes after it. */
  lemma CommitSplit(l: Layout, disk: seq<Block>, tx: Tx, k: nat)
    requires l.Valid() && |disk| == l.total && 0 < |tx.blocks| == |tx.data| <= LOGSIZE
    requires |tx.blocks| < k <= |CommitWrites(l, disk, tx)|
    ensures var head, n := Head(disk[l.start], tx.blocks), |tx.blocks|;
      var logged, rest := LogWrites(l, tx) + [Write(l.start, head)], HomeWrites(tx) + [Write(l.start, Head(head, []))];
      && CommitWrites(l, disk, tx) == logged + rest && |rest| == n + 1 && k - n - 1 <= |rest|
      && CommitWrites(l, disk, tx)[..k] == logged + rest[..k - n - 1]
  {
    hide Head, HeadBlocks, LogWrites, HomeWrites;
  }

  /** A commit cut past the first header write is durable, and complete if it was not cut at all. */
  lemma CommitPast(l: Layout, disk: seq<Block>, tx: Tx, k: nat)
    requires Clean(l, disk) && tx.Valid(l) && 0 < |tx.blocks| < k <= |CommitWrites(l, disk, tx)|
    ensures Fits(|disk|, CommitWrites(l, disk, tx)[..k])
    ensures var d := Apply(disk, CommitWrites(l, disk, tx)[..k]);
      Durable(l, disk, tx, d) && (k == |CommitWrites(l, disk, tx)| ==> Clean(l, d) && Installed(l, disk, tx, d))
  {
    hide Apply, Durable, Installed, LogWrites, HomeWrites, Head, HeadBlocks, CommitWrites, Fits;
    CommitSplit(l, disk, tx, k);
    var n := |tx.blocks|;
    var head := Head(disk[l.start], tx.blocks);
    var logged := LogWrites(l, tx) + [Write(l.start, head)];
    LoggedThenInstalled(l, disk, tx, head, Head(head, []), logged, k - n - 1);
  }

  lemma LoggedThenInstalled(l: Layout, disk: seq<Block>, tx: Tx, head: Block, cleared: Block, logged: seq<Write>,
                            j: nat)
    requires Clean(l, disk) && tx.Valid(l) && j <= |tx.blocks| + 1
    requires head[0] == |tx.blocks| && HeadBlocks(head) == tx.blocks && cleared[0] == 0
    requires logged == LogWrites(l, tx) + [Write(l.start, head)]
    ensures var ws := logged + (HomeWrites(tx) + [Write(l.start, cleared)])[..j];
      Fits(|disk|, ws) && Durable(l, disk, tx, Apply(disk, ws)) &&
      (j == |tx.blocks| + 1 ==> Clean(l, Apply(disk, ws)) && Installed(l, disk, tx, Apply(disk, ws)))
  {
    hide Apply, Logged, Durable, Installed, HeadBlocks, LogWrites, HomeWrites;
    var all := HomeWrites(tx) + [Write(l.start, cleared)];
    var rest := all[..j];
    if j == |all| { assert rest == all; }
    CommitLogged(l, disk, tx, head, logged);
    InstallPrefix(l, disk, tx, Apply(disk, logged), cleared, j);
    ApplyConcat(disk, logged, rest);
  }

  /** Writes into the log before the header do not disturb the old state. */
  lemma LogPrefix(l: Layout, disk: seq<Block>, tx: Tx, k: nat)
    requires Clean(l, disk) && tx.Valid(l) && k <= |tx.blocks|
    ensures Fits(|disk|, LogWrites(l, tx)[..k])
    ensures var d := Apply(disk, LogWrites(l, tx)[..k]); Clean(l, d) && SameHome(l, disk, d)
  {
    var p := LogWrites(l, tx)[..k];
    forall b | 0 <= b < l.total && (!l.InLog(b) || b == l.start) ensures Apply(disk, p)[b] == disk[b] {
      ApplySkips(disk, p, b);
    }
  }

  lemma CommitLogged(l: Layout, disk: seq<Block>, tx: Tx, head: Block, logged: seq<Write>)
    requires Clean(l, disk) && tx.Valid(l)
    requires head[0] == |tx.blocks| && HeadBlocks(head) == tx.blocks
    requires logged == LogWrites(l, tx) + [Write(l.start, head)]
    ensures Fits(|disk|, logged)
    ensures Logged(l, disk, tx, Apply(disk, logged))
  {
    hide Apply;
    var n := |tx.blocks|;
    assert forall i :: 0 <= i < n ==> logged[i] == LogWrites(l, tx)[i];
    var d := Apply(disk, logged);
    ApplyLands(disk, logged, n);
    forall i | 0 <= i < n ensures d[l.start + 1 + i] == tx.data[i] { ApplyLands(disk, logged, i); }
    forall b | 0 <= b < l.total && !l.InLog(b) ensures d[b] == disk[b] { ApplySkips(disk, logged, b); }
  }

  /** Crash atomicity. A commit cut after any k single-block writes, followed by any number of recoveries
      each cut anywhere, and then one completed recovery, leaves a clean log and home blocks that are
      exactly the old ones (header not yet written) or exactly the new ones (header written). */
  lemma CrashAtomicity(l: Layout, disk: seq<Block>, tx: Tx, k: nat, crashes: seq<nat>)
    requires Clean(l, disk) && tx.Valid(l) && k <= |CommitWrites(l, disk, tx)|
    ensures Fits(|disk|, CommitWrites(l, disk, tx)[..k])
    ensures var d := Recover(l, Apply(disk, CommitWrites(l, disk, tx)[..k]), crashes);
      Clean(l, d) && if Committed(tx, k) then Installed(l, disk, tx, d) else SameHome(l, disk, d)
  {
    CommitPrefix(l, disk, tx, k);
    var d := Apply(disk, CommitWrites(l, disk, tx)[..k]);
    if Committed(tx, k) { RecoverFromDurable(l, disk, tx, d, crashes); } else { RecoverFromClean(l, d, crashes); }
  }

  // ---------------------------------------------------------------- whole runs

  /** One transaction of a run: it commits undisturbed, or the machine crashes after k of its writes
      and recovery is itself interrupted at the given points before it completes. */
  datatype Event = Commit(tx: Tx) | Crash(tx: Tx, k: nat, crashes: seq<nat>)

  ghost function After(l: Layout, disk: seq<Block>, e: Event): (d: seq<Block>)
    requires Clean(l, disk) && e.tx.Valid(l)
    ensures Clean(l, d)
  {
    var ws := CommitWrites(l, disk, e.tx);
    var k := if e.Commit? || e.k > |ws| then |ws| else e.k;
    CommitPrefix(l, disk, e.tx, k);
    var d := Apply(disk, ws[..k]);
    if e.Commit? then d else
      CrashAtomicity(l, disk, e.tx, k, e.crashes);
      Recover(l, d, e.crashes)
  }

  ghost function Run(l: Layout, disk: seq<Block>, es: seq<Event>): (d: seq<Block>)
    requires Clean(l, disk) && forall e :: e in es ==> e.tx.Valid(l)
    ensures Clean(l, d)
  {
    if es == [] then disk else After(l, Run(l, disk, es[..|es| - 1]), es[|es| - 1])
  }

  /** Reference semantics: an ideal disk on which a transaction happens at once or not at all. */
  ghost function Ideal(l: Layout, disk: seq<Block>, es: seq<Event>): (d: seq<Block>)
    requires |disk| == l.total && forall e :: e in es ==> e.tx.Valid(l)
    ensures |d| == l.total
  {
    if es == [] then disk else
      var e := es[|es| - 1];
      var d := Ideal(l, disk, es[..|es| - 1]);
      assert e.tx.Valid(l);
      if e.Crash? && !Committed(e.tx, e.k) then d
      else Apply(d, HomeWrites(e.tx))
  }

  /** Over every run of transactions and crashes the disk agrees, outside the log, with the ideal disk. */
  lemma {:induction false} RunIsAtomic(l: Layout, disk: seq<Block>, es: seq<Event>)
    requires Clean(l, disk) && forall e :: e in es ==> e.tx.Valid(l)
    ensures SameHome(l, Run(l, disk, es), Ideal(l, disk, es))
  {
    if es == [] { return; }
    var e, d := es[|es| - 1], Run(l, disk, es[..|es| - 1]);
    var i := Ideal(l, disk, es[..|es| - 1]);
    RunIsAtomic(l, disk, es[..|es| - 1]);
    var ws := CommitWrites(l, d, e.tx);
    var k := if e.Commit? || e.k > |ws| then |ws| else e.k;
    CommitPrefix(l, d, e.tx, k);
    if e.Crash? { CrashAtomicity(l, d, e.tx, k, e.crashes); }
    if e.Commit? || Committed(e.tx, e.k) {
      InstallIdeal(l, d, i, e.tx, After(l, d, e));
    }
  }

  lemma InstallIdeal(l: Layout, d: seq<Block>, ideal: seq<Block>, tx: Tx, d': seq<Block>)
    requires l.Valid() && tx.Valid(l) && |d| == |ideal| == l.total && SameHome(l, d, ideal) && Installed(l, d, tx, d')
    ensures var ws := HomeWrites(tx);
      SameHome(l, d', Apply(ideal, ws))
  {
    var ws := HomeWrites(tx);
    forall b | 0 <= b < l.total && !l.InLog(b) ensures d'[b] == Apply(ideal, ws)[b] {
      if i :| 0 <= i < |tx.blocks| && tx.blocks[i] == b {
        ApplyLands(ideal, ws, i);
      } else {
        ApplySkips(ideal, ws, b);
      }
    }
  }
}
