/** Log space reservation (begin_op, log_write, end_op in kernel/log.c), as a state machine whose steps
    are the critical sections of log.lock. */
module LogSpace {

  const MAXOPBLOCKS: nat := 10
  const LOGSIZE: nat := 30

  /** A file-system call since the last commit: the distinct blocks it has logged, and whether it is still running. */
  datatype Op = Op(used: set<nat>, active: bool) {
    function Left(): (n: int) { if active then MAXOPBLOCKS - |used| else 0 }
  }

  /** lh is the in-memory header; log.outstanding is the number of active operations. */
  datatype State = State(lh: seq<nat>, ops: seq<Op>, committing: bool)

  datatype Step = Begin | Write(op: nat, block: nat) | End(op: nat) | Commit

  datatype Outcome = Ok(s: State) | Sleep | Panic

  const Init := State([], [], false)

  function Outstanding(ops: seq<Op>): (n: nat)
    ensures n <= |ops|
  {
    if ops == [] then 0 else Outstanding(ops[..|ops| - 1]) + if ops[|ops| - 1].active then 1 else 0
  }

  /** log_write's search loop: absorb a block already in the header, else append it. */
  function Absorb(lh: seq<nat>, b: nat): (r: seq<nat>)
    ensures forall x :: x in r <==> x in lh || x == b
    ensures |r| == |lh| + if b in lh then 0 else 1
  {
    if b in lh then lh else lh + [b]
  }

  /** The step can be taken by the caller at all (an operation only acts between its begin_op and end_op). */
  predicate Enabled(s: State, step: Step) {
    match step
    case Begin => true
    case Write(op, _) => op < |s.ops| && s.ops[op].active
    case End(op) => op < |s.ops| && s.ops[op].active
    case Commit => s.committing
  }

  /** One critical section; logSize is sb.nlog. */
  function Next(s: State, step: Step, logSize: int): (r: Outcome)
    requires Enabled(s, step)
  {
    match step
    case Begin =>
      if s.committing then Sleep
      else if |s.lh| + (Outstanding(s.ops) + 1) * MAXOPBLOCKS > LOGSIZE then Sleep
      else Ok(s.(ops := s.ops + [Op({}, true)]))
    case Write(op, b) =>
      if |s.lh| >= LOGSIZE || |s.lh| >= logSize - 1 then Panic
      else if Outstanding(s.ops) < 1 then Panic
      else Ok(s.(lh := Absorb(s.lh, b), ops := s.ops[op := Op(s.ops[op].used + {b}, true)]))
    case End(op) =>
      if s.committing then Panic else
      var ops := s.ops[op := s.ops[op].(active := false)];
      Ok(s.(ops := ops, committing := Outstanding(ops) == 0))
    case Commit => Ok(Init)
  }

  /** The rule the file system promises: no call logs more than MAXOPBLOCKS distinct blocks. */
  predicate Budgeted(s: State, step: Step) {
    Enabled(s, step) &&
    (step.Write? ==> step.block in s.ops[step.op].used || |s.ops[step.op].used| < MAXOPBLOCKS)
  }

  function SumLeft(ops: seq<Op>): int {
    if ops == [] then 0 else SumLeft(ops[..|ops| - 1]) + ops[|ops| - 1].Left()
  }

  ghost predicate Distinct(s: seq<nat>) { forall i, j :: 0 <= i < j < |s| ==> s[i] != s[j] }

  /** What every budgeted run keeps: header blocks are distinct and are exactly what the calls of this
      transaction logged, and the unused budgets still fit in the log. */
  ghost predicate Inv(s: State) {
    && Distinct(s.lh)
    && |s.lh| + SumLeft(s.ops) <= LOGSIZE
    && (forall i :: 0 <= i < |s.ops| ==> |s.ops[i].used| <= MAXOPBLOCKS)
    && (forall i, b :: 0 <= i < |s.ops| && b in s.ops[i].used ==> b in s.lh)
    && (forall b :: b in s.lh ==> exists i :: 0 <= i < |s.ops| && b in s.ops[i].used)
    && (s.committing ==> Outstanding(s.ops) == 0)
  }

  lemma {:induction false} SumBounds(ops: seq<Op>)
    requires forall i :: 0 <= i < |ops| ==> |ops[i].used| <= MAXOPBLOCKS
    ensures 0 <= SumLeft(ops) <= Outstanding(ops) * MAXOPBLOCKS
    ensures forall i :: 0 <= i < |ops| ==> ops[i].Left() <= SumLeft(ops)
    ensures forall i :: 0 <= i < |ops| && ops[i].active ==> Outstanding(ops) >= 1
  {
    if ops != [] { SumBounds(ops[..|ops| - 1]); }
  }

  lemma {:induction false} SumUpdate(ops: seq<Op>, i: nat, o: Op)
    requires i < |ops|
    ensures SumLeft(ops[i := o]) == SumLeft(ops) - ops[i].Left() + o.Left()
    ensures Outstanding(ops[i := o]) == Outstanding(ops) - (if ops[i].active then 1 else 0) + if o.active then 1 else 0
  {
    var n := |ops| - 1;
    if i < n {
      SumUpdate(ops[..n], i, o);
      assert ops[i := o][..n] == ops[..n][i := o];
    } else {
      assert ops[i := o][..n] == ops[..n];
    }
  }

  /** Operations keep what they used, so the header stays covered. */
  lemma StillCovered(lh: seq<nat>, ops: seq<Op>, ops': seq<Op>)
    requires |ops| <= |ops'| && forall i :: 0 <= i < |ops| ==> ops[i].used <= ops'[i].used
    requires forall b :: b in lh ==> exists i :: 0 <= i < |ops| && b in ops[i].used
    ensures forall b :: b in lh ==> exists i :: 0 <= i < |ops'| && b in ops'[i].used
  {
    forall b | b in lh ensures exists i :: 0 <= i < |ops'| && b in ops'[i].used {
      var i :| 0 <= i < |ops| && b in ops[i].used;
      assert b in ops'[i].used;
    }
  }

  lemma WriteKeepsInv(s: State, op: nat, b: nat, logSize: int)
    requires Inv(s) && Budgeted(s, Write(op, b)) && Next(s, Write(op, b), logSize).Ok?
    ensures Inv(Next(s, Write(op, b), logSize).s)
  {
    var o := Op(s.ops[op].used + {b}, true);
    var ops := s.ops[op := o];
    SumBounds(s.ops);
    SumUpdate(s.ops, op, o);
    if b in s.ops[op].used { assert o.used == s.ops[op].used; }
    StillCovered(s.lh, s.ops, ops);
    assert b in ops[op].used;
  }

  /** Every budgeted step keeps the invariant. */
  lemma StepKeepsInv(s: State, step: Step, logSize: int)
    requires Inv(s) && Budgeted(s, step)
    ensures Next(s, step, logSize).Ok? ==> Inv(Next(s, step, logSize).s)
  {
    SumBounds(s.ops);
    var r := Next(s, step, logSize);
    if !r.Ok? { return; }
    match step
    case Begin =>
      assert r.s.ops[..|s.ops|] == s.ops;
      StillCovered(s.lh, s.ops, r.s.ops);
    case Write(op, b) => WriteKeepsInv(s, op, b, logSize);
    case End(op) =>
      SumUpdate(s.ops, op, s.ops[op].(active := false));
      StillCovered(s.lh, s.ops, r.s.ops);
    case Commit =>
  }

  // ---------------------------------------------------------------- runs

  /** A run stops at a panic; a sleeping begin_op leaves the state alone. */
  function Run(steps: seq<Step>, logSize: int): (r: Outcome)
    ensures !r.Sleep?
  {
    if steps == [] then Ok(Init) else
      var r := Run(steps[..|steps| - 1], logSize);
      var step := steps[|steps| - 1];
      if r.Panic? || !Enabled(r.s, step) then r
      else if Next(r.s, step, logSize).Sleep? then r
      else Next(r.s, step, logSize)
  }

  /** Every step of the run respects the budget rule. */
  ghost predicate BudgetedRun(steps: seq<Step>, logSize: int) {
    steps != [] ==>
      var r := Run(steps[..|steps| - 1], logSize);
      BudgetedRun(steps[..|steps| - 1], logSize) && (r.Ok? ==> Budgeted(r.s, steps[|steps| - 1]))
  }

  /** Reservation: in every budgeted run the header plus all unused budgets fit in LOGSIZE. */
  lemma {:induction false} RunKeepsInv(steps: seq<Step>, logSize: int)
    requires BudgetedRun(steps, logSize) && Run(steps, logSize).Ok?
    ensures Inv(Run(steps, logSize).s)
  {
    if steps != [] {
      RunKeepsInv(steps[..|steps| - 1], logSize);
      var s := Run(steps[..|steps| - 1], logSize).s;
      StepKeepsInv(s, steps[|steps| - 1], logSize);
    }
  }

  /** What a budgeted log_write runs into: with a log larger than LOGSIZE it panics exactly when the header is
      full, and then the block is one this very call has already logged and no call has budget left. */
  lemma WritePanics(s: State, op: nat, b: nat, logSize: int)
    requires Inv(s) && Budgeted(s, Write(op, b)) && logSize > LOGSIZE
    ensures Next(s, Write(op, b), logSize).Panic? <==> |s.lh| == LOGSIZE
    ensures Next(s, Write(op, b), logSize).Panic? ==> b in s.ops[op].used && SumLeft(s.ops) == 0
  {
    SumBounds(s.ops);
  }

  /** end_op never finds a commit in progress, and a begin_op admitted by the check leaves room for a full call. */
  lemma EndAndBeginSafe(s: State, step: Step, logSize: int)
    requires Inv(s) && Budgeted(s, step) && (step.End? || step.Begin?)
    ensures !Next(s, step, logSize).Panic?
    ensures step.Begin? && Next(s, step, logSize).Ok? ==> |s.lh| + SumLeft(s.ops) + MAXOPBLOCKS <= LOGSIZE
  {
    SumBounds(s.ops);
  }

  /** A call's updates are never split: when the transaction commits, the header holds every block that each
      of its calls logged, and no call is still running. */
  lemma CommitIsWhole(steps: seq<Step>, logSize: int, i: nat)
    requires BudgetedRun(steps, logSize) && Run(steps, logSize).Ok?
    requires var s := Run(steps, logSize).s; s.committing && i < |s.ops|
    ensures var s := Run(steps, logSize).s;
      !s.ops[i].active && (forall b :: b in s.ops[i].used ==> b in s.lh) && Distinct(s.lh)
  {
    RunKeepsInv(steps, logSize);
    SumBounds(Run(steps, logSize).s.ops);
  }

  // ---------------------------------------------------------------- from one commit to the next

  lemma {:induction false} ActiveCounts(ops: seq<Op>)
    ensures Outstanding(ops) >= 1 <==> exists i :: 0 <= i < |ops| && ops[i].active
  {
    if ops != [] {
      var n := |ops| - 1;
      ActiveCounts(ops[..n]);
      if i :| 0 <= i < |ops[..n]| && ops[..n][i].active { assert ops[i].active; }
      if i :| 0 <= i < |ops| && ops[i].active { if i < n { assert ops[..n][i].active; } }
    }
  }

  /** A commit is under way exactly when calls were made since the last one and none of them is running any more; with
      no calls since then the header is empty. */
  ghost predicate Cycle(s: State) {
    (s.committing <==> s.ops != [] && Outstanding(s.ops) == 0) && (s.ops == [] ==> s.lh == [])
  }

  lemma StepCycles(s: State, step: Step, logSize: int)
    requires Cycle(s) && Enabled(s, step)
    ensures Next(s, step, logSize).Ok? ==> Cycle(Next(s, step, logSize).s)
  {
    var r := Next(s, step, logSize);
    ActiveCounts(s.ops);
    match step
    case Begin => if r.Ok? { assert r.s.ops[..|s.ops|] == s.ops; }
    case Write(op, b) => SumUpdate(s.ops, op, Op(s.ops[op].used + {b}, true));
    case End(op) => SumUpdate(s.ops, op, s.ops[op].(active := false));
    case Commit =>
  }

  /** In every run the last end_op starts the commit, no other does, and the commit leaves an empty header. */
  lemma {:induction false} RunCycles(steps: seq<Step>, logSize: int)
    requires Run(steps, logSize).Ok?
    ensures Cycle(Run(steps, logSize).s)
  {
    if steps != [] {
      var p, step := steps[..|steps| - 1], steps[|steps| - 1];
      RunCycles(p, logSize);
      if Enabled(Run(p, logSize).s, step) { StepCycles(Run(p, logSize).s, step, logSize); }
    }
  }

  /** begin_op waits only for a commit or for calls that are running, and the commit lets it in. */
  lemma BeginIsLetIn(steps: seq<Step>, logSize: int)
    requires Run(steps, logSize).Ok?
    ensures var s := Run(steps, logSize).s;
      && (Next(s, Begin, logSize).Sleep? ==> Enabled(s, Commit) || exists i :: 0 <= i < |s.ops| && Enabled(s, End(i)))
      && (Enabled(s, Commit) ==> var t := Next(s, Commit, logSize); t.Ok? && Next(t.s, Begin, logSize).Ok?)
  {
    hide Run;
    RunCycles(steps, logSize);
    var s := Run(steps, logSize).s;
    ActiveCounts(s.ops);
    if i :| 0 <= i < |s.ops| && s.ops[i].active { assert Enabled(s, End(i)); }
  }

  // ---------------------------------------------------------------- the state, from the steps alone

  /** The steps since the last commit, without those that could not be taken or slept. */
  function Since(steps: seq<Step>, logSize: int): (r: seq<Step>) {
    if steps == [] then [] else
      var p, step := steps[..|steps| - 1], steps[|steps| - 1];
      var s := Run(p, logSize);
      if s.Panic? || !Enabled(s.s, step) || Next(s.s, step, logSize).Sleep? then Since(p, logSize)
      else if step.Commit? then [] else Since(p, logSize) + [step]
  }

  function BeginCount(steps: seq<Step>): (n: nat) {
    if steps == [] then 0
    else BeginCount(steps[..|steps| - 1]) + if steps[|steps| - 1].Begin? then 1 else 0
  }

  /** The blocks logged, each where it was first. */
  function FirstLogged(steps: seq<Step>): (lh: seq<nat>) {
    if steps == [] then [] else
      var lh, step := FirstLogged(steps[..|steps| - 1]), steps[|steps| - 1];
      if step.Write? then Absorb(lh, step.block) else lh
  }

  /** The calls are those begun, running until they ended, with the blocks they logged. */
  ghost predicate Booked(s: State, since: seq<Step>) {
    && |s.ops| == BeginCount(since) && s.lh == FirstLogged(since)
    && (forall i: nat :: i < |s.ops| ==> (s.ops[i].active <==> End(i) !in since))
    && (forall i: nat, b: nat :: i < |s.ops| ==> (b in s.ops[i].used <==> Write(i, b) in since))
    && (forall i: nat :: End(i) in since ==> i < |s.ops|)
    && (forall i: nat, b: nat :: Write(i, b) in since ==> i < |s.ops|)
  }

  lemma StepBooked(s: State, since: seq<Step>, step: Step, logSize: int)
    requires Booked(s, since) && Enabled(s, step) && Next(s, step, logSize).Ok? && !step.Commit?
    ensures Booked(Next(s, step, logSize).s, since + [step])
  {
    assert (since + [step])[..|since|] == since;
    forall x: Step ensures x in since + [step] <==> x in since || x == step {}
  }

  /** In every run the operations since the last commit, which of them still run, what each has logged and the header
      are what the steps say. */
  lemma {:induction false} RunBooked(steps: seq<Step>, logSize: int)
    requires Run(steps, logSize).Ok?
    ensures Booked(Run(steps, logSize).s, Since(steps, logSize))
  {
    if steps != [] {
      var p, step := steps[..|steps| - 1], steps[|steps| - 1];
      RunBooked(p, logSize);
      var s := Run(p, logSize).s;
      if Enabled(s, step) && Next(s, step, logSize).Ok? && !step.Commit? {
        StepBooked(s, Since(p, logSize), step, logSize);
      }
    }
  }

  // ---------------------------------------------------------------- how large the log must be

  function Begins(j: nat): (r: seq<Step>) { if j == 0 then [] else Begins(j - 1) + [Begin] }

  /** Three calls start, then log blocks 0, 1, 2, ... ten each. */
  function Fill(m: nat): (r: seq<Step>)
    requires m <= LOGSIZE
  {
    if m == 0 then Begins(3) else Fill(m - 1) + [Write((m - 1) / MAXOPBLOCKS, m - 1)]
  }

  function Tens(m: nat, j: nat): set<nat> { set k: nat | k < m && k / MAXOPBLOCKS == j }

  /** Appending one step to a run that has not panicked. */
  lemma Extend(steps: seq<Step>, step: Step, logSize: int)
    requires BudgetedRun(steps, logSize) && Run(steps, logSize).Ok? && Budgeted(Run(steps, logSize).s, step)
    requires !Next(Run(steps, logSize).s, step, logSize).Sleep?
    ensures BudgetedRun(steps + [step], logSize) &&
      Run(steps + [step], logSize) == Next(Run(steps, logSize).s, step, logSize)
  {
    assert (steps + [step])[..|steps + [step]| - 1] == steps;
  }

  /** The state a filling run reaches. */
  ghost predicate Filled(m: nat, s: State) {
    && s.lh == seq(m, k => k) && !s.committing && |s.ops| == 3
    && forall j :: 0 <= j < 3 ==> s.ops[j] == Op(Tens(m, j), true) && |s.ops[j].used| == TensSize(m, j)
  }

  ghost predicate FilledBy(m: nat, steps: seq<Step>, logSize: int) {
    BudgetedRun(steps, logSize) && Run(steps, logSize).Ok? && Filled(m, Run(steps, logSize).s)
  }

  function TensSize(m: nat, j: nat): int {
    if m <= 10 * j then 0 else if m <= 10 * j + 10 then m - 10 * j else 10
  }

  lemma {:induction false} BeginsState(j: nat, logSize: int)
    requires j <= 3
    ensures BudgetedRun(Begins(j), logSize)
    ensures Run(Begins(j), logSize) == Ok(State([], seq(j, i => Op({}, true)), false))
    ensures Outstanding(seq(j, i => Op({}, true))) == j
  {
    if j > 0 {
      BeginsState(j - 1, logSize);
      Extend(Begins(j - 1), Begin, logSize);
      var ops := seq(j - 1, i => Op({}, true));
      assert seq(j, i => Op({}, true)) == ops + [Op({}, true)];
      assert (ops + [Op({}, true)])[..j - 1] == ops;
    }
  }

  lemma FillBegin(logSize: int)
    ensures FilledBy(0, Fill(0), logSize)
  {
    BeginsState(3, logSize);
    forall j: nat ensures Tens(0, j) == {} {}
  }

  lemma TensNext(m: nat, i: nat)
    ensures Tens(m + 1, i) == Tens(m, i) + (if i == m / MAXOPBLOCKS then {m} else {}) && m !in Tens(m, i)
  {}

  lemma FillNext(m: nat, s: State, logSize: int)
    requires m < LOGSIZE && m + 1 < logSize && Filled(m, s)
    ensures Budgeted(s, Write(m / MAXOPBLOCKS, m)) && |s.ops[m / MAXOPBLOCKS].used| < MAXOPBLOCKS
    ensures var j := m / MAXOPBLOCKS;
      Next(s, Write(j, m), logSize) ==
        Ok(s.(lh := seq(m + 1, k => k), ops := s.ops[j := Op(Tens(m, j) + {m}, true)]))
  {
    hide Tens;
    assert s.ops[..2][..1][..0] == [];
    assert seq(m + 1, k => k) == seq(m, k => k) + [m];
  }

  lemma FillStep(m: nat, s: State, logSize: int)
    requires m < LOGSIZE && m + 1 < logSize && Filled(m, s)
    ensures Budgeted(s, Write(m / MAXOPBLOCKS, m)) && |s.ops[m / MAXOPBLOCKS].used| < MAXOPBLOCKS
    ensures var r := Next(s, Write(m / MAXOPBLOCKS, m), logSize); r.Ok? && Filled(m + 1, r.s)
  {
    hide Next, Budgeted, Tens;
    FillNext(m, s, logSize);
    var j := m / MAXOPBLOCKS;
    var ops := s.ops[j := Op(Tens(m, j) + {m}, true)];
    forall i: nat | i < 3 ensures ops[i] == Op(Tens(m + 1, i), true) && |ops[i].used| == TensSize(m + 1, i) {
      TensNext(m, i);
    }
  }

  lemma {:induction false} FillState(m: nat, logSize: int)
    requires m <= LOGSIZE && (m < logSize || m == 0)
    ensures FilledBy(m, Fill(m), logSize)
  {
    if m == 0 {
      FillBegin(logSize);
    } else {
      FillState(m - 1, logSize);
      FillExtend(m - 1, Fill(m - 1), logSize);
    }
  }

  lemma FillExtend(m: nat, steps: seq<Step>, logSize: int)
    requires m < LOGSIZE && m + 1 < logSize
    requires FilledBy(m, steps, logSize)
    ensures FilledBy(m + 1, steps + [Write(m / MAXOPBLOCKS, m)], logSize)
  {
    FillStep(m, Run(steps, logSize).s, logSize);
    Extend(steps, Write(m / MAXOPBLOCKS, m), logSize);
  }

  /** A budgeted run in which some log_write with budget left panics. */
  ghost predicate OverflowingRun(steps: seq<Step>, w: Step, logSize: int) {
    && BudgetedRun(steps, logSize) && Run(steps, logSize).Ok? && w.Write?
    && var s := Run(steps, logSize).s;
       Enabled(s, w) && |s.ops[w.op].used| < MAXOPBLOCKS && Next(s, w, logSize).Panic?
  }

  lemma LargeLogNeverOverflows(steps: seq<Step>, w: Step, logSize: int)
    requires logSize > LOGSIZE
    ensures !OverflowingRun(steps, w, logSize)
  {
    if OverflowingRun(steps, w, logSize) {
      RunKeepsInv(steps, logSize);
      var s := Run(steps, logSize).s;
      SumBounds(s.ops);
      WritePanics(s, w.op, w.block, logSize);
    }
  }

  lemma SmallLogOverflows(logSize: int) returns (steps: seq<Step>, w: Step)
    requires logSize <= LOGSIZE
    ensures OverflowingRun(steps, w, logSize)
  {
    var m := if logSize <= 1 then 0 else logSize - 1;
    FillState(m, logSize);
    steps, w := Fill(m), Write(m / MAXOPBLOCKS, m);
  }

  /** A call with budget left is never stopped by "too big a transaction" if and only if sb.nlog exceeds LOGSIZE
      (mkfs sets it equal, which is one block short). */
  lemma LogLargeEnough(logSize: int)
    ensures (forall steps: seq<Step>, w: Step :: !OverflowingRun(steps, w, logSize)) <==> logSize > LOGSIZE
  {
    if logSize > LOGSIZE {
      forall steps: seq<Step>, w: Step { LargeLogNeverOverflows(steps, w, logSize); }
    } else {
      var steps, w := SmallLogOverflows(logSize);
    }
  }

  /** The budget rule alone does not protect a call that logs one of its own blocks again: three calls fill the
      header, and the next log_write of block 0 by the first of them panics although it would be absorbed. */
  lemma RelogPanics(logSize: int)
    requires logSize > LOGSIZE
    ensures var steps := Fill(LOGSIZE) + [Write(0, 0)];
      BudgetedRun(steps, logSize) && Run(steps, logSize).Panic?
  {
    FillState(LOGSIZE, logSize);
    assert 0 in Tens(LOGSIZE, 0);
    Extend(Fill(LOGSIZE), Write(0, 0), logSize);
  }
}
