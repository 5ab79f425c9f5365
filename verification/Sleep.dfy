/** Sleep locks (kernel/sleeplock.c) as a client of sleep and wakeup: acquiresleep waits until nobody holds the lock,
    releasesleep makes that true for everybody and calls wakeup. */
module Sleep {
  import W = Wakeup

  /** Where a process is in acquiresleep, sleep, releasesleep and wakeup: the step it takes next. */
  datatype Pc =
    | Idle                  // outside; next: acquire(&lk->lk)
    | In(pc: W.Pc)          // testing lk->locked, in sleep, or in wakeup
    | Take                  // lk->locked = 1
    | Unlock1               // release(&lk->lk)
    | Crit                  // holds the sleep lock; next: releasesleep, acquire(&lk->lk)
    | Clear                 // lk->locked = 0
    | Call                  // wakeup(lk)
    | Unlock2               // release(&lk->lk)

  /** All processes and the lock. owner is the process that took the sleep lock and has not cleared it. */
  datatype Sys = Sys(pc: seq<Pc>, state: seq<W.State>, chan: seq<bool>, plock: seq<W.Option>, lk: W.Option,
                     locked: bool, owner: W.Option)

  ghost predicate Sized(s: Sys) { |s.state| == |s.pc| == |s.chan| == |s.plock| }

  /** What the place of a process is to sleep and wakeup. */
  ghost function Place(c: Pc): W.Pc {
    match c
    case Idle => W.Idle
    case In(pc) => pc
    case Take => W.Held(false)
    case Unlock1 => W.Held(false)
    case Crit => W.Idle
    case Clear => W.Held(false)
    case Call => W.Held(true)
    case Unlock2 => W.Held(false)
  }

  /** Everybody waits for the sleep lock to be free. */
  ghost function Abs(s: Sys): (a: W.Sys)
    ensures |a.pc| == |s.pc| == |a.cond| && a.state == s.state && a.chan == s.chan && a.plock == s.plock && a.lk == s.lk
    ensures forall p :: 0 <= p < |s.pc| ==> a.pc[p] == Place(s.pc[p]) && a.cond[p] == !s.locked
  {
    W.Sys(seq(|s.pc|, p requires 0 <= p < |s.pc| => Place(s.pc[p])), s.state, s.chan, s.plock, s.lk,
      seq(|s.pc|, _ => !s.locked))
  }

  ghost predicate Enabled(s: Sys, p: nat)
    requires Sized(s) && p < |s.pc|
  {
    match s.pc[p]
    case Idle => s.lk == W.None
    case Crit => s.lk == W.None
    case In(_) => W.Enabled(Abs(s), p, W.Go)
    case _ => true
  }

  ghost function To(s: Sys, p: nat, c: Pc): Sys
    requires p < |s.pc|
  {
    s.(pc := s.pc[p := c])
  }

  /** After the loop of acquiresleep the lock is taken; after wakeup, lk is released. */
  ghost function Out(c: W.Pc, n: W.Pc): Pc { if !n.Held? then In(n) else if c.Test? then Take else Unlock2 }

  ghost function Step(s: Sys, p: nat): (t: Sys)
    requires Sized(s) && p < |s.pc| && Enabled(s, p)
  {
    match s.pc[p]
    case Idle => To(s, p, In(W.Test)).(lk := W.Some(p))
    case In(c) => var a := W.Step(Abs(s), p, W.Go);
      s.(pc := s.pc[p := Out(c, PcAt(a, p))], state := a.state, chan := a.chan, plock := a.plock, lk := a.lk)
    case Take => To(s, p, Unlock1).(locked := true, owner := W.Some(p))
    case Unlock1 => To(s, p, Crit).(lk := W.None)
    case Crit => To(s, p, Clear).(lk := W.Some(p))
    case Clear => To(s, p, Call).(locked := false, owner := W.None)
    case Call => To(s, p, In(W.Scan(0)))
    case Unlock2 => To(s, p, Idle).(lk := W.None)
  }

  ghost function PcAt(a: W.Sys, p: nat): W.Pc { if p < |a.pc| then a.pc[p] else W.Idle }

  /** kill wakes a sleeper for no reason of the lock's. */
  ghost function Kicked(s: Sys, p: nat): (t: Sys)
    requires Sized(s) && p < |s.pc|
  {
    s.(state := W.Kicked(Abs(s), p).state)
  }

  // ---------------------------------------------------------------- ownership

  ghost predicate Owns(c: Pc) { c.Unlock1? || c.Crit? || c.Clear? }

  ghost predicate OwnsAt(s: Sys, p: nat)
    requires p < |s.pc|
  {
    (Owns(s.pc[p]) <==> s.owner == W.Some(p)) && (s.pc[p].Take? ==> !s.locked) && (s.pc[p].In? ==> W.Inner(s.pc[p].pc))
  }

  /** The sleep lock is taken exactly while one process owns it. */
  ghost predicate Ownership(s: Sys) {
    && (s.locked <==> s.owner.Some?) && (s.owner.Some? ==> s.owner.p < |s.pc|) &&
      forall p :: 0 <= p < |s.pc| ==> OwnsAt(s, p)
  }

  ghost predicate Inv(s: Sys) { Sized(s) && W.Inv(Abs(s)) && Ownership(s) }

  lemma OwnershipAt(s: Sys, p: nat)
    requires Ownership(s) && p < |s.pc|
    ensures OwnsAt(s, p) && (Owns(s.pc[p]) ==> s.locked)
  {}

  /** The choice that makes a step of sleep and wakeup out of a step of the sleep lock. */
  ghost function Choose(s: Sys, p: nat): W.Choice
    requires p < |s.pc|
  {
    match s.pc[p]
    case Idle => W.Enter
    case Take => W.Change(seq(|s.pc|, _ => false))
    case Clear => W.Change(seq(|s.pc|, _ => true))
    case Call => W.Tell
    case Unlock1 => W.Leave
    case Unlock2 => W.Leave
    case _ => W.Go
  }

  lemma SameSys(a: W.Sys, b: W.Sys)
    requires |a.pc| == |b.pc| == |a.cond| == |b.cond| &&
      (forall p :: 0 <= p < |a.pc| ==> a.pc[p] == b.pc[p] && a.cond[p] == b.cond[p])
    requires a.state == b.state && a.chan == b.chan && a.plock == b.plock && a.lk == b.lk
    ensures a == b
  {
    assert a.pc == b.pc && a.cond == b.cond;
  }

  /** A step inside sleep or wakeup changes no condition, and ends there, in the test, or under lk after the test or the
      scan. */
  lemma InnerStep(a: W.Sys, p: nat)
    requires W.Sized(a) && p < |a.pc| && W.Inner(a.pc[p]) && W.Enabled(a, p, W.Go)
    ensures var b := W.Step(a, p, W.Go);
      && |b.pc| == |a.pc| && b.cond == a.cond && b.pc == a.pc[p := b.pc[p]] && !b.pc[p].Idle? && W.Sized(b)
      && (b.pc[p].Held? ==>
        b.pc[p] == W.Held(false) && (a.pc[p].Test? || a.pc[p].Scan?) && (a.pc[p].Test? ==> a.cond[p]))
  {}

  lemma NoneTurns(n: nat, a: seq<bool>)
    ensures !W.Turns(a, seq(n, _ => false))
  {}

  lemma SomeTurns(n: nat, a: seq<bool>, p: nat)
    requires p < n == |a| && !a[p]
    ensures W.Turns(a, seq(n, _ => true))
  {
    assert seq(n, _ => true)[p];
  }

  /** Every step of the sleep lock is a step of sleep and wakeup. */
  lemma StepMaps(s: Sys, p: nat)
    requires Sized(s) && Ownership(s) && p < |s.pc| && Enabled(s, p)
    ensures W.Sized(Abs(s)) && W.Enabled(Abs(s), p, Choose(s, p)) && Sized(Step(s, p)) && |Step(s, p).pc| == |s.pc|
    ensures Abs(Step(s, p)) == W.Step(Abs(s), p, Choose(s, p))
  {
    OwnershipAt(s, p);
    hide Ownership, W.Step, W.Enabled, Step, Choose, Abs, Enabled;
    if s.pc[p].In? { InnerMaps(s, p); } else { OuterMaps(s, p); }
  }

  lemma InnerMaps(s: Sys, p: nat)
    requires Sized(s) && p < |s.pc| && OwnsAt(s, p) && Enabled(s, p) && s.pc[p].In?
    ensures W.Sized(Abs(s)) && W.Enabled(Abs(s), p, Choose(s, p)) && Sized(Step(s, p)) && |Step(s, p).pc| == |s.pc|
    ensures Abs(Step(s, p)) == W.Step(Abs(s), p, Choose(s, p))
  {
    hide W.Step, W.Enabled;
    InnerStep(Abs(s), p);
    SameSys(Abs(Step(s, p)), W.Step(Abs(s), p, W.Go));
  }

  lemma OuterMaps(s: Sys, p: nat)
    requires Sized(s) && p < |s.pc| && OwnsAt(s, p) && (Owns(s.pc[p]) ==> s.locked) && Enabled(s, p) && !s.pc[p].In?
    ensures W.Sized(Abs(s)) && W.Enabled(Abs(s), p, Choose(s, p)) && Sized(Step(s, p)) && |Step(s, p).pc| == |s.pc|
    ensures Abs(Step(s, p)) == W.Step(Abs(s), p, Choose(s, p))
  {
    if Abs(s).pc[p].Idle? { IdleMaps(s, p); } else { HeldMaps(s, p); }
  }

  lemma IdleMaps(s: Sys, p: nat)
    requires Sized(s) && p < |s.pc| && OwnsAt(s, p) && Enabled(s, p) && !s.pc[p].In? && Abs(s).pc[p].Idle?
    ensures W.Sized(Abs(s)) && W.Enabled(Abs(s), p, Choose(s, p)) && Sized(Step(s, p)) && |Step(s, p).pc| == |s.pc|
    ensures Abs(Step(s, p)) == W.Step(Abs(s), p, Choose(s, p))
  {
    hide W.Turns;
    NoneTurns(|s.pc|, Abs(s).cond);
    W.StepIdle(Abs(s), p, Choose(s, p));
    hide W.Step, W.Enabled;
    SameSys(Abs(Step(s, p)), W.Step(Abs(s), p, Choose(s, p)));
  }

  lemma HeldMaps(s: Sys, p: nat)
    requires Sized(s) && p < |s.pc| && OwnsAt(s, p) && (Owns(s.pc[p]) ==> s.locked) && Enabled(s, p) && !s.pc[p].In? &&
      !Abs(s).pc[p].Idle?
    ensures W.Sized(Abs(s)) && W.Enabled(Abs(s), p, Choose(s, p)) && Sized(Step(s, p)) && |Step(s, p).pc| == |s.pc|
    ensures Abs(Step(s, p)) == W.Step(Abs(s), p, Choose(s, p))
  {
    hide W.Turns;
    NoneTurns(|s.pc|, Abs(s).cond);
    if s.pc[p].Clear? { SomeTurns(|s.pc|, Abs(s).cond, p); }
    W.StepUnderLk(Abs(s), p, Choose(s, p));
    hide W.Step, W.Enabled;
    SameSys(Abs(Step(s, p)), W.Step(Abs(s), p, Choose(s, p)));
  }

  /** Of two processes at most one is under lk. */
  lemma StepOwns(s: Sys, p: nat, q: nat)
    requires Sized(s) && Ownership(s) && p < |s.pc| && Enabled(s, p) && q < |s.pc| && W.Sized(Abs(s)) &&
      W.LkAt(Abs(s), p) && W.LkAt(Abs(s), q)
    ensures |Step(s, p).pc| == |s.pc| && OwnsAt(Step(s, p), q)
  {
    OwnershipAt(s, p);
    OwnershipAt(s, q);
    hide Ownership;
    if s.pc[p].In? {
      InnerStep(Abs(s), p);
      hide W.Step, W.Enabled;
    } else {
      hide W.Step;
    }
  }

  lemma StepLocked(s: Sys, p: nat)
    requires Sized(s) && Ownership(s) && p < |s.pc| && Enabled(s, p)
    ensures var t := Step(s, p); (t.locked <==> t.owner.Some?) && (t.owner.Some? ==> t.owner.p < |s.pc|)
  {
    hide W.Step, W.Enabled;
  }

  lemma StepInv(s: Sys, p: nat)
    requires Inv(s) && p < |s.pc| && Enabled(s, p)
    ensures Inv(Step(s, p))
  {
    StepMaps(s, p);
    StepLocked(s, p);
    hide Step, Enabled, Abs, Choose, W.Step, W.Enabled, OwnsAt, W.LkAt, W.OwnAt, W.PlockAt, W.Sleepers, W.Wakeups;
    W.StepInv(Abs(s), p, Choose(s, p));
    var t := Step(s, p);
    forall q | 0 <= q < |t.pc| ensures OwnsAt(t, q) {
      W.LocksAt(Abs(s), p);
      W.LocksAt(Abs(s), q);
      StepOwns(s, p, q);
    }
  }

  lemma KickedInv(s: Sys, p: nat)
    requires Inv(s) && p < |s.pc|
    ensures Inv(Kicked(s, p))
  {
    W.KickedInv(Abs(s), p);
    assert Sized(Kicked(s, p));
    SameSys(Abs(Kicked(s, p)), W.Kicked(Abs(s), p));
    hide W.Inv, W.Kicked;
    forall q | 0 <= q < |s.pc| ensures OwnsAt(Kicked(s, p), q) { OwnershipAt(s, q); }
  }

  // ---------------------------------------------------------------- runs

  /** A step of a process, or of kill. */
  datatype Event = Go(p: nat) | Kick(p: nat)

  ghost predicate Starts(s: Sys) {
    && Sized(s) && s.lk == W.None && !s.locked && s.owner == W.None
    && forall p :: 0 <= p < |s.pc| ==> s.pc[p] == Idle && s.state[p] == W.Ready && s.plock[p] == W.None
  }

  ghost predicate Follows(s: Sys, e: Event, t: Sys) {
    && Sized(s) && e.p < |s.pc|
    && (e.Go? ==> Enabled(s, e.p) && t == Step(s, e.p))
    && (e.Kick? ==> t == Kicked(s, e.p))
  }

  ghost predicate IsRun(states: seq<Sys>, events: seq<Event>) {
    && |states| == |events| + 1 && Starts(states[0])
    && forall i :: 0 <= i < |events| ==> Follows(states[i], events[i], states[i + 1])
  }

  lemma StartsInv(s: Sys)
    requires Starts(s)
    ensures Inv(s)
  {
    W.StartsInv(Abs(s));
  }

  lemma FollowsInv(s: Sys, e: Event, t: Sys)
    requires Inv(s) && Follows(s, e, t)
    ensures Inv(t)
  {
    hide Step, Kicked, Enabled, W.Inv, Ownership;
    if e.Go? { StepInv(s, e.p); } else { KickedInv(s, e.p); }
  }

  lemma {:induction false} RunInv(states: seq<Sys>, events: seq<Event>, i: nat)
    requires IsRun(states, events) && i < |states|
    ensures Inv(states[i])
  {
    if i == 0 {
      StartsInv(states[0]);
    } else {
      RunInv(states, events, i - 1);
      hide Inv, Follows;
      assert Follows(states[i - 1], events[i - 1], states[i]);
      FollowsInv(states[i - 1], events[i - 1], states[i]);
    }
  }

  /** In every run a sleep lock has at most one holder. */
  lemma OneHolder(states: seq<Sys>, events: seq<Event>, i: nat, p: nat, q: nat)
    requires IsRun(states, events) && i < |states| && p < |states[i].pc| && q < |states[i].pc|
    requires states[i].pc[p].Crit? && states[i].pc[q].Crit?
    ensures p == q && states[i].locked
  {
    RunInv(states, events, i);
    OwnershipAt(states[i], p);
    OwnershipAt(states[i], q);
  }

  /** In every run, when the sleep lock is free and no releasesleep is under way, nobody sleeps on it. */
  lemma FreeLockNoSleeper(states: seq<Sys>, events: seq<Event>, i: nat, p: nat)
    requires IsRun(states, events) && i < |states| && p < |states[i].pc| && |states[i].state| == |states[i].pc|
    requires !states[i].locked && states[i].lk == W.None
    ensures states[i].state[p] != W.Sleeping
  {
    RunInv(states, events, i);
    W.AwakeNow(Abs(states[i]), p);
  }

  // ---------------------------------------------------------------- whole calls

  /** Process p takes n steps of its own. */
  ghost predicate Goes(s: Sys, p: nat, n: nat, t: Sys)
    decreases n
  {
    if n == 0 then s == t else Sized(s) && p < |s.pc| && Enabled(s, p) && Goes(Step(s, p), p, n - 1, t)
  }

  lemma GoesFirst(s: Sys, p: nat, r: Sys, n: nat, t: Sys)
    requires Sized(s) && p < |s.pc| && Enabled(s, p) && r == Step(s, p) && Goes(r, p, n, t)
    ensures Goes(s, p, n + 1, t)
  {}

  lemma GoesNone(s: Sys, p: nat)
    ensures Goes(s, p, 0, s)
  {}

  lemma {:induction false} GoesMore(s: Sys, p: nat, n: nat, r: Sys, m: nat, t: Sys)
    requires Goes(s, p, n, r) && Goes(r, p, m, t)
    ensures Goes(s, p, n + m, t)
    decreases n
  {
    if n > 0 {
      hide Step, Enabled, Sized;
      GoesMore(Step(s, p), p, n - 1, r, m, t);
    }
  }

  ghost predicate Scanning(c: W.Pc) { c.Scan? || c.Scan2? }

  /** One step in sleep or wakeup. */
  lemma InStep(s: Sys, p: nat)
    requires Sized(s) && p < |s.pc| && s.pc[p].In? && W.Inner(s.pc[p].pc) && W.Enabled(Abs(s), p, W.Go)
    ensures Enabled(s, p)
    ensures var t, b := Step(s, p), W.Step(Abs(s), p, W.Go);
      && Sized(t) && Abs(t) == b && t.locked == s.locked && t.owner == s.owner && |t.pc| == |s.pc|
      && t.pc == s.pc[p := if b.pc[p].Held? then if Scanning(s.pc[p].pc) then Unlock2 else Take else In(b.pc[p])]
      && (W.Inner(b.pc[p]) ==> Scanning(b.pc[p]) == Scanning(s.pc[p].pc))
      && !b.pc[p].Idle? && (b.pc[p].Held? ==> b.pc[p] == W.Held(false))
  {
    var t, b := Step(s, p), W.Step(Abs(s), p, W.Go);
    SameSys(Abs(t), b);
  }

  /** The steps of sleep and wakeup are taken by the sleep lock. */
  lemma {:induction false} InGoes(s: Sys, p: nat, n: nat, b: W.Sys) returns (t: Sys)
    requires Sized(s) && p < |s.pc| && s.pc[p].In? && n > 0 && W.Goes(Abs(s), p, n, b)
    ensures Goes(s, p, n, t) && Sized(t) && |t.pc| == |s.pc| && Abs(t) == b
    ensures t.locked == s.locked && t.owner == s.owner
    ensures t.pc == s.pc[p := if b.pc[p].Held? then if Scanning(s.pc[p].pc) then Unlock2 else Take else In(b.pc[p])]
    decreases n
  {
    hide Step, Enabled, Goes, W.Step, W.Enabled, Abs;
    InStep(s, p);
    var r := Step(s, p);
    if n == 1 {
      t := r;
      GoesNone(t, p);
    } else {
      t := InGoes(r, p, n - 1, b);
    }
    GoesFirst(s, p, r, n - 1, t);
  }

  /** acquiresleep takes a free lock. */
  lemma AcquireTakes(s: Sys, p: nat)
    requires Sized(s) && p < |s.pc| && s.pc[p] == Idle && s.lk == W.None && !s.locked
    ensures Goes(s, p, 4, s.(pc := s.pc[p := Crit], locked := true, owner := W.Some(p)))
  {
    hide Goes;
    var t := s.(pc := s.pc[p := Crit], locked := true, owner := W.Some(p));
    var a := Step(s, p);
    var b := Step(a, p);
    Takes(b, p);
    assert b == s.(pc := s.pc[p := Take], lk := W.Some(p));
    assert b.pc[p := Crit] == t.pc;
    GoesFirst(a, p, b, 2, t);
    GoesFirst(s, p, a, 3, t);
  }

  lemma Takes(s: Sys, p: nat)
    requires Sized(s) && p < |s.pc| && s.pc[p] == Take
    ensures Goes(s, p, 2, s.(pc := s.pc[p := Crit], locked := true, owner := W.Some(p), lk := W.None))
  {
    hide Goes;
    var t := s.(pc := s.pc[p := Crit], locked := true, owner := W.Some(p), lk := W.None);
    var a := Step(s, p);
    assert Step(a, p) == t;
    GoesNone(t, p);
    GoesFirst(a, p, t, 0, t);
    GoesFirst(s, p, a, 1, t);
  }

  /** acquiresleep of a lock that is taken goes to sleep. */
  lemma AcquireSleeps(s: Sys, p: nat)
    requires Sized(s) && p < |s.pc| && s.pc[p] == Idle && s.lk == W.None && s.locked && s.plock[p] == W.None
    ensures Goes(s, p, 7, s.(pc := s.pc[p := In(W.Asleep)], state := s.state[p := W.Sleeping],
      chan := s.chan[p := true]))
  {
    hide Goes;
    var a := Step(s, p);
    var b := Abs(a);
    W.WaiterSleeps(b, p);
    var t := InGoes(a, p, 6, b.(pc := b.pc[p := W.Asleep], state := b.state[p := W.Sleeping],
      chan := b.chan[p := true], lk := W.None));
    assert t.pc == s.pc[p := In(W.Asleep)];
    GoesFirst(s, p, a, 6, t);
  }

  /** A sleeper that was woken and finds the lock free takes it. */
  lemma WokenTakes(s: Sys, p: nat)
    requires Sized(s) && p < |s.pc| && s.pc[p] == In(W.Asleep) && s.state[p] == W.Ready && s.plock[p] == W.None
    requires s.lk == W.None && !s.locked
    ensures Goes(s, p, 7, s.(pc := s.pc[p := Crit], locked := true, owner := W.Some(p), chan := s.chan[p := false]))
  {
    hide Goes;
    var a := Abs(s);
    W.WokenGoesOn(a, p);
    var b := InGoes(s, p, 5, a.(pc := a.pc[p := W.Held(false)], lk := W.Some(p), chan := a.chan[p := false]));
    Takes(b, p);
    var t := s.(pc := s.pc[p := Crit], locked := true, owner := W.Some(p), chan := s.chan[p := false]);
    assert b.pc[p := Crit] == t.pc;
    GoesMore(s, p, 5, b, 2, t);
  }

  lemma Frees(s: Sys, p: nat)
    requires Sized(s) && p < |s.pc| && s.pc[p] == Crit && s.lk == W.None
    ensures Goes(s, p, 3, s.(pc := s.pc[p := In(W.Scan(0))], locked := false, owner := W.None, lk := W.Some(p)))
  {
    hide Goes;
    var t := s.(pc := s.pc[p := In(W.Scan(0))], locked := false, owner := W.None, lk := W.Some(p));
    var a := Step(s, p);
    var b := Step(a, p);
    assert Step(b, p) == t;
    GoesNone(t, p);
    GoesFirst(b, p, t, 0, t);
    GoesFirst(a, p, b, 1, t);
    GoesFirst(s, p, a, 2, t);
  }

  /** releasesleep frees the lock and wakes everybody who sleeps on it. */
  lemma ReleaseWakes(s: Sys, p: nat) returns (n: nat)
    requires Sized(s) && p < |s.pc| && s.pc[p] == Crit && s.lk == W.None && W.AllFree(Abs(s), p, 0)
    ensures Goes(s, p, n, s.(pc := s.pc[p := Idle], locked := false, owner := W.None,
      state := W.Woken(Abs(s), p, 0)))
  {
    hide Goes;
    var t := s.(pc := s.pc[p := Idle], locked := false, owner := W.None, state := W.Woken(Abs(s), p, 0));
    var c := s.(pc := s.pc[p := In(W.Scan(0))], locked := false, owner := W.None, lk := W.Some(p));
    Frees(s, p);
    n := Wakes(c, p);
    assert W.Woken(Abs(c), p, 0) == t.state && c.pc[p := Idle] == t.pc;
    GoesMore(s, p, 3, c, n, t);
    n := 3 + n;
  }

  lemma Wakes(s: Sys, p: nat) returns (n: nat)
    requires Sized(s) && p < |s.pc| && s.pc[p] == In(W.Scan(0)) && W.AllFree(Abs(s), p, 0)
    ensures Goes(s, p, n, s.(pc := s.pc[p := Idle], state := W.Woken(Abs(s), p, 0), lk := W.None))
  {
    hide Goes, W.Woken;
    var t := s.(pc := s.pc[p := Idle], state := W.Woken(Abs(s), p, 0), lk := W.None);
    var a := Abs(s);
    n := W.WakeupWakes(a, p, 0);
    assert n > 0 by { W.GoesNonzero(a, p, n, a.(pc := a.pc[p := W.Held(false)], state := W.Woken(a, p, 0))); }
    var b := InGoes(s, p, n, a.(pc := a.pc[p := W.Held(false)], state := W.Woken(a, p, 0)));
    assert b.pc == s.pc[p := Unlock2];
    assert Step(b, p) == t;
    GoesNone(t, p);
    GoesFirst(b, p, t, 0, t);
    GoesMore(s, p, n, b, 1, t);
    n := n + 1;
  }
}
