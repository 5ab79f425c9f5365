/** sleep and wakeup on one channel (kernel/proc.c) around any condition tested and changed under a spin lock lk, one
    lock operation or one write a step, in any interleaving. */
module Wakeup {

  /** Where a process is: the step it takes next. Held(owes) is the code under lk; owes says that a condition somebody
      may wait for has come true since the last wakeup. */
  datatype Pc =
    | Idle                  // outside; next: acquire(lk)
    | Test                  // while (the condition does not hold)
    | Sleep1                // sleep: acquire(&p->lock)
    | Sleep2                // release(lk)
    | Sleep3                // p->chan = chan
    | Sleep4                // p->state = SLEEPING
    | Sleep5                // sched(), the scheduler releases p->lock
    | Asleep                // waits for the scheduler, which takes p->lock
    | Wake1                 // p->chan = 0
    | Wake2                 // release(&p->lock)
    | Wake3                 // acquire(lk)
    | Held(owes: bool)
    | Scan(q: nat)          // wakeup: acquire(&proc[q].lock)
    | Scan2(q: nat)         // wakeup: wake proc[q] if it sleeps here, release its lock

  /** What a process chooses to do next: outside, whether it comes to wait; under lk, to change what is waited for, call
      wakeup, test again, or release lk. */
  datatype Choice = Go | Enter | Change(cond: seq<bool>) | Tell | Again | Leave

  datatype Option = None | Some(p: nat)

  datatype State = Ready | Sleeping

  /** cond says for each process whether the condition it tests holds. */
  datatype Sys = Sys(pc: seq<Pc>, state: seq<State>, chan: seq<bool>, plock: seq<Option>, lk: Option, cond: seq<bool>)

  ghost predicate Sized(s: Sys) { |s.state| == |s.pc| == |s.chan| == |s.plock| == |s.cond| }

  /** Somebody's condition comes true. */
  ghost predicate Turns(a: seq<bool>, b: seq<bool>) { exists q :: 0 <= q < |a| && q < |b| && !a[q] && b[q] }

  /** Whether process p can take its next step: an acquire waits until the lock is free, a sleeper until it is woken; lk
      is given up, by release or by sleep, only when no wakeup is owed. */
  ghost predicate Enabled(s: Sys, p: nat, c: Choice)
    requires Sized(s) && p < |s.pc|
  {
    match s.pc[p]
    case Idle => s.lk == None && (c.Enter? || c.Go?)
    case Wake3 => s.lk == None
    case Sleep1 => s.plock[p] == None
    case Asleep => s.plock[p] == None && s.state[p] == Ready
    case Held(owes) => (c.Change? && |c.cond| == |s.pc|) || c.Tell? || (!owes && (c.Again? || c.Leave?))
    case Scan(q) => q < |s.pc| && q != p ==> s.plock[q] == None
    case Scan2(q) => q < |s.pc|
    case _ => true
  }

  ghost function To(s: Sys, p: nat, c: Pc): Sys
    requires p < |s.pc|
  {
    s.(pc := s.pc[p := c])
  }

  ghost function UnderLk(s: Sys, p: nat, owes: bool, c: Choice): Sys
    requires p < |s.pc|
  {
    match c
    case Change(cond) => To(s, p, Held(owes || Turns(s.cond, cond))).(cond := cond)
    case Tell => To(s, p, Scan(0))
    case Again => To(s, p, Test)
    case _ => To(s, p, Idle).(lk := None)
  }

  ghost function Step(s: Sys, p: nat, c: Choice): (t: Sys)
    requires Sized(s) && p < |s.pc| && Enabled(s, p, c)
  {
    match s.pc[p]
    case Idle => To(s, p, if c.Enter? then Test else Held(false)).(lk := Some(p))
    case Test => if s.cond[p] then To(s, p, Held(false)) else To(s, p, Sleep1)
    case Sleep1 => To(s, p, Sleep2).(plock := s.plock[p := Some(p)])
    case Sleep2 => To(s, p, Sleep3).(lk := None)
    case Sleep3 => To(s, p, Sleep4).(chan := s.chan[p := true])
    case Sleep4 => To(s, p, Sleep5).(state := s.state[p := Sleeping])
    case Sleep5 => To(s, p, Asleep).(plock := s.plock[p := None])
    case Asleep => To(s, p, Wake1).(plock := s.plock[p := Some(p)])
    case Wake1 => To(s, p, Wake2).(chan := s.chan[p := false])
    case Wake2 => To(s, p, Wake3).(plock := s.plock[p := None])
    case Wake3 => To(s, p, Test).(lk := Some(p))
    case Held(owes) => UnderLk(s, p, owes, c)
    case Scan(q) =>
      if q >= |s.pc| then To(s, p, Held(false))
      else if q == p then To(s, p, Scan(q + 1))
      else To(s, p, Scan2(q)).(plock := s.plock[q := Some(p)])
    case Scan2(q) =>
      To(s, p, Scan(q + 1)).(plock := s.plock[q := None],
                             state := if s.state[q] == Sleeping && s.chan[q] then s.state[q := Ready] else s.state)
  }

  /** kill wakes a sleeper for no reason of the condition's. */
  ghost function Kicked(s: Sys, p: nat): (t: Sys)
    requires Sized(s) && p < |s.pc|
  {
    if s.state[p] == Sleeping && s.plock[p] == None then s.(state := s.state[p := Ready]) else s
  }

  // ---------------------------------------------------------------- the invariant

  ghost predicate HasLk(c: Pc) { c.Test? || c.Sleep1? || c.Sleep2? || c.Held? || c.Scan? || c.Scan2? }

  ghost predicate HasOwn(c: Pc) { c.Sleep2? || c.Sleep3? || c.Sleep4? || c.Sleep5? || c.Wake1? || c.Wake2? }

  ghost predicate LkAt(s: Sys, p: nat)
    requires Sized(s) && p < |s.pc|
  {
    HasLk(s.pc[p]) <==> s.lk == Some(p)
  }

  ghost predicate OwnAt(s: Sys, p: nat)
    requires Sized(s) && p < |s.pc|
  {
    && (HasOwn(s.pc[p]) ==> s.plock[p] == Some(p))
    && (s.pc[p].Scan2? ==> s.pc[p].q < |s.pc| && s.pc[p].q != p && s.plock[s.pc[p].q] == Some(p))
  }

  ghost predicate PlockAt(s: Sys, q: nat)
    requires Sized(s) && q < |s.pc|
  {
    s.plock[q].Some? ==> var p := s.plock[q].p; p < |s.pc| && ((p == q && HasOwn(s.pc[q])) || s.pc[p] == Scan2(q))
  }

  /** Locks are held by exactly the processes whose next step says so. */
  ghost predicate Locks(s: Sys)
    requires Sized(s)
  {
    forall p :: 0 <= p < |s.pc| ==> LkAt(s, p) && OwnAt(s, p) && PlockAt(s, p)
  }

  ghost predicate SleeperAt(s: Sys, p: nat)
    requires Sized(s) && p < |s.pc|
  {
    && (s.state[p] == Sleeping ==> s.pc[p].Sleep5? || s.pc[p].Asleep?) && (s.pc[p].Sleep5? ==> s.state[p] == Sleeping)
    && (s.pc[p].Sleep4? || s.pc[p].Sleep5? || s.pc[p].Asleep? ==> s.chan[p])
  }

  ghost predicate Sleepers(s: Sys)
    requires Sized(s)
  {
    forall p :: 0 <= p < |s.pc| ==> SleeperAt(s, p)
  }

  /** On its way to sleep, or asleep. */
  ghost predicate Committed(s: Sys, p: nat)
    requires Sized(s) && p < |s.pc|
  {
    s.pc[p].Sleep1? || s.pc[p].Sleep2? || s.pc[p].Sleep3? || s.pc[p].Sleep4? || s.pc[p].Sleep5? ||
      (s.pc[p].Asleep? && s.state[p] == Sleeping)
  }

  /** A wakeup is owed, or under way and has not come to process p yet. */
  ghost predicate Coming(s: Sys, p: nat) {
    && s.lk.Some? && s.lk.p < |s.pc|
    && var c := s.pc[s.lk.p]; c == Held(true) || ((c.Scan? || c.Scan2?) && c.q <= p)
  }

  /** Nobody sleeps through: while a process goes to sleep or is asleep its condition does not hold or a wakeup is
      coming. */
  ghost predicate WakeupAt(s: Sys, p: nat)
    requires Sized(s) && p < |s.pc|
  {
    Committed(s, p) ==> !s.cond[p] || Coming(s, p)
  }

  ghost predicate Wakeups(s: Sys)
    requires Sized(s)
  {
    forall p :: 0 <= p < |s.pc| ==> WakeupAt(s, p)
  }

  ghost predicate Inv(s: Sys) { Sized(s) && Locks(s) && Sleepers(s) && Wakeups(s) }

  lemma LocksAt(s: Sys, p: nat)
    requires Sized(s) && Locks(s) && p < |s.pc|
    ensures LkAt(s, p) && OwnAt(s, p) && PlockAt(s, p)
  {}

  lemma SleepersAt(s: Sys, p: nat)
    requires Sized(s) && Sleepers(s) && p < |s.pc|
    ensures SleeperAt(s, p)
  {}

  // ---------------------------------------------------------------- every step keeps it

  lemma UnderLkFrame(s: Sys, p: nat, c: Choice)
    requires Sized(s) && p < |s.pc| && s.pc[p].Held? && Enabled(s, p, c)
    ensures var t := UnderLk(s, p, s.pc[p].owes, c);
      && t.state == s.state && t.chan == s.chan && t.plock == s.plock && |t.cond| == |s.cond|
      && (t.pc[p].Held? || t.pc[p].Test? || t.pc[p].Idle? || t.pc[p] == Scan(0)) && t.pc == s.pc[p := t.pc[p]]
  {
    hide Turns;
  }

  lemma StepUnderLk(s: Sys, p: nat, c: Choice)
    requires Sized(s) && p < |s.pc| && s.pc[p].Held? && Enabled(s, p, c)
    ensures Step(s, p, c) == UnderLk(s, p, s.pc[p].owes, c)
  {}

  lemma StepIdle(s: Sys, p: nat, c: Choice)
    requires Sized(s) && p < |s.pc| && s.pc[p].Idle? && Enabled(s, p, c)
    ensures Step(s, p, c) == To(s, p, if c.Enter? then Test else Held(false)).(lk := Some(p))
  {}

  lemma StepSized(s: Sys, p: nat, c: Choice)
    requires Sized(s) && p < |s.pc| && Enabled(s, p, c)
    ensures Sized(Step(s, p, c)) && |Step(s, p, c).pc| == |s.pc|
  {
    hide Turns, UnderLk;
    if s.pc[p].Held? { UnderLkFrame(s, p, c); }
  }

  lemma StepLk(s: Sys, p: nat, c: Choice, q: nat)
    requires Sized(s) && p < |s.pc| && Enabled(s, p, c) && q < |s.pc| && LkAt(s, p) && LkAt(s, q)
    ensures Sized(Step(s, p, c)) && |Step(s, p, c).pc| == |s.pc| && LkAt(Step(s, p, c), q)
  {
    hide Turns;
  }

  /** What a step of p does to the rest of the system. */
  lemma StepFrame(s: Sys, p: nat, c: Choice, q: nat)
    requires Sized(s) && p < |s.pc| && Enabled(s, p, c) && q < |s.pc| && q != p
    ensures var t := Step(s, p, c);
      && Sized(t) && |t.pc| == |s.pc| && t.pc[q] == s.pc[q] && t.chan[q] == s.chan[q]
      && t.plock[q] == (if s.pc[p] == Scan(q) then Some(p) else if s.pc[p] == Scan2(q) then None else s.plock[q])
      && t.state[q] == (if s.pc[p] == Scan2(q) && s.chan[q] then Ready else s.state[q])
  {
    hide Turns, UnderLk;
    if s.pc[p].Held? { UnderLkFrame(s, p, c); }
  }

  lemma StepSelf(s: Sys, p: nat, c: Choice)
    requires Sized(s) && p < |s.pc| && Enabled(s, p, c) && OwnAt(s, p) && SleeperAt(s, p)
    ensures Sized(Step(s, p, c)) && |Step(s, p, c).pc| == |s.pc| && OwnAt(Step(s, p, c), p)
  {
    hide Turns, UnderLk;
    if s.pc[p].Held? { UnderLkFrame(s, p, c); }
  }

  lemma StepSelfSleeper(s: Sys, p: nat, c: Choice)
    requires Sized(s) && p < |s.pc| && Enabled(s, p, c) && OwnAt(s, p) && SleeperAt(s, p)
    ensures Sized(Step(s, p, c)) && |Step(s, p, c).pc| == |s.pc| && SleeperAt(Step(s, p, c), p)
  {
    hide Turns, UnderLk;
    if s.pc[p].Held? { UnderLkFrame(s, p, c); }
  }

  /** What a step of p does to its own lock. */
  lemma StepOwnLock(s: Sys, p: nat, c: Choice)
    requires Sized(s) && p < |s.pc| && Enabled(s, p, c)
    ensures var t, a := Step(s, p, c), s.pc[p];
      && Sized(t) && |t.pc| == |s.pc|
      && t.plock[p] ==
        (if a.Sleep1? ||
        a.Asleep? then Some(p)
        else if a.Sleep5? || a.Wake2? then None else if a == Scan2(p) then None else s.plock[p])
      && (HasOwn(t.pc[p]) <==> a.Sleep1? || a.Asleep? || (HasOwn(a) && !a.Sleep5? && !a.Wake2?))
  {
    hide Turns, UnderLk;
    if s.pc[p].Held? { UnderLkFrame(s, p, c); }
  }

  lemma StepSelfPlock(s: Sys, p: nat, c: Choice)
    requires Sized(s) && p < |s.pc| && Enabled(s, p, c) && OwnAt(s, p) && PlockAt(s, p)
    ensures Sized(Step(s, p, c)) && |Step(s, p, c).pc| == |s.pc| && PlockAt(Step(s, p, c), p)
  {
    StepOwnLock(s, p, c);
    if s.plock[p].Some? && s.plock[p].p != p { StepFrame(s, p, c, s.plock[p].p); }
    hide Step;
  }

  lemma StepOwn(s: Sys, p: nat, c: Choice, q: nat)
    requires Sized(s) && Locks(s) && Sleepers(s) && p < |s.pc| && Enabled(s, p, c) && q < |s.pc|
    ensures Sized(Step(s, p, c)) && |Step(s, p, c).pc| == |s.pc| && OwnAt(Step(s, p, c), q)
  {
    LocksAt(s, p);
    LocksAt(s, q);
    hide Locks, Sleepers, Turns;
    if p == q {
      assert SleeperAt(s, p) by { SleepersAt(s, p); }
      StepSelf(s, p, c);
    } else {
      StepFrame(s, p, c, q);
      if s.pc[q].Scan2? {
        var r := s.pc[q].q;
        if r != p { StepFrame(s, p, c, r); } else { StepHeld(s, p, c, q); }
        hide Step;
      } else {
        hide Step;
      }
    }
  }

  /** While another process holds p's lock, p's step leaves it alone. */
  lemma StepHeld(s: Sys, p: nat, c: Choice, q: nat)
    requires Sized(s) && p < |s.pc| && Enabled(s, p, c) && OwnAt(s, p) && s.plock[p] == Some(q) && q != p
    ensures Sized(Step(s, p, c)) && |Step(s, p, c).pc| == |s.pc| && Step(s, p, c).plock[p] == Some(q)
  {
    hide Turns;
  }

  lemma StepPlock(s: Sys, p: nat, c: Choice, q: nat)
    requires Sized(s) && Locks(s) && p < |s.pc| && Enabled(s, p, c) && q < |s.pc|
    ensures Sized(Step(s, p, c)) && |Step(s, p, c).pc| == |s.pc| && PlockAt(Step(s, p, c), q)
  {
    LocksAt(s, p);
    LocksAt(s, q);
    hide Locks, Turns;
    if p == q {
      StepSelfPlock(s, p, c);
    } else {
      StepFrame(s, p, c, q);
      StepScans(s, p, c, q);
      if s.plock[q].Some? && s.plock[q].p != p { StepFrame(s, p, c, s.plock[q].p); }
      hide Step;
    }
  }

  lemma StepScans(s: Sys, p: nat, c: Choice, q: nat)
    requires Sized(s) && p < |s.pc| && Enabled(s, p, c) && q < |s.pc| && q != p
    ensures s.pc[p] == Scan(q) ==> Step(s, p, c).pc[p] == Scan2(q)
    ensures s.pc[p] == Scan2(q) ==> Step(s, p, c).pc[p] == Scan(q + 1)
    ensures Step(s, p, c).pc[p] == Scan2(q) ==> s.pc[p] == Scan(q)
  {
    hide Turns;
  }

  lemma StepSleeper(s: Sys, p: nat, c: Choice, q: nat)
    requires Sized(s) && Locks(s) && Sleepers(s) && p < |s.pc| && Enabled(s, p, c) && q < |s.pc|
    ensures Sized(Step(s, p, c)) && |Step(s, p, c).pc| == |s.pc| && SleeperAt(Step(s, p, c), q)
  {
    LocksAt(s, p);
    LocksAt(s, q);
    SleepersAt(s, p);
    SleepersAt(s, q);
    hide Locks, Sleepers, Turns;
    if p == q {
      StepSelfSleeper(s, p, c);
    } else {
      StepFrame(s, p, c, q);
      hide Step;
    }
  }

  /** A condition changes only under lk, and then a wakeup is owed if it came true. */
  lemma StepCond(s: Sys, p: nat, c: Choice, q: nat)
    requires Sized(s) && p < |s.pc| && Enabled(s, p, c) && q < |s.pc|
    ensures var t := Step(s, p, c);
      Sized(t) && |t.pc| == |s.pc| &&
      (t.cond[q] && !s.cond[q] ==> t.pc[p] == Held(true) && t.lk == s.lk && HasLk(s.pc[p]))
  {}

  /** p's own step: it goes on to sleep only when its condition does not hold. */
  lemma StepWakeupSelf(s: Sys, p: nat, c: Choice)
    requires Sized(s) && p < |s.pc| && Enabled(s, p, c) && LkAt(s, p) && SleeperAt(s, p) && WakeupAt(s, p)
    ensures Sized(Step(s, p, c)) && |Step(s, p, c).pc| == |s.pc| && WakeupAt(Step(s, p, c), p)
  {
    hide Turns, UnderLk;
    if s.pc[p].Held? { UnderLkFrame(s, p, c); }
  }

  /** Another's step: a wakeup that is coming keeps coming until it reaches q and wakes it. */
  lemma StepWakeupOther(s: Sys, p: nat, c: Choice, q: nat)
    requires Sized(s) && p < |s.pc| && Enabled(s, p, c) && q < |s.pc| && p != q && LkAt(s, p) && LkAt(s, q) &&
      OwnAt(s, p) && OwnAt(s, q)
    requires SleeperAt(s, q) && WakeupAt(s, q)
    ensures Sized(Step(s, p, c)) && |Step(s, p, c).pc| == |s.pc| && WakeupAt(Step(s, p, c), q)
  {
    StepCond(s, p, c, q);
    hide Turns;
  }

  lemma StepInv(s: Sys, p: nat, c: Choice)
    requires Inv(s) && p < |s.pc| && Enabled(s, p, c)
    ensures Inv(Step(s, p, c))
  {
    var t := Step(s, p, c);
    StepSized(s, p, c);
    hide Step, Enabled, LkAt, OwnAt, PlockAt, SleeperAt, WakeupAt;
    forall q | 0 <= q < |t.pc| ensures LkAt(t, q) && OwnAt(t, q) && PlockAt(t, q) && SleeperAt(t, q) && WakeupAt(t, q) {
      LocksAt(s, p);
      LocksAt(s, q);
      StepLk(s, p, c, q);
      StepOwn(s, p, c, q);
      StepPlock(s, p, c, q);
      StepSleeper(s, p, c, q);
      if p == q { StepWakeupSelf(s, p, c); } else { StepWakeupOther(s, p, c, q); }
    }
  }

  lemma KickedInv(s: Sys, p: nat)
    requires Inv(s) && p < |s.pc|
    ensures Inv(Kicked(s, p))
  {
    var t := Kicked(s, p);
    forall q | 0 <= q < |t.pc| ensures LkAt(t, q) && OwnAt(t, q) && PlockAt(t, q) && SleeperAt(t, q) && WakeupAt(t, q) {
      assert LkAt(s, q) && OwnAt(s, q) && PlockAt(s, q) && SleeperAt(s, q) && WakeupAt(s, q);
    }
  }

  // ---------------------------------------------------------------- runs

  /** A step of a process, or of kill. */
  datatype Event = Do(p: nat, c: Choice) | Kick(p: nat)

  ghost predicate Starts(s: Sys) {
    && Sized(s) && s.lk == None
    && forall p :: 0 <= p < |s.pc| ==> s.pc[p] == Idle && s.state[p] == Ready && s.plock[p] == None
  }

  ghost predicate Follows(s: Sys, e: Event, t: Sys) {
    && Sized(s) && e.p < |s.pc|
    && (e.Do? ==> Enabled(s, e.p, e.c) && t == Step(s, e.p, e.c))
    && (e.Kick? ==> t == Kicked(s, e.p))
  }

  ghost predicate IsRun(states: seq<Sys>, events: seq<Event>) {
    && |states| == |events| + 1 && Starts(states[0])
    && forall i :: 0 <= i < |events| ==> Follows(states[i], events[i], states[i + 1])
  }

  lemma StartsInv(s: Sys)
    requires Starts(s)
    ensures Inv(s)
  {
    forall q | 0 <= q < |s.pc|
      ensures LkAt(s, q) && OwnAt(s, q) && PlockAt(s, q) && SleeperAt(s, q) && WakeupAt(s, q) {}
  }

  lemma FollowsInv(s: Sys, e: Event, t: Sys)
    requires Inv(s) && Follows(s, e, t)
    ensures Inv(t)
  {
    hide Step, Kicked, Enabled, Locks, Sleepers, Wakeups;
    if e.Do? { StepInv(s, e.p, e.c); } else { KickedInv(s, e.p); }
  }

  lemma {:induction false} RunInv(states: seq<Sys>, events: seq<Event>, i: nat)
    requires IsRun(states, events) && i < |states|
    ensures Inv(states[i])
  {
    if i == 0 {
      StartsInv(states[0]);
    } else {
      RunInv(states, events, i - 1);
      hide Inv, Follows;
      assert Follows(states[i - 1], events[i - 1], states[i]);
      FollowsInv(states[i - 1], events[i - 1], states[i]);
    }
  }

  /** No lost wakeup: in every run, when lk is free nobody sleeps whose condition holds. */
  lemma NoLostWakeup(states: seq<Sys>, events: seq<Event>, i: nat, p: nat)
    requires IsRun(states, events) && i < |states| && p < |states[i].pc| && Sized(states[i])
    requires states[i].cond[p] && states[i].lk == None
    ensures states[i].state[p] != Sleeping
  {
    RunInv(states, events, i);
    AwakeNow(states[i], p);
  }

  lemma AwakeNow(s: Sys, p: nat)
    requires Inv(s) && p < |s.pc| && s.cond[p] && s.lk == None
    ensures s.state[p] != Sleeping
  {
    assert SleeperAt(s, p) && WakeupAt(s, p);
  }

  /** How many steps of its own until a process that has its lock gives it up. */
  function Left(c: Pc): (n: nat) {
    match c
    case Sleep2 => 4
    case Sleep3 => 3
    case Sleep4 => 2
    case Sleep5 => 1
    case Wake1 => 2
    case Wake2 => 1
    case _ => 0
  }

  /** A wakeup is never stuck: the process whose lock it waits for can take its next step, whatever the others do, and
      gives the lock up in at most three of them. */
  lemma WakeupMoves(s: Sys, p: nat, q: nat, c: Choice)
    requires Inv(s) && p < |s.pc| && s.pc[p] == Scan(q) && q < |s.pc| && !Enabled(s, p, c)
    ensures Enabled(s, q, Go) && 1 <= Left(s.pc[q]) <= 3
    ensures var t := Step(s, q, Go);
      && Sized(t) && |t.pc| == |s.pc| && Left(t.pc[q]) == Left(s.pc[q]) - 1 &&
        (Left(t.pc[q]) == 0 ==> t.plock[q] == None)
  {
    LocksAt(s, p);
    LocksAt(s, q);
    var h := s.plock[q].p;
    LocksAt(s, h);
  }

  /** In sleep or wakeup, where a process has no choice. */
  ghost predicate Inner(c: Pc) { !c.Idle? && !c.Held? }

  /** Process p takes n steps of its own in sleep and wakeup. */
  ghost predicate Goes(s: Sys, p: nat, n: nat, t: Sys)
    decreases n
  {
    if n == 0 then s == t
    else
      Sized(s) && p < |s.pc| && Inner(s.pc[p]) && Enabled(s, p, Go) && Goes(Step(s, p, Go), p, n - 1, t)
  }

  lemma GoesFirst(s: Sys, p: nat, r: Sys, n: nat, t: Sys)
    requires Sized(s) && p < |s.pc| && Inner(s.pc[p]) && Enabled(s, p, Go) && r == Step(s, p, Go) && Goes(r, p, n, t)
    ensures Goes(s, p, n + 1, t)
  {}

  lemma GetsLk(s: Sys, p: nat)
    requires Sized(s) && p < |s.pc| && s.pc[p] == Wake3 && s.lk == None && s.cond[p]
    ensures Goes(s, p, 2, s.(pc := s.pc[p := Held(false)], lk := Some(p)))
  {
    hide Goes;
    var t := s.(pc := s.pc[p := Held(false)], lk := Some(p));
    var a := Step(s, p, Go);
    assert Step(a, p, Go) == t;
    GoesNone(t, p);
    GoesFirst(a, p, t, 0, t);
    GoesFirst(s, p, a, 1, t);
  }

  /** A sleeper that was woken, with lk free and its condition true, gets lk and past the test in five steps of its
      own. */
  lemma WokenGoesOn(s: Sys, p: nat)
    requires Sized(s) && p < |s.pc| && s.pc[p] == Asleep && s.state[p] == Ready && s.plock[p] == None &&
      s.lk == None && s.cond[p]
    ensures Goes(s, p, 5, s.(pc := s.pc[p := Held(false)], lk := Some(p), chan := s.chan[p := false]))
  {
    hide Goes;
    var t := s.(pc := s.pc[p := Held(false)], lk := Some(p), chan := s.chan[p := false]);
    var a := Step(s, p, Go);
    var b := Step(a, p, Go);
    var c := Step(b, p, Go);
    GetsLk(c, p);
    assert s.plock[p := Some(p)][p := None] == s.plock && c.pc[p := Held(false)] == t.pc;
    GoesFirst(b, p, c, 2, t);
    GoesFirst(a, p, b, 3, t);
    GoesFirst(s, p, a, 4, t);
  }

  lemma GoesNone(s: Sys, p: nat)
    ensures Goes(s, p, 0, s)
  {}

  lemma GoesNonzero(s: Sys, p: nat, n: nat, t: Sys)
    requires Goes(s, p, n, t) && s != t
    ensures n > 0
  {}

  lemma FallsAsleep(s: Sys, p: nat)
    requires Sized(s) && p < |s.pc| && s.pc[p] == Sleep3
    ensures Goes(s, p, 3, s.(pc := s.pc[p := Asleep], state := s.state[p := Sleeping], chan := s.chan[p := true],
      plock := s.plock[p := None]))
  {
    hide Goes;
    var t := s.(pc := s.pc[p := Asleep], state := s.state[p := Sleeping], chan := s.chan[p := true],
      plock := s.plock[p := None]);
    var a := Step(s, p, Go);
    var b := Step(a, p, Go);
    assert Step(b, p, Go) == t;
    GoesNone(t, p);
    GoesFirst(b, p, t, 0, t);
    GoesFirst(a, p, b, 1, t);
    GoesFirst(s, p, a, 2, t);
  }

  /** A process that finds its condition false is asleep on the channel after six steps of its own, with lk free. */
  lemma WaiterSleeps(s: Sys, p: nat)
    requires Sized(s) && p < |s.pc| && s.pc[p] == Test && !s.cond[p] && s.plock[p] == None
    ensures Goes(s, p, 6, s.(pc := s.pc[p := Asleep], state := s.state[p := Sleeping], chan := s.chan[p := true],
      lk := None))
  {
    hide Goes;
    var t := s.(pc := s.pc[p := Asleep], state := s.state[p := Sleeping], chan := s.chan[p := true], lk := None);
    var a := Step(s, p, Go);
    var b := Step(a, p, Go);
    var c := Step(b, p, Go);
    FallsAsleep(c, p);
    assert s.plock[p := Some(p)][p := None] == s.plock && c.pc[p := Asleep] == t.pc;
    GoesFirst(b, p, c, 3, t);
    GoesFirst(a, p, b, 4, t);
    GoesFirst(s, p, a, 5, t);
  }

  /** The states after a wakeup by p of the processes from k on. */
  ghost function Woken(s: Sys, p: nat, k: nat): (r: seq<State>)
    requires Sized(s)
    ensures |r| == |s.state|
  {
    seq(|s.state|, q requires 0 <= q < |s.state| =>
      if q >= k && q != p && s.state[q] == Sleeping && s.chan[q] then Ready else s.state[q])
  }

  /** Of the processes from k on other than p, nobody's lock is taken. */
  ghost predicate AllFree(s: Sys, p: nat, k: nat)
    requires Sized(s)
  {
    forall q :: k <= q < |s.pc| && q != p ==> s.plock[q] == None
  }

  /** wakeup takes the lock of the process it is at and wakes it if it sleeps on the channel. */
  lemma WakeupVisits(s: Sys, p: nat, q: nat) returns (t: Sys)
    requires Sized(s) && p < |s.pc| && q < |s.pc| && q != p && s.pc[p] == Scan(q) && s.plock[q] == None
    ensures t == s.(pc := s.pc[p := Scan(q + 1)],
      state := if s.state[q] == Sleeping && s.chan[q] then s.state[q := Ready] else s.state)
    ensures Enabled(s, p, Go) && Sized(Step(s, p, Go)) && p < |Step(s, p, Go).pc|
    ensures Enabled(Step(s, p, Go), p, Go) && t == Step(Step(s, p, Go), p, Go)
  {
    var a := Step(s, p, Go);
    t := Step(a, p, Go);
    assert s.plock[q := Some(p)][q := None] == s.plock && t.pc == s.pc[p := Scan(q + 1)];
  }

  /** wakeup wakes everybody who sleeps on the channel and nobody else, and changes nothing else. */
  lemma {:induction false} WakeupWakes(s: Sys, p: nat, k: nat) returns (n: nat)
    requires Sized(s) && p < |s.pc| && s.pc[p] == Scan(k) && k <= |s.pc| && AllFree(s, p, k)
    ensures Goes(s, p, n, s.(pc := s.pc[p := Held(false)], state := Woken(s, p, k)))
    decreases |s.pc| - k
  {
    hide Goes;
    var t := s.(pc := s.pc[p := Held(false)], state := Woken(s, p, k));
    if k == |s.pc| {
      assert Woken(s, p, k) == s.state && Step(s, p, Go) == t;
      GoesNone(t, p);
      GoesFirst(s, p, t, 0, t);
      n := 1;
    } else if k == p {
      var a := Step(s, p, Go);
      n := WakeupWakes(a, p, k + 1);
      assert Woken(a, p, k + 1) == Woken(s, p, k) && a.pc[p := Held(false)] == t.pc;
      GoesFirst(s, p, a, n, t);
      n := n + 1;
    } else {
      var b := WakeupVisits(s, p, k);
      n := WakeupWakes(b, p, k + 1);
      assert Woken(b, p, k + 1) == Woken(s, p, k) && b.pc[p := Held(false)] == t.pc;
      GoesFirst(Step(s, p, Go), p, b, n, t);
      GoesFirst(s, p, Step(s, p, Go), n + 1, t);
      n := n + 2;
    }
  }
}
