/** fork, exit and wait run to their end (kernel/proc.c): what a whole call comes to when the locks it takes are free.
    */
module ProcCalls {
  import opened Proc
  import opened ProcLife

  ghost predicate By(es: seq<Event>, ps: set<nat>) { forall e :: e in es ==> e.p in ps }

  /** Steps of the processes ps, and switches to and from them, lead from s to t. */
  ghost predicate Takes(s: Sys, ps: set<nat>, t: Sys) { exists es :: By(es, ps) && Reaches(s, es, t) }

  lemma TakesNone(s: Sys, ps: set<nat>)
    ensures Takes(s, ps, s)
  {
    ReachesNone(s);
    assert By([], ps);
  }

  lemma TakesMore(s: Sys, ps: set<nat>, r: Sys, e: Event) returns (t: Sys)
    requires Takes(s, ps, r) && Sized(r) && Enabled(r, e) && e.p in ps
    ensures Takes(s, ps, t) && t == After(r, e)
  {
    hide Enabled, After, Sized, Reaches;
    var es :| By(es, ps) && Reaches(s, es, r);
    t := ReachesMore(s, es, r, e);
    assert By(es + [e], ps);
  }

  lemma TakesSwitch(s: Sys, ps: set<nat>, r: Sys, i: nat, c: nat) returns (t: Sys)
    requires Takes(s, ps, r) && i in ps && Sized(r) && i < |r.st| && c < |r.cpu| && r.cpu[c] == Looking
    requires r.lock[i] == Free && r.st[i] == RUNNABLE && r.pc[i].Off?
    ensures Takes(s, ps, t)
    ensures t == r.(st := r.st[i := RUNNING], pc := r.pc[i := Resumes(r.pc[i].b)], at := r.at[i := Some(c)],
      cpu := r.cpu[c := In(i)], chan := r.chan[i := false])
  {
    hide Reaches;
    var es :| By(es, ps) && Reaches(s, es, r);
    t := SwitchedTo(s, es, r, i, c);
    assert By(es + [SwitchIn(i, c), Resume(i)], ps);
  }

  /** A process goes off its CPU, which looks for another. */
  lemma TakesOff(s: Sys, ps: set<nat>, r: Sys, p: nat, c: nat, b: Back) returns (t: Sys)
    requires Takes(s, ps, r) && p in ps && Sized(r) && p < |r.st| && c < |r.cpu| && r.at[p] == Some(c)
    requires r.pc[p] == Sched(b)
    ensures Takes(s, ps, t)
    ensures t == r.(pc := r.pc[p := Off(b)], lock := r.lock[p := Free], at := r.at[p := None],
      cpu := r.cpu[c := Looking])
  {
    hide Takes;
    var a := TakesMore(s, ps, r, SwitchOut(p));
    t := TakesMore(s, ps, a, Settle(p, c));
    assert r.lock[p := Cpu(c)][p := Free] == r.lock[p := Free];
    assert r.cpu[c := Out(p)][c := Looking] == r.cpu[c := Looking];
  }

  // ---------------------------------------------------------------- fork

  /** fork makes the child runnable, its own, and changes nothing else. */
  lemma ForkReturns(s: Sys, p: nat, k: nat) returns (t: Sys)
    requires Inv(s) && p < |s.st| && k < |s.st| && s.pc[p] == User && s.st[k] == UNUSED
    requires s.wl == None && s.lock[k] == Free
    ensures Takes(s, {p}, t)
    ensures t == s.(st := s.st[k := RUNNABLE], par := s.par[k := Some(p)], pc := s.pc[k := Off(ToUser)])
  {
    hide Inv, Family, Placed, Takes;
    InvHas(s, p);
    InvHas(s, k);
    TakesNone(s, {p});
    t := TakesMore(s, {p}, s, Alloc(p, k));
    t := TakesMore(s, {p}, t, Parent(p));
    t := TakesMore(s, {p}, t, Begin(p));
    assert s.maker[k := Some(p)][k := None] == s.maker;
    assert s.st[k := USED][k := RUNNABLE] == s.st[k := RUNNABLE];
    assert s.pc[p := SetPar(k)][p := Start(k)][p := User] == s.pc;
  }

  // ---------------------------------------------------------------- sleep

  /** A process that sleeps for something other than its children is asleep and off its CPU ... */
  lemma SleepGoesOff(s: Sys, p: nat, c: nat) returns (t: Sys)
    requires Inv(s) && p < |s.st| && s.pc[p] == User && s.at[p] == Some(c)
    ensures Takes(s, {p}, t) && c < |s.cpu|
    ensures t == s.(st := s.st[p := SLEEPING], pc := s.pc[p := Off(ToUser)], chan := s.chan[p := false],
      at := s.at[p := None], cpu := s.cpu[c := Looking])
  {
    hide Inv, Family, Making, Takes;
    InvHas(s, p);
    TakesNone(s, {p});
    t := TakesMore(s, {p}, s, OtherSleep(p));
    t := TakesOff(s, {p}, t, p, c, ToUser);
    assert t.pc == s.pc[p := Off(ToUser)] && t.lock == s.lock;
  }

  /** ... and a wakeup brings it back to user code, as it was. */
  lemma SleepReturns(s: Sys, p: nat, c: nat) returns (t: Sys)
    requires Inv(s) && p < |s.st| && s.pc[p] == User && s.at[p] == Some(c)
    ensures c < |s.cpu| && Takes(s.(st := s.st[p := SLEEPING], pc := s.pc[p := Off(ToUser)],
      chan := s.chan[p := false], at := s.at[p := None], cpu := s.cpu[c := Looking]), {p}, t)
    ensures t == s.(chan := s.chan[p := false])
  {
    hide Inv, Family, Making, Takes;
    InvHas(s, p);
    var r := s.(st := s.st[p := SLEEPING], pc := s.pc[p := Off(ToUser)], chan := s.chan[p := false],
      at := s.at[p := None], cpu := s.cpu[c := Looking]);
    TakesNone(r, {p});
    t := TakesMore(r, {p}, r, Wakeup(p));
    t := TakesSwitch(r, {p}, t, p, c);
    assert t.st == s.st && t.pc == s.pc && t.at == s.at && t.cpu == s.cpu && t.lock == s.lock;
  }

  // ---------------------------------------------------------------- wait

  /** Process i is a child of p. */
  ghost predicate ChildOf(s: Sys, i: nat, p: nat)
    requires Sized(s) && i < |s.st|
  {
    s.par[i] == Some(p)
  }

  /** wait can look at every child of p from lo up to hi, and none of them is a zombie. */
  ghost predicate NoneDead(s: Sys, p: nat, lo: nat, hi: nat)
    requires Sized(s) && hi <= |s.st|
  {
    forall i :: lo <= i < hi && ChildOf(s, i, p) ==> s.lock[i] == Free && s.st[i] != ZOMBIE
  }

  ghost predicate AnyChild(s: Sys, p: nat, lo: nat, hi: nat)
    requires Sized(s) && hi <= |s.st|
  {
    exists i :: lo <= i < hi && ChildOf(s, i, p)
  }

  /** One round of wait's scan. */
  lemma ScanStep(s: Sys, ps: set<nat>, r: Sys, p: nat, k: nat, kids: bool) returns (t: Sys)
    requires Takes(s, ps, r) && p in ps && Sized(r) && p < |r.st| && k < |r.st| && r.pc[p] == Scan(k, kids)
    requires ChildOf(r, k, p) ==> r.lock[k] == Free && r.st[k] != ZOMBIE
    ensures Takes(s, ps, t) && t == r.(pc := r.pc[p := Scan(k + 1, kids || ChildOf(r, k, p))])
  {
    hide Takes;
    t := TakesMore(s, ps, r, ScanOne(p));
    assert t.st == r.st && t.lock == r.lock && t.chan == r.chan;
  }

  lemma {:induction false} Scans(s: Sys, ps: set<nat>, r: Sys, p: nat, k: nat, kids: bool, z: nat) returns (t: Sys)
    requires Takes(s, ps, r) && p in ps && Sized(r) && p < |r.st| && k <= z <= |r.st| && r.pc[p] == Scan(k, kids)
    requires NoneDead(r, p, k, z)
    ensures Takes(s, ps, t) && t == r.(pc := r.pc[p := Scan(z, kids || AnyChild(r, p, k, z))])
    decreases z - k
  {
    hide Takes;
    if k == z {
      t := r;
      assert r.pc[p := r.pc[p]] == r.pc;
    } else {
      var a := ScanStep(s, ps, r, p, k, kids);
      assert forall i: nat :: i < |r.st| ==> ChildOf(a, i, p) == ChildOf(r, i, p);
      t := Scans(s, ps, a, p, k + 1, kids || ChildOf(r, k, p), z);
      AnyMore(r, a, p, k, z);
      assert a.pc[p := t.pc[p]] == r.pc[p := t.pc[p]];
    }
  }

  lemma AnyMore(s: Sys, t: Sys, p: nat, k: nat, z: nat)
    requires Sized(s) && Sized(t) && k < z <= |s.st| && t.par == s.par
    ensures AnyChild(s, p, k, z) <==> ChildOf(s, k, p) || AnyChild(t, p, k + 1, z)
  {
    if i :| k <= i < z && ChildOf(s, i, p) { assert ChildOf(t, i, p); }
    if i :| k + 1 <= i < z && ChildOf(t, i, p) { assert ChildOf(s, i, p); }
  }

  /** From the start of its scan wait frees the first zombie child and returns. */
  lemma ScanReaps(s: Sys, ps: set<nat>, r: Sys, p: nat, z: nat) returns (t: Sys)
    requires Takes(s, ps, r) && p in ps && Sized(r) && p < |r.st| && z < |r.st| && p != z
    requires r.pc[p] == Scan(0, false) && r.wl == Some(p)
    requires NoneDead(r, p, 0, z) && ChildOf(r, z, p) && r.lock[z] == Free && r.st[z] == ZOMBIE
    ensures Takes(s, ps, t)
    ensures t == r.(st := r.st[z := UNUSED], par := r.par[z := None], pc := r.pc[p := User][z := NoThread], wl := None)
  {
    hide Takes, NoneDead, AnyChild;
    var a := Scans(s, ps, r, p, 0, false, z);
    t := TakesMore(s, ps, a, Reap(p));
    assert a.pc[p := User] == r.pc[p := User];
  }

  /** wait with a zombie child: the slot is free, the child is nobody's, and nothing else changes. */
  lemma WaitReaps(s: Sys, p: nat, z: nat) returns (t: Sys)
    requires Inv(s) && p < |s.st| && z < |s.st| && s.pc[p] == User && s.wl == None
    requires NoneDead(s, p, 0, z) && ChildOf(s, z, p) && s.lock[z] == Free && s.st[z] == ZOMBIE
    ensures Takes(s, {p}, t) && t == s.(st := s.st[z := UNUSED], par := s.par[z := None], pc := s.pc[z := NoThread])
  {
    hide Inv, Placed, Making, Takes;
    InvHas(s, z);
    TakesNone(s, {p});
    var a := TakesMore(s, {p}, s, Wait(p));
    SameButPc(s, a, p);
    t := ScanReaps(s, {p}, a, p, z);
    assert a.pc[p := User] == s.pc;
  }

  lemma SameButPc(s: Sys, t: Sys, p: nat)
    requires Sized(s) && Sized(t) && |t.st| == |s.st| && t.par == s.par && t.lock == s.lock && t.st == s.st
    ensures forall i: nat :: i < |s.st| ==> ChildOf(t, i, p) == ChildOf(s, i, p)
    ensures forall lo, hi: nat :: hi <= |s.st| ==> NoneDead(t, p, lo, hi) == NoneDead(s, p, lo, hi)
    ensures forall lo, hi: nat :: hi <= |s.st| ==> AnyChild(t, p, lo, hi) == AnyChild(s, p, lo, hi)
  {
    assert forall i: nat :: i < |s.st| ==> ChildOf(t, i, p) == ChildOf(s, i, p);
  }

  /** wait without children looks at every process and returns with nothing changed. */
  lemma WaitFails(s: Sys, p: nat)
    requires Inv(s) && p < |s.st| && s.pc[p] == User && s.wl == None && !AnyChild(s, p, 0, |s.st|)
    ensures Enabled(s, Wait(p)) && Takes(After(s, Wait(p)), {p}, s)
  {
    var r := After(s, Wait(p));
    TakesNone(r, {p});
    assert forall i: nat :: i < |s.st| ==> ChildOf(r, i, p) == ChildOf(s, i, p);
    var t := Scans(r, {p}, r, p, 0, false, |s.st|);
    hide Inv, Takes;
    t := TakesMore(r, {p}, t, GiveUp(p));
    assert t.pc == s.pc && t.st == s.st && t.lock == s.lock && t.chan == s.chan;
  }

  /** wait with children, none of them a zombie, goes to sleep until one tells it. */
  lemma WaitSleeps(s: Sys, p: nat, c: nat) returns (t: Sys)
    requires Inv(s) && p < |s.st| && s.pc[p] == User && s.wl == None && s.at[p] == Some(c)
    requires NoneDead(s, p, 0, |s.st|) && AnyChild(s, p, 0, |s.st|)
    ensures Takes(s, {p}, t) && c < |s.cpu|
    ensures t == s.(st := s.st[p := SLEEPING], pc := s.pc[p := Off(ToWait)], chan := s.chan[p := true],
      at := s.at[p := None], cpu := s.cpu[c := Looking])
  {
    hide Inv, Family, Making, Takes;
    InvHas(s, p);
    TakesNone(s, {p});
    t := TakesMore(s, {p}, s, Wait(p));
    SameButPc(s, t, p);
    t := Scans(s, {p}, t, p, 0, false, |s.st|);
    t := TakesMore(s, {p}, t, ToSleep(p));
    t := TakesMore(s, {p}, t, FallAsleep(p));
    t := TakesOff(s, {p}, t, p, c, ToWait);
    assert t.pc == s.pc[p := Off(ToWait)] && t.lock == s.lock;
  }

  // ---------------------------------------------------------------- exit

  /** p's children from k on are init's. */
  ghost function Given(par: seq<Option>, p: nat, init: nat, k: nat): (r: seq<Option>)
    ensures |r| == |par|
  {
    seq(|par|, i requires 0 <= i < |par| => if i >= k && par[i] == Some(p) then Some(init) else par[i])
  }

  /** The states after a wakeup of q, if it sleeps in wait. */
  ghost function Roused(st: seq<State>, chan: seq<bool>, q: nat): (r: seq<State>)
    requires q < |st| == |chan|
    ensures |r| == |st|
  {
    if st[q] == SLEEPING && chan[q] then st[q := RUNNABLE] else st
  }

  /** What reparent leaves, from process k on. */
  ghost function Freed(s: Sys, p: nat, k: nat): (t: Sys)
    requires Sized(s) && p < |s.st|
  {
    s.(pc := s.pc[p := WakePar], par := Given(s.par, p, s.init, k),
       st := if AnyChild(s, p, k, |s.st|) then Roused(s.st, s.chan, s.init) else s.st)
  }

  lemma {:induction false} Reparents(s: Sys, ps: set<nat>, r: Sys, p: nat, k: nat) returns (t: Sys)
    requires Takes(s, ps, r) && p in ps && Sized(r) && p < |r.st| && k <= |r.st| && r.pc[p] == Rep(k)
    requires p != r.init && r.lock[r.init] == Free
    ensures Takes(s, ps, t) && t == Freed(r, p, k)
    decreases |r.st| - k
  {
    hide Takes;
    t := TakesMore(s, ps, r, Reparent(p));
    if k == |r.st| {
      assert t.st == r.st && t.lock == r.lock && t.chan == r.chan && Given(r.par, p, r.init, k) == r.par;
    } else if r.par[k] == Some(p) {
      t := TakesMore(s, ps, t, TellInit(p));
      FreedChild(r, t, p, k);
      t := Reparents(s, ps, t, p, k + 1);
    } else {
      assert t == r.(pc := r.pc[p := Rep(k + 1)]);
      FreedOther(r, t, p, k);
      t := Reparents(s, ps, t, p, k + 1);
    }
  }

  lemma FreedOther(r: Sys, t: Sys, p: nat, k: nat)
    requires Sized(r) && p < |r.st| && k < |r.st| && r.par[k] != Some(p) && t == r.(pc := r.pc[p := Rep(k + 1)])
    ensures Freed(t, p, k + 1) == Freed(r, p, k)
  {
    AnyMore(r, t, p, k, |r.st|);
    assert Given(t.par, p, t.init, k + 1) == Given(r.par, p, r.init, k);
    assert t.pc[p := WakePar] == r.pc[p := WakePar];
  }

  lemma FreedChild(r: Sys, t: Sys, p: nat, k: nat)
    requires Sized(r) && p < |r.st| && k < |r.st| && r.par[k] == Some(p) && p != r.init
    requires t == r.(pc := r.pc[p := Rep(k + 1)], par := r.par[k := Some(r.init)], st := Roused(r.st, r.chan, r.init))
    ensures Freed(t, p, k + 1) == Freed(r, p, k)
  {
    assert ChildOf(r, k, p);
    assert Given(t.par, p, t.init, k + 1) == Given(r.par, p, r.init, k);
    assert t.pc[p := WakePar] == r.pc[p := WakePar];
  }

  /** What exit leaves: a zombie, off its CPU; its children are init's, and init and its parent have been told. */
  ghost function Exited(s: Sys, p: nat, q: nat, c: nat): (t: Sys)
    requires Sized(s) && p < |s.st| && q < |s.st| && c < |s.cpu|
  {
    var told := if AnyChild(s, p, 0, |s.st|) then Roused(s.st, s.chan, s.init) else s.st;
    s.(st := Roused(told, s.chan, q)[p := ZOMBIE], par := Given(s.par, p, s.init, 0), pc := s.pc[p := Off(Never)],
       at := s.at[p := None], cpu := s.cpu[c := Looking])
  }

  lemma Tells(s: Sys, ps: set<nat>, r: Sys, p: nat, q: nat) returns (t: Sys)
    requires Takes(s, ps, r) && p in ps && Sized(r) && p < |r.st| && r.pc[p] == WakePar
    requires r.par[p] == Some(q) && q < |r.st| && r.lock[q] == Free
    ensures Takes(s, ps, t) && t == r.(st := Roused(r.st, r.chan, q), pc := r.pc[p := Zomb])
  {
    hide Takes;
    t := TakesMore(s, ps, r, TellParent(p));
  }

  /** exit from the wakeup of the parent on. */
  lemma Dies(s: Sys, ps: set<nat>, r: Sys, p: nat, q: nat, c: nat) returns (t: Sys)
    requires Takes(s, ps, r) && p in ps && Sized(r) && p < |r.st| && r.pc[p] == WakePar && r.lock[p] == Free
    requires r.par[p] == Some(q) && q < |r.st| && r.lock[q] == Free && r.at[p] == Some(c) && c < |r.cpu|
    ensures Takes(s, ps, t)
    ensures t == r.(st := Roused(r.st, r.chan, q)[p := ZOMBIE], pc := r.pc[p := Off(Never)], at := r.at[p := None],
      cpu := r.cpu[c := Looking], wl := None)
  {
    hide Takes, Roused;
    var a := Tells(s, ps, r, p, q);
    a := TakesMore(s, ps, a, Die(p));
    a := TakesMore(s, ps, a, LetGo(p));
    t := TakesOff(s, ps, a, p, c, Never);
    assert t.pc == r.pc[p := Off(Never)] && t.lock == r.lock;
  }

  lemma ExitEnds(s: Sys, ps: set<nat>, p: nat, q: nat, c: nat) returns (t: Sys)
    requires Inv(s) && p in ps && p < |s.st| && s.pc[p] == User && p != s.init && s.wl == None && s.at[p] == Some(c)
    requires s.par[p] == Some(q) && s.lock[s.init] == Free && q < |s.st| && s.lock[q] == Free
    ensures c < |s.cpu| && Takes(s, ps, t) && t == Exited(s, p, q, c)
  {
    hide Inv, Making, Takes, AnyChild, Given, Roused;
    InvHas(s, p);
    TakesNone(s, ps);
    var a := TakesMore(s, ps, s, Exit(p));
    assert a == s.(pc := s.pc[p := Rep(0)], wl := Some(p));
    SameButPc(s, a, p);
    a := Reparents(s, ps, a, p, 0);
    StillParent(s, p, q);
    t := Dies(s, ps, a, p, q, c);
    assert t.pc == s.pc[p := Off(Never)];
  }

  /** A child that exits while its parent sleeps in wait is reaped: the parent is woken, can be taken by the CPU the
      child was on, finds it, and is back in user code. */
  lemma ExitIsReaped(s: Sys, p: nat, q: nat, c: nat) returns (t: Sys)
    requires Inv(s) && q < |s.st| && s.pc[q] == User && q != s.init && s.wl == None && s.at[q] == Some(c)
    requires s.par[q] == Some(p) && p < |s.st| && s.pc[p] == Off(ToWait) && s.st[p] == SLEEPING
    requires s.lock[s.init] == Free && s.lock[p] == Free && c < |s.cpu|
    requires forall i: nat :: i < |s.st| && (ChildOf(s, i, p) || (p == s.init && ChildOf(s, i, q))) ==>
      s.lock[i] == Free && (ChildOf(s, i, q) ==> s.st[i] != ZOMBIE)
    ensures Takes(s, {p, q}, t) && |t.st| == |t.pc| == |t.par| == |t.at| == |s.st|
    ensures t.st[q] == UNUSED && t.par[q] == None && t.pc[q] == NoThread
    ensures t.st[p] == RUNNING && t.pc[p] == User && t.at[p] == Some(c) && Runs(t, c, p) && t.wl == None
    ensures forall i: nat :: i < |s.st| && i != q ==>
      t.par[i] == if s.par[i] == Some(q) then Some(s.init) else s.par[i]
  {
    hide Inv, Making, Takes, AnyChild, Placed;
    InvHas(s, q);
    InvAt(s, p);
    var a := ExitEnds(s, {p, q}, q, p, c);
    AwakeParent(s, q, p, c);
    var b := TakesSwitch(s, {p, q}, a, p, c);
    b := TakesMore(s, {p, q}, b, ReLock(p));
    OnlyDead(s, p, q, c);
    SameChildren(a, b, p, q);
    t := ScanReaps(s, {p, q}, b, p, q);
  }

  /** The exit has woken the parent. */
  lemma AwakeParent(s: Sys, q: nat, p: nat, c: nat)
    requires Sized(s) && q < |s.st| && p < |s.st| && p != q && c < |s.cpu| && s.st[p] == SLEEPING && s.chan[p]
    ensures var a := Exited(s, q, p, c);
      Sized(a) && a.st[p] == RUNNABLE && a.pc[p] == s.pc[p] && a.st[q] == ZOMBIE &&
        a.par[q] == Given(s.par, q, s.init, 0)[q]
  {}

  /** A parent that sleeps in wait has no zombie but the child that exits. */
  lemma OnlyDead(s: Sys, p: nat, q: nat, c: nat)
    requires Inv(s) && q < |s.st| && s.wl == None && c < |s.cpu| && s.pc[q] == User
    requires s.par[q] == Some(p) && p < |s.st| && s.pc[p] == Off(ToWait) && s.st[p] == SLEEPING
    requires forall i: nat :: i < |s.st| && (ChildOf(s, i, p) || (p == s.init && ChildOf(s, i, q))) ==>
      s.lock[i] == Free && (ChildOf(s, i, q) ==> s.st[i] != ZOMBIE)
    ensures NoneDead(Exited(s, q, p, c), p, 0, q)
  {
    hide Inv, AnyChild;
    InvHas(s, q);
    var a := Exited(s, q, p, c);
    forall i | 0 <= i < q && ChildOf(a, i, p) ensures a.lock[i] == Free && a.st[i] != ZOMBIE {
      assert ChildOf(s, i, p) || (p == s.init && ChildOf(s, i, q));
      if ChildOf(s, i, p) && s.st[i] == ZOMBIE { NoStrandedParent(s, i); }
    }
  }

  lemma SameChildren(a: Sys, b: Sys, p: nat, q: nat)
    requires Sized(a) && Sized(b) && q <= |a.st| == |b.st| && b.par == a.par && b.lock == a.lock
    requires p < |a.st| && b.st == a.st[p := RUNNING] && NoneDead(a, p, 0, q)
    ensures NoneDead(b, p, 0, q)
  {
    assert forall i: nat :: i < |a.st| ==> ChildOf(b, i, p) == ChildOf(a, i, p);
  }

  lemma StillParent(s: Sys, p: nat, q: nat)
    requires Sized(s) && p < |s.st| && s.par[p] == Some(q) && q != p
    ensures Given(s.par, p, s.init, 0)[p] == Some(q)
  {}
}
