/** The life of a process, over every step of kernel/proc.c: which step moves it from which state to which, and that a
    process made runnable does run, where it should. */
module ProcLife {
  import opened Proc

  /** Asleep in wait, on its own channel. */
  ghost predicate WaitsAsleep(s: Sys, i: nat)
    requires Sized(s) && i < |s.st|
  {
    s.st[i] == SLEEPING && s.chan[i]
  }

  /** The state event e leads process i to, if it is one of those that move it. */
  ghost predicate Leads(s: Sys, e: Event, i: nat, x: State)
    requires Sized(s) && i < |s.st|
  {
    match x
    case UNUSED => e.Reap? && e.p < |s.st| && s.par[i] == Some(e.p) && s.pc[e.p].Scan? && s.pc[e.p].k == i
    case USED => e.Alloc? && e.k == i
    case RUNNABLE =>
      || (e.Begin? && s.maker[i] == Some(e.p))
      || (e.Yield? && e.p == i)
      || (e.Wakeup? && e.p == i)
      || (e.TellInit? && i == s.init && WaitsAsleep(s, i))
      || (e.TellParent? && e.p < |s.st| && s.par[e.p] == Some(i) && WaitsAsleep(s, i))
    case RUNNING => e.SwitchIn? && e.p == i
    case SLEEPING => (e.FallAsleep? || e.OtherSleep?) && e.p == i
    case ZOMBIE => e.Die? && e.p == i
  }

  /** Where a process can come from when it gets to a state. */
  ghost predicate Comes(x: State, y: State) {
    match y
    case UNUSED => x == ZOMBIE
    case USED => x == UNUSED
    case RUNNABLE => x == USED || x == RUNNING || x == SLEEPING
    case RUNNING => x == RUNNABLE
    case SLEEPING => x == RUNNING
    case ZOMBIE => x == RUNNING
  }

  /** What the invariant says about one process. */
  lemma InvHas(s: Sys, i: nat)
    requires Inv(s) && i < |s.st|
    ensures Sized(s) && Placed(s, i) && Agrees(s, i) && Family(s, i) && Making(s, i)
  {
    hide Placed, Agrees, Family, Making, Heard;
    InvAt(s, i);
  }

  lemma Moved(s: Sys, e: Event, i: nat, x: State)
    requires Inv(s) && Enabled(s, e) && i < |s.st| && Leads(s, e, i, x)
    ensures |After(s, e).st| == |s.st| && After(s, e).st[i] == x && Comes(s.st[i], x)
  {
    hide Inv, Family, Placed;
    InvHas(s, i);
    InvHas(s, e.p);
    if e.TellInit? { hide Making; }
  }

  lemma OnlyMoved(s: Sys, e: Event, i: nat)
    requires Inv(s) && Enabled(s, e) && i < |s.st| && After(s, e).st[i] != s.st[i]
    ensures Leads(s, e, i, After(s, e).st[i])
  {
    hide Inv, Family, Placed;
    InvHas(s, i);
    InvHas(s, e.p);
  }

  lemma SameCount(s: Sys, e: Event)
    requires Inv(s) && Enabled(s, e)
    ensures Sized(s) && |After(s, e).st| == |s.st|
  {
    hide Placed, Agrees, Family, Making, Heard;
  }

  /** A step moves a process from one state to another exactly when it is the step that leads there, and only along the
      edges of the life cycle. A process goes to sleep only by its own doing, and whoever starts, preempts or wakes one
      leaves it runnable. */
  lemma LifeCycle(s: Sys, e: Event, i: nat)
    requires Inv(s) && Enabled(s, e) && i < |s.st|
    ensures var t := After(s, e);
      && |t.st| == |s.st| && (t.st[i] != s.st[i] ==> Leads(s, e, i, t.st[i]) && Comes(s.st[i], t.st[i]))
      && (forall x :: Leads(s, e, i, x) ==> t.st[i] == x && s.st[i] != x)
  {
    hide Inv, Sized, After, Enabled, Leads;
    SameCount(s, e);
    forall x | Leads(s, e, i, x)
      ensures After(s, e).st[i] == x && s.st[i] != x && Comes(s.st[i], x) { Moved(s, e, i, x); }
    if After(s, e).st[i] != s.st[i] { OnlyMoved(s, e, i); }
  }

  // ---------------------------------------------------------------- parents

  /** A process gets the parent that made it, or init when that exits, and loses it when it is reaped. */
  lemma ParentChanges(s: Sys, e: Event, i: nat)
    requires Inv(s) && Enabled(s, e) && i < |s.st|
    ensures var t := After(s, e);
      && |t.par| == |s.par|
      && (t.par[i] != s.par[i] ==>
            if e.Parent? then s.maker[i] == Some(e.p) && t.par[i] == Some(e.p)
            else if e.Reap? then s.st[i] == ZOMBIE && s.par[i] == Some(e.p) && t.par[i] == None
            else e.Reparent? && s.par[i] == Some(e.p) && Exiting(s.pc[e.p]) && t.par[i] == Some(s.init))
  {
    hide Inv, Family, Placed, Agrees;
    InvHas(s, e.p);
  }

  /** When an exiting process has gone through the table, no process has it for a parent. */
  lemma NoOrphans(s: Sys, p: nat, i: nat)
    requires Inv(s) && p < |s.st| && s.pc[p] == WakePar && i < |s.st|
    ensures s.par[i] != Some(p)
  {
    hide Inv, Making, Placed, Agrees;
    InvHas(s, i);
  }

  // ---------------------------------------------------------------- running

  /** A runnable process is on its way off its CPU, held by the scheduler that took it off, or can be taken by any CPU
      that looks for one. */
  lemma RunnableCanRun(s: Sys, i: nat, c: nat)
    requires Inv(s) && i < |s.st| && s.st[i] == RUNNABLE && c < |s.cpu| && s.cpu[c] == Looking
    ensures Enabled(s, SwitchOut(i)) || (s.lock[i].Cpu? && Enabled(s, Settle(i, s.lock[i].c))) ||
      Enabled(s, SwitchIn(i, c))
    ensures s.lock[i] == Free ==> Enabled(s, SwitchIn(i, c))
  {
    hide Inv, Family, Making;
    InvHas(s, i);
  }

  /** The events es lead from s to t. */
  ghost predicate Reaches(s: Sys, es: seq<Event>, t: Sys)
    decreases |es|
  {
    if es == [] then s == t
    else
      var n := |es| - 1;
      exists r :: Reaches(s, es[..n], r) && Follows(r, es[n], t)
  }

  lemma ReachesMore(s: Sys, es: seq<Event>, r: Sys, e: Event) returns (t: Sys)
    requires Reaches(s, es, r) && Sized(r) && Enabled(r, e)
    ensures Reaches(s, es + [e], t) && t == After(r, e)
  {
    hide Enabled, After, Sized;
    t := After(r, e);
    assert (es + [e])[..|es|] == es && Follows(r, e, t);
  }

  /** Switching to a process that is ready for it: it goes on where it went off, with its lock released. */
  lemma SwitchedTo(s: Sys, es: seq<Event>, r: Sys, i: nat, c: nat) returns (t: Sys)
    requires Reaches(s, es, r) && Sized(r) && i < |r.st| && c < |r.cpu| && r.cpu[c] == Looking
    requires r.lock[i] == Free && r.st[i] == RUNNABLE && r.pc[i].Off?
    ensures Reaches(s, es + [SwitchIn(i, c), Resume(i)], t) && Runs(t, c, i)
    ensures t == r.(st := r.st[i := RUNNING], pc := r.pc[i := Resumes(r.pc[i].b)], at := r.at[i := Some(c)],
      cpu := r.cpu[c := In(i)], chan := r.chan[i := false])
  {
    hide Reaches;
    var a := ReachesMore(s, es, r, SwitchIn(i, c));
    t := ReachesMore(s, es + [SwitchIn(i, c)], a, Resume(i));
    assert es + [SwitchIn(i, c)] + [Resume(i)] == es + [SwitchIn(i, c), Resume(i)];
    assert r.lock[i := Own][i := Free] == r.lock;
  }

  /** A forked child runs: once fork has made it runnable any CPU that looks for a process can take it, and then it is
      in user code there, the child of the process that forked it. */
  lemma ForkedChildRuns(s: Sys, p: nat, k: nat, c: nat) returns (t: Sys)
    requires Inv(s) && Enabled(s, Begin(p)) && s.pc[p] == Start(k) && c < |s.cpu| && s.cpu[c] == Looking
    ensures Reaches(s, [Begin(p), SwitchIn(k, c), Resume(k)], t) && Runs(t, c, k) &&
      |t.st| == |t.pc| == |t.lock| == |t.par| == |s.st|
    ensures k < |s.st| && t.st[k] == RUNNING && t.pc[k] == User && t.lock[k] == Free && t.par[k] == Some(p) &&
      t.pc[p] == User
  {
    hide Inv, Family, Placed, Agrees, Reaches;
    InvHas(s, p);
    InvHas(s, k);
    ReachesNone(s);
    var a := ReachesMore(s, [], s, Begin(p));
    t := SwitchedTo(s, [] + [Begin(p)], a, k, c);
    assert [] + [Begin(p)] + [SwitchIn(k, c), Resume(k)] == [Begin(p), SwitchIn(k, c), Resume(k)];
  }

  lemma ReachesNone(s: Sys)
    ensures Reaches(s, [], s)
  {}

  /** A process that is preempted goes on where it was, on any CPU that looks for one: nothing else changes. */
  lemma PreemptedGoesOn(s: Sys, p: nat, c: nat) returns (t: Sys)
    requires Inv(s) && Enabled(s, Yield(p)) && c < |s.cpu| && s.cpu[c] == Looking
    ensures s.at[p].Some? && s.at[p].i < |s.cpu|
    ensures Reaches(s, [Yield(p), SwitchOut(p), Settle(p, s.at[p].i), SwitchIn(p, c), Resume(p)], t)
    ensures t == s.(at := s.at[p := Some(c)], cpu := s.cpu[s.at[p].i := Looking][c := In(p)],
      chan := s.chan[p := false])
  {
    hide Inv, Family, Making, Reaches;
    InvHas(s, p);
    var d := s.at[p].i;
    ReachesNone(s);
    var a := ReachesMore(s, [], s, Yield(p));
    a := ReachesMore(s, [] + [Yield(p)], a, SwitchOut(p));
    a := ReachesMore(s, [] + [Yield(p)] + [SwitchOut(p)], a, Settle(p, d));
    var es := [] + [Yield(p)] + [SwitchOut(p)] + [Settle(p, d)];
    t := SwitchedTo(s, es, a, p, c);
    assert es + [SwitchIn(p, c), Resume(p)] == [Yield(p), SwitchOut(p), Settle(p, d), SwitchIn(p, c), Resume(p)];
    Restored(s, p, c);
  }

  lemma Restored(s: Sys, p: nat, c: nat)
    requires Sized(s) && p < |s.st| && c < |s.cpu| && s.st[p] == RUNNING && Preemptible(s.pc[p]) && s.lock[p] == Free
    ensures s.st[p := RUNNABLE][p := RUNNING] == s.st && s.lock[p := Own][p := Cpu(c)][p := Free] == s.lock
    ensures s.pc[p := Sched(Return(s.pc[p]))][p := Off(Return(s.pc[p]))][p := Resumes(Return(s.pc[p]))] == s.pc
    ensures s.at[p := None][p := Some(c)] == s.at[p := Some(c)]
  {}

  /** A sleeper that is woken goes on where it slept. */
  lemma SleeperGoesOn(s: Sys, i: nat, c: nat) returns (t: Sys)
    requires Inv(s) && Enabled(s, Wakeup(i)) && c < |s.cpu| && s.cpu[c] == Looking
    ensures s.pc[i].Off? && Reaches(s, [Wakeup(i), SwitchIn(i, c), Resume(i)], t) && Runs(t, c, i)
    ensures |t.st| == |t.pc| == |s.st| && t.st[i] == RUNNING && t.pc[i] == Resumes(s.pc[i].b)
  {
    hide Inv, Family, Making, Reaches;
    InvHas(s, i);
    ReachesNone(s);
    var a := ReachesMore(s, [], s, Wakeup(i));
    t := SwitchedTo(s, [] + [Wakeup(i)], a, i, c);
    assert [] + [Wakeup(i)] + [SwitchIn(i, c), Resume(i)] == [Wakeup(i), SwitchIn(i, c), Resume(i)];
  }

  // ---------------------------------------------------------------- wait

  /** One of the first k processes is a child of p. */
  ghost predicate HasChild(s: Sys, p: nat, k: nat)
    requires Sized(s)
  {
    exists i :: 0 <= i < k && i < |s.st| && s.par[i] == Some(p)
  }

  /** wait's scan has noticed a child exactly if there is one among those it has passed. */
  ghost predicate Noticed(s: Sys, p: nat)
    requires Sized(s) && p < |s.st|
  {
    s.pc[p].Scan? ==> (s.pc[p].kids <==> HasChild(s, p, s.pc[p].k))
  }

  lemma NoticedStep(s: Sys, e: Event, p: nat)
    requires Inv(s) && Enabled(s, e) && p < |s.st| && Noticed(s, p)
    ensures var t := After(s, e); Sized(t) && p < |t.st| && Noticed(t, p)
  {
    hide Inv, Family, Making, Agrees, HasChild;
    InvHas(s, p);
    InvHas(s, e.p);
    var t := After(s, e);
    if t.pc[p].Scan? {
      if s.pc[p].Scan? && s.pc[p].k < |s.st| { ChildMore(s, t, p, s.pc[p].k); }
      ChildSame(s, t, p);
    }
  }

  lemma ChildMore(s: Sys, t: Sys, p: nat, k: nat)
    requires Sized(s) && Sized(t) && |t.st| == |s.st| && k < |s.st|
    ensures HasChild(s, p, k + 1) <==> HasChild(s, p, k) || s.par[k] == Some(p)
  {}

  lemma ChildSame(s: Sys, t: Sys, p: nat)
    requires Sized(s) && Sized(t)
    ensures !HasChild(t, p, 0)
    ensures t.par == s.par ==> forall k: nat :: HasChild(t, p, k) == HasChild(s, p, k)
  {}

  lemma StartsNoticed(s: Sys, p: nat)
    requires Starts(s) && p < |s.st|
    ensures Noticed(s, p)
  {}

  lemma {:induction false} RunNoticed(states: seq<Sys>, events: seq<Event>, j: nat, p: nat)
    requires IsRun(states, events) && j < |states| && p < |states[0].st|
    ensures Sized(states[j]) && p < |states[j].st| && Noticed(states[j], p)
  {
    hide Inv, Starts, Enabled, After, Noticed;
    if j == 0 {
      assert Sized(states[0]) by { StartsSized(states[0]); }
      StartsNoticed(states[0], p);
    } else {
      RunNoticed(states, events, j - 1, p);
      RunInv(states, events, j - 1);
      assert Follows(states[j - 1], events[j - 1], states[j]);
      NoticedStep(states[j - 1], events[j - 1], p);
    }
  }

  lemma StartsSized(s: Sys)
    requires Starts(s)
    ensures Sized(s)
  {}

  /** In every run, wait's scan comes to its end having noticed a child exactly if the process has one. */
  lemma WaitNoticesChildren(states: seq<Sys>, events: seq<Event>, j: nat, p: nat)
    requires IsRun(states, events) && j < |states| && p < |states[0].st|
    ensures Sized(states[j]) && p < |states[j].st|
    ensures var s := states[j];
      s.pc[p].Scan? && s.pc[p].k >= |s.st| ==> (s.pc[p].kids <==> exists i :: 0 <= i < |s.st| && s.par[i] == Some(p))
  {
    hide IsRun;
    RunNoticed(states, events, j, p);
  }
}
