/** Processes (kernel/proc.c): scheduler, fork, exit, wait and reparent in any interleaving. A section that takes and
    releases one p->lock and does nothing else in between is one step; wait_lock and a process's own lock held across
    steps are explicit. */
module Proc {

  datatype State = UNUSED | USED | SLEEPING | RUNNABLE | RUNNING | ZOMBIE

  datatype Option = None | Some(i: nat)

  /** p->lock: free, held by the process itself, or by the scheduler of a CPU that has just switched away from it. */
  datatype Lock = Free | Own | Cpu(c: nat)

  /** Where a process goes on when the scheduler switches to it. */
  datatype Back = ToUser | ToWait | ToFork(k: nat, linked: bool) | Never

  datatype Pc =
    | NoThread
    | User
    | Scan(k: nat, kids: bool)     // wait: child k is next; holds wait_lock
    | Sleep2                       // sleep(p, &wait_lock): has its own lock, has released wait_lock
    | Again                        // sleep: acquire(&wait_lock)
    | Rep(k: nat)                  // exit: reparent, process k is next; holds wait_lock
    | WakeInit(k: nat)             // reparent: wakeup(initproc) for process k
    | WakePar                      // exit: wakeup(p->parent)
    | Zomb                         // exit: acquire(&p->lock), p->state = ZOMBIE
    | Release                      // exit: release(&wait_lock)
    | SetPar(k: nat)               // fork: np->parent = p under wait_lock
    | Start(k: nat)                // fork: np->state = RUNNABLE
    | Sched(b: Back)               // sched()
    | Off(b: Back)                 // switched away
    | Resumed(b: Back)             // switched to; releases its own lock

  /** A CPU's scheduler: looking, switched to a process, or back from one. */
  datatype Cpu = Looking | In(i: nat) | Out(i: nat)

  /** proc[], cpus[] and wait_lock. chan says that a process sleeps in wait; at is the CPU a process runs on; maker the
      process that is making a new one. */
  datatype Sys = Sys(st: seq<State>, par: seq<Option>, lock: seq<Lock>, pc: seq<Pc>, chan: seq<bool>, at: seq<Option>,
                     maker: seq<Option>, cpu: seq<Cpu>, wl: Option, init: nat)

  ghost predicate Sized(s: Sys) {
    && |s.st| == |s.par| == |s.lock| == |s.pc| == |s.chan| == |s.at| == |s.maker| && s.init < |s.st|
  }

  // ---------------------------------------------------------------- steps

  datatype Event =
    | Wait(p: nat) | ScanOne(p: nat) | Reap(p: nat) | GiveUp(p: nat) | ToSleep(p: nat) | FallAsleep(p: nat)
    | ReLock(p: nat)
    | Exit(p: nat) | Reparent(p: nat) | TellInit(p: nat) | TellParent(p: nat) | Die(p: nat) | LetGo(p: nat)
    | Alloc(p: nat, k: nat) | Parent(p: nat) | Begin(p: nat)
    | Yield(p: nat) | OtherSleep(p: nat) | SwitchOut(p: nat) | Resume(p: nat)
    | SwitchIn(p: nat, c: nat) | Settle(p: nat, c: nat) | Wakeup(p: nat)

  /** Where no spin lock is held a timer interrupt may make the process yield: in user code, in fork between its
      critical sections, and in wait once it is awake. */
  ghost predicate Preemptible(c: Pc) { c.User? || c.SetPar? || c.Start? || c.Again? }

  /** What a process goes back to, and where that is. */
  ghost function Return(c: Pc): Back {
    match c
    case SetPar(k) => ToFork(k, false)
    case Start(k) => ToFork(k, true)
    case Again => ToWait
    case _ => ToUser
  }

  ghost function Resumes(b: Back): Pc {
    match b
    case ToWait => Again
    case ToFork(k, linked) => if linked then Start(k) else SetPar(k)
    case _ => User
  }

  ghost predicate Enabled(s: Sys, e: Event)
    requires Sized(s)
  {
    var p := e.p;
    && p < |s.st|
    && match e
       case Wait(_) => s.pc[p] == User && s.wl == None
       case ScanOne(_) => s.pc[p].Scan? && s.pc[p].k < |s.st| &&
         (s.par[s.pc[p].k] == Some(p) ==> s.lock[s.pc[p].k] == Free && s.st[s.pc[p].k] != ZOMBIE)
       case Reap(_) => s.pc[p].Scan? && s.pc[p].k < |s.st| && s.par[s.pc[p].k] == Some(p) &&
         s.lock[s.pc[p].k] == Free && s.st[s.pc[p].k] == ZOMBIE
       case GiveUp(_) =>
         // no children, or killed; or the status of the zombie found cannot be copied out
         s.pc[p].Scan? && (s.pc[p].k >= |s.st| ||
           (s.par[s.pc[p].k] == Some(p) && s.lock[s.pc[p].k] == Free && s.st[s.pc[p].k] == ZOMBIE))
       case ToSleep(_) => s.pc[p].Scan? && s.pc[p].k >= |s.st| && s.pc[p].kids && s.lock[p] == Free
       case FallAsleep(_) => s.pc[p] == Sleep2
       case ReLock(_) => s.pc[p] == Again && s.wl == None
       case Exit(_) => s.pc[p] == User && s.wl == None && p != s.init
       case Reparent(_) => s.pc[p].Rep?
       case TellInit(_) => s.pc[p].WakeInit? && s.lock[s.init] == Free
       case TellParent(_) => s.pc[p] == WakePar && s.par[p].Some? && s.par[p].i < |s.st| && s.lock[s.par[p].i] == Free
       case Die(_) => s.pc[p] == Zomb && s.lock[p] == Free
       case LetGo(_) => s.pc[p] == Release
       case Alloc(_, k) => s.pc[p] == User && k < |s.st| && s.lock[k] == Free && s.st[k] == UNUSED
       case Parent(_) => s.pc[p].SetPar? && s.wl == None && s.pc[p].k < |s.st|
       case Begin(_) => s.pc[p].Start? && s.pc[p].k < |s.st| && s.lock[s.pc[p].k] == Free
       case Yield(_) => Preemptible(s.pc[p]) && s.lock[p] == Free
       case OtherSleep(_) => s.pc[p] == User && s.lock[p] == Free
       case SwitchOut(_) => s.pc[p].Sched? && s.at[p].Some? && s.at[p].i < |s.cpu|
       case Resume(_) => s.pc[p].Resumed?
       case SwitchIn(_, c) => c < |s.cpu| && s.cpu[c] == Looking && s.lock[p] == Free && s.st[p] == RUNNABLE &&
         s.pc[p].Off?
       case Settle(_, c) => c < |s.cpu| && s.cpu[c] == Out(p)
       case Wakeup(_) => s.lock[p] == Free && s.st[p] == SLEEPING
  }

  /** A step that changes only the process itself and wait_lock. */
  ghost function Self(s: Sys, p: nat, c: Pc, x: State, l: Lock, b: bool, w: Option): Sys
    requires Sized(s) && p < |s.st|
  {
    s.(pc := s.pc[p := c], st := s.st[p := x], lock := s.lock[p := l], chan := s.chan[p := b], wl := w)
  }

  ghost function Goto(s: Sys, p: nat, c: Pc, w: Option): Sys
    requires Sized(s) && p < |s.st|
  {
    Self(s, p, c, s.st[p], s.lock[p], s.chan[p], w)
  }

  /** wakeup(q): only q itself sleeps on that channel. */
  ghost function Woken(s: Sys, q: nat): Sys
    requires Sized(s) && q < |s.st|
  {
    if s.st[q] == SLEEPING && s.chan[q] then s.(st := s.st[q := RUNNABLE]) else s
  }

  /** freeproc of child k, and the return from wait. */
  ghost function Reaped(s: Sys, p: nat, k: nat): Sys
    requires Sized(s) && p < |s.st| && k < |s.st|
  {
    s.(st := s.st[k := UNUSED], par := s.par[k := None], wl := None, pc := s.pc[p := User][k := NoThread])
  }

  ghost function GivenAway(s: Sys, p: nat, k: nat): Sys
    requires Sized(s) && p < |s.st| && k < |s.st|
  {
    s.(pc := s.pc[p := WakeInit(k)], par := s.par[k := Some(s.init)])
  }

  ghost function ToldThen(s: Sys, p: nat, q: nat, c: Pc): Sys
    requires Sized(s) && p < |s.st| && q < |s.st|
  {
    Woken(s, q).(pc := s.pc[p := c])
  }

  ghost function Allocated(s: Sys, p: nat, k: nat): Sys
    requires Sized(s) && p < |s.st| && k < |s.st|
  {
    s.(pc := s.pc[p := SetPar(k)], st := s.st[k := USED], maker := s.maker[k := Some(p)])
  }

  ghost function Parented(s: Sys, p: nat, k: nat): Sys
    requires Sized(s) && p < |s.st| && k < |s.st|
  {
    s.(pc := s.pc[p := Start(k)], par := s.par[k := Some(p)])
  }

  ghost function Begun(s: Sys, p: nat, k: nat): Sys
    requires Sized(s) && p < |s.st| && k < |s.st|
  {
    s.(pc := s.pc[p := User][k := Off(ToUser)], st := s.st[k := RUNNABLE], maker := s.maker[k := None])
  }

  ghost function SwitchedOut(s: Sys, p: nat, c: nat, b: Back): Sys
    requires Sized(s) && p < |s.st| && c < |s.cpu|
  {
    s.(pc := s.pc[p := Off(b)], lock := s.lock[p := Lock.Cpu(c)], at := s.at[p := None], cpu := s.cpu[c := Out(p)])
  }

  ghost function SwitchedIn(s: Sys, p: nat, c: nat, b: Back): Sys
    requires Sized(s) && p < |s.st| && c < |s.cpu|
  {
    s.(pc := s.pc[p := Resumed(b)], lock := s.lock[p := Own], st := s.st[p := RUNNING], at := s.at[p := Some(c)],
      cpu := s.cpu[c := In(p)])
  }

  ghost function Settled(s: Sys, p: nat, c: nat): Sys
    requires Sized(s) && p < |s.st| && c < |s.cpu|
  {
    s.(cpu := s.cpu[c := Looking], lock := s.lock[p := Free])
  }

  ghost function After(s: Sys, e: Event): (t: Sys)
    requires Sized(s) && Enabled(s, e)
  {
    var p := e.p;
    match e
    case Wait(_) => Goto(s, p, Scan(0, false), Some(p))
    case ScanOne(_) => Goto(s, p, Scan(s.pc[p].k + 1, s.pc[p].kids || s.par[s.pc[p].k] == Some(p)), s.wl)
    case Reap(_) => Reaped(s, p, s.pc[p].k)
    case GiveUp(_) => Goto(s, p, User, None)
    case ToSleep(_) => Self(s, p, Sleep2, s.st[p], Own, s.chan[p], None)
    case FallAsleep(_) => Self(s, p, Sched(ToWait), SLEEPING, s.lock[p], true, s.wl)
    case ReLock(_) => Goto(s, p, Scan(0, false), Some(p))
    case Exit(_) => Goto(s, p, Rep(0), Some(p))
    case Reparent(_) =>
      var k := s.pc[p].k;
      if k >= |s.st| then Goto(s, p, WakePar, s.wl)
      else if s.par[k] == Some(p) then GivenAway(s, p, k)
      else Goto(s, p, Rep(k + 1), s.wl)
    case TellInit(_) => ToldThen(s, p, s.init, Rep(s.pc[p].k + 1))
    case TellParent(_) => ToldThen(s, p, s.par[p].i, Zomb)
    case Die(_) => Self(s, p, Release, ZOMBIE, Own, s.chan[p], s.wl)
    case LetGo(_) => Goto(s, p, Sched(Never), None)
    case Alloc(_, k) => Allocated(s, p, k)
    case Parent(_) => Parented(s, p, s.pc[p].k)
    case Begin(_) => Begun(s, p, s.pc[p].k)
    case Yield(_) => Self(s, p, Sched(Return(s.pc[p])), RUNNABLE, Own, s.chan[p], s.wl)
    case OtherSleep(_) => Self(s, p, Sched(ToUser), SLEEPING, Own, false, s.wl)
    case SwitchOut(_) => SwitchedOut(s, p, s.at[p].i, s.pc[p].b)
    case Resume(_) => Self(s, p, Resumes(s.pc[p].b), s.st[p], Free, false, s.wl)
    case SwitchIn(_, c) => SwitchedIn(s, p, c, s.pc[p].b)
    case Settle(_, c) => Settled(s, p, c)
    case Wakeup(_) => Self(s, p, s.pc[p], RUNNABLE, s.lock[p], s.chan[p], s.wl)
  }

  // ---------------------------------------------------------------- the invariant

  ghost predicate HasWl(c: Pc) { c.Scan? || c.Rep? || c.WakeInit? || c.WakePar? || c.Zomb? || c.Release? }

  ghost predicate HasOwn(c: Pc) { c.Sleep2? || c.Release? || c.Sched? || c.Resumed? }

  /** A process that can take a step of its own is on one CPU, and holds just the locks its next step says. */
  ghost predicate Placed(s: Sys, i: nat)
    requires Sized(s) && i < |s.st|
  {
    && (s.pc[i].NoThread? || s.pc[i].Off? <==> s.at[i] == None)
    && (s.at[i].Some? ==> s.at[i].i < |s.cpu| && s.cpu[s.at[i].i] == In(i))
    && (HasWl(s.pc[i]) <==> s.wl == Some(i)) && (HasOwn(s.pc[i]) <==> s.lock[i] == Own)
    && (s.lock[i].Cpu? ==> s.lock[i].c < |s.cpu| && s.cpu[s.lock[i].c] == Out(i) && s.pc[i].Off?)
  }

  /** Process state and next step agree. */
  ghost predicate Agrees(s: Sys, i: nat)
    requires Sized(s) && i < |s.st|
  {
    match s.pc[i]
    case NoThread => s.st[i] == UNUSED || s.st[i] == USED
    case Release => s.st[i] == ZOMBIE
    case Sched(b) => if b == Never then s.st[i] == ZOMBIE else s.st[i] == SLEEPING || s.st[i] == RUNNABLE
    case Off(b) => if b == Never then s.st[i] == ZOMBIE else s.st[i] == SLEEPING || s.st[i] == RUNNABLE
    case Resumed(b) => b != Never && s.st[i] == RUNNING
    case _ => s.st[i] == RUNNING
  }

  /** p's reparent loop is past process i. */
  ghost predicate Past(c: Pc, i: nat) {
    match c
    case Rep(k) => i < k
    case WakeInit(k) => i <= k
    case WakePar => true case Zomb => true case Release => true
    case Sched(b) => b == Never case Off(b) => b == Never
    case _ => false
  }

  ghost predicate Exiting(c: Pc) {
    c.Rep? || c.WakeInit? || c.WakePar? || c.Zomb? || c.Release? || (c.Sched? && c.b == Never) ||
      (c.Off? && c.b == Never)
  }

  /** A parent is another process, alive, and has not given the child away; a started process other than init has
      one. */
  ghost predicate Family(s: Sys, i: nat)
    requires Sized(s) && i < |s.st|
  {
    && (s.par[i].Some? ==> var p := s.par[i].i;
          p < |s.st| && p != i && !s.pc[p].NoThread? && !Past(s.pc[p], i) && s.st[i] != UNUSED)
    && (!s.pc[i].NoThread? && i != s.init ==> s.par[i].Some?)
    && (i == s.init ==> s.par[i] == None && !Exiting(s.pc[i]) && !s.pc[i].NoThread?)
  }

  /** The child a process is making, also while it is preempted. */
  ghost function Forking(c: Pc): Back {
    match c
    case SetPar(k) => ToFork(k, false)
    case Start(k) => ToFork(k, true)
    case Sched(b) => b
    case Off(b) => b
    case Resumed(b) => b
    case _ => ToUser
  }

  ghost predicate Making(s: Sys, i: nat)
    requires Sized(s) && i < |s.st|
  {
    && (Forking(s.pc[i]).ToFork? ==> Forking(s.pc[i]).k < |s.st| && s.maker[Forking(s.pc[i]).k] == Some(i))
    && (s.maker[i].Some? ==> var p := s.maker[i].i;
          p < |s.st| && s.st[i] == USED && s.pc[i].NoThread? && Forking(s.pc[p]).ToFork? && Forking(s.pc[p]).k == i)
    && (s.maker[i].Some? && Forking(s.pc[s.maker[i].i]).linked ==> s.par[i] == Some(s.maker[i].i))
    && (s.st[i] == USED ==> s.maker[i].Some?)
  }

  /** On its way to sleep in wait, or asleep there. */
  ghost predicate InWait(s: Sys, p: nat)
    requires Sized(s) && p < |s.st|
  {
    s.pc[p] == Sleep2 || ((s.pc[p] == Sched(ToWait) || s.pc[p] == Off(ToWait)) && s.st[p] == SLEEPING)
  }

  /** A parent does not sleep over a zombie child, unless a reparent is about to wake it; and a scan of wait has missed
      none so far; and an exit past its wakeup finds its parent awake. */
  ghost predicate Heard(s: Sys, i: nat)
    requires Sized(s) && i < |s.st|
  {
    && (s.par[i].Some? && s.par[i].i < |s.st| && s.st[i] == ZOMBIE ==>
          var p := s.par[i].i;
          && (InWait(s, p) ==> p == s.init && s.wl.Some? && s.wl.i < |s.st| && s.pc[s.wl.i] == WakeInit(i))
          && (s.pc[p].Scan? ==> s.pc[p].k <= i))
    && (s.pc[i].Zomb? && s.par[i].Some? && s.par[i].i < |s.st| ==> !InWait(s, s.par[i].i))
    && (s.pc[i] == Sched(ToWait) || s.pc[i] == Off(ToWait) ==> s.st[i] == SLEEPING ==> s.chan[i])
  }

  ghost predicate At(s: Sys, i: nat)
    requires Sized(s) && i < |s.st|
  {
    Placed(s, i) && Agrees(s, i) && Family(s, i) && Making(s, i) && Heard(s, i)
  }

  ghost predicate CpuAt(s: Sys, c: nat)
    requires Sized(s) && c < |s.cpu|
  {
    && (s.cpu[c].In? ==> s.cpu[c].i < |s.st| && s.at[s.cpu[c].i] == Some(c))
    && (s.cpu[c].Out? ==> s.cpu[c].i < |s.st| && s.lock[s.cpu[c].i] == Cpu(c))
  }

  ghost predicate Inv(s: Sys) {
    Sized(s) && (forall i :: 0 <= i < |s.st| ==> At(s, i)) && forall c :: 0 <= c < |s.cpu| ==> CpuAt(s, c)
  }

  lemma InvAt(s: Sys, i: nat)
    requires Inv(s) && i < |s.st|
    ensures At(s, i)
  {}

  /** The invariant at the processes a step of p and the state of q depend on. */
  ghost predicate Near(s: Sys, p: nat, q: nat)
    requires Sized(s) && p < |s.st| && q < |s.st|
  {
    && At(s, p) && At(s, q) && At(s, s.init)
    && (s.par[q].Some? && s.par[q].i < |s.st| ==> At(s, s.par[q].i))
    && (s.maker[q].Some? && s.maker[q].i < |s.st| ==> At(s, s.maker[q].i))
    && (s.par[p].Some? && s.par[p].i < |s.st| ==> At(s, s.par[p].i))
    && (s.wl.Some? && s.wl.i < |s.st| ==> At(s, s.wl.i))
  }

  ghost predicate InW(c: Pc, x: State) { c == Sleep2 || ((c == Sched(ToWait) || c == Off(ToWait)) && x == SLEEPING) }

  /** What a step of p alone must mind for process q. */
  ghost predicate Minds(s: Sys, p: nat, c: Pc, x: State, w: Option, q: nat)
    requires Sized(s) && p < |s.st| && q < |s.st|
  {
    && (w == s.wl || ((w == None || w == Some(p)) && (s.wl == None || s.wl == Some(p)))) && !s.pc[p].WakeInit?
    && (s.par[q] == Some(p) ==> !c.NoThread? && !Past(c, q))
    && (s.maker[q] == Some(p) ==> Forking(c) == Forking(s.pc[p]))
    && (s.par[q] == Some(p) && s.st[q] == ZOMBIE ==>
          (InW(c, x) ==> p == s.init && w.Some? && w.i < |s.st| && w.i != p && s.pc[w.i] == WakeInit(q)) &&
            (c.Scan? ==> c.k <= q))
    && (s.par[q] == Some(p) && s.pc[q].Zomb? ==> !InW(c, x))
  }

  lemma SelfPlaced(s: Sys, p: nat, c: Pc, x: State, l: Lock, b: bool, w: Option, q: nat)
    requires Sized(s) && p < |s.st| && q < |s.st| && q != p && Placed(s, q) && Minds(s, p, c, x, w, q)
    ensures Placed(Self(s, p, c, x, l, b, w), q)
  {
    hide InW, Past;
  }

  lemma SelfFamily(s: Sys, p: nat, c: Pc, x: State, l: Lock, b: bool, w: Option, q: nat)
    requires Sized(s) && p < |s.st| && q < |s.st| && q != p && Family(s, q) && Minds(s, p, c, x, w, q)
    ensures Family(Self(s, p, c, x, l, b, w), q)
  {
    hide InW, Past, Exiting;
  }

  lemma SelfMaking(s: Sys, p: nat, c: Pc, x: State, l: Lock, b: bool, w: Option, q: nat)
    requires Sized(s) && p < |s.st| && q < |s.st| && q != p && Making(s, q) && Minds(s, p, c, x, w, q)
    ensures Making(Self(s, p, c, x, l, b, w), q)
  {
    hide InW, Past;
  }

  lemma SelfInWait(s: Sys, p: nat, c: Pc, x: State, l: Lock, b: bool, w: Option, r: nat)
    requires Sized(s) && p < |s.st| && r < |s.st|
    ensures InWait(Self(s, p, c, x, l, b, w), r) <==> if r == p then InW(c, x) else InWait(s, r)
  {}

  lemma SelfHeard(s: Sys, p: nat, c: Pc, x: State, l: Lock, b: bool, w: Option, q: nat)
    requires Sized(s) && p < |s.st| && q < |s.st| && q != p && Heard(s, q) && Minds(s, p, c, x, w, q)
    ensures Heard(Self(s, p, c, x, l, b, w), q)
  {
    if s.par[q].Some? && s.par[q].i < |s.st| { SelfInWait(s, p, c, x, l, b, w, s.par[q].i); }
    hide InW, Past, InWait;
  }

  lemma SelfOthers(s: Sys, p: nat, c: Pc, x: State, l: Lock, b: bool, w: Option, q: nat)
    requires Sized(s) && p < |s.st| && q < |s.st| && q != p && At(s, q) && Minds(s, p, c, x, w, q)
    ensures At(Self(s, p, c, x, l, b, w), q)
  {
    hide Placed, Family, Making, Heard, Minds;
    SelfPlaced(s, p, c, x, l, b, w, q);
    SelfFamily(s, p, c, x, l, b, w, q);
    SelfMaking(s, p, c, x, l, b, w, q);
    SelfHeard(s, p, c, x, l, b, w, q);
  }

  lemma WaitMinds(s: Sys, p: nat, q: nat)
    requires Sized(s) && p < |s.st| && q < |s.st| && q != p && Near(s, p, q) && s.pc[p] == User && s.wl == None
    ensures Minds(s, p, Scan(0, false), s.st[p], Some(p), q)
  {}

  lemma WaitOwn(s: Sys, p: nat)
    requires Sized(s) && p < |s.st| && Near(s, p, p) && s.pc[p] == User && s.wl == None
    ensures At(Self(s, p, Scan(0, false), s.st[p], s.lock[p], s.chan[p], Some(p)), p)
  {}

  lemma ScannedMinds(s: Sys, p: nat, q: nat)
    requires Sized(s) && p < |s.st| && q < |s.st| && q != p && Near(s, p, q) && s.pc[p].Scan? && s.pc[p].k < |s.st| &&
      (s.par[s.pc[p].k] == Some(p) ==> s.st[s.pc[p].k] != ZOMBIE)
    ensures Minds(s, p, Scan(s.pc[p].k + 1, s.pc[p].kids || s.par[s.pc[p].k] == Some(p)), s.st[p], s.wl, q)
  {}

  lemma ScannedOwn(s: Sys, p: nat)
    requires Sized(s) && p < |s.st| && Near(s, p, p) && s.pc[p].Scan? && s.pc[p].k < |s.st| &&
      (s.par[s.pc[p].k] == Some(p) ==> s.st[s.pc[p].k] != ZOMBIE)
    ensures At(Self(s, p, Scan(s.pc[p].k + 1, s.pc[p].kids || s.par[s.pc[p].k] == Some(p)), s.st[p], s.lock[p],
      s.chan[p], s.wl), p)
  {}

  lemma GivenUpMinds(s: Sys, p: nat, q: nat)
    requires Sized(s) && p < |s.st| && q < |s.st| && q != p && Near(s, p, q) && s.pc[p].Scan?
    ensures Minds(s, p, User, s.st[p], None, q)
  {}

  lemma GivenUpOwn(s: Sys, p: nat)
    requires Sized(s) && p < |s.st| && Near(s, p, p) && s.pc[p].Scan?
    ensures At(Self(s, p, User, s.st[p], s.lock[p], s.chan[p], None), p)
  {}

  lemma ToSleepMinds(s: Sys, p: nat, q: nat)
    requires Sized(s) && p < |s.st| && q < |s.st| && q != p && Near(s, p, q) && s.pc[p].Scan? && s.pc[p].k >= |s.st| &&
      s.lock[p] == Free
    ensures Minds(s, p, Sleep2, s.st[p], None, q)
  {}

  lemma ToSleepOwn(s: Sys, p: nat)
    requires Sized(s) && p < |s.st| && Near(s, p, p) && s.pc[p].Scan? && s.pc[p].k >= |s.st| && s.lock[p] == Free
    ensures At(Self(s, p, Sleep2, s.st[p], Own, s.chan[p], None), p)
  {}

  lemma AsleepMinds(s: Sys, p: nat, q: nat)
    requires Sized(s) && p < |s.st| && q < |s.st| && q != p && Near(s, p, q) && s.pc[p] == Sleep2
    ensures Minds(s, p, Sched(ToWait), SLEEPING, s.wl, q)
  {}

  lemma AsleepOwn(s: Sys, p: nat)
    requires Sized(s) && p < |s.st| && Near(s, p, p) && s.pc[p] == Sleep2
    ensures At(Self(s, p, Sched(ToWait), SLEEPING, s.lock[p], true, s.wl), p)
  {}

  lemma ReLockMinds(s: Sys, p: nat, q: nat)
    requires Sized(s) && p < |s.st| && q < |s.st| && q != p && Near(s, p, q) && s.pc[p] == Again && s.wl == None
    ensures Minds(s, p, Scan(0, false), s.st[p], Some(p), q)
  {}

  lemma ReLockOwn(s: Sys, p: nat)
    requires Sized(s) && p < |s.st| && Near(s, p, p) && s.pc[p] == Again && s.wl == None
    ensures At(Self(s, p, Scan(0, false), s.st[p], s.lock[p], s.chan[p], Some(p)), p)
  {}

  lemma ExitMinds(s: Sys, p: nat, q: nat)
    requires Sized(s) && p < |s.st| && q < |s.st| && q != p && Near(s, p, q) && s.pc[p] == User && s.wl == None &&
      p != s.init
    ensures Minds(s, p, Rep(0), s.st[p], Some(p), q)
  {}

  lemma ExitOwn(s: Sys, p: nat)
    requires Sized(s) && p < |s.st| && Near(s, p, p) && s.pc[p] == User && s.wl == None && p != s.init
    ensures At(Self(s, p, Rep(0), s.st[p], s.lock[p], s.chan[p], Some(p)), p)
  {}

  lemma LoopedMinds(s: Sys, p: nat, q: nat)
    requires Sized(s) && p < |s.st| && q < |s.st| && q != p && Near(s, p, q) && s.pc[p].Rep? && s.pc[p].k >= |s.st|
    ensures Minds(s, p, WakePar, s.st[p], s.wl, q)
  {}

  lemma LoopedOwn(s: Sys, p: nat)
    requires Sized(s) && p < |s.st| && Near(s, p, p) && s.pc[p].Rep? && s.pc[p].k >= |s.st|
    ensures At(Self(s, p, WakePar, s.st[p], s.lock[p], s.chan[p], s.wl), p)
  {}

  lemma SkippedMinds(s: Sys, p: nat, q: nat)
    requires Sized(s) && p < |s.st| && q < |s.st| && q != p && Near(s, p, q) && s.pc[p].Rep? && s.pc[p].k < |s.st| &&
      s.par[s.pc[p].k] != Some(p)
    ensures Minds(s, p, Rep(s.pc[p].k + 1), s.st[p], s.wl, q)
  {}

  lemma SkippedOwn(s: Sys, p: nat)
    requires Sized(s) && p < |s.st| && Near(s, p, p) && s.pc[p].Rep? && s.pc[p].k < |s.st| &&
      s.par[s.pc[p].k] != Some(p)
    ensures At(Self(s, p, Rep(s.pc[p].k + 1), s.st[p], s.lock[p], s.chan[p], s.wl), p)
  {}

  lemma DiedMinds(s: Sys, p: nat, q: nat)
    requires Sized(s) && p < |s.st| && q < |s.st| && q != p && Near(s, p, q) && s.pc[p] == Zomb && s.lock[p] == Free
    ensures Minds(s, p, Release, ZOMBIE, s.wl, q)
  {}

  lemma DiedOwn(s: Sys, p: nat)
    requires Sized(s) && p < |s.st| && Near(s, p, p) && s.pc[p] == Zomb && s.lock[p] == Free
    ensures At(Self(s, p, Release, ZOMBIE, Own, s.chan[p], s.wl), p)
  {}

  lemma LetGoMinds(s: Sys, p: nat, q: nat)
    requires Sized(s) && p < |s.st| && q < |s.st| && q != p && Near(s, p, q) && s.pc[p] == Release
    ensures Minds(s, p, Sched(Never), s.st[p], None, q)
  {}

  lemma LetGoOwn(s: Sys, p: nat)
    requires Sized(s) && p < |s.st| && Near(s, p, p) && s.pc[p] == Release
    ensures At(Self(s, p, Sched(Never), s.st[p], s.lock[p], s.chan[p], None), p)
  {}

  lemma YieldedMinds(s: Sys, p: nat, q: nat)
    requires Sized(s) && p < |s.st| && q < |s.st| && q != p && Near(s, p, q) && Preemptible(s.pc[p]) &&
      s.lock[p] == Free
    ensures Minds(s, p, Sched(Return(s.pc[p])), RUNNABLE, s.wl, q)
  {}

  lemma YieldedOwn(s: Sys, p: nat)
    requires Sized(s) && p < |s.st| && Near(s, p, p) && Preemptible(s.pc[p]) && s.lock[p] == Free
    ensures At(Self(s, p, Sched(Return(s.pc[p])), RUNNABLE, Own, s.chan[p], s.wl), p)
  {}

  lemma SleptMinds(s: Sys, p: nat, q: nat)
    requires Sized(s) && p < |s.st| && q < |s.st| && q != p && Near(s, p, q) && s.pc[p] == User && s.lock[p] == Free
    ensures Minds(s, p, Sched(ToUser), SLEEPING, s.wl, q)
  {}

  lemma SleptOwn(s: Sys, p: nat)
    requires Sized(s) && p < |s.st| && Near(s, p, p) && s.pc[p] == User && s.lock[p] == Free
    ensures At(Self(s, p, Sched(ToUser), SLEEPING, Own, false, s.wl), p)
  {}

  lemma ResumeMinds(s: Sys, p: nat, q: nat)
    requires Sized(s) && p < |s.st| && q < |s.st| && q != p && Near(s, p, q) && s.pc[p].Resumed?
    ensures Minds(s, p, Resumes(s.pc[p].b), s.st[p], s.wl, q)
  {}

  lemma ResumeOwn(s: Sys, p: nat)
    requires Sized(s) && p < |s.st| && Near(s, p, p) && s.pc[p].Resumed?
    ensures At(Self(s, p, Resumes(s.pc[p].b), s.st[p], Free, false, s.wl), p)
  {}

  lemma WokeMinds(s: Sys, p: nat, q: nat)
    requires Sized(s) && p < |s.st| && q < |s.st| && q != p && Near(s, p, q) && s.lock[p] == Free && s.st[p] == SLEEPING
    ensures Minds(s, p, s.pc[p], RUNNABLE, s.wl, q)
  {}

  lemma WokeOwn(s: Sys, p: nat)
    requires Sized(s) && p < |s.st| && Near(s, p, p) && s.lock[p] == Free && s.st[p] == SLEEPING
    ensures At(Self(s, p, s.pc[p], RUNNABLE, s.lock[p], s.chan[p], s.wl), p)
  {}

  // wait frees a zombie child

  lemma ReapedLocks(s: Sys, p: nat, k: nat, q: nat)
    requires Sized(s) && p < |s.st| && q < |s.st| && Near(s, p, q) && s.pc[p].Scan? && s.pc[p].k == k < |s.st| &&
      s.par[k] == Some(p) && s.lock[k] == Free && s.st[k] == ZOMBIE && At(s, k)
    ensures Placed(Reaped(s, p, k), q) && Agrees(Reaped(s, p, k), q)
  {}

  lemma ReapedKin(s: Sys, p: nat, k: nat, q: nat)
    requires Sized(s) && p < |s.st| && q < |s.st| && Near(s, p, q) && s.pc[p].Scan? && s.pc[p].k == k < |s.st| &&
      s.par[k] == Some(p) && s.lock[k] == Free && s.st[k] == ZOMBIE && At(s, k)
    ensures Family(Reaped(s, p, k), q) && Making(Reaped(s, p, k), q)
  {}

  lemma ReapedHeard(s: Sys, p: nat, k: nat, q: nat)
    requires Sized(s) && p < |s.st| && q < |s.st| && Near(s, p, q) && s.pc[p].Scan? && s.pc[p].k == k < |s.st| &&
      s.par[k] == Some(p) && s.lock[k] == Free && s.st[k] == ZOMBIE && At(s, k)
    ensures Heard(Reaped(s, p, k), q)
  {}

  // reparent gives a child to init

  lemma GivenAwayLocks(s: Sys, p: nat, k: nat, q: nat)
    requires Sized(s) && p < |s.st| && q < |s.st| && Near(s, p, q) && s.pc[p] == Rep(k) && k < |s.st| &&
      s.par[k] == Some(p) && At(s, k)
    ensures Placed(GivenAway(s, p, k), q) && Agrees(GivenAway(s, p, k), q)
  {}

  lemma GivenAwayKin(s: Sys, p: nat, k: nat, q: nat)
    requires Sized(s) && p < |s.st| && q < |s.st| && Near(s, p, q) && s.pc[p] == Rep(k) && k < |s.st| &&
      s.par[k] == Some(p) && At(s, k)
    ensures Family(GivenAway(s, p, k), q) && Making(GivenAway(s, p, k), q)
  {}

  lemma GivenAwayHeard(s: Sys, p: nat, k: nat, q: nat)
    requires Sized(s) && p < |s.st| && q < |s.st| && Near(s, p, q) && s.pc[p] == Rep(k) && k < |s.st| &&
      s.par[k] == Some(p) && At(s, k)
    ensures Heard(GivenAway(s, p, k), q)
  {}

  // reparent wakes init

  lemma ToldInitLocks(s: Sys, p: nat, k: nat, q: nat)
    requires Sized(s) && p < |s.st| && q < |s.st| && Near(s, p, q) && s.pc[p] == WakeInit(k) && s.lock[s.init] == Free
    ensures Placed(ToldThen(s, p, s.init, Rep(k + 1)), q) && Agrees(ToldThen(s, p, s.init, Rep(k + 1)), q)
  {}

  lemma ToldInitKin(s: Sys, p: nat, k: nat, q: nat)
    requires Sized(s) && p < |s.st| && q < |s.st| && Near(s, p, q) && s.pc[p] == WakeInit(k) && s.lock[s.init] == Free
    ensures Family(ToldThen(s, p, s.init, Rep(k + 1)), q) && Making(ToldThen(s, p, s.init, Rep(k + 1)), q)
  {}

  lemma ToldInitHeard(s: Sys, p: nat, k: nat, q: nat)
    requires Sized(s) && p < |s.st| && q < |s.st| && Near(s, p, q) && s.pc[p] == WakeInit(k) && s.lock[s.init] == Free
    ensures Heard(ToldThen(s, p, s.init, Rep(k + 1)), q)
  {}

  // exit wakes the parent

  lemma ToldParentLocks(s: Sys, p: nat, k: nat, q: nat)
    requires Sized(s) && p < |s.st| && q < |s.st| && Near(s, p, q) && s.pc[p] == WakePar && s.par[p] == Some(k) &&
      k < |s.st| && s.lock[k] == Free && At(s, k)
    ensures Placed(ToldThen(s, p, k, Zomb), q) && Agrees(ToldThen(s, p, k, Zomb), q)
  {}

  lemma ToldParentKin(s: Sys, p: nat, k: nat, q: nat)
    requires Sized(s) && p < |s.st| && q < |s.st| && Near(s, p, q) && s.pc[p] == WakePar && s.par[p] == Some(k) &&
      k < |s.st| && s.lock[k] == Free && At(s, k)
    ensures Family(ToldThen(s, p, k, Zomb), q) && Making(ToldThen(s, p, k, Zomb), q)
  {}

  lemma ToldParentHeard(s: Sys, p: nat, k: nat, q: nat)
    requires Sized(s) && p < |s.st| && q < |s.st| && Near(s, p, q) && s.pc[p] == WakePar && s.par[p] == Some(k) &&
      k < |s.st| && s.lock[k] == Free && At(s, k)
    ensures Heard(ToldThen(s, p, k, Zomb), q)
  {}

  // fork takes a free slot

  lemma AllocatedLocks(s: Sys, p: nat, k: nat, q: nat)
    requires Sized(s) && p < |s.st| && q < |s.st| && Near(s, p, q) && s.pc[p] == User && k < |s.st| &&
      s.lock[k] == Free && s.st[k] == UNUSED && At(s, k)
    ensures Placed(Allocated(s, p, k), q) && Agrees(Allocated(s, p, k), q)
  {}

  lemma AllocatedFamily(s: Sys, p: nat, k: nat, q: nat)
    requires Sized(s) && p < |s.st| && q < |s.st| && Near(s, p, q) && s.pc[p] == User && k < |s.st| &&
      s.lock[k] == Free && s.st[k] == UNUSED && At(s, k)
    ensures Family(Allocated(s, p, k), q)
  {}

  lemma AllocatedMaking(s: Sys, p: nat, k: nat, q: nat)
    requires Sized(s) && p < |s.st| && q < |s.st| && Near(s, p, q) && s.pc[p] == User && k < |s.st| &&
      s.lock[k] == Free && s.st[k] == UNUSED && At(s, k)
    ensures Making(Allocated(s, p, k), q)
  {}

  lemma AllocatedKin(s: Sys, p: nat, k: nat, q: nat)
    requires Sized(s) && p < |s.st| && q < |s.st| && Near(s, p, q) && s.pc[p] == User && k < |s.st| &&
      s.lock[k] == Free && s.st[k] == UNUSED && At(s, k)
    ensures Family(Allocated(s, p, k), q) && Making(Allocated(s, p, k), q)
  {
    hide *;
    AllocatedFamily(s, p, k, q);
    AllocatedMaking(s, p, k, q);
  }

  lemma AllocatedHeard(s: Sys, p: nat, k: nat, q: nat)
    requires Sized(s) && p < |s.st| && q < |s.st| && Near(s, p, q) && s.pc[p] == User && k < |s.st| &&
      s.lock[k] == Free && s.st[k] == UNUSED && At(s, k)
    ensures Heard(Allocated(s, p, k), q)
  {}

  // fork names the parent

  lemma ParentedLocks(s: Sys, p: nat, k: nat, q: nat)
    requires Sized(s) && p < |s.st| && q < |s.st| && Near(s, p, q) && s.pc[p] == SetPar(k) && s.wl == None &&
      k < |s.st| && At(s, k)
    ensures Placed(Parented(s, p, k), q) && Agrees(Parented(s, p, k), q)
  {}

  lemma ParentedFamily(s: Sys, p: nat, k: nat, q: nat)
    requires Sized(s) && p < |s.st| && q < |s.st| && Near(s, p, q) && s.pc[p] == SetPar(k) && s.wl == None &&
      k < |s.st| && At(s, k)
    ensures Family(Parented(s, p, k), q)
  {}

  lemma ParentedMaking(s: Sys, p: nat, k: nat, q: nat)
    requires Sized(s) && p < |s.st| && q < |s.st| && Near(s, p, q) && s.pc[p] == SetPar(k) && s.wl == None &&
      k < |s.st| && At(s, k)
    ensures Making(Parented(s, p, k), q)
  {}

  lemma ParentedKin(s: Sys, p: nat, k: nat, q: nat)
    requires Sized(s) && p < |s.st| && q < |s.st| && Near(s, p, q) && s.pc[p] == SetPar(k) && s.wl == None &&
      k < |s.st| && At(s, k)
    ensures Family(Parented(s, p, k), q) && Making(Parented(s, p, k), q)
  {
    hide *;
    ParentedFamily(s, p, k, q);
    ParentedMaking(s, p, k, q);
  }

  lemma ParentedHeard(s: Sys, p: nat, k: nat, q: nat)
    requires Sized(s) && p < |s.st| && q < |s.st| && Near(s, p, q) && s.pc[p] == SetPar(k) && s.wl == None &&
      k < |s.st| && At(s, k)
    ensures Heard(Parented(s, p, k), q)
  {}

  // fork lets the child run

  lemma BegunLocks(s: Sys, p: nat, k: nat, q: nat)
    requires Sized(s) && p < |s.st| && q < |s.st| && Near(s, p, q) && s.pc[p] == Start(k) && k < |s.st| &&
      s.lock[k] == Free && At(s, k)
    ensures Placed(Begun(s, p, k), q) && Agrees(Begun(s, p, k), q)
  {}

  lemma BegunKin(s: Sys, p: nat, k: nat, q: nat)
    requires Sized(s) && p < |s.st| && q < |s.st| && Near(s, p, q) && s.pc[p] == Start(k) && k < |s.st| &&
      s.lock[k] == Free && At(s, k)
    ensures Family(Begun(s, p, k), q) && Making(Begun(s, p, k), q)
  {}

  lemma BegunHeard(s: Sys, p: nat, k: nat, q: nat)
    requires Sized(s) && p < |s.st| && q < |s.st| && Near(s, p, q) && s.pc[p] == Start(k) && k < |s.st| &&
      s.lock[k] == Free && At(s, k)
    ensures Heard(Begun(s, p, k), q)
  {}

  // sched gives the CPU back

  lemma SwitchedOutLocks(s: Sys, p: nat, c: nat, q: nat)
    requires Sized(s) && p < |s.st| && q < |s.st| && Near(s, p, q) && s.pc[p].Sched? && s.at[p] == Some(c) &&
      c < |s.cpu|
    ensures Placed(SwitchedOut(s, p, c, s.pc[p].b), q) && Agrees(SwitchedOut(s, p, c, s.pc[p].b), q)
  {}

  lemma SwitchedOutFamily(s: Sys, p: nat, c: nat, q: nat)
    requires Sized(s) && p < |s.st| && q < |s.st| && Near(s, p, q) && s.pc[p].Sched? && s.at[p] == Some(c) &&
      c < |s.cpu|
    ensures Family(SwitchedOut(s, p, c, s.pc[p].b), q)
  {}

  lemma SwitchedOutMaking(s: Sys, p: nat, c: nat, q: nat)
    requires Sized(s) && p < |s.st| && q < |s.st| && Near(s, p, q) && s.pc[p].Sched? && s.at[p] == Some(c) &&
      c < |s.cpu|
    ensures Making(SwitchedOut(s, p, c, s.pc[p].b), q)
  {}

  lemma SwitchedOutKin(s: Sys, p: nat, c: nat, q: nat)
    requires Sized(s) && p < |s.st| && q < |s.st| && Near(s, p, q) && s.pc[p].Sched? && s.at[p] == Some(c) &&
      c < |s.cpu|
    ensures Family(SwitchedOut(s, p, c, s.pc[p].b), q) && Making(SwitchedOut(s, p, c, s.pc[p].b), q)
  {
    hide *;
    SwitchedOutFamily(s, p, c, q);
    SwitchedOutMaking(s, p, c, q);
  }

  lemma SwitchedOutHeard(s: Sys, p: nat, c: nat, q: nat)
    requires Sized(s) && p < |s.st| && q < |s.st| && Near(s, p, q) && s.pc[p].Sched? && s.at[p] == Some(c) &&
      c < |s.cpu|
    ensures Heard(SwitchedOut(s, p, c, s.pc[p].b), q)
  {}

  // the scheduler picks a process

  lemma SwitchedInLocks(s: Sys, p: nat, c: nat, q: nat)
    requires Sized(s) && p < |s.st| && q < |s.st| && Near(s, p, q) && c < |s.cpu| && s.cpu[c] == Looking &&
      s.lock[p] == Free && s.st[p] == RUNNABLE && s.pc[p].Off?
    ensures Placed(SwitchedIn(s, p, c, s.pc[p].b), q) && Agrees(SwitchedIn(s, p, c, s.pc[p].b), q)
  {}

  lemma SwitchedInKin(s: Sys, p: nat, c: nat, q: nat)
    requires Sized(s) && p < |s.st| && q < |s.st| && Near(s, p, q) && c < |s.cpu| && s.cpu[c] == Looking &&
      s.lock[p] == Free && s.st[p] == RUNNABLE && s.pc[p].Off?
    ensures Family(SwitchedIn(s, p, c, s.pc[p].b), q) && Making(SwitchedIn(s, p, c, s.pc[p].b), q)
  {}

  lemma SwitchedInHeard(s: Sys, p: nat, c: nat, q: nat)
    requires Sized(s) && p < |s.st| && q < |s.st| && Near(s, p, q) && c < |s.cpu| && s.cpu[c] == Looking &&
      s.lock[p] == Free && s.st[p] == RUNNABLE && s.pc[p].Off?
    ensures Heard(SwitchedIn(s, p, c, s.pc[p].b), q)
  {}

  // the scheduler releases the lock

  lemma SettledLocks(s: Sys, p: nat, c: nat, q: nat)
    requires Sized(s) && p < |s.st| && q < |s.st| && Near(s, p, q) && c < |s.cpu| && s.cpu[c] == Out(p) && CpuAt(s, c)
    ensures Placed(Settled(s, p, c), q) && Agrees(Settled(s, p, c), q)
  {}

  lemma SettledKin(s: Sys, p: nat, c: nat, q: nat)
    requires Sized(s) && p < |s.st| && q < |s.st| && Near(s, p, q) && c < |s.cpu| && s.cpu[c] == Out(p) && CpuAt(s, c)
    ensures Family(Settled(s, p, c), q) && Making(Settled(s, p, c), q)
  {}

  lemma SettledHeard(s: Sys, p: nat, c: nat, q: nat)
    requires Sized(s) && p < |s.st| && q < |s.st| && Near(s, p, q) && c < |s.cpu| && s.cpu[c] == Out(p) && CpuAt(s, c)
    ensures Heard(Settled(s, p, c), q)
  {}

  // ---------------------------------------------------------------- the CPUs

  lemma LockCpu(s: Sys, t: Sys, p: nat, l: Lock, d: nat)
    requires Sized(s) && Sized(t) && |t.st| == |s.st| && t.at == s.at && t.cpu == s.cpu && p < |s.st| &&
      t.lock == s.lock[p := l]
    requires d < |s.cpu| && CpuAt(s, d) && (s.lock[p].Cpu? ==> l == s.lock[p])
    ensures CpuAt(t, d)
  {}

  lemma SwitchedOutCpu(s: Sys, p: nat, c: nat, d: nat)
    requires Sized(s) && p < |s.st| && c < |s.cpu| && d < |s.cpu| && CpuAt(s, d) && s.pc[p].Sched? && Placed(s, p) &&
      s.at[p] == Some(c)
    ensures CpuAt(SwitchedOut(s, p, c, s.pc[p].b), d)
  {}

  lemma SwitchedInCpu(s: Sys, p: nat, c: nat, d: nat)
    requires Sized(s) && p < |s.st| && c < |s.cpu| && d < |s.cpu| && CpuAt(s, d) && s.pc[p].Off? && Placed(s, p) &&
      s.lock[p] == Free
    ensures CpuAt(SwitchedIn(s, p, c, s.pc[p].b), d)
  {}

  lemma SettledCpu(s: Sys, p: nat, c: nat, d: nat)
    requires Sized(s) && p < |s.st| && c < |s.cpu| && d < |s.cpu| && CpuAt(s, d) && CpuAt(s, c) && s.cpu[c] == Out(p)
    ensures CpuAt(Settled(s, p, c), d)
  {}

  lemma SameCpu(s: Sys, t: Sys, d: nat)
    requires Sized(s) && Sized(t) && |t.st| == |s.st| && t.at == s.at && t.lock == s.lock && t.cpu == s.cpu &&
      d < |s.cpu| && CpuAt(s, d)
    ensures CpuAt(t, d)
  {}

  // ---------------------------------------------------------------- every step keeps the invariant

  lemma NearAt(s: Sys, p: nat, q: nat)
    requires Inv(s) && p < |s.st| && q < |s.st|
    ensures Near(s, p, q)
  {
    hide At;
  }

  lemma SelfInv(s: Sys, p: nat, c: Pc, x: State, l: Lock, b: bool, w: Option)
    requires Inv(s) && p < |s.st| && At(Self(s, p, c, x, l, b, w), p) && (s.lock[p].Cpu? ==> l == s.lock[p])
    requires forall q :: 0 <= q < |s.st| && q != p ==> Minds(s, p, c, x, w, q)
    ensures Inv(Self(s, p, c, x, l, b, w))
  {
    var t := Self(s, p, c, x, l, b, w);
    assert Sized(t) && |t.st| == |s.st| && t.cpu == s.cpu && t.at == s.at && t.lock == s.lock[p := l];
    hide Self, At, Minds, CpuAt;
    forall q | 0 <= q < |t.st| ensures At(t, q) { if q != p { SelfOthers(s, p, c, x, l, b, w, q); } }
    forall d | 0 <= d < |t.cpu| ensures CpuAt(t, d) { LockCpu(s, t, p, l, d); }
  }

  lemma WaitInv(s: Sys, p: nat)
    requires Inv(s) && p < |s.st| && s.pc[p] == User && s.wl == None
    ensures Inv(Self(s, p, Scan(0, false), s.st[p], s.lock[p], s.chan[p], Some(p)))
  {
    hide At, Self, Minds, Near, CpuAt;
    NearAt(s, p, p);
    WaitOwn(s, p);
    forall q | 0 <= q < |s.st| && q != p
      ensures Minds(s, p, Scan(0, false), s.st[p], Some(p), q) { NearAt(s, p, q); WaitMinds(s, p, q); }
    SelfInv(s, p, Scan(0, false), s.st[p], s.lock[p], s.chan[p], Some(p));
  }

  lemma ScannedInv(s: Sys, p: nat)
    requires Inv(s) && p < |s.st| && s.pc[p].Scan? && s.pc[p].k < |s.st| &&
      (s.par[s.pc[p].k] == Some(p) ==> s.st[s.pc[p].k] != ZOMBIE)
    ensures Inv(Self(s, p, Scan(s.pc[p].k + 1, s.pc[p].kids || s.par[s.pc[p].k] == Some(p)), s.st[p], s.lock[p],
      s.chan[p], s.wl))
  {
    hide At, Self, Minds, Near, CpuAt;
    NearAt(s, p, p);
    ScannedOwn(s, p);
    var c := Scan(s.pc[p].k + 1, s.pc[p].kids || s.par[s.pc[p].k] == Some(p));
    forall q | 0 <= q < |s.st| && q != p
      ensures Minds(s, p, c, s.st[p], s.wl, q) { NearAt(s, p, q); ScannedMinds(s, p, q); }
    SelfInv(s, p, Scan(s.pc[p].k + 1, s.pc[p].kids || s.par[s.pc[p].k] == Some(p)), s.st[p], s.lock[p], s.chan[p],
      s.wl);
  }

  lemma GivenUpInv(s: Sys, p: nat)
    requires Inv(s) && p < |s.st| && s.pc[p].Scan?
    ensures Inv(Self(s, p, User, s.st[p], s.lock[p], s.chan[p], None))
  {
    hide At, Self, Minds, Near, CpuAt;
    NearAt(s, p, p);
    GivenUpOwn(s, p);
    forall q | 0 <= q < |s.st| && q != p
      ensures Minds(s, p, User, s.st[p], None, q) { NearAt(s, p, q); GivenUpMinds(s, p, q); }
    SelfInv(s, p, User, s.st[p], s.lock[p], s.chan[p], None);
  }

  lemma ToSleepInv(s: Sys, p: nat)
    requires Inv(s) && p < |s.st| && s.pc[p].Scan? && s.pc[p].k >= |s.st| && s.lock[p] == Free
    ensures Inv(Self(s, p, Sleep2, s.st[p], Own, s.chan[p], None))
  {
    hide At, Self, Minds, Near, CpuAt;
    NearAt(s, p, p);
    ToSleepOwn(s, p);
    forall q | 0 <= q < |s.st| && q != p
      ensures Minds(s, p, Sleep2, s.st[p], None, q) { NearAt(s, p, q); ToSleepMinds(s, p, q); }
    SelfInv(s, p, Sleep2, s.st[p], Own, s.chan[p], None);
  }

  lemma AsleepInv(s: Sys, p: nat)
    requires Inv(s) && p < |s.st| && s.pc[p] == Sleep2
    ensures Inv(Self(s, p, Sched(ToWait), SLEEPING, s.lock[p], true, s.wl))
  {
    hide At, Self, Minds, Near, CpuAt;
    NearAt(s, p, p);
    AsleepOwn(s, p);
    forall q | 0 <= q < |s.st| && q != p
      ensures Minds(s, p, Sched(ToWait), SLEEPING, s.wl, q) { NearAt(s, p, q); AsleepMinds(s, p, q); }
    SelfInv(s, p, Sched(ToWait), SLEEPING, s.lock[p], true, s.wl);
  }

  lemma ReLockInv(s: Sys, p: nat)
    requires Inv(s) && p < |s.st| && s.pc[p] == Again && s.wl == None
    ensures Inv(Self(s, p, Scan(0, false), s.st[p], s.lock[p], s.chan[p], Some(p)))
  {
    hide At, Self, Minds, Near, CpuAt;
    NearAt(s, p, p);
    ReLockOwn(s, p);
    forall q | 0 <= q < |s.st| && q != p
      ensures Minds(s, p, Scan(0, false), s.st[p], Some(p), q) { NearAt(s, p, q); ReLockMinds(s, p, q); }
    SelfInv(s, p, Scan(0, false), s.st[p], s.lock[p], s.chan[p], Some(p));
  }

  lemma ExitInv(s: Sys, p: nat)
    requires Inv(s) && p < |s.st| && s.pc[p] == User && s.wl == None && p != s.init
    ensures Inv(Self(s, p, Rep(0), s.st[p], s.lock[p], s.chan[p], Some(p)))
  {
    hide At, Self, Minds, Near, CpuAt;
    NearAt(s, p, p);
    ExitOwn(s, p);
    forall q | 0 <= q < |s.st| && q != p
      ensures Minds(s, p, Rep(0), s.st[p], Some(p), q) { NearAt(s, p, q); ExitMinds(s, p, q); }
    SelfInv(s, p, Rep(0), s.st[p], s.lock[p], s.chan[p], Some(p));
  }

  lemma LoopedInv(s: Sys, p: nat)
    requires Inv(s) && p < |s.st| && s.pc[p].Rep? && s.pc[p].k >= |s.st|
    ensures Inv(Self(s, p, WakePar, s.st[p], s.lock[p], s.chan[p], s.wl))
  {
    hide At, Self, Minds, Near, CpuAt;
    NearAt(s, p, p);
    LoopedOwn(s, p);
    forall q | 0 <= q < |s.st| && q != p
      ensures Minds(s, p, WakePar, s.st[p], s.wl, q) { NearAt(s, p, q); LoopedMinds(s, p, q); }
    SelfInv(s, p, WakePar, s.st[p], s.lock[p], s.chan[p], s.wl);
  }

  lemma SkippedInv(s: Sys, p: nat)
    requires Inv(s) && p < |s.st| && s.pc[p].Rep? && s.pc[p].k < |s.st| && s.par[s.pc[p].k] != Some(p)
    ensures Inv(Self(s, p, Rep(s.pc[p].k + 1), s.st[p], s.lock[p], s.chan[p], s.wl))
  {
    hide At, Self, Minds, Near, CpuAt;
    NearAt(s, p, p);
    SkippedOwn(s, p);
    var c := Rep(s.pc[p].k + 1);
    forall q | 0 <= q < |s.st| && q != p
      ensures Minds(s, p, c, s.st[p], s.wl, q) { NearAt(s, p, q); SkippedMinds(s, p, q); }
    SelfInv(s, p, Rep(s.pc[p].k + 1), s.st[p], s.lock[p], s.chan[p], s.wl);
  }

  lemma DiedInv(s: Sys, p: nat)
    requires Inv(s) && p < |s.st| && s.pc[p] == Zomb && s.lock[p] == Free
    ensures Inv(Self(s, p, Release, ZOMBIE, Own, s.chan[p], s.wl))
  {
    hide At, Self, Minds, Near, CpuAt;
    NearAt(s, p, p);
    DiedOwn(s, p);
    forall q | 0 <= q < |s.st| && q != p
      ensures Minds(s, p, Release, ZOMBIE, s.wl, q) { NearAt(s, p, q); DiedMinds(s, p, q); }
    SelfInv(s, p, Release, ZOMBIE, Own, s.chan[p], s.wl);
  }

  lemma LetGoInv(s: Sys, p: nat)
    requires Inv(s) && p < |s.st| && s.pc[p] == Release
    ensures Inv(Self(s, p, Sched(Never), s.st[p], s.lock[p], s.chan[p], None))
  {
    hide At, Self, Minds, Near, CpuAt;
    NearAt(s, p, p);
    LetGoOwn(s, p);
    forall q | 0 <= q < |s.st| && q != p
      ensures Minds(s, p, Sched(Never), s.st[p], None, q) { NearAt(s, p, q); LetGoMinds(s, p, q); }
    SelfInv(s, p, Sched(Never), s.st[p], s.lock[p], s.chan[p], None);
  }

  lemma YieldedInv(s: Sys, p: nat)
    requires Inv(s) && p < |s.st| && Preemptible(s.pc[p]) && s.lock[p] == Free
    ensures Inv(Self(s, p, Sched(Return(s.pc[p])), RUNNABLE, Own, s.chan[p], s.wl))
  {
    hide At, Self, Minds, Near, CpuAt;
    NearAt(s, p, p);
    YieldedOwn(s, p);
    var c := Sched(Return(s.pc[p]));
    forall q | 0 <= q < |s.st| && q != p
      ensures Minds(s, p, c, RUNNABLE, s.wl, q) { NearAt(s, p, q); YieldedMinds(s, p, q); }
    SelfInv(s, p, Sched(Return(s.pc[p])), RUNNABLE, Own, s.chan[p], s.wl);
  }

  lemma SleptInv(s: Sys, p: nat)
    requires Inv(s) && p < |s.st| && s.pc[p] == User && s.lock[p] == Free
    ensures Inv(Self(s, p, Sched(ToUser), SLEEPING, Own, false, s.wl))
  {
    hide At, Self, Minds, Near, CpuAt;
    NearAt(s, p, p);
    SleptOwn(s, p);
    forall q | 0 <= q < |s.st| && q != p
      ensures Minds(s, p, Sched(ToUser), SLEEPING, s.wl, q) { NearAt(s, p, q); SleptMinds(s, p, q); }
    SelfInv(s, p, Sched(ToUser), SLEEPING, Own, false, s.wl);
  }

  lemma ResumeInv(s: Sys, p: nat)
    requires Inv(s) && p < |s.st| && s.pc[p].Resumed?
    ensures Inv(Self(s, p, Resumes(s.pc[p].b), s.st[p], Free, false, s.wl))
  {
    assert !s.lock[p].Cpu? by { InvAt(s, p); }
    hide At, Self, Minds, Near, CpuAt;
    NearAt(s, p, p);
    ResumeOwn(s, p);
    var c := Resumes(s.pc[p].b);
    forall q | 0 <= q < |s.st| && q != p
      ensures Minds(s, p, c, s.st[p], s.wl, q) { NearAt(s, p, q); ResumeMinds(s, p, q); }
    SelfInv(s, p, Resumes(s.pc[p].b), s.st[p], Free, false, s.wl);
  }

  lemma WokeInv(s: Sys, p: nat)
    requires Inv(s) && p < |s.st| && s.lock[p] == Free && s.st[p] == SLEEPING
    ensures Inv(Self(s, p, s.pc[p], RUNNABLE, s.lock[p], s.chan[p], s.wl))
  {
    hide At, Self, Minds, Near, CpuAt;
    NearAt(s, p, p);
    WokeOwn(s, p);
    forall q | 0 <= q < |s.st| && q != p
      ensures Minds(s, p, s.pc[p], RUNNABLE, s.wl, q) { NearAt(s, p, q); WokeMinds(s, p, q); }
    SelfInv(s, p, s.pc[p], RUNNABLE, s.lock[p], s.chan[p], s.wl);
  }

  lemma ReapedInv(s: Sys, p: nat, k: nat)
    requires Inv(s) && p < |s.st| && s.pc[p].Scan? && s.pc[p].k == k < |s.st| && s.par[k] == Some(p) &&
      s.lock[k] == Free && s.st[k] == ZOMBIE
    ensures Inv(Reaped(s, p, k))
  {
    var t := Reaped(s, p, k);
    assert Sized(t) && |t.st| == |s.st| && |t.cpu| == |s.cpu|;
    assert t.at == s.at && t.lock == s.lock && t.cpu == s.cpu;
    hide Reaped, Near, CpuAt, Placed, Agrees, Family, Making, Heard;
    InvAt(s, k);
    forall q | 0 <= q < |t.st| ensures At(t, q) {
      NearAt(s, p, q);
      ReapedLocks(s, p, k, q);
      ReapedKin(s, p, k, q);
      ReapedHeard(s, p, k, q);
    }
    forall d | 0 <= d < |t.cpu| ensures CpuAt(t, d) { SameCpu(s, t, d); }
  }

  lemma GivenAwayInv(s: Sys, p: nat, k: nat)
    requires Inv(s) && p < |s.st| && s.pc[p] == Rep(k) && k < |s.st| && s.par[k] == Some(p)
    ensures Inv(GivenAway(s, p, k))
  {
    var t := GivenAway(s, p, k);
    assert Sized(t) && |t.st| == |s.st| && |t.cpu| == |s.cpu|;
    assert t.at == s.at && t.lock == s.lock && t.cpu == s.cpu;
    hide GivenAway, Near, CpuAt, Placed, Agrees, Family, Making, Heard;
    InvAt(s, k);
    forall q | 0 <= q < |t.st| ensures At(t, q) {
      NearAt(s, p, q);
      GivenAwayLocks(s, p, k, q);
      GivenAwayKin(s, p, k, q);
      GivenAwayHeard(s, p, k, q);
    }
    forall d | 0 <= d < |t.cpu| ensures CpuAt(t, d) { SameCpu(s, t, d); }
  }

  lemma ToldInitInv(s: Sys, p: nat, k: nat)
    requires Inv(s) && p < |s.st| && s.pc[p] == WakeInit(k) && s.lock[s.init] == Free
    ensures Inv(ToldThen(s, p, s.init, Rep(k + 1)))
  {
    var t := ToldThen(s, p, s.init, Rep(k + 1));
    assert Sized(t) && |t.st| == |s.st| && |t.cpu| == |s.cpu|;
    assert t.at == s.at && t.lock == s.lock && t.cpu == s.cpu;
    hide ToldThen, Near, CpuAt, Placed, Agrees, Family, Making, Heard;
    forall q | 0 <= q < |t.st| ensures At(t, q) {
      NearAt(s, p, q);
      ToldInitLocks(s, p, k, q);
      ToldInitKin(s, p, k, q);
      ToldInitHeard(s, p, k, q);
    }
    forall d | 0 <= d < |t.cpu| ensures CpuAt(t, d) { SameCpu(s, t, d); }
  }

  lemma ToldParentInv(s: Sys, p: nat, k: nat)
    requires Inv(s) && p < |s.st| && s.pc[p] == WakePar && s.par[p] == Some(k) && k < |s.st| && s.lock[k] == Free
    ensures Inv(ToldThen(s, p, k, Zomb))
  {
    var t := ToldThen(s, p, k, Zomb);
    assert Sized(t) && |t.st| == |s.st| && |t.cpu| == |s.cpu|;
    assert t.at == s.at && t.lock == s.lock && t.cpu == s.cpu;
    hide ToldThen, Near, CpuAt, Placed, Agrees, Family, Making, Heard;
    InvAt(s, k);
    forall q | 0 <= q < |t.st| ensures At(t, q) {
      NearAt(s, p, q);
      ToldParentLocks(s, p, k, q);
      ToldParentKin(s, p, k, q);
      ToldParentHeard(s, p, k, q);
    }
    forall d | 0 <= d < |t.cpu| ensures CpuAt(t, d) { SameCpu(s, t, d); }
  }

  lemma AllocatedInv(s: Sys, p: nat, k: nat)
    requires Inv(s) && p < |s.st| && s.pc[p] == User && k < |s.st| && s.lock[k] == Free && s.st[k] == UNUSED
    ensures Inv(Allocated(s, p, k))
  {
    var t := Allocated(s, p, k);
    assert Sized(t) && |t.st| == |s.st| && |t.cpu| == |s.cpu|;
    assert t.at == s.at && t.lock == s.lock && t.cpu == s.cpu;
    hide Allocated, Near, CpuAt, Placed, Agrees, Family, Making, Heard;
    InvAt(s, k);
    forall q | 0 <= q < |t.st| ensures At(t, q) {
      NearAt(s, p, q);
      AllocatedLocks(s, p, k, q);
      AllocatedKin(s, p, k, q);
      AllocatedHeard(s, p, k, q);
    }
    forall d | 0 <= d < |t.cpu| ensures CpuAt(t, d) { SameCpu(s, t, d); }
  }

  lemma ParentedInv(s: Sys, p: nat, k: nat)
    requires Inv(s) && p < |s.st| && s.pc[p] == SetPar(k) && s.wl == None && k < |s.st|
    ensures Inv(Parented(s, p, k))
  {
    var t := Parented(s, p, k);
    assert Sized(t) && |t.st| == |s.st| && |t.cpu| == |s.cpu|;
    assert t.at == s.at && t.lock == s.lock && t.cpu == s.cpu;
    hide Parented, Near, CpuAt, Placed, Agrees, Family, Making, Heard;
    InvAt(s, k);
    forall q | 0 <= q < |t.st| ensures At(t, q) {
      NearAt(s, p, q);
      ParentedLocks(s, p, k, q);
      ParentedKin(s, p, k, q);
      ParentedHeard(s, p, k, q);
    }
    forall d | 0 <= d < |t.cpu| ensures CpuAt(t, d) { SameCpu(s, t, d); }
  }

  lemma BegunInv(s: Sys, p: nat, k: nat)
    requires Inv(s) && p < |s.st| && s.pc[p] == Start(k) && k < |s.st| && s.lock[k] == Free
    ensures Inv(Begun(s, p, k))
  {
    var t := Begun(s, p, k);
    assert Sized(t) && |t.st| == |s.st| && |t.cpu| == |s.cpu|;
    assert t.at == s.at && t.lock == s.lock && t.cpu == s.cpu;
    hide Begun, Near, CpuAt, Placed, Agrees, Family, Making, Heard;
    InvAt(s, k);
    forall q | 0 <= q < |t.st| ensures At(t, q) {
      NearAt(s, p, q);
      BegunLocks(s, p, k, q);
      BegunKin(s, p, k, q);
      BegunHeard(s, p, k, q);
    }
    forall d | 0 <= d < |t.cpu| ensures CpuAt(t, d) { SameCpu(s, t, d); }
  }

  lemma SwitchedOutInv(s: Sys, p: nat, c: nat)
    requires Inv(s) && p < |s.st| && s.pc[p].Sched? && s.at[p] == Some(c) && c < |s.cpu|
    ensures Inv(SwitchedOut(s, p, c, s.pc[p].b))
  {
    var t := SwitchedOut(s, p, c, s.pc[p].b);
    assert Sized(t) && |t.st| == |s.st| && |t.cpu| == |s.cpu|;
    assert Placed(s, p) by { InvAt(s, p); }
    hide SwitchedOut, Near, CpuAt, Placed, Agrees, Family, Making, Heard;
    forall q | 0 <= q < |t.st| ensures At(t, q) {
      NearAt(s, p, q);
      SwitchedOutLocks(s, p, c, q);
      SwitchedOutKin(s, p, c, q);
      SwitchedOutHeard(s, p, c, q);
    }
    forall d | 0 <= d < |t.cpu| ensures CpuAt(t, d) { SwitchedOutCpu(s, p, c, d); }
  }

  lemma SwitchedInInv(s: Sys, p: nat, c: nat)
    requires Inv(s) && p < |s.st| && c < |s.cpu| && s.cpu[c] == Looking && s.lock[p] == Free && s.st[p] == RUNNABLE &&
      s.pc[p].Off?
    ensures Inv(SwitchedIn(s, p, c, s.pc[p].b))
  {
    var t := SwitchedIn(s, p, c, s.pc[p].b);
    assert Sized(t) && |t.st| == |s.st| && |t.cpu| == |s.cpu|;
    assert Placed(s, p) by { InvAt(s, p); }
    hide SwitchedIn, Near, CpuAt, Placed, Agrees, Family, Making, Heard;
    forall q | 0 <= q < |t.st| ensures At(t, q) {
      NearAt(s, p, q);
      SwitchedInLocks(s, p, c, q);
      SwitchedInKin(s, p, c, q);
      SwitchedInHeard(s, p, c, q);
    }
    forall d | 0 <= d < |t.cpu| ensures CpuAt(t, d) { SwitchedInCpu(s, p, c, d); }
  }

  lemma SettledInv(s: Sys, p: nat, c: nat)
    requires Inv(s) && p < |s.st| && c < |s.cpu| && s.cpu[c] == Out(p)
    ensures Inv(Settled(s, p, c))
  {
    var t := Settled(s, p, c);
    assert Sized(t) && |t.st| == |s.st| && |t.cpu| == |s.cpu|;
    hide Settled, Near, CpuAt, Placed, Agrees, Family, Making, Heard;
    forall q | 0 <= q < |t.st| ensures At(t, q) {
      NearAt(s, p, q);
      SettledLocks(s, p, c, q);
      SettledKin(s, p, c, q);
      SettledHeard(s, p, c, q);
    }
    forall d | 0 <= d < |t.cpu| ensures CpuAt(t, d) { SettledCpu(s, p, c, d); }
  }

  lemma StepInv(s: Sys, e: Event)
    requires Inv(s) && Enabled(s, e)
    ensures Inv(After(s, e))
  {
    assert Sized(s);
    hide Inv, Self, Reaped, GivenAway, ToldThen, Allocated, Parented, Begun, SwitchedOut, SwitchedIn, Settled;
    var p := e.p;
    match e {
      case Wait(_) => WaitInv(s, p);
      case ScanOne(_) => ScannedInv(s, p);
      case Reap(_) => ReapedInv(s, p, s.pc[p].k);
      case GiveUp(_) => GivenUpInv(s, p);
      case ToSleep(_) => ToSleepInv(s, p);
      case FallAsleep(_) => AsleepInv(s, p);
      case ReLock(_) => ReLockInv(s, p);
      case Exit(_) => ExitInv(s, p);
      case Reparent(_) =>
        if s.pc[p].k >= |s.st| { LoopedInv(s, p); }
        else if s.par[s.pc[p].k] == Some(p) { GivenAwayInv(s, p, s.pc[p].k); }
        else { SkippedInv(s, p); }
      case TellInit(_) => ToldInitInv(s, p, s.pc[p].k);
      case TellParent(_) => ToldParentInv(s, p, s.par[p].i);
      case Die(_) => DiedInv(s, p);
      case LetGo(_) => LetGoInv(s, p);
      case Alloc(_, k) => AllocatedInv(s, p, k);
      case Parent(_) => ParentedInv(s, p, s.pc[p].k);
      case Begin(_) => BegunInv(s, p, s.pc[p].k);
      case Yield(_) => YieldedInv(s, p);
      case OtherSleep(_) => SleptInv(s, p);
      case SwitchOut(_) => SwitchedOutInv(s, p, s.at[p].i);
      case Resume(_) => ResumeInv(s, p);
      case SwitchIn(_, c) => SwitchedInInv(s, p, c);
      case Settle(_, c) => SettledInv(s, p, c);
      case Wakeup(_) => WokeInv(s, p);
    }
  }

  // ---------------------------------------------------------------- runs

  ghost predicate Follows(s: Sys, e: Event, t: Sys) { Sized(s) && Enabled(s, e) && t == After(s, e) }

  /** Only init is there, on the first CPU or about to be scheduled. */
  ghost predicate Starts(s: Sys) {
    && Sized(s) && s.wl == None && (forall c :: 0 <= c < |s.cpu| ==> s.cpu[c] == Looking)
    && forall i :: 0 <= i < |s.st| ==>
         && s.par[i] == None && s.lock[i] == Free && s.at[i] == None && s.maker[i] == None
         && (if i == s.init then s.st[i] == RUNNABLE && s.pc[i] == Off(ToUser)
             else s.st[i] == UNUSED && s.pc[i] == NoThread)
  }

  ghost predicate IsRun(states: seq<Sys>, events: seq<Event>) {
    && |states| == |events| + 1 && Starts(states[0])
    && forall j :: 0 <= j < |events| ==> Follows(states[j], events[j], states[j + 1])
  }

  lemma StartsInv(s: Sys)
    requires Starts(s)
    ensures Inv(s)
  {
    forall i | 0 <= i < |s.st| ensures At(s, i) {}
  }

  lemma FollowsInv(s: Sys, e: Event, t: Sys)
    requires Inv(s) && Follows(s, e, t)
    ensures Inv(t)
  {
    hide Inv, Enabled, After;
    StepInv(s, e);
  }

  lemma {:induction false} RunInv(states: seq<Sys>, events: seq<Event>, j: nat)
    requires IsRun(states, events) && j < |states|
    ensures Inv(states[j])
  {
    hide Inv, Follows, Starts;
    if j == 0 {
      StartsInv(states[0]);
    } else {
      RunInv(states, events, j - 1);
      assert Follows(states[j - 1], events[j - 1], states[j]);
      FollowsInv(states[j - 1], events[j - 1], states[j]);
    }
  }

  /** CPU c runs process i: it has switched to it and not come back. */
  ghost predicate Runs(s: Sys, c: nat, i: nat) { c < |s.cpu| && s.cpu[c] == In(i) }

  /** c->proc is i. */
  ghost predicate Current(s: Sys, c: nat, i: nat) { c < |s.cpu| && (s.cpu[c] == In(i) || s.cpu[c] == Out(i)) }

  /** No process is current on two CPUs. */
  lemma OneCpu(s: Sys, i: nat, c: nat, d: nat)
    requires Inv(s) && i < |s.st| && Current(s, c, i) && Current(s, d, i)
    ensures c == d
  {
    InvAt(s, i);
    assert CpuAt(s, c) && CpuAt(s, d);
    hide Inv, Agrees, Family, Making, Heard;
  }

  /** While p->lock is free, p is RUNNING exactly when a CPU runs it. */
  lemma RunningIsRun(s: Sys, i: nat)
    requires Inv(s) && i < |s.st| && s.lock[i] == Free
    ensures s.st[i] == RUNNING <==> exists c :: Runs(s, c, i)
  {
    InvAt(s, i);
    if s.st[i] == RUNNING { assert Runs(s, s.at[i].i, i); }
    if c :| Runs(s, c, i) { assert CpuAt(s, c); }
    hide Inv, Family, Making, Heard;
  }

  /** A zombie has no children, and a parent pointer always names a living process. */
  lemma ZombieHasNoChildren(s: Sys, i: nat)
    requires Inv(s) && i < |s.st| && s.par[i].Some?
    ensures s.par[i].i < |s.st| && s.st[s.par[i].i] != ZOMBIE && s.st[s.par[i].i] != UNUSED && s.st[i] != UNUSED
  {
    InvAt(s, i);
    InvAt(s, s.par[i].i);
    hide Inv, Making, Heard;
  }

  /** A free slot is nobody's parent and has none: no parent pointer survives into the slot's next use. */
  lemma FreeSlotIsClean(s: Sys, k: nat, i: nat)
    requires Inv(s) && k < |s.st| && i < |s.st| && s.st[k] == UNUSED
    ensures s.par[k] == None && s.par[i] != Some(k)
  {
    InvAt(s, k);
    if s.par[i] == Some(k) { ZombieHasNoChildren(s, i); }
    hide Inv, Making, Heard;
  }

  /** wait frees a child only when it has left its kernel stack for good: no CPU has it current. Afterwards it is no
      zombie and nobody's child, so it is not reaped again. */
  lemma ReapedOffStack(s: Sys, p: nat, c: nat)
    requires Inv(s) && Enabled(s, Reap(p)) && c < |s.cpu|
    ensures var k := s.pc[p].k; s.pc[k] == Off(Never) && !Current(s, c, k)
    ensures var k, t := s.pc[p].k, After(s, Reap(p)); t.st[k] == UNUSED && t.par[k] == None
  {
    var k := s.pc[p].k;
    InvAt(s, k);
    InvAt(s, p);
    assert CpuAt(s, c);
    hide Inv, Making, Heard;
  }

  /** exit wakes its parent before it becomes a zombie, yet never strands it: when nobody holds wait_lock, no parent of
      a zombie sleeps in wait. */
  lemma NoStrandedParent(s: Sys, i: nat)
    requires Inv(s) && i < |s.st| && s.wl == None && s.st[i] == ZOMBIE && s.par[i].Some?
    ensures s.par[i].i < |s.st| && !InWait(s, s.par[i].i)
  {
    InvAt(s, i);
    hide Inv, Making;
  }
}
