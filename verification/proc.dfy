/**
 Process life cycle of kernel/proc.c: fork, exit, wait, sleep, wakeup, kill and the
 scheduler, interleaved on any number of CPUs.

 Every process slot has a kernel thread with a program counter; a CPU runs either its
 scheduler or one such thread.  A spin lock is owned by a CPU.  Code between acquiring
 and releasing one lock that touches only what that lock protects is one step.
 */
module Process {
  import opened Sets

  datatype PState = UNUSED | USED | SLEEPING | RUNNABLE | RUNNING | ZOMBIE

  /** What a process sleeps on: a proc structure (in wait), or anything else. */
  datatype Chan = NoChan | ProcChan(p: nat) | OtherChan(id: nat)

  datatype Pc =
    | Anywhere                        // in code that is not modelled, holding no lock
    | ForkHeld(np: nat)               // np allocated, np->lock held
    | ForkMid(np: nat)                // np->lock released, parent not set
    | ForkDone(np: nat)               // parent set, np not yet RUNNABLE
    | ExitReparent(status: int, i: nat)           // wait_lock held; looking at proc[i]
    | ExitInitWake(status: int, i: nat, k: nat)   // proc[i] given to init; wakeup(initproc) at proc[k]
    | ExitWake(status: int, k: nat)   // wakeup(p->parent) at proc[k]
    | ExitLock(status: int)           // about to acquire p->lock
    | ExitDead                        // ZOMBIE; wait_lock and p->lock held
    | ExitSched                       // wait_lock released
    | ExitGone                        // switched away for good
    | WaitScan(i: nat, have: bool)    // wait_lock held; looking at proc[i]
    | WaitCheck                       // children but no zombie; about to call killed(p)
    | WaitSleep                       // calling sleep(p, &wait_lock)
    | WaitLocked                      // p->lock acquired too
    | WaitCommitted                   // wait_lock released, p->lock held
    | WaitAsleep                      // in sched() inside sleep(p, ...)
    | WaitRetry                       // about to reacquire wait_lock
    | OtherAsleep                     // in sched() inside sleep on another channel

  datatype Proc = Proc(
    state: PState, chan: Chan, parent: Option<nat>, killed: bool, xstate: int, pid: nat,
    lock: Option<nat>,                // owning CPU
    pc: Pc,
    inSched: bool)                    // switched out, or switched in and p->lock not yet released

  datatype Cpu =
    | Idle                            // in scheduler(), no process
    | InProc(p: nat)                  // running p's kernel thread
    | Back(p: nat)                    // swtch returned from p; p->lock still held

  datatype Reap = Reap(pid: nat, status: int)

  datatype State = State(
    procs: seq<Proc>,
    cpus: seq<Cpu>,
    waitLock: Option<nat>,
    nextpid: nat,
    exited: map<nat, int>,            // pid to status, of every exit so far
    reaped: seq<Reap>)                // what wait has returned so far

  const INIT: nat := 0                // initproc

  datatype Label =
    | ForkAlloc(np: nat) | ForkFail | ForkRelease | ForkParent | ForkRun
    | ExitBegin(status: int) | ExitStep
    | WaitBegin | WaitStep(copied: bool)
    | Resume | Sleep(ch: nat) | Yield
    | Kill(k: nat) | WakeOther(k: nat, ch: nat)
    | Dispatch(p: nat) | Release

  // ------------------------------------------------------------------
  // Helpers

  function Upd(s: State, p: nat, x: Proc): State
    requires p < |s.procs|
  {
    s.(procs := s.procs[p := x])
  }

  function At(s: State, p: nat, pc: Pc): State
    requires p < |s.procs|
  {
    Upd(s, p, s.procs[p].(pc := pc))
  }

  predicate FreeLock(s: State, p: nat) {
    p < |s.procs| && s.procs[p].lock.None?
  }

  /** What freeproc leaves. */
  const FREED: Proc := Proc(UNUSED, NoChan, None, false, 0, 0, None, Anywhere, false)

  /** wakeup's body for one slot. */
  function Woken(x: Proc, ch: Chan): Proc {
    if x.state.SLEEPING? && x.chan == ch then x.(state := RUNNABLE) else x
  }

  /** sched: the CPU goes back to its scheduler with p->lock held. */
  function Switch(s: State, c: nat, p: nat, x: Proc): State
    requires c < |s.cpus| && p < |s.procs|
  {
    Upd(s, p, x.(lock := Some(c), inSched := true)).(cpus := s.cpus[c := Back(p)])
  }

  // ------------------------------------------------------------------
  // Steps of the thread p running on CPU c

  /** The next step of exit, when it does not have to wait for a lock. */
  function ExitNext(s: State, c: nat, p: nat): Option<State>
    requires c < |s.cpus| && p < |s.procs| && INIT < |s.procs|
  {
    var x, n := s.procs[p], |s.procs|;
    match x.pc
    case ExitReparent(st, i) =>
      if i >= n then Some(At(s, p, ExitWake(st, 0)))
      else if s.procs[i].parent == Some(p) then
        Some(At(Upd(s, i, s.procs[i].(parent := Some(INIT))), p, ExitInitWake(st, i, 0)))
      else Some(At(s, p, ExitReparent(st, i + 1)))
    case ExitInitWake(st, i, k) =>
      if k >= n then Some(At(s, p, ExitReparent(st, i + 1)))
      else if k == p then Some(At(s, p, ExitInitWake(st, i, k + 1)))
      else if FreeLock(s, k) then
        Some(At(Upd(s, k, Woken(s.procs[k], ProcChan(INIT))), p, ExitInitWake(st, i, k + 1)))
      else None
    case ExitWake(st, k) =>
      if k >= n then Some(At(s, p, ExitLock(st)))
      else if k == p then Some(At(s, p, ExitWake(st, k + 1)))
      else if FreeLock(s, k) then
        var ch := if x.parent.Some? then ProcChan(x.parent.value) else NoChan;
        Some(At(Upd(s, k, Woken(s.procs[k], ch)), p, ExitWake(st, k + 1)))
      else None
    case ExitLock(st) =>
      if FreeLock(s, p) then
        Some(Upd(s, p, x.(lock := Some(c), xstate := st, state := ZOMBIE, pc := ExitDead))
             .(exited := s.exited[x.pid := st]))
      else None
    case ExitDead => Some(At(s, p, ExitSched).(waitLock := None))
    case ExitSched => Some(Switch(s, c, p, x.(pc := ExitGone)))
    case _ => None
  }

  /** The next step of wait, when it does not have to wait for a lock. */
  function WaitNext(s: State, c: nat, p: nat, copied: bool): Option<State>
    requires c < |s.cpus| && p < |s.procs|
  {
    var x, n := s.procs[p], |s.procs|;
    match x.pc
    case WaitScan(i, have) =>
      if i >= n then
        if have then Some(At(s, p, WaitCheck)) else Some(At(s, p, Anywhere).(waitLock := None))
      else if s.procs[i].parent != Some(p) then Some(At(s, p, WaitScan(i + 1, have)))
      else if !FreeLock(s, i) then None
      else if s.procs[i].state != ZOMBIE then Some(At(s, p, WaitScan(i + 1, true)))
      else if !copied then Some(At(s, p, Anywhere).(waitLock := None))
      else
        Some(At(Upd(s, i, FREED), p, Anywhere)
             .(waitLock := None, reaped := s.reaped + [Reap(s.procs[i].pid, s.procs[i].xstate)]))
    case WaitCheck =>
      if !FreeLock(s, p) then None
      else if x.killed then Some(At(s, p, Anywhere).(waitLock := None))
      else Some(At(s, p, WaitSleep))
    case WaitSleep => if FreeLock(s, p) then Some(Upd(s, p, x.(lock := Some(c), pc := WaitLocked))) else None
    case WaitLocked => Some(At(s, p, WaitCommitted).(waitLock := None))
    case WaitCommitted => Some(Switch(s, c, p, x.(pc := WaitAsleep, chan := ProcChan(p), state := SLEEPING)))
    case WaitRetry => if s.waitLock.None? then Some(At(s, p, WaitScan(0, false)).(waitLock := Some(c))) else None
    case _ => None
  }

  /** fork, step by step; np is a free slot. */
  function ForkNext(s: State, c: nat, p: nat, l: Label): Option<State>
    requires c < |s.cpus| && p < |s.procs|
  {
    var x := s.procs[p];
    match (l, x.pc)
    case (ForkAlloc(np), Anywhere) =>
      if FreeLock(s, np) && s.procs[np].state == UNUSED then
        // killed keeps its value: kill(0) sets it on a free slot
        var y := Proc(USED, NoChan, None, s.procs[np].killed, 0, s.nextpid, Some(c), Anywhere, true);
        Some(At(Upd(s, np, y), p, ForkHeld(np)).(nextpid := s.nextpid + 1))
      else None
    case (ForkFail, ForkHeld(np)) =>
      if np < |s.procs| then Some(At(Upd(s, np, FREED), p, Anywhere)) else None
    case (ForkRelease, ForkHeld(np)) =>
      if np < |s.procs| then Some(At(Upd(s, np, s.procs[np].(lock := None)), p, ForkMid(np))) else None
    case (ForkParent, ForkMid(np)) =>
      if np < |s.procs| && s.waitLock.None? then
        Some(At(Upd(s, np, s.procs[np].(parent := Some(p))), p, ForkDone(np)))
      else None
    case (ForkRun, ForkDone(np)) =>
      if FreeLock(s, np) then Some(At(Upd(s, np, s.procs[np].(state := RUNNABLE)), p, Anywhere)) else None
    case _ => None
  }

  /** May this point be preempted: no spin lock is held, so interrupts are on. */
  predicate Preemptible(pc: Pc) {
    pc.Anywhere? || pc.ForkMid? || pc.ForkDone? || pc.WaitRetry?
  }

  /** A step of the thread p running on CPU c, past its return from sched(). */
  function ThreadNext(s: State, c: nat, p: nat, l: Label): Option<State>
    requires c < |s.cpus| && p < |s.procs| && INIT < |s.procs|
  {
    var x := s.procs[p];
    match l
    case ExitBegin(st) =>
      if x.pc.Anywhere? && p != INIT && s.waitLock.None?
      then Some(At(s, p, ExitReparent(st, 0)).(waitLock := Some(c))) else None
    case ExitStep => ExitNext(s, c, p)
    case WaitBegin =>
      if x.pc.Anywhere? && s.waitLock.None?
      then Some(At(s, p, WaitScan(0, false)).(waitLock := Some(c))) else None
    case WaitStep(copied) => WaitNext(s, c, p, copied)
    case Sleep(ch) =>
      if x.pc.Anywhere? && FreeLock(s, p)
      then Some(Switch(s, c, p, x.(state := SLEEPING, chan := OtherChan(ch), pc := OtherAsleep))) else None
    case Yield =>
      if Preemptible(x.pc) && FreeLock(s, p) then Some(Switch(s, c, p, x.(state := RUNNABLE))) else None
    case _ => ForkNext(s, c, p, l)
  }

  /** The return from sched(): sleep clears chan, and p->lock is released. */
  function Resumed(x: Proc): Proc {
    match x.pc
    case WaitAsleep => x.(chan := NoChan, pc := WaitRetry, lock := None, inSched := false)
    case OtherAsleep => x.(chan := NoChan, pc := Anywhere, lock := None, inSched := false)
    case _ => x.(lock := None, inSched := false)
  }

  /** One step on CPU c. */
  function Next(s: State, c: nat, l: Label): Option<State>
    requires c < |s.cpus| && INIT < |s.procs|
  {
    match l
    case Kill(k) =>
      if FreeLock(s, k) then
        var x := s.procs[k].(killed := true);
        Some(Upd(s, k, if x.state.SLEEPING? then x.(state := RUNNABLE) else x))
      else None
    case WakeOther(k, ch) =>
      if FreeLock(s, k) then Some(Upd(s, k, Woken(s.procs[k], OtherChan(ch)))) else None
    case Dispatch(p) =>
      if s.cpus[c].Idle? && FreeLock(s, p) && s.procs[p].state == RUNNABLE then
        Some(Upd(s, p, s.procs[p].(state := RUNNING, lock := Some(c))).(cpus := s.cpus[c := InProc(p)]))
      else None
    case Release =>
      if s.cpus[c].Back? && s.cpus[c].p < |s.procs| then
        Some(Upd(s, s.cpus[c].p, s.procs[s.cpus[c].p].(lock := None)).(cpus := s.cpus[c := Idle]))
      else None
    case _ =>
      if !s.cpus[c].InProc? || s.cpus[c].p >= |s.procs| then None
      else
        var p := s.cpus[c].p;
        if s.procs[p].inSched then
          if l.Resume? then Some(Upd(s, p, Resumed(s.procs[p]))) else None
        else ThreadNext(s, c, p, l)
  }

  predicate Start(s: State) {
    && INIT < |s.procs|
    && s.waitLock.None? && s.nextpid == 2 && s.exited == map[] && s.reaped == []
    && (forall c :: 0 <= c < |s.cpus| ==> s.cpus[c].Idle?)
    && s.procs[INIT] == Proc(RUNNABLE, NoChan, None, false, 0, 1, None, Anywhere, true)
    && (forall p :: 1 <= p < |s.procs| ==> s.procs[p] == FREED)
  }

  // ------------------------------------------------------------------
  // The invariant

  predicate HoldsWait(pc: Pc) {
    || pc.ExitReparent? || pc.ExitInitWake? || pc.ExitWake? || pc.ExitLock? || pc.ExitDead?
    || pc.WaitScan? || pc.WaitCheck? || pc.WaitSleep? || pc.WaitLocked?
  }

  predicate HoldsOwn(pc: Pc) {
    pc.ExitDead? || pc.ExitSched? || pc.WaitLocked? || pc.WaitCommitted?
  }

  predicate Exiting(pc: Pc) {
    pc.ExitReparent? || pc.ExitInitWake? || pc.ExitWake? || pc.ExitLock? || pc.ExitDead? || pc.ExitSched?
    || pc.ExitGone?
  }

  predicate Alive(st: PState) {
    st.SLEEPING? || st.RUNNABLE? || st.RUNNING?
  }

  /** The lock is owned by the CPU that runs p. */
  predicate OwnedBy(s: State, lock: Option<nat>, p: nat) {
    lock.Some? && lock.value < |s.cpus| && s.cpus[lock.value] == InProc(p)
  }

  /** A CPU and the process it deals with. */
  ghost predicate CpuOk(s: State, c: nat)
    requires c < |s.cpus|
  {
    match s.cpus[c]
    case Idle => true
    case InProc(p) =>
      && p < |s.procs|
      && (s.procs[p].state.RUNNING? || s.procs[p].state.ZOMBIE?)
      && (s.procs[p].inSched ==> s.procs[p].lock == Some(c) && s.procs[p].state.RUNNING?)
    case Back(p) =>
      && p < |s.procs| && s.procs[p].lock == Some(c) && s.procs[p].inSched
      && (s.procs[p].state.SLEEPING? || s.procs[p].state.RUNNABLE? || s.procs[p].state.ZOMBIE?)
  }

  ghost predicate Cpus(s: State) {
    && (forall c :: 0 <= c < |s.cpus| ==> CpuOk(s, c))
    && (forall c, d :: 0 <= c < d < |s.cpus| && !s.cpus[c].Idle? && !s.cpus[d].Idle? ==> s.cpus[c].p != s.cpus[d].p)
  }

  /** State, program counter and locks of one process agree. */
  ghost predicate ProcOk(s: State, p: nat)
    requires p < |s.procs|
  {
    var x := s.procs[p];
    && (HoldsWait(x.pc) ==> OwnedBy(s, s.waitLock, p))
    && (HoldsOwn(x.pc) ==> OwnedBy(s, x.lock, p))
    && (x.state.ZOMBIE? <==> x.pc.ExitDead? || x.pc.ExitSched? || x.pc.ExitGone?)
    && (x.state.SLEEPING? ==>
          (x.pc.WaitAsleep? && x.chan == ProcChan(p)) || (x.pc.OtherAsleep? && x.chan.OtherChan?))
    && (x.state.SLEEPING? || x.state.RUNNABLE? ==> x.inSched)
    && (x.state.UNUSED? ==> x == FREED.(killed := x.killed))
    && (x.state.USED? ==> x.pc.Anywhere? && x.inSched && x.chan.NoChan?)
    && (x.inSched ==> Preemptible(x.pc) || x.pc.WaitAsleep? || x.pc.OtherAsleep? || x.pc.ExitGone?)
    && (x.pc.WaitAsleep? || x.pc.OtherAsleep? || x.pc.ExitGone? ==> x.inSched)
  }

  ghost predicate Procs(s: State) {
    forall p :: 0 <= p < |s.procs| ==> ProcOk(s, p)
  }

  function ForkOf(pc: Pc): Option<nat> {
    match pc
    case ForkHeld(np) => Some(np)
    case ForkMid(np) => Some(np)
    case ForkDone(np) => Some(np)
    case _ => None
  }

  /** A slot being forked is USED and known to its forker alone. */
  ghost predicate ForkOk(s: State, p: nat)
    requires p < |s.procs|
  {
    var pc := s.procs[p].pc;
    ForkOf(pc).Some? ==>
      var np := ForkOf(pc).value;
      && np < |s.procs| && np != p && s.procs[np].state.USED?
      && (pc.ForkHeld? ==> OwnedBy(s, s.procs[np].lock, p))
      && s.procs[np].parent == if pc.ForkDone? then Some(p) else None
  }

  ghost predicate Forks(s: State) {
    && (forall p :: 0 <= p < |s.procs| ==> ForkOk(s, p))
    && (forall p, q :: 0 <= p < q < |s.procs| && ForkOf(s.procs[p].pc).Some? ==>
          ForkOf(s.procs[p].pc) != ForkOf(s.procs[q].pc))
  }

  /** Children of p among the slots below n. */
  ghost predicate ChildlessBelow(s: State, p: nat, n: nat) {
    forall j :: 0 <= j < n && j < |s.procs| ==> s.procs[j].parent != Some(p)
  }

  /** Parents are alive; a process that is on its way out has handed its children over. */
  ghost predicate ParentOk(s: State, p: nat)
    requires p < |s.procs|
  {
    var x := s.procs[p];
    && (x.parent.Some? ==>
          && x.parent.value < |s.procs| && x.parent.value != p && Alive(s.procs[x.parent.value].state)
          && !x.state.UNUSED?)
    && (x.state.USED? && x.parent.Some? ==> s.procs[x.parent.value].pc == ForkDone(p))
    && (p != INIT && (Alive(x.state) || x.state.ZOMBIE?) ==> x.parent.Some?)
    && (x.pc.ExitReparent? ==> ChildlessBelow(s, p, x.pc.i))
    && (x.pc.ExitInitWake? ==> ChildlessBelow(s, p, x.pc.i + 1))
    && (x.pc.ExitWake? || x.pc.ExitLock? ==> ChildlessBelow(s, p, |s.procs|))
  }

  ghost predicate Parents(s: State) {
    && INIT < |s.procs| && Alive(s.procs[INIT].state) && !Exiting(s.procs[INIT].pc) && s.procs[INIT].parent.None?
    && forall p :: 0 <= p < |s.procs| ==> ParentOk(s, p)
  }

  /** p can no longer notice a zombie child by itself: it sleeps in wait, or is bound to. */
  predicate Committed(x: Proc) {
    x.pc.WaitCommitted? || (x.pc.WaitAsleep? && x.state.SLEEPING?)
  }

  /** wakeup(initproc) is under way and has not reached init. */
  predicate InitWakeDue(s: State) {
    && s.waitLock.Some? && s.waitLock.value < |s.cpus| && s.cpus[s.waitLock.value].InProc?
    && var e := s.cpus[s.waitLock.value].p;
       e < |s.procs| && s.procs[e].pc.ExitInitWake? && s.procs[e].pc.k <= INIT
  }

  ghost predicate NoZombieBelow(s: State, p: nat, n: nat) {
    forall j :: 0 <= j < n && j < |s.procs| && s.procs[j].parent == Some(p) ==> !s.procs[j].state.ZOMBIE?
  }

  ghost predicate WaitOk(s: State, p: nat)
    requires p < |s.procs|
  {
    var x := s.procs[p];
    && (x.pc.WaitScan? ==> NoZombieBelow(s, p, x.pc.i))
    && (x.pc.WaitCheck? || x.pc.WaitSleep? || x.pc.WaitLocked? ==> NoZombieBelow(s, p, |s.procs|))
    && (Committed(x) ==> NoZombieBelow(s, p, |s.procs|) || (p == INIT && InitWakeDue(s)))
    && (x.parent.Some? && x.parent.value < |s.procs| ==>
          && (x.pc.ExitWake? && x.parent.value < x.pc.k ==> !Committed(s.procs[x.parent.value]))
          && (x.pc.ExitLock? ==> !Committed(s.procs[x.parent.value])))
    && (x.pc.ExitInitWake? && INIT < x.pc.k && INIT < |s.procs| ==> !Committed(s.procs[INIT]))
  }

  ghost predicate Waits(s: State) {
    forall p :: 0 <= p < |s.procs| ==> WaitOk(s, p)
  }

  ghost predicate Inv(s: State) {
    Cpus(s) && Procs(s) && Forks(s) && Parents(s) && Waits(s)
  }

  lemma StartInv(s: State)
    requires Start(s)
    ensures Inv(s)
  {
  }

  // ------------------------------------------------------------------
  // Steps

  /** The invariant, for one slot. */
  lemma OkAt(s: State, p: nat)
    requires Inv(s) && p < |s.procs|
    ensures ProcOk(s, p) && ForkOk(s, p) && ParentOk(s, p) && WaitOk(s, p)
  {
  }

  lemma CpuAt(s: State, c: nat)
    requires Inv(s) && c < |s.cpus|
    ensures CpuOk(s, c)
  {
  }

  lemma InitAt(s: State)
    requires Inv(s)
    ensures INIT < |s.procs| && Alive(s.procs[INIT].state) && !Exiting(s.procs[INIT].pc) && s.procs[INIT].parent.None?
  {
  }

  predicate About(x: Cpu, p: nat) {
    !x.Idle? && x.p == p
  }

  /** No CPU runs p or still holds p->lock for it. */
  ghost predicate Quiet(s: State, p: nat) {
    forall c :: 0 <= c < |s.cpus| ==> !About(s.cpus[c], p)
  }

  /**
   A step of CPU c from s to t that changes at most slots p and k, and CPU c only if it
   deals with p; wait_lock changes hands only between c and nobody.
   */
  ghost predicate Two(s: State, t: State, c: nat, p: nat, k: nat) {
    && p < |s.procs| == |t.procs| && k < |s.procs| && c < |s.cpus| == |t.cpus|
    && (forall q :: 0 <= q < |s.procs| && q != p && q != k ==> t.procs[q] == s.procs[q])
    && (forall d :: 0 <= d < |s.cpus| && d != c ==> t.cpus[d] == s.cpus[d])
    && (t.cpus[c] == s.cpus[c] ||
        ((s.cpus[c].Idle? || About(s.cpus[c], p)) && (t.cpus[c].Idle? || About(t.cpus[c], p))))
    && (t.waitLock == s.waitLock || (s.waitLock.None? && t.waitLock == Some(c)) ||
        (s.waitLock == Some(c) && t.waitLock.None? && s.cpus[c] == InProc(p)))
  }

  lemma KeepCpus(s: State, t: State, c: nat, p: nat, k: nat)
    requires Cpus(s) && Two(s, t, c, p, k) && CpuOk(t, c)
    requires forall d: nat :: d < |s.cpus| && d != c && (About(s.cpus[d], p) || About(s.cpus[d], k)) ==> CpuOk(t, d)
    requires s.cpus[c].Idle? && !t.cpus[c].Idle? ==> Quiet(s, p)
    ensures Cpus(t)
  {
    forall d: nat | d < |t.cpus| ensures CpuOk(t, d) {
      assert CpuOk(s, d);
    }
  }

  lemma KeepProcs(s: State, t: State, c: nat, p: nat, k: nat)
    requires Procs(s) && Two(s, t, c, p, k) && ProcOk(t, p) && ProcOk(t, k)
    ensures Procs(t)
  {
    forall q: nat | q < |t.procs| ensures ProcOk(t, q) {
      assert ProcOk(s, q);
    }
  }

  /** A USED slot that p is not forking keeps what its forker relies on. */
  predicate SlotKept(s: State, t: State, p: nat, z: nat)
    requires p < |s.procs| == |t.procs| && z < |s.procs|
  {
    s.procs[z].state.USED? && ForkOf(s.procs[p].pc) != Some(z) ==>
      t.procs[z].state.USED? && t.procs[z].parent == s.procs[z].parent && t.procs[z].lock == s.procs[z].lock
  }

  lemma KeepForks(s: State, t: State, c: nat, p: nat, k: nat)
    requires Forks(s) && Two(s, t, c, p, k) && ForkOk(t, p) && ForkOk(t, k)
    requires k != p ==> ForkOf(t.procs[k].pc) == ForkOf(s.procs[k].pc)
    requires SlotKept(s, t, p, p) && SlotKept(s, t, p, k)
    requires var f := ForkOf(t.procs[p].pc);
             f.Some? ==> f == ForkOf(s.procs[p].pc) || (f.value < |s.procs| && !s.procs[f.value].state.USED?)
    ensures Forks(t)
  {
    forall q: nat | q < |t.procs| ensures ForkOk(t, q) {
      assert ForkOk(s, q) && ForkOk(s, p);
    }
    forall q, r | 0 <= q < r < |t.procs| && ForkOf(t.procs[q].pc).Some?
      ensures ForkOf(t.procs[q].pc) != ForkOf(t.procs[r].pc)
    {
      assert ForkOk(s, q) && ForkOk(s, r);
    }
  }

  /** Slots p and k gain no child that is on its way out, and lose life only without children. */
  ghost predicate FamilyKept(s: State, t: State, z: nat)
    requires z < |s.procs| == |t.procs|
  {
    && (Alive(s.procs[z].state) ==> Alive(t.procs[z].state) || ChildlessBelow(t, z, |t.procs|))
    && (t.procs[z].parent.Some? && t.procs[z].parent != s.procs[z].parent ==>
          t.procs[z].parent.value < |s.procs| && !Exiting(s.procs[t.procs[z].parent.value].pc))
  }

  lemma KeepParents(s: State, t: State, c: nat, p: nat, k: nat)
    requires Parents(s) && Two(s, t, c, p, k) && ParentOk(t, p) && ParentOk(t, k)
    requires FamilyKept(s, t, p) && FamilyKept(s, t, k)
    requires forall z: nat :: (z == p || z == k) && s.procs[z].pc.ForkDone? ==>
               t.procs[z].pc == s.procs[z].pc || s.procs[z].pc.np == p || s.procs[z].pc.np == k
    requires Alive(t.procs[INIT].state) && !Exiting(t.procs[INIT].pc) && t.procs[INIT].parent.None?
    ensures Parents(t)
  {
    forall q: nat | q < |t.procs| ensures ParentOk(t, q) {
      assert ParentOk(s, q);
    }
  }

  /** Slot z becomes no zombie child of q. */
  predicate NoNewZombie(s: State, t: State, q: nat, z: nat)
    requires z < |s.procs| == |t.procs|
  {
    t.procs[z].parent == Some(q) && t.procs[z].state.ZOMBIE? ==>
      s.procs[z].parent == Some(q) && s.procs[z].state.ZOMBIE?
  }

  lemma KeepWaits(s: State, t: State, c: nat, p: nat, k: nat)
    requires Inv(s) && Two(s, t, c, p, k) && WaitOk(t, p) && WaitOk(t, k)
    requires forall q: nat ::
               q < |s.procs| && q != p && q != k && (Committed(s.procs[q]) || HoldsWait(s.procs[q].pc)) ==>
                 (NoNewZombie(s, t, q, p) && NoNewZombie(s, t, q, k))
                 || (q == INIT && InitWakeDue(t) && Committed(s.procs[q]))
    requires InitWakeDue(s) ==> InitWakeDue(t) || !Committed(t.procs[INIT]) || NoZombieBelow(t, INIT, |t.procs|)
    requires forall z: nat :: z == p || z == k ==>
               (Committed(t.procs[z]) ==> Committed(s.procs[z]) || OwnedBy(s, s.waitLock, p))
    ensures Waits(t)
  {
    hide InitWakeDue, NoZombieBelow;
    forall q: nat | q < |t.procs| ensures WaitOk(t, q) {
      if q != p && q != k {
        OkAt(s, q);
        StillNoZombie(s, t, c, q, p, k);
      }
    }
  }

  lemma StillNoZombie(s: State, t: State, c: nat, q: nat, p: nat, k: nat)
    requires Two(s, t, c, p, k) && q < |s.procs|
    ensures NoNewZombie(s, t, q, p) && NoNewZombie(s, t, q, k) ==>
              forall n: nat :: NoZombieBelow(s, q, n) ==> NoZombieBelow(t, q, n)
  {
  }

  /** What the step must leave in order at slot z. */
  ghost predicate SlotOk(t: State, z: nat)
    requires z < |t.procs|
  {
    ProcOk(t, z) && ForkOk(t, z) && ParentOk(t, z) && WaitOk(t, z)
  }

  /** Nobody but p holds wait_lock when p does, and nobody does when it is free. */
  lemma Acting(s: State, c: nat, p: nat)
    requires Inv(s) && c < |s.cpus| && s.cpus[c] == InProc(p)
    ensures p < |s.procs| && (s.procs[p].state.RUNNING? || s.procs[p].state.ZOMBIE?)
    ensures forall d :: 0 <= d < |s.cpus| && d != c ==> !About(s.cpus[d], p)
    ensures ProcOk(s, p) && ForkOk(s, p) && ParentOk(s, p) && WaitOk(s, p) && CpuOk(s, c)
    ensures forall q :: 0 <= q < |s.procs| && q != p && HoldsWait(s.procs[q].pc) ==>
              s.waitLock.Some? && s.waitLock != Some(c) && !HoldsWait(s.procs[p].pc)
  {
    assert CpuOk(s, c);
    OkAt(s, p);
    forall q: nat | q < |s.procs| && q != p && HoldsWait(s.procs[q].pc)
      ensures s.waitLock.Some? && s.waitLock != Some(c) && !HoldsWait(s.procs[p].pc)
    {
      OkAt(s, q);
    }
  }

  /** A step of p's own thread that touches only p's slot and keeps its parent. */
  lemma OwnStep(s: State, t: State, c: nat, p: nat)
    requires Inv(s) && c < |s.cpus| && s.cpus[c] == InProc(p) && Two(s, t, c, p, p)
    requires SlotOk(t, p) && CpuOk(t, c)
    requires t.procs[p].parent == s.procs[p].parent && !s.procs[p].state.USED?
    requires Alive(s.procs[p].state) ==> Alive(t.procs[p].state)
    requires ForkOf(t.procs[p].pc).Some? ==> ForkOf(t.procs[p].pc) == ForkOf(s.procs[p].pc)
    requires s.procs[p].pc.ForkDone? ==> t.procs[p].pc == s.procs[p].pc
    requires p == INIT ==> !Exiting(t.procs[p].pc)
    requires t.procs[p].state.ZOMBIE? ==> s.procs[p].state.ZOMBIE?
    requires Committed(t.procs[p]) ==> Committed(s.procs[p]) || OwnedBy(s, s.waitLock, p)
    requires InitWakeDue(s) ==> InitWakeDue(t) || !Committed(t.procs[INIT])
    ensures Inv(t)
  {
    Acting(s, c, p);
    KeepCpus(s, t, c, p, p);
    KeepProcs(s, t, c, p, p);
    KeepForks(s, t, c, p, p);
    KeepParents(s, t, c, p, p);
    KeepWaits(s, t, c, p, p);
  }

  /** Points where ParentOk and WaitOk ask nothing of the program counter. */
  predicate Plain(pc: Pc) {
    pc.Anywhere? || ForkOf(pc).Some? || pc.WaitRetry? || pc.OtherAsleep? || pc.ExitDead? || pc.ExitSched?
    || pc.ExitGone?
  }

  lemma PlainSlot(s: State, t: State, p: nat)
    requires p < |s.procs| == |t.procs| && ParentOk(s, p) && Plain(t.procs[p].pc)
    requires t.procs[p].parent == s.procs[p].parent
    requires Alive(s.procs[p].state) || s.procs[p].state.ZOMBIE? <==>
             Alive(t.procs[p].state) || t.procs[p].state.ZOMBIE?
    requires s.procs[p].state.UNUSED? <==> t.procs[p].state.UNUSED?
    requires forall q :: 0 <= q < |s.procs| && Alive(s.procs[q].state) ==> Alive(t.procs[q].state)
    requires !t.procs[p].state.USED?
    ensures ParentOk(t, p) && WaitOk(t, p)
  {
  }

  /** wakeup(initproc) is due in t if it was in s and the step did not touch its caller. */
  lemma DueKept(s: State, t: State, c: nat, p: nat, k: nat)
    requires Two(s, t, c, p, k) && t.waitLock == s.waitLock && t.cpus == s.cpus
    requires !s.procs[p].pc.ExitInitWake? && (k == p || t.procs[k].pc == s.procs[k].pc)
    ensures InitWakeDue(s) ==> InitWakeDue(t)
  {
  }

  /** A wakeup(initproc) by another CPU is still due when CPU c switches from p. */
  lemma DueKeptSwitch(s: State, t: State, c: nat, p: nat)
    requires Two(s, t, c, p, p) && t.waitLock == s.waitLock && !s.procs[p].pc.ExitInitWake?
    requires s.cpus[c].Idle? || About(s.cpus[c], p)
    ensures InitWakeDue(s) ==> InitWakeDue(t)
  {
  }

  /** p returns from sched() and releases p->lock. */
  lemma ResumeKeeps(s: State, c: nat, p: nat)
    requires Inv(s) && c < |s.cpus| && s.cpus[c] == InProc(p) && p < |s.procs| && s.procs[p].inSched
    ensures Inv(Upd(s, p, Resumed(s.procs[p])))
  {
    hide Inv, Cpus, Procs, Forks, Parents, Waits, ParentOk, WaitOk, InitWakeDue, SlotOk;
    var t := Upd(s, p, Resumed(s.procs[p]));
    ResumedSlot(s, c, p);
    DueKept(s, t, c, p, p);
    OwnStep(s, t, c, p);
  }

  lemma ResumedSlot(s: State, c: nat, p: nat)
    requires Inv(s) && c < |s.cpus| && s.cpus[c] == InProc(p) && p < |s.procs| && s.procs[p].inSched
    ensures var t := Upd(s, p, Resumed(s.procs[p]));
            && SlotOk(t, p) && CpuOk(t, c) && !Committed(t.procs[p])
            && s.procs[p].state.RUNNING? && !Exiting(s.procs[p].pc)
  {
    hide Inv, Cpus, Procs, Forks, Parents, Waits, ParentOk, WaitOk, InitWakeDue;
    Acting(s, c, p);
    PlainSlot(s, Upd(s, p, Resumed(s.procs[p])), p);
  }

  // ------------------------------------------------------------------
  // Switching away

  /** sleep on another channel, and yield. */
  lemma SwitchKeeps(s: State, c: nat, p: nat, y: Proc)
    requires Inv(s) && c < |s.cpus| && s.cpus[c] == InProc(p) && p < |s.procs| && !s.procs[p].inSched
    requires FreeLock(s, p) && Preemptible(s.procs[p].pc)
    requires || y == s.procs[p].(state := RUNNABLE)
             || (s.procs[p].pc.Anywhere? && y.chan.OtherChan? &&
                 y == s.procs[p].(state := SLEEPING, chan := y.chan, pc := OtherAsleep))
    ensures Inv(Switch(s, c, p, y))
  {
    hide Inv, Cpus, Procs, Forks, Parents, Waits, ParentOk, WaitOk, InitWakeDue;
    var t := Switch(s, c, p, y);
    Acting(s, c, p);
    PlainSlot(s, t, p);
    DueKeptSwitch(s, t, c, p);
    OwnStep(s, t, c, p);
  }

  /** wait's sleep: chan and state are set with p->lock held, then the CPU switches. */
  lemma WaitSwitchKeeps(s: State, c: nat, p: nat)
    requires Inv(s) && c < |s.cpus| && s.cpus[c] == InProc(p) && p < |s.procs| && !s.procs[p].inSched
    requires s.procs[p].pc.WaitCommitted?
    ensures Inv(Switch(s, c, p, s.procs[p].(pc := WaitAsleep, chan := ProcChan(p), state := SLEEPING)))
  {
    hide Inv, Cpus, Procs, Forks, Parents, Waits, InitWakeDue;
    var t := Switch(s, c, p, s.procs[p].(pc := WaitAsleep, chan := ProcChan(p), state := SLEEPING));
    Acting(s, c, p);
    DueKeptSwitch(s, t, c, p);
    assert SlotOk(t, p);
    OwnStep(s, t, c, p);
  }

  /** exit's sched(). */
  lemma ExitSwitchKeeps(s: State, c: nat, p: nat)
    requires Inv(s) && c < |s.cpus| && s.cpus[c] == InProc(p) && p < |s.procs| && s.procs[p].pc.ExitSched?
    ensures Inv(Switch(s, c, p, s.procs[p].(pc := ExitGone)))
  {
    hide Inv, Cpus, Procs, Forks, Parents, Waits, ParentOk, WaitOk, InitWakeDue;
    var t := Switch(s, c, p, s.procs[p].(pc := ExitGone));
    InitAt(s);
    Acting(s, c, p);
    PlainSlot(s, t, p);
    DueKeptSwitch(s, t, c, p);
    OwnStep(s, t, c, p);
  }

  /** The scheduler releases p->lock after p switched back to it. */
  lemma ReleaseKeeps(s: State, c: nat)
    requires Inv(s) && c < |s.cpus| && INIT < |s.procs| && Next(s, c, Release).Some?
    ensures Inv(Next(s, c, Release).value)
  {
    hide Procs, Forks, Parents, Waits, InitWakeDue;
    var t, p := Next(s, c, Release).value, s.cpus[c].p;
    OkAt(s, p);
    CpuAt(s, c);
    InitAt(s);
    DueKeptSwitch(s, t, c, p);
    assert SlotOk(t, p);
    KeepCpus(s, t, c, p, p);
    KeepProcs(s, t, c, p, p);
    KeepForks(s, t, c, p, p);
    KeepParents(s, t, c, p, p);
    KeepWaits(s, t, c, p, p);
  }

  /** A runnable process whose lock is free is on no CPU. */
  lemma FreeIsQuiet(s: State, p: nat)
    requires Inv(s) && FreeLock(s, p) && !s.procs[p].state.RUNNING?
    ensures Quiet(s, p)
  {
    forall c | 0 <= c < |s.cpus| ensures !About(s.cpus[c], p) {
      CpuAt(s, c);
      OkAt(s, p);
    }
  }

  lemma DispatchKeeps(s: State, c: nat, p: nat)
    requires Inv(s) && c < |s.cpus| && INIT < |s.procs| && Next(s, c, Dispatch(p)).Some?
    ensures Inv(Next(s, c, Dispatch(p)).value)
  {
    hide Procs, Forks, Parents, Waits, InitWakeDue;
    var t := Next(s, c, Dispatch(p)).value;
    OkAt(s, p);
    FreeIsQuiet(s, p);
    InitAt(s);
    DueKeptSwitch(s, t, c, p);
    assert SlotOk(t, p);
    KeepCpus(s, t, c, p, p);
    KeepProcs(s, t, c, p, p);
    KeepForks(s, t, c, p, p);
    KeepParents(s, t, c, p, p);
    KeepWaits(s, t, c, p, p);
  }

  // ------------------------------------------------------------------
  // Steps that move one program counter, and perhaps take or drop wait_lock

  lemma PcStep(s: State, c: nat, p: nat, pc: Pc, w: Option<nat>)
    requires Inv(s) && c < |s.cpus| && s.cpus[c] == InProc(p) && p < |s.procs| && !s.procs[p].inSched
    requires w == s.waitLock || (s.waitLock.None? && w == Some(c)) || (s.waitLock == Some(c) && w.None?)
    requires var t := At(s, p, pc).(waitLock := w); SlotOk(t, p)
    requires ForkOf(pc).None? && (p == INIT ==> !Exiting(pc)) && !s.procs[p].pc.ForkDone?
    requires pc.WaitCommitted? ==> OwnedBy(s, s.waitLock, p)
    requires s.procs[p].pc.ExitInitWake? ==> s.procs[p].pc.k > INIT
    ensures Inv(At(s, p, pc).(waitLock := w))
  {
    hide Inv, Cpus, Procs, Forks, Parents, Waits, SlotOk, ParentOk, WaitOk;
    Acting(s, c, p);
    OwnStep(s, At(s, p, pc).(waitLock := w), c, p);
  }

  /** exit's steps that only move its program counter. */
  lemma ExitPcKeeps(s: State, c: nat, p: nat, pc: Pc, w: Option<nat>)
    requires Inv(s) && c < |s.cpus| && s.cpus[c] == InProc(p) && p < |s.procs| && !s.procs[p].inSched
    requires var x, n := s.procs[p].pc, |s.procs|;
             || (x.Anywhere? && p != INIT && s.waitLock.None? && pc.ExitReparent? && pc.i == 0 && w == Some(c))
             || (x.ExitReparent? && x.i >= n && pc.ExitWake? && pc.k == 0 && w == s.waitLock)
             || (x.ExitReparent? && x.i < n && s.procs[x.i].parent != Some(p) &&
                 pc.ExitReparent? && pc.i == x.i + 1 && w == s.waitLock)
             || (x.ExitInitWake? && x.k >= n && pc.ExitReparent? && pc.i == x.i + 1 && w == s.waitLock)
             || (x.ExitInitWake? && x.k == p && pc.ExitInitWake? && pc.i == x.i && pc.k == x.k + 1 && w == s.waitLock)
             || (x.ExitWake? && x.k >= n && pc.ExitLock? && w == s.waitLock)
             || (x.ExitWake? && x.k == p && pc.ExitWake? && pc.k == x.k + 1 && w == s.waitLock)
             || (x.ExitDead? && pc.ExitSched? && w.None?)
    ensures Inv(At(s, p, pc).(waitLock := w))
  {
    hide Inv, Cpus, Procs, Forks, Parents, Waits, InitWakeDue;
    var t := At(s, p, pc).(waitLock := w);
    InitAt(s);
    Acting(s, c, p);
    assert ProcOk(t, p);
    assert ParentOk(t, p);
    assert WaitOk(t, p);
    PcStep(s, c, p, pc, w);
  }

  /** wait's steps that only move its program counter. */
  lemma WaitPcKeeps(s: State, c: nat, p: nat, pc: Pc, w: Option<nat>)
    requires Inv(s) && c < |s.cpus| && s.cpus[c] == InProc(p) && p < |s.procs| && !s.procs[p].inSched
    requires var x, n := s.procs[p].pc, |s.procs|;
             || ((x.Anywhere? || x.WaitRetry?) && s.waitLock.None? && pc.WaitScan? && pc.i == 0 && w == Some(c))
             || (x.WaitScan? && x.i >= n && pc.WaitCheck? && w == s.waitLock)
             || (x.WaitScan? && x.i < n && pc.WaitScan? && pc.i == x.i + 1 && w == s.waitLock &&
                 (s.procs[x.i].parent == Some(p) ==> !s.procs[x.i].state.ZOMBIE?))
             || ((x.WaitScan? || x.WaitCheck?) && pc.Anywhere? && w.None?)
             || (x.WaitCheck? && pc.WaitSleep? && w == s.waitLock)
             || (x.WaitLocked? && pc.WaitCommitted? && w.None?)
    ensures Inv(At(s, p, pc).(waitLock := w))
  {
    hide Inv, Cpus, Procs, Forks, Parents, Waits, InitWakeDue;
    var t := At(s, p, pc).(waitLock := w);
    Acting(s, c, p);
    assert ProcOk(t, p);
    assert ParentOk(t, p);
    assert WaitOk(t, p);
    PcStep(s, c, p, pc, w);
  }

  /** sleep acquires p->lock while wait_lock is still held. */
  lemma WaitLockKeeps(s: State, c: nat, p: nat)
    requires Inv(s) && c < |s.cpus| && s.cpus[c] == InProc(p) && FreeLock(s, p)
    requires !s.procs[p].inSched && s.procs[p].pc.WaitSleep?
    ensures Inv(Upd(s, p, s.procs[p].(lock := Some(c), pc := WaitLocked)))
  {
    hide Inv, Cpus, Procs, Forks, Parents, Waits;
    var t := Upd(s, p, s.procs[p].(lock := Some(c), pc := WaitLocked));
    Acting(s, c, p);
    assert SlotOk(t, p);
    OwnStep(s, t, c, p);
  }

  // ------------------------------------------------------------------
  // Steps of p's thread that also change another slot k

  lemma PairStep(s: State, t: State, c: nat, p: nat, k: nat)
    requires Inv(s) && c < |s.cpus| && s.cpus[c] == InProc(p) && k != p
    requires Two(s, t, c, p, k) && t.cpus == s.cpus && CpuOk(t, c) && SlotOk(t, p) && SlotOk(t, k)
    requires Quiet(s, k) ||
             (t.procs[k].state == s.procs[k].state && t.procs[k].inSched == s.procs[k].inSched
             && t.procs[k].lock == s.procs[k].lock)
    requires t.procs[k].pc == s.procs[k].pc
             || (Plain(s.procs[k].pc) && ForkOf(s.procs[k].pc).None? && t.procs[k].pc.Anywhere?)
    requires !s.procs[p].state.USED? && SlotKept(s, t, p, k)
    requires var f := ForkOf(t.procs[p].pc);
             f.Some? ==> f == ForkOf(s.procs[p].pc) || (f.value < |s.procs| && !s.procs[f.value].state.USED?)
    requires t.procs[p].state == s.procs[p].state && t.procs[p].parent == s.procs[p].parent
    requires s.procs[p].pc.ForkDone? ==> t.procs[p].pc == s.procs[p].pc || s.procs[p].pc.np == k
    requires FamilyKept(s, t, k)
    requires Alive(t.procs[INIT].state) && !Exiting(t.procs[INIT].pc) && t.procs[INIT].parent.None?
    requires forall q: nat ::
               q < |s.procs| && q != p && q != k && (Committed(s.procs[q]) || HoldsWait(s.procs[q].pc)) ==>
                 NoNewZombie(s, t, q, k) || (q == INIT && InitWakeDue(t) && Committed(s.procs[q]))
    requires InitWakeDue(s) ==> InitWakeDue(t) || !Committed(t.procs[INIT])
    requires !Committed(t.procs[p]) && (Committed(t.procs[k]) ==> Committed(s.procs[k]))
    ensures Inv(t)
  {
    Acting(s, c, p);
    forall d: nat | d < |s.cpus| && d != c && About(s.cpus[d], k) ensures CpuOk(t, d) {
      CpuAt(s, d);
    }
    KeepCpus(s, t, c, p, k);
    KeepProcs(s, t, c, p, k);
    KeepForks(s, t, c, p, k);
    KeepParents(s, t, c, p, k);
    KeepWaits(s, t, c, p, k);
  }

  lemma WokenOk(s: State, k: nat, ch: Chan)
    requires Inv(s) && FreeLock(s, k)
    ensures Quiet(s, k) || Woken(s.procs[k], ch) == s.procs[k]
    ensures ch == ProcChan(k) ==> !Committed(Woken(s.procs[k], ch))
  {
    OkAt(s, k);
    if s.procs[k].state.SLEEPING? {
      FreeIsQuiet(s, k);
    }
  }

  /** The state after one round of a wakeup loop in exit. */
  function WakeRound(s: State, p: nat, k: nat, ch: Chan, pc: Pc): State
    requires p < |s.procs| && k < |s.procs|
  {
    At(Upd(s, k, Woken(s.procs[k], ch)), p, pc)
  }

  lemma WokenSlot(s: State, p: nat, k: nat, ch: Chan, pc: Pc)
    requires Inv(s) && p < |s.procs| && k != p && FreeLock(s, k)
    requires HoldsWait(s.procs[p].pc) && HoldsWait(pc) && ch.ProcChan?
    requires var t := WakeRound(s, p, k, ch, pc);
             Committed(t.procs[k]) && k == INIT && InitWakeDue(s) ==> InitWakeDue(t)
    ensures SlotOk(WakeRound(s, p, k, ch, pc), k)
  {
    hide Inv, Cpus, Procs, Forks, Parents, Waits, InitWakeDue;
    var t := WakeRound(s, p, k, ch, pc);
    OkAt(s, k);
    OkAt(s, p);
    assert ProcOk(t, k);
    assert ParentOk(t, k);
    assert WaitOk(t, k);
  }

  /** One slot of exit's wakeup(p->parent). */
  lemma ExitWakeKeeps(s: State, c: nat, p: nat, k: nat)
    requires Inv(s) && c < |s.cpus| && s.cpus[c] == InProc(p) && p < |s.procs| && k != p && FreeLock(s, k)
    requires s.procs[p].pc.ExitWake? && s.procs[p].pc.k == k && s.procs[p].parent.Some?
    ensures Inv(WakeRound(s, p, k, ProcChan(s.procs[p].parent.value), ExitWake(s.procs[p].pc.status, k + 1)))
  {
    hide Inv, Cpus, Procs, Forks, Parents, Waits, InitWakeDue, ProcOk, ForkOk, ParentOk, WaitOk, SlotOk;
    var ch, pc := ProcChan(s.procs[p].parent.value), ExitWake(s.procs[p].pc.status, k + 1);
    var t := WakeRound(s, p, k, ch, pc);
    InitAt(s);
    Acting(s, c, p);
    WokenOk(s, k, ch);
    DueKept(s, t, c, p, k);
    WokenSlot(s, p, k, ch, pc);
    ExitWakeSelf(s, c, p, k);
    PairStep(s, t, c, p, k);
  }

  lemma ExitWakeSelf(s: State, c: nat, p: nat, k: nat)
    requires Inv(s) && c < |s.cpus| && s.cpus[c] == InProc(p) && p < |s.procs| && k != p && FreeLock(s, k)
    requires s.procs[p].pc.ExitWake? && s.procs[p].pc.k == k && s.procs[p].parent.Some?
    ensures var t := WakeRound(s, p, k, ProcChan(s.procs[p].parent.value), ExitWake(s.procs[p].pc.status, k + 1));
            SlotOk(t, p) && CpuOk(t, c)
  {
    hide Inv, Cpus, Procs, Forks, Parents, Waits, InitWakeDue;
    Acting(s, c, p);
    OkAt(s, k);
  }

  /** One slot of exit's wakeup(initproc). */
  lemma InitWakeKeeps(s: State, c: nat, p: nat, k: nat)
    requires Inv(s) && c < |s.cpus| && s.cpus[c] == InProc(p) && p < |s.procs| && k != p && FreeLock(s, k)
    requires s.procs[p].pc.ExitInitWake? && s.procs[p].pc.k == k
    ensures Inv(WakeRound(s, p, k, ProcChan(INIT), ExitInitWake(s.procs[p].pc.status, s.procs[p].pc.i, k + 1)))
  {
    hide Inv, Cpus, Procs, Forks, Parents, Waits, ProcOk, ForkOk, ParentOk, WaitOk, SlotOk;
    var ch, pc := ProcChan(INIT), ExitInitWake(s.procs[p].pc.status, s.procs[p].pc.i, k + 1);
    var t := WakeRound(s, p, k, ch, pc);
    InitAt(s);
    Acting(s, c, p);
    WokenOk(s, k, ch);
    InitWakeSelf(s, c, p, k);
    WokenSlot(s, p, k, ch, pc);
    PairStep(s, t, c, p, k);
  }

  lemma InitWakeSelf(s: State, c: nat, p: nat, k: nat)
    requires Inv(s) && c < |s.cpus| && s.cpus[c] == InProc(p) && p < |s.procs| && k != p && FreeLock(s, k)
    requires s.procs[p].pc.ExitInitWake? && s.procs[p].pc.k == k
    ensures var t := WakeRound(s, p, k, ProcChan(INIT), ExitInitWake(s.procs[p].pc.status, s.procs[p].pc.i, k + 1));
            && SlotOk(t, p) && CpuOk(t, c)
            && (InitWakeDue(s) ==> !Committed(t.procs[INIT]))
  {
    hide Inv, Cpus, Procs, Forks, Parents, Waits;
    Acting(s, c, p);
    OkAt(s, k);
    WokenOk(s, k, ProcChan(INIT));
  }

  function Reparented(s: State, p: nat, i: nat): State
    requires p < |s.procs| && i < |s.procs| && s.procs[p].pc.ExitReparent?
  {
    At(Upd(s, i, s.procs[i].(parent := Some(INIT))), p, ExitInitWake(s.procs[p].pc.status, i, 0))
  }

  lemma ReparentSlots(s: State, c: nat, p: nat, i: nat)
    requires Inv(s) && c < |s.cpus| && s.cpus[c] == InProc(p) && p < |s.procs| && i < |s.procs|
    requires s.procs[p].pc.ExitReparent? && s.procs[p].pc.i == i && s.procs[i].parent == Some(p)
    ensures i != p && i != INIT && SlotOk(Reparented(s, p, i), p) && SlotOk(Reparented(s, p, i), i)
    ensures !s.procs[i].state.USED?
  {
    hide Inv, Cpus, Procs, Forks, Parents, Waits, InitWakeDue;
    InitAt(s);
    Acting(s, c, p);
    OkAt(s, i);
  }

  /** reparent hands a child, perhaps a zombie, to init; the wakeup is then due. */
  lemma ReparentKeeps(s: State, c: nat, p: nat, i: nat)
    requires Inv(s) && c < |s.cpus| && s.cpus[c] == InProc(p) && p < |s.procs| && i < |s.procs|
    requires s.procs[p].pc.ExitReparent? && s.procs[p].pc.i == i && s.procs[i].parent == Some(p)
    ensures Inv(Reparented(s, p, i))
  {
    hide Inv, Cpus, Procs, Forks, Parents, Waits, SlotOk, ProcOk, ForkOk, ParentOk, WaitOk;
    InitAt(s);
    Acting(s, c, p);
    assert s.procs[p].state.RUNNING? && OwnedBy(s, s.waitLock, p) by {
      RunsWith(s, c, p);
    }
    ReparentSlots(s, c, p, i);
    CpuSame(s, Reparented(s, p, i), c);
    PairStep(s, Reparented(s, p, i), c, p, i);
  }

  /** CPU c's view of p does not depend on parents and program counters. */
  lemma CpuSame(s: State, t: State, c: nat)
    requires c < |s.cpus| && CpuOk(s, c) && t.cpus == s.cpus && |t.procs| == |s.procs|
    requires forall q :: 0 <= q < |s.procs| ==>
               t.procs[q].state == s.procs[q].state && t.procs[q].inSched == s.procs[q].inSched
               && t.procs[q].lock == s.procs[q].lock
    ensures CpuOk(t, c)
  {
  }

  lemma RunsWith(s: State, c: nat, p: nat)
    requires Inv(s) && c < |s.cpus| && s.cpus[c] == InProc(p) && p < |s.procs| && HoldsWait(s.procs[p].pc)
             && !s.procs[p].pc.ExitDead?
    ensures s.procs[p].state.RUNNING? && OwnedBy(s, s.waitLock, p) && !s.procs[p].inSched
  {
    OkAt(s, p);
    CpuAt(s, c);
  }

  /** The process becomes a zombie: its parent is not asleep, and it has no children. */
  lemma ExitLockKeeps(s: State, c: nat, p: nat)
    requires Inv(s) && c < |s.cpus| && s.cpus[c] == InProc(p) && FreeLock(s, p)
    requires s.procs[p].pc.ExitLock? && !s.procs[p].inSched
    ensures Inv(Upd(s, p,
            s.procs[p].(lock := Some(c), xstate := s.procs[p].pc.status, state := ZOMBIE, pc := ExitDead)))
  {
    hide Procs, Forks, Parents, Waits;
    var t := Upd(s, p, s.procs[p].(lock := Some(c), xstate := s.procs[p].pc.status, state := ZOMBIE, pc := ExitDead));
    InitAt(s);
    Acting(s, c, p);
    assert SlotOk(t, p);
    assert ChildlessBelow(t, p, |t.procs|);
    KeepCpus(s, t, c, p, p);
    KeepProcs(s, t, c, p, p);
    KeepForks(s, t, c, p, p);
    KeepParents(s, t, c, p, p);
    KeepWaits(s, t, c, p, p);
  }

  /** wait frees a zombie child, which no CPU is using. */
  lemma ReapKeeps(s: State, c: nat, p: nat, i: nat)
    requires Inv(s) && c < |s.cpus| && s.cpus[c] == InProc(p) && p < |s.procs| && FreeLock(s, i)
    requires s.procs[p].pc.WaitScan? && s.procs[i].parent == Some(p) && s.procs[i].state.ZOMBIE? && !s.procs[p].inSched
    ensures Quiet(s, i)
    ensures Inv(At(Upd(s, i, FREED), p, Anywhere).(waitLock := None))
  {
    hide Inv, Cpus, Procs, Forks, Parents, Waits, Quiet;
    var t := At(Upd(s, i, FREED), p, Anywhere).(waitLock := None);
    InitAt(s);
    Acting(s, c, p);
    OkAt(s, i);
    FreeIsQuiet(s, i);
    assert SlotOk(t, p);
    assert SlotOk(t, i);
    PairStep(s, t, c, p, i);
  }

  // ------------------------------------------------------------------
  // fork

  lemma UsedIsQuiet(s: State, z: nat)
    requires Inv(s) && z < |s.procs| && s.procs[z].state.USED?
    ensures Quiet(s, z)
  {
    forall c | 0 <= c < |s.cpus| ensures !About(s.cpus[c], z) {
      CpuAt(s, c);
    }
  }

  /** A step of fork: the new slot z becomes y and the forker moves to pc. */
  lemma ForkStep(s: State, c: nat, p: nat, z: nat, y: Proc, pc: Pc)
    requires Inv(s) && c < |s.cpus| && s.cpus[c] == InProc(p) && p < |s.procs| && z < |s.procs| && z != p
    requires !s.procs[p].inSched && s.procs[p].state.RUNNING?
    requires (s.procs[z].state.UNUSED? && FreeLock(s, z) && s.procs[p].pc.Anywhere?) || ForkOf(s.procs[p].pc) == Some(z)
    requires pc.Anywhere? || ForkOf(pc) == Some(z)
    requires y.pc.Anywhere? && (y.state.USED? || y.state.RUNNABLE? || y.state.UNUSED?)
    requires y.parent == s.procs[z].parent || y.parent == Some(p)
    requires var t := At(Upd(s, z, y), p, pc); SlotOk(t, p) && SlotOk(t, z)
    ensures Inv(At(Upd(s, z, y), p, pc))
  {
    hide Inv, Cpus, Procs, Forks, Parents, Waits, SlotOk, InitWakeDue, ParentOk, WaitOk;
    var t := At(Upd(s, z, y), p, pc);
    InitAt(s);
    Acting(s, c, p);
    OkAt(s, z);
    if s.procs[z].state.UNUSED? {
      FreeIsQuiet(s, z);
    } else {
      UsedIsQuiet(s, z);
    }
    DueKept(s, t, c, p, z);
    PairStep(s, t, c, p, z);
  }

  lemma ForkAllocKeeps(s: State, c: nat, p: nat, np: nat)
    requires Inv(s) && c < |s.cpus| && s.cpus[c] == InProc(p) && p < |s.procs| && !s.procs[p].inSched
    requires FreeLock(s, np) && s.procs[np].state.UNUSED? && s.procs[p].pc.Anywhere?
    ensures Inv(At(Upd(s, np, Proc(USED, NoChan, None, s.procs[np].killed, 0, s.nextpid, Some(c), Anywhere, true)), p,
            ForkHeld(np)))
  {
    hide Inv, Cpus, Procs, Forks, Parents, Waits, InitWakeDue;
    Acting(s, c, p);
    OkAt(s, np);
    ForkStep(s, c, p, np, Proc(USED, NoChan, None, s.procs[np].killed, 0, s.nextpid, Some(c), Anywhere, true),
      ForkHeld(np));
  }

  lemma ForkHeldKeeps(s: State, c: nat, p: nat, np: nat)
    requires Inv(s) && c < |s.cpus| && s.cpus[c] == InProc(p) && p < |s.procs| && !s.procs[p].inSched
    requires np < |s.procs| && s.procs[p].pc == ForkHeld(np)
    ensures Inv(At(Upd(s, np, FREED), p, Anywhere))
    ensures Inv(At(Upd(s, np, s.procs[np].(lock := None)), p, ForkMid(np)))
  {
    hide Inv, Cpus, Procs, Forks, Parents, Waits, InitWakeDue;
    Acting(s, c, p);
    OkAt(s, np);
    ForkStep(s, c, p, np, FREED, Anywhere);
    ForkStep(s, c, p, np, s.procs[np].(lock := None), ForkMid(np));
  }

  lemma ForkParentKeeps(s: State, c: nat, p: nat, np: nat)
    requires Inv(s) && c < |s.cpus| && s.cpus[c] == InProc(p) && p < |s.procs| && !s.procs[p].inSched
    requires np < |s.procs| && s.procs[p].pc == ForkMid(np)
    ensures Inv(At(Upd(s, np, s.procs[np].(parent := Some(p))), p, ForkDone(np)))
  {
    hide Inv, Cpus, Procs, Forks, Parents, Waits, InitWakeDue;
    Acting(s, c, p);
    OkAt(s, np);
    ForkStep(s, c, p, np, s.procs[np].(parent := Some(p)), ForkDone(np));
  }

  lemma ForkRunKeeps(s: State, c: nat, p: nat, np: nat)
    requires Inv(s) && c < |s.cpus| && s.cpus[c] == InProc(p) && p < |s.procs| && !s.procs[p].inSched
    requires FreeLock(s, np) && s.procs[p].pc == ForkDone(np)
    ensures Inv(At(Upd(s, np, s.procs[np].(state := RUNNABLE)), p, Anywhere))
  {
    hide Inv, Cpus, Procs, Forks, Parents, Waits, InitWakeDue;
    Acting(s, c, p);
    OkAt(s, np);
    ForkStep(s, c, p, np, s.procs[np].(state := RUNNABLE), Anywhere);
  }

  // ------------------------------------------------------------------
  // kill and wakeups from other parts of the kernel

  lemma NudgeKeeps(s: State, c: nat, k: nat, y: Proc)
    requires Inv(s) && c < |s.cpus| && FreeLock(s, k)
    requires var x := s.procs[k];
             y == x.(killed := y.killed, state := y.state) &&
             (y.state == x.state || (x.state.SLEEPING? && y.state.RUNNABLE?))
    ensures Inv(Upd(s, k, y))
  {
    hide Procs, Forks, Parents, Waits, InitWakeDue;
    var t := Upd(s, k, y);
    InitAt(s);
    OkAt(s, k);
    forall d: nat | d < |s.cpus| && About(s.cpus[d], k) ensures CpuOk(t, d) {
      CpuAt(s, d);
    }
    CpuAt(s, c);
    assert t.cpus == s.cpus;
    assert InitWakeDue(s) ==> InitWakeDue(t) by {
      NudgeDue(s, k, y);
    }
    assert SlotOk(t, k);
    KeepCpus(s, t, c, k, k);
    KeepProcs(s, t, c, k, k);
    KeepForks(s, t, c, k, k);
    KeepParents(s, t, c, k, k);
    KeepWaits(s, t, c, k, k);
  }

  lemma NudgeDue(s: State, k: nat, y: Proc)
    requires k < |s.procs| && y.pc == s.procs[k].pc
    ensures InitWakeDue(s) ==> InitWakeDue(Upd(s, k, y))
  {
  }

  lemma BooksKeepSlot(s: State, t: State, p: nat)
    requires t == s.(nextpid := t.nextpid, exited := t.exited, reaped := t.reaped) && p < |s.procs| && SlotOk(s, p)
    ensures ProcOk(t, p) && ForkOk(t, p) && ParentOk(t, p) && WaitOk(t, p)
  {
  }

  /** Bookkeeping fields do not matter to the invariant. */
  lemma BooksKeep(s: State, t: State)
    requires Inv(s) && t == s.(nextpid := t.nextpid, exited := t.exited, reaped := t.reaped)
    ensures Inv(t)
  {
    hide ProcOk, ForkOk, ParentOk, WaitOk;
    InitAt(s);
    forall p: nat | p < |t.procs| ensures ProcOk(t, p) && ForkOk(t, p) && ParentOk(t, p) && WaitOk(t, p) {
      OkAt(s, p);
      BooksKeepSlot(s, t, p);
    }
    forall c: nat | c < |t.cpus| ensures CpuOk(t, c) {
      CpuAt(s, c);
    }
  }

  // ------------------------------------------------------------------
  // Every step keeps the invariant

  lemma ExitKeeps(s: State, c: nat, p: nat)
    requires Inv(s) && c < |s.cpus| && s.cpus[c] == InProc(p) && p < |s.procs| && INIT < |s.procs|
             && !s.procs[p].inSched
    requires ExitNext(s, c, p).Some?
    ensures Inv(ExitNext(s, c, p).value)
  {
    hide Inv, Cpus, Procs, Forks, Parents, Waits, ForkOk, ParentOk, WaitOk, ProcOk, CpuOk;
    var x, n := s.procs[p], |s.procs|;
    InitAt(s);
    match x.pc
    case ExitReparent(st, i) =>
      if i >= n {
        ExitPcKeeps(s, c, p, ExitWake(st, 0), s.waitLock);
      } else if s.procs[i].parent == Some(p) {
        ReparentKeeps(s, c, p, i);
      } else {
        ExitPcKeeps(s, c, p, ExitReparent(st, i + 1), s.waitLock);
      }
    case ExitInitWake(st, i, k) =>
      if k >= n {
        ExitPcKeeps(s, c, p, ExitReparent(st, i + 1), s.waitLock);
      } else if k == p {
        ExitPcKeeps(s, c, p, ExitInitWake(st, i, k + 1), s.waitLock);
      } else {
        InitWakeKeeps(s, c, p, k);
      }
    case ExitWake(st, k) =>
      if k >= n {
        ExitPcKeeps(s, c, p, ExitLock(st), s.waitLock);
      } else if k == p {
        ExitPcKeeps(s, c, p, ExitWake(st, k + 1), s.waitLock);
      } else {
        ExiterHasParent(s, c, p);
        ExitWakeKeeps(s, c, p, k);
      }
    case ExitLock(st) =>
      ExitLockKeeps(s, c, p);
      BooksKeep(Upd(s, p, x.(lock := Some(c), xstate := st, state := ZOMBIE, pc := ExitDead)), ExitNext(s, c, p).value);
    case ExitDead => ExitPcKeeps(s, c, p, ExitSched, None);
    case ExitSched => ExitSwitchKeeps(s, c, p);
  }

  lemma ExiterHasParent(s: State, c: nat, p: nat)
    requires Inv(s) && c < |s.cpus| && s.cpus[c] == InProc(p) && p < |s.procs| && s.procs[p].pc.ExitWake?
    ensures s.procs[p].parent.Some?
  {
    InitAt(s);
    OkAt(s, p);
    CpuAt(s, c);
  }

  lemma WaitKeeps(s: State, c: nat, p: nat, copied: bool)
    requires Inv(s) && c < |s.cpus| && s.cpus[c] == InProc(p) && p < |s.procs| && !s.procs[p].inSched
    requires WaitNext(s, c, p, copied).Some?
    ensures Inv(WaitNext(s, c, p, copied).value)
  {
    hide Inv, Cpus, Procs, Forks, Parents, Waits, ForkOk, ParentOk, WaitOk, ProcOk, CpuOk;
    var x, n := s.procs[p], |s.procs|;
    match x.pc
    case WaitScan(i, have) =>
      if i >= n {
        if have {
          WaitPcKeeps(s, c, p, WaitCheck, s.waitLock);
        } else {
          WaitPcKeeps(s, c, p, Anywhere, None);
        }
      } else if s.procs[i].parent != Some(p) {
        WaitPcKeeps(s, c, p, WaitScan(i + 1, have), s.waitLock);
      } else if s.procs[i].state != ZOMBIE {
        WaitPcKeeps(s, c, p, WaitScan(i + 1, true), s.waitLock);
      } else if !copied {
        WaitPcKeeps(s, c, p, Anywhere, None);
      } else {
        ReapKeeps(s, c, p, i);
        BooksKeep(At(Upd(s, i, FREED), p, Anywhere).(waitLock := None), WaitNext(s, c, p, copied).value);
      }
    case WaitCheck =>
      if x.killed {
        WaitPcKeeps(s, c, p, Anywhere, None);
      } else {
        WaitPcKeeps(s, c, p, WaitSleep, s.waitLock);
      }
    case WaitSleep => WaitLockKeeps(s, c, p);
    case WaitLocked => WaitPcKeeps(s, c, p, WaitCommitted, None);
    case WaitCommitted => WaitSwitchKeeps(s, c, p);
    case WaitRetry => WaitPcKeeps(s, c, p, WaitScan(0, false), Some(c));
  }

  lemma ForkKeeps(s: State, c: nat, p: nat, l: Label)
    requires Inv(s) && c < |s.cpus| && s.cpus[c] == InProc(p) && p < |s.procs| && !s.procs[p].inSched
    requires ForkNext(s, c, p, l).Some?
    ensures Inv(ForkNext(s, c, p, l).value)
  {
    hide Inv, Cpus, Procs, Forks, Parents, Waits, ForkOk, ParentOk, WaitOk, ProcOk, CpuOk;
    match l
    case ForkAlloc(np) =>
      ForkAllocKeeps(s, c, p, np);
      var y := Proc(USED, NoChan, None, s.procs[np].killed, 0, s.nextpid, Some(c), Anywhere, true);
      BooksKeep(At(Upd(s, np, y), p, ForkHeld(np)), ForkNext(s, c, p, l).value);
    case ForkFail => ForkHeldKeeps(s, c, p, s.procs[p].pc.np);
    case ForkRelease => ForkHeldKeeps(s, c, p, s.procs[p].pc.np);
    case ForkParent => ForkParentKeeps(s, c, p, s.procs[p].pc.np);
    case ForkRun => ForkRunKeeps(s, c, p, s.procs[p].pc.np);
  }

  lemma ThreadKeeps(s: State, c: nat, p: nat, l: Label)
    requires Inv(s) && c < |s.cpus| && s.cpus[c] == InProc(p) && p < |s.procs| && INIT < |s.procs|
             && !s.procs[p].inSched
    requires ThreadNext(s, c, p, l).Some?
    ensures Inv(ThreadNext(s, c, p, l).value)
  {
    hide Inv, Cpus, Procs, Forks, Parents, Waits, ForkOk, ParentOk, WaitOk, ProcOk, CpuOk, ExitNext, WaitNext, ForkNext;
    match l
    case ExitBegin(st) => ExitPcKeeps(s, c, p, ExitReparent(st, 0), Some(c));
    case ExitStep => ExitKeeps(s, c, p);
    case WaitBegin => WaitPcKeeps(s, c, p, WaitScan(0, false), Some(c));
    case WaitStep(copied) => WaitKeeps(s, c, p, copied);
    case Sleep(ch) =>
      SwitchKeeps(s, c, p, s.procs[p].(state := SLEEPING, chan := OtherChan(ch), pc := OtherAsleep));
    case Yield => SwitchKeeps(s, c, p, s.procs[p].(state := RUNNABLE));
    case _ => ForkKeeps(s, c, p, l);
  }

  lemma StepKeeps(s: State, c: nat, l: Label)
    requires Inv(s) && c < |s.cpus| && INIT < |s.procs| && Next(s, c, l).Some?
    ensures Inv(Next(s, c, l).value)
  {
    hide Inv, Cpus, Procs, Forks, Parents, Waits, ForkOk, ParentOk, WaitOk, ProcOk, CpuOk, ThreadNext;
    match l
    case Kill(k) =>
      var x := s.procs[k].(killed := true);
      NudgeKeeps(s, c, k, if x.state.SLEEPING? then x.(state := RUNNABLE) else x);
    case WakeOther(k, ch) => NudgeKeeps(s, c, k, Woken(s.procs[k], OtherChan(ch)));
    case Dispatch(p) => DispatchKeeps(s, c, p);
    case Release => ReleaseKeeps(s, c);
    case _ =>
      var p := s.cpus[c].p;
      if s.procs[p].inSched {
        ResumeKeeps(s, c, p);
      } else {
        ThreadKeeps(s, c, p, l);
      }
  }

  // ------------------------------------------------------------------
  // Pids and exit statuses

  ghost predicate PidOk(s: State, p: nat)
    requires p < |s.procs|
  {
    var x := s.procs[p];
    !x.state.UNUSED? ==>
      && 0 < x.pid < s.nextpid
      && (x.state.ZOMBIE? ==> x.pid in s.exited && s.exited[x.pid] == x.xstate)
      && (!x.state.ZOMBIE? ==> x.pid !in s.exited)
  }

  ghost predicate IsReaped(s: State, pid: nat) {
    exists i :: 0 <= i < |s.reaped| && s.reaped[i].pid == pid
  }

  ghost predicate IsZombie(s: State, pid: nat) {
    exists p :: 0 <= p < |s.procs| && s.procs[p].state.ZOMBIE? && s.procs[p].pid == pid
  }

  /** Every exit so far is still a zombie or was returned by wait, once and with its status. */
  ghost predicate Accounts(s: State) {
    && (forall p :: 0 <= p < |s.procs| ==> PidOk(s, p))
    && (forall p, q :: 0 <= p < q < |s.procs| && !s.procs[p].state.UNUSED? && !s.procs[q].state.UNUSED? ==>
          s.procs[p].pid != s.procs[q].pid)
    && (forall pid :: pid in s.exited ==> pid < s.nextpid && (IsZombie(s, pid) || IsReaped(s, pid)))
    && (forall i :: 0 <= i < |s.reaped| ==>
       s.reaped[i].pid in s.exited && s.exited[s.reaped[i].pid] == s.reaped[i].status)
    && (forall i, j :: 0 <= i < j < |s.reaped| ==> s.reaped[i].pid != s.reaped[j].pid)
    && (forall p :: 0 <= p < |s.procs| && !s.procs[p].state.UNUSED? ==> !IsReaped(s, s.procs[p].pid))
  }

  /** No exit, no reaping and no new pid; at most a slot that was not a zombie is freed. */
  ghost predicate Uneventful(s: State, t: State) {
    && t.nextpid == s.nextpid && t.exited == s.exited && t.reaped == s.reaped && |t.procs| == |s.procs|
    && forall p :: 0 <= p < |s.procs| ==>
         var x, y := s.procs[p], t.procs[p];
         || (y.pid == x.pid && y.xstate == x.xstate && (y.state.UNUSED? <==> x.state.UNUSED?)
            && (y.state.ZOMBIE? <==> x.state.ZOMBIE?))
         || (!x.state.ZOMBIE? && y.state.UNUSED?)
  }

  lemma UneventfulKeeps(s: State, t: State)
    requires Accounts(s) && Uneventful(s, t)
    ensures Accounts(t)
  {
    forall p: nat | p < |t.procs| ensures PidOk(t, p) {
      assert PidOk(s, p);
    }
    forall pid | pid in t.exited ensures pid < t.nextpid && (IsZombie(t, pid) || IsReaped(t, pid)) {
      if IsZombie(s, pid) {
        var p :| 0 <= p < |s.procs| && s.procs[p].state.ZOMBIE? && s.procs[p].pid == pid;
        assert t.procs[p].state.ZOMBIE? && t.procs[p].pid == pid;
      } else {
        var i :| 0 <= i < |s.reaped| && s.reaped[i].pid == pid;
        assert t.reaped[i].pid == pid;
      }
    }
    forall p | 0 <= p < |t.procs| && !t.procs[p].state.UNUSED? ensures !IsReaped(t, t.procs[p].pid) {
      assert !IsReaped(s, s.procs[p].pid);
    }
  }

  lemma AllocAccounts(s: State, t: State, np: nat)
    requires Accounts(s) && np < |s.procs| == |t.procs| && s.procs[np].state.UNUSED?
    requires t.exited == s.exited && t.reaped == s.reaped && t.nextpid == s.nextpid + 1 && s.nextpid > 0
    requires t.procs[np].pid == s.nextpid && t.procs[np].state.USED?
    requires forall q :: 0 <= q < |s.procs| && q != np ==>
               t.procs[q].pid == s.procs[q].pid && t.procs[q].state == s.procs[q].state
               && t.procs[q].xstate == s.procs[q].xstate
    ensures Accounts(t)
  {
    forall p: nat | p < |t.procs| ensures PidOk(t, p) {
      assert PidOk(s, p);
    }
    forall p, q | 0 <= p < q < |t.procs| && !t.procs[p].state.UNUSED? && !t.procs[q].state.UNUSED?
      ensures t.procs[p].pid != t.procs[q].pid
    {
      assert PidOk(s, p) && PidOk(s, q);
    }
    forall pid | pid in t.exited ensures pid < t.nextpid && (IsZombie(t, pid) || IsReaped(t, pid)) {
      if IsZombie(s, pid) {
        var p :| 0 <= p < |s.procs| && s.procs[p].state.ZOMBIE? && s.procs[p].pid == pid;
        assert t.procs[p].state.ZOMBIE? && t.procs[p].pid == pid;
      } else {
        var i :| 0 <= i < |s.reaped| && s.reaped[i].pid == pid;
        assert t.reaped[i].pid == pid;
      }
    }
    forall p | 0 <= p < |t.procs| && !t.procs[p].state.UNUSED? ensures !IsReaped(t, t.procs[p].pid) {
      if p != np {
        assert !IsReaped(s, s.procs[p].pid);
      }
    }
  }

  lemma ExitAccounts(s: State, t: State, p: nat)
    requires Accounts(s) && p < |s.procs| == |t.procs| && Alive(s.procs[p].state)
    requires t.procs == s.procs[p := t.procs[p]] && t.nextpid == s.nextpid && t.reaped == s.reaped
    requires t.procs[p].state.ZOMBIE? && t.procs[p].pid == s.procs[p].pid
    requires t.exited == s.exited[s.procs[p].pid := t.procs[p].xstate]
    ensures Accounts(t)
  {
    assert PidOk(s, p);
    forall q: nat | q < |t.procs| ensures PidOk(t, q) {
      assert PidOk(s, q);
    }
    forall pid | pid in t.exited ensures pid < t.nextpid && (IsZombie(t, pid) || IsReaped(t, pid)) {
      if pid == s.procs[p].pid {
        assert t.procs[p].state.ZOMBIE? && t.procs[p].pid == pid;
      } else if IsZombie(s, pid) {
        var q :| 0 <= q < |s.procs| && s.procs[q].state.ZOMBIE? && s.procs[q].pid == pid;
        assert t.procs[q].state.ZOMBIE? && t.procs[q].pid == pid;
      } else {
        var i :| 0 <= i < |s.reaped| && s.reaped[i].pid == pid;
        assert t.reaped[i].pid == pid;
      }
    }
    forall q | 0 <= q < |t.procs| && !t.procs[q].state.UNUSED? ensures !IsReaped(t, t.procs[q].pid) {
      assert !IsReaped(s, s.procs[q].pid);
    }
  }

  lemma ReapAccounts(s: State, t: State, i: nat)
    requires Accounts(s) && i < |s.procs| == |t.procs| && s.procs[i].state.ZOMBIE? && t.procs[i].state.UNUSED?
    requires t.exited == s.exited && t.nextpid == s.nextpid
             && t.reaped == s.reaped + [Reap(s.procs[i].pid, s.procs[i].xstate)]
    requires forall q :: 0 <= q < |s.procs| && q != i ==>
               t.procs[q].pid == s.procs[q].pid && t.procs[q].state == s.procs[q].state
               && t.procs[q].xstate == s.procs[q].xstate
    ensures Accounts(t)
  {
    assert PidOk(s, i);
    assert !IsReaped(s, s.procs[i].pid);
    forall p: nat | p < |t.procs| ensures PidOk(t, p) {
      assert PidOk(s, p);
    }
    forall pid | pid in t.exited ensures pid < t.nextpid && (IsZombie(t, pid) || IsReaped(t, pid)) {
      if pid == s.procs[i].pid {
        assert t.reaped[|s.reaped|].pid == pid;
      } else if IsZombie(s, pid) {
        var p :| 0 <= p < |s.procs| && s.procs[p].state.ZOMBIE? && s.procs[p].pid == pid;
        assert t.procs[p].state.ZOMBIE? && t.procs[p].pid == pid;
      } else {
        var j :| 0 <= j < |s.reaped| && s.reaped[j].pid == pid;
        assert t.reaped[j].pid == pid;
      }
    }
    forall p | 0 <= p < |t.procs| && !t.procs[p].state.UNUSED? ensures !IsReaped(t, t.procs[p].pid) {
      assert !IsReaped(s, s.procs[p].pid);
    }
  }

  lemma ExitEvents(s: State, c: nat, p: nat)
    requires Inv(s) && Accounts(s) && c < |s.cpus| && s.cpus[c] == InProc(p) && p < |s.procs| && INIT < |s.procs|
    requires ExitNext(s, c, p).Some?
    ensures Accounts(ExitNext(s, c, p).value)
  {
    hide Inv, Accounts, ProcOk, CpuOk, ForkOk, ParentOk, WaitOk;
    var t := ExitNext(s, c, p).value;
    if s.procs[p].pc.ExitLock? {
      RunsWith(s, c, p);
      ExitAccounts(s, t, p);
    } else {
      assert Uneventful(s, t);
      UneventfulKeeps(s, t);
    }
  }

  lemma WaitEvents(s: State, c: nat, p: nat, copied: bool)
    requires Inv(s) && Accounts(s) && c < |s.cpus| && s.cpus[c] == InProc(p) && p < |s.procs|
    requires WaitNext(s, c, p, copied).Some?
    ensures Accounts(WaitNext(s, c, p, copied).value)
  {
    hide Inv, Accounts, ProcOk, CpuOk, ForkOk, ParentOk, WaitOk;
    var t := WaitNext(s, c, p, copied).value;
    if s.procs[p].pc.WaitScan? {
      RunsWith(s, c, p);
      if t.reaped != s.reaped {
        ReapAccounts(s, t, s.procs[p].pc.i);
      } else {
        UneventfulKeeps(s, t);
      }
    } else {
      if s.procs[p].pc.WaitCommitted? {
        RunsCommitted(s, c, p);
      }
      UneventfulKeeps(s, t);
    }
  }

  lemma RunsCommitted(s: State, c: nat, p: nat)
    requires Inv(s) && c < |s.cpus| && s.cpus[c] == InProc(p) && p < |s.procs| && s.procs[p].pc.WaitCommitted?
    ensures s.procs[p].state.RUNNING?
  {
    OkAt(s, p);
    CpuAt(s, c);
  }

  lemma ForkEvents(s: State, c: nat, p: nat, l: Label)
    requires Inv(s) && Accounts(s) && s.nextpid > 0
    requires c < |s.cpus| && s.cpus[c] == InProc(p) && p < |s.procs| && ForkNext(s, c, p, l).Some?
    ensures Accounts(ForkNext(s, c, p, l).value)
  {
    hide Inv, Accounts, ProcOk, CpuOk, ParentOk, WaitOk;
    var t := ForkNext(s, c, p, l).value;
    OkAt(s, p);
    CpuAt(s, c);
    if l.ForkAlloc? {
      RunsAnywhere(s, c, p);
      AllocAccounts(s, t, l.np);
    } else {
      assert Uneventful(s, t);
      UneventfulKeeps(s, t);
    }
  }

  lemma RunsAnywhere(s: State, c: nat, p: nat)
    requires Inv(s) && c < |s.cpus| && s.cpus[c] == InProc(p) && p < |s.procs|
    ensures s.procs[p].state.RUNNING? || s.procs[p].state.ZOMBIE?
    ensures Preemptible(s.procs[p].pc) ==> s.procs[p].state.RUNNING?
  {
    OkAt(s, p);
    CpuAt(s, c);
  }

  lemma EventsKeep(s: State, c: nat, l: Label)
    requires Inv(s) && Accounts(s) && s.nextpid > 0 && c < |s.cpus| && INIT < |s.procs| && Next(s, c, l).Some?
    ensures Accounts(Next(s, c, l).value) && Next(s, c, l).value.nextpid > 0
  {
    hide Inv, Accounts, ProcOk, CpuOk, ForkOk, ParentOk, WaitOk, ExitNext, WaitNext, ForkNext;
    var t := Next(s, c, l).value;
    if l.ExitStep? {
      ExitEvents(s, c, s.cpus[c].p);
      ExitPid(s, c, s.cpus[c].p);
    } else if l.WaitStep? {
      WaitEvents(s, c, s.cpus[c].p, l.copied);
      WaitPid(s, c, s.cpus[c].p, l.copied);
    } else if l.ForkAlloc? || l.ForkFail? || l.ForkRelease? || l.ForkParent? || l.ForkRun? {
      ForkEvents(s, c, s.cpus[c].p, l);
      ForkPid(s, c, s.cpus[c].p, l);
    } else {
      if s.cpus[c].InProc? && s.cpus[c].p < |s.procs| {
        RunsAnywhere(s, c, s.cpus[c].p);
        ForkOnly(s, c, s.cpus[c].p, l);
      }
      assert Uneventful(s, t);
      UneventfulKeeps(s, t);
    }
  }

  lemma ExitPid(s: State, c: nat, p: nat)
    requires c < |s.cpus| && p < |s.procs| && INIT < |s.procs| && ExitNext(s, c, p).Some?
    ensures ExitNext(s, c, p).value.nextpid == s.nextpid
  {
  }

  lemma WaitPid(s: State, c: nat, p: nat, copied: bool)
    requires c < |s.cpus| && p < |s.procs| && WaitNext(s, c, p, copied).Some?
    ensures WaitNext(s, c, p, copied).value.nextpid == s.nextpid
  {
  }

  lemma ForkOnly(s: State, c: nat, p: nat, l: Label)
    requires c < |s.cpus| && p < |s.procs|
    ensures ForkNext(s, c, p, l).Some? ==> l.ForkAlloc? || l.ForkFail? || l.ForkRelease? || l.ForkParent? || l.ForkRun?
  {
  }

  lemma ForkPid(s: State, c: nat, p: nat, l: Label)
    requires c < |s.cpus| && p < |s.procs| && ForkNext(s, c, p, l).Some?
    ensures ForkNext(s, c, p, l).value.nextpid >= s.nextpid
  {
  }

  // ------------------------------------------------------------------
  // Runs

  datatype Event = Event(cpu: nat, l: Label)

  ghost predicate StepAt(ss: seq<State>, es: seq<Event>, i: nat)
    requires |ss| == |es| + 1 && i < |es|
  {
    && es[i].cpu < |ss[i].cpus| && INIT < |ss[i].procs|
    && Next(ss[i], es[i].cpu, es[i].l) == Some(ss[i + 1])
  }

  /** Any interleaving of steps of any CPUs, from the state after userinit. */
  ghost predicate IsRun(ss: seq<State>, es: seq<Event>) {
    && |ss| == |es| + 1 && Start(ss[0])
    && forall i :: 0 <= i < |es| ==> StepAt(ss, es, i)
  }

  lemma {:induction false} RunInv(ss: seq<State>, es: seq<Event>, i: nat)
    requires IsRun(ss, es) && i < |ss|
    ensures Inv(ss[i]) && Accounts(ss[i]) && ss[i].nextpid > 0
  {
    if i == 0 {
      StartInv(ss[0]);
      forall p: nat | p < |ss[0].procs| ensures PidOk(ss[0], p) {
      }
    } else {
      RunInv(ss, es, i - 1);
      assert StepAt(ss, es, i - 1);
      hide Inv, Accounts, Next;
      StepKeeps(ss[i - 1], es[i - 1].cpu, es[i - 1].l);
      EventsKeep(ss[i - 1], es[i - 1].cpu, es[i - 1].l);
    }
  }

  /**
   No lost wakeup.  In every state of every interleaving where wait_lock is free, a
   process asleep in wait has no zombie child, and every parent is a live process.
   */
  lemma NoLostWakeup(ss: seq<State>, es: seq<Event>, i: nat, p: nat)
    requires IsRun(ss, es) && i < |ss| && p < |ss[i].procs|
    ensures ss[i].waitLock.None? && ss[i].procs[p].state.SLEEPING? && ss[i].procs[p].chan == ProcChan(p) ==>
              forall q :: 0 <= q < |ss[i].procs| && ss[i].procs[q].parent == Some(p) ==> !ss[i].procs[q].state.ZOMBIE?
    ensures ss[i].procs[p].parent.Some? ==>
              ss[i].procs[p].parent.value < |ss[i].procs| && Alive(ss[i].procs[ss[i].procs[p].parent.value].state)
  {
    RunInv(ss, es, i);
    OkAt(ss[i], p);
  }

  /**
   Exactly-once reaping.  In every state of every interleaving no pid has been returned
   by wait twice, every status returned is the one passed to exit, and every process
   that exited is either still a zombie or has been returned.
   */
  lemma ReapedOnce(ss: seq<State>, es: seq<Event>, i: nat)
    requires IsRun(ss, es) && i < |ss|
    ensures var s := ss[i];
            && (forall j, k :: 0 <= j < k < |s.reaped| ==> s.reaped[j].pid != s.reaped[k].pid)
            && (forall j :: 0 <= j < |s.reaped| ==>
                  s.reaped[j].pid in s.exited && s.exited[s.reaped[j].pid] == s.reaped[j].status)
            && (forall pid :: pid in s.exited ==> IsZombie(s, pid) || IsReaped(s, pid))
            && (forall pid :: IsZombie(s, pid) ==> pid in s.exited && !IsReaped(s, pid))
  {
    RunInv(ss, es, i);
    var s := ss[i];
    forall pid | IsZombie(s, pid) ensures pid in s.exited && !IsReaped(s, pid) {
      var p :| 0 <= p < |s.procs| && s.procs[p].state.ZOMBIE? && s.procs[p].pid == pid;
      assert PidOk(s, p);
    }
  }

  /**
   A slot is freed only while no CPU runs on it or holds its lock for it, and only from
   ZOMBIE (by its parent's wait) or from USED (by a fork that fails).
   */
  lemma FreedWhenQuiet(ss: seq<State>, es: seq<Event>, i: nat, p: nat)
    requires IsRun(ss, es) && i < |es| && p < |ss[i].procs| && p < |ss[i + 1].procs| && es[i].cpu < |ss[i].cpus|
    requires !ss[i].procs[p].state.UNUSED? && ss[i + 1].procs[p].state.UNUSED?
    ensures Quiet(ss[i], p)
    ensures ss[i].procs[p].state.ZOMBIE? || ss[i].procs[p].state.USED?
    ensures ss[i].procs[p].state.ZOMBIE? ==>
              ss[i].procs[p].parent.Some? && ss[i].cpus[es[i].cpu] == InProc(ss[i].procs[p].parent.value)
  {
    RunInv(ss, es, i);
    assert StepAt(ss, es, i);
    FreeingStep(ss[i], ss[i + 1], es[i].cpu, es[i].l, p);
  }

  lemma FreeingStep(s: State, t: State, c: nat, l: Label, z: nat)
    requires Inv(s) && c < |s.cpus| && INIT < |s.procs| && Next(s, c, l) == Some(t) && z < |s.procs| && z < |t.procs|
    requires !s.procs[z].state.UNUSED? && t.procs[z].state.UNUSED?
    ensures Quiet(s, z) && (s.procs[z].state.ZOMBIE? || s.procs[z].state.USED?)
    ensures s.procs[z].state.ZOMBIE? ==> s.procs[z].parent.Some? && s.cpus[c] == InProc(s.procs[z].parent.value)
  {
    hide Inv, Quiet, ExitNext, WaitNext, ForkNext;
    if l.WaitStep? {
      WaitFrees(s, t, c, s.cpus[c].p, l.copied, z);
    } else if l.ExitStep? {
      ExitFrees(s, t, c, s.cpus[c].p, z);
    } else {
      ForkFrees(s, t, c, s.cpus[c].p, l, z);
    }
  }

  lemma WaitFrees(s: State, t: State, c: nat, p: nat, copied: bool, z: nat)
    requires Inv(s) && c < |s.cpus| && p < |s.procs| && WaitNext(s, c, p, copied) == Some(t) && z < |s.procs|
             && z < |t.procs|
    requires !s.procs[z].state.UNUSED? && t.procs[z].state.UNUSED?
    ensures Quiet(s, z) && s.procs[z].state.ZOMBIE? && s.procs[z].parent == Some(p)
  {
    hide Inv, Quiet;
    FreeIsQuiet(s, z);
  }

  lemma ForkFrees(s: State, t: State, c: nat, p: nat, l: Label, z: nat)
    requires Inv(s) && c < |s.cpus| && p < |s.procs| && ForkNext(s, c, p, l) == Some(t) && z < |s.procs|
             && z < |t.procs|
    requires !s.procs[z].state.UNUSED? && t.procs[z].state.UNUSED?
    ensures Quiet(s, z) && s.procs[z].state.USED?
  {
    hide Inv, Quiet, ProcOk, ParentOk, WaitOk;
    OkAt(s, p);
    UsedIsQuiet(s, z);
  }

  /** exit frees no slot. */
  lemma ExitFrees(s: State, t: State, c: nat, p: nat, z: nat)
    requires INIT < |s.procs| && c < |s.cpus| && p < |s.procs| && ExitNext(s, c, p) == Some(t) && z < |s.procs|
    ensures |t.procs| == |s.procs| && (t.procs[z].state.UNUSED? ==> s.procs[z].state.UNUSED?)
  {
  }
}
