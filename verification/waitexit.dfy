/**
 What wait, exit, fork, kill and wakeup do for their callers (kernel/proc.c), over every
 interleaving of the process machine.
 */
module WaitExit {
  import opened Sets
  import opened Process

  // ------------------------------------------------------------------
  // What the steps leave alone

  /** exit touches other slots only to hand them over or wake them. */
  lemma ExitFrame(s: State, t: State, c: nat, p: nat)
    requires c < |s.cpus| && p < |s.procs| && INIT < |s.procs| && ExitNext(s, c, p) == Some(t)
    ensures |t.procs| == |s.procs| && t.nextpid == s.nextpid
    ensures forall q :: 0 <= q < |s.procs| && q != p ==>
              t.procs[q] == s.procs[q].(state := t.procs[q].state, parent := t.procs[q].parent)
  {
  }

  lemma ExitOthers(s: State, t: State, c: nat, p: nat)
    requires c < |s.cpus| && p < |s.procs| && INIT < |s.procs| && ExitNext(s, c, p) == Some(t)
    ensures |t.procs| == |s.procs|
    ensures forall q :: 0 <= q < |s.procs| && q != p ==> (t.procs[q].state.UNUSED? <==> s.procs[q].state.UNUSED?)
  {
  }

  /** Its own slot goes on towards its end, with the status it had. */
  lemma ExitOwn(s: State, t: State, c: nat, p: nat)
    requires c < |s.cpus| && p < |s.procs| && INIT < |s.procs| && ExitNext(s, c, p) == Some(t)
    ensures |t.procs| == |s.procs| && t.procs[p].pid == s.procs[p].pid && Exiting(s.procs[p].pc)
            && Exiting(t.procs[p].pc)
    ensures Carries(t.procs[p].pc) ==> Carries(s.procs[p].pc) && t.procs[p].pc.status == s.procs[p].pc.status
    ensures !s.procs[p].pc.ExitLock? ==> t.exited == s.exited
  {
  }

  lemma ExitParents(s: State, t: State, c: nat, p: nat)
    requires c < |s.cpus| && p < |s.procs| && INIT < |s.procs| && ExitNext(s, c, p) == Some(t)
    requires !s.procs[p].pc.ExitReparent?
    ensures |t.procs| == |s.procs| && forall q :: 0 <= q < |s.procs| ==> t.procs[q].parent == s.procs[q].parent
  {
  }

  /** wait touches no other slot but the one it frees. */
  lemma WaitFrame(s: State, t: State, c: nat, p: nat, copied: bool)
    requires c < |s.cpus| && p < |s.procs| && WaitNext(s, c, p, copied) == Some(t)
    ensures |t.procs| == |s.procs| && t.nextpid == s.nextpid && t.exited == s.exited
    ensures forall q :: 0 <= q < |s.procs| && q != p ==> t.procs[q] == s.procs[q] || t.procs[q] == FREED
  {
  }

  lemma WaitOwn(s: State, t: State, c: nat, p: nat, copied: bool)
    requires c < |s.cpus| && p < |s.procs| && WaitNext(s, c, p, copied) == Some(t)
    ensures |t.procs| == |s.procs| && (t.procs[p].pid == s.procs[p].pid || t.procs[p].state.UNUSED?)
  {
  }

  lemma WaitPcs(s: State, t: State, c: nat, p: nat, copied: bool)
    requires c < |s.cpus| && p < |s.procs| && WaitNext(s, c, p, copied) == Some(t)
    ensures |t.procs| == |s.procs| && InWait(s.procs[p].pc) && (InWait(t.procs[p].pc) || t.procs[p].pc.Anywhere?)
  {
  }

  /** fork touches no other slot but the child's. */
  lemma ForkFrame(s: State, t: State, c: nat, p: nat, l: Label)
    requires c < |s.cpus| && p < |s.procs| && ForkNext(s, c, p, l) == Some(t)
    ensures |t.procs| == |s.procs| && t.exited == s.exited
    ensures !Exiting(s.procs[p].pc) && !Exiting(t.procs[p].pc)
    ensures !t.procs[p].pc.WaitScan? && !Scanned(t.procs[p].pc)
    ensures l.ForkAlloc? || ForkOf(s.procs[p].pc).Some?
    ensures var np := if l.ForkAlloc? then l.np else ForkOf(s.procs[p].pc).value;
            && np < |s.procs|
            && (forall q :: 0 <= q < |s.procs| && q != p && q != np ==> t.procs[q] == s.procs[q])
            && (np != p ==> t.procs[p] == s.procs[p].(pc := t.procs[p].pc))
            && (np != p && !l.ForkAlloc? && !l.ForkFail? ==>
                  t.procs[np] == s.procs[np].(lock := t.procs[np].lock, state := t.procs[np].state,
                                              parent := t.procs[np].parent))
            && (np != p && !l.ForkParent? && !l.ForkAlloc? && !l.ForkFail? ==>
                  t.procs[np].parent == s.procs[np].parent)
            && (np != p && (l.ForkAlloc? || l.ForkFail?) ==> t.procs[np].parent.None? && t.procs[np].pc.Anywhere?)
            && (np != p && l.ForkFail? ==> t.procs[np].state.UNUSED?)
  {
  }

  // ------------------------------------------------------------------
  // havekids

  /** p has a child among the slots below n. */
  ghost predicate HasKid(s: State, p: nat, n: nat) {
    exists j :: 0 <= j < n && j < |s.procs| && s.procs[j].parent == Some(p)
  }

  /** Past the scan of wait, up to its next scan. */
  predicate Scanned(pc: Pc) {
    pc.WaitCheck? || pc.WaitSleep? || pc.WaitLocked? || pc.WaitCommitted? || pc.WaitAsleep? || pc.WaitRetry?
  }

  predicate InWait(pc: Pc) {
    pc.WaitScan? || Scanned(pc)
  }

  /** havekids says whether the slots seen so far hold a child, and a process that goes on to sleep has one. */
  ghost predicate KidsOk(s: State, p: nat)
    requires p < |s.procs|
  {
    var pc := s.procs[p].pc;
    && (pc.WaitScan? ==> (pc.have <==> HasKid(s, p, pc.i)))
    && (Scanned(pc) ==> HasKid(s, p, |s.procs|))
  }

  ghost predicate Kids(s: State) {
    forall p :: 0 <= p < |s.procs| ==> KidsOk(s, p)
  }

  /** Parents are the same, and so are all program counters but p's. */
  ghost predicate Alone(s: State, t: State, p: nat) {
    && |t.procs| == |s.procs|
    && (forall q :: 0 <= q < |s.procs| ==> t.procs[q].parent == s.procs[q].parent)
    && (forall q :: 0 <= q < |s.procs| && q != p ==> t.procs[q].pc == s.procs[q].pc)
  }

  lemma SameKids(s: State, t: State, q: nat, n: nat)
    requires |t.procs| == |s.procs| && forall j :: 0 <= j < |s.procs| ==> t.procs[j].parent == s.procs[j].parent
    ensures HasKid(t, q, n) <==> HasKid(s, q, n)
  {
    if HasKid(s, q, n) {
      var j :| 0 <= j < n && j < |s.procs| && s.procs[j].parent == Some(q);
      assert t.procs[j].parent == Some(q);
    }
    if HasKid(t, q, n) {
      var j :| 0 <= j < n && j < |t.procs| && t.procs[j].parent == Some(q);
      assert s.procs[j].parent == Some(q);
    }
  }

  lemma AloneKids(s: State, t: State, p: nat)
    requires Kids(s) && Alone(s, t, p) && (p < |t.procs| ==> KidsOk(t, p))
    ensures Kids(t)
  {
    hide HasKid;
    forall q: nat | q < |t.procs| ensures KidsOk(t, q) {
      if q != p {
        assert KidsOk(s, q);
        SameKids(s, t, q, |s.procs|);
        if s.procs[q].pc.WaitScan? {
          SameKids(s, t, q, s.procs[q].pc.i);
        }
      }
    }
  }

  lemma KidsAt(s: State, p: nat)
    requires Kids(s) && p < |s.procs|
    ensures KidsOk(s, p)
  {
  }

  lemma KidNext(s: State, p: nat, i: nat)
    ensures HasKid(s, p, i + 1) <==> HasKid(s, p, i) || (i < |s.procs| && s.procs[i].parent == Some(p))
  {
    if HasKid(s, p, i) {
      var j :| 0 <= j < i && j < |s.procs| && s.procs[j].parent == Some(p);
      assert j < i + 1;
    }
    if i < |s.procs| && s.procs[i].parent == Some(p) {
      assert 0 <= i < i + 1;
    }
  }

  lemma KidEnd(s: State, p: nat, i: nat)
    requires i >= |s.procs|
    ensures HasKid(s, p, i) <==> HasKid(s, p, |s.procs|)
  {
  }

  lemma NoneYet(s: State, p: nat)
    ensures !HasKid(s, p, 0)
  {
  }

  /** A step of wait that reaps nobody changes no parent. */
  lemma WaitAlone(s: State, t: State, c: nat, p: nat, copied: bool)
    requires c < |s.cpus| && p < |s.procs| && WaitNext(s, c, p, copied) == Some(t) && t.reaped == s.reaped
    ensures Alone(s, t, p)
  {
  }

  lemma WaitKids(s: State, t: State, c: nat, p: nat, copied: bool)
    requires Kids(s) && c < |s.cpus| && p < |s.procs| && WaitNext(s, c, p, copied) == Some(t)
    ensures Kids(t)
  {
    hide HasKid, Kids, Alone;
    KidsAt(s, p);
    if t.reaped != s.reaped {
      ReapKids(s, t, p, s.procs[p].pc.i);
    } else {
      WaitAlone(s, t, c, p, copied);
      ScanKids(s, t, c, p, copied);
      AloneKids(s, t, p);
    }
  }

  lemma ScanKids(s: State, t: State, c: nat, p: nat, copied: bool)
    requires c < |s.cpus| && p < |s.procs| && WaitNext(s, c, p, copied) == Some(t) && t.reaped == s.reaped
    requires KidsOk(s, p) && Alone(s, t, p)
    ensures KidsOk(t, p)
  {
    hide HasKid;
    var pc := s.procs[p].pc;
    SameKids(s, t, p, |s.procs|);
    NoneYet(t, p);
    if pc.WaitScan? {
      KidNext(s, p, pc.i);
      SameKids(s, t, p, pc.i + 1);
      if pc.i >= |s.procs| {
        KidEnd(s, p, pc.i);
      }
    }
  }

  /** Reaping takes a child of p's away, and p leaves wait. */
  lemma ReapKids(s: State, t: State, p: nat, i: nat)
    requires Kids(s) && p < |s.procs| && i < |s.procs| == |t.procs| && s.procs[i].parent == Some(p)
    requires t.procs[p].pc.Anywhere? && t.procs[i].pc.Anywhere? && t.procs[i].parent.None?
    requires forall q :: 0 <= q < |s.procs| && q != i && q != p ==> t.procs[q] == s.procs[q]
    requires i != p ==> t.procs[p].parent == s.procs[p].parent
    ensures Kids(t)
  {
    forall q: nat | q < |t.procs| ensures KidsOk(t, q) {
      if q != p && q != i {
        assert KidsOk(s, q);
        OthersKids(s, t, q, |s.procs|, i);
        if s.procs[q].pc.WaitScan? {
          OthersKids(s, t, q, s.procs[q].pc.i, i);
        }
      }
    }
  }

  lemma OthersKids(s: State, t: State, q: nat, n: nat, i: nat)
    requires i < |s.procs| == |t.procs| && s.procs[i].parent != Some(q)
    requires forall j :: 0 <= j < |s.procs| && j != i ==> t.procs[j].parent == s.procs[j].parent
    ensures HasKid(s, q, n) ==> HasKid(t, q, n)
    ensures t.procs[i].parent != Some(q) ==> (HasKid(s, q, n) <==> HasKid(t, q, n))
  {
    if HasKid(s, q, n) {
      var j :| 0 <= j < n && j < |s.procs| && s.procs[j].parent == Some(q);
      assert t.procs[j].parent == Some(q);
    }
    if t.procs[i].parent != Some(q) && HasKid(t, q, n) {
      var j :| 0 <= j < n && j < |t.procs| && t.procs[j].parent == Some(q);
      assert s.procs[j].parent == Some(q);
    }
  }

  /** Only the process that holds wait_lock scans. */
  lemma Scanner(s: State, q: nat)
    requires Inv(s) && q < |s.procs| && s.procs[q].pc.WaitScan?
    ensures OwnedBy(s, s.waitLock, q)
  {
    OkAt(s, q);
  }

  /** A new child for process p, while nobody scans. */
  lemma MoreKids(s: State, t: State, p: nat, i: nat)
    requires Kids(s) && p < |s.procs| && i < |s.procs| == |t.procs| && p != i
    requires forall q :: 0 <= q < |s.procs| && q != p ==> !s.procs[q].pc.WaitScan?
    requires forall q :: 0 <= q < |s.procs| && q != p ==> t.procs[q].pc == s.procs[q].pc
    requires forall q :: 0 <= q < |s.procs| && q != i ==> t.procs[q].parent == s.procs[q].parent
    requires s.procs[i].parent.None? || s.procs[i].parent == Some(p)
    requires !t.procs[p].pc.WaitScan? && !Scanned(t.procs[p].pc)
    ensures Kids(t)
  {
    forall q: nat | q < |t.procs| ensures KidsOk(t, q) {
      if q != p {
        assert KidsOk(s, q);
        OthersKids(s, t, q, |s.procs|, i);
      }
    }
  }

  lemma ReparentKids(s: State, t: State, c: nat, p: nat)
    requires Inv(s) && Kids(s) && c < |s.cpus| && s.cpus[c] == InProc(p) && p < |s.procs| && INIT < |s.procs|
    requires ExitNext(s, c, p) == Some(t) && s.procs[p].pc.ExitReparent?
    ensures Kids(t)
  {
    hide Kids, Inv, Alone, HasKid;
    var i := s.procs[p].pc.i;
    if i < |s.procs| && s.procs[i].parent == Some(p) {
      forall q: nat | q < |s.procs| && q != p ensures !s.procs[q].pc.WaitScan? {
        if s.procs[q].pc.WaitScan? {
          Scanner(s, q);
          Acting(s, c, p);
        }
      }
      OkAt(s, i);
      MoreKids(s, t, p, i);
    } else {
      AloneIs(s, t, p);
      AloneKids(s, t, p);
    }
  }

  lemma AloneIs(s: State, t: State, p: nat)
    requires |t.procs| == |s.procs|
    requires forall q :: 0 <= q < |s.procs| ==> t.procs[q].parent == s.procs[q].parent
    requires forall q :: 0 <= q < |s.procs| && q != p ==> t.procs[q].pc == s.procs[q].pc
    ensures Alone(s, t, p)
  {
  }

  lemma ExitKids(s: State, t: State, c: nat, p: nat)
    requires Inv(s) && Kids(s) && c < |s.cpus| && s.cpus[c] == InProc(p) && p < |s.procs| && INIT < |s.procs|
    requires ExitNext(s, c, p) == Some(t)
    ensures Kids(t)
  {
    hide Kids, Inv, Alone, HasKid, ExitNext;
    if s.procs[p].pc.ExitReparent? {
      ReparentKids(s, t, c, p);
    } else {
      ExitFrame(s, t, c, p);
      ExitOwn(s, t, c, p);
      ExitParents(s, t, c, p);
      AloneIs(s, t, p);
      AloneKids(s, t, p);
    }
  }

  lemma ForkKids(s: State, t: State, c: nat, p: nat, l: Label)
    requires Inv(s) && Kids(s) && c < |s.cpus| && s.cpus[c] == InProc(p) && p < |s.procs|
    requires ForkNext(s, c, p, l) == Some(t)
    ensures Kids(t)
  {
    hide Kids, Inv, Alone, HasKid, ParentOk, WaitOk, ForkNext, Exiting;
    ForkFrame(s, t, c, p, l);
    var np := if l.ForkAlloc? then l.np else ForkOf(s.procs[p].pc).value;
    ForkSlot(s, t, c, p, l, np);
    if l.ForkParent? {
      forall q: nat | q < |s.procs| ensures !s.procs[q].pc.WaitScan? {
        if s.procs[q].pc.WaitScan? {
          Scanner(s, q);
        }
      }
      MoreKids(s, t, p, np);
    } else {
      AloneIs(s, t, p);
      AloneKids(s, t, p);
    }
  }

  /** The slot that fork works on is not its own, and has no parent until fork sets it. */
  lemma ForkSlot(s: State, t: State, c: nat, p: nat, l: Label, np: nat)
    requires Inv(s) && c < |s.cpus| && s.cpus[c] == InProc(p) && p < |s.procs| && ForkNext(s, c, p, l) == Some(t)
    requires if l.ForkAlloc? then np == l.np else ForkOf(s.procs[p].pc) == Some(np)
    ensures np < |s.procs| && np != p && s.procs[np].pc.Anywhere? && (l.ForkParent? ==> s.waitLock.None?)
    ensures l.ForkAlloc? ==> s.procs[np].state.UNUSED?
    ensures l.ForkRun? || s.procs[np].parent.None?
  {
    hide Inv, ParentOk, WaitOk;
    OkAt(s, p);
    CpuAt(s, c);
    OkAt(s, np);
  }

  lemma ThreadKids(s: State, t: State, c: nat, p: nat, l: Label)
    requires Inv(s) && Kids(s) && c < |s.cpus| && s.cpus[c] == InProc(p) && p < |s.procs| && INIT < |s.procs|
    requires ThreadNext(s, c, p, l) == Some(t)
    ensures Kids(t)
  {
    hide Kids, Inv, Alone, HasKid, ExitNext, WaitNext, ForkNext;
    match l
    case ExitStep => ExitKids(s, t, c, p);
    case WaitStep(copied) => WaitKids(s, t, c, p, copied);
    case ExitBegin(_) =>
      AloneIs(s, t, p);
      AloneKids(s, t, p);
    case WaitBegin =>
      AloneIs(s, t, p);
      NoneYet(t, p);
      AloneKids(s, t, p);
    case Sleep(_) =>
      AloneIs(s, t, p);
      AloneKids(s, t, p);
    case Yield =>
      KidsAt(s, p);
      AloneIs(s, t, p);
      SameKids(s, t, p, |s.procs|);
      AloneKids(s, t, p);
    case _ => ForkKids(s, t, c, p, l);
  }

  lemma StepKids(s: State, t: State, c: nat, l: Label)
    requires Inv(s) && Kids(s) && c < |s.cpus| && INIT < |s.procs| && Next(s, c, l) == Some(t)
    ensures Kids(t)
  {
    hide Kids, Inv, Alone, HasKid, ThreadNext;
    if l.Kill? || l.WakeOther? || l.Dispatch? || l.Release? {
      AloneIs(s, t, |s.procs|);
      AloneKids(s, t, |s.procs|);
    } else {
      var p := s.cpus[c].p;
      if s.procs[p].inSched {
        KidsAt(s, p);
        AloneIs(s, t, p);
        SameKids(s, t, p, |s.procs|);
        if s.procs[p].pc.WaitScan? {
          SameKids(s, t, p, s.procs[p].pc.i);
        }
        AloneKids(s, t, p);
      } else {
        ThreadKids(s, t, c, p, l);
      }
    }
  }

  lemma {:induction false} RunKids(ss: seq<State>, es: seq<Event>, i: nat)
    requires IsRun(ss, es) && i < |ss|
    ensures Kids(ss[i])
  {
    hide Next, Inv, Accounts;
    if i > 0 {
      RunKids(ss, es, i - 1);
      RunInv(ss, es, i - 1);
      assert StepAt(ss, es, i - 1);
      StepKids(ss[i - 1], ss[i], es[i - 1].cpu, es[i - 1].l);
    }
  }

  /** A child of p's that has exited. */
  ghost predicate DeadKid(s: State, p: nat, z: nat) {
    z < |s.procs| && s.procs[z].parent == Some(p) && s.procs[z].state.ZOMBIE?
  }

  /**
   How a call of wait ends or goes to sleep, in every run: with the pid and status of a
   zombie child, which is freed; with -1 if there is no child, if copying out the status of
   a zombie child failed, or if the caller was killed while no child is a zombie; and it
   gets to sleep only with a child, none of them a zombie, and not killed when it looked.
   */
  lemma WaitExact(ss: seq<State>, es: seq<Event>, i: nat, p: nat)
    requires IsRun(ss, es) && i < |es| && es[i].l.WaitStep? && es[i].cpu < |ss[i].cpus|
    requires ss[i].cpus[es[i].cpu] == InProc(p) && p < |ss[i].procs| == |ss[i + 1].procs|
    ensures var s, t := ss[i], ss[i + 1];
            && (t.procs[p].pc.Anywhere? && t.reaped != s.reaped ==>
                  exists z: nat :: DeadKid(s, p, z) && t.procs[z].state.UNUSED?
                              && t.reaped == s.reaped + [Reap(s.procs[z].pid, s.procs[z].xstate)])
            && (t.procs[p].pc.Anywhere? && t.reaped == s.reaped ==>
                  || !HasKid(s, p, |s.procs|)
                  || (!es[i].l.copied && exists z: nat :: DeadKid(s, p, z))
                  || (s.procs[p].killed && HasKid(s, p, |s.procs|) && forall z: nat :: !DeadKid(s, p, z)))
            && (!t.procs[p].pc.Anywhere? ==> t.reaped == s.reaped)
            && (t.procs[p].pc.WaitSleep? ==>
                  !s.procs[p].killed && HasKid(s, p, |s.procs|) && forall z: nat :: !DeadKid(s, p, z))
  {
    RunInv(ss, es, i);
    RunKids(ss, es, i);
    assert StepAt(ss, es, i);
    WaitStepExact(ss[i], ss[i + 1], es[i].cpu, p, es[i].l.copied);
  }

  lemma WaitStepExact(s: State, t: State, c: nat, p: nat, copied: bool)
    requires Inv(s) && Kids(s) && c < |s.cpus| && INIT < |s.procs| && p < |s.procs| == |t.procs|
    requires s.cpus[c] == InProc(p) && Next(s, c, WaitStep(copied)) == Some(t)
    ensures t.procs[p].pc.Anywhere? && t.reaped != s.reaped ==>
              exists z: nat :: DeadKid(s, p, z) && t.procs[z].state.UNUSED?
                          && t.reaped == s.reaped + [Reap(s.procs[z].pid, s.procs[z].xstate)]
    ensures t.procs[p].pc.Anywhere? && t.reaped == s.reaped ==>
              || !HasKid(s, p, |s.procs|)
              || (!copied && exists z: nat :: DeadKid(s, p, z))
              || (s.procs[p].killed && HasKid(s, p, |s.procs|) && forall z: nat :: !DeadKid(s, p, z))
    ensures !t.procs[p].pc.Anywhere? ==> t.reaped == s.reaped
    ensures t.procs[p].pc.WaitSleep? ==>
              !s.procs[p].killed && HasKid(s, p, |s.procs|) && forall z: nat :: !DeadKid(s, p, z)
  {
    hide Inv, Kids, HasKid;
    OkAt(s, p);
    KidsAt(s, p);
    var pc := s.procs[p].pc;
    if pc.WaitScan? {
      if pc.i >= |s.procs| {
        KidEnd(s, p, pc.i);
      } else if s.procs[pc.i].parent == Some(p) && s.procs[pc.i].state.ZOMBIE? {
        assert DeadKid(s, p, pc.i);
        OkAt(s, pc.i);
        assert copied ==> t.procs[pc.i].state.UNUSED?;
      }
    }
  }

  // ------------------------------------------------------------------
  // Exit statuses

  /** The process that CPU c runs. */
  predicate Runs(s: State, c: nat, p: nat) {
    c < |s.cpus| && s.cpus[c] == InProc(p) && p < |s.procs|
  }

  /** What exit has been called with so far, by pid: read off the calls. */
  ghost function Asked(ss: seq<State>, es: seq<Event>, i: nat): map<nat, int>
    requires i <= |es| < |ss|
  {
    if i == 0 then map[]
    else
      var a, s, e := Asked(ss, es, i - 1), ss[i - 1], es[i - 1];
      if e.l.ExitBegin? && e.cpu < |s.cpus| && s.cpus[e.cpu].InProc? && s.cpus[e.cpu].p < |s.procs|
      then a[s.procs[s.cpus[e.cpu].p].pid := e.l.status] else a
  }

  /** On its way out, with the status that exit was given. */
  predicate Carries(pc: Pc) {
    pc.ExitReparent? || pc.ExitInitWake? || pc.ExitWake? || pc.ExitLock?
  }

  ghost predicate SlotTold(s: State, a: map<nat, int>, p: nat)
    requires p < |s.procs|
  {
    var x := s.procs[p];
    !x.state.UNUSED? ==>
      && (x.pid in a <==> Exiting(x.pc))
      && (Carries(x.pc) ==> x.pid in a && a[x.pid] == x.pc.status)
  }

  /** The processes that called exit are on their way out or have exited, with their own statuses. */
  ghost predicate Told(s: State, a: map<nat, int>) {
    && (forall p :: 0 <= p < |s.procs| ==> SlotTold(s, a, p))
    && (forall pid :: pid in s.exited ==> pid in a && a[pid] == s.exited[pid])
    && (forall pid :: pid in a ==> pid < s.nextpid)
  }

  lemma ToldAt(s: State, a: map<nat, int>, p: nat)
    requires Told(s, a) && p < |s.procs|
    ensures SlotTold(s, a, p)
  {
  }

  /** Nobody calls exit, exits or is born: pids stay, and so does who is on its way out. */
  ghost predicate Steady(s: State, t: State) {
    && |t.procs| == |s.procs| && t.exited == s.exited && t.nextpid == s.nextpid
    && forall q :: 0 <= q < |s.procs| ==> SlotSteady(s.procs[q], t.procs[q])
  }

  predicate SlotSteady(x: Proc, y: Proc) {
    || y.state.UNUSED?
    || (!x.state.UNUSED? && y.pid == x.pid && (Exiting(y.pc) <==> Exiting(x.pc))
        && (Carries(y.pc) ==> Carries(x.pc) && y.pc.status == x.pc.status))
  }

  lemma SteadyTold(s: State, t: State, a: map<nat, int>)
    requires Told(s, a) && Steady(s, t)
    ensures Told(t, a)
  {
    hide Exiting, Carries;
    forall p: nat | p < |t.procs| ensures SlotTold(t, a, p) {
      assert SlotTold(s, a, p) && SlotSteady(s.procs[p], t.procs[p]);
    }
  }

  /** The call of exit. */
  lemma BeginTold(s: State, t: State, a: map<nat, int>, c: nat, p: nat, st: int)
    requires Inv(s) && Accounts(s) && Told(s, a) && Runs(s, c, p) && INIT < |s.procs|
    requires ThreadNext(s, c, p, ExitBegin(st)) == Some(t)
    ensures Told(t, a[s.procs[p].pid := st])
  {
    hide Inv;
    var b := a[s.procs[p].pid := st];
    RunsAnywhere(s, c, p);
    assert PidOk(s, p);
    forall q: nat | q < |t.procs| ensures SlotTold(t, b, q) {
      assert SlotTold(s, a, q) && SlotTold(s, a, p);
    }
  }

  /** The exit itself. */
  lemma LockTold(s: State, t: State, a: map<nat, int>, c: nat, p: nat)
    requires Inv(s) && Told(s, a) && Runs(s, c, p) && INIT < |s.procs|
    requires ExitNext(s, c, p) == Some(t) && s.procs[p].pc.ExitLock?
    ensures Told(t, a)
  {
    hide Inv;
    RunsWith(s, c, p);
    assert SlotTold(s, a, p);
    forall q: nat | q < |t.procs| ensures SlotTold(t, a, q) {
      assert SlotTold(s, a, q);
    }
  }

  lemma ExitTold(s: State, t: State, a: map<nat, int>, c: nat, p: nat)
    requires Inv(s) && Told(s, a) && Runs(s, c, p) && INIT < |s.procs|
    requires ExitNext(s, c, p) == Some(t)
    ensures Told(t, a)
  {
    hide Inv, Told;
    RunsIn(s, c, p);
    if s.procs[p].pc.ExitLock? {
      LockTold(s, t, a, c, p);
    } else {
      hide ExitNext;
      ExitFrame(s, t, c, p);
      ExitOthers(s, t, c, p);
      ExitOwn(s, t, c, p);
      SteadyTold(s, t, a);
    }
  }

  lemma RunsIn(s: State, c: nat, p: nat)
    requires Inv(s) && Runs(s, c, p)
    ensures !s.procs[p].state.UNUSED?
  {
    CpuAt(s, c);
  }

  /** A new pid has not exited. */
  lemma AllocTold(s: State, t: State, a: map<nat, int>, c: nat, p: nat, np: nat)
    requires Inv(s) && Told(s, a) && Runs(s, c, p)
    requires ForkNext(s, c, p, ForkAlloc(np)) == Some(t)
    ensures Told(t, a)
  {
    hide Inv;
    RunsIn(s, c, p);
    forall q: nat | q < |t.procs| ensures SlotTold(t, a, q) {
      assert SlotTold(s, a, q);
    }
  }

  lemma ForkTold(s: State, t: State, a: map<nat, int>, c: nat, p: nat, l: Label)
    requires Inv(s) && Told(s, a) && Runs(s, c, p)
    requires ForkNext(s, c, p, l) == Some(t)
    ensures Told(t, a)
  {
    hide Inv, Told, ParentOk, WaitOk, ProcOk;
    RunsIn(s, c, p);
    if l.ForkAlloc? {
      AllocTold(s, t, a, c, p, l.np);
    } else {
      OkAt(s, p);
      SteadyTold(s, t, a);
    }
  }

  lemma WaitTold(s: State, t: State, a: map<nat, int>, c: nat, p: nat, copied: bool)
    requires Inv(s) && Told(s, a) && Runs(s, c, p)
    requires WaitNext(s, c, p, copied) == Some(t)
    ensures Told(t, a)
  {
    hide Inv, Told, WaitNext;
    RunsIn(s, c, p);
    WaitFrame(s, t, c, p, copied);
    WaitOwn(s, t, c, p, copied);
    WaitPcs(s, t, c, p, copied);
    SteadyTold(s, t, a);
  }

  lemma ThreadTold(s: State, t: State, a: map<nat, int>, c: nat, p: nat, l: Label)
    requires Inv(s) && Told(s, a) && Runs(s, c, p) && INIT < |s.procs| && !l.ExitBegin?
    requires ThreadNext(s, c, p, l) == Some(t)
    ensures Told(t, a)
  {
    hide Inv, Told, ExitNext, WaitNext, ForkNext;
    RunsIn(s, c, p);
    match l
    case ExitStep => ExitTold(s, t, a, c, p);
    case WaitStep(copied) => WaitTold(s, t, a, c, p, copied);
    case WaitBegin => SteadyTold(s, t, a);
    case Sleep(_) => SteadyTold(s, t, a);
    case Yield => SteadyTold(s, t, a);
    case _ => ForkTold(s, t, a, c, p, l);
  }

  lemma StepTold(s: State, t: State, a: map<nat, int>, c: nat, l: Label)
    requires Inv(s) && Accounts(s) && Told(s, a) && c < |s.cpus| && INIT < |s.procs| && Next(s, c, l) == Some(t)
    ensures if l.ExitBegin? then Runs(s, c, s.cpus[c].p) && Told(t, a[s.procs[s.cpus[c].p].pid := l.status])
            else Told(t, a)
  {
    hide Inv, Told, Accounts, ThreadNext;
    if l.Kill? || l.WakeOther? || l.Dispatch? || l.Release? {
      NudgeSteady(s, t, c, l);
      SteadyTold(s, t, a);
    } else {
      var p := s.cpus[c].p;
      if s.procs[p].inSched {
        RunsIn(s, c, p);
        SteadyTold(s, t, a);
      } else if l.ExitBegin? {
        BeginTold(s, t, a, c, p, l.status);
      } else {
        ThreadTold(s, t, a, c, p, l);
      }
    }
  }

  lemma NudgeSteady(s: State, t: State, c: nat, l: Label)
    requires Inv(s) && c < |s.cpus| && INIT < |s.procs| && Next(s, c, l) == Some(t)
    requires l.Kill? || l.WakeOther? || l.Dispatch? || l.Release?
    ensures Steady(s, t)
  {
    hide Inv;
    if l.Release? {
      CpuAt(s, c);
    }
  }

  lemma {:induction false} RunTold(ss: seq<State>, es: seq<Event>, i: nat)
    requires IsRun(ss, es) && i < |ss|
    ensures Told(ss[i], Asked(ss, es, i))
  {
    hide Next, Inv, Accounts;
    if i > 0 {
      RunTold(ss, es, i - 1);
      RunInv(ss, es, i - 1);
      assert StepAt(ss, es, i - 1);
      StepTold(ss[i - 1], ss[i], Asked(ss, es, i - 1), es[i - 1].cpu, es[i - 1].l);
    }
  }

  /** The process with this pid called exit with this status at step m. */
  ghost predicate ExitCall(ss: seq<State>, es: seq<Event>, m: nat, pid: nat, st: int)
    requires |ss| == |es| + 1 && m < |es|
  {
    && es[m].l == ExitBegin(st) && es[m].cpu < |ss[m].cpus| && ss[m].cpus[es[m].cpu].InProc?
    && ss[m].cpus[es[m].cpu].p < |ss[m].procs| && ss[m].procs[ss[m].cpus[es[m].cpu].p].pid == pid
  }

  /** Every status asked for was asked for by a call. */
  lemma {:induction false} AskedCall(ss: seq<State>, es: seq<Event>, i: nat, pid: nat) returns (m: nat)
    requires |ss| == |es| + 1 && i <= |es| && pid in Asked(ss, es, i)
    ensures m < i && ExitCall(ss, es, m, pid, Asked(ss, es, i)[pid])
  {
    var s, e := ss[i - 1], es[i - 1];
    if e.l.ExitBegin? && e.cpu < |s.cpus| && s.cpus[e.cpu].InProc? && s.cpus[e.cpu].p < |s.procs|
       && s.procs[s.cpus[e.cpu].p].pid == pid {
      m := i - 1;
    } else {
      m := AskedCall(ss, es, i - 1, pid);
    }
  }

  /** No process calls exit twice, so what was asked for stays. */
  lemma {:induction false} AskedStays(ss: seq<State>, es: seq<Event>, m: nat, i: nat, pid: nat, st: int)
    requires IsRun(ss, es) && m < i <= |es| && ExitCall(ss, es, m, pid, st)
    ensures pid in Asked(ss, es, i) && Asked(ss, es, i)[pid] == st
    decreases i
  {
    hide Told, Inv, Accounts;
    if m + 1 < i {
      AskedStays(ss, es, m, i - 1, pid, st);
      RunTold(ss, es, i - 1);
      RunInv(ss, es, i - 1);
      assert StepAt(ss, es, i - 1);
      var s, e := ss[i - 1], es[i - 1];
      if e.l.ExitBegin? {
        var p := s.cpus[e.cpu].p;
        ToldAt(s, Asked(ss, es, i - 1), p);
        RunsIn(s, e.cpu, p);
      }
    }
  }

  /**
   In every run the status of a process that has exited is the argument of its call of
   exit: every exited pid made one such call, and whatever call it made is the one.
   */
  lemma ExitStatus(ss: seq<State>, es: seq<Event>, i: nat, pid: nat)
    requires IsRun(ss, es) && i < |ss| && pid in ss[i].exited
    ensures exists m: nat :: m < i && ExitCall(ss, es, m, pid, ss[i].exited[pid])
    ensures forall m: nat, st :: m < i && ExitCall(ss, es, m, pid, st) ==> ss[i].exited[pid] == st
  {
    RunTold(ss, es, i);
    var m := AskedCall(ss, es, i, pid);
    forall k: nat, st | k < i && ExitCall(ss, es, k, pid, st) ensures ss[i].exited[pid] == st {
      AskedStays(ss, es, k, i, pid, st);
    }
  }

  /** What wait returned is a pid and the argument with which that process called exit. */
  lemma ReapedStatus(ss: seq<State>, es: seq<Event>, i: nat, j: nat)
    requires IsRun(ss, es) && i < |ss| && j < |ss[i].reaped|
    ensures exists m: nat :: m < i && ExitCall(ss, es, m, ss[i].reaped[j].pid, ss[i].reaped[j].status)
    ensures forall m: nat, st :: m < i && ExitCall(ss, es, m, ss[i].reaped[j].pid, st) ==> ss[i].reaped[j].status == st
  {
    hide IsRun;
    ReapedOnce(ss, es, i);
    ExitStatus(ss, es, i, ss[i].reaped[j].pid);
  }

  // ------------------------------------------------------------------
  // fork

  /**
   When fork is done, in every run, the child is RUNNABLE, is the caller's child, has not
   exited and has a pid that no other process has; the caller goes on.
   */
  lemma ForkMakes(ss: seq<State>, es: seq<Event>, i: nat, p: nat)
    requires IsRun(ss, es) && i < |es| && es[i].l.ForkRun? && Runs(ss[i], es[i].cpu, p)
    ensures ss[i].procs[p].pc.ForkDone? && |ss[i + 1].procs| == |ss[i].procs|
    ensures var np, t := ss[i].procs[p].pc.np, ss[i + 1];
            && np < |t.procs| && np != p && t.procs[np].state.RUNNABLE? && t.procs[np].parent == Some(p)
            && t.procs[p].pc.Anywhere? && t.procs[np].pid !in t.exited
            && forall q :: 0 <= q < |t.procs| && q != np && !t.procs[q].state.UNUSED? ==>
               t.procs[q].pid != t.procs[np].pid
  {
    RunInv(ss, es, i);
    RunInv(ss, es, i + 1);
    assert StepAt(ss, es, i);
    hide IsRun, Inv;
    OkAt(ss[i], p);
    CpuAt(ss[i], es[i].cpu);
    assert PidOk(ss[i + 1], ss[i].procs[p].pc.np);
  }

  /** A pid is given out once: the pid of a new slot is above every pid given out before. */
  lemma ForkFresh(ss: seq<State>, es: seq<Event>, i: nat, q: nat)
    requires IsRun(ss, es) && i < |es| && es[i].l.ForkAlloc? && q < |ss[i].procs|
    ensures es[i].l.np < |ss[i + 1].procs| && |ss[i + 1].procs| == |ss[i].procs|
    ensures !ss[i].procs[q].state.UNUSED? ==> ss[i].procs[q].pid < ss[i + 1].procs[es[i].l.np].pid
    ensures forall pid :: pid in ss[i].exited ==> pid < ss[i + 1].procs[es[i].l.np].pid
  {
    RunInv(ss, es, i);
    assert StepAt(ss, es, i);
    hide IsRun, Inv;
    assert PidOk(ss[i], q);
    var c := es[i].cpu;
    CpuAt(ss[i], c);
    ForkSlot(ss[i], ss[i + 1], c, ss[i].cpus[c].p, es[i].l, es[i].l.np);
  }

  // ------------------------------------------------------------------
  // kill and wakeup

  /** kill marks the process and leaves it not asleep. */
  lemma KillWakes(ss: seq<State>, es: seq<Event>, i: nat)
    requires IsRun(ss, es) && i < |es| && es[i].l.Kill?
    ensures var k, t := es[i].l.k, ss[i + 1]; k < |t.procs| && t.procs[k].killed && !t.procs[k].state.SLEEPING?
  {
    assert StepAt(ss, es, i);
  }

  lemma ExitKilled(s: State, t: State, c: nat, p: nat)
    requires c < |s.cpus| && p < |s.procs| && INIT < |s.procs| && ExitNext(s, c, p) == Some(t)
    ensures |t.procs| == |s.procs| && t.procs[p].killed == s.procs[p].killed
  {
  }

  /** A process is marked by kill and by nothing else, and stays marked until its slot is freed. */
  lemma KilledExactly(s: State, t: State, c: nat, l: Label, k: nat)
    requires Inv(s) && c < |s.cpus| && INIT < |s.procs| && Next(s, c, l) == Some(t) && k < |s.procs|
    ensures |t.procs| == |s.procs|
    ensures s.procs[k].killed ==> t.procs[k].killed || (t.procs[k] == FREED && !s.procs[k].state.UNUSED?)
    ensures !s.procs[k].killed ==> (t.procs[k].killed <==> l == Kill(k))
  {
    hide Inv, ExitNext, WaitNext, ForkNext, Exiting;
    if l.ExitStep? {
      var p := s.cpus[c].p;
      ExitFrame(s, t, c, p);
      ExitKilled(s, t, c, p);
    } else if l.WaitStep? {
      var p := s.cpus[c].p;
      RunsIn(s, c, p);
      WaitKilled(s, t, c, p, l.copied, k);
    } else if s.cpus[c].InProc? && s.cpus[c].p < |s.procs| {
      var p := s.cpus[c].p;
      RunsIn(s, c, p);
      ForkOnly(s, c, p, l);
      if ForkNext(s, c, p, l) == Some(t) {
        ForkKilled(s, t, c, p, l, k);
      }
    }
  }

  lemma WaitKilled(s: State, t: State, c: nat, p: nat, copied: bool, k: nat)
    requires Inv(s) && Runs(s, c, p) && WaitNext(s, c, p, copied) == Some(t) && k < |s.procs|
    ensures |t.procs| == |s.procs|
    ensures s.procs[k].killed ==> t.procs[k].killed || (t.procs[k] == FREED && !s.procs[k].state.UNUSED?)
    ensures !s.procs[k].killed ==> !t.procs[k].killed
  {
    hide Inv;
    OkAt(s, k);
  }

  lemma ForkKilled(s: State, t: State, c: nat, p: nat, l: Label, k: nat)
    requires Inv(s) && Runs(s, c, p) && ForkNext(s, c, p, l) == Some(t) && k < |s.procs|
    ensures |t.procs| == |s.procs|
    ensures s.procs[k].killed ==> t.procs[k].killed || (t.procs[k] == FREED && !s.procs[k].state.UNUSED?)
    ensures !s.procs[k].killed ==> !t.procs[k].killed
  {
    hide Inv, ParentOk, WaitOk;
    OkAt(s, p);
  }

  /** What wakes process k in this step, if it was asleep. */
  predicate Wakes(s: State, c: nat, l: Label, k: nat)
    requires k < |s.procs| && c < |s.cpus|
  {
    match l
    case Kill(j) => j == k
    case WakeOther(j, ch) => j == k && s.procs[k].chan == OtherChan(ch)
    case ExitStep =>
      && s.cpus[c].InProc? && s.cpus[c].p < |s.procs|
      && var x := s.procs[s.cpus[c].p];
         || (x.pc.ExitInitWake? && x.pc.k == k && s.procs[k].chan == ProcChan(INIT))
         || (x.pc.ExitWake? && x.pc.k == k && x.parent.Some? && s.procs[k].chan == ProcChan(x.parent.value))
    case _ => false
  }

  /** A sleeping process is woken by kill or by a wakeup of its own channel, and by nothing else. */
  lemma WokenExactly(s: State, t: State, c: nat, l: Label, k: nat)
    requires Inv(s) && c < |s.cpus| && INIT < |s.procs| && Next(s, c, l) == Some(t)
    requires k < |s.procs| && s.procs[k].state.SLEEPING?
    ensures |t.procs| == |s.procs| && t.procs[k].chan == s.procs[k].chan
    ensures t.procs[k].state == if Wakes(s, c, l, k) then RUNNABLE else SLEEPING
  {
    hide Inv, ForkNext, WaitNext, ExitNext, ParentOk, WaitOk, ForkOk;
    OkAt(s, k);
    CpuAt(s, c);
    if l.ExitStep? {
      ExitWoken(s, t, c, s.cpus[c].p, k);
    } else if l.WaitStep? {
      WaitLeaves(s, t, c, s.cpus[c].p, l.copied, k);
    } else if s.cpus[c].InProc? && ForkNext(s, c, s.cpus[c].p, l) == Some(t) {
      ForkLeaves(s, t, c, s.cpus[c].p, l, k);
    }
  }

  lemma ExitWoken(s: State, t: State, c: nat, p: nat, k: nat)
    requires Inv(s) && Runs(s, c, p) && INIT < |s.procs| && ExitNext(s, c, p) == Some(t)
    requires k < |s.procs| && s.procs[k].state.SLEEPING? && k != p
    ensures |t.procs| == |s.procs| && t.procs[k].chan == s.procs[k].chan
    ensures t.procs[k].state == if Wakes(s, c, ExitStep, k) then RUNNABLE else SLEEPING
  {
    hide Inv, ParentOk, WaitOk, ForkOk;
    OkAt(s, k);
  }

  lemma WaitLeaves(s: State, t: State, c: nat, p: nat, copied: bool, k: nat)
    requires Runs(s, c, p) && WaitNext(s, c, p, copied) == Some(t)
    requires k < |s.procs| && s.procs[k].state.SLEEPING? && k != p
    ensures |t.procs| == |s.procs| && t.procs[k].chan == s.procs[k].chan && t.procs[k].state.SLEEPING?
  {
  }

  lemma ForkLeaves(s: State, t: State, c: nat, p: nat, l: Label, k: nat)
    requires Inv(s) && Runs(s, c, p) && ForkNext(s, c, p, l) == Some(t)
    requires k < |s.procs| && s.procs[k].state.SLEEPING? && k != p
    ensures |t.procs| == |s.procs| && t.procs[k].chan == s.procs[k].chan && t.procs[k].state.SLEEPING?
  {
    hide Inv, ParentOk, WaitOk;
    OkAt(s, p);
  }

  /** sleep puts the caller to sleep on the channel it names. */
  lemma SleepsOn(ss: seq<State>, es: seq<Event>, i: nat, p: nat)
    requires IsRun(ss, es) && i < |es| && es[i].l.Sleep? && Runs(ss[i], es[i].cpu, p)
    ensures p < |ss[i + 1].procs| && ss[i + 1].procs[p].state.SLEEPING?
            && ss[i + 1].procs[p].chan == OtherChan(es[i].l.ch)
  {
    assert StepAt(ss, es, i);
  }

  // ------------------------------------------------------------------
  // Where calls begin and end

  /** wait is left only by a step of its own, exit never, and fork only when it fails or is done. */
  lemma CallsEnd(s: State, t: State, c: nat, l: Label, p: nat)
    requires Inv(s) && c < |s.cpus| && INIT < |s.procs| && Next(s, c, l) == Some(t) && p < |s.procs|
    ensures |t.procs| == |s.procs|
    ensures InWait(s.procs[p].pc) ==>
              InWait(t.procs[p].pc) || (Runs(s, c, p) && l.WaitStep? && t.procs[p].pc.Anywhere?)
    ensures Exiting(s.procs[p].pc) ==> Exiting(t.procs[p].pc) || t.procs[p] == FREED
    ensures ForkOf(s.procs[p].pc).Some? ==>
              || ForkOf(t.procs[p].pc) == ForkOf(s.procs[p].pc)
              || (Runs(s, c, p) && (l.ForkFail? || l.ForkRun?) && t.procs[p].pc.Anywhere?)
    ensures s.procs[p].pc.Anywhere? ==>
              || t.procs[p].pc.Anywhere?
              || (Runs(s, c, p) && (l.WaitBegin? || l.ExitBegin? || l.ForkAlloc? || l.Sleep?))
  {
    hide Inv, ForkNext, WaitNext, ExitNext, ProcOk, ParentOk, WaitOk, ForkOk, Exiting, InWait;
    if l.ExitStep? {
      ExitFrame(s, t, c, s.cpus[c].p);
      ExitOwn(s, t, c, s.cpus[c].p);
      PcKinds(s.procs[p].pc);
    } else if l.WaitStep? {
      WaitEnds(s, t, c, s.cpus[c].p, l.copied, p);
      PcKinds(s.procs[p].pc);
    } else if l.ForkAlloc? || l.ForkFail? || l.ForkRelease? || l.ForkParent? || l.ForkRun? {
      ForkEnds(s, t, c, s.cpus[c].p, l, p);
    } else {
      OtherEnds(s, t, c, l, p);
    }
  }

  lemma PcKinds(pc: Pc)
    ensures Exiting(pc) ==> !InWait(pc) && ForkOf(pc).None? && !pc.Anywhere?
    ensures InWait(pc) ==> ForkOf(pc).None? && !pc.Anywhere?
  {
  }

  lemma WaitEnds(s: State, t: State, c: nat, p: nat, copied: bool, q: nat)
    requires Inv(s) && Runs(s, c, p) && WaitNext(s, c, p, copied) == Some(t) && q < |s.procs|
    ensures |t.procs| == |s.procs| && (q != p ==> t.procs[q].pc == s.procs[q].pc || t.procs[q] == FREED)
    ensures q != p && t.procs[q].pc != s.procs[q].pc ==> Exiting(s.procs[q].pc)
    ensures InWait(s.procs[p].pc) && (InWait(t.procs[p].pc) || t.procs[p].pc.Anywhere?)
    ensures !Exiting(s.procs[p].pc) && ForkOf(s.procs[p].pc).None? && !s.procs[p].pc.Anywhere?
  {
    hide Inv, ParentOk, WaitOk, ForkOk, InWait;
    OkAt(s, q);
    WaitPcs(s, t, c, p, copied);
    PcKinds(s.procs[p].pc);
  }

  lemma ForkEnds(s: State, t: State, c: nat, p: nat, l: Label, q: nat)
    requires Inv(s) && Runs(s, c, p) && ForkNext(s, c, p, l) == Some(t) && q < |s.procs|
    ensures |t.procs| == |s.procs| && (q != p ==> t.procs[q].pc == s.procs[q].pc)
    ensures !InWait(s.procs[p].pc) && !Exiting(s.procs[p].pc)
    ensures s.procs[p].pc.Anywhere? ==> l.ForkAlloc?
    ensures ForkOf(s.procs[p].pc).Some? ==>
              ForkOf(t.procs[p].pc) == ForkOf(s.procs[p].pc) || ((l.ForkFail? || l.ForkRun?) && t.procs[p].pc.Anywhere?)
  {
    hide Inv, ParentOk, WaitOk;
    OkAt(s, p);
    OkAt(s, q);
  }

  lemma OtherEnds(s: State, t: State, c: nat, l: Label, p: nat)
    requires Inv(s) && c < |s.cpus| && INIT < |s.procs| && Next(s, c, l) == Some(t) && p < |s.procs|
    requires !l.ExitStep? && !l.WaitStep?
    requires !(l.ForkAlloc? || l.ForkFail? || l.ForkRelease? || l.ForkParent? || l.ForkRun?)
    ensures |t.procs| == |s.procs|
    ensures t.procs[p].pc != s.procs[p].pc ==>
              && Runs(s, c, p)
              && (|| (s.procs[p].pc.Anywhere? && (l.WaitBegin? || l.ExitBegin? || l.Sleep?))
                  || (s.procs[p].pc.WaitAsleep? && t.procs[p].pc.WaitRetry?)
                  || (s.procs[p].pc.OtherAsleep? && t.procs[p].pc.Anywhere?))
    ensures InWait(WaitAsleep) && InWait(WaitRetry) && !Exiting(WaitAsleep)
    ensures !Exiting(OtherAsleep) && !InWait(OtherAsleep) && !InWait(Anywhere) && !Exiting(Anywhere)
  {
    hide Inv, ExitNext, WaitNext;
  }
}
