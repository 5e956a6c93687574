/** sleeplock.c over sleep() and wakeup() of proc.c: one sleep lock, any number of
processes, one step for each acquire or release of a spinlock and for each store in
between. kill() may wake a sleeper at any time. */
module SleepLock {
  import opened Wrappers

  /** Where a process stands in acquiresleep, sleep or releasesleep. */
  datatype Pc =
    | Idle       // not using the lock
    | Acquire    // at acquire(&lk->lk), in acquiresleep or at the end of sleep
    | Test       // holds lk->lk, at the test of lk->locked
    | Sleep0     // in sleep, holds lk->lk, at acquire(&ptable.lock)
    | Sleep1     // holds both, at release(lk)
    | Sleep2     // holds ptable.lock, about to set SLEEPING and call sched
    | Asleep     // SLEEPING on chan lk
    | Ready      // RUNNABLE
    | Woken      // running again with ptable.lock handed to it
    | Holds      // has the sleep lock
    | Release0   // in releasesleep, at acquire(&lk->lk)
    | Release1   // holds lk->lk, at the store to lk->locked
    | Release2   // in wakeup, at acquire(&ptable.lock)
    | Release3   // holds both, at wakeup1
    | Release4   // holds lk->lk, at its release

  /** Who holds ptable.lock. */
  datatype PLock = Free | ByProc(p: nat) | BySched

  datatype Sys = Sys(pcs: seq<Pc>, locked: bool, lk: Option<nat>, ptable: PLock)

  predicate At(s: Sys, p: nat, pc: Pc) {
    p < |s.pcs| && s.pcs[p] == pc
  }

  function Move(s: Sys, p: nat, pc: Pc): Sys
    requires p < |s.pcs|
  {
    s.(pcs := s.pcs[p := pc])
  }

  function WakeAll(pcs: seq<Pc>): (r: seq<Pc>)
    ensures |r| == |pcs| && forall i :: 0 <= i < |pcs| ==> r[i] == if pcs[i] == Asleep then Ready else pcs[i]
  {
    seq(|pcs|, i requires 0 <= i < |pcs| => if pcs[i] == Asleep then Ready else pcs[i])
  }

  datatype Label =
    | CallAcquire(p: nat)
    | TakeLk(p: nat)       // acquire(&lk->lk) at Acquire or Release0
    | TestLocked(p: nat)
    | TakePtable(p: nat)   // acquire(&ptable.lock) at Sleep0 or Release2
    | DropLk(p: nat)       // release(lk) in sleep
    | GoToSleep(p: nat)
    | SchedRelease
    | SchedTake
    | Dispatch(p: nat)
    | Tidy(p: nat)
    | CallRelease(p: nat)
    | Unlock(p: nat)
    | WakeUp(p: nat)
    | Finish(p: nat)
    | Kill(p: nat)

  predicate Enabled(s: Sys, l: Label) {
    match l
    case CallAcquire(p) => At(s, p, Idle)
    case TakeLk(p) => (At(s, p, Acquire) || At(s, p, Release0)) && s.lk == None
    case TestLocked(p) => At(s, p, Test)
    case TakePtable(p) => (At(s, p, Sleep0) || At(s, p, Release2)) && s.ptable == Free
    case DropLk(p) => At(s, p, Sleep1)
    case GoToSleep(p) => At(s, p, Sleep2)
    case SchedRelease => s.ptable == BySched
    case SchedTake => s.ptable == Free
    case Dispatch(p) => At(s, p, Ready) && s.ptable == BySched
    case Tidy(p) => At(s, p, Woken)
    case CallRelease(p) => At(s, p, Holds)
    case Unlock(p) => At(s, p, Release1)
    case WakeUp(p) => At(s, p, Release3)
    case Finish(p) => At(s, p, Release4)
    case Kill(p) => At(s, p, Asleep) && s.ptable == Free
  }

  function Do(s: Sys, l: Label): (t: Sys)
    requires Enabled(s, l)
  {
    match l
    case CallAcquire(p) => Move(s, p, Acquire)
    case TakeLk(p) => Move(s, p, if s.pcs[p] == Acquire then Test else Release1).(lk := Some(p))
    case TestLocked(p) => if s.locked then Move(s, p, Sleep0) else Move(s, p, Holds).(locked := true, lk := None)
    case TakePtable(p) => Move(s, p, if s.pcs[p] == Sleep0 then Sleep1 else Release3).(ptable := ByProc(p))
    case DropLk(p) => Move(s, p, Sleep2).(lk := None)
    case GoToSleep(p) => Move(s, p, Asleep).(ptable := BySched)
    case SchedRelease => s.(ptable := Free)
    case SchedTake => s.(ptable := BySched)
    case Dispatch(p) => Move(s, p, Woken).(ptable := ByProc(p))
    case Tidy(p) => Move(s, p, Acquire).(ptable := Free)
    case CallRelease(p) => Move(s, p, Release0)
    case Unlock(p) => Move(s, p, Release2).(locked := false)
    case WakeUp(p) => s.(pcs := WakeAll(s.pcs)[p := Release4], ptable := Free)
    case Finish(p) => Move(s, p, Idle).(lk := None)
    case Kill(p) => Move(s, p, Ready)
  }

  predicate Initial(s: Sys) {
    !s.locked && s.lk == None && s.ptable == Free && forall p :: 0 <= p < |s.pcs| ==> s.pcs[p] == Idle
  }

  predicate IsRun(s: Sys, ls: seq<Label>)
    decreases |ls|
  {
    ls == [] || (Enabled(s, ls[0]) && IsRun(Do(s, ls[0]), ls[1..]))
  }

  function RunFrom(s: Sys, ls: seq<Label>): (t: Sys)
    requires IsRun(s, ls)
    decreases |ls|
  {
    if ls == [] then s else RunFrom(Do(s, ls[0]), ls[1..])
  }

  // ------------------------------------------------------------------
  // The invariant

  /** The process has the sleep lock: it returned from acquiresleep and has not stored 0
      in releasesleep. */
  predicate Owner(pc: Pc) {
    pc == Holds || pc == Release0 || pc == Release1
  }

  predicate HoldsLk(pc: Pc) {
    pc == Test || pc == Sleep0 || pc == Sleep1 || pc == Release1 || pc == Release2 || pc == Release3 || pc == Release4
  }

  predicate HoldsPtable(pc: Pc) {
    pc == Sleep1 || pc == Sleep2 || pc == Woken || pc == Release3
  }

  /** The lock's holder is on its way to wake everybody. */
  predicate Waking(s: Sys) {
    s.lk.Some? && s.lk.value < |s.pcs| && (s.pcs[s.lk.value] == Release2 || s.pcs[s.lk.value] == Release3)
  }

  predicate ProcOk(s: Sys, p: nat)
    requires p < |s.pcs|
  {
    var pc := s.pcs[p];
    && (HoldsLk(pc) <==> s.lk == Some(p))
    && (HoldsPtable(pc) <==> s.ptable == ByProc(p))
    && (Owner(pc) ==> s.locked)
    && (pc == Sleep0 || pc == Sleep1 ==> s.locked)
    && (pc == Sleep2 || pc == Asleep ==> s.locked || Waking(s))
  }

  predicate Clash(s: Sys, p: nat, q: nat) {
    p < |s.pcs| && q < |s.pcs| && p != q && Owner(s.pcs[p]) && Owner(s.pcs[q])
  }

  ghost predicate Inv(s: Sys) {
    && (forall p {:trigger ProcOk(s, p)} :: 0 <= p < |s.pcs| ==> ProcOk(s, p))
    && (forall p, q {:trigger Clash(s, p, q)} :: !Clash(s, p, q))
    && (s.lk.Some? ==> s.lk.value < |s.pcs|) && (s.ptable.ByProc? ==> s.ptable.p < |s.pcs|)
  }

  /** The process that takes the step, if it is one. */
  function Actor(l: Label): Option<nat> {
    match l
    case SchedRelease => None
    case SchedTake => None
    case CallAcquire(p) => Some(p)
    case TakeLk(p) => Some(p)
    case TestLocked(p) => Some(p)
    case TakePtable(p) => Some(p)
    case DropLk(p) => Some(p)
    case GoToSleep(p) => Some(p)
    case Dispatch(p) => Some(p)
    case Tidy(p) => Some(p)
    case CallRelease(p) => Some(p)
    case Unlock(p) => Some(p)
    case WakeUp(p) => Some(p)
    case Finish(p) => Some(p)
    case Kill(p) => Some(p)
  }

  lemma LkStep(s: Sys, l: Label, p: nat)
    requires Enabled(s, l) && p < |s.pcs| && (l.TakeLk? || l.TestLocked? || l.DropLk? || l.Unlock? || l.Finish?)
    requires ProcOk(s, p) && ProcOk(s, Actor(l).value) && !Clash(s, Actor(l).value, p)
    ensures ProcOk(Do(s, l), p)
  {
  }

  lemma PtableStep(s: Sys, l: Label, p: nat)
    requires Enabled(s, l) && p < |s.pcs| && (l.TakePtable? || l.GoToSleep? || l.Dispatch? || l.Tidy?)
    requires ProcOk(s, p) && ProcOk(s, Actor(l).value)
    ensures ProcOk(Do(s, l), p)
  {
  }

  lemma WakeStep(s: Sys, a: nat, p: nat)
    requires Enabled(s, WakeUp(a)) && p < |s.pcs| && ProcOk(s, p) && ProcOk(s, a)
    ensures ProcOk(Do(s, WakeUp(a)), p)
  {
  }

  lemma OtherStep(s: Sys, l: Label, p: nat)
    requires Inv(s) && Enabled(s, l) && p < |s.pcs| && (l.CallAcquire? || l.CallRelease? || l.Kill? || l.SchedRelease? || l.SchedTake?)
    ensures ProcOk(Do(s, l), p)
  {
    assert ProcOk(s, p);
    if Actor(l).Some? {
      assert ProcOk(s, Actor(l).value);
    }
  }

  /** The lock is taken only by a process that finds it free. */
  lemma BecomesOwner(s: Sys, l: Label, p: nat)
    requires Enabled(s, l) && p < |s.pcs| && p < |Do(s, l).pcs| && Owner(Do(s, l).pcs[p])
    ensures Owner(s.pcs[p]) || (l == TestLocked(p) && !s.locked)
  {
  }

  lemma NoClash(s: Sys, l: Label, p: nat, q: nat)
    requires Inv(s) && Enabled(s, l)
    ensures !Clash(Do(s, l), p, q)
  {
    var t := Do(s, l);
    if Clash(t, p, q) {
      assert !Clash(s, p, q) && ProcOk(s, p) && ProcOk(s, q);
      BecomesOwner(s, l, p);
      BecomesOwner(s, l, q);
    }
  }

  lemma StepOk(s: Sys, l: Label)
    requires Inv(s) && Enabled(s, l)
    ensures Inv(Do(s, l))
  {
    var t := Do(s, l);
    forall p | 0 <= p < |t.pcs| ensures ProcOk(t, p) {
      assert ProcOk(s, p);
      if Actor(l).Some? {
        assert ProcOk(s, Actor(l).value) && !Clash(s, Actor(l).value, p);
      }
      if l.TakeLk? || l.TestLocked? || l.DropLk? || l.Unlock? || l.Finish? {
        LkStep(s, l, p);
      } else if l.TakePtable? || l.GoToSleep? || l.Dispatch? || l.Tidy? {
        PtableStep(s, l, p);
      } else if l.WakeUp? {
        WakeStep(s, l.p, p);
      } else {
        OtherStep(s, l, p);
      }
    }
    forall p, q ensures !Clash(t, p, q) {
      NoClash(s, l, p, q);
    }
  }

  lemma {:induction false} RunOk(s: Sys, ls: seq<Label>)
    requires Inv(s) && IsRun(s, ls)
    ensures Inv(RunFrom(s, ls))
    decreases |ls|
  {
    if ls != [] {
      StepOk(s, ls[0]);
      RunOk(Do(s, ls[0]), ls[1..]);
    }
  }

  /** In every run at most one process has the sleep lock, and lk->locked is 1 while one
      does. */
  lemma MutualExclusion(s: Sys, ls: seq<Label>, p: nat, q: nat)
    requires Initial(s) && IsRun(s, ls)
    requires p < |RunFrom(s, ls).pcs| && q < |RunFrom(s, ls).pcs|
    requires Owner(RunFrom(s, ls).pcs[p]) && Owner(RunFrom(s, ls).pcs[q])
    ensures p == q && RunFrom(s, ls).locked
  {
    assert forall x :: 0 <= x < |s.pcs| ==> ProcOk(s, x);
    RunOk(s, ls);
    var t := RunFrom(s, ls);
    assert ProcOk(t, p) && !Clash(t, p, q);
  }

  /** No wakeup is lost: whenever both spinlocks are free, a process asleep on the lock
      sleeps because the lock is taken. */
  lemma SleeperMeansLocked(s: Sys, ls: seq<Label>, p: nat)
    requires Initial(s) && IsRun(s, ls)
    requires At(RunFrom(s, ls), p, Asleep) && RunFrom(s, ls).lk == None && RunFrom(s, ls).ptable == Free
    ensures RunFrom(s, ls).locked
  {
    assert forall x :: 0 <= x < |s.pcs| ==> ProcOk(s, x);
    RunOk(s, ls);
    assert ProcOk(RunFrom(s, ls), p);
  }
}
