/** What every run of the process table keeps: no wakeup between exit and wait is lost,
and a process's stack and page table are freed once, when no CPU uses them. */
module ExitWait {
  import opened Wrappers
  import opened ProcTable

  /** x sleeps in wait(). */
  predicate InWaitSleep(s: Sys, x: nat) {
    x < |s.procs| && s.procs[x].state == SLEEPING && s.procs[x].chan == WaitOn(x)
  }

  predicate ZombieChild(s: Sys, x: nat, q: nat) {
    q < |s.procs| && s.procs[q].parent == Some(x) && s.procs[q].state == ZOMBIE
  }

  /** The process's own record is consistent. */
  predicate RecordOk(q: Proc) {
    && (q.state == UNUSED ==> q.pc == NoThread && !q.kstack && !q.pgdir && q.parent == None && q.on == None && q.maker == None)
    && (q.state == EMBRYO ==> q.pc == NoThread && q.on == None && q.maker.Some?)
    && (q.state == ZOMBIE <==> q.pc == Parked(Never))
    && (q.state == RUNNABLE || q.state == SLEEPING ==> q.pc.Parked?)
    && (q.state == SLEEPING ==> q.pc.r == InSleep || q.pc.r == InWait)
    && (q.pc.NoThread? ==> q.state == UNUSED || q.state == EMBRYO)
    && (!q.pc.NoThread? ==> q.kstack && q.pgdir && q.maker == None)
    && (!q.pc.NoThread? && !q.pc.Parked? ==> q.state == RUNNING)
    && (q.state == RUNNING ==> q.on.Some?)
    && (q.making.Some? ==> q.pc == Out || q.pc == Parked(InYield))
  }

  /** What process p's record says about the lock and the CPU it is on. */
  predicate PlaceOk(s: Sys, p: nat)
    requires p < |s.procs|
  {
    var q := s.procs[p];
    && (q.on.Some? ==> q.on.value < |s.cpus| && s.cpus[q.on.value].stack == Some(p))
    && (q.on.Some? && q.pc.Parked? ==> s.lock == ByProc(p))
    && (q.pc.ExitWake? || q.pc.ExitLoop? || q.pc.WaitScan? ==> s.lock == ByProc(p))
    && (q.pc.Out? ==> s.lock != ByProc(p))
    && (q.state == SLEEPING && q.chan.WaitOn? ==> q.chan.p == p)
    && q.parent != Some(p)
  }

  /** What process p is in the middle of. */
  ghost predicate TaskOk(s: Sys, p: nat)
    requires p < |s.procs|
  {
    match s.procs[p].pc
    case ExitWake => p != s.initproc
    case ExitLoop(i) => i <= |s.procs| && p != s.initproc && (s.procs[p].parent.Some? ==> !InWaitSleep(s, s.procs[p].parent.value))
    case WaitScan(i, kids) => i <= |s.procs| && forall j {:trigger ZombieChild(s, p, j)} :: 0 <= j < i ==> !ZombieChild(s, p, j)
    case _ => true
  }

  /** The child p is making is as far as p says. */
  predicate MakingOk(s: Sys, p: nat)
    requires p < |s.procs|
  {
    match s.procs[p].making
    case None => true
    case Some(Making(c, stage)) =>
      && c < |s.procs| && s.procs[c].state == EMBRYO && s.procs[c].maker == Some(p) && stage <= UNDONE
      && (s.procs[c].kstack <==> 1 <= stage <= 3) && (s.procs[c].pgdir <==> 2 <= stage <= 3)
      && (stage != 3 ==> s.procs[c].parent == None)
  }

  ghost predicate ProcOk(s: Sys, p: nat)
    requires p < |s.procs|
  {
    RecordOk(s.procs[p]) && PlaceOk(s, p) && TaskOk(s, p) && MakingOk(s, p)
  }

  /** A CPU on a process's stack runs that process, and uses its page table; off it, it
      may still have the page table loaded, until the scheduler lets go of the lock. */
  predicate CpuOk(s: Sys, c: nat)
    requires c < |s.cpus|
  {
    var k := s.cpus[c];
    && (k.stack.Some? ==> k.stack.value < |s.procs| && s.procs[k.stack.value].on == Some(c) && k.cr3 == k.stack)
    && (k.stack == None && k.cr3.Some? ==> s.lock == BySched(c))
  }

  predicate LockOk(s: Sys) {
    && (s.lock.ByProc? ==> s.lock.p < |s.procs| && s.procs[s.lock.p].on.Some?)
    && (s.lock.BySched? ==> s.lock.c < |s.cpus| && s.cpus[s.lock.c].stack == None)
  }

  ghost predicate Inv(s: Sys) {
    && s.initproc < |s.procs| && s.procs[s.initproc].state != ZOMBIE && !s.procs[s.initproc].pc.NoThread? && s.procs[s.initproc].parent == None
    && (forall p {:trigger ProcOk(s, p)} :: 0 <= p < |s.procs| ==> ProcOk(s, p))
    && (forall c {:trigger CpuOk(s, c)} :: 0 <= c < |s.cpus| ==> CpuOk(s, c))
    && LockOk(s)
    && (forall x, q {:trigger InWaitSleep(s, x), ZombieChild(s, x, q)} :: InWaitSleep(s, x) ==> !ZombieChild(s, x, q))
  }

  // ------------------------------------------------------------------

  /** Steps that do not put anyone to sleep in wait() or make anyone a zombie child. */
  ghost predicate Calm(s: Sys, t: Sys) {
    && (forall x {:trigger InWaitSleep(t, x)} :: InWaitSleep(t, x) ==> InWaitSleep(s, x))
    && (forall x, q {:trigger ZombieChild(t, x, q)} :: ZombieChild(t, x, q) ==> ZombieChild(s, x, q))
  }

  /** x is a bystander of the step from s to t. */
  predicate Bystander(s: Sys, t: Sys, x: nat) {
    && x < |s.procs| == |t.procs| && t.procs[x] == s.procs[x] && t.initproc == s.initproc
    && |t.cpus| == |s.cpus|
    && (s.lock == ByProc(x) <==> t.lock == ByProc(x))
    && (s.procs[x].on.Some? && s.procs[x].on.value < |s.cpus| ==> t.cpus[s.procs[x].on.value].stack == s.cpus[s.procs[x].on.value].stack)
    && (s.procs[x].making.Some? && s.procs[x].making.value.child < |s.procs| ==>
          var c := s.procs[x].making.value.child;
          && t.procs[c].state == s.procs[c].state && t.procs[c].maker == s.procs[c].maker && t.procs[c].parent == s.procs[c].parent
          && t.procs[c].kstack == s.procs[c].kstack && t.procs[c].pgdir == s.procs[c].pgdir)
  }

  lemma BystanderOk(s: Sys, t: Sys, x: nat)
    requires Bystander(s, t, x) && ProcOk(s, x) && Calm(s, t)
    ensures ProcOk(t, x)
  {
    if t.procs[x].pc.WaitScan? {
      forall j | 0 <= j < t.procs[x].pc.i ensures !ZombieChild(t, x, j) {
        assert !ZombieChild(s, x, j);
      }
    }
  }

  /** The same when the lock belongs to somebody else or to nobody: x cannot be in the
      middle of exit() or wait(), so it does not matter who falls asleep or dies. */
  lemma BystanderFree(s: Sys, t: Sys, x: nat)
    requires Bystander(s, t, x) && ProcOk(s, x) && s.lock != ByProc(x)
    ensures ProcOk(t, x)
  {
  }

  lemma CalmWait(s: Sys, t: Sys)
    requires Calm(s, t)
    requires forall x, q {:trigger InWaitSleep(s, x), ZombieChild(s, x, q)} :: InWaitSleep(s, x) ==> !ZombieChild(s, x, q)
    ensures forall x, q {:trigger InWaitSleep(t, x), ZombieChild(t, x, q)} :: InWaitSleep(t, x) ==> !ZombieChild(t, x, q)
  {
  }

  lemma SameCpus(s: Sys, t: Sys)
    requires Inv(s) && t.cpus == s.cpus && |t.procs| == |s.procs|
    requires forall p :: 0 <= p < |s.procs| ==> t.procs[p].on == s.procs[p].on
    requires s.lock.BySched? ==> t.lock == s.lock
    ensures forall c {:trigger CpuOk(t, c)} :: 0 <= c < |t.cpus| ==> CpuOk(t, c)
  {
    forall c | 0 <= c < |t.cpus| ensures CpuOk(t, c) {
      assert CpuOk(s, c);
    }
  }

  predicate MineOrFree(l: Lock, p: nat) {
    l == Free || l == ByProc(p)
  }

  /** A step in which p, under the lock, changes its own record and no other. */
  predicate Own(s: Sys, t: Sys, p: nat) {
    && p < |s.procs| == |t.procs| && t.procs == s.procs[p := t.procs[p]]
    && t.cpus == s.cpus && t.initproc == s.initproc
    && MineOrFree(s.lock, p) && MineOrFree(t.lock, p)
    && (t.lock == ByProc(p) ==> t.procs[p].on.Some?)
    && t.procs[p].on == s.procs[p].on && t.procs[p].parent == s.procs[p].parent && !s.procs[p].pc.NoThread? && !t.procs[p].pc.NoThread?
  }

  lemma OwnStep(s: Sys, t: Sys, p: nat)
    requires Inv(s) && Own(s, t, p) && ProcOk(t, p)
    requires t.procs[p].state == ZOMBIE ==> p != s.initproc
    requires forall x, q {:trigger InWaitSleep(t, x), ZombieChild(t, x, q)} :: InWaitSleep(t, x) ==> !ZombieChild(t, x, q)
    ensures Inv(t)
  {
    assert ProcOk(s, p);
    forall x | 0 <= x < |t.procs| ensures ProcOk(t, x) {
      assert ProcOk(s, x);
      if x != p {
        BystanderFree(s, t, x);
      }
    }
    SameCpus(s, t);
  }

  lemma OwnCalm(s: Sys, t: Sys, p: nat)
    requires Inv(s) && Own(s, t, p) && ProcOk(t, p)
    requires t.procs[p].state != ZOMBIE && !InWaitSleep(t, p)
    ensures Inv(t)
  {
    forall x | InWaitSleep(t, x) ensures InWaitSleep(s, x) {
      assert x != p;
    }
    CalmWait(s, t);
    OwnStep(s, t, p);
  }

  // ------------------------------------------------------------------
  // exit()

  lemma EnterExitOk(s: Sys, p: nat)
    requires Inv(s) && CanEnter(s, p) && p != s.initproc
    ensures Inv(DoEnterExit(s, p))
  {
    assert ProcOk(s, p);
    OwnCalm(s, DoEnterExit(s, p), p);
  }

  lemma WokenCalm(s: Sys, t: Sys, ch: Chan)
    requires t == s.(procs := Woken(s.procs, ch))
    ensures Calm(s, t)
    ensures ch.WaitOn? ==> !InWaitSleep(t, ch.p)
  {
  }

  /** Waking is harmless to everyone: a sleeping process becomes runnable. */
  lemma WokenOk(s: Sys, ch: Chan)
    requires Inv(s)
    ensures Inv(s.(procs := Woken(s.procs, ch)))
  {
    var t := s.(procs := Woken(s.procs, ch));
    WokenCalm(s, t, ch);
    forall x | 0 <= x < |t.procs| ensures ProcOk(t, x) {
      assert ProcOk(s, x);
      if t.procs[x] == s.procs[x] {
        BystanderOk(s, t, x);
      }
    }
    SameCpus(s, t);
    CalmWait(s, t);
  }

  lemma WakeParentOk(s: Sys, p: nat)
    requires Inv(s) && At(s, p, ExitWake)
    ensures Inv(DoExitWake(s, p))
  {
    var ch := ParentChan(s.procs[p].parent);
    var u := s.(procs := Woken(s.procs, ch));
    assert ProcOk(s, p);
    WokenOk(s, ch);
    WokenCalm(s, u, ch);
    assert ProcOk(u, p);
    var t := DoExitWake(s, p);
    assert s.procs[p].parent.Some? ==> !InWaitSleep(u, s.procs[p].parent.value);
    assert ProcOk(t, p);
    OwnCalm(u, t, p);
  }

  /** Passing on a child, once init is awake if the child is a zombie. */
  lemma PassOn(s: Sys, p: nat, i: nat)
    requires Inv(s) && p < |s.procs| && s.procs[p].pc.ExitLoop? && i < |s.procs| && s.procs[i].parent == Some(p)
    requires s.procs[i].state == ZOMBIE ==> !InWaitSleep(s, s.initproc)
    ensures Inv(Set(s, i, s.procs[i].(parent := Some(s.initproc))))
  {
    var t := Set(s, i, s.procs[i].(parent := Some(s.initproc)));
    assert ProcOk(s, p) && ProcOk(s, i);
    forall x | 0 <= x < |t.procs| ensures ProcOk(t, x) {
      assert ProcOk(s, x);
      if x != i && x != p {
        assert s.procs[x].making.None? || s.procs[x].making.value.child != i || s.procs[x].making.value.stage == 3;
      }
    }
    SameCpus(s, t);
    forall x, q | InWaitSleep(t, x) ensures !ZombieChild(t, x, q) {
      assert InWaitSleep(s, x);
      assert !ZombieChild(s, x, q);
    }
  }

  lemma ExitChildOk(s: Sys, p: nat, i: nat)
    requires Inv(s) && At(s, p, ExitLoop(i)) && i < |s.procs|
    ensures Inv(DoExitChild(s, p, i))
  {
    var w := s;
    assert ProcOk(s, p) && ProcOk(s, i);
    if s.procs[i].parent == Some(p) {
      if s.procs[i].state == ZOMBIE {
        w := s.(procs := Woken(s.procs, WaitOn(s.initproc)));
        WokenOk(s, WaitOn(s.initproc));
        WokenCalm(s, w, WaitOn(s.initproc));
      }
      PassOn(w, p, i);
      w := Set(w, i, w.procs[i].(parent := Some(s.initproc)));
      assert DoExitChild(s, p, i).procs == w.procs[p := w.procs[p].(pc := ExitLoop(i + 1))];
    }
    assert ProcOk(w, p);
    OwnCalm(w, DoExitChild(s, p, i), p);
  }

  /** The parent was woken before, and the lock has been held since. */
  lemma DieOk(s: Sys, p: nat)
    requires Inv(s) && At(s, p, ExitLoop(|s.procs|))
    ensures Inv(DoExitZombie(s, p))
  {
    var t := DoExitZombie(s, p);
    assert ProcOk(s, p);
    forall x, q | InWaitSleep(t, x) ensures !ZombieChild(t, x, q) {
      assert InWaitSleep(s, x);
      if q != p {
        assert !ZombieChild(s, x, q);
      }
    }
    OwnStep(s, t, p);
  }

  // ------------------------------------------------------------------
  // wait()

  lemma EnterWaitOk(s: Sys, p: nat)
    requires Inv(s) && CanEnter(s, p)
    ensures Inv(DoEnterWait(s, p))
  {
    assert ProcOk(s, p);
    OwnCalm(s, DoEnterWait(s, p), p);
  }

  /** What wait() frees is there to be freed, and no CPU is on the stack or has the page
      table loaded. */
  lemma ReapIsSafe(s: Sys, p: nat, i: nat, kids: bool)
    requires Inv(s) && At(s, p, WaitScan(i, kids)) && i < |s.procs| && ZombieChild(s, p, i)
    ensures s.procs[i].kstack && s.procs[i].pgdir && i != p && s.procs[i].on == None
    ensures forall c :: 0 <= c < |s.cpus| ==> s.cpus[c].stack != Some(i) && s.cpus[c].cr3 != Some(i)
  {
    assert ProcOk(s, p) && ProcOk(s, i);
    forall c | 0 <= c < |s.cpus| ensures s.cpus[c].stack != Some(i) && s.cpus[c].cr3 != Some(i) {
      assert CpuOk(s, c);
    }
  }

  /** Clearing a zombie's slot concerns nobody else. */
  lemma ReapSlot(s: Sys, p: nat, i: nat, kids: bool)
    requires Inv(s) && At(s, p, WaitScan(i, kids)) && i < |s.procs| && ZombieChild(s, p, i)
    ensures Inv(Set(s, i, Reaped(s.procs[i])))
  {
    var t := Set(s, i, Reaped(s.procs[i]));
    ReapIsSafe(s, p, i, kids);
    assert ProcOk(s, p) && ProcOk(s, i);
    forall x | 0 <= x < |t.procs| ensures ProcOk(t, x) {
      assert ProcOk(s, x);
      if x != i {
        BystanderOk(s, t, x);
      }
    }
    SameCpus(s, t);
    CalmWait(s, t);
  }

  lemma WaitSlotOk(s: Sys, p: nat, i: nat, kids: bool)
    requires Inv(s) && At(s, p, WaitScan(i, kids)) && i < |s.procs|
    ensures Inv(DoWaitSlot(s, p, i, kids))
  {
    var t := DoWaitSlot(s, p, i, kids);
    assert ProcOk(s, p);
    if ZombieChild(s, p, i) {
      ReapIsSafe(s, p, i, kids);
      ReapSlot(s, p, i, kids);
      var u := Set(s, i, Reaped(s.procs[i]));
      assert ProcOk(u, p);
      OwnCalm(u, t, p);
    } else {
      forall j | 0 <= j < i + 1 ensures !ZombieChild(t, p, j) {
        assert !ZombieChild(s, p, j);
      }
      OwnCalm(s, t, p);
    }
  }

  /** Going to sleep in wait(): the scan, under the lock, has seen no zombie child. */
  lemma WaitEndOk(s: Sys, p: nat, kids: bool)
    requires Inv(s) && At(s, p, WaitScan(|s.procs|, kids))
    ensures Inv(DoWaitEnd(s, p, kids))
  {
    var t := DoWaitEnd(s, p, kids);
    assert ProcOk(s, p);
    if !kids || s.procs[p].killed {
      OwnCalm(s, t, p);
    } else {
      forall x, q | InWaitSleep(t, x) ensures !ZombieChild(t, x, q) {
        assert x != p ==> InWaitSleep(s, x);
        assert !ZombieChild(s, x, q);
      }
      OwnStep(s, t, p);
    }
  }

  // ------------------------------------------------------------------
  // yield(), sleep(), wakeup(), kill()

  lemma YieldOk(s: Sys, p: nat)
    requires Inv(s) && CanYield(s, p)
    ensures Inv(DoYield(s, p))
  {
    assert ProcOk(s, p);
    OwnCalm(s, DoYield(s, p), p);
  }

  lemma SleepOk(s: Sys, p: nat, k: nat)
    requires Inv(s) && CanEnter(s, p)
    ensures Inv(DoSleep(s, p, k))
  {
    assert ProcOk(s, p);
    OwnCalm(s, DoSleep(s, p, k), p);
  }

  lemma KillOk(s: Sys, p: nat)
    requires Inv(s) && s.lock == Free && p < |s.procs|
    ensures Inv(DoKill(s, p))
  {
    var t := DoKill(s, p);
    assert ProcOk(s, p);
    forall x | 0 <= x < |t.procs| ensures ProcOk(t, x) {
      assert ProcOk(s, x);
      if x != p {
        BystanderFree(s, t, x);
      }
    }
    SameCpus(s, t);
    CalmWait(s, t);
  }

  lemma ResumeOk(s: Sys, p: nat)
    requires Inv(s) && CanResume(s, p)
    ensures s.procs[p].pc.r != Never && Inv(DoResume(s, p))
  {
    assert ProcOk(s, p);
    OwnCalm(s, DoResume(s, p), p);
  }

  // ------------------------------------------------------------------
  // fork()

  /** A step in which p changes its own position and the slot of the child it makes. */
  predicate Makes(s: Sys, t: Sys, p: nat, c: nat) {
    && p < |s.procs| == |t.procs| && c < |s.procs| && c != p
    && t.procs == s.procs[c := t.procs[c]][p := t.procs[p]]
    && t.cpus == s.cpus && t.initproc == s.initproc && t.lock == s.lock && c != s.initproc
    && t.procs[c].on == s.procs[c].on == None && s.procs[c].state != ZOMBIE && t.procs[c].state != ZOMBIE && t.procs[c].state != SLEEPING
    && t.procs[p] == s.procs[p].(making := t.procs[p].making) && s.procs[p].state == RUNNING
    && s.procs[c].maker.Some? == (s.procs[c].state == EMBRYO) && (s.procs[c].maker.Some? ==> s.procs[c].maker == Some(p))
  }

  lemma MakesOk(s: Sys, t: Sys, p: nat, c: nat)
    requires Inv(s) && Makes(s, t, p, c) && ProcOk(t, p) && ProcOk(t, c)
    ensures Inv(t)
  {
    assert Calm(s, t);
    forall x | 0 <= x < |t.procs| ensures ProcOk(t, x) {
      assert ProcOk(s, x);
      if x != p && x != c {
        BystanderOk(s, t, x);
      }
    }
    SameCpus(s, t);
    CalmWait(s, t);
  }

  lemma ForkOk(s: Sys, p: nat, c: nat)
    requires Inv(s) && CanFork(s, p, c)
    ensures Inv(DoFork(s, p, c))
  {
    assert ProcOk(s, p) && ProcOk(s, c) && ProcOk(s, s.initproc);
    MakesOk(s, DoFork(s, p, c), p, c);
  }

  lemma ForkStageOk(s: Sys, p: nat, c: nat, stage: nat)
    requires Inv(s) && AtFork(s, p, c, stage) && stage < 4
    ensures Inv(DoForkStage(s, p, c, stage))
  {
    assert ProcOk(s, p) && ProcOk(s, c) && ProcOk(s, s.initproc);
    MakesOk(s, DoForkStage(s, p, c, stage), p, c);
  }

  lemma ForkUndoOk(s: Sys, p: nat, c: nat)
    requires Inv(s) && AtFork(s, p, c, 1)
    ensures Inv(DoForkUndo(s, p, c))
  {
    assert ProcOk(s, p) && ProcOk(s, c) && ProcOk(s, s.initproc);
    MakesOk(s, DoForkUndo(s, p, c), p, c);
  }

  lemma ForkFailOk(s: Sys, p: nat, c: nat)
    requires Inv(s) && (AtFork(s, p, c, 0) || AtFork(s, p, c, UNDONE))
    ensures Inv(DoForkFail(s, p, c))
  {
    assert ProcOk(s, p) && ProcOk(s, c) && ProcOk(s, s.initproc);
    MakesOk(s, DoForkFail(s, p, c), p, c);
  }

  // ------------------------------------------------------------------
  // The scheduler

  lemma SwtchOk(s: Sys, p: nat, c: nat)
    requires Inv(s) && CanSwtch(s, p, c)
    ensures Inv(DoSwtch(s, p, c))
  {
    var t := DoSwtch(s, p, c);
    assert ProcOk(s, p) && CpuOk(s, c);
    forall x | 0 <= x < |t.procs| ensures ProcOk(t, x) {
      assert ProcOk(s, x);
      if x != p {
        BystanderFree(s, t, x);
      }
    }
    forall k | 0 <= k < |t.cpus| ensures CpuOk(t, k) {
      assert CpuOk(s, k);
    }
    CalmWait(s, t);
  }

  lemma SwitchKvmOk(s: Sys, c: nat)
    requires Inv(s) && SchedAt(s, c)
    ensures Inv(DoSwitchKvm(s, c))
  {
    var t := DoSwitchKvm(s, c);
    forall x | 0 <= x < |t.procs| ensures ProcOk(t, x) {
      assert ProcOk(s, x);
      BystanderFree(s, t, x);
    }
    forall k | 0 <= k < |t.cpus| ensures CpuOk(t, k) {
      assert CpuOk(s, k);
    }
    CalmWait(s, t);
  }

  lemma DispatchOk(s: Sys, c: nat, p: nat)
    requires Inv(s) && CanDispatch(s, c, p)
    ensures Inv(DoDispatch(s, c, p))
  {
    var t := DoDispatch(s, c, p);
    assert ProcOk(s, p) && CpuOk(s, c);
    forall x | 0 <= x < |t.procs| ensures ProcOk(t, x) {
      assert ProcOk(s, x);
      if x != p {
        BystanderFree(s, t, x);
      }
    }
    forall k | 0 <= k < |t.cpus| ensures CpuOk(t, k) {
      assert CpuOk(s, k);
    }
    CalmWait(s, t);
  }

  lemma SchedLockOk(s: Sys, t: Sys, c: nat)
    requires Inv(s) && c < |s.cpus| && s.cpus[c].stack == None && t == s.(lock := t.lock)
    requires (s.lock == Free && t.lock == BySched(c)) || (s.lock == BySched(c) && t.lock == Free && s.cpus[c].cr3 == None)
    ensures Inv(t)
  {
    forall x | 0 <= x < |t.procs| ensures ProcOk(t, x) {
      assert ProcOk(s, x);
      BystanderFree(s, t, x);
    }
    forall k | 0 <= k < |t.cpus| ensures CpuOk(t, k) {
      assert CpuOk(s, k);
    }
    CalmWait(s, t);
  }

  // ------------------------------------------------------------------
  // Whole runs

  lemma StepOk(s: Sys, l: Label)
    requires Inv(s) && Enabled(s, l)
    ensures Inv(Do(s, l))
  {
    match l
    case EnterExit(p) => EnterExitOk(s, p);
    case WakeParent(p) => WakeParentOk(s, p);
    case ExitChild(p, i) => ExitChildOk(s, p, i);
    case Die(p) => DieOk(s, p);
    case EnterWait(p) => EnterWaitOk(s, p);
    case WaitSlot(p, i, kids) => WaitSlotOk(s, p, i, kids);
    case WaitEnd(p, kids) => WaitEndOk(s, p, kids);
    case Yield(p) => YieldOk(s, p);
    case Sleep(p, k) => SleepOk(s, p, k);
    case Wakeup(k) => WokenOk(s, Other(k));
    case Kill(p) => KillOk(s, p);
    case Fork(p, c) => ForkOk(s, p, c);
    case ForkStage(p, c, stage) => ForkStageOk(s, p, c, stage);
    case ForkUndo(p, c) => ForkUndoOk(s, p, c);
    case ForkFail(p, c) => ForkFailOk(s, p, c);
    case Swtch(p, c) => SwtchOk(s, p, c);
    case SwitchKvm(c) => SwitchKvmOk(s, c);
    case Dispatch(c, p) => DispatchOk(s, c, p);
    case ResumeAt(p) => ResumeOk(s, p);
    case SchedAcquire(c) => SchedLockOk(s, s.(lock := BySched(c)), c);
    case SchedRelease(c) => SchedLockOk(s, s.(lock := Free), c);
  }

  lemma InitialOk(s: Sys)
    requires Initial(s)
    ensures Inv(s)
  {
    forall p | 0 <= p < |s.procs| ensures ProcOk(s, p) {
    }
    forall c | 0 <= c < |s.cpus| ensures CpuOk(s, c) {
    }
  }

  lemma {:induction false} RunOk(s: Sys, ls: seq<Label>)
    requires Inv(s) && IsRun(s, ls)
    ensures Inv(RunFrom(s, ls))
    decreases |ls|
  {
    if ls != [] {
      StepOk(s, ls[0]);
      RunOk(Do(s, ls[0]), ls[1..]);
    }
  }

  /** No lost wakeup: in no reachable state is a process asleep in wait() while it has a
      zombie child, whether it is the child's first parent or init. */
  lemma WaiterHasNoZombie(s: Sys, ls: seq<Label>, x: nat, q: nat)
    requires Initial(s) && IsRun(s, ls)
    ensures InWaitSleep(RunFrom(s, ls), x) ==> !ZombieChild(RunFrom(s, ls), x, q)
  {
    InitialOk(s);
    RunOk(s, ls);
  }

  /** When wait() frees a zombie's stack and page table they have not been freed before,
      and no CPU is on the one or has the other loaded. */
  lemma FreedOnceAndUnused(s: Sys, ls: seq<Label>, p: nat, i: nat, kids: bool)
    requires Initial(s) && IsRun(s, ls)
    requires At(RunFrom(s, ls), p, WaitScan(i, kids)) && i < |RunFrom(s, ls).procs| && ZombieChild(RunFrom(s, ls), p, i)
    ensures var t := RunFrom(s, ls);
            && t.procs[i].kstack && t.procs[i].pgdir
            && (forall c :: 0 <= c < |t.cpus| ==> t.cpus[c].stack != Some(i) && t.cpus[c].cr3 != Some(i))
    ensures var u := DoWaitSlot(RunFrom(s, ls), p, i, kids); !u.procs[i].kstack && !u.procs[i].pgdir
  {
    InitialOk(s);
    RunOk(s, ls);
    ReapIsSafe(RunFrom(s, ls), p, i, kids);
  }

  /** The panic after sched() in exit() is not reached: a zombie never runs again. */
  lemma ZombieNeverRuns(s: Sys, ls: seq<Label>, p: nat)
    requires Initial(s) && IsRun(s, ls) && p < |RunFrom(s, ls).procs| && RunFrom(s, ls).procs[p].pc == Parked(Never)
    ensures !CanResume(RunFrom(s, ls), p) && forall c :: !CanDispatch(RunFrom(s, ls), c, p)
  {
    InitialOk(s);
    RunOk(s, ls);
    assert ProcOk(RunFrom(s, ls), p);
  }
}
