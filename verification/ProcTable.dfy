/** The process table of proc.c: sleep, wakeup, exit, wait, fork, kill, yield and the
scheduler, as steps of any number of processes on any number of CPUs. Every step is
taken under ptable.lock or is one of the stores fork makes without it; a process inside
fork may be preempted between any two of them. */
module ProcTable {
  import opened Wrappers

  datatype State = UNUSED | EMBRYO | SLEEPING | RUNNABLE | RUNNING | ZOMBIE

  /** Where the code after sched() picks up when the process runs again. */
  datatype Resume = InYield | InForkret | InSleep | InWait | Never

  /** What a process is doing in the kernel. */
  datatype Pc =
    | NoThread
    | Out
    | ExitWake
    | ExitLoop(i: nat)
    | WaitScan(i: nat, havekids: bool)
    | Parked(r: Resume)

  /** How far fork() is with the slot of the child. */
  datatype Making = Making(child: nat, stage: nat)

  /** A sleep channel: a process's own slot, as wait() uses it, or something else. */
  datatype Chan = NoChan | WaitOn(p: nat) | Other(k: nat)

  datatype Proc = Proc(
    state: State,
    parent: Option<nat>,
    chan: Chan,
    killed: bool,
    kstack: bool,
    pgdir: bool,
    pc: Pc,
    on: Option<nat>,
    maker: Option<nat>,
    making: Option<Making>)

  /** The kernel stack a CPU runs on and the page table in its CR3: a process's, or the
      scheduler's own. */
  datatype Cpu = Cpu(stack: Option<nat>, cr3: Option<nat>)

  datatype Lock = Free | ByProc(p: nat) | BySched(c: nat)

  datatype Sys = Sys(procs: seq<Proc>, cpus: seq<Cpu>, lock: Lock, initproc: nat)

  /** wakeup1: every process sleeping on chan becomes runnable. */
  function Woken(ps: seq<Proc>, ch: Chan): (r: seq<Proc>)
    ensures |r| == |ps|
    ensures forall i :: 0 <= i < |ps| ==> r[i] == WokenOne(ps[i], ch)
  {
    seq(|ps|, i requires 0 <= i < |ps| => WokenOne(ps[i], ch))
  }

  function WokenOne(q: Proc, ch: Chan): Proc {
    if q.state == SLEEPING && q.chan == ch then q.(state := RUNNABLE) else q
  }

  function ParentChan(parent: Option<nat>): Chan {
    if parent.Some? then WaitOn(parent.value) else NoChan
  }

  predicate At(s: Sys, p: nat, pc: Pc) {
    p < |s.procs| && s.procs[p].pc == pc
  }

  function Set(s: Sys, p: nat, q: Proc): Sys
    requires p < |s.procs|
  {
    s.(procs := s.procs[p := q])
  }

  // ------------------------------------------------------------------
  // exit()

  /** A process that holds no lock and is not inside fork() calls exit() or the like. */
  predicate CanEnter(s: Sys, p: nat) {
    At(s, p, Out) && s.lock == Free && s.procs[p].making == None
  }

  function DoEnterExit(s: Sys, p: nat): Sys
    requires CanEnter(s, p)
  {
    Set(s, p, s.procs[p].(pc := ExitWake)).(lock := ByProc(p))
  }

  /** wakeup1 on the parent's channel, while the lock is held. */
  function DoExitWake(s: Sys, p: nat): Sys
    requires At(s, p, ExitWake)
  {
    var t := s.(procs := Woken(s.procs, ParentChan(s.procs[p].parent)));
    Set(t, p, t.procs[p].(pc := ExitLoop(0)))
  }

  /** Pass slot i to init if it is a child of p; init must know if it is a zombie. */
  function PassOne(ps: seq<Proc>, p: nat, initproc: nat, i: nat): (r: seq<Proc>)
    requires i < |ps|
    ensures |r| == |ps|
  {
    if ps[i].parent == Some(p) then
      var moved := ps[i := ps[i].(parent := Some(initproc))];
      if ps[i].state == ZOMBIE then Woken(moved, WaitOn(initproc)) else moved
    else ps
  }

  function DoExitChild(s: Sys, p: nat, i: nat): Sys
    requires At(s, p, ExitLoop(i)) && i < |s.procs|
  {
    var t := s.(procs := PassOne(s.procs, p, s.initproc, i));
    Set(t, p, t.procs[p].(pc := ExitLoop(i + 1)))
  }

  function DoExitZombie(s: Sys, p: nat): Sys
    requires p < |s.procs|
  {
    Set(s, p, s.procs[p].(state := ZOMBIE, pc := Parked(Never)))
  }

  // ------------------------------------------------------------------
  // wait()

  function DoEnterWait(s: Sys, p: nat): Sys
    requires CanEnter(s, p)
  {
    Set(s, p, s.procs[p].(pc := WaitScan(0, false))).(lock := ByProc(p))
  }

  /** A slot wait() looks at: skip it, reap it and return, or note a live child. */
  function Reaped(q: Proc): Proc {
    q.(state := UNUSED, parent := None, killed := false, kstack := false, pgdir := false, pc := NoThread)
  }

  function DoWaitSlot(s: Sys, p: nat, i: nat, kids: bool): Sys
    requires At(s, p, WaitScan(i, kids)) && i < |s.procs|
  {
    if s.procs[i].parent != Some(p) then Set(s, p, s.procs[p].(pc := WaitScan(i + 1, kids)))
    else if s.procs[i].state == ZOMBIE then
      var t := Set(s, i, Reaped(s.procs[i]));
      Set(t, p, t.procs[p].(pc := Out)).(lock := Free)
    else Set(s, p, s.procs[p].(pc := WaitScan(i + 1, true)))
  }

  function DoWaitEnd(s: Sys, p: nat, kids: bool): Sys
    requires p < |s.procs|
  {
    if !kids || s.procs[p].killed then Set(s, p, s.procs[p].(pc := Out)).(lock := Free)
    else Set(s, p, s.procs[p].(chan := WaitOn(p), state := SLEEPING, pc := Parked(InWait)))
  }

  // ------------------------------------------------------------------
  // yield(), sleep() on another channel, wakeup() and kill()

  /** A timer interrupt can come at any point where no lock is held, inside fork() too. */
  predicate CanYield(s: Sys, p: nat) {
    At(s, p, Out) && s.lock == Free
  }

  function DoYield(s: Sys, p: nat): Sys
    requires CanYield(s, p)
  {
    Set(s, p, s.procs[p].(state := RUNNABLE, pc := Parked(InYield))).(lock := ByProc(p))
  }

  function DoSleep(s: Sys, p: nat, k: nat): Sys
    requires CanEnter(s, p)
  {
    Set(s, p, s.procs[p].(state := SLEEPING, chan := Other(k), pc := Parked(InSleep))).(lock := ByProc(p))
  }

  function DoWakeup(s: Sys, k: nat): Sys {
    s.(procs := Woken(s.procs, Other(k)))
  }

  function DoKill(s: Sys, p: nat): Sys
    requires p < |s.procs|
  {
    var q := s.procs[p];
    Set(s, p, q.(killed := true, state := if q.state == SLEEPING then RUNNABLE else q.state))
  }

  // ------------------------------------------------------------------
  // fork(): only allocproc's search holds the lock

  predicate CanFork(s: Sys, p: nat, c: nat) {
    CanEnter(s, p) && c < |s.procs| && s.procs[c].state == UNUSED
  }

  function DoFork(s: Sys, p: nat, c: nat): Sys
    requires CanFork(s, p, c)
  {
    var t := Set(s, c, s.procs[c].(state := EMBRYO, maker := Some(p)));
    Set(t, p, t.procs[p].(making := Some(Making(c, 0))))
  }

  predicate AtFork(s: Sys, p: nat, c: nat, stage: nat) {
    At(s, p, Out) && s.procs[p].making == Some(Making(c, stage)) && c < |s.procs|
  }

  /** kalloc of the kernel stack, copyuvm, the parent field, and RUNNABLE. */
  function DoForkStage(s: Sys, p: nat, c: nat, stage: nat): Sys
    requires AtFork(s, p, c, stage) && stage < 4
  {
    var q := s.procs[c];
    var q' := match stage
              case 0 => q.(kstack := true)
              case 1 => q.(pgdir := true)
              case 2 => q.(parent := Some(p))
              case _ => q.(state := RUNNABLE, pc := Parked(InForkret), maker := None);
    var t := Set(s, c, q');
    Set(t, p, t.procs[p].(making := if stage < 3 then Some(Making(c, stage + 1)) else None))
  }

  const UNDONE := 4

  /** copyuvm returned 0: the kernel stack is freed. */
  function DoForkUndo(s: Sys, p: nat, c: nat): Sys
    requires AtFork(s, p, c, 1)
  {
    var t := Set(s, c, s.procs[c].(kstack := false));
    Set(t, p, t.procs[p].(making := Some(Making(c, UNDONE))))
  }

  /** That done, or if kalloc returned 0: the slot is given back. */
  function DoForkFail(s: Sys, p: nat, c: nat): Sys
    requires p < |s.procs| && c < |s.procs|
  {
    var t := Set(s, c, s.procs[c].(state := UNUSED, maker := None));
    Set(t, p, t.procs[p].(making := None))
  }

  // ------------------------------------------------------------------
  // sched() and scheduler(): the lock is handed across swtch

  /** sched(): panics unless the state has been changed. */
  predicate CanSwtch(s: Sys, p: nat, c: nat) {
    && p < |s.procs| && s.procs[p].pc.Parked? && s.procs[p].state != RUNNING && s.lock == ByProc(p)
    && s.procs[p].on == Some(c) && c < |s.cpus|
  }

  function DoSwtch(s: Sys, p: nat, c: nat): Sys
    requires CanSwtch(s, p, c)
  {
    Set(s, p, s.procs[p].(on := None)).(cpus := s.cpus[c := s.cpus[c].(stack := None)], lock := BySched(c))
  }

  predicate SchedAt(s: Sys, c: nat) {
    c < |s.cpus| && s.lock == BySched(c)
  }

  function DoSwitchKvm(s: Sys, c: nat): Sys
    requires SchedAt(s, c)
  {
    s.(cpus := s.cpus[c := s.cpus[c].(cr3 := None)])
  }

  predicate CanDispatch(s: Sys, c: nat, p: nat) {
    SchedAt(s, c) && s.cpus[c].cr3 == None && p < |s.procs| && s.procs[p].state == RUNNABLE
  }

  function DoDispatch(s: Sys, c: nat, p: nat): Sys
    requires CanDispatch(s, c, p)
  {
    Set(s, p, s.procs[p].(state := RUNNING, on := Some(c))).(cpus := s.cpus[c := Cpu(Some(p), Some(p))], lock := ByProc(p))
  }

  predicate CanResume(s: Sys, p: nat) {
    p < |s.procs| && s.procs[p].pc.Parked? && s.procs[p].state == RUNNING && s.lock == ByProc(p)
  }

  /** The code after sched() in yield, forkret, sleep and wait. Only wait keeps the
      lock; sleep goes on to reacquire the caller's. */
  function DoResume(s: Sys, p: nat): Sys
    requires CanResume(s, p)
  {
    match s.procs[p].pc.r
    case InWait => Set(s, p, s.procs[p].(chan := NoChan, pc := WaitScan(0, false)))
    case InSleep => Set(s, p, s.procs[p].(chan := NoChan, pc := Out)).(lock := Free)
    case _ => Set(s, p, s.procs[p].(pc := Out)).(lock := Free)
  }

  // ------------------------------------------------------------------

  datatype Label =
    | EnterExit(p: nat)
    | WakeParent(p: nat)
    | ExitChild(p: nat, i: nat)
    | Die(p: nat)
    | EnterWait(p: nat)
    | WaitSlot(p: nat, i: nat, kids: bool)
    | WaitEnd(p: nat, kids: bool)
    | Yield(p: nat)
    | Sleep(p: nat, k: nat)
    | Wakeup(k: nat)
    | Kill(p: nat)
    | Fork(p: nat, c: nat)
    | ForkStage(p: nat, c: nat, stage: nat)
    | ForkUndo(p: nat, c: nat)
    | ForkFail(p: nat, c: nat)
    | Swtch(p: nat, c: nat)
    | SwitchKvm(c: nat)
    | Dispatch(c: nat, p: nat)
    | ResumeAt(p: nat)
    | SchedAcquire(c: nat)
    | SchedRelease(c: nat)

  predicate Enabled(s: Sys, l: Label) {
    match l
    case EnterExit(p) => CanEnter(s, p) && p != s.initproc
    case WakeParent(p) => At(s, p, ExitWake)
    case ExitChild(p, i) => At(s, p, ExitLoop(i)) && i < |s.procs|
    case Die(p) => At(s, p, ExitLoop(|s.procs|))
    case EnterWait(p) => CanEnter(s, p)
    case WaitSlot(p, i, kids) => At(s, p, WaitScan(i, kids)) && i < |s.procs|
    case WaitEnd(p, kids) => At(s, p, WaitScan(|s.procs|, kids))
    case Yield(p) => CanYield(s, p)
    case Sleep(p, k) => CanEnter(s, p)
    case Wakeup(k) => s.lock == Free
    case Kill(p) => s.lock == Free && p < |s.procs|
    case Fork(p, c) => CanFork(s, p, c)
    case ForkStage(p, c, stage) => AtFork(s, p, c, stage) && stage < 4
    case ForkUndo(p, c) => AtFork(s, p, c, 1)
    case ForkFail(p, c) => AtFork(s, p, c, 0) || AtFork(s, p, c, UNDONE)
    case Swtch(p, c) => CanSwtch(s, p, c)
    case SwitchKvm(c) => SchedAt(s, c)
    case Dispatch(c, p) => CanDispatch(s, c, p)
    case ResumeAt(p) => CanResume(s, p)
    case SchedAcquire(c) => c < |s.cpus| && s.lock == Free && s.cpus[c].stack == None
    case SchedRelease(c) => SchedAt(s, c) && s.cpus[c].cr3 == None
  }

  function Do(s: Sys, l: Label): (t: Sys)
    requires Enabled(s, l)
  {
    match l
    case EnterExit(p) => DoEnterExit(s, p)
    case WakeParent(p) => DoExitWake(s, p)
    case ExitChild(p, i) => DoExitChild(s, p, i)
    case Die(p) => DoExitZombie(s, p)
    case EnterWait(p) => DoEnterWait(s, p)
    case WaitSlot(p, i, kids) => DoWaitSlot(s, p, i, kids)
    case WaitEnd(p, kids) => DoWaitEnd(s, p, kids)
    case Yield(p) => DoYield(s, p)
    case Sleep(p, k) => DoSleep(s, p, k)
    case Wakeup(k) => DoWakeup(s, k)
    case Kill(p) => DoKill(s, p)
    case Fork(p, c) => DoFork(s, p, c)
    case ForkStage(p, c, stage) => DoForkStage(s, p, c, stage)
    case ForkUndo(p, c) => DoForkUndo(s, p, c)
    case ForkFail(p, c) => DoForkFail(s, p, c)
    case Swtch(p, c) => DoSwtch(s, p, c)
    case SwitchKvm(c) => DoSwitchKvm(s, c)
    case Dispatch(c, p) => DoDispatch(s, c, p)
    case ResumeAt(p) => DoResume(s, p)
    case SchedAcquire(c) => s.(lock := BySched(c))
    case SchedRelease(c) => s.(lock := Free)
  }

  function EmptySlot(): Proc {
    Proc(UNUSED, None, NoChan, false, false, false, NoThread, None, None, None)
  }

  function FirstProc(): Proc {
    Proc(RUNNABLE, None, NoChan, false, true, true, Parked(InForkret), None, None, None)
  }

  /** After userinit: one runnable process, init, and idle CPUs. */
  predicate Initial(s: Sys) {
    && s.lock == Free && s.initproc < |s.procs|
    && (forall p :: 0 <= p < |s.procs| ==> s.procs[p] == if p == s.initproc then FirstProc() else EmptySlot())
    && (forall c :: 0 <= c < |s.cpus| ==> s.cpus[c] == Cpu(None, None))
  }

  predicate IsRun(s: Sys, ls: seq<Label>)
    decreases |ls|
  {
    ls == [] || (Enabled(s, ls[0]) && IsRun(Do(s, ls[0]), ls[1..]))
  }

  function RunFrom(s: Sys, ls: seq<Label>): (t: Sys)
    requires IsRun(s, ls)
    decreases |ls|
  {
    if ls == [] then s else RunFrom(Do(s, ls[0]), ls[1..])
  }
}
