/** The logging protocol of log.c over the write-back cache of bio.c, as a
transition system: any number of file-system operations and readers interleave,
one process commits, and the machine may crash between any two block writes.

Each label is one lock-protected section or one block written to disk. Operations
are bracketed by begin_op and end_op; they modify a buffer only while they hold its
sleep lock, call log_write before brelse, and make at most MAXOPBLOCKS calls.
 */
module LogProtocol {
  import opened Wrappers
  import opened LogFormat
  import opened LogStore

  /** Who holds a buffer's sleep lock. */
  datatype Holder = Op(id: nat) | Reader(id: nat)

  /** An operation between begin_op and end_op: the log_write calls it has
      finished, and the block of the call it is inside of, past the panic checks
      but not yet under log.lock. */
  datatype OpState = OpState(calls: nat, checked: Option<nat>)

  datatype Clients = Clients(held: map<nat, Holder>, ops: map<nat, OpState>, outstanding: int, committing: bool)

  /** Where the process that runs commit() or recover_from_log() stands. */
  datatype Phase =
    | Running
    | WritingLog(next: nat)
    | WritingHead
    | Installing(next: nat)
    | Clearing
    | Finishing
    | ReadingHead
    | Replaying(next: nat)
    | Scrubbing

  datatype Sys = Sys(st: Store, cl: Clients, lh: seq<nat>, phase: Phase, panicked: bool)

  datatype Label =
    | Begin(o: nat)
    | Lock(w: Holder, b: nat)
    | Modify(o: nat, b: nat, data: Block)
    | Check(o: nat, b: nat)
    | Append(o: nat)
    | Unlock(b: nat)
    | Evict(b: nat)
    | End(o: nat)
    | StartCommit
    | CopyToLog
    | CommitHead
    | Install
    | ClearHead
    | Finish
    | Crash
    | ReadHead
    | Replay
    | Scrub

  predicate Recovering(p: Phase) {
    p.ReadingHead? || p.Replaying? || p.Scrubbing?
  }

  // ------------------------------------------------------------------
  // Operations and readers

  /** begin_op, when it does not sleep. No operation starts before initlog returns. */
  predicate CanBegin(s: Sys, o: nat) {
    !Recovering(s.phase) && o !in s.cl.ops && !s.cl.committing && |s.lh| + (s.cl.outstanding + 1) * MAXOPBLOCKS <= LOGSIZE
  }

  function DoBegin(s: Sys, o: nat): Sys {
    s.(cl := s.cl.(outstanding := s.cl.outstanding + 1, ops := s.cl.ops[o := OpState(0, None)]))
  }

  /** bread: lock the buffer, reading the block in if it is not cached. */
  predicate CanLock(s: Sys, w: Holder, b: nat) {
    b < |s.st.disk| && b !in s.cl.held && (w.Op? ==> w.id in s.cl.ops)
  }

  function DoLock(s: Sys, w: Holder, b: nat): Sys
    requires CanLock(s, w, b)
  {
    s.(cl := s.cl.(held := s.cl.held[b := w]), st := Loaded(s.st, b))
  }

  predicate Holds(lay: Layout, s: Sys, o: nat, b: nat) {
    && lay.Home(b) && b in s.cl.held && s.cl.held[b] == Op(o)
    && o in s.cl.ops && s.cl.ops[o].checked == None
  }

  /** A store into the data of a buffer the operation has locked. */
  function DoModify(s: Sys, b: nat, data: Block): Sys {
    s.(st := Modified(s.st, b, data))
  }

  predicate TooBig(lay: Layout, s: Sys) {
    |s.lh| >= LOGSIZE || |s.lh| >= lay.size - 1 || s.cl.outstanding < 1
  }

  /** The start of log_write: its panic checks read log without log.lock. */
  function DoCheck(lay: Layout, s: Sys, o: nat, b: nat): Sys
    requires Holds(lay, s, o, b)
  {
    if TooBig(lay, s) then s.(panicked := true)
    else s.(cl := s.cl.(ops := s.cl.ops[o := s.cl.ops[o].(checked := Some(b))]))
  }

  /** The list after log_write's search and store under log.lock. */
  function Absorb(lh: seq<nat>, b: nat): (r: seq<nat>) {
    if b in lh then lh else lh + [b]
  }

  predicate CanAppend(s: Sys, o: nat) {
    o in s.cl.ops && s.cl.ops[o].checked.Some?
  }

  function DoAppend(s: Sys, o: nat): Sys
    requires CanAppend(s, o)
  {
    var b := s.cl.ops[o].checked.value;
    s.(lh := Absorb(s.lh, b), st := Pinned(s.st, b),
       cl := s.cl.(ops := s.cl.ops[o := OpState(s.cl.ops[o].calls + 1, None)]))
  }

  /** brelse: a modified buffer has been through log_write before. */
  predicate CanUnlock(s: Sys, b: nat) {
    b in s.cl.held && b !in s.st.unlogged && forall o :: o in s.cl.ops ==> s.cl.ops[o].checked != Some(b)
  }

  function DoUnlock(s: Sys, b: nat): Sys {
    s.(cl := s.cl.(held := s.cl.held - {b}))
  }

  /** bget recycling a clean, unreferenced buffer. */
  predicate CanEvict(s: Sys, b: nat) {
    b in s.st.cache && b !in s.cl.held && b !in s.st.dirty
  }

  function DoEvict(s: Sys, b: nat): Sys {
    s.(st := Dropped(s.st, b))
  }

  /** end_op up to the release of log.lock. */
  predicate CanEnd(s: Sys, o: nat) {
    o in s.cl.ops && forall b :: b in s.cl.held ==> s.cl.held[b] != Op(o)
  }

  function DoEnd(s: Sys, o: nat): Sys {
    if s.cl.committing then s.(panicked := true)
    else s.(cl := s.cl.(outstanding := s.cl.outstanding - 1, ops := s.cl.ops - {o}, committing := s.cl.outstanding == 1))
  }

  // ------------------------------------------------------------------
  // commit(), one block write a step

  predicate CanCopy(lay: Layout, s: Sys, i: nat) {
    && i < |s.lh|
    && lay.Slot(i) < |s.st.disk| && lay.Slot(i) !in s.cl.held
    && s.lh[i] < |s.st.disk| && s.lh[i] !in s.cl.held
  }

  function DoStart(s: Sys): Sys {
    s.(phase := if |s.lh| > 0 then WritingLog(0) else Finishing)
  }

  function DoCopyToLog(lay: Layout, s: Sys, i: nat): Sys
    requires CanCopy(lay, s, i)
  {
    s.(st := Written(s.st, lay.Slot(i), Content(s.st, s.lh[i])),
       phase := if i + 1 < |s.lh| then WritingLog(i + 1) else WritingHead)
  }

  predicate CanWriteHead(lay: Layout, s: Sys) {
    && lay.start < |s.st.disk| && lay.start !in s.cl.held && |s.lh| <= LOGSIZE
    && |Content(s.st, lay.start).words| == BLOCK_WORDS
  }

  function DoCommitHead(lay: Layout, s: Sys): Sys
    requires CanWriteHead(lay, s)
  {
    s.(st := Written(s.st, lay.start, WithHead(Content(s.st, lay.start), s.lh)), phase := Installing(0))
  }

  function DoInstall(lay: Layout, s: Sys, i: nat): Sys
    requires CanCopy(lay, s, i)
  {
    s.(st := Written(s.st, s.lh[i], Content(s.st, lay.Slot(i))),
       phase := if i + 1 < |s.lh| then Installing(i + 1) else Clearing)
  }

  function DoClearHead(lay: Layout, s: Sys): Sys
    requires CanWriteHead(lay, s)
  {
    s.(st := Written(s.st, lay.start, WithHead(Content(s.st, lay.start), [])), lh := [], phase := Finishing)
  }

  function DoFinish(s: Sys): Sys {
    s.(cl := s.cl.(committing := false), phase := Running)
  }

  // ------------------------------------------------------------------
  // recover_from_log(), one block write a step

  predicate CanReadHead(lay: Layout, s: Sys) {
    lay.start < |s.st.disk| && HeadOk(Content(s.st, lay.start))
  }

  function DoReadHead(lay: Layout, s: Sys): Sys
    requires CanReadHead(lay, s)
  {
    var lh := Head(Content(s.st, lay.start));
    s.(lh := lh, phase := if |lh| > 0 then Replaying(0) else Scrubbing)
  }

  function DoReplay(lay: Layout, s: Sys, i: nat): Sys
    requires CanCopy(lay, s, i)
  {
    s.(st := Written(s.st, s.lh[i], Content(s.st, lay.Slot(i))),
       phase := if i + 1 < |s.lh| then Replaying(i + 1) else Scrubbing)
  }

  function DoScrub(lay: Layout, s: Sys): Sys
    requires CanWriteHead(lay, s)
  {
    s.(st := Written(s.st, lay.start, WithHead(Content(s.st, lay.start), [])), lh := [], phase := Running)
  }

  /** The machine as it comes up over a disk image, before recover_from_log. */
  function Boot(d: Image): (s: Sys) {
    Sys(Store(d, map[], {}, {}), Clients(map[], map[], 0, false), [], ReadingHead, false)
  }

  // ------------------------------------------------------------------
  // The machine

  /** After a panic nothing happens until the machine is started again. */
  predicate Enabled(lay: Layout, s: Sys, l: Label) {
    && (s.panicked ==> l == Crash)
    && match l
       case Begin(o) => CanBegin(s, o)
       case Lock(w, b) => CanLock(s, w, b)
       case Modify(o, b, data) => Holds(lay, s, o, b)
       case Check(o, b) => Holds(lay, s, o, b) && s.cl.ops[o].calls < MAXOPBLOCKS
       case Append(o) => CanAppend(s, o)
       case Unlock(b) => CanUnlock(s, b)
       case Evict(b) => CanEvict(s, b)
       case End(o) => CanEnd(s, o)
       case StartCommit => s.cl.committing && s.phase == Running
       case CopyToLog => s.phase.WritingLog? && CanCopy(lay, s, s.phase.next)
       case CommitHead => s.phase.WritingHead? && CanWriteHead(lay, s)
       case Install => s.phase.Installing? && CanCopy(lay, s, s.phase.next)
       case ClearHead => s.phase.Clearing? && CanWriteHead(lay, s)
       case Finish => s.phase.Finishing?
       case Crash => true
       case ReadHead => s.phase.ReadingHead? && CanReadHead(lay, s)
       case Replay => s.phase.Replaying? && CanCopy(lay, s, s.phase.next)
       case Scrub => s.phase.Scrubbing? && CanWriteHead(lay, s)
  }

  function Do(lay: Layout, s: Sys, l: Label): (t: Sys)
    requires Enabled(lay, s, l)
  {
    match l
    case Begin(o) => DoBegin(s, o)
    case Lock(w, b) => DoLock(s, w, b)
    case Modify(o, b, data) => DoModify(s, b, data)
    case Check(o, b) => DoCheck(lay, s, o, b)
    case Append(o) => DoAppend(s, o)
    case Unlock(b) => DoUnlock(s, b)
    case Evict(b) => DoEvict(s, b)
    case End(o) => DoEnd(s, o)
    case StartCommit => DoStart(s)
    case CopyToLog => DoCopyToLog(lay, s, s.phase.next)
    case CommitHead => DoCommitHead(lay, s)
    case Install => DoInstall(lay, s, s.phase.next)
    case ClearHead => DoClearHead(lay, s)
    case Finish => DoFinish(s)
    case Crash => Boot(s.st.disk)
    case ReadHead => DoReadHead(lay, s)
    case Replay => DoReplay(lay, s, s.phase.next)
    case Scrub => DoScrub(lay, s)
  }

  predicate IsRun(lay: Layout, s: Sys, ls: seq<Label>)
    decreases |ls|
  {
    ls == [] || (Enabled(lay, s, ls[0]) && IsRun(lay, Do(lay, s, ls[0]), ls[1..]))
  }

  function RunFrom(lay: Layout, s: Sys, ls: seq<Label>): (t: Sys)
    requires IsRun(lay, s, ls)
    decreases |ls|
  {
    if ls == [] then s else RunFrom(lay, Do(lay, s, ls[0]), ls[1..])
  }

  // ------------------------------------------------------------------
  // The specification: atomic transactions over a durable and a current view

  datatype Abs = Abs(durable: map<nat, Block>, current: map<nat, Block>, active: set<nat>)

  datatype Event =
    | Stutter
    | Opens(o: nat)
    | Writes(o: nat, b: nat, data: Block)
    | Closes(o: nat)
    | Commits
    | Crashes

  /** A transaction becomes durable only while no operation is in progress. */
  predicate Allowed(a: Abs, e: Event) {
    match e
    case Stutter => true
    case Opens(o) => o !in a.active
    case Writes(o, b, data) => o in a.active && b in a.current
    case Closes(o) => o in a.active
    case Commits => a.active == {}
    case Crashes => true
  }

  function After(a: Abs, e: Event): (r: Abs) {
    match e
    case Stutter => a
    case Opens(o) => a.(active := a.active + {o})
    case Writes(o, b, data) => a.(current := a.current[b := data])
    case Closes(o) => a.(active := a.active - {o})
    case Commits => a.(durable := a.current)
    case Crashes => Abs(a.durable, a.durable, {})
  }

  /** The only step that makes anything durable is the first write_head of commit. */
  function EventOf(l: Label): Event {
    match l
    case Begin(o) => Opens(o)
    case Modify(o, b, data) => Writes(o, b, data)
    case End(o) => Closes(o)
    case CommitHead => Commits
    case Crash => Crashes
    case _ => Stutter
  }

  predicate SpecAllows(a: Abs, ls: seq<Label>)
    decreases |ls|
  {
    ls == [] || (Allowed(a, EventOf(ls[0])) && SpecAllows(After(a, EventOf(ls[0])), ls[1..]))
  }

  function SpecRun(a: Abs, ls: seq<Label>): (r: Abs)
    decreases |ls|
  {
    if ls == [] then a else SpecRun(After(a, EventOf(ls[0])), ls[1..])
  }

  function Durable(lay: Layout, s: Sys): (v: map<nat, Block>)
    requires ImageOk(lay, s.st.disk)
  {
    HomeView(lay, Recovered(lay, s.st.disk))
  }

  function AbsOf(lay: Layout, s: Sys): (a: Abs)
    requires ImageOk(lay, s.st.disk)
  {
    Abs(Durable(lay, s), if Recovering(s.phase) then Durable(lay, s) else View(lay, s.st), s.cl.ops.Keys)
  }
}
