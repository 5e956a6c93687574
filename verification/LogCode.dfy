/** log.c as written: the in-memory header, the loops that copy blocks one at a
time, and the order of the disk writes. Every disk write a method makes is one step
of the protocol, so what is proved of the protocol's runs holds at every point
where the code can be interrupted. */
module LogCode {
  import opened Wrappers
  import opened LogFormat
  import opened LogStore
  import opened LogProtocol
  import opened LogSafety

  /** s is where the protocol stands after the steps in trace since a boot from base. */
  ghost predicate Reached(lay: Layout, base: Image, trace: seq<Label>, s: Sys) {
    match s
    case Sys(_, _, _, _, panicked) =>
      && !panicked && ImageOk(lay, base) && IsRun(lay, Boot(base), trace) && RunFrom(lay, Boot(base), trace) == s
      && Roomy(lay, Boot(base), trace)
  }

  lemma ReachedInv(lay: Layout, base: Image, trace: seq<Label>, s: Sys)
    requires Reached(lay, base, trace, s)
    ensures Inv(lay, s)
  {
    BootOk(lay, base);
    RunOk(lay, Boot(base), trace);
  }

  /** What a list of steps means to the specification. */
  function Events(ls: seq<Label>): (es: seq<Event>) {
    if ls == [] then []
    else
      var front := Events(ls[..|ls| - 1]);
      var e := EventOf(ls[|ls| - 1]);
      if e == Stutter then front else front + [e]
  }

  lemma EventsSnoc(ls: seq<Label>, l: Label)
    ensures Events(ls + [l]) == if EventOf(l) == Stutter then Events(ls) else Events(ls) + [EventOf(l)]
  {
    assert (ls + [l])[..|ls + [l]| - 1] == ls;
  }

  lemma Takes(lay: Layout, base: Image, trace: seq<Label>, s: Sys, l: Label)
    requires Reached(lay, base, trace, s) && Enabled(lay, s, l) && Fits(lay, s, l) && !Do(lay, s, l).panicked
    ensures Reached(lay, base, trace + [l], Do(lay, s, l))
    ensures Events(trace + [l]) == if EventOf(l) == Stutter then Events(trace) else Events(trace) + [EventOf(l)]
  {
    RunAppend(lay, Boot(base), trace, l);
    EventsSnoc(trace, l);
  }

  lemma ReadEnabled(lay: Layout, s: Sys, b: nat)
    requires Inv(lay, s) && b !in s.cl.held && b < |s.st.disk|
    ensures CanLock(s, Reader(0), b) && CanUnlock(DoLock(s, Reader(0), b), b)
    ensures DoUnlock(DoLock(s, Reader(0), b), b) == s.(st := Loaded(s.st, b))
  {
    forall o | o in s.cl.ops ensures s.cl.ops[o].checked != Some(b) {
      assert OpOk(lay, s.cl.held, o, s.cl.ops[o]);
    }
    assert s.cl.held[b := Reader(0)] - {b} == s.cl.held;
  }

  function Reading(trace: seq<Label>, b: nat): seq<Label> {
    trace + [Lock(Reader(0), b)] + [Unlock(b)]
  }

  /** Reading a block without having to wait for it is two steps. */
  lemma TakesRead(lay: Layout, base: Image, trace: seq<Label>, s: Sys, b: nat)
    requires Reached(lay, base, trace, s) && b !in s.cl.held && b < |s.st.disk|
    ensures Reached(lay, base, Reading(trace, b), s.(st := Loaded(s.st, b))) && Events(Reading(trace, b)) == Events(trace)
  {
    ReachedInv(lay, base, trace, s);
    ReadEnabled(lay, s, b);
    Takes(lay, base, trace, s, Lock(Reader(0), b));
    Takes(lay, base, trace + [Lock(Reader(0), b)], DoLock(s, Reader(0), b), Unlock(b));
  }

  /** Nobody holds a block of the log or of the list. */
  ghost predicate Undisturbed(lay: Layout, s: Sys) {
    forall b :: b in s.cl.held ==> !lay.InLog(b) && b !in s.lh
  }

  /** A copying step is possible as soon as nobody holds the buffers it needs. */
  lemma CopyEnabled(lay: Layout, base: Image, trace: seq<Label>, s: Sys, i: nat)
    requires Reached(lay, base, trace, s) && Undisturbed(lay, s) && |s.lh| < lay.size
    requires s.phase == WritingLog(i) || s.phase == Installing(i) || s.phase == Replaying(i)
    ensures CanCopy(lay, s, i) && lay.Slot(i) < lay.total == |s.st.disk|
  {
    ReachedInv(lay, base, trace, s);
  }

  lemma TakesCopy(lay: Layout, base: Image, trace: seq<Label>, s: Sys, i: nat)
    requires Reached(lay, base, trace, s) && Undisturbed(lay, s) && |s.lh| < lay.size && s.phase == WritingLog(i)
    ensures CanCopy(lay, s, i) && Reached(lay, base, trace + [CopyToLog], DoCopyToLog(lay, s, i))
    ensures Events(trace + [CopyToLog]) == Events(trace)
  {
    CopyEnabled(lay, base, trace, s, i);
    Takes(lay, base, trace, s, CopyToLog);
  }

  /** The step one iteration of install_trans is, in commit or in recovery. */
  function InstallLabel(p: Phase): Label {
    if p.Installing? then Install else Replay
  }

  function AfterInstall(p: Phase, tail: nat, n: nat): Phase {
    if p.Installing? then (if tail < n then Installing(tail) else Clearing)
    else (if tail < n then Replaying(tail) else Scrubbing)
  }

  lemma TakesInstall(lay: Layout, base: Image, trace: seq<Label>, s: Sys, i: nat)
    requires Reached(lay, base, trace, s) && Undisturbed(lay, s) && |s.lh| < lay.size
    requires s.phase == Installing(i) || s.phase == Replaying(i)
    ensures CanCopy(lay, s, i)
    ensures Reached(lay, base, trace + [InstallLabel(s.phase)],
                    s.(st := Written(s.st, s.lh[i], Content(s.st, lay.Slot(i))), phase := AfterInstall(s.phase, i + 1, |s.lh|)))
    ensures Events(trace + [InstallLabel(s.phase)]) == Events(trace)
  {
    CopyEnabled(lay, base, trace, s, i);
    if s.phase.Installing? {
      Takes(lay, base, trace, s, Install);
    } else {
      Takes(lay, base, trace, s, Replay);
    }
  }

  lemma HeadEnabled(lay: Layout, base: Image, trace: seq<Label>, s: Sys)
    requires Reached(lay, base, trace, s) && lay.start !in s.cl.held
    ensures CanWriteHead(lay, s) && HeadOk(Content(s.st, lay.start))
  {
    ReachedInv(lay, base, trace, s);
    ContentLog(lay, s.st, lay.start);
  }

  /** The step write_head is, by where it is called from. */
  function HeadLabel(p: Phase): Label {
    match p case WritingHead => CommitHead case Clearing => ClearHead case _ => Scrub
  }

  function AfterHead(p: Phase): Phase {
    match p case WritingHead => Installing(0) case Clearing => Finishing case _ => Running
  }

  /** All three calls write the header block and differ in what list it holds. */
  lemma TakesHead(lay: Layout, base: Image, trace: seq<Label>, s: Sys)
    requires Reached(lay, base, trace, s) && lay.start !in s.cl.held
    requires s.phase == WritingHead || s.phase == Clearing || s.phase == Scrubbing
    ensures CanWriteHead(lay, s)
    ensures var lh := if s.phase == WritingHead then s.lh else [];
            Reached(lay, base, trace + [HeadLabel(s.phase)],
                    s.(st := Written(s.st, lay.start, WithHead(Content(s.st, lay.start), lh)), lh := lh, phase := AfterHead(s.phase)))
    ensures Events(trace + [HeadLabel(s.phase)]) == Events(trace) + if s.phase == WritingHead then [Commits] else []
  {
    HeadEnabled(lay, base, trace, s);
    Takes(lay, base, trace, s, HeadLabel(s.phase));
  }

  lemma TakesReadHead(lay: Layout, base: Image, trace: seq<Label>, s: Sys)
    requires Reached(lay, base, trace, s) && lay.start !in s.cl.held && s.phase == ReadingHead
    ensures CanReadHead(lay, s) && Reached(lay, base, trace + [ReadHead], DoReadHead(lay, s))
    ensures |DoReadHead(lay, s).lh| < lay.size
    ensures Events(trace + [ReadHead]) == Events(trace)
  {
    HeadEnabled(lay, base, trace, s);
    ReachedInv(lay, base, trace, s);
    ContentLog(lay, s.st, lay.start);
    Takes(lay, base, trace, s, ReadHead);
  }

  lemma TakesStart(lay: Layout, base: Image, trace: seq<Label>, s: Sys)
    requires Reached(lay, base, trace, s) && s.phase == Running && s.cl.committing
    ensures Reached(lay, base, trace + [StartCommit], DoStart(s))
    ensures Events(trace + [StartCommit]) == Events(trace)
  {
    ReachedInv(lay, base, trace, s);
    Takes(lay, base, trace, s, StartCommit);
  }

  function Fold(a: Abs, es: seq<Event>): Abs {
    if es == [] then a else After(Fold(a, es[..|es| - 1]), es[|es| - 1])
  }

  /** The specification state the code is in depends on its events only. */
  lemma {:induction false} EventsDecide(a: Abs, trace: seq<Label>)
    ensures SpecRun(a, trace) == Fold(a, Events(trace))
    decreases |trace|
  {
    if trace != [] {
      var front, l := trace[..|trace| - 1], trace[|trace| - 1];
      assert trace == front + [l];
      SpecRunSnoc(a, front, l);
      EventsDecide(a, front);
      EventsSnoc(front, l);
      if EventOf(l) != Stutter {
        var es := Events(front) + [EventOf(l)];
        assert es[..|es| - 1] == Events(front);
      }
    }
  }

  lemma TakesBegin(lay: Layout, base: Image, trace: seq<Label>, s: Sys, o: nat)
    requires Reached(lay, base, trace, s) && CanBegin(s, o)
    ensures Reached(lay, base, trace + [Begin(o)], DoBegin(s, o))
    ensures Events(trace + [Begin(o)]) == Events(trace) + [Opens(o)]
  {
    ReachedInv(lay, base, trace, s);
    Takes(lay, base, trace, s, Begin(o));
  }

  lemma TakesEnd(lay: Layout, base: Image, trace: seq<Label>, s: Sys, o: nat)
    requires Reached(lay, base, trace, s) && CanEnd(s, o)
    ensures !s.cl.committing && Reached(lay, base, trace + [End(o)], DoEnd(s, o))
    ensures Events(trace + [End(o)]) == Events(trace) + [Closes(o)]
  {
    ReachedInv(lay, base, trace, s);
    EndOk(lay, s, o);
    Takes(lay, base, trace, s, End(o));
  }

  lemma TakesFinish(lay: Layout, base: Image, trace: seq<Label>, s: Sys)
    requires Reached(lay, base, trace, s) && s.phase == Finishing
    ensures Reached(lay, base, trace + [Finish], DoFinish(s))
    ensures Events(trace + [Finish]) == Events(trace)
  {
    ReachedInv(lay, base, trace, s);
    Takes(lay, base, trace, s, Finish);
  }

  lemma TakesCheck(lay: Layout, base: Image, trace: seq<Label>, s: Sys, o: nat, b: nat)
    requires Reached(lay, base, trace, s) && Holds(lay, s, o, b) && s.cl.ops[o].calls < MAXOPBLOCKS && !TooBig(lay, s)
    ensures Reached(lay, base, trace + [Check(o, b)], DoCheck(lay, s, o, b))
    ensures Events(trace + [Check(o, b)]) == Events(trace)
  {
    Takes(lay, base, trace, s, Check(o, b));
  }

  /** The clients once operation o has made one more call of log_write. */
  function Called(cl: Clients, o: nat): Clients
    requires o in cl.ops
  {
    cl.(ops := cl.ops[o := OpState(cl.ops[o].calls + 1, None)])
  }

  lemma CheckThenAppend(lay: Layout, s: Sys, o: nat, b: nat)
    requires Holds(lay, s, o, b) && !TooBig(lay, s)
    ensures var t := DoCheck(lay, s, o, b);
            && CanAppend(t, o)
            && DoAppend(t, o) == s.(lh := Absorb(s.lh, b), st := Pinned(s.st, b), cl := Called(s.cl, o))
  {
    assert DoCheck(lay, s, o, b).cl.ops[o := Called(s.cl, o).ops[o]] == Called(s.cl, o).ops;
  }

  lemma TakesAppend(lay: Layout, base: Image, trace: seq<Label>, s: Sys, o: nat)
    requires Reached(lay, base, trace, s) && CanAppend(s, o)
    ensures |s.lh| < LOGSIZE && Reached(lay, base, trace + [Append(o)], DoAppend(s, o))
    ensures Events(trace + [Append(o)]) == Events(trace)
  {
    ReachedInv(lay, base, trace, s);
    AppendFits(lay, s, o);
    Takes(lay, base, trace, s, Append(o));
  }

  lemma TakesLock(lay: Layout, base: Image, trace: seq<Label>, s: Sys, o: nat, b: nat)
    requires Reached(lay, base, trace, s) && CanLock(s, Op(o), b)
    ensures Reached(lay, base, trace + [Lock(Op(o), b)], DoLock(s, Op(o), b))
    ensures Events(trace + [Lock(Op(o), b)]) == Events(trace)
  {
    Takes(lay, base, trace, s, Lock(Op(o), b));
  }

  lemma TakesModify(lay: Layout, base: Image, trace: seq<Label>, s: Sys, o: nat, b: nat, d: Block)
    requires Reached(lay, base, trace, s) && Holds(lay, s, o, b)
    ensures Reached(lay, base, trace + [Modify(o, b, d)], DoModify(s, b, d))
    ensures Events(trace + [Modify(o, b, d)]) == Events(trace) + [Writes(o, b, d)]
  {
    Takes(lay, base, trace, s, Modify(o, b, d));
  }

  lemma TakesUnlock(lay: Layout, base: Image, trace: seq<Label>, s: Sys, b: nat)
    requires Reached(lay, base, trace, s) && CanUnlock(s, b)
    ensures Reached(lay, base, trace + [Unlock(b)], DoUnlock(s, b))
    ensures Events(trace + [Unlock(b)]) == Events(trace)
  {
    Takes(lay, base, trace, s, Unlock(b));
  }

  lemma UpdateEnabled(lay: Layout, base: Image, trace: seq<Label>, s: Sys, o: nat, b: nat, d: Block)
    requires Reached(lay, base, trace, s) && lay.Home(b) && b !in s.cl.held && o in s.cl.ops && s.cl.ops[o].checked == None
    ensures CanLock(s, Op(o), b)
    ensures var t := DoModify(DoLock(s, Op(o), b), b, d);
            && Holds(lay, DoLock(s, Op(o), b), o, b) && Holds(lay, t, o, b)
            && var u := t.(lh := Absorb(s.lh, b), st := Pinned(t.st, b), cl := Called(t.cl, o));
            && CanUnlock(u, b) && DoUnlock(u, b).cl == Called(s.cl, o)
  {
    ReachedInv(lay, base, trace, s);
    assert s.cl.held[b := Op(o)] - {b} == s.cl.held;
    assert forall p :: p in s.cl.ops ==> OpOk(lay, s.cl.held, p, s.cl.ops[p]);
  }

  /** What the code has made durable, and what a process sees, are what its events say. */
  lemma ReachedAbs(lay: Layout, base: Image, trace: seq<Label>, s: Sys)
    requires Reached(lay, base, trace, s)
    ensures Inv(lay, s) && AbsOf(lay, s) == Fold(AbsOf(lay, Boot(base)), Events(trace))
  {
    BootOk(lay, base);
    RunOk(lay, Boot(base), trace);
    EventsDecide(AbsOf(lay, Boot(base)), trace);
  }

  lemma FoldSnoc(a: Abs, es: seq<Event>, e: Event)
    ensures Fold(a, es + [e]) == After(Fold(a, es), e)
  {
    assert (es + [e])[..|es + [e]| - 1] == es;
  }

  /** The events es, and then those of an operation that stores d into block b and is
      the last to end. */
  function Lone(es: seq<Event>, o: nat, b: nat, d: Block): seq<Event> {
    es + [Opens(o)] + [Writes(o, b, d)] + [Closes(o)] + [Commits]
  }

  lemma LoneIsAtomic(a: Abs, es: seq<Event>, o: nat, b: nat, d: Block)
    ensures Fold(a, Lone(es, o, b, d)).durable == Fold(a, es).current[b := d]
  {
    FoldSnoc(a, es, Opens(o));
    FoldSnoc(a, es + [Opens(o)], Writes(o, b, d));
    FoldSnoc(a, es + [Opens(o)] + [Writes(o, b, d)], Closes(o));
    FoldSnoc(a, es + [Opens(o)] + [Writes(o, b, d)] + [Closes(o)], Commits);
  }

  lemma LoneIsDurable(lay: Layout, base: Image, trace: seq<Label>, s: Sys, trace': seq<Label>, t: Sys, o: nat, b: nat, d: Block)
    requires Reached(lay, base, trace, s) && !Recovering(s.phase)
    requires Reached(lay, base, trace', t) && Events(trace') == Lone(Events(trace), o, b, d)
    ensures |s.st.disk| == lay.total && ImageOk(lay, t.st.disk)
    ensures HomeView(lay, Recovered(lay, t.st.disk)) == View(lay, s.st)[b := d]
  {
    ReachedAbs(lay, base, trace, s);
    ReachedAbs(lay, base, trace', t);
    LoneIsAtomic(AbsOf(lay, Boot(base)), Events(trace), o, b, d);
  }

  /** When no event lies between two states and the second is out of recovery, its disk
      holds in place what was durable in the first. */
  lemma QuietIsInPlace(lay: Layout, base: Image, trace: seq<Label>, s: Sys, trace': seq<Label>, t: Sys)
    requires Reached(lay, base, trace, s) && Reached(lay, base, trace', t)
    requires Events(trace') == Events(trace) && t.phase == Running
    ensures ImageOk(lay, s.st.disk) && ImageOk(lay, t.st.disk) && Head(t.st.disk[lay.start]) == []
    ensures HomeView(lay, t.st.disk) == HomeView(lay, Recovered(lay, s.st.disk))
  {
    ReachedAbs(lay, base, trace, s);
    ReachedAbs(lay, base, trace', t);
    AllInPlace(lay, t.st.disk);
  }

  class Log {
    const lay: Layout
    var disk: Image
    var cache: map<nat, Block>
    var dirty: set<nat>
    var n: nat
    const block: array<nat>
    var outstanding: int
    var committing: bool

    // The protocol state and the steps that led to it.
    ghost var sys: Sys
    ghost const base: Image
    ghost var trace: seq<Label>

    /** The concrete fields are those of the protocol state, except perhaps the list. */
    ghost predicate Tied()
      reads this
    {
      && Reached(lay, base, trace, sys) && |sys.st.disk| == lay.total
      && disk == sys.st.disk && cache == sys.st.cache && dirty == sys.st.dirty
      && outstanding == sys.cl.outstanding && committing == sys.cl.committing
      && block.Length == LOGSIZE && n <= LOGSIZE
    }

    /** Here log_write's test and its store are not interleaved with other processes,
        so that the list always fits the log. */
    ghost predicate Valid()
      reads this, block
    {
      Tied() && block[..n] == sys.lh && n < lay.size
    }

    /** bread by a process that does not have to wait for the buffer's lock, and
        brelse once it has the data. */
    method Bread(b: nat) returns (d: Block)
      requires Tied() && b !in sys.cl.held && b < lay.total
      modifies this`cache, this`sys, this`trace
      ensures Tied() && Events(trace) == Events(old(trace))
      ensures sys == old(sys).(st := Loaded(old(sys).st, b))
      ensures d == Content(old(sys).st, b)
    {
      if b in cache {
        d := cache[b];
      } else {
        d := disk[b];
      }
      cache := cache[b := d];
      TakesRead(lay, base, trace, sys, b);
      sys, trace := sys.(st := Loaded(sys.st, b)), Reading(trace, b);
    }

    /** bwrite: the disk block is written and the buffer is clean again. The write is
        the protocol step l, which leads to s. */
    method Bwrite(b: nat, d: Block, ghost l: Label, ghost s: Sys)
      requires Tied() && b < lay.total
      requires Reached(lay, base, trace + [l], s) && s.st == Written(sys.st, b, d) && s.cl == sys.cl
      modifies this`disk, this`cache, this`dirty, this`sys, this`trace
      ensures Tied() && sys == s && trace == old(trace) + [l]
    {
      disk := disk[b := d];
      cache := cache[b := d];
      dirty := dirty - {b};
      sys, trace := s, trace + [l];
    }

    /** One iteration of write_log. */
    method CopyBlock(tail: nat)
      requires Valid() && Undisturbed(lay, sys) && sys.phase == WritingLog(tail)
      modifies this`disk, this`cache, this`dirty, this`sys, this`trace
      ensures Valid() && Events(trace) == Events(old(trace))
      ensures sys.cl == old(sys).cl && sys.lh == old(sys).lh
      ensures tail < n && sys.phase == if tail + 1 < n then WritingLog(tail + 1) else WritingHead
    {
      CopyEnabled(lay, base, trace, sys, tail);
      var to := Bread(lay.Slot(tail));
      var from := Bread(block[tail]);
      TakesCopy(lay, base, trace, sys, tail);
      Bwrite(lay.Slot(tail), from, CopyToLog, DoCopyToLog(lay, sys, tail));
    }

    /** write_log: every listed block has its copy in the log and no event is seen. */
    method WriteLog()
      requires Valid() && Undisturbed(lay, sys) && sys.phase == WritingLog(0)
      modifies this`disk, this`cache, this`dirty, this`sys, this`trace
      ensures Valid() && Events(trace) == Events(old(trace))
      ensures sys.cl == old(sys).cl && sys.lh == old(sys).lh && sys.phase == WritingHead
    {
      var tail := 0;
      CopyEnabled(lay, base, trace, sys, 0);
      while tail < n
        invariant tail <= n && Valid() && Events(trace) == Events(old(trace))
        invariant sys.cl == old(sys).cl && sys.lh == old(sys).lh
        invariant sys.phase == if tail < n then WritingLog(tail) else WritingHead
      {
        CopyBlock(tail);
        tail := tail + 1;
      }
    }

    /** The in-memory header laid over the words of the header block. */
    method FillHead(old_: seq<int>) returns (hb: seq<int>)
      requires n <= LOGSIZE == block.Length && |old_| == BLOCK_WORDS
      ensures Block(hb) == WithHead(Block(old_), block[..n])
    {
      hb := old_[0 := n];
      var i := 0;
      while i < n
        invariant i <= n
        invariant hb == [n] + block[..i] + old_[i + 1..]
      {
        hb := hb[i + 1 := block[i]];
        i := i + 1;
      }
    }

    /** write_head, at each of the three places it is called from. */
    method WriteHead()
      requires Tied() && lay.start !in sys.cl.held && n < lay.size
      requires if sys.phase == WritingHead then block[..n] == sys.lh else n == 0 && (sys.phase == Clearing || sys.phase == Scrubbing)
      modifies this`disk, this`cache, this`dirty, this`sys, this`trace
      ensures Valid() && sys.cl == old(sys).cl
      ensures sys.lh == if old(sys).phase == WritingHead then old(sys).lh else []
      ensures Events(trace) == Events(old(trace)) + if old(sys).phase == WritingHead then [Commits] else []
      ensures sys.phase == AfterHead(old(sys).phase)
    {
      HeadEnabled(lay, base, trace, sys);
      var buf := Bread(lay.start);
      var hb := FillHead(buf.words);
      TakesHead(lay, base, trace, sys);
      ghost var lh := if sys.phase == WritingHead then sys.lh else [];
      Bwrite(lay.start, Block(hb), HeadLabel(sys.phase),
             sys.(st := Written(sys.st, lay.start, WithHead(buf, lh)), lh := lh, phase := AfterHead(sys.phase)));
    }

    /** One iteration of install_trans. */
    method InstallBlock(tail: nat)
      requires Valid() && Undisturbed(lay, sys) && (sys.phase == Installing(tail) || sys.phase == Replaying(tail))
      modifies this`disk, this`cache, this`dirty, this`sys, this`trace
      ensures Valid() && Events(trace) == Events(old(trace))
      ensures sys.cl == old(sys).cl && sys.lh == old(sys).lh
      ensures tail < n && sys.phase == AfterInstall(old(sys).phase, tail + 1, n)
    {
      CopyEnabled(lay, base, trace, sys, tail);
      var lbuf := Bread(lay.Slot(tail));
      var dbuf := Bread(block[tail]);
      TakesInstall(lay, base, trace, sys, tail);
      Bwrite(block[tail], lbuf, InstallLabel(sys.phase),
             sys.(st := Written(sys.st, block[tail], lbuf), phase := AfterInstall(sys.phase, tail + 1, n)));
    }

    /** install_trans, in commit or in recovery: the durable view stays what it is while
        the listed blocks are brought in place. */
    method InstallTrans()
      requires Valid() && Undisturbed(lay, sys)
      requires sys.phase == Installing(0) || sys.phase == Replaying(0) || (sys.phase == Scrubbing && n == 0)
      modifies this`disk, this`cache, this`dirty, this`sys, this`trace
      ensures Valid() && Events(trace) == Events(old(trace))
      ensures sys.cl == old(sys).cl
      ensures sys.phase == if old(sys).phase.Installing? then Clearing else Scrubbing
    {
      var tail := 0;
      if sys.phase != Scrubbing {
        CopyEnabled(lay, base, trace, sys, 0);
      }
      while tail < n
        invariant tail <= n && Valid() && Events(trace) == Events(old(trace))
        invariant sys.cl == old(sys).cl && sys.lh == old(sys).lh
        invariant sys.phase == AfterInstall(old(sys).phase, tail, n)
      {
        InstallBlock(tail);
        tail := tail + 1;
      }
    }

    /** What commit and recovery end with: install_trans and the write of an empty header. */
    method InstallAndClear()
      requires Valid() && Undisturbed(lay, sys)
      requires sys.phase == Installing(0) || sys.phase == Replaying(0) || (sys.phase == Scrubbing && n == 0)
      modifies this`disk, this`cache, this`dirty, this`n, this`sys, this`trace
      ensures Valid() && sys.cl == old(sys).cl && n == 0 && Events(trace) == Events(old(trace))
      ensures sys.phase == if old(sys).phase.Installing? then Finishing else Running
    {
      InstallTrans();
      n := 0;
      WriteHead();
    }

    ghost method StartCommit()
      requires Valid() && sys.phase == Running && committing
      modifies this`sys, this`trace
      ensures Valid() && sys == DoStart(old(sys)) && Events(trace) == Events(old(trace))
    {
      TakesStart(lay, base, trace, sys);
      sys, trace := DoStart(sys), trace + [LogProtocol.StartCommit];
    }

    /** commit(), run by the last end_op while nobody holds a buffer it needs. */
    method Commit()
      requires Valid() && Undisturbed(lay, sys) && sys.phase == Running && committing
      modifies this`disk, this`cache, this`dirty, this`n, this`sys, this`trace
      ensures Valid() && sys.cl == old(sys).cl && sys.phase == Finishing && n == 0
      ensures Events(trace) == Events(old(trace)) + if old(n) > 0 then [Commits] else []
    {
      StartCommit();
      if n > 0 {
        WriteLog();
        WriteHead();
        InstallAndClear();
      }
    }

    method CopyHead(buf: Block)
      requires HeadOk(buf) && block.Length == LOGSIZE
      modifies this`n, block
      ensures n <= LOGSIZE && block[..n] == Head(buf)
    {
      n := buf.words[0];
      var i := 0;
      while i < n
        invariant i <= n <= LOGSIZE && n == buf.words[0]
        invariant block[..i] == Head(buf)[..i]
      {
        block[i] := buf.words[i + 1];
        i := i + 1;
      }
    }

    /** read_head: the list becomes what the header block says. */
    method ReadHead()
      requires Valid() && lay.start !in sys.cl.held && sys.phase == ReadingHead
      modifies this`cache, this`n, block, this`sys, this`trace
      ensures Valid() && Events(trace) == Events(old(trace)) && sys.cl == old(sys).cl
      ensures sys.phase == if n > 0 then Replaying(0) else Scrubbing
    {
      HeadEnabled(lay, base, trace, sys);
      var buf := Bread(lay.start);
      TakesReadHead(lay, base, trace, sys);
      assert buf == Content(sys.st, lay.start);
      CopyHead(buf);
      sys, trace := DoReadHead(lay, sys), trace + [LogProtocol.ReadHead];
    }

    /** recover_from_log, before any other process uses the disk: what was durable is in
        place, and the log is empty. */
    method RecoverFromLog()
      requires Valid() && sys.cl.held == map[] && sys.phase == ReadingHead
      modifies this`disk, this`cache, this`dirty, this`n, block, this`sys, this`trace
      ensures Valid() && sys.cl == old(sys).cl && sys.phase == Running && n == 0
      ensures Events(trace) == Events(old(trace))
      ensures ImageOk(lay, disk) && Head(disk[lay.start]) == [] && ImageOk(lay, old(disk))
      ensures HomeView(lay, disk) == HomeView(lay, Recovered(lay, old(disk)))
    {
      ReadHead();
      InstallAndClear();
      QuietIsInPlace(lay, base, old(trace), old(sys), trace, sys);
    }

    /** initlog over a well-formed image. */
    constructor (layout: Layout, d: Image)
      requires ImageOk(layout, d)
      ensures Valid() && lay == layout && disk == d && n == 0
      ensures sys == Boot(d) && base == d && trace == [] && fresh(block)
    {
      lay := layout;
      disk := d;
      cache := map[];
      dirty := {};
      n := 0;
      block := new nat[LOGSIZE];
      outstanding := 0;
      committing := false;
      base := d;
      sys := Boot(d);
      trace := [];
    }

    /** One turn of begin_op's loop: false means it goes to sleep. */
    method BeginOp(ghost o: nat) returns (started: bool)
      requires Valid() && o !in sys.cl.ops && !Recovering(sys.phase)
      modifies this`outstanding, this`sys, this`trace
      ensures Valid()
      ensures started <==> !old(committing) && old(n) + (old(outstanding) + 1) * MAXOPBLOCKS <= LOGSIZE
      ensures started ==> sys == DoBegin(old(sys), o) && Events(trace) == Events(old(trace)) + [Opens(o)]
      ensures !started ==> sys == old(sys) && trace == old(trace)
    {
      if committing {
        return false;
      } else if n + (outstanding + 1) * MAXOPBLOCKS > LOGSIZE {
        return false;
      }
      TakesBegin(lay, base, trace, sys, o);
      outstanding := outstanding + 1;
      sys, trace := DoBegin(sys, o), trace + [Begin(o)];
      return true;
    }

    /** The first half of end_op: the panic is not reached, and the last operation
        to leave is the one that has to commit. */
    method LeaveOp(ghost o: nat) returns (panics: bool, doCommit: bool)
      requires Valid() && CanEnd(sys, o)
      modifies this`outstanding, this`committing, this`sys, this`trace
      ensures Valid() && !panics && !old(committing) && outstanding == old(outstanding) - 1
      ensures doCommit <==> committing
      ensures committing <==> outstanding == 0
      ensures sys == DoEnd(old(sys), o)
      ensures Events(trace) == Events(old(trace)) + [Closes(o)]
    {
      TakesEnd(lay, base, trace, sys, o);
      outstanding := outstanding - 1;
      panics := committing;
      doCommit := false;
      if outstanding == 0 {
        doCommit := true;
        committing := true;
      }
      sys, trace := DoEnd(sys, o), trace + [End(o)];
    }

    /** The second half of end_op. */
    method CommitAndFinish()
      requires Valid() && Undisturbed(lay, sys) && sys.phase == Running && committing
      modifies this`disk, this`cache, this`dirty, this`n, this`committing, this`sys, this`trace
      ensures Valid() && sys.phase == Running && sys.cl == old(sys).cl.(committing := false)
      ensures Events(trace) == Events(old(trace)) + if old(n) > 0 then [Commits] else []
    {
      Commit();
      committing := false;
      TakesFinish(lay, base, trace, sys);
      sys, trace := DoFinish(sys), trace + [Finish];
    }

    /** end_op of an operation that has released its buffers, when no reader is in the
        way of the commit: if it was the last one, everything written so far is made
        durable, once. */
    method EndOp(ghost o: nat) returns (panics: bool)
      requires Valid() && CanEnd(sys, o) && sys.phase == Running
      requires outstanding == 1 ==> Undisturbed(lay, sys)
      modifies this`disk, this`cache, this`dirty, this`n, this`outstanding, this`committing, this`sys, this`trace
      ensures Valid() && !panics && sys.phase == Running
      ensures sys.cl == Clients(old(sys).cl.held, old(sys).cl.ops - {o}, old(outstanding) - 1, false)
      ensures Events(trace) == Events(old(trace)) + [Closes(o)] + if outstanding == 0 && old(n) > 0 then [Commits] else []
    {
      var doCommit;
      panics, doCommit := LeaveOp(o);
      if doCommit {
        CommitAndFinish();
      }
    }

    /** The search and the store of log_write. */
    method Record(b: nat)
      requires n < LOGSIZE == block.Length
      modifies this`n, block
      ensures n <= LOGSIZE && block[..n] == Absorb(old(block[..n]), b)
    {
      var i := 0;
      while i < n && block[i] != b
        invariant i <= n
        invariant b !in block[..i]
      {
        i := i + 1;
      }
      block[i] := b;
      if i == n {
        n := n + 1;
      }
      assert i == old(n) ==> block[..n] == old(block[..n]) + [b];
      assert i < old(n) ==> block[..n] == old(block[..n]) && block[..n][i] == b;
    }

    /** The tests at the top of log_write, made before log.lock is taken. */
    method CheckRoom(ghost o: nat, b: nat) returns (panics: bool)
      requires Valid() && Holds(lay, sys, o, b) && sys.cl.ops[o].calls < MAXOPBLOCKS
      modifies this`sys, this`trace
      ensures Valid() && Events(trace) == Events(old(trace))
      ensures panics <==> n >= lay.size - 1
      ensures panics ==> lay.size <= LOGSIZE && sys == old(sys) && trace == old(trace)
      ensures !panics ==> !TooBig(lay, old(sys)) && CanAppend(sys, o) && sys == DoCheck(lay, old(sys), o, b)
    {
      ReachedInv(lay, base, trace, sys);
      CheckPasses(lay, sys, o, b);
      if n >= LOGSIZE || n >= lay.size - 1 || outstanding < 1 {
        return true;
      }
      TakesCheck(lay, base, trace, sys, o, b);
      sys, trace := DoCheck(lay, sys, o, b), trace + [Check(o, b)];
      return false;
    }

    /** The part of log_write under log.lock. */
    method AppendBlock(ghost o: nat, b: nat)
      requires Valid() && CanAppend(sys, o) && sys.cl.ops[o].checked.value == b && n < lay.size - 1
      modifies this`n, block, this`dirty, this`sys, this`trace
      ensures Valid() && Events(trace) == Events(old(trace)) && sys == DoAppend(old(sys), o)
    {
      TakesAppend(lay, base, trace, sys, o);
      Record(b);
      dirty := dirty + {b};
      sys, trace := DoAppend(sys, o), trace + [Append(o)];
    }

    /** log_write by an operation that has locked block b and has calls left: it panics
        exactly when the list fills the log, and never if log.size > LOGSIZE. */
    method LogWrite(ghost o: nat, b: nat) returns (panics: bool)
      requires Valid() && Holds(lay, sys, o, b) && sys.cl.ops[o].calls < MAXOPBLOCKS
      modifies this`n, block, this`dirty, this`sys, this`trace
      ensures Valid() && Events(trace) == Events(old(trace))
      ensures panics <==> old(n) >= lay.size - 1
      ensures panics ==> lay.size <= LOGSIZE && sys == old(sys) && trace == old(trace)
      ensures !panics ==> sys == old(sys).(lh := Absorb(old(sys).lh, b), st := Pinned(old(sys).st, b),
                                           cl := Called(old(sys).cl, o))
    {
      panics := CheckRoom(o, b);
      if !panics {
        CheckThenAppend(lay, old(sys), o, b);
        AppendBlock(o, b);
      }
    }

    /** bread by an operation. */
    method ReadBuf(ghost o: nat, b: nat) returns (d: Block)
      requires Valid() && CanLock(sys, Op(o), b)
      modifies this`cache, this`sys, this`trace
      ensures Valid() && Events(trace) == Events(old(trace))
      ensures sys == DoLock(old(sys), Op(o), b) && d == Content(old(sys).st, b)
    {
      if b in cache {
        d := cache[b];
      } else {
        d := disk[b];
      }
      cache := cache[b := d];
      TakesLock(lay, base, trace, sys, o, b);
      sys, trace := DoLock(sys, Op(o), b), trace + [Lock(Op(o), b)];
    }

    /** A store into the data of a buffer the operation has locked. */
    method StoreBuf(ghost o: nat, b: nat, d: Block)
      requires Valid() && Holds(lay, sys, o, b)
      modifies this`cache, this`sys, this`trace
      ensures Valid() && Events(trace) == Events(old(trace)) + [Writes(o, b, d)]
      ensures sys == DoModify(old(sys), b, d)
    {
      cache := cache[b := d];
      TakesModify(lay, base, trace, sys, o, b, d);
      sys, trace := DoModify(sys, b, d), trace + [Modify(o, b, d)];
    }

    /** brelse: the lock is part of the protocol state only. */
    method Brelse(ghost b: nat)
      requires Valid() && CanUnlock(sys, b)
      modifies this`sys, this`trace
      ensures Valid() && Events(trace) == Events(old(trace)) && sys == DoUnlock(old(sys), b)
    {
      TakesUnlock(lay, base, trace, sys, b);
      sys, trace := DoUnlock(sys, b), trace + [Unlock(b)];
    }

    /** The way log.c says log_write is used: bread, a change to the data, log_write and
        brelse. */
    method Update(ghost o: nat, b: nat, d: Block) returns (panics: bool)
      requires Valid() && lay.Home(b) && b !in sys.cl.held
      requires o in sys.cl.ops && sys.cl.ops[o].checked == None && sys.cl.ops[o].calls < MAXOPBLOCKS
      modifies this`cache, this`n, block, this`dirty, this`sys, this`trace
      ensures Valid() && Events(trace) == Events(old(trace)) + [Writes(o, b, d)]
      ensures panics <==> old(n) >= lay.size - 1
      ensures !panics ==> sys.lh == Absorb(old(sys).lh, b) && sys.cl == Called(old(sys).cl, o) && sys.phase == old(sys).phase
    {
      UpdateEnabled(lay, base, trace, sys, o, b, d);
      var was := ReadBuf(o, b);
      StoreBuf(o, b, d);
      panics := LogWrite(o, b);
      if !panics {
        Brelse(b);
      }
    }

    /** A whole operation on its own, begin_op to end_op: unless it has to wait or
        log_write panics, its store is there after a crash, and so is everything that was
        visible before it. */
    method Transact(ghost o: nat, b: nat, d: Block) returns (done: bool)
      requires Valid() && sys.phase == Running && sys.cl == Clients(map[], map[], 0, false) && lay.Home(b)
      modifies this`disk, this`cache, this`n, block, this`dirty, this`outstanding, this`committing, this`sys, this`trace
      ensures Valid()
      ensures done <==> old(n) + MAXOPBLOCKS <= LOGSIZE && old(n) < lay.size - 1
      ensures done ==> sys.phase == Running && sys.cl == Clients(map[], map[], 0, false)
      ensures done ==> ImageOk(lay, disk) && HomeView(lay, Recovered(lay, disk)) == View(lay, old(sys).st)[b := d]
    {
      done := BeginOp(o);
      if done {
        var panics := Update(o, b, d);
        done := !panics;
        if done {
          assert sys.cl.ops - {o} == map[];
          panics := EndOp(o);
          LoneIsDurable(lay, base, old(trace), old(sys), trace, sys, o, b, d);
        }
      }
    }
  }
}
