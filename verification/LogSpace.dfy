/** Runs that fill the log: three operations log one home block after another, from
any well-formed image. log_write's "too big a transaction" panic is out of reach
exactly when the log region is larger than LOGSIZE; mkfs.c makes it LOGSIZE blocks. */
module LogSpace {
  import opened Wrappers
  import opened LogFormat
  import opened LogStore
  import opened LogProtocol
  import opened LogSafety
  import BioRing

  /** The cache never holds more than nbuf blocks, so that bget finds a buffer. */
  predicate Within(lay: Layout, s: Sys, ls: seq<Label>, nbuf: nat)
    requires IsRun(lay, s, ls)
    decreases |ls|
  {
    ls == [] || (|Do(lay, s, ls[0]).st.cache| <= nbuf && Within(lay, Do(lay, s, ls[0]), ls[1..], nbuf))
  }

  lemma {:induction false} WithinAppend(lay: Layout, s: Sys, ls: seq<Label>, l: Label, nbuf: nat)
    requires IsRun(lay, s, ls) && Enabled(lay, RunFrom(lay, s, ls), l)
    requires Within(lay, s, ls, nbuf) && |Do(lay, RunFrom(lay, s, ls), l).st.cache| <= nbuf
    ensures IsRun(lay, s, ls + [l]) && Within(lay, s, ls + [l], nbuf)
    decreases |ls|
  {
    RunAppend(lay, s, ls, l);
    if ls == [] {
      assert ls + [l] == [l] && [l][1..] == [];
      assert Within(lay, Do(lay, s, l), [], nbuf);
    } else {
      assert (ls + [l])[1..] == ls[1..] + [l];
      WithinAppend(lay, Do(lay, s, ls[0]), ls[1..], l, nbuf);
    }
  }

  /** The run ls from image d leads to s without a commit point and with nbuf buffers. */
  ghost predicate Leads(lay: Layout, d: Image, nbuf: nat, ls: seq<Label>, s: Sys) {
    && IsRun(lay, Boot(d), ls) && RunFrom(lay, Boot(d), ls) == s
    && Within(lay, Boot(d), ls, nbuf) && CommitHead !in ls
  }

  lemma Extend(lay: Layout, d: Image, nbuf: nat, ls: seq<Label>, s: Sys, l: Label) returns (r: seq<Label>)
    requires Leads(lay, d, nbuf, ls, s) && Enabled(lay, s, l) && l != CommitHead
    requires |Do(lay, s, l).st.cache| <= nbuf
    ensures Leads(lay, d, nbuf, r, Do(lay, s, l))
  {
    r := ls + [l];
    RunAppend(lay, Boot(d), ls, l);
    WithinAppend(lay, Boot(d), ls, l, nbuf);
  }

  // ------------------------------------------------------------------
  // Recovery

  /** The disk has an empty log over what recovery makes of d. */
  ghost predicate Clean(lay: Layout, d: Image, disk: Image)
    requires ImageOk(lay, d)
  {
    ImageOk(lay, disk) && Head(disk[lay.start]) == [] && HomeView(lay, disk) == HomeView(lay, Recovered(lay, d))
  }

  /** Recovery with i listed blocks behind it, and each buffer recycled after use. */
  ghost predicate Replays(lay: Layout, d: Image, s: Sys, i: nat)
    requires ImageOk(lay, d)
  {
    && Inv(lay, s) && Durable(lay, s) == HomeView(lay, Recovered(lay, d))
    && !s.panicked && s.cl == Clients(map[], map[], 0, false) && s.st.cache == map[]
    && i <= |s.lh| && s.phase == if i < |s.lh| then Replaying(i) else Scrubbing
  }

  lemma Recycled(st: Store, b: nat, v: Block)
    requires st.cache == map[] && b < |st.disk|
    ensures |Written(st, b, v).cache| == 1 && Dropped(Written(st, b, v), b).cache == map[]
  {
    assert Written(st, b, v).cache == map[b := v];
  }

  lemma ReplayNext(lay: Layout, d: Image, s: Sys, i: nat)
    requires ImageOk(lay, d) && Replays(lay, d, s, i) && i < |s.lh|
    ensures Enabled(lay, s, Replay) && |DoReplay(lay, s, i).st.cache| <= 1
    ensures var t := DoReplay(lay, s, i);
            Enabled(lay, t, Evict(s.lh[i])) && t.lh == s.lh && Replays(lay, d, DoEvict(t, s.lh[i]), i + 1)
  {
    var t := DoReplay(lay, s, i);
    Recycled(s.st, s.lh[i], Content(s.st, lay.Slot(i)));
    ReplayOk(lay, s, i);
    EvictOk(lay, t, s.lh[i]);
  }

  lemma {:induction false} ReplayAll(lay: Layout, d: Image, nbuf: nat, ls: seq<Label>, s: Sys, i: nat)
    returns (r: seq<Label>, t: Sys)
    requires ImageOk(lay, d) && nbuf > 0 && Leads(lay, d, nbuf, ls, s) && Replays(lay, d, s, i)
    ensures Leads(lay, d, nbuf, r, t) && Replays(lay, d, t, |t.lh|)
    decreases |s.lh| - i
  {
    r, t := ls, s;
    if i < |s.lh| {
      ReplayNext(lay, d, s, i);
      r := Extend(lay, d, nbuf, r, s, Replay);
      t := DoReplay(lay, s, i);
      r := Extend(lay, d, nbuf, r, t, Evict(s.lh[i]));
      r, t := ReplayAll(lay, d, nbuf, r, DoEvict(t, s.lh[i]), i + 1);
    }
  }

  /** initlog has returned and nothing is cached. */
  ghost predicate Idle(lay: Layout, d: Image, s: Sys)
    requires ImageOk(lay, d)
  {
    && s == Sys(Store(s.st.disk, map[], {}, {}), Clients(map[], map[], 0, false), [], Running, false)
    && Clean(lay, d, s.st.disk)
  }

  lemma ScrubNext(lay: Layout, d: Image, s: Sys)
    requires ImageOk(lay, d) && Replays(lay, d, s, |s.lh|)
    ensures Enabled(lay, s, Scrub) && |DoScrub(lay, s).st.cache| <= 1
    ensures Enabled(lay, DoScrub(lay, s), Evict(lay.start)) && Idle(lay, d, DoEvict(DoScrub(lay, s), lay.start))
  {
    ContentLog(lay, s.st, lay.start);
    ScrubOk(lay, s);
    var t := DoScrub(lay, s);
    Recycled(s.st, lay.start, WithHead(Content(s.st, lay.start), []));
    assert t.st.unlogged == {} && t.st.dirty == {};
  }

  lemma ReadHeadNext(lay: Layout, d: Image)
    requires ImageOk(lay, d)
    ensures Enabled(lay, Boot(d), ReadHead) && Replays(lay, d, DoReadHead(lay, Boot(d)), 0)
  {
    BootOk(lay, d);
    ReadHeadOk(lay, Boot(d));
  }

  lemma Recovers(lay: Layout, d: Image, nbuf: nat) returns (ls: seq<Label>, s: Sys)
    requires ImageOk(lay, d) && nbuf > 0
    ensures Leads(lay, d, nbuf, ls, s) && Idle(lay, d, s)
  {
    ReadHeadNext(lay, d);
    ls := Extend(lay, d, nbuf, [], Boot(d), ReadHead);
    ls, s := ReplayAll(lay, d, nbuf, ls, DoReadHead(lay, Boot(d)), 0);
    ScrubNext(lay, d, s);
    ls := Extend(lay, d, nbuf, ls, s, Scrub);
    ls := Extend(lay, d, nbuf, ls, DoScrub(lay, s), Evict(lay.start));
    s := DoEvict(DoScrub(lay, s), lay.start);
  }

  // ------------------------------------------------------------------
  // Three operations fill the log

  /** The k-th block outside the log. */
  function HomeNo(lay: Layout, k: nat): (b: nat) {
    if k < lay.start then k else k + lay.size
  }

  function Filling(lay: Layout, k: nat): seq<nat> {
    seq(k, i requires 0 <= i < k => HomeNo(lay, i))
  }

  /** Who makes the k-th log_write call: operation 0 ten, the others nine each, and
      then each of these its tenth. */
  function Maker(k: nat): nat {
    if k < 10 then 0 else if k < 19 then 1 else if k < 28 then 2 else if k == 28 then 1 else 2
  }

  function Called(ops: map<nat, OpState>, o: nat): map<nat, OpState>
    requires o in ops
  {
    ops[o := OpState(ops[o].calls + 1, None)]
  }

  /** The three operations after k calls. */
  function Ops(k: nat): (ops: map<nat, OpState>)
    ensures ops.Keys == {0, 1, 2} && forall o :: o in ops ==> ops[o].checked == None
  {
    if k == 0 then map[0 := OpState(0, None), 1 := OpState(0, None), 2 := OpState(0, None)]
    else Called(Ops(k - 1), Maker(k - 1))
  }

  lemma {:induction false} OpsAre(k: nat)
    requires k < LOGSIZE
    ensures Ops(k)[0].calls == if k <= 10 then k else 10
    ensures Ops(k)[1].calls == if k <= 10 then 0 else if k <= 19 then k - 10 else if k <= 28 then 9 else 10
    ensures Ops(k)[2].calls == if k <= 19 then 0 else if k <= 28 then k - 19 else 9
  {
    if k > 0 {
      OpsAre(k - 1);
    }
  }

  /** Every cached block is pinned, and there are as many as the list is long. */
  ghost predicate Pins(st: Store, lh: seq<nat>) {
    st.unlogged == {} && st.dirty == ToSet(lh) && st.cache.Keys == ToSet(lh) && |st.cache| == |lh|
  }

  /** Three operations are in progress and have logged the first k home blocks. */
  ghost predicate Filled(lay: Layout, d: Image, s: Sys, k: nat)
    requires ImageOk(lay, d)
  {
    && s.phase == Running && !s.panicked && s.lh == Filling(lay, k)
    && s.cl == Clients(map[], Ops(k), 3, false)
    && Clean(lay, d, s.st.disk) && Pins(s.st, s.lh)
  }

  lemma Begins(lay: Layout, d: Image, nbuf: nat) returns (ls: seq<Label>, s: Sys)
    requires ImageOk(lay, d) && nbuf > 0
    ensures Leads(lay, d, nbuf, ls, s) && Filled(lay, d, s, 0)
  {
    ls, s := Recovers(lay, d, nbuf);
    ls := Extend(lay, d, nbuf, ls, s, Begin(0));
    s := DoBegin(s, 0);
    ls := Extend(lay, d, nbuf, ls, s, Begin(1));
    s := DoBegin(s, 1);
    ls := Extend(lay, d, nbuf, ls, s, Begin(2));
    s := DoBegin(s, 2);
  }

  lemma NextHomeNo(lay: Layout, k: nat)
    requires lay.size + k < lay.total
    ensures lay.Home(HomeNo(lay, k)) && HomeNo(lay, k) !in Filling(lay, k)
    ensures Filling(lay, k + 1) == Filling(lay, k) + [HomeNo(lay, k)]
  {
  }

  /** Operation o, outside log_write, may log block b, which is not cached. */
  ghost predicate MayLog(lay: Layout, s: Sys, o: nat, b: nat) {
    && !s.panicked && |s.st.disk| == lay.total
    && o in s.cl.ops && s.cl.ops[o].calls < MAXOPBLOCKS && s.cl.ops[o].checked == None
    && lay.Home(b) && b !in s.st.cache && b !in s.cl.held
  }

  lemma LocksNext(lay: Layout, s: Sys, o: nat, b: nat)
    requires MayLog(lay, s, o, b)
    ensures Enabled(lay, s, Lock(Op(o), b)) && |DoLock(s, Op(o), b).st.cache| == |s.st.cache| + 1
    ensures Enabled(lay, DoLock(s, Op(o), b), Check(o, b))
    ensures DoCheck(lay, DoLock(s, Op(o), b), o, b).st == Loaded(s.st, b)
  {
    SetKey(s.st.cache, b, Content(s.st, b));
  }

  /** Operation o has logged and released block b. */
  function Logs(s: Sys, o: nat, b: nat): Sys
    requires o in s.cl.ops && b < |s.st.disk|
  {
    s.(st := Pinned(Loaded(s.st, b), b), lh := s.lh + [b], cl := s.cl.(ops := Called(s.cl.ops, o)))
  }

  /** log_write and brelse, when the check passes. */
  lemma LogsNext(lay: Layout, s: Sys, o: nat, b: nat)
    requires MayLog(lay, s, o, b) && b !in s.lh && !TooBig(lay, s)
    requires forall p :: p in s.cl.ops ==> s.cl.ops[p].checked == None
    ensures CanLock(s, Op(o), b) && Holds(lay, DoLock(s, Op(o), b), o, b)
    ensures var t := DoCheck(lay, DoLock(s, Op(o), b), o, b);
            && Enabled(lay, t, Append(o)) && Enabled(lay, DoAppend(t, o), Unlock(b))
            && DoUnlock(DoAppend(t, o), b) == Logs(s, o, b)
  {
    assert s.cl.held[b := Op(o)] - {b} == s.cl.held;
    assert s.cl.ops[o := s.cl.ops[o].(checked := Some(b))][o := Called(s.cl.ops, o)[o]] == Called(s.cl.ops, o);
  }

  lemma PinsNext(st: Store, lh: seq<nat>, b: nat)
    requires Pins(st, lh) && b !in lh && b < |st.disk|
    ensures Pins(Pinned(Loaded(st, b), b), lh + [b])
  {
    SetKey(st.cache, b, Content(st, b));
    assert forall x :: x in lh + [b] <==> x in lh || x == b;
  }

  lemma FilledMayLog(lay: Layout, d: Image, s: Sys, k: nat)
    requires ImageOk(lay, d) && Filled(lay, d, s, k) && k < LOGSIZE && lay.size + LOGSIZE <= lay.total
    ensures MayLog(lay, s, Maker(k), HomeNo(lay, k))
  {
    OpsAre(k);
    NextHomeNo(lay, k);
  }

  /** The next operation locks the next home block and enters log_write. */
  lemma Enters(lay: Layout, d: Image, nbuf: nat, ls: seq<Label>, s: Sys, o: nat, b: nat) returns (r: seq<Label>)
    requires Leads(lay, d, nbuf, ls, s) && MayLog(lay, s, o, b) && |s.st.cache| < nbuf
    ensures CanLock(s, Op(o), b) && Holds(lay, DoLock(s, Op(o), b), o, b)
    ensures Leads(lay, d, nbuf, r, DoCheck(lay, DoLock(s, Op(o), b), o, b))
  {
    LocksNext(lay, s, o, b);
    r := Extend(lay, d, nbuf, ls, s, Lock(Op(o), b));
    r := Extend(lay, d, nbuf, r, DoLock(s, Op(o), b), Check(o, b));
  }

  lemma FilledNext(lay: Layout, d: Image, s: Sys, k: nat)
    requires ImageOk(lay, d) && Filled(lay, d, s, k) && k < LOGSIZE && lay.size + LOGSIZE <= lay.total
    ensures HomeNo(lay, k) < |s.st.disk| && Filled(lay, d, Logs(s, Maker(k), HomeNo(lay, k)), k + 1)
  {
    NextHomeNo(lay, k);
    PinsNext(s.st, s.lh, HomeNo(lay, k));
  }

  lemma LogNext(lay: Layout, d: Image, nbuf: nat, ls: seq<Label>, s: Sys, o: nat, b: nat) returns (r: seq<Label>)
    requires Leads(lay, d, nbuf, ls, s) && |s.st.cache| < nbuf
    requires MayLog(lay, s, o, b) && b !in s.lh && !TooBig(lay, s)
    requires forall p :: p in s.cl.ops ==> s.cl.ops[p].checked == None
    ensures Leads(lay, d, nbuf, r, Logs(s, o, b))
  {
    r := Enters(lay, d, nbuf, ls, s, o, b);
    LocksNext(lay, s, o, b);
    LogsNext(lay, s, o, b);
    var t := DoCheck(lay, DoLock(s, Op(o), b), o, b);
    r := Extend(lay, d, nbuf, r, t, Append(o));
    r := Extend(lay, d, nbuf, r, DoAppend(t, o), Unlock(b));
  }

  lemma {:induction false} Fill(lay: Layout, d: Image, nbuf: nat, k: nat) returns (ls: seq<Label>, s: Sys)
    requires ImageOk(lay, d) && 0 < nbuf && k <= nbuf
    requires k < lay.size && k < LOGSIZE && lay.size + LOGSIZE <= lay.total
    ensures Leads(lay, d, nbuf, ls, s) && Filled(lay, d, s, k)
  {
    if k == 0 {
      ls, s := Begins(lay, d, nbuf);
    } else {
      ls, s := Fill(lay, d, nbuf, k - 1);
      var o, b := Maker(k - 1), HomeNo(lay, k - 1);
      FilledMayLog(lay, d, s, k - 1);
      NextHomeNo(lay, k - 1);
      ls := LogNext(lay, d, nbuf, ls, s, o, b);
      FilledNext(lay, d, s, k - 1);
      s := Logs(s, o, b);
    }
  }

  // ------------------------------------------------------------------
  // The panic

  /** No run of at-most-MAXOPBLOCKS operations from a well-formed image panics. */
  ghost predicate PanicFree(lay: Layout) {
    forall d: Image, ls: seq<Label> :: ImageOk(lay, d) && IsRun(lay, Boot(d), ls) ==> !RunFrom(lay, Boot(d), ls).panicked
  }

  /** In a log of at most LOGSIZE blocks, every image has a run that panics. */
  lemma Panics(lay: Layout, d: Image, nbuf: nat) returns (ls: seq<Label>)
    requires ImageOk(lay, d) && lay.size <= LOGSIZE && lay.size <= nbuf && lay.size + LOGSIZE <= lay.total
    ensures IsRun(lay, Boot(d), ls) && Within(lay, Boot(d), ls, nbuf) && RunFrom(lay, Boot(d), ls).panicked
  {
    var s;
    ls, s := Fill(lay, d, nbuf, lay.size - 1);
    FilledMayLog(lay, d, s, lay.size - 1);
    ls := Enters(lay, d, nbuf, ls, s, Maker(lay.size - 1), HomeNo(lay, lay.size - 1));
  }

  function Blank(total: nat): Image {
    seq(total, _ => Block(seq(BLOCK_WORDS, _ => 0)))
  }

  lemma BlankOk(lay: Layout)
    requires lay.Valid()
    ensures ImageOk(lay, Blank(lay.total))
  {
    assert Head(Blank(lay.total)[lay.start]) == [];
  }

  /** The reservation is sound exactly when log.size > LOGSIZE. */
  lemma PanicFreeIff(lay: Layout)
    requires lay.Valid() && lay.size + LOGSIZE <= lay.total
    ensures PanicFree(lay) <==> LOGSIZE < lay.size
  {
    if LOGSIZE < lay.size {
      forall d: Image, ls: seq<Label> | ImageOk(lay, d) && IsRun(lay, Boot(d), ls)
        ensures !RunFrom(lay, Boot(d), ls).panicked
      {
        BootOk(lay, d);
        AmpleIsRoomy(lay, Boot(d), ls);
        RunOk(lay, Boot(d), ls);
      }
    } else {
      BlankOk(lay);
      var ls := Panics(lay, Blank(lay.total), lay.size);
    }
  }

  /** What mkfs.c builds: LOGSIZE log blocks from block 2 of 1000. Whatever its home
      blocks and its log hold, NBUF buffers are enough for a run that panics. */
  lemma ShippedImagePanics(d: Image)
    requires ImageOk(Layout(2, LOGSIZE, 1000), d)
    ensures exists ls: seq<Label> ::
              && IsRun(Layout(2, LOGSIZE, 1000), Boot(d), ls) && Within(Layout(2, LOGSIZE, 1000), Boot(d), ls, BioRing.NBUF)
              && RunFrom(Layout(2, LOGSIZE, 1000), Boot(d), ls).panicked
  {
    var ls := Panics(Layout(2, LOGSIZE, 1000), d, BioRing.NBUF);
  }
}
