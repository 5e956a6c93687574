/** When does recovery undo everything that was not committed? log_write tests the
length of the list before it takes log.lock, so in a log of at most LOGSIZE blocks two
operations can pass the test together and leave a list with one block more than the log
region has slots. write_log then copies over the home block after the log. */
module LogOverrun {
  import opened Wrappers
  import opened LogFormat
  import opened LogStore
  import opened LogProtocol
  import opened LogSafety
  import opened LogIsolation
  import opened LogSpace
  import BioRing

  // ------------------------------------------------------------------
  // Two operations pass the test together

  /** Three operations have left one slot free, and operations 1 and 2 are about to
      log one block each. */
  ghost predicate OneSlotLeft(lay: Layout, s: Sys, b: nat, c: nat) {
    && !s.panicked && s.phase == Running && |s.st.disk| == lay.total
    && |s.lh| + 2 == lay.size <= LOGSIZE && Pins(s.st, s.lh)
    && s.cl.held == map[] && s.cl.outstanding == 3 && !s.cl.committing && s.cl.ops.Keys == {0, 1, 2}
    && (forall o :: o in s.cl.ops ==> s.cl.ops[o].checked == None)
    && s.cl.ops[1].calls < MAXOPBLOCKS && s.cl.ops[2].calls < MAXOPBLOCKS
    && b != c && lay.Home(b) && lay.Home(c) && b !in s.lh && c !in s.lh
  }

  function Both(b: nat, c: nat): map<nat, Holder> {
    map[b := Op(1), c := Op(2)]
  }

  /** Both are past the test, and operation 2 has stored data into block c. */
  function Raced(s: Sys, b: nat, c: nat, data: Block): Sys
    requires 1 in s.cl.ops && 2 in s.cl.ops && b < |s.st.disk| && c < |s.st.disk|
  {
    s.(st := Modified(Loaded(Loaded(s.st, b), c), c, data),
       cl := s.cl.(held := Both(b, c),
                   ops := s.cl.ops[1 := s.cl.ops[1].(checked := Some(b))][2 := s.cl.ops[2].(checked := Some(c))]))
  }

  lemma SecondPasses(lay: Layout, s: Sys, b: nat, c: nat, data: Block)
    requires OneSlotLeft(lay, s, b, c)
    ensures MayLog(lay, s, 1, b) && CanLock(s, Op(1), b) && Holds(lay, DoLock(s, Op(1), b), 1, b)
    ensures var t := DoCheck(lay, DoLock(s, Op(1), b), 1, b);
            && MayLog(lay, t, 2, c) && |t.st.cache| == |s.lh| + 1
            && CanLock(t, Op(2), c) && |DoLock(t, Op(2), c).st.cache| == |s.lh| + 2
            && var u := DoModify(DoLock(t, Op(2), c), c, data);
            && Holds(lay, DoLock(t, Op(2), c), 2, c) && Holds(lay, u, 2, c) && |u.st.cache| == |s.lh| + 2
            && DoCheck(lay, u, 2, c) == Raced(s, b, c, data)
  {
    SetKey(s.st.cache, b, Content(s.st, b));
    var st := Loaded(s.st, b);
    SetKey(st.cache, c, Content(st, c));
    SetKey(Loaded(st, c).cache, c, data);
  }

  lemma Races(lay: Layout, d: Image, nbuf: nat, ls: seq<Label>, s: Sys, b: nat, c: nat, data: Block) returns (r: seq<Label>)
    requires Leads(lay, d, nbuf, ls, s) && OneSlotLeft(lay, s, b, c) && lay.size <= nbuf
    ensures Leads(lay, d, nbuf, r, Raced(s, b, c, data)) && |Raced(s, b, c, data).st.cache| == lay.size
  {
    SecondPasses(lay, s, b, c, data);
    r := Enters(lay, d, nbuf, ls, s, 1, b);
    var t := DoCheck(lay, DoLock(s, Op(1), b), 1, b);
    r := Extend(lay, d, nbuf, r, t, Lock(Op(2), c));
    t := DoLock(t, Op(2), c);
    r := Extend(lay, d, nbuf, r, t, Modify(2, c, data));
    t := DoModify(t, c, data);
    r := Extend(lay, d, nbuf, r, t, Check(2, c));
  }

  function OverfullStore(st: Store, b: nat, c: nat, data: Block): Store
    requires b < |st.disk| && c < |st.disk|
  {
    Pinned(Pinned(Modified(Loaded(Loaded(st, b), c), c, data), b), c)
  }

  /** Both have appended their block. */
  function Overfull(s: Sys, b: nat, c: nat, data: Block): Sys
    requires 1 in s.cl.ops && 2 in s.cl.ops && b < |s.st.disk| && c < |s.st.disk|
  {
    s.(st := OverfullStore(s.st, b, c, data), lh := s.lh + [b] + [c],
       cl := s.cl.(held := Both(b, c), ops := Called(Called(s.cl.ops, 1), 2)))
  }

  lemma CalledRaced(ops: map<nat, OpState>, b: nat, c: nat)
    requires 1 in ops && 2 in ops
    ensures var r := ops[1 := ops[1].(checked := Some(b))][2 := ops[2].(checked := Some(c))];
            Called(Called(r, 1), 2) == Called(Called(ops, 1), 2)
  {
  }

  lemma AppendOne(lay: Layout, s: Sys, o: nat, b: nat)
    requires !s.panicked && o in s.cl.ops && s.cl.ops[o].checked == Some(b) && b !in s.lh
    ensures Enabled(lay, s, Append(o))
    ensures DoAppend(s, o) == s.(st := Pinned(s.st, b), lh := s.lh + [b], cl := s.cl.(ops := Called(s.cl.ops, o)))
  {
  }

  lemma AppendBoth(lay: Layout, s: Sys, b: nat, c: nat, data: Block)
    requires OneSlotLeft(lay, s, b, c)
    ensures var t := Raced(s, b, c, data);
            && Enabled(lay, t, Append(1)) && Enabled(lay, DoAppend(t, 1), Append(2))
            && DoAppend(DoAppend(t, 1), 2) == Overfull(s, b, c, data)
  {
    var t := Raced(s, b, c, data);
    AppendOne(lay, t, 1, b);
    AppendOne(lay, DoAppend(t, 1), 2, c);
    CalledRaced(s.cl.ops, b, c);
  }

  lemma AppendsBoth(lay: Layout, d: Image, nbuf: nat, ls: seq<Label>, s: Sys, b: nat, c: nat, data: Block) returns (r: seq<Label>)
    requires OneSlotLeft(lay, s, b, c) && |Raced(s, b, c, data).st.cache| <= nbuf
    requires Leads(lay, d, nbuf, ls, Raced(s, b, c, data))
    ensures Leads(lay, d, nbuf, r, Overfull(s, b, c, data))
  {
    var t := Raced(s, b, c, data);
    AppendBoth(lay, s, b, c, data);
    r := Extend(lay, d, nbuf, ls, t, Append(1));
    r := Extend(lay, d, nbuf, r, DoAppend(t, 1), Append(2));
  }

  lemma UnlocksBoth(lay: Layout, d: Image, nbuf: nat, ls: seq<Label>, s: Sys, b: nat, c: nat) returns (r: seq<Label>)
    requires Leads(lay, d, nbuf, ls, s) && |s.st.cache| <= nbuf
    requires b != c && s.cl.held == Both(b, c) && s.st.unlogged == {} && !s.panicked
    requires forall o :: o in s.cl.ops ==> s.cl.ops[o].checked == None
    ensures Leads(lay, d, nbuf, r, s.(cl := s.cl.(held := map[])))
  {
    assert s.cl.held - {b} - {c} == map[];
    r := Extend(lay, d, nbuf, ls, s, Unlock(b));
    r := Extend(lay, d, nbuf, r, DoUnlock(s, b), Unlock(c));
  }

  /** The three operations end, and the last one starts to commit. */
  lemma EndAll(lay: Layout, s: Sys)
    requires !s.panicked && s.cl.held == map[] && s.cl.outstanding == 3 && !s.cl.committing && s.cl.ops.Keys == {0, 1, 2}
    ensures Enabled(lay, s, End(0)) && Enabled(lay, DoEnd(s, 0), End(1)) && Enabled(lay, DoEnd(DoEnd(s, 0), 1), End(2))
    ensures DoEnd(DoEnd(DoEnd(s, 0), 1), 2) == s.(cl := Clients(map[], map[], 0, true))
  {
    assert s.cl.ops - {0} - {1} - {2} == map[];
  }

  lemma EndsAll(lay: Layout, d: Image, nbuf: nat, ls: seq<Label>, s: Sys) returns (r: seq<Label>)
    requires Leads(lay, d, nbuf, ls, s) && |s.st.cache| <= nbuf
    requires !s.panicked && s.cl.held == map[] && s.cl.outstanding == 3 && !s.cl.committing && s.cl.ops.Keys == {0, 1, 2}
    requires s.phase == Running && s.lh != []
    ensures Leads(lay, d, nbuf, r, s.(phase := WritingLog(0), cl := Clients(map[], map[], 0, true)))
  {
    EndAll(lay, s);
    r := Extend(lay, d, nbuf, ls, s, End(0));
    r := Extend(lay, d, nbuf, r, DoEnd(s, 0), End(1));
    r := Extend(lay, d, nbuf, r, DoEnd(DoEnd(s, 0), 1), End(2));
    r := Extend(lay, d, nbuf, r, s.(cl := Clients(map[], map[], 0, true)), StartCommit);
  }

  // ------------------------------------------------------------------
  // write_log runs over the end of the log

  /** write_log is at block i of a list that is one block longer than the log, whose
      last block holds data. */
  ghost predicate Copying(lay: Layout, d: Image, s: Sys, data: Block, i: nat)
    requires ImageOk(lay, d)
  {
    && !s.panicked && s.cl.held == map[] && s.phase == WritingLog(i)
    && i < |s.lh| == lay.size && (forall j :: 0 <= j < |s.lh| ==> lay.Home(s.lh[j]))
    && Clean(lay, d, s.st.disk) && Pins(s.st, s.lh) && s.st.cache[s.lh[lay.size - 1]] == data
  }

  lemma CleanStill(lay: Layout, d: Image, disk: Image, b: nat, v: Block)
    requires ImageOk(lay, d) && Clean(lay, d, disk) && lay.InLog(b) && b != lay.start
    ensures Clean(lay, d, disk[b := v])
  {
    LogBlockStill(lay, disk, b, v);
  }

  lemma CopiedOne(st: Store, b: nat, v: Block)
    requires b < |st.disk| && b !in st.cache && b !in st.dirty
    ensures |Written(st, b, v).cache| == |st.cache| + 1 && Dropped(Written(st, b, v), b) == st.(disk := st.disk[b := v])
  {
    SetKey(st.cache, b, v);
    assert st.cache[b := v] - {b} == st.cache;
  }

  lemma CopyNext(lay: Layout, d: Image, s: Sys, data: Block, i: nat)
    requires ImageOk(lay, d) && Copying(lay, d, s, data, i) && i < lay.size - 1
    ensures Enabled(lay, s, CopyToLog) && |DoCopyToLog(lay, s, i).st.cache| == lay.size + 1
    ensures var t := DoCopyToLog(lay, s, i);
            Enabled(lay, t, Evict(lay.Slot(i))) && Copying(lay, d, DoEvict(t, lay.Slot(i)), data, i + 1)
  {
    var v := Content(s.st, s.lh[i]);
    CopiedOne(s.st, lay.Slot(i), v);
    CleanStill(lay, d, s.st.disk, lay.Slot(i), v);
  }

  lemma {:induction false} CopyAll(lay: Layout, d: Image, nbuf: nat, ls: seq<Label>, s: Sys, data: Block, i: nat)
    returns (r: seq<Label>, t: Sys)
    requires ImageOk(lay, d) && Leads(lay, d, nbuf, ls, s) && Copying(lay, d, s, data, i) && lay.size < nbuf
    ensures Leads(lay, d, nbuf, r, t) && Copying(lay, d, t, data, lay.size - 1)
    decreases lay.size - i
  {
    r, t := ls, s;
    if i < lay.size - 1 {
      CopyNext(lay, d, s, data, i);
      r := Extend(lay, d, nbuf, r, s, CopyToLog);
      t := DoCopyToLog(lay, s, i);
      r := Extend(lay, d, nbuf, r, t, Evict(lay.Slot(i)));
      r, t := CopyAll(lay, d, nbuf, r, DoEvict(t, lay.Slot(i)), data, i + 1);
    }
  }

  /** The last copy lands on the home block after the log. */
  lemma LastCopy(lay: Layout, d: Image, s: Sys, data: Block)
    requires ImageOk(lay, d) && Copying(lay, d, s, data, lay.size - 1) && lay.Home(lay.start + lay.size)
    ensures Enabled(lay, s, CopyToLog) && |Do(lay, s, CopyToLog).st.cache| <= lay.size + 1 && !Do(lay, s, CopyToLog).panicked
    ensures var disk := Do(lay, s, CopyToLog).st.disk;
            ImageOk(lay, disk) && HomeView(lay, Recovered(lay, disk))[lay.start + lay.size] == data
  {
    SetKey(s.st.cache, lay.start + lay.size, data);
    AllInPlace(lay, Do(lay, s, CopyToLog).st.disk);
  }

  /** A block that differs from b. */
  function Other(b: Block): (r: Block)
    ensures r != b && |r.words| == BLOCK_WORDS
  {
    var r := Block(seq(BLOCK_WORDS, _ => if b.words != [] && b.words[0] == 0 then 1 else 0));
    assert b.words != [] ==> r.words[0] != b.words[0];
    r
  }

  lemma FilledOneSlotLeft(lay: Layout, d: Image, s: Sys)
    requires ImageOk(lay, d) && 2 <= lay.size <= LOGSIZE && lay.size + LOGSIZE <= lay.total && Filled(lay, d, s, lay.size - 2)
    ensures OneSlotLeft(lay, s, HomeNo(lay, lay.size - 2), HomeNo(lay, lay.size - 1))
  {
    OpsAre(lay.size - 2);
    NextHomeNo(lay, lay.size - 2);
    NextHomeNo(lay, lay.size - 1);
  }

  lemma OverfullPins(st: Store, lh: seq<nat>, b: nat, c: nat, data: Block)
    requires Pins(st, lh) && b < |st.disk| && c < |st.disk| && b !in lh && c !in lh && b != c
    ensures Pins(OverfullStore(st, b, c, data), lh + [b] + [c])
    ensures OverfullStore(st, b, c, data).disk == st.disk && OverfullStore(st, b, c, data).cache[c] == data
  {
    PinsNext(st, lh, b);
    var t := Pinned(Loaded(st, b), b);
    PinsNext(t, lh + [b], c);
    SetKey(Loaded(t, c).cache, c, data);
  }

  lemma FillingHome(lay: Layout, k: nat)
    requires lay.size + k <= lay.total
    ensures forall j :: 0 <= j < k ==> lay.Home(Filling(lay, k)[j])
  {
  }

  /** Three operations have logged one block more than there are slots, and the last
      one holds data. */
  ghost predicate Overlong(lay: Layout, s: Sys, data: Block) {
    && !s.panicked && s.phase == Running && Pins(s.st, s.lh)
    && |s.lh| == lay.size > 0 && s.st.cache[s.lh[lay.size - 1]] == data
    && s.cl.outstanding == 3 && !s.cl.committing && s.cl.ops.Keys == {0, 1, 2}
    && (forall o :: o in s.cl.ops ==> s.cl.ops[o].checked == None)
  }

  lemma CalledBoth(ops: map<nat, OpState>)
    requires ops.Keys == {0, 1, 2} && forall o :: o in ops ==> ops[o].checked == None
    ensures var r := Called(Called(ops, 1), 2); r.Keys == {0, 1, 2} && forall o :: o in r ==> r[o].checked == None
  {
    SetKey(ops, 1, Called(ops, 1)[1]);
    SetKey(Called(ops, 1), 2, Called(Called(ops, 1), 2)[2]);
  }

  lemma OverlongOk(lay: Layout, s: Sys, st: Store, ops: map<nat, OpState>, held: map<nat, Holder>, b: nat, c: nat, data: Block)
    requires !s.panicked && s.phase == Running && s.cl.outstanding == 3 && !s.cl.committing && |s.lh| + 2 == lay.size
    requires ops.Keys == {0, 1, 2} && forall o :: o in ops ==> ops[o].checked == None
    requires Pins(st, s.lh + [b] + [c]) && c in st.cache && st.cache[c] == data
    ensures Overlong(lay, s.(st := st, lh := s.lh + [b] + [c], cl := s.cl.(held := held, ops := ops)), data)
  {
    assert (s.lh + [b] + [c])[lay.size - 1] == c;
  }

  lemma OverfullOk(lay: Layout, s: Sys, b: nat, c: nat, data: Block)
    requires OneSlotLeft(lay, s, b, c)
    ensures Overlong(lay, Overfull(s, b, c, data), data) && OverfullStore(s.st, b, c, data).disk == s.st.disk
  {
    OverfullPins(s.st, s.lh, b, c, data);
    CalledBoth(s.cl.ops);
    OverlongOk(lay, s, OverfullStore(s.st, b, c, data), Called(Called(s.cl.ops, 1), 2), Both(b, c), b, c, data);
  }

  /** commit() is about to copy the first block. */
  function EntersCommit(s: Sys): Sys {
    s.(phase := WritingLog(0), cl := Clients(map[], map[], 0, true))
  }

  lemma Overcommits(lay: Layout, d: Image, nbuf: nat, ls: seq<Label>, s: Sys, b: nat, c: nat, data: Block) returns (r: seq<Label>)
    requires Leads(lay, d, nbuf, ls, s) && Overlong(lay, s, data) && lay.size <= nbuf
    requires b != c && s.cl.held == Both(b, c)
    ensures Leads(lay, d, nbuf, r, EntersCommit(s))
  {
    r := UnlocksBoth(lay, d, nbuf, ls, s, b, c);
    r := EndsAll(lay, d, nbuf, r, s.(cl := s.cl.(held := map[])));
  }

  lemma Overfills(lay: Layout, d: Image, nbuf: nat, ls: seq<Label>, s: Sys, b: nat, c: nat, data: Block) returns (r: seq<Label>)
    requires Leads(lay, d, nbuf, ls, s) && OneSlotLeft(lay, s, b, c) && lay.size <= nbuf
    ensures Leads(lay, d, nbuf, r, EntersCommit(Overfull(s, b, c, data)))
  {
    OverfullOk(lay, s, b, c, data);
    r := Races(lay, d, nbuf, ls, s, b, c, data);
    r := AppendsBoth(lay, d, nbuf, r, s, b, c, data);
    r := Overcommits(lay, d, nbuf, r, Overfull(s, b, c, data), b, c, data);
  }

  lemma StartsCopying(lay: Layout, d: Image, s: Sys, data: Block)
    requires ImageOk(lay, d) && Overlong(lay, s, data) && Clean(lay, d, s.st.disk)
    requires forall j :: 0 <= j < |s.lh| ==> lay.Home(s.lh[j])
    ensures Copying(lay, d, EntersCommit(s), data, 0)
  {
  }

  lemma OverfullHome(lay: Layout, s: Sys, b: nat, c: nat)
    requires OneSlotLeft(lay, s, b, c) && forall j :: 0 <= j < |s.lh| ==> lay.Home(s.lh[j])
    ensures forall j :: 0 <= j < lay.size ==> lay.Home((s.lh + [b] + [c])[j])
  {
  }

  lemma CopyStarts(lay: Layout, d: Image, nbuf: nat, data: Block) returns (ls: seq<Label>, s: Sys)
    requires ImageOk(lay, d) && 2 <= lay.size <= LOGSIZE && lay.size < nbuf && lay.size + LOGSIZE <= lay.total
    ensures Leads(lay, d, nbuf, ls, s) && Copying(lay, d, s, data, 0)
  {
    var b, c := HomeNo(lay, lay.size - 2), HomeNo(lay, lay.size - 1);
    ls, s := Fill(lay, d, nbuf, lay.size - 2);
    FilledOneSlotLeft(lay, d, s);
    FillingHome(lay, lay.size - 2);
    OverfullHome(lay, s, b, c);
    ls := Overfills(lay, d, nbuf, ls, s, b, c, data);
    OverfullOk(lay, s, b, c, data);
    s := Overfull(s, b, c, data);
    StartsCopying(lay, d, s, data);
    s := EntersCommit(s);
  }

  lemma Overwrites(lay: Layout, d: Image, nbuf: nat, data: Block) returns (ls: seq<Label>, s: Sys)
    requires ImageOk(lay, d) && 2 <= lay.size <= LOGSIZE && lay.size < nbuf
    requires lay.size + LOGSIZE <= lay.total && lay.start + lay.size < lay.total
    ensures Leads(lay, d, nbuf, ls, s) && !s.panicked && ImageOk(lay, s.st.disk)
    ensures HomeView(lay, Recovered(lay, s.st.disk))[lay.start + lay.size] == data
  {
    ls, s := CopyStarts(lay, d, nbuf, data);
    ls, s := CopyAll(lay, d, nbuf, ls, s, data, 0);
    LastCopy(lay, d, s, data);
    ls := Extend(lay, d, nbuf, ls, s, CopyToLog);
    s := Do(lay, s, CopyToLog);
  }

  /** In a log of 2 to LOGSIZE blocks, every image has a run without panic and without
      a commit point after which the home block behind the log has been overwritten. */
  lemma Overruns(lay: Layout, d: Image, nbuf: nat) returns (ls: seq<Label>)
    requires ImageOk(lay, d) && 2 <= lay.size <= LOGSIZE && lay.size < nbuf
    requires lay.size + LOGSIZE <= lay.total && lay.start + lay.size < lay.total
    ensures IsRun(lay, Boot(d), ls) && Within(lay, Boot(d), ls, nbuf) && LastCommit(ls) < 0
    ensures var t := RunFrom(lay, Boot(d), ls);
            && !t.panicked && ImageOk(lay, t.st.disk)
            && HomeView(lay, Recovered(lay, t.st.disk))[lay.start + lay.size] != HomeView(lay, Recovered(lay, d))[lay.start + lay.size]
  {
    var data := Other(HomeView(lay, Recovered(lay, d))[lay.start + lay.size]);
    var s;
    ls, s := Overwrites(lay, d, nbuf, data);
  }

  // ------------------------------------------------------------------
  // The exact condition

  /** Stop any run from any well-formed image anywhere: recovery yields what had been
      written at the last commit point. */
  ghost predicate Refines(lay: Layout) {
    forall d: Image, ls: seq<Label> :: ImageOk(lay, d) && IsRun(lay, Boot(d), ls) ==> Refined(lay, d, ls)
  }

  /** The same for the runs that nbuf buffers suffice for. */
  ghost predicate RefinesWithin(lay: Layout, nbuf: nat) {
    forall d: Image, ls: seq<Label> ::
      ImageOk(lay, d) && IsRun(lay, Boot(d), ls) && Within(lay, Boot(d), ls, nbuf) ==> Refined(lay, d, ls)
  }

  /** With no more buffers than log blocks, a list that has outgrown the log pins them
      all: write_log finds no buffer for its first copy. */
  lemma CopyNeedsBuffer(lay: Layout, s: Sys, nbuf: nat)
    requires Inv(lay, s) && Enabled(lay, s, CopyToLog) && nbuf <= lay.size <= |s.lh|
    ensures |Do(lay, s, CopyToLog).st.cache| > nbuf
  {
    var st := s.st;
    assert s.phase == WritingLog(0);
    assert lay.InLog(lay.Slot(0));
    assert BufOk(lay, st, lay.Slot(0));
    DistinctSize(s.lh);
    forall b | b in st.dirty ensures b in st.cache.Keys - {lay.Slot(0)} {
      assert BufOk(lay, st, b);
    }
    SubsetSize(st.dirty, st.cache.Keys - {lay.Slot(0)});
    SetKey(st.cache, lay.Slot(0), Content(st, s.lh[0]));
  }

  lemma {:induction false} DistinctSize(lh: seq<nat>)
    requires Distinct(lh)
    ensures |ToSet(lh)| == |lh|
  {
    if lh != [] {
      var front, b := lh[..|lh| - 1], lh[|lh| - 1];
      DistinctSize(front);
      assert ToSet(lh) == ToSet(front) + {b};
    }
  }

  lemma {:induction false} SubsetSize(a: set<nat>, b: set<nat>)
    requires a <= b
    ensures |a| <= |b|
  {
    assert b == a + (b - a);
  }

  lemma {:induction false} FewBuffersAreRoomy(lay: Layout, s: Sys, ls: seq<Label>, nbuf: nat)
    requires Inv(lay, s) && IsRun(lay, s, ls) && Within(lay, s, ls, nbuf) && nbuf <= lay.size
    ensures Roomy(lay, s, ls)
    decreases |ls|
  {
    if ls != [] {
      if ls[0] == CopyToLog && |s.lh| >= lay.size {
        CopyNeedsBuffer(lay, s, nbuf);
      }
      StepOk(lay, s, ls[0]);
      FewBuffersAreRoomy(lay, Do(lay, s, ls[0]), ls[1..], nbuf);
    }
  }

  /** Given nbuf buffers, transactions are atomic exactly when the log is larger than
      LOGSIZE, or has no slots at all, or no fewer blocks than there are buffers. */
  lemma RefinesWithinIff(lay: Layout, nbuf: nat)
    requires lay.Valid() && lay.size + LOGSIZE <= lay.total && lay.start + lay.size < lay.total
    ensures RefinesWithin(lay, nbuf) <==> Ample(lay) || nbuf <= lay.size
  {
    if Ample(lay) || nbuf <= lay.size {
      forall d: Image, ls: seq<Label> | ImageOk(lay, d) && IsRun(lay, Boot(d), ls) && Within(lay, Boot(d), ls, nbuf)
        ensures Refined(lay, d, ls)
      {
        BootOk(lay, d);
        if Ample(lay) {
          AmpleIsRoomy(lay, Boot(d), ls);
        } else {
          FewBuffersAreRoomy(lay, Boot(d), ls, nbuf);
        }
        CrashRefinement(lay, d, ls);
      }
    } else {
      BlankOk(lay);
      var ls := Overruns(lay, Blank(lay.total), nbuf);
      assert !Refined(lay, Blank(lay.total), ls);
    }
  }

  /** With an unlimited cache, exactly when the log is larger than LOGSIZE or has no
      slots at all. */
  lemma RefinesIff(lay: Layout)
    requires lay.Valid() && lay.size + LOGSIZE <= lay.total && lay.start + lay.size < lay.total
    ensures Refines(lay) <==> Ample(lay)
  {
    if Ample(lay) {
      forall d: Image, ls: seq<Label> | ImageOk(lay, d) && IsRun(lay, Boot(d), ls) ensures Refined(lay, d, ls) {
        BootOk(lay, d);
        AmpleIsRoomy(lay, Boot(d), ls);
        CrashRefinement(lay, d, ls);
      }
    } else {
      BlankOk(lay);
      var ls := Overruns(lay, Blank(lay.total), lay.size + 1);
      assert !Refined(lay, Blank(lay.total), ls);
    }
  }

  /** The file system mkfs.c builds is safe, but only because param.h gives the cache
      no more buffers than the log has blocks: one more, and it is not. */
  lemma ShippedImage()
    ensures RefinesWithin(Layout(2, LOGSIZE, 1000), BioRing.NBUF)
    ensures !RefinesWithin(Layout(2, LOGSIZE, 1000), BioRing.NBUF + 1)
    ensures !Refines(Layout(2, LOGSIZE, 1000))
  {
    RefinesWithinIff(Layout(2, LOGSIZE, 1000), BioRing.NBUF);
    RefinesWithinIff(Layout(2, LOGSIZE, 1000), BioRing.NBUF + 1);
    RefinesIff(Layout(2, LOGSIZE, 1000));
  }
}
