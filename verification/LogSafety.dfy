/** Every reachable state of the logging protocol is consistent, and every step is
a step of the atomic-transaction specification. */
module LogSafety {
  import opened Wrappers
  import opened LogFormat
  import opened LogStore
  import opened LogProtocol

  // ------------------------------------------------------------------
  // Log space

  /** The log_write calls that outstanding operations may still make. */
  ghost function Unspent(ops: map<nat, OpState>): (n: int)
    decreases |ops|
  {
    if |ops| == 0 then 0
    else var o :| o in ops; MAXOPBLOCKS - ops[o].calls + Unspent(ops - {o})
  }

  lemma {:induction false} UnspentWithout(ops: map<nat, OpState>, o: nat)
    requires o in ops
    ensures Unspent(ops) == MAXOPBLOCKS - ops[o].calls + Unspent(ops - {o})
    decreases |ops|
  {
    var p :| p in ops && Unspent(ops) == MAXOPBLOCKS - ops[p].calls + Unspent(ops - {p});
    if p != o {
      UnspentWithout(ops - {p}, o);
      UnspentWithout(ops - {o}, p);
      assert ops - {p} - {o} == ops - {o} - {p};
    }
  }

  lemma UnspentSet(ops: map<nat, OpState>, o: nat, st: OpState)
    ensures Unspent(ops[o := st]) == Unspent(ops - {o}) + MAXOPBLOCKS - st.calls
  {
    UnspentWithout(ops[o := st], o);
    assert ops[o := st] - {o} == ops - {o};
  }

  lemma {:induction false} UnspentBound(ops: map<nat, OpState>)
    requires forall o :: o in ops ==> ops[o].calls <= MAXOPBLOCKS
    ensures 0 <= Unspent(ops) <= |ops| * MAXOPBLOCKS
    decreases |ops|
  {
    if |ops| > 0 {
      var o :| o in ops;
      UnspentWithout(ops, o);
      UnspentBound(ops - {o});
    }
  }

  // ------------------------------------------------------------------
  // The invariant

  ghost predicate OpOk(lay: Layout, held: map<nat, Holder>, o: nat, st: OpState) {
    && st.calls <= MAXOPBLOCKS
    && (st.checked.Some? ==>
          var b := st.checked.value;
          st.calls < MAXOPBLOCKS && 1 < lay.size && lay.Home(b) && b in held && held[b] == Op(o))
  }

  ghost predicate ClientsOk(lay: Layout, cl: Clients) {
    && cl.outstanding == |cl.ops|
    && (forall b :: b in cl.held && cl.held[b].Op? ==> cl.held[b].id in cl.ops)
    && (forall o :: o in cl.ops ==> OpOk(lay, cl.held, o, cl.ops[o]))
    && (cl.committing ==> cl.ops == map[])
  }

  /** A buffer modified but not yet logged is locked by the operation that did it. */
  ghost predicate LocksOk(st: Store, cl: Clients) {
    && (forall b :: b in st.unlogged ==> b in cl.held && cl.held[b].Op?)
    && cl.held.Keys <= st.cache.Keys
  }

  function ToSet(lh: seq<nat>): (s: set<nat>)
    ensures forall b :: b in s <==> b in lh
  {
    set i | 0 <= i < |lh| :: lh[i]
  }

  ghost predicate Logged(lay: Layout, st: Store, lh: seq<nat>, k: nat)
    requires |st.disk| == lay.total && lay.Valid() && Listed(lay, lh) && k <= |lh| && k < lay.size
  {
    forall j :: 0 <= j < k ==> st.disk[lay.Slot(j)] == Content(st, lh[j])
  }

  ghost predicate Replayed(lay: Layout, d: Image, lh: seq<nat>, k: nat)
    requires |d| == lay.total && lay.Valid() && Loggable(lay, lh) && k <= |lh|
  {
    forall j :: 0 <= j < k ==> d[lh[j]] == d[lay.Slot(j)]
  }

  /** write_log has copied nothing yet, so it does not matter yet whether the log
      region has a slot for every block of the list. */
  predicate Uncopied(p: Phase) {
    p == Running || p == WritingLog(0)
  }

  ghost predicate ListOk(lay: Layout, lh: seq<nat>, phase: Phase) {
    && Listed(lay, lh)
    && (lh != [] ==> 1 < lay.size)
    && (Uncopied(phase) || |lh| < lay.size)
  }

  /** Until it is installed the list names exactly the pinned blocks, and the disk
      header is empty until the copies are all in the log. */
  ghost predicate PhaseOk(lay: Layout, st: Store, lh: seq<nat>, phase: Phase)
    requires ImageOk(lay, st.disk) && ListOk(lay, lh, phase)
  {
    var onDisk := Head(st.disk[lay.start]);
    match phase
    case Running => onDisk == [] && st.dirty == ToSet(lh)
    case WritingLog(i) => onDisk == [] && st.dirty == ToSet(lh) && i < |lh| && Logged(lay, st, lh, i)
    case WritingHead => onDisk == [] && st.dirty == ToSet(lh) && |lh| > 0 && Logged(lay, st, lh, |lh|)
    case Installing(i) => onDisk == lh && i < |lh| && st.dirty == ToSet(lh[i..]) && Logged(lay, st, lh, |lh|)
    case Clearing => onDisk == lh && st.dirty == {} && Logged(lay, st, lh, |lh|)
    case Finishing => onDisk == [] && lh == [] && st.dirty == {}
    case ReadingHead => lh == [] && st.dirty == {}
    case Replaying(i) => onDisk == lh && st.dirty == {} && i < |lh| && Replayed(lay, st.disk, lh, i)
    case Scrubbing => onDisk == lh && st.dirty == {} && Replayed(lay, st.disk, lh, |lh|)
  }

  /** Only a log of LOGSIZE blocks or less can make log_write panic. Outside Running
      no operation is in progress, and the commit flag is up exactly while commit()
      runs. */
  ghost predicate FlagsOk(lay: Layout, s: Sys) {
    && (s.panicked ==> lay.size <= LOGSIZE)
    && (s.phase != Running ==> s.cl.ops == map[] && (s.cl.committing <==> !Recovering(s.phase)))
  }

  /** Disk, cache and list, whatever the operations are doing. */
  ghost predicate CoreOk(lay: Layout, st: Store, lh: seq<nat>, phase: Phase) {
    && ImageOk(lay, st.disk)
    && ListOk(lay, lh, phase)
    && StoreOk(lay, st)
    && PhaseOk(lay, st, lh, phase)
  }

  ghost predicate Inv(lay: Layout, s: Sys) {
    match s
    case Sys(st, cl, lh, phase, _) =>
      && CoreOk(lay, st, lh, phase)
      && ClientsOk(lay, cl)
      && LocksOk(st, cl)
      && |lh| + Unspent(cl.ops) <= LOGSIZE
      && FlagsOk(lay, s)
  }

  ghost predicate Simulates(lay: Layout, s: Sys, e: Event, t: Sys)
    requires Inv(lay, s)
  {
    && Inv(lay, t)
    && Allowed(AbsOf(lay, s), e)
    && AbsOf(lay, t) == After(AbsOf(lay, s), e)
  }

  // ------------------------------------------------------------------
  // Steps of operations and readers

  /** Steps that leave the disk, the pinned set and the visible contents alone. */
  lemma PhaseFrame(lay: Layout, st: Store, st': Store, lh: seq<nat>, phase: Phase)
    requires ImageOk(lay, st.disk) && ListOk(lay, lh, phase) && PhaseOk(lay, st, lh, phase)
    requires st'.disk == st.disk && st'.dirty == st.dirty && View(lay, st') == View(lay, st)
    ensures PhaseOk(lay, st', lh, phase)
  {
    forall j | 0 <= j < |lh| ensures Content(st', lh[j]) == Content(st, lh[j]) {
      assert View(lay, st')[lh[j]] == View(lay, st)[lh[j]];
    }
  }

  lemma SetKey<T>(m: map<nat, T>, k: nat, v: T)
    ensures m[k := v].Keys == m.Keys + {k}
    ensures |m[k := v]| == |m| + if k in m then 0 else 1
  {
    assert m[k := v].Keys == m.Keys + {k};
    assert |m[k := v].Keys| == |m.Keys| + if k in m then 0 else 1;
  }

  lemma DropKey<T>(m: map<nat, T>, k: nat)
    requires k in m
    ensures (m - {k}).Keys == m.Keys - {k}
    ensures |m - {k}| == |m| - 1
  {
    assert (m - {k}).Keys == m.Keys - {k};
    assert |(m - {k}).Keys| == |m.Keys| - 1;
  }

  lemma UnspentNew(ops: map<nat, OpState>, o: nat)
    requires o !in ops && forall p :: p in ops ==> ops[p].calls <= MAXOPBLOCKS
    ensures Unspent(ops[o := OpState(0, None)]) <= (|ops| + 1) * MAXOPBLOCKS
  {
    UnspentSet(ops, o, OpState(0, None));
    assert ops - {o} == ops;
    UnspentBound(ops);
  }

  /** begin_op sets aside MAXOPBLOCKS entries for the new operation. */
  lemma BeginSpace(lay: Layout, s: Sys, o: nat)
    requires ClientsOk(lay, s.cl) && CanBegin(s, o)
    ensures |s.lh| + Unspent(DoBegin(s, o).cl.ops) <= LOGSIZE
  {
    forall p | p in s.cl.ops ensures s.cl.ops[p].calls <= MAXOPBLOCKS {
      assert OpOk(lay, s.cl.held, p, s.cl.ops[p]);
    }
    UnspentNew(s.cl.ops, o);
  }

  lemma BeginOk(lay: Layout, s: Sys, o: nat)
    requires Inv(lay, s) && CanBegin(s, o)
    ensures Simulates(lay, s, Opens(o), DoBegin(s, o))
  {
    BeginSpace(lay, s, o);
    SetKey(s.cl.ops, o, OpState(0, None));
  }

  lemma LockOk(lay: Layout, s: Sys, w: Holder, b: nat)
    requires Inv(lay, s) && CanLock(s, w, b)
    ensures Simulates(lay, s, Stutter, DoLock(s, w, b))
  {
    LoadedOk(lay, s.st, b);
    PhaseFrame(lay, s.st, Loaded(s.st, b), s.lh, s.phase);
  }

  lemma ModifyOk(lay: Layout, s: Sys, o: nat, b: nat, data: Block)
    requires Inv(lay, s) && Holds(lay, s, o, b)
    ensures Simulates(lay, s, Writes(o, b, data), DoModify(s, b, data))
  {
    ModifiedOk(lay, s.st, b, data);
  }

  lemma SpendSpace(lay: Layout, s: Sys, o: nat, st: OpState)
    requires ClientsOk(lay, s.cl) && o in s.cl.ops
    requires st.calls <= MAXOPBLOCKS
    ensures Unspent(s.cl.ops[o := st]) == Unspent(s.cl.ops) - st.calls + s.cl.ops[o].calls
    ensures MAXOPBLOCKS - s.cl.ops[o].calls <= Unspent(s.cl.ops)
  {
    assert forall p :: p in s.cl.ops ==> OpOk(lay, s.cl.held, p, s.cl.ops[p]);
    UnspentWithout(s.cl.ops, o);
    UnspentBound(s.cl.ops - {o});
    UnspentSet(s.cl.ops, o, st);
  }

  /** The reservation made in begin_op leaves one check of log_write that can fire,
      the one against log.size, and none if log.size > LOGSIZE. */
  lemma CheckPasses(lay: Layout, s: Sys, o: nat, b: nat)
    requires Inv(lay, s) && Holds(lay, s, o, b) && s.cl.ops[o].calls < MAXOPBLOCKS
    ensures TooBig(lay, s) <==> |s.lh| >= lay.size - 1
    ensures TooBig(lay, s) ==> lay.size <= LOGSIZE
  {
    SpendSpace(lay, s, o, s.cl.ops[o]);
    DropKey(s.cl.ops, o);
  }

  lemma CheckClients(lay: Layout, s: Sys, o: nat, b: nat)
    requires ClientsOk(lay, s.cl) && Holds(lay, s, o, b) && s.cl.ops[o].calls < MAXOPBLOCKS && 1 < lay.size
    ensures var ops := s.cl.ops[o := s.cl.ops[o].(checked := Some(b))];
            ClientsOk(lay, s.cl.(ops := ops)) && Unspent(ops) == Unspent(s.cl.ops) && ops.Keys == s.cl.ops.Keys
  {
    SpendSpace(lay, s, o, s.cl.ops[o].(checked := Some(b)));
    SetKey(s.cl.ops, o, s.cl.ops[o].(checked := Some(b)));
  }

  lemma PanicOk(lay: Layout, s: Sys)
    requires Inv(lay, s) && lay.size <= LOGSIZE
    ensures Simulates(lay, s, Stutter, s.(panicked := true))
  {
  }

  lemma ClientsFrame(lay: Layout, s: Sys, cl: Clients)
    requires Inv(lay, s) && ClientsOk(lay, cl) && Unspent(cl.ops) == Unspent(s.cl.ops)
    requires cl.ops.Keys == s.cl.ops.Keys && cl.held == s.cl.held && cl.committing == s.cl.committing
    ensures Simulates(lay, s, Stutter, s.(cl := cl))
  {
  }

  lemma CheckOk(lay: Layout, s: Sys, o: nat, b: nat)
    requires Inv(lay, s) && Holds(lay, s, o, b) && s.cl.ops[o].calls < MAXOPBLOCKS
    ensures Simulates(lay, s, Stutter, DoCheck(lay, s, o, b))
  {
    CheckPasses(lay, s, o, b);
    if TooBig(lay, s) {
      PanicOk(lay, s);
    } else {
      CheckClients(lay, s, o, b);
      ClientsFrame(lay, s, DoCheck(lay, s, o, b).cl);
    }
  }

  /** The store under log.lock comes after the check and repeats none of it. There is
      room for it in the list because of the reservation; whether the log region has a
      slot for it is another matter. */
  lemma AppendFits(lay: Layout, s: Sys, o: nat)
    requires Inv(lay, s) && CanAppend(s, o)
    ensures |s.lh| < LOGSIZE && 1 < lay.size
    ensures |Absorb(s.lh, s.cl.ops[o].checked.value)| + Unspent(DoAppend(s, o).cl.ops) <= LOGSIZE
    ensures Listed(lay, Absorb(s.lh, s.cl.ops[o].checked.value))
  {
    assert OpOk(lay, s.cl.held, o, s.cl.ops[o]);
    SpendSpace(lay, s, o, OpState(s.cl.ops[o].calls + 1, None));
  }

  lemma AbsorbedSet(lh: seq<nat>, b: nat)
    ensures ToSet(Absorb(lh, b)) == ToSet(lh) + {b}
  {
    assert forall x :: x in Absorb(lh, b) <==> x in lh || x == b;
  }

  lemma AppendClients(lay: Layout, cl: Clients, o: nat)
    requires ClientsOk(lay, cl) && o in cl.ops && cl.ops[o].calls < MAXOPBLOCKS
    ensures ClientsOk(lay, cl.(ops := cl.ops[o := OpState(cl.ops[o].calls + 1, None)]))
    ensures cl.ops[o := OpState(cl.ops[o].calls + 1, None)].Keys == cl.ops.Keys
  {
    SetKey(cl.ops, o, OpState(cl.ops[o].calls + 1, None));
  }

  lemma AppendOk(lay: Layout, s: Sys, o: nat)
    requires Inv(lay, s) && CanAppend(s, o)
    ensures Simulates(lay, s, Stutter, DoAppend(s, o))
  {
    AppendFits(lay, s, o);
    assert OpOk(lay, s.cl.held, o, s.cl.ops[o]);
    var b := s.cl.ops[o].checked.value;
    PinnedOk(lay, s.st, b);
    AbsorbedSet(s.lh, b);
    AppendClients(lay, s.cl, o);
  }

  lemma UnlockClients(lay: Layout, s: Sys, b: nat)
    requires ClientsOk(lay, s.cl) && LocksOk(s.st, s.cl) && CanUnlock(s, b)
    ensures ClientsOk(lay, DoUnlock(s, b).cl) && LocksOk(s.st, DoUnlock(s, b).cl)
  {
    var held' := s.cl.held - {b};
    forall o | o in s.cl.ops ensures OpOk(lay, held', o, s.cl.ops[o]) {
      assert OpOk(lay, s.cl.held, o, s.cl.ops[o]);
    }
  }

  lemma UnlockOk(lay: Layout, s: Sys, b: nat)
    requires Inv(lay, s) && CanUnlock(s, b)
    ensures Simulates(lay, s, Stutter, DoUnlock(s, b))
  {
    UnlockClients(lay, s, b);
  }

  /** No-steal: recycling a buffer changes nothing anyone can see, because a
      logged block is pinned until it has been installed. */
  lemma EvictOk(lay: Layout, s: Sys, b: nat)
    requires Inv(lay, s) && CanEvict(s, b)
    ensures Simulates(lay, s, Stutter, DoEvict(s, b))
  {
    DroppedOk(lay, s.st, b);
    PhaseFrame(lay, s.st, Dropped(s.st, b), s.lh, s.phase);
  }

  lemma EndClients(lay: Layout, s: Sys, o: nat)
    requires ClientsOk(lay, s.cl) && CanEnd(s, o)
    ensures !s.cl.committing && ClientsOk(lay, DoEnd(s, o).cl)
    ensures Unspent(DoEnd(s, o).cl.ops) <= Unspent(s.cl.ops)
    ensures DoEnd(s, o).cl.ops.Keys == s.cl.ops.Keys - {o}
  {
    SpendSpace(lay, s, o, s.cl.ops[o]);
    UnspentWithout(s.cl.ops, o);
    DropKey(s.cl.ops, o);
    assert |s.cl.ops| == 1 ==> s.cl.ops - {o} == map[];
  }

  /** The panic in end_op is unreachable. */
  lemma EndOk(lay: Layout, s: Sys, o: nat)
    requires Inv(lay, s) && CanEnd(s, o)
    ensures !s.cl.committing
    ensures Simulates(lay, s, Closes(o), DoEnd(s, o))
  {
    EndClients(lay, s, o);
  }

  // ------------------------------------------------------------------
  // Steps of commit()

  lemma StartOk(lay: Layout, s: Sys)
    requires Inv(lay, s) && s.cl.committing && s.phase == Running
    ensures Simulates(lay, s, Stutter, DoStart(s))
  {
  }

  lemma CleanView(lay: Layout, st: Store)
    requires StoreOk(lay, st) && st.dirty == {} && st.unlogged == {}
    ensures View(lay, st) == HomeView(lay, st.disk)
  {
    forall b: nat | b < lay.total ensures Content(st, b) == st.disk[b] {
      ContentClean(lay, st, b);
    }
  }

  /** When end_op clears the commit flag, nothing that was written is still volatile. */
  lemma FinishOk(lay: Layout, s: Sys)
    requires Inv(lay, s) && s.phase == Finishing
    ensures Simulates(lay, s, Stutter, DoFinish(s))
    ensures AbsOf(lay, DoFinish(s)).durable == AbsOf(lay, DoFinish(s)).current
  {
    InvQuiet(lay, s);
    AllInPlace(lay, s.st.disk);
    CleanView(lay, s.st);
  }

  /** What the disk steps of commit and recovery start from. */
  ghost predicate Quiet(lay: Layout, st: Store, lh: seq<nat>, phase: Phase) {
    CoreOk(lay, st, lh, phase) && st.unlogged == {}
  }

  lemma InvQuiet(lay: Layout, s: Sys)
    requires Inv(lay, s) && s.phase != Running
    ensures Quiet(lay, s.st, s.lh, s.phase)
  {
    assert forall b :: b in s.st.unlogged ==> b in s.cl.held && s.cl.held[b].id in s.cl.ops;
  }

  lemma LoggedFrame(lay: Layout, st: Store, st': Store, lh: seq<nat>, k: nat)
    requires |st.disk| == lay.total == |st'.disk| && lay.Valid() && Listed(lay, lh) && k <= |lh| && k < lay.size
    requires Logged(lay, st, lh, k) && View(lay, st') == View(lay, st)
    requires forall j :: 0 <= j < k ==> st'.disk[lay.Slot(j)] == st.disk[lay.Slot(j)]
    ensures Logged(lay, st', lh, k)
  {
    forall j | 0 <= j < k ensures Content(st', lh[j]) == Content(st, lh[j]) {
      assert View(lay, st')[lh[j]] == View(lay, st)[lh[j]];
    }
  }

  lemma CopyToLogStore(lay: Layout, st: Store, lh: seq<nat>, i: nat)
    requires Quiet(lay, st, lh, WritingLog(i)) && |lh| < lay.size
    ensures var st' := Written(st, lay.Slot(i), Content(st, lh[i]));
            && Quiet(lay, st', lh, if i + 1 < |lh| then WritingLog(i + 1) else WritingHead)
            && View(lay, st') == View(lay, st)
            && HomeView(lay, Recovered(lay, st'.disk)) == HomeView(lay, Recovered(lay, st.disk))
  {
    var st' := Written(st, lay.Slot(i), Content(st, lh[i]));
    assert lay.InLog(lay.Slot(i));
    WrittenOk(lay, st, lay.Slot(i), Content(st, lh[i]));
    RecoveryIgnoresListed(lay, st.disk, st'.disk);
  }

  /** A write of commit or recovery that changes nothing the specification can see. */
  lemma QuietStep(lay: Layout, s: Sys, st: Store, phase: Phase)
    requires Inv(lay, s) && s.phase != Running && phase != Running && Recovering(phase) == Recovering(s.phase)
    requires Quiet(lay, st, s.lh, phase) && s.st.cache.Keys <= st.cache.Keys
    requires Recovering(phase) || View(lay, st) == View(lay, s.st)
    requires HomeView(lay, Recovered(lay, st.disk)) == HomeView(lay, Recovered(lay, s.st.disk))
    ensures Simulates(lay, s, Stutter, s.(st := st, phase := phase))
  {
  }

  lemma CopyToLogOk(lay: Layout, s: Sys, i: nat)
    requires Inv(lay, s) && s.phase == WritingLog(i) && CanCopy(lay, s, i) && |s.lh| < lay.size
    ensures Simulates(lay, s, Stutter, DoCopyToLog(lay, s, i))
  {
    InvQuiet(lay, s);
    CopyToLogStore(lay, s.st, s.lh, i);
    QuietStep(lay, s, DoCopyToLog(lay, s, i).st, DoCopyToLog(lay, s, i).phase);
  }

  /** What recovery would produce right after the header has been written. */
  lemma CommitPoint(lay: Layout, st: Store, lh: seq<nat>)
    requires Quiet(lay, st, lh, WritingHead)
    ensures var d := st.disk[lay.start := WithHead(st.disk[lay.start], lh)];
            ImageOk(lay, d) && Head(d[lay.start]) == lh && HomeView(lay, Recovered(lay, d)) == View(lay, st)
  {
    var d := st.disk[lay.start := WithHead(st.disk[lay.start], lh)];
    HeadRoundTrip(st.disk[lay.start], lh);
    forall j | 0 <= j < |lh| ensures View(lay, st)[lh[j]] == d[lay.Slot(j)] {
      assert lay.InLog(lay.Slot(j));
    }
    forall b | b in View(lay, st) && b !in lh ensures View(lay, st)[b] == d[b] {
      ContentClean(lay, st, b);
    }
    RecoveredIs(lay, d, View(lay, st));
  }

  lemma CommitHeadStore(lay: Layout, st: Store, lh: seq<nat>)
    requires Quiet(lay, st, lh, WritingHead)
    ensures var st' := Written(st, lay.start, WithHead(st.disk[lay.start], lh));
            && Quiet(lay, st', lh, Installing(0))
            && View(lay, st') == View(lay, st)
            && HomeView(lay, Recovered(lay, st'.disk)) == View(lay, st)
  {
    CommitPoint(lay, st, lh);
    ContentLog(lay, st, lay.start);
    var st' := Written(st, lay.start, WithHead(st.disk[lay.start], lh));
    WrittenOk(lay, st, lay.start, WithHead(st.disk[lay.start], lh));
    LoggedFrame(lay, st, st', lh, |lh|);
    assert lh[0..] == lh;
  }

  /** The commit point: everything the operations wrote becomes durable at once. */
  lemma CommitHeadOk(lay: Layout, s: Sys)
    requires Inv(lay, s) && s.phase == WritingHead && CanWriteHead(lay, s)
    ensures Simulates(lay, s, Commits, DoCommitHead(lay, s))
  {
    InvQuiet(lay, s);
    ContentLog(lay, s.st, lay.start);
    CommitHeadStore(lay, s.st, s.lh);
  }

  lemma InstallStore(lay: Layout, st: Store, lh: seq<nat>, i: nat)
    requires Quiet(lay, st, lh, Installing(i))
    ensures var st' := Written(st, lh[i], st.disk[lay.Slot(i)]);
            && Quiet(lay, st', lh, if i + 1 < |lh| then Installing(i + 1) else Clearing)
            && View(lay, st') == View(lay, st)
            && HomeView(lay, Recovered(lay, st'.disk)) == HomeView(lay, Recovered(lay, st.disk))
  {
    var st' := Written(st, lh[i], st.disk[lay.Slot(i)]);
    RestOfList(lh, i);
    WrittenOk(lay, st, lh[i], st.disk[lay.Slot(i)]);
    LoggedFrame(lay, st, st', lh, |lh|);
    RecoveryIgnoresListed(lay, st.disk, st'.disk);
  }

  lemma RestOfList(lh: seq<nat>, i: nat)
    requires Distinct(lh) && i < |lh|
    ensures ToSet(lh[i..]) - {lh[i]} == ToSet(lh[i + 1..])
  {
    assert lh[i..] == [lh[i]] + lh[i + 1..];
  }

  lemma InstallOk(lay: Layout, s: Sys, i: nat)
    requires Inv(lay, s) && s.phase == Installing(i) && CanCopy(lay, s, i)
    ensures Simulates(lay, s, Stutter, DoInstall(lay, s, i))
  {
    InvQuiet(lay, s);
    ContentLog(lay, s.st, lay.Slot(i));
    InstallStore(lay, s.st, s.lh, i);
    QuietStep(lay, s, DoInstall(lay, s, i).st, DoInstall(lay, s, i).phase);
  }

  /** Emptying the header once every listed block is in place loses nothing. */
  lemma EmptyHeadStore(lay: Layout, st: Store, lh: seq<nat>, phase: Phase)
    requires Quiet(lay, st, lh, phase) && (phase == Clearing || phase == Scrubbing)
    ensures var st' := Written(st, lay.start, WithHead(st.disk[lay.start], []));
            && Quiet(lay, st', [], Finishing)
            && View(lay, st') == View(lay, st)
            && HomeView(lay, st'.disk) == HomeView(lay, Recovered(lay, st'.disk)) == HomeView(lay, Recovered(lay, st.disk))
  {
    var st' := Written(st, lay.start, WithHead(st.disk[lay.start], []));
    HeadRoundTrip(st.disk[lay.start], []);
    ContentLog(lay, st, lay.start);
    WrittenOk(lay, st, lay.start, WithHead(st.disk[lay.start], []));
    assert HomeView(lay, st'.disk) == HomeView(lay, st.disk);
    forall j | 0 <= j < |lh| ensures st.disk[lh[j]] == st.disk[lay.Slot(j)] {
      ContentClean(lay, st, lh[j]);
    }
    AllInPlace(lay, st.disk);
    AllInPlace(lay, st'.disk);
  }

  lemma ClearHeadOk(lay: Layout, s: Sys)
    requires Inv(lay, s) && s.phase == Clearing && CanWriteHead(lay, s)
    ensures Simulates(lay, s, Stutter, DoClearHead(lay, s))
  {
    InvQuiet(lay, s);
    ContentLog(lay, s.st, lay.start);
    EmptyHeadStore(lay, s.st, s.lh, s.phase);
  }

  // ------------------------------------------------------------------
  // Crashes and recovery

  lemma CrashOk(lay: Layout, s: Sys)
    requires Inv(lay, s)
    ensures Simulates(lay, s, Crashes, Boot(s.st.disk))
  {
  }

  lemma ReadHeadOk(lay: Layout, s: Sys)
    requires Inv(lay, s) && s.phase == ReadingHead && CanReadHead(lay, s)
    ensures Simulates(lay, s, Stutter, DoReadHead(lay, s))
  {
    ContentLog(lay, s.st, lay.start);
  }

  lemma ReplayedNext(lay: Layout, d: Image, lh: seq<nat>, i: nat)
    requires |d| == lay.total && lay.Valid() && Loggable(lay, lh) && i < |lh| && Replayed(lay, d, lh, i)
    ensures Replayed(lay, d[lh[i] := d[lay.Slot(i)]], lh, i + 1)
  {
    var e := d[lh[i] := d[lay.Slot(i)]];
    forall j | 0 <= j < i + 1 ensures e[lh[j]] == e[lay.Slot(j)] {
      assert lay.InLog(lay.Slot(j));
    }
  }

  lemma ReplayStore(lay: Layout, st: Store, lh: seq<nat>, i: nat)
    requires Quiet(lay, st, lh, Replaying(i))
    ensures var st' := Written(st, lh[i], st.disk[lay.Slot(i)]);
            && Quiet(lay, st', lh, if i + 1 < |lh| then Replaying(i + 1) else Scrubbing)
            && HomeView(lay, Recovered(lay, st'.disk)) == HomeView(lay, Recovered(lay, st.disk))
  {
    var st' := Written(st, lh[i], st.disk[lay.Slot(i)]);
    ReplayedNext(lay, st.disk, lh, i);
    WrittenStoreOk(lay, st, lh[i], st.disk[lay.Slot(i)]);
    RecoveryIgnoresListed(lay, st.disk, st'.disk);
  }

  lemma ReplayOk(lay: Layout, s: Sys, i: nat)
    requires Inv(lay, s) && s.phase == Replaying(i) && CanCopy(lay, s, i)
    ensures Simulates(lay, s, Stutter, DoReplay(lay, s, i))
  {
    InvQuiet(lay, s);
    ContentLog(lay, s.st, lay.Slot(i));
    ReplayStore(lay, s.st, s.lh, i);
    QuietStep(lay, s, DoReplay(lay, s, i).st, DoReplay(lay, s, i).phase);
  }

  /** When recovery completes, the home blocks on disk are the durable view. */
  lemma ScrubOk(lay: Layout, s: Sys)
    requires Inv(lay, s) && s.phase == Scrubbing && CanWriteHead(lay, s)
    ensures Simulates(lay, s, Stutter, DoScrub(lay, s))
    ensures HomeView(lay, DoScrub(lay, s).st.disk) == Durable(lay, s)
  {
    InvQuiet(lay, s);
    ContentLog(lay, s.st, lay.start);
    EmptyHeadStore(lay, s.st, s.lh, s.phase);
    CleanView(lay, DoScrub(lay, s).st);
  }

  /** When write_log copies a block, the log region has a slot for every block of the
      list. */
  predicate Fits(lay: Layout, s: Sys, l: Label) {
    l == CopyToLog ==> |s.lh| < lay.size
  }

  lemma StepOk(lay: Layout, s: Sys, l: Label)
    requires Inv(lay, s) && Enabled(lay, s, l) && Fits(lay, s, l)
    ensures Simulates(lay, s, EventOf(l), Do(lay, s, l))
  {
    match l
    case Begin(o) => BeginOk(lay, s, o);
    case Lock(w, b) => LockOk(lay, s, w, b);
    case Modify(o, b, data) => ModifyOk(lay, s, o, b, data);
    case Check(o, b) => CheckOk(lay, s, o, b);
    case Append(o) => AppendOk(lay, s, o);
    case Unlock(b) => UnlockOk(lay, s, b);
    case Evict(b) => EvictOk(lay, s, b);
    case End(o) => EndOk(lay, s, o);
    case StartCommit => StartOk(lay, s);
    case CopyToLog => CopyToLogOk(lay, s, s.phase.next);
    case CommitHead => CommitHeadOk(lay, s);
    case Install => InstallOk(lay, s, s.phase.next);
    case ClearHead => ClearHeadOk(lay, s);
    case Finish => FinishOk(lay, s);
    case Crash => CrashOk(lay, s);
    case ReadHead => ReadHeadOk(lay, s);
    case Replay => ReplayOk(lay, s, s.phase.next);
    case Scrub => ScrubOk(lay, s);
  }

  // ------------------------------------------------------------------
  // Whole runs

  /** Every list that write_log copies along the run fits the log region. */
  predicate Roomy(lay: Layout, s: Sys, ls: seq<Label>)
    requires IsRun(lay, s, ls)
    decreases |ls|
  {
    ls == [] || (Fits(lay, s, ls[0]) && Roomy(lay, Do(lay, s, ls[0]), ls[1..]))
  }

  /** In every run, with crashes anywhere, including inside recovery, the machine
      does what the specification does on the same events, for as long as write_log
      copies lists that fit the log region. */
  lemma {:induction false} RunOk(lay: Layout, s: Sys, ls: seq<Label>)
    requires Inv(lay, s) && IsRun(lay, s, ls) && Roomy(lay, s, ls)
    ensures Inv(lay, RunFrom(lay, s, ls))
    ensures SpecAllows(AbsOf(lay, s), ls)
    ensures AbsOf(lay, RunFrom(lay, s, ls)) == SpecRun(AbsOf(lay, s), ls)
    decreases |ls|
  {
    if ls != [] {
      StepOk(lay, s, ls[0]);
      RunOk(lay, Do(lay, s, ls[0]), ls[1..]);
    }
  }

  /** The log sizes for which every list fits: no list is longer than LOGSIZE, and a
      region of one block makes every log_write panic. */
  predicate Ample(lay: Layout) {
    LOGSIZE < lay.size || lay.size == 1
  }

  lemma {:induction false} AmpleIsRoomy(lay: Layout, s: Sys, ls: seq<Label>)
    requires Ample(lay) && Inv(lay, s) && IsRun(lay, s, ls)
    ensures Roomy(lay, s, ls)
    decreases |ls|
  {
    if ls != [] {
      StepOk(lay, s, ls[0]);
      AmpleIsRoomy(lay, Do(lay, s, ls[0]), ls[1..]);
    }
  }

  /** A machine that comes up over a well-formed image satisfies the invariant. */
  lemma BootOk(lay: Layout, d: Image)
    requires ImageOk(lay, d)
    ensures Inv(lay, Boot(d))
  {
    assert forall b: nat :: BufOk(lay, Boot(d).st, b);
  }

  /** How many labels come before the last commit point, or none if there is none. */
  function LastCommit(ls: seq<Label>): (k: int)
    ensures -1 <= k < |ls|
    ensures k >= 0 ==> ls[k] == CommitHead
    ensures forall i :: k < i < |ls| ==> ls[i] != CommitHead
  {
    if ls == [] then -1
    else if ls[|ls| - 1] == CommitHead then |ls| - 1
    else LastCommit(ls[..|ls| - 1])
  }

  lemma {:induction false} SpecRunSnoc(a: Abs, ls: seq<Label>, l: Label)
    ensures SpecRun(a, ls + [l]) == After(SpecRun(a, ls), EventOf(l))
    decreases |ls|
  {
    if ls == [] {
      assert [l][1..] == [];
      assert SpecRun(After(a, EventOf(l)), []) == After(a, EventOf(l));
      assert ls + [l] == [l];
    } else {
      assert (ls + [l])[1..] == ls[1..] + [l];
      SpecRunSnoc(After(a, EventOf(ls[0])), ls[1..], l);
    }
  }

  /** The durable view is the current view at the last commit point: all of what was
      written before it and nothing of what was written after it. */
  lemma {:induction false} DurableIsAPrefix(a: Abs, ls: seq<Label>)
    ensures SpecRun(a, ls).durable ==
            if LastCommit(ls) < 0 then a.durable else SpecRun(a, ls[..LastCommit(ls)]).current
    decreases |ls|
  {
    if ls != [] {
      var front := ls[..|ls| - 1];
      assert ls == front + [ls[|ls| - 1]];
      SpecRunSnoc(a, front, ls[|ls| - 1]);
      DurableIsAPrefix(a, front);
      if ls[|ls| - 1] != CommitHead && LastCommit(front) >= 0 {
        assert ls[..LastCommit(front)] == front[..LastCommit(front)];
      }
    }
  }

  /** What the run ls from image d must leave on disk: recovery makes of it exactly
      what the operations had written at the last commit point. */
  ghost predicate Refined(lay: Layout, d: Image, ls: seq<Label>)
    requires ImageOk(lay, d) && IsRun(lay, Boot(d), ls)
  {
    var a := AbsOf(lay, Boot(d));
    var t := RunFrom(lay, Boot(d), ls);
    && SpecAllows(a, ls)
    && ImageOk(lay, t.st.disk)
    && HomeView(lay, Recovered(lay, t.st.disk)) ==
       if LastCommit(ls) < 0 then HomeView(lay, Recovered(lay, d)) else SpecRun(a, ls[..LastCommit(ls)]).current
  }

  /** Crash refinement. Stop any run from a well-formed image anywhere before write_log
      starts to copy a list that has outgrown the log region. */
  lemma CrashRefinement(lay: Layout, d: Image, ls: seq<Label>)
    requires ImageOk(lay, d) && IsRun(lay, Boot(d), ls) && Roomy(lay, Boot(d), ls)
    ensures Refined(lay, d, ls)
  {
    BootOk(lay, d);
    RunOk(lay, Boot(d), ls);
    DurableIsAPrefix(AbsOf(lay, Boot(d)), ls);
  }

  lemma {:induction false} RunAppend(lay: Layout, s: Sys, ls: seq<Label>, l: Label)
    requires IsRun(lay, s, ls) && Enabled(lay, RunFrom(lay, s, ls), l)
    ensures IsRun(lay, s, ls + [l])
    ensures RunFrom(lay, s, ls + [l]) == Do(lay, RunFrom(lay, s, ls), l)
    ensures Roomy(lay, s, ls + [l]) <==> Roomy(lay, s, ls) && Fits(lay, RunFrom(lay, s, ls), l)
    decreases |ls|
  {
    if ls == [] {
      assert ls + [l] == [l] && [l][1..] == [];
      assert IsRun(lay, Do(lay, s, l), []);
      assert RunFrom(lay, Do(lay, s, l), []) == Do(lay, s, l);
      assert Roomy(lay, Do(lay, s, l), []);
    } else {
      assert (ls + [l])[1..] == ls[1..] + [l];
      RunAppend(lay, Do(lay, s, ls[0]), ls[1..], l);
    }
  }

  /** When commit() has returned, nothing the operations wrote is still volatile;
      when recover_from_log has returned, the disk itself holds the durable view. */
  lemma ReturnedIsDurable(lay: Layout, d: Image, ls: seq<Label>, l: Label)
    requires ImageOk(lay, d) && IsRun(lay, Boot(d), ls) && Roomy(lay, Boot(d), ls)
    requires Enabled(lay, RunFrom(lay, Boot(d), ls), l)
    ensures var a := SpecRun(AbsOf(lay, Boot(d)), ls + [l]);
            && (l == Finish ==> a.durable == a.current)
            && (l == Scrub ==> ImageOk(lay, Do(lay, RunFrom(lay, Boot(d), ls), l).st.disk))
            && (l == Scrub ==> HomeView(lay, Do(lay, RunFrom(lay, Boot(d), ls), l).st.disk) == a.durable == a.current)
  {
    BootOk(lay, d);
    RunOk(lay, Boot(d), ls);
    var s := RunFrom(lay, Boot(d), ls);
    RunAppend(lay, Boot(d), ls, l);
    if l == Finish {
      FinishOk(lay, s);
      RunOk(lay, Boot(d), ls + [l]);
    } else if l == Scrub {
      ScrubOk(lay, s);
      RunOk(lay, Boot(d), ls + [l]);
    }
  }
}
