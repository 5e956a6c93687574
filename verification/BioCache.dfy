/** The buffer cache under any number of processes: bread, modification, log_write, bwrite
and brelse interleave step by step over the ring of BioRing. */
module BioCache {
  import opened Wrappers
  import opened BioRing

  type Data = seq<nat>
  type Key = (nat, nat)

  /** Where a process is with buffer b: after bget, inside its sleep lock (touched: data
      changed since log_write or bwrite), or between releasesleep and refcnt--. */
  datatype Proc =
    | Away
    | Waiting(b: nat, key: Key)
    | Holding(b: nat, key: Key, touched: bool)
    | Leaving(b: nat, key: Key)

  /** view is what the clients last stored in each block. */
  datatype Sys = Sys(
    bufs: seq<Buf>,
    data: seq<Data>,
    order: seq<nat>,
    procs: seq<Proc>,
    disk: map<Key, Data>,
    view: map<Key, Data>)

  function KeyOf(b: Buf): Key {
    (b.dev, b.blockno)
  }

  predicate Holds(s: Sys, p: nat, b: nat) {
    p < |s.procs| && s.procs[p].Holding? && s.procs[p].b == b
  }

  predicate Shape(s: Sys) {
    && |s.bufs| == |s.data| == NBUF && |s.order| == NBUF && Distinct(s.order)
    && forall b :: 0 <= b < NBUF ==> b in s.order
  }

  // ------------------------------------------------------------------
  // Steps

  datatype Label =
    | Get(p: nat, dev: nat, blockno: nat)
    | Acquire(p: nat)
    | Fill(p: nat)
    | Modify(p: nat, d: Data)
    | LogWrite(p: nat)
    | Bwrite(p: nat)
    | Unlock(p: nat)
    | Drop(p: nat)

  /** bget takes its decision under bcache.lock; the device must be a real one and the
      block on it. Not enabled when every buffer is in use: that is the panic. */
  predicate CanGet(s: Sys, p: nat, dev: nat, blockno: nat) {
    && Shape(s) && p < |s.procs| && s.procs[p].Away? && dev != 0 && (dev, blockno) in s.disk
    && (Hit(s.bufs, s.order, dev, blockno, 0).Some? || Victim(s.bufs, s.order, NBUF).Some?)
  }

  function DoGet(s: Sys, p: nat, dev: nat, blockno: nat): Sys
    requires CanGet(s, p, dev, blockno)
  {
    var h := Hit(s.bufs, s.order, dev, blockno, 0);
    if h.Some? then
      s.(bufs := s.bufs[h.value := s.bufs[h.value].(refcnt := s.bufs[h.value].refcnt + 1)],
         procs := s.procs[p := Waiting(h.value, (dev, blockno))])
    else
      Recycle(s, p, Victim(s.bufs, s.order, NBUF).value, dev, blockno)
  }

  /** Buffer v is given to block (dev, blockno), for process p. */
  function Recycle(s: Sys, p: nat, v: nat, dev: nat, blockno: nat): Sys
    requires p < |s.procs| && v < |s.bufs|
  {
    s.(bufs := s.bufs[v := Buf(dev, blockno, 1, false, false)],
       procs := s.procs[p := Waiting(v, (dev, blockno))])
  }

  predicate CanAcquire(s: Sys, p: nat) {
    p < |s.procs| && s.procs[p].Waiting? && forall q :: 0 <= q < |s.procs| ==> !Holds(s, q, s.procs[p].b)
  }

  function DoAcquire(s: Sys, p: nat): Sys
    requires CanAcquire(s, p)
  {
    s.(procs := s.procs[p := Holding(s.procs[p].b, s.procs[p].key, false)])
  }

  predicate Inside(s: Sys, p: nat) {
    Shape(s) && p < |s.procs| && s.procs[p].Holding? && s.procs[p].b < NBUF && KeyOf(s.bufs[s.procs[p].b]) in s.disk
  }

  /** iderw as memide.c does it. */
  function Iderw(s: Sys, b: nat): Sys
    requires Shape(s) && b < NBUF && KeyOf(s.bufs[b]) in s.disk
  {
    var key := KeyOf(s.bufs[b]);
    var clean := s.bufs[b := s.bufs[b].(valid := true, dirty := false)];
    if s.bufs[b].dirty then s.(bufs := clean, disk := s.disk[key := s.data[b]])
    else s.(bufs := clean, data := s.data[b := s.disk[key]])
  }

  predicate CanFill(s: Sys, p: nat) {
    Inside(s, p) && !s.bufs[s.procs[p].b].valid
  }

  predicate CanUse(s: Sys, p: nat) {
    Inside(s, p) && s.bufs[s.procs[p].b].valid
  }

  function DoModify(s: Sys, p: nat, d: Data): Sys
    requires CanUse(s, p)
  {
    var b := s.procs[p].b;
    s.(data := s.data[b := d],
       view := s.view[KeyOf(s.bufs[b]) := d],
       procs := s.procs[p := s.procs[p].(touched := true)])
  }

  function DoLogWrite(s: Sys, p: nat): Sys
    requires CanUse(s, p)
  {
    var b := s.procs[p].b;
    s.(bufs := s.bufs[b := s.bufs[b].(dirty := true)], procs := s.procs[p := s.procs[p].(touched := false)])
  }

  function DoBwrite(s: Sys, p: nat): Sys
    requires CanUse(s, p)
  {
    var t := DoLogWrite(s, p);
    Iderw(t, s.procs[p].b)
  }

  /** A client that changed the data has called log_write or bwrite before brelse. */
  predicate CanUnlock(s: Sys, p: nat) {
    CanUse(s, p) && !s.procs[p].touched
  }

  function DoUnlock(s: Sys, p: nat): Sys
    requires CanUnlock(s, p)
  {
    s.(procs := s.procs[p := Leaving(s.procs[p].b, s.procs[p].key)])
  }

  predicate CanDrop(s: Sys, p: nat) {
    Shape(s) && p < |s.procs| && s.procs[p].Leaving? && s.procs[p].b < NBUF && s.bufs[s.procs[p].b].refcnt > 0
  }

  function Place(order: seq<nat>, b: nat): (k: nat)
    requires b in order
    ensures k < |order| && order[k] == b
  {
    if order[0] == b then 0 else 1 + Place(order[1..], b)
  }

  function DoDrop(s: Sys, p: nat): Sys
    requires CanDrop(s, p)
  {
    var b := s.procs[p].b;
    assert b in s.order;
    var left := s.bufs[b].refcnt - 1;
    s.(bufs := s.bufs[b := s.bufs[b].(refcnt := left)],
       order := if left == 0 then Fronted(s.order, Place(s.order, b)) else s.order,
       procs := s.procs[p := Away])
  }

  predicate Enabled(s: Sys, l: Label) {
    match l
    case Get(p, dev, blockno) => CanGet(s, p, dev, blockno)
    case Acquire(p) => CanAcquire(s, p)
    case Fill(p) => CanFill(s, p)
    case Modify(p, d) => CanUse(s, p)
    case LogWrite(p) => CanUse(s, p)
    case Bwrite(p) => CanUse(s, p)
    case Unlock(p) => CanUnlock(s, p)
    case Drop(p) => CanDrop(s, p)
  }

  function Do(s: Sys, l: Label): Sys
    requires Enabled(s, l)
  {
    match l
    case Get(p, dev, blockno) => DoGet(s, p, dev, blockno)
    case Acquire(p) => DoAcquire(s, p)
    case Fill(p) => Iderw(s, s.procs[p].b)
    case Modify(p, d) => DoModify(s, p, d)
    case LogWrite(p) => DoLogWrite(s, p)
    case Bwrite(p) => DoBwrite(s, p)
    case Unlock(p) => DoUnlock(s, p)
    case Drop(p) => DoDrop(s, p)
  }

  /** After binit, with no process inside. */
  predicate Initial(s: Sys) {
    && Shape(s) && s.view == s.disk
    && (forall b :: 0 <= b < NBUF ==> s.bufs[b] == Buf(0, 0, 0, false, false))
    && forall p :: 0 <= p < |s.procs| ==> s.procs[p] == Away
  }

  predicate IsRun(s: Sys, ls: seq<Label>)
    decreases |ls|
  {
    ls == [] || (Enabled(s, ls[0]) && IsRun(Do(s, ls[0]), ls[1..]))
  }

  function RunFrom(s: Sys, ls: seq<Label>): (t: Sys)
    requires IsRun(s, ls)
    decreases |ls|
  {
    if ls == [] then s else RunFrom(Do(s, ls[0]), ls[1..])
  }

  // ------------------------------------------------------------------
  // Invariant

  predicate Uses(q: Proc, b: nat) {
    !q.Away? && q.b == b
  }

  ghost function Users(procs: seq<Proc>, b: nat): set<nat> {
    set p | 0 <= p < |procs| && Uses(procs[p], b)
  }

  /** A process's buffer carries the block it asked for, and its reference is counted. */
  predicate ProcOk(s: Sys, p: nat)
    requires Shape(s) && p < |s.procs|
  {
    var q := s.procs[p];
    q.Away? || (q.b < NBUF && KeyOf(s.bufs[q.b]) == q.key && q.key.0 != 0 && q.key in s.disk)
  }

  predicate Touched(s: Sys, b: nat) {
    exists p :: 0 <= p < |s.procs| && Holds(s, p, b) && s.procs[p].touched
  }

  /** The block of a real device the buffer holds, and what its flags promise. */
  ghost predicate BufOk(s: Sys, b: nat)
    requires Shape(s) && b < NBUF
  {
    var u := s.bufs[b];
    && u.refcnt == |Users(s.procs, b)|
    && (u.dirty ==> u.valid)
    && (u.valid ==> u.dev != 0)
    && (u.dev != 0 ==> KeyOf(u) in s.disk && KeyOf(u) in s.view)
    && (u.valid ==> s.data[b] == s.view[KeyOf(u)])
    && (u.valid && !u.dirty && !Touched(s, b) ==> s.data[b] == s.disk[KeyOf(u)])
  }

  predicate Carries(s: Sys, b: nat, key: Key) {
    b < |s.bufs| && s.bufs[b].valid && KeyOf(s.bufs[b]) == key
  }

  /** A block no valid buffer carries is up to date on disk. */
  ghost predicate DiskOk(s: Sys, key: Key) {
    && key in s.disk && key in s.view
    && ((forall b :: 0 <= b < |s.bufs| ==> !Carries(s, b, key)) ==> s.disk[key] == s.view[key])
  }

  ghost predicate OneHolder(s: Sys) {
    forall p, q, b :: Holds(s, p, b) && Holds(s, q, b) ==> p == q
  }

  ghost predicate Inv(s: Sys) {
    && Shape(s) && Unique(s.bufs) && OneHolder(s) && s.disk.Keys == s.view.Keys
    && (forall p {:trigger ProcOk(s, p)} :: 0 <= p < |s.procs| ==> ProcOk(s, p))
    && (forall b {:trigger BufOk(s, b)} :: 0 <= b < NBUF ==> BufOk(s, b))
    && forall key {:trigger DiskOk(s, key)} :: key in s.disk ==> DiskOk(s, key)
  }

  // ------------------------------------------------------------------
  // Every step keeps it

  lemma UsersSame(procs: seq<Proc>, p: nat, q: Proc, b: nat)
    requires p < |procs| && (Uses(procs[p], b) <==> Uses(q, b))
    ensures Users(procs[p := q], b) == Users(procs, b)
  {
  }

  lemma UsersGain(procs: seq<Proc>, p: nat, q: Proc, b: nat)
    requires p < |procs| && !Uses(procs[p], b) && Uses(q, b)
    ensures |Users(procs[p := q], b)| == |Users(procs, b)| + 1
  {
    assert Users(procs[p := q], b) == Users(procs, b) + {p};
  }

  lemma UsersLose(procs: seq<Proc>, p: nat, q: Proc, b: nat)
    requires p < |procs| && Uses(procs[p], b) && !Uses(q, b)
    ensures |Users(procs[p := q], b)| + 1 == |Users(procs, b)|
  {
    assert Users(procs, b) == Users(procs[p := q], b) + {p};
  }

  lemma Counted(s: Sys, p: nat)
    requires Inv(s) && p < |s.procs| && !s.procs[p].Away?
    ensures s.procs[p].b < NBUF && s.bufs[s.procs[p].b].refcnt > 0
  {
    assert ProcOk(s, p);
    var b := s.procs[p].b;
    assert BufOk(s, b);
    assert p in Users(s.procs, b);
  }

  /** A process moves on with its own buffer; the flags and the data stay. */
  ghost predicate OnlyMoves(s: Sys, t: Sys, p: nat) {
    && p < |s.procs| == |t.procs| && t == s.(procs := s.procs[p := t.procs[p]])
    && !s.procs[p].Away? && !t.procs[p].Away?
    && t.procs[p].b == s.procs[p].b && t.procs[p].key == s.procs[p].key
    && !(s.procs[p].Holding? && s.procs[p].touched) && !(t.procs[p].Holding? && t.procs[p].touched)
  }

  lemma TouchedSame(s: Sys, t: Sys, p: nat, b: nat)
    requires OnlyMoves(s, t, p)
    ensures Touched(t, b) <==> Touched(s, b)
  {
    if Touched(s, b) {
      var q :| 0 <= q < |s.procs| && Holds(s, q, b) && s.procs[q].touched;
      assert Holds(t, q, b) && t.procs[q].touched;
    }
    if Touched(t, b) {
      var q :| 0 <= q < |t.procs| && Holds(t, q, b) && t.procs[q].touched;
      assert Holds(s, q, b) && s.procs[q].touched;
    }
  }

  lemma MovesOk(s: Sys, t: Sys, p: nat)
    requires Inv(s) && OnlyMoves(s, t, p)
    requires t.procs[p].Holding? && !s.procs[p].Holding? ==> forall q :: 0 <= q < |s.procs| ==> !Holds(s, q, s.procs[p].b)
    ensures Inv(t)
  {
    forall q | 0 <= q < |t.procs| ensures ProcOk(t, q) {
      assert ProcOk(s, q);
    }
    forall b | 0 <= b < NBUF ensures BufOk(t, b) {
      assert BufOk(s, b);
      UsersSame(s.procs, p, t.procs[p], b);
      TouchedSame(s, t, p, b);
    }
    forall key | key in t.disk ensures DiskOk(t, key) {
      assert DiskOk(s, key);
      SameCarriers(s, t, key);
    }
    forall q, r, b | Holds(t, q, b) && Holds(t, r, b) ensures q == r {
      assert q != p || s.procs[p].Holding? ==> Holds(s, q, b);
      assert r != p || s.procs[p].Holding? ==> Holds(s, r, b);
    }
  }

  lemma SameCarriers(s: Sys, t: Sys, key: Key)
    requires DiskOk(s, key) && t.disk == s.disk && t.view == s.view && |t.bufs| == |s.bufs|
    requires forall b :: 0 <= b < |s.bufs| ==> (Carries(t, b, key) <==> Carries(s, b, key))
    ensures DiskOk(t, key)
  {
  }

  lemma AcquireOk(s: Sys, p: nat)
    requires Inv(s) && CanAcquire(s, p)
    ensures Inv(DoAcquire(s, p))
  {
    MovesOk(s, DoAcquire(s, p), p);
  }

  lemma UnlockOk(s: Sys, p: nat)
    requires Inv(s) && CanUnlock(s, p)
    ensures Inv(DoUnlock(s, p))
  {
    MovesOk(s, DoUnlock(s, p), p);
  }

  lemma DropBuf(s: Sys, p: nat, b: nat)
    requires Inv(s) && CanDrop(s, p) && Shape(DoDrop(s, p)) && b < NBUF
    ensures BufOk(DoDrop(s, p), b)
  {
    var t := DoDrop(s, p);
    assert BufOk(s, b);
    if b == s.procs[p].b {
      UsersLose(s.procs, p, Away, b);
    } else {
      UsersSame(s.procs, p, Away, b);
    }
    if Touched(s, b) {
      var q :| 0 <= q < |s.procs| && Holds(s, q, b) && s.procs[q].touched;
      assert Holds(t, q, b) && t.procs[q].touched;
    }
  }

  lemma DropShape(s: Sys, p: nat)
    requires Inv(s) && CanDrop(s, p)
    ensures Shape(DoDrop(s, p))
  {
    var b := s.procs[p].b;
    assert b in s.order;
    if s.bufs[b].refcnt == 1 {
      FrontedShape(s.order, Place(s.order, b));
    }
  }

  lemma DropOk(s: Sys, p: nat)
    requires Inv(s) && CanDrop(s, p)
    ensures Inv(DoDrop(s, p))
  {
    var t := DoDrop(s, p);
    DropShape(s, p);
    forall q | 0 <= q < |t.procs| ensures ProcOk(t, q) {
      assert ProcOk(s, q);
    }
    forall b | 0 <= b < NBUF ensures BufOk(t, b) {
      DropBuf(s, p, b);
    }
    forall key | key in t.disk ensures DiskOk(t, key) {
      assert DiskOk(s, key);
      SameCarriers(s, t, key);
    }
    forall q, r, b | Holds(t, q, b) && Holds(t, r, b) ensures q == r {
      assert Holds(s, q, b) && Holds(s, r, b);
    }
  }

  // Steps of the holder that change flags, data or disk.

  /** The step of p changes only its own buffer b, and the disk and view at b's block. */
  ghost predicate OwnStep(s: Sys, t: Sys, p: nat) {
    && Inv(s) && Inside(s, p) && |t.procs| == |s.procs|
    && t.procs == s.procs[p := t.procs[p]]
    && t.procs[p].Holding? && t.procs[p].b == s.procs[p].b && t.procs[p].key == s.procs[p].key
    && var b := s.procs[p].b;
    && |t.bufs| == |t.data| == NBUF && t.order == s.order
    && t.bufs == s.bufs[b := t.bufs[b]] && t.data == s.data[b := t.data[b]]
    && t.bufs[b].refcnt == s.bufs[b].refcnt && KeyOf(t.bufs[b]) == KeyOf(s.bufs[b])
    && var key := KeyOf(s.bufs[b]);
    && key in s.view && key in t.disk && key in t.view
    && t.disk == s.disk[key := t.disk[key]] && t.view == s.view[key := t.view[key]]
  }

  lemma OwnTouched(s: Sys, t: Sys, p: nat, b: nat)
    requires OwnStep(s, t, p)
    ensures b == s.procs[p].b ==> (Touched(t, b) <==> t.procs[p].touched)
    ensures b != s.procs[p].b ==> (Touched(t, b) <==> Touched(s, b))
  {
    assert Holds(s, p, s.procs[p].b) && Holds(t, p, s.procs[p].b);
    if Touched(t, b) {
      var q :| 0 <= q < |t.procs| && Holds(t, q, b) && t.procs[q].touched;
      assert Holds(s, q, b);
      assert q != p ==> s.procs[q].touched;
    }
    if Touched(s, b) {
      var q :| 0 <= q < |s.procs| && Holds(s, q, b) && s.procs[q].touched;
      assert Holds(t, q, b);
      assert q != p ==> t.procs[q].touched;
    }
  }

  lemma OwnOther(s: Sys, t: Sys, p: nat, b: nat)
    requires OwnStep(s, t, p) && b < NBUF && b != s.procs[p].b
    ensures Shape(t) && BufOk(t, b)
  {
    assert BufOk(s, b);
    assert ProcOk(s, p);
    UsersSame(s.procs, p, t.procs[p], b);
    OwnTouched(s, t, p, b);
    var mine := s.procs[p].b;
    assert s.bufs[b].dev != 0 ==> KeyOf(s.bufs[b]) != KeyOf(s.bufs[mine]) by {
      if s.bufs[b].dev != 0 && KeyOf(s.bufs[b]) == KeyOf(s.bufs[mine]) {
        Two(s.bufs, b, mine);
      }
    }
  }

  lemma Two(bufs: seq<Buf>, b: nat, c: nat)
    requires Unique(bufs) && b < |bufs| && c < |bufs| && bufs[b].dev != 0 && KeyOf(bufs[b]) == KeyOf(bufs[c])
    ensures b == c
  {
    assert Matches(bufs[b], bufs[c].dev, bufs[c].blockno) && Matches(bufs[c], bufs[b].dev, bufs[b].blockno);
  }

  /** What is left to show is about the buffer itself. */
  lemma OwnOk(s: Sys, t: Sys, p: nat)
    requires OwnStep(s, t, p)
    requires var b := s.procs[p].b;
             var (u, key) := (t.bufs[b], KeyOf(s.bufs[b]));
             && u.valid && t.data[b] == t.view[key]
             && (!u.dirty && !t.procs[p].touched ==> t.data[b] == t.disk[key])
    ensures Inv(t)
  {
    var b := s.procs[p].b;
    forall q | 0 <= q < |t.procs| ensures ProcOk(t, q) {
      assert ProcOk(s, q);
    }
    forall c | 0 <= c < NBUF ensures BufOk(t, c) {
      if c == b {
        assert BufOk(s, b) && ProcOk(s, p);
        UsersSame(s.procs, p, t.procs[p], b);
        OwnTouched(s, t, p, b);
      } else {
        OwnOther(s, t, p, c);
      }
    }
    assert Carries(t, b, KeyOf(s.bufs[b]));
    forall key | key in t.disk ensures DiskOk(t, key) {
      assert DiskOk(s, key);
      if key != KeyOf(s.bufs[b]) {
        assert forall c :: 0 <= c < NBUF ==> (Carries(t, c, key) <==> Carries(s, c, key));
      }
    }
    OwnHolder(s, t, p);
    OwnUnique(s, t, p);
  }

  lemma OwnHolder(s: Sys, t: Sys, p: nat)
    requires OwnStep(s, t, p)
    ensures OneHolder(t)
  {
    forall q, r, b | Holds(t, q, b) && Holds(t, r, b) ensures q == r {
      assert Holds(s, q, b) && Holds(s, r, b);
    }
  }

  lemma OwnUnique(s: Sys, t: Sys, p: nat)
    requires OwnStep(s, t, p)
    ensures Unique(t.bufs)
  {
    forall b, c | 0 <= b < c < |t.bufs| && t.bufs[b].dev != 0 ensures !Matches(t.bufs[c], t.bufs[b].dev, t.bufs[b].blockno) {
      assert !Matches(s.bufs[c], s.bufs[b].dev, s.bufs[b].blockno);
    }
  }

  /** bread's iderw always reads: the disk does not change. */
  lemma FillReads(s: Sys, p: nat)
    requires Inv(s) && CanFill(s, p)
    ensures Iderw(s, s.procs[p].b).disk == s.disk
  {
    assert BufOk(s, s.procs[p].b);
  }

  lemma FillOk(s: Sys, p: nat)
    requires Inv(s) && CanFill(s, p)
    ensures Inv(Iderw(s, s.procs[p].b))
  {
    var b := s.procs[p].b;
    var t, key := Iderw(s, b), KeyOf(s.bufs[b]);
    assert BufOk(s, b) && ProcOk(s, p) && DiskOk(s, key);
    forall c | 0 <= c < NBUF ensures !Carries(s, c, key) {
      if Carries(s, c, key) {
        Two(s.bufs, c, b);
      }
    }
    assert OwnStep(s, t, p);
    OwnOk(s, t, p);
  }

  lemma ModifyOk(s: Sys, p: nat, d: Data)
    requires Inv(s) && CanUse(s, p)
    ensures Inv(DoModify(s, p, d))
  {
    assert BufOk(s, s.procs[p].b);
    OwnOk(s, DoModify(s, p, d), p);
  }

  lemma LogWriteOk(s: Sys, p: nat)
    requires Inv(s) && CanUse(s, p)
    ensures Inv(DoLogWrite(s, p))
  {
    assert BufOk(s, s.procs[p].b);
    OwnOk(s, DoLogWrite(s, p), p);
  }

  lemma BwriteOk(s: Sys, p: nat)
    requires Inv(s) && CanUse(s, p)
    ensures Inv(DoBwrite(s, p))
  {
    assert BufOk(s, s.procs[p].b);
    OwnOk(s, DoBwrite(s, p), p);
  }

  // bget

  lemma TouchedEnter(s: Sys, t: Sys, p: nat, q: Proc, b: nat)
    requires p < |s.procs| && s.procs[p].Away? && q.Waiting? && t.procs == s.procs[p := q]
    ensures Touched(t, b) <==> Touched(s, b)
  {
    if Touched(s, b) {
      var r :| 0 <= r < |s.procs| && Holds(s, r, b) && s.procs[r].touched;
      assert Holds(t, r, b) && t.procs[r].touched;
    }
    if Touched(t, b) {
      var r :| 0 <= r < |t.procs| && Holds(t, r, b) && t.procs[r].touched;
      assert Holds(s, r, b) && s.procs[r].touched;
    }
  }

  lemma EnterHolder(s: Sys, t: Sys, p: nat, q: Proc)
    requires OneHolder(s) && p < |s.procs| && s.procs[p].Away? && q.Waiting? && t.procs == s.procs[p := q]
    ensures OneHolder(t)
  {
    forall x, y, b | Holds(t, x, b) && Holds(t, y, b) ensures x == y {
      assert Holds(s, x, b) && Holds(s, y, b);
    }
  }

  lemma HitOk(s: Sys, p: nat, dev: nat, blockno: nat)
    requires Inv(s) && CanGet(s, p, dev, blockno) && Hit(s.bufs, s.order, dev, blockno, 0).Some?
    ensures Inv(DoGet(s, p, dev, blockno))
  {
    var t, h := DoGet(s, p, dev, blockno), Hit(s.bufs, s.order, dev, blockno, 0).value;
    assert h in s.order;
    forall q | 0 <= q < |t.procs| ensures ProcOk(t, q) {
      assert ProcOk(s, q);
    }
    forall b | 0 <= b < NBUF ensures BufOk(t, b) {
      assert BufOk(s, b);
      TouchedEnter(s, t, p, t.procs[p], b);
      if b == h {
        UsersGain(s.procs, p, t.procs[p], b);
      } else {
        UsersSame(s.procs, p, t.procs[p], b);
      }
    }
    forall key | key in t.disk ensures DiskOk(t, key) {
      assert DiskOk(s, key);
      SameCarriers(s, t, key);
    }
    EnterHolder(s, t, p, t.procs[p]);
  }

  /** A recycled buffer has no user, and what it held is on disk. */
  lemma VictimOk(s: Sys, v: nat)
    requires Inv(s) && v < NBUF && Idle(s.bufs[v])
    ensures Users(s.procs, v) == {} && !Touched(s, v)
    ensures s.bufs[v].valid ==> KeyOf(s.bufs[v]) in s.disk && s.disk[KeyOf(s.bufs[v])] == s.view[KeyOf(s.bufs[v])]
  {
    assert BufOk(s, v);
    if Touched(s, v) {
      var q :| 0 <= q < |s.procs| && Holds(s, q, v) && s.procs[q].touched;
      Counted(s, q);
    }
  }

  lemma MissBuf(s: Sys, p: nat, dev: nat, blockno: nat, b: nat)
    requires Inv(s) && CanGet(s, p, dev, blockno) && Hit(s.bufs, s.order, dev, blockno, 0).None? && b < NBUF
    ensures Shape(DoGet(s, p, dev, blockno)) && BufOk(DoGet(s, p, dev, blockno), b)
  {
    var t, v := DoGet(s, p, dev, blockno), Victim(s.bufs, s.order, NBUF).value;
    VictimOk(s, v);
    assert BufOk(s, b) && DiskOk(s, (dev, blockno));
    TouchedEnter(s, t, p, t.procs[p], b);
    if b == v {
      UsersGain(s.procs, p, t.procs[p], b);
    } else {
      UsersSame(s.procs, p, t.procs[p], b);
    }
  }

  lemma MissDisk(s: Sys, p: nat, dev: nat, blockno: nat, key: Key)
    requires Inv(s) && CanGet(s, p, dev, blockno) && Hit(s.bufs, s.order, dev, blockno, 0).None? && key in s.disk
    ensures DiskOk(DoGet(s, p, dev, blockno), key)
  {
    var t, v := DoGet(s, p, dev, blockno), Victim(s.bufs, s.order, NBUF).value;
    VictimOk(s, v);
    assert DiskOk(s, key);
    forall b | 0 <= b < NBUF && b != v ensures Carries(t, b, key) <==> Carries(s, b, key) {
    }
  }

  lemma VictimUnused(s: Sys, v: nat, q: nat)
    requires Inv(s) && v < NBUF && Idle(s.bufs[v]) && q < |s.procs|
    ensures !Uses(s.procs[q], v)
  {
    if Uses(s.procs[q], v) {
      Counted(s, q);
    }
  }

  lemma MissProc(s: Sys, p: nat, v: nat, dev: nat, blockno: nat, q: nat)
    requires Shape(s) && p < |s.procs| && v < NBUF && dev != 0 && (dev, blockno) in s.disk
    requires q < |s.procs| && ProcOk(s, q) && (q == p || !Uses(s.procs[q], v))
    ensures Shape(Recycle(s, p, v, dev, blockno)) && ProcOk(Recycle(s, p, v, dev, blockno), q)
  {
    if q != p {
      assert Recycle(s, p, v, dev, blockno).procs[q] == s.procs[q];
    }
  }

  lemma MissUnique(bufs: seq<Buf>, v: nat, dev: nat, blockno: nat)
    requires Unique(bufs) && v < |bufs| == NBUF && forall b :: 0 <= b < NBUF ==> !Matches(bufs[b], dev, blockno)
    ensures Unique(bufs[v := Buf(dev, blockno, 1, false, false)])
  {
    var t := bufs[v := Buf(dev, blockno, 1, false, false)];
    forall b, c | 0 <= b < c < NBUF && t[b].dev != 0 ensures !Matches(t[c], t[b].dev, t[b].blockno) {
      assert !Matches(bufs[b], dev, blockno) && !Matches(bufs[c], dev, blockno);
      assert bufs[b].dev != 0 ==> !Matches(bufs[c], bufs[b].dev, bufs[b].blockno);
    }
  }

  lemma MissOk(s: Sys, p: nat, dev: nat, blockno: nat)
    requires Inv(s) && CanGet(s, p, dev, blockno) && Hit(s.bufs, s.order, dev, blockno, 0).None?
    ensures Inv(DoGet(s, p, dev, blockno))
  {
    var t, v := DoGet(s, p, dev, blockno), Victim(s.bufs, s.order, NBUF).value;
    forall q | 0 <= q < |t.procs| ensures ProcOk(t, q) {
      assert ProcOk(s, q);
      VictimUnused(s, v, q);
      MissProc(s, p, v, dev, blockno, q);
    }
    forall b | 0 <= b < NBUF ensures BufOk(t, b) {
      MissBuf(s, p, dev, blockno, b);
    }
    forall key | key in t.disk ensures DiskOk(t, key) {
      MissDisk(s, p, dev, blockno, key);
    }
    EnterHolder(s, t, p, t.procs[p]);
    NotCached(s.bufs, s.order, dev, blockno);
    MissUnique(s.bufs, v, dev, blockno);
  }

  lemma StepOk(s: Sys, l: Label)
    requires Inv(s) && Enabled(s, l)
    ensures Inv(Do(s, l))
  {
    match l
    case Get(p, dev, blockno) =>
      if Hit(s.bufs, s.order, dev, blockno, 0).Some? {
        HitOk(s, p, dev, blockno);
      } else {
        MissOk(s, p, dev, blockno);
      }
    case Acquire(p) => AcquireOk(s, p);
    case Fill(p) => FillOk(s, p);
    case Modify(p, d) => ModifyOk(s, p, d);
    case LogWrite(p) => LogWriteOk(s, p);
    case Bwrite(p) => BwriteOk(s, p);
    case Unlock(p) => UnlockOk(s, p);
    case Drop(p) => DropOk(s, p);
  }

  lemma InitialOk(s: Sys)
    requires Initial(s)
    ensures Inv(s)
  {
    forall b | 0 <= b < NBUF ensures BufOk(s, b) {
      assert Users(s.procs, b) == {};
    }
    forall key | key in s.disk ensures DiskOk(s, key) {
    }
    forall p | 0 <= p < |s.procs| ensures ProcOk(s, p) {
    }
  }

  lemma {:induction false} RunOk(s: Sys, ls: seq<Label>)
    requires Inv(s) && IsRun(s, ls)
    ensures Inv(RunFrom(s, ls))
    decreases |ls|
  {
    if ls != [] {
      StepOk(s, ls[0]);
      RunOk(Do(s, ls[0]), ls[1..]);
    }
  }

  // ------------------------------------------------------------------
  // Over every run

  /** Whoever holds a block sees the last thing any process stored in it. */
  lemma ReadersSeeLastWrite(s: Sys, ls: seq<Label>, p: nat)
    requires Initial(s) && IsRun(s, ls) && CanUse(RunFrom(s, ls), p)
    ensures var t := RunFrom(s, ls);
            t.procs[p].key in t.view && t.data[t.procs[p].b] == t.view[t.procs[p].key]
  {
    InitialOk(s);
    RunOk(s, ls);
    var t := RunFrom(s, ls);
    assert ProcOk(t, p) && BufOk(t, t.procs[p].b);
  }

  /** One buffer per block; a valid, clean buffer nobody holds equals its disk block. */
  lemma CacheCoherent(s: Sys, ls: seq<Label>, b: nat)
    requires Initial(s) && IsRun(s, ls) && b < NBUF
    ensures var t := RunFrom(s, ls);
            && |t.bufs| == |t.data| == NBUF
            && (t.bufs[b].dev != 0 ==> forall c :: 0 <= c < NBUF && KeyOf(t.bufs[c]) == KeyOf(t.bufs[b]) ==> c == b)
            && (t.bufs[b].valid && !t.bufs[b].dirty && (forall p :: 0 <= p < |t.procs| ==> !Holds(t, p, b)) ==>
                  KeyOf(t.bufs[b]) in t.disk && t.data[b] == t.disk[KeyOf(t.bufs[b])])
  {
    InitialOk(s);
    RunOk(s, ls);
    var t := RunFrom(s, ls);
    assert BufOk(t, b);
    forall c | 0 <= c < NBUF && t.bufs[b].dev != 0 && KeyOf(t.bufs[c]) == KeyOf(t.bufs[b]) ensures c == b {
      Two(t.bufs, b, c);
    }
  }

  /** refcnt counts the processes between bget and brelse, and a dirty buffer keeps the
      last store to its block even when nobody refers to it. */
  lemma DirtyIsPinned(s: Sys, ls: seq<Label>, b: nat)
    requires Initial(s) && IsRun(s, ls) && b < NBUF
    ensures var t := RunFrom(s, ls);
            && |t.bufs| == |t.data| == NBUF
            && t.bufs[b].refcnt == |Users(t.procs, b)|
            && (t.bufs[b].dirty ==> KeyOf(t.bufs[b]) in t.view && t.data[b] == t.view[KeyOf(t.bufs[b])])
  {
    InitialOk(s);
    RunOk(s, ls);
    assert BufOk(RunFrom(s, ls), b);
  }
}
