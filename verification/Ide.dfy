/** ide.c: the request queue and the interrupt that empties it, for any number of
processes, against the one-step disk of memide.c. */
module Ide {
  type Data = seq<nat>

  datatype Buf = Buf(blockno: nat, valid: bool, dirty: bool, data: Data)

  /** The controller: nothing to do, working on the command idestart sent (the data of a
      write went out with it), or done and about to interrupt. */
  datatype Device = Quiet | Busy(b: nat, blockno: nat, write: bool, data: Data) | Ready(b: nat, data: Data)

  datatype Proc = Away | InIderw(b: nat, asleep: bool)

  /** asked and done record the buffers in the order of iderw calls and of their effects. */
  datatype Sys = Sys(
    bufs: seq<Buf>,
    disk: seq<Data>,
    queue: seq<nat>,
    dev: Device,
    procs: seq<Proc>,
    asked: seq<nat>,
    done: seq<nat>)

  predicate Uses(s: Sys, p: nat, b: nat) {
    p < |s.procs| && s.procs[p].InIderw? && s.procs[p].b == b
  }

  predicate Free(s: Sys, b: nat) {
    forall p :: 0 <= p < |s.procs| ==> !Uses(s, p, b)
  }

  // ------------------------------------------------------------------
  // Steps

  datatype Label =
    | Edit(b: nat, buf: Buf)
    | Call(p: nat, b: nat)
    | Finish
    | Interrupt
    | Check(p: nat)
    | Wake(p: nat)

  /** idestart: the command for b, with the data of a write. */
  function Command(bufs: seq<Buf>, b: nat): Device
    requires b < |bufs|
  {
    Busy(b, bufs[b].blockno, bufs[b].dirty, bufs[b].data)
  }

  /** The holder of a buffer's lock changes it outside iderw: new data, log_write, or bget
      naming it after another block. */
  predicate CanEdit(s: Sys, b: nat) {
    b < |s.bufs| && Free(s, b)
  }

  /** iderw by the holder of the lock. Other callers hold other blocks. */
  predicate CanCall(s: Sys, p: nat, b: nat) {
    && p < |s.procs| && s.procs[p].Away? && b < |s.bufs| && Free(s, b)
    && !(s.bufs[b].valid && !s.bufs[b].dirty) && s.bufs[b].blockno < |s.disk|
    && forall q :: 0 <= q < |s.procs| && s.procs[q].InIderw? && s.procs[q].b < |s.bufs| ==>
         s.bufs[s.procs[q].b].blockno != s.bufs[b].blockno
  }

  /** iderw up to its first sleep. */
  function DoCall(s: Sys, p: nat, b: nat): Sys
    requires CanCall(s, p, b)
  {
    s.(queue := s.queue + [b],
       dev := if s.queue == [] then Command(s.bufs, b) else s.dev,
       procs := s.procs[p := InIderw(b, true)],
       asked := s.asked + [b])
  }

  /** The controller carries out its command. */
  predicate CanFinish(s: Sys) {
    s.dev.Busy? && s.dev.blockno < |s.disk|
  }

  function DoFinish(s: Sys): Sys
    requires CanFinish(s)
  {
    s.(disk := if s.dev.write then s.disk[s.dev.blockno := s.dev.data] else s.disk,
       dev := Ready(s.dev.b, if s.dev.write then s.dev.data else s.disk[s.dev.blockno]),
       done := s.done + [s.dev.b])
  }

  function WakeAll(procs: seq<Proc>, b: nat): (r: seq<Proc>)
    ensures |r| == |procs|
  {
    seq(|procs|, p requires 0 <= p < |procs| =>
      if procs[p].InIderw? && procs[p].b == b then InIderw(b, false) else procs[p])
  }

  /** An interrupt comes for the active request, or finds the queue empty. */
  predicate CanInterrupt(s: Sys) {
    (s.queue == [] || s.dev.Ready?) && forall k :: 0 <= k < |s.queue| ==> s.queue[k] < |s.bufs|
  }

  /** ideintr. */
  function DoInterrupt(s: Sys): Sys
    requires CanInterrupt(s)
  {
    if s.queue == [] then s
    else
      var b, rest := s.queue[0], s.queue[1..];
      var u := s.bufs[b];
      var bufs := s.bufs[b := Buf(u.blockno, true, false, if u.dirty then u.data else s.dev.data)];
      s.(bufs := bufs,
         queue := rest,
         procs := WakeAll(s.procs, b),
         dev := if rest == [] then Quiet else Command(bufs, rest[0]))
  }

  /** The test of iderw's loop by a process that is awake: return, or sleep again. */
  predicate CanCheck(s: Sys, p: nat) {
    p < |s.procs| && s.procs[p].InIderw? && !s.procs[p].asleep && s.procs[p].b < |s.bufs|
  }

  predicate Finished(u: Buf) {
    u.valid && !u.dirty
  }

  function DoCheck(s: Sys, p: nat): Sys
    requires CanCheck(s, p)
  {
    s.(procs := s.procs[p := if Finished(s.bufs[s.procs[p].b]) then Away else s.procs[p].(asleep := true)])
  }

  predicate CanWake(s: Sys, p: nat) {
    p < |s.procs| && s.procs[p].InIderw?
  }

  predicate Enabled(s: Sys, l: Label) {
    match l
    case Edit(b, buf) => CanEdit(s, b)
    case Call(p, b) => CanCall(s, p, b)
    case Finish => CanFinish(s)
    case Interrupt => CanInterrupt(s)
    case Check(p) => CanCheck(s, p)
    case Wake(p) => CanWake(s, p)
  }

  function Do(s: Sys, l: Label): Sys
    requires Enabled(s, l)
  {
    match l
    case Edit(b, buf) => s.(bufs := s.bufs[b := buf])
    case Call(p, b) => DoCall(s, p, b)
    case Finish => DoFinish(s)
    case Interrupt => DoInterrupt(s)
    case Check(p) => DoCheck(s, p)
    case Wake(p) => s.(procs := s.procs[p := s.procs[p].(asleep := false)])
  }

  predicate Initial(s: Sys) {
    && s.queue == [] && s.dev == Quiet && s.asked == s.done == []
    && forall p :: 0 <= p < |s.procs| ==> s.procs[p] == Away
  }

  predicate IsRun(s: Sys, ls: seq<Label>)
    decreases |ls|
  {
    ls == [] || (Enabled(s, ls[0]) && IsRun(Do(s, ls[0]), ls[1..]))
  }

  function RunFrom(s: Sys, ls: seq<Label>): (t: Sys)
    requires IsRun(s, ls)
    decreases |ls|
  {
    if ls == [] then s else RunFrom(Do(s, ls[0]), ls[1..])
  }

  // ------------------------------------------------------------------
  // Specification: memide.c

  /** Buffers and disk when every request takes effect in one step. */
  datatype Store = Store(bufs: seq<Buf>, disk: seq<Data>)

  datatype Event = Quietly | Change(b: nat, buf: Buf) | Effect(b: nat)

  predicate Allows(m: Store, e: Event) {
    match e
    case Quietly => true
    case Change(b, buf) => b < |m.bufs|
    case Effect(b) => b < |m.bufs| && !Finished(m.bufs[b]) && m.bufs[b].blockno < |m.disk|
  }

  /** memide.c's iderw. */
  function Memide(m: Store, b: nat): Store
    requires Allows(m, Effect(b))
  {
    var u := m.bufs[b];
    if u.dirty then
      Store(m.bufs[b := u.(dirty := false, valid := true)], m.disk[u.blockno := u.data])
    else
      Store(m.bufs[b := u.(data := m.disk[u.blockno], valid := true)], m.disk)
  }

  function After(m: Store, e: Event): Store
    requires Allows(m, e)
  {
    match e
    case Quietly => m
    case Change(b, buf) => m.(bufs := m.bufs[b := buf])
    case Effect(b) => Memide(m, b)
  }

  predicate SpecRun(m: Store, es: seq<Event>)
    decreases |es|
  {
    es == [] || (Allows(m, es[0]) && SpecRun(After(m, es[0]), es[1..]))
  }

  function SpecFrom(m: Store, es: seq<Event>): Store
    requires SpecRun(m, es)
    decreases |es|
  {
    if es == [] then m else SpecFrom(After(m, es[0]), es[1..])
  }

  /** A request takes effect when the controller finishes it; until the interrupt its
      buffer is already done in the specification. */
  function AbsOf(s: Sys): Store {
    if s.dev.Ready? && s.dev.b < |s.bufs| then
      Store(s.bufs[s.dev.b := Buf(s.bufs[s.dev.b].blockno, true, false, s.dev.data)], s.disk)
    else Store(s.bufs, s.disk)
  }

  function EventOf(s: Sys, l: Label): Event {
    match l
    case Edit(b, buf) => Change(b, buf)
    case Finish => if s.dev.Busy? then Effect(s.dev.b) else Quietly
    case _ => Quietly
  }

  function Events(s: Sys, ls: seq<Label>): seq<Event>
    requires IsRun(s, ls)
    decreases |ls|
  {
    if ls == [] then [] else [EventOf(s, ls[0])] + Events(Do(s, ls[0]), ls[1..])
  }

  // ------------------------------------------------------------------
  // Invariant

  ghost predicate QueueOk(s: Sys) {
    forall k, m :: 0 <= k < m < |s.queue| ==> s.queue[k] != s.queue[m]
  }

  /** A queued buffer waits for its process's call to end. */
  ghost predicate QueuedOk(s: Sys, b: nat) {
    && b < |s.bufs| && !Finished(s.bufs[b]) && s.bufs[b].blockno < |s.disk|
    && exists p :: 0 <= p < |s.procs| && Uses(s, p, b)
  }

  /** A process in iderw sleeps only while its request is queued, and finds its buffer
      valid, clean and equal to the disk once it is not. */
  ghost predicate CallerOk(s: Sys, p: nat)
    requires p < |s.procs|
  {
    s.procs[p].InIderw? ==>
      var b := s.procs[p].b;
      && b < |s.bufs| && s.bufs[b].blockno < |s.disk|
      && (s.procs[p].asleep ==> b in s.queue)
      && (b !in s.queue ==> Finished(s.bufs[b]) && s.bufs[b].data == s.disk[s.bufs[b].blockno])
  }

  ghost predicate Apart(s: Sys) {
    forall p, q :: 0 <= p < q < |s.procs| && s.procs[p].InIderw? && s.procs[q].InIderw? ==>
      && s.procs[p].b < |s.bufs| && s.procs[q].b < |s.bufs|
      && s.procs[p].b != s.procs[q].b && s.bufs[s.procs[p].b].blockno != s.bufs[s.procs[q].b].blockno
  }

  /** The controller works on the head of the queue, and on nothing when it is empty. */
  ghost predicate DeviceOk(s: Sys) {
    match s.dev
    case Quiet => s.queue == []
    case Busy(b, blockno, write, data) => s.queue != [] && b == s.queue[0] && b < |s.bufs| && s.dev == Command(s.bufs, b)
    case Ready(b, data) =>
      && s.queue != [] && b == s.queue[0] && b < |s.bufs| && s.bufs[b].blockno < |s.disk|
      && data == s.disk[s.bufs[b].blockno] && (s.bufs[b].dirty ==> data == s.bufs[b].data)
  }

  ghost predicate OrderOk(s: Sys) {
    s.asked == s.done + if s.dev.Ready? && s.queue != [] then s.queue[1..] else s.queue
  }

  ghost predicate Inv(s: Sys) {
    && QueueOk(s) && Apart(s) && DeviceOk(s) && OrderOk(s)
    && (forall b {:trigger QueuedOk(s, b)} :: b in s.queue ==> QueuedOk(s, b))
    && forall p {:trigger CallerOk(s, p)} :: 0 <= p < |s.procs| ==> CallerOk(s, p)
  }

  // ------------------------------------------------------------------
  // Every step keeps it

  lemma NotQueued(s: Sys, b: nat)
    requires Inv(s) && Free(s, b)
    ensures b !in s.queue
  {
    assert QueuedOk(s, b) ==> !Free(s, b);
  }

  lemma EditOk(s: Sys, b: nat, buf: Buf)
    requires Inv(s) && CanEdit(s, b)
    ensures Inv(s.(bufs := s.bufs[b := buf]))
    ensures b !in s.queue
  {
    var t := s.(bufs := s.bufs[b := buf]);
    NotQueued(s, b);
    forall c | c in t.queue ensures QueuedOk(t, c) {
      assert QueuedOk(s, c);
      var p :| 0 <= p < |s.procs| && Uses(s, p, c);
      assert Uses(t, p, c);
    }
    forall p | 0 <= p < |t.procs| ensures CallerOk(t, p) {
      assert CallerOk(s, p) && !Uses(s, p, b);
    }
    forall p, q | 0 <= p < q < |t.procs| && t.procs[p].InIderw? && t.procs[q].InIderw?
      ensures t.procs[p].b < |t.bufs| && t.procs[q].b < |t.bufs| && t.procs[p].b != t.procs[q].b
              && t.bufs[t.procs[p].b].blockno != t.bufs[t.procs[q].b].blockno
    {
      assert !Uses(s, p, b) && !Uses(s, q, b);
    }
  }

  lemma CallOk(s: Sys, p: nat, b: nat)
    requires Inv(s) && CanCall(s, p, b)
    ensures Inv(DoCall(s, p, b))
  {
    var t := DoCall(s, p, b);
    NotQueued(s, b);
    assert Uses(t, p, b);
    forall c | c in t.queue ensures QueuedOk(t, c) {
      if c != b {
        assert QueuedOk(s, c);
        var q :| 0 <= q < |s.procs| && Uses(s, q, c);
        assert Uses(t, q, c);
      }
    }
    forall q | 0 <= q < |t.procs| ensures CallerOk(t, q) {
      assert CallerOk(s, q);
      assert !Uses(s, q, b);
    }
    forall q, r | 0 <= q < r < |t.procs| && t.procs[q].InIderw? && t.procs[r].InIderw?
      ensures t.procs[q].b < |t.bufs| && t.procs[r].b < |t.bufs| && t.procs[q].b != t.procs[r].b
              && t.bufs[t.procs[q].b].blockno != t.bufs[t.procs[r].b].blockno
    {
      assert CallerOk(s, q) && CallerOk(s, r);
      assert !Uses(s, q, b) && !Uses(s, r, b);
    }
  }

  lemma FinishOk(s: Sys)
    requires Inv(s) && CanFinish(s)
    ensures Inv(DoFinish(s))
    ensures Allows(AbsOf(s), Effect(s.dev.b)) && AbsOf(DoFinish(s)) == Memide(AbsOf(s), s.dev.b)
  {
    var t, b := DoFinish(s), s.dev.b;
    assert b == s.queue[0] && QueuedOk(s, b);
    var me :| 0 <= me < |s.procs| && Uses(s, me, b);
    forall c | c in t.queue ensures QueuedOk(t, c) {
      assert QueuedOk(s, c);
      var q :| 0 <= q < |s.procs| && Uses(s, q, c);
      assert Uses(t, q, c);
    }
    forall q | 0 <= q < |t.procs| ensures CallerOk(t, q) {
      assert CallerOk(s, q) && CallerOk(s, me);
    }
    assert s.done + s.queue == s.done + [b] + s.queue[1..];
  }

  lemma InterruptQueued(s: Sys, c: nat)
    requires Inv(s) && CanInterrupt(s) && s.queue != [] && c in s.queue[1..]
    ensures QueuedOk(DoInterrupt(s), c)
  {
    var t := DoInterrupt(s);
    assert c in s.queue && QueuedOk(s, c) && c != s.queue[0];
    var q :| 0 <= q < |s.procs| && Uses(s, q, c);
    assert Uses(t, q, c);
  }

  lemma InterruptCaller(s: Sys, q: nat)
    requires Inv(s) && CanInterrupt(s) && s.queue != [] && q < |s.procs|
    ensures CallerOk(DoInterrupt(s), q)
  {
    var t, b := DoInterrupt(s), s.queue[0];
    assert CallerOk(s, q);
    assert s.queue == [b] + t.queue;
  }

  lemma InterruptOk(s: Sys)
    requires Inv(s) && CanInterrupt(s)
    ensures Inv(DoInterrupt(s)) && AbsOf(DoInterrupt(s)) == AbsOf(s)
  {
    if s.queue != [] {
      var t := DoInterrupt(s);
      forall c | c in t.queue ensures QueuedOk(t, c) {
        InterruptQueued(s, c);
      }
      forall q | 0 <= q < |t.procs| ensures CallerOk(t, q) {
        InterruptCaller(s, q);
      }
    }
  }

  lemma CheckOk(s: Sys, p: nat)
    requires Inv(s) && CanCheck(s, p)
    ensures Inv(DoCheck(s, p))
  {
    var t, b := DoCheck(s, p), s.procs[p].b;
    assert CallerOk(s, p);
    assert b in s.queue ==> QueuedOk(s, b);
    forall c | c in t.queue ensures QueuedOk(t, c) {
      assert QueuedOk(s, c);
      var q :| 0 <= q < |s.procs| && Uses(s, q, c);
      assert Uses(t, q, c);
    }
    forall q | 0 <= q < |t.procs| ensures CallerOk(t, q) {
      assert CallerOk(s, q);
    }
  }

  lemma WakeOk(s: Sys, p: nat)
    requires Inv(s) && CanWake(s, p)
    ensures Inv(s.(procs := s.procs[p := s.procs[p].(asleep := false)]))
  {
    var t := s.(procs := s.procs[p := s.procs[p].(asleep := false)]);
    forall c | c in t.queue ensures QueuedOk(t, c) {
      assert QueuedOk(s, c);
      var q :| 0 <= q < |s.procs| && Uses(s, q, c);
      assert Uses(t, q, c);
    }
    forall q | 0 <= q < |t.procs| ensures CallerOk(t, q) {
      assert CallerOk(s, q);
    }
  }

  /** Each step is a step of the one-step disk, or none. */
  lemma StepOk(s: Sys, l: Label)
    requires Inv(s) && Enabled(s, l)
    ensures Inv(Do(s, l))
    ensures Allows(AbsOf(s), EventOf(s, l)) && AbsOf(Do(s, l)) == After(AbsOf(s), EventOf(s, l))
  {
    match l
    case Edit(b, buf) => EditOk(s, b, buf);
    case Call(p, b) => CallOk(s, p, b);
    case Finish => FinishOk(s);
    case Interrupt => InterruptOk(s);
    case Check(p) => CheckOk(s, p);
    case Wake(p) => WakeOk(s, p);
  }

  // ------------------------------------------------------------------
  // Over every run

  lemma {:induction false} RunOk(s: Sys, ls: seq<Label>)
    requires Inv(s) && IsRun(s, ls)
    ensures Inv(RunFrom(s, ls))
    ensures SpecRun(AbsOf(s), Events(s, ls)) && SpecFrom(AbsOf(s), Events(s, ls)) == AbsOf(RunFrom(s, ls))
    decreases |ls|
  {
    if ls != [] {
      var t := Do(s, ls[0]);
      StepOk(s, ls[0]);
      RunOk(t, ls[1..]);
      assert Events(s, ls)[1..] == Events(t, ls[1..]);
    }
  }

  /** The queued driver refines the one-step disk. */
  lemma RefinesMemide(s: Sys, ls: seq<Label>)
    requires Initial(s) && IsRun(s, ls)
    ensures SpecRun(Store(s.bufs, s.disk), Events(s, ls))
    ensures SpecFrom(Store(s.bufs, s.disk), Events(s, ls)) == AbsOf(RunFrom(s, ls))
  {
    RunOk(s, ls);
  }

  /** The buffers of the Effect events, in order. */
  function Effects(es: seq<Event>): seq<nat> {
    if es == [] then [] else EffectOf(es[0]) + Effects(es[1..])
  }

  function EffectOf(e: Event): seq<nat> {
    if e.Effect? then [e.b] else []
  }

  lemma StepDone(s: Sys, l: Label)
    requires Enabled(s, l)
    ensures Do(s, l).done == s.done + EffectOf(EventOf(s, l))
  {
  }

  lemma {:induction false} DoneAreEffects(s: Sys, ls: seq<Label>)
    requires IsRun(s, ls)
    ensures RunFrom(s, ls).done == s.done + Effects(Events(s, ls))
    decreases |ls|
  {
    if ls != [] {
      StepDone(s, ls[0]);
      DoneAreEffects(Do(s, ls[0]), ls[1..]);
      assert Events(s, ls)[1..] == Events(Do(s, ls[0]), ls[1..]);
    }
  }

  /** Requests take effect in the order of the calls, and no buffer is queued twice. */
  lemma EffectsInOrder(s: Sys, ls: seq<Label>)
    requires Initial(s) && IsRun(s, ls)
    ensures var t := RunFrom(s, ls);
            Effects(Events(s, ls)) <= t.asked && forall k, m :: 0 <= k < m < |t.queue| ==> t.queue[k] != t.queue[m]
  {
    RunOk(s, ls);
    DoneAreEffects(s, ls);
  }

  /** When iderw returns, the buffer is valid, clean and equal to its disk block; while it
      sleeps, its request is still queued. */
  lemma IderwReturns(s: Sys, ls: seq<Label>, p: nat)
    requires Initial(s) && IsRun(s, ls) && p < |RunFrom(s, ls).procs| && RunFrom(s, ls).procs[p].InIderw?
    ensures var t := RunFrom(s, ls);
            var b := t.procs[p].b;
            && b < |t.bufs| && t.bufs[b].blockno < |t.disk|
            && (t.procs[p].asleep ==> b in t.queue)
            && (CanCheck(t, p) && DoCheck(t, p).procs[p] == Away ==>
                  Finished(t.bufs[b]) && t.bufs[b].data == t.disk[t.bufs[b].blockno])
  {
    RunOk(s, ls);
    var t := RunFrom(s, ls);
    assert CallerOk(t, p);
    if t.procs[p].b in t.queue {
      assert QueuedOk(t, t.procs[p].b);
    }
  }

  // ------------------------------------------------------------------
  // The queue through qnext

  /** The null pointer. */
  const NIL: int := -1

  /** Following qnext from buffer `from` visits q and then NIL. */
  ghost predicate Chain(qnext: seq<int>, from: int, q: seq<nat>)
    decreases |q|
  {
    if q == [] then from == NIL
    else from == q[0] && q[0] < |qnext| && Chain(qnext, qnext[q[0]], q[1..])
  }

  lemma {:induction false} ChainFrame(qnext: seq<int>, from: int, q: seq<nat>, b: nat, v: int)
    requires Chain(qnext, from, q) && b !in q && b < |qnext|
    ensures Chain(qnext[b := v], from, q)
    decreases |q|
  {
    if q != [] {
      ChainFrame(qnext, qnext[q[0]], q[1..], b, v);
    }
  }

  lemma {:induction false} ChainAppend(qnext: seq<int>, from: int, q: seq<nat>, b: nat)
    requires Chain(qnext, from, q) && q != [] && b !in q && b < |qnext| && qnext[b] == NIL
    requires forall k, m :: 0 <= k < m < |q| ==> q[k] != q[m]
    ensures q[|q| - 1] < |qnext| && Chain(qnext[q[|q| - 1] := b], from, q + [b])
    decreases |q|
  {
    if |q| == 1 {
      assert (q + [b])[1..] == [b];
      assert [b][1..] == [];
    } else {
      ChainAppend(qnext, qnext[q[0]], q[1..], b);
      assert (q + [b])[1..] == q[1..] + [b];
    }
  }

  class Queue {
    var idequeue: int
    var qnext: array<int>
    ghost var queue: seq<nat>

    ghost predicate Valid()
      reads this, qnext
    {
      && Chain(qnext[..], idequeue, queue)
      && forall k, m :: 0 <= k < m < |queue| ==> queue[k] != queue[m]
    }

    constructor (n: nat)
      ensures Valid() && queue == [] && qnext.Length == n && fresh(qnext)
    {
      idequeue, queue := NIL, [];
      qnext := new int[n](_ => NIL);
    }

    /** The walk of iderw to the pointer that is null: idequeue's own (NIL) or last's. */
    method Last() returns (last: int)
      requires Valid()
      ensures last == if queue == [] then NIL else queue[|queue| - 1]
    {
      last := NIL;
      var at := idequeue;
      ghost var k := 0;
      while at != NIL
        invariant 0 <= k <= |queue| && Chain(qnext[..], at, queue[k..])
        invariant last == if k == 0 then NIL else queue[k - 1]
        decreases |queue| - k
      {
        last := at;
        at := qnext[at];
        assert queue[k..][1..] == queue[k + 1..];
        k := k + 1;
      }
    }

    /** iderw: b goes to the end of the queue; start says whether to start the disk. */
    method Append(b: nat) returns (start: bool)
      requires Valid() && b < qnext.Length && b !in queue
      modifies this, qnext
      ensures Valid() && qnext == old(qnext) && queue == old(queue) + [b] && start == (old(queue) == [])
    {
      ChainFrame(qnext[..], idequeue, queue, b, NIL);
      qnext[b] := NIL;
      assert qnext[..] == old(qnext[..])[b := NIL];
      var last := Last();
      if last == NIL {
        idequeue := b;
        assert [b][1..] == [];
      } else {
        ChainAppend(qnext[..], idequeue, queue, b);
        ghost var before := qnext[..];
        qnext[last] := b;
        assert qnext[..] == before[last := b];
      }
      queue := queue + [b];
      start := idequeue == b;
    }

    /** ideintr: takes the active request off the queue. */
    method Pop() returns (b: int)
      requires Valid()
      modifies this
      ensures Valid() && qnext == old(qnext)
      ensures old(queue) == [] ==> b == NIL && queue == []
      ensures old(queue) != [] ==> b == old(queue)[0] && queue == old(queue)[1..]
    {
      b := idequeue;
      if b != NIL {
        idequeue := qnext[b];
        queue := queue[1..];
      }
    }
  }
}
