/** pipe.c: a ring of PIPESIZE bytes with 32-bit counters, and the processes that read,
write and close it. Everything between two sleeps or returns happens under p->lock and
is one step. */
module Pipe {
  const PIPESIZE: nat := 512
  const U32: nat := 0x1_0000_0000

  type Byte = x: int | 0 <= x < 256

  /** struct pipe. */
  datatype Ring = Ring(data: seq<Byte>, nread: nat, nwrite: nat)

  predicate Shape(r: Ring) {
    |r.data| == PIPESIZE && r.nread < U32 && r.nwrite < U32
  }

  predicate IsFull(r: Ring) {
    r.nwrite == (r.nread + PIPESIZE) % U32
  }

  predicate IsEmpty(r: Ring) {
    r.nread == r.nwrite
  }

  function Put(r: Ring, b: Byte): (t: Ring)
    requires Shape(r)
    ensures Shape(t)
  {
    r.(data := r.data[r.nwrite % PIPESIZE := b], nwrite := (r.nwrite + 1) % U32)
  }

  function Head(r: Ring): Byte
    requires Shape(r)
  {
    r.data[r.nread % PIPESIZE]
  }

  function Drop(r: Ring): (t: Ring)
    requires Shape(r)
    ensures Shape(t)
  {
    r.(nread := (r.nread + 1) % U32)
  }

  /** pipewrite from byte i of the buffer on, up to its end or until the pipe is full. */
  function Filled(r: Ring, buf: seq<Byte>, i: nat): (t: (Ring, nat))
    requires Shape(r) && i <= |buf|
    ensures Shape(t.0) && i <= t.1 <= |buf| && (t.1 < |buf| ==> IsFull(t.0))
    decreases |buf| - i
  {
    if i == |buf| || IsFull(r) then (r, i) else Filled(Put(r, buf[i]), buf, i + 1)
  }

  /** piperead's copy of at most n bytes. */
  function Drained(r: Ring, n: nat): (t: (Ring, seq<Byte>))
    requires Shape(r)
    ensures Shape(t.0) && |t.1| <= n && (|t.1| < n ==> IsEmpty(t.0))
    decreases n
  {
    if n == 0 || IsEmpty(r) then (r, [])
    else
      var rest := Drained(Drop(r), n - 1);
      (rest.0, [Head(r)] + rest.1)
  }

  // ------------------------------------------------------------------
  // What the ring stands for

  /** Of the bytes `sent`, the first `got` have been read and the rest, at most
      PIPESIZE, are in the ring; the counters are the true ones modulo 2^32. */
  ghost predicate Carries(r: Ring, sent: seq<Byte>, got: nat) {
    && Shape(r) && got <= |sent| <= got + PIPESIZE
    && r.nread == got % U32 && r.nwrite == |sent| % U32
    && forall k {:trigger InRing(r, sent, k)} :: got <= k < |sent| ==> InRing(r, sent, k)
  }

  predicate InRing(r: Ring, sent: seq<Byte>, k: nat)
    requires Shape(r) && k < |sent|
  {
    r.data[k % PIPESIZE] == sent[k]
  }

  lemma WrapAdd(n: nat, d: nat)
    ensures (n % U32 + d) % U32 == (n + d) % U32
  {
    var q, r := n / U32, n % U32;
    assert n + d == U32 * q + (r + d);
    SameRest(q, r + d);
  }

  lemma SameRest(q: nat, x: nat)
    ensures (U32 * q + x) % U32 == x % U32
  {
    assert U32 * q + x == U32 * (q + x / U32) + x % U32;
  }

  lemma WrapSlot(n: nat)
    ensures n % U32 % PIPESIZE == n % PIPESIZE
  {
    var q, r := n / U32, n % U32;
    assert n == PIPESIZE * (0x80_0000 * q) + r;
    SameSlotRest(0x80_0000 * q, r);
  }

  lemma SameSlotRest(q: nat, x: nat)
    ensures (PIPESIZE * q + x) % PIPESIZE == x % PIPESIZE
  {
    assert PIPESIZE * q + x == PIPESIZE * (q + x / PIPESIZE) + x % PIPESIZE;
  }

  lemma Wrap(n: nat)
    ensures n % U32 % PIPESIZE == n % PIPESIZE
    ensures (n % U32 + 1) % U32 == (n + 1) % U32
    ensures (n % U32 + PIPESIZE) % U32 == (n + PIPESIZE) % U32
  {
    WrapSlot(n);
    WrapAdd(n, 1);
    WrapAdd(n, PIPESIZE);
  }

  /** Both tests are right although the counters wrap. */
  lemma Tests(r: Ring, sent: seq<Byte>, got: nat)
    requires Carries(r, sent, got)
    ensures IsFull(r) <==> |sent| == got + PIPESIZE
    ensures IsEmpty(r) <==> |sent| == got
  {
    Wrap(got);
    Wrap(|sent|);
    var d := |sent| - got;
    if (got + d) % U32 == got % U32 {
      SameMod(got, got + d);
    }
    if (got + d) % U32 == (got + PIPESIZE) % U32 {
      SameMod(got + d, got + PIPESIZE);
    }
  }

  lemma SameMod(a: nat, b: nat)
    requires a % U32 == b % U32 && a <= b < a + U32
    ensures a == b
  {
  }

  lemma PutOk(r: Ring, sent: seq<Byte>, got: nat, b: Byte)
    requires Carries(r, sent, got) && !IsFull(r)
    ensures Carries(Put(r, b), sent + [b], got)
  {
    Tests(r, sent, got);
    Wrap(|sent|);
    var t := Put(r, b);
    forall k | got <= k < |sent| + 1 ensures InRing(t, sent + [b], k) {
      if k < |sent| {
        assert InRing(r, sent, k);
        if k % PIPESIZE == |sent| % PIPESIZE {
          SameSlot(k, |sent|);
        }
      }
    }
  }

  lemma SameSlot(a: nat, b: nat)
    requires a % PIPESIZE == b % PIPESIZE && a <= b < a + PIPESIZE
    ensures a == b
  {
  }

  lemma DropOk(r: Ring, sent: seq<Byte>, got: nat)
    requires Carries(r, sent, got) && !IsEmpty(r)
    ensures got < |sent| && Head(r) == sent[got] && Carries(Drop(r), sent, got + 1)
  {
    Tests(r, sent, got);
    Wrap(got);
    assert InRing(r, sent, got);
    forall k | got + 1 <= k < |sent| ensures InRing(Drop(r), sent, k) {
      assert InRing(r, sent, k);
    }
  }

  lemma Sent(sent: seq<Byte>, buf: seq<Byte>, i: nat, j: nat)
    requires i < j <= |buf|
    ensures sent + [buf[i]] + buf[i + 1..j] == sent + buf[i..j]
  {
  }

  lemma {:induction false} FilledOk(r: Ring, sent: seq<Byte>, got: nat, buf: seq<Byte>, i: nat)
    requires Carries(r, sent, got) && i <= |buf|
    ensures var (t, j) := Filled(r, buf, i); Carries(t, sent + buf[i..j], got)
    decreases |buf| - i
  {
    if i == |buf| || IsFull(r) {
      assert sent + buf[i..i] == sent;
    } else {
      PutOk(r, sent, got, buf[i]);
      FilledOk(Put(r, buf[i]), sent + [buf[i]], got, buf, i + 1);
      Sent(sent, buf, i, Filled(r, buf, i).1);
    }
  }

  /** The copy stops at the end of the buffer or of the room. */
  lemma {:induction false} FilledLength(r: Ring, sent: seq<Byte>, got: nat, buf: seq<Byte>, i: nat)
    requires Carries(r, sent, got) && i <= |buf|
    ensures var room := got + PIPESIZE - |sent|;
            Filled(r, buf, i).1 == if |buf| - i <= room then |buf| else i + room
    decreases |buf| - i
  {
    Tests(r, sent, got);
    if i < |buf| && !IsFull(r) {
      PutOk(r, sent, got, buf[i]);
      FilledLength(Put(r, buf[i]), sent + [buf[i]], got, buf, i + 1);
    }
  }

  lemma Got(sent: seq<Byte>, got: nat, rest: seq<Byte>)
    requires got + 1 + |rest| <= |sent| && rest == sent[got + 1..got + 1 + |rest|]
    ensures [sent[got]] + rest == sent[got..got + 1 + |rest|]
  {
  }

  lemma {:induction false} DrainedOk(r: Ring, sent: seq<Byte>, got: nat, n: nat)
    requires Carries(r, sent, got)
    ensures var (t, bytes) := Drained(r, n);
            got + |bytes| <= |sent| && bytes == sent[got..got + |bytes|] && Carries(t, sent, got + |bytes|)
    decreases n
  {
    if n > 0 && !IsEmpty(r) {
      DropOk(r, sent, got);
      DrainedOk(Drop(r), sent, got + 1, n - 1);
      Got(sent, got, Drained(Drop(r), n - 1).1);
    }
  }

  /** The copy stops at n bytes or when the ring is empty. */
  lemma {:induction false} DrainedLength(r: Ring, sent: seq<Byte>, got: nat, n: nat)
    requires Carries(r, sent, got)
    ensures |Drained(r, n).1| == if n <= |sent| - got then n else |sent| - got
    decreases n
  {
    Tests(r, sent, got);
    if n > 0 && !IsEmpty(r) {
      DropOk(r, sent, got);
      DrainedLength(Drop(r), sent, got + 1, n - 1);
    }
  }

  // ------------------------------------------------------------------
  // The copying loops

  class Buffer {
    const data: array<Byte>
    var nread: nat
    var nwrite: nat

    ghost predicate Valid()
      reads this, data
    {
      Shape(Ring(data[..], nread, nwrite))
    }

    ghost function Now(): Ring
      reads this, data
    {
      Ring(data[..], nread, nwrite)
    }

    /** pipealloc. */
    constructor ()
      ensures Valid() && nread == nwrite == 0 && fresh(data)
    {
      data := new Byte[PIPESIZE];
      nread, nwrite := 0, 0;
    }

    /** pipewrite until the buffer is used up or the pipe is full. */
    method Fill(buf: seq<Byte>, from: nat) returns (i: nat)
      requires Valid() && from <= |buf|
      modifies this`nwrite, data
      ensures Valid() && (Now(), i) == Filled(old(Now()), buf, from)
    {
      i := from;
      while i < |buf| && nwrite != (nread + PIPESIZE) % U32
        invariant from <= i <= |buf| && Valid() && nread == old(nread)
        invariant Filled(Now(), buf, i) == Filled(old(Now()), buf, from)
      {
        ghost var before := Now();
        data[nwrite % PIPESIZE] := buf[i];
        nwrite := (nwrite + 1) % U32;
        assert Now() == Put(before, buf[i]);
        i := i + 1;
      }
    }

    /** piperead's copy. */
    method Drain(n: nat) returns (out: seq<Byte>)
      requires Valid()
      modifies this`nread
      ensures Valid() && (Now(), out) == Drained(old(Now()), n)
    {
      out := [];
      var i := 0;
      while i < n && nread != nwrite
        invariant i <= n && Valid() && |out| == i
        invariant Drained(old(Now()), n).0 == Drained(Now(), n - i).0
        invariant Drained(old(Now()), n).1 == out + Drained(Now(), n - i).1
      {
        ghost var before := Now();
        var b := data[nread % PIPESIZE];
        assert b == Head(before);
        nread := (nread + 1) % U32;
        assert Now() == Drop(before);
        assert out + ([b] + Drained(Now(), n - i - 1).1) == (out + [b]) + Drained(Now(), n - i - 1).1;
        out := out + [b];
        i := i + 1;
      }
      assert out + [] == out;
    }
  }

  // ------------------------------------------------------------------
  // Readers, writers and closers

  /** A process in pipewrite with the bytes from i on still to go, in piperead, or in
      neither. asleep: it waits on nwrite or nread. */
  datatype Proc = Away | Writing(buf: seq<Byte>, i: nat, asleep: bool) | Reading(n: nat, asleep: bool)

  datatype Sys = Sys(
    ring: Ring,
    readopen: bool,
    writeopen: bool,
    procs: seq<Proc>,
    killed: set<nat>,
    sent: seq<Byte>,
    received: seq<Byte>)

  /** wakeup(&p->nread). */
  function WakeReaders(ps: seq<Proc>): (r: seq<Proc>)
    ensures |r| == |ps|
  {
    seq(|ps|, p requires 0 <= p < |ps| => if ps[p].Reading? then Reading(ps[p].n, false) else ps[p])
  }

  /** wakeup(&p->nwrite). */
  function WakeWriters(ps: seq<Proc>): (r: seq<Proc>)
    ensures |r| == |ps|
  {
    seq(|ps|, p requires 0 <= p < |ps| => if ps[p].Writing? then Writing(ps[p].buf, ps[p].i, false) else ps[p])
  }

  function Roused(p: Proc): Proc {
    match p
    case Away => Away
    case Writing(buf, i, _) => Writing(buf, i, false)
    case Reading(n, _) => Reading(n, false)
  }

  predicate Awake(s: Sys, p: nat) {
    p < |s.procs| && !s.procs[p].Away? && !s.procs[p].asleep
  }

  /** A process in the middle of a call holds its end of the pipe open. */
  datatype Label =
    | CallWrite(p: nat, buf: seq<Byte>)
    | CallRead(p: nat, n: nat)
    | WriteOn(p: nat)
    | ReadOn(p: nat)
    | CloseRead
    | CloseWrite
    | Kill(p: nat)

  predicate Enabled(s: Sys, l: Label) {
    match l
    case CallWrite(p, buf) => p < |s.procs| && s.procs[p].Away? && s.writeopen
    case CallRead(p, n) => p < |s.procs| && s.procs[p].Away? && s.readopen
    case WriteOn(p) => Awake(s, p) && s.procs[p].Writing? && s.procs[p].i <= |s.procs[p].buf| && Shape(s.ring)
    case ReadOn(p) => Awake(s, p) && s.procs[p].Reading? && Shape(s.ring)
    case CloseRead => s.readopen && forall p :: 0 <= p < |s.procs| ==> !s.procs[p].Reading?
    case CloseWrite => s.writeopen && forall p :: 0 <= p < |s.procs| ==> !s.procs[p].Writing?
    case Kill(p) => p < |s.procs|
  }

  /** pipewrite from where it left off to the next sleep or return. */
  function DoWrite(s: Sys, p: nat): Sys
    requires Enabled(s, WriteOn(p))
  {
    var buf, i := s.procs[p].buf, s.procs[p].i;
    var (ring, j) := Filled(s.ring, buf, i);
    var t := s.(ring := ring, sent := s.sent + buf[i..j]);
    if j == |buf| then t.(procs := WakeReaders(s.procs)[p := Away])
    else if !s.readopen || p in s.killed then t.(procs := s.procs[p := Away])
    else t.(procs := WakeReaders(s.procs)[p := Writing(buf, j, true)])
  }

  /** piperead from its test to the next sleep or return. */
  function DoRead(s: Sys, p: nat): Sys
    requires Enabled(s, ReadOn(p))
  {
    var n := s.procs[p].n;
    if IsEmpty(s.ring) && s.writeopen then
      if p in s.killed then s.(procs := s.procs[p := Away])
      else s.(procs := s.procs[p := Reading(n, true)])
    else
      var (ring, bytes) := Drained(s.ring, n);
      s.(ring := ring, received := s.received + bytes, procs := WakeWriters(s.procs)[p := Away])
  }

  function Do(s: Sys, l: Label): (t: Sys)
    requires Enabled(s, l)
  {
    match l
    case CallWrite(p, buf) => s.(procs := s.procs[p := Writing(buf, 0, false)])
    case CallRead(p, n) => s.(procs := s.procs[p := Reading(n, false)])
    case WriteOn(p) => DoWrite(s, p)
    case ReadOn(p) => DoRead(s, p)
    case CloseRead => s.(readopen := false, procs := WakeWriters(s.procs))
    case CloseWrite => s.(writeopen := false, procs := WakeReaders(s.procs))
    case Kill(p) =>
      s.(killed := s.killed + {p},
         procs := s.procs[p := Roused(s.procs[p])])
  }

  predicate Initial(s: Sys) {
    && Shape(s.ring) && s.ring.nread == s.ring.nwrite == 0 && s.readopen && s.writeopen
    && s.killed == {} && s.sent == [] && s.received == []
    && forall p :: 0 <= p < |s.procs| ==> s.procs[p] == Away
  }

  predicate IsRun(s: Sys, ls: seq<Label>)
    decreases |ls|
  {
    ls == [] || (Enabled(s, ls[0]) && IsRun(Do(s, ls[0]), ls[1..]))
  }

  function RunFrom(s: Sys, ls: seq<Label>): (t: Sys)
    requires IsRun(s, ls)
    decreases |ls|
  {
    if ls == [] then s else RunFrom(Do(s, ls[0]), ls[1..])
  }

  /** First in, first out, whatever the counters have wrapped to. */
  ghost predicate Fifo(s: Sys) {
    s.received <= s.sent && Carries(s.ring, s.sent, |s.received|)
  }

  /** A process sleeps only for a reason that still holds. */
  predicate SleepOk(s: Sys, p: nat)
    requires p < |s.procs|
  {
    match s.procs[p]
    case Away => true
    case Reading(n, asleep) => s.readopen && (asleep ==> IsEmpty(s.ring) && s.writeopen)
    case Writing(buf, i, asleep) => s.writeopen && i <= |buf| && (asleep ==> IsFull(s.ring) && s.readopen)
  }

  ghost predicate NoLostWakeup(s: Sys) {
    forall p {:trigger SleepOk(s, p)} :: 0 <= p < |s.procs| ==> SleepOk(s, p)
  }

  lemma Received(sent: seq<Byte>, got: nat, n: nat)
    requires got + n <= |sent|
    ensures sent[..got] + sent[got..got + n] == sent[..got + n]
  {
  }

  lemma FifoRead(s: Sys, p: nat)
    requires Fifo(s) && Enabled(s, ReadOn(p))
    ensures Fifo(DoRead(s, p))
  {
    var got, n := |s.received|, s.procs[p].n;
    DrainedOk(s.ring, s.sent, got, n);
    Received(s.sent, got, |Drained(s.ring, n).1|);
  }

  lemma FifoStep(s: Sys, l: Label)
    requires Fifo(s) && Enabled(s, l)
    ensures Fifo(Do(s, l))
  {
    if l.WriteOn? {
      FilledOk(s.ring, s.sent, |s.received|, s.procs[l.p].buf, s.procs[l.p].i);
    } else if l.ReadOn? {
      FifoRead(s, l.p);
    }
  }

  /** pipewrite returns n only when all its bytes are in, in order; it gives up only on a
      full pipe nobody will read or when killed. */
  lemma WriteReturns(s: Sys, p: nat)
    requires Fifo(s) && Enabled(s, WriteOn(p))
    ensures var (t, buf, i) := (DoWrite(s, p), s.procs[p].buf, s.procs[p].i);
            t.procs[p] == Away ==>
              || t.sent == s.sent + buf[i..]
              || (IsFull(t.ring) && (!s.readopen || p in s.killed))
  {
    var buf, i := s.procs[p].buf, s.procs[p].i;
    assert buf[i..|buf|] == buf[i..];
  }

  /** piperead returns the oldest bytes, as many as there are up to n, and none only at the
      end of the data or when killed. */
  lemma ReadReturns(s: Sys, p: nat)
    requires Fifo(s) && Enabled(s, ReadOn(p))
    ensures var (t, n) := (DoRead(s, p), s.procs[p].n);
            var (got, left) := (|t.received| - |s.received|, |s.sent| - |s.received|);
            t.procs[p] == Away ==>
              || (got == (if n <= left then n else left) && (got == 0 < n ==> !s.writeopen))
              || (p in s.killed && t.received == s.received)
  {
    DrainedLength(s.ring, s.sent, |s.received|, s.procs[p].n);
    Tests(s.ring, s.sent, |s.received|);
  }

  lemma {:induction false} FifoRun(s: Sys, ls: seq<Label>)
    requires Fifo(s) && IsRun(s, ls)
    ensures Fifo(RunFrom(s, ls))
    decreases |ls|
  {
    if ls != [] {
      FifoStep(s, ls[0]);
      FifoRun(Do(s, ls[0]), ls[1..]);
    }
  }

  /** In every run, kills included, what has been read is a prefix of what has been
      written, and what is in between is in the ring, never more than PIPESIZE bytes. */
  lemma PipeIsFifo(s: Sys, ls: seq<Label>)
    requires Initial(s) && IsRun(s, ls)
    ensures var t := RunFrom(s, ls);
            && t.received <= t.sent && |t.sent| - |t.received| <= PIPESIZE
            && t.ring.nread == |t.received| % U32 && t.ring.nwrite == |t.sent| % U32
  {
    FifoRun(s, ls);
  }

  /** A killed writer with more than PIPESIZE bytes to go, and a reader asleep. */
  predicate Loses(s: Sys, l: Label) {
    && l.WriteOn? && l.p < |s.procs| && s.procs[l.p].Writing? && l.p in s.killed
    && s.procs[l.p].i + PIPESIZE < |s.procs[l.p].buf|
    && exists q :: 0 <= q < |s.procs| && s.procs[q].Reading? && s.procs[q].asleep
  }

  lemma WriteSleep(s: Sys, p: nat)
    requires Fifo(s) && NoLostWakeup(s) && Enabled(s, WriteOn(p))
    ensures NoLostWakeup(DoWrite(s, p)) <==> !Loses(s, WriteOn(p))
  {
    var t := DoWrite(s, p);
    var buf, i := s.procs[p].buf, s.procs[p].i;
    FilledLength(s.ring, s.sent, |s.received|, buf, i);
    FilledOk(s.ring, s.sent, |s.received|, buf, i);
    Tests(s.ring, s.sent, |s.received|);
    var j := Filled(s.ring, buf, i).1;
    Tests(t.ring, s.sent + buf[i..j], |s.received|);
    assert SleepOk(s, p);
    if Loses(s, WriteOn(p)) {
      var q :| 0 <= q < |s.procs| && s.procs[q].Reading? && s.procs[q].asleep;
      assert SleepOk(s, q);
      assert !SleepOk(t, q);
    } else {
      forall q | 0 <= q < |t.procs| ensures SleepOk(t, q) {
        assert SleepOk(s, q);
      }
    }
  }

  /** The step that leaves a reader asleep beside a full pipe is exactly Loses. */
  lemma SleepStep(s: Sys, l: Label)
    requires Fifo(s) && NoLostWakeup(s) && Enabled(s, l)
    ensures NoLostWakeup(Do(s, l)) <==> !Loses(s, l)
  {
    if l.WriteOn? {
      WriteSleep(s, l.p);
    } else {
      var t := Do(s, l);
      forall q | 0 <= q < |t.procs| ensures SleepOk(t, q) {
        assert SleepOk(s, q);
      }
    }
  }

  ghost predicate AlwaysAwake(s: Sys, ls: seq<Label>)
    requires IsRun(s, ls)
    decreases |ls|
  {
    NoLostWakeup(s) && (ls != [] ==> AlwaysAwake(Do(s, ls[0]), ls[1..]))
  }

  predicate NeverLoses(s: Sys, ls: seq<Label>)
    requires IsRun(s, ls)
    decreases |ls|
  {
    ls != [] ==> !Loses(s, ls[0]) && NeverLoses(Do(s, ls[0]), ls[1..])
  }

  lemma {:induction false} SleepRun(s: Sys, ls: seq<Label>)
    requires Fifo(s) && NoLostWakeup(s) && IsRun(s, ls)
    ensures AlwaysAwake(s, ls) <==> NeverLoses(s, ls)
    decreases |ls|
  {
    if ls != [] {
      FifoStep(s, ls[0]);
      SleepStep(s, ls[0]);
      if !Loses(s, ls[0]) {
        SleepRun(Do(s, ls[0]), ls[1..]);
      }
    }
  }

  /** Over every run: at every point a sleeping reader means the pipe is empty and its
      write end open, and a sleeping writer that it is full and its read end open, if and
      only if no killed writer ever gave up on more than PIPESIZE bytes while a reader
      slept. */
  lemma SleepersHaveReason(s: Sys, ls: seq<Label>)
    requires Initial(s) && IsRun(s, ls)
    ensures AlwaysAwake(s, ls) <==> NeverLoses(s, ls)
  {
    assert forall p :: 0 <= p < |s.procs| ==> SleepOk(s, p);
    SleepRun(s, ls);
  }

  lemma {:induction false} NoKillNoLoss(s: Sys, ls: seq<Label>)
    requires s.killed == {} && IsRun(s, ls) && forall l :: l in ls ==> !l.Kill?
    ensures NeverLoses(s, ls)
    decreases |ls|
  {
    if ls != [] {
      NoKillNoLoss(Do(s, ls[0]), ls[1..]);
    }
  }

  function Zeros(n: nat): (r: seq<Byte>)
    ensures |r| == n
  {
    seq(n, _ => 0)
  }

  /** ls is a run from s that contains a losing step. */
  ghost predicate LosingRun(s: Sys, ls: seq<Label>) {
    IsRun(s, ls) && !NeverLoses(s, ls)
  }

  lemma LosesNow(s: Sys, l: Label)
    requires Enabled(s, l) && Loses(s, l)
    ensures LosingRun(s, [l])
  {
    assert [l][1..] == [];
  }

  lemma LosesLater(s: Sys, l: Label, ls: seq<Label>)
    requires Enabled(s, l) && LosingRun(Do(s, l), ls)
    ensures LosingRun(s, [l] + ls)
  {
    assert ([l] + ls)[1..] == ls;
  }

  /** A pipe nobody has used, a reader and a writer. */
  function Unused(): Sys {
    Sys(Ring(Zeros(PIPESIZE), 0, 0), true, true, [Away, Away], {}, [], [])
  }

  /** The reader has gone to sleep. */
  lemma ReaderSleeps() returns (s: Sys)
    ensures s == Unused().(procs := [Reading(1, true), Away])
    ensures Enabled(Unused(), CallRead(0, 1)) && Enabled(Do(Unused(), CallRead(0, 1)), ReadOn(0))
    ensures s == Do(Do(Unused(), CallRead(0, 1)), ReadOn(0))
  {
    s := Do(Do(Unused(), CallRead(0, 1)), ReadOn(0));
  }

  lemma KilledLoses(s: Sys) returns (ls: seq<Label>)
    requires s == Unused().(procs := [Reading(1, true), Away])
    ensures LosingRun(s, ls)
  {
    var big := Zeros(PIPESIZE + 1);
    var t := Do(s, CallWrite(1, big));
    var u := Do(t, Kill(1));
    assert u.procs[0] == Reading(1, true) && u.procs[1] == Writing(big, 0, false);
    LosesNow(u, WriteOn(1));
    LosesLater(t, Kill(1), [WriteOn(1)]);
    ls := [CallWrite(1, big)] + ([Kill(1)] + [WriteOn(1)]);
    LosesLater(s, CallWrite(1, big), [Kill(1)] + [WriteOn(1)]);
  }

  /** The failing run: a reader sleeps, a killed writer fills the pipe and returns -1. */
  lemma KilledWriterLosesWakeup()
    ensures exists s, ls :: Initial(s) && IsRun(s, ls) && !AlwaysAwake(s, ls)
  {
    var s := ReaderSleeps();
    var ls := KilledLoses(s);
    LosesLater(Do(Unused(), CallRead(0, 1)), ReadOn(0), ls);
    LosesLater(Unused(), CallRead(0, 1), [ReadOn(0)] + ls);
    SleepersHaveReason(Unused(), [CallRead(0, 1)] + ([ReadOn(0)] + ls));
  }
}
