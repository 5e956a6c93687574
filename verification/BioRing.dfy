/** bio.c: the ring of buffers through prev and next, and the two searches of bget. */
module BioRing {
  import opened Wrappers

  const NBUF: nat := 30

  /** The head of the ring is number NBUF. */
  const HEAD: nat := 30

  /** struct buf without its data, lock and links. */
  datatype Buf = Buf(dev: nat, blockno: nat, refcnt: nat, valid: bool, dirty: bool)

  predicate Matches(b: Buf, dev: nat, blockno: nat) {
    b.dev == dev && b.blockno == blockno
  }

  predicate Idle(b: Buf) {
    b.refcnt == 0 && !b.dirty
  }

  // ------------------------------------------------------------------
  // The ring as a sequence, most recently released first

  function At(order: seq<nat>, k: nat): nat
    requires k <= |order| + 1
  {
    if k == 0 || k == |order| + 1 then HEAD else order[k - 1]
  }

  predicate LinkOk(nx: seq<nat>, pv: seq<nat>, order: seq<nat>, k: nat)
    requires |nx| == |pv| == NBUF + 1 && k <= |order|
  {
    && At(order, k) <= HEAD && At(order, k + 1) <= HEAD
    && nx[At(order, k)] == At(order, k + 1) && pv[At(order, k + 1)] == At(order, k)
  }

  predicate Distinct(order: seq<nat>) {
    && (forall k :: 0 <= k < |order| ==> order[k] < NBUF)
    && forall k, m :: 0 <= k < m < |order| ==> order[k] != order[m]
  }

  ghost predicate Linked(nx: seq<nat>, pv: seq<nat>, order: seq<nat>) {
    && |nx| == |pv| == NBUF + 1 && Distinct(order)
    && forall k {:trigger LinkOk(nx, pv, order, k)} :: 0 <= k <= |order| ==> LinkOk(nx, pv, order, k)
  }

  function Without(order: seq<nat>, p: nat): seq<nat>
    requires p < |order|
  {
    order[..p] + order[p + 1..]
  }

  lemma UnlinkOk(nx: seq<nat>, pv: seq<nat>, order: seq<nat>, p: nat)
    requires Linked(nx, pv, order) && p < |order|
    ensures var b := order[p];
            && nx[b] <= HEAD && pv[b] <= HEAD
            && Linked(nx[pv[b] := nx[b]], pv[nx[b] := pv[b]], Without(order, p))
  {
    var b, rest := order[p], Without(order, p);
    assert LinkOk(nx, pv, order, p) && LinkOk(nx, pv, order, p + 1);
    var nx', pv' := nx[pv[b] := nx[b]], pv[nx[b] := pv[b]];
    forall k | 0 <= k <= |rest| ensures LinkOk(nx', pv', rest, k) {
      assert LinkOk(nx, pv, order, if k < p then k else k + 1);
    }
  }

  lemma PushOk(nx: seq<nat>, pv: seq<nat>, order: seq<nat>, b: nat)
    requires Linked(nx, pv, order) && b < NBUF && b !in order
    ensures nx[HEAD] <= HEAD && Linked(nx[b := nx[HEAD]][HEAD := b], pv[b := HEAD][nx[HEAD] := b], [b] + order)
  {
    assert LinkOk(nx, pv, order, 0);
    var nx', pv', more := nx[b := nx[HEAD]][HEAD := b], pv[b := HEAD][nx[HEAD] := b], [b] + order;
    forall k | 0 <= k <= |more| ensures LinkOk(nx', pv', more, k) {
      if k > 0 {
        assert LinkOk(nx, pv, order, k - 1);
      }
    }
  }

  // ------------------------------------------------------------------
  // bget's choices

  /** The cached buffer for a block: the first match from the front. */
  function Hit(bufs: seq<Buf>, order: seq<nat>, dev: nat, blockno: nat, k: nat): (r: Option<nat>)
    requires (forall m :: 0 <= m < |order| ==> order[m] < |bufs|) && k <= |order|
    ensures r.Some? ==> r.value in order[k..] && Matches(bufs[r.value], dev, blockno)
    ensures r.None? ==> forall m :: k <= m < |order| ==> !Matches(bufs[order[m]], dev, blockno)
    decreases |order| - k
  {
    if k == |order| then None
    else if Matches(bufs[order[k]], dev, blockno) then Some(order[k])
    else Hit(bufs, order, dev, blockno, k + 1)
  }

  /** The buffer to recycle: the first idle one from the back. */
  function Victim(bufs: seq<Buf>, order: seq<nat>, k: nat): (r: Option<nat>)
    requires (forall m :: 0 <= m < |order| ==> order[m] < |bufs|) && k <= |order|
    ensures r.Some? ==> r.value in order[..k] && Idle(bufs[r.value])
    ensures r.None? ==> forall m :: 0 <= m < k ==> !Idle(bufs[order[m]])
    decreases k
  {
    if k == 0 then None
    else if Idle(bufs[order[k - 1]]) then Some(order[k - 1])
    else Victim(bufs, order, k - 1)
  }

  /** What bget does: one more reference to the cached buffer, or the victim renamed. */
  predicate Got(bufs: seq<Buf>, order: seq<nat>, dev: nat, blockno: nat, bufs': seq<Buf>, r: Option<nat>)
    requires forall m :: 0 <= m < |order| ==> order[m] < |bufs|
  {
    var h := Hit(bufs, order, dev, blockno, 0);
    if h.Some? then
      r == h && bufs' == bufs[h.value := bufs[h.value].(refcnt := bufs[h.value].refcnt + 1)]
    else
      var v := Victim(bufs, order, |order|);
      r == v && bufs' == if v.Some? then bufs[v.value := Buf(dev, blockno, 1, false, false)] else bufs
  }

  lemma NotCached(bufs: seq<Buf>, order: seq<nat>, dev: nat, blockno: nat)
    requires |bufs| == NBUF && (forall m :: 0 <= m < |order| ==> order[m] < NBUF) && forall b :: 0 <= b < NBUF ==> b in order
    requires Hit(bufs, order, dev, blockno, 0).None?
    ensures forall b :: 0 <= b < NBUF ==> !Matches(bufs[b], dev, blockno)
  {
    forall b | 0 <= b < NBUF ensures !Matches(bufs[b], dev, blockno) {
      assert b in order;
    }
  }

  /** Stamps of last release fall along the ring. */
  ghost predicate ByRelease(order: seq<nat>, stamp: seq<nat>) {
    && |stamp| == NBUF && (forall k :: 0 <= k < |order| ==> order[k] < NBUF)
    && forall k, m :: 0 <= k < m < |order| ==> stamp[order[m]] < stamp[order[k]]
  }

  /** The victim is the least recently released of the idle buffers. */
  lemma {:induction false} VictimIsOldest(bufs: seq<Buf>, order: seq<nat>, stamp: seq<nat>, k: nat)
    requires |bufs| == NBUF && ByRelease(order, stamp) && k <= |order|
    ensures var v := Victim(bufs, order, k);
            v.Some? ==> v.value < NBUF && forall m :: 0 <= m < k && Idle(bufs[order[m]]) ==> stamp[v.value] <= stamp[order[m]]
  {
    if k > 0 && !Idle(bufs[order[k - 1]]) {
      VictimIsOldest(bufs, order, stamp, k - 1);
    }
  }

  /** At most one buffer per block of a real device. */
  ghost predicate Unique(bufs: seq<Buf>) {
    forall b, c :: 0 <= b < c < |bufs| && bufs[b].dev != 0 ==> !Matches(bufs[c], bufs[b].dev, bufs[b].blockno)
  }

  /** The ring after the last reference to b goes. */
  function Fronted(order: seq<nat>, p: nat): seq<nat>
    requires p < |order|
  {
    [order[p]] + Without(order, p)
  }

  lemma FrontedShape(order: seq<nat>, p: nat)
    requires Distinct(order) && p < |order| && forall b :: 0 <= b < NBUF ==> b in order
    ensures Distinct(Fronted(order, p)) && |Fronted(order, p)| == |order|
    ensures forall b :: 0 <= b < NBUF ==> b in Fronted(order, p)
  {
    var t := Fronted(order, p);
    forall c | 0 <= c < NBUF ensures c in t {
      assert c in order;
      var k :| 0 <= k < |order| && order[k] == c;
      assert t[if k < p then k + 1 else if k == p then 0 else k] == c;
    }
  }

  lemma FrontedOk(order: seq<nat>, stamp: seq<nat>, clock: nat, p: nat)
    requires Distinct(order) && ByRelease(order, stamp) && p < |order|
    requires forall b :: 0 <= b < NBUF ==> stamp[b] < clock
    ensures order[p] !in Without(order, p)
    ensures ByRelease(Fronted(order, p), stamp[order[p] := clock])
  {
    var t, s' := Fronted(order, p), stamp[order[p] := clock];
    forall m | 0 < m < |t| ensures t[m] == order[if m <= p then m - 1 else m] && t[m] != order[p] {
    }
    forall k, m | 0 <= k < m < |t| ensures s'[t[m]] < s'[t[k]] {
      assert t[m] == order[if m <= p then m - 1 else m];
      if k > 0 {
        assert t[k] == order[if k <= p then k - 1 else k];
      }
    }
  }

  class Cache {
    var next: array<nat>
    var prev: array<nat>
    var bufs: array<Buf>
    ghost var order: seq<nat>
    ghost var stamp: seq<nat>
    ghost var clock: nat

    ghost predicate Valid()
      reads this, next, prev, bufs
    {
      && next != prev && next.Length == prev.Length == NBUF + 1 && bufs.Length == NBUF
      && Linked(next[..], prev[..], order) && (forall b :: 0 <= b < NBUF ==> b in order)
      && ByRelease(order, stamp) && (forall b :: 0 <= b < NBUF ==> stamp[b] < clock)
      && Unique(bufs[..])
    }

    /** Put b at the front of the ring. */
    method PushFront(b: nat)
      requires next != prev && next.Length == prev.Length == NBUF + 1
      requires Linked(next[..], prev[..], order) && b < NBUF && b !in order
      modifies next, prev, this`order
      ensures Linked(next[..], prev[..], order) && order == [b] + old(order)
    {
      PushOk(next[..], prev[..], order, b);
      var first := next[HEAD];
      next[b] := first;
      prev[b] := HEAD;
      prev[first] := b;
      next[HEAD] := b;
      assert next[..] == old(next[..])[b := first][HEAD := b];
      assert prev[..] == old(prev[..])[b := HEAD][first := b];
      order := [b] + order;
    }

    /** Take the buffer at position p out of the ring. */
    method Unlink(b: nat, ghost p: nat)
      requires next != prev && next.Length == prev.Length == NBUF + 1
      requires Linked(next[..], prev[..], order) && p < |order| && order[p] == b
      modifies next, prev, this`order
      ensures Linked(next[..], prev[..], order) && order == Without(old(order), p)
    {
      UnlinkOk(next[..], prev[..], order, p);
      prev[next[b]] := prev[b];
      next[prev[b]] := next[b];
      assert next[..] == old(next[..])[old(prev[b]) := old(next[b])];
      assert prev[..] == old(prev[..])[old(next[b]) := old(prev[b])];
      order := Without(order, p);
    }

    /** binit. */
    constructor ()
      ensures Valid() && fresh(next) && fresh(prev) && fresh(bufs)
      ensures forall b :: 0 <= b < NBUF ==> bufs[b] == Buf(0, 0, 0, false, false)
    {
      next := new nat[NBUF + 1](_ => HEAD);
      prev := new nat[NBUF + 1](_ => HEAD);
      bufs := new Buf[NBUF](_ => Buf(0, 0, 0, false, false));
      order, clock, stamp := [], NBUF, seq(NBUF, b => b);
      new;
      var b := 0;
      while b < NBUF
        invariant b <= NBUF && Linked(next[..], prev[..], order) && |order| == b
        invariant next != prev && next.Length == prev.Length == NBUF + 1 && fresh(next) && fresh(prev)
        invariant forall k :: 0 <= k < b ==> order[k] == b - 1 - k
        invariant bufs.Length == NBUF && fresh(bufs) && forall c :: 0 <= c < NBUF ==> bufs[c] == Buf(0, 0, 0, false, false)
        invariant clock == NBUF && |stamp| == NBUF && forall c :: 0 <= c < NBUF ==> stamp[c] == c
      {
        assert b !in order;
        PushFront(b);
        b := b + 1;
      }
      forall c | 0 <= c < NBUF ensures c in order {
        assert order[NBUF - 1 - c] == c;
      }
    }

    /** bget's first loop. */
    method Find(dev: nat, blockno: nat) returns (r: Option<nat>)
      requires Valid()
      ensures r == Hit(bufs[..], order, dev, blockno, 0)
    {
      assert LinkOk(next[..], prev[..], order, 0);
      var b := next[HEAD];
      ghost var k := 0;
      while b != HEAD
        invariant k <= |order| && b == At(order, k + 1)
        invariant Hit(bufs[..], order, dev, blockno, 0) == Hit(bufs[..], order, dev, blockno, k)
        decreases |order| - k
      {
        if Matches(bufs[b], dev, blockno) {
          return Some(b);
        }
        assert LinkOk(next[..], prev[..], order, k + 1);
        b := next[b];
        k := k + 1;
      }
      return None;
    }

    /** bget's second loop. */
    method FindIdle() returns (r: Option<nat>)
      requires Valid()
      ensures r == Victim(bufs[..], order, |order|)
    {
      assert LinkOk(next[..], prev[..], order, |order|);
      var b := prev[HEAD];
      ghost var k := |order|;
      while b != HEAD
        invariant 0 <= k <= |order| && b == At(order, k)
        invariant Victim(bufs[..], order, |order|) == Victim(bufs[..], order, k)
        decreases k
      {
        if Idle(bufs[b]) {
          return Some(b);
        }
        assert LinkOk(next[..], prev[..], order, k - 1);
        b := prev[b];
        k := k - 1;
      }
      return None;
    }

    /** bget up to the release of bcache.lock. None is the panic. */
    method Bget(dev: nat, blockno: nat) returns (r: Option<nat>)
      requires Valid()
      modifies bufs
      ensures Valid()
      ensures Got(old(bufs[..]), order, dev, blockno, bufs[..], r)
    {
      r := Find(dev, blockno);
      if r.Some? {
        bufs[r.value] := bufs[r.value].(refcnt := bufs[r.value].refcnt + 1);
        return;
      }
      r := FindIdle();
      if r.Some? {
        assert Unique(old(bufs[..]));
        bufs[r.value] := Buf(dev, blockno, 1, false, false);
        NotCached(old(bufs[..]), order, dev, blockno);
      }
    }

    /** brelse after releasesleep. */
    method Brelse(b: nat)
      requires Valid() && b < NBUF && bufs[b].refcnt > 0
      modifies this, next, prev, bufs
      ensures Valid() && next == old(next) && prev == old(prev) && bufs == old(bufs)
      ensures bufs[..] == old(bufs[..])[b := old(bufs[b]).(refcnt := old(bufs[b]).refcnt - 1)]
      ensures bufs[b].refcnt > 0 ==> order == old(order) && stamp == old(stamp)
      ensures bufs[b].refcnt == 0 ==>
                && stamp == old(stamp)[b := old(clock)]
                && exists p :: 0 <= p < |old(order)| && old(order)[p] == b && order == Fronted(old(order), p)
    {
      bufs[b] := bufs[b].(refcnt := bufs[b].refcnt - 1);
      if bufs[b].refcnt == 0 {
        assert b in order;
        ghost var p :| 0 <= p < |order| && order[p] == b;
        FrontedOk(order, stamp, clock, p);
        FrontedShape(order, p);
        Unlink(b, p);
        PushFront(b);
        stamp, clock := stamp[b := clock], clock + 1;
      }
    }
  }
}
