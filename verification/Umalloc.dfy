/** umalloc.c: the Kernighan and Ritchie allocator (section 8.7 of The C Programming
Language, 2nd edition). Memory is addressed in units of one header; every block, free
or live, starts with a header whose `ptr` and `size` fields are the two maps here. */
module Umalloc {
  import opened Wrappers
  import opened FreeList

  const HEADER: nat := 16       // sizeof(Header)
  const MIN_UNITS: nat := 4096  // the least morecore asks for

  function Succ(fl: seq<Blk>, i: nat): (j: nat)
    requires i < |fl|
    ensures j < |fl|
  {
    if i + 1 < |fl| then i + 1 else 0
  }

  predicate SizeAt(size: map<nat, nat>, fl: seq<Blk>, i: nat)
    requires i < |fl|
  {
    fl[i].a in size && size[fl[i].a] == fl[i].n
  }

  predicate LinkAt(ptr: map<nat, nat>, fl: seq<Blk>, i: nat)
    requires i < |fl|
  {
    fl[i].a in ptr && ptr[fl[i].a] == fl[Succ(fl, i)].a
  }

  /** The headers form the circular list fl, except perhaps for the link out of
      block k. */
  ghost predicate LinkedBut(ptr: map<nat, nat>, size: map<nat, nat>, fl: seq<Blk>, k: int) {
    && (forall i {:trigger SizeAt(size, fl, i)} :: 0 <= i < |fl| ==> SizeAt(size, fl, i))
    && (forall i {:trigger LinkAt(ptr, fl, i)} :: 0 <= i < |fl| && i != k ==> LinkAt(ptr, fl, i))
  }

  ghost predicate Linked(ptr: map<nat, nat>, size: map<nat, nat>, fl: seq<Blk>) {
    LinkedBut(ptr, size, fl, -1)
  }

  lemma Addresses(base: nat, fl: seq<Blk>, i: nat, j: nat)
    requires Good(base, fl) && i < |fl| && j < |fl|
    ensures fl[i].a < fl[j].a <==> i < j
  {
    if i < j {
      assert Apart(fl[i], fl[j]);
    } else if j < i {
      assert Apart(fl[j], fl[i]);
    }
  }

  /** free, when the block touches the one after it: that one leaves the list. */
  lemma UnlinkUp(base: nat, ptr: map<nat, nat>, size: map<nat, nat>, fl: seq<Blk>, k: nat)
    requires Good(base, fl) && Linked(ptr, size, fl) && k + 1 < |fl|
    ensures LinkedBut(ptr, size, Without(fl, k + 1), k)
    ensures fl[k + 1].a in ptr && ptr[fl[k + 1].a] == Without(fl, k + 1)[Succ(Without(fl, k + 1), k)].a
  {
    var g := Without(fl, k + 1);
    forall i | 0 <= i < |g| ensures SizeAt(size, g, i) {
      assert SizeAt(size, fl, if i <= k then i else i + 1);
    }
    forall i | 0 <= i < |g| && i != k ensures LinkAt(ptr, g, i) {
      assert LinkAt(ptr, fl, if i <= k then i else i + 1);
    }
    assert LinkAt(ptr, fl, k + 1);
  }

  /** free, when the block touches block k: it becomes part of it. */
  lemma LinkMerged(base: nat, ptr: map<nat, nat>, size: map<nat, nat>, fl: seq<Blk>, k: nat, c: Blk)
    requires Good(base, fl) && LinkedBut(ptr, size, fl, k) && k < |fl| && End(fl[k]) == c.a
    ensures Linked(ptr[fl[k].a := fl[Succ(fl, k)].a], size[fl[k].a := fl[k].n + c.n], Place(fl, k, c))
  {
    var p, r := fl[k].a, fl[k := Blk(fl[k].a, fl[k].n + c.n)];
    assert Place(fl, k, c) == r;
    var size', ptr' := size[p := fl[k].n + c.n], ptr[p := fl[Succ(fl, k)].a];
    forall i | 0 <= i < |r| ensures SizeAt(size', r, i) {
      assert SizeAt(size, fl, i);
      Addresses(base, fl, i, k);
      Addresses(base, fl, k, i);
    }
    forall i | 0 <= i < |r| ensures LinkAt(ptr', r, i) {
      assert i != k ==> LinkAt(ptr, fl, i);
      Addresses(base, fl, i, k);
      Addresses(base, fl, k, i);
    }
  }

  /** free, when it does not: it is linked in after block k. */
  lemma LinkNew(base: nat, ptr: map<nat, nat>, size: map<nat, nat>, fl: seq<Blk>, k: nat, c: Blk)
    requires Good(base, fl) && LinkedBut(ptr, size, fl, k) && k < |fl| && End(fl[k]) != c.a
    requires c.a in size && size[c.a] == c.n && c.a in ptr && ptr[c.a] == fl[Succ(fl, k)].a
    requires fl[k].a < c.a
    ensures Linked(ptr[fl[k].a := c.a], size, Place(fl, k, c))
  {
    var p, r := fl[k].a, Place(fl, k, c);
    assert |r| == |fl| + 1 && r[k + 1] == c;
    assert forall i :: 0 <= i <= k ==> r[i] == fl[i];
    assert forall i :: k + 1 < i <= |fl| ==> r[i] == fl[i - 1];
    forall i | 0 <= i < |r| ensures SizeAt(size, r, i) {
      if i != k + 1 {
        assert SizeAt(size, fl, if i <= k then i else i - 1);
      }
    }
    var ptr' := ptr[p := c.a];
    forall i | 0 <= i < |r| ensures LinkAt(ptr', r, i) {
      if i != k + 1 && i != k {
        var j := if i <= k then i else i - 1;
        assert LinkAt(ptr, fl, j);
        Addresses(base, fl, j, k);
        Addresses(base, fl, k, j);
      }
    }
  }

  lemma LinkedFrame(ptr: map<nat, nat>, size: map<nat, nat>, fl: seq<Blk>, k: int, a: nat, x: nat, y: nat)
    requires LinkedBut(ptr, size, fl, k) && forall i :: 0 <= i < |fl| ==> fl[i].a != a
    ensures LinkedBut(ptr[a := x], size[a := y], fl, k)
  {
    var ptr', size' := ptr[a := x], size[a := y];
    forall i | 0 <= i < |fl| ensures SizeAt(size', fl, i) {
      assert SizeAt(size, fl, i);
    }
    forall i | 0 <= i < |fl| && i != k ensures LinkAt(ptr', fl, i) {
      assert LinkAt(ptr, fl, i);
    }
  }

  /** The list up to the link out of block k, with bp ready to go in after it. */
  ghost predicate GapAt(ptr: map<nat, nat>, size: map<nat, nat>, g: seq<Blk>, k: nat, bp: nat) {
    && k < |g| && LinkedBut(ptr, size, g, k)
    && bp in size && bp in ptr && ptr[bp] == g[Succ(g, k)].a
  }

  lemma RestGood(base: nat, fl: seq<Blk>, k: nat, b: Blk)
    requires Good(base, fl) && k < |fl|
    ensures Good(base, Rest(fl, k, b)) && k < |Rest(fl, k, b)| && Rest(fl, k, b)[k] == fl[k]
  {
    if TouchesNext(fl, k, b) {
      RemoveOk(base, fl, k + 1);
    }
  }

  lemma GapAbove(base: nat, ptr: map<nat, nat>, size: map<nat, nat>, fl: seq<Blk>, k: nat, b: Blk)
    requires Good(base, fl) && Linked(ptr, size, fl) && TouchesNext(fl, k, b)
    requires forall i :: 0 <= i < |fl| ==> fl[i].a != b.a
    ensures fl[k + 1].a in ptr && GapAt(ptr[b.a := ptr[fl[k + 1].a]], size[b.a := b.n + fl[k + 1].n], Rest(fl, k, b), k, b.a)
  {
    UnlinkUp(base, ptr, size, fl, k);
    LinkedFrame(ptr, size, Without(fl, k + 1), k, b.a, ptr[fl[k + 1].a], b.n + fl[k + 1].n);
  }

  /** malloc with an exact fit: the block before it is linked past it. */
  lemma Unlinked(base: nat, ptr: map<nat, nat>, size: map<nat, nat>, fl: seq<Blk>, i: nat)
    requires Good(base, fl) && Linked(ptr, size, fl) && 1 <= i < |fl|
    ensures fl[i].a in ptr && Linked(ptr[fl[i - 1].a := ptr[fl[i].a]], size, Without(fl, i))
  {
    UnlinkUp(base, ptr, size, fl, i - 1);
    var g := Without(fl, i);
    var ptr' := ptr[fl[i - 1].a := ptr[fl[i].a]];
    RemoveOk(base, fl, i);
    forall j | 0 <= j < |g| ensures LinkAt(ptr', g, j) {
      assert j != i - 1 ==> LinkAt(ptr, g, j);
      Addresses(base, g, j, i - 1);
      Addresses(base, g, i - 1, j);
    }
    assert forall j :: 0 <= j < |g| ==> SizeAt(size, g, j);
  }

  /** malloc with units to spare: the free block keeps its head. */
  lemma Shrunk(base: nat, ptr: map<nat, nat>, size: map<nat, nat>, fl: seq<Blk>, i: nat, n: nat)
    requires Good(base, fl) && Linked(ptr, size, fl) && 1 <= i < |fl| && n < fl[i].n
    ensures Linked(ptr, size[fl[i].a := fl[i].n - n], fl[i := Blk(fl[i].a, fl[i].n - n)])
  {
    var r, size' := fl[i := Blk(fl[i].a, fl[i].n - n)], size[fl[i].a := fl[i].n - n];
    forall j | 0 <= j < |r| ensures SizeAt(size', r, j) {
      assert SizeAt(size, fl, j);
      Addresses(base, fl, i, j);
      Addresses(base, fl, j, i);
    }
    forall j | 0 <= j < |r| ensures LinkAt(ptr, r, j) {
      assert LinkAt(ptr, fl, j);
    }
  }

  // ------------------------------------------------------------------
  // Who owns which units

  /** A block handed out by malloc, header included. */
  function LiveBlk(live: map<nat, nat>, a: nat): Blk
    requires a in live
  {
    Blk(a, live[a])
  }

  function LiveUnits(live: map<nat, nat>): (s: set<nat>) {
    set a, u | a in live && u in Units(LiveBlk(live, a)) :: u
  }

  ghost predicate Separate(live: map<nat, nat>) {
    forall a, b :: a in live && b in live && a != b ==> Units(LiveBlk(live, a)) !! Units(LiveBlk(live, b))
  }

  /** Every unit sbrk ever gave belongs to exactly one block, free or live. */
  ghost predicate Partition(base: nat, brk: nat, fl: seq<Blk>, live: map<nat, nat>, heap: set<nat>) {
    && heap == FreeUnits(fl) + LiveUnits(live)
    && FreeUnits(fl) !! LiveUnits(live)
    && Separate(live)
    && (forall a :: a in live ==> 1 <= live[a])
    && (forall u :: u in heap ==> base < u < brk)
  }

  lemma LiveUnitsWithout(live: map<nat, nat>, a: nat)
    requires Separate(live) && a in live
    ensures LiveUnits(live) == LiveUnits(live - {a}) + Units(LiveBlk(live, a))
    ensures LiveUnits(live - {a}) !! Units(LiveBlk(live, a))
    ensures Separate(live - {a})
  {
    var rest := live - {a};
    forall u | u in LiveUnits(live) ensures u in LiveUnits(rest) + Units(LiveBlk(live, a)) {
      var b :| b in live && u in Units(LiveBlk(live, b));
      assert b != a ==> LiveBlk(rest, b) == LiveBlk(live, b);
    }
    forall u | u in LiveUnits(rest) ensures u in LiveUnits(live) && u !in Units(LiveBlk(live, a)) {
      var b :| b in rest && u in Units(LiveBlk(rest, b));
      assert LiveBlk(rest, b) == LiveBlk(live, b);
    }
    forall b, c | b in rest && c in rest && b != c ensures Units(LiveBlk(rest, b)) !! Units(LiveBlk(rest, c)) {
      assert Units(LiveBlk(live, b)) !! Units(LiveBlk(live, c));
    }
  }

  lemma LiveHead(live: map<nat, nat>, a: nat)
    requires a in live && 1 <= live[a]
    ensures a in LiveUnits(live)
  {
    assert InBlk(LiveBlk(live, a), a);
    assert a in Units(LiveBlk(live, a));
  }

  lemma LiveUnitsWith(live: map<nat, nat>, a: nat, n: nat)
    requires Separate(live) && 1 <= n && Units(Blk(a, n)) !! LiveUnits(live)
    requires forall b :: b in live ==> 1 <= live[b]
    ensures a !in live && Separate(live[a := n])
    ensures LiveUnits(live[a := n]) == LiveUnits(live) + Units(Blk(a, n))
  {
    assert InBlk(Blk(a, n), a);
    if a in live {
      LiveHead(live, a);
    }
    var more := live[a := n];
    forall b, c | b in more && c in more && b != c ensures Units(LiveBlk(more, b)) !! Units(LiveBlk(more, c)) {
      forall u | u in Units(LiveBlk(more, b)) ensures u !in Units(LiveBlk(more, c)) {
        assert b != a ==> u in Units(LiveBlk(live, b)) && u in LiveUnits(live);
        assert b == a ==> u !in LiveUnits(live);
        assert c != a ==> LiveBlk(live, c) == LiveBlk(more, c);
      }
    }
    assert more - {a} == live;
    LiveUnitsWithout(more, a);
  }

  /** free: the units of a live block go over to the free list. */
  lemma FreePartition(base: nat, brk: nat, fl: seq<Blk>, live: map<nat, nat>, heap: set<nat>, a: nat, fl': seq<Blk>)
    requires Partition(base, brk, fl, live, heap) && a in live
    requires FreeUnits(fl') == FreeUnits(fl) + Units(LiveBlk(live, a))
    ensures Partition(base, brk, fl', live - {a}, heap)
  {
    LiveUnitsWithout(live, a);
  }

  /** malloc: units of a free block become a live block. */
  lemma MallocPartition(base: nat, brk: nat, fl: seq<Blk>, live: map<nat, nat>, heap: set<nat>, b: Blk, fl': seq<Blk>)
    requires Partition(base, brk, fl, live, heap) && 1 <= b.n
    requires FreeUnits(fl) == FreeUnits(fl') + Units(b) && FreeUnits(fl') !! Units(b)
    ensures b.a !in live && Partition(base, brk, fl', live[b.a := b.n], heap)
  {
    LiveUnitsWith(live, b.a, b.n);
  }

  /** morecore: new units above the old break start out as a live block. */
  lemma GrowPartition(base: nat, brk: nat, fl: seq<Blk>, live: map<nat, nat>, heap: set<nat>, b: Blk)
    requires Partition(base, brk, fl, live, heap) && base < brk <= b.a && 1 <= b.n
    ensures b.a !in live && Partition(base, End(b), fl, live[b.a := b.n], heap + Units(b))
  {
    forall u | u in Units(b) ensures u !in heap && base < u < End(b) {
      assert InBlk(b, u);
    }
    LiveUnitsWith(live, b.a, b.n);
  }

  /** The headers of live blocks are not headers of free blocks. */
  lemma LiveOffList(base: nat, brk: nat, fl: seq<Blk>, live: map<nat, nat>, heap: set<nat>, a: nat)
    requires Good(base, fl) && Partition(base, brk, fl, live, heap) && a in live
    ensures base < a && forall i :: 0 <= i < |fl| ==> fl[i].a != a
  {
    LiveHead(live, a);
    forall i | 0 <= i < |fl| ensures fl[i].a != a {
      if i > 0 {
        assert InBlk(fl[i], fl[i].a);
        FreeUnitsAt(fl, fl[i].a);
      }
    }
  }

  ghost predicate SizesOk(size: map<nat, nat>, live: map<nat, nat>) {
    forall a :: a in live ==> a in size && size[a] == live[a]
  }

  /** The units malloc needs for a request: the payload rounded up, plus a header. */
  function UnitsFor(nbytes: nat): (n: nat)
    ensures 1 <= n && nbytes <= (n - 1) * HEADER < nbytes + HEADER
  {
    (nbytes + HEADER - 1) / HEADER + 1
  }

  function Pred(fl: seq<Blk>, i: nat): (j: nat)
    requires i < |fl|
    ensures j < |fl| && Succ(fl, j) == i
  {
    if i > 0 then i - 1 else |fl| - 1
  }

  /** Steps along the circle from block i to block k. */
  function Ahead(fl: seq<Blk>, i: nat, k: nat): nat
    requires i < |fl| && k < |fl|
  {
    if i <= k then k - i else k - i + |fl|
  }

  lemma BeforeExists(base: nat, fl: seq<Blk>, a: nat) returns (k: nat)
    requires Good(base, fl) && base < a && forall i :: 0 <= i < |fl| ==> fl[i].a != a
    ensures Before(fl, k, a)
  {
    k := 0;
    while k + 1 < |fl| && fl[k + 1].a < a
      invariant k < |fl| && fl[k].a < a
    {
      k := k + 1;
    }
  }

  predicate HasBlock(fl: seq<Blk>, n: nat) {
    exists i :: 0 <= i < |fl| && n <= fl[i].n
  }

  /** The freed block is in the list, alone or as part of a larger one. */
  lemma InsertHas(fl: seq<Blk>, k: nat, b: Blk)
    requires k < |fl|
    ensures HasBlock(InsertAt(fl, k, b), b.n)
    ensures k < |InsertAt(fl, k, b)| && InsertAt(fl, k, b)[k].a == fl[k].a
  {
    var r := InsertAt(fl, k, b);
    if End(fl[k]) == b.a {
      assert b.n <= r[k].n;
    } else {
      assert b.n <= r[k + 1].n;
    }
  }

  lemma BelowBreak(base: nat, brk: nat, fl: seq<Blk>, live: map<nat, nat>, heap: set<nat>)
    requires Good(base, fl) && Partition(base, brk, fl, live, heap) && base < brk
    ensures forall i :: 0 <= i < |fl| ==> fl[i].a < brk
  {
    forall i | 1 <= i < |fl| ensures fl[i].a < brk {
      assert InBlk(fl[i], fl[i].a);
      FreeUnitsAt(fl, fl[i].a);
    }
  }

  /** The units morecore asks sbrk for. */
  function CoreUnits(units: nat): nat {
    if units < MIN_UNITS then MIN_UNITS else units
  }

  /** The blocks after freep and before block i are too small. */
  ghost predicate Seen(fl: seq<Blk>, i: nat, s: nat, n: nat)
    requires i < |fl| && s < |fl|
  {
    forall m {:trigger fl[m]} :: 0 <= m < |fl| && Ahead(fl, m, s) > Ahead(fl, i, s) ==> fl[m].n < n
  }

  lemma SeenNone(fl: seq<Blk>, s: nat, n: nat)
    requires s < |fl|
    ensures Seen(fl, Succ(fl, s), s, n)
  {
  }

  lemma SeenNext(base: nat, fl: seq<Blk>, i: nat, s: nat, n: nat)
    requires Good(base, fl) && i < |fl| && s < |fl| && fl[i].a != fl[s].a && fl[i].n < n && Seen(fl, i, s, n)
    ensures Seen(fl, Succ(fl, i), s, n) && Ahead(fl, Succ(fl, i), s) < Ahead(fl, i, s)
  {
    forall m | 0 <= m < |fl| && Ahead(fl, m, s) > Ahead(fl, Succ(fl, i), s) ensures fl[m].n < n {
      assert m == i || Ahead(fl, m, s) > Ahead(fl, i, s);
    }
  }

  /** Once the search is back at freep it has seen every block. */
  lemma NothingFits(base: nat, fl: seq<Blk>, i: nat, s: nat, n: nat)
    requires Good(base, fl) && i < |fl| && s < |fl| && fl[i].a == fl[s].a && fl[i].n < n && Seen(fl, i, s, n)
    ensures i == s && !HasBlock(fl, n)
  {
    Addresses(base, fl, i, s);
    Addresses(base, fl, s, i);
  }

  class Heap {
    const base: nat
    var ptr: map<nat, nat>
    var size: map<nat, nat>
    var freep: nat  // 0 is the null pointer
    var brk: nat

    ghost var fl: seq<Blk>
    ghost var live: map<nat, nat>
    ghost var heap: set<nat>

    /** The list is a circle through base with one address wrap, sorted and maximally
        coalesced, and every unit belongs to exactly one block. */
    ghost predicate Valid()
      reads this
    {
      && 0 < base < brk
      && Partition(base, brk, fl, live, heap)
      && SizesOk(size, live)
      && (freep == 0 ==> fl == [] && live == map[])
      && (freep != 0 ==> Good(base, fl) && Linked(ptr, size, fl) && OnList(fl, freep))
    }

    /** Before the first call: freep is null and sbrk has given nothing. */
    constructor (baseAt: nat, brkAt: nat)
      requires 0 < baseAt < brkAt
      ensures Valid() && base == baseAt && brk == brkAt && live == map[] && heap == {}
    {
      base, brk, freep := baseAt, brkAt, 0;
      ptr, size := map[], map[];
      fl, live, heap := [], map[], {};
    }

    static ghost predicate OnList(fl: seq<Blk>, a: nat) {
      exists i :: 0 <= i < |fl| && fl[i].a == a
    }

    /** The search of free: the free block before bp. */
    method FindBefore(bp: nat, ghost k: nat) returns (p: nat)
      requires Good(base, fl) && Linked(ptr, size, fl) && OnList(fl, freep) && Before(fl, k, bp) && base < bp
      ensures p == fl[k].a
    {
      p := freep;
      ghost var i :| 0 <= i < |fl| && fl[i].a == p;
      assert LinkAt(ptr, fl, i);
      Step(i, k, bp);
      while !(bp > p && bp < ptr[p])
        invariant 0 <= i < |fl| && fl[i].a == p && LinkAt(ptr, fl, i)
        invariant (bp > p && bp < ptr[p]) || (p >= ptr[p] && (bp > p || bp < ptr[p])) <==> i == k
        decreases Ahead(fl, i, k)
      {
        if p >= ptr[p] && (bp > p || bp < ptr[p]) {
          break;
        }
        p := ptr[p];
        i := Succ(fl, i);
        assert LinkAt(ptr, fl, i);
        Step(i, k, bp);
      }
    }

    /** The exit tests of free's loop hold at the block before bp and nowhere else. */
    lemma Step(i: nat, k: nat, bp: nat)
      requires Good(base, fl) && i < |fl| && LinkAt(ptr, fl, i) && Before(fl, k, bp) && base < bp
      ensures var p := fl[i].a;
              (bp > p && bp < ptr[p]) || (p >= ptr[p] && (bp > p || bp < ptr[p])) <==> i == k
    {
      if i + 1 < |fl| {
        Addresses(base, fl, i, i + 1);
      }
      if i < k {
        assert i + 1 < k ==> Apart(fl[i + 1], fl[k]);
      } else if k < i {
        assert k + 1 < i ==> Apart(fl[k + 1], fl[i]);
      }
      assert 0 < i ==> Apart(fl[0], fl[i]);
    }

    /** The first half of free's surgery: bp takes over the block after it if they
        touch, and in any case points at what comes next. */
    method MergeUp(p: nat, bp: nat, ghost k: nat)
      requires Good(base, fl) && Linked(ptr, size, fl) && bp in size && Before(fl, k, bp) && p == fl[k].a
      requires Fits(base, fl, Blk(bp, size[bp]))
      modifies this`ptr, this`size
      ensures var b := Blk(bp, old(size)[bp]);
              && GapAt(ptr, size, Rest(fl, k, b), k, bp) && size[bp] == Grown(fl, k, b).n
      ensures forall a :: a in old(size) && a != bp ==> a in size && size[a] == old(size)[a]
    {
      assert LinkAt(ptr, fl, k);
      ghost var b := Blk(bp, size[bp]);
      if bp + size[bp] == ptr[p] {
        assert SizeAt(size, fl, k + 1);
        GapAbove(base, ptr, size, fl, k, b);
        size, ptr := size[bp := size[bp] + size[ptr[p]]], ptr[bp := ptr[ptr[p]]];
      } else {
        LinkedFrame(ptr, size, fl, k, bp, ptr[p], size[bp]);
        size, ptr := size[bp := size[bp]], ptr[bp := ptr[p]];
      }
    }

    /** The second half: p takes over bp if they touch, or points at it. */
    method MergeDown(p: nat, bp: nat, ghost g: seq<Blk>, ghost k: nat)
      requires k < |g| && p == g[k].a && p < bp && Good(base, g) && GapAt(ptr, size, g, k, bp)
      modifies this`ptr, this`size
      ensures Linked(ptr, size, Place(g, k, Blk(bp, old(size)[bp])))
      ensures forall a :: a in old(size) && a != p ==> a in size && size[a] == old(size)[a]
    {
      assert SizeAt(size, g, k);
      if p + size[p] == bp {
        LinkMerged(base, ptr, size, g, k, Blk(bp, size[bp]));
        size, ptr := size[p := size[p] + size[bp]], ptr[p := ptr[bp]];
      } else {
        LinkNew(base, ptr, size, g, k, Blk(bp, size[bp]));
        ptr := ptr[p := bp];
      }
    }

    method Relink(p: nat, bp: nat, ghost k: nat)
      requires Good(base, fl) && Linked(ptr, size, fl) && bp in size && Before(fl, k, bp) && p == fl[k].a
      requires Fits(base, fl, Blk(bp, size[bp]))
      modifies this`ptr, this`size
      ensures Linked(ptr, size, InsertAt(fl, k, Blk(bp, old(size)[bp])))
      ensures forall a :: a in old(size) && a != fl[k].a && a != bp ==> a in size && size[a] == old(size)[a]
    {
      ghost var b := Blk(bp, size[bp]);
      MergeUp(p, bp, k);
      RestGood(base, fl, k, b);
      MergeDown(p, bp, Rest(fl, k, b), k);
    }

    /** Where a live block goes when it is freed. */
    lemma PlaceFor(bp: nat) returns (k: nat)
      requires Good(base, fl) && Partition(base, brk, fl, live, heap) && bp in live
      ensures base < bp && Before(fl, k, bp) && Fits(base, fl, LiveBlk(live, bp))
    {
      LiveOffList(base, brk, fl, live, heap, bp);
      LiveUnitsWithout(live, bp);
      DisjointFits(base, fl, LiveBlk(live, bp));
      k := BeforeExists(base, fl, bp);
    }

    /** free of a block malloc returned: it goes back on the list, merged with its
        neighbours, and nothing else changes hands. */
    method Free(ap: nat)
      requires Valid() && 1 <= ap && ap - 1 in live
      modifies this`ptr, this`size, this`freep, this`fl, this`live
      ensures Valid() && freep != 0
      ensures live == old(live) - {ap - 1}
      ensures FreeUnits(fl) == FreeUnits(old(fl)) + Units(LiveBlk(old(live), ap - 1))
      ensures HasBlock(fl, old(live)[ap - 1])
    {
      var bp := ap - 1;
      ghost var k := PlaceFor(bp);
      var p := FindBefore(bp, k);
      Relink(p, bp, k);
      freep := p;
      Freed(bp, k, old(size));
      fl, live := InsertAt(fl, k, LiveBlk(live, bp)), live - {bp};
    }

    /** What makes the heap valid again once free has relinked the list. */
    lemma Freed(bp: nat, k: nat, before: map<nat, nat>)
      requires 0 < base && Good(base, fl) && Partition(base, brk, fl, live, heap) && bp in live && Before(fl, k, bp)
      requires Fits(base, fl, LiveBlk(live, bp)) && SizesOk(before, live)
      requires forall a :: a in before && a != fl[k].a && a != bp ==> a in size && size[a] == before[a]
      ensures var fl', live' := InsertAt(fl, k, LiveBlk(live, bp)), live - {bp};
              && fl[k].a != 0 && Good(base, fl') && OnList(fl', fl[k].a)
              && Partition(base, brk, fl', live', heap) && SizesOk(size, live')
              && FreeUnits(fl') == FreeUnits(fl) + Units(LiveBlk(live, bp)) && HasBlock(fl', live[bp])
    {
      var b := LiveBlk(live, bp);
      InsertOk(base, fl, k, b);
      InsertHas(fl, k, b);
      FreePartition(base, brk, fl, live, heap, bp, InsertAt(fl, k, b));
      forall a | a in live && a != bp ensures a in size && size[a] == live[a] {
        LiveOffList(base, brk, fl, live, heap, a);
      }
      assert k > 0 ==> Apart(fl[0], fl[k]);
    }

    /** New units from sbrk, with a header that makes them one block. */
    method AddCore(hp: nat, nu: nat)
      requires Valid() && freep != 0 && brk <= hp && 1 <= nu
      modifies this`ptr, this`size, this`brk, this`live, this`heap
      ensures Valid() && hp !in old(live) && live == old(live)[hp := nu] && heap == old(heap) + Units(Blk(hp, nu))
      ensures old(heap) !! Units(Blk(hp, nu))
    {
      GrowPartition(base, brk, fl, live, heap, Blk(hp, nu));
      BelowBreak(base, brk, fl, live, heap);
      LinkedFrame(ptr, size, fl, -1, hp, 0, nu);
      forall u | u in Units(Blk(hp, nu)) ensures u !in heap {
        assert InBlk(Blk(hp, nu), u);
      }
      brk := hp + nu;
      size, ptr := size[hp := nu], ptr[hp := 0];
      live, heap := live[hp := nu], heap + Units(Blk(hp, nu));
    }

    /** morecore: ask for at least 4096 units and free them. grant is sbrk's answer:
        refused, or given at some distance above the old break. */
    method Morecore(units: nat, grant: Option<nat>) returns (p: nat)
      requires Valid() && freep != 0
      modifies this
      ensures Valid() && freep != 0 && p == if grant == None then 0 else freep
      ensures live == old(live)
      ensures grant == None ==> fl == old(fl) && heap == old(heap) && freep == old(freep)
      ensures grant.Some? ==> HasBlock(fl, units) && heap == old(heap) + Units(Blk(old(brk) + grant.value, CoreUnits(units)))
    {
      var nu := units;
      if nu < MIN_UNITS {
        nu := MIN_UNITS;
      }
      if grant == None {
        return 0;
      }
      var hp := brk + grant.value;
      AddCore(hp, nu);
      assert old(live)[hp := nu] - {hp} == old(live);
      Free(hp + 1);
      return freep;
    }

    /** The first call of malloc makes base a circle of its own. */
    method Init()
      requires Valid()
      modifies this`ptr, this`size, this`freep, this`fl
      ensures Valid() && freep != 0
      ensures old(freep) != 0 ==> fl == old(fl) && freep == old(freep)
    {
      if freep == 0 {
        ptr, size, freep := ptr[base := base], size[base := 0], base;
        fl := [Blk(base, 0)];
        FreeUnitsOne(Blk(base, 0));
        assert forall u :: u in Units(Blk(base, 0)) ==> InBlk(Blk(base, 0), u);
        assert LinkAt(ptr, fl, 0) && SizeAt(size, fl, 0);
      }
    }

    lemma FreeHeader(i: nat)
      requires 0 < base && Good(base, fl) && Partition(base, brk, fl, live, heap) && i < |fl|
      ensures fl[i].a != 0 && fl[i].a !in live
    {
      assert i > 0 ==> Apart(fl[0], fl[i]);
      if fl[i].a in live {
        LiveOffList(base, brk, fl, live, heap, fl[i].a);
      }
    }

    /** malloc with an exact fit: hand out block i. */
    method TakeWhole(prevp: nat, p: nat, ghost i: nat) returns (ap: nat)
      requires Valid() && freep != 0 && 1 <= i < |fl| && fl[i].a == p && fl[i - 1].a == prevp
      modifies this`ptr, this`freep, this`fl, this`live
      ensures Valid() && 1 <= ap && ap - 1 !in old(live) && live == old(live)[ap - 1 := old(fl)[i].n]
    {
      assert SizeAt(size, fl, i);
      FreeHeader(i - 1);
      RemoveOk(base, fl, i);
      Unlinked(base, ptr, size, fl, i);
      MallocPartition(base, brk, fl, live, heap, fl[i], Without(fl, i));
      assert Without(fl, i)[i - 1] == fl[i - 1];
      ptr := ptr[prevp := ptr[p]];
      freep, ap := prevp, p + 1;
      fl, live := Without(fl, i), live[p := fl[i].n];
    }

    lemma TailLinks(i: nat, n: nat)
      requires Valid() && freep != 0 && 1 <= i < |fl| && 1 <= n < fl[i].n
      ensures var p, q := fl[i].a, fl[i].a + fl[i].n - n;
              var fl', live', size' := fl[i := Blk(p, fl[i].n - n)], live[q := n], size[p := fl[i].n - n][q := n];
              && q !in live && Good(base, fl') && Partition(base, brk, fl', live', heap)
              && Linked(ptr, size', fl') && SizesOk(size', live')
    {
      var p, q := fl[i].a, fl[i].a + fl[i].n - n;
      var fl', live' := fl[i := Blk(p, fl[i].n - n)], live[q := n];
      ShrinkOk(base, fl, i, n);
      Shrunk(base, ptr, size, fl, i, n);
      MallocPartition(base, brk, fl, live, heap, Blk(q, n), fl');
      LiveOffList(base, brk, fl', live', heap, q);
      var size' := size[p := fl[i].n - n];
      var size'' := size'[q := n];
      FreeHeader(i);
      assert LinkAt(ptr, fl', i) && SizeAt(size', fl', i);
      forall j | 0 <= j < |fl'| ensures SizeAt(size'', fl', j) {
        assert SizeAt(size', fl', j);
      }
    }

    /** malloc with units to spare: hand out the tail of block i. */
    method TakeTail(prevp: nat, p: nat, nunits: nat, ghost i: nat) returns (ap: nat)
      requires Valid() && freep != 0 && 1 <= i < |fl| && fl[i].a == p && fl[i - 1].a == prevp
      requires 1 <= nunits < fl[i].n
      modifies this`size, this`freep, this`fl, this`live
      ensures Valid() && 1 <= ap && ap - 1 !in old(live) && live == old(live)[ap - 1 := nunits]
    {
      assert SizeAt(size, fl, i);
      FreeHeader(i - 1);
      TailLinks(i, nunits);
      ghost var r := fl[i := Blk(p, fl[i].n - nunits)];
      assert r[i - 1] == fl[i - 1];
      size := size[p := size[p] - nunits];
      var q := p + size[p];
      size := size[q := nunits];
      freep, ap := prevp, q + 1;
      fl, live := r, live[q := nunits];
    }

    /** Hand out block i, or its tail. */
    method Take(prevp: nat, p: nat, nunits: nat, ghost i: nat) returns (ap: nat)
      requires Valid() && freep != 0 && 1 <= i < |fl| && fl[i].a == p && fl[i - 1].a == prevp
      requires 1 <= nunits <= fl[i].n
      modifies this`ptr, this`size, this`freep, this`fl, this`live
      ensures Valid() && 1 <= ap && ap - 1 !in old(live) && live == old(live)[ap - 1 := nunits]
    {
      assert SizeAt(size, fl, i);
      if size[p] == nunits {
        ap := TakeWhole(prevp, p, i);
      } else {
        ap := TakeTail(prevp, p, nunits, i);
      }
    }

    /** The search stands at block i, having come from the one before it. */
    ghost predicate Searching(i: nat, s: nat, p: nat, prevp: nat, n: nat)
      reads this
    {
      && Valid() && freep != 0 && s < |fl| && fl[s].a == freep
      && i < |fl| && fl[i].a == p && fl[Pred(fl, i)].a == prevp
      && Seen(fl, i, s, n)
    }

    /** Start at the block after freep. */
    method Begin(n: nat) returns (prevp: nat, p: nat, ghost s: nat)
      requires Valid() && freep != 0
      ensures prevp == freep && s < |fl| && Searching(Succ(fl, s), s, p, prevp, n)
    {
      prevp := freep;
      s :| s < |fl| && fl[s].a == freep;
      assert LinkAt(ptr, fl, s);
      p := ptr[prevp];
      SeenNone(fl, s, n);
    }

    /** malloc when the search has come around: more core, and back to the start. */
    method Grow(nunits: nat, grant: Option<nat>, at: nat, prev: nat, ghost i: nat, ghost from: nat)
      returns (ok: bool, prevp: nat, p: nat, ghost s: nat)
      requires Searching(i, from, at, prev, nunits) && at == freep && fl[i].n < nunits
      modifies this
      ensures Valid() && live == old(live) && ok == grant.Some? && !HasBlock(old(fl), nunits)
      ensures !ok ==> heap == old(heap)
      ensures ok ==> old(heap) <= heap && HasBlock(fl, nunits) && s < |fl| && Searching(Succ(fl, s), s, p, prevp, nunits)
    {
      NothingFits(base, fl, i, from, nunits);
      var q := Morecore(nunits, grant);
      if q == 0 {
        return false, prev, at, from;
      }
      ok := true;
      prevp, p, s := Begin(nunits);
    }

    /** Does the block the search stands at fit? */
    method FitsHere(p: nat, n: nat, ghost i: nat, ghost s: nat, ghost prevp: nat) returns (fits: bool)
      requires Searching(i, s, p, prevp, n)
      ensures fits <==> fl[i].n >= n
    {
      assert SizeAt(size, fl, i);
      return size[p] >= n;
    }

    /** On to the next block, when this one does not fit and is not the last. */
    method Advance(p: nat, n: nat, ghost i: nat, ghost s: nat, ghost prevp: nat) returns (next: nat)
      requires Searching(i, s, p, prevp, n) && fl[i].n < n && p != freep
      ensures Searching(Succ(fl, i), s, next, p, n) && Ahead(fl, Succ(fl, i), s) < Ahead(fl, i, s)
    {
      assert LinkAt(ptr, fl, i);
      SeenNext(base, fl, i, s, n);
      return ptr[p];
    }

    /** malloc: a block of at least nbytes beside its header, disjoint from every other
        block, or null when sbrk refuses. The search goes around the circle once; if
        nothing fits, morecore leaves a block that fits on it, so the second time
        around finds one. */
    method Malloc(nbytes: nat, grant: Option<nat>) returns (ap: nat)
      requires Valid()
      modifies this
      ensures Valid()
      ensures ap == 0 ==> grant == None && live == old(live) && heap == old(heap)
      ensures ap != 0 ==> ap - 1 !in old(live) && live == old(live)[ap - 1 := UnitsFor(nbytes)]
      ensures old(heap) <= heap
      ensures HasBlock(old(fl), UnitsFor(nbytes)) ==> ap != 0 && heap == old(heap)
    {
      var nunits := UnitsFor(nbytes);
      Init();
      ghost var grown := false;
      var prevp, p;
      ghost var s;
      prevp, p, s := Begin(nunits);
      ghost var i := Succ(fl, s);
      while true
        invariant Searching(i, s, p, prevp, nunits) && live == old(live) && old(heap) <= heap
        invariant HasBlock(old(fl), nunits) ==> HasBlock(fl, nunits)
        invariant if grown then HasBlock(fl, nunits) && !HasBlock(old(fl), nunits) && grant.Some? else heap == old(heap)
        decreases !grown, Ahead(fl, i, s)
      {
        var fits := FitsHere(p, nunits, i, s, prevp);
        if fits {
          ap := Take(prevp, p, nunits, i);
          return;
        }
        if p == freep {
          var ok;
          ok, prevp, p, s := Grow(nunits, grant, p, prevp, i, s);
          if !ok {
            return 0;
          }
          grown := true;
          i := Succ(fl, s);
        } else {
          var next := Advance(p, nunits, i, s, prevp);
          prevp := p;
          p := next;
          i := Succ(fl, i);
        }
      }
    }
  }
}
