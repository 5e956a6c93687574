/** The free list of umalloc.c as a value: blocks of header-sized units in address
order, the first of them the empty block `base`. */
module FreeList {
  /** n units starting with the header at unit address a. */
  datatype Blk = Blk(a: nat, n: nat)

  function End(b: Blk): nat {
    b.a + b.n
  }

  predicate InBlk(b: Blk, u: nat) {
    b.a <= u < End(b)
  }

  function Units(b: Blk): (s: set<nat>) {
    set u | 0 <= u < End(b) && InBlk(b, u)
  }

  /** b lies before c with at least one unit in between: they cannot be merged. */
  predicate Apart(b: Blk, c: Blk) {
    End(b) < c.a
  }

  predicate Sorted(fl: seq<Blk>) {
    forall i, j {:trigger Apart(fl[i], fl[j])} :: 0 <= i < j < |fl| ==> Apart(fl[i], fl[j])
  }

  /** One address wrap, no overlap, maximally coalesced, base first and empty. */
  predicate Good(base: nat, fl: seq<Blk>) {
    && |fl| >= 1 && fl[0] == Blk(base, 0)
    && Sorted(fl)
    && (forall i :: 1 <= i < |fl| ==> 1 <= fl[i].n)
  }

  function FreeUnits(fl: seq<Blk>): (s: set<nat>) {
    set i, u | 0 <= i < |fl| && u in Units(fl[i]) :: u
  }

  lemma FreeUnitsAt(fl: seq<Blk>, u: nat)
    ensures u in FreeUnits(fl) <==> exists i :: 0 <= i < |fl| && InBlk(fl[i], u)
  {
    if i :| 0 <= i < |fl| && InBlk(fl[i], u) {
      assert u in Units(fl[i]);
    }
  }

  lemma FreeUnitsConcat(fl: seq<Blk>, gl: seq<Blk>)
    ensures FreeUnits(fl + gl) == FreeUnits(fl) + FreeUnits(gl)
  {
    var r := fl + gl;
    forall u | u in FreeUnits(fl) || u in FreeUnits(gl) ensures u in FreeUnits(r) {
      if i :| 0 <= i < |fl| && u in Units(fl[i]) {
        assert u in Units(r[i]);
      } else {
        var i :| 0 <= i < |gl| && u in Units(gl[i]);
        assert u in Units(r[|fl| + i]);
      }
    }
    forall u | u in FreeUnits(r) ensures u in FreeUnits(fl) || u in FreeUnits(gl) {
      var i :| 0 <= i < |r| && u in Units(r[i]);
      assert if i < |fl| then u in Units(fl[i]) else u in Units(gl[i - |fl|]);
    }
  }

  lemma FreeUnitsOne(b: Blk)
    ensures FreeUnits([b]) == Units(b)
  {
    forall u | u in Units(b) ensures u in FreeUnits([b]) {
      assert u in Units([b][0]);
    }
  }

  lemma UnitsSplit(a: nat, m: nat, n: nat)
    ensures Units(Blk(a, m + n)) == Units(Blk(a, m)) + Units(Blk(a + m, n))
    ensures Units(Blk(a, m)) !! Units(Blk(a + m, n))
  {
    var whole, low, high := Blk(a, m + n), Blk(a, m), Blk(a + m, n);
    forall u | u in Units(whole) ensures u in Units(low) || u in Units(high) {
      assert InBlk(whole, u);
      assert InBlk(low, u) || InBlk(high, u);
    }
    forall u | u in Units(low) || u in Units(high) ensures u in Units(whole) {
      assert InBlk(low, u) || InBlk(high, u);
      assert InBlk(whole, u);
    }
  }

  /** fl[k] is the last free block before address a. */
  predicate Before(fl: seq<Blk>, k: nat, a: nat) {
    k < |fl| && fl[k].a < a && (k + 1 < |fl| ==> a < fl[k + 1].a)
  }

  /** A block that is not on the list and overlaps nothing on it. */
  predicate Fits(base: nat, fl: seq<Blk>, b: Blk) {
    && base < b.a && 1 <= b.n
    && forall i :: 0 <= i < |fl| ==> End(fl[i]) <= b.a || End(b) <= fl[i].a
  }

  /** A block disjoint from the free units fits. */
  lemma DisjointFits(base: nat, fl: seq<Blk>, b: Blk)
    requires Good(base, fl) && base < b.a && 1 <= b.n && Units(b) !! FreeUnits(fl)
    ensures Fits(base, fl, b)
  {
    forall i | 0 <= i < |fl| ensures End(fl[i]) <= b.a || End(b) <= fl[i].a {
      if i > 0 {
        FreeUnitsAt(fl, b.a);
        FreeUnitsAt(fl, fl[i].a);
        assert InBlk(b, b.a) && b.a in Units(b) && !InBlk(fl[i], b.a);
        assert InBlk(fl[i], fl[i].a) && fl[i].a !in Units(b);
        assert !InBlk(b, fl[i].a);
      }
    }
  }

  /** free, where b does not touch the block after it: link it in after the front
      part, or grow the last block of the front part. */
  function Join(front: seq<Blk>, c: Blk): (r: seq<Blk>)
    requires front != []
  {
    var p := front[|front| - 1];
    if End(p) == c.a then front[..|front| - 1] + [Blk(p.a, p.n + c.n)] else front + [c]
  }

  /** Put c after fl[k], merging it with fl[k] if it touches it. */
  function Place(fl: seq<Blk>, k: nat, c: Blk): (r: seq<Blk>)
    requires k < |fl|
  {
    Join(fl[..k + 1], c) + fl[k + 1..]
  }

  function Without(fl: seq<Blk>, i: nat): (r: seq<Blk>)
    requires i < |fl|
  {
    fl[..i] + fl[i + 1..]
  }

  /** b touches the block after fl[k]. */
  predicate TouchesNext(fl: seq<Blk>, k: nat, b: Blk) {
    k + 1 < |fl| && End(b) == fl[k + 1].a
  }

  /** The list, and the block to place in it, after b has absorbed what it touches. */
  function Rest(fl: seq<Blk>, k: nat, b: Blk): (g: seq<Blk>) {
    if TouchesNext(fl, k, b) then Without(fl, k + 1) else fl
  }

  function Grown(fl: seq<Blk>, k: nat, b: Blk): (c: Blk) {
    if TouchesNext(fl, k, b) then Blk(b.a, b.n + fl[k + 1].n) else b
  }

  /** free: put b after fl[k], merging it with the blocks it touches. */
  function InsertAt(fl: seq<Blk>, k: nat, b: Blk): (r: seq<Blk>)
    requires k < |fl|
  {
    Place(Rest(fl, k, b), k, Grown(fl, k, b))
  }

  lemma SortedConcat(fl: seq<Blk>, gl: seq<Blk>)
    requires Sorted(fl) && Sorted(gl)
    requires fl != [] && gl != [] ==> Apart(fl[|fl| - 1], gl[0])
    ensures Sorted(fl + gl)
  {
    var r := fl + gl;
    forall i, j | 0 <= i < j < |r| ensures Apart(r[i], r[j]) {
      if i < |fl| <= j {
        assert i < |fl| - 1 ==> Apart(fl[i], fl[|fl| - 1]);
        assert j > |fl| ==> Apart(gl[0], gl[j - |fl|]);
      } else if j < |fl| {
        assert Apart(fl[i], fl[j]);
      } else {
        assert Apart(gl[i - |fl|], gl[j - |fl|]);
      }
    }
  }

  lemma SortedSlice(fl: seq<Blk>, lo: nat, hi: nat)
    requires Sorted(fl) && lo <= hi <= |fl|
    ensures Sorted(fl[lo..hi])
  {
    forall i, j | 0 <= i < j < hi - lo ensures Apart(fl[lo..hi][i], fl[lo..hi][j]) {
      assert Apart(fl[lo + i], fl[lo + j]);
    }
  }

  function Last(fl: seq<Blk>): Blk
    requires fl != []
  {
    fl[|fl| - 1]
  }

  lemma GoodConcat(base: nat, fl: seq<Blk>, gl: seq<Blk>)
    requires Good(base, fl) && Sorted(gl) && (forall i :: 0 <= i < |gl| ==> 1 <= gl[i].n)
    requires gl != [] ==> Apart(Last(fl), gl[0])
    ensures Good(base, fl + gl)
  {
    SortedConcat(fl, gl);
  }

  lemma GoodFront(base: nat, fl: seq<Blk>, k: nat)
    requires Good(base, fl) && 1 <= k <= |fl|
    ensures Good(base, fl[..k]) && Sorted(fl[k..]) && forall i :: 0 <= i < |fl| - k ==> 1 <= fl[k..][i].n
  {
    SortedSlice(fl, 0, k);
    SortedSlice(fl, k, |fl|);
  }

  lemma JoinGood(base: nat, front: seq<Blk>, c: Blk)
    requires Good(base, front) && base < c.a && 1 <= c.n && End(Last(front)) <= c.a
    ensures Join(front, c) != [] && Good(base, Join(front, c))
    ensures End(Last(Join(front, c))) == End(c) && c.n <= Last(Join(front, c)).n
  {
    var m := |front| - 1;
    var p := front[m];
    if End(p) == c.a {
      assert m > 0;
      GoodFront(base, front, m);
      assert Apart(front[m - 1], front[m]);
      GoodConcat(base, front[..m], [Blk(p.a, p.n + c.n)]);
    } else {
      GoodConcat(base, front, [c]);
    }
  }

  /** Growing the last block by the one behind it. */
  lemma GrowUnits(front: seq<Blk>, p: Blk, c: Blk)
    requires End(p) == c.a
    ensures FreeUnits(front + [Blk(p.a, p.n + c.n)]) == FreeUnits(front + [p]) + Units(c)
  {
    FreeUnitsConcat(front, [p]);
    FreeUnitsOne(p);
    FreeUnitsConcat(front, [Blk(p.a, p.n + c.n)]);
    FreeUnitsOne(Blk(p.a, p.n + c.n));
    UnitsSplit(p.a, p.n, c.n);
    assert c == Blk(p.a + p.n, c.n);
  }

  lemma JoinUnits(front: seq<Blk>, c: Blk)
    requires front != []
    ensures FreeUnits(Join(front, c)) == FreeUnits(front) + Units(c)
  {
    var m := |front| - 1;
    if End(front[m]) == c.a {
      assert front == front[..m] + [front[m]];
      GrowUnits(front[..m], front[m], c);
    } else {
      FreeUnitsConcat(front, [c]);
      FreeUnitsOne(c);
    }
  }

  lemma PlaceGood(base: nat, fl: seq<Blk>, k: nat, c: Blk)
    requires Good(base, fl) && k < |fl| && base < c.a && 1 <= c.n && End(fl[k]) <= c.a
    requires k + 1 < |fl| ==> Apart(c, fl[k + 1])
    ensures Good(base, Place(fl, k, c))
  {
    GoodFront(base, fl, k + 1);
    JoinGood(base, fl[..k + 1], c);
    GoodConcat(base, Join(fl[..k + 1], c), fl[k + 1..]);
  }

  lemma PlaceUnits(fl: seq<Blk>, k: nat, c: Blk)
    requires k < |fl|
    ensures FreeUnits(Place(fl, k, c)) == FreeUnits(fl) + Units(c)
  {
    var front, rest := fl[..k + 1], fl[k + 1..];
    FreeUnitsConcat(front, rest);
    JoinUnits(front, c);
    FreeUnitsConcat(Join(front, c), rest);
    assert fl == front + rest;
  }

  /** malloc with an exact fit: take block i off the list. */
  lemma RemoveOk(base: nat, fl: seq<Blk>, i: nat)
    requires Good(base, fl) && 1 <= i < |fl|
    ensures Good(base, Without(fl, i))
    ensures FreeUnits(fl) == FreeUnits(Without(fl, i)) + Units(fl[i])
    ensures FreeUnits(Without(fl, i)) !! Units(fl[i])
  {
    GoodFront(base, fl, i);
    GoodFront(base, fl, i + 1);
    if i + 1 < |fl| {
      assert Apart(fl[i - 1], fl[i + 1]);
    }
    GoodConcat(base, fl[..i], fl[i + 1..]);
    TakeOut(fl, i);
  }

  /** Freeing keeps the list sorted and maximally coalesced, and adds exactly the
      units of the freed block to it. */
  lemma InsertOk(base: nat, fl: seq<Blk>, k: nat, b: Blk)
    requires Good(base, fl) && Fits(base, fl, b) && Before(fl, k, b.a)
    ensures Good(base, InsertAt(fl, k, b))
    ensures FreeUnits(InsertAt(fl, k, b)) == FreeUnits(fl) + Units(b)
  {
    if TouchesNext(fl, k, b) {
      InsertUp(base, fl, k, b);
    } else {
      PlaceGood(base, fl, k, b);
      PlaceUnits(fl, k, b);
    }
  }

  lemma InsertUp(base: nat, fl: seq<Blk>, k: nat, b: Blk)
    requires Good(base, fl) && Fits(base, fl, b) && Before(fl, k, b.a)
    requires TouchesNext(fl, k, b)
    ensures Good(base, InsertAt(fl, k, b))
    ensures FreeUnits(InsertAt(fl, k, b)) == FreeUnits(fl) + Units(b)
  {
    InsertUpGood(base, fl, k, b);
    InsertUpUnits(base, fl, k, b);
  }

  lemma InsertUpGood(base: nat, fl: seq<Blk>, k: nat, b: Blk)
    requires Good(base, fl) && Fits(base, fl, b) && Before(fl, k, b.a) && TouchesNext(fl, k, b)
    ensures Good(base, InsertAt(fl, k, b))
  {
    var g, c := Without(fl, k + 1), Blk(b.a, b.n + fl[k + 1].n);
    RemoveOk(base, fl, k + 1);
    assert g[k] == fl[k] && (k + 2 < |fl| ==> g[k + 1] == fl[k + 2]);
    if k + 2 < |fl| {
      assert Apart(fl[k + 1], fl[k + 2]);
    }
    PlaceGood(base, g, k, c);
  }

  lemma InsertUpUnits(base: nat, fl: seq<Blk>, k: nat, b: Blk)
    requires Good(base, fl) && Before(fl, k, b.a) && TouchesNext(fl, k, b)
    ensures FreeUnits(InsertAt(fl, k, b)) == FreeUnits(fl) + Units(b)
  {
    var next := fl[k + 1];
    var g, c := Without(fl, k + 1), Blk(b.a, b.n + next.n);
    RemoveOk(base, fl, k + 1);
    PlaceUnits(g, k, c);
    UnitsSplit(b.a, b.n, next.n);
    assert next == Blk(b.a + b.n, next.n);
    assert FreeUnits(g) + (Units(b) + Units(next)) == FreeUnits(g) + Units(next) + Units(b);
  }

  lemma OnlyInOne(fl: seq<Blk>, i: nat, u: nat)
    requires Sorted(fl) && i < |fl| && InBlk(fl[i], u)
    ensures u !in FreeUnits(fl[..i]) && u !in FreeUnits(fl[i + 1..])
  {
    FreeUnitsAt(fl[..i], u);
    FreeUnitsAt(fl[i + 1..], u);
    forall j | 0 <= j < |fl| && j != i ensures !InBlk(fl[j], u) {
      assert j < i ==> Apart(fl[j], fl[i]);
      assert i < j ==> Apart(fl[i], fl[j]);
    }
  }

  lemma TakeOut(fl: seq<Blk>, i: nat)
    requires Sorted(fl) && i < |fl|
    ensures FreeUnits(fl) == FreeUnits(Without(fl, i)) + Units(fl[i])
    ensures FreeUnits(Without(fl, i)) !! Units(fl[i])
  {
    assert fl == fl[..i] + [fl[i]] + fl[i + 1..];
    FreeUnitsConcat(fl[..i] + [fl[i]], fl[i + 1..]);
    FreeUnitsConcat(fl[..i], [fl[i]]);
    FreeUnitsOne(fl[i]);
    FreeUnitsConcat(fl[..i], fl[i + 1..]);
    forall u | u in Units(fl[i]) ensures u !in FreeUnits(Without(fl, i)) {
      OnlyInOne(fl, i, u);
    }
  }

  /** malloc with a block to spare: its tail of n units is handed out. */
  lemma ShrinkOk(base: nat, fl: seq<Blk>, i: nat, n: nat)
    requires Good(base, fl) && 1 <= i < |fl| && 1 <= n < fl[i].n
    ensures var head, tail := Blk(fl[i].a, fl[i].n - n), Blk(fl[i].a + fl[i].n - n, n);
            && Good(base, fl[i := head])
            && FreeUnits(fl) == FreeUnits(fl[i := head]) + Units(tail)
            && FreeUnits(fl[i := head]) !! Units(tail)
  {
    var head, tail := Blk(fl[i].a, fl[i].n - n), Blk(fl[i].a + fl[i].n - n, n);
    var r := fl[i := head];
    forall j, k | 0 <= j < k < |r| ensures Apart(r[j], r[k]) {
      assert Apart(fl[j], fl[k]);
    }
    TakeOut(fl, i);
    TakeOut(r, i);
    assert Without(r, i) == Without(fl, i);
    UnitsSplit(head.a, head.n, n);
  }
}
