/** vm.c over kalloc.c: page tables built from, and returned to, a free list of pages
that is linked through the pages themselves. */
module Vm {
  import opened Wrappers
  import opened PageTree

  const JUNK: nat := 0x0101_0101_0101_0101  // a word of memset(v, 1, PGSIZE)
  const USER_FLAGS: nat := 6                // PTE_W | PTE_U
  const TABLE_FLAGS: nat := 6

  // ------------------------------------------------------------------
  // The free list of kalloc.c

  function NextOf(free: seq<nat>, i: nat): nat {
    if i + 1 < |free| then free[i + 1] else 0
  }

  /** The first word of a free page points to the next one. */
  predicate ChainAt(mem: Mem, free: seq<nat>, i: nat)
    requires i < |free|
  {
    TableIn(mem, free[i]) && mem[free[i]][0] == NextOf(free, i) && free[i] != 0
  }

  predicate NoDup(free: seq<nat>) {
    forall i, j :: 0 <= i < j < |free| ==> free[i] != free[j]
  }

  ghost predicate FreeOk(mem: Mem, head: nat, free: seq<nat>) {
    && head == (if free == [] then 0 else free[0])
    && NoDup(free)
    && (forall i {:trigger ChainAt(mem, free, i)} :: 0 <= i < |free| ==> ChainAt(mem, free, i))
  }

  function JunkPage(next: nat): (w: seq<nat>)
    ensures |w| == ENTRIES && w[0] == next
  {
    [next] + seq(ENTRIES - 1, _ => JUNK)
  }

  function ZeroPage(): (w: seq<nat>)
    ensures |w| == ENTRIES && forall i :: 0 <= i < ENTRIES ==> w[i] == 0
  {
    seq(ENTRIES, _ => 0)
  }

  lemma FreeFrame(mem: Mem, mem': Mem, head: nat, free: seq<nat>)
    requires FreeOk(mem, head, free)
    requires forall p :: p in free && p in mem ==> p in mem' && mem'[p] == mem[p]
    ensures FreeOk(mem', head, free)
  {
    forall i | 0 <= i < |free| ensures ChainAt(mem', free, i) {
      assert ChainAt(mem, free, i);
    }
  }

  lemma FreePop(mem: Mem, head: nat, free: seq<nat>)
    requires FreeOk(mem, head, free) && free != []
    ensures TableIn(mem, head) && head != 0 && FreeOk(mem, mem[head][0], free[1..]) && head !in free[1..]
  {
    assert ChainAt(mem, free, 0);
    forall i | 0 <= i < |free| - 1 ensures ChainAt(mem, free[1..], i) {
      assert ChainAt(mem, free, i + 1);
    }
  }

  lemma FreePush(mem: Mem, head: nat, free: seq<nat>, p: nat)
    requires FreeOk(mem, head, free) && p != 0 && p !in free
    ensures FreeOk(mem[p := JunkPage(head)], p, [p] + free)
  {
    var mem' := mem[p := JunkPage(head)];
    var free' := [p] + free;
    forall i | 0 <= i < |free'| ensures ChainAt(mem', free', i) {
      if i > 0 {
        assert ChainAt(mem, free, i - 1);
      }
    }
  }

  // ------------------------------------------------------------------

  function ToSet(s: seq<nat>): (r: set<nat>)
    ensures forall p :: p in r <==> p in s
  {
    set i | 0 <= i < |s| :: s[i]
  }

  /** Every page of the pool is on the free list, in the tree, or held by the code that
      took it with kalloc, and in only one of them. */
  ghost predicate PoolOk(mem: Mem, free: seq<nat>, at: map<Path, nat>, held: set<nat>, pool: set<nat>) {
    && pool == ToSet(free) + at.Values + held
    && ToSet(free) !! at.Values && ToSet(free) !! held && at.Values !! held
    && (forall p :: p in pool ==> TableIn(mem, p))
  }

  /** The contents of mapped pages do not matter to the tree. */
  lemma LeafFrame(mem: Mem, mem': Mem, at: map<Path, nat>, path: Path, i: nat)
    requires TreeOk(mem, at) && |path| == 3 && path + [i] in at
    requires forall q :: q != at[path + [i]] && q in mem ==> q in mem' && mem'[q] == mem[q]
    ensures TreeOk(mem', at) && forall v :: Flat(mem', at, v) == Flat(mem, at, v)
  {
    forall p | p in at ensures NodeOk(mem', at, p) {
      assert NodeOk(mem, at, p);
      if |p| < 4 {
        assert at[p] != at[path + [i]];
        forall j | 0 <= j < ENTRIES && IndexOk(p, j) ensures EntryOk(mem', at, p, j) {
          assert EntryOk(mem, at, p, j);
        }
      }
    }
    forall v ensures Flat(mem', at, v) == Flat(mem, at, v) {
      if PathOf(v) in at {
        assert NodeOk(mem, at, PathOf(v));
        assert NodeOk(mem, at, PathOf(v)[..3]);
        assert at[PathOf(v)[..3]] != at[path + [i]];
      }
    }
  }

  lemma ValuesWithout(at: map<Path, nat>, p: Path)
    requires p in at && Distinct(at)
    ensures (at - {p}).Values == at.Values - {at[p]}
  {
    forall x | x in at.Values - {at[p]} ensures x in (at - {p}).Values {
      var q :| q in at && at[q] == x;
      assert (at - {p})[q] == x;
    }
  }

  const PGSIZE: nat := 4096
  const KERNBASE: nat := 0xFFFF_8000_0000_0000
  const USER_BYTES: nat := 0x8000_0000_0000  // 2^47

  /** PGROUNDUP as a page number. */
  const U64: nat := 0x1_0000_0000_0000_0000

  /** sz + n as growproc computes it, in 64 bits. */
  function Resized(sz: nat, n: int): (r: nat)
    requires sz <= USER_BYTES && -0x8000_0000_0000_0000 <= n && sz + n <= USER_BYTES
    ensures if 0 <= sz + n then r == sz + n else r > sz
  {
    (sz + n) % U64
  }

  function PagesUp(sz: nat): nat {
    (sz + PGSIZE - 1) / PGSIZE
  }

  /** n consecutive pages from lo on. */
  function Run(lo: nat, n: nat): set<nat> {
    if n == 0 then {} else Run(lo, n - 1) + {lo + n - 1}
  }

  lemma {:induction false} InRun(lo: nat, n: nat, k: nat)
    ensures k in Run(lo, n) <==> lo <= k < lo + n
  {
    if n > 0 {
      InRun(lo, n - 1, k);
    }
  }

  /** freerange: every whole page between two addresses joins the free list, once. */
  method FreeRange(memory: Mem, head: nat, vstart: nat, vend: nat, ghost before: seq<nat>)
    returns (mem: Mem, freelist: nat, ghost free: seq<nat>)
    requires FreeOk(memory, head, before) && 0 < vstart && forall p :: p in before ==> p < PagesUp(vstart) || vend / PGSIZE <= p
    ensures FreeOk(mem, freelist, free)
    ensures forall p :: p in free <==> p in before || PagesUp(vstart) <= p < vend / PGSIZE
  {
    mem, freelist, free := memory, head, before;
    var p := PagesUp(vstart);
    while (p + 1) * PGSIZE <= vend
      invariant PagesUp(vstart) <= p && (p <= vend / PGSIZE || p == PagesUp(vstart))
      invariant FreeOk(mem, freelist, free)
      invariant forall q :: q in free <==> q in before || PagesUp(vstart) <= q < p
      decreases vend - p * PGSIZE
    {
      FreePush(mem, freelist, free, p);
      mem := mem[p := JunkPage(freelist)];
      freelist, free := p, [p] + free;
      p := p + 1;
    }
  }

  datatype MapResult = Mapped | OutOfMemory | Remap

  /** flat is the map the tables stand for, page by page. */
  ghost predicate FlatIs(mem: Mem, at: map<Path, nat>, flat: map<nat, nat>)
    requires TreeOk(mem, at)
  {
    && (forall u :: u in flat ==> u < USER_TOP)
    && (forall u: nat {:trigger Flat(mem, at, u)} :: u < USER_TOP ==> Flat(mem, at, u) == if u in flat then Some(flat[u]) else None)
  }

  /** Every page below 2^47 is translated by the hardware walk as flat says. */
  lemma FlatIsWalk(mem: Mem, at: map<Path, nat>, flat: map<nat, nat>, v: nat)
    requires TreeOk(mem, at) && FlatIs(mem, at, flat) && v < USER_TOP
    ensures HwWalk(mem, at[[]], 4, v) == if v in flat then Some(flat[v]) else None
  {
    assert PathOf(v)[..0] == [];
    WalkIsFlat(mem, at, v, 0);
  }

  lemma GrowTable(mem: Mem, at: map<Path, nat>, flat: map<nat, nat>, path: Path, i: nat, q: nat, e: nat)
    requires TreeOk(mem, at) && FlatIs(mem, at, flat)
    requires path in at && |path| < 3 && IndexOk(path, i) && path + [i] !in at && q !in at.Values && q in mem
    requires Present(e) && Ppn(e) == q && TableIn(mem, at[path])
    ensures var mem' := Store(mem[q := ZeroPage()], at[path], i, e);
            TreeOk(mem', at[path + [i] := q]) && FlatIs(mem', at[path + [i] := q], flat)
  {
    var mem1 := mem[q := ZeroPage()];
    assert at[path] in at.Values;
    TreeFrame(mem, mem1, at);
    AddPage(mem1, at, path, i, q, e);
    forall u: nat | u < USER_TOP
      ensures Flat(Store(mem1, at[path], i, e), at[path + [i] := q], u) == if u in flat then Some(flat[u]) else None
    {
      AddFlat(mem1, at, path, i, q, e, u);
    }
  }

  lemma GrowLeaf(mem: Mem, at: map<Path, nat>, flat: map<nat, nat>, v: nat, q: nat, e: nat)
    requires TreeOk(mem, at) && FlatIs(mem, at, flat) && v < USER_TOP
    requires PathOf(v)[..3] in at && PathOf(v) !in at && q !in at.Values && TableIn(mem, at[PathOf(v)[..3]])
    requires Present(e) && Ppn(e) == q
    ensures var mem' := Store(mem, at[PathOf(v)[..3]], Idx(v, 1), e);
            TreeOk(mem', at[PathOf(v) := q]) && FlatIs(mem', at[PathOf(v) := q], flat[v := e])
  {
    UserPath(v);
    var path, i := PathOf(v)[..3], Idx(v, 1);
    assert path + [i] == PathOf(v);
    AddPage(mem, at, path, i, q, e);
    var mem', at', flat' := Store(mem, at[path], i, e), at[PathOf(v) := q], flat[v := e];
    forall u: nat | u < USER_TOP
      ensures Flat(mem', at', u) == if u in flat' then Some(flat'[u]) else None
    {
      AddFlat(mem, at, path, i, q, e, u);
      SlotsCollideIff(u, v);
    }
  }

  /** Clearing the entry of a mapped page, whatever its contents have become. */
  lemma DropLeaf(mem: Mem, mem1: Mem, at: map<Path, nat>, flat: map<nat, nat>, v: nat)
    requires TreeOk(mem, at) && FlatIs(mem, at, flat) && v < USER_TOP && PathOf(v) in at && PathOf(v)[..3] in at
    requires forall q :: q != at[PathOf(v)] && q in mem ==> q in mem1 && mem1[q] == mem[q]
    requires TableIn(mem1, at[PathOf(v)[..3]])
    ensures var mem' := Store(mem1, at[PathOf(v)[..3]], Idx(v, 1), 0);
            TreeOk(mem', at - {PathOf(v)}) && FlatIs(mem', at - {PathOf(v)}, flat - {v})
  {
    UserPath(v);
    var path, i := PathOf(v)[..3], Idx(v, 1);
    assert path + [i] == PathOf(v);
    LeafFrame(mem, mem1, at, path, i);
    DropPage(mem1, at, path, i);
    forall u: nat | u < USER_TOP
      ensures Flat(Store(mem1, at[path], i, 0), at - {PathOf(v)}, u) == if u in flat - {v} then Some(flat[u]) else None
    {
      DropFlat(mem1, at, path, i, u);
      SlotsCollideIff(u, v);
    }
  }

  /** n consecutive virtual pages from a on, mapped to consecutive physical pages. */
  function Mapping(a: nat, ppn: nat, perm: nat, n: nat): (m: map<nat, nat>)
    requires perm < 4096
  {
    if n == 0 then map[] else Mapping(a, ppn, perm, n - 1)[a + n - 1 := Pte(ppn + n - 1, perm)]
  }

  lemma {:induction false} MappingAt(a: nat, ppn: nat, perm: nat, n: nat, u: nat)
    requires perm < 4096
    ensures u in Mapping(a, ppn, perm, n) <==> a <= u < a + n
    ensures a <= u < a + n ==> Mapping(a, ppn, perm, n)[u] == Pte(ppn + (u - a), perm)
  {
    if n > 0 {
      MappingAt(a, ppn, perm, n - 1, u);
    }
  }

  // ------------------------------------------------------------------
  // Taking a tree down

  /** The pages at path and below it. */
  ghost function Sub(at: map<Path, nat>, path: Path): set<nat> {
    set r | r in at && path <= r :: at[r]
  }

  /** The pages strictly below path whose first index there is less than i. */
  ghost function Below(at: map<Path, nat>, path: Path, i: nat): set<nat> {
    set r | r in at && path <= r && |r| > |path| && r[|path|] < i :: at[r]
  }

  ghost predicate SubOk(mem: Mem, at: map<Path, nat>, path: Path) {
    forall r {:trigger NodeOk(mem, at, r)} :: r in at && path <= r ==> NodeOk(mem, at, r)
  }

  lemma BelowNext(at: map<Path, nat>, path: Path, i: nat)
    requires Distinct(at)
    ensures Below(at, path, i + 1) == Below(at, path, i) + Sub(at, path + [i])
    ensures Below(at, path, i) !! Sub(at, path + [i])
    ensures path in at ==> at[path] !in Below(at, path, i) && at[path] !in Sub(at, path + [i])
  {
    forall r | r in at && path <= r && |r| > |path| && r[|path|] == i ensures path + [i] <= r {
      assert r[..|path| + 1] == path + [i];
    }
    forall r | r in at && path + [i] <= r ensures path <= r && |r| > |path| && r[|path|] == i {
      assert r[..|path| + 1] == path + [i];
      assert r[..|path|] == path;
    }
  }

  /** All of a subtree is its top and what is below its first n indices. */
  lemma SubIsBelow(mem: Mem, at: map<Path, nat>, path: Path, n: nat)
    requires SubOk(mem, at, path) && path in at && n == if |path| == 0 then ENTRIES / 2 else ENTRIES
    ensures Sub(at, path) == {at[path]} + Below(at, path, n)
  {
    forall r | r in at && path <= r ensures r == path || (|r| > |path| && r[|path|] < n) {
      assert NodeOk(mem, at, r);
      if r != path {
        assert IndexOk(r[..|path|], r[|path|]);
      }
    }
  }

  /** Nothing is below a path without a page. */
  lemma {:induction false} NoSub(mem: Mem, at: map<Path, nat>, path: Path, i: nat, r: Path)
    requires SubOk(mem, at, path) && path + [i] !in at && path + [i] <= r
    ensures r !in at
    decreases |r|
  {
    if r in at {
      assert path <= r by {
        assert r[..|path| + 1] == path + [i];
        assert r[..|path|] == path;
      }
      assert NodeOk(mem, at, r);
      assert r != path + [i];
      assert path + [i] <= Parent(r);
      NoSub(mem, at, path, i, Parent(r));
    }
  }

  lemma SubAbsent(mem: Mem, at: map<Path, nat>, path: Path, i: nat)
    requires SubOk(mem, at, path) && path + [i] !in at
    ensures Sub(at, path + [i]) == {}
  {
    forall r | path + [i] <= r ensures r !in at {
      NoSub(mem, at, path, i, r);
    }
  }

  lemma SubLeaf(mem: Mem, at: map<Path, nat>, path: Path, i: nat)
    requires SubOk(mem, at, path) && |path| == 3 && path + [i] in at
    ensures Sub(at, path + [i]) == {at[path + [i]]}
  {
    forall r | r in at && path + [i] <= r ensures r == path + [i] {
      assert r[..|path| + 1] == path + [i];
      assert r[..|path|] == path;
      assert NodeOk(mem, at, r);
    }
  }

  lemma SubFrame(mem: Mem, mem': Mem, at: map<Path, nat>, path: Path)
    requires SubOk(mem, at, path)
    requires forall q :: q in Sub(at, path) && q in mem ==> q in mem' && mem'[q] == mem[q]
    ensures SubOk(mem', at, path)
  {
    forall r | r in at && path <= r ensures NodeOk(mem', at, r) {
      assert NodeOk(mem, at, r);
      assert at[r] in Sub(at, path);
      if |r| < 4 {
        forall j | 0 <= j < ENTRIES && IndexOk(r, j) ensures EntryOk(mem', at, r, j) {
          assert EntryOk(mem, at, r, j);
        }
      }
    }
  }

  lemma SubNarrow(mem: Mem, at: map<Path, nat>, path: Path, i: nat)
    requires SubOk(mem, at, path)
    ensures SubOk(mem, at, path + [i]) && Sub(at, path + [i]) <= Sub(at, path)
  {
    forall r | r in at && path + [i] <= r ensures path <= r && NodeOk(mem, at, r) {
      assert r[..|path| + 1] == path + [i];
      assert r[..|path|] == path;
    }
  }

  /** flat without the pages lo .. hi - 1. */
  function Without(flat: map<nat, nat>, lo: nat, hi: nat): (m: map<nat, nat>) {
    map u | u in flat && !(lo <= u < hi) :: flat[u]
  }

  /** The frames behind the pages from lo up to hi. */
  function Frames(flat: map<nat, nat>, lo: nat, hi: nat): set<nat> {
    set u | u in flat && lo <= u < hi :: Ppn(flat[u])
  }

  function FrameOf(flat: map<nat, nat>, u: nat): seq<nat> {
    if u in flat then [Ppn(flat[u])] else []
  }

  lemma FramesNext(flat: map<nat, nat>, lo: nat, a: nat)
    requires lo <= a
    ensures Frames(flat, lo, a + 1) == Frames(flat, lo, a) + ToSet(FrameOf(flat, a))
  {
  }

  lemma WithoutNone(flat: map<nat, nat>, lo: nat)
    ensures Without(flat, lo, lo) == flat && Frames(flat, lo, lo) == {}
  {
  }

  lemma WithoutNext(flat: map<nat, nat>, lo: nat, a: nat)
    requires lo <= a
    ensures Without(flat, lo, a) - {a} == Without(flat, lo, a + 1)
  {
  }

  /** flat' is flat with pages lo .. hi - 1 added, each with a user-writable entry. */
  ghost predicate Extends(flat: map<nat, nat>, flat': map<nat, nat>, lo: nat, hi: nat) {
    && (forall u :: u in flat' <==> u in flat || lo <= u < hi)
    && (forall u :: u in flat ==> flat'[u] == flat[u])
    && (forall u :: lo <= u < hi ==> flat'[u] == Pte(Ppn(flat'[u]), USER_FLAGS))
  }

  /** Growing and then dropping the same range is no change. */
  lemma ExtendsUndone(flat: map<nat, nat>, flat': map<nat, nat>, lo: nat, a: nat, hi: nat)
    requires Extends(flat, flat', lo, a) && a <= hi && forall u :: lo <= u < hi ==> u !in flat
    ensures Without(flat', lo, hi) == flat
  {
  }

  /** One more entry's subtree has been freed. */
  lemma FreedNext(at: map<Path, nat>, path: Path, i: nat, was: Mem, m: Mem, n: Mem, freed: set<nat>, f: set<nat>, g: set<nat>)
    requires Distinct(at) && f == freed + Below(at, path, i) && g == f + Sub(at, path + [i])
    requires forall q :: q in was && q !in Below(at, path, i) ==> q in m && m[q] == was[q]
    requires forall q :: q in m && q !in Sub(at, path + [i]) ==> q in n && n[q] == m[q]
    ensures g == freed + Below(at, path, i + 1)
    ensures forall q :: q in was && q !in Below(at, path, i + 1) ==> q in n && n[q] == was[q]
  {
    BelowNext(at, path, i);
  }

  lemma PagesUpBounds(sz: nat, a: nat)
    ensures a * PGSIZE < sz <==> a < PagesUp(sz)
  {
  }

  lemma PagesUpMono(s: nat, t: nat)
    requires s <= t
    ensures PagesUp(s) <= PagesUp(t) && (t <= USER_BYTES ==> PagesUp(t) <= USER_TOP)
  {
  }

  lemma PoolReleased(mem: Mem, mem': Mem, free: seq<nat>, at: map<Path, nat>, path: Path, held: set<nat>, pool: set<nat>)
    requires PoolOk(mem, free, at, held, pool) && Distinct(at) && path in at
    requires forall p :: TableIn(mem, p) ==> TableIn(mem', p)
    ensures PoolOk(mem', [at[path]] + free, at - {path}, held, pool)
  {
    ValuesWithout(at, path);
    assert at[path] in at.Values;
    assert ToSet([at[path]] + free) == {at[path]} + ToSet(free);
  }

  lemma MappingNext(flat: map<nat, nat>, a: nat, ppn: nat, perm: nat, n: nat)
    requires perm < 4096
    ensures (flat + Mapping(a, ppn, perm, n))[a + n := Pte(ppn + n, perm)] == flat + Mapping(a, ppn, perm, n + 1)
    ensures a + n in flat + Mapping(a, ppn, perm, n) <==> a + n in flat
  {
    MappingAt(a, ppn, perm, n, a + n);
  }

  lemma RunNext(now: set<nat>, was: set<nat>, lo: nat, n: nat, all: nat)
    requires now == was - Run(lo, n) && Run(lo, all) <= was && n < all
    ensures lo + n in now && now - {lo + n} == was - Run(lo, n + 1)
  {
    InRun(lo, all, lo + n);
    InRun(lo, n, lo + n);
  }

  lemma NoneMapped(held: set<nat>, flat: map<nat, nat>, a0: nat, ppn: nat, perm: nat)
    requires perm < 4096
    ensures held == held - Run(ppn, 0) && flat == flat + Mapping(a0, ppn, perm, 0)
  {
  }

  class AddressSpace {
    var mem: Mem
    var freelist: nat  // page number, 0 is the null pointer
    const first: nat   // kfree accepts pages first .. last - 1
    const last: nat
    var pml4: nat

    ghost var free: seq<nat>
    ghost var at: map<Path, nat>
    ghost var flat: map<nat, nat>
    ghost var held: set<nat>
    ghost const pool: set<nat>

    ghost predicate Valid()
      reads this
    {
      && FreeOk(mem, freelist, free)
      && TreeOk(mem, at) && at[[]] == pml4 && FlatIs(mem, at, flat)
      && PoolOk(mem, free, at, held, pool)
      && 1 <= first && (forall p :: p in pool ==> first <= p < last)
    }

    /** setupkvm when kalloc succeeds: a zeroed top table, but for the entry of the
        kernel half that every address space shares. Nothing is mapped below 2^47. */
    constructor (memory: Mem, head: nat, low: nat, high: nat, kpdpt: nat, ghost freePages: seq<nat>)
      requires FreeOk(memory, head, freePages) && freePages != [] && 1 <= low
      requires forall p :: p in freePages ==> low <= p < high
      ensures Valid() && pml4 == head && free == freePages[1..] && held == {} && flat == map[] && at == map[[] := head]
      ensures pool == ToSet(freePages) && mem[pml4][ENTRIES / 2] == Pte(kpdpt, 2)
    {
      FreePop(memory, head, freePages);
      var words: seq<nat> := ZeroPage()[ENTRIES / 2 := Pte(kpdpt, 2)];
      mem := memory[head := words];
      freelist := memory[head][0];
      first, last := low, high;
      pml4 := head;
      free := freePages[1..];
      at := map[[] := head];
      flat := map[];
      held := {};
      pool := ToSet(freePages);
      new;
      FreeFrame(memory, mem, freelist, free);
      forall i | 0 <= i < ENTRIES && IndexOk([], i) ensures EntryOk(mem, at, [], i) {
        assert [] + [i] != [];
      }
      assert NodeOk(mem, at, []);
      assert at.Values == {head} && ToSet(freePages) == {head} + ToSet(free);
      forall p | p in pool ensures TableIn(mem, p) {
        var i :| 0 <= i < |freePages| && freePages[i] == p;
        assert ChainAt(memory, freePages, i);
      }
    }

    /** kalloc: a page that was free, or null when none is left. */
    method Kalloc() returns (r: nat)
      requires Valid()
      modifies this`freelist, this`free, this`held
      ensures Valid()
      ensures r == 0 <==> old(free) == []
      ensures if r == 0 then free == old(free) && held == old(held)
              else free == old(free)[1..] && r == old(free)[0] && held == old(held) + {r} && r !in old(held) && r !in at.Values && r !in free
    {
      r := freelist;
      assert free != [] ==> ChainAt(mem, free, 0);
      if r != 0 {
        FreePop(mem, freelist, free);
        assert ToSet(free) == {free[0]} + ToSet(free[1..]);
        freelist := mem[r][0];
        held := held + {r};
        free := free[1..];
      }
    }

    /** kfree of a page somebody holds: it is filled with junk and goes back. */
    method Kfree(v: nat) returns (panics: bool)
      requires Valid() && v in held
      modifies this`mem, this`freelist, this`free, this`held
      ensures Valid() && !panics && free == [v] + old(free) && held == old(held) - {v}
    {
      if v < first || v >= last {
        return true;
      }
      FreePush(mem, freelist, free, v);
      var mem' := mem[v := JunkPage(freelist)];
      TreeFrame(mem, mem', at);
      mem := mem';
      freelist := v;
      free, held := [v] + free, held - {v};
      assert ToSet(free) == {v} + ToSet(old(free));
      return false;
    }

    lemma ValuesWith(p: Path, q: nat)
      requires p !in at
      ensures at[p := q].Values == at.Values + {q}
    {
      assert at[p := q][p] == q;
      forall x | x in at.Values ensures x in at[p := q].Values {
        var y :| y in at && at[y] == x;
        assert at[p := q][y] == x;
      }
    }

    /** One level of walkpgdir: the table an entry points to, allocating a zeroed one
        if there is none. */
    method Descend(p: nat, i: nat, alloc: bool, ghost path: Path) returns (q: nat)
      requires Valid() && path in at && at[path] == p && |path| < 3 && IndexOk(path, i)
      modifies this`mem, this`freelist, this`free, this`held, this`at
      ensures Valid() && held == old(held)
      ensures if q != 0 then path + [i] in at && at[path + [i]] == q else path + [i] !in at
      ensures !alloc ==> mem == old(mem) && free == old(free) && at == old(at)
      ensures q == 0 && alloc ==> free == old(free) == []
      ensures |old(free)| <= |free| + 1
    {
      assert NodeOk(mem, at, path) && EntryOk(mem, at, path, i);
      if Present(mem[p][i]) {
        q := Ppn(mem[p][i]);
        assert at[path + [i]] in at.Values;
      } else {
        if !alloc {
          return 0;
        }
        q := Kalloc();
        if q == 0 {
          return 0;
        }
        assert at[path] in at.Values;
        GrowTable(mem, at, flat, path, i, q, Pte(q, TABLE_FLAGS));
        var mem' := Store(mem[q := ZeroPage()], p, i, Pte(q, TABLE_FLAGS));
        FreeFrame(mem, mem', freelist, free);
        ValuesWith(path + [i], q);
        mem := mem';
        at, held := at[path + [i] := q], held - {q};
      }
    }

    /** walkpgdir: the page table that has page v's entry, or null. With alloc it fails
        only when memory runs out; tables it added before that stay in the tree. The
        flat map never changes. */
    method Walkpgdir(v: nat, alloc: bool) returns (pt: nat)
      requires Valid() && v < USER_TOP
      modifies this`mem, this`freelist, this`free, this`held, this`at
      ensures Valid() && held == old(held)
      ensures if pt != 0 then PathOf(v)[..3] in at && at[PathOf(v)[..3]] == pt else PathOf(v)[..3] !in at
      ensures pt == 0 && alloc ==> free == [] && |old(free)| < 3
      ensures |old(free)| <= |free| + 3
      ensures !alloc ==> mem == old(mem) && at == old(at) && free == old(free)
    {
      UserPath(v);
      var k := 0;
      pt := pml4;
      assert PathOf(v)[..0] == [];
      while k < 3
        invariant k <= 3 && Valid() && held == old(held) && PathOf(v)[..k] in at && at[PathOf(v)[..k]] == pt
        invariant |old(free)| <= |free| + k
        invariant !alloc ==> mem == old(mem) && at == old(at) && free == old(free)
      {
        assert PathOf(v)[..k + 1] == PathOf(v)[..k] + [PathOf(v)[k]];
        pt := Descend(pt, Idx(v, 4 - k), alloc, PathOf(v)[..k]);
        if pt == 0 {
          NoTable(v, k + 1);
          return;
        }
        k := k + 1;
      }
      assert at[PathOf(v)[..3]] in at.Values;
    }

    lemma NoTable(v: nat, k: nat)
      requires Valid() && 1 <= k <= 3 && PathOf(v)[..k] !in at
      ensures PathOf(v)[..3] !in at
      decreases 3 - k
    {
      if k < 3 {
        assert PathOf(v)[..k + 1] == PathOf(v)[..k] + [PathOf(v)[k]];
        if PathOf(v)[..k + 1] in at {
          HasParent(mem, at, PathOf(v)[..k], PathOf(v)[k]);
        }
        NoTable(v, k + 1);
      }
    }

    /** The entry walkpgdir finds is present exactly when the page is mapped. */
    lemma SlotOf(v: nat)
      requires Valid() && v < USER_TOP
      ensures PathOf(v)[..3] !in at ==> v !in flat && PathOf(v) !in at
      ensures PathOf(v)[..3] in at ==>
                && var pt := at[PathOf(v)[..3]];
                && TableIn(mem, pt)
                && (Present(mem[pt][Idx(v, 1)]) <==> PathOf(v) in at)
                && (PathOf(v) in at <==> v in flat)
                && (PathOf(v) in at ==> flat[v] == mem[pt][Idx(v, 1)] && Ppn(flat[v]) == at[PathOf(v)] && at[PathOf(v)] in at.Values)
    {
      UserPath(v);
      var p := PathOf(v)[..3];
      assert p + [Idx(v, 1)] == PathOf(v);
      var f := Flat(mem, at, v);
      if p in at {
        assert NodeOk(mem, at, p) && EntryOk(mem, at, p, Idx(v, 1));
      } else if PathOf(v) in at {
        HasParent(mem, at, p, Idx(v, 1));
      }
    }

    /** The store that maps page v. */
    method Enter(v: nat, pt: nat, ppn: nat, e: nat)
      requires Valid() && v < USER_TOP && PathOf(v) !in at && PathOf(v)[..3] in at && at[PathOf(v)[..3]] == pt && TableIn(mem, pt)
      requires ppn in held && Present(e) && Ppn(e) == ppn
      modifies this`mem, this`held, this`at, this`flat
      ensures Valid() && flat == old(flat)[v := e] && held == old(held) - {ppn}
    {
      assert at[PathOf(v)[..3]] in at.Values;
      GrowLeaf(mem, at, flat, v, ppn, e);
      var mem' := Store(mem, pt, Idx(v, 1), e);
      FreeFrame(mem, mem', freelist, free);
      ValuesWith(PathOf(v), ppn);
      mem := mem';
      at, held, flat := at[PathOf(v) := ppn], held - {ppn}, flat[v := e];
    }

    /** One page of mappages. */
    method MapPage(v: nat, ppn: nat, perm: nat) returns (r: MapResult)
      requires Valid() && v < USER_TOP && ppn in held && perm < 4096
      modifies this`mem, this`freelist, this`free, this`held, this`at, this`flat
      ensures Valid()
      ensures r == Remap <==> v in old(flat)
      ensures r == OutOfMemory ==> free == [] && |old(free)| < 3
      ensures |old(free)| <= |free| + 3
      ensures if r == Mapped then flat == old(flat)[v := Pte(ppn, perm)] && held == old(held) - {ppn}
              else flat == old(flat) && held == old(held)
    {
      var pt := Walkpgdir(v, true);
      SlotOf(v);
      if pt == 0 {
        return OutOfMemory;
      }
      if Present(mem[pt][Idx(v, 1)]) {
        return Remap;
      }
      Enter(v, pt, ppn, Pte(ppn, perm));
      return Mapped;
    }

    /** The first `done` pages of a run are mapped, their frames no longer held. */
    ghost predicate MappedSoFar(held0: set<nat>, flat0: map<nat, nat>, a0: nat, ppn: nat, perm: nat, done: nat)
      reads this
      requires perm < 4096
    {
      held == held0 - Run(ppn, done) && flat == flat0 + Mapping(a0, ppn, perm, done)
    }

    /** mappages has mapped `done` pages and stands at r. Each page took at most three of
        the free0 pages that were free. */
    ghost predicate RunSoFar(free0: nat, held0: set<nat>, flat0: map<nat, nat>, a0: nat, ppn: nat, perm: nat, done: nat, r: MapResult)
      reads this
      requires perm < 4096
    {
      && MappedSoFar(held0, flat0, a0, ppn, perm, done)
      && match r
         case Mapped => free0 <= |free| + 3 * done
         case OutOfMemory => free0 < 3 * (done + 1)
         case Remap => a0 + done in flat0
    }

    /** One round of mappages' loop, after `done` pages: a and pa have moved that far. */
    method MapNext(a0: nat, ppn: nat, perm: nat, done: nat, ghost n: nat, ghost free0: nat, ghost held0: set<nat>, ghost flat0: map<nat, nat>)
      returns (r: MapResult, next: nat)
      requires Valid() && perm < 4096 && done < n && a0 + n <= USER_TOP && Run(ppn, n) <= held0
      requires RunSoFar(free0, held0, flat0, a0, ppn, perm, done, Mapped)
      modifies this`mem, this`freelist, this`free, this`held, this`at, this`flat
      ensures Valid() && next == (if r == Mapped then done + 1 else done)
      ensures RunSoFar(free0, held0, flat0, a0, ppn, perm, next, r)
    {
      RunNext(held, held0, ppn, done, n);
      MappingNext(flat0, a0, ppn, perm, done);
      r := MapPage(a0 + done, ppn + done, perm);
      next := if r == Mapped then done + 1 else done;
    }

    /** mappages in pages: n pages from page a0 on. */
    method MapRun(a0: nat, n: nat, ppn: nat, perm: nat) returns (r: MapResult, done: nat)
      requires Valid() && perm < 4096 && 0 < n && a0 + n <= USER_TOP && Run(ppn, n) <= held
      modifies this`mem, this`freelist, this`free, this`held, this`at, this`flat
      ensures Valid() && done <= n && (r == Mapped <==> done == n)
      ensures r == Remap ==> a0 + done in old(flat)
      ensures r == OutOfMemory ==> |old(free)| < 3 * n
      ensures MappedSoFar(old(held), old(flat), a0, ppn, perm, done)
    {
      done, r := 0, Mapped;
      NoneMapped(held, flat, a0, ppn, perm);
      while r == Mapped && done < n
        invariant Valid() && RunSoFar(|old(free)|, old(held), old(flat), a0, ppn, perm, done, r)
        invariant done <= n && (r == Mapped || done < n)
        decreases r == Mapped, n - done
      {
        r, done := MapNext(a0, ppn, perm, done, n, |old(free)|, old(held), old(flat));
      }
    }

    /** mappages over at least one byte: consecutive physical pages on exactly the
        requested virtual pages. If memory runs out, a first part of the range has been
        mapped; "remap" is reported only if part of the range was mapped before. */
    method MapPages(va: nat, size: nat, ppn: nat, perm: nat) returns (r: MapResult, done: nat)
      requires Valid() && perm < 4096 && 0 < size && va + size <= USER_BYTES
      requires Run(ppn, (va + size - 1) / PGSIZE - va / PGSIZE + 1) <= held
      modifies this`mem, this`freelist, this`free, this`held, this`at, this`flat
      ensures Valid() && done <= (va + size - 1) / PGSIZE - va / PGSIZE + 1
      ensures r == Mapped <==> done == (va + size - 1) / PGSIZE - va / PGSIZE + 1
      ensures r == Remap ==> va / PGSIZE + done in old(flat)
      ensures r == OutOfMemory ==> |old(free)| < 3 * ((va + size - 1) / PGSIZE - va / PGSIZE + 1)
      ensures MappedSoFar(old(held), old(flat), va / PGSIZE, ppn, perm, done)
    {
      r, done := MapRun(va / PGSIZE, (va + size - 1) / PGSIZE - va / PGSIZE + 1, ppn, perm);
    }

    /** kfree of a mapped page, then the store that clears its entry. */
    method Release(v: nat, pt: nat, pa: nat) returns (panics: bool)
      requires Valid() && v < USER_TOP && PathOf(v) in at && PathOf(v)[..3] in at && at[PathOf(v)[..3]] == pt && at[PathOf(v)] == pa
      modifies this`mem, this`freelist, this`free, this`at, this`flat
      ensures Valid() && !panics && flat == old(flat) - {v} && free == [pa] + old(free)
    {
      assert at[PathOf(v)] in at.Values && at[PathOf(v)[..3]] in at.Values;
      if pa < first || pa >= last {
        return true;
      }
      FreePush(mem, freelist, free, pa);
      var mem1 := mem[pa := JunkPage(freelist)];
      assert pt != pa;
      DropLeaf(mem, mem1, at, flat, v);
      var mem2 := Store(mem1, pt, Idx(v, 1), 0);
      FreeFrame(mem1, mem2, pa, [pa] + free);
      PoolReleased(mem, mem2, free, at, PathOf(v), held, pool);
      mem := mem2;
      freelist := pa;
      free, at, flat := [pa] + free, at - {PathOf(v)}, flat - {v};
      return false;
    }

    /** The pages from lo up to hi are unmapped, and the frames behind them are free. */
    ghost predicate Unmapped(flat0: map<nat, nat>, free0: set<nat>, lo: nat, hi: nat)
      reads this
    {
      flat == Without(flat0, lo, hi) && ToSet(free) == free0 + Frames(flat0, lo, hi)
    }

    /** One round of deallocuvm's loop. */
    method UnmapNext(a: nat, ghost flat0: map<nat, nat>, ghost free0: set<nat>, ghost lo: nat) returns (panics: bool)
      requires Valid() && lo <= a < USER_TOP && Unmapped(flat0, free0, lo, a)
      modifies this`mem, this`freelist, this`free, this`held, this`at, this`flat
      ensures Valid() && !panics && held == old(held) && Unmapped(flat0, free0, lo, a + 1)
    {
      panics := Unmap(a);
      WithoutNext(flat0, lo, a);
      FramesNext(flat0, lo, a);
      assert ToSet(free) == ToSet(FrameOf(old(flat), a)) + ToSet(old(free));
    }

    /** One page of deallocuvm. */
    method Unmap(v: nat) returns (panics: bool)
      requires Valid() && v < USER_TOP
      modifies this`mem, this`freelist, this`free, this`held, this`at, this`flat
      ensures Valid() && !panics && held == old(held) && flat == old(flat) - {v}
      ensures free == FrameOf(old(flat), v) + old(free)
    {
      var pt := Walkpgdir(v, false);
      SlotOf(v);
      panics := false;
      if pt != 0 && Present(mem[pt][Idx(v, 1)]) {
        var pa := Ppn(mem[pt][Idx(v, 1)]);
        if pa == 0 {
          return true;
        }
        panics := Release(v, pt, pa);
      } else {
        assert flat - {v} == flat;
      }
    }

    /** deallocuvm: the pages from the new size up to the old one are unmapped and go
        back to the free list; nothing else changes. */
    method DeallocUvm(oldsz: nat, newsz: nat) returns (sz: nat, panics: bool)
      requires Valid() && oldsz <= USER_BYTES
      modifies this`mem, this`freelist, this`free, this`held, this`at, this`flat
      ensures Valid() && !panics && held == old(held)
      ensures sz == if newsz >= oldsz then oldsz else newsz
      ensures newsz >= oldsz ==> flat == old(flat) && free == old(free)
      ensures newsz < oldsz ==> Unmapped(old(flat), ToSet(old(free)), PagesUp(newsz), PagesUp(oldsz))
    {
      panics := false;
      if newsz >= oldsz {
        return oldsz, false;
      }
      var a := PagesUp(newsz);
      PagesUpMono(newsz, oldsz);
      WithoutNone(flat, a);
      ghost var flat0, free0, lo := flat, ToSet(free), a;
      while a * PGSIZE < oldsz
        invariant Valid() && held == old(held) && !panics && lo <= a <= PagesUp(oldsz)
        invariant Unmapped(flat0, free0, lo, a)
        decreases PagesUp(oldsz) - a
      {
        PagesUpBounds(oldsz, a);
        panics := UnmapNext(a, flat0, free0, lo);
        a := a + 1;
      }
      PagesUpBounds(oldsz, a);
      return newsz, panics;
    }

    /** The failure path of allocuvm: shrink again and give back the page in hand. */
    method GiveUp(oldsz: nat, newsz: nat, page: nat) returns (panics: bool)
      requires Valid() && oldsz < newsz <= USER_BYTES && (page != 0 ==> page in held)
      modifies this`mem, this`freelist, this`free, this`held, this`at, this`flat
      ensures Valid() && !panics && held == old(held) - {page}
      ensures flat == Without(old(flat), PagesUp(oldsz), PagesUp(newsz))
    {
      var sz;
      sz, panics := DeallocUvm(newsz, oldsz);
      if page != 0 {
        panics := Kfree(page);
      }
    }

    /** kalloc and mappages for one page of allocuvm. */
    method AllocPage(a: nat) returns (page: nat, r: MapResult)
      requires Valid() && a < USER_TOP && a !in flat
      modifies this`mem, this`freelist, this`free, this`held, this`at, this`flat
      ensures Valid() && r != Remap
      ensures |old(free)| <= |free| + 4 && (r != Mapped ==> |old(free)| < 4)
      ensures r == Mapped ==> held == old(held) && flat == old(flat)[a := Pte(page, USER_FLAGS)]
      ensures r != Mapped ==> flat == old(flat) && (page != 0 ==> page in held) && held - {page} == old(held) - {page}
                              && (page in old(held) ==> page == 0)
    {
      page := Kalloc();
      if page == 0 {
        return page, OutOfMemory;
      }
      r := MapPage(a, page, USER_FLAGS);
    }

    /** allocuvm's loop. */
    method AllocRange(oldsz: nat, newsz: nat) returns (sz: nat, panics: bool)
      requires Valid() && oldsz <= newsz <= USER_BYTES && 0 !in held
      requires forall u :: PagesUp(oldsz) <= u < PagesUp(newsz) ==> u !in flat
      modifies this`mem, this`freelist, this`free, this`held, this`at, this`flat
      ensures Valid() && !panics && held == old(held) && (sz == newsz || sz == 0)
      ensures sz == newsz && 0 < newsz ==> Extends(old(flat), flat, PagesUp(oldsz), PagesUp(newsz))
      ensures sz == 0 && 0 < newsz ==> flat == old(flat) && |old(free)| < 4 * (PagesUp(newsz) - PagesUp(oldsz))
    {
      panics := false;
      var a := PagesUp(oldsz);
      PagesUpMono(oldsz, newsz);
      while a * PGSIZE < newsz
        invariant Valid() && held == old(held) && PagesUp(oldsz) <= a <= PagesUp(newsz)
        invariant Extends(old(flat), flat, PagesUp(oldsz), a) && |old(free)| <= |free| + 4 * (a - PagesUp(oldsz))
        decreases PagesUp(newsz) - a
      {
        PagesUpBounds(newsz, a);
        var page, r := AllocPage(a);
        if r != Mapped {
          ExtendsUndone(old(flat), flat, PagesUp(oldsz), a, PagesUp(newsz));
          panics := GiveUp(oldsz, newsz, page);
          return 0, panics;
        }
        a := a + 1;
      }
      PagesUpBounds(newsz, a);
      return newsz, false;
    }

    /** allocuvm below 2^47: on success every page of the new range is mapped, writable
        and user-accessible, to a page of its own; when memory runs out,
        at the page or at any of the tables it needs, the flat map is as it was. */
    method AllocUvm(oldsz: nat, newsz: nat) returns (sz: nat, panics: bool)
      requires Valid() && oldsz <= USER_BYTES && (newsz <= USER_BYTES || KERNBASE <= newsz)
      requires forall u :: PagesUp(oldsz) <= u < PagesUp(newsz) ==> u !in flat
      modifies this`mem, this`freelist, this`free, this`held, this`at, this`flat
      ensures Valid() && !panics && held == old(held)
      ensures newsz >= KERNBASE ==> sz == 0 && flat == old(flat)
      ensures newsz < oldsz ==> sz == oldsz && flat == old(flat)
      ensures oldsz <= newsz < KERNBASE ==> sz == newsz || sz == 0
      ensures oldsz <= newsz < KERNBASE && sz == newsz && 0 < newsz ==> Extends(old(flat), flat, PagesUp(oldsz), PagesUp(newsz))
      ensures oldsz <= newsz < KERNBASE && sz == 0 && 0 < newsz ==>
                flat == old(flat) && |old(free)| < 4 * (PagesUp(newsz) - PagesUp(oldsz))
    {
      if newsz >= KERNBASE {
        return 0, false;
      }
      if newsz < oldsz {
        return oldsz, false;
      }
      ZeroNotHeld();
      sz, panics := AllocRange(oldsz, newsz);
    }

    /** Page 0 is never allocated. */
    lemma ZeroNotHeld()
      requires Valid()
      ensures 0 !in held
    {
      assert 0 in pool ==> first <= 0;
    }

    /** What freevm needs to know of a subtree it takes down. */
    ghost predicate Standing(path: Path)
      reads this
    {
      && FreeOk(mem, freelist, free) && Distinct(at) && SubOk(mem, at, path) && 1 <= first
      && ToSet(free) !! Sub(at, path)
      && forall q :: q in Sub(at, path) ==> first <= q < last && q in mem
    }

    /** One entry of a table: the page it maps, or the table it points to and all that
        is below. */
    method FreeEntry(e: nat, level: nat, i: nat, ghost path: Path) returns (panics: bool)
      requires level >= 1 && |path| + level == 4 && Standing(path + [i])
      requires if Present(e) then path + [i] in at && at[path + [i]] == Ppn(e) else Sub(at, path + [i]) == {}
      requires level == 1 && Present(e) ==> Sub(at, path + [i]) == {Ppn(e)}
      modifies this`mem, this`freelist, this`free
      ensures FreeOk(mem, freelist, free) && !panics
      ensures ToSet(free) == ToSet(old(free)) + Sub(at, path + [i])
      ensures forall q :: q in old(mem) && q !in Sub(at, path + [i]) ==> q in mem && mem[q] == old(mem)[q]
      decreases level, 0
    {
      panics := false;
      if Present(e) {
        if level == 1 {
          panics := Push(Ppn(e));
          assert ToSet(free) == {Ppn(e)} + ToSet(old(free));
        } else {
          panics := FreeTable(Ppn(e), level - 1, path + [i]);
        }
      }
    }

    /** The first i entries of the table at path are done. */
    ghost predicate Progress(was: Mem, freed: set<nat>, i: nat, path: Path)
      reads this
    {
      && FreeOk(mem, freelist, free) && ToSet(free) == freed + Below(at, path, i)
      && forall q :: q in was && q !in Below(at, path, i) ==> q in mem && mem[q] == was[q]
    }

    /** What is below the entries already done does not touch the table or the rest. */
    lemma EntryStands(was: Mem, freed: set<nat>, i: nat, path: Path)
      requires SubOk(was, at, path) && Distinct(at) && path in at && |path| < 4 && IndexOk(path, i) && 1 <= first
      requires Progress(was, freed, i, path) && freed !! Sub(at, path)
      requires forall q :: q in Sub(at, path) ==> first <= q < last && q in was
      ensures Standing(path + [i]) && TableIn(mem, at[path])
      ensures var e := mem[at[path]][i];
              && (if Present(e) then path + [i] in at && at[path + [i]] == Ppn(e) else Sub(at, path + [i]) == {})
              && (|path| == 3 && Present(e) ==> Sub(at, path + [i]) == {Ppn(e)})
    {
      BelowNext(at, path, i);
      SubNarrow(was, at, path, i);
      SubFrame(was, mem, at, path + [i]);
      assert NodeOk(was, at, path) && EntryOk(was, at, path, i);
      if path + [i] !in at {
        SubAbsent(was, at, path, i);
      } else if |path| == 3 {
        SubLeaf(was, at, path, i);
      }
    }

    /** One round of freevm's loop over the entries of a table. */
    method FreeNext(p: nat, level: nat, i: nat, ghost path: Path, ghost was: Mem, ghost freed: set<nat>) returns (panics: bool)
      requires level >= 1 && |path| + level == 4 && path in at && at[path] == p && IndexOk(path, i)
      requires SubOk(was, at, path) && Distinct(at) && freed !! Sub(at, path) && 1 <= first
      requires forall q :: q in Sub(at, path) ==> first <= q < last && q in was
      requires Progress(was, freed, i, path)
      modifies this`mem, this`freelist, this`free
      ensures Progress(was, freed, i + 1, path) && !panics
      decreases level, 1
    {
      EntryStands(was, freed, i, path);
      panics := FreeEntry(mem[p][i], level, i, path);
      FreedNext(at, path, i, was, old(mem), mem, freed, ToSet(old(free)), ToSet(free));
    }

    /** freevm's loop over the entries of the table at path. */
    method FreeEntries(p: nat, level: nat, n: nat, ghost path: Path) returns (panics: bool)
      requires level >= 1 && |path| + level == 4 && path in at && at[path] == p && Standing(path)
      requires n == if level == 4 then ENTRIES / 2 else ENTRIES
      modifies this`mem, this`freelist, this`free
      ensures Progress(old(mem), ToSet(old(free)), n, path) && !panics
      decreases level, 2
    {
      panics := false;
      assert Below(at, path, 0) == {};
      var i := 0;
      while i < n
        invariant i <= n && !panics && Progress(old(mem), ToSet(old(free)), i, path)
      {
        panics := FreeNext(p, level, i, path, old(mem), ToSet(old(free)));
        i := i + 1;
      }
    }

    /** Take down the subtree at path: the entries, then the table itself. Entries are
        not cleared on the way. */
    method FreeTable(p: nat, level: nat, ghost path: Path) returns (panics: bool)
      requires level >= 1 && |path| + level == 4 && path in at && at[path] == p && Standing(path)
      modifies this`mem, this`freelist, this`free
      ensures FreeOk(mem, freelist, free) && !panics
      ensures ToSet(free) == ToSet(old(free)) + Sub(at, path)
      ensures forall q :: q in old(mem) && q !in Sub(at, path) ==> q in mem && mem[q] == old(mem)[q]
      decreases level, 3
    {
      var n := if level == 4 then ENTRIES / 2 else ENTRIES;
      SubIsBelow(mem, at, path, n);
      panics := FreeEntries(p, level, n, path);
      BelowNext(at, path, n);
      ghost var before := ToSet(free);
      assert p in Sub(at, path);
      panics := Push(p);
      assert ToSet(free) == {p} + before;
    }

    /** kfree as freevm uses it, while the page is still in the tree being taken down. */
    method Push(v: nat) returns (panics: bool)
      requires FreeOk(mem, freelist, free) && v !in free && 1 <= first
      modifies this`mem, this`freelist, this`free
      ensures panics <==> v < first || v >= last
      ensures !panics ==> FreeOk(mem, freelist, free) && free == [v] + old(free) && mem == old(mem)[v := JunkPage(old(freelist))]
    {
      if v < first || v >= last {
        return true;
      }
      FreePush(mem, freelist, free, v);
      mem := mem[v := JunkPage(freelist)];
      freelist := v;
      free := [v] + free;
      return false;
    }

    /** freevm: afterwards the free list holds what it held before and every page of
        the address space, tables and top table included, each once. */
    method FreeVm() returns (panics: bool)
      requires Valid()
      modifies this`mem, this`freelist, this`free
      ensures !panics && FreeOk(mem, freelist, free)
      ensures ToSet(free) == ToSet(old(free)) + at.Values == pool - held
      ensures NoDup(free)
    {
      assert Sub(at, []) == at.Values by {
        forall q | q in at.Values ensures q in Sub(at, []) {
          var r :| r in at && at[r] == q;
          assert [] <= r;
        }
      }
      panics := FreeTable(pml4, 4, []);
    }

    /** Nothing is mapped at or above the process's size. */
    ghost predicate SizedAt(sz: nat)
      reads this
    {
      Valid() && held == {} && sz <= USER_BYTES && forall u :: u in flat ==> u < PagesUp(sz)
    }

    /** growproc, for sizes in the user half. Shrinking to nothing frees every page and
        still fails, with the size as it was; shrinking below that wraps around and is no
        change. */
    method Growproc(sz: nat, n: int) returns (ok: bool, sz': nat)
      requires SizedAt(sz) && sz + n <= USER_BYTES && -0x8000_0000_0000_0000 <= n
      modifies this`mem, this`freelist, this`free, this`held, this`at, this`flat
      ensures SizedAt(sz')
      ensures sz' == if ok && 0 <= sz + n then sz + n else sz
      ensures n > 0 ==> if ok then Extends(old(flat), flat, PagesUp(sz), PagesUp(sz + n)) else flat == old(flat)
      ensures n <= 0 <= sz + n ==> flat == Without(old(flat), PagesUp(sz + n), PagesUp(sz)) && (ok <==> n == 0 || sz + n > 0)
      ensures sz + n < 0 ==> flat == old(flat) && (ok <==> sz > 0)
    {
      sz' := sz;
      var panics;
      if n > 0 {
        sz', panics := AllocUvm(sz, Resized(sz, n));
        if sz' == 0 {
          return false, sz;
        }
      } else if n < 0 {
        PagesUpMono(if sz + n < 0 then 0 else sz + n, sz);
        sz', panics := DeallocUvm(sz, Resized(sz, n));
        if sz' == 0 {
          return false, sz;
        }
      }
      return true, sz';
    }

    /** Whatever sizes a process goes through, and whichever of the calls fail, once freevm
        has run every page the address space ever had is on the free list, once. */
    method Lifetime(sizes: seq<nat>)
      requires SizedAt(0) && forall k :: 0 <= k < |sizes| ==> sizes[k] <= USER_BYTES
      modifies this`mem, this`freelist, this`free, this`held, this`at, this`flat
      ensures FreeOk(mem, freelist, free) && ToSet(free) == pool && NoDup(free)
    {
      var sz, k := 0, 0;
      while k < |sizes|
        invariant k <= |sizes| && SizedAt(sz)
      {
        var ok;
        var new_: int := sizes[k];
        ok, sz := Growproc(sz, new_ - sz);
        k := k + 1;
      }
      var panics := FreeVm();
    }
  }
}
