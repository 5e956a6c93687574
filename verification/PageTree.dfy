/** Page-table entries, indices and the four-level walk (section 4.5 of the Intel SDM,
Volume 3A), and the tree of pages that vm.c builds. Physical memory is a map from page
numbers to the 512 words of the page; virtual addresses are taken by page. */
module PageTree {
  import opened Wrappers

  const ENTRIES: nat := 512
  const USER_TOP: nat := 0x8_0000_0000      // pages below 2^47, the user half
  const ALL_PAGES: nat := 0x10_0000_0000    // pages the four indices can tell apart

  type Mem = map<nat, seq<nat>>
  type Path = seq<nat>

  /** PTE_P is the lowest bit; PTE_ADDR masks the low twelve. */
  predicate Present(e: nat) {
    e % 2 == 1
  }

  function Ppn(e: nat): nat {
    e / 4096
  }

  /** pa | perm | PTE_P for a page-aligned pa and flags below 4096. */
  function Pte(ppn: nat, flags: nat): (e: nat)
    requires flags < 4096
    ensures Present(e) && Ppn(e) == ppn
  {
    var e := ppn * 4096 + flags / 2 * 2 + 1;
    assert e == 2 * (ppn * 2048 + flags / 2) + 1;
    e
  }

  /** The page number shifted right by 9 bits per level below this one. */
  function Shifted(v: nat, level: nat): nat {
    if level <= 1 then v else if level == 2 then v / 512 else if level == 3 then v / 512 / 512 else v / 512 / 512 / 512
  }

  /** PTX (level 1), PDX, PDPX and PMX (level 4) of the address whose page number is v. */
  function Idx(v: nat, level: nat): (i: nat)
    ensures i < ENTRIES
  {
    Shifted(v, level) % ENTRIES
  }

  function PathOf(v: nat): (p: Path)
    ensures |p| == 4 && forall k :: 0 <= k < 4 ==> p[k] == Idx(v, 4 - k)
  {
    [Idx(v, 4), Idx(v, 3), Idx(v, 2), Idx(v, 1)]
  }

  /** The four indices determine the page number modulo 2^36, and nothing more. */
  lemma Digits(v: nat)
    ensures v % ALL_PAGES == Idx(v, 4) * 0x800_0000 + Idx(v, 3) * 0x4_0000 + Idx(v, 2) * 512 + Idx(v, 1)
  {
    var a := v / 512;
    var b := a / 512;
    var c := b / 512;
    var low := c % 512 * 0x800_0000 + b % 512 * 0x4_0000 + a % 512 * 512 + v % 512;
    assert v == 512 * a + v % 512 && a == 512 * b + a % 512 && b == 512 * c + b % 512 && c == 512 * (c / 512) + c % 512;
    assert v == ALL_PAGES * (c / 512) + low && low < ALL_PAGES;
    RestIs(c / 512, low);
  }

  lemma RestIs(q: nat, r: nat)
    requires r < ALL_PAGES
    ensures (ALL_PAGES * q + r) % ALL_PAGES == r
  {
  }

  /** Two pages use the same slots exactly when their numbers agree modulo 2^36: the
      index macros ignore the sign-extension bits. Below 2^48 no two pages collide. */
  lemma SlotsCollideIff(u: nat, v: nat)
    ensures PathOf(u) == PathOf(v) <==> u % ALL_PAGES == v % ALL_PAGES
    ensures u < ALL_PAGES && v < ALL_PAGES ==> (PathOf(u) == PathOf(v) <==> u == v)
  {
    if u % ALL_PAGES == v % ALL_PAGES {
      SameDigits(u, v);
    }
    if PathOf(u) == PathOf(v) {
      SamePath(u, v);
    }
  }

  lemma SamePath(u: nat, v: nat)
    requires PathOf(u) == PathOf(v)
    ensures u % ALL_PAGES == v % ALL_PAGES
  {
    assert PathOf(u)[0] == Idx(u, 4) && PathOf(u)[1] == Idx(u, 3) && PathOf(u)[2] == Idx(u, 2) && PathOf(u)[3] == Idx(u, 1);
    Digits(u);
    Digits(v);
  }

  lemma SameDigits(u: nat, v: nat)
    requires u % ALL_PAGES == v % ALL_PAGES
    ensures PathOf(u) == PathOf(v)
  {
    var q := u / ALL_PAGES;
    var w := u % ALL_PAGES;
    var r := v / ALL_PAGES;
    assert u == q * ALL_PAGES + w && v == r * ALL_PAGES + w;
    LowDigits(q, w);
    LowDigits(r, w);
  }

  lemma LowDigits(q: nat, w: nat)
    ensures PathOf(q * ALL_PAGES + w) == PathOf(w)
  {
    LowDigit(q * 0x800_0000, w);
    LowDigit(q * 0x4_0000, w / 512);
    LowDigit(q * 512, w / 512 / 512);
    LowDigit(q, w / 512 / 512 / 512);
  }

  lemma LowDigit(k: nat, x: nat)
    ensures (k * 512 + x) % 512 == x % 512 && (k * 512 + x) / 512 == k + x / 512
  {
  }

  // ------------------------------------------------------------------
  // The walk the hardware makes

  predicate TableIn(mem: Mem, p: nat) {
    p in mem && |mem[p]| == ENTRIES
  }

  /** The entry that maps page v, looked up from table p at this level. */
  function HwWalk(mem: Mem, p: nat, level: nat, v: nat): (e: Option<nat>)
    decreases level
  {
    if level == 0 || !TableIn(mem, p) then None
    else
      var e := mem[p][Idx(v, level)];
      if !Present(e) then None
      else if level == 1 then Some(e)
      else HwWalk(mem, Ppn(e), level - 1, v)
  }

  // ------------------------------------------------------------------
  // The tree of pages

  /** Index i may be used in the table at path p: the user half of the top table. */
  predicate IndexOk(p: Path, i: nat) {
    i < ENTRIES && (|p| == 0 ==> i < ENTRIES / 2)
  }

  predicate PathOk(p: Path) {
    |p| <= 4 && forall k :: 0 <= k < |p| ==> IndexOk(p[..k], p[k])
  }

  function Parent(p: Path): Path
    requires p != []
  {
    p[..|p| - 1]
  }

  /** An entry is present exactly when there is a page at its path, and points there. */
  predicate EntryOk(mem: Mem, at: map<Path, nat>, p: Path, i: nat)
    requires p in at && TableIn(mem, at[p]) && i < ENTRIES
  {
    var e := mem[at[p]][i];
    (Present(e) <==> p + [i] in at) && (Present(e) ==> Ppn(e) == at[p + [i]])
  }

  predicate TableOk(mem: Mem, at: map<Path, nat>, p: Path)
    requires p in at
  {
    TableIn(mem, at[p]) && forall i {:trigger EntryOk(mem, at, p, i)} :: 0 <= i < ENTRIES && IndexOk(p, i) ==> EntryOk(mem, at, p, i)
  }

  predicate NodeOk(mem: Mem, at: map<Path, nat>, p: Path)
    requires p in at
  {
    PathOk(p) && (p != [] ==> Parent(p) in at) && (|p| < 4 ==> TableOk(mem, at, p))
  }

  ghost predicate Distinct(at: map<Path, nat>) {
    forall p, q {:trigger at[p], at[q]} :: p in at && q in at && p != q ==> at[p] != at[q]
  }

  /** at says which page is at which path: tables at paths shorter than four, mapped
      pages at the leaves. No page is reached twice. */
  ghost predicate TreeOk(mem: Mem, at: map<Path, nat>) {
    && [] in at
    && (forall p {:trigger NodeOk(mem, at, p)} :: p in at ==> NodeOk(mem, at, p))
    && Distinct(at)
  }

  /** The flat map: the entry for page v, if it is mapped. */
  ghost function Flat(mem: Mem, at: map<Path, nat>, v: nat): (e: Option<nat>)
    requires TreeOk(mem, at)
  {
    if PathOf(v) in at && PathOf(v)[..3] in at && TableIn(mem, at[PathOf(v)[..3]])
    then Some(mem[at[PathOf(v)[..3]]][Idx(v, 1)])
    else None
  }

  lemma UserPath(v: nat)
    requires v < USER_TOP
    ensures PathOk(PathOf(v))
    ensures forall k :: 0 <= k < 4 ==> IndexOk(PathOf(v)[..k], PathOf(v)[k]) && PathOf(v)[..k + 1] == PathOf(v)[..k] + [PathOf(v)[k]]
  {
    assert v / 0x800_0000 < 256;
    assert Idx(v, 4) < 256;
  }

  /** One level of the walk: the entry at index i of the table at path p leads to the
      page at p + [i], if there is one. */
  lemma WalkStep(mem: Mem, at: map<Path, nat>, p: Path, level: nat, v: nat)
    requires TreeOk(mem, at) && p in at && |p| < 4 && level == 4 - |p| && IndexOk(p, Idx(v, level))
    ensures TableIn(mem, at[p])
    ensures p + [Idx(v, level)] !in at ==> HwWalk(mem, at[p], level, v) == None
    ensures p + [Idx(v, level)] in at ==>
              HwWalk(mem, at[p], level, v) ==
              if level == 1 then Some(mem[at[p]][Idx(v, 1)]) else HwWalk(mem, at[p + [Idx(v, level)]], level - 1, v)
  {
    assert NodeOk(mem, at, p);
    assert EntryOk(mem, at, p, Idx(v, level));
  }

  lemma PathStep(v: nat, k: nat)
    requires v < USER_TOP && k < 4
    ensures PathOf(v)[k] == Idx(v, 4 - k) && IndexOk(PathOf(v)[..k], Idx(v, 4 - k))
    ensures PathOf(v)[..k + 1] == PathOf(v)[..k] + [Idx(v, 4 - k)]
    ensures k == 3 ==> PathOf(v) == PathOf(v)[..3] + [Idx(v, 1)]
  {
    UserPath(v);
  }

  /** The hardware walk computes the flat map. */
  lemma {:induction false} WalkIsFlat(mem: Mem, at: map<Path, nat>, v: nat, k: nat)
    requires TreeOk(mem, at) && v < USER_TOP && k < 4 && PathOf(v)[..k] in at
    ensures HwWalk(mem, at[PathOf(v)[..k]], 4 - k, v) == Flat(mem, at, v)
    decreases 4 - k
  {
    PathStep(v, k);
    WalkStep(mem, at, PathOf(v)[..k], 4 - k, v);
    if PathOf(v)[..k + 1] !in at {
      Absent(mem, at, v, k + 1);
    } else if k < 3 {
      WalkIsFlat(mem, at, v, k + 1);
    }
  }

  lemma HasParent(mem: Mem, at: map<Path, nat>, p: Path, i: nat)
    requires TreeOk(mem, at) && p + [i] in at
    ensures p in at
  {
    assert NodeOk(mem, at, p + [i]);
    assert Parent(p + [i]) == p;
  }

  /** If there is no table on the way, there is no page at the end. */
  lemma {:induction false} Absent(mem: Mem, at: map<Path, nat>, v: nat, k: nat)
    requires TreeOk(mem, at) && k <= 4 && PathOf(v)[..k] !in at
    ensures PathOf(v) !in at
    decreases 4 - k
  {
    if k == 4 {
      assert PathOf(v)[..4] == PathOf(v);
    } else {
      assert PathOf(v)[..k + 1] == PathOf(v)[..k] + [PathOf(v)[k]];
      if PathOf(v)[..k + 1] in at {
        HasParent(mem, at, PathOf(v)[..k], PathOf(v)[k]);
      }
      Absent(mem, at, v, k + 1);
    }
  }

  // ------------------------------------------------------------------
  // Changes to the tree

  /** Storing entry e at index i of table p. */
  function Store(mem: Mem, p: nat, i: nat, e: nat): (r: Mem)
    requires TableIn(mem, p) && i < ENTRIES
  {
    var words: seq<nat> := mem[p][i := e];
    mem[p := words]
  }

  predicate Zeroed(mem: Mem, p: nat) {
    TableIn(mem, p) && forall i :: 0 <= i < ENTRIES ==> mem[p][i] == 0
  }

  /** Pages that are not in the tree may hold anything. */
  lemma TreeFrame(mem: Mem, mem': Mem, at: map<Path, nat>)
    requires TreeOk(mem, at)
    requires forall q :: q in at.Values && q in mem ==> q in mem' && mem'[q] == mem[q]
    ensures TreeOk(mem', at) && forall v :: Flat(mem', at, v) == Flat(mem, at, v)
  {
    forall p | p in at ensures NodeOk(mem', at, p) {
      assert NodeOk(mem, at, p);
      assert at[p] in at.Values;
      if |p| < 4 {
        forall i | 0 <= i < ENTRIES && IndexOk(p, i) ensures EntryOk(mem', at, p, i) {
          assert EntryOk(mem, at, p, i);
        }
      }
    }
    forall v ensures Flat(mem', at, v) == Flat(mem, at, v) {
      if PathOf(v) in at {
        assert NodeOk(mem, at, PathOf(v));
        assert NodeOk(mem, at, PathOf(v)[..3]);
        assert at[PathOf(v)[..3]] in at.Values;
      }
    }
  }

  /** A new page q below the table at p: a zeroed table, or a mapped page. */
  lemma AddPage(mem: Mem, at: map<Path, nat>, p: Path, i: nat, q: nat, e: nat)
    requires TreeOk(mem, at) && p in at && |p| < 4 && IndexOk(p, i) && p + [i] !in at && q !in at.Values
    requires Present(e) && Ppn(e) == q && (|p| < 3 ==> Zeroed(mem, q)) && TableIn(mem, at[p])
    ensures TreeOk(Store(mem, at[p], i, e), at[p + [i] := q])
  {
    var mem', at' := Store(mem, at[p], i, e), at[p + [i] := q];
    assert NodeOk(mem, at, p);
    forall r | r in at' ensures NodeOk(mem', at', r) {
      if r == p + [i] {
        NewNode(mem, at, p, i, q, e);
      } else {
        assert NodeOk(mem, at, r);
        if |r| < 4 {
          forall j | 0 <= j < ENTRIES && IndexOk(r, j) ensures EntryOk(mem', at', r, j) {
            assert EntryOk(mem, at, r, j);
            assert r + [j] == p + [i] ==> r == p && j == i by { SnocInjective(r, j, p, i); }
          }
        }
      }
    }
    forall r, t | r in at' && t in at' && r != t ensures at'[r] != at'[t] {
      assert r != p + [i] ==> at[r] in at.Values;
      assert t != p + [i] ==> at[t] in at.Values;
    }
  }

  lemma SnocInjective(p: Path, i: nat, q: Path, j: nat)
    ensures p + [i] == q + [j] ==> p == q && i == j
  {
    if p + [i] == q + [j] {
      assert (p + [i])[..|p|] == p && (q + [j])[..|q|] == q;
      assert (p + [i])[|p|] == i && (q + [j])[|q|] == j;
    }
  }

  lemma NewNode(mem: Mem, at: map<Path, nat>, p: Path, i: nat, q: nat, e: nat)
    requires TreeOk(mem, at) && p in at && |p| < 4 && IndexOk(p, i) && p + [i] !in at && q !in at.Values
    requires (|p| < 3 ==> Zeroed(mem, q)) && TableIn(mem, at[p])
    ensures NodeOk(Store(mem, at[p], i, e), at[p + [i] := q], p + [i])
  {
    var mem', at', r := Store(mem, at[p], i, e), at[p + [i] := q], p + [i];
    assert NodeOk(mem, at, p);
    assert at[p] in at.Values;
    assert Parent(r) == p;
    forall k | 0 <= k < |r| ensures IndexOk(r[..k], r[k]) {
      assert r[..k] == p[..k];
      assert k < |p| ==> IndexOk(p[..k], p[k]);
      assert k == |p| ==> r[..k] == p;
    }
    if |r| < 4 {
      forall j | 0 <= j < ENTRIES && IndexOk(r, j) ensures EntryOk(mem', at', r, j) {
        assert mem'[q] == mem[q];
        if r + [j] in at {
          HasParent(mem, at, r, j);
        }
      }
    }
  }

  /** What adding a page does to the flat map: nothing if it is a table, and only one
      page becomes mapped if it is a leaf. */
  lemma AddFlat(mem: Mem, at: map<Path, nat>, p: Path, i: nat, q: nat, e: nat, v: nat)
    requires TreeOk(mem, at) && p in at && |p| < 4 && IndexOk(p, i) && p + [i] !in at && q !in at.Values
    requires Present(e) && Ppn(e) == q && (|p| < 3 ==> Zeroed(mem, q)) && TableIn(mem, at[p])
    requires TreeOk(Store(mem, at[p], i, e), at[p + [i] := q])
    ensures Flat(Store(mem, at[p], i, e), at[p + [i] := q], v) ==
            if PathOf(v) == p + [i] then Some(e) else Flat(mem, at, v)
  {
    var mem', at' := Store(mem, at[p], i, e), at[p + [i] := q];
    assert PathOf(v) == PathOf(v)[..3] + [Idx(v, 1)];
    if PathOf(v) == p + [i] {
      SnocInjective(PathOf(v)[..3], Idx(v, 1), p, i);
    } else if PathOf(v) in at {
      assert NodeOk(mem, at, PathOf(v));
      assert PathOf(v)[..3] == Parent(PathOf(v));
      assert NodeOk(mem, at, PathOf(v)[..3]);
      assert PathOf(v)[..3] == p ==> Idx(v, 1) != i;
      assert PathOf(v)[..3] != p ==> at[PathOf(v)[..3]] != at[p];
    }
  }

  /** Unmapping a leaf: its entry is cleared. */
  lemma DropPage(mem: Mem, at: map<Path, nat>, p: Path, i: nat)
    requires TreeOk(mem, at) && p in at && |p| == 3 && IndexOk(p, i) && p + [i] in at && TableIn(mem, at[p])
    ensures TreeOk(Store(mem, at[p], i, 0), at - {p + [i]})
  {
    var mem', at' := Store(mem, at[p], i, 0), at - {p + [i]};
    assert p != p + [i];
    forall r | r in at' ensures NodeOk(mem', at', r) {
      assert NodeOk(mem, at, r);
      if |r| < 4 {
        forall j | 0 <= j < ENTRIES && IndexOk(r, j) ensures EntryOk(mem', at', r, j) {
          assert EntryOk(mem, at, r, j);
          SnocInjective(r, j, p, i);
        }
      }
    }
  }

  lemma DropFlat(mem: Mem, at: map<Path, nat>, p: Path, i: nat, v: nat)
    requires TreeOk(mem, at) && p in at && |p| == 3 && IndexOk(p, i) && p + [i] in at && TableIn(mem, at[p])
    requires TreeOk(Store(mem, at[p], i, 0), at - {p + [i]})
    ensures Flat(Store(mem, at[p], i, 0), at - {p + [i]}, v) ==
            if PathOf(v) == p + [i] then None else Flat(mem, at, v)
  {
    assert PathOf(v) == PathOf(v)[..3] + [Idx(v, 1)];
    if PathOf(v) != p + [i] && PathOf(v) in at {
      assert NodeOk(mem, at, PathOf(v));
      assert PathOf(v)[..3] == Parent(PathOf(v));
      assert NodeOk(mem, at, PathOf(v)[..3]);
      assert PathOf(v)[..3] == p ==> Idx(v, 1) != i;
      assert PathOf(v)[..3] != p ==> at[PathOf(v)[..3]] != at[p];
    }
  }
}
