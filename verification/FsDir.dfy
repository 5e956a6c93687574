/** Directories as finite maps: sixteen-byte entries, names of at most fourteen bytes. */
module FsDir {
  import opened Wrappers
  import opened FsBlocks
  import opened FsContent

  const DIRSIZ: nat := 14
  const DESIZE: nat := 16

  /** What strncmp with DIRSIZ sees of a string: up to a NUL, at most n bytes. */
  function CName(s: seq<Byte>, n: nat): (r: seq<Byte>)
    ensures |r| <= n && |r| <= |s| && r == s[..|r|] && (forall k :: 0 <= k < |r| ==> r[k] != 0)
    ensures |r| < n && |r| < |s| ==> s[|r|] == 0
  {
    if n == 0 || s == [] || s[0] == 0 then [] else [s[0]] + CName(s[1..], n - 1)
  }

  predicate NameOk(nm: seq<Byte>) {
    |nm| <= DIRSIZ && forall k :: 0 <= k < |nm| ==> nm[k] != 0
  }

  function At(s: seq<Byte>, k: nat): Byte {
    if k < |s| then s[k] else 0
  }

  /** strncmp(s, t, n) == 0. */
  method SameName(s: seq<Byte>, t: seq<Byte>, n: nat) returns (same: bool)
    ensures same <==> CName(s, n) == CName(t, n)
  {
    var k := 0;
    while k < n && At(s, k) != 0 && At(s, k) == At(t, k)
      invariant k <= n && k <= |s| && k <= |t| && s[..k] == t[..k]
      invariant forall m :: 0 <= m < k ==> s[m] != 0
      decreases n - k
    {
      k := k + 1;
    }
    var a, b := CName(s, n), CName(t, n);
    assert |a| >= k && |b| >= k;
    if k == n {
      assert a == s[..n] && b == t[..n];
      return true;
    }
    assert At(s, k) != 0 ==> |a| > k && a[k] == s[k];
    assert At(t, k) != 0 ==> |b| > k && b[k] == t[k];
    same := At(s, k) == At(t, k);
    if same {
      assert a == s[..k] && b == t[..k];
    }
  }

  /** strncpy(field, s, n). */
  method PadName(s: seq<Byte>, n: nat) returns (field: seq<Byte>)
    ensures field == CName(s, n) + seq(n - |CName(s, n)|, _ => 0)
  {
    field := [];
    while |field| < n && At(s, |field|) != 0
      invariant |field| <= n && |field| <= |s| && field == s[..|field|]
      invariant forall m :: 0 <= m < |field| ==> s[m] != 0
      decreases n - |field|
    {
      field := field + [s[|field|]];
    }
    ghost var nm := CName(s, n);
    assert |nm| == |field|;
    assert nm == field;
    while |field| < n
      invariant |nm| <= |field| <= n && field == nm + seq(|field| - |nm|, _ => 0)
    {
      field := field + [0];
    }
  }

  // ------------------------------------------------------------------
  // Entries

  /** The k-th struct dirent. */
  function Entry(c: seq<Byte>, k: nat): (de: seq<Byte>)
    requires DESIZE * k + DESIZE <= |c|
    ensures |de| == DESIZE
  {
    c[DESIZE * k..DESIZE * k + DESIZE]
  }

  function InumOf(de: seq<Byte>): nat
    requires |de| == DESIZE
  {
    var lo: int, hi: int := de[0], de[1];
    lo + 0x100 * hi
  }

  function NameOf(de: seq<Byte>): seq<Byte>
    requires |de| == DESIZE
  {
    CName(de[2..], DIRSIZ)
  }

  predicate Hit(c: seq<Byte>, k: nat, nm: seq<Byte>)
    requires DESIZE * k + DESIZE <= |c|
  {
    InumOf(Entry(c, k)) != 0 && NameOf(Entry(c, k)) == nm
  }

  /** The first entry from k on that carries the name, or the number of entries. */
  function Find(c: seq<Byte>, nm: seq<Byte>, k: nat): (r: nat)
    requires k <= |c| / DESIZE
    ensures k <= r <= |c| / DESIZE && (r < |c| / DESIZE ==> Hit(c, r, nm)) && forall m :: k <= m < r ==> !Hit(c, m, nm)
    decreases |c| / DESIZE - k
  {
    if k == |c| / DESIZE || Hit(c, k, nm) then k else Find(c, nm, k + 1)
  }

  /** The directory as a map from names to inode numbers. */
  function Lookup(c: seq<Byte>, nm: seq<Byte>): Option<nat> {
    var k := Find(c, nm, 0);
    if k < |c| / DESIZE then Some(InumOf(Entry(c, k))) else None
  }

  /** dirlookup's answer: the first entry with the name and its inode number, or none. */
  predicate LookupIs(c: seq<Byte>, nm: seq<Byte>, r: Option<(nat, nat)>) {
    var k := Find(c, nm, 0);
    match r
    case Some((e, inum)) => k < |c| / DESIZE && e == k && inum == InumOf(Entry(c, k))
    case None => k == |c| / DESIZE && |c| % DESIZE == 0
  }

  /** The first unused entry from k on, or the number of entries. */
  function Empty(c: seq<Byte>, k: nat): (r: nat)
    requires k <= |c| / DESIZE
    ensures k <= r <= |c| / DESIZE && (r < |c| / DESIZE ==> InumOf(Entry(c, r)) == 0)
    decreases |c| / DESIZE - k
  {
    if k == |c| / DESIZE || InumOf(Entry(c, k)) == 0 then k else Empty(c, k + 1)
  }

  /** struct dirent after strncpy. */
  function Dirent(nm: seq<Byte>, inum: nat): (de: seq<Byte>)
    requires |nm| <= DIRSIZ && inum < 0x1_0000
    ensures |de| == DESIZE
  {
    [inum % 0x100, inum / 0x100] + nm + seq(DIRSIZ - |nm|, _ => 0)
  }

  /** dirlink's struct dirent. */
  method MakeDirent(name: seq<Byte>, inum: nat) returns (de: seq<Byte>)
    requires inum < 0x1_0000
    ensures de == Dirent(CName(name, DIRSIZ), inum)
  {
    var field := PadName(name, DIRSIZ);
    de := [inum % 0x100, inum / 0x100] + field;
  }

  lemma DirentIs(nm: seq<Byte>, inum: nat)
    requires NameOk(nm) && inum < 0x1_0000
    ensures InumOf(Dirent(nm, inum)) == inum && NameOf(Dirent(nm, inum)) == nm
  {
    var field := Dirent(nm, inum)[2..];
    assert forall k :: 0 <= k < |nm| ==> field[k] == nm[k];
    assert |nm| < DIRSIZ ==> field[|nm|] == 0;
    var r := CName(field, DIRSIZ);
    assert |r| == |nm|;
    assert r == nm;
  }

  // ------------------------------------------------------------------
  // dirlink

  /** The directory's bytes after an entry is written into the first unused place. */
  function Linked(c: seq<Byte>, nm: seq<Byte>, inum: nat): seq<Byte>
    requires |c| % DESIZE == 0 && NameOk(nm) && inum < 0x1_0000
  {
    Splice(c, DESIZE * Empty(c, 0), Dirent(nm, inum))
  }

  lemma EntriesFit(e: nat, n: nat, max: nat)
    requires e <= n && DESIZE * n <= DESIZE * max
    ensures DESIZE * e <= DESIZE * n && (DESIZE * e + DESIZE > DESIZE * max ==> n == max)
  {
  }

  /** There is room for one more entry unless the directory has its largest size. */
  lemma LinkedFits(c: seq<Byte>, max: nat)
    requires |c| % DESIZE == 0 && |c| <= DESIZE * max
    ensures DESIZE * Empty(c, 0) <= |c|
    ensures DESIZE * Empty(c, 0) + DESIZE > DESIZE * max ==> |c| == DESIZE * max
  {
    EntriesFit(Empty(c, 0), |c| / DESIZE, max);
  }

  /** Writing an entry changes that entry only. */
  lemma SpliceEntry(c: seq<Byte>, e: nat, de: seq<Byte>, k: nat)
    requires |c| % DESIZE == 0 && e <= |c| / DESIZE && |de| == DESIZE
    ensures var t, n := Splice(c, DESIZE * e, de), |c| / DESIZE;
            && |t| % DESIZE == 0 && |t| / DESIZE == (if e < n then n else n + 1)
            && (k < |t| / DESIZE ==> Entry(t, k) == if k == e then de else Entry(c, k))
  {
    var t, n := Splice(c, DESIZE * e, de), |c| / DESIZE;
    assert |c| == DESIZE * n;
    assert |t| == DESIZE * (if e < n then n else n + 1);
  }

  lemma LinkedHit(c: seq<Byte>, nm: seq<Byte>, inum: nat, k: nat, m: seq<Byte>)
    requires |c| % DESIZE == 0 && NameOk(nm) && 0 < inum < 0x1_0000
    ensures var t, e := Linked(c, nm, inum), Empty(c, 0);
            && |t| % DESIZE == 0 && e < |t| / DESIZE && |c| / DESIZE <= |t| / DESIZE <= |c| / DESIZE + 1
            && (k < |t| / DESIZE && k != e ==> k < |c| / DESIZE)
            && (k < |t| / DESIZE ==>
                  && (Hit(t, k, m) <==> if k == e then m == nm else Hit(c, k, m))
                  && InumOf(Entry(t, k)) == if k == e then inum else InumOf(Entry(c, k)))
  {
    DirentIs(nm, inum);
    SpliceEntry(c, Empty(c, 0), Dirent(nm, inum), k);
  }

  lemma FindIs(c: seq<Byte>, nm: seq<Byte>, k: nat)
    requires k < |c| / DESIZE && Hit(c, k, nm) && forall m :: 0 <= m < k ==> !Hit(c, m, nm)
    ensures Find(c, nm, 0) == k
  {
  }

  /** dirlink adds exactly the one name to the map. */
  lemma LinkedIs(c: seq<Byte>, nm: seq<Byte>, inum: nat, m: seq<Byte>)
    requires |c| % DESIZE == 0 && NameOk(nm) && 0 < inum < 0x1_0000 && Lookup(c, nm) == None
    ensures Lookup(Linked(c, nm, inum), m) == if m == nm then Some(inum) else Lookup(c, m)
  {
    var t, e := Linked(c, nm, inum), Empty(c, 0);
    var g := Find(c, m, 0);
    LinkedHit(c, nm, inum, e, m);
    forall k | 0 <= k < |t| / DESIZE ensures Hit(t, k, m) <==> if k == e then m == nm else Hit(c, k, m) {
      LinkedHit(c, nm, inum, k, m);
    }
    if m == nm {
      FindIs(t, m, e);
    } else if g < |c| / DESIZE {
      LinkedHit(c, nm, inum, g, m);
      FindIs(t, m, g);
    }
  }

  /** t is the directory c with nm mapped to inum. */
  ghost predicate Adds(c: seq<Byte>, nm: seq<Byte>, inum: nat, t: seq<Byte>) {
    forall m {:trigger Lookup(t, m)} :: Lookup(t, m) == if m == nm then Some(inum) else Lookup(c, m)
  }

  lemma LinkedAdds(c: seq<Byte>, nm: seq<Byte>, inum: nat)
    requires |c| % DESIZE == 0 && NameOk(nm) && 0 < inum < 0x1_0000 && Lookup(c, nm) == None
    ensures Adds(c, nm, inum, Linked(c, nm, inum))
  {
    forall m ensures Lookup(Linked(c, nm, inum), m) == if m == nm then Some(inum) else Lookup(c, m) {
      LinkedIs(c, nm, inum, m);
    }
  }
}
