/** What the blocks of a disk mean as files: the free map, the block map of an inode and
the bytes it stands for. (fs.c, fs.h) */
module FsFiles {
  import opened FsBlocks

  const NDIRECT: nat := 12
  const MAXFILE: nat := 140
  const IPB: nat := 8

  /** Where an inode can hold a block number: addrs[0..12], then the indirect block's words. */
  const SLOTS: nat := 141
  const IND: nat := 12

  type Disk = seq<Block>

  /** The superblock: inode blocks, then the free map, then data. */
  datatype Layout = Layout(size: nat, inodestart: nat, ninodes: nat, bmapstart: nat, data: nat)

  predicate LayoutOk(L: Layout) {
    && 2 <= L.inodestart && L.inodestart + L.ninodes / IPB + 1 <= L.bmapstart
    && L.bmapstart + L.size / BPB + 1 <= L.data <= L.size < 0x8000_0000
  }

  predicate DiskOk(L: Layout, d: Disk) {
    LayoutOk(L) && |d| == L.size
  }

  predicate IsData(L: Layout, b: nat) {
    L.data <= b < L.size
  }

  // ------------------------------------------------------------------
  // The free map

  /** BBLOCK. */
  function BBlock(L: Layout, b: nat): (bb: nat)
    requires LayoutOk(L) && b < L.size
    ensures L.bmapstart <= bb < L.data
  {
    L.bmapstart + b / BPB
  }

  predicate BitAt(L: Layout, d: Disk, b: nat)
    requires DiskOk(L, d) && b < L.size
  {
    Bit(d[BBlock(L, b)], b % BPB)
  }

  ghost predicate BitmapIs(L: Layout, d: Disk, used: set<nat>)
    requires DiskOk(L, d)
  {
    && (forall b :: b in used ==> b < L.size)
    && forall b {:trigger BitAt(L, d, b)} :: 0 <= b < L.size ==> (BitAt(L, d, b) <==> b in used)
  }

  function Marked(L: Layout, d: Disk, b: nat, on: bool): (t: Disk)
    requires DiskOk(L, d) && b < L.size
    ensures DiskOk(L, t)
  {
    var bb := BBlock(L, b);
    d[bb := if on then SetBit(d[bb], b % BPB) else ClearBit(d[bb], b % BPB)]
  }

  lemma MarkedOk(L: Layout, d: Disk, used: set<nat>, b: nat)
    requires DiskOk(L, d) && BitmapIs(L, d, used) && b < L.size
    ensures BitmapIs(L, Marked(L, d, b, true), used + {b})
    ensures BitmapIs(L, Marked(L, d, b, false), used - {b})
  {
    var t, u := Marked(L, d, b, true), Marked(L, d, b, false);
    forall c | 0 <= c < L.size
      ensures BitAt(L, t, c) <==> c in used + {b}
      ensures BitAt(L, u, c) <==> c in used - {b}
    {
      assert BitAt(L, d, c) <==> c in used;
      SetBitAt(d[BBlock(L, b)], b % BPB, c % BPB);
    }
  }

  lemma WriteKeepsBitmap(L: Layout, d: Disk, used: set<nat>, a: nat, block: Block)
    requires DiskOk(L, d) && BitmapIs(L, d, used) && a < L.size && !(L.bmapstart <= a < L.data)
    ensures BitmapIs(L, d[a := block], used)
  {
    var t := d[a := block];
    forall c | 0 <= c < L.size ensures BitAt(L, t, c) <==> c in used {
      assert BitAt(L, d, c) <==> c in used;
    }
  }

  // ------------------------------------------------------------------
  // Inodes and the blocks they reach

  /** struct inode without the cache fields; the shorts as 16-bit values. */
  datatype Inode = Inode(typ: nat, major: nat, minor: nat, nlink: nat, size: nat, addrs: seq<nat>)

  predicate Shape(L: Layout, n: Inode) {
    && n.typ < 0x1_0000 && n.major < 0x1_0000 && n.minor < 0x1_0000 && n.nlink < 0x1_0000
    && n.size <= MAXFILE * BSIZE && |n.addrs| == NDIRECT + 1
    && forall k :: 0 <= k <= NDIRECT ==> n.addrs[k] < L.size
  }

  function Reach(d: Disk, n: Inode, k: nat): nat
    requires |n.addrs| == NDIRECT + 1 && n.addrs[IND] < |d| && k < SLOTS
  {
    if k <= IND then n.addrs[k]
    else if n.addrs[IND] == 0 then 0
    else Word(d[n.addrs[IND]], k - IND - 1)
  }

  type Files = map<nat, Inode>
  type Owner = map<nat, (nat, nat)>

  ghost predicate ShapesOk(L: Layout, files: Files) {
    forall i :: i in files ==> i < L.ninodes && Shape(L, files[i])
  }

  ghost predicate Owns(owner: Owner, b: nat, i: nat, k: nat) {
    b in owner && owner[b] == (i, k)
  }

  ghost predicate SlotOk(L: Layout, d: Disk, files: Files, owner: Owner, i: nat, k: nat)
    requires |d| == L.size && ShapesOk(L, files) && i in files && k < SLOTS
  {
    var b := Reach(d, files[i], k);
    b != 0 ==> Owns(owner, b, i, k)
  }

  ghost predicate OwnerOk(L: Layout, d: Disk, files: Files, owner: Owner, b: nat)
    requires |d| == L.size && ShapesOk(L, files) && b in owner
  {
    var (i, k) := owner[b];
    IsData(L, b) && i in files && k < SLOTS && Reach(d, files[i], k) == b
  }

  /** owner is the exact inverse of Reach, so no block is reached from two places. */
  ghost predicate FilesOk(L: Layout, d: Disk, files: Files, owner: Owner) {
    && DiskOk(L, d) && ShapesOk(L, files)
    && (forall i, k {:trigger SlotOk(L, d, files, owner, i, k)} ::
          i in files && 0 <= k < SLOTS ==> SlotOk(L, d, files, owner, i, k))
    && forall b {:trigger OwnerOk(L, d, files, owner, b)} :: b in owner ==> OwnerOk(L, d, files, owner, b)
  }

  lemma ReachedOnce(L: Layout, d: Disk, files: Files, owner: Owner, i: nat, k: nat, j: nat, m: nat)
    requires FilesOk(L, d, files, owner) && i in files && j in files && k < SLOTS && m < SLOTS
    requires Reach(d, files[i], k) == Reach(d, files[j], m) != 0
    ensures i == j && k == m
  {
    assert SlotOk(L, d, files, owner, i, k) && SlotOk(L, d, files, owner, j, m);
  }

  lemma OwnedIsData(L: Layout, d: Disk, files: Files, owner: Owner, b: nat)
    requires FilesOk(L, d, files, owner) && b in owner
    ensures IsData(L, b)
  {
    assert OwnerOk(L, d, files, owner, b);
  }

  lemma ReachOk(L: Layout, d: Disk, files: Files, owner: Owner, i: nat, k: nat)
    requires FilesOk(L, d, files, owner) && i in files && k < SLOTS
    ensures var b := Reach(d, files[i], k); b != 0 ==> Owns(owner, b, i, k) && IsData(L, b)
  {
    assert SlotOk(L, d, files, owner, i, k);
    var b := Reach(d, files[i], k);
    if b != 0 {
      assert OwnerOk(L, d, files, owner, b);
    }
  }

  // ------------------------------------------------------------------
  // Contents

  function Slot(bn: nat): nat {
    if bn < NDIRECT then bn else bn + 1
  }

  /** Block bn of a file; a block never written reads as zeroes. */
  function BlockAt(L: Layout, d: Disk, n: Inode, bn: nat): Block
    requires |d| == L.size && Shape(L, n) && bn < MAXFILE
  {
    var b := Reach(d, n, Slot(bn));
    if b == 0 || b >= |d| then Zero() else d[b]
  }

  function ByteAt(L: Layout, d: Disk, n: Inode, p: nat): Byte
    requires |d| == L.size && Shape(L, n) && p < MAXFILE * BSIZE
  {
    BlockAt(L, d, n, p / BSIZE)[p % BSIZE]
  }

  /** The file as a byte sequence. */
  function Content(L: Layout, d: Disk, n: Inode): (c: seq<Byte>)
    requires |d| == L.size && Shape(L, n)
    ensures |c| == n.size
  {
    seq(n.size, p requires 0 <= p < n.size => ByteAt(L, d, n, p))
  }

  ghost predicate SameFile(L: Layout, d: Disk, n: Inode, e: Disk, m: Inode)
    requires |d| == |e| == L.size && Shape(L, n) && Shape(L, m)
  {
    forall bn {:trigger BlockAt(L, e, m, bn)} :: 0 <= bn < MAXFILE ==> BlockAt(L, e, m, bn) == BlockAt(L, d, n, bn)
  }

  /** No block below the size is unmapped. */
  ghost predicate NoHoles(d: Disk, n: Inode)
    requires |n.addrs| == NDIRECT + 1 && n.addrs[IND] < |d|
  {
    forall bn {:trigger Reach(d, n, Slot(bn))} :: 0 <= bn < MAXFILE && bn * BSIZE < n.size ==> Reach(d, n, Slot(bn)) != 0
  }

  // ------------------------------------------------------------------
  // What one store does to the files

  ghost predicate NotIndirect(owner: Owner, a: nat) {
    a in owner ==> owner[a].1 != IND
  }

  lemma ReachFrame(L: Layout, d: Disk, files: Files, owner: Owner, a: nat, block: Block, i: nat, k: nat)
    requires FilesOk(L, d, files, owner) && 0 < a < L.size && NotIndirect(owner, a) && i in files && k < SLOTS
    ensures Reach(d[a := block], files[i], k) == Reach(d, files[i], k)
  {
    assert SlotOk(L, d, files, owner, i, IND);
  }

  /** A store to any block that is not an indirect block changes no block map. */
  lemma StoreOk(L: Layout, d: Disk, files: Files, owner: Owner, a: nat, block: Block)
    requires FilesOk(L, d, files, owner) && 0 < a < L.size && NotIndirect(owner, a)
    ensures FilesOk(L, d[a := block], files, owner)
  {
    var e := d[a := block];
    forall i, k | i in files && 0 <= k < SLOTS ensures SlotOk(L, e, files, owner, i, k) {
      ReachFrame(L, d, files, owner, a, block, i, k);
      assert SlotOk(L, d, files, owner, i, k);
    }
    forall b | b in owner ensures OwnerOk(L, e, files, owner, b) {
      assert OwnerOk(L, d, files, owner, b);
      ReachFrame(L, d, files, owner, a, block, owner[b].0, owner[b].1);
    }
  }

  /** A store to a block the file does not reach leaves its bytes alone. */
  lemma StoreElsewhere(L: Layout, d: Disk, files: Files, owner: Owner, a: nat, block: Block, i: nat, bn: nat)
    requires FilesOk(L, d, files, owner) && 0 < a < L.size && NotIndirect(owner, a) && i in files && bn < MAXFILE
    requires !Owns(owner, a, i, Slot(bn))
    ensures BlockAt(L, d[a := block], files[i], bn) == BlockAt(L, d, files[i], bn)
  {
    ReachFrame(L, d, files, owner, a, block, i, Slot(bn));
    ReachOk(L, d, files, owner, i, Slot(bn));
  }

  lemma StoreHere(L: Layout, d: Disk, files: Files, owner: Owner, a: nat, block: Block, i: nat, bn: nat)
    requires FilesOk(L, d, files, owner) && 0 < a < L.size && i in files && bn < MAXFILE
    requires Owns(owner, a, i, Slot(bn))
    ensures BlockAt(L, d[a := block], files[i], bn) == block
  {
    assert OwnerOk(L, d, files, owner, a);
    ReachFrame(L, d, files, owner, a, block, i, Slot(bn));
  }

  // ------------------------------------------------------------------
  // bmap: a new block takes an empty slot

  function WithAddr(files: Files, i: nat, k: nat, b: nat): Files
    requires i in files && k < |files[i].addrs|
  {
    files[i := files[i].(addrs := files[i].addrs[k := b])]
  }

  ghost predicate Fresh(L: Layout, d: Disk, owner: Owner, b: nat)
    requires |d| == L.size
  {
    IsData(L, b) && b !in owner && d[b] == Zero()
  }

  lemma DirectReach(L: Layout, d: Disk, files: Files, owner: Owner, i: nat, k: nat, b: nat, j: nat, m: nat)
    requires FilesOk(L, d, files, owner) && Fresh(L, d, owner, b) && i in files && k <= IND && files[i].addrs[k] == 0
    requires j in files && m < SLOTS
    ensures ShapesOk(L, WithAddr(files, i, k, b))
    ensures Reach(d, WithAddr(files, i, k, b)[j], m) == if (j, m) == (i, k) then b else Reach(d, files[j], m)
  {
    if j == i && k == IND && m > IND {
      ZeroWord(m - IND - 1);
    }
  }

  lemma AttachDirect(L: Layout, d: Disk, files: Files, owner: Owner, i: nat, k: nat, b: nat)
    requires FilesOk(L, d, files, owner) && Fresh(L, d, owner, b) && i in files && k <= IND && files[i].addrs[k] == 0
    ensures FilesOk(L, d, WithAddr(files, i, k, b), owner[b := (i, k)])
  {
    var files', owner' := WithAddr(files, i, k, b), owner[b := (i, k)];
    DirectReach(L, d, files, owner, i, k, b, i, k);
    forall j, m | j in files' && 0 <= m < SLOTS ensures SlotOk(L, d, files', owner', j, m) {
      DirectReach(L, d, files, owner, i, k, b, j, m);
      ReachOk(L, d, files, owner, j, m);
    }
    forall c | c in owner' ensures OwnerOk(L, d, files', owner', c) {
      if c != b {
        assert OwnerOk(L, d, files, owner, c);
        DirectReach(L, d, files, owner, i, k, b, owner[c].0, owner[c].1);
        ReachOk(L, d, files, owner, i, k);
      }
    }
  }

  lemma DirectSame(L: Layout, d: Disk, files: Files, owner: Owner, i: nat, k: nat, b: nat, j: nat)
    requires FilesOk(L, d, files, owner) && Fresh(L, d, owner, b) && i in files && k <= IND && files[i].addrs[k] == 0
    requires j in files
    ensures Shape(L, WithAddr(files, i, k, b)[j]) && SameFile(L, d, files[j], d, WithAddr(files, i, k, b)[j])
  {
    DirectReach(L, d, files, owner, i, k, b, j, 0);
    forall bn | 0 <= bn < MAXFILE
      ensures BlockAt(L, d, WithAddr(files, i, k, b)[j], bn) == BlockAt(L, d, files[j], bn)
    {
      DirectReach(L, d, files, owner, i, k, b, j, Slot(bn));
    }
  }

  /** a[bn] = addr in the indirect block. */
  function WithEntry(d: Disk, t: nat, k: nat, b: nat): Disk
    requires t < |d| && IND < k < SLOTS && b < U32
  {
    d[t := WithWord(d[t], k - IND - 1, b)]
  }

  lemma IndirectReach(L: Layout, d: Disk, files: Files, owner: Owner, i: nat, k: nat, b: nat, j: nat, m: nat)
    requires FilesOk(L, d, files, owner) && Fresh(L, d, owner, b) && i in files && IND < k < SLOTS
    requires files[i].addrs[IND] != 0 && Reach(d, files[i], k) == 0
    requires j in files && m < SLOTS
    ensures Reach(WithEntry(d, files[i].addrs[IND], k, b), files[j], m)
            == if (j, m) == (i, k) then b else Reach(d, files[j], m)
  {
    var t := files[i].addrs[IND];
    if m > IND && files[j].addrs[IND] == t {
      assert SlotOk(L, d, files, owner, i, IND) && SlotOk(L, d, files, owner, j, IND);
      WordRoundTrip(d[t], k - IND - 1, b, m - IND - 1);
    }
  }

  lemma AttachIndirect(L: Layout, d: Disk, files: Files, owner: Owner, i: nat, k: nat, b: nat)
    requires FilesOk(L, d, files, owner) && Fresh(L, d, owner, b) && i in files && IND < k < SLOTS
    requires files[i].addrs[IND] != 0 && Reach(d, files[i], k) == 0
    ensures FilesOk(L, WithEntry(d, files[i].addrs[IND], k, b), files, owner[b := (i, k)])
  {
    var e, owner' := WithEntry(d, files[i].addrs[IND], k, b), owner[b := (i, k)];
    forall j, m | j in files && 0 <= m < SLOTS ensures SlotOk(L, e, files, owner', j, m) {
      IndirectReach(L, d, files, owner, i, k, b, j, m);
      ReachOk(L, d, files, owner, j, m);
    }
    forall c | c in owner' ensures OwnerOk(L, e, files, owner', c) {
      if c == b {
        IndirectReach(L, d, files, owner, i, k, b, i, k);
      } else {
        assert OwnerOk(L, d, files, owner, c);
        IndirectReach(L, d, files, owner, i, k, b, owner[c].0, owner[c].1);
      }
    }
  }

  lemma IndirectSame(L: Layout, d: Disk, files: Files, owner: Owner, i: nat, k: nat, b: nat, j: nat)
    requires FilesOk(L, d, files, owner) && Fresh(L, d, owner, b) && i in files && IND < k < SLOTS
    requires files[i].addrs[IND] != 0 && Reach(d, files[i], k) == 0
    requires j in files
    ensures SameFile(L, d, files[j], WithEntry(d, files[i].addrs[IND], k, b), files[j])
  {
    var e := WithEntry(d, files[i].addrs[IND], k, b);
    assert SlotOk(L, d, files, owner, i, IND);
    forall bn | 0 <= bn < MAXFILE ensures BlockAt(L, e, files[j], bn) == BlockAt(L, d, files[j], bn) {
      IndirectReach(L, d, files, owner, i, k, b, j, Slot(bn));
      assert SlotOk(L, d, files, owner, j, Slot(bn));
    }
  }

  // ------------------------------------------------------------------
  // What bmap may do: map more blocks, change no byte of any file

  ghost predicate MapsKept(L: Layout, d: Disk, n: Inode, e: Disk, m: Inode)
    requires |d| == |e| == L.size && Shape(L, n) && Shape(L, m)
  {
    forall k {:trigger Reach(e, m, k)} :: 0 <= k < SLOTS && Reach(d, n, k) != 0 ==> Reach(e, m, k) == Reach(d, n, k)
  }

  /** Nothing but inode i's block map and bytes has changed, and what it maps stays mapped. */
  ghost predicate Kept(L: Layout, d: Disk, files: Files, e: Disk, files': Files, i: nat) {
    && DiskOk(L, d) && DiskOk(L, e) && ShapesOk(L, files) && ShapesOk(L, files')
    && files'.Keys == files.Keys && i in files
    && files'[i] == files[i].(addrs := files'[i].addrs)
    && (forall j :: j in files && j != i ==> files'[j] == files[j] && SameFile(L, d, files[j], e, files'[j]))
    && MapsKept(L, d, files[i], e, files'[i])
    && e[..L.bmapstart] == d[..L.bmapstart]
  }

  ghost predicate Extends(L: Layout, d: Disk, files: Files, e: Disk, files': Files, i: nat) {
    Kept(L, d, files, e, files', i) && SameFile(L, d, files[i], e, files'[i])
  }

  lemma ExtendsSelf(L: Layout, d: Disk, files: Files, i: nat)
    requires DiskOk(L, d) && ShapesOk(L, files) && i in files
    ensures Extends(L, d, files, d, files, i)
  {
  }

  lemma SameTrans(L: Layout, d: Disk, n: Inode, e: Disk, m: Inode, c: Disk, q: Inode)
    requires |d| == |e| == |c| == L.size && Shape(L, n) && Shape(L, m) && Shape(L, q)
    requires SameFile(L, d, n, e, m) && SameFile(L, e, m, c, q)
    ensures SameFile(L, d, n, c, q)
  {
    forall bn | 0 <= bn < MAXFILE ensures BlockAt(L, c, q, bn) == BlockAt(L, d, n, bn) {
      assert BlockAt(L, e, m, bn) == BlockAt(L, d, n, bn);
    }
  }

  lemma KeptTrans(L: Layout, d: Disk, f: Files, e: Disk, g: Files, c: Disk, h: Files, i: nat)
    requires Kept(L, d, f, e, g, i) && Kept(L, e, g, c, h, i)
    ensures Kept(L, d, f, c, h, i)
  {
    forall j | j in f && j != i ensures h[j] == f[j] && SameFile(L, d, f[j], c, h[j]) {
      SameTrans(L, d, f[j], e, g[j], c, h[j]);
    }
    forall k | 0 <= k < SLOTS && Reach(d, f[i], k) != 0 ensures Reach(c, h[i], k) == Reach(d, f[i], k) {
      assert Reach(e, g[i], k) == Reach(d, f[i], k);
    }
  }

  lemma ExtendsTrans(L: Layout, d: Disk, f: Files, e: Disk, g: Files, c: Disk, h: Files, i: nat)
    requires Extends(L, d, f, e, g, i) && Extends(L, e, g, c, h, i)
    ensures Extends(L, d, f, c, h, i)
  {
    KeptTrans(L, d, f, e, g, c, h, i);
    SameTrans(L, d, f[i], e, g[i], c, h[i]);
  }

  /** The store balloc makes: an unowned block of zeroes, and its bit. */
  ghost predicate OnlyFreed(L: Layout, d: Disk, e: Disk, b: nat)
    requires DiskOk(L, d)
  {
    |e| == |d| && forall c :: 0 <= c < |d| && c != b && !(L.bmapstart <= c < L.data) ==> e[c] == d[c]
  }

  lemma ReachUnowned(L: Layout, d: Disk, e: Disk, files: Files, owner: Owner, b: nat, j: nat, m: nat)
    requires FilesOk(L, d, files, owner) && OnlyFreed(L, d, e, b) && b !in owner && j in files && m < SLOTS
    ensures Reach(e, files[j], m) == Reach(d, files[j], m)
  {
    ReachOk(L, d, files, owner, j, IND);
  }

  lemma UnownedOk(L: Layout, d: Disk, e: Disk, files: Files, owner: Owner, b: nat)
    requires FilesOk(L, d, files, owner) && OnlyFreed(L, d, e, b) && b !in owner
    ensures FilesOk(L, e, files, owner)
    ensures forall j :: j in files ==> SameFile(L, d, files[j], e, files[j])
  {
    forall j, m | j in files && 0 <= m < SLOTS ensures SlotOk(L, e, files, owner, j, m) {
      ReachUnowned(L, d, e, files, owner, b, j, m);
      assert SlotOk(L, d, files, owner, j, m);
    }
    forall c | c in owner ensures OwnerOk(L, e, files, owner, c) {
      assert OwnerOk(L, d, files, owner, c);
      ReachUnowned(L, d, e, files, owner, b, owner[c].0, owner[c].1);
    }
    forall j, bn | j in files && 0 <= bn < MAXFILE ensures BlockAt(L, e, files[j], bn) == BlockAt(L, d, files[j], bn) {
      ReachUnowned(L, d, e, files, owner, b, j, Slot(bn));
      ReachOk(L, d, files, owner, j, Slot(bn));
    }
  }

  lemma UnownedExtends(L: Layout, d: Disk, e: Disk, files: Files, owner: Owner, b: nat, i: nat)
    requires FilesOk(L, d, files, owner) && OnlyFreed(L, d, e, b) && b !in owner && IsData(L, b) && i in files
    ensures FilesOk(L, e, files, owner) && Extends(L, d, files, e, files, i)
  {
    UnownedOk(L, d, e, files, owner, b);
    forall k | 0 <= k < SLOTS ensures Reach(e, files[i], k) == Reach(d, files[i], k) {
      ReachUnowned(L, d, e, files, owner, b, i, k);
    }
  }

  lemma DirectExtends(L: Layout, d: Disk, files: Files, owner: Owner, i: nat, k: nat, b: nat)
    requires FilesOk(L, d, files, owner) && Fresh(L, d, owner, b) && i in files && k <= IND && files[i].addrs[k] == 0
    ensures Extends(L, d, files, d, WithAddr(files, i, k, b), i)
  {
    var files' := WithAddr(files, i, k, b);
    DirectReach(L, d, files, owner, i, k, b, i, k);
    forall j | j in files ensures SameFile(L, d, files[j], d, files'[j]) {
      DirectSame(L, d, files, owner, i, k, b, j);
    }
    forall m | 0 <= m < SLOTS && Reach(d, files[i], m) != 0 ensures Reach(d, files'[i], m) == Reach(d, files[i], m) {
      DirectReach(L, d, files, owner, i, k, b, i, m);
    }
  }

  lemma IndirectExtends(L: Layout, d: Disk, files: Files, owner: Owner, i: nat, k: nat, b: nat)
    requires FilesOk(L, d, files, owner) && Fresh(L, d, owner, b) && i in files && IND < k < SLOTS
    requires files[i].addrs[IND] != 0 && Reach(d, files[i], k) == 0
    ensures Extends(L, d, files, WithEntry(d, files[i].addrs[IND], k, b), files, i)
  {
    var e := WithEntry(d, files[i].addrs[IND], k, b);
    ReachOk(L, d, files, owner, i, IND);
    forall j | j in files ensures SameFile(L, d, files[j], e, files[j]) {
      IndirectSame(L, d, files, owner, i, k, b, j);
    }
    forall m | 0 <= m < SLOTS && Reach(d, files[i], m) != 0 ensures Reach(e, files[i], m) == Reach(d, files[i], m) {
      IndirectReach(L, d, files, owner, i, k, b, i, m);
    }
  }
}
