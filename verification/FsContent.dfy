/** Writing into the bytes of a file, and the inode on disk. */
module FsContent {
  import opened FsBlocks
  import opened FsFiles

  // ------------------------------------------------------------------
  // Bytes

  lemma SameBytes(L: Layout, d: Disk, n: Inode, e: Disk, m: Inode, p: nat)
    requires |d| == |e| == L.size && Shape(L, n) && Shape(L, m) && SameFile(L, d, n, e, m) && p < MAXFILE * BSIZE
    ensures ByteAt(L, e, m, p) == ByteAt(L, d, n, p)
  {
    assert BlockAt(L, e, m, p / BSIZE) == BlockAt(L, d, n, p / BSIZE);
  }

  lemma SameContent(L: Layout, d: Disk, n: Inode, e: Disk, m: Inode)
    requires |d| == |e| == L.size && Shape(L, n) && Shape(L, m) && SameFile(L, d, n, e, m) && n.size == m.size
    ensures Content(L, e, m) == Content(L, d, n)
  {
    forall p | 0 <= p < n.size ensures Content(L, e, m)[p] == Content(L, d, n)[p] {
      SameBytes(L, d, n, e, m, p);
    }
  }

  /** memmove(bp->data + o, chunk, |chunk|). */
  function Spliced(b: Block, o: nat, chunk: seq<Byte>): Block
    requires o + |chunk| <= BSIZE
  {
    b[..o] + chunk + b[o + |chunk|..]
  }

  /** The file (e, m) is the file (d, n) with src written at off. */
  ghost predicate Overwrites(L: Layout, d: Disk, n: Inode, e: Disk, m: Inode, off: nat, src: seq<Byte>)
    requires |d| == |e| == L.size && Shape(L, n) && Shape(L, m)
  {
    forall p {:trigger ByteAt(L, e, m, p)} :: 0 <= p < MAXFILE * BSIZE ==>
      ByteAt(L, e, m, p) == if off <= p < off + |src| then src[p - off] else ByteAt(L, d, n, p)
  }

  /** One round of writei: a chunk inside block bn. */
  lemma ChunkOk(L: Layout, d: Disk, n: Inode, e: Disk, m: Inode, off: nat, chunk: seq<Byte>)
    requires |d| == |e| == L.size && Shape(L, n) && Shape(L, m)
    requires off < MAXFILE * BSIZE && off % BSIZE + |chunk| <= BSIZE
    requires BlockAt(L, e, m, off / BSIZE) == Spliced(BlockAt(L, d, n, off / BSIZE), off % BSIZE, chunk)
    requires forall bn {:trigger BlockAt(L, e, m, bn)} ::
               0 <= bn < MAXFILE && bn != off / BSIZE ==> BlockAt(L, e, m, bn) == BlockAt(L, d, n, bn)
    ensures Overwrites(L, d, n, e, m, off, chunk)
  {
    forall p | 0 <= p < MAXFILE * BSIZE
      ensures ByteAt(L, e, m, p) == if off <= p < off + |chunk| then chunk[p - off] else ByteAt(L, d, n, p)
    {
      assert p == p / BSIZE * BSIZE + p % BSIZE && off == off / BSIZE * BSIZE + off % BSIZE;
      if p / BSIZE == off / BSIZE {
      } else {
        assert BlockAt(L, e, m, p / BSIZE) == BlockAt(L, d, n, p / BSIZE);
      }
    }
  }

  /** The store of one round, as the files see it. */
  lemma ChunkStore(L: Layout, d: Disk, files: Files, owner: Owner, i: nat, off: nat, chunk: seq<Byte>)
    requires FilesOk(L, d, files, owner) && i in files && off < MAXFILE * BSIZE && off % BSIZE + |chunk| <= BSIZE
    requires Reach(d, files[i], Slot(off / BSIZE)) != 0
    ensures var a := Reach(d, files[i], Slot(off / BSIZE));
            && IsData(L, a) && FilesOk(L, d[a := Spliced(d[a], off % BSIZE, chunk)], files, owner)
            && Kept(L, d, files, d[a := Spliced(d[a], off % BSIZE, chunk)], files, i)
            && Overwrites(L, d, files[i], d[a := Spliced(d[a], off % BSIZE, chunk)], files[i], off, chunk)
  {
    var bn := off / BSIZE;
    var a := Reach(d, files[i], Slot(bn));
    ReachOk(L, d, files, owner, i, Slot(bn));
    var block := Spliced(d[a], off % BSIZE, chunk);
    StoreOk(L, d, files, owner, a, block);
    StoreHere(L, d, files, owner, a, block, i, bn);
    var e := d[a := block];
    forall j, m | j in files && 0 <= m < MAXFILE && (j, m) != (i, bn)
      ensures BlockAt(L, e, files[j], m) == BlockAt(L, d, files[j], m)
    {
      StoreElsewhere(L, d, files, owner, a, block, j, m);
    }
    forall k | 0 <= k < SLOTS ensures Reach(e, files[i], k) == Reach(d, files[i], k) {
      ReachFrame(L, d, files, owner, a, block, i, k);
    }
    assert BlockAt(L, d, files[i], bn) == d[a];
    ChunkOk(L, d, files[i], e, files[i], off, chunk);
  }

  /** Rounds add up. */
  lemma OverwriteMore(L: Layout, d: Disk, n: Inode, e: Disk, m: Inode, c: Disk, q: Inode, off: nat, src: seq<Byte>, more: seq<Byte>)
    requires |d| == |e| == |c| == L.size && Shape(L, n) && Shape(L, m) && Shape(L, q)
    requires Overwrites(L, d, n, e, m, off, src) && Overwrites(L, e, m, c, q, off + |src|, more)
    ensures Overwrites(L, d, n, c, q, off, src + more)
  {
    forall p | 0 <= p < MAXFILE * BSIZE
      ensures ByteAt(L, c, q, p) == if off <= p < off + |src + more| then (src + more)[p - off] else ByteAt(L, d, n, p)
    {
      assert ByteAt(L, e, m, p) == if off <= p < off + |src| then src[p - off] else ByteAt(L, d, n, p);
    }
  }

  lemma MapKept(L: Layout, d: Disk, n: Inode, e: Disk, m: Inode, k: nat)
    requires |d| == |e| == L.size && Shape(L, n) && Shape(L, m) && MapsKept(L, d, n, e, m) && k < SLOTS
    requires Reach(d, n, k) != 0
    ensures Reach(e, m, k) == Reach(d, n, k)
  {
  }

  /** One round of readi. */
  lemma ChunkRead(L: Layout, d: Disk, n: Inode, e: Disk, m: Inode, at: nat, len: nat)
    requires |d| == |e| == L.size && Shape(L, n) && Shape(L, m) && SameFile(L, d, n, e, m)
    requires at + len <= n.size && at < n.size && at % BSIZE + len <= BSIZE
    ensures BlockAt(L, e, m, at / BSIZE)[at % BSIZE..at % BSIZE + len] == Content(L, d, n)[at..at + len]
  {
    var block, o := BlockAt(L, e, m, at / BSIZE), at % BSIZE;
    assert block == BlockAt(L, d, n, at / BSIZE);
    var x, y := block[o..o + len], Content(L, d, n)[at..at + len];
    forall k | 0 <= k < len ensures x[k] == y[k] {
      assert (at + k) / BSIZE == at / BSIZE && (at + k) % BSIZE == o + k;
      assert y[k] == ByteAt(L, d, n, at + k);
    }
  }

  lemma SameOverwrite(L: Layout, d: Disk, n: Inode, e: Disk, m: Inode, c: Disk, q: Inode, off: nat, src: seq<Byte>)
    requires |d| == |e| == |c| == L.size && Shape(L, n) && Shape(L, m) && Shape(L, q)
    requires SameFile(L, d, n, e, m) && Overwrites(L, e, m, c, q, off, src)
    ensures Overwrites(L, d, n, c, q, off, src)
  {
    forall p | 0 <= p < MAXFILE * BSIZE
      ensures ByteAt(L, c, q, p) == if off <= p < off + |src| then src[p - off] else ByteAt(L, d, n, p)
    {
      SameBytes(L, d, n, e, m, p);
    }
  }

  lemma OverwriteSame(L: Layout, d: Disk, n: Inode, e: Disk, m: Inode, c: Disk, q: Inode, off: nat, src: seq<Byte>)
    requires |d| == |e| == |c| == L.size && Shape(L, n) && Shape(L, m) && Shape(L, q)
    requires Overwrites(L, d, n, e, m, off, src) && SameFile(L, e, m, c, q)
    ensures Overwrites(L, d, n, c, q, off, src)
  {
    forall p | 0 <= p < MAXFILE * BSIZE
      ensures ByteAt(L, c, q, p) == if off <= p < off + |src| then src[p - off] else ByteAt(L, d, n, p)
    {
      SameBytes(L, e, m, c, q, p);
      assert ByteAt(L, e, m, p) == if off <= p < off + |src| then src[p - off] else ByteAt(L, d, n, p);
    }
  }

  /** The byte sequence after writing src at off. */
  function Splice(c: seq<Byte>, off: nat, src: seq<Byte>): seq<Byte>
    requires off <= |c|
  {
    c[..off] + src + if off + |src| < |c| then c[off + |src|..] else []
  }

  /** Reading back what was written, and the bytes around it. */
  lemma ReadBack(c: seq<Byte>, off: nat, src: seq<Byte>)
    requires off <= |c|
    ensures var t := Splice(c, off, src);
            && |t| == (if off + |src| > |c| then off + |src| else |c|)
            && t[off..off + |src|] == src && t[..off] == c[..off]
            && forall p :: off + |src| <= p < |c| ==> t[p] == c[p]
  {
  }

  lemma OverwriteContent(L: Layout, d: Disk, n: Inode, e: Disk, m: Inode, off: nat, src: seq<Byte>)
    requires |d| == |e| == L.size && Shape(L, n) && Shape(L, m) && off <= n.size
    requires m.size == (if off + |src| > n.size then off + |src| else n.size)
    requires Overwrites(L, d, n, e, m, off, src)
    ensures Content(L, e, m) == Splice(Content(L, d, n), off, src)
  {
    forall p | 0 <= p < m.size ensures Content(L, e, m)[p] == Splice(Content(L, d, n), off, src)[p] {
      assert ByteAt(L, e, m, p) == if off <= p < off + |src| then src[p - off] else ByteAt(L, d, n, p);
    }
  }

  // ------------------------------------------------------------------
  // The inode on disk

  const DWORDS: nat := 16

  /** IBLOCK. */
  function IBlock(L: Layout, i: nat): (b: nat)
    requires LayoutOk(L) && i < L.ninodes
    ensures L.inodestart <= b < L.bmapstart
  {
    L.inodestart + i / IPB
  }

  /** struct dinode as sixteen words. */
  function InodeWord(n: Inode, w: nat): nat
    requires w < DWORDS && |n.addrs| == NDIRECT + 1
  {
    if w == 0 then n.typ + 0x1_0000 * n.major
    else if w == 1 then n.minor + 0x1_0000 * n.nlink
    else if w == 2 then n.size
    else n.addrs[w - 3]
  }

  function DiskWord(L: Layout, d: Disk, i: nat, w: nat): nat
    requires DiskOk(L, d) && i < L.ninodes && w < DWORDS
  {
    Word(d[IBlock(L, i)], i % IPB * DWORDS + w)
  }

  /** The inode on disk is the one in memory. */
  ghost predicate Flushed(L: Layout, d: Disk, i: nat, n: Inode)
    requires DiskOk(L, d) && i < L.ninodes && |n.addrs| == NDIRECT + 1
  {
    forall w {:trigger DiskWord(L, d, i, w)} :: 0 <= w < DWORDS ==> DiskWord(L, d, i, w) == InodeWord(n, w)
  }

  /** What is on disk determines the inode ilock reads back. */
  lemma FlushedDecides(L: Layout, d: Disk, i: nat, n: Inode, m: Inode)
    requires DiskOk(L, d) && i < L.ninodes && Shape(L, n) && Shape(L, m)
    requires Flushed(L, d, i, n) && Flushed(L, d, i, m)
    ensures n == m
  {
    assert DiskWord(L, d, i, 0) == InodeWord(n, 0) == InodeWord(m, 0);
    assert DiskWord(L, d, i, 1) == InodeWord(n, 1) == InodeWord(m, 1);
    assert DiskWord(L, d, i, 2) == InodeWord(n, 2) == InodeWord(m, 2);
    forall k | 0 <= k <= NDIRECT ensures n.addrs[k] == m.addrs[k] {
      assert DiskWord(L, d, i, k + 3) == InodeWord(n, k + 3) == InodeWord(m, k + 3);
    }
  }

  lemma FlushedFrame(L: Layout, d: Disk, e: Disk, i: nat, n: Inode)
    requires DiskOk(L, d) && DiskOk(L, e) && i < L.ninodes && |n.addrs| == NDIRECT + 1
    requires e[..L.bmapstart] == d[..L.bmapstart]
    ensures Flushed(L, d, i, n) <==> Flushed(L, e, i, n)
  {
    var b := IBlock(L, i);
    assert e[b] == e[..L.bmapstart][b] == d[..L.bmapstart][b] == d[b];
    forall w | 0 <= w < DWORDS ensures DiskWord(L, e, i, w) == DiskWord(L, d, i, w) {
    }
  }

  lemma WithSize(L: Layout, d: Disk, files: Files, owner: Owner, i: nat, size: nat)
    requires FilesOk(L, d, files, owner) && i in files && size <= MAXFILE * BSIZE
    ensures FilesOk(L, d, files[i := files[i].(size := size)], owner)
    ensures SameFile(L, d, files[i], d, files[i].(size := size))
  {
    var files' := files[i := files[i].(size := size)];
    forall j, m | j in files' && 0 <= m < SLOTS ensures SlotOk(L, d, files', owner, j, m) {
      assert SlotOk(L, d, files, owner, j, m);
    }
    forall b | b in owner ensures OwnerOk(L, d, files', owner, b) {
      assert OwnerOk(L, d, files, owner, b);
    }
  }

  // ------------------------------------------------------------------
  // What writei promises about the other inodes and about holes

  /** No other inode changes, in memory, in its bytes or on disk. */
  ghost predicate OthersKept(L: Layout, d: Disk, f: Files, e: Disk, g: Files, i: nat) {
    && DiskOk(L, d) && DiskOk(L, e) && ShapesOk(L, f) && ShapesOk(L, g) && g.Keys == f.Keys
    && forall j :: j in f && j != i ==>
         && g[j] == f[j] && SameFile(L, d, f[j], e, g[j])
         && (Flushed(L, e, j, g[j]) <==> Flushed(L, d, j, f[j]))
  }

  lemma KeptOthers(L: Layout, d: Disk, f: Files, e: Disk, g: Files, i: nat)
    requires Kept(L, d, f, e, g, i)
    ensures OthersKept(L, d, f, e, g, i)
  {
    forall j | j in f ensures Flushed(L, e, j, f[j]) <==> Flushed(L, d, j, f[j]) {
      FlushedFrame(L, d, e, j, f[j]);
    }
  }

  lemma OthersTrans(L: Layout, d: Disk, f: Files, e: Disk, g: Files, c: Disk, h: Files, i: nat)
    requires OthersKept(L, d, f, e, g, i) && OthersKept(L, e, g, c, h, i)
    ensures OthersKept(L, d, f, c, h, i)
  {
    forall j | j in f && j != i ensures SameFile(L, d, f[j], c, h[j]) {
      SameTrans(L, d, f[j], e, g[j], c, h[j]);
    }
  }

  /** Every block that starts in [from, to) is mapped. */
  ghost predicate Mapped(d: Disk, n: Inode, from: nat, to: nat)
    requires |n.addrs| == NDIRECT + 1 && n.addrs[IND] < |d|
  {
    forall bn {:trigger Reach(d, n, Slot(bn))} ::
      0 <= bn < MAXFILE && from <= bn * BSIZE < to ==> Reach(d, n, Slot(bn)) != 0
  }

  lemma MappedMore(L: Layout, d: Disk, n: Inode, e: Disk, m: Inode, from: nat, at: nat, to: nat)
    requires |d| == |e| == L.size && Shape(L, n) && Shape(L, m) && MapsKept(L, d, n, e, m)
    requires Mapped(d, n, from, at) && from <= at < to && to <= at / BSIZE * BSIZE + BSIZE && at < MAXFILE * BSIZE
    requires Reach(e, m, Slot(at / BSIZE)) != 0
    ensures Mapped(e, m, from, to)
  {
    forall bn | 0 <= bn < MAXFILE && from <= bn * BSIZE < to ensures Reach(e, m, Slot(bn)) != 0 {
      if bn * BSIZE < at {
        assert Reach(d, n, Slot(bn)) != 0;
        MapKept(L, d, n, e, m, Slot(bn));
      } else {
        assert bn == at / BSIZE;
      }
    }
  }

  /** A round of writei after the rounds for src[..tot]. */
  lemma OverwriteRound(L: Layout, d0: Disk, n0: Inode, d: Disk, n: Inode, e: Disk, q: Inode, off: nat, src: seq<Byte>, tot: nat, m: nat)
    requires |d0| == |d| == |e| == L.size && Shape(L, n0) && Shape(L, n) && Shape(L, q) && tot + m <= |src|
    requires Overwrites(L, d0, n0, d, n, off, src[..tot])
    requires Overwrites(L, d, n, e, q, off + tot, src[tot..tot + m])
    ensures Overwrites(L, d0, n0, e, q, off, src[..tot + m])
  {
    OverwriteMore(L, d0, n0, d, n, e, q, off, src[..tot], src[tot..tot + m]);
    assert src[..tot] + src[tot..tot + m] == src[..tot + m];
  }

  /** How far readi has come. */
  ghost predicate ReadSoFar(L: Layout, d: Disk, n: Inode, off: nat, data: seq<Byte>)
    requires |d| == L.size && Shape(L, n)
  {
    off + |data| <= n.size && data == Content(L, d, n)[off..off + |data|]
  }

  lemma ReadMore(L: Layout, d0: Disk, n0: Inode, d: Disk, n: Inode, off: nat, data: seq<Byte>, chunk: seq<Byte>)
    requires |d0| == |d| == L.size && Shape(L, n0) && Shape(L, n) && SameFile(L, d0, n0, d, n) && n.size == n0.size
    requires ReadSoFar(L, d0, n0, off, data) && ReadSoFar(L, d, n, off + |data|, chunk)
    ensures ReadSoFar(L, d0, n0, off, data + chunk)
  {
    SameContent(L, d0, n0, d, n);
  }

  /** How far writei has come: src[..tot] is in the file and nothing else has changed. */
  ghost predicate Written(L: Layout, d0: Disk, f0: Files, d: Disk, f: Files, i: nat, off: nat, src: seq<Byte>, tot: nat)
    requires tot <= |src|
  {
    && Kept(L, d0, f0, d, f, i)
    && Overwrites(L, d0, f0[i], d, f[i], off, src[..tot])
    && Mapped(d, f[i], off, off + tot)
  }

  lemma WrittenMore(L: Layout, d0: Disk, f0: Files, d: Disk, f: Files, e: Disk, g: Files, i: nat, off: nat, src: seq<Byte>, tot: nat, m: nat)
    requires 0 < m && tot + m <= |src| && off + |src| <= MAXFILE * BSIZE && (off + tot) % BSIZE + m <= BSIZE
    requires Written(L, d0, f0, d, f, i, off, src, tot) && Kept(L, d, f, e, g, i)
    requires Overwrites(L, d, f[i], e, g[i], off + tot, src[tot..tot + m])
    requires Reach(e, g[i], Slot((off + tot) / BSIZE)) != 0
    ensures Written(L, d0, f0, e, g, i, off, src, tot + m)
  {
    KeptTrans(L, d0, f0, d, f, e, g, i);
    OverwriteRound(L, d0, f0[i], d, f[i], e, g[i], off, src, tot, m);
    assert off + tot + m <= (off + tot) / BSIZE * BSIZE + BSIZE;
    MappedMore(L, d, f[i], e, g[i], off, off + tot, off + tot + m);
  }

  lemma WordSmall(L: Layout, n: Inode, w: nat)
    requires LayoutOk(L) && Shape(L, n) && w < DWORDS
    ensures InodeWord(n, w) < U32
  {
  }

  /** r is the block with struct dinode number slot replaced by n. */
  ghost predicate Packed(block: Block, slot: nat, n: Inode, r: Block)
    requires slot < IPB && |n.addrs| == NDIRECT + 1
  {
    forall x {:trigger Word(r, x)} :: 0 <= x < NWORDS ==>
      Word(r, x) == if slot * DWORDS <= x < slot * DWORDS + DWORDS then InodeWord(n, x - slot * DWORDS) else Word(block, x)
  }

  lemma PackedWords(L: Layout, d: Disk, i: nat, n: Inode, block: Block)
    requires DiskOk(L, d) && i < L.ninodes && |n.addrs| == NDIRECT + 1 && Packed(d[IBlock(L, i)], i % IPB, n, block)
    ensures var e := d[IBlock(L, i) := block];
            forall j, x {:trigger DiskWord(L, e, j, x)} :: 0 <= j < L.ninodes && 0 <= x < DWORDS ==>
              DiskWord(L, e, j, x) == if j == i then InodeWord(n, x) else DiskWord(L, d, j, x)
  {
  }

  lemma FlushedSame(L: Layout, d: Disk, e: Disk, i: nat, n: Inode)
    requires DiskOk(L, d) && DiskOk(L, e) && i < L.ninodes && |n.addrs| == NDIRECT + 1
    requires forall w {:trigger DiskWord(L, e, i, w)} :: 0 <= w < DWORDS ==> DiskWord(L, e, i, w) == DiskWord(L, d, i, w)
    ensures Flushed(L, d, i, n) <==> Flushed(L, e, i, n)
  {
    if Flushed(L, e, i, n) {
      forall w | 0 <= w < DWORDS ensures DiskWord(L, d, i, w) == InodeWord(n, w) {
        assert DiskWord(L, e, i, w) == DiskWord(L, d, i, w);
      }
    }
  }

  /** Replacing inode i in its block moves no file and no other inode. */
  lemma InodeStore(L: Layout, d: Disk, files: Files, owner: Owner, used: set<nat>, i: nat, block: Block)
    requires FilesOk(L, d, files, owner) && i in files && BitmapIs(L, d, used)
    requires var e := d[IBlock(L, i) := block];
             forall j, x {:trigger DiskWord(L, e, j, x)} :: 0 <= j < L.ninodes && 0 <= x < DWORDS ==>
               DiskWord(L, e, j, x) == if j == i then InodeWord(files[i], x) else DiskWord(L, d, j, x)
    ensures var e := d[IBlock(L, i) := block];
            && FilesOk(L, e, files, owner) && BitmapIs(L, e, used) && Flushed(L, e, i, files[i])
            && OthersKept(L, d, files, e, files, i) && SameFile(L, d, files[i], e, files[i])
            && forall k :: 0 <= k < SLOTS ==> Reach(e, files[i], k) == Reach(d, files[i], k)
  {
    var a := IBlock(L, i);
    var e := d[a := block];
    assert a !in owner by {
      if a in owner {
        OwnedIsData(L, d, files, owner, a);
      }
    }
    StoreOk(L, d, files, owner, a, block);
    WriteKeepsBitmap(L, d, used, a, block);
    forall j, bn | j in files && 0 <= bn < MAXFILE ensures BlockAt(L, e, files[j], bn) == BlockAt(L, d, files[j], bn) {
      StoreElsewhere(L, d, files, owner, a, block, j, bn);
    }
    forall j | j in files && j != i ensures Flushed(L, e, j, files[j]) <==> Flushed(L, d, j, files[j]) {
      FlushedSame(L, d, e, j, files[j]);
    }
    forall k | 0 <= k < SLOTS ensures Reach(e, files[i], k) == Reach(d, files[i], k) {
      ReachFrame(L, d, files, owner, a, block, i, k);
    }
  }

  /** HolesFilled through the size update. */
  lemma Grown(L: Layout, d0: Disk, n0: Inode, d: Disk, n: Inode, e: Disk, m: Inode, off: nat, to: nat)
    requires |d0| == |d| == |e| == L.size && Shape(L, n0) && Shape(L, n) && Shape(L, m)
    requires MapsKept(L, d0, n0, d, n) && MapsKept(L, d, n, e, m) && Mapped(d, n, off, to)
    requires off <= n0.size && (m.size <= n0.size || m.size <= to)
    ensures NoHoles(d0, n0) ==> NoHoles(e, m)
  {
    if NoHoles(d0, n0) {
      forall bn | 0 <= bn < MAXFILE && bn * BSIZE < m.size ensures Reach(e, m, Slot(bn)) != 0 {
        if bn * BSIZE < n0.size {
          assert Reach(d0, n0, Slot(bn)) != 0;
          MapKept(L, d0, n0, d, n, Slot(bn));
        }
        assert Reach(d, n, Slot(bn)) != 0;
        MapKept(L, d, n, e, m, Slot(bn));
      }
    }
  }
}
