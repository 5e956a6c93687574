/** fs.c: balloc, bfree, bmap, readi, writei, iupdate and itrunc on the blocks the log
and the buffer cache present. A panic is the result None. */
module FsCode {
  import opened Wrappers
  import opened FsBlocks
  import opened FsFiles
  import opened FsContent
  import opened FsTrunc
  import FsDir

  const T_DIR: nat := 1
  const T_DEV: nat := 3

  /** The value, the -1 of the source, or a panic. */
  datatype Result<T> = Done(value: T) | Fail | Panic

  function Min(a: nat, b: nat): nat {
    if a < b then a else b
  }

  /** min(n - tot, BSIZE - off % BSIZE). */
  function ChunkLen(left: nat, at: nat): (m: nat)
    requires left > 0
    ensures 0 < m <= left && at % BSIZE + m <= BSIZE && at + m <= at / BSIZE * BSIZE + BSIZE
  {
    Min(left, BSIZE - at % BSIZE)
  }

  /** iupdate's stores into the buffer: struct dinode number `slot` becomes n. */
  method PackInode(L: Layout, block: Block, slot: nat, n: Inode) returns (r: Block)
    requires LayoutOk(L) && Shape(L, n) && slot < IPB
    ensures Packed(block, slot, n, r)
  {
    r := block;
    var w := 0;
    while w < DWORDS
      invariant w <= DWORDS
      invariant forall x {:trigger Word(r, x)} :: 0 <= x < NWORDS ==>
        Word(r, x) == if slot * DWORDS <= x < slot * DWORDS + w then InodeWord(n, x - slot * DWORDS) else Word(block, x)
    {
      WordSmall(L, n, w);
      var next := WithWord(r, slot * DWORDS + w, InodeWord(n, w));
      forall x | 0 <= x < NWORDS
        ensures Word(next, x) == if slot * DWORDS <= x <= slot * DWORDS + w then InodeWord(n, x - slot * DWORDS) else Word(block, x)
      {
        WordRoundTrip(r, slot * DWORDS + w, InodeWord(n, w), x);
      }
      r, w := next, w + 1;
    }
  }

  class FileSystem {
    const L: Layout
    var disk: Disk
    var files: Files
    ghost var used: set<nat>
    ghost var owner: Owner

    ghost predicate BitmapOk()
      reads this
    {
      && DiskOk(L, disk) && BitmapIs(L, disk, used)
      && forall b :: 0 <= b < L.data ==> b in used
    }

    ghost predicate Valid()
      reads this
    {
      BitmapOk() && FilesOk(L, disk, files, owner) && owner.Keys <= used
    }

    /** A mounted disk whose free map marks the metadata and every block a file reaches. */
    constructor (sb: Layout, d: Disk, inodes: Files, ghost inUse: set<nat>, ghost owners: Owner)
      requires DiskOk(sb, d) && BitmapIs(sb, d, inUse) && (forall b :: 0 <= b < sb.data ==> b in inUse)
      requires FilesOk(sb, d, inodes, owners) && owners.Keys <= inUse
      ensures Valid() && L == sb && disk == d && files == inodes && used == inUse && owner == owners
    {
      L, disk, files := sb, d, inodes;
      used, owner := inUse, owners;
    }

    /** balloc's inner loop: the first clear bit of the map block that starts at block b. */
    method FreeBit(b: nat) returns (bi: nat)
      requires BitmapOk() && b % BPB == 0 && b < L.size
      ensures bi <= BPB && forall c :: b <= c < b + bi && c < L.size ==> c in used
      ensures bi < BPB && b + bi < L.size ==> b + bi !in used
    {
      var bp := disk[BBlock(L, b)];
      bi := 0;
      while bi < BPB && b + bi < L.size
        invariant bi <= BPB
        invariant forall c :: b <= c < b + bi && c < L.size ==> c in used
      {
        assert BBlock(L, b + bi) == BBlock(L, b) && (b + bi) % BPB == bi;
        assert BitAt(L, disk, b + bi) <==> b + bi in used;
        if !Bit(bp, bi) {
          return;
        }
        bi := bi + 1;
      }
    }

    /** balloc's bookkeeping: set the bit, zero the block. */
    method Claim(b: nat)
      requires BitmapOk() && b < L.size && b !in used
      modifies this`disk, this`used
      ensures BitmapOk() && used == old(used) + {b}
      ensures OnlyFreed(L, old(disk), disk, b) && disk[b] == Zero()
    {
      var bp := disk[BBlock(L, b)];
      MarkedOk(L, disk, used, b);
      disk := disk[BBlock(L, b) := SetBit(bp, b % BPB)];
      used := used + {b};
      WriteKeepsBitmap(L, disk, used, b, Zero());
      disk := disk[b := Zero()];
    }

    /** balloc: the first free block, zeroed; None is the panic when every block is in use. */
    method Balloc() returns (r: Option<nat>)
      requires BitmapOk()
      modifies this`disk, this`used
      ensures BitmapOk()
      ensures r.None? ==> disk == old(disk) && used == old(used) && forall c :: 0 <= c < L.size ==> c in used
      ensures r.Some? ==>
                && r.value < L.size && r.value !in old(used) && used == old(used) + {r.value}
                && (forall c :: 0 <= c < r.value ==> c in old(used))
                && OnlyFreed(L, old(disk), disk, r.value) && disk[r.value] == Zero()
    {
      var b := 0;
      while b < L.size
        invariant b % BPB == 0 && disk == old(disk) && used == old(used)
        invariant forall c :: 0 <= c < b && c < L.size ==> c in used
      {
        var bi := FreeBit(b);
        if bi < BPB && b + bi < L.size {
          Claim(b + bi);
          return Some(b + bi);
        }
        b := b + BPB;
      }
      return None;
    }

    /** bfree; not ok is the panic on a block that is free already. */
    method Bfree(b: nat) returns (ok: bool)
      requires BitmapOk() && IsData(L, b)
      modifies this`disk, this`used
      ensures BitmapOk() && ok == (b in old(used))
      ensures !ok ==> disk == old(disk) && used == old(used)
      ensures ok ==> used == old(used) - {b} && OnlyFreed(L, old(disk), disk, b) && disk[b] == old(disk[b])
    {
      var bp := disk[BBlock(L, b)];
      assert BitAt(L, disk, b) <==> b in used;
      if !Bit(bp, b % BPB) {
        return false;
      }
      MarkedOk(L, disk, used, b);
      disk := disk[BBlock(L, b) := ClearBit(bp, b % BPB)];
      used := used - {b};
      return true;
    }

    /** ip->addrs[k] = balloc(). */
    method AllocAddr(i: nat, k: nat) returns (r: Option<nat>)
      requires Valid() && i in files && k <= IND && files[i].addrs[k] == 0
      modifies this
      ensures Valid() && Extends(L, old(disk), old(files), disk, files, i)
      ensures used - owner.Keys == old(used - owner.Keys)
      ensures r.Some? ==> r.value == Reach(disk, files[i], k) != 0
      ensures r.None? ==> disk == old(disk) && files == old(files) && forall c :: 0 <= c < L.size ==> c in used
    {
      r := Balloc();
      if r.None? {
        ExtendsSelf(L, disk, files, i);
        return;
      }
      var b := r.value;
      UnownedExtends(L, old(disk), disk, files, owner, b, i);
      AttachDirect(L, disk, files, owner, i, k, b);
      DirectExtends(L, disk, files, owner, i, k, b);
      ExtendsTrans(L, old(disk), files, disk, files, disk, WithAddr(files, i, k, b), i);
      files := WithAddr(files, i, k, b);
      owner := owner[b := (i, k)];
    }

    /** a[bn] = balloc() in the indirect block. */
    method AllocEntry(i: nat, k: nat) returns (r: Option<nat>)
      requires Valid() && i in files && IND < k < SLOTS && files[i].addrs[IND] != 0 && Reach(disk, files[i], k) == 0
      modifies this
      ensures Valid() && Extends(L, old(disk), old(files), disk, files, i)
      ensures used - owner.Keys == old(used - owner.Keys)
      ensures r.Some? ==> r.value == Reach(disk, files[i], k) != 0
      ensures r.None? ==> disk == old(disk) && files == old(files) && forall c :: 0 <= c < L.size ==> c in used
    {
      r := Balloc();
      if r.None? {
        ExtendsSelf(L, disk, files, i);
        return;
      }
      var b, t := r.value, files[i].addrs[IND];
      UnownedExtends(L, old(disk), disk, files, owner, b, i);
      ReachOk(L, disk, files, owner, i, IND);
      ReachUnowned(L, old(disk), disk, files, owner, b, i, k);
      IndirectReach(L, disk, files, owner, i, k, b, i, k);
      AttachIndirect(L, disk, files, owner, i, k, b);
      IndirectExtends(L, disk, files, owner, i, k, b);
      ExtendsTrans(L, old(disk), files, disk, files, WithEntry(disk, t, k, b), files, i);
      WriteKeepsBitmap(L, disk, used, t, WithWord(disk[t], k - IND - 1, b));
      disk := WithEntry(disk, t, k, b);
      owner := owner[b := (i, k)];
    }

    /** bmap's second half: the entry of the indirect block. */
    method EntryOf(i: nat, k: nat) returns (r: Option<nat>)
      requires Valid() && i in files && IND < k < SLOTS && files[i].addrs[IND] != 0
      modifies this
      ensures Valid() && Extends(L, old(disk), old(files), disk, files, i)
      ensures used - owner.Keys == old(used - owner.Keys)
      ensures r.Some? ==> r.value == Reach(disk, files[i], k) != 0
      ensures old(Reach(disk, files[i], k)) != 0 ==> r.Some? && disk == old(disk) && files == old(files) && used == old(used)
      ensures r.None? ==> disk == old(disk) && files == old(files) && forall c :: 0 <= c < L.size ==> c in used
    {
      var addr := Word(disk[files[i].addrs[IND]], k - IND - 1);
      if addr == 0 {
        r := AllocEntry(i, k);
        return;
      }
      ExtendsSelf(L, disk, files, i);
      return Some(addr);
    }

    /** bmap past the direct blocks. */
    method Indirect(i: nat, bn: nat) returns (r: Option<nat>)
      requires Valid() && i in files && NDIRECT <= bn < MAXFILE
      modifies this
      ensures Valid() && Extends(L, old(disk), old(files), disk, files, i)
      ensures used - owner.Keys == old(used - owner.Keys)
      ensures r.Some? ==> r.value == Reach(disk, files[i], bn + 1) != 0
      ensures old(Reach(disk, files[i], bn + 1)) != 0 ==>
                r.Some? && disk == old(disk) && files == old(files) && used == old(used)
      ensures r.None? ==> forall c :: 0 <= c < L.size ==> c in used
    {
      if files[i].addrs[IND] == 0 {
        r := AllocAddr(i, IND);
        if r.None? {
          return;
        }
        ghost var d, f := disk, files;
        r := EntryOf(i, bn + 1);
        ExtendsTrans(L, old(disk), old(files), d, f, disk, files, i);
      } else {
        r := EntryOf(i, bn + 1);
      }
    }

    /** bmap: the block behind file block bn, allocated when there is none. No file's bytes
        change; a mapped block costs nothing; None only past MAXFILE or with a full disk. */
    method Bmap(i: nat, bn: nat) returns (r: Option<nat>)
      requires Valid() && i in files
      modifies this
      ensures Valid() && Extends(L, old(disk), old(files), disk, files, i)
      ensures used - owner.Keys == old(used - owner.Keys)
      ensures r.Some? ==> bn < MAXFILE && r.value == Reach(disk, files[i], Slot(bn)) != 0
      ensures bn < MAXFILE && Reach(old(disk), old(files)[i], Slot(bn)) != 0 ==>
                r.Some? && disk == old(disk) && files == old(files) && used == old(used)
      ensures r.None? && bn < MAXFILE ==> forall c :: 0 <= c < L.size ==> c in used
    {
      ExtendsSelf(L, disk, files, i);
      if bn < NDIRECT {
        if files[i].addrs[bn] == 0 {
          r := AllocAddr(i, bn);
          return;
        }
        return Some(files[i].addrs[bn]);
      }
      if bn - NDIRECT < NWORDS {
        r := Indirect(i, bn);
        return;
      }
      return None;
    }

    // ----------------------------------------------------------------
    // readi and writei

    /** One round of readi: map the block, copy the chunk out of it. */
    method ReadChunk(i: nat, at: nat, m: nat) returns (r: Option<seq<Byte>>)
      requires Valid() && i in files && at < files[i].size && at + m <= files[i].size && at % BSIZE + m <= BSIZE
      modifies this
      ensures Valid() && Extends(L, old(disk), old(files), disk, files, i)
      ensures used - owner.Keys == old(used - owner.Keys)
      ensures r.Some? ==> |r.value| == m && ReadSoFar(L, old(disk), old(files)[i], at, r.value)
      ensures r.None? ==> forall c :: 0 <= c < L.size ==> c in used
      ensures NoHoles(old(disk), old(files)[i]) ==> r.Some? && disk == old(disk) && files == old(files) && used == old(used)
    {
      assert Slot(at / BSIZE) < SLOTS && at / BSIZE * BSIZE <= at;
      var b := Bmap(i, at / BSIZE);
      if b.None? {
        return None;
      }
      ReachOk(L, disk, files, owner, i, Slot(at / BSIZE));
      ChunkRead(L, old(disk), old(files)[i], disk, files[i], at, m);
      return Some(disk[b.value][at % BSIZE..at % BSIZE + m]);
    }

    /** One round of readi's loop: data grows by a chunk. */
    method ReadRound(i: nat, off: nat, len: nat, data: seq<Byte>, ghost d0: Disk, ghost f0: Files)
      returns (ok: bool, next: seq<Byte>)
      requires Valid() && Extends(L, d0, f0, disk, files, i)
      requires |data| < len && off + len <= f0[i].size && ReadSoFar(L, d0, f0[i], off, data)
      modifies this
      ensures Valid() && Extends(L, d0, f0, disk, files, i)
      ensures used - owner.Keys == old(used - owner.Keys)
      ensures ok ==> |data| < |next| <= len && ReadSoFar(L, d0, f0[i], off, next)
      ensures !ok ==> next == data && forall c :: 0 <= c < L.size ==> c in used
      ensures NoHoles(old(disk), old(files)[i]) ==> ok && disk == old(disk) && files == old(files) && used == old(used)
    {
      var at := off + |data|;
      var m := ChunkLen(len - |data|, at);
      var chunk := ReadChunk(i, at, m);
      ExtendsTrans(L, d0, f0, old(disk), old(files), disk, files, i);
      if chunk.None? {
        return false, data;
      }
      ReadMore(L, d0, f0[i], old(disk), old(files)[i], off, data, chunk.value);
      return true, data + chunk.value;
    }

    /** readi's loop. */
    method ReadBytes(i: nat, off: nat, len: nat) returns (r: Option<seq<Byte>>)
      requires Valid() && i in files && off + len <= files[i].size
      modifies this
      ensures Valid() && Extends(L, old(disk), old(files), disk, files, i)
      ensures used - owner.Keys == old(used - owner.Keys)
      ensures r.Some? ==> |r.value| == len && ReadSoFar(L, old(disk), old(files)[i], off, r.value)
      ensures r.None? ==> forall c :: 0 <= c < L.size ==> c in used
      ensures NoHoles(old(disk), old(files)[i]) ==> r.Some? && disk == old(disk) && files == old(files) && used == old(used)
    {
      ExtendsSelf(L, disk, files, i);
      var ok, data := true, [];
      ghost var solid := NoHoles(disk, files[i]);
      while ok && |data| < len
        invariant |data| <= len && Valid() && Extends(L, old(disk), old(files), disk, files, i)
        invariant used - owner.Keys == old(used - owner.Keys)
        invariant ok ==> ReadSoFar(L, old(disk), old(files)[i], off, data)
        invariant !ok ==> forall c :: 0 <= c < L.size ==> c in used
        invariant solid ==> ok && disk == old(disk) && files == old(files) && used == old(used)
        decreases ok, len - |data|
      {
        ok, data := ReadRound(i, off, len, data, old(disk), old(files));
      }
      return if ok then Some(data) else None;
    }

    /** readi: the slice of the file that [off, off + n) meets, across block and indirect
        boundaries. Changes no file, and without holes nothing at all. */
    method Readi(i: nat, off: nat, n: nat) returns (r: Result<seq<Byte>>)
      requires Valid() && i in files && files[i].typ != T_DEV && off < U32 && n < U32
      modifies this
      ensures Valid() && Extends(L, old(disk), old(files), disk, files, i)
      ensures used - owner.Keys == old(used - owner.Keys)
      ensures r.Fail? <==> off > old(files)[i].size || off + n >= U32
      ensures r.Fail? ==> disk == old(disk) && files == old(files)
      ensures r.Done? ==> r.value == old(Content(L, disk, files[i]))[off..Min(off + n, old(files)[i].size)]
      ensures r.Panic? ==> forall c :: 0 <= c < L.size ==> c in used
      ensures NoHoles(old(disk), old(files)[i]) ==> !r.Panic? && disk == old(disk) && files == old(files) && used == old(used)
    {
      if off > files[i].size || (off + n) % U32 < off {
        ExtendsSelf(L, disk, files, i);
        return Fail;
      }
      var len := if off + n > files[i].size then files[i].size - off else n;
      var data := ReadBytes(i, off, len);
      return if data.None? then Panic else Done(data.value);
    }

    /** One round of writei: map the block, copy the chunk into it. */
    method WriteChunk(i: nat, off: nat, chunk: seq<Byte>) returns (ok: bool)
      requires Valid() && i in files && off < MAXFILE * BSIZE && off % BSIZE + |chunk| <= BSIZE
      modifies this
      ensures Valid() && Kept(L, old(disk), old(files), disk, files, i)
      ensures used - owner.Keys == old(used - owner.Keys)
      ensures ok ==> Overwrites(L, old(disk), old(files)[i], disk, files[i], off, chunk)
                     && Reach(disk, files[i], Slot(off / BSIZE)) != 0
      ensures Reach(old(disk), old(files)[i], Slot(off / BSIZE)) != 0 ==> ok && files == old(files) && used == old(used)
      ensures !ok ==> forall c :: 0 <= c < L.size ==> c in used
    {
      var b := Bmap(i, off / BSIZE);
      if b.None? {
        return false;
      }
      ghost var d := disk;
      ChunkStore(L, disk, files, owner, i, off, chunk);
      WriteKeepsBitmap(L, disk, used, b.value, Spliced(disk[b.value], off % BSIZE, chunk));
      disk := disk[b.value := Spliced(disk[b.value], off % BSIZE, chunk)];
      KeptTrans(L, old(disk), old(files), d, files, disk, files, i);
      SameOverwrite(L, old(disk), old(files)[i], d, files[i], disk, files[i], off, chunk);
      MapKept(L, d, files[i], disk, files[i], Slot(off / BSIZE));
      return true;
    }

    /** One round of writei's loop, for src[tot..tot + m]. */
    method WriteRound(i: nat, off: nat, src: seq<Byte>, tot: nat, ghost d0: Disk, ghost f0: Files) returns (ok: bool, m: nat)
      requires tot < |src| && Valid() && off + |src| <= MAXFILE * BSIZE && Written(L, d0, f0, disk, files, i, off, src, tot)
      modifies this
      ensures Valid() && Kept(L, d0, f0, disk, files, i)
      ensures used - owner.Keys == old(used - owner.Keys)
      ensures 0 < m <= |src| - tot
      ensures ok ==> Written(L, d0, f0, disk, files, i, off, src, tot + m)
      ensures NoHoles(d0, f0[i]) && off + |src| <= f0[i].size ==> ok && files == old(files) && used == old(used)
      ensures !ok ==> forall c :: 0 <= c < L.size ==> c in used
    {
      var at := off + tot;
      m := ChunkLen(|src| - tot, at);
      if NoHoles(d0, f0[i]) && off + |src| <= f0[i].size {
        MapKept(L, d0, f0[i], disk, files[i], Slot(at / BSIZE));
      }
      ghost var d, f := disk, files;
      ok := WriteChunk(i, at, src[tot..tot + m]);
      if ok {
        WrittenMore(L, d0, f0, d, f, disk, files, i, off, src, tot, m);
      } else {
        KeptTrans(L, d0, f0, d, f, disk, files, i);
      }
    }

    /** writei's loop. */
    method WriteBytes(i: nat, off: nat, src: seq<Byte>) returns (ok: bool)
      requires Valid() && i in files && off + |src| <= MAXFILE * BSIZE
      modifies this
      ensures Valid() && Kept(L, old(disk), old(files), disk, files, i)
      ensures used - owner.Keys == old(used - owner.Keys)
      ensures ok ==> Written(L, old(disk), old(files), disk, files, i, off, src, |src|)
      ensures NoHoles(old(disk), old(files)[i]) && off + |src| <= old(files)[i].size ==>
                ok && files == old(files) && used == old(used)
      ensures !ok ==> forall c :: 0 <= c < L.size ==> c in used
    {
      ExtendsSelf(L, disk, files, i);
      ghost var solid := NoHoles(disk, files[i]) && off + |src| <= files[i].size;
      var tot := 0;
      ok := true;
      while ok && tot < |src|
        invariant tot <= |src| && Valid() && Kept(L, old(disk), old(files), disk, files, i)
        invariant ok ==> Written(L, old(disk), old(files), disk, files, i, off, src, tot)
        invariant !ok ==> forall c :: 0 <= c < L.size ==> c in used
        invariant used - owner.Keys == old(used - owner.Keys)
        invariant solid ==> ok && files == old(files) && used == old(used)
        decreases ok, |src| - tot
      {
        var m;
        ok, m := WriteRound(i, off, src, tot, old(disk), old(files));
        tot := tot + m;
      }
    }

    /** What is written is what is read back: readi of the range writei has just stored to
        gives the bytes of src. */
    method WriteThenRead(i: nat, off: nat, src: seq<Byte>) returns (w: Result<nat>, r: Result<seq<Byte>>)
      requires Valid() && i in files && files[i].typ != T_DEV && off < U32 && |src| < U32
      modifies this
      ensures Valid()
      ensures w.Done? ==> (r.Done? && r.value == src) || (r.Panic? && forall c :: 0 <= c < L.size ==> c in used)
      ensures w.Done? && NoHoles(old(disk), old(files)[i]) ==> r.Done?
    {
      w := Writei(i, off, src);
      r := Fail;
      if w.Done? {
        ReadBack(old(Content(L, disk, files[i])), off, src);
        r := Readi(i, off, |src|);
      }
    }

    /** iupdate: inode i as sixteen words into its inode block; nothing else moves. */
    method Iupdate(i: nat)
      requires Valid() && i in files
      modifies this`disk
      ensures Valid() && Flushed(L, disk, i, files[i])
      ensures OthersKept(L, old(disk), files, disk, files, i) && SameFile(L, old(disk), files[i], disk, files[i])
      ensures forall k :: 0 <= k < SLOTS ==> Reach(disk, files[i], k) == Reach(old(disk), files[i], k)
    {
      var b := IBlock(L, i);
      var block := PackInode(L, disk[b], i % IPB, files[i]);
      PackedWords(L, disk, i, files[i], block);
      InodeStore(L, disk, files, owner, used, i, block);
      disk := disk[b := block];
    }

    /** The end of writei: a larger size, kept on disk too. */
    method SetSize(i: nat, size: nat)
      requires Valid() && i in files && size <= MAXFILE * BSIZE
      modifies this`disk, this`files
      ensures Valid() && files == old(files)[i := old(files)[i].(size := size)]
      ensures SameFile(L, old(disk), old(files)[i], disk, files[i])
      ensures MapsKept(L, old(disk), old(files)[i], disk, files[i])
      ensures OthersKept(L, old(disk), old(files), disk, files, i) && Flushed(L, disk, i, files[i])
    {
      WithSize(L, disk, files, owner, i, size);
      files := files[i := files[i].(size := size)];
      ghost var f := files;
      Iupdate(i);
      SameTrans(L, old(disk), old(files)[i], old(disk), f[i], disk, files[i]);
    }

    /** writei after its loop. */
    method Cover(i: nat, off: nat, src: seq<Byte>, ghost d0: Disk, ghost f0: Files)
      requires Valid() && i in files && off + |src| <= MAXFILE * BSIZE
      requires Written(L, d0, f0, disk, files, i, off, src, |src|) && off <= f0[i].size
      requires OthersKept(L, d0, f0, disk, files, i)
      modifies this`disk, this`files
      ensures Valid() && OthersKept(L, d0, f0, disk, files, i) && files[i].typ == old(files)[i].typ
      ensures Content(L, disk, files[i]) == Splice(Content(L, d0, f0[i]), off, src)
      ensures NoHoles(d0, f0[i]) ==> NoHoles(disk, files[i])
      ensures Flushed(L, disk, i, files[i]) || (disk == old(disk) && files == old(files) && off + |src| <= f0[i].size)
    {
      var n := |src|;
      ghost var d, f := disk, files;
      assert src[..n] == src;
      if n > 0 && off + n > files[i].size {
        SetSize(i, off + n);
        OthersTrans(L, d0, f0, d, f, disk, files, i);
        OverwriteSame(L, d0, f0[i], d, f[i], disk, files[i], off, src);
      }
      Grown(L, d0, f0[i], d, f[i], disk, files[i], off, off + n);
      OverwriteContent(L, d0, f0[i], disk, files[i], off, src);
    }

    /** writei: src is spliced into the file at off and the size grows to cover it; no
        other file changes, no hole appears, and without holes the inode on disk follows
        the one in memory. */
    method Writei(i: nat, off: nat, src: seq<Byte>) returns (r: Result<nat>)
      requires Valid() && i in files && files[i].typ != T_DEV && off < U32 && |src| < U32
      modifies this
      ensures Valid() && OthersKept(L, old(disk), old(files), disk, files, i)
      ensures used - owner.Keys == old(used - owner.Keys)
      ensures files[i].typ == old(files)[i].typ
      ensures r.Fail? <==> off > old(files)[i].size || off + |src| > MAXFILE * BSIZE
      ensures r.Fail? ==> disk == old(disk) && files == old(files)
      ensures r.Done? ==> r.value == |src| && Content(L, disk, files[i]) == Splice(old(Content(L, disk, files[i])), off, src)
      ensures r.Panic? ==> forall c :: 0 <= c < L.size ==> c in used
      ensures NoHoles(old(disk), old(files)[i]) && !r.Panic? ==> NoHoles(disk, files[i])
      ensures NoHoles(old(disk), old(files)[i]) && !r.Panic? && Flushed(L, old(disk), i, old(files)[i]) ==> Flushed(L, disk, i, files[i])
    {
      var n := |src|;
      if off > files[i].size || (off + n) % U32 < off {
        return Fail;
      }
      if off + n > MAXFILE * BSIZE {
        return Fail;
      }
      var ok := WriteBytes(i, off, src);
      KeptOthers(L, old(disk), old(files), disk, files, i);
      if !ok {
        return Panic;
      }
      FlushedFrame(L, old(disk), disk, i, files[i]);
      Cover(i, off, src, old(disk), old(files));
      return Done(n);
    }

    // ----------------------------------------------------------------
    // itrunc

    /** itrunc in progress: of the blocks inode i owned in (d0, f0), those in gone are free. */
    ghost predicate Truncating(d0: Disk, f0: Files, u0: set<nat>, i: nat, gone: set<nat>)
      reads this
    {
      && BitmapOk() && FilesOk(L, d0, f0, owner) && i in f0 && owner.Keys <= u0
      && OnlyBits(L, d0, disk) && used == u0 - gone
    }

    /** bfree of the block behind one slot; the panic cannot happen. */
    method FreeSlot(i: nat, b: nat, ghost d0: Disk, ghost f0: Files, ghost u0: set<nat>, ghost k: nat, ghost gone: set<nat>)
      requires Truncating(d0, f0, u0, i, gone) && k < SLOTS && b == Reach(d0, f0[i], k) && b !in gone
      modifies this`disk, this`used
      ensures Truncating(d0, f0, u0, i, gone + if b == 0 then {} else {b})
    {
      if b != 0 {
        ReachOk(L, d0, f0, owner, i, k);
        var ok := Bfree(b);
        assert ok;
      }
    }

    /** The loop over the direct blocks. */
    method FreeDirect(i: nat, ghost u0: set<nat>)
      requires Truncating(disk, files, u0, i, {})
      modifies this`disk, this`used, this`files
      ensures Truncating(old(disk), old(files), u0, i, Gone(owner, i, IND, 0))
      ensures files.Keys == old(files).Keys
      ensures files == old(files)[i := old(files)[i].(addrs := files[i].addrs)]
      ensures |files[i].addrs| == NDIRECT + 1 && files[i].addrs[IND] == old(files)[i].addrs[IND]
      ensures forall m :: 0 <= m < IND ==> files[i].addrs[m] == 0
    {
      var k := 0;
      assert Gone(owner, i, 0, 0) == {};
      while k < NDIRECT
        invariant k <= NDIRECT && Truncating(old(disk), old(files), u0, i, Gone(owner, i, k, 0))
        invariant i in files && files == old(files)[i := old(files)[i].(addrs := files[i].addrs)]
        invariant |files[i].addrs| == NDIRECT + 1
        invariant forall m :: 0 <= m <= IND ==> files[i].addrs[m] == if m < k then 0 else old(files)[i].addrs[m]
      {
        var b := files[i].addrs[k];
        GoneMore(L, old(disk), old(files), owner, i, k, 0);
        FreeSlot(i, b, old(disk), old(files), u0, k, Gone(owner, i, k, 0));
        files := WithAddr(files, i, k, 0);
        k := k + 1;
      }
    }

    /** The loop over the indirect block, and the block itself. */
    method FreeIndirect(i: nat, ghost d0: Disk, ghost f0: Files, ghost u0: set<nat>)
      requires Truncating(d0, f0, u0, i, Gone(owner, i, IND, 0))
      requires i in files && |files[i].addrs| == NDIRECT + 1 && files[i].addrs[IND] == f0[i].addrs[IND] != 0
      modifies this`disk, this`used
      ensures Truncating(d0, f0, u0, i, OwnedBy(owner, i))
    {
      var t := files[i].addrs[IND];
      ReachOk(L, d0, f0, owner, i, IND);
      var a := disk[t];
      var j := 0;
      while j < NWORDS
        invariant j <= NWORDS && Truncating(d0, f0, u0, i, Gone(owner, i, IND, j))
      {
        GoneMore(L, d0, f0, owner, i, IND, j);
        FreeSlot(i, Word(a, j), d0, f0, u0, IND + 1 + j, Gone(owner, i, IND, j));
        j := j + 1;
      }
      GoneAll(L, d0, f0, owner, i);
      FreeSlot(i, t, d0, f0, u0, IND, Gone(owner, i, IND, NWORDS));
    }

    /** Both loops of itrunc. */
    method FreeBlocks(i: nat, ghost u0: set<nat>)
      requires Truncating(disk, files, u0, i, {})
      modifies this`disk, this`used, this`files
      ensures Truncating(old(disk), old(files), u0, i, OwnedBy(owner, i))
      ensures files == old(files)[i := old(files)[i].(addrs := Emptied(old(files)[i]).addrs)]
    {
      FreeDirect(i, u0);
      GoneAll(L, old(disk), old(files), owner, i);
      if files[i].addrs[IND] != 0 {
        FreeIndirect(i, old(disk), old(files), u0);
        files := WithAddr(files, i, IND, 0);
      }
      assert files[i].addrs == Emptied(old(files)[i]).addrs;
    }

    /** itrunc: clears the bits of exactly the blocks the inode owned and empties it; every
        other file keeps its bytes. */
    method Itrunc(i: nat)
      requires Valid() && i in files
      modifies this
      ensures Valid() && used == old(used) - OwnedBy(old(owner), i) && owner == OwnersBut(old(owner), i)
      ensures files == old(files)[i := Emptied(old(files)[i])] && Flushed(L, disk, i, files[i])
      ensures OthersKept(L, old(disk), old(files), disk, files, i)
    {
      FreeBlocks(i, used);
      TruncOk(L, old(disk), disk, old(files), owner, i);
      TruncOthers(L, old(disk), disk, old(files), owner, i);
      OwnersLeft(owner, i);
      files := files[i := files[i].(size := 0)];
      assert files == old(files)[i := Emptied(old(files)[i])];
      owner := OwnersBut(owner, i);
      ghost var d := disk;
      Iupdate(i);
      OthersTrans(L, old(disk), old(files), d, files, disk, files, i);
    }

    // ----------------------------------------------------------------
    // Directories

    /** readi of one struct dirent; None is a panic. */
    method ReadDirent(i: nat, off: nat, ghost c: seq<Byte>) returns (r: Option<seq<Byte>>)
      requires Valid() && i in files && files[i].typ != T_DEV && off < files[i].size && c == Content(L, disk, files[i])
      modifies this
      ensures Valid() && Extends(L, old(disk), old(files), disk, files, i) && Content(L, disk, files[i]) == c
      ensures used - owner.Keys == old(used - owner.Keys)
      ensures r.Some? ==> off + FsDir.DESIZE <= |c| && r.value == c[off..off + FsDir.DESIZE]
      ensures r.None? ==> off + FsDir.DESIZE > |c| || forall b :: 0 <= b < L.size ==> b in used
    {
      var de := Readi(i, off, FsDir.DESIZE);
      SameContent(L, old(disk), old(files)[i], disk, files[i]);
      if !de.Done? || |de.value| != FsDir.DESIZE {
        return None;
      }
      return Some(de.value);
    }

    /** One round of the directory loops: entry k's inode number, and whether it is in use
        and carries the name. */
    method TestDirent(i: nat, k: nat, name: seq<Byte>, ghost c: seq<Byte>) returns (r: Option<(bool, nat)>)
      requires Valid() && i in files && files[i].typ != T_DEV && k * FsDir.DESIZE < files[i].size && c == Content(L, disk, files[i])
      modifies this
      ensures Valid() && Extends(L, old(disk), old(files), disk, files, i) && Content(L, disk, files[i]) == c
      ensures used - owner.Keys == old(used - owner.Keys)
      ensures r.Some? ==> && k < |c| / FsDir.DESIZE && r.value.1 == FsDir.InumOf(FsDir.Entry(c, k))
                          && r.value.0 == FsDir.Hit(c, k, FsDir.CName(name, FsDir.DIRSIZ))
      ensures r.None? ==> |c| % FsDir.DESIZE != 0 || forall b :: 0 <= b < L.size ==> b in used
    {
      var de := ReadDirent(i, k * FsDir.DESIZE, c);
      if de.None? {
        return None;
      }
      assert de.value == FsDir.Entry(c, k);
      var inum := FsDir.InumOf(de.value);
      var same := FsDir.SameName(name, de.value[2..], FsDir.DIRSIZ);
      return Some((inum != 0 && same, inum));
    }

    /** dirlookup: the entry number and inode number behind a name. Panics only on a file
        that is not a directory, a torn last entry or a full disk. */
    method Dirlookup(i: nat, name: seq<Byte>) returns (r: Result<Option<(nat, nat)>>)
      requires Valid() && i in files
      modifies this
      ensures Valid() && Extends(L, old(disk), old(files), disk, files, i)
      ensures used - owner.Keys == old(used - owner.Keys) && !r.Fail?
      ensures r.Done? ==> FsDir.LookupIs(old(Content(L, disk, files[i])), FsDir.CName(name, FsDir.DIRSIZ), r.value)
      ensures r.Panic? ==> || old(files)[i].typ != T_DIR || old(files)[i].size % FsDir.DESIZE != 0
                           || forall b :: 0 <= b < L.size ==> b in used
      ensures r.Done? ==> files[i].typ == T_DIR
    {
      ExtendsSelf(L, disk, files, i);
      if files[i].typ != T_DIR {
        return Panic;
      }
      ghost var c, nm := Content(L, disk, files[i]), FsDir.CName(name, FsDir.DIRSIZ);
      var k := 0;
      while k * FsDir.DESIZE < files[i].size
        invariant Valid() && Extends(L, old(disk), old(files), disk, files, i) && Content(L, disk, files[i]) == c
        invariant used - owner.Keys == old(used - owner.Keys)
        invariant k <= |c| / FsDir.DESIZE && FsDir.Find(c, nm, 0) == FsDir.Find(c, nm, k)
        decreases |c| - k * FsDir.DESIZE
      {
        ghost var d, f := disk, files;
        var t := TestDirent(i, k, name, c);
        ExtendsTrans(L, old(disk), old(files), d, f, disk, files, i);
        if t.None? {
          return Panic;
        }
        if t.value.0 {
          return Done(Some((k, t.value.1)));
        }
        k := k + 1;
      }
      return Done(None);
    }

    /** dirlink's loop: the first entry that is not in use, or the end. */
    method FindEmpty(i: nat, ghost c: seq<Byte>) returns (r: Option<nat>)
      requires Valid() && i in files && files[i].typ != T_DEV && c == Content(L, disk, files[i]) && |c| % FsDir.DESIZE == 0
      modifies this
      ensures Valid() && Extends(L, old(disk), old(files), disk, files, i) && Content(L, disk, files[i]) == c
      ensures used - owner.Keys == old(used - owner.Keys)
      ensures r.Some? ==> r.value == FsDir.Empty(c, 0)
      ensures r.None? ==> forall b :: 0 <= b < L.size ==> b in used
    {
      ExtendsSelf(L, disk, files, i);
      var k := 0;
      while k * FsDir.DESIZE < files[i].size
        invariant Valid() && Extends(L, old(disk), old(files), disk, files, i) && Content(L, disk, files[i]) == c
        invariant used - owner.Keys == old(used - owner.Keys)
        invariant k <= |c| / FsDir.DESIZE && FsDir.Empty(c, 0) == FsDir.Empty(c, k)
        decreases |c| - k * FsDir.DESIZE
      {
        ghost var d, f := disk, files;
        var t := TestDirent(i, k, [], c);
        ExtendsTrans(L, old(disk), old(files), d, f, disk, files, i);
        if t.None? {
          return None;
        }
        if t.value.1 == 0 {
          return Some(k);
        }
        k := k + 1;
      }
      return Some(k);
    }

    /** The end of dirlink: the entry goes into place e. */
    method WriteDirent(i: nat, name: seq<Byte>, inum: nat, e: nat, ghost c: seq<Byte>) returns (ok: bool)
      requires Valid() && i in files && files[i].typ != T_DEV && c == Content(L, disk, files[i])
      requires |c| % FsDir.DESIZE == 0 && e == FsDir.Empty(c, 0) && inum < 0x1_0000
      modifies this
      ensures Valid() && OthersKept(L, old(disk), old(files), disk, files, i)
      ensures used - owner.Keys == old(used - owner.Keys)
      ensures ok ==> Content(L, disk, files[i]) == FsDir.Linked(c, FsDir.CName(name, FsDir.DIRSIZ), inum)
      ensures !ok ==> |c| == MAXFILE * BSIZE || forall b :: 0 <= b < L.size ==> b in used
    {
      var de := FsDir.MakeDirent(name, inum);
      FsDir.LinkedFits(c, MAXFILE * BSIZE / FsDir.DESIZE);
      var w := Writei(i, FsDir.DESIZE * e, de);
      return w.Done? && w.value == FsDir.DESIZE;
    }

    /** dirlink: -1 exactly when the name is there already; otherwise the directory maps
        the name to inum and every other name as before. */
    method Dirlink(i: nat, name: seq<Byte>, inum: nat) returns (r: Result<()>)
      requires Valid() && i in files && 0 < inum < 0x1_0000
      modifies this
      ensures Valid() && OthersKept(L, old(disk), old(files), disk, files, i)
      ensures used - owner.Keys == old(used - owner.Keys)
      ensures var c, nm := old(Content(L, disk, files[i])), FsDir.CName(name, FsDir.DIRSIZ);
              && (r.Fail? ==> FsDir.Lookup(c, nm) != None && Content(L, disk, files[i]) == c)
              && (r.Done? ==> FsDir.Lookup(c, nm) == None && FsDir.Adds(c, nm, inum, Content(L, disk, files[i])))
              && (r.Panic? ==> || old(files)[i].typ != T_DIR || |c| % FsDir.DESIZE != 0 || |c| == MAXFILE * BSIZE
                               || forall b :: 0 <= b < L.size ==> b in used)
    {
      ghost var c, nm := Content(L, disk, files[i]), FsDir.CName(name, FsDir.DIRSIZ);
      var found := Dirlookup(i, name);
      SameContent(L, old(disk), old(files)[i], disk, files[i]);
      KeptOthers(L, old(disk), old(files), disk, files, i);
      if !found.Done? {
        return Panic;
      }
      if found.value.Some? {
        return Fail;
      }
      ghost var d, f := disk, files;
      var e := FindEmpty(i, c);
      ExtendsTrans(L, old(disk), old(files), d, f, disk, files, i);
      KeptOthers(L, old(disk), old(files), disk, files, i);
      if e.None? {
        return Panic;
      }
      d, f := disk, files;
      var ok := WriteDirent(i, name, inum, e.value, c);
      OthersTrans(L, old(disk), old(files), d, f, disk, files, i);
      if !ok {
        return Panic;
      }
      FsDir.LinkedAdds(c, nm, inum);
      return Done(());
    }
  }
}
