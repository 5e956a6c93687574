/** itrunc: giving back every block an inode owns. */
module FsTrunc {
  import opened FsBlocks
  import opened FsFiles
  import opened FsContent

  /** The blocks inode i owns. */
  ghost function OwnedBy(owner: Owner, i: nat): set<nat> {
    set b | b in owner && owner[b].0 == i
  }

  ghost function OwnersBut(owner: Owner, i: nat): Owner {
    map b | b in owner && owner[b].0 != i :: owner[b]
  }

  lemma OwnersLeft(owner: Owner, i: nat)
    ensures OwnersBut(owner, i).Keys == owner.Keys - OwnedBy(owner, i)
  {
  }

  /** Those reached by the first dir addresses and the first ent words of the indirect block. */
  ghost function Gone(owner: Owner, i: nat, dir: nat, ent: nat): set<nat> {
    set b | b in owner && owner[b].0 == i && (owner[b].1 < dir || IND < owner[b].1 <= IND + ent)
  }

  /** The block of one slot is what the next round adds. */
  lemma GoneMore(L: Layout, d: Disk, files: Files, owner: Owner, i: nat, dir: nat, ent: nat)
    requires FilesOk(L, d, files, owner) && i in files
    ensures dir < IND ==> var b := Reach(d, files[i], dir);
                          && b !in Gone(owner, i, dir, ent)
                          && Gone(owner, i, dir + 1, ent) == Gone(owner, i, dir, ent) + if b == 0 then {} else {b}
    ensures dir <= IND && ent < NWORDS ==> var b := Reach(d, files[i], IND + 1 + ent);
                          && b !in Gone(owner, i, dir, ent)
                          && Gone(owner, i, dir, ent + 1) == Gone(owner, i, dir, ent) + if b == 0 then {} else {b}
  {
    if dir < IND {
      SlotAdds(L, d, files, owner, i, dir, Gone(owner, i, dir, ent), Gone(owner, i, dir + 1, ent));
    }
    if dir <= IND && ent < NWORDS {
      SlotAdds(L, d, files, owner, i, IND + 1 + ent, Gone(owner, i, dir, ent), Gone(owner, i, dir, ent + 1));
    }
  }

  lemma SlotAdds(L: Layout, d: Disk, files: Files, owner: Owner, i: nat, k: nat, s: set<nat>, t: set<nat>)
    requires FilesOk(L, d, files, owner) && i in files && k < SLOTS
    requires forall b :: b in t <==> b in s || Owns(owner, b, i, k)
    requires forall b :: b in s ==> b in owner && !Owns(owner, b, i, k)
    ensures var b := Reach(d, files[i], k); b !in s && t == s + if b == 0 then {} else {b}
  {
    var b := Reach(d, files[i], k);
    assert SlotOk(L, d, files, owner, i, k);
    forall c | Owns(owner, c, i, k) ensures c == b && b != 0 {
      assert OwnerOk(L, d, files, owner, c);
    }
    if b == 0 && b in s {
      OwnedIsData(L, d, files, owner, b);
    }
  }

  lemma GoneAll(L: Layout, d: Disk, files: Files, owner: Owner, i: nat)
    requires FilesOk(L, d, files, owner) && i in files
    ensures var t := files[i].addrs[IND];
            && t !in Gone(owner, i, IND, NWORDS)
            && OwnedBy(owner, i) == if t == 0 then Gone(owner, i, IND, 0) else Gone(owner, i, IND, NWORDS) + {t}
  {
    var t := files[i].addrs[IND];
    forall b | b in OwnedBy(owner, i) ensures b in Gone(owner, i, IND, NWORDS) || Owns(owner, b, i, IND) {
      assert OwnerOk(L, d, files, owner, b);
    }
    SlotAdds(L, d, files, owner, i, IND, Gone(owner, i, IND, NWORDS), OwnedBy(owner, i));
    if t == 0 {
      forall b | b in OwnedBy(owner, i) ensures b in Gone(owner, i, IND, 0) {
        assert OwnerOk(L, d, files, owner, b);
      }
    }
  }

  /** Blocks outside the free map are as they were. */
  ghost predicate OnlyBits(L: Layout, d: Disk, e: Disk)
    requires DiskOk(L, d)
  {
    |e| == |d| && forall c :: 0 <= c < |d| && !(L.bmapstart <= c < L.data) ==> e[c] == d[c]
  }

  function Emptied(n: Inode): Inode {
    n.(size := 0, addrs := seq(NDIRECT + 1, _ => 0))
  }

  lemma TruncReach(L: Layout, d: Disk, e: Disk, files: Files, owner: Owner, i: nat, j: nat, k: nat)
    requires FilesOk(L, d, files, owner) && OnlyBits(L, d, e) && i in files && j in files && k < SLOTS
    ensures Reach(e, files[i := Emptied(files[i])][j], k) == if j == i then 0 else Reach(d, files[j], k)
  {
    ReachOk(L, d, files, owner, j, IND);
  }

  lemma TruncOk(L: Layout, d: Disk, e: Disk, files: Files, owner: Owner, i: nat)
    requires FilesOk(L, d, files, owner) && OnlyBits(L, d, e) && i in files
    ensures FilesOk(L, e, files[i := Emptied(files[i])], OwnersBut(owner, i))
  {
    var g, o := files[i := Emptied(files[i])], OwnersBut(owner, i);
    forall j, k | j in g && 0 <= k < SLOTS ensures SlotOk(L, e, g, o, j, k) {
      TruncReach(L, d, e, files, owner, i, j, k);
      assert SlotOk(L, d, files, owner, j, k);
    }
    forall b | b in o ensures OwnerOk(L, e, g, o, b) {
      assert OwnerOk(L, d, files, owner, b);
      TruncReach(L, d, e, files, owner, i, owner[b].0, owner[b].1);
    }
  }

  lemma TruncOthers(L: Layout, d: Disk, e: Disk, files: Files, owner: Owner, i: nat)
    requires FilesOk(L, d, files, owner) && OnlyBits(L, d, e) && i in files
    ensures OthersKept(L, d, files, e, files[i := Emptied(files[i])], i)
  {
    var g := files[i := Emptied(files[i])];
    assert e[..L.bmapstart] == d[..L.bmapstart];
    forall j | j in files && j != i
      ensures SameFile(L, d, files[j], e, g[j])
      ensures Flushed(L, e, j, g[j]) <==> Flushed(L, d, j, files[j])
    {
      FlushedFrame(L, d, e, j, files[j]);
      forall bn | 0 <= bn < MAXFILE ensures BlockAt(L, e, g[j], bn) == BlockAt(L, d, files[j], bn) {
        TruncReach(L, d, e, files, owner, i, j, Slot(bn));
        ReachOk(L, d, files, owner, j, Slot(bn));
      }
    }
  }
}
