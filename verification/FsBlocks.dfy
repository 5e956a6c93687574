/** Disk blocks as the file system reads them: bytes, little-endian 32-bit words, bits. */
module FsBlocks {
  const BSIZE: nat := 512
  const NWORDS: nat := 128
  const BPB: nat := 4096
  const U32: nat := 0x1_0000_0000

  type Byte = x: int | 0 <= x < 256
  type Block = b: seq<Byte> | |b| == BSIZE witness seq(BSIZE, _ => 0)

  function Zero(): (b: Block)
    ensures forall k :: 0 <= k < BSIZE ==> b[k] == 0
  {
    seq(BSIZE, _ => 0)
  }

  // ------------------------------------------------------------------
  // Words

  function Word(b: Block, j: nat): (w: nat)
    requires j < NWORDS
    ensures w < U32
  {
    var b0: int, b1: int, b2: int, b3: int := b[4 * j], b[4 * j + 1], b[4 * j + 2], b[4 * j + 3];
    b0 + 0x100 * b1 + 0x1_0000 * b2 + 0x100_0000 * b3
  }

  /** w >> 8, w >> 16, w >> 24. */
  function Shifted(w: nat): (q: (nat, nat, nat))
    requires w < U32
    ensures q.2 < 0x100
  {
    (w / 0x100, w / 0x100 / 0x100, w / 0x100 / 0x100 / 0x100)
  }

  function WithWord(b: Block, j: nat, w: nat): Block
    requires j < NWORDS && w < U32
  {
    var (q1, q2, q3) := Shifted(w);
    b[4 * j := w % 0x100][4 * j + 1 := q1 % 0x100][4 * j + 2 := q2 % 0x100][4 * j + 3 := q3]
  }

  lemma Digits(w: nat)
    requires w < U32
    ensures var (q1, q2, q3) := Shifted(w);
            w == w % 0x100 + 0x100 * (q1 % 0x100) + 0x1_0000 * (q2 % 0x100) + 0x100_0000 * q3
  {
    var (q1, q2, q3) := Shifted(w);
    assert w == w % 0x100 + 0x100 * q1;
    assert q1 == q1 % 0x100 + 0x100 * q2;
    assert q2 == q2 % 0x100 + 0x100 * q3;
  }

  /** Storing a word and loading it back; the other words stay. */
  lemma WordRoundTrip(b: Block, j: nat, w: nat, k: nat)
    requires j < NWORDS && w < U32 && k < NWORDS
    ensures Word(WithWord(b, j, w), k) == if k == j then w else Word(b, k)
  {
    Digits(w);
    var c := WithWord(b, j, w);
    var (q1, q2, q3) := Shifted(w);
    assert c[4 * j] == w % 0x100 && c[4 * j + 1] == q1 % 0x100 && c[4 * j + 2] == q2 % 0x100 && c[4 * j + 3] == q3;
    if k != j {
      assert 4 * k + 3 < 4 * j || 4 * j + 3 < 4 * k;
      assert c[4 * k] == b[4 * k] && c[4 * k + 1] == b[4 * k + 1] && c[4 * k + 2] == b[4 * k + 2] && c[4 * k + 3] == b[4 * k + 3];
    }
  }

  lemma ZeroWord(j: nat)
    requires j < NWORDS
    ensures Word(Zero(), j) == 0
  {
  }

  // ------------------------------------------------------------------
  // Bits

  /** x & (1 << k) is not zero. */
  predicate Has(x: nat, k: nat) {
    if k == 0 then x % 2 == 1 else Has(x / 2, k - 1)
  }

  /** x | (1 << k). */
  function Or(x: nat, k: nat): nat {
    if k == 0 then x / 2 * 2 + 1 else Or(x / 2, k - 1) * 2 + x % 2
  }

  /** x & ~(1 << k). */
  function AndNot(x: nat, k: nat): nat {
    if k == 0 then x / 2 * 2 else AndNot(x / 2, k - 1) * 2 + x % 2
  }

  lemma Half(y: nat, r: nat)
    requires r < 2
    ensures (y * 2 + r) / 2 == y && (y * 2 + r) % 2 == r
  {
  }

  lemma {:induction false} OrHas(x: nat, k: nat, j: nat)
    ensures Has(Or(x, k), j) <==> (k == j || Has(x, j))
    ensures Has(AndNot(x, k), j) <==> (k != j && Has(x, j))
  {
    if k == 0 {
      Half(x / 2, 0);
      Half(x / 2, 1);
    } else {
      Half(Or(x / 2, k - 1), x % 2);
      Half(AndNot(x / 2, k - 1), x % 2);
      if j > 0 {
        OrHas(x / 2, k - 1, j - 1);
      }
    }
  }

  function Pow2(n: nat): nat {
    if n == 0 then 1 else 2 * Pow2(n - 1)
  }

  lemma {:induction false} OrBound(x: nat, k: nat, n: nat)
    requires x < Pow2(n) && k < n
    ensures Or(x, k) < Pow2(n) && AndNot(x, k) < Pow2(n)
  {
    if k > 0 {
      OrBound(x / 2, k - 1, n - 1);
    }
  }

  /** The byte with bit k set or cleared. */
  function Put(x: Byte, k: nat, on: bool): Byte
    requires k < 8
  {
    assert Pow2(8) == 2 * Pow2(7) == 4 * Pow2(6) == 8 * Pow2(5) == 16 * Pow2(4) == 32 * Pow2(3);
    OrBound(x, k, 8);
    if on then Or(x, k) else AndNot(x, k)
  }

  predicate Bit(b: Block, i: nat)
    requires i < BPB
  {
    Has(b[i / 8], i % 8)
  }

  function SetBit(b: Block, i: nat): Block
    requires i < BPB
  {
    b[i / 8 := Put(b[i / 8], i % 8, true)]
  }

  function ClearBit(b: Block, i: nat): Block
    requires i < BPB
  {
    b[i / 8 := Put(b[i / 8], i % 8, false)]
  }

  lemma SetBitAt(b: Block, i: nat, k: nat)
    requires i < BPB && k < BPB
    ensures Bit(SetBit(b, i), k) <==> (k == i || Bit(b, k))
    ensures Bit(ClearBit(b, i), k) <==> (k != i && Bit(b, k))
  {
    OrHas(b[i / 8], i % 8, k % 8);
  }
}
