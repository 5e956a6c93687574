/** The on-disk log format of log.c and what recovery makes of a disk image.

A disk is a sequence of blocks of BSIZE bytes, seen as 32-bit words. The log
region holds a header block (a count and that many home block numbers) followed
by the logged copies of those blocks.
 */
module LogFormat {
  const BLOCK_WORDS: nat := 128  // BSIZE / sizeof(int)
  const MAXOPBLOCKS: nat := 10
  const LOGSIZE: nat := 30

  datatype Block = Block(words: seq<int>)
  type Image = seq<Block>

  /** What initlog reads from the superblock: the log occupies blocks
      start .. start + size - 1 of a disk of `total` blocks. */
  datatype Layout = Layout(start: nat, size: nat, total: nat) {
    predicate Valid() {
      1 <= size && start + size <= total
    }

    predicate InLog(b: nat) {
      start <= b < start + size
    }

    predicate Home(b: nat) {
      b < total && !InLog(b)
    }

    /** Block number of the i-th logged copy. */
    function Slot(i: nat): nat {
      start + i + 1
    }
  }

  predicate Distinct(s: seq<nat>) {
    forall i, j :: 0 <= i < j < |s| ==> s[i] != s[j]
  }

  /** A list of block numbers that log_write may have gathered. */
  predicate Listed(lay: Layout, lh: seq<nat>) {
    && |lh| <= LOGSIZE
    && Distinct(lh)
    && forall i :: 0 <= i < |lh| ==> lay.Home(lh[i])
  }

  /** A list of block numbers that may stand in a header: the log region has a slot
      for each of them. */
  predicate Loggable(lay: Layout, lh: seq<nat>) {
    Listed(lay, lh) && |lh| < lay.size
  }

  predicate HeadOk(b: Block) {
    && |b.words| == BLOCK_WORDS
    && 0 <= b.words[0] <= LOGSIZE
    && forall i :: 1 <= i <= b.words[0] ==> 0 <= b.words[i]
  }

  /** read_head: the block numbers a header block lists. */
  function Head(b: Block): (lh: seq<nat>)
    requires HeadOk(b)
  {
    seq(b.words[0], i requires 0 <= i < b.words[0] => b.words[i + 1])
  }

  /** write_head: the count and the listed numbers are overwritten, the words
      after them keep whatever the block held. */
  function WithHead(b: Block, lh: seq<nat>): (r: Block)
    requires |lh| <= LOGSIZE && |b.words| == BLOCK_WORDS
  {
    Block([|lh|] + lh + b.words[1 + |lh|..])
  }

  lemma HeadRoundTrip(b: Block, lh: seq<nat>)
    requires |lh| <= LOGSIZE && |b.words| == BLOCK_WORDS
    ensures HeadOk(WithHead(b, lh)) && Head(WithHead(b, lh)) == lh
  {
    var r := WithHead(b, lh).words;
    assert forall i :: 1 <= i <= |lh| ==> r[i] == lh[i - 1];
    assert |Head(Block(r))| == |lh|;
  }

  predicate ImageOk(lay: Layout, d: Image) {
    && lay.Valid()
    && |d| == lay.total
    && HeadOk(d[lay.start])
    && Loggable(lay, Head(d[lay.start]))
  }

  /** install_trans stopped after its first k copies. */
  function Installed(lay: Layout, d: Image, lh: seq<nat>, k: nat): (r: Image)
    requires lay.Valid() && |d| == lay.total && Loggable(lay, lh) && k <= |lh|
    ensures |r| == |d|
  {
    if k == 0 then d
    else
      var p := Installed(lay, d, lh, k - 1);
      p[lh[k - 1] := p[lay.Slot(k - 1)]]
  }

  /** The image recover_from_log leaves when it is not interrupted. */
  function Recovered(lay: Layout, d: Image): (r: Image)
    requires ImageOk(lay, d)
    ensures |r| == |d|
  {
    var lh := Head(d[lay.start]);
    Installed(lay, d, lh, |lh|)[lay.start := WithHead(d[lay.start], [])]
  }

  /** The file system's view of an image: the blocks outside the log. */
  function HomeView(lay: Layout, d: Image): (v: map<nat, Block>)
    requires |d| == lay.total
  {
    map b: nat | 0 <= b < lay.total && lay.Home(b) :: d[b]
  }

  /** Installing touches exactly the listed blocks, and gives each its logged copy. */
  lemma {:induction false} InstalledAt(lay: Layout, d: Image, lh: seq<nat>, k: nat)
    requires lay.Valid() && |d| == lay.total && Loggable(lay, lh) && k <= |lh|
    ensures forall j :: 0 <= j < k ==> Installed(lay, d, lh, k)[lh[j]] == d[lay.Slot(j)]
    ensures forall b :: 0 <= b < |d| && b !in lh[..k] ==> Installed(lay, d, lh, k)[b] == d[b]
  {
    if k > 0 {
      InstalledAt(lay, d, lh, k - 1);
      var p := Installed(lay, d, lh, k - 1);
      assert p[lay.Slot(k - 1)] == d[lay.Slot(k - 1)] by {
        assert lay.InLog(lay.Slot(k - 1));
        assert lay.Slot(k - 1) !in lh[..k - 1];
      }
      assert lh[..k] == lh[..k - 1] + [lh[k - 1]];
    }
  }

  /** What recovery does to the home blocks: each listed block takes its logged
      copy, every other one stays. */
  lemma RecoveredHome(lay: Layout, d: Image)
    requires ImageOk(lay, d)
    ensures var lh := Head(d[lay.start]);
            && (forall j :: 0 <= j < |lh| ==> HomeView(lay, Recovered(lay, d))[lh[j]] == d[lay.Slot(j)])
            && (forall b :: 0 <= b < |d| && lay.Home(b) && b !in lh ==> HomeView(lay, Recovered(lay, d))[b] == d[b])
  {
    var lh := Head(d[lay.start]);
    InstalledAt(lay, d, lh, |lh|);
    assert lh[..|lh|] == lh;
  }

  /** RecoveredHome characterises the recovered view: it is the only one like that. */
  lemma RecoveredIs(lay: Layout, d: Image, v: map<nat, Block>)
    requires ImageOk(lay, d)
    requires v.Keys == HomeView(lay, d).Keys
    requires var lh := Head(d[lay.start]);
             && (forall j :: 0 <= j < |lh| ==> v[lh[j]] == d[lay.Slot(j)])
             && (forall b :: b in v && b !in lh ==> v[b] == d[b])
    ensures HomeView(lay, Recovered(lay, d)) == v
  {
    RecoveredHome(lay, d);
    var lh := Head(d[lay.start]);
    var w := HomeView(lay, Recovered(lay, d));
    forall b | b in v ensures w[b] == v[b] {
      if b in lh {
        var j :| 0 <= j < |lh| && lh[j] == b;
      }
    }
  }

  /** Two images with the same header and the same logged copies recover to the
      same home blocks if they agree on the blocks that are not listed: whatever
      a crash left half-installed does not matter. */
  lemma RecoveryIgnoresListed(lay: Layout, d: Image, e: Image)
    requires ImageOk(lay, d) && ImageOk(lay, e)
    requires Head(d[lay.start]) == Head(e[lay.start])
    requires forall j :: 0 <= j < |Head(d[lay.start])| ==> d[lay.Slot(j)] == e[lay.Slot(j)]
    requires forall b :: 0 <= b < |d| && lay.Home(b) && b !in Head(d[lay.start]) ==> d[b] == e[b]
    ensures HomeView(lay, Recovered(lay, d)) == HomeView(lay, Recovered(lay, e))
  {
    RecoveredHome(lay, d);
    RecoveredIs(lay, e, HomeView(lay, Recovered(lay, d)));
  }

  /** Once every listed block is in place, recovering is the same as doing nothing. */
  lemma AllInPlace(lay: Layout, d: Image)
    requires ImageOk(lay, d)
    requires var lh := Head(d[lay.start]); forall j :: 0 <= j < |lh| ==> d[lh[j]] == d[lay.Slot(j)]
    ensures HomeView(lay, Recovered(lay, d)) == HomeView(lay, d)
  {
    RecoveredIs(lay, d, HomeView(lay, d));
  }
}
