/** Disk and buffer cache as log.c sees them through bio.c: which blocks are
cached, which of them are pinned with B_DIRTY, and which have been modified by an
operation that has not called log_write on them yet. */
module LogStore {
  import opened LogFormat

  datatype Store = Store(disk: Image, cache: map<nat, Block>, dirty: set<nat>, unlogged: set<nat>)

  /** bread: the cached copy if there is one, the disk block otherwise. */
  function Content(st: Store, b: nat): (d: Block)
    requires b < |st.disk|
  {
    if b in st.cache then st.cache[b] else st.disk[b]
  }

  function Loaded(st: Store, b: nat): Store
    requires b < |st.disk|
  {
    st.(cache := st.cache[b := Content(st, b)])
  }

  function Modified(st: Store, b: nat, d: Block): Store {
    st.(cache := st.cache[b := d], unlogged := st.unlogged + {b})
  }

  /** log_write sets B_DIRTY. */
  function Pinned(st: Store, b: nat): Store {
    st.(dirty := st.dirty + {b}, unlogged := st.unlogged - {b})
  }

  function Dropped(st: Store, b: nat): Store {
    st.(cache := st.cache - {b})
  }

  /** bwrite of block b holding d: B_DIRTY is clear when it returns. */
  function Written(st: Store, b: nat, d: Block): Store
    requires b < |st.disk|
  {
    st.(disk := st.disk[b := d], cache := st.cache[b := d], dirty := st.dirty - {b})
  }

  /** A buffer that is neither pinned nor being modified equals its disk block;
      only cached home blocks are pinned or being modified. */
  predicate BufOk(lay: Layout, st: Store, b: nat)
    requires |st.disk| == lay.total
  {
    && (b in st.cache ==> b < lay.total && (st.cache[b] == st.disk[b] || b in st.dirty || b in st.unlogged))
    && (b in st.dirty || b in st.unlogged ==> b in st.cache && lay.Home(b))
  }

  ghost predicate StoreOk(lay: Layout, st: Store) {
    |st.disk| == lay.total && forall b: nat {:trigger BufOk(lay, st, b)} :: BufOk(lay, st, b)
  }

  /** What the file system sees now: cached copies over the disk. */
  function View(lay: Layout, st: Store): (v: map<nat, Block>)
    requires |st.disk| == lay.total
  {
    map b: nat | 0 <= b < lay.total && lay.Home(b) :: Content(st, b)
  }

  lemma SameView(lay: Layout, st: Store, st': Store)
    requires |st.disk| == lay.total == |st'.disk|
    requires forall b :: 0 <= b < lay.total && lay.Home(b) ==> Content(st, b) == Content(st', b)
    ensures View(lay, st) == View(lay, st')
  {
  }

  lemma LoadedOk(lay: Layout, st: Store, b: nat)
    requires StoreOk(lay, st) && b < lay.total
    ensures StoreOk(lay, Loaded(st, b)) && View(lay, Loaded(st, b)) == View(lay, st)
  {
    var st' := Loaded(st, b);
    forall x: nat ensures BufOk(lay, st', x) {
      assert BufOk(lay, st, x);
    }
    SameView(lay, st, st');
  }

  lemma ModifiedOk(lay: Layout, st: Store, b: nat, d: Block)
    requires StoreOk(lay, st) && lay.Home(b)
    ensures StoreOk(lay, Modified(st, b, d)) && View(lay, Modified(st, b, d)) == View(lay, st)[b := d]
  {
    var st' := Modified(st, b, d);
    forall x: nat ensures BufOk(lay, st', x) {
      assert BufOk(lay, st, x);
    }
    assert View(lay, st') == View(lay, st)[b := d];
  }

  lemma PinnedOk(lay: Layout, st: Store, b: nat)
    requires StoreOk(lay, st) && lay.Home(b) && b in st.cache
    ensures StoreOk(lay, Pinned(st, b)) && View(lay, Pinned(st, b)) == View(lay, st)
  {
    var st' := Pinned(st, b);
    forall x: nat ensures BufOk(lay, st', x) {
      assert BufOk(lay, st, x);
    }
    SameView(lay, st, st');
  }

  lemma DroppedOk(lay: Layout, st: Store, b: nat)
    requires StoreOk(lay, st) && b !in st.dirty && b !in st.unlogged
    ensures StoreOk(lay, Dropped(st, b)) && View(lay, Dropped(st, b)) == View(lay, st)
  {
    var st' := Dropped(st, b);
    forall x: nat ensures BufOk(lay, st', x) {
      assert BufOk(lay, st, x);
    }
    forall x: nat | x < lay.total ensures Content(st', x) == Content(st, x) {
      assert BufOk(lay, st, x);
    }
    SameView(lay, st, st');
  }

  lemma WrittenStoreOk(lay: Layout, st: Store, b: nat, d: Block)
    requires StoreOk(lay, st) && b < lay.total && b !in st.unlogged
    ensures StoreOk(lay, Written(st, b, d))
  {
    forall x: nat ensures BufOk(lay, Written(st, b, d), x) {
      assert BufOk(lay, st, x);
    }
  }

  lemma WrittenOk(lay: Layout, st: Store, b: nat, d: Block)
    requires StoreOk(lay, st) && b < lay.total && b !in st.unlogged
    requires lay.Home(b) ==> d == Content(st, b)
    ensures StoreOk(lay, Written(st, b, d)) && View(lay, Written(st, b, d)) == View(lay, st)
  {
    WrittenStoreOk(lay, st, b, d);
    SameView(lay, st, Written(st, b, d));
  }

  /** Log blocks are never pinned: reading one through the cache reads the disk. */
  lemma ContentClean(lay: Layout, st: Store, b: nat)
    requires StoreOk(lay, st) && b < lay.total && b !in st.dirty && b !in st.unlogged
    ensures Content(st, b) == st.disk[b]
  {
    assert BufOk(lay, st, b);
  }

  lemma ContentLog(lay: Layout, st: Store, b: nat)
    requires StoreOk(lay, st) && lay.InLog(b) && b < lay.total
    ensures Content(st, b) == st.disk[b] && b !in st.dirty && b !in st.unlogged
  {
    assert BufOk(lay, st, b);
  }
}
