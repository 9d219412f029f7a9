/** The buffer cache (bio.c) over an in-memory disk (memide.c:39-60).

    `View` is what the file system sees in a block: the cached copy if there is a valid one,
    else the disk copy.  Apart from `Modify`, no operation of the cache changes any block's view. */
module BufferCache {
  import opened Common
  import opened DiskLog
  import opened BufferRing

  const ROOTDEV: nat := 1

  predicate Caches(b: Buf, dev: nat, blockno: nat) {
    b.dev == dev && b.blockno == blockno
  }

  /** The buffer assigned to a block, or -1. */
  ghost function Slot(bufs: seq<Buf>, dev: nat, blockno: nat): (i: int)
    requires |bufs| == NBUF + 1
    ensures i >= 0 ==> i < NBUF && Caches(bufs[i], dev, blockno)
    ensures i < 0 ==> forall j :: 0 <= j < NBUF ==> !Caches(bufs[j], dev, blockno)
  {
    if exists j :: 0 <= j < NBUF && Caches(bufs[j], dev, blockno) then
      var j :| 0 <= j < NBUF && Caches(bufs[j], dev, blockno);
      j
    else -1
  }

  ghost function View(disk: Image, bufs: seq<Buf>, blockno: nat): (contents: Block)
    requires |bufs| == NBUF + 1 && blockno < |disk|
  {
    var i := Slot(bufs, ROOTDEV, blockno);
    if i >= 0 && bufs[i].valid then bufs[i].data else disk[blockno]
  }

  ghost predicate SameView(disk: Image, bufs: seq<Buf>, disk': Image, bufs': seq<Buf>)
    requires |bufs| == |bufs'| == NBUF + 1 && |disk| == |disk'|
  {
    forall b :: 0 <= b < |disk| ==> View(disk', bufs', b) == View(disk, bufs, b)
  }

  /** No block has two buffers; the zeroed buffers of device 0 are not assigned to a block. */
  ghost predicate Unique(bufs: seq<Buf>)
    requires |bufs| == NBUF + 1
  {
    forall i, j :: 0 <= i < NBUF && 0 <= j < NBUF && bufs[i].dev != 0 && Caches(bufs[j], bufs[i].dev, bufs[i].blockno) ==> i == j
  }

  /** An unlocked buffer that is valid and not dirty agrees with the disk. */
  ghost predicate BufOk(b: Buf, disk: Image) {
    && (b.holder.Some? ==> b.refcnt > 0)
    && (b.refcnt > 0 ==> b.dev != 0)
    && (b.dirty ==> b.valid)
    && (b.valid ==> b.dev == ROOTDEV && b.blockno < |disk|)
    && (b.valid && !b.dirty && b.holder.None? ==> b.data == disk[b.blockno])
  }

  ghost predicate CacheOk(disk: Image, bufs: seq<Buf>) {
    && |bufs| == NBUF + 1
    && Unique(bufs)
    && forall i :: 0 <= i < NBUF ==> BufOk(bufs[i], disk)
  }

  predicate Recyclable(b: Buf) {
    b.refcnt == 0 && !b.dirty
  }

  /** The ring lists every buffer, most recently released first. */
  ghost predicate LruOk(bufs: seq<Buf>, order: seq<nat>, stamp: seq<nat>, clock: nat) {
    && Ring(bufs, order)
    && |stamp| == NBUF
    && (forall i :: 0 <= i < NBUF ==> i in order)
    && (forall i :: 0 <= i < NBUF ==> stamp[i] < clock)
    && (forall i, j :: 0 <= i < j < |order| ==> stamp[order[i]] > stamp[order[j]])
  }

  /** The blocks with a dirty buffer: these stay cached until they are written. */
  ghost function DirtyBlocks(bufs: seq<Buf>): (s: set<nat>)
    requires |bufs| == NBUF + 1
  {
    set i | 0 <= i < NBUF && bufs[i].dirty :: bufs[i].blockno
  }

  // ---- Effects of single-buffer updates ----

  lemma DirtyIsCached(disk: Image, bufs: seq<Buf>, blockno: nat)
    requires CacheOk(disk, bufs) && blockno in DirtyBlocks(bufs)
    ensures var s := Slot(bufs, ROOTDEV, blockno); s >= 0 && bufs[s].valid && bufs[s].dirty
  {
    var i :| 0 <= i < NBUF && bufs[i].dirty && bufs[i].blockno == blockno;
    SlotUnique(disk, bufs, i);
  }

  /** How changing one buffer changes the set of dirty blocks. */
  lemma DirtyAfter(disk: Image, bufs: seq<Buf>, i: nat, b: Buf)
    requires CacheOk(disk, bufs) && i < NBUF
    requires bufs[i].dirty || b.dirty ==> b.dev == bufs[i].dev == ROOTDEV && b.blockno == bufs[i].blockno
    ensures bufs[i].dirty == b.dirty ==> DirtyBlocks(bufs[i := b]) == DirtyBlocks(bufs)
    ensures !bufs[i].dirty && b.dirty ==> DirtyBlocks(bufs[i := b]) == DirtyBlocks(bufs) + {b.blockno}
    ensures bufs[i].dirty && !b.dirty ==> DirtyBlocks(bufs[i := b]) == DirtyBlocks(bufs) - {b.blockno}
  {
    var bufs' := bufs[i := b];
    forall x | x in DirtyBlocks(bufs) && !(bufs[i].dirty && !b.dirty && x == b.blockno) ensures x in DirtyBlocks(bufs') {
      var j :| 0 <= j < NBUF && bufs[j].dirty && bufs[j].blockno == x;
      assert bufs'[j].dirty && bufs'[j].blockno == x;
    }
    forall x | x in DirtyBlocks(bufs') ensures x in DirtyBlocks(bufs) || (b.dirty && x == b.blockno) {
      var j :| 0 <= j < NBUF && bufs'[j].dirty && bufs'[j].blockno == x;
      assert j != i ==> bufs[j].dirty && bufs[j].blockno == x;
    }
    if b.dirty { assert bufs'[i].dirty; }
    if bufs[i].dirty {
      assert bufs[i].blockno in DirtyBlocks(bufs);
      SlotUnique(disk, bufs, i);
      assert forall j :: 0 <= j < NBUF && bufs[j].dirty && j != i ==> !Caches(bufs[j], ROOTDEV, b.blockno);
    }
  }

  lemma SameDirty(bufs: seq<Buf>, bufs': seq<Buf>)
    requires |bufs| == NBUF + 1 && SamePayloads(bufs, bufs')
    ensures DirtyBlocks(bufs') == DirtyBlocks(bufs)
  {
    assert forall i :: 0 <= i < NBUF ==> bufs[i].dirty == bufs'[i].dirty && bufs[i].blockno == bufs'[i].blockno by {
      forall i | 0 <= i < NBUF ensures bufs[i].dirty == bufs'[i].dirty && bufs[i].blockno == bufs'[i].blockno {
        assert SamePayload(bufs[i], bufs'[i]);
      }
    }
  }

  ghost function DirtyBelow(bufs: seq<Buf>, busy: set<nat>, k: nat): (s: set<nat>)
    requires |bufs| == NBUF + 1 && k <= NBUF
  {
    set i | 0 <= i < k && i !in busy && bufs[i].dirty :: bufs[i].blockno
  }

  lemma {:induction false} CountDirty(disk: Image, bufs: seq<Buf>, busy: set<nat>, k: nat)
    requires CacheOk(disk, bufs) && k <= NBUF
    requires forall i :: 0 <= i < k && i !in busy ==> bufs[i].dirty
    ensures |DirtyBelow(bufs, busy, k)| + |set i | i in busy && i < k| == k
    decreases k
  {
    if k > 0 {
      CountDirty(disk, bufs, busy, k - 1);
      var i := k - 1;
      var below, below' := (set j | j in busy && j < i), (set j | j in busy && j < k);
      if i in busy {
        assert below' == below + {i};
        assert DirtyBelow(bufs, busy, k) == DirtyBelow(bufs, busy, i);
      } else {
        assert below' == below;
        SlotUnique(disk, bufs, i);
        assert forall j :: 0 <= j < NBUF && bufs[j].dirty && j != i ==> !Caches(bufs[j], ROOTDEV, bufs[i].blockno);
        assert bufs[i].blockno !in DirtyBelow(bufs, busy, i);
        assert DirtyBelow(bufs, busy, k) == DirtyBelow(bufs, busy, i) + {bufs[i].blockno};
      }
    } else {
      assert DirtyBelow(bufs, busy, 0) == {};
      assert (set i | i in busy && i < 0) == {};
    }
  }

  /** With fewer dirty and busy buffers than buffers, bget cannot run out. */
  lemma SpareBuffer(disk: Image, bufs: seq<Buf>, busy: set<nat>)
    requires CacheOk(disk, bufs)
    requires forall i :: 0 <= i < NBUF && i !in busy ==> bufs[i].refcnt == 0
    requires |busy| + |DirtyBlocks(bufs)| < NBUF
    ensures exists i :: 0 <= i < NBUF && Recyclable(bufs[i])
  {
    if forall i :: 0 <= i < NBUF && i !in busy ==> bufs[i].dirty {
      CountDirty(disk, bufs, busy, NBUF);
      SubsetSize((set i | i in busy && i < NBUF), busy);
      SubsetSize(DirtyBelow(bufs, busy, NBUF), DirtyBlocks(bufs));
    } else {
      var i :| 0 <= i < NBUF && i !in busy && !bufs[i].dirty;
      assert Recyclable(bufs[i]);
    }
  }

  lemma SlotUnique(disk: Image, bufs: seq<Buf>, i: nat)
    requires CacheOk(disk, bufs) && i < NBUF && bufs[i].dev != 0
    ensures Slot(bufs, bufs[i].dev, bufs[i].blockno) == i
    ensures forall j :: 0 <= j < NBUF && Caches(bufs[j], bufs[i].dev, bufs[i].blockno) ==> j == i
  {
    assert Caches(bufs[i], bufs[i].dev, bufs[i].blockno);
  }

  /** An update of buffer i that keeps its block and its valid contents keeps every view. */
  lemma UpdateKeepsViews(disk: Image, bufs: seq<Buf>, i: nat, b: Buf)
    requires CacheOk(disk, bufs) && i < NBUF
    requires BufOk(b, disk) && b.dev == bufs[i].dev && b.blockno == bufs[i].blockno
    requires b.dev == ROOTDEV && b.blockno < |disk| ==>
      (if b.valid then b.data else disk[b.blockno]) == (if bufs[i].valid then bufs[i].data else disk[b.blockno])
    ensures CacheOk(disk, bufs[i := b]) && SameView(disk, bufs, disk, bufs[i := b])
  {
    var bufs' := bufs[i := b];
    assert Unique(bufs') by {
      forall x, y | 0 <= x < NBUF && 0 <= y < NBUF && bufs'[x].dev != 0 && Caches(bufs'[y], bufs'[x].dev, bufs'[x].blockno)
        ensures x == y
      {
        assert Caches(bufs[y], bufs[x].dev, bufs[x].blockno);
      }
    }
    forall blockno | 0 <= blockno < |disk| ensures View(disk, bufs', blockno) == View(disk, bufs, blockno) {
      SlotsAgree(disk, bufs, i, b, blockno);
    }
  }

  lemma SlotsAgree(disk: Image, bufs: seq<Buf>, i: nat, b: Buf, blockno: nat)
    requires CacheOk(disk, bufs) && i < NBUF && b.dev == bufs[i].dev && b.blockno == bufs[i].blockno
    ensures Slot(bufs[i := b], ROOTDEV, blockno) == Slot(bufs, ROOTDEV, blockno)
  {
    var bufs' := bufs[i := b];
    var s, s' := Slot(bufs, ROOTDEV, blockno), Slot(bufs', ROOTDEV, blockno);
    assert forall j :: 0 <= j < NBUF ==> Caches(bufs'[j], ROOTDEV, blockno) == Caches(bufs[j], ROOTDEV, blockno);
    if s >= 0 {
      assert Caches(bufs'[s], ROOTDEV, blockno);
      SlotUnique(disk, bufs, s);
    }
  }

  /** Reassigning a clean, unreferenced buffer to a block that has none loses nothing. */
  lemma RecycleKeepsViews(disk: Image, bufs: seq<Buf>, i: nat, dev: nat, blockno: nat)
    requires CacheOk(disk, bufs) && i < NBUF && Recyclable(bufs[i])
    requires dev != 0 && Slot(bufs, dev, blockno) < 0
    ensures var bufs' := bufs[i := Recycled(bufs[i], dev, blockno)];
      CacheOk(disk, bufs') && SameView(disk, bufs, disk, bufs')
  {
    var bufs' := bufs[i := Recycled(bufs[i], dev, blockno)];
    assert Unique(bufs') by {
      forall x, y | 0 <= x < NBUF && 0 <= y < NBUF && bufs'[x].dev != 0 && Caches(bufs'[y], bufs'[x].dev, bufs'[x].blockno)
        ensures x == y
      {
        assert !Caches(bufs[x], dev, blockno) && !Caches(bufs[y], dev, blockno);
        if x != i && y != i { assert Caches(bufs[y], bufs[x].dev, bufs[x].blockno); }
      }
    }
    assert CacheOk(disk, bufs');
    forall b | 0 <= b < |disk| ensures View(disk, bufs', b) == View(disk, bufs, b) {
      RecycleKeepsView(disk, bufs, i, dev, blockno, b);
    }
  }

  function Recycled(b: Buf, dev: nat, blockno: nat): (r: Buf) {
    b.(dev := dev, blockno := blockno, valid := false, dirty := false, refcnt := 1)
  }

  lemma RecycleKeepsView(disk: Image, bufs: seq<Buf>, i: nat, dev: nat, blockno: nat, b: nat)
    requires CacheOk(disk, bufs) && i < NBUF && Recyclable(bufs[i])
    requires dev != 0 && Slot(bufs, dev, blockno) < 0 && b < |disk|
    requires CacheOk(disk, bufs[i := Recycled(bufs[i], dev, blockno)])
    ensures View(disk, bufs[i := Recycled(bufs[i], dev, blockno)], b) == View(disk, bufs, b)
  {
    var bufs' := bufs[i := Recycled(bufs[i], dev, blockno)];
    var s, s' := Slot(bufs, ROOTDEV, b), Slot(bufs', ROOTDEV, b);
    assert forall j :: 0 <= j < NBUF && j != i ==> Caches(bufs'[j], ROOTDEV, b) == Caches(bufs[j], ROOTDEV, b);
    if s >= 0 {
      SlotUnique(disk, bufs, s);
      if s != i {
        assert Caches(bufs'[s], ROOTDEV, b);
        SlotUnique(disk, bufs', s);
      }
    }
  }

  /** Writing a locked buffer through to its disk block keeps every view. */
  lemma WriteThroughKeepsViews(disk: Image, bufs: seq<Buf>, i: nat)
    requires CacheOk(disk, bufs) && i < NBUF && bufs[i].holder.Some?
    requires bufs[i].dev == ROOTDEV && bufs[i].blockno < |disk|
    ensures var b := bufs[i];
      var disk', bufs' := disk[b.blockno := b.data], bufs[i := b.(valid := true, dirty := false)];
      && CacheOk(disk', bufs')
      && (forall x :: 0 <= x < |disk| && x != b.blockno ==> View(disk', bufs', x) == View(disk, bufs, x))
      && View(disk', bufs', b.blockno) == b.data
  {
    var b := bufs[i];
    var disk', bufs' := disk[b.blockno := b.data], bufs[i := b.(valid := true, dirty := false)];
    assert Unique(bufs') by {
      forall x, y | 0 <= x < NBUF && 0 <= y < NBUF && bufs'[x].dev != 0 && Caches(bufs'[y], bufs'[x].dev, bufs'[x].blockno)
        ensures x == y
      {
        assert Caches(bufs[y], bufs[x].dev, bufs[x].blockno);
      }
    }
    SlotUnique(disk, bufs, i);
    forall j | 0 <= j < NBUF ensures BufOk(bufs'[j], disk') {
      assert j != i ==> !Caches(bufs[j], ROOTDEV, b.blockno);
    }
    SlotUnique(disk', bufs', i);
    forall x | 0 <= x < |disk| && x != b.blockno ensures View(disk', bufs', x) == View(disk, bufs, x) {
      SlotsAgree(disk, bufs, i, bufs'[i], x);
    }
  }

  const ZERO_BLOCK: Block := seq(BLOCK_WORDS, _ => 0)
  const ZERO_BUF: Buf := Buf(false, false, 0, 0, None, 0, 0, 0, ZERO_BLOCK)

  class Cache {
    var disk: Image
    var bufs: seq<Buf>            // bcache.buf[0..NBUF], and bcache.head at index HEAD
    ghost var order: seq<nat>     // the ring, from the most to the least recently used
    ghost var stamp: seq<nat>     // when each buffer was last released
    ghost var clock: nat
    ghost var history: seq<Image> // the disk image after every write so far

    ghost predicate Valid()
      reads this
    {
      CacheOk(disk, bufs) && LruOk(bufs, order, stamp, clock)
    }

    /** binit (bio.c:39-57) on a machine that has just booted with `image` on its disk. */
    constructor Binit(image: Image)
      ensures Valid() && disk == image && history == []
      ensures forall i :: 0 <= i < NBUF ==> bufs[i].dev == 0 && Recyclable(bufs[i])
    {
      disk, history := image, [];
      var b := seq(NBUF + 1, _ => ZERO_BUF);
      b := b[HEAD := b[HEAD].(prev := HEAD, next := HEAD)];
      ghost var linked: seq<nat> := [];
      var k := 0;
      while k < NBUF
        invariant 0 <= k <= NBUF
        invariant Ring(b, linked)
        invariant forall i :: 0 <= i < NBUF ==> SamePayload(b[i], ZERO_BUF)
        invariant |linked| == k && forall i :: 0 <= i < k ==> linked[i] == k - 1 - i
      {
        LinkRing(b, linked, k);
        ghost var before := b;
        b := LinkedFront(b, k);
        forall i | 0 <= i < NBUF ensures SamePayload(b[i], ZERO_BUF) {
          assert SamePayload(before[i], b[i]);
        }
        linked := [k] + linked;
        k := k + 1;
      }
      bufs, order, stamp, clock := b, linked, seq(NBUF, i => i), NBUF;
      forall i | 0 <= i < NBUF ensures i in linked { assert linked[NBUF - 1 - i] == i; }
    }

    /** The critical section of bget (bio.c:66-91): find the block's buffer, or recycle the least
        recently used one that is neither referenced nor dirty; None is the panic "no buffers". */
    method Get(dev: nat, blockno: nat) returns (r: Option<nat>)
      requires Valid() && dev != 0
      modifies this`bufs
      ensures Valid() && SameView(disk, old(bufs), disk, bufs)
      ensures DirtyBlocks(bufs) == DirtyBlocks(old(bufs))
      ensures r.None? ==> bufs == old(bufs) && forall i :: 0 <= i < NBUF ==> !Recyclable(bufs[i]) && !Caches(bufs[i], dev, blockno)
      ensures r.Some? ==> r.value < NBUF && Caches(bufs[r.value], dev, blockno) && bufs[r.value].refcnt > 0
      ensures r.Some? && Slot(old(bufs), dev, blockno) >= 0 ==>
        && r.value == Slot(old(bufs), dev, blockno)
        && bufs == old(bufs)[r.value := old(bufs)[r.value].(refcnt := old(bufs)[r.value].refcnt + 1)]
      ensures r.Some? && Slot(old(bufs), dev, blockno) < 0 ==>
        && Recyclable(old(bufs)[r.value])
        && (forall i :: 0 <= i < NBUF && Recyclable(old(bufs)[i]) ==> stamp[r.value] <= stamp[i])
        && bufs == old(bufs)[r.value := Recycled(old(bufs)[r.value], dev, blockno)]
    {
      r := FindCached(dev, blockno);
      if r.Some? {
        var b := r.value;
        var b' := bufs[b].(refcnt := bufs[b].refcnt + 1);
        UpdateKeepsViews(disk, bufs, b, b');
        DirtyAfter(disk, bufs, b, b');
        SameLinks(bufs, bufs[b := b'], order);
        bufs := bufs[b := b'];
        return;
      }
      r := FindVictim();
      if r.Some? {
        var b := r.value;
        RecycleKeepsViews(disk, bufs, b, dev, blockno);
        DirtyAfter(disk, bufs, b, Recycled(bufs[b], dev, blockno));
        SameLinks(bufs, bufs[b := Recycled(bufs[b], dev, blockno)], order);
        bufs := bufs[b := Recycled(bufs[b], dev, blockno)];
      }
    }

    /** bget's first loop, from the most recently used buffer on (bio.c:69-76). */
    method FindCached(dev: nat, blockno: nat) returns (r: Option<nat>)
      requires Valid() && dev != 0
      ensures r.None? ==> Slot(bufs, dev, blockno) < 0
      ensures r.Some? ==> r.value == Slot(bufs, dev, blockno)
    {
      var b := bufs[HEAD].next;
      ghost var k := 1;
      assert b == At(order, k) by { assert bufs[At(order, 0)].next == At(order, 1); }
      while b != HEAD
        invariant 1 <= k <= |order| + 1 && b == At(order, k)
        invariant forall i :: 1 <= i < k ==> !Caches(bufs[At(order, i)], dev, blockno)
        decreases |order| + 1 - k
      {
        if bufs[b].dev == dev && bufs[b].blockno == blockno {
          SlotUnique(disk, bufs, b);
          return Some(b);
        }
        assert bufs[At(order, k)].next == At(order, k + 1);
        b := bufs[b].next;
        k := k + 1;
      }
      NotCached(bufs, order, dev, blockno);
      return None;
    }

    /** bget's second loop, from the least recently used buffer on (bio.c:81-91). */
    method FindVictim() returns (r: Option<nat>)
      requires Valid()
      ensures r.None? ==> forall i :: 0 <= i < NBUF ==> !Recyclable(bufs[i])
      ensures r.Some? ==> r.value < NBUF && Recyclable(bufs[r.value])
      ensures r.Some? ==> forall i :: 0 <= i < NBUF && Recyclable(bufs[i]) ==> stamp[r.value] <= stamp[i]
    {
      var b := bufs[HEAD].prev;
      ghost var k := |order|;
      assert b == At(order, k) by { assert bufs[At(order, |order| + 1)].prev == At(order, |order|); }
      while b != HEAD
        invariant 0 <= k <= |order| && b == At(order, k)
        invariant forall i :: k < i <= |order| ==> !Recyclable(bufs[At(order, i)])
        decreases k
      {
        if bufs[b].refcnt == 0 && !bufs[b].dirty {
          LeastRecent(bufs, order, stamp, clock, k);
          return Some(b);
        }
        assert bufs[At(order, k)].prev == At(order, k - 1);
        b := bufs[b].prev;
        k := k - 1;
      }
      forall i | 0 <= i < NBUF ensures !Recyclable(bufs[i]) {
        assert i in order;
        var j :| 0 <= j < |order| && order[j] == i;
        assert At(order, j + 1) == i;
      }
      return None;
    }

    /** acquiresleep on the buffer's lock, at the moment it succeeds (bio.c:73, bio.c:88). */
    method Lock(b: nat, pid: nat)
      requires Valid() && b < NBUF && bufs[b].refcnt > 0 && bufs[b].holder.None?
      modifies this`bufs
      ensures Valid() && SameView(disk, old(bufs), disk, bufs)
      ensures bufs == old(bufs)[b := old(bufs)[b].(holder := Some(pid))]
      ensures DirtyBlocks(bufs) == DirtyBlocks(old(bufs))
    {
      var b' := bufs[b].(holder := Some(pid));
      DirtyAfter(disk, bufs, b, b');
      UpdateKeepsViews(disk, bufs, b, b');
      SameLinks(bufs, bufs[b := b'], order);
      bufs := bufs[b := b'];
    }

    /** iderw (memide.c:39-60): write a dirty buffer to its block, or read the block into an invalid one. */
    method Iderw(b: nat, pid: nat)
      requires Valid() && b < NBUF && bufs[b].holder == Some(pid)
      requires bufs[b].dirty || !bufs[b].valid
      requires bufs[b].dev == ROOTDEV && bufs[b].blockno < |disk|
      modifies this`bufs, this`disk, this`history
      ensures Valid() && |disk| == |old(disk)| && SameView(old(disk), old(bufs), disk, bufs)
      ensures bufs == old(bufs)[b := old(bufs)[b].(valid := true, dirty := false,
                data := if old(bufs)[b].dirty then old(bufs)[b].data else old(disk)[old(bufs)[b].blockno])]
      ensures old(bufs)[b].dirty ==> disk == old(disk)[old(bufs)[b].blockno := old(bufs)[b].data] && history == old(history) + [disk]
      ensures !old(bufs)[b].dirty ==> disk == old(disk) && history == old(history)
      ensures DirtyBlocks(bufs) == DirtyBlocks(old(bufs)) - (if old(bufs)[b].dirty then {bufs[b].blockno} else {})
    {
      SlotUnique(disk, bufs, b);
      if bufs[b].dirty {
        WriteThroughKeepsViews(disk, bufs, b);
        DirtyAfter(disk, bufs, b, bufs[b].(valid := true, dirty := false));
        SameLinks(bufs, bufs[b := bufs[b].(valid := true, dirty := false)], order);
        disk := disk[bufs[b].blockno := bufs[b].data];
        history := history + [disk];
        bufs := bufs[b := bufs[b].(valid := true, dirty := false)];
      } else {
        var b' := bufs[b].(data := disk[bufs[b].blockno], valid := true);
        DirtyAfter(disk, bufs, b, b');
        UpdateKeepsViews(disk, bufs, b, b');
        SameLinks(bufs, bufs[b := b'], order);
        bufs := bufs[b := b'];
      }
    }

    /** bread (bio.c:97-107), for a block whose buffer nobody else has locked. */
    method Bread(dev: nat, blockno: nat, pid: nat) returns (r: Option<nat>)
      requires Valid() && dev == ROOTDEV && blockno < |disk|
      requires Slot(bufs, dev, blockno) >= 0 ==> bufs[Slot(bufs, dev, blockno)].holder.None?
      modifies this`bufs, this`disk, this`history
      ensures disk == old(disk) && history == old(history)
      ensures Valid() && SameView(disk, old(bufs), disk, bufs)
      ensures DirtyBlocks(bufs) == DirtyBlocks(old(bufs))
      ensures r.None? ==> bufs == old(bufs) && Slot(bufs, dev, blockno) < 0 && forall i :: 0 <= i < NBUF ==> !Recyclable(bufs[i])
      ensures r.Some? ==>
        && r.value < NBUF
        && bufs[r.value].data == View(disk, old(bufs), blockno)
        && bufs == old(bufs)[r.value := bufs[r.value]]
        && Caches(bufs[r.value], dev, blockno) && bufs[r.value].valid && bufs[r.value].holder == Some(pid)
        && (if Slot(old(bufs), dev, blockno) >= 0
            then r.value == Slot(old(bufs), dev, blockno) && bufs[r.value].dirty == old(bufs)[r.value].dirty
              && bufs[r.value].refcnt == old(bufs)[r.value].refcnt + 1
            else Recyclable(old(bufs)[r.value]) && !bufs[r.value].dirty && bufs[r.value].refcnt == 1)
    {
      hide LruOk, DirtyBlocks, View, Unique, Slot;
      r := Get(dev, blockno);
      if r.Some? {
        var b := r.value;
        assert bufs[b].holder.None?;
        Lock(b, pid);
        if !bufs[b].valid {
          Iderw(b, pid);
        }
        ViewOf(disk, bufs, b);
      }
    }

    /** The holder changes the buffer's data in memory, as between bread and log_write. */
    method Modify(b: nat, pid: nat, data: Block)
      requires Valid() && b < NBUF && bufs[b].holder == Some(pid) && bufs[b].valid
      modifies this`bufs
      ensures Valid() && bufs == old(bufs)[b := old(bufs)[b].(data := data)]
      ensures DirtyBlocks(bufs) == DirtyBlocks(old(bufs))
      ensures forall x :: 0 <= x < |disk| ==>
        View(disk, bufs, x) == if x == bufs[b].blockno then data else View(disk, old(bufs), x)
    {
      ModifyView(disk, bufs, b, data);
      DirtyAfter(disk, bufs, b, bufs[b].(data := data));
      SameLinks(bufs, bufs[b := bufs[b].(data := data)], order);
      bufs := bufs[b := bufs[b].(data := data)];
    }

    /** bwrite (bio.c:110-116): one atomic disk write. */
    method Bwrite(b: nat, pid: nat)
      requires Valid() && b < NBUF && bufs[b].holder == Some(pid) && bufs[b].valid
      modifies this`bufs, this`disk, this`history
      ensures Valid() && |disk| == |old(disk)| && SameView(old(disk), old(bufs), disk, bufs)
      ensures bufs == old(bufs)[b := old(bufs)[b].(dirty := false)]
      ensures DirtyBlocks(bufs) == DirtyBlocks(old(bufs)) - {bufs[b].blockno}
      ensures disk == old(disk)[old(bufs)[b].blockno := old(bufs)[b].data] && history == old(history) + [disk]
    {
      var b' := bufs[b].(dirty := true);
      DirtyAfter(disk, bufs, b, b');
      UpdateKeepsViews(disk, bufs, b, b');
      SameLinks(bufs, bufs[b := b'], order);
      bufs := bufs[b := b'];
      Iderw(b, pid);
    }

    /** log_write's `b->flags |= B_DIRTY` (log.c:231): pin the buffer. */
    method MarkDirty(b: nat, pid: nat)
      requires Valid() && b < NBUF && bufs[b].holder == Some(pid) && bufs[b].valid
      modifies this`bufs
      ensures Valid() && SameView(disk, old(bufs), disk, bufs)
      ensures bufs == old(bufs)[b := old(bufs)[b].(dirty := true)]
      ensures DirtyBlocks(bufs) == DirtyBlocks(old(bufs)) + {bufs[b].blockno}
    {
      var b' := bufs[b].(dirty := true);
      DirtyAfter(disk, bufs, b, b');
      UpdateKeepsViews(disk, bufs, b, b');
      SameLinks(bufs, bufs[b := b'], order);
      bufs := bufs[b := b'];
    }

    /** brelse (bio.c:120-141).  A caller that changed the data has logged or written it first. */
    method Brelse(b: nat, pid: nat)
      requires Valid() && b < NBUF && bufs[b].holder == Some(pid)
      requires bufs[b].valid && !bufs[b].dirty ==> bufs[b].data == disk[bufs[b].blockno]
      modifies this`bufs, this`order, this`stamp, this`clock
      ensures Valid() && SameView(disk, old(bufs), disk, bufs)
      ensures DirtyBlocks(bufs) == DirtyBlocks(old(bufs))
      ensures SamePayloads(bufs, old(bufs)[b := old(bufs)[b].(holder := None, refcnt := old(bufs)[b].refcnt - 1)])
      ensures old(bufs)[b].refcnt == 1 ==> forall i :: 0 <= i < NBUF && i != b ==> stamp[i] == old(stamp)[i] < stamp[b]
      ensures old(bufs)[b].refcnt > 1 ==> order == old(order) && stamp == old(stamp)
    {
      var b' := bufs[b].(holder := None, refcnt := bufs[b].refcnt - 1);
      DirtyAfter(disk, bufs, b, b');
      UpdateKeepsViews(disk, bufs, b, b');
      SameLinks(bufs, bufs[b := b'], order);
      bufs := bufs[b := b'];
      if bufs[b].refcnt == 0 {
        ToFront(b);
      }
    }

    /** The relinking at the end of brelse (bio.c:130-138). */
    method ToFront(b: nat)
      requires Valid() && b < NBUF
      modifies this`bufs, this`order, this`stamp, this`clock
      ensures Valid() && SameView(disk, old(bufs), disk, bufs)
      ensures SamePayloads(old(bufs), bufs) && DirtyBlocks(bufs) == DirtyBlocks(old(bufs))
      ensures forall i :: 0 <= i < NBUF && i != b ==> stamp[i] == old(stamp)[i] < stamp[b]
    {
      hide LruOk, Ring, Without, Unlinked, LinkedFront, BufOk, Unique, View, DirtyBlocks;
      ghost var j := PlaceOf(bufs, order, stamp, clock, b);
      MovedToFrontLru(bufs, order, stamp, clock, j);
      LinksKeepViews(disk, bufs, LinkedFront(Unlinked(bufs, b), b));
      SameDirty(bufs, LinkedFront(Unlinked(bufs, b), b));
      bufs := LinkedFront(Unlinked(bufs, b), b);
      order, stamp, clock := [b] + Without(order, j), stamp[b := clock], clock + 1;
    }
  }

  // ---- Facts about the ring used by the loops of bget and by brelse ----

  lemma PlaceOf(bufs: seq<Buf>, order: seq<nat>, stamp: seq<nat>, clock: nat, b: nat) returns (j: nat)
    requires LruOk(bufs, order, stamp, clock) && b < NBUF
    ensures j < |order| && order[j] == b && |stamp| == NBUF && forall i :: 0 <= i < NBUF ==> stamp[i] < clock
  {
    assert b in order;
    j :| 0 <= j < |order| && order[j] == b;
  }

  lemma ViewOf(disk: Image, bufs: seq<Buf>, b: nat)
    requires CacheOk(disk, bufs) && b < NBUF && bufs[b].dev == ROOTDEV && bufs[b].blockno < |disk| && bufs[b].valid
    ensures View(disk, bufs, bufs[b].blockno) == bufs[b].data
  {
    SlotUnique(disk, bufs, b);
  }

  lemma SameLinks(bufs: seq<Buf>, bufs': seq<Buf>, order: seq<nat>)
    requires Ring(bufs, order) && |bufs'| == |bufs|
    requires forall i :: 0 <= i < |bufs| ==> bufs'[i].prev == bufs[i].prev && bufs'[i].next == bufs[i].next
    ensures Ring(bufs', order)
  {
  }

  lemma NotCached(bufs: seq<Buf>, order: seq<nat>, dev: nat, blockno: nat)
    requires Ring(bufs, order) && forall i :: 0 <= i < NBUF ==> i in order
    requires forall i :: 1 <= i <= |order| ==> !Caches(bufs[At(order, i)], dev, blockno)
    ensures Slot(bufs, dev, blockno) < 0
  {
    forall i | 0 <= i < NBUF ensures !Caches(bufs[i], dev, blockno) {
      assert i in order;
      var j :| 0 <= j < |order| && order[j] == i;
      assert At(order, j + 1) == i;
    }
  }

  lemma LeastRecent(bufs: seq<Buf>, order: seq<nat>, stamp: seq<nat>, clock: nat, k: nat)
    requires LruOk(bufs, order, stamp, clock) && 1 <= k <= |order|
    requires forall i :: k < i <= |order| ==> !Recyclable(bufs[At(order, i)])
    ensures forall i :: 0 <= i < NBUF && Recyclable(bufs[i]) ==> stamp[At(order, k)] <= stamp[i]
  {
    forall i | 0 <= i < NBUF && Recyclable(bufs[i]) ensures stamp[At(order, k)] <= stamp[i] {
      assert i in order;
      var j :| 0 <= j < |order| && order[j] == i;
      assert At(order, j + 1) == i;
      assert j + 1 <= k;
    }
  }

  lemma MovedToFrontLru(bufs: seq<Buf>, order: seq<nat>, stamp: seq<nat>, clock: nat, j: nat)
    requires LruOk(bufs, order, stamp, clock) && j < |order|
    ensures bufs[order[j]].next <= NBUF && bufs[order[j]].prev <= NBUF && Unlinked(bufs, order[j])[HEAD].next <= NBUF
    ensures LruOk(LinkedFront(Unlinked(bufs, order[j]), order[j]), [order[j]] + Without(order, j), stamp[order[j] := clock], clock + 1)
    ensures SamePayloads(bufs, LinkedFront(Unlinked(bufs, order[j]), order[j]))
  {
    MoveToFront(bufs, order, j);
    FrontIsNewest(order, stamp, clock, j);
    forall i | 0 <= i < NBUF ensures i in [order[j]] + Without(order, j) {
      InWithout(order, j, i);
    }
  }

  lemma FrontIsNewest(order: seq<nat>, stamp: seq<nat>, clock: nat, j: nat)
    requires |stamp| == NBUF && j < |order|
    requires forall i :: 0 <= i < |order| ==> order[i] < NBUF && stamp[order[i]] < clock
    requires forall i, j :: 0 <= i < j < |order| ==> order[i] != order[j]
    requires forall i, j :: 0 <= i < j < |order| ==> stamp[order[i]] > stamp[order[j]]
    ensures var front, stamp' := [order[j]] + Without(order, j), stamp[order[j] := clock];
      forall i, j :: 0 <= i < j < |front| ==> stamp'[front[i]] > stamp'[front[j]]
  {
    var b, without := order[j], Without(order, j);
    var front, stamp' := [b] + without, stamp[b := clock];
    forall x, y | 0 <= x < y < |front| ensures stamp'[front[x]] > stamp'[front[y]] {
      assert front[y] == without[y - 1];
      if x > 0 { assert front[x] == without[x - 1]; }
    }
  }

  lemma InWithout(order: seq<nat>, j: nat, i: nat)
    requires j < |order| && i in order
    ensures i == order[j] || i in Without(order, j)
  {
    var m :| 0 <= m < |order| && order[m] == i;
    assert m == j || Without(order, j)[if m < j then m else m - 1] == i;
  }

  lemma LinksKeepViews(disk: Image, bufs: seq<Buf>, bufs': seq<Buf>)
    requires CacheOk(disk, bufs) && SamePayloads(bufs, bufs')
    ensures CacheOk(disk, bufs') && SameView(disk, bufs, disk, bufs')
  {
    forall i | 0 <= i < NBUF ensures BufOk(bufs'[i], disk) {
      assert SamePayload(bufs[i], bufs'[i]);
    }
    assert forall i, dev, b :: 0 <= i < NBUF ==> Caches(bufs'[i], dev, b) == Caches(bufs[i], dev, b) by {
      forall i, dev, b | 0 <= i < NBUF ensures Caches(bufs'[i], dev, b) == Caches(bufs[i], dev, b) {
        assert SamePayload(bufs[i], bufs'[i]);
      }
    }
    forall b | 0 <= b < |disk| ensures View(disk, bufs', b) == View(disk, bufs, b) {
      var s := Slot(bufs, ROOTDEV, b);
      if s >= 0 {
        SlotUnique(disk, bufs, s);
        assert SamePayload(bufs[s], bufs'[s]);
        assert Caches(bufs'[s], ROOTDEV, b);
      }
    }
  }

  lemma ModifyView(disk: Image, bufs: seq<Buf>, i: nat, data: Block)
    requires CacheOk(disk, bufs) && i < NBUF && bufs[i].valid && bufs[i].holder.Some?
    ensures CacheOk(disk, bufs[i := bufs[i].(data := data)])
    ensures forall x :: 0 <= x < |disk| ==>
      View(disk, bufs[i := bufs[i].(data := data)], x) == if x == bufs[i].blockno then data else View(disk, bufs, x)
  {
    var bufs' := bufs[i := bufs[i].(data := data)];
    assert Unique(bufs') by {
      forall x, y | 0 <= x < NBUF && 0 <= y < NBUF && bufs'[x].dev != 0 && Caches(bufs'[y], bufs'[x].dev, bufs'[x].blockno)
        ensures x == y
      {
        assert Caches(bufs[y], bufs[x].dev, bufs[x].blockno);
      }
    }
    SlotUnique(disk, bufs, i);
    forall x | 0 <= x < |disk|
      ensures View(disk, bufs', x) == if x == bufs[i].blockno then data else View(disk, bufs, x)
    {
      SlotsAgree(disk, bufs, i, bufs'[i], x);
    }
  }
}
