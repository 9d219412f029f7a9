/** The transaction log (log.c) on top of the buffer cache.

    Between operations the disk holds exactly the last committed state (its log header is empty) and
    the dirty buffers are exactly the blocks logged since.  `Commit` and `Recover` are proved to write
    the disk images of DiskLog, in that order, one atomic write each, so DiskLog.CrashAtomicity
    speaks about every point at which they can crash. */
module Log {
  import opened Common
  import opened DiskLog
  import opened BufferRing
  import opened BufferCache

  /** The buffers that some process holds or waits for are those in `busy`. */
  ghost predicate Idle(bufs: seq<Buf>, busy: set<nat>)
    requires |bufs| == NBUF + 1
  {
    forall i :: 0 <= i < NBUF ==> (bufs[i].refcnt > 0 <==> i in busy)
  }

  /** Buffer b is locked by its only user and holds the block. */
  ghost predicate Held(b: Buf, blockno: nat, pid: nat) {
    Caches(b, ROOTDEV, blockno) && b.valid && b.holder == Some(pid) && b.refcnt == 1
  }

  ghost predicate SameHeld(bufs: seq<Buf>, bufs': seq<Buf>, busy: set<nat>)
    requires |bufs| == |bufs'| == NBUF + 1
  {
    forall i :: i in busy && i < NBUF ==> SamePayload(bufs[i], bufs'[i])
  }

  /** The buffers in `others` are those that other processes use, and they are for blocks outside the log that are
      not in `blocks`: a commit of these blocks does not wait for them. */
  ghost predicate Beside(l: Layout, bufs: seq<Buf>, others: set<nat>, blocks: seq<int>)
    requires |bufs| == NBUF + 1
  {
    && Idle(bufs, others)
    && forall i :: i in others && i < NBUF ==> !InLog(l, bufs[i].blockno) && bufs[i].blockno !in blocks
  }

  /** No buffer has been changed since it was read, logged or written. */
  ghost predicate Settled(disk: Image, bufs: seq<Buf>)
    requires |bufs| == NBUF + 1
  {
    forall i :: 0 <= i < NBUF && bufs[i].valid && !bufs[i].dirty ==> bufs[i].blockno < |disk| && bufs[i].data == disk[bufs[i].blockno]
  }

  ghost function Elems(s: seq<int>): (r: set<int>) {
    set x | x in s
  }

  ghost function Contents(disk: Image, bufs: seq<Buf>, blocks: seq<int>): (r: seq<Block>)
    requires |bufs| == NBUF + 1 && forall i :: 0 <= i < |blocks| ==> 0 <= blocks[i] < |disk|
    ensures |r| == |blocks|
  {
    seq(|blocks|, i requires 0 <= i < |blocks| => View(disk, bufs, blocks[i]))
  }

  class LogState {
    const cache: Cache
    const layout: Layout
    const pid: nat            // the process that commits or recovers
    var lh: seq<int>          // log.lh.block[0..log.lh.n]
    var outstanding: nat
    var committing: bool

    ghost predicate Valid()
      reads this, cache
    {
      && cache.Valid()
      && HeadOk(layout, cache.disk)
      && Head(layout, cache.disk) == []
      && Loggable(layout, cache.disk, lh)
      && DirtyBlocks(cache.bufs) == Elems(lh)
    }

    /** initlog (log.c:54-66) on a freshly booted machine: recovery brings the log into its resting state. */
    constructor InitLog(cache: Cache, layout: Layout, pid: nat)
      requires cache.Valid() && Idle(cache.bufs, {}) && DirtyBlocks(cache.bufs) == {}
      requires HeadOk(layout, cache.disk) && |Head(layout, cache.disk)| < NBUF
      modifies cache
      ensures this.cache == cache && this.layout == layout
      ensures Valid() && Idle(cache.bufs, {}) && lh == [] && outstanding == 0 && !committing
      ensures cache.disk == Recovered(layout, old(cache.disk))
      ensures cache.history == old(cache.history) + RecoverImages(layout, old(cache.disk))
    {
      this.cache, this.layout, this.pid := cache, layout, pid;
      lh, outstanding, committing := [], 0, false;
      new;
      Recover();
    }

    /** begin_op (log.c:126-141), up to the point where it either is admitted or goes to sleep. */
    method BeginOp() returns (admitted: bool)
      modifies this`outstanding
      ensures admitted <==> !committing && |lh| + (old(outstanding) + 1) * MAXOPBLOCKS <= LOGSIZE
      ensures outstanding == old(outstanding) + if admitted then 1 else 0
    {
      if committing || |lh| + (outstanding + 1) * MAXOPBLOCKS > LOGSIZE { return false; }
      outstanding := outstanding + 1;
      return true;
    }

    /** end_op (log.c:146-174): the last operation to end commits everything logged since the last commit. */
    method EndOp(ghost others: set<nat>)
      requires Valid() && outstanding > 0 && !committing
      requires outstanding == 1 ==> Beside(layout, cache.bufs, others, lh) && Settled(cache.disk, cache.bufs) && |others| + |lh| < NBUF
      modifies this, cache
      ensures Valid() && !committing && outstanding == old(outstanding) - 1
      ensures old(outstanding) > 1 ==> lh == old(lh) && unchanged(cache)
      ensures old(outstanding) == 1 ==> lh == [] && |cache.disk| == |old(cache.disk)| && SameHeld(old(cache.bufs), cache.bufs, others)
      ensures old(outstanding) == 1 ==>
        forall b :: 0 <= b < |cache.disk| && !InLog(layout, b) ==> cache.disk[b] == View(old(cache.disk), old(cache.bufs), b)
    {
      outstanding := outstanding - 1;
      if outstanding == 0 {
        committing := true;
        Commit(others);
        committing := false;
      }
    }

    /** log_write (log.c:213-233); true is a panic.  The size test and the append are one step here; LogAdmission
        has them apart, with other operations in between. */
    method LogWrite(b: nat, holder: nat) returns (panic: bool)
      requires Valid() && b < NBUF && cache.bufs[b].holder == Some(holder) && cache.bufs[b].valid
      requires !InLog(layout, cache.bufs[b].blockno)
      modifies this`lh, cache`bufs
      ensures Valid()
      ensures panic <==> |old(lh)| >= LOGSIZE || |old(lh)| >= layout.size - 1 || outstanding < 1
      ensures panic ==> lh == old(lh) && cache.bufs == old(cache.bufs)
      ensures !panic ==>
        && lh == (if old(cache.bufs)[b].blockno in old(lh) then old(lh) else old(lh) + [old(cache.bufs)[b].blockno])
        && cache.bufs == old(cache.bufs)[b := old(cache.bufs)[b].(dirty := true)]
      ensures SameView(cache.disk, old(cache.bufs), cache.disk, cache.bufs)
    {
      if |lh| >= LOGSIZE || |lh| >= layout.size - 1 || outstanding < 1 {
        return true;
      }
      var i := 0;
      while i < |lh| && lh[i] != cache.bufs[b].blockno
        invariant 0 <= i <= |lh|
        invariant forall j :: 0 <= j < i ==> lh[j] != cache.bufs[b].blockno
      {
        i := i + 1;
      }
      ghost var before := lh;
      if i == |lh| {
        lh := lh + [cache.bufs[b].blockno];
        assert Elems(lh) == Elems(before) + {cache.bufs[b].blockno};
      } else {
        lh := lh[i := cache.bufs[b].blockno];
        assert lh == before;
      }
      cache.MarkDirty(b, holder);
      return false;
    }

    /** bread of a block that no buffer in use is for; `busy` are the buffers in use. */
    method Open(blockno: nat, ghost busy: set<nat>) returns (b: nat)
      requires cache.Valid() && blockno < |cache.disk| && Idle(cache.bufs, busy)
      requires forall i :: i in busy && i < NBUF ==> !Caches(cache.bufs[i], ROOTDEV, blockno)
      requires blockno in DirtyBlocks(cache.bufs) || |busy| + |DirtyBlocks(cache.bufs)| < NBUF
      modifies cache`bufs, cache`disk, cache`history
      ensures cache.Valid() && cache.disk == old(cache.disk) && cache.history == old(cache.history)
      ensures b < NBUF && b !in busy && Held(cache.bufs[b], blockno, pid) && Idle(cache.bufs, busy + {b})
      ensures cache.bufs[b].dirty <==> blockno in DirtyBlocks(cache.bufs)
      ensures SameHeld(old(cache.bufs), cache.bufs, busy)
      ensures cache.bufs[b].data == View(cache.disk, old(cache.bufs), blockno)
      ensures SameView(cache.disk, old(cache.bufs), cache.disk, cache.bufs)
      ensures DirtyBlocks(cache.bufs) == DirtyBlocks(old(cache.bufs))
    {
      var s := Slot(cache.bufs, ROOTDEV, blockno);
      assert s >= 0 ==> s !in busy && cache.bufs[s].refcnt == 0;
      assert s >= 0 && cache.bufs[s].dirty ==> blockno in DirtyBlocks(cache.bufs);
      if blockno in DirtyBlocks(cache.bufs) {
        DirtyIsCached(cache.disk, cache.bufs, blockno);
      } else {
        SpareBuffer(cache.disk, cache.bufs, busy);
      }
      var r := cache.Bread(ROOTDEV, blockno, pid);
      b := r.value;
    }

    /** brelse of a buffer that is clean or logged, by that process. */
    method Close(b: nat, ghost busy: set<nat>)
      requires cache.Valid() && b < NBUF && Held(cache.bufs[b], cache.bufs[b].blockno, pid) && Idle(cache.bufs, busy + {b}) && b !in busy
      requires !cache.bufs[b].dirty ==> cache.bufs[b].data == cache.disk[cache.bufs[b].blockno]
      modifies cache`bufs, cache`order, cache`stamp, cache`clock
      ensures cache.Valid() && Idle(cache.bufs, busy)
      ensures SameHeld(old(cache.bufs), cache.bufs, busy)
      ensures SameView(cache.disk, old(cache.bufs), cache.disk, cache.bufs)
      ensures DirtyBlocks(cache.bufs) == DirtyBlocks(old(cache.bufs))
    {
      ghost var bufs0 := cache.bufs;
      cache.Brelse(b, pid);
      ghost var bufs1 := bufs0[b := bufs0[b].(holder := None, refcnt := 0)];
      forall i | 0 <= i < NBUF ensures cache.bufs[i].refcnt > 0 <==> i in busy {
        assert SamePayload(cache.bufs[i], bufs1[i]);
      }
      forall i | i in busy && i < NBUF ensures SamePayload(bufs0[i], cache.bufs[i]) {
        assert SamePayload(cache.bufs[i], bufs1[i]);
      }
    }

    /** memmove into a held buffer and bwrite it: one disk write. */
    method Overwrite(b: nat, data: Block, ghost busy: set<nat>)
      requires cache.Valid() && b < NBUF && Held(cache.bufs[b], cache.bufs[b].blockno, pid) && Idle(cache.bufs, busy + {b}) && b !in busy
      modifies cache`bufs, cache`disk, cache`history
      ensures cache.Valid() && Held(cache.bufs[b], old(cache.bufs)[b].blockno, pid) && Idle(cache.bufs, busy + {b})
      ensures |cache.disk| == |old(cache.disk)|
      ensures cache.disk == old(cache.disk)[cache.bufs[b].blockno := data] && cache.history == old(cache.history) + [cache.disk]
      ensures !cache.bufs[b].dirty && cache.bufs[b].data == data
      ensures SameHeld(old(cache.bufs), cache.bufs, busy)
      ensures forall x :: 0 <= x < |cache.disk| && x != cache.bufs[b].blockno ==>
        View(cache.disk, cache.bufs, x) == View(old(cache.disk), old(cache.bufs), x)
      ensures View(cache.disk, cache.bufs, cache.bufs[b].blockno) == data
      ensures DirtyBlocks(cache.bufs) == DirtyBlocks(old(cache.bufs)) - {cache.bufs[b].blockno}
    {
      cache.Modify(b, pid, data);
      cache.Bwrite(b, pid);
    }

    /** The two breads of an iteration of write_log or install_trans: the log block and the home block. */
    method OpenPair(tail: nat, ghost others: set<nat>) returns (a: nat, b: nat)
      requires cache.Valid() && Beside(layout, cache.bufs, others, lh) && |others| + |DirtyBlocks(cache.bufs)| < NBUF
      requires tail < |lh| && Loggable(layout, cache.disk, lh)
      requires lh[tail] in DirtyBlocks(cache.bufs) || (DirtyBlocks(cache.bufs) == {} && |others| + 1 < NBUF)
      modifies cache`bufs, cache`disk, cache`history
      ensures cache.Valid() && cache.disk == old(cache.disk) && cache.history == old(cache.history)
      ensures a < NBUF && b < NBUF && a != b && a !in others && b !in others && Idle(cache.bufs, others + {a} + {b})
      ensures lh[tail] >= 0 && Held(cache.bufs[a], layout.start + tail + 1, pid) && Held(cache.bufs[b], lh[tail], pid)
      ensures layout.start + tail + 1 < |cache.disk| && lh[tail] < |cache.disk|
      ensures cache.bufs[a].data == View(cache.disk, old(cache.bufs), layout.start + tail + 1)
      ensures cache.bufs[b].data == View(cache.disk, old(cache.bufs), lh[tail])
      ensures cache.bufs[b].dirty <==> lh[tail] in DirtyBlocks(cache.bufs)
      ensures SameHeld(old(cache.bufs), cache.bufs, others)
      ensures SameView(cache.disk, old(cache.bufs), cache.disk, cache.bufs)
      ensures DirtyBlocks(cache.bufs) == DirtyBlocks(old(cache.bufs))
    {
      hide View, LruOk, BufOk, Unique, DirtyBlocks, Idle, Beside, SameHeld, Loggable, InLog, Elems;
      LogBlock(layout, cache.disk, lh, tail);
      ghost var bufs0 := cache.bufs;
      BesideOpen(layout, bufs0, others, lh, layout.start + tail + 1);
      a := Open(layout.start + tail + 1, others);
      ghost var bufs1 := cache.bufs;
      BesideSame(layout, bufs0, bufs1, others, lh);
      NotBeside(layout, bufs1, others, lh, a, lh[tail]);
      if DirtyBlocks(bufs1) == {} { RoomForTwo(bufs1, others, a, lh[tail]); }
      b := Open(lh[tail], others + {a});
      HeldSame(bufs1, cache.bufs, others, a);
      SameHeldChain(bufs0, bufs1, cache.bufs, others);
    }

    /** memmove from one held buffer to another, bwrite, and the two brelses. */
    method CopyAcross(from: nat, to: nat, ghost others: set<nat>)
      requires cache.Valid() && from < NBUF && to < NBUF && from != to && from !in others && to !in others
      requires Idle(cache.bufs, others + {from} + {to}) || Idle(cache.bufs, others + {to} + {from})
      requires Held(cache.bufs[from], cache.bufs[from].blockno, pid) && Held(cache.bufs[to], cache.bufs[to].blockno, pid)
      requires cache.bufs[from].blockno != cache.bufs[to].blockno && cache.bufs[from].blockno < |cache.disk| && cache.bufs[to].blockno < |cache.disk|
      requires !cache.bufs[from].dirty ==> cache.bufs[from].data == cache.disk[cache.bufs[from].blockno]
      modifies cache
      ensures cache.Valid() && Idle(cache.bufs, others) && SameHeld(old(cache.bufs), cache.bufs, others)
      ensures |cache.disk| == |old(cache.disk)|
      ensures cache.disk == old(cache.disk)[old(cache.bufs)[to].blockno := old(cache.bufs)[from].data]
      ensures cache.history == old(cache.history) + [cache.disk]
      ensures forall x :: 0 <= x < |cache.disk| && x != old(cache.bufs)[to].blockno ==>
        View(cache.disk, cache.bufs, x) == View(old(cache.disk), old(cache.bufs), x)
      ensures DirtyBlocks(cache.bufs) == DirtyBlocks(old(cache.bufs)) - {old(cache.bufs)[to].blockno}
    {
      hide View, LruOk, BufOk, Unique, DirtyBlocks, Idle, SameHeld;
      assert others + {to} + {from} == others + {from} + {to};
      ghost var bufs0 := cache.bufs;
      Overwrite(to, cache.bufs[from].data, others + {from});
      ghost var bufs1 := cache.bufs;
      HeldSame(bufs0, bufs1, others, from);
      Close(from, others + {to});
      ghost var bufs2 := cache.bufs;
      HeldSame(bufs1, bufs2, others, to);
      Close(to, others);
      SameHeldChain(bufs0, bufs1, bufs2, others);
      SameHeldChain(bufs0, bufs2, cache.bufs, others);
    }

    /** One iteration of write_log (log.c:183-188): copy a cached home block to its log block. */
    method CopyToLog(tail: nat, ghost others: set<nat>)
      requires cache.Valid() && Beside(layout, cache.bufs, others, lh) && |others| + |DirtyBlocks(cache.bufs)| < NBUF
      requires tail < |lh| && Loggable(layout, cache.disk, lh) && DirtyBlocks(cache.bufs) == Elems(lh)
      modifies cache
      ensures cache.Valid() && Beside(layout, cache.bufs, others, lh) && DirtyBlocks(cache.bufs) == DirtyBlocks(old(cache.bufs))
      ensures SameHeld(old(cache.bufs), cache.bufs, others)
      ensures |cache.disk| == |old(cache.disk)|
      ensures cache.disk == old(cache.disk)[layout.start + tail + 1 := View(old(cache.disk), old(cache.bufs), lh[tail])]
      ensures cache.history == old(cache.history) + [cache.disk]
      ensures forall x :: 0 <= x < |cache.disk| && x != layout.start + tail + 1 ==>
        View(cache.disk, cache.bufs, x) == View(old(cache.disk), old(cache.bufs), x)
    {
      hide View, LruOk, BufOk, Unique, DirtyBlocks, Beside, Idle, Loggable, Elems, InLog, SameHeld;
      LogBlock(layout, cache.disk, lh, tail);
      ghost var bufs0 := cache.bufs;
      var to, from := OpenPair(tail, others);
      ghost var bufs1 := cache.bufs;
      CopyAcross(from, to, others);
      SameHeldChain(bufs0, bufs1, cache.bufs, others);
      BesideKept(layout, bufs0, cache.bufs, others, lh);
    }

    /** write_log (log.c:177-190). */
    method WriteLog(ghost others: set<nat>)
      requires cache.Valid() && Beside(layout, cache.bufs, others, lh) && |others| + |lh| < NBUF
      requires Loggable(layout, cache.disk, lh) && DirtyBlocks(cache.bufs) == Elems(lh)
      modifies cache
      ensures cache.Valid() && Beside(layout, cache.bufs, others, lh) && DirtyBlocks(cache.bufs) == Elems(lh)
      ensures SameHeld(old(cache.bufs), cache.bufs, others)
      ensures |cache.disk| == |old(cache.disk)| && SameHomeView(layout, old(cache.disk), old(cache.bufs), cache.disk, cache.bufs)
      ensures var cached := Contents(old(cache.disk), old(cache.bufs), lh);
        && cache.disk == LogWritten(layout, old(cache.disk), cached, |lh|)
        && cache.history == old(cache.history) + LogImages(layout, old(cache.disk), cached, |lh|)
    {
      hide View, LruOk, BufOk, Unique, DirtyBlocks, Beside, LogImages, SameHeld;
      ghost var disk0, bufs0 := cache.disk, cache.bufs;
      ghost var cached := Contents(disk0, bufs0, lh);
      ElemsSize(lh);
      assert LogImages(layout, disk0, cached, 0) == [];
      SameHeldRefl(bufs0, others);
      var tail := 0;
      while tail < |lh|
        invariant 0 <= tail <= |lh|
        invariant cache.Valid() && Beside(layout, cache.bufs, others, lh) && DirtyBlocks(cache.bufs) == Elems(lh)
        invariant SameHeld(bufs0, cache.bufs, others)
        invariant cache.disk == LogWritten(layout, disk0, cached, tail)
        invariant SameHomeView(layout, disk0, bufs0, cache.disk, cache.bufs)
        invariant cache.history == old(cache.history) + LogImages(layout, disk0, cached, tail)
      {
        assert !InLog(layout, lh[tail]);
        ghost var bufs1 := cache.bufs;
        CopyToLog(tail, others);
        SameHeldChain(bufs0, bufs1, cache.bufs, others);
        assert InLog(layout, layout.start + tail + 1);
        tail := tail + 1;
        LogImagesGrow(layout, disk0, cached, tail);
      }
    }

    /** write_head (log.c:101-113): with a full header the commit point, with an empty one its erasure. */
    method WriteHead(ghost others: set<nat>, ghost blocks: seq<int>)
      requires cache.Valid() && Beside(layout, cache.bufs, others, blocks) && |others| + |DirtyBlocks(cache.bufs)| < NBUF
      requires Loggable(layout, cache.disk, lh) && layout.start !in DirtyBlocks(cache.bufs)
      modifies cache
      ensures cache.Valid() && Beside(layout, cache.bufs, others, blocks) && DirtyBlocks(cache.bufs) == DirtyBlocks(old(cache.bufs))
      ensures SameHeld(old(cache.bufs), cache.bufs, others)
      ensures cache.disk == WithHead(layout, old(cache.disk), lh) && cache.history == old(cache.history) + [cache.disk]
      ensures SameHomeView(layout, old(cache.disk), old(cache.bufs), cache.disk, cache.bufs)
    {
      hide View, LruOk, BufOk, Unique, DirtyBlocks, Idle, Beside, SameHeld;
      ghost var bufs0 := cache.bufs;
      assert InLog(layout, layout.start);
      BesideOpen(layout, bufs0, others, blocks, layout.start);
      FreeView(cache.disk, cache.bufs, others, layout.start);
      var b := Open(layout.start, others);
      ghost var bufs1 := cache.bufs;
      Overwrite(b, PutHead(cache.bufs[b].data, lh), others);
      ghost var bufs2 := cache.bufs;
      Close(b, others);
      SameHeldChain(bufs0, bufs1, bufs2, others);
      SameHeldChain(bufs0, bufs2, cache.bufs, others);
      BesideKept(layout, bufs0, cache.bufs, others, blocks);
    }

    /** One iteration of install_trans (log.c:75-80): copy a log block home. */
    method CopyHome(tail: nat, ghost others: set<nat>)
      requires cache.Valid() && Beside(layout, cache.bufs, others, lh) && |others| + |DirtyBlocks(cache.bufs)| < NBUF
      requires tail < |lh| && Loggable(layout, cache.disk, lh) && |others| + |lh| < NBUF
      requires forall x :: x in DirtyBlocks(cache.bufs) ==> !InLog(layout, x)
      requires lh[tail] in DirtyBlocks(cache.bufs) || DirtyBlocks(cache.bufs) == {}
      modifies cache
      ensures cache.Valid() && Beside(layout, cache.bufs, others, lh) && DirtyBlocks(cache.bufs) == DirtyBlocks(old(cache.bufs)) - {lh[tail]}
      ensures SameHeld(old(cache.bufs), cache.bufs, others)
      ensures |cache.disk| == |old(cache.disk)|
      ensures cache.disk == old(cache.disk)[lh[tail] := old(cache.disk)[layout.start + tail + 1]]
      ensures cache.history == old(cache.history) + [cache.disk]
    {
      hide View, LruOk, BufOk, Unique, DirtyBlocks, Idle, Beside, SameHeld, Loggable, InLog, Elems;
      LogBlock(layout, cache.disk, lh, tail);
      ghost var bufs0 := cache.bufs;
      BesideOpen(layout, bufs0, others, lh, layout.start + tail + 1);
      FreeView(cache.disk, bufs0, others, layout.start + tail + 1);
      var lbuf, dbuf := OpenPair(tail, others);
      ghost var bufs1 := cache.bufs;
      CopyAcross(lbuf, dbuf, others);
      SameHeldChain(bufs0, bufs1, cache.bufs, others);
      BesideKept(layout, bufs0, cache.bufs, others, lh);
    }

    /** install_trans (log.c:69-82), both with the logged blocks still pinned and after a reboot. */
    method InstallTrans(ghost others: set<nat>)
      requires cache.Valid() && Beside(layout, cache.bufs, others, lh) && |others| + |lh| < NBUF && Loggable(layout, cache.disk, lh)
      requires DirtyBlocks(cache.bufs) == Elems(lh) || DirtyBlocks(cache.bufs) == {}
      modifies cache
      ensures cache.Valid() && Beside(layout, cache.bufs, others, lh) && DirtyBlocks(cache.bufs) == {}
      ensures SameHeld(old(cache.bufs), cache.bufs, others)
      ensures cache.disk == Installed(layout, old(cache.disk), lh, |lh|)
      ensures cache.history == old(cache.history) + InstallImages(layout, old(cache.disk), lh, |lh|)
    {
      hide View, LruOk, BufOk, Unique, DirtyBlocks, Beside, InstallImages, Loggable, Elems, SameHeld;
      ghost var disk0, bufs0, clean := cache.disk, cache.bufs, DirtyBlocks(cache.bufs) == {};
      var tail := 0;
      assert lh[0..] == lh;
      assert InstallImages(layout, disk0, lh, 0) == [];
      SameHeldRefl(bufs0, others);
      while tail < |lh|
        invariant 0 <= tail <= |lh|
        invariant cache.Valid() && Beside(layout, cache.bufs, others, lh) && SameHeld(bufs0, cache.bufs, others)
        invariant DirtyBlocks(cache.bufs) == if clean then {} else Elems(lh[tail..])
        invariant cache.disk == Installed(layout, disk0, lh, tail)
        invariant cache.history == old(cache.history) + InstallImages(layout, disk0, lh, tail)
      {
        PinnedRest(layout, disk0, lh, tail);
        LoggableSameSize(layout, disk0, cache.disk, lh);
        ghost var bufs1 := cache.bufs;
        CopyHome(tail, others);
        SameHeldChain(bufs0, bufs1, cache.bufs, others);
        tail := tail + 1;
        InstallImagesGrow(layout, disk0, lh, tail);
      }
      assert lh[|lh|..] == [];
      assert Elems([]) == {} by { ElemsSize([]); }
    }

    /** commit (log.c:192-202), while other processes use the buffers in `others`.  Its writes are the images of
        DiskLog.CommitAfter, and it makes the disk hold the newest contents of every block outside the log.
        LogRuns has the commits during which other processes take steps, and may have to be waited for. */
    method Commit(ghost others: set<nat>)
      requires Valid() && Beside(layout, cache.bufs, others, lh) && Settled(cache.disk, cache.bufs) && |others| + |lh| < NBUF
      modifies this`lh, cache
      ensures Valid() && Idle(cache.bufs, others) && SameHeld(old(cache.bufs), cache.bufs, others)
      ensures Settled(cache.disk, cache.bufs) && lh == [] && |cache.disk| == |old(cache.disk)|
      ensures var cached := Contents(old(cache.disk), old(cache.bufs), old(lh));
        cache.history == old(cache.history) +
          if old(lh) == [] then [] else CommitImages(layout, old(cache.disk), old(lh), cached)
      ensures forall b :: 0 <= b < |cache.disk| && !InLog(layout, b) ==>
        cache.disk[b] == View(cache.disk, cache.bufs, b) == View(old(cache.disk), old(cache.bufs), b)
    {
      hide View, LruOk, BufOk, Unique, DirtyBlocks, Idle, Beside, Settled, SameHeld;
      hide Installed, LogWritten, CommitAfter, CommitImages, InstallImages, PutHead;
      ghost var disk0, bufs0, blocks := cache.disk, cache.bufs, lh;
      ghost var cached := Contents(disk0, bufs0, blocks);
      SameHeldRefl(bufs0, others);
      if |lh| > 0 {
        CommitWrites(others);
        CommitHeadOk(layout, disk0, blocks, cached, 2 * |blocks| + 2);
      }
      BesideIdle(layout, cache.bufs, others, blocks);
      CommittedContents(layout, disk0, bufs0, blocks, cached, cache.disk);
      SettledAfter(layout, disk0, bufs0, cache.disk, cache.bufs, others, blocks);
      forall b | 0 <= b < |cache.disk| && !InLog(layout, b)
        ensures cache.disk[b] == View(cache.disk, cache.bufs, b) == View(disk0, bufs0, b)
      {
        CleanView(cache.disk, cache.bufs, b);
      }
    }

    /** The body of commit for a non-empty transaction (log.c:196-200). */
    method CommitWrites(ghost others: set<nat>)
      requires Valid() && Beside(layout, cache.bufs, others, lh) && 0 < |lh| && |others| + |lh| < NBUF
      modifies this`lh, cache
      ensures cache.Valid() && Beside(layout, cache.bufs, others, old(lh)) && SameHeld(old(cache.bufs), cache.bufs, others)
      ensures lh == [] && DirtyBlocks(cache.bufs) == {}
      ensures var cached := Contents(old(cache.disk), old(cache.bufs), old(lh));
        && cache.disk == CommitAfter(layout, old(cache.disk), old(lh), cached, 2 * |old(lh)| + 2)
        && cache.history == old(cache.history) + CommitImages(layout, old(cache.disk), old(lh), cached)
    {
      hide View, LruOk, BufOk, Unique, DirtyBlocks, Beside, SameHeld;
      hide Installed, LogWritten, CommitAfter, InstallImages, LogImages, PutHead;
      ghost var disk0, bufs0, blocks := cache.disk, cache.bufs, lh;
      ghost var cached := Contents(disk0, cache.bufs, blocks);
      assert layout.start !in lh by { assert InLog(layout, layout.start); }
      ElemsSize(lh);
      WriteLog(others);
      ghost var bufs1 := cache.bufs;
      WriteHead(others, blocks);
      ghost var bufs2 := cache.bufs;
      InstallTrans(others);
      ghost var bufs3 := cache.bufs;
      lh := [];
      WriteHead(others, blocks);
      CommitLast(layout, disk0, blocks, cached);
      SameHeldChain(bufs0, bufs1, bufs2, others);
      SameHeldChain(bufs0, bufs2, bufs3, others);
      SameHeldChain(bufs0, bufs3, cache.bufs, others);
    }

    /** read_head (log.c:85-96). */
    method ReadHead()
      requires cache.Valid() && Idle(cache.bufs, {}) && DirtyBlocks(cache.bufs) == {} && HeadOk(layout, cache.disk)
      modifies this`lh, cache`bufs, cache`order, cache`stamp, cache`clock, cache`disk, cache`history
      ensures cache.Valid() && Idle(cache.bufs, {}) && DirtyBlocks(cache.bufs) == {}
      ensures cache.disk == old(cache.disk) && cache.history == old(cache.history)
      ensures lh == Head(layout, cache.disk)
    {
      hide View, LruOk, BufOk, Unique, DirtyBlocks, Idle;
      FreeView(cache.disk, cache.bufs, {}, layout.start);
      var b := Open(layout.start, {});
      assert {} + {b} == {b};
      var hb := cache.bufs[b].data;
      var block := [];
      var i := 0;
      while i < hb[0]
        invariant 0 <= i <= hb[0] && block == hb[1..1 + i]
      {
        block := block + [hb[1 + i]];
        i := i + 1;
      }
      lh := block;
      Close(b, {});
    }

    /** recover_from_log (log.c:115-122). */
    method Recover()
      requires cache.Valid() && Idle(cache.bufs, {}) && DirtyBlocks(cache.bufs) == {}
      requires HeadOk(layout, cache.disk) && |Head(layout, cache.disk)| < NBUF
      modifies this`lh, cache
      ensures Valid() && Idle(cache.bufs, {}) && lh == []
      ensures cache.disk == Recovered(layout, old(cache.disk))
      ensures cache.history == old(cache.history) + RecoverImages(layout, old(cache.disk))
    {
      hide View, LruOk, BufOk, Unique, DirtyBlocks, Idle;
      ghost var disk0 := cache.disk;
      ReadHead();
      InstallTrans({});
      lh := [];
      WriteHead({}, []);
      HeadSurvives(layout, disk0, |Head(layout, disk0)| + 1);
      assert RecoverImages(layout, disk0) ==
        InstallImages(layout, disk0, Head(layout, disk0), |Head(layout, disk0)|) + [Recovered(layout, disk0)];
    }
  }

  // ---- Ghost descriptions of the writes ----

  /** The disk images after each of the first k writes of write_log. */
  ghost function LogImages(l: Layout, img: Image, cached: seq<Block>, k: nat): (r: seq<Image>)
    requires l.start + l.size <= |img| && |cached| < l.size && k <= |cached|
    ensures |r| == k
  {
    seq(k, i requires 0 <= i < k => LogWritten(l, img, cached, i + 1))
  }

  lemma LogImagesGrow(l: Layout, img: Image, cached: seq<Block>, k: nat)
    requires l.start + l.size <= |img| && |cached| < l.size && 0 < k <= |cached|
    ensures LogImages(l, img, cached, k) == LogImages(l, img, cached, k - 1) + [LogWritten(l, img, cached, k)]
  {
  }

  /** The disk images after each write of a commit: write_log, write_head, install_trans, write_head. */
  ghost function CommitImages(l: Layout, img: Image, blocks: seq<int>, cached: seq<Block>): (r: seq<Image>)
    requires Loggable(l, img, blocks) && |cached| == |blocks|
    ensures |r| == 2 * |blocks| + 2
  {
    var n := |blocks|;
    var committed := WithHead(l, LogWritten(l, img, cached, n), blocks);
    LogImages(l, img, cached, n) + [committed] + InstallImages(l, committed, blocks, n) +
    [WithHead(l, Installed(l, committed, blocks, n), [])]
  }

  /** These are the images that DiskLog.CrashAtomicity is about. */
  lemma CommitImageIs(l: Layout, img: Image, blocks: seq<int>, cached: seq<Block>, k: nat)
    requires Loggable(l, img, blocks) && |cached| == |blocks| && k < 2 * |blocks| + 2
    ensures CommitImages(l, img, blocks, cached)[k] == CommitAfter(l, img, blocks, cached, k + 1)
  {
    hide LogWritten, WithHead, Installed;
    var n := |blocks|;
    var committed := WithHead(l, LogWritten(l, img, cached, n), blocks);
    ImageAt(LogImages(l, img, cached, n), committed, InstallImages(l, committed, blocks, n), WithHead(l, Installed(l, committed, blocks, n), []), k);
    if k == n { NoneInstalled(l, committed, blocks); }
  }

  lemma NoneInstalled(l: Layout, img: Image, blocks: seq<int>)
    requires Loggable(l, img, blocks)
    ensures Installed(l, img, blocks, 0) == img
  {
  }

  lemma ImageAt(a: seq<Image>, x: Image, c: seq<Image>, y: Image, k: nat)
    requires k < |a| + |c| + 2
    ensures (a + [x] + c + [y])[k] == if k < |a| then a[k] else if k == |a| then x else if k <= |a| + |c| then c[k - |a| - 1] else y
  {
  }

  /** The disk images after each of the first k writes of install_trans. */
  ghost function InstallImages(l: Layout, img: Image, blocks: seq<int>, k: nat): (r: seq<Image>)
    requires Loggable(l, img, blocks) && k <= |blocks|
    ensures |r| == k
  {
    seq(k, i requires 0 <= i < k => Installed(l, img, blocks, i + 1))
  }

  lemma InstallImagesGrow(l: Layout, img: Image, blocks: seq<int>, k: nat)
    requires Loggable(l, img, blocks) && 0 < k <= |blocks|
    ensures InstallImages(l, img, blocks, k) == InstallImages(l, img, blocks, k - 1) + [Installed(l, img, blocks, k)]
  {
  }

  /** The disk images after each write of a recovery. */
  ghost function RecoverImages(l: Layout, img: Image): (r: seq<Image>)
    requires HeadOk(l, img)
  {
    seq(|Head(l, img)| + 1, i requires 0 <= i <= |Head(l, img)| => RecoverAfter(l, img, i + 1))
  }

  /** Outside the log, the image is the disk, or it is what the file system sees. */
  ghost predicate OldOrNew(l: Layout, disk: Image, bufs: seq<Buf>, out: Image)
    requires |bufs| == NBUF + 1
  {
    && |out| == |disk|
    && (|| (forall b :: 0 <= b < |disk| && !InLog(l, b) ==> out[b] == disk[b])
        || (forall b :: 0 <= b < |disk| && !InLog(l, b) ==> out[b] == View(disk, bufs, b)))
  }

  /** Crash safety of the running system: at every disk write of a commit that starts in a resting state,
      a crash followed by any number of crashed recoveries and a complete one restores, for all blocks
      outside the log together, either the disk before the commit or what the file system saw before it. */
  lemma CommitIsAtomic(l: Layout, disk: Image, bufs: seq<Buf>, blocks: seq<int>, k: nat, crashes: seq<nat>)
    requires CacheOk(disk, bufs) && Settled(disk, bufs) && DirtyBlocks(bufs) == Elems(blocks)
    requires HeadOk(l, disk) && Head(l, disk) == [] && Loggable(l, disk, blocks)
    requires k < 2 * |blocks| + 2
    ensures var crashed := CommitImages(l, disk, blocks, Contents(disk, bufs, blocks))[k];
      HeadOk(l, crashed) && OldOrNew(l, disk, bufs, AfterCrashes(l, crashed, crashes))
  {
    hide View, BufOk, Unique, DirtyBlocks, Settled, CommitAfter, CommitImages, AfterCrashes;
    var cached := Contents(disk, bufs, blocks);
    CommitImageIs(l, disk, blocks, cached, k);
    CrashAtomicity(l, disk, blocks, cached, k + 1, crashes);
    var out := AfterCrashes(l, CommitAfter(l, disk, blocks, cached, k + 1), crashes);
    if k + 1 > |blocks| {
      forall b | 0 <= b < |disk| && !InLog(l, b) ensures out[b] == View(disk, bufs, b) {
        if b !in blocks { CleanView(disk, bufs, b); }
      }
    }
  }

  lemma CommitLast(l: Layout, img: Image, blocks: seq<int>, cached: seq<Block>)
    requires Loggable(l, img, blocks) && |cached| == |blocks|
    ensures var committed := WithHead(l, LogWritten(l, img, cached, |blocks|), blocks);
      WithHead(l, Installed(l, committed, blocks, |blocks|), []) == CommitAfter(l, img, blocks, cached, 2 * |blocks| + 2)
  {
  }

  /** If the dirty blocks are those pending, each of them has one buffer: valid, dirty, not recyclable, with the newest
      contents.  LogTheorems shows that they are, in every run. */
  lemma PendingBuffer(disk: Image, bufs: seq<Buf>, pending: set<int>, b: nat)
    requires CacheOk(disk, bufs) && DirtyBlocks(bufs) == pending && b in pending
    ensures b < |disk|
    ensures exists i :: 0 <= i < NBUF && Caches(bufs[i], ROOTDEV, b) && bufs[i].valid && bufs[i].dirty && !Recyclable(bufs[i])
                        && View(disk, bufs, b) == bufs[i].data
    ensures forall i, j :: 0 <= i < NBUF && 0 <= j < NBUF && Caches(bufs[i], ROOTDEV, b) && Caches(bufs[j], ROOTDEV, b) ==> i == j
    ensures forall i :: 0 <= i < NBUF && bufs[i].valid && !bufs[i].dirty ==> bufs[i].blockno !in pending
  {
    hide View, DirtyBlocks;
    DirtyIsCached(disk, bufs, b);
    var s := Slot(bufs, ROOTDEV, b);
    assert BufOk(bufs[s], disk);
    ViewOf(disk, bufs, s);
    assert Caches(bufs[s], ROOTDEV, b);
    forall i | 0 <= i < NBUF && bufs[i].valid && !bufs[i].dirty ensures bufs[i].blockno !in pending {
      if bufs[i].blockno in pending {
        DirtyIsCached(disk, bufs, bufs[i].blockno);
        SlotUnique(disk, bufs, i);
      }
    }
  }

  lemma LogBlock(l: Layout, img: Image, blocks: seq<int>, tail: nat)
    requires Loggable(l, img, blocks) && tail < |blocks|
    ensures 0 <= blocks[tail] < |img| && l.start + tail + 1 < |img| && blocks[tail] != l.start + tail + 1
    ensures blocks[tail] in Elems(blocks) && l.start + tail + 1 !in Elems(blocks) && blocks[tail] in blocks && InLog(l, l.start + tail + 1)
  {
    assert InLog(l, l.start + tail + 1);
    assert blocks[tail] in blocks;
  }

  /** What install_trans needs of the blocks that are still to be installed. */
  lemma PinnedRest(l: Layout, img: Image, blocks: seq<int>, tail: nat)
    requires Loggable(l, img, blocks) && tail < |blocks|
    ensures |Elems(blocks[tail..])| <= |blocks| && blocks[tail] in Elems(blocks[tail..])
    ensures forall x :: x in Elems(blocks[tail..]) ==> !InLog(l, x)
    ensures Elems(blocks[tail + 1..]) == Elems(blocks[tail..]) - {blocks[tail]}
  {
    ElemsSize(blocks[tail..]);
    ElemsRest(blocks, tail);
    assert blocks[tail] == blocks[tail..][0];
    assert forall x :: x in blocks[tail..] ==> x in blocks;
  }

  lemma LoggableSameSize(l: Layout, img: Image, img': Image, blocks: seq<int>)
    requires Loggable(l, img, blocks) && |img'| == |img|
    ensures Loggable(l, img', blocks)
  {
  }

  lemma ElemsRest(s: seq<int>, k: nat)
    requires k < |s| && Distinct(s)
    ensures Elems(s[k + 1..]) == Elems(s[k..]) - {s[k]}
  {
    assert s[k..] == [s[k]] + s[k + 1..];
  }

  /** After a commit the home blocks hold what the file system saw before it. */
  lemma CommittedContents(l: Layout, disk: Image, bufs: seq<Buf>, blocks: seq<int>, cached: seq<Block>, out: Image)
    requires CacheOk(disk, bufs) && Settled(disk, bufs) && DirtyBlocks(bufs) == Elems(blocks)
    requires HeadOk(l, disk) && Head(l, disk) == [] && Loggable(l, disk, blocks) && cached == Contents(disk, bufs, blocks)
    requires out == if blocks == [] then disk else CommitAfter(l, disk, blocks, cached, 2 * |blocks| + 2)
    ensures |out| == |disk|
    ensures forall b :: 0 <= b < |disk| && !InLog(l, b) ==> out[b] == View(disk, bufs, b)
  {
    hide View, Settled, DirtyBlocks, BufOk;
    forall b | 0 <= b < |disk| && !InLog(l, b) ensures out[b] == View(disk, bufs, b) {
      if b !in blocks { CleanView(disk, bufs, b); }
      if blocks != [] {
        CommitHolds(l, disk, blocks, cached, 2 * |blocks| + 2, b, View(disk, bufs, b));
        assert Head(l, out) == [];
      }
    }
  }

  /** Every block outside the log looks the same. */
  ghost predicate SameHomeView(l: Layout, disk: Image, bufs: seq<Buf>, disk': Image, bufs': seq<Buf>)
    requires |bufs| == |bufs'| == NBUF + 1 && |disk| == |disk'|
  {
    forall b :: 0 <= b < |disk| && !InLog(l, b) ==> View(disk', bufs', b) == View(disk, bufs, b)
  }

  lemma CleanView(disk: Image, bufs: seq<Buf>, x: nat)
    requires CacheOk(disk, bufs) && Settled(disk, bufs) && x < |disk| && x !in DirtyBlocks(bufs)
    ensures View(disk, bufs, x) == disk[x]
  {
  }

  /** A block that is not dirty and that nobody uses looks as it is on disk. */
  lemma FreeView(disk: Image, bufs: seq<Buf>, others: set<nat>, x: nat)
    requires CacheOk(disk, bufs) && Idle(bufs, others) && x < |disk| && x !in DirtyBlocks(bufs)
    requires forall i :: i in others && i < NBUF ==> !Caches(bufs[i], ROOTDEV, x)
    ensures View(disk, bufs, x) == disk[x]
  {
  }

  // ---- The buffers of other processes ----

  lemma SameHeldRefl(bufs: seq<Buf>, others: set<nat>)
    requires |bufs| == NBUF + 1
    ensures SameHeld(bufs, bufs, others)
  {
  }

  lemma SameHeldChain(a: seq<Buf>, b: seq<Buf>, c: seq<Buf>, others: set<nat>)
    requires |a| == |b| == |c| == NBUF + 1
    requires SameHeld(a, b, others) && SameHeld(b, c, others)
    ensures SameHeld(a, c, others)
  {
    forall i | i in others && i < NBUF ensures SamePayload(a[i], c[i]) {
      assert SamePayload(a[i], b[i]) && SamePayload(b[i], c[i]);
    }
  }

  lemma HeldSame(a: seq<Buf>, b: seq<Buf>, others: set<nat>, x: nat)
    requires |a| == |b| == NBUF + 1 && x < NBUF && SameHeld(a, b, others + {x})
    ensures SameHeld(a, b, others) && SamePayload(a[x], b[x])
  {
  }

  lemma BesideOpen(l: Layout, bufs: seq<Buf>, others: set<nat>, blocks: seq<int>, x: nat)
    requires |bufs| == NBUF + 1 && Beside(l, bufs, others, blocks) && (InLog(l, x) || x in blocks)
    ensures Idle(bufs, others) && forall i :: i in others && i < NBUF ==> !Caches(bufs[i], ROOTDEV, x)
  {
  }

  lemma RoomForTwo(bufs: seq<Buf>, others: set<nat>, b: nat, x: nat)
    requires |bufs| == NBUF + 1 && |others| + 1 < NBUF && (x in DirtyBlocks(bufs) || DirtyBlocks(bufs) == {})
    ensures x in DirtyBlocks(bufs) || |others + {b}| + |DirtyBlocks(bufs)| < NBUF
  {
    hide DirtyBlocks;
    SubsetSize(others + {b}, others + {b});
  }

  lemma BesideIdle(l: Layout, bufs: seq<Buf>, others: set<nat>, blocks: seq<int>)
    requires |bufs| == NBUF + 1 && Beside(l, bufs, others, blocks)
    ensures Idle(bufs, others)
  {
  }

  lemma BesideSame(l: Layout, a: seq<Buf>, b: seq<Buf>, others: set<nat>, blocks: seq<int>)
    requires |a| == |b| == NBUF + 1 && Beside(l, a, others, blocks) && SameHeld(a, b, others)
    ensures forall i :: i in others && i < NBUF ==> !InLog(l, b[i].blockno) && b[i].blockno !in blocks
  {
    forall i | i in others && i < NBUF ensures !InLog(l, b[i].blockno) && b[i].blockno !in blocks {
      assert SamePayload(a[i], b[i]);
    }
  }

  lemma BesideKept(l: Layout, a: seq<Buf>, b: seq<Buf>, others: set<nat>, blocks: seq<int>)
    requires |a| == |b| == NBUF + 1 && Beside(l, a, others, blocks) && SameHeld(a, b, others) && Idle(b, others)
    ensures Beside(l, b, others, blocks)
  {
    BesideSame(l, a, b, others, blocks);
  }

  lemma NotBeside(l: Layout, bufs: seq<Buf>, others: set<nat>, blocks: seq<int>, x: nat, blockno: nat)
    requires |bufs| == NBUF + 1 && blockno in blocks && x < NBUF && bufs[x].blockno != blockno
    requires forall i :: i in others && i < NBUF ==> !InLog(l, bufs[i].blockno) && bufs[i].blockno !in blocks
    ensures forall i :: i in others + {x} && i < NBUF ==> !Caches(bufs[i], ROOTDEV, blockno)
  {
  }

  /** A commit writes no block that another process uses. */
  lemma SettledAfter(l: Layout, disk: Image, bufs: seq<Buf>, disk': Image, bufs': seq<Buf>, others: set<nat>, blocks: seq<int>)
    requires CacheOk(disk, bufs) && Settled(disk, bufs) && Beside(l, bufs, others, blocks) && DirtyBlocks(bufs) == Elems(blocks)
    requires CacheOk(disk', bufs') && Idle(bufs', others) && SameHeld(bufs, bufs', others) && |disk'| == |disk|
    requires forall b :: 0 <= b < |disk| && !InLog(l, b) ==> disk'[b] == View(disk, bufs, b)
    ensures Settled(disk', bufs')
  {
    forall i | 0 <= i < NBUF && bufs'[i].valid && !bufs'[i].dirty ensures bufs'[i].blockno < |disk'| && bufs'[i].data == disk'[bufs'[i].blockno] {
      if i in others {
        assert SamePayload(bufs[i], bufs'[i]);
        ViewOf(disk, bufs, i);
      }
    }
  }

  lemma {:induction false} ElemsSize(s: seq<int>)
    ensures |Elems(s)| <= |s|
    decreases |s|
  {
    if s == [] {
      assert Elems(s) == {};
    } else {
      ElemsSize(s[..|s| - 1]);
      assert Elems(s) == Elems(s[..|s| - 1]) + {s[|s| - 1]} by {
        assert s == s[..|s| - 1] + [s[|s| - 1]];
      }
    }
  }
}
