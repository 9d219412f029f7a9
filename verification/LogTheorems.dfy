/** What commits promise in every run, whatever the other processes do in between. */
module LogTheorems {
  import opened Common
  import opened DiskLog
  import opened BufferRing
  import opened BufferCache
  import opened Log
  import opened LogRuns

  // ---- Every run ----

  /** In every state of every run, also in the middle of a commit: a block that is logged and not yet written home
      has exactly one buffer, which is valid, dirty, not recyclable, and what the file system sees of the block. */
  lemma PendingIsPinned(l: Layout, run: seq<State>, events: seq<Event>, n: nat, x: nat)
    requires Run(l, run, events) && n < |run|
    ensures Shape(run[n])
    ensures var s := run[n];
      x in Pending(s) ==>
        && x < |s.disk|
        && (exists i :: 0 <= i < NBUF && Caches(s.bufs[i], ROOTDEV, x) && s.bufs[i].valid && s.bufs[i].dirty && !Recyclable(s.bufs[i])
                        && View(s.disk, s.bufs, x) == s.bufs[i].data)
        && (forall i, j :: 0 <= i < NBUF && 0 <= j < NBUF && Caches(s.bufs[i], ROOTDEV, x) && Caches(s.bufs[j], ROOTDEV, x) ==> i == j)
  {
    hide LogOk, Pending, SeenOk, CleanOk, RefsOk, GotOk, View;
    RunKeeps(l, run, events, n);
    var s := run[n];
    if x in Pending(s) { PendingBuffer(s.disk, s.bufs, Pending(s), x); }
  }

  /** In every state of every run: a valid buffer that is not dirty agrees with its disk block, unless an operation
      has it locked; and a dirty buffer is for a pending block. */
  lemma CacheAgreesWithDisk(l: Layout, run: seq<State>, events: seq<Event>, n: nat, i: nat)
    requires Run(l, run, events) && n < |run| && i < NBUF
    ensures Shape(run[n])
    ensures var s, b := run[n], run[n].bufs[i];
      && (b.valid && !b.dirty && (b.holder.Some? ==> b.holder.value !in s.ops) ==> b.blockno < |s.disk| && b.data == s.disk[b.blockno])
      && (b.dirty ==> b.valid && b.blockno in Pending(s))
  {
    hide LogOk, Pending, SeenOk, RefsOk, GotOk;
    RunKeeps(l, run, events, n);
    BufIs(l, run[n], i);
    assert run[n].bufs[i].dirty ==> run[n].bufs[i].blockno in DirtyBlocks(run[n].bufs);
  }

  /** The state in which the commit under way was started by the last end_op. */
  ghost predicate StartedAt(l: Layout, s: State, t: State) {
    && Shape(s) && CacheOk(s.disk, s.bufs) && Settled(s.disk, s.bufs) && DirtyBlocks(s.bufs) == Elems(s.lh)
    && HeadOk(l, s.disk) && DiskLog.Head(l, s.disk) == [] && Loggable(l, s.disk, s.lh) && s.lh != []
    && t.txn.base == s.disk && t.txn.blocks == s.lh && t.txn.seen == Contents(s.disk, s.bufs, s.lh)
  }

  lemma StartIs(l: Layout, s: State, pid: nat)
    requires Inv(l, s) && Enabled(l, s, End(pid)) && !Do(l, s, End(pid)).phase.Resting?
    ensures s.phase.Resting? && StartedAt(l, s, Do(l, s, End(pid)))
  {
    OnlyAtRest(l, s);
    hide LogOk, CacheOk, DirtyBlocks, Pending, RefsOk, GotOk;
    assert forall q :: q in s.ops ==> q == pid || q in s.ops - {pid};
    forall i | 0 <= i < NBUF && s.bufs[i].valid && !s.bufs[i].dirty ensures s.bufs[i].blockno < |s.disk| && s.bufs[i].data == s.disk[s.bufs[i].blockno] {
      assert Untouched(s.bufs[i], s.ops);
    }
  }

  /** No other step than end_op starts a commit, and none changes what it commits. */
  lemma TxnKept(l: Layout, s: State, e: Event)
    requires Shape(s) && Enabled(l, s, e) && !e.End? && !Do(l, s, e).phase.Resting?
    ensures !s.phase.Resting?
    ensures var t := Do(l, s, e); t.txn == s.txn.(images := t.txn.images)
  {
  }

  /** Where the commit under way in state n started. */
  lemma {:induction false} CommitStart(l: Layout, run: seq<State>, events: seq<Event>, n: nat) returns (m: nat)
    requires Run(l, run, events) && n < |run| && !run[n].phase.Resting?
    ensures m < n && events[m].End? && run[m].phase.Resting? && StartedAt(l, run[m], run[n])
    ensures forall k :: m < k <= n ==> !run[k].phase.Resting?
    decreases n
  {
    hide Inv, Do, Enabled, StartedAt;
    RunKeeps(l, run, events, n);
    StartsResting(l, run[0]);
    RunKeeps(l, run, events, n - 1);
    var s, e := run[n - 1], events[n - 1];
    if e.End? {
      m := n - 1;
      StartIs(l, s, e.pid);
    } else {
      TxnKept(l, s, e);
      m := CommitStart(l, run, events, n - 1);
      StartedStill(l, run[m], s, run[n]);
    }
  }

  lemma StartsResting(l: Layout, s: State)
    requires Initial(l, s)
    ensures s.phase.Resting?
  {
  }

  lemma StartedStill(l: Layout, s: State, t: State, u: State)
    requires StartedAt(l, s, t) && u.txn == t.txn.(images := u.txn.images)
    ensures StartedAt(l, s, u)
  {
  }

  lemma CommitIs(l: Layout, s: State)
    requires Inv(l, s) && !s.phase.Resting?
    ensures s.ops == {} && TxnOk(l, s.txn) && Writes(s) <= 2 * |s.txn.blocks| + 2
    ensures s.disk == CommitAfter(l, s.txn.base, s.txn.blocks, s.txn.seen, Writes(s)) && |s.txn.images| == Writes(s)
    ensures forall k :: 0 <= k < Writes(s) ==> s.txn.images[k] == CommitAfter(l, s.txn.base, s.txn.blocks, s.txn.seen, k + 1)
  {
    hide CommitAfter, CacheOk, DirtyBlocks, RefsOk, GotOk;
  }

  /** Whatever the other processes do, a commit writes the images of Log.CommitImages in order, for the blocks logged
      and the contents seen when the last operation ended. */
  lemma CommitHistory(l: Layout, run: seq<State>, events: seq<Event>, n: nat) returns (m: nat)
    requires Run(l, run, events) && n < |run| && !run[n].phase.Resting?
    ensures m < n && events[m].End? && run[m].phase.Resting? && StartedAt(l, run[m], run[n])
    ensures var start := run[m];
      var images := CommitImages(l, start.disk, start.lh, Contents(start.disk, start.bufs, start.lh));
      && Writes(run[n]) <= |images| && run[n].txn.images == images[..Writes(run[n])]
      && run[n].disk == if Writes(run[n]) == 0 then start.disk else images[Writes(run[n]) - 1]
  {
    hide Inv, CommitAfter, Writes, CommitImages, Do, Enabled, Initial;
    m := CommitStart(l, run, events, n);
    RunKeeps(l, run, events, n);
    CommitIs(l, run[n]);
    var start, txn, k := run[m], run[n].txn, Writes(run[n]);
    var images := CommitImages(l, txn.base, txn.blocks, txn.seen);
    forall j | 0 <= j < |images| ensures images[j] == CommitAfter(l, txn.base, txn.blocks, txn.seen, j + 1) {
      CommitImageIs(l, txn.base, txn.blocks, txn.seen, j);
    }
    if k == 0 { NothingWritten(l, txn); }
  }

  lemma NothingWritten(l: Layout, txn: Txn)
    requires Loggable(l, txn.base, txn.blocks) && |txn.seen| == |txn.blocks|
    ensures CommitAfter(l, txn.base, txn.blocks, txn.seen, 0) == txn.base
  {
  }

  lemma CommitAfterIs(l: Layout, base: Image, blocks: seq<int>, seen: seq<Block>, k: nat)
    requires Loggable(l, base, blocks) && |seen| == |blocks| && k <= 2 * |blocks| + 2
    ensures var n := |blocks|;
      if k <= n then CommitAfter(l, base, blocks, seen, k) == LogWritten(l, base, seen, k)
      else
        var committed := WithHead(l, LogWritten(l, base, seen, n), blocks);
        CommitAfter(l, base, blocks, seen, k) ==
          if k <= 2 * n + 1 then Installed(l, committed, blocks, k - n - 1) else WithHead(l, Installed(l, committed, blocks, n), [])
  {
    hide Installed, LogWritten, WithHead;
  }

  /** A block outside the log holds its old contents until it is installed. */
  lemma HomeAfter(l: Layout, base: Image, blocks: seq<int>, seen: seq<Block>, k: nat, b: nat)
    requires Loggable(l, base, blocks) && |seen| == |blocks| && k <= 2 * |blocks| + 2 && b < |base| && !InLog(l, b)
    ensures b !in blocks ==> CommitAfter(l, base, blocks, seen, k)[b] == base[b]
    ensures forall j :: 0 <= j < |blocks| && blocks[j] == b && |blocks| + 1 + j < k ==> CommitAfter(l, base, blocks, seen, k)[b] == seen[j]
  {
    hide Installed, LogWritten, WithHead, CommitAfter, HeadOk, DiskLog.Head;
    var n := |blocks|;
    LogWrittenBlocks(l, base, seen, if k <= n then k else n);
    CommitAfterIs(l, base, blocks, seen, k);
    if k > n {
      var logged := LogWritten(l, base, seen, n);
      var committed := WithHead(l, logged, blocks);
      WithHeadIs(l, logged, blocks);
      var i := if k <= 2 * n + 1 then k - n - 1 else n;
      InstalledBlocks(l, committed, blocks, i);
      WithHeadIs(l, Installed(l, committed, blocks, i), []);
      assert forall x :: x in blocks[..i] ==> x in blocks;
      forall j | 0 <= j < n && blocks[j] == b && n + 1 + j < k ensures CommitAfter(l, base, blocks, seen, k)[b] == seen[j] {
        assert Installed(l, committed, blocks, i)[blocks[j]] == committed[l.start + 1 + j];
      }
    }
  }

  /** A logged block that is not pending any more has been installed. */
  lemma InstalledIfNotPending(s: State, j: nat)
    requires PhaseOk(s) && !s.phase.Resting? && j < |s.txn.blocks| && s.txn.blocks[j] !in Pending(s)
    ensures |s.txn.blocks| + 1 + j < Writes(s)
  {
    if s.phase.Installing? {
      var cut := if s.written then s.phase.tail + 1 else s.phase.tail;
      assert forall i :: cut <= i < |s.lh| ==> s.lh[cut..][i - cut] == s.lh[i];
    }
  }

  /** What the file system sees of a block during a commit is what it saw when the commit started. */
  lemma CommitView(l: Layout, start: State, s: State, b: nat)
    requires Inv(l, s) && !s.phase.Resting? && StartedAt(l, start, s) && b < |s.disk| && !InLog(l, b)
    ensures b < |start.disk| && View(s.disk, s.bufs, b) == View(start.disk, start.bufs, b)
  {
    hide View, CacheOk, DirtyBlocks, RefsOk, GotOk, CommitAfter, Settled;
    CommitIs(l, s);
    HomeAfter(l, s.txn.base, s.txn.blocks, s.txn.seen, Writes(s), b);
    if b in s.txn.blocks {
      var j :| 0 <= j < |s.txn.blocks| && s.txn.blocks[j] == b;
      if b in Pending(s) {
        DirtyIsCached(s.disk, s.bufs, b);
        ViewOf(s.disk, s.bufs, Slot(s.bufs, ROOTDEV, b));
      } else {
        InstalledIfNotPending(s, j);
        CommitSettled(s);
        CleanView(s.disk, s.bufs, b);
      }
    } else {
      NotLogged(l, s, b);
      CommitSettled(s);
      CleanView(s.disk, s.bufs, b);
      CleanView(start.disk, start.bufs, b);
    }
  }

  lemma NotLogged(l: Layout, s: State, b: nat)
    requires PhaseOk(s) && !s.phase.Resting? && b !in s.txn.blocks
    ensures b !in Pending(s)
  {
    if s.phase.Installing? {
      var cut := if s.written then s.phase.tail + 1 else s.phase.tail;
      assert forall x :: x in s.lh[cut..] ==> x in s.lh;
    }
  }

  lemma CommitSettled(s: State)
    requires Shape(s) && CleanOk(s) && s.ops == {}
    ensures Settled(s.disk, s.bufs)
  {
    forall i | 0 <= i < NBUF && s.bufs[i].valid && !s.bufs[i].dirty ensures s.bufs[i].blockno < |s.disk| && s.bufs[i].data == s.disk[s.bufs[i].blockno] {
      assert Untouched(s.bufs[i], s.ops);
    }
  }

  /** A reader sees the newest contents of every block outside the log at every moment of a commit. */
  lemma ReadersSeeNewest(l: Layout, run: seq<State>, events: seq<Event>, n: nat) returns (m: nat)
    requires Run(l, run, events) && n < |run| && !run[n].phase.Resting?
    ensures m < n && events[m].End? && run[m].phase.Resting? && StartedAt(l, run[m], run[n])
    ensures Shape(run[n]) && |run[n].disk| == |run[m].disk|
    ensures forall b :: 0 <= b < |run[n].disk| && !InLog(l, b) ==> View(run[n].disk, run[n].bufs, b) == View(run[m].disk, run[m].bufs, b)
  {
    hide Inv, View, Do, Enabled, Initial, StartedAt, CommitAfter;
    m := CommitStart(l, run, events, n);
    RunKeeps(l, run, events, n);
    InvShape(l, run[n]);
    CommitIs(l, run[n]);
    StartSize(l, run[m], run[n]);
    forall b | 0 <= b < |run[n].disk| && !InLog(l, b) ensures View(run[n].disk, run[n].bufs, b) == View(run[m].disk, run[m].bufs, b) {
      CommitView(l, run[m], run[n], b);
    }
  }

  lemma StartSize(l: Layout, s: State, t: State)
    requires StartedAt(l, s, t)
    ensures Shape(s) && t.txn.base == s.disk
  {
  }

  /** Crash safety of every run.  At rest recovery changes no block outside the log.  During a commit it restores, for
      all of them together, the disk as the commit found it or what the file system saw then: the former until the
      header is written, the latter from then on. */
  lemma CrashAnywhere(l: Layout, run: seq<State>, events: seq<Event>, n: nat, crashes: seq<nat>) returns (m: nat)
    requires Run(l, run, events) && n < |run|
    ensures HeadOk(l, run[n].disk)
    ensures m <= n && run[m].phase.Resting? && Shape(run[m]) && |run[m].disk| == |run[n].disk|
    ensures var out := AfterCrashes(l, run[n].disk, crashes);
      forall b :: 0 <= b < |out| && !InLog(l, b) ==>
        out[b] == if !run[n].phase.Resting? && Writes(run[n]) > |run[n].txn.blocks| then View(run[m].disk, run[m].bufs, b) else run[m].disk[b]
    ensures run[n].phase.Resting? ==> m == n
    ensures !run[n].phase.Resting? ==> m < n && events[m].End? && StartedAt(l, run[m], run[n])
  {
    hide Inv, View, Do, Enabled, Initial, StartedAt, CommitAfter, AfterCrashes;
    RunKeeps(l, run, events, n);
    InvShape(l, run[n]);
    if run[n].phase.Resting? {
      m := n;
      RestIs(l, run[n]);
      forall b | 0 <= b < |run[n].disk| && !InLog(l, b) ensures AfterCrashes(l, run[n].disk, crashes)[b] == run[n].disk[b] {
        RepeatedRecovery(l, run[n].disk, crashes, b, run[n].disk[b]);
      }
    } else {
      m := CommitStart(l, run, events, n);
      StartSize(l, run[m], run[n]);
      CrashInCommit(l, run[m], run[n], crashes);
    }
  }

  lemma RestIs(l: Layout, s: State)
    requires Inv(l, s) && s.phase.Resting?
    ensures HeadOk(l, s.disk) && DiskLog.Head(l, s.disk) == []
  {
    hide CacheOk, DirtyBlocks, RefsOk, GotOk;
  }

  lemma CrashInCommit(l: Layout, start: State, s: State, crashes: seq<nat>)
    requires Inv(l, s) && !s.phase.Resting? && StartedAt(l, start, s)
    ensures HeadOk(l, s.disk) && |s.disk| == |start.disk|
    ensures var out := AfterCrashes(l, s.disk, crashes);
      forall b :: 0 <= b < |out| && !InLog(l, b) ==>
        out[b] == if Writes(s) > |s.txn.blocks| then View(start.disk, start.bufs, b) else start.disk[b]
  {
    hide Inv, View, CacheOk, DirtyBlocks, CommitAfter, AfterCrashes, Settled, HeadOk, Writes;
    CommitIs(l, s);
    CrashAtomicity(l, s.txn.base, s.txn.blocks, s.txn.seen, Writes(s), crashes);
    var out := AfterCrashes(l, s.disk, crashes);
    if Writes(s) > |s.txn.blocks| {
      forall b | 0 <= b < |out| && !InLog(l, b) ensures out[b] == View(start.disk, start.bufs, b) {
        if b !in s.txn.blocks { CleanView(start.disk, start.bufs, b); }
      }
    }
  }

  /** When a commit is done the disk holds, outside the log, what the file system saw when it started. */
  lemma CommitIsDurable(l: Layout, run: seq<State>, events: seq<Event>, n: nat) returns (m: nat)
    requires Run(l, run, events) && n < |events| && !run[n].phase.Resting? && run[n + 1].phase.Resting?
    ensures m < n && events[m].End? && Shape(run[m]) && |run[n + 1].disk| == |run[m].disk|
    ensures forall b :: 0 <= b < |run[m].disk| && !InLog(l, b) ==> run[n + 1].disk[b] == View(run[m].disk, run[m].bufs, b)
  {
    hide Inv, View, Initial, StartedAt, CommitAfter;
    m := CommitStart(l, run, events, n);
    RunKeeps(l, run, events, n);
    InvShape(l, run[n]);
    CommitIs(l, run[n]);
    StartSize(l, run[m], run[n]);
    LastStep(l, run[n], events[n]);
    CommitDone(l, run[m], run[n]);
  }

  lemma LastStep(l: Layout, s: State, e: Event)
    requires Inv(l, s) && Enabled(l, s, e) && !s.phase.Resting? && Do(l, s, e).phase.Resting?
    ensures Do(l, s, e).disk == s.disk && Writes(s) == 2 * |s.txn.blocks| + 2
  {
    if e.End? { OnlyAtRest(l, s); }
  }

  lemma CommitDone(l: Layout, start: State, s: State)
    requires StartedAt(l, start, s) && TxnOk(l, s.txn) && s.disk == CommitAfter(l, s.txn.base, s.txn.blocks, s.txn.seen, 2 * |s.txn.blocks| + 2)
    ensures |s.disk| == |start.disk|
    ensures forall b :: 0 <= b < |start.disk| && !InLog(l, b) ==> s.disk[b] == View(start.disk, start.bufs, b)
  {
    hide View, CommitAfter, CacheOk, DirtyBlocks, Settled, HeadOk, Loggable;
    CommittedContents(l, start.disk, start.bufs, start.lh, s.txn.seen, s.disk);
  }

  // ---- A commit can always be completed ----

  /** The committer holds no buffers but those in `got`. */
  ghost predicate HoldsGot(s: State)
    requires Shape(s)
  {
    forall i :: 0 <= i < NBUF && s.bufs[i].holder == Some(COMMITTER) ==> i in s.got
  }

  lemma HoldsGotKept(l: Layout, s: State, e: Event)
    requires Inv(l, s) && HoldsGot(s) && Enabled(l, s, e)
    ensures Shape(Do(l, s, e)) && HoldsGot(Do(l, s, e))
  {
    hide Inv;
    assert Shape(s) by { InvShape(l, s); }
    assert Shape(Do(l, s, e)) by { DoKeeps(l, s, e); InvShape(l, Do(l, s, e)); }
    if e.CommitTake? {
      assert forall i :: i in s.got ==> i in Do(l, s, e).got;
    } else if e.CommitUnlock? {
      ReleasedGot(l, s, e.k);
    } else if e.End? {
      NothingGot(l, s, e.pid);
    } else {
      GotUnchanged(l, s, e);
    }
  }

  lemma ReleasedGot(l: Layout, s: State, k: nat)
    requires Shape(s) && Enabled(l, s, CommitUnlock(k)) && HoldsGot(s)
    ensures Shape(Do(l, s, CommitUnlock(k))) && HoldsGot(Do(l, s, CommitUnlock(k)))
  {
    var t := Do(l, s, CommitUnlock(k));
    assert t.bufs[s.got[k]].holder.None?;
    forall i | i in s.got && i != s.got[k] ensures i in t.got {
      var j :| 0 <= j < |s.got| && s.got[j] == i;
      assert t.got[if j < k then j else j - 1] == i;
    }
  }

  /** No other step gives the committer a lock. */
  lemma GotUnchanged(l: Layout, s: State, e: Event)
    requires Shape(s) && Enabled(l, s, e) && !e.CommitTake? && !e.CommitUnlock? && !e.End?
    ensures var t := Do(l, s, e);
      |t.bufs| == |s.bufs| && t.got == s.got && forall i :: 0 <= i < NBUF && t.bufs[i].holder == Some(COMMITTER) ==> s.bufs[i].holder == Some(COMMITTER)
  {
    hide Slot;
  }

  lemma NothingGot(l: Layout, s: State, pid: nat)
    requires Inv(l, s) && Enabled(l, s, End(pid))
    ensures s.got == []
  {
    OnlyAtRest(l, s);
  }

  lemma {:induction false} RunHoldsGot(l: Layout, run: seq<State>, events: seq<Event>, n: nat)
    requires Run(l, run, events) && n < |run|
    ensures Inv(l, run[n]) && HoldsGot(run[n])
    decreases n
  {
    hide Inv, Do, Enabled, HoldsGot;
    RunKeeps(l, run, events, n);
    if n == 0 {
      assert HoldsGot(run[0]) by { NothingHeld(l, run[0]); }
    } else {
      RunHoldsGot(l, run, events, n - 1);
      HoldsGotKept(l, run[n - 1], events[n - 1]);
    }
  }

  lemma NothingHeld(l: Layout, s: State)
    requires Initial(l, s)
    ensures HoldsGot(s)
  {
    forall i | 0 <= i < NBUF ensures s.bufs[i].holder.None? {
      assert BufOk(s.bufs[i], s.disk);
    }
  }

  /** The buffers that other processes use. */
  ghost function Others(s: State): (r: set<nat>)
    requires Shape(s)
  {
    set i: nat | i < NBUF && (s.users[i] > 0 || (s.bufs[i].holder.Some? && s.bufs[i].holder.value != COMMITTER))
  }

  /** The pinned buffers and those of other processes leave one over. */
  ghost predicate Room(s: State)
    requires Shape(s)
  {
    |Others(s)| + |Pending(s)| < NBUF
  }

  /** A step of the committer, or one by which another process is done with a buffer. */
  predicate Finishes(e: Event) {
    e.CommitRef? || e.CommitTake? || e.CommitWrite? || e.CommitUnlock? || e.CommitNext? || e.Fill? || e.Unlock? || e.Drop?
  }

  ghost predicate Leads(l: Layout, s: State, es: seq<Event>, t: State)
    decreases |es|
  {
    if es == [] then t == s
    else Shape(s) && Enabled(l, s, es[0]) && Finishes(es[0]) && Leads(l, Do(l, s, es[0]), es[1..], t)
  }

  /** The locked buffers that are not yet read. */
  ghost function Unread(s: State): (n: nat)
    requires Shape(s)
  {
    (if |s.got| > 0 && s.got[0] < NBUF && !s.bufs[s.got[0]].valid then 1 else 0) +
    (if |s.got| > 1 && s.got[1] < NBUF && !s.bufs[s.got[1]].valid then 1 else 0)
  }

  /** What is left to do in the present phase: buffers to release after the write, or to get before it. */
  ghost function Left(s: State): (n: nat) {
    if s.written then |s.got| else if |s.got| <= 2 then 2 - |s.got| else 0
  }

  /** What is left to do before the committer asks for its next buffer, or has it. */
  ghost function Waits(s: State): (n: nat)
    requires Shape(s)
  {
    if s.written then 0
    else if s.asked.Some? && s.asked.value < NBUF then
      var b := s.bufs[s.asked.value];
      if b.holder.None? then 0 else if b.valid then 1 else 2
    else 3 + Unread(s)
  }

  /** Fewer writes, or as many and fewer steps, are left in t than in s. */
  ghost predicate Closer(s: State, t: State)
    requires Shape(s) && Shape(t)
  {
    || Writes(t) > Writes(s)
    || (Writes(t) == Writes(s) && s.written && !t.written)
    || (Writes(t) == Writes(s) && s.written == t.written &&
        (Left(t) < Left(s) || (Left(t) == Left(s) && Waits(t) < Waits(s))))
  }

  ghost predicate Ready(l: Layout, s: State) {
    Inv(l, s) && HoldsGot(s) && Room(s) && !s.phase.Resting?
  }

  ghost predicate Better(l: Layout, s: State, t: State) {
    && Inv(l, s) && Inv(l, t) && HoldsGot(t) && t.txn.blocks == s.txn.blocks
    && (t.phase.Resting? || (Room(t) && Closer(s, t)))
  }

  lemma RoomKept(s: State, t: State)
    requires Shape(s) && Shape(t) && Room(s) && Others(t) <= Others(s) && Pending(t) <= Pending(s)
    ensures Room(t)
  {
    SubsetSize(Others(t), Others(s));
    SubsetSize(Pending(t), Pending(s));
  }

  lemma OneStep(l: Layout, s: State, e: Event)
    requires Inv(l, s) && HoldsGot(s) && Enabled(l, s, e) && Finishes(e)
    ensures Leads(l, s, [e], Do(l, s, e)) && Inv(l, Do(l, s, e)) && HoldsGot(Do(l, s, e))
  {
    hide Inv, Do, Enabled, HoldsGot;
    InvShape(l, s);
    DoKeeps(l, s, e);
    HoldsGotKept(l, s, e);
    assert [e][1..] == [];
    assert Leads(l, Do(l, s, e), [], Do(l, s, e));
  }

  lemma {:induction false} LeadsOn(l: Layout, s: State, es: seq<Event>, t: State, more: seq<Event>, u: State)
    requires Leads(l, s, es, t) && Leads(l, t, more, u)
    ensures Leads(l, s, es + more, u)
    decreases |es|
  {
    hide Do, Enabled, Shape;
    if es == [] {
      assert es + more == more;
    } else {
      LeadsOn(l, Do(l, s, es[0]), es[1..], t, more, u);
      assert (es + more)[1..] == es[1..] + more;
    }
  }

  /** After the write: release the buffers one by one, then go on to the next phase. */
  lemma NextRelease(l: Layout, s: State) returns (es: seq<Event>, t: State)
    requires Ready(l, s) && s.written
    ensures Leads(l, s, es, t) && Better(l, s, t)
  {
    if s.got == [] {
      t := Do(l, s, CommitNext);
      es := [CommitNext];
      OneStep(l, s, CommitNext);
      NextPhase(l, s);
    } else {
      var b := s.got[0];
      var u := Do(l, s, CommitUnlock(0));
      OneStep(l, s, CommitUnlock(0));
      CanDrop(l, s, b);
      t := Do(l, u, Drop(b));
      OneStep(l, u, Drop(b));
      LeadsOn(l, s, [CommitUnlock(0)], u, [Drop(b)], t);
      es := [CommitUnlock(0)] + [Drop(b)];
      DroppedRoom(l, s);
    }
  }

  lemma NextPhase(l: Layout, s: State)
    requires Ready(l, s) && s.written && s.got == [] && s.asked.None?
    ensures var t := Advanced(s);
      Shape(t) && t.txn == s.txn && (t.phase.Resting? || (Room(t) && Writes(t) == Writes(s) && !t.written))
  {
    hide CacheOk, DirtyBlocks, CommitAfter, RefsOk;
    var t := Advanced(s);
    LogAdvances(l, s, t);
    RoomKept(s, t);
  }

  lemma CanDrop(l: Layout, s: State, b: nat)
    requires Ready(l, s) && s.written && s.got != [] && b == s.got[0]
    ensures Shape(s) && b < NBUF && s.bufs[b].refcnt > 0
  {
    assert s.bufs[b].holder == Some(COMMITTER);
  }

  lemma DroppedRoom(l: Layout, s: State)
    requires Ready(l, s) && s.written && s.got != [] && s.got[0] < NBUF && s.bufs[s.got[0]].refcnt > 0
    ensures var u := Do(l, s, CommitUnlock(0));
      Shape(u) && Enabled(l, u, Drop(s.got[0])) && var t := Do(l, u, Drop(s.got[0]));
      Shape(t) && t.txn == s.txn && t.phase == s.phase && Room(t) && Writes(t) == Writes(s) && t.written && Left(t) < Left(s)
  {
    hide DataOk, RefsOk;
    var b := s.got[0];
    var u := Do(l, s, CommitUnlock(0));
    var t := Do(l, u, Drop(b));
    assert t.users == s.users;
    RoomKept(s, t);
  }

  /** Waiting for a lock: its holder reads the block if it must and releases the buffer, then the committer takes it. */
  lemma NextTake(l: Layout, s: State) returns (es: seq<Event>, t: State)
    requires Ready(l, s) && !s.written && s.asked.Some?
    ensures Leads(l, s, es, t) && Better(l, s, t)
  {
    hide Closer, Room;
    HeldByOther(l, s);
    var b := s.asked.value;
    var e := if s.bufs[b].holder.None? then CommitTake
             else if s.bufs[b].valid then Unlock(b, s.bufs[b].holder.value)
             else Fill(b, s.bufs[b].holder.value);
    CanTake(l, s, e);
    t := Do(l, s, e);
    es := [e];
    OneStep(l, s, e);
    TakenRoom(l, s, e);
  }

  lemma HeldByOther(l: Layout, s: State)
    requires Ready(l, s) && !s.written && s.asked.Some?
    ensures s.asked.value < NBUF && s.bufs[s.asked.value].holder != Some(COMMITTER) && s.bufs[s.asked.value].blockno < |s.disk|
    ensures s.bufs[s.asked.value].refcnt > 0 && s.ops == {} && |s.got| < |Needs(l, s)| <= 2
  {
    hide CacheOk, DirtyBlocks, CommitAfter;
    var b := s.asked.value;
    NeedsDistinct(l, s);
    assert forall k :: 0 <= k < |s.got| ==> s.got[k] != b;
  }

  lemma NeedsDistinct(l: Layout, s: State)
    requires Shape(s) && LogOk(l, s) && !s.phase.Resting?
    ensures forall j, k :: 0 <= j < k < |Needs(l, s)| ==> Needs(l, s)[j] != Needs(l, s)[k]
    ensures forall k :: 0 <= k < |Needs(l, s)| ==> Needs(l, s)[k] < |s.disk|
    ensures 0 < |Needs(l, s)| <= 2
    ensures |Needs(l, s)| == 2 && !s.written ==> Needs(l, s)[1] in Pending(s)
  {
    hide CommitAfter;
    assert Loggable(l, s.txn.base, s.txn.blocks);
    if s.phase.Copying? || s.phase.Installing? {
      LogBlock(l, s.txn.base, s.lh, s.phase.tail);
      assert s.lh[s.phase.tail..][0] == s.lh[s.phase.tail];
    }
  }

  lemma CanTake(l: Layout, s: State, e: Event)
    requires Ready(l, s) && !s.written && s.asked.Some? && s.asked.value < NBUF && s.bufs[s.asked.value].holder != Some(COMMITTER)
    requires s.bufs[s.asked.value].blockno < |s.disk| && s.ops == {}
    requires var b := s.asked.value;
      e == if s.bufs[b].holder.None? then CommitTake
           else if s.bufs[b].valid then Unlock(b, s.bufs[b].holder.value)
           else Fill(b, s.bufs[b].holder.value)
    ensures Enabled(l, s, e) && Finishes(e)
  {
    hide DataOk, RefsOk, GotOk, HoldsGot, Room;
  }

  lemma TakenRoom(l: Layout, s: State, e: Event)
    requires Ready(l, s) && !s.written && s.asked.Some? && s.asked.value < NBUF && s.bufs[s.asked.value].holder != Some(COMMITTER)
    requires |s.got| < |Needs(l, s)| <= 2 && Enabled(l, s, e)
    requires var b := s.asked.value;
      e == if s.bufs[b].holder.None? then CommitTake
           else if s.bufs[b].valid then Unlock(b, s.bufs[b].holder.value)
           else Fill(b, s.bufs[b].holder.value)
    ensures var t := Do(l, s, e); Shape(t) && t.txn == s.txn && t.phase == s.phase && Room(t) && Closer(s, t)
  {
    hide DataOk, RefsOk, GotOk, HoldsGot;
    var t := Do(l, s, e);
    assert Others(t) <= Others(s);
    RoomKept(s, t);
  }

  /** Otherwise the committer reads a block, asks for a buffer, or writes. */
  lemma NextGet(l: Layout, s: State) returns (es: seq<Event>, t: State)
    requires Ready(l, s) && !s.written && s.asked.None?
    ensures Leads(l, s, es, t) && Better(l, s, t)
  {
    hide Closer, Room;
    GotIs(l, s);
    var e;
    if k :| 0 <= k < |s.got| && !s.bufs[s.got[k]].valid {
      e := Fill(s.got[k], COMMITTER);
    } else if |s.got| == |Needs(l, s)| {
      e := CommitWrite;
    } else {
      var b := FreeBuffer(l, s);
      e := CommitRef(b);
    }
    CanGet(l, s, e);
    t := Do(l, s, e);
    es := [e];
    OneStep(l, s, e);
    GetRoom(l, s, e);
  }

  /** The committer's position: at most two buffers, each for a block on the disk. */
  lemma GotIs(l: Layout, s: State)
    requires Ready(l, s) && !s.written
    ensures |s.got| <= |Needs(l, s)| <= 2 && 0 < |Needs(l, s)| && |s.lh| <= LOGSIZE
    ensures forall k :: 0 <= k < |s.got| ==> s.got[k] < NBUF && s.bufs[s.got[k]].holder == Some(COMMITTER) && s.bufs[s.got[k]].blockno < |s.disk|
    ensures forall j, k :: 0 <= j < k < |s.got| ==> s.got[j] != s.got[k]
  {
    hide CacheOk, DirtyBlocks, CommitAfter;
    NeedsDistinct(l, s);
    assert Loggable(l, s.txn.base, s.txn.blocks);
  }

  /** The buffer of the next block: a pending block has one, and for any other block one is recyclable. */
  lemma FreeBuffer(l: Layout, s: State) returns (b: nat)
    requires Ready(l, s) && !s.written && s.asked.None? && |s.got| < |Needs(l, s)|
    ensures Gets(s, b, Needs(l, s)[|s.got|])
  {
    NeedsDistinct(l, s);
    hide LogOk, SeenOk, CleanOk, Pending;
    var x := Needs(l, s)[|s.got|];
    if Slot(s.bufs, ROOTDEV, x) >= 0 {
      b := Slot(s.bufs, ROOTDEV, x);
    } else {
      if |s.got| == 1 { DirtyIsCached(s.disk, s.bufs, x); }
      forall i | 0 <= i < NBUF && i !in Others(s) ensures s.bufs[i].refcnt == 0 {
        assert s.bufs[i].holder == Some(COMMITTER) ==> i in s.got;
      }
      SpareBuffer(s.disk, s.bufs, Others(s));
      b :| 0 <= b < NBUF && Recyclable(s.bufs[b]);
    }
  }

  ghost predicate GetsNext(l: Layout, s: State, e: Event)
    requires Shape(s)
  {
    match e
    case Fill(b, pid) => pid == COMMITTER && b in s.got && b < NBUF && !s.bufs[b].valid
    case CommitWrite => |s.got| == |Needs(l, s)| && forall k :: 0 <= k < |s.got| ==> s.got[k] < NBUF && s.bufs[s.got[k]].valid
    case CommitRef(b) =>
      |s.got| < |Needs(l, s)| && Gets(s, b, Needs(l, s)[|s.got|]) && forall k :: 0 <= k < |s.got| ==> s.got[k] < NBUF && s.bufs[s.got[k]].valid
    case _ => false
  }

  lemma CanGet(l: Layout, s: State, e: Event)
    requires Ready(l, s) && !s.written && s.asked.None? && GetsNext(l, s, e)
    ensures Enabled(l, s, e) && Finishes(e)
  {
    GotIs(l, s);
    hide DataOk, RefsOk, GotOk, HoldsGot, Room;
  }

  lemma GetRoom(l: Layout, s: State, e: Event)
    requires Ready(l, s) && !s.written && s.asked.None? && GetsNext(l, s, e) && Enabled(l, s, e)
    ensures var t := Do(l, s, e); Shape(t) && t.txn.blocks == s.txn.blocks && t.phase == s.phase && Room(t) && Closer(s, t)
  {
    GotIs(l, s);
    hide Closer, Room, Gets, Do, Enabled;
    match e {
      case Fill(b, _) => FillRoom(l, s, b);
      case CommitWrite => WriteRoom(l, s);
      case CommitRef(b) => RefRoom(l, s, b);
      case _ =>
    }
  }

  lemma FillRoom(l: Layout, s: State, b: nat)
    requires Ready(l, s) && !s.written && s.asked.None? && b in s.got && b < NBUF && !s.bufs[b].valid && Enabled(l, s, Fill(b, COMMITTER))
    requires |s.got| <= 2 && forall j, k :: 0 <= j < k < |s.got| ==> s.got[j] != s.got[k]
    ensures var t := Do(l, s, Fill(b, COMMITTER)); Shape(t) && t.txn == s.txn && t.phase == s.phase && Room(t) && Closer(s, t)
  {
    hide DataOk, RefsOk, GotOk, HoldsGot;
    var t := Do(l, s, Fill(b, COMMITTER));
    assert Others(t) <= Others(s);
    RoomKept(s, t);
    var k :| 0 <= k < |s.got| && s.got[k] == b;
    assert k == 0 || k == 1;
  }

  lemma WriteRoom(l: Layout, s: State)
    requires Ready(l, s) && !s.written && s.asked.None? && Enabled(l, s, CommitWrite)
    ensures var t := Do(l, s, CommitWrite);
      Shape(t) && t.txn.blocks == s.txn.blocks && t.phase == s.phase && Room(t) && Closer(s, t)
  {
    hide Inv, HoldsGot, Room, Others, Pending, WrittenThrough, Closer, LogOk, Do, Enabled;
    var b, data := WriteStores(l, s);
    var t := WrittenThrough(s, b, data);
    WrittenOthers(s, b, data);
    LogIs(l, s);
    PendingShrinks(l, s, t);
    WriteCloser(s, t);
    RoomKept(s, t);
  }

  lemma WriteStores(l: Layout, s: State) returns (b: nat, data: Block)
    requires Inv(l, s) && Enabled(l, s, CommitWrite)
    ensures Shape(s) && b < NBUF && s.bufs[b].blockno < |s.disk| && !s.phase.Resting? && Do(l, s, CommitWrite) == WrittenThrough(s, b, data)
  {
    hide DataOk, RefsOk, GotOk, Payload, WrittenThrough;
    b, data := Target(s), Payload(s);
  }

  lemma WriteCloser(s: State, t: State)
    requires Shape(s) && Shape(t) && !s.phase.Resting? && !s.written
    requires t == s.(disk := t.disk, bufs := t.bufs, written := true, txn := t.txn) && t.txn.blocks == s.txn.blocks
    ensures Closer(s, t)
  {
  }

  lemma WrittenOthers(s: State, b: nat, data: Block)
    requires Shape(s) && b < NBUF && s.bufs[b].blockno < |s.disk|
    ensures var t := WrittenThrough(s, b, data);
      && Shape(t) && Others(t) == Others(s)
      && t == s.(disk := t.disk, bufs := t.bufs, written := true, txn := t.txn) && t.txn.blocks == s.txn.blocks
  {
  }

  lemma LogIs(l: Layout, s: State)
    requires Inv(l, s)
    ensures LogOk(l, s)
  {
  }

  lemma PendingShrinks(l: Layout, s: State, t: State)
    requires LogOk(l, s) && !s.phase.Resting? && !s.written && t == s.(disk := t.disk, bufs := t.bufs, written := true, txn := t.txn)
    ensures Pending(t) <= Pending(s)
  {
    hide LogOk;
    if s.phase.Installing? { PendingWritten(l, s, t); }
  }

  lemma RefRoom(l: Layout, s: State, b: nat)
    requires Ready(l, s) && !s.written && s.asked.None? && Enabled(l, s, CommitRef(b))
    ensures var t := Do(l, s, CommitRef(b)); Shape(t) && t.txn == s.txn && t.phase == s.phase && Room(t) && Closer(s, t)
  {
    hide DataOk, GotOk, HoldsGot;
    var t := Do(l, s, CommitRef(b));
    assert Others(t) <= Others(s);
    RoomKept(s, t);
  }

  lemma {:induction false} Completed(l: Layout, s: State) returns (es: seq<Event>, t: State)
    requires Ready(l, s)
    ensures Leads(l, s, es, t) && t.phase.Resting?
    decreases 2 * |s.txn.blocks| + 2 - Writes(s), s.written, Left(s), Waits(s)
  {
    hide Inv, Do, Enabled, HoldsGot, Room, Writes, Left, Waits;
    var first, u;
    if s.written {
      first, u := NextRelease(l, s);
    } else if s.asked.Some? {
      first, u := NextTake(l, s);
    } else {
      first, u := NextGet(l, s);
    }
    var more := [];
    t := u;
    if !u.phase.Resting? {
      CommitIs(l, u);
      more, t := Completed(l, u);
    }
    LeadsOn(l, s, first, u, more, t);
    es := first + more;
  }

  /** In every state of every run in which the buffers of other processes and the pinned ones leave one over, the
      commit under way can be completed by the committer and the processes whose buffers it needs: it deadlocks with
      nobody, and it does not run out of buffers. */
  lemma CommitCompletes(l: Layout, run: seq<State>, events: seq<Event>, n: nat) returns (es: seq<Event>, t: State)
    requires Run(l, run, events) && n < |run| && !run[n].phase.Resting?
    requires Shape(run[n]) && |Others(run[n])| + |Pending(run[n])| < NBUF
    ensures Leads(l, run[n], es, t) && t.phase.Resting?
  {
    hide Inv, Do, Enabled, HoldsGot;
    RunHoldsGot(l, run, events, n);
    es, t := Completed(l, run[n]);
  }
}
