/** Commit among other processes (log.c, bio.c), as a state machine.

    Only the running operations keep a commit from starting: other processes read files without begin_op, so they
    reference, lock, fill and release buffers between any two steps of a commit.  A step is one critical section of
    bcache.lock or log.lock, one change of a buffer's sleep lock, or one access of the disk.  A process that commits
    acts as COMMITTER until it is done.  Any recyclable buffer may be recycled, not only the least recently used. */
module LogRuns {
  import opened Common
  import opened DiskLog
  import opened BufferRing
  import opened BufferCache
  import opened Log

  const COMMITTER: nat := 0   // no process of the file system has this pid

  /** Where commit() is: write_log at block `tail`, write_head, install_trans at block `tail`, the second write_head. */
  datatype Phase = Resting | Copying(tail: nat) | Heading | Installing(tail: nat) | Clearing

  /** The commit under way: the disk when it started, the blocks logged, what they held, and the images written since. */
  datatype Txn = Txn(base: Image, blocks: seq<int>, seen: seq<Block>, images: seq<Image>)

  datatype State = State(
    disk: Image,
    bufs: seq<Buf>,
    users: seq<nat>,        // references by processes that wait for the buffer's lock or have just released it
    lh: seq<int>,           // log.lh.block[0..log.lh.n]
    ops: set<nat>,          // the processes between begin_op and end_op
    phase: Phase,           // log.committing is phase != Resting
    asked: Option<nat>,     // the buffer whose lock the committer waits for
    got: seq<nat>,          // the buffers it has locked
    written: bool,          // the disk write of this phase is done
    txn: Txn)

  datatype Event =
    | Ref(b: nat, blockno: nat)                // bget finds or recycles buffer b for the block
    | Take(b: nat, pid: nat)                   // acquiresleep on its lock returns
    | Fill(b: nat, pid: nat)                   // bread's iderw; also by the committer
    | Change(b: nat, pid: nat, data: Block)    // an operation changes the data
    | LogWrite(b: nat, pid: nat)               // log_write
    | Unlock(b: nat, pid: nat)                 // brelse's releasesleep
    | Drop(b: nat)                             // brelse's refcnt--
    | Begin(pid: nat)                          // begin_op is admitted
    | End(pid: nat)                            // end_op
    | CommitRef(b: nat)
    | CommitTake
    | CommitWrite                              // memmove and bwrite
    | CommitUnlock(k: nat)
    | CommitNext                               // the next iteration or the next function of commit()

  // ---- Steps ----

  predicate Shape(s: State) {
    |s.bufs| == NBUF + 1 && |s.users| == NBUF && forall i :: 0 <= i < |s.lh| ==> 0 <= s.lh[i] < |s.disk|
  }

  /** The buffer that bget returns for a block: its own one, or a recyclable one if it has none. */
  ghost predicate Gets(s: State, b: nat, blockno: nat)
    requires |s.bufs| == NBUF + 1
  {
    && b < NBUF && blockno < |s.disk|
    && (Caches(s.bufs[b], ROOTDEV, blockno) || (Slot(s.bufs, ROOTDEV, blockno) < 0 && Recyclable(s.bufs[b])))
  }

  function Referenced(b: Buf, blockno: nat): (r: Buf) {
    if Caches(b, ROOTDEV, blockno) then b.(refcnt := b.refcnt + 1) else Recycled(b, ROOTDEV, blockno)
  }

  /** The blocks that commit() breads in its present phase, in this order. */
  function Needs(l: Layout, s: State): (r: seq<nat>)
    requires Shape(s)
  {
    match s.phase
    case Resting => []
    case Copying(t) => if t < |s.lh| then [l.start + t + 1, s.lh[t]] else []
    case Heading => [l.start]
    case Installing(t) => if t < |s.lh| then [l.start + t + 1, s.lh[t]] else []
    case Clearing => [l.start]
  }

  ghost predicate Enabled(l: Layout, s: State, e: Event)
    requires Shape(s)
  {
    match e
    case Ref(b, blockno) => Gets(s, b, blockno)
    case Take(b, pid) => b < NBUF && pid != COMMITTER && s.users[b] > 0 && s.bufs[b].holder.None?
    case Fill(b, pid) => b < NBUF && s.bufs[b].holder == Some(pid) && !s.bufs[b].valid && s.bufs[b].blockno < |s.disk|
    case Change(b, pid, _) => b < NBUF && s.bufs[b].holder == Some(pid) && s.bufs[b].valid && pid in s.ops
    case LogWrite(b, pid) =>
      && b < NBUF && s.bufs[b].holder == Some(pid) && s.bufs[b].valid && pid in s.ops && !InLog(l, s.bufs[b].blockno)
      && |s.lh| < LOGSIZE && |s.lh| < l.size - 1   // otherwise it panics
    case Unlock(b, pid) =>                         // an operation has logged what it changed
      && b < NBUF && pid != COMMITTER && s.bufs[b].holder == Some(pid) && s.bufs[b].valid
      && (!s.bufs[b].dirty && pid in s.ops ==> s.bufs[b].blockno < |s.disk| && s.bufs[b].data == s.disk[s.bufs[b].blockno])
    case Drop(b) => b < NBUF && s.users[b] > 0 && s.bufs[b].refcnt > 0
    case Begin(pid) =>
      pid != COMMITTER && pid !in s.ops && s.phase.Resting? && |s.lh| + (|s.ops| + 1) * MAXOPBLOCKS <= LOGSIZE
    case End(pid) => pid in s.ops && forall b :: 0 <= b < NBUF ==> s.bufs[b].holder != Some(pid)
    case CommitRef(b) =>
      && s.asked.None? && !s.written && |s.got| < |Needs(l, s)| && Gets(s, b, Needs(l, s)[|s.got|])
      && forall k :: 0 <= k < |s.got| ==> s.got[k] < NBUF && s.bufs[s.got[k]].valid
    case CommitTake => s.asked.Some? && s.asked.value < NBUF && s.bufs[s.asked.value].holder.None?
    case CommitWrite =>
      && !s.phase.Resting? && !s.written && |s.got| == |Needs(l, s)| > 0 && (s.phase.Heading? ==> |s.lh| <= LOGSIZE)
      && forall k :: 0 <= k < |s.got| ==> s.got[k] < NBUF && s.bufs[s.got[k]].valid && s.bufs[s.got[k]].blockno < |s.disk|
    case CommitUnlock(k) => s.written && k < |s.got| && s.got[k] < NBUF
    case CommitNext => s.written && s.got == [] && !s.phase.Resting?
  }

  /** Which locked buffer commit() overwrites, and with what. */
  function Target(s: State): (b: nat)
    requires s.got != [] && (s.phase.Installing? ==> |s.got| == 2)
  {
    if s.phase.Installing? then s.got[1] else s.got[0]
  }

  function Payload(s: State): (data: Block)
    requires s.got != [] && (s.phase.Installing? || s.phase.Copying? ==> |s.got| == 2) && (s.phase.Heading? ==> |s.lh| <= LOGSIZE)
    requires forall k :: 0 <= k < |s.got| ==> s.got[k] < |s.bufs|
  {
    match s.phase
    case Copying(_) => s.bufs[s.got[1]].data
    case Installing(_) => s.bufs[s.got[0]].data
    case Heading => PutHead(s.bufs[s.got[0]].data, s.lh)
    case _ => PutHead(s.bufs[s.got[0]].data, [])
  }

  function WrittenThrough(s: State, b: nat, data: Block): (t: State)
    requires b < |s.bufs| && s.bufs[b].blockno < |s.disk|
  {
    var disk := s.disk[s.bufs[b].blockno := data];
    s.(disk := disk, bufs := s.bufs[b := s.bufs[b].(data := data, valid := true, dirty := false)],
       written := true, txn := s.txn.(images := s.txn.images + [disk]))
  }

  ghost function Ended(s: State, pid: nat): (t: State)
    requires Shape(s)
  {
    var t := s.(ops := s.ops - {pid});
    if t.ops != {} || s.lh == [] then t
    else t.(phase := Copying(0), asked := None, got := [], written := false,
            txn := Txn(s.disk, s.lh, Contents(s.disk, s.bufs, s.lh), []))
  }

  function Advanced(s: State): (t: State) {
    var t := s.(written := false);
    match s.phase
    case Copying(i) => t.(phase := if i + 1 < |s.lh| then Copying(i + 1) else Heading)
    case Heading => t.(phase := Installing(0))
    case Installing(i) => if i + 1 < |s.lh| then t.(phase := Installing(i + 1)) else t.(phase := Clearing, lh := [])
    case _ => t.(phase := Resting)
  }

  ghost function Do(l: Layout, s: State, e: Event): (t: State)
    requires Shape(s) && Enabled(l, s, e)
  {
    match e
    case Ref(b, blockno) => s.(bufs := s.bufs[b := Referenced(s.bufs[b], blockno)], users := s.users[b := s.users[b] + 1])
    case Take(b, pid) => s.(bufs := s.bufs[b := s.bufs[b].(holder := Some(pid))], users := s.users[b := s.users[b] - 1])
    case Fill(b, pid) => s.(bufs := s.bufs[b := s.bufs[b].(valid := true, data := s.disk[s.bufs[b].blockno])])
    case Change(b, pid, data) => s.(bufs := s.bufs[b := s.bufs[b].(data := data)])
    case LogWrite(b, pid) =>
      var blockno := s.bufs[b].blockno;
      s.(bufs := s.bufs[b := s.bufs[b].(dirty := true)], lh := if blockno in s.lh then s.lh else s.lh + [blockno])
    case Unlock(b, pid) => s.(bufs := s.bufs[b := s.bufs[b].(holder := None)], users := s.users[b := s.users[b] + 1])
    case Drop(b) => s.(bufs := s.bufs[b := s.bufs[b].(refcnt := s.bufs[b].refcnt - 1)], users := s.users[b := s.users[b] - 1])
    case Begin(pid) => s.(ops := s.ops + {pid})
    case End(pid) => Ended(s, pid)
    case CommitRef(b) => s.(bufs := s.bufs[b := Referenced(s.bufs[b], Needs(l, s)[|s.got|])], asked := Some(b))
    case CommitTake =>
      var b := s.asked.value;
      s.(bufs := s.bufs[b := s.bufs[b].(holder := Some(COMMITTER))], asked := None, got := s.got + [b])
    case CommitWrite => WrittenThrough(s, Target(s), Payload(s))
    case CommitUnlock(k) =>
      var b := s.got[k];
      s.(bufs := s.bufs[b := s.bufs[b].(holder := None)], users := s.users[b := s.users[b] + 1], got := s.got[..k] + s.got[k + 1..])
    case CommitNext => Advanced(s)
  }

  // ---- The invariant ----

  /** refcnt counts the users, the holder and a waiting committer of a block on the disk. */
  ghost predicate RefsOk(s: State)
    requires Shape(s)
  {
    forall i :: 0 <= i < NBUF ==>
      && s.bufs[i].refcnt == s.users[i] + (if s.bufs[i].holder.Some? then 1 else 0) + (if s.asked == Some(i) then 1 else 0)
      && (s.bufs[i].refcnt > 0 ==> s.bufs[i].dev == ROOTDEV && s.bufs[i].blockno < |s.disk|)
  }

  /** Nobody but a running operation can have changed the buffer. */
  ghost predicate Untouched(b: Buf, ops: set<nat>) {
    b.valid && !b.dirty && (b.holder.Some? ==> b.holder.value !in ops)
  }

  ghost predicate CleanOk(s: State)
    requires Shape(s)
  {
    forall i :: 0 <= i < NBUF && Untouched(s.bufs[i], s.ops) ==> s.bufs[i].blockno < |s.disk| && s.bufs[i].data == s.disk[s.bufs[i].blockno]
  }

  /** The blocks logged and not yet written home. */
  ghost function Pending(s: State): (r: set<int>) {
    match s.phase
    case Installing(t) => if t < |s.lh| then Elems(s.lh[if s.written then t + 1 else t..]) else {}
    case Clearing => {}
    case _ => Elems(s.lh)
  }

  /** How many disk writes of the commit are done. */
  ghost function Writes(s: State): (k: nat) {
    var n, w := |s.txn.blocks|, if s.written then 1 else 0;
    match s.phase
    case Resting => 0
    case Copying(t) => t + w
    case Heading => n + w
    case Installing(t) => n + 1 + t + w
    case Clearing => 2 * n + 1 + w
  }

  ghost predicate PhaseOk(s: State) {
    match s.phase
    case Resting => s.asked.None? && s.got == [] && !s.written
    case Copying(t) => t < |s.lh| && s.lh == s.txn.blocks
    case Heading => s.lh == s.txn.blocks
    case Installing(t) => t < |s.lh| && s.lh == s.txn.blocks
    case Clearing => s.lh == []
  }

  ghost predicate TxnOk(l: Layout, txn: Txn) {
    && HeadOk(l, txn.base) && DiskLog.Head(l, txn.base) == [] && Loggable(l, txn.base, txn.blocks)
    && |txn.seen| == |txn.blocks| > 0
  }

  /** At rest the log on disk is empty; during a commit the disk is one of the images of DiskLog. */
  ghost predicate LogOk(l: Layout, s: State) {
    && PhaseOk(s)
    && (s.phase.Resting? ==> HeadOk(l, s.disk) && DiskLog.Head(l, s.disk) == [] && Loggable(l, s.disk, s.lh) && (s.ops == {} ==> s.lh == []))
    && (!s.phase.Resting? ==>
        && s.ops == {} && TxnOk(l, s.txn) && Writes(s) <= 2 * |s.txn.blocks| + 2
        && s.disk == CommitAfter(l, s.txn.base, s.txn.blocks, s.txn.seen, Writes(s))
        && |s.txn.images| == Writes(s)
        && forall k :: 0 <= k < Writes(s) ==> s.txn.images[k] == CommitAfter(l, s.txn.base, s.txn.blocks, s.txn.seen, k + 1))
  }

  /** A logged block keeps the contents it had when the commit started. */
  ghost predicate SeenOk(s: State)
    requires Shape(s)
  {
    !s.phase.Resting? ==>
      && |s.txn.seen| == |s.txn.blocks|
      && forall i, j :: 0 <= i < NBUF && 0 <= j < |s.txn.blocks| && s.bufs[i].dirty && s.bufs[i].blockno == s.txn.blocks[j] ==>
           s.bufs[i].data == s.txn.seen[j]
  }

  /** The committer's buffers are those that its phase needs. */
  ghost predicate GotOk(l: Layout, s: State)
    requires Shape(s)
  {
    && (forall k :: 0 <= k < |s.got| ==> s.got[k] < NBUF && s.bufs[s.got[k]].holder == Some(COMMITTER))
    && (forall j, k :: 0 <= j < k < |s.got| ==> s.got[j] != s.got[k])
    && (!s.written ==> |s.got| <= |Needs(l, s)| && forall k :: 0 <= k < |s.got| ==> Caches(s.bufs[s.got[k]], ROOTDEV, Needs(l, s)[k]))
    && (s.asked.Some? ==> !s.written && |s.got| < |Needs(l, s)| && s.asked.value < NBUF
                          && Caches(s.bufs[s.asked.value], ROOTDEV, Needs(l, s)[|s.got|]))
    && (s.written ==> forall k :: 0 <= k < |s.got| ==> s.bufs[s.got[k]].valid)
  }

  /** The part of the invariant that does not speak of references and locks. */
  ghost predicate DataOk(l: Layout, s: State)
    requires Shape(s)
  {
    CacheOk(s.disk, s.bufs) && COMMITTER !in s.ops && CleanOk(s) && DirtyBlocks(s.bufs) == Pending(s) && LogOk(l, s) && SeenOk(s)
  }

  ghost predicate Inv(l: Layout, s: State) {
    Shape(s) && DataOk(l, s) && RefsOk(s) && GotOk(l, s)
  }

  /** initlog has recovered the disk and nobody uses a buffer yet. */
  ghost predicate Initial(l: Layout, s: State) {
    && Shape(s) && CacheOk(s.disk, s.bufs) && HeadOk(l, s.disk) && DiskLog.Head(l, s.disk) == []
    && (forall i :: 0 <= i < NBUF ==> s.bufs[i].refcnt == s.users[i] == 0 && !s.bufs[i].dirty)
    && s.lh == [] && s.ops == {} && s.phase.Resting? && s.asked.None? && s.got == [] && !s.written
  }

  ghost predicate Run(l: Layout, run: seq<State>, events: seq<Event>) {
    && |run| == |events| + 1 && Initial(l, run[0])
    && forall i :: 0 <= i < |events| ==> Shape(run[i]) && Enabled(l, run[i], events[i]) && run[i + 1] == Do(l, run[i], events[i])
  }

  // ---- Steps that change one buffer ----

  /** Buffer i is replaced by b; the committer's position and the lists of users may change. */
  ghost predicate OneBuffer(s: State, t: State, i: nat, b: Buf)
    requires Shape(s)
  {
    && i < NBUF && Shape(t) && t.bufs == s.bufs[i := b]
    && t == s.(bufs := t.bufs, users := t.users, asked := t.asked, got := t.got)
  }

  /** b' is for the same block as b and, if b is valid, has the same contents. */
  ghost predicate SameContents(b: Buf, b': Buf, disk: Image) {
    && b'.dev == b.dev && b'.blockno == b.blockno && b'.dirty == b.dirty && b.blockno < |disk|
    && (if b.valid then b'.valid && b'.data == b.data else b'.valid ==> b'.data == disk[b.blockno])
  }

  lemma LogOkSame(l: Layout, s: State, t: State)
    requires LogOk(l, s) && t == s.(bufs := t.bufs, users := t.users, asked := t.asked, got := t.got) && PhaseOk(t)
    ensures LogOk(l, t) && Pending(t) == Pending(s) && Writes(t) == Writes(s)
  {
  }

  lemma SameContentsKeeps(l: Layout, s: State, t: State, i: nat, b: Buf)
    requires Shape(s) && DataOk(l, s) && OneBuffer(s, t, i, b) && SameContents(s.bufs[i], b, s.disk) && BufOk(b, s.disk) && PhaseOk(t)
    requires Untouched(b, s.ops) ==> b.data == s.disk[b.blockno]
    ensures DataOk(l, t)
  {
    hide LogOk, Pending;
    UpdateKeepsViews(s.disk, s.bufs, i, b);
    DirtyAfterUpdate(s.disk, s.bufs, i, b);
    hide CacheOk;
    LogOkSame(l, s, t);
    assert SeenOk(t);
  }

  lemma DirtyAfterUpdate(disk: Image, bufs: seq<Buf>, i: nat, b: Buf)
    requires CacheOk(disk, bufs) && i < NBUF && b.dirty == bufs[i].dirty && (b.dirty ==> b.dev == bufs[i].dev && b.blockno == bufs[i].blockno)
    ensures DirtyBlocks(bufs[i := b]) == DirtyBlocks(bufs)
  {
    DirtyAfter(disk, bufs, i, b);
  }

  lemma RecycledKeeps(l: Layout, s: State, t: State, i: nat, blockno: nat)
    requires Shape(s) && DataOk(l, s) && i < NBUF && Recyclable(s.bufs[i]) && Slot(s.bufs, ROOTDEV, blockno) < 0
    requires OneBuffer(s, t, i, Recycled(s.bufs[i], ROOTDEV, blockno)) && PhaseOk(t)
    ensures DataOk(l, t)
  {
    hide LogOk, Pending;
    var b := Recycled(s.bufs[i], ROOTDEV, blockno);
    RecycleKeepsViews(s.disk, s.bufs, i, ROOTDEV, blockno);
    DirtyAfterUpdate(s.disk, s.bufs, i, b);
    hide CacheOk;
    LogOkSame(l, s, t);
    assert SeenOk(t);
  }

  lemma PhaseIs(l: Layout, s: State)
    requires Shape(s) && DataOk(l, s)
    ensures PhaseOk(s)
  {
  }

  lemma BufIs(l: Layout, s: State, i: nat)
    requires Shape(s) && DataOk(l, s) && i < NBUF
    ensures BufOk(s.bufs[i], s.disk)
    ensures Untouched(s.bufs[i], s.ops) ==> s.bufs[i].blockno < |s.disk| && s.bufs[i].data == s.disk[s.bufs[i].blockno]
  {
  }

  /** Whoever changes buffer i leaves the committer's buffers alone. */
  lemma GotKept(l: Layout, s: State, t: State, i: nat, b: Buf)
    requires Shape(s) && GotOk(l, s) && RefsOk(s) && OneBuffer(s, t, i, b) && t.got == s.got && t.asked == s.asked
    requires s.bufs[i].refcnt > 0 ==>
      && b.dev == s.bufs[i].dev && b.blockno == s.bufs[i].blockno && (s.bufs[i].valid ==> b.valid)
      && (s.bufs[i].holder == Some(COMMITTER) ==> b.holder == Some(COMMITTER))
    ensures GotOk(l, t)
  {
    assert Needs(l, t) == Needs(l, s);
    forall k | 0 <= k < |s.got| ensures s.bufs[s.got[k]].refcnt > 0 {
      assert s.bufs[s.got[k]].holder == Some(COMMITTER);
    }
  }

  lemma RefKeeps(l: Layout, s: State, b: nat, blockno: nat)
    requires Inv(l, s) && Enabled(l, s, Ref(b, blockno))
    ensures Inv(l, Do(l, s, Ref(b, blockno)))
  {
    hide DataOk, GotOk;
    var t := Do(l, s, Ref(b, blockno));
    PhaseIs(l, s);
    ReferencedKeeps(l, s, t, b, blockno);
    GotKept(l, s, t, b, t.bufs[b]);
  }

  /** bget changes no contents, and no buffer that somebody uses. */
  lemma ReferencedKeeps(l: Layout, s: State, t: State, b: nat, blockno: nat)
    requires Shape(s) && DataOk(l, s) && Gets(s, b, blockno) && OneBuffer(s, t, b, Referenced(s.bufs[b], blockno)) && PhaseOk(t)
    ensures DataOk(l, t)
  {
    hide DataOk;
    if Caches(s.bufs[b], ROOTDEV, blockno) {
      BufIs(l, s, b);
      SameContentsKeeps(l, s, t, b, t.bufs[b]);
    } else {
      RecycledKeeps(l, s, t, b, blockno);
    }
  }

  lemma TakeKeeps(l: Layout, s: State, b: nat, pid: nat)
    requires Inv(l, s) && Enabled(l, s, Take(b, pid))
    ensures Inv(l, Do(l, s, Take(b, pid)))
  {
    hide DataOk, GotOk;
    var t := Do(l, s, Take(b, pid));
    BufIs(l, s, b);
    PhaseIs(l, s);
    LocksKeep(l, s, t, b);
    GotKept(l, s, t, b, t.bufs[b]);
  }

  /** Locks and references are not contents. */
  lemma LocksKeep(l: Layout, s: State, t: State, b: nat)
    requires Shape(s) && DataOk(l, s) && b < NBUF && Shape(t) && PhaseOk(t)
    requires OneBuffer(s, t, b, s.bufs[b].(holder := t.bufs[b].holder, refcnt := t.bufs[b].refcnt))
    requires s.bufs[b].refcnt > 0 && (t.bufs[b].holder.Some? ==> t.bufs[b].refcnt > 0)
    requires Untouched(t.bufs[b], s.ops) ==> s.bufs[b].blockno < |s.disk| && s.bufs[b].data == s.disk[s.bufs[b].blockno]
    ensures DataOk(l, t)
  {
    hide LogOk, Pending;
    UpdateLocks(s.disk, s.bufs, b, t.bufs[b]);
    DirtyAfterUpdate(s.disk, s.bufs, b, t.bufs[b]);
    hide CacheOk;
    LogOkSame(l, s, t);
    assert SeenOk(t);
  }

  lemma UpdateLocks(disk: Image, bufs: seq<Buf>, i: nat, b: Buf)
    requires CacheOk(disk, bufs) && i < NBUF && b == bufs[i].(holder := b.holder, refcnt := b.refcnt)
    requires bufs[i].refcnt > 0 && (b.holder.Some? ==> b.refcnt > 0)
    requires b.valid && !b.dirty && b.holder.None? ==> b.blockno < |disk| && b.data == disk[b.blockno]
    ensures CacheOk(disk, bufs[i := b])
  {
    UpdateKeepsViews(disk, bufs, i, b);
  }

  lemma FillKeeps(l: Layout, s: State, b: nat, pid: nat)
    requires Inv(l, s) && Enabled(l, s, Fill(b, pid))
    ensures Inv(l, Do(l, s, Fill(b, pid)))
  {
    hide DataOk, GotOk;
    var t := Do(l, s, Fill(b, pid));
    BufIs(l, s, b);
    PhaseIs(l, s);
    SameContentsKeeps(l, s, t, b, t.bufs[b]);
    GotKept(l, s, t, b, t.bufs[b]);
  }

  lemma ChangeKeeps(l: Layout, s: State, b: nat, pid: nat, data: Block)
    requires Inv(l, s) && Enabled(l, s, Change(b, pid, data))
    ensures Inv(l, Do(l, s, Change(b, pid, data)))
  {
    var t := Do(l, s, Change(b, pid, data));
    GotKept(l, s, t, b, t.bufs[b]);
    hide LogOk, Pending, GotOk;
    ModifyView(s.disk, s.bufs, b, data);
    DirtyAfterUpdate(s.disk, s.bufs, b, t.bufs[b]);
    hide CacheOk;
    OnlyAtRest(l, s);
    LogOkSame(l, s, t);
  }

  /** While operations run there is no commit. */
  lemma OnlyAtRest(l: Layout, s: State)
    requires LogOk(l, s) && s.ops != {}
    ensures s.phase.Resting? && PhaseOk(s) && Pending(s) == Elems(s.lh)
    ensures HeadOk(l, s.disk) && DiskLog.Head(l, s.disk) == [] && Loggable(l, s.disk, s.lh)
  {
  }

  lemma LogWriteKeeps(l: Layout, s: State, b: nat, pid: nat)
    requires Inv(l, s) && Enabled(l, s, LogWrite(b, pid))
    ensures Inv(l, Do(l, s, LogWrite(b, pid)))
  {
    hide LogOk, Pending, GotOk, DirtyBlocks, CacheOk, Loggable, HeadOk, Elems, CleanOk, RefsOk, SeenOk;
    var t := Do(l, s, LogWrite(b, pid));
    OnlyAtRest(l, s);
    MarkKeeps(s.disk, s.bufs, b);
    Appended(l, s.disk, s.lh, s.bufs[b].blockno);
    assert Shape(t) by { LoggableShape(l, s.disk, t.lh); }
    MarkedRest(s, t, b);
    AtRest(l, t);
    GotAtRest(l, t);
  }

  lemma LoggableShape(l: Layout, disk: Image, lh: seq<int>)
    requires Loggable(l, disk, lh)
    ensures forall i :: 0 <= i < |lh| ==> 0 <= lh[i] < |disk|
  {
  }

  lemma MarkedRest(s: State, t: State, b: nat)
    requires Shape(s) && Shape(t) && CleanOk(s) && RefsOk(s) && s.phase.Resting? && b < NBUF
    requires t == s.(bufs := s.bufs[b := s.bufs[b].(dirty := true)], lh := t.lh)
    ensures CleanOk(t) && RefsOk(t) && SeenOk(t)
  {
  }

  lemma MarkKeeps(disk: Image, bufs: seq<Buf>, b: nat)
    requires CacheOk(disk, bufs) && b < NBUF && bufs[b].holder.Some? && bufs[b].valid
    ensures var bufs' := bufs[b := bufs[b].(dirty := true)];
      CacheOk(disk, bufs') && DirtyBlocks(bufs') == DirtyBlocks(bufs) + {bufs[b].blockno} && bufs[b].blockno < |disk|
  {
    var b' := bufs[b].(dirty := true);
    assert BufOk(bufs[b], disk);
    UpdateKeepsViews(disk, bufs, b, b');
    DirtyAfter(disk, bufs, b, b');
    hide CacheOk;
    if bufs[b].dirty { assert bufs[b].blockno in DirtyBlocks(bufs); }
  }

  lemma Appended(l: Layout, disk: Image, lh: seq<int>, blockno: nat)
    requires Loggable(l, disk, lh) && !InLog(l, blockno) && blockno < |disk| && |lh| < LOGSIZE && |lh| < l.size - 1
    ensures var lh' := if blockno in lh then lh else lh + [blockno];
      Loggable(l, disk, lh') && Elems(lh') == Elems(lh) + {blockno} && lh' != []
  {
  }

  lemma AtRest(l: Layout, s: State)
    requires s.phase.Resting? && PhaseOk(s) && HeadOk(l, s.disk) && DiskLog.Head(l, s.disk) == [] && Loggable(l, s.disk, s.lh)
    requires s.ops == {} ==> s.lh == []
    ensures LogOk(l, s) && Pending(s) == Elems(s.lh)
  {
  }

  lemma GotAtRest(l: Layout, t: State)
    requires Shape(t) && t.phase.Resting? && PhaseOk(t)
    ensures GotOk(l, t)
  {
  }

  lemma UnlockKeeps(l: Layout, s: State, b: nat, pid: nat)
    requires Inv(l, s) && Enabled(l, s, Unlock(b, pid))
    ensures Inv(l, Do(l, s, Unlock(b, pid)))
  {
    hide DataOk, GotOk;
    var t := Do(l, s, Unlock(b, pid));
    BufIs(l, s, b);
    PhaseIs(l, s);
    LocksKeep(l, s, t, b);
    GotKept(l, s, t, b, t.bufs[b]);
  }

  lemma DropKeeps(l: Layout, s: State, b: nat)
    requires Inv(l, s) && Enabled(l, s, Drop(b))
    ensures Inv(l, Do(l, s, Drop(b)))
  {
    hide DataOk, GotOk;
    var t := Do(l, s, Drop(b));
    BufIs(l, s, b);
    PhaseIs(l, s);
    LocksKeep(l, s, t, b);
    GotKept(l, s, t, b, t.bufs[b]);
  }

  lemma BeginKeeps(l: Layout, s: State, pid: nat)
    requires Inv(l, s) && Enabled(l, s, Begin(pid))
    ensures Inv(l, Do(l, s, Begin(pid)))
  {
    var t := Do(l, s, Begin(pid));
    hide CacheOk, DirtyBlocks;
    AtRest(l, t);
    assert CleanOk(t);
  }

  lemma EndKeeps(l: Layout, s: State, pid: nat)
    requires Inv(l, s) && Enabled(l, s, End(pid))
    ensures Inv(l, Do(l, s, End(pid)))
  {
    var t := Do(l, s, End(pid));
    OnlyAtRest(l, s);
    hide LogOk, GotOk;
    assert CleanOk(t) by {
      forall i | 0 <= i < NBUF && Untouched(t.bufs[i], t.ops) ensures t.bufs[i].blockno < |t.disk| && t.bufs[i].data == t.disk[t.bufs[i].blockno] {
        assert Untouched(s.bufs[i], s.ops);
      }
    }
    hide CacheOk, DirtyBlocks;
    if t.phase.Resting? {
      AtRest(l, t);
      GotAtRest(l, t);
    } else {
      CommitStarts(l, s, t);
    }
  }

  lemma CommitStarts(l: Layout, s: State, t: State)
    requires Shape(s) && CacheOk(s.disk, s.bufs) && HeadOk(l, s.disk) && DiskLog.Head(l, s.disk) == [] && Loggable(l, s.disk, s.lh) && s.lh != []
    requires t == s.(ops := {}, phase := Copying(0), asked := None, got := [], written := false,
                     txn := Txn(s.disk, s.lh, Contents(s.disk, s.bufs, s.lh), []))
    ensures LogOk(l, t) && SeenOk(t) && GotOk(l, t) && Pending(t) == Elems(s.lh)
  {
    forall i, j | 0 <= i < NBUF && 0 <= j < |s.lh| && s.bufs[i].dirty && s.bufs[i].blockno == s.lh[j]
      ensures s.bufs[i].data == t.txn.seen[j]
    {
      ViewOf(s.disk, s.bufs, i);
    }
  }

  // ---- Steps of the committer ----

  lemma CommitRefKeeps(l: Layout, s: State, b: nat)
    requires Inv(l, s) && Enabled(l, s, CommitRef(b))
    ensures Inv(l, Do(l, s, CommitRef(b)))
  {
    hide DataOk, CacheOk;
    var t := Do(l, s, CommitRef(b));
    PhaseIs(l, s);
    ReferencedKeeps(l, s, t, b, Needs(l, s)[|s.got|]);
    assert Needs(l, t) == Needs(l, s);
    forall k | 0 <= k < |s.got| ensures s.bufs[s.got[k]].refcnt > 0 {
      assert s.bufs[s.got[k]].holder == Some(COMMITTER);
    }
  }

  lemma CommitTakeKeeps(l: Layout, s: State)
    requires Inv(l, s) && Enabled(l, s, CommitTake)
    ensures Inv(l, Do(l, s, CommitTake))
  {
    hide DataOk;
    var t, b := Do(l, s, CommitTake), s.asked.value;
    BufIs(l, s, b);
    PhaseIs(l, s);
    LocksKeep(l, s, t, b);
    assert Needs(l, t) == Needs(l, s);
  }

  lemma CommitUnlockKeeps(l: Layout, s: State, k: nat)
    requires Inv(l, s) && Enabled(l, s, CommitUnlock(k))
    ensures Inv(l, Do(l, s, CommitUnlock(k)))
  {
    hide DataOk;
    var t, b := Do(l, s, CommitUnlock(k)), s.got[k];
    assert s.bufs[b].holder == Some(COMMITTER);
    assert COMMITTER !in s.ops by { NotCommitter(l, s); }
    BufIs(l, s, b);
    PhaseIs(l, s);
    LocksKeep(l, s, t, b);
    forall j | 0 <= j < |t.got| ensures t.got[j] == s.got[if j < k then j else j + 1] {}
  }

  lemma NotCommitter(l: Layout, s: State)
    requires Shape(s) && DataOk(l, s)
    ensures COMMITTER !in s.ops
  {
  }

  /** The next image of a commit, from the last one. */
  lemma NextWrite(l: Layout, base: Image, blocks: seq<int>, seen: seq<Block>, k: nat)
    requires Loggable(l, base, blocks) && |seen| == |blocks| && k < 2 * |blocks| + 2
    ensures var n, img := |blocks|, CommitAfter(l, base, blocks, seen, k);
      && Loggable(l, img, blocks) && Loggable(l, img, [])
      && CommitAfter(l, base, blocks, seen, k + 1) ==
        if k < n then img[l.start + k + 1 := seen[k]]
        else if k == n then WithHead(l, img, blocks)
        else if k < 2 * n + 1 then img[blocks[k - n - 1] := img[l.start + k - n]]
        else WithHead(l, img, [])
  {
    hide PutHead;
  }

  /** What commit() is about to write, and where. */
  lemma WriteIs(l: Layout, s: State)
    requires Inv(l, s) && Enabled(l, s, CommitWrite)
    ensures Target(s) < NBUF && s.bufs[Target(s)].holder == Some(COMMITTER) && s.bufs[Target(s)].valid
    ensures s.bufs[Target(s)].dev == ROOTDEV && s.bufs[Target(s)].blockno < |s.disk|
    ensures !s.phase.Installing? ==> InLog(l, s.bufs[Target(s)].blockno)
    ensures var x := s.bufs[Target(s)].blockno;
      match s.phase
      case Copying(i) => x == l.start + i + 1 && Payload(s) == s.txn.seen[i]
      case Heading => x == l.start && Payload(s) == PutHead(s.disk[l.start], s.lh)
      case Installing(i) => x == s.lh[i] && l.start + i + 1 < |s.disk| && Payload(s) == s.disk[l.start + i + 1]
      case Clearing => x == l.start && Payload(s) == PutHead(s.disk[l.start], [])
      case Resting => true
  {
    hide CommitAfter, PutHead, HeadOk, CacheOk, DirtyBlocks;
    match s.phase {
      case Copying(i) =>
        LogBlock(l, s.txn.base, s.lh, i);
        PinnedBuffer(l, s, s.got[1]);
      case Heading => CleanBuffer(l, s, s.got[0]);
      case Installing(i) => CleanBuffer(l, s, s.got[0]);
      case Clearing => CleanBuffer(l, s, s.got[0]);
      case Resting =>
    }
  }

  /** A buffer of a pending block is dirty. */
  lemma PinnedBuffer(l: Layout, s: State, b: nat)
    requires Shape(s) && DataOk(l, s) && b < NBUF && s.bufs[b].dev == ROOTDEV && s.bufs[b].blockno in Pending(s)
    ensures s.bufs[b].dirty && s.bufs[b].valid
  {
    hide LogOk, Pending, SeenOk, CleanOk;
    DirtyIsCached(s.disk, s.bufs, s.bufs[b].blockno);
    SlotUnique(s.disk, s.bufs, b);
  }

  /** A buffer that the committer holds for a block of the log agrees with the disk. */
  lemma CleanBuffer(l: Layout, s: State, b: nat)
    requires Shape(s) && DataOk(l, s) && b < NBUF && !s.phase.Resting? && InLog(l, s.bufs[b].blockno)
    requires s.bufs[b].valid && s.bufs[b].holder == Some(COMMITTER)
    ensures s.bufs[b].blockno < |s.disk| && s.bufs[b].data == s.disk[s.bufs[b].blockno] && !s.bufs[b].dirty
  {
    hide CacheOk, CommitAfter;
    if s.bufs[b].dirty {
      assert s.bufs[b].blockno in DirtyBlocks(s.bufs);
      NotPending(l, s, s.bufs[b].blockno);
    }
    assert Untouched(s.bufs[b], s.ops);
  }

  lemma NotPending(l: Layout, s: State, x: int)
    requires LogOk(l, s) && !s.phase.Resting? && InLog(l, x)
    ensures x !in Pending(s)
  {
    assert Loggable(l, s.txn.base, s.txn.blocks);
    hide CommitAfter;
    assert forall y :: y in s.lh ==> !InLog(l, y);
    if s.phase.Installing? {
      assert forall y :: y in s.lh[if s.written then s.phase.tail + 1 else s.phase.tail..] ==> y in s.lh;
    }
  }

  lemma CommitWriteKeeps(l: Layout, s: State)
    requires Inv(l, s) && Enabled(l, s, CommitWrite)
    ensures Inv(l, Do(l, s, CommitWrite))
  {
    hide Payload, CacheOk, CleanOk, SeenOk, LogOk, RefsOk, GotOk, Pending, DirtyBlocks;
    var t, b := Do(l, s, CommitWrite), Target(s);
    WriteIs(l, s);
    WriteKeepsCache(l, s, b, Payload(s));
    WriteExtends(l, s, t);
    WriteKeepsRest(l, s, t);
    PendingWritten(l, s, t);
  }

  lemma WriteKeepsRest(l: Layout, s: State, t: State)
    requires Inv(l, s) && !s.phase.Resting? && !s.written && |s.got| == |Needs(l, s)| > 0
    requires Target(s) < NBUF && s.bufs[Target(s)].blockno < |s.disk|
    requires exists data :: t == WrittenThrough(s, Target(s), data)
    requires forall k :: 0 <= k < |s.got| ==> s.bufs[s.got[k]].valid
    ensures Shape(t) && RefsOk(t) && GotOk(l, t)
  {
    hide DataOk;
    var data :| t == WrittenThrough(s, Target(s), data);
  }

  lemma WriteKeepsCache(l: Layout, s: State, b: nat, data: Block)
    requires Shape(s) && DataOk(l, s) && b < NBUF && s.bufs[b].holder == Some(COMMITTER) && s.bufs[b].valid
    requires s.bufs[b].dev == ROOTDEV && s.bufs[b].blockno < |s.disk|
    ensures var t := WrittenThrough(s, b, data);
      && Shape(t) && CacheOk(t.disk, t.bufs) && CleanOk(t) && SeenOk(t)
      && DirtyBlocks(t.bufs) == DirtyBlocks(s.bufs) - {s.bufs[b].blockno}
  {
    hide LogOk, Pending, DirtyBlocks;
    var t := WrittenThrough(s, b, data);
    ModifyView(s.disk, s.bufs, b, data);
    var bufs' := s.bufs[b := s.bufs[b].(data := data)];
    WriteThroughKeepsViews(s.disk, bufs', b);
    assert t.bufs == bufs'[b := bufs'[b].(valid := true, dirty := false)];
    DirtyAfter(s.disk, s.bufs, b, t.bufs[b]);
    SlotUnique(s.disk, s.bufs, b);
    if s.bufs[b].blockno in DirtyBlocks(s.bufs) { DirtyIsCached(s.disk, s.bufs, s.bufs[b].blockno); }
    forall i | 0 <= i < NBUF && Untouched(t.bufs[i], t.ops) ensures t.bufs[i].blockno < |t.disk| && t.bufs[i].data == t.disk[t.bufs[i].blockno] {
      if i != b {
        assert Untouched(s.bufs[i], s.ops);
        assert Caches(s.bufs[i], ROOTDEV, s.bufs[b].blockno) ==> i == b;
      }
    }
  }

  lemma WriteExtends(l: Layout, s: State, t: State)
    requires Inv(l, s) && Enabled(l, s, CommitWrite) && t == Do(l, s, CommitWrite)
    ensures LogOk(l, t)
  {
    hide CommitAfter, PutHead, Payload, HeadOk, CacheOk, CleanOk, SeenOk, RefsOk, GotOk, DirtyBlocks;
    WriteIs(l, s);
    var k, txn := Writes(s), s.txn;
    PhaseWrites(s);
    NextWrite(l, txn.base, txn.blocks, txn.seen, k);
    assert t.disk == CommitAfter(l, txn.base, txn.blocks, txn.seen, k + 1);
    assert Writes(t) == k + 1;
    forall j | 0 <= j < k + 1 ensures t.txn.images[j] == CommitAfter(l, txn.base, txn.blocks, txn.seen, j + 1) {
    }
  }

  lemma PhaseWrites(s: State)
    requires PhaseOk(s) && !s.phase.Resting? && !s.written
    ensures var n, k := |s.txn.blocks|, Writes(s);
      && k < 2 * n + 2
      && (s.phase.Copying? <==> k < n) && (s.phase.Heading? <==> k == n) && (s.phase.Clearing? <==> k == 2 * n + 1)
      && (s.phase.Copying? ==> k == s.phase.tail) && (s.phase.Installing? ==> k == n + 1 + s.phase.tail)
  {
  }

  lemma PendingWritten(l: Layout, s: State, t: State)
    requires LogOk(l, s) && !s.phase.Resting? && !s.written && t == s.(disk := t.disk, bufs := t.bufs, written := true, txn := t.txn)
    ensures forall x :: InLog(l, x) && !s.phase.Installing? ==> Pending(t) == Pending(s) - {x}
    ensures s.phase.Installing? ==> Pending(t) == Pending(s) - {s.lh[s.phase.tail]}
  {
    hide CommitAfter;
    if s.phase.Installing? {
      assert Loggable(l, s.txn.base, s.lh);
      ElemsRest(s.lh, s.phase.tail);
    }
    forall x | InLog(l, x) && !s.phase.Installing? ensures Pending(t) == Pending(s) - {x} { NotPending(l, s, x); }
  }

  lemma CommitNextKeeps(l: Layout, s: State)
    requires Inv(l, s) && Enabled(l, s, CommitNext)
    ensures Inv(l, Do(l, s, CommitNext))
  {
    hide CacheOk, DirtyBlocks, LogOk, Pending;
    var t := Do(l, s, CommitNext);
    LogAdvances(l, s, t);
  }

  lemma LogAdvances(l: Layout, s: State, t: State)
    requires LogOk(l, s) && !s.phase.Resting? && s.written && s.got == [] && s.asked.None? && t == Advanced(s)
    ensures LogOk(l, t) && Pending(t) == Pending(s)
  {
    hide CommitAfter, HeadOk;
    if s.phase.Clearing? {
      CommitHeadOk(l, s.txn.base, s.txn.blocks, s.txn.seen, Writes(s));
      EmptyLoggable(l, s.txn.base, s.txn.blocks, s.disk);
    }
    assert s.lh[|s.lh|..] == [] && s.lh[0..] == s.lh;
  }

  lemma EmptyLoggable(l: Layout, base: Image, blocks: seq<int>, disk: Image)
    requires Loggable(l, base, blocks) && |disk| == |base|
    ensures Loggable(l, disk, [])
  {
  }

  lemma DoKeeps(l: Layout, s: State, e: Event)
    requires Inv(l, s) && Enabled(l, s, e)
    ensures Inv(l, Do(l, s, e))
  {
    hide Inv, Do, Enabled;
    InvShape(l, s);
    match e {
      case Ref(b, blockno) => RefKeeps(l, s, b, blockno);
      case Take(b, pid) => TakeKeeps(l, s, b, pid);
      case Fill(b, pid) => FillKeeps(l, s, b, pid);
      case Change(b, pid, data) => ChangeKeeps(l, s, b, pid, data);
      case LogWrite(b, pid) => LogWriteKeeps(l, s, b, pid);
      case Unlock(b, pid) => UnlockKeeps(l, s, b, pid);
      case Drop(b) => DropKeeps(l, s, b);
      case Begin(pid) => BeginKeeps(l, s, pid);
      case End(pid) => EndKeeps(l, s, pid);
      case CommitRef(b) => CommitRefKeeps(l, s, b);
      case CommitTake => CommitTakeKeeps(l, s);
      case CommitWrite => CommitWriteKeeps(l, s);
      case CommitUnlock(k) => CommitUnlockKeeps(l, s, k);
      case CommitNext => CommitNextKeeps(l, s);
    }
  }

  lemma InvShape(l: Layout, s: State)
    requires Inv(l, s)
    ensures Shape(s)
  {
  }

  lemma InitialInv(l: Layout, s: State)
    requires Initial(l, s)
    ensures Inv(l, s)
  {
    assert DirtyBlocks(s.bufs) == {};
    assert Elems(s.lh) == {} by { ElemsSize(s.lh); }
    forall i | 0 <= i < NBUF ensures BufOk(s.bufs[i], s.disk) {}
  }

  lemma {:induction false} RunKeeps(l: Layout, run: seq<State>, events: seq<Event>, n: nat)
    requires Run(l, run, events) && n < |run|
    ensures Inv(l, run[n])
    decreases n
  {
    hide Inv, Do, Enabled, Initial;
    if n == 0 {
      InitialInv(l, run[0]);
    } else {
      RunKeeps(l, run, events, n - 1);
      DoKeeps(l, run[n - 1], events[n - 1]);
    }
  }
}
