/** Crashes during filewrite (file.c:117-156, log.c): the file layer, which has blocks of bytes, on the log, which has
    blocks of words. */
module FileCrash {
  import opened Common
  import opened BlockBytes
  import opened FsState
  import opened DiskInodes
  import opened FsOps
  import opened FileWrite
  import DiskLog

  /** A block as the log sees it. */
  function AsWords(b: Block): (r: DiskLog.Block) {
    Words(b, 0, NINDIRECT)
  }

  lemma AsWordsInjective(a: Block, b: Block)
    requires AsWords(a) == AsWords(b)
    ensures a == b
  {
    hide Word;
    forall j | 0 <= j < NINDIRECT ensures Word(a, j) == Word(b, j) {
      assert AsWords(a)[j] == AsWords(b)[j];
    }
    WordsDetermine(a, b);
  }

  /** Outside the log the disk holds these blocks. */
  ghost predicate Shows(l: DiskLog.Layout, img: DiskLog.Image, blocks: seq<Block>) {
    |img| == |blocks| && forall b :: 0 <= b < |img| && !DiskLog.InLog(l, b) ==> img[b] == AsWords(blocks[b])
  }

  /** The log lies below the inodes, as mkfs puts it, and holds a transaction of one operation. */
  ghost predicate LogFits(l: DiskLog.Layout, sb: Super) {
    l.start + l.size <= sb.inodestart && MAXOPBLOCKS < l.size
  }

  /** lh lists the logged blocks, in some order. */
  ghost predicate Lists(lh: seq<int>, logged: set<nat>) {
    DiskLog.Distinct(lh) && forall b: int :: b in lh <==> 0 <= b && b in logged
  }

  lemma {:induction false} ListSize(lh: seq<int>, logged: set<nat>)
    requires Lists(lh, logged)
    ensures |lh| == |logged|
    decreases |lh|
  {
    if lh == [] {
      assert logged == {};
    } else {
      var b := lh[0];
      assert b in lh;
      assert forall x :: x in lh[1..] <==> x in lh && x != b;
      ListSize(lh[1..], logged - {b});
    }
  }

  /** Blocks that agree from the inodes on are the same file system. */
  lemma SameFileSystem(sb: Super, a: seq<Block>, b: seq<Block>, n: nat)
    requires Readable(sb, a, n) && FsOk(sb, Decoded(sb, a, n)) && |b| == |a|
    requires forall x :: sb.inodestart <= x < sb.size ==> b[x] == a[x]
    ensures Readable(sb, b, n) && FsOk(sb, Decoded(sb, b, n))
    ensures Decoded(sb, b, n).inodes == Decoded(sb, a, n).inodes
    ensures forall j :: 0 <= j < n ==> Content(sb, Decoded(sb, b, n), j) == Content(sb, Decoded(sb, a, n), j)
  {
    hide InodeAt, Content;
    forall i | 0 <= i < n ensures DiskInode(sb, b, i) == DiskInode(sb, a, i) {}
    assert Decoded(sb, b, n).inodes == Decoded(sb, a, n).inodes;
    BelowMapKeeps(sb, Decoded(sb, a, n), Decoded(sb, b, n));
  }

  lemma ProgressSame(sb: Super, fs0: Fs, a: seq<Block>, b: seq<Block>, inum: nat, off: nat, src: seq<bv8>, done: nat)
    requires Readable(sb, a, |fs0.inodes|) && |b| == |a|
    requires Progress(sb, fs0, Decoded(sb, a, |fs0.inodes|), inum, off, src, done)
    requires forall x :: sb.inodestart <= x < sb.size ==> b[x] == a[x]
    ensures Readable(sb, b, |fs0.inodes|) && Progress(sb, fs0, Decoded(sb, b, |fs0.inodes|), inum, off, src, done)
  {
    hide Content, Overwritten, FsOk;
    SameFileSystem(sb, a, b, |fs0.inodes|);
  }

  /** What commit() copies into the log. */
  ghost function Cached(after: seq<Block>, lh: seq<int>): (r: seq<DiskLog.Block>)
    requires forall j :: 0 <= j < |lh| ==> 0 <= lh[j] < |after|
  {
    seq(|lh|, j requires 0 <= j < |lh| => AsWords(after[lh[j]]))
  }

  lemma TxnLoggable(l: DiskLog.Layout, sb: Super, fs0: Fs, inum: nat, off: nat, src: seq<bv8>, t: Txn, img: DiskLog.Image, lh: seq<int>)
    requires TxnOk(sb, fs0, inum, off, src, t) && LogFits(l, sb) && Shows(l, img, t.before) && Lists(lh, t.logged)
    ensures DiskLog.Loggable(l, img, lh) && forall j :: 0 <= j < |lh| ==> 0 <= lh[j] < |t.after|
  {
    hide Progress;
    ListSize(lh, t.logged);
    forall j | 0 <= j < |lh| ensures 0 <= lh[j] < |img| && !DiskLog.InLog(l, lh[j]) { assert lh[j] in lh; }
  }

  /** The transaction can be committed to a disk with an empty log that holds the blocks before it. */
  ghost predicate Committable(l: DiskLog.Layout, sb: Super, t: Txn, img: DiskLog.Image, lh: seq<int>) {
    && LogFits(l, sb) && DiskLog.HeadOk(l, img) && DiskLog.Head(l, img) == [] && Shows(l, img, t.before) && Lists(lh, t.logged)
    && DiskLog.Loggable(l, img, lh) && forall j :: 0 <= j < |lh| ==> 0 <= lh[j] < |t.after|
  }

  /** The disk after k writes of that commit. */
  ghost function Crashed(l: DiskLog.Layout, sb: Super, t: Txn, img: DiskLog.Image, lh: seq<int>, k: nat): (r: DiskLog.Image)
    requires Committable(l, sb, t, img, lh) && k <= 2 * |lh| + 2
  {
    DiskLog.CommitAfter(l, img, lh, Cached(t.after, lh), k)
  }

  /** The bytes that recovery leaves on disk read as a file system with the first `done` bytes of src in the file at
      off, and with every other file as it was in fs0. */
  ghost predicate RecoversTo(l: DiskLog.Layout, sb: Super, crashed: DiskLog.Image, crashes: seq<nat>,
                             fs0: Fs, inum: nat, off: nat, src: seq<bv8>, done: nat) {
    && DiskLog.HeadOk(l, crashed)
    && forall out: seq<Block> :: Shows(l, DiskLog.AfterCrashes(l, crashed, crashes), out) ==>
         Readable(sb, out, |fs0.inodes|) && Progress(sb, fs0, Decoded(sb, out, |fs0.inodes|), inum, off, src, done)
  }

  /** Whole transactions survive a crash: the old blocks if the header was not written, the new ones if it was. */
  lemma CrashInTransaction(l: DiskLog.Layout, sb: Super, t: Txn, img: DiskLog.Image, lh: seq<int>, k: nat, crashes: seq<nat>,
                           fs0: Fs, inum: nat, off: nat, src: seq<bv8>)
    requires TxnOk(sb, fs0, inum, off, src, t) && Committable(l, sb, t, img, lh) && k <= 2 * |lh| + 2
    ensures RecoversTo(l, sb, Crashed(l, sb, t, img, lh, k), crashes, fs0, inum, off, src,
                       if k <= |lh| then t.done else Min(t.done + CHUNK, |src|))
    ensures Shows(l, DiskLog.AfterCrashes(l, Crashed(l, sb, t, img, lh, k), crashes), if k <= |lh| then t.before else t.after)
  {
    hide Progress, TxnOk, DiskLog.CommitAfter, DiskLog.AfterCrashes, DiskLog.HeadOk, DiskLog.Loggable, Decoded;
    DiskLog.CrashAtomicity(l, img, lh, Cached(t.after, lh), k, crashes);
    var recovered := DiskLog.AfterCrashes(l, Crashed(l, sb, t, img, lh, k), crashes);
    if k > |lh| { NewShown(l, sb, fs0, inum, off, src, t, img, lh, recovered); }
    forall out: seq<Block> | Shows(l, recovered, out)
      ensures Readable(sb, out, |fs0.inodes|)
      ensures Progress(sb, fs0, Decoded(sb, out, |fs0.inodes|), inum, off, src, if k <= |lh| then t.done else Min(t.done + CHUNK, |src|))
    {
      if k <= |lh| {
        OldBlocks(l, sb, fs0, inum, off, src, t, recovered, out);
      } else {
        NewBlocks(l, sb, fs0, inum, off, src, t, recovered, out);
      }
    }
  }

  /** A crash at any disk write of any transaction of filewrite, then any number of crashed recoveries and a complete
      one: the file is overwritten by a whole number of chunks, and every other file is as before. */
  lemma CrashInFileWrite(l: DiskLog.Layout, sb: Super, txns: seq<Txn>, t: nat, img: DiskLog.Image, lh: seq<int>, k: nat, crashes: seq<nat>,
                         fs0: Fs, inum: nat, off: nat, src: seq<bv8>, done: nat)
    requires Series(sb, fs0, inum, off, src, txns, done) && t < |txns| && LogFits(l, sb)
    requires DiskLog.HeadOk(l, img) && DiskLog.Head(l, img) == [] && Shows(l, img, txns[t].before)
    requires Lists(lh, txns[t].logged) && k <= 2 * |lh| + 2
    ensures Committable(l, sb, txns[t], img, lh)
    ensures var chunks := if k <= |lh| then t else t + 1;
      RecoversTo(l, sb, Crashed(l, sb, txns[t], img, lh, k), crashes, fs0, inum, off, src, Covered(chunks, |src|))
  {
    hide RecoversTo, TxnOk, Crashed, Shows, Series, Covered, DiskLog.HeadOk, DiskLog.Head, DiskLog.Loggable, DiskLog.Distinct;
    CoveredNext(t, |src|);
    TxnStart(sb, fs0, inum, off, src, txns, done, t);
    TxnLoggable(l, sb, fs0, inum, off, src, txns[t], img, lh);
    CrashInTransaction(l, sb, txns[t], img, lh, k, crashes, fs0, inum, off, src);
  }

  lemma CoveredNext(t: nat, n: nat)
    ensures t * CHUNK < n ==> Covered(t, n) == t * CHUNK && Covered(t + 1, n) == Min(t * CHUNK + CHUNK, n)
  {
    assert CHUNK == 1536;
  }

  lemma TxnStart(sb: Super, fs0: Fs, inum: nat, off: nat, src: seq<bv8>, txns: seq<Txn>, done: nat, t: nat)
    requires Series(sb, fs0, inum, off, src, txns, done) && t < |txns|
    ensures TxnOk(sb, fs0, inum, off, src, txns[t]) && txns[t].done == t * CHUNK < |src|
  {
    hide Progress;
  }

  /** After the header write, recovery leaves the logged blocks as the transaction left them and the others as they were. */
  lemma NewShown(l: DiskLog.Layout, sb: Super, fs0: Fs, inum: nat, off: nat, src: seq<bv8>, t: Txn, img: DiskLog.Image, lh: seq<int>, recovered: DiskLog.Image)
    requires TxnOk(sb, fs0, inum, off, src, t) && Shows(l, img, t.before) && |recovered| == |img|
    requires Lists(lh, t.logged) && forall j :: 0 <= j < |lh| ==> 0 <= lh[j] < |t.after|
    requires forall b :: 0 <= b < |img| && !DiskLog.InLog(l, b) ==> DiskLog.AppliedHolds(img, lh, Cached(t.after, lh), b, recovered[b])
    ensures Shows(l, recovered, t.after)
  {
    hide Progress, AsWords;
    forall x | 0 <= x < |img| && !DiskLog.InLog(l, x) ensures recovered[x] == AsWords(t.after[x]) {
      assert DiskLog.AppliedHolds(img, lh, Cached(t.after, lh), x, recovered[x]);
      if x in lh {
        var j :| 0 <= j < |lh| && lh[j] == x;
        assert recovered[x] == Cached(t.after, lh)[j];
      }
    }
  }

  lemma OldBlocks(l: DiskLog.Layout, sb: Super, fs0: Fs, inum: nat, off: nat, src: seq<bv8>, t: Txn, recovered: DiskLog.Image, out: seq<Block>)
    requires TxnOk(sb, fs0, inum, off, src, t) && LogFits(l, sb) && Shows(l, recovered, t.before) && Shows(l, recovered, out)
    ensures Readable(sb, out, |fs0.inodes|) && Progress(sb, fs0, Decoded(sb, out, |fs0.inodes|), inum, off, src, t.done)
  {
    hide Progress, AsWords;
    forall x | sb.inodestart <= x < sb.size ensures out[x] == t.before[x] {
      AsWordsInjective(out[x], t.before[x]);
    }
    ProgressSame(sb, fs0, t.before, out, inum, off, src, t.done);
  }

  lemma NewBlocks(l: DiskLog.Layout, sb: Super, fs0: Fs, inum: nat, off: nat, src: seq<bv8>, t: Txn, recovered: DiskLog.Image, out: seq<Block>)
    requires TxnOk(sb, fs0, inum, off, src, t) && LogFits(l, sb) && Shows(l, recovered, t.after) && Shows(l, recovered, out)
    ensures Readable(sb, out, |fs0.inodes|)
    ensures Progress(sb, fs0, Decoded(sb, out, |fs0.inodes|), inum, off, src, Min(t.done + CHUNK, |src|))
  {
    hide Progress, AsWords;
    forall x | sb.inodestart <= x < sb.size ensures out[x] == t.after[x] {
      AsWordsInjective(out[x], t.after[x]);
    }
    ProgressSame(sb, fs0, t.after, out, inum, off, src, Min(t.done + CHUNK, |src|));
  }
}
