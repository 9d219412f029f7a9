/** filewrite (file.c:117-156) on an inode: a write of any length as a series of transactions. */
module FileWrite {
  import opened Common
  import opened BlockBytes
  import opened FsState
  import opened DiskInodes
  import opened FsOps

  datatype Outcome = Complete | Failed | Halted   // n, -1, and the panic of balloc

  /** struct file: the inode and the current offset. */
  class OpenFile {
    const fs: FileSystem
    const inum: nat
    var off: nat

    constructor (fs: FileSystem, inum: nat)
      ensures this.fs == fs && this.inum == inum && off == 0
    {
      this.fs, this.inum, this.off := fs, inum, 0;
    }

    /** `done` bytes were written, in the transactions `txns`. */
    method FileWrite(src: seq<bv8>) returns (r: Outcome, ghost done: nat, ghost txns: seq<Txn>)
      requires fs.Valid() && inum < |fs.inodes| && off < UINT && |src| < UINT
      modifies this, fs
      ensures Series(fs.sb, old(fs.State()), inum, old(off), src, txns, done)
      ensures r != Halted ==> fs.Valid() && Progress(fs.sb, old(fs.State()), fs.State(), inum, old(off), src, done) && off == old(off) + done
      ensures r != Halted ==> fs.blocks == Left(old(fs.blocks), txns, |txns|)
      ensures r != Halted ==> done == Attempted(old(off), old(fs.inodes)[inum].size, |src|)
      ensures r == Complete <==> r != Halted && (src == [] || (old(off) <= old(fs.inodes)[inum].size && old(off) + |src| <= MAXFILE * BSIZE))
      ensures r == Halted <==>
        Slack(fs.sb, old(fs.State()), inum, SlotsFor(old(off), Attempted(old(off), old(fs.inodes)[inum].size, |src|))) < 0
      ensures r == Halted ==> |fs.blocks| == fs.sb.size && SuperOk(fs.sb) && forall b :: 0 <= b < fs.sb.size ==> Used(fs.sb, fs.blocks, b)
    {
      hide Progress, FsOk, Series, Tracks, Slack, Used, Owned;
      ghost var fs0, off0 := fs.State(), off;
      ContentFits(fs.sb, fs0, inum);
      ghost var size0 := fs.inodes[inum].size;
      ghost var need := SlotsFor(off, Attempted(off, size0, |src|));
      ProgressInit(fs.sb, fs0, inum, off, src);
      SeriesInit(fs.sb, fs0, inum, off, src);
      txns := [];
      var i := 0;
      while i < |src|
        invariant 0 <= i <= |src| && off == off0 + i
        invariant fs.Valid() && Progress(fs.sb, fs0, fs.State(), inum, off0, src, i)
        invariant Series(fs.sb, fs0, inum, off0, src, txns, i)
        invariant fs.blocks == Left(fs0.blocks, txns, |txns|)
        invariant Shape(fs.sb, fs.State()) && inum < |fs.inodes|
        invariant Slack(fs.sb, fs.State(), inum, need) == Slack(fs.sb, fs0, inum, need)
        decreases |src| - i
      {
        SeriesDone(fs.sb, fs0, inum, off0, src, txns, i);
        ProgressSize(fs.sb, fs0, fs.State(), inum, off0, src, i);
        ChunkNeeds(off0, size0, fs.inodes[inum].size, |src|, i, |txns|);
        var w, n1, txn := Transaction(src, i, fs0, off0, need);
        if w == OutOfBlocks { return Halted, i, txns; }
        if w == Rejected {
          EnoughBlocks(fs.sb, fs0, fs.State(), inum, off0, src, i);
          return Failed, i, txns;
        }
        ProgressSize(fs.sb, fs0, fs.State(), inum, off0, src, i + n1);
        SeriesStep(fs.sb, fs0, inum, off0, src, txns, i, txn);
        txns := txns + [txn];
        i := i + n1;
      }
      ProgressSize(fs.sb, fs0, fs.State(), inum, off0, src, i);
      EnoughBlocks(fs.sb, fs0, fs.State(), inum, off0, src, i);
      return Complete, i, txns;
    }

    /** One iteration of the loop (file.c:136-151), between begin_op and end_op. */
    method Transaction(src: seq<bv8>, i: nat, ghost fs0: Fs, ghost off0: nat, ghost need: set<nat>) returns (w: WriteResult, n1: nat, ghost txn: Txn)
      requires fs.Valid() && i < |src| < UINT && off == off0 + i && off0 < UINT && Progress(fs.sb, fs0, fs.State(), inum, off0, src, i)
      requires inum < |fs.inodes| && Shape(fs.sb, fs.State())
      requires off <= fs.inodes[inum].size && off + Min(|src| - i, CHUNK) <= MAXFILE * BSIZE ==> SlotsFor(off, Min(|src| - i, CHUNK)) <= need
      modifies this, fs
      ensures w != OutOfBlocks ==> fs.Valid()
      ensures n1 == Min(|src| - i, CHUNK)
      ensures w == Written ==> Progress(fs.sb, fs0, fs.State(), inum, off0, src, i + n1) && off == old(off) + n1
      ensures w == Written ==> TxnOk(fs.sb, fs0, inum, off0, src, txn) && txn.done == i && txn.before == old(fs.blocks) && txn.after == fs.blocks
      ensures w == Rejected <==> old(off) > old(fs.inodes)[inum].size || old(off) + n1 > MAXFILE * BSIZE
      ensures w == Rejected ==> fs.State() == old(fs.State()) && off == old(off)
      ensures w == OutOfBlocks ==> Slack(fs.sb, old(fs.State()), inum, need) < 0
      ensures w == OutOfBlocks ==> |fs.blocks| == fs.sb.size && SuperOk(fs.sb) && forall b :: 0 <= b < fs.sb.size ==> Used(fs.sb, fs.blocks, b)
      ensures w == Written ==> Shape(fs.sb, fs.State()) && inum < |fs.inodes|
      ensures w == Written ==> Slack(fs.sb, fs.State(), inum, need) == Slack(fs.sb, old(fs.State()), inum, need)
    {
      hide Content, Overwritten, FsOk, Progress, Tracks, TxnOk, Slack, Used;
      n1 := if |src| - i > CHUNK then CHUNK else |src| - i;
      fs.Begin();
      ghost var fs1 := fs.State();
      txn := Txn(fs1.blocks, fs1.blocks, {}, i);
      ProgressBounds(fs.sb, fs0, fs1, inum, off0, src, i, n1);
      OnDiskIs(fs.sb, fs.base, fs.blocks, fs.dinodes, fs.logged);
      w := fs.Writei(inum, src[i..i + n1], off, need);
      if w == Written {
        ProgressStep(fs.sb, fs0, fs1, fs.State(), inum, off0, src, i, n1);
        ContentFits(fs.sb, fs.State(), inum);
        off := off + n1;
        txn := Txn(fs1.blocks, fs.blocks, fs.logged, i);
        assert fs.logged - {} == fs.logged;
        TxnIs(fs.sb, fs0, fs1, fs.State(), inum, off0, src, i, fs.logged);
      }
    }
  }

  /** How many of n bytes filewrite writes if there are blocks enough: all, or the chunks that fit below the maximum
      file size, or none past the end of the file. */
  function Attempted(off: nat, size: nat, n: nat): (r: nat)
    requires size <= MAXFILE * BSIZE
  {
    if off > size then 0 else if off + n <= MAXFILE * BSIZE then n else (MAXFILE * BSIZE - off) / CHUNK * CHUNK
  }

  /** A chunk that is accepted belongs to the bytes attempted; one that is not ends them. */
  lemma ChunkNeeds(off0: nat, size0: nat, size: nat, n: nat, i: nat, t: nat)
    requires size0 <= MAXFILE * BSIZE && i == t * CHUNK < n
    requires if i == 0 then size == size0 else off0 <= size0 && off0 + i <= size <= MAXFILE * BSIZE
    ensures var n1 := Min(n - i, CHUNK);
      if off0 + i <= size && off0 + i + n1 <= MAXFILE * BSIZE then SlotsFor(off0 + i, n1) <= SlotsFor(off0, Attempted(off0, size0, n))
      else i == Attempted(off0, size0, n) && (off0 > size0 || off0 + n > MAXFILE * BSIZE)
  {
    assert CHUNK == 1536;
    var n1, m := Min(n - i, CHUNK), Attempted(off0, size0, n);
    if off0 + i <= size && off0 + i + n1 <= MAXFILE * BSIZE {
      assert i + n1 <= m;
      assert BlockNo(off0) <= BlockNo(off0 + i) && BlockNo(off0 + i + n1 - 1) <= BlockNo(off0 + m - 1);
    }
  }

  lemma SeriesDone(sb: Super, fs0: Fs, inum: nat, off: nat, src: seq<bv8>, txns: seq<Txn>, done: nat)
    requires Series(sb, fs0, inum, off, src, txns, done) && done < |src|
    ensures done == |txns| * CHUNK
  {
  }

  /** After `done` bytes the file reaches at least to their end. */
  lemma ProgressSize(sb: Super, fs: Fs, fs': Fs, inum: nat, off: nat, src: seq<bv8>, done: nat)
    requires Progress(sb, fs, fs', inum, off, src, done)
    ensures inum < |fs.inodes| == |fs'.inodes| && Shape(sb, fs) && Shape(sb, fs')
    ensures fs.inodes[inum].size <= MAXFILE * BSIZE && fs'.inodes[inum].size <= MAXFILE * BSIZE
    ensures if done == 0 then fs'.inodes[inum].size == fs.inodes[inum].size
            else off <= fs.inodes[inum].size && off + done <= fs'.inodes[inum].size && off + done <= MAXFILE * BSIZE
  {
    ContentLength(sb, fs, inum);
    ContentLength(sb, fs', inum);
    hide Content, FsOk, Owned;
  }

  lemma EnoughBlocks(sb: Super, fs: Fs, fs': Fs, inum: nat, off: nat, src: seq<bv8>, done: nat)
    requires Progress(sb, fs, fs', inum, off, src, done)
    ensures inum < |fs'.inodes| && Shape(sb, fs') && Slack(sb, fs', inum, SlotsFor(off, done)) >= 0
  {
    hide Slack;
    ProgressSize(sb, fs, fs', inum, off, src, done);
    SlackDone(sb, fs', inum, off, done);
  }

  /** A transaction of filewrite: the blocks before and after it, the blocks it logged, and how much had been written before. */
  datatype Txn = Txn(before: seq<Block>, after: seq<Block>, logged: set<nat>, done: nat)

  /** The file system as it is read from these blocks, with n inodes. */
  ghost function Decoded(sb: Super, blocks: seq<Block>, n: nat): (fs: Fs)
    requires forall i :: 0 <= i < n ==> IBlock(sb, i) < |blocks|
  {
    Fs(blocks, seq(n, i requires 0 <= i < n => DiskInode(sb, blocks, i)))
  }

  ghost predicate Readable(sb: Super, blocks: seq<Block>, n: nat) {
    SuperOk(sb) && |blocks| == sb.size && forall i :: 0 <= i < n ==> IBlock(sb, i) < sb.bmapstart
  }

  /** The transaction logs what it changes, at most MAXOPBLOCKS blocks, none below the inodes.  The blocks before
      it read as a file system with `done` bytes of src in the file, those after it with the next chunk too. */
  ghost predicate TxnOk(sb: Super, fs0: Fs, inum: nat, off: nat, src: seq<bv8>, t: Txn) {
    var n := |fs0.inodes|;
    && Readable(sb, t.before, n) && Readable(sb, t.after, n) && t.done < |src|
    && |t.logged| <= MAXOPBLOCKS && (forall b :: b in t.logged ==> sb.inodestart <= b < sb.size)
    && (forall b :: 0 <= b < sb.size && b !in t.logged ==> t.after[b] == t.before[b])
    && Progress(sb, fs0, Decoded(sb, t.before, n), inum, off, src, t.done)
    && Progress(sb, fs0, Decoded(sb, t.after, n), inum, off, src, Min(t.done + CHUNK, |src|))
  }

  /** Transaction t of a write starts after t whole chunks. */
  ghost predicate Chunks(sb: Super, fs0: Fs, inum: nat, off: nat, src: seq<bv8>, txns: seq<Txn>) {
    forall t :: 0 <= t < |txns| ==> TxnOk(sb, fs0, inum, off, src, txns[t]) && txns[t].done == t * CHUNK
  }

  /** How many of n bytes the first `chunks` chunks have. */
  ghost function Covered(chunks: nat, n: nat): (r: nat) {
    if chunks * CHUNK < n then chunks * CHUNK else n
  }

  /** The blocks that the first n transactions leave. */
  ghost function Left(blocks: seq<Block>, txns: seq<Txn>, n: nat): (r: seq<Block>)
    requires n <= |txns|
  {
    if n == 0 then blocks else txns[n - 1].after
  }

  ghost predicate Chained(blocks: seq<Block>, txns: seq<Txn>) {
    forall t :: 0 <= t < |txns| ==> txns[t].before == Left(blocks, txns, t)
  }

  /** The transactions of a write of which `done` bytes are written: each starts with the blocks that the last one left. */
  ghost predicate Series(sb: Super, fs0: Fs, inum: nat, off: nat, src: seq<bv8>, txns: seq<Txn>, done: nat) {
    done == Covered(|txns|, |src|) && Chunks(sb, fs0, inum, off, src, txns) && Chained(fs0.blocks, txns)
  }

  lemma SeriesInit(sb: Super, fs0: Fs, inum: nat, off: nat, src: seq<bv8>)
    ensures Series(sb, fs0, inum, off, src, [], 0)
  {
  }

  lemma SeriesStep(sb: Super, fs0: Fs, inum: nat, off: nat, src: seq<bv8>, txns: seq<Txn>, done: nat, t: Txn)
    requires Series(sb, fs0, inum, off, src, txns, done) && done < |src|
    requires TxnOk(sb, fs0, inum, off, src, t) && t.done == done && t.before == Left(fs0.blocks, txns, |txns|)
    ensures Series(sb, fs0, inum, off, src, txns + [t], done + Min(|src| - done, CHUNK))
  {
    hide TxnOk;
    var all := txns + [t];
    assert CHUNK == 1536;
    assert Chunks(sb, fs0, inum, off, src, all);
    forall k | 0 <= k < |all| ensures all[k].before == Left(fs0.blocks, all, k) {
      assert Left(fs0.blocks, all, k) == Left(fs0.blocks, txns, k);
    }
  }

  lemma OnDiskIs(sb: Super, base: seq<Block>, blocks: seq<Block>, dinodes: seq<Inode>, logged: set<nat>)
    requires Tracks(sb, base, blocks, dinodes, logged)
    ensures OnDisk(sb, blocks, dinodes)
  {
  }

  /** In-memory inodes that are on disk are what the disk decodes to. */
  lemma DecodedIs(sb: Super, fs: Fs)
    requires OnDisk(sb, fs.blocks, fs.inodes)
    ensures Readable(sb, fs.blocks, |fs.inodes|) && Decoded(sb, fs.blocks, |fs.inodes|) == fs
  {
    assert Decoded(sb, fs.blocks, |fs.inodes|).inodes == fs.inodes;
  }

  lemma TxnIs(sb: Super, fs0: Fs, fs1: Fs, fs2: Fs, inum: nat, off: nat, src: seq<bv8>, i: nat, logged: set<nat>)
    requires Progress(sb, fs0, fs1, inum, off, src, i) && i < |src|
    requires Progress(sb, fs0, fs2, inum, off, src, i + Min(|src| - i, CHUNK))
    requires OnDisk(sb, fs1.blocks, fs1.inodes) && Tracks(sb, fs1.blocks, fs2.blocks, fs2.inodes, logged) && |logged| <= MAXOPBLOCKS
    ensures TxnOk(sb, fs0, inum, off, src, Txn(fs1.blocks, fs2.blocks, logged, i))
  {
    hide Content, FsOk, Overwritten;
    DecodedIs(sb, fs1);
    DecodedIs(sb, fs2);
  }

  /** The first `done` bytes of src are in the file at off, the rest of it and every other file are as before,
      and they all fit below the maximum file size. */
  ghost predicate Progress(sb: Super, fs: Fs, fs': Fs, inum: nat, off: nat, src: seq<bv8>, done: nat) {
    && FsOk(sb, fs) && FsOk(sb, fs') && |fs'.inodes| == |fs.inodes| && inum < |fs.inodes| && done <= |src|
    && (done > 0 ==> off <= fs.inodes[inum].size && off + done <= MAXFILE * BSIZE)
    && Content(sb, fs', inum) == (if done == 0 then Content(sb, fs, inum) else Overwritten(Content(sb, fs, inum), off, src[..done]))
    && (forall j :: 0 <= j < |fs.inodes| && j != inum ==> Content(sb, fs', j) == Content(sb, fs, j))
  }

  lemma ProgressInit(sb: Super, fs: Fs, inum: nat, off: nat, src: seq<bv8>)
    requires FsOk(sb, fs) && inum < |fs.inodes|
    ensures Progress(sb, fs, fs, inum, off, src, 0)
  {
  }

  lemma ProgressBounds(sb: Super, fs: Fs, fs1: Fs, inum: nat, off: nat, src: seq<bv8>, i: nat, n1: nat)
    requires Progress(sb, fs, fs1, inum, off, src, i) && i + n1 <= |src| && off < UINT
    ensures |fs1.inodes| == |fs.inodes| && inum < |fs.inodes| && off + i < UINT
    ensures off + i > fs1.inodes[inum].size || off + i + n1 > MAXFILE * BSIZE ==> off > fs.inodes[inum].size || off + |src| > MAXFILE * BSIZE
  {
    hide Content, FsOk;
    ContentLength(sb, fs, inum);
    ContentLength(sb, fs1, inum);
  }

  lemma ProgressStep(sb: Super, fs: Fs, fs1: Fs, fs2: Fs, inum: nat, off: nat, src: seq<bv8>, i: nat, n1: nat)
    requires Progress(sb, fs, fs1, inum, off, src, i) && 0 < n1 && i + n1 <= |src|
    requires FsOk(sb, fs2) && |fs2.inodes| == |fs1.inodes|
    requires off + i <= fs1.inodes[inum].size && off + i + n1 <= MAXFILE * BSIZE
    requires Content(sb, fs2, inum) == Overwritten(Content(sb, fs1, inum), off + i, src[i..i + n1])
    requires forall j :: 0 <= j < |fs1.inodes| && j != inum ==> Content(sb, fs2, j) == Content(sb, fs1, j)
    ensures Progress(sb, fs, fs2, inum, off, src, i + n1)
  {
    hide Content, FsOk, Overwritten;
    ContentLength(sb, fs, inum);
    ContentLength(sb, fs1, inum);
    if i == 0 {
      assert src[0..n1] == src[..n1];
    } else {
      OverwrittenTwice(Content(sb, fs, inum), off, src[..i], src[i..i + n1]);
      assert src[..i] + src[i..i + n1] == src[..i + n1];
    }
  }

  lemma ContentLength(sb: Super, fs: Fs, i: nat)
    requires FsOk(sb, fs) && i < |fs.inodes|
    ensures Owned(sb, fs) && fs.inodes[i].size <= MAXFILE * BSIZE && |Content(sb, fs, i)| == fs.inodes[i].size
  {
  }

  /** Two adjacent writes are one. */
  lemma OverwrittenTwice(c: seq<bv8>, off: nat, a: seq<bv8>, b: seq<bv8>)
    requires off <= |c|
    ensures Overwritten(Overwritten(c, off, a), off + |a|, b) == Overwritten(c, off, a + b)
  {
  }
}
