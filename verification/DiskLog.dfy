/** The on-disk format of the write-ahead log (log.c) and what a crash can leave behind.

    A disk image is a sequence of blocks.  The log occupies `size` blocks from block `start`:
    a header block (a count and the home block numbers) and then the logged block contents.
    Every disk write is atomic, so a crash of a commit or of a recovery leaves the image after
    its first k writes, for some k.  `CommitAfter` and `RecoverAfter` are those images. */
module DiskLog {
  import opened Common
  const BLOCK_WORDS: nat := 128

  /** A block as 32-bit words (BSIZE / 4 of them): word 0 of the header is `n`, word 1+i is `block[i]`. */
  type Block = b: seq<int> | |b| == BLOCK_WORDS witness seq(BLOCK_WORDS, _ => 0)
  type Image = seq<Block>

  datatype Layout = Layout(start: nat, size: nat)

  predicate InLog(l: Layout, b: int) {
    l.start <= b < l.start + l.size
  }

  predicate Distinct(s: seq<int>) {
    forall i, j :: 0 <= i < j < |s| ==> s[i] != s[j]
  }

  /** Block numbers that one transaction may hold: distinct, on the disk, outside the log, and few enough. */
  predicate Loggable(l: Layout, img: Image, blocks: seq<int>) {
    && l.start + l.size <= |img|
    && |blocks| <= LOGSIZE
    && |blocks| < l.size
    && Distinct(blocks)
    && forall i :: 0 <= i < |blocks| ==> 0 <= blocks[i] < |img| && !InLog(l, blocks[i])
  }

  /** The block numbers recorded in a header block. */
  function HeadBlocks(hb: Block): (blocks: seq<int>)
    requires 0 <= hb[0] <= LOGSIZE
  {
    hb[1..1 + hb[0]]
  }

  /** The header block after writing `blocks` into it; words past the count keep their stale contents. */
  function PutHead(hb: Block, blocks: seq<int>): (hb': Block)
    requires |blocks| <= LOGSIZE
    ensures 0 <= hb'[0] <= LOGSIZE && HeadBlocks(hb') == blocks
  {
    [|blocks|] + blocks + hb[1 + |blocks|..]
  }

  /** The image carries a well-formed log header. */
  predicate HeadOk(l: Layout, img: Image) {
    && l.start + l.size <= |img|
    && l.size > 0
    && 0 <= img[l.start][0] <= LOGSIZE
    && Loggable(l, img, HeadBlocks(img[l.start]))
  }

  function Head(l: Layout, img: Image): (blocks: seq<int>)
    requires HeadOk(l, img)
  {
    HeadBlocks(img[l.start])
  }

  function WithHead(l: Layout, img: Image, blocks: seq<int>): (img': Image)
    requires Loggable(l, img, blocks)
    ensures |img'| == |img|
  {
    img[l.start := PutHead(img[l.start], blocks)]
  }

  /** The image after install_trans has copied the first k logged blocks home. */
  function Installed(l: Layout, img: Image, blocks: seq<int>, k: nat): (img': Image)
    requires Loggable(l, img, blocks) && k <= |blocks|
    ensures |img'| == |img|
    decreases k
  {
    if k == 0 then img
    else
      var prev := Installed(l, img, blocks, k - 1);
      prev[blocks[k - 1] := prev[l.start + k]]
  }

  /** The image after write_log has copied the first k cached blocks into the log. */
  function LogWritten(l: Layout, img: Image, cached: seq<Block>, k: nat): (img': Image)
    requires l.start + l.size <= |img| && |cached| < l.size && k <= |cached|
    ensures |img'| == |img|
    decreases k
  {
    if k == 0 then img
    else LogWritten(l, img, cached, k - 1)[l.start + k := cached[k - 1]]
  }

  /** The image after the first k disk writes of commit(): n log blocks, the header, n home blocks, the cleared header. */
  function CommitAfter(l: Layout, img: Image, blocks: seq<int>, cached: seq<Block>, k: nat): (img': Image)
    requires Loggable(l, img, blocks) && |cached| == |blocks| && k <= 2 * |blocks| + 2
    ensures |img'| == |img|
  {
    var n := |blocks|;
    if k <= n then LogWritten(l, img, cached, k)
    else
      var committed := WithHead(l, LogWritten(l, img, cached, n), blocks);
      if k <= 2 * n + 1 then Installed(l, committed, blocks, k - n - 1)
      else WithHead(l, Installed(l, committed, blocks, n), [])
  }

  /** The image after the first k disk writes of recover_from_log(). */
  function RecoverAfter(l: Layout, img: Image, k: nat): (img': Image)
    requires HeadOk(l, img) && k <= |Head(l, img)| + 1
    ensures |img'| == |img|
  {
    var blocks := Head(l, img);
    if k <= |blocks| then Installed(l, img, blocks, k)
    else WithHead(l, Installed(l, img, blocks, |blocks|), [])
  }

  function Recovered(l: Layout, img: Image): (img': Image)
    requires HeadOk(l, img)
  {
    RecoverAfter(l, img, |Head(l, img)| + 1)
  }

  /** What block b of the file system logically holds: the logged copy if the header lists b, else the home copy. */
  ghost predicate Holds(l: Layout, img: Image, b: int, contents: Block)
    requires HeadOk(l, img) && 0 <= b < |img|
  {
    var blocks := Head(l, img);
    && (forall i :: 0 <= i < |blocks| && blocks[i] == b ==> contents == img[l.start + 1 + i])
    && (b !in blocks ==> contents == img[b])
  }

  // ---- What the write loops leave on disk ----

  lemma {:induction false} InstalledBlocks(l: Layout, img: Image, blocks: seq<int>, k: nat)
    requires Loggable(l, img, blocks) && k <= |blocks|
    ensures var out := Installed(l, img, blocks, k);
      && (forall i :: 0 <= i < k ==> out[blocks[i]] == img[l.start + 1 + i])
      && (forall b :: 0 <= b < |img| && b !in blocks[..k] ==> out[b] == img[b])
  {
    hide Installed;
    forall i | 0 <= i < k ensures Installed(l, img, blocks, k)[blocks[i]] == img[l.start + 1 + i] {
      InstalledCopy(l, img, blocks, k, i);
    }
    forall b | 0 <= b < |img| && b !in blocks[..k] ensures Installed(l, img, blocks, k)[b] == img[b] {
      InstalledOther(l, img, blocks, k, b);
    }
  }

  lemma InstalledStep(l: Layout, img: Image, blocks: seq<int>, k: nat)
    requires Loggable(l, img, blocks) && 0 < k <= |blocks|
    ensures 0 <= blocks[k - 1] < |img| && !InLog(l, blocks[k - 1]) && InLog(l, l.start + k) && l.start + k < |img|
    ensures var prev := Installed(l, img, blocks, k - 1); Installed(l, img, blocks, k) == prev[blocks[k - 1] := prev[l.start + k]]
  {
  }

  lemma {:induction false} InstalledOther(l: Layout, img: Image, blocks: seq<int>, k: nat, b: int)
    requires Loggable(l, img, blocks) && k <= |blocks| && 0 <= b < |img| && b !in blocks[..k]
    ensures Installed(l, img, blocks, k)[b] == img[b]
    decreases k
  {
    if k > 0 {
      InstalledStep(l, img, blocks, k);
      assert blocks[..k] == blocks[..k - 1] + [blocks[k - 1]];
      InstalledOther(l, img, blocks, k - 1, b);
    }
  }

  lemma {:induction false} InstalledCopy(l: Layout, img: Image, blocks: seq<int>, k: nat, i: nat)
    requires Loggable(l, img, blocks) && i < k <= |blocks|
    ensures 0 <= blocks[i] < |img| && Installed(l, img, blocks, k)[blocks[i]] == img[l.start + 1 + i]
    decreases k
  {
    InstalledStep(l, img, blocks, k);
    hide Installed;
    if i == k - 1 {
      assert l.start + k !in blocks[..k - 1];
      InstalledOther(l, img, blocks, k - 1, l.start + k);
    } else {
      InstalledCopy(l, img, blocks, k - 1, i);
    }
  }

  lemma {:induction false} LogWrittenBlocks(l: Layout, img: Image, cached: seq<Block>, k: nat)
    requires l.start + l.size <= |img| && |cached| < l.size && k <= |cached|
    ensures var out := LogWritten(l, img, cached, k);
      && (forall i :: 0 <= i < k ==> out[l.start + 1 + i] == cached[i])
      && (forall b :: 0 <= b < |img| && !(l.start < b <= l.start + k) ==> out[b] == img[b])
  {
    if k > 0 { LogWrittenBlocks(l, img, cached, k - 1); }
  }

  // ---- Recovery ----

  /** Installing never touches the log region. */
  lemma InstalledKeepsLog(l: Layout, img: Image, blocks: seq<int>, k: nat)
    requires Loggable(l, img, blocks) && k <= |blocks|
    ensures forall x :: InLog(l, x) ==> Installed(l, img, blocks, k)[x] == img[x]
  {
    InstalledBlocks(l, img, blocks, k);
    forall x | InLog(l, x) ensures Installed(l, img, blocks, k)[x] == img[x] {
      assert x !in blocks[..k];
    }
  }

  lemma PartialInstallKeepsContents(l: Layout, img: Image, k: nat, b: int, contents: Block)
    requires HeadOk(l, img) && k <= |Head(l, img)|
    requires 0 <= b < |img| && !InLog(l, b) && Holds(l, img, b, contents)
    ensures HeadOk(l, Installed(l, img, Head(l, img), k))
    ensures Head(l, Installed(l, img, Head(l, img), k)) == Head(l, img)
    ensures Holds(l, Installed(l, img, Head(l, img), k), b, contents)
  {
    var blocks := Head(l, img);
    var out := Installed(l, img, blocks, k);
    InstalledKeepsLog(l, img, blocks, k);
    assert InLog(l, l.start);
    assert out[l.start] == img[l.start];
    forall i | 0 <= i < |blocks| && blocks[i] == b ensures contents == out[l.start + 1 + i] {
      assert InLog(l, l.start + 1 + i);
    }
    if b !in blocks {
      InstalledBlocks(l, img, blocks, k);
      assert b !in blocks[..k];
    }
  }

  /** Every partial recovery keeps a well-formed header and the logical contents of every home block. */
  lemma RecoveryKeepsContents(l: Layout, img: Image, k: nat, b: int, contents: Block)
    requires HeadOk(l, img) && k <= |Head(l, img)| + 1
    requires 0 <= b < |img| && !InLog(l, b) && Holds(l, img, b, contents)
    ensures HeadOk(l, RecoverAfter(l, img, k))
    ensures Holds(l, RecoverAfter(l, img, k), b, contents)
  {
    var blocks := Head(l, img);
    if k <= |blocks| {
      PartialInstallKeepsContents(l, img, k, b, contents);
    } else {
      InstalledBlocks(l, img, blocks, |blocks|);
      assert blocks[..|blocks|] == blocks;
      if b in blocks {
        var i :| 0 <= i < |blocks| && blocks[i] == b;
        assert Installed(l, img, blocks, |blocks|)[b] == img[l.start + 1 + i];
      }
    }
  }

  /** A complete recovery empties the log and leaves every home block with its logical contents. */
  lemma RecoveryInstallsContents(l: Layout, img: Image, b: int, contents: Block)
    requires HeadOk(l, img)
    requires 0 <= b < |img| && !InLog(l, b) && Holds(l, img, b, contents)
    ensures HeadOk(l, Recovered(l, img)) && Head(l, Recovered(l, img)) == []
    ensures Recovered(l, img)[b] == contents
  {
    RecoveryKeepsContents(l, img, |Head(l, img)| + 1, b, contents);
  }

  /** The final image when recovery is attempted, crashes after crashes[0] writes, is attempted again, and so on. */
  function AfterCrashes(l: Layout, img: Image, crashes: seq<nat>): (img': Image)
    requires HeadOk(l, img)
    ensures |img'| == |img|
    decreases |crashes|
  {
    if crashes == [] then Recovered(l, img)
    else
      var k := if crashes[0] <= |Head(l, img)| + 1 then crashes[0] else |Head(l, img)| + 1;
      var next := RecoverAfter(l, img, k);
      HeadSurvives(l, img, k);
      AfterCrashes(l, next, crashes[1..])
  }

  lemma HeadSurvives(l: Layout, img: Image, k: nat)
    requires HeadOk(l, img) && k <= |Head(l, img)| + 1
    ensures HeadOk(l, RecoverAfter(l, img, k))
  {
    var blocks := Head(l, img);
    var m := if k <= |blocks| then k else |blocks|;
    InstalledBlocks(l, img, blocks, m);
    assert l.start !in blocks[..m];
  }

  lemma {:induction false} RepeatedRecovery(l: Layout, img: Image, crashes: seq<nat>, b: int, contents: Block)
    requires HeadOk(l, img)
    requires 0 <= b < |img| && !InLog(l, b) && Holds(l, img, b, contents)
    ensures var out := AfterCrashes(l, img, crashes);
      HeadOk(l, out) && Head(l, out) == [] && out[b] == contents
    decreases |crashes|
  {
    if crashes == [] {
      RecoveryInstallsContents(l, img, b, contents);
    } else {
      var k := if crashes[0] <= |Head(l, img)| + 1 then crashes[0] else |Head(l, img)| + 1;
      RecoveryKeepsContents(l, img, k, b, contents);
      RepeatedRecovery(l, RecoverAfter(l, img, k), crashes[1..], b, contents);
    }
  }

  // ---- Commit ----

  /** What block b holds once the transaction (blocks, cached) is applied to img. */
  ghost predicate AppliedHolds(img: Image, blocks: seq<int>, cached: seq<Block>, b: int, contents: Block)
    requires |cached| == |blocks| && 0 <= b < |img|
  {
    && (forall i :: 0 <= i < |blocks| && blocks[i] == b ==> contents == cached[i])
    && (b !in blocks ==> contents == img[b])
  }

  /** Before the header write (k <= n) the disk logically holds the old contents; from it on, the new ones. */
  lemma CommitHolds(l: Layout, img: Image, blocks: seq<int>, cached: seq<Block>, k: nat, b: int, contents: Block)
    requires HeadOk(l, img) && Head(l, img) == []
    requires Loggable(l, img, blocks) && |cached| == |blocks| && k <= 2 * |blocks| + 2
    requires 0 <= b < |img| && !InLog(l, b)
    requires if k <= |blocks| then contents == img[b] else AppliedHolds(img, blocks, cached, b, contents)
    ensures HeadOk(l, CommitAfter(l, img, blocks, cached, k))
    ensures Holds(l, CommitAfter(l, img, blocks, cached, k), b, contents)
  {
    hide Installed, LogWritten, RecoverAfter;
    var n := |blocks|;
    if k <= n {
      UncommittedHolds(l, img, blocks, cached, k, b, contents);
    } else {
      CommittedHolds(l, img, blocks, cached, b, contents);
      var committed := WithHead(l, LogWritten(l, img, cached, n), blocks);
      RecoveryKeepsContents(l, committed, k - n - 1, b, contents);
      CommitIsRecovery(l, img, blocks, cached, k);
    }
  }

  lemma UncommittedHolds(l: Layout, img: Image, blocks: seq<int>, cached: seq<Block>, k: nat, b: int, contents: Block)
    requires HeadOk(l, img) && Head(l, img) == [] && Loggable(l, img, blocks) && |cached| == |blocks| && k <= |blocks|
    requires 0 <= b < |img| && !InLog(l, b) && contents == img[b]
    ensures HeadOk(l, LogWritten(l, img, cached, k)) && Holds(l, LogWritten(l, img, cached, k), b, contents)
  {
    LogWrittenBlocks(l, img, cached, k);
    hide LogWritten;
  }

  lemma CommittedHolds(l: Layout, img: Image, blocks: seq<int>, cached: seq<Block>, b: int, contents: Block)
    requires Loggable(l, img, blocks) && |cached| == |blocks| && 0 <= b < |img| && !InLog(l, b)
    requires AppliedHolds(img, blocks, cached, b, contents)
    ensures Loggable(l, LogWritten(l, img, cached, |blocks|), blocks)
    ensures var committed := WithHead(l, LogWritten(l, img, cached, |blocks|), blocks);
            HeadOk(l, committed) && Head(l, committed) == blocks && Holds(l, committed, b, contents)
  {
    hide LogWritten, WithHead, HeadOk, Head, Distinct, Holds;
    LogWrittenBlocks(l, img, cached, |blocks|);
    var logged := LogWritten(l, img, cached, |blocks|);
    WithHeadIs(l, logged, blocks);
    var committed := WithHead(l, logged, blocks);
    forall i | 0 <= i < |blocks| && blocks[i] == b ensures contents == committed[l.start + 1 + i] {
      assert logged[l.start + 1 + i] == cached[i];
    }
    assert b !in blocks ==> contents == committed[b];
    HoldsIf(l, committed, blocks, b, contents);
  }

  lemma HoldsIf(l: Layout, img: Image, blocks: seq<int>, b: int, contents: Block)
    requires HeadOk(l, img) && Head(l, img) == blocks && 0 <= b < |img| && l.start + |blocks| < |img|
    requires forall i :: 0 <= i < |blocks| && blocks[i] == b ==> contents == img[l.start + 1 + i]
    requires b !in blocks ==> contents == img[b]
    ensures Holds(l, img, b, contents)
  {
  }

  lemma WithHeadIs(l: Layout, img: Image, blocks: seq<int>)
    requires Loggable(l, img, blocks)
    ensures HeadOk(l, WithHead(l, img, blocks)) && Head(l, WithHead(l, img, blocks)) == blocks
    ensures forall x :: 0 <= x < |img| && x != l.start ==> WithHead(l, img, blocks)[x] == img[x]
  {
    hide PutHead, HeadBlocks;
  }

  /** From the header write on, commit does what a recovery does. */
  lemma CommitIsRecovery(l: Layout, img: Image, blocks: seq<int>, cached: seq<Block>, k: nat)
    requires Loggable(l, img, blocks) && |cached| == |blocks| && |blocks| < k <= 2 * |blocks| + 2
    requires var committed := WithHead(l, LogWritten(l, img, cached, |blocks|), blocks); HeadOk(l, committed) && Head(l, committed) == blocks
    ensures CommitAfter(l, img, blocks, cached, k) == RecoverAfter(l, WithHead(l, LogWritten(l, img, cached, |blocks|), blocks), k - |blocks| - 1)
  {
    hide Installed, LogWritten;
  }

  /** Crash atomicity: a commit that crashes after any k of its writes, followed by any number of
      recoveries that crash after any number of writes and one that completes, leaves an empty log
      and every home block old (k <= n) or every home block new (k > n). */
  lemma CrashAtomicity(l: Layout, img: Image, blocks: seq<int>, cached: seq<Block>, k: nat, crashes: seq<nat>)
    requires HeadOk(l, img) && Head(l, img) == []
    requires Loggable(l, img, blocks) && |cached| == |blocks| && k <= 2 * |blocks| + 2
    ensures HeadOk(l, CommitAfter(l, img, blocks, cached, k))
    ensures var out := AfterCrashes(l, CommitAfter(l, img, blocks, cached, k), crashes);
      && HeadOk(l, out) && Head(l, out) == []
      && (k <= |blocks| ==> forall b :: 0 <= b < |img| && !InLog(l, b) ==> out[b] == img[b])
      && (k > |blocks| ==> forall b :: 0 <= b < |img| && !InLog(l, b) ==> AppliedHolds(img, blocks, cached, b, out[b]))
  {
    CommitHeadOk(l, img, blocks, cached, k);
    var crashed := CommitAfter(l, img, blocks, cached, k);
    var out := AfterCrashes(l, crashed, crashes);
    RecoveredHead(l, crashed, crashes);
    forall b | 0 <= b < |img| && !InLog(l, b)
      ensures if k <= |blocks| then out[b] == img[b] else AppliedHolds(img, blocks, cached, b, out[b])
    {
      var contents := if k <= |blocks| then img[b] else Applied(img, blocks, cached, b);
      CommitHolds(l, img, blocks, cached, k, b, contents);
      RepeatedRecovery(l, crashed, crashes, b, contents);
    }
  }

  ghost function Applied(img: Image, blocks: seq<int>, cached: seq<Block>, b: int): (contents: Block)
    requires |cached| == |blocks| && 0 <= b < |img| && Distinct(blocks)
    ensures AppliedHolds(img, blocks, cached, b, contents)
  {
    if b in blocks then
      var i :| 0 <= i < |blocks| && blocks[i] == b;
      cached[i]
    else img[b]
  }

  lemma CommitHeadOk(l: Layout, img: Image, blocks: seq<int>, cached: seq<Block>, k: nat)
    requires HeadOk(l, img) && Head(l, img) == []
    requires Loggable(l, img, blocks) && |cached| == |blocks| && k <= 2 * |blocks| + 2
    ensures HeadOk(l, CommitAfter(l, img, blocks, cached, k))
    ensures k == 2 * |blocks| + 2 ==> Head(l, CommitAfter(l, img, blocks, cached, k)) == []
  {
    var n := |blocks|;
    LogWrittenBlocks(l, img, cached, if k <= n then k else n);
    if k > n {
      var committed := WithHead(l, LogWritten(l, img, cached, n), blocks);
      assert Head(l, committed) == blocks;
      HeadSurvives(l, committed, k - n - 1);
    }
  }

  lemma {:induction false} RecoveredHead(l: Layout, img: Image, crashes: seq<nat>)
    requires HeadOk(l, img)
    ensures HeadOk(l, AfterCrashes(l, img, crashes)) && Head(l, AfterCrashes(l, img, crashes)) == []
    decreases |crashes|
  {
    if crashes == [] {
      HeadSurvives(l, img, |Head(l, img)| + 1);
    } else {
      var k := if crashes[0] <= |Head(l, img)| + 1 then crashes[0] else |Head(l, img)| + 1;
      HeadSurvives(l, img, k);
      RecoveredHead(l, RecoverAfter(l, img, k), crashes[1..]);
    }
  }
}
