/** The block allocator and inode contents (fs.c) as operations on a mutable file system. */
module FsOps {
  import opened Common
  import opened BlockBytes
  import opened FsState
  import opened DiskInodes

  const UINT: nat := 0x1_0000_0000
  /** filewrite's `max` (file.c:133): the most one transaction writes. */
  const CHUNK: nat := (MAXOPBLOCKS - 1 - 1 - 2) / 2 * 512

  datatype WriteResult = Written | Rejected | OutOfBlocks

  function Min(a: int, b: int): (m: int) {
    if a < b then a else b
  }

  /** off + n < off, in 32-bit arithmetic */
  predicate Wraps(off: nat, n: nat) {
    (off + n) % UINT < off
  }

  lemma WrapsIff(off: nat, n: nat)
    requires off < UINT && n < UINT
    ensures Wraps(off, n) <==> off + n >= UINT
  {
  }

  /** min(n - tot, BSIZE - BlockOff(off)): how much of the next block an iteration of readi or writei covers. */
  function PieceLen(off: nat, rest: nat): (m: nat)
    requires rest > 0
    ensures 0 < m <= rest && BlockOff(off) + m <= BSIZE
  {
    Min(rest, BSIZE - BlockOff(off))
  }

  class FileSystem {
    const sb: Super
    var blocks: seq<Block>       // what bread returns for each block
    var inodes: seq<Inode>       // the in-memory inodes
    ghost var dinodes: seq<Inode>   // the inodes as last written by iupdate
    ghost var base: seq<Block>      // the blocks when the transaction began
    ghost var logged: set<nat>      // the blocks passed to log_write since

    ghost function State(): (fs: Fs)
      reads this
    {
      Fs(blocks, inodes)
    }

    ghost predicate Valid()
      reads this
    {
      FsOk(sb, State()) && dinodes == inodes && Tracked()
    }

    /** The transaction has logged what it changed, and the inode blocks hold `dinodes`. */
    ghost predicate Tracked()
      reads this
    {
      Tracks(sb, base, blocks, dinodes, logged)
    }

    constructor Mount(sb: Super, blocks: seq<Block>, inodes: seq<Inode>)
      requires FsOk(sb, Fs(blocks, inodes)) && OnDisk(sb, blocks, inodes)
      ensures Valid() && this.sb == sb && State() == Fs(blocks, inodes) && base == blocks && logged == {}
    {
      this.sb, this.blocks, this.inodes, this.dinodes, this.base, this.logged := sb, blocks, inodes, inodes, blocks, {};
    }

    /** The last transaction has been committed and a new one begins. */
    ghost method Begin()
      requires Valid()
      modifies this`base, this`logged
      ensures Valid() && base == blocks && logged == {}
    {
      base, logged := blocks, {};
    }

    /** balloc (fs.c:56-78): the lowest-numbered free block, marked used and zeroed; None is the panic. */
    method Balloc() returns (r: Option<nat>)
      requires Owned(sb, State()) && Tracked()
      modifies this`blocks, this`logged
      ensures Tracked()
      ensures r.None? ==> blocks == old(blocks) && logged == old(logged) && forall b :: 0 <= b < sb.size ==> Used(sb, blocks, b)
      ensures r.Some? ==>
        && r.value < sb.size && !Used(sb, old(blocks), r.value)
        && (forall b :: 0 <= b < r.value ==> Used(sb, old(blocks), b))
        && blocks == Alloc(sb, old(blocks), r.value)
        && logged == old(logged) + {MapBlock(sb, r.value), r.value}
    {
      hide Bit, SetBit, Tracks;
      var b := 0;
      while b < sb.size
        invariant b % BPB == 0 && blocks == old(blocks) && logged == old(logged)
        invariant forall c :: 0 <= c < b && c < sb.size ==> Used(sb, blocks, c)
      {
        var bp := blocks[MapBlock(sb, b)];
        var bi := 0;
        while bi < BPB && b + bi < sb.size
          invariant 0 <= bi <= BPB && blocks == old(blocks) && logged == old(logged)
          invariant forall c :: 0 <= c < b + bi && c < sb.size ==> Used(sb, blocks, c)
        {
          assert (b + bi) / BPB == b / BPB && (b + bi) % BPB == bi;
          if !Bit(bp, bi) {
            assert !Used(sb, blocks, b + bi);
            TracksStore(sb, base, blocks, dinodes, logged, MapBlock(sb, b), SetBit(bp, bi));
            TracksStore(sb, base, blocks[MapBlock(sb, b) := SetBit(bp, bi)], dinodes, logged + {MapBlock(sb, b)}, b + bi, Zero());
            blocks := blocks[MapBlock(sb, b) := SetBit(bp, bi)];
            logged := logged + {MapBlock(sb, b)};
            blocks := blocks[b + bi := Zero()];
            logged := logged + {b + bi};
            return Some(b + bi);
          }
          bi := bi + 1;
        }
        b := b + BPB;
      }
      return None;
    }

    /** bfree (fs.c:81-95); true is the panic "freeing free block". */
    method Bfree(b: nat) returns (panic: bool)
      requires SuperOk(sb) && |blocks| == sb.size && b < sb.size && Tracked()
      modifies this`blocks, this`logged
      ensures Tracked()
      ensures panic <==> !Used(sb, old(blocks), b)
      ensures panic ==> blocks == old(blocks) && logged == old(logged)
      ensures !panic ==> blocks == Freed(sb, old(blocks), b) && logged == old(logged) + {MapBlock(sb, b)}
    {
      var bi := b % BPB;
      if !Bit(blocks[MapBlock(sb, b)], bi) { return true; }
      TracksStore(sb, base, blocks, dinodes, logged, MapBlock(sb, b), ClearBit(blocks[MapBlock(sb, b)], bi));
      blocks := blocks[MapBlock(sb, b) := ClearBit(blocks[MapBlock(sb, b)], bi)];
      logged := logged + {MapBlock(sb, b)};
      return false;
    }

    /** iupdate (fs.c:221-236): the bytes of the inode in its block, which then read back as the inode in memory. */
    method Iupdate(i: nat)
      requires i < |inodes| && |dinodes| == |inodes| && Storable(inodes[i]) && Tracked()
      modifies this`blocks, this`dinodes, this`logged
      ensures Tracked() && dinodes == old(dinodes)[i := inodes[i]] && logged == old(logged) + {IBlock(sb, i)}
      ensures IBlock(sb, i) < sb.bmapstart <= |blocks| == |old(blocks)| == sb.size && DiskInode(sb, blocks, i) == inodes[i]
      ensures forall j :: 0 <= j < |inodes| && j != i ==> IBlock(sb, j) < |blocks| && DiskInode(sb, blocks, j) == DiskInode(sb, old(blocks), j)
      ensures forall b :: 0 <= b < |blocks| && b != IBlock(sb, i) ==> blocks[b] == old(blocks)[b]
      ensures forall w :: 0 <= w < NINDIRECT && (w < DINODE_WORDS * (i % IPB) + 2 || w >= DINODE_WORDS * (i % IPB + 1)) ==>
        Word(blocks[IBlock(sb, i)], w) == Word(old(blocks)[IBlock(sb, i)], w)
    {
      hide PutInode, InodeAt, Word, Storable;
      TracksInode(sb, base, blocks, dinodes, logged, i, inodes[i]);
      var b := IBlock(sb, i);
      ghost var was := blocks[b];
      blocks := blocks[b := PutInode(blocks[b], i % IPB, inodes[i])];
      dinodes := dinodes[i := inodes[i]];
      logged := logged + {b};
      forall w | 0 <= w < NINDIRECT && (w < DINODE_WORDS * (i % IPB) + 2 || w >= DINODE_WORDS * (i % IPB + 1))
        ensures Word(blocks[b], w) == Word(was, w)
      {
        PutInodeElsewhere(was, i % IPB, inodes[i], w);
      }
    }

    /** bmap (fs.c:373-400): the address of the bn-th block of inode i, allocating it, and the indirect
        block, if there is none.  It logs the free-map blocks `maps`, the block, and perhaps the indirect block. */
    method Bmap(i: nat, bn: nat, ghost need: set<nat>) returns (r: Option<nat>, ghost maps: set<nat>, ghost ind: set<nat>)
      requires Owned(sb, State()) && i < |inodes| && bn < MAXFILE && Tracked() && Wanted(need, bn)
      modifies this`blocks, this`inodes, this`logged
      ensures Owned(sb, State()) && |inodes| == |old(inodes)| && Tracked()
      ensures r.Some? ==> Mapped(sb, old(State()), State(), i, bn) && r.value == Addr(State(), i, Slot(bn))
      ensures r.None? ==> |blocks| == sb.size && SuperOk(sb) && forall b :: 0 <= b < sb.size ==> Used(sb, blocks, b)
      ensures Addr(old(State()), i, Slot(bn)) != 0 ==> r.Some? && State() == old(State()) && logged == old(logged)
      ensures Slack(sb, State(), i, need) == Slack(sb, old(State()), i, need) && (r.None? ==> Slack(sb, State(), i, need) < 0)
      ensures r.Some? ==> Logs(old(logged), logged - {r.value}, Addr(old(State()), i, NDIRECT), Addr(State(), i, NDIRECT),
                               Addr(old(State()), i, Slot(bn)) == 0, 0, maps, ind)
    {
      hide Addr, Used, SameBytes, Filled, Mapped, Logs, Tracks, Slack;
      ghost var fs0 := State();
      EntryNeedsIndirect(sb, fs0, i, bn);
      maps, ind := {}, {};
      if bn < NDIRECT {
        r, maps := BmapAddr(i, bn, need);
        if r.None? { return; }
        FilledOnce(sb, fs0, State(), i, bn);
        LogsDirect(old(logged), logged, Addr(fs0, i, NDIRECT), Addr(fs0, i, bn) == 0, maps, r.value);
        return;
      }
      r, maps := BmapAddr(i, NDIRECT, need);
      if r.None? { return; }
      ghost var fs1, maps1, logged1 := State(), maps, logged;
      FilledIndirect(sb, fs0, fs1, i, bn);
      r, maps := BmapEntry(i, bn + 1, need);
      if r.None? { return; }
      FilledTwice(sb, fs0, fs1, State(), i, bn);
      LogsIndirect(old(logged), logged1, logged, Addr(fs0, i, NDIRECT), Addr(fs1, i, NDIRECT), Addr(fs0, i, bn + 1) == 0, maps1, maps, r.value);
      maps, ind := maps1 + maps, {Addr(fs1, i, NDIRECT)};
    }

    /** "if ip->addrs[k] is 0, store a new block there" (fs.c:379-380, fs.c:387-388). */
    method BmapAddr(i: nat, k: nat, ghost need: set<nat>) returns (r: Option<nat>, ghost maps: set<nat>)
      requires Owned(sb, State()) && i < |inodes| && k <= NDIRECT && Tracked() && k in need
      modifies this`blocks, this`inodes, this`logged
      ensures Tracked()
      ensures r.Some? ==> Filled(sb, old(State()), State(), i, k) && r.value == Addr(State(), i, k)
      ensures r.Some? ==> Owned(sb, State()) && |inodes| == |old(inodes)|
      ensures r.None? ==> State() == old(State()) && forall b :: 0 <= b < sb.size ==> Used(sb, blocks, b)
      ensures Shape(sb, State()) && Slack(sb, State(), i, need) == Slack(sb, old(State()), i, need) && (r.None? ==> Slack(sb, State(), i, need) < 0)
      ensures logged <= old(logged) + maps + (if r.Some? then {r.value} else {})
      ensures |maps| <= if Addr(old(State()), i, k) == 0 then 1 else 0
      ensures Addr(old(State()), i, k) != 0 ==> r.Some? && State() == old(State()) && logged == old(logged)
    {
      hide Tracks, Slack;
      maps := {};
      ghost var fs0 := State();
      SameBytesRefl(sb, fs0);
      var addr := inodes[i].addrs[k];
      if addr == 0 {
        r := Balloc();
        if r.None? {
          SlackNegative(sb, fs0, i, k, need);
          return;
        }
        maps := {MapBlock(sb, r.value)};
        AllocFills(sb, fs0, i, k, r.value);
        AllocSlack(sb, fs0, i, k, r.value, need);
        inodes := inodes[i := inodes[i].(addrs := inodes[i].addrs[k := r.value])];
        return;
      }
      r := Some(addr);
    }

    /** "if entry k of the indirect block is 0, store a new block there" (fs.c:389-395). */
    method BmapEntry(i: nat, k: nat, ghost need: set<nat>) returns (r: Option<nat>, ghost maps: set<nat>)
      requires Owned(sb, State()) && i < |inodes| && NDIRECT < k < NSLOTS && Addr(State(), i, NDIRECT) != 0 && Tracked() && k in need
      modifies this`blocks, this`logged
      ensures Tracked()
      ensures r.Some? ==> Filled(sb, old(State()), State(), i, k) && r.value == Addr(State(), i, k)
      ensures r.Some? ==> Owned(sb, State()) && |inodes| == |old(inodes)|
      ensures r.None? ==> State() == old(State()) && forall b :: 0 <= b < sb.size ==> Used(sb, blocks, b)
      ensures Shape(sb, State()) && Slack(sb, State(), i, need) == Slack(sb, old(State()), i, need) && (r.None? ==> Slack(sb, State(), i, need) < 0)
      ensures logged <= old(logged) + maps + (if r.Some? then {r.value, Addr(State(), i, NDIRECT)} else {})
      ensures |maps| <= if Addr(old(State()), i, k) == 0 then 1 else 0
      ensures Addr(old(State()), i, k) != 0 ==> r.Some? && State() == old(State()) && logged == old(logged)
    {
      hide WordOf, ByteOf, Tracks, Slack;
      maps := {};
      ghost var fs0 := State();
      SameBytesRefl(sb, fs0);
      var ind := inodes[i].addrs[NDIRECT];
      assert ind == Addr(fs0, i, NDIRECT);
      var addr := Word(blocks[ind], k - NDIRECT - 1);
      if addr == 0 {
        r := Balloc();
        if r.None? {
          SlackNegative(sb, fs0, i, k, need);
          return;
        }
        maps := {MapBlock(sb, r.value)};
        AllocFills(sb, fs0, i, k, r.value);
        AllocSlack(sb, fs0, i, k, r.value, need);
        TracksStore(sb, base, blocks, dinodes, logged, ind, PutWord(blocks[ind], k - NDIRECT - 1, r.value));
        blocks := blocks[ind := PutWord(blocks[ind], k - NDIRECT - 1, r.value)];
        logged := logged + {ind};
        return;
      }
      r := Some(addr);
    }

    /** itrunc (fs.c:408-435); true would be the panic of bfree.  It frees exactly the blocks the inode owned. */
    method Itrunc(i: nat) returns (panic: bool)
      requires Valid() && i < |inodes|
      modifies this
      ensures !panic && Valid() && |inodes| == |old(inodes)|
      ensures Content(sb, State(), i) == []
      ensures forall j :: 0 <= j < |inodes| && j != i ==> Content(sb, State(), j) == Content(sb, old(State()), j)
      ensures forall b :: 0 <= b < sb.size ==> (Used(sb, blocks, b) <==> Used(sb, old(blocks), b) && !Owns(old(State()), i, b))
      ensures forall k :: 0 <= k < NSLOTS ==> Addr(State(), i, k) == 0
    {
      hide Addr, Used, Dense, RawByte, Content, Released, Owns, SlotsOf, Tracks;
      ghost var fs := State();
      panic := TruncDirect(i);
      if panic { return; }
      ReleasedUse(sb, fs, State(), i, Below(NDIRECT), Below(NDIRECT));
      panic := TruncIndirect(fs, i);
      if panic { return; }
      ghost var fs1 := State();
      ReleasedUse(sb, fs, fs1, i, AllSlots(), AllSlots());
      inodes := inodes[i := inodes[i].(size := 0)];
      ghost var fs2 := State();
      ReleasedAll(sb, fs, fs1, fs2, i, AllSlots(), AllSlots());
      OwnedStorable(sb, fs2, i);
      Iupdate(i);
      BelowMapKeeps(sb, fs2, State());
    }

    /** itrunc's first loop (fs.c:414-419). */
    method TruncDirect(i: nat) returns (panic: bool)
      requires Owned(sb, State()) && i < |inodes| && Tracked()
      modifies this`blocks, this`inodes, this`logged
      ensures Tracked()
      ensures !panic && |inodes| == |old(inodes)| && Released(sb, old(State()), State(), i, Below(NDIRECT), Below(NDIRECT))
    {
      hide Addr, Used, Owned, Released, SlotsOf, Below, DirectAnd, AllSlots, Freed, Word, Tracks;
      ghost var fs := State();
      ReleasedNothing(sb, fs, i);
      BelowZero();
      var k := 0;
      while k < NDIRECT
        invariant 0 <= k <= NDIRECT && |inodes| == |fs.inodes| && Released(sb, fs, State(), i, Below(k), Below(k)) && Tracked()
      {
        panic := FreeDirect(fs, i, k);
        if panic { return; }
        k := k + 1;
      }
      return false;
    }

    method FreeDirect(ghost fs: Fs, i: nat, k: nat) returns (panic: bool)
      requires i < |inodes| && k < NDIRECT && Released(sb, fs, State(), i, Below(k), Below(k)) && Tracked()
      modifies this`blocks, this`inodes, this`logged
      ensures Tracked()
      ensures !panic && |inodes| == |old(inodes)| && Released(sb, fs, State(), i, Below(k + 1), Below(k + 1))
    {
      hide Addr, Used, Owned, Released, SlotsOf, Below, DirectAnd, AllSlots, Freed, Word, Tracks;
      ghost var fs1 := State();
      ReleasedUse(sb, fs, fs1, i, Below(k), Below(k));
      Forget(sb, fs, fs1, i, Below(k), Below(k), k);
      BelowNext(k);
      DirectAddr(fs1, i, k);
      var addr := inodes[i].addrs[k];
      if addr == 0 {
        SkipEmpty(sb, fs, Dropped(fs1, i, k), i, Below(k + 1), Below(k), k);
        DropZero(fs1, i, k);
        return false;
      }
      ReleasedSize(sb, fs, fs1, i, Below(k), Below(k));
      FreeForgotten(sb, fs, Dropped(fs1, i, k), i, Below(k + 1), Below(k), k);
      DroppedIs(fs1, i, k, Freed(sb, fs1.blocks, addr));
      panic := Bfree(addr);
      if panic { return; }
      inodes := inodes[i := inodes[i].(addrs := inodes[i].addrs[k := 0])];
    }

    /** The rest of itrunc (fs.c:421-431): the blocks listed in the indirect block, then that block itself. */
    method TruncIndirect(ghost fs: Fs, i: nat) returns (panic: bool)
      requires i < |inodes| && Released(sb, fs, State(), i, Below(NDIRECT), Below(NDIRECT)) && Tracked()
      modifies this`blocks, this`inodes, this`logged
      ensures Tracked()
      ensures !panic && Released(sb, fs, State(), i, AllSlots(), AllSlots())
    {
      hide Addr, Used, Owned, Released, SlotsOf, Below, DirectAnd, AllSlots, Freed, Word, Tracks;
      ghost var fs1 := State();
      ReleasedUse(sb, fs, fs1, i, Below(NDIRECT), Below(NDIRECT));
      DirectSlots();
      DirectAddr(fs1, i, NDIRECT);
      var ind := inodes[i].addrs[NDIRECT];
      if ind == 0 {
        ReleasedRest(sb, fs, fs1, i);
        return false;
      }
      Forget(sb, fs, fs1, i, Below(NDIRECT), Below(NDIRECT), NDIRECT);
      EntryAddrs(sb, fs, fs1, i);
      var a := blocks[ind];
      var j := 0;
      while j < NINDIRECT
        invariant 0 <= j <= NINDIRECT && inodes == fs1.inodes
        invariant Released(sb, fs, Dropped(State(), i, NDIRECT), i, AllSlots(), DirectAnd(j)) && Tracked()
      {
        panic := FreeEntry(fs, i, a, j);
        if panic { return; }
        j := j + 1;
      }
      ghost var fs2 := State();
      ReleasedSize(sb, fs, Dropped(fs2, i, NDIRECT), i, AllSlots(), DirectAnd(NINDIRECT));
      FreeForgotten(sb, fs, Dropped(fs2, i, NDIRECT), i, AllSlots(), DirectAnd(NINDIRECT), NDIRECT);
      DroppedIs(fs2, i, NDIRECT, Freed(sb, fs2.blocks, ind));
      panic := Bfree(ind);
      if panic { return; }
      inodes := inodes[i := inodes[i].(addrs := inodes[i].addrs[NDIRECT := 0])];
      return false;
    }

    /** One iteration over the indirect block (fs.c:425-426); the inode already counts as having let go of it. */
    method FreeEntry(ghost fs: Fs, i: nat, a: Block, j: nat) returns (panic: bool)
      requires i < |inodes| && |inodes[i].addrs| == NDIRECT + 1 && j < NINDIRECT && Tracked()
      requires Released(sb, fs, Dropped(State(), i, NDIRECT), i, AllSlots(), DirectAnd(j))
      requires i < |fs.inodes| && |fs.inodes[i].addrs| == NDIRECT + 1 && Addr(fs, i, NDIRECT + 1 + j) == Word(a, j)
      modifies this`blocks, this`logged
      ensures Tracked()
      ensures !panic && Released(sb, fs, Dropped(State(), i, NDIRECT), i, AllSlots(), DirectAnd(j + 1))
    {
      hide Addr, Used, Owned, Released, SlotsOf, Below, DirectAnd, AllSlots, Freed, Word, Tracks;
      ghost var fs1 := State();
      ghost var v := Dropped(fs1, i, NDIRECT);
      ReleasedUse(sb, fs, v, i, AllSlots(), DirectAnd(j));
      ReleasedSize(sb, fs, v, i, AllSlots(), DirectAnd(j));
      DirectAndNext(j);
      var addr := Word(a, j);
      if addr == 0 {
        SkipEmpty(sb, fs, v, i, AllSlots(), DirectAnd(j), NDIRECT + 1 + j);
        return false;
      }
      FreeForgotten(sb, fs, v, i, AllSlots(), DirectAnd(j), NDIRECT + 1 + j);
      DroppedIs(fs1, i, NDIRECT, Freed(sb, fs1.blocks, addr));
      panic := Bfree(addr);
    }

    /** readi (fs.c:453-476) on an inode that is not a device: a slice of the contents, and it allocates nothing. */
    method Readi(i: nat, off0: nat, n0: nat) returns (r: Option<seq<bv8>>)
      requires Valid() && i < |inodes| && off0 < UINT && n0 < UINT
      modifies this`blocks, this`inodes, this`logged
      ensures State() == old(State()) && logged == old(logged)
      ensures r.None? <==> off0 > inodes[i].size || off0 + n0 >= UINT
      ensures r.Some? ==> r.value == Content(sb, State(), i)[off0..Min(off0 + n0, inodes[i].size)]
    {
      hide Content, FsOk, Wraps, Tracks;
      var off, n, size := off0, n0, inodes[i].size;
      WrapsIff(off, n);
      if off > size || Wraps(off, n) { return None; }
      if off + n > size { n := size - off; }
      var dst := ReadLoop(i, off, n);
      return Some(dst);
    }

    /** readi's loop (fs.c:469-474). */
    method ReadLoop(i: nat, off0: nat, n: nat) returns (dst: seq<bv8>)
      requires FsOk(sb, State()) && i < |inodes| && off0 + n <= inodes[i].size && Tracked()
      modifies this`blocks, this`inodes, this`logged
      ensures State() == old(State()) && logged == old(logged)
      ensures dst == Content(sb, State(), i)[off0..off0 + n]
    {
      hide Content, FsOk, Owned, Dense, Tracks;
      ghost var fs := State();
      ContentFits(sb, fs, i);
      ghost var content := Content(sb, fs, i);
      var off, tot := off0, 0;
      dst := [];
      while tot < n
        invariant State() == fs && logged == old(logged)
        invariant 0 <= tot <= n && off == off0 + tot
        invariant dst == content[off0..off0 + tot]
        decreases n - tot
      {
        var m := PieceLen(off, n - tot);
        var piece := ReadPiece(i, off, m);
        SlicesJoin(content, off0, off, off + m);
        dst := dst + piece;
        tot, off := tot + m, off + m;
      }
    }

    /** One iteration of readi's loop (fs.c:470-473). */
    method ReadPiece(i: nat, off: nat, m: nat) returns (piece: seq<bv8>)
      requires FsOk(sb, State()) && i < |inodes| && BlockOff(off) + m <= BSIZE && off < inodes[i].size && off + m <= inodes[i].size && Tracked()
      modifies this`blocks, this`inodes, this`logged
      ensures State() == old(State()) && logged == old(logged)
      ensures piece == Content(sb, State(), i)[off..off + m]
    {
      hide Content, Owned, Addr, Mapped, Dense, Tracks;
      ghost var fs := State();
      HasBlock(sb, fs, i, off);
      var a, _, _ := Bmap(i, BlockNo(off), AllSlots());
      BlockIsContent(sb, fs, i, off, m);
      return blocks[a.value][BlockOff(off)..BlockOff(off) + m];
    }

    /** One iteration of writei's loop (fs.c:499-503): the bytes that fall into one block.
        It logs the blocks `dirty` and perhaps the indirect block. */
    method WritePiece(i: nat, off: nat, bytes: seq<bv8>, ghost need: set<nat>) returns (ok: bool, ghost dirty: set<nat>, ghost ind: set<nat>)
      requires Owned(sb, State()) && i < |inodes| && off < MAXFILE * BSIZE && BlockOff(off) + |bytes| <= BSIZE && Tracked() && Wanted(need, BlockNo(off))
      modifies this`blocks, this`inodes, this`logged
      ensures Owned(sb, State()) && Shape(sb, State()) && |inodes| == |old(inodes)| && Tracked()
      ensures Slack(sb, State(), i, need) == Slack(sb, old(State()), i, need) && (!ok ==> Slack(sb, State(), i, need) < 0)
      ensures ok ==> Wrote(sb, old(State()), State(), i, off, bytes)
      ensures ok ==> Logs(old(logged), logged, Addr(old(State()), i, NDIRECT), Addr(State(), i, NDIRECT),
                          Addr(old(State()), i, Slot(BlockNo(off))) == 0, 1, dirty, ind)
      ensures Addr(old(State()), i, Slot(BlockNo(off))) != 0 ==> ok && inodes == old(inodes)
      ensures !ok ==> |blocks| == sb.size && SuperOk(sb) && forall b :: 0 <= b < sb.size ==> Used(sb, blocks, b)
    {
      hide Mapped, SameBytes, Wrote, RawByte, Used, Splice, Addr, Logs, Tracks, Slack;
      dirty, ind := {}, {};
      ghost var fs := State();
      var r, maps, newInd := Bmap(i, BlockNo(off), need);
      if r.None? { return false, dirty, ind; }
      ghost var fs1 := State();
      MappedWrite(sb, fs, fs1, i, off, bytes);
      SpliceSlack(sb, fs1, i, off, bytes, need);
      LogsPiece(old(logged), logged, Addr(fs, i, NDIRECT), Addr(fs1, i, NDIRECT), Addr(fs, i, Slot(BlockNo(off))) == 0, maps, newInd, r.value);
      dirty, ind := maps + {r.value}, newInd;
      TracksStore(sb, base, blocks, dinodes, logged, r.value, Splice(blocks[r.value], BlockOff(off), bytes));
      blocks := blocks[r.value := Splice(blocks[r.value], BlockOff(off), bytes)];
      logged := logged + {r.value};
      return true, dirty, ind;
    }

    /** writei (fs.c:482-511) on an inode that is not a device.  OutOfBlocks is the panic of balloc.  `need` are the
        slots that this write fills, and perhaps those of a longer write that it is a part of. */
    method Writei(i: nat, src: seq<bv8>, off0: nat, ghost need: set<nat>) returns (r: WriteResult)
      requires Valid() && i < |inodes| && off0 < UINT && |src| < UINT
      requires off0 <= inodes[i].size && off0 + |src| <= MAXFILE * BSIZE ==> SlotsFor(off0, |src|) <= need
      modifies this`blocks, this`inodes, this`dinodes, this`logged
      ensures r == Rejected <==> off0 > old(inodes)[i].size || off0 + |src| >= UINT || off0 + |src| > MAXFILE * BSIZE
      ensures r == Rejected ==> Valid() && State() == old(State()) && dinodes == old(dinodes) && logged == old(logged)
      ensures r == OutOfBlocks ==> |blocks| == sb.size && SuperOk(sb) && forall b :: 0 <= b < sb.size ==> Used(sb, blocks, b)
      ensures r == OutOfBlocks ==> Slack(sb, old(State()), i, need) < 0
      ensures r == Written ==>
        && Valid() && |inodes| == |old(inodes)|
        && Content(sb, State(), i) == Overwritten(Content(sb, old(State()), i), off0, src)
        && (forall j :: 0 <= j < |inodes| && j != i ==> Content(sb, State(), j) == Content(sb, old(State()), j))
        && (|src| <= CHUNK ==> |logged - old(logged)| <= MAXOPBLOCKS)
      ensures r == Written ==> Slack(sb, State(), i, need) == Slack(sb, old(State()), i, need)
      ensures need == SlotsFor(off0, |src|) ==> (r == OutOfBlocks <==> r != Rejected && Slack(sb, old(State()), i, need) < 0)
    {
      hide Addr, Used, Owned, FsOk, Dense, Content, Overwritten, Wrote, WriteInv, Tally, PieceCount, Wraps, BlockNo, BlockOff, Tracks, Slack;
      ContentFits(sb, State(), i);
      var off, n := off0, |src|;
      WrapsIff(off, n);
      if off > inodes[i].size || Wraps(off, n) { return Rejected; }
      if off + n > MAXFILE * BSIZE { return Rejected; }
      ghost var fs, logged0 := State(), logged;
      var ok, t := WriteLoop(i, src, off, need);
      if !ok { return OutOfBlocks; }
      WriteInvDone(sb, fs, State(), logged0, logged, i, off0, src, t);
      ghost var fs1, logged1 := State(), logged;
      off := off + n;
      if n > 0 && off > inodes[i].size {
        inodes := inodes[i := inodes[i].(size := off)];
        ghost var fs2 := State();
        WroteContent(sb, fs, fs1, fs2, i, off0, src);
        WriteStorable(sb, fs2, i);
        Iupdate(i);
        BelowMapKeeps(sb, fs2, State());
        RaisedSlack(sb, fs1, fs2, State(), i, need);
      } else {
        WroteContent(sb, fs, fs1, State(), i, off0, src);
      }
      WrittenSlack(sb, fs, State(), i, off0, src);
      if n <= CHUNK {
        DirtiedBound(logged0, logged1, logged, Addr(fs, i, NDIRECT), Addr(fs1, i, NDIRECT), t, IBlock(sb, i), off0, n);
      }
      return Written;
    }

    /** writei's loop (fs.c:498-504); `t` records its iterations and what they logged. */
    method WriteLoop(i: nat, src: seq<bv8>, off0: nat, ghost need: set<nat>) returns (ok: bool, ghost t: Trace)
      requires FsOk(sb, State()) && i < |inodes| && off0 <= inodes[i].size && off0 + |src| <= MAXFILE * BSIZE && Tracked() && SlotsFor(off0, |src|) <= need
      modifies this`blocks, this`inodes, this`logged
      ensures Tracked() && Owned(sb, State()) && Shape(sb, State()) && i < |inodes| && Slack(sb, State(), i, need) == Slack(sb, old(State()), i, need)
      ensures !ok ==> Slack(sb, State(), i, need) < 0
      ensures !ok ==> |blocks| == sb.size && SuperOk(sb) && forall b :: 0 <= b < sb.size ==> Used(sb, blocks, b)
      ensures ok ==> WriteInv(sb, old(State()), State(), old(logged), logged, i, off0, src, |src|, t)
    {
      hide Addr, Used, Owned, FsOk, Dense, Content, Overwritten, Wrote, WriteInv, Tally, PieceCount, Wraps, BlockNo, BlockOff, Tracks, Slack;
      var off, tot := off0, 0;
      ghost var fs := State();
      t := Trace(0, {}, {});
      WriteInvInit(sb, fs, logged, i, off0, src);
      ContentFits(sb, fs, i);
      while tot < |src|
        invariant 0 <= tot <= |src| && off == off0 + tot && Tracked() && Owned(sb, State()) && Shape(sb, State()) && i < |inodes|
        invariant Slack(sb, State(), i, need) == Slack(sb, fs, i, need)
        invariant WriteInv(sb, fs, State(), old(logged), logged, i, off0, src, tot, t)
        decreases |src| - tot
      {
        WriteInvUse(sb, fs, State(), old(logged), logged, i, off0, src, tot, t);
        var m := PieceLen(off, |src| - tot);
        ghost var fs1, logged1 := State(), logged;
        WantedPiece(off0, |src|, off, need);
        var done, dirty, ind := WritePiece(i, off, src[tot..tot + m], need);
        if !done { return false, t; }
        WriteInvStep(sb, fs, fs1, State(), old(logged), logged1, logged, i, off0, off, src, tot, m, t, dirty, ind);
        t := t.And(dirty, ind);
        tot, off := tot + m, off + m;
      }
      return true, t;
    }
  }

  /** The size and the inode block do not count. */
  lemma RaisedSlack(sb: Super, fs1: Fs, fs2: Fs, fs3: Fs, i: nat, need: set<nat>)
    requires Owned(sb, fs1) && i < |fs1.inodes| && FsOk(sb, fs2) && fs3.inodes == fs2.inodes && |fs3.blocks| == |fs2.blocks|
    requires exists sz: nat :: fs2 == fs1.(inodes := fs1.inodes[i := fs1.inodes[i].(size := sz)])
    requires forall b :: sb.bmapstart <= b < sb.size ==> fs3.blocks[b] == fs2.blocks[b]
    ensures Shape(sb, fs3) && Slack(sb, fs3, i, need) == Slack(sb, fs1, i, need)
  {
    ResizeKeeps(sb, fs1, fs2, i);
    BelowMapKeeps(sb, fs2, fs3);
    hide Addr, Used, Content;
    SlackSame(sb, fs1, fs2, i, need);
    SlackSame(sb, fs2, fs3, i, need);
  }

  lemma WrittenSlack(sb: Super, fs: Fs, fs': Fs, i: nat, off: nat, src: seq<bv8>)
    requires FsOk(sb, fs) && FsOk(sb, fs') && i < |fs.inodes| && i < |fs'.inodes| && off <= fs.inodes[i].size
    requires Content(sb, fs', i) == Overwritten(Content(sb, fs, i), off, src)
    ensures Slack(sb, fs', i, SlotsFor(off, |src|)) >= 0
  {
    hide Owned, Dense, Addr, RawByte;
    assert |Content(sb, fs', i)| >= off + |src|;
    SlackDone(sb, fs', i, off, |src|);
  }

  lemma WriteStorable(sb: Super, fs: Fs, i: nat)
    requires FsOk(sb, fs) && i < |fs.inodes|
    ensures Storable(fs.inodes[i])
  {
    OwnedStorable(sb, fs, i);
  }

  /** The iterations of writei's loop so far and the blocks they logged. */
  datatype Trace = Trace(pieces: nat, dirty: set<nat>, ind: set<nat>) {
    ghost function And(newDirty: set<nat>, newInd: set<nat>): (t: Trace) {
      Trace(pieces + 1, dirty + newDirty, ind + newInd)
    }
  }

  /** The loop of writei has written the first tot bytes. */
  ghost predicate WriteInv(sb: Super, fs: Fs, fs': Fs, logged0: set<nat>, logged: set<nat>, i: nat, off0: nat, src: seq<bv8>, tot: nat, t: Trace) {
    && tot <= |src|
    && Wrote(sb, fs, fs', i, off0, src[..tot])
    && (off0 + tot <= fs.inodes[i].size ==> fs'.inodes == fs.inodes)
    && PieceCount(off0, tot, |src|, t.pieces)
    && Tally(logged0, logged, Addr(fs, i, NDIRECT), Addr(fs', i, NDIRECT), BlockOff(off0) != 0, t.pieces, t.dirty, t.ind)
  }

  lemma WriteInvInit(sb: Super, fs: Fs, logged: set<nat>, i: nat, off0: nat, src: seq<bv8>)
    requires FsOk(sb, fs) && i < |fs.inodes| && off0 <= fs.inodes[i].size
    ensures WriteInv(sb, fs, fs, logged, logged, i, off0, src, 0, Trace(0, {}, {}))
  {
    WroteNothing(sb, fs, i, off0);
    assert src[..0] == [];
  }

  lemma WriteInvUse(sb: Super, fs: Fs, fs': Fs, logged0: set<nat>, logged: set<nat>, i: nat, off0: nat, src: seq<bv8>, tot: nat, t: Trace)
    requires WriteInv(sb, fs, fs', logged0, logged, i, off0, src, tot, t)
    ensures Owned(sb, fs') && |fs'.inodes| == |fs.inodes| && i < |fs.inodes|
    ensures |fs.inodes[i].addrs| == |fs'.inodes[i].addrs| == NDIRECT + 1
  {
  }

  lemma WriteInvStep(sb: Super, fs: Fs, fs1: Fs, fs2: Fs, logged0: set<nat>, logged1: set<nat>, logged: set<nat>, i: nat, off0: nat, off: nat,
                     src: seq<bv8>, tot: nat, m: nat, t: Trace, newDirty: set<nat>, newInd: set<nat>)
    requires FsOk(sb, fs) && WriteInv(sb, fs, fs1, logged0, logged1, i, off0, src, tot, t)
    requires off0 <= fs.inodes[i].size && off0 + |src| <= MAXFILE * BSIZE && off == off0 + tot
    requires tot < |src| && m == PieceLen(off, |src| - tot)
    requires Wrote(sb, fs1, fs2, i, off, src[tot..tot + m])
    requires Logs(logged1, logged, Addr(fs1, i, NDIRECT), Addr(fs2, i, NDIRECT), Addr(fs1, i, Slot(BlockNo(off))) == 0, 1, newDirty, newInd)
    requires Addr(fs1, i, Slot(BlockNo(off))) != 0 ==> fs2.inodes == fs1.inodes
    ensures WriteInv(sb, fs, fs2, logged0, logged, i, off0, src, tot + m, t.And(newDirty, newInd))
  {
    hide Wrote, Owned, Addr, FsOk, Tally, PieceCount, BlockNo, BlockOff;
    WriteInvUse(sb, fs, fs1, logged0, logged1, i, off0, src, tot, t);
    WroteShape(sb, fs1, fs2, i, off, src[tot..tot + m]);
    var x, y, z := Addr(fs, i, NDIRECT), Addr(fs1, i, NDIRECT), Addr(fs2, i, NDIRECT);
    var newSlot := Addr(fs1, i, Slot(BlockNo(off))) == 0;
    WroteStep(sb, fs, fs1, fs2, i, off0, src, tot, m);
    PieceStep(off0, tot, |src|, t.pieces, m);
    FirstIsBacked(sb, fs, fs1, i, off0, src, tot, t.pieces);
    TallyStep(logged0, logged1, logged, x, y, z, BlockOff(off0) != 0, newSlot, t.pieces, t.dirty, t.ind, newDirty, newInd);
  }

  lemma WroteStep(sb: Super, fs: Fs, fs1: Fs, fs2: Fs, i: nat, off0: nat, src: seq<bv8>, tot: nat, m: nat)
    requires tot + m <= |src| && 0 < m
    requires FsOk(sb, fs) && Wrote(sb, fs, fs1, i, off0, src[..tot])
    requires off0 + |src| <= MAXFILE * BSIZE
    requires off0 + tot <= fs.inodes[i].size ==> fs1.inodes == fs.inodes
    requires Wrote(sb, fs1, fs2, i, off0 + tot, src[tot..tot + m])
    requires Addr(fs1, i, Slot(BlockNo(off0 + tot))) != 0 ==> fs2.inodes == fs1.inodes
    ensures Wrote(sb, fs, fs2, i, off0, src[..tot + m])
    ensures off0 + tot + m <= fs.inodes[i].size ==> fs2.inodes == fs.inodes
    ensures Addr(fs, i, NDIRECT) != 0 ==> Addr(fs1, i, NDIRECT) == Addr(fs, i, NDIRECT)
    ensures Addr(fs1, i, NDIRECT) != 0 ==> Addr(fs2, i, NDIRECT) == Addr(fs1, i, NDIRECT)
  {
    hide Wrote, Owned, Addr, FsOk;
    WroteBoth(sb, fs, fs1, fs2, i, off0, src[..tot], src[tot..tot + m]);
    assert src[..tot] + src[tot..tot + m] == src[..tot + m];
    WroteKeepsIndirect(sb, fs1, fs2, i, off0 + tot, src[tot..tot + m]);
    BackedBlock(sb, fs, fs1, i, off0, src[..tot], off0 + tot);
  }

  /** A partly covered first block lies below the end of the file, so it needs no allocation. */
  lemma FirstIsBacked(sb: Super, fs: Fs, fs1: Fs, i: nat, off0: nat, src: seq<bv8>, tot: nat, pieces: nat)
    requires tot < |src| && off0 + |src| <= MAXFILE * BSIZE
    requires FsOk(sb, fs) && Wrote(sb, fs, fs1, i, off0, src[..tot])
    requires off0 <= fs.inodes[i].size && PieceCount(off0, tot, |src|, pieces)
    ensures pieces == 0 && BlockOff(off0) != 0 ==> Addr(fs1, i, Slot(BlockNo(off0 + tot))) != 0
  {
    hide Wrote, Owned, Addr, FsOk;
    BackedBlock(sb, fs, fs1, i, off0, src[..tot], off0 + tot);
  }

  /** The log grew by at most the blocks `dirty` and the indirect block: `fixed` blocks, one more if the slot
      was empty, and one more if the indirect block's number changed from none (x) to y. */
  ghost predicate Logs(before: set<nat>, after: set<nat>, x: nat, y: nat, newSlot: bool, fixed: nat, dirty: set<nat>, ind: set<nat>) {
    && after <= before + dirty + ind
    && ind <= {y} - {0}
    && |dirty| <= fixed + (if newSlot then 1 else 0) + (if x == 0 && y != 0 then 1 else 0)
  }

  lemma LogsDirect(before: set<nat>, after: set<nat>, x: nat, newSlot: bool, maps: set<nat>, r: nat)
    requires after <= before + maps + {r} && |maps| <= if newSlot then 1 else 0
    ensures Logs(before, after - {r}, x, x, newSlot, 0, maps, {})
  {
  }

  /** bmap found or made the indirect block (a), then the entry (b). */
  lemma LogsIndirect(before: set<nat>, mid: set<nat>, after: set<nat>, x: nat, y: nat, newSlot: bool, a: set<nat>, b: set<nat>, r: nat)
    requires y != 0 && (x != 0 ==> x == y)
    requires mid <= before + a + {y} && |a| <= if x == 0 then 1 else 0
    requires after <= mid + b + {r, y} && |b| <= if newSlot then 1 else 0
    ensures Logs(before, after - {r}, x, y, newSlot, 0, a + b, {y})
  {
    UnionSize(a, b);
  }

  lemma LogsPiece(before: set<nat>, after: set<nat>, x: nat, y: nat, newSlot: bool, maps: set<nat>, ind: set<nat>, r: nat)
    requires Logs(before, after - {r}, x, y, newSlot, 0, maps, ind)
    ensures Logs(before, after + {r}, x, y, newSlot, 1, maps + {r}, ind)
  {
    UnionSize(maps, {r});
    assert after + {r} <= (after - {r}) + {r};
  }

  /** What k pieces of a write have logged: x and y are the indirect block's number before and after. */
  ghost predicate Tally(logged0: set<nat>, logged: set<nat>, x: nat, y: nat, unaligned: bool, k: nat, dirty: set<nat>, ind: set<nat>) {
    && logged <= logged0 + dirty + ind
    && ind <= {y} - {0}
    && |dirty| <= 2 * k - (if unaligned && k > 0 then 1 else 0) + (if x == 0 && y != 0 then 1 else 0)
  }

  lemma TallyStep(logged0: set<nat>, logged1: set<nat>, logged: set<nat>, x: nat, y: nat, z: nat, unaligned: bool, newSlot: bool,
                  k: nat, dirty: set<nat>, ind: set<nat>, newDirty: set<nat>, newInd: set<nat>)
    requires Tally(logged0, logged1, x, y, unaligned, k, dirty, ind)
    requires y != 0 ==> z == y
    requires x != 0 ==> y == x
    requires Logs(logged1, logged, y, z, newSlot, 1, newDirty, newInd)
    requires k == 0 && unaligned ==> !newSlot
    ensures Tally(logged0, logged, x, z, unaligned, k + 1, dirty + newDirty, ind + newInd)
  {
    UnionSize(dirty, newDirty);
  }

  lemma WroteShape(sb: Super, fs: Fs, fs': Fs, i: nat, off: nat, bytes: seq<bv8>)
    requires Wrote(sb, fs, fs', i, off, bytes)
    ensures |fs'.inodes| == |fs.inodes| && i < |fs.inodes| && |fs'.inodes[i].addrs| == NDIRECT + 1
  {
  }

  lemma WroteKeepsIndirect(sb: Super, fs: Fs, fs': Fs, i: nat, off: nat, bytes: seq<bv8>)
    requires Wrote(sb, fs, fs', i, off, bytes)
    ensures Addr(fs, i, NDIRECT) != 0 ==> Addr(fs', i, NDIRECT) == Addr(fs, i, NDIRECT)
  {
  }

  /** Below the old end of the file, and under a partly covered first block, there already is a block. */
  lemma BackedBlock(sb: Super, fs: Fs, fs1: Fs, i: nat, off0: nat, bytes: seq<bv8>, off: nat)
    requires FsOk(sb, fs) && Wrote(sb, fs, fs1, i, off0, bytes) && off < MAXFILE * BSIZE
    ensures BlockNo(off) * BSIZE < fs.inodes[i].size ==> Addr(fs1, i, Slot(BlockNo(off))) != 0
    ensures Addr(fs, i, NDIRECT) != 0 ==> Addr(fs1, i, NDIRECT) == Addr(fs, i, NDIRECT)
  {
    hide Addr, Used, RawByte;
    assert Dense(fs, i);
  }

  lemma PieceStep(off: nat, tot: nat, n: nat, k: nat, m: nat)
    requires PieceCount(off, tot, n, k) && tot < n && m == PieceLen(off + tot, n - tot)
    ensures PieceCount(off, tot + m, n, k + 1)
  {
    if k > 0 {
      assert BlockOff(off + tot) == 0 by { assert off + tot == BSIZE * (BlockNo(off)) + BSIZE * k; }
    }
  }

  predicate IsSlot(m: nat) {
    m < NSLOTS
  }

  /** The slots before k. */
  ghost function Below(k: nat): (s: set<nat>) {
    set m | 0 <= m < k && IsSlot(m)
  }

  ghost function AllSlots(): (s: set<nat>)
    ensures forall m :: 0 <= m < NSLOTS ==> m in s
  {
    set m | 0 <= m < NSLOTS && IsSlot(m)
  }

  /** The direct slots and the first j entries of the indirect block. */
  ghost function DirectAnd(j: nat): (s: set<nat>)
    requires j <= NINDIRECT
  {
    set m | 0 <= m <= NDIRECT + j && IsSlot(m) && m != NDIRECT
  }

  lemma BelowZero()
    ensures Below(0) == {}
  {
  }

  lemma BelowNext(k: nat)
    requires k < NDIRECT
    ensures Below(k) + SlotsOf(k) == Below(k + 1) && Below(k) + {k} == Below(k + 1)
    ensures k in Below(k + 1) && k !in Below(k)
  {
    assert forall m :: m in SlotsOf(k) <==> 0 <= m < NSLOTS && GoesWith(k, m);
    assert IsSlot(k);
  }

  lemma DirectSlots()
    ensures Below(NDIRECT) + SlotsOf(NDIRECT) == AllSlots() && Below(NDIRECT) == DirectAnd(0)
    ensures DirectAnd(NINDIRECT) + {NDIRECT} == AllSlots() && NDIRECT !in DirectAnd(NINDIRECT)
    ensures forall m :: 0 <= m < NSLOTS && m >= NDIRECT ==> m !in Below(NDIRECT)
  {
    assert forall m :: m in SlotsOf(NDIRECT) <==> 0 <= m < NSLOTS && GoesWith(NDIRECT, m);
    assert forall m :: 0 <= m < NSLOTS ==> IsSlot(m);
  }

  lemma DirectAndNext(j: nat)
    requires j < NINDIRECT
    ensures DirectAnd(j) + {NDIRECT + 1 + j} == DirectAnd(j + 1) && NDIRECT + 1 + j !in DirectAnd(j)
  {
    assert IsSlot(NDIRECT + 1 + j);
  }

  lemma DirectAddr(fs: Fs, i: nat, k: nat)
    requires i < |fs.inodes| && |fs.inodes[i].addrs| == NDIRECT + 1 && k <= NDIRECT
    ensures Addr(fs, i, k) == fs.inodes[i].addrs[k]
  {
  }

  lemma DropZero(fs: Fs, i: nat, k: nat)
    requires i < |fs.inodes| && |fs.inodes[i].addrs| == NDIRECT + 1 && k <= NDIRECT && fs.inodes[i].addrs[k] == 0
    ensures Dropped(fs, i, k) == fs
  {
    assert fs.inodes[i].addrs[k := 0] == fs.inodes[i].addrs;
    assert fs.inodes[i := fs.inodes[i]] == fs.inodes;
  }

  /** Dropping an address changes the inodes only, so it commutes with changing the blocks. */
  lemma DroppedIs(fs: Fs, i: nat, k: nat, blocks: seq<Block>)
    requires i < |fs.inodes| && |fs.inodes[i].addrs| == NDIRECT + 1 && k <= NDIRECT
    ensures Dropped(fs, i, k).blocks == fs.blocks
    ensures Dropped(fs, i, k).(blocks := blocks) == Dropped(fs.(blocks := blocks), i, k)
      == Fs(blocks, fs.inodes[i := fs.inodes[i].(addrs := fs.inodes[i].addrs[k := 0])])
  {
  }

  lemma ReleasedSize(sb: Super, fs: Fs, fs': Fs, i: nat, forgotten: set<nat>, freed: set<nat>)
    requires Released(sb, fs, fs', i, forgotten, freed)
    ensures SuperOk(sb) && |fs'.blocks| == sb.size
  {
  }

  /** Without an indirect block there is nothing left to free. */
  lemma ReleasedRest(sb: Super, fs: Fs, fs': Fs, i: nat)
    requires Released(sb, fs, fs', i, Below(NDIRECT), Below(NDIRECT)) && Addr(fs', i, NDIRECT) == 0
    ensures Released(sb, fs, fs', i, AllSlots(), AllSlots())
  {
    DirectSlots();
    assert Addr(fs, i, NDIRECT) == 0;
    assert forall m :: NDIRECT < m < NSLOTS ==> Addr(fs, i, m) == 0;
    hide Addr, Used;
    assert forall m :: 0 <= m < NSLOTS ==> (m in Below(NDIRECT) <==> m < NDIRECT) by { assert forall m :: 0 <= m < NSLOTS ==> IsSlot(m); }
    forall b | 0 <= b < sb.size ensures OwnsIn(fs, i, AllSlots(), b) <==> OwnsIn(fs, i, Below(NDIRECT), b) {
    }
  }

  /** The words of the indirect block are the addresses of the entry slots. */
  lemma EntryAddrs(sb: Super, fs: Fs, fs': Fs, i: nat)
    requires Released(sb, fs, fs', i, Below(NDIRECT), Below(NDIRECT)) && Addr(fs', i, NDIRECT) != 0
    ensures var ind := Addr(fs', i, NDIRECT);
      && ind == Addr(fs, i, NDIRECT) && ind < |fs'.blocks|
      && forall j :: 0 <= j < NINDIRECT ==> Addr(fs, i, NDIRECT + 1 + j) == Word(fs'.blocks[ind], j)
  {
    DirectSlots();
    hide Word, Used;
    assert Addr(fs', i, NDIRECT) == fs'.inodes[i].addrs[NDIRECT];
    forall j | 0 <= j < NINDIRECT ensures Addr(fs, i, NDIRECT + 1 + j) == Word(fs'.blocks[Addr(fs', i, NDIRECT)], j) {
      assert Addr(fs', i, NDIRECT + 1 + j) == Addr(fs, i, NDIRECT + 1 + j);
    }
  }

  lemma ReleasedUse(sb: Super, fs: Fs, fs': Fs, i: nat, forgotten: set<nat>, freed: set<nat>)
    requires Released(sb, fs, fs', i, forgotten, freed)
    ensures Owned(sb, fs) && Owned(sb, fs') && |fs'.inodes| == |fs.inodes| && i < |fs.inodes|
    ensures |fs.inodes[i].addrs| == |fs'.inodes[i].addrs| == NDIRECT + 1
    ensures forall j :: 0 <= j < |fs.inodes| && j != i ==> fs'.inodes[j] == fs.inodes[j]
    ensures forall m :: 0 <= m < NSLOTS && m !in forgotten ==> Addr(fs', i, m) == Addr(fs, i, m)
    ensures forall c :: sb.datastart <= c < sb.size ==> fs'.blocks[c] == fs.blocks[c]
  {
  }

  /** The bn-th block of inode i is allocated; no byte, no size, no allocated address and no other inode changes. */
  ghost predicate Mapped(sb: Super, fs: Fs, fs': Fs, i: nat, bn: nat) {
    && SameBytes(sb, fs, fs') && i < |fs.inodes| && bn < MAXFILE
    && Addr(fs', i, Slot(bn)) != 0
    && (forall j, m :: 0 <= j < |fs.inodes| && 0 <= m < NSLOTS && !(j == i && (m == Slot(bn) || (m == NDIRECT && bn >= NDIRECT))) ==>
          Addr(fs', j, m) == Addr(fs, j, m))
    && (forall j :: 0 <= j < |fs.inodes| && j != i ==> fs'.inodes[j] == fs.inodes[j])
  }

  lemma EntryNeedsIndirect(sb: Super, fs: Fs, i: nat, bn: nat)
    requires Owned(sb, fs) && i < |fs.inodes| && bn < MAXFILE
    ensures bn >= NDIRECT && Addr(fs, i, Slot(bn)) != 0 ==> Addr(fs, i, NDIRECT) != 0
  {
  }

  lemma FilledOnce(sb: Super, fs: Fs, fs': Fs, i: nat, bn: nat)
    requires bn < NDIRECT && Filled(sb, fs, fs', i, bn)
    ensures Mapped(sb, fs, fs', i, bn) && Addr(fs', i, NDIRECT) == Addr(fs, i, NDIRECT)
  {
  }

  lemma FilledIndirect(sb: Super, fs: Fs, fs': Fs, i: nat, bn: nat)
    requires NDIRECT <= bn < MAXFILE && Filled(sb, fs, fs', i, NDIRECT)
    ensures Owned(sb, fs') && |fs'.inodes| == |fs.inodes| && Addr(fs', i, NDIRECT) != 0 && Addr(fs', i, bn + 1) == Addr(fs, i, bn + 1)
  {
    hide Addr;
  }

  lemma FilledTwice(sb: Super, fs: Fs, fs1: Fs, fs': Fs, i: nat, bn: nat)
    requires NDIRECT <= bn < MAXFILE && Filled(sb, fs, fs1, i, NDIRECT) && Filled(sb, fs1, fs', i, bn + 1)
    ensures Mapped(sb, fs, fs', i, bn) && Addr(fs', i, NDIRECT) == Addr(fs1, i, NDIRECT) != 0
  {
    hide Addr, RawByte, Used;
    SameBytesTrans(sb, fs, fs1, fs');
  }

  lemma MappedWrite(sb: Super, fs: Fs, fs1: Fs, i: nat, off: nat, bytes: seq<bv8>)
    requires off < MAXFILE * BSIZE && BlockOff(off) + |bytes| <= BSIZE && Mapped(sb, fs, fs1, i, BlockNo(off))
    ensures Owned(sb, fs1) && i < |fs1.inodes| && sb.datastart <= Addr(fs1, i, Slot(BlockNo(off))) < |fs1.blocks|
    ensures var a := Addr(fs1, i, Slot(BlockNo(off)));
      var fs2 := fs1.(blocks := fs1.blocks[a := Splice(fs1.blocks[a], BlockOff(off), bytes)]);
      && Wrote(sb, fs, fs2, i, off, bytes) && Owned(sb, fs2) && Addr(fs2, i, NDIRECT) == Addr(fs1, i, NDIRECT)
  {
    hide Addr, Used, RawByte, Splice;
    WroteInBlock(sb, fs, fs1, i, off, bytes);
    WriteBlock(sb, fs1, i, off, bytes);
  }

  lemma SpliceSlack(sb: Super, fs: Fs, i: nat, off: nat, bytes: seq<bv8>, need: set<nat>)
    requires Owned(sb, fs) && i < |fs.inodes| && off < MAXFILE * BSIZE && BlockOff(off) + |bytes| <= BSIZE
    requires Addr(fs, i, Slot(BlockNo(off))) != 0
    ensures var a := Addr(fs, i, Slot(BlockNo(off)));
      a < |fs.blocks| && var fs' := fs.(blocks := fs.blocks[a := Splice(fs.blocks[a], BlockOff(off), bytes)]);
      Shape(sb, fs') && Slack(sb, fs', i, need) == Slack(sb, fs, i, need)
  {
    hide Addr, Used, RawByte, Splice;
    WriteBlock(sb, fs, i, off, bytes);
    var a := Addr(fs, i, Slot(BlockNo(off)));
    SlackSame(sb, fs, fs.(blocks := fs.blocks[a := Splice(fs.blocks[a], BlockOff(off), bytes)]), i, need);
  }

  lemma UnionSize(a: set<nat>, b: set<nat>)
    ensures |a + b| <= |a| + |b|
  {
    assert |a + b| == |a| + |b| - |a * b|;
  }

  lemma BlockIsContent(sb: Super, fs: Fs, i: nat, off: nat, m: nat)
    requires FsOk(sb, fs) && i < |fs.inodes| && off + m <= fs.inodes[i].size && BlockOff(off) + m <= BSIZE && off < MAXFILE * BSIZE
    requires Addr(fs, i, Slot(BlockNo(off))) != 0
    ensures fs.blocks[Addr(fs, i, Slot(BlockNo(off)))][BlockOff(off)..BlockOff(off) + m] == Content(sb, fs, i)[off..off + m]
  {
    hide Addr, Used;
    assert off == BSIZE * (BlockNo(off)) + BlockOff(off);
    var block, content := fs.blocks[Addr(fs, i, Slot(BlockNo(off)))], Content(sb, fs, i);
    forall p | off <= p < off + m ensures content[p] == block[BlockOff(off) + p - off] {
      assert p / BSIZE == BlockNo(off) && p % BSIZE == BlockOff(off) + p - off;
    }
  }

  lemma ContentFits(sb: Super, fs: Fs, i: nat)
    requires FsOk(sb, fs) && i < |fs.inodes|
    ensures Owned(sb, fs) && Shape(sb, fs) && fs.inodes[i].size <= MAXFILE * BSIZE
  {
  }

  lemma SlicesJoin(s: seq<bv8>, a: nat, b: nat, c: nat)
    requires a <= b <= c <= |s|
    ensures s[a..b] + s[b..c] == s[a..c]
  {
  }

  lemma HasBlock(sb: Super, fs: Fs, i: nat, off: nat)
    requires FsOk(sb, fs) && i < |fs.inodes| && off < fs.inodes[i].size
    ensures BlockNo(off) < MAXFILE && Addr(fs, i, Slot(BlockNo(off))) != 0
    ensures 0 < Addr(fs, i, Slot(BlockNo(off))) < |fs.blocks|
  {
    assert Dense(fs, i);
  }

  // ---- How many blocks a write touches ----

  /** After k iterations tot bytes are written; before the last one, up to a block boundary. */
  ghost predicate PieceCount(off: nat, tot: nat, n: nat, k: nat) {
    && (k == 0 <==> tot == 0)
    && BSIZE * k <= BlockOff(off) + tot + BSIZE - 1
    && (k > 0 && tot < n ==> BlockOff(off) + tot == BSIZE * k)
  }

  /** A transaction of filewrite: at most 4 data, 4 free-map, 1 indirect and 1 inode block. */
  lemma DirtiedBound(logged0: set<nat>, logged1: set<nat>, logged: set<nat>, x: nat, y: nat, t: Trace, iblock: nat, off: nat, n: nat)
    requires PieceCount(off, n, n, t.pieces) && Tally(logged0, logged1, x, y, BlockOff(off) != 0, t.pieces, t.dirty, t.ind)
    requires logged <= logged1 + {iblock} && n <= CHUNK
    ensures |logged - logged0| <= MAXOPBLOCKS
  {
    SubsetSize(t.ind, {y});
    UnionSize(t.dirty, t.ind);
    UnionSize(t.dirty + t.ind, {iblock});
    SubsetSize(logged - logged0, t.dirty + t.ind + {iblock});
  }

  lemma WriteInvDone(sb: Super, fs: Fs, fs': Fs, logged0: set<nat>, logged: set<nat>, i: nat, off0: nat, src: seq<bv8>, t: Trace)
    requires WriteInv(sb, fs, fs', logged0, logged, i, off0, src, |src|, t)
    ensures Wrote(sb, fs, fs', i, off0, src)
    ensures i < |fs.inodes| && (off0 + |src| <= fs.inodes[i].size ==> fs'.inodes == fs.inodes)
    ensures PieceCount(off0, |src|, |src|, t.pieces)
    ensures Owned(sb, fs) && Owned(sb, fs') && |fs'.inodes| == |fs.inodes|
    ensures |fs.inodes[i].addrs| == |fs'.inodes[i].addrs| == NDIRECT + 1 && fs'.inodes[i].size == fs.inodes[i].size
    ensures forall j :: 0 <= j < |fs.inodes| && j != i ==> fs'.inodes[j] == fs.inodes[j]
    ensures Tally(logged0, logged, Addr(fs, i, NDIRECT), Addr(fs', i, NDIRECT), BlockOff(off0) != 0, t.pieces, t.dirty, t.ind)
  {
    assert src[..|src|] == src;
  }
}
