/** The file system's blocks and inodes (fs.c) as values: who owns which block, and what a file contains. */
module FsState {
  import opened BlockBytes

  const NDIRECT: nat := 12
  const MAXFILE: nat := NDIRECT + NINDIRECT
  /** The address slots of an inode: its direct blocks, its indirect block, the blocks listed there. */
  const NSLOTS: nat := NDIRECT + 1 + NINDIRECT
  const IPB: nat := 8           // inodes per block
  const DINODE_WORDS: nat := 16 // sizeof(struct dinode) / 4: type, major, minor, nlink; size; addrs

  datatype Super = Super(size: nat, bmapstart: nat, inodestart: nat, datastart: nat)

  /** ip->size and ip->addrs */
  datatype Inode = Inode(size: nat, addrs: seq<nat>)

  datatype Fs = Fs(blocks: seq<Block>, inodes: seq<Inode>)

  /** The layout mkfs writes: inodes, then the free map, then the data blocks. */
  ghost predicate SuperOk(sb: Super) {
    && 0 < sb.datastart <= sb.size < 0x1_0000_0000
    && sb.bmapstart + (sb.size - 1) / BPB < sb.datastart
    && sb.inodestart <= sb.bmapstart
  }

  ghost predicate Shape(sb: Super, fs: Fs) {
    && SuperOk(sb)
    && |fs.blocks| == sb.size
    && |fs.inodes| <= (sb.bmapstart - sb.inodestart) * IPB
    && forall i :: 0 <= i < |fs.inodes| ==> |fs.inodes[i].addrs| == NDIRECT + 1
  }

  /** BBLOCK(b, sb) */
  function MapBlock(sb: Super, b: nat): (r: nat)
    requires SuperOk(sb) && b < sb.size
    ensures r < sb.datastart
  {
    b / BPB + sb.bmapstart
  }

  predicate Used(sb: Super, blocks: seq<Block>, b: nat)
    requires SuperOk(sb) && |blocks| == sb.size && b < sb.size
  {
    Bit(blocks[MapBlock(sb, b)], b % BPB)
  }

  /** The block number in address slot k of inode i; 0 is "none". */
  function Addr(fs: Fs, i: nat, k: nat): (a: nat)
    requires i < |fs.inodes| && |fs.inodes[i].addrs| == NDIRECT + 1 && k < NSLOTS
  {
    var addrs := fs.inodes[i].addrs;
    if k <= NDIRECT then addrs[k]
    else if 0 < addrs[NDIRECT] < |fs.blocks| then Word(fs.blocks[addrs[NDIRECT]], k - NDIRECT - 1)
    else 0
  }

  /** off / BSIZE */
  function BlockNo(off: nat): (bn: nat) {
    off / BSIZE
  }

  /** off % BSIZE */
  function BlockOff(off: nat): (o: nat) {
    off % BSIZE
  }

  /** The slot that holds the address of the bn-th block of a file. */
  function Slot(bn: nat): (k: nat)
    requires bn < MAXFILE
    ensures k < NSLOTS && k != NDIRECT
  {
    if bn < NDIRECT then bn else bn + 1
  }

  /** Metadata is marked used; every address is a data block marked used; no block has two owners. */
  ghost predicate Owned(sb: Super, fs: Fs) {
    && Shape(sb, fs)
    && (forall b :: 0 <= b < sb.datastart ==> Used(sb, fs.blocks, b))
    && (forall i, k :: 0 <= i < |fs.inodes| && 0 <= k < NSLOTS && Addr(fs, i, k) != 0 ==>
          sb.datastart <= Addr(fs, i, k) < sb.size && Used(sb, fs.blocks, Addr(fs, i, k)))
    && (forall i, k, j, m | 0 <= i < |fs.inodes| && 0 <= k < NSLOTS && 0 <= j < |fs.inodes| && 0 <= m < NSLOTS ::
          Addr(fs, i, k) != 0 && Addr(fs, i, k) == Addr(fs, j, m) ==> i == j && k == m)
  }

  // ---- Allocating a block ----

  /** balloc's effect when it takes block b: mark it, zero it. */
  function Alloc(sb: Super, blocks: seq<Block>, b: nat): (r: seq<Block>)
    requires SuperOk(sb) && |blocks| == sb.size && b < sb.size
    ensures |r| == |blocks|
  {
    blocks[MapBlock(sb, b) := SetBit(blocks[MapBlock(sb, b)], b % BPB)][b := Zero()]
  }

  lemma MapBlocksDiffer(sb: Super, b: nat, c: nat)
    requires SuperOk(sb) && b < sb.size && c < sb.size && b != c
    ensures MapBlock(sb, b) != MapBlock(sb, c) || b % BPB != c % BPB
  {
  }

  lemma AllocUsed(sb: Super, fs: Fs, b: nat, c: nat)
    requires Owned(sb, fs) && sb.datastart <= b < sb.size && c < sb.size
    ensures Used(sb, Alloc(sb, fs.blocks, b), c) <==> c == b || Used(sb, fs.blocks, c)
  {
    if b != c { MapBlocksDiffer(sb, b, c); }
    if MapBlock(sb, b) == MapBlock(sb, c) {
      BlockBits(fs.blocks[MapBlock(sb, b)], b % BPB, c % BPB);
    }
  }

  /** Taking a free block disturbs no address, no other block and no ownership. */
  lemma AllocKeeps(sb: Super, fs: Fs, b: nat)
    requires Owned(sb, fs) && b < sb.size && !Used(sb, fs.blocks, b)
    ensures sb.datastart <= b
    ensures var fs' := fs.(blocks := Alloc(sb, fs.blocks, b));
      && Owned(sb, fs') && Used(sb, fs'.blocks, b) && fs'.blocks[b] == Zero()
      && (forall i, k :: 0 <= i < |fs.inodes| && 0 <= k < NSLOTS ==> Addr(fs', i, k) == Addr(fs, i, k) && Addr(fs', i, k) != b)
      && (forall c :: sb.datastart <= c < sb.size && c != b ==> fs'.blocks[c] == fs.blocks[c])
      && (forall c :: 0 <= c < sb.size ==> (Used(sb, fs'.blocks, c) <==> c == b || Used(sb, fs.blocks, c)))
  {
    hide Bit, BlockBytes.SetBit;
    var fs' := fs.(blocks := Alloc(sb, fs.blocks, b));
    forall c | 0 <= c < sb.size ensures Used(sb, fs'.blocks, c) <==> c == b || Used(sb, fs.blocks, c) {
      AllocUsed(sb, fs, b, c);
    }
    forall i, k | 0 <= i < |fs.inodes| && 0 <= k < NSLOTS
      ensures Addr(fs', i, k) == Addr(fs, i, k) && Addr(fs', i, k) != b
    {
      assert Addr(fs, i, NDIRECT) == fs.inodes[i].addrs[NDIRECT];
    }
  }

  // ---- Giving a block to an inode ----

  /** Store block number b in slot k of inode i. */
  function Assign(fs: Fs, i: nat, k: nat, b: nat): (r: Fs)
    requires i < |fs.inodes| && |fs.inodes[i].addrs| == NDIRECT + 1 && k < NSLOTS && b < 0x1_0000_0000
    requires k > NDIRECT ==> fs.inodes[i].addrs[NDIRECT] < |fs.blocks|
  {
    if k <= NDIRECT then
      fs.(inodes := fs.inodes[i := fs.inodes[i].(addrs := fs.inodes[i].addrs[k := b])])
    else
      fs.(blocks := fs.blocks[fs.inodes[i].addrs[NDIRECT] :=
            PutWord(fs.blocks[fs.inodes[i].addrs[NDIRECT]], k - NDIRECT - 1, b)])
  }

  /** Block b is marked used and zeroed and belongs to nobody. */
  ghost predicate Fresh(sb: Super, fs: Fs, b: nat) {
    && Owned(sb, fs)
    && sb.datastart <= b < sb.size && Used(sb, fs.blocks, b) && fs.blocks[b] == Zero()
    && forall i, k :: 0 <= i < |fs.inodes| && 0 <= k < NSLOTS ==> Addr(fs, i, k) != b
  }

  ghost predicate Assignable(sb: Super, fs: Fs, i: nat, k: nat) {
    && Owned(sb, fs) && i < |fs.inodes| && k < NSLOTS && Addr(fs, i, k) == 0
    && (k > NDIRECT ==> Addr(fs, i, NDIRECT) != 0)
  }

  lemma AssignAddr(sb: Super, fs: Fs, i: nat, k: nat, b: nat, j: nat, m: nat)
    requires Fresh(sb, fs, b) && Assignable(sb, fs, i, k) && j < |fs.inodes| && m < NSLOTS
    ensures Addr(Assign(fs, i, k, b), j, m) == if j == i && m == k then b else Addr(fs, j, m)
  {
    hide Word, PutWord, Used, Zero;
    var ind, ind' := fs.inodes[i].addrs[NDIRECT], fs.inodes[j].addrs[NDIRECT];
    assert ind == Addr(fs, i, NDIRECT) && ind' == Addr(fs, j, NDIRECT);
    if k == NDIRECT && j == i && m > NDIRECT { ZeroBlock(m - NDIRECT - 1); }
    if k > NDIRECT && m > NDIRECT { PutWordAt(fs.blocks[ind], k - NDIRECT - 1, b, m - NDIRECT - 1); }
  }

  lemma AssignKeeps(sb: Super, fs: Fs, i: nat, k: nat, b: nat)
    requires Fresh(sb, fs, b) && Assignable(sb, fs, i, k)
    ensures Owned(sb, Assign(fs, i, k, b)) && SameBytes(sb, fs, Assign(fs, i, k, b))
    ensures forall c :: 0 <= c < sb.size ==> Used(sb, Assign(fs, i, k, b).blocks, c) == Used(sb, fs.blocks, c)
  {
    hide Addr, Assign, Bit;
    AssignBlocks(sb, fs, i, k, b);
    var fs' := Assign(fs, i, k, b);
    forall j, m | 0 <= j < |fs.inodes| && 0 <= m < NSLOTS
      ensures Addr(fs', j, m) == if j == i && m == k then b else Addr(fs, j, m)
    {
      AssignAddr(sb, fs, i, k, b, j, m);
    }
    assert forall c :: 0 <= c < sb.size ==> Used(sb, fs'.blocks, c) == Used(sb, fs.blocks, c);
    hide Used;
    assert Owned(sb, fs');
    assert forall j, m :: 0 <= j < |fs.inodes| && 0 <= m < NSLOTS && m != NDIRECT && Addr(fs, j, m) != 0 ==>
      fs'.blocks[Addr(fs, j, m)] == fs.blocks[Addr(fs, j, m)];
  }

  /** Assigning a slot changes at most the indirect block. */
  lemma AssignBlocks(sb: Super, fs: Fs, i: nat, k: nat, b: nat)
    requires Fresh(sb, fs, b) && Assignable(sb, fs, i, k)
    ensures Addr(fs, i, NDIRECT) == fs.inodes[i].addrs[NDIRECT] < |fs.blocks|
    ensures var fs' := Assign(fs, i, k, b);
      && |fs'.blocks| == sb.size && |fs'.inodes| == |fs.inodes|
      && (forall c :: 0 <= c < sb.size && c != Addr(fs, i, NDIRECT) ==> fs'.blocks[c] == fs.blocks[c])
      && (forall c :: 0 <= c < sb.datastart ==> fs'.blocks[c] == fs.blocks[c])
      && (forall j :: 0 <= j < |fs.inodes| ==> |fs'.inodes[j].addrs| == NDIRECT + 1 && fs'.inodes[j].size == fs.inodes[j].size)
  {
    assert Addr(fs, i, NDIRECT) == fs.inodes[i].addrs[NDIRECT];
  }

  // ---- Contents ----

  /** The byte at offset p of the space addressed by inode i; unallocated blocks read as zero. */
  function RawByte(sb: Super, fs: Fs, i: nat, p: nat): (b: bv8)
    requires Owned(sb, fs) && i < |fs.inodes| && p < MAXFILE * BSIZE
  {
    if Addr(fs, i, Slot(p / BSIZE)) == 0 then 0
    else fs.blocks[Addr(fs, i, Slot(p / BSIZE))][p % BSIZE]
  }

  /** No byte of any file and no allocated address changes. */
  ghost predicate SameBytes(sb: Super, fs: Fs, fs': Fs) {
    && Owned(sb, fs) && Owned(sb, fs') && |fs'.inodes| == |fs.inodes|
    && (forall i :: 0 <= i < |fs.inodes| ==> fs'.inodes[i].size == fs.inodes[i].size)
    && (forall i, k :: 0 <= i < |fs.inodes| && 0 <= k < NSLOTS && Addr(fs, i, k) != 0 ==> Addr(fs', i, k) == Addr(fs, i, k))
    && (forall i, p :: 0 <= i < |fs.inodes| && 0 <= p < MAXFILE * BSIZE ==> RawByte(sb, fs', i, p) == RawByte(sb, fs, i, p))
  }

  lemma AllocSameBytes(sb: Super, fs: Fs, b: nat)
    requires Owned(sb, fs) && b < sb.size && !Used(sb, fs.blocks, b)
    ensures var fs' := fs.(blocks := Alloc(sb, fs.blocks, b));
      Fresh(sb, fs', b) && SameBytes(sb, fs, fs')
  {
    AllocKeeps(sb, fs, b);
    hide Addr, Used, Alloc;
  }

  lemma SameBytesTrans(sb: Super, fs0: Fs, fs1: Fs, fs2: Fs)
    requires SameBytes(sb, fs0, fs1) && SameBytes(sb, fs1, fs2)
    ensures SameBytes(sb, fs0, fs2)
  {
    hide Addr, RawByte, Owned;
  }

  /** Replace m bytes of a block. */
  function Splice(b: Block, at: nat, src: seq<bv8>): (r: Block)
    requires at + |src| <= BSIZE
    ensures forall q :: 0 <= q < BSIZE ==> r[q] == if at <= q < at + |src| then src[q - at] else b[q]
  {
    b[..at] + src + b[at + |src|..]
  }

  /** Writing bytes into one block of a file changes exactly those bytes of that file. */
  lemma WriteBlock(sb: Super, fs: Fs, i: nat, off: nat, src: seq<bv8>)
    requires Owned(sb, fs) && i < |fs.inodes| && off < MAXFILE * BSIZE && off % BSIZE + |src| <= BSIZE
    requires Addr(fs, i, Slot(off / BSIZE)) != 0
    ensures var a := Addr(fs, i, Slot(off / BSIZE));
      var fs' := fs.(blocks := fs.blocks[a := Splice(fs.blocks[a], off % BSIZE, src)]);
      && Owned(sb, fs')
      && (forall j, m :: 0 <= j < |fs.inodes| && 0 <= m < NSLOTS ==> Addr(fs', j, m) == Addr(fs, j, m))
      && (forall j, p :: 0 <= j < |fs.inodes| && 0 <= p < MAXFILE * BSIZE ==>
            RawByte(sb, fs', j, p) == if j == i && off <= p < off + |src| then src[p - off] else RawByte(sb, fs, j, p))
      && (forall c :: 0 <= c < sb.size ==> Used(sb, fs'.blocks, c) == Used(sb, fs.blocks, c))
  {
    hide Bit;
    var a := Addr(fs, i, Slot(off / BSIZE));
    var fs' := fs.(blocks := fs.blocks[a := Splice(fs.blocks[a], off % BSIZE, src)]);
    assert forall c :: 0 <= c < sb.datastart ==> fs'.blocks[c] == fs.blocks[c];
    assert forall c :: 0 <= c < sb.size ==> Used(sb, fs'.blocks, c) == Used(sb, fs.blocks, c);
    forall j, m | 0 <= j < |fs.inodes| && 0 <= m < NSLOTS ensures Addr(fs', j, m) == Addr(fs, j, m) {
      assert Addr(fs, j, NDIRECT) == fs.inodes[j].addrs[NDIRECT];
    }
    forall j, p | 0 <= j < |fs.inodes| && 0 <= p < MAXFILE * BSIZE
      ensures RawByte(sb, fs', j, p) == if j == i && off <= p < off + |src| then src[p - off] else RawByte(sb, fs, j, p)
    {
      WrittenByte(sb, fs, fs', i, off, src, j, p);
    }
  }

  lemma WrittenByte(sb: Super, fs: Fs, fs': Fs, i: nat, off: nat, src: seq<bv8>, j: nat, p: nat)
    requires Owned(sb, fs) && Owned(sb, fs') && |fs'.inodes| == |fs.inodes|
    requires i < |fs.inodes| && off < MAXFILE * BSIZE && off % BSIZE + |src| <= BSIZE
    requires j < |fs.inodes| && p < MAXFILE * BSIZE
    requires forall j, m :: 0 <= j < |fs.inodes| && 0 <= m < NSLOTS ==> Addr(fs', j, m) == Addr(fs, j, m)
    requires var a := Addr(fs, i, Slot(off / BSIZE));
      a != 0 && fs'.blocks == fs.blocks[a := Splice(fs.blocks[a], off % BSIZE, src)]
    ensures RawByte(sb, fs', j, p) == if j == i && off <= p < off + |src| then src[p - off] else RawByte(sb, fs, j, p)
  {
    hide Addr, Splice;
    var a, c := Addr(fs, i, Slot(off / BSIZE)), Addr(fs, j, Slot(p / BSIZE));
    assert p == BSIZE * (p / BSIZE) + p % BSIZE && off == BSIZE * (off / BSIZE) + off % BSIZE;
    if a == c {
      assert j == i && p / BSIZE == off / BSIZE;
      assert fs'.blocks[a][p % BSIZE] == Splice(fs.blocks[a], off % BSIZE, src)[p % BSIZE];
    } else {
      assert j == i ==> p / BSIZE != off / BSIZE;
    }
  }

  /** Every byte below the size of a file is backed by a block. */
  ghost predicate Dense(fs: Fs, i: nat)
    requires i < |fs.inodes| && |fs.inodes[i].addrs| == NDIRECT + 1
  {
    forall bn :: 0 <= bn < MAXFILE && bn * BSIZE < fs.inodes[i].size ==> Addr(fs, i, Slot(bn)) != 0
  }

  ghost predicate FsOk(sb: Super, fs: Fs) {
    && Owned(sb, fs)
    && forall i :: 0 <= i < |fs.inodes| ==> fs.inodes[i].size <= MAXFILE * BSIZE && Dense(fs, i)
  }

  /** The file's contents. */
  function Content(sb: Super, fs: Fs, i: nat): (s: seq<bv8>)
    requires Owned(sb, fs) && i < |fs.inodes| && fs.inodes[i].size <= MAXFILE * BSIZE
    ensures |s| == fs.inodes[i].size
  {
    seq(fs.inodes[i].size, p requires 0 <= p < fs.inodes[i].size => RawByte(sb, fs, i, p))
  }

  lemma SameBytesRefl(sb: Super, fs: Fs)
    requires Owned(sb, fs)
    ensures SameBytes(sb, fs, fs)
  {
  }

  /** Slot k of inode i is filled, and no other slot, byte or size changes. */
  ghost predicate Filled(sb: Super, fs: Fs, fs': Fs, i: nat, k: nat) {
    && SameBytes(sb, fs, fs') && i < |fs.inodes| && k < NSLOTS
    && Addr(fs', i, k) != 0
    && (Addr(fs, i, k) != 0 ==> fs' == fs)
    && (forall j, m :: 0 <= j < |fs.inodes| && 0 <= m < NSLOTS && !(j == i && m == k) ==> Addr(fs', j, m) == Addr(fs, j, m))
    && (forall j :: 0 <= j < |fs.inodes| && (j != i || k > NDIRECT) ==> fs'.inodes[j] == fs.inodes[j])
  }

  /** Allocating a block and storing its number in an empty slot fills that slot. */
  lemma AllocFills(sb: Super, fs: Fs, i: nat, k: nat, b: nat)
    requires Assignable(sb, fs, i, k) && b < sb.size && !Used(sb, fs.blocks, b)
    ensures var fs1 := fs.(blocks := Alloc(sb, fs.blocks, b));
      Assignable(sb, fs1, i, k) && Filled(sb, fs, Assign(fs1, i, k, b), i, k) && Addr(Assign(fs1, i, k, b), i, k) == b
  {
    var fs1 := fs.(blocks := Alloc(sb, fs.blocks, b));
    AllocKeeps(sb, fs, b);
    AllocSameBytes(sb, fs, b);
    var fs2 := Assign(fs1, i, k, b);
    AssignKeeps(sb, fs1, i, k, b);
    SameBytesTrans(sb, fs, fs1, fs2);
    forall j, m | 0 <= j < |fs.inodes| && 0 <= m < NSLOTS
      ensures Addr(fs2, j, m) == if j == i && m == k then b else Addr(fs, j, m)
    {
      AssignAddr(sb, fs1, i, k, b, j, m);
    }
  }

  // ---- Freeing blocks ----

  /** bfree's effect */
  function Freed(sb: Super, blocks: seq<Block>, b: nat): (r: seq<Block>)
    requires SuperOk(sb) && |blocks| == sb.size && b < sb.size
    ensures |r| == |blocks|
  {
    blocks[MapBlock(sb, b) := ClearBit(blocks[MapBlock(sb, b)], b % BPB)]
  }

  /** Clearing the bit of a used data block that nobody owns disturbs nothing else. */
  lemma FreeKeeps(sb: Super, fs: Fs, b: nat)
    requires Owned(sb, fs) && sb.datastart <= b < sb.size
    requires forall i, k :: 0 <= i < |fs.inodes| && 0 <= k < NSLOTS ==> Addr(fs, i, k) != b
    ensures var fs' := fs.(blocks := Freed(sb, fs.blocks, b));
      && Owned(sb, fs')
      && (forall i, k :: 0 <= i < |fs.inodes| && 0 <= k < NSLOTS ==> Addr(fs', i, k) == Addr(fs, i, k))
      && (forall c :: sb.datastart <= c < sb.size ==> fs'.blocks[c] == fs.blocks[c])
      && (forall c :: 0 <= c < sb.size ==> (Used(sb, fs'.blocks, c) <==> c != b && Used(sb, fs.blocks, c)))
  {
    hide Bit, ClearBit;
    var fs' := fs.(blocks := Freed(sb, fs.blocks, b));
    forall c | 0 <= c < sb.size ensures Used(sb, fs'.blocks, c) <==> c != b && Used(sb, fs.blocks, c) {
      FreedUsed(sb, fs.blocks, b, c);
    }
    forall i, k | 0 <= i < |fs.inodes| && 0 <= k < NSLOTS ensures Addr(fs', i, k) == Addr(fs, i, k) {
      assert Addr(fs, i, NDIRECT) == fs.inodes[i].addrs[NDIRECT];
    }
  }

  lemma FreedUsed(sb: Super, blocks: seq<Block>, b: nat, c: nat)
    requires SuperOk(sb) && |blocks| == sb.size && b < sb.size && c < sb.size
    ensures Used(sb, Freed(sb, blocks, b), c) <==> c != b && Used(sb, blocks, c)
  {
    hide Bit, ClearBit;
    if b != c { MapBlocksDiffer(sb, b, c); }
    if MapBlock(sb, b) == MapBlock(sb, c) {
      BlockBits(blocks[MapBlock(sb, b)], b % BPB, c % BPB);
    }
  }

  /** ip->addrs[k] = 0 */
  function Dropped(fs: Fs, i: nat, k: nat): (r: Fs)
    requires i < |fs.inodes| && |fs.inodes[i].addrs| == NDIRECT + 1 && k <= NDIRECT
  {
    fs.(inodes := fs.inodes[i := fs.inodes[i].(addrs := fs.inodes[i].addrs[k := 0])])
  }

  /** Dropping an address drops that slot and, with the indirect block, the slots it lists. */
  lemma DropKeeps(sb: Super, fs: Fs, i: nat, k: nat)
    requires Owned(sb, fs) && i < |fs.inodes| && k <= NDIRECT
    ensures Owned(sb, Dropped(fs, i, k))
    ensures forall j, m :: 0 <= j < |fs.inodes| && 0 <= m < NSLOTS ==>
      Addr(Dropped(fs, i, k), j, m) == if j == i && (m == k || (k == NDIRECT && m > NDIRECT)) then 0 else Addr(fs, j, m)
  {
    var fs' := Dropped(fs, i, k);
    assert forall j, m :: 0 <= j < |fs.inodes| && 0 <= m < NSLOTS ==>
      Addr(fs', j, m) == if j == i && (m == k || (k == NDIRECT && m > NDIRECT)) then 0 else Addr(fs, j, m);
    hide Addr, Used;
  }

  /** Inode i has forgotten the slots `forgotten`, and exactly the blocks of its slots `freed` are free again. */
  ghost predicate Released(sb: Super, fs: Fs, fs': Fs, i: nat, forgotten: set<nat>, freed: set<nat>) {
    && Owned(sb, fs) && Owned(sb, fs') && |fs'.inodes| == |fs.inodes| && i < |fs.inodes|
    && (forall j :: 0 <= j < |fs.inodes| && j != i ==> fs'.inodes[j] == fs.inodes[j])
    && (forall j, m :: 0 <= j < |fs.inodes| && 0 <= m < NSLOTS ==>
          Addr(fs', j, m) == if j == i && m in forgotten then 0 else Addr(fs, j, m))
    && (forall c :: sb.datastart <= c < sb.size ==> fs'.blocks[c] == fs.blocks[c])
    && (forall b :: 0 <= b < sb.size ==> (Used(sb, fs'.blocks, b) <==> Used(sb, fs.blocks, b) && !OwnsIn(fs, i, freed, b)))
  }

  ghost predicate OwnsIn(fs: Fs, i: nat, slots: set<nat>, b: nat)
    requires i < |fs.inodes| && |fs.inodes[i].addrs| == NDIRECT + 1
  {
    b != 0 && exists m :: 0 <= m < NSLOTS && m in slots && Addr(fs, i, m) == b
  }

  lemma OwnsInMore(sb: Super, fs: Fs, i: nat, slots: set<nat>, m: nat, b: nat)
    requires Owned(sb, fs) && i < |fs.inodes| && m < NSLOTS
    ensures OwnsIn(fs, i, slots + {m}, b) <==> OwnsIn(fs, i, slots, b) || (b != 0 && Addr(fs, i, m) == b)
  {
    hide Addr;
    if OwnsIn(fs, i, slots, b) {
      var k :| 0 <= k < NSLOTS && k in slots && Addr(fs, i, k) == b;
      assert k in slots + {m};
    }
    assert m in slots + {m};
  }

  lemma ReleasedNothing(sb: Super, fs: Fs, i: nat)
    requires Owned(sb, fs) && i < |fs.inodes|
    ensures Released(sb, fs, fs, i, {}, {})
  {
  }

  /** The slots that go with address k: the indirect block's entries go with it. */
  ghost function SlotsOf(k: nat): (s: set<nat>)
    requires k <= NDIRECT
  {
    set m | 0 <= m < NSLOTS && GoesWith(k, m)
  }

  ghost predicate GoesWith(k: nat, m: nat) {
    m == k || (k == NDIRECT && m > NDIRECT)
  }

  lemma Forget(sb: Super, fs: Fs, fs': Fs, i: nat, forgotten: set<nat>, freed: set<nat>, k: nat)
    requires Released(sb, fs, fs', i, forgotten, freed) && k <= NDIRECT
    ensures Released(sb, fs, Dropped(fs', i, k), i, forgotten + SlotsOf(k), freed)
  {
    DropKeeps(sb, fs', i, k);
    var fs2 := Dropped(fs', i, k);
    assert forall j :: 0 <= j < |fs.inodes| && j != i ==> fs2.inodes[j] == fs'.inodes[j];
    assert forall m :: m in SlotsOf(k) <==> 0 <= m < NSLOTS && GoesWith(k, m);
    hide Addr, Used, OwnsIn;
  }

  /** The block of a forgotten slot is still marked used, so freeing it does not panic. */
  lemma FreeForgotten(sb: Super, fs: Fs, fs': Fs, i: nat, forgotten: set<nat>, freed: set<nat>, m: nat)
    requires Released(sb, fs, fs', i, forgotten, freed) && m < NSLOTS && m in forgotten && m !in freed
    requires Addr(fs, i, m) != 0
    ensures Addr(fs, i, m) < sb.size && Used(sb, fs'.blocks, Addr(fs, i, m))
    ensures Released(sb, fs, fs'.(blocks := Freed(sb, fs'.blocks, Addr(fs, i, m))), i, forgotten, freed + {m})
  {
    hide Addr;
    var a := Addr(fs, i, m);
    assert !OwnsIn(fs, i, freed, a);
    forall j, k | 0 <= j < |fs.inodes| && 0 <= k < NSLOTS ensures Addr(fs', j, k) != a {
    }
    FreeKeeps(sb, fs', a);
    forall b | 0 <= b < sb.size ensures OwnsIn(fs, i, freed + {m}, b) <==> OwnsIn(fs, i, freed, b) || b == a {
      OwnsInMore(sb, fs, i, freed, m, b);
    }
    hide Used, OwnsIn, Freed;
  }

  lemma SkipEmpty(sb: Super, fs: Fs, fs': Fs, i: nat, forgotten: set<nat>, freed: set<nat>, m: nat)
    requires Released(sb, fs, fs', i, forgotten, freed) && m < NSLOTS && Addr(fs, i, m) == 0
    ensures Released(sb, fs, fs', i, forgotten, freed + {m})
  {
    hide Addr, Used;
    forall b | 0 <= b < sb.size ensures OwnsIn(fs, i, freed + {m}, b) <==> OwnsIn(fs, i, freed, b) {
      OwnsInMore(sb, fs, i, freed, m, b);
    }
  }

  // ---- Writing and reading ranges ----

  /** Writing `bytes` at offset off of inode i: exactly those bytes of that inode change, the blocks that
      hold them are allocated, and no allocated address, no size and no other inode changes. */
  ghost predicate Wrote(sb: Super, fs: Fs, fs': Fs, i: nat, off: nat, bytes: seq<bv8>) {
    && Owned(sb, fs) && Owned(sb, fs') && |fs'.inodes| == |fs.inodes| && i < |fs.inodes|
    && (forall j :: 0 <= j < |fs.inodes| ==> fs'.inodes[j].size == fs.inodes[j].size)
    && (forall j :: 0 <= j < |fs.inodes| && j != i ==> fs'.inodes[j] == fs.inodes[j])
    && (forall j, k :: 0 <= j < |fs.inodes| && 0 <= k < NSLOTS && (j != i || Addr(fs, j, k) != 0) ==> Addr(fs', j, k) == Addr(fs, j, k))
    && (forall j, p :: 0 <= j < |fs.inodes| && 0 <= p < MAXFILE * BSIZE ==>
          RawByte(sb, fs', j, p) == if j == i && off <= p < off + |bytes| then bytes[p - off] else RawByte(sb, fs, j, p))
    && (forall bn :: 0 <= bn < MAXFILE && off < (bn + 1) * BSIZE && bn * BSIZE < off + |bytes| ==> Addr(fs', i, Slot(bn)) != 0)
  }

  lemma WroteNothing(sb: Super, fs: Fs, i: nat, off: nat)
    requires FsOk(sb, fs) && i < |fs.inodes| && off <= fs.inodes[i].size
    ensures Wrote(sb, fs, fs, i, off, [])
  {
    assert Dense(fs, i);
  }

  /** Two adjacent writes are one write. */
  lemma WroteBoth(sb: Super, fs0: Fs, fs1: Fs, fs2: Fs, i: nat, off: nat, a: seq<bv8>, b: seq<bv8>)
    requires Wrote(sb, fs0, fs1, i, off, a) && Wrote(sb, fs1, fs2, i, off + |a|, b)
    ensures Wrote(sb, fs0, fs2, i, off, a + b)
  {
    hide Addr, RawByte, Used;
    forall bn | 0 <= bn < MAXFILE && off < (bn + 1) * BSIZE && bn * BSIZE < off + |a + b| ensures Addr(fs2, i, Slot(bn)) != 0 {
      if bn * BSIZE < off + |a| { assert Addr(fs1, i, Slot(bn)) != 0; }
    }
  }

  /** A write inside one block, once bmap has found or made its block. */
  lemma WroteInBlock(sb: Super, fs: Fs, fs1: Fs, i: nat, off: nat, bytes: seq<bv8>)
    requires SameBytes(sb, fs, fs1) && i < |fs.inodes| && off < MAXFILE * BSIZE && off % BSIZE + |bytes| <= BSIZE
    requires forall j :: 0 <= j < |fs.inodes| && j != i ==> fs1.inodes[j] == fs.inodes[j]
    requires forall j, k :: 0 <= j < |fs.inodes| && 0 <= k < NSLOTS && j != i ==> Addr(fs1, j, k) == Addr(fs, j, k)
    requires Addr(fs1, i, Slot(off / BSIZE)) != 0
    ensures var a := Addr(fs1, i, Slot(off / BSIZE));
      Wrote(sb, fs, fs1.(blocks := fs1.blocks[a := Splice(fs1.blocks[a], off % BSIZE, bytes)]), i, off, bytes)
  {
    WriteBlock(sb, fs1, i, off, bytes);
    var a := Addr(fs1, i, Slot(off / BSIZE));
    var fs2 := fs1.(blocks := fs1.blocks[a := Splice(fs1.blocks[a], off % BSIZE, bytes)]);
    hide Addr, RawByte, Owned, Splice;
    assert off == BSIZE * (off / BSIZE) + off % BSIZE;
    forall bn | 0 <= bn < MAXFILE && off < (bn + 1) * BSIZE && bn * BSIZE < off + |bytes| ensures Addr(fs2, i, Slot(bn)) != 0 {
      assert bn == off / BSIZE;
    }
  }

  /** Replace or extend: what a file contains after bytes are written at off. */
  function Overwritten(c: seq<bv8>, off: nat, bytes: seq<bv8>): (r: seq<bv8>)
    requires off <= |c|
  {
    c[..off] + bytes + if off + |bytes| < |c| then c[off + |bytes|..] else []
  }

  /** A finished write, with the size raised if it went past the end, is Overwritten on the contents. */
  lemma WroteContent(sb: Super, fs: Fs, fs1: Fs, fs2: Fs, i: nat, off: nat, bytes: seq<bv8>)
    requires FsOk(sb, fs) && Wrote(sb, fs, fs1, i, off, bytes)
    requires off <= fs.inodes[i].size && off + |bytes| <= MAXFILE * BSIZE
    requires fs2 == if off + |bytes| > fs.inodes[i].size
                    then fs1.(inodes := fs1.inodes[i := fs1.inodes[i].(size := off + |bytes|)]) else fs1
    ensures FsOk(sb, fs2) && |fs2.inodes| == |fs.inodes|
    ensures Content(sb, fs2, i) == Overwritten(Content(sb, fs, i), off, bytes)
    ensures forall j :: 0 <= j < |fs.inodes| && j != i ==> Content(sb, fs2, j) == Content(sb, fs, j)
  {
    ResizeKeeps(sb, fs1, fs2, i);
    WroteDense(sb, fs, fs1, fs2, i, off, bytes);
    hide Addr, Used, RawByte, Dense, Content, Overwritten;
    assert forall p :: 0 <= p < MAXFILE * BSIZE ==>
      RawByte(sb, fs2, i, p) == if off <= p < off + |bytes| then bytes[p - off] else RawByte(sb, fs, i, p);
    OverwrittenContent(sb, fs, fs2, i, off, bytes);
    forall j | 0 <= j < |fs.inodes| && j != i ensures Content(sb, fs2, j) == Content(sb, fs, j) {
      SameContent(sb, fs, fs2, j);
    }
  }

  lemma SameContent(sb: Super, fs: Fs, fs': Fs, i: nat)
    requires FsOk(sb, fs) && FsOk(sb, fs') && |fs'.inodes| == |fs.inodes| && i < |fs.inodes|
    requires fs'.inodes[i].size == fs.inodes[i].size
    requires forall p :: 0 <= p < MAXFILE * BSIZE ==> RawByte(sb, fs', i, p) == RawByte(sb, fs, i, p)
    ensures Content(sb, fs', i) == Content(sb, fs, i)
  {
    hide RawByte, Owned, Dense;
  }

  lemma OverwrittenContent(sb: Super, fs: Fs, fs': Fs, i: nat, off: nat, bytes: seq<bv8>)
    requires FsOk(sb, fs) && FsOk(sb, fs') && |fs'.inodes| == |fs.inodes| && i < |fs.inodes|
    requires off <= fs.inodes[i].size && off + |bytes| <= MAXFILE * BSIZE
    requires fs'.inodes[i].size == if off + |bytes| > fs.inodes[i].size then off + |bytes| else fs.inodes[i].size
    requires forall p :: 0 <= p < MAXFILE * BSIZE ==>
      RawByte(sb, fs', i, p) == if off <= p < off + |bytes| then bytes[p - off] else RawByte(sb, fs, i, p)
    ensures Content(sb, fs', i) == Overwritten(Content(sb, fs, i), off, bytes)
  {
    hide RawByte, Owned, Dense;
  }

  lemma WroteDense(sb: Super, fs: Fs, fs1: Fs, fs2: Fs, i: nat, off: nat, bytes: seq<bv8>)
    requires FsOk(sb, fs) && Wrote(sb, fs, fs1, i, off, bytes)
    requires off <= fs.inodes[i].size && off + |bytes| <= MAXFILE * BSIZE
    requires Owned(sb, fs2) && |fs2.inodes| == |fs1.inodes|
    requires forall j, k :: 0 <= j < |fs1.inodes| && 0 <= k < NSLOTS ==> Addr(fs2, j, k) == Addr(fs1, j, k)
    requires forall j :: 0 <= j < |fs1.inodes| && j != i ==> fs2.inodes[j].size == fs.inodes[j].size
    requires fs2.inodes[i].size <= off + |bytes| || fs2.inodes[i].size == fs.inodes[i].size
    ensures FsOk(sb, fs2)
  {
    hide Addr, Used, RawByte;
    forall j | 0 <= j < |fs.inodes| ensures Dense(fs2, j) {
      forall bn | 0 <= bn < MAXFILE && bn * BSIZE < fs2.inodes[j].size ensures Addr(fs2, j, Slot(bn)) != 0 {
        assert Addr(fs2, j, Slot(bn)) == Addr(fs1, j, Slot(bn));
        assert Dense(fs, j);
        if bn * BSIZE < fs.inodes[j].size { assert Addr(fs, j, Slot(bn)) != 0; }
      }
    }
  }

  lemma ResizeKeeps(sb: Super, fs: Fs, fs': Fs, i: nat)
    requires Owned(sb, fs) && i < |fs.inodes|
    requires fs' == fs || exists sz: nat :: fs' == fs.(inodes := fs.inodes[i := fs.inodes[i].(size := sz)])
    ensures Owned(sb, fs')
    ensures forall j, k :: 0 <= j < |fs.inodes| && 0 <= k < NSLOTS ==> Addr(fs', j, k) == Addr(fs, j, k)
    ensures forall j, p :: 0 <= j < |fs.inodes| && 0 <= p < MAXFILE * BSIZE ==> RawByte(sb, fs', j, p) == RawByte(sb, fs, j, p)
  {
    assert forall j, k :: 0 <= j < |fs.inodes| && 0 <= k < NSLOTS ==> Addr(fs', j, k) == Addr(fs, j, k);
    hide Addr;
  }

  /** A truncated inode: empty, owning nothing; every other file is untouched. */
  lemma ReleasedAll(sb: Super, fs: Fs, fs': Fs, fs2: Fs, i: nat, forgotten: set<nat>, freed: set<nat>)
    requires FsOk(sb, fs) && Released(sb, fs, fs', i, forgotten, freed)
    requires forall m :: 0 <= m < NSLOTS ==> m in forgotten && m in freed
    requires fs2 == fs'.(inodes := fs'.inodes[i := fs'.inodes[i].(size := 0)])
    ensures FsOk(sb, fs2) && Content(sb, fs2, i) == []
    ensures forall j :: 0 <= j < |fs.inodes| && j != i ==> Content(sb, fs2, j) == Content(sb, fs, j)
    ensures forall b :: 0 <= b < sb.size ==> (Used(sb, fs2.blocks, b) <==> Used(sb, fs.blocks, b) && !Owns(fs, i, b))
    ensures forall k :: 0 <= k < NSLOTS ==> Addr(fs2, i, k) == 0
  {
    ResizeKeeps(sb, fs', fs2, i);
    hide Addr, Used;
    forall j | 0 <= j < |fs.inodes| ensures fs2.inodes[j].size <= MAXFILE * BSIZE && Dense(fs2, j) {
      assert Dense(fs, j);
    }
    forall j | 0 <= j < |fs.inodes| && j != i ensures Content(sb, fs2, j) == Content(sb, fs, j) {
      SameContent(sb, fs, fs2, j);
    }
  }

  /** Block b is in some slot of inode i. */
  ghost predicate Owns(fs: Fs, i: nat, b: nat)
    requires i < |fs.inodes| && |fs.inodes[i].addrs| == NDIRECT + 1
  {
    b != 0 && exists m :: 0 <= m < NSLOTS && Addr(fs, i, m) == b
  }

  // ---- The blocks below the free map ----

  /** Files, their addresses and the free map do not depend on the blocks below the free map: the log and the inodes. */
  lemma BelowMapKeeps(sb: Super, fs: Fs, fs': Fs)
    requires FsOk(sb, fs) && fs'.inodes == fs.inodes && |fs'.blocks| == |fs.blocks|
    requires forall b :: sb.bmapstart <= b < sb.size ==> fs'.blocks[b] == fs.blocks[b]
    ensures FsOk(sb, fs')
    ensures forall b :: 0 <= b < sb.size ==> Used(sb, fs'.blocks, b) == Used(sb, fs.blocks, b)
    ensures forall j, k :: 0 <= j < |fs.inodes| && 0 <= k < NSLOTS ==> Addr(fs', j, k) == Addr(fs, j, k)
    ensures forall j :: 0 <= j < |fs.inodes| ==> Content(sb, fs', j) == Content(sb, fs, j)
  {
    BelowMapOwned(sb, fs, fs');
    hide Addr, Used;
    forall j | 0 <= j < |fs.inodes| ensures Dense(fs', j) { assert Dense(fs, j); }
    forall j | 0 <= j < |fs.inodes| ensures Content(sb, fs', j) == Content(sb, fs, j) { SameContent(sb, fs, fs', j); }
  }

  lemma BelowMapOwned(sb: Super, fs: Fs, fs': Fs)
    requires Owned(sb, fs) && fs'.inodes == fs.inodes && |fs'.blocks| == |fs.blocks|
    requires forall b :: sb.bmapstart <= b < sb.size ==> fs'.blocks[b] == fs.blocks[b]
    ensures Owned(sb, fs')
    ensures forall b :: 0 <= b < sb.size ==> Used(sb, fs'.blocks, b) == Used(sb, fs.blocks, b)
    ensures forall j, k :: 0 <= j < |fs.inodes| && 0 <= k < NSLOTS ==> Addr(fs', j, k) == Addr(fs, j, k)
  {
    hide Bit, Word;
    assert forall b :: 0 <= b < sb.size ==> Used(sb, fs'.blocks, b) == Used(sb, fs.blocks, b);
    forall j, k | 0 <= j < |fs.inodes| && 0 <= k < NSLOTS ensures Addr(fs', j, k) == Addr(fs, j, k) {
      assert Addr(fs, j, NDIRECT) == fs.inodes[j].addrs[NDIRECT];
    }
  }

  // ---- How many blocks a write takes ----

  ghost function FreeBlocks(sb: Super, blocks: seq<Block>): (r: set<nat>)
    requires SuperOk(sb) && |blocks| == sb.size
  {
    set b: nat | b < sb.size && !Used(sb, blocks, b)
  }

  /** The slots among `need` that have no block. */
  ghost function EmptySlots(fs: Fs, i: nat, need: set<nat>): (r: set<nat>)
    requires i < |fs.inodes| && |fs.inodes[i].addrs| == NDIRECT + 1
  {
    set k: nat | k in need && k < NSLOTS && Addr(fs, i, k) == 0
  }

  /** How many blocks would be left over if every slot of `need` were filled. */
  ghost function Slack(sb: Super, fs: Fs, i: nat, need: set<nat>): (n: int)
    requires Shape(sb, fs) && i < |fs.inodes|
  {
    |FreeBlocks(sb, fs.blocks)| - |EmptySlots(fs, i, need)|
  }

  /** The slots that a write of n bytes at off goes through: its blocks, and the indirect block for those past NDIRECT. */
  predicate Covers(off: nat, n: nat, k: nat) {
    n > 0 && if k == NDIRECT then NDIRECT <= BlockNo(off + n - 1)
             else BlockNo(off) <= (if k < NDIRECT then k else k - 1) <= BlockNo(off + n - 1)
  }

  ghost function SlotsFor(off: nat, n: nat): (r: set<nat>) {
    set k: nat | k < NSLOTS && Covers(off, n, k)
  }

  /** `need` has the slots of block bn of a file. */
  predicate Wanted(need: set<nat>, bn: nat)
    requires bn < MAXFILE
  {
    Slot(bn) in need && (bn >= NDIRECT ==> NDIRECT in need)
  }

  lemma WantedPiece(off0: nat, n: nat, off: nat, need: set<nat>)
    requires off0 <= off < off0 + n <= MAXFILE * BSIZE && SlotsFor(off0, n) <= need
    ensures BlockNo(off) < MAXFILE && Wanted(need, BlockNo(off))
  {
    assert BlockNo(off0) <= BlockNo(off) <= BlockNo(off0 + n - 1);
    assert Slot(BlockNo(off)) in SlotsFor(off0, n);
    assert BlockNo(off) >= NDIRECT ==> NDIRECT in SlotsFor(off0, n);
  }

  lemma SlackSame(sb: Super, fs: Fs, fs': Fs, i: nat, need: set<nat>)
    requires Shape(sb, fs) && Shape(sb, fs') && i < |fs.inodes| && i < |fs'.inodes|
    requires forall b :: 0 <= b < sb.size ==> Used(sb, fs'.blocks, b) == Used(sb, fs.blocks, b)
    requires forall k :: 0 <= k < NSLOTS ==> Addr(fs', i, k) == Addr(fs, i, k)
    ensures Slack(sb, fs', i, need) == Slack(sb, fs, i, need)
  {
    hide Addr, Used;
    assert FreeBlocks(sb, fs'.blocks) == FreeBlocks(sb, fs.blocks);
    assert EmptySlots(fs', i, need) == EmptySlots(fs, i, need);
  }

  /** Filling a slot takes one free block. */
  lemma SlackFilled(sb: Super, fs: Fs, fs': Fs, i: nat, k: nat, b: nat, need: set<nat>)
    requires Shape(sb, fs) && Shape(sb, fs') && i < |fs.inodes| && i < |fs'.inodes| && k in need && k < NSLOTS && b < sb.size
    requires !Used(sb, fs.blocks, b) && Addr(fs, i, k) == 0
    requires forall c :: 0 <= c < sb.size ==> (Used(sb, fs'.blocks, c) <==> c == b || Used(sb, fs.blocks, c))
    requires forall m :: 0 <= m < NSLOTS ==> Addr(fs', i, m) == if m == k then b else Addr(fs, i, m)
    requires b != 0
    ensures Slack(sb, fs', i, need) == Slack(sb, fs, i, need)
  {
    hide Addr, Used;
    assert b in FreeBlocks(sb, fs.blocks) && k in EmptySlots(fs, i, need);
    assert FreeBlocks(sb, fs'.blocks) == FreeBlocks(sb, fs.blocks) - {b};
    assert EmptySlots(fs', i, need) == EmptySlots(fs, i, need) - {k};
  }

  /** With no free block and an empty slot there is too little. */
  lemma SlackNegative(sb: Super, fs: Fs, i: nat, k: nat, need: set<nat>)
    requires Shape(sb, fs) && i < |fs.inodes| && k in need && k < NSLOTS && Addr(fs, i, k) == 0
    requires forall b :: 0 <= b < sb.size ==> Used(sb, fs.blocks, b)
    ensures Slack(sb, fs, i, need) < 0
  {
    hide Addr, Used;
    assert k in EmptySlots(fs, i, need);
    assert FreeBlocks(sb, fs.blocks) == {};
  }

  lemma AllocSlack(sb: Super, fs: Fs, i: nat, k: nat, b: nat, need: set<nat>)
    requires Assignable(sb, fs, i, k) && b < sb.size && !Used(sb, fs.blocks, b) && k in need
    ensures var fs1 := fs.(blocks := Alloc(sb, fs.blocks, b));
      && Assignable(sb, fs1, i, k) && Shape(sb, Assign(fs1, i, k, b)) && i < |Assign(fs1, i, k, b).inodes|
      && Slack(sb, Assign(fs1, i, k, b), i, need) == Slack(sb, fs, i, need)
  {
    var fs1 := fs.(blocks := Alloc(sb, fs.blocks, b));
    AllocKeeps(sb, fs, b);
    AllocSameBytes(sb, fs, b);
    AllocFills(sb, fs, i, k, b);
    AssignKeeps(sb, fs1, i, k, b);
    forall m | 0 <= m < NSLOTS ensures Addr(Assign(fs1, i, k, b), i, m) == if m == k then b else Addr(fs, i, m) {
      AssignAddr(sb, fs1, i, k, b, i, m);
    }
    hide Addr, Used, Assign, Alloc;
    SlackFilled(sb, fs, Assign(fs1, i, k, b), i, k, b, need);
  }

  /** A write that has been done has filled its slots. */
  lemma SlackDone(sb: Super, fs: Fs, i: nat, off: nat, n: nat)
    requires FsOk(sb, fs) && i < |fs.inodes| && (n > 0 ==> off + n <= fs.inodes[i].size)
    ensures EmptySlots(fs, i, SlotsFor(off, n)) == {} && Slack(sb, fs, i, SlotsFor(off, n)) >= 0
  {
    hide Used;
    assert Dense(fs, i);
    forall k: nat | k < NSLOTS && Covers(off, n, k) ensures Addr(fs, i, k) != 0 {
      var bn := if k == NDIRECT then NDIRECT else if k < NDIRECT then k else k - 1;
      assert bn <= BlockNo(off + n - 1);
      assert bn * BSIZE <= off + n - 1;
      assert Addr(fs, i, Slot(bn)) != 0;
    }
  }
}
