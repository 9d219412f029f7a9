/** The inodes on disk (fs.h:29-43, fs.c:221-236): IPB of them in a block, each a structure of DINODE_WORDS words. */
module DiskInodes {
  import opened BlockBytes
  import opened FsState

  /** IBLOCK(i, sb) */
  function IBlock(sb: Super, i: nat): (b: nat) {
    i / IPB + sb.inodestart
  }

  /** The size and addresses of the k-th inode in a block. */
  function InodeAt(b: Block, k: nat): (r: Inode)
    requires k < IPB
    ensures |r.addrs| == NDIRECT + 1
  {
    Inode(Word(b, DINODE_WORDS * k + 2), Words(b, DINODE_WORDS * k + 3, NDIRECT + 1))
  }

  /** The inode's fields are 32-bit words. */
  predicate Storable(r: Inode) {
    |r.addrs| == NDIRECT + 1 && r.size < 0x1_0000_0000 && forall j :: 0 <= j <= NDIRECT ==> r.addrs[j] < 0x1_0000_0000
  }

  lemma OwnedStorable(sb: Super, fs: Fs, i: nat)
    requires Owned(sb, fs) && i < |fs.inodes| && fs.inodes[i].size <= MAXFILE * BSIZE
    ensures Storable(fs.inodes[i])
  {
    forall j | 0 <= j <= NDIRECT ensures fs.inodes[i].addrs[j] < 0x1_0000_0000 {
      assert Addr(fs, i, j) == fs.inodes[i].addrs[j];
    }
  }

  function PutInode(b: Block, k: nat, r: Inode): (b': Block)
    requires k < IPB && Storable(r)
  {
    PutWords(b, DINODE_WORDS * k + 2, [r.size] + r.addrs)
  }

  /** Storing an inode changes no other inode of its block, and reads back. */
  lemma PutInodeAt(b: Block, k: nat, r: Inode, m: nat)
    requires k < IPB && Storable(r) && m < IPB
    ensures InodeAt(PutInode(b, k, r), m) == if m == k then r else InodeAt(b, m)
  {
    hide Word, PutWords;
    var b', ws := PutInode(b, k, r), [r.size] + r.addrs;
    PutWordsAt(b, DINODE_WORDS * k + 2, ws, DINODE_WORDS * m + 2);
    forall j | 0 <= j <= NDIRECT
      ensures InodeAt(b', m).addrs[j] == if m == k then r.addrs[j] else InodeAt(b, m).addrs[j]
    {
      PutWordsAt(b, DINODE_WORDS * k + 2, ws, DINODE_WORDS * m + 3 + j);
    }
    assert InodeAt(b', m).addrs == if m == k then r.addrs else InodeAt(b, m).addrs;
  }

  /** Nor any word outside the size and the addresses: types and link counts stay. */
  lemma PutInodeElsewhere(b: Block, k: nat, r: Inode, w: nat)
    requires k < IPB && Storable(r) && w < NINDIRECT
    requires w < DINODE_WORDS * k + 2 || w >= DINODE_WORDS * (k + 1)
    ensures Word(PutInode(b, k, r), w) == Word(b, w)
  {
    PutWordsAt(b, DINODE_WORDS * k + 2, [r.size] + r.addrs, w);
  }

  /** Inode i as the disk has it. */
  function DiskInode(sb: Super, blocks: seq<Block>, i: nat): (r: Inode)
    requires IBlock(sb, i) < |blocks|
  {
    InodeAt(blocks[IBlock(sb, i)], i % IPB)
  }

  /** The blocks of the inode area hold the inodes `dinodes`. */
  ghost predicate OnDisk(sb: Super, blocks: seq<Block>, dinodes: seq<Inode>) {
    && SuperOk(sb) && |blocks| == sb.size && |dinodes| <= (sb.bmapstart - sb.inodestart) * IPB
    && forall i :: 0 <= i < |dinodes| ==> IBlock(sb, i) < sb.bmapstart && DiskInode(sb, blocks, i) == dinodes[i]
  }

  /** The blocks differ from `base` only where log_write was called, and the inode area holds `dinodes`. */
  ghost predicate Tracks(sb: Super, base: seq<Block>, blocks: seq<Block>, dinodes: seq<Inode>, logged: set<nat>) {
    && |base| == |blocks| && OnDisk(sb, blocks, dinodes)
    && (forall b :: b in logged ==> sb.inodestart <= b < sb.size)
    && forall b :: 0 <= b < |blocks| && b !in logged ==> blocks[b] == base[b]
  }

  /** A block outside the inode area is changed and logged. */
  lemma TracksStore(sb: Super, base: seq<Block>, blocks: seq<Block>, dinodes: seq<Inode>, logged: set<nat>, b: nat, data: Block)
    requires Tracks(sb, base, blocks, dinodes, logged) && sb.bmapstart <= b < sb.size
    ensures Tracks(sb, base, blocks[b := data], dinodes, logged + {b})
  {
    hide InodeAt;
  }

  /** An inode is written into its block. */
  lemma TracksInode(sb: Super, base: seq<Block>, blocks: seq<Block>, dinodes: seq<Inode>, logged: set<nat>, i: nat, r: Inode)
    requires Tracks(sb, base, blocks, dinodes, logged) && i < |dinodes| && Storable(r)
    ensures IBlock(sb, i) < sb.bmapstart
    ensures var b := IBlock(sb, i);
      Tracks(sb, base, blocks[b := PutInode(blocks[b], i % IPB, r)], dinodes[i := r], logged + {b})
  {
    hide InodeAt, PutInode;
    var b := IBlock(sb, i);
    var blocks', dinodes' := blocks[b := PutInode(blocks[b], i % IPB, r)], dinodes[i := r];
    forall j | 0 <= j < |dinodes| ensures DiskInode(sb, blocks', j) == dinodes'[j] {
      assert IBlock(sb, j) < sb.bmapstart && DiskInode(sb, blocks, j) == dinodes[j];
      PutInodeAt(blocks[b], i % IPB, r, j % IPB);
      if IBlock(sb, j) == b && j % IPB == i % IPB { assert j == IPB * (j / IPB) + j % IPB && i == IPB * (i / IPB) + i % IPB; }
    }
  }
}
