/** The ring of buffers through prev/next (bio.c): buffer HEAD is the list head, head.next the most recently used. */
module BufferRing {
  import opened Common
  import opened DiskLog

  const NBUF: nat := 30
  const HEAD: nat := NBUF

  datatype Buf = Buf(
    valid: bool, dirty: bool, dev: nat, blockno: nat,
    holder: Option<nat>,  // the pid holding the sleep lock, if locked
    refcnt: nat, prev: nat, next: nat, data: Block)

  /** The k-th node met when following next from the head, whose ring holds the buffers `order`. */
  ghost function At(order: seq<nat>, k: int): (b: nat)
    requires 0 <= k <= |order| + 1
  {
    if k == 0 || k == |order| + 1 then HEAD else order[k - 1]
  }

  /** `order` is the ring: following next visits exactly `order`, following prev visits it backwards. */
  ghost predicate Ring(bufs: seq<Buf>, order: seq<nat>) {
    && |bufs| == NBUF + 1
    && (forall i :: 0 <= i < |order| ==> order[i] < NBUF)
    && (forall i, j :: 0 <= i < j < |order| ==> order[i] != order[j])
    && (forall k :: 0 <= k <= |order| ==> bufs[At(order, k)].next == At(order, k + 1))
    && (forall k :: 1 <= k <= |order| + 1 ==> bufs[At(order, k)].prev == At(order, k - 1))
  }

  /** Take b out of the list (bio.c:132-133). */
  function Unlinked(bufs: seq<Buf>, b: nat): (r: seq<Buf>)
    requires |bufs| == NBUF + 1 && b < NBUF && bufs[b].next <= NBUF && bufs[b].prev <= NBUF
    ensures |r| == |bufs|
  {
    var n, p := bufs[b].next, bufs[b].prev;
    var bufs1 := bufs[n := bufs[n].(prev := p)];
    bufs1[p := bufs1[p].(next := n)]
  }

  /** Insert b at the head of the list (bio.c:134-137 and bio.c:50-54). */
  function LinkedFront(bufs: seq<Buf>, b: nat): (r: seq<Buf>)
    requires |bufs| == NBUF + 1 && b < NBUF && bufs[HEAD].next <= NBUF
    ensures |r| == |bufs|
  {
    var bufs1 := bufs[b := bufs[b].(next := bufs[HEAD].next, prev := HEAD)];
    var n := bufs1[HEAD].next;
    var bufs2 := bufs1[n := bufs1[n].(prev := b)];
    bufs2[HEAD := bufs2[HEAD].(next := b)]
  }

  ghost function Without(order: seq<nat>, j: nat): (r: seq<nat>)
    requires j < |order|
    ensures |r| == |order| - 1
    ensures forall i :: 0 <= i < |r| ==> r[i] == if i < j then order[i] else order[i + 1]
  {
    order[..j] + order[j + 1..]
  }

  /** Everything about a buffer except its links. */
  ghost predicate SamePayload(x: Buf, y: Buf) {
    x.(prev := 0, next := 0) == y.(prev := 0, next := 0)
  }

  ghost predicate SamePayloads(xs: seq<Buf>, ys: seq<Buf>) {
    |xs| == |ys| && forall i :: 0 <= i < |xs| ==> SamePayload(xs[i], ys[i])
  }

  /** Two places of the ring are the same node only if both are the head. */
  lemma AtInjective(bufs: seq<Buf>, order: seq<nat>, k: int, m: int)
    requires Ring(bufs, order) && 0 <= k < m <= |order| + 1 && At(order, k) == At(order, m)
    ensures k == 0 && m == |order| + 1
  {
  }

  /** What unlinking does to each link. */
  lemma UnlinkedLinks(bufs: seq<Buf>, b: nat, i: nat)
    requires |bufs| == NBUF + 1 && b < NBUF && bufs[b].next <= NBUF && bufs[b].prev <= NBUF && i <= NBUF
    ensures var r := Unlinked(bufs, b);
      && r[i].next == (if i == bufs[b].prev then bufs[b].next else bufs[i].next)
      && r[i].prev == (if i == bufs[b].next then bufs[b].prev else bufs[i].prev)
      && SamePayload(bufs[i], r[i])
  {
  }

  lemma UnlinkRing(bufs: seq<Buf>, order: seq<nat>, j: nat)
    requires Ring(bufs, order) && j < |order|
    ensures bufs[order[j]].next <= NBUF && bufs[order[j]].prev <= NBUF
    ensures Ring(Unlinked(bufs, order[j]), Without(order, j))
    ensures SamePayloads(bufs, Unlinked(bufs, order[j]))
  {
    var b := order[j];
    var without := Without(order, j);
    assert bufs[At(order, j + 1)].next == At(order, j + 2);
    assert bufs[At(order, j + 1)].prev == At(order, j);
    var r := Unlinked(bufs, b);
    forall k | 0 <= k <= |without| ensures r[At(without, k)].next == At(without, k + 1) {
      UnlinkedNext(bufs, order, j, k);
    }
    forall k | 1 <= k <= |without| + 1 ensures r[At(without, k)].prev == At(without, k - 1) {
      UnlinkedPrev(bufs, order, j, k);
    }
    forall i | 0 <= i < |bufs| ensures SamePayload(bufs[i], r[i]) {
      UnlinkedLinks(bufs, b, i);
    }
  }

  lemma UnlinkedNext(bufs: seq<Buf>, order: seq<nat>, j: nat, k: nat)
    requires Ring(bufs, order) && j < |order| && k <= |order| - 1
    ensures bufs[order[j]].next <= NBUF && bufs[order[j]].prev <= NBUF
    ensures Unlinked(bufs, order[j])[At(Without(order, j), k)].next == At(Without(order, j), k + 1)
  {
    assert bufs[At(order, j + 1)].next == At(order, j + 2);
    assert bufs[At(order, j + 1)].prev == At(order, j);
    var i := At(order, if k <= j then k else k + 1);
    assert At(Without(order, j), k) == i;
    UnlinkedLinks(bufs, order[j], i);
    if k != j {
      if i == At(order, j) {
        if k < j { AtInjective(bufs, order, k, j); } else { AtInjective(bufs, order, j, k + 1); }
      }
      assert bufs[i].next == At(order, if k < j then k + 1 else k + 2);
    }
  }

  lemma UnlinkedPrev(bufs: seq<Buf>, order: seq<nat>, j: nat, k: nat)
    requires Ring(bufs, order) && j < |order| && 1 <= k <= |order|
    ensures bufs[order[j]].next <= NBUF && bufs[order[j]].prev <= NBUF
    ensures Unlinked(bufs, order[j])[At(Without(order, j), k)].prev == At(Without(order, j), k - 1)
  {
    assert bufs[At(order, j + 1)].next == At(order, j + 2);
    assert bufs[At(order, j + 1)].prev == At(order, j);
    var i := At(order, if k <= j then k else k + 1);
    assert At(Without(order, j), k) == i;
    UnlinkedLinks(bufs, order[j], i);
    if k != j + 1 {
      if i == At(order, j + 2) {
        if k <= j { AtInjective(bufs, order, k, j + 2); } else { AtInjective(bufs, order, j + 2, k + 1); }
      }
      assert bufs[i].prev == At(order, if k <= j then k - 1 else k);
    }
  }

  lemma LinkRing(bufs: seq<Buf>, order: seq<nat>, b: nat)
    requires Ring(bufs, order) && b < NBUF && b !in order
    ensures bufs[HEAD].next <= NBUF
    ensures Ring(LinkedFront(bufs, b), [b] + order)
    ensures SamePayloads(bufs, LinkedFront(bufs, b))
  {
    assert bufs[At(order, 0)].next == At(order, 1);
    var r := LinkedFront(bufs, b);
    var front := [b] + order;
    assert forall k :: 1 <= k <= |order| + 1 ==> At(front, k + 1) == At(order, k);
    forall k | 0 <= k <= |front| ensures r[At(front, k)].next == At(front, k + 1) {
      if k >= 2 { assert bufs[At(order, k - 1)].next == At(order, k); }
    }
    forall k | 1 <= k <= |front| + 1 ensures r[At(front, k)].prev == At(front, k - 1) {
      if k >= 3 { assert bufs[At(order, k - 1)].prev == At(order, k - 2); }
    }
  }

  /** brelse's six pointer assignments move b to the most recently used end and change nothing else. */
  lemma MoveToFront(bufs: seq<Buf>, order: seq<nat>, j: nat)
    requires Ring(bufs, order) && j < |order|
    ensures bufs[order[j]].next <= NBUF && bufs[order[j]].prev <= NBUF
    ensures Unlinked(bufs, order[j])[HEAD].next <= NBUF
    ensures Ring(LinkedFront(Unlinked(bufs, order[j]), order[j]), [order[j]] + Without(order, j))
    ensures SamePayloads(bufs, LinkedFront(Unlinked(bufs, order[j]), order[j]))
  {
    UnlinkRing(bufs, order, j);
    LinkRing(Unlinked(bufs, order[j]), Without(order, j), order[j]);
    var r := LinkedFront(Unlinked(bufs, order[j]), order[j]);
    forall i | 0 <= i < |bufs| ensures SamePayload(bufs[i], r[i]) {
      assert SamePayload(bufs[i], Unlinked(bufs, order[j])[i]);
    }
  }
}
