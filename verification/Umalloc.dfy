/**
 * The storage allocator of umalloc.c.  Headers live at byte addresses; `ptr` and `size`
 * are their two fields.  The ghost fields are what the headers mean: `free` is the free
 * list in address order, `live` the allocated blocks by header address with their units,
 * and `total` counts the units obtained from sbrk.
 */
module Umalloc {
  import opened Common
  import opened FreeList

  const KERNBASE := 0x8000_0000
  const WORD := 0x1_0000_0000
  const MINUNITS := 4096

  // ---- sizes in 32-bit arithmetic ----

  /** umalloc.c:69: the sum wraps. */
  function NUnits(nbytes: int): (n: int)
    requires 0 <= nbytes < WORD
    ensures 1 <= n <= 0x2000_0000
  {
    (nbytes + 7) % WORD / 8 + 1
  }

  /** A block of NUnits units has room for nbytes after its header, except when the sum wraps. */
  lemma LargeEnough(nbytes: int)
    requires 0 <= nbytes < WORD
    ensures 8 * (NUnits(nbytes) - 1) >= nbytes <==> nbytes <= WORD - 8
    ensures nbytes <= WORD - 8 ==> 8 * (NUnits(nbytes) - 1) < nbytes + 8
  {
  }

  /** The int that morecore hands to sbrk (umalloc.c:54): the product wraps, then the sign bit counts. */
  function GrowBytes(nu: int): (n: int)
    requires 0 <= nu
    ensures -KERNBASE <= n < KERNBASE
  {
    var w := 8 * nu % WORD;
    if w < KERNBASE then w else w - WORD
  }

  /** The new size of a process of size brk when sbrk(n) succeeds (proc.c:400-415, sysproc.c:71-81). */
  function Moved(brk: int, n: int): int {
    if n >= 0 then brk + n else if brk + n >= 0 then brk + n else brk
  }

  /** sbrk obtains the bytes that morecore writes into the header exactly below 2^28 units. */
  lemma GrowthCovers(brk: int, nu: int)
    requires 0 <= brk < KERNBASE && 0 < nu <= 0x2000_0000
    ensures brk + 8 * nu <= Moved(brk, GrowBytes(nu)) <==> nu < 0x1000_0000
    ensures nu < 0x1000_0000 ==> GrowBytes(nu) == 8 * nu
  {
  }

  // ---- the meaning of the headers ----

  function Successor(f: seq<Chunk>, b: nat): int
    requires |f| > 0 && b <= |f|
  {
    if b < |f| then f[b].addr else f[0].addr
  }

  ghost predicate NodeOk(ptr: map<int, int>, size: map<int, int>, f: seq<Chunk>, i: nat)
    requires i < |f|
  {
    && f[i].addr in ptr && ptr[f[i].addr] == Successor(f, i + 1)
    && f[i].addr in size && size[f[i].addr] == f[i].size
  }

  ghost predicate Linked(ptr: map<int, int>, size: map<int, int>, f: seq<Chunk>) {
    forall i: nat :: i < |f| ==> NodeOk(ptr, size, f, i)
  }

  ghost predicate LiveOk(f: seq<Chunk>, live: map<int, int>, size: map<int, int>, brk: int) {
    && (forall a :: a in live ==> live[a] > 0 && a in size && size[a] == live[a])
    && (forall a :: a in live ==> Chunk(a, live[a]).End() <= brk && Apart(f, Chunk(a, live[a])))
    && (forall a, b :: a in live && b in live && a != b ==> Disjoint(Chunk(a, live[a]), Chunk(b, live[b])))
    && (forall i :: 0 <= i < |f| ==> f[i].End() <= brk)
  }

  ghost function Pick(live: map<int, int>): (a: int)
    requires exists a :: a in live
    ensures a in live
  {
    var a :| a in live; a
  }

  ghost function LiveUnits(live: map<int, int>): int
    decreases |live|
  {
    if exists a :: a in live then
      LiveRemoved(live, Pick(live));
      live[Pick(live)] + LiveUnits(live - {Pick(live)})
    else 0
  }

  lemma LiveRemoved(live: map<int, int>, a: int)
    requires a in live
    ensures |live - {a}| == |live| - 1
  {
    assert (live - {a}).Keys == live.Keys - {a};
  }

  lemma {:induction false} LiveUnitsRemove(live: map<int, int>, a: int)
    requires a in live
    ensures LiveUnits(live) == live[a] + LiveUnits(live - {a})
    decreases |live|
  {
    var b := Pick(live);
    if b != a {
      LiveRemoved(live, a);
      LiveRemoved(live, b);
      LiveUnitsRemove(live - {b}, a);
      LiveUnitsRemove(live - {a}, b);
      assert live - {b} - {a} == live - {a} - {b};
    }
  }

  lemma LiveUnitsAdd(live: map<int, int>, a: int, n: int)
    requires a !in live
    ensures LiveUnits(live[a := n]) == LiveUnits(live) + n
  {
    LiveUnitsRemove(live[a := n], a);
    assert live[a := n] - {a} == live;
  }

  ghost predicate Fits(f: seq<Chunk>, n: int) {
    exists j :: 0 <= j < |f| && f[j].size >= n
  }

  // ---- where free() stops ----

  /** The exit tests of the loop at umalloc.c:30-32 pick the one gap that b belongs in. */
  lemma Stops(f: seq<Chunk>, k: nat, i: nat, b: Chunk)
    requires Sorted(f) && Apart(f, b) && b.size > 0 && k < |f| && Between(f, i, b)
    ensures var p, q := f[k].addr, Successor(f, k + 1);
            (p < b.addr < q || (p >= q && (b.addr > p || b.addr < q))) <==> k == i
  {
    if Between(f, k, b) { OneGap(f, i, k, b); }
  }

  lemma OneGap(f: seq<Chunk>, i: nat, k: nat, b: Chunk)
    requires Sorted(f) && Between(f, i, b) && Between(f, k, b)
    ensures i == k
  {
    Around(f, i);
    Around(f, k);
  }

  /** Steps from node k to node i around the ring. */
  function Ahead(n: nat, k: nat, i: nat): (d: nat)
    requires i < n && k < n
    ensures d < n
  {
    if k <= i then i - k else i + n - k
  }

  // ---- relinking ----

  /** The headers outside blocks a up to b are as before, but for the pointer before them. */
  ghost predicate Kept(ptr: map<int, int>, size: map<int, int>, ptr': map<int, int>, size': map<int, int>, f: seq<Chunk>, a: nat, b: nat)
    requires a <= b <= |f|
  {
    && (forall k :: 0 <= k < a || b <= k < |f| ==>
          f[k].addr in size && f[k].addr in size' && size'[f[k].addr] == size[f[k].addr])
    && (forall k :: 0 <= k < a - 1 || b <= k < |f| ==>
          f[k].addr in ptr && f[k].addr in ptr' && ptr'[f[k].addr] == ptr[f[k].addr])
  }

  lemma SplicedLinked(ptr: map<int, int>, size: map<int, int>, ptr': map<int, int>, size': map<int, int>,
                      f: seq<Chunk>, a: nat, c: Chunk, b: nat)
    requires Linked(ptr, size, f) && 1 <= a <= b <= |f| && Kept(ptr, size, ptr', size', f, a, b)
    requires f[a - 1].addr in ptr' && ptr'[f[a - 1].addr] == c.addr
    requires c.addr in ptr' && c.addr in size' && ptr'[c.addr] == Successor(f, b) && size'[c.addr] == c.size
    ensures Linked(ptr', size', Splice(f, a, c, b))
  {
    hide Splice, Linked;
    var r := Splice(f, a, c, b);
    forall k: nat | k < |r| ensures NodeOk(ptr', size', r, k) {
      if k != a { UseLinked(ptr, size, f, if k < a then k else k - 1 + (b - a)); }
    }
    FromNodes(ptr', size', r);
  }

  lemma UseLinked(ptr: map<int, int>, size: map<int, int>, f: seq<Chunk>, i: nat)
    requires Linked(ptr, size, f) && i < |f|
    ensures NodeOk(ptr, size, f, i)
  {
  }

  lemma Headers(ptr: map<int, int>, size: map<int, int>, f: seq<Chunk>)
    requires Linked(ptr, size, f)
    ensures forall k :: 0 <= k < |f| ==> f[k].addr in ptr && f[k].addr in size && size[f[k].addr] == f[k].size
  {
    forall k: nat | k < |f| ensures f[k].addr in ptr && f[k].addr in size && size[f[k].addr] == f[k].size {
      UseLinked(ptr, size, f, k);
    }
  }

  lemma FromNodes(ptr: map<int, int>, size: map<int, int>, f: seq<Chunk>)
    requires forall i: nat :: i < |f| ==> NodeOk(ptr, size, f, i)
    ensures Linked(ptr, size, f)
  {
  }

  lemma DroppedLinked(ptr: map<int, int>, size: map<int, int>, ptr': map<int, int>, size': map<int, int>,
                      f: seq<Chunk>, i: nat)
    requires Linked(ptr, size, f) && 1 <= i < |f| && Kept(ptr, size, ptr', size', f, i, i + 1)
    requires f[i - 1].addr in ptr' && ptr'[f[i - 1].addr] == Successor(f, i + 1)
    ensures Linked(ptr', size', f[..i] + f[i + 1..])
  {
    hide Linked;
    var r := f[..i] + f[i + 1..];
    forall k: nat | k < |r| ensures NodeOk(ptr', size', r, k) {
      UseLinked(ptr, size, f, if k < i then k else k + 1);
    }
    FromNodes(ptr', size', r);
  }

  lemma Distinct(f: seq<Chunk>, i: nat)
    requires Sorted(f) && i < |f|
    ensures forall k :: 0 <= k < |f| && k != i ==> f[k].addr != f[i].addr
  {
    Around(f, i);
  }

  lemma NotListed(f: seq<Chunk>, b: Chunk)
    requires Sorted(f) && Apart(f, b) && b.size > 0
    ensures forall k :: 0 <= k < |f| ==> f[k].addr != b.addr
  {
    assert forall k :: 0 <= k < |f| ==> Disjoint(f[k], b);
  }

  /** The stores of umalloc.c:33-42 leave a ring over Inserted(f, i, b). */
  lemma LinkedInserted(ptr: map<int, int>, size: map<int, int>, f: seq<Chunk>, i: nat, b: Chunk)
    requires Sorted(f) && Apart(f, b) && b.size > 0 && Between(f, i, b) && Linked(ptr, size, f)
    requires b.addr in size && size[b.addr] == b.size
    ensures var g, p, next := Grown(f, i, b), f[i].addr, Successor(f, if MeetsNext(f, i, b) then i + 2 else i + 1);
            var ptr1, size1 := ptr[b.addr := next], size[b.addr := g.size];
            if f[i].End() == b.addr then Linked(ptr1[p := next], size1[p := f[i].size + g.size], Inserted(f, i, b))
            else Linked(ptr1[p := b.addr], size1, Inserted(f, i, b))
  {
    hide Splice, Sorted, Apart, Linked, Kept;
    Gap(f, i, b);
    var g, p, past := Grown(f, i, b), f[i].addr, if MeetsNext(f, i, b) then i + 2 else i + 1;
    var next := Successor(f, past);
    var ptr1, size1 := ptr[b.addr := next], size[b.addr := g.size];
    if f[i].End() == b.addr {
      UseLinked(ptr, size, f, i - 1);
      KeptInserted(ptr, size, f, i, b, next, g.size, next, f[i].size + g.size, i, past);
      Distinct(f, i - 1);
      NotListed(f, b);
      SplicedLinked(ptr, size, ptr1[p := next], size1[p := f[i].size + g.size], f, i, Chunk(p, f[i].size + g.size), past);
    } else {
      UseLinked(ptr, size, f, i);
      NotListed(f, b);
      KeptInserted(ptr, size, f, i, b, next, g.size, b.addr, f[i].size, i + 1, past);
      assert size1[p := f[i].size] == size1;
      SplicedLinked(ptr, size, ptr1[p := b.addr], size1, f, i + 1, g, past);
    }
  }

  lemma KeptInserted(ptr: map<int, int>, size: map<int, int>, f: seq<Chunk>, i: nat, b: Chunk,
                     next: int, n: int, next': int, n': int, from: nat, past: nat)
    requires Sorted(f) && Apart(f, b) && b.size > 0 && Linked(ptr, size, f) && i < past <= |f| && i <= from <= i + 1
    requires from == i + 1 ==> n' == f[i].size
    ensures Kept(ptr, size, ptr[b.addr := next][f[i].addr := next'], size[b.addr := n][f[i].addr := n'], f, from, past)
  {
    hide Splice, Sorted, Apart, Linked;
    Distinct(f, i);
    NotListed(f, b);
    Headers(ptr, size, f);
  }

  /** The stores of umalloc.c:76-82 leave a ring over Carved(f, i, n). */
  lemma LinkedCarved(ptr: map<int, int>, size: map<int, int>, f: seq<Chunk>, i: nat, n: nat)
    requires Sorted(f) && 1 <= i < |f| && 1 <= n <= f[i].size && Linked(ptr, size, f)
    ensures if f[i].size == n then Linked(ptr[f[i - 1].addr := Successor(f, i + 1)], size, Carved(f, i, n))
            else Linked(ptr, size[f[i].addr := f[i].size - n][Tail(f, i, n).addr := n], Carved(f, i, n))
  {
    Distinct(f, i);
    Distinct(f, i - 1);
    TailApart(f, i, n);
    Headers(ptr, size, f);
    UseLinked(ptr, size, f, i - 1);
    UseLinked(ptr, size, f, i);
    hide Splice, Sorted;
    if f[i].size == n {
      DroppedLinked(ptr, size, ptr[f[i - 1].addr := Successor(f, i + 1)], size, f, i);
    } else {
      var c := Chunk(f[i].addr, f[i].size - n);
      SplicedLinked(ptr, size, ptr, size[c.addr := c.size][Tail(f, i, n).addr := n], f, i, c, i + 1);
    }
  }

  lemma TailApart(f: seq<Chunk>, i: nat, n: nat)
    requires Sorted(f) && 1 <= i < |f| && 1 <= n <= f[i].size
    ensures f[i].size != n ==> forall k :: 0 <= k < |f| ==> f[k].addr != Tail(f, i, n).addr
  {
    Around(f, i);
  }

  // ---- the invariant ----

  ghost predicate HeapOk(ptr: map<int, int>, size: map<int, int>, f: seq<Chunk>, live: map<int, int>, total: int, brk: int) {
    && Sorted(f) && Linked(ptr, size, f) && LiveOk(f, live, size, brk)
    && Units(f) + LiveUnits(live) == total
  }

  ghost predicate SizesKept(size: map<int, int>, size': map<int, int>, live: map<int, int>) {
    forall a :: a in live && a in size ==> a in size' && size'[a] == size[a]
  }

  lemma FreedLive(f: seq<Chunk>, live: map<int, int>, size: map<int, int>, size': map<int, int>, brk: int, i: nat, b: int)
    requires Sorted(f) && LiveOk(f, live, size, brk) && b in live && Between(f, i, Chunk(b, live[b]))
    requires SizesKept(size, size', live - {b})
    ensures LiveOk(Inserted(f, i, Chunk(b, live[b])), live - {b}, size', brk)
  {
    hide Sorted, Apart, Inserted;
    var c := Chunk(b, live[b]);
    forall a | a in live - {b} ensures Apart(Inserted(f, i, c), Chunk(a, live[a])) {
      InsertedApart(f, i, c, Chunk(a, live[a]));
    }
    InsertedBelow(f, i, c, brk);
  }

  lemma InsertedBelow(f: seq<Chunk>, i: nat, b: Chunk, brk: int)
    requires i < |f| && b.End() <= brk && forall k :: 0 <= k < |f| ==> f[k].End() <= brk
    ensures forall k :: 0 <= k < |Inserted(f, i, b)| ==> Inserted(f, i, b)[k].End() <= brk
  {
    hide Splice;
  }

  lemma CarvedLive(f: seq<Chunk>, live: map<int, int>, size: map<int, int>, size': map<int, int>, brk: int, i: nat, n: nat)
    requires Sorted(f) && LiveOk(f, live, size, brk) && 1 <= i < |f| && 1 <= n <= f[i].size
    requires SizesKept(size, size', live) && Tail(f, i, n).addr in size' && size'[Tail(f, i, n).addr] == n
    ensures Tail(f, i, n).addr !in live
    ensures LiveOk(Carved(f, i, n), live[Tail(f, i, n).addr := n], size', brk)
  {
    hide Sorted, Apart, Carved;
    var t := Tail(f, i, n);
    CarvedTail(f, i, n);
    forall a | a in live ensures Apart(Carved(f, i, n), Chunk(a, live[a])) && Disjoint(t, Chunk(a, live[a])) {
      CarvedApart(f, i, n, Chunk(a, live[a]));
    }
    CarvedBelow(f, i, n, brk);
  }

  lemma CarvedBelow(f: seq<Chunk>, i: nat, n: nat, brk: int)
    requires i < |f| && n <= f[i].size && forall k :: 0 <= k < |f| ==> f[k].End() <= brk
    ensures forall k :: 0 <= k < |Carved(f, i, n)| ==> Carved(f, i, n)[k].End() <= brk
    ensures Tail(f, i, n).End() <= brk
  {
    hide Splice;
  }

  class Heap {
    const base: int
    var ptr: map<int, int>
    var size: map<int, int>
    var freep: int
    var brk: int
    ghost var free: seq<Chunk>
    ghost var live: map<int, int>
    ghost var total: int

    ghost predicate Valid()
      reads this
    {
      && 0 < base < brk < KERNBASE
      && (freep == 0 ==> free == [] && live == map[] && total == 0)
      && (freep != 0 ==> HeapOk(ptr, size, free, live, total, brk) && free[0] == Chunk(base, 0)
                         && exists k :: 0 <= k < |free| && free[k].addr == freep)
    }

    constructor (base: int, brk: int)
      requires 0 < base < brk < KERNBASE
      ensures Valid() && this.base == base && this.brk == brk && freep == 0
    {
      this.base, this.brk := base, brk;
      ptr, size, freep := map[], map[], 0;
      free, live, total := [], map[], 0;
    }

    /** free (umalloc.c:24-44). */
    method Free(ap: int)
      requires Valid() && ap - 8 in live
      modifies this`ptr, this`size, this`freep, this`free, this`live
      ensures Valid() && freep != 0 && live == old(live) - {ap - 8}
      ensures forall x :: Holds(free, x) <==> old(Holds(free, x)) || Chunk(ap - 8, old(live)[ap - 8]).Has(x)
      ensures Fits(free, old(live)[ap - 8])
    {
      hide HeapOk, Position, Inserted, Apart, Sorted, Linked, Between, Holds, Fits;
      var bp, p := ap - 8, freep;
      ghost var b := Chunk(bp, live[bp]);
      BlockOf(ptr, size, free, live, total, brk, bp);
      ghost var i := Position(free, b, 0);
      InList(free, i, b);
      ghost var k :| 0 <= k < |free| && free[k].addr == freep;
      UseLinked(ptr, size, free, k);
      Stops(free, k, i, b);
      while !(bp > p && bp < ptr[p])
        invariant 0 <= k < |free| && free[k].addr == p && NodeOk(ptr, size, free, k)
        invariant p < bp < ptr[p] ==> k == i
        modifies {}
        decreases Ahead(|free|, k, i)
      {
        Stops(free, k, i, b);
        if p >= ptr[p] && (bp > p || bp < ptr[p]) { break; }
        p := ptr[p];
        k := Next(free, k);
        UseLinked(ptr, size, free, k);
        Stops(free, k, i, b);
      }
      assert k == i;
      Relink(bp, p, i);
    }

    /** free's stores (umalloc.c:33-43) once p is the block before bp. */
    method Relink(bp: int, p: int, ghost i: nat)
      requires Valid() && bp in live && i < |free| && p == free[i].addr && Between(free, i, Chunk(bp, live[bp]))
      modifies this`ptr, this`size, this`freep, this`free, this`live
      ensures Valid() && freep != 0 && live == old(live) - {bp}
      ensures forall x :: Holds(free, x) <==> old(Holds(free, x)) || Chunk(bp, old(live)[bp]).Has(x)
      ensures Fits(free, old(live)[bp])
    {
      hide HeapOk, Inserted, Apart, Sorted, Linked, Between, Holds, Fits, LiveOk;
      ghost var b := Chunk(bp, live[bp]);
      BlockOf(ptr, size, free, live, total, brk, bp);
      InList(free, i, b);
      UseLinked(ptr, size, free, i);
      if i + 1 < |free| { UseLinked(ptr, size, free, i + 1); }
      FreedOk(ptr, size, free, live, total, brk, i, bp);
      if bp + 8 * size[bp] == ptr[p] {
        size, ptr := size[bp := size[bp] + size[ptr[p]]], ptr[bp := ptr[ptr[p]]];
      } else {
        assert size[bp := size[bp]] == size;
        ptr := ptr[bp := ptr[p]];
      }
      assert size == old(size)[bp := Grown(free, i, b).size];
      assert ptr == old(ptr)[bp := Successor(free, if MeetsNext(free, i, b) then i + 2 else i + 1)];
      if p + 8 * size[p] == bp {
        size, ptr := size[p := size[p] + size[bp]], ptr[p := ptr[bp]];
      } else {
        ptr := ptr[p := bp];
      }
      freep := p;
      free, live := Inserted(free, i, b), live - {bp};
    }

    /** morecore (umalloc.c:46-61); ok says whether the kernel finds the memory. */
    method Morecore(nu: int, ok: bool) returns (success: bool)
      requires Valid() && freep != 0 && 0 < nu < 0x1000_0000
      modifies this
      ensures Valid() && freep != 0 && live == old(live)
      ensures success == Grows(old(brk), nu, ok)
      ensures brk == if success then old(brk) + 8 * Core(nu) else old(brk)
      ensures total == if success then old(total) + Core(nu) else old(total)
      ensures !success ==> free == old(free)
      ensures success ==> Fits(free, nu) && forall x :: Holds(free, x) <==> old(Holds(free, x)) || old(brk) <= x < brk
    {
      hide HeapOk, Holds, Fits;
      var units := Core(nu);
      GrowthCovers(brk, units);
      var n := GrowBytes(units);
      if !(ok && brk + n < KERNBASE) { return false; }
      var hp := brk;
      brk := Moved(brk, n);
      size := size[hp := units];
      CoreOk(ptr, old(size), free, live, total, hp, units);
      live, total := live[hp := units], total + units;
      Free(hp + 8);
      assert live == old(live);
      FitsLess(free, units, nu);
      return true;
    }

    /** The first call makes the ring of base alone (umalloc.c:70-73). */
    method Init()
      requires Valid() && freep == 0
      modifies this`ptr, this`size, this`freep, this`free
      ensures Valid() && freep == base && free == [Chunk(base, 0)]
    {
      ptr, size, freep := ptr[base := base], size[base := 0], base;
      free := [Chunk(base, 0)];
      assert free[0].addr == freep;
      UnitsOne(Chunk(base, 0));
    }

    /** The last n units of block k, or all of it, become a live block (umalloc.c:75-84). */
    method Take(prevp: int, p: int, n: nat, ghost k: nat) returns (ap: int)
      requires Valid() && freep != 0 && 1 <= k < |free| && 1 <= n <= free[k].size && p == free[k].addr && prevp == free[k - 1].addr
      modifies this`ptr, this`size, this`freep, this`free, this`live
      ensures Valid() && freep != 0 && ap - 8 !in old(live) && live == old(live)[ap - 8 := n]
      ensures forall x :: old(Holds(free, x)) <==> Holds(free, x) || Chunk(ap - 8, n).Has(x)
    {
      hide HeapOk, Carved, Sorted, Linked, Holds;
      ghost var t := Tail(free, k, n);
      TakenOk(ptr, size, free, live, total, brk, k, n);
      var q := p;
      if size[p] == n {
        ptr := ptr[prevp := ptr[p]];
      } else {
        size := size[p := size[p] - n];
        q := p + 8 * size[p];
        size := size[q := n];
      }
      freep := prevp;
      free, live := Carved(free, k, n), live[t.addr := n];
      assert q == t.addr;
      return q + 8;
    }

    /**
     * malloc (umalloc.c:63-90).  It asks sbrk for memory at most once, and only when no
     * free block is large enough; such a request must be below 2^28 units, see GrowthCovers.
     */
    method Malloc(nbytes: int, ok: bool) returns (r: Option<int>)
      requires Valid() && 0 <= nbytes < WORD && (Fits(free, NUnits(nbytes)) || NUnits(nbytes) < 0x1000_0000)
      modifies this
      ensures Valid() && freep != 0
      ensures Fits(old(free), NUnits(nbytes)) ==> r.Some? && brk == old(brk) && total == old(total)
      ensures !Fits(old(free), NUnits(nbytes)) ==> (r.Some? <==> Grows(old(brk), NUnits(nbytes), ok))
      ensures !Fits(old(free), NUnits(nbytes)) && r.Some? ==>
                brk == old(brk) + 8 * Core(NUnits(nbytes)) && total == old(total) + Core(NUnits(nbytes))
      ensures r.None? ==> live == old(live) && brk == old(brk) && total == old(total)
      ensures r.None? ==> forall x :: Holds(free, x) <==> old(Holds(free, x))
      ensures r.Some? ==> r.value - 8 !in old(live) && live == old(live)[r.value - 8 := NUnits(nbytes)]
      ensures r.Some? ==> forall x :: Holds(free, x) || Chunk(r.value - 8, NUnits(nbytes)).Has(x)
                                      <==> old(Holds(free, x)) || old(brk) <= x < brk
    {
      hide HeapOk, Sorted, Linked, Holds, Fits, Grows, Core, Progress, Scanned, Round;
      var nunits := NUnits(nbytes);
      ghost var f0, brk0, total0 := free, brk, total;
      if freep == 0 { Init(); }
      Start(f0, free, base, brk, total, nunits, ok);
      var prevp := freep;
      ghost var s := WhereIs(freep);
      ghost var j, k, grown := s, Next(free, s), false;
      var p := ptr[prevp];
      UseLinked(ptr, size, free, k);
      Distinct(free, s);
      FreshRound(free, s, nunits);
      while true
        invariant Valid() && freep != 0 && live == old(live)
        invariant Sorted(free) && Linked(ptr, size, free) && 0 <= s < |free| && free[s].addr == freep
        invariant forall m :: 0 <= m < |free| && m != s ==> free[m].addr != freep
        invariant 0 <= j < |free| && k == Next(free, j) && free[j].addr == prevp && free[k].addr == p && NodeOk(ptr, size, free, k)
        invariant Scanned(free, s, k, nunits) && Progress(f0, brk0, total0, free, brk, total, nunits, ok, grown)
        decreases !grown, |free| - Round(|free|, s, k)
      {
        if size[p] >= nunits {
          FitsHere(free, k, nunits);
          Done(f0, brk0, total0, free, brk, total, nunits, ok, grown);
          var ap := Take(prevp, p, nunits, k);
          return Some(ap);
        }
        if p == freep {
          WentRound(free, s, nunits);
          MustGrow(f0, brk0, total0, free, brk, total, nunits, ok, grown);
          ghost var was := free;
          var success := Morecore(nunits, ok);
          if !success { return None; }
          GrewOnce(f0, brk0, total0, was, free, brk, nunits, ok);
          grown := true;
          p := freep;
          s := WhereIs(freep);
          k := s;
          Distinct(free, s);
          FreshRound(free, s, nunits);
        } else {
          NextRound(free, s, k, nunits);
        }
        prevp, p := p, ptr[p];
        j, k := k, Next(free, k);
        UseLinked(ptr, size, free, k);
      }
    }

    lemma WhereIs(p: int) returns (k: nat)
      requires Valid() && freep != 0 && p == freep
      ensures k < |free| && free[k].addr == p && NodeOk(ptr, size, free, k)
      ensures Sorted(free) && Linked(ptr, size, free)
    {
      k :| 0 <= k < |free| && free[k].addr == freep;
      UseLinked(ptr, size, free, k);
    }
  }

  // ---- malloc's trip around the ring ----

  /** How far malloc has come from free list f0 and process size brk0; grown says that it has called morecore. */
  ghost predicate Progress(f0: seq<Chunk>, brk0: int, total0: int, f: seq<Chunk>, brk: int, total: int,
                           nunits: int, ok: bool, grown: bool)
  {
    && (forall x :: Holds(f, x) <==> Holds(f0, x) || brk0 <= x < brk)
    && (Fits(f, nunits) <==> grown || Fits(f0, nunits))
    && (grown ==> !Fits(f0, nunits) && Grows(brk0, nunits, ok) && brk == brk0 + 8 * Core(nunits) && total == total0 + Core(nunits))
    && (!grown ==> brk == brk0 && total == total0)
  }

  lemma Start(f0: seq<Chunk>, f: seq<Chunk>, base: int, brk: int, total: int, nunits: int, ok: bool)
    requires nunits > 0 && (f == f0 || (f0 == [] && f == [Chunk(base, 0)]))
    ensures Progress(f0, brk, total, f, brk, total, nunits, ok, false)
  {
  }

  /** A block was found: what the caller learns. */
  lemma Done(f0: seq<Chunk>, brk0: int, total0: int, f: seq<Chunk>, brk: int, total: int, nunits: int, ok: bool, grown: bool)
    requires Progress(f0, brk0, total0, f, brk, total, nunits, ok, grown) && Fits(f, nunits)
    ensures forall x :: Holds(f, x) <==> Holds(f0, x) || brk0 <= x < brk
    ensures Fits(f0, nunits) ==> brk == brk0 && total == total0
    ensures !Fits(f0, nunits) ==> Grows(brk0, nunits, ok) && brk == brk0 + 8 * Core(nunits) && total == total0 + Core(nunits)
  {
    hide Holds, Fits, Grows, Core;
  }

  /** A whole round without success happens at most once. */
  lemma MustGrow(f0: seq<Chunk>, brk0: int, total0: int, f: seq<Chunk>, brk: int, total: int, nunits: int, ok: bool, grown: bool)
    requires Progress(f0, brk0, total0, f, brk, total, nunits, ok, grown) && !Fits(f, nunits)
    ensures !grown && !Fits(f0, nunits) && brk == brk0 && total == total0
    ensures forall x :: Holds(f, x) <==> Holds(f0, x)
  {
    hide Holds, Fits, Grows, Core;
  }

  lemma GrewOnce(f0: seq<Chunk>, brk0: int, total0: int, was: seq<Chunk>, f: seq<Chunk>, brk: int, nunits: int, ok: bool)
    requires !Fits(f0, nunits) && Fits(f, nunits) && Grows(brk0, nunits, ok) && brk == brk0 + 8 * Core(nunits)
    requires forall x :: Holds(was, x) <==> Holds(f0, x)
    requires forall x :: Holds(f, x) <==> Holds(was, x) || brk0 <= x < brk
    ensures Progress(f0, brk0, total0, f, brk, total0 + Core(nunits), nunits, ok, true)
  {
    hide Holds, Fits, Grows, Core;
  }

  lemma FitsHere(f: seq<Chunk>, k: nat, n: int)
    requires Sorted(f) && k < |f| && f[k].size >= n > 0
    ensures k >= 1 && Fits(f, n)
  {
  }

  lemma FreshRound(f: seq<Chunk>, s: nat, n: int)
    requires s < |f|
    ensures Scanned(f, s, Next(f, s), n)
  {
  }

  lemma NextRound(f: seq<Chunk>, s: nat, k: nat, n: int)
    requires s < |f| && k < |f| && k != s && Scanned(f, s, k, n) && f[k].size < n
    ensures Scanned(f, s, Next(f, k), n) && Round(|f|, s, Next(f, k)) == Round(|f|, s, k) + 1
  {
  }

  lemma WentRound(f: seq<Chunk>, s: nat, n: int)
    requires s < |f| && Scanned(f, s, s, n) && f[s].size < n
    ensures !Fits(f, n)
  {
    forall m | 0 <= m < |f| ensures f[m].size < n {
      assert m != s ==> Round(|f|, s, m) < Round(|f|, s, s);
    }
  }

  /** Nodes visited up to k in a round that starts after s. */
  function Round(n: nat, s: nat, k: nat): (d: nat)
    requires s < n && k < n
    ensures 1 <= d <= n
  {
    if s < k then k - s else k + n - s
  }

  /** The nodes visited before k are too small. */
  ghost predicate Scanned(f: seq<Chunk>, s: nat, k: nat, n: int)
    requires s < |f| && k < |f|
  {
    forall m :: 0 <= m < |f| && Round(|f|, s, m) < Round(|f|, s, k) ==> f[m].size < n
  }

  function Core(nu: int): int { if nu < MINUNITS then MINUNITS else nu }

  /** Does the kernel grant morecore its memory?  (vm.c:227-228) */
  predicate Grows(brk: int, nu: int, ok: bool) { ok && brk + 8 * Core(nu) < KERNBASE }

  lemma FitsLess(f: seq<Chunk>, n: int, m: int)
    requires Fits(f, n) && m <= n
    ensures Fits(f, m)
  {
    var j :| 0 <= j < |f| && f[j].size >= n;
    assert f[j].size >= m;
  }

  /** Memory from sbrk is a live block until free takes it. */
  lemma CoreOk(ptr: map<int, int>, size: map<int, int>, f: seq<Chunk>, live: map<int, int>, total: int, hp: int, units: int)
    requires HeapOk(ptr, size, f, live, total, hp) && units > 0 && f[0].addr < hp
    ensures hp !in live && HeapOk(ptr, size[hp := units], f, live[hp := units], total + units, hp + 8 * units)
  {
    hide Units, LiveUnits, Linked, LiveOk;
    CoreLive(f, live, size, hp, units);
    LiveUnitsAdd(live, hp, units);
    CoreLinked(ptr, size, f, hp, units);
  }

  lemma CoreLive(f: seq<Chunk>, live: map<int, int>, size: map<int, int>, hp: int, units: int)
    requires LiveOk(f, live, size, hp) && units > 0 && |f| > 0 && f[0].addr < hp
    ensures hp !in live && LiveOk(f, live[hp := units], size[hp := units], hp + 8 * units)
    ensures forall i :: 0 <= i < |f| ==> f[i].End() <= hp
  {
    assert forall a :: a in live ==> a < hp && Disjoint(Chunk(a, live[a]), Chunk(hp, units));
    assert Apart(f, Chunk(hp, units));
  }

  lemma CoreLinked(ptr: map<int, int>, size: map<int, int>, f: seq<Chunk>, hp: int, units: int)
    requires Sorted(f) && Linked(ptr, size, f) && f[0].addr < hp && forall i :: 0 <= i < |f| ==> f[i].End() <= hp
    ensures Linked(ptr, size[hp := units], f)
  {
    var size' := size[hp := units];
    forall i: nat | i < |f| ensures NodeOk(ptr, size', f, i) {
      UseLinked(ptr, size, f, i);
      assert f[i].addr < hp;
    }
  }

  lemma TakenOk(ptr: map<int, int>, size: map<int, int>, f: seq<Chunk>, live: map<int, int>, total: int, brk: int, k: nat, n: nat)
    requires HeapOk(ptr, size, f, live, total, brk) && 1 <= k < |f| && 1 <= n <= f[k].size
    ensures var t, r := Tail(f, k, n), Carved(f, k, n);
            && t.addr !in live && NodeOk(ptr, size, f, k) && r != [] && r[0] == f[0] && f[0].addr <= f[k - 1].addr
            && (exists m :: 0 <= m < |r| && r[m].addr == f[k - 1].addr)
            && (if f[k].size == n then HeapOk(ptr[f[k - 1].addr := Successor(f, k + 1)], size, r, live[t.addr := n], total, brk)
                else HeapOk(ptr, size[f[k].addr := f[k].size - n][t.addr := n], r, live[t.addr := n], total, brk))
            && forall x :: Holds(f, x) <==> Holds(r, x) || t.Has(x)
  {
    hide Units, LiveUnits, Linked, LiveOk, Sorted, Carved, Holds;
    var t, r := Tail(f, k, n), Carved(f, k, n);
    CarvedSorted(f, k, n);
    CarvedUnits(f, k, n);
    CarvedPlace(f, k, n);
    LinkedCarved(ptr, size, f, k, n);
    UseLinked(ptr, size, f, k);
    NotLive(f, live, size, brk, k);
    NotLive(f, live, size, brk, k - 1);
    forall x ensures Holds(f, x) <==> Holds(r, x) || t.Has(x) { CarvedHolds(f, k, n, x); }
    if f[k].size == n {
      CarvedLive(f, live, size, size, brk, k, n);
    } else {
      TailNotLive(f, live, size, brk, k, n);
      CarvedLive(f, live, size, size[f[k].addr := f[k].size - n][t.addr := n], brk, k, n);
    }
    LiveUnitsAdd(live, t.addr, n);
  }

  lemma TailNotLive(f: seq<Chunk>, live: map<int, int>, size: map<int, int>, brk: int, k: nat, n: nat)
    requires Sorted(f) && LiveOk(f, live, size, brk) && 1 <= k < |f| && 1 <= n <= f[k].size
    ensures Tail(f, k, n).addr !in live
  {
    assert forall a :: a in live ==> Disjoint(f[k], Chunk(a, live[a]));
  }

  lemma CarvedPlace(f: seq<Chunk>, k: nat, n: nat)
    requires 1 <= k < |f|
    ensures exists m :: 0 <= m < |Carved(f, k, n)| && Carved(f, k, n)[m].addr == f[k - 1].addr
  {
    hide Splice;
    assert Carved(f, k, n)[k - 1] == f[k - 1];
  }

  lemma BlockOf(ptr: map<int, int>, size: map<int, int>, f: seq<Chunk>, live: map<int, int>, total: int, brk: int, bp: int)
    requires HeapOk(ptr, size, f, live, total, brk) && bp in live
    ensures Sorted(f) && Linked(ptr, size, f) && Apart(f, Chunk(bp, live[bp])) && live[bp] > 0 && f[0].addr < bp
    ensures bp in size && size[bp] == live[bp]
  {
  }

  lemma InList(f: seq<Chunk>, i: nat, b: Chunk)
    requires Sorted(f) && Apart(f, b) && b.size > 0 && Between(f, i, b)
    ensures i < |f| && f[i].addr < b.addr && f[i].addr != b.addr && Successor(f, i + 1) != b.addr
    ensures i + 1 == |f| ==> Successor(f, i + 1) < b.addr && b.End() != Successor(f, i + 1)
    ensures i + 1 < |f| ==> f[i + 1].addr != f[i].addr
  {
    Gap(f, i, b);
  }

  /** What free leaves behind, for any stores that relink the list. */
  lemma FreedOk(ptr: map<int, int>, size: map<int, int>, f: seq<Chunk>, live: map<int, int>, total: int, brk: int, i: nat, bp: int)
    requires HeapOk(ptr, size, f, live, total, brk) && bp in live && Between(f, i, Chunk(bp, live[bp]))
    ensures var b := Chunk(bp, live[bp]); var r := Inserted(f, i, b);
            var g, p, next := Grown(f, i, b), f[i].addr, Successor(f, if MeetsNext(f, i, b) then i + 2 else i + 1);
            var ptr1, size1 := ptr[bp := next], size[bp := g.size];
            && (if f[i].End() == bp then HeapOk(ptr1[p := next], size1[p := f[i].size + g.size], r, live - {bp}, total, brk)
                else HeapOk(ptr1[p := bp], size1, r, live - {bp}, total, brk))
            && r[0] == f[0] && f[0].addr <= p && Fits(r, b.size) && (exists k :: 0 <= k < |r| && r[k].addr == p)
            && forall x :: Holds(r, x) <==> Holds(f, x) || b.Has(x)
  {
    hide Inserted, Apart, Sorted, Linked, Between, Holds, Fits, Units, LiveUnits, LiveOk;
    var b := Chunk(bp, live[bp]);
    BlockOf(ptr, size, f, live, total, brk, bp);
    InList(f, i, b);
    UseLinked(ptr, size, f, i);
    LinkedInserted(ptr, size, f, i, b);
    InsertedSorted(f, i, b);
    InsertedUnits(f, i, b);
    LiveUnitsRemove(live, bp);
    InsertedPlace(f, i, b);
    forall x ensures Holds(Inserted(f, i, b), x) <==> Holds(f, x) || b.Has(x) { InsertedHolds(f, i, b, x); }
    var g, p := Grown(f, i, b), f[i].addr;
    NotLive(f, live, size, brk, i);
    FreedLive(f, live, size, size[bp := g.size], brk, i, bp);
    FreedLive(f, live, size, size[bp := g.size][p := f[i].size + g.size], brk, i, bp);
  }

  lemma NotLive(f: seq<Chunk>, live: map<int, int>, size: map<int, int>, brk: int, i: nat)
    requires Sorted(f) && LiveOk(f, live, size, brk) && i < |f|
    ensures f[i].addr !in live && f[0].addr <= f[i].addr
  {
    Around(f, i);
    assert forall a :: a in live ==> f[0].addr < a && Disjoint(f[i], Chunk(a, live[a]));
  }

  lemma InsertedPlace(f: seq<Chunk>, i: nat, b: Chunk)
    requires Sorted(f) && Apart(f, b) && b.size > 0 && Between(f, i, b)
    ensures Fits(Inserted(f, i, b), b.size)
    ensures exists k :: 0 <= k < |Inserted(f, i, b)| && Inserted(f, i, b)[k].addr == f[i].addr
  {
    hide Splice, Sorted, Apart;
    Gap(f, i, b);
    var r := Inserted(f, i, b);
    assert r[i].addr == f[i].addr;
    assert r[if f[i].End() == b.addr then i else i + 1].size >= b.size;
  }
}
