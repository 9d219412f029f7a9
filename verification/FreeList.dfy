/**
 * The free list of the storage allocator, as a value: its blocks in address order.
 * A unit is one 8-byte header.  The first element stands for the static header `base`, which has no units.
 */
module FreeList {

  datatype Chunk = Chunk(addr: int, size: int) {
    function End(): int { addr + 8 * size }
    predicate Has(x: int) { addr <= x < End() }
  }

  /** Address ordered, disjoint, and no two blocks adjacent. */
  predicate Sorted(f: seq<Chunk>) {
    && |f| > 0 && f[0].size == 0
    && (forall i :: 1 <= i < |f| ==> f[i].size > 0)
    && (forall i, j :: 0 <= i < j < |f| ==> f[i].End() < f[j].addr)
  }

  /** Byte x is free. */
  predicate Holds(f: seq<Chunk>, x: int) {
    exists i :: 0 <= i < |f| && f[i].Has(x)
  }

  predicate Disjoint(b: Chunk, c: Chunk) { b.End() <= c.addr || c.End() <= b.addr }

  predicate Apart(f: seq<Chunk>, b: Chunk) {
    && |f| > 0 && f[0].addr < b.addr
    && forall i :: 0 <= i < |f| ==> Disjoint(f[i], b)
  }

  function Next(f: seq<Chunk>, i: nat): (j: nat)
    requires i < |f|
    ensures j < |f|
  {
    if i + 1 < |f| then i + 1 else 0
  }

  /** b belongs after f[i]. */
  predicate Between(f: seq<Chunk>, i: nat, b: Chunk) {
    i < |f| && f[i].addr < b.addr && (i + 1 < |f| ==> b.addr < f[i + 1].addr)
  }

  function Position(f: seq<Chunk>, b: Chunk, i: nat): (k: nat)
    requires Sorted(f) && Apart(f, b) && b.size > 0 && i < |f| && f[i].addr < b.addr
    ensures Between(f, k, b)
    decreases |f| - i
  {
    if i + 1 < |f| && f[i + 1].addr < b.addr then Position(f, b, i + 1) else i
  }

  /** Blocks a up to b make way for c. */
  function Splice(f: seq<Chunk>, a: nat, c: Chunk, b: nat): (r: seq<Chunk>)
    requires a <= b <= |f|
    ensures |r| == |f| + 1 - (b - a) && r[a] == c
    ensures forall k :: 0 <= k < a ==> r[k] == f[k]
    ensures forall k :: a < k < |r| ==> r[k] == f[k - 1 + (b - a)]
  {
    f[..a] + [c] + f[b..]
  }

  lemma SplicedSorted(f: seq<Chunk>, a: nat, c: Chunk, b: nat)
    requires Sorted(f) && 1 <= a <= b <= |f| && c.size > 0 && f[a - 1].End() < c.addr && (b < |f| ==> c.End() < f[b].addr)
    ensures Sorted(Splice(f, a, c, b))
  {
    hide Splice, Sorted;
    var r := Splice(f, a, c, b);
    Sizes(f);
    forall i, j | 0 <= i < j < |r| ensures r[i].End() < r[j].addr {
      var i', j' := if i < a then i else i - 1 + (b - a), if j < a then j else j - 1 + (b - a);
      if i < a <= j {
        if i < a - 1 { InOrder(f, i, a - 1); }
        if j != a && b < j' { InOrder(f, b, j'); }
      } else if i == a {
        if b < j' { InOrder(f, b, j'); }
      } else {
        InOrder(f, i', j');
      }
    }
    ToSorted(r);
  }

  lemma Sizes(f: seq<Chunk>)
    requires Sorted(f)
    ensures |f| > 0 && f[0].size == 0 && forall i :: 1 <= i < |f| ==> f[i].size > 0
  {
  }

  lemma InOrder(f: seq<Chunk>, i: nat, j: nat)
    requires Sorted(f) && i < j < |f|
    ensures f[i].End() < f[j].addr && f[i].addr <= f[i].End() && f[j].addr <= f[j].End()
  {
  }

  lemma ToSorted(f: seq<Chunk>)
    requires |f| > 0 && f[0].size == 0 && forall i :: 1 <= i < |f| ==> f[i].size > 0
    requires forall i, j :: 0 <= i < j < |f| ==> f[i].End() < f[j].addr
    ensures Sorted(f)
  {
  }

  lemma SplicedUnits(f: seq<Chunk>, a: nat, c: Chunk, b: nat)
    requires a <= b <= |f|
    ensures Units(Splice(f, a, c, b)) == Units(f) - Units(f[a..b]) + c.size
  {
    hide Units;
    UnitsConcat(f[..a] + [c], f[b..]);
    UnitsConcat(f[..a], [c]);
    UnitsOne(c);
    UnitsSplit(f, a, b);
  }

  lemma UnitsSplit(f: seq<Chunk>, a: nat, b: nat)
    requires a <= b <= |f|
    ensures Units(f) == Units(f[..a]) + Units(f[a..b]) + Units(f[b..])
  {
    hide Units;
    assert f == f[..a] + f[a..b] + f[b..];
    UnitsConcat(f[..a] + f[a..b], f[b..]);
    UnitsConcat(f[..a], f[a..b]);
  }

  lemma UnitsOne(c: Chunk)
    ensures Units([c]) == c.size
  {
    assert [c][..0] == [];
  }

  // ---- giving a block back ----

  predicate MeetsNext(f: seq<Chunk>, i: nat, b: Chunk)
    requires i < |f|
  {
    i + 1 < |f| && b.End() == f[i + 1].addr
  }

  /** b swallows the block that starts where b ends. */
  function Grown(f: seq<Chunk>, i: nat, b: Chunk): Chunk
    requires i < |f|
  {
    if MeetsNext(f, i, b) then Chunk(b.addr, b.size + f[i + 1].size) else b
  }

  /** ... and the block that ends where b starts swallows the result. */
  function Inserted(f: seq<Chunk>, i: nat, b: Chunk): seq<Chunk>
    requires i < |f|
  {
    var g, past := Grown(f, i, b), if MeetsNext(f, i, b) then i + 2 else i + 1;
    if f[i].End() == b.addr then Splice(f, i, Chunk(f[i].addr, f[i].size + g.size), past)
    else Splice(f, i + 1, g, past)
  }

  lemma Gap(f: seq<Chunk>, i: nat, b: Chunk)
    requires Sorted(f) && Apart(f, b) && b.size > 0 && Between(f, i, b)
    ensures f[i].End() <= b.addr && (i > 0 ==> f[i - 1].End() < f[i].addr && f[i].size > 0)
    ensures i + 1 < |f| ==> b.End() <= f[i + 1].addr && f[i + 1].size > 0
    ensures i + 2 < |f| ==> f[i + 1].End() < f[i + 2].addr
    ensures f[i].End() == b.addr ==> i > 0
  {
    assert Disjoint(f[i], b) && (i + 1 < |f| ==> Disjoint(f[i + 1], b));
  }

  lemma InsertedSorted(f: seq<Chunk>, i: nat, b: Chunk)
    requires Sorted(f) && Apart(f, b) && b.size > 0 && Between(f, i, b)
    ensures Sorted(Inserted(f, i, b)) && Inserted(f, i, b)[0] == f[0]
  {
    hide Splice, Sorted, Apart;
    Gap(f, i, b);
    var g, past := Grown(f, i, b), if MeetsNext(f, i, b) then i + 2 else i + 1;
    if f[i].End() == b.addr {
      SplicedSorted(f, i, Chunk(f[i].addr, f[i].size + g.size), past);
    } else {
      SplicedSorted(f, i + 1, g, past);
    }
  }

  /** Exactly the bytes of b become free. */
  lemma InsertedHolds(f: seq<Chunk>, i: nat, b: Chunk, x: int)
    requires Sorted(f) && Apart(f, b) && b.size > 0 && Between(f, i, b)
    ensures Holds(Inserted(f, i, b), x) <==> Holds(f, x) || b.Has(x)
  {
    var r := Inserted(f, i, b);
    if k :| 0 <= k < |f| && f[k].Has(x) {
      InsertedCovers(f, i, b, k);
      var m :| 0 <= m < |r| && r[m].addr <= f[k].addr && f[k].End() <= r[m].End();
      assert r[m].Has(x);
    }
    if b.Has(x) {
      var m := if f[i].End() == b.addr then i else i + 1;
      assert r[m].Has(x);
    }
    if m :| 0 <= m < |r| && r[m].Has(x) {
      InsertedFrom(f, i, b, m, x);
    }
  }

  lemma InsertedCovers(f: seq<Chunk>, i: nat, b: Chunk, k: nat)
    requires Sorted(f) && b.size > 0 && Between(f, i, b) && k < |f|
    ensures exists m :: 0 <= m < |Inserted(f, i, b)| && Inserted(f, i, b)[m].addr <= f[k].addr && f[k].End() <= Inserted(f, i, b)[m].End()
  {
    hide Splice, Sorted;
    Sizes(f);
    var r, left, right := Inserted(f, i, b), f[i].End() == b.addr, MeetsNext(f, i, b);
    var m := if k <= i then k else if k == i + 1 && right then (if left then i else i + 1)
             else k + (if left then 0 else 1) - (if right then 1 else 0);
    assert r[m].addr <= f[k].addr && f[k].End() <= r[m].End();
  }

  lemma InsertedFrom(f: seq<Chunk>, i: nat, b: Chunk, m: nat, x: int)
    requires i < |f| && m < |Inserted(f, i, b)| && Inserted(f, i, b)[m].Has(x)
    ensures Holds(f, x) || b.Has(x)
  {
    hide Splice;
    var left, right := f[i].End() == b.addr, MeetsNext(f, i, b);
    var here := if left then i else i + 1;
    if m == here {
      assert f[i].Has(x) || b.Has(x) || (right && f[i + 1].Has(x));
    } else {
      var k := if m < here then m else m - (if left then 0 else 1) + (if right then 1 else 0);
      assert f[k].Has(x);
    }
  }

  /** A block that is apart from the list and from b stays apart. */
  lemma InsertedApart(f: seq<Chunk>, i: nat, b: Chunk, c: Chunk)
    requires Sorted(f) && Apart(f, b) && b.size > 0 && Between(f, i, b) && Apart(f, c) && Disjoint(b, c) && c.size > 0
    ensures Apart(Inserted(f, i, b), c)
  {
  }

  function Units(f: seq<Chunk>): int { if f == [] then 0 else Units(f[..|f| - 1]) + f[|f| - 1].size }

  lemma {:induction false} UnitsConcat(f: seq<Chunk>, g: seq<Chunk>)
    ensures Units(f + g) == Units(f) + Units(g)
    decreases |g|
  {
    if g == [] {
      assert f + g == f;
    } else {
      assert (f + g)[..|f + g| - 1] == f + g[..|g| - 1];
      UnitsConcat(f, g[..|g| - 1]);
    }
  }

  lemma SliceUnits(f: seq<Chunk>, i: nat)
    requires i <= |f|
    ensures Units(f[i..i]) == 0
    ensures i < |f| ==> Units(f[i..i + 1]) == f[i].size
    ensures i + 1 < |f| ==> Units(f[i..i + 2]) == f[i].size + f[i + 1].size
  {
    assert f[i..i] == [];
    if i < |f| {
      UnitsOne(f[i]);
      assert f[i..i + 1] == [f[i]];
    }
    if i + 1 < |f| {
      UnitsOne(f[i + 1]);
      assert f[i..i + 2] == [f[i]] + [f[i + 1]];
      UnitsConcat([f[i]], [f[i + 1]]);
    }
  }

  lemma InsertedUnits(f: seq<Chunk>, i: nat, b: Chunk)
    requires i < |f|
    ensures Units(Inserted(f, i, b)) == Units(f) + b.size
  {
    hide Units, Splice;
    var g, past := Grown(f, i, b), if MeetsNext(f, i, b) then i + 2 else i + 1;
    SliceUnits(f, i);
    SliceUnits(f, i + 1);
    if f[i].End() == b.addr {
      SplicedUnits(f, i, Chunk(f[i].addr, f[i].size + g.size), past);
    } else {
      SplicedUnits(f, i + 1, g, past);
    }
  }

  // ---- taking units out of a block ----

  /** The tail of block i goes, or the whole block when it has n units. */
  function Carved(f: seq<Chunk>, i: nat, n: nat): seq<Chunk>
    requires i < |f|
  {
    if f[i].size == n then f[..i] + f[i + 1..] else Splice(f, i, Chunk(f[i].addr, f[i].size - n), i + 1)
  }

  function Tail(f: seq<Chunk>, i: nat, n: nat): Chunk
    requires i < |f|
  {
    Chunk(f[i].addr + 8 * (f[i].size - n), n)
  }

  lemma CarvedSorted(f: seq<Chunk>, i: nat, n: nat)
    requires Sorted(f) && 1 <= i < |f| && 1 <= n <= f[i].size
    ensures Sorted(Carved(f, i, n)) && Carved(f, i, n)[0] == f[0]
  {
    if f[i].size != n {
      hide Splice;
      SplicedSorted(f, i, Chunk(f[i].addr, f[i].size - n), i + 1);
    }
  }

  lemma CarvedTail(f: seq<Chunk>, i: nat, n: nat)
    requires Sorted(f) && 1 <= i < |f| && 1 <= n <= f[i].size
    ensures Apart(Carved(f, i, n), Tail(f, i, n))
  {
    hide Sorted;
    Around(f, i);
  }

  lemma Around(f: seq<Chunk>, i: nat)
    requires Sorted(f) && i < |f|
    ensures forall k :: 0 <= k < i ==> f[k].End() < f[i].addr
    ensures forall k :: i < k < |f| ==> f[i].End() < f[k].addr
    ensures f[0].size == 0
  {
  }

  /** Exactly the bytes of the tail stop being free. */
  lemma CarvedHolds(f: seq<Chunk>, i: nat, n: nat, x: int)
    requires Sorted(f) && 1 <= i < |f| && 1 <= n <= f[i].size
    ensures Holds(f, x) <==> Holds(Carved(f, i, n), x) || Tail(f, i, n).Has(x)
    ensures !(Holds(Carved(f, i, n), x) && Tail(f, i, n).Has(x))
  {
    hide Sorted, Splice;
    CarvedTail(f, i, n);
    if f[i].size == n { DroppedHolds(f, i, n, x); } else { ShrunkHolds(f, i, n, x); }
  }

  lemma DroppedHolds(f: seq<Chunk>, i: nat, n: nat, x: int)
    requires i < |f| && f[i].size == n
    ensures Holds(f, x) <==> Holds(f[..i] + f[i + 1..], x) || Tail(f, i, n).Has(x)
  {
    var r := f[..i] + f[i + 1..];
    if k :| 0 <= k < |f| && f[k].Has(x) {
      if k != i { assert r[if k < i then k else k - 1] == f[k]; }
    }
    if m :| 0 <= m < |r| && r[m].Has(x) {
      assert f[if m < i then m else m + 1] == r[m];
    }
    assert Tail(f, i, n) == f[i];
  }

  lemma ShrunkHolds(f: seq<Chunk>, i: nat, n: nat, x: int)
    requires i < |f| && 1 <= n < f[i].size
    ensures Holds(f, x) <==> Holds(Splice(f, i, Chunk(f[i].addr, f[i].size - n), i + 1), x) || Tail(f, i, n).Has(x)
  {
    hide Splice;
    var c := Chunk(f[i].addr, f[i].size - n);
    var r := Splice(f, i, c, i + 1);
    assert f[i].Has(x) <==> c.Has(x) || Tail(f, i, n).Has(x);
    if k :| 0 <= k < |f| && f[k].Has(x) {
      if k != i { assert r[k] == f[k]; } else if c.Has(x) { assert r[i].Has(x); }
    }
    if m :| 0 <= m < |r| && r[m].Has(x) {
      if m != i { assert f[m] == r[m]; } else { assert f[i].Has(x); }
    }
  }

  lemma CarvedApart(f: seq<Chunk>, i: nat, n: nat, c: Chunk)
    requires Sorted(f) && 1 <= i < |f| && 1 <= n <= f[i].size && Apart(f, c) && c.size > 0
    ensures Apart(Carved(f, i, n), c) && Disjoint(Tail(f, i, n), c)
  {
    assert Disjoint(f[i], c);
  }

  lemma CarvedUnits(f: seq<Chunk>, i: nat, n: nat)
    requires i < |f|
    ensures Units(Carved(f, i, n)) == Units(f) - n
  {
    hide Units, Splice;
    UnitsOne(f[i]);
    assert f[i..i + 1] == [f[i]];
    SplicedUnits(f, i, Chunk(f[i].addr, f[i].size - n), i + 1);
    UnitsSplit(f, i, i + 1);
    UnitsConcat(f[..i], f[i + 1..]);
  }

  // ---- the set of free bytes determines the list ----

  /** Merging with every neighbour leaves one possible list for each set of free bytes. */
  lemma Canonical(f: seq<Chunk>, g: seq<Chunk>)
    requires Sorted(f) && Sorted(g) && f[0] == g[0]
    requires forall x :: Holds(f, x) <==> Holds(g, x)
    ensures f == g
  {
    if |f| <= |g| { SamePrefix(f, g, |f|); Longer(f, g); } else { SamePrefix(g, f, |g|); Longer(g, f); }
  }

  lemma Longer(f: seq<Chunk>, g: seq<Chunk>)
    requires Sorted(f) && Sorted(g) && |f| <= |g| && g[..|f|] == f
    requires forall x :: Holds(f, x) <==> Holds(g, x)
    ensures |f| == |g|
  {
    if |f| < |g| {
      var x := g[|f|].addr;
      assert g[|f|].Has(x);
      assert forall k :: 0 <= k < |f| ==> f[k] == g[k] && !f[k].Has(x);
      assert Holds(g, x);
    }
  }

  lemma {:induction false} SamePrefix(f: seq<Chunk>, g: seq<Chunk>, n: nat)
    requires Sorted(f) && Sorted(g) && f[0] == g[0] && n <= |f| <= |g|
    requires forall x :: Holds(f, x) <==> Holds(g, x)
    ensures f[..n] == g[..n]
  {
    if n > 1 {
      SamePrefix(f, g, n - 1);
      assert forall k :: 0 <= k < n - 1 ==> f[k] == f[..n - 1][k] && g[k] == g[..n - 1][k];
      StartsNoLater(f, g, n - 1);
      StartsNoLater(g, f, n - 1);
      EndsNoLater(f, g, n - 1);
      EndsNoLater(g, f, n - 1);
    }
  }

  lemma StartsNoLater(f: seq<Chunk>, g: seq<Chunk>, i: nat)
    requires Sorted(f) && Sorted(g) && 1 <= i < |f| && i < |g| && forall k :: 0 <= k < i ==> f[k] == g[k]
    requires forall x :: Holds(f, x) ==> Holds(g, x)
    ensures g[i].addr <= f[i].addr
  {
    assert forall k :: 0 <= k < i ==> f[k].End() < f[i].addr && !g[k].Has(f[i].addr);
    assert f[i].Has(f[i].addr);
    assert Holds(f, f[i].addr);
    var k :| 0 <= k < |g| && g[k].Has(f[i].addr);
    assert k >= i;
  }

  lemma EndsNoLater(f: seq<Chunk>, g: seq<Chunk>, i: nat)
    requires Sorted(f) && Sorted(g) && 1 <= i < |f| && i < |g| && f[i].addr == g[i].addr
    requires forall x :: Holds(g, x) ==> Holds(f, x)
    ensures g[i].End() <= f[i].End()
  {
    assert forall k :: 0 <= k < |f| ==> !f[k].Has(f[i].End());
    if f[i].End() < g[i].End() {
      assert g[i].Has(f[i].End());
      assert Holds(g, f[i].End());
    }
  }
}
