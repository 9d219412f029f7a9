/** How many pages the operations of vm.c take: the page tables that a directory has and those that it needs. */
module VmCount {
  import opened Common
  import opened VmSpec
  import opened VmViews

  /** The indices at which directory d has a page table. */
  ghost function Present(mem: map<nat, Page>, d: nat): (r: set<nat>) {
    set x: nat | x < ENTRIES && d in mem && x < |mem[d]| && mem[d][x].p
  }

  /** The page tables of n pages from `first` on. */
  ghost function Spanned(first: nat, n: nat): (r: set<nat>) {
    set i: nat | i < n :: PageAt(first, i) / ENTRIES
  }

  /** The page tables of the pages lo up to hi. */
  ghost function Touched(lo: nat, hi: nat): (r: set<nat>) {
    set v: nat | lo <= v < hi :: v / ENTRIES
  }

  /** The indices lo up to hi. */
  ghost function Indices(lo: nat, hi: nat): (r: set<nat>)
    ensures forall x: nat :: x in r <==> lo <= x < hi
    ensures lo <= hi ==> |r| == hi - lo
    decreases hi
  {
    if hi <= lo then {} else Indices(lo, hi - 1) + {hi - 1}
  }

  lemma SpannedNext(first: nat, n: nat)
    ensures Spanned(first, n + 1) == Spanned(first, n) + {PageAt(first, n) / ENTRIES}
    ensures Spanned(first, 0) == {}
  {
    hide PageAt;
    forall x | x in Spanned(first, n) ensures x in Spanned(first, n + 1) {
      var i: nat :| i < n && PageAt(first, i) / ENTRIES == x;
      assert PageAt(first, i) / ENTRIES in Spanned(first, n + 1);
    }
    assert PageAt(first, n) / ENTRIES in Spanned(first, n + 1);
  }

  lemma TouchedNext(lo: nat, hi: nat)
    requires lo <= hi
    ensures Touched(lo, hi + 1) == Touched(lo, hi) + {hi / ENTRIES} && Touched(lo, lo) == {}
  {
    forall x | x in Touched(lo, hi) ensures x in Touched(lo, hi + 1) {
      var v: nat :| lo <= v < hi && v / ENTRIES == x;
      assert v / ENTRIES in Touched(lo, hi + 1);
    }
    assert hi / ENTRIES in Touched(lo, hi + 1);
  }

  lemma TouchedLess(lo: nat, mid: nat, hi: nat)
    requires lo <= mid <= hi
    ensures Touched(lo, mid) <= Touched(lo, hi)
  {
    forall x | x in Touched(lo, mid) ensures x in Touched(lo, hi) {
      var v: nat :| lo <= v < mid && v / ENTRIES == x;
      assert v / ENTRIES in Touched(lo, hi);
    }
  }

  /** The page tables of a user part of n pages. */
  lemma TouchedSize(n: nat)
    ensures Touched(0, n) == Indices(0, (n + ENTRIES - 1) / ENTRIES) && |Touched(0, n)| == (n + ENTRIES - 1) / ENTRIES
  {
    hide Indices;
    var m := (n + ENTRIES - 1) / ENTRIES;
    forall x: nat | x < m ensures x in Touched(0, n) {
      assert 0 <= x * ENTRIES < n && x * ENTRIES / ENTRIES == x;
    }
    forall x | x in Touched(0, n) ensures x < m {
      var v: nat :| 0 <= v < n && v / ENTRIES == x;
    }
    assert Touched(0, n) == Indices(0, m);
  }

  // ---- the kernel part ----

  /** The page tables of the kernel mapping: 56 for physical memory, 8 for devices. */
  ghost function KernelTables(): (r: set<nat>) {
    Indices(512, 568) + Indices(1016, 1024)
  }

  lemma KernelTablesSize()
    ensures |KernelTables()| == 64
  {
    hide Indices;
    assert Indices(512, 568) !! Indices(1016, 1024);
  }

  lemma KmapTables(data: nat, k: nat, n: nat)
    requires DataStart(data) && k < 4
    requires n <= PageCount(Kmaps(data)[k].virt, KmapSize(Kmaps(data)[k]))
    ensures Spanned(Kmaps(data)[k].virt / PGSIZE, n) <= KernelTables()
    ensures n < PageCount(Kmaps(data)[k].virt, KmapSize(Kmaps(data)[k])) ==> PageAt(Kmaps(data)[k].virt / PGSIZE, n) / ENTRIES in KernelTables()
  {
    hide Indices;
    var m := Kmaps(data)[k];
    KmapRange(data, k);
    forall i: nat | i < PageCount(m.virt, KmapSize(m)) ensures PageAt(m.virt / PGSIZE, i) / ENTRIES in KernelTables() {
      OffsetOf(m.virt / PGSIZE, i);
      KernelIndex(data / PGSIZE, PageAt(m.virt / PGSIZE, i));
    }
  }

  lemma KernelIndex(dp: nat, v: nat)
    requires v < PAGES && Region(dp, v) < 4 && 0x8_0100 < dp < 0x8_E000
    ensures v / ENTRIES in KernelTables()
  {
    hide Indices;
  }

  lemma PresentAt(mem: map<nat, Page>, d: nat, v: nat)
    requires v < PAGES && At(mem, d, v).Some?
    ensures v / ENTRIES in Present(mem, d)
  {
  }

  lemma KernelPresent(mem: map<nat, Page>, d: nat, dp: nat)
    requires forall v: nat :: v < PAGES ==> At(mem, d, v) == KernelAt(dp, v)
    ensures KernelTables() <= Present(mem, d)
  {
    hide At, Indices;
    forall x | x in KernelTables() ensures x in Present(mem, d) {
      assert x * ENTRIES < PAGES && KernelAt(dp, x * ENTRIES).Some? && x * ENTRIES / ENTRIES == x;
      PresentAt(mem, d, x * ENTRIES);
    }
  }

  /** The pages that copyuvm takes for n user pages: the directory, its kernel part, the user page tables, the pages. */
  function CopyCost(n: nat): (r: nat) {
    65 + (n + ENTRIES - 1) / ENTRIES + n
  }

  lemma CopyTables(n: nat)
    requires n <= KERNPAGE
    ensures |KernelTables() + Touched(0, n)| == 64 + (n + ENTRIES - 1) / ENTRIES
  {
    hide Indices;
    TouchedSize(n);
    KernelTablesSize();
    assert KernelTables() !! Touched(0, n);
  }

  /** The page tables that directory d lacks for page v. */
  ghost function Lack(mem: map<nat, Page>, d: nat, v: nat): (n: nat) {
    if v / ENTRIES in Present(mem, d) then 0 else 1
  }

  lemma CopyCostNext(mem: map<nat, Page>, d: nat, i: nat, n: nat)
    requires i < n <= KERNPAGE && Present(mem, d) == KernelTables() + Touched(0, i)
    ensures |Present(mem, d)| == CopyCost(i) - i - 1
    ensures CopyCost(i) + 1 + Lack(mem, d, i) == CopyCost(i + 1) <= CopyCost(n)
  {
    hide KernelTables, Touched, Present;
    CopyTables(i);
    CopyTables(i + 1);
    TouchedNext(0, i);
    assert KernelTables() + Touched(0, i + 1) == Present(mem, d) + {i / ENTRIES};
    if i / ENTRIES in Present(mem, d) { assert Present(mem, d) + {i / ENTRIES} == Present(mem, d); }
  }

  /** What allocuvm takes for the pages lo up to hi: the pages, and the page tables that are missing. */
  ghost function AllocCost(mem: map<nat, Page>, d: nat, lo: nat, hi: nat): (n: nat)
  {
    (if lo <= hi then hi - lo else 0) + |Touched(lo, hi) - Present(mem, d)|
  }

  lemma AllocCostNext(mem0: map<nat, Page>, mem: map<nat, Page>, d: nat, lo: nat, a: nat, hi: nat)
    requires lo <= a < hi && Present(mem, d) == Present(mem0, d) + Touched(lo, a)
    ensures AllocCost(mem0, d, lo, a) + 1 + Lack(mem, d, a) == AllocCost(mem0, d, lo, a + 1) <= AllocCost(mem0, d, lo, hi)
  {
    hide Touched, Present;
    TouchedNext(lo, a);
    TouchedLess(lo, a + 1, hi);
    var p := Present(mem0, d);
    SubsetSize(Touched(lo, a + 1) - p, Touched(lo, hi) - p);
    if a / ENTRIES in Present(mem, d) {
      assert Touched(lo, a + 1) - p == Touched(lo, a) - p;
    } else {
      assert Touched(lo, a + 1) - p == (Touched(lo, a) - p) + {a / ENTRIES};
    }
  }

  lemma SmallerSize(a: set<nat>, b: set<nat>, x: nat)
    requires a <= b && x in b && x !in a
    ensures |a| < |b|
  {
    SubsetSize(a, b - {x});
  }

  lemma BlankPresent(mem: map<nat, Page>, d: nat)
    requires d in mem && mem[d] == Blank()
    ensures Present(mem, d) == {}
  {
  }

  /** A new page table takes one page. */
  lemma TableCounted(mem: map<nat, Page>, mem': map<nat, Page>, d: nat, x: nat, t: nat)
    requires d in mem && |mem[d]| == ENTRIES && x < ENTRIES && !mem[d][x].p
    requires d in mem' && mem'[d] == mem[d][x := Word(t, true, WRITE_USER)]
    ensures Present(mem', d) == Present(mem, d) + {x} && |Present(mem', d)| == |Present(mem, d)| + 1
  {
    assert x !in Present(mem, d);
    assert Present(mem', d) == Present(mem, d) + {x};
  }

  lemma FetchedPresent(mem: map<nat, Page>, mem': map<nat, Page>, role: map<nat, Role>, d: nat, m: nat, page: Page)
    requires IsDir(role, d) && m in role && role[m].Free? && mem' == mem[m := page]
    ensures Present(mem', d) == Present(mem, d)
  {
  }

  lemma OneSpanned(a: nat)
    requires a < PAGES
    ensures Spanned(a, 0) == {} && Spanned(a, 1) == {a / ENTRIES}
  {
    SpannedNext(a, 0);
  }

  lemma AllocCostStart(mem: map<nat, Page>, d: nat, lo: nat)
    ensures AllocCost(mem, d, lo, lo) == 0 && Present(mem, d) == Present(mem, d) + Touched(lo, lo)
  {
    hide Touched;
    TouchedNext(lo, lo);
    assert Touched(lo, lo) - Present(mem, d) == {};
  }

  lemma CopyCostFrom(n: nat)
    ensures CopyCost(0) == 65 <= CopyCost(n) && KernelTables() == KernelTables() + Touched(0, 0)
  {
    hide KernelTables;
    TouchedNext(0, 0);
  }
}
