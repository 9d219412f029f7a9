/** Page allocation and page tables over the pages of VmSpec (kalloc.c, vm.c). */
module Vm {
  import opened Common
  import opened VmSpec
  import opened VmViews
  import opened VmCount

  class Memory {
    var mem: map<nat, Page>
    var head: nat               // kmem.freelist, 0 when empty
    ghost var free: seq<nat>
    ghost var role: map<nat, Role>

    ghost predicate Valid()
      reads this
    {
      RoleOk(mem, role) && FreeOk(mem, head, free, role)
    }

    /** The machine before kinit: the given pages are managed, and none is on the free list yet. */
    constructor (pages: set<nat>)
      requires 0 !in pages
      ensures Valid() && free == [] && role == map p | p in pages :: Other
    {
      mem := map p | p in pages :: Blank();
      head, free := 0, [];
      role := map p | p in pages :: Other;
    }

    /** freerange (kalloc.c:46-53) over physical addresses. */
    method FreeRange(vstart: nat, vend: nat)
      requires Valid()
      requires forall p :: RoundUp(vstart) <= p < vend / PGSIZE ==> p in role && role[p].Other?
      modifies this
      ensures Valid() && role == RangeFreed(old(role), RoundUp(vstart), vend / PGSIZE)
      ensures |free| == |old(free)| + if RoundUp(vstart) < vend / PGSIZE then vend / PGSIZE - RoundUp(vstart) else 0
    {
      hide RoleOk, FreeOk;
      var p := RoundUp(vstart);
      assert RangeFreed(role, p, p) == role;
      while (p + 1) * PGSIZE <= vend
        invariant Valid() && RoundUp(vstart) <= p && (p <= vend / PGSIZE || p == RoundUp(vstart))
        invariant role == RangeFreed(old(role), RoundUp(vstart), p) && |free| == |old(free)| + p - RoundUp(vstart)
      {
        RangeFreedNext(old(role), RoundUp(vstart), p);
        Kfree(p);
        p := p + 1;
      }
      assert p >= vend / PGSIZE;
      assert RangeFreed(old(role), RoundUp(vstart), p) == RangeFreed(old(role), RoundUp(vstart), vend / PGSIZE);
    }

    /** kalloc (kalloc.c:82-95) */
    method Kalloc() returns (r: Option<nat>)
      requires Valid()
      modifies this`head, this`free, this`role
      ensures Valid() && (r.None? <==> old(free) == []) && role.Keys == old(role).Keys
      ensures r.None? ==> role == old(role) && free == old(free)
      ensures r.Some? ==> r.value in old(role) && old(role)[r.value].Free? && role == old(role)[r.value := Other] && free == old(free)[1..]
    {
      if head == 0 {
        assert free != [] ==> Chain(mem, head, free);
        return None;
      }
      Popped(mem, head, free, role);
      Flip(mem, role, head, Other);
      r := Some(head);
      free, role := free[1..], role[head := Other];
      head := mem[head][0].frame;
    }

    /** kfree (kalloc.c:59-77); junk is what memset leaves. */
    method Kfree(p: nat)
      requires Valid() && p in role && role[p].Other?
      modifies this
      ensures Valid() && role == old(role)[p := Free] && free == [p] + old(free)
      ensures p in mem && mem == old(mem)[p := mem[p]] && SameViews(old(mem), mem, old(role))
    {
      var junk := Word(0x1010, true, 0x100);
      var page := seq(ENTRIES, _ => junk)[0 := Word(head, false, 0)];
      Pushed(mem, head, free, role, p, page);
      DataStore(mem, mem[p := page], role);
      Flip(mem[p := page], role, p, Free);
      mem := mem[p := page];
      head := p;
      free, role := [p] + free, role[p := Free];
    }

    /** walkpgdir (vm.c:35-55) on a directory index: the page table, if there is or can be one. */
    method Walk(d: nat, x: nat, alloc: bool) returns (t: Option<nat>)
      requires Valid() && IsDir(role, d) && x < ENTRIES
      modifies this
      ensures Valid() && SameViews(old(mem), mem, old(role)) && Grown(old(role), role, d) && DataKept(old(mem), old(role), mem, role)
      ensures t.Some? ==> IsTable(role, t.value, d, x)
      ensures t.None? ==> mem == old(mem) && role == old(role) && free == old(free) && !mem[d][x].p && (alloc ==> free == [])
      ensures !alloc ==> mem == old(mem) && role == old(role) && free == old(free) && (t.Some? <==> mem[d][x].p)
      ensures |free| + |Present(mem, d)| == |old(free)| + |Present(old(mem), d)|
      ensures t.Some? ==> Present(mem, d) == Present(old(mem), d) + {x}
      ensures t.None? ==> x !in Present(mem, d)
    {
      hide TablesOk, FramesOk, FreeOk;
      InShape(mem, role);
      ghost var mem0 := mem;
      if mem[d][x].p {
        TableAt(mem, role, d, x, 0);
        assert Present(mem, d) == Present(mem, d) + {x};
        return Some(mem[d][x].frame);
      }
      if !alloc { return None; }
      t := Kalloc();
      if t.None? { return None; }
      AddTable(d, x, t.value);
      TableCounted(mem0, mem, d, x, t.value);
      TableTaken(old(mem), old(role), mem, role, d, x, t.value);
    }

    /** walkpgdir's stores for a new page table (vm.c:48-52). */
    method AddTable(d: nat, x: nat, t: nat)
      requires Valid() && IsDir(role, d) && x < ENTRIES && d in mem && x < |mem[d]| && !mem[d][x].p && t in role && role[t].Other?
      modifies this`mem, this`role
      ensures Valid() && SameViews(old(mem), mem, old(role)) && role == old(role)[t := Table(d, x)]
      ensures d in mem && d in old(mem) && t in mem && mem == old(mem)[t := mem[t]][d := mem[d]]
      ensures mem[d] == old(mem)[d][x := Word(t, true, WRITE_USER)]
    {
      hide TablesOk, FramesOk, FreeOk, Lookup;
      NewTable(mem, role, d, x, t);
      ghost var mem', role' := mem[t := Blank()][d := mem[d][x := Word(t, true, WRITE_USER)]], role[t := Table(d, x)];
      FreeKept(mem, mem', head, free, role, role');
      mem := mem[t := Blank()];
      mem := mem[d := mem[d][x := Word(t, true, WRITE_USER)]];
      role := role';
    }

    /** mappages (vm.c:60-80); va, size and frame0 in bytes, bytes and pages. */
    method MapPages(d: nat, va: nat, size: nat, frame0: nat, perm: nat) returns (r: Result, ghost k: nat)
      requires Valid() && IsDir(role, d) && va < WORD && size < WORD
      requires forall i :: 0 <= i < PageCount(va, size) && PageAt(va / PGSIZE, i) < KERNPAGE ==> frame0 + i in role && role[frame0 + i].Other?
      modifies this
      ensures Valid() && k <= PageCount(va, size) && (r.Ok? <==> k == PageCount(va, size))
      ensures MappedRange(old(mem), mem, old(role), d, va / PGSIZE, k, frame0, perm)
      ensures Extended(old(role), role, d, va / PGSIZE, k, frame0) && DataKept(old(mem), old(role), mem, role)
      ensures r.NoMemory? ==> free == [] && PageAt(va / PGSIZE, k) / ENTRIES !in Present(mem, d)
      ensures r.Remap? ==> At(old(mem), d, PageAt(va / PGSIZE, k)).Some?
      ensures |free| + |Present(mem, d)| == |old(free)| + |Present(old(mem), d)|
      ensures !r.Remap? ==> Present(mem, d) == Present(old(mem), d) + Spanned(va / PGSIZE, k)
    {
      hide RoleOk, FreeOk, MappedRange, Extended, DataKept, At, PageCount, PageAt, Present, Spanned;
      SpannedNext(va / PGSIZE, 0);
      var first, last := va / PGSIZE, (va + size + WORD - 1) % WORD / PGSIZE;
      var a, f := first, frame0;
      k := 0;
      RangeStart(mem, role, d, first, frame0, perm);
      CountIs(va, size);
      while true
        invariant Valid() && IsDir(role, d) && a < PAGES && k < PageCount(va, size) && a == PageAt(first, k) && f == frame0 + k
        invariant MappedRange(old(mem), mem, old(role), d, first, k, frame0, perm)
        invariant Extended(old(role), role, d, first, k, frame0) && DataKept(old(mem), old(role), mem, role)
        invariant |free| + |Present(mem, d)| == |old(free)| + |Present(old(mem), d)|
        invariant Present(mem, d) == Present(old(mem), d) + Spanned(first, k)
        decreases PageCount(va, size) - k
      {
        ghost var mem1, role1 := mem, role;
        var t := Walk(d, a / ENTRIES, true);
        AfterWalk(old(mem), old(role), mem1, role1, mem, role, d, first, k, frame0, perm);
        if t.None? { return NoMemory, k; }
        EntryIs(mem, role, d, a, t.value);
        if mem[t.value][a % ENTRIES].p {
          NotYet(old(mem), mem, old(role), d, first, k, frame0, perm, a);
          return Remap, k;
        }
        StillOther(old(role), role, d, first, k, frame0);
        ghost var mem2, role2 := mem, role;
        SetEntry(d, a, t.value, f, perm);
        SpannedNext(first, k);
        AfterSet(old(mem), old(role), mem2, role2, mem, role, d, first, k, frame0, perm, a);
        k := k + 1;
        NextPage(va, size, k);
        if a == last { return Ok, k; }
        a, f := (a + 1) % PAGES, f + 1;
      }
    }

    /** The store of vm.c:73. */
    method SetEntry(d: nat, v: nat, t: nat, f: nat, perm: nat)
      requires Valid() && v < PAGES && IsTable(role, t, d, v / ENTRIES) && t in mem && |mem[t]| == ENTRIES && !mem[t][v % ENTRIES].p
      requires v < KERNPAGE ==> f in role && role[f].Other?
      modifies this`mem, this`role
      ensures Valid() && RemapsPage(old(mem), mem, old(role), d, v, Some(Word(f, true, perm)))
      ensures role == if v < KERNPAGE then old(role)[f := Frame(d, v / ENTRIES, v % ENTRIES)] else old(role)
      ensures DataKept(old(mem), old(role), mem, role) && Present(mem, d) == Present(old(mem), d)
    {
      hide RoleOk, FreeOk, Remaps;
      TableOf(mem, role, t, d, v / ENTRIES);
      assert d != t;
      ghost var role' := if v < KERNPAGE then role[f := Frame(d, v / ENTRIES, v % ENTRIES)] else role;
      NewEntry(mem, role, d, v / ENTRIES, t, v % ENTRIES, f, perm);
      mem := mem[t := mem[t][v % ENTRIES := Word(f, true, perm)]];
      FromRemaps(old(mem), mem, role, d, v, Some(Word(f, true, perm)));
      FreeKept(old(mem), mem, head, free, role, role');
      InShape(old(mem), role);
      role := role';
    }

    /** The user entry for page v goes, and its frame (vm.c:269-276; the stores of the two lines do not overlap). */
    method DropPage(d: nat, v: nat, t: nat)
      requires Valid() && v < KERNPAGE && IsTable(role, t, d, v / ENTRIES) && t in mem && |mem[t]| == ENTRIES && mem[t][v % ENTRIES].p
      modifies this
      ensures Valid() && RemapsPage(old(mem), mem, old(role), d, v, None) && DataKept(old(mem), old(role), mem, role)
      ensures var f := old(mem)[t][v % ENTRIES].frame;
              f in old(role) && old(role)[f] == Frame(d, v / ENTRIES, v % ENTRIES) && role == old(role)[f := Free]
      ensures d in mem && d in old(mem) && mem[d] == old(mem)[d]
    {
      hide RoleOk, FreeOk, Remaps;
      var f := mem[t][v % ENTRIES].frame;
      ghost var role1 := role[f := Other];
      InShape(mem, role);
      TableOf(mem, role, t, d, v / ENTRIES);
      DropEntry(mem, role, d, v / ENTRIES, t, v % ENTRIES);
      mem := mem[t := mem[t][v % ENTRIES := ZERO]];
      ghost var mem1 := mem;
      FromRemaps(old(mem), mem, role, d, v, None);
      FreeKept(old(mem), mem, head, free, role, role1);
      role := role1;
      Kfree(f);
      ThenSame(old(mem), mem1, mem, old(role), role1, d, v);
    }

    /** deallocuvm (vm.c:255-279), with its skip to the next page table. */
    method DeallocUvm(d: nat, oldsz: nat, newsz: nat) returns (r: nat)
      requires Valid() && IsDir(role, d) && oldsz <= KERNPAGE * PGSIZE
      modifies this
      ensures Valid() && r == if newsz >= oldsz then oldsz else newsz
      ensures role == Released(old(role), d, RoundUp(newsz), RoundUp(oldsz))
      ensures Unmapped(old(mem), mem, old(role), d, RoundUp(newsz), RoundUp(oldsz)) && DataKept(old(mem), old(role), mem, role)
      ensures d in mem && d in old(mem) && mem[d] == old(mem)[d]
    {
      hide RoleOk, FreeOk, Released, Unmapped, DataKept, RoundUp, At;
      ghost var lo, hi := RoundUp(newsz), RoundUp(oldsz);
      InShape(mem, role);
      ReleaseStart(mem, role, d, lo, hi, oldsz, newsz);
      if newsz >= oldsz { return oldsz; }
      Rounded(oldsz, newsz);
      var a := (newsz + PGSIZE - 1) / PGSIZE;
      while a * PGSIZE < oldsz
        invariant Valid() && IsDir(role, d) && lo <= a && role == Released(old(role), d, lo, Cap(a, hi))
        invariant Unmapped(old(mem), mem, old(role), d, lo, Cap(a, hi)) && DataKept(old(mem), old(role), mem, role)
        invariant d in mem && d in old(mem) && mem[d] == old(mem)[d]
        decreases oldsz - a * PGSIZE
      {
        Below(a, oldsz);
        var t := Walk(d, a / ENTRIES, false);
        if t.None? {
          SkipTable(old(mem), old(role), mem, role, d, lo, a, hi);
          a := (a / ENTRIES + 1) * ENTRIES - 1;
        } else {
          EntryIs(mem, role, d, a, t.value);
          ghost var mem1, role1 := mem, role;
          if mem[t.value][a % ENTRIES].p {
            DropPage(d, a, t.value);
            ReleaseOne(old(mem), old(role), mem1, role1, mem, role, d, lo, a);
          } else {
            NothingThere(old(mem), old(role), mem, role, d, lo, a);
          }
        }
        a := a + 1;
      }
      Above(a, oldsz);
      return newsz;
    }

    /** freevm (vm.c:283-298) */
    method FreeVm(d: nat)
      requires Valid() && IsDir(role, d)
      modifies this
      ensures Valid() && role == FreedAll(old(role), d) && DataKept(old(mem), old(role), mem, role)
      ensures OthersSame(old(mem), mem, old(role), d)
    {
      hide RoleOk, FreeOk, Released, Unmapped, DataKept, FreedAll, Retired, Retiring, OthersSame;
      var _ := DeallocUvm(d, KERNPAGE * PGSIZE, 0);
      Retire(old(mem), mem, old(role), role, d);
      RetireDir(mem, role, d);
      ghost var mem1, role1 := mem, role;
      RetiredFree(mem, head, free, role, d);
      role := Retired(role, d);
      RetiringStart(mem, role1, d);
      var i := 0;
      while i < ENTRIES
        invariant 0 <= i <= ENTRIES && Valid() && d in mem && mem[d] == mem1[d] && Retiring(mem1, role1, mem, role, d, i)
      {
        InDir(mem1, role1, mem, role, d, i);
        if mem[d][i].p {
          ghost var mem2, role2 := mem, role;
          Kfree(mem[d][i].frame);
          RetireOne(mem1, role1, mem2, role2, mem, role, d, i);
        } else {
          RetireNone(mem1, role1, mem, role, d, i);
        }
        i := i + 1;
      }
      ghost var mem2, role2 := mem, role;
      RetiringDir(mem1, role1, mem, role, d);
      Kfree(d);
      RetireLast(old(mem), old(role), mem1, role1, mem2, role2, mem, role, d);
    }

    /** setupkvm (vm.c:118-136) */
    method SetupKvm(data: nat) returns (r: Option<nat>)
      requires Valid() && DataStart(data)
      modifies this
      ensures Valid() && ViewsKept(old(mem), mem, old(role)) && DataKept(old(mem), old(role), mem, role)
      ensures r.None? <==> |old(free)| < 65
      ensures r.None? ==> role == old(role)
      ensures r.Some? ==> Present(mem, r.value) == KernelTables() && |free| == |old(free)| - 65
      ensures r.Some? ==> Taken(old(role), role, r.value, 0)
      ensures r.Some? ==> forall v: nat :: v < PAGES ==> At(mem, r.value, v) == KernelAt(data / PGSIZE, v)
    {
      hide RoleOk, FreeOk, ViewsKept, DataKept, KernelDone, Taken, Extended, MappedRange, At, Kmaps, KmapSize, PageCount, PageAt, FreedAll, OthersSame;
      hide Present, Spanned, KernelTables;
      KernelTablesSize();
      r := Kalloc();
      if r.None? {
        Nothing(mem, role);
        return;
      }
      var d := r.value;
      KernelStart(mem, old(role), role, d, data / PGSIZE);
      FreeKept(mem, mem[d := Blank()], head, free, role, role[d := Dir]);
      mem := mem[d := Blank()];
      role := role[d := Dir];
      BlankPresent(mem, d);
      var i := 0;
      while i < 4
        invariant 0 <= i <= 4 && Valid() && KernelDone(old(mem), old(role), mem, role, d, data / PGSIZE, i)
        invariant Present(mem, d) <= KernelTables() && |free| + |Present(mem, d)| + 1 == |old(free)|
      {
        KmapRange(data, i);
        UseKernel(old(mem), old(role), mem, role, d, data / PGSIZE, i);
        var k := Kmaps(data)[i];
        forall j | 0 <= j < PageCount(k.virt, KmapSize(k)) ensures PageAt(k.virt / PGSIZE, j) >= KERNPAGE && At(mem, d, PageAt(k.virt / PGSIZE, j)) == None {
          KernelRoom(mem, d, data, i, j);
        }
        ghost var mem1, role1 := mem, role;
        var res, n := MapPages(d, k.virt, KmapSize(k), k.physStart / PGSIZE, k.perm);
        KernelStep(old(mem), old(role), mem1, role1, mem, role, d, data, i, n);
        KmapTables(data, i, n);
        if !res.Ok? {
          SmallerSize(Present(mem, d), KernelTables(), PageAt(k.virt / PGSIZE, n) / ENTRIES);
          ghost var mem2, role2 := mem, role;
          TakenDir(role2, old(role), d, 0);
          FreeVm(d);
          GivenBack(old(mem), old(role), mem2, role2, mem, role, d, 0);
          return None;
        }
        i := i + 1;
      }
      UseKernel(old(mem), old(role), mem, role, d, data / PGSIZE, 4);
      KernelPresent(mem, d, data / PGSIZE);
      assert Present(mem, d) == KernelTables();
      return Some(d);
    }

    /** kalloc and memset or memmove: a page with the given contents, in the caller's hands. */
    method FetchPage(page: Page) returns (m: Option<nat>)
      requires Valid() && |page| == ENTRIES
      modifies this
      ensures Valid() && (m.None? <==> old(free) == [])
      ensures m.None? ==> mem == old(mem) && role == old(role)
      ensures m.Some? ==> Fetched(old(mem), old(role), mem, role, m.value, page) && free == old(free)[1..]
      ensures m.Some? ==> mem == old(mem)[m.value := page] && m.value in old(role) && old(role)[m.value].Free?
    {
      hide TablesOk, FramesOk, FreeOk;
      m := Kalloc();
      if m.None? { return; }
      DataStore(mem, mem[m.value := page], role);
      FreeKept(mem, mem[m.value := page], head, free, role, role);
      mem := mem[m.value := page];
    }

    /** A new page with the given contents at page a of directory d: kalloc and mappages, as in allocuvm and copyuvm. */
    method PlacePage(d: nat, a: nat, page: Page, perm: nat) returns (m: Option<nat>, ok: bool, ghost mem1: map<nat, Page>, ghost role1: map<nat, Role>)
      requires Valid() && IsDir(role, d) && |page| == ENTRIES && a < KERNPAGE && At(mem, d, a) == None
      modifies this
      ensures Valid() && (m.None? ==> !ok && mem == old(mem) && role == old(role))
      ensures m.Some? ==> Fetched(old(mem), old(role), mem1, role1, m.value, page)
      ensures m.Some? ==> MappedRange(mem1, mem, role1, d, a, if ok then 1 else 0, m.value, perm)
      ensures m.Some? ==> Extended(role1, role, d, a, if ok then 1 else 0, m.value) && DataKept(mem1, role1, mem, role)
      ensures ok <==> |old(free)| >= 1 + Lack(old(mem), d, a)
      ensures ok ==> |free| == |old(free)| - 1 - Lack(old(mem), d, a) && Present(mem, d) == Present(old(mem), d) + {a / ENTRIES}
    {
      hide RoleOk, FreeOk, At, Fetched, MappedRange, Extended, DataKept, Present, Spanned;
      m := FetchPage(page);
      mem1, role1 := mem, role;
      ok := false;
      if m.None? { return; }
      FetchedPage(old(mem), old(role), mem, role, m.value, page, d, a);
      FetchedPresent(old(mem), mem, old(role), d, m.value, page);
      OnePage(a);
      OneSpanned(a);
      var res, k := MapPages(d, a * PGSIZE, PGSIZE, m.value, perm);
      ok := res.Ok?;
      if a / ENTRIES in Present(mem1, d) { assert Present(mem1, d) + {a / ENTRIES} == Present(mem1, d); }
    }

    /** allocuvm (vm.c:221-249); failed tells a failure from growing to size 0. */
    method AllocUvm(d: nat, oldsz: nat, newsz: nat) returns (r: nat, ghost failed: bool)
      requires Valid() && IsDir(role, d)
      requires oldsz <= newsz < KERNPAGE * PGSIZE ==> forall v :: RoundUp(oldsz) <= v < RoundUp(newsz) ==> At(mem, d, v) == None
      modifies this
      ensures Valid() && (failed ==> r == 0)
      ensures failed <==>
        newsz >= KERNPAGE * PGSIZE || (newsz > oldsz && |old(free)| < AllocCost(old(mem), d, RoundUp(oldsz), RoundUp(newsz)))
      ensures newsz < KERNPAGE * PGSIZE && newsz < oldsz ==> r == oldsz && mem == old(mem) && role == old(role)
      ensures failed ==> ViewsKept(old(mem), mem, old(role)) && Grown(old(role), role, d) && DataKept(old(mem), old(role), mem, role)
      ensures !failed && newsz >= oldsz ==> r == newsz && AllocDone(old(mem), old(role), mem, role, d, RoundUp(oldsz), RoundUp(newsz))
      ensures !failed && newsz > oldsz ==> |free| == |old(free)| - AllocCost(old(mem), d, RoundUp(oldsz), RoundUp(newsz))
    {
      hide RoleOk, FreeOk, AllocDone, ViewsKept, DataKept, Grown, At, RoundUp, Fetched, MappedRange, Extended, Released, Unmapped, Present, AllocCost;
      Nothing(mem, role);
      SameGrown(role, d);
      if newsz >= KERNPAGE * PGSIZE { return 0, true; }
      if newsz < oldsz { return oldsz, false; }
      ghost var lo, hi := RoundUp(oldsz), RoundUp(newsz);
      RoundedUp(oldsz, newsz);
      AllocStart(mem, role, d, lo);
      AllocCostStart(mem, d, lo);
      var a := (oldsz + PGSIZE - 1) / PGSIZE;
      while a * PGSIZE < newsz
        invariant lo <= a <= hi && Valid() && IsDir(role, d) && AllocDone(old(mem), old(role), mem, role, d, lo, a)
        invariant Present(mem, d) == Present(old(mem), d) + Touched(lo, a) && |free| == |old(free)| - AllocCost(old(mem), d, lo, a)
      {
        Below(a, newsz);
        ghost var mem1, role1 := mem, role;
        AllocSame(old(mem), old(role), mem1, role1, d, lo, a);
        AllocCostNext(old(mem), mem, d, lo, a, hi);
        TouchedNext(lo, a);
        var m, ok, mem2, role2 := PlacePage(d, a, Blank(), WRITE_USER);
        if !ok {
          if m.None? {
            AllocFailed(old(mem), old(role), mem1, role1, mem, role, d);
          } else {
            MapFailed(mem1, role1, mem2, role2, mem, role, d, a, m.value, Blank(), WRITE_USER);
          }
          GiveUp(d, oldsz, newsz, m, old(mem), old(role), mem1, role1, a);
          return 0, true;
        }
        FetchedPage(mem1, role1, mem2, role2, m.value, Blank(), d, a);
        ExtendedDir(role2, role, d, a, 1, m.value);
        AllocStep(old(mem), old(role), mem1, role1, mem2, role2, mem, role, d, lo, a, m.value);
        a := a + 1;
      }
      Reached(a, newsz, hi);
      return newsz, false;
    }

    /** allocuvm's failure path (vm.c:235-239 and 241-246). */
    method GiveUp(d: nat, oldsz: nat, newsz: nat, m: Option<nat>,
                  ghost mem0: map<nat, Page>, ghost role0: map<nat, Role>, ghost mem1: map<nat, Page>, ghost role1: map<nat, Role>, ghost a: nat)
      requires Valid() && IsDir(role, d) && oldsz <= newsz < KERNPAGE * PGSIZE && RoundUp(oldsz) <= a <= RoundUp(newsz)
      requires RoleOk(mem0, role0) && IsDir(role0, d) && AllocDone(mem0, role0, mem1, role1, d, RoundUp(oldsz), a)
      requires forall v :: RoundUp(oldsz) <= v < RoundUp(newsz) ==> At(mem0, d, v) == None
      requires ViewsKept(mem1, mem, role1) && DataKept(mem1, role1, mem, role) && TablesAnd(role1, role, d, m)
      modifies this
      ensures Valid() && ViewsKept(mem0, mem, role0) && Grown(role0, role, d) && DataKept(mem0, role0, mem, role)
    {
      hide RoleOk, FreeOk, AllocDone, ViewsKept, DataKept, Grown, At, RoundUp, Released, Unmapped, SameViews;
      ghost var mem2, role2 := mem, role;
      RoundedUp(oldsz, newsz);
      var _ := DeallocUvm(d, newsz, oldsz);
      AllocUndo(mem0, role0, mem1, role1, mem2, role2, mem, role, d, RoundUp(oldsz), a, RoundUp(newsz));
      ghost var mem3, role3 := mem, role;
      OnlyOther(role0, role1, role2, role3, d, m, mem0, mem1, RoundUp(oldsz), RoundUp(newsz), a);
      if m.Some? {
        Kfree(m.value);
        LastPage(mem0, role0, mem3, role3, mem, m.value);
      }
      FinallyGrown(role0, role3, role, d, m);
    }

    /** copyuvm (vm.c:315-345) */
    method CopyUvm(s: nat, sz: nat, data: nat) returns (r: Option<nat>)
      requires Valid() && IsDir(role, s) && DataStart(data) && sz <= KERNPAGE * PGSIZE
      requires forall v: nat :: v < RoundUp(sz) ==> At(mem, s, v).Some?
      modifies this
      ensures Valid() && ViewsKept(old(mem), mem, old(role)) && DataKept(old(mem), old(role), mem, role)
      ensures r.None? <==> |old(free)| < CopyCost(RoundUp(sz))
      ensures r.None? ==> role == old(role)
      ensures r.Some? ==> CopyDone(old(mem), old(role), mem, role, s, r.value, data / PGSIZE, RoundUp(sz))
      ensures r.Some? ==> |free| == |old(free)| - CopyCost(RoundUp(sz))
    {
      hide RoleOk, FreeOk, CopyDone, ViewsKept, DataKept, Taken, At, RoundUp, FreedAll, OthersSame, KernelAt, Present, KernelTables, Touched, CopyCost;
      CopyCostFrom(RoundUp(sz));
      r := SetupKvm(data);
      if r.None? { return; }
      var d := r.value;
      ghost var dp := data / PGSIZE;
      CopyStart(old(mem), old(role), mem, role, s, d, dp);
      RoundedUp(0, sz);
      var i := 0;
      while i * PGSIZE < sz
        invariant 0 <= i <= RoundUp(sz) && Valid() && CopyDone(old(mem), old(role), mem, role, s, d, dp, i)
        invariant Present(mem, d) == KernelTables() + Touched(0, i) && |free| == |old(free)| - CopyCost(i)
      {
        Below(i, sz);
        CopyCostNext(mem, d, i, RoundUp(sz));
        TouchedNext(0, i);
        var ok := CopyPage(s, d, i, dp, old(mem), old(role));
        if !ok {
          ghost var mem4, role4 := mem, role;
          TakenDir(role4, old(role), d, i);
          FreeVm(d);
          GivenBack(old(mem), old(role), mem4, role4, mem, role, d, i);
          return None;
        }
        i := i + 1;
      }
      Reached(i, sz, RoundUp(sz));
      CopySame(old(mem), old(role), mem, role, s, d, dp, i);
      return Some(d);
    }

    /** One iteration of copyuvm (vm.c:324-339); a page that cannot be mapped is given back. */
    method CopyPage(s: nat, d: nat, i: nat, ghost dp: nat, ghost mem0: map<nat, Page>, ghost role0: map<nat, Role>) returns (ok: bool)
      requires Valid() && RoleOk(mem0, role0) && IsDir(role0, s) && i < KERNPAGE && At(mem0, s, i).Some?
      requires CopyDone(mem0, role0, mem, role, s, d, dp, i)
      modifies this
      ensures Valid() && (ok ==> CopyDone(mem0, role0, mem, role, s, d, dp, i + 1))
      ensures !ok ==> ViewsKept(mem0, mem, role0) && DataKept(mem0, role0, mem, role) && Taken(role0, role, d, i)
      ensures ok <==> |old(free)| >= 1 + Lack(old(mem), d, i)
      ensures ok ==> |free| == |old(free)| - 1 - Lack(old(mem), d, i) && Present(mem, d) == Present(old(mem), d) + {i / ENTRIES}
    {
      hide RoleOk, FreeOk, CopyDone, ViewsKept, DataKept, Taken, At, Fetched, MappedRange, Extended, KernelAt, Present, Lack;
      CopyUse(mem0, role0, mem, role, s, d, dp, i);
      var t := Walk(s, i / ENTRIES, false);
      ThereIs(mem, role, s, i);
      EntryIs(mem, role, s, i, t.value);
      var w := mem[t.value][i % ENTRIES];
      InShape(mem, role);
      ghost var mem1, role1 := mem, role;
      var m, placed, mem2, role2 := PlacePage(d, i, mem[w.frame], w.perm);
      ok := placed;
      if m.None? {
        CopySame(mem0, role0, mem, role, s, d, dp, i);
        return;
      }
      CopyStep(mem0, role0, mem1, role1, mem2, role2, mem, role, s, d, dp, i, m.value, w, if ok then 1 else 0);
      if !ok {
        ghost var mem3, role3 := mem, role;
        Kfree(m.value);
        CopyUndo(mem0, role0, mem3, role3, mem, m.value, d, i);
      }
    }
  }
}
