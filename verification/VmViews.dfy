/**
 * Translations by virtual page number, and what each loop of vm.c has done to the
 * translations, the roles and the contents of the pages so far.
 */
module VmViews {
  import opened Common
  import opened VmSpec

  datatype Result = Ok | NoMemory | Remap

  const WORD := 0x1_0000_0000
  const PGSIZE := 4096
  const PAGES := 0x10_0000      // virtual pages
  const KERNPAGE := 0x8_0000    // KERNBASE / PGSIZE

  /** The translation of virtual page v. */
  function At(mem: map<nat, Page>, d: nat, v: nat): Option<Word> { Lookup(mem, d, v / ENTRIES, v % ENTRIES) }

  /** Page i of a range that starts at page v and may wrap. */
  function PageAt(v: nat, i: nat): nat { (v + i) % PAGES }

  /** How far page v is from the start of the range. */
  function Offset(first: nat, v: nat): nat { if first <= v then v - first else if first <= v + PAGES then v + PAGES - first else 0 }

  /** The number of pages that mappages visits: all of them when size is 0 and va is aligned. */
  function PageCount(va: nat, size: nat): (n: nat)
    requires va < WORD && size < WORD
    ensures 1 <= n <= PAGES
  {
    Offset(va / PGSIZE, (va + size + WORD - 1) % WORD / PGSIZE) + 1
  }

  /** The first k pages from `first` map to consecutive frames; everything else is as before. */
  ghost predicate MappedRange(mem: map<nat, Page>, mem': map<nat, Page>, role: map<nat, Role>,
                              d: nat, first: nat, k: nat, frame0: nat, perm: nat)
  {
    forall e: nat, v: nat :: IsDir(role, e) && v < PAGES ==>
      At(mem', e, v) == if e == d && Offset(first, v) < k then Some(Word(frame0 + Offset(first, v), true, perm)) else At(mem, e, v)
  }

  /** Free pages may have become page tables of d, and the frames of user pages in the range user memory of d. */
  ghost predicate Extended(role: map<nat, Role>, role': map<nat, Role>, d: nat, first: nat, k: nat, frame0: nat) {
    role'.Keys == role.Keys &&
    forall q :: q in role && role'[q] != role[q] ==>
      || (role[q].Free? && role'[q].Table? && role'[q].dir == d)
      || (role[q].Other? && frame0 <= q < frame0 + k && role'[q].Frame? && role'[q].dir == d
          && PageNo(role'[q].x, role'[q].y) == PageAt(first, q - frame0) < KERNPAGE)
  }

  /** Roles change only from free to page table of d. */
  ghost predicate Grown(role: map<nat, Role>, role': map<nat, Role>, d: nat) {
    role'.Keys == role.Keys &&
    forall q :: q in role && role'[q] != role[q] ==> role[q].Free? && role'[q].Table? && role'[q].dir == d
  }

  predicate HoldsData(r: Role) { r.Frame? || r.Other? }

  /** The contents of user frames and of pages in use elsewhere are kept. */
  ghost predicate DataKept(mem: map<nat, Page>, role: map<nat, Role>, mem': map<nat, Page>, role': map<nat, Role>) {
    forall q :: q in role && q in role' && HoldsData(role[q]) && HoldsData(role'[q]) ==> q in mem && q in mem' && mem'[q] == mem[q]
  }

  ghost predicate RemapsPage(mem: map<nat, Page>, mem': map<nat, Page>, role: map<nat, Role>, d: nat, v: nat, o: Option<Word>) {
    forall e: nat, u: nat :: IsDir(role, e) && u < PAGES ==> At(mem', e, u) == if e == d && u == v then o else At(mem, e, u)
  }

  lemma FromRemaps(mem: map<nat, Page>, mem': map<nat, Page>, role: map<nat, Role>, d: nat, v: nat, o: Option<Word>)
    requires Remaps(mem, mem', role, d, v / ENTRIES, v % ENTRIES, o)
    ensures RemapsPage(mem, mem', role, d, v, o)
  {
    hide Lookup;
    forall e: nat, u: nat | IsDir(role, e) && u < PAGES ensures At(mem', e, u) == if e == d && u == v then o else At(mem, e, u) {
      assert u == ENTRIES * (u / ENTRIES) + u % ENTRIES && v == ENTRIES * (v / ENTRIES) + v % ENTRIES;
    }
  }

  lemma EntryIs(mem: map<nat, Page>, role: map<nat, Role>, d: nat, v: nat, t: nat)
    requires RoleOk(mem, role) && v < PAGES && IsTable(role, t, d, v / ENTRIES)
    ensures t in mem && |mem[t]| == ENTRIES
    ensures At(mem, d, v) == if mem[t][v % ENTRIES].p then Some(mem[t][v % ENTRIES]) else None
  {
    TableOf(mem, role, t, d, v / ENTRIES);
  }

  /** User memory is not shared, and is neither free nor part of a page table. */
  lemma NoSharing(mem: map<nat, Page>, head: nat, free: seq<nat>, role: map<nat, Role>, d: nat, v: nat, e: nat, u: nat)
    requires RoleOk(mem, role) && FreeOk(mem, head, free, role) && IsDir(role, d) && IsDir(role, e) && v < KERNPAGE && u < KERNPAGE
    requires At(mem, d, v).Some? && At(mem, e, u).Some?
    ensures At(mem, d, v).value.frame == At(mem, e, u).value.frame ==> d == e && v == u
    ensures At(mem, d, v).value.frame !in free && !IsDir(role, At(mem, d, v).value.frame)
    ensures forall x: nat :: x < ENTRIES && mem[e][x].p ==> mem[e][x].frame != At(mem, d, v).value.frame && mem[e][x].frame !in free
  {
    FrameOf(mem, role, d, v);
    FrameOf(mem, role, e, u);
    PageWhole(v);
    PageWhole(u);
    forall x: nat | x < ENTRIES && mem[e][x].p ensures mem[e][x].frame != At(mem, d, v).value.frame && mem[e][x].frame !in free {
      TableAt(mem, role, e, x, 0);
    }
  }

  /** A free page has become a page table. */
  lemma TableTaken(mem: map<nat, Page>, role: map<nat, Role>, mem': map<nat, Page>, role': map<nat, Role>, d: nat, x: nat, t: nat)
    requires RoleOk(mem, role) && IsDir(role, d) && t in role && role[t].Free? && role' == role[t := Other][t := Table(d, x)]
    requires d in mem' && t in mem' && mem' == mem[t := mem'[t]][d := mem'[d]] && SameViews(mem, mem', role[t := Other])
    ensures SameViews(mem, mem', role) && Grown(role, role', d) && DataKept(mem, role, mem', role') && IsTable(role', t, d, x)
  {
    InShape(mem, role);
    hide RoleOk, Lookup;
    var role1 := role[t := Other];
    assert forall e: nat :: IsDir(role, e) ==> IsDir(role1, e);
    assert role'.Keys == role.Keys;
  }

  // ---- the steps of mappages ----

  lemma RangeStart(mem: map<nat, Page>, role: map<nat, Role>, d: nat, first: nat, frame0: nat, perm: nat)
    requires RoleOk(mem, role)
    ensures MappedRange(mem, mem, role, d, first, 0, frame0, perm) && Extended(role, role, d, first, 0, frame0) && DataKept(mem, role, mem, role)
  {
  }

  lemma CountIs(va: nat, size: nat)
    requires va < WORD && size < WORD
    ensures va / PGSIZE < PAGES && PageAt(va / PGSIZE, 0) == va / PGSIZE && PageCount(va, size) > 0
  {
  }

  lemma NextPage(va: nat, size: nat, k: nat)
    requires va < WORD && size < WORD && 1 <= k <= PageCount(va, size)
    ensures PageAt(va / PGSIZE, k) == (PageAt(va / PGSIZE, k - 1) + 1) % PAGES < PAGES
    ensures PageAt(va / PGSIZE, k - 1) == (va + size + WORD - 1) % WORD / PGSIZE <==> k == PageCount(va, size)
  {
    var first, last := va / PGSIZE, (va + size + WORD - 1) % WORD / PGSIZE;
    OffsetOf(first, k - 1);
  }

  lemma OffsetOf(first: nat, i: nat)
    requires first < PAGES && i < PAGES
    ensures PageAt(first, i) < PAGES && Offset(first, PageAt(first, i)) == i
    ensures forall v: nat :: v < PAGES && Offset(first, v) == i ==> v == PageAt(first, i)
  {
  }

  lemma AfterWalk(mem0: map<nat, Page>, role0: map<nat, Role>, mem1: map<nat, Page>, role1: map<nat, Role>, mem2: map<nat, Page>, role2: map<nat, Role>,
                  d: nat, first: nat, k: nat, frame0: nat, perm: nat)
    requires MappedRange(mem0, mem1, role0, d, first, k, frame0, perm) && Extended(role0, role1, d, first, k, frame0) && DataKept(mem0, role0, mem1, role1)
    requires SameViews(mem1, mem2, role1) && Grown(role1, role2, d) && DataKept(mem1, role1, mem2, role2)
    ensures MappedRange(mem0, mem2, role0, d, first, k, frame0, perm) && Extended(role0, role2, d, first, k, frame0) && DataKept(mem0, role0, mem2, role2)
  {
    hide Lookup, Offset;
    assert forall e: nat :: IsDir(role0, e) ==> IsDir(role1, e);
  }

  lemma NotYet(mem0: map<nat, Page>, mem: map<nat, Page>, role0: map<nat, Role>, d: nat, first: nat, k: nat, frame0: nat, perm: nat, a: nat)
    requires MappedRange(mem0, mem, role0, d, first, k, frame0, perm) && IsDir(role0, d) && first < PAGES && k < PAGES && a == PageAt(first, k)
    ensures At(mem0, d, a) == At(mem, d, a)
  {
    OffsetOf(first, k);
  }

  lemma StillOther(role0: map<nat, Role>, role: map<nat, Role>, d: nat, first: nat, k: nat, frame0: nat)
    requires Extended(role0, role, d, first, k, frame0)
    ensures frame0 + k in role0 && role0[frame0 + k].Other? ==> frame0 + k in role && role[frame0 + k].Other?
  {
  }

  lemma AfterSet(mem0: map<nat, Page>, role0: map<nat, Role>, mem1: map<nat, Page>, role1: map<nat, Role>, mem2: map<nat, Page>, role2: map<nat, Role>,
                 d: nat, first: nat, k: nat, frame0: nat, perm: nat, a: nat)
    requires MappedRange(mem0, mem1, role0, d, first, k, frame0, perm) && Extended(role0, role1, d, first, k, frame0) && DataKept(mem0, role0, mem1, role1)
    requires first < PAGES && k < PAGES && a == PageAt(first, k)
    requires RemapsPage(mem1, mem2, role1, d, a, Some(Word(frame0 + k, true, perm))) && DataKept(mem1, role1, mem2, role2)
    requires (frame0 + k in role1 && role1[frame0 + k].Other?) || role2 == role1
    requires role2 == role1 || (a < KERNPAGE && role2 == role1[frame0 + k := Frame(d, a / ENTRIES, a % ENTRIES)])
    ensures MappedRange(mem0, mem2, role0, d, first, k + 1, frame0, perm)
    ensures Extended(role0, role2, d, first, k + 1, frame0) && DataKept(mem0, role0, mem2, role2)
  {
    hide Lookup;
    OffsetOf(first, k);
    PageWhole(a);
    hide Offset, PageAt, At, PageNo;
    assert forall e: nat :: IsDir(role0, e) ==> IsDir(role1, e);
  }

  lemma InShape(mem: map<nat, Page>, role: map<nat, Role>)
    requires RoleOk(mem, role)
    ensures forall q :: q in role ==> q > 0 && q in mem && |mem[q]| == ENTRIES
  {
  }

  /** Storing into a data page after a change of one translation. */
  lemma ThenSame(mem0: map<nat, Page>, mem1: map<nat, Page>, mem2: map<nat, Page>, role0: map<nat, Role>, role1: map<nat, Role>, d: nat, v: nat)
    requires RemapsPage(mem0, mem1, role0, d, v, None) && SameViews(mem1, mem2, role1)
    requires forall e: nat :: IsDir(role0, e) ==> IsDir(role1, e)
    ensures RemapsPage(mem0, mem2, role0, d, v, None)
  {
    hide Lookup;
  }

  // ---- the steps of deallocuvm ----

  function RoundUp(n: nat): nat { (n + PGSIZE - 1) / PGSIZE }

  function PageNo(x: nat, y: nat): nat { ENTRIES * x + y }

  function Cap(a: nat, hi: nat): nat { if a < hi then a else hi }

  /** The role is that of user memory of d in pages lo up to hi. */
  predicate IsFrameIn(r: Role, d: nat, lo: nat, hi: nat) { r.Frame? && r.dir == d && lo <= PageNo(r.x, r.y) < hi }

  /** The user frames of d in pages lo up to hi are free; nothing else changes hands. */
  function Released(role: map<nat, Role>, d: nat, lo: nat, hi: nat): map<nat, Role> {
    map q | q in role :: if IsFrameIn(role[q], d, lo, hi) then Free else role[q]
  }

  /** Pages lo up to hi are not mapped under d; all else translates as before. */
  ghost predicate Unmapped(mem: map<nat, Page>, mem': map<nat, Page>, role: map<nat, Role>, d: nat, lo: nat, hi: nat) {
    forall e: nat, v: nat :: IsDir(role, e) && v < PAGES ==> At(mem', e, v) == if e == d && lo <= v < hi then None else At(mem, e, v)
  }

  lemma Rounded(oldsz: nat, newsz: nat)
    requires newsz < oldsz <= KERNPAGE * PGSIZE
    ensures RoundUp(newsz) <= RoundUp(oldsz) <= KERNPAGE
    ensures RoundUp(newsz) == (newsz + PGSIZE - 1) / PGSIZE
    ensures Cap(RoundUp(newsz), RoundUp(oldsz)) == RoundUp(newsz)
  {
  }

  lemma Below(a: nat, oldsz: nat)
    requires a * PGSIZE < oldsz <= KERNPAGE * PGSIZE
    ensures a < RoundUp(oldsz) <= KERNPAGE && Cap(a, RoundUp(oldsz)) == a && Cap(a + 1, RoundUp(oldsz)) == a + 1
    ensures a / ENTRIES < KERNX
  {
  }

  lemma Above(a: nat, oldsz: nat)
    requires a * PGSIZE >= oldsz
    ensures Cap(a, RoundUp(oldsz)) == RoundUp(oldsz)
  {
  }

  lemma ReleaseStart(mem: map<nat, Page>, role: map<nat, Role>, d: nat, lo: nat, hi: nat, oldsz: nat, newsz: nat)
    requires RoleOk(mem, role) && lo == RoundUp(newsz) && hi == RoundUp(oldsz)
    ensures Released(role, d, lo, lo) == role && Unmapped(mem, mem, role, d, lo, lo) && DataKept(mem, role, mem, role)
    ensures newsz >= oldsz ==> Released(role, d, lo, hi) == role && Unmapped(mem, mem, role, d, lo, hi)
  {
    assert newsz >= oldsz ==> lo >= hi;
    assert Released(role, d, lo, lo) == role;
    assert lo >= hi ==> Released(role, d, lo, hi) == role;
  }

  /** A page that does not translate has no frame. */
  lemma NoFrame(mem: map<nat, Page>, role: map<nat, Role>, d: nat, lo: nat, hi: nat)
    requires RoleOk(mem, role) && forall v :: lo <= v < hi ==> At(mem, d, v) == None
    ensures forall q :: q in role ==> !IsFrameIn(role[q], d, lo, hi)
  {
    forall q | q in role && role[q].Frame? && role[q].dir == d ensures !(lo <= PageNo(role[q].x, role[q].y) < hi) {
      PageParts(role[q].x, role[q].y);
      assert Lookup(mem, d, role[q].x, role[q].y).Some?;
      assert At(mem, d, PageNo(role[q].x, role[q].y)).Some?;
    }
  }

  lemma PageParts(x: nat, y: nat)
    requires y < ENTRIES
    ensures PageNo(x, y) / ENTRIES == x && PageNo(x, y) % ENTRIES == y
  {
  }

  lemma PageWhole(v: nat)
    ensures PageNo(v / ENTRIES, v % ENTRIES) == v
  {
  }

  /** Passing over pages that do not translate. */
  lemma PassOver(mem0: map<nat, Page>, role0: map<nat, Role>, mem: map<nat, Page>, role: map<nat, Role>, d: nat, lo: nat, a: nat, b: nat)
    requires RoleOk(mem, role) && role == Released(role0, d, lo, a) && Unmapped(mem0, mem, role0, d, lo, a) && lo <= a <= b <= PAGES
    requires forall v :: a <= v < b ==> At(mem, d, v) == None
    ensures role == Released(role0, d, lo, b) && Unmapped(mem0, mem, role0, d, lo, b)
  {
    NoFrame(mem, role, d, a, b);
    hide At, RoleOk, PageNo;
    forall q | q in role0 ensures Released(role0, d, lo, b)[q] == role[q] {
    }
    assert Released(role0, d, lo, b).Keys == role.Keys;
  }

  lemma NothingThere(mem0: map<nat, Page>, role0: map<nat, Role>, mem: map<nat, Page>, role: map<nat, Role>, d: nat, lo: nat, a: nat)
    requires RoleOk(mem, role) && role == Released(role0, d, lo, a) && Unmapped(mem0, mem, role0, d, lo, a) && lo <= a < PAGES
    requires At(mem, d, a) == None
    ensures role == Released(role0, d, lo, a + 1) && Unmapped(mem0, mem, role0, d, lo, a + 1)
  {
    hide At, RoleOk;
    PassOver(mem0, role0, mem, role, d, lo, a, a + 1);
  }

  lemma SkipTable(mem0: map<nat, Page>, role0: map<nat, Role>, mem: map<nat, Page>, role: map<nat, Role>, d: nat, lo: nat, a: nat, hi: nat)
    requires RoleOk(mem, role) && role == Released(role0, d, lo, a) && Unmapped(mem0, mem, role0, d, lo, a) && lo <= a < hi <= PAGES
    requires d in mem && a / ENTRIES < |mem[d]| && !mem[d][a / ENTRIES].p
    ensures var b := Cap((a / ENTRIES + 1) * ENTRIES, hi); role == Released(role0, d, lo, b) && Unmapped(mem0, mem, role0, d, lo, b)
  {
    hide RoleOk;
    var b := Cap((a / ENTRIES + 1) * ENTRIES, hi);
    forall v | a <= v < b ensures At(mem, d, v) == None {
      assert v / ENTRIES == a / ENTRIES;
    }
    PassOver(mem0, role0, mem, role, d, lo, a, b);
  }

  lemma ReleaseOne(mem0: map<nat, Page>, role0: map<nat, Role>, mem1: map<nat, Page>, role1: map<nat, Role>, mem2: map<nat, Page>, role2: map<nat, Role>,
                   d: nat, lo: nat, a: nat)
    requires RoleOk(mem2, role2) && role1 == Released(role0, d, lo, a) && Unmapped(mem0, mem1, role0, d, lo, a) && DataKept(mem0, role0, mem1, role1)
    requires lo <= a < PAGES && RemapsPage(mem1, mem2, role1, d, a, None) && DataKept(mem1, role1, mem2, role2) && IsDir(role1, d)
    requires exists f: nat :: f in role1 && role1[f] == Frame(d, a / ENTRIES, a % ENTRIES) && role2 == role1[f := Free]
    ensures role2 == Released(role0, d, lo, a + 1) && Unmapped(mem0, mem2, role0, d, lo, a + 1) && DataKept(mem0, role0, mem2, role2)
  {
    hide At, RoleOk, Released, DataKept, Unmapped, RemapsPage;
    ReleaseViews(mem0, role0, mem1, role1, mem2, d, lo, a);
    ReleaseRoles(mem2, role0, role1, role2, d, lo, a);
    ReleaseData(mem0, role0, mem1, role1, mem2, role2, d, lo, a);
  }

  lemma ReleaseViews(mem0: map<nat, Page>, role0: map<nat, Role>, mem1: map<nat, Page>, role1: map<nat, Role>, mem2: map<nat, Page>, d: nat, lo: nat, a: nat)
    requires role1 == Released(role0, d, lo, a) && Unmapped(mem0, mem1, role0, d, lo, a) && lo <= a < PAGES
    requires RemapsPage(mem1, mem2, role1, d, a, None) && IsDir(role1, d)
    ensures Unmapped(mem0, mem2, role0, d, lo, a + 1) && At(mem2, d, a) == None
  {
    hide At, PageNo;
    assert forall e: nat :: IsDir(role0, e) ==> IsDir(role1, e);
  }

  lemma ReleaseRoles(mem2: map<nat, Page>, role0: map<nat, Role>, role1: map<nat, Role>, role2: map<nat, Role>, d: nat, lo: nat, a: nat)
    requires RoleOk(mem2, role2) && role1 == Released(role0, d, lo, a) && lo <= a && At(mem2, d, a) == None
    requires exists f: nat :: f in role1 && role1[f] == Frame(d, a / ENTRIES, a % ENTRIES) && role2 == role1[f := Free]
    ensures role2 == Released(role0, d, lo, a + 1)
  {
    var b := a + 1;
    PageWhole(a);
    NoFrame(mem2, role2, d, a, b);
    hide At, PageNo, RoleOk;
    var f: nat :| f in role1 && role1[f] == Frame(d, a / ENTRIES, a % ENTRIES) && role2 == role1[f := Free];
    ReleaseAll(role0, role2, f, d, lo, a);
  }

  lemma ReleaseAll(role0: map<nat, Role>, role2: map<nat, Role>, f: nat, d: nat, lo: nat, a: nat)
    requires f in role0 && role2 == Released(role0, d, lo, a)[f := Free] && lo <= a && IsFrameIn(role0[f], d, a, a + 1)
    requires forall q :: q in role2 ==> !IsFrameIn(role2[q], d, a, a + 1)
    ensures role2 == Released(role0, d, lo, a + 1)
  {
    hide PageNo;
    var role3 := Released(role0, d, lo, a + 1);
    forall q | q in role0 ensures q in role2 && role3[q] == role2[q] {
      OnePageMore(role0[q], d, lo, a);
    }
    assert role3.Keys == role2.Keys;
  }

  lemma OnePageMore(r: Role, d: nat, lo: nat, a: nat)
    requires lo <= a
    ensures IsFrameIn(r, d, lo, a + 1) <==> IsFrameIn(r, d, lo, a) || IsFrameIn(r, d, a, a + 1)
  {
    hide PageNo;
  }

  lemma ReleaseData(mem0: map<nat, Page>, role0: map<nat, Role>, mem1: map<nat, Page>, role1: map<nat, Role>, mem2: map<nat, Page>, role2: map<nat, Role>,
                    d: nat, lo: nat, a: nat)
    requires role1 == Released(role0, d, lo, a) && DataKept(mem0, role0, mem1, role1) && DataKept(mem1, role1, mem2, role2)
    requires exists f: nat :: f in role1 && role2 == role1[f := Free]
    ensures DataKept(mem0, role0, mem2, role2)
  {
    hide PageNo;
  }

  // ---- the steps of freevm ----

  predicate Belongs(r: Role, q: nat, d: nat) { (q == d && r.Dir?) || (r.Table? && r.dir == d) || (r.Frame? && r.dir == d) }

  /** Every page of directory d is free; nothing else changes hands. */
  function FreedAll(role: map<nat, Role>, d: nat): map<nat, Role> {
    map q | q in role :: if Belongs(role[q], q, d) then Free else role[q]
  }

  ghost predicate OthersSame(mem: map<nat, Page>, mem': map<nat, Page>, role: map<nat, Role>, d: nat) {
    forall e: nat, v: nat :: IsDir(role, e) && e != d && v < PAGES ==> At(mem', e, v) == At(mem, e, v)
  }

  function RetiredTo(r: Role, q: nat, d: nat, i: nat): Role {
    if r.Table? && r.dir == d then (if r.x < i then Free else Other) else if q == d then Other else r
  }

  /** The tables at entries below i are free, the others and d are in the hands of freevm. */
  ghost predicate Retiring(mem: map<nat, Page>, role: map<nat, Role>, mem': map<nat, Page>, role': map<nat, Role>, d: nat, i: nat) {
    && role'.Keys == role.Keys && IsDir(role, d)
    && (forall q :: q in role ==> role'[q] == RetiredTo(role[q], q, d, i))
    && DataKept(mem, role, mem', role') && OthersSame(mem, mem', role, d)
  }

  lemma Retire(mem0: map<nat, Page>, mem: map<nat, Page>, role0: map<nat, Role>, role: map<nat, Role>, d: nat)
    requires RoleOk(mem0, role0) && role == Released(role0, d, 0, KERNPAGE) && IsDir(role0, d)
    ensures IsDir(role, d) && forall f :: f in role && role[f].Frame? ==> role[f].dir != d
  {
  }

  lemma RetiredFree(mem: map<nat, Page>, head: nat, free: seq<nat>, role: map<nat, Role>, d: nat)
    requires FreeOk(mem, head, free, role) && IsDir(role, d)
    ensures FreeOk(mem, head, free, Retired(role, d))
  {
    FreeKept(mem, mem, head, free, role, Retired(role, d));
  }

  lemma RetiringStart(mem: map<nat, Page>, role: map<nat, Role>, d: nat)
    requires RoleOk(mem, role) && IsDir(role, d)
    ensures Retiring(mem, role, mem, Retired(role, d), d, 0) && d in mem
  {
    hide At;
  }

  lemma InDir(mem1: map<nat, Page>, role1: map<nat, Role>, mem: map<nat, Page>, role: map<nat, Role>, d: nat, i: nat)
    requires RoleOk(mem1, role1) && Retiring(mem1, role1, mem, role, d, i) && d in mem && mem[d] == mem1[d] && i < ENTRIES
    ensures |mem[d]| == ENTRIES
    ensures mem[d][i].p ==> mem[d][i].frame in role && role[mem[d][i].frame].Other? && mem[d][i].frame != d && IsTable(role1, mem[d][i].frame, d, i)
  {
    hide FramesOk;
    if mem[d][i].p { assert IsTable(role1, mem1[d][i].frame, d, i); }
  }

  lemma RetireNone(mem1: map<nat, Page>, role1: map<nat, Role>, mem: map<nat, Page>, role: map<nat, Role>, d: nat, i: nat)
    requires RoleOk(mem1, role1) && Retiring(mem1, role1, mem, role, d, i) && d in mem && mem[d] == mem1[d] && i < |mem[d]| && !mem[d][i].p
    ensures Retiring(mem1, role1, mem, role, d, i + 1)
  {
    hide FramesOk, At;
    forall q: nat | q in role1 && role1[q].Table? && role1[q].dir == d ensures role1[q].x != i {
      assert IsTable(role1, q, d, role1[q].x);
    }
  }

  lemma RetireOne(mem1: map<nat, Page>, role1: map<nat, Role>, mem2: map<nat, Page>, role2: map<nat, Role>, mem: map<nat, Page>, role: map<nat, Role>, d: nat, i: nat)
    requires RoleOk(mem1, role1) && Retiring(mem1, role1, mem2, role2, d, i) && d in mem1 && i < |mem1[d]|
    requires var t := mem1[d][i].frame;
             IsTable(role1, t, d, i) && t in role2 && role == role2[t := Free] && t in mem && mem == mem2[t := mem[t]] && SameViews(mem2, mem, role2)
    ensures Retiring(mem1, role1, mem, role, d, i + 1)
  {
    hide RoleOk, At, OthersSame, SameViews, DataKept;
    var t := mem1[d][i].frame;
    OneTable(mem1, role1, t, d, i);
    RetireViews(mem1, role1, mem2, role2, mem, d, i);
    RetireData(mem1, role1, mem2, role2, mem, role, d, i, t);
  }

  lemma OneTable(mem: map<nat, Page>, role: map<nat, Role>, t: nat, d: nat, i: nat)
    requires RoleOk(mem, role) && IsTable(role, t, d, i)
    ensures forall q: nat :: q in role && role[q].Table? && role[q].dir == d && role[q].x == i ==> q == t
  {
    TableOf(mem, role, t, d, i);
    hide RoleOk;
    forall q: nat | q in role && role[q].Table? && role[q].dir == d && role[q].x == i ensures q == t {
      assert IsTable(role, q, d, i);
    }
  }

  lemma RetireViews(mem1: map<nat, Page>, role1: map<nat, Role>, mem2: map<nat, Page>, role2: map<nat, Role>, mem: map<nat, Page>, d: nat, i: nat)
    requires Retiring(mem1, role1, mem2, role2, d, i) && SameViews(mem2, mem, role2)
    ensures OthersSame(mem1, mem, role1, d)
  {
    hide Lookup, DataKept;
    assert forall e: nat :: IsDir(role1, e) && e != d ==> IsDir(role2, e);
  }

  lemma RetireData(mem1: map<nat, Page>, role1: map<nat, Role>, mem2: map<nat, Page>, role2: map<nat, Role>, mem: map<nat, Page>, role: map<nat, Role>,
                   d: nat, i: nat, t: nat)
    requires Retiring(mem1, role1, mem2, role2, d, i) && t in role2 && role == role2[t := Free] && t in mem && mem == mem2[t := mem[t]]
    ensures DataKept(mem1, role1, mem, role)
  {
    hide At, OthersSame;
  }

  lemma RetiringDir(mem1: map<nat, Page>, role1: map<nat, Role>, mem: map<nat, Page>, role: map<nat, Role>, d: nat)
    requires Retiring(mem1, role1, mem, role, d, ENTRIES)
    ensures d in role && role[d].Other?
  {
  }

  lemma RetireLast(mem0: map<nat, Page>, role0: map<nat, Role>, mem1: map<nat, Page>, role1: map<nat, Role>, mem2: map<nat, Page>, role2: map<nat, Role>,
                   mem: map<nat, Page>, role: map<nat, Role>, d: nat)
    requires RoleOk(mem0, role0) && RoleOk(mem1, role1) && IsDir(role0, d)
    requires role1 == Released(role0, d, 0, KERNPAGE) && Unmapped(mem0, mem1, role0, d, 0, KERNPAGE) && DataKept(mem0, role0, mem1, role1)
    requires Retiring(mem1, role1, mem2, role2, d, ENTRIES)
    requires role == role2[d := Free] && d in mem && mem == mem2[d := mem[d]] && SameViews(mem2, mem, role2)
    ensures role == FreedAll(role0, d) && DataKept(mem0, role0, mem, role) && OthersSame(mem0, mem, role0, d)
  {
    hide RoleOk, Lookup, Released, FreedAll, DataKept;
    RetireRoles(mem0, role0, mem1, role1, mem2, role2, d);
    assert forall e: nat :: IsDir(role0, e) && e != d ==> IsDir(role1, e) && IsDir(role2, e);
    RetireLastData(mem0, role0, mem1, role1, mem2, role2, mem, d);
  }

  lemma RetireLastData(mem0: map<nat, Page>, role0: map<nat, Role>, mem1: map<nat, Page>, role1: map<nat, Role>, mem2: map<nat, Page>, role2: map<nat, Role>,
                       mem: map<nat, Page>, d: nat)
    requires IsDir(role0, d) && role1 == Released(role0, d, 0, KERNPAGE) && DataKept(mem0, role0, mem1, role1)
    requires Retiring(mem1, role1, mem2, role2, d, ENTRIES) && d in mem && mem == mem2[d := mem[d]]
    ensures DataKept(mem0, role0, mem, role2[d := Free])
  {
    hide At, OthersSame, PageNo;
    assert forall q :: q in role0 && HoldsData(role0[q]) ==> role1[q].Free? || role1[q] == role0[q];
  }

  lemma RetireRoles(mem0: map<nat, Page>, role0: map<nat, Role>, mem1: map<nat, Page>, role1: map<nat, Role>, mem2: map<nat, Page>, role2: map<nat, Role>, d: nat)
    requires RoleOk(mem0, role0) && RoleOk(mem1, role1) && IsDir(role0, d) && role1 == Released(role0, d, 0, KERNPAGE)
    requires Retiring(mem1, role1, mem2, role2, d, ENTRIES)
    ensures role2[d := Free] == FreedAll(role0, d)
    ensures forall e: nat :: IsDir(role0, e) && e != d ==> IsDir(role1, e) && IsDir(role2, e)
  {
    OwnedBelow(mem0, role0, d);
    hide RoleOk, At, OthersSame, DataKept, PageNo;
    var role3, role4 := role2[d := Free], FreedAll(role0, d);
    forall q | q in role0 ensures q in role3 && role3[q] == role4[q] {
    }
    assert role3.Keys == role4.Keys;
  }

  /** The tables and user frames of a directory are within bounds. */
  lemma OwnedBelow(mem: map<nat, Page>, role: map<nat, Role>, d: nat)
    requires RoleOk(mem, role)
    ensures forall q :: q in role && role[q].Frame? ==> IsFrameIn(role[q], role[q].dir, 0, KERNPAGE)
    ensures forall q :: q in role && role[q].Table? ==> role[q].x < ENTRIES
  {
    forall q: nat | q in role && role[q].Table? ensures role[q].x < ENTRIES {
      assert IsTable(role, q, role[q].dir, role[q].x);
    }
  }

  // ---- the kernel part of a page table ----

  datatype Kmap = Kmap(virt: nat, physStart: nat, physEnd: nat, perm: nat)

  /** kmap (vm.c:105-115) for a kernel whose writable data starts at address `data`. */
  function Kmaps(data: nat): (maps: seq<Kmap>)
    requires data >= 0x8000_0000
    ensures |maps| == 4
  {
    [Kmap(0x8000_0000, 0, 0x10_0000, 2), Kmap(0x8010_0000, 0x10_0000, data - 0x8000_0000, 0),
     Kmap(data, data - 0x8000_0000, 0xE00_0000, 2), Kmap(0xFE00_0000, 0xFE00_0000, 0, 2)]
  }

  /** The size that setupkvm computes, in 32-bit arithmetic. */
  function KmapSize(k: Kmap): nat
    requires k.physStart < WORD && k.physEnd < WORD
  {
    if k.physStart <= k.physEnd then k.physEnd - k.physStart else k.physEnd + WORD - k.physStart
  }

  predicate DataStart(data: nat) { 0x8010_0000 < data < 0x8E00_0000 && data % PGSIZE == 0 }

  /** Which entry of kmap covers page v; 4 for none. */
  function Region(dp: nat, v: nat): nat {
    if 0x8_0000 <= v < 0x8_0100 then 0 else if 0x8_0100 <= v < dp then 1 else if dp <= v < 0x8_E000 then 2
    else if v >= 0xF_E000 then 3 else 4
  }

  /** The promised translation: low physical memory at KERNBASE, read-only below data, and devices one to one. */
  function KernelAt(dp: nat, v: nat): Option<Word> {
    if 0x8_0000 <= v < 0x8_E000 then Some(Word(v - 0x8_0000, true, if 0x8_0100 <= v < dp then 0 else 2))
    else if 0xF_E000 <= v then Some(Word(v, true, 2))
    else None
  }

  lemma KmapRange(data: nat, k: nat)
    requires DataStart(data) && k < 4
    ensures var m := Kmaps(data)[k]; m.virt < WORD && m.physStart < WORD && m.physEnd < WORD && 0 < KmapSize(m) < WORD
    ensures var m := Kmaps(data)[k]; forall v: nat :: v < PAGES ==>
              (Offset(m.virt / PGSIZE, v) < PageCount(m.virt, KmapSize(m)) <==> Region(data / PGSIZE, v) == k)
    ensures var m := Kmaps(data)[k]; forall v: nat :: v < PAGES && Region(data / PGSIZE, v) == k ==>
              KernelAt(data / PGSIZE, v) == Some(Word(m.physStart / PGSIZE + Offset(m.virt / PGSIZE, v), true, m.perm))
  {
  }

  ghost predicate ViewsKept(mem: map<nat, Page>, mem': map<nat, Page>, role: map<nat, Role>) {
    forall e: nat, v: nat :: IsDir(role, e) && v < PAGES ==> At(mem', e, v) == At(mem, e, v)
  }

  /** Free pages have become pages of the new directory d; below page n it may have user frames. */
  ghost predicate Taken(role: map<nat, Role>, role': map<nat, Role>, d: nat, n: nat) {
    && role'.Keys == role.Keys && d in role && role[d].Free? && role'[d].Dir?
    && forall q :: q in role && role'[q] != role[q] ==>
         role[q].Free? && Belongs(role'[q], q, d) && (role'[q].Frame? ==> IsFrameIn(role'[q], d, 0, n))
  }

  /** setupkvm has mapped the first k entries of kmap. */
  ghost predicate KernelDone(mem0: map<nat, Page>, role0: map<nat, Role>, mem: map<nat, Page>, role: map<nat, Role>, d: nat, dp: nat, k: nat) {
    && ViewsKept(mem0, mem, role0) && Taken(role0, role, d, 0) && DataKept(mem0, role0, mem, role)
    && forall v: nat :: v < PAGES ==> At(mem, d, v) == if Region(dp, v) < k then KernelAt(dp, v) else None
  }

  lemma KernelStart(mem0: map<nat, Page>, role0: map<nat, Role>, role1: map<nat, Role>, d: nat, dp: nat)
    requires RoleOk(mem0, role1) && d in role0 && role0[d].Free? && role1 == role0[d := Other]
    ensures RoleOk(mem0[d := Blank()], role1[d := Dir]) && KernelDone(mem0, role0, mem0[d := Blank()], role1[d := Dir], d, dp, 0)
  {
    hide RoleOk, Lookup;
    NewDir(mem0, role1, d);
    InShape(mem0, role1);
    var mem1, role2 := mem0[d := Blank()], role1[d := Dir];
    assert role2.Keys == role0.Keys;
    assert Taken(role0, role2, d, 0);
    assert forall e: nat :: IsDir(role0, e) ==> IsDir(role1, e);
    assert ViewsKept(mem0, mem1, role0);
  }

  /** The range of entry k is above KERNBASE and not mapped yet. */
  lemma KernelRoom(mem: map<nat, Page>, d: nat, data: nat, k: nat, i: nat)
    requires DataStart(data) && k < 4 && i < PageCount(Kmaps(data)[k].virt, KmapSize(Kmaps(data)[k]))
    requires forall v: nat :: v < PAGES ==> At(mem, d, v) == if Region(data / PGSIZE, v) < k then KernelAt(data / PGSIZE, v) else None
    ensures PageAt(Kmaps(data)[k].virt / PGSIZE, i) >= KERNPAGE && At(mem, d, PageAt(Kmaps(data)[k].virt / PGSIZE, i)) == None
  {
    var m := Kmaps(data)[k];
    KmapRange(data, k);
    OffsetOf(m.virt / PGSIZE, i);
    hide At, Kmaps, PageAt, PageCount, Offset;
  }

  lemma KernelStep(mem0: map<nat, Page>, role0: map<nat, Role>, mem1: map<nat, Page>, role1: map<nat, Role>, mem2: map<nat, Page>, role2: map<nat, Role>,
                   d: nat, data: nat, k: nat, n: nat)
    requires DataStart(data) && k < 4 && KernelDone(mem0, role0, mem1, role1, d, data / PGSIZE, k)
    requires var m := Kmaps(data)[k];
             && n <= PageCount(m.virt, KmapSize(m)) && MappedRange(mem1, mem2, role1, d, m.virt / PGSIZE, n, m.physStart / PGSIZE, m.perm)
             && Extended(role1, role2, d, m.virt / PGSIZE, n, m.physStart / PGSIZE) && DataKept(mem1, role1, mem2, role2)
    ensures ViewsKept(mem0, mem2, role0) && Taken(role0, role2, d, 0) && DataKept(mem0, role0, mem2, role2)
    ensures n == PageCount(Kmaps(data)[k].virt, KmapSize(Kmaps(data)[k])) ==> KernelDone(mem0, role0, mem2, role2, d, data / PGSIZE, k + 1)
  {
    forall i | 0 <= i < n ensures PageAt(Kmaps(data)[k].virt / PGSIZE, i) >= KERNPAGE { KernelRoom(mem1, d, data, k, i); }
    KmapRange(data, k);
    hide At, Kmaps, PageAt, PageCount, Offset, Region, KernelAt, PageNo;
    assert forall e: nat :: IsDir(role0, e) ==> IsDir(role1, e) && e != d;
  }

  lemma Nothing(mem: map<nat, Page>, role: map<nat, Role>)
    requires RoleOk(mem, role)
    ensures ViewsKept(mem, mem, role) && DataKept(mem, role, mem, role)
  {
  }

  lemma UseKernel(mem0: map<nat, Page>, role0: map<nat, Role>, mem: map<nat, Page>, role: map<nat, Role>, d: nat, dp: nat, k: nat)
    requires KernelDone(mem0, role0, mem, role, d, dp, k)
    ensures IsDir(role, d) && ViewsKept(mem0, mem, role0) && Taken(role0, role, d, 0) && DataKept(mem0, role0, mem, role)
    ensures forall v: nat :: v < PAGES ==> At(mem, d, v) == if Region(dp, v) < k then KernelAt(dp, v) else None
    ensures k == 4 ==> forall v: nat :: v < PAGES ==> At(mem, d, v) == KernelAt(dp, v)
  {
    hide At;
  }

  lemma TakenDir(role: map<nat, Role>, role0: map<nat, Role>, d: nat, n: nat)
    requires Taken(role0, role, d, n)
    ensures IsDir(role, d)
  {
  }

  /** Freeing the new directory undoes everything. */
  lemma GivenBack(mem0: map<nat, Page>, role0: map<nat, Role>, mem1: map<nat, Page>, role1: map<nat, Role>, mem2: map<nat, Page>, role2: map<nat, Role>, d: nat, n: nat)
    requires RoleOk(mem0, role0) && ViewsKept(mem0, mem1, role0) && Taken(role0, role1, d, n) && DataKept(mem0, role0, mem1, role1)
    requires role2 == FreedAll(role1, d) && OthersSame(mem1, mem2, role1, d) && DataKept(mem1, role1, mem2, role2)
    ensures role2 == role0 && ViewsKept(mem0, mem2, role0) && DataKept(mem0, role0, mem2, role2)
  {
    forall q | q in role0 ensures role2[q] == role0[q] {
      if Belongs(role0[q], q, d) { Orphan(mem0, role0, q, d); }
    }
    hide At, RoleOk;
    assert forall e: nat :: IsDir(role0, e) ==> IsDir(role1, e) && e != d;
  }

  /** A page that is no directory owns nothing. */
  lemma Orphan(mem: map<nat, Page>, role: map<nat, Role>, q: nat, d: nat)
    requires RoleOk(mem, role) && q in role && Belongs(role[q], q, d)
    ensures IsDir(role, d)
  {
    if role[q].Table? { assert IsTable(role, q, d, role[q].x); }
  }

  // ---- the steps of allocuvm ----

  /** A zeroed user page. */
  ghost predicate NewPage(mem: map<nat, Page>, o: Option<Word>) {
    o.Some? && o.value.p && o.value.perm == WRITE_USER && o.value.frame in mem && mem[o.value.frame] == Blank()
  }

  /** allocuvm has filled pages lo up to a of d. */
  ghost predicate AllocDone(mem0: map<nat, Page>, role0: map<nat, Role>, mem: map<nat, Page>, role: map<nat, Role>, d: nat, lo: nat, a: nat) {
    && (forall e: nat, v: nat :: IsDir(role0, e) && v < PAGES && !(e == d && lo <= v < a) ==> At(mem, e, v) == At(mem0, e, v))
    && (forall v: nat :: lo <= v < a ==> NewPage(mem, At(mem, d, v)))
    && role.Keys == role0.Keys && DataKept(mem0, role0, mem, role)
    && (forall q :: q in role0 && role[q] != role0[q] ==>
          role0[q].Free? && ((role[q].Table? && role[q].dir == d) || IsFrameIn(role[q], d, lo, a)))
  }

  lemma AllocStart(mem: map<nat, Page>, role: map<nat, Role>, d: nat, lo: nat)
    requires RoleOk(mem, role)
    ensures AllocDone(mem, role, mem, role, d, lo, lo)
  {
  }

  /** A user page that translates has its frame. */
  lemma FrameOf(mem: map<nat, Page>, role: map<nat, Role>, d: nat, v: nat)
    requires RoleOk(mem, role) && IsDir(role, d) && v < KERNPAGE && At(mem, d, v).Some?
    ensures var f := At(mem, d, v).value.frame; f in role && role[f] == Frame(d, v / ENTRIES, v % ENTRIES)
  {
    TableAt(mem, role, d, v / ENTRIES, v % ENTRIES);
  }

  /** One page at a time: mappages of PGSIZE bytes at an aligned address. */
  lemma OnePage(a: nat)
    requires a < PAGES
    ensures a * PGSIZE < WORD && a * PGSIZE / PGSIZE == a && PageCount(a * PGSIZE, PGSIZE) == 1 && PageAt(a, 0) == a
    ensures forall v: nat :: v < PAGES ==> (Offset(a, v) < 1 <==> v == a)
  {
  }

  /** A page from kalloc, zeroed or filled, before it is mapped. */
  ghost predicate Fetched(mem1: map<nat, Page>, role1: map<nat, Role>, mem2: map<nat, Page>, role2: map<nat, Role>, m: nat, page: Page) {
    && m in role1 && role1[m].Free? && role2 == role1[m := Other] && mem2 == mem1[m := page] && SameViews(mem1, mem2, role2)
  }

  lemma AllocStep(mem0: map<nat, Page>, role0: map<nat, Role>, mem1: map<nat, Page>, role1: map<nat, Role>, mem2: map<nat, Page>, role2: map<nat, Role>,
                  mem3: map<nat, Page>, role3: map<nat, Role>, d: nat, lo: nat, a: nat, m: nat)
    requires RoleOk(mem1, role1) && RoleOk(mem3, role3) && IsDir(role1, d) && lo <= a < KERNPAGE
    requires AllocDone(mem0, role0, mem1, role1, d, lo, a) && Fetched(mem1, role1, mem2, role2, m, Blank())
    requires MappedRange(mem2, mem3, role2, d, a, 1, m, WRITE_USER) && Extended(role2, role3, d, a, 1, m) && DataKept(mem2, role2, mem3, role3)
    requires IsDir(role0, d) && At(mem0, d, a) == None
    ensures AllocDone(mem0, role0, mem3, role3, d, lo, a + 1)
  {
    hide At, RoleOk, PageAt, PageNo, NewPage, IsFrameIn, DataKept, Fetched, MappedRange, Extended, SameViews;
    AllocViews(mem0, role0, mem1, role1, mem2, role2, mem3, role3, d, lo, a, m);
    AllocDir(role1, role2, role3, mem1, mem2, d, a, m);
    AllocRoles(mem0, role0, mem1, role1, role2, mem3, role3, d, lo, a, m);
    AllocPages(mem0, role0, mem1, role1, mem2, role2, mem3, role3, d, lo, a, m);
    AllocData(mem0, role0, mem1, role1, mem2, role2, mem3, role3, d, lo, a, m);
  }

  lemma AllocDir(role1: map<nat, Role>, role2: map<nat, Role>, role3: map<nat, Role>, mem1: map<nat, Page>, mem2: map<nat, Page>, d: nat, a: nat, m: nat)
    requires IsDir(role1, d) && Fetched(mem1, role1, mem2, role2, m, Blank()) && Extended(role2, role3, d, a, 1, m)
    ensures IsDir(role3, d) && m in role1 && role1[m].Free? && role2 == role1[m := Other]
  {
  }

  lemma AllocData(mem0: map<nat, Page>, role0: map<nat, Role>, mem1: map<nat, Page>, role1: map<nat, Role>, mem2: map<nat, Page>, role2: map<nat, Role>,
                  mem3: map<nat, Page>, role3: map<nat, Role>, d: nat, lo: nat, a: nat, m: nat)
    requires AllocDone(mem0, role0, mem1, role1, d, lo, a) && Fetched(mem1, role1, mem2, role2, m, Blank()) && DataKept(mem2, role2, mem3, role3)
    ensures DataKept(mem0, role0, mem3, role3)
  {
    hide At, SameViews, NewPage;
    assert forall q :: q in role0 && HoldsData(role0[q]) ==> role1[q] == role0[q] && q != m;
  }

  lemma AllocRoles(mem0: map<nat, Page>, role0: map<nat, Role>, mem1: map<nat, Page>, role1: map<nat, Role>, role2: map<nat, Role>,
                   mem3: map<nat, Page>, role3: map<nat, Role>, d: nat, lo: nat, a: nat, m: nat)
    requires RoleOk(mem3, role3) && lo <= a < KERNPAGE && AllocDone(mem0, role0, mem1, role1, d, lo, a)
    requires m in role1 && role1[m].Free? && role2 == role1[m := Other] && Extended(role2, role3, d, a, 1, m)
    requires IsDir(role3, d) && At(mem3, d, a).Some? && At(mem3, d, a).value.frame == m
    ensures role3.Keys == role0.Keys
    ensures forall q :: q in role0 && role3[q] != role0[q] ==>
              role0[q].Free? && ((role3[q].Table? && role3[q].dir == d) || IsFrameIn(role3[q], d, lo, a + 1))
  {
    FrameOf(mem3, role3, d, a);
    PageWhole(a);
    hide At, RoleOk, PageAt, PageNo;
  }

  lemma AllocViews(mem0: map<nat, Page>, role0: map<nat, Role>, mem1: map<nat, Page>, role1: map<nat, Role>, mem2: map<nat, Page>, role2: map<nat, Role>,
                   mem3: map<nat, Page>, role3: map<nat, Role>, d: nat, lo: nat, a: nat, m: nat)
    requires lo <= a < KERNPAGE && AllocDone(mem0, role0, mem1, role1, d, lo, a) && Fetched(mem1, role1, mem2, role2, m, Blank())
    requires MappedRange(mem2, mem3, role2, d, a, 1, m, WRITE_USER)
    ensures forall e: nat, v: nat :: IsDir(role0, e) && v < PAGES && !(e == d && lo <= v < a + 1) ==> At(mem3, e, v) == At(mem0, e, v)
    ensures forall v: nat :: lo <= v < a && IsDir(role1, d) ==> At(mem3, d, v) == At(mem1, d, v)
    ensures IsDir(role1, d) ==> At(mem3, d, a) == Some(Word(m, true, WRITE_USER))
  {
    OnePage(a);
    hide Lookup, Offset, PageCount, PageAt;
    assert forall e: nat :: IsDir(role0, e) ==> IsDir(role1, e);
    assert forall e: nat :: IsDir(role1, e) ==> IsDir(role2, e);
  }

  lemma AllocPages(mem0: map<nat, Page>, role0: map<nat, Role>, mem1: map<nat, Page>, role1: map<nat, Role>, mem2: map<nat, Page>, role2: map<nat, Role>,
                   mem3: map<nat, Page>, role3: map<nat, Role>, d: nat, lo: nat, a: nat, m: nat)
    requires RoleOk(mem1, role1) && RoleOk(mem3, role3) && IsDir(role1, d) && IsDir(role3, d) && lo <= a < KERNPAGE
    requires AllocDone(mem0, role0, mem1, role1, d, lo, a) && Fetched(mem1, role1, mem2, role2, m, Blank()) && DataKept(mem2, role2, mem3, role3)
    requires forall v: nat :: lo <= v < a ==> At(mem3, d, v) == At(mem1, d, v)
    requires At(mem3, d, a) == Some(Word(m, true, WRITE_USER))
    ensures forall v: nat :: lo <= v < a + 1 ==> NewPage(mem3, At(mem3, d, v))
  {
    hide RoleOk, At, Lookup, SameViews;
    forall v: nat | lo <= v < a + 1 ensures NewPage(mem3, At(mem3, d, v)) {
      FrameOf(mem3, role3, d, v);
      if v < a { FrameOf(mem1, role1, d, v); }
    }
  }

  /** A failed allocuvm: everything that it mapped is unmapped again; only new page tables stay. */
  lemma AllocUndo(mem0: map<nat, Page>, role0: map<nat, Role>, mem1: map<nat, Page>, role1: map<nat, Role>, mem2: map<nat, Page>, role2: map<nat, Role>,
                  mem3: map<nat, Page>, role3: map<nat, Role>, d: nat, lo: nat, a: nat, hi: nat)
    requires RoleOk(mem0, role0) && IsDir(role0, d) && lo <= a <= hi <= KERNPAGE && AllocDone(mem0, role0, mem1, role1, d, lo, a)
    requires forall v :: lo <= v < hi ==> At(mem0, d, v) == None
    requires ViewsKept(mem1, mem2, role1) && role2.Keys == role1.Keys && DataKept(mem1, role1, mem2, role2)
    requires forall q :: q in role1 && role2[q] != role1[q] ==> role1[q].Free? && (role2[q].Other? || (role2[q].Table? && role2[q].dir == d))
    requires role3 == Released(role2, d, lo, hi) && Unmapped(mem2, mem3, role2, d, lo, hi) && DataKept(mem2, role2, mem3, role3)
    ensures ViewsKept(mem0, mem3, role0) && DataKept(mem0, role0, mem3, role3) && role3.Keys == role0.Keys
    ensures forall q :: q in role0 && role3[q] != role0[q] ==> role0[q].Free? && (role3[q].Other? || (role3[q].Table? && role3[q].dir == d))
    ensures forall q :: q in role0 && role2[q].Other? ==> role3[q].Other?
  {
    hide At, RoleOk, PageNo, NewPage, DataKept, Unmapped, ViewsKept, Released, IsFrameIn;
    UndoRoles(mem0, role0, mem1, role1, role2, d, lo, a, hi);
    UndoViews(mem0, role0, mem1, role1, mem2, role2, mem3, d, lo, a, hi);
    UndoData(mem0, role0, mem1, role1, mem2, role2, mem3, role3, d, lo, a, hi);
  }

  lemma UndoRoles(mem0: map<nat, Page>, role0: map<nat, Role>, mem1: map<nat, Page>, role1: map<nat, Role>, role2: map<nat, Role>, d: nat, lo: nat, a: nat, hi: nat)
    requires RoleOk(mem0, role0) && lo <= a <= hi && AllocDone(mem0, role0, mem1, role1, d, lo, a) && role2.Keys == role1.Keys
    requires forall v :: lo <= v < hi ==> At(mem0, d, v) == None
    requires forall q :: q in role1 && role2[q] != role1[q] ==> role1[q].Free? && (role2[q].Other? || (role2[q].Table? && role2[q].dir == d))
    ensures var role3 := Released(role2, d, lo, hi);
            role3.Keys == role0.Keys
            && (forall q :: q in role0 && role3[q] != role0[q] ==> role0[q].Free? && (role3[q].Other? || (role3[q].Table? && role3[q].dir == d)))
            && (forall q :: q in role0 && role2[q].Other? ==> role3[q].Other?)
  {
    NoFrame(mem0, role0, d, lo, hi);
    hide At, RoleOk, PageNo, NewPage, DataKept;
    var role3 := Released(role2, d, lo, hi);
    forall q | q in role0 && role3[q] != role0[q] ensures role0[q].Free? && (role3[q].Other? || (role3[q].Table? && role3[q].dir == d)) {
      assert IsFrameIn(role1[q], d, lo, a) ==> IsFrameIn(role1[q], d, lo, hi);
    }
  }

  lemma UndoViews(mem0: map<nat, Page>, role0: map<nat, Role>, mem1: map<nat, Page>, role1: map<nat, Role>, mem2: map<nat, Page>, role2: map<nat, Role>,
                  mem3: map<nat, Page>, d: nat, lo: nat, a: nat, hi: nat)
    requires lo <= a <= hi && AllocDone(mem0, role0, mem1, role1, d, lo, a) && role2.Keys == role1.Keys && hi <= PAGES
    requires forall v :: lo <= v < hi ==> At(mem0, d, v) == None
    requires ViewsKept(mem1, mem2, role1) && Unmapped(mem2, mem3, role2, d, lo, hi)
    requires forall q :: q in role1 && role2[q] != role1[q] ==> role1[q].Free?
    ensures ViewsKept(mem0, mem3, role0)
  {
    hide At, NewPage, DataKept, IsFrameIn;
    assert forall e: nat :: IsDir(role0, e) ==> IsDir(role1, e);
    assert forall e: nat :: IsDir(role1, e) ==> IsDir(role2, e);
  }

  lemma UndoData(mem0: map<nat, Page>, role0: map<nat, Role>, mem1: map<nat, Page>, role1: map<nat, Role>, mem2: map<nat, Page>, role2: map<nat, Role>,
                 mem3: map<nat, Page>, role3: map<nat, Role>, d: nat, lo: nat, a: nat, hi: nat)
    requires AllocDone(mem0, role0, mem1, role1, d, lo, a) && role2.Keys == role1.Keys
    requires DataKept(mem1, role1, mem2, role2) && DataKept(mem2, role2, mem3, role3) && role3.Keys == role2.Keys
    requires forall q :: q in role1 && role2[q] != role1[q] ==> role1[q].Free?
    ensures DataKept(mem0, role0, mem3, role3)
  {
    hide At, NewPage, IsFrameIn;
    assert forall q :: q in role0 && HoldsData(role0[q]) ==> role1[q] == role0[q] && role2[q] == role0[q];
  }

  // ---- the steps of copyuvm ----

  /** Same flags and same contents in another frame. */
  ghost predicate Copied(mem0: map<nat, Page>, mem: map<nat, Page>, o: Option<Word>, c: Option<Word>) {
    && o.Some? && c.Some? && c.value.p && c.value.perm == o.value.perm && c.value.frame != o.value.frame
    && o.value.frame in mem0 && c.value.frame in mem && mem[c.value.frame] == mem0[o.value.frame]
  }

  /** The new directory d has copies of the first n pages of s. */
  ghost predicate CopyDone(mem0: map<nat, Page>, role0: map<nat, Role>, mem: map<nat, Page>, role: map<nat, Role>, s: nat, d: nat, dp: nat, n: nat) {
    && ViewsKept(mem0, mem, role0) && Taken(role0, role, d, n) && DataKept(mem0, role0, mem, role)
    && (forall v: nat :: v < n ==> Copied(mem0, mem, At(mem0, s, v), At(mem, d, v)))
    && (forall v: nat :: n <= v < PAGES ==> At(mem, d, v) == KernelAt(dp, v))
  }

  lemma CopyStart(mem0: map<nat, Page>, role0: map<nat, Role>, mem: map<nat, Page>, role: map<nat, Role>, s: nat, d: nat, dp: nat)
    requires ViewsKept(mem0, mem, role0) && Taken(role0, role, d, 0) && DataKept(mem0, role0, mem, role)
    requires forall v: nat :: v < PAGES ==> At(mem, d, v) == KernelAt(dp, v)
    ensures CopyDone(mem0, role0, mem, role, s, d, dp, 0)
  {
  }

  lemma CopyUse(mem0: map<nat, Page>, role0: map<nat, Role>, mem: map<nat, Page>, role: map<nat, Role>, s: nat, d: nat, dp: nat, n: nat)
    requires RoleOk(mem0, role0) && RoleOk(mem, role) && CopyDone(mem0, role0, mem, role, s, d, dp, n) && IsDir(role0, s)
    requires n < KERNPAGE && At(mem0, s, n).Some?
    ensures IsDir(role, d) && IsDir(role, s) && d != s && At(mem, s, n) == At(mem0, s, n) && At(mem, d, n) == None
    ensures var f := At(mem0, s, n).value.frame;
            f in role && role[f].Frame? && role[f].dir == s && f in role0 && role0[f] == role[f] && f in mem && f in mem0 && mem[f] == mem0[f]
  {
    FrameOf(mem0, role0, s, n);
    FrameOf(mem, role, s, n);
    hide At, RoleOk, Taken;
    assert IsDir(role, d) && IsDir(role, s) && d != s by { TakenDir(role, role0, d, n); TakenOld(role0, role, d, n, s); }
  }

  lemma TakenOld(role0: map<nat, Role>, role: map<nat, Role>, d: nat, n: nat, s: nat)
    requires Taken(role0, role, d, n) && IsDir(role0, s)
    ensures IsDir(role, s) && d != s
  {
  }

  lemma CopyStep(mem0: map<nat, Page>, role0: map<nat, Role>, mem1: map<nat, Page>, role1: map<nat, Role>, mem2: map<nat, Page>, role2: map<nat, Role>,
                 mem3: map<nat, Page>, role3: map<nat, Role>, s: nat, d: nat, dp: nat, n: nat, m: nat, w: Word, k: nat)
    requires RoleOk(mem0, role0) && RoleOk(mem1, role1) && RoleOk(mem3, role3) && IsDir(role0, s) && n < KERNPAGE && k <= 1
    requires CopyDone(mem0, role0, mem1, role1, s, d, dp, n) && At(mem0, s, n) == Some(w) && w.frame in mem1 && w.frame in role1 && role1[w.frame].Frame?
    requires w.frame in mem0 && mem1[w.frame] == mem0[w.frame]
    requires Fetched(mem1, role1, mem2, role2, m, mem1[w.frame])
    requires MappedRange(mem2, mem3, role2, d, n, k, m, w.perm) && Extended(role2, role3, d, n, k, m) && DataKept(mem2, role2, mem3, role3)
    ensures k == 1 ==> CopyDone(mem0, role0, mem3, role3, s, d, dp, n + 1)
    ensures k == 0 ==> m in role3 && role3[m].Other? && ViewsKept(mem0, mem3, role0) && DataKept(mem0, role0, mem3, role3)
    ensures k == 0 ==> Taken(role0, role3[m := Free], d, n)
  {
    hide At, RoleOk, Copied, Fetched, MappedRange, Extended, DataKept, Taken, ViewsKept, KernelAt;
    CopyViews(mem0, role0, mem1, role1, mem2, role2, mem3, s, d, dp, n, m, w, k);
    CopyRoles(mem0, role0, mem1, role1, mem2, role2, mem3, role3, s, d, dp, n, m, w, k);
    CopyData(mem0, role0, mem1, role1, mem2, role2, mem3, role3, s, d, dp, n, m, w);
    if k == 1 { CopyPages(mem0, role0, mem1, role1, mem2, role2, mem3, role3, s, d, dp, n, m, w); }
  }

  lemma CopyViews(mem0: map<nat, Page>, role0: map<nat, Role>, mem1: map<nat, Page>, role1: map<nat, Role>, mem2: map<nat, Page>, role2: map<nat, Role>,
                  mem3: map<nat, Page>, s: nat, d: nat, dp: nat, n: nat, m: nat, w: Word, k: nat)
    requires CopyDone(mem0, role0, mem1, role1, s, d, dp, n) && w.frame in mem1 && Fetched(mem1, role1, mem2, role2, m, mem1[w.frame])
    requires n < KERNPAGE && k <= 1 && MappedRange(mem2, mem3, role2, d, n, k, m, w.perm)
    ensures ViewsKept(mem0, mem3, role0)
    ensures forall v: nat :: v < PAGES && v != n ==> At(mem3, d, v) == At(mem1, d, v)
    ensures k == 1 ==> At(mem3, d, n) == Some(Word(m, true, w.perm))
    ensures forall v: nat :: n < v < PAGES ==> At(mem3, d, v) == KernelAt(dp, v)
  {
    OnePage(n);
    hide Lookup, Offset, PageCount, PageAt, KernelAt, DataKept, Copied;
    assert IsDir(role1, d);
    assert forall e: nat :: IsDir(role0, e) ==> IsDir(role1, e) && e != d;
    assert forall e: nat :: IsDir(role1, e) ==> IsDir(role2, e);
  }

  lemma CopyRoles(mem0: map<nat, Page>, role0: map<nat, Role>, mem1: map<nat, Page>, role1: map<nat, Role>, mem2: map<nat, Page>, role2: map<nat, Role>,
                  mem3: map<nat, Page>, role3: map<nat, Role>, s: nat, d: nat, dp: nat, n: nat, m: nat, w: Word, k: nat)
    requires RoleOk(mem3, role3) && CopyDone(mem0, role0, mem1, role1, s, d, dp, n) && w.frame in mem1 && Fetched(mem1, role1, mem2, role2, m, mem1[w.frame])
    requires n < KERNPAGE && k <= 1 && Extended(role2, role3, d, n, k, m) && (k == 1 ==> At(mem3, d, n) == Some(Word(m, true, w.perm)))
    ensures k == 1 ==> Taken(role0, role3, d, n + 1)
    ensures k == 0 ==> m in role3 && role3[m].Other? && Taken(role0, role3[m := Free], d, n)
  {
    hide At, RoleOk, PageAt, PageNo, DataKept, Copied, SameViews, ViewsKept, KernelAt, Taken, Extended;
    TakenDir(role1, role0, d, n);
    ExtendedDir(role2, role3, d, n, k, m);
    if k == 1 { FrameOf(mem3, role3, d, n); }
    TakenStep(role0, role1, role3, d, n, m, k);
  }

  lemma ExtendedDir(role: map<nat, Role>, role': map<nat, Role>, d: nat, first: nat, k: nat, frame0: nat)
    requires Extended(role, role', d, first, k, frame0) && IsDir(role, d)
    ensures IsDir(role', d)
  {
  }

  lemma TakenStep(role0: map<nat, Role>, role1: map<nat, Role>, role3: map<nat, Role>, d: nat, n: nat, m: nat, k: nat)
    requires Taken(role0, role1, d, n) && m in role1 && role1[m].Free? && k <= 1 && Extended(role1[m := Other], role3, d, n, k, m)
    requires k == 1 ==> m in role3 && role3[m] == Frame(d, n / ENTRIES, n % ENTRIES)
    ensures k == 1 ==> Taken(role0, role3, d, n + 1)
    ensures k == 0 ==> m in role3 && role3[m].Other? && Taken(role0, role3[m := Free], d, n)
  {
    PageWhole(n);
    hide PageAt, PageNo;
    var role2 := role1[m := Other];
    forall q | q in role0 && q != m ensures role3[q] != role1[q] ==> role1[q].Free? && role3[q].Table? && role3[q].dir == d {
      assert role2[q] == role1[q];
    }
  }

  lemma CopyData(mem0: map<nat, Page>, role0: map<nat, Role>, mem1: map<nat, Page>, role1: map<nat, Role>, mem2: map<nat, Page>, role2: map<nat, Role>,
                 mem3: map<nat, Page>, role3: map<nat, Role>, s: nat, d: nat, dp: nat, n: nat, m: nat, w: Word)
    requires CopyDone(mem0, role0, mem1, role1, s, d, dp, n) && w.frame in mem1 && Fetched(mem1, role1, mem2, role2, m, mem1[w.frame])
    requires DataKept(mem2, role2, mem3, role3)
    ensures DataKept(mem0, role0, mem3, role3)
  {
    hide At, SameViews, Copied, KernelAt;
    assert forall q :: q in role0 && HoldsData(role0[q]) ==> role1[q] == role0[q] && q != m;
  }

  lemma CopyPages(mem0: map<nat, Page>, role0: map<nat, Role>, mem1: map<nat, Page>, role1: map<nat, Role>, mem2: map<nat, Page>, role2: map<nat, Role>,
                  mem3: map<nat, Page>, role3: map<nat, Role>, s: nat, d: nat, dp: nat, n: nat, m: nat, w: Word)
    requires RoleOk(mem1, role1) && RoleOk(mem3, role3) && n < KERNPAGE && At(mem0, s, n) == Some(w)
    requires CopyDone(mem0, role0, mem1, role1, s, d, dp, n) && w.frame in mem1 && w.frame in role1 && role1[w.frame].Frame?
    requires w.frame in mem0 && mem1[w.frame] == mem0[w.frame] && Taken(role0, role3, d, n + 1)
    requires Fetched(mem1, role1, mem2, role2, m, mem1[w.frame]) && DataKept(mem2, role2, mem3, role3)
    requires forall v: nat :: v < PAGES && v != n ==> At(mem3, d, v) == At(mem1, d, v)
    requires At(mem3, d, n) == Some(Word(m, true, w.perm))
    ensures forall v: nat :: v < n + 1 ==> Copied(mem0, mem3, At(mem0, s, v), At(mem3, d, v))
  {
    hide RoleOk, At, Lookup, SameViews, ViewsKept, KernelAt;
    assert IsDir(role1, d) && IsDir(role3, d);
    forall v: nat | v < n + 1 ensures Copied(mem0, mem3, At(mem0, s, v), At(mem3, d, v)) {
      FrameOf(mem3, role3, d, v);
      if v < n { FrameOf(mem1, role1, d, v); }
    }
  }

  /** Handing back the page that could not be mapped, and then the new directory. */
  lemma CopyUndo(mem0: map<nat, Page>, role0: map<nat, Role>, mem1: map<nat, Page>, role1: map<nat, Role>, mem2: map<nat, Page>, m: nat, d: nat, n: nat)
    requires ViewsKept(mem0, mem1, role0) && DataKept(mem0, role0, mem1, role1) && m in role1 && role1[m].Other?
    requires m in mem2 && mem2 == mem1[m := mem2[m]] && SameViews(mem1, mem2, role1) && Taken(role0, role1[m := Free], d, n)
    ensures ViewsKept(mem0, mem2, role0) && DataKept(mem0, role0, mem2, role1[m := Free])
  {
    hide Lookup;
    var role2 := role1[m := Free];
    assert forall e: nat :: IsDir(role0, e) ==> IsDir(role2, e) && IsDir(role1, e);
  }

  // ---- small steps of the methods ----

  lemma SameGrown(role: map<nat, Role>, d: nat)
    ensures Grown(role, role, d)
  {
  }

  lemma RoundedUp(oldsz: nat, newsz: nat)
    requires oldsz <= newsz <= KERNPAGE * PGSIZE
    ensures RoundUp(oldsz) <= RoundUp(newsz) <= KERNPAGE && RoundUp(oldsz) == (oldsz + PGSIZE - 1) / PGSIZE
    ensures RoundUp(0) == 0
  {
  }

  lemma Reached(a: nat, newsz: nat, hi: nat)
    requires a * PGSIZE >= newsz && hi == RoundUp(newsz) && a <= hi
    ensures a == hi
  {
  }

  lemma AllocSame(mem0: map<nat, Page>, role0: map<nat, Role>, mem: map<nat, Page>, role: map<nat, Role>, d: nat, lo: nat, a: nat)
    requires AllocDone(mem0, role0, mem, role, d, lo, a) && IsDir(role0, d) && a < PAGES
    ensures At(mem, d, a) == At(mem0, d, a)
  {
  }

  lemma AllocFailed(mem0: map<nat, Page>, role0: map<nat, Role>, mem1: map<nat, Page>, role1: map<nat, Role>, mem: map<nat, Page>, role: map<nat, Role>, d: nat)
    requires RoleOk(mem1, role1) && mem == mem1 && role == role1
    ensures ViewsKept(mem1, mem, role1) && DataKept(mem1, role1, mem, role) && TablesAnd(role1, role, d, None)
  {
  }

  /** New page tables of d, and perhaps page m in the caller's hands. */
  ghost predicate TablesAnd(role: map<nat, Role>, role': map<nat, Role>, d: nat, m: Option<nat>) {
    && role'.Keys == role.Keys && (m.Some? ==> m.value in role && role[m.value].Free? && role'[m.value].Other?)
    && forall q :: q in role && role'[q] != role[q] ==> role[q].Free? && (m == Some(q) || (role'[q].Table? && role'[q].dir == d))
  }

  lemma FetchedPage(mem1: map<nat, Page>, role1: map<nat, Role>, mem2: map<nat, Page>, role2: map<nat, Role>, m: nat, page: Page, d: nat, a: nat)
    requires Fetched(mem1, role1, mem2, role2, m, page) && IsDir(role1, d)
    ensures IsDir(role2, d) && m in role2 && role2[m].Other? && At(mem2, d, a) == At(mem1, d, a)
  {
    hide Lookup;
  }

  lemma MapFailed(mem1: map<nat, Page>, role1: map<nat, Role>, mem2: map<nat, Page>, role2: map<nat, Role>, mem: map<nat, Page>, role: map<nat, Role>,
                  d: nat, a: nat, m: nat, page: Page, perm: nat)
    requires RoleOk(mem1, role1) && Fetched(mem1, role1, mem2, role2, m, page) && IsDir(role1, d)
    requires MappedRange(mem2, mem, role2, d, a, 0, m, perm) && Extended(role2, role, d, a, 0, m) && DataKept(mem2, role2, mem, role)
    ensures ViewsKept(mem1, mem, role1) && DataKept(mem1, role1, mem, role) && TablesAnd(role1, role, d, Some(m)) && IsDir(role, d)
  {
    hide At, RoleOk, Offset, PageAt, PageNo, DataKept, ViewsKept, SameViews, MappedRange, Extended, TablesAnd;
    FailedViews(mem1, role1, mem2, role2, mem, d, a, m, page, perm);
    FailedRoles(role1, role, d, a, m);
    FetchedData(mem1, role1, mem2, role2, mem, role, m, page);
  }

  lemma FailedViews(mem1: map<nat, Page>, role1: map<nat, Role>, mem2: map<nat, Page>, role2: map<nat, Role>, mem: map<nat, Page>,
                    d: nat, a: nat, m: nat, page: Page, perm: nat)
    requires Fetched(mem1, role1, mem2, role2, m, page) && MappedRange(mem2, mem, role2, d, a, 0, m, perm)
    ensures ViewsKept(mem1, mem, role1)
  {
    hide Lookup, Offset;
    assert forall e: nat :: IsDir(role1, e) ==> IsDir(role2, e);
  }

  lemma FailedRoles(role1: map<nat, Role>, role: map<nat, Role>, d: nat, a: nat, m: nat)
    requires m in role1 && role1[m].Free? && Extended(role1[m := Other], role, d, a, 0, m) && IsDir(role1, d)
    ensures TablesAnd(role1, role, d, Some(m)) && IsDir(role, d)
  {
    hide PageAt, PageNo;
    var role2 := role1[m := Other];
    assert forall q :: q in role1 && q != m ==> role2[q] == role1[q];
  }

  lemma FetchedData(mem1: map<nat, Page>, role1: map<nat, Role>, mem2: map<nat, Page>, role2: map<nat, Role>, mem: map<nat, Page>, role: map<nat, Role>, m: nat, page: Page)
    requires Fetched(mem1, role1, mem2, role2, m, page) && DataKept(mem2, role2, mem, role) && RoleOk(mem1, role1)
    ensures DataKept(mem1, role1, mem, role)
  {
    InShape(mem1, role1);
    hide RoleOk, SameViews;
  }

  lemma OnlyOther(role0: map<nat, Role>, role1: map<nat, Role>, role2: map<nat, Role>, role3: map<nat, Role>, d: nat, m: Option<nat>,
                  mem0: map<nat, Page>, mem1: map<nat, Page>, lo: nat, hi: nat, a: nat)
    requires AllocDone(mem0, role0, mem1, role1, d, lo, a) && TablesAnd(role1, role2, d, m) && role3 == Released(role2, d, lo, hi) && lo <= a <= hi
    requires forall q :: q in role0 && role3[q] != role0[q] ==> role0[q].Free? && (role3[q].Other? || (role3[q].Table? && role3[q].dir == d))
    ensures m.Some? ==> m.value in role3 && role3[m.value].Other?
    ensures forall q :: q in role0 && role3[q] != role0[q] ==> role0[q].Free? && (m == Some(q) || (role3[q].Table? && role3[q].dir == d))
    ensures role3.Keys == role0.Keys && (m.Some? ==> role0[m.value].Free?)
  {
    hide At, NewPage, PageNo, DataKept;
  }

  lemma LastPage(mem0: map<nat, Page>, role0: map<nat, Role>, mem3: map<nat, Page>, role3: map<nat, Role>, mem: map<nat, Page>, m: nat)
    requires ViewsKept(mem0, mem3, role0) && DataKept(mem0, role0, mem3, role3) && m in role3 && role3[m].Other?
    requires m in mem && mem == mem3[m := mem[m]] && SameViews(mem3, mem, role3)
    requires role3.Keys == role0.Keys && forall q :: q in role0 && role0[q].Dir? ==> role3[q].Dir?
    ensures ViewsKept(mem0, mem, role0) && DataKept(mem0, role0, mem, role3[m := Free])
  {
    hide Lookup;
    assert forall e: nat :: IsDir(role0, e) ==> IsDir(role3, e);
  }

  lemma FinallyGrown(role0: map<nat, Role>, role3: map<nat, Role>, role: map<nat, Role>, d: nat, m: Option<nat>)
    requires role3.Keys == role0.Keys && (m.Some? ==> m.value in role0 && role0[m.value].Free?)
    requires forall q :: q in role0 && role3[q] != role0[q] ==> role0[q].Free? && (m == Some(q) || (role3[q].Table? && role3[q].dir == d))
    requires role == if m.Some? then role3[m.value := Free] else role3
    ensures Grown(role0, role, d)
  {
    assert role.Keys == role0.Keys;
  }

  lemma ThereIs(mem: map<nat, Page>, role: map<nat, Role>, d: nat, v: nat)
    requires RoleOk(mem, role) && IsDir(role, d) && At(mem, d, v).Some? && v < PAGES
    ensures mem[d][v / ENTRIES].p
  {
    TableAt(mem, role, d, v / ENTRIES, v % ENTRIES);
  }

  lemma CopySame(mem0: map<nat, Page>, role0: map<nat, Role>, mem: map<nat, Page>, role: map<nat, Role>, s: nat, d: nat, dp: nat, n: nat)
    requires CopyDone(mem0, role0, mem, role, s, d, dp, n)
    ensures ViewsKept(mem0, mem, role0) && DataKept(mem0, role0, mem, role) && Taken(role0, role, d, n)
  {
  }

  // ---- the steps of freerange ----

  /** The pages from a up to b are free. */
  function RangeFreed(role: map<nat, Role>, a: nat, b: nat): map<nat, Role> {
    map q | q in role :: if a <= q < b then Free else role[q]
  }

  lemma RangeFreedNext(role: map<nat, Role>, a: nat, b: nat)
    requires a <= b && b in role
    ensures RangeFreed(role, a, b)[b := Free] == RangeFreed(role, a, b + 1)
    ensures RangeFreed(role, a, a) == role
  {
  }
}
