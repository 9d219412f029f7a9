/**
 * Physical pages, two-level page tables and who owns each page (vm.c, kalloc.c).
 *
 * A page is 1024 words.  A word is kept in the parts that paging gives it (section 4.3 of the
 * Intel SDM, volume 3A): the frame number, the present bit, and the other flag bits.  Pages are
 * named by their number.  A virtual page is named by its directory index x and table index y.
 *
 * Every managed page has exactly one role.  The invariant ties the roles to what is reachable
 * in memory, so that the roles are a partition of the managed pages.
 */
module VmSpec {
  import opened Common

  datatype Word = Word(frame: nat, p: bool, perm: nat)

  const ZERO := Word(0, false, 0)
  const ENTRIES := 1024
  const KERNX := 512  // directory index of KERNBASE
  const WRITE_USER := 6  // PTE_W | PTE_U

  type Page = seq<Word>

  function Blank(): (r: Page)
    ensures |r| == ENTRIES && forall i :: 0 <= i < ENTRIES ==> r[i] == ZERO
  {
    seq(ENTRIES, _ => ZERO)
  }

  datatype Role =
    | Free                                // on kmem.freelist
    | Dir                                 // a page directory
    | Table(dir: nat, x: nat)             // the page table at entry x of directory dir
    | Frame(dir: nat, x: nat, y: nat)     // user memory of dir at virtual page (x, y)
    | Other                               // in the hands of the code that called kalloc

  /** The translation of virtual page (x, y) under directory d. */
  function Lookup(mem: map<nat, Page>, d: nat, x: nat, y: nat): Option<Word> {
    if d in mem && x < |mem[d]| && mem[d][x].p && mem[d][x].frame in mem && y < |mem[mem[d][x].frame]| then
      var w := mem[mem[d][x].frame][y];
      if w.p then Some(w) else None
    else None
  }

  // ---- the invariant ----

  ghost predicate Shape(mem: map<nat, Page>, role: map<nat, Role>) {
    forall p :: p in role ==> p > 0 && p in mem && |mem[p]| == ENTRIES
  }

  ghost predicate IsDir(role: map<nat, Role>, d: nat) { d in role && role[d].Dir? }

  ghost predicate IsTable(role: map<nat, Role>, t: nat, d: nat, x: nat) { t in role && role[t] == Table(d, x) }

  /** Present directory entries name exactly the page tables, and leave the permissions to the table entries. */
  ghost predicate TablesOk(mem: map<nat, Page>, role: map<nat, Role>)
    requires Shape(mem, role)
  {
    && (forall d: nat, x: nat :: IsDir(role, d) && x < ENTRIES && mem[d][x].p ==>
          IsTable(role, mem[d][x].frame, d, x) && mem[d][x].perm == WRITE_USER)
    && (forall t: nat, d: nat, x: nat :: IsTable(role, t, d, x) ==> IsDir(role, d) && x < ENTRIES && mem[d][x].p && mem[d][x].frame == t)
  }

  /** Present entries below KERNBASE name exactly the user frames. */
  ghost predicate FramesOk(mem: map<nat, Page>, role: map<nat, Role>)
    requires Shape(mem, role)
  {
    && (forall t: nat, d: nat, x: nat, y: nat :: IsTable(role, t, d, x) && x < KERNX && y < ENTRIES && mem[t][y].p ==>
          mem[t][y].frame in role && role[mem[t][y].frame] == Frame(d, x, y))
    && (forall f :: f in role && role[f].Frame? ==>
          IsDir(role, role[f].dir) && role[f].x < KERNX && role[f].y < ENTRIES
          && Lookup(mem, role[f].dir, role[f].x, role[f].y).Some?
          && Lookup(mem, role[f].dir, role[f].x, role[f].y).value.frame == f)
  }

  ghost predicate RoleOk(mem: map<nat, Page>, role: map<nat, Role>) {
    Shape(mem, role) && TablesOk(mem, role) && FramesOk(mem, role)
  }

  /** Pages that only hold data do not matter to translation. */
  ghost predicate SameTables(mem: map<nat, Page>, mem': map<nat, Page>, role: map<nat, Role>) {
    forall p :: p in role && (role[p].Dir? || role[p].Table?) ==> p in mem && p in mem' && mem'[p] == mem[p]
  }

  /** mem' translates like mem, except that (x, y) under d now gives o. */
  ghost predicate Remaps(mem: map<nat, Page>, mem': map<nat, Page>, role: map<nat, Role>, d: nat, x: nat, y: nat, o: Option<Word>) {
    && Lookup(mem', d, x, y) == o
    && forall e: nat, i: nat, j: nat :: IsDir(role, e) && (e, i, j) != (d, x, y) ==> Lookup(mem', e, i, j) == Lookup(mem, e, i, j)
  }

  ghost predicate SameViews(mem: map<nat, Page>, mem': map<nat, Page>, role: map<nat, Role>) {
    forall e: nat, i: nat, j: nat :: IsDir(role, e) ==> Lookup(mem', e, i, j) == Lookup(mem, e, i, j)
  }

  // ---- the effect of each store ----

  lemma TableAt(mem: map<nat, Page>, role: map<nat, Role>, d: nat, x: nat, y: nat)
    requires RoleOk(mem, role) && IsDir(role, d) && x < ENTRIES && y < ENTRIES
    ensures mem[d][x].p ==> IsTable(role, mem[d][x].frame, d, x)
    ensures mem[d][x].p ==> Lookup(mem, d, x, y) == if mem[mem[d][x].frame][y].p then Some(mem[mem[d][x].frame][y]) else None
    ensures !mem[d][x].p ==> Lookup(mem, d, x, y) == None
  {
  }

  lemma DataStore(mem: map<nat, Page>, mem': map<nat, Page>, role: map<nat, Role>)
    requires RoleOk(mem, role) && Shape(mem', role) && SameTables(mem, mem', role)
    ensures RoleOk(mem', role) && SameViews(mem, mem', role)
  {
    forall d: nat, x: nat, y: nat | IsDir(role, d) ensures Lookup(mem', d, x, y) == Lookup(mem, d, x, y) {
      if x < ENTRIES && y < ENTRIES { TableAt(mem, role, d, x, y); }
    }
  }

  /** A change between the roles Other and Frame makes no directory or table. */
  lemma SameKinds(role: map<nat, Role>, q: nat, r: Role)
    requires q in role && !role[q].Dir? && !role[q].Table? && !r.Dir? && !r.Table?
    ensures forall t: nat, d: nat, x: nat :: IsTable(role[q := r], t, d, x) <==> IsTable(role, t, d, x)
    ensures forall d: nat :: IsDir(role[q := r], d) <==> IsDir(role, d)
  {
  }

  /** A new, blank page table t at entry x of d (vm.c:45-52). */
  lemma NewTable(mem: map<nat, Page>, role: map<nat, Role>, d: nat, x: nat, t: nat)
    requires RoleOk(mem, role) && IsDir(role, d) && x < ENTRIES && !mem[d][x].p && t in role && role[t].Other?
    ensures var mem' := mem[t := Blank()][d := mem[d][x := Word(t, true, WRITE_USER)]];
            RoleOk(mem', role[t := Table(d, x)]) && SameViews(mem, mem', role)
  {
    var mem' := mem[t := Blank()][d := mem[d][x := Word(t, true, WRITE_USER)]];
    var role' := role[t := Table(d, x)];
    assert forall u: nat, e: nat, i: nat :: IsTable(role', u, e, i) <==> IsTable(role, u, e, i) || (u, e, i) == (t, d, x);
    assert forall e: nat :: IsDir(role', e) <==> IsDir(role, e);
    NewTableViews(mem, role, d, x, t);
    assert TablesOk(mem', role');
  }

  lemma NewTableViews(mem: map<nat, Page>, role: map<nat, Role>, d: nat, x: nat, t: nat)
    requires RoleOk(mem, role) && IsDir(role, d) && x < ENTRIES && !mem[d][x].p && t in role && role[t].Other?
    ensures SameViews(mem, mem[t := Blank()][d := mem[d][x := Word(t, true, WRITE_USER)]], role)
  {
    hide FramesOk;
    var mem' := mem[t := Blank()][d := mem[d][x := Word(t, true, WRITE_USER)]];
    forall e: nat, i: nat, j: nat | IsDir(role, e) ensures Lookup(mem', e, i, j) == Lookup(mem, e, i, j) {
      if i < ENTRIES && j < ENTRIES { TableAt(mem, role, e, i, j); }
    }
  }

  /** The views after one entry of a table has changed. */
  lemma EntryViews(mem: map<nat, Page>, role: map<nat, Role>, d: nat, x: nat, t: nat, y: nat, w: Word)
    requires RoleOk(mem, role) && IsTable(role, t, d, x) && y < ENTRIES
    ensures Remaps(mem, mem[t := mem[t][y := w]], role, d, x, y, if w.p then Some(w) else None)
  {
    hide FramesOk;
    var mem' := mem[t := mem[t][y := w]];
    forall e: nat, i: nat, j: nat | IsDir(role, e) && (e, i, j) != (d, x, y) ensures Lookup(mem', e, i, j) == Lookup(mem, e, i, j) {
      if i < ENTRIES && j < ENTRIES && mem[e][i].p { assert IsTable(role, mem[e][i].frame, e, i); }
    }
  }

  lemma EntryTables(mem: map<nat, Page>, role: map<nat, Role>, d: nat, x: nat, t: nat, y: nat, w: Word, role': map<nat, Role>)
    requires RoleOk(mem, role) && IsTable(role, t, d, x) && y < ENTRIES && role'.Keys == role.Keys
    requires forall u: nat, e: nat, i: nat :: IsTable(role', u, e, i) <==> IsTable(role, u, e, i)
    requires forall e: nat :: IsDir(role', e) <==> IsDir(role, e)
    ensures Shape(mem[t := mem[t][y := w]], role') && TablesOk(mem[t := mem[t][y := w]], role')
  {
    hide FramesOk;
  }

  /** An entry of table t = (d, x) starts to map (x, y) to frame f; below KERNBASE the frame becomes user memory. */
  lemma NewEntry(mem: map<nat, Page>, role: map<nat, Role>, d: nat, x: nat, t: nat, y: nat, f: nat, perm: nat)
    requires RoleOk(mem, role) && IsTable(role, t, d, x) && y < ENTRIES && !mem[t][y].p
    requires x < KERNX ==> f in role && role[f].Other?
    ensures var mem' := mem[t := mem[t][y := Word(f, true, perm)]];
            RoleOk(mem', if x < KERNX then role[f := Frame(d, x, y)] else role)
            && Remaps(mem, mem', role, d, x, y, Some(Word(f, true, perm)))
  {
    hide TablesOk, Lookup;
    var w := Word(f, true, perm);
    var mem' := mem[t := mem[t][y := w]];
    var role' := if x < KERNX then role[f := Frame(d, x, y)] else role;
    if x < KERNX { SameKinds(role, f, Frame(d, x, y)); }
    EntryViews(mem, role, d, x, t, y, w);
    EntryTables(mem, role, d, x, t, y, w, role');
    TableOf(mem, role, t, d, x);
    TableAt(mem, role, d, x, y);
    assert FramesOk(mem', role');
  }

  lemma TableOf(mem: map<nat, Page>, role: map<nat, Role>, t: nat, d: nat, x: nat)
    requires RoleOk(mem, role) && IsTable(role, t, d, x)
    ensures IsDir(role, d) && x < ENTRIES && mem[d][x].p && mem[d][x].frame == t
    ensures forall u: nat :: IsTable(role, u, d, x) ==> u == t
  {
  }

  /** A user entry is cleared and its frame handed back (vm.c:270-275). */
  lemma DropEntry(mem: map<nat, Page>, role: map<nat, Role>, d: nat, x: nat, t: nat, y: nat)
    requires RoleOk(mem, role) && IsTable(role, t, d, x) && x < KERNX && y < ENTRIES && mem[t][y].p
    ensures var f, mem' := mem[t][y].frame, mem[t := mem[t][y := ZERO]];
            f in role && role[f] == Frame(d, x, y) && RoleOk(mem', role[f := Other])
            && Remaps(mem, mem', role, d, x, y, None)
  {
    hide TablesOk, Lookup;
    var f, mem' := mem[t][y].frame, mem[t := mem[t][y := ZERO]];
    var role' := role[f := Other];
    SameKinds(role, f, Other);
    EntryViews(mem, role, d, x, t, y, ZERO);
    EntryTables(mem, role, d, x, t, y, ZERO, role');
    TableOf(mem, role, t, d, x);
    TableAt(mem, role, d, x, y);
    assert FramesOk(mem', role');
  }

  lemma NewDir(mem: map<nat, Page>, role: map<nat, Role>, d: nat)
    requires RoleOk(mem, role) && d in role && role[d].Other?
    ensures var mem' := mem[d := Blank()];
            RoleOk(mem', role[d := Dir]) && SameViews(mem, mem', role)
            && forall x: nat, y: nat :: Lookup(mem', d, x, y) == None
  {
    var mem', role' := mem[d := Blank()], role[d := Dir];
    assert forall t: nat, e: nat, x: nat :: IsTable(role', t, e, x) <==> IsTable(role, t, e, x);
    assert forall e: nat :: IsDir(role', e) <==> IsDir(role, e) || e == d;
    DataStore(mem, mem', role);
  }

  /** The pages of a directory without user frames, taken out of service together. */
  function Retired(role: map<nat, Role>, d: nat): map<nat, Role> {
    map p | p in role :: if p == d || (role[p].Table? && role[p].dir == d) then Other else role[p]
  }

  lemma RetireDir(mem: map<nat, Page>, role: map<nat, Role>, d: nat)
    requires RoleOk(mem, role) && IsDir(role, d) && forall f :: f in role && role[f].Frame? ==> role[f].dir != d
    ensures RoleOk(mem, Retired(role, d))
  {
    var role' := Retired(role, d);
    assert forall t: nat, e: nat, x: nat :: IsTable(role', t, e, x) <==> IsTable(role, t, e, x) && e != d;
    assert forall e: nat :: IsDir(role', e) <==> IsDir(role, e) && e != d;
  }

  /** Between the free list and its users. */
  lemma Flip(mem: map<nat, Page>, role: map<nat, Role>, q: nat, r: Role)
    requires RoleOk(mem, role) && q in role && (role[q].Free? || role[q].Other?) && (r.Free? || r.Other?)
    ensures RoleOk(mem, role[q := r])
  {
    var role' := role[q := r];
    SameKinds(role, q, r);
    assert forall t: nat, d: nat, x: nat :: IsTable(role', t, d, x) <==> IsTable(role, t, d, x);
    assert forall d: nat :: IsDir(role', d) <==> IsDir(role, d);
    assert TablesOk(mem, role');
  }

  // ---- the free list ----

  /** From pointer p, the links in the first words of the pages lead through list (kalloc.c:72-74). */
  ghost predicate Chain(mem: map<nat, Page>, p: nat, list: seq<nat>)
    decreases |list|
  {
    if list == [] then p == 0 else p == list[0] && p > 0 && p in mem && |mem[p]| > 0 && Chain(mem, mem[p][0].frame, list[1..])
  }

  lemma {:induction false} ChainSame(mem: map<nat, Page>, mem': map<nat, Page>, p: nat, list: seq<nat>)
    requires Chain(mem, p, list) && forall q :: q in list && q in mem ==> q in mem' && mem'[q] == mem[q]
    ensures Chain(mem', p, list)
    decreases |list|
  {
    if list != [] { ChainSame(mem, mem', mem[p][0].frame, list[1..]); }
  }

  ghost predicate Distinct(list: seq<nat>) { forall i, j :: 0 <= i < j < |list| ==> list[i] != list[j] }

  /** The list holds exactly the free pages, each once. */
  ghost predicate FreeOk(mem: map<nat, Page>, head: nat, free: seq<nat>, role: map<nat, Role>) {
    && Chain(mem, head, free) && Distinct(free)
    && (forall q :: q in free ==> q in role && role[q].Free?)
    && (forall q :: q in role && role[q].Free? ==> q in free)
  }

  lemma Popped(mem: map<nat, Page>, head: nat, free: seq<nat>, role: map<nat, Role>)
    requires FreeOk(mem, head, free, role) && free != []
    ensures head == free[0] && head in role && role[head].Free? && head in mem && |mem[head]| > 0
    ensures FreeOk(mem, mem[head][0].frame, free[1..], role[head := Other])
  {
    assert free[0] in free;
    assert forall q :: q in free ==> q == free[0] || q in free[1..];
    assert forall q :: q in free[1..] ==> q in free && q != free[0];
  }

  lemma Pushed(mem: map<nat, Page>, head: nat, free: seq<nat>, role: map<nat, Role>, p: nat, page: Page)
    requires FreeOk(mem, head, free, role) && p in role && p > 0 && role[p].Other? && |page| > 0 && page[0].frame == head
    ensures FreeOk(mem[p := page], p, [p] + free, role[p := Free])
  {
    assert p !in free;
    ChainSame(mem, mem[p := page], head, free);
    assert ([p] + free)[1..] == free;
  }

  /** Stores outside the free pages. */
  lemma FreeKept(mem: map<nat, Page>, mem': map<nat, Page>, head: nat, free: seq<nat>, role: map<nat, Role>, role': map<nat, Role>)
    requires FreeOk(mem, head, free, role) && role'.Keys == role.Keys
    requires forall q :: q in role ==> (role'[q].Free? <==> role[q].Free?)
    requires forall q :: q in role && role[q].Free? && q in mem ==> q in mem' && mem'[q] == mem[q]
    ensures FreeOk(mem', head, free, role')
  {
    ChainSame(mem, mem', head, free);
  }
}
