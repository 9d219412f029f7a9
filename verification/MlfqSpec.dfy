/** The multi-level feedback scheduler (proc.c, trap.c) as a state machine on one CPU.

    A queue holds process-table slots.  Exit and waitx never take a slot out of its queue, and allocproc
    always appends to queue 0, so after a slot is reused it may sit in old queues as well. */
module MlfqSpec {
  import opened Common
  const NPROC: nat := 64
  const NQ: nat := 5
  const TIME_AGE: int := 50
  const TICKS_CHAN: int := 0   // the channel &ticks

  datatype ProcState = UNUSED | EMBRYO | SLEEPING | RUNNABLE | RUNNING | ZOMBIE

  /** struct proc: rr is rrtime[], tk is stat.ticks[], runtime is stat.runtime.  `exiting` is no field of
      the struct but a program point: the process is inside exit(), from which it does not return. */
  datatype Proc = Proc(
    state: ProcState, pid: nat, chan: int, killed: bool, exiting: bool,
    ctime: int, rtime: int, etime: int, iotime: int, aging: int,
    qno: nat, rr: seq<int>, tk: seq<int>, runtime: int, numRun: int)

  /** q[k] is queue k up to cnt[k]; current is the CPU's proc. */
  datatype State = State(procs: seq<Proc>, q: seq<seq<nat>>, ticks: int, nextpid: nat, current: Option<nat>)

  ghost predicate Shape(s: State) {
    && |s.procs| == NPROC && |s.q| == NQ
    && (forall i :: 0 <= i < NPROC ==> ProcShape(s.procs[i]))
    && (forall k, i :: 0 <= k < NQ && 0 <= i < |s.q[k]| ==> s.q[k][i] < NPROC)
    && (s.current.Some? ==> s.current.value < NPROC)
  }

  ghost predicate ProcShape(p: Proc) {
    |p.rr| == NQ && |p.tk| == NQ && p.qno < NQ
  }

  // ---- Queue operations ----

  /** The first (or, when last is set, the last) place of p in the queue; 0 if there is none. */
  function IndexOf(q: seq<nat>, p: nat, last: bool): (i: nat)
    ensures p in q ==> i < |q| && q[i] == p
    ensures p in q && !last ==> p !in q[..i]
    ensures p in q && last ==> p !in q[i + 1..]
  {
    if p !in q then 0
    else if last then
      if q[|q| - 1] == p then |q| - 1 else IndexOf(q[..|q| - 1], p, last)
    else
      if q[0] == p then 0 else 1 + IndexOf(q[1..], p, last)
  }

  function RemoveAt(q: seq<nat>, i: nat): (r: seq<nat>) {
    if i < |q| then q[..i] + q[i + 1..] else q
  }

  /** Append p unless the queue already holds it. */
  function AddOnce(q: seq<nat>, p: nat): (r: seq<nat>) {
    if p in q then q else q + [p]
  }

  /** Take p's place in queue `from` away, and make sure it has one in queue `to`. */
  function Moved(q: seq<seq<nat>>, p: nat, from: nat, to: nat, last: bool): (r: seq<seq<nat>>)
    requires |q| == NQ && from < NQ && to < NQ
    ensures |r| == NQ
  {
    q[from := RemoveAt(q[from], IndexOf(q[from], p, last))][to := AddOnce(q[to], p)]
  }

  ghost predicate NoDup(q: seq<nat>) {
    forall i, j :: 0 <= i < j < |q| ==> q[i] != q[j]
  }

  // ---- Aging (proc.c:141-282) ----

  /** How long p has waited since it was last promoted or created, not counting its running time. */
  function Waited(p: Proc, ticks: int): (t: int) {
    ticks - p.ctime - p.rtime - p.aging
  }

  function Promoted(p: Proc): (r: Proc)
    requires ProcShape(p) && p.qno > 0
  {
    p.(qno := p.qno - 1, rr := p.rr[p.qno - 1 := 0][p.qno := 0])
  }

  function AgeOne(s: State, i: nat): (t: State)
    requires Shape(s) && i < NPROC
  {
    var p := s.procs[i];
    if p.state != RUNNABLE || Waited(p, s.ticks) <= TIME_AGE then s
    else
      var p' := (if p.qno > 0 then Promoted(p) else p).(aging := s.ticks - (p.ctime + p.rtime));
      var q' := if p.qno > 0 then Moved(s.q, i, p.qno, p.qno - 1, false) else s.q;
      s.(procs := s.procs[i := p'], q := q')
  }

  lemma MovedShape(s: State, i: nat, from: nat, to: nat, last: bool)
    requires Shape(s) && i < NPROC && from < NQ && to < NQ && from != to
    ensures |Moved(s.q, i, from, to, last)| == NQ
    ensures forall k, j :: 0 <= k < NQ && 0 <= j < |Moved(s.q, i, from, to, last)[k]| ==> Moved(s.q, i, from, to, last)[k][j] < NPROC
  {
  }

  lemma AgeOneShape(s: State, i: nat)
    requires Shape(s) && i < NPROC
    ensures Shape(AgeOne(s, i))
  {
    if s.procs[i].qno > 0 { MovedShape(s, i, s.procs[i].qno, s.procs[i].qno - 1, false); }
  }

  /** aging's loop over the first n slots of the table. */
  function Aged(s: State, n: nat): (t: State)
    requires Shape(s) && n <= NPROC
    ensures Shape(t) && t.ticks == s.ticks && t.current == s.current
  {
    if n == 0 then s
    else
      AgeOneShape(Aged(s, n - 1), n - 1);
      AgeOne(Aged(s, n - 1), n - 1)
  }

  // ---- The timer interrupt (trap.c:44-66) ----

  /** wakeup1 (proc.c:1068-1111) */
  function Awakened(procs: seq<Proc>, chan: int): (r: seq<Proc>)
    ensures |r| == |procs|
    ensures forall i :: 0 <= i < |procs| ==>
      r[i] == if procs[i].state == SLEEPING && procs[i].chan == chan then procs[i].(state := RUNNABLE) else procs[i]
  {
    seq(|procs|, i requires 0 <= i < |procs| =>
      if procs[i].state == SLEEPING && procs[i].chan == chan then procs[i].(state := RUNNABLE) else procs[i])
  }

  /** Charge the tick to the process that the interrupt found on the CPU. */
  function Charged(p: Proc): (r: Proc)
    requires ProcShape(p)
  {
    if p.state == RUNNING then
      p.(rtime := p.rtime + 1, runtime := p.runtime + 1,
         rr := p.rr[p.qno := p.rr[p.qno] + 1], tk := p.tk[p.qno := p.tk[p.qno] + 1])
    else if p.state == SLEEPING then p.(iotime := p.iotime + 1)
    else p
  }

  function Ticked(s: State): (t: State)
    requires Shape(s)
    ensures Shape(t) && t.current == s.current
  {
    var woken := s.(ticks := s.ticks + 1, procs := Awakened(s.procs, TICKS_CHAN));
    var aged := Aged(woken, NPROC);
    if s.current.Some? then
      aged.(procs := aged.procs[s.current.value := Charged(aged.procs[s.current.value])])
    else aged
  }

  // ---- The end of a time slice (trap.c:131-336) ----

  /** The slice of level k is 2^k ticks. */
  function Slice(k: nat): (n: nat)
    requires k < NQ
  {
    if k == 0 then 1 else if k == 1 then 2 else if k == 2 then 4 else if k == 3 then 8 else 16
  }

  predicate AnyRunnable(s: State, k: nat)
    requires Shape(s) && k < NQ
  {
    exists j :: 0 <= j < |s.q[k]| && s.procs[s.q[k][j]].state == RUNNABLE
  }

  function Yielded(s: State, i: nat): (t: State)
    requires |s.procs| == NPROC && i < NPROC
  {
    s.(procs := s.procs[i := s.procs[i].(state := RUNNABLE)], current := None)
  }

  /** What the MLFQ block does to the running process i. */
  function Sliced(s: State, i: nat): (t: State)
    requires Shape(s) && i < NPROC
  {
    var p, k := s.procs[i], s.procs[i].qno;
    if p.rr[k] == 0 then s
    else if p.rr[k] % Slice(k) == 0 then
      if k < 4 then
        Yielded(s.(procs := s.procs[i := p.(rr := p.rr[k := 0][k + 1 := 0], qno := k + 1)], q := Moved(s.q, i, k, k + 1, k == 0)), i)
      else
        Yielded(s.(procs := s.procs[i := p.(rr := p.rr[4 := 0])],
                   q := s.q[4 := RemoveAt(s.q[4] + [i], IndexOf(s.q[4], i, false))]), i)
    else if exists j :: 0 <= j < k && AnyRunnable(s, j) then Yielded(s, i)
    else s
  }

  // ---- Process life cycle ----

  /** allocproc's slot (proc.c:295-297): the first unused one at or after i. */
  function UnusedFrom(procs: seq<Proc>, i: nat): (r: Option<nat>)
    ensures r.Some? ==> i <= r.value < |procs| && procs[r.value].state == UNUSED
    ensures r.Some? ==> forall j :: i <= j < r.value ==> procs[j].state != UNUSED
    ensures r.None? ==> forall j :: i <= j < |procs| ==> procs[j].state != UNUSED
    decreases |procs| - i
  {
    if i >= |procs| then None
    else if procs[i].state == UNUSED then Some(i)
    else UnusedFrom(procs, i + 1)
  }

  const ZEROS: seq<int> := [0, 0, 0, 0, 0]

  /** allocproc (proc.c:289-360); kstack says whether kalloc found a page for the kernel stack. */
  function Allocated(s: State, i: nat, kstack: bool): (t: State)
    requires |s.procs| == NPROC && |s.q| == NQ && i < NPROC
  {
    var p := s.procs[i].(state := if kstack then EMBRYO else UNUSED, pid := s.nextpid, exiting := false, qno := 0, runtime := 0, numRun := 0, tk := ZEROS, rr := ZEROS);
    var p' := if kstack then p.(ctime := s.ticks, rtime := 0, etime := 0, iotime := 0, aging := 0) else p;
    s.(procs := s.procs[i := p'], q := s.q[0 := s.q[0] + [i]], nextpid := s.nextpid + 1)
  }

  /** The scheduler's scan of queue k from place j (proc.c:810-813 and its four copies). */
  function FirstRunnable(s: State, k: nat, j: nat): (r: Option<nat>)
    requires Shape(s) && k < NQ && j <= |s.q[k]|
    ensures r.Some? ==> r.value < NPROC && s.procs[r.value].state == RUNNABLE
    ensures r.Some? ==> exists m :: j <= m < |s.q[k]| && s.q[k][m] == r.value && forall l :: j <= l < m ==> s.procs[s.q[k][l]].state != RUNNABLE
    ensures r.None? ==> forall l :: j <= l < |s.q[k]| ==> s.procs[s.q[k][l]].state != RUNNABLE
    decreases |s.q[k]| - j
  {
    if j == |s.q[k]| then None
    else if s.procs[s.q[k][j]].state == RUNNABLE then Some(s.q[k][j])
    else FirstRunnable(s, k, j + 1)
  }

  /** One pass of the scheduler from queue k on. */
  function Picked(s: State, k: nat): (r: Option<nat>)
    requires Shape(s) && k <= NQ
    ensures r.Some? ==> r.value < NPROC && s.procs[r.value].state == RUNNABLE
    decreases NQ - k
  {
    if k == NQ then None
    else if FirstRunnable(s, k, 0).Some? then FirstRunnable(s, k, 0)
    else Picked(s, k + 1)
  }

  function Dispatched(s: State): (t: State)
    requires Shape(s)
  {
    var r := Picked(s, 0);
    if r.None? then s
    else s.(procs := s.procs[r.value := s.procs[r.value].(state := RUNNING, numRun := s.procs[r.value].numRun + 1)], current := r)
  }
}
