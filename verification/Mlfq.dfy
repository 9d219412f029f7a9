/** The scheduler's code (proc.c, trap.c) on its arrays: each routine computes the next state of MlfqSpec. */
module Mlfq {
  import opened Common
  import opened MlfqSpec
  import opened MlfqProofs
  import opened MlfqTheorems

  const QCAP: nat := 1000   // struct proc *q0[1000]

  /** for(i = ind; i < n-1; i++) a[i] = a[i+1]; */
  method ShiftDown(a: array<nat>, ind: nat, n: nat)
    requires ind < n <= a.Length
    modifies a
    ensures a[..n - 1] == RemoveAt(old(a[..n]), ind)
  {
    var i := ind;
    while i < n - 1
      invariant ind <= i <= n - 1
      invariant forall j :: ind <= j < i ==> a[j] == old(a[j + 1])
      invariant forall j :: 0 <= j < a.Length && (j < ind || j >= i) ==> a[j] == old(a[j])
    {
      a[i] := a[i + 1];
      i := i + 1;
    }
    assert forall j :: 0 <= j < n - 1 ==> a[j] == RemoveAt(old(a[..n]), ind)[j];
  }

  class Kernel {
    var procs: seq<Proc>            // ptable.proc
    const q: seq<array<nat>>        // q0 .. q4
    var cnt: seq<nat>
    var ticks: int
    var nextpid: nat
    var current: Option<nat>

    ghost predicate ArraysOk()
      reads this
    {
      && |q| == NQ && |cnt| == NQ
      && (forall k :: 0 <= k < NQ ==> q[k].Length == QCAP && cnt[k] <= QCAP)
      && (forall k, l :: 0 <= k < l < NQ ==> q[k] != q[l])
    }

    ghost function Queues(): (r: seq<seq<nat>>)
      requires ArraysOk()
      reads this, q
      ensures |r| == NQ && forall k :: 0 <= k < NQ ==> r[k] == q[k][..cnt[k]]
    {
      [q[0][..cnt[0]], q[1][..cnt[1]], q[2][..cnt[2]], q[3][..cnt[3]], q[4][..cnt[4]]]
    }

    ghost function Abs(): (s: State)
      requires ArraysOk()
      reads this, q
    {
      State(procs, Queues(), ticks, nextpid, current)
    }

    ghost predicate Valid()
      reads this, q
    {
      ArraysOk() && Inv(Abs())
    }

    /** The zeroed kernel at boot. */
    constructor Boot()
      ensures Valid() && Abs() == Initial() && fresh(q)
    {
      hide Inv, Repeat;
      var a0 := new nat[QCAP](_ => 0);
      var a1 := new nat[QCAP](_ => 0);
      var a2 := new nat[QCAP](_ => 0);
      var a3 := new nat[QCAP](_ => 0);
      var a4 := new nat[QCAP](_ => 0);
      q := [a0, a1, a2, a3, a4];
      cnt := [0, 0, 0, 0, 0];
      procs, ticks, nextpid, current := Repeat(EMPTY, NPROC), 0, 1, None;
      new;
      assert Queues() == [[], [], [], [], []];
      assert Abs() == Initial();
    }

    /** Take the entry at place ind out of queue k. */
    method Remove(k: nat, ind: nat)
      requires ArraysOk() && k < NQ && ind < cnt[k]
      modifies this`cnt, q[k]
      ensures ArraysOk() && Queues() == old(Queues())[k := RemoveAt(old(Queues())[k], ind)]
      ensures cnt == old(cnt)[k := old(cnt)[k] - 1]
    {
      ShiftDown(q[k], ind, cnt[k]);
      cnt := cnt[k := cnt[k] - 1];
    }

    /** Append slot p to queue k unless a place there already has p's pid. */
    method Add(k: nat, p: nat)
      requires ArraysOk() && k < NQ && cnt[k] < QCAP && p < NPROC && |procs| == NPROC
      requires forall i :: 0 <= i < cnt[k] ==> q[k][i] < NPROC
      requires forall i :: 0 <= i < NPROC && i != p ==> procs[i].pid != procs[p].pid
      modifies this`cnt, q[k]
      ensures ArraysOk() && Queues() == old(Queues())[k := AddOnce(old(Queues())[k], p)]
    {
      var f, i := false, 0;
      while i < cnt[k]
        invariant 0 <= i <= cnt[k] && !f
        invariant forall j :: 0 <= j < i ==> q[k][j] != p
      {
        if procs[q[k][i]].pid == procs[p].pid {
          assert q[k][..cnt[k]][i] == p;
          f := true;
          break;
        }
        i := i + 1;
      }
      if !f {
        q[k][cnt[k]] := p;
        cnt := cnt[k := cnt[k] + 1];
        assert q[k][..cnt[k]] == old(q[k][..cnt[k]]) + [p];
      }
    }

    /** The place of slot p in queue k: the first one, or 0 (proc.c:183-188, trap.c:170-176). */
    method FindFirst(k: nat, p: nat) returns (ind: nat)
      requires ArraysOk() && k < NQ
      ensures ind == IndexOf(Queues()[k], p, false)
    {
      ind := 0;
      var i := 0;
      ghost var queue := q[k][..cnt[k]];
      while i < cnt[k]
        invariant 0 <= i <= cnt[k] && ind == 0
        invariant p !in queue[..i]
      {
        if q[k][i] == p {
          FirstIs(queue, p, i);
          return i;
        }
        assert queue[..i + 1] == queue[..i] + [queue[i]];
        i := i + 1;
      }
      assert queue[..cnt[k]] == queue;
    }

    /** The last place of slot p in queue k (trap.c:137-142). */
    method FindLast(k: nat, p: nat) returns (ind: int)
      requires ArraysOk() && k < NQ
      ensures p in Queues()[k] ==> ind == IndexOf(Queues()[k], p, true)
      ensures p !in Queues()[k] ==> ind == -1
    {
      ind := -1;
      var i := 0;
      ghost var queue := q[k][..cnt[k]];
      while i < cnt[k]
        invariant 0 <= i <= cnt[k]
        invariant ind == -1 ==> p !in queue[..i]
        invariant ind != -1 ==> 0 <= ind < i && queue[ind] == p && p !in queue[ind + 1..i]
      {
        if q[k][i] == p { ind := i; }
        assert queue[..i + 1] == queue[..i] + [queue[i]];
        assert 0 <= ind < i ==> queue[ind + 1..i + 1] == queue[ind + 1..i] + [queue[i]];
        i := i + 1;
      }
      assert queue[..cnt[k]] == queue;
      if ind != -1 { LastIs(queue, p, ind); }
    }

    /** One iteration of aging (proc.c:145-278). */
    method AgeSlot(i: nat)
      requires Valid() && i < NPROC && Entries(Queues()) <= QCAP
      modifies this`procs, this`cnt, q
      ensures Valid() && Shape(old(Abs())) && Abs() == AgeOne(old(Abs()), i) && Entries(Queues()) <= QCAP
    {
      hide Inv, IndexOf, RemoveAt, AddOnce, Entries, Moved;
      ghost var s := Abs();
      AgeOneKeeps(s, i);
      AgeOneEntries(s, i);
      var p := procs[i];
      if p.state != RUNNABLE { return; }
      var tm := ticks - p.ctime - p.rtime - p.aging;
      if tm > TIME_AGE {
        var no := p.qno;
        if no > 0 {
          Movable(s, i, no, no - 1);
          EntriesMoved(s.q, i, no, no - 1, false);
          MoveTo(no, no - 1, i, false);
          procs := procs[i := procs[i].(qno := no - 1, rr := procs[i].rr[no - 1 := 0][no := 0])];
        }
        procs := procs[i := procs[i].(aging := ticks - (p.ctime + p.rtime))];
        assert Abs() == AgeOne(s, i);
      }
    }

    /** Shift slot i out of queue `from` and append it to queue `to` if it is not there. */
    method MoveTo(from: nat, to: nat, i: nat, last: bool)
      requires ArraysOk() && from < NQ && to < NQ && from != to && cnt[to] < QCAP && i < NPROC && |procs| == NPROC
      requires i in Queues()[from] && forall m :: 0 <= m < |Queues()[to]| ==> Queues()[to][m] < NPROC
      requires forall j :: 0 <= j < NPROC && j != i ==> procs[j].pid != procs[i].pid
      modifies this`cnt, q
      ensures ArraysOk() && Queues() == Moved(old(Queues()), i, from, to, last)
    {
      hide RemoveAt, AddOnce;
      ghost var places := Queues();
      if last {
        var ind := FindLast(from, i);
        Remove(from, ind);
      } else {
        var ind := FindFirst(from, i);
        Remove(from, ind);
      }
      assert Queues() == places[from := RemoveAt(places[from], IndexOf(places[from], i, last))];
      Add(to, i);
    }

    /** aging (proc.c:141-282).  The queues together take no more places than one array has. */
    method Aging()
      requires Valid() && Entries(Queues()) <= QCAP
      modifies this`procs, this`cnt, q
      ensures Valid() && Shape(old(Abs())) && Abs() == Aged(old(Abs()), NPROC)
    {
      hide Inv, AgeOne, Aged, Entries, Shape;
      ghost var s := Abs();
      InvShape(s);
      AgedNone(s);
      var i := 0;
      while i < NPROC
        invariant 0 <= i <= NPROC && Valid() && Abs() == Aged(s, i) && Entries(Queues()) <= QCAP
      {
        AgeSlot(i);
        AgedNext(s, i);
        i := i + 1;
      }
    }

    /** wakeup1 (proc.c:1068-1111) */
    method Wake(chan: int)
      modifies this`procs
      ensures procs == Awakened(old(procs), chan)
    {
      var i := 0;
      while i < |procs|
        invariant 0 <= i <= |procs| == |old(procs)|
        invariant forall j :: 0 <= j < |procs| ==> procs[j] == if j < i then Awakened(old(procs), chan)[j] else old(procs)[j]
      {
        if procs[i].state == SLEEPING && procs[i].chan == chan {
          procs := procs[i := procs[i].(state := RUNNABLE)];
        }
        i := i + 1;
      }
    }

    /** Does queue k hold a RUNNABLE process?  (trap.c:290-313) */
    method HasRunnable(k: nat) returns (flag: bool)
      requires ArraysOk() && Shape(Abs()) && k < NQ
      ensures flag <==> AnyRunnable(Abs(), k)
    {
      ghost var s := Abs();
      var j := 0;
      while j < cnt[k]
        invariant 0 <= j <= cnt[k]
        invariant forall m :: 0 <= m < j ==> s.procs[s.q[k][m]].state != RUNNABLE
      {
        assert s.q[k][j] == q[k][j];
        if procs[q[k][j]].state == RUNNABLE { return true; }
        j := j + 1;
      }
      return false;
    }

    /** The tick itself (trap.c:45-66). */
    method Tick()
      requires Valid() && Entries(Queues()) <= QCAP
      modifies this`ticks, this`procs, this`cnt, q
      ensures ArraysOk() && Shape(old(Abs())) && Abs() == Ticked(old(Abs()))
    {
      hide Inv, Aged, Awakened, Charged;
      ghost var s := Abs();
      InvShape(s);
      AwakenedKeeps(s, TICKS_CHAN, s.ticks + 1);
      if current.Some? { RunningOk(s); }
      ticks := ticks + 1;
      Wake(TICKS_CHAN);
      assert Abs() == s.(procs := Awakened(s.procs, TICKS_CHAN), ticks := s.ticks + 1);
      Aging();
      InvShape(Abs());
      if current.Some? {
        procs := procs[current.value := Charged(procs[current.value])];
      }
    }

    /** yield (proc.c:999-1007), up to the switch to the scheduler. */
    method Yield(i: nat)
      requires |procs| == NPROC && i < NPROC
      modifies this`procs, this`current
      ensures procs == old(procs)[i := old(procs)[i].(state := RUNNABLE)] && current == None
    {
      procs := procs[i := procs[i].(state := RUNNABLE)];
      current := None;
    }

    /** The MLFQ block of trap (trap.c:131-334) for the running process i. */
    method EndSlice(i: nat)
      requires ArraysOk() && InvBut(Abs(), i) && current == Some(i)
      modifies this`procs, this`current, this`cnt, q
      ensures Valid() && Shape(old(Abs())) && Abs() == Sliced(old(Abs()), i)
    {
      hide Inv, InvBut, Moved, RemoveAt, IndexOf, AnyRunnable;
      ghost var s := Abs();
      SlicedKeeps(s, i);
      MovableNow(s, i);
      var p, no := procs[i], procs[i].qno;
      if p.rr[no] == 0 { return; }
      if p.rr[no] % Slice(no) == 0 {
        Demote(i);
      } else {
        var higher := HigherRunnable(no);
        if higher { Yield(i); }
      }
      assert Abs() == Sliced(s, i);
    }

    /** The slice of process i is used up: it goes one level down, or to the end of queue 4 (trap.c:133-286). */
    method Demote(i: nat)
      requires ArraysOk() && InvBut(Abs(), i) && current == Some(i) && Shape(Abs())
      requires procs[i].rr[procs[i].qno] != 0 && procs[i].rr[procs[i].qno] % Slice(procs[i].qno) == 0
      modifies this`procs, this`current, this`cnt, q
      ensures ArraysOk() && Abs() == Sliced(old(Abs()), i)
    {
      hide Inv, InvBut, Moved, RemoveAt, IndexOf, AnyRunnable;
      MovableNow(Abs(), i);
      var p, no := procs[i], procs[i].qno;
      if no < 4 {
        MoveTo(no, no + 1, i, no == 0);
        procs := procs[i := p.(rr := p.rr[no := 0][no + 1 := 0], qno := no + 1)];
      } else {
        procs := procs[i := p.(rr := p.rr[4 := 0])];
        Rotate(i);
      }
      Yield(i);
    }

    /** Is a process of a better level RUNNABLE?  (trap.c:288-331) */
    method HigherRunnable(no: nat) returns (higher: bool)
      requires ArraysOk() && Shape(Abs()) && no < NQ
      ensures higher <==> exists j :: 0 <= j < no && AnyRunnable(Abs(), j)
    {
      hide AnyRunnable;
      var j := 0;
      while j < no
        invariant 0 <= j <= no
        invariant forall m :: 0 <= m < j ==> !AnyRunnable(Abs(), m)
      {
        var flag := HasRunnable(j);
        if flag { return true; }
        j := j + 1;
      }
      return false;
    }

    /** Slot i goes to the end of queue 4 (trap.c:273-285). */
    method Rotate(i: nat)
      requires ArraysOk() && i in Queues()[4] && cnt[4] < QCAP
      modifies q[4]
      ensures ArraysOk() && Queues() == old(Queues())[4 := RemoveAt(old(Queues())[4] + [i], IndexOf(old(Queues())[4], i, false))]
    {
      hide RemoveAt, IndexOf;
      var ind := FindFirst(4, i);
      q[4][cnt[4]] := i;
      assert q[4][..cnt[4] + 1] == old(q[4][..cnt[4]]) + [i];
      ShiftDown(q[4], ind, cnt[4] + 1);
    }

    /** The whole timer trap (trap.c:44-334); user: the interrupt came from user code. */
    method Timer(user: bool)
      requires Valid() && Entries(Queues()) <= QCAP && Shape(Abs()) && Enabled(Abs(), MlfqProofs.Timer(user))
      modifies this`ticks, this`procs, this`current, this`cnt, q
      ensures Valid() && Shape(old(Abs())) && Abs() == TimerTrap(old(Abs()), user)
    {
      hide Inv, InvBut, Ticked, Sliced, ProcOk;
      ghost var s := Abs();
      TimerKeeps(s, user);
      TickedKeeps(s);
      Tick();
      if current.Some? {
        var i := current.value;
        ButRunning(Abs(), i);
        if procs[i].killed && user {
          procs := procs[i := procs[i].(exiting := true)];
        } else if procs[i].state == RUNNING {
          EndSlice(i);
        }
      }
    }

    /** One pass of the scheduler, up to the switch (proc.c:806-965). */
    method SchedulerPass()
      requires Valid() && current.None?
      modifies this`procs, this`current
      ensures Valid() && Shape(old(Abs())) && Abs() == Dispatched(old(Abs()))
    {
      hide Inv, FirstRunnable;
      ghost var s := Abs();
      InvShape(s);
      DoKeeps(s, Dispatch);
      var k := 0;
      while k < NQ
        invariant 0 <= k <= NQ && Abs() == s && Picked(s, 0) == Picked(s, k)
      {
        var r := ScanQueue(k);
        if r.Some? {
          var p := procs[r.value];
          current := r;
          procs := procs[r.value := p.(numRun := p.numRun + 1, state := RUNNING)];
          assert Abs() == Dispatched(s);
          return;
        }
        k := k + 1;
      }
      assert Abs() == Dispatched(s);
    }

    method ScanQueue(k: nat) returns (r: Option<nat>)
      requires ArraysOk() && Shape(Abs()) && k < NQ
      ensures r == FirstRunnable(Abs(), k, 0)
    {
      ghost var s := Abs();
      var i := 0;
      while i < cnt[k]
        invariant 0 <= i <= cnt[k] && FirstRunnable(s, k, 0) == FirstRunnable(s, k, i)
      {
        assert s.q[k][i] == q[k][i];
        if procs[q[k][i]].state == RUNNABLE { return Some(q[k][i]); }
        i := i + 1;
      }
      return None;
    }

    /** fork (proc.c:430-487): allocproc, then RUNNABLE; kstack and copied say whether memory was found. */
    method Fork(kstack: bool, copied: bool) returns (r: Option<nat>)
      requires Valid() && Shape(Abs()) && Enabled(Abs(), MlfqProofs.Fork(kstack, copied)) && cnt[0] < QCAP
      modifies this`procs, this`cnt, this`nextpid, q[0]
      ensures Valid() && Shape(old(Abs())) && Abs() == Do(old(Abs()), MlfqProofs.Fork(kstack, copied))
      ensures r.Some? <==> UnusedFrom(old(procs), 0).Some? && kstack && copied
      ensures r.Some? ==> r.value == old(nextpid)
      ensures r.Some? ==> exists i :: 0 <= i < NPROC && old(procs)[i].state == UNUSED && procs[i].state == RUNNABLE && procs[i].pid == r.value
      ensures r.None? ==> forall i :: 0 <= i < NPROC ==> procs[i].state == old(procs)[i].state
    {
      hide Inv;
      ghost var s := Abs();
      ForkKeeps(s, kstack, copied);
      var i := 0;
      while i < NPROC && procs[i].state != UNUSED
        invariant 0 <= i <= NPROC && UnusedFrom(procs, 0) == UnusedFrom(procs, i)
      {
        i := i + 1;
      }
      if i == NPROC { return None; }
      r := AllocProc(i, kstack);
      if r.Some? {
        procs := procs[i := procs[i].(state := if copied then RUNNABLE else UNUSED)];
        if !copied { r := None; }
      }
      assert Abs() == Do(s, MlfqProofs.Fork(kstack, copied));
    }

    /** allocproc from `found:` on (proc.c:312-359). */
    method AllocProc(i: nat, kstack: bool) returns (r: Option<nat>)
      requires ArraysOk() && |procs| == NPROC && i < NPROC && cnt[0] < QCAP
      modifies this`procs, this`cnt, this`nextpid, q[0]
      ensures ArraysOk() && Abs() == Allocated(old(Abs()), i, kstack)
      ensures r == if kstack then Some(old(nextpid)) else None
    {
      procs := procs[i := procs[i].(state := EMBRYO, pid := nextpid, exiting := false, qno := 0, numRun := 0, runtime := 0, tk := ZEROS, rr := ZEROS)];
      nextpid := nextpid + 1;
      q[0][cnt[0]] := i;
      cnt := cnt[0 := cnt[0] + 1];
      assert q[0][..cnt[0]] == old(q[0][..cnt[0]]) + [i];
      assert Queues() == old(Queues())[0 := old(Queues())[0] + [i]];
      if !kstack {
        procs := procs[i := procs[i].(state := UNUSED)];
        return None;
      }
      procs := procs[i := procs[i].(ctime := ticks, rtime := 0, etime := 0, iotime := 0, aging := 0)];
      return Some(procs[i].pid);
    }

    /** waitx's reaping of the zombie in slot i (proc.c:613-628): the times it reports, and the freed slot. */
    method Waitx(i: nat) returns (wtime: int, rtime: int)
      requires Valid() && i < NPROC && procs[i].state == ZOMBIE
      modifies this`procs
      ensures Valid() && Shape(old(Abs())) && Abs() == Do(old(Abs()), Reap(i))
      ensures rtime == old(procs)[i].rtime >= 0 && wtime + rtime == old(procs)[i].etime - old(procs)[i].ctime && wtime >= 0
    {
      ghost var s := Abs();
      InvShape(s);
      assert ProcOk(procs[i], ticks, false);
      hide Inv;
      ReapKeeps(s, i);
      wtime := procs[i].etime - procs[i].ctime - procs[i].rtime - procs[i].iotime;
      rtime := procs[i].rtime;
      procs := procs[i := procs[i].(state := UNUSED, pid := 0, killed := false)];
      assert Abs() == Do(s, Reap(i));
    }
  }

  lemma MovableNow(s: State, i: nat)
    requires InvBut(s, i) && s.current == Some(i)
    ensures Shape(s) && s.procs[i].state == RUNNING && i in s.q[s.procs[i].qno]
    ensures forall k :: 1 <= k < NQ ==> |s.q[k]| <= NPROC
    ensures forall k, m :: 0 <= k < NQ && 0 <= m < |s.q[k]| ==> s.q[k][m] < NPROC
    ensures forall j :: 0 <= j < NPROC && j != i ==> s.procs[j].pid != s.procs[i].pid
  {
    ButShape(s, i);
    forall k | 1 <= k < NQ ensures |s.q[k]| <= NPROC { NoDupBounded(s.q[k], NPROC); }
  }

  lemma AgedNone(s: State)
    requires Shape(s)
    ensures Aged(s, 0) == s
  {
  }

  lemma AgedNext(s: State, i: nat)
    requires Shape(s) && i < NPROC
    ensures Aged(s, i + 1) == AgeOne(Aged(s, i), i)
  {
    hide AgeOne;
  }

  /** What the invariant says about taking slot i out of queue `from` and adding it to queue `to`. */
  lemma Movable(s: State, i: nat, from: nat, to: nat)
    requires Inv(s) && i < NPROC && s.procs[i].state != UNUSED && s.procs[i].qno == from && to < NQ
    ensures |s.q| == NQ && from < NQ && i in s.q[from] && IndexOf(s.q[from], i, false) < |s.q[from]|
    ensures to > 0 ==> |s.q[to]| <= NPROC
    ensures forall m :: 0 <= m < |s.q[to]| ==> s.q[to][m] < NPROC
    ensures forall j :: 0 <= j < NPROC && j != i ==> s.procs[j].pid != s.procs[i].pid
  {
    if to > 0 { NoDupBounded(s.q[to], NPROC); }
  }

  lemma FirstIs(queue: seq<nat>, p: nat, i: nat)
    requires i < |queue| && queue[i] == p && p !in queue[..i]
    ensures IndexOf(queue, p, false) == i
  {
    var j := IndexOf(queue, p, false);
    assert forall m :: 0 <= m < i ==> queue[..i][m] == queue[m];
    assert forall m :: 0 <= m < j ==> queue[..j][m] == queue[m];
  }

  lemma LastIs(queue: seq<nat>, p: nat, i: nat)
    requires i < |queue| && queue[i] == p && p !in queue[i + 1..]
    ensures IndexOf(queue, p, true) == i
  {
    var j := IndexOf(queue, p, true);
    assert forall m :: i < m < |queue| ==> queue[m] in queue[i + 1..];
    assert forall m :: j < m < |queue| ==> queue[m] in queue[j + 1..];
  }
}
