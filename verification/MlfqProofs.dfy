/** What every run of the scheduler keeps. */
module MlfqProofs {
  import opened Common
  import opened MlfqSpec

  // ---- Events ----

  datatype Event =
    | Timer(user: bool)                     // the timer interrupt; user: it interrupted user code
    | Fork(kstack: bool, copied: bool)      // fork or userinit; kstack, copied: whether kalloc and copyuvm succeed
    | EnterExit                             // the running process calls exit(), or finds that it was killed
    | Exit                                  // the end of exit(), which may have slept in between
    | Reap(slot: nat)                       // waitx finds this zombie
    | Sleep(chan: int)
    | Wakeup(chan: int)
    | Kill(slot: nat)                       // the slot that kill's scan finds
    | Dispatch                              // one pass of the scheduler

  ghost predicate Enabled(s: State, e: Event)
    requires Shape(s)
  {
    match e
    case Fork(_, _) => s.current.Some? || s.nextpid == 1   // fork by the running process; userinit at boot
    case Timer(user) => user ==> s.current.Some? && !s.procs[s.current.value].exiting   // exit() runs in the kernel
    case EnterExit => s.current.Some?
    case Exit => s.current.Some? && s.procs[s.current.value].exiting
    case Sleep(_) => s.current.Some?
    case Reap(i) => i < NPROC && s.procs[i].state == ZOMBIE
    case Kill(i) => i < NPROC
    case Dispatch => s.current.None?
    case _ => true
  }

  function Entered(s: State, i: nat): (t: State)
    requires |s.procs| == NPROC && i < NPROC
  {
    s.(procs := s.procs[i := s.procs[i].(exiting := true)])
  }

  /** The end of exit (proc.c:529-533). */
  function Exited(s: State, i: nat): (t: State)
    requires |s.procs| == NPROC && i < NPROC
  {
    s.(procs := s.procs[i := s.procs[i].(state := ZOMBIE, etime := s.ticks)], current := None)
  }

  /** The whole timer trap (trap.c:44-334) for the MLFQ configuration.  A killed process that was in user
      code enters exit() before the MLFQ block, so that its slice is not ended (trap.c:112-113). */
  function TimerTrap(s: State, user: bool): (t: State)
    requires Shape(s)
  {
    var u := Ticked(s);
    if u.current.None? then u
    else
      var i := u.current.value;
      if u.procs[i].killed && user then Entered(u, i)
      else if u.procs[i].state == RUNNING then Sliced(u, i)
      else u
  }

  function Do(s: State, e: Event): (t: State)
    requires Shape(s) && Enabled(s, e)
  {
    match e
    case Timer(user) => TimerTrap(s, user)
    case Fork(kstack, copied) =>
      var r := UnusedFrom(s.procs, 0);
      if r.None? then s
      else
        var a := Allocated(s, r.value, kstack);
        if kstack then a.(procs := a.procs[r.value := a.procs[r.value].(state := if copied then RUNNABLE else UNUSED)]) else a
    case EnterExit => Entered(s, s.current.value)
    case Exit => Exited(s, s.current.value)
    case Reap(i) => s.(procs := s.procs[i := s.procs[i].(state := UNUSED, pid := 0, killed := false)])
    case Sleep(chan) =>
      var i := s.current.value;
      s.(procs := s.procs[i := s.procs[i].(state := SLEEPING, chan := chan)], current := None)
    case Wakeup(chan) => s.(procs := Awakened(s.procs, chan))
    case Kill(i) =>
      var p := s.procs[i];
      s.(procs := s.procs[i := p.(killed := true, state := if p.state == SLEEPING then RUNNABLE else p.state)])
    case Dispatch => Dispatched(s)
  }

  const EMPTY: Proc := Proc(UNUSED, 0, 0, false, false, 0, 0, 0, 0, 0, 0, ZEROS, ZEROS, 0, 0)

  /** The zeroed table at boot, with nextpid = 1. */
  function Initial(): (s: State)
    ensures Inv(s)
  {
    State(Repeat(EMPTY, NPROC), [[], [], [], [], []], 0, 1, None)
  }

  function Repeat(p: Proc, n: nat): (r: seq<Proc>)
    ensures |r| == n && forall i :: 0 <= i < n ==> r[i] == p
  {
    if n == 0 then [] else Repeat(p, n - 1) + [p]
  }

  ghost predicate Run(run: seq<State>, events: seq<Event>) {
    && |run| == |events| + 1 && run[0] == Initial()
    && forall i :: 0 <= i < |events| ==> Shape(run[i]) && Enabled(run[i], events[i]) && run[i + 1] == Do(run[i], events[i])
  }

  // ---- The invariant ----

  predicate Live(p: Proc) {
    p.state != UNUSED && p.state != ZOMBIE
  }

  function Total(xs: seq<int>): (n: int)
    requires |xs| == NQ
  {
    xs[0] + xs[1] + xs[2] + xs[3] + xs[4]
  }

  /** How far the counter of the current level can run: to the end of the slice, and for a killed process
      that entered exit() at the end of a slice to the end of the next one. */
  function Limit(p: Proc): (n: nat)
    requires ProcShape(p)
  {
    if p.killed && p.exiting then 2 * Slice(p.qno) else Slice(p.qno)
  }

  /** Only the current level's counter runs, and it stays below its limit (or at it, before the slice is ended). */
  ghost predicate SliceOk(p: Proc, expired: bool)
    requires ProcShape(p)
  {
    && (forall j :: 0 <= j < NQ && j != p.qno ==> p.rr[j] == 0)
    && 0 <= p.rr[p.qno] < Limit(p) + (if expired then 1 else 0)
  }

  /** The accounting of one process at time `ticks`. */
  ghost predicate ProcOk(p: Proc, ticks: int, expired: bool) {
    && ProcShape(p)
    && (p.state != UNUSED ==> Total(p.tk) == p.runtime == p.rtime && 0 <= p.rtime && p.iotime == 0)
    && (Live(p) ==> p.rtime <= ticks - p.ctime && 0 <= Waited(p, ticks) && SliceOk(p, expired))
    && (p.state == ZOMBIE ==> p.rtime + p.iotime <= p.etime - p.ctime && p.etime <= ticks)
  }

  ghost predicate ProcsOk(s: State) {
    |s.procs| == NPROC && forall i :: 0 <= i < NPROC ==> ProcOk(s.procs[i], s.ticks, false)
  }

  /** Every process in use is in the queue of its level; queues 1 to 4 hold no slot twice. */
  ghost predicate QueuesOk(s: State)
    requires |s.procs| == NPROC
  {
    && |s.q| == NQ
    && (forall k, i :: 0 <= k < NQ && 0 <= i < |s.q[k]| ==> s.q[k][i] < NPROC)
    && (forall i :: 0 <= i < NPROC && s.procs[i].state != UNUSED ==> s.procs[i].qno < NQ && i in s.q[s.procs[i].qno])
    && (forall k :: 1 <= k < NQ ==> NoDup(s.q[k]))
  }

  /** Process ids identify slots, so comparing pids is comparing slots. */
  ghost predicate PidsOk(s: State)
    requires |s.procs| == NPROC
  {
    && (forall i :: 0 <= i < NPROC ==> s.procs[i].pid < s.nextpid && (s.procs[i].state != UNUSED ==> 0 < s.procs[i].pid))
    && (forall i, j :: 0 <= i < j < NPROC && s.procs[i].pid == s.procs[j].pid ==> s.procs[i].pid == 0)
  }

  ghost predicate CurrentOk(s: State)
    requires |s.procs| == NPROC
  {
    && (s.current.Some? ==> s.current.value < NPROC && s.procs[s.current.value].state == RUNNING)
    && (forall i :: 0 <= i < NPROC && s.procs[i].state == RUNNING ==> s.current == Some(i))
  }

  ghost predicate Inv(s: State) {
    ProcsOk(s) && QueuesOk(s) && PidsOk(s) && CurrentOk(s)
  }

  lemma InvShape(s: State)
    requires Inv(s)
    ensures Shape(s)
  {
  }

  // ---- Queues ----

  lemma RemoveAtKeeps(q: seq<nat>, m: nat)
    requires m < |q|
    ensures forall j :: j in q && j != q[m] ==> j in RemoveAt(q, m)
    ensures forall j :: j in RemoveAt(q, m) ==> j in q
    ensures NoDup(q) ==> NoDup(RemoveAt(q, m)) && q[m] !in RemoveAt(q, m)
  {
    var r := RemoveAt(q, m);
    forall j | j in q && j != q[m] ensures j in r {
      var x :| 0 <= x < |q| && q[x] == j;
      assert r[if x < m then x else x - 1] == j;
    }
    forall j | j in r ensures j in q {
      var x :| 0 <= x < |r| && r[x] == j;
      assert q[if x < m then x else x + 1] == j;
    }
  }

  /** Moving slot i to queue `to` keeps every other slot where it is. */
  lemma MovedKeeps(q: seq<seq<nat>>, i: nat, from: nat, to: nat, last: bool)
    requires |q| == NQ && from < NQ && to < NQ && from != to && i in q[from]
    requires forall k :: 1 <= k < NQ ==> NoDup(q[k])
    ensures var r := Moved(q, i, from, to, last);
      && |r| == NQ && i in r[to]
      && (forall k, j :: 0 <= k < NQ && j != i ==> (j in r[k] <==> j in q[k]))
      && (forall k :: 1 <= k < NQ ==> NoDup(r[k]))
      && (forall k, m :: 0 <= k < NQ && 0 <= m < |r[k]| ==> r[k][m] in q[k] || r[k][m] == i)
  {
    RemoveAtKeeps(q[from], IndexOf(q[from], i, last));
  }

  /** The number of places taken in all the queues together. */
  function Entries(q: seq<seq<nat>>): (n: nat)
    requires |q| == NQ
  {
    |q[0]| + |q[1]| + |q[2]| + |q[3]| + |q[4]|
  }

  lemma EntriesMoved(q: seq<seq<nat>>, i: nat, from: nat, to: nat, last: bool)
    requires |q| == NQ && from < NQ && to < NQ && from != to && i in q[from]
    ensures |Moved(q, i, from, to, last)| == NQ && Entries(Moved(q, i, from, to, last)) <= Entries(q)
    ensures |q[to]| < Entries(q)
  {
  }

  lemma AgeOneEntries(s: State, i: nat)
    requires Inv(s) && Shape(s) && i < NPROC
    ensures Entries(AgeOne(s, i).q) <= Entries(s.q)
  {
    hide Moved, ProcsOk, PidsOk, CurrentOk;
    var p := s.procs[i];
    if p.state == RUNNABLE && Waited(p, s.ticks) > TIME_AGE && p.qno > 0 {
      InOwnQueue(s, i);
      EntriesMoved(s.q, i, p.qno, p.qno - 1, false);
    }
  }

  lemma QueuesAfterMove(s: State, t: State, i: nat, from: nat, to: nat, last: bool)
    requires |s.procs| == NPROC && QueuesOk(s) && i < NPROC && from < NQ && to < NQ && from != to && i in s.q[from]
    requires |t.procs| == NPROC && t.q == Moved(s.q, i, from, to, last) && t.procs[i].qno == to
    requires forall j :: 0 <= j < NPROC && j != i ==> t.procs[j] == s.procs[j]
    ensures QueuesOk(t)
  {
    MovedKeeps(s.q, i, from, to, last);
    forall k, m | 0 <= k < NQ && 0 <= m < |t.q[k]| ensures t.q[k][m] < NPROC {
      if t.q[k][m] in s.q[k] {
        var x :| 0 <= x < |s.q[k]| && s.q[k][x] == t.q[k][m];
      }
    }
  }

  // ---- Updates of one slot ----

  /** The invariant, except that the process in slot i may have used up its slice. */
  ghost predicate InvBut(s: State, i: nat) {
    && i < NPROC && |s.procs| == NPROC
    && (forall j :: 0 <= j < NPROC ==> ProcOk(s.procs[j], s.ticks, j == i))
    && QueuesOk(s) && PidsOk(s) && CurrentOk(s)
  }

  lemma InvImpliesBut(s: State, i: nat)
    requires Inv(s) && i < NPROC
    ensures InvBut(s, i)
  {
    hide QueuesOk, PidsOk, CurrentOk;
    forall j | 0 <= j < NPROC ensures ProcOk(s.procs[j], s.ticks, j == i) {
      assert ProcOk(s.procs[j], s.ticks, false);
    }
  }

  /** Changing slot i to a process that is accounted for keeps the invariant if queues and current fit it. */
  lemma SlotUpdated(s: State, t: State, i: nat)
    requires InvBut(s, i) && |t.procs| == NPROC && t.ticks == s.ticks && t.nextpid == s.nextpid
    requires forall j :: 0 <= j < NPROC && j != i ==> t.procs[j] == s.procs[j]
    requires ProcOk(t.procs[i], t.ticks, false) && t.procs[i].pid == s.procs[i].pid
    requires t.procs[i].state != UNUSED ==> s.procs[i].state != UNUSED
    requires QueuesOk(t) && CurrentOk(t)
    ensures Inv(t)
  {
    hide QueuesOk, CurrentOk, ProcOk;
    forall j | 0 <= j < NPROC ensures ProcOk(t.procs[j], t.ticks, false) {
      assert ProcOk(s.procs[j], s.ticks, j == i);
    }
  }

  lemma QueuesSame(s: State, t: State, i: nat)
    requires |s.procs| == |t.procs| == NPROC && QueuesOk(s) && i < NPROC && t.q == s.q
    requires forall j :: 0 <= j < NPROC && j != i ==> t.procs[j] == s.procs[j]
    requires t.procs[i].qno == s.procs[i].qno && (t.procs[i].state != UNUSED ==> s.procs[i].state != UNUSED)
    ensures QueuesOk(t)
  {
  }

  lemma CurrentSame(s: State, t: State, i: nat)
    requires |s.procs| == |t.procs| == NPROC && CurrentOk(s) && i < NPROC
    requires forall j :: 0 <= j < NPROC && j != i ==> t.procs[j] == s.procs[j]
    requires if t.procs[i].state == RUNNING then t.current == Some(i) && (s.current.None? || s.current == Some(i))
             else t.current == if s.current == Some(i) then None else s.current
    ensures CurrentOk(t)
  {
  }

  // ---- Aging ----

  lemma AgeOneKeeps(s: State, i: nat)
    requires Inv(s) && i < NPROC
    ensures Shape(s) && Inv(AgeOne(s, i))
    ensures forall j :: 0 <= j < NPROC && (j != i || s.procs[i].state != RUNNABLE) ==> AgeOne(s, i).procs[j] == s.procs[j]
    ensures AgeOne(s, i).ticks == s.ticks && AgeOne(s, i).current == s.current && AgeOne(s, i).procs[i].state == s.procs[i].state
  {
    hide QueuesOk, PidsOk, CurrentOk, Moved;
    InvShape(s);
    InvImpliesBut(s, i);
    var p, t := s.procs[i], AgeOne(s, i);
    if p.state == RUNNABLE && Waited(p, s.ticks) > TIME_AGE {
      AgedProcOk(p, s.ticks);
      if p.qno > 0 {
        InOwnQueue(s, i);
        QueuesAfterMove(s, t, i, p.qno, p.qno - 1, false);
      } else {
        QueuesSame(s, t, i);
      }
      NotCurrent(s, i);
      CurrentSame(s, t, i);
      SlotUpdated(s, t, i);
    }
  }

  lemma InOwnQueue(s: State, i: nat)
    requires |s.procs| == NPROC && QueuesOk(s) && i < NPROC && s.procs[i].state != UNUSED
    ensures s.procs[i].qno < NQ && i in s.q[s.procs[i].qno]
  {
  }

  lemma NotCurrent(s: State, i: nat)
    requires |s.procs| == NPROC && CurrentOk(s) && i < NPROC && s.procs[i].state != RUNNING
    ensures s.current != Some(i)
  {
  }

  lemma RunningIsCurrent(s: State, i: nat)
    requires |s.procs| == NPROC && CurrentOk(s) && i < NPROC
    ensures s.procs[i].state == RUNNING <==> s.current == Some(i)
  {
  }

  lemma AgedProcOk(p: Proc, ticks: int)
    requires ProcOk(p, ticks, false) && p.state == RUNNABLE
    ensures ProcOk((if p.qno > 0 then Promoted(p) else p).(aging := ticks - (p.ctime + p.rtime)), ticks, false)
  {
  }

  lemma {:induction false} AgedKeeps(s: State, n: nat)
    requires Inv(s) && n <= NPROC
    ensures Shape(s) && Inv(Aged(s, n))
    ensures Aged(s, n).ticks == s.ticks && Aged(s, n).current == s.current
    ensures forall j :: 0 <= j < NPROC && (j >= n || s.procs[j].state != RUNNABLE) ==> Aged(s, n).procs[j] == s.procs[j]
    ensures forall j :: 0 <= j < NPROC ==> Aged(s, n).procs[j].state == s.procs[j].state
  {
    hide Inv, AgeOne;
    InvShape(s);
    if n > 0 {
      AgedKeeps(s, n - 1);
      AgeOneKeeps(Aged(s, n - 1), n - 1);
    }
  }

  // ---- The timer ----

  lemma AwakenedKeeps(s: State, chan: int, ticks: int)
    requires Inv(s) && s.ticks <= ticks
    ensures Inv(s.(procs := Awakened(s.procs, chan), ticks := ticks))
  {
    var t := s.(procs := Awakened(s.procs, chan), ticks := ticks);
    forall i | 0 <= i < NPROC ensures ProcOk(t.procs[i], t.ticks, false) {
      assert ProcOk(s.procs[i], s.ticks, false);
    }
    hide ProcOk, Awakened;
  }

  /** After the tick is charged only the running process may have used up its slice. */
  lemma TickedKeeps(s: State)
    requires Inv(s)
    ensures Shape(s) && Shape(Ticked(s)) && Ticked(s).current == s.current && Ticked(s).ticks == s.ticks + 1
    ensures s.current.None? ==> Inv(Ticked(s))
    ensures s.current.Some? ==> InvBut(Ticked(s), s.current.value)
    ensures s.current.Some? ==> var p := s.procs[s.current.value];
      ProcShape(p) && Ticked(s).procs[s.current.value] == Charged(p) && Charged(p).exiting == p.exiting
  {
    hide Inv, ProcOk, InvBut, Aged, Charged;
    InvShape(s);
    AwakenedKeeps(s, TICKS_CHAN, s.ticks + 1);
    var woken := s.(ticks := s.ticks + 1, procs := Awakened(s.procs, TICKS_CHAN));
    AgedKeeps(woken, NPROC);
    InvShape(Aged(woken, NPROC));
    if s.current.Some? {
      RunningOk(s);
      ChargedOk(s.procs[s.current.value], s.ticks);
      ChargedKeeps(Aged(woken, NPROC), Ticked(s), s.current.value);
    }
  }

  lemma RunningOk(s: State)
    requires Inv(s) && s.current.Some?
    ensures s.current.value < NPROC && s.procs[s.current.value].state == RUNNING
    ensures ProcOk(s.procs[s.current.value], s.ticks, false)
  {
  }

  lemma ChargedKeeps(s: State, t: State, i: nat)
    requires Inv(s) && i < NPROC && s.procs[i].state == RUNNING && ProcShape(s.procs[i])
    requires t == s.(procs := s.procs[i := Charged(s.procs[i])]) && ProcOk(Charged(s.procs[i]), s.ticks, true)
    ensures InvBut(t, i) && Shape(t)
  {
    hide ProcOk;
    QueuesSame(s, t, i);
    CurrentSame(s, t, i);
    hide QueuesOk, CurrentOk;
    forall j | 0 <= j < NPROC ensures ProcOk(t.procs[j], t.ticks, j == i) {
      assert ProcOk(s.procs[j], s.ticks, false);
    }
    ButShape(t, i);
  }

  lemma ButShape(s: State, i: nat)
    requires InvBut(s, i)
    ensures Shape(s)
  {
  }

  lemma ChargedOk(p: Proc, ticks: int)
    requires ProcOk(p, ticks, false) && p.state == RUNNING
    ensures ProcOk(Charged(p), ticks + 1, true) && Charged(p).exiting == p.exiting
  {
  }

  /** Ending the slice restores the invariant. */
  lemma SlicedKeeps(s: State, i: nat)
    requires InvBut(s, i) && s.current == Some(i)
    ensures Shape(s) && Inv(Sliced(s, i))
  {
    hide InvBut, ProcOk, QueuesOk, PidsOk, CurrentOk, Moved, RemoveAt, AnyRunnable, NoDup;
    ButShape(s, i);
    ButRunning(s, i);
    ButParts(s, i);
    var p, k, t := s.procs[i], s.procs[i].qno, Sliced(s, i);
    SlicedProcOk(p, s.ticks);
    if p.rr[k] != 0 && p.rr[k] % Slice(k) == 0 {
      InOwnQueue(s, i);
      if k < 4 { QueuesAfterSlice(s, t, i); } else { QueuesAfterRotation(s, t, i); }
    } else {
      QueuesSame(s, t, i);
    }
    CurrentSame(s, t, i);
    SlotUpdated(s, t, i);
  }

  lemma ButParts(s: State, i: nat)
    requires InvBut(s, i)
    ensures i < NPROC && |s.procs| == NPROC && QueuesOk(s) && CurrentOk(s)
  {
  }

  lemma ButRunning(s: State, i: nat)
    requires InvBut(s, i) && s.current == Some(i)
    ensures s.procs[i].state == RUNNING && ProcOk(s.procs[i], s.ticks, true)
  {
  }

  /** The process at the end of a tick, whichever branch the MLFQ block takes. */
  lemma SlicedProcOk(p: Proc, ticks: int)
    requires ProcOk(p, ticks, true) && p.state == RUNNING
    ensures var k := p.qno;
      if p.rr[k] != 0 && p.rr[k] % Slice(k) == 0 then
        ProcOk(p.(rr := if k < 4 then p.rr[k := 0][k + 1 := 0] else p.rr[4 := 0], qno := if k < 4 then k + 1 else 4, state := RUNNABLE), ticks, false)
      else ProcOk(p, ticks, false) && ProcOk(p.(state := RUNNABLE), ticks, false)
  {
  }

  lemma QueuesAfterSlice(s: State, t: State, i: nat)
    requires |s.procs| == NPROC && QueuesOk(s) && i < NPROC && s.procs[i].qno < 4 && i in s.q[s.procs[i].qno]
    requires |t.procs| == NPROC && t.q == Moved(s.q, i, s.procs[i].qno, s.procs[i].qno + 1, s.procs[i].qno == 0)
    requires t.procs[i].qno == s.procs[i].qno + 1
    requires forall j :: 0 <= j < NPROC && j != i ==> t.procs[j] == s.procs[j]
    ensures QueuesOk(t)
  {
    QueuesAfterMove(s, t, i, s.procs[i].qno, s.procs[i].qno + 1, s.procs[i].qno == 0);
  }

  lemma QueuesAfterRotation(s: State, t: State, i: nat)
    requires |s.procs| == NPROC && QueuesOk(s) && i < NPROC && s.procs[i].qno == 4 && i in s.q[4]
    requires |t.procs| == NPROC && t.q == s.q[4 := RemoveAt(s.q[4] + [i], IndexOf(s.q[4], i, false))]
    requires t.procs[i].qno == 4
    requires forall j :: 0 <= j < NPROC && j != i ==> t.procs[j] == s.procs[j]
    ensures QueuesOk(t)
  {
    var m, q4 := IndexOf(s.q[4], i, false), s.q[4];
    assert t.q[4] == RemoveAt(q4, m) + [i];
    RemoveAtKeeps(q4, m);
  }

  // ---- Every event keeps the invariant ----

  lemma TimerKeeps(s: State, user: bool)
    requires Inv(s) && Shape(s) && Enabled(s, Timer(user))
    ensures Inv(TimerTrap(s, user))
  {
    hide Inv, InvBut, Ticked, Sliced, ProcOk;
    InvShape(s);
    if s.current.Some? { RunningOk(s); }
    TickedKeeps(s);
    if s.current.Some? {
      var u, i := Ticked(s), s.current.value;
      ButRunning(u, i);
      if u.procs[i].killed && user { KilledKeeps(u, i); } else { SlicedKeeps(u, i); }
    }
  }

  /** A killed process takes its used-up slice into exit(). */
  lemma KilledKeeps(s: State, i: nat)
    requires InvBut(s, i) && s.current == Some(i) && s.procs[i].killed && !s.procs[i].exiting
    ensures Inv(Entered(s, i))
  {
    hide QueuesOk, PidsOk, CurrentOk;
    var t := Entered(s, i);
    ButRunning(s, i);
    QueuesSame(s, t, i);
    CurrentSame(s, t, i);
    SlotUpdated(s, t, i);
  }

  lemma ExitKeeps(s: State, i: nat)
    requires InvBut(s, i) && s.current == Some(i)
    ensures Inv(Exited(s, i))
  {
    hide QueuesOk, PidsOk, CurrentOk;
    var t := Exited(s, i);
    ButRunning(s, i);
    QueuesSame(s, t, i);
    CurrentSame(s, t, i);
    SlotUpdated(s, t, i);
  }

  lemma ForkKeeps(s: State, kstack: bool, copied: bool)
    requires Inv(s) && Shape(s) && Enabled(s, Fork(kstack, copied))
    ensures Inv(Do(s, Fork(kstack, copied)))
  {
    hide Shape, CurrentOk, QueuesOk, ProcOk;
    InvShape(s);
    var r, t := UnusedFrom(s.procs, 0), Do(s, Fork(kstack, copied));
    if r.Some? {
      var i := r.value;
      FreshOk(t.procs[i], t.ticks);
      CurrentUnused(s, t, i);
      QueuesAfterFork(s, t, i);
      forall j | 0 <= j < NPROC ensures ProcOk(t.procs[j], t.ticks, false) {
        assert j != i ==> ProcOk(s.procs[j], s.ticks, false);
      }
    }
  }

  lemma QueuesAfterFork(s: State, t: State, i: nat)
    requires |s.procs| == |t.procs| == NPROC && QueuesOk(s) && i < NPROC && t.procs[i].qno == 0 && t.q == s.q[0 := s.q[0] + [i]]
    requires forall j :: 0 <= j < NPROC && j != i ==> t.procs[j] == s.procs[j]
    ensures QueuesOk(t)
  {
    forall j | 0 <= j < NPROC && t.procs[j].state != UNUSED ensures t.procs[j].qno < NQ && j in t.q[t.procs[j].qno] {
      if j == i {
        assert t.q[0][|s.q[0]|] == i;
      } else {
        InOwnQueue(s, j);
        var x :| 0 <= x < |s.q[s.procs[j].qno]| && s.q[s.procs[j].qno][x] == j;
        assert t.q[s.procs[j].qno][x] == j;
      }
    }
  }

  lemma CurrentUnused(s: State, t: State, i: nat)
    requires |s.procs| == |t.procs| == NPROC && CurrentOk(s) && i < NPROC && s.procs[i].state == UNUSED && t.procs[i].state != RUNNING
    requires t.current == s.current && forall j :: 0 <= j < NPROC && j != i ==> t.procs[j] == s.procs[j]
    ensures CurrentOk(t)
  {
  }

  lemma FreshOk(p: Proc, ticks: int)
    requires p.qno == 0 && p.rr == p.tk == ZEROS && p.state in {UNUSED, RUNNABLE}
    requires p.state != UNUSED ==> p.runtime == p.rtime == p.iotime == p.aging == 0 && p.ctime == ticks
    ensures ProcOk(p, ticks, false)
  {
  }

  lemma DoKeeps(s: State, e: Event)
    requires Inv(s) && Shape(s) && Enabled(s, e)
    ensures Inv(Do(s, e))
  {
    hide QueuesOk, PidsOk, CurrentOk, Picked, TimerTrap, Awakened;
    InvShape(s);
    var t := Do(s, e);
    match e {
      case Timer(user) => TimerKeeps(s, user);
      case Fork(kstack, copied) => ForkKeeps(s, kstack, copied);
      case Wakeup(chan) => AwakenedKeeps(s, chan, s.ticks);
      case Reap(i) => ReapKeeps(s, i);
      case Dispatch =>
        if Picked(s, 0).Some? { StateChanged(s, t, Picked(s, 0).value); }
      case EnterExit =>
        RunningOk(s);
        StateChanged(s, t, s.current.value);
      case Exit =>
        RunningOk(s);
        InvImpliesBut(s, s.current.value);
        ExitKeeps(s, s.current.value);
      case Sleep(_) =>
        RunningOk(s);
        StateChanged(s, t, s.current.value);
      case Kill(i) =>
        RunningIsCurrent(s, i);
        StateChanged(s, t, i);
    }
  }

  lemma ReapKeeps(s: State, i: nat)
    requires Inv(s) && i < NPROC && s.procs[i].state == ZOMBIE
    ensures Shape(s) && Inv(Do(s, Reap(i)))
  {
    InvShape(s);
    hide CurrentOk, ProcOk, NoDup;
    var t := Do(s, Reap(i));
    NotCurrent(s, i);
    CurrentSame(s, t, i);
    QueuesSame(s, t, i);
    forall j | 0 <= j < NPROC ensures ProcOk(t.procs[j], t.ticks, false) {
      assert ProcOk(s.procs[j], s.ticks, false);
      if j == i { ReapedOk(s.procs[i], s.ticks); }
    }
  }

  lemma ReapedOk(p: Proc, ticks: int)
    requires ProcOk(p, ticks, false)
    ensures ProcOk(p.(state := UNUSED, pid := 0, killed := false), ticks, false)
  {
  }

  /** A live process changes its scheduling state and nothing that is accounted. */
  lemma StateChanged(s: State, t: State, i: nat)
    requires Inv(s) && |t.procs| == NPROC && i < NPROC && t.ticks == s.ticks && t.nextpid == s.nextpid && t.q == s.q
    requires forall j :: 0 <= j < NPROC && j != i ==> t.procs[j] == s.procs[j]
    requires var p, r := s.procs[i], t.procs[i];
      && r == p.(state := r.state, chan := r.chan, killed := r.killed, exiting := r.exiting, numRun := r.numRun)
      && (p.killed ==> r.killed) && (p.exiting ==> r.exiting)
      && ((Live(p) && Live(r)) || r.state == p.state)
    requires if t.procs[i].state == RUNNING then t.current == Some(i) && (s.current.None? || s.current == Some(i))
             else t.current == if s.current == Some(i) then None else s.current
    ensures Inv(t)
  {
    hide QueuesOk, PidsOk, CurrentOk;
    InvImpliesBut(s, i);
    assert ProcOk(s.procs[i], s.ticks, false);
    QueuesSame(s, t, i);
    CurrentSame(s, t, i);
    SlotUpdated(s, t, i);
  }

  lemma {:induction false} RunKeeps(run: seq<State>, events: seq<Event>, k: nat)
    requires Run(run, events) && k < |run|
    ensures Inv(run[k])
    decreases k
  {
    hide Inv, Do, Enabled, Shape, Initial;
    if k > 0 {
      RunKeeps(run, events, k - 1);
      DoKeeps(run[k - 1], events[k - 1]);
    }
  }
}
