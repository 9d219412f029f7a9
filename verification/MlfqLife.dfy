/** The life of a process in a run: how its state changes, what its counters count, and when the timer takes
    the CPU from it. */
module MlfqLife {
  import opened Common
  import opened MlfqSpec
  import opened MlfqProofs
  import opened MlfqTheorems

  // ---- The timer ----

  /** What a tick does to the other processes. */
  lemma TickedProc(s: State, i: nat)
    requires Inv(s) && Shape(s) && i < NPROC
    ensures var woken := Awakened(s.procs, TICKS_CHAN);
      Ticked(s).procs[i] == if s.current == Some(i) then Charged(AgedOf(woken[i], s.ticks + 1)) else AgedOf(woken[i], s.ticks + 1)
  {
    hide Inv, Aged, Charged, AgedOf;
    var woken := s.(ticks := s.ticks + 1, procs := Awakened(s.procs, TICKS_CHAN));
    AwakenedKeeps(s, TICKS_CHAN, s.ticks + 1);
    InvShape(woken);
    AgedProc(woken, NPROC, i);
    if s.current.Some? { RunningOk(s); }
  }

  /** The timer touches no other process after the tick, and the running one as the MLFQ block does. */
  lemma TimerOthers(s: State, user: bool, j: nat)
    requires Inv(s) && Shape(s) && j < NPROC && s.current != Some(j)
    ensures |TimerTrap(s, user).procs| == NPROC && TimerTrap(s, user).procs[j] == Ticked(s).procs[j]
    ensures TimerTrap(s, user).ticks == s.ticks + 1
  {
    hide Inv, Ticked, Moved, RemoveAt, AnyRunnable, InvBut;
    TickedKeeps(s);
    if s.current.Some? { RunningOk(s); }
  }

  // ---- How the state of a process changes ----

  /** The complete table of state changes, for every slot and every step of every run. */
  lemma Transitions(run: seq<State>, events: seq<Event>, n: nat, i: nat)
    requires Run(run, events) && n < |events| && i < NPROC
    ensures Shape(run[n]) && Shape(run[n + 1])
    ensures var s, e, a, b := run[n], events[n], run[n].procs[i].state, run[n + 1].procs[i].state;
      && (a == UNUSED ==> b == if e == Fork(true, true) && forall j :: 0 <= j < i ==> s.procs[j].state != UNUSED then RUNNABLE else UNUSED)
      && (a == SLEEPING ==>
            b == if e == Kill(i) || e == Wakeup(s.procs[i].chan) || (e.Timer? && s.procs[i].chan == TICKS_CHAN) then RUNNABLE else SLEEPING)
      && (a == RUNNABLE ==> b == if e == Dispatch && Picked(s, 0) == Some(i) then RUNNING else RUNNABLE)
      && (a == RUNNING ==> b == if e == Exit then ZOMBIE else if e.Sleep? then SLEEPING else if e.Timer? && run[n + 1].current.None? then RUNNABLE else RUNNING)
      && (a == ZOMBIE ==> b == if e == Reap(i) then UNUSED else ZOMBIE)
  {
    hide Inv;
    RunKeeps(run, events, n);
    RunKeeps(run, events, n + 1);
    InvShape(run[n]);
    InvShape(run[n + 1]);
    RunningIsCurrentInv(run[n], i);
    RunningIsCurrentInv(run[n + 1], i);
    StateAfter(run[n], events[n], i);
  }

  lemma RunningIsCurrentInv(s: State, i: nat)
    requires Inv(s) && i < NPROC
    ensures s.procs[i].state == RUNNING <==> s.current == Some(i)
  {
    RunningIsCurrent(s, i);
  }

  lemma StateAfter(s: State, e: Event, i: nat)
    requires Inv(s) && Shape(s) && Enabled(s, e) && i < NPROC && |Do(s, e).procs| == NPROC
    requires s.procs[i].state == RUNNING <==> s.current == Some(i)
    requires Do(s, e).procs[i].state == RUNNING <==> Do(s, e).current == Some(i)
    ensures var t := Do(s, e); var a, b := s.procs[i].state, t.procs[i].state;
      && (a == UNUSED ==> b == if e == Fork(true, true) && forall j :: 0 <= j < i ==> s.procs[j].state != UNUSED then RUNNABLE else UNUSED)
      && (a == SLEEPING ==>
            b == if e == Kill(i) || e == Wakeup(s.procs[i].chan) || (e.Timer? && s.procs[i].chan == TICKS_CHAN) then RUNNABLE else SLEEPING)
      && (a == RUNNABLE ==> b == if e == Dispatch && Picked(s, 0) == Some(i) then RUNNING else RUNNABLE)
      && (a == RUNNING ==> b == if e == Exit then ZOMBIE else if e.Sleep? then SLEEPING else if e.Timer? && t.current.None? then RUNNABLE else RUNNING)
      && (a == ZOMBIE ==> b == if e == Reap(i) then UNUSED else ZOMBIE)
  {
    hide Inv, Picked, TimerTrap;
    match e {
      case Timer(user) => TimerStates(s, user, i);
      case Fork(_, _) => ForkSlot(s, i);
      case _ =>
    }
  }

  lemma ForkSlot(s: State, i: nat)
    requires Shape(s) && i < NPROC
    ensures UnusedFrom(s.procs, 0) == Some(i) <==> s.procs[i].state == UNUSED && forall j :: 0 <= j < i ==> s.procs[j].state != UNUSED
  {
  }

  lemma TimerStates(s: State, user: bool, i: nat)
    requires Inv(s) && Shape(s) && i < NPROC && |TimerTrap(s, user).procs| == NPROC
    requires s.procs[i].state == RUNNING <==> s.current == Some(i)
    requires TimerTrap(s, user).procs[i].state == RUNNING <==> TimerTrap(s, user).current == Some(i)
    ensures var t := TimerTrap(s, user);
      if s.current == Some(i) then t.procs[i].state == if t.current.None? then RUNNABLE else RUNNING
      else t.procs[i].state == if s.procs[i].state == SLEEPING && s.procs[i].chan == TICKS_CHAN then RUNNABLE else s.procs[i].state
  {
    hide Inv, Ticked, Moved, RemoveAt, AnyRunnable, InvBut;
    TickedProc(s, i);
    TickedKeeps(s);
    if s.current == Some(i) {
      RunningOk(s);
    } else {
      TimerOthers(s, user, i);
    }
  }

  /** A fork that finds a slot and memory makes exactly one process, with a new pid, in the first unused slot, at level 0
      and last in queue 0; any other fork makes none. */
  lemma ForkExactly(run: seq<State>, events: seq<Event>, n: nat)
    requires Run(run, events) && n < |events| && events[n].Fork?
    ensures Shape(run[n]) && Shape(run[n + 1])
    ensures var s, t, r := run[n], run[n + 1], UnusedFrom(run[n].procs, 0);
      && (forall j :: 0 <= j < NPROC && r != Some(j) ==> t.procs[j] == s.procs[j])
      && (r.Some? ==>
            && t.q == s.q[0 := s.q[0] + [r.value]]
            && (forall j :: 0 <= j < NPROC ==> s.procs[j].pid < t.procs[r.value].pid)
            && (if events[n] == Fork(true, true) then t.procs[r.value].state == RUNNABLE && t.procs[r.value].qno == 0 && t.procs[r.value].ctime == s.ticks
                else t.procs[r.value].state == UNUSED))
  {
    hide Inv, Do, Enabled, UnusedFrom;
    RunKeeps(run, events, n);
    RunKeeps(run, events, n + 1);
    InvShape(run[n]);
    InvShape(run[n + 1]);
    PidsBelow(run[n]);
    ForkEffect(run[n], events[n]);
  }

  lemma ForkEffect(s: State, e: Event)
    requires Shape(s) && Enabled(s, e) && e.Fork?
    ensures var t, r := Do(s, e), UnusedFrom(s.procs, 0);
      && |t.procs| == NPROC
      && (forall j :: 0 <= j < NPROC && r != Some(j) ==> t.procs[j] == s.procs[j])
      && (r.Some? ==>
            && t.q == s.q[0 := s.q[0] + [r.value]] && t.procs[r.value].pid == s.nextpid
            && (if e == Fork(true, true) then t.procs[r.value].state == RUNNABLE && t.procs[r.value].qno == 0 && t.procs[r.value].ctime == s.ticks
                else t.procs[r.value].state == UNUSED))
  {
    hide UnusedFrom;
  }

  lemma PidsBelow(s: State)
    requires Inv(s)
    ensures |s.procs| == NPROC && forall j :: 0 <= j < NPROC ==> s.procs[j].pid < s.nextpid
  {
  }

  /** The other calls change one slot: sleep notes the channel, kill the mark, and waitx clears both pid and mark. */
  lemma CallEffects(run: seq<State>, events: seq<Event>, n: nat, i: nat)
    requires Run(run, events) && n < |events| && i < NPROC
    ensures Shape(run[n]) && Shape(run[n + 1])
    ensures var s, t, p, r := run[n], run[n + 1], run[n].procs[i], run[n + 1].procs[i];
      && (events[n].Sleep? && s.current == Some(i) ==> r == p.(state := SLEEPING, chan := events[n].chan) && t.current == None)
      && (events[n] == Kill(i) ==> r.killed && r == p.(killed := true, state := r.state))
      && (events[n] == Reap(i) ==> r == p.(state := UNUSED, pid := 0, killed := false))
      && (events[n] == EnterExit && s.current == Some(i) ==> r == p.(exiting := true))
      && (events[n].Sleep? || events[n].Kill? || events[n].Reap? || events[n] == EnterExit || events[n] == Exit ==>
            t.q == s.q && t.ticks == s.ticks && (s.current != Some(i) && events[n] != Kill(i) && events[n] != Reap(i) ==> r == p))
  {
    hide Inv;
    RunKeeps(run, events, n);
    RunKeeps(run, events, n + 1);
    InvShape(run[n]);
    InvShape(run[n + 1]);
  }

  // ---- What the counters of a process count ----

  /** The ticks of steps a to b - 1. */
  ghost function Ticks(events: seq<Event>, a: nat, b: nat): (n: nat)
    requires b <= |events|
    decreases b
  {
    if b <= a then 0 else Ticks(events, a, b - 1) + if events[b - 1].Timer? then 1 else 0
  }

  /** Those of them that found process i running at level k. */
  ghost function RanAt(run: seq<State>, events: seq<Event>, a: nat, b: nat, i: nat, k: nat): (n: nat)
    requires b <= |events| <= |run|
    decreases b
  {
    if b <= a then 0
    else RanAt(run, events, a, b - 1, i, k) +
         if events[b - 1].Timer? && run[b - 1].current == Some(i) && i < |run[b - 1].procs| && run[b - 1].procs[i].qno == k then 1 else 0
  }

  /** The passes that dispatched process i. */
  ghost function Chosen(run: seq<State>, events: seq<Event>, a: nat, b: nat, i: nat): (n: nat)
    requires b <= |events| <= |run|
    decreases b
  {
    if b <= a then 0
    else Chosen(run, events, a, b - 1, i) + if events[b - 1] == Dispatch && Shape(run[b - 1]) && Picked(run[b - 1], 0) == Some(i) then 1 else 0
  }

  /** One step in the life of a process. */
  lemma LiveStep(s: State, e: Event, i: nat)
    requires Inv(s) && Shape(s) && Enabled(s, e) && i < NPROC && Live(s.procs[i]) && |Do(s, e).procs| == NPROC
    ensures var t := Do(s, e); var p, r, ran := s.procs[i], t.procs[i], e.Timer? && s.current == Some(i);
      && t.ticks == s.ticks + (if e.Timer? then 1 else 0)
      && r.pid == p.pid && r.ctime == p.ctime && r.rtime == p.rtime + (if ran then 1 else 0)
      && r.tk == (if ran then p.tk[p.qno := p.tk[p.qno] + 1] else p.tk)
      && r.numRun == p.numRun + (if e == Dispatch && Picked(s, 0) == Some(i) then 1 else 0)
      && (e == Exit && s.current == Some(i) ==> r.etime == s.ticks)
  {
    hide Inv, Picked, TimerTrap;
    match e {
      case Timer(user) => LiveTick(s, user, i);
      case Fork(_, _) => ForkSlot(s, i);
      case _ =>
    }
  }

  lemma LiveTick(s: State, user: bool, i: nat)
    requires Inv(s) && Shape(s) && i < NPROC && Live(s.procs[i])
    ensures TimerTrap(s, user).ticks == s.ticks + 1 && |TimerTrap(s, user).procs| == NPROC
    ensures var p, r, ran := s.procs[i], TimerTrap(s, user).procs[i], s.current == Some(i);
      && r.pid == p.pid && r.ctime == p.ctime && r.rtime == p.rtime + (if ran then 1 else 0) && r.numRun == p.numRun
      && r.tk == (if ran then p.tk[p.qno := p.tk[p.qno] + 1] else p.tk)
  {
    hide Inv, Ticked, Moved, RemoveAt, AnyRunnable, InvBut;
    ProcShapes(s, i);
    TickedProc(s, i);
    TickedKeeps(s);
    if s.current == Some(i) {
      RunningOk(s);
    } else {
      TimerOthers(s, user, i);
    }
  }

  ghost predicate InState(s: State, i: nat, states: set<ProcState>) {
    |s.procs| == NPROC && i < NPROC && s.procs[i].state in states
  }

  const ALIVE: set<ProcState> := {EMBRYO, SLEEPING, RUNNABLE, RUNNING}

  /** Step a creates the process in slot i, and it is alive up to state b. */
  ghost predicate Lives(run: seq<State>, a: nat, b: nat, i: nat) {
    a < b < |run| && InState(run[a], i, {UNUSED}) && forall m :: a < m <= b ==> InState(run[m], i, ALIVE)
  }

  /** The counters of a live process n steps into its life. */
  ghost predicate Counted(run: seq<State>, events: seq<Event>, a: nat, b: nat, i: nat)
    requires Lives(run, a, b, i) && |events| + 1 == |run|
  {
    var p := run[b].procs[i];
    && ProcShape(p) && p.pid == run[a].nextpid && p.ctime == run[a].ticks && run[b].ticks - p.ctime == Ticks(events, a + 1, b)
    && (forall k :: 0 <= k < NQ ==> p.tk[k] == RanAt(run, events, a + 1, b, i, k))
    && p.numRun == Chosen(run, events, a + 1, b, i)
  }

  /** In every run, for a process that step a created in slot i and that is alive up to step b: its creation time is
      the time of step a, its ticks at each level are the ticks that found it running at that level, and its run
      count is the number of passes that dispatched it. */
  lemma {:induction false} Lifetime(run: seq<State>, events: seq<Event>, a: nat, b: nat, i: nat)
    requires Run(run, events) && Lives(run, a, b, i)
    ensures Counted(run, events, a, b, i)
    decreases b
  {
    hide Inv, Do, Enabled, Shape;
    RunKeeps(run, events, b - 1);
    RunKeeps(run, events, b);
    InvShape(run[b - 1]);
    InvShape(run[b]);
    assert InState(run[b], i, ALIVE);
    if b == a + 1 {
      Born(run[a], events[a], i);
      ProcShapes(run[b], i);
      assert forall k :: 0 <= k < NQ ==> ZEROS[k] == 0;
    } else {
      Lifetime(run, events, a, b - 1, i);
      assert run[b - 1 + 1] == Do(run[b - 1], events[b - 1]);
      LiveStep(run[b - 1], events[b - 1], i);
      CountedStep(run, events, a, b, i);
    }
  }

  lemma Born(s: State, e: Event, i: nat)
    requires Inv(s) && Shape(s) && Enabled(s, e) && i < NPROC && s.procs[i].state == UNUSED
    requires |Do(s, e).procs| == NPROC && Live(Do(s, e).procs[i])
    ensures var r := Do(s, e).procs[i];
      r.pid == s.nextpid && r.ctime == s.ticks == Do(s, e).ticks && r.tk == ZEROS && r.numRun == 0
  {
    RunningOkIf(s, i);
    hide Inv, Picked, TimerTrap;
    if e.Timer? {
      TickedProc(s, i);
      TimerOthers(s, e.user, i);
    }
  }

  lemma RunningOkIf(s: State, i: nat)
    requires Inv(s) && i < NPROC && s.procs[i].state != RUNNING
    ensures s.current != Some(i)
  {
    NotCurrent(s, i);
  }

  lemma CountedStep(run: seq<State>, events: seq<Event>, a: nat, b: nat, i: nat)
    requires a + 1 < b && Lives(run, a, b, i) && Lives(run, a, b - 1, i) && |events| + 1 == |run|
    requires Counted(run, events, a, b - 1, i) && Shape(run[b]) && Shape(run[b - 1])
    requires var p, r, e := run[b - 1].procs[i], run[b].procs[i], events[b - 1];
      var ran := e.Timer? && run[b - 1].current == Some(i);
      && run[b].ticks == run[b - 1].ticks + (if e.Timer? then 1 else 0)
      && r.pid == p.pid && r.ctime == p.ctime
      && r.tk == (if ran then p.tk[p.qno := p.tk[p.qno] + 1] else p.tk)
      && r.numRun == p.numRun + (if e == Dispatch && Picked(run[b - 1], 0) == Some(i) then 1 else 0)
    ensures Counted(run, events, a, b, i)
  {
    hide Picked;
    assert ProcShape(run[b - 1].procs[i]);
  }

  /** When the process exits at step b, its exit time minus its creation time is the number of ticks in between. */
  lemma LifeSpan(run: seq<State>, events: seq<Event>, a: nat, b: nat, i: nat)
    requires Run(run, events) && Lives(run, a, b, i) && b < |events| && events[b] == Exit && run[b].current == Some(i)
    ensures Shape(run[b + 1])
    ensures var p := run[b + 1].procs[i];
      && p.state == ZOMBIE && p.ctime == run[a].ticks && p.etime == run[b].ticks && p.etime - p.ctime == Ticks(events, a + 1, b)
      && forall k :: 0 <= k < NQ ==> p.tk[k] == RanAt(run, events, a + 1, b, i, k)
  {
    hide Inv;
    RunKeeps(run, events, b);
    RunKeeps(run, events, b + 1);
    InvShape(run[b + 1]);
    Lifetime(run, events, a, b, i);
    LiveStep(run[b], events[b], i);
  }

  /** A zombie stays as it is until it is reaped, so that waitx reports, for the process that step a created and that
      exited at step b: as rtime the ticks that found it running, and as wtime all the others of its life. */
  lemma {:induction false} WaitxReports(run: seq<State>, events: seq<Event>, a: nat, b: nat, c: nat, i: nat)
    requires Run(run, events) && Lives(run, a, b, i) && b < c < |run| && events[b] == Exit && run[b].current == Some(i)
    requires forall m :: b < m <= c ==> InState(run[m], i, {ZOMBIE})
    ensures InState(run[c], i, {ZOMBIE})
    ensures var p, ran := run[c].procs[i], RanAt(run, events, a + 1, b, i, 0) + RanAt(run, events, a + 1, b, i, 1)
        + RanAt(run, events, a + 1, b, i, 2) + RanAt(run, events, a + 1, b, i, 3) + RanAt(run, events, a + 1, b, i, 4);
      p.rtime == ran && p.etime - p.ctime - p.rtime - p.iotime == Ticks(events, a + 1, b) - ran
    decreases c
  {
    hide Inv, Do, Enabled, Shape;
    RunKeeps(run, events, c);
    assert InState(run[c], i, {ZOMBIE});
    if c == b + 1 {
      LifeSpan(run, events, a, b, i);
      ZombieTimes(run[c], i);
    } else {
      WaitxReports(run, events, a, b, c - 1, i);
      RunKeeps(run, events, c - 1);
      assert InState(run[c - 1], i, {ZOMBIE});
      assert run[c - 1 + 1] == Do(run[c - 1], events[c - 1]);
      ZombieStep(run[c - 1], events[c - 1], i);
    }
  }

  lemma ZombieTimes(s: State, i: nat)
    requires Inv(s) && i < NPROC && s.procs[i].state == ZOMBIE
    ensures ProcShape(s.procs[i]) && s.procs[i].iotime == 0
    ensures var p := s.procs[i]; p.rtime == p.tk[0] + p.tk[1] + p.tk[2] + p.tk[3] + p.tk[4]
  {
    assert ProcOk(s.procs[i], s.ticks, false);
  }

  lemma ZombieStep(s: State, e: Event, i: nat)
    requires Inv(s) && Shape(s) && Enabled(s, e) && i < NPROC && s.procs[i].state == ZOMBIE
    requires |Do(s, e).procs| == NPROC && Do(s, e).procs[i].state == ZOMBIE
    ensures var p, r := s.procs[i], Do(s, e).procs[i]; r == p.(killed := r.killed)
  {
    RunningOkIf(s, i);
    hide Inv, Picked, TimerTrap;
    match e {
      case Timer(user) =>
        TickedProc(s, i);
        TimerOthers(s, user, i);
      case Fork(_, _) => ForkSlot(s, i);
      case _ =>
    }
  }

  // ---- When the timer takes the CPU away ----

  /** The time slices of the five levels, in ticks. */
  const SLICES: seq<nat> := [1, 2, 4, 8, 16]

  /** This tick completes a slice of the running process. */
  predicate UsesUp(p: Proc)
    requires |p.rr| == NQ && p.qno < NQ
  {
    (p.rr[p.qno] + 1) % SLICES[p.qno] == 0
  }

  /** A RUNNABLE process other than i has a place in a queue better than level k. */
  ghost predicate BetterWaits(s: State, i: nat, k: nat)
    requires Shape(s)
  {
    exists j, m :: 0 <= j < k && j < NQ && 0 <= m < |s.q[j]| && s.q[j][m] != i && s.procs[s.q[j][m]].state == RUNNABLE
  }

  /** The places in front of slot i. */
  ghost function Ahead(q: seq<nat>, i: nat): (r: seq<nat>) {
    if i in q then q[..IndexOf(q, i, false)] else q
  }

  /** In every run, for a timer interrupt that finds process i running and does not send it to exit(): the process
      loses the CPU if and only if the tick completes its slice or somebody of a better level is RUNNABLE after it.
      At the end of a slice it goes to the end of the next queue, unless that queue already has a place for its
      slot, and from queue 4 to the end of queue 4.  Otherwise it keeps its level and its place: nobody gets
      ahead of it. */
  lemma TimerExactly(run: seq<State>, events: seq<Event>, n: nat, i: nat)
    requires Run(run, events) && n < |events| && events[n].Timer? && run[n].current == Some(i) && i < |run[n].procs|
    requires !(run[n].procs[i].killed && events[n].user)
    ensures Shape(run[n]) && Shape(run[n + 1])
    ensures var s, t, p, r, k := run[n], run[n + 1], run[n].procs[i], run[n + 1].procs[i], run[n].procs[i].qno;
      && (t.current == None <==> UsesUp(p) || BetterWaits(t, i, k))
      && (t.current != None ==> t.current == Some(i))
      && r.state == (if t.current == None then RUNNABLE else RUNNING)
      && (UsesUp(p) ==>
            && r.qno == (if k < 4 then k + 1 else 4) && r.rr[k] == 0 && r.rr[r.qno] == 0
            && ((k < 4 && i in s.q[k + 1]) || (t.q[r.qno] != [] && t.q[r.qno][|t.q[r.qno]| - 1] == i))
            && (1 <= k < 4 ==> i !in t.q[k]))
      && (!UsesUp(p) ==> r.qno == k && r.rr[k] == p.rr[k] + 1 && forall x :: x in Ahead(t.q[k], i) ==> x in Ahead(s.q[k], i))
  {
    hide Inv, Ticked, Sliced, Ahead, BetterWaits, TimerTrap;
    var s, t := run[n], run[n + 1];
    RunKeeps(run, events, n);
    RunKeeps(run, events, n + 1);
    InvShape(s);
    InvShape(t);
    RunningOk(s);
    TickedKeeps(s);
    TickedQueues(s, i);
    var u := Ticked(s);
    TrapIsSliced(s, events[n].user, i);
    RunningPlace(u, i);
    SlicedExactly(u, i);
    ChargedIs(s, i);
  }

  lemma TrapIsSliced(s: State, user: bool, i: nat)
    requires Inv(s) && Shape(s) && s.current == Some(i) && i < NPROC && !(s.procs[i].killed && user)
    ensures Shape(Ticked(s)) && TimerTrap(s, user) == Sliced(Ticked(s), i)
  {
    hide Inv, Ticked, Sliced, InvBut;
    TickedKeeps(s);
    RunningOk(s);
    ButRunning(Ticked(s), i);
  }

  lemma ChargedIs(s: State, i: nat)
    requires Inv(s) && Shape(s) && s.current == Some(i) && i < NPROC && s.procs[i].state == RUNNING
    ensures var p, r := s.procs[i], Ticked(s).procs[i];
      r.qno == p.qno && |r.rr| == |p.rr| == NQ && p.qno < NQ && r.rr == p.rr[p.qno := p.rr[p.qno] + 1] && 0 <= p.rr[p.qno]
  {
    hide Inv, Ticked, InvBut;
    TickedKeeps(s);
    RunningOk(s);
  }

  lemma RunningPlace(s: State, i: nat)
    requires InvBut(s, i) && s.current == Some(i)
    ensures |s.procs| == NPROC && |s.q| == NQ && i < NPROC && s.procs[i].state == RUNNING && s.procs[i].qno < NQ && i in s.q[s.procs[i].qno]
    ensures forall k :: 1 <= k < NQ ==> NoDup(s.q[k])
  {
    InOwnQueue(s, i);
  }

  /** The MLFQ block on the state after the tick. */
  lemma SlicedExactly(s: State, i: nat)
    requires Shape(s) && i < NPROC && s.current == Some(i) && s.procs[i].state == RUNNING && i in s.q[s.procs[i].qno] && s.procs[i].rr[s.procs[i].qno] > 0
    requires forall k :: 1 <= k < NQ ==> NoDup(s.q[k])
    requires Shape(Sliced(s, i))
    ensures var p, t, k := s.procs[i], Sliced(s, i), s.procs[i].qno;
      var r, over := t.procs[i], p.rr[k] % SLICES[k] == 0;
      && (t.current == None <==> over || BetterWaits(t, i, k))
      && (t.current != None ==> t.current == Some(i))
      && r.state == (if t.current == None then RUNNABLE else RUNNING)
      && (over ==>
            && r.qno == (if k < 4 then k + 1 else 4) && r.rr[k] == 0 && r.rr[r.qno] == 0
            && ((k < 4 && i in s.q[k + 1]) || (t.q[r.qno] != [] && t.q[r.qno][|t.q[r.qno]| - 1] == i))
            && (1 <= k < 4 ==> i !in t.q[k]))
      && (!over ==> r.qno == k && r.rr == p.rr && t.q == s.q)
  {
    hide Sliced, BetterWaits, Moved, RemoveAt, IndexOf, AnyRunnable, NoDup;
    var k := s.procs[i].qno;
    assert SLICES[k] == Slice(k);
    if s.procs[i].rr[k] % Slice(k) != 0 {
      SliceGoesOn(s, i);
    } else if k < 4 {
      SliceDemotes(s, i);
    } else {
      SliceRotates(s, i);
    }
  }

  lemma SliceDemotes(s: State, i: nat)
    requires Shape(s) && i < NPROC && s.procs[i].qno < 4 && i in s.q[s.procs[i].qno]
    requires s.procs[i].rr[s.procs[i].qno] > 0 && s.procs[i].rr[s.procs[i].qno] % Slice(s.procs[i].qno) == 0
    requires forall k :: 1 <= k < NQ ==> NoDup(s.q[k])
    ensures var t, k := Sliced(s, i), s.procs[i].qno;
      && |t.q| == NQ && |t.procs| == NPROC && t.current == None && t.procs[i].state == RUNNABLE
      && t.procs[i].qno == k + 1 && |t.procs[i].rr| == NQ && t.procs[i].rr[k] == 0 && t.procs[i].rr[k + 1] == 0
      && (i in s.q[k + 1] || (t.q[k + 1] != [] && t.q[k + 1][|t.q[k + 1]| - 1] == i))
      && (1 <= k ==> i !in t.q[k])
  {
    hide IndexOf, NoDup, RemoveAt, AnyRunnable;
    var k := s.procs[i].qno;
    RemoveAtKeeps(s.q[k], IndexOf(s.q[k], i, k == 0));
  }

  lemma SliceRotates(s: State, i: nat)
    requires Shape(s) && i < NPROC && s.procs[i].qno == 4 && i in s.q[4]
    requires s.procs[i].rr[4] > 0 && s.procs[i].rr[4] % Slice(4) == 0
    ensures var t := Sliced(s, i);
      && |t.q| == NQ && |t.procs| == NPROC && t.current == None && t.procs[i].state == RUNNABLE
      && t.procs[i].qno == 4 && |t.procs[i].rr| == NQ && t.procs[i].rr[4] == 0
      && t.q[4] != [] && t.q[4][|t.q[4]| - 1] == i
  {
    hide IndexOf, AnyRunnable;
    assert Sliced(s, i).q[4] == RemoveAt(s.q[4], IndexOf(s.q[4], i, false)) + [i];
  }

  lemma SliceGoesOn(s: State, i: nat)
    requires Shape(s) && i < NPROC && s.current == Some(i) && s.procs[i].state == RUNNING
    requires s.procs[i].rr[s.procs[i].qno] > 0 && s.procs[i].rr[s.procs[i].qno] % Slice(s.procs[i].qno) != 0
    requires Shape(Sliced(s, i))
    ensures var t, k := Sliced(s, i), s.procs[i].qno;
      && (t.current == None <==> BetterWaits(t, i, k)) && (t.current != None ==> t.current == Some(i))
      && t.procs[i].state == (if t.current == None then RUNNABLE else RUNNING)
      && t.procs[i].qno == k && t.procs[i].rr == s.procs[i].rr && t.q == s.q
  {
    hide Moved, RemoveAt, IndexOf;
    var t, k := Sliced(s, i), s.procs[i].qno;
    assert forall j :: 0 <= j < NPROC && j != i ==> t.procs[j] == s.procs[j];
    WaitsIs(s, t, i, k);
  }

  lemma WaitsIs(s: State, t: State, i: nat, k: nat)
    requires Shape(s) && Shape(t) && i < NPROC && s.procs[i].state == RUNNING && k < NQ && t.q == s.q
    requires forall j :: 0 <= j < NPROC && j != i ==> t.procs[j] == s.procs[j]
    ensures (exists j :: 0 <= j < k && AnyRunnable(s, j)) <==> BetterWaits(t, i, k)
  {
    if j :| 0 <= j < k && AnyRunnable(s, j) {
      var m :| 0 <= m < |s.q[j]| && s.procs[s.q[j][m]].state == RUNNABLE;
      assert t.q[j][m] != i && t.procs[t.q[j][m]].state == RUNNABLE;
    }
    if BetterWaits(t, i, k) {
      var j, m :| 0 <= j < k && j < NQ && 0 <= m < |t.q[j]| && t.q[j][m] != i && t.procs[t.q[j][m]].state == RUNNABLE;
      assert AnyRunnable(s, j);
    }
  }

  // ---- A tick lets nobody overtake the running process ----

  lemma AheadRemoved(q: seq<nat>, m: nat, i: nat)
    requires m < |q| && q[m] != i && i in q
    ensures i in RemoveAt(q, m) && forall x :: x in Ahead(RemoveAt(q, m), i) ==> x in Ahead(q, i)
  {
    RemoveAtKeeps(q, m);
    var r, a, b := RemoveAt(q, m), IndexOf(q, i, false), IndexOf(RemoveAt(q, m), i, false);
    assert forall x :: 0 <= x < a ==> q[..a][x] == q[x];
    assert forall x :: 0 <= x < b ==> r[..b][x] == r[x];
    assert r[if m < a then a - 1 else a] == i;
    forall x | x in r[..b] ensures x in q[..a] {
      var y :| 0 <= y < b && r[y] == x;
      assert q[if y < m then y else y + 1] == x;
    }
  }

  lemma AheadAdded(q: seq<nat>, p: nat, i: nat)
    requires p != i && i in q
    ensures i in AddOnce(q, p) && Ahead(AddOnce(q, p), i) == Ahead(q, i)
  {
    var r, a, b := AddOnce(q, p), IndexOf(q, i, false), IndexOf(AddOnce(q, p), i, false);
    assert r[a] == i;
    assert forall x :: 0 <= x < a ==> q[..a][x] == q[x];
    assert forall x :: 0 <= x < b ==> r[..b][x] == r[x];
  }

  lemma AheadAgeOne(s: State, j: nat, i: nat, k: nat)
    requires Inv(s) && Shape(s) && j < NPROC && i < NPROC && s.procs[i].state == RUNNING && k < NQ && i in s.q[k]
    ensures i in AgeOne(s, j).q[k] && forall x :: x in Ahead(AgeOne(s, j).q[k], i) ==> x in Ahead(s.q[k], i)
    ensures k < NQ && forall l :: 0 <= l < NQ ==> (i in AgeOne(s, j).q[l] <==> i in s.q[l])
  {
    hide Inv, Ahead, RemoveAt, AddOnce;
    var p := s.procs[j];
    if p.state == RUNNABLE && Waited(p, s.ticks) > TIME_AGE && p.qno > 0 {
      InOwnQueueInv(s, j);
      var f := IndexOf(s.q[p.qno], j, false);
      if k == p.qno { AheadRemoved(s.q[k], f, i); }
      if k == p.qno - 1 { AheadAdded(s.q[k], j, i); }
      RemoveAtKeeps(s.q[p.qno], f);
      AddOnceHas(s.q[p.qno - 1], j, i);
    }
  }

  lemma AddOnceHas(q: seq<nat>, p: nat, i: nat)
    requires p != i
    ensures i in AddOnce(q, p) <==> i in q
  {
  }

  lemma {:induction false} AheadAged(s: State, n: nat, i: nat, k: nat)
    requires Inv(s) && Shape(s) && n <= NPROC && i < NPROC && s.procs[i].state == RUNNING && k < NQ && i in s.q[k]
    ensures i in Aged(s, n).q[k] && forall x :: x in Ahead(Aged(s, n).q[k], i) ==> x in Ahead(s.q[k], i)
    ensures forall l :: 0 <= l < NQ ==> (i in Aged(s, n).q[l] <==> i in s.q[l])
    decreases n
  {
    hide Inv, AgeOne, Ahead;
    if n > 0 {
      AheadAged(s, n - 1, i, k);
      AgedKeeps(s, n - 1);
      AheadAgeOne(Aged(s, n - 1), n - 1, i, k);
    }
  }

  lemma TickedQueues(s: State, i: nat)
    requires Inv(s) && Shape(s) && s.current == Some(i) && i < NPROC
    ensures s.procs[i].qno < NQ && forall x :: x in Ahead(Ticked(s).q[s.procs[i].qno], i) ==> x in Ahead(s.q[s.procs[i].qno], i)
    ensures forall l :: 0 <= l < NQ ==> (i in Ticked(s).q[l] <==> i in s.q[l])
  {
    hide Inv, Aged, Charged, Ahead;
    RunningOk(s);
    InOwnQueueInv(s, i);
    var woken := s.(ticks := s.ticks + 1, procs := Awakened(s.procs, TICKS_CHAN));
    AwakenedKeeps(s, TICKS_CHAN, s.ticks + 1);
    InvShape(woken);
    AheadAged(woken, NPROC, i, s.procs[i].qno);
  }
}
