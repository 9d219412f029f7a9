/** Runs on which the scheduler does not keep a promise: each lemma gives one, event by event. */
module MlfqRuns {
  import opened Common
  import opened MlfqSpec
  import opened MlfqProofs
  import opened MlfqTheorems

  // ---- Runs at tick 0 ----

  /** All processes were created at tick 0 and have not run; the slots in use are the first ones. */
  ghost predicate Snapshot(s: State, states: seq<ProcState>, q0: seq<nat>, current: Option<nat>) {
    && Shape(s) && s.ticks == 0 && s.current == current && s.q == [q0, [], [], [], []] && |states| <= NPROC && s.nextpid == |q0| + 1
    && (forall i :: 0 <= i < NPROC ==> s.procs[i].state == if i < |states| then states[i] else UNUSED)
    && (forall i :: 0 <= i < NPROC ==> s.procs[i].chan == 0 || s.procs[i].chan == 7)
    && (forall i :: 0 <= i < NPROC ==> s.procs[i].qno == 0 && s.procs[i].rr == ZEROS)
    && (forall i :: 0 <= i < NPROC && Live(s.procs[i]) ==> !s.procs[i].exiting)
    && (forall i :: 0 <= i < NPROC ==> s.procs[i].ctime == 0 && s.procs[i].rtime == 0 && s.procs[i].aging == 0)
  }

  lemma SnapFork(s: State, states: seq<ProcState>, states': seq<ProcState>, q0: seq<nat>, q0': seq<nat>, current: Option<nat>, i: nat)
    requires Snapshot(s, states, q0, current) && (current.Some? || s.nextpid == 1) && i < NPROC && i <= |states|
    requires (forall j :: 0 <= j < i ==> states[j] != UNUSED) && (i < |states| ==> states[i] == UNUSED)
    requires states' == (if i < |states| then states[i := RUNNABLE] else states + [RUNNABLE]) && q0' == q0 + [i]
    ensures Shape(s) && Enabled(s, Fork(true, true)) && Snapshot(Do(s, Fork(true, true)), states', q0', current)
    ensures forall j :: 0 <= j < NPROC && j != i ==> Do(s, Fork(true, true)).procs[j] == s.procs[j]
  {
    hide UnusedFrom;
    FirstUnused(s, states, q0, current, i);
  }

  lemma FirstUnused(s: State, states: seq<ProcState>, q0: seq<nat>, current: Option<nat>, i: nat)
    requires Snapshot(s, states, q0, current) && i < NPROC && i <= |states|
    requires (forall j :: 0 <= j < i ==> states[j] != UNUSED) && (i < |states| ==> states[i] == UNUSED)
    ensures UnusedFrom(s.procs, 0) == Some(i)
  {
    assert s.procs[i].state == UNUSED;
    assert forall j :: 0 <= j < i ==> s.procs[j].state != UNUSED;
  }

  lemma {:induction false} FirstRunnableIs(s: State, k: nat, j: nat, m: nat)
    requires Shape(s) && k < NQ && j <= m < |s.q[k]| && s.procs[s.q[k][m]].state == RUNNABLE
    requires forall l :: j <= l < m ==> s.procs[s.q[k][l]].state != RUNNABLE
    ensures FirstRunnable(s, k, j) == Some(s.q[k][m])
    decreases m - j
  {
    if j < m { FirstRunnableIs(s, k, j + 1, m); }
  }

  lemma SnapDispatch(s: State, states: seq<ProcState>, states': seq<ProcState>, q0: seq<nat>, m: nat)
    requires Snapshot(s, states, q0, None) && m < |q0| && q0[m] < |states| && states[q0[m]] == RUNNABLE
    requires forall l :: 0 <= l < m ==> q0[l] < |states| && states[q0[l]] != RUNNABLE
    requires states' == states[q0[m] := RUNNING]
    ensures Shape(s) && Enabled(s, Dispatch) && Snapshot(Do(s, Dispatch), states', q0, Some(q0[m]))
    ensures forall j :: 0 <= j < NPROC ==> Do(s, Dispatch).procs[j].chan == s.procs[j].chan && Do(s, Dispatch).procs[j].killed == s.procs[j].killed
  {
    FirstRunnableIs(s, 0, 0, m);
  }

  lemma SnapSleep(s: State, states: seq<ProcState>, states': seq<ProcState>, q0: seq<nat>, i: nat)
    requires Snapshot(s, states, q0, Some(i)) && i < |states| && states[i] == RUNNING && states' == states[i := SLEEPING]
    ensures Shape(s) && Enabled(s, Sleep(7)) && Snapshot(Do(s, Sleep(7)), states', q0, None) && Do(s, Sleep(7)).procs[i].chan == 7
    ensures forall j :: 0 <= j < NPROC && j != i ==> Do(s, Sleep(7)).procs[j] == s.procs[j]
  {
  }

  lemma SnapExit(s: State, q0: seq<nat>)
    requires Snapshot(s, [SLEEPING, RUNNING], q0, Some(1)) && s.procs[0].chan == 7
    ensures Shape(s) && Enabled(s, EnterExit)
    ensures var t := Do(s, EnterExit);
      Shape(t) && Enabled(t, Exit) && Snapshot(Do(t, Exit), [SLEEPING, ZOMBIE], q0, None) && Do(t, Exit).procs[0].chan == 7
  {
  }

  lemma SnapWake(s: State, q0: seq<nat>)
    requires Snapshot(s, [SLEEPING, ZOMBIE], q0, None) && s.procs[0].chan == 7
    ensures Shape(s) && Enabled(s, Wakeup(7)) && Snapshot(Do(s, Wakeup(7)), [RUNNABLE, ZOMBIE], q0, None)
  {
    assert s.procs[0].state == SLEEPING && s.procs[1].state == ZOMBIE;
  }

  lemma SnapReap(s: State, q0: seq<nat>)
    requires Snapshot(s, [RUNNING, ZOMBIE], q0, Some(0))
    ensures Shape(s) && Enabled(s, Reap(1)) && Snapshot(Do(s, Reap(1)), [RUNNING, UNUSED], q0, Some(0))
  {
    assert s.procs[1].state == ZOMBIE;
  }

  lemma {:induction false} AgedIdle(s: State, n: nat)
    requires Shape(s) && n <= NPROC
    requires forall i :: 0 <= i < NPROC ==> s.procs[i].state != RUNNABLE || Waited(s.procs[i], s.ticks) <= TIME_AGE
    ensures Aged(s, n) == s
    decreases n
  {
    if n > 0 { AgedIdle(s, n - 1); }
  }

  /** Slot 1 is in queue 0 twice; at the end of its slice it leaves only its last place there. */
  lemma SnapSlice(s: State)
    requires Snapshot(s, [SLEEPING, RUNNING, RUNNABLE], [0, 1, 1, 2], Some(1)) && s.procs[0].chan == 7
    ensures Shape(s) && Enabled(s, Timer(false))
    ensures var t := Do(s, Timer(false));
      && Shape(t) && Picked(t, 0) == Some(1) && t.procs[1].qno == 1
      && t.procs[2].state == RUNNABLE && t.procs[2].qno == 0
  {
    hide Snapshot, Aged, IndexOf, RemoveAt, Picked, FirstRunnable, Ticked;
    SnapTick(s, [SLEEPING, RUNNING, RUNNABLE], [0, 1, 1, 2]);
    TwoPlaces();
    var t := Sliced(Ticked(s), 1);
    assert t == TimerTrap(s, false);
    assert t.q[0] == [0, 1, 2];
    FirstRunnableIs(t, 0, 0, 1);
    PickedFirst(t);
  }

  lemma SnapTick(s: State, states: seq<ProcState>, q0: seq<nat>)
    requires 2 <= |states| && states[0] == SLEEPING && states[1] == RUNNING && SLEEPING !in states[2..]
    requires Snapshot(s, states, q0, Some(1)) && s.procs[0].chan == 7
    ensures Shape(s) && s.q[0] == q0 && s.procs[0].state == SLEEPING && s.procs[1].state == RUNNING
    ensures 2 < |states| ==> s.procs[2].state == states[2] && s.procs[2].qno == 0
    ensures var u := Ticked(s);
      && u.current == Some(1) && u.q == s.q && u.procs[0] == s.procs[0] && u.procs[2] == s.procs[2]
      && u.procs[1] == s.procs[1].(rr := [1, 0, 0, 0, 0], tk := u.procs[1].tk, rtime := 1, runtime := u.procs[1].runtime)
      && u.procs[1].qno == 0
  {
    hide Aged;
    var woken := s.(ticks := 1, procs := Awakened(s.procs, TICKS_CHAN));
    assert s.procs[0].state == SLEEPING && s.procs[1].state == RUNNING;
    forall j | 0 <= j < NPROC ensures s.procs[j].state == SLEEPING ==> j == 0 {
      if 2 <= j < |states| { assert states[j] == states[2..][j - 2]; }
    }
    assert woken.procs == s.procs;
    AgedIdle(woken, NPROC);
  }

  lemma PickedFirst(s: State)
    requires Shape(s) && FirstRunnable(s, 0, 0).Some?
    ensures Picked(s, 0) == FirstRunnable(s, 0, 0)
  {
  }

  lemma TwoPlaces()
    ensures IndexOf([0, 1, 1, 2], 1, true) == 2 && RemoveAt([0, 1, 1, 2], 2) == [0, 1, 2]
  {
    var q0: seq<nat> := [0, 1, 1, 2];
    assert q0[1] == 1;
    assert q0[2..][0] == 1;
  }

  lemma SnapInitial()
    ensures Snapshot(Initial(), [], [], None) && Initial().nextpid == 1 && Reaches([Initial()], [], Initial())
  {
    hide Inv;
  }

  /** A run that has reached state s. */
  ghost predicate Reaches(run: seq<State>, events: seq<Event>, s: State) {
    Run(run, events) && run[|events|] == s
  }

  lemma Extended(run: seq<State>, events: seq<Event>, s: State, e: Event) returns (run': seq<State>, events': seq<Event>)
    requires Reaches(run, events, s) && Shape(s) && Enabled(s, e)
    ensures Reaches(run', events', Do(s, e))
  {
    hide Do, Shape, Enabled, Initial, Inv;
    run', events' := run + [Do(s, e)], events + [e];
  }

  lemma ReachedRun(run: seq<State>, events: seq<Event>, s: State)
    requires Reaches(run, events, s)
    ensures Run(run, events) && |run| == |events| + 1 && s == run[|events|]
  {
  }

  lemma FirstChild() returns (run: seq<State>, events: seq<Event>, s: State)
    ensures Reaches(run, events, s) && Snapshot(s, [RUNNING, RUNNABLE], [0, 1], Some(0))
  {
    hide Do, Snapshot, Shape, Enabled, Initial, Inv, Reaches;
    run, events, s := [Initial()], [], Initial();
    SnapInitial();
    SnapFork(s, [], [RUNNABLE], [], [0], None, 0);
    run, events := Extended(run, events, s, Fork(true, true));
    s := Do(s, Fork(true, true));
    SnapDispatch(s, [RUNNABLE], [RUNNING], [0], 0);
    run, events := Extended(run, events, s, Dispatch);
    s := Do(s, Dispatch);
    SnapFork(s, [RUNNING], [RUNNING, RUNNABLE], [0], [0, 1], Some(0), 1);
    run, events := Extended(run, events, s, Fork(true, true));
    s := Do(s, Fork(true, true));
  }

  /** The child in slot 1 runs and exits, and its parent in slot 0 reaps it.  Queue 0 keeps its places. */
  lemma ChildExits(run0: seq<State>, events0: seq<Event>, s0: State, q0: seq<nat>) returns (run: seq<State>, events: seq<Event>, s: State)
    requires Reaches(run0, events0, s0) && Snapshot(s0, [RUNNING, RUNNABLE], q0, Some(0)) && 2 <= |q0| && q0[0] == 0 && q0[1] == 1
    ensures Reaches(run, events, s) && Snapshot(s, [RUNNING, UNUSED], q0, Some(0))
  {
    hide Do, Snapshot, Shape, Enabled, Initial, Inv, Reaches;
    SnapSleep(s0, [RUNNING, RUNNABLE], [SLEEPING, RUNNABLE], q0, 0);
    run, events := Extended(run0, events0, s0, Sleep(7));
    s := Do(s0, Sleep(7));
    SnapDispatch(s, [SLEEPING, RUNNABLE], [SLEEPING, RUNNING], q0, 1);
    run, events := Extended(run, events, s, Dispatch);
    s := Do(s, Dispatch);
    SnapExit(s, q0);
    run, events := Extended(run, events, s, EnterExit);
    s := Do(s, EnterExit);
    run, events := Extended(run, events, s, Exit);
    s := Do(s, Exit);
    SnapWake(s, q0);
    run, events := Extended(run, events, s, Wakeup(7));
    s := Do(s, Wakeup(7));
    SnapDispatch(s, [RUNNABLE, ZOMBIE], [RUNNING, ZOMBIE], q0, 0);
    run, events := Extended(run, events, s, Dispatch);
    s := Do(s, Dispatch);
    SnapReap(s, q0);
    run, events := Extended(run, events, s, Reap(1));
    s := Do(s, Reap(1));
  }

  // ---- A killed process can keep a used-up slice ----

  lemma SnapKill(s: State, states: seq<ProcState>, q0: seq<nat>, current: Option<nat>)
    requires Snapshot(s, states, q0, current) && 1 < |states| && states[1] != SLEEPING
    ensures Shape(s) && Enabled(s, Kill(1)) && Snapshot(Do(s, Kill(1)), states, q0, current) && Do(s, Kill(1)).procs[1].killed
  {
  }

  /** The interrupt sends the killed process to exit() with its slice of one tick used up, and it sleeps there. */
  lemma SnapKilled(s: State)
    requires Snapshot(s, [SLEEPING, RUNNING], [0, 1], Some(1)) && s.procs[0].chan == 7 && s.procs[1].killed
    ensures Shape(s) && Enabled(s, Timer(true))
    ensures var t := Do(s, Timer(true));
      && Shape(t) && Enabled(t, Sleep(9))
      && var p := Do(t, Sleep(9)).procs[1]; p.state == SLEEPING && p.killed && p.exiting && p.qno == 0 && p.rr[0] == 1
  {
    hide Ticked, Aged;
    SnapTick(s, [SLEEPING, RUNNING], [0, 1]);
  }

  /** Process 0 forks a child, kills it before it has run, and sleeps; the first tick finds the child in user
      code.  The child then sleeps inside exit() with rr[qno] == Slice(qno). */
  lemma KilledKeepsSlice() returns (run: seq<State>, events: seq<Event>, s: State)
    ensures Run(run, events) && s == run[|events|]
    ensures Shape(s) && Live(s.procs[1]) && s.procs[1].killed && s.procs[1].rr[s.procs[1].qno] == Slice(s.procs[1].qno)
  {
    hide Do, Snapshot, Shape, Enabled, Initial, Inv, Reaches;
    run, events, s := FirstChild();
    SnapKill(s, [RUNNING, RUNNABLE], [0, 1], Some(0));
    run, events := Extended(run, events, s, Kill(1));
    s := Do(s, Kill(1));
    SnapSleep(s, [RUNNING, RUNNABLE], [SLEEPING, RUNNABLE], [0, 1], 0);
    run, events := Extended(run, events, s, Sleep(7));
    s := Do(s, Sleep(7));
    SnapDispatch(s, [SLEEPING, RUNNABLE], [SLEEPING, RUNNING], [0, 1], 1);
    run, events := Extended(run, events, s, Dispatch);
    s := Do(s, Dispatch);
    SnapKilled(s);
    run, events := Extended(run, events, s, Timer(true));
    s := Do(s, Timer(true));
    run, events := Extended(run, events, s, Sleep(9));
    s := Do(s, Sleep(9));
    ReachedRun(run, events, s);
    RunKeeps(run, events, |events|);
    InvShape(s);
  }

  // ---- A reused slot inverts the priorities ----

  /** So the scheduler can dispatch a process of level 1 while one of level 0 is RUNNABLE.
      Process 0 forks a child and sleeps; the child exits; process 0 reaps it, forks twice (the first fork
      reuses slot 1) and sleeps; slot 1 runs for one tick. */
  lemma ReuseInvertsPriority() returns (run: seq<State>, events: seq<Event>, s: State)
    ensures Run(run, events) && s == run[|events|]
    ensures Shape(s) && Picked(s, 0) == Some(1) && s.procs[1].qno == 1
    ensures s.procs[2].state == RUNNABLE && s.procs[2].qno == 0
  {
    hide Do, Snapshot, Shape, Enabled, Picked, Reaches, Initial, Inv;
    run, events, s := FirstChild();
    run, events, s := ChildExits(run, events, s, [0, 1]);
    run, events, s := ReuseRuns(run, events, s);
    assert Run(run, events) && s == run[|events|] by { ReachedRun(run, events, s); }
  }

  lemma ReuseRuns(run0: seq<State>, events0: seq<Event>, s0: State) returns (run: seq<State>, events: seq<Event>, s: State)
    requires Reaches(run0, events0, s0) && Snapshot(s0, [RUNNING, UNUSED], [0, 1], Some(0))
    ensures Reaches(run, events, s)
    ensures Shape(s) && Picked(s, 0) == Some(1) && s.procs[1].qno == 1
    ensures s.procs[2].state == RUNNABLE && s.procs[2].qno == 0
  {
    hide Do, Snapshot, Shape, Enabled, Picked, Reaches, Initial, Inv;
    run, events, s := run0, events0, s0;
    SnapFork(s, [RUNNING, UNUSED], [RUNNING, RUNNABLE], [0, 1], [0, 1, 1], Some(0), 1);
    run, events := Extended(run, events, s, Fork(true, true));
    s := Do(s, Fork(true, true));
    SnapFork(s, [RUNNING, RUNNABLE], [RUNNING, RUNNABLE, RUNNABLE], [0, 1, 1], [0, 1, 1, 2], Some(0), 2);
    run, events := Extended(run, events, s, Fork(true, true));
    s := Do(s, Fork(true, true));
    SnapSleep(s, [RUNNING, RUNNABLE, RUNNABLE], [SLEEPING, RUNNABLE, RUNNABLE], [0, 1, 1, 2], 0);
    run, events := Extended(run, events, s, Sleep(7));
    s := Do(s, Sleep(7));
    SnapDispatch(s, [SLEEPING, RUNNABLE, RUNNABLE], [SLEEPING, RUNNING, RUNNABLE], [0, 1, 1, 2], 1);
    run, events := Extended(run, events, s, Dispatch);
    s := Do(s, Dispatch);
    SnapSlice(s);
    run, events := Extended(run, events, s, Timer(false));
    s := Do(s, Timer(false));
  }

  // ---- Short-lived children fill queue 0 ----

  /** For every n there is a run of n processes, all but one of them gone, whose n places are all in queue 0, and
      a next fork finds a slot.  With n == 1000 that fork writes past the end of the array q0. */
  lemma {:induction false} ChildrenFillQueue(n: nat) returns (run: seq<State>, events: seq<Event>, s: State, q0: seq<nat>)
    requires 2 <= n
    ensures Reaches(run, events, s) && Snapshot(s, [RUNNING, UNUSED], q0, Some(0)) && |q0| == n && q0[0] == 0 && q0[1] == 1
    decreases n
  {
    hide Do, Snapshot, Shape, Enabled, Initial, Inv, Reaches;
    if n == 2 {
      q0 := [0, 1];
      run, events, s := FirstChild();
    } else {
      run, events, s, q0 := ChildrenFillQueue(n - 1);
      SnapFork(s, [RUNNING, UNUSED], [RUNNING, RUNNABLE], q0, q0 + [1], Some(0), 1);
      run, events := Extended(run, events, s, Fork(true, true));
      s := Do(s, Fork(true, true));
      q0 := q0 + [1];
    }
    run, events, s := ChildExits(run, events, s, q0);
  }

  lemma SnapFull(s: State, q0: seq<nat>)
    requires Snapshot(s, [RUNNING, UNUSED], q0, Some(0))
    ensures Shape(s) && s.q[0] == q0 && Entries(s.q) == s.nextpid - 1 == |q0| && Enabled(s, Fork(true, true)) && UnusedFrom(s.procs, 0).Some?
  {
    assert s.procs[1].state == UNUSED;
  }

  /** The bound of QueueCapacity is reached, whatever its size. */
  lemma QueueOverflows(n: nat) returns (run: seq<State>, events: seq<Event>, s: State)
    requires 2 <= n
    ensures Run(run, events) && s == run[|events|]
    ensures Shape(s) && |s.q[0]| == n == s.nextpid - 1 && Enabled(s, Fork(true, true)) && UnusedFrom(s.procs, 0).Some?
  {
    hide Do, Snapshot, Shape, Enabled, Initial, Inv, Reaches;
    var q0;
    run, events, s, q0 := ChildrenFillQueue(n);
    SnapFull(s, q0);
    assert Run(run, events) && s == run[|events|] by { ReachedRun(run, events, s); }
  }
}
