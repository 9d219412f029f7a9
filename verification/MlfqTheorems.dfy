/** The scheduler's promises over whole runs. */
module MlfqTheorems {
  import opened Common
  import opened MlfqSpec
  import opened MlfqProofs

  // ---- Membership and dispatch ----

  lemma {:induction false} NoDupBounded(q: seq<nat>, n: nat)
    requires NoDup(q) && forall i :: 0 <= i < |q| ==> q[i] < n
    ensures |q| <= n
    decreases n
  {
    hide NoDup, RemoveAt;
    if q != [] {
      assert 0 <= q[0] < n;
      if n - 1 in q {
        var m :| 0 <= m < |q| && q[m] == n - 1;
        WithoutLargest(q, m, n);
        NoDupBounded(RemoveAt(q, m), n - 1);
      } else {
        forall i | 0 <= i < |q| ensures q[i] < n - 1 { assert q[i] in q; }
        NoDupBounded(q, n - 1);
      }
    }
  }

  lemma WithoutLargest(q: seq<nat>, m: nat, n: nat)
    requires NoDup(q) && m < |q| && q[m] == n - 1 && forall i :: 0 <= i < |q| ==> q[i] < n
    ensures var r := RemoveAt(q, m); NoDup(r) && |r| == |q| - 1 && forall i :: 0 <= i < |r| ==> r[i] < n - 1
  {
    RemoveAtKeeps(q, m);
    var r := RemoveAt(q, m);
    forall i | 0 <= i < |r| ensures r[i] < n - 1 { assert r[i] in r; }
  }

  /** In every state of every run, with or without slot reuse, each process in use is in the queue of its
      level, and queues 1 to 4 hold no slot twice, so they never exceed NPROC entries. */
  lemma Membership(run: seq<State>, events: seq<Event>, n: nat)
    requires Run(run, events) && n < |run|
    ensures Shape(run[n])
    ensures forall i :: 0 <= i < NPROC && run[n].procs[i].state != UNUSED ==> i in run[n].q[run[n].procs[i].qno]
    ensures forall k :: 1 <= k < NQ ==> NoDup(run[n].q[k]) && |run[n].q[k]| <= NPROC
  {
    RunKeeps(run, events, n);
    forall k | 1 <= k < NQ ensures |run[n].q[k]| <= NPROC {
      NoDupBounded(run[n].q[k], NPROC);
    }
  }

  lemma {:induction false} PickedNone(s: State, k: nat)
    requires Shape(s) && k <= NQ && Picked(s, k).None?
    ensures forall l, m :: k <= l < NQ && 0 <= m < |s.q[l]| ==> s.procs[s.q[l][m]].state != RUNNABLE
    decreases NQ - k
  {
    if k < NQ { PickedNone(s, k + 1); }
  }

  /** The pass finds its process at the first level whose queue holds a RUNNABLE one, at the first such place. */
  lemma {:induction false} PickedPlace(s: State, k: nat) returns (l: nat, m: nat)
    requires Shape(s) && k <= NQ && Picked(s, k).Some?
    ensures k <= l < NQ && m < |s.q[l]| && Picked(s, k) == Some(s.q[l][m])
    ensures forall x, y :: k <= x < l && 0 <= y < |s.q[x]| ==> s.procs[s.q[x][y]].state != RUNNABLE
    ensures forall y :: 0 <= y < m ==> s.procs[s.q[l][y]].state != RUNNABLE
    decreases NQ - k
  {
    if FirstRunnable(s, k, 0).Some? {
      l := k;
      m :| 0 <= m < |s.q[k]| && s.q[k][m] == Picked(s, k).value && forall y :: 0 <= y < m ==> s.procs[s.q[k][y]].state != RUNNABLE;
    } else {
      l, m := PickedPlace(s, k + 1);
    }
  }

  /** A scheduler pass dispatches a process whenever one is RUNNABLE. */
  lemma WorkConserving(run: seq<State>, events: seq<Event>, n: nat)
    requires Run(run, events) && n < |run|
    ensures Shape(run[n])
    ensures Picked(run[n], 0).Some? <==> exists i :: 0 <= i < NPROC && run[n].procs[i].state == RUNNABLE
  {
    Membership(run, events, n);
    var s := run[n];
    if Picked(s, 0).None? {
      PickedNone(s, 0);
      forall i | 0 <= i < NPROC ensures s.procs[i].state != RUNNABLE {
        if s.procs[i].state != UNUSED {
          var m :| 0 <= m < |s.q[s.procs[i].qno]| && s.q[s.procs[i].qno][m] == i;
        }
      }
    } else {
      assert s.procs[Picked(s, 0).value].state == RUNNABLE;
    }
  }

  // ---- Runs without slot reuse ----

  /** Every slot has at most one place in all the queues together. */
  ghost predicate Once(q: seq<seq<nat>>)
    requires |q| == NQ
  {
    forall k, m, l, j | 0 <= k < NQ && 0 <= m < |q[k]| && 0 <= l < NQ && 0 <= j < |q[l]| :: q[k][m] == q[l][j] ==> k == l && m == j
  }

  ghost predicate InNoQueue(q: seq<seq<nat>>, i: nat)
    requires |q| == NQ
  {
    forall k :: 0 <= k < NQ ==> i !in q[k]
  }

  /** No fork takes a slot that a queue still holds from an earlier process. */
  ghost predicate WithoutReuse(run: seq<State>, events: seq<Event>)
    requires Run(run, events)
  {
    forall n :: 0 <= n < |events| && events[n].Fork? && UnusedFrom(run[n].procs, 0).Some? ==>
      InNoQueue(run[n].q, UnusedFrom(run[n].procs, 0).value)
  }

  lemma OnceMoved(q: seq<seq<nat>>, i: nat, from: nat, to: nat, last: bool)
    requires |q| == NQ && Once(q) && from < NQ && to < NQ && from != to && i in q[from]
    ensures |Moved(q, i, from, to, last)| == NQ && Once(Moved(q, i, from, to, last))
  {
    hide Moved;
    var r := Moved(q, i, from, to, last);
    forall k, m, l, j | 0 <= k < NQ && 0 <= m < |r[k]| && 0 <= l < NQ && 0 <= j < |r[l]| && r[k][m] == r[l][j]
      ensures k == l && m == j
    {
      var m' := MovedEntry(q, i, from, to, last, k, m);
      var j' := MovedEntry(q, i, from, to, last, l, j);
    }
  }

  /** Where the entry at place m of queue k was before slot i moved to the end of queue `to`. */
  lemma MovedEntry(q: seq<seq<nat>>, i: nat, from: nat, to: nat, last: bool, k: nat, m: nat) returns (m': nat)
    requires |q| == NQ && Once(q) && from < NQ && to < NQ && from != to && i in q[from]
    requires |Moved(q, i, from, to, last)| == NQ && k < NQ && m < |Moved(q, i, from, to, last)[k]|
    ensures var r, f := Moved(q, i, from, to, last), IndexOf(q[from], i, last);
      if r[k][m] == i then k == to && m == |q[to]|
      else m' < |q[k]| && q[k][m'] == r[k][m] && m' == if k == from && m >= f then m + 1 else m
  {
    var f := IndexOf(q[from], i, last);
    assert q[from][f] == i;
    assert i !in q[to];
    m' := if k == from && m >= f then m + 1 else m;
  }

  lemma {:induction false} OnceAged(s: State, n: nat)
    requires Inv(s) && Shape(s) && Once(s.q) && n <= NPROC
    ensures Once(Aged(s, n).q)
    decreases n
  {
    hide Inv, Once, Moved;
    if n > 0 {
      OnceAged(s, n - 1);
      AgedKeeps(s, n - 1);
      var t, i := Aged(s, n - 1), n - 1;
      InvShape(t);
      var p := t.procs[i];
      if p.state == RUNNABLE && Waited(p, t.ticks) > TIME_AGE && p.qno > 0 {
        InOwnQueueInv(t, i);
        OnceMoved(t.q, i, p.qno, p.qno - 1, false);
      }
    }
  }

  lemma InOwnQueueInv(s: State, i: nat)
    requires Inv(s) && i < NPROC && s.procs[i].state != UNUSED
    ensures s.procs[i].qno < NQ && i in s.q[s.procs[i].qno]
  {
  }

  lemma OnceRotated(q: seq<seq<nat>>, i: nat)
    requires |q| == NQ && Once(q) && i in q[4]
    ensures Once(q[4 := RemoveAt(q[4] + [i], IndexOf(q[4], i, false))])
  {
    var f := IndexOf(q[4], i, false);
    var r := q[4 := RemoveAt(q[4] + [i], f)];
    assert q[4][f] == i;
    assert r[4] == RemoveAt(q[4], f) + [i];
    forall k, m, l, j | 0 <= k < NQ && 0 <= m < |r[k]| && 0 <= l < NQ && 0 <= j < |r[l]| && r[k][m] == r[l][j]
      ensures k == l && m == j
    {
      var m' := if k == 4 && m >= f then m + 1 else m;
      var j' := if l == 4 && j >= f then j + 1 else j;
      if r[k][m] != i {
        assert q[k][m'] == q[l][j'];
      }
    }
  }

  lemma OnceTimer(s: State, user: bool)
    requires Inv(s) && Shape(s) && Once(s.q)
    ensures |TimerTrap(s, user).q| == NQ && Once(TimerTrap(s, user).q)
  {
    hide Inv, Once, Moved, Aged, RemoveAt, AnyRunnable, Charged;
    AwakenedKeeps(s, TICKS_CHAN, s.ticks + 1);
    var woken := s.(ticks := s.ticks + 1, procs := Awakened(s.procs, TICKS_CHAN));
    InvShape(woken);
    OnceAged(woken, NPROC);
    TickedKeeps(s);
    var u := Ticked(s);
    assert Once(u.q);
    if u.current.Some? { OnceSliced(u, u.current.value); }
  }

  lemma OnceSliced(s: State, i: nat)
    requires InvBut(s, i) && Shape(s) && s.current == Some(i) && Once(s.q)
    ensures |Sliced(s, i).q| == NQ && Once(Sliced(s, i).q)
  {
    hide Once, Moved, RemoveAt, AnyRunnable, ProcOk, PidsOk;
    InOwnQueue(s, i);
    var k := s.procs[i].qno;
    if k < 4 { OnceMoved(s.q, i, k, k + 1, k == 0); } else { OnceRotated(s.q, i); }
  }

  lemma OnceForked(q: seq<seq<nat>>, i: nat)
    requires |q| == NQ && Once(q) && InNoQueue(q, i)
    ensures Once(q[0 := q[0] + [i]])
  {
    var r := q[0 := q[0] + [i]];
    forall k, m, l, j | 0 <= k < NQ && 0 <= m < |r[k]| && 0 <= l < NQ && 0 <= j < |r[l]| && r[k][m] == r[l][j]
      ensures k == l && m == j
    {
      assert m < |q[k]| ==> q[k][m] in q[k];
      assert j < |q[l]| ==> q[l][j] in q[l];
    }
  }

  lemma {:induction false} OnceKept(run: seq<State>, events: seq<Event>, n: nat)
    requires Run(run, events) && WithoutReuse(run, events) && n < |run|
    ensures |run[n].q| == NQ && Once(run[n].q)
    decreases n
  {
    hide Inv, Once, InNoQueue, Do;
    if n == 0 {
      OnceInitially();
    } else {
      OnceKept(run, events, n - 1);
      RunKeeps(run, events, n - 1);
      OnceStep(run[n - 1], events[n - 1]);
    }
  }

  lemma OnceInitially()
    ensures Once(Initial().q)
  {
    hide Inv, Repeat;
  }

  lemma OnceStep(s: State, e: Event)
    requires Inv(s) && Shape(s) && Enabled(s, e) && Once(s.q)
    requires e.Fork? && UnusedFrom(s.procs, 0).Some? ==> InNoQueue(s.q, UnusedFrom(s.procs, 0).value)
    ensures |Do(s, e).q| == NQ && Once(Do(s, e).q)
  {
    hide Inv, Once, InNoQueue, TimerTrap, Picked;
    match e {
      case Timer(user) => OnceTimer(s, user);
      case Fork(_, _) =>
        if UnusedFrom(s.procs, 0).Some? { OnceForked(s.q, UnusedFrom(s.procs, 0).value); }
      case _ =>
    }
  }

  /** Slot p also has a place in the queue of a better level than its own. */
  ghost predicate Stale(s: State, p: nat)
    requires Shape(s) && p < NPROC
  {
    exists l :: 0 <= l < s.procs[p].qno && l < NQ && p in s.q[l]
  }

  /** m is the best level that a RUNNABLE process has. */
  ghost predicate BestLevel(s: State, m: nat)
    requires Shape(s)
  {
    && (exists i :: 0 <= i < NPROC && s.procs[i].state == RUNNABLE && s.procs[i].qno == m)
    && (forall i :: 0 <= i < NPROC && s.procs[i].state == RUNNABLE ==> m <= s.procs[i].qno)
  }

  ghost predicate Earlier(l: nat, j: nat, l': nat, j': nat) {
    l < l' || (l == l' && j < j')
  }

  /** Place j of queue l has a RUNNABLE process of a level below m, and comes before every place that a RUNNABLE
      process of level m has. */
  ghost predicate Overtakes(s: State, m: nat, l: nat, j: nat)
    requires Shape(s) && l < NQ && j < |s.q[l]|
  {
    && s.procs[s.q[l][j]].state == RUNNABLE && m < s.procs[s.q[l][j]].qno
    && forall l', j' | 0 <= l' < NQ && 0 <= j' < |s.q[l']| ::
         s.procs[s.q[l'][j']].state == RUNNABLE && s.procs[s.q[l'][j']].qno == m ==> Earlier(l, j, l', j')
  }

  /** In every run, slot reuse included: the scheduler dispatches a process of the best level if and only if
      no place overtakes that level, and a place that does is a stale one, in queue m or a better one. */
  lemma PriorityExactly(run: seq<State>, events: seq<Event>, n: nat, m: nat)
    requires Run(run, events) && n < |run|
    ensures Shape(run[n])
    ensures BestLevel(run[n], m) ==>
      var s := run[n];
      && Picked(s, 0).Some?
      && (s.procs[Picked(s, 0).value].qno == m <==> !exists l, j :: 0 <= l < NQ && 0 <= j < |s.q[l]| && Overtakes(s, m, l, j))
      && (s.procs[Picked(s, 0).value].qno != m ==> Stale(s, Picked(s, 0).value))
      && forall l, j :: 0 <= l < NQ && 0 <= j < |s.q[l]| && Overtakes(s, m, l, j) ==> l <= m && Stale(s, s.q[l][j])
  {
    Membership(run, events, n);
    WorkConserving(run, events, n);
    if BestLevel(run[n], m) {
      OvertakersAreStale(run[n], m);
      PickedOvertakes(run[n], m);
    }
  }

  lemma OvertakersAreStale(s: State, m: nat)
    requires Shape(s) && BestLevel(s, m)
    requires forall i :: 0 <= i < NPROC && s.procs[i].state != UNUSED ==> i in s.q[s.procs[i].qno]
    ensures forall l, j :: 0 <= l < NQ && 0 <= j < |s.q[l]| && Overtakes(s, m, l, j) ==> l <= m && Stale(s, s.q[l][j])
  {
    var i :| 0 <= i < NPROC && s.procs[i].state == RUNNABLE && s.procs[i].qno == m;
    var x :| 0 <= x < |s.q[m]| && s.q[m][x] == i;
    forall l, j | 0 <= l < NQ && 0 <= j < |s.q[l]| && Overtakes(s, m, l, j) ensures l <= m && Stale(s, s.q[l][j]) {
      assert Earlier(l, j, m, x);
      assert s.q[l][j] in s.q[l];
    }
  }

  /** The first RUNNABLE place is the one that the pass finds, so it overtakes if any place does. */
  lemma PickedOvertakes(s: State, m: nat)
    requires Shape(s) && BestLevel(s, m) && Picked(s, 0).Some?
    ensures s.procs[Picked(s, 0).value].qno == m <==> !exists l, j :: 0 <= l < NQ && 0 <= j < |s.q[l]| && Overtakes(s, m, l, j)
    ensures s.procs[Picked(s, 0).value].qno != m ==>
      exists l, j :: 0 <= l < NQ && 0 <= j < |s.q[l]| && s.q[l][j] == Picked(s, 0).value && Overtakes(s, m, l, j)
  {
    var l, j := PickedPlace(s, 0);
    assert forall l', j' | 0 <= l' < NQ && 0 <= j' < |s.q[l']| ::
      s.procs[s.q[l'][j']].state == RUNNABLE ==> Earlier(l, j, l', j') || (l == l' && j == j');
    if s.procs[s.q[l][j]].qno != m { assert Overtakes(s, m, l, j); }
  }

  /** Some RUNNABLE process has the best level. */
  lemma {:induction false} BestExists(s: State, i: nat) returns (m: nat)
    requires Shape(s) && i < NPROC && s.procs[i].state == RUNNABLE
    ensures BestLevel(s, m)
    decreases s.procs[i].qno
  {
    m := s.procs[i].qno;
    if j :| 0 <= j < NPROC && s.procs[j].state == RUNNABLE && s.procs[j].qno < m { m := BestExists(s, j); }
  }

  /** So a dispatched process that is not stale has the best level. */
  lemma OnlyStaleInverts(run: seq<State>, events: seq<Event>, n: nat)
    requires Run(run, events) && n < |run|
    ensures Shape(run[n])
    ensures Picked(run[n], 0).Some? && !Stale(run[n], Picked(run[n], 0).value) ==>
      forall i :: 0 <= i < NPROC && run[n].procs[i].state == RUNNABLE ==> run[n].procs[Picked(run[n], 0).value].qno <= run[n].procs[i].qno
  {
    hide Overtakes, Stale, Picked;
    Membership(run, events, n);
    var s := run[n];
    if Picked(s, 0).Some? && !Stale(s, Picked(s, 0).value) {
      var m := BestExists(s, Picked(s, 0).value);
      PriorityExactly(run, events, n, m);
    }
  }

  /** Before any slot is reused no slot is stale, so the dispatched process has the smallest level among the RUNNABLE
      ones, and it comes first among those of its level. */
  lemma HighestPriority(run: seq<State>, events: seq<Event>, n: nat)
    requires Run(run, events) && WithoutReuse(run, events) && n < |run|
    ensures Shape(run[n]) && |run[n].q| == NQ && Once(run[n].q)
    ensures Picked(run[n], 0).Some? ==>
      var s, p := run[n], Picked(run[n], 0).value;
      forall i :: 0 <= i < NPROC && s.procs[i].state == RUNNABLE ==>
        && s.procs[p].qno <= s.procs[i].qno
        && (s.procs[p].qno == s.procs[i].qno ==> IndexOf(s.q[s.procs[i].qno], p, false) <= IndexOf(s.q[s.procs[i].qno], i, false))
  {
    hide Once, Stale, Picked, IndexOf;
    OnceKept(run, events, n);
    Membership(run, events, n);
    OnlyStaleInverts(run, events, n);
    if Picked(run[n], 0).Some? {
      NotStale(run[n], Picked(run[n], 0).value);
      FirstAmongEquals(run[n]);
    }
  }

  lemma NotStale(s: State, p: nat)
    requires Shape(s) && Once(s.q) && p < NPROC && p in s.q[s.procs[p].qno]
    ensures !Stale(s, p)
  {
  }

  lemma FirstAmongEquals(s: State)
    requires Shape(s) && Once(s.q) && Picked(s, 0).Some?
    requires forall i :: 0 <= i < NPROC && s.procs[i].state != UNUSED ==> i in s.q[s.procs[i].qno]
    ensures var p := Picked(s, 0).value;
      forall i :: 0 <= i < NPROC && s.procs[i].state == RUNNABLE && s.procs[p].qno == s.procs[i].qno ==>
        IndexOf(s.q[s.procs[i].qno], p, false) <= IndexOf(s.q[s.procs[i].qno], i, false)
  {
    var p := Picked(s, 0).value;
    var l, m := PickedPlace(s, 0);
    var a := IndexOf(s.q[s.procs[p].qno], p, false);
    assert s.q[s.procs[p].qno][a] == s.q[l][m];
    forall i | 0 <= i < NPROC && s.procs[i].state == RUNNABLE && s.procs[i].qno == l ensures m <= IndexOf(s.q[l], i, false) {
      var b := IndexOf(s.q[s.procs[i].qno], i, false);
      assert s.q[s.procs[i].qno][b] == i;
    }
  }

  // ---- How many places the queues take ----

  lemma {:induction false} AgedEntries(s: State, n: nat)
    requires Inv(s) && Shape(s) && n <= NPROC
    ensures Entries(Aged(s, n).q) <= Entries(s.q)
    decreases n
  {
    hide Inv, AgeOne, Entries;
    if n > 0 {
      AgedEntries(s, n - 1);
      AgedKeeps(s, n - 1);
      AgeOneEntries(Aged(s, n - 1), n - 1);
    }
  }

  lemma SlicedEntries(s: State, i: nat)
    requires InvBut(s, i) && Shape(s) && s.current == Some(i)
    ensures |Sliced(s, i).q| == NQ && Entries(Sliced(s, i).q) <= Entries(s.q)
  {
    hide Moved, AnyRunnable, ProcOk, PidsOk;
    InOwnQueue(s, i);
    var k := s.procs[i].qno;
    if k < 4 { EntriesMoved(s.q, i, k, k + 1, k == 0); }
  }

  lemma TimerEntries(s: State, user: bool)
    requires Inv(s) && Shape(s)
    ensures |TimerTrap(s, user).q| == NQ && Entries(TimerTrap(s, user).q) <= Entries(s.q) && TimerTrap(s, user).nextpid == s.nextpid
  {
    hide Inv, Entries, Moved, Aged, RemoveAt, AnyRunnable, Charged, AgeOne;
    AwakenedKeeps(s, TICKS_CHAN, s.ticks + 1);
    var woken := s.(ticks := s.ticks + 1, procs := Awakened(s.procs, TICKS_CHAN));
    InvShape(woken);
    AgedEntries(woken, NPROC);
    AgedPid(woken, NPROC);
    TickedKeeps(s);
    var u := Ticked(s);
    if u.current.Some? { SlicedEntries(u, u.current.value); }
  }

  lemma {:induction false} AgedPid(s: State, n: nat)
    requires Shape(s) && n <= NPROC
    ensures Aged(s, n).nextpid == s.nextpid
    decreases n
  {
    hide Moved;
    if n > 0 { AgedPid(s, n - 1); }
  }

  lemma EntriesStep(s: State, e: Event)
    requires Inv(s) && Shape(s) && Enabled(s, e)
    ensures var t := Do(s, e); |t.q| == NQ && Entries(t.q) - Entries(s.q) <= t.nextpid - s.nextpid
  {
    hide Inv, TimerTrap, Picked;
    if e.Timer? { TimerEntries(s, e.user); }
  }

  /** Every fork adds one place and nothing else adds any. */
  lemma {:induction false} EntriesBounded(run: seq<State>, events: seq<Event>, n: nat)
    requires Run(run, events) && n < |run|
    ensures |run[n].q| == NQ && Entries(run[n].q) < run[n].nextpid
    decreases n
  {
    hide Inv, Do;
    if n == 0 {
      InitialEntries();
    } else {
      EntriesBounded(run, events, n - 1);
      RunKeeps(run, events, n - 1);
      EntriesStep(run[n - 1], events[n - 1]);
    }
  }

  lemma InitialEntries()
    ensures |Initial().q| == NQ && Entries(Initial().q) < Initial().nextpid
  {
    hide Inv, Repeat;
  }

  lemma NoDupConcat(a: seq<nat>, b: seq<nat>)
    requires NoDup(a) && NoDup(b) && forall x :: x in a ==> x !in b
    ensures NoDup(a + b)
  {
    forall i, j | 0 <= i < j < |a + b| ensures (a + b)[i] != (a + b)[j] {
      if i < |a| <= j { assert a[i] in a && b[j - |a|] in b; }
    }
  }

  lemma OnceFew(q: seq<seq<nat>>)
    requires |q| == NQ && Once(q) && forall k, i :: 0 <= k < NQ && 0 <= i < |q[k]| ==> q[k][i] < NPROC
    ensures Entries(q) <= NPROC
  {
    assert forall k :: 0 <= k < NQ ==> NoDup(q[k]);
    forall k, l, x | 0 <= k < l < NQ && x in q[k] ensures x !in q[l] {
      var m :| 0 <= m < |q[k]| && q[k][m] == x;
    }
    hide Once, NoDup;
    NoDupConcat(q[0], q[1]);
    NoDupConcat(q[0] + q[1], q[2]);
    NoDupConcat(q[0] + q[1] + q[2], q[3]);
    NoDupConcat(q[0] + q[1] + q[2] + q[3], q[4]);
    NoDupBounded(q[0] + q[1] + q[2] + q[3] + q[4], NPROC);
  }

  /** In every run the five queues together take at most one place for each process ever created, and at most
      NPROC places before any slot is reused.  So no array of 1000 entries overflows before process 1000 is created. */
  lemma QueueCapacity(run: seq<State>, events: seq<Event>, n: nat)
    requires Run(run, events) && n < |run|
    ensures Shape(run[n]) && Entries(run[n].q) <= run[n].nextpid - 1
    ensures WithoutReuse(run, events) ==> Entries(run[n].q) <= NPROC
  {
    Membership(run, events, n);
    EntriesBounded(run, events, n);
    if WithoutReuse(run, events) {
      OnceKept(run, events, n);
      OnceFew(run[n].q);
    }
  }

  // ---- Time slices, accounting, waiting time ----

  /** Between traps every live process has used less than its slice at its own level, unless it was killed and
      is inside exit(): then it has used less than two.  It has used nothing at the other levels;
      the five tick counts add up to the run time; and the wait that waitx reports is not negative. */
  lemma Accounting(run: seq<State>, events: seq<Event>, n: nat, i: nat)
    requires Run(run, events) && n < |run| && i < NPROC
    ensures Shape(run[n])
    ensures var p := run[n].procs[i];
      && (p.state != UNUSED ==> p.tk[0] + p.tk[1] + p.tk[2] + p.tk[3] + p.tk[4] == p.runtime == p.rtime)
      && (Live(p) ==> 0 <= p.rr[p.qno] < if p.killed && p.exiting then 2 * Slice(p.qno) else Slice(p.qno))
      && (Live(p) ==> forall j :: 0 <= j < NQ && j != p.qno ==> p.rr[j] == 0)
      && (Live(p) ==> p.rtime + p.iotime <= run[n].ticks - p.ctime)
      && (p.state == ZOMBIE ==> p.etime - p.ctime - p.rtime - p.iotime >= 0)
  {
    RunKeeps(run, events, n);
    InvShape(run[n]);
    assert ProcOk(run[n].procs[i], run[n].ticks, false);
  }

  /** The trap leaves the interrupted process with less than a used-up slice, unless the process was killed, was
      in user code, and this tick was the last of its slice. */
  lemma SliceEndsExactly(run: seq<State>, events: seq<Event>, n: nat)
    requires Run(run, events) && n < |events| && events[n].Timer? && run[n].current.Some?
    ensures Shape(run[n]) && Shape(run[n + 1])
    ensures var i := run[n].current.value; var p, r := run[n].procs[i], run[n + 1].procs[i];
      !p.exiting ==> (r.rr[r.qno] < Slice(r.qno) <==> !(p.killed && events[n].user && p.rr[p.qno] + 1 == Slice(p.qno)))
  {
    hide Inv, Ticked, Aged, Moved, RemoveAt, IndexOf, AnyRunnable;
    var s, t := run[n], run[n + 1];
    RunKeeps(run, events, n);
    RunKeeps(run, events, n + 1);
    InvShape(t);
    RunningOk(s);
    TickedKeeps(s);
    if !t.procs[s.current.value].exiting { SliceKept(t, s.current.value); }
  }

  lemma SliceKept(s: State, i: nat)
    requires Inv(s) && Shape(s) && i < NPROC && Live(s.procs[i]) && !s.procs[i].exiting
    ensures s.procs[i].rr[s.procs[i].qno] < Slice(s.procs[i].qno)
  {
    assert ProcOk(s.procs[i], s.ticks, false);
  }

  // ---- Bounded starvation ----

  /** What aging does to one process. */
  function AgedOf(p: Proc, ticks: int): (r: Proc)
    requires ProcShape(p)
  {
    if p.state != RUNNABLE || Waited(p, ticks) <= TIME_AGE then p
    else (if p.qno > 0 then Promoted(p) else p).(aging := ticks - (p.ctime + p.rtime))
  }

  lemma {:induction false} AgedProc(s: State, n: nat, i: nat)
    requires Shape(s) && n <= NPROC && i < NPROC
    ensures Aged(s, n).procs[i] == if i < n then AgedOf(s.procs[i], s.ticks) else s.procs[i]
    decreases n
  {
    hide Moved;
    if n > 0 { AgedProc(s, n - 1, i); }
  }

  /** One event seen by a process that is RUNNABLE before and after it. */
  lemma WaitingStep(s: State, e: Event, i: nat)
    requires Inv(s) && Shape(s) && Enabled(s, e) && i < NPROC && |Do(s, e).procs| == NPROC
    requires s.procs[i].state == RUNNABLE && Do(s, e).procs[i].state == RUNNABLE
    ensures var t := Do(s, e); var p, r := s.procs[i], t.procs[i];
      && t.ticks == s.ticks + (if e.Timer? then 1 else 0)
      && ProcShape(p) && ProcShape(r)
      && (!e.Timer? || Waited(p, t.ticks) <= TIME_AGE ==> r.qno == p.qno && Waited(r, t.ticks) == Waited(p, t.ticks))
      && (e.Timer? && Waited(p, t.ticks) > TIME_AGE ==> r.qno == (if p.qno == 0 then 0 else p.qno - 1) && Waited(r, t.ticks) == 0)
  {
    hide Inv, Picked, TimerTrap;
    ProcShapes(s, i);
    if e.Timer? { WaitingTick(s, e.user, i); }
  }

  lemma ProcShapes(s: State, i: nat)
    requires Shape(s) && i < NPROC
    ensures ProcShape(s.procs[i])
  {
  }

  lemma WaitingTick(s: State, user: bool, i: nat)
    requires Inv(s) && Shape(s) && i < NPROC && s.procs[i].state == RUNNABLE
    ensures TimerTrap(s, user).ticks == s.ticks + 1 && |TimerTrap(s, user).procs| == NPROC
    ensures ProcShape(s.procs[i]) && TimerTrap(s, user).procs[i] == AgedOf(s.procs[i], s.ticks + 1)
  {
    hide Inv, Aged, Moved, Charged, AnyRunnable, RemoveAt, InvBut;
    ProcShapes(s, i);
    TickedKeeps(s);
    var woken := s.(ticks := s.ticks + 1, procs := Awakened(s.procs, TICKS_CHAN));
    AwakenedKeeps(s, TICKS_CHAN, s.ticks + 1);
    InvShape(woken);
    AgedProc(woken, NPROC, i);
    if s.current.Some? { RunningOk(s); }
  }

  /** While p waits, each tick brings it at least one step closer to level 0. */
  lemma {:induction false} WaitingProgress(run: seq<State>, events: seq<Event>, a: nat, b: nat, i: nat)
    requires Run(run, events) && a <= b < |run| && i < NPROC
    requires forall n :: a <= n <= b ==> |run[n].procs| == NPROC && run[n].procs[i].state == RUNNABLE
    ensures var p, r, elapsed := run[a].procs[i], run[b].procs[i], run[b].ticks - run[a].ticks;
      && 0 <= elapsed && r.qno <= p.qno
      && (elapsed == 0 ==> r.qno == p.qno)
      && (elapsed > 0 ==> 0 <= Waited(r, run[b].ticks) <= TIME_AGE)
      && (elapsed > 0 && r.qno > 0 ==> (TIME_AGE + 1) * r.qno - Waited(r, run[b].ticks) <= (TIME_AGE + 1) * p.qno - elapsed)
    decreases b
  {
    hide Inv, Do, Enabled;
    if b > a {
      WaitingProgress(run, events, a, b - 1, i);
      RunKeeps(run, events, b - 1);
      RunKeeps(run, events, b);
      WaitedNonNegative(run[b - 1], i);
      WaitedNonNegative(run[b], i);
      WaitingStep(run[b - 1], events[b - 1], i);
    }
  }

  lemma WaitedNonNegative(s: State, i: nat)
    requires Inv(s) && i < NPROC && s.procs[i].state == RUNNABLE
    ensures 0 <= Waited(s.procs[i], s.ticks)
  {
    assert ProcOk(s.procs[i], s.ticks, false);
  }

  /** A process of level k that stays RUNNABLE without being dispatched is at level 0 after 51 * k ticks,
      so after 204 ticks whatever its level was. */
  lemma BoundedStarvation(run: seq<State>, events: seq<Event>, a: nat, b: nat, i: nat)
    requires Run(run, events) && a <= b < |run| && i < NPROC
    requires forall n :: a <= n <= b ==> |run[n].procs| == NPROC && run[n].procs[i].state == RUNNABLE
    requires run[b].ticks - run[a].ticks >= 51 * run[a].procs[i].qno
    ensures run[b].procs[i].qno == 0
  {
    WaitingProgress(run, events, a, b, i);
  }

  /** A promotion changes no other process and not the order of the others in any queue. */
  lemma PromotionKeepsOrder(s: State, i: nat, k: nat)
    requires Inv(s) && Shape(s) && i < NPROC && k < NQ
    ensures Without(AgeOne(s, i).q[k], i) == Without(s.q[k], i)
  {
    hide Inv, IndexOf;
    var p := s.procs[i];
    if p.state == RUNNABLE && Waited(p, s.ticks) > TIME_AGE && p.qno > 0 {
      InOwnQueueInv(s, i);
      var f := IndexOf(s.q[p.qno], i, false);
      assert f < |s.q[p.qno]| && s.q[p.qno][f] == i;
      WithoutRemoved(s.q[p.qno], i, f);
      WithoutConcat(s.q[p.qno - 1], [i], i);
    }
  }

  /** Nor does the end of a slice. */
  lemma SliceKeepsOrder(s: State, i: nat, k: nat)
    requires InvBut(s, i) && Shape(s) && s.current == Some(i) && k < NQ
    ensures |Sliced(s, i).q| == NQ && Without(Sliced(s, i).q[k], i) == Without(s.q[k], i)
  {
    InOwnQueue(s, i);
    hide InvBut, IndexOf, AnyRunnable, Without, Moved, RemoveAt;
    var l := s.procs[i].qno;
    if l < 4 { MovedOrder(s.q, i, l, l + 1, l == 0, k); } else { RotatedOrder(s.q[4], i); }
  }

  lemma MovedOrder(q: seq<seq<nat>>, i: nat, from: nat, to: nat, last: bool, k: nat)
    requires |q| == NQ && from < NQ && to < NQ && from != to && i in q[from] && k < NQ
    ensures Without(Moved(q, i, from, to, last)[k], i) == Without(q[k], i)
  {
    hide IndexOf, Without, RemoveAt;
    var f := IndexOf(q[from], i, last);
    assert f < |q[from]| && q[from][f] == i;
    WithoutRemoved(q[from], i, f);
    WithoutOne(i);
    WithoutConcat(q[to], [i], i);
  }

  lemma RotatedOrder(q: seq<nat>, i: nat)
    requires i in q
    ensures Without(RemoveAt(q + [i], IndexOf(q, i, false)), i) == Without(q, i)
  {
    hide IndexOf, Without;
    var f := IndexOf(q, i, false);
    assert f < |q| && q[f] == i;
    assert RemoveAt(q + [i], f) == RemoveAt(q, f) + [i];
    WithoutRemoved(q, i, f);
    WithoutOne(i);
    WithoutConcat(RemoveAt(q, f), [i], i);
  }

  lemma WithoutOne(i: nat)
    ensures Without([i], i) == []
  {
    assert [i][1..] == [];
  }

  /** The queue with every entry of slot i left out. */
  ghost function Without(q: seq<nat>, i: nat): (r: seq<nat>) {
    if q == [] then [] else (if q[0] == i then [] else [q[0]]) + Without(q[1..], i)
  }

  lemma {:induction false} WithoutConcat(a: seq<nat>, b: seq<nat>, i: nat)
    ensures Without(a + b, i) == Without(a, i) + Without(b, i)
    decreases |a|
  {
    if a == [] {
      assert a + b == b;
    } else {
      assert (a + b)[1..] == a[1..] + b;
      WithoutConcat(a[1..], b, i);
    }
  }

  lemma WithoutRemoved(q: seq<nat>, i: nat, f: nat)
    requires f < |q| && q[f] == i
    ensures Without(RemoveAt(q, f), i) == Without(q, i)
  {
    assert q == q[..f] + ([i] + q[f + 1..]);
    WithoutConcat(q[..f], [i] + q[f + 1..], i);
    WithoutConcat([i], q[f + 1..], i);
    WithoutConcat(q[..f], q[f + 1..], i);
  }
}
