/**
 * Sleep locks over sleep and wakeup (sleeplock.c, proc.c:1030-1118), as a state machine for
 * any number of processes.  A step is one access to shared state; spinning on a spin lock
 * is a step that is not enabled.  The scheduler and every other holder of ptable.lock
 * appear as `Elsewhere`.
 */
module SleepLock {
  import opened Common

  /** Who holds ptable.lock. */
  datatype Table = Free | By(i: nat) | Elsewhere

  datatype Pc =
    | Idle        // outside
    | Enter       // acquiresleep: acquire(&lk->lk)
    | Test        // while (lk->locked)
    | Sleep0      // sleep: acquire(&ptable.lock)
    | Sleep1      // release(lk)
    | Sleep2      // p->chan = chan
    | Sleep3      // p->state = SLEEPING
    | Sleep4      // sched()
    | Asleep      // SLEEPING on the lock, off the CPU
    | Ready       // RUNNABLE again, off the CPU
    | Woken       // back from sched with ptable.lock: p->chan = 0, release(&ptable.lock)
    | Retake      // acquire(lk)
    | Take        // lk->locked = 1
    | TakePid     // lk->pid = pid
    | Leave       // release(&lk->lk)
    | Holding     // acquiresleep has returned
    | Release     // releasesleep: acquire(&lk->lk)
    | Clear       // lk->locked = 0
    | ClearPid    // lk->pid = 0
    | Wake        // wakeup: acquire(&ptable.lock)
    | Waking(j: nat)  // wakeup1 at process j
    | WakeDone    // release(&ptable.lock)
    | Finish      // release(&lk->lk)

  datatype State = State(pcs: seq<Pc>, inner: Option<nat>, table: Table, locked: bool, pid: Option<nat>)

  datatype Event =
    | Step(i: nat)        // process i executes its next step
    | Acquire(i: nat)     // process i calls acquiresleep
    | Drop(i: nat)        // the holder calls releasesleep
    | Dispatch(i: nat)    // the scheduler, holding ptable.lock, resumes i
    | Kill(i: nat)        // kill(), holding ptable.lock, makes a sleeper runnable
    | OthersLock          // ptable.lock is taken elsewhere
    | OthersUnlock

  predicate NeedsInner(pc: Pc) { pc.Enter? || pc.Retake? || pc.Release? }

  predicate NeedsTable(pc: Pc) { pc.Sleep0? || pc.Wake? }

  predicate Enabled(s: State, e: Event) {
    match e
    case Step(i) =>
      && i < |s.pcs| && !s.pcs[i].Idle? && !s.pcs[i].Holding? && !s.pcs[i].Asleep? && !s.pcs[i].Ready?
      && (NeedsInner(s.pcs[i]) ==> s.inner == None) && (NeedsTable(s.pcs[i]) ==> s.table == Free)
    case Acquire(i) => i < |s.pcs| && s.pcs[i].Idle?
    case Drop(i) => i < |s.pcs| && s.pcs[i].Holding?
    case Dispatch(i) => i < |s.pcs| && s.pcs[i].Ready? && s.table == Elsewhere
    case Kill(i) => i < |s.pcs| && s.pcs[i].Asleep? && s.table == Elsewhere
    case OthersLock => s.table == Free
    case OthersUnlock => s.table == Elsewhere
  }

  function At(s: State, i: nat, pc: Pc): State
    requires i < |s.pcs|
  {
    s.(pcs := s.pcs[i := pc])
  }

  function Advance(s: State, i: nat): State
    requires Enabled(s, Step(i))
  {
    match s.pcs[i]
    case Enter => At(s, i, Test).(inner := Some(i))
    case Test => if s.locked then At(s, i, Sleep0) else At(s, i, Take)
    case Sleep0 => At(s, i, Sleep1).(table := By(i))
    case Sleep1 => At(s, i, Sleep2).(inner := None)
    case Sleep2 => At(s, i, Sleep3)
    case Sleep3 => At(s, i, Sleep4)
    case Sleep4 => At(s, i, Asleep).(table := Elsewhere)
    case Woken => At(s, i, Retake).(table := Free)
    case Retake => At(s, i, Test).(inner := Some(i))
    case Take => At(s, i, TakePid).(locked := true)
    case TakePid => At(s, i, Leave).(pid := Some(i))
    case Leave => At(s, i, Holding).(inner := None)
    case Release => At(s, i, Clear).(inner := Some(i))
    case Clear => At(s, i, ClearPid).(locked := false)
    case ClearPid => At(s, i, Wake).(pid := None)
    case Wake => At(s, i, Waking(0)).(table := By(i))
    case Waking(j) =>
      if j < |s.pcs| then (if s.pcs[j].Asleep? then s.(pcs := s.pcs[j := Ready][i := Waking(j + 1)]) else At(s, i, Waking(j + 1)))
      else At(s, i, WakeDone)
    case WakeDone => At(s, i, Finish).(table := Free)
    case Finish => At(s, i, Idle).(inner := None)
    case _ => s
  }

  function Do(s: State, e: Event): State
    requires Enabled(s, e)
  {
    match e
    case Step(i) => Advance(s, i)
    case Acquire(i) => s.(pcs := s.pcs[i := Enter])
    case Drop(i) => s.(pcs := s.pcs[i := Release])
    case Dispatch(i) => s.(pcs := s.pcs[i := Woken], table := By(i))
    case Kill(i) => s.(pcs := s.pcs[i := Ready])
    case OthersLock => s.(table := Elsewhere)
    case OthersUnlock => s.(table := Free)
  }

  // ---- the invariant ----

  predicate HasInner(pc: Pc) {
    match pc
    case Test | Sleep0 | Sleep1 | Take | TakePid | Leave | Clear | ClearPid | Wake | Waking(_) | WakeDone | Finish => true
    case _ => false
  }

  predicate HasTable(pc: Pc) {
    match pc
    case Sleep1 | Sleep2 | Sleep3 | Sleep4 | Woken | Waking(_) | WakeDone => true
    case _ => false
  }

  /** The process has the sleep lock. */
  predicate Owns(pc: Pc) {
    match pc
    case TakePid | Leave | Holding | Release | Clear => true
    case _ => false
  }

  /** lk->pid names the process. */
  predicate Named(pc: Pc) {
    match pc
    case Leave | Holding | Release | Clear | ClearPid => true
    case _ => false
  }

  /** The process is in releasesleep and has cleared the lock. */
  predicate Wakes(pc: Pc) {
    match pc
    case ClearPid | Wake | Waking(_) | WakeDone | Finish => true
    case _ => false
  }

  /** Asleep, or past the point in sleep where the inner lock is released. */
  predicate Sleeps(pc: Pc) {
    match pc
    case Sleep2 | Sleep3 | Sleep4 | Asleep => true
    case _ => false
  }

  /** The process will still look at process k in its wakeup. */
  predicate WillWake(pc: Pc, k: nat) {
    match pc
    case ClearPid | Wake => true
    case Waking(j) => j <= k
    case _ => false
  }

  ghost predicate Locks(s: State) {
    && (forall i :: 0 <= i < |s.pcs| ==> (HasInner(s.pcs[i]) <==> s.inner == Some(i)))
    && (forall i :: 0 <= i < |s.pcs| ==> (HasTable(s.pcs[i]) <==> s.table == By(i)))
    && (s.inner.Some? ==> s.inner.value < |s.pcs|) && (s.table.By? ==> s.table.i < |s.pcs|)
  }

  ghost predicate Owner(s: State) {
    && (forall i :: 0 <= i < |s.pcs| && Owns(s.pcs[i]) ==> s.locked)
    && (forall i, j :: 0 <= i < |s.pcs| && 0 <= j < |s.pcs| && Owns(s.pcs[i]) && Owns(s.pcs[j]) ==> i == j)
    && (forall i :: 0 <= i < |s.pcs| && (s.pcs[i].Sleep0? || s.pcs[i].Sleep1?) ==> s.locked)
    && (forall i :: 0 <= i < |s.pcs| && (s.pcs[i].Take? || Wakes(s.pcs[i])) ==> !s.locked)
    && (s.locked ==> exists i :: 0 <= i < |s.pcs| && Owns(s.pcs[i]))
  }

  ghost predicate Names(s: State) {
    && (forall i :: 0 <= i < |s.pcs| ==> (Named(s.pcs[i]) <==> s.pid == Some(i)))
    && (s.pid.Some? ==> s.pid.value < |s.pcs|)
  }

  /** While the lock is free, whoever sleeps will be woken by the process that has the inner lock. */
  ghost predicate Covered(s: State) {
    !s.locked ==> forall k :: 0 <= k < |s.pcs| && Sleeps(s.pcs[k]) ==>
      s.inner.Some? && s.inner.value < |s.pcs| && WillWake(s.pcs[s.inner.value], k)
  }

  ghost predicate Inv(s: State) { Locks(s) && Owner(s) && Names(s) && Covered(s) }

  function Initial(n: nat): State { State(seq(n, _ => Idle), None, Free, false, None) }

  // ---- every event keeps it ----

  /** The process whose program counter an event moves. */
  function Mover(e: Event): Option<nat> {
    match e
    case Step(i) => Some(i)
    case Acquire(i) => Some(i)
    case Drop(i) => Some(i)
    case Dispatch(i) => Some(i)
    case Kill(i) => Some(i)
    case OthersLock => None
    case OthersUnlock => None
  }

  /** Only the mover's program counter changes, and sleepers that it wakes. */
  ghost predicate Moves(s: State, t: State, i: nat) {
    && i < |s.pcs| && |t.pcs| == |s.pcs|
    && forall k :: 0 <= k < |s.pcs| && k != i ==> t.pcs[k] == s.pcs[k] || (s.pcs[k].Asleep? && t.pcs[k].Ready?)
  }

  /** The inner lock follows the program counter of the mover. */
  ghost predicate InnerFollows(s: State, t: State, i: nat)
    requires Moves(s, t, i)
  {
    var a, b := s.pcs[i], t.pcs[i];
    && t.inner == (if HasInner(b) then Some(i) else if HasInner(a) then None else s.inner)
    && (HasInner(b) && !HasInner(a) ==> s.inner == None)
  }

  /** So does ptable.lock, which sched hands to the scheduler. */
  ghost predicate TableFollows(s: State, t: State, i: nat)
    requires Moves(s, t, i)
  {
    var a, b := s.pcs[i], t.pcs[i];
    && (if HasTable(b) then t.table == By(i) else if HasTable(a) then !t.table.By? else t.table == s.table)
    && (HasTable(b) && !HasTable(a) ==> !s.table.By?)
  }

  ghost predicate LocksFollow(s: State, t: State, i: nat)
    requires Moves(s, t, i)
  {
    InnerFollows(s, t, i) && TableFollows(s, t, i)
  }

  ghost predicate FieldsFollow(s: State, t: State, i: nat)
    requires Moves(s, t, i)
  {
    var a, b := s.pcs[i], t.pcs[i];
    && t.locked == (if a.Take? then true else if a.Clear? then false else s.locked)
    && (Owns(b) <==> a.Take? || (Owns(a) && !a.Clear?))
    && (b.Sleep0? || (b.Sleep1? && !a.Sleep0?) ==> s.locked) && (b.Take? ==> !s.locked)
    && (Wakes(b) ==> a.Clear? || Wakes(a)) && (b.Clear? ==> Owns(a)) && (a.Take? || a.Clear? ==> HasInner(a))
    && t.pid == (if a.TakePid? then Some(i) else if a.ClearPid? then None else s.pid)
    && (Named(b) <==> a.TakePid? || (Named(a) && !a.ClearPid?))
  }

  /** Who goes to sleep leaves a taken lock behind; who wakes looks at everyone. */
  ghost predicate SleepersFollow(s: State, t: State, i: nat)
    requires Moves(s, t, i)
  {
    var a, b := s.pcs[i], t.pcs[i];
    && (Sleeps(b) ==> Sleeps(a) || a.Sleep1?)
    && (a.Clear? ==> b.ClearPid?)
    && (forall k :: 0 <= k < |s.pcs| && WillWake(a, k) && Sleeps(t.pcs[k]) ==> WillWake(b, k))
    && (HasInner(a) && !HasInner(b) ==> a.Sleep1? || a.Leave? || a.Finish?)
  }

  lemma EffectMoves(s: State, e: Event)
    requires Enabled(s, e) && Mover(e).Some?
    ensures Moves(s, Do(s, e), Mover(e).value)
  {
  }

  lemma EffectLocks(s: State, e: Event)
    requires Locks(s) && Enabled(s, e) && Mover(e).Some? && Moves(s, Do(s, e), Mover(e).value)
    ensures LocksFollow(s, Do(s, e), Mover(e).value)
  {
    hide Locks, Do, Enabled, InnerFollows, TableFollows;
    UseLocks(s, Mover(e).value);
    EffectInner(s, e);
    EffectTable(s, e);
  }

  lemma EffectInner(s: State, e: Event)
    requires Enabled(s, e) && Mover(e).Some? && Moves(s, Do(s, e), Mover(e).value)
    requires HasInner(s.pcs[Mover(e).value]) <==> s.inner == Some(Mover(e).value)
    ensures InnerFollows(s, Do(s, e), Mover(e).value)
  {
    hide Moves;
  }

  lemma EffectTable(s: State, e: Event)
    requires Enabled(s, e) && Mover(e).Some? && Moves(s, Do(s, e), Mover(e).value)
    requires HasTable(s.pcs[Mover(e).value]) <==> s.table == By(Mover(e).value)
    ensures TableFollows(s, Do(s, e), Mover(e).value)
  {
    hide Moves;
  }

  lemma UseLocks(s: State, i: nat)
    requires Locks(s) && i < |s.pcs|
    ensures (HasInner(s.pcs[i]) <==> s.inner == Some(i)) && (HasTable(s.pcs[i]) <==> s.table == By(i))
  {
  }

  lemma EffectFields(s: State, e: Event)
    requires Enabled(s, e) && Mover(e).Some? && Moves(s, Do(s, e), Mover(e).value)
    ensures FieldsFollow(s, Do(s, e), Mover(e).value)
  {
  }

  lemma EffectSleepers(s: State, e: Event)
    requires Locks(s) && Enabled(s, e) && Mover(e).Some? && Moves(s, Do(s, e), Mover(e).value)
    ensures SleepersFollow(s, Do(s, e), Mover(e).value)
  {
  }

  lemma LocksKept(s: State, t: State, i: nat)
    requires Locks(s) && Moves(s, t, i) && LocksFollow(s, t, i)
    ensures Locks(t)
  {
  }

  lemma OwnerKept(s: State, t: State, i: nat)
    requires Locks(s) && Owner(s) && Moves(s, t, i) && LocksFollow(s, t, i) && FieldsFollow(s, t, i)
    ensures Owner(t)
  {
    if t.locked {
      if s.pcs[i].Take? {
        assert Owns(t.pcs[i]);
      } else {
        var k :| 0 <= k < |s.pcs| && Owns(s.pcs[k]);
        assert Owns(t.pcs[k]);
      }
    }
  }

  lemma NamesKept(s: State, t: State, i: nat)
    requires Locks(s) && Owner(s) && Names(s) && Moves(s, t, i) && FieldsFollow(s, t, i)
    ensures Names(t)
  {
  }

  lemma CoveredKept(s: State, t: State, i: nat)
    requires Locks(s) && Owner(s) && Covered(s) && Moves(s, t, i)
    requires LocksFollow(s, t, i) && FieldsFollow(s, t, i) && SleepersFollow(s, t, i)
    ensures Covered(t)
  {
  }

  lemma DoKeeps(s: State, e: Event)
    requires Inv(s) && Enabled(s, e)
    ensures Inv(Do(s, e)) && |Do(s, e).pcs| == |s.pcs|
  {
    if Mover(e).Some? {
      hide Do, Enabled, LocksFollow, FieldsFollow, SleepersFollow, Locks, Owner, Names, Covered;
      EffectMoves(s, e);
      EffectLocks(s, e);
      EffectFields(s, e);
      EffectSleepers(s, e);
      var t, i := Do(s, e), Mover(e).value;
      LocksKept(s, t, i);
      OwnerKept(s, t, i);
      NamesKept(s, t, i);
      CoveredKept(s, t, i);
    }
  }

  // ---- runs ----

  ghost predicate IsRun(s: State, es: seq<Event>)
    decreases |es|
  {
    es == [] || (Enabled(s, es[0]) && IsRun(Do(s, es[0]), es[1..]))
  }

  ghost function Run(s: State, es: seq<Event>): State
    requires IsRun(s, es)
    decreases |es|
  {
    if es == [] then s else Run(Do(s, es[0]), es[1..])
  }

  lemma {:induction false} RunKeeps(s: State, es: seq<Event>)
    requires Inv(s) && IsRun(s, es)
    ensures Inv(Run(s, es)) && |Run(s, es).pcs| == |s.pcs|
    decreases |es|
  {
    hide Inv, Do, Enabled;
    if es != [] {
      DoKeeps(s, es[0]);
      RunKeeps(Do(s, es[0]), es[1..]);
    }
  }

  lemma InitialInv(n: nat)
    ensures Inv(Initial(n))
  {
  }

  /** At most one process is between acquiresleep and releasesleep, and only while the lock is marked taken. */
  lemma MutualExclusion(n: nat, es: seq<Event>, i: nat, j: nat)
    requires IsRun(Initial(n), es) && i < n && j < n
    ensures var s := Run(Initial(n), es);
            |s.pcs| == n && (s.pcs[i].Holding? ==> s.locked && s.pid == Some(i)) && (s.pcs[i].Holding? && s.pcs[j].Holding? ==> i == j)
  {
    InitialInv(n);
    RunKeeps(Initial(n), es);
  }

  /** Nobody sleeps on a free lock once its inner lock is released. */
  lemma NoLostWakeup(n: nat, es: seq<Event>, k: nat)
    requires IsRun(Initial(n), es) && k < n
    ensures var s := Run(Initial(n), es);
            |s.pcs| == n && (!s.locked && s.inner == None ==> !Sleeps(s.pcs[k]))
  {
    InitialInv(n);
    RunKeeps(Initial(n), es);
  }

  /** What holdingsleep computes once it has the inner lock (sleeplock.c:44-53). */
  lemma HoldingSleep(n: nat, es: seq<Event>, i: nat)
    requires IsRun(Initial(n), es) && i < n && Run(Initial(n), es).inner == None
    ensures var s := Run(Initial(n), es);
            |s.pcs| == n && (s.locked && s.pid == Some(i) <==> s.pcs[i].Holding? || s.pcs[i].Release?)
  {
    InitialInv(n);
    RunKeeps(Initial(n), es);
  }

  // ---- progress ----

  /** Between the call of acquiresleep and its return. */
  predicate Wants(pc: Pc) {
    match pc
    case Enter | Test | Sleep0 | Sleep1 | Sleep2 | Sleep3 | Sleep4 | Asleep | Ready | Woken | Retake | Take | TakePid | Leave => true
    case _ => false
  }

  /** Between the call of releasesleep and its return. */
  predicate Releases(pc: Pc) {
    pc.Release? || pc.Clear? || Wakes(pc)
  }

  /** Nobody asks for the lock, gives it back or is killed: processes only carry on with what they do. */
  predicate CarriesOn(e: Event) {
    e.Step? || e.Dispatch? || e.OthersLock? || e.OthersUnlock?
  }

  ghost predicate Held(s: State) {
    exists j :: 0 <= j < |s.pcs| && s.pcs[j].Holding?
  }

  /** How far a process is from the end of what it does.  A sleeper has further to go once the lock is free. */
  function Weight(pc: Pc, locked: bool, n: nat): (w: nat) {
    var asleep := if locked then 0 else 20;
    match pc
    case Idle | Holding => 0
    case Leave => 1
    case TakePid => 2
    case Take => 3
    case Test => 7
    case Enter | Retake => 8
    case Woken => 9
    case Ready => 10
    case Asleep => asleep
    case Sleep4 => asleep + 1
    case Sleep3 => asleep + 2
    case Sleep2 => asleep + 3
    case Sleep1 => asleep + 4
    case Sleep0 => asleep + 5
    case Finish => 1
    case WakeDone => 2
    case Waking(j) => 3 + if j < n then n - j else 0
    case Wake => n + 4
    case ClearPid => n + 5
    case Clear => n + 6
    case Release => n + 7
  }

  function Sum(pcs: seq<Pc>, locked: bool, n: nat): (w: nat) {
    if pcs == [] then 0 else Weight(pcs[0], locked, n) + Sum(pcs[1..], locked, n)
  }

  lemma {:induction false} SumUpdated(pcs: seq<Pc>, locked: bool, n: nat, i: nat, pc: Pc)
    requires i < |pcs|
    ensures Sum(pcs[i := pc], locked, n) == Sum(pcs, locked, n) - Weight(pcs[i], locked, n) + Weight(pc, locked, n)
    decreases |pcs|
  {
    if i == 0 {
      assert pcs[i := pc][1..] == pcs[1..];
    } else {
      assert pcs[i := pc][1..] == pcs[1..][i - 1 := pc];
      SumUpdated(pcs[1..], locked, n, i - 1, pc);
    }
  }

  /** 2: the owner is giving the lock back; 1: the lock is free; 0: its new owner is about to return. */
  ghost function Stage(s: State): (k: nat) {
    if !s.locked then 1
    else if exists i :: 0 <= i < |s.pcs| && (s.pcs[i].TakePid? || s.pcs[i].Leave?) then 0
    else 2
  }

  function Work(s: State): (w: nat) {
    Sum(s.pcs, s.locked, |s.pcs|)
  }

  ghost predicate Closer(s: State, t: State) {
    Held(t) || Stage(t) < Stage(s) || (Stage(t) == Stage(s) && Work(t) < Work(s))
  }

  /** Every step brings somebody closer: with nobody holding the lock, whoever goes to sleep does so while
      the owner gives it back. */
  lemma StepCloser(s: State, i: nat)
    requires Inv(s) && Enabled(s, Step(i)) && !Held(s)
    ensures Closer(s, Do(s, Step(i)))
  {
    var t := Do(s, Step(i));
    if s.pcs[i].Take? {
      assert t.pcs[i].TakePid?;
    } else if s.pcs[i].Clear? {
      assert Owns(s.pcs[i]);
    } else if s.pcs[i].Leave? {
      assert t.pcs[i].Holding?;
    } else {
      StageKept(s, i);
      WorkLess(s, i);
    }
  }

  lemma StageKept(s: State, i: nat)
    requires Enabled(s, Step(i)) && !s.pcs[i].Take? && !s.pcs[i].Clear? && !s.pcs[i].Leave?
    ensures Stage(Do(s, Step(i))) == Stage(s) && Do(s, Step(i)).locked == s.locked
  {
    hide Do, Enabled;
    var t := Do(s, Step(i));
    EffectMoves(s, Step(i));
    OwnerStays(s, i);
    assert forall j :: 0 <= j < |s.pcs| && (s.pcs[j].TakePid? || s.pcs[j].Leave?) ==> t.pcs[j].TakePid? || t.pcs[j].Leave?;
    assert forall j :: 0 <= j < |t.pcs| && (t.pcs[j].TakePid? || t.pcs[j].Leave?) ==> s.pcs[j].TakePid? || s.pcs[j].Leave?;
  }

  lemma OwnerStays(s: State, i: nat)
    requires Enabled(s, Step(i)) && !s.pcs[i].Take? && !s.pcs[i].Clear? && !s.pcs[i].Leave? && i < |Do(s, Step(i)).pcs|
    ensures var t := Do(s, Step(i));
      t.locked == s.locked && (t.pcs[i].TakePid? || t.pcs[i].Leave? <==> s.pcs[i].TakePid? || s.pcs[i].Leave?)
  {
  }

  lemma WakesFree(s: State, i: nat)
    requires Inv(s) && i < |s.pcs|
    ensures Wakes(s.pcs[i]) ==> !s.locked
  {
  }

  lemma WorkLess(s: State, i: nat)
    requires Inv(s) && Enabled(s, Step(i)) && !s.pcs[i].Take? && !s.pcs[i].Clear? && !s.pcs[i].Leave?
    ensures Work(Do(s, Step(i))) < Work(s)
  {
    hide Sum, Inv, Do, Enabled, Weight;
    EffectMoves(s, Step(i));
    var pc, t, n := s.pcs[i], Do(s, Step(i)), |s.pcs|;
    WakesFree(s, i);
    OwnerStays(s, i);
    WeightLess(s, i);
    PcsAfter(s, i);
    if pc.Waking? && pc.j < n && s.pcs[pc.j].Asleep? {
      SumUpdated(s.pcs, s.locked, n, pc.j, Ready);
      SumUpdated(s.pcs[pc.j := Ready], s.locked, n, i, t.pcs[i]);
      ReadyLess(n);
    } else {
      SumUpdated(s.pcs, s.locked, n, i, t.pcs[i]);
    }
  }

  lemma ReadyLess(n: nat)
    ensures Weight(Ready, false, n) < Weight(Asleep, false, n)
  {
  }

  lemma WeightLess(s: State, i: nat)
    requires Enabled(s, Step(i)) && !s.pcs[i].Take? && !s.pcs[i].Clear? && !s.pcs[i].Leave? && i < |Do(s, Step(i)).pcs|
    ensures Weight(Do(s, Step(i)).pcs[i], s.locked, |s.pcs|) < Weight(s.pcs[i], s.locked, |s.pcs|)
  {
    PcAfter(s, i);
    hide Do, Enabled;
  }

  /** The program counter after a step. */
  function NextPc(pc: Pc, locked: bool, n: nat): (r: Pc) {
    match pc
    case Enter => Test
    case Test => if locked then Sleep0 else Take
    case Sleep0 => Sleep1
    case Sleep1 => Sleep2
    case Sleep2 => Sleep3
    case Sleep3 => Sleep4
    case Sleep4 => Asleep
    case Woken => Retake
    case Retake => Test
    case Take => TakePid
    case TakePid => Leave
    case Leave => Holding
    case Release => Clear
    case Clear => ClearPid
    case ClearPid => Wake
    case Wake => Waking(0)
    case Waking(j) => if j < n then Waking(j + 1) else WakeDone
    case WakeDone => Finish
    case Finish => Idle
    case _ => pc
  }

  lemma PcAfter(s: State, i: nat)
    requires Enabled(s, Step(i)) && i < |Do(s, Step(i)).pcs|
    ensures Do(s, Step(i)).pcs[i] == NextPc(s.pcs[i], s.locked, |s.pcs|) != s.pcs[i]
    ensures !s.pcs[i].Idle? && !s.pcs[i].Holding? && !s.pcs[i].Asleep? && !s.pcs[i].Ready?
  {
  }

  lemma PcsAfter(s: State, i: nat)
    requires Enabled(s, Step(i)) && i < |Do(s, Step(i)).pcs|
    ensures var pc, t := s.pcs[i], Do(s, Step(i));
      t.pcs == if pc.Waking? && pc.j < |s.pcs| && s.pcs[pc.j].Asleep? then s.pcs[pc.j := Ready][i := t.pcs[i]] else s.pcs[i := t.pcs[i]]
  {
  }

  lemma DispatchCloser(s: State, i: nat)
    requires Enabled(s, Dispatch(i)) && !Held(s)
    ensures Closer(s, Do(s, Dispatch(i)))
  {
    var t := Do(s, Dispatch(i));
    SumUpdated(s.pcs, s.locked, |s.pcs|, i, Woken);
    assert forall j :: 0 <= j < |s.pcs| && (s.pcs[j].TakePid? || s.pcs[j].Leave?) ==> t.pcs[j] == s.pcs[j];
    assert forall j :: 0 <= j < |s.pcs| && (t.pcs[j].TakePid? || t.pcs[j].Leave?) ==> t.pcs[j] == s.pcs[j];
  }

  ghost predicate Leads(s: State, es: seq<Event>, t: State) {
    IsRun(s, es) && Run(s, es) == t && forall k :: 0 <= k < |es| ==> CarriesOn(es[k])
  }

  lemma OneEvent(s: State, e: Event)
    requires Enabled(s, e) && CarriesOn(e)
    ensures Leads(s, [e], Do(s, e))
  {
    assert [e][1..] == [];
    assert Run(Do(s, e), []) == Do(s, e);
  }

  lemma {:induction false} LeadsOn(s: State, es: seq<Event>, t: State, more: seq<Event>, u: State)
    requires Leads(s, es, t) && Leads(t, more, u)
    ensures Leads(s, es + more, u)
    decreases |es|
  {
    if es == [] {
      assert es + more == more;
    } else {
      LeadsOn(Do(s, es[0]), es[1..], t, more, u);
      assert (es + more)[1..] == es[1..] + more;
    }
  }

  /** Whoever has ptable.lock can go on; if it is held elsewhere, it is released. */
  lemma Unblock(s: State, i: nat) returns (es: seq<Event>, t: State)
    requires Inv(s) && i < |s.pcs| && s.inner == Some(i) && !Held(s)
    ensures Leads(s, es, t) && Closer(s, t)
  {
    if s.table.By? {
      t := Do(s, Step(s.table.i));
      OneEvent(s, Step(s.table.i));
      StepCloser(s, s.table.i);
      es := [Step(s.table.i)];
    } else if s.table.Elsewhere? && NeedsTable(s.pcs[i]) {
      var u := Do(s, OthersUnlock);
      DoKeeps(s, OthersUnlock);
      OneEvent(s, OthersUnlock);
      t := Do(u, Step(i));
      StepCloser(u, i);
      OneEvent(u, Step(i));
      LeadsOn(s, [OthersUnlock], u, [Step(i)], t);
      es := [OthersUnlock] + [Step(i)];
    } else {
      t := Do(s, Step(i));
      OneEvent(s, Step(i));
      StepCloser(s, i);
      es := [Step(i)];
    }
  }

  /** The scheduler takes ptable.lock and resumes process i. */
  lemma Resume(s: State, i: nat) returns (es: seq<Event>, t: State)
    requires i < |s.pcs| && s.pcs[i].Ready? && !s.table.By? && !Held(s)
    ensures Leads(s, es, t) && Closer(s, t)
  {
    var u := s;
    es := [];
    if s.table.Free? {
      u := Do(s, OthersLock);
      OneEvent(s, OthersLock);
      es := [OthersLock];
    }
    t := Do(u, Dispatch(i));
    OneEvent(u, Dispatch(i));
    DispatchCloser(u, i);
    LeadsOn(s, es, u, [Dispatch(i)], t);
    es := es + [Dispatch(i)];
  }

  /** If nobody can be stepped or resumed then nobody is doing anything: a sleeper would have an owner to wait for. */
  lemma SomeoneMoves(s: State, i: nat) returns (j: nat)
    requires Inv(s) && i < |s.pcs| && !s.pcs[i].Idle? && !Held(s) && s.inner == None && !s.table.By?
    ensures j < |s.pcs| && (s.pcs[j].Ready? || Enabled(s, Step(j)))
  {
    if s.pcs[i].Asleep? {
      assert s.locked;
      j :| 0 <= j < |s.pcs| && Owns(s.pcs[j]);
    } else {
      j := i;
    }
  }

  lemma GetsCloser(s: State, i: nat) returns (es: seq<Event>, t: State)
    requires Inv(s) && i < |s.pcs| && !s.pcs[i].Idle? && !Held(s)
    ensures Leads(s, es, t) && Closer(s, t)
  {
    if s.inner.Some? {
      es, t := Unblock(s, s.inner.value);
    } else if s.table.By? {
      t := Do(s, Step(s.table.i));
      OneEvent(s, Step(s.table.i));
      StepCloser(s, s.table.i);
      es := [Step(s.table.i)];
    } else {
      var j := SomeoneMoves(s, i);
      if s.pcs[j].Ready? {
        es, t := Resume(s, j);
      } else {
        t := Do(s, Step(j));
        OneEvent(s, Step(j));
        StepCloser(s, j);
        es := [Step(j)];
      }
    }
  }

  /** Carrying on, a process stays in acquiresleep or releasesleep until it has finished. */
  lemma {:induction false} StaysInCall(s: State, es: seq<Event>, t: State, i: nat)
    requires Inv(s) && Leads(s, es, t) && i < |s.pcs|
    ensures Inv(t) && |t.pcs| == |s.pcs|
    ensures Wants(s.pcs[i]) ==> Wants(t.pcs[i]) || t.pcs[i].Holding?
    ensures Releases(s.pcs[i]) ==> Releases(t.pcs[i]) || t.pcs[i].Idle?
    decreases |es|
  {
    if es != [] {
      var u := Do(s, es[0]);
      DoKeeps(s, es[0]);
      StepInCall(s, es[0], i);
      assert Leads(u, es[1..], t);
      hide Inv, Do;
      StaysInCall(u, es[1..], t, i);
      if u.pcs[i].Holding? || u.pcs[i].Idle? { OutOfCall(u, es[1..], t, i); }
    }
  }

  lemma StepInCall(s: State, e: Event, i: nat)
    requires Enabled(s, e) && CarriesOn(e) && i < |s.pcs|
    ensures |Do(s, e).pcs| == |s.pcs|
    ensures var a, b := s.pcs[i], Do(s, e).pcs[i];
      && (Wants(a) ==> Wants(b) || b.Holding?) && (Releases(a) ==> Releases(b) || b.Idle?) && (a.Holding? || a.Idle? ==> b == a)
  {
    if e.Step? || e.Dispatch? {
      EffectMoves(s, e);
      if e.i == i { MoverInCall(s, e); }
      hide Do, Enabled;
    }
  }

  lemma MoverInCall(s: State, e: Event)
    requires Enabled(s, e) && (e.Step? || e.Dispatch?) && e.i < |Do(s, e).pcs|
    ensures var a, b := s.pcs[e.i], Do(s, e).pcs[e.i];
      && (Wants(a) ==> Wants(b) || b.Holding?) && (Releases(a) ==> Releases(b) || b.Idle?) && !a.Holding? && !a.Idle?
  {
  }

  lemma {:induction false} OutOfCall(s: State, es: seq<Event>, t: State, i: nat)
    requires Leads(s, es, t) && i < |s.pcs| && (s.pcs[i].Holding? || s.pcs[i].Idle?)
    ensures i < |t.pcs| && t.pcs[i] == s.pcs[i]
    decreases |es|
  {
    if es != [] {
      StepInCall(s, es[0], i);
      assert Leads(Do(s, es[0]), es[1..], t);
      OutOfCall(Do(s, es[0]), es[1..], t, i);
    }
  }

  lemma {:induction false} Served(s: State, i: nat) returns (es: seq<Event>, t: State)
    requires Inv(s) && i < |s.pcs|
    ensures Leads(s, es, t) && |t.pcs| == |s.pcs| && (Held(t) || t.pcs[i].Idle?)
    ensures Wants(s.pcs[i]) ==> Held(t)
    ensures Releases(s.pcs[i]) ==> t.pcs[i].Idle?
    decreases Stage(s), Work(s)
  {
    hide Do, Enabled, Sum, Stage, Covered, Names, Locks;
    if Held(s) || s.pcs[i].Idle? {
      es, t := [], s;
    } else {
      var first, u := GetsCloser(s, i);
      StaysInCall(s, first, u, i);
      var more;
      if Held(u) { more, t := [], u; } else { more, t := Served(u, i); }
      LeadsOn(s, first, u, more, t);
      es := first + more;
      StaysInCall(s, es, t, i);
    }
  }

  /** From every reachable state in which process i is in acquiresleep, the processes can carry on, without any new
      call, until some process holds the lock; in releasesleep, until process i has returned. */
  lemma NoDeadlock(n: nat, es: seq<Event>, i: nat) returns (more: seq<Event>)
    requires IsRun(Initial(n), es) && i < n
    ensures var s := Run(Initial(n), es);
      && |s.pcs| == n && IsRun(s, more) && (forall k :: 0 <= k < |more| ==> CarriesOn(more[k]))
      && |Run(s, more).pcs| == n
      && (Wants(s.pcs[i]) ==> Held(Run(s, more)))
      && (Releases(s.pcs[i]) ==> Run(s, more).pcs[i].Idle?)
  {
    hide Inv;
    InitialInv(n);
    RunKeeps(Initial(n), es);
    var t;
    more, t := Served(Run(Initial(n), es), i);
  }
}
