/** The admission rule of the log under concurrency (log.c:126-174, log.c:213-233).

    The steps are the critical sections of log.lock, with one exception the code makes: log_write tests
    the log size before it takes the lock, so the test and the append are separate steps and other
    operations may run in between.  m bounds the distinct blocks any single operation logs. */
module LogAdmission {
  import opened Common

  const NLOG: nat := 30   // sb.nlog as mkfs writes it; the header takes one of these blocks

  /** An operation between begin_op and end_op: what it has logged, and a block that passed the size test. */
  datatype Op = Op(logged: set<int>, pending: Option<int>)

  datatype Panic = NoPanic | TooBig | Committing

  datatype State = State(lh: seq<int>, ops: seq<Op>, committing: bool, panic: Panic)

  const INIT: State := State([], [], false, NoPanic)

  // ---- Steps ----

  ghost predicate Begin(s: State, t: State) {
    && !s.committing && |s.lh| + (|s.ops| + 1) * MAXOPBLOCKS <= LOGSIZE
    && t == s.(ops := s.ops + [Op({}, None)])
  }

  /** log_write's unlocked size test (log.c:218). */
  ghost predicate Test(m: nat, s: State, t: State, i: nat, b: int) {
    && i < |s.ops| && s.ops[i].pending.None? && |s.ops[i].logged + {b}| <= m
    && t == if |s.lh| >= LOGSIZE || |s.lh| >= NLOG - 1 then s.(panic := TooBig)
            else s.(ops := s.ops[i := s.ops[i].(pending := Some(b))])
  }

  /** log_write's critical section (log.c:223-232), with absorption. */
  ghost predicate Append(s: State, t: State, i: nat) {
    && i < |s.ops| && s.ops[i].pending.Some?
    && var b := s.ops[i].pending.value;
       t == s.(lh := if b in s.lh then s.lh else s.lh + [b],
               ops := s.ops[i := Op(s.ops[i].logged + {b}, None)])
  }

  ghost predicate End(s: State, t: State, i: nat) {
    && i < |s.ops| && s.ops[i].pending.None?
    && var rest := s.ops[..i] + s.ops[i + 1..];
       t == if s.committing then s.(ops := rest, panic := Committing)
            else s.(ops := rest, committing := rest == [])
  }

  /** commit() clears lh.n, then end_op clears the committing flag. */
  ghost predicate Commit(s: State, t: State) {
    s.committing && (t == s.(lh := []) || (s.lh == [] && t == s.(committing := false)))
  }

  ghost predicate Next(m: nat, s: State, t: State) {
    && s.panic.NoPanic?
    && (|| Begin(s, t)
        || (exists i, b :: Test(m, s, t, i, b))
        || (exists i :: Append(s, t, i))
        || (exists i :: End(s, t, i))
        || Commit(s, t))
  }

  ghost predicate Run(m: nat, run: seq<State>) {
    && run != [] && run[0] == INIT
    && forall i :: 0 <= i < |run| - 1 ==> Next(m, run[i], run[i + 1])
  }

  // ---- The reservation invariant ----

  /** The room the running operations may still fill, if each may log `quota` blocks. */
  ghost function Unused(ops: seq<Op>, quota: nat): (n: int) {
    if ops == [] then 0 else quota - |ops[0].logged| + Unused(ops[1..], quota)
  }

  lemma {:induction false} UnusedConcat(xs: seq<Op>, ys: seq<Op>, quota: nat)
    ensures Unused(xs + ys, quota) == Unused(xs, quota) + Unused(ys, quota)
    decreases |xs|
  {
    if xs == [] {
      assert xs + ys == ys;
    } else {
      assert (xs + ys)[1..] == xs[1..] + ys;
      UnusedConcat(xs[1..], ys, quota);
    }
  }

  lemma UnusedSplit(ops: seq<Op>, i: nat, quota: nat)
    requires i < |ops|
    ensures Unused(ops, quota) == Unused(ops[..i] + ops[i + 1..], quota) + quota - |ops[i].logged|
    ensures forall op: Op :: Unused(ops[i := op], quota) == Unused(ops[..i] + ops[i + 1..], quota) + quota - |op.logged|
  {
    forall op: Op ensures Unused(ops[i := op], quota) == Unused(ops[..i] + ops[i + 1..], quota) + quota - |op.logged| {
      assert ops[i := op] == ops[..i] + ([op] + ops[i + 1..]);
      UnusedConcat(ops[..i], [op] + ops[i + 1..], quota);
      UnusedConcat(ops[..i], ops[i + 1..], quota);
      UnusedConcat([op], ops[i + 1..], quota);
      assert Unused([op], quota) == quota - |op.logged| + Unused([], quota);
    }
    assert ops[i := ops[i]] == ops;
  }

  lemma {:induction false} UnusedBounds(ops: seq<Op>, quota: nat)
    ensures Unused(ops, quota) <= |ops| * quota
    ensures (forall i :: 0 <= i < |ops| ==> |ops[i].logged| <= quota) ==> Unused(ops, quota) >= 0
    decreases |ops|
  {
    if ops != [] { UnusedBounds(ops[1..], quota); }
  }

  ghost predicate OpOk(m: nat, lh: seq<int>, op: Op) {
    && (forall b :: b in op.logged ==> b in lh)
    && |op.logged| <= m
    && (op.pending.Some? ==> |op.logged + {op.pending.value}| <= m)
  }

  /** The most that |lh| plus the unused reservations can come to. */
  function Ceiling(m: nat): (c: nat)
    requires m <= MAXOPBLOCKS
  {
    LOGSIZE - 2 * (MAXOPBLOCKS - m)
  }

  ghost predicate Inv(m: nat, s: State)
    requires m <= MAXOPBLOCKS
  {
    && (forall i :: 0 <= i < |s.ops| ==> OpOk(m, s.lh, s.ops[i]))
    && |s.lh| + Unused(s.ops, m) <= Ceiling(m)
    && (s.committing ==> s.ops == [])
    && (s.ops == [] && !s.committing ==> s.lh == [])
    && s.panic != Committing
    && (m < MAXOPBLOCKS ==> s.panic.NoPanic?)
  }

  lemma BeginKeeps(m: nat, s: State, t: State)
    requires m <= MAXOPBLOCKS && Inv(m, s) && s.panic.NoPanic? && Begin(s, t)
    ensures Inv(m, t)
  {
    UnusedConcat(s.ops, [Op({}, None)], m);
    assert Unused([Op({}, None)], m) == m + Unused([], m);
    UnusedBounds(s.ops, m);
    assert |s.ops| * m <= |s.ops| * MAXOPBLOCKS - |s.ops| * (MAXOPBLOCKS - m);
    if |s.ops| >= 1 { assert |s.ops| * (MAXOPBLOCKS - m) >= MAXOPBLOCKS - m; }
  }

  lemma TestKeeps(m: nat, s: State, t: State, i: nat, b: int)
    requires m <= MAXOPBLOCKS && Inv(m, s) && s.panic.NoPanic? && Test(m, s, t, i, b)
    ensures Inv(m, t)
  {
    UnusedSplit(s.ops, i, m);
    UnusedBounds(s.ops, m);
  }

  lemma AppendKeeps(m: nat, s: State, t: State, i: nat)
    requires m <= MAXOPBLOCKS && Inv(m, s) && s.panic.NoPanic? && Append(s, t, i)
    ensures Inv(m, t)
  {
    UnusedSplit(s.ops, i, m);
    var b := s.ops[i].pending.value;
    assert OpOk(m, s.lh, s.ops[i]);
    if b !in s.lh { assert |s.ops[i].logged + {b}| == |s.ops[i].logged| + 1; }
    else { Grows(s.ops[i].logged, b); }
    forall j | 0 <= j < |t.ops| ensures OpOk(m, t.lh, t.ops[j]) {
      assert OpOk(m, s.lh, s.ops[j]);
    }
  }

  lemma Grows(s: set<int>, b: int)
    ensures |s + {b}| >= |s|
  {
    if b in s { assert s + {b} == s; }
  }

  lemma EndKeeps(m: nat, s: State, t: State, i: nat)
    requires m <= MAXOPBLOCKS && Inv(m, s) && s.panic.NoPanic? && End(s, t, i)
    ensures Inv(m, t)
  {
    UnusedSplit(s.ops, i, m);
    assert OpOk(m, s.lh, s.ops[i]);
  }

  lemma NextKeeps(m: nat, s: State, t: State)
    requires m <= MAXOPBLOCKS && Inv(m, s) && Next(m, s, t)
    ensures Inv(m, t)
  {
    if Begin(s, t) { BeginKeeps(m, s, t); }
    else if i, b :| Test(m, s, t, i, b) { TestKeeps(m, s, t, i, b); }
    else if i :| Append(s, t, i) { AppendKeeps(m, s, t, i); }
    else if i :| End(s, t, i) { EndKeeps(m, s, t, i); }
  }

  lemma {:induction false} RunKeeps(m: nat, run: seq<State>, k: nat)
    requires m <= MAXOPBLOCKS && Run(m, run) && k < |run|
    ensures Inv(m, run[k])
  {
    if k > 0 {
      RunKeeps(m, run, k - 1);
      NextKeeps(m, run[k - 1], run[k]);
    }
  }

  /** In every run: lh.block never overflows, a commit runs only when no operation does, and the panic
      "log.committing" is unreachable. */
  lemma Reservation(m: nat, run: seq<State>, k: nat)
    requires m <= MAXOPBLOCKS && Run(m, run) && k < |run|
    ensures var s := run[k];
      && |s.lh| + Unused(s.ops, m) <= LOGSIZE && |s.lh| <= LOGSIZE
      && (s.committing ==> s.ops == [])
      && s.panic != Committing
  {
    RunKeeps(m, run, k);
    forall i | 0 <= i < |run[k].ops| ensures |run[k].ops[i].logged| <= m {
      assert OpOk(m, run[k].lh, run[k].ops[i]);
    }
    UnusedBounds(run[k].ops, m);
  }

  // ---- The on-disk log holds one block less than lh.block ----

  /** The transaction fits the log on disk: its blocks and the header are at most NLOG blocks. */
  ghost predicate FitsOnDisk(s: State) {
    |s.lh| + 1 <= NLOG
  }

  lemma SmallOperationsFit(m: nat, run: seq<State>, k: nat)
    requires m < MAXOPBLOCKS && Run(m, run) && k < |run|
    ensures FitsOnDisk(run[k]) && run[k].panic.NoPanic?
  {
    RunKeeps(m, run, k);
    Reservation(m, run, k);
    forall i | 0 <= i < |run[k].ops| ensures |run[k].ops[i].logged| <= m {
      assert OpOk(m, run[k].lh, run[k].ops[i]);
    }
    UnusedBounds(run[k].ops, m);
  }

  lemma Extend(m: nat, run: seq<State>, t: State)
    requires Run(m, run) && Next(m, run[|run| - 1], t)
    ensures Run(m, run + [t])
  {
  }

  /** Operation i logs n blocks that nobody has logged yet. */
  lemma {:induction false} LogFresh(run: seq<State>, i: nat, n: nat) returns (run': seq<State>)
    requires Run(MAXOPBLOCKS, run)
    requires var s := run[|run| - 1];
      && s.panic.NoPanic? && i < |s.ops| && s.ops[i].pending.None?
      && |s.ops[i].logged| + n <= MAXOPBLOCKS && |s.lh| + n < NLOG
      && (forall b :: b in s.lh ==> b < |s.lh|) && (forall b :: b in s.ops[i].logged ==> b in s.lh)
    ensures Run(MAXOPBLOCKS, run')
    ensures var s, t := run[|run| - 1], run'[|run'| - 1];
      && |t.lh| == |s.lh| + n && t.panic == s.panic && t.committing == s.committing && |t.ops| == |s.ops|
      && (forall b :: b in t.lh ==> b < |t.lh|) && (forall b :: b in t.ops[i].logged ==> b in t.lh)
      && t.ops[i].pending.None? && |t.ops[i].logged| == |s.ops[i].logged| + n
      && (forall j :: 0 <= j < |s.ops| && j != i ==> t.ops[j] == s.ops[j])
    decreases n
  {
    run' := run;
    if n > 0 {
      var s := run[|run| - 1];
      var b := |s.lh|;
      assert b !in s.ops[i].logged;
      var u := s.(ops := s.ops[i := s.ops[i].(pending := Some(b))]);
      assert Test(MAXOPBLOCKS, s, u, i, b);
      Extend(MAXOPBLOCKS, run, u);
      var t := u.(lh := u.lh + [b], ops := u.ops[i := Op(u.ops[i].logged + {b}, None)]);
      assert Append(u, t, i);
      Extend(MAXOPBLOCKS, run + [u], t);
      run' := LogFresh(run + [u] + [t], i, n - 1);
    }
  }

  /** Three operations of MAXOPBLOCKS blocks are admitted together, and two of them can pass the size test
      at the same time: the transaction then has LOGSIZE blocks, one more than the log on disk holds. */
  lemma FullOperationsOverflow() returns (run: seq<State>)
    ensures Run(MAXOPBLOCKS, run) && run[|run| - 1].panic.NoPanic? && !FitsOnDisk(run[|run| - 1])
  {
    var idle := Op({}, None);
    run := [INIT];
    Extend(MAXOPBLOCKS, run, INIT.(ops := [idle]));
    run := run + [INIT.(ops := [idle])];
    Extend(MAXOPBLOCKS, run, INIT.(ops := [idle, idle]));
    run := run + [INIT.(ops := [idle, idle])];
    Extend(MAXOPBLOCKS, run, INIT.(ops := [idle, idle, idle]));
    run := run + [INIT.(ops := [idle, idle, idle])];
    run := LogFresh(run, 0, 10);
    run := LogFresh(run, 1, 9);
    run := LogFresh(run, 2, 9);
    run := AppendBoth(run, 1, 2);
  }

  /** Two operations test the size, then both append. */
  lemma AppendBoth(run: seq<State>, i: nat, j: nat) returns (run': seq<State>)
    requires Run(MAXOPBLOCKS, run)
    requires var s := run[|run| - 1];
      && s.panic.NoPanic? && i < |s.ops| && j < |s.ops| && i != j && |s.lh| == NLOG - 2
      && s.ops[i].pending.None? && s.ops[j].pending.None?
      && |s.ops[i].logged| < MAXOPBLOCKS && |s.ops[j].logged| < MAXOPBLOCKS
      && (forall b :: b in s.lh ==> b < |s.lh|)
    ensures Run(MAXOPBLOCKS, run')
    ensures run'[|run'| - 1].panic.NoPanic? && |run'[|run'| - 1].lh| == NLOG
  {
    var s := run[|run| - 1];
    var b := |s.lh|;
    var s1 := s.(ops := s.ops[i := s.ops[i].(pending := Some(b))]);
    assert Test(MAXOPBLOCKS, s, s1, i, b);
    var s2 := s1.(ops := s1.ops[j := s1.ops[j].(pending := Some(b + 1))]);
    assert Test(MAXOPBLOCKS, s1, s2, j, b + 1);
    var s3 := s2.(lh := s2.lh + [b], ops := s2.ops[i := Op(s2.ops[i].logged + {b}, None)]);
    assert Append(s2, s3, i);
    var s4 := s3.(lh := s3.lh + [b + 1], ops := s3.ops[j := Op(s3.ops[j].logged + {b + 1}, None)]);
    assert Append(s3, s4, j);
    Extend(MAXOPBLOCKS, run, s1);
    Extend(MAXOPBLOCKS, run + [s1], s2);
    Extend(MAXOPBLOCKS, run + [s1] + [s2], s3);
    Extend(MAXOPBLOCKS, run + [s1] + [s2] + [s3], s4);
    run' := run + [s1] + [s2] + [s3] + [s4];
  }

  /** Every run keeps the transaction within the log on disk exactly when operations log fewer than MAXOPBLOCKS blocks. */
  lemma FitsExactly(m: nat)
    requires m <= MAXOPBLOCKS
    ensures (forall run, k :: Run(m, run) && 0 <= k < |run| ==> FitsOnDisk(run[k])) <==> m < MAXOPBLOCKS
  {
    if m < MAXOPBLOCKS {
      forall run, k | Run(m, run) && 0 <= k < |run| ensures FitsOnDisk(run[k]) {
        SmallOperationsFit(m, run, k);
      }
    } else {
      var run := FullOperationsOverflow();
      assert Run(m, run) && 0 <= |run| - 1 < |run| && !FitsOnDisk(run[|run| - 1]);
    }
  }
}
