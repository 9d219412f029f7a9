/**
 * Pipes (pipe.c).  A process holds the pipe's lock from acquire, or from waking up, until it
 * releases the lock or sleeps; these sections are the atomic events, and a run is any
 * interleaving of them.  `accepted` and `delivered` are the histories of bytes stored and
 * fetched; `readers` and `writers` are the processes asleep on &p->nread and &p->nwrite.
 */
module Pipe {
  const PIPESIZE := 512
  const WORD := 0x1_0000_0000

  datatype State = State(data: seq<bv8>, nread: nat, nwrite: nat, readopen: bool, writeopen: bool,
                         accepted: seq<bv8>, delivered: seq<bv8>, readers: set<nat>, writers: set<nat>)

  datatype Event =
    | Write(pid: nat, bytes: seq<bv8>, killed: bool)
    | Read(pid: nat, n: nat, killed: bool)
    | Close(writable: bool)
    | Kill(pid: nat)

  /** Done: the call returns the count.  Failed: it returns -1.  Asleep: it will resume after `count` bytes. */
  datatype Outcome = Done(count: nat) | Failed | Asleep(count: nat)

  predicate Shape(s: State) { |s.data| == PIPESIZE && s.nread < WORD && s.nwrite < WORD }

  // ---- the tests and stores of the code, in 32-bit arithmetic ----

  predicate Full(s: State) { s.nwrite == (s.nread + PIPESIZE) % WORD }

  predicate Empty(s: State) { s.nread == s.nwrite }

  function Put(s: State, b: bv8): State
    requires Shape(s)
  {
    s.(data := s.data[s.nwrite % PIPESIZE := b], nwrite := (s.nwrite + 1) % WORD, accepted := s.accepted + [b])
  }

  function Get(s: State): State
    requires Shape(s)
  {
    s.(nread := (s.nread + 1) % WORD, delivered := s.delivered + [s.data[s.nread % PIPESIZE]])
  }

  /** Store bytes until the pipe is full or none is left. */
  function Stored(s: State, bytes: seq<bv8>): State
    requires Shape(s)
    decreases |bytes|
  {
    if bytes == [] || Full(s) then s else Stored(Put(s, bytes[0]), bytes[1..])
  }

  /** Fetch up to n bytes. */
  function Fetched(s: State, n: nat): State
    requires Shape(s)
    decreases n
  {
    if n == 0 || Empty(s) then s else Fetched(Get(s), n - 1)
  }

  function Do(s: State, e: Event): State
    requires Shape(s)
  {
    match e
    case Write(pid, bytes, killed) =>
      var t := Stored(s, bytes);
      if |t.accepted| - |s.accepted| == |bytes| then t.(readers := {})
      else if !t.readopen || killed then t
      else t.(readers := {}, writers := t.writers + {pid})
    case Read(pid, n, killed) =>
      if Empty(s) && s.writeopen then (if killed then s else s.(readers := s.readers + {pid}))
      else Fetched(s, n).(writers := {})
    case Close(writable) =>
      if writable then s.(writeopen := false, readers := {}) else s.(readopen := false, writers := {})
    case Kill(pid) => s.(readers := s.readers - {pid}, writers := s.writers - {pid})
  }

  // ---- the pipe is a bounded queue ----

  /** The counters count modulo 2^32, and byte m of the history sits at m % PIPESIZE while in flight. */
  ghost predicate Inv(s: State) {
    && Shape(s)
    && |s.delivered| <= |s.accepted| <= |s.delivered| + PIPESIZE
    && s.nread == |s.delivered| % WORD && s.nwrite == |s.accepted| % WORD
    && s.delivered <= s.accepted
    && InFlight(s)
  }

  function Slot(m: nat): (i: nat)
    ensures i < PIPESIZE
  {
    m % PIPESIZE
  }

  ghost predicate InFlight(s: State)
    requires |s.data| == PIPESIZE
  {
    forall m :: |s.delivered| <= m < |s.accepted| ==> s.data[Slot(m)] == s.accepted[m]
  }

  function Initial(data: seq<bv8>): State { State(data, 0, 0, true, true, [], [], {}, {}) }

  /** PIPESIZE divides 2^32, so the wrapped counter names the same slot. */
  lemma WrapSlot(m: nat)
    ensures m % WORD % PIPESIZE == Slot(m)
    ensures (m % WORD + 1) % WORD == (m + 1) % WORD
  {
    assert m == WORD * (m / WORD) + m % WORD;
    assert m % PIPESIZE == (WORD * (m / WORD) + m % WORD) % PIPESIZE;
    assert WORD * (m / WORD) == PIPESIZE * (0x80_0000 * (m / WORD));
  }

  lemma OtherSlot(m: nat, k: nat)
    requires m < k < m + PIPESIZE
    ensures Slot(m) != Slot(k)
  {
  }

  /** The code's tests tell the number of bytes in flight, also across a wrap. */
  lemma Tests(s: State)
    requires Inv(s)
    ensures Full(s) <==> |s.accepted| == |s.delivered| + PIPESIZE
    ensures Empty(s) <==> |s.accepted| == |s.delivered|
  {
    hide InFlight;
    FullIs(|s.delivered|, |s.accepted|);
    SameWord(|s.delivered|, |s.accepted|);
  }

  lemma FullIs(d: nat, a: nat)
    requires d <= a <= d + PIPESIZE
    ensures a % WORD == (d % WORD + PIPESIZE) % WORD <==> a == d + PIPESIZE
  {
    SameWord(a, d + PIPESIZE);
    WrapSum(d);
  }

  lemma WrapSum(d: nat)
    ensures (d % WORD + PIPESIZE) % WORD == (d + PIPESIZE) % WORD
  {
  }

  lemma SameWord(a: nat, b: nat)
    requires a <= b < a + WORD
    ensures a % WORD == b % WORD <==> a == b
  {
  }

  lemma PutKeeps(s: State, b: bv8)
    requires Inv(s) && !Full(s)
    ensures Inv(Put(s, b)) && Put(s, b).accepted == s.accepted + [b] && Put(s, b).delivered == s.delivered
  {
    hide Full, Slot;
    Tests(s);
    WrapSlot(|s.accepted|);
    var t := Put(s, b);
    forall m | |t.delivered| <= m < |t.accepted| ensures t.data[Slot(m)] == t.accepted[m] {
      if m < |s.accepted| { OtherSlot(m, |s.accepted|); }
    }
  }

  lemma GetKeeps(s: State)
    requires Inv(s) && !Empty(s)
    ensures Inv(Get(s)) && Get(s).accepted == s.accepted && Get(s).delivered == s.accepted[..|s.delivered| + 1]
  {
    hide Empty, Slot;
    Tests(s);
    WrapSlot(|s.delivered|);
    var b := s.data[s.nread % PIPESIZE];
    assert b == s.accepted[|s.delivered|];
    assert s.delivered + [b] == s.accepted[..|s.delivered| + 1];
  }

  // ---- what a section does to the histories ----

  function Min(a: nat, b: nat): nat { if a < b then a else b }

  function Room(s: State): nat
    requires |s.accepted| <= |s.delivered| + PIPESIZE
  {
    |s.delivered| + PIPESIZE - |s.accepted|
  }

  /** The first bytes that fit are accepted, in order. */
  lemma {:induction false} StoredIs(s: State, bytes: seq<bv8>)
    requires Inv(s)
    ensures Inv(Stored(s, bytes)) && Stored(s, bytes).accepted == s.accepted + bytes[..Min(|bytes|, Room(s))]
    ensures var t := Stored(s, bytes); t == s.(data := t.data, nwrite := t.nwrite, accepted := t.accepted)
    decreases |bytes|
  {
    hide InFlight, Full;
    Tests(s);
    if bytes == [] || Full(s) {
      assert s.accepted + bytes[..0] == s.accepted;
    } else {
      PutKeeps(s, bytes[0]);
      StoredIs(Put(s, bytes[0]), bytes[1..]);
      var k := Min(|bytes|, Room(s));
      assert s.accepted + [bytes[0]] + bytes[1..][..k - 1] == s.accepted + bytes[..k];
    }
  }

  /** The oldest bytes in flight are delivered, in order. */
  lemma {:induction false} FetchedIs(s: State, n: nat)
    requires Inv(s)
    ensures Inv(Fetched(s, n)) && Fetched(s, n).delivered == s.accepted[..|s.delivered| + Min(n, |s.accepted| - |s.delivered|)]
    ensures var t := Fetched(s, n); t == s.(nread := t.nread, delivered := t.delivered)
    decreases n
  {
    hide InFlight, Empty;
    Tests(s);
    if n != 0 && !Empty(s) {
      GetKeeps(s);
      FetchedIs(Get(s), n - 1);
    }
  }

  /** What a write of n bytes comes to, and a read of n bytes, by the histories and the open ends. */
  function WriteOutcome(s: State, n: nat, killed: bool): (r: Outcome)
    requires |s.accepted| <= |s.delivered| + PIPESIZE
  {
    if n <= Room(s) then Done(n) else if killed || !s.readopen then Failed else Asleep(Room(s))
  }

  function ReadOutcome(s: State, n: nat, killed: bool): (r: Outcome)
    requires |s.delivered| <= |s.accepted|
  {
    if |s.delivered| < |s.accepted| || !s.writeopen then Done(Min(n, |s.accepted| - |s.delivered|))
    else if killed then Failed
    else Asleep(0)
  }

  lemma DoKeeps(s: State, e: Event)
    requires Inv(s)
    ensures Inv(Do(s, e)) && s.accepted <= Do(s, e).accepted && s.delivered <= Do(s, e).delivered
  {
    hide InFlight, Stored, Fetched, Empty;
    match e
    case Write(pid, bytes, killed) => StoredIs(s, bytes); SameFlight(Stored(s, bytes), Do(s, e));
    case Read(pid, n, killed) => FetchedIs(s, n); SameFlight(Fetched(s, n), Fetched(s, n).(writers := {})); SameFlight(s, s.(readers := s.readers + {pid}));
    case Close(writable) => SameFlight(s, Do(s, e));
    case Kill(pid) => SameFlight(s, Do(s, e));
  }

  lemma SameFlight(s: State, t: State)
    requires Inv(s) && t.data == s.data && t.accepted == s.accepted && t.delivered == s.delivered
    requires t.nread == s.nread && t.nwrite == s.nwrite
    ensures Inv(t)
  {
  }

  ghost function Run(s: State, es: seq<Event>): State
    requires Inv(s)
    decreases |es|
  {
    if es == [] then s else
      DoKeeps(s, es[0]);
      Run(Do(s, es[0]), es[1..])
  }

  /** A pipe is a FIFO over every run, however often the counters wrap. */
  lemma {:induction false} Fifo(s: State, es: seq<Event>)
    requires Inv(s)
    ensures Inv(Run(s, es)) && Run(s, es).delivered <= Run(s, es).accepted
    ensures |Run(s, es).accepted| <= |Run(s, es).delivered| + PIPESIZE
    ensures s.accepted <= Run(s, es).accepted && s.delivered <= Run(s, es).delivered
    decreases |es|
  {
    hide Inv;
    if es != [] {
      InvShape(s);
      DoKeeps(s, es[0]);
      Fifo(Do(s, es[0]), es[1..]);
    } else {
      InvFifo(s);
    }
  }

  lemma InvFifo(s: State)
    requires Inv(s)
    ensures s.delivered <= s.accepted && |s.accepted| <= |s.delivered| + PIPESIZE
  {
  }

  lemma InitialInv(data: seq<bv8>)
    requires |data| == PIPESIZE
    ensures Inv(Initial(data))
  {
  }

  // ---- the open ends ----

  lemma {:induction false} EndsAre(s: State, es: seq<Event>)
    requires Inv(s)
    ensures Run(s, es).writeopen <==> s.writeopen && Close(true) !in es
    ensures Run(s, es).readopen <==> s.readopen && Close(false) !in es
    decreases |es|
  {
    hide Inv, Do, Stored, Fetched;
    if es != [] {
      InvShape(s);
      DoKeeps(s, es[0]);
      DoEnds(s, es[0]);
      EndsAre(Do(s, es[0]), es[1..]);
    }
  }

  lemma DoEnds(s: State, e: Event)
    requires Inv(s)
    ensures Do(s, e).writeopen <==> s.writeopen && e != Close(true)
    ensures Do(s, e).readopen <==> s.readopen && e != Close(false)
  {
    hide InFlight, Stored, Fetched;
    if e.Write? { StoredIs(s, e.bytes); }
    if e.Read? { FetchedIs(s, e.n); }
  }

  /** After any run of a new pipe: a read of n > 0 bytes returns 0, the end of the file, if and only if the write end
      has been closed and every byte accepted has been delivered; it sleeps or fails if and only if all are
      delivered and the write end is open. */
  lemma EndOfFile(data: seq<bv8>, es: seq<Event>, n: nat, killed: bool)
    requires |data| == PIPESIZE && n > 0
    ensures Inv(Initial(data)) && Inv(Run(Initial(data), es))
    ensures var s := Run(Initial(data), es);
      && (ReadOutcome(s, n, killed) == Done(0) <==> Close(true) in es && s.delivered == s.accepted)
      && (!ReadOutcome(s, n, killed).Done? <==> Close(true) !in es && s.delivered == s.accepted)
  {
    InitialInv(data);
    Fifo(Initial(data), es);
    EndsAre(Initial(data), es);
    hide Inv, Run;
    var s := Run(Initial(data), es);
    assert s.delivered == s.accepted <==> |s.delivered| == |s.accepted|;
  }

  /** And a write fails if and only if its bytes do not fit and the read end has been closed or the writer killed. */
  lemma BrokenPipe(data: seq<bv8>, es: seq<Event>, n: nat, killed: bool)
    requires |data| == PIPESIZE
    ensures Inv(Initial(data)) && Inv(Run(Initial(data), es))
    ensures var s := Run(Initial(data), es);
      WriteOutcome(s, n, killed) == Failed <==> |s.accepted| - |s.delivered| + n > PIPESIZE && (Close(false) in es || killed)
  {
    InitialInv(data);
    Fifo(Initial(data), es);
    EndsAre(Initial(data), es);
    hide Inv, Run;
  }

  // ---- sleepers ----

  /** Who sleeps after a step: whoever did and was not woken or killed, and whoever goes to sleep in it. */
  lemma SleepersAre(s: State, e: Event, pid: nat)
    requires Inv(s)
    ensures pid in Do(s, e).readers <==>
      match e
      case Write(_, bytes, killed) => pid in s.readers && WriteOutcome(s, |bytes|, killed) == Failed
      case Read(p, n, killed) => pid in s.readers || (p == pid && ReadOutcome(s, n, killed).Asleep?)
      case Close(writable) => pid in s.readers && !writable
      case Kill(p) => pid in s.readers && p != pid
    ensures pid in Do(s, e).writers <==>
      match e
      case Write(p, bytes, killed) => pid in s.writers || (p == pid && WriteOutcome(s, |bytes|, killed).Asleep?)
      case Read(_, n, killed) => pid in s.writers && !ReadOutcome(s, n, killed).Done?
      case Close(writable) => pid in s.writers && writable
      case Kill(p) => pid in s.writers && p != pid
  {
    hide InFlight, Stored, Fetched, Empty, Full;
    Tests(s);
    if e.Write? { StoredIs(s, e.bytes); }
    if e.Read? { FetchedIs(s, e.n); }
  }

  /** Whoever sleeps has a reason to: readers an empty open pipe, writers a full one. */
  ghost predicate Awake(s: State) {
    && (s.readers != {} ==> Empty(s) && s.writeopen)
    && (s.writers != {} ==> Full(s) && s.readopen)
  }

  /** A writer that fills the pipe and then returns -1 does not wake the readers (pipe.c:85-89). */
  predicate GivesUp(s: State, e: Event)
    requires |s.accepted| <= |s.delivered| + PIPESIZE
  {
    e.Write? && s.readers != {} && 0 < Room(s) < |e.bytes| && (e.killed || !s.readopen)
  }

  /** That is the only way to lose a wakeup. */
  lemma AwakeExactly(s: State, e: Event)
    requires Inv(s) && Awake(s)
    ensures Inv(Do(s, e)) && (Awake(Do(s, e)) <==> !GivesUp(s, e))
  {
    hide InFlight, Stored, Fetched, Empty, Full;
    DoKeeps(s, e);
    Tests(s);
    Tests(Do(s, e));
    match e
    case Write(pid, bytes, killed) => StoredIs(s, bytes);
    case Read(pid, n, killed) => FetchedIs(s, n);
    case Close(writable) =>
    case Kill(pid) =>
  }

  ghost predicate NeverGivesUp(s: State, es: seq<Event>)
    requires Inv(s)
    decreases |es|
  {
    es == [] || (!GivesUp(s, es[0]) && (DoKeeps(s, es[0]); NeverGivesUp(Do(s, es[0]), es[1..])))
  }

  lemma {:induction false} NoLostWakeup(s: State, es: seq<Event>)
    requires Inv(s) && Awake(s) && NeverGivesUp(s, es)
    ensures Awake(Run(s, es))
    decreases |es|
  {
    hide Inv, Awake, Do;
    if es != [] {
      InvShape(s);
      AwakeExactly(s, es[0]);
      NoLostWakeup(Do(s, es[0]), es[1..]);
    }
  }

  /** A reader left asleep over a full pipe. */
  lemma LostWakeup(data: seq<bv8>, bytes: seq<bv8>)
    requires |data| == PIPESIZE && |bytes| == PIPESIZE + 1
    ensures Inv(Initial(data))
    ensures var s := Run(Initial(data), [Read(1, 1, false), Write(2, bytes, true)]);
            s.readers == {1} && Full(s) && s.accepted == bytes[..PIPESIZE]
  {
    hide Inv, Stored, Fetched;
    InitialInv(data);
    var s0 := Initial(data);
    var s1 := Do(s0, Read(1, 1, false));
    assert s1 == s0.(readers := {1});
    DoKeeps(s0, Read(1, 1, false));
    StoredIs(s1, bytes);
    DoKeeps(s1, Write(2, bytes, true));
    Tests(Do(s1, Write(2, bytes, true)));
    var es := [Read(1, 1, false), Write(2, bytes, true)];
    assert es[1..] == [Write(2, bytes, true)] && es[1..][1..] == [];
    assert Run(s0, es) == Run(s1, es[1..]) == Run(Do(s1, es[1]), []);
    assert [] + bytes[..PIPESIZE] == bytes[..PIPESIZE];
  }

  // ---- the code ----

  class PipeBuffer {
    const data: array<bv8>
    var nread: nat
    var nwrite: nat
    var readopen: bool
    var writeopen: bool
    var readers: set<nat>
    var writers: set<nat>
    ghost var accepted: seq<bv8>
    ghost var delivered: seq<bv8>

    ghost function Abs(): State
      reads this, data
    {
      State(data[..], nread, nwrite, readopen, writeopen, accepted, delivered, readers, writers)
    }

    ghost predicate Valid()
      reads this, data
    {
      Inv(Abs())
    }

    /** The new pipe of pipealloc (pipe.c:33-36). */
    constructor ()
      ensures Valid() && fresh(data) && Abs() == Initial(data[..])
    {
      data := new bv8[PIPESIZE];
      nread, nwrite, readopen, writeopen, readers, writers := 0, 0, true, true, {}, {};
      accepted, delivered := [], [];
      new;
      InitialInv(data[..]);
    }

    /** One byte into the ring (pipe.c:93). */
    method Store(b: bv8)
      requires Valid() && !Full(Abs())
      modifies this`nwrite, this`accepted, data
      ensures Valid() && Shape(old(Abs())) && Abs() == Put(old(Abs()), b)
    {
      hide Full;
      ghost var s := Abs();
      PutKeeps(s, b);
      data[nwrite % PIPESIZE] := b;
      nwrite := (nwrite + 1) % WORD;
      accepted := accepted + [b];
      assert Abs() == Put(s, b);
    }

    /** pipewrite's stores until the pipe is full (pipe.c:84-94): i bytes. */
    method StoreAll(addr: seq<bv8>) returns (i: nat)
      requires Valid()
      modifies this`nwrite, this`accepted, data
      ensures Valid() && Shape(old(Abs())) && Abs() == Stored(old(Abs()), addr)
      ensures i <= |addr| && accepted == old(accepted) + addr[..i] && (i < |addr| ==> Full(Abs()))
    {
      hide Inv, Put, Full;
      ghost var s := Abs();
      InvShape(s);
      i := 0;
      assert addr[i..] == addr;
      while i < |addr|
        invariant 0 <= i <= |addr| && Valid() && Shape(Abs()) && Stored(Abs(), addr[i..]) == Stored(s, addr)
        invariant accepted == s.accepted + addr[..i]
      {
        if nwrite == (nread + PIPESIZE) % WORD {
          FullIsFull(Abs());
          return;
        }
        FullIsFull(Abs());
        PutIs(Abs(), addr[i], addr[i + 1..]);
        assert [addr[i]] + addr[i + 1..] == addr[i..];
        Store(addr[i]);
        i := i + 1;
        InvShape(Abs());
      }
      assert addr[i..] == [];
    }

    /** pipewrite from taking the lock until it sleeps or returns (pipe.c:78-98). */
    method WriteSection(pid: nat, addr: seq<bv8>, killed: bool) returns (r: Outcome)
      requires Valid()
      modifies this`nwrite, this`accepted, this`readers, this`writers, data
      ensures Valid() && Shape(old(Abs())) && Abs() == Do(old(Abs()), Write(pid, addr, killed))
      ensures Inv(old(Abs())) && r == WriteOutcome(old(Abs()), |addr|, killed)
      ensures accepted == old(accepted) + addr[..Min(|addr|, Room(old(Abs())))]
      ensures readers == (if r.Failed? then old(readers) else {}) && writers == old(writers) + (if r.Asleep? then {pid} else {})
    {
      hide Inv, Stored;
      ghost var s := Abs();
      InvShape(s);
      InvFifo(s);
      StoredIs(s, addr);
      DoKeeps(s, Write(pid, addr, killed));
      var i := StoreAll(addr);
      if i < |addr| {
        if !readopen || killed { return Failed; }
        readers := {};
        writers := writers + {pid};
        return Asleep(i);
      }
      readers := {};
      return Done(|addr|);
    }

    /** One byte out of the ring (pipe.c:116). */
    method Fetch() returns (b: bv8)
      requires Valid() && !Empty(Abs())
      modifies this`nread, this`delivered
      ensures Valid() && Shape(old(Abs())) && Abs() == Get(old(Abs())) && delivered == old(delivered) + [b]
    {
      hide Empty;
      GetKeeps(Abs());
      b := data[nread % PIPESIZE];
      nread := (nread + 1) % WORD;
      delivered := delivered + [b];
    }

    /** piperead from taking the lock until it sleeps or returns (pipe.c:100-121). */
    method ReadSection(pid: nat, n: nat, killed: bool) returns (r: Outcome, got: seq<bv8>)
      requires Valid()
      modifies this`nread, this`delivered, this`readers, this`writers
      ensures Valid() && Shape(old(Abs())) && Abs() == Do(old(Abs()), Read(pid, n, killed))
      ensures delivered == old(delivered) + got && (r.Done? ==> r.count == |got|) && (!r.Done? ==> got == [])
      ensures Inv(old(Abs())) && r == ReadOutcome(old(Abs()), n, killed)
      ensures readers == old(readers) + (if r.Asleep? then {pid} else {}) && writers == (if r.Done? then {} else old(writers))
    {
      hide Inv, Get;
      ghost var s := Abs();
      InvShape(s);
      DoKeeps(s, Read(pid, n, killed));
      InvFifo(s);
      Tests(s);
      got := [];
      if nread == nwrite && writeopen {
        if killed { return Failed, []; }
        readers := readers + {pid};
        return Asleep(0), [];
      }
      FetchedIs(s, n);
      var i := 0;
      while i < n
        invariant 0 <= i <= n && |got| == i && Valid() && Shape(Abs()) && Fetched(Abs(), n - i) == Fetched(s, n)
        invariant Abs() == s.(nread := nread, delivered := s.delivered + got)
      {
        if nread == nwrite { break; }
        GetIs(Abs(), n - i - 1);
        var b := Fetch();
        got := got + [b];
        i := i + 1;
        InvShape(Abs());
      }
      assert Abs() == Fetched(s, n);
      writers := {};
      return Done(i), got;
    }

    /** pipeclose (pipe.c:59-75); freed says that the page goes back to kalloc. */
    method CloseEnd(writable: bool) returns (freed: bool)
      requires Valid()
      modifies this`readopen, this`writeopen, this`readers, this`writers
      ensures Valid() && Shape(old(Abs())) && Abs() == Do(old(Abs()), Close(writable))
      ensures writable ==> !writeopen && readopen == old(readopen) && readers == {} && writers == old(writers)
      ensures !writable ==> !readopen && writeopen == old(writeopen) && writers == {} && readers == old(readers)
      ensures freed <==> !readopen && !writeopen
    {
      DoKeeps(Abs(), Close(writable));
      if writable {
        writeopen, readers := false, {};
      } else {
        readopen, writers := false, {};
      }
      return !readopen && !writeopen;
    }
  }

  lemma FullIsFull(s: State)
    requires Shape(s)
    ensures Full(s) <==> s.nwrite == (s.nread + PIPESIZE) % WORD
    ensures Full(s) ==> forall bytes: seq<bv8> :: Stored(s, bytes) == s
  {
  }

  lemma PutIs(s: State, b: bv8, rest: seq<bv8>)
    requires Inv(s) && !Full(s)
    ensures Shape(Put(s, b)) && Stored(s, [b] + rest) == Stored(Put(s, b), rest)
    ensures Put(s, b) == s.(data := Put(s, b).data, nwrite := Put(s, b).nwrite, accepted := s.accepted + [b])
  {
    PutKeeps(s, b);
    assert ([b] + rest)[1..] == rest;
  }

  lemma GetIs(s: State, n: nat)
    requires Inv(s) && !Empty(s)
    ensures Shape(Get(s)) && Fetched(s, n + 1) == Fetched(Get(s), n)
    ensures Get(s) == s.(nread := Get(s).nread, delivered := Get(s).delivered)
  {
    GetKeeps(s);
  }

  lemma InvShape(s: State)
    requires Inv(s)
    ensures Shape(s) && |s.delivered| <= |s.accepted| <= |s.delivered| + PIPESIZE
  {
  }
}
