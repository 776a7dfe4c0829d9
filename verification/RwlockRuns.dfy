/**
 Runs of any number of threads over one reader-writer lock: exclusion, the balance of holds, the count
 of waiting writers, and writer preference.
 */
module RwlockRuns {
  import opened Common
  import opened Rwlock

  /** What a call asks for. */
  datatype Ask = Reading | Writing | Releasing

  datatype Event =
    | ReadLocked(t: Tid)
    | WriteLocked(t: Tid)
    | Unlocked(t: Tid, read: bool)
      // a blocking call begins
    | Called(t: Tid, write: bool, timed: bool)
      // expired when a time limit, if the call has one, has passed
    | Refused(t: Tid, ask: Ask, code: Code, expired: bool)
      // a blocking call goes on; queued when it is registered as a waiting writer
    | Waited(t: Tid, queued: bool, expired: bool)

  /** The lock, the blocking calls in progress, and what has happened. */
  datatype State = State(lock: View, inside: map<Tid, Call>, log: seq<Event>)

  datatype Action =
    | Enter(t: Tid, write: bool, timed: bool)
    | Pass(t: Tid, expired: bool)
    | TryRdlock(t: Tid)
    | TryWrlock(t: Tid)
    | Release(t: Tid)

  /** A thread inside a blocking call does nothing else. */
  ghost predicate Enabled(s: State, a: Action) {
    if a.Pass? then a.t in s.inside else a.t !in s.inside
  }

  ghost function Outcome(write: bool, t: Tid, code: Code, expired: bool): Event {
    if code != OK then Refused(t, if write then Writing else Reading, code, expired)
    else if write then WriteLocked(t)
    else ReadLocked(t)
  }

  ghost function Next(s: State, a: Action): State
    requires Enabled(s, a)
  {
    match a
    case Enter(t, write, timed) =>
      State(s.lock, s.inside[t := Call(write, timed, false)], s.log + [Called(t, write, timed)])
    case Pass(t, expired) =>
      var call := s.inside[t];
      var r := LockPass(s.lock, t, call, expired);
      match r.1 {
        case Return(code) => State(r.0, s.inside - {t}, s.log + [Outcome(call.write, t, code, expired)])
        case Again(registered) =>
          State(r.0, s.inside[t := call.(registered := registered)], s.log + [Waited(t, registered, expired)])
      }
    case TryRdlock(t) =>
      var r := TryRead(s.lock, t);
      State(r.0, s.inside, s.log + [Outcome(false, t, r.1, false)])
    case TryWrlock(t) =>
      var r := TryWrite(s.lock, t);
      State(r.0, s.inside, s.log + [Outcome(true, t, r.1, false)])
    case Release(t) =>
      var r := Unlock(s.lock, t);
      State(r.0, s.inside,
            s.log + [if r.1 == OK then Unlocked(t, Reads(s.lock, t)) else Refused(t, Releasing, r.1, false)])
  }

  ghost predicate CanRun(s: State, acts: seq<Action>)
    decreases |acts|
  {
    acts == [] || (Enabled(s, acts[0]) && CanRun(Next(s, acts[0]), acts[1..]))
  }

  ghost function Run(s: State, acts: seq<Action>): State
    requires CanRun(s, acts)
    decreases |acts|
  {
    if acts == [] then s else Run(Next(s, acts[0]), acts[1..])
  }

  const INIT: State := State(View(None, 0, 0, 0, []), map[], [])

  // ---------------------------------------------------------------------------------------------
  // Holds, counted from the events

  /** Read locks taken by t less those given back. */
  function ReadHolds(log: seq<Event>, t: Tid): int {
    if log == [] then 0
    else ReadHolds(Butlast(log), t)
         + (if Last(log) == ReadLocked(t) then 1 else if Last(log) == Unlocked(t, true) then -1 else 0)
  }

  /** Write locks taken by t less those given back. */
  function WriteHolds(log: seq<Event>, t: Tid): int {
    if log == [] then 0
    else WriteHolds(Butlast(log), t)
         + (if Last(log) == WriteLocked(t) then 1 else if Last(log) == Unlocked(t, false) then -1 else 0)
  }

  lemma HoldsStep(log: seq<Event>, e: Event, t: Tid)
    ensures ReadHolds(log + [e], t)
            == ReadHolds(log, t) + (if e == ReadLocked(t) then 1 else if e == Unlocked(t, true) then -1 else 0)
    ensures WriteHolds(log + [e], t)
            == WriteHolds(log, t) + (if e == WriteLocked(t) then 1 else if e == Unlocked(t, false) then -1 else 0)
  {
    assert Butlast(log + [e]) == log;
  }

  /** The writers in the queue: those whose last event is a wait as a registered writer. */
  function Queued(log: seq<Event>): set<Tid> {
    if log == [] then {}
    else
      var e := Last(log);
      if e.Waited? && e.queued then Queued(Butlast(log)) + {e.t} else Queued(Butlast(log)) - {e.t}
  }

  lemma QueuedStep(log: seq<Event>, e: Event)
    ensures Queued(log + [e])
            == if e.Waited? && e.queued then Queued(log) + {e.t} else Queued(log) - {e.t}
  {
    assert Butlast(log + [e]) == log;
  }

  /** A blocking call in progress: whether it asks to write, and whether it has a time limit. */
  datatype Pending = Pending(write: bool, timed: bool)

  function PendingOf(log: seq<Event>, t: Tid): Option<Pending> {
    if log == [] then None
    else
      var e := Last(log);
      if e.t != t || e.Waited? then PendingOf(Butlast(log), t)
      else if e.Called? then Some(Pending(e.write, e.timed))
      else None
  }

  lemma PendingStep(log: seq<Event>, e: Event, t: Tid)
    ensures PendingOf(log + [e], t)
            == if e.t != t || e.Waited? then PendingOf(log, t)
               else if e.Called? then Some(Pending(e.write, e.timed))
               else None
  {
    assert Butlast(log + [e]) == log;
  }

  // ---------------------------------------------------------------------------------------------
  // The waiting writers

  /** The threads registered as waiting writers. */
  ghost function Registered(s: State): set<Tid> {
    set t | t in s.inside && s.inside[t].registered
  }

  /** The 32-bit count is the number of registered calls, which are write calls and are in the queue. */
  ghost predicate CountOk(s: State) {
    && s.lock.waitingWriters == |Registered(s)| % 0x1_0000_0000
    && (forall t | t in s.inside && s.inside[t].registered :: s.inside[t].write)
    && Registered(s) == Queued(s.log)
  }

  /** A thread is inside the call its events say it is in. */
  ghost predicate CallOk(s: State, t: Tid) {
    PendingOf(s.log, t)
    == if t in s.inside then Some(Pending(s.inside[t].write, s.inside[t].timed)) else None
  }

  /** The count and every call in progress are as the events say. */
  ghost predicate WritersOk(s: State) {
    CountOk(s) && forall t: Tid :: CallOk(s, t)
  }

  lemma WrapCount(n: nat)
    ensures Inc32(n % 0x1_0000_0000) == (n + 1) % 0x1_0000_0000
    ensures n > 0 ==> Dec32(n % 0x1_0000_0000) == (n - 1) % 0x1_0000_0000
  {
    WrapUp(n);
    if n > 0 {
      WrapUp(n - 1);
    }
  }

  lemma WrapUp(n: nat)
    ensures var r := n % 0x1_0000_0000;
            (n + 1) % 0x1_0000_0000 == if r == 0xffff_ffff then 0 else r + 1
  {
  }

  lemma SizeStep(r: set<Tid>, r': set<Tid>, t: Tid)
    requires forall u | u != t :: u in r' <==> u in r
    ensures |r'| == |r| + (if t in r' then 1 else 0) - (if t in r then 1 else 0)
  {
    assert r' - {t} == r - {t};
    if t !in r {
      assert r - {t} == r;
    }
    if t !in r' {
      assert r' - {t} == r';
    }
  }

  /** Whether t is queued after a step of t that records e. */
  ghost predicate QueuesBy(s: State, s': State, t: Tid, e: Event) {
    && e.t == t && s'.log == s.log + [e]
    && (forall u | u != t :: u in s'.inside <==> u in s.inside)
    && (forall u | u != t && u in s.inside :: s'.inside[u] == s.inside[u])
    && (t in s'.inside && s'.inside[t].registered <==> e.Waited? && e.queued)
  }

  lemma RegisteredStep(s: State, s': State, t: Tid, e: Event)
    requires Registered(s) == Queued(s.log) && QueuesBy(s, s', t, e)
    ensures Registered(s') == Queued(s'.log)
    ensures |Registered(s')|
            == |Registered(s)| + (if t in Registered(s') then 1 else 0) - (if t in Registered(s) then 1 else 0)
  {
    QueuedStep(s.log, e);
    SizeStep(Registered(s), Registered(s'), t);
  }

  /** A pass changes the count of waiting writers with the caller's registration. */
  lemma PassCount(s: State, t: Tid, expired: bool)
    requires CountOk(s) && Enabled(s, Pass(t, expired))
    ensures CountOk(Next(s, Pass(t, expired)))
  {
    hide Find, Inc32, Dec32, AddTo, Queued;
    var s' := Next(s, Pass(t, expired));
    RegisteredStep(s, s', t, Last(s'.log));
    var n := |Registered(s)|;
    WrapCount(n);
    WrapCount(n + 1);
    if t in s'.inside && s'.inside[t].registered {
      assert t in Registered(s');
    } else {
      assert t !in Registered(s');
    }
    if s.inside[t].registered {
      assert t in Registered(s);
      assert n > 0;
    } else {
      assert t !in Registered(s);
    }
  }

  lemma StepKeepsCount(s: State, a: Action)
    requires CountOk(s) && Enabled(s, a)
    ensures CountOk(Next(s, a))
  {
    if a.Pass? {
      PassCount(s, a.t, a.expired);
    } else {
      OtherStepCount(s, a);
      hide Next, Queued;
      var s' := Next(s, a);
      assert a.t !in Registered(s) && a.t !in Registered(s');
      RegisteredStep(s, s', a.t, Last(s'.log));
    }
  }

  /** What a step records of its thread's call, and that it leaves the calls of others alone. */
  lemma StepRecords(s: State, a: Action)
    requires Enabled(s, a)
    ensures var s', t := Next(s, a), a.t;
            && s'.log != [] && s'.log == s.log + [Last(s'.log)] && Last(s'.log).t == t
            && (forall u | u != t :: u in s'.inside <==> u in s.inside)
            && (forall u | u != t && u in s.inside :: s'.inside[u] == s.inside[u])
            && match Last(s'.log)
               case Called(_, write, timed) => t in s'.inside && s'.inside[t] == Call(write, timed, false)
               case Waited(_, queued, _) =>
                 t in s.inside && t in s'.inside && s'.inside[t] == s.inside[t].(registered := queued)
               case _ => t !in s'.inside
  {
    hide Find, Inc32, Dec32, AddTo, RemoveFrom, AdmitsReader, Deadlocks, AdmitsWriter;
  }

  lemma StepKeepsWriters(s: State, a: Action)
    requires WritersOk(s) && Enabled(s, a)
    ensures WritersOk(Next(s, a))
  {
    StepKeepsCount(s, a);
    StepRecords(s, a);
    hide CountOk, Next, Enabled, PendingOf;
    var s' := Next(s, a);
    forall u: Tid ensures CallOk(s', u) {
      assert CallOk(s, u);
      PendingStep(s.log, Last(s'.log), u);
    }
  }

  /** Outside the loop of a blocking call, nothing is registered. */
  lemma OtherStepCount(s: State, a: Action)
    requires Enabled(s, a) && !a.Pass?
    ensures var s' := Next(s, a);
            && s'.lock.waitingWriters == s.lock.waitingWriters && s'.log != []
            && QueuesBy(s, s', a.t, Last(s'.log))
            && (a.t in s'.inside ==> !s'.inside[a.t].registered)
  {
    hide Find, Inc32, Dec32, AddTo, RemoveFrom, AdmitsReader, Deadlocks, AdmitsWriter;
  }

  lemma {:induction false} RunKeepsWriters(s: State, acts: seq<Action>)
    requires WritersOk(s) && CanRun(s, acts)
    ensures WritersOk(Run(s, acts))
    decreases |acts|
  {
    hide WritersOk, Next, Enabled;
    if acts != [] {
      StepKeepsWriters(s, acts[0]);
      RunKeepsWriters(Next(s, acts[0]), acts[1..]);
    }
  }

  /** In every reachable state, waiting_writers is the number of registered calls, modulo 2^32. */
  lemma WaitingWritersCounted(acts: seq<Action>)
    requires CanRun(INIT, acts)
    ensures var s := Run(INIT, acts);
            && s.lock.waitingWriters == |Registered(s)| % 0x1_0000_0000
            && (forall t | t in s.inside && s.inside[t].registered :: s.inside[t].write)
            && Registered(s) == Queued(s.log)
  {
    assert Registered(INIT) == {};
    RunKeepsWriters(INIT, acts);
  }

  // ---------------------------------------------------------------------------------------------
  // The invariant

  ghost predicate Balanced(s: State, t: Tid) {
    && ReadHolds(s.log, t) == CountOf(s.lock.readers, t)
    && WriteHolds(s.log, t) == (if s.lock.writer == Some(t) then 1 else 0)
  }

  ghost predicate Inv(s: State) {
    Shape(s.lock) && (forall t :: Balanced(s, t)) && WritersOk(s)
  }

  /** The step admits a reader. */
  ghost predicate Admits(s: State, a: Action)
    requires Enabled(s, a)
  {
    (a.TryRdlock? || (a.Pass? && !s.inside[a.t].write)) && AdmitsReader(s.lock, a.t)
  }

  /** The 32-bit reader count has room for what the step does. */
  ghost predicate Fits(s: State, a: Action)
    requires Enabled(s, a)
  {
    Admits(s, a) ==> s.lock.readerCount < UINT32_MAX
  }

  /** A change of the lock that leaves the table alone. */
  lemma SameTable(s: State, s': State, t: Tid, e: Event)
    requires Inv(s) && s'.log == s.log + [e] && s'.lock.readers == s.lock.readers
    requires Shape(s'.lock) && WritersOk(s')
    requires if s'.lock.writer == s.lock.writer then e.Refused? || e.Waited? || e.Called?
             else if s'.lock.writer == Some(t) then s.lock.writer == None && e == WriteLocked(t)
             else s.lock.writer == Some(t) && s'.lock.writer == None && e == Unlocked(t, false)
    ensures Inv(s')
  {
    hide Shape, ReadHolds, WriteHolds, CountOf, WritersOk;
    forall u: Tid ensures Balanced(s', u) {
      HoldsStep(s.log, e, u);
      assert Balanced(s, u);
    }
  }

  lemma AdmitStep(s: State, s': State, t: Tid)
    requires Inv(s) && AdmitsReader(s.lock, t) && s.lock.readerCount < UINT32_MAX
    requires s'.lock == AddReader(s.lock, t) && s'.log == s.log + [ReadLocked(t)] && WritersOk(s')
    ensures Inv(s')
  {
    AddReaderCounts(s.lock, t);
    hide Shape, ReadHolds, WriteHolds, CountOf, AddTo, WritersOk;
    forall u: Tid ensures Balanced(s', u) {
      HoldsStep(s.log, ReadLocked(t), u);
      assert Balanced(s, u);
    }
  }

  lemma ReleaseStep(s: State, t: Tid)
    requires Inv(s) && Enabled(s, Release(t))
    ensures Inv(Next(s, Release(t)))
    ensures Last(Next(s, Release(t)).log) == Refused(t, Releasing, EPERM, false) <==> NoHold(s.log, t)
  {
    var s' := Next(s, Release(t));
    var e := Last(s'.log);
    assert s'.log == s.log + [e];
    assert Balanced(s, t);
    StepKeepsWriters(s, Release(t));
    ReadsIfHeld(s.lock, t);
    if Reads(s.lock, t) {
      ReadReleased(s, s', t);
    } else {
      hide ReadHolds, WriteHolds, CountOf, Find, Inv, WritersOk;
      SameTable(s, s', t, e) by {
        assert Inv(s);
        ReleasedShape(s, t);
      }
    }
  }

  lemma ReadReleased(s: State, s': State, t: Tid)
    requires Inv(s) && Reads(s.lock, t) && WritersOk(s')
    requires s' == State(RemoveReader(s.lock, t), s.inside, s.log + [Unlocked(t, true)])
    ensures Inv(s')
  {
    hide Shape, ReadHolds, WriteHolds, CountOf, RemoveFrom, Find, WritersOk;
    RemoveReaderCounts(s.lock, t);
    forall u: Tid ensures Balanced(s', u) {
      HoldsStep(s.log, Unlocked(t, true), u);
      assert Balanced(s, u);
    }
  }

  lemma ReleasedShape(s: State, t: Tid)
    requires Inv(s) && Enabled(s, Release(t)) && !Reads(s.lock, t)
    ensures Shape(Next(s, Release(t)).lock)
    ensures s.lock.writer == Some(t) ==> Next(s, Release(t)).lock.writer == None
  {
  }

  lemma ReadsIfHeld(v: View, t: Tid)
    requires Shape(v)
    ensures Reads(v, t) <==> CountOf(v.readers, t) > 0
  {
  }

  /** A write request at a lock that is not the caller's: it is granted, or the table stays as it was. */
  lemma WriteShape(v: View, t: Tid, n: nat)
    requires Shape(v) && AdmitsWriter(v)
    ensures Shape(TakeWrite(v.(waitingWriters := n), t)) && v.readers == []
  {
    EmptyTotal(v.readers);
  }

  lemma EmptyTotal(readers: seq<Reader>)
    requires Table(readers) && Total(readers) == 0
    ensures readers == []
  {
  }

  lemma PassStep(s: State, t: Tid, expired: bool)
    requires Inv(s) && Enabled(s, Pass(t, expired)) && Fits(s, Pass(t, expired))
    ensures Inv(Next(s, Pass(t, expired)))
  {
    StepKeepsWriters(s, Pass(t, expired));
    hide ReadHolds, WriteHolds, CountOf, Find, Inc32, Dec32, AddTo, WritersOk;
    var s', call := Next(s, Pass(t, expired)), s.inside[t];
    var e := Last(s'.log);
    assert s'.log == s.log + [e];
    if !call.write && AdmitsReader(s.lock, t) {
      AdmitStep(s, s', t);
    } else {
      if call.write && !Deadlocks(s.lock, t) && AdmitsWriter(s.lock) {
        WriteShape(s.lock, t, s'.lock.waitingWriters);
      }
      SameTable(s, s', t, e);
    }
  }

  /** Every step keeps the invariant, as long as the reader count has room. */
  lemma StepKeepsInv(s: State, a: Action)
    requires Inv(s) && Enabled(s, a) && Fits(s, a)
    ensures Inv(Next(s, a))
  {
    match a
    case Enter(t, write, timed) => EnterStep(s, a);
    case Pass(t, expired) => PassStep(s, t, expired);
    case TryRdlock(t) => TryReadStep(s, t);
    case TryWrlock(t) => TryWriteStep(s, t);
    case Release(t) => ReleaseStep(s, t);
  }

  lemma EnterStep(s: State, a: Action)
    requires Inv(s) && Enabled(s, a) && a.Enter?
    ensures Inv(Next(s, a))
  {
    StepKeepsWriters(s, a);
    hide ReadHolds, WriteHolds, CountOf, Shape, Balanced, WritersOk;
    SameTable(s, Next(s, a), a.t, Called(a.t, a.write, a.timed));
  }

  lemma TryReadStep(s: State, t: Tid)
    requires Inv(s) && Enabled(s, TryRdlock(t)) && Fits(s, TryRdlock(t))
    ensures Inv(Next(s, TryRdlock(t)))
  {
    StepKeepsWriters(s, TryRdlock(t));
    var s' := Next(s, TryRdlock(t));
    hide ReadHolds, WriteHolds, CountOf, Shape, Balanced, WritersOk, AddReader, AdmitsReader;
    if AdmitsReader(s.lock, t) {
      AdmitStep(s, s', t);
    } else {
      SameTable(s, s', t, Refused(t, Reading, EBUSY, false));
    }
  }

  lemma TryWriteStep(s: State, t: Tid)
    requires Inv(s) && Enabled(s, TryWrlock(t))
    ensures Inv(Next(s, TryWrlock(t)))
  {
    StepKeepsWriters(s, TryWrlock(t));
    hide ReadHolds, WriteHolds, CountOf, Shape, Balanced, WritersOk, Deadlocks;
    var s' := Next(s, TryWrlock(t));
    if Deadlocks(s.lock, t) {
      SameTable(s, s', t, Refused(t, Writing, EDEADLK, false));
    } else if AdmitsWriter(s.lock) {
      WriteShape(s.lock, t, s.lock.waitingWriters);
      SameTable(s, s', t, WriteLocked(t));
    } else {
      SameTable(s, s', t, Refused(t, Writing, EBUSY, false));
    }
  }

  /** And only then: admitting a reader at the limit wraps the count and breaks the invariant. */
  lemma StepKeepsInvExactly(s: State, a: Action)
    requires Inv(s) && Enabled(s, a)
    ensures Inv(Next(s, a)) <==> Fits(s, a)
  {
    if Fits(s, a) {
      StepKeepsInv(s, a);
    } else {
      AddReaderFitsExactly(s.lock, a.t);
    }
  }

  /** No step of the run admits a reader while 2^32 - 1 read holds are outstanding. */
  ghost predicate AllFit(s: State, acts: seq<Action>)
    requires CanRun(s, acts)
    decreases |acts|
  {
    acts == [] || (Fits(s, acts[0]) && AllFit(Next(s, acts[0]), acts[1..]))
  }

  lemma {:induction false} RunKeepsInv(s: State, acts: seq<Action>)
    requires Inv(s) && CanRun(s, acts) && AllFit(s, acts)
    ensures Inv(Run(s, acts))
    decreases |acts|
  {
    hide Inv, Next, Enabled, Fits;
    if acts != [] {
      StepKeepsInv(s, acts[0]);
      RunKeepsInv(Next(s, acts[0]), acts[1..]);
    }
  }

  lemma InitInv()
    ensures Inv(INIT)
  {
    assert Registered(INIT) == {};
  }

  // ---------------------------------------------------------------------------------------------
  // Exclusion

  ghost predicate NoHold(log: seq<Event>, t: Tid) {
    ReadHolds(log, t) == 0 && WriteHolds(log, t) == 0
  }

  /** While one thread holds the lock for writing, no other holds it in any way. */
  ghost predicate Exclusive(log: seq<Event>) {
    forall t: Tid, u: Tid | t != u && WriteHolds(log, u) > 0 :: NoHold(log, t)
  }

  lemma InvExcludes(s: State)
    requires Inv(s)
    ensures Exclusive(s.log)
  {
    hide ReadHolds, WriteHolds;
    forall t: Tid, u: Tid | t != u && WriteHolds(s.log, u) > 0 ensures NoHold(s.log, t) {
      assert Balanced(s, t) && Balanced(s, u);
    }
  }

  /**
   Over any run that admits no reader while 2^32 - 1 read holds are outstanding, with holds counted from
   the events: while one thread holds the lock for writing, no other thread holds it in any way; nobody
   holds it for writing twice; no hold is negative; an unlock is refused exactly when its caller holds
   nothing; and the table's counts add up to reader_count.
   */
  lemma Exclusion(acts: seq<Action>, t: Tid)
    requires CanRun(INIT, acts) && AllFit(INIT, acts)
    ensures var s := Run(INIT, acts);
            && Exclusive(s.log)
            && 0 <= ReadHolds(s.log, t) && 0 <= WriteHolds(s.log, t) <= 1
            && (t !in s.inside ==>
                  (Last(Next(s, Release(t)).log) == Refused(t, Releasing, EPERM, false) <==> NoHold(s.log, t)))
            && Total(s.lock.readers) == s.lock.readerCount
  {
    InitInv();
    RunKeepsInv(INIT, acts);
    var s := Run(INIT, acts);
    InvExcludes(s);
    hide Run, CanRun, AllFit, ReadHolds, WriteHolds, Unlock;
    assert Balanced(s, t);
    if t !in s.inside {
      ReleaseStep(s, t);
    }
  }

  // ---------------------------------------------------------------------------------------------
  // Where exclusion ends

  /** A thread that neither reads nor writes nor is in a call. */
  ghost predicate Stranger(s: State, u: Tid) {
    u !in s.inside && !Reads(s.lock, u) && s.lock.writer != Some(u)
  }

  function Threads(readers: seq<Reader>): set<Tid> {
    set r | r in readers :: r.thread
  }

  lemma {:induction false} Outside(known: set<Tid>) returns (u: Tid)
    ensures u !in known && forall t | t in known :: t < u
    decreases |known|
  {
    if known == {} {
      u := 0;
    } else {
      var t :| t in known;
      var v := Outside(known - {t});
      u := if v > t then v else t + 1;
      forall x | x in known ensures x < u {
        assert x != t ==> x in known - {t};
      }
    }
  }

  lemma StrangerExists(s: State, t: Tid) returns (u: Tid)
    ensures u != t && Stranger(s, u)
  {
    u := Outside(Threads(s.lock.readers) + s.inside.Keys + {t}
                 + if s.lock.writer.Some? then {s.lock.writer.value} else {});
    InThreads(s.lock.readers, u);
  }

  lemma InThreads(readers: seq<Reader>, t: Tid)
    ensures Find(readers, t) < |readers| ==> t in Threads(readers)
  {
    if Find(readers, t) < |readers| {
      assert readers[Find(readers, t)] in readers;
    }
  }

  /** A stranger takes the write lock whenever there is no writer and the reader count says zero. */
  lemma StrangerWrites(s: State, u: Tid)
    requires Stranger(s, u) && AdmitsWriter(s.lock)
    ensures var s' := Next(s, TryWrlock(u)); s'.log == s.log + [WriteLocked(u)]
  {
  }

  /** So, if somebody holds the lock by the events, exclusion is gone. */
  lemma StrangerIntrudes(s: State, t: Tid, u: Tid)
    requires Stranger(s, u) && AdmitsWriter(s.lock) && t != u
    requires ReadHolds(s.log, t) > 0 && WriteHolds(s.log, u) >= 0
    ensures !Exclusive(Next(s, TryWrlock(u)).log)
  {
    hide ReadHolds, WriteHolds;
    StrangerWrites(s, u);
    HoldsStep(s.log, WriteLocked(u), t);
    HoldsStep(s.log, WriteLocked(u), u);
    assert !NoHold(s.log + [WriteLocked(u)], t);
  }

  /** What admitting a reader at the limit leaves: a reader, and a reader count of zero. */
  lemma Overflowed(s: State, a: Action)
    requires Inv(s) && Enabled(s, a) && !Fits(s, a)
    ensures var s' := Next(s, a);
            && s'.log == s.log + [ReadLocked(a.t)] && a.t !in s'.inside
            && s'.lock == s.lock.(readers := AddTo(s.lock.readers, a.t), readerCount := 0)
            && ReadHolds(s'.log, a.t) > 0 && WriteHolds(s'.log, a.t) >= 0
            && (forall u: Tid | Stranger(s', u) :: WriteHolds(s'.log, u) == 0)
  {
    hide ReadHolds, WriteHolds, AddTo, WritersOk;
    var s' := Next(s, a);
    forall u: Tid ensures WriteHolds(s'.log, u) == (if s.lock.writer == Some(u) then 1 else 0) {
      HoldsStep(s.log, ReadLocked(a.t), u);
      assert Balanced(s, u);
    }
    HoldsStep(s.log, ReadLocked(a.t), a.t);
    assert Balanced(s, a.t);
  }

  /** The writer's own table at the limit: one entry, which has wrapped to zero. */
  lemma OwnEntryWraps(s: State, t: Tid)
    requires Shape(s.lock) && s.lock.writer == Some(t) && s.lock.readerCount == UINT32_MAX
    ensures AddTo(s.lock.readers, t) == [Reader(t, 0)]
  {
    var r := s.lock.readers;
    assert r != [];
    assert r[0].thread == t == r[|r| - 1].thread;
    assert r == [r[0]] && r[1..] == [];
    assert Total(r) == r[0].count;
    assert r[0 := Reader(t, 0)] == [Reader(t, 0)];
  }

  /** The writer reads once more and unlocks twice: its write hold goes, its wrapped read holds stay. */
  function GiveWay(t: Tid): seq<Action> {
    [TryRdlock(t), Release(t), Release(t)]
  }

  lemma WriterGivesWay(s: State, t: Tid, n: nat)
    requires t !in s.inside && s.lock == View(Some(t), 1, 0, n, [Reader(t, 0)])
    ensures CanRun(s, GiveWay(t))
    ensures var s' := Run(s, GiveWay(t));
            && s'.lock == View(None, 0, 0, n, []) && s'.inside == s.inside
            && s'.log == s.log + [ReadLocked(t)] + [Unlocked(t, true)] + [Unlocked(t, false)]
    ensures AllFit(s, GiveWay(t))
  {
    var s1 := Next(s, TryRdlock(t));
    assert [Reader(t, 0)][0 := Reader(t, 1)] == [Reader(t, 1)];
    assert s1.lock == View(Some(t), 1, 1, n, [Reader(t, 1)]);
    var s2 := Next(s1, Release(t));
    assert s2.lock == View(Some(t), 1, 0, n, []);
    var s3 := Next(s2, Release(t));
    OneStep(s2, Release(t), []);
    OneStep(s1, Release(t), [Release(t)]);
    OneStep(s, TryRdlock(t), [Release(t), Release(t)]);
    OneFits(s2, Release(t), []);
    OneFits(s1, Release(t), [Release(t)]);
    OneFits(s, TryRdlock(t), [Release(t), Release(t)]);
  }

  lemma OneFits(s: State, a: Action, rest: seq<Action>)
    requires Enabled(s, a) && CanRun(Next(s, a), rest) && CanRun(s, [a] + rest)
    requires Fits(s, a) && AllFit(Next(s, a), rest)
    ensures AllFit(s, [a] + rest)
  {
    assert ([a] + rest)[1..] == rest;
  }

  /**
   Admitting a reader at the limit always costs the lock its exclusion: there is a continuation, itself
   within the limit, after which one thread holds it for writing beside another that holds it.
   */
  lemma OverflowIntrudes(s: State, a: Action) returns (more: seq<Action>)
    requires Inv(s) && Enabled(s, a) && !Fits(s, a)
    ensures CanRun(Next(s, a), more) && AllFit(Next(s, a), more)
    ensures !Exclusive(Run(Next(s, a), more).log)
  {
    var s', t := Next(s, a), a.t;
    Overflowed(s, a);
    var u := StrangerExists(s', t);
    if s.lock.writer == None {
      StrangerIntrudes(s', t, u);
      more := [TryWrlock(u)];
      OneStep(s', TryWrlock(u), []);
    } else {
      OwnEntryWraps(s, t);
      WriterGivesWay(s', t, s.lock.waitingWriters);
      var way := GiveWay(t);
      var s2 := Run(s', way);
      HoldsAfterWay(s'.log, t, u);
      hide Run, CanRun, AllFit, Exclusive, Next;
      StrangerIntrudes(s2, t, u);
      more := way + [TryWrlock(u)];
      LastStep(s', way, TryWrlock(u));
    }
  }

  lemma HoldsAfterWay(log: seq<Event>, t: Tid, u: Tid)
    requires t != u
    ensures var l := log + [ReadLocked(t)] + [Unlocked(t, true)] + [Unlocked(t, false)];
            ReadHolds(l, t) == ReadHolds(log, t) && WriteHolds(l, u) == WriteHolds(log, u)
  {
    hide ReadHolds, WriteHolds;
    var l1 := log + [ReadLocked(t)];
    var l2 := l1 + [Unlocked(t, true)];
    HoldsStep(log, ReadLocked(t), t);
    HoldsStep(l1, Unlocked(t, true), t);
    HoldsStep(l2, Unlocked(t, false), t);
    HoldsStep(log, ReadLocked(t), u);
    HoldsStep(l1, Unlocked(t, true), u);
    HoldsStep(l2, Unlocked(t, false), u);
  }

  /** One more step at the end of a run within the limit. */
  lemma {:induction false} LastStep(s: State, acts: seq<Action>, a: Action)
    requires CanRun(s, acts) && AllFit(s, acts) && Enabled(Run(s, acts), a) && Fits(Run(s, acts), a)
    ensures CanRun(s, acts + [a]) && AllFit(s, acts + [a])
    ensures Run(s, acts + [a]) == Next(Run(s, acts), a)
    decreases |acts|
  {
    hide Next, Enabled, Fits;
    if acts == [] {
      OneStep(s, a, []);
      assert acts + [a] == [a] + [];
    } else {
      LastStep(Next(s, acts[0]), acts[1..], a);
      assert (acts + [a])[1..] == acts[1..] + [a];
    }
  }

  /** Every continuation that keeps to the limit keeps exclusion. */
  ghost predicate ExclusionSurvives(s: State) {
    forall more | CanRun(s, more) && AllFit(s, more) :: Exclusive(Run(s, more).log)
  }

  /**
   A step leaves exclusion safe in every continuation if and only if it does not admit a reader while
   reader_count is 2^32 - 1.
   */
  lemma ExclusionSurvivesExactly(s: State, a: Action)
    requires Inv(s) && Enabled(s, a)
    ensures ExclusionSurvives(Next(s, a)) <==> Fits(s, a)
  {
    hide Inv, Next, Enabled, Fits, Exclusive, Run, CanRun, AllFit;
    if Fits(s, a) {
      StepKeepsInv(s, a);
      var s' := Next(s, a);
      forall more | CanRun(s', more) && AllFit(s', more) ensures Exclusive(Run(s', more).log) {
        RunKeepsInv(s', more);
        InvExcludes(Run(s', more));
      }
    } else {
      var more := OverflowIntrudes(s, a);
    }
  }

  /** Every run that goes beyond the limit has a point from which exclusion can be lost. */
  lemma {:induction false} RunLosesExclusion(s: State, acts: seq<Action>) returns (k: nat, more: seq<Action>)
    requires Inv(s) && CanRun(s, acts) && !AllFit(s, acts)
    ensures k <= |acts| && CanRun(s, acts[..k] + more)
    ensures !Exclusive(Run(s, acts[..k] + more).log)
    decreases |acts|
  {
    hide Inv, Next, Enabled, Fits, Exclusive;
    var a := acts[0];
    if Fits(s, a) {
      StepKeepsInv(s, a);
      var j, rest := RunLosesExclusion(Next(s, a), acts[1..]);
      k, more := j + 1, rest;
      assert acts[..k] == [a] + acts[1..][..j];
      assert acts[..k] + more == [a] + (acts[1..][..j] + more);
      OneStep(s, a, acts[1..][..j] + more);
    } else {
      more := OverflowIntrudes(s, a);
      k := 1;
      assert acts[..1] == [a];
      OneStep(s, a, more);
    }
  }

  // ---------------------------------------------------------------------------------------------
  // The answers of a run

  /** Some other thread holds the lock, or holds it for writing. */
  ghost predicate HeldByOther(log: seq<Event>, t: Tid) {
    exists u: Tid :: u != t && !NoHold(log, u)
  }

  ghost predicate WrittenByOther(log: seq<Event>, t: Tid) {
    exists u: Tid :: u != t && WriteHolds(log, u) > 0
  }

  /** As far as the 32-bit count can tell, writers are in the queue. */
  ghost predicate WritersWaiting(log: seq<Event>) {
    |Queued(log)| % 0x1_0000_0000 != 0
  }

  /** The thread is in a blocking call for this, or in none, and then it only tries. */
  ghost predicate Asks(log: seq<Event>, t: Tid, write: bool) {
    match PendingOf(log, t)
    case None => true
    case Some(call) => call.write == write
  }

  /** A try that fails is EBUSY at once; a blocking call fails only once its own time limit has passed. */
  ghost predicate GivesUp(log: seq<Event>, t: Tid, code: Code, expired: bool) {
    match PendingOf(log, t)
    case None => code == EBUSY
    case Some(call) => code == ETIMEDOUT && call.timed && expired
  }

  /** Something is in the way of t: for a writer any other holder, for a new reader a writer, even a waiting one. */
  ghost predicate InTheWay(log: seq<Event>, t: Tid, write: bool) {
    NoHold(log, t) && if write then HeldByOther(log, t) else WrittenByOther(log, t) || WritersWaiting(log)
  }

  /**
   Each answer is right for the calls, the holds and the queue there are before it.  A grant needs that
   nobody else is in the way; a refusal, or another round of waiting, that somebody is; and a call waits on
   exactly as long as no time limit of its own has passed.
   */
  ghost predicate RightAnswer(before: seq<Event>, e: Event) {
    match e
    case Called(t, _, _) => PendingOf(before, t) == None
    case ReadLocked(t) =>
      Asks(before, t, false) && !WrittenByOther(before, t) && (NoHold(before, t) ==> !WritersWaiting(before))
    case WriteLocked(t) => Asks(before, t, true) && NoHold(before, t) && !HeldByOther(before, t)
    case Unlocked(t, read) =>
      if read then ReadHolds(before, t) > 0 else ReadHolds(before, t) == 0 < WriteHolds(before, t)
    case Refused(t, Releasing, code, _) => code == EPERM && NoHold(before, t)
    case Refused(t, Writing, code, expired) =>
      && Asks(before, t, true)
      && if NoHold(before, t) then InTheWay(before, t, true) && GivesUp(before, t, code, expired)
         else code == EDEADLK
    case Refused(t, Reading, code, expired) =>
      Asks(before, t, false) && InTheWay(before, t, false) && GivesUp(before, t, code, expired)
    case Waited(t, queued, expired) =>
      match PendingOf(before, t)
      case None => false
      case Some(call) => queued == call.write && InTheWay(before, t, call.write) && !(call.timed && expired)
  }

  ghost predicate AllRight(log: seq<Event>) {
    log == [] || (AllRight(Butlast(log)) && RightAnswer(Butlast(log), Last(log)))
  }

  /** The tests the code makes, in terms of the events. */
  lemma TestsAreRight(s: State, t: Tid)
    requires Inv(s)
    ensures NoHold(s.log, t) <==> !Deadlocks(s.lock, t)
    ensures WrittenByOther(s.log, t) <==> s.lock.writer != None && s.lock.writer != Some(t)
    ensures NoHold(s.log, t) ==> (HeldByOther(s.log, t) <==> !AdmitsWriter(s.lock))
    ensures WritersWaiting(s.log) <==> s.lock.waitingWriters != 0
    ensures Reads(s.lock, t) ==> s.lock.writer == None || s.lock.writer == Some(t)
    ensures ReadHolds(s.log, t) >= 0 && (ReadHolds(s.log, t) > 0 <==> Reads(s.lock, t))
    ensures WriteHolds(s.log, t) > 0 <==> s.lock.writer == Some(t)
  {
    hide ReadHolds, WriteHolds, Queued;
    assert Balanced(s, t);
    ReadsIfHeld(s.lock, t);
    if s.lock.writer.Some? {
      assert Balanced(s, s.lock.writer.value);
      assert s.lock.writer.value != t ==> WriteHolds(s.log, s.lock.writer.value) > 0;
    }
    forall u: Tid ensures WriteHolds(s.log, u) > 0 <==> s.lock.writer == Some(u) {
      assert Balanced(s, u);
    }
    if NoHold(s.log, t) {
      OthersHold(s, t);
    }
  }

  lemma OthersHold(s: State, t: Tid)
    requires Inv(s) && NoHold(s.log, t)
    ensures HeldByOther(s.log, t) <==> !AdmitsWriter(s.lock)
  {
    hide ReadHolds, WriteHolds, WritersOk;
    if AdmitsWriter(s.lock) {
      EmptyTotal(s.lock.readers);
      forall u: Tid ensures NoHold(s.log, u) {
        assert Balanced(s, u);
      }
    } else {
      assert Balanced(s, t);
      var u := if s.lock.writer.Some? then s.lock.writer.value else s.lock.readers[0].thread;
      assert Balanced(s, u);
      ReadsIfHeld(s.lock, u);
      assert !NoHold(s.log, u);
    }
  }

  lemma StepAnswers(s: State, a: Action)
    requires Inv(s) && Enabled(s, a)
    ensures var s' := Next(s, a); s'.log == s.log + [Last(s'.log)] && RightAnswer(s.log, Last(s'.log))
  {
    match a
    case Enter(t, _, _) => CallIsPending(s, t);
    case Pass(t, expired) => PassAnswers(s, t, expired);
    case TryRdlock(t) => TryAnswers(s, a);
    case TryWrlock(t) => TryAnswers(s, a);
    case Release(t) => ReleaseAnswers(s, t);
  }

  lemma CallIsPending(s: State, t: Tid)
    requires Inv(s)
    ensures CallOk(s, t)
    ensures t in s.inside && s.inside[t].registered ==> s.inside[t].write
  {
    hide Shape, Balanced;
  }

  lemma PassAnswers(s: State, t: Tid, expired: bool)
    requires Inv(s) && Enabled(s, Pass(t, expired))
    ensures var s' := Next(s, Pass(t, expired));
            s'.log == s.log + [Last(s'.log)] && RightAnswer(s.log, Last(s'.log))
  {
    if s.inside[t].write {
      WritePassAnswers(s, t, expired);
    } else {
      ReadPassAnswers(s, t, expired);
    }
    hide *;
  }

  lemma WritePassAnswers(s: State, t: Tid, expired: bool)
    requires Inv(s) && Enabled(s, Pass(t, expired)) && s.inside[t].write
    ensures var s' := Next(s, Pass(t, expired));
            s'.log == s.log + [Last(s'.log)] && RightAnswer(s.log, Last(s'.log))
  {
    hide Inv, NoHold, HeldByOther, WrittenByOther, WritersWaiting, PendingOf, ReadHolds, WriteHolds, Inc32, Dec32,
      AddTo, Reads, Deadlocks, AdmitsWriter;
    TestsAreRight(s, t);
    CallIsPending(s, t);
    var s' := Next(s, Pass(t, expired));
    assert s'.log == s.log + [Last(s'.log)];
  }

  lemma ReadPassAnswers(s: State, t: Tid, expired: bool)
    requires Inv(s) && Enabled(s, Pass(t, expired)) && !s.inside[t].write
    ensures var s' := Next(s, Pass(t, expired));
            s'.log == s.log + [Last(s'.log)] && RightAnswer(s.log, Last(s'.log))
  {
    hide Inv, NoHold, HeldByOther, WrittenByOther, WritersWaiting, PendingOf, ReadHolds, WriteHolds, Inc32, Dec32,
      AddTo, Reads;
    TestsAreRight(s, t);
    CallIsPending(s, t);
    var s' := Next(s, Pass(t, expired));
    assert s'.log == s.log + [Last(s'.log)];
  }

  lemma TryAnswers(s: State, a: Action)
    requires Inv(s) && Enabled(s, a) && (a.TryRdlock? || a.TryWrlock?)
    ensures var s' := Next(s, a); s'.log == s.log + [Last(s'.log)] && RightAnswer(s.log, Last(s'.log))
  {
    hide Inv, NoHold, HeldByOther, WrittenByOther, WritersWaiting, PendingOf, ReadHolds, WriteHolds, AddReader, Reads;
    TestsAreRight(s, a.t);
    CallIsPending(s, a.t);
    var s' := Next(s, a);
    assert s'.log == s.log + [Last(s'.log)];
  }

  lemma ReleaseAnswers(s: State, t: Tid)
    requires Inv(s) && Enabled(s, Release(t))
    ensures var s' := Next(s, Release(t)); s'.log == s.log + [Last(s'.log)] && RightAnswer(s.log, Last(s'.log))
  {
    hide Inv, Asks, GivesUp, InTheWay, NoHold, HeldByOther, WrittenByOther, WritersWaiting, PendingOf, ReadHolds,
      WriteHolds, RemoveReader, Dec32, Reads, AdmitsWriter;
    TestsAreRight(s, t);
    var s' := Next(s, Release(t));
    assert s'.log == s.log + [Last(s'.log)];
  }

  lemma {:induction false} RunAnswers(s: State, acts: seq<Action>)
    requires Inv(s) && AllRight(s.log) && CanRun(s, acts) && AllFit(s, acts)
    ensures AllRight(Run(s, acts).log)
    decreases |acts|
  {
    hide Inv, Next, Enabled, Fits, RightAnswer;
    if acts != [] {
      var s' := Next(s, acts[0]);
      StepKeepsInv(s, acts[0]);
      StepAnswers(s, acts[0]);
      assert Butlast(s'.log) == s.log;
      RunAnswers(s', acts[1..]);
    }
  }

  lemma {:induction false} RightAt(log: seq<Event>, j: nat)
    requires AllRight(log) && j < |log|
    ensures RightAnswer(log[..j], log[j])
  {
    hide RightAnswer;
    if j < |log| - 1 {
      RightAt(Butlast(log), j);
      assert Butlast(log)[..j] == log[..j];
    }
  }

  /** A call times out, or stops waiting, on account of its own limit alone. */
  ghost predicate Patient(before: seq<Event>, e: Event) {
    match e
    case Refused(t, ask, ETIMEDOUT, expired) =>
      && expired && ask != Releasing
      && PendingOf(before, t) == Some(Pending(ask == Writing, true))
    case Waited(t, _, expired) =>
      PendingOf(before, t).Some? && !(PendingOf(before, t).value.timed && expired)
    case _ => true
  }

  ghost predicate AllPatient(log: seq<Event>) {
    log == [] || (AllPatient(Butlast(log)) && Patient(Butlast(log), Last(log)))
  }

  lemma StepIsPatient(s: State, a: Action)
    requires WritersOk(s) && Enabled(s, a)
    ensures var s' := Next(s, a); s'.log != [] && s'.log == s.log + [Last(s'.log)] && Patient(s.log, Last(s'.log))
  {
    StepRecords(s, a);
    assert CallOk(s, a.t);
    hide WritersOk, PendingOf, Find, Inc32, Dec32, AddTo, RemoveFrom, AdmitsReader, Deadlocks, AdmitsWriter;
  }

  lemma {:induction false} RunIsPatient(s: State, acts: seq<Action>)
    requires WritersOk(s) && AllPatient(s.log) && CanRun(s, acts)
    ensures AllPatient(Run(s, acts).log)
    decreases |acts|
  {
    hide WritersOk, Next, Enabled, Patient;
    if acts != [] {
      var s' := Next(s, acts[0]);
      StepKeepsWriters(s, acts[0]);
      StepIsPatient(s, acts[0]);
      assert Butlast(s'.log) == s.log;
      RunIsPatient(s', acts[1..]);
    }
  }

  lemma {:induction false} PatientAt(log: seq<Event>, j: nat)
    requires AllPatient(log) && j < |log|
    ensures Patient(log[..j], log[j])
  {
    hide Patient;
    if j < |log| - 1 {
      PatientAt(Butlast(log), j);
      assert Butlast(log)[..j] == log[..j];
    }
  }

  /**
   In every run, whatever the reader count: ETIMEDOUT goes only to a blocking call made with a time limit,
   in a pass that finds the limit passed, and no call waits on past its limit.
   */
  lemma TimeLimitsAreKept(acts: seq<Action>, j: nat)
    requires CanRun(INIT, acts) && j < |Run(INIT, acts).log|
    ensures Patient(Run(INIT, acts).log[..j], Run(INIT, acts).log[j])
  {
    assert Registered(INIT) == {};
    RunIsPatient(INIT, acts);
    hide Run, CanRun, Patient;
    PatientAt(Run(INIT, acts).log, j);
  }

  /**
   Every answer of every run within the limit: a read lock is granted only while nobody else writes and,
   to a thread that holds nothing, only while no writer waits; a write lock only while nobody holds
   anything; refusals and further waiting come exactly from the opposite, a try being refused at once and a
   blocking call by its time limit; an unlock gives back a read hold before the write hold; EPERM goes to
   those who hold nothing and EDEADLK to those who hold something.
   */
  lemma AnswersAreRight(acts: seq<Action>, j: nat)
    requires CanRun(INIT, acts) && AllFit(INIT, acts) && j < |Run(INIT, acts).log|
    ensures RightAnswer(Run(INIT, acts).log[..j], Run(INIT, acts).log[j])
  {
    InitInv();
    RunAnswers(INIT, acts);
    hide Run, CanRun, RightAnswer;
    RightAt(Run(INIT, acts).log, j);
  }

  // ---------------------------------------------------------------------------------------------
  // Writer preference

  /** Writers are waiting before every step of the run. */
  ghost predicate WritersWait(s: State, acts: seq<Action>)
    requires CanRun(s, acts)
    decreases |acts|
  {
    acts == [] || (s.lock.waitingWriters > 0 && WritersWait(Next(s, acts[0]), acts[1..]))
  }

  /** t is the writer at some point of the run. */
  ghost predicate EverWriter(s: State, acts: seq<Action>, t: Tid)
    requires CanRun(s, acts)
    decreases |acts|
  {
    s.lock.writer == Some(t) || (acts != [] && EverWriter(Next(s, acts[0]), acts[1..], t))
  }

  /** One step, with writers waiting, makes no one a reader but a reader or the writer. */
  lemma StepPrefersWriters(s: State, a: Action, t: Tid)
    requires Enabled(s, a) && s.lock.waitingWriters > 0
    requires Reads(Next(s, a).lock, t)
    ensures Reads(s.lock, t) || s.lock.writer == Some(t)
  {
    hide Inc32, Dec32;
    if !Reads(s.lock, t) {
      var s' := Next(s, a);
      var i := Find(s'.lock.readers, t);
      NotInTable(s.lock.readers, t);
    }
  }

  lemma NotInTable(readers: seq<Reader>, t: Tid)
    requires Find(readers, t) == |readers|
    ensures forall i | 0 <= i < |readers| :: readers[i].thread != t
  {
  }

  /** While writers wait, the only readers are those there before, and threads that wrote meanwhile. */
  lemma {:induction false} WriterPreference(s: State, acts: seq<Action>, t: Tid)
    requires CanRun(s, acts) && WritersWait(s, acts)
    requires Reads(Run(s, acts).lock, t)
    ensures Reads(s.lock, t) || EverWriter(s, acts, t)
    decreases |acts|
  {
    hide Next, Enabled, Reads;
    if acts != [] {
      WriterPreference(Next(s, acts[0]), acts[1..], t);
      if Reads(Next(s, acts[0]).lock, t) {
        StepPrefersWriters(s, acts[0], t);
      }
    }
  }

  // ---------------------------------------------------------------------------------------------
  // The limit of the reader count

  /** n nested read locks by thread 1. */
  function Nested(n: nat): seq<Action> {
    seq(n, i => TryRdlock(1))
  }

  lemma {:induction false} NestedReads(s: State, k: nat, n: nat)
    requires s.inside == map[] && 1 <= k && k + n <= UINT32_MAX
    requires s.lock == View(None, 0, k, 0, [Reader(1, k)])
    ensures CanRun(s, Nested(n))
    ensures Run(s, Nested(n)).lock == View(None, 0, k + n, 0, [Reader(1, k + n)])
    ensures Run(s, Nested(n)).inside == map[]
    decreases n
  {
    if n > 0 {
      var s' := Next(s, TryRdlock(1));
      assert [Reader(1, k)][0 := Reader(1, k + 1)] == [Reader(1, k + 1)];
      NestedReads(s', k + 1, n - 1);
      assert Nested(n)[1..] == Nested(n - 1);
    }
  }

  lemma {:induction false} RunAppend(s: State, acts: seq<Action>, more: seq<Action>)
    requires CanRun(s, acts) && CanRun(Run(s, acts), more)
    ensures CanRun(s, acts + more) && Run(s, acts + more) == Run(Run(s, acts), more)
    decreases |acts|
  {
    if acts == [] {
      assert acts + more == more;
    } else {
      RunAppend(Next(s, acts[0]), acts[1..], more);
      assert (acts + more)[1..] == acts[1..] + more;
    }
  }

  /** After 2^32 nested read locks by one thread, another is given the write lock beside it. */
  lemma ExclusionFailsAtLimit() returns (acts: seq<Action>)
    ensures CanRun(INIT, acts)
    ensures Run(INIT, acts).lock.writer == Some(2) && Reads(Run(INIT, acts).lock, 1)
    ensures Run(INIT, acts).log != [] && Last(Run(INIT, acts).log) == WriteLocked(2)
  {
    var first := Next(INIT, TryRdlock(1));
    var many := Nested(UINT32_MAX - 1);
    NestedReads(first, 1, UINT32_MAX - 1);
    var full := Run(first, many);
    var last := [TryRdlock(1), TryWrlock(2)];
    Overflows(full);
    hide Run, CanRun, Nested;
    RunAppend(first, many, last);
    acts := [TryRdlock(1)] + (many + last);
    OneStep(INIT, TryRdlock(1), many + last);
  }

  lemma OneStep(s: State, a: Action, rest: seq<Action>)
    requires Enabled(s, a) && CanRun(Next(s, a), rest)
    ensures CanRun(s, [a] + rest) && Run(s, [a] + rest) == Run(Next(s, a), rest)
  {
    assert ([a] + rest)[1..] == rest;
  }

  lemma Overflows(s: State)
    requires s.inside == map[] && s.lock == View(None, 0, UINT32_MAX, 0, [Reader(1, UINT32_MAX)])
    ensures var last := [TryRdlock(1), TryWrlock(2)];
            && CanRun(s, last)
            && Run(s, last).lock.writer == Some(2) && Reads(Run(s, last).lock, 1)
            && Run(s, last).log != [] && Last(Run(s, last).log) == WriteLocked(2)
  {
    var s1 := Next(s, TryRdlock(1));
    assert [Reader(1, UINT32_MAX)][0 := Reader(1, 0)] == [Reader(1, 0)];
    assert s1.lock == View(None, 0, 0, 0, [Reader(1, 0)]);
    var s2 := Next(s1, TryWrlock(2));
    OneStep(s1, TryWrlock(2), []);
    OneStep(s, TryRdlock(1), [TryWrlock(2)]);
  }
}
