/**
 Runs of any number of threads over guest mutexes and condition variables.

 A step is one critical section of src/kernel/pthread.cpp, as specified in PthreadObjects.  Where the
 code sleeps, the thread stays in a phase and may be scheduled again at any time, woken or not, so
 nothing below depends on who is notified.  Every step records one event, and the counting theorems
 are about the events of a whole run.
 */
module CondProtocol {
  import opened Common
  import opened PthreadObjects

  /** Where a thread is inside a blocking call. */
  datatype Phase =
    | Idle
    | Locking(m: Mutex, timed: bool)
      // queued by a wait call; the sequence numbers, the depth given up, and two history values:
      // the broadcasts on c so far, and the index of the event that began the wait
    | Waiting(c: Cond, m: Mutex, seq0: nat, tseq0: nat, recurse: nat, timed: bool, round: nat, ticket: nat)
    | Relocking(m: Mutex, recurse: nat, result: Code)
    | Restoring(m: Mutex, recurse: nat, result: Code)

  /** What a refused call asked for. */
  datatype Ask = Trying | Blocking(timeout: Timeout) | Releasing | Beginning

  datatype Event =
    | Locked(t: Pthread, m: Mutex)
    | Unlocked(t: Pthread, m: Mutex)
    | Refused(t: Pthread, m: Mutex, ask: Ask, code: Code)
      // a lock call, a wait or its relock goes on; expired when a time limit, if it has one, has passed
    | LockSlept(t: Pthread, m: Mutex, timeout: Timeout)
    | WaitSlept(t: Pthread, c: Cond, expired: bool)
    | RelockSlept(t: Pthread, m: Mutex)
    | WaitBegan(t: Pthread, c: Cond, m: Mutex, depth: nat, timed: bool)
    | WaitEnded(t: Pthread, c: Cond, code: Code, expired: bool)
    | Relocked(t: Pthread, m: Mutex)
    | WaitReturned(t: Pthread, m: Mutex, depth: nat, code: Code)
    | Signalled(c: Cond, woken: Pthread?, targeted: bool)
    | Broadcasted(c: Cond, all: seq<Pthread>)

  datatype State = State(heap: Heap, mutexes: map<Mutex, MutexView>, phase: map<Pthread, Phase>, log: seq<Event>)

  datatype Action =
    | Lock(t: Pthread, m: Mutex, timeout: Timeout)
    | RetryLock(t: Pthread, expired: bool)
    | TryLockOnce(t: Pthread, m: Mutex)
    | UnlockOnce(t: Pthread, m: Mutex)
    | BeginWait(t: Pthread, c: Cond, m: Mutex, timed: bool)
    | PollWait(t: Pthread, expired: bool)
    | Relock(t: Pthread)
    | Restore(t: Pthread)
    | Signal(c: Cond)
    | SignalTo(c: Cond, target: Pthread)
    | Broadcast(c: Cond)

  // ---------------------------------------------------------------------------------------------
  // Steps

  ghost predicate Calm(s: State, t: Pthread) {
    t in s.phase && s.phase[t].Idle?
  }

  ghost predicate Enabled(s: State, a: Action) {
    match a
    case Lock(t, m, timeout) => Calm(s, t) && m in s.mutexes
    case RetryLock(t, expired) => t in s.phase && s.phase[t].Locking? && s.phase[t].m in s.mutexes
    case TryLockOnce(t, m) => Calm(s, t) && m in s.mutexes
    case UnlockOnce(t, m) => Calm(s, t) && m in s.mutexes
    case BeginWait(t, c, m, timed) => Calm(s, t) && m in s.mutexes && Known(s.heap, c, t)
    case PollWait(t, expired) =>
      t in s.phase && s.phase[t].Waiting? && Known(s.heap, s.phase[t].c, t)
    case Relock(t) => t in s.phase && s.phase[t].Relocking? && s.phase[t].m in s.mutexes
    case Restore(t) => t in s.phase && s.phase[t].Restoring? && s.phase[t].m in s.mutexes
    case Signal(c) =>
      c in s.heap.conds && forall t | t in s.heap.conds[c].waiters :: t in s.heap.threads
    case SignalTo(c, target) => Known(s.heap, c, target)
    case Broadcast(c) => c in s.heap.conds
  }

  ghost function Logged(s: State, e: Event): State {
    s.(log := s.log + [e])
  }

  ghost function SetPhase(s: State, t: Pthread, p: Phase): State {
    s.(phase := s.phase[t := p])
  }

  ghost function SetMutex(s: State, m: Mutex, v: MutexView): State {
    s.(mutexes := s.mutexes[m := v])
  }

  /** A lock attempt by t: it returns, or t sleeps and will retry. */
  ghost function AfterAttempt(s: State, t: Pthread, m: Mutex, timeout: Timeout, r: (MutexView, Attempt))
    : State
  {
    var s' := SetMutex(s, m, r.0);
    match r.1
    case Done(code) =>
      Logged(SetPhase(s', t, Idle), if code == OK then Locked(t, m) else Refused(t, m, Blocking(timeout), code))
    case Sleep => Logged(SetPhase(s', t, Locking(m, timeout != Forever)), LockSlept(t, m, timeout))
  }

  /** The time limit a lock call that slept looks at next. */
  function Limit(timed: bool, expired: bool): Timeout {
    if timed then Until(expired) else Forever
  }

  /** Either sequence number differs from the one captured when the wait began. */
  ghost predicate Ready(s: State, t: Pthread)
    requires t in s.phase && s.phase[t].Waiting? && Known(s.heap, s.phase[t].c, t)
  {
    s.heap.conds[s.phase[t].c].sequence != s.phase[t].seq0
    || s.heap.threads[t].condSequence != s.phase[t].tseq0
  }

  /** One pass of the wait loop: stay, or leave the list and go on to relock, in one critical section. */
  ghost function Poll(s: State, t: Pthread, expired: bool): State
    requires Enabled(s, PollWait(t, expired))
  {
    var p := s.phase[t];
    if Ready(s, t) || (p.timed && expired) then
      var code := if Ready(s, t) then OK else ETIMEDOUT;
      Logged(SetPhase(s.(heap := RemoveWaiter(s.heap, p.c, t)), t, Relocking(p.m, p.recurse, code)),
             WaitEnded(t, p.c, code, expired))
    else Logged(s, WaitSlept(t, p.c, expired))
  }

  ghost function Woken(s: State, c: Cond, t: Pthread): State
    requires Known(s.heap, c, t)
  {
    s.(heap := WakeWaiter(s.heap, c, t))
  }

  ghost function Next(s: State, a: Action): State
    requires Enabled(s, a)
  {
    match a
    case Lock(t, m, timeout) =>
      AfterAttempt(s, t, m, timeout, LockEntry(s.mutexes[m], t, timeout))
    case RetryLock(t, expired) =>
      var p := s.phase[t];
      var timeout := Limit(p.timed, expired);
      AfterAttempt(s, t, p.m, timeout, LockRetry(s.mutexes[p.m], t, timeout))
    case TryLockOnce(t, m) =>
      var r := TryLock(s.mutexes[m], t);
      Logged(SetMutex(s, m, r.0), if r.1 == OK then Locked(t, m) else Refused(t, m, Trying, r.1))
    case UnlockOnce(t, m) =>
      var r := Unlock(s.mutexes[m], t, false);
      Logged(SetMutex(s, m, r.0), if r.1 == OK then Unlocked(t, m) else Refused(t, m, Releasing, r.1))
    case BeginWait(t, c, m, timed) =>
      if s.mutexes[m].owner != t then Logged(s, Refused(t, m, Beginning, EPERM))
      else
        // cond->m is held from joining the list until the guest mutex is released
        var depth := s.mutexes[m].count;
        var p := Waiting(c, m, s.heap.conds[c].sequence, s.heap.threads[t].condSequence, depth, timed,
                         Rounds(s.log, c), |s.log|);
        Logged(SetPhase(SetMutex(s.(heap := AddWaiter(s.heap, c, t)), m, Unlock(s.mutexes[m], t, true).0), t, p),
               WaitBegan(t, c, m, depth, timed))
    case PollWait(t, expired) => Poll(s, t, expired)
    case Relock(t) =>
      var p := s.phase[t];
      var r := LockEntry(s.mutexes[p.m], t, Forever);
      match r.1 {
        case Sleep => Logged(s, RelockSlept(t, p.m))
        case Done(code) =>
          if code == OK then
            Logged(SetPhase(SetMutex(s, p.m, r.0), t, Restoring(p.m, p.recurse, p.result)), Relocked(t, p.m))
          else
            Logged(SetPhase(SetMutex(s, p.m, r.0), t, Idle),
                   WaitReturned(t, p.m, 0, if p.result == OK then EINVAL else p.result))
      }
    case Restore(t) =>
      var p := s.phase[t];
      var v := SetDepth(s.mutexes[p.m], p.recurse);
      Logged(SetPhase(SetMutex(s, p.m, v), t, Idle), WaitReturned(t, p.m, v.count, p.result))
    case Signal(c) =>
      var q := s.heap.conds[c].waiters;
      if q == [] then Logged(s, Signalled(c, null, false))
      else Logged(Woken(s, c, q[0]), Signalled(c, q[0], false))
    case SignalTo(c, target) =>
      if target !in s.heap.conds[c].waiters then Logged(s, Signalled(c, null, true))
      else Logged(Woken(s, c, target), Signalled(c, target, true))
    case Broadcast(c) =>
      Logged(s.(heap := WakeAll(s.heap, c)), Broadcasted(c, s.heap.conds[c].waiters))
  }

  /** Any sequence of steps, each one possible when its turn comes. */
  ghost predicate CanRun(s: State, acts: seq<Action>)
    decreases |acts|
  {
    acts == [] || (Enabled(s, acts[0]) && CanRun(Next(s, acts[0]), acts[1..]))
  }

  ghost function Run(s: State, acts: seq<Action>): State
    requires CanRun(s, acts)
    decreases |acts|
  {
    if acts == [] then s else Run(Next(s, acts[0]), acts[1..])
  }

  /** Fresh mutexes and conditions, and threads that are in no call. */
  ghost predicate Init(s: State) {
    && s.log == []
    && s.phase.Keys == s.heap.threads.Keys
    && (forall t | t in s.phase :: s.phase[t] == Idle)
    && (forall t | t in s.heap.threads :: s.heap.threads[t].waitingCond == null)
    && (forall c | c in s.heap.conds :: s.heap.conds[c] == CondView(0, []))
    && (forall m | m in s.mutexes :: s.mutexes[m].owner == null && s.mutexes[m].count == 0)
  }

  // ---------------------------------------------------------------------------------------------
  // What the events of a run say

  /** The threads an event takes off a waiter list to run again. */
  function WokenBy(e: Event): seq<Pthread> {
    match e
    case Signalled(_, w, _) => (if w == null then [] else [w])
    case Broadcasted(_, all) => all
    case _ => []
  }

  /** Broadcasts on c that found someone waiting. */
  function Rounds(log: seq<Event>, c: Cond): nat {
    if log == [] then 0
    else Rounds(Butlast(log), c)
         + (if Last(log).Broadcasted? && Last(log).c == c && Last(log).all != [] then 1 else 0)
  }

  /** How often t was woken since it last began to wait. */
  function Wakes(log: seq<Event>, t: Pthread): nat {
    if log == [] || (Last(log).WaitBegan? && Last(log).t == t) then 0
    else Wakes(Butlast(log), t) + multiset(WokenBy(Last(log)))[t]
  }

  /** Since t last began to wait, it was a broadcast that woke it. */
  predicate ByBroadcast(log: seq<Event>, t: Pthread) {
    if log == [] || (Last(log).WaitBegan? && Last(log).t == t) then false
    else if multiset(WokenBy(Last(log)))[t] > 0 then Last(log).Broadcasted?
    else ByBroadcast(Butlast(log), t)
  }

  /** The broadcasts there had been, on its condition, when t last began to wait. */
  function RoundBegan(log: seq<Event>, t: Pthread): nat {
    if log == [] then 0
    else if Last(log).WaitBegan? && Last(log).t == t then Rounds(Butlast(log), Last(log).c)
    else RoundBegan(Butlast(log), t)
  }

  /** The wait that t began last has a time limit. */
  predicate LastTimed(log: seq<Event>, t: Pthread) {
    if log == [] then false
    else if Last(log).WaitBegan? && Last(log).t == t then Last(log).timed
    else LastTimed(Butlast(log), t)
  }

  /** Successful locks of m by t less unlocks, waits left aside. */
  function Depth(log: seq<Event>, t: Pthread, m: Mutex): int {
    if log == [] then 0
    else Depth(Butlast(log), t, m)
         + (if Last(log) == Locked(t, m) then 1 else if Last(log) == Unlocked(t, m) then -1 else 0)
  }

  /** The wait t began last: its mutex and the depth it gave up. */
  function LastWait(log: seq<Event>, t: Pthread): (Mutex?, nat) {
    if log == [] then (null, 0)
    else match Last(log)
      case WaitBegan(u, _, m, depth, _) => if u == t then (m, depth) else LastWait(Butlast(log), t)
      case _ => LastWait(Butlast(log), t)
  }

  /** How t's last wait ended. */
  function LastEnd(log: seq<Event>, t: Pthread): Code {
    if log == [] then EINVAL
    else if Last(log).WaitEnded? && Last(log).t == t then Last(log).code
    else LastEnd(Butlast(log), t)
  }

  /** All the wake-ups of a run. */
  function TotalWakes(log: seq<Event>): nat {
    if log == [] then 0 else TotalWakes(Butlast(log)) + |WokenBy(Last(log))|
  }

  function Begun(log: seq<Event>): nat {
    if log == [] then 0 else Begun(Butlast(log)) + (if Last(log).WaitBegan? then 1 else 0)
  }

  /** Waits that ended with the given code. */
  function Ended(log: seq<Event>, code: Code): nat {
    if log == [] then 0
    else Ended(Butlast(log), code) + (if Last(log).WaitEnded? && Last(log).code == code then 1 else 0)
  }

  // ---------------------------------------------------------------------------------------------
  // The invariant

  ghost predicate InWait(s: State, t: Pthread) {
    t in s.phase && s.phase[t].Waiting?
  }

  /** t is on the waiter list of the condition it waits on. */
  ghost predicate Queued(s: State, t: Pthread) {
    InWait(s, t) && s.phase[t].c in s.heap.conds && t in s.heap.conds[s.phase[t].c].waiters
  }

  ghost predicate WellFormed(s: State) {
    && s.phase.Keys == s.heap.threads.Keys
    && (forall t | t in s.phase :: PhaseOk(s, s.phase[t]))
  }

  ghost predicate PhaseOk(s: State, p: Phase) {
    && (!p.Idle? ==> p.m in s.mutexes)
    && (p.Waiting? ==> p.c in s.heap.conds && p.ticket < |s.log| && p.recurse >= 1)
    && (p.Relocking? || p.Restoring? ==> p.recurse >= 1 && p.result in {OK, ETIMEDOUT})
  }

  /** Waiter lists hold only threads waiting on that condition, each once, in order of arrival. */
  ghost predicate ListOk(s: State, c: Cond)
    requires c in s.heap.conds
  {
    var q := s.heap.conds[c].waiters;
    && (forall i | 0 <= i < |q| :: InWait(s, q[i]) && s.phase[q[i]].c == c)
    && (forall i, j | 0 <= i < j < |q| :: s.phase[q[i]].ticket < s.phase[q[j]].ticket)
    && s.heap.conds[c].sequence == Wrap64(Rounds(s.log, c))
  }

  /** A thread is on one list or none, and its fields and its history agree on which. */
  ghost predicate ThreadOk(s: State, t: Pthread)
    requires t in s.phase && t in s.heap.threads
  {
    var p, v := s.phase[t], s.heap.threads[t];
    && v.waitingCond == (if Queued(s, t) then p.c else null)
    && (p.Waiting? ==>
          && p.seq0 == Wrap64(p.round) && p.round == RoundBegan(s.log, t) <= Rounds(s.log, p.c)
          && p.timed == LastTimed(s.log, t)
          && if Queued(s, t) then
               && Wakes(s.log, t) == 0 && !ByBroadcast(s.log, t)
               && v.condSequence == p.tseq0 && p.round == Rounds(s.log, p.c)
             else if ByBroadcast(s.log, t) then
               Wakes(s.log, t) == 1 && v.condSequence == p.tseq0 && p.round < Rounds(s.log, p.c)
             else
               Wakes(s.log, t) == 1 && v.condSequence == Wrap64(p.tseq0 + 1))
  }

  ghost predicate ListsInv(s: State) {
    && WellFormed(s)
    && (forall c | c in s.heap.conds :: ListOk(s, c))
    && (forall t | t in s.phase :: ThreadOk(s, t))
  }

  // ---------------------------------------------------------------------------------------------
  // Every step keeps the lists

  lemma RoundsStep(log: seq<Event>, e: Event, c: Cond)
    ensures Rounds(log + [e], c)
            == Rounds(log, c) + (if e.Broadcasted? && e.c == c && e.all != [] then 1 else 0)
  {
    assert Butlast(log + [e]) == log;
  }

  lemma WakesStep(log: seq<Event>, e: Event, t: Pthread)
    ensures Wakes(log + [e], t)
            == if e.WaitBegan? && e.t == t then 0 else Wakes(log, t) + multiset(WokenBy(e))[t]
    ensures ByBroadcast(log + [e], t)
            <==> if e.WaitBegan? && e.t == t then false
                 else if multiset(WokenBy(e))[t] > 0 then e.Broadcasted?
                 else ByBroadcast(log, t)
    ensures RoundBegan(log + [e], t) == if e.WaitBegan? && e.t == t then Rounds(log, e.c) else RoundBegan(log, t)
    ensures LastTimed(log + [e], t) <==> if e.WaitBegan? && e.t == t then e.timed else LastTimed(log, t)
  {
    assert Butlast(log + [e]) == log;
  }

  /** A step that wakes nobody and moves no waiting thread. */
  lemma QuietKeepsLists(s: State, s': State, e: Event)
    requires ListsInv(s) && WellFormed(s')
    requires s'.heap == s.heap && s'.log == s.log + [e] && WokenBy(e) == [] && !e.WaitBegan?
    requires s'.phase.Keys == s.phase.Keys
    requires forall t | t in s.phase :: (InWait(s, t) || InWait(s', t)) ==> s'.phase[t] == s.phase[t]
    ensures ListsInv(s')
  {
    hide Rounds, Wakes, ByBroadcast, RoundBegan, LastTimed, Wrap64;
    forall c | c in s'.heap.conds ensures ListOk(s', c) {
      RoundsStep(s.log, e, c);
      assert ListOk(s, c);
    }
    forall t | t in s'.phase ensures ThreadOk(s', t) {
      assert ThreadOk(s, t);
      if InWait(s, t) {
        RoundsStep(s.log, e, s.phase[t].c);
        WakesStep(s.log, e, t);
      }
    }
  }

  /** A new wait: the thread joins the end of its list, with both numbers captured. */
  ghost predicate Joins(s: State, s': State, t: Pthread, c: Cond, p: Phase, e: Event) {
    && t in s.phase && s.phase[t].Idle? && Known(s.heap, c, t)
    && p.Waiting? && p.c == c && p.ticket == |s.log| && p.round == Rounds(s.log, c)
    && p.seq0 == s.heap.conds[c].sequence && p.tseq0 == s.heap.threads[t].condSequence
    && s'.log == s.log + [e] && e == WaitBegan(t, c, p.m, p.recurse, p.timed)
    && s'.phase == s.phase[t := p]
    && s'.heap == AddWaiter(s.heap, c, t)
  }

  lemma BeginWaitJoins(s: State, t: Pthread, c: Cond, m: Mutex, timed: bool)
    requires Enabled(s, BeginWait(t, c, m, timed)) && s.mutexes[m].owner == t
    ensures var s' := Next(s, BeginWait(t, c, m, timed));
            && Joins(s, s', t, c, s'.phase[t], WaitBegan(t, c, m, s.mutexes[m].count, timed))
            && s'.phase[t].m == m && s'.phase[t].recurse == s.mutexes[m].count
            && s'.mutexes == s.mutexes[m := s.mutexes[m].(owner := null, count := 0)]
  {
    hide Rounds;
  }

  lemma JoinedList(s: State, s': State, t: Pthread, c: Cond, p: Phase, e: Event, d: Cond)
    requires ListsInv(s) && Joins(s, s', t, c, p, e) && d in s.heap.conds
    ensures ListOk(s', d)
    ensures forall u | u in s'.heap.conds[d].waiters :: u == t || u in s.heap.conds[d].waiters
    ensures forall u | u in s.heap.conds[d].waiters :: u in s'.heap.conds[d].waiters && u != t
  {
    hide Rounds, Wrap64, ListsInv, ThreadOk, WellFormed;
    RoundsStep(s.log, e, d);
    ListHolds(s, d);
    var q := s.heap.conds[d].waiters;
    forall i | 0 <= i < |q| ensures s.phase[q[i]].ticket < |s.log| && q[i] != t {
      Holds(s, q[i]);
    }
  }

  lemma ListHolds(s: State, c: Cond)
    requires ListsInv(s) && c in s.heap.conds
    ensures ListOk(s, c)
  {
  }

  lemma Holds(s: State, t: Pthread)
    requires ListsInv(s) && t in s.phase
    ensures t in s.heap.threads && ThreadOk(s, t) && PhaseOk(s, s.phase[t])
  {
  }

  lemma JoinedThread(s: State, s': State, t: Pthread, c: Cond, p: Phase, e: Event, u: Pthread)
    requires ListsInv(s) && Joins(s, s', t, c, p, e) && u in s.phase
    ensures ThreadOk(s', u)
    ensures Queued(s', u) <==> u == t || Queued(s, u)
  {
    hide Rounds, Wakes, ByBroadcast, RoundBegan, LastTimed, Wrap64, ListsInv, WokenBy, ListOk;
    Holds(s, u);
    if u == t {
      JoinedList(s, s', t, c, p, e, c);
      assert s'.heap.conds[c].waiters[|s.heap.conds[c].waiters|] == t;
      RoundsStep(s.log, e, c);
      WakesStep(s.log, e, t);
      SequenceIsRounds(s, c);
    } else if InWait(s, u) {
      var d := s.phase[u].c;
      JoinedList(s, s', t, c, p, e, d);
      RoundsStep(s.log, e, d);
      WakesStep(s.log, e, u);
      BeginsWakeNobody(t, c, p.m, p.recurse, p.timed, u);
    }
  }

  lemma SequenceIsRounds(s: State, c: Cond)
    requires ListsInv(s) && c in s.heap.conds
    ensures s.heap.conds[c].sequence == Wrap64(Rounds(s.log, c))
  {
    assert ListOk(s, c);
  }

  lemma BeginsWakeNobody(t: Pthread, c: Cond, m: Mutex, depth: nat, timed: bool, u: Pthread)
    ensures multiset(WokenBy(WaitBegan(t, c, m, depth, timed)))[u] == 0
  {
  }

  lemma JoinKeepsLists(s: State, s': State, t: Pthread, c: Cond, p: Phase, e: Event)
    requires ListsInv(s) && Joins(s, s', t, c, p, e) && WellFormed(s')
    ensures ListsInv(s')
  {
    forall d | d in s'.heap.conds ensures ListOk(s', d) {
      JoinedList(s, s', t, c, p, e, d);
    }
    forall u | u in s'.phase ensures ThreadOk(s', u) {
      JoinedThread(s, s', t, c, p, e, u);
    }
  }

  /** Erasing an element of a duplicate-free sequence. */
  lemma EraseOnce<T>(q: seq<T>, x: T)
    requires x in q
    requires forall i, j | 0 <= i < j < |q| :: q[i] != q[j]
    ensures |Erase(q, x)| == |q| - 1 && x !in Erase(q, x)
    ensures forall y | y != x :: y in Erase(q, x) <==> y in q
    ensures forall i | 0 <= i < |Erase(q, x)| :: Erase(q, x)[i] == q[if i < IndexOf(q, x) then i else i + 1]
  {
    var k := IndexOf(q, x);
    forall y | y != x ensures y in Erase(q, x) <==> y in q {
      if y in q {
        var j :| 0 <= j < |q| && q[j] == y;
        assert Erase(q, x)[if j < k then j else j - 1] == y;
      }
    }
  }

  lemma ListDistinct(s: State, c: Cond)
    requires c in s.heap.conds && ListOk(s, c)
    ensures var q := s.heap.conds[c].waiters; forall i, j | 0 <= i < j < |q| :: q[i] != q[j]
  {
  }

  /** A step that takes t off the list of c, and touches no other thread. */
  ghost predicate Leaves(s: State, s': State, c: Cond, t: Pthread, e: Event) {
    && c in s.heap.conds && t in s.heap.conds[c].waiters && t in s.phase
    && s'.heap.conds == s.heap.conds[c := s.heap.conds[c].(waiters := Erase(s.heap.conds[c].waiters, t))]
    && s'.log == s.log + [e] && !e.Broadcasted? && !e.WaitBegan? && (WokenBy(e) == [] || WokenBy(e) == [t])
    && s'.phase.Keys == s.phase.Keys == s'.heap.threads.Keys == s.heap.threads.Keys
    && (forall u | u in s.phase && u != t :: s'.phase[u] == s.phase[u] && s'.heap.threads[u] == s.heap.threads[u])
    && (s'.phase[t] == s.phase[t] || !s'.phase[t].Waiting?)
  }

  lemma LeftMembers(s: State, s': State, c: Cond, t: Pthread, e: Event, d: Cond)
    requires ListsInv(s) && Leaves(s, s', c, t, e) && d in s.heap.conds
    ensures t !in s'.heap.conds[d].waiters
    ensures forall u | u != t :: u in s'.heap.conds[d].waiters <==> u in s.heap.conds[d].waiters
    ensures InWait(s, t) && s.phase[t].c == c
  {
    hide Rounds, Wrap64, ThreadOk, WellFormed;
    assert ListOk(s, d) && ListOk(s, c);
    ListDistinct(s, c);
    EraseOnce(s.heap.conds[c].waiters, t);
    hide Erase;
  }

  lemma LeftList(s: State, s': State, c: Cond, t: Pthread, e: Event, d: Cond)
    requires ListsInv(s) && Leaves(s, s', c, t, e) && d in s.heap.conds
    ensures ListOk(s', d)
  {
    hide Rounds, Wrap64, ThreadOk, WellFormed, ListsInv, Erase;
    RoundsStep(s.log, e, d);
    ListHolds(s, d);
    LeftMembers(s, s', c, t, e, d);
    var q, q' := s.heap.conds[d].waiters, s'.heap.conds[d].waiters;
    forall i | 0 <= i < |q'| ensures q'[i] != t && InWait(s', q'[i]) && s'.phase[q'[i]].c == d {
      assert q'[i] in q';
      assert q'[i] in q;
    }
    LeftOrder(s, s', c, t, e, d);
  }

  lemma LeftOrder(s: State, s': State, c: Cond, t: Pthread, e: Event, d: Cond)
    requires ListsInv(s) && Leaves(s, s', c, t, e) && d in s.heap.conds
    requires var q' := s'.heap.conds[d].waiters; forall i | 0 <= i < |q'| :: InWait(s', q'[i]) && q'[i] != t
    ensures var q' := s'.heap.conds[d].waiters;
            forall i, j | 0 <= i < j < |q'| :: s'.phase[q'[i]].ticket < s'.phase[q'[j]].ticket
  {
    hide Rounds, Wrap64, ThreadOk, WellFormed, ListsInv;
    ListHolds(s, d);
    ListHolds(s, c);
    ListDistinct(s, c);
    EraseOnce(s.heap.conds[c].waiters, t);
    hide Erase;
    var q, q' := s.heap.conds[d].waiters, s'.heap.conds[d].waiters;
    forall i, j | 0 <= i < j < |q'| ensures s'.phase[q'[i]].ticket < s'.phase[q'[j]].ticket {
      if d == c {
        var k := IndexOf(q, t);
        assert q'[i] == q[if i < k then i else i + 1] && q'[j] == q[if j < k then j else j + 1];
      }
    }
  }

  lemma LeftThread(s: State, s': State, c: Cond, t: Pthread, e: Event, u: Pthread)
    requires ListsInv(s) && Leaves(s, s', c, t, e) && u in s.phase && u != t
    ensures ThreadOk(s', u)
  {
    hide Rounds, Wakes, ByBroadcast, RoundBegan, LastTimed, Wrap64, ListOk, ListsInv, Erase, WokenBy;
    Holds(s, u);
    if InWait(s, u) {
      LeftMembers(s, s', c, t, e, s.phase[u].c);
      RoundsStep(s.log, e, s.phase[u].c);
      WakesStep(s.log, e, u);
      assert multiset([t])[u] == 0;
    }
  }

  lemma LeaveKeepsLists(s: State, s': State, c: Cond, t: Pthread, e: Event)
    requires ListsInv(s) && Leaves(s, s', c, t, e) && WellFormed(s')
    requires ThreadOk(s', t)
    ensures ListsInv(s')
  {
    forall d | d in s'.heap.conds ensures ListOk(s', d) {
      LeftList(s, s', c, t, e, d);
    }
    forall u | u in s'.phase ensures ThreadOk(s', u) {
      if u != t {
        LeftThread(s, s', c, t, e, u);
      }
    }
  }

  /** The pass that ends a wait: OK when a sequence number moved, ETIMEDOUT otherwise. */
  ghost predicate WaitEnds(s: State, s': State, t: Pthread, code: Code, expired: bool)
    requires InWait(s, t)
  {
    var p := s.phase[t];
    && Known(s.heap, p.c, t)
    && s'.heap == RemoveWaiter(s.heap, p.c, t)
    && s'.phase == s.phase[t := Relocking(p.m, p.recurse, code)]
    && s'.log == s.log + [WaitEnded(t, p.c, code, expired)]
    && s'.mutexes == s.mutexes
    && code == (if Ready(s, t) then OK else ETIMEDOUT)
    && (code == ETIMEDOUT ==> p.timed && expired)
  }

  lemma PollOutcome(s: State, t: Pthread, expired: bool)
    requires Enabled(s, PollWait(t, expired))
    ensures var s' := Next(s, PollWait(t, expired));
            if Ready(s, t) || (s.phase[t].timed && expired) then
              WaitEnds(s, s', t, if Ready(s, t) then OK else ETIMEDOUT, expired)
            else s' == Logged(s, WaitSlept(t, s.phase[t].c, expired))
  {
  }

  lemma WaitEndKeepsLists(s: State, s': State, t: Pthread, code: Code, expired: bool)
    requires ListsInv(s) && InWait(s, t) && WaitEnds(s, s', t, code, expired)
    ensures ListsInv(s')
  {
    hide Rounds, Wakes, ByBroadcast, RoundBegan, LastTimed, Wrap64, Ready;
    var p := s.phase[t];
    var e := WaitEnded(t, p.c, code, expired);
    assert PhaseOk(s, p) && ThreadOk(s, t);
    assert WellFormed(s') by {
      forall u | u in s'.phase ensures PhaseOk(s', s'.phase[u]) {
        assert PhaseOk(s, s.phase[u]);
      }
    }
    if Queued(s, t) {
      assert Leaves(s, s', p.c, t, e);
      LeaveKeepsLists(s, s', p.c, t, e);
    } else {
      NotQueuedEnds(s, s', t, e);
    }
  }

  lemma NotQueuedEnds(s: State, s': State, t: Pthread, e: Event)
    requires ListsInv(s) && InWait(s, t) && !Queued(s, t) && WellFormed(s')
    requires s'.heap == s.heap && s'.log == s.log + [e] && WokenBy(e) == [] && !e.WaitBegan?
    requires s'.phase.Keys == s.phase.Keys && !InWait(s', t)
    requires forall u | u in s.phase && u != t :: s'.phase[u] == s.phase[u]
    ensures ListsInv(s')
  {
    hide Rounds, Wakes, ByBroadcast, RoundBegan, LastTimed, Wrap64;
    forall d | d in s'.heap.conds ensures ListOk(s', d) {
      RoundsStep(s.log, e, d);
      assert ListOk(s, d);
      assert t !in s.heap.conds[d].waiters;
    }
    forall u | u in s'.phase ensures ThreadOk(s', u) {
      assert ThreadOk(s, u);
      if InWait(s, u) && u != t {
        RoundsStep(s.log, e, s.phase[u].c);
        WakesStep(s.log, e, u);
      }
    }
  }

  lemma SignalLeaves(s: State, c: Cond, t: Pthread, targeted: bool)
    requires WellFormed(s) && Known(s.heap, c, t) && t in s.heap.conds[c].waiters
    ensures var s' := Logged(Woken(s, c, t), Signalled(c, t, targeted));
            && Leaves(s, s', c, t, Signalled(c, t, targeted))
            && s'.heap.threads[t].condSequence == Wrap64(s.heap.threads[t].condSequence + 1)
            && s'.heap.threads[t].waitingCond == Detached(s.heap.threads[t], c).waitingCond
  {
    hide Erase, Wrap64, PhaseOk;
  }

  /** Waking a listed thread, whoever chose it. */
  lemma WakeKeepsLists(s: State, s': State, c: Cond, t: Pthread, targeted: bool)
    requires ListsInv(s) && Known(s.heap, c, t) && t in s.heap.conds[c].waiters
    requires s' == Logged(Woken(s, c, t), Signalled(c, t, targeted))
    ensures ListsInv(s')
    ensures Queued(s, t) && s.phase[t].c == c && !Queued(s', t)
  {
    hide Rounds, Wakes, ByBroadcast, RoundBegan, LastTimed, Wrap64, WakeWaiter, ListsInv, ListOk, Leaves, PhaseOk;
    var e := Signalled(c, t, targeted);
    ListIsWellFormed(s);
    SignalLeaves(s, c, t, targeted);
    LeftMembers(s, s', c, t, e, c);
    Holds(s, t);
    RoundsStep(s.log, e, c);
    WakesStep(s.log, e, t);
    LeftWellFormed(s, s', c, t, e);
    assert multiset([t])[t] == 1;
    assert ThreadOk(s', t);
    LeaveKeepsLists(s, s', c, t, e);
  }

  lemma ListIsWellFormed(s: State)
    requires ListsInv(s)
    ensures WellFormed(s)
  {
  }

  lemma LeftWellFormed(s: State, s': State, c: Cond, t: Pthread, e: Event)
    requires WellFormed(s) && Leaves(s, s', c, t, e) && s'.phase == s.phase && s'.mutexes == s.mutexes
    ensures WellFormed(s')
  {
    hide Erase;
    forall u | u in s'.phase ensures PhaseOk(s', s'.phase[u]) {
      assert PhaseOk(s, s.phase[u]);
    }
  }

  lemma OnceInMultiset<T>(q: seq<T>, x: T)
    requires forall i, j | 0 <= i < j < |q| :: q[i] != q[j]
    ensures multiset(q)[x] == if x in q then 1 else 0
  {
    if q != [] {
      assert q == [q[0]] + q[1..];
      OnceInMultiset(q[1..], x);
    }
  }

  /** A broadcast that finds someone waiting. */
  ghost predicate Clears(s: State, s': State, c: Cond) {
    && c in s.heap.conds && s.heap.conds[c].waiters != []
    && s'.heap == WakeAll(s.heap, c)
    && s'.log == s.log + [Broadcasted(c, s.heap.conds[c].waiters)]
    && s'.phase == s.phase && s'.mutexes == s.mutexes
  }

  lemma ClearedThread(s: State, s': State, c: Cond, u: Pthread)
    requires ListsInv(s) && Clears(s, s', c) && u in s.phase
    ensures ThreadOk(s', u)
  {
    hide Rounds, Wakes, ByBroadcast, RoundBegan, LastTimed, Wrap64, ListsInv;
    var q := s.heap.conds[c].waiters;
    var e := Broadcasted(c, q);
    Holds(s, u);
    ListHolds(s, c);
    ListDistinct(s, c);
    OnceInMultiset(q, u);
    hide ListOk;
    if InWait(s, u) {
      RoundsStep(s.log, e, s.phase[u].c);
      WakesStep(s.log, e, u);
    }
  }

  lemma BroadcastKeepsLists(s: State, s': State, c: Cond)
    requires ListsInv(s) && Clears(s, s', c)
    ensures ListsInv(s')
  {
    hide Rounds, Wakes, ByBroadcast, RoundBegan, LastTimed, Wrap64;
    forall d | d in s'.heap.conds ensures ListOk(s', d) {
      RoundsStep(s.log, Broadcasted(c, s.heap.conds[c].waiters), d);
      assert ListOk(s, d);
      WrapStep(Rounds(s.log, c));
    }
    forall u | u in s'.phase ensures ThreadOk(s', u) {
      ClearedThread(s, s', c, u);
    }
    assert WellFormed(s') by {
      forall u | u in s'.phase ensures PhaseOk(s', s'.phase[u]) {
        assert PhaseOk(s, s.phase[u]);
      }
    }
  }
}
