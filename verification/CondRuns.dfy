/**
 Theorems about whole runs of the mutex and condition-variable steps: lock depth, the outcome of each
 wait, the conservation of wake-ups, and the order in which signals wake.
 */
module CondRuns {
  import opened Common
  import opened PthreadObjects
  import opened CondProtocol

  // ---------------------------------------------------------------------------------------------
  // Mutexes

  ghost predicate MutexOk(s: State, v: MutexView) {
    && (v.owner == null <==> v.count == 0)
    && (v.owner != null ==> v.owner in s.phase)
    && v.count <= UINT32_MAX
    && (v.kind != RECURSIVE ==> v.count <= 1)
  }

  /** t gave up m for a wait and does not have it back. */
  ghost predicate GaveUp(s: State, t: Pthread, m: Mutex)
    requires t in s.phase
  {
    (s.phase[t].Waiting? || s.phase[t].Relocking?) && s.phase[t].m == m
  }

  /** How deep t holds m: the depth its wait gave up, or what the mutex itself records. */
  ghost function Held(s: State, t: Pthread, m: Mutex): nat
    requires t in s.phase && m in s.mutexes
  {
    if (s.phase[t].Waiting? || s.phase[t].Relocking? || s.phase[t].Restoring?) && s.phase[t].m == m then
      s.phase[t].recurse
    else if s.mutexes[m].owner == t then s.mutexes[m].count
    else 0
  }

  ghost predicate DepthOk(s: State, t: Pthread, m: Mutex)
    requires t in s.phase && m in s.mutexes
  {
    var p, v := s.phase[t], s.mutexes[m];
    && Depth(s.log, t, m) == Held(s, t, m)
    && (GaveUp(s, t, m) ==> v.owner != t)
    && (p.Restoring? && p.m == m ==> v.owner == t && v.count == 1)
    && (p.Locking? && p.m == m ==> v.owner != t)
    && (v.kind != RECURSIVE ==> Held(s, t, m) <= 1)
    && Held(s, t, m) <= UINT32_MAX
  }

  /** A thread inside a wait remembers the mutex and depth its wait began with, and how it ended. */
  ghost predicate WaitOk(s: State, t: Pthread)
    requires t in s.phase
  {
    var p := s.phase[t];
    && (p.Waiting? || p.Relocking? || p.Restoring? ==> LastWait(s.log, t) == (p.m, p.recurse))
    && (p.Relocking? || p.Restoring? ==> LastEnd(s.log, t) == p.result)
  }

  ghost predicate MutexInv(s: State) {
    && WellFormed(s)
    && (forall m | m in s.mutexes :: MutexOk(s, s.mutexes[m]))
    && (forall t, m | t in s.phase && m in s.mutexes :: DepthOk(s, t, m))
    && (forall t | t in s.phase :: WaitOk(s, t))
  }

  lemma DepthStep(log: seq<Event>, e: Event, t: Pthread, m: Mutex)
    ensures Depth(log + [e], t, m)
            == Depth(log, t, m) + (if e == Locked(t, m) then 1 else if e == Unlocked(t, m) then -1 else 0)
  {
    assert Butlast(log + [e]) == log;
  }

  lemma LastWaitStep(log: seq<Event>, e: Event, t: Pthread)
    ensures LastWait(log + [e], t)
            == if e.WaitBegan? && e.t == t then (e.m, e.depth) else LastWait(log, t)
  {
    assert Butlast(log + [e]) == log;
  }

  lemma LastEndStep(log: seq<Event>, e: Event, t: Pthread)
    ensures LastEnd(log + [e], t) == if e.WaitEnded? && e.t == t then e.code else LastEnd(log, t)
  {
    assert Butlast(log + [e]) == log;
  }

  /** The event is one of thread t, or of no thread. */
  ghost predicate EventOf(e: Event, t: Pthread) {
    match e
    case Locked(u, _) => u == t
    case Unlocked(u, _) => u == t
    case WaitBegan(u, _, _, _, _) => u == t
    case WaitEnded(u, _, _, _) => u == t
    case _ => true
  }

  /** A step of thread t on mutex m: nothing of another thread or mutex changes. */
  ghost predicate Acts(s: State, s': State, t: Pthread, m: Mutex, e: Event) {
    && t in s.phase && m in s.mutexes && s'.mutexes.Keys == s.mutexes.Keys
    && (forall n | n in s.mutexes && n != m :: s'.mutexes[n] == s.mutexes[n])
    && t in s'.phase && s'.phase == s.phase[t := s'.phase[t]]
    && s'.log == s.log + [e] && EventOf(e, t) && (e.Locked? || e.Unlocked? ==> e.m == m)
    && s'.heap.threads.Keys == s.heap.threads.Keys && s'.heap.conds.Keys == s.heap.conds.Keys
    && s'.mutexes[m].kind == s.mutexes[m].kind
    && (s'.mutexes[m] == s.mutexes[m] || (s.mutexes[m].owner in {null, t} && s'.mutexes[m].owner in {null, t}))
    && (!s.phase[t].Idle? ==> s.phase[t].m == m)
    && (!s'.phase[t].Idle? ==> s'.phase[t].m == m)
  }

  lemma ActKeepsMutexes(s: State, s': State, t: Pthread, m: Mutex, e: Event)
    requires MutexInv(s) && Acts(s, s', t, m, e)
    requires MutexOk(s', s'.mutexes[m]) && DepthOk(s', t, m) && WaitOk(s', t) && PhaseOk(s', s'.phase[t])
    ensures MutexInv(s')
  {
    hide Depth, LastWait, LastEnd, MutexOk;
    assert forall n | n in s'.mutexes :: MutexOk(s', s'.mutexes[n]) by {
      hide *;
      forall n | n in s'.mutexes ensures MutexOk(s', s'.mutexes[n]) {
        KeptMutex(s, s', t, m, e, n);
      }
    }
    forall u, n | u in s'.phase && n in s'.mutexes ensures DepthOk(s', u, n) {
      DepthStep(s.log, e, u, n);
      assert DepthOk(s, u, n);
    }
    forall u | u in s'.phase ensures WaitOk(s', u) && PhaseOk(s', s'.phase[u]) {
      LastWaitStep(s.log, e, u);
      LastEndStep(s.log, e, u);
      assert WaitOk(s, u) && PhaseOk(s, s.phase[u]);
    }
  }

  lemma KeptMutex(s: State, s': State, t: Pthread, m: Mutex, e: Event, n: Mutex)
    requires MutexInv(s) && Acts(s, s', t, m, e) && n in s'.mutexes
    requires MutexOk(s', s'.mutexes[m])
    ensures MutexOk(s', s'.mutexes[n])
  {
    assert MutexOk(s, s.mutexes[n]);
  }

  /** A step of thread t on mutex m that leaves both in order. */
  ghost predicate GoodAct(s: State, s': State, t: Pthread, m: Mutex) {
    && s'.log != [] && Acts(s, s', t, m, Last(s'.log))
    && MutexOk(s', s'.mutexes[m]) && DepthOk(s', t, m) && WaitOk(s', t) && PhaseOk(s', s'.phase[t])
  }

  lemma Before(s: State, t: Pthread, m: Mutex, e: Event)
    requires MutexInv(s) && t in s.phase && m in s.mutexes
    ensures MutexOk(s, s.mutexes[m]) && DepthOk(s, t, m) && WaitOk(s, t) && PhaseOk(s, s.phase[t])
    ensures Depth(s.log + [e], t, m)
            == Depth(s.log, t, m) + (if e == Locked(t, m) then 1 else if e == Unlocked(t, m) then -1 else 0)
    ensures LastWait(s.log + [e], t)
            == if e.WaitBegan? && e.t == t then (e.m, e.depth) else LastWait(s.log, t)
    ensures LastEnd(s.log + [e], t) == if e.WaitEnded? && e.t == t then e.code else LastEnd(s.log, t)
    ensures Last(s.log + [e]) == e
  {
    DepthStep(s.log, e, t, m);
    LastWaitStep(s.log, e, t);
    LastEndStep(s.log, e, t);
  }

  lemma AttemptActs(s: State, t: Pthread, m: Mutex, timeout: Timeout, r: (MutexView, Attempt))
    requires MutexInv(s) && t in s.phase && m in s.mutexes
    requires s.phase[t].Idle? || (s.phase[t].Locking? && s.phase[t].m == m)
    requires r == LockEntry(s.mutexes[m], t, timeout)
             || (s.phase[t].Locking? && r == LockRetry(s.mutexes[m], t, timeout))
    ensures GoodAct(s, AfterAttempt(s, t, m, timeout, r), t, m)
  {
    hide Depth, LastWait, LastEnd, MutexInv;
    Before(s, t, m, Last(AfterAttempt(s, t, m, timeout, r).log));
  }

  lemma TryLockActs(s: State, t: Pthread, m: Mutex)
    requires MutexInv(s) && Enabled(s, TryLockOnce(t, m))
    ensures GoodAct(s, Next(s, TryLockOnce(t, m)), t, m)
  {
    hide Depth, LastWait, LastEnd, MutexInv;
    Before(s, t, m, Last(Next(s, TryLockOnce(t, m)).log));
  }

  lemma UnlockActs(s: State, t: Pthread, m: Mutex)
    requires MutexInv(s) && Enabled(s, UnlockOnce(t, m))
    ensures GoodAct(s, Next(s, UnlockOnce(t, m)), t, m)
  {
    hide Depth, LastWait, LastEnd, MutexInv;
    Before(s, t, m, Last(Next(s, UnlockOnce(t, m)).log));
  }

  lemma BeginWaitActs(s: State, t: Pthread, c: Cond, m: Mutex, timed: bool)
    requires MutexInv(s) && Enabled(s, BeginWait(t, c, m, timed))
    ensures GoodAct(s, Next(s, BeginWait(t, c, m, timed)), t, m)
  {
    hide Depth, LastWait, LastEnd, MutexInv, Rounds;
    Before(s, t, m, Last(Next(s, BeginWait(t, c, m, timed)).log));
  }

  lemma PollActs(s: State, t: Pthread, expired: bool)
    requires MutexInv(s) && Enabled(s, PollWait(t, expired))
    ensures s.phase[t].m in s.mutexes
    ensures GoodAct(s, Next(s, PollWait(t, expired)), t, s.phase[t].m)
  {
    assert PhaseOk(s, s.phase[t]);
    hide MutexInv, Next, Enabled, GoodAct, Acts, MutexOk, DepthOk, WaitOk, Depth, LastWait, LastEnd;
    var s', p := Next(s, PollWait(t, expired)), s.phase[t];
    PollChanges(s, t, expired);
    if s' == Logged(s, WaitSlept(t, p.c, expired)) {
      SleptActs(s, t, expired);
    } else {
      EndedActs(s, s', t, s'.phase[t].result, expired);
    }
  }

  lemma SleptActs(s: State, t: Pthread, expired: bool)
    requires MutexInv(s) && InWait(s, t) && s.phase[t].m in s.mutexes
    ensures GoodAct(s, Logged(s, WaitSlept(t, s.phase[t].c, expired)), t, s.phase[t].m)
  {
    hide Depth, LastWait, LastEnd, MutexInv;
    Before(s, t, s.phase[t].m, WaitSlept(t, s.phase[t].c, expired));
  }

  lemma EndedActs(s: State, s': State, t: Pthread, code: Code, expired: bool)
    requires MutexInv(s) && InWait(s, t) && s.phase[t].m in s.mutexes && code in {OK, ETIMEDOUT}
    requires s'.mutexes == s.mutexes
    requires s'.heap.threads.Keys == s.heap.threads.Keys && s'.heap.conds.Keys == s.heap.conds.Keys
    requires s'.phase == s.phase[t := Relocking(s.phase[t].m, s.phase[t].recurse, code)]
    requires s'.log == s.log + [WaitEnded(t, s.phase[t].c, code, expired)]
    ensures GoodAct(s, s', t, s.phase[t].m)
  {
    hide Depth, LastWait, LastEnd, MutexInv;
    Before(s, t, s.phase[t].m, WaitEnded(t, s.phase[t].c, code, expired));
  }

  lemma PollChanges(s: State, t: Pthread, expired: bool)
    requires Enabled(s, PollWait(t, expired)) && s.phase[t].m in s.mutexes
    ensures var s', p := Next(s, PollWait(t, expired)), s.phase[t];
            && s'.mutexes == s.mutexes && t in s'.phase
            && s'.heap.threads.Keys == s.heap.threads.Keys && s'.heap.conds.Keys == s.heap.conds.Keys
            && (s' == Logged(s, WaitSlept(t, p.c, expired))
                || exists code | code in {OK, ETIMEDOUT} ::
                     && s'.phase == s.phase[t := Relocking(p.m, p.recurse, code)]
                     && s'.log == s.log + [WaitEnded(t, p.c, code, expired)])
  {
    hide RemoveWaiter, Ready;
    PollOutcome(s, t, expired);
  }

  lemma RelockActs(s: State, t: Pthread)
    requires MutexInv(s) && Enabled(s, Relock(t))
    ensures GoodAct(s, Next(s, Relock(t)), t, s.phase[t].m)
    ensures !Next(s, Relock(t)).phase[t].Idle?
  {
    hide Depth, LastWait, LastEnd, MutexInv;
    Before(s, t, s.phase[t].m, Last(Next(s, Relock(t)).log));
  }

  /** The second critical section of a relock restores the whole depth the wait gave up. */
  lemma RestoreActs(s: State, t: Pthread)
    requires MutexInv(s) && Enabled(s, Restore(t))
    ensures GoodAct(s, Next(s, Restore(t)), t, s.phase[t].m)
    ensures var s', p := Next(s, Restore(t)), s.phase[t];
            s'.mutexes[p.m].owner == t && s'.mutexes[p.m].count == p.recurse == LastWait(s.log, t).1
            && LastWait(s.log, t).0 == p.m
  {
    hide Depth, LastWait, LastEnd, MutexInv;
    Before(s, t, s.phase[t].m, Last(Next(s, Restore(t)).log));
  }

  /** Waking threads changes no mutex and no phase. */
  lemma WakingKeepsMutexes(s: State, s': State, e: Event)
    requires MutexInv(s)
    requires s'.mutexes == s.mutexes && s'.phase == s.phase && s'.log == s.log + [e]
    requires s'.heap.threads.Keys == s.heap.threads.Keys && s'.heap.conds.Keys == s.heap.conds.Keys
    requires e.Signalled? || e.Broadcasted?
    ensures MutexInv(s')
  {
    hide Depth, LastWait, LastEnd;
    forall m | m in s'.mutexes ensures MutexOk(s', s'.mutexes[m]) {
      assert MutexOk(s, s.mutexes[m]);
    }
    forall u, n | u in s'.phase && n in s'.mutexes ensures DepthOk(s', u, n) {
      DepthStep(s.log, e, u, n);
      assert DepthOk(s, u, n);
    }
    forall u | u in s'.phase ensures WaitOk(s', u) && PhaseOk(s', s'.phase[u]) {
      LastWaitStep(s.log, e, u);
      LastEndStep(s.log, e, u);
      assert WaitOk(s, u) && PhaseOk(s, s.phase[u]);
    }
  }

  // ---------------------------------------------------------------------------------------------
  // The readiness test

  /**
   The test in the wait loop: a listed thread is not ready, and one that was taken off the list is,
   unless only broadcasts moved it and their number has gone all the way round 2^64.
   */
  lemma ReadyExactly(s: State, t: Pthread)
    requires ListsInv(s) && InWait(s, t)
    ensures Known(s.heap, s.phase[t].c, t)
    ensures Queued(s, t) ==> !Ready(s, t)
    ensures !Queued(s, t) ==>
      (Ready(s, t) <==> s.heap.threads[t].condSequence != s.phase[t].tseq0
                        || Wrap64(Rounds(s.log, s.phase[t].c)) != Wrap64(s.phase[t].round))
    ensures Rounds(s.log, s.phase[t].c) < 0x1_0000_0000_0000_0000 ==> (Ready(s, t) <==> !Queued(s, t))
  {
    hide Rounds, Wakes, ByBroadcast, RoundBegan, LastTimed, Wrap64, ListsInv;
    Holds(s, t);
    ListHolds(s, s.phase[t].c);
    WrapStep(s.phase[t].tseq0);
    WrapStep(Rounds(s.log, s.phase[t].c));
    WrapStep(s.phase[t].round);
  }

  /** A broadcast woke t, and those on c since it began to wait number a multiple of 2^64. */
  predicate Missed(log: seq<Event>, t: Pthread, c: Cond) {
    ByBroadcast(log, t) && (Rounds(log, c) - RoundBegan(log, t)) % 0x1_0000_0000_0000_0000 == 0
  }

  lemma MissedNow(s: State, t: Pthread)
    requires ListsInv(s) && InWait(s, t)
    ensures var p := s.phase[t];
            && Known(s.heap, p.c, t) && p.round == RoundBegan(s.log, t)
            && (ByBroadcast(s.log, t) ==> p.round < Rounds(s.log, p.c))
            && Wakes(s.log, t) == (if Queued(s, t) then 0 else 1)
            && (Ready(s, t) <==> !Queued(s, t) && !Missed(s.log, t, p.c))
  {
    hide Rounds, Wakes, ByBroadcast, RoundBegan, LastTimed, Wrap64, ListsInv, Ready;
    ReadyExactly(s, t);
    Holds(s, t);
    WrapStep(s.phase[t].tseq0);
    WrapDifference(Rounds(s.log, s.phase[t].c), s.phase[t].round);
  }

  lemma WrapDifference(a: nat, b: nat)
    requires a >= b
    ensures Wrap64(a) == Wrap64(b) <==> (a - b) % 0x1_0000_0000_0000_0000 == 0
  {
  }

  // ---------------------------------------------------------------------------------------------
  // How every wait of a run ends

  /** What an event of a run says, in the light of the events before it. */
  ghost predicate EventOk(before: seq<Event>, e: Event) {
    match e
    case WaitEnded(t, c, code, expired) =>
      && (code == ETIMEDOUT ==> LastTimed(before, t) && expired)
      && code in {OK, ETIMEDOUT} && Wakes(before, t) <= 1
      && (code == OK <==> Wakes(before, t) == 1 && !Missed(before, t, c))
      && (ByBroadcast(before, t) ==> RoundBegan(before, t) < Rounds(before, c))
    case WaitSlept(t, c, expired) =>
      && !(LastTimed(before, t) && expired)
      && (Wakes(before, t) == 0 || Missed(before, t, c))
    case WaitReturned(t, m, depth, code) =>
      && (m, depth) == LastWait(before, t) && code == LastEnd(before, t)
    case _ => true
  }

  ghost predicate HistoryOk(log: seq<Event>) {
    forall j | 0 <= j < |log| :: EventOk(log[..j], log[j])
  }

  lemma HistoryStep(log: seq<Event>, e: Event)
    requires HistoryOk(log) && EventOk(log, e)
    ensures HistoryOk(log + [e])
  {
    hide EventOk;
    var log' := log + [e];
    forall j | 0 <= j < |log'| ensures EventOk(log'[..j], log'[j]) {
      if j < |log| {
        assert log'[..j] == log[..j];
      } else {
        assert log'[..j] == log;
      }
    }
  }

  // ---------------------------------------------------------------------------------------------
  // Conservation of wake-ups

  ghost function InWaits(s: State): set<Pthread> {
    set t | t in s.phase && InWait(s, t)
  }

  /** Waits that were woken and have not yet run. */
  ghost function Awake(s: State): set<Pthread> {
    set t | t in s.phase && InWait(s, t) && !Queued(s, t)
  }

  /** Waits that were woken and ended with ETIMEDOUT all the same. */
  function Lost(log: seq<Event>): nat {
    if log == [] then 0
    else Lost(Butlast(log))
         + (var e := Last(log);
            if e.WaitEnded? && e.code == ETIMEDOUT && Wakes(Butlast(log), e.t) > 0 then 1 else 0)
  }

  /** No condition has been broadcast 2^64 times. */
  ghost predicate NoWrap(s: State) {
    forall c | c in s.heap.conds :: Rounds(s.log, c) < 0x1_0000_0000_0000_0000
  }

  ghost predicate Conserved(s: State) {
    && Begun(s.log) == Ended(s.log, OK) + Ended(s.log, ETIMEDOUT) + |InWaits(s)|
    && TotalWakes(s.log) == Ended(s.log, OK) + Lost(s.log) + |Awake(s)|
    && (NoWrap(s) ==> Lost(s.log) == 0)
  }

  lemma CountStep(log: seq<Event>, e: Event)
    ensures Begun(log + [e]) == Begun(log) + (if e.WaitBegan? then 1 else 0)
    ensures Ended(log + [e], OK) == Ended(log, OK) + (if e.WaitEnded? && e.code == OK then 1 else 0)
    ensures Ended(log + [e], ETIMEDOUT)
            == Ended(log, ETIMEDOUT) + (if e.WaitEnded? && e.code == ETIMEDOUT then 1 else 0)
    ensures TotalWakes(log + [e]) == TotalWakes(log) + |WokenBy(e)|
    ensures Lost(log + [e])
            == Lost(log) + (if e.WaitEnded? && e.code == ETIMEDOUT && Wakes(log, e.t) > 0 then 1 else 0)
  {
    hide Wakes, WokenBy;
    assert Butlast(log + [e]) == log;
  }

  lemma NoWrapEarlier(s: State, s': State, e: Event)
    requires s'.log == s.log + [e] && s'.heap.conds.Keys == s.heap.conds.Keys && NoWrap(s')
    ensures NoWrap(s)
  {
    hide Rounds;
    forall c | c in s.heap.conds ensures Rounds(s.log, c) < 0x1_0000_0000_0000_0000 {
      RoundsStep(s.log, e, c);
    }
  }

  /** The sets of waits after a step, given what the step does to each thread. */
  lemma SetsStep(s: State, s': State, e: Event, begins: set<Pthread>, ends: set<Pthread>, wakes: set<Pthread>)
    requires Conserved(s) && s'.log == s.log + [e] && s'.heap.conds.Keys == s.heap.conds.Keys
    requires InWaits(s') == InWaits(s) + begins - ends
    requires Awake(s') == Awake(s) + wakes - ends
    requires begins !! InWaits(s) && ends <= InWaits(s) && wakes !! Awake(s)
    requires |begins| == (if e.WaitBegan? then 1 else 0) && |ends| == (if e.WaitEnded? then 1 else 0)
    requires |wakes| == |WokenBy(e)| && begins !! ends && wakes !! ends
    requires e.WaitEnded? ==> e.code in {OK, ETIMEDOUT} && (e.code == OK ==> Wakes(s.log, e.t) > 0)
    requires e.WaitEnded? ==> if Wakes(s.log, e.t) > 0 then ends <= Awake(s) else ends !! Awake(s)
    requires NoWrap(s') && e.WaitEnded? && Wakes(s.log, e.t) > 0 ==> e.code == OK
    ensures Conserved(s')
  {
    hide Begun, Ended, TotalWakes, Lost, Wakes, WokenBy, NoWrap, InWaits, Awake;
    CountStep(s.log, e);
    if NoWrap(s') {
      NoWrapEarlier(s, s', e);
    }
    SizeChange(InWaits(s), begins, ends);
    SizeChange(Awake(s), wakes, ends);
  }

  lemma SizeChange<T>(a: set<T>, plus: set<T>, minus: set<T>)
    requires plus !! a && plus !! minus
    ensures minus <= a ==> |a + plus - minus| == |a| + |plus| - |minus|
    ensures minus !! a ==> |a + plus - minus| == |a| + |plus|
  {
    assert |a + plus| == |a| + |plus|;
    if minus <= a {
      assert |a + plus - minus| == |a + plus| - |minus|;
    } else if minus !! a {
      assert a + plus - minus == a + plus;
    }
  }

  // ---------------------------------------------------------------------------------------------
  // Every step keeps everything

  ghost predicate Inv(s: State) {
    ListsInv(s) && MutexInv(s) && HistoryOk(s.log) && Conserved(s)
  }

  /** A step that neither wakes, nor begins, ends or returns from a wait. */
  lemma PlainStep(s: State, s': State, e: Event)
    requires Inv(s) && MutexInv(s') && s'.heap == s.heap && s'.log == s.log + [e] && WokenBy(e) == []
    requires !e.WaitBegan? && !e.WaitEnded? && EventOk(s.log, e)
    requires s'.phase.Keys == s.phase.Keys
    requires forall t | t in s.phase :: (InWait(s, t) || InWait(s', t)) ==> s'.phase[t] == s.phase[t]
    ensures Inv(s')
  {
    hide Rounds, Wakes, ByBroadcast, RoundBegan, LastTimed, Begun, Ended, TotalWakes, Lost, HistoryOk, EventOk,
      Conserved, MutexInv;
    MutexIsWellFormed(s');
    QuietKeepsLists(s, s', e);
    HistoryStep(s.log, e);
    hide ListsInv;
    SameWaits(s, s');
    hide InWaits, Awake, WokenBy;
    assert InWaits(s') == InWaits(s) + {} - {};
    assert Awake(s') == Awake(s) + {} - {};
    SetsStep(s, s', e, {}, {}, {});
  }

  lemma SameWaits(s: State, s': State)
    requires s'.heap == s.heap && s'.phase.Keys == s.phase.Keys
    requires forall t | t in s.phase :: (InWait(s, t) || InWait(s', t)) ==> s'.phase[t] == s.phase[t]
    ensures InWaits(s') == InWaits(s) && Awake(s') == Awake(s)
  {
  }

  lemma JoinStep(s: State, s': State, t: Pthread, c: Cond, p: Phase, e: Event)
    requires Inv(s) && MutexInv(s') && Joins(s, s', t, c, p, e)
    ensures Inv(s')
  {
    hide Rounds, Wakes, ByBroadcast, RoundBegan, LastTimed, Wrap64, Begun, Ended, TotalWakes, Lost, HistoryOk,
      Conserved, MutexInv, ListsInv, ListOk, ThreadOk, WellFormed, EventOk;
    MutexIsWellFormed(s');
    JoinKeepsLists(s, s', t, c, p, e);
    PlainEvent(s.log, e);
    HistoryStep(s.log, e);
    forall u | u in s.phase ensures Queued(s', u) <==> u == t || Queued(s, u) {
      JoinedThread(s, s', t, c, p, e, u);
    }
    assert InWaits(s') == InWaits(s) + {t} - {};
    assert Awake(s') == Awake(s) + {} - {};
    SetsStep(s, s', e, {t}, {}, {});
  }

  lemma MutexIsWellFormed(s: State)
    requires MutexInv(s)
    ensures WellFormed(s)
  {
  }

  lemma EndStep(s: State, s': State, t: Pthread, code: Code, expired: bool)
    requires Inv(s) && MutexInv(s') && InWait(s, t) && WaitEnds(s, s', t, code, expired)
    ensures Inv(s')
  {
    hide Rounds, Wakes, ByBroadcast, RoundBegan, LastTimed, Wrap64, Begun, Ended, TotalWakes, Lost, HistoryOk,
      Conserved, MutexInv, ListsInv, ListOk, RemoveWaiter, WellFormed, EventOk, Ready, ThreadOk;
    var e := WaitEnded(t, s.phase[t].c, code, expired);
    WaitEndKeepsLists(s, s', t, code, expired);
    EndedEvent(s, s', t, code, expired);
    HistoryStep(s.log, e);
    EndedOthers(s, s', t, code, expired);
    assert InWaits(s') == InWaits(s) + {} - {t};
    assert Awake(s') == Awake(s) + {} - {t};
    SetsStep(s, s', e, {}, {t}, {});
  }

  /** The code of an ended wait says whether it had been woken. */
  lemma EndedEvent(s: State, s': State, t: Pthread, code: Code, expired: bool)
    requires ListsInv(s) && InWait(s, t) && WaitEnds(s, s', t, code, expired)
    ensures EventOk(s.log, WaitEnded(t, s.phase[t].c, code, expired)) && code in {OK, ETIMEDOUT}
    ensures s'.heap.conds.Keys == s.heap.conds.Keys
    ensures Wakes(s.log, t) == (if Queued(s, t) then 0 else 1)
    ensures code == OK ==> Wakes(s.log, t) > 0
    ensures NoWrap(s') && Wakes(s.log, t) > 0 ==> code == OK
  {
    MissedNow(s, t);
    hide Rounds, Wakes, ByBroadcast, RoundBegan, LastTimed, Ready, ListsInv, Erase;
    if NoWrap(s') {
      NoWrapEarlier(s, s', WaitEnded(t, s.phase[t].c, code, expired));
      NotMissed(s.log, t, s.phase[t].c);
    }
  }

  /** A pass that goes on sleeping has nothing to wake up for. */
  lemma SleptEvent(s: State, t: Pthread, expired: bool)
    requires ListsInv(s) && InWait(s, t) && Known(s.heap, s.phase[t].c, t)
    requires !Ready(s, t) && !(s.phase[t].timed && expired)
    ensures EventOk(s.log, WaitSlept(t, s.phase[t].c, expired))
  {
    MissedNow(s, t);
    hide Rounds, Wakes, ByBroadcast, RoundBegan, LastTimed, Ready, ListsInv;
    Holds(s, t);
  }

  lemma NotMissed(log: seq<Event>, t: Pthread, c: Cond)
    requires ByBroadcast(log, t) ==> 0 < Rounds(log, c) - RoundBegan(log, t) < 0x1_0000_0000_0000_0000
    ensures !Missed(log, t, c)
  {
    hide Rounds, ByBroadcast, RoundBegan, LastTimed;
  }

  /** A wait that ends leaves every other thread where it was. */
  lemma EndedOthers(s: State, s': State, t: Pthread, code: Code, expired: bool)
    requires ListsInv(s) && InWait(s, t) && WaitEnds(s, s', t, code, expired)
    ensures forall u | u in s.phase && u != t :: Queued(s', u) <==> Queued(s, u)
  {
    hide Rounds, Wakes, ByBroadcast, RoundBegan, LastTimed, Wrap64, Ready, Erase, ListsInv, ListOk, ThreadOk;
    if Queued(s, t) {
      var e := WaitEnded(t, s.phase[t].c, code, expired);
      ListIsWellFormed(s);
      assert Leaves(s, s', s.phase[t].c, t, e);
      LeftOthers(s, s', s.phase[t].c, t, e);
    }
  }

  lemma WakeStep(s: State, s': State, c: Cond, t: Pthread, targeted: bool)
    requires Inv(s) && Known(s.heap, c, t) && t in s.heap.conds[c].waiters
    requires s' == Logged(Woken(s, c, t), Signalled(c, t, targeted))
    ensures Inv(s')
    ensures Queued(s, t) && s.phase[t].c == c && !Queued(s', t)
    ensures forall u | u in s.phase && u != t :: Queued(s', u) <==> Queued(s, u)
  {
    hide Rounds, Wakes, ByBroadcast, RoundBegan, LastTimed, Wrap64, Begun, Ended, TotalWakes, Lost, HistoryOk,
      Conserved, MutexInv, WakeWaiter, ListsInv, ListOk, WellFormed, ThreadOk, Leaves, EventOk;
    var e := Signalled(c, t, targeted);
    ListIsWellFormed(s);
    SignalLeaves(s, c, t, targeted);
    WakeKeepsLists(s, s', c, t, targeted);
    WakingKeepsMutexes(s, s', e);
    PlainEvent(s.log, e);
    HistoryStep(s.log, e);
    LeftOthers(s, s', c, t, e);
    assert InWaits(s') == InWaits(s) + {} - {};
    assert Awake(s') == Awake(s) + {t} - {};
    SetsStep(s, s', e, {}, {}, {t});
  }

  lemma PlainEvent(log: seq<Event>, e: Event)
    requires !e.WaitEnded? && !e.WaitSlept? && !e.WaitReturned?
    ensures EventOk(log, e)
  {
  }

  /** Every other thread keeps its place. */
  lemma LeftOthers(s: State, s': State, c: Cond, t: Pthread, e: Event)
    requires ListsInv(s) && Leaves(s, s', c, t, e)
    ensures forall u | u in s.phase && u != t :: Queued(s', u) <==> Queued(s, u)
    ensures s'.heap.conds.Keys == s.heap.conds.Keys
  {
    hide Erase, ListsInv, ListOk, ThreadOk;
    forall u | u in s.phase && u != t ensures Queued(s', u) <==> Queued(s, u) {
      if InWait(s, u) {
        Holds(s, u);
        LeftMembers(s, s', c, t, e, s.phase[u].c);
      }
    }
  }

  lemma ClearStep(s: State, s': State, c: Cond)
    requires Inv(s) && Clears(s, s', c)
    ensures Inv(s')
  {
    hide Rounds, Wakes, ByBroadcast, RoundBegan, LastTimed, Wrap64, Begun, Ended, TotalWakes, Lost, HistoryOk,
      Conserved, MutexInv, ListsInv, ListOk, WellFormed, ThreadOk, Detached;
    var q := s.heap.conds[c].waiters;
    var e := Broadcasted(c, q);
    BroadcastKeepsLists(s, s', c);
    WakingKeepsMutexes(s, s', e);
    HistoryStep(s.log, e);
    ClearedSets(s, s', c);
    ListHolds(s, c);
    ListDistinct(s, c);
    DistinctSize(q);
    SetsStep(s, s', e, {}, {}, set u | u in q);
  }

  lemma ClearedSets(s: State, s': State, c: Cond)
    requires ListsInv(s) && Clears(s, s', c)
    ensures InWaits(s') == InWaits(s) + {} - {}
    ensures Awake(s') == Awake(s) + (set u | u in s.heap.conds[c].waiters) - {}
    ensures (set u | u in s.heap.conds[c].waiters) !! Awake(s)
    ensures forall u | u in s.phase :: Queued(s', u) <==> Queued(s, u) && s.phase[u].c != c
  {
    hide Rounds, Wakes, ByBroadcast, RoundBegan, LastTimed, Wrap64, ListsInv, ThreadOk, WellFormed, Detached;
    ListHolds(s, c);
    var q := s.heap.conds[c].waiters;
    assert forall u | u in q :: InWait(s, u) && s.phase[u].c == c && Queued(s, u);
  }

  lemma DistinctSize<T>(q: seq<T>)
    requires forall i, j | 0 <= i < j < |q| :: q[i] != q[j]
    ensures |set x | x in q| == |q|
  {
    if q != [] {
      var rest := q[1..];
      DistinctSize(rest);
      assert (set x | x in q) == {q[0]} + (set x | x in rest) by {
        assert q == [q[0]] + rest;
      }
    }
  }

  /** Steps of a thread on a mutex outside of waiting. */
  lemma MutexStepKeeps(s: State, a: Action, t: Pthread, m: Mutex)
    requires Inv(s) && Enabled(s, a) && GoodAct(s, Next(s, a), t, m)
    requires var s' := Next(s, a);
             && s'.heap == s.heap && WokenBy(Last(s'.log)) == []
             && !Last(s'.log).WaitBegan? && !Last(s'.log).WaitEnded? && EventOk(s.log, Last(s'.log))
             && !InWait(s, t) && !InWait(s', t)
    ensures Inv(Next(s, a))
  {
    hide Next, Enabled, DepthOk, MutexOk, WaitOk, EventOk, ListsInv, HistoryOk, Conserved;
    var s' := Next(s, a);
    ActKeepsMutexes(s, s', t, m, Last(s'.log));
    PlainStep(s, s', Last(s'.log));
  }

  lemma LockStepKeeps(s: State, a: Action)
    requires Inv(s) && Enabled(s, a) && (a.Lock? || a.RetryLock? || a.TryLockOnce? || a.UnlockOnce?)
    ensures Inv(Next(s, a))
  {
    hide ListsInv, HistoryOk, Conserved, MutexInv, GoodAct;
    match a
    case Lock(t, m, timeout) =>
      AttemptActs(s, t, m, timeout, LockEntry(s.mutexes[m], t, timeout));
      MutexStepKeeps(s, a, t, m);
    case RetryLock(t, expired) =>
      var p := s.phase[t];
      var timeout := Limit(p.timed, expired);
      AttemptActs(s, t, p.m, timeout, LockRetry(s.mutexes[p.m], t, timeout));
      MutexStepKeeps(s, a, t, p.m);
    case TryLockOnce(t, m) =>
      TryLockActs(s, t, m);
      MutexStepKeeps(s, a, t, m);
    case UnlockOnce(t, m) =>
      UnlockActs(s, t, m);
      MutexStepKeeps(s, a, t, m);
  }

  lemma RelockStepKeeps(s: State, a: Action)
    requires Inv(s) && Enabled(s, a) && (a.Relock? || a.Restore?)
    ensures Inv(Next(s, a))
  {
    hide ListsInv, HistoryOk, Conserved, GoodAct;
    assert WaitOk(s, a.t);
    hide MutexInv;
    var m := s.phase[a.t].m;
    if a.Relock? {
      RelockActs(s, a.t);
      MutexStepKeeps(s, a, a.t, m);
    } else {
      RestoreActs(s, a.t);
      MutexStepKeeps(s, a, a.t, m);
    }
  }

  lemma WaitStepKeeps(s: State, a: Action)
    requires Inv(s) && Enabled(s, a) && (a.BeginWait? || a.PollWait?)
    ensures Inv(Next(s, a))
  {
    hide ListsInv, HistoryOk, Conserved, Ready, Joins, RemoveWaiter, AddWaiter, Rounds, Wrap64;
    var s', t := Next(s, a), a.t;
    if a.BeginWait? {
      BeginWaitActs(s, t, a.c, a.m, a.timed);
      ActKeepsMutexes(s, s', t, a.m, Last(s'.log));
      hide MutexInv;
      if s.mutexes[a.m].owner == t {
        BeginWaitJoins(s, t, a.c, a.m, a.timed);
        JoinStep(s, s', t, a.c, s'.phase[t], WaitBegan(t, a.c, a.m, s.mutexes[a.m].count, a.timed));
      } else {
        PlainStep(s, s', Refused(t, a.m, Beginning, EPERM));
      }
    } else {
      PollActs(s, t, a.expired);
      ActKeepsMutexes(s, s', t, s.phase[t].m, Last(s'.log));
      hide MutexInv;
      PollOutcome(s, t, a.expired);
      if Ready(s, t) || (s.phase[t].timed && a.expired) {
        EndStep(s, s', t, if Ready(s, t) then OK else ETIMEDOUT, a.expired);
      } else {
        SleptEvent(s, t, a.expired);
        PlainStep(s, s', WaitSlept(t, s.phase[t].c, a.expired));
      }
    }
  }

  lemma SignalStepKeeps(s: State, a: Action)
    requires Inv(s) && Enabled(s, a) && (a.Signal? || a.SignalTo? || a.Broadcast?)
    ensures Inv(Next(s, a))
  {
    hide ListsInv, HistoryOk, Conserved, MutexInv, WakeWaiter, WakeAll;
    var s' := Next(s, a);
    match a
    case Signal(c) =>
      var q := s.heap.conds[c].waiters;
      if q == [] {
        WakingKeepsMutexes(s, s', Signalled(c, null, false));
        PlainStep(s, s', Signalled(c, null, false));
      } else {
        WakeStep(s, s', c, q[0], false);
      }
    case SignalTo(c, target) =>
      if target in s.heap.conds[c].waiters {
        WakeStep(s, s', c, target, true);
      } else {
        WakingKeepsMutexes(s, s', Signalled(c, null, true));
        PlainStep(s, s', Signalled(c, null, true));
      }
    case Broadcast(c) =>
      if s.heap.conds[c].waiters != [] {
        ClearStep(s, s', c);
      } else {
        NothingToClear(s, c);
        WakingKeepsMutexes(s, s', Broadcasted(c, []));
        PlainStep(s, s', Broadcasted(c, []));
      }
  }

  lemma NothingToClear(s: State, c: Cond)
    requires Enabled(s, Broadcast(c)) && s.heap.conds[c].waiters == []
    ensures Next(s, Broadcast(c)) == Logged(s, Broadcasted(c, []))
  {
  }

  /** Every step of every thread keeps the invariant. */
  lemma StepKeepsInv(s: State, a: Action)
    requires Inv(s) && Enabled(s, a)
    ensures Inv(Next(s, a))
  {
    hide Inv, Next, Enabled;
    match a
    case Lock(_, _, _) => LockStepKeeps(s, a);
    case RetryLock(_, _) => LockStepKeeps(s, a);
    case TryLockOnce(_, _) => LockStepKeeps(s, a);
    case UnlockOnce(_, _) => LockStepKeeps(s, a);
    case BeginWait(_, _, _, _) => WaitStepKeeps(s, a);
    case PollWait(_, _) => WaitStepKeeps(s, a);
    case Relock(_) => RelockStepKeeps(s, a);
    case Restore(_) => RelockStepKeeps(s, a);
    case Signal(_) => SignalStepKeeps(s, a);
    case SignalTo(_, _) => SignalStepKeeps(s, a);
    case Broadcast(_) => SignalStepKeeps(s, a);
  }

  lemma InitInv(s: State)
    requires Init(s)
    ensures Inv(s)
  {
    assert InWaits(s) == {} && Awake(s) == {};
  }

  /** In every reachable state, the lists, the mutexes, the history and the counts are in order. */
  lemma {:induction false} RunKeepsInv(s: State, acts: seq<Action>)
    requires Inv(s) && CanRun(s, acts)
    ensures Inv(Run(s, acts))
    decreases |acts|
  {
    hide Inv, Next, Enabled;
    if acts != [] {
      StepKeepsInv(s, acts[0]);
      RunKeepsInv(Next(s, acts[0]), acts[1..]);
    }
  }

  // ---------------------------------------------------------------------------------------------
  // The waiter lists in every reachable state

  /**
   t is on the list of c exactly when it is inside a wait on c and neither sequence number has moved
   since the wait began; it is there once, on no other list, and its waiting_cond field says so.
   */
  lemma ListedExactly(s: State, acts: seq<Action>, t: Pthread, c: Cond)
    requires Init(s) && CanRun(s, acts) && t in s.phase && c in s.heap.conds
    ensures var s' := Run(s, acts);
            && t in s'.phase && t in s'.heap.threads && c in s'.heap.conds
            && (t in s'.heap.conds[c].waiters <==>
                  && InWait(s', t) && s'.phase[t].c == c
                  && s'.heap.threads[t].condSequence == s'.phase[t].tseq0
                  && Rounds(s'.log, c) == s'.phase[t].round)
            && (NoWrap(s') ==>
                  (t in s'.heap.conds[c].waiters <==> InWait(s', t) && s'.phase[t].c == c && !Ready(s', t)))
            && (t in s'.heap.conds[c].waiters <==> s'.heap.threads[t].waitingCond == c)
            && multiset(s'.heap.conds[c].waiters)[t] <= 1
            && (forall d | d in s'.heap.conds && d != c ::
                  t in s'.heap.conds[c].waiters ==> t !in s'.heap.conds[d].waiters)
  {
    InitInv(s);
    RunKeepsInv(s, acts);
    RunKeepsDomains(s, acts);
    ListedNow(Run(s, acts), t, c);
  }

  lemma ListedNow(s: State, t: Pthread, c: Cond)
    requires ListsInv(s) && t in s.phase && c in s.heap.conds
    ensures t in s.heap.threads
    ensures InWait(s, t) ==> Known(s.heap, s.phase[t].c, t)
    ensures t in s.heap.conds[c].waiters <==>
            && InWait(s, t) && s.phase[t].c == c
            && s.heap.threads[t].condSequence == s.phase[t].tseq0 && Rounds(s.log, c) == s.phase[t].round
    ensures NoWrap(s) ==>
            (t in s.heap.conds[c].waiters <==> InWait(s, t) && s.phase[t].c == c && !Ready(s, t))
    ensures t in s.heap.conds[c].waiters <==> s.heap.threads[t].waitingCond == c
    ensures multiset(s.heap.conds[c].waiters)[t] <= 1
    ensures forall d | d in s.heap.conds && d != c :: t in s.heap.conds[c].waiters ==> t !in s.heap.conds[d].waiters
  {
    hide Rounds, Wakes, ByBroadcast, RoundBegan, LastTimed, Wrap64, ListsInv;
    Holds(s, t);
    ListHolds(s, c);
    ListDistinct(s, c);
    OnceInMultiset(s.heap.conds[c].waiters, t);
    if InWait(s, t) {
      ReadyExactly(s, t);
      WrapStep(s.phase[t].tseq0);
    }
    forall d | d in s.heap.conds && d != c && t in s.heap.conds[c].waiters ensures t !in s.heap.conds[d].waiters {
      ListHolds(s, d);
    }
  }

  /**
   In every reachable state, a thread waiting off its list was woken exactly once, and its readiness test
   misses it if and only if a broadcast woke it and the broadcasts since it began to wait that found
   someone waiting number a multiple of 2^64.
   */
  lemma MissedExactly(s: State, acts: seq<Action>, t: Pthread)
    requires Init(s) && CanRun(s, acts) && InWait(Run(s, acts), t) && !Queued(Run(s, acts), t)
    ensures var s' := Run(s, acts);
            var p := s'.phase[t];
            && Known(s'.heap, p.c, t)
            && Wakes(s'.log, t) == 1 && p.round == RoundBegan(s'.log, t) <= Rounds(s'.log, p.c)
            && (!Ready(s', t) <==> Missed(s'.log, t, p.c))
            && (!Ready(s', t) <==>
                  && ByBroadcast(s'.log, t)
                  && (Rounds(s'.log, p.c) - p.round) % 0x1_0000_0000_0000_0000 == 0)
  {
    hide Run, CanRun, Init, ListsInv, MutexInv, HistoryOk, Conserved, Queued, Rounds, Wakes, ByBroadcast, RoundBegan,
      LastTimed, Ready;
    InitInv(s);
    RunKeepsInv(s, acts);
    MissedNow(Run(s, acts), t);
    RoundsRise(Run(s, acts), t);
  }

  lemma RoundsRise(s: State, t: Pthread)
    requires ListsInv(s) && InWait(s, t)
    ensures Known(s.heap, s.phase[t].c, t) && s.phase[t].round <= Rounds(s.log, s.phase[t].c)
  {
    hide Rounds, Wakes, ByBroadcast, RoundBegan, LastTimed, ListsInv;
    Holds(s, t);
  }

  ghost predicate SameDomains(s: State, s': State) {
    && s'.phase.Keys == s.phase.Keys && s'.heap.conds.Keys == s.heap.conds.Keys
    && s'.mutexes.Keys == s.mutexes.Keys && |s'.log| == |s.log| + 1
  }

  /** No step creates or destroys a thread, a mutex or a condition. */
  lemma StepKeepsDomains(s: State, a: Action)
    requires Inv(s) && Enabled(s, a)
    ensures SameDomains(s, Next(s, a))
  {
    hide Inv, Next, Enabled, SameDomains;
    match a
    case Lock(_, _, _) => LockKeepsDomains(s, a);
    case RetryLock(_, _) => LockKeepsDomains(s, a);
    case TryLockOnce(_, _) => LockKeepsDomains(s, a);
    case UnlockOnce(_, _) => LockKeepsDomains(s, a);
    case Relock(_) => LockKeepsDomains(s, a);
    case Restore(_) => LockKeepsDomains(s, a);
    case BeginWait(_, _, _, _) => WaitKeepsDomains(s, a);
    case PollWait(_, _) => WaitKeepsDomains(s, a);
    case Signal(_) => WakingKeepsDomains(s, a);
    case SignalTo(_, _) => WakingKeepsDomains(s, a);
    case Broadcast(_) => WakingKeepsDomains(s, a);
  }

  lemma WaitKeepsDomains(s: State, a: Action)
    requires Enabled(s, a) && (a.BeginWait? || a.PollWait?)
    ensures SameDomains(s, Next(s, a))
  {
    hide Rounds, RemoveWaiter, AddWaiter, Ready, Unlock;
  }

  lemma WakingKeepsDomains(s: State, a: Action)
    requires Enabled(s, a) && (a.Signal? || a.SignalTo? || a.Broadcast?)
    ensures SameDomains(s, Next(s, a))
  {
    hide WakeWaiter, WakeAll;
  }

  lemma LockKeepsDomains(s: State, a: Action)
    requires Enabled(s, a)
    requires a.Lock? || a.RetryLock? || a.TryLockOnce? || a.UnlockOnce? || a.Relock? || a.Restore?
    ensures SameDomains(s, Next(s, a))
  {
    hide LockEntry, LockRetry, TryLock, Unlock, SetDepth;
  }

  lemma {:induction false} RunKeepsDomains(s: State, acts: seq<Action>)
    requires Inv(s) && CanRun(s, acts)
    ensures var s' := Run(s, acts);
            s'.phase.Keys == s.phase.Keys && s'.heap.conds.Keys == s.heap.conds.Keys
            && s'.mutexes.Keys == s.mutexes.Keys && |s'.log| == |s.log| + |acts|
    decreases |acts|
  {
    hide Inv, Next, Enabled;
    if acts != [] {
      StepKeepsInv(s, acts[0]);
      StepKeepsDomains(s, acts[0]);
      RunKeepsDomains(Next(s, acts[0]), acts[1..]);
    }
  }

  // ---------------------------------------------------------------------------------------------
  // Conservation over whole runs

  /**
   Over any run: every wait begun has ended one way or is still going on; the wake-ups issued are the
   waits that ended OK, the woken waits still on their way, and those that missed theirs; and a wait that
   ended was woken at most once, and exactly once without missing it if it ended OK.  Short of 2^64
   broadcasts on one condition, none is missed.
   */
  lemma WakeUpsConserved(s: State, acts: seq<Action>)
    requires Init(s) && CanRun(s, acts)
    ensures var s' := Run(s, acts);
            && Begun(s'.log) == Ended(s'.log, OK) + Ended(s'.log, ETIMEDOUT) + |InWaits(s')|
            && TotalWakes(s'.log) == Ended(s'.log, OK) + Lost(s'.log) + |Awake(s')|
            && (forall j | 0 <= j < |s'.log| && s'.log[j].WaitEnded? :: EndsAsWoken(s'.log, j))
            && (NoWrap(s') ==> Lost(s'.log) == 0)
  {
    InitInv(s);
    RunKeepsInv(s, acts);
    hide Run, CanRun, Init, ListsInv, MutexInv, Begun, Ended, TotalWakes, Lost, InWaits, Awake, EndsAsWoken, EventOk;
    var s' := Run(s, acts);
    forall j | 0 <= j < |s'.log| && s'.log[j].WaitEnded? ensures EndsAsWoken(s'.log, j) {
      assert EventOk(s'.log[..j], s'.log[j]);
      EventEndsAsWoken(s'.log, j);
    }
  }

  /**
   The wait that ended here was woken at most once, and ended OK exactly when it was and did not miss it;
   it did not while its condition had been broadcast fewer than 2^64 times.
   */
  ghost predicate EndsAsWoken(log: seq<Event>, j: nat)
    requires j < |log| && log[j].WaitEnded?
  {
    var before, e := log[..j], log[j];
    && Wakes(before, e.t) <= 1
    && (e.code == OK <==> Wakes(before, e.t) == 1 && !Missed(before, e.t, e.c))
    && (Rounds(log, e.c) < 0x1_0000_0000_0000_0000 ==> Wakes(before, e.t) == if e.code == OK then 1 else 0)
  }

  lemma EventEndsAsWoken(log: seq<Event>, j: nat)
    requires j < |log| && log[j].WaitEnded? && EventOk(log[..j], log[j])
    ensures EndsAsWoken(log, j)
  {
    hide Rounds, Wakes, ByBroadcast, RoundBegan, LastTimed, Missed;
    if Rounds(log, log[j].c) < 0x1_0000_0000_0000_0000 {
      NotMissedAt(log, j);
    }
  }

  lemma NotMissedAt(log: seq<Event>, j: nat)
    requires j < |log| && log[j].WaitEnded? && EventOk(log[..j], log[j])
    requires Rounds(log, log[j].c) < 0x1_0000_0000_0000_0000
    ensures Wakes(log[..j], log[j].t) == if log[j].code == OK then 1 else 0
  {
    hide Rounds, Wakes, ByBroadcast, RoundBegan, LastTimed;
    RoundsPrefix(log, j, log[j].c);
    NotMissed(log[..j], log[j].t, log[j].c);
  }

  lemma {:induction false} RoundsPrefix(log: seq<Event>, j: nat, c: Cond)
    requires j <= |log|
    ensures Rounds(log[..j], c) <= Rounds(log, c)
    decreases |log|
  {
    if j == |log| {
      assert log[..j] == log;
    } else {
      RoundsPrefix(Butlast(log), j, c);
      assert Butlast(log)[..j] == log[..j];
    }
  }

  // ---------------------------------------------------------------------------------------------
  // Order of arrival

  /** The thread w, and no other, leaves its list, and finds itself ready however often anything was broadcast. */
  ghost predicate WakesOnly(s: State, s': State, c: Cond, w: Pthread) {
    && s'.log != [] && WokenBy(Last(s'.log)) == [w]
    && Queued(s, w) && s.phase[w].c == c && InWait(s', w) && s'.phase[w] == s.phase[w] && !Queued(s', w)
    && Known(s'.heap, s'.phase[w].c, w) && Ready(s', w)
    && (forall t | t in s.phase && t != w :: Queued(s', t) <==> Queued(s, t))
  }

  lemma SignalWakes(s: State, s': State, c: Cond, w: Pthread, targeted: bool)
    requires Inv(s) && Known(s.heap, c, w) && w in s.heap.conds[c].waiters
    requires s' == Logged(Woken(s, c, w), Signalled(c, w, targeted))
    ensures WakesOnly(s, s', c, w)
  {
    hide ListsInv, HistoryOk, Conserved, MutexInv, WakeWaiter, Rounds, Wakes, ByBroadcast, RoundBegan, LastTimed,
      Wrap64;
    WakeStep(s, s', c, w, targeted);
    Holds(s', w);
    WakesStep(s.log, Signalled(c, w, targeted), w);
    assert multiset([w])[w] == 1;
    WrapStep(s'.phase[w].tseq0);
  }

  /** Of the threads listed on the condition, w began to wait first. */
  ghost predicate ArrivedFirst(s: State, c: Cond, w: Pthread) {
    && Queued(s, w) && s.phase[w].c == c
    && forall t | t in s.phase && Queued(s, t) && s.phase[t].c == c && t != w :: s.phase[w].ticket < s.phase[t].ticket
  }

  /** An untargeted signal wakes, of the threads listed on the condition, the one that arrived first. */
  lemma SignalWakesFirst(s: State, c: Cond)
    requires Inv(s) && Enabled(s, Signal(c)) && s.heap.conds[c].waiters != []
    ensures var w := s.heap.conds[c].waiters[0];
            WakesOnly(s, Next(s, Signal(c)), c, w) && ArrivedFirst(s, c, w)
  {
    hide ListsInv, HistoryOk, Conserved, MutexInv, WakeWaiter, WakesOnly, Rounds, Wakes, ByBroadcast, RoundBegan,
      LastTimed;
    ListHolds(s, c);
    FrontArrivedFirst(s, c);
    SignalWakes(s, Next(s, Signal(c)), c, s.heap.conds[c].waiters[0], false);
  }

  lemma FrontArrivedFirst(s: State, c: Cond)
    requires c in s.heap.conds && ListOk(s, c) && s.heap.conds[c].waiters != []
    ensures ArrivedFirst(s, c, s.heap.conds[c].waiters[0])
  {
    hide Rounds;
    var q := s.heap.conds[c].waiters;
    assert Queued(s, q[0]);
    forall t | t in s.phase && Queued(s, t) && s.phase[t].c == c && t != q[0]
      ensures s.phase[q[0]].ticket < s.phase[t].ticket
    {
      var i :| 0 <= i < |q| && q[i] == t;
    }
  }

  /** A targeted signal wakes its target if it is listed, and otherwise nobody. */
  lemma SignalToWakesTarget(s: State, c: Cond, target: Pthread)
    requires Inv(s) && Enabled(s, SignalTo(c, target))
    ensures var s' := Next(s, SignalTo(c, target));
            if target in s.heap.conds[c].waiters then WakesOnly(s, s', c, target)
            else s' == Logged(s, Signalled(c, null, true))
  {
    hide Inv, WakeWaiter, WakesOnly;
    if target in s.heap.conds[c].waiters {
      SignalWakes(s, Next(s, SignalTo(c, target)), c, target, true);
    }
  }

  // ---------------------------------------------------------------------------------------------
  // No wake-up is lost

  /** The wait with this ticket is still on the list of c. */
  ghost predicate StillQueued(s: State, t: Pthread, c: Cond, ticket: nat) {
    Queued(s, t) && s.phase[t].c == c && s.phase[t].ticket == ticket
  }

  ghost function Place(s: State, t: Pthread, c: Cond): nat {
    if c in s.heap.conds && t in s.heap.conds[c].waiters then IndexOf(s.heap.conds[c].waiters, t) else 0
  }

  /** Untargeted signals on c. */
  function Signals(log: seq<Event>, c: Cond): nat {
    if log == [] then 0
    else Signals(Butlast(log), c) + (if Last(log).Signalled? && Last(log).c == c && !Last(log).targeted then 1 else 0)
  }

  /** If the wait is listed later, it was listed before, and each signal between moved it up one place. */
  ghost predicate Advanced(s: State, s': State, t: Pthread, c: Cond, ticket: nat) {
    StillQueued(s', t, c, ticket) ==>
      && StillQueued(s, t, c, ticket)
      && Place(s', t, c) + Signals(s'.log, c) <= Place(s, t, c) + Signals(s.log, c)
      && Rounds(s'.log, c) == Rounds(s.log, c)
  }

  lemma SignalsStep(log: seq<Event>, e: Event, c: Cond)
    ensures Signals(log + [e], c)
            == Signals(log, c) + (if e.Signalled? && e.c == c && !e.targeted then 1 else 0)
  {
    assert Butlast(log + [e]) == log;
  }

  lemma EraseAt<T>(q: seq<T>, x: T, n: nat)
    requires x in q && n < |q| - 1
    ensures |Erase(q, x)| == |q| - 1 && Erase(q, x)[n] == q[if n < IndexOf(q, x) then n else n + 1]
  {
    hide IndexOf;
  }

  /** Erasing another element moves a first occurrence up by one, or not at all. */
  lemma ErasedIndex<T>(q: seq<T>, x: T, t: T)
    requires x in q && t in q && t != x
    ensures t in Erase(q, x)
    ensures IndexOf(Erase(q, x), t) <= IndexOf(q, t)
    ensures x == q[0] ==> IndexOf(Erase(q, x), t) + 1 == IndexOf(q, t)
  {
    hide Erase, IndexOf;
    var k, i, r := IndexOf(q, x), IndexOf(q, t), Erase(q, x);
    var j := if i < k then i else i - 1;
    EraseAt(q, x, j);
    forall n: nat | n < j ensures r[n] != t {
      EraseAt(q, x, n);
      BeforeIndex(q, t, if n < k then n else n + 1);
    }
    LeastIndex(r, t, j);
    if x == q[0] {
      LeastIndex(q, x, 0);
    }
  }

  lemma BeforeIndex<T>(q: seq<T>, x: T, n: nat)
    requires x in q && n < IndexOf(q, x)
    ensures q[n] != x
  {
    hide IndexOf;
    assert q[..IndexOf(q, x)][n] == q[n];
  }

  lemma LeastIndex<T>(q: seq<T>, x: T, i: nat)
    requires i < |q| && q[i] == x && forall n: nat | n < i :: q[n] != x
    ensures x in q && IndexOf(q, x) == i
  {
    hide IndexOf;
    FirstIndex(q, x, i);
  }

  lemma AppendedIndex<T>(q: seq<T>, t: T, x: T)
    requires t in q
    ensures t in q + [x] && IndexOf(q + [x], t) == IndexOf(q, t)
  {
    var i := IndexOf(q, t);
    assert (q + [x])[..i] == q[..i];
    FirstIndex(q + [x], t, i);
  }

  lemma LeaveAdvances(s: State, s': State, d: Cond, u: Pthread, e: Event, t: Pthread, c: Cond, ticket: nat)
    requires ListsInv(s) && Leaves(s, s', d, u, e)
    requires e.Signalled? && !e.targeted ==> e.c == d && u == s.heap.conds[d].waiters[0]
    ensures Advanced(s, s', t, c, ticket)
  {
    if StillQueued(s', t, c, ticket) {
      hide Signals, Rounds, ListsInv, Leaves, WokenBy, Place;
      SignalsStep(s.log, e, c);
      RoundsStep(s.log, e, c);
      LeftMembers(s, s', d, u, e, c);
      LeftQueues(s, s', d, u, e, t, c);
      LeftPosition(s, s', d, u, t, c);
    }
  }

  lemma LeftPosition(s: State, s': State, d: Cond, u: Pthread, t: Pthread, c: Cond)
    requires d in s.heap.conds && c in s.heap.conds && c in s'.heap.conds && u in s.heap.conds[d].waiters && t != u
    requires t in s.heap.conds[c].waiters
    requires s'.heap.conds[c].waiters
             == if c == d then Erase(s.heap.conds[c].waiters, u) else s.heap.conds[c].waiters
    ensures Place(s', t, c) <= Place(s, t, c)
    ensures c == d && u == s.heap.conds[d].waiters[0] ==> Place(s', t, c) + 1 <= Place(s, t, c)
  {
    hide Erase, IndexOf;
    if c == d {
      ErasedIndex(s.heap.conds[c].waiters, u, t);
    }
  }

  lemma LeftQueues(s: State, s': State, d: Cond, u: Pthread, e: Event, t: Pthread, c: Cond)
    requires Leaves(s, s', d, u, e) && t in s'.phase && t != u && c in s'.heap.conds
    ensures s'.log == s.log + [e] && !e.Broadcasted? && u in s.heap.conds[d].waiters
    ensures t in s.phase && s'.phase[t] == s.phase[t] && c in s.heap.conds
    ensures s'.heap.conds[c].waiters
            == if c == d then Erase(s.heap.conds[c].waiters, u) else s.heap.conds[c].waiters
  {
    hide Erase, WokenBy;
  }

  lemma JoinAdvances(s: State, s': State, u: Pthread, d: Cond, p: Phase, e: Event, t: Pthread, c: Cond, ticket: nat)
    requires ListsInv(s) && Joins(s, s', u, d, p, e) && ticket < |s.log|
    ensures Advanced(s, s', t, c, ticket)
  {
    if StillQueued(s', t, c, ticket) {
      hide Signals, Rounds, ThreadOk, WellFormed;
      SignalsStep(s.log, e, c);
      RoundsStep(s.log, e, c);
      assert t in s.heap.conds[c].waiters;
      AppendedIndex(s.heap.conds[c].waiters, t, u);
    }
  }

  lemma StayAdvances(s: State, s': State, e: Event, t: Pthread, c: Cond, ticket: nat)
    requires s'.heap.conds == s.heap.conds && s'.log == s.log + [e] && WokenBy(e) == []
    requires e.Signalled? && !e.targeted && e.c in s.heap.conds ==> s.heap.conds[e.c].waiters == []
    requires InWait(s', t) ==> InWait(s, t) && s'.phase[t] == s.phase[t]
    ensures Advanced(s, s', t, c, ticket)
  {
    if StillQueued(s', t, c, ticket) {
      SignalsStep(s.log, e, c);
      RoundsStep(s.log, e, c);
    }
  }

  lemma StepAdvances(s: State, a: Action, t: Pthread, c: Cond, ticket: nat)
    requires Inv(s) && Enabled(s, a) && ticket < |s.log|
    ensures Advanced(s, Next(s, a), t, c, ticket)
  {
    hide Inv, Next, Enabled, Advanced;
    match a
    case Lock(_, _, _) => LockAdvances(s, a, t, c, ticket);
    case RetryLock(_, _) => LockAdvances(s, a, t, c, ticket);
    case TryLockOnce(_, _) => LockAdvances(s, a, t, c, ticket);
    case UnlockOnce(_, _) => LockAdvances(s, a, t, c, ticket);
    case Relock(_) => LockAdvances(s, a, t, c, ticket);
    case Restore(_) => LockAdvances(s, a, t, c, ticket);
    case BeginWait(_, _, _, _) => BeginAdvances(s, a, t, c, ticket);
    case PollWait(u, expired) => PollAdvances(s, u, expired, t, c, ticket);
    case Signal(_) => SignalAdvances(s, a, t, c, ticket);
    case SignalTo(_, _) => SignalAdvances(s, a, t, c, ticket);
    case Broadcast(d) => BroadcastAdvances(s, d, t, c, ticket);
  }

  lemma LockAdvances(s: State, a: Action, t: Pthread, c: Cond, ticket: nat)
    requires Enabled(s, a)
    requires a.Lock? || a.RetryLock? || a.TryLockOnce? || a.UnlockOnce? || a.Relock? || a.Restore?
    ensures Advanced(s, Next(s, a), t, c, ticket)
  {
    hide Advanced, LockEntry, LockRetry, TryLock, Unlock, SetDepth;
    StayAdvances(s, Next(s, a), Last(Next(s, a).log), t, c, ticket);
  }

  lemma BeginAdvances(s: State, a: Action, t: Pthread, c: Cond, ticket: nat)
    requires Inv(s) && Enabled(s, a) && a.BeginWait? && ticket < |s.log|
    ensures Advanced(s, Next(s, a), t, c, ticket)
  {
    hide HistoryOk, Conserved, MutexInv, Rounds, Advanced, AddWaiter, Joins, ListsInv;
    var s' := Next(s, a);
    if s.mutexes[a.m].owner == a.t {
      BeginWaitJoins(s, a.t, a.c, a.m, a.timed);
      JoinAdvances(s, s', a.t, a.c, s'.phase[a.t], Last(s'.log), t, c, ticket);
    } else {
      StayAdvances(s, s', Last(s'.log), t, c, ticket);
    }
  }

  lemma SignalAdvances(s: State, a: Action, t: Pthread, c: Cond, ticket: nat)
    requires Inv(s) && Enabled(s, a) && (a.Signal? || a.SignalTo?)
    ensures Advanced(s, Next(s, a), t, c, ticket)
  {
    hide HistoryOk, Conserved, MutexInv, Advanced, WakeWaiter, Leaves, ListsInv;
    ListIsWellFormed(s);
    hide WellFormed;
    var s', q := Next(s, a), s.heap.conds[a.c].waiters;
    var nobody := if a.Signal? then q == [] else a.target !in q;
    if nobody {
      StayAdvances(s, s', Last(s'.log), t, c, ticket);
    } else {
      var u := if a.Signal? then q[0] else a.target;
      SignalLeaves(s, a.c, u, a.SignalTo?);
      LeaveAdvances(s, s', a.c, u, Last(s'.log), t, c, ticket);
    }
  }

  lemma PollAdvances(s: State, u: Pthread, expired: bool, t: Pthread, c: Cond, ticket: nat)
    requires Inv(s) && Enabled(s, PollWait(u, expired))
    ensures Advanced(s, Next(s, PollWait(u, expired)), t, c, ticket)
  {
    hide HistoryOk, Conserved, MutexInv, Rounds, Signals, Advanced, Erase, Ready, ListOk, ThreadOk, PhaseOk;
    var s' := Next(s, PollWait(u, expired));
    PollOutcome(s, u, expired);
    if InWait(s', u) {
      StayAdvances(s, s', WaitSlept(u, s.phase[u].c, expired), t, c, ticket);
    } else if Queued(s, u) {
      LeaveAdvances(s, s', s.phase[u].c, u, Last(s'.log), t, c, ticket);
    } else {
      StayAdvances(s, s', Last(s'.log), t, c, ticket);
    }
  }

  lemma BroadcastAdvances(s: State, d: Cond, t: Pthread, c: Cond, ticket: nat)
    requires Inv(s) && Enabled(s, Broadcast(d))
    ensures Advanced(s, Next(s, Broadcast(d)), t, c, ticket)
  {
    hide HistoryOk, Conserved, MutexInv, Rounds, Signals;
    var s' := Next(s, Broadcast(d));
    SignalsStep(s.log, Last(s'.log), c);
    RoundsStep(s.log, Last(s'.log), c);
  }

  lemma {:induction false} RunAdvances(s: State, acts: seq<Action>, t: Pthread, c: Cond, ticket: nat)
    requires Inv(s) && CanRun(s, acts) && ticket < |s.log|
    ensures Advanced(s, Run(s, acts), t, c, ticket)
    decreases |acts|
  {
    hide Inv, Next, Enabled;
    if acts != [] {
      StepKeepsInv(s, acts[0]);
      StepKeepsDomains(s, acts[0]);
      StepAdvances(s, acts[0], t, c, ticket);
      RunAdvances(Next(s, acts[0]), acts[1..], t, c, ticket);
    }
  }

  /** How the wait that t was in when the log had length i ended, if it has. */
  function FirstEnd(log: seq<Event>, i: nat, t: Pthread): Option<Code> {
    if |log| <= i then None
    else match FirstEnd(Butlast(log), i, t)
      case Some(code) => Some(code)
      case None => if Last(log).WaitEnded? && Last(log).t == t then Some(Last(log).code) else None
  }

  lemma FirstEndStep(log: seq<Event>, e: Event, i: nat, t: Pthread)
    requires i <= |log|
    ensures FirstEnd(log + [e], i, t)
            == if FirstEnd(log, i, t) != None then FirstEnd(log, i, t)
               else if e.WaitEnded? && e.t == t then Some(e.code) else None
    ensures |log| == i ==> FirstEnd(log, i, t) == None
  {
    assert Butlast(log + [e]) == log;
  }

  /** The wait p is still going on, or it ended, with ETIMEDOUT only if it had a time limit. */
  ghost predicate EndsWell(s: State, t: Pthread, i: nat, p: Phase)
    requires p.Waiting?
  {
    i <= |s.log| && t in s.phase
    && match FirstEnd(s.log, i, t)
       case None => s.phase[t] == p
       case Some(code) => code == OK || (code == ETIMEDOUT && p.timed)
  }

  ghost predicate GoesOn(s: State, t: Pthread, p: Phase) {
    t in s.phase && s.phase[t] == p
  }

  /** Even with its time limit passed, the next pass of the wait ends it with OK. */
  ghost predicate EndsOkNext(s: State, t: Pthread) {
    && Enabled(s, PollWait(t, true))
    && Next(s, PollWait(t, true)).log == s.log + [WaitEnded(t, s.phase[t].c, OK, true)]
  }

  lemma StepEndsWell(s: State, a: Action, t: Pthread, i: nat, p: Phase)
    requires Enabled(s, a) && p.Waiting? && EndsWell(s, t, i, p)
    ensures EndsWell(Next(s, a), t, i, p)
  {
    hide FirstEnd, Rounds, Ready, RemoveWaiter, WakeWaiter, WakeAll, AddWaiter, Known, LockEntry, LockRetry, TryLock,
      Unlock, SetDepth;
    var s' := Next(s, a);
    FirstEndStep(s.log, Last(s'.log), i, t);
  }

  lemma {:induction false} RunEndsWell(s: State, acts: seq<Action>, t: Pthread, i: nat, p: Phase)
    requires CanRun(s, acts) && p.Waiting? && EndsWell(s, t, i, p)
    ensures EndsWell(Run(s, acts), t, i, p)
    decreases |acts|
  {
    hide Next, Enabled, EndsWell;
    if acts != [] {
      StepEndsWell(s, acts[0], t, i, p);
      RunEndsWell(Next(s, acts[0]), acts[1..], t, i, p);
    }
  }

  /**
   A wait queued behind n others is off the list once the condition has been broadcast, or signalled
   more than n times, after the wait joined the list and released its mutex.  It has then ended, with OK
   unless its time limit came first, or its next pass ends it with OK, unless it misses the wake-up; it
   cannot while fewer than 2^64 broadcasts came since.
   */
  lemma NoLostWakeUp(s: State, acts: seq<Action>, t: Pthread)
    requires Inv(s) && CanRun(s, acts) && Queued(s, t)
    ensures var s', c, ticket := Run(s, acts), s.phase[t].c, s.phase[t].ticket;
            Signals(s'.log, c) - Signals(s.log, c) > Place(s, t, c) || Rounds(s'.log, c) > Rounds(s.log, c)
            ==> && !StillQueued(s', t, c, ticket)
                && match FirstEnd(s'.log, |s.log|, t)
                   case Some(code) => code == OK || (code == ETIMEDOUT && s.phase[t].timed)
                   case None =>
                     && GoesOn(s', t, s.phase[t])
                     && (EndsOkNext(s', t) <==> !Missed(s'.log, t, c))
                     && (Rounds(s'.log, c) - Rounds(s.log, c) < 0x1_0000_0000_0000_0000 ==> EndsOkNext(s', t))
  {
    hide Rounds, Signals, Place, FirstEnd, EndsOkNext, Missed;
    var s', p, i := Run(s, acts), s.phase[t], |s.log|;
    assert PhaseOk(s, p);
    QueuedRound(s, t);
    RunAdvances(s, acts, t, p.c, p.ticket);
    FirstEndStep(s.log, RelockSlept(t, p.m), i, t);
    RunEndsWell(s, acts, t, i, p);
    RunKeepsInv(s, acts);
    RunKeepsDomains(s, acts);
    if FirstEnd(s'.log, i, t) == None && !StillQueued(s', t, p.c, p.ticket) {
      hide Run, CanRun, Inv;
      OffTheList(s', t);
    }
  }

  lemma QueuedRound(s: State, t: Pthread)
    requires ListsInv(s) && Queued(s, t)
    ensures s.phase[t].round == Rounds(s.log, s.phase[t].c)
  {
    hide Rounds, Wakes, ByBroadcast, RoundBegan, LastTimed, ListsInv;
    Holds(s, t);
  }

  /** The next pass of a woken wait. */
  lemma OffTheList(s: State, t: Pthread)
    requires Inv(s) && InWait(s, t) && !Queued(s, t)
    ensures EndsOkNext(s, t) <==> !Missed(s.log, t, s.phase[t].c)
    ensures Rounds(s.log, s.phase[t].c) - s.phase[t].round < 0x1_0000_0000_0000_0000
            ==> !Missed(s.log, t, s.phase[t].c)
  {
    MissedNow(s, t);
    PollEndsOk(s, t);
    hide Rounds, Wakes, ByBroadcast, RoundBegan, LastTimed, Ready, Inv, EndsOkNext;
    if Rounds(s.log, s.phase[t].c) - s.phase[t].round < 0x1_0000_0000_0000_0000 {
      NotMissed(s.log, t, s.phase[t].c);
    }
  }

  lemma PollEndsOk(s: State, t: Pthread)
    requires Enabled(s, PollWait(t, true))
    ensures EndsOkNext(s, t) <==> Ready(s, t)
  {
    hide Ready, RemoveWaiter;
    var e := Last(Next(s, PollWait(t, true)).log);
    assert Last(s.log + [WaitEnded(t, s.phase[t].c, OK, true)]) == WaitEnded(t, s.phase[t].c, OK, true);
    assert Next(s, PollWait(t, true)).log == s.log + [e];
  }

  /**
   Time limits over whole runs: ETIMEDOUT ends only a wait that has a time limit, in a pass that finds it
   passed; and a wait sleeps on only while no limit of its own has passed and it has no wake-up to take.
   */
  lemma TimeLimitsAreKept(s: State, acts: seq<Action>, j: nat)
    requires Init(s) && CanRun(s, acts) && j < |Run(s, acts).log|
    ensures var e, before := Run(s, acts).log[j], Run(s, acts).log[..j];
            && (e.WaitEnded? && e.code == ETIMEDOUT ==> LastTimed(before, e.t) && e.expired)
            && (e.WaitSlept? ==> !(LastTimed(before, e.t) && e.expired)
                                 && (Wakes(before, e.t) == 0 || Missed(before, e.t, e.c)))
  {
    InitInv(s);
    RunKeepsInv(s, acts);
    hide Run, CanRun, Init, ListsInv, MutexInv, Conserved, Missed, Wakes, LastTimed;
    assert EventOk(Run(s, acts).log[..j], Run(s, acts).log[j]);
  }

  /** A wait without a time limit never ends with ETIMEDOUT, whatever happens. */
  lemma UntimedNeverTimesOut(s: State, acts: seq<Action>, t: Pthread)
    requires CanRun(s, acts) && InWait(s, t) && !s.phase[t].timed
    ensures FirstEnd(Run(s, acts).log, |s.log|, t) in {None, Some(OK)}
    ensures FirstEnd(Run(s, acts).log, |s.log|, t) == None ==> GoesOn(Run(s, acts), t, s.phase[t])
  {
    hide FirstEnd;
    FirstEndStep(s.log, RelockSlept(t, s.phase[t].m), |s.log|, t);
    RunEndsWell(s, acts, t, |s.log|, s.phase[t]);
  }

  // ---------------------------------------------------------------------------------------------
  // Lock depth over whole runs

  /**
   In every reachable state: a mutex is free exactly when its count is zero; otherwise its owner, unless
   between the two critical sections of a relock, has locked it count times more than it unlocked it;
   only recursive mutexes nest; and every finished wait gave back the mutex it took, at its full depth.
   */
  lemma DepthIsBalance(s: State, acts: seq<Action>, m: Mutex)
    requires Init(s) && CanRun(s, acts) && m in s.mutexes
    ensures var s' := Run(s, acts);
            && m in s'.mutexes
            && (s'.mutexes[m].owner == null <==> s'.mutexes[m].count == 0)
            && (s'.mutexes[m].kind != RECURSIVE ==> s'.mutexes[m].count <= 1)
            && (forall t | t in s'.phase ::
                  (if s'.mutexes[m].owner == t && !s'.phase[t].Restoring? then
                     Depth(s'.log, t, m) == s'.mutexes[m].count
                   else if s'.phase[t].Idle? || s'.phase[t].Locking? then Depth(s'.log, t, m) == 0
                   else true))
            && (forall j | 0 <= j < |s'.log| && s'.log[j].WaitReturned? ::
                  && (s'.log[j].m, s'.log[j].depth) == LastWait(s'.log[..j], s'.log[j].t)
                  && s'.log[j].code == LastEnd(s'.log[..j], s'.log[j].t))
  {
    InitInv(s);
    RunKeepsInv(s, acts);
    RunKeepsDomains(s, acts);
    DepthNow(Run(s, acts), m);
  }

  lemma DepthNow(s: State, m: Mutex)
    requires Inv(s) && m in s.mutexes
    ensures s.mutexes[m].owner == null <==> s.mutexes[m].count == 0
    ensures s.mutexes[m].kind != RECURSIVE ==> s.mutexes[m].count <= 1
    ensures forall t | t in s.phase ::
              (if s.mutexes[m].owner == t && !s.phase[t].Restoring? then Depth(s.log, t, m) == s.mutexes[m].count
               else if s.phase[t].Idle? || s.phase[t].Locking? then Depth(s.log, t, m) == 0
               else true)
    ensures forall j | 0 <= j < |s.log| && s.log[j].WaitReturned? ::
              && (s.log[j].m, s.log[j].depth) == LastWait(s.log[..j], s.log[j].t)
              && s.log[j].code == LastEnd(s.log[..j], s.log[j].t)
  {
    hide Depth, LastWait, LastEnd, ListsInv, Conserved;
    assert MutexOk(s, s.mutexes[m]);
    forall t | t in s.phase ensures DepthOk(s, t, m) {
    }
    forall j | 0 <= j < |s.log| && s.log[j].WaitReturned? ensures EventOk(s.log[..j], s.log[j]) {
    }
  }
}
