/**
 The limit of a condition's sequence number: a run in which a wake-up is lost because 2^64 broadcasts
 brought the number back to where the wait began.
 */
module CondWrap {
  import opened Common
  import opened PthreadObjects
  import opened CondProtocol

  /** t waits on c, woken by the first of n broadcasts; everything else is at rest. */
  ghost predicate Resting(s: State, t: Pthread, v: Pthread, c: Cond, m: Mutex, n: nat) {
    && Woken(s, t, v, c, m)
    && s.phase[v] == Idle && s.mutexes[m].owner == null
    && s.heap.conds[c] == CondView(Wrap64(n), [])
  }

  /** What stays as it is for the wait of t. */
  ghost predicate Woken(s: State, t: Pthread, v: Pthread, c: Cond, m: Mutex) {
    && t != v && {t, v} <= s.phase.Keys && {t, v} <= s.heap.threads.Keys && c in s.heap.conds && m in s.mutexes
    && (var p := s.phase[t];
        p.Waiting? && p.c == c && p.timed && p.seq0 == 0 && p.tseq0 == s.heap.threads[t].condSequence)
    && Wakes(s.log, t) == 1
  }

  lemma OneStep(s: State, a: Action, rest: seq<Action>)
    requires Enabled(s, a) && CanRun(Next(s, a), rest)
    ensures CanRun(s, [a] + rest) && Run(s, [a] + rest) == Run(Next(s, a), rest)
  {
    hide Enabled, Next;
    assert ([a] + rest)[1..] == rest;
  }

  lemma {:induction false} RunAppend(s: State, acts: seq<Action>, more: seq<Action>)
    requires CanRun(s, acts) && CanRun(Run(s, acts), more)
    ensures CanRun(s, acts + more) && Run(s, acts + more) == Run(Run(s, acts), more)
    decreases |acts|
  {
    hide Enabled, Next;
    if acts == [] {
      assert acts + more == more;
    } else {
      RunAppend(Next(s, acts[0]), acts[1..], more);
      assert (acts + more)[1..] == acts[1..] + more;
    }
  }

  // ---------------------------------------------------------------------------------------------
  // A second thread waits and is broadcast away

  /** v has joined the list of c. */
  lemma Joined(s: State, t: Pthread, v: Pthread, c: Cond, m: Mutex, n: nat) returns (s2: State)
    requires Resting(s, t, v, c, m, n)
    ensures Enabled(s, TryLockOnce(v, m))
    ensures var s1 := Next(s, TryLockOnce(v, m));
            Enabled(s1, BeginWait(v, c, m, true)) && s2 == Next(s1, BeginWait(v, c, m, true))
    ensures Woken(s2, t, v, c, m) && s2.mutexes[m].owner == null
    ensures s2.heap.conds[c] == CondView(Wrap64(n), [v])
    ensures var p := s2.phase[v]; p.Waiting? && p.c == c && p.m == m && p.seq0 == Wrap64(n) && p.recurse == 1
  {
    hide Rounds, Wakes, ByBroadcast, RoundBegan, LastTimed, Wrap64;
    var s1 := Next(s, TryLockOnce(v, m));
    WakesStep(s.log, Locked(v, m), t);
    assert s1.mutexes[m].owner == v && s1.mutexes[m].count == 1;
    s2 := Next(s1, BeginWait(v, c, m, true));
    WakesStep(s1.log, WaitBegan(v, c, m, 1, true), t);
  }

  /** v has been broadcast away and has left its wait. */
  lemma Left(s2: State, t: Pthread, v: Pthread, c: Cond, m: Mutex, n: nat) returns (s4: State)
    requires Woken(s2, t, v, c, m) && s2.mutexes[m].owner == null
    requires s2.heap.conds[c] == CondView(Wrap64(n), [v])
    requires var p := s2.phase[v]; p.Waiting? && p.c == c && p.m == m && p.seq0 == Wrap64(n) && p.recurse == 1
    ensures Enabled(s2, Broadcast(c))
    ensures var s3 := Next(s2, Broadcast(c));
            Enabled(s3, PollWait(v, false)) && s4 == Next(s3, PollWait(v, false))
    ensures Woken(s4, t, v, c, m) && s4.mutexes[m].owner == null
    ensures s4.heap.conds[c] == CondView(Wrap64(n + 1), [])
    ensures s4.phase[v] == Relocking(m, 1, OK)
  {
    hide Rounds, Wakes, ByBroadcast, RoundBegan, LastTimed, Wrap64;
    WrapStep(n);
    var s3 := Next(s2, Broadcast(c));
    WakesStep(s2.log, Broadcasted(c, [v]), t);
    assert multiset([v])[t] == 0;
    assert s3.heap.conds[c] == CondView(Wrap64(n + 1), []);
    s4 := Next(s3, PollWait(v, false));
    WakesStep(s3.log, WaitEnded(v, c, OK, false), t);
  }

  /** v has relocked the mutex. */
  lemma Relocks(s4: State, t: Pthread, v: Pthread, c: Cond, m: Mutex, n: nat) returns (s6: State)
    requires Woken(s4, t, v, c, m) && s4.mutexes[m].owner == null
    requires s4.heap.conds[c] == CondView(Wrap64(n + 1), []) && s4.phase[v] == Relocking(m, 1, OK)
    ensures Enabled(s4, Relock(v))
    ensures var s5 := Next(s4, Relock(v)); Enabled(s5, Restore(v)) && s6 == Next(s5, Restore(v))
    ensures Woken(s6, t, v, c, m) && s6.mutexes[m].owner == v && s6.mutexes[m].count == 1
    ensures s6.heap.conds[c] == CondView(Wrap64(n + 1), []) && s6.phase[v] == Idle
  {
    hide Rounds, Wakes, ByBroadcast, RoundBegan, LastTimed, Wrap64;
    var s5 := Next(s4, Relock(v));
    WakesStep(s4.log, Relocked(v, m), t);
    assert s5.mutexes[m].owner == v && s5.mutexes[m].count == 1;
    s6 := Next(s5, Restore(v));
    WakesStep(s5.log, WaitReturned(v, m, 1, OK), t);
  }

  /** v has unlocked it again. */
  lemma Unlocks(s6: State, t: Pthread, v: Pthread, c: Cond, m: Mutex, n: nat)
    requires Woken(s6, t, v, c, m) && s6.mutexes[m].owner == v && s6.mutexes[m].count == 1
    requires s6.heap.conds[c] == CondView(Wrap64(n), []) && s6.phase[v] == Idle
    ensures CanRun(s6, [UnlockOnce(v, m)])
    ensures Resting(Run(s6, [UnlockOnce(v, m)]), t, v, c, m, n)
  {
    hide Rounds, Wakes, ByBroadcast, RoundBegan, LastTimed, Wrap64;
    WakesStep(s6.log, Unlocked(v, m), t);
    var s7 := Next(s6, UnlockOnce(v, m));
    assert Resting(s7, t, v, c, m, n);
    OneStep(s6, UnlockOnce(v, m), []);
  }

  lemma Rested(s4: State, t: Pthread, v: Pthread, c: Cond, m: Mutex, n: nat)
    requires Woken(s4, t, v, c, m) && s4.mutexes[m].owner == null
    requires s4.heap.conds[c] == CondView(Wrap64(n + 1), []) && s4.phase[v] == Relocking(m, 1, OK)
    ensures CanRun(s4, [Relock(v), Restore(v), UnlockOnce(v, m)])
    ensures Resting(Run(s4, [Relock(v), Restore(v), UnlockOnce(v, m)]), t, v, c, m, n + 1)
  {
    var s6 := Relocks(s4, t, v, c, m, n);
    Unlocks(s6, t, v, c, m, n + 1);
    hide Next, Enabled, Run, CanRun, Resting, Woken;
    var s5 := Next(s4, Relock(v));
    OneStep(s5, Restore(v), [UnlockOnce(v, m)]);
    OneStep(s4, Relock(v), [Restore(v), UnlockOnce(v, m)]);
  }

  function Lap(v: Pthread, c: Cond, m: Mutex): seq<Action> {
    [TryLockOnce(v, m)] + ([BeginWait(v, c, m, true)] + ([Broadcast(c)] + ([PollWait(v, false)]
      + [Relock(v), Restore(v), UnlockOnce(v, m)])))
  }

  /** One round of waiting and broadcasting steps the condition's number by one. */
  lemma LapRests(s: State, t: Pthread, v: Pthread, c: Cond, m: Mutex, n: nat)
    requires Resting(s, t, v, c, m, n)
    ensures CanRun(s, Lap(v, c, m)) && Resting(Run(s, Lap(v, c, m)), t, v, c, m, n + 1)
  {
    var s2 := Joined(s, t, v, c, m, n);
    var s4 := Left(s2, t, v, c, m, n);
    Rested(s4, t, v, c, m, n);
    hide Next, Enabled, Run, CanRun, Resting, Woken;
    var rest := [Relock(v), Restore(v), UnlockOnce(v, m)];
    var s1, s3 := Next(s, TryLockOnce(v, m)), Next(s2, Broadcast(c));
    OneStep(s3, PollWait(v, false), rest);
    OneStep(s2, Broadcast(c), [PollWait(v, false)] + rest);
    OneStep(s1, BeginWait(v, c, m, true), [Broadcast(c)] + ([PollWait(v, false)] + rest));
    OneStep(s, TryLockOnce(v, m), [BeginWait(v, c, m, true)] + ([Broadcast(c)] + ([PollWait(v, false)] + rest)));
  }

  lemma {:induction false} Laps(s: State, t: Pthread, v: Pthread, c: Cond, m: Mutex, n: nat, laps: nat)
    returns (acts: seq<Action>)
    requires Resting(s, t, v, c, m, n)
    ensures CanRun(s, acts) && Resting(Run(s, acts), t, v, c, m, n + laps)
    decreases laps
  {
    hide Resting, Enabled, Next, Lap;
    if laps == 0 {
      acts := [];
    } else {
      LapRests(s, t, v, c, m, n);
      var rest := Laps(Run(s, Lap(v, c, m)), t, v, c, m, n + 1, laps - 1);
      RunAppend(s, Lap(v, c, m), rest);
      acts := Lap(v, c, m) + rest;
    }
  }

  // ---------------------------------------------------------------------------------------------
  // The run

  /** t has begun to wait with a time limit. */
  lemma Waits(s: State, t: Pthread, v: Pthread, c: Cond, m: Mutex) returns (s2: State)
    requires Init(s) && t != v && {t, v} <= s.phase.Keys && c in s.heap.conds && m in s.mutexes
    ensures Enabled(s, TryLockOnce(t, m))
    ensures var s1 := Next(s, TryLockOnce(t, m));
            Enabled(s1, BeginWait(t, c, m, true)) && s2 == Next(s1, BeginWait(t, c, m, true))
    ensures {t, v} <= s2.phase.Keys && {t, v} <= s2.heap.threads.Keys && c in s2.heap.conds && m in s2.mutexes
    ensures var p := s2.phase[t];
            p.Waiting? && p.c == c && p.timed && p.seq0 == 0 && p.tseq0 == s2.heap.threads[t].condSequence
    ensures s2.phase[v] == Idle && s2.mutexes[m].owner == null
    ensures s2.heap.conds[c] == CondView(0, [t]) && Wakes(s2.log, t) == 0
  {
    hide Rounds, Wakes, ByBroadcast, RoundBegan, LastTimed, Wrap64;
    var s1 := Next(s, TryLockOnce(t, m));
    assert s1.mutexes[m].owner == t && s1.mutexes[m].count == 1;
    s2 := Next(s1, BeginWait(t, c, m, true));
    WakesStep(s1.log, WaitBegan(t, c, m, 1, true), t);
  }

  /** It is broadcast away. */
  lemma FirstBroadcast(s: State, t: Pthread, v: Pthread, c: Cond, m: Mutex) returns (acts: seq<Action>)
    requires Init(s) && t != v && {t, v} <= s.phase.Keys && c in s.heap.conds && m in s.mutexes
    ensures CanRun(s, acts) && Resting(Run(s, acts), t, v, c, m, 1)
  {
    hide Rounds, Wakes, ByBroadcast, RoundBegan, LastTimed, Wrap64, Init;
    var s2 := Waits(s, t, v, c, m);
    WrapStep(0);
    WrapStep(1);
    var s3 := Next(s2, Broadcast(c));
    WakesStep(s2.log, Broadcasted(c, [t]), t);
    assert multiset([t])[t] == 1;
    assert Resting(s3, t, v, c, m, 1);
    hide Next, Enabled, Resting;
    var s1 := Next(s, TryLockOnce(t, m));
    OneStep(s2, Broadcast(c), []);
    OneStep(s1, BeginWait(t, c, m, true), [Broadcast(c)]);
    OneStep(s, TryLockOnce(t, m), [BeginWait(t, c, m, true)] + [Broadcast(c)]);
    acts := [TryLockOnce(t, m)] + ([BeginWait(t, c, m, true)] + [Broadcast(c)]);
  }

  /** After 2^64 broadcasts the number is back, and a passed time limit ends the woken wait. */
  lemma MissesWakeUp(s: State, t: Pthread, v: Pthread, c: Cond, m: Mutex, n: nat)
    requires Resting(s, t, v, c, m, n) && n == 0x1_0000_0000_0000_0000
    ensures Enabled(s, PollWait(t, true))
    ensures Next(s, PollWait(t, true)).log == s.log + [WaitEnded(t, c, ETIMEDOUT, true)]
    ensures Wakes(s.log, t) == 1
  {
    hide Wakes, ByBroadcast, RoundBegan, LastTimed, Rounds;
    assert Wrap64(n) == 0;
  }

  /**
   From any fresh state with two threads there is a run in which a wait that was woken exactly once
   ends with ETIMEDOUT: 2^64 broadcasts, each of which found a thread waiting, come before it looks.
   */
  lemma WakeUpLostAtWrap(s: State, t: Pthread, v: Pthread, c: Cond, m: Mutex) returns (acts: seq<Action>)
    requires Init(s) && t != v && {t, v} <= s.phase.Keys && c in s.heap.conds && m in s.mutexes
    ensures CanRun(s, acts) && Run(s, acts).log != []
    ensures var log := Run(s, acts).log;
            Last(log) == WaitEnded(t, c, ETIMEDOUT, true) && Wakes(Butlast(log), t) == 1
  {
    var first := FirstBroadcast(s, t, v, c, m);
    var more := Laps(Run(s, first), t, v, c, m, 1, 0xffff_ffff_ffff_ffff);
    hide Resting, Enabled, Next, Wakes, ByBroadcast, RoundBegan, LastTimed, Init;
    var most := first + more;
    RunAppend(s, first, more);
    var s' := Run(s, most);
    MissesWakeUp(s', t, v, c, m, 0x1_0000_0000_0000_0000);
    OneStep(s', PollWait(t, true), []);
    assert [PollWait(t, true)] + [] == [PollWait(t, true)];
    RunAppend(s, most, [PollWait(t, true)]);
    acts := most + [PollWait(t, true)];
    assert Butlast(Run(s, acts).log) == s'.log;
  }
}
