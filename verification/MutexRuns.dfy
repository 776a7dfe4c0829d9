/**
 Who holds a guest mutex, read off the events of a run: mutual exclusion, and the meaning of every
 answer that lock, unlock and wait calls give.
 */
module MutexRuns {
  import opened Common
  import opened PthreadObjects
  import opened CondProtocol
  import opened CondRuns

  /** The mutex that t gave up for a wait and has not taken back. */
  function Away(log: seq<Event>, t: Pthread): Mutex? {
    if log == [] then null
    else match Last(log)
      case WaitBegan(u, _, m, _, _) => if u == t then m else Away(Butlast(log), t)
      case Relocked(u, _) => if u == t then null else Away(Butlast(log), t)
      case _ => Away(Butlast(log), t)
  }

  /** The lock call that t sleeps in: its mutex, and whether it has a time limit. */
  function Asleep(log: seq<Event>, t: Pthread): (Mutex?, bool) {
    if log == [] then (null, false)
    else match Last(log)
      case LockSlept(u, m, timeout) => if u == t then (m, timeout != Forever) else Asleep(Butlast(log), t)
      case Locked(u, _) => if u == t then (null, false) else Asleep(Butlast(log), t)
      case Refused(u, _, _, _) => if u == t then (null, false) else Asleep(Butlast(log), t)
      case _ => Asleep(Butlast(log), t)
  }

  /** t has locked m more often than it has unlocked it, and is not away from it in a wait. */
  ghost predicate Holds(log: seq<Event>, t: Pthread, m: Mutex) {
    Depth(log, t, m) > 0 && Away(log, t) != m
  }

  ghost predicate NobodyElse(all: set<Pthread>, log: seq<Event>, t: Pthread, m: Mutex) {
    forall u | u in all && u != t :: !Holds(log, u, m)
  }

  ghost predicate SomebodyElse(all: set<Pthread>, log: seq<Event>, t: Pthread, m: Mutex) {
    exists u :: u in all && u != t && Holds(log, u, m)
  }

  /** A lock call keeps the mutex and the kind of limit it was made with. */
  ghost predicate SameCall(log: seq<Event>, t: Pthread, m: Mutex, timeout: Timeout) {
    var call := Asleep(log, t);
    call.0 == null || (call.0 == m && timeout != Zero && (call.1 <==> timeout != Forever))
  }

  /** What a holder of the mutex is told when it asks for it again. */
  ghost predicate RightForHolder(log: seq<Event>, t: Pthread, m: Mutex, ask: Ask, code: Code)
    requires ask.Trying? || ask.Blocking?
  {
    if m.kind == RECURSIVE then code == EAGAIN && Depth(log, t, m) == UINT32_MAX
    else if ask == Trying then code == EBUSY
    else code == if ask.timeout == Forever then EDEADLK else ETIMEDOUT
  }

  /**
   Each answer is right for the moment it is given in.  A holder is granted a recursive mutex again up to
   the limit of its depth, and refused any other; another thread is granted it exactly when nobody holds
   it, is refused when it only tries or its time limit has passed, and sleeps otherwise.
   */
  ghost predicate RightAnswer(all: set<Pthread>, before: seq<Event>, e: Event) {
    match e
    case Locked(t, m) =>
      && NobodyElse(all, before, t, m)
      && (Holds(before, t, m) ==> m.kind == RECURSIVE && Depth(before, t, m) < UINT32_MAX)
      && (Asleep(before, t).0 != null ==> Asleep(before, t).0 == m)
    case LockSlept(t, m, timeout) =>
      && SomebodyElse(all, before, t, m) && !Holds(before, t, m)
      && timeout in {Forever, Until(false)} && SameCall(before, t, m, timeout)
    case Unlocked(t, m) => Holds(before, t, m)
    case Relocked(t, m) => NobodyElse(all, before, t, m) && Away(before, t) == m && Depth(before, t, m) > 0
    case RelockSlept(t, m) => SomebodyElse(all, before, t, m) && Away(before, t) == m
    case WaitBegan(t, _, m, depth, _) => Holds(before, t, m) && depth == Depth(before, t, m)
    case WaitReturned(t, m, depth, _) => Holds(before, t, m) && depth == Depth(before, t, m)
    case Refused(t, m, ask, code) =>
      if ask in {Releasing, Beginning} then code == EPERM && !Holds(before, t, m)
      else
        && (ask.Blocking? ==> SameCall(before, t, m, ask.timeout))
        && if Holds(before, t, m) then RightForHolder(before, t, m, ask, code)
           else
             && SomebodyElse(all, before, t, m)
             && if ask == Trying then code == EBUSY else code == ETIMEDOUT && ask.timeout in {Zero, Until(true)}
    case _ => true
  }

  /** Who is away from a mutex in a wait, and who sleeps in a lock call. */
  ghost predicate TrackOk(s: State, t: Pthread)
    requires t in s.phase
  {
    var p := s.phase[t];
    && Away(s.log, t) == (if p.Waiting? || p.Relocking? then p.m else null)
    && Asleep(s.log, t) == (if p.Locking? then (p.m, p.timed) else (null, false))
  }

  ghost predicate AwayOk(s: State) {
    forall t | t in s.phase :: TrackOk(s, t)
  }

  /** The step gave a right answer and kept track of who is away. */
  ghost predicate Answers(s: State, s': State) {
    s'.log != [] && RightAnswer(s.phase.Keys, s.log, Last(s'.log)) && AwayOk(s')
  }

  /** The recorded type of a mutex is its own. */
  ghost predicate KindsOk(s: State) {
    forall m | m in s.mutexes :: s.mutexes[m].kind == m.kind
  }

  ghost predicate AllRight(all: set<Pthread>, log: seq<Event>) {
    log == [] || (AllRight(all, Butlast(log)) && RightAnswer(all, Butlast(log), Last(log)))
  }

  ghost predicate Good(s: State) {
    Inv(s) && AwayOk(s) && KindsOk(s) && AllRight(s.phase.Keys, s.log)
  }

  /** The recorded owner is the one who holds the mutex by the events. */
  lemma OwnerHolds(s: State, t: Pthread, m: Mutex)
    requires MutexInv(s) && AwayOk(s) && t in s.phase && m in s.mutexes
    ensures s.mutexes[m].owner == t <==> Holds(s.log, t, m)
    ensures Depth(s.log, t, m) == Held(s, t, m)
    ensures s.mutexes[m].owner != null ==> s.mutexes[m].owner in s.phase
  {
    hide Depth, Away, Asleep, LastWait, LastEnd;
    assert TrackOk(s, t);
    assert DepthOk(s, t, m) && MutexOk(s, s.mutexes[m]) && PhaseOk(s, s.phase[t]);
  }

  lemma NobodyElseIfFree(s: State, t: Pthread, m: Mutex)
    requires MutexInv(s) && AwayOk(s) && m in s.mutexes && s.mutexes[m].owner in {null, t}
    ensures NobodyElse(s.phase.Keys, s.log, t, m)
  {
    hide Holds, MutexInv, AwayOk;
    forall u | u in s.phase && u != t ensures !Holds(s.log, u, m) {
      OwnerHolds(s, u, m);
    }
  }

  lemma SomebodyIfOwned(s: State, t: Pthread, m: Mutex)
    requires MutexInv(s) && AwayOk(s) && m in s.mutexes && s.mutexes[m].owner != null && s.mutexes[m].owner != t
    ensures SomebodyElse(s.phase.Keys, s.log, t, m)
  {
    assert MutexOk(s, s.mutexes[m]);
    OwnerHolds(s, s.mutexes[m].owner, m);
  }

  lemma AwayStep(log: seq<Event>, e: Event, t: Pthread)
    ensures Away(log + [e], t) == (match e
                                   case WaitBegan(u, _, m, _, _) => if u == t then m else Away(log, t)
                                   case Relocked(u, _) => if u == t then null else Away(log, t)
                                   case _ => Away(log, t))
    ensures Asleep(log + [e], t) == (match e
                                     case LockSlept(u, m, timeout) =>
                                       if u == t then (m, timeout != Forever) else Asleep(log, t)
                                     case Locked(u, _) => if u == t then (null, false) else Asleep(log, t)
                                     case Refused(u, _, _, _) => if u == t then (null, false) else Asleep(log, t)
                                     case _ => Asleep(log, t))
  {
    assert Butlast(log + [e]) == log;
  }

  lemma RightStep(all: set<Pthread>, log: seq<Event>, e: Event)
    requires AllRight(all, log) && RightAnswer(all, log, e)
    ensures AllRight(all, log + [e])
  {
    hide RightAnswer;
    assert Butlast(log + [e]) == log;
  }

  /** A step of thread t keeps what is known of the others. */
  lemma AwayKept(s: State, s': State, t: Pthread, e: Event)
    requires AwayOk(s) && s'.log == s.log + [e]
    requires t in s.phase && t in s'.phase && s'.phase == s.phase[t := s'.phase[t]]
    requires e.WaitBegan? || e.Relocked? || e.LockSlept? || e.Locked? || e.Refused? ==> e.t == t
    requires TrackOk(s', t)
    ensures AwayOk(s')
  {
    hide Away, Asleep;
    forall u | u in s'.phase ensures TrackOk(s', u) {
      AwayStep(s.log, e, u);
      assert u != t ==> TrackOk(s, u);
    }
  }

  /** What a lock attempt answers, in terms of the owner. */
  lemma AttemptAnswers(s: State, t: Pthread, m: Mutex, timeout: Timeout, r: (MutexView, Attempt))
    requires Good(s) && t in s.phase && m in s.mutexes
    requires if s.phase[t].Idle? then r == LockEntry(s.mutexes[m], t, timeout)
             else
               && s.phase[t].Locking? && s.phase[t].m == m && s.mutexes[m].owner != t
               && timeout != Zero && (s.phase[t].timed <==> timeout != Forever)
               && r == LockRetry(s.mutexes[m], t, timeout)
    ensures Answers(s, AfterAttempt(s, t, m, timeout, r))
  {
    hide Depth, Away, Asleep, AllRight, Inv, Holds, NobodyElse, SomebodyElse;
    assert TrackOk(s, t);
    LocksAreBounded(s, t, m);
    var s' := AfterAttempt(s, t, m, timeout, r);
    var e := Last(s'.log);
    assert s'.log == s.log + [e];
    AwayStep(s.log, e, t);
    AwayKept(s, s', t, e);
  }

  /** The owner and the depth on record, by the events. */
  lemma LocksAreBounded(s: State, t: Pthread, m: Mutex)
    requires Good(s) && t in s.phase && m in s.mutexes
    ensures var v := s.mutexes[m];
            && (v.owner == t <==> Holds(s.log, t, m))
            && (v.owner == t && !s.phase[t].Restoring? ==> Depth(s.log, t, m) == v.count <= UINT32_MAX)
            && (v.owner in {null, t} ==> NobodyElse(s.phase.Keys, s.log, t, m))
            && (v.owner != null && v.owner != t ==> SomebodyElse(s.phase.Keys, s.log, t, m))
            && v.kind == m.kind
  {
    InvParts(s);
    hide Depth, Away, Asleep, AllRight, Inv, Holds, NobodyElse, SomebodyElse;
    OwnerHolds(s, t, m);
    assert DepthOk(s, t, m);
    hide MutexInv;
    if s.mutexes[m].owner == null || s.mutexes[m].owner == t {
      NobodyElseIfFree(s, t, m);
    } else {
      SomebodyIfOwned(s, t, m);
    }
  }

  lemma InvParts(s: State)
    requires Inv(s)
    ensures MutexInv(s) && ListsInv(s)
  {
  }

  lemma LockAnswers(s: State, a: Action)
    requires Good(s) && Enabled(s, a) && (a.Lock? || a.RetryLock? || a.TryLockOnce? || a.UnlockOnce?)
    ensures Answers(s, Next(s, a))
  {
    hide Depth, Away, Asleep, AllRight, Inv, Holds, NobodyElse, SomebodyElse;
    InvParts(s);
    match a
    case Lock(t, m, timeout) => AttemptAnswers(s, t, m, timeout, LockEntry(s.mutexes[m], t, timeout));
    case RetryLock(t, expired) =>
      var p := s.phase[t];
      assert DepthOk(s, t, p.m);
      var timeout := Limit(p.timed, expired);
      AttemptAnswers(s, t, p.m, timeout, LockRetry(s.mutexes[p.m], t, timeout));
    case TryLockOnce(t, m) => TryLockAnswers(s, t, m);
    case UnlockOnce(t, m) => UnlockAnswers(s, t, m);
  }

  lemma TryLockAnswers(s: State, t: Pthread, m: Mutex)
    requires Good(s) && Enabled(s, TryLockOnce(t, m))
    ensures Answers(s, Next(s, TryLockOnce(t, m)))
  {
    hide Depth, Away, Asleep, AllRight, Inv, Holds, NobodyElse, SomebodyElse;
    assert TrackOk(s, t);
    LocksAreBounded(s, t, m);
    var s' := Next(s, TryLockOnce(t, m));
    var e := Last(s'.log);
    assert s'.log == s.log + [e];
    AwayStep(s.log, e, t);
    AwayKept(s, s', t, e);
  }

  lemma UnlockAnswers(s: State, t: Pthread, m: Mutex)
    requires Good(s) && Enabled(s, UnlockOnce(t, m))
    ensures Answers(s, Next(s, UnlockOnce(t, m)))
  {
    hide Depth, Away, Asleep, AllRight, Inv, Holds;
    assert TrackOk(s, t);
    LocksAreBounded(s, t, m);
    var s' := Next(s, UnlockOnce(t, m));
    var e := Last(s'.log);
    assert s'.log == s.log + [e];
    AwayStep(s.log, e, t);
    AwayKept(s, s', t, e);
  }

  lemma BeginAnswers(s: State, a: Action)
    requires Good(s) && Enabled(s, a) && a.BeginWait?
    ensures Answers(s, Next(s, a))
  {
    hide Depth, Away, Asleep, AllRight, Inv, Holds, MutexInv, Rounds, AddWaiter;
    InvParts(s);
    assert TrackOk(s, a.t);
    var s', t := Next(s, a), a.t;
    var e := Last(s'.log);
    assert s'.log == s.log + [e];
    OwnerHolds(s, t, a.m);
    AwayStep(s.log, e, t);
    AwayKept(s, s', t, e);
  }

  lemma PollAnswers(s: State, a: Action)
    requires Good(s) && Enabled(s, a) && a.PollWait?
    ensures Answers(s, Next(s, a))
  {
    hide Depth, Away, Asleep, AllRight, Inv, RemoveWaiter, Ready;
    assert TrackOk(s, a.t);
    var s', t := Next(s, a), a.t;
    var e := Last(s'.log);
    assert s'.log == s.log + [e];
    AwayStep(s.log, e, t);
    AwayKept(s, s', t, e);
  }

  lemma RelockAnswers(s: State, a: Action)
    requires Good(s) && Enabled(s, a) && (a.Relock? || a.Restore?)
    ensures Answers(s, Next(s, a))
  {
    hide Depth, Away, Asleep, AllRight, Inv, NobodyElse, SomebodyElse;
    InvParts(s);
    assert TrackOk(s, a.t);
    var s', t := Next(s, a), a.t;
    var m, e := s.phase[t].m, Last(s'.log);
    assert s'.log == s.log + [e];
    assert DepthOk(s, t, m) && PhaseOk(s, s.phase[t]);
    hide MutexInv;
    if a.Relock? {
      RelockActs(s, t);
      if s.mutexes[m].owner == null {
        NobodyElseIfFree(s, t, m);
      } else if s.mutexes[m].owner != t {
        SomebodyIfOwned(s, t, m);
      }
    }
    OwnerHolds(s, t, m);
    AwayStep(s.log, e, t);
    AwayKept(s, s', t, e);
  }

  lemma WakingAnswers(s: State, a: Action)
    requires Good(s) && Enabled(s, a) && (a.Signal? || a.SignalTo? || a.Broadcast?)
    ensures Answers(s, Next(s, a))
  {
    hide Depth, Away, Asleep, AllRight, Inv, WakeWaiter, WakeAll;
    var s' := Next(s, a);
    var e := Last(s'.log);
    assert s'.log == s.log + [e];
    forall u | u in s'.phase ensures TrackOk(s', u) {
      AwayStep(s.log, e, u);
      assert TrackOk(s, u);
    }
  }

  lemma KindsKept(s: State, a: Action)
    requires KindsOk(s) && Enabled(s, a)
    ensures KindsOk(Next(s, a))
  {
    hide Rounds, Ready, RemoveWaiter, WakeWaiter, WakeAll, AddWaiter, Known;
  }

  lemma LogGrows(s: State, a: Action)
    requires Enabled(s, a)
    ensures var s' := Next(s, a); s'.log != [] && s'.log == s.log + [Last(s'.log)]
  {
    hide Rounds, Ready, RemoveWaiter, WakeWaiter, WakeAll, AddWaiter, Known, LockEntry, LockRetry, TryLock, Unlock,
      SetDepth;
  }

  lemma StepKeepsGood(s: State, a: Action)
    requires Good(s) && Enabled(s, a)
    ensures Good(Next(s, a))
  {
    StepKeepsInv(s, a);
    StepKeepsDomains(s, a);
    KindsKept(s, a);
    LogGrows(s, a);
    hide Inv, Next, Enabled, AwayOk, KindsOk, AllRight, RightAnswer;
    match a {
      case Lock(_, _, _) => LockAnswers(s, a);
      case RetryLock(_, _) => LockAnswers(s, a);
      case TryLockOnce(_, _) => LockAnswers(s, a);
      case UnlockOnce(_, _) => LockAnswers(s, a);
      case BeginWait(_, _, _, _) => BeginAnswers(s, a);
      case PollWait(_, _) => PollAnswers(s, a);
      case Relock(_) => RelockAnswers(s, a);
      case Restore(_) => RelockAnswers(s, a);
      case Signal(_) => WakingAnswers(s, a);
      case SignalTo(_, _) => WakingAnswers(s, a);
      case Broadcast(_) => WakingAnswers(s, a);
    }
    RightStep(s.phase.Keys, s.log, Last(Next(s, a).log));
  }

  lemma {:induction false} RunKeepsGood(s: State, acts: seq<Action>)
    requires Good(s) && CanRun(s, acts)
    ensures Good(Run(s, acts)) && Run(s, acts).phase.Keys == s.phase.Keys
    decreases |acts|
  {
    hide Good, Next, Enabled;
    if acts != [] {
      StepKeepsGood(s, acts[0]);
      GoodInv(s);
      StepKeepsDomains(s, acts[0]);
      RunKeepsGood(Next(s, acts[0]), acts[1..]);
    }
  }

  lemma GoodInv(s: State)
    requires Good(s)
    ensures Inv(s)
  {
  }

  // ---------------------------------------------------------------------------------------------
  // Theorems

  /** At any moment of any run at most one thread holds a mutex, and it is the recorded owner. */
  lemma MutualExclusion(s: State, acts: seq<Action>, m: Mutex, t: Pthread, u: Pthread)
    requires Init(s) && KindsOk(s) && CanRun(s, acts) && m in s.mutexes && t in s.phase && u in s.phase
    ensures var s' := Run(s, acts);
            && m in s'.mutexes
            && (s'.mutexes[m].owner == t <==> Holds(s'.log, t, m))
            && (Holds(s'.log, t, m) && Holds(s'.log, u, m) ==> t == u)
  {
    InitInv(s);
    RunKeepsGood(s, acts);
    RunKeepsDomains(s, acts);
    var s' := Run(s, acts);
    hide Run, CanRun, Init, Holds;
    InvParts(s');
    OwnerHolds(s', t, m);
    OwnerHolds(s', u, m);
  }

  lemma {:induction false} RightAt(all: set<Pthread>, log: seq<Event>, j: nat)
    requires AllRight(all, log) && j < |log|
    ensures RightAnswer(all, log[..j], log[j])
  {
    hide RightAnswer;
    if j < |log| - 1 {
      RightAt(all, Butlast(log), j);
      assert Butlast(log)[..j] == log[..j];
    }
  }

  /**
   Every answer of every run: a lock is granted only when nobody else holds the mutex, and sleeps or is
   refused only when somebody does; a holder gets a recursive mutex again until its depth is full, then
   EAGAIN, and from any other EBUSY, EDEADLK or ETIMEDOUT by what it asked; anybody else gets EBUSY from a
   try, and ETIMEDOUT only once the time limit it gave has passed; EPERM goes to those who do not hold the
   mutex; and a wait begins and returns holding it at one and the same depth.
   */
  lemma AnswersAreRight(s: State, acts: seq<Action>, j: nat)
    requires Init(s) && KindsOk(s) && CanRun(s, acts) && j < |Run(s, acts).log|
    ensures RightAnswer(s.phase.Keys, Run(s, acts).log[..j], Run(s, acts).log[j])
  {
    InitInv(s);
    RunKeepsGood(s, acts);
    hide Run, CanRun, RightAnswer;
    RightAt(s.phase.Keys, Run(s, acts).log, j);
  }

  /** In every reachable state, a holder of a recursive mutex that is not full gets it again at once. */
  lemma NestedLockIsGranted(s: State, acts: seq<Action>, t: Pthread, m: Mutex, timeout: Timeout)
    requires Init(s) && KindsOk(s) && CanRun(s, acts) && t in s.phase && m in s.mutexes && m.kind == RECURSIVE
    requires var s' := Run(s, acts);
             && Calm(s', t) && Holds(s'.log, t, m) && Depth(s'.log, t, m) < UINT32_MAX
    ensures var s' := Run(s, acts);
            && m in s'.mutexes
            && Next(s', Lock(t, m, timeout)).log == s'.log + [Locked(t, m)]
            && Next(s', TryLockOnce(t, m)).log == s'.log + [Locked(t, m)]
  {
    InitInv(s);
    RunKeepsGood(s, acts);
    RunKeepsDomains(s, acts);
    hide Run, CanRun, Init, Good, Depth, Holds, NobodyElse, SomebodyElse;
    LocksAreBounded(Run(s, acts), t, m);
  }
}
