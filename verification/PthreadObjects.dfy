/**
 The guest mutex and condition variable (src/kernel/pthread.cpp).

 Every critical section of the C++ code is one method here, proved against a function from the old
 state to the new one.  CondProtocol puts those functions together into runs of many threads.
 */
module PthreadObjects {
  import opened Common

  const UINT32_MAX: nat := 0xffff_ffff

  /** The one mutex type whose lock nests. */
  const RECURSIVE: int := 2

  /** A 64-bit counter's value after it has counted to n. */
  function Wrap64(n: nat): nat {
    n % 0x1_0000_0000_0000_0000
  }

  lemma WrapStep(n: nat)
    ensures Wrap64(Wrap64(n) + 1) == Wrap64(n + 1)
    ensures Wrap64(n + 1) != Wrap64(n) && Wrap64(n + 1) != n
    ensures n < 0x1_0000_0000_0000_0000 ==> Wrap64(n) == n
  {
  }

  datatype Code = OK | EAGAIN | EBUSY | EDEADLK | EPERM | ETIMEDOUT | EINVAL

  // ---------------------------------------------------------------------------------------------
  // Mutex

  /** How long a lock call may wait: no timeout, a zero timeout, or a deadline, passed or not. */
  datatype Timeout = Forever | Zero | Until(expired: bool)

  /** A lock call either returns a code from the critical section or goes to sleep. */
  datatype Attempt = Done(code: Code) | Sleep

  datatype MutexView = MutexView(owner: Pthread?, count: nat, kind: int)

  function LockEntry(m: MutexView, self: Pthread, timeout: Timeout): (MutexView, Attempt) {
    if m.owner == self then
      if m.kind == RECURSIVE then
        if m.count == UINT32_MAX then (m, Done(EAGAIN)) else (m.(count := m.count + 1), Done(OK))
      else if timeout != Forever then (m, Done(ETIMEDOUT))
      else (m, Done(EDEADLK))
    else LockRetry(m, self, timeout)
  }

  /** The loop test of NativeMutexLock, run on entry and again after each sleep. */
  function LockRetry(m: MutexView, self: Pthread, timeout: Timeout): (MutexView, Attempt) {
    if m.owner == null then (m.(owner := self, count := 1), Done(OK))
    else if timeout == Zero || timeout == Until(true) then (m, Done(ETIMEDOUT))
    else (m, Sleep)
  }

  function TryLock(m: MutexView, self: Pthread): (MutexView, Code) {
    if m.owner == self then
      if m.kind == RECURSIVE then
        if m.count == UINT32_MAX then (m, EAGAIN) else (m.(count := m.count + 1), OK)
      else (m, EBUSY)
    else if m.owner != null then (m, EBUSY)
    else (m.(owner := self, count := 1), OK)
  }

  /** With all, the whole depth is given up at once, as a condition wait does. */
  function Unlock(m: MutexView, self: Pthread, all: bool): (MutexView, Code) {
    if m.owner != self then (m, EPERM)
    else if m.kind == RECURSIVE && m.count > 1 && !all then (m.(count := m.count - 1), OK)
    else (m.(owner := null, count := 0), OK)
  }

  /** The second critical section of NativeMutexLockRecurse. */
  function SetDepth(m: MutexView, recurse: nat): MutexView {
    m.(count := if recurse >= 1 then recurse else 1)
  }

  class Mutex {
    var owner: Pthread?
    var count: nat
    const kind: int

    function View(): MutexView
      reads this
    {
      MutexView(owner, count, kind)
    }

    constructor (kind: int)
      ensures View() == MutexView(null, 0, kind)
    {
      owner, count, this.kind := null, 0, kind;
    }

    /** NativeMutexLock up to its first sleep. */
    method BeginLock(self: Pthread, timeout: Timeout) returns (a: Attempt)
      modifies this
      ensures (View(), a) == LockEntry(old(View()), self, timeout)
    {
      if owner == self {
        if kind == RECURSIVE {
          if count == UINT32_MAX {
            return Done(EAGAIN);
          }
          count := count + 1;
          return Done(OK);
        }
        if timeout != Forever {
          return Done(ETIMEDOUT);
        }
        return Done(EDEADLK);
      }
      a := ResumeLock(self, timeout);
    }

    /** NativeMutexLock from a wake-up to its next sleep. */
    method ResumeLock(self: Pthread, timeout: Timeout) returns (a: Attempt)
      modifies this
      ensures (View(), a) == LockRetry(old(View()), self, timeout)
    {
      if owner != null {
        if timeout == Zero || timeout == Until(true) {
          return Done(ETIMEDOUT);
        }
        return Sleep;
      }
      owner, count := self, 1;
      a := Done(OK);
    }

    method Trylock(self: Pthread) returns (code: Code)
      modifies this
      ensures (View(), code) == TryLock(old(View()), self)
    {
      if owner == self {
        if kind == RECURSIVE {
          if count == UINT32_MAX {
            return EAGAIN;
          }
          count := count + 1;
          return OK;
        }
        return EBUSY;
      }
      if owner != null {
        return EBUSY;
      }
      owner, count := self, 1;
      code := OK;
    }

    /** The depth given up is returned when the caller asks for it. */
    method NativeUnlock(self: Pthread, all: bool) returns (code: Code, recurse: nat)
      modifies this
      ensures (View(), code) == Unlock(old(View()), self, all)
      ensures all && code == OK ==> recurse == old(count)
    {
      recurse := 0;
      if owner != self {
        return EPERM, recurse;
      }
      if all {
        recurse := count;
        count := 1;
      }
      if kind == RECURSIVE && count > 1 {
        count := count - 1;
        return OK, recurse;
      }
      owner, count := null, 0;
      code := OK;
    }

    method RestoreDepth(recurse: nat)
      modifies this
      ensures View() == SetDepth(old(View()), recurse)
    {
      count := if recurse >= 1 then recurse else 1;
    }
  }

  // ---------------------------------------------------------------------------------------------
  // Condition variable

  class Pthread {
    var condSequence: nat
    var waitingCond: Cond?

    constructor ()
      ensures condSequence == 0 && waitingCond == null
    {
      condSequence, waitingCond := 0, null;
    }
  }

  class Cond {
    var sequence: nat
    var waiters: seq<Pthread>

    constructor ()
      ensures sequence == 0 && waiters == []
    {
      sequence, waiters := 0, [];
    }
  }

  datatype ThreadView = ThreadView(condSequence: nat, waitingCond: Cond?)
  datatype CondView = CondView(sequence: nat, waiters: seq<Pthread>)

  /** The state of some threads and conditions. */
  datatype Heap = Heap(threads: map<Pthread, ThreadView>, conds: map<Cond, CondView>)

  ghost function HeapOf(ts: set<Pthread>, cs: set<Cond>): Heap
    reads ts, cs
  {
    Heap(map t | t in ts :: ThreadView(t.condSequence, t.waitingCond),
         map c | c in cs :: CondView(c.sequence, c.waiters))
  }

  function IndexOf<T(==)>(q: seq<T>, x: T): (i: nat)
    requires x in q
    ensures i < |q| && q[i] == x && x !in q[..i]
  {
    Position(q, (y: T) => y, x)
  }

  /** The sequence without the first occurrence of x. */
  function Erase<T(==)>(q: seq<T>, x: T): seq<T>
    requires x in q
  {
    q[..IndexOf(q, x)] + q[IndexOf(q, x) + 1..]
  }

  ghost predicate Known(h: Heap, c: Cond, t: Pthread) {
    c in h.conds && t in h.threads
  }

  ghost function Detached(v: ThreadView, c: Cond): ThreadView {
    if v.waitingCond == c then v.(waitingCond := null) else v
  }

  ghost function AddWaiter(h: Heap, c: Cond, t: Pthread): (r: Heap)
    requires Known(h, c, t)
    ensures r.threads.Keys == h.threads.Keys && r.conds.Keys == h.conds.Keys
  {
    h.(threads := h.threads[t := h.threads[t].(waitingCond := c)],
       conds := h.conds[c := h.conds[c].(waiters := h.conds[c].waiters + [t])])
  }

  ghost function RemoveWaiter(h: Heap, c: Cond, t: Pthread): (r: Heap)
    requires Known(h, c, t)
    ensures r.threads.Keys == h.threads.Keys && r.conds.Keys == h.conds.Keys
  {
    if t !in h.conds[c].waiters then h
    else h.(threads := h.threads[t := Detached(h.threads[t], c)],
            conds := h.conds[c := h.conds[c].(waiters := Erase(h.conds[c].waiters, t))])
  }

  /** Waking one waiter takes it off the list and steps its own sequence number. */
  ghost function WakeWaiter(h: Heap, c: Cond, t: Pthread): (r: Heap)
    requires Known(h, c, t)
    ensures r.threads.Keys == h.threads.Keys && r.conds.Keys == h.conds.Keys
  {
    if t !in h.conds[c].waiters then h
    else
      var v := Detached(h.threads[t], c);
      h.(threads := h.threads[t := v.(condSequence := Wrap64(v.condSequence + 1))],
         conds := h.conds[c := h.conds[c].(waiters := Erase(h.conds[c].waiters, t))])
  }

  /** A broadcast steps the condition's sequence number and empties the list. */
  ghost function WakeAll(h: Heap, c: Cond): (r: Heap)
    requires c in h.conds
    ensures r.threads.Keys == h.threads.Keys && r.conds.Keys == h.conds.Keys
  {
    var v := h.conds[c];
    if v.waiters == [] then h
    else h.(threads := map t | t in h.threads :: if t in v.waiters then Detached(h.threads[t], c) else h.threads[t],
            conds := h.conds[c := CondView(Wrap64(v.sequence + 1), [])])
  }

  method Find(q: seq<Pthread>, t: Pthread) returns (i: nat)
    ensures i < |q| <==> t in q
    ensures t in q ==> i == IndexOf(q, t)
    ensures t !in q ==> i == |q|
  {
    i := 0;
    while i < |q| && q[i] != t
      invariant i <= |q| && t !in q[..i]
    {
      i := i + 1;
    }
    if i < |q| {
      FirstIndex(q, t, i);
    } else {
      assert q[..i] == q;
    }
  }

  lemma FirstIndex<T>(q: seq<T>, x: T, i: nat)
    requires i < |q| && q[i] == x && x !in q[..i]
    ensures IndexOf(q, x) == i
  {
    var j := IndexOf(q, x);
    forall k | 0 <= k < i ensures q[k] != x {
      assert q[..i][k] == q[k];
    }
    forall k | 0 <= k < j ensures q[k] != x {
      assert q[..j][k] == q[k];
    }
  }

  method CondAddWaiter(cond: Cond, thread: Pthread, ghost ts: set<Pthread>, ghost cs: set<Cond>)
    requires cond in cs && thread in ts
    modifies cond, thread
    ensures HeapOf(ts, cs) == AddWaiter(old(HeapOf(ts, cs)), cond, thread)
  {
    thread.waitingCond := cond;
    cond.waiters := cond.waiters + [thread];
  }

  method CondRemoveWaiter(cond: Cond, thread: Pthread, ghost ts: set<Pthread>, ghost cs: set<Cond>)
    returns (removed: bool)
    requires cond in cs && thread in ts
    modifies cond, thread
    ensures removed <==> thread in old(cond.waiters)
    ensures HeapOf(ts, cs) == RemoveWaiter(old(HeapOf(ts, cs)), cond, thread)
  {
    hide IndexOf, Wrap64;
    var i := Find(cond.waiters, thread);
    if i == |cond.waiters| {
      return false;
    }
    cond.waiters := cond.waiters[..i] + cond.waiters[i + 1..];
    if thread.waitingCond == cond {
      thread.waitingCond := null;
    }
    removed := true;
  }

  /** Without a target, the longest-waiting thread is woken. */
  method CondWakeWaiter(cond: Cond, target: Pthread?, ghost ts: set<Pthread>, ghost cs: set<Cond>)
    returns (woken: Pthread?)
    requires cond in cs && (target != null ==> target in ts)
    requires forall t | t in cond.waiters :: t in ts
    modifies cond, cond.waiters, target
    ensures woken == if target == null then (if old(cond.waiters) == [] then null else old(cond.waiters)[0])
                     else if target in old(cond.waiters) then target else null
    ensures HeapOf(ts, cs)
            == if woken == null then old(HeapOf(ts, cs)) else WakeWaiter(old(HeapOf(ts, cs)), cond, woken)
  {
    var thread := target;
    if thread == null {
      if cond.waiters == [] {
        return null;
      }
      thread := cond.waiters[0];
    }
    var found := WakeListed(cond, thread, ts, cs);
    woken := if found then thread else null;
  }

  /** Taking a listed thread off the list, and stepping its sequence number. */
  method WakeListed(cond: Cond, thread: Pthread, ghost ts: set<Pthread>, ghost cs: set<Cond>)
    returns (found: bool)
    requires cond in cs && thread in ts
    modifies cond, thread
    ensures found <==> thread in old(cond.waiters)
    ensures HeapOf(ts, cs) == WakeWaiter(old(HeapOf(ts, cs)), cond, thread)
  {
    hide IndexOf, Wrap64;
    var i := Find(cond.waiters, thread);
    if i == |cond.waiters| {
      return false;
    }
    cond.waiters := cond.waiters[..i] + cond.waiters[i + 1..];
    if thread.waitingCond == cond {
      thread.waitingCond := null;
    }
    thread.condSequence := Wrap64(thread.condSequence + 1);
    found := true;
  }

  /** PthreadCondBroadcast's critical section, with CondClearWaiters. */
  method CondBroadcast(cond: Cond, ghost ts: set<Pthread>, ghost cs: set<Cond>) returns (notify: bool)
    requires cond in cs
    requires forall t | t in cond.waiters :: t in ts
    modifies cond, cond.waiters
    ensures notify <==> old(cond.waiters) != []
    ensures HeapOf(ts, cs) == WakeAll(old(HeapOf(ts, cs)), cond)
  {
    notify := cond.waiters != [];
    if notify {
      cond.sequence := Wrap64(cond.sequence + 1);
      var q := cond.waiters;
      for i := 0 to |q|
        invariant cond.waiters == q && cond.sequence == Wrap64(old(cond.sequence) + 1)
        invariant forall t | t in ts ::
          t.condSequence == old(t.condSequence)
          && t.waitingCond == if t in q[..i] && old(t.waitingCond) == cond then null else old(t.waitingCond)
      {
        assert q[..i + 1] == q[..i] + [q[i]];
        if q[i].waitingCond == cond {
          q[i].waitingCond := null;
        }
      }
      assert q[..|q|] == q;
      cond.waiters := [];
    }
  }
}
