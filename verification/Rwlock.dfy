/**
 The guest reader-writer lock (src/kernel/pthread.cpp): a table of readers with nesting counts, one
 writer, and a count of waiting writers that keeps new readers out.
 */
module Rwlock {
  import opened Common

  /** A thread handle; the lock only compares handles. */
  type Tid = nat

  const UINT32_MAX: nat := 0xffff_ffff

  datatype Code = OK | EBUSY | EDEADLK | ETIMEDOUT | EPERM

  datatype Reader = Reader(thread: Tid, count: nat)

  datatype View = View(writer: Option<Tid>, writerCount: nat, readerCount: nat, waitingWriters: nat,
                       readers: seq<Reader>)

  /** 32-bit unsigned increment and decrement. */
  function Inc32(n: nat): nat { (n + 1) % 0x1_0000_0000 }

  function Dec32(n: nat): nat { (n + 0xffff_ffff) % 0x1_0000_0000 }

  // ---------------------------------------------------------------------------------------------
  // Critical sections

  /** The position of a thread in the table, or the length of the table. */
  function Find(readers: seq<Reader>, t: Tid): (i: nat)
    ensures i <= |readers|
    ensures i < |readers| ==> readers[i].thread == t
    ensures forall j | 0 <= j < i :: readers[j].thread != t
  {
    Position(readers, (r: Reader) => r.thread, t)
  }

  predicate Reads(v: View, t: Tid) {
    Find(v.readers, t) < |v.readers|
  }

  /** The table with one more hold by t. */
  function AddTo(readers: seq<Reader>, t: Tid): seq<Reader> {
    var i := Find(readers, t);
    if i < |readers| then readers[i := Reader(t, Inc32(readers[i].count))] else readers + [Reader(t, 1)]
  }

  /** The table with one hold less by t; an entry that reaches zero is dropped. */
  function RemoveFrom(readers: seq<Reader>, t: Tid): seq<Reader>
    requires Find(readers, t) < |readers|
  {
    var i := Find(readers, t);
    var n := Dec32(readers[i].count);
    if n == 0 then readers[..i] + readers[i + 1..] else readers[i := Reader(t, n)]
  }

  function AddReader(v: View, t: Tid): View {
    v.(readers := AddTo(v.readers, t), readerCount := Inc32(v.readerCount))
  }

  function RemoveReader(v: View, t: Tid): View
    requires Reads(v, t)
  {
    v.(readers := RemoveFrom(v.readers, t), readerCount := Dec32(v.readerCount))
  }

  /** A reader gets in when there is no writer and none waits for it; a thread already in always does. */
  predicate AdmitsReader(v: View, t: Tid) {
    (v.writer == None && (v.waitingWriters == 0 || Reads(v, t))) || v.writer == Some(t)
  }

  predicate Deadlocks(v: View, t: Tid) {
    v.writer == Some(t) || Reads(v, t)
  }

  predicate AdmitsWriter(v: View) {
    v.writer == None && v.readerCount == 0
  }

  function TakeWrite(v: View, t: Tid): View {
    v.(writer := Some(t), writerCount := 1)
  }

  /** A blocking call: what it asks for, whether it has a deadline, whether it counts as a waiting writer. */
  datatype Call = Call(write: bool, timed: bool, registered: bool)

  datatype Pass = Return(code: Code) | Again(registered: bool)

  function Unregister(v: View, registered: bool): View {
    if registered then v.(waitingWriters := Dec32(v.waitingWriters)) else v
  }

  /** One pass of the loop in RwlockLockCooperative. */
  function LockPass(v: View, t: Tid, call: Call, expired: bool): (View, Pass) {
    if call.write then
      if Deadlocks(v, t) then (Unregister(v, call.registered), Return(EDEADLK))
      else if AdmitsWriter(v) then (TakeWrite(Unregister(v, call.registered), t), Return(OK))
      else
        var w := if call.registered then v else v.(waitingWriters := Inc32(v.waitingWriters));
        if call.timed && expired then (Unregister(w, true), Return(ETIMEDOUT)) else (w, Again(true))
    else if AdmitsReader(v, t) then (AddReader(v, t), Return(OK))
    else if call.timed && expired then (Unregister(v, call.registered), Return(ETIMEDOUT))
    else (v, Again(call.registered))
  }

  function TryRead(v: View, t: Tid): (View, Code) {
    if AdmitsReader(v, t) then (AddReader(v, t), OK) else (v, EBUSY)
  }

  function TryWrite(v: View, t: Tid): (View, Code) {
    if Deadlocks(v, t) then (v, EDEADLK)
    else if AdmitsWriter(v) then (TakeWrite(v, t), OK)
    else (v, EBUSY)
  }

  /** Read holds are given back before the write hold. */
  function Unlock(v: View, t: Tid): (View, Code) {
    if Reads(v, t) then (RemoveReader(v, t), OK)
    else if v.writer == Some(t) then
      var n := Dec32(v.writerCount);
      (v.(writerCount := n, writer := if n == 0 then None else v.writer), OK)
    else (v, EPERM)
  }

  class RwlockObject {
    var writer: Option<Tid>
    var writerCount: nat
    var readerCount: nat
    var waitingWriters: nat
    var readers: seq<Reader>

    function Value(): View
      reads this
    {
      View(writer, writerCount, readerCount, waitingWriters, readers)
    }

    constructor ()
      ensures Value() == View(None, 0, 0, 0, [])
    {
      writer, writerCount, readerCount, waitingWriters, readers := None, 0, 0, 0, [];
    }

    method FindReader(thread: Tid) returns (i: nat)
      ensures i == Find(readers, thread)
    {
      i := 0;
      while i < |readers| && readers[i].thread != thread
        invariant i <= |readers|
        invariant forall j | 0 <= j < i :: readers[j].thread != thread
      {
        i := i + 1;
      }
    }

    method Add(thread: Tid)
      modifies this
      ensures Value() == AddReader(old(Value()), thread)
    {
      var i := FindReader(thread);
      if i < |readers| {
        readers := readers[i := Reader(thread, Inc32(readers[i].count))];
      } else {
        readers := readers + [Reader(thread, 1)];
      }
      readerCount := Inc32(readerCount);
    }

    method Remove(thread: Tid) returns (removed: bool)
      modifies this
      ensures removed <==> Reads(old(Value()), thread)
      ensures Value() == if removed then RemoveReader(old(Value()), thread) else old(Value())
    {
      var i := FindReader(thread);
      if i == |readers| {
        return false;
      }
      readers := readers[i := Reader(thread, Dec32(readers[i].count))];
      readerCount := Dec32(readerCount);
      if readers[i].count == 0 {
        readers := readers[..i] + readers[i + 1..];
      }
      removed := true;
    }

    /** The critical section of one pass of RwlockLockCooperative. */
    method LockOnce(self: Tid, call: Call, expired: bool) returns (r: Pass)
      modifies this
      ensures (Value(), r) == LockPass(old(Value()), self, call, expired)
    {
      var registered := call.registered;
      var i := FindReader(self);
      if call.write {
        if writer == Some(self) || i < |readers| {
          if registered {
            waitingWriters := Dec32(waitingWriters);
          }
          return Return(EDEADLK);
        }
        if writer == None && readerCount == 0 {
          if registered {
            waitingWriters := Dec32(waitingWriters);
          }
          writer, writerCount := Some(self), 1;
          return Return(OK);
        }
        if !registered {
          waitingWriters := Inc32(waitingWriters);
          registered := true;
        }
      } else {
        var alreadyReader := i < |readers|;
        if (writer == None && (waitingWriters == 0 || alreadyReader)) || writer == Some(self) {
          Add(self);
          return Return(OK);
        }
      }
      if call.timed && expired {
        if registered {
          waitingWriters := Dec32(waitingWriters);
        }
        return Return(ETIMEDOUT);
      }
      r := Again(registered);
    }

    method TryRdlock(self: Tid) returns (code: Code)
      modifies this
      ensures (Value(), code) == TryRead(old(Value()), self)
    {
      var i := FindReader(self);
      if (writer == None && (waitingWriters == 0 || i < |readers|)) || writer == Some(self) {
        Add(self);
        return OK;
      }
      code := EBUSY;
    }

    method TryWrlock(self: Tid) returns (code: Code)
      modifies this
      ensures (Value(), code) == TryWrite(old(Value()), self)
    {
      var i := FindReader(self);
      if writer == Some(self) || i < |readers| {
        return EDEADLK;
      }
      if writer == None && readerCount == 0 {
        writer, writerCount := Some(self), 1;
        return OK;
      }
      code := EBUSY;
    }

    method UnlockOnce(self: Tid) returns (code: Code)
      modifies this
      ensures (Value(), code) == Unlock(old(Value()), self)
    {
      var removed := Remove(self);
      if removed {
        return OK;
      }
      if writer == Some(self) {
        writerCount := Dec32(writerCount);
        if writerCount == 0 {
          writer := None;
        }
        return OK;
      }
      code := EPERM;
    }
  }

  // ---------------------------------------------------------------------------------------------
  // The shape of the table

  function Total(readers: seq<Reader>): nat {
    if readers == [] then 0 else readers[0].count + Total(readers[1..])
  }

  ghost predicate Table(readers: seq<Reader>) {
    && (forall i, j | 0 <= i < j < |readers| :: readers[i].thread != readers[j].thread)
    && (forall i | 0 <= i < |readers| :: 1 <= readers[i].count)
  }

  /** Distinct readers with positive counts that add up; a writer excludes every other thread. */
  ghost predicate Shape(v: View) {
    && Table(v.readers)
    && Total(v.readers) == v.readerCount <= UINT32_MAX
    && v.writerCount == (if v.writer == None then 0 else 1)
    && (v.writer != None ==> forall i | 0 <= i < |v.readers| :: v.readers[i].thread == v.writer.value)
  }

  /** The read holds of a thread. */
  function CountOf(readers: seq<Reader>, t: Tid): nat {
    var i := Find(readers, t);
    if i < |readers| then readers[i].count else 0
  }

  lemma {:induction false} TotalUpdate(readers: seq<Reader>, i: nat, r: Reader)
    requires i < |readers|
    ensures Total(readers[i := r]) == Total(readers) - readers[i].count + r.count
    ensures readers[i].count <= Total(readers)
  {
    if i > 0 {
      TotalUpdate(readers[1..], i - 1, r);
      assert readers[i := r][1..] == readers[1..][i - 1 := r];
    } else {
      assert readers[0 := r][1..] == readers[1..];
    }
  }

  lemma {:induction false} TotalRemove(readers: seq<Reader>, i: nat)
    requires i < |readers|
    ensures Total(readers[..i] + readers[i + 1..]) == Total(readers) - readers[i].count
    ensures readers[i].count <= Total(readers)
  {
    var rest := readers[..i] + readers[i + 1..];
    if i > 0 {
      TotalRemove(readers[1..], i - 1);
      assert rest[1..] == readers[1..][..i - 1] + readers[1..][i..];
    } else {
      assert rest == readers[1..];
    }
  }

  lemma {:induction false} TotalAppend(readers: seq<Reader>, r: Reader)
    ensures Total(readers + [r]) == Total(readers) + r.count
  {
    if readers != [] {
      TotalAppend(readers[1..], r);
      assert (readers + [r])[1..] == readers[1..] + [r];
    } else {
      assert readers + [r] == [r];
    }
  }

  lemma FindUnique(readers: seq<Reader>, t: Tid, i: nat)
    requires i < |readers| && readers[i].thread == t && Table(readers)
    ensures Find(readers, t) == i
  {
    var f := Find(readers, t);
    assert f <= i;
  }

  lemma FindMissing(readers: seq<Reader>, t: Tid)
    requires forall j | 0 <= j < |readers| :: readers[j].thread != t
    ensures Find(readers, t) == |readers|
  {
  }

  /** An entry for a new thread. */
  lemma AppendedEntry(readers: seq<Reader>, t: Tid, u: Tid)
    requires Table(readers) && Find(readers, t) == |readers|
    ensures var r := readers + [Reader(t, 1)];
            && Table(r) && Total(r) == Total(readers) + 1
            && CountOf(r, u) == if u == t then 1 else CountOf(readers, u)
  {
    hide Total, Find;
    var r := readers + [Reader(t, 1)];
    TotalAppend(readers, Reader(t, 1));
    var k := Find(readers, u);
    if k < |readers| {
      FindUnique(r, u, k);
    } else if u == t {
      FindUnique(r, u, |readers|);
    } else {
      FindMissing(r, u);
    }
  }

  /** One more hold by t, and by nobody else. */
  lemma AddToCounts(readers: seq<Reader>, t: Tid, u: Tid)
    requires Table(readers) && Total(readers) < UINT32_MAX
    ensures var r := AddTo(readers, t);
            && Table(r) && Total(r) == Total(readers) + 1
            && CountOf(r, u) == CountOf(readers, u) + (if u == t then 1 else 0)
            && (forall i | 0 <= i < |r| :: r[i].thread == t || (i < |readers| && r[i] == readers[i]))
  {
    hide Total, Find, Inc32, Table;
    var i := Find(readers, t);
    if i < |readers| {
      TotalUpdate(readers, i, readers[i]);
      Inc32Room(readers[i].count);
      ReplacedEntry(readers, i, readers[i].count + 1, u);
    } else {
      AppendedEntry(readers, t, u);
    }
  }

  /** Admitting a reader adds one to its holds and to nobody else's. */
  lemma AddReaderCounts(v: View, t: Tid)
    requires Shape(v) && v.readerCount < UINT32_MAX && (v.writer == None || v.writer == Some(t))
    ensures var w := AddReader(v, t);
            && Shape(w) && w.readerCount == v.readerCount + 1
            && (forall u :: CountOf(w.readers, u) == CountOf(v.readers, u) + (if u == t then 1 else 0))
  {
    hide Find, Total, AddTo, CountOf, Table;
    AddToCounts(v.readers, t, t);
    forall u ensures CountOf(AddTo(v.readers, t), u) == CountOf(v.readers, u) + (if u == t then 1 else 0) {
      AddToCounts(v.readers, t, u);
    }
  }

  /** An entry replaced by one of the same thread. */
  lemma ReplacedEntry(readers: seq<Reader>, i: nat, n: nat, u: Tid)
    requires Table(readers) && i < |readers| && 1 <= n
    ensures var r := readers[i := Reader(readers[i].thread, n)];
            && Table(r) && Total(r) == Total(readers) - readers[i].count + n
            && CountOf(r, u) == if u == readers[i].thread then n else CountOf(readers, u)
  {
    hide Total, Find;
    var r := readers[i := Reader(readers[i].thread, n)];
    TotalUpdate(readers, i, Reader(readers[i].thread, n));
    var k := Find(readers, u);
    if k < |readers| {
      FindUnique(r, u, k);
      FindUnique(readers, u, k);
    } else {
      FindMissing(r, u);
    }
  }

  /** An entry dropped from the table. */
  lemma DroppedEntry(readers: seq<Reader>, i: nat, u: Tid)
    requires Table(readers) && i < |readers|
    ensures var r := readers[..i] + readers[i + 1..];
            && Table(r) && Total(r) == Total(readers) - readers[i].count
            && CountOf(r, u) == if u == readers[i].thread then 0 else CountOf(readers, u)
  {
    hide Total, Find;
    var r := readers[..i] + readers[i + 1..];
    TotalRemove(readers, i);
    var k := Find(readers, u);
    if k == |readers| || k == i {
      FindMissing(r, u);
    } else {
      FindUnique(r, u, if k > i then k - 1 else k);
    }
  }

  /** One hold less by t, and by nobody else; an entry at zero is gone. */
  lemma RemoveFromCounts(readers: seq<Reader>, t: Tid, u: Tid)
    requires Table(readers) && Total(readers) <= UINT32_MAX && Find(readers, t) < |readers|
    ensures var r := RemoveFrom(readers, t);
            && Table(r) && Total(r) == Total(readers) - 1
            && CountOf(r, u) == CountOf(readers, u) - (if u == t then 1 else 0)
  {
    hide Total, Find, Dec32, Table;
    var i := Find(readers, t);
    TotalUpdate(readers, i, readers[i]);
    FirstPositive(readers, i);
    Dec32Positive(readers[i].count);
    if readers[i].count == 1 {
      DroppedEntry(readers, i, u);
    } else {
      ReplacedEntry(readers, i, readers[i].count - 1, u);
    }
  }

  lemma RemoveFromAll(readers: seq<Reader>, t: Tid, w: Tid)
    requires Find(readers, t) < |readers| && forall i | 0 <= i < |readers| :: readers[i].thread == w
    ensures forall i | 0 <= i < |RemoveFrom(readers, t)| :: RemoveFrom(readers, t)[i].thread == w
  {
    hide Find, Dec32;
  }

  lemma Inc32Room(n: nat)
    requires n < UINT32_MAX
    ensures Inc32(n) == n + 1
  {
  }

  lemma Dec32Positive(n: nat)
    requires 1 <= n <= UINT32_MAX
    ensures Dec32(n) == n - 1
  {
  }

  lemma FirstPositive(readers: seq<Reader>, i: nat)
    requires Table(readers) && i < |readers|
    ensures readers[i].count >= 1
  {
  }

  /** Giving up a read hold takes one from its holds, and drops the entry at zero. */
  lemma RemoveReaderCounts(v: View, t: Tid)
    requires Shape(v) && Reads(v, t)
    ensures var w := RemoveReader(v, t);
            && Shape(w) && w.readerCount == v.readerCount - 1
            && (forall u :: CountOf(w.readers, u) == CountOf(v.readers, u) - (if u == t then 1 else 0))
  {
    hide Find, Total, CountOf, Table, Dec32, RemoveFrom;
    RemoveFromCounts(v.readers, t, t);
    if v.writer != None {
      RemoveFromAll(v.readers, t, v.writer.value);
    }
    TotalUpdate(v.readers, Find(v.readers, t), v.readers[Find(v.readers, t)]);
    FirstPositive(v.readers, Find(v.readers, t));
    Dec32Positive(v.readerCount);
    forall u ensures CountOf(RemoveFrom(v.readers, t), u) == CountOf(v.readers, u) - (if u == t then 1 else 0) {
      RemoveFromCounts(v.readers, t, u);
    }
  }

  /** Admitting a reader keeps the table in shape exactly while the 32-bit count has room. */
  lemma AddReaderFitsExactly(v: View, t: Tid)
    requires Shape(v) && AdmitsReader(v, t)
    ensures Shape(AddReader(v, t)) <==> v.readerCount < UINT32_MAX
  {
    if v.readerCount < UINT32_MAX {
      AddReaderCounts(v, t);
    } else {
      var w := AddReader(v, t);
      if Shape(w) {
        var i := Find(w.readers, t);
        AddedIsThere(v, t);
        TotalUpdate(w.readers, i, w.readers[i]);
        assert false;
      }
    }
  }

  lemma AddedIsThere(v: View, t: Tid)
    ensures Reads(AddReader(v, t), t)
  {
    var i := Find(v.readers, t);
    var w := AddReader(v, t);
    assert w.readers[i].thread == t;
  }
}
