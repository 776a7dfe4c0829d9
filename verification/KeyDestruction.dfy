/**
 What the end of a thread does to its thread-specific values, whatever the destructors do meanwhile.
 */
module KeyDestruction {
  import opened Common
  import opened Keys

  // ---------------------------------------------------------------------------------------------
  // Setting and getting

  lemma SlotIs(values: seq<Value>, u: Tid, i: nat)
    requires i <= |values| && (i < |values| ==> values[i].thread == u)
    requires forall j | 0 <= j < i :: values[j].thread != u
    ensures Slot(values, u) == i
  {
    hide Slot;
    var f := Slot(values, u);
    assert i <= f;
  }

  lemma PutSlot(values: seq<Value>, t: Tid, data: Data, u: Tid)
    ensures var r := Put(values, t, data);
            var i, j := Slot(r, u), Slot(values, u);
            if u == t then i < |r| && r[i].data == data
            else (i < |r| <==> j < |values|) && (i < |r| ==> r[i] == values[j])
  {
    hide Slot;
    var r, i, j := Put(values, t, data), Slot(values, t), Slot(values, u);
    SlotIs(r, u, if u == t then i else if j < |values| then j else |r|);
  }

  /** A set changes what the same thread gets from the same live key, and nothing else. */
  lemma SetThenGet(keys: seq<Key>, key: int, t: Tid, data: Data, other: int, u: Tid)
    ensures Fetched(Stored(keys, key, t, data), other, u)
            == if Live(keys, key) && other == key && u == t then Some(data) else Fetched(keys, other, u)
  {
    hide Slot, Put;
    if Live(keys, key) {
      PutSlot(keys[key].values, t, data, u);
    }
  }

  /** A new key is null for every thread, and the other keys keep their values. */
  lemma CreateThenGet(keys: seq<Key>, destructor: Option<Routine>, other: int, u: Tid)
    ensures var i := FirstFree(keys);
            Fetched(Created(keys, destructor), other, u)
            == if i < |keys| && other == i then Some(0) else Fetched(keys, other, u)
  {
    hide FirstFree;
    assert Slot([], u) == 0;
  }

  /** The destructor of a live key; a key that is not live has no answer. */
  function DestructorOf(keys: seq<Key>, key: int): Option<Option<Routine>> {
    if 0 <= key < |keys| && keys[key].used then Some(keys[key].destructor) else None
  }

  /** A new key has the destructor it was created with; other keys keep theirs, or stay free. */
  lemma CreateKeepsDestructors(keys: seq<Key>, destructor: Option<Routine>, other: int)
    ensures var i := FirstFree(keys);
            DestructorOf(Created(keys, destructor), other)
            == if i < |keys| && other == i then Some(destructor) else DestructorOf(keys, other)
  {
    hide FirstFree;
  }

  /** A deleted key is dead for every thread, and nothing else changes. */
  lemma DeleteThenGet(keys: seq<Key>, key: int, other: int, u: Tid)
    ensures Fetched(Deleted(keys, key), other, u) == if other == key then None else Fetched(keys, other, u)
    ensures DestructorOf(Deleted(keys, key), other) == if other == key then None else DestructorOf(keys, other)
  {
    hide Slot;
  }

  /** Nothing but creating and deleting it changes a key's destructor. */
  lemma OpKeepsDestructor(keys: seq<Key>, op: Op, key: int)
    requires DestructorOf(keys, key).Some? && op != DeleteOp(key)
    ensures DestructorOf(Apply(keys, op), key) == DestructorOf(keys, key)
  {
    hide FirstFree, Put, Collected, Purged;
    if op.DeleteOp? {
      DeleteThenGet(keys, op.key, key, 0);
    }
  }

  // ---------------------------------------------------------------------------------------------
  // Nothing is left owed

  lemma {:induction false} NulledOwesNothing(destructor: Routine, values: seq<Value>, t: Tid)
    ensures OwedIn(destructor, Nulled(values, t), t) == []
  {
    if values != [] {
      var n := |values| - 1;
      NulledOwesNothing(destructor, values[..n], t);
      assert Nulled(values, t)[..n] == Nulled(values[..n], t);
    }
  }

  lemma {:induction false} CollectedOwesNothing(keys: seq<Key>, t: Tid)
    ensures Owed(Collected(keys, t), t) == []
  {
    if keys != [] {
      var n := |keys| - 1;
      CollectedOwesNothing(keys[..n], t);
      assert Collected(keys, t)[..n] == Collected(keys[..n], t);
      if keys[n].destructor.Some? {
        NulledOwesNothing(keys[n].destructor.value, keys[n].values, t);
      }
    }
  }

  lemma {:induction false} WithoutOwesNothing(destructor: Routine, values: seq<Value>, t: Tid)
    ensures OwedIn(destructor, Without(values, t), t) == []
  {
    if values != [] {
      var n := |values| - 1;
      WithoutOwesNothing(destructor, values[..n], t);
      if values[n].thread != t {
        assert Without(values, t)[..|Without(values[..n], t)|] == Without(values[..n], t);
      } else {
        assert Without(values, t) == Without(values[..n], t);
      }
    }
  }

  lemma {:induction false} PurgedOwesNothing(keys: seq<Key>, t: Tid)
    ensures Owed(Purged(keys, t), t) == []
  {
    if keys != [] {
      var n := |keys| - 1;
      PurgedOwesNothing(keys[..n], t);
      assert Purged(keys, t)[..n] == Purged(keys[..n], t);
      if keys[n].destructor.Some? {
        WithoutOwesNothing(keys[n].destructor.value, keys[n].values, t);
      }
    }
  }

  lemma {:induction false} EndsOwingNothing(keys: seq<Key>, t: Tid, script: Script, round: nat)
    requires round <= DESTRUCTOR_ITERATIONS
    ensures Owed(Destructed(keys, t, script, round).0, t) == []
    decreases DESTRUCTOR_ITERATIONS - round
  {
    hide Owed, Collected, Purged, AfterCalls;
    if round == DESTRUCTOR_ITERATIONS {
      PurgedOwesNothing(keys, t);
    } else if Owed(keys, t) == [] {
      CollectedOwesNothing(keys, t);
    } else {
      EndsOwingNothing(AfterCalls(Collected(keys, t), script, round, |Owed(keys, t)|), t, script, round + 1);
    }
  }

  lemma {:induction false} OwedInMeans(destructor: Routine, values: seq<Value>, t: Tid, i: nat)
    requires OwedIn(destructor, values, t) == [] && i < |values| && values[i].thread == t
    ensures values[i].data == 0
  {
    if i < |values| - 1 {
      OwedInMeans(destructor, values[..|values| - 1], t, i);
    }
  }

  lemma {:induction false} OwedMeans(keys: seq<Key>, t: Tid, k: nat)
    requires Owed(keys, t) == [] && k < |keys|
    ensures OwedBy(keys[k], t) == []
  {
    if k < |keys| - 1 {
      OwedMeans(keys[..|keys| - 1], t, k);
    }
  }

  /**
   However destructors set, create and delete, on both exits a thread gets null from every live key
   that has a destructor.
   */
  lemma NothingIsLeft(keys: seq<Key>, t: Tid, script: Script, key: int)
    ensures var left := Destructed(keys, t, script, 0).0;
            Live(left, key) && left[key].destructor.Some? ==> Fetched(left, key, t) == Some(0)
  {
    EndsOwingNothing(keys, t, script, 0);
    hide Destructed, Owed, Slot;
    var left := Destructed(keys, t, script, 0).0;
    if Live(left, key) && left[key].destructor.Some? {
      OwedMeans(left, t, key);
      var i := Slot(left[key].values, t);
      if i < |left[key].values| {
        OwedInMeans(left[key].destructor.value, left[key].values, t, i);
      }
    }
  }

  // ---------------------------------------------------------------------------------------------
  // Conservation of destructor calls

  /** The call that a set by the thread adds to what it is owed. */
  function SuppliedBy(keys: seq<Key>, op: Op, t: Tid): seq<Call> {
    if op.SetOp? && op.thread == t && op.data != 0 && Live(keys, op.key) && keys[op.key].destructor.Some?
    then [Call(keys[op.key].destructor.value, op.data)]
    else []
  }

  function SuppliedByAll(keys: seq<Key>, ops: seq<Op>, t: Tid): seq<Call> {
    if ops == [] then []
    else
      var most := ops[..|ops| - 1];
      SuppliedByAll(keys, most, t) + SuppliedBy(ApplyAll(keys, most), ops[|ops| - 1], t)
  }

  function SuppliedByCalls(keys: seq<Key>, script: Script, round: nat, n: nat, t: Tid): seq<Call> {
    if n == 0 then []
    else
      SuppliedByCalls(keys, script, round, n - 1, t)
      + SuppliedByAll(AfterCalls(keys, script, round, n - 1), script(round, n - 1), t)
  }

  /** The non-null values that the thread is set while its destructors run. */
  function Supplied(keys: seq<Key>, t: Tid, script: Script, round: nat): seq<Call>
    requires round <= DESTRUCTOR_ITERATIONS
    decreases DESTRUCTOR_ITERATIONS - round
  {
    if round == DESTRUCTOR_ITERATIONS || Owed(keys, t) == [] then []
    else
      var left, n := Collected(keys, t), |Owed(keys, t)|;
      SuppliedByCalls(left, script, round, n, t)
      + Supplied(AfterCalls(left, script, round, n), t, script, round + 1)
  }

  lemma {:induction false} OwedInUpdate(destructor: Routine, values: seq<Value>, i: nat, v: Value, t: Tid)
    requires i < |values|
    ensures multiset(OwedIn(destructor, values[i := v], t))
            <= multiset(OwedIn(destructor, values, t)) + multiset(OwedFor(destructor, v, t))
  {
    hide OwedFor;
    var n := |values| - 1;
    if i < n {
      OwedInUpdate(destructor, values[..n], i, v, t);
      assert values[i := v][..n] == values[..n][i := v];
    } else {
      assert values[i := v][..n] == values[..n];
    }
  }

  lemma PutOwes(destructor: Routine, values: seq<Value>, u: Tid, data: Data, t: Tid)
    ensures multiset(OwedIn(destructor, Put(values, u, data), t))
            <= multiset(OwedIn(destructor, values, t))
               + multiset(if u == t && data != 0 then [Call(destructor, data)] else [])
  {
    hide Slot;
    var i, v := Slot(values, u), Value(u, data);
    if i < |values| {
      OwedInUpdate(destructor, values, i, v, t);
    } else {
      assert (values + [v])[..|values|] == values;
    }
  }

  /** Replacing one key changes what is owed by what the key owes. */
  lemma {:induction false} OwedUpdate(keys: seq<Key>, i: nat, key: Key, t: Tid, more: seq<Call>)
    requires i < |keys| && multiset(OwedBy(key, t)) <= multiset(OwedBy(keys[i], t)) + multiset(more)
    ensures multiset(Owed(keys[i := key], t)) <= multiset(Owed(keys, t)) + multiset(more)
  {
    hide OwedBy;
    var n := |keys| - 1;
    if i < n {
      OwedUpdate(keys[..n], i, key, t, more);
      assert keys[i := key][..n] == keys[..n][i := key];
    } else {
      assert keys[i := key][..n] == keys[..n];
    }
  }

  /** Another thread's collecting adds nothing to what this one is owed, nor does its final sweep. */
  lemma {:induction false} NulledOwes(destructor: Routine, values: seq<Value>, u: Tid, t: Tid)
    ensures multiset(OwedIn(destructor, Nulled(values, u), t)) <= multiset(OwedIn(destructor, values, t))
  {
    if values != [] {
      var n := |values| - 1;
      NulledOwes(destructor, values[..n], u, t);
      assert Nulled(values, u)[..n] == Nulled(values[..n], u);
    }
  }

  lemma {:induction false} WithoutOwes(destructor: Routine, values: seq<Value>, u: Tid, t: Tid)
    ensures multiset(OwedIn(destructor, Without(values, u), t)) <= multiset(OwedIn(destructor, values, t))
  {
    if values != [] {
      var n := |values| - 1;
      var rest := Without(values[..n], u);
      WithoutOwes(destructor, values[..n], u, t);
      if values[n].thread != u {
        assert Without(values, u)[..|rest|] == rest;
      } else {
        assert Without(values, u) == rest;
      }
    }
  }

  lemma {:induction false} CollectedOwes(keys: seq<Key>, u: Tid, t: Tid)
    ensures multiset(Owed(Collected(keys, u), t)) <= multiset(Owed(keys, t))
  {
    hide OwedIn, Nulled;
    if keys != [] {
      var n := |keys| - 1;
      CollectedOwes(keys[..n], u, t);
      assert Collected(keys, u)[..n] == Collected(keys[..n], u);
      if keys[n].destructor.Some? {
        NulledOwes(keys[n].destructor.value, keys[n].values, u, t);
      }
    }
  }

  lemma {:induction false} PurgedOwes(keys: seq<Key>, u: Tid, t: Tid)
    ensures multiset(Owed(Purged(keys, u), t)) <= multiset(Owed(keys, t))
  {
    hide OwedIn, Without;
    if keys != [] {
      var n := |keys| - 1;
      PurgedOwes(keys[..n], u, t);
      assert Purged(keys, u)[..n] == Purged(keys[..n], u);
      if keys[n].destructor.Some? {
        WithoutOwes(keys[n].destructor.value, keys[n].values, u, t);
      }
    }
  }

  lemma OpOwes(keys: seq<Key>, op: Op, t: Tid)
    ensures multiset(Owed(Apply(keys, op), t)) <= multiset(Owed(keys, t)) + multiset(SuppliedBy(keys, op, t))
  {
    hide Owed, FirstFree, Put, OwedIn, Collected, Purged;
    match op
    case CollectOp(u) => CollectedOwes(keys, u, t);
    case PurgeOp(u) => PurgedOwes(keys, u, t);
    case CreateOp(destructor) =>
      var i := FirstFree(keys);
      if i < |keys| {
        EmptyOwes(destructor, t);
        OwedUpdate(keys, i, Key(true, destructor, []), t, []);
      }
    case DeleteOp(key) =>
      if Live(keys, key) {
        OwedUpdate(keys, key, FREE, t, []);
      }
    case SetOp(key, u, data) =>
      if Live(keys, key) {
        var k := keys[key];
        if k.destructor.Some? {
          PutOwes(k.destructor.value, k.values, u, data, t);
        }
        OwedUpdate(keys, key, k.(values := Put(k.values, u, data)), t, SuppliedBy(keys, op, t));
      }
  }

  lemma EmptyOwes(destructor: Option<Routine>, t: Tid)
    ensures OwedBy(Key(true, destructor, []), t) == []
  {
  }

  lemma {:induction false} OpsOwe(keys: seq<Key>, ops: seq<Op>, t: Tid)
    ensures multiset(Owed(ApplyAll(keys, ops), t)) <= multiset(Owed(keys, t)) + multiset(SuppliedByAll(keys, ops, t))
  {
    hide Owed, Apply, SuppliedBy;
    if ops != [] {
      var most := ops[..|ops| - 1];
      OpsOwe(keys, most, t);
      OpOwes(ApplyAll(keys, most), ops[|ops| - 1], t);
    }
  }

  lemma {:induction false} CallsOwe(keys: seq<Key>, script: Script, round: nat, n: nat, t: Tid)
    ensures multiset(Owed(AfterCalls(keys, script, round, n), t))
            <= multiset(Owed(keys, t)) + multiset(SuppliedByCalls(keys, script, round, n, t))
  {
    hide Owed, ApplyAll, SuppliedByAll;
    if n > 0 {
      CallsOwe(keys, script, round, n - 1, t);
      OpsOwe(AfterCalls(keys, script, round, n - 1), script(round, n - 1), t);
    }
  }

  /** One round that finds something owed, and those after it. */
  lemma RoundUnfolds(keys: seq<Key>, t: Tid, script: Script, round: nat)
    requires round < DESTRUCTOR_ITERATIONS && Owed(keys, t) != []
    ensures var left, n := Collected(keys, t), |Owed(keys, t)|;
            var after := AfterCalls(left, script, round, n);
            && Destructed(keys, t, script, round).1 == Owed(keys, t) + Destructed(after, t, script, round + 1).1
            && Supplied(keys, t, script, round)
               == SuppliedByCalls(left, script, round, n, t) + Supplied(after, t, script, round + 1)
  {
    hide Owed, Collected, Purged, AfterCalls, SuppliedByCalls;
  }

  /** Calls now and later are bounded by what is owed now and supplied now and later. */
  lemma RoundBound(owed: seq<Call>, supplied: seq<Call>, owedLater: seq<Call>, calls: seq<Call>, more: seq<Call>)
    requires multiset(owedLater) <= multiset(supplied)
    requires multiset(calls) <= multiset(owedLater) + multiset(more)
    ensures owed <= owed + calls
    ensures multiset(owed + calls) <= multiset(owed) + multiset(supplied + more)
  {
  }

  /**
   Every value the thread holds under a live key with a destructor is handed over, and nothing is handed
   over twice: the calls are the values held at the start, and at most once each those set meanwhile.
   */
  lemma {:induction false} CallsConserved(keys: seq<Key>, t: Tid, script: Script, round: nat)
    requires round <= DESTRUCTOR_ITERATIONS
    ensures var calls := Destructed(keys, t, script, round).1;
            && (round < DESTRUCTOR_ITERATIONS ==> Owed(keys, t) <= calls)
            && multiset(calls) <= multiset(Owed(keys, t)) + multiset(Supplied(keys, t, script, round))
    decreases DESTRUCTOR_ITERATIONS - round
  {
    hide Owed, Collected, AfterCalls, SuppliedByCalls, Destructed, Supplied;
    if round == DESTRUCTOR_ITERATIONS || Owed(keys, t) == [] {
      NoRound(keys, t, script, round);
    } else {
      var left, n := Collected(keys, t), |Owed(keys, t)|;
      var after := AfterCalls(left, script, round, n);
      RoundUnfolds(keys, t, script, round);
      CollectedOwesNothing(keys, t);
      CallsOwe(left, script, round, n, t);
      CallsConserved(after, t, script, round + 1);
      RoundBound(Owed(keys, t), SuppliedByCalls(left, script, round, n, t), Owed(after, t),
                 Destructed(after, t, script, round + 1).1, Supplied(after, t, script, round + 1));
    }
  }

  lemma NoRound(keys: seq<Key>, t: Tid, script: Script, round: nat)
    requires round <= DESTRUCTOR_ITERATIONS && (round == DESTRUCTOR_ITERATIONS || Owed(keys, t) == [])
    ensures Destructed(keys, t, script, round).1 == []
  {
    hide Owed, Collected, Purged;
  }

  /** Destructors that do nothing to the table are each called once, in table order. */
  lemma QuietDestructors(keys: seq<Key>, t: Tid, script: Script)
    requires forall r, i :: script(r, i) == []
    ensures Destructed(keys, t, script, 0) == (Collected(keys, t), Owed(keys, t))
  {
    hide Owed, Collected, Purged;
    var left, calls := Collected(keys, t), Owed(keys, t);
    QuietCalls(left, script, 0, |calls|);
    CollectedOwesNothing(keys, t);
    CollectedTwice(keys, t);
    assert calls + [] == calls;
    assert Destructed(left, t, script, 1) == (left, []);
  }

  lemma {:induction false} QuietCalls(keys: seq<Key>, script: Script, round: nat, n: nat)
    requires forall r, i :: script(r, i) == []
    ensures AfterCalls(keys, script, round, n) == keys
  {
    if n > 0 {
      QuietCalls(keys, script, round, n - 1);
    }
  }

  lemma CollectedTwice(keys: seq<Key>, t: Tid)
    ensures Collected(Collected(keys, t), t) == Collected(keys, t)
  {
    hide Nulled;
    var once := Collected(keys, t);
    forall i | 0 <= i < |once| ensures NulledKey(once[i], t) == once[i] {
      assert Nulled(Nulled(keys[i].values, t), t) == Nulled(keys[i].values, t);
    }
  }

  // ---------------------------------------------------------------------------------------------
  // Other threads

  /** The op sets a value of this thread, and does nothing else. */
  predicate OwnSet(op: Op, t: Tid) {
    op.SetOp? && op.thread == t
  }

  /** Another thread gets the same from every key. */
  ghost predicate SameFor(a: seq<Key>, b: seq<Key>, u: Tid) {
    forall key: int :: Fetched(a, key, u) == Fetched(b, key, u)
  }

  lemma {:induction false} NulledSlot(values: seq<Value>, t: Tid, u: Tid)
    requires u != t
    ensures var r := Nulled(values, t);
            var i := Slot(values, u);
            Slot(r, u) == i && (i < |values| ==> r[i] == values[i])
  {
    hide Nulled;
    var i := Slot(values, u);
    SlotIs(Nulled(values, t), u, i);
  }

  lemma SlotAppend(values: seq<Value>, v: Value, u: Tid)
    ensures var i := Slot(values, u);
            Slot(values + [v], u) == if i < |values| || v.thread == u then i else |values| + 1
  {
    hide Slot;
    var i := Slot(values, u);
    SlotIs(values + [v], u, if i < |values| || v.thread == u then i else |values| + 1);
  }

  lemma {:induction false} WithoutSlot(values: seq<Value>, t: Tid, u: Tid)
    requires u != t
    ensures var r := Without(values, t);
            var i, j := Slot(r, u), Slot(values, u);
            (i < |r| <==> j < |values|) && (i < |r| ==> r[i] == values[j])
  {
    hide Slot;
    if values != [] {
      var n := |values| - 1;
      var most, v := values[..n], values[n];
      WithoutSlot(most, t, u);
      assert values == most + [v];
      SlotAppend(most, v, u);
      if v.thread != t {
        SlotAppend(Without(most, t), v, u);
      } else {
        assert Without(values, t) == Without(most, t);
      }
    }
  }

  lemma CollectedSame(keys: seq<Key>, t: Tid, u: Tid)
    requires u != t
    ensures SameFor(Collected(keys, t), keys, u)
  {
    hide Slot, Nulled, Collected;
    forall key: int ensures Fetched(Collected(keys, t), key, u) == Fetched(keys, key, u) {
      if Live(keys, key) {
        NulledSlot(keys[key].values, t, u);
      }
    }
  }

  lemma PurgedSame(keys: seq<Key>, t: Tid, u: Tid)
    requires u != t
    ensures SameFor(Purged(keys, t), keys, u)
  {
    hide Slot, Without, Purged;
    forall key: int ensures Fetched(Purged(keys, t), key, u) == Fetched(keys, key, u) {
      if Live(keys, key) {
        WithoutSlot(keys[key].values, t, u);
      }
    }
  }

  lemma {:induction false} OwnSetsSame(keys: seq<Key>, ops: seq<Op>, t: Tid, u: Tid)
    requires u != t && forall i | 0 <= i < |ops| :: OwnSet(ops[i], t)
    ensures SameFor(ApplyAll(keys, ops), keys, u)
  {
    hide Fetched, Stored;
    if ops != [] {
      var most, op := ops[..|ops| - 1], ops[|ops| - 1];
      OwnSetsSame(keys, most, t, u);
      forall key: int ensures Fetched(ApplyAll(keys, ops), key, u) == Fetched(keys, key, u) {
        SetThenGet(ApplyAll(keys, most), op.key, t, op.data, key, u);
      }
    }
  }

  lemma {:induction false} OwnCallsSame(keys: seq<Key>, script: Script, round: nat, n: nat, t: Tid, u: Tid)
    requires u != t && forall r, i, j | 0 <= j < |script(r, i)| :: OwnSet(script(r, i)[j], t)
    ensures SameFor(AfterCalls(keys, script, round, n), keys, u)
  {
    hide Fetched, ApplyAll, OwnSet;
    if n > 0 {
      OwnCallsSame(keys, script, round, n - 1, t, u);
      OwnSetsSame(AfterCalls(keys, script, round, n - 1), script(round, n - 1), t, u);
    }
  }

  /** With destructors that only set values of their own thread, no other thread notices anything. */
  lemma {:induction false} OthersKeepTheirs(keys: seq<Key>, t: Tid, script: Script, round: nat, u: Tid)
    requires round <= DESTRUCTOR_ITERATIONS && u != t
    requires forall r, i, j | 0 <= j < |script(r, i)| :: OwnSet(script(r, i)[j], t)
    ensures SameFor(Destructed(keys, t, script, round).0, keys, u)
    decreases DESTRUCTOR_ITERATIONS - round
  {
    hide Owed, Collected, Purged, AfterCalls, Fetched, OwnSet;
    if round == DESTRUCTOR_ITERATIONS {
      PurgedSame(keys, t, u);
    } else {
      CollectedSame(keys, t, u);
      var left, n := Collected(keys, t), |Owed(keys, t)|;
      if n > 0 {
        OwnCallsSame(left, script, round, n, t, u);
        OthersKeepTheirs(AfterCalls(left, script, round, n), t, script, round + 1, u);
      }
    }
  }

  // ---------------------------------------------------------------------------------------------
  // From creation to destruction

  /** The op leaves t's value of the key alone. */
  predicate LeavesValue(op: Op, key: nat, t: Tid) {
    match op
    case CreateOp(_) => true
    case DeleteOp(k) => k != key
    case SetOp(k, u, _) => k != key || u != t
    case CollectOp(u) => u != t
    case PurgeOp(u) => u != t
  }

  lemma OpKeepsValue(keys: seq<Key>, op: Op, key: nat, t: Tid)
    requires Live(keys, key) && LeavesValue(op, key, t)
    ensures Fetched(Apply(keys, op), key, t) == Fetched(keys, key, t)
    ensures DestructorOf(Apply(keys, op), key) == DestructorOf(keys, key)
  {
    hide Fetched, Created, Deleted, Stored, Collected, Purged;
    match op
    case CreateOp(d) =>
      CreateThenGet(keys, d, key, t);
      CreateKeepsDestructors(keys, d, key);
    case DeleteOp(k) => DeleteThenGet(keys, k, key, t);
    case SetOp(k, u, data) =>
      SetThenGet(keys, k, u, data, key, t);
      OpKeepsDestructor(keys, op, key);
    case CollectOp(u) =>
      CollectedSame(keys, u, t);
      OpKeepsDestructor(keys, op, key);
    case PurgeOp(u) =>
      PurgedSame(keys, u, t);
      OpKeepsDestructor(keys, op, key);
  }

  lemma {:induction false} OpsKeepValue(keys: seq<Key>, ops: seq<Op>, key: nat, t: Tid)
    requires Live(keys, key) && forall i | 0 <= i < |ops| :: LeavesValue(ops[i], key, t)
    ensures var after := ApplyAll(keys, ops);
            && Live(after, key) && Fetched(after, key, t) == Fetched(keys, key, t)
            && DestructorOf(after, key) == DestructorOf(keys, key)
  {
    hide Fetched, Apply, LeavesValue;
    if ops != [] {
      var most := ops[..|ops| - 1];
      OpsKeepValue(keys, most, key, t);
      OpKeepsValue(ApplyAll(keys, most), ops[|ops| - 1], key, t);
    }
  }

  lemma {:induction false} ValueIsOwed(destructor: Routine, values: seq<Value>, t: Tid, i: nat)
    requires i < |values| && values[i].thread == t && values[i].data != 0
    ensures Call(destructor, values[i].data) in OwedIn(destructor, values, t)
  {
    var n := |values| - 1;
    if i < n {
      ValueIsOwed(destructor, values[..n], t, i);
    }
  }

  lemma {:induction false} KeyIsOwed(keys: seq<Key>, t: Tid, k: nat, call: Call)
    requires k < |keys| && call in OwedBy(keys[k], t)
    ensures call in Owed(keys, t)
  {
    hide OwedBy;
    if k < |keys| - 1 {
      KeyIsOwed(keys[..|keys| - 1], t, k, call);
    }
  }

  /** A live key's non-null value is handed to the key's destructor at the end of its thread. */
  lemma HeldIsHandedOver(keys: seq<Key>, t: Tid, script: Script, key: nat, destructor: Routine, data: Data)
    requires DestructorOf(keys, key) == Some(Some(destructor)) && Fetched(keys, key, t) == Some(data) && data != 0
    ensures Call(destructor, data) in Destructed(keys, t, script, 0).1
  {
    hide Destructed, Owed, Slot;
    var values := keys[key].values;
    ValueIsOwed(destructor, values, t, Slot(values, t));
    KeyIsOwed(keys, t, key, Call(destructor, data));
    CallsConserved(keys, t, script, 0);
  }

  /**
   The whole life of a value: a key created with a destructor, set to something non-null by a thread, and
   left alone since by whatever else happens, hands that value to that destructor when the thread ends.
   */
  lemma CreatedValueIsHandedOver(keys: seq<Key>, destructor: Routine, t: Tid, data: Data, ops: seq<Op>, script: Script)
    requires FirstFree(keys) < |keys| && data != 0
    requires forall i | 0 <= i < |ops| :: LeavesValue(ops[i], FirstFree(keys), t)
    ensures var key := FirstFree(keys);
            var held := Stored(Created(keys, Some(destructor)), key, t, data);
            && Fetched(ApplyAll(held, ops), key, t) == Some(data)
            && Call(destructor, data) in Destructed(ApplyAll(held, ops), t, script, 0).1
  {
    hide FirstFree, Fetched, Stored, Created, ApplyAll, Destructed;
    var key := FirstFree(keys);
    var new_ := Created(keys, Some(destructor));
    CreateKeepsDestructors(keys, Some(destructor), key);
    SetThenGet(new_, key, t, data, key, t);
    OpKeepsDestructor(new_, SetOp(key, t, data), key);
    var held := Stored(new_, key, t, data);
    OpsKeepValue(held, ops, key, t);
    HeldIsHandedOver(ApplyAll(held, ops), t, script, key, destructor, data);
  }

  // ---------------------------------------------------------------------------------------------
  // What destruction leaves alone, and where it stops

  /** A round takes the values of keys with destructors, and of no others. */
  lemma CollectTakes(keys: seq<Key>, t: Tid, key: nat)
    requires Live(keys, key)
    ensures Fetched(Collected(keys, t), key, t)
            == if keys[key].destructor.Some? then Some(0) else Fetched(keys, key, t)
    ensures DestructorOf(Collected(keys, t), key) == DestructorOf(keys, key)
  {
    hide Collected, Slot, Nulled;
    if keys[key].destructor.Some? {
      SlotIs(Nulled(keys[key].values, t), t, Slot(keys[key].values, t));
    }
  }

  /** When destructors do nothing to the table, a thread's values under keys without one outlive it. */
  lemma QuietKeepsOthers(keys: seq<Key>, t: Tid, script: Script, key: nat)
    requires forall r, i :: script(r, i) == []
    requires Live(keys, key) && keys[key].destructor == None
    ensures Fetched(Destructed(keys, t, script, 0).0, key, t) == Fetched(keys, key, t)
  {
    hide Destructed, Collected, Owed, Slot;
    QuietDestructors(keys, t, script);
    CollectTakes(keys, t, key);
  }

  /** One value owed, and a destructor that sets it again each time. */
  ghost predicate Stubborn(keys: seq<Key>, t: Tid, script: Script, key: nat, destructor: Routine, data: Data) {
    && data != 0 && DestructorOf(keys, key) == Some(Some(destructor))
    && Owed(keys, t) == [Call(destructor, data)]
    && forall r :: script(r, 0) == [SetOp(key, t, data)]
  }

  lemma StubbornRound(keys: seq<Key>, t: Tid, script: Script, key: nat, destructor: Routine, data: Data, round: nat)
    requires Stubborn(keys, t, script, key, destructor, data)
    ensures Stubborn(AfterCalls(Collected(keys, t), script, round, 1), t, script, key, destructor, data)
  {
    hide Owed, Collected, Fetched, Stored, Slot;
    var left, op, call := Collected(keys, t), SetOp(key, t, data), Call(destructor, data);
    var after := Stored(left, key, t, data);
    CollectedOwesNothing(keys, t);
    CollectTakes(keys, t, key);
    assert [op][..0] == [];
    assert AfterCalls(left, script, round, 0) == left && ApplyAll(left, []) == left;
    assert AfterCalls(left, script, round, 1) == after;
    OpKeepsDestructor(left, op, key);
    SetThenGet(left, key, t, data, key, t);
    HeldIsOwed(after, t, key, destructor, data);
    OpOwes(left, op, t);
    OneCall(Owed(after, t), call);
  }

  lemma HeldIsOwed(keys: seq<Key>, t: Tid, key: nat, destructor: Routine, data: Data)
    requires DestructorOf(keys, key) == Some(Some(destructor)) && Fetched(keys, key, t) == Some(data) && data != 0
    ensures Call(destructor, data) in Owed(keys, t)
  {
    hide Owed, Slot;
    var values := keys[key].values;
    ValueIsOwed(destructor, values, t, Slot(values, t));
    KeyIsOwed(keys, t, key, Call(destructor, data));
  }

  lemma OneCall(calls: seq<Call>, call: Call)
    requires call in calls && multiset(calls) <= multiset{call}
    ensures calls == [call]
  {
    var rest := calls[1..];
    assert calls == [calls[0]] + rest;
    assert multiset(calls) == multiset{calls[0]} + multiset(rest);
    assert multiset(calls)[calls[0]] >= 1;
    assert multiset{call}[calls[0]] >= 1;
    forall x ensures multiset(rest)[x] == 0 {
      assert multiset(calls)[x] == multiset{call}[x] + multiset(rest)[x];
      assert multiset(calls)[x] <= multiset{call}[x];
    }
    assert multiset(rest) == multiset{};
    assert |multiset(rest)| == |rest|;
  }

  /** It is called exactly four times, and what it set the last time is dropped. */
  lemma StubbornIsCalledFourTimes(keys: seq<Key>, t: Tid, script: Script, key: nat, destructor: Routine, data: Data)
    requires Stubborn(keys, t, script, key, destructor, data)
    ensures var call, r := Call(destructor, data), Destructed(keys, t, script, 0);
            r.1 == [call, call, call, call] && Owed(r.0, t) == []
  {
    hide Owed, Collected, Purged, AfterCalls, Stubborn;
    var k1 := AfterCalls(Collected(keys, t), script, 0, 1);
    var k2 := AfterCalls(Collected(k1, t), script, 1, 1);
    var k3 := AfterCalls(Collected(k2, t), script, 2, 1);
    var k4 := AfterCalls(Collected(k3, t), script, 3, 1);
    StubbornRound(keys, t, script, key, destructor, data, 0);
    StubbornRound(k1, t, script, key, destructor, data, 1);
    StubbornRound(k2, t, script, key, destructor, data, 2);
    StubbornRound(k3, t, script, key, destructor, data, 3);
    StubbornStep(keys, t, script, key, destructor, data, 0);
    StubbornStep(k1, t, script, key, destructor, data, 1);
    StubbornStep(k2, t, script, key, destructor, data, 2);
    StubbornStep(k3, t, script, key, destructor, data, 3);
    NoRound(k4, t, script, 4);
    EndsOwingNothing(keys, t, script, 0);
  }

  lemma StubbornStep(keys: seq<Key>, t: Tid, script: Script, key: nat, destructor: Routine, data: Data, round: nat)
    requires round < DESTRUCTOR_ITERATIONS && Stubborn(keys, t, script, key, destructor, data)
    ensures var after := AfterCalls(Collected(keys, t), script, round, 1);
            Destructed(keys, t, script, round).1 == [Call(destructor, data)] + Destructed(after, t, script, round + 1).1
  {
    hide Owed, Collected, Purged, AfterCalls, Destructed, Supplied;
    RoundUnfolds(keys, t, script, round);
  }
}
