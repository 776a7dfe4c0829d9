/**
 Thread-specific keys (src/kernel/pthread.cpp, PthreadKeys): a fixed table of keys, each with a list of
 per-thread values, and the rounds of destructor calls at the end of a thread.
 */
module Keys {
  import opened Common

  const KEYS_MAX: nat := 256
  const DESTRUCTOR_ITERATIONS: nat := 4

  type Tid = int

  /** A guest pointer; zero is the null value. */
  type Data = nat

  type Routine = nat

  datatype Value = Value(thread: Tid, data: Data)

  datatype Key = Key(used: bool, destructor: Option<Routine>, values: seq<Value>)

  const FREE: Key := Key(false, None, [])

  /** A destructor call: the routine and the value it is handed. */
  datatype Call = Call(destructor: Routine, data: Data)

  /**
   What may happen to the table while destructors run: guest calls in any thread, and the two critical
   sections of another thread that ends at the same time.
   */
  datatype Op =
    | CreateOp(destructor: Option<Routine>)
    | DeleteOp(key: int)
    | SetOp(key: int, thread: Tid, data: Data)
    | CollectOp(thread: Tid)
    | PurgeOp(thread: Tid)

  // ---------------------------------------------------------------------------------------------
  // Operations on values

  function Live(keys: seq<Key>, key: int): bool {
    0 <= key < |keys| && keys[key].used
  }

  function FirstFree(keys: seq<Key>): (i: nat)
    ensures i <= |keys|
    ensures i < |keys| ==> !keys[i].used
    ensures forall j | 0 <= j < i :: keys[j].used
  {
    Position(keys, (k: Key) => k.used, false)
  }

  function Created(keys: seq<Key>, destructor: Option<Routine>): seq<Key> {
    var i := FirstFree(keys);
    if i < |keys| then keys[i := Key(true, destructor, [])] else keys
  }

  function Deleted(keys: seq<Key>, key: int): seq<Key> {
    if Live(keys, key) then keys[key := FREE] else keys
  }

  function Slot(values: seq<Value>, t: Tid): (i: nat)
    ensures i <= |values|
    ensures i < |values| ==> values[i].thread == t
    ensures forall j | 0 <= j < i :: values[j].thread != t
  {
    Position(values, (v: Value) => v.thread, t)
  }

  function Put(values: seq<Value>, t: Tid, data: Data): seq<Value> {
    var i := Slot(values, t);
    if i < |values| then values[i := Value(t, data)] else values + [Value(t, data)]
  }

  function Stored(keys: seq<Key>, key: int, t: Tid, data: Data): seq<Key> {
    if Live(keys, key) then keys[key := keys[key].(values := Put(keys[key].values, t, data))] else keys
  }

  /** The value of a live key for a thread; null when it has none. */
  function Fetched(keys: seq<Key>, key: int, t: Tid): Option<Data> {
    if !Live(keys, key) then None
    else
      var i, values := Slot(keys[key].values, t), keys[key].values;
      Some(if i < |values| then values[i].data else 0)
  }

  function Apply(keys: seq<Key>, op: Op): seq<Key> {
    match op
    case CreateOp(destructor) => Created(keys, destructor)
    case DeleteOp(key) => Deleted(keys, key)
    case SetOp(key, thread, data) => Stored(keys, key, thread, data)
    case CollectOp(thread) => Collected(keys, thread)
    case PurgeOp(thread) => Purged(keys, thread)
  }

  function ApplyAll(keys: seq<Key>, ops: seq<Op>): seq<Key> {
    if ops == [] then keys else Apply(ApplyAll(keys, ops[..|ops| - 1]), ops[|ops| - 1])
  }

  /** The calls owed for a thread's non-null values among these. */
  function OwedIn(destructor: Routine, values: seq<Value>, t: Tid): seq<Call> {
    if values == [] then []
    else OwedIn(destructor, values[..|values| - 1], t) + OwedFor(destructor, values[|values| - 1], t)
  }

  function OwedFor(destructor: Routine, v: Value, t: Tid): seq<Call> {
    if v.thread == t && v.data != 0 then [Call(destructor, v.data)] else []
  }

  function OwedBy(key: Key, t: Tid): seq<Call> {
    if key.used && key.destructor.Some? then OwedIn(key.destructor.value, key.values, t) else []
  }

  /** The calls owed to a thread: its non-null values under live keys with destructors, in table order. */
  function Owed(keys: seq<Key>, t: Tid): seq<Call> {
    if keys == [] then [] else Owed(keys[..|keys| - 1], t) + OwedBy(keys[|keys| - 1], t)
  }

  function Nulled(values: seq<Value>, t: Tid): (r: seq<Value>)
    ensures |r| == |values|
    ensures forall i | 0 <= i < |r| :: r[i] == if values[i].thread == t then Value(t, 0) else values[i]
  {
    if values == [] then []
    else
      var v := values[|values| - 1];
      Nulled(values[..|values| - 1], t) + [if v.thread == t then Value(t, 0) else v]
  }

  function NulledKey(key: Key, t: Tid): Key {
    if key.used && key.destructor.Some? then key.(values := Nulled(key.values, t)) else key
  }

  /** The table once a round has collected what is owed. */
  function Collected(keys: seq<Key>, t: Tid): (r: seq<Key>)
    ensures |r| == |keys| && forall i | 0 <= i < |r| :: r[i] == NulledKey(keys[i], t)
  {
    if keys == [] then [] else Collected(keys[..|keys| - 1], t) + [NulledKey(keys[|keys| - 1], t)]
  }

  function Without(values: seq<Value>, t: Tid): seq<Value> {
    if values == [] then []
    else
      var v := values[|values| - 1];
      Without(values[..|values| - 1], t) + if v.thread == t then [] else [v]
  }

  function Purged(keys: seq<Key>, t: Tid): (r: seq<Key>)
    ensures |r| == |keys| && forall i | 0 <= i < |r| :: r[i] == keys[i].(values := Without(keys[i].values, t))
  {
    if keys == [] then []
    else
      var k := keys[|keys| - 1];
      Purged(keys[..|keys| - 1], t) + [k.(values := Without(k.values, t))]
  }

  /** What runs in and around the i-th destructor call of a round: any function of the two. */
  type Script = (nat, nat) -> seq<Op>

  function AfterCalls(keys: seq<Key>, script: Script, round: nat, n: nat): seq<Key> {
    if n == 0 then keys else ApplyAll(AfterCalls(keys, script, round, n - 1), script(round, n - 1))
  }

  /** The table after the rounds from this one on, and the destructor calls they make. */
  function Destructed(keys: seq<Key>, t: Tid, script: Script, round: nat): (seq<Key>, seq<Call>)
    requires round <= DESTRUCTOR_ITERATIONS
    decreases DESTRUCTOR_ITERATIONS - round
  {
    if round == DESTRUCTOR_ITERATIONS then (Purged(keys, t), [])
    else
      var calls, left := Owed(keys, t), Collected(keys, t);
      if calls == [] then (left, [])
      else
        var rest := Destructed(AfterCalls(left, script, round, |calls|), t, script, round + 1);
        (rest.0, calls + rest.1)
  }

  // ---------------------------------------------------------------------------------------------
  // The table

  class PthreadKeys {
    const keys: array<Key>

    ghost predicate Valid() {
      keys.Length == KEYS_MAX
    }

    constructor ()
      ensures Valid() && fresh(keys)
      ensures keys[..] == seq(KEYS_MAX, _ => FREE)
    {
      keys := new Key[KEYS_MAX](_ => FREE);
      new;
      assert forall i | 0 <= i < KEYS_MAX :: keys[i] == FREE;
    }

    method Create(destructor: Option<Routine>) returns (key: Option<nat>)
      requires Valid()
      modifies keys
      ensures keys[..] == Created(old(keys[..]), destructor)
      ensures var i := FirstFree(old(keys[..]));
              key == if i < KEYS_MAX then Some(i) else None
    {
      var index := 0;
      assert keys[0..] == keys[..];
      while index < KEYS_MAX
        invariant 0 <= index <= KEYS_MAX && keys[..] == old(keys[..])
        invariant forall j | 0 <= j < index :: keys[j].used
      {
        if !keys[index].used {
          FirstFreeIs(keys[..], index);
          keys[index] := Key(true, destructor, []);
          return Some(index);
        }
        index := index + 1;
      }
      FirstFreeIs(keys[..], KEYS_MAX);
      key := None;
    }

    method Delete(key: int) returns (ok: bool)
      requires Valid()
      modifies keys
      ensures ok == Live(old(keys[..]), key)
      ensures keys[..] == Deleted(old(keys[..]), key)
    {
      if key < 0 || key >= KEYS_MAX || !keys[key].used {
        return false;
      }
      keys[key] := FREE;
      ok := true;
    }

    method Set(key: int, t: Tid, data: Data) returns (ok: bool)
      requires Valid()
      modifies keys
      ensures ok == Live(old(keys[..]), key)
      ensures keys[..] == Stored(old(keys[..]), key, t, data)
    {
      if key < 0 || key >= KEYS_MAX || !keys[key].used {
        return false;
      }
      var values := keys[key].values;
      var i := FindSlot(values, t);
      if i < |values| {
        values := values[i := Value(t, data)];
      } else {
        values := values + [Value(t, data)];
      }
      keys[key] := keys[key].(values := values);
      ok := true;
    }

    method Get(key: int, t: Tid) returns (data: Option<Data>)
      requires Valid()
      ensures data == Fetched(keys[..], key, t)
    {
      if key < 0 || key >= KEYS_MAX || !keys[key].used {
        return None;
      }
      var values := keys[key].values;
      var i := FindSlot(values, t);
      data := Some(if i < |values| then values[i].data else 0);
    }

    /** The rounds of destructor calls for a thread; calls lists those made, in order. */
    method Destruct(t: Tid, script: Script) returns (calls: seq<Call>)
      requires Valid()
      modifies keys
      ensures (keys[..], calls) == Destructed(old(keys[..]), t, script, 0)
    {
      hide Owed, Collected, Purged, AfterCalls;
      calls := [];
      var round: nat := 0;
      ghost var all := Destructed(keys[..], t, script, 0);
      assert [] + all.1 == all.1;
      while round < DESTRUCTOR_ITERATIONS
        invariant round <= DESTRUCTOR_ITERATIONS
        invariant Valid()
        invariant var rest := Destructed(keys[..], t, script, round);
                  all == (rest.0, calls + rest.1)
      {
        ghost var rest := Destructed(keys[..], t, script, round);
        var list := Collect(t);
        if list == [] {
          assert calls + [] == calls;
          return;
        }
        RunDestructors(script, round, |list|);
        ghost var after := Destructed(keys[..], t, script, round + 1);
        assert calls + (list + after.1) == (calls + list) + after.1;
        calls := calls + list;
        round := round + 1;
      }
      assert calls + [] == calls;
      Purge(t);
    }

    /** The first half of a round, under the lock. */
    method Collect(t: Tid) returns (list: seq<Call>)
      requires Valid()
      modifies keys
      ensures list == Owed(old(keys[..]), t)
      ensures keys[..] == Collected(old(keys[..]), t)
    {
      hide Owed, OwedIn, Nulled;
      list := [];
      var k := 0;
      OwedNone(t);
      assert old(keys[..])[..0] == [];
      while k < keys.Length
        invariant 0 <= k <= keys.Length
        invariant list == Owed(old(keys[..])[..k], t)
        invariant forall j | 0 <= j < keys.Length ::
                    keys[j] == if j < k then NulledKey(old(keys[j]), t) else old(keys[j])
      {
        OwedStep(old(keys[..]), k, t);
        var key := keys[k];
        if key.used && key.destructor.Some? {
          var more, values := CollectValues(key.destructor.value, key.values, t);
          list := list + more;
          keys[k] := key.(values := values);
        }
        k := k + 1;
      }
      assert old(keys[..])[..k] == old(keys[..]);
    }

    method CollectValues(destructor: Routine, values: seq<Value>, t: Tid) returns (list: seq<Call>, left: seq<Value>)
      ensures list == OwedIn(destructor, values, t) && left == Nulled(values, t)
    {
      list, left := [], values;
      var i := 0;
      while i < |left|
        invariant 0 <= i <= |left| == |values|
        invariant list == OwedIn(destructor, values[..i], t)
        invariant forall j | 0 <= j < |left| ::
                    left[j] == if j < i && values[j].thread == t then Value(t, 0) else values[j]
      {
        assert values[..i + 1][..i] == values[..i];
        var v := left[i];
        if v.thread == t && v.data != 0 {
          list := list + [Call(destructor, v.data)];
          left := left[i := Value(v.thread, 0)];
        }
        i := i + 1;
      }
      assert values[..i] == values;
    }

    /** The calls of a round, outside the lock, with whatever else runs meanwhile. */
    method RunDestructors(script: Script, round: nat, n: nat)
      requires Valid()
      modifies keys
      ensures keys[..] == AfterCalls(old(keys[..]), script, round, n)
    {
      var i := 0;
      while i < n
        invariant 0 <= i <= n
        invariant keys[..] == AfterCalls(old(keys[..]), script, round, i)
      {
        RunOps(script(round, i));
        i := i + 1;
      }
    }

    method RunOps(ops: seq<Op>)
      requires Valid()
      modifies keys
      ensures keys[..] == ApplyAll(old(keys[..]), ops)
    {
      var i := 0;
      while i < |ops|
        invariant 0 <= i <= |ops|
        invariant keys[..] == ApplyAll(old(keys[..]), ops[..i])
      {
        assert ops[..i + 1][..i] == ops[..i];
        match ops[i] {
          case CreateOp(destructor) => var _ := Create(destructor);
          case DeleteOp(key) => var _ := Delete(key);
          case SetOp(key, thread, data) => var _ := Set(key, thread, data);
          case CollectOp(thread) => var _ := Collect(thread);
          case PurgeOp(thread) => Purge(thread);
        }
        i := i + 1;
      }
      assert ops[..i] == ops;
    }

    method Purge(t: Tid)
      requires Valid()
      modifies keys
      ensures keys[..] == Purged(old(keys[..]), t)
    {
      var k := 0;
      while k < keys.Length
        invariant 0 <= k <= keys.Length
        invariant forall j | 0 <= j < keys.Length ::
                    keys[j] == if j < k then old(keys[j]).(values := Without(old(keys[j]).values, t)) else old(keys[j])
      {
        keys[k] := keys[k].(values := Without(keys[k].values, t));
        k := k + 1;
      }
    }
  }

  method FindSlot(values: seq<Value>, t: Tid) returns (i: nat)
    ensures i == Slot(values, t)
  {
    i := 0;
    while i < |values| && values[i].thread != t
      invariant i <= |values|
      invariant forall j | 0 <= j < i :: values[j].thread != t
    {
      i := i + 1;
    }
  }

  lemma OwedNone(t: Tid)
    ensures Owed([], t) == []
  {
  }

  lemma OwedStep(keys: seq<Key>, k: nat, t: Tid)
    requires k < |keys|
    ensures Owed(keys[..k + 1], t) == Owed(keys[..k], t) + OwedBy(keys[k], t)
    ensures OwedBy(keys[k], t) == [] ==> Owed(keys[..k + 1], t) == Owed(keys[..k], t)
  {
    assert keys[..k + 1][..k] == keys[..k];
  }

  lemma FirstFreeIs(keys: seq<Key>, i: nat)
    requires i <= |keys| && (i < |keys| ==> !keys[i].used)
    requires forall j | 0 <= j < i :: keys[j].used
    ensures FirstFree(keys) == i
  {
    hide FirstFree;
    var f := FirstFree(keys);
    assert i <= f;
  }
}
