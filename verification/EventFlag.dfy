/**
 The guest event flag (src/kernel/eventFlag.cpp): a 64-bit pattern that threads set, clear and wait on,
 with a status that turns waiters away while a cancel or the destructor drains them.
 */
module EventFlag {
  import opened Common

  datatype Result = Ok | AlreadyWaiting | TimedOut | Canceled | Deleted

  datatype WaitMode = And | Or

  datatype ClearMode = KeepBits | ClearAll | ClearBits

  datatype Status = Set | Canceling | Deleting

  /** One wait call; micros is None when the caller waits without a time limit. */
  datatype Request = Request(bits: bv64, wait: WaitMode, clear: ClearMode, micros: Option<nat>)

  datatype View = View(single: bool, status: Status, waiting: int, bits: bv64)

  /** A critical section of a wait: it sleeps, or returns a result, a pattern and the time left. */
  datatype Pass = Sleep | Return(result: Result, pattern: Option<bv64>, left: Option<nat>)

  // ---------------------------------------------------------------------------------------------
  // Critical sections

  predicate Matches(bits: bv64, r: Request) {
    (r.wait == And && AllIn(bits, r.bits)) || (r.wait == Or && AnyIn(bits, r.bits))
  }

  predicate AllIn(bits: bv64, asked: bv64) { bits & asked == asked }

  predicate AnyIn(bits: bv64, asked: bv64) { bits & asked != 0 }

  predicate Expired(r: Request, elapsed: nat) {
    r.micros.Some? && elapsed >= r.micros.value
  }

  function Left(r: Request, elapsed: nat): Option<nat> {
    if r.micros == None then None
    else Some(if elapsed >= r.micros.value then 0 else r.micros.value - elapsed)
  }

  function Without(a: bv64, b: bv64): bv64 { a & !b }

  function Cleared(bits: bv64, r: Request): bv64 {
    match r.clear
    case KeepBits => bits
    case ClearAll => 0
    case ClearBits => Without(bits, r.bits)
  }

  /** The top of the wait loop: a match beats the time limit. */
  function Attempt(v: View, r: Request, elapsed: nat): (View, Pass) {
    if Matches(v.bits, r) then
      (v.(bits := Cleared(v.bits, r)), Return(Ok, Some(v.bits), Left(r, elapsed)))
    else if Expired(r, elapsed) then (v, Return(TimedOut, Some(v.bits), Left(r, elapsed)))
    else (v.(waiting := v.waiting + 1), Sleep)
  }

  function WaitEntry(v: View, r: Request): (View, Pass) {
    if v.single && v.waiting > 0 then (v, Return(AlreadyWaiting, None, None)) else Attempt(v, r, 0)
  }

  function WaitResume(v: View, r: Request, elapsed: nat): (View, Pass) {
    var w := v.(waiting := v.waiting - 1);
    match v.status
    case Canceling => (w, Return(Canceled, Some(v.bits), Left(r, elapsed)))
    case Deleting => (w, Return(Deleted, Some(v.bits), Left(r, elapsed)))
    case Set => Attempt(w, r, elapsed)
  }

  function Union(a: bv64, b: bv64): bv64 { a | b }

  function Intersection(a: bv64, b: bv64): bv64 { a & b }

  /** What empties the flag of its waiters. */
  datatype Cause = Cancel(bits: bv64) | Delete

  function Draining(cause: Cause): Status {
    if cause.Cancel? then Canceling else Deleting
  }

  function DrainBegin(v: View, cause: Cause): View {
    v.(status := Draining(cause), bits := if cause.Cancel? then cause.bits else v.bits)
  }

  /** A drain is over when nobody waits; the flag is usable again unless it is being destroyed. */
  function DrainEnd(v: View, cause: Cause): View {
    if cause.Cancel? then v.(status := Set) else v
  }

  class EventFlagObject {
    const single: bool
    var status: Status
    var waiting: int
    var bits: bv64

    function Value(): View
      reads this
    {
      View(single, status, waiting, bits)
    }

    constructor (single: bool, bits: bv64)
      ensures Value() == View(single, Set, 0, bits)
    {
      this.single, this.bits, status, waiting := single, bits, Set, 0;
    }

    method AttemptOnce(r: Request, elapsed: nat) returns (p: Pass)
      modifies this
      ensures (Value(), p) == Attempt(old(Value()), r, elapsed)
    {
      hide Matches;
      if !Matches(bits, r) {
        if r.micros.Some? && elapsed >= r.micros.value {
          return Return(TimedOut, Some(bits), Left(r, elapsed));
        }
        waiting := waiting + 1;
        return Sleep;
      }
      p := Return(Ok, Some(bits), Left(r, elapsed));
      match r.clear {
        case ClearAll => bits := 0;
        case ClearBits => bits := bits & !r.bits;
        case KeepBits =>
      }
    }

    /** From the call of Wait until it returns or first sleeps. */
    method Enter(r: Request) returns (p: Pass)
      modifies this
      ensures (Value(), p) == WaitEntry(old(Value()), r)
    {
      if single && waiting > 0 {
        return Return(AlreadyWaiting, None, None);
      }
      p := AttemptOnce(r, 0);
    }

    /** From waking up inside Wait until it returns or sleeps again. */
    method Resume(r: Request, elapsed: nat) returns (p: Pass)
      modifies this
      ensures (Value(), p) == WaitResume(old(Value()), r, elapsed)
    {
      waiting := waiting - 1;
      match status {
        case Canceling => p := Return(Canceled, Some(bits), Left(r, elapsed));
        case Deleting => p := Return(Deleted, Some(bits), Left(r, elapsed));
        case Set => p := AttemptOnce(r, elapsed);
      }
    }

    /** One pass of Set; it is done unless a drain is under way. */
    method SetBits(b: bv64) returns (done: bool)
      modifies this
      ensures done <==> old(status) == Set
      ensures Value() == if done then old(Value()).(bits := Union(old(bits), b)) else old(Value())
    {
      done := status == Set;
      if done {
        bits := bits | b;
      }
    }

    /** One pass of Clear, which keeps the bits it is given. */
    method ClearBits(b: bv64) returns (done: bool)
      modifies this
      ensures done <==> old(status) == Set
      ensures Value() == if done then old(Value()).(bits := Intersection(old(bits), b)) else old(Value())
    {
      done := status == Set;
      if done {
        bits := bits & b;
      }
    }

    /** One pass of Cancel or the destructor before its drain; num is the count handed to the caller. */
    method BeginDrain(cause: Cause) returns (begun: bool, num: int, ended: bool)
      modifies this
      ensures begun <==> old(status) == Set
      ensures ended <==> begun && old(waiting) <= 0
      ensures begun ==> num == old(waiting)
      ensures Value() == if !begun then old(Value())
                         else if !ended then DrainBegin(old(Value()), cause)
                         else DrainEnd(DrainBegin(old(Value()), cause), cause)
    {
      begun, num, ended := status == Set, waiting, false;
      if begun {
        status := Draining(cause);
        if cause.Cancel? {
          bits := cause.bits;
        }
        ended := PollDrain(cause);
      }
    }

    /** One pass of the drain loop. */
    method PollDrain(cause: Cause) returns (ended: bool)
      modifies this
      ensures ended <==> old(waiting) <= 0
      ensures Value() == if ended then DrainEnd(old(Value()), cause) else old(Value())
    {
      ended := waiting <= 0;
      if ended && cause.Cancel? {
        status := Set;
      }
    }
  }

  // ---------------------------------------------------------------------------------------------
  // Single bits

  /** A mask of exactly one bit. */
  predicate OneBit(m: bv64) {
    m != 0 && m & (m - 1) == 0
  }

  predicate Has(bits: bv64, m: bv64) {
    bits & m != 0
  }

  /** A one-bit mask meets a pattern in the whole mask or not at all. */
  lemma OneBitMeets(a: bv64, m: bv64)
    requires OneBit(m)
    ensures a & m == 0 || a & m == m
  {
  }

  lemma OrIsZero(a: bv64, b: bv64)
    ensures a | b == 0 <==> a == 0 && b == 0
  {
  }

  lemma OrDistributes(a: bv64, b: bv64, m: bv64)
    ensures (a | b) & m == (a & m) | (b & m)
  {
  }

  lemma HasEither(a: bv64, b: bv64, m: bv64)
    ensures Has(a | b, m) <==> Has(a, m) || Has(b, m)
  {
    OrDistributes(a, b, m);
    OrIsZero(a & m, b & m);
  }

  lemma HasOr(a: bv64, b: bv64, m: bv64)
    ensures Has(Union(a, b), m) <==> Has(a, m) || Has(b, m)
  {
    hide Has;
    HasEither(a, b, m);
  }

  lemma HasAnd(a: bv64, b: bv64, m: bv64)
    requires OneBit(m)
    ensures Has(Intersection(a, b), m) <==> Has(a, m) && Has(b, m)
  {
    OneBitMeets(a, m);
    OneBitMeets(b, m);
    assert (a & b) & m == (a & m) & (b & m);
  }

  lemma HasWithout(a: bv64, b: bv64, m: bv64)
    requires OneBit(m)
    ensures Has(Without(a, b), m) <==> Has(a, m) && !Has(b, m)
  {
    OneBitMeets(a, m);
    OneBitMeets(b, m);
    assert (a & !b) & m == (a & m) & !(b & m);
  }

  lemma HasNothing(m: bv64)
    ensures !Has(0, m)
  {
  }

  /** What the clear mode leaves of a bit. */
  lemma HasCleared(a: bv64, r: Request, m: bv64)
    requires OneBit(m)
    ensures Has(Cleared(a, r), m)
            <==> Has(a, m) && r.clear != ClearAll && (r.clear == ClearBits ==> !Has(r.bits, m))
  {
    hide Has, OneBit, Without;
    HasWithout(a, r.bits, m);
    HasNothing(m);
  }

  // ---------------------------------------------------------------------------------------------
  // What a wait asks for, bit by bit

  /** An And wait asks for every bit of its pattern, an Or wait for any. */
  ghost predicate Satisfied(bits: bv64, r: Request) {
    match r.wait
    case And => EveryBit(bits, r.bits)
    case Or => SomeBit(bits, r.bits)
  }

  ghost predicate EveryBit(bits: bv64, asked: bv64) {
    forall m | OneBit(m) && Has(asked, m) :: Has(bits, m)
  }

  ghost predicate SomeBit(bits: bv64, asked: bv64) {
    exists m :: OneBit(m) && Has(asked, m) && Has(bits, m)
  }

  /** The lowest bit of a pattern. */
  function Lowest(x: bv64): bv64 {
    x & (!x + 1)
  }

  lemma LowestIsOneBit(x: bv64)
    requires x != 0
    ensures OneBit(Lowest(x))
  {
  }

  lemma LowestIsThere(x: bv64)
    ensures x & Lowest(x) == Lowest(x)
  {
  }

  lemma LowestHas(x: bv64)
    requires x != 0
    ensures OneBit(Lowest(x)) && Has(x, Lowest(x))
  {
    hide Lowest;
    LowestIsOneBit(x);
    LowestIsThere(x);
  }

  lemma AllOrMissing(bits: bv64, asked: bv64)
    ensures bits & asked == asked <==> Without(asked, bits) == 0
  {
    Parts(bits, asked);
    if bits & asked == asked {
      NoneMissing(bits, asked);
    }
  }

  lemma Parts(bits: bv64, asked: bv64)
    ensures Without(asked, bits) == 0 ==> bits & asked == asked
  {
    assert (bits & asked) | (asked & !bits) == asked;
  }

  lemma NoneMissing(bits: bv64, asked: bv64)
    requires bits & asked == asked
    ensures Without(asked, bits) == 0
  {
    assert asked & !bits == (bits & asked) & !bits;
  }

  /** The test of the wait loop is what the wait asks for. */
  lemma MatchIsSatisfied(bits: bv64, r: Request)
    ensures Matches(bits, r) <==> Satisfied(bits, r)
  {
    hide AllIn, AnyIn, EveryBit, SomeBit;
    match r.wait
    case And => AndIsAll(bits, r.bits);
    case Or => OrIsAny(bits, r.bits);
  }

  lemma AndIsAll(bits: bv64, asked: bv64)
    ensures AllIn(bits, asked) <==> EveryBit(bits, asked)
  {
    hide OneBit, Has, Without, Lowest;
    AllOrMissing(bits, asked);
    var missing := Without(asked, bits);
    if missing != 0 {
      LowestHas(missing);
      HasWithout(asked, bits, Lowest(missing));
    } else {
      forall m | OneBit(m) && Has(asked, m) ensures Has(bits, m) {
        HasWithout(asked, bits, m);
        HasNothing(m);
      }
    }
  }

  lemma OrIsAny(bits: bv64, asked: bv64)
    ensures AnyIn(bits, asked) <==> SomeBit(bits, asked)
  {
    hide OneBit, Has, Lowest;
    var common := Intersection(bits, asked);
    assert common == bits & asked;
    hide Intersection;
    if common != 0 {
      LowestHas(common);
      HasAnd(bits, asked, Lowest(common));
    } else {
      forall m | OneBit(m) ensures !(Has(asked, m) && Has(bits, m)) {
        HasAnd(bits, asked, m);
        HasNothing(m);
      }
    }
  }
}
