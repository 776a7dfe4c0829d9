/**
 Runs of any number of threads over one event flag.

 Every step is one critical section of EventFlag and records what it did.  The log alone tells what the
 bits, the status and the sleepers are at each point; a lawful log is one in which each event is the
 right one at that point, and the theorems read what follows from every log a run can produce.
 */
module EventFlagRuns {
  import opened Common
  import opened EventFlag

  type Tid = nat

  datatype Event =
      // elapsed is the time since the wait was called; left is what it reports of its limit
    | Slept(t: Tid, request: Request, elapsed: nat)
    | Returned(t: Tid, request: Request, result: Result, pattern: Option<bv64>, elapsed: nat, left: Option<nat>)
    | Supplied(bits: bv64)
    | Masked(bits: bv64)
    | DrainBegan(c: Tid, cause: Cause, num: int)
    | DrainEnded(c: Tid, cause: Cause)

  /** The flag, the sleeping waits, the drains in progress, and whether the flag was destroyed. */
  datatype State = State(flag: View, section: map<Tid, Request>, drains: map<Tid, Cause>, gone: bool,
                         log: seq<Event>)

  datatype Action =
    | Wait(t: Tid, request: Request)
    | Resume(t: Tid, elapsed: nat)
    | SetBits(bits: bv64)
    | ClearBits(bits: bv64)
    | Drain(c: Tid, cause: Cause)
    | PollDrain(c: Tid)

  // ---------------------------------------------------------------------------------------------
  // Steps

  /** A thread inside a wait or a drain makes no other call; a destroyed flag gets no call. */
  ghost predicate Enabled(s: State, a: Action) {
    match a
    case Wait(t, _) => !s.gone && t !in s.section && t !in s.drains
    case Resume(t, _) => t in s.section
    case SetBits(_) => !s.gone
    case ClearBits(_) => !s.gone
    case Drain(c, _) => !s.gone && c !in s.section && c !in s.drains
    case PollDrain(c) => c in s.drains
  }

  function AfterPass(s: State, t: Tid, request: Request, elapsed: nat, r: (View, Pass)): State {
    s.(flag := r.0,
       section := if r.1.Sleep? then s.section[t := request] else s.section - {t},
       log := s.log + [PassEvent(t, request, elapsed, r.1)])
  }

  function PassEvent(t: Tid, request: Request, elapsed: nat, p: Pass): Event {
    match p
    case Sleep => Slept(t, request, elapsed)
    case Return(result, pattern, left) => Returned(t, request, result, pattern, elapsed, left)
  }

  function Begin(s: State, c: Tid, cause: Cause): State {
    s.(flag := DrainBegin(s.flag, cause), drains := s.drains[c := cause],
       log := s.log + [DrainBegan(c, cause, s.flag.waiting)])
  }

  /** A drain ends only once nobody waits. */
  function EndIfEmpty(s: State, c: Tid): State
    requires c in s.drains
  {
    var cause := s.drains[c];
    if s.flag.waiting > 0 then s
    else s.(flag := DrainEnd(s.flag, cause), drains := s.drains - {c}, gone := cause.Delete?,
            log := s.log + [DrainEnded(c, cause)])
  }

  /** Set, Clear, Cancel and the destructor do nothing but try again later while a drain is on. */
  ghost function Next(s: State, a: Action): State
    requires Enabled(s, a)
  {
    match a
    case Wait(t, request) => AfterPass(s, t, request, 0, WaitEntry(s.flag, request))
    case Resume(t, elapsed) => AfterPass(s, t, s.section[t], elapsed, WaitResume(s.flag, s.section[t], elapsed))
    case SetBits(bits) =>
      if s.flag.status != Set then s
      else s.(flag := s.flag.(bits := Union(s.flag.bits, bits)), log := s.log + [Supplied(bits)])
    case ClearBits(bits) =>
      if s.flag.status != Set then s
      else s.(flag := s.flag.(bits := Intersection(s.flag.bits, bits)), log := s.log + [Masked(bits)])
    case Drain(c, cause) => if s.flag.status != Set then s else EndIfEmpty(Begin(s, c, cause), c)
    case PollDrain(c) => EndIfEmpty(s, c)
  }

  ghost predicate CanRun(s: State, acts: seq<Action>)
    decreases |acts|
  {
    acts == [] || (Enabled(s, acts[0]) && CanRun(Next(s, acts[0]), acts[1..]))
  }

  ghost function Run(s: State, acts: seq<Action>): State
    requires CanRun(s, acts)
    decreases |acts|
  {
    if acts == [] then s else Run(Next(s, acts[0]), acts[1..])
  }

  function Start(single: bool, bits: bv64): State {
    State(View(single, Set, 0, bits), map[], map[], false, [])
  }

  // ---------------------------------------------------------------------------------------------
  // What a log says

  function SleepersBy(e: Event, before: set<Tid>): set<Tid> {
    match e
    case Slept(t, _, _) => before + {t}
    case Returned(t, _, _, _, _, _) => before - {t}
    case _ => before
  }

  function DrainBy(e: Event, before: Option<(Tid, Cause)>): Option<(Tid, Cause)> {
    match e
    case DrainBegan(c, cause, _) => Some((c, cause))
    case DrainEnded(_, _) => None
    case _ => before
  }

  function BitsBy(e: Event, before: bv64): bv64 {
    match e
    case Returned(_, request, result, _, _, _) => if result == Ok then Cleared(before, request) else before
    case Supplied(bits) => Union(before, bits)
    case Masked(bits) => Intersection(before, bits)
    case DrainBegan(_, cause, _) => if cause.Cancel? then cause.bits else before
    case _ => before
  }

  /** The threads asleep in a wait. */
  function Sleepers(log: seq<Event>): set<Tid> {
    if log == [] then {} else SleepersBy(Last(log), Sleepers(Butlast(log)))
  }

  /** The drain in progress, if any: who runs it and why. */
  function DrainOf(log: seq<Event>): Option<(Tid, Cause)> {
    if log == [] then None else DrainBy(Last(log), DrainOf(Butlast(log)))
  }

  /** The pattern, starting from the given one. */
  function BitsAfter(start: bv64, log: seq<Event>): bv64 {
    if log == [] then start else BitsBy(Last(log), BitsAfter(start, Butlast(log)))
  }

  /** What a drain answers the waits it turns away. */
  function Answer(cause: Cause): Result {
    if cause.Cancel? then Canceled else Deleted
  }

  /**
   The result a wait must return at this point.  A thread that was asleep is turned away by a drain in
   progress whatever the bits are; otherwise a satisfied wait is Ok, and only failing that its time limit
   counts.  A new wait on a single-thread flag is refused while another thread sleeps on it.
   */
  ghost predicate RightResult(single: bool, start: bv64, log: seq<Event>, t: Tid, request: Request, elapsed: nat,
                              result: Result) {
    var asleep, drain := t in Sleepers(log), DrainOf(log);
    if asleep && drain.Some? then result == Answer(drain.value.1)
    else if !asleep && single && Sleepers(log) != {} then result == AlreadyWaiting
    else if Satisfied(BitsAfter(start, log), request) then result == Ok
    else result == TimedOut && LimitPassed(request, elapsed)
  }

  ghost predicate LimitPassed(request: Request, elapsed: nat) {
    match request.micros
    case None => false
    case Some(limit) => limit <= elapsed
  }

  /** The time left is what is missing from the limit, if there is one. */
  ghost predicate RightLeft(request: Request, elapsed: nat, left: Option<nat>) {
    match request.micros
    case None => left == None
    case Some(limit) => left.Some? && if elapsed < limit then elapsed + left.value == limit else left.value == 0
  }

  /** The event is a right one after this log. */
  ghost predicate Law(single: bool, start: bv64, log: seq<Event>, e: Event) {
    match e
    case Slept(t, request, elapsed) =>
      && !Satisfied(BitsAfter(start, log), request) && !LimitPassed(request, elapsed)
      && (if t in Sleepers(log) then DrainOf(log) == None else elapsed == 0)
      && (single ==> Sleepers(log) <= {t})
    case Returned(t, request, result, pattern, elapsed, left) =>
      && RightResult(single, start, log, t, request, elapsed, result)
      && (t !in Sleepers(log) ==> elapsed == 0)
      && pattern == (if result == AlreadyWaiting then None else Some(BitsAfter(start, log)))
      && (if result == AlreadyWaiting then left == None else RightLeft(request, elapsed, left))
    case Supplied(_) => DrainOf(log) == None
    case Masked(_) => DrainOf(log) == None
    case DrainBegan(c, cause, num) => DrainOf(log) == None && num == |Sleepers(log)|
    case DrainEnded(c, cause) => DrainOf(log) == Some((c, cause)) && Sleepers(log) == {}
  }

  ghost predicate Lawful(single: bool, start: bv64, log: seq<Event>) {
    log == [] || (Lawful(single, start, Butlast(log)) && Law(single, start, Butlast(log), Last(log)))
  }

  // ---------------------------------------------------------------------------------------------
  // The invariant

  function StatusOf(drain: Option<(Tid, Cause)>): Status {
    if drain == None then Set else Draining(drain.value.1)
  }

  function DrainsOf(drain: Option<(Tid, Cause)>): map<Tid, Cause> {
    if drain == None then map[] else map[drain.value.0 := drain.value.1]
  }

  /** The fields are what the log says, until the flag is destroyed. */
  ghost predicate Agrees(start: bv64, s: State) {
    && s.section.Keys == Sleepers(s.log)
    && s.flag.waiting == |Sleepers(s.log)|
    && s.flag.bits == BitsAfter(start, s.log)
    && s.drains == DrainsOf(DrainOf(s.log))
    && (if s.gone then s.flag.status == Deleting && Sleepers(s.log) == {} && DrainOf(s.log) == None
        else s.flag.status == StatusOf(DrainOf(s.log)))
    && (s.flag.single ==> |Sleepers(s.log)| <= 1)
  }

  ghost predicate Inv(single: bool, start: bv64, s: State) {
    s.flag.single == single && Agrees(start, s) && Lawful(single, start, s.log)
  }

  lemma LogStep(single: bool, start: bv64, log: seq<Event>, e: Event)
    ensures var l := log + [e];
            && (Lawful(single, start, l) <==> Lawful(single, start, log) && Law(single, start, log, e))
            && Sleepers(l) == SleepersBy(e, Sleepers(log))
            && DrainOf(l) == DrainBy(e, DrainOf(log))
            && BitsAfter(start, l) == BitsBy(e, BitsAfter(start, log))
  {
    hide Law, SleepersBy, DrainBy, BitsBy;
    assert Butlast(log + [e]) == log;
    assert Last(log + [e]) == e;
  }

  lemma Lone(a: set<Tid>, t: Tid)
    ensures |a + {t}| == |a| + (if t in a then 0 else 1)
    ensures |a - {t}| == |a| - (if t in a then 1 else 0)
    ensures |a| <= 1 && t in a ==> a == {t}
    ensures a <= {t} ==> |a| <= 1
  {
    if t in a {
      assert a + {t} == a;
      assert a == (a - {t}) + {t};
      if |a| <= 1 {
        assert a - {t} == {};
      }
    } else {
      assert a - {t} == a;
      if a <= {t} {
        assert a == {};
      }
    }
    if a <= {t} && t in a {
      assert a == {t};
    }
  }

  /** A pass of a thread that is, or is not, already asleep. */
  function PassOf(v: View, request: Request, asleep: bool, elapsed: nat): (View, Pass) {
    if asleep then WaitResume(v, request, elapsed) else WaitEntry(v, request)
  }

  /** A new wait has taken no time; a destroyed flag has none. */
  ghost predicate MayPass(s: State, t: Tid, elapsed: nat) {
    t in s.section || (!s.gone && elapsed == 0)
  }

  /** The answer of a pass is right, or the thread may sleep. */
  lemma PassIsRight(single: bool, start: bv64, s: State, t: Tid, request: Request, elapsed: nat, r: (View, Pass))
    requires Inv(single, start, s) && MayPass(s, t, elapsed)
    requires r == PassOf(s.flag, request, t in s.section, elapsed)
    ensures Law(single, start, s.log, PassEvent(t, request, elapsed, r.1))
    ensures r.1.Sleep? && single ==> Sleepers(s.log) <= {t}
  {
    hide Matches, Satisfied, Cleared, Lawful, BitsAfter, Sleepers, DrainOf, Union, Intersection;
    MatchIsSatisfied(s.flag.bits, request);
    Lone(Sleepers(s.log), t);
  }

  lemma AttemptEffect(v: View, request: Request, elapsed: nat)
    ensures var r := Attempt(v, request, elapsed);
            match r.1
            case Sleep => r.0 == v.(waiting := v.waiting + 1)
            case Return(result, _, _) =>
              r.0 == if result == Ok then v.(bits := Cleared(v.bits, request)) else v
  {
    hide Satisfied, Cleared, Expired, Left;
  }

  /** What a pass does to the fields. */
  lemma PassEffect(v: View, request: Request, asleep: bool, elapsed: nat, r: (View, Pass))
    requires r == PassOf(v, request, asleep, elapsed)
    ensures r.0.single == v.single && r.0.status == v.status
    ensures r.0.waiting == v.waiting - (if asleep then 1 else 0) + (if r.1.Sleep? then 1 else 0)
    ensures r.0.bits == if r.1.Return? && r.1.result == Ok then Cleared(v.bits, request) else v.bits
  {
    hide Attempt, Cleared, Left;
    AttemptEffect(v, request, 0);
    AttemptEffect(v.(waiting := v.waiting - 1), request, elapsed);
  }

  /** The event of a pass, for the sleepers, the drain and the bits. */
  lemma PassRecords(t: Tid, request: Request, elapsed: nat, p: Pass, before: set<Tid>, drain: Option<(Tid, Cause)>,
                    bits: bv64)
    ensures var e := PassEvent(t, request, elapsed, p);
            && SleepersBy(e, before) == (if p.Sleep? then before + {t} else before - {t})
            && DrainBy(e, drain) == drain
            && BitsBy(e, bits) == (if p.Return? && p.result == Ok then Cleared(bits, request) else bits)
  {
    hide Cleared;
  }

  lemma SectionAfter(section: map<Tid, Request>, t: Tid, request: Request)
    ensures section[t := request].Keys == section.Keys + {t}
    ensures (section - {t}).Keys == section.Keys - {t}
  {
  }

  /** The fields still agree with the log, given what the pass does to each. */
  lemma PassAgrees(start: bv64, s: State, s': State, t: Tid, p: Pass)
    requires Agrees(start, s) && s'.drains == s.drains && s'.gone == s.gone
    requires t in s.section || !s.gone
    requires s'.section.Keys == Sleepers(s'.log)
             == if p.Sleep? then Sleepers(s.log) + {t} else Sleepers(s.log) - {t}
    requires DrainOf(s'.log) == DrainOf(s.log) && s'.flag.bits == BitsAfter(start, s'.log)
    requires s'.flag.single == s.flag.single && s'.flag.status == s.flag.status
    requires s'.flag.waiting
             == s.flag.waiting - (if t in Sleepers(s.log) then 1 else 0) + (if p.Sleep? then 1 else 0)
    requires p.Sleep? && s.flag.single ==> Sleepers(s.log) <= {t}
    ensures Agrees(start, s')
  {
    hide BitsAfter, Sleepers, DrainOf, DrainsOf, StatusOf;
    Lone(Sleepers(s.log), t);
  }

  lemma PassKeepsInv(single: bool, start: bv64, s: State, t: Tid, request: Request, elapsed: nat, r: (View, Pass))
    requires Inv(single, start, s) && MayPass(s, t, elapsed)
    requires r == PassOf(s.flag, request, t in s.section, elapsed)
    ensures Inv(single, start, AfterPass(s, t, request, elapsed, r))
  {
    PassIsRight(single, start, s, t, request, elapsed, r);
    hide Cleared, Lawful, Law, BitsAfter, Sleepers, DrainOf, PassOf, PassEvent, SleepersBy, DrainBy, BitsBy;
    PassEffect(s.flag, request, t in s.section, elapsed, r);
    PassRecords(t, request, elapsed, r.1, Sleepers(s.log), DrainOf(s.log), BitsAfter(start, s.log));
    LogStep(single, start, s.log, PassEvent(t, request, elapsed, r.1));
    SectionAfter(s.section, t, request);
    PassAgrees(start, s, AfterPass(s, t, request, elapsed, r), t, r.1);
  }

  lemma BeginKeepsInv(single: bool, start: bv64, s: State, c: Tid, cause: Cause)
    requires Inv(single, start, s) && !s.gone && s.flag.status == Set
    ensures Inv(single, start, Begin(s, c, cause))
  {
    hide Satisfied, Cleared, Lawful, BitsAfter, Sleepers, DrainOf, Union, Intersection;
    LogStep(single, start, s.log, DrainBegan(c, cause, s.flag.waiting));
    assert s.drains[c := cause] == map[c := cause];
  }

  lemma EndKeepsInv(single: bool, start: bv64, s: State, c: Tid)
    requires Inv(single, start, s) && c in s.drains
    ensures Inv(single, start, EndIfEmpty(s, c))
  {
    hide Satisfied, Cleared, Lawful, BitsAfter, Sleepers, DrainOf, Union, Intersection;
    LogStep(single, start, s.log, DrainEnded(c, s.drains[c]));
    assert s.drains - {c} == map[];
  }

  lemma StepKeepsInv(single: bool, start: bv64, s: State, a: Action)
    requires Inv(single, start, s) && Enabled(s, a)
    ensures Inv(single, start, Next(s, a))
  {
    hide Satisfied, Cleared, Lawful, BitsAfter, Sleepers, DrainOf, Union, Intersection;
    match a
    case Wait(t, request) => PassKeepsInv(single, start, s, t, request, 0, WaitEntry(s.flag, request));
    case Resume(t, elapsed) =>
      PassKeepsInv(single, start, s, t, s.section[t], elapsed, WaitResume(s.flag, s.section[t], elapsed));
    case SetBits(bits) => LogStep(single, start, s.log, Supplied(bits));
    case ClearBits(bits) => LogStep(single, start, s.log, Masked(bits));
    case Drain(c, cause) =>
      if s.flag.status == Set {
        BeginKeepsInv(single, start, s, c, cause);
        EndKeepsInv(single, start, Begin(s, c, cause), c);
      }
    case PollDrain(c) => EndKeepsInv(single, start, s, c);
  }

  lemma {:induction false} RunKeepsInv(single: bool, start: bv64, s: State, acts: seq<Action>)
    requires Inv(single, start, s) && CanRun(s, acts)
    ensures Inv(single, start, Run(s, acts))
    decreases |acts|
  {
    hide Inv, Next, Enabled;
    if acts != [] {
      StepKeepsInv(single, start, s, acts[0]);
      RunKeepsInv(single, start, Next(s, acts[0]), acts[1..]);
    }
  }

  lemma RunIsLawful(single: bool, start: bv64, acts: seq<Action>)
    requires CanRun(Start(single, start), acts)
    ensures Inv(single, start, Run(Start(single, start), acts))
  {
    RunKeepsInv(single, start, Start(single, start), acts);
  }

  lemma {:induction false} LawAt(single: bool, start: bv64, log: seq<Event>, j: nat)
    requires Lawful(single, start, log) && j <= |log|
    ensures Lawful(single, start, log[..j])
    ensures j < |log| ==> Law(single, start, log[..j], log[j])
  {
    hide Law;
    if j < |log| - 1 {
      LawAt(single, start, Butlast(log), j);
      assert Butlast(log)[..j] == log[..j];
    } else if j == |log| {
      assert log[..j] == log;
    }
  }

  // ---------------------------------------------------------------------------------------------
  // Theorems

  /**
   Every wait of a run returns the right result for its moment, with the pattern of that moment and the
   time left: an Ok wait found what it asked for, bit by bit; a TimedOut one did not, and its limit had
   passed; and nobody sleeps on what it asked for, or past its limit.
   */
  lemma WaitsAreRight(single: bool, start: bv64, acts: seq<Action>, j: nat)
    requires CanRun(Start(single, start), acts) && j < |Run(Start(single, start), acts).log|
    ensures var log := Run(Start(single, start), acts).log;
            var e, bits := log[j], BitsAfter(start, log[..j]);
            && (e.Returned? ==>
                  && RightResult(single, start, log[..j], e.t, e.request, e.elapsed, e.result)
                  && e.pattern == (if e.result == AlreadyWaiting then None else Some(bits))
                  && (if e.result == AlreadyWaiting then e.left == None else RightLeft(e.request, e.elapsed, e.left))
                  && (e.result == Ok ==> Satisfied(bits, e.request))
                  && (e.result == TimedOut ==> !Satisfied(bits, e.request) && LimitPassed(e.request, e.elapsed)))
            && (e.Slept? ==> !Satisfied(bits, e.request) && !LimitPassed(e.request, e.elapsed))
  {
    hide Satisfied, Run, CanRun;
    RunIsLawful(single, start, acts);
    LawAt(single, start, Run(Start(single, start), acts).log, j);
  }

  /** The status is Canceling exactly while one canceller drains; the count is the number of sleepers. */
  lemma StatusTellsDrains(single: bool, start: bv64, acts: seq<Action>)
    requires CanRun(Start(single, start), acts)
    ensures var s := Run(Start(single, start), acts);
            && |s.drains| <= 1
            && (s.flag.status == Canceling <==> exists c :: c in s.drains && s.drains[c].Cancel?)
            && (s.flag.status == Deleting <==> s.gone || exists c :: c in s.drains && s.drains[c].Delete?)
            && s.flag.waiting == |s.section|
            && s.section.Keys == Sleepers(s.log)
            && s.flag.bits == BitsAfter(start, s.log)
            && (single ==> s.flag.waiting <= 1)
            && (s.gone ==> s.section == map[])
  {
    RunIsLawful(single, start, acts);
    hide Run, CanRun, Lawful, BitsAfter, Sleepers;
    var s := Run(Start(single, start), acts);
    assert |s.section.Keys| == |s.section|;
    match DrainOf(s.log)
    case Some(d) => assert d.0 in s.drains;
    case None =>
  }

  /** How the wait that t was in when the log had length i came out, if it has. */
  function Outcome(log: seq<Event>, i: nat, t: Tid): Option<Result> {
    if |log| <= i then None
    else match Outcome(Butlast(log), i, t)
      case Some(r) => Some(r)
      case None => if Last(log).Returned? && Last(log).t == t then Some(Last(log).result) else None
  }

  /** A thread asleep when a drain begins is turned away by it, and the drain outlasts its wait. */
  lemma {:induction false} TurnedAway(single: bool, start: bv64, log: seq<Event>, i: nat, t: Tid)
    requires Lawful(single, start, log) && i < |log| && log[i].DrainBegan?
    requires t in Sleepers(log[..i])
    ensures match Outcome(log, i, t)
            case Some(r) => r == Answer(log[i].cause)
            case None => t in Sleepers(log) && DrainOf(log) == Some((log[i].c, log[i].cause))
  {
    hide Satisfied, Cleared, BitsAfter, BitsBy;
    if i < |log| - 1 {
      assert Butlast(log)[..i] == log[..i];
      assert Butlast(log)[i] == log[i];
      TurnedAway(single, start, Butlast(log), i, t);
    } else {
      assert log[..i] == Butlast(log);
      assert Outcome(Butlast(log), i, t) == None;
    }
  }

  /**
   Cancel and the destructor: the count handed out is the number of threads waiting, every one of them
   returns Canceled or Deleted, and by the time the drain is over all of them have.
   */
  lemma DrainReleasesAll(single: bool, start: bv64, acts: seq<Action>, i: nat, j: nat)
    requires CanRun(Start(single, start), acts)
    requires i < j < |Run(Start(single, start), acts).log|
    requires var log := Run(Start(single, start), acts).log;
             log[i].DrainBegan? && log[j] == DrainEnded(log[i].c, log[i].cause)
    ensures var log := Run(Start(single, start), acts).log;
            && log[i].num == |Sleepers(log[..i])|
            && forall t | t in Sleepers(log[..i]) ::
                 Outcome(log[..j], i, t) == Some(if log[i].cause.Cancel? then Canceled else Deleted)
  {
    RunIsLawful(single, start, acts);
    var log := Run(Start(single, start), acts).log;
    hide Run, CanRun, BitsAfter, Outcome;
    LawAt(single, start, log, i);
    LawAt(single, start, log, j);
    forall t | t in Sleepers(log[..i]) ensures Outcome(log[..j], i, t) == Some(Answer(log[i].cause)) {
      assert log[..j][..i] == log[..i];
      assert log[..j][i] == log[i];
      TurnedAway(single, start, log[..j], i, t);
    }
  }

  // ---------------------------------------------------------------------------------------------
  // Conservation of bits

  /** Waits that took the bit: they returned Ok and it was set before them and not after. */
  function Takes(start: bv64, log: seq<Event>, m: bv64): nat {
    if log == [] then 0
    else Takes(start, Butlast(log), m)
         + (if Last(log).Returned? && Last(log).result == Ok && Has(BitsAfter(start, Butlast(log)), m)
               && !Has(BitsAfter(start, log), m) then 1 else 0)
  }

  /** Set and Cancel calls that carry the bit. */
  function Supplies(log: seq<Event>, m: bv64): nat {
    if log == [] then 0
    else Supplies(Butlast(log), m)
         + (match Last(log)
            case Supplied(bits) => if Has(bits, m) then 1 else 0
            case DrainBegan(_, cause, _) => if cause.Cancel? && Has(cause.bits, m) then 1 else 0
            case _ => 0)
  }

  function One(b: bool): nat {
    if b then 1 else 0
  }

  /** One event, as far as a single bit goes. */
  lemma BitStep(e: Event, b: bv64, m: bv64)
    requires OneBit(m)
    ensures match e
            case Supplied(bits) => Has(BitsBy(e, b), m) <==> Has(b, m) || Has(bits, m)
            case DrainBegan(_, cause, _) => Has(BitsBy(e, b), m) ==> Has(b, m) || (cause.Cancel? && Has(cause.bits, m))
            case _ => Has(BitsBy(e, b), m) ==> Has(b, m)
  {
    hide Has, OneBit, Union, Intersection, Cleared;
    match e
    case Supplied(bits) => HasOr(b, bits, m);
    case Masked(bits) => HasAnd(b, bits, m);
    case Returned(_, request, _, _, _, _) => HasCleared(b, request, m);
    case _ =>
  }

  lemma {:induction false} BitsConserved(start: bv64, log: seq<Event>, m: bv64)
    requires OneBit(m)
    ensures Takes(start, log, m) + One(Has(BitsAfter(start, log), m)) <= One(Has(start, m)) + Supplies(log, m)
  {
    hide Has, OneBit, BitsBy;
    if log != [] {
      BitsConserved(start, Butlast(log), m);
      BitStep(Last(log), BitsAfter(start, Butlast(log)), m);
    }
  }

  /** Whatever the interleaving, a bit is taken at most once for each time it was supplied. */
  lemma RunConservesBits(single: bool, start: bv64, acts: seq<Action>, m: bv64)
    requires CanRun(Start(single, start), acts) && OneBit(m)
    ensures var s := Run(Start(single, start), acts);
            Takes(start, s.log, m) + One(Has(s.flag.bits, m)) <= One(Has(start, m)) + Supplies(s.log, m)
  {
    RunIsLawful(single, start, acts);
    hide Run, CanRun, Lawful, OneBit;
    BitsConserved(start, Run(Start(single, start), acts).log, m);
  }

  /** Polling, a wait with no time at all, never sleeps, and is Ok exactly on what it asks for and may take. */
  lemma PollNeverSleeps(v: View, r: Request)
    requires r.micros == Some(0)
    ensures WaitEntry(v, r).1.Return?
    ensures WaitEntry(v, r).1.result == Ok <==> Satisfied(v.bits, r) && !(v.single && v.waiting > 0)
  {
    hide Matches, Satisfied;
    MatchIsSatisfied(v.bits, r);
  }
}
