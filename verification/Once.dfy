/**
 pthread_once (src/kernel/pthread.cpp): any number of calls on one control word, in any interleaving of
 their critical sections.
 */
module Once {
  import opened Common

  const NEEDS_INIT: int := 0
  const DONE_INIT: int := 1
  const IN_PROGRESS: int := 2
  const WAIT: int := 3

  datatype Code = OK | EINVAL

  /** A critical section ends in returning, in running the init routine, or in waiting. */
  datatype Pass = Return(code: Code) | Init | Sleep

  // ---------------------------------------------------------------------------------------------
  // Critical sections

  /** The top of the loop. */
  function Look(word: int): (int, Pass) {
    if word == DONE_INIT then (word, Return(OK))
    else if word == NEEDS_INIT then (IN_PROGRESS, Init)
    else if word == IN_PROGRESS || word == WAIT then (WAIT, Sleep)
    else (word, Return(EINVAL))
  }

  /** A waiter looks again at the top only when the word is no longer the one it wrote. */
  function Wake(word: int): (int, Pass) {
    if word == WAIT then (word, Sleep) else Look(word)
  }

  /** The control word, as the guest declares it. */
  class Control {
    var state: int

    constructor (state: int)
      ensures this.state == state
    {
      this.state := state;
    }

    method Enter() returns (p: Pass)
      modifies this
      ensures (state, p) == Look(old(state))
    {
      match state {
        case 1 => p := Return(OK);
        case 0 =>
          state := IN_PROGRESS;
          p := Init;
        case 2 | 3 =>
          state := WAIT;
          p := Sleep;
        case _ => p := Return(EINVAL);
      }
    }

    method WakeUp() returns (p: Pass)
      modifies this
      ensures (state, p) == Wake(old(state))
    {
      if state == WAIT {
        return Sleep;
      }
      p := Enter();
    }

    method Publish()
      modifies this
      ensures state == DONE_INIT
    {
      state := DONE_INIT;
    }
  }

  // ---------------------------------------------------------------------------------------------
  // Runs

  /** A call of pthread_once; a thread may make many. */
  type Call = nat

  datatype Phase = Entering | Waiting | Running | Ending

  datatype Event = Started(c: Call) | Slept(c: Call) | Completed(c: Call) | Returned(c: Call, code: Code)

  datatype State = State(word: int, phase: map<Call, Phase>, log: seq<Event>)

  datatype Action = Begin(c: Call) | Enter(c: Call) | Poll(c: Call) | Complete(c: Call) | Publish(c: Call)

  ghost predicate Enabled(s: State, a: Action) {
    match a
    case Begin(c) => c !in s.phase
    case Enter(c) => c in s.phase && s.phase[c] == Entering
    case Poll(c) => c in s.phase && s.phase[c] == Waiting
    case Complete(c) => c in s.phase && s.phase[c] == Running
    case Publish(c) => c in s.phase && s.phase[c] == Ending
  }

  function After(s: State, c: Call, r: (int, Pass)): State {
    match r.1
    case Return(code) => State(r.0, s.phase - {c}, s.log + [Returned(c, code)])
    case Init => State(r.0, s.phase[c := Running], s.log + [Started(c)])
    case Sleep => State(r.0, s.phase[c := Waiting], s.log + [Slept(c)])
  }

  ghost function Next(s: State, a: Action): State
    requires Enabled(s, a)
  {
    match a
    case Begin(c) => s.(phase := s.phase[c := Entering])
    case Enter(c) => After(s, c, Look(s.word))
    case Poll(c) => After(s, c, Wake(s.word))
    case Complete(c) => s.(phase := s.phase[c := Ending], log := s.log + [Completed(c)])
    case Publish(c) => State(DONE_INIT, s.phase - {c}, s.log + [Returned(c, OK)])
  }

  ghost predicate CanRun(s: State, acts: seq<Action>)
    decreases |acts|
  {
    acts == [] || (Enabled(s, acts[0]) && CanRun(Next(s, acts[0]), acts[1..]))
  }

  ghost function Run(s: State, acts: seq<Action>): State
    requires CanRun(s, acts)
    decreases |acts|
  {
    if acts == [] then s else Run(Next(s, acts[0]), acts[1..])
  }

  /** A control word of any value, and no call in progress. */
  function Begun(word: int): State {
    State(word, map[], [])
  }

  // ---------------------------------------------------------------------------------------------
  // The invariant

  /** The calls that have started the init routine, in order. */
  function Starts(log: seq<Event>): seq<Call> {
    if log == [] then []
    else
      var before, e := Starts(Butlast(log)), Last(log);
      if e.Started? then before + [e.c] else before
  }

  ghost predicate Finished(log: seq<Event>) {
    exists i :: 0 <= i < |log| && log[i].Completed?
  }

  ghost predicate NobodyReturned(log: seq<Event>) {
    forall i | 0 <= i < |log| :: !log[i].Returned?
  }

  /**
   Every step is right: an OK comes after the init routine has completed, unless the word said so from
   the start; EINVAL is for words that mean nothing; a second start never comes; and a call sleeps only
   while the routine runs and nobody has returned.
   */
  ghost predicate Lawful(word: int, log: seq<Event>) {
    forall j | 0 <= j < |log| :: Right(word, log[..j], log[j])
  }

  ghost predicate Right(word: int, before: seq<Event>, e: Event) {
    match e
    case Started(_) => word == NEEDS_INIT && Starts(before) == []
    case Slept(_) =>
      && (word in {IN_PROGRESS, WAIT} || (word == NEEDS_INIT && Starts(before) != []))
      && NobodyReturned(before)
    case Completed(c) => word == NEEDS_INIT && Starts(before) == [c]
    case Returned(_, OK) => word == DONE_INIT || (word == NEEDS_INIT && Finished(before))
    case Returned(_, EINVAL) => word !in {NEEDS_INIT, DONE_INIT, IN_PROGRESS, WAIT}
  }

  /** The calls between starting the init routine and publishing its end. */
  ghost function Busy(s: State): set<Call> {
    set c | c in s.phase && (s.phase[c] == Running || s.phase[c] == Ending)
  }

  ghost predicate Inv(word: int, s: State) {
    && Lawful(word, s.log)
    && (forall c | c in s.phase && s.phase[c] == Ending :: Finished(s.log))
    && (if word == NEEDS_INIT then
          match s.word
          case 0 => Starts(s.log) == [] && Busy(s) == {} && NobodyReturned(s.log)
          case 1 => |Starts(s.log)| == 1 && Busy(s) == {} && Finished(s.log)
          case _ =>
            && s.word in {IN_PROGRESS, WAIT} && |Starts(s.log)| == 1 && Busy(s) == {Starts(s.log)[0]}
            && NobodyReturned(s.log)
        else
          && Busy(s) == {} && Starts(s.log) == []
          && (s.word == word || (word == IN_PROGRESS && s.word == WAIT))
          && (word in {IN_PROGRESS, WAIT} ==> NobodyReturned(s.log)))
  }

  lemma LogStep(word: int, log: seq<Event>, e: Event)
    ensures Starts(log + [e]) == if e.Started? then Starts(log) + [e.c] else Starts(log)
    ensures Finished(log + [e]) <==> Finished(log) || e.Completed?
    ensures NobodyReturned(log + [e]) <==> NobodyReturned(log) && !e.Returned?
    ensures Lawful(word, log) && Right(word, log, e) ==> Lawful(word, log + [e])
  {
    var l := log + [e];
    assert l[..|log|] == log;
    assert l[|log|] == e && forall i | 0 <= i < |log| :: l[i] == log[i];
    if Finished(log) {
      var i :| 0 <= i < |log| && log[i].Completed?;
      assert l[i].Completed?;
    }
    if e.Completed? {
      assert l[|log|].Completed?;
    }
    if Lawful(word, log) && Right(word, log, e) {
      hide Right;
      forall j | 0 <= j < |l| ensures Right(word, l[..j], l[j]) {
        if j < |log| {
          assert l[..j] == log[..j];
        }
      }
    }
  }

  lemma StepKeepsInv(word: int, s: State, a: Action)
    requires Inv(word, s) && Enabled(s, a)
    ensures Inv(word, Next(s, a))
  {
    hide Lawful, Finished, Starts, NobodyReturned;
    var s', c := Next(s, a), a.c;
    if s'.log != s.log {
      var e := s'.log[|s.log|];
      assert s'.log == s.log + [e];
      LogStep(word, s.log, e);
    }
    assert c in Busy(s) <==> c in s.phase && (s.phase[c] == Running || s.phase[c] == Ending);
    if c in s'.phase && (s'.phase[c] == Running || s'.phase[c] == Ending) {
      assert Busy(s') == Busy(s) + {c};
    } else {
      assert Busy(s') == Busy(s) - {c};
    }
  }

  lemma {:induction false} RunKeepsInv(word: int, s: State, acts: seq<Action>)
    requires Inv(word, s) && CanRun(s, acts)
    ensures Inv(word, Run(s, acts))
    decreases |acts|
  {
    hide Inv, Next, Enabled;
    if acts != [] {
      StepKeepsInv(word, s, acts[0]);
      RunKeepsInv(word, Next(s, acts[0]), acts[1..]);
    }
  }

  // ---------------------------------------------------------------------------------------------
  // Theorems

  /**
   However the calls interleave, the init routine starts at most once, every call that returns returns OK
   after it has completed, and no call waits before it has started or once another has returned.
   */
  lemma AtMostOnce(acts: seq<Action>)
    requires CanRun(Begun(NEEDS_INIT), acts)
    ensures var s := Run(Begun(NEEDS_INIT), acts);
            && |Starts(s.log)| <= 1
            && (forall j | 0 <= j < |s.log| && s.log[j].Returned? :: s.log[j].code == OK && Finished(s.log[..j]))
            && (forall j | 0 <= j < |s.log| && s.log[j].Slept? ::
                  Starts(s.log[..j]) != [] && NobodyReturned(s.log[..j]))
            && (forall j | 0 <= j < |s.log| && s.log[j].Completed? :: Starts(s.log[..j]) == [s.log[j].c])
            && (s.word == DONE_INIT ==> Finished(s.log) && Busy(s) == {})
  {
    assert Starts([]) == [] && Busy(Begun(NEEDS_INIT)) == {};
    RunKeepsInv(NEEDS_INIT, Begun(NEEDS_INIT), acts);
    var s := Run(Begun(NEEDS_INIT), acts);
    hide Run, CanRun, Starts, Finished, NobodyReturned, Busy;
    forall j | 0 <= j < |s.log| ensures Right(NEEDS_INIT, s.log[..j], s.log[j]) {
    }
  }

  /** A word that starts as anything else never starts it: done, never done, or meaningless. */
  lemma OtherWords(word: int, acts: seq<Action>)
    requires word != NEEDS_INIT && CanRun(Begun(word), acts)
    ensures var s := Run(Begun(word), acts);
            && Starts(s.log) == []
            && (forall j | 0 <= j < |s.log| ::
                  if word in {IN_PROGRESS, WAIT} then s.log[j].Slept?
                  else s.log[j].Returned? && s.log[j].code == if word == DONE_INIT then OK else EINVAL)
            && (word !in {IN_PROGRESS, WAIT} ==> s.word == word)
  {
    assert Starts([]) == [] && Busy(Begun(word)) == {};
    RunKeepsInv(word, Begun(word), acts);
    var s := Run(Begun(word), acts);
    hide Run, CanRun, Starts, Finished, NobodyReturned, Busy;
    forall j | 0 <= j < |s.log| ensures Right(word, s.log[..j], s.log[j]) {
    }
  }

  /** Once done, always done: no waiter's write of WAIT can come after. */
  lemma {:induction false} DoneStays(s: State, acts: seq<Action>)
    requires s.word == DONE_INIT && CanRun(s, acts)
    ensures Run(s, acts).word == DONE_INIT
    decreases |acts|
  {
    if acts != [] {
      DoneStays(Next(s, acts[0]), acts[1..]);
    }
  }

  /** Once the word is DONE, a call that looks returns OK at once, whether it has just come or was asleep. */
  lemma DoneAnswersAtOnce(s: State, c: Call)
    requires s.word == DONE_INIT && c in s.phase
    ensures s.phase[c] == Entering ==> Next(s, Enter(c)).log == s.log + [Returned(c, OK)]
    ensures s.phase[c] == Waiting ==> Next(s, Poll(c)).log == s.log + [Returned(c, OK)]
  {
  }
}
