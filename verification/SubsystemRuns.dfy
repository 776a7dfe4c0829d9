/**
 Any sequence of calls on a subsystem list: what is started rests on what runs, what is torn down
 carries nothing that runs, and a start that meets no failure reaches everything it can.
 */
module SubsystemRuns {
  import opened Common
  import opened Subsystems

  datatype Action =
    | Register(name: string, deps: seq<string>)
    | InitAll(failing: set<string>)
    | StopAll(orderly: bool)

  /** A name is registered once. */
  predicate Enabled(v: View, a: Action) {
    a.Register? ==> Find(v.decls, a.name) == |v.decls|
  }

  function Next(v: View, a: Action): View
    requires Enabled(v, a)
  {
    match a
    case Register(name, deps) => WithAdded(v, name, deps)
    case InitAll(failing) => InitRun(v, failing).0
    case StopAll(orderly) => Stopped(v, orderly)
  }

  predicate CanRun(v: View, acts: seq<Action>)
    decreases |acts|
  {
    acts == [] || (Enabled(v, acts[0]) && CanRun(Next(v, acts[0]), acts[1..]))
  }

  function Run(v: View, acts: seq<Action>): View
    requires CanRun(v, acts)
    decreases |acts|
  {
    if acts == [] then v else Run(Next(v, acts[0]), acts[1..])
  }

  const START: View := View([], [], {}, [])

  // ---------------------------------------------------------------------------------------------
  // What a call log says

  /** The subsystems that run after these calls, in the order they were started. */
  function After(calls: seq<Call>): seq<string> {
    if calls == [] then []
    else
      var before := After(Butlast(calls));
      match Last(calls)
      case Started(name) => before + [name]
      case StartFailed(_) => before
      case Destroyed(name) => Without(before, name)
      case ShutDown(name) => Without(before, name)
  }

  function Without(names: seq<string>, name: string): seq<string> {
    if names == [] then []
    else (if names[0] == name then [] else [names[0]]) + Without(names[1..], name)
  }

  /** The dependency y of the subsystem x. */
  ghost predicate DependsOn(decls: seq<Decl>, x: string, y: string) {
    var i := Find(decls, x);
    i < |decls| && y in decls[i].deps
  }

  /** Everything x depends on runs. */
  ghost predicate RestsOn(decls: seq<Decl>, x: string, running: seq<string>) {
    forall y | DependsOn(decls, x, y) :: y in running
  }

  /** A call is right after these calls. */
  ghost predicate Law(decls: seq<Decl>, calls: seq<Call>, c: Call) {
    var running := After(calls);
    match c
    case Started(x) => x !in running && RestsOn(decls, x, running)
    case StartFailed(x) => x !in running && RestsOn(decls, x, running)
    case Destroyed(x) => MayStop(decls, running, x)
    case ShutDown(x) => MayStop(decls, running, x)
  }

  /** x runs, everything it depends on still runs, and nothing that runs depends on it. */
  ghost predicate MayStop(decls: seq<Decl>, running: seq<string>, x: string) {
    && x in running
    && RestsOn(decls, x, running)
    && forall z | z in running :: !DependsOn(decls, z, x)
  }

  ghost predicate Lawful(decls: seq<Decl>, calls: seq<Call>) {
    calls == []
    || (Lawful(decls, Butlast(calls)) && Law(decls, Butlast(calls), Last(calls)))
  }

  // ---------------------------------------------------------------------------------------------
  // The invariant

  /** Each running subsystem rests on those started before it, and runs once. */
  ghost predicate Ordered(decls: seq<Decl>, running: seq<string>) {
    && (forall i | 0 <= i < |running| :: Find(decls, running[i]) < |decls|)
    && (forall i | 0 <= i < |running| :: RestsOn(decls, running[i], running[..i]))
    && (forall i, j | 0 <= i < j < |running| :: running[i] != running[j])
  }

  ghost predicate Distinct(decls: seq<Decl>) {
    forall i, j | 0 <= i < j < |decls| :: decls[i].name != decls[j].name
  }

  /** Everything named in the log is declared. */
  ghost predicate Known(decls: seq<Decl>, calls: seq<Call>) {
    forall i | 0 <= i < |calls| :: Find(decls, calls[i].name) < |decls|
  }

  ghost predicate Inv(v: View) {
    && Distinct(v.decls) && Ordered(v.decls, v.running)
    && Known(v.decls, v.calls) && Lawful(v.decls, v.calls) && After(v.calls) == v.running
    && (forall x | x in v.running :: x !in v.failed)
  }

  lemma CallStep(decls: seq<Decl>, calls: seq<Call>, c: Call)
    ensures Lawful(decls, calls + [c]) <==> Lawful(decls, calls) && Law(decls, calls, c)
    ensures After(calls + [c]) == match c {
      case Started(name) => After(calls) + [name]
      case StartFailed(_) => After(calls)
      case Destroyed(name) => Without(After(calls), name)
      case ShutDown(name) => Without(After(calls), name)
    }
  {
    hide Law, Without;
    assert (calls + [c])[..|calls|] == calls;
  }

  lemma {:induction false} WithoutLast(names: seq<string>, name: string)
    requires name !in names
    ensures Without(names + [name], name) == names
  {
    if names == [] {
      assert [name][1..] == [];
    } else {
      WithoutLast(names[1..], name);
      assert (names + [name])[1..] == names[1..] + [name];
      assert names == [names[0]] + names[1..];
    }
  }

  /** A declaration in front of the others, of a new name, changes no dependency of theirs. */
  lemma DependsBehind(decls: seq<Decl>, d: Decl, x: string, y: string)
    requires Find(decls, d.name) == |decls| && x != d.name
    ensures DependsOn([d] + decls, x, y) <==> DependsOn(decls, x, y)
    ensures Find([d] + decls, x) == 1 + Find(decls, x)
  {
    assert ([d] + decls)[1..] == decls;
  }

  ghost predicate SameBelow(decls: seq<Decl>, more: seq<Decl>) {
    forall x, y | Find(decls, x) < |decls| :: DependsOn(more, x, y) <==> DependsOn(decls, x, y)
  }

  lemma {:induction false} LawfulBelow(decls: seq<Decl>, more: seq<Decl>, calls: seq<Call>)
    requires Lawful(decls, calls) && Known(decls, calls) && SameBelow(decls, more)
    ensures Lawful(more, calls)
    ensures forall i | 0 <= i < |After(calls)| :: Find(decls, After(calls)[i]) < |decls|
  {
    hide Find, DependsOn;
    if calls != [] {
      var before, c := Butlast(calls), Last(calls);
      LawfulBelow(decls, more, before);
      WithoutIn(After(before), c.name);
    }
  }

  lemma {:induction false} WithoutIn(names: seq<string>, name: string)
    ensures forall i | 0 <= i < |Without(names, name)| :: Without(names, name)[i] in names
  {
    if names != [] {
      WithoutIn(names[1..], name);
    }
  }

  lemma RegisterKeepsInv(v: View, name: string, deps: seq<string>)
    requires Inv(v) && Find(v.decls, name) == |v.decls|
    ensures Inv(WithAdded(v, name, deps))
  {
    hide Find, DependsOn, Lawful, After, Reverse;
    var d, w := Decl(name, Reverse(deps)), WithAdded(v, name, deps);
    forall x | Find(v.decls, x) < |v.decls| ensures Find(w.decls, x) < |w.decls| {
      DependsBehind(v.decls, d, x, x);
    }
    forall x, y | Find(v.decls, x) < |v.decls| ensures DependsOn(w.decls, x, y) <==> DependsOn(v.decls, x, y) {
      DependsBehind(v.decls, d, x, y);
    }
    LawfulBelow(v.decls, w.decls, v.calls);
    assert forall i | 1 <= i < |w.decls| :: w.decls[i] == v.decls[i - 1] && v.decls[i - 1].name != name;
  }

  /** A ready declaration may be started: it is not running and rests on what runs. */
  lemma ReadyMayStart(v: View, i: nat)
    requires Inv(v) && i < |v.decls| && Ready(v, v.decls[i])
    ensures var x := v.decls[i].name;
            && Find(v.decls, x) == i && x !in v.running && RestsOn(v.decls, x, v.running)
            && Law(v.decls, v.calls, Started(x)) && Law(v.decls, v.calls, StartFailed(x))
  {
    hide Find, Lawful, After;
    FindIs(v.decls, v.decls[i].name, i);
  }

  lemma StartKeepsInv(v: View, i: nat)
    requires Inv(v) && i < |v.decls| && Ready(v, v.decls[i]) && v.decls[i].name !in v.failed
    ensures Inv(Start(v, v.decls[i].name))
  {
    ReadyMayStart(v, i);
    hide Find, Lawful, After, Law, RestsOn, Ready, Ordered;
    var x := v.decls[i].name;
    CallStep(v.decls, v.calls, Started(x));
    OrderedAppend(v.decls, v.running, x);
  }

  lemma OrderedAppend(decls: seq<Decl>, running: seq<string>, x: string)
    requires Ordered(decls, running) && Find(decls, x) < |decls| && x !in running && RestsOn(decls, x, running)
    ensures Ordered(decls, running + [x])
  {
    hide Find, RestsOn;
    var r := running + [x];
    forall k | 0 <= k < |r| ensures RestsOn(decls, r[k], r[..k]) {
      if k < |running| {
        assert r[..k] == running[..k];
      } else {
        assert r[..k] == running;
      }
    }
  }

  lemma FailKeepsInv(v: View, i: nat)
    requires Inv(v) && i < |v.decls| && Ready(v, v.decls[i])
    ensures Inv(Fail(v, v.decls[i].name))
  {
    ReadyMayStart(v, i);
    hide Find, Lawful, After, Law, DependsOn, Ready, Ordered;
    CallStep(v.decls, v.calls, StartFailed(v.decls[i].name));
  }

  /** Starting keeps the invariant; it ends well exactly when it stops with nothing ready. */
  lemma {:induction false} InitKeepsInv(v: View, failing: set<string>)
    requires Inv(v)
    ensures var r := InitRun(v, failing);
            && Inv(r.0) && r.0.decls == v.decls && v.running <= r.0.running
            && (r.1 ==> NextReady(r.0, 0) == |v.decls| && r.0.failed == v.failed)
            && (r.1 ==> forall i | |v.calls| <= i < |r.0.calls| :: r.0.calls[i].Started?)
            && (!r.1 ==> r.0.calls != [] && Last(r.0.calls).StartFailed? && Last(r.0.calls).name in v.failed + failing
                         && r.0.failed == v.failed + {Last(r.0.calls).name})
            && v.calls <= r.0.calls
            && (forall x | x in r.0.running && x !in v.running :: x !in v.failed + failing)
    decreases |Idle(v)|
  {
    hide Inv, Ready, NextReady, Idle;
    var i := NextReady(v, 0);
    if i < |v.decls| {
      var name := v.decls[i].name;
      if name in v.failed + failing {
        FailKeepsInv(v, i);
      } else {
        StartKeepsInv(v, i);
        IdleShrinks(v, i);
        InitKeepsInv(Start(v, name), failing);
      }
    }
  }

  lemma IdleShrinks(v: View, i: nat)
    requires i < |v.decls| && Ready(v, v.decls[i])
    ensures |Idle(Start(v, v.decls[i].name))| < |Idle(v)|
  {
    StartShrinksIdle(v, i);
  }

  /** The last one started may be stopped, and what is left is as it was before it was started. */
  lemma StopOne(v: View, orderly: bool)
    requires Inv(v) && v.running != []
    ensures var k := |v.running| - 1;
            Inv(v.(running := v.running[..k], calls := v.calls + [Stop(v.running[k], orderly)]))
  {
    hide Find, Lawful, After, Ordered, MayStop, Without;
    var k := |v.running| - 1;
    var x, rest := v.running[k], v.running[..k];
    LastMayStop(v.decls, v.running);
    CallStep(v.decls, v.calls, Stop(x, orderly));
    assert v.running == rest + [x];
    WithoutLast(rest, x);
    assert Find(v.decls, x) < |v.decls|;
  }

  lemma LastMayStop(decls: seq<Decl>, running: seq<string>)
    requires Ordered(decls, running) && running != []
    ensures var k := |running| - 1;
            && MayStop(decls, running, running[k])
            && Ordered(decls, running[..k])
            && running[k] !in running[..k] && Find(decls, running[k]) < |decls|
  {
    hide Find, DependsOn;
    var k := |running| - 1;
    var x, rest := running[k], running[..k];
    forall z | z in running ensures !DependsOn(decls, z, x) {
      var j :| 0 <= j < |running| && running[j] == z;
      assert RestsOn(decls, running[j], running[..j]);
    }
    assert RestsOn(decls, x, rest);
    forall i | 0 <= i < |rest| ensures RestsOn(decls, rest[i], rest[..i]) {
      assert rest[..i] == running[..i];
    }
  }

  lemma {:induction false} StopKeepsInv(v: View, orderly: bool)
    requires Inv(v)
    ensures Inv(Stopped(v, orderly))
    decreases |v.running|
  {
    hide Inv;
    if v.running == [] {
      assert v.calls + [] == v.calls;
      assert v.(running := [], calls := v.calls) == v;
    } else {
      var k := |v.running| - 1;
      var w := v.(running := v.running[..k], calls := v.calls + [Stop(v.running[k], orderly)]);
      StopOne(v, orderly);
      StopKeepsInv(w, orderly);
      assert w.calls + Teardown(w.running, orderly) == v.calls + Teardown(v.running, orderly);
    }
  }

  lemma StepKeepsInv(v: View, a: Action)
    requires Inv(v) && Enabled(v, a)
    ensures Inv(Next(v, a))
  {
    hide Inv;
    match a
    case Register(name, deps) => RegisterKeepsInv(v, name, deps);
    case InitAll(failing) => InitKeepsInv(v, failing);
    case StopAll(orderly) => StopKeepsInv(v, orderly);
  }

  lemma {:induction false} RunKeepsInv(v: View, acts: seq<Action>)
    requires Inv(v) && CanRun(v, acts)
    ensures Inv(Run(v, acts))
    decreases |acts|
  {
    hide Inv, Next, Enabled;
    if acts != [] {
      StepKeepsInv(v, acts[0]);
      RunKeepsInv(Next(v, acts[0]), acts[1..]);
    }
  }

  // ---------------------------------------------------------------------------------------------
  // Theorems

  lemma {:induction false} LawAt(decls: seq<Decl>, calls: seq<Call>, j: nat)
    requires Lawful(decls, calls) && j < |calls|
    ensures Law(decls, calls[..j], calls[j])
  {
    hide Law;
    if j < |calls| - 1 {
      LawAt(decls, Butlast(calls), j);
      assert Butlast(calls)[..j] == calls[..j];
    }
  }

  // ---------------------------------------------------------------------------------------------
  // What was registered

  /** The run registers x, and y among its dependencies. */
  ghost predicate RegistersWith(acts: seq<Action>, x: string, y: string) {
    exists k :: 0 <= k < |acts| && acts[k].Register? && acts[k].name == x && y in acts[k].deps
  }

  ghost predicate Registers(acts: seq<Action>, x: string) {
    exists k :: 0 <= k < |acts| && acts[k].Register? && acts[k].name == x
  }

  lemma {:induction false} ReverseHolds(deps: seq<string>, y: string)
    ensures y in Reverse(deps) <==> y in deps
  {
    if deps != [] {
      ReverseHolds(deps[1..], y);
      assert deps == [deps[0]] + deps[1..];
    }
  }

  lemma {:induction false} ReverseAt(deps: seq<string>, i: nat)
    requires i < |deps|
    ensures |Reverse(deps)| == |deps| && Reverse(deps)[|deps| - 1 - i] == deps[i]
  {
    if i > 0 {
      ReverseAt(deps[1..], i - 1);
    } else if |deps| > 1 {
      ReverseAt(deps[1..], 0);
    }
  }

  /** Registering declares the name with exactly the dependencies given, and changes no other. */
  lemma RegisterDeclares(v: View, name: string, deps: seq<string>, x: string, y: string)
    requires Find(v.decls, name) == |v.decls|
    ensures var w := WithAdded(v, name, deps);
            && (DependsOn(w.decls, x, y) <==> if x == name then y in deps else DependsOn(v.decls, x, y))
            && (Find(w.decls, x) < |w.decls| <==> x == name || Find(v.decls, x) < |v.decls|)
  {
    hide Find, Reverse;
    var d := Decl(name, Reverse(deps));
    if x == name {
      FindIs([d] + v.decls, name, 0);
      ReverseHolds(deps, y);
    } else {
      DependsBehind(v.decls, d, x, y);
    }
  }

  lemma {:induction false} InitKeepsDecls(v: View, failing: set<string>)
    ensures InitRun(v, failing).0.decls == v.decls
    decreases |Idle(v)|
  {
    hide Ready, NextReady, Idle;
    var i := NextReady(v, 0);
    if i < |v.decls| && v.decls[i].name !in v.failed + failing {
      IdleShrinks(v, i);
      InitKeepsDecls(Start(v, v.decls[i].name), failing);
    }
  }

  /** The declarations after a run are those before it and the ones it registers. */
  lemma {:induction false} RunDeclares(v: View, acts: seq<Action>, x: string, y: string)
    requires CanRun(v, acts)
    ensures var w := Run(v, acts);
            && (DependsOn(w.decls, x, y) <==> DependsOn(v.decls, x, y) || RegistersWith(acts, x, y))
            && (Find(w.decls, x) < |w.decls| <==> Find(v.decls, x) < |v.decls| || Registers(acts, x))
    decreases |acts|
  {
    hide DependsOn, Find, InitRun, WithAdded, Stopped;
    if acts != [] {
      var a, rest := acts[0], acts[1..];
      RunDeclares(Next(v, a), rest, x, y);
      match a {
        case Register(name, deps) => RegisterDeclares(v, name, deps, x, y);
        case InitAll(failing) => InitKeepsDecls(v, failing);
        case StopAll(orderly) => StopKeepsDecls(v, orderly);
      }
      RegistersFirst(a, rest, x, y);
      NewNameDependsOnNothing(v, a, x, y);
      assert acts == [a] + rest;
    }
  }

  lemma StopKeepsDecls(v: View, orderly: bool)
    ensures Stopped(v, orderly).decls == v.decls
  {
  }

  lemma NewNameDependsOnNothing(v: View, a: Action, x: string, y: string)
    requires Enabled(v, a)
    ensures a.Register? && a.name == x ==> !DependsOn(v.decls, x, y)
  {
    hide Find;
  }

  lemma RegistersFirst(a: Action, rest: seq<Action>, x: string, y: string)
    ensures RegistersWith([a] + rest, x, y)
            <==> (a.Register? && a.name == x && y in a.deps) || RegistersWith(rest, x, y)
    ensures Registers([a] + rest, x) <==> (a.Register? && a.name == x) || Registers(rest, x)
  {
    var acts := [a] + rest;
    assert acts[0] == a;
    forall k | 0 <= k < |rest| ensures acts[k + 1] == rest[k] {
    }
    if RegistersWith(rest, x, y) {
      var k :| 0 <= k < |rest| && rest[k].Register? && rest[k].name == x && y in rest[k].deps;
      assert acts[k + 1] == rest[k];
    }
    if Registers(rest, x) {
      var k :| 0 <= k < |rest| && rest[k].Register? && rest[k].name == x;
      assert acts[k + 1] == rest[k];
    }
    if RegistersWith(acts, x, y) {
      var k :| 0 <= k < |acts| && acts[k].Register? && acts[k].name == x && y in acts[k].deps;
      assert k > 0 ==> rest[k - 1] == acts[k];
    }
    if Registers(acts, x) {
      var k :| 0 <= k < |acts| && acts[k].Register? && acts[k].name == x;
      assert k > 0 ==> rest[k - 1] == acts[k];
    }
  }

  /** After any run, the dependencies on record are exactly those the run registered. */
  lemma DependenciesAreRegistered(acts: seq<Action>, x: string, y: string)
    requires CanRun(START, acts)
    ensures var v := Run(START, acts);
            && (DependsOn(v.decls, x, y) <==> RegistersWith(acts, x, y))
            && (Find(v.decls, x) < |v.decls| <==> Registers(acts, x))
  {
    RunDeclares(START, acts, x, y);
  }

  /** Everything the run registers as a dependency of x is among the names. */
  ghost predicate HasAll(acts: seq<Action>, x: string, names: seq<string>) {
    forall y | RegistersWith(acts, x, y) :: y in names
  }

  /** A call is right after these calls, by what the run registered. */
  ghost predicate RightCall(acts: seq<Action>, before: seq<Call>, c: Call) {
    var running := After(before);
    if c.Started? || c.StartFailed? then c.name !in running && HasAll(acts, c.name, running)
    else
      && c.name in running && HasAll(acts, c.name, running)
      && forall z | z in running :: !RegistersWith(acts, z, c.name)
  }

  /**
   Over any calls: a subsystem is started only when it is not running and everything it was registered
   with is, and torn down only while all that still runs and nothing that runs was registered with it.
   One that ever failed to start does not run.
   */
  lemma CallsAreRight(acts: seq<Action>, j: nat)
    requires CanRun(START, acts) && j < |Run(START, acts).calls|
    ensures var v := Run(START, acts);
            && Law(v.decls, v.calls[..j], v.calls[j])
            && RightCall(acts, v.calls[..j], v.calls[j])
            && After(v.calls) == v.running
            && (forall x | x in v.running :: x !in v.failed)
  {
    RunKeepsInv(START, acts);
    hide Run, CanRun, Law, After;
    var v := Run(START, acts);
    LawAt(v.decls, v.calls, j);
    forall x, y ensures DependsOn(v.decls, x, y) <==> RegistersWith(acts, x, y) {
      DependenciesAreRegistered(acts, x, y);
    }
    LawIsRight(v.decls, acts, v.calls[..j], v.calls[j]);
  }

  lemma LawIsRight(decls: seq<Decl>, acts: seq<Action>, before: seq<Call>, c: Call)
    requires forall x, y :: DependsOn(decls, x, y) <==> RegistersWith(acts, x, y)
    requires Law(decls, before, c)
    ensures RightCall(acts, before, c)
  {
    hide DependsOn, RegistersWith, After;
  }

  /** Stopping everything makes one call for each running subsystem, the last started first, and leaves none. */
  lemma StopAllStops(v: View, orderly: bool)
    ensures var w, n := Next(v, StopAll(orderly)), |v.calls|;
            && w.running == [] && w.decls == v.decls && w.failed == v.failed
            && |w.calls| == n + |v.running| && w.calls[..n] == v.calls
            && forall i | 0 <= i < |v.running| :: StopsAt(w.calls[n..], v.running, orderly, i)
  {
    TeardownLength(v.running, orderly);
    assert Next(v, StopAll(orderly)).calls[|v.calls|..] == Teardown(v.running, orderly);
    forall i | 0 <= i < |v.running| ensures StopsAt(Teardown(v.running, orderly), v.running, orderly, i) {
      TeardownCalls(v.running, orderly, i);
    }
  }

  /** The i-th call stops the i-th subsystem from the end, in the way asked for. */
  predicate StopsAt(calls: seq<Call>, running: seq<string>, orderly: bool, i: int)
    requires 0 <= i < |running| == |calls|
  {
    var x := running[|running| - 1 - i];
    calls[i] == if orderly then Destroyed(x) else ShutDown(x)
  }

  lemma {:induction false} TeardownLength(running: seq<string>, orderly: bool)
    ensures |Teardown(running, orderly)| == |running|
  {
    if running != [] {
      TeardownLength(running[..|running| - 1], orderly);
    }
  }

  lemma {:induction false} TeardownCalls(running: seq<string>, orderly: bool, i: nat)
    requires i < |running|
    ensures |Teardown(running, orderly)| == |running|
    ensures var x := running[|running| - 1 - i];
            Teardown(running, orderly)[i] == if orderly then Destroyed(x) else ShutDown(x)
  {
    if i > 0 {
      TeardownCalls(running[..|running| - 1], orderly, i - 1);
    } else if |running| > 1 {
      TeardownCalls(running[..|running| - 1], orderly, 0);
    }
  }

  /** The subsystems that can be reached in k rounds: all their dependencies in fewer. */
  ghost predicate Reached(decls: seq<Decl>, x: string, k: nat)
    decreases k
  {
    k > 0 && Find(decls, x) < |decls| && forall y | DependsOn(decls, x, y) :: Reached(decls, y, k - 1)
  }

  /** No chain of dependencies from x is endless or leads out of the list. */
  ghost predicate Grounded(decls: seq<Decl>, x: string) {
    exists k: nat :: Reached(decls, x, k)
  }

  lemma {:induction false} ReachedLater(decls: seq<Decl>, x: string, k: nat, m: nat)
    requires Reached(decls, x, k) && k <= m
    ensures Reached(decls, x, m)
    decreases k
  {
    hide Find, DependsOn;
    forall y | DependsOn(decls, x, y) ensures Reached(decls, y, m - 1) {
      ReachedLater(decls, y, k - 1, m - 1);
    }
  }

  /** What runs is grounded, in as many rounds as its place. */
  lemma {:induction false} RunningIsReached(decls: seq<Decl>, running: seq<string>, i: nat)
    requires Ordered(decls, running) && i < |running|
    ensures Reached(decls, running[i], i + 1)
    decreases i
  {
    hide Find, DependsOn;
    assert RestsOn(decls, running[i], running[..i]);
    forall y | DependsOn(decls, running[i], y) ensures Reached(decls, y, i) {
      var j :| 0 <= j < i && running[..i][j] == y;
      RunningIsReached(decls, running, j);
      ReachedLater(decls, y, j + 1, i);
    }
  }

  /** When nothing is ready, all that can be reached runs. */
  lemma {:induction false} StuckIsAll(v: View, x: string, k: nat)
    requires Inv(v) && NextReady(v, 0) == |v.decls| && Reached(v.decls, x, k)
    ensures x in v.running
    decreases k
  {
    hide Find, Lawful, After, Ordered;
    var i := Find(v.decls, x);
    var d := v.decls[i];
    forall m | 0 <= m < |d.deps| ensures Find(v.decls, d.deps[m]) < |v.decls| && d.deps[m] in v.running {
      assert DependsOn(v.decls, x, d.deps[m]);
      StuckIsAll(v, d.deps[m], k - 1);
    }
    assert !Ready(v, d);
  }

  /**
   Starting without a failure, from any state calls can produce, leaves running exactly the grounded
   subsystems.
   */
  lemma StartReachesExactly(acts: seq<Action>, failing: set<string>, x: string)
    requires CanRun(START, acts) && InitRun(Run(START, acts), failing).1
    ensures var v := InitRun(Run(START, acts), failing).0;
            v == Next(Run(START, acts), InitAll(failing)) && (x in v.running <==> Grounded(v.decls, x))
  {
    RunKeepsInv(START, acts);
    InitKeepsInv(Run(START, acts), failing);
    var v := InitRun(Run(START, acts), failing).0;
    hide InitRun, Run, CanRun, NextReady, Reached;
    if x in v.running {
      var i :| 0 <= i < |v.running| && v.running[i] == x;
      RunningIsReached(v.decls, v.running, i);
    }
    if Grounded(v.decls, x) {
      var k: nat :| Reached(v.decls, x, k);
      StuckIsAll(v, x, k);
    }
  }

  /** It meets no failure when no start fails now and none has failed before. */
  lemma {:induction false} NoFailureNoStop(v: View, failing: set<string>)
    requires forall i | 0 <= i < |v.decls| :: v.decls[i].name !in v.failed + failing
    ensures InitRun(v, failing).1
    decreases |Idle(v)|
  {
    hide Ready, NextReady, Idle;
    var i := NextReady(v, 0);
    if i < |v.decls| {
      IdleShrinks(v, i);
      NoFailureNoStop(Start(v, v.decls[i].name), failing);
    }
  }

  /** A ranking of the subsystems that falls along every dependency, all of which are declared. */
  ghost predicate ClosedAndAcyclic(decls: seq<Decl>, rank: map<string, nat>) {
    forall i, m | 0 <= i < |decls| && 0 <= m < |decls[i].deps| ::
      && Find(decls, decls[i].deps[m]) < |decls|
      && decls[i].name in rank && decls[i].deps[m] in rank
      && rank[decls[i].deps[m]] < rank[decls[i].name]
  }

  lemma {:induction false} RankedIsReached(decls: seq<Decl>, rank: map<string, nat>, x: string, k: nat)
    requires ClosedAndAcyclic(decls, rank) && Find(decls, x) < |decls|
    requires k > if x in rank then rank[x] else 0
    ensures Reached(decls, x, k)
    decreases k
  {
    hide Find;
    forall y | DependsOn(decls, x, y) ensures Reached(decls, y, k - 1) {
      var d := decls[Find(decls, x)];
      var m :| 0 <= m < |d.deps| && d.deps[m] == y;
      RankedIsReached(decls, rank, y, k - 1);
    }
  }

  /** With closed, acyclic dependencies and no failure, one call starts every subsystem. */
  lemma EverySubsystemStarts(acts: seq<Action>, failing: set<string>, rank: map<string, nat>, x: string)
    requires CanRun(START, acts)
    requires var v := Run(START, acts);
             && ClosedAndAcyclic(v.decls, rank)
             && (forall i | 0 <= i < |v.decls| :: v.decls[i].name !in v.failed + failing)
             && Find(v.decls, x) < |v.decls|
    ensures var r := InitRun(Run(START, acts), failing);
            r.1 && x in r.0.running
  {
    var v := Run(START, acts);
    RunKeepsInv(START, acts);
    NoFailureNoStop(v, failing);
    InitKeepsInv(v, failing);
    var k := if x in rank then rank[x] + 1 else 1;
    RankedIsReached(v.decls, rank, x, k);
    StartReachesExactly(acts, failing, x);
  }
}
