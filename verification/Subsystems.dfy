/**
 The subsystem scheduler (src/common/subsystems.cpp): a linked list of subsystems with the names they
 depend on, started in dependency order and torn down along a second chain, last started first.
 */
module Subsystems {
  import opened Common

  datatype Decl = Decl(name: string, deps: seq<string>)

  /** The calls made to subsystems. */
  datatype Call =
    | Started(name: string)
    | StartFailed(name: string)
    | Destroyed(name: string)
    | ShutDown(name: string)

  /** The declared subsystems, those running in the order they started, those that ever failed. */
  datatype View = View(decls: seq<Decl>, running: seq<string>, failed: set<string>, calls: seq<Call>)

  // ---------------------------------------------------------------------------------------------
  // Operations on values

  function Find(decls: seq<Decl>, name: string): (i: nat)
    ensures i <= |decls|
    ensures i < |decls| ==> decls[i].name == name
    ensures forall j | 0 <= j < i :: decls[j].name != name
  {
    Position(decls, (d: Decl) => d.name, name)
  }

  lemma FindIs(decls: seq<Decl>, name: string, i: nat)
    requires i <= |decls| && (i < |decls| ==> decls[i].name == name)
    requires forall j | 0 <= j < i :: decls[j].name != name
    ensures Find(decls, name) == i
  {
    hide Find;
    var f := Find(decls, name);
    assert i <= f;
  }

  /** Every dependency is declared and runs. */
  predicate Supported(v: View, deps: seq<string>) {
    forall i | 0 <= i < |deps| :: Find(v.decls, deps[i]) < |v.decls| && deps[i] in v.running
  }

  predicate Ready(v: View, d: Decl) {
    d.name !in v.running && Supported(v, d.deps)
  }

  /** The first declaration from i on that is ready, or the number of declarations. */
  function NextReady(v: View, i: nat): (r: nat)
    requires i <= |v.decls|
    ensures i <= r <= |v.decls|
    ensures r < |v.decls| ==> Ready(v, v.decls[r])
    ensures forall j | i <= j < r :: !Ready(v, v.decls[j])
    decreases |v.decls| - i
  {
    if i == |v.decls| || Ready(v, v.decls[i]) then i else NextReady(v, i + 1)
  }

  function Reverse(deps: seq<string>): seq<string> {
    if deps == [] then [] else Reverse(deps[1..]) + [deps[0]]
  }

  function WithAdded(v: View, name: string, deps: seq<string>): View {
    v.(decls := [Decl(name, Reverse(deps))] + v.decls)
  }

  function Start(v: View, name: string): View {
    v.(running := v.running + [name], calls := v.calls + [Started(name)])
  }

  function Fail(v: View, name: string): View {
    v.(failed := v.failed + {name}, calls := v.calls + [StartFailed(name)])
  }

  /** The declarations that are not running. */
  function Idle(v: View): set<nat> {
    set i | 0 <= i < |v.decls| && v.decls[i].name !in v.running
  }

  lemma StartShrinksIdle(v: View, i: nat)
    requires i < |v.decls| && v.decls[i].name !in v.running
    ensures |Idle(Start(v, v.decls[i].name))| < |Idle(v)|
  {
    var a, b := Idle(Start(v, v.decls[i].name)), Idle(v);
    assert i in b && i !in a && a <= b;
    Smaller(a, b, i);
  }

  lemma Smaller(a: set<nat>, b: set<nat>, i: nat)
    requires a <= b && i in b && i !in a
    ensures |a| < |b|
  {
    assert b == a + (b - a);
  }

  /** Starts what is ready until nothing is, or until one fails; a failure is never forgotten. */
  function InitRun(v: View, failing: set<string>): (View, bool)
    decreases |Idle(v)|
  {
    var i := NextReady(v, 0);
    if i == |v.decls| then (v, true)
    else
      var name := v.decls[i].name;
      if name in v.failed + failing then (Fail(v, name), false)
      else
        StartShrinksIdle(v, i);
        InitRun(Start(v, name), failing)
  }

  lemma InitUnfolds(v: View, failing: set<string>)
    ensures var i := NextReady(v, 0);
            if i == |v.decls| then InitRun(v, failing) == (v, true)
            else if v.decls[i].name in v.failed + failing then InitRun(v, failing) == (Fail(v, v.decls[i].name), false)
            else InitRun(v, failing) == InitRun(Start(v, v.decls[i].name), failing)
  {
    hide NextReady, Fail, Start;
  }

  function Stop(name: string, orderly: bool): Call {
    if orderly then Destroyed(name) else ShutDown(name)
  }

  /** The calls that tear down a chain, last started first. */
  function Teardown(running: seq<string>, orderly: bool): seq<Call> {
    if running == [] then []
    else [Stop(running[|running| - 1], orderly)] + Teardown(running[..|running| - 1], orderly)
  }

  function Stopped(v: View, orderly: bool): View {
    v.(running := [], calls := v.calls + Teardown(v.running, orderly))
  }

  // ---------------------------------------------------------------------------------------------
  // The linked lists

  class SubsNode {
    const name: string
    const deps: seq<string>
    var next: SubsNode?
    var prevInit: SubsNode?
    var initialized: bool
    var failed: bool

    constructor (name: string, deps: seq<string>, next: SubsNode?)
      ensures this.name == name && this.deps == deps && this.next == next
      ensures !initialized && !failed
    {
      this.name, this.deps, this.next, prevInit, initialized, failed := name, deps, next, null, false, false;
    }
  }

  /** The i-th node, or null past either end. */
  function Item(nodes: seq<SubsNode>, i: int): SubsNode? {
    if 0 <= i < |nodes| then nodes[i] else null
  }

  function Names(nodes: seq<SubsNode>): (r: seq<string>)
    ensures |r| == |nodes| && forall i | 0 <= i < |nodes| :: r[i] == nodes[i].name
  {
    if nodes == [] then [] else Names(nodes[..|nodes| - 1]) + [nodes[|nodes| - 1].name]
  }

  function Decls(nodes: seq<SubsNode>): (r: seq<Decl>)
    ensures |r| == |nodes| && forall i | 0 <= i < |nodes| :: r[i] == Decl(nodes[i].name, nodes[i].deps)
  {
    if nodes == [] then [] else [Decl(nodes[0].name, nodes[0].deps)] + Decls(nodes[1..])
  }

  class SubsystemsList {
    var list: SubsNode?
    var lastInit: SubsNode?
    /** The list in order, the nodes in the order they were started, and the calls made so far. */
    ghost var nodes: seq<SubsNode>
    ghost var chain: seq<SubsNode>
    ghost var calls: seq<Call>

    ghost predicate Valid()
      reads this, nodes, chain
    {
      Listed() && Linked() && Flagged()
    }

    /** The registered nodes, of distinct names, linked from the head. */
    ghost predicate Listed()
      reads this, nodes
    {
      && list == Item(nodes, 0)
      && (forall i | 0 <= i < |nodes| :: nodes[i].next == Item(nodes, i + 1))
      && (forall i, j | 0 <= i < j < |nodes| :: nodes[i].name != nodes[j].name)
    }

    /** The started nodes, each once, linked backwards from the last. */
    ghost predicate Linked()
      reads this, chain
    {
      && lastInit == Item(chain, |chain| - 1)
      && (forall i | 0 <= i < |chain| :: chain[i].prevInit == Item(chain, i - 1))
      && (forall i, j | 0 <= i < j < |chain| :: chain[i] != chain[j])
    }

    ghost predicate Flagged()
      reads this, nodes
    {
      && (forall n | n in nodes :: n.initialized <==> n in chain)
      && (forall n | n in chain :: n in nodes)
    }

    ghost function FailedNames(): set<string>
      reads this, nodes
    {
      set n | n in nodes && n.failed :: n.name
    }

    ghost function Value(): View
      reads this, nodes
    {
      View(Decls(nodes), Names(chain), FailedNames(), calls)
    }

    constructor ()
      ensures Valid() && Value() == View([], [], {}, [])
    {
      list, lastInit, nodes, chain, calls := null, null, [], [], [];
    }

    lemma SameName(n: SubsNode, m: SubsNode)
      requires Listed() && n in nodes && m in nodes && n.name == m.name
      ensures n == m
    {
      var a, b :| 0 <= a < |nodes| && 0 <= b < |nodes| && nodes[a] == n && nodes[b] == m;
    }

    /** A node runs when its name is among the running ones. */
    lemma RunningByName(n: SubsNode)
      requires Valid() && n in nodes
      ensures n.initialized <==> n.name in Value().running
    {
      if n.initialized {
        var i :| 0 <= i < |chain| && chain[i] == n;
        assert Names(chain)[i] == n.name;
      }
      if n.name in Names(chain) {
        var i :| 0 <= i < |chain| && Names(chain)[i] == n.name;
        assert chain[i] in nodes;
        SameName(n, chain[i]);
      }
    }

    lemma FailedByName(n: SubsNode)
      requires Valid() && n in nodes
      ensures n.failed <==> n.name in Value().failed
    {
      hide Names, Decls;
      if n.name in FailedNames() {
        var m :| m in nodes && m.failed && m.name == n.name;
        SameName(m, n);
      }
    }

    lemma ListLinks(i: nat)
      requires Valid() && i <= |nodes|
      ensures |Value().decls| == |nodes|
      ensures list == Item(nodes, 0)
      ensures i < |nodes| ==> nodes[i].next == Item(nodes, i + 1)
      ensures i < |nodes| ==> Value().decls[i] == Decl(nodes[i].name, nodes[i].deps)
    {
    }

    twostate lemma ListedKept()
      requires old(Listed()) && nodes == old(nodes) && list == old(list)
      requires forall m | m in nodes :: m.next == old(m.next)
      ensures Listed()
    {
    }

    twostate lemma LinkedKept()
      requires old(Linked()) && chain == old(chain) && lastInit == old(lastInit)
      requires forall m | m in chain :: m.prevInit == old(m.prevInit)
      ensures Linked()
    {
    }

    twostate lemma FailedKept()
      requires nodes == old(nodes) && forall m | m in nodes :: m.failed == old(m.failed)
      ensures FailedNames() == old(FailedNames())
    {
    }

    twostate lemma FailedGrows(n: SubsNode)
      requires nodes == old(nodes) && n in nodes && n.failed
      requires forall m | m in nodes && m != n :: m.failed == old(m.failed)
      ensures FailedNames() == old(FailedNames()) + {n.name}
    {
      var a, b := FailedNames(), old(FailedNames());
      assert a <= b + {n.name};
      assert n.name in a;
      forall x | x in b ensures x in a {
        var m :| m in nodes && old(m.failed) && m.name == x;
        assert m.failed;
      }
    }

    twostate lemma FlaggedKept()
      requires old(Flagged()) && nodes == old(nodes) && chain == old(chain)
      requires forall m | m in nodes :: m.initialized == old(m.initialized)
      ensures Flagged()
    {
    }

    /** A node put at the end of the chain. */
    twostate lemma Chained(n: SubsNode)
      requires old(Linked() && Flagged()) && nodes == old(nodes) && n in nodes && !old(n.initialized)
      requires chain == old(chain) + [n] && lastInit == n && n.prevInit == old(lastInit) && n.initialized
      requires forall m | m in nodes && m != n :: m.initialized == old(m.initialized) && m.prevInit == old(m.prevInit)
      ensures Linked() && Flagged()
    {
      hide Linked;
      ChainLinked(n);
      ChainFlagged(n);
    }

    twostate lemma ChainLinked(n: SubsNode)
      requires old(Linked()) && n !in old(chain) && chain == old(chain) + [n]
      requires lastInit == n && n.prevInit == old(lastInit)
      requires forall m | m in old(chain) :: m.prevInit == old(m.prevInit)
      ensures Linked()
    {
      forall i | 0 <= i < |chain| ensures chain[i].prevInit == Item(chain, i - 1) {
        if i < |old(chain)| {
          assert chain[i] == old(chain)[i] && chain[i] in old(chain);
        }
      }
    }

    twostate lemma ChainFlagged(n: SubsNode)
      requires old(Flagged()) && nodes == old(nodes) && n in nodes && chain == old(chain) + [n] && n.initialized
      requires forall m | m in nodes && m != n :: m.initialized == old(m.initialized)
      ensures Flagged()
    {
    }

    method FindByName(name: string) returns (n: SubsNode?)
      requires Valid()
      ensures var i := Find(Value().decls, name);
              i <= |nodes| && n == Item(nodes, i)
    {
      hide Valid, Value, Find;
      ListLinks(0);
      n := list;
      ghost var i: nat := 0;
      while n != null && n.name != name
        invariant i <= |nodes| && n == Item(nodes, i)
        invariant forall j | 0 <= j < i :: Value().decls[j].name != name
        decreases |nodes| - i
      {
        ListLinks(i);
        n := n.next;
        i := i + 1;
      }
      ListLinks(i);
      FindIs(Value().decls, name, i);
    }

    /** The dependency list of a new node: each one is put in front. */
    method DepsList(deps: seq<string>) returns (l: seq<string>)
      ensures l == Reverse(deps)
    {
      l := [];
      var i := 0;
      assert deps[0..] == deps;
      while i < |deps|
        invariant 0 <= i <= |deps|
        invariant Reverse(deps) == Reverse(deps[i..]) + l
      {
        assert deps[i..][1..] == deps[i + 1..];
        assert Reverse(deps[i + 1..]) + ([deps[i]] + l) == (Reverse(deps[i + 1..]) + [deps[i]]) + l;
        l := [deps[i]] + l;
        i := i + 1;
      }
    }

    method Add(name: string, deps: seq<string>)
      requires Valid() && Find(Value().decls, name) == |Value().decls|
      modifies this
      ensures Valid() && Value() == WithAdded(old(Value()), name, deps)
    {
      hide Names, Decls, Find, Listed, Linked, Flagged, FailedNames;
      NameIsNew(name);
      var l := DepsList(deps);
      var n := new SubsNode(name, l, list);
      list := n;
      nodes := [n] + nodes;
      DeclsCons(n, old(nodes));
      Headed(n);
      LinkedKept();
    }

    lemma NameIsNew(name: string)
      requires Find(Value().decls, name) == |Value().decls|
      ensures forall m | m in nodes :: m.name != name
    {
      hide Names;
      forall m | m in nodes ensures m.name != name {
        var i :| 0 <= i < |nodes| && nodes[i] == m;
        assert Decls(nodes)[i].name == m.name;
      }
    }

    /** A new node at the head of the list. */
    twostate lemma Headed(new n: SubsNode)
      requires old(Listed() && Flagged()) && chain == old(chain) && fresh(n)
      requires list == n && nodes == [n] + old(nodes) && n.next == old(list) && !n.initialized && !n.failed
      requires forall m | m in old(nodes) ::
                 && m.next == old(m.next) && m.name != n.name
                 && m.initialized == old(m.initialized) && m.failed == old(m.failed)
      ensures Listed() && Flagged() && FailedNames() == old(FailedNames())
    {
      hide FailedNames, Flagged;
      HeadFlagged(n);
      FailedSame(n);
      HeadLinks(n);
      HeadNames(n);
    }

    twostate lemma HeadLinks(new n: SubsNode)
      requires old(Listed()) && list == n && nodes == [n] + old(nodes) && n.next == old(list)
      requires forall m | m in old(nodes) :: m.next == old(m.next)
      ensures forall i | 0 <= i < |nodes| :: nodes[i].next == Item(nodes, i + 1)
    {
      forall i | 0 <= i < |nodes| ensures nodes[i].next == Item(nodes, i + 1) {
        if i > 0 {
          assert nodes[i] == old(nodes)[i - 1] && nodes[i] in old(nodes);
        }
      }
    }

    twostate lemma HeadNames(new n: SubsNode)
      requires old(Listed()) && nodes == [n] + old(nodes) && forall m | m in old(nodes) :: m.name != n.name
      ensures forall i, j | 0 <= i < j < |nodes| :: nodes[i].name != nodes[j].name
    {
      forall i, j | 0 <= i < j < |nodes| ensures nodes[i].name != nodes[j].name {
        assert nodes[j] == old(nodes)[j - 1] && nodes[j] in old(nodes);
        if i > 0 {
          assert nodes[i] == old(nodes)[i - 1];
        }
      }
    }

    twostate lemma HeadFlagged(new n: SubsNode)
      requires old(Flagged()) && chain == old(chain) && fresh(n) && nodes == [n] + old(nodes) && !n.initialized
      requires forall m | m in old(nodes) :: m.initialized == old(m.initialized)
      ensures Flagged()
    {
    }

    twostate lemma FailedSame(new n: SubsNode)
      requires nodes == [n] + old(nodes) && !n.failed && forall m | m in old(nodes) :: m.failed == old(m.failed)
      ensures FailedNames() == old(FailedNames())
    {
      var a, b := FailedNames(), old(FailedNames());
      forall x | x in b ensures x in a {
        var m :| m in old(nodes) && old(m.failed) && m.name == x;
        assert m in nodes && m.failed;
      }
      forall x | x in a ensures x in b {
        var m :| m in nodes && m.failed && m.name == x;
        assert m in old(nodes);
      }
    }

    method FindNextToInitialize() returns (n: SubsNode?)
      requires Valid()
      ensures var i := NextReady(Value(), 0);
              i <= |nodes| && n == Item(nodes, i)
    {
      hide Valid, Supported, Decls, Names;
      ListLinks(0);
      n := list;
      ghost var i: nat := 0;
      while n != null
        invariant i <= |nodes| && n == Item(nodes, i)
        invariant NextReady(Value(), 0) == NextReady(Value(), i)
        decreases |nodes| - i
      {
        ListLinks(i);
        RunningByName(n);
        if !n.initialized {
          var supported := AllRunning(n.deps);
          if supported {
            return n;
          }
        }
        n := n.next;
        i := i + 1;
      }
    }

    method AllRunning(deps: seq<string>) returns (all: bool)
      requires Valid()
      ensures all <==> Supported(Value(), deps)
    {
      hide Valid, Find, Decls, Names;
      ListLinks(0);
      var d := 0;
      while d < |deps|
        invariant 0 <= d <= |deps|
        invariant forall i | 0 <= i < d :: Find(Value().decls, deps[i]) < |Value().decls| && deps[i] in Value().running
      {
        var s := FindByName(deps[d]);
        if s == null {
          return false;
        }
        ListLinks(Find(Value().decls, deps[d]));
        RunningByName(s);
        if !s.initialized {
          return false;
        }
        d := d + 1;
      }
      all := true;
    }

    /** Starts what is ready; failing names the subsystems whose start fails in this call. */
    method InitAll(failing: set<string>) returns (ok: bool)
      requires Valid()
      modifies this, nodes
      ensures Valid() && nodes == old(nodes)
      ensures (Value(), ok) == InitRun(old(Value()), failing)
    {
      hide Valid, Value, NextReady, InitRun, Idle, Start, Fail;
      var n := FindNextToInitialize();
      while n != null
        invariant Valid() && nodes == old(nodes)
        invariant InitRun(Value(), failing) == InitRun(old(Value()), failing)
        invariant var i := NextReady(Value(), 0);
                  i <= |nodes| && n == Item(nodes, i)
        decreases |Idle(Value())|
      {
        ghost var v, i := Value(), NextReady(Value(), 0);
        ListLinks(i);
        InitUnfolds(v, failing);
        StartShrinksIdle(v, i);
        FailedByName(n);
        RunningByName(n);
        var fails := MaybeFail(n, failing);
        if fails {
          return false;
        }
        MarkStarted(n);
        n := FindNextToInitialize();
      }
      ListLinks(0);
      InitUnfolds(Value(), failing);
      ok := true;
    }

    /** Calls Init on a subsystem and reads its failure flag, which nothing resets. */
    method MaybeFail(n: SubsNode, failing: set<string>) returns (failed: bool)
      requires Valid() && n in nodes
      modifies this, n
      ensures failed <==> n.name in old(Value()).failed + failing
      ensures Valid() && nodes == old(nodes) && n.initialized == old(n.initialized)
      ensures Value() == if failed then Fail(old(Value()), n.name) else old(Value())
    {
      hide Names, Decls, Listed, Linked, Flagged, FailedNames;
      FailedByName(n);
      if n.name in failing {
        n.failed := true;
      }
      failed := n.failed;
      if failed {
        calls := calls + [StartFailed(n.name)];
        FailedGrows(n);
      } else {
        FailedKept();
      }
      ListedKept();
      LinkedKept();
      FlaggedKept();
    }

    method MarkStarted(n: SubsNode)
      requires Valid() && n in nodes && !n.initialized
      modifies this, n
      ensures Valid() && nodes == old(nodes)
      ensures Value() == Start(old(Value()), n.name)
    {
      hide Names, Decls, Listed, Linked, Flagged, FailedNames;
      n.initialized := true;
      var last := lastInit;
      lastInit := n;
      n.prevInit := last;
      chain, calls := chain + [n], calls + [Started(n.name)];
      NamesAppend(old(chain), n);
      ListedKept();
      Chained(n);
      FailedKept();
    }

    /** The state of a teardown that has come down to the first k nodes of the chain. */
    twostate predicate TornTo(k: int, new n: SubsNode?, orderly: bool)
      reads this, nodes
    {
      && nodes == old(nodes) && chain == old(chain) && list == old(list)
      && 0 <= k <= |chain| && n == Item(chain, k - 1)
      && (forall m | m in nodes :: m.next == old(m.next) && m.prevInit == old(m.prevInit) && m.failed == old(m.failed))
      && (forall m | m in nodes :: m.initialized <==> m in chain[..k])
      && calls + Teardown(Names(chain[..k]), orderly) == old(calls) + Teardown(Names(chain), orderly)
    }

    /** DestroyAll and ShutdownAll, which differ in the call they make to each subsystem. */
    method StopAll(orderly: bool)
      requires Valid()
      modifies this, nodes
      ensures Valid() && nodes == old(nodes)
      ensures Value() == Stopped(old(Value()), orderly)
    {
      hide Names, Decls, Teardown, Listed, Linked, FailedNames;
      var n := lastInit;
      ghost var k := |chain|;
      assert chain[..k] == chain;
      LastIsItem();
      while n != null
        invariant TornTo(k, n, orderly)
        decreases k
      {
        TeardownStep(chain[..k], orderly);
        assert chain[..k][..k - 1] == chain[..k - 1];
        PrevIsItem(k - 1);
        assert n in nodes;
        calls := calls + [Stop(n.name, orderly)];
        n.initialized := false;
        n := n.prevInit;
        k := k - 1;
      }
      TeardownNone(orderly);
      assert chain[..0] == [];
      assert calls + [] == calls;
      lastInit := null;
      chain := [];
      ListedKept();
      FailedKept();
      EmptyChain();
    }

    lemma LastIsItem()
      requires Linked()
      ensures lastInit == Item(chain, |chain| - 1)
    {
    }

    lemma EmptyChain()
      requires chain == [] && lastInit == null
      ensures Linked()
    {
    }

    /** The chain is linked in the old state, and each node is in it once. */
    twostate lemma PrevIsItem(i: nat)
      requires old(Linked()) && old(chain) == chain && i < |chain|
      ensures old(chain[i].prevInit) == Item(chain, i - 1)
      ensures forall m :: m in chain[..i] <==> m in chain[..i + 1] && m != chain[i]
    {
    }
  }

  lemma DeclsCons(n: SubsNode, nodes: seq<SubsNode>)
    ensures Decls([n] + nodes) == [Decl(n.name, n.deps)] + Decls(nodes)
  {
    assert ([n] + nodes)[1..] == nodes;
  }

  lemma NamesAppend(chain: seq<SubsNode>, n: SubsNode)
    ensures Names(chain + [n]) == Names(chain) + [n.name]
  {
    assert (chain + [n])[..|chain|] == chain;
  }

  lemma TeardownStep(chain: seq<SubsNode>, orderly: bool)
    requires chain != []
    ensures var k := |chain| - 1;
            Teardown(Names(chain), orderly) == [Stop(chain[k].name, orderly)] + Teardown(Names(chain[..k]), orderly)
  {
    var k := |chain| - 1;
    assert Names(chain)[..k] == Names(chain[..k]);
  }

  lemma TeardownNone(orderly: bool)
    ensures Names([]) == [] && Teardown([], orderly) == []
  {
  }
}
