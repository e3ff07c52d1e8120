/** Why convergence needs harmless executions: an execution that lists the routes, lets a
    route be created and handled, and only then writes what it listed, loses that route. */
module StaleWrite {
  import opened Options
  import opened Ordering
  import opened Listeners
  import opened Merge
  import opened Convergence
  import D = Debouncer

  const R := Route("ns", ["h"])
  const L := NewListener("h", ["ns"], None)

  lemma MergeFacts()
    ensures MergeRoute([], R, map[]) == [L]
    ensures MergeRoute([L], R, map[]) == [L]
  {
    assert MergeHost([], "h", "ns", None) == [L];
    assert IndexOf([L], "h") == 0;
    var es := [Requirement(NAMESPACE_KEY, In, ["ns"])];
    assert RequirementIndex(es) == 0;
    assert NamespaceAdded(L, "ns") == L;
    assert MergeHost([L], "h", "ns", None) == [L];
    assert R.hostnames[1..] == [];
    assert MergeHosts([L], [], "ns", map[]) == [L];
  }

  lemma NothingWanted()
    ensures Wanted({}) == map[]
    ensures Kept([L], map[]) == []
    ensures Reconciled([L], Wanted({}), map[], {}, [])
  {
    assert Wanted({}) == map[];
    assert Kept([L][..0], map[]) == [];
  }

  const Created := RouteObject(R, false, false)
  const Handled := RouteObject(R, true, false)

  function D1(): D.State { D.AfterSchedule(D.Initial, GATEWAY) }
  function D2(): D.State { D.After(D1(), D.Fire(0)) }
  function D3(): D.State { D.After(D2(), D.Begin(0)) }
  function D4(): D.State { D.After(D3(), D.List(0)) }

  /** "a" is created, handled and deleted; its deletion schedules an execution. */
  function C1(): Cluster { Cluster(map["a" := Created], None, {"a"}, D.Initial, map[]) }
  function C2(): Cluster { Cluster(map["a" := Handled], Some([L]), {}, D.Initial, map[]) }
  function C3(): Cluster { Cluster(map["a" := Handled.(deleting := true)], Some([L]), {"a"}, D.Initial, map[]) }
  function C4(): Cluster { Cluster(map[], Some([L]), {}, D1(), map[]) }

  lemma FirstSteps()
    ensures Step(Empty, Create("a", R), C1())
    ensures Step(C1(), Reconcile("a", map[], false), C2())
    ensures Step(C2(), Delete("a"), C3()) && Fair(C2(), Delete("a"))
    ensures Step(C3(), Reconcile("a", map[], false), C4())
  {
    MergeFacts();
    assert {"a"} - {"a"} == {};
    assert C1().routes["a" := Handled] == C2().routes;
    assert C3().routes - {"a"} == map[];
  }

  /** The execution begins and lists no route. */
  function C5(): Cluster { C4().(debouncer := D2()) }
  function C6(): Cluster { C4().(debouncer := D3()) }
  function C7(): Cluster { C4().(debouncer := D4(), listed := map[0 := {}]) }

  lemma MiddleSteps()
    ensures Step(C4(), Fire(0), C5()) && Step(C5(), Begin(0), C6()) && Step(C6(), List(0), C7())
  {
    assert Live(C6()) == {};
  }

  /** "b" is created and handled; then the execution writes. */
  function C8(): Cluster { C7().(routes := map["b" := Created], queue := {"b"}) }
  function C9(): Cluster { C7().(routes := map["b" := Handled]) }
  function C10(): Cluster { C9().(gateway := None, listed := map[]) }

  lemma LastSteps()
    ensures Step(C7(), Create("b", R), C8())
    ensures Step(C8(), Reconcile("b", map[], false), C9())
    ensures Step(C9(), Commit(0, map[], false), C10())
  {
    MergeFacts();
    NothingWanted();
    assert C7().routes["b" := Created] == C8().routes;
    assert {"b"} - {"b"} == {};
    assert C8().routes["b" := Handled] == C9().routes;
    assert C9().listed - {0} == map[];
    assert Reconciled(C9().gateway.value, Wanted(C9().listed[0]), map[], {}, []);
  }

  lemma NothingIsLeft()
    ensures Quiescent(C10()) && Live(C10()) == {R} && !Converged(C10())
  {
    assert D4().timers == [D.Timer(GATEWAY, D.Listed)];
    assert IsLive(C10(), "b");
    assert Live(C10()) == {R};
  }

  lemma Extend(cs: seq<Cluster>, acts: seq<Action>, a: Action, c: Cluster)
    requires FairRun(cs, acts) && Step(cs[|acts|], a, c)
    ensures Run(cs + [c], acts + [a])
    ensures forall i :: 0 <= i < |acts| ==> Fair((cs + [c])[i], (acts + [a])[i])
    ensures Fair(cs[|acts|], a) ==> FairRun(cs + [c], acts + [a])
  {
  }

  lemma RunToC4() returns (cs: seq<Cluster>, acts: seq<Action>)
    ensures FairRun(cs, acts) && |acts| == 4 && cs[4] == C4()
  {
    FirstSteps();
    cs, acts := [Empty], [];
    Extend(cs, acts, Create("a", R), C1());
    cs, acts := cs + [C1()], acts + [Create("a", R)];
    Extend(cs, acts, Reconcile("a", map[], false), C2());
    cs, acts := cs + [C2()], acts + [Reconcile("a", map[], false)];
    Extend(cs, acts, Delete("a"), C3());
    cs, acts := cs + [C3()], acts + [Delete("a")];
    Extend(cs, acts, Reconcile("a", map[], false), C4());
    cs, acts := cs + [C4()], acts + [Reconcile("a", map[], false)];
  }

  lemma RunToC7() returns (cs: seq<Cluster>, acts: seq<Action>)
    ensures FairRun(cs, acts) && |acts| == 7 && cs[7] == C7()
  {
    cs, acts := RunToC4();
    MiddleSteps();
    Extend(cs, acts, Fire(0), C5());
    cs, acts := cs + [C5()], acts + [Fire(0)];
    Extend(cs, acts, Begin(0), C6());
    cs, acts := cs + [C6()], acts + [Begin(0)];
    Extend(cs, acts, List(0), C7());
    cs, acts := cs + [C7()], acts + [List(0)];
  }

  /** The route "a" is gone and the execution has listed no route when "b" (same host, same
      namespace) is created and handled; then the execution writes. The Gateway is deleted
      although "b" is live, and nothing is left that would bring it back. */
  lemma StaleWriteLosesARoute() returns (cs: seq<Cluster>, acts: seq<Action>)
    ensures Run(cs, acts) && |acts| == 10
    ensures forall i :: 0 <= i < 9 ==> Fair(cs[i], acts[i])
    ensures Quiescent(cs[10]) && Live(cs[10]) == {R} && cs[10].gateway == None
    ensures !Converged(cs[10])
  {
    cs, acts := RunToC7();
    LastSteps();
    NothingIsLeft();
    Extend(cs, acts, Create("b", R), C8());
    cs, acts := cs + [C8()], acts + [Create("b", R)];
    Extend(cs, acts, Reconcile("b", map[], false), C9());
    cs, acts := cs + [C9()], acts + [Reconcile("b", map[], false)];
    Extend(cs, acts, Commit(0, map[], false), C10());
    cs, acts := cs + [C10()], acts + [Commit(0, map[], false)];
  }
}
