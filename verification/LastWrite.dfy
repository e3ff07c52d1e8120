/** Exactly when the Gateway has converged, in every run, whether or not its executions are
    harmless: when the routes it was last computed from ask for what the live routes ask for. */
module LastWrite {
  import opened Options
  import opened Ordering
  import opened Listeners
  import opened Merge
  import opened Convergence
  import D = Debouncer

  // ---------------------------------------------------------------- what the Gateway was told

  /** The step writes the Gateway: an execution replaces what it was told by the routes it
      listed; a handler that creates the Gateway, and the Ingress controller, add a route. */
  predicate Writes(c: Cluster, a: Action) {
    match a
    case Commit(t, _, _) => t in c.listed && c.gateway.Some?
    case Reconcile(id, _, _) => IsLive(c, id) && c.gateway.None?
    case Merge(id, _) => id in c.routes
    case _ => false
  }

  function ToldBy(c: Cluster, a: Action, told: set<Route>): set<Route> {
    if !Writes(c, a) then told
    else
      match a
      case Commit(t, _, _) => c.listed[t]
      case Reconcile(id, _, _) => told + {c.routes[id].route}
      case Merge(id, _) => told + {c.routes[id].route}
      case _ => told
  }

  /** The routes from which the Gateway of state i was computed. */
  function Told(cs: seq<Cluster>, acts: seq<Action>, i: nat): set<Route>
    requires i <= |acts| && i < |cs|
  {
    if i == 0 then {} else ToldBy(cs[i - 1], acts[i - 1], Told(cs, acts, i - 1))
  }

  ghost predicate HaveHosts(rs: set<Route>) {
    forall r :: r in rs ==> r.hostnames != [] && "" !in r.hostnames
  }

  /** The Gateway means what it was told. */
  ghost predicate Obeys(c: Cluster, told: set<Route>) {
    && HaveHosts(told) && (c.gateway.None? <==> told == {})
    && (c.gateway.Some? ==> Meaning(c.gateway.value) == Wanted(told))
  }

  // ---------------------------------------------------------------- steps

  lemma WantedMore(rs: set<Route>, r: Route, ls: seq<Listener>, tls: map<string, Tls>)
    requires Good(ls) && Meaning(ls) == Wanted(rs) && r.hostnames != []
    ensures var merged := MergeRoute(ls, r, tls);
            Good(merged) && merged != [] && Meaning(merged) == Wanted(rs + {r})
  {
    MergeHostsMeaning(ls, r.hostnames, r.namespace, tls);
    MergedAdmits(ls, r, tls);
    WantedPlus(rs, r);
    hide Good, Meaning, Wanted, AddHosts, Admits;
  }

  lemma WantedPlus(rs: set<Route>, r: Route)
    ensures AddHosts(Wanted(rs), r.hostnames, r.namespace) == Wanted(rs + {r})
  {
    var m, w := AddHosts(Wanted(rs), r.hostnames, r.namespace), Wanted(rs + {r});
    AddHostsMeaning(Wanted(rs), r.hostnames, r.namespace);
    forall h {:trigger h in m} ensures h in m <==> h in w
      ensures h in m ==> m[h] == w[h]
    {
      WantedWith(rs, r, h);
    }
  }

  lemma WantedWith(rs: set<Route>, r: Route, h: string)
    ensures h in Wanted(rs + {r}) <==> h in Wanted(rs) || h in r.hostnames
    ensures At(Wanted(rs + {r}), h) == At(Wanted(rs), h) + if h in r.hostnames then {r.namespace} else {}
  {
    assert At(Wanted(rs), h) == WantedAt(rs, h);
    assert At(Wanted(rs + {r}), h) == WantedAt(rs + {r}, h);
  }

  lemma WantedNothing()
    ensures Wanted({}) == map[] && Meaning([]) == map[]
  {
  }

  /** Whatever the executions write, the state stays well-formed and the Gateway obeys. */
  lemma StepObeys(c: Cluster, a: Action, c': Cluster, told: set<Route>)
    requires WellFormed(c) && Obeys(c, told) && Step(c, a, c')
    ensures WellFormed(c') && Obeys(c', ToldBy(c, a, told))
  {
    hide WellFormed, Obeys;
    match a
    case Create(id, r) => EventObeys(c, a, c', told);
    case Delete(id) => EventObeys(c, a, c', told);
    case Touch(id) => EventObeys(c, a, c', told);
    case Reconcile(id, tls, marked) => ReconcileObeys(c, id, tls, marked, told);
    case Merge(id, tls) => MergeObeys(c, id, tls, told);
    case Fire(t) => TimerObeys(c, D.Fire(t), told);
    case Begin(t) => TimerObeys(c, D.Begin(t), told);
    case List(t) => ListObeys(c, t, c', told);
    case Commit(t, tls, marked) => CommitObeys(c, t, tls, marked, c', told);
  }

  lemma EventObeys(c: Cluster, a: Action, c': Cluster, told: set<Route>)
    requires WellFormed(c) && Obeys(c, told) && Step(c, a, c') && (a.Create? || a.Delete? || a.Touch?)
    ensures WellFormed(c') && Obeys(c', told)
  {
    hide Good, Meaning, Wanted, D.Inv;
  }

  lemma TimerObeys(c: Cluster, a: D.Action, told: set<Route>)
    requires WellFormed(c) && Obeys(c, told) && (a.Fire? || a.Begin?) && D.Enabled(c.debouncer, a)
    ensures var c' := c.(debouncer := D.After(c.debouncer, a));
            WellFormed(c') && Obeys(c', told)
  {
    D.StepKeepsInv(c.debouncer, a);
    hide Good, Meaning, Wanted, D.Inv;
  }

  lemma ReconcileObeys(c: Cluster, id: string, tls: map<string, Tls>, marked: bool, told: set<Route>)
    requires WellFormed(c) && Obeys(c, told) && id in c.queue
    ensures WellFormed(AfterReconcile(c, id, tls, marked))
    ensures Obeys(AfterReconcile(c, id, tls, marked), ToldBy(c, Reconcile(id, tls, marked), told))
  {
    if IsLive(c, id) && c.gateway.Some? {
      HandledObeys(c, id, tls, marked, told);
    } else if IsLive(c, id) {
      CreatedObeys(c, id, tls, marked, told);
      assert told == {};
    } else {
      GoneObeys(c, id, tls, marked, told);
    }
    hide WellFormed, Obeys, AfterHandling;
  }

  lemma GoneObeys(c: Cluster, id: string, tls: map<string, Tls>, marked: bool, told: set<Route>)
    requires WellFormed(c) && Obeys(c, told) && id in c.queue && !IsLive(c, id)
    ensures WellFormed(AfterReconcile(c, id, tls, marked)) && Obeys(AfterReconcile(c, id, tls, marked), told)
  {
    hide Good, Meaning, Wanted, D.Inv;
    if id in c.routes {
      ScheduleIsOutstanding(Unqueued(c, id).(routes := c.routes - {id}));
    }
  }

  lemma HandledObeys(c: Cluster, id: string, tls: map<string, Tls>, marked: bool, told: set<Route>)
    requires WellFormed(c) && Obeys(c, told) && IsLive(c, id) && c.gateway.Some?
    ensures WellFormed(AfterHandling(c, id, tls, marked)) && Obeys(AfterHandling(c, id, tls, marked), told)
  {
    hide Good, Meaning, Wanted, MergeRoute, D.Inv;
    ScheduleIsOutstanding(Unqueued(c, id).(routes := c.routes[id := c.routes[id].(finalized := true)]));
  }

  lemma CreatedObeys(c: Cluster, id: string, tls: map<string, Tls>, marked: bool, told: set<Route>)
    requires WellFormed(c) && Obeys(c, told) && IsLive(c, id) && c.gateway.None?
    ensures var c' := AfterHandling(c, id, tls, marked);
            WellFormed(c') && told == {} && Obeys(c', {} + {c.routes[id].route})
  {
    WantedNothing();
    assert Good([]);
    WantedMore({}, c.routes[id].route, [], tls);
    NewGateway(c, id, tls, marked, MergeRoute([], c.routes[id].route, tls));
  }

  lemma NewGateway(c: Cluster, id: string, tls: map<string, Tls>, marked: bool, merged: seq<Listener>)
    requires WellFormed(c) && IsLive(c, id) && c.gateway.None?
    requires merged == MergeRoute([], c.routes[id].route, tls) && Good(merged) && merged != []
    requires Meaning(merged) == Wanted({} + {c.routes[id].route})
    ensures var c' := AfterHandling(c, id, tls, marked);
            WellFormed(c') && Obeys(c', {} + {c.routes[id].route})
  {
    hide Good, Meaning, Wanted, MergeRoute, D.Inv;
  }

  lemma MergeObeys(c: Cluster, id: string, tls: map<string, Tls>, told: set<Route>)
    requires WellFormed(c) && Obeys(c, told) && id in c.routes
    ensures var c' := c.(gateway := Some(MergeRoute(ListenersOf(c), c.routes[id].route, tls)));
            WellFormed(c') && Obeys(c', told + {c.routes[id].route})
  {
    WantedNothing();
    WantedMore(told, c.routes[id].route, ListenersOf(c), tls);
  }

  lemma ListObeys(c: Cluster, t: nat, c': Cluster, told: set<Route>)
    requires WellFormed(c) && Obeys(c, told) && Step(c, List(t), c')
    ensures WellFormed(c') && Obeys(c', told)
  {
    D.StepKeepsInv(c.debouncer, D.List(t));
    forall r | r in Live(c) ensures r.hostnames != [] && "" !in r.hostnames {
      var id :| IsLive(c, id) && c.routes[id].route == r;
    }
  }

  lemma CommitObeys(c: Cluster, t: nat, tls: map<string, Tls>, marked: bool, c': Cluster, told: set<Route>)
    requires WellFormed(c) && Obeys(c, told) && Step(c, Commit(t, tls, marked), c')
    ensures WellFormed(c') && Obeys(c', ToldBy(c, Commit(t, tls, marked), told))
  {
    if c.gateway.Some? {
      var after := CommittedListeners(c, t, tls, marked, c');
      FreshCommit(c, t, tls, after);
    }
  }

  lemma CommittedListeners(c: Cluster, t: nat, tls: map<string, Tls>, marked: bool, c': Cluster) returns (after: seq<Listener>)
    requires t in c.listed && c.gateway.Some? && Committed(c, t, tls, marked, c')
    ensures Reconciled(c.gateway.value, Wanted(c.listed[t]), tls, {}, after)
    ensures c' == c.(listed := c.listed - {t},
                     gateway := if (marked || after != c.gateway.value) && after == [] then None else Some(after))
  {
    after :|
      && Reconciled(c.gateway.value, Wanted(c.listed[t]), tls, {}, after)
      && c' == c.(
           listed := c.listed - {t},
           gateway := if (marked || after != c.gateway.value) && after == [] then None else Some(after));
  }

  // ---------------------------------------------------------------- runs

  lemma EmptyObeys()
    ensures WellFormed(Empty) && Obeys(Empty, {})
  {
  }

  lemma {:induction false} RunObeys(cs: seq<Cluster>, acts: seq<Action>, i: nat)
    requires Run(cs, acts) && i < |cs|
    ensures WellFormed(cs[i]) && Obeys(cs[i], Told(cs, acts, i))
  {
    hide WellFormed, Obeys, Step, ToldBy;
    EmptyObeys();
    if i > 0 {
      RunObeys(cs, acts, i - 1);
      StepObeys(cs[i - 1], acts[i - 1], cs[i], Told(cs, acts, i - 1));
    }
  }

  lemma NothingIsAsked(rs: set<Route>)
    requires HaveHosts(rs)
    ensures Wanted(rs) == map[] <==> rs == {}
  {
    if r :| r in rs {
      assert r.hostnames[0] in Wanted(rs);
    } else {
      WantedNothing();
    }
  }

  lemma LiveHaveHosts(c: Cluster)
    requires WellFormed(c)
    ensures HaveHosts(Live(c))
  {
    forall r | r in Live(c) ensures r.hostnames != [] && "" !in r.hostnames {
      var id :| IsLive(c, id) && c.routes[id].route == r;
    }
  }

  /** In every state of every run, quiescent or not, fair or not: the Gateway has converged if
      and only if the routes it was last told about ask for what the live routes ask for. */
  lemma ConvergedExactly(cs: seq<Cluster>, acts: seq<Action>, i: nat)
    requires Run(cs, acts) && i < |cs|
    ensures Converged(cs[i]) <==> Wanted(Told(cs, acts, i)) == Wanted(Live(cs[i]))
  {
    RunObeys(cs, acts, i);
    LiveHaveHosts(cs[i]);
    NothingIsAsked(Live(cs[i]));
    NothingIsAsked(Told(cs, acts, i));
    hide Wanted, Meaning, Told;
  }

  lemma {:induction false} ToldStays(cs: seq<Cluster>, acts: seq<Action>, n: nat, i: nat)
    requires Run(cs, acts) && n < i < |cs|
    requires forall j :: n < j < i ==> !Writes(cs[j], acts[j])
    ensures Told(cs, acts, i) == ToldBy(cs[n], acts[n], Told(cs, acts, n))
    decreases i
  {
    if i > n + 1 {
      ToldStays(cs, acts, n, i - 1);
    }
  }

  /** If an execution made the last write, stale or not, the Gateway has converged if and only
      if the host map it listed is the one of the routes that are live now. */
  lemma LastExecutionDecides(cs: seq<Cluster>, acts: seq<Action>, n: nat, i: nat)
    requires Run(cs, acts) && n < i < |cs| && acts[n].Commit? && cs[n].gateway.Some?
    requires forall j :: n < j < i ==> !Writes(cs[j], acts[j])
    ensures acts[n].timer in cs[n].listed
    ensures Converged(cs[i]) <==> Wanted(cs[n].listed[acts[n].timer]) == Wanted(Live(cs[i]))
  {
    assert Step(cs[n], acts[n], cs[n + 1]);
    ToldStays(cs, acts, n, i);
    ConvergedExactly(cs, acts, i);
  }

  /** One write: it converges if and only if it lists what the live routes ask for. */
  lemma WriteConverges(c: Cluster, t: nat, tls: map<string, Tls>, marked: bool, c': Cluster)
    requires WellFormed(c) && c.gateway.Some? && Step(c, Commit(t, tls, marked), c')
    ensures Converged(c') <==> Wanted(c.listed[t]) == Wanted(Live(c))
  {
    var after := CommittedListeners(c, t, tls, marked, c');
    FreshCommit(c, t, tls, after);
    NothingIsWanted(c);
    NothingIsAsked(c.listed[t]);
    SameLive(c, c');
    Decided(c.listed[t], after, c');
  }

  lemma Decided(told: set<Route>, after: seq<Listener>, c': Cluster)
    requires Meaning(after) == Wanted(told) && (after == [] <==> Wanted(told) == map[])
    requires c'.gateway == if after == [] then None else Some(after)
    requires Wanted(Live(c')) == map[] <==> Live(c') == {}
    ensures Converged(c') <==> Wanted(told) == Wanted(Live(c'))
  {
    hide Meaning, Wanted, Live;
  }

  lemma SameLive(c: Cluster, c': Cluster)
    requires c'.routes == c.routes
    ensures Live(c') == Live(c)
  {
    assert forall id :: IsLive(c', id) <==> IsLive(c, id);
  }
}
