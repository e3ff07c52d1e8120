/** The HTTPRoute controller as a whole, for one gateway: route events, the add-only
    handler, and debounced executions that list the routes and later write the Gateway. */
module Convergence {
  import opened Options
  import opened Ordering
  import opened Listeners
  import opened Merge
  import opened Recompute
  import D = Debouncer

  const GATEWAY := "gateway"

  /** `finalized`: our finalizer was added, so a deletion is first seen as `deleting`. */
  datatype RouteObject = RouteObject(route: Route, finalized: bool, deleting: bool)

  /** `queue`: routes with an outstanding event. `listed`: what an execution that has begun
      listing saw, until it writes. */
  datatype Cluster = Cluster(
    routes: Routes,
    gateway: Option<seq<Listener>>,
    queue: set<string>,
    debouncer: D.State,
    listed: map<nat, set<Route>>)

  const Empty := Cluster(map[], None, {}, D.Initial, map[])

  /** `Merge`: the Ingress controller, having stored a route, merges it into the Gateway itself.
      `tls` and `marked` stand for the TLS found in the source Ingresses and for whether the
      mismatch annotation changed; nothing is assumed about them. */
  datatype Action =
    | Create(id: string, route: Route)
    | Delete(id: string)
    | Touch(id: string)
    | Reconcile(id: string, tls: map<string, Tls>, marked: bool)
    | Merge(id: string, tls: map<string, Tls>)
    | Fire(timer: nat)
    | Begin(timer: nat)
    | List(timer: nat)
    | Commit(timer: nat, tls: map<string, Tls>, marked: bool)

  type Routes = map<string, RouteObject>

  predicate IsLive(c: Cluster, id: string) {
    LiveIn(c.routes, id)
  }

  predicate LiveIn(routes: Routes, id: string) {
    id in routes && !routes[id].deleting
  }

  ghost function Live(c: Cluster): (r: set<Route>)
    ensures forall x :: x in r <==> exists id :: IsLive(c, id) && c.routes[id].route == x
  {
    set id | id in c.routes && IsLive(c, id) :: c.routes[id].route
  }

  function ListenersOf(c: Cluster): seq<Listener> {
    if c.gateway.Some? then c.gateway.value else []
  }

  // ---------------------------------------------------------------- the steps

  function Unqueued(c: Cluster, id: string): Cluster {
    c.(queue := c.queue - {id})
  }

  function Scheduled(c: Cluster): Cluster {
    c.(debouncer := D.AfterSchedule(c.debouncer, GATEWAY))
  }

  /** Reconcile of a route being deleted: handleHTTPRouteDelete, then the finalizer goes. */
  function AfterDeletion(c: Cluster, id: string): Cluster {
    var c1 := Unqueued(c, id).(routes := c.routes - {id});
    if c.gateway.Some? then Scheduled(c1) else c1
  }

  /** Reconcile of a live route: the finalizer, then handleHTTPRouteCreateOrUpdate. */
  function AfterHandling(c: Cluster, id: string, tls: map<string, Tls>, marked: bool): Cluster
    requires id in c.routes
  {
    var o := c.routes[id];
    var c1 := Unqueued(c, id).(routes := c.routes[id := o.(finalized := true)]);
    var merged := MergeRoute(ListenersOf(c), o.route, tls);
    var updated := marked || merged != ListenersOf(c);
    if c.gateway.Some? then
      if updated then Scheduled(c1) else c1
    else if updated && merged != [] then c1.(gateway := Some(merged))
    else c1
  }

  function AfterReconcile(c: Cluster, id: string, tls: map<string, Tls>, marked: bool): Cluster {
    if id !in c.routes then Unqueued(c, id)
    else if c.routes[id].deleting then AfterDeletion(c, id)
    else AfterHandling(c, id, tls, marked)
  }

  /** The rest of executeGatewayUpdate: reconcileGatewayListeners with the routes that were
      listed, then the deletion of an updated Gateway that has no listener left. */
  ghost predicate Committed(c: Cluster, t: nat, tls: map<string, Tls>, marked: bool, c': Cluster)
    requires t in c.listed
  {
    if c.gateway.None? then c' == c.(listed := c.listed - {t})
    else
      exists after ::
        && Reconciled(c.gateway.value, Wanted(c.listed[t]), tls, {}, after)
        && c' == c.(
             listed := c.listed - {t},
             gateway := if (marked || after != c.gateway.value) && after == [] then None else Some(after))
  }

  ghost predicate Step(c: Cluster, a: Action, c': Cluster) {
    match a
    case Create(id, r) =>
      && id !in c.routes && r.hostnames != [] && "" !in r.hostnames
      && c' == c.(routes := c.routes[id := RouteObject(r, false, false)], queue := c.queue + {id})
    case Delete(id) =>
      && IsLive(c, id)
      && c' == c.(routes := if c.routes[id].finalized then c.routes[id := c.routes[id].(deleting := true)]
                            else c.routes - {id},
                  queue := c.queue + {id})
    case Touch(id) =>
      c' == c.(queue := c.queue + {id})
    case Reconcile(id, tls, marked) =>
      id in c.queue && c' == AfterReconcile(c, id, tls, marked)
    case Merge(id, tls) =>
      id in c.routes && c' == c.(gateway := Some(MergeRoute(ListenersOf(c), c.routes[id].route, tls)))
    case Fire(t) =>
      D.Enabled(c.debouncer, D.Fire(t)) && c' == c.(debouncer := D.After(c.debouncer, D.Fire(t)))
    case Begin(t) =>
      D.Enabled(c.debouncer, D.Begin(t)) && c' == c.(debouncer := D.After(c.debouncer, D.Begin(t)))
    case List(t) =>
      && D.Enabled(c.debouncer, D.List(t))
      && c' == c.(debouncer := D.After(c.debouncer, D.List(t)), listed := c.listed[t := Live(c)])
    case Commit(t, tls, marked) =>
      t in c.listed && Committed(c, t, tls, marked, c')
  }

  /** A callback for the gateway is outstanding: its timer is due, it is about to list, or
      it has listed and not yet written. */
  ghost predicate Pending(c: Cluster, t: nat) {
    && t < |c.debouncer.timers| && c.debouncer.timers[t].gateway == GATEWAY
    && (D.Due(c.debouncer.timers[t]) || c.debouncer.timers[t].status == D.Started || t in c.listed)
  }

  ghost predicate CallbackOutstanding(c: Cluster) {
    exists t: nat :: Pending(c, t)
  }

  /** An execution writes what it listed only if that still asks for the same, or another
      callback will run after it and it does not delete the Gateway. A single-step execution
      is always harmless. */
  ghost predicate Harmless(c: Cluster, t: nat)
    requires t in c.listed
  {
    || Wanted(c.listed[t]) == Wanted(Live(c))
    || (c.listed[t] != {} && exists u: nat :: u != t && Pending(c, u))
  }

  /** Assumptions on the environment: a route is deleted only after its first reconcile, and
      executions are harmless. */
  ghost predicate Fair(c: Cluster, a: Action) {
    match a
    case Delete(id) => id in c.routes && c.routes[id].finalized
    case Commit(t, _, _) => t in c.listed && Harmless(c, t)
    case _ => true
  }

  ghost predicate Run(cs: seq<Cluster>, acts: seq<Action>) {
    && |cs| == |acts| + 1 && cs[0] == Empty
    && forall i :: 0 <= i < |acts| ==> Step(cs[i], acts[i], cs[i + 1])
  }

  ghost predicate FairRun(cs: seq<Cluster>, acts: seq<Action>) {
    Run(cs, acts) && forall i :: 0 <= i < |acts| ==> Fair(cs[i], acts[i])
  }

  // ---------------------------------------------------------------- the invariant

  ghost predicate WantedBy(o: RouteObject, h: string, ns: string) {
    h in o.route.hostnames && o.route.namespace == ns
  }

  /** Every admitted pair is asked for by a route that exists, perhaps one being deleted. */
  ghost predicate NothingExtra(ls: seq<Listener>, routes: Routes) {
    forall h, ns :: Admits(ls, h, ns) ==> exists id :: id in routes && WantedBy(routes[id], h, ns)
  }

  ghost predicate AdmittedEverywhere(ls: seq<Listener>, r: Route) {
    forall h :: h in r.hostnames ==> Admits(ls, h, r.namespace)
  }

  /** Every live route without an outstanding event is admitted on all its hosts. */
  ghost predicate NothingMissing(ls: seq<Listener>, routes: Routes, queue: set<string>) {
    forall id :: LiveIn(routes, id) && id !in queue ==> AdmittedEverywhere(ls, routes[id].route)
  }

  ghost predicate WellFormed(c: Cluster) {
    && D.Inv(c.debouncer)
    && (forall id :: id in c.routes ==> c.routes[id].route.hostnames != [] && "" !in c.routes[id].route.hostnames)
    && (forall id :: id in c.routes && c.routes[id].deleting ==> id in c.queue)
    && (forall t :: t in c.listed ==> t < |c.debouncer.timers| && c.debouncer.timers[t].status == D.Listed)
    && (forall t, r :: t in c.listed && r in c.listed[t] ==> r.hostnames != [] && "" !in r.hostnames)
    && (c.gateway.Some? ==> Good(c.gateway.value) && c.gateway.value != [])
  }

  ghost predicate Settled(ls: seq<Listener>, routes: Routes, queue: set<string>) {
    NothingExtra(ls, routes) && NothingMissing(ls, routes, queue)
  }

  ghost predicate Inv(c: Cluster) {
    && WellFormed(c)
    && (c.gateway.None? ==> forall id :: IsLive(c, id) ==> id in c.queue)
    && (c.gateway.Some? ==> CallbackOutstanding(c) || Settled(c.gateway.value, c.routes, c.queue))
  }

  lemma PendingKept(c: Cluster, c': Cluster)
    requires CallbackOutstanding(c)
    requires forall t: nat :: Pending(c, t) ==> Pending(c', t)
    ensures CallbackOutstanding(c')
  {
    var t: nat :| Pending(c, t);
    assert Pending(c', t);
  }

  lemma ScheduleIsOutstanding(c: Cluster)
    requires D.Inv(c.debouncer)
    ensures CallbackOutstanding(Scheduled(c)) && D.Inv(Scheduled(c).debouncer)
    ensures forall t: nat :: t < |c.debouncer.timers| && c.debouncer.timers[t].status == D.Listed ==>
              Scheduled(c).debouncer.timers[t] == c.debouncer.timers[t]
    ensures |Scheduled(c).debouncer.timers| > |c.debouncer.timers|
  {
    D.ScheduleKeepsInv(c.debouncer, GATEWAY);
    assert Pending(Scheduled(c), |c.debouncer.timers|);
  }

  /** A settled Gateway stays settled when every route it serves is still there and no
      further live route loses its event. */
  lemma StaysSettled(ls: seq<Listener>, routes: Routes, queue: set<string>, routes': Routes, queue': set<string>)
    requires Settled(ls, routes, queue)
    requires forall id :: id in routes && (exists h, ns :: Admits(ls, h, ns) && WantedBy(routes[id], h, ns)) ==>
               id in routes' && routes'[id].route == routes[id].route
    requires forall id :: LiveIn(routes', id) && id !in queue' ==>
               AdmittedEverywhere(ls, routes'[id].route) ||
               (LiveIn(routes, id) && id !in queue && routes'[id].route == routes[id].route)
    ensures Settled(ls, routes', queue')
  {
    forall h, ns | Admits(ls, h, ns) ensures exists id :: id in routes' && WantedBy(routes'[id], h, ns) {
      var id :| id in routes && WantedBy(routes[id], h, ns);
      assert id in routes' && WantedBy(routes'[id], h, ns);
    }
  }

  /** The steps of the environment: routes keep their hosts and events are only added. */
  lemma EnvironmentKeeps(c: Cluster, routes': Routes, queue': set<string>)
    requires Inv(c) && c.queue <= queue'
    requires forall id :: id in c.routes ==> id in routes' && routes'[id].route == c.routes[id].route
    requires forall id :: id in routes' && id !in queue' ==> id in c.routes && routes'[id].deleting == c.routes[id].deleting
    requires forall id :: id in routes' ==> routes'[id].route.hostnames != [] && "" !in routes'[id].route.hostnames
    ensures Inv(c.(routes := routes', queue := queue'))
  {
    var c' := c.(routes := routes', queue := queue');
    if CallbackOutstanding(c) {
      PendingKept(c, c');
    } else if c.gateway.Some? {
      StaysSettled(c.gateway.value, c.routes, c.queue, routes', queue');
    }
  }

  lemma GoneKeeps(c: Cluster, id: string)
    requires Inv(c) && id !in c.routes
    ensures Inv(Unqueued(c, id))
  {
    if CallbackOutstanding(c) {
      PendingKept(c, Unqueued(c, id));
    } else if c.gateway.Some? {
      StaysSettled(c.gateway.value, c.routes, c.queue, c.routes, c.queue - {id});
    }
  }

  lemma DeletionKeeps(c: Cluster, id: string)
    requires Inv(c) && id in c.routes && c.routes[id].deleting
    ensures Inv(AfterDeletion(c, id))
  {
    var c1 := Unqueued(c, id).(routes := c.routes - {id});
    assert forall i :: IsLive(c1, i) ==> IsLive(c, i) && i != id;
    if c.gateway.Some? {
      ScheduleIsOutstanding(c1);
    }
  }

  /** A live route is handled while there is no Gateway: the Gateway is created from it. */
  lemma CreationKeeps(c: Cluster, id: string, tls: map<string, Tls>, marked: bool)
    requires Inv(c) && id in c.queue && IsLive(c, id) && c.gateway.None?
    ensures Inv(AfterHandling(c, id, tls, marked))
  {
    var r, c' := c.routes[id].route, AfterHandling(c, id, tls, marked);
    var merged := MergeRoute([], r, tls);
    FirstMerge(r, tls);
    forall h, ns | Admits(merged, h, ns) ensures id in c'.routes && WantedBy(c'.routes[id], h, ns) {
    }
    forall i | LiveIn(c'.routes, i) && i !in c'.queue ensures i == id {
      if i != id { assert IsLive(c, i); }
    }
  }

  lemma FirstMerge(r: Route, tls: map<string, Tls>)
    requires r.hostnames != []
    ensures var merged := MergeRoute([], r, tls);
            && Good(merged) && merged != [] && AdmittedEverywhere(merged, r)
            && forall h, ns :: Admits(merged, h, ns) ==> h in r.hostnames && ns == r.namespace
  {
    var merged := MergeRoute([], r, tls);
    assert Good([]) && Meaning([]) == map[];
    MergeOnlyAdds([], r, tls);
    assert r.hostnames[0] in Meaning(merged);
  }

  /** A live route is handled while the Gateway exists: nothing is written, and either a
      callback is scheduled or the route was already admitted everywhere. */
  lemma HandlingKeeps(c: Cluster, id: string, tls: map<string, Tls>, marked: bool)
    requires Inv(c) && id in c.queue && IsLive(c, id) && c.gateway.Some?
    ensures Inv(AfterHandling(c, id, tls, marked))
  {
    var r, ls := c.routes[id].route, c.gateway.value;
    var c1 := Unqueued(c, id).(routes := c.routes[id := c.routes[id].(finalized := true)]);
    assert WellFormed(c1);
    if marked || MergeRoute(ls, r, tls) != ls {
      ScheduleIsOutstanding(c1);
    } else if CallbackOutstanding(c) {
      PendingKept(c, c1);
    } else {
      UnchangedMergeAdmits(ls, r, tls);
      assert AdmittedEverywhere(ls, r);
      StaysSettled(ls, c.routes, c.queue, c1.routes, c1.queue);
    }
  }

  /** The Ingress controller merges a route that is stored: only its own pairs are added. */
  lemma MergingKeeps(c: Cluster, id: string, tls: map<string, Tls>)
    requires Inv(c) && id in c.routes
    ensures Inv(c.(gateway := Some(MergeRoute(ListenersOf(c), c.routes[id].route, tls))))
  {
    var r, ls := c.routes[id].route, ListenersOf(c);
    var merged := MergeRoute(ls, r, tls);
    var c' := c.(gateway := Some(merged));
    MergedAdmits(ls, r, tls);
    if CallbackOutstanding(c) {
      PendingKept(c, c');
    } else {
      forall h, ns | Admits(merged, h, ns) ensures exists id :: id in c.routes && WantedBy(c.routes[id], h, ns) {
        if !Admits(ls, h, ns) { assert WantedBy(c.routes[id], h, ns); }
        else if c.gateway.None? { assert h in Meaning([]); }
      }
      forall i | LiveIn(c.routes, i) && i !in c.queue ensures AdmittedEverywhere(merged, c.routes[i].route) {
        assert IsLive(c, i);
      }
    }
  }

  lemma MergedAdmits(ls: seq<Listener>, r: Route, tls: map<string, Tls>)
    requires Good(ls) && r.hostnames != []
    ensures var merged := MergeRoute(ls, r, tls);
            && Good(merged) && merged != []
            && (forall h, ns :: Admits(ls, h, ns) ==> Admits(merged, h, ns))
            && (forall h, ns :: Admits(merged, h, ns) ==> Admits(ls, h, ns) || (h in r.hostnames && ns == r.namespace))
  {
    var merged := MergeRoute(ls, r, tls);
    MergeOnlyAdds(ls, r, tls);
    assert r.hostnames[0] in Meaning(merged);
  }

  /** The debouncer's own steps lose no callback. */
  lemma DebouncerStepKeeps(c: Cluster, a: D.Action, listed: map<nat, set<Route>>)
    requires Inv(c) && !a.Schedule? && D.Enabled(c.debouncer, a)
    requires listed == if a.List? then c.listed[a.timer := Live(c)] else c.listed
    ensures Inv(c.(debouncer := D.After(c.debouncer, a), listed := listed))
  {
    var c' := c.(debouncer := D.After(c.debouncer, a), listed := listed);
    D.StepKeepsInv(c.debouncer, a);
    forall r | r in Live(c) ensures r.hostnames != [] && "" !in r.hostnames {
      var id :| IsLive(c, id) && c.routes[id].route == r;
    }
    if CallbackOutstanding(c) {
      PendingKept(c, c');
    }
  }

  /** A fresh write makes the Gateway mean exactly what the live routes want. */
  lemma FreshCommit(c: Cluster, t: nat, tls: map<string, Tls>, after: seq<Listener>)
    requires WellFormed(c) && t in c.listed && c.gateway.Some?
    requires Reconciled(c.gateway.value, Wanted(c.listed[t]), tls, {}, after)
    ensures Good(after) && Meaning(after) == Wanted(c.listed[t])
    ensures after == [] <==> c.listed[t] == {}
    ensures after == [] ==> Wanted(c.listed[t]) == map[]
  {
    var w := Wanted(c.listed[t]);
    forall h | h in w ensures w[h] != {} && h != "" {
      var r :| r in c.listed[t] && h in r.hostnames;
      assert r.namespace in w[h];
    }
    RecomputedMeaning(c.gateway.value, w, tls, {}, after);
    if c.listed[t] != {} {
      var r :| r in c.listed[t];
      assert r.hostnames[0] in WantedHosts(c.listed[t]);
      assert r.hostnames[0] in Meaning(after);
    }
  }

  /** Routes with hosts want something. */
  lemma NothingIsWanted(c: Cluster)
    requires WellFormed(c)
    ensures Wanted(Live(c)) == map[] <==> Live(c) == {}
  {
    if r :| r in Live(c) {
      var id :| IsLive(c, id) && c.routes[id].route == r;
      assert r.hostnames[0] in Wanted(Live(c));
    }
  }

  /** A Gateway that means what the live routes want is settled, whatever the queue. */
  lemma WantedIsSettled(ls: seq<Listener>, c: Cluster)
    requires Meaning(ls) == Wanted(Live(c))
    ensures Settled(ls, c.routes, c.queue)
  {
    forall h, ns | Admits(ls, h, ns) ensures exists id :: id in c.routes && WantedBy(c.routes[id], h, ns) {
      var r :| r in Live(c) && h in r.hostnames && r.namespace == ns;
      var id :| IsLive(c, id) && c.routes[id].route == r;
      assert WantedBy(c.routes[id], h, ns);
    }
    forall id | LiveIn(c.routes, id) ensures AdmittedEverywhere(ls, c.routes[id].route) {
      assert IsLive(c, id);
      assert c.routes[id].route in Live(c);
    }
  }

  lemma CommitKeeps(c: Cluster, t: nat, tls: map<string, Tls>, marked: bool, c': Cluster)
    requires Inv(c) && Step(c, Commit(t, tls, marked), c') && Fair(c, Commit(t, tls, marked))
    ensures Inv(c')
  {
    hide Good, Reconciled, Wanted, Meaning, Settled;
    if c.gateway.Some? {
      var after :|
        && Reconciled(c.gateway.value, Wanted(c.listed[t]), tls, {}, after)
        && c' == c.(
             listed := c.listed - {t},
             gateway := if (marked || after != c.gateway.value) && after == [] then None else Some(after));
      FreshCommit(c, t, tls, after);
      if Wanted(c.listed[t]) == Wanted(Live(c)) {
        NothingIsWanted(c);
        FreshKeeps(c, after, c');
      } else {
        StaleKeeps(c, t, after, c');
      }
    }
  }

  /** A stale write is followed by another callback, which will correct it. */
  lemma StaleKeeps(c: Cluster, t: nat, after: seq<Listener>, c': Cluster)
    requires Inv(c) && c.gateway.Some? && Good(after) && after != []
    requires t in c.listed && exists u: nat :: u != t && Pending(c, u)
    requires c' == c.(listed := c.listed - {t}, gateway := Some(after))
    ensures Inv(c')
  {
    var u: nat :| u != t && Pending(c, u);
    assert Pending(c', u);
  }

  lemma FreshKeeps(c: Cluster, after: seq<Listener>, c': Cluster)
    requires Inv(c) && c.gateway.Some? && Good(after) && Meaning(after) == Wanted(Live(c))
    requires c'.listed.Keys <= c.listed.Keys && forall t :: t in c'.listed ==> c'.listed[t] == c.listed[t]
    requires c' == c.(listed := c'.listed, gateway := c'.gateway)
    requires c'.gateway == Some(after) || (after == [] && c'.gateway == None)
    requires after == [] ==> Live(c) == {} && c'.gateway == None
    ensures Inv(c')
  {
    WantedIsSettled(after, c);
    forall id | IsLive(c, id) ensures c.routes[id].route in Live(c) {
    }
  }

  lemma StepKeeps(c: Cluster, a: Action, c': Cluster)
    requires Inv(c) && Step(c, a, c') && Fair(c, a)
    ensures Inv(c')
  {
    match a
    case Create(id, r) => EnvironmentKeeps(c, c'.routes, c'.queue);
    case Delete(id) => EnvironmentKeeps(c, c'.routes, c'.queue);
    case Touch(id) => EnvironmentKeeps(c, c'.routes, c'.queue);
    case Reconcile(id, tls, marked) =>
      if id !in c.routes { GoneKeeps(c, id); }
      else if c.routes[id].deleting { DeletionKeeps(c, id); }
      else if c.gateway.None? { CreationKeeps(c, id, tls, marked); }
      else { HandlingKeeps(c, id, tls, marked); }
    case Merge(id, tls) => MergingKeeps(c, id, tls);
    case Fire(t) => DebouncerStepKeeps(c, D.Fire(t), c.listed);
    case Begin(t) => DebouncerStepKeeps(c, D.Begin(t), c.listed);
    case List(t) => DebouncerStepKeeps(c, D.List(t), c.listed[t := Live(c)]);
    case Commit(t, tls, marked) => CommitKeeps(c, t, tls, marked, c');
  }

  lemma {:induction false} RunKeeps(cs: seq<Cluster>, acts: seq<Action>, i: nat)
    requires FairRun(cs, acts) && i < |cs|
    ensures Inv(cs[i])
  {
    if i > 0 {
      RunKeeps(cs, acts, i - 1);
      StepKeeps(cs[i - 1], acts[i - 1], cs[i]);
    }
  }

  // ---------------------------------------------------------------- convergence

  ghost predicate Quiescent(c: Cluster) {
    c.queue == {} && !CallbackOutstanding(c)
  }

  /** The Gateway is absent exactly when there is no live route, and otherwise means exactly
      what the full recomputation over the live routes asks for. */
  ghost predicate Converged(c: Cluster) {
    && (c.gateway.None? <==> Live(c) == {})
    && (c.gateway.Some? ==> Meaning(c.gateway.value) == Wanted(Live(c)))
  }

  lemma QuiescentIsConverged(c: Cluster)
    requires Inv(c) && Quiescent(c)
    ensures Converged(c)
  {
    if c.gateway.None? {
      forall id ensures !IsLive(c, id) {
      }
    } else {
      var ls, m, w := c.gateway.value, Meaning(c.gateway.value), Wanted(Live(c));
      forall h, ns ensures Admits(ls, h, ns) <==> h in w && ns in w[h] {
        if Admits(ls, h, ns) {
          var id :| id in c.routes && WantedBy(c.routes[id], h, ns);
          assert IsLive(c, id);
          assert c.routes[id].route in Live(c);
        }
        if h in w && ns in w[h] {
          var r :| r in Live(c) && h in r.hostnames && r.namespace == ns;
          var id :| IsLive(c, id) && c.routes[id].route == r;
          assert AdmittedEverywhere(ls, r);
        }
      }
      SamePairs(ls, Live(c));
      assert HostOf(ls[0]) in m by { IndexOfUnique(ls, 0, HostOf(ls[0])); }
    }
  }

  lemma SamePairs(ls: seq<Listener>, rs: set<Route>)
    requires Good(ls)
    requires forall h, ns :: Admits(ls, h, ns) <==> h in Wanted(rs) && ns in Wanted(rs)[h]
    ensures Meaning(ls) == Wanted(rs)
  {
    var m, w := Meaning(ls), Wanted(rs);
    forall h | h in m ensures h in w {
      GoodHostAdmits(ls, h);
    }
    forall h | h in w ensures h in m {
      WantedHostHasNamespace(rs, h);
    }
    hide Meaning, Wanted, Good;
    forall h | h in m ensures m[h] == w[h] {
      forall ns ensures ns in m[h] <==> ns in w[h] {
        assert Admits(ls, h, ns) <==> ns in w[h];
      }
    }
  }

  lemma GoodHostAdmits(ls: seq<Listener>, h: string)
    requires Good(ls) && h in Meaning(ls)
    ensures exists ns :: Admits(ls, h, ns)
  {
    var v := ls[IndexOf(ls, h)].selector.value.matchExpressions[0].values;
    assert Admits(ls, h, v[0]);
  }

  lemma WantedHostHasNamespace(rs: set<Route>, h: string)
    requires h in Wanted(rs)
    ensures exists ns :: ns in Wanted(rs)[h]
  {
    var r :| r in rs && h in r.hostnames;
    assert r.namespace in Wanted(rs)[h];
  }

  /** Convergence over every run: whenever no route event and no callback is outstanding, the
      Gateway's host map equals the one computed from the live routes, and the Gateway is
      absent exactly when there are none. */
  lemma EveryRunConverges(cs: seq<Cluster>, acts: seq<Action>, i: nat)
    requires FairRun(cs, acts) && i < |cs| && Quiescent(cs[i])
    ensures Converged(cs[i])
  {
    RunKeeps(cs, acts, i);
    QuiescentIsConverged(cs[i]);
  }
}
