/** Gateway listeners and the two ways the HTTPRoute controller computes them: the
    add-only merge of one route, and the full recomputation from a list of routes. */
module Listeners {
  import opened Options
  import opened Ordering

  const NAMESPACE_KEY := "kubernetes.io/metadata.name"

  datatype Operator = In | OtherOperator
  datatype Requirement = Requirement(key: string, operator: Operator, values: seq<string>)
  /** `matchLabels` is None for a nil label map. */
  datatype Selector = Selector(matchLabels: Option<map<string, string>>, matchExpressions: seq<Requirement>)
  datatype Tls = Tls(secret: string, namespace: string)
  /** `selector` is None when any of the pointers that lead to it is nil. */
  datatype Listener = Listener(hostname: Option<string>, tls: Option<Tls>, selector: Option<Selector>)
  datatype Route = Route(namespace: string, hostnames: seq<string>)

  type HostMap = map<string, set<string>>

  // ---------------------------------------------------------------- what listeners admit

  predicate ForNamespaces(e: Requirement) {
    e.key == NAMESPACE_KEY && e.operator == In
  }

  /** Position of the first requirement on the namespace label, or -1. */
  function RequirementIndex(es: seq<Requirement>): (i: int)
    ensures -1 <= i < |es|
    ensures i >= 0 ==> ForNamespaces(es[i]) && forall j :: 0 <= j < i ==> !ForNamespaces(es[j])
    ensures i < 0 ==> forall j :: 0 <= j < |es| ==> !ForNamespaces(es[j])
  {
    if es == [] then -1
    else if ForNamespaces(es[0]) then 0
    else
      var rest := RequirementIndex(es[1..]);
      if rest < 0 then -1 else rest + 1
  }

  /** The namespaces whose routes may attach to a listener in one of the two forms below. */
  ghost function Admitted(l: Listener): set<string> {
    if l.selector.None? then {}
    else if l.selector.value.matchLabels.Some? then
      var m := l.selector.value.matchLabels.value;
      if NAMESPACE_KEY in m then {m[NAMESPACE_KEY]} else {}
    else
      var es := l.selector.value.matchExpressions;
      var i := RequirementIndex(es);
      if i < 0 then {} else Elements(es[i].values)
  }

  /** Position of the first listener for a hostname, or -1. */
  function IndexOf(ls: seq<Listener>, h: string): (i: int)
    ensures -1 <= i < |ls|
    ensures i >= 0 ==> ls[i].hostname == Some(h) && forall j :: 0 <= j < i ==> ls[j].hostname != Some(h)
    ensures i < 0 ==> forall j :: 0 <= j < |ls| ==> ls[j].hostname != Some(h)
  {
    if ls == [] then -1
    else if ls[0].hostname == Some(h) then 0
    else
      var rest := IndexOf(ls[1..], h);
      if rest < 0 then -1 else rest + 1
  }

  ghost function Hosts(ls: seq<Listener>): (r: set<string>)
    ensures forall h :: h in r <==> IndexOf(ls, h) >= 0
  {
    set i | 0 <= i < |ls| && ls[i].hostname.Some? :: ls[i].hostname.value
  }

  /** The meaning of a Gateway: hostname to the namespaces admitted on it. */
  ghost function Meaning(ls: seq<Listener>): HostMap {
    map h | h in Hosts(ls) :: Admitted(ls[IndexOf(ls, h)])
  }

  /** Routes of namespace ns may attach to host h. */
  ghost predicate Admits(ls: seq<Listener>, h: string, ns: string) {
    h in Meaning(ls) && ns in Meaning(ls)[h]
  }

  ghost predicate UniqueHosts(ls: seq<Listener>) {
    forall i, j :: 0 <= i < j < |ls| ==> ls[i].hostname != ls[j].hostname
  }

  /** The form in which the controller writes its own listeners: one matchExpressions
      requirement with a sorted, duplicate-free list of namespaces. */
  ghost predicate ExpressionForm(l: Listener) {
    && l.hostname.Some? && l.selector.Some?
    && l.selector.value.matchLabels.None?
    && |l.selector.value.matchExpressions| == 1
    && ForNamespaces(l.selector.value.matchExpressions[0])
    && var v := l.selector.value.matchExpressions[0].values;
       v != [] && Sorted(v) && Distinct(v)
  }

  /** The older form: a single namespace label and nothing else. */
  ghost predicate LabelForm(l: Listener) {
    && l.hostname.Some? && l.selector.Some?
    && l.selector.value.matchLabels.Some?
    && l.selector.value.matchLabels.value.Keys == {NAMESPACE_KEY}
    && l.selector.value.matchExpressions == []
  }

  ghost predicate Good(ls: seq<Listener>) {
    UniqueHosts(ls) && forall i :: 0 <= i < |ls| ==> ExpressionForm(ls[i])
  }

  // ---------------------------------------------------------------- the add-only merge

  function NewListener(h: string, namespaces: seq<string>, tls: Option<Tls>): Listener {
    Listener(Some(h), tls, Some(Selector(None, [Requirement(NAMESPACE_KEY, In, namespaces)])))
  }

  /** The effect of addNamespaceToListener. */
  function NamespaceAdded(l: Listener, ns: string): Listener {
    if l.selector.None? then l
    else
      var es := l.selector.value.matchExpressions;
      var i := RequirementIndex(es);
      if i < 0 || ns in es[i].values then l
      else l.(selector := Some(l.selector.value.(
                matchExpressions := es[i := es[i].(values := Sort(es[i].values + [ns]))])))
  }

  function TlsFilled(l: Listener, tls: Option<Tls>): Listener {
    if l.tls.None? && tls.Some? then l.(tls := tls) else l
  }

  /** One iteration of updateGatewayListeners. */
  function MergeHost(ls: seq<Listener>, h: string, ns: string, tls: Option<Tls>): seq<Listener> {
    var i := IndexOf(ls, h);
    if i >= 0 then ls[i := TlsFilled(NamespaceAdded(ls[i], ns), tls)]
    else ls + [NewListener(h, [ns], tls)]
  }

  function MergeHosts(ls: seq<Listener>, hs: seq<string>, ns: string, tls: map<string, Tls>): seq<Listener>
    decreases hs
  {
    if hs == [] then ls
    else MergeHosts(MergeHost(ls, hs[0], ns, Get(tls, hs[0])), hs[1..], ns, tls)
  }

  function MergeRoute(ls: seq<Listener>, r: Route, tls: map<string, Tls>): seq<Listener> {
    MergeHosts(ls, r.hostnames, r.namespace, tls)
  }

  function MergeAll(ls: seq<Listener>, rs: seq<Route>, tls: seq<map<string, Tls>>): seq<Listener>
    requires |tls| == |rs|
    decreases rs
  {
    if rs == [] then ls
    else MergeAll(MergeRoute(ls, rs[0], tls[0]), rs[1..], tls[1..])
  }

  // ---------------------------------------------------------------- the full recomputation

  function AddPair(m: HostMap, h: string, ns: string): HostMap {
    m[h := (if h in m then m[h] else {}) + {ns}]
  }

  function AddHosts(m: HostMap, hs: seq<string>, ns: string): HostMap
    decreases hs
  {
    if hs == [] then m else AddHosts(AddPair(m, hs[0], ns), hs[1..], ns)
  }

  function AddRoutes(m: HostMap, rs: seq<Route>): HostMap
    decreases rs
  {
    if rs == [] then m else AddRoutes(AddHosts(m, rs[0].hostnames, rs[0].namespace), rs[1..])
  }

  ghost function WantedHosts(rs: set<Route>): (w: set<string>)
    ensures forall h :: h in w <==> exists r :: r in rs && h in r.hostnames
  {
    set r, h | r in rs && h in r.hostnames :: h
  }

  ghost function WantedAt(rs: set<Route>, h: string): (w: set<string>)
    ensures forall ns :: ns in w <==> exists r :: r in rs && h in r.hostnames && r.namespace == ns
  {
    set r | r in rs && h in r.hostnames :: r.namespace
  }

  /** What a set of routes asks of its Gateway, independent of any order. */
  ghost function Wanted(rs: set<Route>): HostMap {
    map h | h in WantedHosts(rs) :: WantedAt(rs, h)
  }

  ghost predicate Below(a: HostMap, b: HostMap) {
    forall h :: h in a ==> h in b && a[h] <= b[h]
  }

  lemma {:induction false} AddHostsMeaning(m: HostMap, hs: seq<string>, ns: string)
    ensures AddHosts(m, hs, ns).Keys == m.Keys + Elements(hs)
    ensures forall h :: h in m || h in hs ==>
              AddHosts(m, hs, ns)[h] == (if h in m then m[h] else {}) + (if h in hs then {ns} else {})
    decreases hs
  {
    if hs != [] {
      assert hs == [hs[0]] + hs[1..];
      AddHostsMeaning(AddPair(m, hs[0], ns), hs[1..], ns);
    }
  }

  function At(m: HostMap, h: string): set<string> {
    if h in m then m[h] else {}
  }

  lemma WantedSplit(rs: seq<Route>, h: string)
    requires rs != []
    ensures h in Wanted(Elements(rs)) <==> h in rs[0].hostnames || h in Wanted(Elements(rs[1..]))
    ensures At(Wanted(Elements(rs)), h)
         == (if h in rs[0].hostnames then {rs[0].namespace} else {}) + At(Wanted(Elements(rs[1..])), h)
  {
    assert rs == [rs[0]] + rs[1..];
    assert At(Wanted(Elements(rs)), h) == WantedAt(Elements(rs), h);
    assert At(Wanted(Elements(rs[1..])), h) == WantedAt(Elements(rs[1..]), h);
  }

  lemma {:induction false} AddRoutesAt(m: HostMap, rs: seq<Route>, h: string)
    ensures h in AddRoutes(m, rs) <==> h in m || h in Wanted(Elements(rs))
    ensures At(AddRoutes(m, rs), h) == At(m, h) + At(Wanted(Elements(rs)), h)
    decreases rs
  {
    if rs == [] {
      assert Elements(rs) == {};
    } else {
      AddHostsMeaning(m, rs[0].hostnames, rs[0].namespace);
      AddRoutesAt(AddHosts(m, rs[0].hostnames, rs[0].namespace), rs[1..], h);
      WantedSplit(rs, h);
    }
  }

  /** calculateDesiredListenerState depends only on which routes there are. */
  lemma DesiredStateIsWanted(rs: seq<Route>)
    ensures AddRoutes(map[], rs) == Wanted(Elements(rs))
  {
    var a, w := AddRoutes(map[], rs), Wanted(Elements(rs));
    forall h {:trigger h in a} ensures (h in a <==> h in w) && At(a, h) == At(w, h) {
      AddRoutesAt(map[], rs, h);
    }
  }

  method CalculateDesiredListenerState(routes: seq<Route>) returns (state: HostMap)
    ensures state == Wanted(Elements(routes))
  {
    state := map[];
    for i := 0 to |routes|
      invariant AddRoutes(state, routes[i..]) == AddRoutes(map[], routes)
    {
      var route := routes[i];
      ghost var before := state;
      for j := 0 to |route.hostnames|
        invariant AddHosts(state, route.hostnames[j..], route.namespace)
               == AddHosts(before, route.hostnames, route.namespace)
      {
        ghost var s := state;
        var h := route.hostnames[j];
        assert route.hostnames[j..][0] == h && route.hostnames[j..][1..] == route.hostnames[j + 1..];
        if h !in state {
          state := state[h := {}];
        }
        state := state[h := state[h] + {route.namespace}];
        assert state == AddPair(s, h, route.namespace);
      }
      assert routes[i..][1..] == routes[i + 1..];
    }
    DesiredStateIsWanted(routes);
  }

  // ---------------------------------------------------------------- applying the recomputation

  /** The effect of updateListenerNamespaces. */
  function NamespacesSet(l: Listener, namespaces: seq<string>): Listener {
    if l.selector.None? then l
    else
      var s := l.selector.value;
      if s.matchLabels.Some? then
        if |namespaces| == 1 then
          l.(selector := Some(s.(matchLabels := Some(s.matchLabels.value[NAMESPACE_KEY := namespaces[0]]))))
        else
          l.(selector := Some(Selector(None, [Requirement(NAMESPACE_KEY, In, namespaces)])))
      else
        var es := s.matchExpressions;
        var i := RequirementIndex(es);
        if i < 0 then l
        else l.(selector := Some(s.(matchExpressions := es[i := es[i].(values := namespaces)])))
  }

  function HostOf(l: Listener): string {
    if l.hostname.Some? then l.hostname.value else ""
  }

  /** The listeners that survive step 1, in their old order. */
  function Kept(ls: seq<Listener>, desired: HostMap): (r: seq<Listener>)
    ensures |r| <= |ls|
    ensures forall l :: l in r <==> l in ls && HostOf(l) in desired
  {
    if ls == [] then []
    else
      var n := |ls| - 1;
      Kept(ls[..n], desired) + (if HostOf(ls[n]) in desired then [ls[n]] else [])
  }

  /** A kept listener with the desired namespaces and, unless unknown, the desired TLS. */
  ghost function Refreshed(l: Listener, desired: HostMap, tls: map<string, Tls>, unknown: set<string>): Listener
    requires HostOf(l) in desired
  {
    var l1 := NamespacesSet(l, Listing(desired[HostOf(l)]));
    if HostOf(l) in unknown then l1 else l1.(tls := Get(tls, HostOf(l)))
  }

  ghost predicate Added(l: Listener, kept: seq<Listener>, desired: HostMap, tls: map<string, Tls>, unknown: set<string>) {
    && l.hostname.Some? && HostOf(l) in desired && HostOf(l) !in unknown
    && IndexOf(kept, HostOf(l)) < 0
    && l == NewListener(HostOf(l), Listing(desired[HostOf(l)]), Get(tls, HostOf(l)))
  }

  /** The first listener of its hostname: the one the controller finds. */
  predicate IsFirst(ls: seq<Listener>, i: int)
    requires 0 <= i < |ls|
  {
    IndexOf(ls, HostOf(ls[i])) == i
  }

  /** The full specification of reconcileListenersToDesiredState: what it leaves, whatever
      order it visits the desired hostnames in (the order only shows in the order of the
      added listeners). Of several listeners with one hostname only the first is refreshed. */
  ghost predicate Reconciled(before: seq<Listener>, desired: HostMap, tls: map<string, Tls>, unknown: set<string>,
                             after: seq<Listener>)
  {
    var kept := Kept(before, desired);
    && |kept| <= |after|
    && (forall i :: 0 <= i < |kept| ==>
         after[i] == if IsFirst(kept, i) then Refreshed(kept[i], desired, tls, unknown) else kept[i])
    && (forall i :: |kept| <= i < |after| ==> Added(after[i], kept, desired, tls, unknown))
    && (forall i, j :: |kept| <= i < j < |after| ==> after[i].hostname != after[j].hostname)
    && (forall h :: h in desired && h !in unknown ==> IndexOf(after, h) >= 0)
  }
}
