/** Handing external-dns back to a restored Ingress: its HTTPRoutes always stop publishing, a
    Gateway only when no other route still needs it. The program decides that with three
    counters per Gateway; here the counters are shown to mean what they are for. */
module DerivedDns {
  import opened Options
  import opened Ordering
  import opened Text
  import opened HttpRoutes
  import opened Ownership
  import ReferenceGrants
  import IngressState

  const GATEWAY_SOURCE := "external-dns.alpha.kubernetes.io/gateway-hostname-source"
  const ORIGINAL_GATEWAY_SOURCE := "ingress-doperator.fiction.si/original-external-dns-gateway-hostname-source"

  datatype Parent = Parent(namespace: Option<string>, name: string)
  datatype Route = Route(annotations: Annotations, parents: seq<Parent>)
  type Routes = map<Key, Route>
  type Counters = map<string, nat>

  // ---------------------------------------------------------------- references and counters

  /** "namespace/name" of the object a parent reference names. */
  function ParentRefKey(namespace: string, p: Parent): Option<string> {
    if p.name == "" then None
    else Some((if p.namespace.Some? && p.namespace.value != "" then p.namespace.value else namespace) + "/" + p.name)
  }

  function Refs(namespace: string, parents: seq<Parent>, g: string): nat {
    if parents == [] then 0
    else
      Refs(namespace, parents[..|parents| - 1], g)
      + if ParentRefKey(namespace, parents[|parents| - 1]) == Some(g) then 1 else 0
  }

  function RefsOf(routes: Routes, k: Key, g: string): nat
    requires k in routes
  {
    Refs(k.namespace, routes[k].parents, g)
  }

  /** The reference names Gateway g, read off its fields: the name is the Gateway's, and so is the
      namespace, where an absent or empty one means the route's own. */
  predicate Names(namespace: string, p: Parent, g: Key) {
    && p.name != "" && p.name == g.name
    && if p.namespace in {None, Some("")} then namespace == g.namespace else p.namespace == Some(g.namespace)
  }

  predicate References(routes: Routes, k: Key, g: Key)
    requires k in routes
  {
    exists p :: p in routes[k].parents && Names(k.namespace, p, g)
  }

  /** As every namespace that the API server accepts. */
  predicate PlainParents(namespace: string, parents: seq<Parent>) {
    Plain(namespace) && forall p :: p in parents && p.namespace.Some? ==> Plain(p.namespace.value)
  }

  predicate PlainNamespaces(routes: Routes) {
    forall k :: k in routes ==> PlainParents(k.namespace, routes[k].parents)
  }

  lemma KeyNames(namespace: string, p: Parent, g: Key)
    requires Plain(namespace) && Plain(g.namespace) && (p.namespace.Some? ==> Plain(p.namespace.value))
    ensures ParentRefKey(namespace, p) == Some(Path(g)) <==> Names(namespace, p, g)
  {
    if p.name != "" {
      var named := Key(if p.namespace.Some? && p.namespace.value != "" then p.namespace.value else namespace, p.name);
      assert ParentRefKey(namespace, p) == Some(Path(named));
      if Path(named) == Path(g) {
        PathsDiffer(named, g);
      }
    }
  }

  ghost function Naming(namespace: string, parents: seq<Parent>, g: Key): set<int> {
    set n | 0 <= n < |parents| && Names(namespace, parents[n], g)
  }

  /** The counter counts each reference to the Gateway once. */
  lemma {:induction false} RefsCount(namespace: string, parents: seq<Parent>, g: Key)
    requires PlainParents(namespace, parents) && Plain(g.namespace)
    ensures Refs(namespace, parents, Path(g)) == |Naming(namespace, parents, g)|
  {
    if parents != [] {
      var n := |parents| - 1;
      RefsCount(namespace, parents[..n], g);
      KeyNames(namespace, parents[n], g);
      NamingNext(namespace, parents, g);
      hide Names, Path, ParentRefKey, Naming;
    }
  }

  lemma NamingNext(namespace: string, parents: seq<Parent>, g: Key)
    requires parents != []
    ensures var n := |parents| - 1;
            && n !in Naming(namespace, parents[..n], g)
            && Naming(namespace, parents, g) ==
                 Naming(namespace, parents[..n], g) + if Names(namespace, parents[n], g) then {n} else {}
  {
    hide Names;
  }

  lemma RefsMeaning(namespace: string, parents: seq<Parent>, g: Key)
    requires PlainParents(namespace, parents) && Plain(g.namespace)
    ensures Refs(namespace, parents, Path(g)) > 0 <==> exists p :: p in parents && Names(namespace, p, g)
  {
    RefsCount(namespace, parents, g);
    hide Names, Path, Refs;
    if p :| p in parents && Names(namespace, p, g) {
      var n :| 0 <= n < |parents| && parents[n] == p;
      assert n in Naming(namespace, parents, g);
    }
    if n :| n in Naming(namespace, parents, g) {
      assert parents[n] in parents;
    }
  }

  ghost function Sum(routes: Routes, s: set<Key>, g: string): nat
    requires s <= routes.Keys
  {
    if s == {} then 0
    else
      var k :| k in s;
      RefsOf(routes, k, g) + Sum(routes, s - {k}, g)
  }

  lemma {:induction false} SumSplit(routes: Routes, s: set<Key>, k: Key, g: string)
    requires s <= routes.Keys && k in s
    ensures Sum(routes, s, g) == RefsOf(routes, k, g) + Sum(routes, s - {k}, g)
    decreases s
  {
    var first :| first in s && Sum(routes, s, g) == RefsOf(routes, first, g) + Sum(routes, s - {first}, g);
    if first != k {
      SumSplit(routes, s - {first}, k, g);
      SumSplit(routes, s - {k}, first, g);
      assert s - {first} - {k} == s - {k} - {first};
    }
  }

  /** A part counts as much as the whole exactly when the rest holds no reference. */
  lemma {:induction false} SumOfPart(routes: Routes, part: set<Key>, s: set<Key>, g: string)
    requires part <= s <= routes.Keys
    ensures Sum(routes, part, g) <= Sum(routes, s, g)
    ensures Sum(routes, part, g) == Sum(routes, s, g) <==> forall k :: k in s - part ==> RefsOf(routes, k, g) == 0
    decreases s - part
  {
    if s - part == {} {
      assert forall k :: k in s ==> k in part || k in s - part;
      assert part == s;
    } else {
      var k :| k in s - part;
      SumSplit(routes, s, k, g);
      SumOfPart(routes, part, s - {k}, g);
    }
  }

  lemma SumIsZero(routes: Routes, s: set<Key>, g: string)
    requires s <= routes.Keys
    ensures Sum(routes, s, g) == 0 <==> forall k :: k in s ==> RefsOf(routes, k, g) == 0
  {
    SumOfPart(routes, {}, s, g);
  }

  function CountAt(c: Counters, g: string): nat {
    if g in c then c[g] else 0
  }

  method CountParents(c: Counters, namespace: string, parents: seq<Parent>) returns (r: Counters)
    ensures forall g :: CountAt(r, g) == CountAt(c, g) + Refs(namespace, parents, g)
  {
    r := c;
    for i := 0 to |parents|
      invariant forall g :: CountAt(r, g) == CountAt(c, g) + Refs(namespace, parents[..i], g)
    {
      assert parents[..i + 1][..i] == parents[..i];
      var key := ParentRefKey(namespace, parents[i]);
      if key.Some? {
        r := r[key.value := CountAt(r, key.value) + 1];
      }
    }
    assert parents[..|parents|] == parents;
  }

  ghost predicate Counts(c: Counters, routes: Routes, s: set<Key>)
    requires s <= routes.Keys
  {
    forall g :: CountAt(c, g) == Sum(routes, s, g)
  }

  lemma CountsNext(c: Counters, routes: Routes, s: set<Key>, k: Key, c': Counters)
    requires s <= routes.Keys && k in routes && k !in s && Counts(c, routes, s)
    requires forall g :: CountAt(c', g) == CountAt(c, g) + Refs(k.namespace, routes[k].parents, g)
    ensures Counts(c', routes, s + {k})
  {
    forall g ensures CountAt(c', g) == Sum(routes, s + {k}, g) {
      SumSplit(routes, s + {k}, k, g);
      assert s + {k} - {k} == s;
    }
  }

  // ---------------------------------------------------------------- annotations

  function DnsDisabled(a: Annotations): Annotations {
    if Annotation(a, GATEWAY_SOURCE) == IngressState.ANNOTATION_ONLY then a
    else
      var b := a[GATEWAY_SOURCE := IngressState.ANNOTATION_ONLY];
      var c := if Annotation(b, IngressState.HOSTNAME) != "" && IngressState.ORIGINAL_HOSTNAME !in b
               then b[IngressState.ORIGINAL_HOSTNAME := b[IngressState.HOSTNAME]] else b;
      if GATEWAY_SOURCE in a && ORIGINAL_GATEWAY_SOURCE !in c then c[ORIGINAL_GATEWAY_SOURCE := a[GATEWAY_SOURCE]] else c
  }

  method ApplyExternalDnsDisableAnnotations(a: Annotations) returns (r: Annotations, modified: bool)
    ensures r == DnsDisabled(a) && modified == (r != a)
  {
    r, modified := a, false;
    var changed := false;
    if Annotation(a, GATEWAY_SOURCE) != IngressState.ANNOTATION_ONLY {
      r := r[GATEWAY_SOURCE := IngressState.ANNOTATION_ONLY];
      modified, changed := true, true;
    }
    if changed {
      if IngressState.HOSTNAME in r && r[IngressState.HOSTNAME] != "" && IngressState.ORIGINAL_HOSTNAME !in r {
        r := r[IngressState.ORIGINAL_HOSTNAME := r[IngressState.HOSTNAME]];
      }
      if GATEWAY_SOURCE in a && ORIGINAL_GATEWAY_SOURCE !in r {
        r := r[ORIGINAL_GATEWAY_SOURCE := a[GATEWAY_SOURCE]];
      }
      SourceChanged(a);
    }
  }

  lemma SourceChanged(a: Annotations)
    requires Annotation(a, GATEWAY_SOURCE) != IngressState.ANNOTATION_ONLY
    ensures Annotation(DnsDisabled(a), GATEWAY_SOURCE) == IngressState.ANNOTATION_ONLY
  {
    assert GATEWAY_SOURCE != ORIGINAL_GATEWAY_SOURCE && GATEWAY_SOURCE != IngressState.ORIGINAL_HOSTNAME;
  }

  /** Disabling twice changes nothing more; afterwards external-dns reads annotations only, and
      the hostname and the source that were set before can be told, unless told already. Every
      other annotation is as before. */
  lemma DnsDisabledMeaning(a: Annotations, k: string)
    ensures var d := DnsDisabled(a);
            && DnsDisabled(d) == d && Get(d, GATEWAY_SOURCE) == Some(IngressState.ANNOTATION_ONLY)
            && (k !in {GATEWAY_SOURCE, ORIGINAL_GATEWAY_SOURCE, IngressState.ORIGINAL_HOSTNAME} ==> Get(d, k) == Get(a, k))
            && (d != a && Get(a, ORIGINAL_GATEWAY_SOURCE) == None ==> Get(d, ORIGINAL_GATEWAY_SOURCE) == Get(a, GATEWAY_SOURCE))
            && (d != a && Get(a, IngressState.ORIGINAL_HOSTNAME) == None ==>
                 Annotation(d, IngressState.ORIGINAL_HOSTNAME) == Annotation(a, IngressState.HOSTNAME))
            && (Get(a, ORIGINAL_GATEWAY_SOURCE) != None ==> Get(d, ORIGINAL_GATEWAY_SOURCE) == Get(a, ORIGINAL_GATEWAY_SOURCE))
            && (Get(a, IngressState.ORIGINAL_HOSTNAME) != None ==>
                 Get(d, IngressState.ORIGINAL_HOSTNAME) == Get(a, IngressState.ORIGINAL_HOSTNAME))
  {
    NamesDiffer();
    SourceChanges(a);
    hide IngressState.N, GATEWAY_SOURCE, ORIGINAL_GATEWAY_SOURCE;
  }

  lemma SourceChanges(a: Annotations)
    ensures DnsDisabled(a) != a <==> Annotation(a, GATEWAY_SOURCE) != IngressState.ANNOTATION_ONLY
  {
    if Annotation(a, GATEWAY_SOURCE) != IngressState.ANNOTATION_ONLY {
      SourceChanged(a);
    }
  }

  lemma NamesDiffer()
    ensures GATEWAY_SOURCE !in {ORIGINAL_GATEWAY_SOURCE, IngressState.ORIGINAL_HOSTNAME, IngressState.HOSTNAME}
    ensures ORIGINAL_GATEWAY_SOURCE !in {IngressState.ORIGINAL_HOSTNAME, IngressState.HOSTNAME}
    ensures IngressState.ORIGINAL_HOSTNAME != IngressState.HOSTNAME && IngressState.ANNOTATION_ONLY != ""
  {
  }

  /** A route counts as updated exactly when its hostname source changes or it gets marked. */
  lemma RouteUpdated(r: Route)
    ensures RouteDisabled(r) != r <==>
              Annotation(r.annotations, GATEWAY_SOURCE) != IngressState.ANNOTATION_ONLY || Annotation(r.annotations, IngressState.DISABLED) == ""
    ensures Annotation(RouteDisabled(r).annotations, IngressState.DISABLED) ==
              if Annotation(r.annotations, IngressState.DISABLED) == "" then IngressState.EXTERNAL_DNS
              else Annotation(r.annotations, IngressState.DISABLED)
    ensures forall k :: k != IngressState.DISABLED ==> Get(RouteDisabled(r).annotations, k) == Get(DnsDisabled(r.annotations), k)
  {
    SourceChanges(r.annotations);
    DnsDisabledMeaning(r.annotations, IngressState.DISABLED);
    DnsDisabledMeaning(r.annotations, GATEWAY_SOURCE);
    assert IngressState.DISABLED !in {GATEWAY_SOURCE, ORIGINAL_GATEWAY_SOURCE, IngressState.ORIGINAL_HOSTNAME};
    assert IngressState.EXTERNAL_DNS != "";
    hide DnsDisabled;
  }

  function RouteDisabled(r: Route): (d: Route)
    ensures d.parents == r.parents
  {
    var a := DnsDisabled(r.annotations);
    r.(annotations := if Annotation(a, IngressState.DISABLED) == "" then a[IngressState.DISABLED := IngressState.EXTERNAL_DNS] else a)
  }

  // ---------------------------------------------------------------- what is promised

  function Own(routes: Routes, ingress: Key): (o: set<Key>)
    ensures forall k :: k in o <==> k in routes && IsOwn(k, routes[k].annotations, ingress)
  {
    set k | k in routes && IsOwn(k, routes[k].annotations, ingress)
  }

  function Changed(routes: Routes, s: set<Key>): (o: set<Key>)
    ensures forall k :: k in o <==> k in s && k in routes && RouteDisabled(routes[k]) != routes[k]
  {
    set k | k in s && k in routes && RouteDisabled(routes[k]) != routes[k]
  }

  /** Own routes that this run changes. */
  function Updated(routes: Routes, ingress: Key): set<Key> {
    Changed(routes, Own(routes, ingress))
  }

  /** Some route references the Gateway, and every route that does is own and updated. */
  ghost predicate Covered(routes: Routes, ingress: Key, g: Key) {
    && (exists k :: k in routes && References(routes, k, g))
    && forall k :: k in routes && References(routes, k, g) ==> k in Updated(routes, ingress)
  }

  /** Counting implies coverage, and the other way round. */
  lemma CountersMeanCoverage(routes: Routes, ingress: Key, totals: Counters, managed: Counters, updated: Counters, g: Key)
    requires PlainNamespaces(routes) && Plain(g.namespace)
    requires Counts(totals, routes, routes.Keys)
    requires Counts(managed, routes, set k | k in routes && Managed(routes[k].annotations))
    requires Counts(updated, routes, Updated(routes, ingress))
    ensures Agree(totals, managed, updated, Path(g)) <==> Covered(routes, ingress, g)
  {
    var ms := set k | k in routes && Managed(routes[k].annotations);
    var key := Path(g);
    SumIsZero(routes, routes.Keys, key);
    SumOfPart(routes, ms, routes.Keys, key);
    SumOfPart(routes, Updated(routes, ingress), routes.Keys, key);
    assert Updated(routes, ingress) <= ms;
    forall k | k in routes ensures RefsOf(routes, k, key) > 0 <==> References(routes, k, g) {
      RefsMeaning(k.namespace, routes[k].parents, g);
    }
    hide Refs, References, RefsOf, Sum;
  }

  /** The three counters of a Gateway agree and are not zero. */
  predicate Agree(totals: Counters, managed: Counters, updated: Counters, g: string) {
    CountAt(totals, g) != 0 && CountAt(updated, g) == CountAt(totals, g) && CountAt(managed, g) == CountAt(totals, g)
  }

  function RoutesAfter(routes: Routes, ingress: Key): Routes {
    map k | k in routes :: if k in Own(routes, ingress) then RouteDisabled(routes[k]) else routes[k]
  }

  predicate ManagedWith(a: Annotations, ingress: Key) {
    Managed(a) && Path(ingress) in ReferenceGrants.Sources(Annotation(a, SOURCE))
  }

  /** Managed, and with the Ingress among its comma-separated sources. */
  lemma ManagedWithMeaning(a: Annotations, ingress: Key)
    ensures ManagedWith(a, ingress) <==>
              && Annotation(a, MANAGED_BY) == MANAGED_BY_VALUE
              && exists part :: part in Split(Annotation(a, SOURCE), ',') && Trim(part) == ingress.namespace + "/" + ingress.name
  {
    var source := Annotation(a, SOURCE);
    ReferenceGrants.NonBlankMeaning(Split(source, ','), Path(ingress));
    assert Split("", ',') == [""] && Trim("") == "" && Path(ingress) != "" by { assert |Path(ingress)| > 0; }
  }

  ghost predicate Between(routes: Routes, ingress: Key, now: Routes) {
    && now.Keys == routes.Keys
    && forall k :: k in routes ==> now[k] == routes[k] || now[k] == RoutesAfter(routes, ingress)[k]
  }

  /** Safe at every moment: a Gateway that differs from before was covered, and every route
      that references it has been updated. */
  ghost predicate Safe(routes: Routes, gateways: map<Key, Annotations>, ingress: Key, now: Routes, gatewaysNow: map<Key, Annotations>) {
    && Between(routes, ingress, now) && gatewaysNow.Keys == gateways.Keys
    && forall g :: g in gateways && gatewaysNow[g] != gateways[g] ==>
         && gatewaysNow[g] == DnsDisabled(gateways[g]) && ManagedWith(gateways[g], ingress)
         && Covered(routes, ingress, g)
         && now == RoutesAfter(routes, ingress)
  }

  // ---------------------------------------------------------------- the operation

  class Cluster {
    var routes: Routes
    var gateways: map<Key, Annotations>

    constructor (routes: Routes, gateways: map<Key, Annotations>)
      ensures this.routes == routes && this.gateways == gateways
    {
      this.routes, this.gateways := routes, gateways;
    }

    method ApiUpdateRoute(k: Key, r: Route) returns (ok: bool)
      requires k in routes
      modifies `routes
      ensures routes == old(routes) || routes == old(routes)[k := r]
      ensures ok ==> routes == old(routes)[k := r]
    {
      var lost: bool := *;
      if lost {
        return false;
      }
      routes := routes[k := r];
      ok := *;
    }

    method ApiUpdateGateway(g: Key, a: Annotations) returns (ok: bool)
      requires g in gateways
      modifies `gateways
      ensures gateways == old(gateways) || gateways == old(gateways)[g := a]
      ensures ok ==> gateways == old(gateways)[g := a]
    {
      var lost: bool := *;
      if lost {
        return false;
      }
      gateways := gateways[g := a];
      ok := *;
    }

    /** totals and managed: one count per parent reference of every route in the cluster. */
    method CountAll() returns (totals: Counters, managed: Counters)
      ensures Counts(totals, routes, routes.Keys)
      ensures Counts(managed, routes, set k | k in routes && Managed(routes[k].annotations))
    {
      totals, managed := map[], map[];
      var todo := routes.Keys;
      ghost var done: set<Key> := {};
      while todo != {}
        invariant todo !! done && todo + done == routes.Keys
        invariant Counts(totals, routes, done)
        invariant Counts(managed, routes, set k | k in done && Managed(routes[k].annotations))
      {
        var k :| k in todo;
        ghost var before, ms := totals, set x | x in done && Managed(routes[x].annotations);
        totals := CountParents(totals, k.namespace, routes[k].parents);
        CountsNext(before, routes, done, k, totals);
        if Managed(routes[k].annotations) {
          before := managed;
          managed := CountParents(managed, k.namespace, routes[k].parents);
          CountsNext(before, routes, ms, k, managed);
          assert (set x | x in done + {k} && Managed(routes[x].annotations)) == ms + {k};
        } else {
          assert (set x | x in done + {k} && Managed(routes[x].annotations)) == ms;
        }
        todo, done := todo - {k}, done + {k};
      }
      assert done == routes.Keys;
    }

    method UpdateRoute(k: Key) returns (modified: bool, ok: bool)
      requires k in routes
      modifies `routes
      ensures routes == old(routes) || routes == old(routes)[k := RouteDisabled(old(routes)[k])]
      ensures modified == (RouteDisabled(old(routes)[k]) != old(routes)[k])
      ensures ok ==> routes == old(routes)[k := RouteDisabled(old(routes)[k])]
    {
      var a;
      a, modified := ApplyExternalDnsDisableAnnotations(routes[k].annotations);
      if Annotation(a, IngressState.DISABLED) == "" {
        a, modified := a[IngressState.DISABLED := IngressState.EXTERNAL_DNS], true;
      }
      assert routes[k].(annotations := a) == RouteDisabled(routes[k]);
      ok := true;
      if modified {
        ok := ApiUpdateRoute(k, routes[k].(annotations := a));
      }
    }

    /** Updates the own routes and counts the references of those that changed. */
    method UpdateRoutes(ingress: Key) returns (updated: Counters, ok: bool)
      modifies `routes
      ensures Between(old(routes), ingress, routes)
      ensures ok ==> routes == RoutesAfter(old(routes), ingress) && Counts(updated, old(routes), Updated(old(routes), ingress))
    {
      hide RouteDisabled, RefsOf, Refs, Sum, RoutesMidway, Between, Counts;
      updated := map[];
      var todo := Own(routes, ingress);
      ghost var start, done: set<Key> := routes, {};
      CountsNothing(start);
      MidwayMeaning(start, done, ingress);
      while todo != {}
        invariant todo !! done && todo + done == Own(start, ingress)
        invariant routes == RoutesMidway(start, done)
        invariant Counts(updated, start, Changed(start, done))
      {
        var k :| k in todo;
        ghost var before, us := updated, Changed(start, done);
        assert k in Own(start, ingress) && done + {k} <= Own(start, ingress);
        MidwayNext(start, done, k);
        MidwayMeaning(start, done, ingress);
        MidwayMeaning(start, done + {k}, ingress);
        var modified;
        modified, ok := UpdateRoute(k);
        if !ok {
          return;
        }
        if modified {
          updated := CountParents(updated, k.namespace, routes[k].parents);
          CountsNext(before, start, us, k, updated);
          assert Changed(start, done + {k}) == us + {k};
        } else {
          assert Changed(start, done + {k}) == us;
        }
        todo, done := todo - {k}, done + {k};
      }
      ok := true;
      assert done == Own(start, ingress);
      MidwayMeaning(start, done, ingress);
      assert Changed(start, done) == Updated(start, ingress);
    }

    /** Updates the covered Gateways. */
    method UpdateGateways(ingress: Key, totals: Counters, managed: Counters, updated: Counters, ghost start: Routes) returns (ok: bool)
      requires forall g :: g in gateways ==> (Agree(totals, managed, updated, Path(g)) <==> Covered(start, ingress, g))
      modifies `gateways
      ensures gateways.Keys == old(gateways).Keys
      ensures forall g :: g in gateways && gateways[g] != old(gateways)[g] ==>
                ManagedWith(old(gateways)[g], ingress) && Covered(start, ingress, g) && gateways[g] == DnsDisabled(old(gateways)[g])
      ensures ok ==> forall g :: g in gateways ==>
                gateways[g] == if ManagedWith(old(gateways)[g], ingress) && Covered(start, ingress, g) then DnsDisabled(old(gateways)[g])
                               else old(gateways)[g]
    {
      hide Covered, ManagedWith, DnsDisabled, Path;
      var todo := gateways.Keys;
      ghost var done: set<Key> := {};
      while todo != {}
        invariant todo !! done && todo + done == gateways.Keys == old(gateways).Keys
        invariant forall g :: g in todo ==> gateways[g] == old(gateways)[g]
        invariant forall g :: g in done ==>
                    gateways[g] == if ManagedWith(old(gateways)[g], ingress) && Covered(start, ingress, g) then DnsDisabled(old(gateways)[g])
                                   else old(gateways)[g]
      {
        var g :| g in todo;
        todo, done := todo - {g}, done + {g};
        if !ManagedWith(gateways[g], ingress) {
          continue;
        }
        var key := Path(g);
        if CountAt(totals, key) == 0 || CountAt(updated, key) != CountAt(totals, key) || CountAt(managed, key) != CountAt(totals, key) {
          continue;
        }
        var a, modified := ApplyExternalDnsDisableAnnotations(gateways[g]);
        if modified {
          ok := ApiUpdateGateway(g, a);
          if !ok {
            return;
          }
        }
      }
      ok := true;
    }

    method DisableExternalDnsForDerived(ingress: Key) returns (ok: bool)
      requires PlainNamespaces(routes) && forall g :: g in gateways ==> Plain(g.namespace)
      modifies this
      ensures Safe(old(routes), old(gateways), ingress, routes, gateways)
      ensures ok ==> routes == RoutesAfter(old(routes), ingress)
                     && forall g :: g in gateways ==>
                          gateways[g] == if ManagedWith(old(gateways)[g], ingress) && Covered(old(routes), ingress, g)
                                         then DnsDisabled(old(gateways)[g]) else old(gateways)[g]
    {
      var listed: bool := *;
      if !listed {
        return false;
      }
      ghost var start := routes;
      var totals, managed := CountAll();
      if Own(routes, ingress) == {} {
        return false;
      }
      var updated;
      updated, ok := UpdateRoutes(ingress);
      if !ok {
        return;
      }
      forall g | g in gateways ensures Agree(totals, managed, updated, Path(g)) <==> Covered(start, ingress, g) {
        CountersMeanCoverage(start, ingress, totals, managed, updated, g);
      }
      ok := UpdateGateways(ingress, totals, managed, updated, start);
    }
  }

  lemma MidwayNext(routes: Routes, done: set<Key>, k: Key)
    requires k in routes && k !in done
    ensures RoutesMidway(routes, done)[k] == routes[k]
    ensures RoutesMidway(routes, done)[k := RouteDisabled(routes[k])] == RoutesMidway(routes, done + {k})
  {
    hide RouteDisabled;
  }

  lemma MidwayMeaning(routes: Routes, done: set<Key>, ingress: Key)
    ensures RoutesMidway(routes, {}) == routes
    ensures done <= Own(routes, ingress) ==> Between(routes, ingress, RoutesMidway(routes, done))
    ensures RoutesMidway(routes, Own(routes, ingress)) == RoutesAfter(routes, ingress)
    ensures RoutesMidway(routes, done).Keys == routes.Keys
  {
    hide RouteDisabled;
  }

  lemma CountsNothing(routes: Routes)
    ensures Changed(routes, {}) == {} && Counts(map[], routes, {})
  {
  }

  function RoutesMidway(routes: Routes, done: set<Key>): Routes {
    map k | k in routes :: if k in done then RouteDisabled(routes[k]) else routes[k]
  }
}
