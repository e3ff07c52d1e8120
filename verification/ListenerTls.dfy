/** buildDesiredListenerTLS: which certificate each listener gets. The method below is the
    loop over routes and Ingress rules; its contract only mentions the set of routes, so
    the outcome is the same for every order in which they are listed. */
module ListenerTls {
  import opened Options
  import opened Ordering
  import opened Listeners

  datatype TlsEntry = TlsEntry(hosts: seq<string>, secret: string)
  datatype Ingress = Ingress(namespace: string, ruleHosts: seq<string>, tls: seq<TlsEntry>)
  /** `source` is the key "namespace/name" of the Ingress the route resolves to, if it exists. */
  datatype TlsRoute = TlsRoute(hostnames: seq<string>, managed: bool, source: string)
  datatype Candidate = Candidate(key: string, host: string)

  /** The cluster and the configuration: Ingresses by key, hostname rewriting, the
      certificate check, and the naming of automatic secrets and of mismatch reports. */
  datatype Env = Env(
    ingresses: map<string, Ingress>,
    transform: string -> string,
    certificateMatches: (string, string, seq<string>) -> bool,
    automaticSecret: (string, string) -> string,
    report: (string, string, Tls, Tls) -> string,
    gatewayNamespace: string)

  function FindTls(tls: seq<TlsEntry>, host: string): Option<TlsEntry> {
    if tls == [] then None
    else if host in tls[0].hosts then Some(tls[0])
    else FindTls(tls[1..], host)
  }

  predicate BearsTls(e: Env, i: Ingress, host: string) {
    host != "" && FindTls(i.tls, host).Some? && FindTls(i.tls, host).value.secret != ""
  }

  predicate Offers(e: Env, i: Ingress, host: string, t: string) {
    BearsTls(e, i, host) && e.transform(host) == t
  }

  /** The first of an Ingress's rule hosts that brings TLS for the transformed host t. */
  function FirstOffer(e: Env, i: Ingress, hosts: seq<string>, t: string): (r: Option<string>)
    ensures r.Some? ==> Offers(e, i, r.value, t)
  {
    if hosts == [] then None
    else
      var front := FirstOffer(e, i, hosts[..|hosts| - 1], t);
      if front.Some? then front
      else if Offers(e, i, hosts[|hosts| - 1], t) then Some(hosts[|hosts| - 1])
      else None
  }

  predicate Resolves(e: Env, r: TlsRoute) {
    r.managed && r.source in e.ingresses
  }

  predicate OffersFor(e: Env, r: TlsRoute, t: string) {
    && Resolves(e, r) && t in r.hostnames
    && var i := e.ingresses[r.source];
       FirstOffer(e, i, i.ruleHosts, t).Some?
  }

  /** Keys of the Ingresses that bring TLS for t through one of the routes. */
  ghost function Offering(e: Env, rs: set<TlsRoute>, t: string): (k: set<string>)
    ensures forall x :: x in k <==> exists r :: r in rs && OffersFor(e, r, t) && r.source == x
  {
    set r | r in rs && OffersFor(e, r, t) :: r.source
  }

  ghost function Unknown(e: Env, rs: set<TlsRoute>): (u: set<string>)
    ensures forall h :: h in u <==> exists r :: r in rs && r.managed && r.source !in e.ingresses && h in r.hostnames
  {
    set r, h | r in rs && r.managed && r.source !in e.ingresses && h in r.hostnames :: h
  }

  /** The choice for t: the Ingress with the smallest key, and its first offering rule. */
  ghost function Chosen(e: Env, rs: set<TlsRoute>, t: string): (c: Option<Candidate>)
    ensures c.Some? ==> c.value.key in e.ingresses && Offers(e, e.ingresses[c.value.key], c.value.host, t)
  {
    var keys := Offering(e, rs, t);
    if keys == {} then None
    else
      assert Elements(Listing(keys)) == keys;
      var k := Listing(keys)[0];
      assert k in keys;
      var i := e.ingresses[k];
      Some(Candidate(k, FirstOffer(e, i, i.ruleHosts, t).value))
  }

  /** The listing's head is the least key. */
  lemma LeastIsChosen(keys: set<string>, k: string)
    requires k in keys && forall x :: x in keys ==> Le(k, x)
    ensures Listing(keys)[0] == k
  {
    var l := Listing(keys);
    assert k in l && l[0] in keys by { assert Elements(l) == keys; }
    HeadLeast(l, k);
    LeAntisymmetric(l[0], k);
  }

  // ---------------------------------------------------------------- what a choice yields

  predicate Mismatch(e: Env, c: Candidate, t: string)
    requires c.key in e.ingresses
  {
    var entry := FindTls(e.ingresses[c.key].tls, c.host);
    c.host != t && entry.Some? && !e.certificateMatches(c.host, t, entry.value.hosts)
  }

  function Original(e: Env, c: Candidate): Tls
    requires c.key in e.ingresses && BearsTls(e, e.ingresses[c.key], c.host)
  {
    Tls(FindTls(e.ingresses[c.key].tls, c.host).value.secret, e.ingresses[c.key].namespace)
  }

  function Automatic(e: Env, c: Candidate, t: string): Tls
    requires c.key in e.ingresses
  {
    Tls(e.automaticSecret(e.ingresses[c.key].namespace, t), e.gatewayNamespace)
  }

  function Certificate(e: Env, c: Candidate, t: string): Tls
    requires c.key in e.ingresses && BearsTls(e, e.ingresses[c.key], c.host)
  {
    if Mismatch(e, c, t) then Automatic(e, c, t) else Original(e, c)
  }

  ghost function CertificateFor(e: Env, rs: set<TlsRoute>, h: string): Option<Tls> {
    var c := Chosen(e, rs, h);
    if c.None? || h in Unknown(e, rs) then None else Some(Certificate(e, c.value, h))
  }

  ghost predicate Reported(e: Env, rs: set<TlsRoute>, h: string) {
    var c := Chosen(e, rs, h);
    c.Some? && h !in Unknown(e, rs) && Mismatch(e, c.value, h)
  }

  ghost function Report(e: Env, rs: set<TlsRoute>, h: string): string {
    var c := Chosen(e, rs, h);
    if c.None? then "" else e.report(c.value.host, h, Original(e, c.value), Automatic(e, c.value, h))
  }

  ghost function Reports(e: Env, rs: set<TlsRoute>, hs: seq<string>): (r: seq<string>)
    ensures |r| == |hs|
  {
    if hs == [] then [] else Reports(e, rs, hs[..|hs| - 1]) + [Report(e, rs, hs[|hs| - 1])]
  }

  lemma {:induction false} ReportsSplit(e: Env, rs: set<TlsRoute>, a: seq<string>, b: seq<string>)
    ensures Reports(e, rs, a + b) == Reports(e, rs, a) + Reports(e, rs, b)
  {
    if b == [] {
      assert a + b == a;
    } else {
      assert (a + b)[..|a + b| - 1] == a + b[..|b| - 1];
      ReportsSplit(e, rs, a, b[..|b| - 1]);
    }
  }

  /** Reporting permuted hosts permutes the reports. */
  lemma {:induction false} ReportsPermuted(e: Env, rs: set<TlsRoute>, a: seq<string>, b: seq<string>)
    requires multiset(a) == multiset(b)
    ensures multiset(Reports(e, rs, a)) == multiset(Reports(e, rs, b))
  {
    assert |multiset(a)| == |a| && |multiset(b)| == |b|;
    if a != [] {
      var n := |a| - 1;
      assert a == a[..n] + [a[n]];
      assert a[n] in multiset(b);
      var k :| 0 <= k < |b| && b[k] == a[n];
      RemoveAt(a, n);
      RemoveAt(b, k);
      assert a[..n] + a[n + 1..] == a[..n];
      ReportsPermuted(e, rs, a[..n], b[..k] + b[k + 1..]);
      ReportsWithout(e, rs, b, k);
    }
  }

  lemma ReportsWithout(e: Env, rs: set<TlsRoute>, b: seq<string>, k: int)
    requires 0 <= k < |b|
    ensures multiset(Reports(e, rs, b)) == multiset(Reports(e, rs, b[..k] + b[k + 1..])) + multiset{Report(e, rs, b[k])}
  {
    assert b == b[..k] + ([b[k]] + b[k + 1..]);
    ReportsSplit(e, rs, b[..k], b[k + 1..]);
    ReportsSplit(e, rs, b[..k], [b[k]] + b[k + 1..]);
    ReportsSplit(e, rs, [b[k]], b[k + 1..]);
    assert [b[k]][..0] == [];
  }

  // ---------------------------------------------------------------- the loops

  /** One Ingress rule: keep the candidate with the smaller key, the earlier one on a tie. */
  ghost predicate Considered(e: Env, before: map<string, Candidate>, key: string, i: Ingress, hosts: seq<string>,
                             routeHosts: seq<string>, best: map<string, Candidate>)
  {
    forall t :: Get(best, t) ==
      if t in routeHosts && FirstOffer(e, i, hosts, t).Some? && (t !in before || Less(key, before[t].key))
      then Some(Candidate(key, FirstOffer(e, i, hosts, t).value))
      else Get(before, t)
  }

  /** The host considered next changes only the transformed host it offers TLS for. */
  lemma ConsideredNext(e: Env, before: map<string, Candidate>, key: string, i: Ingress, j: int,
                       routeHosts: seq<string>, best: map<string, Candidate>)
    requires 0 <= j < |i.ruleHosts| && Considered(e, before, key, i, i.ruleHosts[..j], routeHosts, best)
    ensures var host := i.ruleHosts[j];
            var t := e.transform(host);
            var taken := BearsTls(e, i, host) && t in routeHosts && (t !in best || Less(key, best[t].key));
            Considered(e, before, key, i, i.ruleHosts[..j + 1], routeHosts, if taken then best[t := Candidate(key, host)] else best)
  {
    var host := i.ruleHosts[j];
    var t := e.transform(host);
    var done := i.ruleHosts[..j + 1];
    assert done[..|done| - 1] == i.ruleHosts[..j] && done[|done| - 1] == host;
    assert Get(best, t) == if t in routeHosts && FirstOffer(e, i, i.ruleHosts[..j], t).Some? && (t !in before || Less(key, before[t].key))
      then Some(Candidate(key, FirstOffer(e, i, i.ruleHosts[..j], t).value)) else Get(before, t);
  }

  method ConsiderRoute(e: Env, route: TlsRoute, before: map<string, Candidate>) returns (best: map<string, Candidate>)
    requires route.source in e.ingresses
    ensures var i := e.ingresses[route.source];
            Considered(e, before, route.source, i, i.ruleHosts, route.hostnames, best)
  {
    hide Considered, FirstOffer;
    var i := e.ingresses[route.source];
    best := before;
    ConsideredNone(e, before, route.source, i, route.hostnames);
    assert i.ruleHosts[..0] == [];
    for j := 0 to |i.ruleHosts|
      invariant Considered(e, before, route.source, i, i.ruleHosts[..j], route.hostnames, best)
    {
      var host := i.ruleHosts[j];
      ConsideredNext(e, before, route.source, i, j, route.hostnames, best);
      if host == "" {
        continue;
      }
      var t := e.transform(host);
      if t !in route.hostnames {
        continue;
      }
      var tls := FindTls(i.tls, host);
      if tls.None? || tls.value.secret == "" {
        continue;
      }
      if t !in best || Less(route.source, best[t].key) {
        best := best[t := Candidate(route.source, host)];
      }
    }
    assert i.ruleHosts[..|i.ruleHosts|] == i.ruleHosts;
  }

  lemma ConsideredNone(e: Env, before: map<string, Candidate>, key: string, i: Ingress, routeHosts: seq<string>)
    ensures Considered(e, before, key, i, [], routeHosts, before)
  {
  }

  /** `best` holds, for every host, the choice among the routes seen so far. */
  ghost predicate BestOf(e: Env, rs: set<TlsRoute>, best: map<string, Candidate>) {
    forall t :: Get(best, t) == Chosen(e, rs, t)
  }

  lemma WithSmaller(keys: set<string>, k: string)
    ensures Elements(Listing(keys)) == keys && Elements(Listing(keys + {k})) == keys + {k}
    ensures Listing(keys + {k})[0] == if keys == {} || Less(k, Listing(keys)[0]) then k else Listing(keys)[0]
  {
    var l := Listing(keys);
    assert Elements(l) == keys && Elements(Listing(keys + {k})) == keys + {k};
    LeReflexive(k);
    if keys == {} {
      LeastIsChosen({k}, k);
      assert keys + {k} == {k};
    } else {
      assert l[0] in keys;
      forall x | x in keys ensures Le(l[0], x) { HeadLeast(l, x); }
      LeTotal(k, l[0]);
      if Less(k, l[0]) {
        forall x | x in keys + {k} ensures Le(k, x) {
          if x in keys { LeTransitive(k, l[0], x); }
        }
        LeastIsChosen(keys + {k}, k);
      } else {
        LeastIsChosen(keys + {k}, l[0]);
      }
    }
  }

  lemma ConsideredIsBest(e: Env, rs: set<TlsRoute>, before: map<string, Candidate>, route: TlsRoute,
                         best: map<string, Candidate>, t: string)
    requires BestOf(e, rs, before) && Resolves(e, route)
    requires var i := e.ingresses[route.source];
             Considered(e, before, route.source, i, i.ruleHosts, route.hostnames, best)
    ensures Get(best, t) == Chosen(e, rs + {route}, t)
  {
    hide FirstOffer;
    var keys, i := Offering(e, rs, t), e.ingresses[route.source];
    var offer := FirstOffer(e, i, i.ruleHosts, t);
    OfferingNext(e, rs, route, t);
    assert Get(before, t) == Chosen(e, rs, t);
    assert Get(best, t) == if t in route.hostnames && offer.Some? && (t !in before || Less(route.source, before[t].key))
      then Some(Candidate(route.source, offer.value)) else Get(before, t);
    if OffersFor(e, route, t) {
      WithSmaller(keys, route.source);
    } else {
      assert Offering(e, rs + {route}, t) == keys;
    }
  }

  lemma OfferingNext(e: Env, rs: set<TlsRoute>, route: TlsRoute, t: string)
    ensures Offering(e, rs + {route}, t) == Offering(e, rs, t) + if OffersFor(e, route, t) then {route.source} else {}
  {
    hide Resolves, FirstOffer;
  }

  lemma IrrelevantRoute(e: Env, rs: set<TlsRoute>, route: TlsRoute, t: string)
    requires !Resolves(e, route)
    ensures Chosen(e, rs + {route}, t) == Chosen(e, rs, t)
  {
    assert Offering(e, rs + {route}, t) == Offering(e, rs, t);
  }

  method CollectCandidates(e: Env, routes: seq<TlsRoute>) returns (best: map<string, Candidate>, unknown: set<string>)
    ensures BestOf(e, Elements(routes), best)
    ensures unknown == Unknown(e, Elements(routes))
  {
    best, unknown := map[], {};
    assert Elements(routes[..0]) == {};
    for n := 0 to |routes|
      invariant BestOf(e, Elements(routes[..n]), best)
      invariant unknown == Unknown(e, Elements(routes[..n]))
    {
      var route := routes[n];
      ghost var before, rs := best, Elements(routes[..n]);
      assert Elements(routes[..n + 1]) == rs + {route} by { assert routes[..n + 1] == routes[..n] + [route]; }
      if route.managed {
        if route.source !in e.ingresses {
          unknown := unknown + (set h | h in route.hostnames);
        } else {
          best := ConsiderRoute(e, route, best);
        }
      }
      forall t ensures Get(best, t) == Chosen(e, rs + {route}, t) {
        if Resolves(e, route) { ConsideredIsBest(e, rs, before, route, best, t); }
        else { IrrelevantRoute(e, rs, route, t); }
      }
    }
    assert routes[..|routes|] == routes;
  }

  /** One desired host: its certificate, and the report when the secret does not match. */
  method HostTls(e: Env, best: map<string, Candidate>, unknown: set<string>, h: string, ghost rs: set<TlsRoute>)
    returns (tls: Option<Tls>, report: Option<string>)
    requires BestOf(e, rs, best) && unknown == Unknown(e, rs)
    ensures tls == CertificateFor(e, rs, h)
    ensures report == if Reported(e, rs, h) then Some(Report(e, rs, h)) else None
  {
    assert Get(best, h) == Chosen(e, rs, h);
    if h !in best || h in unknown {
      return None, None;
    }
    var c := best[h];
    if c.host != h && !e.certificateMatches(c.host, h, FindTls(e.ingresses[c.key].tls, c.host).value.hosts) {
      return Some(Automatic(e, c, h)), Some(e.report(c.host, h, Original(e, c), Automatic(e, c, h)));
    }
    return Some(Original(e, c)), None;
  }

  ghost function ReportedOf(e: Env, rs: set<TlsRoute>, hs: set<string>): set<string> {
    set h | h in hs && Reported(e, rs, h)
  }

  lemma ReportsSorted(e: Env, rs: set<TlsRoute>, hosts: seq<string>, all: set<string>)
    requires Distinct(hosts) && Elements(hosts) == all
    ensures Sort(Reports(e, rs, hosts)) == Sort(Reports(e, rs, Listing(all)))
  {
    DistinctMultiset(hosts);
    DistinctMultiset(Listing(all));
    ReportsPermuted(e, rs, hosts, Listing(all));
    SortForgetsOrder(Reports(e, rs, hosts), Reports(e, rs, Listing(all)));
  }

  ghost predicate TlsVisited(e: Env, rs: set<TlsRoute>, visited: set<string>, tls: map<string, Option<Tls>>) {
    tls.Keys == visited && forall h :: h in tls ==> tls[h] == CertificateFor(e, rs, h)
  }

  ghost predicate ReportsVisited(e: Env, rs: set<TlsRoute>, visited: set<string>, texts: seq<string>, hosts: seq<string>) {
    && Distinct(hosts) && Elements(hosts) == ReportedOf(e, rs, visited)
    && texts == Reports(e, rs, hosts)
  }

  lemma VisitReports(e: Env, rs: set<TlsRoute>, visited: set<string>, texts: seq<string>, hosts: seq<string>, h: string)
    requires ReportsVisited(e, rs, visited, texts, hosts) && h !in visited
    ensures if Reported(e, rs, h)
            then ReportsVisited(e, rs, visited + {h}, texts + [Report(e, rs, h)], hosts + [h])
            else ReportsVisited(e, rs, visited + {h}, texts, hosts)
  {
    assert h !in hosts by { assert h !in Elements(hosts); }
    assert (hosts + [h])[..|hosts|] == hosts;
    assert ReportedOf(e, rs, visited + {h}) == ReportedOf(e, rs, visited) + if Reported(e, rs, h) then {h} else {};
  }

  /** The TLS choice is a function of the set of routes: the same TLS map, unknown hosts and
      sorted mismatch list for every order of the routes and of the desired hosts. */
  method BuildDesiredListenerTls(e: Env, desired: set<string>, routes: seq<TlsRoute>)
    returns (tls: map<string, Option<Tls>>, mismatches: seq<string>, unknown: set<string>)
    ensures TlsVisited(e, Elements(routes), desired, tls)
    ensures unknown == Unknown(e, Elements(routes))
    ensures mismatches == Sort(Reports(e, Elements(routes), Listing(ReportedOf(e, Elements(routes), desired))))
  {
    ghost var rs := Elements(routes);
    var best;
    best, unknown := CollectCandidates(e, routes);
    tls := map[];
    var texts: seq<string> := [];
    ghost var hosts: seq<string> := [];
    ghost var visited: set<string> := {};
    var todo := desired;
    while todo != {}
      invariant visited !! todo && visited + todo == desired
      invariant TlsVisited(e, rs, visited, tls)
      invariant ReportsVisited(e, rs, visited, texts, hosts)
    {
      var h :| h in todo;
      var certificate, report := HostTls(e, best, unknown, h, rs);
      VisitReports(e, rs, visited, texts, hosts, h);
      tls := tls[h := certificate];
      if report.Some? {
        texts := texts + [report.value];
        hosts := hosts + [h];
      }
      visited, todo := visited + {h}, todo - {h};
    }
    mismatches := Sort(texts);
    assert visited == desired;
    ReportsSorted(e, rs, hosts, ReportedOf(e, rs, desired));
  }

  /** For each host the choice is the offering Ingress with the smallest key. */
  lemma ChoiceIsSmallest(e: Env, rs: set<TlsRoute>, h: string, r: TlsRoute)
    requires r in rs && OffersFor(e, r, h)
    ensures Chosen(e, rs, h).Some? && Le(Chosen(e, rs, h).value.key, r.source)
    ensures var c := Chosen(e, rs, h).value;
            exists s :: s in rs && OffersFor(e, s, h) && s.source == c.key && Offers(e, e.ingresses[c.key], c.host, h)
  {
    var keys := Offering(e, rs, h);
    assert r.source in keys;
    assert Elements(Listing(keys)) == keys;
    HeadLeast(Listing(keys), r.source);
    assert Listing(keys)[0] in keys;
  }
}
