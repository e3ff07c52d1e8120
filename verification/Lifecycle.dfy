/** From a source Ingress to HTTPRoutes and Gateway listeners, and only then out of service.
    Any API call may fail. */
module Lifecycle {
  import opened Options
  import opened Ordering
  import opened HttpRoutes
  import opened Ownership
  import opened Canary
  import opened Listeners
  import opened GatewayObject
  import opened MergeAdmits
  import opened HttpRouteManager
  import IngressState

  const CANARY := "nginx.ingress.kubernetes.io/canary"
  const IGNORE := "ingress-doperator.fiction.si/ignore-ingress"
  const REMOVED := "ingress-doperator.fiction.si/removed"

  datatype Mode = NoMode | DisableMode | RemoveMode | DisableDnsMode

  datatype Ingress = Ingress(state: IngressState.Ingress, rules: seq<IngressRule>, deleting: bool)

  /** Settings, and what is decided outside this module: hostname rewriting, class filters,
      filters and annotations copied to the route, listener TLS and the merged mismatch text. */
  datatype Config = Config(
    ps: Patterns,
    transform: string -> string,
    passesClassFilters: string -> bool,
    emptyClass: string,
    gatewayName: string,
    oneGatewayPerIngress: bool,
    mode: Mode,
    selfDeleted: Key -> bool,
    filters: Annotations -> seq<Filter>,
    copied: Annotations -> Annotations,
    tls: Ingress -> map<string, Tls>,
    mergedMismatch: (Ingress, string) -> Option<string>)

  datatype StoredGateway = StoredGateway(managed: bool, listeners: seq<Listener>, mismatch: string)

  // ---------------------------------------------------------------- decisions

  function ClassOf(c: Config, i: Ingress): string {
    if i.state.className.Some? && i.state.className.value != "" then i.state.className.value
    else if Annotation(i.state.annotations, IngressState.CLASS) != "" then Annotation(i.state.annotations, IngressState.CLASS)
    else c.emptyClass
  }

  predicate IsCanary(i: Ingress) {
    Annotation(i.state.annotations, CANARY) == "true"
  }

  predicate ShouldInclude(c: Config, k: Key, i: Ingress) {
    && Annotation(i.state.annotations, IGNORE) != "true"
    && c.passesClassFilters(ClassOf(c, i))
    && Annotation(i.state.annotations, REMOVED) != "true"
    && ClassOf(c, i) != IngressState.DISABLED_CLASS
    && !c.selfDeleted(k)
  }

  predicate HasHostnames(i: Ingress) {
    exists r :: r in i.rules && r.host != ""
  }

  function EffectiveMode(c: Config, i: Ingress): Mode {
    var reason := Annotation(i.state.annotations, IngressState.DISABLED);
    if reason == IngressState.NORMAL then DisableMode
    else if reason == IngressState.EXTERNAL_DNS then DisableDnsMode
    else c.mode
  }

  function GatewayNameFor(c: Config, k: Key, i: Ingress): string {
    if c.oneGatewayPerIngress then k.name
    else if ClassOf(c, i) in {"", "default"} then c.gatewayName
    else ClassOf(c, i)
  }

  predicate SharesHostPath(a: Ingress, b: Ingress) {
    exists r, s :: r in a.rules && s in b.rules && r.host == s.host && r.paths.Some? && s.paths.Some?
      && exists p, q :: p in r.paths.value && q in s.paths.value && p.path == q.path
  }

  // ---------------------------------------------------------------- translation

  function HostnamesOf(c: Config, rules: seq<IngressRule>): seq<string> {
    if rules == [] then []
    else
      var r := rules[|rules| - 1];
      HostnamesOf(c, rules[..|rules| - 1]) + if r.host == "" then [] else [c.transform(r.host)]
  }

  /** Each non-empty host is among the hostnames, transformed; and nothing else. */
  lemma {:induction false} HostnamesMeaning(c: Config, rules: seq<IngressRule>)
    ensures forall h :: h in HostnamesOf(c, rules) <==> exists r :: r in rules && r.host != "" && c.transform(r.host) == h
  {
    if rules != [] {
      var n := |rules| - 1;
      HostnamesMeaning(c, rules[..n]);
      assert forall r :: r in rules <==> r in rules[..n] || r == rules[n];
    }
  }

  /** One parent reference per hostname, to the listener of that name. */
  function ParentsOf(gateway: string, hostnames: seq<string>): (r: seq<Parent>)
    ensures |r| == |hostnames| && forall n :: 0 <= n < |r| ==> r[n] == Parent(gateway, hostnames[n])
  {
    seq(|hostnames|, n requires 0 <= n < |hostnames| => Parent(gateway, hostnames[n]))
  }

  function Translation(c: Config, k: Key, i: Ingress, canaries: seq<CanaryIngress>): HttpRoute {
    HttpRoute(k, Body(
      c.copied(i.state.annotations)[MANAGED_BY := MANAGED_BY_VALUE][SOURCE := Path(k)],
      map[],
      Spec(HostnamesOf(c, i.rules), ParentsOf(GatewayNameFor(c, k, i), HostnamesOf(c, i.rules)),
           AllRules(c.ps, Flatten(i.rules), LastWins(Offers(canaries)), c.filters(i.state.annotations)))))
  }

  method TranslateToHttpRouteWithCanaries(c: Config, k: Key, i: Ingress, canaries: seq<CanaryIngress>) returns (r: HttpRoute)
    ensures r == Translation(c, k, i, canaries)
  {
    var annotations := c.copied(i.state.annotations);
    annotations := annotations[MANAGED_BY := MANAGED_BY_VALUE];
    annotations := annotations[SOURCE := Path(k)];
    var hostnames := [];
    for n := 0 to |i.rules|
      invariant hostnames == HostnamesOf(c, i.rules[..n])
    {
      assert i.rules[..n + 1][..n] == i.rules[..n];
      if i.rules[n].host != "" {
        hostnames := hostnames + [c.transform(i.rules[n].host)];
      }
    }
    assert i.rules[..|i.rules|] == i.rules;
    var gateway, parents := GatewayNameFor(c, k, i), [];
    for n := 0 to |hostnames|
      invariant parents == ParentsOf(gateway, hostnames[..n])
    {
      parents := parents + [Parent(gateway, hostnames[n])];
    }
    assert hostnames[..|hostnames|] == hostnames;
    var entries := CollectCanaryEntries(canaries);
    var rules := BuildHttpRouteRules(c.ps, i.rules, entries, c.filters(i.state.annotations));
    r := HttpRoute(k, Body(annotations, map[], Spec(hostnames, parents, rules)));
  }

  /** Which Gateway: the Ingress's own name, or the one of its class, or the default one. */
  lemma GatewayMeaning(c: Config, k: Key, i: Ingress)
    ensures var g, name, legacy := GatewayNameFor(c, k, i), i.state.className, Annotation(i.state.annotations, IngressState.CLASS);
            && (c.oneGatewayPerIngress ==> g == k.name)
            && (!c.oneGatewayPerIngress ==>
                 && (name.Some? && name.value !in {"", "default"} ==> g == name.value)
                 && (name == Some("default") ==> g == c.gatewayName)
                 && (name in {None, Some("")} && legacy !in {"", "default"} ==> g == legacy)
                 && (name in {None, Some("")} && legacy == "default" ==> g == c.gatewayName)
                 && (name in {None, Some("")} && legacy == "" ==> g == if c.emptyClass in {"", "default"} then c.gatewayName else c.emptyClass))
  {
  }

  /** What is left alone: ignored, filtered and removed Ingresses, and any that was disabled. */
  lemma LeftAlone(c: Config, k: Key, i: Ingress)
    ensures Annotation(i.state.annotations, IGNORE) == "true" || Annotation(i.state.annotations, REMOVED) == "true" ==> !ShouldInclude(c, k, i)
    ensures c.selfDeleted(k) || !c.passesClassFilters(ClassOf(c, i)) ==> !ShouldInclude(c, k, i)
    ensures i.state.className == Some(IngressState.DISABLED_CLASS) ==> !ShouldInclude(c, k, i)
    ensures IngressState.AfterDisable(i.state) != i.state ==>
              !ShouldInclude(c, k, i.(state := IngressState.AfterDisable(i.state)))
  {
    assert IngressState.DISABLED_CLASS != "";
    IngressState.DisabledName(i.state);
    hide IngressState.N;
  }

  /** The translated route is annotated as ours, and otherwise as the Ingress's copied annotations. */
  lemma TranslationIsAnnotated(c: Config, k: Key, i: Ingress, canaries: seq<CanaryIngress>, name: string)
    ensures var a := Translation(c, k, i, canaries).body.annotations;
            && (name !in {MANAGED_BY, SOURCE} ==> Get(a, name) == Get(c.copied(i.state.annotations), name))
            && Annotation(a, MANAGED_BY) == MANAGED_BY_VALUE && Annotation(a, SOURCE) == k.namespace + "/" + k.name
  {
    assert MANAGED_BY != SOURCE;
  }

  lemma TranslationIsOurs(c: Config, k: Key, i: Ingress, canaries: seq<CanaryIngress>)
    ensures ManagedFor(Translation(c, k, i, canaries).body.annotations, k)
  {
    assert MANAGED_BY != SOURCE;
  }

  /** Applying the parts of the translated route converges, as for any route of its own. */
  lemma TranslatedRouteConverges(c: Config, k: Key, i: Ingress, canaries: seq<CanaryIngress>, parts: seq<HttpRoute>,
                                 r0: Routes, r1: Routes, r2: Routes)
    requires IsSplit(Translation(c, k, i, canaries), parts)
    requires AppliedAtomically(r0, k, parts, r1) && AppliedAtomically(r1, k, parts, r2)
    ensures Exactly(r0, k, parts, r2) <==> NoForeignHolder(r0, k, parts)
  {
    TranslationIsOurs(c, k, i, canaries);
    SplitPartsAreApplicable(Translation(c, k, i, canaries), parts);
    TwoCallsConverge(r0, k, parts, r1, r2);
  }

  // ---------------------------------------------------------------- made before

  /** What the operator reads and writes. */
  datatype World = World(routes: Routes, gateways: Gateways, ingresses: Ingresses)
  type Gateways = map<string, StoredGateway>
  type Ingresses = map<Key, Ingress>

  ghost predicate PartsInPlace(c: Config, k: Key, i: Ingress, canaries: seq<CanaryIngress>, parts: seq<HttpRoute>, routes: Routes) {
    IsSplit(Translation(c, k, i, canaries), parts) && forall p :: p in parts ==> InPlace(routes, p)
  }

  /** Every hostname of a part has a parent reference, and every parent reference names a stored
      Gateway of ours, on a listener that lets the namespace in unless it is shut. */
  ghost predicate PartsOpen(parts: seq<HttpRoute>, ns: string, gateways: Gateways) {
    forall p :: p in parts ==>
      && (forall h :: h in p.body.spec.hostnames ==> exists q :: q in p.body.spec.parents && q.section == h)
      && forall q :: q in p.body.spec.parents ==>
           q.gateway in gateways && gateways[q.gateway].managed && IsOpen(gateways[q.gateway].listeners, q.section, ns)
  }

  ghost predicate IsOpen(ls: seq<Listener>, h: string, ns: string) {
    Admits(ls, h, ns) <==> !Shut(ls, h, ns)
  }

  /** Everything that is to replace the Ingress is there, in these routes and Gateways. */
  ghost predicate MadeBefore(c: Config, k: Key, i: Ingress, canaries: seq<CanaryIngress>, parts: seq<HttpRoute>,
                             routes: Routes, gateways: Gateways)
  {
    && ShouldInclude(c, k, i) && HasHostnames(i) && !IsCanary(i) && MayBreak(c, i)
    && PartsInPlace(c, k, i, canaries, parts, routes)
    && PartsOpen(parts, k.namespace, gateways)
  }

  /** The Ingress may be taken out of service: it was before, or the mode says so; but not when
      only external-dns is to let go of it. */
  predicate MayBreak(c: Config, i: Ingress) {
    var reason := Annotation(i.state.annotations, IngressState.DISABLED);
    reason != IngressState.EXTERNAL_DNS && (reason == IngressState.NORMAL || c.mode == DisableMode || c.mode == RemoveMode)
  }

  /** It may even be removed. */
  predicate MayRemove(c: Config, i: Ingress) {
    c.mode == RemoveMode && Annotation(i.state.annotations, IngressState.DISABLED) !in {IngressState.NORMAL, IngressState.EXTERNAL_DNS}
  }

  lemma ModeMeaning(c: Config, i: Ingress)
    ensures EffectiveMode(c, i) == RemoveMode <==> MayRemove(c, i)
    ensures EffectiveMode(c, i) in {DisableMode, RemoveMode} <==> MayBreak(c, i)
  {
    assert IngressState.NORMAL != IngressState.EXTERNAL_DNS;
  }

  /** Gateways that are not managed stay as they are; nobody is shut out of the others. */
  ghost predicate GatewaysGrow(before: Gateways, after: Gateways) {
    forall g :: g in before ==>
      && g in after && after[g].managed == before[g].managed
      && (!before[g].managed ==> after[g] == before[g])
      && forall h, n :: Admits(before[g].listeners, h, n) ==> Admits(after[g].listeners, h, n)
  }

  function ListenersIn(gateways: Gateways, name: string): seq<Listener> {
    if name in gateways then gateways[name].listeners else []
  }

  /** The route is merged: the Gateway admits the namespace on exactly those of its hosts that
      were not shut before. */
  ghost predicate Merged(c: Config, k: Key, i: Ingress, before: Gateways, after: Gateways) {
    var name := GatewayNameFor(c, k, i);
    && name in after && after[name].managed
    && Opened(ListenersIn(before, name), HostnamesOf(c, i.rules), k.namespace, after[name].listeners)
  }

  predicate IsCanaryOf(c: Config, s: Key, sibling: Ingress, k: Key, i: Ingress) {
    && s.namespace == k.namespace && s.name != k.name && IsCanary(sibling) && !sibling.deleting
    && c.passesClassFilters(ClassOf(c, sibling)) && ClassOf(c, sibling) == ClassOf(c, i)
    && SharesHostPath(i, sibling)
  }

  ghost predicate OffersTo(c: Config, s: Key, k: Key, i: Ingress, ingresses: Ingresses, x: CanaryIngress) {
    && s in ingresses && IsCanaryOf(c, s, ingresses[s], k, i)
    && x == CanaryIngress(ingresses[s].state.annotations, ingresses[s].rules)
  }

  /** All active canaries of the same class that share a host and path; none when the
      Ingresses could not be listed. */
  ghost predicate CanariesFound(c: Config, k: Key, i: Ingress, ingresses: Ingresses, listed: bool, canaries: seq<CanaryIngress>) {
    if listed then forall x :: x in canaries <==> exists s :: OffersTo(c, s, k, i, ingresses, x)
    else canaries == []
  }

  predicate IsPrimaryOf(c: Config, p: Key, primary: Ingress, canary: Key, i: Ingress) {
    && p.namespace == canary.namespace && p.name != canary.name
    && !IsCanary(primary) && !primary.deleting
    && ClassOf(c, primary) == ClassOf(c, i) && SharesHostPath(primary, i)
  }

  predicate IsForeign(gateways: Gateways, name: string) {
    name in gateways && !gateways[name].managed
  }

  /** Some host and path are served by both. */
  lemma SharesMeaning(a: Ingress, b: Ingress)
    ensures SharesHostPath(a, b) <==> exists h, path :: ServesPath(a, h, path) && ServesPath(b, h, path)
  {
    if SharesHostPath(a, b) {
      var r, s :| r in a.rules && s in b.rules && r.host == s.host && r.paths.Some? && s.paths.Some?
        && exists p, q :: p in r.paths.value && q in s.paths.value && p.path == q.path;
      var p, q :| p in r.paths.value && q in s.paths.value && p.path == q.path;
      assert ServesPath(a, r.host, p.path) && ServesPath(b, r.host, p.path);
    }
    if h, path :| ServesPath(a, h, path) && ServesPath(b, h, path) {
      var r :| r in a.rules && r.host == h && r.paths.Some? && exists p :: p in r.paths.value && p.path == path;
      var s :| s in b.rules && s.host == h && s.paths.Some? && exists p :: p in s.paths.value && p.path == path;
      var p :| p in r.paths.value && p.path == path;
      var q :| q in s.paths.value && q.path == path;
    }
  }

  ghost predicate ServesPath(i: Ingress, h: string, path: string) {
    exists r :: r in i.rules && r.host == h && r.paths.Some? && exists p :: p in r.paths.value && p.path == path
  }

  /** A canary of a primary is an active Ingress beside it with the canary annotation, that
      passes the filters, has its class, and shares a host and path. Reconciling the canary
      visits exactly the active primaries that find it, whatever the filters. */
  lemma CanaryMeaning(c: Config, s: Key, sibling: Ingress, k: Key, i: Ingress)
    ensures IsCanaryOf(c, s, sibling, k, i) <==>
              && s.namespace == k.namespace && s.name != k.name
              && Get(sibling.state.annotations, CANARY) == Some("true") && !sibling.deleting
              && c.passesClassFilters(ClassOf(c, sibling)) && ClassOf(c, sibling) == ClassOf(c, i)
              && exists h, path :: ServesPath(i, h, path) && ServesPath(sibling, h, path)
    ensures Get(sibling.state.annotations, CANARY) == Some("true") && !sibling.deleting && c.passesClassFilters(ClassOf(c, sibling)) ==>
              (IsPrimaryOf(c, k, i, s, sibling) <==>
                IsCanaryOf(c, s, sibling, k, i) && Get(i.state.annotations, CANARY) != Some("true") && !i.deleting)
  {
    SharesMeaning(i, sibling);
    hide SharesHostPath, ClassOf, ServesPath;
  }

  // ---------------------------------------------------------------- reconciling one Ingress

  datatype WriteResult = Written | AlreadyThere | NotWritten
  datatype GatewayResult = Updated | Foreign | TryAgain | Broken
  datatype Result = Finished | Requeued | Error

  /** One Ingress that is not a canary was reconciled. `listed`: its canaries could be listed. */
  datatype Step = Step(key: Key, ingress: Ingress, before: World, after: World, listed: bool, result: Result)

  /** Routes, then listeners, then post-processing: what has happened when a reconcile finished. */
  ghost predicate Completed(c: Config, s: Step) {
    if !ShouldInclude(c, s.key, s.ingress) || !HasHostnames(s.ingress) then s.after == s.before
    else
      exists canaries, parts ::
        && CanariesFound(c, s.key, s.ingress, s.before.ingresses, s.listed, canaries)
        && PartsInPlace(c, s.key, s.ingress, canaries, parts, s.after.routes)
        && if IsForeign(s.after.gateways, GatewayNameFor(c, s.key, s.ingress)) then s.after.ingresses == s.before.ingresses
           else
             && Merged(c, s.key, s.ingress, s.before.gateways, s.after.gateways)
             && PartsOpen(parts, s.key.namespace, s.after.gateways)
             && if MayRemove(c, s.ingress) then s.key !in s.after.ingresses
                else if MayBreak(c, s.ingress) && IngressState.AfterDisable(s.ingress.state) != s.ingress.state
                then Get(s.after.ingresses, s.key) == Some(s.ingress.(state := IngressState.AfterDisable(s.ingress.state)))
                else s.after.ingresses == s.before.ingresses
  }

  /** No Ingress was touched, or only this one, and then everything was made before; unless it
      may be removed, it can only have been disabled. */
  ghost predicate BreaksAfterMaking(c: Config, s: Step) {
    || s.after.ingresses == s.before.ingresses
    || (&& s.after.ingresses - {s.key} == s.before.ingresses - {s.key}
        && (MayRemove(c, s.ingress)
            || Get(s.after.ingresses, s.key) == Some(s.ingress.(state := IngressState.AfterDisable(s.ingress.state))))
        && Merged(c, s.key, s.ingress, s.before.gateways, s.after.gateways)
        && exists canaries, parts ::
             && CanariesFound(c, s.key, s.ingress, s.before.ingresses, s.listed, canaries)
             && MadeBefore(c, s.key, s.ingress, canaries, parts, s.after.routes, s.after.gateways))
  }

  /** What every reconcile guarantees, whichever API calls fail. */
  ghost predicate Sound(c: Config, s: Step) {
    && GatewaysGrow(s.before.gateways, s.after.gateways)
    && BreaksAfterMaking(c, s)
    && (s.result == Finished ==> Completed(c, s))
  }

  /** Steps that lead from one world to another, each sound. */
  ghost predicate Linked(c: Config, before: World, steps: seq<Step>, after: World) {
    if steps == [] then after == before
    else
      var last := steps[|steps| - 1];
      Linked(c, before, steps[..|steps| - 1], last.before) && last.after == after && Sound(c, last)
  }

  lemma LinkedNext(c: Config, before: World, steps: seq<Step>, s: Step)
    requires Linked(c, before, steps, s.before) && Sound(c, s)
    ensures Linked(c, before, steps + [s], s.after)
  {
    assert (steps + [s])[..|steps|] == steps;
  }

  lemma {:induction false} LinkedAppend(c: Config, w0: World, a: seq<Step>, w1: World, b: seq<Step>, w2: World)
    requires Linked(c, w0, a, w1) && Linked(c, w1, b, w2)
    ensures Linked(c, w0, a + b, w2)
    decreases |b|
  {
    hide Sound;
    if b == [] {
      assert a + b == a;
    } else {
      var last := b[|b| - 1];
      assert (a + b)[..|a + b| - 1] == a + b[..|b| - 1];
      LinkedAppend(c, w0, a, w1, b[..|b| - 1], last.before);
    }
  }

  /** Make before break, for one reconcile with any API call failing. When it has touched an
      Ingress it was that one only; the compiled rules are all in place in the cluster, on every
      transformed host; each part's parent references name stored Gateways of ours; and those
      admit the namespace on exactly the listeners that were not shut before, which are all of
      them when the Gateway was in the controller's own form. */
  lemma NothingBreaksBeforeItIsMade(c: Config, s: Step) returns (canaries: seq<CanaryIngress>, parts: seq<HttpRoute>)
    requires Sound(c, s) && s.after.ingresses != s.before.ingresses
    ensures s.after.ingresses - {s.key} == s.before.ingresses - {s.key}
    ensures CanariesFound(c, s.key, s.ingress, s.before.ingresses, s.listed, canaries)
    ensures Concatenated(parts) ==
              AllRules(c.ps, Flatten(s.ingress.rules), LastWins(Offers(canaries)), c.filters(s.ingress.state.annotations))
    ensures forall p :: p in parts ==>
              && InPlace(s.after.routes, p)
              && (forall r :: r in s.ingress.rules && r.host != "" ==> c.transform(r.host) in p.body.spec.hostnames)
              && (forall h :: h in p.body.spec.hostnames ==> exists q :: q in p.body.spec.parents && q.section == h)
    ensures forall p, q :: p in parts && q in p.body.spec.parents ==>
              q.gateway in s.after.gateways && s.after.gateways[q.gateway].managed && OpenedFor(s, q)
  {
    hide IsSplit, ShouldInclude, HasHostnames, CanariesFound, GatewaysGrow, Completed, InPlace, PartsOpen, Merged, OpenedFor, Translation;
    canaries, parts :|
      && CanariesFound(c, s.key, s.ingress, s.before.ingresses, s.listed, canaries)
      && MadeBefore(c, s.key, s.ingress, canaries, parts, s.after.routes, s.after.gateways);
    PartsAre(c, s.key, s.ingress, canaries, parts);
    forall p | p in parts
      ensures forall h :: h in p.body.spec.hostnames ==> exists q :: q in p.body.spec.parents && q.section == h
      ensures forall q :: q in p.body.spec.parents ==>
                q.gateway in s.after.gateways && s.after.gateways[q.gateway].managed && OpenedFor(s, q)
    {
      ParentsAre(c, s, canaries, parts, p);
    }
    HostnamesMeaning(c, s.ingress.rules);
  }

  /** The parent's Gateway admits the namespace on its listener exactly when that was not shut. */
  ghost predicate OpenedFor(s: Step, q: Parent) {
    var found, now := ListenersIn(s.before.gateways, q.gateway), ListenersIn(s.after.gateways, q.gateway);
    && (Admits(now, q.section, s.key.namespace) <==> !Shut(found, q.section, s.key.namespace))
    && (Good(found) ==> Admits(now, q.section, s.key.namespace))
  }

  lemma PartsAre(c: Config, k: Key, i: Ingress, canaries: seq<CanaryIngress>, parts: seq<HttpRoute>)
    requires IsSplit(Translation(c, k, i, canaries), parts)
    ensures Concatenated(parts) == AllRules(c.ps, Flatten(i.rules), LastWins(Offers(canaries)), c.filters(i.state.annotations))
    ensures forall p :: p in parts ==>
              && p.body.spec.hostnames == HostnamesOf(c, i.rules)
              && p.body.spec.parents == ParentsOf(GatewayNameFor(c, k, i), HostnamesOf(c, i.rules))
  {
    var r := Translation(c, k, i, canaries);
    SplitMeaning(r, parts);
    hide IsSplit, GatewayNameFor, HostnamesOf, AllRules;
    assert forall p :: p in parts ==> IsPartOf(r, p);
  }

  lemma ParentsAre(c: Config, s: Step, canaries: seq<CanaryIngress>, parts: seq<HttpRoute>, p: HttpRoute)
    requires IsSplit(Translation(c, s.key, s.ingress, canaries), parts) && p in parts
    requires Merged(c, s.key, s.ingress, s.before.gateways, s.after.gateways)
    ensures forall h :: h in p.body.spec.hostnames ==> exists q :: q in p.body.spec.parents && q.section == h
    ensures forall q :: q in p.body.spec.parents ==>
              q.gateway in s.after.gateways && s.after.gateways[q.gateway].managed && OpenedFor(s, q)
  {
    PartsAre(c, s.key, s.ingress, canaries, parts);
    hide IsSplit, Translation, GatewayNameFor, HostnamesOf, AllRules, Shut, Admits, Good;
    var hs := p.body.spec.hostnames;
    forall h | h in hs ensures exists q :: q in p.body.spec.parents && q.section == h {
      var n :| 0 <= n < |hs| && hs[n] == h;
      assert p.body.spec.parents[n] in p.body.spec.parents;
    }
    forall q | q in p.body.spec.parents ensures OpenedFor(s, q) {
      assert q.section in hs;
      var found := ListenersIn(s.before.gateways, q.gateway);
      if Good(found) { GoodIsNeverShut(found, q.section, s.key.namespace); }
    }
  }

  /** A merged Gateway is ours, and opens the parts that refer to it. */
  lemma MergedIsOurs(c: Config, k: Key, i: Ingress, canaries: seq<CanaryIngress>, parts: seq<HttpRoute>, routes: Routes,
                     before: Gateways, after: Gateways)
    requires PartsInPlace(c, k, i, canaries, parts, routes)
    ensures Merged(c, k, i, before, after) ==> PartsOpen(parts, k.namespace, after) && !IsForeign(after, GatewayNameFor(c, k, i))
  {
    if Merged(c, k, i, before, after) {
      var s := Step(k, i, World(map[], before, map[]), World(map[], after, map[]), true, Error);
      forall p | p in parts
        ensures forall h :: h in p.body.spec.hostnames ==> exists q :: q in p.body.spec.parents && q.section == h
        ensures forall q :: q in p.body.spec.parents ==>
                  q.gateway in after && after[q.gateway].managed && IsOpen(after[q.gateway].listeners, q.section, k.namespace)
      {
        ParentsAre(c, s, canaries, parts, p);
        PartsAre(c, k, i, canaries, parts);
        hide Translation, IsSplit, GatewayNameFor, HostnamesOf, Shut, Admits, AllRules;
        forall q | q in p.body.spec.parents ensures IsOpen(after[q.gateway].listeners, q.section, k.namespace) {
        }
      }
    }
  }

  /** Over any chain of reconciles: an Ingress that has changed was changed by a step of its
      own, to which the above applies. */
  lemma {:induction false} ChangeHasAStep(c: Config, before: World, steps: seq<Step>, after: World, k: Key) returns (s: Step)
    requires Linked(c, before, steps, after) && Get(after.ingresses, k) != Get(before.ingresses, k)
    ensures s in steps && s.key == k && Sound(c, s) && s.after.ingresses != s.before.ingresses
  {
    var front, last := steps[..|steps| - 1], steps[|steps| - 1];
    assert last in steps;
    if Get(last.before.ingresses, k) != Get(before.ingresses, k) {
      s := ChangeHasAStep(c, before, front, last.before, k);
    } else {
      s := last;
      if s.key != k { GetOther(last.before.ingresses, last.after.ingresses, s.key, k); }
    }
  }

  // ---------------------------------------------------------------- the operator

  class Operator {
    const config: Config
    const cluster: Cluster
    var gateways: Gateways
    var ingresses: Ingresses
    /** How often the Ingresses could not be listed. */
    ghost var unlisted: nat

    constructor (config: Config, cluster: Cluster, gateways: Gateways, ingresses: Ingresses)
      ensures this.config == config && this.cluster == cluster
      ensures this.gateways == gateways && this.ingresses == ingresses && unlisted == 0
    {
      this.config, this.cluster := config, cluster;
      this.gateways, this.ingresses, unlisted := gateways, ingresses, 0;
    }

    ghost function Now(): World
      reads this, cluster
    {
      World(cluster.routes, gateways, ingresses)
    }

    // The API. Any call may fail; a failed write may have taken effect all the same.

    method ApiGetGateway(name: string) returns (found: Option<StoredGateway>, ok: bool)
      ensures ok ==> found == Get(gateways, name)
    {
      found, ok := Get(gateways, name), *;
    }

    method ApiWriteGateway(name: string, g: StoredGateway, create: bool) returns (o: WriteResult)
      modifies `gateways
      ensures gateways == old(gateways) || gateways == old(gateways)[name := g]
      ensures create && name in old(gateways) ==> gateways == old(gateways) && o != Written
      ensures o == Written ==> gateways == old(gateways)[name := g]
    {
      if create && name in gateways {
        return AlreadyThere;
      }
      var lost, failed: bool := *, *;
      if !lost {
        gateways := gateways[name := g];
      }
      return if lost || failed then NotWritten else Written;
    }

    /** Nothing is written to Ingress k, not even the first of several writes, unless the
        cluster's routes and the stored Gateways have all that replaces it at that moment. */
    method ApiWriteIngress(k: Key, value: Option<Ingress>, ghost i: Ingress, ghost canaries: seq<CanaryIngress>,
                           ghost parts: seq<HttpRoute>)
      returns (ok: bool)
      requires MadeBefore(config, k, i, canaries, parts, cluster.routes, gateways)
      modifies `ingresses
      ensures ingresses - {k} == old(ingresses) - {k}
      ensures ok ==> Get(ingresses, k) == value
      ensures ingresses == old(ingresses) || Get(ingresses, k) == value
    {
      var lost: bool := *;
      if lost {
        return false;
      }
      ingresses := if value.Some? then ingresses[k := value.value] else ingresses - {k};
      ok := *;
    }

    method ApiListIngresses(namespace: string) returns (found: seq<Key>, ok: bool)
      modifies `unlisted
      ensures ok ==> forall k :: k in found <==> k in ingresses && k.namespace == namespace
      ensures unlisted == old(unlisted) + if ok then 0 else 1
    {
      var todo := set k | k in ingresses && k.namespace == namespace;
      ghost var all := todo;
      found := [];
      while todo != {}
        invariant forall k :: k in all <==> k in todo || k in found
        invariant unlisted == old(unlisted)
      {
        var k :| k in todo;
        todo, found := todo - {k}, found + [k];
      }
      ok := *;
      if !ok {
        unlisted := unlisted + 1;
      }
    }

    // The steps of a reconcile.

    method FindCanarySiblings(primary: Key, i: Ingress) returns (canaries: seq<CanaryIngress>)
      modifies `unlisted
      ensures unlisted >= old(unlisted)
      ensures CanariesFound(config, primary, i, ingresses, unlisted == old(unlisted), canaries)
    {
      var siblings, ok := ApiListIngresses(primary.namespace);
      canaries := [];
      if !ok {
        return;
      }
      for n := 0 to |siblings|
        invariant unlisted == old(unlisted)
        invariant forall j :: 0 <= j < |siblings| ==> siblings[j] in ingresses
        invariant forall x :: x in canaries ==> exists s :: OffersTo(config, s, primary, i, ingresses, x)
        invariant forall j :: 0 <= j < n && IsCanaryOf(config, siblings[j], ingresses[siblings[j]], primary, i) ==>
                    CanaryIngress(ingresses[siblings[j]].state.annotations, ingresses[siblings[j]].rules) in canaries
      {
        assert siblings[n] in siblings;
        var s := siblings[n];
        var sibling := ingresses[s];
        if IsCanaryOf(config, s, sibling, primary, i) {
          ghost var x := CanaryIngress(sibling.state.annotations, sibling.rules);
          assert OffersTo(config, s, primary, i, ingresses, x);
          canaries := canaries + [CanaryIngress(sibling.state.annotations, sibling.rules)];
        }
      }
    }

    method DisableIngress(k: Key, i: Ingress, ghost canaries: seq<CanaryIngress>, ghost parts: seq<HttpRoute>) returns (ok: bool)
      requires MadeBefore(config, k, i, canaries, parts, cluster.routes, gateways)
      modifies `ingresses
      ensures ingresses - {k} == old(ingresses) - {k}
      ensures ok && IngressState.AfterDisable(i.state) != i.state ==>
        Get(ingresses, k) == Some(i.(state := IngressState.AfterDisable(i.state)))
      ensures IngressState.AfterDisable(i.state) == i.state ==> ingresses == old(ingresses)
      ensures ingresses == old(ingresses) || Get(ingresses, k) == Some(i.(state := IngressState.AfterDisable(i.state)))
    {
      hide MadeBefore;
      if Annotation(i.state.annotations, IngressState.DISABLED) == IngressState.NORMAL {
        return true;
      }
      var classReady: bool := *;
      if !classReady {
        return false;
      }
      if IngressState.AfterDisable(i.state) == i.state {
        return true;
      }
      ok := ApiWriteIngress(k, Some(i.(state := IngressState.AfterDisable(i.state))), i, canaries, parts);
    }

    method RemoveIngress(k: Key, i: Ingress, ghost canaries: seq<CanaryIngress>, ghost parts: seq<HttpRoute>) returns (ok: bool)
      requires MadeBefore(config, k, i, canaries, parts, cluster.routes, gateways)
      modifies `ingresses
      ensures ingresses - {k} == old(ingresses) - {k}
      ensures ok ==> k !in ingresses
    {
      hide MadeBefore;
      if Annotation(i.state.annotations, REMOVED) != "true" {
        var a := i.state.annotations[REMOVED := "true"][IGNORE := "true"];
        ok := ApiWriteIngress(k, Some(i.(state := i.state.(annotations := a))), i, canaries, parts);
        if !ok {
          return;
        }
      }
      ok := ApiWriteIngress(k, None, i, canaries, parts);
    }

    /** Merges the route into the Gateway it belongs to, unless that is not ours. */
    method UpdateGateway(k: Key, i: Ingress, parts: seq<HttpRoute>) returns (r: GatewayResult)
      requires HasHostnames(i) && parts != []
      requires forall p :: p in parts ==> p.body.spec.hostnames == HostnamesOf(config, i.rules)
      modifies `gateways
      ensures GatewaysGrow(old(gateways), gateways)
      ensures gateways - {GatewayNameFor(config, k, i)} == old(gateways) - {GatewayNameFor(config, k, i)}
      ensures r == Updated ==> Merged(config, k, i, old(gateways), gateways)
      ensures r == Foreign ==> IsForeign(gateways, GatewayNameFor(config, k, i)) && gateways == old(gateways)
    {
      var name := GatewayNameFor(config, k, i);
      var stored, readable := ApiGetGateway(name);
      if !readable {
        return Broken;
      }
      if stored.Some? {
        stored, readable := ApiGetGateway(name);
        if !readable {
          return Broken;
        }
        if !stored.value.managed {
          return Foreign;
        }
      }
      var initial := if stored.Some? then stored.value else StoredGateway(true, [], "");
      var gateway := new Gateway.Of(initial.listeners, initial.mismatch);
      var updated := MergeParts(gateway, k, i, parts);
      var after := StoredGateway(true, gateway.listeners, gateway.mismatch);
      HostnamesExist(config, i);
      if initial.listeners == [] {
        OpenedIsNotEmpty(initial.listeners, HostnamesOf(config, i.rules), k.namespace, after.listeners);
      }
      WrittenGrows(gateways, name, after, HostnamesOf(config, i.rules), k.namespace);
      if updated {
        if stored.Some? {
          var o := ApiWriteGateway(name, after, false);
          if o != Written {
            return Broken;
          }
        } else if |gateway.listeners| > 0 {
          var o := ApiWriteGateway(name, after, true);
          if o != Written {
            return if o == AlreadyThere then TryAgain else Broken;
          }
        }
      }
      r := Updated;
    }

    method MergeParts(gateway: Gateway, k: Key, i: Ingress, parts: seq<HttpRoute>) returns (updated: bool)
      requires parts != []
      requires forall p :: p in parts ==> p.body.spec.hostnames == HostnamesOf(config, i.rules)
      modifies gateway
      ensures Opened(old(gateway.listeners), HostnamesOf(config, i.rules), k.namespace, gateway.listeners)
      ensures !updated ==> gateway.listeners == old(gateway.listeners) && gateway.mismatch == old(gateway.mismatch)
    {
      ghost var found, hs := gateway.listeners, HostnamesOf(config, i.rules);
      updated := false;
      for n := 0 to |parts|
        invariant if n == 0 then gateway.listeners == found else Opened(found, hs, k.namespace, gateway.listeners)
        invariant !updated ==> gateway.listeners == found && gateway.mismatch == old(gateway.mismatch)
      {
        assert parts[n] in parts;
        MergeOpens(found, hs, k.namespace, gateway.listeners, config.tls(i));
        var changed := gateway.UpdateGatewayListeners(
          Route(k.namespace, parts[n].body.spec.hostnames), config.tls(i), config.mergedMismatch(i, gateway.mismatch));
        updated := updated || changed;
      }
    }

    /** Translates, splits and applies. */
    method BuildRoutes(k: Key, i: Ingress) returns (ok: bool, ghost canaries: seq<CanaryIngress>, parts: seq<HttpRoute>)
      modifies `unlisted, cluster
      ensures unlisted >= old(unlisted)
      ensures parts != [] && forall p :: p in parts ==> p.body.spec.hostnames == HostnamesOf(config, i.rules)
      ensures CanariesFound(config, k, i, ingresses, unlisted == old(unlisted), canaries)
      ensures ok ==> PartsInPlace(config, k, i, canaries, parts, cluster.routes)
    {
      hide AppliedAtomically, OthersKept, IsSplit, CanariesFound;
      var siblings := FindCanarySiblings(k, i);
      canaries := siblings;
      var route := TranslateToHttpRouteWithCanaries(config, k, i, siblings);
      parts := SplitHttpRouteIfNeeded(route);
      SplitMeaning(route, parts);
      ok := cluster.ApplyHttpRoutesAtomic(k, parts);
      if ok {
        SuccessIsInPlace(old(cluster.routes), k, parts, cluster.routes);
      }
    }

    /** The only place from which an Ingress is disabled or removed. */
    method TakeOutOfService(k: Key, i: Ingress, mode: Mode, ghost canaries: seq<CanaryIngress>, ghost parts: seq<HttpRoute>)
      returns (ok: bool)
      requires mode in {DisableMode, RemoveMode}
      requires MadeBefore(config, k, i, canaries, parts, cluster.routes, gateways)
      modifies `ingresses
      ensures ingresses - {k} == old(ingresses) - {k}
      ensures mode == DisableMode ==>
        ingresses == old(ingresses) || Get(ingresses, k) == Some(i.(state := IngressState.AfterDisable(i.state)))
      ensures ok && mode == RemoveMode ==> k !in ingresses
      ensures ok && mode == DisableMode && IngressState.AfterDisable(i.state) != i.state ==>
        Get(ingresses, k) == Some(i.(state := IngressState.AfterDisable(i.state)))
      ensures mode == DisableMode && IngressState.AfterDisable(i.state) == i.state ==> ingresses == old(ingresses)
    {
      hide MadeBefore;
      match mode {
        case RemoveMode => ok := RemoveIngress(k, i, canaries, parts);
        case DisableMode => ok := DisableIngress(k, i, canaries, parts);
      }
    }

    /** Reconciles an Ingress, or the primaries of a canary. The steps taken lead from the world
        as it was to the world as it is. */
    method ReconcileIngressToHttpRoute(k: Key, i: Ingress) returns (r: Result, ghost steps: seq<Step>)
      modifies this, cluster
      ensures Linked(config, old(Now()), steps, Now())
      ensures !IsCanary(i) ==> |steps| == 1 && steps[0].key == k && steps[0].ingress == i && steps[0].result == r
      ensures !IsCanary(i) ==> steps[0].listed == (unlisted == old(unlisted))
      ensures unlisted >= old(unlisted)
      decreases if IsCanary(i) then 2 else 0
    {
      hide Sound;
      if IsCanary(i) {
        if !ShouldInclude(config, k, i) || !HasHostnames(i) {
          return Finished, [];
        }
        r, steps := ReconcileCanaryPrimaries(k, i);
        return;
      }
      r := ReconcilePrimary(k, i);
      var s := Step(k, i, old(Now()), Now(), unlisted == old(unlisted), r);
      steps := [s];
      LinkedNext(config, old(Now()), [], s);
      assert [] + [s] == [s];
    }

    method ReconcilePrimary(k: Key, i: Ingress) returns (r: Result)
      requires !IsCanary(i)
      modifies this, cluster
      ensures unlisted >= old(unlisted)
      ensures Sound(config, Step(k, i, old(Now()), Now(), unlisted == old(unlisted), r))
    {
      hide GatewaysGrow, Merged, PartsInPlace, CanariesFound, HasHostnames, PartsOpen, EffectiveMode, MayBreak, MayRemove;
      GatewaysStay(gateways);
      ModeMeaning(config, i);
      if !ShouldInclude(config, k, i) || !HasHostnames(i) {
        return Finished;
      }
      var mode := EffectiveMode(config, i);
      var applied, parts;
      ghost var canaries;
      applied, canaries, parts := BuildRoutes(k, i);
      if !applied {
        return Error;
      }
      var g := UpdateGateway(k, i, parts);
      if g == Broken || g == TryAgain {
        return if g == Broken then Error else Requeued;
      }
      MergedIsOurs(config, k, i, canaries, parts, cluster.routes, old(gateways), gateways);
      if g == Foreign || mode !in {DisableMode, RemoveMode} {
        return Finished;
      }
      var ok := TakeOutOfService(k, i, mode, canaries, parts);
      return if ok then Finished else Error;
    }

    /** Rebuilds every primary that the canary contributes to. */
    method ReconcileCanaryPrimaries(canary: Key, i: Ingress) returns (r: Result, ghost steps: seq<Step>)
      modifies this, cluster
      ensures Linked(config, old(Now()), steps, Now())
      ensures unlisted >= old(unlisted)
      ensures r == Finished ==> forall p :: p in old(ingresses) && IsPrimaryOf(config, p, old(ingresses)[p], canary, i) ==>
                HasStep(steps, p, old(ingresses)[p])
      decreases 1
    {
      hide Sound, SharesHostPath, Linked;
      NoSteps(config, Now());
      steps := [];
      var siblings, listed := ApiListIngresses(canary.namespace);
      if !listed {
        return Requeued, [];
      }
      var snapshot := ingresses;
      for n := 0 to |siblings|
        invariant Linked(config, old(Now()), steps, Now()) && unlisted >= old(unlisted)
        invariant forall p :: p in siblings[..n] && IsPrimaryOf(config, p, snapshot[p], canary, i) ==> HasStep(steps, p, snapshot[p])
      {
        var p := siblings[n];
        var primary := snapshot[p];
        if p.name == canary.name || IsCanary(primary) || primary.deleting {
          continue;
        }
        if ClassOf(config, primary) != ClassOf(config, i) || !SharesHostPath(primary, i) {
          continue;
        }
        ghost var before, mid, more := steps, Now(), [];
        r, more := ReconcileIngressToHttpRoute(p, primary);
        LinkedAppend(config, old(Now()), before, mid, more, Now());
        steps := before + more;
        if r == Error {
          return;
        }
      }
      r := Finished;
    }
  }

  /** The primary was reconciled, as it was found, and without an error. */
  ghost predicate HasStep(steps: seq<Step>, p: Key, primary: Ingress) {
    exists s :: s in steps && s.key == p && s.ingress == primary && s.result != Error
  }

  lemma NoSteps(c: Config, w: World)
    ensures Linked(c, w, [], w)
  {
  }

  lemma GatewaysStay(gateways: Gateways)
    ensures GatewaysGrow(gateways, gateways)
  {
  }

  lemma HostnamesExist(c: Config, i: Ingress)
    requires HasHostnames(i)
    ensures HostnamesOf(c, i.rules) != []
  {
    HostnamesMeaning(c, i.rules);
    var r :| r in i.rules && r.host != "";
    assert c.transform(r.host) in HostnamesOf(c, i.rules);
  }

  lemma WrittenGrows(gateways: Gateways, name: string, after: StoredGateway, hs: seq<string>, ns: string)
    requires after.managed && (name in gateways ==> gateways[name].managed)
    requires Opened(ListenersIn(gateways, name), hs, ns, after.listeners)
    ensures GatewaysGrow(gateways, gateways) && GatewaysGrow(gateways, gateways[name := after])
    ensures gateways[name := after] - {name} == gateways - {name}
  {
  }
}
