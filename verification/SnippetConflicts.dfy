/** Which Ingress of a namespace owns a server directive on a shared host: the election by age. */
module SnippetConflicts {
  import opened Options
  import opened Ordering
  import opened HttpRoutes
  import Nginx
  import opened Snippets
  import opened Text

  /** `inScope`: its class passes the class filters. */
  datatype Ingress = Ingress(
    name: string, created: int, deleting: bool, canary: bool, inScope: bool,
    rules: seq<IngressRule>, annotations: Snippets.Annotations)

  // ---------------------------------------------------------------- age

  predicate IsOlder(a: Ingress, b: Ingress) {
    if a.created == b.created then Less(a.name, b.name) else a.created < b.created
  }

  /** Age with the name as tie-break is a strict total order on the Ingresses of a namespace. */
  lemma IsOlderIsStrictTotalOrder(a: Ingress, b: Ingress, c: Ingress)
    ensures !IsOlder(a, a)
    ensures IsOlder(a, b) ==> !IsOlder(b, a)
    ensures IsOlder(a, b) && IsOlder(b, c) ==> IsOlder(a, c)
    ensures a.name != b.name ==> IsOlder(a, b) || IsOlder(b, a)
  {
    LeTotal(a.name, b.name);
    if Le(a.name, b.name) && Le(b.name, a.name) {
      LeAntisymmetric(a.name, b.name);
    }
    if Less(a.name, b.name) && Less(b.name, c.name) {
      LessTransitive(a.name, b.name, c.name);
    }
  }

  // ---------------------------------------------------------------- hosts

  ghost predicate Serves(transform: string -> string, i: Ingress, h: string) {
    exists r :: r in i.rules && r.host != "" && transform(r.host) == h
  }

  ghost predicate SharesHost(transform: string -> string, a: Ingress, b: Ingress) {
    exists r :: r in b.rules && r.host != "" && Serves(transform, a, transform(r.host))
  }

  method TransformedHostSet(transform: string -> string, i: Ingress) returns (hosts: set<string>)
    ensures forall h :: h in hosts <==> Serves(transform, i, h)
  {
    hosts := {};
    for k := 0 to |i.rules|
      invariant forall h :: h in hosts <==> exists j :: 0 <= j < k && i.rules[j].host != "" && transform(i.rules[j].host) == h
    {
      if i.rules[k].host == "" {
        continue;
      }
      hosts := hosts + {transform(i.rules[k].host)};
    }
  }

  method SharesAnyHost(hosts: set<string>, transform: string -> string, i: Ingress, ghost mine: Ingress) returns (shared: bool)
    requires forall h :: h in hosts <==> Serves(transform, mine, h)
    ensures shared == SharesHost(transform, mine, i)
  {
    for k := 0 to |i.rules|
      invariant forall j :: 0 <= j < k && i.rules[j].host != "" ==> transform(i.rules[j].host) !in hosts
    {
      if i.rules[k].host == "" {
        continue;
      }
      if transform(i.rules[k].host) in hosts {
        return true;
      }
    }
    return false;
  }

  // ---------------------------------------------------------------- suppression

  /** An Ingress that takes part: active, in scope, and not a canary. */
  predicate Takes(i: Ingress) {
    !i.canary && !i.deleting && i.inScope
  }

  predicate Holds(i: Ingress, s: string) {
    NginxKey(s) in i.annotations
  }

  predicate IsConflictCandidate(sibling: Ingress, i: Ingress) {
    sibling.name != i.name && Takes(sibling) && IsOlder(sibling, i)
  }

  ghost predicate Overrides(transform: string -> string, sibling: Ingress, i: Ingress, s: string) {
    IsConflictCandidate(sibling, i) && SharesHost(transform, i, sibling) && Holds(sibling, s)
  }

  ghost predicate Suppressed(transform: string -> string, siblings: seq<Ingress>, i: Ingress, s: string) {
    s in SERVER_ONLY && Holds(i, s) && exists o :: o in siblings && Overrides(transform, o, i, s)
  }

  /** Who takes a directive from i: another Ingress with the annotation that is not a canary, not
      being deleted, in scope, created earlier or at the same time with a smaller name, and on
      one of i's hosts. */
  lemma OverridesMeaning(transform: string -> string, o: Ingress, i: Ingress, s: string)
    ensures Overrides(transform, o, i, s) <==>
              && o.name != i.name && !o.canary && !o.deleting && o.inScope && NginxKey(s) in o.annotations
              && (o.created < i.created || (o.created == i.created && o.name != i.name && Le(o.name, i.name)))
              && exists h :: Serves(transform, o, h) && Serves(transform, i, h)
  {
    hide Le;
    if h :| Serves(transform, o, h) && Serves(transform, i, h) {
      SharingIsMutual(transform, i, o, h);
    }
    if SharesHost(transform, i, o) {
      var r :| r in o.rules && r.host != "" && Serves(transform, i, transform(r.host));
      assert Serves(transform, o, transform(r.host));
    }
  }

  /** The server directives that an Ingress must leave to older ones; none when the siblings
      cannot be listed. */
  method DetectSnippetConflicts(transform: string -> string, i: Ingress, listed: Option<seq<Ingress>>) returns (suppress: set<string>)
    ensures forall s :: s in suppress <==> listed.Some? && Suppressed(transform, listed.value, i, s)
  {
    suppress := {};
    if |i.annotations| == 0 || listed.None? {
      return;
    }
    var siblings := listed.value;
    var myHosts := TransformedHostSet(transform, i);
    if |myHosts| == 0 {
      NoHostsNoConflicts(transform, i, siblings);
      return;
    }
    for k := 0 to |siblings|
      invariant forall s :: s in suppress <==> Suppressed(transform, siblings[..k], i, s)
    {
      SuppressedNext(transform, siblings, i, k);
      if !IsConflictCandidate(siblings[k], i) {
        continue;
      }
      var shared := SharesAnyHost(myHosts, transform, siblings[k], i);
      if !shared {
        continue;
      }
      suppress := SuppressServerOnlyConflicts(i, siblings[k], suppress);
    }
    assert siblings[..|siblings|] == siblings;
  }

  method SuppressServerOnlyConflicts(i: Ingress, sibling: Ingress, before: set<string>) returns (suppress: set<string>)
    ensures suppress == before + (set s | s in SERVER_ONLY && Holds(i, s) && Holds(sibling, s))
  {
    suppress := before;
    var todo := SERVER_ONLY;
    while todo != {}
      invariant todo <= SERVER_ONLY
      invariant suppress == before + (set s | s in SERVER_ONLY - todo && Holds(i, s) && Holds(sibling, s))
    {
      var s :| s in todo;
      todo := todo - {s};
      if Holds(i, s) && Holds(sibling, s) {
        suppress := suppress + {s};
      }
    }
  }

  lemma SuppressedNext(transform: string -> string, siblings: seq<Ingress>, i: Ingress, k: nat)
    requires k < |siblings|
    ensures forall s :: Suppressed(transform, siblings[..k + 1], i, s) <==>
              Suppressed(transform, siblings[..k], i, s) || (s in SERVER_ONLY && Holds(i, s) && Overrides(transform, siblings[k], i, s))
  {
    hide SERVER_ONLY, Overrides;
    assert siblings[..k + 1] == siblings[..k] + [siblings[k]];
    assert forall o :: o in siblings[..k + 1] <==> o in siblings[..k] || o == siblings[k];
  }

  lemma NoHostsNoConflicts(transform: string -> string, i: Ingress, siblings: seq<Ingress>)
    requires forall h :: !Serves(transform, i, h)
    ensures forall s :: !Suppressed(transform, siblings, i, s)
  {
  }

  // ---------------------------------------------------------------- ownership

  ghost predicate DistinctNames(siblings: seq<Ingress>) {
    forall a, b :: a in siblings && b in siblings && a.name == b.name ==> a == b
  }

  /** An Ingress that takes part puts the directive into the server block of each of its hosts. */
  ghost predicate Emits(transform: string -> string, siblings: seq<Ingress>, i: Ingress, s: string) {
    Takes(i) && Declares(i.annotations, s) && !Suppressed(transform, siblings, i, s)
  }

  lemma SharingIsMutual(transform: string -> string, a: Ingress, b: Ingress, h: string)
    requires Serves(transform, a, h) && Serves(transform, b, h)
    ensures SharesHost(transform, a, b)
  {
    var r :| r in b.rules && r.host != "" && transform(r.host) == h;
  }

  /** At most one Ingress emits a server directive for a host. */
  lemma AtMostOneOwner(transform: string -> string, siblings: seq<Ingress>, a: Ingress, b: Ingress, h: string, s: string)
    requires DistinctNames(siblings) && a in siblings && b in siblings
    requires Serves(transform, a, h) && Serves(transform, b, h)
    requires Emits(transform, siblings, a, s) && Emits(transform, siblings, b, s)
    ensures a == b
  {
    if a != b {
      IsOlderIsStrictTotalOrder(a, b, b);
      OlderSuppresses(transform, siblings, a, b, h, s);
      OlderSuppresses(transform, siblings, b, a, h, s);
    }
  }

  lemma OlderSuppresses(transform: string -> string, siblings: seq<Ingress>, a: Ingress, b: Ingress, h: string, s: string)
    requires a in siblings && a.name != b.name && Takes(a) && Holds(a, s) && Holds(b, s) && s in SERVER_ONLY
    requires Serves(transform, a, h) && Serves(transform, b, h)
    ensures IsOlder(a, b) ==> Suppressed(transform, siblings, b, s)
  {
    SharingIsMutual(transform, b, a, h);
    if IsOlder(a, b) {
      assert Overrides(transform, a, b, s);
    }
  }

  /** The same for the generated server lines: no directive name twice in a host's server block. */
  lemma ServerBlocksDoNotCollide(transform: string -> string, siblings: seq<Ingress>, a: Ingress, b: Ingress, h: string, s: string,
                                 parse: string -> seq<Nginx.ProxyHeader>, keysA: seq<Snippets.Key>, keysB: seq<Snippets.Key>,
                                 suppressA: set<string>, suppressB: set<string>)
    requires DistinctNames(siblings) && a in siblings && b in siblings && Takes(a) && Takes(b)
    requires Serves(transform, a, h) && Serves(transform, b, h)
    requires forall x :: x in suppressA <==> Suppressed(transform, siblings, a, x)
    requires forall x :: x in suppressB <==> Suppressed(transform, siblings, b, x)
    requires Distinct(keysA) && Elements(keysA) == a.annotations.Keys
    requires Distinct(keysB) && Elements(keysB) == b.annotations.Keys
    ensures forall k :: k in keysA ==> k in a.annotations
    ensures forall k :: k in keysB ==> k in b.annotations
    ensures var mine, theirs := IngestAll(parse, suppressA, a.annotations, keysA), IngestAll(parse, suppressB, b.annotations, keysB);
            NamedIn(mine.serverOnly, s) && NamedIn(theirs.serverOnly, s) ==> a == b
  {
    ServerBlockMeaning(parse, suppressA, a.annotations, keysA, s);
    ServerBlockMeaning(parse, suppressB, b.annotations, keysB, s);
    if NamedIn(IngestAll(parse, suppressA, a.annotations, keysA).serverOnly, s)
       && NamedIn(IngestAll(parse, suppressB, b.annotations, keysB).serverOnly, s) {
      AtMostOneOwner(transform, siblings, a, b, h, s);
    }
  }

  ghost predicate NamedIn(lines: seq<Nginx.Directive>, s: string) {
    exists d :: d in lines && d.Plain? && d.name == s
  }

  /** Taking part, on the host, with the annotation. */
  ghost predicate Contends(transform: string -> string, siblings: seq<Ingress>, i: Ingress, h: string, s: string) {
    i in siblings && Takes(i) && Serves(transform, i, h) && Holds(i, s)
  }

  ghost predicate IsOldestOn(transform: string -> string, siblings: seq<Ingress>, o: Ingress, h: string, s: string) {
    && Contends(transform, siblings, o, h, s)
    && forall i :: Contends(transform, siblings, i, h, s) && i != o ==> IsOlder(o, i)
  }

  ghost predicate HostHasOwner(transform: string -> string, siblings: seq<Ingress>, h: string, s: string) {
    exists i :: i in siblings && Serves(transform, i, h) && Emits(transform, siblings, i, s)
  }

  lemma {:induction false} OldestOf(s: set<Ingress>) returns (o: Ingress)
    requires s != {} && forall a, b :: a in s && b in s && a.name == b.name ==> a == b
    ensures o in s && forall i :: i in s && i != o ==> IsOlder(o, i)
  {
    o :| o in s;
    if s != {o} {
      var b := OldestOf(s - {o});
      IsOlderIsStrictTotalOrder(o, b, b);
      if IsOlder(b, o) {
        o := b;
      } else {
        forall i | i in s && i != o ensures IsOlder(o, i) {
          IsOlderIsStrictTotalOrder(o, b, i);
        }
      }
    }
  }

  /** A host on which the directive is contended has an oldest contender. */
  lemma OldestExists(transform: string -> string, siblings: seq<Ingress>, i: Ingress, h: string, s: string) returns (o: Ingress)
    requires DistinctNames(siblings) && Contends(transform, siblings, i, h, s)
    ensures IsOldestOn(transform, siblings, o, h, s)
  {
    var all := set x | x in siblings && Contends(transform, siblings, x, h, s);
    assert i in all;
    o := OldestOf(all);
  }

  /** A host has an owner of a server directive exactly when its oldest contender emits it:
      its value is usable, and it is not suppressed on account of another host. */
  lemma HostOwnedByOldest(transform: string -> string, siblings: seq<Ingress>, o: Ingress, h: string, s: string)
    requires DistinctNames(siblings) && IsOldestOn(transform, siblings, o, h, s)
    ensures HostHasOwner(transform, siblings, h, s) <==> Emits(transform, siblings, o, s)
  {
    if HostHasOwner(transform, siblings, h, s) {
      var i :| i in siblings && Serves(transform, i, h) && Emits(transform, siblings, i, s);
      if i != o {
        assert Contends(transform, siblings, i, h, s);
        SharingIsMutual(transform, i, o, h);
        assert Overrides(transform, o, i, s);
      }
    }
  }

  /** Somebody older with the annotation serves another host that o serves too. */
  ghost predicate LosesElsewhere(transform: string -> string, siblings: seq<Ingress>, o: Ingress, h: string, s: string) {
    exists x, g :: IsRivalOn(transform, siblings, x, o, g, s) && g != h
  }

  ghost predicate IsRivalOn(transform: string -> string, siblings: seq<Ingress>, x: Ingress, o: Ingress, g: string, s: string) {
    Contends(transform, siblings, x, g, s) && IsOlder(x, o) && Serves(transform, o, g)
  }

  /** For every host on which the directive is contended: it has an owner exactly when the
      oldest contender's value is usable and nobody older contends on another of its hosts. */
  lemma HostHasOwnerExactly(transform: string -> string, siblings: seq<Ingress>, i: Ingress, h: string, s: string) returns (o: Ingress)
    requires DistinctNames(siblings) && Contends(transform, siblings, i, h, s)
    ensures IsOldestOn(transform, siblings, o, h, s)
    ensures HostHasOwner(transform, siblings, h, s) <==>
              Declares(o.annotations, s) && !LosesElsewhere(transform, siblings, o, h, s)
  {
    o := OldestExists(transform, siblings, i, h, s);
    HostOwnedByOldest(transform, siblings, o, h, s);
    if s in SERVER_ONLY {
      SuppressedElsewhere(transform, siblings, o, h, s);
    }
  }

  lemma SuppressedElsewhere(transform: string -> string, siblings: seq<Ingress>, o: Ingress, h: string, s: string)
    requires DistinctNames(siblings) && IsOldestOn(transform, siblings, o, h, s) && s in SERVER_ONLY
    ensures Suppressed(transform, siblings, o, s) <==> LosesElsewhere(transform, siblings, o, h, s)
  {
    if Suppressed(transform, siblings, o, s) {
      var x :| x in siblings && Overrides(transform, x, o, s);
      var r :| r in x.rules && r.host != "" && Serves(transform, o, transform(r.host));
      var g := transform(r.host);
      assert IsRivalOn(transform, siblings, x, o, g, s);
      IsOlderIsStrictTotalOrder(x, o, o);
    }
    if LosesElsewhere(transform, siblings, o, h, s) {
      var x, g :| IsRivalOn(transform, siblings, x, o, g, s) && g != h;
      IsOlderIsStrictTotalOrder(x, o, o);
      SharingIsMutual(transform, o, x, g);
      assert Overrides(transform, x, o, s);
    }
  }

  /** The oldest Ingress of the namespace with the annotation is never suppressed. */
  lemma OldestIsNeverSuppressed(transform: string -> string, siblings: seq<Ingress>, o: Ingress, s: string)
    requires forall i :: i in siblings && Takes(i) && Holds(i, s) && i.name != o.name ==> IsOlder(o, i)
    ensures !Suppressed(transform, siblings, o, s)
  {
    forall i | i in siblings ensures !Overrides(transform, i, o, s) {
      IsOlderIsStrictTotalOrder(o, i, i);
    }
  }

  const A := IngressRule("a", None)
  const B := IngressRule("b", None)
  const X := Ingress("x", 1, false, false, true, [A], map[NginxKey("ssl-ciphers") := "HIGH"])
  const Y := Ingress("y", 2, false, false, true, [A, B], map[NginxKey("ssl-ciphers") := "HIGH"])
  const Z := Ingress("z", 3, false, false, true, [B], map[NginxKey("ssl-ciphers") := "HIGH"])

  /** The oldest contender of a host can itself be suppressed: y loses "b" as well when x is
      older on "a", and z leaves "b" to y; then nobody sets the directive on "b". */
  lemma AHostCanBeLeftWithoutOwner(transform: string -> string)
    requires transform("a") == "a" && transform("b") == "b"
    ensures DistinctNames([X, Y, Z]) && Contends(transform, [X, Y, Z], Y, "b", "ssl-ciphers")
    ensures Declares(Y.annotations, "ssl-ciphers") && !HostHasOwner(transform, [X, Y, Z], "b", "ssl-ciphers")
  {
    HostsOfXYZ(transform);
    YIsOldestOnB(transform);
    OlderSuppresses(transform, [X, Y, Z], X, Y, "a", "ssl-ciphers");
    HostOwnedByOldest(transform, [X, Y, Z], Y, "b", "ssl-ciphers");
    hide Suppressed, HostHasOwner, Serves, IsOldestOn, DistinctNames;
    assert Trim("HIGH") == "HIGH" && Value(Y.annotations, NginxKey("ssl-ciphers")) == "HIGH";
  }

  lemma YIsOldestOnB(transform: string -> string)
    requires !Serves(transform, X, "b") && Serves(transform, Y, "b")
    ensures DistinctNames([X, Y, Z]) && IsOldestOn(transform, [X, Y, Z], Y, "b", "ssl-ciphers")
  {
    hide Serves;
  }

  lemma HostsOfXYZ(transform: string -> string)
    requires transform("a") == "a" && transform("b") == "b"
    ensures Serves(transform, X, "a") && !Serves(transform, X, "b")
    ensures Serves(transform, Y, "a") && Serves(transform, Y, "b")
  {
    assert A in X.rules && A in Y.rules && B in Y.rules;
  }
}
