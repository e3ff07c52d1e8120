/** Who a cluster object belongs to, read from its annotations. */
module Ownership {
  import opened HttpRoutes

  const MANAGED_BY := "ingress-doperator.fiction.si/managed-by"
  const MANAGED_BY_VALUE := "ingress-doperator"
  const SOURCE := "ingress-doperator.fiction.si/source"

  datatype Key = Key(namespace: string, name: string)

  function Path(k: Key): string {
    k.namespace + "/" + k.name
  }

  predicate Managed(a: Annotations) {
    Annotation(a, MANAGED_BY) == MANAGED_BY_VALUE
  }

  predicate ManagedFor(a: Annotations, ingress: Key) {
    Managed(a) && Annotation(a, SOURCE) == Path(ingress)
  }

  /** The HTTPRoutes of an Ingress also carry its name as a prefix. */
  predicate IsOwn(k: Key, a: Annotations, ingress: Key) {
    k.namespace == ingress.namespace && ingress.name <= k.name && ManagedFor(a, ingress)
  }

  /** A namespace has no slash, so a key can be told from its path. */
  predicate Plain(namespace: string) {
    '/' !in namespace
  }

  lemma {:induction false} FirstSlash(a: string, x: string, b: string, y: string)
    requires Plain(a) && Plain(b) && a + "/" + x == b + "/" + y
    ensures a == b && x == y
  {
    var p := a + "/" + x;
    if a == "" || b == "" {
      assert p[0] == (b + "/" + y)[0];
      assert x == p[1..] && y == (b + "/" + y)[1..];
    } else {
      assert p[1..] == a[1..] + "/" + x && p[1..] == b[1..] + "/" + y;
      FirstSlash(a[1..], x, b[1..], y);
      assert a == [p[0]] + a[1..] && b == [p[0]] + b[1..];
    }
  }

  lemma PathsDiffer(a: Key, b: Key)
    requires Plain(a.namespace) && Plain(b.namespace) && Path(a) == Path(b)
    ensures a == b
  {
    FirstSlash(a.namespace, a.name, b.namespace, b.name);
  }

  /** No object is managed for two Ingresses. */
  lemma OneOwner(a: Annotations, i: Key, j: Key)
    requires ManagedFor(a, i) && ManagedFor(a, j) && Plain(i.namespace) && Plain(j.namespace)
    ensures i == j
  {
    PathsDiffer(i, j);
  }

  /** What it takes to be an own route, annotation by annotation. */
  lemma OwnMeaning(k: Key, a: Annotations, ingress: Key)
    ensures IsOwn(k, a, ingress) <==>
              && k.namespace == ingress.namespace && ingress.name <= k.name
              && MANAGED_BY in a && a[MANAGED_BY] == MANAGED_BY_VALUE
              && SOURCE in a && a[SOURCE] == ingress.namespace + "/" + ingress.name
  {
    assert MANAGED_BY_VALUE != "" && |ingress.namespace + "/" + ingress.name| > 0;
  }
}
