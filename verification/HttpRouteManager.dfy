/** Splitting an HTTPRoute into parts of at most 16 rules, and applying the parts to a shared
    cluster whose API may fail at any call. */
module HttpRouteManager {
  import opened Options
  import opened Ordering
  import opened Text
  import opened HttpRoutes
  import opened Ownership

  const MAX_RULES := 16

  /** `section` is the listener's name. */
  datatype Parent = Parent(gateway: string, section: string)
  datatype Spec = Spec(hostnames: seq<string>, parents: seq<Parent>, rules: seq<Rule>)
  /** `labels` stands for the metadata that an update leaves alone. */
  datatype Body = Body(annotations: Annotations, labels: map<string, string>, spec: Spec)
  datatype HttpRoute = HttpRoute(key: Key, body: Body)
  type Routes = map<Key, Body>

  // ---------------------------------------------------------------- ownership

  /** The routes that are found for an Ingress. */
  function Own(routes: Routes, ingress: Key): (o: set<Key>)
    ensures forall k :: k in o <==> k in routes && IsOwn(k, routes[k].annotations, ingress)
  {
    set k | k in routes && IsOwn(k, routes[k].annotations, ingress)
  }

  // ---------------------------------------------------------------- splitting

  function PartName(name: string, n: nat): string {
    if n <= 1 then name else name + "-" + Digits(n)
  }

  function PartCount(rules: nat): nat {
    (rules + MAX_RULES - 1) / MAX_RULES
  }

  function Chunk(rules: seq<Rule>, n: nat): seq<Rule>
    requires n * MAX_RULES <= |rules|
  {
    if (n + 1) * MAX_RULES > |rules| then rules[n * MAX_RULES..] else rules[n * MAX_RULES..(n + 1) * MAX_RULES]
  }

  /** Part n of a route, counted from 0. */
  function Part(r: HttpRoute, n: nat): HttpRoute
    requires n * MAX_RULES <= |r.body.spec.rules|
  {
    r.(key := r.key.(name := PartName(r.key.name, n + 1)),
       body := r.body.(spec := r.body.spec.(rules := Chunk(r.body.spec.rules, n))))
  }

  ghost predicate IsSplit(r: HttpRoute, parts: seq<HttpRoute>) {
    if |r.body.spec.rules| <= MAX_RULES then parts == [r]
    else
      && |parts| == PartCount(|r.body.spec.rules|)
      && forall n :: 0 <= n < |parts| ==> n * MAX_RULES <= |r.body.spec.rules| && parts[n] == Part(r, n)
  }

  method SplitHttpRouteIfNeeded(r: HttpRoute) returns (parts: seq<HttpRoute>)
    ensures IsSplit(r, parts)
  {
    var rules := r.body.spec.rules;
    if |rules| <= MAX_RULES {
      return [r];
    }
    parts := [];
    var partNum, i := 1, 0;
    while i < |rules|
      invariant partNum == |parts| + 1 && i == |parts| * MAX_RULES && i < |rules| + MAX_RULES
      invariant forall n :: 0 <= n < |parts| ==> n * MAX_RULES <= |rules| && parts[n] == Part(r, n)
    {
      var end := i + MAX_RULES;
      if end > |rules| {
        end := |rules|;
      }
      var part := r.(body := r.body.(spec := r.body.spec.(rules := rules[i..end])));
      if partNum > 1 {
        part := part.(key := part.key.(name := r.key.name + "-" + Digits(partNum)));
      }
      parts := parts + [part];
      partNum, i := partNum + 1, i + MAX_RULES;
    }
  }

  function Concatenated(parts: seq<HttpRoute>): seq<Rule> {
    if parts == [] then [] else Concatenated(parts[..|parts| - 1]) + parts[|parts| - 1].body.spec.rules
  }

  ghost predicate DistinctKeys(ds: seq<HttpRoute>) {
    forall i, j :: 0 <= i < j < |ds| ==> ds[i].key != ds[j].key
  }

  lemma {:induction false} PartsConcatenate(r: HttpRoute, parts: seq<HttpRoute>, n: nat)
    requires |r.body.spec.rules| > MAX_RULES && IsSplit(r, parts) && n <= |parts|
    ensures Concatenated(parts[..n]) ==
              if n < |parts| then r.body.spec.rules[..n * MAX_RULES] else r.body.spec.rules
  {
    if n > 0 {
      PartsConcatenate(r, parts, n - 1);
      assert parts[..n][..n - 1] == parts[..n - 1];
      assert parts[n - 1] == Part(r, n - 1);
    }
  }

  /** The parts hold the original rules in order, at most 16 each and all full but the last;
      they differ from the original in nothing but name and rules, and have distinct names
      that extend its name. */
  lemma SplitMeaning(r: HttpRoute, parts: seq<HttpRoute>)
    requires IsSplit(r, parts)
    ensures parts != [] && parts[0].key == r.key
    ensures Concatenated(parts) == r.body.spec.rules
    ensures forall n :: 0 <= n < |parts| ==> |parts[n].body.spec.rules| <= MAX_RULES
    ensures forall n :: 0 <= n < |parts| - 1 ==> |parts[n].body.spec.rules| == MAX_RULES
    ensures |parts| > 1 ==> parts[|parts| - 1].body.spec.rules != []
    ensures forall p :: p in parts ==>
              && p.key.namespace == r.key.namespace && r.key.name <= p.key.name
              && p.body == r.body.(spec := r.body.spec.(rules := p.body.spec.rules))
    ensures DistinctKeys(parts)
  {
    if |r.body.spec.rules| <= MAX_RULES {
      assert parts[..0] == [];
    } else {
      PartsConcatenate(r, parts, |parts|);
      assert parts[..|parts|] == parts;
      PartSizes(r, parts);
      PartNames(r, parts);
      assert parts[0] == Part(r, 0);
    }
  }

  lemma PartSizes(r: HttpRoute, parts: seq<HttpRoute>)
    requires |r.body.spec.rules| > MAX_RULES && IsSplit(r, parts)
    ensures forall n :: 0 <= n < |parts| ==> |parts[n].body.spec.rules| <= MAX_RULES
    ensures forall n :: 0 <= n < |parts| - 1 ==> |parts[n].body.spec.rules| == MAX_RULES
    ensures parts != [] && parts[|parts| - 1].body.spec.rules != []
  {
  }

  lemma PartNames(r: HttpRoute, parts: seq<HttpRoute>)
    requires |r.body.spec.rules| > MAX_RULES && IsSplit(r, parts)
    ensures DistinctKeys(parts)
    ensures forall p :: p in parts ==> IsPartOf(r, p)
  {
    forall i, j | 0 <= i < j < |parts| ensures parts[i].key != parts[j].key {
      assert parts[i] == Part(r, i) && parts[j] == Part(r, j);
      NamesDiffer(r.key.name, i + 1, j + 1);
    }
  }

  predicate IsPartOf(r: HttpRoute, p: HttpRoute) {
    && p.key.namespace == r.key.namespace && r.key.name <= p.key.name
    && p.body == r.body.(spec := r.body.spec.(rules := p.body.spec.rules))
  }

  lemma NamesDiffer(name: string, i: nat, j: nat)
    requires 1 <= i < j
    ensures PartName(name, i) != PartName(name, j)
  {
    var a, b := PartName(name, i), PartName(name, j);
    assert |b| > |name|;
    if i > 1 && a == b {
      assert a[|name| + 1..] == Digits(i) && b[|name| + 1..] == Digits(j);
      DigitsInjective(i, j);
    }
  }

  // ---------------------------------------------------------------- applying

  predicate Blocked(routes: Routes, k: Key) {
    k in routes && !Managed(routes[k].annotations)
  }

  /** Storing one route: an object that is not managed is left alone; labels survive an
      update, unless the object was deleted meanwhile and had to be created again. */
  ghost predicate AppliedOne(before: Routes, d: HttpRoute, after: Routes) {
    && after - {d.key} == before - {d.key}
    && if Blocked(before, d.key) then after == before
       else
         && d.key in after && after[d.key].annotations == d.body.annotations && after[d.key].spec == d.body.spec
         && (after[d.key].labels == d.body.labels || (d.key in before && after[d.key].labels == before[d.key].labels))
  }

  ghost predicate AppliedAll(before: Routes, ds: seq<HttpRoute>, after: Routes) {
    if ds == [] then after == before
    else exists mid: Routes :: AppliedAll(before, ds[..|ds| - 1], mid) && AppliedLast(mid, ds, after)
  }

  ghost predicate AppliedLast(mid: Routes, ds: seq<HttpRoute>, after: Routes)
    requires ds != []
  {
    AppliedOne(mid, ds[|ds| - 1], after)
  }

  predicate UpdateInPlace(routes: Routes, ingress: Key, desired: seq<HttpRoute>) {
    |Own(routes, ingress)| == 1 && |desired| == 1
  }

  /** What a call that reports success has done. */
  ghost predicate AppliedAtomically(before: Routes, ingress: Key, desired: seq<HttpRoute>, after: Routes) {
    if UpdateInPlace(before, ingress, desired) then AppliedOne(before, desired[0], after)
    else AppliedAll(before - Own(before, ingress), desired, after)
  }

  ghost function Keys(ds: seq<HttpRoute>): (r: set<Key>)
    ensures forall k :: k in r <==> exists d :: d in ds && d.key == k
  {
    set d | d in ds :: d.key
  }

  /** What any call leaves alone, however it ends: routes that are neither own nor desired,
      and routes that are not managed. */
  ghost predicate OthersKept(before: Routes, touched: set<Key>, after: Routes) {
    && (forall k :: k !in touched ==> Get(after, k) == Get(before, k))
    && (forall k :: Blocked(before, k) ==> Get(after, k) == Get(before, k))
  }

  datatype Outcome = Done | NotFound | Failed

  class Cluster {
    var routes: Routes

    constructor (routes: Routes)
      ensures this.routes == routes
    {
      this.routes := routes;
    }

    // The API. Any call may fail; a failed write may have taken effect all the same.

    method ApiGet(k: Key) returns (found: Option<Body>, ok: bool)
      ensures ok ==> found == Get(routes, k)
    {
      ok := *;
      found := Get(routes, k);
    }

    method ApiCreate(k: Key, b: Body) returns (ok: bool)
      modifies `routes
      ensures k in old(routes) ==> !ok && routes == old(routes)
      ensures routes == old(routes) || routes == old(routes)[k := b]
      ensures ok ==> routes == old(routes)[k := b]
    {
      ok := false;
      if k in routes {
        return;
      }
      var lost: bool := *;
      if lost {
        return;
      }
      routes := routes[k := b];
      ok := *;
    }

    /** Somebody else may delete the object just before the update. */
    method ApiUpdate(k: Key, b: Body) returns (o: Outcome)
      modifies `routes
      ensures o == Done ==> k in old(routes) && routes == old(routes)[k := b]
      ensures o == NotFound ==> routes == old(routes) - {k}
      ensures o == Failed ==> routes == old(routes) || (k in old(routes) && routes == old(routes)[k := b])
    {
      var gone: bool := *;
      if k !in routes || gone {
        routes := routes - {k};
        return NotFound;
      }
      var lost, failed: bool := *, *;
      if !lost {
        routes := routes[k := b];
      }
      return if lost || failed then Failed else Done;
    }

    /** Immediate removal; a missing object counts as removed. */
    method ApiDelete(k: Key) returns (ok: bool)
      modifies `routes
      ensures routes == old(routes) || routes == old(routes) - {k}
      ensures ok ==> routes == old(routes) - {k}
    {
      var lost: bool := *;
      if lost {
        return false;
      }
      routes := routes - {k};
      ok := *;
    }

    /** The keys of a namespace, in any order. */
    method ApiList(namespace: string) returns (found: seq<Key>, ok: bool)
      ensures ok ==> Distinct(found) && Elements(found) == set k | k in routes && k.namespace == namespace
    {
      var todo := set k | k in routes && k.namespace == namespace;
      ghost var all := todo;
      found := [];
      while todo != {}
        invariant todo !! Elements(found) && todo + Elements(found) == all && Distinct(found)
      {
        var k :| k in todo;
        assert k !in found by { assert k !in Elements(found); }
        assert Elements(found + [k]) == Elements(found) + {k};
        todo, found := todo - {k}, found + [k];
      }
      ok := *;
    }

    method GetHttpRoutesWithPrefix(ingress: Key) returns (own: seq<Key>, ok: bool)
      ensures ok ==> Distinct(own) && Elements(own) == Own(routes, ingress)
    {
      var all;
      all, ok := ApiList(ingress.namespace);
      own := [];
      if !ok {
        return;
      }
      for i := 0 to |all|
        invariant Distinct(own)
        invariant forall k :: k in own <==> k in all[..i] && k in routes && IsOwn(k, routes[k].annotations, ingress)
      {
        assert all[i] in Elements(all);
        if ingress.name <= all[i].name && ManagedFor(routes[all[i]].annotations, ingress) {
          own := own + [all[i]];
        }
      }
      assert all[..|all|] == all;
      forall k ensures k in own <==> k in Own(routes, ingress) {
        assert k in all <==> k in Elements(all);
      }
    }

    method ApplyHttpRoute(d: HttpRoute) returns (ok: bool)
      modifies `routes
      ensures ok ==> AppliedOne(old(routes), d, routes)
      ensures routes - {d.key} == old(routes) - {d.key}
      ensures Blocked(old(routes), d.key) ==> routes == old(routes)
    {
      var existing, readable := ApiGet(d.key);
      if !readable {
        return false;
      }
      if existing.Some? && !Managed(existing.value.annotations) {
        return true;
      }
      existing, readable := ApiGet(d.key);
      if !readable {
        return false;
      }
      if existing.None? {
        ok := ApiCreate(d.key, d.body);
        return;
      }
      var outcome := ApiUpdate(d.key, existing.value.(annotations := d.body.annotations, spec := d.body.spec));
      if outcome == NotFound {
        ok := ApiCreate(d.key, d.body);
        return;
      }
      return outcome == Done;
    }

    method DeleteAll(own: seq<Key>) returns (ok: bool)
      modifies `routes
      ensures ok ==> routes == old(routes) - Elements(own)
      ensures forall k :: k !in own ==> Get(routes, k) == Get(old(routes), k)
    {
      assert Elements(own[..0]) == {};
      for i := 0 to |own|
        invariant routes == old(routes) - Elements(own[..i])
      {
        assert own[..i + 1] == own[..i] + [own[i]];
        ok := ApiDelete(own[i]);
        if !ok {
          return;
        }
      }
      assert own[..|own|] == own;
      ok := true;
    }

    method ApplyAll(desired: seq<HttpRoute>) returns (ok: bool)
      modifies `routes
      ensures ok ==> AppliedAll(old(routes), desired, routes)
      ensures OthersKept(old(routes), Keys(desired), routes)
    {
      for i := 0 to |desired|
        invariant AppliedAll(old(routes), desired[..i], routes)
        invariant OthersKept(old(routes), Keys(desired), routes)
      {
        ghost var mid := routes;
        ok := ApplyHttpRoute(desired[i]);
        StillKept(old(routes), desired, mid, i, routes);
        if !ok {
          return;
        }
        assert desired[..i + 1][..i] == desired[..i];
        assert AppliedLast(mid, desired[..i + 1], routes);
      }
      assert desired[..|desired|] == desired;
      ok := true;
    }

    method ApplyHttpRoutesAtomic(ingress: Key, desired: seq<HttpRoute>) returns (ok: bool)
      modifies `routes
      ensures ok ==> AppliedAtomically(old(routes), ingress, desired, routes)
      ensures OthersKept(old(routes), Own(old(routes), ingress) + Keys(desired), routes)
    {
      var own, listed := GetHttpRoutesWithPrefix(ingress);
      if !listed {
        return false;
      }
      DistinctMultiset(own);
      assert |own| == |multiset(own)| == |Own(routes, ingress)|;
      if |own| == 1 && |desired| == 1 {
        ok := ApplyHttpRoute(desired[0]);
        StillKept(old(routes), desired, old(routes), 0, routes);
        return;
      }
      ok := DeleteAll(own);
      assert forall k :: k in own <==> k in Own(old(routes), ingress);
      if !ok {
        return;
      }
      ok := ApplyAll(desired);
    }
  }

  lemma StillKept(before: Routes, ds: seq<HttpRoute>, mid: Routes, i: nat, after: Routes)
    requires i < |ds| && OthersKept(before, Keys(ds), mid)
    requires after - {ds[i].key} == mid - {ds[i].key}
    requires Blocked(mid, ds[i].key) ==> after == mid
    ensures OthersKept(before, Keys(ds), after)
  {
    assert ds[i].key in Keys(ds);
    forall k | k != ds[i].key ensures Get(after, k) == Get(mid, k) {
      GetOther(after, mid, ds[i].key, k);
    }
  }

  // ---------------------------------------------------------------- convergence

  /** The parts of one Ingress: its own content under distinct own names. */
  ghost predicate PartsOf(ds: seq<HttpRoute>, ingress: Key) {
    ds != [] && DistinctKeys(ds) && forall d :: d in ds ==> IsOwn(d.key, d.body.annotations, ingress)
  }

  /** Nobody else's route holds a desired name. */
  ghost predicate NoForeignHolder(routes: Routes, ingress: Key, ds: seq<HttpRoute>) {
    forall k :: k in routes && k in Keys(ds) ==> k in Own(routes, ingress)
  }

  ghost predicate HasContent(routes: Routes, d: HttpRoute) {
    d.key in routes && routes[d.key].annotations == d.body.annotations && routes[d.key].spec == d.body.spec
  }

  /** Exactly the desired parts are there for the Ingress, and every other route is as before. */
  ghost predicate Exactly(before: Routes, ingress: Key, ds: seq<HttpRoute>, after: Routes) {
    && Own(after, ingress) == Keys(ds)
    && (forall d :: d in ds ==> HasContent(after, d))
    && (forall k :: k in before && k !in Own(before, ingress) ==> Get(after, k) == Some(before[k]))
    && (forall k :: k in after ==> k in before || k in Keys(ds))
  }

  /** A stored list: its content under its keys and everything else as before. */
  ghost predicate StoredOver(before: Routes, ds: seq<HttpRoute>, after: Routes) {
    && (forall d :: d in ds ==> HasContent(after, d))
    && (forall k :: k !in Keys(ds) ==> Get(after, k) == Get(before, k))
  }

  lemma {:induction false} AppliedAllMeaning(before: Routes, ds: seq<HttpRoute>, after: Routes)
    requires DistinctKeys(ds) && forall d :: d in ds ==> !Blocked(before, d.key)
    requires AppliedAll(before, ds, after)
    ensures StoredOver(before, ds, after)
  {
    if ds != [] {
      var front, last := ds[..|ds| - 1], ds[|ds| - 1];
      assert ds == front + [last];
      var mid: Routes :| AppliedAll(before, front, mid) && AppliedLast(mid, ds, after);
      AppliedAllMeaning(before, front, mid);
      assert Keys(ds) == Keys(front) + {last.key};
      assert last.key !in Keys(front);
      StoredLast(before, front, mid, last, after);
    }
  }

  lemma StoredLast(before: Routes, front: seq<HttpRoute>, mid: Routes, last: HttpRoute, after: Routes)
    requires StoredOver(before, front, mid) && last.key !in Keys(front)
    requires AppliedOne(mid, last, after) && !Blocked(before, last.key)
    ensures StoredOver(before, front + [last], after)
  {
    var ds := front + [last];
    assert Keys(ds) == Keys(front) + {last.key};
    assert Get(mid, last.key) == Get(before, last.key);
    forall k | k != last.key ensures Get(after, k) == Get(mid, k) {
      GetOther(mid, after, last.key, k);
    }
    forall d | d in ds ensures HasContent(after, d) {
      if d in front {
        assert d.key in Keys(front);
        assert Get(after, d.key) == Get(mid, d.key);
      }
    }
  }

  /** The one case that needs a second call: a single own route under another name than the
      single desired one is not removed by the update in place. */
  predicate LeavesStalePart(routes: Routes, ingress: Key, ds: seq<HttpRoute>) {
    UpdateInPlace(routes, ingress, ds) && Own(routes, ingress) != {ds[0].key}
  }

  lemma ExactWhenStored(before: Routes, ingress: Key, ds: seq<HttpRoute>, base: Routes, after: Routes)
    requires PartsOf(ds, ingress) && NoForeignHolder(before, ingress, ds)
    requires StoredOver(base, ds, after)
    requires forall k :: k !in Keys(ds) ==> Get(base, k) == if k in Own(before, ingress) then None else Get(before, k)
    ensures Exactly(before, ingress, ds, after)
  {
    forall k ensures k in Own(after, ingress) <==> k in Keys(ds) {
      if k in Keys(ds) {
        var d :| d in ds && d.key == k;
        assert HasContent(after, d) && IsOwn(d.key, d.body.annotations, ingress);
      } else {
        assert Get(after, k) == Get(base, k);
      }
    }
    forall k | k in before && k !in Own(before, ingress) ensures Get(after, k) == Some(before[k]) {
      assert k !in Keys(ds);
    }
    forall k | k in after && k !in Keys(ds) ensures k in before {
      assert Get(after, k) == Get(base, k);
    }
  }

  /** One call is enough exactly when it leaves no stale part. */
  lemma OneCall(before: Routes, ingress: Key, ds: seq<HttpRoute>, after: Routes)
    requires PartsOf(ds, ingress) && NoForeignHolder(before, ingress, ds)
    requires AppliedAtomically(before, ingress, ds, after)
    ensures Exactly(before, ingress, ds, after) <==> !LeavesStalePart(before, ingress, ds)
    ensures Own(after, ingress) == if LeavesStalePart(before, ingress, ds) then Own(before, ingress) + Keys(ds) else Keys(ds)
    ensures forall k :: k !in Own(before, ingress) && k !in Keys(ds) ==> Get(after, k) == Get(before, k)
  {
    var own := Own(before, ingress);
    forall d | d in ds ensures !Blocked(before, d.key) {
      assert d.key in Keys(ds);
    }
    if UpdateInPlace(before, ingress, ds) {
      UpdatedInPlace(before, ingress, ds, after);
    } else {
      AppliedAllMeaning(before - own, ds, after);
      ExactWhenStored(before, ingress, ds, before - own, after);
    }
  }

  lemma UpdatedInPlace(before: Routes, ingress: Key, ds: seq<HttpRoute>, after: Routes)
    requires PartsOf(ds, ingress) && NoForeignHolder(before, ingress, ds) && !Blocked(before, ds[0].key)
    requires UpdateInPlace(before, ingress, ds) && AppliedOne(before, ds[0], after)
    ensures Exactly(before, ingress, ds, after) <==> !LeavesStalePart(before, ingress, ds)
    ensures Own(after, ingress) == if LeavesStalePart(before, ingress, ds) then Own(before, ingress) + Keys(ds) else Keys(ds)
    ensures forall k :: k !in Own(before, ingress) && k !in Keys(ds) ==> Get(after, k) == Get(before, k)
  {
    var own, k0 := Own(before, ingress), ds[0].key;
    assert ds == [ds[0]] && Keys(ds) == {k0};
    forall k | k != k0 ensures Get(after, k) == Get(before, k) {
      GetOther(before, after, k0, k);
    }
    forall k ensures k in Own(after, ingress) <==> k in own || k == k0 {
      if k != k0 { assert Get(after, k) == Get(before, k); }
      else { assert IsOwn(ds[0].key, ds[0].body.annotations, ingress); }
    }
    assert Own(after, ingress) == own + {k0};
    if !LeavesStalePart(before, ingress, ds) {
      assert StoredOver(before, ds, after);
      ExactWhenStored(before, ingress, ds, before, after);
    } else {
      var k :| k in own;
      SingleOwn(own, k);
      assert k != k0;
    }
  }

  lemma SingleOwn(own: set<Key>, k: Key)
    requires |own| == 1 && k in own
    ensures own == {k}
  {
    assert |own - {k}| == 0;
    assert own == {k} + (own - {k});
  }

  /** From any cluster state, also one left by a call that failed: two calls that succeed
      leave exactly the desired parts for the Ingress and every other route untouched,
      if and only if nobody else's route held a desired name. */
  lemma TwoCallsConverge(r0: Routes, ingress: Key, ds: seq<HttpRoute>, r1: Routes, r2: Routes)
    requires PartsOf(ds, ingress)
    requires AppliedAtomically(r0, ingress, ds, r1) && AppliedAtomically(r1, ingress, ds, r2)
    ensures Exactly(r0, ingress, ds, r2) <==> NoForeignHolder(r0, ingress, ds)
  {
    if NoForeignHolder(r0, ingress, ds) {
      OneCall(r0, ingress, ds, r1);
      forall k | k in r1 && k in Keys(ds) ensures k in Own(r1, ingress) {
      }
      NoLongerStale(r0, ingress, ds, r1);
      OneCall(r1, ingress, ds, r2);
      ExactFromFirst(r0, ingress, ds, r1, r2);
    } else {
      var k :| k in r0 && k in Keys(ds) && k !in Own(r0, ingress);
      var d :| d in ds && d.key == k;
      assert IsOwn(k, d.body.annotations, ingress);
    }
  }

  lemma NoLongerStale(r0: Routes, ingress: Key, ds: seq<HttpRoute>, r1: Routes)
    requires Own(r1, ingress) == if LeavesStalePart(r0, ingress, ds) then Own(r0, ingress) + Keys(ds) else Keys(ds)
    ensures !LeavesStalePart(r1, ingress, ds)
  {
    if LeavesStalePart(r1, ingress, ds) {
      assert ds == [ds[0]] && Keys(ds) == {ds[0].key};
      assert ds[0].key in Own(r1, ingress);
      SingleOwn(Own(r1, ingress), ds[0].key);
    }
  }

  lemma ExactFromFirst(r0: Routes, ingress: Key, ds: seq<HttpRoute>, r1: Routes, r2: Routes)
    requires Own(r1, ingress) <= Own(r0, ingress) + Keys(ds)
    requires forall k :: k !in Own(r0, ingress) && k !in Keys(ds) ==> Get(r1, k) == Get(r0, k)
    requires NoForeignHolder(r0, ingress, ds) && Exactly(r1, ingress, ds, r2)
    ensures Exactly(r0, ingress, ds, r2)
  {
    forall k | k in r0 && k !in Own(r0, ingress) ensures Get(r2, k) == Some(r0[k]) {
      assert k !in Keys(ds);
      assert Get(r1, k) == Some(r0[k]);
    }
    forall k | k in r2 && k !in Keys(ds) ensures k in r0 {
      assert k in r1;
      if k !in Own(r0, ingress) { assert Get(r1, k) == Get(r0, k); }
    }
  }

  /** Stored, or its name is held by an object that is not managed. */
  ghost predicate InPlace(routes: Routes, d: HttpRoute) {
    HasContent(routes, d) || Blocked(routes, d.key)
  }

  lemma {:induction false} AppliedAllInPlace(before: Routes, ds: seq<HttpRoute>, after: Routes)
    requires DistinctKeys(ds) && AppliedAll(before, ds, after)
    ensures forall d :: d in ds ==> InPlace(after, d)
  {
    if ds != [] {
      var front, last := ds[..|ds| - 1], ds[|ds| - 1];
      assert ds == front + [last];
      var mid: Routes :| AppliedAll(before, front, mid) && AppliedLast(mid, ds, after);
      AppliedAllInPlace(before, front, mid);
      hide AppliedAll;
      forall d | d in front ensures InPlace(after, d) {
        GetOther(mid, after, last.key, d.key);
      }
    }
  }

  /** A call that reports success has every part in place, from whatever state it started. */
  lemma SuccessIsInPlace(before: Routes, ingress: Key, ds: seq<HttpRoute>, after: Routes)
    requires DistinctKeys(ds) && AppliedAtomically(before, ingress, ds, after)
    ensures forall d :: d in ds ==> InPlace(after, d)
  {
    if UpdateInPlace(before, ingress, ds) {
      assert ds == [ds[0]];
    } else {
      AppliedAllInPlace(before - Own(before, ingress), ds, after);
    }
  }

  /** The parts of a split route are fit for applying. */
  lemma SplitPartsAreApplicable(r: HttpRoute, parts: seq<HttpRoute>)
    requires IsSplit(r, parts) && ManagedFor(r.body.annotations, r.key)
    ensures PartsOf(parts, r.key)
  {
    SplitMeaning(r, parts);
    forall p | p in parts ensures IsOwn(p.key, p.body.annotations, r.key) {
      assert IsPartOf(r, p);
    }
  }
}
