/** The per-namespace ReferenceGrant, whose source annotation counts the HTTPRoutes that
    need it. */
module ReferenceGrants {
  import opened Options
  import opened Ordering
  import opened Text

  /** `managed`: the managed-by annotation is ours. */
  datatype Grant = Grant(managed: bool, source: string)

  /** Trimmed, non-blank parts, in order. */
  function NonBlank(parts: seq<string>): seq<string> {
    if parts == [] then []
    else NonBlank(parts[..|parts| - 1]) + (if Trim(parts[|parts| - 1]) == "" then [] else [Trim(parts[|parts| - 1])])
  }

  function Sources(annotation: string): seq<string> {
    if annotation == "" then [] else NonBlank(Split(annotation, ','))
  }

  lemma {:induction false} NonBlankMeaning(parts: seq<string>, x: string)
    ensures x in NonBlank(parts) <==> x != "" && exists p :: p in parts && Trim(p) == x
  {
    if parts != [] {
      var n := |parts| - 1;
      NonBlankMeaning(parts[..n], x);
      assert parts == parts[..n] + [parts[n]];
      assert forall p :: p in parts <==> p in parts[..n] || p == parts[n];
      assert x != "" && x == Trim(parts[n]) ==> parts[n] in parts && x in NonBlank(parts);
      if x in NonBlank(parts) && x !in NonBlank(parts[..n]) {
        assert x == Trim(parts[n]) && parts[n] in parts;
      }
    }
  }

  method GetSourcesFromAnnotation(annotation: string) returns (result: seq<string>)
    ensures result == Sources(annotation)
  {
    result := [];
    if annotation == "" {
      return;
    }
    var parts := Split(annotation, ',');
    for i := 0 to |parts|
      invariant result == NonBlank(parts[..i])
    {
      var trimmed := Trim(parts[i]);
      if trimmed != "" {
        result := result + [trimmed];
      }
      assert parts[..i + 1][..i] == parts[..i];
    }
    assert parts[..|parts|] == parts;
  }

  /** utils.RemoveString. */
  function Remove(xs: seq<string>, x: string): (r: seq<string>)
    ensures forall y :: y in r <==> y in xs && y != x
    ensures |r| <= |xs| && (|r| == |xs| <==> x !in xs)
  {
    if xs == [] then []
    else
      assert xs == xs[..|xs| - 1] + [xs[|xs| - 1]];
      Remove(xs[..|xs| - 1], x) + (if xs[|xs| - 1] == x then [] else [xs[|xs| - 1]])
  }

  // ---------------------------------------------------------------- the two operations

  function AfterEnsure(g: Option<Grant>, key: string): Option<Grant> {
    if g.None? then Some(Grant(true, key))
    else if !g.value.managed then g
    else
      var sources := Sources(g.value.source);
      if key in sources then g else Some(g.value.(source := Join(Sort(sources + [key]), ',')))
  }

  function AfterCleanup(g: Option<Grant>, key: string): Option<Grant> {
    if g.None? || !g.value.managed then g
    else
      var sources := Sources(g.value.source);
      var left := Remove(sources, key);
      if left == [] then None
      else if |left| != |sources| then Some(g.value.(source := Join(left, ',')))
      else g
  }

  /** The grant of one namespace, behind an API whose every call may fail; a failed write may
      have taken effect all the same. */
  class GrantStore {
    var grant: Option<Grant>

    /** Create, Update or Delete. */
    method ApiWrite(g: Option<Grant>) returns (ok: bool)
      modifies this
      ensures grant == old(grant) || grant == g
      ensures ok ==> grant == g
    {
      var lost: bool := *;
      if lost {
        return false;
      }
      grant := g;
      ok := *;
    }

    method EnsureReferenceGrant(key: string) returns (ok: bool)
      modifies this
      ensures ok ==> grant == AfterEnsure(old(grant), key)
      ensures grant == old(grant) || grant == AfterEnsure(old(grant), key)
    {
      var readable: bool := *;
      if !readable {
        return false;
      }
      if grant.None? {
        ok := ApiWrite(Some(Grant(true, key)));
        return;
      }
      if !grant.value.managed {
        return true;
      }
      var sources := GetSourcesFromAnnotation(grant.value.source);
      if key !in sources {
        sources := Sort(sources + [key]);
        ok := ApiWrite(Some(grant.value.(source := Join(sources, ','))));
        return;
      }
      return true;
    }

    method CleanupReferenceGrant(key: string) returns (ok: bool)
      modifies this
      ensures ok ==> grant == AfterCleanup(old(grant), key)
      ensures grant == old(grant) || grant == AfterCleanup(old(grant), key)
    {
      var readable: bool := *;
      if !readable {
        return false;
      }
      if grant.None? || !grant.value.managed {
        return true;
      }
      var sources := GetSourcesFromAnnotation(grant.value.source);
      var left := Remove(sources, key);
      if left == [] {
        ok := ApiWrite(None);
        return;
      }
      if |left| != |sources| {
        ok := ApiWrite(Some(grant.value.(source := Join(left, ','))));
        return;
      }
      return true;
    }
  }

  // ---------------------------------------------------------------- counting over any run

  datatype Call = Ensure(key: string) | Cleanup(key: string)

  function AfterCalls(g: Option<Grant>, calls: seq<Call>): Option<Grant> {
    if calls == [] then g
    else
      var before := AfterCalls(g, calls[..|calls| - 1]);
      match calls[|calls| - 1]
      case Ensure(k) => AfterEnsure(before, k)
      case Cleanup(k) => AfterCleanup(before, k)
  }

  /** The routes that were ensured and not cleaned up since. */
  function Registered(calls: seq<Call>): set<string> {
    if calls == [] then {}
    else
      var before := Registered(calls[..|calls| - 1]);
      match calls[|calls| - 1]
      case Ensure(k) => before + {k}
      case Cleanup(k) => before - {k}
  }

  /** Keys of the form "namespace/name": no comma, no surrounding blanks. */
  predicate IsKey(k: string) {
    k != "" && ',' !in k && Trimmed(k)
  }

  /** The grant that counts exactly the routes in rs. */
  ghost predicate Counts(g: Option<Grant>, rs: set<string>) {
    if rs == {} then g == None
    else g == Some(Grant(true, Join(Listing(rs), ',')))
  }

  lemma {:induction false} NonBlankKeys(parts: seq<string>)
    requires forall p :: p in parts ==> IsKey(p)
    ensures NonBlank(parts) == parts
  {
    if parts != [] {
      var n := |parts| - 1;
      assert parts[n] in parts;
      TrimTrims(parts[n]);
      NonBlankKeys(parts[..n]);
    }
  }

  /** The annotation parses back to the sorted, duplicate-free list of routes. */
  lemma SourcesParseBack(rs: set<string>)
    requires rs != {} && forall k :: k in rs ==> IsKey(k)
    ensures Sources(Join(Listing(rs), ',')) == Listing(rs)
  {
    var l := Listing(rs);
    assert Elements(l) == rs;
    assert l != [];
    SplitJoin(l, ',');
    NonBlankKeys(l);
    assert l[0] in Elements(l);
    assert Join(l, ',') != "";
  }

  lemma EnsureCounts(g: Option<Grant>, rs: set<string>, key: string)
    requires Counts(g, rs) && IsKey(key) && forall k :: k in rs ==> IsKey(k)
    ensures Counts(AfterEnsure(g, key), rs + {key})
  {
    if rs == {} {
      ListingUnique([key], {key});
      assert rs + {key} == {key};
    } else {
      var l := Listing(rs);
      SourcesParseBack(rs);
      assert Elements(l) == rs;
      if key in rs {
        assert key in l;
        assert rs + {key} == rs;
      } else {
        SortAppended(l, key);
        ListingUnique(Sort(l + [key]), rs + {key});
      }
    }
  }

  lemma {:induction false} RemoveKeeps(xs: seq<string>, x: string)
    requires Sorted(xs) && Distinct(xs)
    ensures Sorted(Remove(xs, x)) && Distinct(Remove(xs, x))
  {
    if xs != [] {
      var n := |xs| - 1;
      RemoveKeeps(xs[..n], x);
      var front := Remove(xs[..n], x);
      forall i | 0 <= i < |front| ensures Le(front[i], xs[n]) && front[i] != xs[n] {
        assert front[i] in xs[..n];
      }
    }
  }

  lemma CleanupCounts(g: Option<Grant>, rs: set<string>, key: string)
    requires Counts(g, rs) && forall k :: k in rs ==> IsKey(k)
    ensures Counts(AfterCleanup(g, key), rs - {key})
  {
    if rs != {} {
      var l := Listing(rs);
      SourcesParseBack(rs);
      CleanupStep(Join(l, ','), l, key);
      RemovedListing(rs, key);
      if key !in rs {
        assert rs - {key} == rs;
      }
    }
  }

  lemma CleanupStep(source: string, l: seq<string>, key: string)
    requires Sources(source) == l
    ensures AfterCleanup(Some(Grant(true, source)), key) ==
              if Remove(l, key) == [] then None
              else if key in l then Some(Grant(true, Join(Remove(l, key), ',')))
              else Some(Grant(true, source))
  {
  }

  lemma RemovedListing(rs: set<string>, key: string)
    ensures Remove(Listing(rs), key) == Listing(rs - {key})
    ensures Remove(Listing(rs), key) == [] <==> rs - {key} == {}
    ensures key in Listing(rs) <==> key in rs
  {
    var l := Listing(rs);
    var left := Remove(l, key);
    RemoveKeeps(l, key);
    assert Elements(l) == rs;
    assert Elements(left) == rs - {key};
    ListingUnique(left, rs - {key});
  }

  /** Reference counting over every sequence of ensure and cleanup calls in a namespace that
      starts without a grant: the grant exists exactly when some route is registered, and
      its annotation parses back to the sorted list of the registered routes. */
  lemma {:induction false} GrantCountsRoutes(calls: seq<Call>)
    requires forall c :: c in calls ==> IsKey(c.key)
    ensures Counts(AfterCalls(None, calls), Registered(calls))
    ensures Registered(calls) != {} ==>
              Sources(AfterCalls(None, calls).value.source) == Listing(Registered(calls))
    ensures forall k :: k in Registered(calls) ==> IsKey(k)
  {
    if calls != [] {
      var front, last := calls[..|calls| - 1], calls[|calls| - 1];
      assert last in calls;
      GrantCountsRoutes(front);
      match last
      case Ensure(k) => EnsureCounts(AfterCalls(None, front), Registered(front), k);
      case Cleanup(k) => CleanupCounts(AfterCalls(None, front), Registered(front), k);
    }
    if Registered(calls) != {} {
      SourcesParseBack(Registered(calls));
    }
  }

  /** Somebody else's grant is never changed. */
  lemma {:induction false} ForeignGrantIsKept(g: Grant, calls: seq<Call>)
    requires !g.managed
    ensures AfterCalls(Some(g), calls) == Some(g)
  {
    if calls != [] {
      ForeignGrantIsKept(g, calls[..|calls| - 1]);
    }
  }
}
