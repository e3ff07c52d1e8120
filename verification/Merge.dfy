/** Properties of the add-only merge: it keeps the controller's listener form, adds
    exactly the route's pairs, and over any list of routes ends where the full
    recomputation does. */
module Merge {
  import opened Options
  import opened Ordering
  import opened Listeners

  lemma IndexOfUnique(ls: seq<Listener>, i: int, h: string)
    requires UniqueHosts(ls) && 0 <= i < |ls| && ls[i].hostname == Some(h)
    ensures IndexOf(ls, h) == i
  {
  }

  /** Adding a namespace to a listener in the controller's form adds exactly that namespace. */
  lemma NamespaceAddedMeaning(l: Listener, ns: string)
    requires ExpressionForm(l)
    ensures ExpressionForm(NamespaceAdded(l, ns))
    ensures NamespaceAdded(l, ns).hostname == l.hostname
    ensures Admitted(NamespaceAdded(l, ns)) == Admitted(l) + {ns}
  {
    hide Sort, Sorted;
    var v := l.selector.value.matchExpressions[0].values;
    if ns !in v {
      SortAppended(v, ns);
      var after := NamespaceAdded(l, ns);
      assert after.selector.value.matchExpressions == [Requirement(NAMESPACE_KEY, In, Sort(v + [ns]))];
      assert Sort(v + [ns]) != [];
    } else {
      assert Elements(v) + {ns} == Elements(v);
    }
  }

  lemma NewListenerMeaning(h: string, namespaces: seq<string>, tls: Option<Tls>)
    requires namespaces != [] && Sorted(namespaces) && Distinct(namespaces)
    ensures ExpressionForm(NewListener(h, namespaces, tls))
    ensures Admitted(NewListener(h, namespaces, tls)) == Elements(namespaces)
  {
  }

  /** Rewriting the first listener of a hostname. */
  lemma ReplaceMeaning(ls: seq<Listener>, h: string, l: Listener)
    requires IndexOf(ls, h) >= 0 && l.hostname == Some(h)
    ensures var after := ls[IndexOf(ls, h) := l];
            && (forall g :: IndexOf(after, g) == IndexOf(ls, g))
            && Meaning(after) == Meaning(ls)[h := Admitted(l)]
            && (UniqueHosts(ls) ==> UniqueHosts(after))
  {
    hide Admitted;
    var after := ls[IndexOf(ls, h) := l];
    SameHosts(ls, after);
    assert h in Hosts(ls);
    MeaningByIndex(ls, after, h, Admitted(l));
  }

  /** Two lists with the same positions that differ in the listener of one hostname. */
  lemma MeaningByIndex(ls: seq<Listener>, after: seq<Listener>, h: string, s: set<string>)
    requires Hosts(after) == Hosts(ls) + {h} && IndexOf(after, h) >= 0 && Admitted(after[IndexOf(after, h)]) == s
    requires forall g :: g in Hosts(ls) && g != h ==>
               IndexOf(after, g) >= 0 && Admitted(after[IndexOf(after, g)]) == Admitted(ls[IndexOf(ls, g)])
    ensures Meaning(after) == Meaning(ls)[h := s]
  {
    hide Admitted;
  }

  lemma SameHosts(a: seq<Listener>, b: seq<Listener>)
    requires |a| == |b| && forall j :: 0 <= j < |a| ==> a[j].hostname == b[j].hostname
    ensures forall h :: IndexOf(a, h) == IndexOf(b, h)
    ensures Hosts(a) == Hosts(b)
  {
    forall h ensures IndexOf(a, h) == IndexOf(b, h) {
      var i, j := IndexOf(a, h), IndexOf(b, h);
      if i >= 0 { assert b[i].hostname == Some(h); }
      if j >= 0 { assert a[j].hostname == Some(h); }
    }
  }

  lemma AppendedIndex(ls: seq<Listener>, l: Listener, g: string)
    ensures IndexOf(ls + [l], g) == if IndexOf(ls, g) >= 0 then IndexOf(ls, g) else if l.hostname == Some(g) then |ls| else -1
  {
    var i, after := IndexOf(ls, g), ls + [l];
    var j := IndexOf(after, g);
    if i >= 0 {
      assert after[i].hostname == Some(g);
      assert j >= 0 && j <= i;
      assert ls[j].hostname == Some(g);
    } else if l.hostname == Some(g) {
      assert after[|ls|].hostname == Some(g);
      assert j >= 0;
    }
  }

  lemma AppendMeaning(ls: seq<Listener>, h: string, l: Listener)
    requires IndexOf(ls, h) < 0 && l.hostname == Some(h)
    ensures Meaning(ls + [l]) == Meaning(ls)[h := Admitted(l)] && h !in Meaning(ls)
    ensures UniqueHosts(ls) ==> UniqueHosts(ls + [l])
  {
    hide Admitted;
    var after := ls + [l];
    forall g ensures IndexOf(after, g) == if IndexOf(ls, g) >= 0 then IndexOf(ls, g) else if g == h then |ls| else -1 {
      AppendedIndex(ls, l, g);
    }
    assert Hosts(after) == Hosts(ls) + {h};
    MeaningByIndex(ls, after, h, Admitted(l));
  }

  lemma MergeHostMeaning(ls: seq<Listener>, h: string, ns: string, tls: Option<Tls>)
    requires Good(ls)
    ensures Good(MergeHost(ls, h, ns, tls))
    ensures Meaning(MergeHost(ls, h, ns, tls)) == AddPair(Meaning(ls), h, ns)
  {
    var i := IndexOf(ls, h);
    if i >= 0 {
      var added := NamespaceAdded(ls[i], ns);
      NamespaceAddedMeaning(ls[i], ns);
      assert Admitted(TlsFilled(added, tls)) == Admitted(added);
      ReplaceMeaning(ls, h, TlsFilled(added, tls));
    } else {
      NewListenerMeaning(h, [ns], tls);
      assert Elements([ns]) == {} + {ns};
      AppendMeaning(ls, h, NewListener(h, [ns], tls));
    }
  }

  lemma {:induction false} MergeHostsMeaning(ls: seq<Listener>, hs: seq<string>, ns: string, tls: map<string, Tls>)
    requires Good(ls)
    ensures Good(MergeHosts(ls, hs, ns, tls))
    ensures Meaning(MergeHosts(ls, hs, ns, tls)) == AddHosts(Meaning(ls), hs, ns)
    decreases hs
  {
    if hs != [] {
      MergeHostMeaning(ls, hs[0], ns, Get(tls, hs[0]));
      MergeHostsMeaning(MergeHost(ls, hs[0], ns, Get(tls, hs[0])), hs[1..], ns, tls);
    }
  }

  lemma {:induction false} MergeAllMeaning(ls: seq<Listener>, rs: seq<Route>, tls: seq<map<string, Tls>>)
    requires Good(ls) && |tls| == |rs|
    ensures Good(MergeAll(ls, rs, tls))
    ensures Meaning(MergeAll(ls, rs, tls)) == AddRoutes(Meaning(ls), rs)
    decreases rs
  {
    if rs != [] {
      MergeHostsMeaning(ls, rs[0].hostnames, rs[0].namespace, tls[0]);
      MergeAllMeaning(MergeRoute(ls, rs[0], tls[0]), rs[1..], tls[1..]);
    }
  }

  /** Incremental merge refines the full recomputation. Starting from an empty Gateway,
      merging routes in any order, with repeats and whatever TLS each brings, gives the
      map that calculateDesiredListenerState computes from any list of the same routes. */
  lemma IncrementalRefinesFull(merged: seq<Route>, tls: seq<map<string, Tls>>, listed: seq<Route>)
    requires |tls| == |merged| && Elements(merged) == Elements(listed)
    ensures Good(MergeAll([], merged, tls))
    ensures Meaning(MergeAll([], merged, tls)) == AddRoutes(map[], listed)
  {
    assert Meaning([]) == map[];
    MergeAllMeaning([], merged, tls);
    DesiredStateIsWanted(merged);
    DesiredStateIsWanted(listed);
  }

  /** Merging a route never drops a listener or a namespace, and admits the route everywhere. */
  lemma MergeOnlyAdds(ls: seq<Listener>, r: Route, tls: map<string, Tls>)
    requires Good(ls)
    ensures var after := MergeRoute(ls, r, tls);
            && Good(after)
            && Below(Meaning(ls), Meaning(after))
            && (forall h :: h in r.hostnames ==> h in Meaning(after) && r.namespace in Meaning(after)[h])
            && (forall h :: h in Meaning(after) ==> h in Meaning(ls) || h in r.hostnames)
            && (forall h, ns :: h in Meaning(after) && ns in Meaning(after)[h] ==>
                 (h in Meaning(ls) && ns in Meaning(ls)[h]) || (h in r.hostnames && ns == r.namespace))
  {
    MergeHostsMeaning(ls, r.hostnames, r.namespace, tls);
    AddHostsMeaning(Meaning(ls), r.hostnames, r.namespace);
  }

  /** A merge that leaves the listeners as they are had nothing to add. */
  lemma UnchangedMergeAdmits(ls: seq<Listener>, r: Route, tls: map<string, Tls>)
    requires Good(ls) && MergeRoute(ls, r, tls) == ls
    ensures forall h :: h in r.hostnames ==> h in Meaning(ls) && r.namespace in Meaning(ls)[h]
  {
    MergeOnlyAdds(ls, r, tls);
  }

  /** A listener that only has a namespace label is skipped by the merge, so the route is
      not admitted: the controller's own form is needed for the refinement. */
  lemma LabelFormIsNotMerged()
    ensures var l := Listener(Some("h"), None, Some(Selector(Some(map[NAMESPACE_KEY := "a"]), [])));
            var after := MergeRoute([l], Route("b", ["h"]), map[]);
            && LabelForm(l) && after == [l]
            && Meaning(after) == map["h" := {"a"}]
            && Meaning(after) != AddHosts(Meaning([l]), ["h"], "b")
  {
    var l := Listener(Some("h"), None, Some(Selector(Some(map[NAMESPACE_KEY := "a"]), [])));
    var r := Route("b", ["h"]);
    assert MergeHost([l], "h", "b", None) == [l];
    assert r.hostnames[1..] == [];
    assert MergeHosts([l], ["h"], "b", map[]) == MergeHosts([l], [], "b", map[]);
    IndexOfUnique([l], 0, "h");
    assert Hosts([l]) == {"h"};
    AddHostsMeaning(Meaning([l]), ["h"], "b");
    assert "b" in AddHosts(Meaning([l]), ["h"], "b")["h"];
  }

  // ---------------------------------------------------------------- the "updated" flag

  function ListenerWeight(l: Listener): nat {
    (if l.tls.Some? then 1 else 0) +
    if l.selector.None? then 0
    else
      var es := l.selector.value.matchExpressions;
      var i := RequirementIndex(es);
      if i < 0 then 0 else |es[i].values|
  }

  /** Grows with every change a merge can make, so a merge never undoes itself. */
  function Weight(ls: seq<Listener>): nat {
    if ls == [] then 0 else Weight(ls[..|ls| - 1]) + ListenerWeight(ls[|ls| - 1]) + 1
  }

  lemma {:induction false} WeightReplace(ls: seq<Listener>, i: int, l: Listener)
    requires 0 <= i < |ls|
    ensures Weight(ls[i := l]) == Weight(ls) - ListenerWeight(ls[i]) + ListenerWeight(l)
  {
    var after, n := ls[i := l], |ls| - 1;
    if i == n {
      assert after[..n] == ls[..n];
    } else {
      assert after[..n] == ls[..n][i := l];
      WeightReplace(ls[..n], i, l);
    }
  }

  lemma RequirementKept(es: seq<Requirement>, i: int, values: seq<string>)
    requires i == RequirementIndex(es) >= 0
    ensures RequirementIndex(es[i := es[i].(values := values)]) == i
  {
    var after := es[i := es[i].(values := values)];
    assert forall j :: 0 <= j < |es| ==> ForNamespaces(after[j]) == ForNamespaces(es[j]);
  }

  lemma ListenerGrows(l: Listener, ns: string, tls: Option<Tls>)
    ensures var r := TlsFilled(NamespaceAdded(l, ns), tls);
            r == l || ListenerWeight(r) > ListenerWeight(l)
  {
    var added := NamespaceAdded(l, ns);
    if added != l {
      var es := l.selector.value.matchExpressions;
      var k := RequirementIndex(es);
      RequirementKept(es, k, Sort(es[k].values + [ns]));
      assert ListenerWeight(added) == ListenerWeight(l) + 1;
    }
  }

  lemma MergeHostGrows(ls: seq<Listener>, h: string, ns: string, tls: Option<Tls>)
    ensures var after := MergeHost(ls, h, ns, tls);
            Weight(after) >= Weight(ls) && (after != ls ==> Weight(after) > Weight(ls))
  {
    var i := IndexOf(ls, h);
    if i >= 0 {
      ListenerGrows(ls[i], ns, tls);
      WeightReplace(ls, i, TlsFilled(NamespaceAdded(ls[i], ns), tls));
      hide ListenerWeight, NamespaceAdded, TlsFilled;
    } else {
      assert (ls + [NewListener(h, [ns], tls)])[..|ls|] == ls;
    }
  }
}
