/** What the full recomputation guarantees: the Gateway means exactly what the routes
    want, hosts with unknown TLS are left as they are, and a second pass changes nothing. */
module Recompute {
  import opened Options
  import opened Ordering
  import opened Listeners
  import opened Merge
  import opened GatewayObject

  /** Listeners the controller knows how to write. */
  ghost predicate Known(ls: seq<Listener>) {
    UniqueHosts(ls) && forall i :: 0 <= i < |ls| ==> ExpressionForm(ls[i]) || LabelForm(ls[i])
  }

  ghost predicate NonEmptySets(m: HostMap) {
    "" !in m && forall h :: h in m ==> m[h] != {}
  }

  /** Setting the namespaces of a listener in either form admits exactly those. */
  lemma NamespacesSetMeaning(l: Listener, namespaces: seq<string>)
    requires ExpressionForm(l) || LabelForm(l)
    requires namespaces != [] && Sorted(namespaces) && Distinct(namespaces)
    ensures var r := NamespacesSet(l, namespaces);
            && r.hostname == l.hostname && r.tls == l.tls
            && Admitted(r) == Elements(namespaces)
            && (ExpressionForm(r) || LabelForm(r))
            && (ExpressionForm(l) ==> ExpressionForm(r))
  {
    var r := NamespacesSet(l, namespaces);
    if LabelForm(l) && |namespaces| == 1 {
      assert Elements(namespaces) == {namespaces[0]};
    } else if ExpressionForm(l) {
      assert r.selector.value.matchExpressions == [Requirement(NAMESPACE_KEY, In, namespaces)];
    }
  }

  lemma {:induction false} KeptUnique(ls: seq<Listener>, desired: HostMap)
    requires UniqueHosts(ls)
    ensures UniqueHosts(Kept(ls, desired))
  {
    if ls != [] {
      var n := |ls| - 1;
      var front := Kept(ls[..n], desired);
      KeptUnique(ls[..n], desired);
      forall i | 0 <= i < |front| ensures front[i].hostname != ls[n].hostname {
        assert front[i] in ls[..n];
      }
    }
  }

  /** With one listener per hostname every kept listener is the one that gets refreshed. */
  lemma KeptIsFirst(before: seq<Listener>, desired: HostMap, i: int)
    requires UniqueHosts(before) && "" !in desired && 0 <= i < |Kept(before, desired)|
    ensures IsFirst(Kept(before, desired), i)
  {
    var kept := Kept(before, desired);
    KeptUnique(before, desired);
    assert kept[i] in kept;
    IndexOfUnique(kept, i, HostOf(kept[i]));
  }

  lemma KeptHostnames(before: seq<Listener>, desired: HostMap, tls: map<string, Tls>, unknown: set<string>, after: seq<Listener>)
    requires Reconciled(before, desired, tls, unknown, after)
    ensures var kept := Kept(before, desired);
            forall i :: 0 <= i < |kept| ==> after[i].hostname == kept[i].hostname && HostOf(kept[i]) in desired
  {
    var kept := Kept(before, desired);
    forall i | 0 <= i < |kept| ensures after[i].hostname == kept[i].hostname && HostOf(kept[i]) in desired {
      assert kept[i] in kept;
      RefreshKeeps(kept[i], Listing(desired[HostOf(kept[i])]));
    }
  }

  lemma UniqueAfter(before: seq<Listener>, desired: HostMap, tls: map<string, Tls>, unknown: set<string>, after: seq<Listener>)
    requires UniqueHosts(before) && Reconciled(before, desired, tls, unknown, after)
    ensures UniqueHosts(after)
  {
    var kept := Kept(before, desired);
    KeptUnique(before, desired);
    KeptHostnames(before, desired, tls, unknown, after);
    hide Refreshed;
  }

  lemma RefreshedMeaning(l: Listener, desired: HostMap, tls: map<string, Tls>, unknown: set<string>)
    requires ExpressionForm(l) || LabelForm(l)
    requires NonEmptySets(desired) && HostOf(l) in desired
    ensures var r := Refreshed(l, desired, tls, unknown);
            && r.hostname == l.hostname
            && Admitted(r) == desired[HostOf(l)]
            && (ExpressionForm(r) || LabelForm(r))
            && (ExpressionForm(l) ==> ExpressionForm(r))
            && r.tls == if HostOf(l) in unknown then l.tls else Get(tls, HostOf(l))
  {
    var list := Listing(desired[HostOf(l)]);
    assert list != [] by { assert Elements(list) == desired[HostOf(l)]; }
    NamespacesSetMeaning(l, list);
  }

  lemma AddedMeaning(l: Listener, kept: seq<Listener>, desired: HostMap, tls: map<string, Tls>, unknown: set<string>)
    requires NonEmptySets(desired) && Added(l, kept, desired, tls, unknown)
    ensures ExpressionForm(l) && Admitted(l) == desired[HostOf(l)] && l.tls == Get(tls, HostOf(l))
  {
    var list := Listing(desired[HostOf(l)]);
    assert list != [] by { assert Elements(list) == desired[HostOf(l)]; }
    NewListenerMeaning(HostOf(l), list, Get(tls, HostOf(l)));
  }

  /** Every listener that is left, one by one. */
  lemma ListenerAfter(before: seq<Listener>, desired: HostMap, tls: map<string, Tls>, unknown: set<string>,
                      after: seq<Listener>, i: int)
    requires Known(before) && NonEmptySets(desired) && Reconciled(before, desired, tls, unknown, after)
    requires 0 <= i < |after|
    ensures ExpressionForm(after[i]) || LabelForm(after[i])
    ensures Good(before) ==> ExpressionForm(after[i])
    ensures HostOf(after[i]) in desired && Admitted(after[i]) == desired[HostOf(after[i])]
    ensures HostOf(after[i]) !in unknown ==> after[i].tls == Get(tls, HostOf(after[i]))
    ensures HostOf(after[i]) in unknown ==>
              exists l :: l in before && l.hostname == after[i].hostname && l.tls == after[i].tls
  {
    var kept := Kept(before, desired);
    if i < |kept| {
      assert kept[i] in before;
      KeptIsFirst(before, desired, i);
      RefreshedMeaning(kept[i], desired, tls, unknown);
    } else {
      AddedMeaning(after[i], kept, desired, tls, unknown);
    }
  }

  /** A host has a listener afterwards iff it is desired and its TLS is known or it had one. */
  lemma HostsAfter(before: seq<Listener>, desired: HostMap, tls: map<string, Tls>, unknown: set<string>,
                   after: seq<Listener>, h: string)
    requires Known(before) && NonEmptySets(desired) && Reconciled(before, desired, tls, unknown, after)
    ensures h in Hosts(after) <==> h in desired && (h !in unknown || h in Hosts(before))
  {
    var kept := Kept(before, desired);
    KeptHostnames(before, desired, tls, unknown, after);
    hide Refreshed, NonEmptySets, ExpressionForm, LabelForm, Admitted, IsFirst;
    if h in Hosts(after) {
      ListenerAfter(before, desired, tls, unknown, after, IndexOf(after, h));
      if h in unknown {
        var l :| l in before && l.hostname == Some(h);
      }
    }
    if h in desired && h in Hosts(before) {
      var l := before[IndexOf(before, h)];
      assert l in kept;
      var k :| 0 <= k < |kept| && kept[k] == l;
      assert after[k].hostname == Some(h);
    }
  }

  /** The full specification, for every order of visiting the desired hosts. */
  lemma RecomputedMeaning(before: seq<Listener>, desired: HostMap, tls: map<string, Tls>, unknown: set<string>,
                          after: seq<Listener>)
    requires Known(before) && NonEmptySets(desired) && Reconciled(before, desired, tls, unknown, after)
    ensures Known(after) && (Good(before) ==> Good(after))
    ensures Meaning(after).Keys == (set h | h in desired && (h !in unknown || h in Hosts(before)))
    ensures forall h :: h in Meaning(after) ==> Meaning(after)[h] == desired[h]
    ensures unknown == {} ==> Meaning(after) == desired
    ensures forall l :: l in after && HostOf(l) !in unknown ==> l.tls == Get(tls, HostOf(l))
    ensures forall l :: l in after && HostOf(l) in unknown ==>
              exists k :: k in before && k.hostname == l.hostname && k.tls == l.tls
  {
    ListenersAfter(before, desired, tls, unknown, after);
    MapAfter(before, desired, tls, unknown, after);
    hide Known, Good, NonEmptySets, Reconciled, Get;
  }

  lemma ListenersAfter(before: seq<Listener>, desired: HostMap, tls: map<string, Tls>, unknown: set<string>,
                       after: seq<Listener>)
    requires Known(before) && NonEmptySets(desired) && Reconciled(before, desired, tls, unknown, after)
    ensures Known(after) && (Good(before) ==> Good(after))
    ensures forall l :: l in after && HostOf(l) !in unknown ==> l.tls == Get(tls, HostOf(l))
    ensures forall l :: l in after && HostOf(l) in unknown ==>
              exists k :: k in before && k.hostname == l.hostname && k.tls == l.tls
  {
    UniqueAfter(before, desired, tls, unknown, after);
    hide Refreshed, Added, Kept, NonEmptySets, ExpressionForm, LabelForm, Admitted, Reconciled;
    forall i | 0 <= i < |after|
      ensures ExpressionForm(after[i]) || LabelForm(after[i])
      ensures Good(before) ==> ExpressionForm(after[i])
      ensures HostOf(after[i]) !in unknown ==> after[i].tls == Get(tls, HostOf(after[i]))
      ensures HostOf(after[i]) in unknown ==>
                exists k :: k in before && k.hostname == after[i].hostname && k.tls == after[i].tls
    {
      ListenerAfter(before, desired, tls, unknown, after, i);
    }
  }

  lemma MapAfter(before: seq<Listener>, desired: HostMap, tls: map<string, Tls>, unknown: set<string>, after: seq<Listener>)
    requires Known(before) && NonEmptySets(desired) && Reconciled(before, desired, tls, unknown, after)
    ensures Meaning(after).Keys == (set h | h in desired && (h !in unknown || h in Hosts(before)))
    ensures forall h :: h in Meaning(after) ==> Meaning(after)[h] == desired[h]
    ensures unknown == {} ==> Meaning(after) == desired
  {
    hide Known, NonEmptySets, Reconciled, Admitted;
    forall h {:trigger h in Hosts(after)}
      ensures h in Hosts(after) <==> h in desired && (h !in unknown || h in Hosts(before))
      ensures h in Hosts(after) ==> Meaning(after)[h] == desired[h]
    {
      HostsAfter(before, desired, tls, unknown, after, h);
      if h in Hosts(after) {
        ListenerAfter(before, desired, tls, unknown, after, IndexOf(after, h));
      }
    }
  }

  lemma NamespacesSetTwice(l: Listener, namespaces: seq<string>)
    ensures NamespacesSet(NamespacesSet(l, namespaces), namespaces) == NamespacesSet(l, namespaces)
  {
    if l.selector.Some? && l.selector.value.matchLabels.None? {
      var es := l.selector.value.matchExpressions;
      var i := RequirementIndex(es);
      if i >= 0 {
        var es' := es[i := es[i].(values := namespaces)];
        assert forall j :: 0 <= j < |es| ==> ForNamespaces(es'[j]) == ForNamespaces(es[j]);
        assert RequirementIndex(es') == i;
        assert es'[i := es'[i].(values := namespaces)] == es';
      }
    } else if l.selector.Some? && |namespaces| == 1 {
      var m := l.selector.value.matchLabels.value[NAMESPACE_KEY := namespaces[0]];
      assert m[NAMESPACE_KEY := namespaces[0]] == m;
      assert NamespacesSet(l, namespaces).selector.value.matchLabels == Some(m);
    } else if l.selector.Some? {
      var es := [Requirement(NAMESPACE_KEY, In, namespaces)];
      assert es[0 := es[0]] == es;
    }
  }

  lemma RefreshedTwice(l: Listener, desired: HostMap, tls: map<string, Tls>, unknown: set<string>)
    requires HostOf(l) in desired
    ensures HostOf(Refreshed(l, desired, tls, unknown)) == HostOf(l)
    ensures Refreshed(Refreshed(l, desired, tls, unknown), desired, tls, unknown) == Refreshed(l, desired, tls, unknown)
  {
    var list := Listing(desired[HostOf(l)]);
    NamespacesSetTwice(l, list);
    var r := Refreshed(l, desired, tls, unknown);
    assert NamespacesSet(r, list) == NamespacesSet(NamespacesSet(l, list), list).(tls := r.tls);
  }

  lemma NewListenerRefreshed(l: Listener, s: set<string>)
    requires l == NewListener(HostOf(l), Listing(s), l.tls)
    ensures NamespacesSet(l, Listing(s)) == l
  {
    var es := [Requirement(NAMESPACE_KEY, In, Listing(s))];
    assert es[0 := es[0]] == es;
  }

  lemma AddedHost(ls: seq<Listener>, more: seq<Listener>, desired: HostMap, tls: map<string, Tls>, unknown: set<string>)
    requires |more| > |ls|
    requires forall i :: |ls| <= i < |more| ==> Added(more[i], ls, desired, tls, unknown)
    ensures exists h :: h in desired && h !in unknown && IndexOf(ls, h) < 0
  {
    var h := HostOf(more[|ls|]);
    assert IndexOf(ls, h) < 0;
  }

  /** Refreshing what a first pass has left changes nothing. */
  lemma SecondPass(before: seq<Listener>, desired: HostMap, tls: map<string, Tls>, unknown: set<string>, after: seq<Listener>)
    requires "" !in desired && Reconciled(before, desired, tls, unknown, after)
    ensures forall i :: 0 <= i < |after| ==>
              HostOf(after[i]) in desired && (IsFirst(after, i) ==> Refreshed(after[i], desired, tls, unknown) == after[i])
  {
    var kept := Kept(before, desired);
    KeptHostnames(before, desired, tls, unknown, after);
    forall i | 0 <= i < |after|
      ensures HostOf(after[i]) in desired && (IsFirst(after, i) ==> Refreshed(after[i], desired, tls, unknown) == after[i])
    {
      if i >= |kept| {
        NewListenerRefreshed(after[i], desired[HostOf(after[i])]);
      } else if IsFirst(after, i) {
        PrefixIndex(kept, after, HostOf(after[i]));
        RefreshedTwice(kept[i], desired, tls, unknown);
      }
    }
  }

  /** A second pass over the result leaves it alone, so it returns false. This needs no
      assumption on the form of the listeners. */
  lemma RecomputeIsIdempotent(before: seq<Listener>, desired: HostMap, tls: map<string, Tls>, unknown: set<string>,
                              after: seq<Listener>, again: seq<Listener>)
    requires "" !in desired
    requires Reconciled(before, desired, tls, unknown, after) && Reconciled(after, desired, tls, unknown, again)
    ensures again == after
  {
    hide Refreshed, Kept, IsFirst;
    SecondPass(before, desired, tls, unknown, after);
    KeptAll(after, desired);
    if |again| > |after| {
      AddedHost(after, again, desired, tls, unknown);
      assert false;
    }
  }
}
