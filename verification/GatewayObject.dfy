/** The Gateway object as the controller edits it: its listener list is rebuilt, appended
    to and written through in place. Every method is tied to the functions of Listeners. */
module GatewayObject {
  import opened Options
  import opened Ordering
  import opened Listeners
  import opened Merge

  /** Collects a namespace set in map-iteration order and sorts it. */
  method SortedNamespaces(s: set<string>) returns (r: seq<string>)
    ensures r == Listing(s)
  {
    var list: seq<string>, todo := [], s;
    while todo != {}
      invariant todo <= s
      invariant Distinct(list) && Elements(list) == s - todo
    {
      var ns :| ns in todo;
      assert ns !in list by { assert ns !in Elements(list); }
      todo, list := todo - {ns}, list + [ns];
    }
    r := Sort(list);
    SortedEnumeration(list, s);
  }

  class Gateway {
    var listeners: seq<Listener>
    /** The certificate-mismatch annotation; empty when absent. */
    var mismatch: string

    constructor ()
      ensures listeners == [] && mismatch == ""
    {
      listeners, mismatch := [], "";
    }

    constructor Of(listeners: seq<Listener>, mismatch: string)
      ensures this.listeners == listeners && this.mismatch == mismatch
    {
      this.listeners, this.mismatch := listeners, mismatch;
    }

    method FindListenerByHostname(h: string) returns (i: int)
      ensures i == IndexOf(listeners, h)
    {
      for k := 0 to |listeners|
        invariant forall j :: 0 <= j < k ==> listeners[j].hostname != Some(h)
      {
        if listeners[k].hostname == Some(h) {
          return k;
        }
      }
      return -1;
    }

    method AddNamespaceToListener(i: nat, ns: string) returns (changed: bool)
      requires i < |listeners|
      modifies `listeners
      ensures listeners == old(listeners)[i := NamespaceAdded(old(listeners)[i], ns)]
      ensures changed == (listeners != old(listeners))
    {
      var l := listeners[i];
      if l.selector.None? {
        return false;
      }
      var es := l.selector.value.matchExpressions;
      for k := 0 to |es|
        invariant forall j :: 0 <= j < k ==> !ForNamespaces(es[j])
      {
        if es[k].key == NAMESPACE_KEY && es[k].operator == In {
          assert RequirementIndex(es) == k;
          if ns in es[k].values {
            return false;
          }
          var values := Sort(es[k].values + [ns]);
          var l' := l.(selector := Some(l.selector.value.(matchExpressions := es[k := es[k].(values := values)])));
          listeners := listeners[i := l'];
          assert |l'.selector.value.matchExpressions[k].values| != |es[k].values|;
          return true;
        }
      }
      return false;
    }

    /** updateGatewayListeners: merges one route, adding only. `merged` is the text of the
        merged mismatch annotation when the route has certificate mismatches. */
    method UpdateGatewayListeners(route: Route, tls: map<string, Tls>, merged: Option<string>) returns (updated: bool)
      modifies this
      ensures listeners == MergeRoute(old(listeners), route, tls)
      ensures mismatch == if merged.Some? then merged.value else old(mismatch)
      ensures updated == (listeners != old(listeners) || mismatch != old(mismatch))
    {
      updated := false;
      ghost var w0 := Weight(listeners);
      for i := 0 to |route.hostnames|
        invariant MergeHosts(listeners, route.hostnames[i..], route.namespace, tls) == MergeRoute(old(listeners), route, tls)
        invariant Weight(listeners) >= w0
        invariant updated == (listeners != old(listeners)) == (Weight(listeners) > w0)
        invariant mismatch == old(mismatch)
      {
        var changed := MergeOne(route.hostnames[i], route.namespace, Get(tls, route.hostnames[i]));
        updated := updated || changed;
        assert route.hostnames[i..][1..] == route.hostnames[i + 1..];
      }
      if merged.Some? && merged.value != mismatch {
        mismatch := merged.value;
        updated := true;
      }
    }

    method MergeOne(h: string, ns: string, tls: Option<Tls>) returns (changed: bool)
      modifies `listeners
      ensures listeners == MergeHost(old(listeners), h, ns, tls)
      ensures changed == (listeners != old(listeners))
      ensures Weight(listeners) >= Weight(old(listeners))
      ensures changed ==> Weight(listeners) > Weight(old(listeners))
    {
      MergeHostGrows(listeners, h, ns, tls);
      var i := FindListenerByHostname(h);
      if i >= 0 {
        changed := AddNamespaceToListener(i, ns);
        if listeners[i].tls.None? && tls.Some? {
          listeners := listeners[i := listeners[i].(tls := tls)];
          changed := true;
        }
      } else {
        listeners := listeners + [NewListener(h, [ns], tls)];
        changed := true;
      }
    }

    method UpdateListenerNamespaces(i: nat, namespaces: seq<string>) returns (changed: bool)
      requires i < |listeners|
      modifies `listeners
      ensures listeners == old(listeners)[i := NamespacesSet(old(listeners)[i], namespaces)]
      ensures changed == (listeners[i] != old(listeners)[i])
    {
      var l := listeners[i];
      if l.selector.None? {
        return false;
      }
      var s := l.selector.value;
      if s.matchLabels.Some? {
        var labels := s.matchLabels.value;
        if |namespaces| == 1 {
          if NAMESPACE_KEY !in labels || labels[NAMESPACE_KEY] != namespaces[0] {
            listeners := listeners[i := l.(selector := Some(s.(matchLabels := Some(labels[NAMESPACE_KEY := namespaces[0]]))))];
            assert listeners[i].selector.value.matchLabels.value[NAMESPACE_KEY] == namespaces[0];
            return true;
          }
          assert labels[NAMESPACE_KEY := namespaces[0]] == labels;
          return false;
        }
        listeners := listeners[i := l.(selector := Some(Selector(None, [Requirement(NAMESPACE_KEY, In, namespaces)])))];
        return true;
      }
      var es := s.matchExpressions;
      for k := 0 to |es|
        invariant forall j :: 0 <= j < k ==> !ForNamespaces(es[j])
      {
        if es[k].key == NAMESPACE_KEY && es[k].operator == In {
          assert RequirementIndex(es) == k;
          if es[k].values != namespaces {
            var l' := l.(selector := Some(s.(matchExpressions := es[k := es[k].(values := namespaces)])));
            listeners := listeners[i := l'];
            assert l'.selector.value.matchExpressions[k].values != es[k].values;
            return true;
          }
          assert es[k := es[k].(values := namespaces)] == es;
          return false;
        }
      }
      return false;
    }

    method UpdateListenerTls(i: nat, tls: Option<Tls>) returns (changed: bool)
      requires i < |listeners|
      modifies `listeners
      ensures listeners == old(listeners)[i := old(listeners)[i].(tls := tls)]
      ensures changed == (listeners[i] != old(listeners)[i])
    {
      if listeners[i].tls == tls {
        return false;
      }
      listeners := listeners[i := listeners[i].(tls := tls)];
      return true;
    }

    /** Step 1 of reconcileListenersToDesiredState. */
    method RemoveUndesired(desired: HostMap) returns (removed: bool)
      modifies `listeners
      ensures listeners == Kept(old(listeners), desired)
      ensures removed == (exists l :: l in old(listeners) && HostOf(l) !in desired)
    {
      removed := false;
      var kept := [];
      for i := 0 to |listeners|
        invariant kept == Kept(listeners[..i], desired)
        invariant removed == (exists l :: l in listeners[..i] && HostOf(l) !in desired)
        invariant listeners == old(listeners)
      {
        assert listeners[..i + 1] == listeners[..i] + [listeners[i]];
        if HostOf(listeners[i]) in desired {
          kept := kept + [listeners[i]];
        } else {
          removed := true;
        }
      }
      assert listeners[..|listeners|] == listeners;
      listeners := kept;
    }

    /** Step 2 for one hostname that has a listener. */
    method RefreshListener(i: nat, desired: HostMap, tls: map<string, Tls>, unknown: set<string>) returns (changed: bool)
      requires i < |listeners| && HostOf(listeners[i]) in desired
      modifies `listeners
      ensures listeners == old(listeners)[i := Refreshed(old(listeners)[i], desired, tls, unknown)]
      ensures changed == (listeners[i] != old(listeners)[i])
    {
      var h := HostOf(listeners[i]);
      var namespaces := SortedNamespaces(desired[h]);
      var a := UpdateListenerNamespaces(i, namespaces);
      var b := false;
      if h !in unknown {
        b := UpdateListenerTls(i, Get(tls, h));
      }
      changed := a || b;
      RefreshKeeps(old(listeners)[i], namespaces);
    }

    method ReconcileListenersToDesiredState(desired: HostMap, tls: map<string, Tls>, unknown: set<string>) returns (updated: bool)
      requires "" !in desired
      modifies `listeners
      ensures Reconciled(old(listeners), desired, tls, unknown, listeners)
      ensures updated == (listeners != old(listeners))
    {
      var removed := RemoveUndesired(desired);
      ghost var kept := listeners;
      NothingVisited(old(listeners), desired, tls, unknown);
      updated := removed;
      var todo := desired.Keys;
      while todo != {}
        invariant Midway(kept, todo, listeners, desired, tls, unknown)
        invariant updated == (removed || listeners != kept)
      {
        var h :| h in todo;
        ghost var before := listeners;
        var changed := ReconcileHost(h, desired, tls, unknown);
        updated := updated || changed;
        MidwayStep(kept, todo, before, h, desired, tls, unknown);
        todo := todo - {h};
      }
      if removed {
        ghost var l :| l in old(listeners) && HostOf(l) !in desired;
        assert l !in listeners;
      } else {
        KeptAll(old(listeners), desired);
      }
    }

    method ReconcileHost(h: string, desired: HostMap, tls: map<string, Tls>, unknown: set<string>) returns (changed: bool)
      requires h in desired
      modifies `listeners
      ensures listeners == HostReconciled(old(listeners), h, desired, tls, unknown)
      ensures changed == (listeners != old(listeners))
    {
      var i := FindListenerByHostname(h);
      if i >= 0 {
        changed := RefreshListener(i, desired, tls, unknown);
      } else if h !in unknown {
        var namespaces := SortedNamespaces(desired[h]);
        listeners := listeners + [NewListener(h, namespaces, Get(tls, h))];
        changed := true;
      } else {
        changed := false;
      }
    }
  }

  /** Step 2 for one hostname. */
  ghost function HostReconciled(ls: seq<Listener>, h: string, desired: HostMap, tls: map<string, Tls>, unknown: set<string>): seq<Listener>
    requires h in desired
  {
    var i := IndexOf(ls, h);
    if i >= 0 then ls[i := Refreshed(ls[i], desired, tls, unknown)]
    else if h in unknown then ls
    else ls + [NewListener(h, Listing(desired[h]), Get(tls, h))]
  }

  lemma RefreshKeeps(l: Listener, namespaces: seq<string>)
    ensures NamespacesSet(l, namespaces).hostname == l.hostname && NamespacesSet(l, namespaces).tls == l.tls
  {
  }

  lemma {:induction false} KeptAll(ls: seq<Listener>, desired: HostMap)
    requires forall l :: l in ls ==> HostOf(l) in desired
    ensures Kept(ls, desired) == ls
  {
    if ls != [] {
      var n := |ls| - 1;
      assert ls == ls[..n] + [ls[n]];
      assert ls[n] in ls;
      KeptAll(ls[..n], desired);
    }
  }

  /** Step 2 with the hostnames in todo still to be visited. */
  ghost predicate Midway(kept: seq<Listener>, todo: set<string>, ls: seq<Listener>,
                         desired: HostMap, tls: map<string, Tls>, unknown: set<string>)
  {
    && todo <= desired.Keys && "" !in desired
    && MidwayKept(kept, todo, ls, desired, tls, unknown)
    && MidwayAdded(kept, todo, ls, desired, tls, unknown)
    && (forall h :: h in desired && h !in todo && h !in unknown ==> IndexOf(ls, h) >= 0)
  }

  ghost predicate MidwayKept(kept: seq<Listener>, todo: set<string>, ls: seq<Listener>,
                             desired: HostMap, tls: map<string, Tls>, unknown: set<string>)
  {
    && |kept| <= |ls|
    && (forall i :: 0 <= i < |kept| ==> ls[i].hostname == kept[i].hostname && HostOf(kept[i]) in desired)
    && (forall i :: 0 <= i < |kept| ==>
         ls[i] == if HostOf(kept[i]) in todo || !IsFirst(kept, i) then kept[i] else Refreshed(kept[i], desired, tls, unknown))
  }

  ghost predicate MidwayAdded(kept: seq<Listener>, todo: set<string>, ls: seq<Listener>,
                              desired: HostMap, tls: map<string, Tls>, unknown: set<string>)
  {
    && (forall i :: |kept| <= i < |ls| ==>
         Added(ls[i], kept, desired, tls, unknown) && HostOf(ls[i]) !in todo)
    && (forall i, j :: |kept| <= i < j < |ls| ==> ls[i].hostname != ls[j].hostname)
  }

  lemma NothingVisited(before: seq<Listener>, desired: HostMap, tls: map<string, Tls>, unknown: set<string>)
    requires "" !in desired
    ensures var kept := Kept(before, desired);
            Midway(kept, desired.Keys, kept, desired, tls, unknown)
  {
    var kept := Kept(before, desired);
    forall i | 0 <= i < |kept| ensures HostOf(kept[i]) in desired {
      assert kept[i] in kept;
    }
  }

  /** Visiting one hostname rewrites that hostname's listener, or adds it, and no other. */
  lemma MidwayStep(kept: seq<Listener>, todo: set<string>, before: seq<Listener>, h: string,
                   desired: HostMap, tls: map<string, Tls>, unknown: set<string>)
    requires Midway(kept, todo, before, desired, tls, unknown) && h in todo && h != ""
    ensures var after := HostReconciled(before, h, desired, tls, unknown);
            Midway(kept, todo - {h}, after, desired, tls, unknown)
    ensures var after := HostReconciled(before, h, desired, tls, unknown);
            before != kept ==> after != kept
  {
    if IndexOf(before, h) >= 0 {
      MidwayRefresh(kept, todo, before, h, desired, tls, unknown);
    } else {
      MidwayAdd(kept, todo, before, h, desired, tls, unknown);
    }
  }

  lemma MidwayRefresh(kept: seq<Listener>, todo: set<string>, before: seq<Listener>, h: string,
                      desired: HostMap, tls: map<string, Tls>, unknown: set<string>)
    requires Midway(kept, todo, before, desired, tls, unknown) && h in todo && h != ""
    requires IndexOf(before, h) >= 0
    ensures var after := HostReconciled(before, h, desired, tls, unknown);
            && Midway(kept, todo - {h}, after, desired, tls, unknown)
            && (before != kept ==> after != kept)
  {
    var after := HostReconciled(before, h, desired, tls, unknown);
    MidwayRefreshKept(kept, todo, before, h, desired, tls, unknown);
    MidwayRefreshRest(kept, todo, before, h, desired, tls, unknown);
    hide MidwayKept, MidwayAdded, HostReconciled;
    SameHosts(before, after);
  }

  lemma MidwayRefreshKept(kept: seq<Listener>, todo: set<string>, before: seq<Listener>, h: string,
                          desired: HostMap, tls: map<string, Tls>, unknown: set<string>)
    requires Midway(kept, todo, before, desired, tls, unknown) && h in todo && h != ""
    requires IndexOf(before, h) >= 0
    ensures IndexOf(before, h) < |kept|
    ensures MidwayKept(kept, todo - {h}, HostReconciled(before, h, desired, tls, unknown), desired, tls, unknown)
  {
    var k := IndexOf(before, h);
    assert HostOf(before[k]) == h && k < |kept|;
    PrefixIndex(kept, before, h);
    RefreshKeeps(kept[k], Listing(desired[h]));
  }

  lemma PrefixIndex(kept: seq<Listener>, ls: seq<Listener>, h: string)
    requires |kept| <= |ls| && forall i :: 0 <= i < |kept| ==> ls[i].hostname == kept[i].hostname
    requires 0 <= IndexOf(ls, h) < |kept|
    ensures IndexOf(kept, h) == IndexOf(ls, h)
  {
    assert kept[IndexOf(ls, h)].hostname == Some(h);
  }

  lemma MidwayRefreshRest(kept: seq<Listener>, todo: set<string>, before: seq<Listener>, h: string,
                          desired: HostMap, tls: map<string, Tls>, unknown: set<string>)
    requires Midway(kept, todo, before, desired, tls, unknown) && h in todo && h != ""
    requires 0 <= IndexOf(before, h) < |kept|
    ensures var after := HostReconciled(before, h, desired, tls, unknown);
            && MidwayAdded(kept, todo - {h}, after, desired, tls, unknown)
            && |after| == |before|
            && (forall i :: 0 <= i < |before| ==> after[i].hostname == before[i].hostname)
            && (before != kept ==> after != kept)
  {
    var k := IndexOf(before, h);
    PrefixIndex(kept, before, h);
    assert HostOf(kept[k]) == h && before[k] == kept[k];
    RefreshKeeps(kept[k], Listing(desired[h]));
    if before != kept && |before| == |kept| {
      var j :| 0 <= j < |kept| && before[j] != kept[j];
    }
  }

  lemma MidwayAdd(kept: seq<Listener>, todo: set<string>, before: seq<Listener>, h: string,
                  desired: HostMap, tls: map<string, Tls>, unknown: set<string>)
    requires Midway(kept, todo, before, desired, tls, unknown) && h in todo && h != ""
    requires IndexOf(before, h) < 0
    ensures var after := HostReconciled(before, h, desired, tls, unknown);
            && Midway(kept, todo - {h}, after, desired, tls, unknown)
            && (before != kept ==> after != kept)
  {
    MidwayAddKept(kept, todo, before, h, desired, tls, unknown);
    MidwayAddAdded(kept, todo, before, h, desired, tls, unknown);
    hide MidwayKept, MidwayAdded;
    if h !in unknown {
      var l := NewListener(h, Listing(desired[h]), Get(tls, h));
      forall g ensures IndexOf(before, g) >= 0 || g == h ==> IndexOf(before + [l], g) >= 0 {
        AppendedIndex(before, l, g);
      }
    }
  }

  lemma MidwayAddKept(kept: seq<Listener>, todo: set<string>, before: seq<Listener>, h: string,
                      desired: HostMap, tls: map<string, Tls>, unknown: set<string>)
    requires Midway(kept, todo, before, desired, tls, unknown) && h in todo && h != ""
    requires IndexOf(before, h) < 0
    ensures var after := HostReconciled(before, h, desired, tls, unknown);
            && MidwayKept(kept, todo - {h}, after, desired, tls, unknown)
            && (before != kept ==> after != kept)
    ensures IndexOf(kept, h) < 0
  {
    forall i | 0 <= i < |kept| ensures kept[i].hostname != Some(h) && HostOf(kept[i]) != h {
      assert before[i].hostname == kept[i].hostname;
    }
  }

  lemma MidwayAddAdded(kept: seq<Listener>, todo: set<string>, before: seq<Listener>, h: string,
                       desired: HostMap, tls: map<string, Tls>, unknown: set<string>)
    requires MidwayAdded(kept, todo, before, desired, tls, unknown) && h in todo && h in desired
    requires IndexOf(before, h) < 0 && IndexOf(kept, h) < 0 && |kept| <= |before|
    ensures MidwayAdded(kept, todo - {h}, HostReconciled(before, h, desired, tls, unknown), desired, tls, unknown)
  {
    if h !in unknown {
      assert Added(NewListener(h, Listing(desired[h]), Get(tls, h)), kept, desired, tls, unknown);
    }
  }
}
