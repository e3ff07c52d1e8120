/** The add-only merge into any Gateway, also one whose listeners were not written by the
    controller: exactly which hosts it opens to a namespace. */
module MergeAdmits {
  import opened Options
  import opened Ordering
  import opened Listeners
  import opened Merge

  /** The merge has a requirement to add a namespace to. */
  predicate TakesNamespaces(l: Listener) {
    && l.selector.Some? && l.selector.value.matchLabels.None?
    && RequirementIndex(l.selector.value.matchExpressions) >= 0
  }

  /** The host's listener does not admit the namespace, and the merge cannot change that. */
  ghost predicate Shut(ls: seq<Listener>, h: string, ns: string) {
    var i := IndexOf(ls, h);
    i >= 0 && ns !in Admitted(ls[i]) && !TakesNamespaces(ls[i])
  }

  /** In the controller's own form no host is ever shut; among listeners of the older label
      form exactly those are that name another namespace. */
  lemma ShutForms(ls: seq<Listener>, h: string, ns: string)
    requires IndexOf(ls, h) >= 0
    ensures ExpressionForm(ls[IndexOf(ls, h)]) ==> !Shut(ls, h, ns)
    ensures var l := ls[IndexOf(ls, h)];
            LabelForm(l) ==> (Shut(ls, h, ns) <==> l.selector.value.matchLabels.value[NAMESPACE_KEY] != ns)
  {
  }

  lemma GoodIsNeverShut(ls: seq<Listener>, h: string, ns: string)
    requires Good(ls)
    ensures !Shut(ls, h, ns)
  {
    if IndexOf(ls, h) >= 0 {
      ShutForms(ls, h, ns);
    }
  }

  /** What the merge makes of one listener. */
  lemma ListenerMerged(l: Listener, ns: string, tls: Option<Tls>)
    ensures var r := TlsFilled(NamespaceAdded(l, ns), tls);
            && r.hostname == l.hostname && TakesNamespaces(r) == TakesNamespaces(l)
            && Admitted(r) == Admitted(l) + if TakesNamespaces(l) then {ns} else {}
  {
    if TakesNamespaces(l) {
      var es := l.selector.value.matchExpressions;
      var i := RequirementIndex(es);
      var v := es[i].values;
      if ns in v {
        assert Elements(v) + {ns} == Elements(v);
      } else {
        SortElements(v + [ns]);
        assert Elements(v + [ns]) == Elements(v) + {ns};
        RequirementKept(es, i, Sort(v + [ns]));
      }
    }
  }

  lemma MergeHostAdmits(ls: seq<Listener>, h: string, ns: string, tls: Option<Tls>)
    ensures var after := MergeHost(ls, h, ns, tls);
            Meaning(after) == if Shut(ls, h, ns) then Meaning(ls) else AddPair(Meaning(ls), h, ns)
  {
    var i := IndexOf(ls, h);
    if i >= 0 {
      ListenerMerged(ls[i], ns, tls);
      ReplaceMeaning(ls, h, TlsFilled(NamespaceAdded(ls[i], ns), tls));
      MeaningAt(ls, h);
      AddOrKeep(Meaning(ls), h, ns, TakesNamespaces(ls[i]));
      hide Meaning, Admitted, NamespaceAdded, TlsFilled, TakesNamespaces, AddPair;
    } else {
      AppendMeaning(ls, h, NewListener(h, [ns], tls));
      NewListenerMeaning(h, [ns], tls);
      assert Elements([ns]) == {} + {ns};
      hide Meaning, Admitted, NewListener;
    }
  }

  lemma AddOrKeep(m: HostMap, h: string, ns: string, takes: bool)
    requires h in m
    ensures m[h := m[h] + if takes then {ns} else {}] == if ns !in m[h] && !takes then m else AddPair(m, h, ns)
  {
    assert ns in m[h] ==> m[h] + {ns} == m[h];
    assert m[h := m[h]] == m && m[h] + {} == m[h];
  }

  lemma MeaningAt(ls: seq<Listener>, h: string)
    requires IndexOf(ls, h) >= 0
    ensures h in Meaning(ls) && Meaning(ls)[h] == Admitted(ls[IndexOf(ls, h)])
  {
  }

  /** A merge opens no shut host, and shuts none. */
  lemma ShutStays(ls: seq<Listener>, h: string, ns: string, tls: Option<Tls>, g: string)
    ensures Shut(MergeHost(ls, h, ns, tls), g, ns) <==> Shut(ls, g, ns)
  {
    var i := IndexOf(ls, h);
    if i >= 0 {
      ListenerMerged(ls[i], ns, tls);
      ReplaceMeaning(ls, h, TlsFilled(NamespaceAdded(ls[i], ns), tls));
    } else {
      AppendedIndex(ls, NewListener(h, [ns], tls), g);
      NewListenerMeaning(h, [ns], tls);
    }
  }

  /** Merging a route admits its namespace on each of its hosts exactly where the host was
      not shut; it takes nothing away and adds nothing else. */
  lemma {:induction false} MergeHostsAdmits(ls: seq<Listener>, hs: seq<string>, ns: string, tls: map<string, Tls>)
    ensures var after := MergeHosts(ls, hs, ns, tls);
            && (forall h, n :: Admits(after, h, n) <==> Admits(ls, h, n) || (n == ns && h in hs && !Shut(ls, h, ns)))
            && (forall h :: Shut(after, h, ns) <==> Shut(ls, h, ns))
    decreases hs
  {
    if hs != [] {
      var next := MergeHost(ls, hs[0], ns, Get(tls, hs[0]));
      MergeHostAdmits(ls, hs[0], ns, Get(tls, hs[0]));
      forall h ensures Shut(next, h, ns) <==> Shut(ls, h, ns) {
        ShutStays(ls, hs[0], ns, Get(tls, hs[0]), h);
      }
      MergeHostsAdmits(next, hs[1..], ns, tls);
      assert forall h :: h in hs <==> h == hs[0] || h in hs[1..];
      MergedPairs(ls, hs[0], ns, next);
      hide Admits, Shut, MergeHost, Meaning, AddPair;
    }
  }

  lemma MergedPairs(ls: seq<Listener>, g: string, ns: string, next: seq<Listener>)
    requires Meaning(next) == (if Shut(ls, g, ns) then Meaning(ls) else AddPair(Meaning(ls), g, ns))
    ensures forall h, n :: Admits(next, h, n) <==> Admits(ls, h, n) || (n == ns && h == g && !Shut(ls, h, ns))
  {
    hide Meaning, Shut;
  }

  /** The state of the listeners once a route with hosts hs has been merged at least once. */
  ghost predicate Opened(found: seq<Listener>, hs: seq<string>, ns: string, now: seq<Listener>) {
    && (forall h, n :: Admits(found, h, n) ==> Admits(now, h, n))
    && (forall h :: h in hs ==> (Admits(now, h, ns) <==> !Shut(found, h, ns)))
    && (forall h :: Shut(now, h, ns) <==> Shut(found, h, ns))
  }

  lemma ShutIsNotAdmitted(ls: seq<Listener>, h: string, ns: string)
    requires Shut(ls, h, ns)
    ensures !Admits(ls, h, ns)
  {
    MeaningAt(ls, h);
  }

  lemma MergeOpens(found: seq<Listener>, hs: seq<string>, ns: string, now: seq<Listener>, tls: map<string, Tls>)
    requires now == found || Opened(found, hs, ns, now)
    ensures Opened(found, hs, ns, MergeHosts(now, hs, ns, tls))
  {
    MergeHostsAdmits(now, hs, ns, tls);
    forall h | Shut(found, h, ns) ensures !Admits(now, h, ns) {
      assert Shut(now, h, ns);
      ShutIsNotAdmitted(now, h, ns);
    }
    hide Shut, Admits, MergeHosts;
  }

  lemma OpenedIsNotEmpty(found: seq<Listener>, hs: seq<string>, ns: string, now: seq<Listener>)
    requires Opened(found, hs, ns, now) && hs != [] && found == []
    ensures now != []
  {
    assert Admits(now, hs[0], ns);
  }

  // ---------------------------------------------------------------- certificates

  /** The certificate of the first listener of a hostname. */
  function TlsAt(ls: seq<Listener>, h: string): Option<Tls> {
    var i := IndexOf(ls, h);
    if i >= 0 then ls[i].tls else None
  }

  lemma MergeHostTls(ls: seq<Listener>, h: string, ns: string, tls: Option<Tls>, g: string)
    ensures TlsAt(MergeHost(ls, h, ns, tls), g) == if g == h && TlsAt(ls, g).None? then tls else TlsAt(ls, g)
  {
    var i := IndexOf(ls, h);
    if i >= 0 {
      ReplaceMeaning(ls, h, TlsFilled(NamespaceAdded(ls[i], ns), tls));
    } else {
      AppendedIndex(ls, NewListener(h, [ns], tls), g);
    }
  }

  /** Certificates are first come: a listener that has one keeps it, and a host of the route
      without one gets the route's. */
  lemma {:induction false} MergeHostsTls(ls: seq<Listener>, hs: seq<string>, ns: string, tls: map<string, Tls>, g: string)
    ensures TlsAt(MergeHosts(ls, hs, ns, tls), g) == if g in hs && TlsAt(ls, g).None? then Get(tls, g) else TlsAt(ls, g)
    decreases hs
  {
    if hs != [] {
      MergeHostTls(ls, hs[0], ns, Get(tls, hs[0]), g);
      MergeHostsTls(MergeHost(ls, hs[0], ns, Get(tls, hs[0])), hs[1..], ns, tls, g);
      hide MergeHost, TlsAt;
      assert g in hs <==> g == hs[0] || g in hs[1..];
    }
  }
}
