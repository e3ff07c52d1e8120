/** Which certificate a listener gets, in terms of the Ingresses' own fields. */
module CertificateChoice {
  import opened Options
  import opened Ordering
  import opened Listeners
  import opened ListenerTls

  /** Entry n is the first of the Ingress's tls entries to list the host, and names a secret. */
  ghost predicate Brings(i: Ingress, n: nat, host: string) {
    && host != "" && n < |i.tls| && host in i.tls[n].hosts && i.tls[n].secret != ""
    && forall m :: 0 <= m < n ==> host !in i.tls[m].hosts
  }

  /** Rule j of the Ingress becomes host h and has a certificate, from entry n. */
  ghost predicate OffersAt(e: Env, i: Ingress, j: nat, n: nat, h: string) {
    j < |i.ruleHosts| && e.transform(i.ruleHosts[j]) == h && Brings(i, n, i.ruleHosts[j])
  }

  ghost predicate FirstOfferAt(e: Env, i: Ingress, j: nat, n: nat, h: string) {
    OffersAt(e, i, j, n, h) && forall k: nat, m: nat :: k < j ==> !OffersAt(e, i, k, m, h)
  }

  /** The Ingress exists, and has a certificate for h and a managed route for h. */
  ghost predicate Bringer(e: Env, rs: set<TlsRoute>, key: string, h: string) {
    && key in e.ingresses
    && (exists r :: r in rs && r.managed && r.source == key && h in r.hostnames)
    && exists j: nat, n: nat :: OffersAt(e, e.ingresses[key], j, n, h)
  }

  ghost predicate Smallest(e: Env, rs: set<TlsRoute>, key: string, h: string) {
    Bringer(e, rs, key, h) && forall k :: Bringer(e, rs, k, h) ==> Le(key, k)
  }

  /** A managed route for h whose Ingress cannot be found. */
  ghost predicate IsUnknown(e: Env, rs: set<TlsRoute>, h: string) {
    exists r :: r in rs && r.managed && r.source !in e.ingresses && h in r.hostnames
  }

  /** The certificate is good for the host as it is, or as it was rewritten. */
  predicate Suits(e: Env, i: Ingress, j: nat, n: nat, h: string)
    requires j < |i.ruleHosts| && n < |i.tls|
  {
    i.ruleHosts[j] == h || e.certificateMatches(i.ruleHosts[j], h, i.tls[n].hosts)
  }

  /** No certificate for a host that nobody brings one for, or that is unknown; otherwise the
      secret of the smallest bringer's first offer in that Ingress's namespace if it suits, and
      the automatic secret in the Gateway's namespace if it does not. */
  ghost predicate RightTls(e: Env, rs: set<TlsRoute>, h: string, tls: Option<Tls>) {
    && (tls.None? <==> IsUnknown(e, rs, h) || forall key :: !Bringer(e, rs, key, h))
    && (tls.Some? ==> exists key, j: nat, n: nat :: ChosenOffer(e, rs, h, key, j, n))
    && forall key, j: nat, n: nat :: ChosenOffer(e, rs, h, key, j, n) && tls.Some? ==>
         var i := e.ingresses[key];
         tls.value == if Suits(e, i, j, n, h) then Tls(i.tls[n].secret, i.namespace)
                      else Tls(e.automaticSecret(i.namespace, h), e.gatewayNamespace)
  }

  ghost predicate ChosenOffer(e: Env, rs: set<TlsRoute>, h: string, key: string, j: nat, n: nat) {
    Smallest(e, rs, key, h) && FirstOfferAt(e, e.ingresses[key], j, n, h)
  }

  /** The host is reported: its certificate is not the one its Ingress brought. */
  ghost predicate RightReport(e: Env, rs: set<TlsRoute>, h: string, text: string) {
    && !IsUnknown(e, rs, h)
    && exists key, j: nat, n: nat ::
         && ChosenOffer(e, rs, h, key, j, n)
         && var i := e.ingresses[key];
            && !Suits(e, i, j, n, h)
            && text == e.report(i.ruleHosts[j], h, Tls(i.tls[n].secret, i.namespace),
                                Tls(e.automaticSecret(i.namespace, h), e.gatewayNamespace))
  }

  // ---------------------------------------------------------------- reading the functions

  lemma {:induction false} FindTlsAt(tls: seq<TlsEntry>, host: string) returns (n: nat)
    ensures FindTls(tls, host).None? ==> forall m :: 0 <= m < |tls| ==> host !in tls[m].hosts
    ensures FindTls(tls, host).Some? ==>
              n < |tls| && FindTls(tls, host).value == tls[n] && host in tls[n].hosts && forall m :: 0 <= m < n ==> host !in tls[m].hosts
  {
    n := 0;
    if tls != [] && host !in tls[0].hosts {
      var rest := FindTlsAt(tls[1..], host);
      n := rest + 1;
      assert forall m :: 0 < m < |tls| ==> tls[m] == tls[1..][m - 1];
    }
  }

  lemma BringsMeaning(e: Env, i: Ingress, host: string) returns (n: nat)
    ensures BearsTls(e, i, host) <==> exists m: nat :: Brings(i, m, host)
    ensures BearsTls(e, i, host) ==> Brings(i, n, host) && FindTls(i.tls, host) == Some(i.tls[n])
    ensures forall m: nat :: Brings(i, m, host) ==> BearsTls(e, i, host) && m == n
  {
    n := FindTlsAt(i.tls, host);
    if BearsTls(e, i, host) {
      assert Brings(i, n, host);
    }
  }

  lemma {:induction false} FirstOfferAtMeaning(e: Env, i: Ingress, k: nat, h: string) returns (j: nat)
    requires k <= |i.ruleHosts|
    ensures var r := FirstOffer(e, i, i.ruleHosts[..k], h);
            && (r.None? ==> forall x :: 0 <= x < k ==> !Offers(e, i, i.ruleHosts[x], h))
            && (r.Some? ==> j < k && r == Some(i.ruleHosts[j]) && Offers(e, i, i.ruleHosts[j], h)
                            && forall x :: 0 <= x < j ==> !Offers(e, i, i.ruleHosts[x], h))
  {
    j := 0;
    if k > 0 {
      var hosts := i.ruleHosts[..k];
      assert hosts[..k - 1] == i.ruleHosts[..k - 1];
      j := FirstOfferAtMeaning(e, i, k - 1, h);
      if FirstOffer(e, i, hosts[..k - 1], h).None? && Offers(e, i, hosts[k - 1], h) {
        j := k - 1;
      }
    }
  }

  /** The function's first offer is the first rule with a certificate. */
  lemma OfferMeaning(e: Env, i: Ingress, h: string) returns (j: nat, n: nat)
    ensures FirstOffer(e, i, i.ruleHosts, h).Some? <==> exists x: nat, m: nat :: OffersAt(e, i, x, m, h)
    ensures FirstOffer(e, i, i.ruleHosts, h).Some? ==>
              && FirstOfferAt(e, i, j, n, h) && FirstOffer(e, i, i.ruleHosts, h).value == i.ruleHosts[j]
              && FindTls(i.tls, i.ruleHosts[j]) == Some(i.tls[n])
    ensures forall x: nat, m: nat :: FirstOfferAt(e, i, x, m, h) ==> x == j && m == n
  {
    assert i.ruleHosts[..|i.ruleHosts|] == i.ruleHosts;
    j := FirstOfferAtMeaning(e, i, |i.ruleHosts|, h);
    n := BringsMeaning(e, i, if j < |i.ruleHosts| then i.ruleHosts[j] else "");
    forall x: nat, m: nat | OffersAt(e, i, x, m, h) ensures Offers(e, i, i.ruleHosts[x], h) {
      var _ := BringsMeaning(e, i, i.ruleHosts[x]);
    }
    if FirstOffer(e, i, i.ruleHosts, h).Some? {
      assert OffersAt(e, i, j, n, h);
    }
  }

  lemma BringerMeaning(e: Env, rs: set<TlsRoute>, key: string, h: string)
    ensures Bringer(e, rs, key, h) <==> key in Offering(e, rs, h)
  {
    if key in e.ingresses {
      var _, _ := OfferMeaning(e, e.ingresses[key], h);
    }
    hide FirstOffer, OffersAt;
    if Bringer(e, rs, key, h) {
      var r :| r in rs && r.managed && r.source == key && h in r.hostnames;
      assert OffersFor(e, r, h);
    }
  }

  lemma SmallestMeaning(e: Env, rs: set<TlsRoute>, key: string, h: string)
    ensures Smallest(e, rs, key, h) <==> Chosen(e, rs, h).Some? && Chosen(e, rs, h).value.key == key
  {
    var keys := Offering(e, rs, h);
    forall k ensures Bringer(e, rs, k, h) <==> k in keys { BringerMeaning(e, rs, k, h); }
    hide Bringer, Offering;
    if keys != {} {
      var l := Listing(keys);
      assert Elements(l) == keys;
      forall k | k in keys ensures Le(l[0], k) { HeadLeast(l, k); }
      assert l[0] in keys;
      if Smallest(e, rs, key, h) {
        LeAntisymmetric(key, l[0]);
      }
    }
  }

  /** The chosen candidate is the chosen offer. */
  lemma CandidateMeaning(e: Env, rs: set<TlsRoute>, h: string) returns (j: nat, n: nat)
    ensures var c := Chosen(e, rs, h);
            && (c.None? <==> forall key :: !Bringer(e, rs, key, h))
            && (c.Some? ==>
                 && ChosenOffer(e, rs, h, c.value.key, j, n)
                 && c.value.host == e.ingresses[c.value.key].ruleHosts[j]
                 && FindTls(e.ingresses[c.value.key].tls, c.value.host) == Some(e.ingresses[c.value.key].tls[n]))
            && (forall key, x: nat, m: nat :: ChosenOffer(e, rs, h, key, x, m) ==>
                 c.Some? && key == c.value.key && x == j && m == n)
  {
    j, n := 0, 0;
    var c := Chosen(e, rs, h);
    forall key ensures Bringer(e, rs, key, h) <==> key in Offering(e, rs, h)
      ensures Smallest(e, rs, key, h) <==> c.Some? && c.value.key == key
    {
      BringerMeaning(e, rs, key, h);
      SmallestMeaning(e, rs, key, h);
    }
    if c.Some? {
      j, n := OfferMeaning(e, e.ingresses[c.value.key], h);
      ChosenHost(e, rs, h);
    }
    hide Bringer, Offering, Smallest, FirstOffer, FirstOfferAt, FindTls, Chosen;
  }

  lemma ChosenHost(e: Env, rs: set<TlsRoute>, h: string)
    requires Chosen(e, rs, h).Some?
    ensures var c := Chosen(e, rs, h).value;
            FirstOffer(e, e.ingresses[c.key], e.ingresses[c.key].ruleHosts, h) == Some(c.host)
  {
    var keys := Offering(e, rs, h);
    assert Elements(Listing(keys)) == keys;
    assert Listing(keys)[0] in keys;
  }

  // ---------------------------------------------------------------- the choice

  lemma CertificateIsRight(e: Env, rs: set<TlsRoute>, h: string)
    ensures RightTls(e, rs, h, CertificateFor(e, rs, h))
    ensures forall text :: (Reported(e, rs, h) && text == Report(e, rs, h)) <==> RightReport(e, rs, h, text)
    ensures h in Unknown(e, rs) <==> IsUnknown(e, rs, h)
  {
    var j, n := CandidateMeaning(e, rs, h);
    hide Chosen, ChosenOffer, Bringer, IsUnknown, FindTls;
    UnknownMeaning(e, rs, h);
  }

  lemma UnknownMeaning(e: Env, rs: set<TlsRoute>, h: string)
    ensures h in Unknown(e, rs) <==> IsUnknown(e, rs, h)
  {
  }

  /** What buildDesiredListenerTLS computes: every desired host gets the right certificate, the
      unknown hosts are those with a route whose Ingress is missing, and the reports are those
      of the desired hosts whose certificate was replaced. */
  lemma BuiltTlsIsRight(e: Env, desired: set<string>, rs: set<TlsRoute>, tls: map<string, Option<Tls>>, mismatches: seq<string>)
    requires TlsVisited(e, rs, desired, tls)
    requires mismatches == Sort(Reports(e, rs, Listing(ReportedOf(e, rs, desired))))
    ensures tls.Keys == desired && forall h :: h in desired ==> RightTls(e, rs, h, tls[h])
    ensures forall h :: h in Unknown(e, rs) <==> IsUnknown(e, rs, h)
    ensures Sorted(mismatches)
    ensures forall text :: text in mismatches <==> exists h :: h in desired && RightReport(e, rs, h, text)
  {
    hide RightTls, Unknown, IsUnknown, RightReport, CertificateFor;
    forall h ensures RightTls(e, rs, h, CertificateFor(e, rs, h)) && (h in Unknown(e, rs) <==> IsUnknown(e, rs, h)) {
      CertificateIsRight(e, rs, h);
    }
    SortSorts(Reports(e, rs, Listing(ReportedOf(e, rs, desired))));
    forall text ensures text in mismatches <==> exists h :: h in desired && RightReport(e, rs, h, text) {
      ReportListed(e, desired, rs, text);
    }
  }

  lemma ReportListed(e: Env, desired: set<string>, rs: set<TlsRoute>, text: string)
    ensures text in Sort(Reports(e, rs, Listing(ReportedOf(e, rs, desired)))) <==> exists h :: h in desired && RightReport(e, rs, h, text)
  {
    var hosts := Listing(ReportedOf(e, rs, desired));
    SortElements(Reports(e, rs, hosts));
    assert text in Sort(Reports(e, rs, hosts)) <==> text in Elements(Sort(Reports(e, rs, hosts)));
    ReportsHold(e, rs, hosts, text);
    forall h ensures (Reported(e, rs, h) && text == Report(e, rs, h)) <==> RightReport(e, rs, h, text)
      ensures h in hosts <==> h in desired && Reported(e, rs, h)
    {
      CertificateIsRight(e, rs, h);
      assert h in hosts <==> h in Elements(hosts);
    }
    hide RightReport, Reported, Report, Sort, Listing, Reports;
    if text in Elements(Reports(e, rs, hosts)) {
      var h :| h in hosts && text == Report(e, rs, h);
      assert RightReport(e, rs, h, text);
    }
    if h :| h in desired && RightReport(e, rs, h, text) {
      assert h in hosts;
    }
  }

  lemma {:induction false} ReportsHold(e: Env, rs: set<TlsRoute>, hosts: seq<string>, text: string)
    ensures text in Reports(e, rs, hosts) <==> exists h :: h in hosts && text == Report(e, rs, h)
  {
    hide Report;
    if hosts != [] {
      var n := |hosts| - 1;
      assert hosts == hosts[..n] + [hosts[n]];
      ReportsHold(e, rs, hosts[..n], text);
      assert forall h :: h in hosts <==> h in hosts[..n] || h == hosts[n];
    }
  }
}
