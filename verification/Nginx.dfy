/** The nginx directives generated from an Ingress's annotations, with their meaning: the
    set/if sequence that redirects to https, and the first-match access rules. */
module Nginx {
  import opened Options
  import opened Ordering
  import opened Text

  // ---------------------------------------------------------------- directives

  datatype Condition = SchemeIsNotHttps | HeaderIs(variable: string, value: string) | FlagIs(n: int)

  /** `Set` and `IfSet` assign the needs-redirect variable. `Plain` is any directive that is
      neither an access rule nor part of the rewrite module. */
  datatype Directive =
    | Set(n: int)
    | IfSet(condition: Condition, n: int)
    | IfRedirect(condition: Condition)
    | Rewrite(pattern: string, target: string)
    | Allow(cidr: string)
    | Deny(cidr: string)
    | DenyAll
    | Plain(name: string, value: string)

  // ---------------------------------------------------------------- their meaning

  /** `headers` maps header variables to values; `matches` tells which address ranges hold the
      client, and `rewritten` which patterns its path matches. */
  datatype Request = Request(https: bool, headers: map<string, string>, matches: string -> bool, rewritten: string -> bool)

  predicate Met(c: Condition, flag: Option<int>, r: Request) {
    match c
    case SchemeIsNotHttps => !r.https
    case HeaderIs(v, value) => Get(r.headers, v) == Some(value)
    case FlagIs(n) => flag == Some(n)
  }

  /** The rewrite phase: directives run in order until a redirect or a `break`. */
  predicate Redirected(ds: seq<Directive>, flag: Option<int>, r: Request) {
    if ds == [] then false
    else
      var rest := ds[1..];
      match ds[0]
      case Set(n) => Redirected(rest, Some(n), r)
      case IfSet(c, n) => Redirected(rest, if Met(c, flag, r) then Some(n) else flag, r)
      case IfRedirect(c) => Met(c, flag, r) || Redirected(rest, flag, r)
      case Rewrite(p, _) => !r.rewritten(p) && Redirected(rest, flag, r)
      case _ => Redirected(rest, flag, r)
  }

  /** The access phase: the first rule that matches decides. */
  predicate Admitted(ds: seq<Directive>, r: Request) {
    if ds == [] then true
    else
      match ds[0]
      case Allow(c) => r.matches(c) || Admitted(ds[1..], r)
      case Deny(c) => !r.matches(c) && Admitted(ds[1..], r)
      case DenyAll => false
      case _ => Admitted(ds[1..], r)
  }

  // ---------------------------------------------------------------- what is generated

  datatype ProxyHeader = ProxyHeader(variable: string, value: string)

  /** The annotations of one Ingress, as far as they shape its server and location blocks. */
  datatype State = State(
    serverOnly: seq<Directive>,
    plain: seq<Directive>,
    forceSslRedirect: bool,
    sslProxyHeaders: seq<ProxyHeader>,
    allowed: seq<string>,
    denied: seq<string>,
    rewriteTarget: string,
    useRegex: bool)

  /** Trims, then drops blanks and repetitions, keeping the first of each. */
  function Unique(values: seq<string>): (r: seq<string>) {
    if values == [] then []
    else
      var front, last := Unique(values[..|values| - 1]), Trim(values[|values| - 1]);
      if last == "" || last in front then front else front + [last]
  }

  method UniqueStrings(values: seq<string>) returns (out: seq<string>)
    ensures out == Unique(values)
  {
    if |values| == 0 {
      return values;
    }
    var seen: set<string>;
    seen, out := {}, [];
    for i := 0 to |values|
      invariant out == Unique(values[..i])
      invariant seen == Elements(out)
    {
      assert values[..i + 1][..i] == values[..i];
      var trimmed := Trim(values[i]);
      if trimmed == "" || trimmed in seen {
        continue;
      }
      assert Elements(out + [trimmed]) == Elements(out) + {trimmed};
      seen, out := seen + {trimmed}, out + [trimmed];
    }
    assert values[..|values|] == values;
  }

  /** Each non-blank value exactly once. */
  lemma {:induction false} UniqueMeaning(values: seq<string>)
    ensures Distinct(Unique(values))
    ensures forall x :: x in Unique(values) <==> x != "" && exists v :: v in values && Trim(v) == x
  {
    if values != [] {
      var n := |values| - 1;
      UniqueMeaning(values[..n]);
      assert values == values[..n] + [values[n]];
      forall x ensures x in Unique(values) <==> x != "" && exists v :: v in values && Trim(v) == x {
        assert forall v :: v in values <==> v in values[..n] || v == values[n];
      }
    }
  }

  function HeaderLines(hs: seq<ProxyHeader>): seq<Directive> {
    if hs == [] then []
    else HeaderLines(hs[..|hs| - 1]) + [IfSet(HeaderIs(hs[|hs| - 1].variable, hs[|hs| - 1].value), 0)]
  }

  function ForceSslLines(st: State): seq<Directive> {
    if !st.forceSslRedirect then []
    else
      [Set(0), IfSet(SchemeIsNotHttps, 1)] + HeaderLines(st.sslProxyHeaders)
      + [Plain("add_header", "Strict-Transport-Security"), IfRedirect(FlagIs(1))]
  }

  method AppendForceSslRedirectLines(lines: seq<Directive>, st: State) returns (r: seq<Directive>)
    ensures r == lines + ForceSslLines(st)
  {
    if !st.forceSslRedirect {
      return lines;
    }
    var start := [Set(0), IfSet(SchemeIsNotHttps, 1)];
    r := lines + start;
    var hs := st.sslProxyHeaders;
    for i := 0 to |hs|
      invariant r == lines + (start + HeaderLines(hs[..i]))
    {
      assert hs[..i + 1][..i] == hs[..i];
      r := r + [IfSet(HeaderIs(hs[i].variable, hs[i].value), 0)];
    }
    assert hs[..|hs|] == hs;
    r := r + [Plain("add_header", "Strict-Transport-Security"), IfRedirect(FlagIs(1))];
  }

  function RewriteLines(st: State): seq<Directive> {
    var target := Trim(st.rewriteTarget);
    if target == "" then []
    else [Rewrite(if st.useRegex || '$' in target then "^(.*)$" else "^", target)]
  }

  function Denials(cidrs: seq<string>): seq<Directive> {
    if cidrs == [] then [] else Denials(cidrs[..|cidrs| - 1]) + [Deny(cidrs[|cidrs| - 1])]
  }

  function Allowances(cidrs: seq<string>): seq<Directive> {
    if cidrs == [] then [] else Allowances(cidrs[..|cidrs| - 1]) + [Allow(cidrs[|cidrs| - 1])]
  }

  function AclLines(st: State): seq<Directive> {
    Denials(Unique(st.denied)) + Allowances(Unique(st.allowed)) + if st.allowed != [] then [DenyAll] else []
  }

  method AppendRewriteAndAclLines(lines: seq<Directive>, st: State) returns (r: seq<Directive>)
    ensures r == lines + RewriteLines(st) + AclLines(st)
  {
    hide Unique, Denials, Allowances, Trim;
    r := lines;
    if Trim(st.rewriteTarget) != "" {
      var target := Trim(st.rewriteTarget);
      var pattern := "^";
      if st.useRegex || '$' in target {
        pattern := "^(.*)$";
      }
      r := r + [Rewrite(pattern, target)];
    }
    var denied := UniqueStrings(st.denied);
    r := AppendDenials(r, denied);
    var allowed := UniqueStrings(st.allowed);
    r := AppendAllowances(r, allowed);
    if |st.allowed| > 0 {
      r := r + [DenyAll];
    }
  }

  method AppendDenials(lines: seq<Directive>, cidrs: seq<string>) returns (r: seq<Directive>)
    ensures r == lines + Denials(cidrs)
  {
    r := lines;
    for i := 0 to |cidrs|
      invariant r == lines + Denials(cidrs[..i])
    {
      assert cidrs[..i + 1][..i] == cidrs[..i];
      r := r + [Deny(cidrs[i])];
    }
    assert cidrs[..|cidrs|] == cidrs;
  }

  method AppendAllowances(lines: seq<Directive>, cidrs: seq<string>) returns (r: seq<Directive>)
    ensures r == lines + Allowances(cidrs)
  {
    r := lines;
    for i := 0 to |cidrs|
      invariant r == lines + Allowances(cidrs[..i])
    {
      assert cidrs[..i + 1][..i] == cidrs[..i];
      r := r + [Allow(cidrs[i])];
    }
    assert cidrs[..|cidrs|] == cidrs;
  }

  /** The location block: other directives first, and external-auth directives last. */
  function LocationLines(st: State, other: seq<Directive>, auth: seq<Directive>): seq<Directive> {
    other + ForceSslLines(st) + RewriteLines(st) + AclLines(st) + auth
  }

  method BuildLocationContextLines(st: State, other: seq<Directive>, auth: seq<Directive>) returns (r: seq<Directive>)
    ensures r == LocationLines(st, other, auth)
  {
    r := AppendForceSslRedirectLines(other, st);
    r := AppendRewriteAndAclLines(r, st);
    r := r + auth;
  }

  predicate AllPlain(ds: seq<Directive>) {
    forall d :: d in ds ==> d.Plain?
  }

  // ---------------------------------------------------------------- redirects

  /** A prefix without redirects or rewrites only moves the flag. */
  function FlagAfter(ds: seq<Directive>, flag: Option<int>, r: Request): Option<int> {
    if ds == [] then flag
    else
      match ds[0]
      case Set(n) => FlagAfter(ds[1..], Some(n), r)
      case IfSet(c, n) => FlagAfter(ds[1..], if Met(c, flag, r) then Some(n) else flag, r)
      case _ => FlagAfter(ds[1..], flag, r)
  }

  predicate NoJumps(ds: seq<Directive>) {
    forall d :: d in ds ==> !d.IfRedirect? && !d.Rewrite?
  }

  lemma {:induction false} RedirectedAppend(a: seq<Directive>, b: seq<Directive>, flag: Option<int>, r: Request)
    requires NoJumps(a)
    ensures Redirected(a + b, flag, r) == Redirected(b, FlagAfter(a, flag, r), r)
    ensures b == [] ==> !Redirected(a, flag, r)
    decreases |a|
  {
    if a == [] {
      assert a + b == b;
    } else {
      assert a[0] in a && (a + b)[0] == a[0] && (a + b)[1..] == a[1..] + b;
      assert !a[0].IfRedirect? && !a[0].Rewrite?;
      var next := match a[0]
        case Set(n) => Some(n)
        case IfSet(c, n) => if Met(c, flag, r) then Some(n) else flag
        case _ => flag;
      RedirectedAppend(a[1..], b, next, r);
    }
  }

  /** Without rewrite directives a list redirects nobody. */
  lemma {:induction false} NeverRedirected(ds: seq<Directive>, flag: Option<int>, r: Request)
    requires forall d :: d in ds ==> !d.IfRedirect?
    ensures !Redirected(ds, flag, r)
    decreases |ds|
  {
    if ds != [] {
      assert ds[0] in ds;
      var next := match ds[0]
        case Set(n) => Some(n)
        case IfSet(c, n) => if Met(c, flag, r) then Some(n) else flag
        case _ => flag;
      NeverRedirected(ds[1..], next, r);
    }
  }

  predicate SomeHeaderMatches(hs: seq<ProxyHeader>, r: Request) {
    exists h :: h in hs && Get(r.headers, h.variable) == Some(h.value)
  }

  lemma {:induction false} FlagAfterAppend(a: seq<Directive>, d: Directive, flag: Option<int>, r: Request)
    ensures FlagAfter(a + [d], flag, r) == FlagAfter([d], FlagAfter(a, flag, r), r)
    decreases |a|
  {
    if a == [] {
      assert a + [d] == [d];
    } else {
      assert (a + [d])[1..] == a[1..] + [d];
      var next := match a[0]
        case Set(n) => Some(n)
        case IfSet(c, n) => if Met(c, flag, r) then Some(n) else flag
        case _ => flag;
      FlagAfterAppend(a[1..], d, next, r);
    }
  }

  lemma {:induction false} HeaderLinesMeaning(hs: seq<ProxyHeader>, flag: Option<int>, r: Request)
    ensures FlagAfter(HeaderLines(hs), flag, r) == if SomeHeaderMatches(hs, r) then Some(0) else flag
    ensures forall d :: d in HeaderLines(hs) ==> d.IfSet?
  {
    if hs != [] {
      var n := |hs| - 1;
      HeaderLinesMeaning(hs[..n], flag, r);
      FlagAfterAppend(HeaderLines(hs[..n]), IfSet(HeaderIs(hs[n].variable, hs[n].value), 0), flag, r);
      assert hs == hs[..n] + [hs[n]];
      assert SomeHeaderMatches(hs, r) <==> SomeHeaderMatches(hs[..n], r) || Get(r.headers, hs[n].variable) == Some(hs[n].value);
    }
  }

  /** The location block redirects a request exactly when redirection is forced, the scheme is
      not https, and no ssl-proxy header says that it was. */
  lemma RedirectsWhenInsecure(st: State, other: seq<Directive>, auth: seq<Directive>, r: Request)
    requires AllPlain(other) && AllPlain(auth)
    ensures Redirected(LocationLines(st, other, auth), None, r) <==>
              st.forceSslRedirect && !r.https && !SomeHeaderMatches(st.sslProxyHeaders, r)
  {
    hide Unique, Denials, Allowances, Trim, Redirected;
    var tail := RewriteLines(st) + AclLines(st) + auth;
    AclHasNoRewrites(st);
    assert forall d :: d in tail ==> !d.IfRedirect?;
    assert LocationLines(st, other, auth) == other + (ForceSslLines(st) + tail);
    RedirectedAppend(other, ForceSslLines(st) + tail, None, r);
    PlainKeepsFlag(other, None, r);
    if st.forceSslRedirect {
      ForcedRedirect(st, tail, r);
    } else {
      assert ForceSslLines(st) + tail == tail;
      NeverRedirected(tail, None, r);
    }
  }

  lemma ForcedRedirect(st: State, tail: seq<Directive>, r: Request)
    requires st.forceSslRedirect && forall d :: d in tail ==> !d.IfRedirect?
    ensures Redirected(ForceSslLines(st) + tail, None, r) <==> !r.https && !SomeHeaderMatches(st.sslProxyHeaders, r)
  {
    var hs, start := HeaderLines(st.sslProxyHeaders), [Set(0), IfSet(SchemeIsNotHttps, 1)];
    var hsts, jump := Plain("add_header", "Strict-Transport-Security"), IfRedirect(FlagIs(1));
    var flag := Some(if r.https then 0 else 1);
    HeaderLinesMeaning(st.sslProxyHeaders, flag, r);
    assert ForceSslLines(st) + tail == start + (hs + ([hsts] + ([jump] + tail)));
    RedirectedAppend(start, hs + ([hsts] + ([jump] + tail)), None, r);
    assert start[1..] == [start[1]];
    assert FlagAfter(start[1..], Some(0), r) == flag;
    RedirectedAppend(hs, [hsts] + ([jump] + tail), flag, r);
    RedirectedAppend([hsts], [jump] + tail, FlagAfter(hs, flag, r), r);
    NeverRedirected(tail, FlagAfter(hs, flag, r), r);
    assert ([jump] + tail)[1..] == tail;
  }

  lemma {:induction false} PlainKeepsFlag(ds: seq<Directive>, flag: Option<int>, r: Request)
    requires AllPlain(ds)
    ensures FlagAfter(ds, flag, r) == flag
    decreases |ds|
  {
    if ds != [] {
      assert ds[0] in ds;
      PlainKeepsFlag(ds[1..], flag, r);
    }
  }

  lemma AclHasNoRewrites(st: State)
    ensures forall d :: d in AclLines(st) ==> d.Allow? || d.Deny? || d.DenyAll?
  {
    DenialsOnly(Unique(st.denied));
    AllowancesOnly(Unique(st.allowed));
  }

  lemma {:induction false} DenialsOnly(cidrs: seq<string>)
    ensures forall d :: d in Denials(cidrs) ==> d.Deny?
  {
    if cidrs != [] { DenialsOnly(cidrs[..|cidrs| - 1]); }
  }

  lemma {:induction false} AllowancesOnly(cidrs: seq<string>)
    ensures forall d :: d in Allowances(cidrs) ==> d.Allow?
  {
    if cidrs != [] { AllowancesOnly(cidrs[..|cidrs| - 1]); }
  }

  // ---------------------------------------------------------------- access

  /** The client is in one of the non-blank ranges. */
  ghost predicate InSome(ranges: seq<string>, r: Request) {
    exists v :: v in ranges && Trim(v) != "" && r.matches(Trim(v))
  }

  lemma {:induction false} AdmittedPastNeutral(a: seq<Directive>, b: seq<Directive>, r: Request)
    requires forall d :: d in a ==> !d.Allow? && !d.Deny? && !d.DenyAll?
    ensures Admitted(a + b, r) == Admitted(b, r)
    decreases |a|
  {
    if a == [] {
      assert a + b == b;
    } else {
      assert a[0] in a && (a + b)[0] == a[0] && (a + b)[1..] == a[1..] + b;
      AdmittedPastNeutral(a[1..], b, r);
    }
  }

  lemma {:induction false} PastDenials(cidrs: seq<string>, b: seq<Directive>, r: Request)
    ensures Admitted(Denials(cidrs) + b, r) == (Admitted(b, r) && forall c :: c in cidrs ==> !r.matches(c))
  {
    if cidrs == [] {
      assert Denials(cidrs) + b == b;
    } else {
      var n := |cidrs| - 1;
      var rest := [Deny(cidrs[n])] + b;
      assert Denials(cidrs) + b == Denials(cidrs[..n]) + rest;
      PastDenials(cidrs[..n], rest, r);
      assert rest[1..] == b;
      assert cidrs == cidrs[..n] + [cidrs[n]];
    }
  }

  lemma {:induction false} PastAllowances(cidrs: seq<string>, b: seq<Directive>, r: Request)
    ensures Admitted(Allowances(cidrs) + b, r) == (Admitted(b, r) || exists c :: c in cidrs && r.matches(c))
  {
    if cidrs == [] {
      assert Allowances(cidrs) + b == b;
    } else {
      var n := |cidrs| - 1;
      var rest := [Allow(cidrs[n])] + b;
      assert Allowances(cidrs) + b == Allowances(cidrs[..n]) + rest;
      PastAllowances(cidrs[..n], rest, r);
      assert rest[1..] == b;
      assert cidrs == cidrs[..n] + [cidrs[n]];
    }
  }

  lemma UniqueMatches(ranges: seq<string>, r: Request)
    ensures (exists c :: c in Unique(ranges) && r.matches(c)) <==> InSome(ranges, r)
  {
    UniqueMeaning(ranges);
    if InSome(ranges, r) {
      var v :| v in ranges && Trim(v) != "" && r.matches(Trim(v));
      assert Trim(v) in Unique(ranges);
    }
  }

  /** The location block admits a client exactly when no denied range holds it, and the list
      of allowed ranges is empty or has one that does; for any lists, after deduplication. */
  lemma AdmitsByLists(st: State, other: seq<Directive>, auth: seq<Directive>, r: Request)
    requires AllPlain(other) && AllPlain(auth)
    ensures Admitted(LocationLines(st, other, auth), r) <==>
              !InSome(st.denied, r) && (st.allowed == [] || InSome(st.allowed, r))
  {
    hide Unique, Denials, Allowances, Trim;
    var front := other + ForceSslLines(st) + RewriteLines(st);
    var denied, allowed := Unique(st.denied), Unique(st.allowed);
    var last := if st.allowed != [] then [DenyAll] else [];
    HeaderLinesMeaning(st.sslProxyHeaders, None, r);
    assert LocationLines(st, other, auth) == front + (Denials(denied) + (Allowances(allowed) + (last + auth)));
    AdmittedPastNeutral(front, Denials(denied) + (Allowances(allowed) + (last + auth)), r);
    PastDenials(denied, Allowances(allowed) + (last + auth), r);
    PastAllowances(allowed, last + auth, r);
    UniqueMatches(st.denied, r);
    UniqueMatches(st.allowed, r);
    if st.allowed == [] {
      assert last + auth == auth;
      assert auth + [] == auth;
      AdmittedPastNeutral(auth, [], r);
    }
  }

  // ---------------------------------------------------------------- rewrites

  /** The rewriting that a list applies to a path its pattern matches: pattern and target. */
  function RewriteIn(ds: seq<Directive>): Option<(string, string)> {
    if ds == [] then None
    else if ds[0].Rewrite? then Some((ds[0].pattern, ds[0].target))
    else RewriteIn(ds[1..])
  }

  lemma {:induction false} RewritePast(a: seq<Directive>, b: seq<Directive>)
    requires forall d :: d in a ==> !d.Rewrite?
    ensures RewriteIn(a + b) == RewriteIn(b)
    decreases |a|
  {
    if a == [] {
      assert a + b == b;
    } else {
      assert a[0] in a && (a + b)[0] == a[0] && (a + b)[1..] == a[1..] + b;
      RewritePast(a[1..], b);
    }
  }

  /** The location block rewrites exactly when a target is given, to that target; the whole path
      can be captured exactly when regular expressions are on or the target refers to one. */
  lemma RewritesToTarget(st: State, other: seq<Directive>, auth: seq<Directive>)
    requires AllPlain(other) && AllPlain(auth)
    ensures var r, target := RewriteIn(LocationLines(st, other, auth)), Trim(st.rewriteTarget);
            && (r.None? <==> target == "")
            && (r.Some? ==> r.value == (if st.useRegex || '$' in target then "^(.*)$" else "^", target))
  {
    var rest := AclLines(st) + auth;
    AclHasNoRewrites(st);
    HeaderLinesMeaning(st.sslProxyHeaders, None, Request(true, map[], s => false, s => false));
    var front := other + ForceSslLines(st);
    assert LocationLines(st, other, auth) == front + (RewriteLines(st) + rest);
    RewritePast(front, RewriteLines(st) + rest);
    RewritePast(rest, []);
    assert rest + [] == rest;
    if Trim(st.rewriteTarget) == "" {
      assert RewriteLines(st) + rest == rest;
    } else {
      assert (RewriteLines(st) + rest)[0] == RewriteLines(st)[0];
    }
    hide AclLines, ForceSslLines, Trim;
  }
}
