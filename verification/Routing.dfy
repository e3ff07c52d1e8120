/** What an ordered list of HTTPRoute rules means to a request, by the precedence that the
    Gateway API (v1, documentation of HTTPRouteRule.matches) gives to its matches: exact
    path, longest prefix, most header matches, then the first rule in list order. And the
    proof that folding canaries into the rules preserves what the Ingress said. */
module Routing {
  import opened Options
  import opened HttpRoutes
  import opened Canary

  /** The path of an HTTP request starts with a slash. */
  type RequestPath = s: string | s != "" && s[0] == '/' witness "/"
  datatype Request = Request(path: RequestPath, headers: map<string, string>)

  // ---------------------------------------------------------------- matching

  /** A trailing slash of a prefix is ignored; a prefix ends at an element boundary. */
  predicate PrefixHolds(prefix: string, path: string) {
    var p := if prefix != "" && prefix[|prefix| - 1] == '/' then prefix[..|prefix| - 1] else prefix;
    p <= path && (|path| == |p| || path[|p|] == '/')
  }

  predicate PathHolds(m: PathMatch, path: string) {
    match m
    case ExactPath(v) => v == path
    case PathPrefix(v) => PrefixHolds(v, path)
  }

  /** A match without a path is the prefix "/". */
  function PathOf(m: Match): PathMatch {
    if m.path.None? then PathPrefix("/") else m.path.value
  }

  predicate HeaderHolds(ps: Patterns, h: HeaderMatch, req: Request) {
    && h.name in req.headers
    && match h
       case ExactHeader(n, v) => req.headers[n] == v
       case RegexHeader(n, p) => ps.matches(p, req.headers[n])
  }

  predicate Holds(ps: Patterns, m: Match, req: Request) {
    PathHolds(PathOf(m), req.path) && forall h :: h in m.headers ==> HeaderHolds(ps, h, req)
  }

  /** A rule without matches matches as the prefix "/". */
  function MatchesOf(r: Rule): seq<Match> {
    if r.matches == [] then [Match(None, [])] else r.matches
  }

  // ---------------------------------------------------------------- precedence

  predicate PathBetter(a: PathMatch, b: PathMatch) {
    || (a.ExactPath? && b.PathPrefix?)
    || (a.PathPrefix? && b.PathPrefix? && |a.value| > |b.value|)
  }

  predicate Better(a: Match, b: Match) {
    || PathBetter(PathOf(a), PathOf(b))
    || (!PathBetter(PathOf(b), PathOf(a)) && |a.headers| > |b.headers|)
  }

  /** Match m of rule i is taken over match m' of rule j. */
  predicate Taken(m: Match, i: nat, m': Match, j: nat) {
    Better(m, m') || (!Better(m', m) && i <= j)
  }

  /** Match m of rule i applies to the request. */
  ghost predicate Applies(ps: Patterns, rules: seq<Rule>, req: Request, i: nat, m: Match) {
    i < |rules| && m in MatchesOf(rules[i]) && Holds(ps, m, req)
  }

  ghost predicate WinsWith(ps: Patterns, rules: seq<Rule>, req: Request, i: nat, m: Match) {
    && Applies(ps, rules, req, i, m)
    && forall j: nat, m' :: Applies(ps, rules, req, j, m') ==> Taken(m, i, m', j)
  }

  /** Rule i is the one that serves the request. */
  ghost predicate Wins(ps: Patterns, rules: seq<Rule>, req: Request, i: nat) {
    exists m :: WinsWith(ps, rules, req, i, m)
  }

  lemma WinnerIsUnique(ps: Patterns, rules: seq<Rule>, req: Request, i: nat, j: nat)
    requires Wins(ps, rules, req, i) && Wins(ps, rules, req, j)
    ensures i == j
  {
    var m :| WinsWith(ps, rules, req, i, m);
    var m' :| WinsWith(ps, rules, req, j, m');
    assert Taken(m, i, m', j) && Taken(m', j, m, i);
  }

  /** A match that applies but does not win is beaten by another one. */
  lemma BetterRival(ps: Patterns, rules: seq<Rule>, req: Request, i: nat, m: Match) returns (j: nat, m': Match)
    requires Applies(ps, rules, req, i, m) && !Wins(ps, rules, req, i)
    ensures Applies(ps, rules, req, j, m') && !Taken(m, i, m', j)
  {
    assert !WinsWith(ps, rules, req, i, m);
    j, m' :| Applies(ps, rules, req, j, m') && !Taken(m, i, m', j);
  }

  ghost predicate Serves(ps: Patterns, rules: seq<Rule>, req: Request) {
    exists i: nat, m :: Applies(ps, rules, req, i, m)
  }

  lemma TakenIsTotalOrder(a: Match, i: nat, b: Match, j: nat, c: Match, k: nat)
    ensures Taken(a, i, b, j) || Taken(b, j, a, i)
    ensures Taken(a, i, b, j) && Taken(b, j, c, k) ==> Taken(a, i, c, k)
  {
  }

  lemma {:induction false} BestOf(s: set<(nat, Match)>) returns (x: (nat, Match))
    requires s != {}
    ensures x in s && forall y :: y in s ==> Taken(x.1, x.0, y.1, y.0)
  {
    x :| x in s;
    if s != {x} {
      var b := BestOf(s - {x});
      if !Taken(x.1, x.0, b.1, b.0) {
        TakenIsTotalOrder(x.1, x.0, b.1, b.0, b.1, b.0);
        x := b;
      } else {
        forall y | y in s ensures Taken(x.1, x.0, y.1, y.0) {
          TakenIsTotalOrder(x.1, x.0, b.1, b.0, y.1, y.0);
        }
      }
    }
  }

  /** Whenever some match holds, precedence singles out a rule. */
  lemma SomeRuleWins(ps: Patterns, rules: seq<Rule>, req: Request)
    requires Serves(ps, rules, req)
    ensures exists i: nat :: Wins(ps, rules, req, i)
  {
    var s := Candidates(ps, rules, req);
    var x := BestOf(s);
    BestCandidateWins(ps, rules, req, x);
  }

  lemma BestCandidateWins(ps: Patterns, rules: seq<Rule>, req: Request, x: (nat, Match))
    requires x in Candidates(ps, rules, req)
    requires forall y :: y in Candidates(ps, rules, req) ==> Taken(x.1, x.0, y.1, y.0)
    ensures Wins(ps, rules, req, x.0)
  {
    var i, m := x.0, x.1;
    assert x == (i, m);
    forall j: nat, m' | Applies(ps, rules, req, j, m') ensures Taken(m, i, m', j) {
      assert (j, m') in Candidates(ps, rules, req);
    }
    assert WinsWith(ps, rules, req, i, m);
  }

  ghost function Candidates(ps: Patterns, rules: seq<Rule>, req: Request): (s: set<(nat, Match)>)
    ensures forall i: nat, m :: (i, m) in s <==> Applies(ps, rules, req, i, m)
    ensures s == {} ==> !Serves(ps, rules, req)
  {
    var s := set i: nat, m | i < |rules| && m in MatchesOf(rules[i]) && Applies(ps, rules, req, i, m) :: (i, m);
    assert forall i: nat, m :: (i, m) in s <==> Applies(ps, rules, req, i, m);
    s
  }

  // ---------------------------------------------------------------- what the Ingress says

  /** What an Ingress path asks of the path of a request, as a match: an empty path everything,
      an exact one its own text, every other type its text as a prefix. */
  function PathMatchOf(p: IngressPath): PathMatch {
    if p.path == "" then PathPrefix("/")
    else
      match p.pathType
      case Some(ExactType) => ExactPath(p.path)
      case _ => PathPrefix(p.path)
  }

  /** The primary backend an Ingress path asks for: its service, with the port number when it is
      positive, a placeholder for a named port, and otherwise none. */
  function PrimaryOf(p: IngressPath): Option<Backend> {
    match p.service
    case None => None
    case Some(Service(name, number, portName)) =>
      Some(Backend(name, if number >= 1 then Some(number) else if portName == "" then None else Some(0), None))
  }

  ghost predicate DistinctPaths(paths: seq<IngressPath>) {
    forall i, j :: 0 <= i < j < |paths| ==> PathMatchOf(paths[i]) != PathMatchOf(paths[j])
  }

  predicate HasCanary(p: IngressPath, entries: map<string, Entry>) {
    p.path in entries && BackendOf(p).Some?
  }

  /** The canary header has the configured pattern, or the configured value, or "always". */
  predicate HeaderAsks(ps: Patterns, c: Config, req: Request) {
    && c.header != "" && c.header in req.headers
    && var v := req.headers[c.header];
       if c.headerPattern != "" then ps.matches(c.headerPattern, v)
       else if c.headerValue != "" then v == c.headerValue
       else v == ALWAYS
  }

  predicate CookieAsks(ps: Patterns, c: Config, req: Request) {
    c.cookie != "" && COOKIE in req.headers && ps.matches(ps.cookiePattern(c.cookie), req.headers[COOKIE])
  }

  /** Where the settings of the path send a request: "never" in the default header mode to
      the primary, then the header, then the cookie to the canary, and everything else split
      by weight. */
  function Specified(ps: Patterns, p: IngressPath, entries: map<string, Entry>, req: Request): seq<Backend> {
    if PrimaryOf(p).None? then []
    else if p.path !in entries then [PrimaryOf(p).value]
    else SpecifiedCanary(ps, PrimaryOf(p).value, entries[p.path], req)
  }

  function SpecifiedCanary(ps: Patterns, primary: Backend, e: Entry, req: Request): seq<Backend> {
    var c := e.config;
    if c.header != "" && c.headerValue == "" && c.headerPattern == "" && Get(req.headers, c.header) == Some(NEVER) then
      [primary]
    else if HeaderAsks(ps, c, req) || CookieAsks(ps, c, req) then
      [e.backend.(weight := None)]
    else
      [primary.(weight := Some(c.weightTotal - c.weight)), e.backend.(weight := Some(c.weight))]
  }

  // ---------------------------------------------------------------- blocks of rules

  /** Index of the first rule of path k. */
  function Start(ps: Patterns, paths: seq<IngressPath>, entries: map<string, Entry>, filters: seq<Filter>, k: nat): nat
    requires k <= |paths|
  {
    |AllRules(ps, paths[..k], entries, filters)|
  }

  lemma {:induction false} BlockAt(ps: Patterns, paths: seq<IngressPath>, entries: map<string, Entry>, filters: seq<Filter>,
                                   k: nat, x: nat)
    requires k < |paths| && x < |PathRules(ps, paths[k], entries, filters)|
    ensures Start(ps, paths, entries, filters, k) + x < |AllRules(ps, paths, entries, filters)|
    ensures AllRules(ps, paths, entries, filters)[Start(ps, paths, entries, filters, k) + x]
         == PathRules(ps, paths[k], entries, filters)[x]
  {
    hide PathRules;
    var n := |paths| - 1;
    if k < n {
      BlockAt(ps, paths[..n], entries, filters, k, x);
      assert paths[..n][..k] == paths[..k];
      assert paths[..n][k] == paths[k];
    } else {
      assert paths[..k] == paths[..n];
    }
  }

  lemma {:induction false} BlockOf(ps: Patterns, paths: seq<IngressPath>, entries: map<string, Entry>, filters: seq<Filter>,
                                   i: nat) returns (k: nat, x: nat)
    requires i < |AllRules(ps, paths, entries, filters)|
    ensures k < |paths| && x < |PathRules(ps, paths[k], entries, filters)|
    ensures i == Start(ps, paths, entries, filters, k) + x
  {
    hide PathRules;
    var n := |paths| - 1;
    var before := |AllRules(ps, paths[..n], entries, filters)|;
    if i < before {
      k, x := BlockOf(ps, paths[..n], entries, filters, i);
      assert paths[..n][..k] == paths[..k];
    } else {
      k, x := n, i - before;
    }
  }

  lemma {:induction false} StartsGrow(ps: Patterns, paths: seq<IngressPath>, entries: map<string, Entry>,
                                      filters: seq<Filter>, j: nat, k: nat)
    requires j < k <= |paths|
    ensures Start(ps, paths, entries, filters, j) + |PathRules(ps, paths[j], entries, filters)|
         <= Start(ps, paths, entries, filters, k)
  {
    hide PathRules;
    assert paths[..k][..k - 1] == paths[..k - 1];
    if j < k - 1 {
      StartsGrow(ps, paths, entries, filters, j, k - 1);
    }
  }

  ghost predicate IsOverride(ps: Patterns, p: IngressPath, entries: map<string, Entry>, r: Rule, x: nat) {
    && HasCanary(p, entries) && x < |Overrides(ps, BackendOf(p).value, entries[p.path])|
    && var o := Overrides(ps, BackendOf(p).value, entries[p.path])[x];
       MatchesOf(r)[0].headers == [o.0] && r.backends == [o.1]
  }

  /** Every rule of a path matches that path, alone or with one header condition. */
  lemma BlockRule(ps: Patterns, p: IngressPath, entries: map<string, Entry>, filters: seq<Filter>, x: nat)
    requires x < |PathRules(ps, p, entries, filters)|
    ensures var block := PathRules(ps, p, entries, filters);
            var last := |block| - 1;
            && |MatchesOf(block[x])| == 1
            && PathOf(MatchesOf(block[x])[0]) == PathMatchOf(p)
            && (x == last ==> MatchesOf(block[x])[0].headers == [])
            && (x < last ==> IsOverride(ps, p, entries, block[x], x))
  {
    if HasCanary(p, entries) {
      var overrides := Overrides(ps, BackendOf(p).value, entries[p.path]);
      if x < |overrides| {
        assert [] + [overrides[x].0] == [overrides[x].0];
      }
    }
  }

  /** Some header or cookie condition of the canary on this path holds. */
  ghost predicate Overridden(ps: Patterns, p: IngressPath, entries: map<string, Entry>, req: Request) {
    && HasCanary(p, entries)
    && exists o :: o in Overrides(ps, BackendOf(p).value, entries[p.path]) && HeaderHolds(ps, o.0, req)
  }

  /** A rule of the block with a header holds exactly for the requests that are overridden. */
  lemma OverriddenRule(ps: Patterns, p: IngressPath, entries: map<string, Entry>, filters: seq<Filter>, req: Request,
                       y: nat)
    requires y < |PathRules(ps, p, entries, filters)|
    ensures var m := MatchesOf(PathRules(ps, p, entries, filters)[y])[0];
            Holds(ps, m, req) && m.headers != [] ==> Overridden(ps, p, entries, req)
  {
    BlockRule(ps, p, entries, filters, y);
    var block := PathRules(ps, p, entries, filters);
    var m := MatchesOf(block[y])[0];
    if Holds(ps, m, req) && m.headers != [] {
      var o := Overrides(ps, BackendOf(p).value, entries[p.path])[y];
      assert o.0 in m.headers;
    }
  }

  lemma OverrideHolds(ps: Patterns, p: IngressPath, entries: map<string, Entry>, filters: seq<Filter>, req: Request)
    returns (y: nat)
    requires Overridden(ps, p, entries, req) && PathHolds(PathMatchOf(p), req.path)
    ensures y < |PathRules(ps, p, entries, filters)|
    ensures var m := MatchesOf(PathRules(ps, p, entries, filters)[y])[0];
            Holds(ps, m, req) && |m.headers| == 1
  {
    var overrides := Overrides(ps, BackendOf(p).value, entries[p.path]);
    var o :| o in overrides && HeaderHolds(ps, o.0, req);
    y :| y < |overrides| && overrides[y] == o;
    BlockRule(ps, p, entries, filters, y);
  }

  ghost predicate BestOfBlock(ps: Patterns, block: seq<Rule>, req: Request, x: nat) {
    && x < |block| && Holds(ps, MatchesOf(block[x])[0], req)
    && forall y: nat :: y < |block| && Holds(ps, MatchesOf(block[y])[0], req) ==>
         Taken(MatchesOf(block[x])[0], x, MatchesOf(block[y])[0], y)
  }

  /** The rule that precedence picks among the rules of one path: the first override whose
      header condition holds, otherwise the last rule. */
  lemma BlockWinner(ps: Patterns, p: IngressPath, entries: map<string, Entry>, filters: seq<Filter>, req: Request)
    returns (x: nat)
    requires PathHolds(PathMatchOf(p), req.path)
    ensures BestOfBlock(ps, PathRules(ps, p, entries, filters), req, x)
    ensures PathRules(ps, p, entries, filters)[x].backends == Specified(ps, p, entries, req)
  {
    var block := PathRules(ps, p, entries, filters);
    var last := |block| - 1;
    forall y: nat | y < |block|
      ensures |MatchesOf(block[y])| == 1 && PathOf(MatchesOf(block[y])[0]) == PathMatchOf(p)
      ensures y == last ==> MatchesOf(block[y])[0].headers == []
      ensures y < last ==> |MatchesOf(block[y])[0].headers| == 1
    {
      BlockRule(ps, p, entries, filters, y);
    }
    x := 0;
    while x < last && !Holds(ps, MatchesOf(block[x])[0], req)
      invariant x <= last
      invariant forall y: nat :: y < x ==> !Holds(ps, MatchesOf(block[y])[0], req)
    {
      x := x + 1;
    }
    WinnerBackends(ps, p, entries, filters, req, x);
  }

  /** Reading off the backends of the first override that holds. */
  lemma WinnerBackends(ps: Patterns, p: IngressPath, entries: map<string, Entry>, filters: seq<Filter>, req: Request, x: nat)
    requires PathHolds(PathMatchOf(p), req.path)
    requires x < |PathRules(ps, p, entries, filters)|
    requires var block := PathRules(ps, p, entries, filters);
             && (x < |block| - 1 ==> Holds(ps, MatchesOf(block[x])[0], req))
             && forall y: nat :: y < x ==> !Holds(ps, MatchesOf(block[y])[0], req)
    ensures PathRules(ps, p, entries, filters)[x].backends == Specified(ps, p, entries, req)
  {
    BlockRule(ps, p, entries, filters, x);
    if HasCanary(p, entries) {
      var block, overrides := PathRules(ps, p, entries, filters), Overrides(ps, BackendOf(p).value, entries[p.path]);
      forall y: nat | y < x ensures !HeaderHolds(ps, overrides[y].0, req) {
        BlockRule(ps, p, entries, filters, y);
        assert !Holds(ps, MatchesOf(block[y])[0], req);
      }
      if x < |overrides| {
        assert overrides[x].0 in MatchesOf(block[x])[0].headers;
      }
      FirstOverride(ps, BackendOf(p).value, entries[p.path], req, x);
      hide PrefixHolds, BuildPathMatch, HeaderHolds, Holds, Overrides, SpecifiedCanary;
    }
  }

  /** The first of the header and cookie conditions that holds decides, else the weights. */
  lemma FirstOverride(ps: Patterns, primary: Backend, e: Entry, req: Request, x: nat)
    requires var os := Overrides(ps, primary, e);
             && x <= |os| && (x < |os| ==> HeaderHolds(ps, os[x].0, req))
             && forall y: nat :: y < x ==> !HeaderHolds(ps, os[y].0, req)
    ensures var os := Overrides(ps, primary, e);
            (if x < |os| then [os[x].1] else WeightedRule([], primary, e, []).backends) == SpecifiedCanary(ps, primary, e, req)
  {
    var os, c := Overrides(ps, primary, e), e.config;
    var never := if c.header != "" && c.headerValue == "" && c.headerPattern == "" then 1 else 0;
    var header := if c.header != "" then 1 else 0;
    if never == 1 { assert os[0].0 == ExactHeader(c.header, NEVER); }
    if c.header != "" { assert os[never].0 == CanaryHeaderMatch(c); }
    if c.cookie != "" { assert os[never + header].0 == RegexHeader(COOKIE, ps.cookiePattern(c.cookie)); }
  }

  // ---------------------------------------------------------------- the main theorem

  /** Two prefixes of the same length that match one path are the same prefix. */
  lemma SameRankSamePath(a: PathMatch, b: PathMatch, path: string)
    requires PathHolds(a, path) && PathHolds(b, path) && !PathBetter(a, b) && !PathBetter(b, a)
    ensures a == b
  {
    if a.PathPrefix? && b.PathPrefix? {
      var v, w := a.value, b.value;
      var n := |v|;
      if n > 0 {
        assert v[..n - 1] == path[..n - 1] == w[..n - 1];
        assert v[n - 1] == w[n - 1];
        assert v == v[..n - 1] + [v[n - 1]] && w == w[..n - 1] + [w[n - 1]];
      }
    }
  }

  /** The canary-free translation serves a request by the rule of path k. */
  ghost predicate PlainlyWins(ps: Patterns, paths: seq<IngressPath>, filters: seq<Filter>, req: Request, k: nat) {
    Wins(ps, AllRules(ps, paths, map[], filters), req, k)
  }

  lemma {:induction false} PlainRules(ps: Patterns, paths: seq<IngressPath>, filters: seq<Filter>, k: nat)
    requires k <= |paths|
    ensures Start(ps, paths, map[], filters, k) == k
    ensures |AllRules(ps, paths, map[], filters)| == |paths|
    ensures k < |paths| ==> AllRules(ps, paths, map[], filters)[k] == PlainRule(paths[k], filters)
    decreases |paths|, k
  {
    var n := |paths| - 1;
    if paths != [] {
      PlainRules(ps, paths[..n], filters, n);
      if k < n {
        PlainRules(ps, paths[..n], filters, k);
        assert paths[..n][..k] == paths[..k];
      } else if k == n {
      } else {
        assert paths[..k] == paths;
      }
    }
  }

  /** Path k is chosen by the canary-free translation: it matches, and every other path that
      matches is less specific, or is a later copy. */
  lemma PlainWinner(ps: Patterns, paths: seq<IngressPath>, filters: seq<Filter>, req: Request, k: nat, j: nat)
    requires PlainlyWins(ps, paths, filters, req, k)
    ensures k < |paths| && PathHolds(PathMatchOf(paths[k]), req.path)
    ensures j < |paths| && PathHolds(PathMatchOf(paths[j]), req.path) ==>
              LessSpecific(PathMatchOf(paths[k]), k, PathMatchOf(paths[j]), j)
  {
    var plain := AllRules(ps, paths, map[], filters);
    var m :| WinsWith(ps, plain, req, k, m);
    PlainRules(ps, paths, filters, 0);
    PlainApplies(ps, paths, filters, req, k, m);
    if j < |paths| && PathHolds(PathMatchOf(paths[j]), req.path) {
      var m' := MatchesOf(PlainRule(paths[j], filters))[0];
      PlainApplies(ps, paths, filters, req, j, m');
      assert Taken(m, k, m', j);
      if !PathBetter(PathMatchOf(paths[k]), PathMatchOf(paths[j])) {
        SameRankSamePath(PathMatchOf(paths[k]), PathMatchOf(paths[j]), req.path);
      }
    }
  }

  predicate LessSpecific(a: PathMatch, k: nat, b: PathMatch, j: nat) {
    PathBetter(a, b) || (a == b && k <= j)
  }

  lemma PlainApplies(ps: Patterns, paths: seq<IngressPath>, filters: seq<Filter>, req: Request, k: nat, m: Match)
    requires k < |paths|
    ensures Applies(ps, AllRules(ps, paths, map[], filters), req, k, m) <==>
              m == MatchesOf(PlainRule(paths[k], filters))[0] && PathHolds(PathMatchOf(paths[k]), req.path)
    ensures PathOf(MatchesOf(PlainRule(paths[k], filters))[0]) == PathMatchOf(paths[k])
    ensures MatchesOf(PlainRule(paths[k], filters))[0].headers == []
  {
    PlainRules(ps, paths, filters, k);
    BlockRule(ps, paths[k], map[], filters, 0);
  }

  /** The request reaches the path only without a canary condition of its own, while a later
      copy of the path, compared as a match, has a condition that holds. */
  ghost predicate TakenOver(ps: Patterns, paths: seq<IngressPath>, entries: map<string, Entry>, req: Request, k: nat)
    requires k < |paths|
  {
    && !Overridden(ps, paths[k], entries, req)
    && exists l :: k < l < |paths| && IsTaker(ps, paths, entries, req, k, l)
  }

  ghost predicate IsTaker(ps: Patterns, paths: seq<IngressPath>, entries: map<string, Entry>, req: Request, k: nat, l: nat)
    requires k < |paths| && l < |paths|
  {
    PathMatchOf(paths[k]) == PathMatchOf(paths[l]) && Overridden(ps, paths[l], entries, req)
  }

  /** Rule x of path k serves the request, and sends it where the canary settings say. */
  ghost predicate ServedBy(ps: Patterns, paths: seq<IngressPath>, entries: map<string, Entry>, filters: seq<Filter>,
                           req: Request, k: nat, x: nat)
    requires k < |paths|
  {
    && x < |PathRules(ps, paths[k], entries, filters)|
    && Wins(ps, AllRules(ps, paths, entries, filters), req, Start(ps, paths, entries, filters, k) + x)
    && PathRules(ps, paths[k], entries, filters)[x].backends == Specified(ps, paths[k], entries, req)
  }

  /** Canary folding preserves meaning, exactly when no copy of the path takes over: for any
      paths and any request, precedence over the compiled rules picks a rule of the same path
      as the canary-free translation, and that rule sends the request exactly where the canary
      settings say. */
  lemma FoldingPreservesMeaning(ps: Patterns, paths: seq<IngressPath>, entries: map<string, Entry>, filters: seq<Filter>,
                                req: Request, k: nat)
    requires PlainlyWins(ps, paths, filters, req, k)
    ensures k < |paths|
    ensures (exists x: nat :: ServedBy(ps, paths, entries, filters, req, k, x)) <==> !TakenOver(ps, paths, entries, req, k)
  {
    hide PathRules, AllRules, Start, Holds, Wins, TakenOver;
    PlainWinner(ps, paths, filters, req, k, k);
    if TakenOver(ps, paths, entries, req, k) {
      forall x: nat | x < |PathRules(ps, paths[k], entries, filters)|
        ensures !ServedBy(ps, paths, entries, filters, req, k, x)
      {
        TakerWins(ps, paths, entries, filters, req, k, x);
      }
    } else {
      var x := BlockWinner(ps, paths[k], entries, filters, req);
      FoldedWinner(ps, paths, entries, filters, req, k, x);
      assert ServedBy(ps, paths, entries, filters, req, k, x);
    }
  }

  /** Nothing takes over when the paths of the Ingress are distinct matches; nor when copies
      have the same text and all have a backend, as when hosts share a path, because they
      share the canary entry too. */
  lemma NobodyTakesOver(ps: Patterns, paths: seq<IngressPath>, entries: map<string, Entry>, req: Request, k: nat)
    requires k < |paths|
    requires DistinctPaths(paths) || CopiesShareText(paths)
    ensures !TakenOver(ps, paths, entries, req, k)
  {
    if !Overridden(ps, paths[k], entries, req) {
      forall l | k < l < |paths| ensures !IsTaker(ps, paths, entries, req, k, l) {
        if IsTaker(ps, paths, entries, req, k, l) {
          assert CopiesShareText(paths);
          SameConditions(ps, paths[l], paths[k], entries, req);
        }
      }
    }
  }

  ghost predicate CopiesShareText(paths: seq<IngressPath>) {
    forall i, j :: 0 <= i < j < |paths| && PathMatchOf(paths[i]) == PathMatchOf(paths[j]) ==>
      paths[i].path == paths[j].path && paths[i].service.Some?
  }

  lemma SameConditions(ps: Patterns, p: IngressPath, q: IngressPath, entries: map<string, Entry>, req: Request)
    requires p.path == q.path && q.service.Some? && Overridden(ps, p, entries, req)
    ensures Overridden(ps, q, entries, req)
  {
    var e := entries[p.path];
    var ours, theirs := Overrides(ps, BackendOf(p).value, e), Overrides(ps, BackendOf(q).value, e);
    var o :| o in ours && HeaderHolds(ps, o.0, req);
    var i :| 0 <= i < |ours| && ours[i] == o;
    assert theirs[i] in theirs && theirs[i].0 == o.0;
  }

  /** The overridden copy beats every rule of path k. */
  lemma TakerWins(ps: Patterns, paths: seq<IngressPath>, entries: map<string, Entry>, filters: seq<Filter>,
                  req: Request, k: nat, x: nat)
    requires k < |paths| && PathHolds(PathMatchOf(paths[k]), req.path) && TakenOver(ps, paths, entries, req, k)
    requires x < |PathRules(ps, paths[k], entries, filters)|
    ensures !Wins(ps, AllRules(ps, paths, entries, filters), req, Start(ps, paths, entries, filters, k) + x)
  {
    hide PathRules, AllRules, Start, Holds, Overridden;
    var rules, i := AllRules(ps, paths, entries, filters), Start(ps, paths, entries, filters, k) + x;
    var l :| k < l < |paths| && IsTaker(ps, paths, entries, req, k, l);
    var y := OverrideHolds(ps, paths[l], entries, filters, req);
    var m', j := MatchesOf(PathRules(ps, paths[l], entries, filters)[y])[0], Start(ps, paths, entries, filters, l) + y;
    BlockApplies(ps, paths, entries, filters, req, l, y, m');
    BlockRule(ps, paths[l], entries, filters, y);
    BlockRule(ps, paths[k], entries, filters, x);
    if Wins(ps, rules, req, i) {
      var m :| WinsWith(ps, rules, req, i, m);
      BlockApplies(ps, paths, entries, filters, req, k, x, m);
      OverriddenRule(ps, paths[k], entries, filters, req, x);
    }
  }

  lemma FoldedWinner(ps: Patterns, paths: seq<IngressPath>, entries: map<string, Entry>, filters: seq<Filter>,
                     req: Request, k: nat, x: nat)
    requires PlainlyWins(ps, paths, filters, req, k)
    requires k < |paths| && !TakenOver(ps, paths, entries, req, k)
    requires BestOfBlock(ps, PathRules(ps, paths[k], entries, filters), req, x)
    ensures Wins(ps, AllRules(ps, paths, entries, filters), req, Start(ps, paths, entries, filters, k) + x)
  {
    hide PathRules, AllRules, Start, Holds, Overridden;
    var rules, i := AllRules(ps, paths, entries, filters), Start(ps, paths, entries, filters, k) + x;
    var m := MatchesOf(PathRules(ps, paths[k], entries, filters)[x])[0];
    BestApplies(ps, paths, entries, filters, req, k, x);
    if !Wins(ps, rules, req, i) {
      var j, m' := BetterRival(ps, rules, req, i, m);
      AnyRivalIsWorse(ps, paths, entries, filters, req, k, x, j, m');
    }
  }

  lemma BestApplies(ps: Patterns, paths: seq<IngressPath>, entries: map<string, Entry>, filters: seq<Filter>,
                    req: Request, k: nat, x: nat)
    requires k < |paths| && BestOfBlock(ps, PathRules(ps, paths[k], entries, filters), req, x)
    ensures Applies(ps, AllRules(ps, paths, entries, filters), req, Start(ps, paths, entries, filters, k) + x,
                    MatchesOf(PathRules(ps, paths[k], entries, filters)[x])[0])
  {
    BlockApplies(ps, paths, entries, filters, req, k, x, MatchesOf(PathRules(ps, paths[k], entries, filters)[x])[0]);
  }

  lemma AnyRivalIsWorse(ps: Patterns, paths: seq<IngressPath>, entries: map<string, Entry>, filters: seq<Filter>,
                        req: Request, k: nat, x: nat, j: nat, m': Match)
    requires PlainlyWins(ps, paths, filters, req, k)
    requires k < |paths| && !TakenOver(ps, paths, entries, req, k)
    requires BestOfBlock(ps, PathRules(ps, paths[k], entries, filters), req, x)
    requires Applies(ps, AllRules(ps, paths, entries, filters), req, j, m')
    ensures Taken(MatchesOf(PathRules(ps, paths[k], entries, filters)[x])[0], Start(ps, paths, entries, filters, k) + x, m', j)
  {
    var l, y := BlockOf(ps, paths, entries, filters, j);
    RivalIsWorse(ps, paths, entries, filters, req, k, x, l, y, m');
  }

  /** The winner x of block k is taken over every match y that holds, in its own block and in
      the block of any other path l. */
  lemma RivalIsWorse(ps: Patterns, paths: seq<IngressPath>, entries: map<string, Entry>, filters: seq<Filter>,
                     req: Request, k: nat, x: nat, l: nat, y: nat, m': Match)
    requires PlainlyWins(ps, paths, filters, req, k)
    requires k < |paths| && !TakenOver(ps, paths, entries, req, k)
    requires BestOfBlock(ps, PathRules(ps, paths[k], entries, filters), req, x)
    requires l < |paths| && y < |PathRules(ps, paths[l], entries, filters)|
    requires Applies(ps, AllRules(ps, paths, entries, filters), req, Start(ps, paths, entries, filters, l) + y, m')
    ensures Taken(MatchesOf(PathRules(ps, paths[k], entries, filters)[x])[0], Start(ps, paths, entries, filters, k) + x,
                  m', Start(ps, paths, entries, filters, l) + y)
  {
    BlockApplies(ps, paths, entries, filters, req, l, y, m');
    BlockRule(ps, paths[l], entries, filters, y);
    BlockRule(ps, paths[k], entries, filters, x);
    PlainWinner(ps, paths, filters, req, k, l);
    if l != k && PathMatchOf(paths[l]) == PathMatchOf(paths[k]) {
      StartsGrow(ps, paths, entries, filters, k, l);
      if m'.headers != [] {
        OverriddenRule(ps, paths[l], entries, filters, req, y);
        assert IsTaker(ps, paths, entries, req, k, l);
        var z := OverrideHolds(ps, paths[k], entries, filters, req);
        assert Taken(MatchesOf(PathRules(ps, paths[k], entries, filters)[x])[0], x,
                     MatchesOf(PathRules(ps, paths[k], entries, filters)[z])[0], z);
        BlockRule(ps, paths[k], entries, filters, z);
      }
    }
  }

  /** Rule x of path l applies iff its only match holds, which needs the path to match. */
  lemma BlockApplies(ps: Patterns, paths: seq<IngressPath>, entries: map<string, Entry>, filters: seq<Filter>,
                     req: Request, l: nat, x: nat, m: Match)
    requires l < |paths| && x < |PathRules(ps, paths[l], entries, filters)|
    ensures Applies(ps, AllRules(ps, paths, entries, filters), req, Start(ps, paths, entries, filters, l) + x, m) <==>
              m == MatchesOf(PathRules(ps, paths[l], entries, filters)[x])[0] && Holds(ps, m, req)
    ensures Holds(ps, MatchesOf(PathRules(ps, paths[l], entries, filters)[x])[0], req) ==>
              PathHolds(PathMatchOf(paths[l]), req.path)
  {
    BlockAt(ps, paths, entries, filters, l, x);
    BlockRule(ps, paths[l], entries, filters, x);
  }

  /** Nothing else is served: a request that no path matches gets no rule either way. */
  lemma FoldingServesTheSame(ps: Patterns, paths: seq<IngressPath>, entries: map<string, Entry>, filters: seq<Filter>,
                             req: Request)
    ensures Serves(ps, AllRules(ps, paths, entries, filters), req) <==> Serves(ps, AllRules(ps, paths, map[], filters), req)
  {
    ServedIffPathMatches(ps, paths, entries, filters, req);
    ServedIffPathMatches(ps, paths, map[], filters, req);
  }

  lemma ServedIffPathMatches(ps: Patterns, paths: seq<IngressPath>, entries: map<string, Entry>, filters: seq<Filter>,
                             req: Request)
    ensures Serves(ps, AllRules(ps, paths, entries, filters), req) <==>
              exists k: nat :: k < |paths| && PathHolds(PathMatchOf(paths[k]), req.path)
  {
    hide PathRules, AllRules, Start;
    var rules := AllRules(ps, paths, entries, filters);
    if Serves(ps, rules, req) {
      var i: nat, m :| Applies(ps, rules, req, i, m);
      var k, x := BlockOf(ps, paths, entries, filters, i);
      BlockApplies(ps, paths, entries, filters, req, k, x, m);
    }
    if k: nat :| k < |paths| && PathHolds(PathMatchOf(paths[k]), req.path) {
      var block := PathRules(ps, paths[k], entries, filters);
      var x := |block| - 1;
      BlockRule(ps, paths[k], entries, filters, x);
      BlockApplies(ps, paths, entries, filters, req, k, x, MatchesOf(block[x])[0]);
      assert MatchesOf(block[x])[0].headers == [];
    }
  }

  /** Distinctness of the path matches is needed: an empty path and "/" both mean the prefix
      "/". Without canaries the empty path, being first, serves a request; a header canary on
      "/" takes it over. */
  lemma EmptyAndSlashCollide(ps: Patterns)
    ensures var empty := IngressPath("", None, Some(Service("a", 80, "")));
            var slash := IngressPath("/", None, Some(Service("b", 80, "")));
            var canary := Entry(Config(0, 100, "X", "", "", ""), Backend("c", Some(80), None));
            var req := Request("/", map["X" := ALWAYS]);
            && PathMatchOf(empty) == PathMatchOf(slash)
            && PlainlyWins(ps, [empty, slash], [], req, 0)
            && Wins(ps, AllRules(ps, [empty, slash], map["/" := canary], []), req, 2)
  {
    var empty := IngressPath("", None, Some(Service("a", 80, "")));
    var slash := IngressPath("/", None, Some(Service("b", 80, "")));
    var canary := Entry(Config(0, 100, "X", "", "", ""), Backend("c", Some(80), None));
    var entries, req := map["/" := canary], Request("/", map["X" := ALWAYS]);
    CollidingPlain(ps, empty, slash, req);
    CollidingFolded(ps, empty, slash, entries, req);
  }

  lemma CollidingFolded(ps: Patterns, empty: IngressPath, slash: IngressPath, entries: map<string, Entry>, req: Request)
    requires empty == IngressPath("", None, Some(Service("a", 80, "")))
    requires slash == IngressPath("/", None, Some(Service("b", 80, "")))
    requires entries == map["/" := Entry(Config(0, 100, "X", "", "", ""), Backend("c", Some(80), None))]
    requires req == Request("/", map["X" := ALWAYS])
    ensures Wins(ps, AllRules(ps, [empty, slash], entries, []), req, 2)
  {
    hide AllRules;
    var rules := AllRules(ps, [empty, slash], entries, []);
    var base := Match(Some(PathPrefix("/")), []);
    var m, never := base.(headers := [ExactHeader("X", ALWAYS)]), base.(headers := [ExactHeader("X", NEVER)]);
    CollidingRules(ps, empty, slash, entries, m, never);
    assert m.headers == [ExactHeader("X", ALWAYS)] && HeaderHolds(ps, ExactHeader("X", ALWAYS), req);
    assert Applies(ps, rules, req, 2, m);
    forall j: nat, m' | Applies(ps, rules, req, j, m') ensures Taken(m, 2, m', j) {
      assert !Holds(ps, never, req) by { assert ExactHeader("X", NEVER) in never.headers; }
      assert m' == m || m'.headers == [];
    }
    assert WinsWith(ps, rules, req, 2, m);
  }

  lemma CollidingRules(ps: Patterns, empty: IngressPath, slash: IngressPath, entries: map<string, Entry>, m: Match, never: Match)
    requires empty == IngressPath("", None, Some(Service("a", 80, "")))
    requires slash == IngressPath("/", None, Some(Service("b", 80, "")))
    requires entries == map["/" := Entry(Config(0, 100, "X", "", "", ""), Backend("c", Some(80), None))]
    requires m == Match(Some(PathPrefix("/")), [ExactHeader("X", ALWAYS)])
    requires never == Match(Some(PathPrefix("/")), [ExactHeader("X", NEVER)])
    ensures var rules := AllRules(ps, [empty, slash], entries, []);
            && |rules| == 4 && MatchesOf(rules[0]) == [Match(None, [])] && MatchesOf(rules[1]) == [never]
            && MatchesOf(rules[2]) == [m] && MatchesOf(rules[3]) == [Match(Some(PathPrefix("/")), [])]
  {
    assert AllRules(ps, [], entries, []) == [];
    assert [] + [empty] == [empty] && [empty] + [slash] == [empty, slash];
    AllRulesNext(ps, [], entries, [], empty);
    AllRulesNext(ps, [empty], entries, [], slash);
    var primary, canary := Backend("b", Some(80), None), entries["/"];
    assert Overrides(ps, primary, canary) == [(ExactHeader("X", NEVER), primary), (ExactHeader("X", ALWAYS), canary.backend)];
    assert [] + [ExactHeader("X", NEVER)] == [ExactHeader("X", NEVER)];
    assert [] + [ExactHeader("X", ALWAYS)] == [ExactHeader("X", ALWAYS)];
    assert AllRules(ps, [empty, slash], entries, []) == [PlainRule(empty, [])] + PathRules(ps, slash, entries, []);
  }

  lemma CollidingPlain(ps: Patterns, empty: IngressPath, slash: IngressPath, req: Request)
    requires empty.path == "" && slash.path == "/" && slash.pathType.None? && req.path == "/"
    ensures PathMatchOf(empty) == PathMatchOf(slash) == PathPrefix("/")
    ensures PlainlyWins(ps, [empty, slash], [], req, 0)
  {
    PlainRules(ps, [empty, slash], [], 0);
    PlainApplies(ps, [empty, slash], [], req, 0, Match(None, []));
    forall j: nat, m' | Applies(ps, AllRules(ps, [empty, slash], map[], []), req, j, m') ensures Taken(Match(None, []), 0, m', j) {
      PlainApplies(ps, [empty, slash], [], req, j, m');
    }
    assert WinsWith(ps, AllRules(ps, [empty, slash], map[], []), req, 0, Match(None, []));
  }
}
