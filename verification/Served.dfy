/** Which request goes where, in terms of the Ingress's own fields: what the compiled rules
    promise to somebody who has not seen how they are compiled. */
module Served {
  import opened Options
  import opened HttpRoutes
  import opened Canary
  import opened Routing
  import Text

  // ---------------------------------------------------------------- what a path asks for

  predicate IsExact(p: IngressPath) {
    p.path != "" && p.pathType == Some(ExactType)
  }

  /** The path takes the request: an empty one every request, an exact one its own path, any
      other the paths it is a prefix of. */
  predicate Asks(p: IngressPath, path: RequestPath) {
    if p.path == "" then true
    else if p.pathType == Some(ExactType) then path == p.path
    else PrefixHolds(p.path, path)
  }

  /** The empty path counts as the prefix "/". */
  function PrefixLength(p: IngressPath): nat {
    if p.path == "" then 1 else |p.path|
  }

  /** An exact path is more specific than a prefix, and a longer prefix than a shorter one. */
  predicate MoreSpecific(p: IngressPath, q: IngressPath) {
    if IsExact(p) then !IsExact(q) else !IsExact(q) && PrefixLength(p) > PrefixLength(q)
  }

  /** Path k is the first of the most specific paths that take the request. */
  ghost predicate Chosen(paths: seq<IngressPath>, path: RequestPath, k: nat) {
    && k < |paths| && Asks(paths[k], path)
    && forall j :: 0 <= j < |paths| && Asks(paths[j], path) ==>
         !MoreSpecific(paths[j], paths[k]) && (j < k ==> MoreSpecific(paths[k], paths[j]))
  }

  lemma AsksIsMatch(p: IngressPath, path: RequestPath)
    ensures Asks(p, path) <==> PathHolds(PathMatchOf(p), path)
  {
    assert PrefixHolds("/", path) by { assert "/"[..0] == ""; }
  }

  lemma SpecificIsBetter(p: IngressPath, q: IngressPath)
    ensures MoreSpecific(p, q) <==> PathBetter(PathMatchOf(p), PathMatchOf(q))
  {
  }

  /** The compiled rules serve a request if and only if some path takes it. */
  lemma ServedExactly(ps: Patterns, paths: seq<IngressPath>, entries: map<string, Entry>, filters: seq<Filter>, req: Request)
    ensures Serves(ps, AllRules(ps, paths, entries, filters), req) <==> exists p :: p in paths && Asks(p, req.path)
  {
    ServedIffPathMatches(ps, paths, entries, filters, req);
    forall k | 0 <= k < |paths| ensures Asks(paths[k], req.path) <==> PathHolds(PathMatchOf(paths[k]), req.path) {
      AsksIsMatch(paths[k], req.path);
    }
    hide Serves, AllRules, Asks;
  }

  /** Without canaries rule k serves the request if and only if path k is the chosen one. */
  lemma PlainlyChosen(ps: Patterns, paths: seq<IngressPath>, filters: seq<Filter>, req: Request, k: nat)
    ensures PlainlyWins(ps, paths, filters, req, k) <==> Chosen(paths, req.path, k)
  {
    if PlainlyWins(ps, paths, filters, req, k) {
      WinnerIsChosen(ps, paths, filters, req, k);
    }
    if Chosen(paths, req.path, k) {
      AsksIsMatch(paths[k], req.path);
      ServedIffPathMatches(ps, paths, map[], filters, req);
      SomeRuleWins(ps, AllRules(ps, paths, map[], filters), req);
      var i: nat :| Wins(ps, AllRules(ps, paths, map[], filters), req, i);
      WinnerIsChosen(ps, paths, filters, req, i);
      ChosenIsUnique(paths, req.path, i, k);
    }
  }

  lemma WinnerIsChosen(ps: Patterns, paths: seq<IngressPath>, filters: seq<Filter>, req: Request, k: nat)
    requires PlainlyWins(ps, paths, filters, req, k)
    ensures Chosen(paths, req.path, k)
  {
    hide PathMatchOf, PlainlyWins, IsExact, MoreSpecific, Asks;
    PlainWinner(ps, paths, filters, req, k, k);
    AsksIsMatch(paths[k], req.path);
    forall j | 0 <= j < |paths| && Asks(paths[j], req.path)
      ensures !MoreSpecific(paths[j], paths[k]) && (j < k ==> MoreSpecific(paths[k], paths[j]))
    {
      AsksIsMatch(paths[j], req.path);
      PlainWinner(ps, paths, filters, req, k, j);
      SpecificIsBetter(paths[k], paths[j]);
      SpecificIsBetter(paths[j], paths[k]);
    }
  }

  lemma ChosenIsUnique(paths: seq<IngressPath>, path: RequestPath, i: nat, k: nat)
    requires Chosen(paths, path, i) && Chosen(paths, path, k)
    ensures i == k
  {
  }

  // ---------------------------------------------------------------- canaries

  /** The same as a match: both exact with one text, or both prefixes with one text, where the
      empty path is the prefix "/". */
  predicate SameAsk(p: IngressPath, q: IngressPath) {
    IsExact(p) == IsExact(q) && (if p.path == "" then "/" else p.path) == (if q.path == "" then "/" else q.path)
  }

  /** The canary on this path, if it has one and a backend to split with, asks for the request
      by header or cookie, or sends it to the primary by "never". */
  ghost predicate Steers(ps: Patterns, p: IngressPath, entries: map<string, Entry>, req: Request) {
    && p.path in entries && p.service.Some?
    && var c := entries[p.path].config;
       || (c.header != "" && c.headerValue == "" && c.headerPattern == "" && Get(req.headers, c.header) == Some(NEVER))
       || HeaderAsks(ps, c, req) || CookieAsks(ps, c, req)
  }

  /** A later copy of the chosen path steers a request that the chosen path does not. */
  ghost predicate Stolen(ps: Patterns, paths: seq<IngressPath>, entries: map<string, Entry>, req: Request, k: nat)
    requires k < |paths|
  {
    && !Steers(ps, paths[k], entries, req)
    && exists l :: k < l < |paths| && SameAsk(paths[k], paths[l]) && Steers(ps, paths[l], entries, req)
  }

  lemma SteersIsOverridden(ps: Patterns, p: IngressPath, entries: map<string, Entry>, req: Request)
    ensures Steers(ps, p, entries, req) <==> Overridden(ps, p, entries, req)
  {
    if HasCanary(p, entries) {
      var e := entries[p.path];
      var c := e.config;
      var os := Overrides(ps, BackendOf(p).value, e);
      var never := if c.header != "" && c.headerValue == "" && c.headerPattern == "" then 1 else 0;
      var header := if c.header != "" then 1 else 0;
      if never == 1 { assert os[0].0 == ExactHeader(c.header, NEVER); }
      if c.header != "" { assert os[never].0 == CanaryHeaderMatch(c); }
      if c.cookie != "" { assert os[never + header].0 == RegexHeader(COOKIE, ps.cookiePattern(c.cookie)); }
    }
  }

  lemma StolenIsTakenOver(ps: Patterns, paths: seq<IngressPath>, entries: map<string, Entry>, req: Request, k: nat)
    requires k < |paths|
    ensures Stolen(ps, paths, entries, req, k) <==> TakenOver(ps, paths, entries, req, k)
  {
    forall l | k <= l < |paths| ensures Steers(ps, paths[l], entries, req) <==> Overridden(ps, paths[l], entries, req)
      ensures SameAsk(paths[k], paths[l]) <==> PathMatchOf(paths[k]) == PathMatchOf(paths[l])
    {
      SteersIsOverridden(ps, paths[l], entries, req);
    }
    hide Steers, Overridden, SameAsk, PathMatchOf;
    if TakenOver(ps, paths, entries, req, k) {
      var l :| k < l < |paths| && IsTaker(ps, paths, entries, req, k, l);
      assert SameAsk(paths[k], paths[l]);
    }
    if Stolen(ps, paths, entries, req, k) {
      var l :| k < l < |paths| && SameAsk(paths[k], paths[l]) && Steers(ps, paths[l], entries, req);
      assert IsTaker(ps, paths, entries, req, k, l);
    }
  }

  /** Every compiled rule carries the filters of the Ingress. */
  lemma {:induction false} RulesCarryFilters(ps: Patterns, paths: seq<IngressPath>, entries: map<string, Entry>, filters: seq<Filter>)
    ensures forall r :: r in AllRules(ps, paths, entries, filters) ==> r.filters == filters
  {
    if paths != [] {
      RulesCarryFilters(ps, paths[..|paths| - 1], entries, filters);
      PathRulesCarryFilters(ps, paths[|paths| - 1], entries, filters);
      hide PathRules;
    }
  }

  lemma PathRulesCarryFilters(ps: Patterns, p: IngressPath, entries: map<string, Entry>, filters: seq<Filter>)
    ensures forall r :: r in PathRules(ps, p, entries, filters) ==> r.filters == filters
  {
  }

  /** Where a request goes. It goes where its chosen path and the canary settings for that path
      say, with the filters of the Ingress, unless a later copy of the path steals it. */
  lemma RequestGoesWhereAsked(ps: Patterns, paths: seq<IngressPath>, entries: map<string, Entry>, filters: seq<Filter>,
                              req: Request, k: nat) returns (i: nat)
    requires Chosen(paths, req.path, k) && !Stolen(ps, paths, entries, req, k)
    ensures var rules := AllRules(ps, paths, entries, filters);
            && i < |rules| && Wins(ps, rules, req, i)
            && rules[i].backends == Specified(ps, paths[k], entries, req) && rules[i].filters == filters
  {
    PlainlyChosen(ps, paths, filters, req, k);
    StolenIsTakenOver(ps, paths, entries, req, k);
    FoldingPreservesMeaning(ps, paths, entries, filters, req, k);
    hide Stolen, TakenOver, Chosen, Specified, PathRules, AllRules, Wins, Start, ServedBy;
    var x: nat :| ServedBy(ps, paths, entries, filters, req, k, x);
    i := ServedRule(ps, paths, entries, filters, req, k, x);
  }

  /** And only then: some rule of the chosen path serves the request as its settings say if and
      only if no later copy of the path steals it. */
  lemma FoldingExactly(ps: Patterns, paths: seq<IngressPath>, entries: map<string, Entry>, filters: seq<Filter>,
                       req: Request, k: nat)
    requires Chosen(paths, req.path, k)
    ensures (exists x: nat :: ServedBy(ps, paths, entries, filters, req, k, x)) <==> !Stolen(ps, paths, entries, req, k)
  {
    PlainlyChosen(ps, paths, filters, req, k);
    StolenIsTakenOver(ps, paths, entries, req, k);
    FoldingPreservesMeaning(ps, paths, entries, filters, req, k);
    hide Stolen, TakenOver, Chosen, ServedBy;
  }

  lemma ServedRule(ps: Patterns, paths: seq<IngressPath>, entries: map<string, Entry>, filters: seq<Filter>,
                   req: Request, k: nat, x: nat) returns (i: nat)
    requires k < |paths| && ServedBy(ps, paths, entries, filters, req, k, x)
    ensures var rules := AllRules(ps, paths, entries, filters);
            && i < |rules| && Wins(ps, rules, req, i)
            && rules[i].backends == Specified(ps, paths[k], entries, req) && rules[i].filters == filters
  {
    hide Specified, PathRules, AllRules, Wins;
    i := Start(ps, paths, entries, filters, k) + x;
    BlockAt(ps, paths, entries, filters, k, x);
    RulesCarryFilters(ps, paths, entries, filters);
  }

  /** A request has a chosen path if and only if some path takes it. */
  lemma SomePathIsChosen(paths: seq<IngressPath>, path: RequestPath)
    ensures (exists k :: Chosen(paths, path, k)) <==> exists p :: p in paths && Asks(p, path)
  {
    if p :| p in paths && Asks(p, path) {
      var ps, req := Patterns((a, b) => false, s => s), Request(path, map[]);
      ServedExactly(ps, paths, map[], [], req);
      SomeRuleWins(ps, AllRules(ps, paths, map[], []), req);
      var i: nat :| Wins(ps, AllRules(ps, paths, map[], []), req, i);
      WinnerIsChosen(ps, paths, [], req, i);
    }
  }

  /** A path without a value gets a rule without matches. */
  lemma EmptyPathHasNoMatch(ps: Patterns, p: IngressPath, entries: map<string, Entry>, filters: seq<Filter>)
    requires p.path == ""
    ensures var rules := PathRules(ps, p, entries, filters);
            rules[|rules| - 1].matches == []
  {
  }

  // ---------------------------------------------------------------- the canary settings

  /** The annotation is absent or empty, or a 32-bit number of at least `least`. */
  predicate IsNumber(raw: string, least: int) {
    raw == "" || exists n :: least <= n <= MAX_INT32 && Text.ParseInt(raw, MIN_INT32, MAX_INT32) == Some(n)
  }

  function NumberOr(raw: string, default: int): int {
    var n := Text.ParseInt(raw, MIN_INT32, MAX_INT32);
    if raw == "" || n.None? then default else n.value
  }

  /** A configuration is accepted exactly when the weights are numbers, not negative and of a
      positive total, and the weight is within the total. Everything it says is in the
      annotations of its own name. */
  lemma ConfigMeaning(a: Annotations)
    ensures ConfigOf(a).Some? <==>
              var weight, total := Annotation(a, CANARY_WEIGHT), Annotation(a, CANARY_WEIGHT_TOTAL);
              IsNumber(weight, 0) && IsNumber(total, 1) && NumberOr(weight, 0) <= NumberOr(total, 100)
    ensures var c, weight, total := ConfigOf(a), Annotation(a, CANARY_WEIGHT), Annotation(a, CANARY_WEIGHT_TOTAL);
            c.Some? ==>
              && c.value.header == Annotation(a, CANARY_BY_HEADER)
              && c.value.headerValue == Annotation(a, CANARY_BY_HEADER_VALUE)
              && c.value.headerPattern == Annotation(a, CANARY_BY_HEADER_PATTERN)
              && c.value.cookie == Annotation(a, CANARY_BY_COOKIE)
              && (weight == "" ==> c.value.weight == 0) && (total == "" ==> c.value.weightTotal == 100)
              && (weight != "" ==> Text.ParseInt(weight, MIN_INT32, MAX_INT32) == Some(c.value.weight))
              && (total != "" ==> Text.ParseInt(total, MIN_INT32, MAX_INT32) == Some(c.value.weightTotal))
  {
    hide Text.ParseInt;
  }

  /** The path offers its backend for its own text. */
  ghost predicate OfferOf(paths: seq<IngressPath>, c: Config, o: Offer) {
    exists p :: p in paths && PrimaryOf(p) == Some(o.1.backend) && o.0 == p.path && o.1.config == c
  }

  lemma {:induction false} PathOffersMeaning(paths: seq<IngressPath>, c: Config, o: Offer)
    ensures o in PathOffers(paths, c) <==> OfferOf(paths, c, o)
  {
    if paths != [] {
      var n := |paths| - 1;
      PathOffersMeaning(paths[..n], c, o);
      assert forall p :: p in paths <==> p in paths[..n] || p == paths[n];
      assert BackendOf(paths[n]) == PrimaryOf(paths[n]);
      hide BackendOf, PrimaryOf;
    }
  }

  lemma {:induction false} RuleOffersMeaning(rules: seq<IngressRule>, c: Config, o: Offer)
    ensures o in RuleOffers(rules, c) <==> exists r :: r in rules && r.paths.Some? && OfferOf(r.paths.value, c, o)
  {
    hide OfferOf, PathOffers;
    if rules != [] {
      var n := |rules| - 1;
      RuleOffersMeaning(rules[..n], c, o);
      assert forall r :: r in rules <==> r in rules[..n] || r == rules[n];
      if rules[n].paths.Some? { PathOffersMeaning(rules[n].paths.value, c, o); }
    }
  }

  /** What is offered: by every canary Ingress whose settings are valid, the backend of each of
      its paths that has one, for the text of that path. */
  lemma {:induction false} OffersMeaning(cs: seq<CanaryIngress>, o: Offer)
    ensures o in Offers(cs) <==>
              exists c, r :: c in cs && r in c.rules && r.paths.Some? && ConfigOf(c.annotations).Some?
                && OfferOf(r.paths.value, ConfigOf(c.annotations).value, o)
  {
    hide OfferOf, ConfigOf, RuleOffers;
    if cs != [] {
      var n := |cs| - 1;
      OffersMeaning(cs[..n], o);
      assert forall c :: c in cs <==> c in cs[..n] || c == cs[n];
      if ConfigOf(cs[n].annotations).Some? { RuleOffersMeaning(cs[n].rules, ConfigOf(cs[n].annotations).value, o); }
    }
  }
}
