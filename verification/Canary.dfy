/** Translation of Ingress paths to HTTPRoute rules, folding in ingress-nginx canaries. */
module Canary {
  import opened Options
  import opened Text
  import opened HttpRoutes

  const CANARY_WEIGHT := "nginx.ingress.kubernetes.io/canary-weight"
  const CANARY_WEIGHT_TOTAL := "nginx.ingress.kubernetes.io/canary-weight-total"
  const CANARY_BY_HEADER := "nginx.ingress.kubernetes.io/canary-by-header"
  const CANARY_BY_HEADER_VALUE := "nginx.ingress.kubernetes.io/canary-by-header-value"
  const CANARY_BY_HEADER_PATTERN := "nginx.ingress.kubernetes.io/canary-by-header-pattern"
  const CANARY_BY_COOKIE := "nginx.ingress.kubernetes.io/canary-by-cookie"
  const ALWAYS := "always"
  const NEVER := "never"
  const COOKIE := "Cookie"
  const MIN_INT32 := -0x8000_0000
  const MAX_INT32 := 0x7FFF_FFFF

  datatype Config = Config(
    weight: int, weightTotal: int, header: string, headerValue: string, headerPattern: string, cookie: string)
  datatype Entry = Entry(config: Config, backend: Backend)

  // ---------------------------------------------------------------- configuration

  /** The number an optional annotation holds; None when it is not an int32 of at least `least`. */
  function Number(raw: string, default: int, least: int): Option<int> {
    if raw == "" then Some(default)
    else
      var n := ParseInt(raw, MIN_INT32, MAX_INT32);
      if n.None? || n.value < least then None else n
  }

  /** The configuration of a canary Ingress, None when ParseCanaryConfig reports an error. */
  function ConfigOf(a: Annotations): (c: Option<Config>)
    ensures c.Some? ==> 0 <= c.value.weight <= c.value.weightTotal <= MAX_INT32 && 0 < c.value.weightTotal
  {
    var weight := Number(Annotation(a, CANARY_WEIGHT), 0, 0);
    var total := Number(Annotation(a, CANARY_WEIGHT_TOTAL), 100, 1);
    if weight.None? || total.None? || weight.value > total.value then None
    else Some(Config(weight.value, total.value, Annotation(a, CANARY_BY_HEADER), Annotation(a, CANARY_BY_HEADER_VALUE),
                     Annotation(a, CANARY_BY_HEADER_PATTERN), Annotation(a, CANARY_BY_COOKIE)))
  }

  method ParseCanaryConfig(a: Annotations) returns (config: Config, ok: bool)
    ensures ok == ConfigOf(a).Some?
    ensures ok ==> config == ConfigOf(a).value
  {
    config := Config(0, 100, "", "", "", "");
    var raw := Annotation(a, CANARY_WEIGHT);
    if raw != "" {
      var weight := ParseInt(raw, MIN_INT32, MAX_INT32);
      if weight.None? || weight.value < 0 {
        return config, false;
      }
      config := config.(weight := weight.value);
    }
    raw := Annotation(a, CANARY_WEIGHT_TOTAL);
    if raw != "" {
      var total := ParseInt(raw, MIN_INT32, MAX_INT32);
      if total.None? || total.value <= 0 {
        return config, false;
      }
      config := config.(weightTotal := total.value);
    }
    if config.weight > config.weightTotal {
      return config, false;
    }
    config := config.(header := Annotation(a, CANARY_BY_HEADER));
    config := config.(headerValue := Annotation(a, CANARY_BY_HEADER_VALUE));
    config := config.(headerPattern := Annotation(a, CANARY_BY_HEADER_PATTERN));
    config := config.(cookie := Annotation(a, CANARY_BY_COOKIE));
    ok := true;
  }

  // ---------------------------------------------------------------- canary entries

  datatype CanaryIngress = CanaryIngress(annotations: Annotations, rules: seq<IngressRule>)

  /** backendRefFromPath: a named port becomes port 0, to be resolved later. */
  function BackendOf(p: IngressPath): Option<Backend> {
    if p.service.None? then None
    else
      var s := p.service.value;
      Some(Backend(s.name, if s.portNumber > 0 then Some(s.portNumber)
                           else if s.portName != "" then Some(0) else None, None))
  }

  type Offer = (string, Entry)

  function PathOffers(paths: seq<IngressPath>, c: Config): seq<Offer> {
    if paths == [] then []
    else
      var p := paths[|paths| - 1];
      PathOffers(paths[..|paths| - 1], c) +
      if BackendOf(p).None? then [] else [(p.path, Entry(c, BackendOf(p).value))]
  }

  function RuleOffers(rules: seq<IngressRule>, c: Config): seq<Offer> {
    if rules == [] then []
    else
      var r := rules[|rules| - 1];
      RuleOffers(rules[..|rules| - 1], c) + if r.paths.None? then [] else PathOffers(r.paths.value, c)
  }

  /** Everything the valid canaries offer, in the order in which they are visited. */
  function Offers(cs: seq<CanaryIngress>): seq<Offer> {
    if cs == [] then []
    else
      var c := cs[|cs| - 1];
      Offers(cs[..|cs| - 1]) +
      if ConfigOf(c.annotations).None? then [] else RuleOffers(c.rules, ConfigOf(c.annotations).value)
  }

  function LastWins(offers: seq<Offer>): map<string, Entry> {
    if offers == [] then map[]
    else
      var last := offers[|offers| - 1];
      LastWins(offers[..|offers| - 1])[last.0 := last.1]
  }

  lemma {:induction false} LastWinsAppend(a: seq<Offer>, b: seq<Offer>, o: Offer)
    ensures LastWins(a + (b + [o])) == LastWins(a + b)[o.0 := o.1]
  {
    var s := a + (b + [o]);
    assert s[..|s| - 1] == a + b;
  }

  predicate LastFor(offers: seq<Offer>, path: string, i: int) {
    0 <= i < |offers| && offers[i].0 == path && forall j :: i < j < |offers| ==> offers[j].0 != path
  }

  /** An entry is the offer made last for its path. */
  lemma {:induction false} LastWinsMeaning(offers: seq<Offer>, path: string, i: int)
    requires LastFor(offers, path, i)
    ensures path in LastWins(offers) && LastWins(offers)[path] == offers[i].1
  {
    var n := |offers| - 1;
    if i < n {
      assert offers[..n][i] == offers[i];
      LastWinsMeaning(offers[..n], path, i);
      assert offers[n].0 != path;
    }
  }

  lemma {:induction false} EntryHasOffer(offers: seq<Offer>, path: string) returns (i: int)
    requires path in LastWins(offers)
    ensures LastFor(offers, path, i)
  {
    var n := |offers| - 1;
    if offers[n].0 == path {
      i := n;
    } else {
      i := EntryHasOffer(offers[..n], path);
    }
  }

  lemma PathOffersNext(paths: seq<IngressPath>, c: Config, k: int)
    requires 0 <= k < |paths|
    ensures BackendOf(paths[k]).None? ==> PathOffers(paths[..k + 1], c) == PathOffers(paths[..k], c)
    ensures BackendOf(paths[k]).Some? ==>
              PathOffers(paths[..k + 1], c) == PathOffers(paths[..k], c) + [(paths[k].path, Entry(c, BackendOf(paths[k]).value))]
  {
    assert paths[..k + 1][..k] == paths[..k];
  }

  lemma RuleOffersNext(rules: seq<IngressRule>, c: Config, j: int)
    requires 0 <= j < |rules|
    ensures rules[j].paths.None? ==> RuleOffers(rules[..j + 1], c) == RuleOffers(rules[..j], c)
    ensures rules[j].paths.Some? ==>
              RuleOffers(rules[..j + 1], c) == RuleOffers(rules[..j], c) + PathOffers(rules[j].paths.value, c)
  {
    assert rules[..j + 1][..j] == rules[..j];
  }

  lemma OffersNext(cs: seq<CanaryIngress>, i: int)
    requires 0 <= i < |cs|
    ensures ConfigOf(cs[i].annotations).None? ==> Offers(cs[..i + 1]) == Offers(cs[..i])
    ensures ConfigOf(cs[i].annotations).Some? ==>
              Offers(cs[..i + 1]) == Offers(cs[..i]) + RuleOffers(cs[i].rules, ConfigOf(cs[i].annotations).value)
  {
    assert cs[..i + 1][..i] == cs[..i];
  }

  method CollectCanaryEntries(canaries: seq<CanaryIngress>) returns (entries: map<string, Entry>)
    ensures entries == LastWins(Offers(canaries))
  {
    entries := map[];
    for i := 0 to |canaries|
      invariant entries == LastWins(Offers(canaries[..i]))
    {
      OffersNext(canaries, i);
      var config, ok := ParseCanaryConfig(canaries[i].annotations);
      if !ok {
        continue;
      }
      entries := CollectRules(canaries[i].rules, config, entries, Offers(canaries[..i]));
    }
    assert canaries[..|canaries|] == canaries;
  }

  method CollectRules(rules: seq<IngressRule>, config: Config, collected: map<string, Entry>, ghost before: seq<Offer>)
    returns (entries: map<string, Entry>)
    requires collected == LastWins(before)
    ensures entries == LastWins(before + RuleOffers(rules, config))
  {
    entries := collected;
    assert before + [] == before;
    for j := 0 to |rules|
      invariant entries == LastWins(before + RuleOffers(rules[..j], config))
    {
      RuleOffersNext(rules, config, j);
      if rules[j].paths.None? {
        continue;
      }
      ghost var sofar := before + RuleOffers(rules[..j], config);
      entries := CollectPaths(rules[j].paths.value, config, entries, sofar);
      assert before + (RuleOffers(rules[..j], config) + PathOffers(rules[j].paths.value, config))
        == sofar + PathOffers(rules[j].paths.value, config);
    }
    assert rules[..|rules|] == rules;
  }

  method CollectPaths(paths: seq<IngressPath>, config: Config, collected: map<string, Entry>, ghost before: seq<Offer>)
    returns (entries: map<string, Entry>)
    requires collected == LastWins(before)
    ensures entries == LastWins(before + PathOffers(paths, config))
  {
    entries := collected;
    assert before + [] == before;
    for k := 0 to |paths|
      invariant entries == LastWins(before + PathOffers(paths[..k], config))
    {
      PathOffersNext(paths, config, k);
      var ref := BackendOf(paths[k]);
      if ref.None? {
        continue;
      }
      LastWinsAppend(before, PathOffers(paths[..k], config), (paths[k].path, Entry(config, ref.value)));
      entries := entries[paths[k].path := Entry(config, ref.value)];
    }
    assert paths[..|paths|] == paths;
  }

  lemma {:induction false} PathOffersValid(paths: seq<IngressPath>, c: Config)
    ensures forall o :: o in PathOffers(paths, c) ==> o.1.config == c
  {
    if paths != [] { PathOffersValid(paths[..|paths| - 1], c); }
  }

  lemma {:induction false} RuleOffersValid(rules: seq<IngressRule>, c: Config)
    ensures forall o :: o in RuleOffers(rules, c) ==> o.1.config == c
  {
    if rules != [] {
      RuleOffersValid(rules[..|rules| - 1], c);
      var r := rules[|rules| - 1];
      if r.paths.Some? { PathOffersValid(r.paths.value, c); }
    }
  }

  lemma {:induction false} OffersValid(cs: seq<CanaryIngress>)
    ensures forall o :: o in Offers(cs) ==> 0 <= o.1.config.weight <= o.1.config.weightTotal && 0 < o.1.config.weightTotal
  {
    if cs != [] {
      OffersValid(cs[..|cs| - 1]);
      var c := cs[|cs| - 1];
      if ConfigOf(c.annotations).Some? { RuleOffersValid(c.rules, ConfigOf(c.annotations).value); }
    }
  }

  /** Whatever the canary Ingresses say, every collected split has both weights in 0..total. */
  lemma EntriesHaveValidWeights(canaries: seq<CanaryIngress>, path: string)
    requires path in LastWins(Offers(canaries))
    ensures var c := LastWins(Offers(canaries))[path].config;
            0 <= c.weight <= c.weightTotal && 0 < c.weightTotal
  {
    var offers := Offers(canaries);
    OffersValid(canaries);
    var i := EntryHasOffer(offers, path);
    LastWinsMeaning(offers, path, i);
    assert offers[i] in offers;
  }

  // ---------------------------------------------------------------- rules

  /** buildPathMatch: no path value means no path match. */
  function BuildPathMatch(p: IngressPath): (Match, bool) {
    if p.path == "" then (Match(None, []), false)
    else (Match(Some(if p.pathType == Some(ExactType) then ExactPath(p.path) else PathPrefix(p.path)), []), true)
  }

  function BaseMatches(base: Match, hasPath: bool): seq<Match> {
    if hasPath then [base] else []
  }

  function OverrideMatches(base: Match, h: HeaderMatch): seq<Match> {
    [base.(headers := base.headers + [h])]
  }

  function PlainRule(p: IngressPath, filters: seq<Filter>): Rule {
    var (base, hasPath) := BuildPathMatch(p);
    Rule(BaseMatches(base, hasPath), if BackendOf(p).None? then [] else [BackendOf(p).value], filters)
  }

  function CanaryHeaderMatch(c: Config): HeaderMatch {
    if c.headerPattern != "" then RegexHeader(c.header, c.headerPattern)
    else if c.headerValue != "" then ExactHeader(c.header, c.headerValue)
    else ExactHeader(c.header, ALWAYS)
  }

  /** Matching rules on request data that are decided outside the operator. `cookiePattern`
      builds the pattern for a "name=always" cookie. */
  datatype Patterns = Patterns(matches: (string, string) -> bool, cookiePattern: string -> string)

  function WeightedRule(matches: seq<Match>, primary: Backend, e: Entry, filters: seq<Filter>): Rule {
    Rule(matches,
         [primary.(weight := Some(e.config.weightTotal - e.config.weight)), e.backend.(weight := Some(e.config.weight))],
         filters)
  }

  /** The header and cookie conditions of a canary in rule order, with the backend each selects. */
  function Overrides(ps: Patterns, primary: Backend, e: Entry): seq<(HeaderMatch, Backend)> {
    var c := e.config;
    (if c.header != "" && c.headerValue == "" && c.headerPattern == "" then [(ExactHeader(c.header, NEVER), primary)] else []) +
    (if c.header != "" then [(CanaryHeaderMatch(c), e.backend.(weight := None))] else []) +
    (if c.cookie != "" then [(RegexHeader(COOKIE, ps.cookiePattern(c.cookie)), e.backend.(weight := None))] else [])
  }

  function OverrideRules(base: Match, overrides: seq<(HeaderMatch, Backend)>, filters: seq<Filter>): (r: seq<Rule>)
    ensures |r| == |overrides|
    ensures forall i :: 0 <= i < |r| ==> r[i] == Rule(OverrideMatches(base, overrides[i].0), [overrides[i].1], filters)
  {
    seq(|overrides|, i requires 0 <= i < |overrides| => Rule(OverrideMatches(base, overrides[i].0), [overrides[i].1], filters))
  }

  method BuildCanaryRules(ps: Patterns, base: Match, hasPath: bool, primary: Backend, e: Entry, filters: seq<Filter>)
    returns (rules: seq<Rule>)
    ensures rules == OverrideRules(base, Overrides(ps, primary, e), filters)
                     + [WeightedRule(BaseMatches(base, hasPath), primary, e, filters)]
  {
    rules := [];
    var c := e.config;
    if c.header != "" && c.headerValue == "" && c.headerPattern == "" {
      rules := rules + [Rule(OverrideMatches(base, ExactHeader(c.header, NEVER)), [primary], filters)];
    }
    if c.header != "" {
      rules := rules + [Rule(OverrideMatches(base, CanaryHeaderMatch(c)), [e.backend.(weight := None)], filters)];
    }
    if c.cookie != "" {
      rules := rules + [Rule(OverrideMatches(base, RegexHeader(COOKIE, ps.cookiePattern(c.cookie))),
                             [e.backend.(weight := None)], filters)];
    }
    assert rules == OverrideRules(base, Overrides(ps, primary, e), filters);
    rules := rules + [WeightedRule(BaseMatches(base, hasPath), primary, e, filters)];
  }

  /** The rules of one path. */
  function PathRules(ps: Patterns, p: IngressPath, entries: map<string, Entry>, filters: seq<Filter>): (r: seq<Rule>)
    ensures r != []
  {
    if p.path in entries && BackendOf(p).Some? then
      var (base, hasPath) := BuildPathMatch(p);
      var primary := BackendOf(p).value;
      OverrideRules(base, Overrides(ps, primary, entries[p.path]), filters)
      + [WeightedRule(BaseMatches(base, hasPath), primary, entries[p.path], filters)]
    else [PlainRule(p, filters)]
  }

  function AllRules(ps: Patterns, paths: seq<IngressPath>, entries: map<string, Entry>, filters: seq<Filter>): seq<Rule> {
    if paths == [] then []
    else AllRules(ps, paths[..|paths| - 1], entries, filters) + PathRules(ps, paths[|paths| - 1], entries, filters)
  }

  /** The paths of all rules, whatever their host. */
  function Flatten(rules: seq<IngressRule>): seq<IngressPath> {
    if rules == [] then []
    else
      var r := rules[|rules| - 1];
      Flatten(rules[..|rules| - 1]) + if r.paths.None? then [] else r.paths.value
  }

  lemma AllRulesNext(ps: Patterns, paths: seq<IngressPath>, entries: map<string, Entry>, filters: seq<Filter>, p: IngressPath)
    ensures AllRules(ps, paths + [p], entries, filters) == AllRules(ps, paths, entries, filters) + PathRules(ps, p, entries, filters)
  {
    assert (paths + [p])[..|paths|] == paths;
  }

  lemma FlattenNext(rules: seq<IngressRule>, i: int)
    requires 0 <= i < |rules|
    ensures rules[i].paths.None? ==> Flatten(rules[..i + 1]) == Flatten(rules[..i])
    ensures rules[i].paths.Some? ==> Flatten(rules[..i + 1]) == Flatten(rules[..i]) + rules[i].paths.value
  {
    assert rules[..i + 1][..i] == rules[..i];
  }

  method BuildHttpRouteRules(ps: Patterns, ingressRules: seq<IngressRule>, entries: map<string, Entry>, filters: seq<Filter>)
    returns (rules: seq<Rule>)
    ensures rules == AllRules(ps, Flatten(ingressRules), entries, filters)
  {
    rules := [];
    for i := 0 to |ingressRules|
      invariant rules == AllRules(ps, Flatten(ingressRules[..i]), entries, filters)
    {
      FlattenNext(ingressRules, i);
      if ingressRules[i].paths.None? {
        continue;
      }
      rules := AppendPaths(ps, ingressRules[i].paths.value, entries, filters, rules, Flatten(ingressRules[..i]));
    }
    assert ingressRules[..|ingressRules|] == ingressRules;
  }

  method AppendPaths(ps: Patterns, paths: seq<IngressPath>, entries: map<string, Entry>, filters: seq<Filter>,
                     start: seq<Rule>, ghost before: seq<IngressPath>)
    returns (rules: seq<Rule>)
    requires start == AllRules(ps, before, entries, filters)
    ensures rules == AllRules(ps, before + paths, entries, filters)
  {
    hide PathRules, AllRules;
    rules := start;
    assert before + [] == before;
    for j := 0 to |paths|
      invariant rules == AllRules(ps, before + paths[..j], entries, filters)
    {
      AllRulesNext(ps, before + paths[..j], entries, filters, paths[j]);
      assert before + paths[..j] + [paths[j]] == before + paths[..j + 1];
      var more := BuildPathRules(ps, paths[j], entries, filters);
      rules := rules + more;
    }
    assert paths[..|paths|] == paths;
  }

  method BuildPathRules(ps: Patterns, p: IngressPath, entries: map<string, Entry>, filters: seq<Filter>)
    returns (rules: seq<Rule>)
    ensures rules == PathRules(ps, p, entries, filters)
  {
    var (base, hasPath) := BuildPathMatch(p);
    var primary := BackendOf(p);
    if p.path in entries && primary.Some? {
      rules := BuildCanaryRules(ps, base, hasPath, primary.value, entries[p.path], filters);
    } else {
      rules := [PlainRule(p, filters)];
    }
  }
}
