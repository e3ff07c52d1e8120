/** Reading an Ingress's annotations into the state that the nginx directives are generated
    from, and what the generated directives mean in terms of the annotations. */
module Snippets {
  import opened Options
  import opened Ordering
  import opened Text
  import opened Nginx

  /** An annotation key by prefix: nginx.ingress.kubernetes.io/ or ingress.kubernetes.io/. */
  datatype Key = NginxKey(suffix: string) | LegacyKey(suffix: string)
  type Annotations = map<Key, string>

  const FORCE_SSL := "force-ssl-redirect"
  const SSL_PROXY_HEADERS := "ssl-proxy-headers"
  const REWRITE_TARGET := "rewrite-target"
  const USE_REGEX := "use-regex"
  const ALLOWLISTS := {"allowlist-source-range", "whitelist-source-range"}
  const DENYLISTS := {"denylist-source-range", "blacklist-source-range"}
  const SERVER_ONLY := {"ssl-ciphers", "ssl-prefer-server-ciphers"}

  /** Consumed annotations that shape other directives. */
  const OTHER_HANDLED := {
    "auth-url", "auth-signin", "auth-signin-redirect-param", "auth-method", "auth-response-headers",
    "auth-request-redirect", "auth-cache-key", "auth-cache-duration", "auth-keepalive", "auth-proxy-set-headers",
    "configuration-snippet", "server-snippet", "auth-snippet", "proxy-body-size", "client-max-body-size",
    "proxy-redirect-from", "proxy-redirect-to", "proxy-buffers-number", "ssl-redirect", "preserve-trailing-slash",
    "custom-http-errors", "from-to-www-redirect"}

  /** Annotations that are turned into the directive of the same name. */
  const WHITELIST := {
    "client-body-buffer-size", "http2-push-preload", "proxy-buffer-size", "proxy-buffering", "proxy-busy-buffers-size",
    "proxy-connect-timeout", "proxy-cookie-domain", "proxy-cookie-path", "proxy-http-version", "proxy-max-temp-file-size",
    "proxy-next-upstream", "proxy-next-upstream-timeout", "proxy-next-upstream-tries", "proxy-read-timeout",
    "proxy-request-buffering", "proxy-send-timeout", "proxy-ssl-ciphers", "proxy-ssl-name", "proxy-ssl-protocols",
    "proxy-ssl-server-name", "proxy-ssl-verify", "proxy-ssl-verify-depth", "satisfy", "ssl-ciphers",
    "ssl-prefer-server-ciphers"}

  predicate Safe(v: string) {
    forall c :: c in v ==> c !in {'\r', '\n', ';', '{', '}'}
  }

  /** strings.EqualFold(v, "true"). */
  predicate IsTrue(v: string) {
    |v| == 4 && v[0] in {'t', 'T'} && v[1] in {'r', 'R'} && v[2] in {'u', 'U'} && v[3] in {'e', 'E'}
  }

  function Lower(v: string): (r: string)
    ensures |r| == |v|
  {
    seq(|v|, n requires 0 <= n < |v| => if 'A' <= v[n] <= 'Z' then ((v[n] as int) + 32) as char else v[n])
  }

  /** "true", in any mixture of cases. */
  lemma IsTrueMeaning(v: string)
    ensures IsTrue(v) <==> Lower(v) == "true"
  {
    var l, t := Lower(v), "true";
    if |v| == 4 {
      assert l == t <==> l[0] == t[0] && l[1] == t[1] && l[2] == t[2] && l[3] == t[3];
    }
  }

  function SafeOnly(vs: seq<string>): (r: seq<string>)
    ensures forall x :: x in r <==> x in vs && Safe(x)
  {
    if vs == [] then []
    else SafeOnly(vs[..|vs| - 1]) + if Safe(vs[|vs| - 1]) then [vs[|vs| - 1]] else []
  }

  /** The safe entries of a comma-separated list. */
  function Ranges(value: string): seq<string> {
    SafeOnly(Unique(Split(value, ',')))
  }

  method ParseRanges(value: string) returns (r: seq<string>)
    ensures r == Ranges(value)
  {
    var entries := UniqueStrings(Split(value, ','));
    r := [];
    for i := 0 to |entries|
      invariant r == SafeOnly(entries[..i])
    {
      assert entries[..i + 1][..i] == entries[..i];
      if Safe(entries[i]) {
        r := r + [entries[i]];
      }
    }
    assert entries[..|entries|] == entries;
  }

  const NoState := State([], [], false, [], [], [], "", false)

  /** Annotations that are consumed rather than copied. */
  predicate Handles(s: string) {
    s in OTHER_HANDLED || s in ALLOWLISTS || s in DENYLISTS || s in {FORCE_SSL, REWRITE_TARGET, USE_REGEX}
  }

  function Consume(st: State, s: string, v: string): State {
    if s in OTHER_HANDLED then st
    else if s in ALLOWLISTS then st.(allowed := st.allowed + Ranges(v))
    else if s in DENYLISTS then st.(denied := st.denied + Ranges(v))
    else if s == FORCE_SSL then if IsTrue(v) then st.(forceSslRedirect := true) else st
    else if s == REWRITE_TARGET then if Safe(v) then st.(rewriteTarget := v) else st
    else if s == USE_REGEX then if IsTrue(v) then st.(useRegex := true) else st
    else st
  }

  /** A directive of the annotation's own name. */
  function Copy(suppress: set<string>, st: State, s: string, v: string): State {
    if s !in WHITELIST || !Safe(v) then st
    else if s in SERVER_ONLY then
      if s in suppress then st else st.(serverOnly := st.serverOnly + [Plain(s, v)])
    else st.(plain := st.plain + [Plain(s, v)])
  }

  function ConsumeLegacy(parse: string -> seq<ProxyHeader>, st: State, s: string, v: string): State {
    if s == SSL_PROXY_HEADERS then if parse(v) != [] then st.(sslProxyHeaders := parse(v)) else st
    else if s == FORCE_SSL && IsTrue(v) then st.(forceSslRedirect := true)
    else st
  }

  /** One annotation. `parse` reads an ssl-proxy-headers value. */
  function Ingest(parse: string -> seq<ProxyHeader>, suppress: set<string>, st: State, key: Key, raw: string): State {
    var v := Trim(raw);
    if v == "" then st
    else
      match key
      case NginxKey(s) => if Handles(s) then Consume(st, s, v) else Copy(suppress, st, s, v)
      case LegacyKey(s) => ConsumeLegacy(parse, st, s, v)
  }

  function IngestAll(parse: string -> seq<ProxyHeader>, suppress: set<string>, a: Annotations, keys: seq<Key>): State
    requires forall k :: k in keys ==> k in a
  {
    if keys == [] then NoState
    else
      var k := keys[|keys| - 1];
      Ingest(parse, suppress, IngestAll(parse, suppress, a, keys[..|keys| - 1]), k, a[k])
  }

  method IngestNginxIngressAnnotations(parse: string -> seq<ProxyHeader>, suppress: set<string>, a: Annotations, keys: seq<Key>)
    returns (st: State)
    requires forall k :: k in keys ==> k in a
    ensures st == IngestAll(parse, suppress, a, keys)
  {
    hide Handles, Consume, ConsumeLegacy, WHITELIST, SERVER_ONLY, Safe, Trim;
    st := NoState;
    for i := 0 to |keys|
      invariant st == IngestAll(parse, suppress, a, keys[..i])
    {
      assert keys[..i + 1][..i] == keys[..i];
      var v := Trim(a[keys[i]]);
      if v == "" {
        continue;
      }
      match keys[i]
      case NginxKey(s) =>
        var handled: bool;
        st, handled := ApplyIngressAnnotationValue(st, s, v);
        if handled || s !in WHITELIST || !Safe(v) {
          continue;
        }
        if s in SERVER_ONLY {
          if s in suppress {
            continue;
          }
          st := st.(serverOnly := st.serverOnly + [Plain(s, v)]);
          continue;
        }
        st := st.(plain := st.plain + [Plain(s, v)]);
      case LegacyKey(s) =>
        st := ApplyLegacyIngressAnnotationValue(parse, st, s, v);
    }
    assert keys[..|keys|] == keys;
  }

  method ApplyLegacyIngressAnnotationValue(parse: string -> seq<ProxyHeader>, st: State, s: string, v: string) returns (r: State)
    ensures r == ConsumeLegacy(parse, st, s, v)
  {
    r := st;
    if s == SSL_PROXY_HEADERS {
      var headers := parse(v);
      if |headers| > 0 {
        r := st.(sslProxyHeaders := headers);
      }
    } else if s == FORCE_SSL && IsTrue(v) {
      r := st.(forceSslRedirect := true);
    }
  }

  method ApplyIngressAnnotationValue(st: State, s: string, v: string) returns (r: State, handled: bool)
    ensures handled == Handles(s)
    ensures r == Consume(st, s, v)
    ensures !handled ==> r == st
  {
    r, handled := st, true;
    if s in OTHER_HANDLED {
      return;
    }
    if s in ALLOWLISTS {
      var ranges := ParseRanges(v);
      r := st.(allowed := st.allowed + ranges);
    } else if s in DENYLISTS {
      var ranges := ParseRanges(v);
      r := st.(denied := st.denied + ranges);
    } else if s == FORCE_SSL {
      if IsTrue(v) { r := st.(forceSslRedirect := true); }
    } else if s == REWRITE_TARGET {
      if Safe(v) { r := st.(rewriteTarget := v); }
    } else if s == USE_REGEX {
      if IsTrue(v) { r := st.(useRegex := true); }
    } else {
      handled := false;
    }
  }

  // ---------------------------------------------------------------- meaning of the annotations

  /** The annotation's value, without surrounding blanks; "" when absent. */
  function Value(a: Annotations, k: Key): string {
    if k in a then Trim(a[k]) else ""
  }

  ghost predicate Listed(a: Annotations, seen: set<Key>, suffixes: set<string>, x: string) {
    exists s :: s in suffixes && NginxKey(s) in seen && x in Ranges(Value(a, NginxKey(s)))
  }

  predicate Forced(a: Annotations, seen: set<Key>) {
    || (NginxKey(FORCE_SSL) in seen && IsTrue(Value(a, NginxKey(FORCE_SSL))))
    || (LegacyKey(FORCE_SSL) in seen && IsTrue(Value(a, LegacyKey(FORCE_SSL))))
  }

  function ProxyHeaders(parse: string -> seq<ProxyHeader>, a: Annotations, seen: set<Key>): seq<ProxyHeader> {
    var v := Value(a, LegacyKey(SSL_PROXY_HEADERS));
    if LegacyKey(SSL_PROXY_HEADERS) in seen && v != "" then parse(v) else []
  }

  /** The location block would get a directive of the annotation's own name. */
  predicate Copies(a: Annotations, s: string) {
    var v := Value(a, NginxKey(s));
    s in WHITELIST && s !in SERVER_ONLY && v != "" && Safe(v)
  }

  function RewriteTarget(a: Annotations, seen: set<Key>): string {
    var v := Value(a, NginxKey(REWRITE_TARGET));
    if NginxKey(REWRITE_TARGET) in seen && Safe(v) then v else ""
  }

  predicate UsesRegex(a: Annotations, seen: set<Key>) {
    NginxKey(USE_REGEX) in seen && IsTrue(Value(a, NginxKey(USE_REGEX)))
  }

  /** The Ingress would put this server directive into the server block. */
  predicate Declares(a: Annotations, s: string) {
    var v := Value(a, NginxKey(s));
    s in SERVER_ONLY && v != "" && Safe(v)
  }

  /** The state holds what the annotations seen so far say. */
  ghost predicate Reflects(parse: string -> seq<ProxyHeader>, suppress: set<string>, a: Annotations, seen: set<Key>, st: State) {
    && ReflectsList(a, seen, ALLOWLISTS, st.allowed) && ReflectsList(a, seen, DENYLISTS, st.denied)
    && st.forceSslRedirect == Forced(a, seen) && st.sslProxyHeaders == ProxyHeaders(parse, a, seen)
    && ReflectsServer(suppress, a, seen, st.serverOnly) && ReflectsPlain(a, seen, st.plain)
    && st.rewriteTarget == RewriteTarget(a, seen) && st.useRegex == UsesRegex(a, seen)
  }

  ghost predicate ReflectsPlain(a: Annotations, seen: set<Key>, lines: seq<Directive>) {
    && Distinct(lines)
    && forall d :: d in lines <==>
         d.Plain? && NginxKey(d.name) in seen && Copies(a, d.name) && d.value == Value(a, NginxKey(d.name))
  }

  ghost predicate ReflectsList(a: Annotations, seen: set<Key>, suffixes: set<string>, ranges: seq<string>) {
    forall x :: x in ranges <==> Listed(a, seen, suffixes, x)
  }

  ghost predicate ReflectsServer(suppress: set<string>, a: Annotations, seen: set<Key>, lines: seq<Directive>) {
    && Distinct(lines)
    && forall d :: d in lines <==>
         d.Plain? && NginxKey(d.name) in seen && Declares(a, d.name) && d.name !in suppress && d.value == Value(a, NginxKey(d.name))
  }

  predicate Copied(suppress: set<string>, s: string, v: string) {
    s in SERVER_ONLY && s !in suppress && v != "" && Safe(v)
  }

  lemma SuffixesDiffer()
    ensures ALLOWLISTS !! OTHER_HANDLED && DENYLISTS !! OTHER_HANDLED && ALLOWLISTS !! DENYLISTS
    ensures {FORCE_SSL, REWRITE_TARGET, USE_REGEX} !! (OTHER_HANDLED + ALLOWLISTS + DENYLISTS)
    ensures FORCE_SSL !in {SSL_PROXY_HEADERS, REWRITE_TARGET, USE_REGEX} && REWRITE_TARGET != USE_REGEX
    ensures SERVER_ONLY <= WHITELIST && forall s :: s in WHITELIST ==> !Handles(s)
    ensures !IsTrue("") && Ranges("") == [] && Trim("") == "" && Safe("")
  {
    HandledDiffer();
    CopiedAreNotHandled();
    assert Split("", ',') == [""];
    assert Unique([""]) == [] by { assert [""][..0] == []; }
    hide ALLOWLISTS, DENYLISTS, OTHER_HANDLED, FORCE_SSL, REWRITE_TARGET, USE_REGEX, SSL_PROXY_HEADERS;
  }

  lemma HandledDiffer()
    ensures ALLOWLISTS !! OTHER_HANDLED && DENYLISTS !! OTHER_HANDLED && ALLOWLISTS !! DENYLISTS
    ensures {FORCE_SSL, REWRITE_TARGET, USE_REGEX} !! (OTHER_HANDLED + ALLOWLISTS + DENYLISTS)
    ensures FORCE_SSL !in {SSL_PROXY_HEADERS, REWRITE_TARGET, USE_REGEX} && REWRITE_TARGET != USE_REGEX
  {
  }

  lemma CopiedAreNotHandled()
    ensures forall s :: s in WHITELIST ==> !Handles(s)
  {
  }

  /** What one annotation adds, field by field. */
  lemma IngestEffect(parse: string -> seq<ProxyHeader>, suppress: set<string>, st: State, k: Key, raw: string)
    ensures var t, v := Ingest(parse, suppress, st, k, raw), Trim(raw);
            && t.allowed == st.allowed + (if k.NginxKey? && k.suffix in ALLOWLISTS then Ranges(v) else [])
            && t.denied == st.denied + (if k.NginxKey? && k.suffix in DENYLISTS then Ranges(v) else [])
            && t.forceSslRedirect == (st.forceSslRedirect || (k.suffix == FORCE_SSL && IsTrue(v)))
            && t.sslProxyHeaders == (if k == LegacyKey(SSL_PROXY_HEADERS) && v != "" && parse(v) != [] then parse(v)
                                     else st.sslProxyHeaders)
            && t.rewriteTarget == (if k == NginxKey(REWRITE_TARGET) && v != "" && Safe(v) then v else st.rewriteTarget)
            && t.useRegex == (st.useRegex || (k == NginxKey(USE_REGEX) && IsTrue(v)))
            && t.plain == st.plain + (if k.NginxKey? && k.suffix in WHITELIST && k.suffix !in SERVER_ONLY && v != "" && Safe(v)
                                      then [Plain(k.suffix, v)] else [])
            && t.serverOnly == st.serverOnly + (if k.NginxKey? && Copied(suppress, k.suffix, v) then [Plain(k.suffix, v)] else [])
  {
    SuffixesDiffer();
    hide ALLOWLISTS, DENYLISTS, OTHER_HANDLED, WHITELIST, SERVER_ONLY, FORCE_SSL, SSL_PROXY_HEADERS, REWRITE_TARGET, USE_REGEX,
      Safe, IsTrue, Ranges, Trim;
  }

  lemma ListedNext(a: Annotations, seen: set<Key>, suffixes: set<string>, k: Key, x: string)
    requires k in a && k !in seen
    ensures Listed(a, seen + {k}, suffixes, x) <==>
              Listed(a, seen, suffixes, x) || (k.NginxKey? && k.suffix in suffixes && x in Ranges(Value(a, k)))
  {
    if k.NginxKey? && k.suffix in suffixes && x in Ranges(Value(a, k)) {
      assert NginxKey(k.suffix) in seen + {k};
    }
    if Listed(a, seen, suffixes, x) {
      var s :| s in suffixes && NginxKey(s) in seen && x in Ranges(Value(a, NginxKey(s)));
      assert NginxKey(s) in seen + {k};
    }
  }

  lemma ReflectsListNext(a: Annotations, seen: set<Key>, suffixes: set<string>, ranges: seq<string>, k: Key)
    requires ReflectsList(a, seen, suffixes, ranges) && k in a && k !in seen
    ensures ReflectsList(a, seen + {k}, suffixes, ranges + if k.NginxKey? && k.suffix in suffixes then Ranges(Value(a, k)) else [])
  {
    var next := ranges + if k.NginxKey? && k.suffix in suffixes then Ranges(Value(a, k)) else [];
    forall x ensures x in next <==> Listed(a, seen + {k}, suffixes, x) {
      ListedNext(a, seen, suffixes, k, x);
    }
  }

  lemma ReflectsServerNext(suppress: set<string>, a: Annotations, seen: set<Key>, lines: seq<Directive>, k: Key)
    requires ReflectsServer(suppress, a, seen, lines) && k in a && k !in seen
    ensures ReflectsServer(suppress, a, seen + {k},
              lines + if k.NginxKey? && Copied(suppress, k.suffix, Value(a, k)) then [Plain(k.suffix, Value(a, k))] else [])
  {
    hide SERVER_ONLY, Safe, Trim;
    if k.NginxKey? && Copied(suppress, k.suffix, Value(a, k)) {
      assert Plain(k.suffix, Value(a, k)) !in lines;
    }
  }

  lemma ReflectsPlainNext(a: Annotations, seen: set<Key>, lines: seq<Directive>, k: Key)
    requires ReflectsPlain(a, seen, lines) && k in a && k !in seen
    ensures ReflectsPlain(a, seen + {k}, lines + if k.NginxKey? && Copies(a, k.suffix) then [Plain(k.suffix, Value(a, k))] else [])
  {
    hide SERVER_ONLY, WHITELIST, Safe, Trim;
    if k.NginxKey? && Copies(a, k.suffix) {
      assert Plain(k.suffix, Value(a, k)) !in lines;
    }
  }

  lemma ReflectsNext(parse: string -> seq<ProxyHeader>, suppress: set<string>, a: Annotations, seen: set<Key>, st: State, k: Key)
    requires Reflects(parse, suppress, a, seen, st) && k in a && k !in seen
    ensures Reflects(parse, suppress, a, seen + {k}, Ingest(parse, suppress, st, k, a[k]))
  {
    IngestEffect(parse, suppress, st, k, a[k]);
    ReflectsListNext(a, seen, ALLOWLISTS, st.allowed, k);
    ReflectsListNext(a, seen, DENYLISTS, st.denied, k);
    ReflectsServerNext(suppress, a, seen, st.serverOnly, k);
    ReflectsPlainNext(a, seen, st.plain, k);
    SuffixesDiffer();
    hide Ingest, ReflectsList, ReflectsServer, ReflectsPlain, Copied, ALLOWLISTS, DENYLISTS, OTHER_HANDLED, WHITELIST, SERVER_ONLY,
      FORCE_SSL, SSL_PROXY_HEADERS, REWRITE_TARGET, USE_REGEX, Safe, IsTrue, Ranges, Trim;
  }

  lemma {:induction false} IngestReflects(parse: string -> seq<ProxyHeader>, suppress: set<string>, a: Annotations, keys: seq<Key>)
    requires Distinct(keys) && forall k :: k in keys ==> k in a
    ensures Reflects(parse, suppress, a, Elements(keys), IngestAll(parse, suppress, a, keys))
  {
    if keys != [] {
      var front, last := keys[..|keys| - 1], keys[|keys| - 1];
      assert keys == front + [last];
      assert Elements(keys) == Elements(front) + {last};
      IngestReflects(parse, suppress, a, front);
      ReflectsNext(parse, suppress, a, Elements(front), IngestAll(parse, suppress, a, front), last);
    }
  }

  /** A range of one of the listed annotations, kept because it is safe, holds the client. */
  ghost predicate InList(a: Annotations, suffixes: set<string>, r: Request) {
    exists x :: Listed(a, a.Keys, suffixes, x) && r.matches(x)
  }

  ghost predicate ListEmpty(a: Annotations, suffixes: set<string>) {
    forall x :: !Listed(a, a.Keys, suffixes, x)
  }

  lemma RangesTrimmed(v: string, x: string)
    requires x in Ranges(v)
    ensures Trim(x) == x && x != ""
  {
    UniqueMeaning(Split(v, ','));
    var part :| part in Split(v, ',') && Trim(part) == x;
    TrimTrims(part);
    TrimTrims(x);
  }

  lemma InSomeIsInList(a: Annotations, suffixes: set<string>, ranges: seq<string>, r: Request)
    requires forall x :: x in ranges <==> Listed(a, a.Keys, suffixes, x)
    ensures InSome(ranges, r) <==> InList(a, suffixes, r)
    ensures ranges == [] <==> ListEmpty(a, suffixes)
  {
    forall x | x in ranges ensures Trim(x) == x && x != "" {
      var s :| s in suffixes && NginxKey(s) in a.Keys && x in Ranges(Value(a, NginxKey(s)));
      RangesTrimmed(Value(a, NginxKey(s)), x);
    }
    if ranges != [] {
      assert ranges[0] in ranges;
    }
    if InList(a, suffixes, r) {
      var x :| Listed(a, a.Keys, suffixes, x) && r.matches(x);
      assert x in ranges;
    }
  }

  /** The generated location block means what the annotations say, in whatever order the
      annotations are read: it redirects exactly the insecure requests when either
      force-ssl-redirect is on, and admits exactly the clients that no denylist holds and
      that the allowlists, if any entry is left in them, do hold. */
  lemma LocationBlockMeaning(parse: string -> seq<ProxyHeader>, suppress: set<string>, a: Annotations, keys: seq<Key>,
                             other: seq<Directive>, auth: seq<Directive>, r: Request)
    requires Distinct(keys) && Elements(keys) == a.Keys && AllPlain(other) && AllPlain(auth)
    ensures forall k :: k in keys ==> k in a
    ensures var block := LocationLines(IngestAll(parse, suppress, a, keys), other, auth);
            && (Redirected(block, None, r) <==> SentToHttps(parse, a, r))
            && (Admitted(block, r) <==> LetIn(a, r))
  {
    forall k | k in keys ensures k in a { assert k in Elements(keys); }
    IngestReflects(parse, suppress, a, keys);
    var st := IngestAll(parse, suppress, a, keys);
    RedirectsWhenInsecure(st, other, auth, r);
    AdmitsByLists(st, other, auth, r);
    hide ALLOWLISTS, DENYLISTS, IngestAll, Redirected, Admitted, LocationLines, Listed;
    InSomeIsInList(a, ALLOWLISTS, st.allowed, r);
    InSomeIsInList(a, DENYLISTS, st.denied, r);
  }

  /** The server block gets a server directive exactly when the Ingress declares it and it is
      not suppressed, and gets it once. */
  lemma ServerBlockMeaning(parse: string -> seq<ProxyHeader>, suppress: set<string>, a: Annotations, keys: seq<Key>, s: string)
    requires Distinct(keys) && Elements(keys) == a.Keys
    ensures forall k :: k in keys ==> k in a
    ensures var lines := IngestAll(parse, suppress, a, keys).serverOnly;
            && ((exists d :: d in lines && d.Plain? && d.name == s) <==> Declares(a, s) && s !in suppress)
            && forall i, j :: 0 <= i < j < |lines| ==> lines[i].Plain? && lines[j].Plain? && lines[i].name != lines[j].name
  {
    forall k | k in keys ensures k in a { assert k in Elements(keys); }
    IngestReflects(parse, suppress, a, keys);
    var lines := IngestAll(parse, suppress, a, keys).serverOnly;
    if Declares(a, s) && s !in suppress {
      assert Plain(s, Value(a, NginxKey(s))) in lines;
    }
    forall i, j | 0 <= i < j < |lines| ensures lines[i].Plain? && lines[j].Plain? && lines[i].name != lines[j].name {
      assert lines[i] in lines && lines[j] in lines;
    }
  }

  // ---------------------------------------------------------------- the generated blocks

  lemma {:induction false} CopiedArePlain(parse: string -> seq<ProxyHeader>, suppress: set<string>, a: Annotations, keys: seq<Key>)
    requires forall k :: k in keys ==> k in a
    ensures AllPlain(IngestAll(parse, suppress, a, keys).plain)
  {
    hide OTHER_HANDLED, WHITELIST, SERVER_ONLY, ALLOWLISTS, DENYLISTS, Safe, Trim, Ranges;
    if keys != [] {
      CopiedArePlain(parse, suppress, a, keys[..|keys| - 1]);
    }
  }

  /** The client is let in, by the annotations. */
  ghost predicate LetIn(a: Annotations, r: Request) {
    !InList(a, DENYLISTS, r) && (ListEmpty(a, ALLOWLISTS) || InList(a, ALLOWLISTS, r))
  }

  /** The request is sent to https, by the annotations. */
  ghost predicate SentToHttps(parse: string -> seq<ProxyHeader>, a: Annotations, r: Request) {
    Forced(a, a.Keys) && !r.https && !SomeHeaderMatches(ProxyHeaders(parse, a, a.Keys), r)
  }

  /** From annotations to the lines of the server and location blocks. `other` and `auth` are
      the remaining directives of the location block. */
  method BuildNginxIngressSnippets(parse: string -> seq<ProxyHeader>, suppress: set<string>, a: Annotations,
                                   other: seq<Directive>, auth: seq<Directive>)
    returns (server: seq<Directive>, location: seq<Directive>)
    requires AllPlain(other) && AllPlain(auth)
    ensures forall r: Request :: Redirected(location, None, r) <==> SentToHttps(parse, a, r)
    ensures forall r: Request :: Admitted(location, r) <==> LetIn(a, r)
    ensures forall s :: (exists d :: d in server && d.Plain? && d.name == s) <==> Declares(a, s) && s !in suppress
    ensures var target := RewriteTarget(a, a.Keys);
            RewriteIn(location) == if target == "" then None
                                   else Some((if UsesRegex(a, a.Keys) || '$' in target then "^(.*)$" else "^", target))
    ensures forall s :: Copies(a, s) ==> Plain(s, Value(a, NginxKey(s))) in location
    ensures forall d :: d in other || d in auth ==> d in location
  {
    var keys := KeysOf(a);
    forall k | k in keys ensures k in a { assert k in Elements(keys); }
    var st := IngestNginxIngressAnnotations(parse, suppress, a, keys);
    CopiedArePlain(parse, suppress, a, keys);
    IngestReflects(parse, suppress, a, keys);
    CopiedLines(a, st);
    RewritesToTarget(st, st.plain + other, auth);
    RewritingMeaning(parse, suppress, a, st);
    server := st.serverOnly;
    location := BuildLocationContextLines(st, st.plain + other, auth);
    forall r: Request ensures Redirected(location, None, r) <==> SentToHttps(parse, a, r)
      ensures Admitted(location, r) <==> LetIn(a, r)
    {
      LocationBlockMeaning(parse, suppress, a, keys, st.plain + other, auth, r);
    }
    forall s ensures (exists d :: d in server && d.Plain? && d.name == s) <==> Declares(a, s) && s !in suppress {
      ServerBlockMeaning(parse, suppress, a, keys, s);
    }
  }

  lemma CopiedLines(a: Annotations, st: State)
    requires ReflectsPlain(a, a.Keys, st.plain)
    ensures forall s :: Copies(a, s) ==> Plain(s, Value(a, NginxKey(s))) in st.plain
  {
    forall s | Copies(a, s) ensures Plain(s, Value(a, NginxKey(s))) in st.plain {
      assert Plain(s, Value(a, NginxKey(s))).name == s;
    }
  }

  lemma RewritingMeaning(parse: string -> seq<ProxyHeader>, suppress: set<string>, a: Annotations, st: State)
    requires Reflects(parse, suppress, a, a.Keys, st)
    ensures Trim(st.rewriteTarget) == RewriteTarget(a, a.Keys) && st.useRegex == UsesRegex(a, a.Keys)
  {
    TrimTrims(Value(a, NginxKey(REWRITE_TARGET)));
    if NginxKey(REWRITE_TARGET) in a { TrimTrims(a[NginxKey(REWRITE_TARGET)]); }
    assert Trim("") == "";
  }

  /** The keys of a map, in any order. */
  method KeysOf(a: Annotations) returns (keys: seq<Key>)
    ensures Distinct(keys) && Elements(keys) == a.Keys
  {
    keys := [];
    var todo := a.Keys;
    while todo != {}
      invariant Distinct(keys) && todo !! Elements(keys) && todo + Elements(keys) == a.Keys
    {
      var k :| k in todo;
      assert k !in keys by { assert k !in Elements(keys); }
      assert Elements(keys + [k]) == Elements(keys) + {k};
      todo, keys := todo - {k}, keys + [k];
    }
  }
}
