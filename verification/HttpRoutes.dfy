/** The parts of Ingress and HTTPRoute objects that the translator reads and writes. */
module HttpRoutes {
  import opened Options

  // Ingress
  datatype PathType = ExactType | PrefixType | ImplementationSpecific
  datatype Service = Service(name: string, portNumber: int, portName: string)
  datatype IngressPath = IngressPath(path: string, pathType: Option<PathType>, service: Option<Service>)
  /** `paths` is None when the rule has no HTTP section. */
  datatype IngressRule = IngressRule(host: string, paths: Option<seq<IngressPath>>)
  type Annotations = map<string, string>

  /** An absent annotation reads as the empty string. */
  function Annotation(a: Annotations, key: string): string {
    if key in a then a[key] else ""
  }

  // HTTPRoute
  datatype PathMatch = ExactPath(value: string) | PathPrefix(value: string)
  datatype HeaderMatch = ExactHeader(name: string, value: string) | RegexHeader(name: string, pattern: string)
  datatype Match = Match(path: Option<PathMatch>, headers: seq<HeaderMatch>)
  datatype Backend = Backend(name: string, port: Option<int>, weight: Option<int>)
  datatype Filter = Extension(group: string, kind: string, name: string) | OtherFilter(id: string)
  datatype Rule = Rule(matches: seq<Match>, backends: seq<Backend>, filters: seq<Filter>)
}
