# ingress-doperator: verified model

A Dafny model of the operator that turns Ingress objects into HTTPRoutes and Gateway listeners, with proofs
of what it promises. `dafny verify dfyconfig.toml` checks the project.

The modules follow the program:

| module | part of the operator |
|---|---|
| `Listeners`, `Merge`, `GatewayObject`, `Recompute`, `MergeAdmits` | the two ways of computing Gateway listeners: the add-only merge of one route, and the full recomputation |
| `ListenerTls`, `CertificateChoice` | which certificate a listener gets, as the loops compute it and in terms of the Ingresses' fields |
| `Debouncer`, `Convergence`, `LastWrite`, `StaleWrite` | the timer-based debouncer, and everything that writes one Gateway as a state machine over route events, handlers, merges by the Ingress controller and debounced executions |
| `ReferenceGrants` | reference counting in a grant's annotation |
| `Canary`, `Routing`, `Served` | Ingress paths and canaries compiled to HTTPRoute rules, what the rules mean under Gateway API precedence, and which request goes where in terms of the Ingress's fields |
| `HttpRouteManager` | splitting a route into parts of 16 rules and applying the parts to a shared cluster |
| `Lifecycle` | translate, apply, update the Gateway, and only then disable or remove the Ingress |
| `IngressState`, `DerivedDns` | disabling, and the re-enabler that undoes it |
| `Nginx`, `Snippets`, `SnippetConflicts`, `Filters` | generated nginx directives with their meaning, the election of an owner per server directive, and filter references |
| `CacheShards`, `ReconcileCache` | the persisted reconcile cache against a log of real reconciles |
| `Options`, `Ordering`, `Text`, `HttpRoutes`, `Ownership` | shared types; Go's string order and sorting; splitting, trimming and decimal integers |

Objects that the program updates in place are classes whose methods are tied to functions (or to step relations);
the theorems are about those functions and relations. API calls are methods that may fail at any time; where the
program must cope with it, a failed write may have taken effect all the same. Maps are visited in any order.

## What turned out false, and when it holds

* Folding canaries keeps the path that serves a request exactly when no later copy of the path steals it
  (`Served.FoldingExactly`). Distinct paths are enough, and so are copies with the same text and a backend
  (`Routing.NobodyTakesOver`); the empty path and "/" can collide (`Routing.EmptyAndSlashCollide`).
* Re-enabling restores an Ingress exactly when its class settings and hostname source survive being saved
  (`IngressState.ReenablingRestores`; for each restore option by itself, `IngressState.OptionsRestore`). In particular a hostname source is lost when the re-enabler runs and external-dns
  was never disabled.
* One apply call is enough exactly when it does not leave a stale part; two are enough exactly when nobody else's route
  holds a desired name (`HttpRouteManager.OneCall`, `HttpRouteManager.TwoCallsConverge`).
* The oldest Ingress of a namespace with a server directive is never suppressed, but the oldest on one host can be: a host
  can be left without any owner (`SnippetConflicts.AHostCanBeLeftWithoutOwner`). A host has one exactly when its oldest
  contender's value is usable and nobody older contends on another of its hosts (`SnippetConflicts.HostHasOwnerExactly`).
* A merge opens a host to a namespace exactly when the host is not shut: its listener admits the namespace already, or has
  a matchExpressions requirement to add it to (`MergeAdmits.MergeHostsAdmits`, `MergeAdmits.ShutForms`,
  `Merge.LabelFormIsNotMerged`). Make-before-break is stated under the same condition, for any Gateway.
* The Gateway does not always converge: an execution that writes what it listed before a route was created loses that
  route (`StaleWrite.StaleWriteLosesARoute`). In every state of every run it has converged exactly when the routes it was
  last told about ask for the same host map as the live ones (`LastWrite.ConvergedExactly`); when an execution made the
  last write, exactly when the host map it listed is the live one (`LastWrite.LastExecutionDecides`). Runs whose executions
  are harmless always get there (`Convergence.EveryRunConverges`).
* Cache entries whose resource version has a '|' are dropped on reload, never misread (`CacheShards.FormatParse`).
* When the Ingresses of a namespace cannot be listed, a primary is rebuilt without its canaries
  (`Lifecycle.CanariesFound` in `Lifecycle.Completed`), and snippet conflicts are not detected.

## Model

| member | source | states |
|---|---|---|
| Listeners.CalculateDesiredListenerState | internal/controller/httproute_controller.go:474-489 | the loops compute, for the set of listed routes, each host with exactly the namespaces that want it |
| Listeners.DesiredStateIsWanted | internal/controller/httproute_controller.go:474-489 | the desired state depends on which routes there are, not on their order or repetition |
| GatewayObject.Gateway.FindListenerByHostname | internal/controller/httproute_controller.go:613-620 | the first listener of the hostname, or -1 |
| GatewayObject.Gateway.AddNamespaceToListener | internal/controller/httproute_controller.go:724-748 | the namespace is added to the first matchExpressions requirement on the namespace label and the list sorted; the flag is exact |
| GatewayObject.Gateway.UpdateGatewayListeners | internal/controller/httproute_controller.go:560-610 | merges a route host by host; "updated" is true exactly when listeners or mismatch annotation changed |
| Merge.MergeHostMeaning | internal/controller/httproute_controller.go:576-595 | merging one host adds one namespace to that host's set and keeps the Gateway in the controller's form |
| Merge.IncrementalRefinesFull | internal/controller/httproute_controller.go:474-489 | from an empty Gateway, merging any routes in any order with repeats gives the host-to-namespaces map of the full recomputation |
| Merge.MergeOnlyAdds | internal/controller/httproute_controller.go:560-610 | a merge drops no listener and no namespace, admits the route on all its hosts, adds nothing else, and keeps every list sorted and duplicate-free |
| Merge.UnchangedMergeAdmits | internal/controller/httproute_controller.go:302-310 | a merge that changes nothing had nothing to add, so skipping the scheduled update is safe |
| Merge.LabelFormIsNotMerged | internal/controller/httproute_controller.go:724-748 | a listener in the label form is skipped by the merge and does not admit the new namespace |
| Merge.MergeHostGrows | internal/controller/httproute_controller.go:560-610 | every change of a merge grows a weight, so the "updated" flag never hides a change undone by a later one |
| MergeAdmits.MergeHostsAdmits | internal/controller/httproute_controller.go:560-610 | for any listeners: a merge admits the namespace on exactly the route's hosts that are not shut, takes nothing away and adds nothing else |
| MergeAdmits.ShutForms | internal/controller/httproute_controller.go:724-748 | no host is shut in the controller's own form; in the label form exactly those that name another namespace |
| MergeAdmits.MergeHostsTls | internal/controller/httproute_controller.go:583-592 | certificates are first come: a listener that has one keeps it, a host of the route without one gets the route's |
| GatewayObject.Gateway.UpdateListenerNamespaces | internal/controller/httproute_controller.go:623-670 | both selector forms get exactly the given namespaces; the flag is exact |
| GatewayObject.Gateway.RemoveUndesired | internal/controller/httproute_controller.go:503-520 | step 1 keeps the desired listeners in order and reports whether any was dropped |
| GatewayObject.Gateway.ReconcileListenersToDesiredState | internal/controller/httproute_controller.go:493-557 | the full specification `Reconciled` for every map order and any listeners, also several of one hostname; the flag is true exactly when the listener list changed |
| Recompute.ListenerAfter | internal/controller/httproute_controller.go:493-557 | every remaining listener is desired, has exactly the desired namespaces, the desired TLS, or its old TLS when that is unknown |
| Recompute.HostsAfter | internal/controller/httproute_controller.go:524-553 | a host has a listener afterwards iff it is desired and its TLS is known or it had one before |
| Recompute.RecomputedMeaning | internal/controller/httproute_controller.go:493-557 | the Gateway's host map equals the desired one, except that TLS-unknown hosts gain no new listener |
| Recompute.RecomputeIsIdempotent | internal/controller/httproute_controller.go:493-557 | a second pass with the same inputs leaves the listeners as they are, whatever their form |
| ListenerTls.BuildDesiredListenerTls | internal/controller/httproute_controller.go:967-1069 | TLS map, unknown hosts and sorted mismatch list are functions of the set of routes: the same for every permutation |
| CertificateChoice.BuiltTlsIsRight | internal/controller/httproute_controller.go:967-1069 | those functions in the Ingresses' own fields: for each desired host the secret of the first tls entry of the first offering rule of the smallest offering Ingress, in its namespace, or the automatic one in the Gateway's when that does not match; none for unknown or unoffered hosts; the reports are exactly the replacements |
| CertificateChoice.CertificateIsRight | internal/controller/httproute_controller.go:1031-1060 | the same for one host |
| ListenerTls.ConsideredIsBest | internal/controller/httproute_controller.go:984-1029 | after one more route, each host's candidate is that of the smallest ingress key that brings TLS for it |
| ListenerTls.ChoiceIsSmallest | internal/controller/httproute_controller.go:984-1032 | the chosen Ingress brings TLS for the host, and no Ingress with a smaller key does |
| Debouncer.GatewayUpdateDebouncer.ScheduleGatewayUpdate | internal/controller/httproute_controller.go:82-98 | stops the pending timer if it can, arms a new one, and keeps the invariant |
| Debouncer.GatewayUpdateDebouncer.BeginExecute | internal/controller/httproute_controller.go:101-110 | a callback removes its gateway's map entry under the lock, and keeps the invariant |
| Debouncer.LatestIsNeverStopped | internal/controller/httproute_controller.go:82-110 | in every reachable state the latest timer of a gateway is not stopped, and a map entry names a timer neither stopped nor run |
| Debouncer.NoRequestIsLost | internal/controller/httproute_controller.go:82-110 | in every interleaving, after a request either a callback is outstanding or the routes were listed after that request |
| Debouncer.ScheduleMeaning | internal/controller/httproute_controller.go:82-98 | a pending timer that has not fired is stopped, one that has is left to run, a new one is armed and pending |
| Debouncer.BurstArmsOnce | internal/controller/httproute_controller.go:82-98 | however many requests come before the timer fires, one timer is armed for them |
| Debouncer.RaceArmsTwoTimers | internal/controller/httproute_controller.go:82-110 | a concrete run in which Stop loses the race and two timers are armed for one gateway |
| Convergence.EveryRunConverges | internal/controller/httproute_controller.go:244-471 | in every fair run, with no event and no callback outstanding, the Gateway means what the live routes want, and is absent iff there are none |
| LastWrite.ConvergedExactly | internal/controller/httproute_controller.go:244-471 | in every state of every run, fair or not: the Gateway has converged iff the routes it was last told about ask for what the live routes ask for |
| LastWrite.LastExecutionDecides | internal/controller/httproute_controller.go:101-174 | if an execution made the last write, stale or not, the Gateway has converged iff the host map it listed is the live one |
| LastWrite.WriteConverges | internal/controller/httproute_controller.go:101-174 | one debounced write converges iff it lists what the live routes ask for |
| LastWrite.StepObeys | internal/controller/httproute_controller.go:82-471 | after every step the Gateway means what it was told: listed routes, or one route more |
| Convergence.StepKeeps | internal/controller/httproute_controller.go:82-471 | every route event, handler, timer and execution step keeps the invariant |
| Convergence.HandlingKeeps | internal/controller/httproute_controller.go:302-331 | a route handled while the Gateway exists is scheduled, or is already admitted everywhere |
| Convergence.MergingKeeps | internal/controller/ingress_controller.go:385-417 | the Ingress controller's own merge of a stored route keeps the invariant |
| Convergence.CommitKeeps | internal/controller/httproute_controller.go:101-174 | a debounced write keeps the invariant, fresh or followed by another |
| StaleWrite.StaleWriteLosesARoute | internal/controller/httproute_controller.go:101-174 | a run in which an execution writes what it listed before a route was created, and the route is lost for good |
| ReferenceGrants.GetSourcesFromAnnotation | internal/controller/httproute_controller.go:908-921 | the trimmed, non-blank parts of the annotation in order |
| ReferenceGrants.GrantStore.EnsureReferenceGrant | internal/controller/httproute_controller.go:767-847 | success registers the route in the grant; after a failure the grant is as before or registered |
| ReferenceGrants.GrantStore.CleanupReferenceGrant | internal/controller/httproute_controller.go:850-905 | success removes the route, and the grant with its last one; after a failure the grant is as before or that |
| ReferenceGrants.GrantCountsRoutes | internal/controller/httproute_controller.go:767-921 | over every sequence of calls the grant exists iff a route is registered, and its annotation parses back to the sorted list of registered routes |
| ReferenceGrants.ForeignGrantIsKept | internal/controller/httproute_controller.go:767-905 | a grant that is not managed is never changed |
| Canary.ConfigOf | internal/translator/canary.go:61-89 | an accepted configuration has 0 <= weight <= total, total positive, both 32-bit |
| Canary.ParseCanaryConfig | internal/translator/canary.go:61-89 | the field-by-field parser accepts exactly those annotations and yields that configuration |
| Canary.CollectCanaryEntries | internal/translator/canary.go:99-126 | the nested loops compute the last offer per path over all valid canaries |
| Canary.LastWinsMeaning | internal/translator/canary.go:99-126 | an entry is the offer made last for its path |
| Served.OffersMeaning | internal/translator/canary.go:99-126 | what is offered: by every valid canary the backend of each of its paths, for the text of that path |
| Canary.EntriesHaveValidWeights | internal/translator/canary.go:99-126 | every collected split has both weights in 0..total |
| Canary.BuildCanaryRules | internal/translator/canary.go:155-185 | override rules in the order never, header, cookie, then the weighted rule |
| Canary.BuildHttpRouteRules | internal/translator/translator.go:733-755 | the loops flatten the paths of all hosts in order and compile each; what the rules then do is stated by the members of `Served` |
| Served.ServedExactly | internal/translator/translator.go:733-786 | the compiled rules serve a request iff some path asks for it: an empty path for every request, an exact one for its own text, any other as a prefix |
| Served.PlainlyChosen | internal/translator/translator.go:733-804 | without canaries the rule of the first exact path that asks for the request serves it, else of the first with the longest prefix |
| Served.RequestGoesWhereAsked | internal/translator/canary.go:155-266 | with canaries the chosen path's service, canary settings and filters decide, unless a later copy of the path steals the request |
| Served.FoldingExactly | internal/translator/canary.go:99-266 | that holds iff no later copy of the chosen path is steered by a canary condition that the chosen path lacks |
| Served.RulesCarryFilters | internal/translator/translator.go:724-755 | every compiled rule carries the Ingress's filters |
| Served.ConfigMeaning | internal/translator/canary.go:61-89 | a canary configuration is accepted iff its weights are in range, and each of its settings is that of the annotation of its name |
| Served.SomePathIsChosen | internal/translator/translator.go:733-755 | a request has a chosen path iff some path asks for it |
| Routing.WinnerIsUnique | internal/translator/translator.go:733-755 | precedence picks at most one rule |
| Routing.SomeRuleWins | internal/translator/translator.go:733-755 | precedence picks a rule whenever some match holds |
| Routing.BlockWinner | internal/translator/canary.go:155-266 | within one path: never, then header, then cookie, else the split of (total - weight)/weight |
| Routing.FoldingPreservesMeaning | internal/translator/translator.go:733-755 | for any paths and request, the compiled rules pick the path of the canary-free translation and send the request where the canary settings say, iff no later copy of the path takes over |
| Routing.NobodyTakesOver | internal/translator/canary.go:99-126 | no copy takes over when path matches are distinct, or copies share text and have backends |
| Routing.FoldingServesTheSame | internal/translator/translator.go:733-755 | folding canaries changes no request from served to unserved or back |
| Routing.EmptyAndSlashCollide | internal/translator/translator.go:759-764 | a concrete Ingress where the empty path serves a request and a header canary on "/" takes it over |
| HttpRouteManager.SplitHttpRouteIfNeeded | internal/utils/httproute.go:66-109 | the loop builds exactly the parts: chunk n under name-(n+1), the first under the name itself |
| HttpRouteManager.SplitMeaning | internal/utils/httproute.go:66-109 | the parts concatenate to the original rules, hold at most 16 each and all but the last exactly 16, differ in nothing else, and have distinct names |
| HttpRouteManager.Cluster.GetHttpRoutesWithPrefix | internal/utils/httproute.go:44-63 | exactly the managed routes of this Ingress with its name as prefix, each once |
| Ownership.OwnMeaning | internal/utils/resource.go:47-61 | an own route by namespace, name prefix and its two annotations |
| Ownership.OneOwner | internal/utils/resource.go:47-61 | no object is managed for two Ingresses |
| HttpRouteManager.Cluster.ApplyHttpRoute | internal/utils/httproute.go:182-247 | success stores annotations and spec or leaves an unmanaged object alone; whatever happens no other object changes |
| HttpRouteManager.Cluster.ApplyHttpRoutesAtomic | internal/utils/httproute.go:114-179 | success updates in place or replaces all own routes; however it ends, foreign routes at other names and unmanaged routes are untouched |
| HttpRouteManager.OneCall | internal/utils/httproute.go:137-140 | one successful call leaves exactly the desired parts iff there was not a single own route under another name than the single desired one |
| HttpRouteManager.TwoCallsConverge | internal/utils/httproute.go:114-179 | from any state two successful calls leave exactly the desired parts and every other route untouched, iff no foreign route held a desired name |
| HttpRouteManager.SuccessIsInPlace | internal/utils/httproute.go:114-247 | after success every part is stored or its name is held by an unmanaged object, from any state |
| HttpRouteManager.SplitPartsAreApplicable | internal/utils/httproute.go:66-109 | the parts of a translated route meet what convergence of applying needs |
| Lifecycle.TranslateToHttpRouteWithCanaries | internal/translator/translator.go:683-729 | name, ownership annotations, transformed hostnames, one parent reference per hostname, and compiled rules of the route |
| Lifecycle.TranslatedRouteConverges | internal/controller/ingress_controller.go:329-355 | applying the split parts of the translated route twice leaves exactly them and every other route untouched, iff no foreign route held a desired name |
| Lifecycle.HostnamesMeaning | internal/translator/translator.go:699-708 | the route's hostnames are exactly the transformed non-empty hosts |
| Lifecycle.Operator.FindCanarySiblings | internal/controller/ingress_controller.go:459-490 | exactly the active canaries of the same class that share a host and path; none only when listing failed |
| Lifecycle.Operator.UpdateGateway | internal/controller/ingress_controller.go:357-417 | on success the stored, managed Gateway admits the namespace on exactly the hosts that were not shut, whatever its listeners; other Gateways and unmanaged ones are untouched |
| Lifecycle.Operator.ReconcileIngressToHttpRoute | internal/controller/ingress_controller.go:279-443 | with any call failing, the sound steps taken lead from the world before to the world after, one step for an Ingress that is not a canary; terminates |
| Lifecycle.Operator.ReconcilePrimary | internal/controller/ingress_controller.go:329-443 | a reconcile that finished has done all its steps on the operator's own routes, Gateways and Ingresses; one that touched the Ingress had everything in place before |
| Lifecycle.Operator.ReconcileCanaryPrimaries | internal/controller/ingress_controller.go:494-527 | the mutual recursion terminates and links sound steps; on success every primary of the canary has one, as it was found and without an error |
| Lifecycle.Operator.ApiWriteIngress | internal/controller/ingress_controller.go:1279-1532 | no write to an Ingress without all that replaces it being in the cluster's routes and stored Gateways at that moment |
| Lifecycle.Operator.TakeOutOfService | internal/controller/ingress_controller.go:419-439 | disabling or removing requires that everything was made before in the current cluster, and changes no other Ingress |
| Lifecycle.Operator.DisableIngress | internal/controller/ingress_controller.go:1279-1352 | on success the Ingress is in its disabled state; no other Ingress changes |
| Lifecycle.Operator.RemoveIngress | internal/controller/ingress_controller.go:1486-1532 | on success the Ingress is gone; no other Ingress changes |
| Lifecycle.NothingBreaksBeforeItIsMade | internal/controller/ingress_controller.go:279-443 | a reconcile that touched an Ingress left in the cluster parts that hold all compiled rules on every transformed host; every hostname has a parent reference, each naming a stored Gateway of ours that admits the namespace on that listener iff it was not shut, always in the controller's own form |
| Lifecycle.GatewayMeaning | internal/controller/ingress_controller.go:309-317 | which Gateway an Ingress belongs to, from its name, class field and class annotation |
| Lifecycle.ModeMeaning | internal/controller/ingress_controller.go:806-820 | an Ingress marked external-dns is never taken out of service, one marked disabled never removed, otherwise the configured mode decides |
| Lifecycle.LeftAlone | internal/controller/ingress_controller.go:746-804 | ignored, removed, filtered and self-deleted Ingresses are left alone, and so is any Ingress once it was disabled |
| Lifecycle.CanaryMeaning | internal/controller/ingress_controller.go:459-552 | which Ingresses are canaries of a primary, by their fields; reconciling a canary visits exactly the primaries that find it |
| Lifecycle.TranslationIsAnnotated | internal/translator/translator.go:692-697 | the route's annotations are the copied ones and the two that mark it as ours |
| Lifecycle.ChangeHasAStep | internal/controller/ingress_controller.go:494-527 | over any chain of reconciles, an Ingress that changed was changed by a step of its own, which was made before |
| IngressState.IngressStore.DisableIngress | internal/controller/ingress_controller.go:1279-1352 | the stored Ingress is as before or disabled, with originals saved once |
| IngressState.DisableMeaning | internal/controller/ingress_controller.go:1279-1352 | disabling changes nothing iff the Ingress is marked or has the disabled class in both places; otherwise it leaves the mark and that class in both |
| IngressState.IngressStore.DisableExternalDns | internal/controller/ingress_controller.go:1356-1433 | the stored Ingress is as before or has external-dns disabled, with originals saved once |
| IngressState.IngressStore.RestoreIngressState | cmd/reenabler/main.go:476-587 | within three attempts the stored Ingress is restored, or it is as before |
| IngressState.IngressStore.ProcessIngress | cmd/reenabler/main.go:312-345 | for every choice of restore options the stored Ingress is processed or as before |
| IngressState.OptionsRestore | cmd/reenabler/main.go:312-345 | after any run of disabling and for every choice of options, annotation by annotation against the original: class settings back iff they survive, hostname source back iff it survives, each untouched without its option, everything else as it was |
| IngressState.ProcessedSteps | cmd/reenabler/main.go:442-454 | the test whether to restore skips only what would change nothing |
| IngressState.DisablingCommutes | internal/controller/ingress_controller.go:1279-1433 | the two kinds of disabling commute, for every Ingress |
| IngressState.OrderDoesNotMatter | internal/controller/ingress_controller.go:1279-1433 | any interleaving of any length equals one of four canonical states |
| IngressState.ReenablingRestores | cmd/reenabler/main.go:442-548 | after any run of disabling, re-enabling gives back the original Ingress iff class settings and hostname source survive; every other annotation always comes back |
| DerivedDns.CountersMeanCoverage | cmd/reenabler/main.go:836-906 | the three counters agree and are not zero iff some route has a parent reference naming the Gateway, by name and namespace, and every route that does is own and updated in this run |
| DerivedDns.RefsCount | cmd/reenabler/main.go:966-975 | the counter counts each parent reference naming the Gateway, read off its fields, once |
| DerivedDns.DnsDisabledMeaning | cmd/reenabler/main.go:928-964 | external-dns reads annotations only afterwards, previous hostname and source can be told, everything else is as before; twice is once |
| DerivedDns.RouteUpdated | cmd/reenabler/main.go:856-877 | a route counts as updated iff its source changes or it gets marked |
| DerivedDns.ManagedWithMeaning | internal/utils/resource.go:65-102 | managed, with the Ingress among the comma-separated sources |
| DerivedDns.SumOfPart | cmd/reenabler/main.go:836-906 | a part of the routes holds as many references as all of them iff the rest hold none |
| DerivedDns.Cluster.CountAll | cmd/reenabler/main.go:834-851 | the nested loops count each parent reference once, over all routes and over managed ones |
| DerivedDns.Cluster.UpdateRoutes | cmd/reenabler/main.go:856-890 | own routes get external-dns disabled, and the counter counts exactly the references of those that changed |
| DerivedDns.Cluster.DisableExternalDnsForDerived | cmd/reenabler/main.go:809-926 | at any failure point a changed Gateway was covered and all its routes are updated; on success exactly the covered, managed Gateways are changed |
| DerivedDns.ApplyExternalDnsDisableAnnotations | cmd/reenabler/main.go:928-964 | annotation-only is set with originals saved once; the flag is exact |
| SnippetConflicts.IsOlderIsStrictTotalOrder | internal/controller/ingress_controller.go:643-650 | irreflexive, asymmetric, transitive, and total on distinct names |
| SnippetConflicts.DetectSnippetConflicts | internal/controller/ingress_controller.go:560-640 | suppresses exactly the server directives that an older candidate sharing a host also declares |
| SnippetConflicts.OverridesMeaning | internal/controller/ingress_controller.go:602-650 | who takes a directive from an Ingress, by fields: another, not canary, not being deleted, in scope, older or equally old with a smaller name, with the annotation, on a common host |
| SnippetConflicts.AtMostOneOwner | internal/controller/ingress_controller.go:560-640 | for every host and server directive at most one Ingress emits it |
| SnippetConflicts.ServerBlocksDoNotCollide | internal/utils/snippets.go:574-592 | the same for the generated server lines, whatever order the annotations are read in |
| SnippetConflicts.HostOwnedByOldest | internal/controller/ingress_controller.go:560-640 | a host has an owner iff its oldest contender emits the directive |
| SnippetConflicts.HostHasOwnerExactly | internal/controller/ingress_controller.go:560-640 | every contended host has an oldest contender, and an owner iff that one's value is usable and nobody older contends on another of its hosts |
| SnippetConflicts.OldestIsNeverSuppressed | internal/controller/ingress_controller.go:602-613 | the oldest Ingress of the namespace with the annotation is not suppressed |
| SnippetConflicts.AHostCanBeLeftWithoutOwner | internal/controller/ingress_controller.go:554-559 | three Ingresses on two hosts such that nobody emits the directive on one of them |
| Snippets.IngestNginxIngressAnnotations | internal/utils/snippets.go:556-602 | the loop folds the annotations one by one |
| Snippets.LocationBlockMeaning | internal/utils/snippets.go:556-602 | in terms of the annotations, in any reading order: who is redirected and who is admitted by the generated location block |
| Snippets.ServerBlockMeaning | internal/utils/snippets.go:574-592 | a server directive is generated iff declared with a usable value and not suppressed, and once |
| Snippets.BuildNginxIngressSnippets | internal/utils/snippets.go:458-511 | from annotations to blocks: who is redirected, who is admitted, what is rewritten, and which directives are set, for every request |
| Nginx.UniqueStrings | internal/utils/snippets.go:920-938 | the loop with its seen set computes the trimmed, non-blank values without repetition |
| Nginx.UniqueMeaning | internal/utils/snippets.go:920-938 | each non-blank trimmed value exactly once |
| Nginx.AppendForceSslRedirectLines | internal/utils/snippets.go:880-897 | the set/if sequence for the given headers |
| Nginx.AppendRewriteAndAclLines | internal/utils/snippets.go:899-918 | rewrite, denials, allowances, and a final denial when an allowlist is given |
| Nginx.BuildLocationContextLines | internal/utils/snippets.go:851-864 | the order of the groups of lines in the location block |
| Nginx.RedirectsWhenInsecure | internal/utils/snippets.go:880-897 | running the block redirects iff forced, the scheme is not https and no proxy header matches |
| Nginx.AdmitsByLists | internal/utils/snippets.go:899-918 | first-match access admits iff no denied range holds the client and the allowlist is empty or has a range that does, for any lists |
| Nginx.RewritesToTarget | internal/utils/snippets.go:899-907 | the block rewrites iff a target is given, to that target, capturing the path iff regular expressions are on or the target refers to one |
| Filters.HttpRouteObject.AddExtensionRefFilterAfterExistingKind | internal/utils/snippets.go:1620-1674 | every rule of the route gets the reference at its slot, unless it has it |
| Filters.AddToRule | internal/utils/snippets.go:1633-1673 | scan, append or shift in place yields the list with the reference behind the last of its kind |
| Filters.ShiftRight | internal/utils/snippets.go:1670-1671 | the overlapping copy moves the tail up by one and nothing else |
| Filters.AddedAllMeaning | internal/utils/snippets.go:1620-1674 | adding any list of names inserts the new references together, in order, right behind the last of their kind |
| Filters.SlotMeaning | internal/utils/snippets.go:1635-1650 | the place of insertion is right behind the last reference of the group and kind, or the end |
| Filters.AddingKeepsTheRest | internal/utils/snippets.go:1620-1674 | the other filters keep their order, every name is referenced, no duplicate appears |
| Filters.AddingIsIdempotent | internal/utils/snippets.go:1620-1674 | adding the same names again changes nothing |
| CacheShards.FormatParse | internal/utils/reconcile_cache.go:165-182 | a printed entry reads back as itself iff its resource version has no separator, for every int64; otherwise it is dropped |
| CacheShards.Fnv32aOf | internal/utils/reconcile_cache.go:143-154 | the loop computes the 32-bit hash of the bytes |
| CacheShards.KnownHashes | internal/utils/reconcile_cache.go:143-154 | published values of the hash |
| CacheShards.ShardMeaning | internal/utils/reconcile_cache.go:135-141 | one shard takes everything, several share by the remainder of the hash |
| CacheShards.ReconcileCacheShardForKey | internal/utils/reconcile_cache.go:135-141 | the hash modulo the 32-bit count, in range, also for counts below one |
| CacheShards.ExactlyOneShard | internal/utils/reconcile_cache.go:91-99 | every entry lands in exactly one shard |
| CacheShards.ConfigMaps.SaveReconcileCacheSharded | internal/utils/reconcile_cache.go:81-133 | success overwrites all shards and nothing else; after a failure each shard is new or as before, under its own name, and every other ConfigMap is as before |
| CacheShards.ConfigMaps.LoadReconcileCacheSharded | internal/utils/reconcile_cache.go:43-79 | the union of the readable, recent entries of all shards |
| CacheShards.SaveLoad | internal/utils/reconcile_cache.go:43-133 | save then load gives exactly the entries at or after the cutoff without a separator, whatever was stored before |
| ReconcileCache.ReconcilerCache.ShouldSkipReconcile | internal/controller/ingress_controller.go:1859-1884 | the answer and the removal of an expired entry |
| ReconcileCache.AskMeaning | internal/controller/ingress_controller.go:1859-1884 | skip iff the version is not empty, stored for the UID, and within the TTL; only an expired entry of that version is dropped |
| ReconcileCache.NothingStoredUnasked | internal/controller/ingress_controller.go:1931-1936 | nothing is stored unless persistence is on and has a place |
| ReconcileCache.ReconcilerCache.MaybeRecordReconcile | internal/controller/ingress_controller.go:1899-1947 | records only reconciles without error or requeue, keeps the size bound, and persists, completely when the save succeeds |
| ReconcileCache.ReconcilerCache.EvictOldestCacheEntries | internal/controller/ingress_controller.go:1216-1233 | evicts exactly down to the bound, and nothing newer than a survivor |
| ReconcileCache.ReconcilerCache.EvictReconcileCache | internal/controller/ingress_controller.go:1182-1214 | forgets one Ingress and persists, completely when the save succeeds |
| ReconcileCache.ReconcilerCache.RestartFrom | cmd/operator/main.go:621-638 | a new process starts from the stored shards, or from nothing when they cannot be read |
| ReconcileCache.StepKeepsHonest | internal/controller/ingress_controller.go:1859-1947 | every entry in memory or persisted tells of a reconcile that happened, after every step |
| ReconcileCache.SkipIsJustified | internal/controller/ingress_controller.go:1859-1884 | in every run, across restarts and failed saves, a skip means a reconcile of that UID ended without error or requeue at that resource version within the TTL |
| ReconcileCache.RecordedIsSkipped | internal/controller/ingress_controller.go:1859-1930 | without a size bound a recorded reconcile is skipped iff the time is not up |
| ReconcileCache.RecordedIsSkippedAfterRestart | internal/utils/reconcile_cache.go:43-133 | also after a successful save and a restart, iff moreover the entry is not older than the cutoff and its resource version has no separator |
| ReconcileCache.CleanIdIsItsKey | internal/utils/reconcile_cache.go:156-163 | a UID without blanks around it and without a slash is its own key |
| ReconcileCache.KeysCollide | internal/utils/reconcile_cache.go:156-163 | the key function is not injective on identifiers with a slash, which UIDs are not |

## Assumptions

* A handler or reconcile runs as one step (its API calls may fail, but nobody interleaves with it), except in
  `Convergence`, where listing and writing of a debounced execution are separate steps, and in
  `HttpRouteManager.Cluster.ApiUpdate`, where the object can vanish just before an update.
* `Convergence` follows one Gateway. API calls succeed there, a live route's hosts are fixed and not empty, its source
  Ingress resolves, and the Ingress controller merges a route while that is stored. `Convergence.EveryRunConverges`
  assumes besides that a route is deleted only after its first reconcile, and that executions are harmless: what they
  write asks for what the live routes ask for, or another execution follows and they do not empty the Gateway. A
  single-step execution is always harmless. `LastWrite` assumes neither.
* Which namespaces a listener admits is read from a namespace selector in one of the two forms that the controllers
  write. The merge and the recomputation are specified for listeners of any form; for a foreign selector, or a listener
  open to all namespaces, "admits" covers only what those two forms would say. `Recompute.RecomputedMeaning` and the
  lemmas it builds on are about Gateways in the two forms with one listener per hostname.
* Namespaces, also those in parent references, have no slash, and the path of an HTTP request starts with one.
* Strings are sequences of characters, and of bytes where they are hashed; no Unicode case folding. Header names are
  compared as they are spelled.
* Hostname rewriting, class filter patterns, cookie and header patterns, certificate matching, address ranges, parsing of
  ssl-proxy-headers and the text of mismatch reports are parameters of the model.
* Clock readings are parameters; nothing is assumed about their order.

## Left out

- Routing.FoldingPreservesMeaning: speaks of the unsplit route, because between parts ties are decided by creation time and name.
- Canary.BuildHttpRouteRules: flattens all hosts into one list as the program does; that a path of one host then serves the other hosts is not judged.
- HttpRouteManager.Cluster.ApiDelete: removes at once; a finalizer on the HTTPRoute, which delays removal, is not modelled.
- Lifecycle.Operator.ReconcileCanaryPrimaries: what a primary's reconcile left is stated at the end of its own step, because a later one may merge into the same Gateway.
- Lifecycle.TranslateToHttpRouteWithCanaries: extension references and the resolution of named ports, which edit filters and ports of the rules afterwards, are not applied in this module.
- Lifecycle.Operator.UpdateGateway: the best-effort ReferenceGrant call between the two Gateway steps is not part of it; grants are modelled in their own module.
- Lifecycle.Operator.DisableIngress: clearing the load-balancer status is not modelled.
- IngressState.IngressStore.ProcessIngress: deletion of Ingresses, marking them ignored or disabled afterwards, and removal of derived resources are not modelled.
- ListenerTls.BuildDesiredListenerTls: mismatch reports are opaque texts, sorted; the merged annotation has no specified order.
- GatewayObject.Gateway.UpdateGatewayListeners: the certificates that the source Ingress brings for the merged route are a parameter; only the full recomputation's choice is modelled.
- Merge.IncrementalRefinesFull: covers hostnames and namespaces, not TLS, because the merge takes the first certificate it meets and the recomputation the one of the smallest key.
- Snippets.IngestNginxIngressAnnotations: warnings, external-auth inputs and directives other than access rules, redirects, rewrites and copied directives are consumed without effect.
- CacheShards.ReconcileCacheShardForKey: shard counts that are multiples of 2^32 are excluded, because the program would divide by zero.
- ReferenceGrants.GrantStore.EnsureReferenceGrant: the retry after somebody else created the grant in between is not modelled, as a call runs in one step.
- Host and path overlap warnings, events, metrics and logging: no effect on objects.
- The admission webhook, the ingress2gateway path, auth_request generation, CRD lookup, snippet and extension copies: not modelled.
- Deletion of an Ingress with cleanup of its HTTPRoutes, and removal of empty Gateways by the re-enabler: not modelled.
- TransformHostname: hostname rewriting is a parameter, any function; its own rules (suffix replacement and validity) are not modelled.
- Name sanitising and truncation of listener, secret and snippet names: easy, and they promise no uniqueness.
