/** Taking a source Ingress out of service, by class or for external-dns only, and the
    re-enabler that undoes it from the annotations left behind. */
module IngressState {
  import opened Options
  import opened HttpRoutes

  /** Annotation keys and the values with a meaning, gathered so that a proof can forget their
      spelling and keep that they differ. */
  datatype Names = Names(
    ingressClass: string, disabled: string, originalClass: string, originalClassName: string,
    hostname: string, originalHostname: string, hostnameSource: string, originalHostnameSource: string,
    annotationOnly: string, disabledClass: string, normal: string, externalDns: string)

  const N := Names(
    "kubernetes.io/ingress.class",
    "ingress-doperator.fiction.si/disabled",
    "ingress-doperator.fiction.si/original-ingress-class",
    "ingress-doperator.fiction.si/original-ingress-classname",
    "external-dns.alpha.kubernetes.io/hostname",
    "ingress-doperator.fiction.si/original-external-dns-hostname",
    "external-dns.alpha.kubernetes.io/ingress-hostname-source",
    "ingress-doperator.fiction.si/original-external-dns-ingress-hostname-source",
    "annotation-only",
    "ingress-doperator-disabled",
    "normal",
    "external-dns")

  const CLASS := N.ingressClass
  const DISABLED := N.disabled
  const ORIGINAL_CLASS := N.originalClass
  const ORIGINAL_CLASS_NAME := N.originalClassName
  const HOSTNAME := N.hostname
  const ORIGINAL_HOSTNAME := N.originalHostname
  const HOSTNAME_SOURCE := N.hostnameSource
  const ORIGINAL_HOSTNAME_SOURCE := N.originalHostnameSource
  const ANNOTATION_ONLY := N.annotationOnly
  const DISABLED_CLASS := N.disabledClass
  const NORMAL := N.normal
  const EXTERNAL_DNS := N.externalDns

  datatype Ingress = Ingress(className: Option<string>, annotations: Annotations)

  // ---------------------------------------------------------------- the effects

  function ClassSaved(s: Ingress): Annotations {
    var a := s.annotations;
    var b := if s.className.Some? && s.className.value != "true" && ORIGINAL_CLASS_NAME !in a
             then a[ORIGINAL_CLASS_NAME := s.className.value] else a;
    if CLASS in b && b[CLASS] != "" && ORIGINAL_CLASS !in b then b[ORIGINAL_CLASS := b[CLASS]] else b
  }

  predicate HasDisabledClass(s: Ingress) {
    s.className == Some(DISABLED_CLASS) && Get(s.annotations, CLASS) == Some(DISABLED_CLASS)
  }

  /** disableIngress: nothing is stored when both class settings are the disabled class already. */
  function AfterDisable(s: Ingress): Ingress {
    if Annotation(s.annotations, DISABLED) == NORMAL || HasDisabledClass(s) then s
    else Ingress(Some(DISABLED_CLASS), ClassSaved(s)[CLASS := DISABLED_CLASS][DISABLED := NORMAL])
  }

  function DnsSaved(a: Annotations): Annotations {
    var b := if Annotation(a, HOSTNAME) != "" && ORIGINAL_HOSTNAME !in a then a[ORIGINAL_HOSTNAME := a[HOSTNAME]] else a;
    if HOSTNAME_SOURCE in b && ORIGINAL_HOSTNAME_SOURCE !in b && b[HOSTNAME_SOURCE] != ANNOTATION_ONLY
    then b[ORIGINAL_HOSTNAME_SOURCE := b[HOSTNAME_SOURCE]] else b
  }

  /** disableExternalDNS. */
  function AfterDisableDns(s: Ingress): Ingress {
    var a := DnsSaved(s.annotations);
    var b := if Annotation(a, DISABLED) in {NORMAL, EXTERNAL_DNS} then a else a[DISABLED := EXTERNAL_DNS];
    s.(annotations := b[HOSTNAME_SOURCE := ANNOTATION_ONLY])
  }

  predicate IsDisabled(s: Ingress) {
    && Annotation(s.annotations, DISABLED) != ""
    && (s.className == Some(DISABLED_CLASS) || Annotation(s.annotations, CLASS) == DISABLED_CLASS)
  }

  predicate NeedsDnsRestore(s: Ingress) {
    || ORIGINAL_HOSTNAME in s.annotations
    || ORIGINAL_HOSTNAME_SOURCE in s.annotations
    || HOSTNAME_SOURCE in s.annotations
  }

  predicate ShouldRestore(s: Ingress, restoreDns: bool) {
    IsDisabled(s) || (restoreDns && (Annotation(s.annotations, DISABLED) == EXTERNAL_DNS || NeedsDnsRestore(s)))
  }

  /** An original value goes back; an empty or missing one means there was none. */
  function PutBack(a: Annotations, key: string, original: string): Annotations {
    if original == "" then a - {key} else a[key := original]
  }

  function ClassRestored(s: Ingress): Ingress {
    var name := Annotation(s.annotations, ORIGINAL_CLASS_NAME);
    Ingress(if name != "" then Some(name) else None,
            PutBack(s.annotations, CLASS, Annotation(s.annotations, ORIGINAL_CLASS))
            - {DISABLED, ORIGINAL_CLASS_NAME, ORIGINAL_CLASS})
  }

  function DnsRestored(a: Annotations): Annotations {
    var b := if ORIGINAL_HOSTNAME in a then PutBack(a, HOSTNAME, a[ORIGINAL_HOSTNAME]) - {ORIGINAL_HOSTNAME} else a;
    var c := if ORIGINAL_HOSTNAME_SOURCE in b
             then PutBack(b, HOSTNAME_SOURCE, b[ORIGINAL_HOSTNAME_SOURCE]) - {ORIGINAL_HOSTNAME_SOURCE}
             else b - {HOSTNAME_SOURCE};
    if Annotation(c, DISABLED) == EXTERNAL_DNS then c - {DISABLED} else c
  }

  function AfterRestore(s: Ingress, restoreClass: bool, restoreDns: bool): Ingress {
    var t := if restoreClass then ClassRestored(s) else s;
    if restoreDns then t.(annotations := DnsRestored(t.annotations)) else t
  }

  /** What the re-enabler does to an Ingress, by its restore options. */
  function Processed(s: Ingress, restoreClass: bool, restoreDns: bool): Ingress {
    if ShouldRestore(s, restoreDns) then AfterRestore(s, IsDisabled(s) && restoreClass, restoreDns) else s
  }

  /** With both options on. */
  function Reenabled(s: Ingress): Ingress {
    Processed(s, true, true)
  }

  // ---------------------------------------------------------------- the operations

  datatype Outcome = Done | Conflict | Failed

  /** The stored Ingress, edited by read-modify-write through an API that may fail. */
  class IngressStore {
    var ingress: Ingress

    constructor (s: Ingress)
      ensures ingress == s
    {
      ingress := s;
    }

    method ApiUpdate(s: Ingress) returns (o: Outcome)
      modifies `ingress
      ensures ingress == old(ingress) || ingress == s
      ensures o == Done ==> ingress == s
      ensures o == Conflict ==> ingress == old(ingress)
    {
      var conflict, lost, failed: bool := *, *, *;
      if conflict {
        return Conflict;
      }
      if lost {
        return Failed;
      }
      ingress := s;
      return if failed then Failed else Done;
    }

    method DisableIngress() returns (ok: bool)
      modifies `ingress
      ensures ok ==> ingress == AfterDisable(old(ingress))
      ensures ingress == old(ingress) || ingress == AfterDisable(old(ingress))
    {
      var s := ingress;
      if Annotation(s.annotations, DISABLED) == NORMAL {
        return true;
      }
      var classReady: bool := *;
      if !classReady {
        return false;
      }
      var modified := false;
      var className, a := s.className, s.annotations;
      if className.Some? && className.value != "true" && ORIGINAL_CLASS_NAME !in a {
        a := a[ORIGINAL_CLASS_NAME := className.value];
      }
      if CLASS in a && a[CLASS] != "" && ORIGINAL_CLASS !in a {
        a := a[ORIGINAL_CLASS := a[CLASS]];
      }
      if className != Some(DISABLED_CLASS) {
        className, modified := Some(DISABLED_CLASS), true;
      }
      if Annotation(a, CLASS) != DISABLED_CLASS {
        a, modified := a[CLASS := DISABLED_CLASS], true;
      }
      if modified {
        a := a[DISABLED := NORMAL];
        assert Ingress(className, a) == AfterDisable(s);
        var o := ApiUpdate(Ingress(className, a));
        return o == Done;
      }
      return true;
    }

    method DisableExternalDns() returns (ok: bool)
      modifies `ingress
      ensures ok ==> ingress == AfterDisableDns(old(ingress))
      ensures ingress == old(ingress) || ingress == AfterDisableDns(old(ingress))
    {
      var s := ingress;
      var a, modified := s.annotations, false;
      if HOSTNAME in a && a[HOSTNAME] != "" && ORIGINAL_HOSTNAME !in a {
        a, modified := a[ORIGINAL_HOSTNAME := a[HOSTNAME]], true;
      }
      if HOSTNAME_SOURCE in a && ORIGINAL_HOSTNAME_SOURCE !in a && a[HOSTNAME_SOURCE] != ANNOTATION_ONLY {
        a, modified := a[ORIGINAL_HOSTNAME_SOURCE := a[HOSTNAME_SOURCE]], true;
      }
      if Annotation(a, DISABLED) != NORMAL && Annotation(a, DISABLED) != EXTERNAL_DNS {
        a, modified := a[DISABLED := EXTERNAL_DNS], true;
      }
      if Annotation(a, HOSTNAME_SOURCE) != ANNOTATION_ONLY {
        a, modified := a[HOSTNAME_SOURCE := ANNOTATION_ONLY], true;
      }
      assert s.(annotations := a) == AfterDisableDns(s);
      if !modified {
        return true;
      }
      var o := ApiUpdate(s.(annotations := a));
      return o == Done;
    }

    method RestoreIngressState(restoreClass: bool, restoreDns: bool) returns (ok: bool)
      modifies `ingress
      ensures ok ==> ingress == AfterRestore(old(ingress), restoreClass, restoreDns)
      ensures ingress == old(ingress) || ingress == AfterRestore(old(ingress), restoreClass, restoreDns)
    {
      for attempt := 0 to 3
        invariant ingress == old(ingress)
      {
        var readable: bool := *;
        if !readable {
          return false;
        }
        var updated, modified := Restoring(ingress, restoreClass, restoreDns);
        if !modified {
          return true;
        }
        var o := ApiUpdate(updated);
        if o != Conflict {
          return o == Done;
        }
      }
      return false;
    }

    method ProcessIngress(restoreClass: bool, restoreDns: bool) returns (ok: bool)
      modifies `ingress
      ensures ok ==> ingress == Processed(old(ingress), restoreClass, restoreDns)
      ensures ingress == old(ingress) || ingress == Processed(old(ingress), restoreClass, restoreDns)
    {
      var disabled := IsDisabled(ingress);
      if !ShouldRestore(ingress, restoreDns) {
        return true;
      }
      ok := RestoreIngressState(disabled && restoreClass, restoreDns);
    }
  }

  method Restoring(s: Ingress, restoreClass: bool, restoreDns: bool) returns (updated: Ingress, modified: bool)
    ensures updated == AfterRestore(s, restoreClass, restoreDns)
    ensures !modified ==> updated == s
  {
    updated, modified := s, false;
    if restoreClass {
      updated := RestoringClass(s);
      modified := true;
    }
    if restoreDns {
      var a, changed := RestoringDns(updated.annotations);
      updated, modified := updated.(annotations := a), modified || changed;
    }
  }

  method RestoringClass(s: Ingress) returns (updated: Ingress)
    ensures updated == ClassRestored(s)
  {
    var a := s.annotations;
    var name, original := Annotation(a, ORIGINAL_CLASS_NAME), Annotation(a, ORIGINAL_CLASS);
    var className := if name != "" then Some(name) else None;
    if original != "" {
      a := a[CLASS := original];
    } else {
      a := a - {CLASS};
    }
    a := a - {DISABLED};
    a := a - {ORIGINAL_CLASS_NAME};
    a := a - {ORIGINAL_CLASS};
    updated := Ingress(className, a);
    assert a == PutBack(s.annotations, CLASS, original) - {DISABLED, ORIGINAL_CLASS_NAME, ORIGINAL_CLASS};
  }

  method RestoringDns(annotations: Annotations) returns (a: Annotations, modified: bool)
    ensures a == DnsRestored(annotations)
    ensures !modified ==> a == annotations
  {
    a, modified := annotations, false;
    if ORIGINAL_HOSTNAME in a {
      var original := a[ORIGINAL_HOSTNAME];
      if original != "" {
        a := a[HOSTNAME := original];
      } else {
        a := a - {HOSTNAME};
      }
      a, modified := a - {ORIGINAL_HOSTNAME}, true;
    }
    if ORIGINAL_HOSTNAME_SOURCE in a {
      var original := a[ORIGINAL_HOSTNAME_SOURCE];
      if original != "" {
        a := a[HOSTNAME_SOURCE := original];
      } else {
        a := a - {HOSTNAME_SOURCE};
      }
      a, modified := a - {ORIGINAL_HOSTNAME_SOURCE}, true;
    } else if HOSTNAME_SOURCE in a {
      a, modified := a - {HOSTNAME_SOURCE}, true;
    } else {
      assert a - {HOSTNAME_SOURCE} == a;
    }
    if Annotation(a, DISABLED) == EXTERNAL_DNS {
      a, modified := a - {DISABLED}, true;
    }
  }

  // ---------------------------------------------------------------- runs

  datatype Op = Disable | DisableDns

  function After(s: Ingress, op: Op): Ingress {
    match op
    case Disable => AfterDisable(s)
    case DisableDns => AfterDisableDns(s)
  }

  function Run(s: Ingress, ops: seq<Op>): Ingress {
    if ops == [] then s else After(Run(s, ops[..|ops| - 1]), ops[|ops| - 1])
  }

  function Canonical(s: Ingress, byClass: bool, byDns: bool): Ingress {
    var t := if byClass then AfterDisable(s) else s;
    if byDns then AfterDisableDns(t) else t
  }

  lemma NamesDiffer()
    ensures CLASS !in {DISABLED, ORIGINAL_CLASS, ORIGINAL_CLASS_NAME, HOSTNAME, ORIGINAL_HOSTNAME, HOSTNAME_SOURCE, ORIGINAL_HOSTNAME_SOURCE}
    ensures DISABLED !in {ORIGINAL_CLASS, ORIGINAL_CLASS_NAME, HOSTNAME, ORIGINAL_HOSTNAME, HOSTNAME_SOURCE, ORIGINAL_HOSTNAME_SOURCE}
    ensures ORIGINAL_CLASS !in {ORIGINAL_CLASS_NAME, HOSTNAME, ORIGINAL_HOSTNAME, HOSTNAME_SOURCE, ORIGINAL_HOSTNAME_SOURCE}
    ensures ORIGINAL_CLASS_NAME !in {HOSTNAME, ORIGINAL_HOSTNAME, HOSTNAME_SOURCE, ORIGINAL_HOSTNAME_SOURCE}
    ensures HOSTNAME !in {ORIGINAL_HOSTNAME, HOSTNAME_SOURCE, ORIGINAL_HOSTNAME_SOURCE}
    ensures ORIGINAL_HOSTNAME !in {HOSTNAME_SOURCE, ORIGINAL_HOSTNAME_SOURCE} && HOSTNAME_SOURCE != ORIGINAL_HOSTNAME_SOURCE
    ensures NORMAL != EXTERNAL_DNS && "" !in {ANNOTATION_ONLY, DISABLED_CLASS, NORMAL, EXTERNAL_DNS}
    ensures DISABLED_CLASS != "true"
  {
  }

  /** Disabling changes nothing exactly when the Ingress is marked already or has the disabled
      class in both places; otherwise it leaves the mark and that class in both. */
  lemma DisableMeaning(s: Ingress)
    ensures AfterDisable(s) == s <==>
              || Annotation(s.annotations, DISABLED) == NORMAL
              || (s.className == Some(DISABLED_CLASS) && Get(s.annotations, CLASS) == Some(DISABLED_CLASS))
    ensures AfterDisable(s) != s ==>
              && AfterDisable(s).className == Some(DISABLED_CLASS) && Get(AfterDisable(s).annotations, CLASS) == Some(DISABLED_CLASS)
              && Get(AfterDisable(s).annotations, DISABLED) == Some(NORMAL)
  {
    DisableAt(s, CLASS);
    DisableAt(s, DISABLED);
    DisabledName(s);
    assert Annotation(s.annotations, DISABLED) == NORMAL || HasDisabledClass(s) ==> AfterDisable(s) == s;
    hide AfterDisable, N;
    NamesDiffer();
  }

  lemma DisableTwice(s: Ingress)
    ensures AfterDisable(AfterDisable(s)) == AfterDisable(s)
  {
  }

  lemma DisableDnsTwice(s: Ingress)
    ensures AfterDisableDns(AfterDisableDns(s)) == AfterDisableDns(s)
  {
  }

  /** The value of annotation k after disableIngress. */
  function DisableValue(s: Ingress, k: string): Option<string> {
    var v := Get(s.annotations, k);
    if Annotation(s.annotations, DISABLED) == NORMAL || HasDisabledClass(s) then v
    else if k == CLASS then Some(DISABLED_CLASS)
    else if k == DISABLED then Some(NORMAL)
    else if k == ORIGINAL_CLASS_NAME && v.None? && s.className != Some("true") then s.className
    else if k == ORIGINAL_CLASS && v.None? && Annotation(s.annotations, CLASS) != "" then Get(s.annotations, CLASS)
    else v
  }

  lemma DisableAt(s: Ingress, k: string)
    ensures Get(AfterDisable(s).annotations, k) == DisableValue(s, k)
  {
    hide N;
    NamesDiffer();
  }

  /** The value of annotation k after disableExternalDNS. */
  function DnsValue(a: Annotations, k: string): Option<string> {
    var v := Get(a, k);
    if k == HOSTNAME_SOURCE then Some(ANNOTATION_ONLY)
    else if k == DISABLED && v !in {Some(NORMAL), Some(EXTERNAL_DNS)} then Some(EXTERNAL_DNS)
    else if k == ORIGINAL_HOSTNAME && v.None? && Annotation(a, HOSTNAME) != "" then Get(a, HOSTNAME)
    else if k == ORIGINAL_HOSTNAME_SOURCE && v.None? && Get(a, HOSTNAME_SOURCE) != Some(ANNOTATION_ONLY) then Get(a, HOSTNAME_SOURCE)
    else v
  }

  lemma DnsAt(s: Ingress, k: string)
    ensures Get(AfterDisableDns(s).annotations, k) == DnsValue(s.annotations, k)
    ensures AfterDisableDns(s).className == s.className
  {
    hide N;
    NamesDiffer();
  }

  lemma DisablingCommutes(s: Ingress)
    ensures AfterDisable(AfterDisableDns(s)) == AfterDisableDns(AfterDisable(s))
  {
    var a, b := AfterDisable(AfterDisableDns(s)), AfterDisableDns(AfterDisable(s));
    forall k ensures Get(a.annotations, k) == Get(b.annotations, k) {
      CommutesAt(s, k);
    }
    CommutesAt(s, CLASS);
    SameIngress(a, b);
  }

  lemma CommutesAt(s: Ingress, k: string)
    ensures var a, b := AfterDisable(AfterDisableDns(s)), AfterDisableDns(AfterDisable(s));
            a.className == b.className && Get(a.annotations, k) == Get(b.annotations, k)
  {
    var t, u := AfterDisableDns(s), AfterDisable(s);
    DnsAt(s, DISABLED);
    DnsAt(s, CLASS);
    DnsAt(s, k);
    DisableAt(s, HOSTNAME);
    DisableAt(s, HOSTNAME_SOURCE);
    DisableAt(s, k);
    DisableAt(t, k);
    DnsAt(u, k);
    DisabledName(s);
    DisabledName(t);
    hide AfterDisable, AfterDisableDns;
    hide N;
    NamesDiffer();
  }

  lemma DisabledName(s: Ingress)
    ensures AfterDisable(s).className ==
              if Annotation(s.annotations, DISABLED) == NORMAL || HasDisabledClass(s) then s.className else Some(DISABLED_CLASS)
  {
  }

  /** However the two kinds of disabling are interleaved, and however often, the outcome
      depends only on which of them occurred. */
  lemma {:induction false} OrderDoesNotMatter(s: Ingress, ops: seq<Op>)
    ensures Run(s, ops) == Canonical(s, Disable in ops, DisableDns in ops)
  {
    hide AfterDisable, AfterDisableDns;
    if ops != [] {
      var front, last := ops[..|ops| - 1], ops[|ops| - 1];
      assert ops == front + [last];
      OrderDoesNotMatter(s, front);
      DisableTwice(s);
      DisableDnsTwice(if Disable in front then AfterDisable(s) else s);
      DisablingCommutes(s);
      DisablingCommutes(AfterDisable(s));
    }
  }

  // ---------------------------------------------------------------- the round trip

  const Bookkeeping := {DISABLED, ORIGINAL_CLASS, ORIGINAL_CLASS_NAME, ORIGINAL_HOSTNAME, ORIGINAL_HOSTNAME_SOURCE}

  predicate NoBookkeeping(s: Ingress) {
    s.annotations.Keys !! Bookkeeping
  }

  /** A class setting that can be told from "none" and is not taken for a boolean. */
  predicate ClassSurvives(s: Ingress, byClass: bool, byDns: bool) {
    if byClass && !HasDisabledClass(s) then
      s.className !in {Some(""), Some("true")} && Get(s.annotations, CLASS) != Some("")
    else
      byDns ==> s.className != Some(DISABLED_CLASS) && Get(s.annotations, CLASS) != Some(DISABLED_CLASS)
  }

  /** A hostname source survives only when it was saved and can be told from "none". */
  predicate SourceSurvives(s: Ingress, byDns: bool) {
    HOSTNAME_SOURCE in s.annotations ==> byDns && s.annotations[HOSTNAME_SOURCE] !in {"", ANNOTATION_ONLY}
  }

  /** Re-enabling undoes every run of disabling, of any length, exactly when the class
      settings and the hostname source survive; everything else always does. */
  lemma ReenablingRestores(s: Ingress, ops: seq<Op>)
    requires NoBookkeeping(s)
    ensures var back := Reenabled(Run(s, ops));
            back == s <==> ClassSurvives(s, Disable in ops, DisableDns in ops) && SourceSurvives(s, DisableDns in ops)
    ensures var back := Reenabled(Run(s, ops));
            forall k :: k !in {CLASS, HOSTNAME_SOURCE} ==> Get(back.annotations, k) == Get(s.annotations, k)
  {
    OrderDoesNotMatter(s, ops);
    RestoreCanonical(s, Disable in ops, DisableDns in ops);
    var back := Reenabled(Run(s, ops));
    SameIngress(back, s);
  }

  lemma SameIngress(a: Ingress, b: Ingress)
    ensures a == b <==> a.className == b.className && forall k :: Get(a.annotations, k) == Get(b.annotations, k)
  {
    if forall k :: Get(a.annotations, k) == Get(b.annotations, k) {
      forall k ensures k in a.annotations <==> k in b.annotations {
        assert Get(a.annotations, k) == Get(b.annotations, k);
      }
      forall k | k in a.annotations ensures a.annotations[k] == b.annotations[k] {
        assert Get(a.annotations, k) == Get(b.annotations, k);
      }
    }
  }

  function NonEmpty(v: string): Option<string> {
    if v == "" then None else Some(v)
  }

  lemma ClassRestoredAt(s: Ingress, k: string)
    ensures Get(ClassRestored(s).annotations, k) ==
              if k == CLASS then NonEmpty(Annotation(s.annotations, ORIGINAL_CLASS))
              else if k in {DISABLED, ORIGINAL_CLASS_NAME, ORIGINAL_CLASS} then None
              else Get(s.annotations, k)
  {
    hide N;
    NamesDiffer();
  }

  lemma DnsRestoredAt(a: Annotations, k: string)
    ensures Get(DnsRestored(a), k) ==
              if k == HOSTNAME && ORIGINAL_HOSTNAME in a then NonEmpty(a[ORIGINAL_HOSTNAME])
              else if k == HOSTNAME_SOURCE then NonEmpty(Annotation(a, ORIGINAL_HOSTNAME_SOURCE))
              else if k in {ORIGINAL_HOSTNAME, ORIGINAL_HOSTNAME_SOURCE} || (k == DISABLED && Get(a, k) == Some(EXTERNAL_DNS)) then None
              else Get(a, k)
  {
    hide N;
    NamesDiffer();
  }

  ghost predicate ClassBack(s: Ingress, back: Ingress) {
    back.className == s.className && Get(back.annotations, CLASS) == Get(s.annotations, CLASS)
  }

  /** Key by key, what comes back. */
  lemma RestoreCanonical(s: Ingress, byClass: bool, byDns: bool)
    requires NoBookkeeping(s)
    ensures var back := Reenabled(Canonical(s, byClass, byDns));
            && (ClassSurvives(s, byClass, byDns) <==> ClassBack(s, back))
            && (SourceSurvives(s, byDns) <==> Get(back.annotations, HOSTNAME_SOURCE) == Get(s.annotations, HOSTNAME_SOURCE))
            && forall k :: k !in {CLASS, HOSTNAME_SOURCE} ==> Get(back.annotations, k) == Get(s.annotations, k)
  {
    var t := Canonical(s, byClass, byDns);
    var back := Reenabled(t);
    ClassComesBack(s, byClass, byDns);
    forall k | k !in {CLASS, HOSTNAME_SOURCE} ensures Get(back.annotations, k) == Get(s.annotations, k) {
      RestComesBack(s, byClass, byDns, k);
    }
    SourceComesBack(s, byClass, byDns);
  }

  /** Annotation k of an Ingress without bookkeeping after disabling; `eff` when disableIngress wrote it. */
  function CanonicalValue(s: Ingress, eff: bool, byDns: bool, k: string): Option<string> {
    var a := s.annotations;
    if k == CLASS && eff then Some(DISABLED_CLASS)
    else if k == DISABLED then if eff then Some(NORMAL) else if byDns then Some(EXTERNAL_DNS) else None
    else if k == ORIGINAL_CLASS_NAME then if eff && s.className != Some("true") then s.className else None
    else if k == ORIGINAL_CLASS then if eff && Annotation(a, CLASS) != "" then Get(a, CLASS) else None
    else if k == HOSTNAME_SOURCE && byDns then Some(ANNOTATION_ONLY)
    else if k == ORIGINAL_HOSTNAME then if byDns && Annotation(a, HOSTNAME) != "" then Get(a, HOSTNAME) else None
    else if k == ORIGINAL_HOSTNAME_SOURCE then
      if byDns && Get(a, HOSTNAME_SOURCE) != Some(ANNOTATION_ONLY) then Get(a, HOSTNAME_SOURCE) else None
    else Get(a, k)
  }

  lemma CanonicalAt(s: Ingress, byClass: bool, byDns: bool, k: string)
    requires NoBookkeeping(s)
    ensures Get(Canonical(s, byClass, byDns).annotations, k) == CanonicalValue(s, byClass && !HasDisabledClass(s), byDns, k)
    ensures Canonical(s, byClass, byDns).className ==
              if byClass && !HasDisabledClass(s) then Some(DISABLED_CLASS) else s.className
  {
    var t := if byClass then AfterDisable(s) else s;
    DisableAt(s, k);
    DisableAt(s, HOSTNAME);
    DisableAt(s, HOSTNAME_SOURCE);
    DisabledName(s);
    DnsAt(t, k);
    hide AfterDisable, AfterDisableDns, N;
    NamesDiffer();
  }

  /** What the re-enabler decides, and from which values it restores. */
  lemma ReenabledAt(s: Ingress, byClass: bool, byDns: bool, k: string)
    requires NoBookkeeping(s)
    ensures var t := Canonical(s, byClass, byDns);
            var eff := byClass && !HasDisabledClass(s);
            var a := (if IsDisabled(t) then ClassRestored(t) else t).annotations;
            && IsDisabled(t) == (eff || (byDns && (s.className == Some(DISABLED_CLASS) || Annotation(s.annotations, CLASS) == DISABLED_CLASS)))
            && Get(Reenabled(t).annotations, k) == Get(if ShouldRestore(t, true) then DnsRestored(a) else t.annotations, k)
            && (!ShouldRestore(t, true) ==> !eff && !byDns && HOSTNAME_SOURCE !in s.annotations)
            && Reenabled(t).className == if IsDisabled(t) then NonEmpty(Annotation(t.annotations, ORIGINAL_CLASS_NAME)) else t.className
  {
    CanonicalAt(s, byClass, byDns, DISABLED);
    CanonicalAt(s, byClass, byDns, CLASS);
    CanonicalAt(s, byClass, byDns, HOSTNAME_SOURCE);
    hide Canonical, DnsRestored, N;
    NamesDiffer();
  }

  lemma ClassComesBack(s: Ingress, byClass: bool, byDns: bool)
    requires NoBookkeeping(s)
    ensures ClassSurvives(s, byClass, byDns) <==> ClassBack(s, Reenabled(Canonical(s, byClass, byDns)))
  {
    var t := Canonical(s, byClass, byDns);
    ReenabledAt(s, byClass, byDns, CLASS);
    CanonicalAt(s, byClass, byDns, CLASS);
    CanonicalAt(s, byClass, byDns, ORIGINAL_CLASS);
    CanonicalAt(s, byClass, byDns, ORIGINAL_CLASS_NAME);
    ClassRestoredAt(t, CLASS);
    DnsRestoredAt((if IsDisabled(t) then ClassRestored(t) else t).annotations, CLASS);
    hide Canonical, Reenabled, IsDisabled, ShouldRestore, ClassRestored, DnsRestored, N;
    NamesDiffer();
  }

  lemma SourceComesBack(s: Ingress, byClass: bool, byDns: bool)
    requires NoBookkeeping(s)
    ensures var back := Reenabled(Canonical(s, byClass, byDns));
            SourceSurvives(s, byDns) <==> Get(back.annotations, HOSTNAME_SOURCE) == Get(s.annotations, HOSTNAME_SOURCE)
  {
    var t := Canonical(s, byClass, byDns);
    ReenabledAt(s, byClass, byDns, HOSTNAME_SOURCE);
    CanonicalAt(s, byClass, byDns, HOSTNAME_SOURCE);
    CanonicalAt(s, byClass, byDns, ORIGINAL_HOSTNAME_SOURCE);
    ClassRestoredAt(t, HOSTNAME_SOURCE);
    ClassRestoredAt(t, ORIGINAL_HOSTNAME_SOURCE);
    DnsRestoredAt((if IsDisabled(t) then ClassRestored(t) else t).annotations, HOSTNAME_SOURCE);
    hide Canonical, Reenabled, IsDisabled, ShouldRestore, ClassRestored, DnsRestored, N;
    NamesDiffer();
  }

  lemma RestComesBack(s: Ingress, byClass: bool, byDns: bool, k: string)
    requires NoBookkeeping(s) && k !in {CLASS, HOSTNAME_SOURCE}
    ensures Get(Reenabled(Canonical(s, byClass, byDns)).annotations, k) == Get(s.annotations, k)
  {
    var t := Canonical(s, byClass, byDns);
    ReenabledAt(s, byClass, byDns, k);
    CanonicalAt(s, byClass, byDns, k);
    CanonicalAt(s, byClass, byDns, ORIGINAL_HOSTNAME);
    ClassRestoredAt(t, k);
    ClassRestoredAt(t, ORIGINAL_HOSTNAME);
    DnsRestoredAt((if IsDisabled(t) then ClassRestored(t) else t).annotations, k);
    hide Canonical, Reenabled, IsDisabled, ShouldRestore, ClassRestored, DnsRestored, N;
    NamesDiffer();
  }

  // ---------------------------------------------------------------- one option at a time

  /** The Ingress is out of service by class when the re-enabler sees it. */
  predicate ClassOff(s: Ingress, eff: bool, byDns: bool) {
    eff || (byDns && (s.className == Some(DISABLED_CLASS) || Annotation(s.annotations, CLASS) == DISABLED_CLASS))
  }

  function SavedName(s: Ingress): Option<string> {
    if s.className in {None, Some(""), Some("true")} then None else s.className
  }

  /** Annotation k after disabling and processing, from the original Ingress alone. */
  function ProcessedValue(s: Ingress, eff: bool, byDns: bool, restoreClass: bool, restoreDns: bool, k: string): Option<string> {
    var v, off := Get(s.annotations, k), ClassOff(s, eff, byDns);
    if k == CLASS then
      if restoreClass && off then if eff then NonEmpty(Annotation(s.annotations, CLASS)) else None
      else if eff then Some(DISABLED_CLASS) else v
    else if k == DISABLED then
      if (restoreClass && off) || (restoreDns && !eff) then None
      else if eff then Some(NORMAL) else if byDns then Some(EXTERNAL_DNS) else None
    else if k in {ORIGINAL_CLASS, ORIGINAL_CLASS_NAME} then
      if restoreClass then None else CanonicalValue(s, eff, byDns, k)
    else if k == HOSTNAME_SOURCE then
      if restoreDns then if byDns && v != Some(ANNOTATION_ONLY) then NonEmpty(Annotation(s.annotations, k)) else None
      else if byDns then Some(ANNOTATION_ONLY) else v
    else if k in {ORIGINAL_HOSTNAME, ORIGINAL_HOSTNAME_SOURCE} then
      if restoreDns then None else CanonicalValue(s, eff, byDns, k)
    else v
  }

  /** What the decisions depend on, for every choice of options. */
  lemma DecisionsAt(s: Ingress, byClass: bool, byDns: bool)
    requires NoBookkeeping(s)
    ensures var t, eff := Canonical(s, byClass, byDns), byClass && !HasDisabledClass(s);
            && IsDisabled(t) == ClassOff(s, eff, byDns)
            && (ShouldRestore(t, false) <==> ClassOff(s, eff, byDns))
            && (ShouldRestore(t, true) <==> eff || byDns || HOSTNAME_SOURCE in s.annotations)
            && t.className == if eff then Some(DISABLED_CLASS) else s.className
  {
    CanonicalAt(s, byClass, byDns, DISABLED);
    CanonicalAt(s, byClass, byDns, CLASS);
    CanonicalAt(s, byClass, byDns, HOSTNAME_SOURCE);
    CanonicalAt(s, byClass, byDns, ORIGINAL_HOSTNAME);
    CanonicalAt(s, byClass, byDns, ORIGINAL_HOSTNAME_SOURCE);
    hide Canonical, N;
    NamesDiffer();
  }

  lemma ProcessedAt(s: Ingress, byClass: bool, byDns: bool, restoreClass: bool, restoreDns: bool, k: string)
    requires NoBookkeeping(s)
    ensures var eff := byClass && !HasDisabledClass(s);
            Get(Processed(Canonical(s, byClass, byDns), restoreClass, restoreDns).annotations, k)
            == ProcessedValue(s, eff, byDns, restoreClass, restoreDns, k)
  {
    var t := Canonical(s, byClass, byDns);
    var u := if IsDisabled(t) && restoreClass then ClassRestored(t) else t;
    DecisionsAt(s, byClass, byDns);
    ClassStepAt(s, byClass, byDns, restoreClass, k);
    ProcessedSteps(t, restoreClass, restoreDns);
    if restoreDns {
      DnsStepAt(s, byClass, byDns, restoreClass, k);
    }
    hide Canonical, Processed, ClassRestored, DnsRestored, IsDisabled, ShouldRestore, ClassOff, HasDisabledClass, N;
    NamesDiffer();
  }

  /** The second half, after the class settings: external-dns. */
  lemma DnsStepAt(s: Ingress, byClass: bool, byDns: bool, restoreClass: bool, k: string)
    requires NoBookkeeping(s)
    ensures var t, eff := Canonical(s, byClass, byDns), byClass && !HasDisabledClass(s);
            var u := if IsDisabled(t) && restoreClass then ClassRestored(t) else t;
            Get(DnsRestored(u.annotations), k) ==
              if k == HOSTNAME_SOURCE then
                if byDns && Get(s.annotations, k) != Some(ANNOTATION_ONLY) then NonEmpty(Annotation(s.annotations, k)) else None
              else if k == HOSTNAME then Get(s.annotations, HOSTNAME)
              else if k in {ORIGINAL_HOSTNAME, ORIGINAL_HOSTNAME_SOURCE} then None
              else if k == DISABLED && !(eff && !restoreClass) then None
              else Get(u.annotations, k)
  {
    var t := Canonical(s, byClass, byDns);
    var u := if IsDisabled(t) && restoreClass then ClassRestored(t) else t;
    ClassStepAt(s, byClass, byDns, restoreClass, k);
    ClassStepAt(s, byClass, byDns, restoreClass, ORIGINAL_HOSTNAME);
    ClassStepAt(s, byClass, byDns, restoreClass, ORIGINAL_HOSTNAME_SOURCE);
    DnsRestoredAt(u.annotations, k);
    assert byClass && !HasDisabledClass(s) ==> ClassOff(s, byClass && !HasDisabledClass(s), byDns);
    hide Canonical, ClassRestored, DnsRestored, IsDisabled, HasDisabledClass, ClassOff, NoBookkeeping, N;
    NamesDiffer();
  }

  /** The first half: the class settings. */
  lemma ClassStepAt(s: Ingress, byClass: bool, byDns: bool, restoreClass: bool, k: string)
    requires NoBookkeeping(s)
    ensures var t, eff := Canonical(s, byClass, byDns), byClass && !HasDisabledClass(s);
            var u := if IsDisabled(t) && restoreClass then ClassRestored(t) else t;
            Get(u.annotations, k) ==
              if restoreClass && ClassOff(s, eff, byDns) && k == CLASS then
                if eff then NonEmpty(Annotation(s.annotations, CLASS)) else None
              else if restoreClass && ClassOff(s, eff, byDns) && k in {DISABLED, ORIGINAL_CLASS_NAME, ORIGINAL_CLASS} then None
              else CanonicalValue(s, eff, byDns, k)
  {
    DecisionsAt(s, byClass, byDns);
    CanonicalAt(s, byClass, byDns, k);
    CanonicalAt(s, byClass, byDns, ORIGINAL_CLASS);
    ClassRestoredAt(Canonical(s, byClass, byDns), k);
    hide Canonical, ClassRestored, IsDisabled, ClassOff, HasDisabledClass, N;
    NamesDiffer();
  }

  /** The test for whether to restore only skips what would change nothing. */
  lemma ProcessedSteps(t: Ingress, restoreClass: bool, restoreDns: bool)
    ensures var u := if IsDisabled(t) && restoreClass then ClassRestored(t) else t;
            Processed(t, restoreClass, restoreDns) == if restoreDns then u.(annotations := DnsRestored(u.annotations)) else u
  {
    hide ClassRestored, N;
    if !ShouldRestore(t, true) {
      assert t.annotations - {HOSTNAME_SOURCE} == t.annotations;
    }
  }

  lemma ProcessedName(s: Ingress, byClass: bool, byDns: bool, restoreClass: bool, restoreDns: bool)
    requires NoBookkeeping(s)
    ensures var eff := byClass && !HasDisabledClass(s);
            Processed(Canonical(s, byClass, byDns), restoreClass, restoreDns).className ==
              if restoreClass && ClassOff(s, eff, byDns) then if eff then SavedName(s) else None
              else if eff then Some(DISABLED_CLASS) else s.className
  {
    var t := Canonical(s, byClass, byDns);
    DecisionsAt(s, byClass, byDns);
    CanonicalAt(s, byClass, byDns, ORIGINAL_CLASS_NAME);
    ProcessedSteps(t, restoreClass, restoreDns);
    hide Canonical, Processed, DnsRestored, IsDisabled, ShouldRestore, N;
    NamesDiffer();
  }

  /** Each restore option by itself, and both or none, after any run of disabling. The class
      option gives the class settings back exactly when they survive, and without it they stay
      as disabling left them; the external-dns option gives the hostname source back exactly
      when that survives, and without it external-dns stays as it was left; with neither the
      Ingress stays as it was left. All other annotations are the original ones. */
  lemma OptionsRestore(s: Ingress, ops: seq<Op>, restoreClass: bool, restoreDns: bool, k: string)
    requires NoBookkeeping(s)
    ensures var back, byDns := Processed(Run(s, ops), restoreClass, restoreDns), DisableDns in ops;
            var eff := Disable in ops && !HasDisabledClass(s);
            && (restoreClass ==> (ClassBack(s, back) <==> ClassSurvives(s, Disable in ops, byDns)))
            && (!restoreClass ==>
                 && back.className == (if eff then Some(DISABLED_CLASS) else s.className)
                 && Get(back.annotations, CLASS) == if eff then Some(DISABLED_CLASS) else Get(s.annotations, CLASS))
            && (restoreDns ==> (Get(back.annotations, HOSTNAME_SOURCE) == Get(s.annotations, HOSTNAME_SOURCE) <==> SourceSurvives(s, byDns)))
            && (!restoreDns ==>
                 Get(back.annotations, HOSTNAME_SOURCE) == if byDns then Some(ANNOTATION_ONLY) else Get(s.annotations, HOSTNAME_SOURCE))
            && (!restoreClass && !restoreDns ==> back == Run(s, ops))
            && (k !in {CLASS, HOSTNAME_SOURCE} && k !in Bookkeeping ==> Get(back.annotations, k) == Get(s.annotations, k))
            && (restoreClass && k in {ORIGINAL_CLASS, ORIGINAL_CLASS_NAME} ==> k !in back.annotations)
            && (restoreDns && k in {ORIGINAL_HOSTNAME, ORIGINAL_HOSTNAME_SOURCE} ==> k !in back.annotations)
            && Get(back.annotations, DISABLED) ==
                 if (restoreClass && ClassOff(s, eff, byDns)) || (restoreDns && !eff) then None
                 else if eff then Some(NORMAL) else if byDns then Some(EXTERNAL_DNS) else None
  {
    var byClass, byDns := Disable in ops, DisableDns in ops;
    OrderDoesNotMatter(s, ops);
    ProcessedName(s, byClass, byDns, restoreClass, restoreDns);
    ProcessedAt(s, byClass, byDns, restoreClass, restoreDns, CLASS);
    ProcessedAt(s, byClass, byDns, restoreClass, restoreDns, HOSTNAME_SOURCE);
    ProcessedAt(s, byClass, byDns, restoreClass, restoreDns, DISABLED);
    ProcessedAt(s, byClass, byDns, restoreClass, restoreDns, k);
    ProcessedSteps(Run(s, ops), restoreClass, restoreDns);
    hide Run, Canonical, Processed, ClassRestored, DnsRestored, IsDisabled, ShouldRestore, N;
    NamesDiffer();
  }
}
