/** Inserting extension references into the filter lists of an HTTPRoute, behind the last
    reference of the same kind. */
module Filters {
  import opened Ordering
  import opened HttpRoutes

  predicate OfKind(f: Filter, group: string, kind: string) {
    f.Extension? && f.group == group && f.kind == kind
  }

  /** Position after the last reference of the kind, or the end when there is none. */
  function Slot(fs: seq<Filter>, group: string, kind: string): (p: nat)
    ensures p <= |fs|
    ensures forall i :: p <= i < |fs| ==> !OfKind(fs[i], group, kind)
    ensures (exists i :: 0 <= i < |fs| && OfKind(fs[i], group, kind)) ==> p > 0 && OfKind(fs[p - 1], group, kind)
    ensures (forall i :: 0 <= i < |fs| ==> !OfKind(fs[i], group, kind)) ==> p == |fs|
  {
    var i := LastOfKind(fs, group, kind);
    if i < 0 then |fs| else i + 1
  }

  function LastOfKind(fs: seq<Filter>, group: string, kind: string): (i: int)
    ensures -1 <= i < |fs|
    ensures i >= 0 ==> OfKind(fs[i], group, kind)
    ensures forall j :: i < j < |fs| ==> !OfKind(fs[j], group, kind)
  {
    if fs == [] then -1
    else if OfKind(fs[|fs| - 1], group, kind) then |fs| - 1
    else LastOfKind(fs[..|fs| - 1], group, kind)
  }

  /** What one call does to one rule. */
  function Added(fs: seq<Filter>, group: string, kind: string, name: string): seq<Filter> {
    var f, p := Extension(group, kind, name), Slot(fs, group, kind);
    if name == "" || f in fs then fs else fs[..p] + [f] + fs[p..]
  }

  // ---------------------------------------------------------------- the operation

  class HttpRouteObject {
    var rules: seq<Rule>

    constructor (rules: seq<Rule>)
      ensures this.rules == rules
    {
      this.rules := rules;
    }

    method AddExtensionRefFilterAfterExistingKind(group: string, kind: string, name: string)
      modifies `rules
      ensures |rules| == |old(rules)|
      ensures forall i :: 0 <= i < |rules| ==>
                rules[i] == old(rules)[i].(filters := Added(old(rules)[i].filters, group, kind, name))
    {
      if name == "" {
        return;
      }
      for i := 0 to |rules|
        invariant |rules| == |old(rules)|
        invariant forall j :: 0 <= j < i ==> rules[j] == old(rules)[j].(filters := Added(old(rules)[j].filters, group, kind, name))
        invariant forall j :: i <= j < |rules| ==> rules[j] == old(rules)[j]
      {
        var filters := AddToRule(rules[i].filters, group, kind, name);
        rules := rules[i := rules[i].(filters := filters)];
      }
    }
  }

  method AddToRule(fs: seq<Filter>, group: string, kind: string, name: string) returns (r: seq<Filter>)
    requires name != ""
    ensures r == Added(fs, group, kind, name)
  {
    var lastIdx := -1;
    for idx := 0 to |fs|
      invariant -1 <= lastIdx < idx
      invariant lastIdx >= 0 ==> OfKind(fs[lastIdx], group, kind)
      invariant forall j :: lastIdx < j < idx ==> !OfKind(fs[j], group, kind)
      invariant forall j :: 0 <= j < idx ==> fs[j] != Extension(group, kind, name)
    {
      if !OfKind(fs[idx], group, kind) {
        continue;
      }
      if fs[idx].name == name {
        return fs;
      }
      lastIdx := idx;
    }
    var f := Extension(group, kind, name);
    assert Slot(fs, group, kind) == if lastIdx < 0 then |fs| else lastIdx + 1;
    if lastIdx == -1 || lastIdx == |fs| - 1 {
      return fs + [f];
    }
    var a := new Filter[|fs| + 1](i => if 0 <= i < |fs| then fs[i] else f);
    ShiftRight(a, lastIdx + 1);
    a[lastIdx + 1] := f;
    r := a[..];
    assert r == fs[..lastIdx + 1] + [f] + fs[lastIdx + 1..];
  }

  /** copy(a[p+1:], a[p:]): everything from p on moves up by one; the last entry is overwritten. */
  method ShiftRight(a: array<Filter>, p: nat)
    requires p < a.Length
    modifies a
    ensures forall i :: 0 <= i <= p ==> a[i] == old(a[i])
    ensures forall i :: p < i < a.Length ==> a[i] == old(a[i - 1])
  {
    var i := a.Length - 1;
    while i > p
      invariant p <= i < a.Length
      invariant forall j :: 0 <= j <= i ==> a[j] == old(a[j])
      invariant forall j :: i < j < a.Length ==> a[j] == old(a[j - 1])
    {
      a[i] := a[i - 1];
      i := i - 1;
    }
  }

  // ---------------------------------------------------------------- adding a list of names

  function AddedAll(fs: seq<Filter>, group: string, kind: string, names: seq<string>): seq<Filter> {
    if names == [] then fs
    else Added(AddedAll(fs, group, kind, names[..|names| - 1]), group, kind, names[|names| - 1])
  }

  /** References for the names that are not there yet, each once, in the given order. */
  function Fresh(fs: seq<Filter>, group: string, kind: string, names: seq<string>): (r: seq<Filter>)
    ensures forall f :: f in r <==> f !in fs && f.Extension? && f == Extension(group, kind, f.name) && f.name != "" && f.name in names
    ensures (forall name :: name in names ==> name == "" || Extension(group, kind, name) in fs) ==> r == []
  {
    if names == [] then []
    else
      var front, f := Fresh(fs, group, kind, names[..|names| - 1]), Extension(group, kind, names[|names| - 1]);
      assert names == names[..|names| - 1] + [f.name];
      if f.name == "" || f in fs || f in front then front else front + [f]
  }

  /** However many names are added, in whatever state the list is: the new references stand
      together, in the given order, right behind the last of their kind. */
  lemma {:induction false} AddedAllMeaning(fs: seq<Filter>, group: string, kind: string, names: seq<string>)
    ensures var p := Slot(fs, group, kind);
            AddedAll(fs, group, kind, names) == fs[..p] + Fresh(fs, group, kind, names) + fs[p..]
  {
    var p := Slot(fs, group, kind);
    if names == [] {
      assert fs[..p] + [] + fs[p..] == fs;
    } else {
      var front, name := names[..|names| - 1], names[|names| - 1];
      AddedAllMeaning(fs, group, kind, front);
      AddedNext(fs, group, kind, Fresh(fs, group, kind, front), name);
    }
  }

  /** The slot is right behind the last reference of the group and kind, or at the end. */
  lemma SlotMeaning(fs: seq<Filter>, group: string, kind: string)
    ensures var p := Slot(fs, group, kind);
            && (forall i :: p <= i < |fs| ==> !(fs[i].Extension? && fs[i].group == group && fs[i].kind == kind))
            && (p < |fs| ==> p > 0)
            && ((exists f :: f in fs && f.Extension? && f.group == group && f.kind == kind) ==>
                 p > 0 && fs[p - 1].Extension? && fs[p - 1].group == group && fs[p - 1].kind == kind)
            && ((forall f :: f in fs ==> !(f.Extension? && f.group == group && f.kind == kind)) ==> p == |fs|)
  {
    forall f | f in fs && OfKind(f, group, kind) ensures exists i :: 0 <= i < |fs| && OfKind(fs[i], group, kind) {
      var i :| 0 <= i < |fs| && fs[i] == f;
      assert OfKind(fs[i], group, kind);
    }
    if i :| 0 <= i < |fs| && OfKind(fs[i], group, kind) {
      assert fs[i] in fs;
    }
  }

  lemma AddedNext(fs: seq<Filter>, group: string, kind: string, added: seq<Filter>, name: string)
    requires forall f :: f in added ==> OfKind(f, group, kind)
    ensures var p, f := Slot(fs, group, kind), Extension(group, kind, name);
            Added(fs[..p] + added + fs[p..], group, kind, name) ==
              fs[..p] + (if name == "" || f in fs || f in added then added else added + [f]) + fs[p..]
  {
    var p, f := Slot(fs, group, kind), Extension(group, kind, name);
    var list := fs[..p] + added + fs[p..];
    assert fs == fs[..p] + fs[p..];
    assert f in list <==> f in fs || f in added;
    SlotOfExtended(fs, group, kind, added);
    var q := p + |added|;
    assert list[..q] == fs[..p] + added && list[q..] == fs[p..];
    assert fs[..p] + added + [f] + fs[p..] == fs[..p] + (added + [f]) + fs[p..];
  }

  lemma SlotOfExtended(fs: seq<Filter>, group: string, kind: string, added: seq<Filter>)
    requires forall f :: f in added ==> OfKind(f, group, kind)
    ensures var p := Slot(fs, group, kind);
            Slot(fs[..p] + added + fs[p..], group, kind) == p + |added|
  {
    var p := Slot(fs, group, kind);
    var list := fs[..p] + added + fs[p..];
    var q := p + |added|;
    forall i | q <= i < |list| ensures !OfKind(list[i], group, kind) {
      assert list[i] == fs[i - |added|];
    }
    if added != [] {
      assert list[q - 1] == added[|added| - 1];
    } else {
      assert list == fs;
    }
  }

  /** Adding the same names again changes nothing. */
  lemma AddingIsIdempotent(fs: seq<Filter>, group: string, kind: string, names: seq<string>)
    ensures var once := AddedAll(fs, group, kind, names);
            AddedAll(once, group, kind, names) == once
  {
    hide Added, AddedAll, Fresh;
    var once := AddedAll(fs, group, kind, names);
    AddedAllContents(fs, group, kind, names);
    AddedAllMeaning(once, group, kind, names);
    var q := Slot(once, group, kind);
    assert Fresh(once, group, kind, names) == [];
    assert once[..q] + [] + once[q..] == once;
  }

  lemma AddedAllContents(fs: seq<Filter>, group: string, kind: string, names: seq<string>)
    ensures var all := AddedAll(fs, group, kind, names);
            && (forall f :: f in all <==> f in fs || f in Fresh(fs, group, kind, names))
            && (forall name :: name in names && name != "" ==> Extension(group, kind, name) in all)
    ensures Fresh(AddedAll(fs, group, kind, names), group, kind, names) == []
  {
    hide Added, AddedAll, Fresh, Slot;
    var p, added, all := Slot(fs, group, kind), Fresh(fs, group, kind, names), AddedAll(fs, group, kind, names);
    AddedAllMeaning(fs, group, kind, names);
    assert fs == fs[..p] + fs[p..];
    forall name | name in names && name != "" ensures Extension(group, kind, name) in all {
      var f := Extension(group, kind, name);
      assert f in fs || f in added;
    }
  }

  function Without(fs: seq<Filter>, gone: set<Filter>): seq<Filter> {
    if fs == [] then []
    else Without(fs[..|fs| - 1], gone) + if fs[|fs| - 1] in gone then [] else [fs[|fs| - 1]]
  }

  lemma {:induction false} WithoutAppend(a: seq<Filter>, b: seq<Filter>, gone: set<Filter>)
    ensures Without(a + b, gone) == Without(a, gone) + Without(b, gone)
  {
    if b == [] {
      assert a + b == a;
    } else {
      assert (a + b)[..|a + b| - 1] == a + b[..|b| - 1];
      WithoutAppend(a, b[..|b| - 1], gone);
    }
  }

  lemma {:induction false} WithoutAll(fs: seq<Filter>, gone: set<Filter>)
    ensures (forall f :: f in fs ==> f in gone) ==> Without(fs, gone) == []
    ensures (forall f :: f in fs ==> f !in gone) ==> Without(fs, gone) == fs
  {
    if fs != [] {
      var n := |fs| - 1;
      assert fs == fs[..n] + [fs[n]];
      WithoutAll(fs[..n], gone);
    }
  }

  /** Every filter that was there keeps its place among the others, every name has its
      reference afterwards, and a list without repetitions stays without. */
  lemma AddingKeepsTheRest(fs: seq<Filter>, group: string, kind: string, names: seq<string>)
    ensures var all := AddedAll(fs, group, kind, names);
            && Without(all, Elements(Fresh(fs, group, kind, names))) == fs
            && (forall f :: f in all <==> f in fs || f in Fresh(fs, group, kind, names))
            && (forall name :: name in names && name != "" ==> Extension(group, kind, name) in all)
            && (Distinct(fs) ==> Distinct(all))
  {
    hide Added, AddedAll, Fresh, Slot;
    var p, added := Slot(fs, group, kind), Fresh(fs, group, kind, names);
    AddedAllMeaning(fs, group, kind, names);
    AddedAllContents(fs, group, kind, names);
    FreshIsDistinct(fs, group, kind, names);
    assert fs == fs[..p] + fs[p..];
    InsertedApart(fs[..p], added, fs[p..]);
  }

  lemma InsertedApart(a: seq<Filter>, b: seq<Filter>, c: seq<Filter>)
    requires Distinct(b) && forall f :: f in b ==> f !in a + c
    ensures Without(a + b + c, Elements(b)) == a + c
    ensures Distinct(a + c) ==> Distinct(a + b + c)
  {
    hide Without;
    var gone := Elements(b);
    WithoutAppend(a + b, c, gone);
    WithoutAppend(a, b, gone);
    forall f | f in a || f in c ensures f !in gone {
      assert f in a + c;
    }
    WithoutAll(a, gone);
    WithoutAll(c, gone);
    WithoutAll(b, gone);
    if Distinct(a + c) {
      DistinctParts(a, b, c);
    }
  }

  lemma DistinctParts(a: seq<Filter>, b: seq<Filter>, c: seq<Filter>)
    requires Distinct(a + c) && Distinct(b) && forall f :: f in b ==> f !in a + c
    ensures Distinct(a + b + c)
  {
    var all := a + b + c;
    forall i, j | 0 <= i < j < |all| ensures all[i] != all[j] {
      PairApart(a, b, c, i, j);
    }
  }

  lemma PairApart(a: seq<Filter>, b: seq<Filter>, c: seq<Filter>, i: int, j: int)
    requires Distinct(a + c) && Distinct(b) && forall f :: f in b ==> f !in a + c
    requires 0 <= i < j < |a + b + c|
    ensures (a + b + c)[i] != (a + b + c)[j]
  {
    var all, m, n := a + b + c, |a|, |a| + |b|;
    var k, l := if i < m then i else i - |b|, if j < m then j else j - |b|;
    if m <= i < n {
      assert all[i] == b[i - m];
      if j >= n { assert all[j] == (a + c)[l] && all[j] in a + c && all[i] in b; }
    } else if m <= j < n {
      assert all[j] == b[j - m] && all[j] in b;
      assert all[i] == (a + c)[k] && all[i] in a + c;
    } else {
      assert (a + c)[k] == all[i] && (a + c)[l] == all[j];
    }
  }

  lemma {:induction false} FreshIsDistinct(fs: seq<Filter>, group: string, kind: string, names: seq<string>)
    ensures Distinct(Fresh(fs, group, kind, names))
  {
    if names != [] {
      FreshIsDistinct(fs, group, kind, names[..|names| - 1]);
    }
  }
}
