/** Persisting the reconcile cache: entries are printed, spread over ConfigMap shards by a hash
    of their key, and read back. Strings are sequences of bytes here. */
module CacheShards {
  import opened Options
  import opened Text

  type int64 = x: int | -0x8000_0000_0000_0000 <= x < 0x8000_0000_0000_0000

  datatype Entry = Entry(resourceVersion: string, updatedAt: int64)
  type Entries = map<string, Entry>
  type ConfigMap = map<string, string>
  /** The ConfigMaps of the cache's namespace by name. */
  type Store = map<string, ConfigMap>

  // ---------------------------------------------------------------- entries

  function Format(e: Entry): string {
    e.resourceVersion + "|" + FormatInt(e.updatedAt)
  }

  function Parse(raw: string): Option<Entry> {
    var parts := Split(raw, '|');
    if |parts| != 2 then None
    else
      var ts := ParseInt(parts[1], -0x8000_0000_0000_0000, 0x7FFF_FFFF_FFFF_FFFF);
      if ts.None? then None else TimeInRange(parts[1]); Some(Entry(parts[0], ts.value))
  }

  lemma TimeInRange(s: string)
    ensures var ts := ParseInt(s, -0x8000_0000_0000_0000, 0x7FFF_FFFF_FFFF_FFFF);
            ts.Some? ==> -0x8000_0000_0000_0000 <= ts.value < 0x8000_0000_0000_0000
  {
    hide ParseDigits;
  }

  /** An entry reads back as itself exactly when its resource version has no '|'; otherwise it
      is dropped, never misread. */
  lemma FormatParse(e: Entry)
    ensures Parse(Format(e)) == if '|' in e.resourceVersion then None else Some(e)
  {
    var ts := FormatInt(e.updatedAt);
    FormatIntHasNo(e.updatedAt, '|');
    ParseIntInverts(e.updatedAt, -0x8000_0000_0000_0000, 0x7FFF_FFFF_FFFF_FFFF);
    hide FormatInt, ParseInt;
    if '|' in e.resourceVersion {
      SplitMany(e.resourceVersion, ts);
    } else {
      SplitFirst(e.resourceVersion, '|', ts);
      SplitOne(ts, '|');
    }
  }

  lemma {:induction false} SplitMany(s: string, t: string)
    ensures |Split(s + "|" + t, '|')| >= 2
    ensures '|' in s ==> |Split(s + "|" + t, '|')| >= 3
  {
    var all := s + "|" + t;
    if s == "" {
      assert all[1..] == t;
    } else {
      assert all[1..] == s[1..] + "|" + t;
      SplitMany(s[1..], t);
      assert s == [s[0]] + s[1..];
    }
  }

  // ---------------------------------------------------------------- shards

  /** One byte of 32-bit FNV-1a. */
  function FnvStep(hash: bv32, c: char): bv32 {
    (hash ^ ((c as int % 256) as bv32)) * 16777619
  }

  function Fnv32a(s: string): bv32 {
    if s == "" then 2166136261 else FnvStep(Fnv32a(s[..|s| - 1]), s[|s| - 1])
  }

  method Fnv32aOf(s: string) returns (hash: bv32)
    ensures hash == Fnv32a(s)
  {
    hide FnvStep;
    hash := 2166136261;
    for i := 0 to |s|
      invariant hash == Fnv32a(s[..i])
    {
      assert s[..i + 1][..i] == s[..i];
      hash := FnvStep(hash, s[i]);
    }
    assert s[..|s|] == s;
  }

  function Shards(count: int): (n: nat)
    ensures n >= 1 && n >= count && (n == 1 || n == count)
  {
    if count <= 0 then 1 else count
  }

  /** The count as the 32-bit divisor of the hash; a multiple of 2^32 would divide by zero. */
  function Divisor(count: int): nat {
    if count <= 1 then 1 else count % 0x1_0000_0000
  }

  function ShardForKey(key: string, count: int): (shard: nat)
    ensures shard < Shards(count)
  {
    if count <= 1 || Divisor(count) == 0 then 0 else (Fnv32a(key) as nat) % Divisor(count)
  }

  method ReconcileCacheShardForKey(key: string, count: int) returns (shard: nat)
    requires Divisor(count) != 0
    ensures shard == ShardForKey(key, count) && shard < Shards(count)
  {
    hide Fnv32a;
    if count <= 1 {
      return 0;
    }
    var h := Fnv32aOf(key);
    shard := (h as nat) % (count % 0x1_0000_0000);
  }

  /** Published test vectors of the hash: the empty text, and one letter. */
  lemma KnownHashes()
    ensures Fnv32a("") == 0x811c9dc5 && Fnv32a("a") == 0xe40c292c
  {
    assert "a"[..0] == "";
    assert ('a' as int % 256) as bv32 == 97;
  }

  /** One shard takes everything; several share by the remainder of the hash. */
  lemma ShardMeaning(key: string, count: int)
    ensures count <= 1 ==> ShardForKey(key, count) == 0
    ensures 1 < count < 0x1_0000_0000 ==> ShardForKey(key, count) == (Fnv32a(key) as nat) % count
  {
    hide Fnv32a;
  }

  function ShardName(baseName: string, shard: nat): string {
    baseName + "-" + Digits(shard)
  }

  lemma ShardNamesDiffer(baseName: string, a: nat, b: nat)
    ensures ShardName(baseName, a) == ShardName(baseName, b) ==> a == b
  {
    if ShardName(baseName, a) == ShardName(baseName, b) {
      assert ShardName(baseName, a)[|baseName| + 1..] == Digits(a);
      assert ShardName(baseName, b)[|baseName| + 1..] == Digits(b);
      DigitsInjective(a, b);
    }
  }

  function ShardData(data: Entries, count: int, shard: nat): (cm: ConfigMap)
    ensures forall k :: k in cm <==> k in data && ShardForKey(k, count) == shard
  {
    map k | k in data && ShardForKey(k, count) == shard :: Format(data[k])
  }

  /** Each entry is in exactly one shard. */
  lemma ExactlyOneShard(data: Entries, count: int, k: string)
    requires k in data
    ensures exists shard: nat :: shard < Shards(count) && k in ShardData(data, count, shard)
    ensures forall a: nat, b: nat :: k in ShardData(data, count, a) && k in ShardData(data, count, b) ==> a == b
  {
    assert k in ShardData(data, count, ShardForKey(k, count));
  }

  /** The store after shards 0..n-1 were written. */
  ghost predicate SavedUpTo(before: Store, baseName: string, count: int, data: Entries, n: nat, after: Store) {
    && (forall shard: nat :: shard < n ==> Get(after, ShardName(baseName, shard)) == Some(ShardData(data, count, shard)))
    && (forall name :: (forall shard: nat :: shard < n ==> name != ShardName(baseName, shard)) ==> Get(after, name) == Get(before, name))
  }

  /** What a save leaves that may have failed on the way: shard n is new or as before, and
      every other ConfigMap is as before. */
  ghost predicate PartlySaved(before: Store, baseName: string, count: int, data: Entries, after: Store) {
    forall name :: Get(after, name) == Get(before, name) || IsNewShard(baseName, count, data, name, Get(after, name))
  }

  ghost predicate IsNewShard(baseName: string, count: int, data: Entries, name: string, cm: Option<ConfigMap>) {
    exists n: nat :: n < Shards(count) && name == ShardName(baseName, n) && cm == Some(ShardData(data, count, n))
  }

  method BuildShards(data: Entries, count: int) returns (shards: map<nat, ConfigMap>)
    requires count >= 1 && Divisor(count) != 0
    ensures forall shard: nat :: (if shard in shards then shards[shard] else map[]) == ShardData(data, count, shard)
  {
    shards := map[];
    var todo := data.Keys;
    ghost var done: Entries := map[];
    while todo != {}
      invariant todo !! done.Keys && todo + done.Keys == data.Keys
      invariant forall k :: k in done ==> done[k] == data[k]
      invariant forall shard: nat :: (if shard in shards then shards[shard] else map[]) == ShardData(done, count, shard)
    {
      var key :| key in todo;
      var shard := ReconcileCacheShardForKey(key, count);
      ghost var earlier := done;
      if shard !in shards {
        shards := shards[shard := map[]];
      }
      shards := shards[shard := shards[shard][key := Format(data[key])]];
      todo, done := todo - {key}, done[key := data[key]];
      forall s: nat ensures (if s in shards then shards[s] else map[]) == ShardData(done, count, s) {
        ShardDataNext(earlier, count, s, key, data[key]);
      }
    }
    assert done == data;
  }

  lemma ShardDataNext(data: Entries, count: int, shard: nat, key: string, e: Entry)
    requires key !in data
    ensures ShardData(data[key := e], count, shard) ==
              if ShardForKey(key, count) == shard then ShardData(data, count, shard)[key := Format(e)] else ShardData(data, count, shard)
  {
    hide Format, Fnv32a;
  }

  class ConfigMaps {
    var store: Store

    constructor (store: Store)
      ensures this.store == store
    {
      this.store := store;
    }

    /** Create or Update; may fail, with or without effect. */
    method ApiWrite(name: string, cm: ConfigMap) returns (ok: bool)
      modifies `store
      ensures store == old(store) || store == old(store)[name := cm]
      ensures ok ==> store == old(store)[name := cm]
    {
      var lost: bool := *;
      if lost {
        return false;
      }
      store := store[name := cm];
      ok := *;
    }

    method SaveReconcileCacheSharded(baseName: string, shardCount: int, data: Entries) returns (ok: bool)
      requires Divisor(shardCount) != 0
      modifies `store
      ensures ok ==> SavedUpTo(old(store), baseName, shardCount, data, Shards(shardCount), store)
      ensures PartlySaved(old(store), baseName, shardCount, data, store)
    {
      var count := if shardCount <= 0 then 1 else shardCount;
      SameShards(data, shardCount, count);
      var shards := BuildShards(data, count);
      for shard := 0 to count
        invariant SavedUpTo(old(store), baseName, shardCount, data, shard, store)
        invariant PartlySaved(old(store), baseName, shardCount, data, store)
      {
        var readable: bool := *;
        if !readable {
          return false;
        }
        ghost var before := store;
        var cm := if shard in shards then shards[shard] else map[];
        assert cm == ShardData(data, shardCount, shard);
        ok := ApiWrite(ShardName(baseName, shard), cm);
        PartlySavedNext(old(store), baseName, shardCount, data, shard, before, store);
        if !ok {
          return;
        }
        SavedNext(old(store), baseName, shardCount, data, shard, before, store);
      }
      ok := true;
    }

    method LoadReconcileCacheSharded(baseName: string, shardCount: int, cutoff: int) returns (out: Entries, ok: bool)
      ensures ok ==> out == LoadedUpTo(store, baseName, cutoff, Shards(shardCount))
    {
      var count := if shardCount <= 0 then 1 else shardCount;
      out := map[];
      for shard := 0 to count
        invariant out == LoadedUpTo(store, baseName, cutoff, shard)
      {
        var readable: bool := *;
        if !readable {
          return out, false;
        }
        if ShardName(baseName, shard) !in store {
          continue;
        }
        var more := LoadShard(store[ShardName(baseName, shard)], cutoff);
        out := out + more;
      }
      ok := true;
    }
  }

  lemma SameShards(data: Entries, shardCount: int, count: int)
    requires count == if shardCount <= 0 then 1 else shardCount
    ensures forall shard: nat :: ShardData(data, shardCount, shard) == ShardData(data, count, shard)
  {
    hide Format, Fnv32a;
  }

  lemma PartlySavedNext(before: Store, baseName: string, count: int, data: Entries, shard: nat, mid: Store, after: Store)
    requires PartlySaved(before, baseName, count, data, mid) && shard < Shards(count)
    requires after == mid || after == mid[ShardName(baseName, shard) := ShardData(data, count, shard)]
    ensures PartlySaved(before, baseName, count, data, after)
  {
    hide ShardName, ShardData;
    forall name | Get(after, name) != Get(before, name) ensures IsNewShard(baseName, count, data, name, Get(after, name)) {
      if Get(after, name) != Get(mid, name) {
        assert name == ShardName(baseName, shard);
      }
    }
  }

  lemma SavedNext(before: Store, baseName: string, count: int, data: Entries, shard: nat, mid: Store, after: Store)
    requires SavedUpTo(before, baseName, count, data, shard, mid)
    requires after == mid[ShardName(baseName, shard) := ShardData(data, count, shard)]
    ensures SavedUpTo(before, baseName, count, data, shard + 1, after)
  {
    hide ShardName, ShardData;
    forall s: nat | s < shard ensures ShardName(baseName, s) != ShardName(baseName, shard) {
      ShardNamesDiffer(baseName, s, shard);
    }
    forall name | (forall s: nat :: s < shard + 1 ==> name != ShardName(baseName, s)) ensures Get(after, name) == Get(before, name) {
      assert name != ShardName(baseName, shard);
      assert Get(mid, name) == Get(before, name);
    }
  }

  // ---------------------------------------------------------------- loading

  predicate Loads(raw: string, cutoff: int) {
    Parse(raw).Some? && Parse(raw).value.updatedAt >= cutoff
  }

  function Loaded(cm: ConfigMap, cutoff: int): Entries {
    map k | k in cm && Loads(cm[k], cutoff) :: Parse(cm[k]).value
  }

  function LoadedUpTo(store: Store, baseName: string, cutoff: int, n: nat): Entries {
    if n == 0 then map[]
    else
      var before, name := LoadedUpTo(store, baseName, cutoff, n - 1), ShardName(baseName, n - 1);
      if name in store then before + Loaded(store[name], cutoff) else before
  }

  method LoadShard(cm: ConfigMap, cutoff: int) returns (out: Entries)
    ensures out == Loaded(cm, cutoff)
  {
    out := map[];
    var todo := cm.Keys;
    ghost var done: set<string> := {};
    while todo != {}
      invariant todo !! done && todo + done == cm.Keys
      invariant out == map k | k in done && Loads(cm[k], cutoff) :: Parse(cm[k]).value
    {
      var key :| key in todo;
      todo, done := todo - {key}, done + {key};
      var entry := Parse(cm[key]);
      if entry.None? || entry.value.updatedAt < cutoff {
        continue;
      }
      out := out[key := entry.value];
    }
    assert done == cm.Keys;
  }

  // ---------------------------------------------------------------- round trip

  predicate Survives(e: Entry, cutoff: int) {
    e.updatedAt >= cutoff && '|' !in e.resourceVersion
  }

  function SurvivorsBelow(data: Entries, count: int, cutoff: int, n: nat): Entries {
    map k | k in data && ShardForKey(k, count) < n && Survives(data[k], cutoff) :: data[k]
  }

  function SurvivorsOf(data: Entries, count: int, cutoff: int, shard: nat): Entries {
    map k | k in data && ShardForKey(k, count) == shard && Survives(data[k], cutoff) :: data[k]
  }

  lemma OneMoreShard(data: Entries, count: int, cutoff: int, n: nat)
    ensures SurvivorsBelow(data, count, cutoff, 0) == map[]
    ensures SurvivorsBelow(data, count, cutoff, n) + SurvivorsOf(data, count, cutoff, n) == SurvivorsBelow(data, count, cutoff, n + 1)
  {
    hide Survives, ShardForKey;
  }

  lemma {:induction false} LoadedShards(store: Store, baseName: string, count: int, data: Entries, cutoff: int, n: nat, before: Store)
    requires SavedUpTo(before, baseName, count, data, Shards(count), store) && n <= Shards(count)
    ensures LoadedUpTo(store, baseName, cutoff, n) == SurvivorsBelow(data, count, cutoff, n)
  {
    hide Loaded, ShardData, ShardForKey, Survives, ShardName, SurvivorsBelow, SurvivorsOf;
    OneMoreShard(data, count, cutoff, if n == 0 then 0 else n - 1);
    if n > 0 {
      LoadedShards(store, baseName, count, data, cutoff, n - 1, before);
      assert Get(store, ShardName(baseName, n - 1)) == Some(ShardData(data, count, n - 1));
      LoadedShard(data, count, n - 1, cutoff);
    }
  }

  lemma LoadedShard(data: Entries, count: int, shard: nat, cutoff: int)
    ensures Loaded(ShardData(data, count, shard), cutoff) == SurvivorsOf(data, count, cutoff, shard)
  {
    hide Parse, Format, ShardForKey;
    var cm := ShardData(data, count, shard);
    var found, expected := Loaded(cm, cutoff), SurvivorsOf(data, count, cutoff, shard);
    forall k {:trigger k in found} ensures k in found <==> k in expected
      ensures k in found ==> found[k] == expected[k]
    {
      if k in cm { FormatParse(data[k]); }
    }
  }

  /** Saving and loading with the same shard count gives back exactly the entries that are not
      too old and have no '|' in their resource version, whatever was stored before. */
  lemma SaveLoad(before: Store, baseName: string, count: int, data: Entries, after: Store, cutoff: int)
    requires SavedUpTo(before, baseName, count, data, Shards(count), after)
    ensures LoadedUpTo(after, baseName, cutoff, Shards(count)) ==
              map k | k in data && Survives(data[k], cutoff) :: data[k]
  {
    LoadedShards(after, baseName, count, data, cutoff, Shards(count), before);
    hide Survives, ShardForKey, LoadedUpTo;
    var n := Shards(count);
    assert SurvivorsBelow(data, count, cutoff, n) == map k | k in data && Survives(data[k], cutoff) :: data[k];
  }
}
