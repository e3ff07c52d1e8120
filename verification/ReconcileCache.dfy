/** The reconcile cache against a log of what really happened: recording, skipping, evicting,
    expiry, persistence and restarts. */
module ReconcileCache {
  import opened Options
  import opened Ordering
  import opened Text
  import opened CacheShards

  const SECOND := 1_000_000_000
  const TTL := 24 * 60 * 60 * SECOND
  /** Nanoseconds. */
  type Time = int64

  /** A reconcile of this UID ended at this resource version without error or requeue. */
  datatype Event = Event(uid: string, resourceVersion: string, at: Time)
  type Log = set<Event>

  function Unix(t: Time): int64 {
    t / SECOND
  }

  // ---------------------------------------------------------------- keys

  /** strings.ReplaceAll(s, "/", "__"). */
  function Unslashed(s: string): string {
    if s == "" then "" else (if s[0] == '/' then "__" else [s[0]]) + Unslashed(s[1..])
  }

  function CacheKey(id: string): string {
    Unslashed(Trim(id))
  }

  /** Like every UID that the API server hands out. */
  predicate Clean(id: string) {
    Trimmed(id) && '/' !in id
  }

  lemma {:induction false} UnslashedClean(s: string)
    requires '/' !in s
    ensures Unslashed(s) == s
  {
    if s != "" {
      UnslashedClean(s[1..]);
    }
  }

  lemma CleanIdIsItsKey(id: string)
    requires Clean(id)
    ensures CacheKey(id) == id
  {
    TrimTrims(id);
    UnslashedClean(id);
  }

  /** Keys of other identifiers can collide. */
  lemma KeysCollide()
    ensures CacheKey("a/b") == CacheKey("a__b") == "a__b"
  {
    assert Trim("a/b") == "a/b" && Trim("a__b") == "a__b";
    assert "a/b"[1..] == "/b" && "/b"[1..] == "b" && "b"[1..] == "";
    assert Unslashed("b") == "b" && Unslashed("/b") == "__b";
    UnslashedClean("a__b");
  }

  // ---------------------------------------------------------------- states and steps

  datatype State = State(cache: Entries, store: Store, log: Log)
  datatype Config = Config(maxEntries: int, persist: bool, namespace: string, baseName: string, shards: int)

  predicate Persists(c: Config) {
    c.persist && c.namespace != "" && c.baseName != ""
  }

  predicate Expired(e: Entry, now: Time) {
    now - e.updatedAt * SECOND > TTL
  }

  predicate Known(cache: Entries, uid: string, resourceVersion: string) {
    resourceVersion != "" && CacheKey(uid) in cache && cache[CacheKey(uid)].resourceVersion == resourceVersion
  }

  predicate Skips(cache: Entries, uid: string, resourceVersion: string, now: Time) {
    Known(cache, uid, resourceVersion) && !Expired(cache[CacheKey(uid)], now)
  }

  function CacheAfterAsking(cache: Entries, uid: string, resourceVersion: string, now: Time): Entries {
    if Known(cache, uid, resourceVersion) && Expired(cache[CacheKey(uid)], now) then cache - {CacheKey(uid)} else cache
  }

  /** Evicting down to the bound: no more than needed, and nothing newer than a survivor. */
  ghost predicate Evicted(before: Entries, maxEntries: int, after: Entries) {
    && after.Keys <= before.Keys && (forall k :: k in after ==> after[k] == before[k])
    && |after| == (if 0 < maxEntries < |before| then maxEntries else |before|)
    && forall k, l :: k in before && k !in after && l in after ==> before[k].updatedAt <= before[l].updatedAt
  }

  /** A save that may have failed on the way; `saved` tells that it did not. */
  ghost predicate Persisted(c: Config, before: Store, cache: Entries, saved: bool, after: Store) {
    if !Persists(c) then after == before && !saved
    else
      && PartlySaved(before, c.baseName, c.shards, cache, after)
      && (saved ==> SavedUpTo(before, c.baseName, c.shards, cache, Shards(c.shards), after))
  }

  datatype Action =
    | Record(uid: string, resourceVersion: string, now: Time, failed: bool, saved: bool)
    | Ask(uid: string, resourceVersion: string, now: Time, skip: bool)
    | Forget(uid: string, saved: bool)
    | Restart(baseName: string, shards: int, cutoff: int, loaded: bool)

  function Recorded(cache: Entries, uid: string, resourceVersion: string, now: Time): Entries {
    cache[CacheKey(uid) := Entry(resourceVersion, Unix(now))]
  }

  ghost predicate Step(c: Config, s: State, a: Action, s': State) {
    match a
    case Record(uid, rv, now, failed, saved) =>
      && s'.log == (if failed then s.log else s.log + {Event(uid, rv, now)})
      && if failed || rv == "" then s' == s.(log := s'.log)
         else Evicted(Recorded(s.cache, uid, rv, now), c.maxEntries, s'.cache) && Persisted(c, s.store, s'.cache, saved, s'.store)
    case Ask(uid, rv, now, skip) =>
      skip == Skips(s.cache, uid, rv, now) && s' == s.(cache := CacheAfterAsking(s.cache, uid, rv, now))
    case Forget(uid, saved) =>
      if uid == "" then s' == s
      else s'.log == s.log && s'.cache == s.cache - {CacheKey(uid)} && Persisted(c, s.store, s'.cache, saved, s'.store)
    case Restart(baseName, shards, cutoff, loaded) =>
      s' == s.(cache := if loaded then LoadedUpTo(s.store, baseName, cutoff, Shards(shards)) else map[])
  }

  // ---------------------------------------------------------------- the cache never lies

  ghost predicate Backed(log: Log, k: string, e: Entry) {
    exists v :: v in log && CacheKey(v.uid) == k && v.resourceVersion == e.resourceVersion && Unix(v.at) == e.updatedAt
  }

  ghost predicate CacheHonest(cache: Entries, log: Log) {
    forall k :: k in cache ==> Backed(log, k, cache[k])
  }

  ghost predicate ShardHonest(cm: ConfigMap, log: Log) {
    forall k :: k in cm && Parse(cm[k]).Some? ==> Backed(log, k, Parse(cm[k]).value)
  }

  /** Every entry, in memory or persisted, tells of a reconcile that happened. */
  ghost predicate Honest(s: State) {
    CacheHonest(s.cache, s.log) && forall name :: name in s.store ==> ShardHonest(s.store[name], s.log)
  }

  lemma BackedGrows(log: Log, log': Log, k: string, e: Entry)
    requires Backed(log, k, e) && log <= log'
    ensures Backed(log', k, e)
  {
    var v :| v in log && CacheKey(v.uid) == k && v.resourceVersion == e.resourceVersion && Unix(v.at) == e.updatedAt;
    assert v in log';
  }

  lemma HonestGrows(s: State, log': Log)
    requires Honest(s) && s.log <= log'
    ensures Honest(s.(log := log'))
  {
    forall k | k in s.cache ensures Backed(log', k, s.cache[k]) {
      BackedGrows(s.log, log', k, s.cache[k]);
    }
    forall name | name in s.store ensures ShardHonest(s.store[name], log') {
      forall k | k in s.store[name] && Parse(s.store[name][k]).Some? ensures Backed(log', k, Parse(s.store[name][k]).value) {
        BackedGrows(s.log, log', k, Parse(s.store[name][k]).value);
      }
    }
  }

  lemma PersistedHonest(c: Config, before: Store, cache: Entries, log: Log, saved: bool, after: Store)
    requires CacheHonest(cache, log) && Persisted(c, before, cache, saved, after)
    requires forall name :: name in before ==> ShardHonest(before[name], log)
    ensures forall name :: name in after ==> ShardHonest(after[name], log)
  {
    if Persists(c) {
      forall name | name in after ensures ShardHonest(after[name], log) {
        assert Get(after, name) == Some(after[name]);
        if Get(after, name) != Get(before, name) {
          var n: nat :| n < Shards(c.shards) && name == ShardName(c.baseName, n)
            && Get(after, name) == Some(ShardData(cache, c.shards, n));
          ShardIsHonest(cache, c.shards, n, log);
        }
      }
    }
  }

  lemma ShardIsHonest(cache: Entries, count: int, shard: nat, log: Log)
    requires CacheHonest(cache, log)
    ensures ShardHonest(ShardData(cache, count, shard), log)
  {
    hide Parse, Format, ShardForKey, Backed;
    var cm := ShardData(cache, count, shard);
    forall k | k in cm && Parse(cm[k]).Some? ensures Backed(log, k, Parse(cm[k]).value) {
      FormatParse(cache[k]);
    }
  }

  lemma {:induction false} LoadedHonest(store: Store, baseName: string, cutoff: int, n: nat, log: Log)
    requires forall name :: name in store ==> ShardHonest(store[name], log)
    ensures CacheHonest(LoadedUpTo(store, baseName, cutoff, n), log)
  {
    hide Parse, Backed, ShardName;
    if n > 0 {
      LoadedHonest(store, baseName, cutoff, n - 1, log);
    }
  }

  lemma StepKeepsHonest(c: Config, s: State, a: Action, s': State)
    requires Honest(s) && Step(c, s, a, s')
    ensures Honest(s')
  {
    match a
    case Record(uid, rv, now, failed, saved) =>
      HonestGrows(s, s'.log);
      if !failed && rv != "" {
        RecordedHonest(s, uid, rv, now, s'.log);
        PersistedHonest(c, s.store, s'.cache, s'.log, saved, s'.store);
      }
    case Ask(uid, rv, now, skip) =>
    case Forget(uid, saved) =>
      if uid != "" { PersistedHonest(c, s.store, s'.cache, s'.log, saved, s'.store); }
    case Restart(baseName, shards, cutoff, loaded) =>
      LoadedHonest(s.store, baseName, cutoff, Shards(shards), s.log);
  }

  lemma RecordedHonest(s: State, uid: string, rv: string, now: Time, log: Log)
    requires CacheHonest(s.cache, log) && Event(uid, rv, now) in log
    ensures CacheHonest(Recorded(s.cache, uid, rv, now), log)
  {
    hide CacheKey;
    var v := Event(uid, rv, now);
    assert Backed(log, CacheKey(uid), Entry(rv, Unix(now))) by {
      assert v in log && v.resourceVersion == rv && Unix(v.at) == Unix(now);
    }
  }

  /** What asking answers, and what it leaves: of the cache only an expired entry of that very
      version goes, and nothing else changes. */
  lemma AskMeaning(c: Config, s: State, uid: string, rv: string, now: Time, skip: bool, s': State)
    requires Step(c, s, Ask(uid, rv, now, skip), s')
    ensures var known := rv != "" && Get(s.cache, CacheKey(uid)).Some? && s.cache[CacheKey(uid)].resourceVersion == rv;
            && (skip <==> known && now <= s.cache[CacheKey(uid)].updatedAt * SECOND + TTL)
            && s'.store == s.store && s'.log == s.log
            && (known && !skip ==> s'.cache == s.cache - {CacheKey(uid)})
            && (!known || skip ==> s'.cache == s.cache)
  {
    hide CacheKey;
  }

  /** Nothing is stored unless persistence is on and has a place. */
  lemma NothingStoredUnasked(c: Config, s: State, a: Action, s': State)
    requires Step(c, s, a, s') && (!c.persist || c.namespace == "" || c.baseName == "")
    ensures s'.store == s.store
  {
  }

  ghost predicate Run(c: Config, ss: seq<State>, acts: seq<Action>) {
    && |ss| == |acts| + 1 && ss[0] == State(map[], map[], {})
    && forall i :: 0 <= i < |acts| ==> Step(c, ss[i], acts[i], ss[i + 1])
  }

  lemma {:induction false} RunIsHonest(c: Config, ss: seq<State>, acts: seq<Action>, i: nat)
    requires Run(c, ss, acts) && i < |ss|
    ensures Honest(ss[i])
  {
    if i > 0 {
      RunIsHonest(c, ss, acts, i - 1);
      StepKeepsHonest(c, ss[i - 1], acts[i - 1], ss[i]);
    }
  }

  /** In every run, across restarts and failed saves: when the answer is to skip, a reconcile
      of that UID ended without error or requeue at exactly that resource version, within the
      time to live. */
  lemma SkipIsJustified(c: Config, ss: seq<State>, acts: seq<Action>, i: nat)
    requires Run(c, ss, acts) && i < |acts| && acts[i].Ask? && acts[i].skip
    ensures exists v :: v in ss[i].log
              && CacheKey(v.uid) == CacheKey(acts[i].uid) && (Clean(v.uid) && Clean(acts[i].uid) ==> v.uid == acts[i].uid)
              && v.resourceVersion == acts[i].resourceVersion && acts[i].now - v.at <= TTL
  {
    RunIsHonest(c, ss, acts, i);
    var s, a := ss[i], acts[i];
    assert Step(c, s, a, ss[i + 1]);
    HonestSkip(s, a.uid, a.resourceVersion, a.now);
  }

  lemma HonestSkip(s: State, uid: string, rv: string, now: Time)
    requires CacheHonest(s.cache, s.log) && Skips(s.cache, uid, rv, now)
    ensures exists v :: v in s.log && CacheKey(v.uid) == CacheKey(uid) && (Clean(v.uid) && Clean(uid) ==> v.uid == uid)
              && v.resourceVersion == rv && now - v.at <= TTL
  {
    var e := s.cache[CacheKey(uid)];
    assert Backed(s.log, CacheKey(uid), e);
    var v :| v in s.log && CacheKey(v.uid) == CacheKey(uid) && v.resourceVersion == rv && Unix(v.at) == e.updatedAt;
    if Clean(uid) && Clean(v.uid) {
      CleanIdIsItsKey(uid);
      CleanIdIsItsKey(v.uid);
    }
    assert v.at / SECOND * SECOND <= v.at;
  }

  /** And it is of use: with no bound on the size, a recorded reconcile is skipped until the
      resource version changes, it is forgotten, or the time is up. */
  lemma RecordedIsSkipped(c: Config, s: State, uid: string, rv: string, now: Time, saved: bool, s': State, later: Time)
    requires Step(c, s, Record(uid, rv, now, false, saved), s') && rv != "" && c.maxEntries <= 0
    ensures Skips(s'.cache, uid, rv, later) <==> later - Unix(now) * SECOND <= TTL
  {
    KeptInCache(c, s, uid, rv, now, saved, s');
    hide CacheKey;
  }

  lemma KeptInCache(c: Config, s: State, uid: string, rv: string, now: Time, saved: bool, s': State)
    requires Step(c, s, Record(uid, rv, now, false, saved), s') && rv != "" && c.maxEntries <= 0
    ensures Get(s'.cache, CacheKey(uid)) == Some(Entry(rv, Unix(now)))
  {
    hide CacheKey;
    var before, key := Recorded(s.cache, uid, rv, now), CacheKey(uid);
    assert Evicted(before, c.maxEntries, s'.cache);
    assert key in s'.cache by {
      if key !in s'.cache {
        SmallerWithout(before.Keys, s'.cache.Keys, key);
      }
    }
  }

  /** Also across a restart that follows a successful save, and that reads the same shards: the
      entry must not be older than the cutoff, nor its resource version hold a '|'. */
  lemma RecordedIsSkippedAfterRestart(c: Config, s0: State, uid: string, rv: string, now: Time, s1: State, cutoff: int,
                                      s2: State, later: Time)
    requires Step(c, s0, Record(uid, rv, now, false, true), s1) && rv != "" && c.maxEntries <= 0
    requires Step(c, s1, Restart(c.baseName, c.shards, cutoff, true), s2)
    ensures Skips(s2.cache, uid, rv, later) <==>
              later - Unix(now) * SECOND <= TTL && Unix(now) >= cutoff && '|' !in rv
  {
    KeptInCache(c, s0, uid, rv, now, true, s1);
    RestoredEntry(c, s0.store, s1, cutoff, s2, CacheKey(uid));
    hide CacheKey, Step;
  }

  lemma RestoredEntry(c: Config, before: Store, s1: State, cutoff: int, s2: State, key: string)
    requires SavedUpTo(before, c.baseName, c.shards, s1.cache, Shards(c.shards), s1.store)
    requires Step(c, s1, Restart(c.baseName, c.shards, cutoff, true), s2) && key in s1.cache
    ensures Get(s2.cache, key) == if Survives(s1.cache[key], cutoff) then Some(s1.cache[key]) else None
  {
    SaveLoad(before, c.baseName, c.shards, s1.cache, s1.store, cutoff);
    hide LoadedUpTo, SavedUpTo, Survives, Shards;
  }

  lemma SmallerWithout(big: set<string>, small: set<string>, k: string)
    requires small <= big && k in big && k !in small
    ensures |small| < |big|
  {
    SubsetSize(small, big - {k});
  }

  lemma {:induction false} SubsetSize(a: set<string>, b: set<string>)
    requires a <= b
    ensures |a| <= |b|
  {
    if a != {} {
      var x :| x in a;
      SubsetSize(a - {x}, b - {x});
    }
  }

  // ---------------------------------------------------------------- the operations

  /** Inserts by age. */
  function Placed(cache: Entries, keys: seq<string>, k: string): (r: seq<string>)
    requires k in cache && forall x :: x in keys ==> x in cache
    ensures multiset(r) == multiset(keys) + multiset{k}
  {
    if keys == [] then [k]
    else if cache[k].updatedAt <= cache[keys[0]].updatedAt then [k] + keys
    else
      assert keys == [keys[0]] + keys[1..];
      [keys[0]] + Placed(cache, keys[1..], k)
  }

  ghost predicate ByAge(cache: Entries, keys: seq<string>) {
    && (forall x :: x in keys ==> x in cache)
    && forall i, j :: 0 <= i < j < |keys| ==> cache[keys[i]].updatedAt <= cache[keys[j]].updatedAt
  }

  lemma PlacedElements(cache: Entries, keys: seq<string>, k: string)
    requires k in cache && forall x :: x in keys ==> x in cache
    ensures Elements(Placed(cache, keys, k)) == Elements(keys) + {k}
    ensures Distinct(keys) && k !in keys ==> Distinct(Placed(cache, keys, k))
  {
    var t, r := [k] + keys, Placed(cache, keys, k);
    hide Placed;
    assert multiset(t) == multiset(r);
    PermutedElements(t, r);
    assert Elements(t) == Elements(keys) + {k};
    if Distinct(keys) && k !in keys {
      MultisetDistinct(t, r);
    }
  }

  lemma {:induction false} PlacedByAge(cache: Entries, keys: seq<string>, k: string)
    requires k in cache && ByAge(cache, keys)
    ensures ByAge(cache, Placed(cache, keys, k))
  {
    if keys == [] {
    } else if cache[k].updatedAt <= cache[keys[0]].updatedAt {
      ConsByAge(cache, k, keys);
    } else {
      var rest := Placed(cache, keys[1..], k);
      PlacedByAge(cache, keys[1..], k);
      PlacedElements(cache, keys[1..], k);
      assert Placed(cache, keys, k) == [keys[0]] + rest;
      hide ByAge, Placed;
      forall y | y in rest ensures y in cache && cache[keys[0]].updatedAt <= cache[y].updatedAt {
        assert y in Elements(rest);
        HeadIsOldest(cache, keys, y, k);
      }
      ConsByAge(cache, keys[0], rest);
    }
  }

  lemma HeadIsOldest(cache: Entries, keys: seq<string>, y: string, k: string)
    requires ByAge(cache, keys) && keys != [] && k in cache && cache[k].updatedAt > cache[keys[0]].updatedAt
    requires y == k || y in keys[1..]
    ensures y in cache && cache[keys[0]].updatedAt <= cache[y].updatedAt
  {
  }

  lemma ConsByAge(cache: Entries, x: string, keys: seq<string>)
    requires ByAge(cache, keys) && x in cache && forall y :: y in keys ==> cache[x].updatedAt <= cache[y].updatedAt
    ensures ByAge(cache, [x] + keys)
  {
  }

  method SortedByAge(cache: Entries) returns (keys: seq<string>)
    ensures ByAge(cache, keys) && Distinct(keys) && Elements(keys) == cache.Keys
  {
    keys := [];
    var todo := cache.Keys;
    while todo != {}
      invariant ByAge(cache, keys) && Distinct(keys)
      invariant todo !! Elements(keys) && todo + Elements(keys) == cache.Keys
    {
      var k :| k in todo;
      assert k !in keys by { assert k !in Elements(keys); }
      PlacedByAge(cache, keys, k);
      PlacedElements(cache, keys, k);
      todo, keys := todo - {k}, Placed(cache, keys, k);
    }
  }

  class ReconcilerCache {
    const config: Config
    const maps: ConfigMaps
    var cache: Entries
    ghost var log: Log

    ghost function Now(): State
      reads this, maps
    {
      State(cache, maps.store, log)
    }

    constructor (config: Config)
      ensures this.config == config && fresh(maps) && Now() == State(map[], map[], {})
    {
      this.config := config;
      maps := new ConfigMaps(map[]);
      cache, log := map[], {};
    }

    method EvictOldestCacheEntries()
      requires config.maxEntries > 0 && |cache| > config.maxEntries
      modifies `cache
      ensures Evicted(old(cache), config.maxEntries, cache)
    {
      hide Taken, Evicted, ByAge;
      var entries := SortedByAge(cache);
      ghost var i, keys, before := 0, entries, cache;
      NothingTaken(before, keys);
      while |cache| > config.maxEntries && |entries| > 0
        invariant i <= |keys| && entries == keys[i..]
        invariant Taken(before, keys, i, cache) && |cache| >= config.maxEntries
        decreases |entries|
      {
        TakenNext(before, keys, i, cache);
        var oldest := entries[0];
        cache := cache - {oldest};
        entries := entries[1..];
        i := i + 1;
      }
      TakenIsEvicted(before, keys, i, cache, config.maxEntries);
    }

    method Save() returns (saved: bool)
      requires Divisor(config.shards) != 0
      modifies maps
      ensures Persisted(config, old(maps.store), cache, saved, maps.store)
    {
      if !config.persist || config.baseName == "" || config.namespace == "" {
        return false;
      }
      saved := maps.SaveReconcileCacheSharded(config.baseName, config.shards, cache);
    }

    method ShouldSkipReconcile(uid: string, resourceVersion: string, now: Time) returns (skip: bool)
      modifies `cache
      ensures Step(config, old(Now()), Ask(uid, resourceVersion, now, skip), Now())
    {
      if resourceVersion == "" {
        return false;
      }
      var key := CacheKey(uid);
      if key !in cache || cache[key].resourceVersion != resourceVersion {
        return false;
      }
      if now - cache[key].updatedAt * SECOND > TTL {
        cache := cache - {key};
        return false;
      }
      return true;
    }

    method MaybeRecordReconcile(uid: string, resourceVersion: string, now: Time, failed: bool) returns (saved: bool)
      requires Divisor(config.shards) != 0
      modifies this, maps
      ensures Step(config, old(Now()), Record(uid, resourceVersion, now, failed, saved), Now())
      ensures config.maxEntries > 0 && !failed && resourceVersion != "" ==> |cache| <= config.maxEntries
    {
      saved := false;
      if failed {
        return;
      }
      log := log + {Event(uid, resourceVersion, now)};
      if resourceVersion == "" {
        return;
      }
      cache := cache[CacheKey(uid) := Entry(resourceVersion, Unix(now))];
      if config.maxEntries > 0 && |cache| > config.maxEntries {
        EvictOldestCacheEntries();
      }
      saved := Save();
    }

    method EvictReconcileCache(uid: string) returns (saved: bool)
      requires Divisor(config.shards) != 0
      modifies this, maps
      ensures Step(config, old(Now()), Forget(uid, saved), Now())
    {
      if uid == "" {
        return false;
      }
      cache := cache - {CacheKey(uid)};
      saved := Save();
    }

    /** A new process starts from what was persisted. */
    method RestartFrom(baseName: string, shards: int, now: Time) returns (ok: bool)
      modifies `cache
      ensures Step(config, old(Now()), Restart(baseName, shards, (now - TTL) / SECOND, ok), Now())
    {
      var loaded;
      loaded, ok := maps.LoadReconcileCacheSharded(baseName, shards, (now - TTL) / SECOND);
      cache := if ok then loaded else map[];
    }
  }

  /** The i oldest entries are gone. */
  ghost predicate Taken(before: Entries, keys: seq<string>, i: nat, now: Entries) {
    && ByAge(before, keys) && Distinct(keys) && Elements(keys) == before.Keys && i <= |keys|
    && now == before - Elements(keys[..i]) && |now| == |keys| - i
  }

  lemma NothingTaken(before: Entries, keys: seq<string>)
    requires ByAge(before, keys) && Distinct(keys) && Elements(keys) == before.Keys
    ensures Taken(before, keys, 0, before) && |keys| == |before|
  {
    DistinctMultiset(keys);
    assert |multiset(keys)| == |keys|;
    assert |before| == |before.Keys|;
    assert Elements(keys[..0]) == {};
  }

  lemma TakenNext(before: Entries, keys: seq<string>, i: nat, now: Entries)
    requires i < |keys| && Taken(before, keys, i, now)
    ensures Taken(before, keys, i + 1, now - {keys[i]}) && |now - {keys[i]}| == |now| - 1
    ensures keys[i..][1..] == keys[i + 1..]
  {
    hide ByAge, Distinct, Elements;
    PrefixNext(keys, i);
    WithoutOne(before, Elements(keys[..i]), keys[i]);
  }

  lemma PrefixNext(keys: seq<string>, i: nat)
    requires i < |keys| && Distinct(keys)
    ensures Elements(keys[..i + 1]) == Elements(keys[..i]) + {keys[i]}
    ensures keys[i] in Elements(keys) && keys[i] !in Elements(keys[..i])
    ensures keys[i..][1..] == keys[i + 1..]
  {
    assert keys[..i + 1] == keys[..i] + [keys[i]];
  }

  lemma WithoutOne(m: Entries, gone: set<string>, k: string)
    requires k in m && k !in gone
    ensures m - gone - {k} == m - (gone + {k}) && |m - gone - {k}| == |m - gone| - 1
  {
    var n := m - gone;
    assert (n - {k}).Keys == n.Keys - {k};
    assert |n| == |n.Keys| && |n - {k}| == |(n - {k}).Keys|;
  }

  lemma TakenIsEvicted(before: Entries, keys: seq<string>, i: nat, now: Entries, maxEntries: int)
    requires Taken(before, keys, i, now) && 0 < maxEntries < |before|
    requires maxEntries <= |now| && (|now| <= maxEntries || i == |keys|)
    ensures Evicted(before, maxEntries, now)
  {
    forall k, l | k in before && k !in now && l in now ensures before[k].updatedAt <= before[l].updatedAt {
      OlderFirst(before, keys, i, k, l);
    }
  }

  lemma OlderFirst(before: Entries, keys: seq<string>, i: nat, k: string, l: string)
    requires ByAge(before, keys) && Elements(keys) == before.Keys && i <= |keys|
    requires k in Elements(keys[..i]) && l in before && l !in Elements(keys[..i])
    ensures before[k].updatedAt <= before[l].updatedAt
  {
    var a :| 0 <= a < i && keys[..i][a] == k;
    assert l in Elements(keys);
    var b :| 0 <= b < |keys| && keys[b] == l;
    assert b >= i by { assert forall x :: 0 <= x < i ==> keys[..i][x] in Elements(keys[..i]); }
    assert keys[a] == k;
  }
}
