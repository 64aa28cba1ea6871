/** Cache entries, one shard, and the two evictions that keep a shard fresh and small. */
module Cache {
  import opened Ordering
  import opened Wrappers

  const U64_MAX: nat := 0xFFFF_FFFF_FFFF_FFFF

  type u64 = x: int | 0 <= x <= 0xFFFF_FFFF_FFFF_FFFF

  datatype CachedHeader = CachedHeader(name: string, value: string)

  /** `action` is the enumeration's wire number; numbers other than 0 to 4 can be stored. */
  datatype CachedMutation = CachedMutation(name: string, value: string, action: int)

  datatype CacheEntry = CacheEntry(
    expiresAtMs: u64,
    allowed: bool,
    deniedStatus: nat,
    deniedBody: string,
    responseHeaders: seq<CachedHeader>,
    requestHeaderMutations: seq<CachedMutation>)

  type Shard = map<string, CacheEntry>

  const NUM_SHARDS: nat := 16

  function SaturatingAdd(a: u64, b: u64): (r: u64)
    ensures r <= a + b && (r < a + b ==> r == 0xFFFF_FFFF_FFFF_FFFF)
  {
    if a + b <= U64_MAX then a + b else U64_MAX
  }

  /** `max_entries.div_ceil(NUM_SHARDS).max(1)` */
  function ShardQuota(maxEntries: nat): nat {
    var q := (maxEntries + NUM_SHARDS - 1) / NUM_SHARDS;
    if q < 1 then 1 else q
  }

  /** The least quota, but at least one, with which 16 shards hold everything configured. */
  lemma ShardQuotaIs(maxEntries: nat, q: nat)
    ensures ShardQuota(maxEntries) <= q <==> q >= 1 && 16 * q >= maxEntries
  {
  }

  // --- what a shard answers ----------------------------------------------------------------------

  function Lookup(m: Shard, key: string, now: u64): Option<CacheEntry> {
    if key in m && m[key].expiresAtMs > now then Some(m[key]) else None
  }

  function Evict(m: Shard, now: u64): Shard {
    map k | k in m && m[k].expiresAtMs > now :: m[k]
  }

  /** Eviction is invisible to every lookup made at that time or later. */
  lemma EvictIsInvisible(m: Shard, now: u64, key: string, t: u64)
    requires now <= t
    ensures Lookup(Evict(m, now), key, t) == Lookup(m, key, t)
  {
  }

  // --- the quota -------------------------------------------------------------------------------------

  /** The order entries are kept by: later expiry first, then the larger key. */
  predicate Outranks(m: Shard, j: string, k: string)
    requires j in m && k in m
  {
    m[j].expiresAtMs > m[k].expiresAtMs
    || (m[j].expiresAtMs == m[k].expiresAtMs && StrLess(k, j))
  }

  function Above(m: Shard, k: string): set<string>
    requires k in m
  {
    set j | j in m && Outranks(m, j, k)
  }

  /** The entries outranked by fewer than `quota` others. */
  function TopK(m: Shard, quota: nat): Shard {
    map k | k in m && |Above(m, k)| < quota :: m[k]
  }

  ghost predicate UpwardClosed(m: Shard, keys: set<string>)
    requires keys <= m.Keys
  {
    forall j, k :: j in m && k in keys && Outranks(m, j, k) ==> j in keys
  }

  ghost predicate IsMin(m: Shard, k: string) {
    k in m && forall j :: j in m && j != k ==> Outranks(m, j, k)
  }

  lemma OutranksTotal(m: Shard, j: string, k: string)
    requires j in m && k in m && j != k
    ensures Outranks(m, j, k) != Outranks(m, k, j)
  {
    StrOrder();
  }

  lemma OutranksTransitive(m: Shard, i: string, j: string, k: string)
    requires i in m && j in m && k in m
    requires Outranks(m, i, j) && Outranks(m, j, k)
    ensures Outranks(m, i, k)
  {
    StrOrder();
  }

  lemma SubsetSize(a: set<string>, b: set<string>)
    requires a <= b
    ensures |a| <= |b|
    ensures |a| == |b| ==> a == b
  {
    assert b == a + (b - a);
    assert |b| == |a| + |b - a|;
  }

  lemma {:induction false} MinExists(m: Shard) returns (k: string)
    requires m != map[]
    ensures IsMin(m, k)
    decreases |m|
  {
    var a :| a in m;
    var rest := m - {a};
    assert rest.Keys == m.Keys - {a};
    if rest == map[] {
      k := a;
      assert m.Keys <= {a} + rest.Keys;
    } else {
      var b := MinExists(rest);
      OutranksTotal(m, a, b);
      k := if Outranks(m, a, b) then b else a;
      forall j | j in m && j != k ensures Outranks(m, j, k) {
        if j != a && j != b {
          assert j in rest && Outranks(rest, j, b);
          if k == a { OutranksTransitive(m, j, b, a); }
        }
      }
    }
  }

  /** Under its quota a shard is left alone. */
  lemma TopKSmall(m: Shard, quota: nat)
    requires |m| <= quota
    ensures TopK(m, quota) == m
  {
    forall k | k in m ensures |Above(m, k)| < quota {
      SubsetSize(Above(m, k), m.Keys - {k});
    }
  }

  /** Over its quota, removing the minimum changes nothing about who is in the top. */
  lemma TopKDropMin(m: Shard, k: string, quota: nat)
    requires |m| > quota && IsMin(m, k)
    ensures TopK(m - {k}, quota) == TopK(m, quota)
  {
    var rest := m - {k};
    assert Above(m, k) == m.Keys - {k} by {
      StrOrder();
    }
    assert k !in TopK(m, quota);
    forall j | j in rest ensures Above(rest, j) == Above(m, j) {
      OutranksTotal(m, j, k);
    }
  }

  lemma {:induction false} TopKSize(m: Shard, quota: nat)
    ensures TopK(m, quota).Keys <= m.Keys
    ensures |TopK(m, quota)| == if |m| < quota then |m| else quota
    decreases |m|
  {
    if |m| <= quota {
      TopKSmall(m, quota);
    } else {
      var k := MinExists(m);
      TopKDropMin(m, k, quota);
      assert (m - {k}).Keys == m.Keys - {k};
      TopKSize(m - {k}, quota);
    }
  }

  lemma TopKUpwardClosed(m: Shard, quota: nat)
    ensures UpwardClosed(m, TopK(m, quota).Keys)
  {
    forall j, k | j in m && k in TopK(m, quota).Keys && Outranks(m, j, k)
      ensures j in TopK(m, quota).Keys
    {
      forall i | i in Above(m, j) ensures i in Above(m, k) { OutranksTransitive(m, i, j, k); }
      SubsetSize(Above(m, j), Above(m, k));
    }
  }

  /** No other choice of that many keys is upward closed, so the order in which a hash map is
      iterated cannot matter. */
  lemma TopKUnique(m: Shard, quota: nat, keys: set<string>)
    requires keys <= m.Keys && UpwardClosed(m, keys)
    requires |keys| == if |m| < quota then |m| else quota
    ensures keys == TopK(m, quota).Keys
  {
    var top := TopK(m, quota).Keys;
    TopKSize(m, quota);
    TopKUpwardClosed(m, quota);
    if !(keys <= top) && !(top <= keys) {
      var a :| a in keys && a !in top;
      var b :| b in top && b !in keys;
      OutranksTotal(m, a, b);
      assert false;
    }
    SubsetSize(keys, if keys <= top then top else keys);
    SubsetSize(top, if top <= keys then keys else top);
  }

  // --- the transforms -----------------------------------------------------------------------------

  /** What a store computes from the shard it read. */
  function StoreTransform(m: Shard, now: u64, key: string, e: CacheEntry, quota: nat): Shard {
    TopK(Evict(m, now)[key := e], quota)
  }

  function PurgeKeyTransform(m: Shard, key: string): Shard {
    m - {key}
  }

  /** The entries of the read shard that outrank the new one after eviction. */
  function Rivals(m: Shard, now: u64, key: string, e: CacheEntry): set<string> {
    set j | j in m && j != key && m[j].expiresAtMs > now
            && (m[j].expiresAtMs > e.expiresAtMs
                || (m[j].expiresAtMs == e.expiresAtMs && StrLess(key, j)))
  }

  /** A fresh entry survives its own store exactly when fewer than `quota` survivors outrank it. */
  lemma FreshSurvivesIff(m: Shard, now: u64, key: string, e: CacheEntry, quota: nat)
    ensures key in StoreTransform(m, now, key, e, quota) <==> |Rivals(m, now, key, e)| < quota
    ensures key in StoreTransform(m, now, key, e, quota) ==>
              StoreTransform(m, now, key, e, quota)[key] == e
  {
    assert Above(Evict(m, now)[key := e], key) == Rivals(m, now, key, e);
  }

  /** When nothing in the shard expires later than the new entry, as with one TTL and a clock that
      does not run backwards, the entry is lost only to `quota` entries with its own expiry and
      larger keys. */
  lemma FreshLostOnlyToTies(m: Shard, now: u64, key: string, e: CacheEntry, quota: nat)
    requires forall j :: j in m ==> m[j].expiresAtMs <= e.expiresAtMs
    requires key !in StoreTransform(m, now, key, e, quota)
    ensures |set j | j in m && m[j].expiresAtMs == e.expiresAtMs && StrLess(key, j)| >= quota
  {
    FreshSurvivesIff(m, now, key, e, quota);
    SubsetSize(Rivals(m, now, key, e),
               set j | j in m && m[j].expiresAtMs == e.expiresAtMs && StrLess(key, j));
  }

  /** A store into an empty shard keeps exactly its own entry. */
  lemma StoreIntoEmpty(now: u64, key: string, e: CacheEntry, quota: nat)
    requires quota >= 1
    ensures StoreTransform(map[], now, key, e, quota) == map[key := e]
  {
    assert Evict(map[], now) == map[];
    TopKSmall(map[key := e], quota);
  }

  // --- the shard as the source updates it ---------------------------------------------------------

  class CacheShard {
    var entries: Shard

    constructor (contents: Shard)
      ensures entries == contents
    {
      entries := contents;
    }

    method EvictExpired(now: u64)
      modifies this
      ensures entries == Evict(old(entries), now)
    {
      var rest := entries.Keys;
      while rest != {}
        invariant rest <= old(entries).Keys
        invariant entries == map k | k in old(entries)
                               && (k in rest || old(entries)[k].expiresAtMs > now)
                               :: old(entries)[k]
        decreases |rest|
      {
        var k :| k in rest;
        if !(entries[k].expiresAtMs > now) {
          entries := entries - {k};
        }
        rest := rest - {k};
      }
    }

    method Put(key: string, e: CacheEntry)
      modifies this
      ensures entries == old(entries)[key := e]
    {
      entries := entries[key := e];
    }

    /** `entries.iter().min_by(..)`: the entries come in no particular order. */
    method MinKey() returns (key: string)
      requires entries != map[]
      ensures IsMin(entries, key)
    {
      key :| key in entries;
      var rest := entries.Keys - {key};
      while rest != {}
        invariant rest <= entries.Keys && key in entries && key !in rest
        invariant forall j :: j in entries && j !in rest && j != key ==> Outranks(entries, j, key)
        decreases |rest|
      {
        var k :| k in rest;
        rest := rest - {k};
        OutranksTotal(entries, k, key);
        if Outranks(entries, key, k) {
          forall j | j in entries && j !in rest && j != key && j != k
            ensures Outranks(entries, j, k)
          {
            OutranksTransitive(entries, j, key, k);
          }
          key := k;
        }
      }
    }

    /** Removes the lowest ranked entry until the quota is met. */
    method EnforceQuota(quota: nat)
      modifies this
      ensures entries == TopK(old(entries), quota)
    {
      while |entries| > quota
        invariant TopK(entries, quota) == TopK(old(entries), quota)
        decreases |entries|
      {
        var key := MinKey();
        TopKDropMin(entries, key, quota);
        assert (entries - {key}).Keys == entries.Keys - {key};
        entries := entries - {key};
      }
      TopKSmall(entries, quota);
    }
  }
}
