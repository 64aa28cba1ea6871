/** What follows from every write being atomic: the 16 bounded shards against one unbounded map. */
module LogTheory {
  import opened Wrappers
  import opened Cache
  import opened CacheKey
  import opened SharedStore

  ghost predicate AtomicLog(log: seq<Commit>, quota: nat) {
    forall i :: 0 <= i < |log| ==> Atomic(log[i], ValueAt(log[..i], log[i].shardId), quota)
  }

  // --- the ideal map -----------------------------------------------------------------------------

  /** One unbounded map without shards, evictions or versions. */
  ghost function ApplyIdeal(m: Shard, c: Commit): Shard {
    match c.op
    case StoreOp(key, entry) => m[key := entry]
    case PurgeKeyOp(key) => m - {key}
    case PurgeAllOp => map k | k in m && ShardId(k) != c.shardId :: m[k]
  }

  ghost function Ideal(log: seq<Commit>): Shard {
    if log == [] then map[] else ApplyIdeal(Ideal(log[..|log| - 1]), log[|log| - 1])
  }

  predicate Stores(c: Commit, k: string) {
    c.op.StoreOp? && c.op.key == k
  }

  predicate Purges(c: Commit, k: string) {
    (c.op.PurgeKeyOp? && c.op.key == k) || (c.op.PurgeAllOp? && c.shardId == ShardId(k))
  }

  ghost predicate UntouchedAfter(log: seq<Commit>, i: int, k: string) {
    forall j :: 0 <= j < |log| && i < j ==> !Stores(log[j], k) && !Purges(log[j], k)
  }

  /** Write `i` stored `e` under `k`, and nothing has stored or purged `k` since. */
  ghost predicate LastStored(log: seq<Commit>, i: int, k: string, e: CacheEntry) {
    0 <= i < |log| && log[i].op == StoreOp(k, e) && UntouchedAfter(log, i, k)
  }

  lemma UntouchedSnoc(log: seq<Commit>, i: int, k: string)
    requires log != [] && UntouchedAfter(log[..|log| - 1], i, k)
    requires !Stores(log[|log| - 1], k) && !Purges(log[|log| - 1], k)
    ensures UntouchedAfter(log, i, k)
  {
    forall j | 0 <= j < |log| && i < j ensures !Stores(log[j], k) && !Purges(log[j], k) {
      if j < |log| - 1 { assert log[j] == log[..|log| - 1][j]; }
    }
  }

  /** The ideal map holds exactly what was stored last and not purged since. */
  lemma {:induction false} IdealIff(log: seq<Commit>, k: string, e: CacheEntry)
    ensures k in Ideal(log) && Ideal(log)[k] == e <==> exists i :: LastStored(log, i, k, e)
  {
    if log != [] {
      var init, last := log[..|log| - 1], log[|log| - 1];
      IdealIff(init, k, e);
      if Stores(last, k) {
        if last.op.entry == e { assert LastStored(log, |log| - 1, k, e); }
        forall i | LastStored(log, i, k, e) ensures last.op.entry == e {
          assert !(i < |log| - 1);
        }
      } else if Purges(last, k) {
        forall i ensures !LastStored(log, i, k, e) {
          assert UntouchedAfter(log, i, k) ==> i >= |log| - 1;
        }
      } else {
        forall i | LastStored(init, i, k, e) ensures LastStored(log, i, k, e) {
          UntouchedSnoc(log, i, k);
        }
        forall i | LastStored(log, i, k, e) ensures LastStored(init, i, k, e) {
          assert i < |log| - 1;
          forall j | i < j < |init| ensures !Stores(init[j], k) && !Purges(init[j], k) { assert init[j] == log[j]; }
        }
      }
    }
  }

  // --- every shard against the ideal map --------------------------------------------------------------

  lemma {:induction false} AtomicPrefix(log: seq<Commit>, n: nat, quota: nat)
    requires AtomicLog(log, quota) && n <= |log|
    ensures AtomicLog(log[..n], quota)
  {
    forall i | 0 <= i < n ensures Atomic(log[..n][i], ValueAt(log[..n][..i], log[..n][i].shardId), quota) {
      assert log[..n][..i] == log[..i];
    }
  }

  lemma {:induction false} AtomicLast(log: seq<Commit>, quota: nat)
    requires AtomicLog(log, quota) && log != []
    ensures AtomicLog(log[..|log| - 1], quota)
    ensures Atomic(log[|log| - 1], ValueAt(log[..|log| - 1], log[|log| - 1].shardId), quota)
  {
    AtomicPrefix(log, |log| - 1, quota);
  }

  /** `m` fits its quota and agrees with the ideal map on every key it holds. */
  ghost predicate Refines(m: Shard, ideal: Shard, id: nat, quota: nat) {
    && |m| <= quota
    && forall k :: k in m ==> ShardId(k) == id && k in ideal && ideal[k] == m[k]
  }

  lemma OwnWriteRefines(m: Shard, ideal: Shard, c: Commit, quota: nat)
    requires Refines(m, ideal, c.shardId, quota) && Atomic(c, m, quota)
    ensures Refines(c.value, ApplyIdeal(ideal, c), c.shardId, quota)
  {
    var base := if c.versioned then m else map[];
    match c.op
    case StoreOp(key, entry) => TopKSize(Evict(base, c.now)[key := entry], quota);
    case PurgeKeyOp(key) => SubsetSize(c.value.Keys, base.Keys);
    case PurgeAllOp =>
  }

  lemma OtherWriteRefines(m: Shard, ideal: Shard, c: Commit, id: nat, quota: nat)
    requires Refines(m, ideal, id, quota) && RightShard(c.op, c.shardId) && c.shardId != id
    ensures Refines(m, ApplyIdeal(ideal, c), id, quota)
  {
  }

  /** Each stored entry is the ideal map's entry for its key, in the key's own shard, and no shard
      exceeds its quota. */
  lemma {:induction false} ShardsRefineIdeal(log: seq<Commit>, quota: nat, id: nat)
    requires AtomicLog(log, quota)
    ensures Refines(ValueAt(log, id), Ideal(log), id, quota)
  {
    if log != [] {
      var init, c := log[..|log| - 1], log[|log| - 1];
      AtomicLast(log, quota);
      ShardsRefineIdeal(init, quota, id);
      if c.shardId == id {
        OwnWriteRefines(ValueAt(init, id), Ideal(init), c, quota);
      } else {
        OtherWriteRefines(ValueAt(init, id), Ideal(init), c, id, quota);
      }
    }
  }

  // --- why an ideal entry can be missing ---------------------------------------------------------------

  /** What a store looks at before it enforces the quota. */
  ghost function BeforeQuota(c: Commit, before: Shard): Shard
    requires c.op.StoreOp?
  {
    Evict(if c.versioned then before else map[], c.now)[c.op.key := c.op.entry]
  }

  /** A store whose quota was used up by the entries that outrank `k`. */
  ghost predicate LostToQuota(c: Commit, before: Shard, k: string, quota: nat) {
    c.op.StoreOp? && k in BeforeQuota(c, before) && |Above(BeforeQuota(c, before), k)| >= quota
  }

  /** A write for another key that named no version, although the shard held `k`. */
  ghost predicate LostToOverwrite(c: Commit, before: Shard, k: string) {
    !c.versioned && k in before && !Stores(c, k) && !Purges(c, k)
  }

  /** A store for another key that found the entry under `k` expired. */
  ghost predicate LostToExpiry(c: Commit, before: Shard, k: string) {
    c.op.StoreOp? && k in before && !Stores(c, k) && before[k].expiresAtMs <= c.now
  }

  /** Write `i` met the condition of one of the three losses of `k`, which has been neither stored nor
      purged since. */
  ghost predicate DroppedAt(log: seq<Commit>, i: int, k: string, quota: nat) {
    && 0 <= i < |log| && log[i].shardId == ShardId(k) && UntouchedAfter(log, i, k)
    && var before := ValueAt(log[..i], ShardId(k));
       LostToQuota(log[i], before, k, quota) || LostToOverwrite(log[i], before, k) || LostToExpiry(log[i], before, k)
  }

  /** Dropped by the quota, or overwritten by a first write that saw no shard. */
  ghost predicate LostLive(log: seq<Commit>, i: int, k: string, quota: nat) {
    && DroppedAt(log, i, k, quota)
    && var before := ValueAt(log[..i], ShardId(k));
       LostToQuota(log[i], before, k, quota) || LostToOverwrite(log[i], before, k)
  }

  /** One write keeps what it stores or finds under `k` unless one of the three conditions holds. */
  lemma OneWriteDropsIff(c: Commit, before: Shard, k: string, quota: nat)
    requires Atomic(c, before, quota) && !Purges(c, k) && c.shardId == ShardId(k)
    ensures Stores(c, k) || k in before ==>
              (k !in c.value <==>
                LostToQuota(c, before, k, quota) || LostToOverwrite(c, before, k) || LostToExpiry(c, before, k))
    ensures k in c.value ==> Stores(c, k) || k in before
  {
  }

  lemma DroppedSnoc(log: seq<Commit>, i: int, k: string, quota: nat)
    requires log != [] && i != |log| - 1
    ensures DroppedAt(log, i, k, quota)
            <==> DroppedAt(log[..|log| - 1], i, k, quota) && !Stores(log[|log| - 1], k) && !Purges(log[|log| - 1], k)
  {
    var init := log[..|log| - 1];
    if 0 <= i < |init| {
      assert init[..i] == log[..i];
      assert UntouchedAfter(log, i, k)
             <==> UntouchedAfter(init, i, k) && !Stores(log[|log| - 1], k) && !Purges(log[|log| - 1], k) by {
        if UntouchedAfter(init, i, k) && !Stores(log[|log| - 1], k) && !Purges(log[|log| - 1], k) {
          UntouchedSnoc(log, i, k);
        }
        forall j | 0 <= j < |init| && i < j && UntouchedAfter(log, i, k) ensures !Stores(init[j], k) && !Purges(init[j], k) {
          assert init[j] == log[j];
        }
      }
    }
  }

  /** An entry of the ideal map is missing from its shard exactly when, since it was last stored, a
      write met the condition of a loss: a used-up quota, an overwriting first write, an eviction
      after its expiry. */
  lemma {:induction false} MissingIffDropped(log: seq<Commit>, quota: nat, k: string)
    requires AtomicLog(log, quota)
    ensures k in Ideal(log) ==>
              (k !in ValueAt(log, ShardId(k)) <==> exists i :: DroppedAt(log, i, k, quota))
  {
    if k in Ideal(log) {
      var init, c := log[..|log| - 1], log[|log| - 1];
      var before := ValueAt(init, ShardId(k));
      AtomicLast(log, quota);
      MissingIffDropped(init, quota, k);
      forall i | i != |log| - 1
        ensures DroppedAt(log, i, k, quota) <==> DroppedAt(init, i, k, quota) && !Stores(c, k)
      {
        DroppedSnoc(log, i, k, quota);
      }
      if c.shardId == ShardId(k) {
        OneWriteDropsIff(c, before, k, quota);
        assert DroppedAt(log, |log| - 1, k, quota)
               <==> LostToQuota(c, before, k, quota) || LostToOverwrite(c, before, k) || LostToExpiry(c, before, k);
      }
    }
  }

  lemma {:induction false} StillLastStored(log: seq<Commit>, i: nat, m: int, k: string, e: CacheEntry)
    requires i < |log| && LastStored(log[..i], m, k, e)
    requires UntouchedAfter(log, i, k) && !Stores(log[i], k) && !Purges(log[i], k)
    ensures LastStored(log, m, k, e)
  {
    forall j | 0 <= j < |log| && m < j ensures !Stores(log[j], k) && !Purges(log[j], k) {
      if j < i { assert log[j] == log[..i][j]; }
    }
  }

  /** What a shard held under `k` before a write is still the ideal entry, if `k` has been left alone. */
  lemma {:induction false} UntouchedIsIdeal(log: seq<Commit>, quota: nat, i: nat, k: string)
    requires AtomicLog(log, quota) && i < |log| && k in ValueAt(log[..i], ShardId(k))
    requires UntouchedAfter(log, i, k) && !Stores(log[i], k) && !Purges(log[i], k)
    ensures k in Ideal(log) && Ideal(log)[k] == ValueAt(log[..i], ShardId(k))[k]
  {
    var init := log[..i];
    var e := ValueAt(init, ShardId(k))[k];
    AtomicPrefix(log, i, quota);
    ShardsRefineIdeal(init, quota, ShardId(k));
    IdealIff(init, k, e);
    var m :| LastStored(init, m, k, e);
    StillLastStored(log, i, m, k, e);
    IdealIff(log, k, e);
  }

  /** When no write used a later clock reading than `t`, an ideal entry that is alive at `t` is missing
      from its shard exactly when the quota or an overwriting first write dropped it since it was
      last stored: eviction is never the reason. */
  lemma {:induction false} LiveMissingIff(log: seq<Commit>, quota: nat, k: string, t: u64)
    requires AtomicLog(log, quota) && forall i :: 0 <= i < |log| ==> log[i].now <= t
    ensures Lookup(Ideal(log), k, t).Some? ==>
              (k !in ValueAt(log, ShardId(k)) <==> exists i :: LostLive(log, i, k, quota))
  {
    if Lookup(Ideal(log), k, t).Some? {
      MissingIffDropped(log, quota, k);
      forall i | DroppedAt(log, i, k, quota) ensures LostLive(log, i, k, quota) {
        var before := ValueAt(log[..i], ShardId(k));
        if LostToExpiry(log[i], before, k) {
          UntouchedIsIdeal(log, quota, i, k);
        }
      }
    }
  }

  // --- purges --------------------------------------------------------------------------------------

  lemma StoredAfterPurge(log: seq<Commit>, p: nat, k: string, e: CacheEntry)
    requires p < |log| && Purges(log[p], k)
    requires k in Ideal(log) && Ideal(log)[k] == e
    ensures exists i :: p < i < |log| && log[i].op == StoreOp(k, e)
  {
    IdealIff(log, k, e);
    var i :| LastStored(log, i, k, e);
    assert i >= p;
    assert i != p;
  }

  /** Whatever a shard holds after a purge of its key was stored by a write after that purge. */
  lemma {:induction false} NothingOutlivesPurge(log: seq<Commit>, quota: nat, p: nat, k: string)
    requires AtomicLog(log, quota)
    ensures p < |log| && Purges(log[p], k) && k in ValueAt(log, ShardId(k)) ==>
              exists i :: p < i < |log| && log[i].op == StoreOp(k, ValueAt(log, ShardId(k))[k])
  {
    if p < |log| && Purges(log[p], k) && k in ValueAt(log, ShardId(k)) {
      ShardsRefineIdeal(log, quota, ShardId(k));
      StoredAfterPurge(log, p, k, ValueAt(log, ShardId(k))[k]);
    }
  }
}
