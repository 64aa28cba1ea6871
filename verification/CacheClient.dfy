/** The retry loops of one filter instance against shared data that other instances write too. */
module CacheClient {
  import opened Wrappers
  import opened Cache
  import opened CacheKey
  import opened SharedStore
  import opened Decision
  import opened Replay

  ghost predicate Foreign(cs: seq<Commit>, me: nat) {
    forall c :: c in cs ==> c.worker != me
  }

  /** The log grew, and none of the new writes is `me`'s. */
  ghost predicate GrewWithout(before: seq<Commit>, log: seq<Commit>, me: nat) {
    before <= log && NoneOf(log, |before|, me)
  }

  /** The log grew by foreign writes and then one write of `me`: the given operation, atomically, on
      the shard as it was at that moment. */
  ghost predicate GrewByOne(before: seq<Commit>, log: seq<Commit>, me: nat, op: Op, id: nat, quota: nat) {
    && |before| < |log|
    && GrewWithout(before, log[..|log| - 1], me)
    && log[|log| - 1].worker == me && log[|log| - 1].op == op && log[|log| - 1].shardId == id
    && Timely(log, |log| - 1)
    && Atomic(log[|log| - 1], ValueAt(log[..|log| - 1], id), quota)
  }

  ghost predicate Touches(cs: seq<Commit>, id: nat) {
    exists c :: c in cs && c.shardId == id
  }

  /** `after` is what the writes `cs` make of `before`: exactly the shards they touch have new versions. */
  ghost predicate Touched(before: Store, after: Store, cs: seq<Commit>) {
    && before.nextVersion <= after.nextVersion
    && forall id ::
         if Touches(cs, id) then id in after.cells && after.cells[id].version >= before.nextVersion
         else GetCas(after, id) == GetCas(before, id)
  }

  ghost predicate NoShardVanished(before: Store, after: Store) {
    forall id :: id in before.cells ==> id in after.cells
  }

  /** Three attempts interleaved with `env(first)`, `env(first + 1)`, .. fail: the shard is there when
      it is first read, and others write it between each read and the write that follows. */
  ghost predicate Beaten(st: Store, env: nat -> seq<Commit>, first: nat, id: nat) {
    (id in st.cells || Touches(env(first), id)) && Outrun(env, first, id, 3)
  }

  ghost predicate Outrun(env: nat -> seq<Commit>, first: nat, id: nat, attempts: nat) {
    && (attempts > 0 ==> Touches(env(first + 1), id))
    && (attempts > 1 ==> Touches(env(first + 3), id))
    && (attempts > 2 ==> Touches(env(first + 5), id))
  }

  /** One attempt to read the shard and write it back, after others have written `before` and
      `between`. */
  ghost predicate AttemptOutcome(ok: bool, st: Store, log: seq<Commit>, st': Store, log': seq<Commit>,
                                 before: seq<Commit>, between: seq<Commit>, me: nat, op: Op, id: nat, quota: nat) {
    && NoShardVanished(st, st') && id in st'.cells
    && (ok <==> !((id in st.cells || Touches(before, id)) && Touches(between, id)))
    && if ok then GrewByOne(log, log', me, op, id, quota)
       else GrewWithout(log, log', me) && OthersBetween(log', |log|, |log'|, id, me) > 0
  }

  /** The last write evicted by one of the clock readings that the attempts made. */
  ghost predicate WroteWith(log: seq<Commit>, clock: nat -> u64) {
    log != [] && exists a :: 1 <= a <= 3 && clock(a) == log[|log| - 1].now
  }

  class SharedData {
    var store: Store
    ghost var log: seq<Commit>

    ghost predicate Valid()
      reads this
    {
      StoreMatchesLog(store, log)
    }

    constructor ()
      ensures Valid() && log == [] && store == EMPTY_STORE
    {
      store := EMPTY_STORE;
      log := [];
    }

    method GetSharedData(id: nat) returns (shard: Shard, cas: Option<nat>)
      ensures shard == GetShard(store, id) && cas == GetCas(store, id)
    {
      shard := GetShard(store, id);
      cas := GetCas(store, id);
    }

    /** `op`, `readAt` and `now` only label the log entry. */
    method SetSharedData(me: nat, id: nat, value: Shard, cas: Option<nat>, ghost op: Op, ghost readAt: nat, ghost now: u64) returns (ok: bool)
      requires Valid()
      modifies this
      ensures Valid() && ok == Accepts(old(store), id, cas)
      ensures !ok ==> store == old(store) && log == old(log)
      ensures ok ==> store == Write(old(store), id, value)
                     && log == old(log) + [Commit(me, op, id, cas.Some?, readAt, now, value)]
    {
      ok := cas.None? || id !in store.cells || store.cells[id].version == cas.value;
      if ok {
        ghost var c := Commit(me, op, id, cas.Some?, readAt, now, value);
        WriteMatchesLog(store, log, c);
        store := Write(store, id, value);
        log := log + [c];
      }
    }

    /** Other instances' writes. */
    method Interference(cs: seq<Commit>, ghost me: nat)
      requires Valid() && Foreign(cs, me)
      modifies this
      ensures Valid() && GrewWithout(old(log), log, me) && Touched(old(store), store, cs)
      ensures forall id, readAt, snapshot, cas ::
                SnapshotHolds(old(store), old(log), id, me, readAt, snapshot, cas) ==>
                  SnapshotHolds(store, log, id, me, readAt, snapshot, cas)
    {
      for i := 0 to |cs|
        invariant Valid() && GrewWithout(old(log), log, me) && Touched(old(store), store, cs[..i])
        invariant forall id, readAt, snapshot, cas ::
                    SnapshotHolds(old(store), old(log), id, me, readAt, snapshot, cas) ==>
                      SnapshotHolds(store, log, id, me, readAt, snapshot, cas)
      {
        var c := cs[i];
        assert c in cs;
        forall id, readAt, snapshot, cas | SnapshotHolds(store, log, id, me, readAt, snapshot, cas)
          ensures SnapshotHolds(Write(store, c.shardId, c.value), log + [c], id, me, readAt, snapshot, cas)
        {
          SnapshotSurvives(store, log, c, id, me, readAt, snapshot, cas);
        }
        WriteMatchesLog(store, log, c);
        TouchedSnoc(old(store), store, cs, i);
        store := Write(store, c.shardId, c.value);
        log := log + [c];
      }
      assert cs[..|cs|] == cs;
    }

    /** Reads the shard after others have written `cs`. */
    method ReadAfter(cs: seq<Commit>, me: nat, id: nat) returns (shard: Shard, cas: Option<nat>)
      requires Valid() && Foreign(cs, me)
      modifies this
      ensures Valid() && GrewWithout(old(log), log, me) && NoShardVanished(old(store), store)
      ensures id in store.cells <==> id in old(store).cells || Touches(cs, id)
      ensures shard == GetShard(store, id) && cas == GetCas(store, id)
    {
      Interference(cs, me);
      assert forall j :: GetCas(store, j).Some? <==> j in store.cells;
      shard, cas := GetSharedData(id);
    }

    /** Writes what `op` makes of the shard that has just been read, after others have written `cs`:
        this fails exactly if the shard was there and they have touched it. */
    method WriteAfter(cs: seq<Commit>, me: nat, id: nat, value: Shard, cas: Option<nat>, ghost op: Op, ghost now: u64, ghost quota: nat)
      returns (ok: bool)
      requires Valid() && Foreign(cs, me)
      requires cas == GetCas(store, id) && RightShard(op, id) && value == Transform(op, GetShard(store, id), now, quota)
      modifies this
      ensures Valid() && NoShardVanished(old(store), store) && id in store.cells
      ensures ok <==> !(id in old(store).cells && Touches(cs, id))
      ensures ok ==> GrewByOne(old(log), log, me, op, id, quota) && GetShard(store, id) == value && log[|log| - 1].now == now
      ensures !ok ==> GrewWithout(old(log), log, me) && OthersBetween(log, |old(log)|, |log|, id, me) > 0
    {
      ghost var snapshot := GetShard(store, id);
      assert SnapshotHolds(store, log, id, me, |log|, snapshot, cas);
      Interference(cs, me);
      assert forall j :: GetCas(store, j).Some? <==> j in store.cells;
      AcceptedSawCurrent(store, log, id, me, |old(log)|, snapshot, cas);
      label Written:
      ok := SetSharedData(me, id, value, cas, op, |old(log)|, now);
      assert ok ==> log[..|log| - 1] == old@Written(log);
    }

    /** One attempt to store: evicts, inserts and enforces the quota between the two host calls. */
    method TryStore(me: nat, id: nat, key: string, entry: CacheEntry, quota: nat, clock: nat -> u64, attempt: nat,
                    before: seq<Commit>, between: seq<Commit>)
      returns (ok: bool)
      requires Valid() && Foreign(before, me) && Foreign(between, me) && id == ShardId(key) && attempt < 3
      modifies this
      ensures Valid() && AttemptOutcome(ok, old(store), old(log), store, log, before, between, me, StoreOp(key, entry), id, quota)
      ensures ok ==> WroteWith(log, clock)
    {
      var now := clock(attempt + 1);
      var contents, cas := ReadAfter(before, me, id);
      label Read:
      var shard := new CacheShard(contents);
      shard.EvictExpired(now);
      shard.Put(key, entry);
      shard.EnforceQuota(quota);
      ok := WriteAfter(between, me, id, shard.entries, cas, StoreOp(key, entry), now, quota);
      ReadThenWrite(old(log), old@Read(log), log, me, StoreOp(key, entry), id, quota);
    }

    /** Three attempts to read, transform and write back.  `clock(0)` dates the entry, `clock(i + 1)`
        is read by attempt `i`; `env` holds what other instances write in between. */
    method StoreCacheEntry(me: nat, cacheKey: Option<string>, decision: AuthorizationDecision,
                           ttl: u64, maxEntries: nat, clock: nat -> u64, env: nat -> seq<Commit>)
      returns (stored: bool)
      requires Valid() && forall i :: Foreign(env(i), me)
      modifies this
      ensures Valid()
      ensures cacheKey.None? ==> !stored && log == old(log) && store == old(store)
      ensures cacheKey.Some? && stored ==>
                GrewByOne(old(log), log, me, StoreOp(cacheKey.value, EntryFor(decision, SaturatingAdd(clock(0), ttl))),
                          ShardId(cacheKey.value), ShardQuota(maxEntries))
                && WroteWith(log, clock)
      ensures cacheKey.Some? && !stored ==> GaveUp(old(log), log, me, ShardId(cacheKey.value))
      ensures cacheKey.Some? ==> (stored <==> !Beaten(old(store), env, 0, ShardId(cacheKey.value)))
    {
      if cacheKey.None? {
        return false;
      }
      stored := StoreEntry(me, cacheKey.value, EntryFor(decision, SaturatingAdd(clock(0), ttl)),
                           ShardQuota(maxEntries), clock, env);
    }

    method StoreEntry(me: nat, key: string, entry: CacheEntry, quota: nat, clock: nat -> u64, env: nat -> seq<Commit>)
      returns (stored: bool)
      requires Valid() && forall i :: Foreign(env(i), me)
      modifies this
      ensures Valid()
      ensures stored ==> GrewByOne(old(log), log, me, StoreOp(key, entry), ShardId(key), quota)
                         && WroteWith(log, clock)
      ensures !stored ==> GaveUp(old(log), log, me, ShardId(key))
      ensures stored <==> !Beaten(old(store), env, 0, ShardId(key))
    {
      var id := ShardId(key);
      for attempt := 0 to 3
        invariant Valid() && Failing(old(store), old(log), store, log, me, env, 0, id, attempt)
      {
        label Start:
        var ok := TryStore(me, id, key, entry, quota, clock, attempt, env(2 * attempt), env(2 * attempt + 1));
        AttemptEnds(old(store), old(log), old@Start(store), old@Start(log), store, log, me, StoreOp(key, entry), id, quota,
                    env, 0, attempt, ok);
        if ok {
          return true;
        }
      }
      return false;
    }

    method TryPurgeKey(me: nat, id: nat, key: string, before: seq<Commit>, between: seq<Commit>) returns (ok: bool)
      requires Valid() && Foreign(before, me) && Foreign(between, me) && id == ShardId(key)
      modifies this
      ensures Valid() && AttemptOutcome(ok, old(store), old(log), store, log, before, between, me, PurgeKeyOp(key), id, 0)
      ensures ok ==> key !in GetShard(store, id)
    {
      var contents, cas := ReadAfter(before, me, id);
      label Read:
      ok := WriteAfter(between, me, id, contents - {key}, cas, PurgeKeyOp(key), 0, 0);
      ReadThenWrite(old(log), old@Read(log), log, me, PurgeKeyOp(key), id, 0);
    }

    method PurgeCacheKey(me: nat, key: string, env: nat -> seq<Commit>) returns (purged: bool)
      requires Valid() && forall i :: Foreign(env(i), me)
      modifies this
      ensures Valid()
      ensures purged ==> GrewByOne(old(log), log, me, PurgeKeyOp(key), ShardId(key), 0)
                         && key !in GetShard(store, ShardId(key))
      ensures !purged ==> GaveUp(old(log), log, me, ShardId(key))
      ensures purged <==> !Beaten(old(store), env, 0, ShardId(key))
    {
      var id := ShardId(key);
      for attempt := 0 to 3
        invariant Valid() && Failing(old(store), old(log), store, log, me, env, 0, id, attempt)
      {
        label Start:
        var ok := TryPurgeKey(me, id, key, env(2 * attempt), env(2 * attempt + 1));
        AttemptEnds(old(store), old(log), old@Start(store), old@Start(log), store, log, me, PurgeKeyOp(key), id, 0,
                    env, 0, attempt, ok);
        if ok {
          return true;
        }
      }
      return false;
    }

    /** Empties one shard after the other.  `purged(id)` tells which shards were emptied. */
    method PurgeAllCacheShards(me: nat, env: nat -> seq<Commit>) returns (purged: seq<bool>)
      requires Valid() && forall i :: Foreign(env(i), me)
      modifies this
      ensures Valid() && old(log) <= log && |purged| == NUM_SHARDS
      ensures OwnPurges(log, |old(log)|, me, purged)
      ensures Survivors(log, |old(log)|, me, env, purged)
      ensures forall id :: 0 <= id < NUM_SHARDS && Beaten(old(store), env, 6 * id, id) ==> !purged[id]
    {
      purged := [];
      for id := 0 to NUM_SHARDS
        invariant Valid() && old(log) <= log && |purged| == id && NoShardVanished(old(store), store)
        invariant OwnPurges(log, |old(log)|, me, purged) && Survivors(log, |old(log)|, me, env, purged)
        invariant forall j :: 0 <= j < id && Beaten(old(store), env, 6 * j, j) ==> !purged[j]
      {
        label Shard:
        var done := PurgeShard(me, id, env, 6 * id);
        MoreOwnPurges(old(log), old@Shard(log), log, me, purged, done);
        MoreSurvivors(old(log), old@Shard(log), log, me, env, purged, done);
        purged := purged + [done];
      }
    }

    method TryPurgeShard(me: nat, id: nat, before: seq<Commit>, between: seq<Commit>) returns (ok: bool)
      requires Valid() && Foreign(before, me) && Foreign(between, me) && id < NUM_SHARDS
      modifies this
      ensures Valid() && AttemptOutcome(ok, old(store), old(log), store, log, before, between, me, PurgeAllOp, id, 0)
    {
      var _, cas := ReadAfter(before, me, id);
      label Read:
      ok := WriteAfter(between, me, id, map[], cas, PurgeAllOp, 0, 0);
      ReadThenWrite(old(log), old@Read(log), log, me, PurgeAllOp, id, 0);
    }

    /** The inner loop of the purge of everything. */
    method PurgeShard(me: nat, id: nat, env: nat -> seq<Commit>, first: nat) returns (purged: bool)
      requires Valid() && id < NUM_SHARDS && forall i :: Foreign(env(i), me)
      modifies this
      ensures Valid() && NoShardVanished(old(store), store)
      ensures purged ==> GrewByOne(old(log), log, me, PurgeAllOp, id, 0)
      ensures !purged ==> GaveUp(old(log), log, me, id)
      ensures purged <==> !Beaten(old(store), env, first, id)
    {
      for attempt := 0 to 3
        invariant Valid() && NoShardVanished(old(store), store)
        invariant Failing(old(store), old(log), store, log, me, env, first, id, attempt)
      {
        label Start:
        var ok := TryPurgeShard(me, id, env(first + 2 * attempt), env(first + 2 * attempt + 1));
        AttemptEnds(old(store), old(log), old@Start(store), old@Start(log), store, log, me, PurgeAllOp, id, 0,
                    env, first, attempt, ok);
        if ok {
          return true;
        }
      }
      return false;
    }
  }

  // --- the accounting of attempts --------------------------------------------------------------------

  ghost predicate IsPurge(c: Commit, me: nat, id: nat) {
    c.worker == me && c.op == PurgeAllOp && c.shardId == id && c.value == map[]
  }

  /** From position `from` on, `me` wrote exactly the shards that `purged` says, once each and in
      ascending order, and emptied them. */
  ghost predicate OwnPurges(log: seq<Commit>, from: nat, me: nat, purged: seq<bool>) {
    && (forall i :: from <= i < |log| && log[i].worker == me ==>
          log[i].shardId < |purged| && purged[log[i].shardId] && IsPurge(log[i], me, log[i].shardId))
    && (forall i, j :: from <= i < j < |log| && log[i].worker == me && log[j].worker == me ==>
          log[i].shardId < log[j].shardId)
    && (forall id :: 0 <= id < |purged| && purged[id] ==> exists i :: from <= i < |log| && IsPurge(log[i], me, id))
  }

  /** The shards that were not purged were written by others at least three times, and between each of
      the three reads and writes. */
  ghost predicate Survivors(log: seq<Commit>, from: nat, me: nat, env: nat -> seq<Commit>, purged: seq<bool>) {
    forall id :: 0 <= id < |purged| && !purged[id] ==>
      OthersBetween(log, from, |log|, id, me) >= 3 && Outrun(env, 6 * id, id, 3)
  }

  lemma MoreSurvivors(start: seq<Commit>, before: seq<Commit>, log: seq<Commit>, me: nat, env: nat -> seq<Commit>, purged: seq<bool>, done: bool)
    requires start <= before <= log && Survivors(before, |start|, me, env, purged)
    requires !done ==> GaveUp(before, log, me, |purged|) && Outrun(env, 6 * |purged|, |purged|, 3)
    ensures Survivors(log, |start|, me, env, purged + [done])
  {
    forall id | 0 <= id <= |purged| && !(purged + [done])[id] ensures OthersBetween(log, |start|, |log|, id, me) >= 3 {
      OthersPrefix(before, log, |start|, |before|, id, me);
      OthersSplit(log, |start|, |before|, |log|, id, me);
    }
  }

  lemma ForeignPurges(start: seq<Commit>, before: seq<Commit>, log: seq<Commit>, me: nat, purged: seq<bool>)
    requires start <= before && OwnPurges(before, |start|, me, purged) && GrewWithout(before, log, me)
    ensures start <= log && OwnPurges(log, |start|, me, purged)
  {
    forall id | 0 <= id < |purged| && purged[id] ensures exists i :: |start| <= i < |log| && IsPurge(log[i], me, id) {
      var i :| |start| <= i < |before| && IsPurge(before[i], me, id);
      assert IsPurge(log[i], me, id);
    }
  }

  lemma OnePurge(log: seq<Commit>, c: Commit, from: nat, me: nat, purged: seq<bool>)
    requires from <= |log| && OwnPurges(log, from, me, purged) && IsPurge(c, me, |purged|)
    ensures OwnPurges(log + [c], from, me, purged + [true])
  {
    var grown := log + [c];
    forall id | 0 <= id <= |purged| && (purged + [true])[id] ensures exists i :: from <= i < |grown| && IsPurge(grown[i], me, id) {
      if id < |purged| {
        var i :| from <= i < |log| && IsPurge(log[i], me, id);
        assert IsPurge(grown[i], me, id);
      } else {
        assert IsPurge(grown[|log|], me, id);
      }
    }
  }

  lemma MoreOwnPurges(start: seq<Commit>, before: seq<Commit>, log: seq<Commit>, me: nat, purged: seq<bool>, done: bool)
    requires start <= before && OwnPurges(before, |start|, me, purged)
    requires if done then GrewByOne(before, log, me, PurgeAllOp, |purged|, 0) else GrewWithout(before, log, me)
    ensures start <= log && OwnPurges(log, |start|, me, purged + [done])
  {
    if done {
      var init, c := log[..|log| - 1], log[|log| - 1];
      ForeignPurges(start, before, init, me, purged);
      OnePurge(init, c, |start|, me, purged);
      assert log == init + [c];
    } else {
      ForeignPurges(start, before, log, me, purged);
    }
  }

  /** `n` attempts have failed, each because another instance wrote the shard meanwhile. */
  ghost predicate Tried(before: seq<Commit>, log: seq<Commit>, me: nat, id: nat, n: nat) {
    GrewWithout(before, log, me) && OthersBetween(log, |before|, |log|, id, me) >= n
  }

  /** All three attempts failed: nothing was written, and others wrote the shard at least three times. */
  ghost predicate GaveUp(before: seq<Commit>, log: seq<Commit>, me: nat, id: nat) {
    Tried(before, log, me, id, 3)
  }

  lemma TouchedSnoc(before: Store, st: Store, cs: seq<Commit>, i: nat)
    requires i < |cs| && Touched(before, st, cs[..i])
    ensures Touched(before, Write(st, cs[i].shardId, cs[i].value), cs[..i + 1])
  {
    forall id ensures Touches(cs[..i + 1], id) <==> Touches(cs[..i], id) || cs[i].shardId == id {
      assert cs[..i + 1] == cs[..i] + [cs[i]];
    }
  }

  lemma ReadThenWrite(start: seq<Commit>, read: seq<Commit>, log: seq<Commit>, me: nat, op: Op, id: nat, quota: nat)
    requires GrewWithout(start, read, me)
    ensures GrewByOne(read, log, me, op, id, quota) ==> GrewByOne(start, log, me, op, id, quota)
    ensures GrewWithout(read, log, me) ==>
              GrewWithout(start, log, me)
              && OthersBetween(log, |start|, |log|, id, me) >= OthersBetween(log, |read|, |log|, id, me)
  {
    if GrewWithout(read, log, me) { OthersFromEarlier(start, read, log, me, id); }
  }

  /** `n` attempts have failed, and for no other reason. */
  ghost predicate Failing(start: Store, startLog: seq<Commit>, st: Store, log: seq<Commit>, me: nat, env: nat -> seq<Commit>,
                          first: nat, id: nat, n: nat) {
    && Tried(startLog, log, me, id, n) && Outrun(env, first, id, n)
    && if n == 0 then id in st.cells <==> id in start.cells
       else id in st.cells && (id in start.cells || Touches(env(first), id))
  }

  /** An attempt either commits, and then the three attempts are not all beaten, or is one more to fail. */
  lemma AttemptEnds(start: Store, startLog: seq<Commit>, st: Store, log: seq<Commit>, st': Store, log': seq<Commit>,
                    me: nat, op: Op, id: nat, quota: nat, env: nat -> seq<Commit>, first: nat, n: nat, ok: bool)
    requires Failing(start, startLog, st, log, me, env, first, id, n) && n < 3
    requires AttemptOutcome(ok, st, log, st', log', env(first + 2 * n), env(first + 2 * n + 1), me, op, id, quota)
    ensures if ok then GrewByOne(startLog, log', me, op, id, quota) && !Beaten(start, env, first, id)
            else Failing(start, startLog, st', log', me, env, first, id, n + 1)
  {
    if !ok {
      OthersPrefix(log, log', |startLog|, |log|, id, me);
      OthersSplit(log', |startLog|, |log|, |log'|, id, me);
    }
  }

  lemma OthersFromEarlier(before: seq<Commit>, start: seq<Commit>, log: seq<Commit>, me: nat, id: nat)
    requires before <= start <= log
    ensures OthersBetween(log, |before|, |log|, id, me) >= OthersBetween(log, |start|, |log|, id, me)
  {
    OthersSplit(log, |before|, |start|, |log|, id, me);
  }
}
