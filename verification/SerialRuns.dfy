/** Schedules in which one operation runs at a time: the quota is the only thing that loses entries. */
module SerialRuns {
  import opened Wrappers
  import opened Ordering
  import opened Cache
  import opened CacheKey
  import opened SharedStore
  import opened LogTheory
  import opened Protocol
  import opened ProtocolTheorems

  ghost predicate OneBusy(s: System) {
    forall v, w :: v != w ==> At(s, v).Idle? || At(s, w).Idle?
  }

  ghost predicate Serial(cfg: Cfg, steps: seq<Step>) {
    forall n :: 0 <= n <= |steps| ==> OneBusy(Run(cfg, steps[..n]))
  }

  // --- the invariant of serial runs -------------------------------------------------------------------

  /** No stored entry expires later than `bound`. */
  ghost predicate StoredBy(log: seq<Commit>, bound: u64) {
    forall i :: 0 <= i < |log| && log[i].op.StoreOp? ==> log[i].op.entry.expiresAtMs <= bound
  }

  /** No write used a later clock reading than `t`. */
  ghost predicate WrittenBy(log: seq<Commit>, t: u64) {
    forall i :: 0 <= i < |log| ==> log[i].now <= t
  }

  /** No write that a lookup could see used a later clock reading than the lookup. */
  ghost predicate SawOnlyEarlier(log: seq<Commit>, r: LookupRecord) {
    forall i :: 0 <= i < r.readAt && i < |log| ==> log[i].now <= r.now
  }

  ghost predicate Undisturbed(cfg: Cfg, s: System, w: nat) {
    var p := At(s, w);
    p.Idle? ||
    (p.Looking? && (s.monotone ==> WrittenBy(s.log, p.now))) ||
    (!p.Looking? && p.startAt == |s.log| && (!p.Ready? ==> p.readAt == |s.log|)
     && (s.monotone && p.op.StoreOp? ==>
           StoredBy(s.log, p.op.entry.expiresAtMs)
           && p.op.entry.expiresAtMs <= SaturatingAdd(s.clock, cfg.ttl)))
  }

  /** A write that names no version is the first to its shard. */
  ghost predicate FirstIfUnversioned(log: seq<Commit>, i: nat)
    requires i < |log|
  {
    !log[i].versioned ==> forall j :: 0 <= j < i ==> log[j].shardId != log[i].shardId
  }

  /** No entry stored earlier expires later. */
  ghost predicate Ascending(log: seq<Commit>, i: nat)
    requires i < |log|
  {
    log[i].op.StoreOp? ==> StoredBy(log[..i], log[i].op.entry.expiresAtMs)
  }

  ghost predicate SerialInv(cfg: Cfg, s: System) {
    && (forall w :: Undisturbed(cfg, s, w))
    && (s.monotone ==> forall i :: 0 <= i < |s.lookups| ==> SawOnlyEarlier(s.log, s.lookups[i]))
    && (forall i :: 0 <= i < |s.log| ==> FirstIfUnversioned(s.log, i))
    && (s.monotone ==> StoredBy(s.log, SaturatingAdd(s.clock, cfg.ttl)))
    && (s.monotone ==> forall i :: 0 <= i < |s.log| ==> Ascending(s.log, i))
  }

  lemma ClockBoundsLog(cfg: Cfg, s: System)
    requires Inv(cfg, s) && s.monotone
    ensures WrittenBy(s.log, s.clock)
  {
    forall i | 0 <= i < |s.log| ensures s.log[i].now <= s.clock { assert CommitOk(cfg, s, i); }
  }

  lemma QuietStepKeeps(cfg: Cfg, s: System, step: Step)
    requires Inv(cfg, s) && SerialInv(cfg, s)
    requires var t := Next(cfg, s, step); t.store == s.store && t.log == s.log
    ensures SerialInv(cfg, Next(cfg, s, step))
  {
    var t := Next(cfg, s, step);
    if s.monotone { ClockBoundsLog(cfg, s); }
    forall w ensures Undisturbed(cfg, t, w) { assert Undisturbed(cfg, s, w); }
    if t.monotone {
      forall i | 0 <= i < |t.lookups| ensures SawOnlyEarlier(t.log, t.lookups[i]) {
        if i < |s.lookups| { assert SawOnlyEarlier(s.log, s.lookups[i]); } else { assert Undisturbed(cfg, s, step.worker); }
      }
    }
  }

  lemma CommitKeepsSerial(cfg: Cfg, s: System, w: nat)
    requires Inv(cfg, s) && SerialInv(cfg, s) && OneBusy(s)
    requires At(s, w).Armed? && Accepts(s.store, At(s, w).shardId, At(s, w).cas)
    ensures SerialInv(cfg, SetStep(s, w))
  {
    var t := SetStep(s, w);
    var p := At(s, w);
    assert WorkerOk(cfg, s, w) && Undisturbed(cfg, s, w);
    forall v ensures Undisturbed(cfg, t, v) {
      if v != w { assert At(t, v) == At(s, v) == Idle; }
    }
    if s.monotone {
      forall i | 0 <= i < |t.lookups| ensures SawOnlyEarlier(t.log, t.lookups[i]) {
        assert SawOnlyEarlier(s.log, s.lookups[i]) && LookupOk(cfg, s, s.lookups[i]);
      }
    }
    forall i | 0 <= i < |t.log| ensures FirstIfUnversioned(t.log, i) && (s.monotone ==> Ascending(t.log, i)) {
      assert t.log[..i] == s.log[..i];
      if i < |s.log| {
        assert FirstIfUnversioned(s.log, i);
        assert s.monotone ==> Ascending(s.log, i);
      } else {
        assert s.log[..i] == s.log;
      }
    }
  }

  lemma NextKeepsSerial(cfg: Cfg, s: System, step: Step)
    requires Inv(cfg, s) && SerialInv(cfg, s) && OneBusy(s)
    ensures SerialInv(cfg, Next(cfg, s, step))
  {
    if step.Set? && At(s, step.worker).Armed? && Accepts(s.store, At(s, step.worker).shardId, At(s, step.worker).cas) {
      CommitKeepsSerial(cfg, s, step.worker);
    } else {
      QuietStepKeeps(cfg, s, step);
    }
  }

  lemma {:induction false} SerialRunKeeps(cfg: Cfg, steps: seq<Step>)
    requires Serial(cfg, steps)
    ensures SerialInv(cfg, Run(cfg, steps))
  {
    if steps != [] {
      var init := steps[..|steps| - 1];
      forall n | 0 <= n <= |init| ensures OneBusy(Run(cfg, init[..n])) { assert init[..n] == steps[..n]; }
      SerialRunKeeps(cfg, init);
      RunKeeps(cfg, init);
      assert OneBusy(Run(cfg, steps[..|init|]));
      NextKeepsSerial(cfg, Run(cfg, init), steps[|init|]);
    }
  }

  // --- theorems ------------------------------------------------------------------------------------

  /** Write `i` stored something while at least `quota` entries outranked `k`, which has been left alone
      since. */
  ghost predicate SqueezedOut(log: seq<Commit>, i: int, k: string, quota: nat) {
    && 0 <= i < |log| && log[i].shardId == ShardId(k) && UntouchedAfter(log, i, k)
    && LostToQuota(log[i], ValueAt(log[..i], ShardId(k)), k, quota)
  }

  lemma {:induction false} OnlyTheQuotaLoses(log: seq<Commit>, quota: nat, k: string, i: nat)
    requires i < |log| && FirstIfUnversioned(log, i)
    ensures LostLive(log, i, k, quota) <==> SqueezedOut(log, i, k, quota)
  {
    if LostLive(log, i, k, quota) { NeverWritten(log[..i], ShardId(k)); }
  }

  /** When operations run one at a time and the clock does not run backwards, a lookup of an entry that
      the ideal map holds alive is a miss exactly when a store has since been left no room for it:
      `enforce_quota` is the only thing that loses entries. */
  lemma {:induction false} SerialMissIff(cfg: Cfg, steps: seq<Step>, i: nat)
    requires Serial(cfg, steps) && Run(cfg, steps).monotone
    requires i < |Run(cfg, steps).lookups|
    requires var s := Run(cfg, steps);
             var r := s.lookups[i];
             Lookup(Ideal(LogWhenRead(s, r)), r.key, r.now).Some?
    ensures var s := Run(cfg, steps);
            var r := s.lookups[i];
            r.result.None? <==> exists j :: SqueezedOut(LogWhenRead(s, r), j, r.key, ShardQuota(cfg.maxEntries))
  {
    var s := Run(cfg, steps);
    RunKeeps(cfg, steps);
    LogIsAtomic(cfg, s);
    SerialRunKeeps(cfg, steps);
    assert LookupOk(cfg, s, s.lookups[i]) && SawOnlyEarlier(s.log, s.lookups[i]);
    SerialLookup(s.log, ShardQuota(cfg.maxEntries), s.lookups[i]);
  }

  lemma {:induction false} SerialLookup(full: seq<Commit>, quota: nat, r: LookupRecord)
    requires AtomicLog(full, quota) && r.readAt <= |full| && SawOnlyEarlier(full, r)
    requires forall j :: 0 <= j < |full| ==> FirstIfUnversioned(full, j)
    requires r.result == Lookup(ValueAt(full[..r.readAt], ShardId(r.key)), r.key, r.now)
    requires Lookup(Ideal(full[..r.readAt]), r.key, r.now).Some?
    ensures r.result.None? <==> exists j :: SqueezedOut(full[..r.readAt], j, r.key, quota)
  {
    var log := full[..r.readAt];
    AtomicPrefix(full, r.readAt, quota);
    ShardsRefineIdeal(log, quota, ShardId(r.key));
    LiveMissingIff(log, quota, r.key, r.now);
    forall j: nat | j < |log| ensures LostLive(log, j, r.key, quota) <==> SqueezedOut(log, j, r.key, quota) {
      assert FirstIfUnversioned(full, j);
      OnlyTheQuotaLoses(log, quota, r.key, j);
    }
  }

  lemma {:induction false} NeverWritten(log: seq<Commit>, id: nat)
    ensures ValueAt(log, id) != map[] ==> exists j :: 0 <= j < |log| && log[j].shardId == id
  {
    if log != [] && log[|log| - 1].shardId != id {
      NeverWritten(log[..|log| - 1], id);
    }
  }

  /** In such a run a store that commits without keeping its own entry was outranked by at least a
      quota of entries with the same expiry and larger keys. */
  lemma {:induction false} SerialStoreLostToTies(cfg: Cfg, steps: seq<Step>, i: nat)
    requires Serial(cfg, steps) && Run(cfg, steps).monotone
    requires i < |Run(cfg, steps).log| && Run(cfg, steps).log[i].op.StoreOp?
    requires Run(cfg, steps).log[i].op.key !in Run(cfg, steps).log[i].value
    ensures var c := Run(cfg, steps).log[i];
            var before := ValueAt(Run(cfg, steps).log[..i], c.shardId);
            |set j | j in before && before[j].expiresAtMs == c.op.entry.expiresAtMs && StrLess(c.op.key, j)|
            >= ShardQuota(cfg.maxEntries)
  {
    var s := Run(cfg, steps);
    var quota := ShardQuota(cfg.maxEntries);
    var c := s.log[i];
    var before := ValueAt(s.log[..i], c.shardId);
    SerialRunKeeps(cfg, steps);
    WritesAreAtomic(cfg, steps);
    assert Ascending(s.log, i) && Atomic(c, before, quota);
    if !c.versioned {
      StoreIntoEmpty(c.now, c.op.key, c.op.entry, quota);
    }
    AtomicPrefix(s.log, i, quota);
    EntriesBounded(s.log[..i], quota, c.shardId, c.op.entry.expiresAtMs);
    FreshLostOnlyToTies(before, c.now, c.op.key, c.op.entry, quota);
  }

  lemma {:induction false} EntriesBounded(log: seq<Commit>, quota: nat, id: nat, bound: u64)
    requires AtomicLog(log, quota) && StoredBy(log, bound)
    ensures forall k :: k in ValueAt(log, id) ==> ValueAt(log, id)[k].expiresAtMs <= bound
  {
    ShardsRefineIdeal(log, quota, id);
    forall k | k in ValueAt(log, id) ensures ValueAt(log, id)[k].expiresAtMs <= bound {
      var e := ValueAt(log, id)[k];
      IdealIff(log, k, e);
      var j :| LastStored(log, j, k, e);
    }
  }
}
