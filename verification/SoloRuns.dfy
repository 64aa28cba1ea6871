/** What an operation does when no other worker comes between its steps: it gets done. */
module SoloRuns {
  import opened Wrappers
  import opened Cache
  import opened CacheKey
  import opened SharedStore
  import opened Decision
  import opened HeaderMap
  import opened Replay
  import opened Protocol

  ghost function RunOn(cfg: Cfg, s: System, steps: seq<Step>): System {
    if steps == [] then s else Next(cfg, RunOn(cfg, s, steps[..|steps| - 1]), steps[|steps| - 1])
  }

  lemma {:induction false} RunContinues(cfg: Cfg, pre: seq<Step>, steps: seq<Step>)
    ensures Run(cfg, pre + steps) == RunOn(cfg, Run(cfg, pre), steps)
  {
    if steps == [] {
      assert pre + steps == pre;
    } else {
      assert (pre + steps)[..|pre + steps| - 1] == pre + steps[..|steps| - 1];
      RunContinues(cfg, pre, steps[..|steps| - 1]);
    }
  }

  lemma RunOnSnoc(cfg: Cfg, s: System, steps: seq<Step>, step: Step)
    ensures RunOn(cfg, s, steps + [step]) == Next(cfg, RunOn(cfg, s, steps), step)
  {
    assert (steps + [step])[..|steps|] == steps;
  }

  lemma {:induction false} RunOnConcat(cfg: Cfg, s: System, a: seq<Step>, b: seq<Step>)
    ensures RunOn(cfg, s, a + b) == RunOn(cfg, RunOn(cfg, s, a), b)
  {
    if b == [] {
      assert a + b == a;
    } else {
      assert (a + b)[..|a + b| - 1] == a + b[..|b| - 1];
      RunOnConcat(cfg, s, a, b[..|b| - 1]);
    }
  }

  /** One attempt of an update. */
  function Attempt(w: nat): seq<Step> {
    [Get(w), Compute(w), Set(w)]
  }

  /** Worker `w` has done something; the others, the clock and what has been looked up are as before. */
  ghost predicate OnlyWorker(s: System, t: System, w: nat) {
    && t.clock == s.clock && t.monotone == s.monotone && t.lookups == s.lookups && t.giveUps == s.giveUps
    && forall v :: v != w ==> At(t, v) == At(s, v)
  }

  lemma {:induction false} AttemptAlone(cfg: Cfg, s: System, w: nat)
    requires At(s, w).Ready?
    ensures var p, t := At(s, w), RunOn(cfg, s, Attempt(w));
            var value := Transform(p.op, GetShard(s.store, p.shardId), s.clock, ShardQuota(cfg.maxEntries));
            && OnlyWorker(s, t, w) && t.answers == s.answers && At(t, w) == AfterShard(p.op, p.shardId, |s.log| + 1)
            && t.log == s.log + [Commit(w, p.op, p.shardId, p.shardId in s.store.cells, |s.log|, s.clock, value)]
            && t.store == Write(s.store, p.shardId, value)
  {
    var p := At(s, w);
    var a := Next(cfg, s, Get(w));
    assert At(a, w) == Fetched(p.op, p.shardId, p.attempt, p.startAt, |s.log|, GetShard(s.store, p.shardId), GetCas(s.store, p.shardId));
    var b := Next(cfg, a, Compute(w));
    assert At(b, w).Armed? && b.store == s.store && b.log == s.log;
    RunOnSnoc(cfg, s, [], Get(w));
    RunOnSnoc(cfg, s, [Get(w)], Compute(w));
    RunOnSnoc(cfg, s, [Get(w), Compute(w)], Set(w));
    assert [] + [Get(w)] == [Get(w)] && [Get(w)] + [Compute(w)] == [Get(w), Compute(w)];
    assert [Get(w), Compute(w)] + [Set(w)] == Attempt(w);
  }

  /** Starts an operation and makes its first attempt. */
  lemma {:induction false} StartAlone(cfg: Cfg, s: System, step: Step, w: nat)
    requires At(Next(cfg, s, step), w).Ready?
    ensures RunOn(cfg, s, [step] + Attempt(w)) == RunOn(cfg, Next(cfg, s, step), Attempt(w))
  {
    RunOnConcat(cfg, s, [step], Attempt(w));
    RunOnSnoc(cfg, s, [], step);
    assert [] + [step] == [step];
  }

  function StoreSteps(w: nat, key: string, response: CheckResponse): seq<Step> {
    [BeginStore(w, key, Decoded(response))] + Attempt(w)
  }

  lemma {:induction false} StoreAlone(cfg: Cfg, s: System, w: nat, key: string, response: CheckResponse)
    requires At(s, w).Idle?
    ensures var t, id := RunOn(cfg, s, StoreSteps(w, key, response)), ShardId(key);
            var e := EntryFor(FromCheckResponse(response), SaturatingAdd(s.clock, cfg.ttl));
            var value := StoreTransform(GetShard(s.store, id), s.clock, key, e, ShardQuota(cfg.maxEntries));
            && OnlyWorker(s, t, w) && At(t, w).Idle?
            && t.answers == s.answers + [Answer(w, key, Decoded(response), s.clock, |s.log|)]
            && t.log == s.log + [Commit(w, StoreOp(key, e), id, id in s.store.cells, |s.log|, s.clock, value)]
            && t.store == Write(s.store, id, value)
  {
    StartAlone(cfg, s, BeginStore(w, key, Decoded(response)), w);
    AttemptAlone(cfg, Next(cfg, s, BeginStore(w, key, Decoded(response))), w);
  }

  // --- for all reachable states ------------------------------------------------------------------------

  ghost predicate OtherShardsSame(st: Store, st': Store, id: nat) {
    forall j :: j != id ==> GetShard(st', j) == GetShard(st, j)
  }

  /** An answer stored without interference is committed: its entry expires one TTL after the answer, or
      at the end of time, replays as the answer acts live, and is then found exactly if fewer than a
      quota of unexpired entries outrank it. */
  lemma {:induction false} UndisturbedStore(cfg: Cfg, steps: seq<Step>, w: nat, key: string, response: CheckResponse)
    requires At(Run(cfg, steps), w).Idle?
    ensures var s, t := Run(cfg, steps), Run(cfg, steps + StoreSteps(w, key, response));
            var before, after := GetShard(s.store, ShardId(key)), GetShard(t.store, ShardId(key));
            && At(t, w).Idle? && |t.log| == |s.log| + 1 && OtherShardsSame(s.store, t.store, ShardId(key))
            && var c := t.log[|s.log|];
            && c.worker == w && c.op.StoreOp? && c.op.key == key && c.now == s.clock
            && (if s.clock + cfg.ttl <= 0xFFFF_FFFF_FFFF_FFFF then c.op.entry.expiresAtMs == s.clock + cfg.ttl
                else c.op.entry.expiresAtMs == 0xFFFF_FFFF_FFFF_FFFF)
            && (forall h :: ReplayEffect(c.op.entry, h) == LiveEffect(FromCheckResponse(response), h))
            && (key in after <==> |Rivals(before, s.clock, key, c.op.entry)| < ShardQuota(cfg.maxEntries))
            && (key in after ==> after[key] == c.op.entry)
  {
    var s := Run(cfg, steps);
    var e := EntryFor(FromCheckResponse(response), SaturatingAdd(s.clock, cfg.ttl));
    StoreAlone(cfg, s, w, key, response);
    RunContinues(cfg, steps, StoreSteps(w, key, response));
    FreshSurvivesIff(GetShard(s.store, ShardId(key)), s.clock, key, e, ShardQuota(cfg.maxEntries));
    forall h ensures ReplayEffect(e, h) == LiveEffect(FromCheckResponse(response), h) {
      AnswersReplayAsLive(response, SaturatingAdd(s.clock, cfg.ttl), h);
    }
  }

  /** A purge of a key without interference takes away that key and nothing else. */
  lemma {:induction false} UndisturbedPurgeKey(cfg: Cfg, steps: seq<Step>, w: nat, key: string)
    requires At(Run(cfg, steps), w).Idle?
    ensures var s, t := Run(cfg, steps), Run(cfg, steps + ([BeginPurgeKey(w, key)] + Attempt(w)));
            var before, after := GetShard(s.store, ShardId(key)), GetShard(t.store, ShardId(key));
            && At(t, w).Idle? && |t.log| == |s.log| + 1 && OtherShardsSame(s.store, t.store, ShardId(key))
            && key !in after && (forall k :: k in before && k != key ==> k in after && after[k] == before[k])
            && (forall k :: k in after ==> k in before)
  {
    var s := Run(cfg, steps);
    StartAlone(cfg, s, BeginPurgeKey(w, key), w);
    AttemptAlone(cfg, Next(cfg, s, BeginPurgeKey(w, key)), w);
    RunContinues(cfg, steps, [BeginPurgeKey(w, key)] + Attempt(w));
  }

  /** A lookup finds an entry exactly if the shard holds one under the key that has not expired. */
  lemma {:induction false} UndisturbedLookup(cfg: Cfg, steps: seq<Step>, w: nat, key: string)
    requires At(Run(cfg, steps), w).Idle?
    ensures var s, t := Run(cfg, steps), Run(cfg, steps + [BeginLookup(w, key), Get(w)]);
            var shard := GetShard(s.store, ShardId(key));
            && At(t, w).Idle? && t.store == s.store && |t.lookups| == |s.lookups| + 1
            && var r := t.lookups[|s.lookups|];
            && r.worker == w && r.key == key && r.now == s.clock && r.readAt == |s.log|
            && (r.result.Some? <==> key in shard && shard[key].expiresAtMs > s.clock)
            && (r.result.Some? ==> r.result.value == shard[key])
  {
    var s := Run(cfg, steps);
    RunContinues(cfg, steps, [BeginLookup(w, key), Get(w)]);
    RunOnSnoc(cfg, s, [BeginLookup(w, key)], Get(w));
    RunOnSnoc(cfg, s, [], BeginLookup(w, key));
    assert [] + [BeginLookup(w, key)] == [BeginLookup(w, key)];
    assert [BeginLookup(w, key)] + [Get(w)] == [BeginLookup(w, key), Get(w)];
  }

  function Sweep(w: nat, shards: nat): seq<Step> {
    if shards == 0 then [] else Attempt(w) + Sweep(w, shards - 1)
  }

  /** Worker `w` has `shards` shards left to empty; those before them are empty. */
  ghost predicate Sweeping(s: System, w: nat, shards: nat) {
    && shards <= 16 && (forall id: nat :: id < 16 - shards ==> GetShard(s.store, id) == map[])
    && if shards == 0 then At(s, w).Idle?
       else At(s, w).Ready? && At(s, w).op == PurgeAllOp && At(s, w).shardId == 16 - shards
  }

  lemma {:induction false} SweepAlone(cfg: Cfg, s: System, w: nat, shards: nat)
    requires Sweeping(s, w, shards)
    ensures Sweeping(RunOn(cfg, s, Sweep(w, shards)), w, 0)
    ensures |RunOn(cfg, s, Sweep(w, shards)).log| == |s.log| + shards
    decreases shards
  {
    if shards > 0 {
      AttemptAlone(cfg, s, w);
      var t := RunOn(cfg, s, Attempt(w));
      forall id: nat | id < 17 - shards ensures GetShard(t.store, id) == map[] {
        assert id != 16 - shards ==> GetShard(t.store, id) == GetShard(s.store, id);
      }
      RunOnConcat(cfg, s, Attempt(w), Sweep(w, shards - 1));
      SweepAlone(cfg, RunOn(cfg, s, Attempt(w)), w, shards - 1);
    }
  }

  /** A purge of everything without interference leaves nothing in the cache. */
  lemma {:induction false} UndisturbedPurgeAll(cfg: Cfg, steps: seq<Step>, w: nat)
    requires At(Run(cfg, steps), w).Idle?
    ensures var s, t := Run(cfg, steps), Run(cfg, steps + ([BeginPurgeAll(w)] + Sweep(w, 16)));
            At(t, w).Idle? && |t.log| == |s.log| + 16 && forall key :: key !in GetShard(t.store, ShardId(key))
  {
    var s := Run(cfg, steps);
    RunContinues(cfg, steps, [BeginPurgeAll(w)] + Sweep(w, 16));
    RunOnConcat(cfg, s, [BeginPurgeAll(w)], Sweep(w, 16));
    RunOnSnoc(cfg, s, [], BeginPurgeAll(w));
    assert [] + [BeginPurgeAll(w)] == [BeginPurgeAll(w)];
    SweepAlone(cfg, Next(cfg, s, BeginPurgeAll(w)), w, 16);
  }
}
