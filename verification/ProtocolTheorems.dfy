/** What holds of every schedule. */
module ProtocolTheorems {
  import opened Wrappers
  import opened Cache
  import opened CacheKey
  import opened SharedStore
  import opened LogTheory
  import opened Decision
  import opened HeaderMap
  import opened Replay
  import opened Protocol

  // --- atomicity -----------------------------------------------------------------------------------

  /** Every committed write equals its transform applied to what the shard held at that moment; a
      write that named no version equals the transform of the empty shard.  Nobody wrote the shard
      between the read and the write in the first case, or before the read in the second.  The shards
      are what the writes, taken one after the other, leave behind. */
  lemma {:induction false} WritesAreAtomic(cfg: Cfg, steps: seq<Step>)
    ensures var s := Run(cfg, steps);
            && AtomicLog(s.log, ShardQuota(cfg.maxEntries))
            && (forall i :: 0 <= i < |s.log| ==> Timely(s.log, i))
            && forall id :: GetShard(s.store, id) == ValueAt(s.log, id)
  {
    RunKeeps(cfg, steps);
    LogIsAtomic(cfg, Run(cfg, steps));
    forall i | 0 <= i < |Run(cfg, steps).log| ensures Timely(Run(cfg, steps).log, i) {
      assert CommitOk(cfg, Run(cfg, steps), i);
    }
  }

  // --- refinement ----------------------------------------------------------------------------------

  ghost predicate RefinesIdealMap(st: Store, ideal: Shard) {
    forall id, k :: k in GetShard(st, id) ==>
      ShardId(k) == id && k in ideal && ideal[k] == GetShard(st, id)[k]
  }

  lemma {:induction false} StoreRefinesIdeal(st: Store, log: seq<Commit>, quota: nat)
    requires StoreMatchesLog(st, log) && AtomicLog(log, quota)
    ensures RefinesIdealMap(st, Ideal(log))
  {
    forall id: nat, k | k in GetShard(st, id)
      ensures ShardId(k) == id && k in Ideal(log) && Ideal(log)[k] == GetShard(st, id)[k]
    {
      ShardsRefineIdeal(log, quota, id);
    }
  }

  /** In every reachable state every entry of every shard is the ideal map's entry for its key and
      lies in the shard its key belongs to; so a lookup finds what the ideal map has, or nothing. */
  lemma {:induction false} CacheRefinesIdealMap(cfg: Cfg, steps: seq<Step>)
    ensures var s := Run(cfg, steps);
            && RefinesIdealMap(s.store, Ideal(s.log))
            && forall key, now :: Lookup(GetShard(s.store, ShardId(key)), key, now)
                                  in {None, Lookup(Ideal(s.log), key, now)}
  {
    var s := Run(cfg, steps);
    RunKeeps(cfg, steps);
    LogIsAtomic(cfg, s);
    StoreRefinesIdeal(s.store, s.log, ShardQuota(cfg.maxEntries));
    forall key, now: u64 ensures Lookup(GetShard(s.store, ShardId(key)), key, now) in {None, Lookup(Ideal(s.log), key, now)} {
      if key in GetShard(s.store, ShardId(key)) { assert Ideal(s.log)[key] == GetShard(s.store, ShardId(key))[key]; }
    }
  }

  /** Every hit ever returned is what the ideal map held when the lookup read its shard. */
  lemma {:induction false} HitsAreIdeal(cfg: Cfg, steps: seq<Step>, i: nat)
    requires i < |Run(cfg, steps).lookups| && Run(cfg, steps).lookups[i].result.Some?
    ensures var s := Run(cfg, steps);
            var r := s.lookups[i];
            r.result == Lookup(Ideal(LogWhenRead(s, r)), r.key, r.now)
  {
    var s := Run(cfg, steps);
    var r := s.lookups[i];
    WritesAreAtomic(cfg, steps);
    RunKeeps(cfg, steps);
    assert LookupOk(cfg, s, r);
    AtomicPrefix(s.log, r.readAt, ShardQuota(cfg.maxEntries));
    ShardsRefineIdeal(s.log[..r.readAt], ShardQuota(cfg.maxEntries), ShardId(r.key));
  }

  /** While the clock has not run backwards, a lookup that finds in the ideal map an entry which has
      not expired when the shard is read misses it exactly when, since it was last stored, the quota
      dropped it or a first write overwrote it.  Eviction is never the reason. */
  lemma {:induction false} LiveMissIff(cfg: Cfg, steps: seq<Step>, i: nat)
    requires i < |Run(cfg, steps).lookups| && Run(cfg, steps).monotone
    requires var s := Run(cfg, steps);
             var r := s.lookups[i];
             Lookup(Ideal(LogWhenRead(s, r)), r.key, r.clockAt).Some?
    ensures var s := Run(cfg, steps);
            var r := s.lookups[i];
            r.result.None? <==> exists j :: LostLive(LogWhenRead(s, r), j, r.key, ShardQuota(cfg.maxEntries))
  {
    var s := Run(cfg, steps);
    var r := s.lookups[i];
    var quota := ShardQuota(cfg.maxEntries);
    var log := LogWhenRead(s, r);
    RunKeeps(cfg, steps);
    LogIsAtomic(cfg, s);
    assert LookupOk(cfg, s, r);
    AtomicPrefix(s.log, r.readAt, quota);
    ShardsRefineIdeal(log, quota, ShardId(r.key));
    LiveMissingIff(log, quota, r.key, r.clockAt);
  }

  // --- purges --------------------------------------------------------------------------------------

  /** No resurrection.  After a committed purge that covers `k`, whatever any later state holds under
      `k` was committed by a store after the purge, even if that store read its snapshot before. */
  lemma {:induction false} NoResurrection(cfg: Cfg, steps: seq<Step>, p: nat, k: string)
    requires p < |Run(cfg, steps).log| && Purges(Run(cfg, steps).log[p], k)
    requires k in GetShard(Run(cfg, steps).store, ShardId(k))
    ensures var s := Run(cfg, steps);
            exists i :: p < i < |s.log| && s.log[i].op == StoreOp(k, GetShard(s.store, ShardId(k))[k])
  {
    WritesAreAtomic(cfg, steps);
    NothingOutlivesPurge(Run(cfg, steps).log, ShardQuota(cfg.maxEntries), p, k);
  }

  // --- capacity ------------------------------------------------------------------------------------

  function TotalEntries(st: Store, n: nat): nat {
    if n == 0 then 0 else TotalEntries(st, n - 1) + |GetShard(st, n - 1)|
  }

  lemma {:induction false} TotalBounded(st: Store, n: nat, quota: nat)
    requires forall id :: |GetShard(st, id)| <= quota
    ensures TotalEntries(st, n) <= n * quota
  {
    if n > 0 { TotalBounded(st, n - 1, quota); }
  }

  /** Each shard respects its quota, there is nothing outside the 16 shards, and together they hold at
      most 15 entries more than configured. */
  lemma {:induction false} CapacityHolds(cfg: Cfg, steps: seq<Step>)
    requires cfg.maxEntries >= 1
    ensures var s := Run(cfg, steps);
            && (forall id :: |GetShard(s.store, id)| <= ShardQuota(cfg.maxEntries))
            && (forall id :: id >= 16 ==> GetShard(s.store, id) == map[])
            && TotalEntries(s.store, 16) <= cfg.maxEntries + 15
  {
    var s := Run(cfg, steps);
    var quota := ShardQuota(cfg.maxEntries);
    WritesAreAtomic(cfg, steps);
    forall id: nat ensures |GetShard(s.store, id)| <= quota && (id >= NUM_SHARDS ==> GetShard(s.store, id) == map[]) {
      ShardsRefineIdeal(s.log, quota, id);
      if k :| k in GetShard(s.store, id) { assert ShardId(k) == id; }
    }
    TotalBounded(s.store, NUM_SHARDS, quota);
  }

  // --- provenance ------------------------------------------------------------------------------------

  /** Answer `a` was received, decoded, for the same key, less than the TTL before the lookup's clock
      reading, and acting on the hit is acting on that answer. */
  ghost predicate ReplaysAnswer(cfg: Cfg, a: Answer, r: LookupRecord)
    requires r.result.Some?
  {
    && a.key == r.key && a.outcome.Decoded?
    && r.now < a.at + cfg.ttl
    && forall h :: ReplayEffect(r.result.value, h) == LiveEffect(FromCheckResponse(a.outcome.response), h)
  }

  /** Every hit replays an answer that the authorization service gave, for this key, before the shard
      was read and less than the TTL ago, also when the expiry saturates.  Failed calls, empty bodies
      and undecodable answers are never replayed. */
  lemma {:induction false} HitsReplayFreshAnswers(cfg: Cfg, steps: seq<Step>, i: nat)
    requires i < |Run(cfg, steps).lookups| && Run(cfg, steps).lookups[i].result.Some?
    ensures var s := Run(cfg, steps);
            exists j :: 0 <= j < s.lookups[i].answers && j < |s.answers| && ReplaysAnswer(cfg, s.answers[j], s.lookups[i])
  {
    var s := Run(cfg, steps);
    var r := s.lookups[i];
    RunKeeps(cfg, steps);
    assert LookupOk(cfg, s, r);
    var j :| 0 <= j < r.answers && AnsweredBy(cfg, s.answers[..r.answers][j], r.key, r.result.value);
    var a := s.answers[j];
    forall h ensures ReplayEffect(r.result.value, h) == LiveEffect(FromCheckResponse(a.outcome.response), h) {
      AnswersReplayAsLive(a.outcome.response, SaturatingAdd(a.at, cfg.ttl), h);
    }
    assert ReplaysAnswer(cfg, s.answers[j], r);
  }

  // --- giving up -------------------------------------------------------------------------------------

  /** An update gives up a shard only after other workers committed at least three writes to it while
      the update was trying, and it has then written nothing itself. */
  lemma {:induction false} GivingUpTakesThreeRivals(cfg: Cfg, steps: seq<Step>, i: nat)
    requires i < |Run(cfg, steps).giveUps|
    ensures var s := Run(cfg, steps);
            var g := s.giveUps[i];
            && g.startAt <= g.endAt <= |s.log|
            && OthersBetween(s.log, g.startAt, g.endAt, g.shardId, g.worker) >= 3
            && forall j :: g.startAt <= j < g.endAt ==> s.log[j].worker != g.worker
  {
    RunKeeps(cfg, steps);
    assert GiveUpOk(Run(cfg, steps), Run(cfg, steps).giveUps[i]);
  }

  /** A write is refused exactly when it names a version and another worker has written the shard since
      it was read. */
  lemma {:induction false} RefusedIffOverwritten(cfg: Cfg, steps: seq<Step>, w: nat)
    requires At(Run(cfg, steps), w).Armed?
    ensures var s := Run(cfg, steps);
            var p := At(s, w);
            !Accepts(s.store, p.shardId, p.cas)
            <==> p.cas.Some? && exists j :: p.readAt <= j < |s.log| && OtherOn(s.log[j], p.shardId, w)
  {
    var s := Run(cfg, steps);
    var p := At(s, w);
    RunKeeps(cfg, steps);
    assert WorkerOk(cfg, s, w);
    AcceptedSawCurrent(s.store, s.log, p.shardId, w, p.readAt, p.snapshot, p.cas);
    if !Accepts(s.store, p.shardId, p.cas) {
      PositiveCount(s.log, p.readAt, |s.log|, p.shardId, w);
    }
  }

  lemma {:induction false} PositiveCount(log: seq<Commit>, lo: nat, hi: nat, id: nat, me: nat)
    requires hi <= |log| && OthersBetween(log, lo, hi, id, me) > 0
    ensures exists j :: lo <= j < hi && OtherOn(log[j], id, me)
    decreases hi
  {
    if !OtherOn(log[hi - 1], id, me) { PositiveCount(log, lo, hi - 1, id, me); }
  }

  // --- the first-writer race ------------------------------------------------------------------------

  /** Worker 1 has computed its write of an absent shard; worker 2 is about to read the same shard. */
  ghost predicate HalfWay(s: System, op1: Op, op2: Op, id: nat, v1: Shard) {
    && s.store == EMPTY_STORE && s.log == [] && s.clock == 0 && s.monotone
    && At(s, 1) == Armed(op1, id, 0, 0, 0, map[], None, 0, v1)
    && At(s, 2) == Ready(op2, id, 0, 0)
  }

  lemma RaceSecondHalf(cfg: Cfg, s: System, op1: Op, op2: Op, id: nat, v1: Shard)
    requires HalfWay(s, op1, op2, id, v1) && !op1.PurgeAllOp? && !op2.PurgeAllOp?
    ensures var t := Next(cfg, Next(cfg, Next(cfg, Next(cfg, s, Get(2)), Compute(2)), Set(2)), Set(1));
            && t.clock == 0 && t.monotone
            && t.log == [Commit(2, op2, id, false, 0, 0, Transform(op2, map[], 0, ShardQuota(cfg.maxEntries))),
                         Commit(1, op1, id, false, 0, 0, v1)]
            && GetShard(t.store, id) == v1
  {
    var a := Next(cfg, s, Get(2));
    assert At(a, 1) == At(s, 1) && At(a, 2) == Fetched(op2, id, 0, 0, 0, map[], None);
    var b := Next(cfg, a, Compute(2));
    var v2 := Transform(op2, map[], 0, ShardQuota(cfg.maxEntries));
    assert At(b, 1) == At(s, 1) && At(b, 2) == Armed(op2, id, 0, 0, 0, map[], None, 0, v2);
    var c := Next(cfg, b, Set(2));
    assert At(c, 1) == At(s, 1) && c.log == [Commit(2, op2, id, false, 0, 0, v2)];
  }

  lemma RaceFirstHalf(cfg: Cfg, k1: string, k2: string, a1: CheckResponse, a2: CheckResponse)
    requires ShardId(k1) == ShardId(k2)
    ensures var op1 := StoreOp(k1, EntryFor(FromCheckResponse(a1), SaturatingAdd(0, cfg.ttl)));
            var op2 := StoreOp(k2, EntryFor(FromCheckResponse(a2), SaturatingAdd(0, cfg.ttl)));
            var first := [BeginStore(1, k1, Decoded(a1)), Get(1), Compute(1), BeginStore(2, k2, Decoded(a2))];
            HalfWay(Run(cfg, first), op1, op2, ShardId(k1),
                    Transform(op1, map[], 0, ShardQuota(cfg.maxEntries)))
  {
    Run4(cfg, [], BeginStore(1, k1, Decoded(a1)), Get(1), Compute(1), BeginStore(2, k2, Decoded(a2)));
    var first := [BeginStore(1, k1, Decoded(a1)), Get(1), Compute(1), BeginStore(2, k2, Decoded(a2))];
    assert [] + first == first;
    var op1 := StoreOp(k1, EntryFor(FromCheckResponse(a1), SaturatingAdd(0, cfg.ttl)));
    var a := Next(cfg, INIT, BeginStore(1, k1, Decoded(a1)));
    assert At(a, 1) == Ready(op1, ShardId(k1), 0, 0);
    var b := Next(cfg, a, Get(1));
    assert At(b, 1) == Fetched(op1, ShardId(k1), 0, 0, 0, map[], None);
  }

  /** Two workers that both find a shard absent can both write it, and the second write loses the
      first one's live entry. */
  lemma FirstWritersCanLoseAnEntry(cfg: Cfg, k1: string, k2: string, a1: CheckResponse, a2: CheckResponse)
    requires k1 != k2 && ShardId(k1) == ShardId(k2) && cfg.ttl > 0
    ensures var s := Run(cfg, [BeginStore(1, k1, Decoded(a1)), Get(1), Compute(1), BeginStore(2, k2, Decoded(a2)),
                               Get(2), Compute(2), Set(2), Set(1)]);
            && s.monotone && Lookup(Ideal(s.log), k2, s.clock).Some?
            && k2 !in GetShard(s.store, ShardId(k2))
  {
    var id, quota := ShardId(k1), ShardQuota(cfg.maxEntries);
    var e1 := EntryFor(FromCheckResponse(a1), SaturatingAdd(0, cfg.ttl));
    var e2 := EntryFor(FromCheckResponse(a2), SaturatingAdd(0, cfg.ttl));
    var first := [BeginStore(1, k1, Decoded(a1)), Get(1), Compute(1), BeginStore(2, k2, Decoded(a2))];
    RaceFirstHalf(cfg, k1, k2, a1, a2);
    Run4(cfg, first, Get(2), Compute(2), Set(2), Set(1));
    RaceSecondHalf(cfg, Run(cfg, first), StoreOp(k1, e1), StoreOp(k2, e2), id,
                   Transform(StoreOp(k1, e1), map[], 0, quota));
    assert first + [Get(2), Compute(2), Set(2), Set(1)]
           == [BeginStore(1, k1, Decoded(a1)), Get(1), Compute(1), BeginStore(2, k2, Decoded(a2)),
               Get(2), Compute(2), Set(2), Set(1)];
    var log := Run(cfg, first + [Get(2), Compute(2), Set(2), Set(1)]).log;
    StoreIntoEmpty(0, k1, e1, quota);
    assert LastStored(log, 0, k2, e2);
    IdealIff(log, k2, e2);
  }

  lemma Run4(cfg: Cfg, pre: seq<Step>, a: Step, b: Step, c: Step, d: Step)
    ensures Run(cfg, pre + [a, b, c, d])
            == Next(cfg, Next(cfg, Next(cfg, Next(cfg, Run(cfg, pre), a), b), c), d)
  {
    RunSnoc(cfg, pre, a);
    RunSnoc(cfg, pre + [a], b);
    RunSnoc(cfg, pre + [a] + [b], c);
    RunSnoc(cfg, pre + [a] + [b] + [c], d);
    assert pre + [a] + [b] + [c] + [d] == pre + [a, b, c, d];
  }

  lemma RunSnoc(cfg: Cfg, steps: seq<Step>, step: Step)
    ensures Run(cfg, steps + [step]) == Next(cfg, Run(cfg, steps), step)
  {
    assert (steps + [step])[..|steps|] == steps;
  }
}
