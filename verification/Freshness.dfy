/** From the answer to the hit: how long an answer that was stored keeps being found. */
module Freshness {
  import opened Wrappers
  import opened Cache
  import opened CacheKey
  import opened SharedStore
  import opened LogTheory
  import opened Decision
  import opened HeaderMap
  import opened Replay
  import opened Protocol
  import opened ProtocolTheorems
  import opened SerialRuns
  import opened SoloRuns

  // --- where a stored entry comes from ----------------------------------------------------------------

  /** Answer `j` is the last that worker `w` has received. */
  ghost predicate LastOf(answers: seq<Answer>, j: int, w: nat) {
    0 <= j < |answers| && answers[j].worker == w && forall i :: j < i < |answers| ==> answers[i].worker != w
  }

  /** Answer `j` is the last that the worker of write `m` had received when it committed the write. */
  ghost predicate CameFrom(s: System, m: int, j: int) {
    && 0 <= m < |s.log| && 0 <= j < |s.answers|
    && s.answers[j].worker == s.log[m].worker && s.answers[j].logSize <= m
    && forall i :: j < i < |s.answers| && s.answers[i].worker == s.log[m].worker ==> s.answers[i].logSize > m
  }

  predicate Storing(p: Worker) {
    !p.Idle? && !p.Looking? && p.op.StoreOp?
  }

  ghost predicate Brought(cfg: Cfg, s: System, w: nat) {
    var p := At(s, w);
    Storing(p) ==> exists j :: LastOf(s.answers, j, w) && AnsweredBy(cfg, s.answers[j], p.op.key, p.op.entry)
  }

  ghost predicate Sourced(cfg: Cfg, s: System, m: nat)
    requires m < |s.log|
  {
    s.log[m].op.StoreOp? ==>
      exists j :: CameFrom(s, m, j) && AnsweredBy(cfg, s.answers[j], s.log[m].op.key, s.log[m].op.entry)
  }

  ghost predicate OriginInv(cfg: Cfg, s: System) {
    && (forall j :: 0 <= j < |s.answers| ==> s.answers[j].logSize <= |s.log|)
    && (forall w :: Brought(cfg, s, w))
    && (forall m :: 0 <= m < |s.log| ==> Sourced(cfg, s, m))
  }

  lemma {:induction false} SourceKept(cfg: Cfg, s: System, t: System, m: nat)
    requires m < |s.log| && Sourced(cfg, s, m) && s.log <= t.log
    requires t.answers == s.answers || exists a: Answer :: t.answers == s.answers + [a] && a.logSize == |s.log|
    ensures Sourced(cfg, t, m)
  {
    if s.log[m].op.StoreOp? {
      var j :| CameFrom(s, m, j) && AnsweredBy(cfg, s.answers[j], s.log[m].op.key, s.log[m].op.entry);
      assert CameFrom(t, m, j) && t.answers[j] == s.answers[j];
    }
  }

  lemma {:induction false} AnswerArrives(cfg: Cfg, s: System, w: nat, key: string, outcome: Outcome)
    requires OriginInv(cfg, s) && At(s, w).Idle?
    ensures OriginInv(cfg, Next(cfg, s, BeginStore(w, key, outcome)))
  {
    var t := Next(cfg, s, BeginStore(w, key, outcome));
    forall v ensures Brought(cfg, t, v) {
      assert Brought(cfg, s, v);
      if v == w {
        assert LastOf(t.answers, |s.answers|, w);
      } else if Storing(At(s, v)) {
        var j :| LastOf(s.answers, j, v) && AnsweredBy(cfg, s.answers[j], At(s, v).op.key, At(s, v).op.entry);
        assert LastOf(t.answers, j, v) && t.answers[j] == s.answers[j];
      }
    }
    forall m | 0 <= m < |t.log| ensures Sourced(cfg, t, m) { SourceKept(cfg, s, t, m); }
  }

  lemma {:induction false} CommitArrives(cfg: Cfg, s: System, w: nat)
    requires OriginInv(cfg, s) && At(s, w).Armed? && Accepts(s.store, At(s, w).shardId, At(s, w).cas)
    ensures OriginInv(cfg, SetStep(s, w))
  {
    var t, n := SetStep(s, w), |s.log|;
    forall v ensures Brought(cfg, t, v) {
      assert Brought(cfg, s, v);
      assert v != w ==> At(t, v) == At(s, v);
    }
    forall m | 0 <= m < |t.log| ensures Sourced(cfg, t, m) {
      if m < n {
        SourceKept(cfg, s, t, m);
      } else if Storing(At(s, w)) {
        assert Brought(cfg, s, w);
        var j :| LastOf(s.answers, j, w) && AnsweredBy(cfg, s.answers[j], At(s, w).op.key, At(s, w).op.entry);
        assert CameFrom(t, n, j);
      }
    }
  }

  lemma {:induction false} QuietArrives(cfg: Cfg, s: System, step: Step)
    requires OriginInv(cfg, s)
    requires var t := Next(cfg, s, step); t.log == s.log && t.answers == s.answers
    requires !step.BeginStore?
    ensures OriginInv(cfg, Next(cfg, s, step))
  {
    var t := Next(cfg, s, step);
    forall v ensures Brought(cfg, t, v) {
      assert Brought(cfg, s, v);
      assert Storing(At(t, v)) ==> Storing(At(s, v)) && At(t, v).op == At(s, v).op;
    }
    forall m | 0 <= m < |t.log| ensures Sourced(cfg, t, m) { SourceKept(cfg, s, t, m); }
  }

  lemma {:induction false} OriginsHold(cfg: Cfg, steps: seq<Step>)
    ensures OriginInv(cfg, Run(cfg, steps))
  {
    if steps != [] {
      var s, step := Run(cfg, steps[..|steps| - 1]), steps[|steps| - 1];
      OriginsHold(cfg, steps[..|steps| - 1]);
      if step.BeginStore? {
        if At(s, step.worker).Idle? { AnswerArrives(cfg, s, step.worker, step.key, step.outcome); }
      } else if step.Set? && At(s, step.worker).Armed? && Accepts(s.store, At(s, step.worker).shardId, At(s, step.worker).cas) {
        CommitArrives(cfg, s, step.worker);
      } else {
        QuietArrives(cfg, s, step);
      }
    }
  }

  // --- how long it is found -----------------------------------------------------------------------------

  /** Write `m` is the last that stored anything under the key of lookup `r`, before `r` read the shard;
      nothing has purged the key since; and the write came from answer `j`. */
  ghost predicate LastAnswer(s: System, r: LookupRecord, m: nat, j: nat) {
    && m < |LogWhenRead(s, r)| && Stores(LogWhenRead(s, r)[m], r.key) && UntouchedAfter(LogWhenRead(s, r), m, r.key)
    && CameFrom(s, m, j)
  }

  /** The lookup is before the answer's time to live is over, and before the end of time. */
  predicate InTime(cfg: Cfg, a: Answer, now: u64) {
    now < a.at + cfg.ttl && now < 0xFFFF_FFFF_FFFF_FFFF
  }

  lemma {:induction false} StoredAnswer(cfg: Cfg, steps: seq<Step>, i: nat, m: nat, j: nat)
    requires i < |Run(cfg, steps).lookups| && LastAnswer(Run(cfg, steps), Run(cfg, steps).lookups[i], m, j)
    ensures var s := Run(cfg, steps);
            var r := s.lookups[i];
            var a, log := s.answers[j], LogWhenRead(s, r);
            && a.key == r.key && a.outcome.Decoded? && r.key in Ideal(log)
            && AnsweredBy(cfg, a, r.key, Ideal(log)[r.key])
  {
    var s := Run(cfg, steps);
    var r := s.lookups[i];
    var log := LogWhenRead(s, r);
    OriginsHold(cfg, steps);
    assert log[m] == s.log[m] && Sourced(cfg, s, m);
    var k :| CameFrom(s, m, k) && AnsweredBy(cfg, s.answers[k], s.log[m].op.key, s.log[m].op.entry);
    assert k == j;
    assert LastStored(log, m, r.key, s.log[m].op.entry);
    IdealIff(log, r.key, s.log[m].op.entry);
  }

  /** An answer is found exactly as long as its time to live lasts, by the lookup's clock, and no write
      since has met the condition of a loss; and what is found acts as the answer acted live. */
  lemma {:induction false} AnswerIsFoundIff(cfg: Cfg, steps: seq<Step>, i: nat, m: nat, j: nat)
    requires i < |Run(cfg, steps).lookups| && LastAnswer(Run(cfg, steps), Run(cfg, steps).lookups[i], m, j)
    ensures var s := Run(cfg, steps);
            var r, a := s.lookups[i], s.answers[j];
            && a.key == r.key && a.outcome.Decoded?
            && (r.result.Some?
                <==> InTime(cfg, a, r.now) && forall x :: !DroppedAt(LogWhenRead(s, r), x, r.key, ShardQuota(cfg.maxEntries)))
            && (r.result.Some? ==> ReplaysAnswer(cfg, a, r))
  {
    var s := Run(cfg, steps);
    var r, a := s.lookups[i], s.answers[j];
    var log, quota := LogWhenRead(s, r), ShardQuota(cfg.maxEntries);
    StoredAnswer(cfg, steps, i, m, j);
    RunKeeps(cfg, steps);
    LogIsAtomic(cfg, s);
    assert LookupOk(cfg, s, r);
    AtomicPrefix(s.log, r.readAt, quota);
    ShardsRefineIdeal(log, quota, ShardId(r.key));
    MissingIffDropped(log, quota, r.key);
    ReplaysLive(cfg, a, r.key, Ideal(log)[r.key]);
  }

  lemma {:induction false} ReplaysLive(cfg: Cfg, a: Answer, key: string, e: CacheEntry)
    requires AnsweredBy(cfg, a, key, e)
    ensures forall h :: ReplayEffect(e, h) == LiveEffect(FromCheckResponse(a.outcome.response), h)
    ensures forall now: u64 :: InTime(cfg, a, now) <==> now < e.expiresAtMs
  {
    forall h ensures ReplayEffect(e, h) == LiveEffect(FromCheckResponse(a.outcome.response), h) {
      AnswersReplayAsLive(a.outcome.response, SaturatingAdd(a.at, cfg.ttl), h);
    }
  }

  /** While the clock does not run backwards, an answer whose time to live is not over when the shard is
      read is found, unless the quota or an overwriting first write has dropped it. */
  lemma {:induction false} FreshAnswerIsFound(cfg: Cfg, steps: seq<Step>, i: nat, m: nat, j: nat)
    requires i < |Run(cfg, steps).lookups| && LastAnswer(Run(cfg, steps), Run(cfg, steps).lookups[i], m, j)
    requires Run(cfg, steps).monotone
    requires InTime(cfg, Run(cfg, steps).answers[j], Run(cfg, steps).lookups[i].clockAt)
    ensures var s := Run(cfg, steps);
            var r := s.lookups[i];
            && (r.result.Some? <==> forall x :: !LostLive(LogWhenRead(s, r), x, r.key, ShardQuota(cfg.maxEntries)))
            && (r.result.Some? ==> ReplaysAnswer(cfg, s.answers[j], r))
  {
    var s := Run(cfg, steps);
    var r := s.lookups[i];
    StoredAnswer(cfg, steps, i, m, j);
    ReplaysLive(cfg, s.answers[j], r.key, Ideal(LogWhenRead(s, r))[r.key]);
    LiveMissIff(cfg, steps, i);
    AnswerIsFoundIff(cfg, steps, i, m, j);
  }

  /** When operations run one at a time, it is found for the whole of its time to live by the lookup's own
      clock, unless a store has found a full quota of entries outranking it. */
  lemma {:induction false} SerialAnswerIsFoundIff(cfg: Cfg, steps: seq<Step>, i: nat, m: nat, j: nat)
    requires Serial(cfg, steps) && Run(cfg, steps).monotone
    requires i < |Run(cfg, steps).lookups| && LastAnswer(Run(cfg, steps), Run(cfg, steps).lookups[i], m, j)
    ensures var s := Run(cfg, steps);
            var r := s.lookups[i];
            r.result.Some?
            <==> InTime(cfg, s.answers[j], r.now) && forall x :: !SqueezedOut(LogWhenRead(s, r), x, r.key, ShardQuota(cfg.maxEntries))
  {
    var s := Run(cfg, steps);
    var r := s.lookups[i];
    StoredAnswer(cfg, steps, i, m, j);
    ReplaysLive(cfg, s.answers[j], r.key, Ideal(LogWhenRead(s, r))[r.key]);
    AnswerIsFoundIff(cfg, steps, i, m, j);
    if InTime(cfg, s.answers[j], r.now) { SerialMissIff(cfg, steps, i); }
  }

  // --- a lookup that reads its clock too early -----------------------------------------------------------

  function LateRead(cfg: Cfg, k: string, k2: string, a: CheckResponse, b: CheckResponse): seq<Step> {
    EarlyRead(cfg, k, a) + StoreSteps(3, k2, b) + [Get(2)]
  }

  lemma StoreEvicts(now: u64, k: string, e: CacheEntry, k2: string, e2: CacheEntry, quota: nat)
    requires k != k2 && e.expiresAtMs <= now && quota >= 1
    ensures Evict(map[k := e], now)[k2 := e2] == map[k2 := e2]
    ensures StoreTransform(map[k := e], now, k2, e2, quota) == map[k2 := e2]
  {
    assert Evict(map[k := e], now)[k2 := e2] == map[k2 := e2];
    TopKSmall(map[k2 := e2], quota);
  }

  function EarlyRead(cfg: Cfg, k: string, a: CheckResponse): seq<Step> {
    StoreSteps(1, k, a) + [BeginLookup(2, k), Tick(cfg.ttl)]
  }

  /** The first answer is stored, worker 2 has read the clock, and time has passed. */
  lemma {:induction false} EarlyReadRuns(cfg: Cfg, k: string, a: CheckResponse)
    ensures var q, id := Run(cfg, EarlyRead(cfg, k, a)), ShardId(k);
            var e := EntryFor(FromCheckResponse(a), cfg.ttl);
            && q.monotone && q.clock == cfg.ttl && At(q, 2) == Looking(k, 0) && At(q, 3) == Idle && q.lookups == []
            && q.answers == [Answer(1, k, Decoded(a), 0, 0)]
            && q.log == [Commit(1, StoreOp(k, e), id, false, 0, 0, map[k := e])]
            && id in q.store.cells && GetShard(q.store, id) == map[k := e]
  {
    var e := EntryFor(FromCheckResponse(a), cfg.ttl);
    var p := Run(cfg, StoreSteps(1, k, a));
    RunContinues(cfg, [], StoreSteps(1, k, a));
    assert [] + StoreSteps(1, k, a) == StoreSteps(1, k, a);
    StoreAlone(cfg, INIT, 1, k, a);
    StoreIntoEmpty(0, k, e, ShardQuota(cfg.maxEntries));
    assert At(p, 2) == Idle && At(p, 3) == Idle;
    RunSnoc(cfg, StoreSteps(1, k, a), BeginLookup(2, k));
    RunSnoc(cfg, StoreSteps(1, k, a) + [BeginLookup(2, k)], Tick(cfg.ttl));
    assert StoreSteps(1, k, a) + [BeginLookup(2, k)] + [Tick(cfg.ttl)] == EarlyRead(cfg, k, a);
  }

  /** Then the second answer is stored, and worker 2 reads the shard. */
  lemma {:induction false} LateReadRuns(cfg: Cfg, k: string, k2: string, a: CheckResponse, b: CheckResponse)
    requires k != k2 && ShardId(k) == ShardId(k2)
    ensures var t := Run(cfg, LateRead(cfg, k, k2, a, b));
            var e, e2 := EntryFor(FromCheckResponse(a), cfg.ttl), EntryFor(FromCheckResponse(b), SaturatingAdd(cfg.ttl, cfg.ttl));
            && t.monotone
            && t.answers == [Answer(1, k, Decoded(a), 0, 0), Answer(3, k2, Decoded(b), cfg.ttl, 1)]
            && t.log == [Commit(1, StoreOp(k, e), ShardId(k), false, 0, 0, map[k := e]),
                         Commit(3, StoreOp(k2, e2), ShardId(k), true, 1, cfg.ttl, map[k2 := e2])]
            && t.lookups == [LookupRecord(2, k, 0, 2, cfg.ttl, 2, None)]
  {
    var e, e2 := EntryFor(FromCheckResponse(a), cfg.ttl), EntryFor(FromCheckResponse(b), SaturatingAdd(cfg.ttl, cfg.ttl));
    var q := Run(cfg, EarlyRead(cfg, k, a));
    var r := RunOn(cfg, q, StoreSteps(3, k2, b));
    EarlyReadRuns(cfg, k, a);
    StoreAlone(cfg, q, 3, k2, b);
    StoreEvicts(cfg.ttl, k, e, k2, e2, ShardQuota(cfg.maxEntries));
    RunContinues(cfg, EarlyRead(cfg, k, a), StoreSteps(3, k2, b));
    RunSnoc(cfg, EarlyRead(cfg, k, a) + StoreSteps(3, k2, b), Get(2));
    assert At(r, 2) == Looking(k, 0) && GetShard(r.store, ShardId(k)) == map[k2 := e2];
  }

  /** It is the clock when the shard is read that counts, not the lookup's own: between the two, a store
      by another worker can evict an entry that the lookup's clock still has alive. */
  lemma {:induction false} LateReadCanMiss(cfg: Cfg, k: string, k2: string, a: CheckResponse, b: CheckResponse)
    requires k != k2 && ShardId(k) == ShardId(k2) && 0 < cfg.ttl
    ensures var t := Run(cfg, LateRead(cfg, k, k2, a, b));
            && t.monotone && |t.lookups| == 1 && LastAnswer(t, t.lookups[0], 0, 0)
            && InTime(cfg, t.answers[0], t.lookups[0].now) && t.lookups[0].result.None?
            && forall x :: !LostLive(LogWhenRead(t, t.lookups[0]), x, k, ShardQuota(cfg.maxEntries))
  {
    LateReadRuns(cfg, k, k2, a, b);
    var t := Run(cfg, LateRead(cfg, k, k2, a, b));
    var quota := ShardQuota(cfg.maxEntries);
    var log := LogWhenRead(t, t.lookups[0]);
    assert log == t.log;
    NotLost(log[0], log[1], cfg.ttl, k, k2, quota);
    assert log[..1] == [log[0]] && log[..0] == [];
    assert ValueAt(log[..0], ShardId(k)) == map[] && ValueAt(log[..1], ShardId(k)) == log[0].value by {
      assert [log[0]][..0] == [];
    }
  }

  lemma NotLost(c: Commit, c2: Commit, now: u64, k: string, k2: string, quota: nat)
    requires c.op.StoreOp? && c.op.key == k && !c.versioned && c.value == map[k := c.op.entry] && c.op.entry.expiresAtMs <= now
    requires c2.op.StoreOp? && c2.op.key == k2 != k && c2.versioned && c2.now == now && quota >= 1
    ensures !LostToQuota(c, map[], k, quota) && !LostToOverwrite(c, map[], k)
    ensures !LostToQuota(c2, c.value, k, quota) && !LostToOverwrite(c2, c.value, k)
  {
    assert BeforeQuota(c, map[]) == map[k := c.op.entry];
    assert Above(map[k := c.op.entry], k) == {};
    StoreEvicts(now, k, c.op.entry, k2, c2.op.entry, quota);
  }
}
