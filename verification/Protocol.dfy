/** Many workers looking up, storing and purging at once, one host call at a time.

    A schedule is any sequence of steps; a step that its worker is not ready for changes nothing.
    `Run` replays a schedule from the empty store.
 */
module Protocol {
  import opened Wrappers
  import opened Cache
  import opened CacheKey
  import opened SharedStore
  import opened LogTheory
  import opened Decision
  import opened Replay

  datatype Cfg = Cfg(ttl: u64, maxEntries: nat)

  /** How the authorization call for a request ended. */
  datatype Outcome = CallFailed(status: nat) | EmptyBody | Undecodable | Decoded(response: CheckResponse)

  datatype Worker =
    | Idle
      // a lookup that has read the clock
    | Looking(key: string, now: u64)
      // an update of shard `shardId` about to make attempt number `attempt`; `startAt` is the log
      // position at which its retry loop began
    | Ready(op: Op, shardId: nat, attempt: nat, startAt: nat)
      // has read the shard at log position `readAt`
    | Fetched(op: Op, shardId: nat, attempt: nat, startAt: nat, readAt: nat, snapshot: Shard, cas: Option<nat>)
      // has computed what to write
    | Armed(op: Op, shardId: nat, attempt: nat, startAt: nat, readAt: nat, snapshot: Shard, cas: Option<nat>,
            now: u64, value: Shard)

  /** An answer that `worker` received at time `at`, when `logSize` writes had been committed. */
  datatype Answer = Answer(worker: nat, key: string, outcome: Outcome, at: u64, logSize: nat)

  /** `now` is the reading the lookup decides expiry by; `readAt`, `clockAt` and `answers` are the log
      position, the clock and the number of answers received when it read the shard. */
  datatype LookupRecord = LookupRecord(worker: nat, key: string, now: u64, readAt: nat, clockAt: u64,
                                       answers: nat, result: Option<CacheEntry>)

  datatype GiveUp = GiveUp(worker: nat, op: Op, shardId: nat, startAt: nat, endAt: nat)

  /** `monotone` records whether the clock has never run backwards. */
  datatype System = System(
    store: Store,
    clock: u64,
    monotone: bool,
    workers: map<nat, Worker>,
    log: seq<Commit>,
    answers: seq<Answer>,
    lookups: seq<LookupRecord>,
    giveUps: seq<GiveUp>)

  datatype Step =
    | Tick(clock: u64)
    | BeginLookup(worker: nat, key: string)
    | BeginStore(worker: nat, key: string, outcome: Outcome)
    | BeginPurgeKey(worker: nat, key: string)
    | BeginPurgeAll(worker: nat)
    | Get(worker: nat)
    | Compute(worker: nat)
    | Set(worker: nat)

  /** The writes committed before a lookup read its shard. */
  function LogWhenRead(s: System, r: LookupRecord): seq<Commit> {
    if r.readAt <= |s.log| then s.log[..r.readAt] else s.log
  }

  const INIT: System := System(EMPTY_STORE, 0, true, map[], [], [], [], [])

  function At(s: System, w: nat): Worker {
    if w in s.workers then s.workers[w] else Idle
  }

  function Move(s: System, w: nat, next: Worker): System {
    s.(workers := s.workers[w := next])
  }

  /** Where an update goes after finishing with a shard: a purge of everything to the next shard. */
  function AfterShard(op: Op, id: nat, logSize: nat): Worker {
    if op.PurgeAllOp? && id + 1 < NUM_SHARDS then Ready(op, id + 1, 0, logSize) else Idle
  }

  function BeginStoreStep(cfg: Cfg, s: System, w: nat, key: string, outcome: Outcome): System {
    var s' := s.(answers := s.answers + [Answer(w, key, outcome, s.clock, |s.log|)]);
    match outcome
    case Decoded(response) =>
      var entry := EntryFor(FromCheckResponse(response), SaturatingAdd(s.clock, cfg.ttl));
      Move(s', w, Ready(StoreOp(key, entry), ShardId(key), 0, |s.log|))
    case _ => s'
  }

  function GetStep(s: System, w: nat): System {
    match At(s, w)
    case Looking(key, now) =>
      var r := LookupRecord(w, key, now, |s.log|, s.clock, |s.answers|, Lookup(GetShard(s.store, ShardId(key)), key, now));
      Move(s, w, Idle).(lookups := s.lookups + [r])
    case Ready(op, id, attempt, startAt) =>
      Move(s, w, Fetched(op, id, attempt, startAt, |s.log|, GetShard(s.store, id), GetCas(s.store, id)))
    case _ => s
  }

  function ComputeStep(cfg: Cfg, s: System, w: nat): System {
    match At(s, w)
    case Fetched(op, id, attempt, startAt, readAt, snapshot, cas) =>
      Move(s, w, Armed(op, id, attempt, startAt, readAt, snapshot, cas, s.clock,
                       Transform(op, snapshot, s.clock, ShardQuota(cfg.maxEntries))))
    case _ => s
  }

  function SetStep(s: System, w: nat): System {
    match At(s, w)
    case Armed(op, id, attempt, startAt, readAt, snapshot, cas, now, value) =>
      if Accepts(s.store, id, cas) then
        Move(s, w, AfterShard(op, id, |s.log| + 1)).(
          store := Write(s.store, id, value),
          log := s.log + [Commit(w, op, id, cas.Some?, readAt, now, value)])
      else if attempt + 1 < 3 then
        Move(s, w, Ready(op, id, attempt + 1, startAt))
      else
        Move(s, w, AfterShard(op, id, |s.log|)).(giveUps := s.giveUps + [GiveUp(w, op, id, startAt, |s.log|)])
    case _ => s
  }

  function Next(cfg: Cfg, s: System, step: Step): System {
    match step
    case Tick(clock) => s.(clock := clock, monotone := s.monotone && s.clock <= clock)
    case BeginLookup(w, key) => if At(s, w).Idle? then Move(s, w, Looking(key, s.clock)) else s
    case BeginStore(w, key, outcome) => if At(s, w).Idle? then BeginStoreStep(cfg, s, w, key, outcome) else s
    case BeginPurgeKey(w, key) =>
      if At(s, w).Idle? then Move(s, w, Ready(PurgeKeyOp(key), ShardId(key), 0, |s.log|)) else s
    case BeginPurgeAll(w) => if At(s, w).Idle? then Move(s, w, Ready(PurgeAllOp, 0, 0, |s.log|)) else s
    case Get(w) => GetStep(s, w)
    case Compute(w) => ComputeStep(cfg, s, w)
    case Set(w) => SetStep(s, w)
  }

  function Run(cfg: Cfg, steps: seq<Step>): System {
    if steps == [] then INIT else Next(cfg, Run(cfg, steps[..|steps| - 1]), steps[|steps| - 1])
  }

  // --- the invariant -----------------------------------------------------------------------------

  /** The answer that a stored entry comes from. */
  predicate AnsweredBy(cfg: Cfg, a: Answer, key: string, entry: CacheEntry) {
    a.key == key && a.outcome.Decoded?
    && entry == EntryFor(FromCheckResponse(a.outcome.response), SaturatingAdd(a.at, cfg.ttl))
  }

  ghost predicate Answered(cfg: Cfg, answers: seq<Answer>, op: Op) {
    op.StoreOp? ==> exists i :: 0 <= i < |answers| && AnsweredBy(cfg, answers[i], op.key, op.entry)
  }

  ghost predicate Trying(cfg: Cfg, s: System, w: nat, op: Op, id: nat, attempt: nat, startAt: nat, readAt: nat) {
    && RightShard(op, id) && Answered(cfg, s.answers, op)
    && attempt < 3 && startAt <= readAt <= |s.log|
    && NoneOf(s.log, startAt, w)
    && OthersBetween(s.log, startAt, readAt, id, w) >= attempt
  }

  ghost predicate WorkerOk(cfg: Cfg, s: System, w: nat) {
    match At(s, w)
    case Idle => true
    case Looking(key, now) => s.monotone ==> now <= s.clock
    case Ready(op, id, attempt, startAt) => Trying(cfg, s, w, op, id, attempt, startAt, |s.log|)
    case Fetched(op, id, attempt, startAt, readAt, snapshot, cas) =>
      Trying(cfg, s, w, op, id, attempt, startAt, readAt)
      && SnapshotHolds(s.store, s.log, id, w, readAt, snapshot, cas)
    case Armed(op, id, attempt, startAt, readAt, snapshot, cas, now, value) =>
      Trying(cfg, s, w, op, id, attempt, startAt, readAt)
      && SnapshotHolds(s.store, s.log, id, w, readAt, snapshot, cas)
      && value == Transform(op, snapshot, now, ShardQuota(cfg.maxEntries))
      && (s.monotone ==> now <= s.clock)
  }

  ghost predicate CommitOk(cfg: Cfg, s: System, i: nat)
    requires i < |s.log|
  {
    && Atomic(s.log[i], ValueAt(s.log[..i], s.log[i].shardId), ShardQuota(cfg.maxEntries))
    && Timely(s.log, i)
    && Answered(cfg, s.answers, s.log[i].op)
    && (s.monotone ==> s.log[i].now <= s.clock)
  }

  ghost predicate LookupOk(cfg: Cfg, s: System, r: LookupRecord) {
    && r.readAt <= |s.log| && r.answers <= |s.answers|
    && r.result == Lookup(ValueAt(s.log[..r.readAt], ShardId(r.key)), r.key, r.now)
    && (r.result.Some? ==> Answered(cfg, s.answers[..r.answers], StoreOp(r.key, r.result.value)))
    && (s.monotone ==> r.now <= r.clockAt && forall i :: 0 <= i < r.readAt ==> s.log[i].now <= r.clockAt)
  }

  ghost predicate GiveUpOk(s: System, g: GiveUp) {
    && g.startAt <= g.endAt <= |s.log|
    && (forall i :: g.startAt <= i < g.endAt ==> s.log[i].worker != g.worker)
    && OthersBetween(s.log, g.startAt, g.endAt, g.shardId, g.worker) >= 3
  }

  ghost predicate Inv(cfg: Cfg, s: System) {
    && StoreMatchesLog(s.store, s.log)
    && (forall w :: WorkerOk(cfg, s, w))
    && (forall i :: 0 <= i < |s.log| ==> CommitOk(cfg, s, i))
    && (forall i :: 0 <= i < |s.lookups| ==> LookupOk(cfg, s, s.lookups[i]))
    && (forall i :: 0 <= i < |s.giveUps| ==> GiveUpOk(s, s.giveUps[i]))
  }

  // --- preservation ------------------------------------------------------------------------------

  lemma MoreAnswers(cfg: Cfg, answers: seq<Answer>, a: Answer, op: Op)
    requires Answered(cfg, answers, op)
    ensures Answered(cfg, answers + [a], op)
  {
    if op.StoreOp? {
      var i :| 0 <= i < |answers| && AnsweredBy(cfg, answers[i], op.key, op.entry);
      assert AnsweredBy(cfg, (answers + [a])[i], op.key, op.entry);
    }
  }

  /** Steps that leave the store and the log alone keep every other worker's facts. */
  lemma SameLogKeeps(cfg: Cfg, s: System, t: System, w: nat)
    requires Inv(cfg, s) && WorkerOk(cfg, t, w)
    requires t.store == s.store && t.log == s.log && t.clock == s.clock && t.monotone == s.monotone
    requires t.answers == s.answers || exists a :: t.answers == s.answers + [a]
    requires t.workers == s.workers || t.workers == s.workers[w := At(t, w)]
    requires s.lookups <= t.lookups && forall i :: |s.lookups| <= i < |t.lookups| ==> LookupOk(cfg, t, t.lookups[i])
    requires s.giveUps <= t.giveUps && forall i :: |s.giveUps| <= i < |t.giveUps| ==> GiveUpOk(t, t.giveUps[i])
    ensures Inv(cfg, t)
  {
    forall i | 0 <= i < |s.lookups| ensures LookupOk(cfg, t, t.lookups[i]) {
      assert LookupOk(cfg, s, s.lookups[i]);
      assert t.answers[..s.lookups[i].answers] == s.answers[..s.lookups[i].answers];
    }
    forall i | 0 <= i < |s.giveUps| ensures GiveUpOk(t, t.giveUps[i]) { assert GiveUpOk(s, s.giveUps[i]); }
    forall op | Answered(cfg, s.answers, op) ensures Answered(cfg, t.answers, op) {
      if t.answers != s.answers {
        var a :| t.answers == s.answers + [a];
        MoreAnswers(cfg, s.answers, a, op);
      }
    }
    forall v ensures WorkerOk(cfg, t, v) {
      if v != w {
        assert At(t, v) == At(s, v);
        assert WorkerOk(cfg, s, v);
      }
    }
    forall i | 0 <= i < |t.log| ensures CommitOk(cfg, t, i) { assert CommitOk(cfg, s, i); }
  }

  lemma TickKeeps(cfg: Cfg, s: System, clock: u64)
    requires Inv(cfg, s)
    ensures Inv(cfg, Next(cfg, s, Tick(clock)))
  {
    var t := Next(cfg, s, Tick(clock));
    forall v ensures WorkerOk(cfg, t, v) { assert At(t, v) == At(s, v) && WorkerOk(cfg, s, v); }
    forall i | 0 <= i < |t.log| ensures CommitOk(cfg, t, i) { assert CommitOk(cfg, s, i); }
    forall i | 0 <= i < |t.lookups| ensures LookupOk(cfg, t, t.lookups[i]) { assert LookupOk(cfg, s, s.lookups[i]); }
    forall i | 0 <= i < |t.giveUps| ensures GiveUpOk(t, t.giveUps[i]) { assert GiveUpOk(s, s.giveUps[i]); }
  }

  lemma BeginStoreKeeps(cfg: Cfg, s: System, w: nat, key: string, outcome: Outcome)
    requires Inv(cfg, s) && At(s, w).Idle?
    ensures Inv(cfg, BeginStoreStep(cfg, s, w, key, outcome))
  {
    var t := BeginStoreStep(cfg, s, w, key, outcome);
    if outcome.Decoded? {
      assert AnsweredBy(cfg, t.answers[|s.answers|], key, At(t, w).op.entry);
    }
    assert t.answers == s.answers + [Answer(w, key, outcome, s.clock, |s.log|)];
    SameLogKeeps(cfg, s, t, w);
  }

  /** A hit was answered before it was read. */
  lemma HitWasAnswered(cfg: Cfg, s: System, key: string, now: u64)
    requires Inv(cfg, s)
    requires Lookup(GetShard(s.store, ShardId(key)), key, now).Some?
    ensures Answered(cfg, s.answers, StoreOp(key, Lookup(GetShard(s.store, ShardId(key)), key, now).value))
  {
    var quota := ShardQuota(cfg.maxEntries);
    LogIsAtomic(cfg, s);
    ShardsRefineIdeal(s.log, quota, ShardId(key));
    var e := Lookup(GetShard(s.store, ShardId(key)), key, now).value;
    IdealIff(s.log, key, e);
    var i :| LastStored(s.log, i, key, e);
    assert CommitOk(cfg, s, i);
  }

  lemma LogIsAtomic(cfg: Cfg, s: System)
    requires Inv(cfg, s)
    ensures AtomicLog(s.log, ShardQuota(cfg.maxEntries))
  {
    forall i | 0 <= i < |s.log| ensures Atomic(s.log[i], ValueAt(s.log[..i], s.log[i].shardId), ShardQuota(cfg.maxEntries)) {
      assert CommitOk(cfg, s, i);
    }
  }

  lemma GetKeeps(cfg: Cfg, s: System, w: nat)
    requires Inv(cfg, s)
    ensures Inv(cfg, GetStep(s, w))
  {
    var t := GetStep(s, w);
    assert WorkerOk(cfg, s, w);
    assert s.log[..|s.log|] == s.log && s.answers[..|s.answers|] == s.answers;
    forall i | 0 <= i < |s.log| ensures s.monotone ==> s.log[i].now <= s.clock { assert CommitOk(cfg, s, i); }
    if At(s, w).Looking? && Lookup(GetShard(s.store, ShardId(At(s, w).key)), At(s, w).key, At(s, w).now).Some? {
      HitWasAnswered(cfg, s, At(s, w).key, At(s, w).now);
    }
    SameLogKeeps(cfg, s, t, w);
  }

  lemma LocalKeeps(cfg: Cfg, s: System, step: Step)
    requires Inv(cfg, s)
    requires step.BeginLookup? || step.BeginPurgeKey? || step.BeginPurgeAll? || step.Compute?
    ensures Inv(cfg, Next(cfg, s, step))
  {
    var t := Next(cfg, s, step);
    assert WorkerOk(cfg, s, step.worker);
    SameLogKeeps(cfg, s, t, step.worker);
  }

  lemma RefusedKeeps(cfg: Cfg, s: System, w: nat)
    requires Inv(cfg, s) && At(s, w).Armed? && !Accepts(s.store, At(s, w).shardId, At(s, w).cas)
    ensures Inv(cfg, SetStep(s, w))
  {
    var t := SetStep(s, w);
    var Armed(op, id, attempt, startAt, readAt, snapshot, cas, now, value) := At(s, w);
    assert WorkerOk(cfg, s, w);
    AcceptedSawCurrent(s.store, s.log, id, w, readAt, snapshot, cas);
    OthersSplit(s.log, startAt, readAt, |s.log|, id, w);
    SameLogKeeps(cfg, s, t, w);
  }

  lemma OtherWorkerKept(cfg: Cfg, s: System, t: System, c: Commit, v: nat)
    requires StoreMatchesLog(s.store, s.log) && WorkerOk(cfg, s, v) && v != c.worker
    requires At(t, v) == At(s, v) && t.clock == s.clock && t.monotone == s.monotone && t.answers == s.answers
    requires t.store == Write(s.store, c.shardId, c.value) && t.log == s.log + [c]
    ensures WorkerOk(cfg, t, v)
  {
    match At(s, v)
    case Idle =>
    case Looking(_, _) =>
    case Ready(op, id, attempt, startAt) =>
      OthersGrow(s.log, c, startAt, id, v);
    case Fetched(op, id, attempt, startAt, readAt, snapshot, cas) =>
      OthersPrefix(s.log, t.log, startAt, readAt, id, v);
      SnapshotSurvives(s.store, s.log, c, id, v, readAt, snapshot, cas);
    case Armed(op, id, attempt, startAt, readAt, snapshot, cas, now, value) =>
      OthersPrefix(s.log, t.log, startAt, readAt, id, v);
      SnapshotSurvives(s.store, s.log, c, id, v, readAt, snapshot, cas);
  }

  lemma CommittedKeeps(cfg: Cfg, s: System, w: nat)
    requires Inv(cfg, s) && At(s, w).Armed? && Accepts(s.store, At(s, w).shardId, At(s, w).cas)
    ensures Inv(cfg, SetStep(s, w))
  {
    var t := SetStep(s, w);
    var Armed(op, id, attempt, startAt, readAt, snapshot, cas, now, value) := At(s, w);
    var c := Commit(w, op, id, cas.Some?, readAt, now, value);
    assert WorkerOk(cfg, s, w);
    AcceptedSawCurrent(s.store, s.log, id, w, readAt, snapshot, cas);
    WriteMatchesLog(s.store, s.log, c);
    forall v ensures WorkerOk(cfg, t, v) {
      if v != w {
        assert WorkerOk(cfg, s, v);
        OtherWorkerKept(cfg, s, t, c, v);
      }
    }
    forall i | 0 <= i < |t.log| ensures CommitOk(cfg, t, i) {
      assert t.log[..i] == s.log[..i];
      if i < |s.log| { assert CommitOk(cfg, s, i); } else { assert s.log[..i] == s.log; }
    }
    forall i | 0 <= i < |t.lookups| ensures LookupOk(cfg, t, t.lookups[i]) {
      assert LookupOk(cfg, s, s.lookups[i]);
      assert t.log[..t.lookups[i].readAt] == s.log[..t.lookups[i].readAt];
    }
    forall i | 0 <= i < |t.giveUps| ensures GiveUpOk(t, t.giveUps[i]) {
      var g := s.giveUps[i];
      assert GiveUpOk(s, g);
      OthersPrefix(s.log, t.log, g.startAt, g.endAt, g.shardId, g.worker);
    }
  }

  lemma NextKeeps(cfg: Cfg, s: System, step: Step)
    requires Inv(cfg, s)
    ensures Inv(cfg, Next(cfg, s, step))
  {
    match step
    case Tick(clock) => TickKeeps(cfg, s, clock);
    case BeginStore(w, key, outcome) => if At(s, w).Idle? { BeginStoreKeeps(cfg, s, w, key, outcome); }
    case Get(w) => GetKeeps(cfg, s, w);
    case Set(w) =>
      if At(s, w).Armed? {
        if Accepts(s.store, At(s, w).shardId, At(s, w).cas) { CommittedKeeps(cfg, s, w); } else { RefusedKeeps(cfg, s, w); }
      }
    case _ => LocalKeeps(cfg, s, step);
  }

  /** Every schedule of any number of workers keeps the invariant. */
  lemma {:induction false} RunKeeps(cfg: Cfg, steps: seq<Step>)
    ensures Inv(cfg, Run(cfg, steps))
  {
    if steps != [] {
      RunKeeps(cfg, steps[..|steps| - 1]);
      NextKeeps(cfg, Run(cfg, steps[..|steps| - 1]), steps[|steps| - 1]);
    }
  }
}
